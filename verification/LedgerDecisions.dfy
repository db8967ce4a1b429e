/**
 When the ledger's transactions answer yes, what they then write, and what each refusal means, in terms of the
 tables and the caller's arguments.
 */
module LedgerDecisions {
  import opened Options
  import opened Text
  import opened LedgerTables
  import opened LedgerTransactions
  import opened LedgerRuns
  import opened LedgerTheorems
  import opened LedgerRaces

  /** The run is recorded under this tenant and project, over this exact source. */
  predicate SourceIs(run: RuleRun, tenant: string, project: string, s: Source) {
    && run.metadata.Some? && run.summary.Some?
    && run.metadata.value == Metadata(Some(tenant), Some(project), run.version)
    && Canonical(tenant) && Canonical(project)
    && s.version == run.version && s.run == run.id
    && run.summary.value.sourceSha == Some(s.sha) && IsSha256(s.sha)
  }

  lemma BindingExactlyWhen(run: RuleRun, tenant: string, project: string, s: Source)
    ensures RunSourceBinding(run) == Ok(SourceBinding(tenant, project, s)) <==> SourceIs(run, tenant, project, s)
  {
    hide Canonical, IsSha256;
  }

  lemma BindingIsSource(run: RuleRun)
    ensures RunSourceBinding(run).Ok? ==>
      var b := RunSourceBinding(run).value; SourceIs(run, b.tenant, b.project, b.source)
    ensures RunSourceBinding(run).Err? ==> forall tenant, project, s :: !SourceIs(run, tenant, project, s)
  {
    hide Canonical, IsSha256;
    forall tenant, project, s { BindingExactlyWhen(run, tenant, project, s); }
    if RunSourceBinding(run).Ok? {
      var b := RunSourceBinding(run).value;
      BindingExactlyWhen(run, b.tenant, b.project, b.source);
    }
  }

  /** The row an issue came from. */
  predicate IsAnchor(db: Db, issue: Issue, r: Row) {
    r in db.rows && issue.sourceRef == Some(r.id) && r.guid == issue.guid && r.run in db.runs
  }

  lemma AnchorIsFound(db: Db, issue: Issue, r: Row)
    requires Inv(db) && issue.sourceRef.Some?
    ensures IsAnchor(db, issue, r) <==>
      FindRow(db.rows, issue.sourceRef.value) == Some(r) && r.guid == issue.guid && r.run in db.runs
  {
    hide IssuesOk, ConfirmationsOk, Resolutions, Canonical;
    FoundRowIsStored(db.rows, issue.sourceRef.value);
    if r in db.rows { assert StoredRow(db, r); }
  }

  // ----- reopen -----

  predicate Grants(db: Db, a: Claims, issue: Issue, k: Case, r: Row) {
    && k in a.cases && IsAnchor(db, issue, r)
    && k.issue == issue.id && Some(k.guid) == issue.guid && k.rule == r.rule
    && k.original.version == issue.version && SourceIs(db.runs[r.run], k.tenant, k.project, k.original)
  }

  /** The grant lets its holder reopen this issue until it expires. */
  ghost predicate GrantsReopen(db: Db, a: Claims, issue: Issue) {
    && a.operation == ReopenOp
    && exists k, r :: Grants(db, a, issue, k, r)
  }

  ghost predicate HasBoundSource(db: Db, issue: Issue) {
    exists r, tenant, project, s :: IsAnchor(db, issue, r) && SourceIs(db.runs[r.run], tenant, project, s)
  }

  lemma GrantExactlyWhen(db: Db, a: Claims, issue: Issue, now: nat)
    requires Inv(db) && issue.sourceRef.Some?
    ensures var anchor := FindRow(db.rows, issue.sourceRef.value);
      var found := anchor.Some? && anchor.value.guid == issue.guid && anchor.value.run in db.runs;
      && (GrantsReopen(db, a, issue) && now < a.expires <==>
            found && RunSourceBinding(db.runs[anchor.value.run]).Ok?
            && MayReopen(a, issue, anchor.value.rule, RunSourceBinding(db.runs[anchor.value.run]).value, now))
      && (HasBoundSource(db, issue) <==> found && RunSourceBinding(db.runs[anchor.value.run]).Ok?)
  {
    var anchor := FindRow(db.rows, issue.sourceRef.value);
    forall r ensures IsAnchor(db, issue, r) <==> anchor == Some(r) && r.guid == issue.guid && r.run in db.runs {
      AnchorIsFound(db, issue, r);
    }
    if anchor.Some? && anchor.value.guid == issue.guid && anchor.value.run in db.runs {
      assert IsAnchor(db, issue, anchor.value);
      BindingIsSource(db.runs[anchor.value.run]);
      hide *;
      GrantOnAnchor(db, a, issue, now, anchor.value);
    }
  }

  lemma GrantOnAnchor(db: Db, a: Claims, issue: Issue, now: nat, anchor: Row)
    requires forall r :: IsAnchor(db, issue, r) <==> r == anchor
    requires IsAnchor(db, issue, anchor)
    ensures anchor.run in db.runs
    ensures var binding := RunSourceBinding(db.runs[anchor.run]);
      && (GrantsReopen(db, a, issue) && now < a.expires <==> binding.Ok? && MayReopen(a, issue, anchor.rule, binding.value, now))
      && (HasBoundSource(db, issue) <==> binding.Ok?)
  {
    hide SourceIs, RunSourceBinding;
    var run := db.runs[anchor.run];
    BindingIsSource(run);
    forall tenant, project, s
      ensures RunSourceBinding(run) == Ok(SourceBinding(tenant, project, s)) <==> SourceIs(run, tenant, project, s)
    {
      BindingExactlyWhen(run, tenant, project, s);
    }
    if RunSourceBinding(run).Ok? && MayReopen(a, issue, anchor.rule, RunSourceBinding(run).value, now) {
      var b := RunSourceBinding(run).value;
      var k :| k in a.cases && k.issue == issue.id && Some(k.guid) == issue.guid
               && k.tenant == b.tenant && k.project == b.project && k.original == b.source
               && k.original.version == issue.version && k.rule == anchor.rule;
      assert RunSourceBinding(run) == Ok(SourceBinding(k.tenant, k.project, k.original));
      assert Grants(db, a, issue, k, anchor);
    }
  }

  lemma NoSource(db: Db, issue: Issue)
    requires issue.sourceRef.None?
    ensures !HasBoundSource(db, issue)
  {
  }

  /** What the reopen command itself must look like, and what it must be about. */
  ghost predicate ReopenIsAbout(db: Db, id: Id, expected: int, note: string) {
    && Canonical(id) && expected >= 0 && |note| <= 4000
    && id in db.issues && db.issues[id].kind == Formal && db.issues[id].sourceType == Some("rule_result")
    && HasBoundSource(db, db.issues[id])
  }

  /** The one row a status change adds to the audit log. */
  predicate Logs(db: Db, after: Db, e: Event) { after.events == db.events + [e] }

  /**
   A reopen succeeds exactly for a well-formed command about a resolved or rejected rule-result issue at its
   present revision, under a reopen grant that still holds at the commit and names the issue's component, rule
   and exact original source. It takes that issue one step to reopened; otherwise nothing changes, and the error
   says which of the three is wanting: the issue, the authority, or the moment.
   */
  lemma ReopensExactlyWhen(db: Db, id: Id, expected: int, note: string, a: Claims, start: nat, end: nat)
    requires Inv(db)
    ensures var (after, answer) := Reopen(db, id, expected, note, a, start, end);
      && (answer.Ok? <==>
          && ReopenIsAbout(db, id, expected, note)
          && db.issues[id].status in {Resolved, Rejected} && db.issues[id].revision == expected
          && GrantsReopen(db, a, db.issues[id]) && start < a.expires && end < a.expires)
      && (answer.Ok? ==> (
            && OneStep(db, after, id) && after.issues[id].status == Reopened && answer.value == after.issues[id]
            && Logs(db, after, Event(id, RemediationReopened, Some(db.issues[id].status), Reopened, note))))
      && (answer.Err? ==> after == db)
      && (answer == Err(Invalid) <==> !ReopenIsAbout(db, id, expected, note))
      && (answer == Err(Conflict) ==> (
            && GrantsReopen(db, a, db.issues[id]) && start < a.expires
            && (db.issues[id].revision != expected || db.issues[id].status !in {Resolved, Rejected})))
      && (answer == Err(Unauthorized) ==> !GrantsReopen(db, a, db.issues[id]) || a.expires <= start || a.expires <= end)
      && (answer.Err? ==> answer.error in {Invalid, Conflict, Unauthorized})
  {
    hide Inv, FindRow, RunSourceBinding, MayReopen, Canonical, GrantsReopen, HasBoundSource, SourceIs, OneStep;
    if id in db.issues && db.issues[id].sourceRef.Some? {
      GrantExactlyWhen(db, a, db.issues[id], start);
      GrantExactlyWhen(db, a, db.issues[id], end);
      if db.issues[id].status in {Resolved, Rejected} {
        ChangeIsOneStep(db, id, RemediationReopened, Reopened, note);
      }
    } else if id in db.issues {
      NoSource(db, db.issues[id]);
    }
  }

  /** The status machine read backwards: from where each status is reached. */
  lemma ReachedFrom(from: IssueStatus, to: IssueStatus)
    ensures to in AllowedFrom(from) <==>
      match to
      case Open => from == Assigned
      case Assigned => from in {Open, InProgress, Reopened}
      case InProgress => from in {Open, Assigned, Reopened}
      case Resolved => from in {Open, Assigned, InProgress, Reopened}
      case Rejected => from in {Open, Assigned, InProgress, Reopened}
      case Reopened => from in {Resolved, Rejected}
  {
  }

  // ----- confirm -----

  predicate CommandIsWell(cmd: Command) {
    && cmd.expectedRevision >= 0 && |cmd.note| <= 4000
    && forall i | 0 <= i < 5 ::
         Canonical([cmd.issue, cmd.revisedVersion, cmd.revisedRun, cmd.revisedResult, cmd.key][i])
  }

  /** The command is about an issue that came from row `r`, and about two runs over these sources. */
  predicate About(db: Db, cmd: Command, r: Row, tenant: string, project: string, original: Source, revised: Source) {
    && cmd.issue in db.issues && cmd.revisedRun in db.runs
    && var issue := db.issues[cmd.issue];
    && issue.kind == Formal && issue.sourceType == Some("rule_result") && IsAnchor(db, issue, r)
    && IsCanonical(issue.guid) && Canonical(r.rule)
    && SourceIs(db.runs[r.run], tenant, project, original) && original.version == issue.version
    && SourceIs(db.runs[cmd.revisedRun], tenant, project, revised) && revised.version == Some(cmd.revisedVersion)
  }

  predicate IsAbout(db: Db, cmd: Command, r: Row, ctx: Context) {
    About(db, cmd, r, ctx.tenant, ctx.project, ctx.original, ctx.revised)
  }

  lemma SubjectIsAbout(db: Db, cmd: Command)
    requires Inv(db) && FindSubject(db, cmd).Ok?
    ensures var f := FindSubject(db, cmd).value;
      && IsAbout(db, cmd, f.anchor, f.context)
      && f.context.request == cmd && Some(f.context.guid) == db.issues[cmd.issue].guid && f.context.rule == f.anchor.rule
      && f.original == db.runs[f.anchor.run] && f.revised == db.runs[cmd.revisedRun] && f.issue == db.issues[cmd.issue]
  {
    hide Inv, FindRow, RunSourceBinding, Canonical, IsAnchor, SourceIs;
    var f := FindSubject(db, cmd).value;
    AnchorIsFound(db, db.issues[cmd.issue], f.anchor);
    BindingIsSource(f.original);
    BindingIsSource(f.revised);
    SourceVersion(f.original, f.context.tenant, f.context.project, f.context.original);
    SourceVersion(f.revised, f.context.tenant, f.context.project, f.context.revised);
  }

  lemma AboutIsSubject(
    db: Db, cmd: Command, r: Row, tenant: string, project: string, original: Source, revised: Source)
    requires Inv(db) && About(db, cmd, r, tenant, project, original, revised)
    ensures FindSubject(db, cmd).Ok?
    ensures var f := FindSubject(db, cmd).value;
      && f.anchor == r && f.context.tenant == tenant && f.context.project == project
      && f.context.original == original && f.context.revised == revised
  {
    hide Inv, FindRow, RunSourceBinding, Canonical, SourceIs;
    AnchorIsFound(db, db.issues[cmd.issue], r);
    SourceVersion(db.runs[r.run], tenant, project, original);
    SourceVersion(db.runs[cmd.revisedRun], tenant, project, revised);
  }

  lemma SourceVersion(run: RuleRun, tenant: string, project: string, s: Source)
    requires SourceIs(run, tenant, project, s)
    ensures s.version == run.version && RunSourceBinding(run) == Ok(SourceBinding(tenant, project, s))
  {
    BindingExactlyWhen(run, tenant, project, s);
  }

  /** The i-th case of the grant vouches for this very correspondence. */
  predicate CaseFits(a: Claims, i: nat, db: Db, cmd: Command, r: Row, tenant: string, project: string, original: Source, revised: Source) {
    && i < |a.cases| && cmd.issue in db.issues
    && a.cases[i].issue == cmd.issue && a.cases[i].tenant == tenant && a.cases[i].project == project
    && Some(a.cases[i].guid) == db.issues[cmd.issue].guid && a.cases[i].rule == r.rule
    && a.cases[i].original == original && a.cases[i].revised == revised
  }

  /** One case of the grant fits, no other does, and the grant is an unexpired one to confirm. */
  predicate GrantsConfirm(a: Claims, i: nat, db: Db, cmd: Command, r: Row, now: nat) {
    && i < |a.cases|
    && var k := a.cases[i];
    && a.operation == ConfirmOp && now < a.expires
    && Canonical(a.principal) && Canonical(a.authorization) && Canonical(k.correspondence)
    && About(db, cmd, r, k.tenant, k.project, k.original, k.revised)
    && forall j: nat | j < |a.cases| :: CaseFits(a, j, db, cmd, r, k.tenant, k.project, k.original, k.revised) <==> j == i
  }

  lemma {:induction false} MatchesOne(cases: seq<Case>, ctx: Context, i: nat)
    requires i < |cases| && forall j: nat | j < |cases| :: Vouches(cases[j], ctx) <==> j == i
    ensures Matches(cases, ctx) == [cases[i]]
  {
    hide Vouches;
    var n := |cases| - 1;
    if i < n { MatchesOne(cases[..n], ctx, i); } else { MatchesNone(cases[..n], ctx); }
  }

  lemma {:induction false} MatchesNone(cases: seq<Case>, ctx: Context)
    requires forall j: nat | j < |cases| :: !Vouches(cases[j], ctx)
    ensures Matches(cases, ctx) == []
  {
    if cases != [] { MatchesNone(cases[..|cases| - 1], ctx); }
  }

  lemma {:induction false} OneMatches(cases: seq<Case>, ctx: Context) returns (i: nat)
    requires |Matches(cases, ctx)| == 1
    ensures i < |cases| && Matches(cases, ctx) == [cases[i]]
    ensures forall j: nat | j < |cases| :: Vouches(cases[j], ctx) <==> j == i
  {
    hide Vouches;
    var n := |cases| - 1;
    if Vouches(cases[n], ctx) {
      i := n;
      NoneMatch(cases[..n], ctx);
    } else {
      i := OneMatches(cases[..n], ctx);
    }
  }

  lemma {:induction false} NoneMatch(cases: seq<Case>, ctx: Context)
    requires Matches(cases, ctx) == []
    ensures forall j: nat | j < |cases| :: !Vouches(cases[j], ctx)
  {
    if cases != [] {
      var n := |cases| - 1;
      assert !Vouches(cases[n], ctx);
      NoneMatch(cases[..n], ctx);
    }
  }

  ghost predicate Confirms(a: Claims, db: Db, cmd: Command, now: nat) {
    exists i: nat, r :: GrantsConfirm(a, i, db, cmd, r, now)
  }

  lemma FitIsVouch(a: Claims, j: nat, db: Db, cmd: Command)
    requires Inv(db) && FindSubject(db, cmd).Ok? && j < |a.cases|
    ensures var f := FindSubject(db, cmd).value;
      CaseFits(a, j, db, cmd, f.anchor, f.context.tenant, f.context.project, f.context.original, f.context.revised) <==>
      Vouches(a.cases[j], f.context)
  {
    SubjectIsAbout(db, cmd);
    hide Inv, FindSubject, About;
  }

  /** A grant that confirms makes the authority decide for the case it confirms by. */
  lemma GrantDecides(a: Claims, i: nat, db: Db, cmd: Command, r: Row, now: nat)
    requires Inv(db) && GrantsConfirm(a, i, db, cmd, r, now)
    ensures FindSubject(db, cmd).Ok? && FindSubject(db, cmd).value.anchor == r
    ensures Decide(a, FindSubject(db, cmd).value.context, now) == Some(Decision(a.cases[i].correspondence, a.cases[i]))
  {
    hide Inv, FindSubject, About, CaseFits, Canonical, Vouches;
    var k := a.cases[i];
    AboutIsSubject(db, cmd, r, k.tenant, k.project, k.original, k.revised);
    forall j: nat | j < |a.cases| { FitIsVouch(a, j, db, cmd); }
    MatchesOne(a.cases, FindSubject(db, cmd).value.context, i);
  }

  /** And only such a grant does. */
  lemma DecidedIsGranted(a: Claims, db: Db, cmd: Command, now: nat) returns (i: nat)
    requires Inv(db) && FindSubject(db, cmd).Ok? && Decide(a, FindSubject(db, cmd).value.context, now).Some?
    ensures GrantsConfirm(a, i, db, cmd, FindSubject(db, cmd).value.anchor, now)
  {
    hide Inv, FindSubject, About, CaseFits, Canonical, Vouches;
    var r, ctx := FindSubject(db, cmd).value.anchor, FindSubject(db, cmd).value.context;
    i := OneMatches(a.cases, ctx);
    SubjectIsAbout(db, cmd);
    forall j: nat | j < |a.cases| { FitIsVouch(a, j, db, cmd); }
    FitNames(a, i, db, cmd, r, ctx.tenant, ctx.project, ctx.original, ctx.revised);
  }

  /** Two grants of one command are by the same case, about the same row. */
  lemma GrantIsUnique(a: Claims, i: nat, j: nat, db: Db, cmd: Command, r: Row, q: Row, now: nat)
    requires Inv(db) && GrantsConfirm(a, i, db, cmd, r, now) && GrantsConfirm(a, j, db, cmd, q, now)
    ensures r == q && a.cases[i] == a.cases[j]
  {
    GrantDecides(a, i, db, cmd, r, now);
    GrantDecides(a, j, db, cmd, q, now);
    hide *;
  }

  lemma FitNames(a: Claims, i: nat, db: Db, cmd: Command, r: Row, tenant: string, project: string, original: Source, revised: Source)
    requires CaseFits(a, i, db, cmd, r, tenant, project, original, revised)
    ensures a.cases[i].tenant == tenant && a.cases[i].project == project
    ensures a.cases[i].original == original && a.cases[i].revised == revised
  {
  }

  /** Nothing of this issue was confirmed by the same correspondence or over the same revised run. */
  predicate IsFresh(db: Db, cmd: Command, correspondence: string) {
    forall c | c in db.confirmations && c.issue == cmd.issue ::
      c.correspondence != correspondence && c.revisedRun != cmd.revisedRun
  }

  /** A run's rows about the component and rule of row `r`. */
  function Like(db: Db, run: Id, r: Row): seq<Row> {
    if r.guid.Some? then Covering(RowsOf(db.rows, run), r.guid.value, r.rule) else []
  }

  /** The rows of the two runs show the failure fixed. */
  predicate ShowsFix(db: Db, cmd: Command, r: Row) {
    && r.run in db.runs && cmd.revisedRun in db.runs
    && var original, revised := db.runs[r.run], db.runs[cmd.revisedRun];
    var first, second := Like(db, r.run, r), Like(db, cmd.revisedRun, r);
    && r.run != cmd.revisedRun && original.version != revised.version
    && Trusted(db, original, r.rule) && Trusted(db, revised, r.rule)
    && original.summary.value.digest == revised.summary.value.digest
    && r.status == Fail && |first| == |second|
    && (exists m :: m in second && m.id == cmd.revisedResult)
    && forall m | m in second :: m.status == Pass
  }

  /** Everything a first confirmation takes, but for the grant to hold at the commit. */
  predicate Deserves(db: Db, cmd: Command, a: Claims, i: nat, r: Row, id: Id, start: nat) {
    && CommandIsWell(cmd) && GrantsConfirm(a, i, db, cmd, r, start)
    && cmd.issue in db.issues && db.issues[cmd.issue].revision == cmd.expectedRevision
    && db.issues[cmd.issue].status in {Open, Assigned, InProgress, Reopened}
    && ShowsFix(db, cmd, r) && IsFresh(db, cmd, a.cases[i].correspondence)
    && (forall c | c in db.confirmations :: c.id != id)
    && forall c | c in db.confirmations :: c.issue != cmd.issue || c.key != cmd.key
  }

  lemma CommandExactlyWhen(cmd: Command)
    ensures CommandIsWell(cmd) <==> ValidCommand(cmd)
  {
    hide Canonical;
    var ids := [cmd.issue, cmd.revisedVersion, cmd.revisedRun, cmd.revisedResult, cmd.key];
    assert ids[0] == cmd.issue && ids[1] == cmd.revisedVersion && ids[2] == cmd.revisedRun && ids[3] == cmd.revisedResult && ids[4] == cmd.key;
  }

  /** The rows match as the transaction compares them. */
  lemma FixExactlyWhen(db: Db, cmd: Command)
    requires Inv(db) && FindSubject(db, cmd).Ok?
    ensures var f := FindSubject(db, cmd).value;
      FindGroups(db, cmd, f).Ok? <==> ShowsFix(db, cmd, f.anchor)
  {
    SubjectIsAbout(db, cmd);
    GroupsExactlyWhen(db, cmd);
    var f := FindSubject(db, cmd).value;
    assert StoredRun(db, f.anchor.run) && StoredRun(db, cmd.revisedRun);
    hide Inv, FindSubject, FindGroups, SourceIs, Trusted, Canonical, Covering, RowsOf;
  }

  /** What a fresh confirmation writes of itself: the row, its columns and what its snapshot freezes. */
  predicate Stores(db: Db, after: Db, cmd: Command, a: Claims, i: nat, r: Row, id: Id, now: nat, s: Snapshot) {
    && i < |a.cases|
    && var k := a.cases[i];
    && after.confirmations ==
         db.confirmations + [Confirmation(id, cmd.issue, cmd.key, cmd, a.principal, k.correspondence, cmd.revisedRun, s, now)]
    && s.id == id && s.issue == cmd.issue && s.request == cmd && s.note == cmd.note
    && s.principal == a.principal && s.authorization == a.authorization && s.actor == a.actor
    && s.sourceIdentity == k && s.correspondence == k.correspondence
    && s.createdAt == now && s.before == cmd.expectedRevision && s.after == cmd.expectedRevision + 1
    && s.original.run == r.run && s.original.anchor == r.id
    && s.original.members == Like(db, r.run, r)
    && s.revised.run == cmd.revisedRun && s.revised.anchor == cmd.revisedResult
    && s.revised.members == Like(db, cmd.revisedRun, r)
  }

  /** The issue is resolved in one step, on behalf of confirmation `id`. */
  predicate Resolves(db: Db, after: Db, cmd: Command, id: Id, answer: Issue) {
    && OneStep(db, after, cmd.issue) && after.issues[cmd.issue].status == Resolved && answer == after.issues[cmd.issue]
    && Logs(db, after, Event(cmd.issue, RemediationConfirmed, Some(db.issues[cmd.issue].status), Resolved, id))
  }

  lemma NothingReused(db: Db, cmd: Command, d: Decision)
    ensures Reuses(db, cmd, d) <==> !IsFresh(db, cmd, d.correspondence)
  {
  }

  lemma DeservedIsConfirmable(db: Db, cmd: Command, a: Claims, i: nat, r: Row, id: Id, start: nat)
    requires Inv(db) && Deserves(db, cmd, a, i, r, id, start)
    ensures FindSubject(db, cmd).Ok? && FindSubject(db, cmd).value.anchor == r && ValidCommand(cmd)
    ensures var f := FindSubject(db, cmd).value;
      && f.issue == db.issues[cmd.issue]
      && Decide(a, f.context, start) == Some(Decision(a.cases[i].correspondence, a.cases[i]))
      && FindGroups(db, cmd, f).Ok? && !Reuses(db, cmd, Decide(a, f.context, start).value)
      && FindConfirmation(db.confirmations, cmd.issue, cmd.key).None?
  {
    hide Inv, FindSubject, FindGroups, Decide, FindConfirmation, ValidCommand, GrantsConfirm, CommandIsWell, ShowsFix, Reuses, IsFresh;
    CommandExactlyWhen(cmd);
    GrantDecides(a, i, db, cmd, r, start);
    GrantHasCase(a, i, db, cmd, r, start);
    FixExactlyWhen(db, cmd);
    SubjectIsIssue(db, cmd);
    NothingReused(db, cmd, Decision(a.cases[i].correspondence, a.cases[i]));
    FoundConfirmationIsStored(db.confirmations, cmd.issue, cmd.key);
  }

  lemma ConfirmableIsDeserved(db: Db, cmd: Command, a: Claims, id: Id, start: nat) returns (i: nat)
    requires Inv(db) && FindSubject(db, cmd).Ok? && ValidCommand(cmd)
    requires var f := FindSubject(db, cmd).value;
      && Decide(a, f.context, start).Some? && FindGroups(db, cmd, f).Ok?
      && !Reuses(db, cmd, Decide(a, f.context, start).value)
      && f.issue.revision == cmd.expectedRevision && Resolved in AllowedFrom(f.issue.status)
    requires FindConfirmation(db.confirmations, cmd.issue, cmd.key).None? && forall c | c in db.confirmations :: c.id != id
    ensures Deserves(db, cmd, a, i, FindSubject(db, cmd).value.anchor, id, start)
  {
    hide Inv, FindSubject, FindGroups, Decide, FindConfirmation, ValidCommand, GrantsConfirm, CommandIsWell, ShowsFix, Reuses, IsFresh;
    CommandExactlyWhen(cmd);
    i := DecidedIsGranted(a, db, cmd, start);
    GrantDecides(a, i, db, cmd, FindSubject(db, cmd).value.anchor, start);
    GrantHasCase(a, i, db, cmd, FindSubject(db, cmd).value.anchor, start);
    FixExactlyWhen(db, cmd);
    SubjectIsIssue(db, cmd);
    NothingReused(db, cmd, Decision(a.cases[i].correspondence, a.cases[i]));
    FoundConfirmationIsStored(db.confirmations, cmd.issue, cmd.key);
  }

  lemma GrantHasCase(a: Claims, i: nat, db: Db, cmd: Command, r: Row, now: nat)
    requires GrantsConfirm(a, i, db, cmd, r, now)
    ensures i < |a.cases|
  {
  }

  /** What a confirm transaction that is not a replay comes to. */
  ghost predicate FirstAnswer(
    db: Db, cmd: Command, a: Claims, id: Id, start: nat, end: nat, after: Db, answer: Result<Confirmed>)
  {
    var writes := answer.Ok? && !answer.value.replayed;
    && (writes <==> end < a.expires && exists i: nat, r :: Deserves(db, cmd, a, i, r, id, start))
    && (writes ==>
         forall i: nat, r | Deserves(db, cmd, a, i, r, id, start) ::
           && Resolves(db, after, cmd, id, answer.value.issue)
           && Stores(db, after, cmd, a, i, r, id, end, answer.value.snapshot))
    && (!writes ==> after == db)
  }

  /**
   A first confirmation succeeds exactly when a well-formed command, under a grant by which exactly one case
   fits what the tables say, is about an issue at the revision it names and in a status that may be resolved,
   the rows show the failure fixed, nothing is used twice, and the grant still holds at the commit. It then
   resolves that issue in one step and stores the confirmation with what was read.
   */
  lemma ConfirmsExactlyWhen(db: Db, cmd: Command, a: Claims, id: Id, start: nat, end: nat)
    requires Inv(db) && ValidClaims(a) && Canonical(id)
    ensures var (after, answer) := Confirm(db, cmd, Some(a), id, start, end);
      FirstAnswer(db, cmd, a, id, start, end, after, answer)
  {
    hide Inv, FindSubject, FindGroups, Decide, FindConfirmation, ValidCommand, ValidClaims, Canonical, Deserves,
         Resolves, Stores, Reuses, AddConfirmation, NewSnapshot, Confirm, ConfirmWrites, AllowedFrom;
    var (after, answer) := Confirm(db, cmd, Some(a), id, start, end);
    ConfirmAnswers(db, cmd, Some(a), id, start, end);
    forall i: nat, r | Deserves(db, cmd, a, i, r, id, start) ensures end < a.expires ==> answer.Ok? && !answer.value.replayed {
      if end < a.expires { DeservedSucceeds(db, cmd, a, i, r, id, start, end); }
    }
    if answer.Ok? && !answer.value.replayed {
      WrittenIsDeserved(db, cmd, a, id, start, end, after, answer);
      forall i: nat, r | Deserves(db, cmd, a, i, r, id, start)
        ensures Resolves(db, after, cmd, id, answer.value.issue)
        ensures Stores(db, after, cmd, a, i, r, id, end, answer.value.snapshot)
      {
        DeservedIsConfirmable(db, cmd, a, i, r, id, start);
        DeservedMoment(db, cmd, a, i, r, id, start);
        DeservedIsStored(db, cmd, a, i, r, id, start, end, after, answer);
      }
    }
  }

  lemma DeservedMoment(db: Db, cmd: Command, a: Claims, i: nat, r: Row, id: Id, start: nat)
    requires Deserves(db, cmd, a, i, r, id, start)
    ensures i < |a.cases| && cmd.issue in db.issues
    ensures db.issues[cmd.issue].revision == cmd.expectedRevision && Resolved in AllowedFrom(db.issues[cmd.issue].status)
    ensures forall c | c in db.confirmations :: c.id != id
  {
    hide GrantsConfirm, CommandIsWell, ShowsFix;
    GrantHasCase(a, i, db, cmd, r, start);
  }

  lemma DeservedSucceeds(db: Db, cmd: Command, a: Claims, i: nat, r: Row, id: Id, start: nat, end: nat)
    requires Inv(db) && Deserves(db, cmd, a, i, r, id, start) && end < a.expires
    ensures var answer := Confirm(db, cmd, Some(a), id, start, end).1; answer.Ok? && !answer.value.replayed
  {
    hide Inv, FindSubject, FindGroups, Decide, FindConfirmation, ValidCommand, Deserves, Reuses, AddConfirmation, NewSnapshot, AllowedFrom;
    DeservedIsConfirmable(db, cmd, a, i, r, id, start);
    DeservedMoment(db, cmd, a, i, r, id, start);
  }

  lemma WrittenIsDeserved(db: Db, cmd: Command, a: Claims, id: Id, start: nat, end: nat, after: Db, answer: Result<Confirmed>)
    requires Inv(db) && ConfirmWrites(db, cmd, a, id, start, end, (after, answer))
    ensures end < a.expires && exists i: nat, r :: Deserves(db, cmd, a, i, r, id, start)
  {
    hide Inv, FindSubject, FindGroups, Decide, FindConfirmation, ValidCommand, Deserves, Reuses, AddConfirmation, NewSnapshot, AllowedFrom;
    var i := ConfirmableIsDeserved(db, cmd, a, id, start);
  }

  lemma DeservedIsStored(db: Db, cmd: Command, a: Claims, i: nat, r: Row, id: Id, start: nat, end: nat, after: Db, answer: Result<Confirmed>)
    requires Deserves(db, cmd, a, i, r, id, start) && FindSubject(db, cmd).Ok? && FindSubject(db, cmd).value.anchor == r
    requires i < |a.cases|
    requires Decide(a, FindSubject(db, cmd).value.context, start) == Some(Decision(a.cases[i].correspondence, a.cases[i]))
    requires Inv(db) && ConfirmWrites(db, cmd, a, id, start, end, (after, answer)) && answer.Ok?
    ensures Resolves(db, after, cmd, id, answer.value.issue)
    ensures Stores(db, after, cmd, a, i, r, id, end, answer.value.snapshot)
  {
    hide Inv, FindSubject, FindGroups, Decide, FindConfirmation, ValidCommand, Canonical, Deserves, Like, Reuses, AllowedFrom;
    DeservedMoment(db, cmd, a, i, r, id, start);
    SubjectIsIssue(db, cmd);
    GroupMembers(db, cmd);
  }

  lemma GroupMembers(db: Db, cmd: Command)
    requires Inv(db) && FindSubject(db, cmd).Ok? && FindGroups(db, cmd, FindSubject(db, cmd).value).Ok?
    ensures var f := FindSubject(db, cmd).value;
      var g := FindGroups(db, cmd, f).value;
      && g.0.run == f.anchor.run && g.0.anchor == f.anchor.id && g.0.members == Like(db, f.anchor.run, f.anchor)
      && g.1.run == cmd.revisedRun && g.1.anchor == cmd.revisedResult && g.1.members == Like(db, cmd.revisedRun, f.anchor)
  {
    hide SourceIs, Canonical, Covering, RowsOf, Covered, IsRuleDigest, FindSubject, FindRow, IssuesOk, ConfirmationsOk, Resolutions;
    SubjectIsAbout(db, cmd);
    var f := FindSubject(db, cmd).value;
    assert StoredRun(db, f.anchor.run) && StoredRun(db, cmd.revisedRun);
  }

  lemma ConfirmsIsDecided(a: Claims, db: Db, cmd: Command, now: nat)
    requires Inv(db)
    ensures Confirms(a, db, cmd, now) <==>
      FindSubject(db, cmd).Ok? && Decide(a, FindSubject(db, cmd).value.context, now).Some?
  {
    hide Inv, FindSubject, Decide, GrantsConfirm;
    if FindSubject(db, cmd).Ok? && Decide(a, FindSubject(db, cmd).value.context, now).Some? {
      var i := DecidedIsGranted(a, db, cmd, now);
    }
    forall i: nat, r | GrantsConfirm(a, i, db, cmd, r, now)
      ensures FindSubject(db, cmd).Ok? && Decide(a, FindSubject(db, cmd).value.context, now).Some?
    {
      GrantDecides(a, i, db, cmd, r, now);
    }
  }

  /**
   Under a used idempotency key the stored snapshot is returned exactly to the principal who confirmed, for the
   very command sent then, under a grant that would confirm it and holds to the end.
   */
  lemma ReplaysExactlyWhen(db: Db, c: Confirmation, cmd: Command, a: Claims, id: Id, start: nat, end: nat)
    requires Inv(db) && c in db.confirmations && cmd.issue == c.issue && cmd.key == c.key
    ensures var (after, answer) := Confirm(db, cmd, Some(a), id, start, end);
      && after == db
      && (answer.Ok? <==>
            CommandIsWell(cmd) && Confirms(a, db, cmd, start) && a.principal == c.principal && cmd == c.request && end < a.expires)
      && (answer.Ok? ==> cmd.issue in db.issues && answer.value == Confirmed(db.issues[cmd.issue], c.snapshot, true))
  {
    hide Inv, FindSubject, Decide, FindConfirmation, ValidCommand, FindGroups, Reuses, Confirms, CommandIsWell;
    CommandExactlyWhen(cmd);
    StoredIsFound(db, c);
    ConfirmsIsDecided(a, db, cmd, start);
    SubjectIsIssue(db, cmd);
  }

  /** The tables hold what the command speaks of. */
  ghost predicate HasSubject(db: Db, cmd: Command) {
    exists r, tenant, project, original, revised :: About(db, cmd, r, tenant, project, original, revised)
  }

  lemma SubjectExactlyWhen(db: Db, cmd: Command)
    requires Inv(db)
    ensures FindSubject(db, cmd).Ok? <==> HasSubject(db, cmd)
    ensures FindSubject(db, cmd).Err? ==> FindSubject(db, cmd).error == Invalid
  {
    if FindSubject(db, cmd).Ok? {
      SubjectIsAbout(db, cmd);
      hide *;
      assert IsAbout(db, cmd, FindSubject(db, cmd).value.anchor, FindSubject(db, cmd).value.context);
      AboutIsHad(db, cmd, FindSubject(db, cmd).value.anchor, FindSubject(db, cmd).value.context);
    }
    forall r, tenant, project, original, revised | About(db, cmd, r, tenant, project, original, revised)
      ensures FindSubject(db, cmd).Ok?
    {
      AboutIsSubject(db, cmd, r, tenant, project, original, revised);
    }
  }

  lemma AboutIsHad(db: Db, cmd: Command, r: Row, ctx: Context)
    requires IsAbout(db, cmd, r, ctx)
    ensures HasSubject(db, cmd)
  {
  }

  /** What each refusal of a confirm transaction means. */
  ghost predicate WhyNot(db: Db, cmd: Command, authority: Option<Claims>, id: Id, start: nat, end: nat, e: Error) {
    match e
    case Invalid =>
      !CommandIsWell(cmd) || !HasSubject(db, cmd) || forall r | HasRow(db, cmd, r) :: !ShowsFix(db, cmd, r)
    case Unauthorized =>
      || authority.None? || !Confirms(authority.value, db, cmd, start) || authority.value.expires <= end
      || exists c :: c in db.confirmations && c.issue == cmd.issue && c.key == cmd.key && c.principal != authority.value.principal
    case Conflict =>
      && authority.Some? && Confirms(authority.value, db, cmd, start)
      && ((exists c :: c in db.confirmations && c.issue == cmd.issue && c.key == cmd.key && c.request != cmd)
          || (cmd.issue in db.issues && db.issues[cmd.issue].revision != cmd.expectedRevision)
          || (cmd.issue in db.issues && db.issues[cmd.issue].status in {Resolved, Rejected})
          || exists k :: k in authority.value.cases && !IsFresh(db, cmd, k.correspondence))
    case Constraint => exists c :: c in db.confirmations && c.id == id
    case _ => false
  }

  predicate HasRow(db: Db, cmd: Command, r: Row) {
    cmd.issue in db.issues && IsAnchor(db, db.issues[cmd.issue], r)
  }

  lemma OnlyRow(db: Db, cmd: Command, r: Row)
    requires Inv(db) && FindSubject(db, cmd).Ok? && HasRow(db, cmd, r)
    ensures r == FindSubject(db, cmd).value.anchor
  {
    hide Inv, RunSourceBinding, Canonical;
    AnchorIsFound(db, db.issues[cmd.issue], r);
  }

  lemma RefusedFor(db: Db, cmd: Command, authority: Option<Claims>, id: Id, start: nat, end: nat)
    requires Inv(db)
    ensures var (after, answer) := Confirm(db, cmd, authority, id, start, end);
      answer.Err? ==> after == db && WhyNot(db, cmd, authority, id, start, end, answer.error)
  {
    hide Inv, FindSubject, Decide, FindConfirmation, ValidCommand, FindGroups, Reuses, Confirms, CommandIsWell,
         ShowsFix, HasSubject, HasRow, IsFresh;
    CommandExactlyWhen(cmd);
    SubjectExactlyWhen(db, cmd);
    FoundConfirmationIsStored(db.confirmations, cmd.issue, cmd.key);
    if authority.Some? { ConfirmsIsDecided(authority.value, db, cmd, start); }
    if FindSubject(db, cmd).Ok? {
      SubjectIsIssue(db, cmd);
      FixExactlyWhen(db, cmd);
      GroupsFailAs(db, cmd, FindSubject(db, cmd).value);
      forall r | HasRow(db, cmd, r) ensures r == FindSubject(db, cmd).value.anchor { OnlyRow(db, cmd, r); }
      if authority.Some? && Decide(authority.value, FindSubject(db, cmd).value.context, start).Some? {
        var d := Decide(authority.value, FindSubject(db, cmd).value.context, start).value;
        NothingReused(db, cmd, d);
        DecidedCase(authority.value, FindSubject(db, cmd).value.context, start);
      }
    }
  }

  lemma GroupsFailAs(db: Db, cmd: Command, s: Subject)
    ensures FindGroups(db, cmd, s).Err? ==> FindGroups(db, cmd, s).error == Invalid
  {
    hide RunEvidence;
  }

  lemma DecidedCase(a: Claims, ctx: Context, now: nat)
    requires Decide(a, ctx, now).Some?
    ensures exists k :: k in a.cases && k.correspondence == Decide(a, ctx, now).value.correspondence
  {
    hide Vouches;
    var k := Matches(a.cases, ctx)[0];
    assert k in Matches(a.cases, ctx);
    assert k in a.cases;
  }

  // ----- the other writers -----

  /** The text without the white space around it, if any is left. */
  predicate Says(text: Option<string>, trimmed: Option<string>) {
    if text.Some? && exists i :: 0 <= i < |text.value| && !IsSpace(text.value[i])
    then trimmed == Some(Trim(text.value)) else trimmed == None
  }

  lemma NormalizedSays(text: Option<string>)
    ensures Says(text, Normalized(text))
  {
    if text.Some? { TrimmedAway(text.value); }
  }

  /** What creating an issue writes, and what its two refusals mean. */
  lemma CreateAnswers(db: Db, id: Id, spec: IssueSpec)
    ensures var (after, answer) := CreateIssue(db, id, spec);
      && (answer.Ok? ==> (
            var issue := answer.value;
            && after.issues == db.issues[id := issue] && Logs(db, after, Event(id, IssueCreated, None, Open, ""))
            && issue.id == id && issue.status == Open && issue.revision == 0
            && Says(spec.guid, issue.guid) && Says(spec.version, issue.version)
            && issue.sourceType == spec.sourceType && issue.sourceRef == spec.sourceRef
            && after == db.(issues := after.issues, events := after.events)))
      && (answer == Err(Unbound) <==>
            exists g :: Says(spec.guid, Some(g)) && Says(spec.version, None))
      && (answer.Err? ==> answer.error in {Unbound, Constraint} && after == db)
      && (answer == Err(Constraint) ==> id in db.issues)
  {
    hide Normalized, Says;
    NormalizedSays(spec.guid);
    NormalizedSays(spec.version);
    OneSaying(spec.guid);
    OneSaying(spec.version);
  }

  lemma OneSaying(text: Option<string>)
    ensures forall a, b :: Says(text, a) && Says(text, b) ==> a == b
  {
  }

  /** In a batch that succeeds, an item without a source type or a reference is never taken for one that stands. */
  lemma {:induction false} UnsourcedIsCreated(db: Db, ids: seq<Id>, specs: seq<IssueSpec>, i: nat)
    requires |ids| == |specs| && i < |specs| && BatchLoop(db, ids, specs).Ok?
    requires specs[i].sourceType == None || specs[i].sourceRef == None
    ensures ids[i] in BatchLoop(db, ids, specs).value.created
  {
    hide CreateIssue;
    if i < |specs| - 1 { UnsourcedIsCreated(db, ids[..|ids| - 1], specs[..|specs| - 1], i); }
  }

  predicate OnlySpaces(text: string) { text == seq(|text|, _ => ' ') }

  /** What a search proof buys the first time, and how a second use of it is answered. */
  lemma ProofAnswers(db: Db, id: Id, guid: string, version: string, query: string, proof: Id, ev: Evidence)
    requires Inv(db)
    ensures var (after, answer) := CreateA4Issue(db, id, guid, version, query, proof, ev);
      && (proof !in db.a4 ==> (
            && (answer.Ok? <==> id !in db.issues && !OnlySpaces(guid) && !OnlySpaces(version))
            && (answer.Ok? ==> (
                 && answer.value == Issue(id, Formal, Open, Some(guid), Some(version), Some("a4_search"), Some(query), 0)
                 && after.issues == db.issues[id := answer.value] && Logs(db, after, Event(id, IssueCreated, None, Open, ""))
                 && after.a4 == db.a4[proof := Evidence(id, ev.session, ev.principal, ev.snapshotHash, ev.proofDigest, ev.requestHash)]
                 && after == db.(issues := after.issues, events := after.events, a4 := after.a4)))
            && (answer.Err? ==> answer.error == Constraint && after == db)))
      && (proof in db.a4 ==> (
            var held := db.a4[proof];
            var mine := held.session == ev.session && held.principal == ev.principal;
            var same := held.snapshotHash == ev.snapshotHash && held.proofDigest == ev.proofDigest && held.requestHash == ev.requestHash;
            && after == db && held.issue in db.issues
            && answer == (if !mine then Err(Unauthorized) else if !same then Err(Conflict) else Ok(db.issues[held.issue]))))
  {
    hide IssuesOk, RulesOk, ConfirmationsOk, Resolutions;
    if proof in db.a4 { ProofOwner(db, proof); }
    BlankIsSpaces(guid);
    BlankIsSpaces(version);
  }

  lemma BlankIsSpaces(text: string)
    ensures Blank(text) <==> OnlySpaces(text)
  {
    if OnlySpaces(text) {
      forall c | c in text ensures c == ' ' {
        var i :| 0 <= i < |text| && text[i] == c;
        assert text[i] == seq(|text|, _ => ' ')[i];
      }
    }
    if Blank(text) {
      forall i | 0 <= i < |text| ensures text[i] == ' ' { assert text[i] in text; }
    }
  }

  /** What a transition logs, and what its refusals mean. */
  lemma TransitionAnswers(db: Db, id: Id, to: IssueStatus, expected: Option<int>, note: string)
    ensures var (after, answer) := Transition(db, id, to, expected, note);
      && (answer.Ok? ==> id in db.issues && Logs(db, after, Event(id, Transitioned, Some(db.issues[id].status), to, note)))
      && (answer == Err(NotFound) <==> id !in db.issues && (expected.Some? ==> expected.value >= 0))
      && (answer.Err? ==> answer.error in {NotFound, Illegal})
  {
    hide AllowedFrom;
  }

  /** What a worker's step writes of its run. */
  lemma WorkWrites(db: Db, step: Step)
    requires Possible(step) && Work(step).Some? && Take(db, step) != db
    ensures var id, after := Work(step).value.0, Take(db, step);
      && id in after.runs && after == db.(runs := db.runs[id := after.runs[id]], rows := after.rows)
      && var run := after.runs[id];
      match step
      case MakeRun(_, model, metadata) => run == RuleRun(id, model, metadata, Queued, None) && after.rows == db.rows
      case StartRun(_) =>
        id in db.runs && run.status == Running && run == db.runs[id].(status := Running) && after.rows == db.rows
      case BreakRun(_) =>
        && id in db.runs && run.status == Failed && run == db.runs[id].(status := Failed, summary := run.summary)
        && run.summary.Some? && run.summary.value.digest.None? && run.summary.value.sourceSha.None? && after.rows == db.rows
      case FinishRun(_, ids, result) =>
        && id in db.runs && run == db.runs[id].(status := Succeeded, summary := Some(result.summary))
        && |after.rows| == |db.rows| + |ids| && after.rows[..|db.rows|] == db.rows
        && forall i | 0 <= i < |ids| ::
             var r, f := after.rows[|db.rows| + i], result.findings[i];
             r.id == ids[i] && r.run == id && r.guid == f.guid && r.rule == f.rule && r.status == f.status
      case _ => true
  {
    hide Canonical, FreshRowIds;
  }

  /** A run ends with its results exactly when it is queued or running and no id drawn for a row is used twice. */
  lemma FinishesExactlyWhen(db: Db, id: Id, ids: seq<Id>, result: RunResult)
    requires |ids| == |result.findings|
    ensures CompleteRun(db, id, ids, result) != db <==>
      && id in db.runs && db.runs[id].status in {Queued, Running}
      && (forall i, j | 0 <= i < |ids| && 0 <= j < |ids| && ids[i] == ids[j] :: i == j)
      && forall r, i | r in db.rows && 0 <= i < |ids| :: r.id != ids[i]
  {
    hide NewRows;
    var after := CompleteRun(db, id, ids, result);
    if id in db.runs && id in after.runs { RunsDiffer(db, after, id); }
    if forall r, i | r in db.rows && 0 <= i < |ids| :: r.id != ids[i] {
      forall r | r in db.rows ensures r.id !in ids { }
    }
    if FreshRowIds(db, ids) {
      forall i, j | 0 <= i < |ids| && 0 <= j < |ids| && ids[i] == ids[j] ensures i == j { }
      forall r, i | r in db.rows && 0 <= i < |ids| ensures r.id != ids[i] { assert ids[i] in ids; }
    }
  }
}
