/** What the ledger promises of every database its transactions can produce. */
module LedgerTheorems {
  import opened Options
  import opened Text
  import opened LedgerTables
  import opened LedgerTransactions
  import opened LedgerRuns

  /**
   The audit log is a faithful history: replaying an issue's changes from Open along the status
   machine gives its current status, and its revision counts them.
   */
  lemma AuditReplaysStatus(steps: seq<Step>, id: Id)
    requires Feasible(steps) && id in Run(EMPTY, steps).issues
    ensures var db := Run(EMPTY, steps);
      Replays(Changes(db.events, id), db.issues[id].status) && db.issues[id].revision == |Changes(db.events, id)|
  {
    RunKeepsInv(steps);
    assert Audited(Run(EMPTY, steps), id);
  }

  lemma ConfirmationFacts(db: Db, c: Confirmation)
    requires Inv(db) && c in db.confirmations
    ensures Logged(db, c) && Backed(db, c) && c.issue in db.issues && Audited(db, c.issue)
  {
    hide Backed;
    assert Logged(db, c);
  }

  lemma LaterFacts(db: Db, i: nat, j: nat)
    requires Inv(db) && i < j < |db.confirmations|
    ensures var b, c := db.confirmations[i], db.confirmations[j];
      b.id != c.id && (b.issue == c.issue ==>
        b.snapshot.before < c.snapshot.before && b.key != c.key
        && b.revisedRun != c.revisedRun && b.correspondence != c.correspondence)
  {
    assert Later(db.confirmations[i], db.confirmations[j]);
  }

  lemma IndexOf<T>(s: seq<T>, x: T) returns (i: nat)
    requires x in s
    ensures i < |s| && s[i] == x
  {
    i :| i < |s| && s[i] == x;
  }

  /** A resolved rule-result issue was resolved by a confirmation that left it at its present revision. */
  lemma ResolvedIsConfirmed(steps: seq<Step>, id: Id) returns (c: Confirmation)
    requires Feasible(steps) && id in Run(EMPTY, steps).issues
    requires var issue := Run(EMPTY, steps).issues[id]; issue.sourceType == RULE_RESULT && issue.status == Resolved
    ensures var db := Run(EMPTY, steps);
      c in db.confirmations && c.issue == id && c.snapshot.after == db.issues[id].revision
      && forall m | m in c.snapshot.revised.members :: m.status == Pass
  {
    RunKeepsInv(steps);
    var db := Run(EMPTY, steps);
    assert Audited(db, id);
    hide Backed, Logged, Run;
    var k := |Changes(db.events, id)| - 1;
    assert Changes(db.events, id)[k].to == Resolved;
    assert HasConfirmation(db, id, k);
    hide Inv, Changes, Replays, Governed, Feasible;
    c :| c in db.confirmations && c.issue == id && c.snapshot.before == k;
    RevisedPasses(db, c);
  }

  lemma RevisedPasses(db: Db, c: Confirmation)
    requires Inv(db) && c in db.confirmations
    ensures c.snapshot.after == c.snapshot.before + 1
    ensures forall m | m in c.snapshot.revised.members :: m.status == Pass
  {
    ConfirmationFacts(db, c);
    hide Inv, FindSubject, RunEvidence, Canonical;
  }

  /**
   A stored confirmation answers its own command for ever: in every later database, with any
   decision the authority still gives, the same principal gets the stored snapshot and nothing is
   written.
   */
  lemma ReplayReturnsSnapshot(
    steps: seq<Step>, more: seq<Step>, c: Confirmation, a: Claims, id: Id, start: nat, end: nat)
    requires Feasible(steps) && Feasible(more) && c in Run(EMPTY, steps).confirmations
    requires a.principal == c.principal && end < a.expires
    requires FindSubject(Run(EMPTY, steps), c.request).Ok?
    requires Decide(a, FindSubject(Run(EMPTY, steps), c.request).value.context, start).Some?
    ensures var db := Run(Run(EMPTY, steps), more);
      c.issue in db.issues
      && Confirm(db, c.request, Some(a), id, start, end) == (db, Ok(Confirmed(db.issues[c.issue], c.snapshot, true)))
  {
    hide Inv, IssuesGrow, RulesGrow, ProofsGrow, Run, Feasible, FindSubject, Decide, Confirm;
    RunKeepsInv(steps);
    var before := Run(EMPTY, steps);
    FutureGrows(before, more);
    var db := Run(before, more);
    assert c in db.confirmations;
    DecisionsAreUnexpired(a, FindSubject(before, c.request).value.context, start);
    StoredReplays(before, db, c, a, start, id, start, end);
  }

  lemma DecisionsAreUnexpired(a: Claims, ctx: Context, now: nat)
    ensures Decide(a, ctx, now).Some? ==> now < a.expires
  {
  }

  /** Idempotency keys find the confirmation stored under them. */
  lemma StoredIsFound(db: Db, c: Confirmation)
    requires Inv(db) && c in db.confirmations
    ensures FindConfirmation(db.confirmations, c.issue, c.key) == Some(c)
  {
    hide *;
    FoundConfirmationIsStored(db.confirmations, c.issue, c.key);
    var f := FindConfirmation(db.confirmations, c.issue, c.key).value;
    var i := IndexOf(db.confirmations, c);
    var j := IndexOf(db.confirmations, f);
    if i < j { LaterFacts(db, i, j); } else if j < i { LaterFacts(db, j, i); }
  }

  /** A second use of an idempotency key never writes, and only the original command is answered. */
  lemma KeyIsSpent(steps: seq<Step>, c: Confirmation, cmd: Command, authority: Option<Claims>, id: Id, start: nat, end: nat)
    requires Feasible(steps) && c in Run(EMPTY, steps).confirmations
    requires cmd.issue == c.issue && cmd.key == c.key
    ensures var db := Run(EMPTY, steps);
      var (after, answer) := Confirm(db, cmd, authority, id, start, end);
      after == db && (answer.Ok? ==> cmd == c.request && answer.value.snapshot == c.snapshot)
  {
    hide *;
    RunKeepsInv(steps);
    StoredIsFound(Run(EMPTY, steps), c);
    FoundStopsConfirm(Run(EMPTY, steps), c, cmd, authority, id, start, end);
  }

  lemma FoundStopsConfirm(db: Db, c: Confirmation, cmd: Command, authority: Option<Claims>, id: Id, start: nat, end: nat)
    requires FindConfirmation(db.confirmations, cmd.issue, cmd.key) == Some(c)
    ensures var (after, answer) := Confirm(db, cmd, authority, id, start, end);
      after == db && (answer.Ok? ==> cmd == c.request && answer.value.snapshot == c.snapshot)
  {
    hide Decide, FindConfirmation, ValidCommand, FindGroups, Reuses, AddConfirmation;
  }

  /** Neighbouring changes meet: each starts where the one before ended, and each is allowed. */
  lemma {:induction false} ChangesChain(cs: seq<Event>, status: IssueStatus, k: nat)
    requires Replays(cs, status) && k < |cs|
    ensures cs[k].from.Some? && cs[k].to in AllowedFrom(cs[k].from.value)
    ensures k > 0 ==> cs[k].from == Some(cs[k - 1].to)
  {
    if k < |cs| - 1 {
      ChangesChain(cs[..|cs| - 1], cs[|cs| - 1].from.value, k);
    } else if k > 0 {
      assert Replays(cs[..k], cs[k].from.value);
    }
  }

  /**
   Two confirmations of one issue rest on distinct runs and correspondences, and the issue was
   reopened strictly between them.
   */
  lemma ReopenedBetween(steps: seq<Step>, i: nat, j: nat) returns (k: nat)
    requires Feasible(steps) && i < j < |Run(EMPTY, steps).confirmations|
    requires Run(EMPTY, steps).confirmations[i].issue == Run(EMPTY, steps).confirmations[j].issue
    ensures var db := Run(EMPTY, steps);
      var b, c := db.confirmations[i], db.confirmations[j];
      var cs := Changes(db.events, b.issue);
      && b.snapshot.after <= k < c.snapshot.before && k < |cs| && cs[k].what == RemediationReopened
      && b.revisedRun != c.revisedRun && b.correspondence != c.correspondence && b.key != c.key
  {
    hide *;
    RunKeepsInv(steps);
    var db := Run(EMPTY, steps);
    var b, c := db.confirmations[i], db.confirmations[j];
    LaterFacts(db, i, j);
    ConfirmationFacts(db, b);
    ConfirmationFacts(db, c);
    k := ReopenFollows(db, b, c);
  }

  lemma ReopenFollows(db: Db, b: Confirmation, c: Confirmation) returns (k: nat)
    requires Logged(db, b) && Logged(db, c) && b.issue == c.issue && Audited(db, b.issue)
    requires b.snapshot.before < c.snapshot.before
    ensures var cs := Changes(db.events, b.issue);
      b.snapshot.after <= k < c.snapshot.before && k < |cs| && cs[k].what == RemediationReopened
  {
    hide Canonical, Changes, Replays;
    var cs := Changes(db.events, b.issue);
    k := b.snapshot.after;
    ChangesChain(cs, db.issues[b.issue].status, k);
    assert cs[k] in cs;
  }

  /** Once a run has succeeded, its record and its results are what they will always be. */
  lemma EvidenceIsImmutable(steps: seq<Step>, more: seq<Step>, run: Id)
    requires Feasible(steps) && Feasible(more)
    requires run in Run(EMPTY, steps).runs && Run(EMPTY, steps).runs[run].status == Succeeded
    ensures var before, db := Run(EMPTY, steps), Run(Run(EMPTY, steps), more);
      run in db.runs && db.runs[run] == before.runs[run] && RowsOf(db.rows, run) == RowsOf(before.rows, run)
  {
    RunKeepsInv(steps);
    FutureGrows(Run(EMPTY, steps), more);
  }

  /** The group holds every stored result of its run for its component and rule, and nothing else. */
  predicate IsWholeGroup(db: Db, g: Group) {
    && g.run in db.runs && db.runs[g.run].status == Succeeded
    && g.members == Covering(RowsOf(db.rows, g.run), g.guid, g.rule)
    && g.members != [] && exists m :: m in g.members && m.id == g.anchor
  }

  /**
   In every later database a confirmation's groups are the complete results its runs still hold for
   the issue's component: the original contains the failing result the issue came from, the revised
   one passes throughout, and both were judged by the same rules over different model versions.
   */
  lemma GroupsAreTheStoredRows(steps: seq<Step>, more: seq<Step>, c: Confirmation)
    requires Feasible(steps) && Feasible(more) && c in Run(EMPTY, steps).confirmations
    ensures var db, s := Run(Run(EMPTY, steps), more), c.snapshot;
      && IsWholeGroup(db, s.original) && IsWholeGroup(db, s.revised)
      && c.issue in db.issues && db.issues[c.issue].sourceRef == Some(s.original.anchor)
      && db.issues[c.issue].guid == Some(s.original.guid) && s.revised.guid == s.original.guid
      && s.revised.rule == s.original.rule && s.revised.digest == s.original.digest
      && |s.revised.members| == |s.original.members| && s.original.version != s.revised.version
      && (forall m | m in s.revised.members :: m.status == Pass)
      && (exists m :: m in s.original.members && m.id == s.original.anchor && m.status == Fail)
  {
    RunKeepsInv(steps);
    var before := Run(EMPTY, steps);
    FutureGrows(before, more);
    var db := Run(before, more);
    assert c in db.confirmations;
    hide Run, Grows;
    BackedGroups(db, c);
  }

  lemma BackedGroups(db: Db, c: Confirmation)
    requires Inv(db) && c in db.confirmations
    ensures var s := c.snapshot;
      && IsWholeGroup(db, s.original) && IsWholeGroup(db, s.revised)
      && c.issue in db.issues && db.issues[c.issue].sourceRef == Some(s.original.anchor)
      && db.issues[c.issue].guid == Some(s.original.guid) && s.revised.guid == s.original.guid
      && s.revised.rule == s.original.rule && s.revised.digest == s.original.digest
      && |s.revised.members| == |s.original.members| && s.original.version != s.revised.version
      && (forall m | m in s.revised.members :: m.status == Pass)
      && (exists m :: m in s.original.members && m.id == s.original.anchor && m.status == Fail)
  {
    ConfirmationFacts(db, c);
    SubjectIsStored(db, c);
    hide *;
    assert Backed(db, c);
    var f := FindSubject(db, c.request).value;
    GroupsOfSubject(db, c.request, f, c.snapshot.original, c.snapshot.revised);
  }

  lemma SubjectIsStored(db: Db, c: Confirmation)
    requires Inv(db) && c in db.confirmations
    ensures FindSubject(db, c.request).Ok?
    ensures var f, s := FindSubject(db, c.request).value, c.snapshot;
      && FindGroups(db, c.request, f) == Ok((s.original, s.revised))
      && f.anchor in db.rows && f.anchor.run == f.original.id && f.original.id in db.runs
      && f.revised.id in db.runs && db.runs[f.original.id] == f.original && db.runs[f.revised.id] == f.revised
      && f.anchor.guid == Some(f.context.guid) && f.anchor.rule == f.context.rule && f.issue == db.issues[c.issue]
      && f.issue.guid == f.anchor.guid && f.issue.sourceRef == Some(f.anchor.id)
  {
    ConfirmationFacts(db, c);
    hide ConfirmationsOk, IssuesOk, Resolutions, Canonical, RunSourceBinding, FindGroups;
    FoundRowIsStored(db.rows, db.issues[c.issue].sourceRef.value);
    var f := FindSubject(db, c.request).value;
    assert StoredRun(db, f.anchor.run) && StoredRun(db, c.request.revisedRun);
  }

  lemma GroupsOfSubject(db: Db, cmd: Command, f: Subject, a: Group, b: Group)
    requires FindGroups(db, cmd, f) == Ok((a, b))
    requires f.anchor in db.rows && f.anchor.run == f.original.id && f.original.id in db.runs
    requires f.revised.id in db.runs && db.runs[f.original.id] == f.original && db.runs[f.revised.id] == f.revised
    requires f.anchor.guid == Some(f.context.guid) && f.anchor.rule == f.context.rule && f.issue.guid == f.anchor.guid
    ensures IsWholeGroup(db, a) && IsWholeGroup(db, b) && a.anchor == f.anchor.id
    ensures a.guid == b.guid == f.context.guid && a.rule == b.rule == f.context.rule && a.digest == b.digest
    ensures |a.members| == |b.members| && a.version != b.version
    ensures forall m | m in b.members :: m.status == Pass
    ensures exists m :: m in a.members && m.id == a.anchor && m.status == Fail
  {
    FoundRowIsStored(db.rows, cmd.revisedResult);
    hide Canonical, Covered, IsRuleDigest, FindRow, RowsOf, Covering;
    AnchorIsCovered(db, f.anchor, f.context.guid, f.context.rule);
    AnchorIsCovered(db, FindRow(db.rows, cmd.revisedResult).value, f.context.guid, f.context.rule);
  }

  lemma AnchorIsCovered(db: Db, row: Row, guid: string, rule: string)
    requires row in db.rows && row.guid == Some(guid) && row.rule == rule
    ensures row in Covering(RowsOf(db.rows, row.run), guid, rule)
  {
    RowsOfMember(db.rows, row.run, row);
    CoveringMember(RowsOf(db.rows, row.run), guid, rule, row);
  }

  /** The run's rows can be trusted for this rule: finished, digested, fully counted, every row bound. */
  predicate Trusted(db: Db, run: RuleRun, rule: string) {
    && run.status == Succeeded && run.summary.Some?
    && run.summary.value.digest.Some? && IsRuleDigest(run.summary.value.digest.value)
    && Covered(RowsOf(db.rows, run.id), run.summary.value)
    && forall r | r in RowsOf(db.rows, run.id) && r.rule == rule :: IsCanonical(r.guid)
  }

  function RevisedGroup(db: Db, s: Subject): seq<Row> {
    Covering(RowsOf(db.rows, s.revised.id), s.context.guid, s.context.rule)
  }

  predicate InGroup(db: Db, s: Subject, id: Id) { exists m :: m in RevisedGroup(db, s) && m.id == id }

  /** The failure is fixed: two trusted runs by the same rules, and a complete group that passes throughout. */
  predicate Match(db: Db, cmd: Command, s: Subject) {
    && s.original.id != s.revised.id && s.original.version != s.revised.version
    && Trusted(db, s.original, s.context.rule) && Trusted(db, s.revised, s.context.rule)
    && s.original.summary.value.digest == s.revised.summary.value.digest
    && s.anchor.status == Fail
    && |Covering(RowsOf(db.rows, s.original.id), s.context.guid, s.context.rule)| == |RevisedGroup(db, s)|
    && InGroup(db, s, cmd.revisedResult)
    && forall m | m in RevisedGroup(db, s) :: m.status == Pass
  }

  /**
   When the two groups of a confirmation match: over runs of distinct model versions that can be trusted and
   share their rules, the issue's result failed, the named revised result is one of the component's, and the
   component has as many revised results as original ones, all of them passing.
   */
  lemma GroupsExactlyWhen(db: Db, cmd: Command)
    requires Inv(db) && FindSubject(db, cmd).Ok?
    ensures var s := FindSubject(db, cmd).value;
      FindGroups(db, cmd, s).Ok? <==> Match(db, cmd, s)
  {
    SubjectAnchor(db, cmd);
    var s := FindSubject(db, cmd).value;
    AnchorIsCovered(db, s.anchor, s.context.guid, s.context.rule);
    NamedResult(db, s.revised.id, s.context.guid, s.context.rule, cmd.revisedResult);
    hide *;
    GroupsFromRows(db, cmd, s);
  }

  lemma GroupsFromRows(db: Db, cmd: Command, s: Subject)
    requires s.issue.guid == s.anchor.guid == Some(s.context.guid) && s.anchor.rule == s.context.rule
    requires s.anchor in Covering(RowsOf(db.rows, s.original.id), s.context.guid, s.context.rule)
    requires InGroup(db, s, cmd.revisedResult) <==>
      var named := FindRow(db.rows, cmd.revisedResult);
      named.Some? && named.value.run == s.revised.id && named.value.guid == Some(s.context.guid) && named.value.rule == s.context.rule
    requires forall m | m in RevisedGroup(db, s) && m.id == cmd.revisedResult :: FindRow(db.rows, cmd.revisedResult) == Some(m)
    ensures FindGroups(db, cmd, s).Ok? <==> Match(db, cmd, s)
  {
    hide Covered, IsRuleDigest, Canonical, FindRow, RowsOf, Covering, Trusted, RunEvidence;
    TrustedEvidence(db, s.original, s.context.guid, s.context.rule, s.anchor.id);
    TrustedEvidence(db, s.revised, s.context.guid, s.context.rule, cmd.revisedResult);
    TrustedHasDigest(db, s.original, s.context.rule);
    TrustedHasDigest(db, s.revised, s.context.rule);
  }

  lemma TrustedHasDigest(db: Db, run: RuleRun, rule: string)
    ensures Trusted(db, run, rule) ==> run.summary.Some? && run.summary.value.digest.Some?
  {
  }

  lemma SubjectAnchor(db: Db, cmd: Command)
    requires Inv(db) && FindSubject(db, cmd).Ok?
    ensures var s := FindSubject(db, cmd).value;
      && s.anchor in db.rows && s.anchor.run == s.original.id && s.anchor.guid == Some(s.context.guid)
      && s.issue.guid == s.anchor.guid && s.anchor.rule == s.context.rule
  {
    hide IssuesOk, ConfirmationsOk, Resolutions, RunSourceBinding, Canonical;
    FoundRowIsStored(db.rows, db.issues[cmd.issue].sourceRef.value);
    assert StoredRun(db, FindRow(db.rows, db.issues[cmd.issue].sourceRef.value).value.run);
  }

  /** The row stored under an id is in a run's group exactly when it is of that run, component and rule. */
  lemma NamedResult(db: Db, run: Id, guid: string, rule: string, id: Id)
    requires Inv(db)
    ensures var named := FindRow(db.rows, id);
      (exists m :: m in Covering(RowsOf(db.rows, run), guid, rule) && m.id == id) <==>
      named.Some? && named.value.run == run && named.value.guid == Some(guid) && named.value.rule == rule
    ensures var named := FindRow(db.rows, id);
      forall m | m in Covering(RowsOf(db.rows, run), guid, rule) && m.id == id :: named == Some(m)
  {
    hide IssuesOk, ConfirmationsOk, Resolutions, Canonical;
    var named := FindRow(db.rows, id);
    FoundRowIsStored(db.rows, id);
    forall m | m in Covering(RowsOf(db.rows, run), guid, rule) && m.id == id
      ensures named == Some(m) && m.run == run && m.guid == Some(guid) && m.rule == rule
    {
      CoveringMember(RowsOf(db.rows, run), guid, rule, m);
      RowsOfMember(db.rows, run, m);
      assert StoredRow(db, m);
    }
    if named.Some? && named.value.run == run && named.value.guid == Some(guid) && named.value.rule == rule {
      AnchorIsCovered(db, named.value, guid, rule);
    }
  }

  lemma TrustedEvidence(db: Db, run: RuleRun, guid: string, rule: string, anchor: Id)
    ensures var group := Covering(RowsOf(db.rows, run.id), guid, rule);
      && (RunEvidence(db, run, guid, rule, anchor).Ok? <==> Trusted(db, run, rule) && group != [])
      && (RunEvidence(db, run, guid, rule, anchor).Ok? ==>
            var g := RunEvidence(db, run, guid, rule, anchor).value;
            g.members == group && g.digest == run.summary.value.digest.value)
  {
    hide Covered, IsRuleDigest, Canonical, RowsOf, Covering;
  }

  /** A confirmation is found under its own key from then on, and no other key finds anything else than before. */
  lemma KeyIsRemembered(
    db: Db, cmd: Command, a: Claims, id: Id, start: nat, end: nat, issue: Id, key: string)
    requires ValidClaims(a) && Canonical(id)
    requires var answer := Confirm(db, cmd, Some(a), id, start, end).1; answer.Ok? && !answer.value.replayed
    ensures var (after, answer) := Confirm(db, cmd, Some(a), id, start, end);
      FindConfirmation(after.confirmations, issue, key) ==
      if issue == cmd.issue && key == cmd.key then Some(Added(db, answer.value.snapshot))
      else FindConfirmation(db.confirmations, issue, key)
  {
    hide FindSubject, Decide, FindGroups, Reuses, ValidCommand, ValidClaims, Canonical, Confirm, FindConfirmation;
    ConfirmAnswers(db, cmd, Some(a), id, start, end);
    var (after, answer) := Confirm(db, cmd, Some(a), id, start, end);
    SubjectIssue(db, cmd);
    AddedIsStored(db, answer.value.snapshot);
    FindConfirmationAppend(db.confirmations, Added(db, answer.value.snapshot), issue, key);
  }

  // --------------------------------------------------------------------------- creation

  /** A formal issue names a component of a model version; an annotation names no component. */
  predicate Bound(issue: Issue) {
    if issue.guid.Some?
    then issue.kind == Formal && issue.version.Some? && !Blank(issue.guid.value) && !Blank(issue.version.value)
    else issue.kind == Annotation
  }

  predicate AllBound(db: Db) { forall id | id in db.issues :: Bound(db.issues[id]) }

  lemma NewIsBound(id: Id, spec: IssueSpec)
    requires Bindable(spec)
    ensures Bound(NewIssue(id, spec))
  {
    var issue := NewIssue(id, spec);
    if issue.guid.Some? {
      assert issue.guid.value[0] in issue.guid.value && issue.version.value[0] in issue.version.value;
    }
  }

  lemma {:induction false} BatchKeepsBound(db: Db, ids: seq<Id>, specs: seq<IssueSpec>)
    requires |ids| == |specs| && AllBound(db)
    ensures BatchLoop(db, ids, specs).Ok? ==> AllBound(BatchLoop(db, ids, specs).value.db)
  {
    hide Bindable, NewIssue, Bound, HasSource;
    if specs != [] {
      BatchKeepsBound(db, ids[..|specs| - 1], specs[..|specs| - 1]);
      if Bindable(specs[|specs| - 1]) { NewIsBound(ids[|specs| - 1], specs[|specs| - 1]); }
    }
  }

  lemma StepKeepsBound(db: Db, step: Step)
    requires Possible(step) && AllBound(db)
    ensures AllBound(Take(db, step))
  {
    hide FindSubject, FindGroups, Decide, Reuses, ValidCommand, MayReopen, RunSourceBinding, FindRow,
         FindConfirmation, Canonical, BatchLoop, Normalized;
    match step
    case MakeIssue(id, spec) => if Bindable(spec) { NewIsBound(id, spec); }
    case MakeBatch(ids, specs) => BatchKeepsBound(db, ids, specs);
    case ConfirmFix(cmd, authority, id, start, end) => if FindSubject(db, cmd).Ok? { SubjectIssue(db, cmd); }
    case _ =>
  }

  /** In every reachable database an issue is formal exactly when it names a component, and then a model version too. */
  lemma {:induction false} FormalIsBound(steps: seq<Step>)
    requires Feasible(steps)
    ensures AllBound(Run(EMPTY, steps))
  {
    hide Possible, Take, Bound;
    if steps != [] {
      FormalIsBound(steps[..|steps| - 1]);
      StepKeepsBound(Run(EMPTY, steps[..|steps| - 1]), steps[|steps| - 1]);
    }
  }

  /**
   Creating an issue fails exactly for a component without a model version or a taken id, and then writes
   nothing. What it created is there in every later database, bound as it was.
   */
  lemma CreatedIssueStands(steps: seq<Step>, more: seq<Step>, id: Id, spec: IssueSpec)
    requires Feasible(steps) && Feasible(more) && Canonical(id)
    ensures var before := Run(EMPTY, steps);
      var (mid, answer) := CreateIssue(before, id, spec);
      var db := Run(mid, more);
      && (answer.Err? <==> id in before.issues || (Normalized(spec.guid).Some? && Normalized(spec.version).None?))
      && (answer.Err? ==> mid == before)
      && (answer.Ok? ==> (
            && id in db.issues && SameIssue(answer.value, db.issues[id]) && Bound(db.issues[id])
            && db.issues[id].guid == Normalized(spec.guid)
            && db.issues[id].sourceType == spec.sourceType && db.issues[id].sourceRef == spec.sourceRef))
  {
    hide Inv, RulesGrow, ProofsGrow, Run, Feasible, Canonical, Normalized, Blank, Changes;
    var before := Run(EMPTY, steps);
    var (mid, answer) := CreateIssue(before, id, spec);
    RunKeepsInv(steps);
    CreateKeepsInv(before, id, spec);
    FutureGrows(mid, more);
    if answer.Ok? { NewIsBound(id, spec); }
  }

  /** A batch either stops with the database untouched or disposes of every item. */
  lemma {:induction false} BatchDisposesOfAll(db: Db, ids: seq<Id>, specs: seq<IssueSpec>)
    requires |ids| == |specs|
    ensures var run := BatchLoop(db, ids, specs);
      run.Ok? ==>
        && |run.value.created| + run.value.skipped == |specs|
        && run.value.db.issues.Keys == db.issues.Keys + (set id | id in run.value.created)
        && (forall id | id in db.issues :: run.value.db.issues[id] == db.issues[id])
        && (forall id | id in run.value.created :: id !in db.issues)
        && (forall spec | spec in specs && spec.sourceType.Some? && spec.sourceRef.Some? :: HasSource(run.value.db, spec))
  {
    if specs != [] {
      var n := |specs| - 1;
      BatchDisposesOfAll(db, ids[..n], specs[..n]);
      var run, before := BatchLoop(db, ids, specs), BatchLoop(db, ids[..n], specs[..n]);
      if run.Ok? {
        forall spec | spec in specs && spec.sourceType.Some? && spec.sourceRef.Some?
          ensures HasSource(run.value.db, spec)
        {
          if spec in specs[..n] { SourceStays(before.value.db, run.value.db, spec); }
          else if !HasSource(before.value.db, specs[n]) { assert ids[n] in run.value.db.issues; }
        }
      }
    }
  }

  lemma SourceStays(db: Db, after: Db, spec: IssueSpec)
    requires HasSource(db, spec) && forall id | id in db.issues :: id in after.issues && after.issues[id] == db.issues[id]
    ensures HasSource(after, spec)
  {
    var id :| id in db.issues && db.issues[id].sourceType == spec.sourceType && db.issues[id].sourceRef == spec.sourceRef;
    assert id in after.issues;
  }

  lemma {:induction false} AllSkipped(db: Db, ids: seq<Id>, specs: seq<IssueSpec>)
    requires |ids| == |specs| && forall spec | spec in specs :: HasSource(db, spec)
    ensures BatchLoop(db, ids, specs) == Ok(Batch(db, [], |specs|))
  {
    if specs != [] { AllSkipped(db, ids[..|specs| - 1], specs[..|specs| - 1]); }
  }

  /** Sending a batch of sourced items again, whatever ids are drawn, creates nothing. */
  lemma BatchIsIdempotent(db: Db, ids: seq<Id>, again: seq<Id>, specs: seq<IssueSpec>)
    requires |ids| == |specs| == |again| && CreateBatch(db, ids, specs).1.Ok?
    requires forall spec | spec in specs :: spec.sourceType.Some? && spec.sourceRef.Some?
    ensures var after := CreateBatch(db, ids, specs).0;
      CreateBatch(after, again, specs) == (after, Ok(Batch(after, [], |specs|)))
  {
    BatchDisposesOfAll(db, ids, specs);
    AllSkipped(CreateBatch(db, ids, specs).0, again, specs);
  }

  /**
   A search proof buys one issue: in every later database the same proof with the same evidence
   returns that issue, as it then stands, with different evidence an error, and neither writes.
   */
  lemma ProofIsSpentOnce(
    steps: seq<Step>, more: seq<Step>, id: Id, guid: string, version: string, query: string, proof: Id, ev: Evidence,
    id2: Id, guid2: string, version2: string, query2: string, ev2: Evidence)
    requires Feasible(steps) && Feasible(more) && Canonical(id)
    requires CreateA4Issue(Run(EMPTY, steps), id, guid, version, query, proof, ev).1.Ok?
    requires proof !in Run(EMPTY, steps).a4
    ensures var mid := CreateA4Issue(Run(EMPTY, steps), id, guid, version, query, proof, ev).0;
      var db := Run(mid, more);
      var (after, answer) := CreateA4Issue(db, id2, guid2, version2, query2, proof, ev2);
      && after == db && id in db.issues
      && (answer == Ok(db.issues[id]) <==> ev2.(issue := id) == ev.(issue := id))
      && (answer.Ok? <==> ev2.(issue := id) == ev.(issue := id))
  {
    hide Inv, IssuesGrow, RulesGrow, Run, Feasible, Canonical;
    RunKeepsInv(steps);
    A4KeepsInv(Run(EMPTY, steps), id, guid, version, query, proof, ev);
    var mid := CreateA4Issue(Run(EMPTY, steps), id, guid, version, query, proof, ev).0;
    FutureGrows(mid, more);
    ProofOwner(Run(mid, more), proof);
  }

  lemma ProofOwner(db: Db, proof: Id)
    requires Inv(db) && proof in db.a4
    ensures db.a4[proof].issue in db.issues
  {
  }

  /** A grant that confirmed keeps answering for that confirmation until it expires. */
  lemma ConfirmThenReplay(
    steps: seq<Step>, more: seq<Step>, cmd: Command, a: Claims, id: Id, start: nat, end: nat,
    again: Id, start2: nat, end2: nat)
    requires Feasible(steps) && Feasible(more) && ValidClaims(a) && Canonical(id)
    requires var answer := Confirm(Run(EMPTY, steps), cmd, Some(a), id, start, end).1; answer.Ok? && !answer.value.replayed
    requires start2 < a.expires && end2 < a.expires
    ensures var (mid, first) := Confirm(Run(EMPTY, steps), cmd, Some(a), id, start, end);
      var db := Run(mid, more);
      && cmd.issue in db.issues
      && Confirm(db, cmd, Some(a), again, start2, end2)
         == (db, Ok(Confirmed(db.issues[cmd.issue], first.value.snapshot, true)))
  {
    hide Inv, IssuesGrow, RulesGrow, ProofsGrow, Run, Feasible, Canonical, Confirm, FindSubject, Decide, FindGroups,
         Change, Reuses, ValidCommand, ValidClaims;
    var before := Run(EMPTY, steps);
    var (mid, first) := Confirm(before, cmd, Some(a), id, start, end);
    RunKeepsInv(steps);
    ConfirmAnswers(before, cmd, Some(a), id, start, end);
    ConfirmKeepsInv(before, cmd, Some(a), id, start, end);
    FutureGrows(mid, more);
    var db := Run(mid, more);
    GrowsTransitive(before, mid, db);
    var c := Added(before, first.value.snapshot);
    SubjectIssue(before, cmd);
    AddedIsStored(before, first.value.snapshot);
    assert c in mid.confirmations && c in db.confirmations;
    StoredReplays(before, db, c, a, start, again, start2, end2);
  }

  lemma SubjectIssue(db: Db, cmd: Command)
    requires FindSubject(db, cmd).Ok?
    ensures cmd.issue in db.issues
  {
  }

  lemma AddedIsStored(db: Db, s: Snapshot)
    requires s.issue in db.issues
    ensures AddConfirmation(db, s).confirmations == db.confirmations + [Added(db, s)]
  {
  }

  lemma StoredReplays(
    before: Db, db: Db, c: Confirmation, a: Claims, start: nat, id: Id, start2: nat, end2: nat)
    requires Inv(before) && Inv(db) && Grows(before, db) && c in db.confirmations
    requires FindSubject(before, c.request).Ok? && a.principal == c.principal
    requires Decide(a, FindSubject(before, c.request).value.context, start).Some?
    requires start2 < a.expires && end2 < a.expires
    ensures c.issue in db.issues
    ensures Confirm(db, c.request, Some(a), id, start2, end2) == (db, Ok(Confirmed(db.issues[c.issue], c.snapshot, true)))
  {
    hide Inv, Grows, FindSubject, FindConfirmation, ValidCommand, FindGroups, Reuses, Canonical, Change;
    RuleTables(before);
    SubjectIsStable(before, db, c.request);
    StoredIsFound(db, c);
    ConfirmationFacts(db, c);
    SubjectIsStored(db, c);
  }

  lemma RuleTables(db: Db)
    requires Inv(db)
    ensures forall id | id in db.runs :: StoredRun(db, id)
  {
  }
}
