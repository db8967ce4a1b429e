/**
 Runs of the ledger: how the database grows whatever the transactions, and the invariant that ties
 issues, audit log, confirmations and rule evidence together.
 */
module LedgerRuns {
  import opened Options
  import opened Text
  import opened LedgerTables
  import opened LedgerTransactions

  datatype Step =
    | MakeIssue(id: Id, spec: IssueSpec)
    | MakeBatch(ids: seq<Id>, specs: seq<IssueSpec>)
    | MakeA4(id: Id, guid: string, version: string, query: string, proof: Id, evidence: Evidence)
    | Move(id: Id, to: IssueStatus, expected: Option<int>, note: string)
    | MakeRun(id: Id, model: Option<string>, metadata: Option<Metadata>)
    | StartRun(id: Id)
    | FinishRun(id: Id, ids: seq<Id>, result: RunResult)
    | BreakRun(id: Id)
    | ConfirmFix(cmd: Command, authority: Option<Claims>, id: Id, start: nat, end: nat)
    | ReopenFix(id: Id, revision: int, note: string, claims: Claims, start: nat, end: nat)

  /** Generated ids are well formed, and authorities are what the request envelope lets through. */
  predicate Possible(step: Step) {
    match step
    case MakeIssue(id, _) => Canonical(id)
    case MakeBatch(ids, specs) => |ids| == |specs| && forall id | id in ids :: Canonical(id)
    case MakeA4(id, _, _, _, _, _) => Canonical(id)
    case MakeRun(id, _, _) => Canonical(id)
    case FinishRun(_, ids, result) => |ids| == |result.findings| && forall id | id in ids :: Canonical(id)
    case ConfirmFix(_, authority, id, _, _) => Canonical(id) && (authority.Some? ==> ValidClaims(authority.value))
    case ReopenFix(_, _, _, claims, _, _) => ValidClaims(claims)
    case _ => true
  }

  function Take(db: Db, step: Step): Db
    requires Possible(step)
  {
    match step
    case MakeIssue(id, spec) => CreateIssue(db, id, spec).0
    case MakeBatch(ids, specs) => CreateBatch(db, ids, specs).0
    case MakeA4(id, guid, version, query, proof, ev) => CreateA4Issue(db, id, guid, version, query, proof, ev).0
    case Move(id, to, expected, note) => Transition(db, id, to, expected, note).0
    case MakeRun(id, version, metadata) => CreateRun(db, id, version, metadata)
    case StartRun(id) => MarkRunning(db, id)
    case FinishRun(id, ids, result) => CompleteRun(db, id, ids, result)
    case BreakRun(id) => FailRun(db, id)
    case ConfirmFix(cmd, authority, id, start, end) => Confirm(db, cmd, authority, id, start, end).0
    case ReopenFix(id, expected, note, claims, start, end) => Reopen(db, id, expected, note, claims, start, end).0
  }

  predicate Feasible(steps: seq<Step>) { forall s | s in steps :: Possible(s) }

  function Run(db: Db, steps: seq<Step>): Db
    requires Feasible(steps)
  {
    if steps == [] then db else Take(Run(db, steps[..|steps| - 1]), steps[|steps| - 1])
  }

  // --------------------------------------------------------------------------- the invariant

  /** The changes, replayed from Open along the status machine, end in `status`. */
  predicate Replays(cs: seq<Event>, status: IssueStatus) {
    if cs == [] then status == Open else
      var e := cs[|cs| - 1];
      e.to == status && e.from.Some? && status in AllowedFrom(e.from.value) && Replays(cs[..|cs| - 1], e.from.value)
  }

  /** Only remediation resolves or reopens a rule-result issue, and a confirmation only resolves. */
  predicate Governed(issue: Issue, cs: seq<Event>) {
    forall e | e in cs ::
      && (issue.sourceType == RULE_RESULT && e.to == Resolved ==> e.what == RemediationConfirmed)
      && (issue.sourceType == RULE_RESULT && e.to == Reopened ==> e.what == RemediationReopened)
      && (e.what == RemediationConfirmed ==> e.to == Resolved)
  }

  predicate Audited(db: Db, id: Id)
    requires id in db.issues
  {
    var issue, cs := db.issues[id], Changes(db.events, id);
    issue.id == id && Canonical(id) && |cs| == issue.revision && Replays(cs, issue.status) && Governed(issue, cs)
  }

  predicate Finished(run: RuleRun) { run.status == Succeeded || run.status == Failed }

  predicate StoredRun(db: Db, id: Id)
    requires id in db.runs
  {
    db.runs[id].id == id && Canonical(id) && (db.runs[id].summary.Some? <==> Finished(db.runs[id]))
  }

  predicate StoredRow(db: Db, r: Row) {
    Canonical(r.id) && r.run in db.runs && db.runs[r.run].status == Succeeded && FindRow(db.rows, r.id) == Some(r)
  }

  /** The confirmation's snapshot agrees with its columns and with the audit log. */
  predicate Logged(db: Db, c: Confirmation) {
    var s := c.snapshot;
    && c.issue in db.issues && db.issues[c.issue].sourceType == RULE_RESULT && db.issues[c.issue].kind == Formal
    && s.id == c.id && s.issue == c.issue && s.request == c.request && s.principal == c.principal
    && s.correspondence == c.correspondence && s.createdAt == c.createdAt && s.note == c.request.note
    && c.request.issue == c.issue && c.request.key == c.key && c.request.revisedRun == c.revisedRun
    && Canonical(c.id) && Canonical(c.principal) && |s.note| <= 4000
    && s.after == s.before + 1 <= db.issues[c.issue].revision
    && var cs := Changes(db.events, c.issue);
    && s.before < |cs| && cs[s.before].what == RemediationConfirmed && cs[s.before].to == Resolved
    && cs[s.before].note == c.id
  }

  /** The confirmation's groups are what the rule tables say now, and the authority vouched for them. */
  predicate Backed(db: Db, c: Confirmation) {
    var f, s := FindSubject(db, c.request), c.snapshot;
    && ValidCommand(c.request) && f.Ok? && s.sourceIdentity.issue == c.issue && ValidCase(s.sourceIdentity, c.issue)
    && Vouches(s.sourceIdentity, f.value.context) && s.sourceIdentity.correspondence == c.correspondence
    && FindGroups(db, c.request, f.value) == Ok((s.original, s.revised))
  }

  ghost predicate HasConfirmation(db: Db, id: Id, k: nat) {
    exists c :: c in db.confirmations && c.issue == id && c.snapshot.before == k
  }

  predicate Later(b: Confirmation, c: Confirmation) {
    b.id != c.id && (b.issue == c.issue ==>
      b.snapshot.before < c.snapshot.before && b.key != c.key
      && b.revisedRun != c.revisedRun && b.correspondence != c.correspondence)
  }

  ghost predicate Resolutions(db: Db) {
    forall id, k: nat | id in db.issues && db.issues[id].sourceType == RULE_RESULT
        && k < |Changes(db.events, id)| && Changes(db.events, id)[k].to == Resolved :: HasConfirmation(db, id, k)
  }

  ghost predicate IssuesOk(db: Db) {
    && (forall id | id in db.issues :: Audited(db, id))
    && (forall id | id !in db.issues :: Changes(db.events, id) == [])
  }

  ghost predicate RulesOk(db: Db) {
    && (forall id | id in db.runs :: StoredRun(db, id))
    && (forall r | r in db.rows :: StoredRow(db, r))
  }

  ghost predicate ConfirmationsOk(db: Db) {
    && (forall c | c in db.confirmations :: Logged(db, c) && Backed(db, c))
    && (forall i, j | 0 <= i < j < |db.confirmations| :: Later(db.confirmations[i], db.confirmations[j]))
  }

  predicate ProofsOk(db: Db) { forall p | p in db.a4 :: db.a4[p].issue in db.issues }

  ghost predicate Inv(db: Db) {
    IssuesOk(db) && RulesOk(db) && ConfirmationsOk(db) && Resolutions(db) && ProofsOk(db)
  }

  // --------------------------------------------------------------------------- growth

  predicate SameIssue(a: Issue, b: Issue) {
    b == a.(status := b.status, revision := b.revision) && a.revision <= b.revision
  }

  predicate SameRun(a: RuleRun, b: RuleRun) {
    && b == a.(status := b.status, summary := b.summary)
    && (Finished(a) ==> a == b)
  }

  ghost predicate IssuesGrow(db: Db, after: Db) {
    forall id | id in db.issues :: id in after.issues && SameIssue(db.issues[id], after.issues[id])
      && Changes(db.events, id) <= Changes(after.events, id)
  }

  ghost predicate RulesGrow(db: Db, after: Db) {
    && (forall id | id in db.runs :: id in after.runs && SameRun(db.runs[id], after.runs[id]))
    && (forall id | FindRow(db.rows, id).Some? :: FindRow(after.rows, id) == FindRow(db.rows, id))
    && (forall id | id in db.runs && db.runs[id].status == Succeeded :: RowsOf(after.rows, id) == RowsOf(db.rows, id))
  }

  predicate ProofsGrow(db: Db, after: Db) { forall p | p in db.a4 :: p in after.a4 && after.a4[p] == db.a4[p] }

  /** What no later transaction undoes. */
  ghost predicate Grows(db: Db, after: Db) {
    IssuesGrow(db, after) && RulesGrow(db, after) && ProofsGrow(db, after) && db.confirmations <= after.confirmations
  }

  lemma GrowsTransitive(a: Db, b: Db, c: Db)
    requires Grows(a, b) && Grows(b, c)
    ensures Grows(a, c)
  {
    forall id | id in a.issues ensures Changes(a.events, id) <= Changes(c.events, id) {
      assert id in b.issues;
    }
  }

  /** What a confirmation is about does not depend on when one looks. */
  lemma SubjectIsStable(db: Db, after: Db, cmd: Command)
    requires Grows(db, after) && FindSubject(db, cmd).Ok?
    requires forall id | id in db.runs :: StoredRun(db, id)
    ensures FindSubject(after, cmd).Ok?
    ensures var a, b := FindSubject(db, cmd).value, FindSubject(after, cmd).value;
      b == a.(issue := after.issues[cmd.issue], original := b.original, revised := b.revised)
      && SameRun(a.original, b.original) && SameRun(a.revised, b.revised) && SameIssue(a.issue, b.issue)
  {
    BindingIsStable(db.runs[cmd.revisedRun], after.runs[cmd.revisedRun]);
    var anchor := FindRow(db.rows, db.issues[cmd.issue].sourceRef.value).value;
    BindingIsStable(db.runs[anchor.run], after.runs[anchor.run]);
  }

  lemma BindingIsStable(a: RuleRun, b: RuleRun)
    requires SameRun(a, b) && Finished(a)
    ensures RunSourceBinding(b) == RunSourceBinding(a)
  {
  }

  lemma GroupsAreStable(db: Db, after: Db, cmd: Command, f: Subject, g: Subject)
    requires Grows(db, after) && FindGroups(db, cmd, f).Ok?
    requires f.original.id in db.runs && f.revised.id in db.runs
    requires db.runs[f.original.id] == f.original && db.runs[f.revised.id] == f.revised
    requires g == f.(issue := g.issue, original := g.original, revised := g.revised) && SameIssue(f.issue, g.issue)
    requires SameRun(f.original, g.original) && SameRun(f.revised, g.revised)
    ensures FindGroups(after, cmd, g) == FindGroups(db, cmd, f)
  {
    hide Covered, Covering, IsRuleDigest, Canonical;
    assert RunEvidence(db, f.original, f.context.guid, f.context.rule, f.anchor.id).Ok?;
    assert RunEvidence(db, f.revised, f.context.guid, f.context.rule, cmd.revisedResult).Ok?;
  }

  lemma BackingIsStable(db: Db, after: Db, c: Confirmation)
    requires Grows(db, after) && Backed(db, c)
    requires forall id | id in db.runs :: StoredRun(db, id)
    ensures Backed(after, c)
  {
    SubjectIsStable(db, after, c.request);
    var f, g := FindSubject(db, c.request).value, FindSubject(after, c.request).value;
    GroupsAreStable(db, after, c.request, f, g);
  }

  /** Stored confirmations stay as true as they were. */
  lemma ConfirmationsStand(db: Db, after: Db)
    requires RulesOk(db) && ConfirmationsOk(db) && Grows(db, after)
    ensures forall c | c in db.confirmations :: Logged(after, c) && Backed(after, c)
    ensures after.confirmations == db.confirmations ==> ConfirmationsOk(after)
  {
    forall c | c in db.confirmations ensures Logged(after, c) && Backed(after, c) {
      assert Logged(db, c) && Backed(db, c);
      hide Backed;
      BackingIsStable(db, after, c);
      assert Changes(db.events, c.issue) <= Changes(after.events, c.issue);
    }
  }

  /** Resolutions of issues whose changes did not move stay confirmed. */
  lemma ResolutionsStand(db: Db, after: Db)
    requires Resolutions(db) && Grows(db, after)
    requires forall id | id in after.issues :: Changes(after.events, id) == Changes(db.events, id)
    requires forall id | id !in db.issues :: Changes(db.events, id) == []
    ensures Resolutions(after)
  {
    forall id, k: nat | id in after.issues && after.issues[id].sourceType == RULE_RESULT
        && k < |Changes(after.events, id)| && Changes(after.events, id)[k].to == Resolved
      ensures HasConfirmation(after, id, k)
    {
      assert HasConfirmation(db, id, k);
    }
  }

  /** A transaction that leaves changes, confirmations and rule tables alone. */
  lemma QuietStepKeepsInv(db: Db, after: Db)
    requires Inv(db) && Grows(db, after) && IssuesOk(after) && RulesOk(after) && ProofsOk(after)
    requires after.confirmations == db.confirmations
    requires forall id :: Changes(after.events, id) == Changes(db.events, id)
    ensures Inv(after)
  {
    hide Grows, RulesOk, Audited;
    ConfirmationsStand(db, after);
    ResolutionsStand(db, after);
  }

  // --------------------------------------------------------------------------- each transaction

  lemma FreshIsAudited(db: Db, id: Id)
    requires id in db.issues && db.issues[id].id == id && Canonical(id) && Changes(db.events, id) == []
    requires db.issues[id].status == Open && db.issues[id].revision == 0
    ensures Audited(db, id)
  {
    hide Canonical;
  }

  lemma InsertGrows(db: Db, issue: Issue)
    requires IssuesOk(db) && issue.id !in db.issues && Canonical(issue.id)
    requires issue.status == Open && issue.revision == 0
    ensures Grows(db, Insert(db, issue)) && IssuesOk(Insert(db, issue))
    ensures forall id :: Changes(Insert(db, issue).events, id) == Changes(db.events, id)
  {
    hide Canonical, RulesGrow, Changes, Audited;
    var after := Insert(db, issue);
    RulesReflexive(db, after);
    forall id ensures Changes(after.events, id) == Changes(db.events, id) {
      ChangesAppend(db.events, Event(issue.id, IssueCreated, None, Open, ""), id);
    }
    FreshIsAudited(after, issue.id);
    forall id | id in after.issues ensures Audited(after, id) {
      if id != issue.id { AuditDependsOn(db, after, id); }
    }
  }

  lemma RulesStand(db: Db, after: Db)
    requires RulesOk(db) && after.runs == db.runs && after.rows == db.rows
    ensures RulesOk(after)
  {
    hide Canonical;
    assert forall r | r in db.rows :: StoredRow(db, r);
  }

  lemma InsertKeepsInv(db: Db, issue: Issue)
    requires Inv(db) && issue.id !in db.issues && Canonical(issue.id)
    requires issue.status == Open && issue.revision == 0
    ensures Inv(Insert(db, issue)) && Grows(db, Insert(db, issue))
  {
    InsertGrows(db, issue);
    RulesStand(db, Insert(db, issue));
    hide IssuesOk, RulesOk, Grows, ConfirmationsOk, Resolutions;
    QuietStepKeepsInv(db, Insert(db, issue));
  }

  lemma CreateKeepsInv(db: Db, id: Id, spec: IssueSpec)
    requires Inv(db) && Canonical(id)
    ensures Inv(CreateIssue(db, id, spec).0) && Grows(db, CreateIssue(db, id, spec).0)
  {
    hide Inv, Canonical;
    GrowsReflexive(db);
    if Bindable(spec) && id !in db.issues { InsertKeepsInv(db, NewIssue(id, spec)); }
  }

  lemma GrowsReflexive(db: Db)
    ensures Grows(db, db)
  {
  }

  lemma {:induction false} BatchKeepsInv(db: Db, ids: seq<Id>, specs: seq<IssueSpec>)
    requires Inv(db) && |ids| == |specs| && forall id | id in ids :: Canonical(id)
    ensures var run := BatchLoop(db, ids, specs);
      run.Ok? ==> Inv(run.value.db) && Grows(db, run.value.db)
  {
    hide Inv, Grows, Canonical, CreateIssue, HasSource;
    GrowsReflexive(db);
    if specs != [] {
      var n := |specs| - 1;
      BatchKeepsInv(db, ids[..n], specs[..n]);
      var before := BatchLoop(db, ids[..n], specs[..n]);
      if before.Ok? {
        assert ids[n] in ids;
        CreateKeepsInv(before.value.db, ids[n], specs[n]);
        GrowsTransitive(db, before.value.db, CreateIssue(before.value.db, ids[n], specs[n]).0);
      }
    }
  }

  lemma A4Grows(db: Db, issue: Issue, proof: Id, ev: Evidence)
    requires IssuesOk(db) && ProofsOk(db) && issue.id !in db.issues && Canonical(issue.id)
    requires issue.status == Open && issue.revision == 0 && proof !in db.a4 && ev.issue == issue.id
    ensures var after := Insert(db, issue).(a4 := db.a4[proof := ev]);
      && Grows(db, after) && IssuesOk(after) && ProofsOk(after)
      && forall id :: Changes(after.events, id) == Changes(db.events, id)
  {
    hide Canonical;
    InsertGrows(db, issue);
    var mid := Insert(db, issue);
    assert forall id | id in mid.issues :: Audited(mid, id);
  }

  lemma A4KeepsInv(db: Db, id: Id, guid: string, version: string, query: string, proof: Id, ev: Evidence)
    requires Inv(db) && Canonical(id)
    ensures var after := CreateA4Issue(db, id, guid, version, query, proof, ev).0;
      Inv(after) && Grows(db, after)
  {
    hide Blank, Canonical, Grows;
    var after := CreateA4Issue(db, id, guid, version, query, proof, ev).0;
    GrowsReflexive(db);
    if after != db {
      var issue := Issue(id, Formal, Open, Some(guid), Some(version), A4_SEARCH, Some(query), 0);
      A4Grows(db, issue, proof, ev.(issue := id));
      RulesStand(db, after);
      hide IssuesOk, RulesOk, ConfirmationsOk, Resolutions, ProofsOk, CreateA4Issue;
      QuietStepKeepsInv(db, after);
    }
  }

  /** The event a change logs is legal for the issue it changes. */
  predicate LegalChange(issue: Issue, what: EventType, to: IssueStatus) {
    && what != IssueCreated && to in AllowedFrom(issue.status)
    && (what == RemediationConfirmed ==> to == Resolved)
    && (issue.sourceType == RULE_RESULT ==>
         (to == Resolved ==> what == RemediationConfirmed) && (to == Reopened ==> what == RemediationReopened))
  }

  lemma AuditAfterChange(db: Db, id: Id, what: EventType, to: IssueStatus, note: string)
    requires id in db.issues && Audited(db, id) && LegalChange(db.issues[id], what, to)
    ensures var after := Change(db, id, what, to, note);
      && Audited(after, id)
      && Changes(after.events, id) == Changes(db.events, id) + [Event(id, what, Some(db.issues[id].status), to, note)]
  {
    hide Canonical;
    var e := Event(id, what, Some(db.issues[id].status), to, note);
    ChangesAppend(db.events, e, id);
    var cs := Changes(db.events, id) + [e];
    assert cs[..|cs| - 1] == Changes(db.events, id);
  }

  lemma ChangeGrows(db: Db, id: Id, what: EventType, to: IssueStatus, note: string)
    requires IssuesOk(db) && id in db.issues && LegalChange(db.issues[id], what, to)
    ensures var after := Change(db, id, what, to, note);
      && Grows(db, after) && IssuesOk(after)
      && (forall other | other != id :: Changes(after.events, other) == Changes(db.events, other))
      && Changes(after.events, id) == Changes(db.events, id) + [Event(id, what, Some(db.issues[id].status), to, note)]
  {
    hide Audited, IssuesOk, RulesGrow, IssuesGrow, Changes, LegalChange, AllowedFrom;
    var after := Change(db, id, what, to, note);
    var e := Event(id, what, Some(db.issues[id].status), to, note);
    AuditedFact(db, id);
    AuditAfterChange(db, id, what, to, note);
    RulesReflexive(db, after);
    OthersUnchanged(db, e);
    IssuesAfterChange(db, after, id);
  }

  lemma AuditedFact(db: Db, id: Id)
    requires IssuesOk(db) && id in db.issues
    ensures Audited(db, id)
  {
  }

  lemma OthersUnchanged(db: Db, e: Event)
    ensures forall id | id != e.issue :: Changes(db.events + [e], id) == Changes(db.events, id)
  {
    forall id | id != e.issue ensures Changes(db.events + [e], id) == Changes(db.events, id) {
      ChangesAppend(db.events, e, id);
    }
  }

  lemma IssuesAfterChange(db: Db, after: Db, id: Id)
    requires IssuesOk(db) && id in db.issues && after.issues.Keys == db.issues.Keys
    requires forall other | other != id :: Changes(after.events, other) == Changes(db.events, other)
    requires forall other | other != id && other in db.issues :: after.issues[other] == db.issues[other]
    requires Audited(after, id) && SameIssue(db.issues[id], after.issues[id])
    requires Changes(db.events, id) <= Changes(after.events, id)
    ensures IssuesOk(after) && IssuesGrow(db, after)
  {
    hide Audited, Changes;
    forall other | other in after.issues ensures Audited(after, other) {
      if other != id { AuditDependsOn(db, after, other); }
    }
  }

  lemma RulesReflexive(db: Db, after: Db)
    requires after.runs == db.runs && after.rows == db.rows
    ensures RulesGrow(db, after)
  {
  }

  lemma AuditDependsOn(db: Db, after: Db, id: Id)
    requires id in db.issues && id in after.issues && after.issues[id] == db.issues[id]
    requires Audited(db, id) && Changes(after.events, id) == Changes(db.events, id)
    ensures Audited(after, id)
  {
  }

  lemma ResolutionsAfterChange(db: Db, after: Db, id: Id, e: Event)
    requires Resolutions(db) && db.confirmations <= after.confirmations
    requires forall other | other in after.issues ::
      other in db.issues && after.issues[other].sourceType == db.issues[other].sourceType
    requires forall other | other != id :: Changes(after.events, other) == Changes(db.events, other)
    requires id in db.issues && Changes(after.events, id) == Changes(db.events, id) + [e]
    requires db.issues[id].sourceType == RULE_RESULT && e.to == Resolved ==>
      HasConfirmation(after, id, |Changes(db.events, id)|)
    ensures Resolutions(after)
  {
    forall other, k: nat | other in after.issues && after.issues[other].sourceType == RULE_RESULT
        && k < |Changes(after.events, other)| && Changes(after.events, other)[k].to == Resolved
      ensures HasConfirmation(after, other, k)
    {
      if other != id || k < |Changes(db.events, id)| {
        assert HasConfirmation(db, other, k);
        var c :| c in db.confirmations && c.issue == other && c.snapshot.before == k;
        assert c in after.confirmations;
      }
    }
  }

  /** A transition, or a reopen: a change that confirms nothing. */
  lemma ChangeKeepsInv(db: Db, id: Id, what: EventType, to: IssueStatus, note: string)
    requires Inv(db) && id in db.issues && LegalChange(db.issues[id], what, to) && what != RemediationConfirmed
    ensures Inv(Change(db, id, what, to, note)) && Grows(db, Change(db, id, what, to, note))
  {
    var after := Change(db, id, what, to, note);
    ChangeGrows(db, id, what, to, note);
    RulesStand(db, after);
    hide RulesOk, IssuesOk, ConfirmationsOk, Resolutions, Grows;
    ConfirmationsStand(db, after);
    ResolutionsAfterChange(db, after, id, Event(id, what, Some(db.issues[id].status), to, note));
  }

  // Rule runs.

  lemma {:induction false} NewRowsAre(id: Id, ids: seq<Id>, findings: seq<Finding>, other: Id)
    requires |ids| == |findings|
    ensures RowsOf(NewRows(id, ids, findings), other) == if other == id then NewRows(id, ids, findings) else []
  {
    if ids != [] {
      var n := |ids| - 1;
      NewRowsAre(id, ids[..n], findings[..n], other);
      assert NewRows(id, ids, findings)[..n] == NewRows(id, ids[..n], findings[..n]);
    }
  }

  lemma {:induction false} NewRowsAreFound(rows: seq<Row>, id: Id, ids: seq<Id>, findings: seq<Finding>, k: nat)
    requires |ids| == |findings| && (forall i, j | 0 <= i < j < |ids| :: ids[i] != ids[j]) && k < |ids|
    ensures FindRow(rows + NewRows(id, ids, findings), ids[k]) == Some(NewRows(id, ids, findings)[k])
  {
    var n := |ids| - 1;
    var all := rows + NewRows(id, ids, findings);
    assert all[..|all| - 1] == rows + NewRows(id, ids[..n], findings[..n]);
    if k != n { NewRowsAreFound(rows, id, ids[..n], findings[..n], k); }
  }

  /** A run that has not succeeded has no rows. */
  lemma {:induction false} NoRowsYet(rows: seq<Row>, run: Id)
    requires forall r | r in rows :: r.run != run
    ensures RowsOf(rows, run) == []
  {
    if rows != [] { NoRowsYet(rows[..|rows| - 1], run); }
  }

  /** The rule tables after a step that changes one unfinished run and perhaps adds its rows. */
  ghost predicate RunMoves(db: Db, after: Db, id: Id) {
    && after == db.(runs := after.runs, rows := after.rows)
    && id in after.runs && after.runs == db.runs[id := after.runs[id]] && StoredRun(after, id)
    && (id in db.runs ==> SameRun(db.runs[id], after.runs[id]) && !Finished(db.runs[id]))
    && (after.rows != db.rows ==> after.runs[id].status == Succeeded)
  }

  lemma MoveGrows(db: Db, after: Db, id: Id, more: seq<Row>)
    requires RulesOk(db) && RunMoves(db, after, id) && after.rows == db.rows + more
    requires forall r | r in more :: r.run == id && Canonical(r.id) && FindRow(after.rows, r.id) == Some(r)
    requires forall r, q | r in db.rows && q in more :: r.id != q.id
    ensures Grows(db, after) && RulesOk(after)
  {
    hide Canonical;
    RowsMove(db, after, id, more);
    hide FindRow, RowsOf;
    forall r | r in after.rows ensures StoredRow(after, r) {
      if r in db.rows { assert StoredRow(db, r); }
    }
    forall other | other in after.runs ensures StoredRun(after, other) {
      if other != id { assert StoredRun(db, other); }
    }
  }

  lemma RowsMove(db: Db, after: Db, id: Id, more: seq<Row>)
    requires after.rows == db.rows + more && (id in db.runs ==> db.runs[id].status != Succeeded)
    requires forall r | r in more :: r.run == id
    requires forall r, q | r in db.rows && q in more :: r.id != q.id
    ensures forall rid | FindRow(db.rows, rid).Some? :: FindRow(after.rows, rid) == FindRow(db.rows, rid)
    ensures forall other | other in db.runs && db.runs[other].status == Succeeded ::
      RowsOf(after.rows, other) == RowsOf(db.rows, other)
  {
    forall rid | FindRow(db.rows, rid).Some? ensures FindRow(after.rows, rid) == FindRow(db.rows, rid) {
      FoundRowIsStored(db.rows, rid);
      FindRowAppend(db.rows, more, rid);
    }
    forall other | other in db.runs && db.runs[other].status == Succeeded
      ensures RowsOf(after.rows, other) == RowsOf(db.rows, other)
    {
      RowsOfAppend(db.rows, more, other);
      NoRowsYet(more, other);
    }
  }

  lemma FinishGrows(db: Db, id: Id, ids: seq<Id>, result: RunResult)
    requires RulesOk(db) && |ids| == |result.findings| && Unfinished(db, id) && FreshRowIds(db, ids)
    requires forall i | i in ids :: Canonical(i)
    ensures Grows(db, CompleteRun(db, id, ids, result)) && RulesOk(CompleteRun(db, id, ids, result))
  {
    var after, more := CompleteRun(db, id, ids, result), NewRows(id, ids, result.findings);
    forall k | 0 <= k < |more| ensures FindRow(after.rows, more[k].id) == Some(more[k]) {
      NewRowsAreFound(db.rows, id, ids, result.findings, k);
    }
    forall r | r in more ensures r.run == id && r.id in ids && FindRow(after.rows, r.id) == Some(r) {
      var k :| 0 <= k < |more| && r == more[k];
      assert r.id == ids[k];
    }
    assert StoredRun(db, id);
    hide FindRow, Canonical, RulesOk;
    MoveGrows(db, after, id, more);
  }

  lemma StatusMoves(db: Db, after: Db, id: Id)
    requires RulesOk(db) && after == db.(runs := after.runs) && id in after.runs
    requires after.runs == db.runs[id := after.runs[id]]
    requires after.runs[id].id == id && Canonical(id)
    requires after.runs[id].summary.Some? <==> Finished(after.runs[id])
    requires id in db.runs ==> SameRun(db.runs[id], after.runs[id]) && !Finished(db.runs[id])
    ensures Grows(db, after) && RulesOk(after)
  {
    hide RulesOk, Canonical, Grows;
    assert db.rows + [] == db.rows;
    MoveGrows(db, after, id, []);
  }

  lemma IssuesStand(db: Db, after: Db)
    requires IssuesOk(db) && after.issues == db.issues && after.events == db.events
    ensures IssuesOk(after)
  {
    forall id | id in after.issues ensures Audited(after, id) { AuditDependsOn(db, after, id); }
  }

  lemma QuietRunStep(db: Db, after: Db)
    requires Inv(db) && after == db.(runs := after.runs, rows := after.rows) && Grows(db, after) && RulesOk(after)
    ensures Inv(after)
  {
    hide RulesOk, Grows, IssuesOk, ConfirmationsOk, Resolutions;
    IssuesStand(db, after);
    QuietStepKeepsInv(db, after);
  }

  lemma MakeRunKeepsInv(db: Db, id: Id, version: Option<string>, metadata: Option<Metadata>)
    requires Inv(db) && Canonical(id)
    ensures Inv(CreateRun(db, id, version, metadata)) && Grows(db, CreateRun(db, id, version, metadata))
  {
    hide RulesOk, Grows, IssuesOk, ConfirmationsOk, Resolutions, Canonical;
    GrowsReflexive(db);
    if id !in db.runs {
      StatusMoves(db, CreateRun(db, id, version, metadata), id);
      QuietRunStep(db, CreateRun(db, id, version, metadata));
    }
  }

  lemma StartKeepsInv(db: Db, id: Id)
    requires Inv(db)
    ensures Inv(MarkRunning(db, id)) && Grows(db, MarkRunning(db, id))
  {
    GrowsReflexive(db);
    if MarkRunning(db, id) != db {
      assert StoredRun(db, id);
      hide RulesOk, Grows, IssuesOk, ConfirmationsOk, Resolutions, Canonical;
      StatusMoves(db, MarkRunning(db, id), id);
      QuietRunStep(db, MarkRunning(db, id));
    }
  }

  lemma BreakKeepsInv(db: Db, id: Id)
    requires Inv(db)
    ensures Inv(FailRun(db, id)) && Grows(db, FailRun(db, id))
  {
    GrowsReflexive(db);
    if FailRun(db, id) != db {
      assert StoredRun(db, id);
      hide RulesOk, Grows, IssuesOk, ConfirmationsOk, Resolutions, Canonical;
      StatusMoves(db, FailRun(db, id), id);
      QuietRunStep(db, FailRun(db, id));
    }
  }

  lemma FinishKeepsInv(db: Db, id: Id, ids: seq<Id>, result: RunResult)
    requires Inv(db) && |ids| == |result.findings| && forall i | i in ids :: Canonical(i)
    ensures Inv(CompleteRun(db, id, ids, result)) && Grows(db, CompleteRun(db, id, ids, result))
  {
    hide RulesOk, Grows, IssuesOk, ConfirmationsOk, Resolutions, Canonical;
    GrowsReflexive(db);
    if Unfinished(db, id) && FreshRowIds(db, ids) {
      FinishGrows(db, id, ids, result);
      QuietRunStep(db, CompleteRun(db, id, ids, result));
    }
  }

  // Transitions, confirmations and reopens.

  lemma MoveKeepsInv(db: Db, id: Id, to: IssueStatus, expected: Option<int>, note: string)
    requires Inv(db)
    ensures var after := Transition(db, id, to, expected, note).0;
      Inv(after) && Grows(db, after)
  {
    hide Inv, Grows;
    GrowsReflexive(db);
    if Transition(db, id, to, expected, note).0 != db { ChangeKeepsInv(db, id, Transitioned, to, note); }
  }

  lemma ReopenKeepsInv(db: Db, id: Id, expected: int, note: string, a: Claims, start: nat, end: nat)
    requires Inv(db)
    ensures var after := Reopen(db, id, expected, note, a, start, end).0;
      Inv(after) && Grows(db, after)
  {
    hide Inv, Grows, Canonical, RunSourceBinding, FindRow, MayReopen;
    GrowsReflexive(db);
    if Reopen(db, id, expected, note, a, start, end).0 != db {
      ChangeKeepsInv(db, id, RemediationReopened, Reopened, note);
    }
  }

  /** What a confirm transaction knows when it writes. */
  predicate Confirmable(db: Db, cmd: Command, a: Claims, d: Decision, id: Id, groups: (Group, Group)) {
    var found := FindSubject(db, cmd);
    && ValidCommand(cmd) && ValidClaims(a) && Canonical(id)
    && found.Ok? && Vouches(d.sourceIdentity, found.value.context) && d.sourceIdentity in a.cases
    && d.correspondence == d.sourceIdentity.correspondence
    && FindConfirmation(db.confirmations, cmd.issue, cmd.key).None?
    && found.value.issue.revision == cmd.expectedRevision && Resolved in AllowedFrom(found.value.issue.status)
    && FindGroups(db, cmd, found.value) == Ok(groups) && !Reuses(db, cmd, d)
    && forall c | c in db.confirmations :: c.id != id
  }

  /** The one way a confirm transaction writes. */
  predicate ConfirmWrites(db: Db, cmd: Command, a: Claims, id: Id, start: nat, end: nat, answer: (Db, Result<Confirmed>)) {
    && FindSubject(db, cmd).Ok?
    && var f := FindSubject(db, cmd).value;
    && var d := Decide(a, f.context, start);
    && d.Some? && FindGroups(db, cmd, f).Ok?
    && var groups := FindGroups(db, cmd, f).value;
    && Confirmable(db, cmd, a, d.value, id, groups) && end < a.expires
    && var s := NewSnapshot(id, cmd, a, d.value, db.issues[cmd.issue], groups, end);
    && answer.0 == AddConfirmation(db, s)
    && answer.1 == Ok(Confirmed(answer.0.issues[cmd.issue], s, false))
  }

  lemma ConfirmAnswers(db: Db, cmd: Command, authority: Option<Claims>, id: Id, start: nat, end: nat)
    requires authority.Some? ==> ValidClaims(authority.value)
    requires Canonical(id)
    ensures var answer := Confirm(db, cmd, authority, id, start, end);
      if answer.1.Ok? && !answer.1.value.replayed
      then authority.Some? && ConfirmWrites(db, cmd, authority.value, id, start, end, answer)
      else answer.0 == db
  {
    hide FindGroups, Canonical, ValidCommand, Reuses, AddConfirmation, NewSnapshot, ValidClaims;
  }

  lemma AddGrows(db: Db, s: Snapshot)
    requires IssuesOk(db) && s.issue in db.issues && Resolved in AllowedFrom(db.issues[s.issue].status)
    ensures var after := AddConfirmation(db, s);
      && Grows(db, after) && IssuesOk(after) && after.runs == db.runs && after.rows == db.rows && after.a4 == db.a4
      && (forall other | other != s.issue :: Changes(after.events, other) == Changes(db.events, other))
      && Changes(after.events, s.issue) == Changes(db.events, s.issue)
           + [Event(s.issue, RemediationConfirmed, Some(db.issues[s.issue].status), Resolved, s.id)]
  {
    hide Canonical, RulesGrow, Changes, Audited;
    var after := AddConfirmation(db, s);
    var mid := db.(confirmations := after.confirmations);
    assert IssuesOk(mid) by { forall id | id in db.issues ensures Audited(mid, id) { AuditDependsOn(db, mid, id); } }
    ChangeGrows(mid, s.issue, RemediationConfirmed, Resolved, s.id);
    RulesReflexive(db, after);
  }

  /** The row a confirm transaction adds. */
  function Added(db: Db, s: Snapshot): Confirmation {
    Confirmation(s.id, s.issue, s.request.key, s.request, s.principal, s.correspondence,
                 s.request.revisedRun, s, s.createdAt)
  }

  lemma NewConfirmationIsBacked(db: Db, cmd: Command, a: Claims, d: Decision, id: Id, groups: (Group, Group), now: nat)
    requires Inv(db) && Confirmable(db, cmd, a, d, id, groups)
    ensures var s := NewSnapshot(id, cmd, a, d, db.issues[cmd.issue], groups, now);
      Backed(AddConfirmation(db, s), Added(db, s))
  {
    hide Canonical, FindGroups, IssuesOk, ConfirmationsOk, Resolutions, Audited, Reuses, FindConfirmation, Grows;
    var s := NewSnapshot(id, cmd, a, d, db.issues[cmd.issue], groups, now);
    var after := AddConfirmation(db, s);
    AddGrows(db, s);
    SubjectIsStable(db, after, cmd);
    GroupsAreStable(db, after, cmd, FindSubject(db, cmd).value, FindSubject(after, cmd).value);
  }

  lemma NewConfirmationIsLogged(db: Db, cmd: Command, a: Claims, d: Decision, id: Id, groups: (Group, Group), now: nat)
    requires Inv(db) && Confirmable(db, cmd, a, d, id, groups)
    ensures var s := NewSnapshot(id, cmd, a, d, db.issues[cmd.issue], groups, now);
      Logged(AddConfirmation(db, s), Added(db, s))
  {
    hide Canonical, FindGroups, IssuesOk, ConfirmationsOk, Resolutions, RulesOk, FindRow, RunSourceBinding,
         Reuses, FindConfirmation, ValidCase, Replays, Governed;
    var s := NewSnapshot(id, cmd, a, d, db.issues[cmd.issue], groups, now);
    AddGrows(db, s);
    AuditedFact(db, cmd.issue);
  }

  lemma NewConfirmationIsLater(db: Db, cmd: Command, a: Claims, d: Decision, id: Id, groups: (Group, Group), now: nat, b: Confirmation)
    requires Inv(db) && Confirmable(db, cmd, a, d, id, groups) && b in db.confirmations
    ensures Later(b, Added(db, NewSnapshot(id, cmd, a, d, db.issues[cmd.issue], groups, now)))
  {
    assert Logged(db, b);
    FoundConfirmationIsStored(db.confirmations, cmd.issue, cmd.key);
    hide Canonical, FindGroups, IssuesOk, ConfirmationsOk, Resolutions, RulesOk, FindRow, RunSourceBinding, FindConfirmation;
  }

  lemma AddKeepsInv(db: Db, cmd: Command, a: Claims, d: Decision, id: Id, groups: (Group, Group), now: nat)
    requires Inv(db) && Confirmable(db, cmd, a, d, id, groups)
    ensures var after := AddConfirmation(db, NewSnapshot(id, cmd, a, d, db.issues[cmd.issue], groups, now));
      Inv(after) && Grows(db, after)
  {
    var s := NewSnapshot(id, cmd, a, d, db.issues[cmd.issue], groups, now);
    var after, c := AddConfirmation(db, s), Added(db, s);
    AddGrows(db, s);
    RulesStand(db, after);
    NewConfirmationIsBacked(db, cmd, a, d, id, groups, now);
    NewConfirmationIsLogged(db, cmd, a, d, id, groups, now);
    assert db.issues[cmd.issue].revision == |Changes(db.events, cmd.issue)| by { assert Audited(db, cmd.issue); }
    assert forall b | b in db.confirmations :: Later(b, c) by {
      forall b | b in db.confirmations { NewConfirmationIsLater(db, cmd, a, d, id, groups, now, b); }
    }
    hide Canonical, FindGroups, FindSubject, IssuesOk, RulesOk, Confirmable, Grows, Later, Backed;
    ConfirmationsStand(db, after);
    ConfirmationsExtend(db, after, c);
    assert c in after.confirmations;
    assert HasConfirmation(after, cmd.issue, |Changes(db.events, cmd.issue)|);
    ResolutionsAfterChange(db, after, cmd.issue,
      Event(s.issue, RemediationConfirmed, Some(db.issues[s.issue].status), Resolved, s.id));
  }

  lemma ConfirmationsExtend(db: Db, after: Db, c: Confirmation)
    requires ConfirmationsOk(db) && after.confirmations == db.confirmations + [c]
    requires forall b | b in db.confirmations :: Logged(after, b) && Backed(after, b) && Later(b, c)
    requires Logged(after, c) && Backed(after, c)
    ensures ConfirmationsOk(after)
  {
    hide Logged, Backed, Later;
    forall i, j | 0 <= i < j < |after.confirmations|
      ensures Later(after.confirmations[i], after.confirmations[j])
    {
      if j < |db.confirmations| { assert Later(db.confirmations[i], db.confirmations[j]); }
    }
  }

  lemma ConfirmKeepsInv(db: Db, cmd: Command, authority: Option<Claims>, id: Id, start: nat, end: nat)
    requires Inv(db) && (authority.Some? ==> ValidClaims(authority.value)) && Canonical(id)
    ensures var after := Confirm(db, cmd, authority, id, start, end).0;
      Inv(after) && Grows(db, after)
  {
    hide Inv, Grows, Confirm, ValidClaims, Canonical, Confirmable, FindSubject, Decide, FindGroups, AddConfirmation;
    GrowsReflexive(db);
    ConfirmAnswers(db, cmd, authority, id, start, end);
    var after := Confirm(db, cmd, authority, id, start, end).0;
    if after != db {
      var f := FindSubject(db, cmd).value;
      AddKeepsInv(db, cmd, authority.value, Decide(authority.value, f.context, start).value, id,
                  FindGroups(db, cmd, f).value, end);
    }
  }

  // --------------------------------------------------------------------------- every run

  lemma StepKeepsInv(db: Db, step: Step)
    requires Inv(db) && Possible(step)
    ensures Inv(Take(db, step)) && Grows(db, Take(db, step))
  {
    hide Inv, Grows, Canonical, ValidClaims, Confirm, Reopen, Transition, BatchLoop, CreateIssue, CreateA4Issue,
         CreateRun, MarkRunning, CompleteRun, FailRun;
    match step
    case MakeIssue(id, spec) => CreateKeepsInv(db, id, spec);
    case MakeBatch(ids, specs) => GrowsReflexive(db); BatchKeepsInv(db, ids, specs);
    case MakeA4(id, guid, version, query, proof, ev) => A4KeepsInv(db, id, guid, version, query, proof, ev);
    case Move(id, to, expected, note) => MoveKeepsInv(db, id, to, expected, note);
    case MakeRun(id, version, metadata) => MakeRunKeepsInv(db, id, version, metadata);
    case StartRun(id) => StartKeepsInv(db, id);
    case FinishRun(id, ids, result) => FinishKeepsInv(db, id, ids, result);
    case BreakRun(id) => BreakKeepsInv(db, id);
    case ConfirmFix(cmd, authority, id, start, end) => ConfirmKeepsInv(db, cmd, authority, id, start, end);
    case ReopenFix(id, expected, note, claims, start, end) =>
      ReopenKeepsInv(db, id, expected, note, claims, start, end);
  }

  /** Main result: the invariant holds after every run from the empty database. */
  lemma {:induction false} RunKeepsInv(steps: seq<Step>)
    requires Feasible(steps)
    ensures Inv(Run(EMPTY, steps))
  {
    hide Inv, Possible, Take;
    if steps == [] {
      EmptyInv();
    } else {
      RunKeepsInv(steps[..|steps| - 1]);
      StepKeepsInv(Run(EMPTY, steps[..|steps| - 1]), steps[|steps| - 1]);
    }
  }

  lemma EmptyInv()
    ensures Inv(EMPTY)
  {
  }

  /** Whatever was true of a database stays true, in the sense of `Grows`, of all its futures. */
  lemma {:induction false} FutureGrows(db: Db, steps: seq<Step>)
    requires Inv(db) && Feasible(steps)
    ensures Inv(Run(db, steps)) && Grows(db, Run(db, steps))
  {
    hide Inv, Grows, Possible, Take;
    GrowsReflexive(db);
    if steps != [] {
      var mid := Run(db, steps[..|steps| - 1]);
      FutureGrows(db, steps[..|steps| - 1]);
      StepKeepsInv(mid, steps[|steps| - 1]);
      GrowsTransitive(db, mid, Run(db, steps));
    }
  }
}
