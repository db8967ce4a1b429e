/**
 The governance store itself: mutable tables, and transactions that write them row by row and roll
 back when a late check fails. Each method is proved against its transaction function.
 */
module LedgerStore {
  import opened Options
  import opened Text
  import opened LedgerTables
  import T = LedgerTransactions

  class Store {
    var issues: map<Id, Issue>
    var events: seq<Event>
    var confirmations: seq<Confirmation>
    var runs: map<Id, RuleRun>
    var rows: seq<Row>
    var proofs: map<Id, Evidence>

    /** The contents of the database. */
    function View(): Db
      reads this
    {
      Db(issues, events, confirmations, runs, rows, proofs)
    }

    constructor ()
      ensures View() == EMPTY
    {
      issues, events, confirmations, runs, rows, proofs := map[], [], [], map[], [], map[];
    }

    method InsertIssue(issue: Issue)
      modifies `issues, `events
      ensures View() == T.Insert(old(View()), issue)
    {
      issues := issues[issue.id := issue];
      events := events + [Event(issue.id, IssueCreated, None, Open, "")];
    }

    method CreateIssue(id: Id, spec: T.IssueSpec) returns (answer: Result<Issue>)
      modifies `issues, `events
      ensures (View(), answer) == T.CreateIssue(old(View()), id, spec)
    {
      if !T.Bindable(spec) { return Err(Unbound); }
      if id in issues { return Err(Constraint); }
      InsertIssue(T.NewIssue(id, spec));
      answer := Ok(T.NewIssue(id, spec));
    }

    /** One transaction for all items: the first error rolls every one of them back. */
    method CreateBatch(ids: seq<Id>, specs: seq<T.IssueSpec>) returns (answer: Result<T.Batch>)
      requires |ids| == |specs|
      modifies `issues, `events
      ensures (View(), answer) == T.CreateBatch(old(View()), ids, specs)
    {
      var savedIssues, savedEvents := issues, events;
      var created: seq<Id>, skipped := [], 0;
      for i := 0 to |specs|
        invariant T.BatchLoop(old(View()), ids[..i], specs[..i]) == Ok(T.Batch(View(), created, skipped))
      {
        assert ids[..i + 1][..i] == ids[..i] && specs[..i + 1][..i] == specs[..i];
        if T.HasSource(View(), specs[i]) {
          skipped := skipped + 1;
        } else {
          var made := CreateIssue(ids[i], specs[i]);
          if made.Err? {
            BatchFails(old(View()), ids, specs, i + 1);
            issues, events := savedIssues, savedEvents;
            return Err(made.error);
          }
          created := created + [ids[i]];
        }
      }
      assert ids[..|specs|] == ids && specs[..|specs|] == specs;
      answer := Ok(T.Batch(View(), created, skipped));
    }

    method CreateA4Issue(id: Id, guid: string, version: string, query: string, proof: Id, evidence: Evidence)
      returns (answer: Result<Issue>)
      modifies `issues, `events, `proofs
      ensures (View(), answer) == T.CreateA4Issue(old(View()), id, guid, version, query, proof, evidence)
    {
      if proof in proofs {
        var stored := proofs[proof];
        if stored.issue !in issues { return Err(Constraint); }
        if stored.session != evidence.session || stored.principal != evidence.principal { return Err(Unauthorized); }
        var snapshotMatches := stored.snapshotHash == evidence.snapshotHash;
        var proofMatches := stored.proofDigest == evidence.proofDigest;
        var requestMatches := stored.requestHash == evidence.requestHash;
        if !(snapshotMatches && proofMatches && requestMatches) { return Err(Conflict); }
        return Ok(issues[stored.issue]);
      }
      if id in issues || T.Blank(guid) || T.Blank(version) { return Err(Constraint); }
      var issue := Issue(id, Formal, Open, Some(guid), Some(version), T.A4_SEARCH, Some(query), 0);
      InsertIssue(issue);
      proofs := proofs[proof := evidence.(issue := id)];
      answer := Ok(issue);
    }

    method ChangeStatus(id: Id, what: EventType, to: IssueStatus, note: string)
      requires id in issues
      modifies `issues, `events
      ensures View() == T.Change(old(View()), id, what, to, note)
    {
      var issue := issues[id];
      issues := issues[id := issue.(status := to, revision := issue.revision + 1)];
      events := events + [Event(id, what, Some(issue.status), to, note)];
    }

    method Transition(id: Id, to: IssueStatus, expected: Option<int>, note: string) returns (answer: Result<Issue>)
      modifies `issues, `events
      ensures (View(), answer) == T.Transition(old(View()), id, to, expected, note)
    {
      if expected.Some? && expected.value < 0 { return Err(Illegal); }
      if id !in issues { return Err(NotFound); }
      var issue := issues[id];
      if expected.Some? && issue.revision != expected.value { return Err(Illegal); }
      if to !in AllowedFrom(issue.status) { return Err(Illegal); }
      if issue.sourceType == T.RULE_RESULT && (to == Resolved || to == Reopened) { return Err(Illegal); }
      ChangeStatus(id, Transitioned, to, note);
      answer := Ok(issues[id]);
    }

    method CreateRun(id: Id, version: Option<string>, metadata: Option<Metadata>)
      modifies `runs
      ensures View() == T.CreateRun(old(View()), id, version, metadata)
    {
      if id !in runs { runs := runs[id := RuleRun(id, version, metadata, Queued, None)]; }
    }

    method MarkRunning(id: Id)
      modifies `runs
      ensures View() == T.MarkRunning(old(View()), id)
    {
      if id in runs && runs[id].status == Queued { runs := runs[id := runs[id].(status := Running)]; }
    }

    /** First terminal write wins: a stale completion appends nothing; a bad key undoes the update. */
    method CompleteRun(id: Id, ids: seq<Id>, result: T.RunResult)
      requires |ids| == |result.findings|
      modifies `runs, `rows
      ensures View() == T.CompleteRun(old(View()), id, ids, result)
    {
      if !T.Unfinished(View(), id) { return; }
      var savedRuns, usable := runs, T.FreshRowIds(View(), ids);
      runs := runs[id := runs[id].(status := Succeeded, summary := Some(result.summary))];
      if !usable {
        runs := savedRuns;
        return;
      }
      var added: seq<Row> := [];
      for i := 0 to |ids|
        invariant added == T.NewRows(id, ids[..i], result.findings[..i])
      {
        var f := result.findings[i];
        added := added + [Row(ids[i], id, f.guid, f.rule, f.status)];
      }
      assert ids[..|ids|] == ids && result.findings[..|ids|] == result.findings;
      rows := rows + added;
    }

    method FailRun(id: Id)
      modifies `runs
      ensures View() == T.FailRun(old(View()), id)
    {
      if T.Unfinished(View(), id) {
        runs := runs[id := runs[id].(status := Failed, summary := Some(Summary(-1, -1, -1, -1, None, None)))];
      }
    }

    /** Counts the run's outcomes and compares them with its summary before trusting the group. */
    method RunEvidence(run: RuleRun, guid: string, rule: string, anchor: Id) returns (answer: Result<Group>)
      ensures answer == T.RunEvidence(View(), run, guid, rule, anchor)
    {
      if run.status != Succeeded || run.summary.None? { return Err(Invalid); }
      var summary := run.summary.value;
      if summary.digest.None? || !IsRuleDigest(summary.digest.value) { return Err(Invalid); }
      var found := RowsOf(rows, run.id);
      var passed, failed, errored := 0, 0, 0;
      for i := 0 to |found|
        invariant forall r | r in found[..i] :: r.status != Unknown
        invariant passed == CountOf(found[..i], Pass) && failed == CountOf(found[..i], Fail)
        invariant errored == CountOf(found[..i], Errored)
      {
        assert found[..i + 1][..i] == found[..i] && found[..i + 1] == found[..i] + [found[i]];
        match found[i].status {
          case Pass => passed := passed + 1;
          case Fail => failed := failed + 1;
          case Errored => errored := errored + 1;
          case Unknown => assert found[i] in found; return Err(Invalid);
        }
      }
      assert found[..|found|] == found;
      if summary.total != |found| || summary.passed != passed || summary.failed != failed || summary.errored != errored {
        return Err(Invalid);
      }
      if exists r :: r in found && r.rule == rule && !IsCanonical(r.guid) { return Err(Invalid); }
      var group := Covering(found, guid, rule);
      if group == [] { return Err(Invalid); }
      answer := Ok(Group(run.id, run.version, guid, rule, summary.digest.value, group, anchor));
    }

    method MatchingGroups(cmd: Command, s: T.Subject) returns (answer: Result<(Group, Group)>)
      ensures answer == T.FindGroups(View(), cmd, s)
    {
      if s.original.id == s.revised.id || s.original.version == s.revised.version { return Err(Invalid); }
      var anchor := FindRow(rows, cmd.revisedResult);
      if s.anchor.status != Fail || anchor.None? || anchor.value.run != s.revised.id || anchor.value.status != Pass
         || anchor.value.guid != s.issue.guid || anchor.value.rule != s.anchor.rule { return Err(Invalid); }
      var first := RunEvidence(s.original, s.context.guid, s.context.rule, s.anchor.id);
      if first.Err? { return Err(Invalid); }
      var second := RunEvidence(s.revised, s.context.guid, s.context.rule, cmd.revisedResult);
      if second.Err? || first.value.digest != second.value.digest
         || |first.value.members| != |second.value.members|
         || exists m :: m in second.value.members && m.status != Pass { return Err(Invalid); }
      answer := Ok((first.value, second.value));
    }

    /** The confirm transaction: three writes, undone if the grant runs out before the commit. */
    method Confirm(cmd: Command, authority: Option<T.Claims>, id: Id, start: nat, end: nat)
      returns (answer: Result<T.Confirmed>)
      modifies `issues, `events, `confirmations
      ensures (View(), answer) == T.Confirm(old(View()), cmd, authority, id, start, end)
    {
      hide T.ValidCommand, T.FindSubject, T.Decide, T.FindGroups, T.Reuses, FindConfirmation, AllowedFrom;
      if !T.ValidCommand(cmd) { return Err(Invalid); }
      if authority.None? { return Err(Unauthorized); }
      var found := T.FindSubject(View(), cmd);
      if found.Err? { return Err(found.error); }
      SubjectIssue(View(), cmd);
      var a, issue := authority.value, found.value.issue;
      var decision := T.Decide(a, found.value.context, start);
      if decision.None? { return Err(Unauthorized); }
      var stored := FindConfirmation(confirmations, cmd.issue, cmd.key);
      if stored.Some? {
        if stored.value.principal != a.principal { return Err(Unauthorized); }
        if stored.value.request != cmd { return Err(Conflict); }
        if a.expires <= end { return Err(Unauthorized); }
        return Ok(T.Confirmed(issue, stored.value.snapshot, true));
      }
      if issue.revision != cmd.expectedRevision { return Err(Conflict); }
      if Resolved !in AllowedFrom(issue.status) { return Err(Conflict); }
      var groups := MatchingGroups(cmd, found.value);
      if groups.Err? { return Err(groups.error); }
      if T.Reuses(View(), cmd, decision.value) { return Err(Conflict); }
      if exists c :: c in confirmations && c.id == id { return Err(Constraint); }
      var savedIssues, savedEvents, savedConfirmations := issues, events, confirmations;
      var s := T.NewSnapshot(id, cmd, a, decision.value, issue, groups.value, end);
      confirmations := confirmations + [Confirmation(id, cmd.issue, cmd.key, cmd, a.principal,
                                                     decision.value.correspondence, cmd.revisedRun, s, end)];
      ChangeStatus(cmd.issue, RemediationConfirmed, Resolved, id);
      if a.expires <= end {
        issues, events, confirmations := savedIssues, savedEvents, savedConfirmations;
        return Err(Unauthorized);
      }
      answer := Ok(T.Confirmed(issues[cmd.issue], s, false));
    }

    /** The reopen transaction, authorised before and after its writes. */
    method Reopen(id: Id, expected: int, note: string, a: T.Claims, start: nat, end: nat)
      returns (answer: Result<Issue>)
      modifies `issues, `events
      ensures (View(), answer) == T.Reopen(old(View()), id, expected, note, a, start, end)
    {
      if !Canonical(id) || expected < 0 || |note| > 4000 || id !in issues { return Err(Invalid); }
      var issue := issues[id];
      if issue.kind != Formal || issue.sourceType != T.RULE_RESULT || issue.sourceRef.None? { return Err(Invalid); }
      var anchor := FindRow(rows, issue.sourceRef.value);
      if anchor.None? || anchor.value.guid != issue.guid || anchor.value.run !in runs { return Err(Invalid); }
      var binding := T.RunSourceBinding(runs[anchor.value.run]);
      if binding.Err? { return Err(Invalid); }
      if !T.MayReopen(a, issue, anchor.value.rule, binding.value, start) { return Err(Unauthorized); }
      if issue.revision != expected || issue.status !in {Resolved, Rejected} { return Err(Conflict); }
      var savedIssues, savedEvents := issues, events;
      ChangeStatus(id, RemediationReopened, Reopened, note);
      if !T.MayReopen(a, issue, anchor.value.rule, binding.value, end) {
        issues, events := savedIssues, savedEvents;
        return Err(Unauthorized);
      }
      answer := Ok(issues[id]);
    }
  }

  lemma SubjectIssue(db: Db, cmd: Command)
    requires T.FindSubject(db, cmd).Ok?
    ensures cmd.issue in db.issues && T.FindSubject(db, cmd).value.issue == db.issues[cmd.issue]
  {
  }

  /** An item that fails, fails the whole batch, with its error. */
  lemma {:induction false} BatchFails(db: Db, ids: seq<Id>, specs: seq<T.IssueSpec>, k: nat)
    requires |ids| == |specs| && k <= |specs| && T.BatchLoop(db, ids[..k], specs[..k]).Err?
    ensures T.BatchLoop(db, ids, specs) == T.BatchLoop(db, ids[..k], specs[..k])
    decreases |specs|
  {
    if k == |specs| {
      assert ids[..k] == ids && specs[..k] == specs;
    } else {
      var n := |specs| - 1;
      assert ids[..n][..k] == ids[..k] && specs[..n][..k] == specs[..k];
      BatchFails(db, ids[..n], specs[..n], k);
    }
  }
}
