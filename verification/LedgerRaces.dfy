/** Competing commands: of those that rest on one revision of an issue at most one ever writes. */
module LedgerRaces {
  import opened Options
  import opened Text
  import opened LedgerTables
  import opened LedgerTransactions
  import opened LedgerRuns

  /** The issue and revision a command rests on, for the three writers that compare revisions. */
  function Expects(step: Step): Option<(Id, int)> {
    match step
    case Move(id, _, Some(r), _) => Some((id, r))
    case ConfirmFix(cmd, _, _, _, _) => Some((cmd.issue, cmd.expectedRevision))
    case ReopenFix(id, r, _, _, _, _) => Some((id, r))
    case _ => None
  }

  /** One issue moved one revision on, with its audit row; nothing else of the ledger changed. */
  predicate OneStep(db: Db, after: Db, id: Id) {
    && id in db.issues && after.issues.Keys == db.issues.Keys
    && after.issues == db.issues[id := db.issues[id].(status := after.issues[id].status, revision := db.issues[id].revision + 1)]
    && |after.events| == |db.events| + 1 && after.events[..|db.events|] == db.events
    && var e := after.events[|db.events|];
    && e.issue == id && e.from == Some(db.issues[id].status) && e.to == after.issues[id].status
    && e.to in AllowedFrom(db.issues[id].status)
    && after.runs == db.runs && after.rows == db.rows && after.a4 == db.a4
    && db.confirmations <= after.confirmations && |after.confirmations| <= |db.confirmations| + 1
    && (|after.confirmations| > |db.confirmations| <==> e.what == RemediationConfirmed)
  }

  lemma ChangeIsOneStep(db: Db, id: Id, what: EventType, to: IssueStatus, note: string)
    requires id in db.issues && to in AllowedFrom(db.issues[id].status) && what != RemediationConfirmed
    ensures OneStep(db, Change(db, id, what, to, note), id)
  {
  }

  /** A command that writes rests on the issue's present revision, and moves it on by one. */
  lemma WinnerMovesOn(db: Db, step: Step)
    requires Possible(step) && Expects(step).Some? && Take(db, step) != db
    ensures var (id, r) := Expects(step).value;
      OneStep(db, Take(db, step), id) && db.issues[id].revision == r
  {
    hide FindSubject, FindGroups, Decide, Reuses, ValidCommand, MayReopen, RunSourceBinding, FindRow, FindConfirmation, Canonical;
    match step
    case Move(id, to, expected, note) => ChangeIsOneStep(db, id, Transitioned, to, note);
    case ReopenFix(id, r, note, claims, start, end) => ChangeIsOneStep(db, id, RemediationReopened, Reopened, note);
    case ConfirmFix(cmd, authority, id, start, end) =>
      SubjectIsIssue(db, cmd);
    case _ =>
  }

  lemma SubjectIsIssue(db: Db, cmd: Command)
    ensures FindSubject(db, cmd).Ok? ==> cmd.issue in db.issues && FindSubject(db, cmd).value.issue == db.issues[cmd.issue]
  {
  }

  /** A command that rests on a revision the issue has left behind never writes. */
  lemma StaleNeverWrites(db: Db, step: Step)
    requires Possible(step) && Expects(step).Some?
    requires var (id, r) := Expects(step).value; id in db.issues && db.issues[id].revision != r
    ensures Take(db, step) == db
  {
    if Take(db, step) != db { WinnerMovesOn(db, step); }
  }

  /**
   Of any two commands that rest on the same revision of the same issue, transitions, confirmations
   and reopens alike, at most one writes, whatever happens between them.
   */
  lemma OneWinner(steps: seq<Step>, first: Step, more: seq<Step>, second: Step)
    requires Feasible(steps) && Possible(first) && Feasible(more) && Possible(second)
    requires Expects(first).Some? && Expects(second) == Expects(first)
    requires Take(Run(EMPTY, steps), first) != Run(EMPTY, steps)
    ensures var db := Run(Take(Run(EMPTY, steps), first), more);
      Take(db, second) == db
  {
    hide Take, Inv;
    var before := Run(EMPTY, steps);
    var mid := Take(before, first);
    RunKeepsInv(steps);
    StepKeepsInv(before, first);
    WinnerMovesOn(before, first);
    FutureGrows(mid, more);
    var db := Run(mid, more);
    var (id, r) := Expects(first).value;
    RevisionsGrow(mid, db, id);
    StaleNeverWrites(db, second);
  }

  lemma RevisionsGrow(db: Db, after: Db, id: Id)
    requires Grows(db, after) && id in db.issues
    ensures id in after.issues && after.issues[id].revision >= db.issues[id].revision
  {
  }

  /** A transaction that answers with an error has written nothing, and neither has a replay. */
  lemma ErrorsWriteNothing(db: Db, step: Step)
    requires Possible(step)
    ensures step.MakeIssue? && CreateIssue(db, step.id, step.spec).1.Err? ==> Take(db, step) == db
    ensures step.MakeBatch? && CreateBatch(db, step.ids, step.specs).1.Err? ==> Take(db, step) == db
    ensures step.MakeA4? && CreateA4Issue(db, step.id, step.guid, step.version, step.query, step.proof, step.evidence).1.Err?
      ==> Take(db, step) == db
    ensures step.Move? && Transition(db, step.id, step.to, step.expected, step.note).1.Err? ==> Take(db, step) == db
    ensures step.ReopenFix? && Reopen(db, step.id, step.revision, step.note, step.claims, step.start, step.end).1.Err?
      ==> Take(db, step) == db
    ensures step.ConfirmFix? ==>
      var answer := Confirm(db, step.cmd, step.authority, step.id, step.start, step.end).1;
      answer.Err? || answer.value.replayed ==> Take(db, step) == db
  {
    hide FindSubject, FindGroups, Decide, Reuses, ValidCommand, MayReopen, RunSourceBinding, FindRow, FindConfirmation, Canonical;
  }

  /**
   A transition moves the issue exactly when the revision it names, if any, is the present one, the status
   machine allows the move, and it does not resolve or reopen what only remediation may.
   */
  lemma MovesExactlyWhen(db: Db, id: Id, to: IssueStatus, expected: Option<int>, note: string)
    ensures var (after, answer) := Transition(db, id, to, expected, note);
      && (answer.Ok? <==>
          && id in db.issues && (expected.Some? ==> expected.value == db.issues[id].revision)
          && to in AllowedFrom(db.issues[id].status)
          && !(db.issues[id].sourceType == RULE_RESULT && (to == Resolved || to == Reopened)))
      && (answer.Ok? ==> OneStep(db, after, id) && after.issues[id].status == to && answer.value == after.issues[id])
      && (answer.Err? ==> after == db)
  {
    if id in db.issues && to in AllowedFrom(db.issues[id].status) {
      ChangeIsOneStep(db, id, Transitioned, to, note);
    }
  }

  /**
   A transition without an expected revision is the one writer that does not compare: it moves whatever
   revision it finds, if the status machine allows it and the issue is not one only remediation may
   resolve or reopen.
   */
  lemma UncheckedMove(db: Db, id: Id, to: IssueStatus, note: string)
    ensures var (after, answer) := Transition(db, id, to, None, note);
      && (answer.Ok? <==>
          && id in db.issues && to in AllowedFrom(db.issues[id].status)
          && !(db.issues[id].sourceType == RULE_RESULT && (to == Resolved || to == Reopened)))
      && (answer.Ok? ==> OneStep(db, after, id) && after.issues[id].status == to && answer.value == after.issues[id])
      && (answer.Err? ==> after == db)
  {
    MovesExactlyWhen(db, id, to, None, note);
  }

  // ----- workers on one rule run -----

  /** How far a rule run has come: absent, queued, running, finished. */
  function Phase(db: Db, id: Id): nat {
    if id !in db.runs then 0 else
      match db.runs[id].status
      case Queued => 1
      case Running => 2
      case _ => 3
  }

  /** The run a worker's step is about, with the last phase in which the step still does anything. */
  function Work(step: Step): Option<(Id, nat)> {
    match step
    case MakeRun(id, _, _) => Some((id, 0))
    case StartRun(id) => Some((id, 1))
    case FinishRun(id, _, _) => Some((id, 2))
    case BreakRun(id) => Some((id, 2))
    case _ => None
  }

  lemma {:induction false} BatchKeepsRules(db: Db, ids: seq<Id>, specs: seq<IssueSpec>)
    requires |ids| == |specs|
    ensures BatchLoop(db, ids, specs).Ok? ==>
      BatchLoop(db, ids, specs).value.db.runs == db.runs && BatchLoop(db, ids, specs).value.db.rows == db.rows
  {
    if specs != [] { BatchKeepsRules(db, ids[..|specs| - 1], specs[..|specs| - 1]); }
  }

  lemma OthersKeepRules(db: Db, step: Step)
    requires Possible(step) && Work(step).None?
    ensures Take(db, step).runs == db.runs && Take(db, step).rows == db.rows
  {
    hide FindSubject, FindGroups, Decide, Reuses, ValidCommand, MayReopen, RunSourceBinding, FindRow, FindConfirmation, Canonical, BatchLoop;
    if step.MakeBatch? { BatchKeepsRules(db, step.ids, step.specs); }
  }

  /** A worker's step that writes takes its run, and no other, to a later phase. */
  lemma WorkMovesOn(db: Db, step: Step)
    requires Possible(step) && Work(step).Some? && Take(db, step) != db
    ensures var (id, last) := Work(step).value;
      var after := Take(db, step);
      && Phase(db, id) <= last < Phase(after, id)
      && after.runs.Keys == db.runs.Keys + {id}
      && forall other | other in db.runs && other != id :: after.runs[other] == db.runs[other]
  {
    hide Canonical, FreshRowIds;
  }

  lemma PhaseOfStep(db: Db, step: Step, id: Id)
    requires Possible(step)
    ensures Phase(db, id) <= Phase(Take(db, step), id)
  {
    hide Take, Possible;
    if Work(step).None? {
      OthersKeepRules(db, step);
    } else if Take(db, step) != db {
      WorkMovesOn(db, step);
    }
  }

  lemma {:induction false} PhasesGrow(db: Db, steps: seq<Step>, id: Id)
    requires Feasible(steps)
    ensures Phase(db, id) <= Phase(Run(db, steps), id)
  {
    hide Take, Possible, Phase;
    if steps != [] {
      PhasesGrow(db, steps[..|steps| - 1], id);
      PhaseOfStep(Run(db, steps[..|steps| - 1]), steps[|steps| - 1], id);
    }
  }

  /**
   Once a worker's step has written, no step meant for the same or an earlier phase of that run writes any
   more, whatever happens in between: a run is created once and started once, its first terminal write wins
   over every later completion and failure, and what has finished never starts again.
   */
  lemma LateWorkerNeverWrites(db: Db, first: Step, more: seq<Step>, second: Step)
    requires Possible(first) && Feasible(more) && Possible(second)
    requires Work(first).Some? && Work(second).Some? && Work(second).value.0 == Work(first).value.0
    requires Work(second).value.1 <= Work(first).value.1 && Take(db, first) != db
    ensures var later := Run(Take(db, first), more);
      Take(later, second) == later
  {
    hide Take, Possible, Phase, Feasible;
    var later := Run(Take(db, first), more);
    WorkMovesOn(db, first);
    PhasesGrow(Take(db, first), more, Work(first).value.0);
    if Take(later, second) != later { WorkMovesOn(later, second); }
  }

  /** The phases of a run are all a worker's step depends on, but for the ids drawn for its rows. */
  lemma WorksExactlyWhen(db: Db, step: Step)
    requires Possible(step) && Work(step).Some?
    ensures var (id, last) := Work(step).value;
      var may := match step
        case MakeRun(_, _, _) => Phase(db, id) == 0
        case StartRun(_) => Phase(db, id) == 1
        case FinishRun(_, ids, _) => Phase(db, id) in {1, 2} && FreshRowIds(db, ids)
        case _ => Phase(db, id) in {1, 2};
      Take(db, step) != db <==> may
  {
    hide Canonical, FreshRowIds;
    var id := Work(step).value.0;
    if id in db.runs { RunsDiffer(db, Take(db, step), id); }
  }

  lemma RunsDiffer(db: Db, after: Db, id: Id)
    ensures id in db.runs && id in after.runs && db.runs[id].status != after.runs[id].status ==> after != db
  {
  }

  /** A run that failed yields no evidence, in any later database: it has no rows, and stays failed. */
  lemma FailedRunIsNoEvidence(steps: seq<Step>, more: seq<Step>, id: Id, guid: string, rule: string, anchor: Id)
    requires Feasible(steps) && Feasible(more)
    requires id in Run(EMPTY, steps).runs && Run(EMPTY, steps).runs[id].status == Failed
    ensures var db := Run(Run(EMPTY, steps), more);
      && id in db.runs && db.runs[id] == Run(EMPTY, steps).runs[id]
      && RowsOf(db.rows, id) == []
      && RunEvidence(db, db.runs[id], guid, rule, anchor).Err?
  {
    RunKeepsInv(steps);
    FutureGrows(Run(EMPTY, steps), more);
    var db := Run(Run(EMPTY, steps), more);
    hide Run, Feasible, Canonical, IssuesOk, ConfirmationsOk, Resolutions, FindRow;
    forall r | r in db.rows ensures r.run != id { assert StoredRow(db, r); }
    NoRowsYet(db.rows, id);
  }
}
