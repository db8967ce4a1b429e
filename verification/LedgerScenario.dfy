/**
 One run of the ledger in full: a component fails a rule, passes in a revised model, is confirmed, reopened,
 and confirmed again on a third model. What is proved of stored confirmations is about runs like this one.
 */
module LedgerScenario {
  import opened Options
  import opened Text
  import opened LedgerTables
  import opened LedgerTransactions
  import opened LedgerRuns

  function Zeros(n: nat): (s: string)
    ensures |s| == n && forall c | c in s :: c == '0'
  {
    if n == 0 then "" else "0" + Zeros(n - 1)
  }

  const SHA := Zeros(64)
  const DIGEST: string := "ids-xml-v1:sha256:" + SHA

  function MetadataOf(version: string): Metadata { Metadata(Some("t"), Some("p"), Some(version)) }

  /** What the engine reports of a model with one component and one rule. */
  function Outcome(status: ResultStatus): RunResult {
    RunResult(Summary(1, if status == Pass then 1 else 0, if status == Fail then 1 else 0, 0, Some(DIGEST), Some(SHA)),
              [Finding(Some("g"), "c", status)])
  }

  function Finished(run: Id, version: string, status: ResultStatus): RuleRun {
    RuleRun(run, Some(version), Some(MetadataOf(version)), Succeeded, Some(Outcome(status).summary))
  }

  function SourceOf(run: Id, version: string): Source { Source(Some(version), run, SHA) }

  const CASE2 := Case("i", "t", "p", "g", "c", SourceOf("r1", "v1"), SourceOf("r2", "v2"), "q2")
  const CASE3 := Case("i", "t", "p", "g", "c", SourceOf("r1", "v1"), SourceOf("r3", "v3"), "q3")
  const COMMAND2 := Command("i", 0, "v2", "r2", "b2", "k2", "")
  const COMMAND3 := Command("i", 2, "v3", "r3", "b3", "k3", "")

  function Grant(operation: Operation, c: Case): Claims { Claims(operation, "i", 9, "u", ExternalAuthority, "z", [c]) }

  const ROWS := [
    Row("b1", "r1", Some("g"), "c", Fail), Row("b2", "r2", Some("g"), "c", Pass), Row("b3", "r3", Some("g"), "c", Pass)]

  const RUNS := map[
    "r1" := Finished("r1", "v1", Fail), "r2" := Finished("r2", "v2", Pass), "r3" := Finished("r3", "v3", Pass)]

  const SPEC := IssueSpec(Some("g"), Some("v1"), RULE_RESULT, Some("b1"))

  function IssueAt(status: IssueStatus, revision: nat): Issue {
    Issue("i", Formal, status, Some("g"), Some("v1"), RULE_RESULT, Some("b1"), revision)
  }

  /** The databases of the scenario differ in the issue, the audit log and the confirmations. */
  predicate At(db: Db, status: IssueStatus, revision: nat) {
    db.rows == ROWS && db.runs == RUNS && db.issues == map["i" := IssueAt(status, revision)]
  }

  lemma ShortIsCanonical(s: string)
    requires 1 <= |s| <= 2 && forall i | 0 <= i < |s| :: 'a' <= s[i] <= 'z' || '0' <= s[i] <= '9'
    ensures Canonical(s)
  {
  }

  lemma DigestsAreWellFormed()
    ensures IsSha256(SHA) && IsRuleDigest(DIGEST)
  {
    var tag := "ids-xml-v1:sha256:";
    assert DIGEST[..|tag|] == tag && DIGEST[|tag|..] == SHA;
  }

  lemma NamesAreCanonical()
    ensures Canonical("r1") && Canonical("r2") && Canonical("r3") && Canonical("b1") && Canonical("b2") && Canonical("b3")
    ensures Canonical("v1") && Canonical("v2") && Canonical("v3") && Canonical("k2") && Canonical("k3")
    ensures Canonical("q2") && Canonical("q3") && Canonical("x2") && Canonical("x3")
    ensures Canonical("i") && Canonical("g") && Canonical("c") && Canonical("t") && Canonical("p") && Canonical("u") && Canonical("z")
  {
    hide Canonical;
    ShortIsCanonical("r1"); ShortIsCanonical("r2"); ShortIsCanonical("r3");
    ShortIsCanonical("b1"); ShortIsCanonical("b2"); ShortIsCanonical("b3");
    ShortIsCanonical("v1"); ShortIsCanonical("v2"); ShortIsCanonical("v3");
    ShortIsCanonical("k2"); ShortIsCanonical("k3"); ShortIsCanonical("q2"); ShortIsCanonical("q3");
    ShortIsCanonical("x2"); ShortIsCanonical("x3"); ShortIsCanonical("i"); ShortIsCanonical("g"); ShortIsCanonical("c");
    ShortIsCanonical("t"); ShortIsCanonical("p"); ShortIsCanonical("u"); ShortIsCanonical("z");
  }

  lemma RunOneMore(steps: seq<Step>, step: Step)
    requires Feasible(steps) && Possible(step)
    ensures Feasible(steps + [step]) && Run(EMPTY, steps + [step]) == Take(Run(EMPTY, steps), step)
  {
    hide Possible;
    assert (steps + [step])[..|steps|] == steps;
  }

  lemma RunAdds(db: Db, run: Id, row: Id, version: string, status: ResultStatus)
    requires run !in db.runs && forall r | r in db.rows :: r.id != row
    ensures CompleteRun(CreateRun(db, run, Some(version), Some(MetadataOf(version))), run, [row], Outcome(status))
         == db.(runs := db.runs[run := Finished(run, version, status)],
                rows := db.rows + [Row(row, run, Some("g"), "c", status)])
  {
  }

  function RunPair(run: Id, row: Id, version: string, status: ResultStatus): seq<Step> {
    [MakeRun(run, Some(version), Some(MetadataOf(version))), FinishRun(run, [row], Outcome(status))]
  }

  lemma TakesPair(before: seq<Step>, run: Id, row: Id, version: string, status: ResultStatus)
    requires Feasible(before) && Canonical(run) && Canonical(row)
    requires run !in Run(EMPTY, before).runs && forall r | r in Run(EMPTY, before).rows :: r.id != row
    ensures Feasible(before + RunPair(run, row, version, status))
    ensures var db := Run(EMPTY, before);
      Run(EMPTY, before + RunPair(run, row, version, status))
        == db.(runs := db.runs[run := Finished(run, version, status)],
               rows := db.rows + [Row(row, run, Some("g"), "c", status)])
  {
    hide Canonical, CreateRun, CompleteRun, Run, Feasible;
    var pair := RunPair(run, row, version, status);
    RunOneMore(before, pair[0]);
    RunOneMore(before + [pair[0]], pair[1]);
    assert before + pair == before + [pair[0]] + [pair[1]];
    RunAdds(Run(EMPTY, before), run, row, version, status);
  }

  // ----- the two models' rows -----

  lemma RowsAre()
    ensures FindRow(ROWS, "b1") == Some(ROWS[0]) && FindRow(ROWS, "b2") == Some(ROWS[1]) && FindRow(ROWS, "b3") == Some(ROWS[2])
    ensures RowsOf(ROWS, "r1") == [ROWS[0]] && RowsOf(ROWS, "r2") == [ROWS[1]] && RowsOf(ROWS, "r3") == [ROWS[2]]
  {
    assert ROWS[..2] == [ROWS[0], ROWS[1]] && ROWS[..2][..1] == [ROWS[0]] && [ROWS[0]][..0] == [];
    assert FindRow([ROWS[0]], "b1") == Some(ROWS[0]);
    assert RowsOf([ROWS[0]], "r1") == [ROWS[0]] && RowsOf([ROWS[0]], "r2") == [] && RowsOf([ROWS[0]], "r3") == [];
    assert FindRow([ROWS[0], ROWS[1]], "b1") == Some(ROWS[0]) && FindRow([ROWS[0], ROWS[1]], "b2") == Some(ROWS[1]);
    assert RowsOf([ROWS[0], ROWS[1]], "r1") == [ROWS[0]] && RowsOf([ROWS[0], ROWS[1]], "r2") == [ROWS[1]];
    assert RowsOf([ROWS[0], ROWS[1]], "r3") == [];
  }

  lemma OneRow(row: Row, status: ResultStatus)
    requires row.guid == Some("g") && row.rule == "c" && row.status == status && (status == Pass || status == Fail)
    ensures Covering([row], "g", "c") == [row] && Covered([row], Outcome(status).summary)
  {
    assert [row][..0] == [];
    assert forall st :: CountOf([row], st) == if st == status then 1 else 0;
  }

  lemma EvidenceIs(db: Db, k: nat, status: ResultStatus, anchor: Id)
    requires db.rows == ROWS && k < 3 && ROWS[k].status == status
    ensures RunEvidence(db, Finished(ROWS[k].run, ["v1", "v2", "v3"][k], status), "g", "c", anchor)
         == Ok(Group(ROWS[k].run, Some(["v1", "v2", "v3"][k]), "g", "c", DIGEST, [ROWS[k]], anchor))
  {
    hide Canonical, IsRuleDigest, Covered, Covering;
    RowsAre();
    OneRow(ROWS[k], status);
    DigestsAreWellFormed();
    NamesAreCanonical();
  }

  lemma BindingIs(run: Id, version: string, status: ResultStatus)
    ensures RunSourceBinding(Finished(run, version, status)) == Ok(SourceBinding("t", "p", SourceOf(run, version)))
  {
    hide Canonical, IsSha256;
    DigestsAreWellFormed();
    NamesAreCanonical();
  }

  // ----- the commands -----

  /** The command that rests on the k-th row's run. */
  function CommandFor(k: nat, revision: nat): Command
    requires 1 <= k < 3
  {
    if k == 1 then COMMAND2.(expectedRevision := revision) else COMMAND3.(expectedRevision := revision)
  }

  function CaseFor(k: nat): Case
    requires 1 <= k < 3
  {
    if k == 1 then CASE2 else CASE3
  }

  function ContextFor(k: nat, cmd: Command): Context
    requires 1 <= k < 3
  {
    Context(cmd, "p", "t", "g", "c", CaseFor(k).original, CaseFor(k).revised)
  }

  lemma SubjectIs(db: Db, status: IssueStatus, revision: nat, k: nat)
    requires At(db, status, revision) && 1 <= k < 3
    ensures var cmd := CommandFor(k, revision);
      && ValidCommand(cmd)
      && FindSubject(db, cmd) == Ok(Subject(IssueAt(status, revision), ROWS[0], RUNS["r1"], RUNS[ROWS[k].run], ContextFor(k, cmd)))
  {
    hide Canonical, IsSha256, IsRuleDigest, RunSourceBinding, FindRow;
    RowsAre();
    NamesAreCanonical();
    BindingIs("r1", "v1", Fail);
    BindingIs("r2", "v2", Pass);
    BindingIs("r3", "v3", Pass);
  }

  lemma GroupsAre(db: Db, status: IssueStatus, revision: nat, k: nat)
    requires At(db, status, revision) && 1 <= k < 3
    ensures var cmd := CommandFor(k, revision);
      var s := Subject(IssueAt(status, revision), ROWS[0], RUNS["r1"], RUNS[ROWS[k].run], ContextFor(k, cmd));
      FindGroups(db, cmd, s).Ok?
  {
    hide RunEvidence, FindRow;
    RowsAre();
    EvidenceIs(db, 0, Fail, "b1");
    EvidenceIs(db, k, Pass, CommandFor(k, revision).revisedResult);
  }

  lemma GrantDecides(k: nat, cmd: Command, now: nat)
    requires 1 <= k < 3 && cmd.issue == "i" && now < 9
    ensures Decide(Grant(ConfirmOp, CaseFor(k)), ContextFor(k, cmd), now) == Some(Decision(CaseFor(k).correspondence, CaseFor(k)))
  {
    hide Canonical;
    NamesAreCanonical();
    var cases := [CaseFor(k)];
    assert cases[..0] == [];
    assert Matches(cases, ContextFor(k, cmd)) == cases;
  }

  predicate Unlike(c: Confirmation, k: nat, id: Id)
    requires 1 <= k < 3
  {
    c.id != id && c.key != CommandFor(k, 0).key && c.correspondence != CaseFor(k).correspondence
    && c.revisedRun != CommandFor(k, 0).revisedRun
  }

  lemma NothingReused(db: Db, k: nat, revision: nat, id: Id)
    requires 1 <= k < 3 && forall c | c in db.confirmations :: Unlike(c, k, id)
    ensures !Reuses(db, CommandFor(k, revision), Decision(CaseFor(k).correspondence, CaseFor(k)))
    ensures forall c | c in db.confirmations :: c.id != id && c.key != CommandFor(k, revision).key
  {
  }

  /** The grant confirms the issue, wherever in the scenario it is open to resolution. */
  lemma Confirms(db: Db, status: IssueStatus, revision: nat, k: nat, id: Id, now: nat)
    requires At(db, status, revision) && 1 <= k < 3 && now + 1 < 9 && Resolved in AllowedFrom(status)
    requires forall c | c in db.confirmations :: Unlike(c, k, id)
    ensures var cmd := CommandFor(k, revision);
      var after := Confirm(db, cmd, Some(Grant(ConfirmOp, CaseFor(k))), id, now, now + 1).0;
      && At(after, Resolved, revision + 1)
      && |after.confirmations| == |db.confirmations| + 1 && db.confirmations <= after.confirmations
      && var c := after.confirmations[|db.confirmations|];
      c.issue == "i" && c.id == id && c.key == cmd.key
      && c.correspondence == CaseFor(k).correspondence && c.revisedRun == cmd.revisedRun
  {
    hide Canonical, ValidCommand, FindSubject, FindGroups, Decide, FindConfirmation, Reuses, Matches, At, AddConfirmation;
    hide NewSnapshot;
    var cmd := CommandFor(k, revision);
    NothingReused(db, k, revision, id);
    SubjectIs(db, status, revision, k);
    GroupsAre(db, status, revision, k);
    GrantDecides(k, cmd, now);
    FoundConfirmationIsStored(db.confirmations, cmd.issue, cmd.key);
    var subject := FindSubject(db, cmd).value;
    var d, groups := Decision(CaseFor(k).correspondence, CaseFor(k)), FindGroups(db, cmd, subject).value;
    SnapshotIs(id, cmd, k, d, subject.issue, groups, now + 1);
    SnapshotAdds(db, status, revision, NewSnapshot(id, cmd, Grant(ConfirmOp, CaseFor(k)), d, subject.issue, groups, now + 1));
  }

  lemma SnapshotIs(id: Id, cmd: Command, k: nat, d: Decision, issue: Issue, groups: (Group, Group), now: nat)
    requires 1 <= k < 3
    ensures var s := NewSnapshot(id, cmd, Grant(ConfirmOp, CaseFor(k)), d, issue, groups, now);
      s.id == id && s.issue == cmd.issue && s.request == cmd && s.correspondence == d.correspondence
  {
  }

  lemma SnapshotAdds(db: Db, status: IssueStatus, revision: nat, s: Snapshot)
    requires At(db, status, revision) && s.issue == "i"
    ensures var after := AddConfirmation(db, s);
      && At(after, Resolved, revision + 1)
      && after.confirmations == db.confirmations + [Confirmation(s.id, s.issue, s.request.key, s.request, s.principal,
                                                      s.correspondence, s.request.revisedRun, s, s.createdAt)]
  {
  }

  lemma Reopens(db: Db)
    requires At(db, Resolved, 1)
    ensures var after := Reopen(db, "i", 1, "", Grant(ReopenOp, CASE2), 2, 3).0;
      At(after, Reopened, 2) && after.confirmations == db.confirmations
  {
    hide Canonical, RunSourceBinding, FindRow;
    RowsAre();
    NamesAreCanonical();
    BindingIs("r1", "v1", Fail);
    assert CASE2 in [CASE2];
  }

  // ----- the run -----

  lemma SetUp() returns (steps: seq<Step>)
    ensures Feasible(steps) && At(Run(EMPTY, steps), Open, 0) && Run(EMPTY, steps).confirmations == []
  {
    hide Canonical, Run, Take, Feasible;
    NamesAreCanonical();
    steps := [];
    NothingRun();
    TakesPair(steps, "r1", "b1", "v1", Fail);
    steps := steps + RunPair("r1", "b1", "v1", Fail);
    TakesPair(steps, "r2", "b2", "v2", Pass);
    steps := steps + RunPair("r2", "b2", "v2", Pass);
    TakesPair(steps, "r3", "b3", "v3", Pass);
    steps := steps + RunPair("r3", "b3", "v3", Pass);
    RunOneMore(steps, MakeIssue("i", SPEC));
    IssueAdds(Run(EMPTY, steps));
    steps := steps + [MakeIssue("i", SPEC)];
  }

  lemma NothingRun()
    ensures Feasible([]) && Run(EMPTY, []) == EMPTY
  {
  }

  lemma IssueAdds(db: Db)
    requires db.issues == map[]
    ensures Possible(MakeIssue("i", SPEC))
    ensures Take(db, MakeIssue("i", SPEC)) == db.(issues := map["i" := IssueAt(Open, 0)],
                                                  events := db.events + [Event("i", IssueCreated, None, Open, "")])
  {
    hide Canonical;
    NamesAreCanonical();
    assert Trim("g") == "g" && Trim("v1") == "v1";
  }

  lemma ClaimsAreValid(k: nat, operation: Operation)
    requires 1 <= k < 3
    ensures ValidClaims(Grant(operation, CaseFor(k)))
  {
    hide Canonical, IsSha256;
    NamesAreCanonical();
    DigestsAreWellFormed();
  }

  /** Confirming, as a step of a run. */
  lemma ConfirmStep(steps: seq<Step>, status: IssueStatus, revision: nat, k: nat, id: Id, now: nat) returns (next: seq<Step>)
    requires Feasible(steps) && At(Run(EMPTY, steps), status, revision) && 1 <= k < 3 && now + 1 < 9
    requires Resolved in AllowedFrom(status) && Canonical(id)
    requires forall c | c in Run(EMPTY, steps).confirmations :: Unlike(c, k, id)
    ensures Feasible(next) && At(Run(EMPTY, next), Resolved, revision + 1)
    ensures var before, after := Run(EMPTY, steps).confirmations, Run(EMPTY, next).confirmations;
      && |after| == |before| + 1 && before <= after
      && after[|before|].issue == "i" && (k == 1 && id == "x2" ==> Unlike(after[|before|], 2, "x3"))
  {
    hide Canonical, ValidClaims, Confirm, Run, Feasible, At;
    ClaimsAreValid(k, ConfirmOp);
    var step := ConfirmFix(CommandFor(k, revision), Some(Grant(ConfirmOp, CaseFor(k))), id, now, now + 1);
    Confirms(Run(EMPTY, steps), status, revision, k, id, now);
    RunOneMore(steps, step);
    next := steps + [step];
  }

  lemma ReopenStep(steps: seq<Step>) returns (next: seq<Step>)
    requires Feasible(steps) && At(Run(EMPTY, steps), Resolved, 1)
    ensures Feasible(next) && At(Run(EMPTY, next), Reopened, 2)
    ensures Run(EMPTY, next).confirmations == Run(EMPTY, steps).confirmations
  {
    hide Canonical, ValidClaims, Reopen, Run, Feasible, At;
    ClaimsAreValid(1, ReopenOp);
    var step := ReopenFix("i", 1, "", Grant(ReopenOp, CASE2), 2, 3);
    Reopens(Run(EMPTY, steps));
    RunOneMore(steps, step);
    next := steps + [step];
  }

  /** There is a run in which an issue is confirmed, reopened and confirmed again. */
  lemma ConfirmedTwice() returns (steps: seq<Step>)
    ensures Feasible(steps)
    ensures var db := Run(EMPTY, steps);
      && At(db, Resolved, 3) && |db.confirmations| == 2
      && db.confirmations[0].issue == db.confirmations[1].issue == "i"
  {
    hide Canonical, Run, Feasible, At, Unlike;
    NamesAreCanonical();
    steps := SetUp();
    steps := ConfirmStep(steps, Open, 0, 1, "x2", 0);
    steps := ReopenStep(steps);
    steps := ConfirmStep(steps, Reopened, 2, 2, "x3", 4);
  }
}
