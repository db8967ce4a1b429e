/**
 The rule engine's run over a model, and why the ledger's coverage check accepts what it produced.
 */
module RuleEngine {
  import opened Options
  import opened LedgerTables
  import opened LedgerTransactions
  import opened LedgerRuns

  datatype Element = Element(guid: Option<string>, ifcType: string)

  datatype Rule = Rule(code: string, target: string, predicateType: string)

  /** What the engine asks of the model and of the predicate library. */
  datatype World = World(
    byType: map<string, seq<Element>>,                    // types the schema knows
    predicates: map<string, Element -> ResultStatus>)     // pass, fail, or an error caught on the way

  function Alias(target: string): string {
    if target == "IfcBuildingElement" then "IfcBuiltElement"
    else if target == "IfcBuiltElement" then "IfcBuildingElement" else target
  }

  /** The elements of a type, or of its alias in another schema, or none. */
  function Elements(w: World, target: string): seq<Element> {
    if target in w.byType then w.byType[target]
    else if Alias(target) in w.byType then w.byType[Alias(target)] else []
  }

  /** The predicate library only ever passes, fails or is caught in an error. */
  ghost predicate Sound(w: World) {
    forall p, e | p in w.predicates :: w.predicates[p](e) != Unknown
  }

  function Judge(w: World, rule: Rule, e: Element): Finding
    requires rule.predicateType in w.predicates
  {
    Finding(e.guid, rule.code, w.predicates[rule.predicateType](e))
  }

  /** The findings of the first `n` elements of a rule with a known predicate. */
  function RuleFindings(w: World, rule: Rule, n: nat): seq<Finding>
    requires rule.predicateType in w.predicates && n <= |Elements(w, rule.target)|
  {
    seq(n, i requires 0 <= i < n => Judge(w, rule, Elements(w, rule.target)[i]))
  }

  /** All findings, rule by rule; a rule with an unknown predicate is skipped with a warning. */
  function Findings(w: World, rules: seq<Rule>): seq<Finding> {
    if rules == [] then [] else
      var rule := rules[|rules| - 1];
      Findings(w, rules[..|rules| - 1])
      + if rule.predicateType in w.predicates then RuleFindings(w, rule, |Elements(w, rule.target)|) else []
  }

  /** How many elements each evaluated rule code targets; a repeated code counts for its last rule. */
  function Targets(w: World, rules: seq<Rule>): map<string, nat> {
    if rules == [] then map[] else
      var rule := rules[|rules| - 1];
      var before := Targets(w, rules[..|rules| - 1]);
      if rule.predicateType in w.predicates then before[rule.code := |Elements(w, rule.target)|] else before
  }

  function CountFindings(fs: seq<Finding>, status: ResultStatus): nat {
    if fs == [] then 0 else
      CountFindings(fs[..|fs| - 1], status) + if fs[|fs| - 1].status == status then 1 else 0
  }

  /** The counts a run reports are the counts of its findings, and every outcome is known. */
  predicate Tallied(r: RunResult) {
    && (forall f | f in r.findings :: f.status != Unknown)
    && r.summary.total == |r.findings| && r.summary.passed == CountFindings(r.findings, Pass)
    && r.summary.failed == CountFindings(r.findings, Fail) && r.summary.errored == CountFindings(r.findings, Errored)
  }

  // ----- what is found -----

  /** The elements a rule is about: those of its target or, for a schema without it, of the type's other name. */
  predicate TargetIs(w: World, target: string, els: seq<Element>) {
    var older, newer := "IfcBuildingElement", "IfcBuiltElement";
    && (target in w.byType ==> els == w.byType[target])
    && (target !in w.byType && target == older && newer in w.byType ==> els == w.byType[newer])
    && (target !in w.byType && target == newer && older in w.byType ==> els == w.byType[older])
    && (target !in w.byType && !(target == older && newer in w.byType) && !(target == newer && older in w.byType) ==> els == [])
  }

  /** How many elements the first k rules judge. */
  function JudgedBefore(w: World, rules: seq<Rule>, k: nat): nat
    requires k <= |rules|
  {
    if k == 0 then 0 else
      JudgedBefore(w, rules, k - 1)
      + if rules[k - 1].predicateType in w.predicates then |Elements(w, rules[k - 1].target)| else 0
  }

  lemma TargetElements(w: World, target: string)
    ensures TargetIs(w, target, Elements(w, target))
  {
  }

  lemma {:induction false} JudgedBeforeFront(w: World, rules: seq<Rule>, k: nat)
    requires k < |rules|
    ensures JudgedBefore(w, rules[..|rules| - 1], k) == JudgedBefore(w, rules, k)
  {
    if k > 0 { JudgedBeforeFront(w, rules, k - 1); }
  }

  /** The finding of a rule about an element: its own guid, the rule's code, and what the predicate says of it. */
  predicate IsVerdict(w: World, rule: Rule, e: Element, f: Finding) {
    && rule.predicateType in w.predicates
    && f.guid == e.guid && f.rule == rule.code && f.status == w.predicates[rule.predicateType](e)
  }

  /** The i-th element of the k-th rule has its finding in its place. */
  predicate IsJudged(w: World, rules: seq<Rule>, found: seq<Finding>, k: nat, i: nat) {
    && k < |rules| && i < |Elements(w, rules[k].target)|
    && JudgedBefore(w, rules, k) + i < |found|
    && IsVerdict(w, rules[k], Elements(w, rules[k].target)[i], found[JudgedBefore(w, rules, k) + i])
  }

  /** Each element of each rule with a known predicate has its own finding, rule by rule, and there are no others. */
  lemma {:induction false} EachIsJudged(w: World, rules: seq<Rule>)
    ensures |Findings(w, rules)| == JudgedBefore(w, rules, |rules|)
    ensures forall k: nat, i: nat |
      k < |rules| && rules[k].predicateType in w.predicates && i < |Elements(w, rules[k].target)| ::
      IsJudged(w, rules, Findings(w, rules), k, i)
  {
    if rules != [] {
      var n := |rules| - 1;
      EachIsJudged(w, rules[..n]);
      forall k: nat | k <= n { JudgedBeforeFront(w, rules, k); }
      forall k: nat, i: nat | k < |rules| && rules[k].predicateType in w.predicates && i < |Elements(w, rules[k].target)|
        ensures IsJudged(w, rules, Findings(w, rules), k, i)
      {
        if k < n { assert IsJudged(w, rules[..n], Findings(w, rules[..n]), k, i) && rules[..n][k] == rules[k]; }
      }
    }
  }

  predicate Evaluates(w: World, rule: Rule, code: string) { rule.code == code && rule.predicateType in w.predicates }

  /** A rule code's target count is that of its last rule with a known predicate, and a code without one has none. */
  lemma {:induction false} TargetsAre(w: World, rules: seq<Rule>, code: string, k: int)
    requires -1 <= k < |rules| && forall l | k < l < |rules| :: !Evaluates(w, rules[l], code)
    requires k >= 0 ==> Evaluates(w, rules[k], code)
    ensures k < 0 ==> code !in Targets(w, rules)
    ensures k >= 0 ==> code in Targets(w, rules) && Targets(w, rules)[code] == |Elements(w, rules[k].target)|
  {
    if k < |rules| - 1 { TargetsAre(w, rules[..|rules| - 1], code, k); }
  }

  method Count(fs: seq<Finding>, status: ResultStatus) returns (n: nat)
    ensures n == CountFindings(fs, status)
  {
    n := 0;
    for i := 0 to |fs|
      invariant n == CountFindings(fs[..i], status)
    {
      assert fs[..i + 1][..i] == fs[..i];
      if fs[i].status == status { n := n + 1; }
    }
    assert fs[..|fs|] == fs;
  }

  /** `run_rules`: every element of every rule's target is judged, and the outcomes are counted. */
  method RunRules(w: World, rules: seq<Rule>, digest: string, sourceSha: Option<string>)
    returns (result: RunResult, targets: map<string, nat>)
    requires Sound(w)
    ensures result.findings == Findings(w, rules) && Tallied(result)
    ensures |result.findings| == JudgedBefore(w, rules, |rules|)
    ensures forall k: nat, i: nat |
      k < |rules| && rules[k].predicateType in w.predicates && i < |Elements(w, rules[k].target)| ::
      IsJudged(w, rules, result.findings, k, i)
    ensures result.summary.digest == Some(digest) && result.summary.sourceSha == sourceSha
    ensures targets == Targets(w, rules)
  {
    hide IsJudged, JudgedBefore;
    var found: seq<Finding> := [];
    targets := map[];
    for i := 0 to |rules|
      invariant found == Findings(w, rules[..i]) && forall f | f in found :: f.status != Unknown
      invariant targets == Targets(w, rules[..i])
    {
      var rule := rules[i];
      assert rules[..i + 1][..i] == rules[..i];
      if rule.predicateType in w.predicates {
        var elements := Elements(w, rule.target);
        targets := targets[rule.code := |elements|];
        for k := 0 to |elements|
          invariant found == Findings(w, rules[..i]) + RuleFindings(w, rule, k)
          invariant forall f | f in found :: f.status != Unknown
        {
          found := found + [Judge(w, rule, elements[k])];
          assert RuleFindings(w, rule, k + 1) == RuleFindings(w, rule, k) + [Judge(w, rule, elements[k])];
        }
      }
    }
    assert rules[..|rules|] == rules;
    EachIsJudged(w, rules);
    var passed := Count(found, Pass);
    var failed := Count(found, Fail);
    var errored := Count(found, Errored);
    result := RunResult(Summary(|found|, passed, failed, errored, Some(digest), sourceSha), found);
  }

  lemma {:induction false} RowCountsAgree(id: Id, ids: seq<Id>, findings: seq<Finding>, status: ResultStatus)
    requires |ids| == |findings|
    ensures CountOf(NewRows(id, ids, findings), status) == CountFindings(findings, status)
  {
    if ids != [] {
      var n := |ids| - 1;
      RowCountsAgree(id, ids[..n], findings[..n], status);
      assert NewRows(id, ids, findings)[..n] == NewRows(id, ids[..n], findings[..n]);
    }
  }

  /** Outcome counts add up to the number of findings. */
  lemma {:induction false} CountsAddUp(fs: seq<Finding>)
    requires forall f | f in fs :: f.status != Unknown
    ensures CountFindings(fs, Pass) + CountFindings(fs, Fail) + CountFindings(fs, Errored) == |fs|
  {
    if fs != [] {
      assert fs[|fs| - 1] in fs;
      CountsAddUp(fs[..|fs| - 1]);
    }
  }

  lemma NewRowsAreCovered(id: Id, ids: seq<Id>, result: RunResult)
    requires |ids| == |result.findings| && Tallied(result)
    ensures Covered(NewRows(id, ids, result.findings), result.summary)
  {
    RowCountsAgree(id, ids, result.findings, Pass);
    RowCountsAgree(id, ids, result.findings, Fail);
    RowCountsAgree(id, ids, result.findings, Errored);
    forall r | r in NewRows(id, ids, result.findings) ensures r.status != Unknown {
      var k :| 0 <= k < |ids| && r == NewRows(id, ids, result.findings)[k];
      assert result.findings[k] in result.findings;
    }
  }

  /**
   A run of the engine, persisted by its first terminal write, passes the ledger's coverage check
   then and in every later database.
   */
  lemma EngineRunsAreCovered(steps: seq<Step>, more: seq<Step>, id: Id, ids: seq<Id>, result: RunResult)
    requires Feasible(steps) && Feasible(more) && Possible(FinishRun(id, ids, result)) && Tallied(result)
    requires Unfinished(Run(EMPTY, steps), id) && FreshRowIds(Run(EMPTY, steps), ids)
    ensures var db := Run(CompleteRun(Run(EMPTY, steps), id, ids, result), more);
      && id in db.runs && db.runs[id].status == Succeeded && db.runs[id].summary == Some(result.summary)
      && RowsOf(db.rows, id) == NewRows(id, ids, result.findings)
      && Covered(RowsOf(db.rows, id), result.summary)
  {
    hide Inv, Run, Feasible, Covered, Tallied, NewRows, IssuesGrow, ProofsGrow, RowsOf, FindRow, FreshRowIds;
    var before := Run(EMPTY, steps);
    var mid := CompleteRun(before, id, ids, result);
    RunKeepsInv(steps);
    FinishKeepsInv(before, id, ids, result);
    FutureGrows(mid, more);
    RowsOfAppend(before.rows, NewRows(id, ids, result.findings), id);
    NewRowsAre(id, ids, result.findings, id);
    NoRowsBefore(before, id);
    NewRowsAreCovered(id, ids, result);
  }

  lemma NoRowsBefore(db: Db, id: Id)
    requires Inv(db) && Unfinished(db, id)
    ensures RowsOf(db.rows, id) == []
  {
    forall r | r in db.rows ensures r.run != id { assert StoredRow(db, r); }
    NoRowsYet(db.rows, id);
  }
}
