/** The bounded scan of a model: its candidates, the ones that match, and the budgets that end it early. */
module SearchScan {
  import opened Options

  const MAX_CANDIDATES := 50000
  const MAX_FILTER_ITEMS := 64

  datatype Filters<P> = Filters(classes: seq<string>, storeys: seq<string>, names: seq<string>, properties: seq<P>)

  /** How the engine reads an element. */
  datatype Lens<!T, !P> = Lens(
    ifcClass: T -> string, onStorey: (T, seq<string>) -> bool, named: (T, string) -> bool, holds: (T, P) -> bool)

  /** An IFC file: the instances of a class, unless asking for it raises, and the id of an instance, if it has one. */
  datatype Model<!T> = Model(byType: string -> Option<seq<T>>, id: T -> Option<int>)

  const DEFAULT_CLASSES :=
    ["IfcDoor", "IfcWindow", "IfcWall", "IfcColumn", "IfcBeam", "IfcSlab", "IfcSpace", "IfcBuildingElementProxy"]

  function ClassesOf<P>(f: Filters<P>): seq<string> { if f.classes == [] then DEFAULT_CLASSES else f.classes }

  predicate Selects<T, P>(f: Filters<P>, lens: Lens<T, P>, e: T) {
    && (f.classes != [] ==> lens.ifcClass(e) in f.classes)
    && (f.storeys != [] ==> lens.onStorey(e, f.storeys))
    && (forall i | 0 <= i < |f.names| :: lens.named(e, f.names[i]))
    && (forall i | 0 <= i < |f.properties| :: lens.holds(e, f.properties[i]))
  }

  function Chooser<T, P>(f: Filters<P>, lens: Lens<T, P>): T -> bool { (e: T) => Selects(f, lens, e) }

  datatype Code = FilterBudget | TimeBudget | CandidateBudget | ResponseBudget

  /** A withheld answer: why, and what it says of the candidates. */
  datatype Stop = Stop(code: Code, atLeast: nat, scanned: nat, matched: nat)

  function Least(a: nat, b: nat): nat { if a < b then a else b }

  // ----- candidates -----

  /** The instances of the classes, one class after the other. */
  function Instances<T>(classes: seq<string>, model: Model<T>): seq<T> {
    if classes == [] then [] else
      var last := model.byType(classes[|classes| - 1]);
      Instances(classes[..|classes| - 1], model) + if last.Some? then last.value else []
  }

  predicate HasId<T>(es: seq<T>, model: Model<T>, id: int) { exists i :: 0 <= i < |es| && model.id(es[i]) == Some(id) }

  /** The first instance of each id. */
  function Candidates<T>(all: seq<T>, model: Model<T>): seq<T> {
    if all == [] then [] else
      var before, last := Candidates(all[..|all| - 1], model), all[|all| - 1];
      if model.id(last).None? || HasId(before, model, model.id(last).value) then before else before + [last]
  }

  /** Each id that occurs among the instances has exactly one candidate. */
  lemma {:induction false} CandidatesAreFirsts<T(!new)>(all: seq<T>, model: Model<T>)
    ensures var cs := Candidates(all, model);
      && |cs| <= |all|
      && (forall e | e in cs :: e in all && model.id(e).Some?)
      && (forall i, j | 0 <= i < j < |cs| :: model.id(cs[i]) != model.id(cs[j]))
      && (forall id :: HasId(all, model, id) <==> HasId(cs, model, id))
  {
    if all != [] {
      var front, last := all[..|all| - 1], all[|all| - 1];
      CandidatesAreFirsts(front, model);
      var before, cs := Candidates(front, model), Candidates(all, model);
      assert all == front + [last];
      forall id ensures HasId(all, model, id) <==> HasId(front, model, id) || model.id(last) == Some(id) {
        IdsGrow(front, last, model, id);
      }
      forall id ensures HasId(before + [last], model, id) <==> HasId(before, model, id) || model.id(last) == Some(id) {
        IdsGrow(before, last, model, id);
      }
    }
  }

  lemma IdsGrow<T>(es: seq<T>, e: T, model: Model<T>, id: int)
    ensures HasId(es + [e], model, id) <==> HasId(es, model, id) || model.id(e) == Some(id)
  {
    if HasId(es, model, id) {
      var i :| 0 <= i < |es| && model.id(es[i]) == Some(id);
      assert (es + [e])[i] == es[i];
    }
    if model.id(e) == Some(id) { assert (es + [e])[|es|] == e; }
  }

  lemma {:induction false} CandidatesGrow<T>(all: seq<T>, model: Model<T>, k: nat)
    requires k <= |all|
    ensures Candidates(all[..k], model) <= Candidates(all, model)
  {
    if k == |all| {
      assert all[..k] == all;
    } else {
      assert all[..|all| - 1][..k] == all[..k];
      CandidatesGrow(all[..|all| - 1], model, k);
    }
  }

  lemma {:induction false} InstancesGrow<T>(classes: seq<string>, model: Model<T>, k: nat)
    requires k <= |classes|
    ensures Instances(classes[..k], model) <= Instances(classes, model)
  {
    if k == |classes| {
      assert classes[..k] == classes;
    } else {
      assert classes[..|classes| - 1][..k] == classes[..k];
      InstancesGrow(classes[..|classes| - 1], model, k);
    }
  }

  /** How collecting ends when the deadline is met by that many looks at the clock. */
  function CollectStop<T>(all: seq<T>, model: Model<T>, looks: nat): Option<Stop> {
    var found := |Candidates(all[..Least(looks, |all|)], model)|;
    if found > MAX_CANDIDATES then Some(Stop(CandidateBudget, MAX_CANDIDATES + 1, 0, 0))
    else if looks < |all| then Some(Stop(TimeBudget, found, 0, 0))
    else None
  }

  /** The nested loops over classes and instances; `looks` is how often the clock still shows time left. */
  method Collect<T>(classes: seq<string>, model: Model<T>, looks: nat)
    returns (stop: Option<Stop>, candidates: seq<T>, left: nat)
    ensures stop == CollectStop(Instances(classes, model), model, looks)
    ensures stop.None? ==>
      && candidates == Candidates(Instances(classes, model), model) && |candidates| <= MAX_CANDIDATES
      && left == looks - |Instances(classes, model)|
  {
    hide Instances, Candidates, CollectStop;
    stop, candidates, left := None, [], looks;
    var seen: set<int> := {};
    ghost var done: seq<T> := [];
    NoInstances(model);
    for i := 0 to |classes|
      invariant done == Instances(classes[..i], model)
      invariant Collected(done, model, looks, candidates, left, seen)
    {
      InstancesGrow(classes, model, i + 1);
      NextClass(classes, model, i);
      var found := model.byType(classes[i]);
      if found.Some? {
        ghost var before := done;
        for j := 0 to |found.value|
          invariant done == before + found.value[..j]
          invariant Collected(done, model, looks, candidates, left, seen)
        {
          var e := found.value[j];
          assert done + [e] == before + found.value[..j + 1] <= Instances(classes, model);
          StopsHere(Instances(classes, model), done, e, model, looks, candidates, left, seen);
          if left == 0 { return Some(Stop(TimeBudget, |candidates|, 0, 0)), candidates, left; }
          left := left - 1;
          var id := model.id(e);
          if id.Some? && id.value !in seen {
            if |candidates| >= MAX_CANDIDATES {
              return Some(Stop(CandidateBudget, |candidates| + 1, 0, 0)), candidates, left;
            }
            seen := seen + {id.value};
            candidates := candidates + [e];
          }
          done := done + [e];
        }
      }
    }
    assert classes[..|classes|] == classes;
    AllCollected(done, model, looks, candidates, left, seen);
  }

  /** Where collecting stands after some instances. */
  ghost predicate Collected<T>(done: seq<T>, model: Model<T>, looks: nat, candidates: seq<T>, left: nat, seen: set<int>) {
    && candidates == Candidates(done, model) && |candidates| <= MAX_CANDIDATES
    && |done| + left == looks
    && forall id :: id in seen <==> HasId(candidates, model, id)
  }

  lemma NoInstances<T>(model: Model<T>)
    ensures Instances([], model) == [] && Candidates([], model) == []
  {
  }

  lemma NextClass<T>(classes: seq<string>, model: Model<T>, i: nat)
    requires i < |classes|
    ensures Instances(classes[..i + 1], model) ==
      Instances(classes[..i], model) + if model.byType(classes[i]).Some? then model.byType(classes[i]).value else []
  {
    assert classes[..i + 1][..i] == classes[..i];
  }

  /** What the next instance does to the collection, or how it ends it. */
  lemma StopsHere<T>(all: seq<T>, done: seq<T>, e: T, model: Model<T>, looks: nat, candidates: seq<T>, left: nat, seen: set<int>)
    requires done + [e] <= all && Collected(done, model, looks, candidates, left, seen)
    ensures left == 0 ==> CollectStop(all, model, looks) == Some(Stop(TimeBudget, |candidates|, 0, 0))
    ensures left > 0 ==>
      var id := model.id(e);
      if id.None? || id.value in seen then Collected(done + [e], model, looks, candidates, left - 1, seen)
      else if |candidates| >= MAX_CANDIDATES
      then CollectStop(all, model, looks) == Some(Stop(CandidateBudget, |candidates| + 1, 0, 0))
      else Collected(done + [e], model, looks, candidates + [e], left - 1, seen + {id.value})
  {
    assert (done + [e])[..|done|] == done && all[..|done|] == done && all[..|done| + 1] == done + [e];
    var id := model.id(e);
    if left > 0 {
      var read := all[..Least(looks, |all|)];
      assert read[..|done| + 1] == done + [e];
      CandidatesGrow(read, model, |done| + 1);
      forall k { IdsGrow(candidates, e, model, k); }
    }
  }

  lemma AllCollected<T>(all: seq<T>, model: Model<T>, looks: nat, candidates: seq<T>, left: nat, seen: set<int>)
    requires Collected(all, model, looks, candidates, left, seen)
    ensures CollectStop(all, model, looks).None?
  {
    assert all[..|all|] == all;
  }

  // ----- the scan -----

  /** The elements that match, in scan order. */
  function Matching<T>(elements: seq<T>, matches: T -> bool): seq<T> {
    if elements == [] then [] else
      var before := Matching(elements[..|elements| - 1], matches);
      if matches(elements[|elements| - 1]) then before + [elements[|elements| - 1]] else before
  }

  /** Exactly the elements that match are selected. */
  lemma {:induction false} MatchingSelects<T(!new)>(elements: seq<T>, matches: T -> bool)
    ensures forall e :: e in Matching(elements, matches) <==> e in elements && matches(e)
    ensures |Matching(elements, matches)| <= |elements|
  {
    if elements != [] {
      MatchingSelects(elements[..|elements| - 1], matches);
      assert elements == elements[..|elements| - 1] + [elements[|elements| - 1]];
    }
  }

  lemma {:induction false} MatchingGrows<T>(elements: seq<T>, matches: T -> bool, k: nat)
    requires k <= |elements|
    ensures |Matching(elements[..k], matches)| <= |Matching(elements, matches)|
    ensures |Matching(elements[..k], matches)| <= k
  {
    if k == |elements| {
      assert elements[..k] == elements;
      if k > 0 { MatchingGrows(elements[..k - 1], matches, k - 1); assert elements[..k - 1][..k - 1] == elements[..k - 1]; }
    } else {
      assert elements[..|elements| - 1][..k] == elements[..k];
      MatchingGrows(elements[..|elements| - 1], matches, k);
    }
  }

  function Rows<T, R>(elements: seq<T>, row: T -> R): seq<R> {
    seq(|elements|, i requires 0 <= i < |elements| => row(elements[i]))
  }

  /** The page limit a request ends up with: 200 when it names none, and always between 1 and 1000. */
  function PageLimit(requested: int): (limit: nat)
    ensures 1 <= limit <= 1000
    ensures 1 <= requested <= 1000 ==> limit == requested
    ensures limit == 200 <==> requested == 0 || requested == 200
    ensures requested < 0 ==> limit == 1
    ensures requested > 1000 ==> limit == 1000
  {
    var asked := if requested == 0 then 200 else requested;
    if asked > 1000 then 1000 else if asked < 1 then 1 else asked
  }

  /** How the scan ends when the deadline is met by that many looks at the clock. */
  function ScanStop<T>(elements: seq<T>, matches: T -> bool, looks: nat): Option<Stop> {
    if looks < |elements|
    then Some(Stop(TimeBudget, |elements|, looks, |Matching(elements[..looks], matches)|)) else None
  }

  lemma MatchedOne<T, R>(elements: seq<T>, matches: T -> bool, i: nat, row: T -> R, matched: nat, limit: nat)
    requires i < |elements| && matches(elements[i]) && matched == |Matching(elements[..i], matches)|
    ensures var before, after := Matching(elements[..i], matches), Matching(elements[..i + 1], matches);
      && |after| == matched + 1
      && Rows(after[..Least(matched + 1, limit)], row) ==
         Rows(before[..Least(matched, limit)], row) + if matched < limit then [row(elements[i])] else []
  {
    var before, after := Matching(elements[..i], matches), Matching(elements[..i + 1], matches);
    assert elements[..i + 1][..i] == elements[..i];
    assert after == before + [elements[i]];
    if matched < limit {
      assert before[..matched] == before && after[..matched + 1] == after;
    } else {
      assert after[..limit] == before[..limit];
    }
  }

  /** The candidates are scanned and counted until the deadline; the first ones that match become rows. */
  method ScanElements<T, R>(elements: seq<T>, matches: T -> bool, row: T -> R, requested: int, looks: nat)
    returns (stop: Option<Stop>, results: seq<R>, scanned: nat, matched: nat)
    ensures stop == ScanStop(elements, matches, looks)
    ensures stop.None? ==>
      && scanned == |elements| && matched == |Matching(elements, matches)|
      && results == Rows(Matching(elements, matches)[..Least(matched, PageLimit(requested))], row)
  {
    var limit, left := PageLimit(requested), looks;
    results, scanned, matched := [], 0, 0;
    for i := 0 to |elements|
      invariant scanned == i == looks - left && matched == |Matching(elements[..i], matches)|
      invariant results == Rows(Matching(elements[..i], matches)[..Least(matched, limit)], row)
    {
      if left == 0 { return Some(Stop(TimeBudget, |elements|, scanned, matched)), results, scanned, matched; }
      left := left - 1;
      assert elements[..i + 1][..i] == elements[..i];
      scanned := scanned + 1;
      if matches(elements[i]) {
        MatchedOne(elements, matches, i, row, matched, limit);
        matched := matched + 1;
        if |results| < limit { results := results + [row(elements[i])]; }
      }
    }
    assert elements[..|elements|] == elements;
    stop := None;
  }

  // ----- both -----

  predicate TooManyFilters<P>(f: Filters<P>) {
    |f.classes| > MAX_FILTER_ITEMS || |f.storeys| > MAX_FILTER_ITEMS
    || |f.names| > MAX_FILTER_ITEMS || |f.properties| > MAX_FILTER_ITEMS
  }

  /** The candidates of the whole file. */
  function CandidatesOf<T, P>(f: Filters<P>, model: Model<T>): seq<T> {
    Candidates(Instances(ClassesOf(f), model), model)
  }

  /** How a search ends before it has an answer; two looks at the clock come before the first instance. */
  function EarlyStop<T, P>(f: Filters<P>, model: Model<T>, matches: T -> bool, looks: nat): Option<Stop> {
    if TooManyFilters(f) then Some(Stop(FilterBudget, 0, 0, 0))
    else if looks < 2 then Some(Stop(TimeBudget, 0, 0, 0))
    else
      var all := Instances(ClassesOf(f), model);
      var stop := CollectStop(all, model, looks - 2);
      if stop.Some? then stop else ScanStop(Candidates(all, model), matches, looks - 2 - |all|)
  }

  method FindRows<T, P, R>(f: Filters<P>, model: Model<T>, matches: T -> bool, row: T -> R, requested: int, looks: nat)
    returns (stop: Option<Stop>, candidates: nat, results: seq<R>, scanned: nat, matched: nat)
    ensures stop == EarlyStop(f, model, matches, looks)
    ensures stop.None? ==>
      var all := CandidatesOf(f, model);
      && candidates == scanned == |all| <= MAX_CANDIDATES && matched == |Matching(all, matches)|
      && results == Rows(Matching(all, matches)[..Least(matched, PageLimit(requested))], row)
  {
    hide CollectStop, ScanStop, Instances, Candidates, PageLimit;
    candidates, results, scanned, matched := 0, [], 0, 0;
    if TooManyFilters(f) {
      stop := Some(Stop(FilterBudget, 0, 0, 0));
      return;
    }
    if looks < 2 {
      stop := Some(Stop(TimeBudget, 0, 0, 0));
      return;
    }
    var found, left;
    stop, found, left := Collect(ClassesOf(f), model, looks - 2);
    if stop.Some? { return; }
    candidates := |found|;
    stop, results, scanned, matched := ScanElements(found, matches, row, requested, left);
  }

  /**
   What a withheld answer says is true of the whole file: it has at least as many candidates as said, at
   least as many of them match as said, and no more match than were scanned.
   */
  lemma EarlyCountsAreBounds<T, P>(f: Filters<P>, model: Model<T>, matches: T -> bool, looks: nat)
    requires EarlyStop(f, model, matches, looks).Some?
    ensures var stop, all := EarlyStop(f, model, matches, looks).value, CandidatesOf(f, model);
      && stop.atLeast <= |all| && stop.scanned <= stop.atLeast
      && stop.matched <= stop.scanned && stop.matched <= |Matching(all, matches)|
  {
    hide Instances, Candidates, Matching;
    var all := Instances(ClassesOf(f), model);
    if looks >= 2 {
      CandidatesGrow(all, model, Least(looks - 2, |all|));
      if looks - 2 >= |all| {
        var found := Candidates(all, model);
        MatchingGrows(found, matches, Least(looks - 2 - |all|, |found|));
      }
    }
  }

  /**
   The scan runs to its end exactly when no filter list is too long, the whole file has no more candidates
   than allowed, and the clock shows time left once per instance, once per candidate and twice before.
   */
  lemma StopsExactlyWhen<T, P>(f: Filters<P>, model: Model<T>, matches: T -> bool, looks: nat)
    ensures var all := Instances(ClassesOf(f), model);
      EarlyStop(f, model, matches, looks).None? <==>
      && |f.classes| <= 64 && |f.storeys| <= 64 && |f.names| <= 64 && |f.properties| <= 64
      && |CandidatesOf(f, model)| <= 50000
      && looks >= 2 + |all| + |CandidatesOf(f, model)|
  {
    hide Instances, Candidates, Matching;
    var all := Instances(ClassesOf(f), model);
    assert all[..|all|] == all;
    if looks >= 2 { CandidatesGrow(all, model, Least(looks - 2, |all|)); }
  }

  // ----- what is searched, and for what -----

  lemma {:induction false} InstancesAre<T(!new)>(classes: seq<string>, model: Model<T>)
    ensures forall e :: e in Instances(classes, model) <==>
      exists c :: c in classes && model.byType(c).Some? && e in model.byType(c).value
  {
    if classes != [] {
      var front, last := classes[..|classes| - 1], classes[|classes| - 1];
      InstancesAre(front, model);
      assert classes == front + [last];
    }
  }

  /**
   The candidates of a search: one instance for each id that occurs in the named classes or, when none is named,
   in the eight that are searched by default.
   */
  lemma CandidatesAre<T(!new), P>(f: Filters<P>, model: Model<T>, id: int)
    ensures HasId(CandidatesOf(f, model), model, id) <==>
      exists c, e :: model.byType(c).Some? && e in model.byType(c).value && model.id(e) == Some(id)
        && if f.classes != [] then c in f.classes
           else c in ["IfcDoor", "IfcWindow", "IfcWall", "IfcColumn", "IfcBeam", "IfcSlab", "IfcSpace", "IfcBuildingElementProxy"]
  {
    var all := Instances(ClassesOf(f), model);
    CandidatesAreFirsts(all, model);
    InstancesAre(ClassesOf(f), model);
    if HasId(all, model, id) {
      var i :| 0 <= i < |all| && model.id(all[i]) == Some(id);
      assert all[i] in all;
    }
    forall e | e in all && model.id(e) == Some(id) ensures HasId(all, model, id) {
      var i :| 0 <= i < |all| && all[i] == e;
    }
  }

  /** The element answers the query: its class, its storey, its name and its properties. */
  predicate Wanted<T, P>(f: Filters<P>, lens: Lens<T, P>, e: T) {
    && (f.classes == [] || exists i :: 0 <= i < |f.classes| && f.classes[i] == lens.ifcClass(e))
    && (f.storeys == [] || lens.onStorey(e, f.storeys))
    && (forall n | n in f.names :: lens.named(e, n))
    && (forall i | 0 <= i < |f.properties| :: lens.holds(e, f.properties[i]))
  }

  /** The places at which a property holds. */
  function Places<T>(xs: seq<T>, p: T -> bool): set<int> { set i | 0 <= i < |xs| && p(xs[i]) }

  lemma PlacesSnoc<T>(xs: seq<T>, x: T, p: T -> bool)
    ensures |Places(xs + [x], p)| == |Places(xs, p)| + if p(x) then 1 else 0
  {
    assert forall i | 0 <= i < |xs| :: (xs + [x])[i] == xs[i];
    assert Places(xs + [x], p) == Places(xs, p) + if p(x) then {|xs|} else {};
  }

  lemma {:induction false} MatchingFrom<T(!new)>(elements: seq<T>, matches: T -> bool)
    ensures |Matching(elements, matches)| == |Places(elements, matches)|
  {
    hide Places;
    if elements == [] {
      assert Places(elements, matches) == {} by { NoPlaces(matches); }
    } else {
      var n := |elements| - 1;
      MatchingFrom(elements[..n], matches);
      PlacesSnoc(elements[..n], elements[n], matches);
      assert elements == elements[..n] + [elements[n]];
    }
  }

  lemma NoPlaces<T>(p: T -> bool)
    ensures Places([], p) == {}
  {
  }

  /** Where the elements that answer the query stand. */
  ghost function WantedPlaces<T, P>(elements: seq<T>, f: Filters<P>, lens: Lens<T, P>): set<int> {
    set i | 0 <= i < |elements| && Wanted(f, lens, elements[i])
  }

  /** What matches is what answers the query: exactly those elements, each as often as it is a candidate. */
  lemma MatchingIsWanted<T(!new), P>(elements: seq<T>, f: Filters<P>, lens: Lens<T, P>)
    ensures forall e :: e in Matching(elements, Chooser(f, lens)) <==> e in elements && Wanted(f, lens, e)
    ensures |Matching(elements, Chooser(f, lens))| == |WantedPlaces(elements, f, lens)|
  {
    MatchingSelects(elements, Chooser(f, lens));
    MatchingFrom(elements, Chooser(f, lens));
    forall e ensures Chooser(f, lens)(e) <==> Wanted(f, lens, e) { ChosenIsWanted(f, lens, e); }
    assert Places(elements, Chooser(f, lens)) == WantedPlaces(elements, f, lens);
  }

  lemma ChosenIsWanted<T, P>(f: Filters<P>, lens: Lens<T, P>, e: T)
    ensures Chooser(f, lens)(e) <==> Wanted(f, lens, e)
  {
    forall i | 0 <= i < |f.names| ensures f.names[i] in f.names { }
  }
}
