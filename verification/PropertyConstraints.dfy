/** Validation of numeric property predicates: contradictory exactly when no numbers satisfy them. */
module PropertyConstraints {
  import opened Options

  datatype Op = Lt | Le | Gt | Ge | Eq

  /** A parsed number: finite, or an infinity or NaN. */
  datatype Number = Finite(value: real) | NotFinite

  datatype Filter = Filter(name: string, op: Op, number: Number)

  datatype Verdict = Accepted | InvalidValue | Contradictory

  /** The comparison `_prop_match` makes between a number and a predicate. */
  predicate Holds(f: Filter, x: real)
    requires f.number.Finite?
  {
    match f.op
    case Lt => x < f.number.value
    case Le => x <= f.number.value
    case Gt => x > f.number.value
    case Ge => x >= f.number.value
    case Eq => x == f.number.value
  }

  predicate AllFinite(fs: seq<Filter>) { forall f | f in fs :: f.number.Finite? }

  /** An assignment of numbers to properties satisfies all predicates. */
  predicate Matches(properties: map<string, real>, fs: seq<Filter>)
    requires AllFinite(fs)
  {
    forall f | f in fs :: f.name in properties && Holds(f, properties[f.name])
  }

  ghost predicate Satisfiable(fs: seq<Filter>)
    requires AllFinite(fs)
  {
    exists properties :: Matches(properties, fs)
  }

  predicate HoldsAll(fs: seq<Filter>, x: real)
    requires AllFinite(fs)
  {
    forall f | f in fs :: Holds(f, x)
  }

  /** One number satisfies all predicates of a group. */
  ghost predicate GroupSatisfiable(fs: seq<Filter>)
    requires AllFinite(fs)
  {
    exists x :: HoldsAll(fs, x)
  }

  /** A bound and whether it is attained. */
  type Limit = Option<(real, bool)>

  predicate AboveLower(l: Limit, x: real) { l.Some? ==> l.value.0 < x || (l.value.1 && l.value.0 == x) }

  predicate BelowUpper(u: Limit, x: real) { u.Some? ==> x < u.value.0 || (u.value.1 && x == u.value.0) }

  /** An empty or degenerate interval. */
  predicate Crossed(lower: Limit, upper: Limit) {
    lower.Some? && upper.Some?
    && (lower.value.0 > upper.value.0
        || (lower.value.0 == upper.value.0 && !(lower.value.1 && upper.value.1)))
  }

  /** The lower limits a group sets, and the upper ones. */
  predicate HoldsFromBelow(fs: seq<Filter>, x: real)
    requires AllFinite(fs)
  {
    forall f | f in fs && (f.op == Gt || f.op == Ge) :: Holds(f, x)
  }

  predicate HoldsFromAbove(fs: seq<Filter>, x: real)
    requires AllFinite(fs)
  {
    forall f | f in fs && (f.op == Lt || f.op == Le) :: Holds(f, x)
  }

  predicate Within(equals: set<real>, lower: Limit, upper: Limit, x: real) {
    (forall e | e in equals :: x == e) && AboveLower(lower, x) && BelowUpper(upper, x)
  }

  /** Keeping the greater limit, or the strict one of two equal limits, keeps both conditions. */
  function TightenLower(lower: Limit, f: Filter): (r: Limit)
    requires f.number.Finite? && (f.op == Gt || f.op == Ge)
    ensures forall x :: AboveLower(r, x) <==> AboveLower(lower, x) && Holds(f, x)
  {
    var candidate := (f.number.value, f.op == Ge);
    if lower.None? || candidate.0 > lower.value.0 || (candidate.0 == lower.value.0 && !candidate.1) then
      Some(candidate)
    else
      lower
  }

  function TightenUpper(upper: Limit, f: Filter): (r: Limit)
    requires f.number.Finite? && (f.op == Lt || f.op == Le)
    ensures forall x :: BelowUpper(r, x) <==> BelowUpper(upper, x) && Holds(f, x)
  {
    var candidate := (f.number.value, f.op == Le);
    if upper.None? || candidate.0 < upper.value.0 || (candidate.0 == upper.value.0 && !candidate.1) then
      Some(candidate)
    else
      upper
  }

  /** Limits that do not cross leave a number between them. */
  lemma RoomBetween(lower: Limit, upper: Limit) returns (x: real)
    requires !Crossed(lower, upper)
    ensures AboveLower(lower, x) && BelowUpper(upper, x)
  {
    if lower.Some? && upper.Some? {
      x := (lower.value.0 + upper.value.0) / 2.0;
    } else if lower.Some? {
      x := lower.value.0 + 1.0;
    } else if upper.Some? {
      x := upper.value.0 - 1.0;
    } else {
      x := 0.0;
    }
  }

  lemma OnlyOne(s: set<real>, a: real)
    requires a in s
    ensures |s| <= 1 <==> s == {a}
  {
    assert s == {a} + (s - {a});
  }

  /** The tightest limits a group sets. */
  method Limits(fs: seq<Filter>) returns (lower: Limit, upper: Limit)
    requires AllFinite(fs)
    ensures forall x :: AboveLower(lower, x) <==> HoldsFromBelow(fs, x)
    ensures forall x :: BelowUpper(upper, x) <==> HoldsFromAbove(fs, x)
  {
    lower, upper := None, None;
    for i := 0 to |fs|
      invariant AllFinite(fs[..i])
      invariant forall x :: AboveLower(lower, x) <==> HoldsFromBelow(fs[..i], x)
      invariant forall x :: BelowUpper(upper, x) <==> HoldsFromAbove(fs[..i], x)
    {
      var f := fs[i];
      assert fs[..i + 1] == fs[..i] + [f];
      forall x
        ensures HoldsFromBelow(fs[..i + 1], x) <==> HoldsFromBelow(fs[..i], x) && HoldsFromBelow([f], x)
        ensures HoldsFromAbove(fs[..i + 1], x) <==> HoldsFromAbove(fs[..i], x) && HoldsFromAbove([f], x)
      {
        LimitsAdd(fs[..i], f, x);
      }
      if f.op == Gt || f.op == Ge {
        lower := TightenLower(lower, f);
      } else if f.op == Lt || f.op == Le {
        upper := TightenUpper(upper, f);
      }
    }
    assert fs[..|fs|] == fs;
  }

  /** The validator's work on the predicates of one property. */
  method CheckGroup(fs: seq<Filter>) returns (clash: bool)
    requires AllFinite(fs)
    ensures clash <==> !GroupSatisfiable(fs)
  {
    var equals: set<real> := set f | f in fs && f.op == Eq :: f.number.value;
    if |equals| > 1 {
      forall x ensures !HoldsAll(fs, x) { if HoldsAll(fs, x) { EqualsAgree(fs, x); } }
      return true;
    }
    var lower, upper := Limits(fs);
    forall x ensures Within(equals, lower, upper, x) <==> HoldsAll(fs, x) { WithinIsAll(fs, equals, lower, upper, x); }
    if Crossed(lower, upper) { return true; }
    if equals != {} {
      var equal :| equal in equals;
      OnlyOne(equals, equal);
      assert forall x :: HoldsAll(fs, x) ==> x == equal;
      clash := !(AboveLower(lower, equal) && BelowUpper(upper, equal));
      assert clash || HoldsAll(fs, equal);
    } else {
      ghost var x := RoomBetween(lower, upper);
      assert HoldsAll(fs, x);
      clash := false;
    }
  }

  lemma EqualsAgree(fs: seq<Filter>, x: real)
    requires AllFinite(fs) && HoldsAll(fs, x)
    ensures |set f | f in fs && f.op == Eq :: f.number.value| <= 1
  {
    var equals := set f | f in fs && f.op == Eq :: f.number.value;
    forall f | f in fs && f.op == Eq ensures f.number.value == x { assert Holds(f, x); }
    assert equals <= {x};
    assert {x} == equals + ({x} - equals);
  }

  lemma LimitsAdd(fs: seq<Filter>, f: Filter, x: real)
    requires AllFinite(fs) && f.number.Finite?
    ensures AllFinite(fs + [f]) && AllFinite([f])
    ensures HoldsFromBelow(fs + [f], x) <==> HoldsFromBelow(fs, x) && HoldsFromBelow([f], x)
    ensures HoldsFromAbove(fs + [f], x) <==> HoldsFromAbove(fs, x) && HoldsFromAbove([f], x)
  {
    assert forall g :: g in fs + [f] <==> g in fs || g in [f];
  }

  lemma WithinIsAll(fs: seq<Filter>, equals: set<real>, lower: Limit, upper: Limit, x: real)
    requires AllFinite(fs) && equals == set f | f in fs && f.op == Eq :: f.number.value
    requires AboveLower(lower, x) <==> HoldsFromBelow(fs, x)
    requires BelowUpper(upper, x) <==> HoldsFromAbove(fs, x)
    ensures Within(equals, lower, upper, x) <==> HoldsAll(fs, x)
  {
    if Within(equals, lower, upper, x) {
      forall f | f in fs ensures Holds(f, x) { if f.op == Eq { assert f.number.value in equals; } }
    }
    if HoldsAll(fs, x) {
      forall e | e in equals ensures x == e { var f :| f in fs && f.op == Eq && f.number.value == e; assert Holds(f, x); }
    }
  }

  function Named(fs: seq<Filter>, name: string): seq<Filter> {
    if fs == [] then [] else
      var rest := Named(fs[..|fs| - 1], name);
      if fs[|fs| - 1].name == name then rest + [fs[|fs| - 1]] else rest
  }

  lemma {:induction false} NamedMembers(fs: seq<Filter>, name: string)
    ensures forall f :: f in Named(fs, name) <==> f in fs && f.name == name
  {
    if fs != [] { NamedMembers(fs[..|fs| - 1], name); }
  }

  function Names(fs: seq<Filter>): set<string> { set f | f in fs :: f.name }

  /** Predicates on different properties do not interfere. */
  lemma SatisfiableByName(fs: seq<Filter>)
    requires AllFinite(fs)
    ensures forall n :: AllFinite(Named(fs, n))
    ensures Satisfiable(fs) <==> forall n | n in Names(fs) :: GroupSatisfiable(Named(fs, n))
  {
    forall n ensures AllFinite(Named(fs, n)) { NamedMembers(fs, n); }
    if Satisfiable(fs) {
      var properties :| Matches(properties, fs);
      forall n | n in Names(fs) ensures GroupSatisfiable(Named(fs, n)) {
        NamedMembers(fs, n);
        assert HoldsAll(Named(fs, n), properties[n]);
      }
    }
    if forall n | n in Names(fs) :: GroupSatisfiable(Named(fs, n)) {
      var properties := map n | n in Names(fs) :: Witness(fs, n);
      forall f | f in fs ensures f.name in properties && Holds(f, properties[f.name]) {
        NamedMembers(fs, f.name);
        assert f in Named(fs, f.name);
      }
      assert Matches(properties, fs);
    }
  }

  ghost function Witness(fs: seq<Filter>, n: string): (x: real)
    requires AllFinite(Named(fs, n)) && GroupSatisfiable(Named(fs, n))
    ensures HoldsAll(Named(fs, n), x)
  {
    var x :| HoldsAll(Named(fs, n), x); x
  }

  /** Collects the predicates by property, in order of first mention, unless one is not finite. */
  method GroupByName(fs: seq<Filter>) returns (finite: bool, names: seq<string>, byName: map<string, seq<Filter>>)
    ensures finite <==> AllFinite(fs)
    ensures finite ==> forall n :: (n in names <==> n in Names(fs)) && (n in byName <==> n in Names(fs))
    ensures finite ==> forall n | n in byName :: byName[n] == Named(fs, n)
  {
    names, byName := [], map[];
    for i := 0 to |fs|
      invariant AllFinite(fs[..i])
      invariant forall n :: (n in names <==> n in Names(fs[..i])) && (n in byName <==> n in Names(fs[..i]))
      invariant forall n | n in byName :: byName[n] == Named(fs[..i], n)
    {
      var f := fs[i];
      assert fs[..i + 1] == fs[..i] + [f] && fs[..i + 1][..i] == fs[..i];
      if f.number.NotFinite? {
        assert f in fs;
        return false, names, byName;
      }
      NamedNothing(fs[..i], f.name);
      if f.name !in byName { names, byName := names + [f.name], byName[f.name := []]; }
      byName := byName[f.name := byName[f.name] + [f]];
    }
    assert fs[..|fs|] == fs;
    finite := true;
  }

  lemma NamedNothing(fs: seq<Filter>, name: string)
    ensures name !in Names(fs) ==> Named(fs, name) == []
  {
    NamedMembers(fs, name);
    if Named(fs, name) != [] { assert Named(fs, name)[0] in Named(fs, name); }
  }

  /** What the predicates mean, without looking at bounds: invalid, without a solution, or with one. */
  ghost function VerdictOf(fs: seq<Filter>): Verdict {
    if !AllFinite(fs) then InvalidValue else if Satisfiable(fs) then Accepted else Contradictory
  }

  /**
   `_validate_property_constraints`: a non-finite value is invalid; finite predicates are reported
   contradictory exactly when no assignment of numbers to properties satisfies all of them.
   */
  method Validate(fs: seq<Filter>) returns (verdict: Verdict)
    ensures verdict == VerdictOf(fs)
    ensures verdict == InvalidValue <==> !AllFinite(fs)
    ensures AllFinite(fs) ==> (verdict == Contradictory <==> !Satisfiable(fs))
  {
    var finite, names, byName := GroupByName(fs);
    if !finite { return InvalidValue; }
    SatisfiableByName(fs);
    for i := 0 to |names|
      invariant forall n | n in names[..i] :: GroupSatisfiable(Named(fs, n))
    {
      assert names[i] in names;
      var clash := CheckGroup(byName[names[i]]);
      if clash { return Contradictory; }
    }
    assert names[..|names|] == names;
    verdict := Accepted;
  }

  /**
   `_prop_match`: the element has the property, its value reads as a finite number (`_numeric` answers
   None otherwise), and the comparison holds.
   */
  predicate PropMatch(element: map<string, Option<real>>, f: Filter)
    requires f.number.Finite?
  {
    f.name in element && element[f.name].Some? && Holds(f, element[f.name].value)
  }

  /** Filters that some element matches are accepted, whatever else the element holds. */
  lemma MatchedFiltersAreSatisfiable(element: map<string, Option<real>>, fs: seq<Filter>)
    requires AllFinite(fs) && forall f | f in fs :: PropMatch(element, f)
    ensures VerdictOf(fs) == Accepted
  {
    var properties := map n | n in element && element[n].Some? :: element[n].value;
    assert Matches(properties, fs);
  }
}
