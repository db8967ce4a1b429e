/**
 The three-level matching of two models, stated without loops: by GlobalId, then by an unambiguous
 (type, tag), then by rank within equal type, name and location. The theorems about the matching
 are proved here; the engine is proved to compute it in DiffEngine.
 */
module DiffMatching {
  import opened Options
  import opened Order

  datatype Element = Element(
    id: int, ifcType: string, guid: Option<string>, tag: Option<string>, name: Option<string>,
    xyz: Option<(real, real, real)>, location: string, psets: Option<string>, shape: Option<string>)

  datatype How = ByGuid | ByTag | ByLocation

  datatype Pair = Pair(base: Element, target: Element, how: How)

  function OrEmpty(s: Option<string>): string { if s.Some? then s.value else "" }

  function Gid(e: Element): string { OrEmpty(e.guid) }

  function Tag(e: Element): string { OrEmpty(e.tag) }

  /** The third-level key: type, name and rendered location, joined by bars. */
  function Key(e: Element): string { e.ifcType + "|" + OrEmpty(e.name) + "|" + e.location }

  /** Entity ids identify elements, and neither types nor rendered locations contain a bar. */
  predicate Model(els: seq<Element>) {
    && (forall i, j | 0 <= i < j < |els| :: els[i].id != els[j].id)
    && (forall e | e in els :: '|' !in e.ifcType && '|' !in e.location)
  }

  function Elements(els: seq<Element>): set<Element> { set e | e in els }

  predicate Distinct(s: set<Element>) { forall a, b | a in s && b in s && a.id == b.id :: a == b }

  /** The stable order within a bucket: GlobalId, then entity id. */
  predicate Precedes(a: Element, b: Element) {
    Less(Gid(a), Gid(b)) || (Gid(a) == Gid(b) && a.id < b.id)
  }

  /** The first element of the list with its GlobalId. */
  predicate IsFirst(els: seq<Element>, e: Element) {
    Gid(e) != "" && exists i :: 0 <= i < |els| && els[i] == e && forall j | 0 <= j < i :: Gid(els[j]) != Gid(e)
  }

  function GuidPairs(base: seq<Element>, target: seq<Element>): set<Pair> {
    set b, t | b in base && t in target && IsFirst(base, b) && IsFirst(target, t) && Gid(b) == Gid(t)
      :: Pair(b, t, ByGuid)
  }

  predicate SameTag(a: Element, b: Element) { a.ifcType == b.ifcType && Tag(a) == Tag(b) }

  /** The only element of `s` with its type and tag. */
  predicate OnlyTag(s: set<Element>, e: Element) {
    Tag(e) != "" && e in s && forall x | x in s && SameTag(x, e) :: x == e
  }

  function TagPairs(bs: set<Element>, ts: set<Element>): set<Pair> {
    set b, t | b in bs && t in ts && OnlyTag(bs, b) && OnlyTag(ts, t) && SameTag(b, t) :: Pair(b, t, ByTag)
  }

  function Bucket(s: set<Element>, key: string): set<Element> { set e | e in s && Key(e) == key }

  function Below(s: set<Element>, e: Element): set<Element> { set x | x in s && Precedes(x, e) }

  /** The position of `e` in the sorted bucket of its key. */
  function Rank(s: set<Element>, e: Element): nat { |Below(Bucket(s, Key(e)), e)| }

  function LocationPairs(bs: set<Element>, ts: set<Element>): set<Pair> {
    set b, t | b in bs && t in ts && Key(b) == Key(t) && Rank(bs, b) == Rank(ts, t) :: Pair(b, t, ByLocation)
  }

  function BasesOf(ps: set<Pair>): set<Element> { set p | p in ps :: p.base }

  function TargetsOf(ps: set<Pair>): set<Element> { set p | p in ps :: p.target }

  /** The pairs of all three levels; each level sees only what the ones before left unmatched. */
  function Levels(base: seq<Element>, target: seq<Element>): (set<Pair>, set<Pair>, set<Pair>) {
    var first := GuidPairs(base, target);
    var bs, ts := Elements(base) - BasesOf(first), Elements(target) - TargetsOf(first);
    var second := TagPairs(bs, ts);
    (first, second, LocationPairs(bs - BasesOf(second), ts - TargetsOf(second)))
  }

  function Matching(base: seq<Element>, target: seq<Element>): set<Pair> {
    var ls := Levels(base, target);
    ls.0 + ls.1 + ls.2
  }

  // --------------------------------------------------------------------------- the stable order

  lemma PrecedesIsOrder(a: Element, b: Element, c: Element)
    ensures !(Precedes(a, b) && Precedes(b, a)) && !Precedes(a, a)
    ensures Precedes(a, b) && Precedes(b, c) ==> Precedes(a, c)
    ensures a.id != b.id ==> Precedes(a, b) || Precedes(b, a)
  {
    LessIsTotal(Gid(a), Gid(b));
    LessIsAsymmetric(Gid(a), Gid(b));
    LessIsAsymmetric(Gid(a), Gid(a));
    if Less(Gid(a), Gid(b)) && Less(Gid(b), Gid(c)) { LessIsTransitive(Gid(a), Gid(b), Gid(c)); }
  }

  lemma SubsetSize(a: set<Element>, b: set<Element>)
    requires a <= b
    ensures |a| <= |b| && (a != b ==> |a| < |b|)
  {
    assert b == a + (b - a);
  }

  lemma BelowIsSmaller(s: set<Element>, e: Element)
    requires e in s
    ensures |Below(s, e)| < |s|
  {
    PrecedesIsOrder(e, e, e);
    SubsetSize(Below(s, e), s);
  }

  lemma BelowGrows(s: set<Element>, a: Element, b: Element)
    requires a in s && b in s && Precedes(a, b)
    ensures |Below(s, a)| < |Below(s, b)|
  {
    PrecedesIsOrder(a, a, a);
    forall x | x in Below(s, a) ensures x in Below(s, b) { PrecedesIsOrder(x, a, b); }
    assert a in Below(s, b) && a !in Below(s, a);
    SubsetSize(Below(s, a), Below(s, b));
  }

  lemma {:induction false} LastOf(s: set<Element>) returns (m: Element)
    requires s != {} && Distinct(s)
    ensures m in s && forall x | x in s && x != m :: Precedes(x, m)
  {
    var e :| e in s;
    if s == {e} {
      m := e;
    } else {
      var rest := s - {e};
      assert s == rest + {e};
      var n := LastOf(rest);
      PrecedesIsOrder(e, n, e);
      m := if Precedes(n, e) then e else n;
      forall x | x in s && x != m ensures Precedes(x, m) {
        if x != e && x != n { assert x in rest; PrecedesIsOrder(x, n, m); }
      }
    }
  }

  /** Every position below the size of a bucket is taken. */
  lemma {:induction false} BelowIsOnto(s: set<Element>, r: nat) returns (e: Element)
    requires Distinct(s) && r < |s|
    ensures e in s && |Below(s, e)| == r
  {
    var m := LastOf(s);
    PrecedesIsOrder(m, m, m);
    assert Below(s, m) == s - {m};
    if r == |s| - 1 {
      e := m;
    } else {
      e := BelowIsOnto(s - {m}, r);
      PrecedesIsOrder(e, m, e);
      assert Below(s, e) == Below(s - {m}, e);
    }
  }

  // --------------------------------------------------------------------------- one to one

  lemma ModelIsDistinct(els: seq<Element>)
    requires Model(els)
    ensures Distinct(Elements(els)) && |Elements(els)| == |els|
  {
    ModelSize(els);
  }

  lemma {:induction false} ModelSize(els: seq<Element>)
    requires forall i, j | 0 <= i < j < |els| :: els[i] != els[j]
    ensures |Elements(els)| == |els|
  {
    if els != [] {
      var n := |els| - 1;
      ModelSize(els[..n]);
      assert Elements(els) == Elements(els[..n]) + {els[n]};
      assert els[n] !in els[..n];
    }
  }

  /** No two pairs share an end. */
  predicate OneToOne(ps: set<Pair>) {
    && (forall p, q | p in ps && q in ps && p.base == q.base :: p == q)
    && (forall p, q | p in ps && q in ps && p.target == q.target :: p == q)
  }

  lemma FirstIsUnique(els: seq<Element>, a: Element, b: Element)
    requires IsFirst(els, a) && IsFirst(els, b) && Gid(a) == Gid(b)
    ensures a == b
  {
    var i :| 0 <= i < |els| && els[i] == a && forall j | 0 <= j < i :: Gid(els[j]) != Gid(a);
    var k :| 0 <= k < |els| && els[k] == b && forall j | 0 <= j < k :: Gid(els[j]) != Gid(b);
  }

  lemma GuidPairsAreOneToOne(base: seq<Element>, target: seq<Element>)
    ensures OneToOne(GuidPairs(base, target))
  {
    forall p, q | p in GuidPairs(base, target) && q in GuidPairs(base, target) && p.base == q.base ensures p == q {
      FirstIsUnique(target, p.target, q.target);
    }
    forall p, q | p in GuidPairs(base, target) && q in GuidPairs(base, target) && p.target == q.target ensures p == q {
      FirstIsUnique(base, p.base, q.base);
    }
  }

  lemma TagPairsAreOneToOne(bs: set<Element>, ts: set<Element>)
    ensures OneToOne(TagPairs(bs, ts))
  {
  }

  /** Elements of one bucket with one rank are one element. */
  lemma RankIsInjective(s: set<Element>, a: Element, b: Element)
    requires Distinct(s) && a in s && b in s && Key(a) == Key(b) && Rank(s, a) == Rank(s, b)
    ensures a == b
  {
    var bucket := Bucket(s, Key(a));
    if a != b {
      PrecedesIsOrder(a, b, a);
      if Precedes(a, b) { BelowGrows(bucket, a, b); } else { BelowGrows(bucket, b, a); }
    }
  }

  lemma LocationPairsAreOneToOne(bs: set<Element>, ts: set<Element>)
    requires Distinct(bs) && Distinct(ts)
    ensures OneToOne(LocationPairs(bs, ts))
  {
    forall p, q | p in LocationPairs(bs, ts) && q in LocationPairs(bs, ts) && p.base == q.base ensures p == q {
      RankIsInjective(ts, p.target, q.target);
    }
    forall p, q | p in LocationPairs(bs, ts) && q in LocationPairs(bs, ts) && p.target == q.target ensures p == q {
      RankIsInjective(bs, p.base, q.base);
    }
  }

  /** Levels that match disjoint elements are one to one together. */
  lemma OneToOneUnion(ps: set<Pair>, qs: set<Pair>)
    requires OneToOne(ps) && OneToOne(qs)
    requires BasesOf(ps) !! BasesOf(qs) && TargetsOf(ps) !! TargetsOf(qs)
    ensures OneToOne(ps + qs)
  {
    forall p, q | p in ps && q in qs ensures p.base != q.base && p.target != q.target {
      assert p.base in BasesOf(ps) && q.base in BasesOf(qs) && p.target in TargetsOf(ps) && q.target in TargetsOf(qs);
    }
  }

  /** Main result: the matching is one to one, between elements of the two models. */
  lemma MatchingIsOneToOne(base: seq<Element>, target: seq<Element>)
    requires Model(base) && Model(target)
    ensures OneToOne(Matching(base, target))
    ensures forall p | p in Matching(base, target) :: p.base in base && p.target in target
  {
    var ls := Levels(base, target);
    ModelIsDistinct(base);
    ModelIsDistinct(target);
    GuidPairsAreOneToOne(base, target);
    var bs, ts := Elements(base) - BasesOf(ls.0), Elements(target) - TargetsOf(ls.0);
    TagPairsAreOneToOne(bs, ts);
    LocationPairsAreOneToOne(bs - BasesOf(ls.1), ts - TargetsOf(ls.1));
    OneToOneUnion(ls.0, ls.1);
    assert BasesOf(ls.0 + ls.1) == BasesOf(ls.0) + BasesOf(ls.1);
    assert TargetsOf(ls.0 + ls.1) == TargetsOf(ls.0) + TargetsOf(ls.1);
    OneToOneUnion(ls.0 + ls.1, ls.2);
  }

  // --------------------------------------------------------------------------- keys

  /** Two texts with the same part before their first bar. */
  lemma FirstBar(a: string, b: string, x: string, y: string)
    requires '|' !in a && '|' !in b && a + "|" + x == b + "|" + y
    ensures a == b && x == y
  {
    var s := a + "|" + x;
    assert s[|a|] == '|' && s[|b|] == '|';
    assert a == s[..|a|] == b && x == s[|a| + 1..] == y;
  }

  lemma LastBar(a: string, b: string, x: string, y: string)
    requires '|' !in x && '|' !in y && a + "|" + x == b + "|" + y
    ensures a == b && x == y
  {
    var s := a + "|" + x;
    assert s[|a|] == '|' && s[|b|] == '|';
    assert a == s[..|a|] == b && x == s[|a| + 1..] == y;
  }

  /** The joined key does not confuse types, names or locations, whatever bars a name contains. */
  lemma KeyIsInjective(a: Element, b: Element)
    requires '|' !in a.ifcType && '|' !in b.ifcType && '|' !in a.location && '|' !in b.location
    ensures Key(a) == Key(b) <==>
      a.ifcType == b.ifcType && OrEmpty(a.name) == OrEmpty(b.name) && a.location == b.location
  {
    if Key(a) == Key(b) {
      assert Key(a) == a.ifcType + "|" + (OrEmpty(a.name) + "|" + a.location);
      assert Key(b) == b.ifcType + "|" + (OrEmpty(b.name) + "|" + b.location);
      FirstBar(a.ifcType, b.ifcType, OrEmpty(a.name) + "|" + a.location, OrEmpty(b.name) + "|" + b.location);
      LastBar(OrEmpty(a.name), OrEmpty(b.name), a.location, b.location);
    }
  }

  /** Pairs made by tag or by location never join different IFC types. */
  lemma LowerLevelsKeepTypes(base: seq<Element>, target: seq<Element>, p: Pair)
    requires Model(base) && Model(target) && p in Matching(base, target) && p.how != ByGuid
    ensures p.base.ifcType == p.target.ifcType
  {
    if p.how == ByLocation {
      MatchingIsOneToOne(base, target);
      KeyIsInjective(p.base, p.target);
    }
  }

  // --------------------------------------------------------------------------- maximality

  lemma NoBothLeft(bs: set<Element>, ts: set<Element>, b: Element, t: Element)
    requires Distinct(bs) && Distinct(ts) && b in bs && t in ts && Key(b) == Key(t)
    ensures b in BasesOf(LocationPairs(bs, ts)) || t in TargetsOf(LocationPairs(bs, ts))
  {
    var bb, tb := Bucket(bs, Key(b)), Bucket(ts, Key(t));
    BelowIsSmaller(bb, b);
    BelowIsSmaller(tb, t);
    if Rank(bs, b) < |tb| {
      var partner := BelowIsOnto(tb, Rank(bs, b));
      assert Pair(b, partner, ByLocation) in LocationPairs(bs, ts);
    } else {
      var partner := BelowIsOnto(bb, Rank(ts, t));
      assert Pair(partner, t, ByLocation) in LocationPairs(bs, ts);
    }
  }

  /** Main result: nothing is reported both removed and added under one type, name and location. */
  lemma MatchingIsMaximal(base: seq<Element>, target: seq<Element>, b: Element, t: Element)
    requires Model(base) && Model(target) && b in base && t in target
    requires b !in BasesOf(Matching(base, target)) && t !in TargetsOf(Matching(base, target))
    ensures Key(b) != Key(t)
  {
    var ls := Levels(base, target);
    ModelIsDistinct(base);
    ModelIsDistinct(target);
    var bs, ts := Elements(base) - BasesOf(ls.0), Elements(target) - TargetsOf(ls.0);
    assert forall p | p in ls.0 + ls.1 + ls.2 :: p in Matching(base, target);
    if Key(b) == Key(t) { NoBothLeft(bs - BasesOf(ls.1), ts - TargetsOf(ls.1), b, t); }
  }

  // --------------------------------------------------------------------------- symmetry

  function Flip(p: Pair): Pair { Pair(p.target, p.base, p.how) }

  function FlipAll(ps: set<Pair>): set<Pair> { set p | p in ps :: Flip(p) }

  lemma FlipsAre(ps: set<Pair>, qs: set<Pair>)
    requires forall p | p in ps :: Flip(p) in qs
    requires forall q | q in qs :: Flip(q) in ps
    ensures FlipAll(ps) == qs && BasesOf(qs) == TargetsOf(ps) && TargetsOf(qs) == BasesOf(ps)
  {
    forall q | q in qs ensures q in FlipAll(ps) { assert Flip(Flip(q)) == q; }
    forall e | e in TargetsOf(ps) ensures e in BasesOf(qs) { var p :| p in ps && p.target == e; assert Flip(p) in qs; }
    forall e | e in BasesOf(ps) ensures e in TargetsOf(qs) { var p :| p in ps && p.base == e; assert Flip(p) in qs; }
  }

  /** Main result: swapping the two models mirrors every pair and changes nothing else. */
  lemma SwappingMirrors(base: seq<Element>, target: seq<Element>)
    ensures Matching(target, base) == FlipAll(Matching(base, target))
  {
    var a, b := Levels(base, target), Levels(target, base);
    FlipsAre(a.0, b.0);
    FlipsAre(a.1, b.1);
    FlipsAre(a.2, b.2);
  }

  // --------------------------------------------------------------------------- a model against itself

  lemma FirstExists(els: seq<Element>, e: Element) returns (f: Element)
    requires e in els && Gid(e) != ""
    ensures IsFirst(els, f) && f in els && Gid(f) == Gid(e)
  {
    var k :| 0 <= k < |els| && els[k] == e;
    var i := 0;
    while Gid(els[i]) != Gid(e)
      invariant i <= k && forall j | 0 <= j < i :: Gid(els[j]) != Gid(e)
      decreases k - i
    {
      i := i + 1;
    }
    f := els[i];
  }

  /** Main result: against itself every element is paired with itself and with nothing else. */
  lemma SelfMatchingIsIdentity(els: seq<Element>)
    requires Model(els)
    ensures forall p | p in Matching(els, els) :: p.base == p.target
    ensures forall e | e in els :: exists p :: p in Matching(els, els) && p.base == e && p.target == e
  {
    var ls := Levels(els, els);
    ModelIsDistinct(els);
    SwappingMirrors(els, els);
    GuidPairsAreEqual(els);
    assert BasesOf(ls.0) == TargetsOf(ls.0);
    var rest := Elements(els) - BasesOf(ls.0);
    SetPairsAreEqual(rest);
    assert BasesOf(ls.1) == TargetsOf(ls.1);
    var last := rest - BasesOf(ls.1);
    SetPairsAreEqual(last);
    forall e | e in els ensures exists p :: p in Matching(els, els) && p.base == e && p.target == e {
      if e in BasesOf(ls.0) {
        var p :| p in ls.0 && p.base == e;
      } else if e in BasesOf(ls.1) {
        var p :| p in ls.1 && p.base == e;
      } else {
        assert Pair(e, e, ByLocation) in ls.2;
      }
    }
  }

  lemma GuidPairsAreEqual(els: seq<Element>)
    ensures forall p | p in GuidPairs(els, els) :: p.base == p.target
  {
    forall p | p in GuidPairs(els, els) ensures p.base == p.target { FirstIsUnique(els, p.base, p.target); }
  }

  lemma SetPairsAreEqual(s: set<Element>)
    requires Distinct(s)
    ensures forall p | p in TagPairs(s, s) :: p.base == p.target
    ensures forall p | p in LocationPairs(s, s) :: p.base == p.target
    ensures forall e | e in s :: Pair(e, e, ByLocation) in LocationPairs(s, s)
  {
    forall p | p in LocationPairs(s, s) ensures p.base == p.target { RankIsInjective(s, p.base, p.target); }
  }

  // --------------------------------------------------------------------------- order independence

  /** The same elements, listed in another order. */
  predicate Reordered(a: seq<Element>, b: seq<Element>) { multiset(a) == multiset(b) }

  /** No GlobalId found in both models is repeated in either. */
  predicate SharedGuidsUnique(base: seq<Element>, target: seq<Element>) {
    && (forall x, y, t | x in base && y in base && t in target && Gid(x) == Gid(y) == Gid(t) != "" :: x == y)
    && (forall x, y, b | x in target && y in target && b in base && Gid(x) == Gid(y) == Gid(b) != "" :: x == y)
  }

  lemma ReorderedMembers(a: seq<Element>, b: seq<Element>)
    requires Reordered(a, b)
    ensures forall e :: e in a <==> e in b
  {
    forall e ensures e in a <==> e in b {
      assert e in a <==> e in multiset(a);
      assert e in b <==> e in multiset(b);
    }
  }

  lemma GuidPairsIgnoreOrder(base: seq<Element>, target: seq<Element>, base2: seq<Element>, target2: seq<Element>)
    requires Reordered(base, base2) && Reordered(target, target2) && SharedGuidsUnique(base, target)
    ensures forall p | p in GuidPairs(base, target) :: p in GuidPairs(base2, target2)
  {
    ReorderedMembers(base, base2);
    ReorderedMembers(target, target2);
    forall p | p in GuidPairs(base, target) ensures p in GuidPairs(base2, target2) {
      var b := FirstExists(base2, p.base);
      var t := FirstExists(target2, p.target);
      assert b == p.base && t == p.target;
    }
  }

  lemma OrderDoesNotMatter(base: seq<Element>, target: seq<Element>, base2: seq<Element>, target2: seq<Element>)
    requires Reordered(base, base2) && Reordered(target, target2) && SharedGuidsUnique(base, target)
    ensures Matching(base2, target2) == Matching(base, target)
  {
    ReorderedMembers(base, base2);
    ReorderedMembers(target, target2);
    GuidPairsIgnoreOrder(base, target, base2, target2);
    GuidPairsIgnoreOrder(base2, target2, base, target);
    assert Elements(base) == Elements(base2) && Elements(target) == Elements(target2);
    assert GuidPairs(base, target) == GuidPairs(base2, target2);
  }

  /** `x` moved to the front. */
  function ToFront(els: seq<Element>, i: nat): seq<Element>
    requires i < |els|
  {
    [els[i]] + els[..i] + els[i + 1..]
  }

  lemma ToFrontReorders(els: seq<Element>, i: nat)
    requires i < |els|
    ensures Reordered(els, ToFront(els, i))
  {
    assert els == els[..i] + [els[i]] + els[i + 1..];
  }

  /** A repeated GlobalId that the other model has too: putting another holder first changes the pairs. */
  lemma RepeatedGuidDependsOnOrder(base: seq<Element>, target: seq<Element>, x: Element, y: Element, t: Element)
    returns (base2: seq<Element>)
    requires x in base && y in base && t in target && Gid(x) == Gid(y) == Gid(t) != "" && x != y
    ensures Reordered(base, base2) && Matching(base2, target) != Matching(base, target)
  {
    var f := FirstExists(base, x);
    var u := FirstExists(target, t);
    var other := if f == x then y else x;
    var i :| 0 <= i < |base| && base[i] == other;
    base2 := ToFront(base, i);
    ToFrontReorders(base, i);
    assert base2[0] == other && IsFirst(base2, other);
    assert Pair(other, u, ByGuid) in GuidPairs(base2, target);
    if Pair(other, u, ByGuid) in GuidPairs(base, target) { FirstIsUnique(base, f, other); }
  }

  /** Whatever the order of either list, the pairs are the same. */
  ghost predicate IgnoresOrder(base: seq<Element>, target: seq<Element>) {
    forall base2, target2 | Reordered(base, base2) && Reordered(target, target2) ::
      Matching(base2, target2) == Matching(base, target)
  }

  lemma OrderDependsOnSharedUniqueness(base: seq<Element>, target: seq<Element>)
    requires !SharedGuidsUnique(base, target)
    ensures !IgnoresOrder(base, target)
  {
    hide Matching, Gid;
    assert Reordered(base, base) && Reordered(target, target);
    if x, y, t :| x in base && y in base && t in target && Gid(x) == Gid(y) == Gid(t) != "" && x != y {
      var base2 := RepeatedGuidDependsOnOrder(base, target, x, y, t);
    } else {
      var x, y, b :| x in target && y in target && b in base && Gid(x) == Gid(y) == Gid(b) != "" && x != y;
      var target2 := RepeatedGuidDependsOnOrder(target, base, x, y, b);
      SwappingMirrors(base, target);
      SwappingMirrors(base, target2);
    }
  }

  /**
   Main result: the pairs are independent of the order of both lists if and only if no GlobalId
   common to both models is repeated in one of them.
   */
  lemma OrderIndependenceIsSharedUniqueness(base: seq<Element>, target: seq<Element>)
    ensures IgnoresOrder(base, target) <==> SharedGuidsUnique(base, target)
  {
    hide Matching;
    if SharedGuidsUnique(base, target) {
      forall base2, target2 | Reordered(base, base2) && Reordered(target, target2)
        ensures Matching(base2, target2) == Matching(base, target)
      {
        OrderDoesNotMatter(base, target, base2, target2);
      }
    } else {
      OrderDependsOnSharedUniqueness(base, target);
    }
  }
}
