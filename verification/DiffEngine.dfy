/** The diff engine: the loops that build the matching of DiffMatching and report on it. */
module DiffEngine {
  import opened Options
  import opened Order
  import opened DiffMatching

  datatype Change = Added | Removed | Moved | GeometryChanged | PropertyChanged

  datatype Item = Item(change: Change, guid: Option<string>, ifcType: string, name: Option<string>, how: Option<How>)

  datatype DiffResult = DiffResult(
    baseCount: nat, targetCount: nat, matched: nat, counts: map<Change, nat>, items: seq<Item>)

  function Abs(x: real): real { if x < 0.0 then -x else x }

  function Max(x: real, y: real): real { if x < y then y else x }

  function Delta(a: (real, real, real), b: (real, real, real)): real {
    Max(Max(Abs(a.0 - b.0), Abs(a.1 - b.1)), Abs(a.2 - b.2))
  }

  predicate Differ(a: Option<string>, b: Option<string>) { OrEmpty(a) != "" && OrEmpty(b) != "" && a != b }

  /** What is reported of one matched pair. */
  function PairItems(p: Pair, tolerance: real, geometry: bool): seq<Item> {
    var guid := if Gid(p.target) != "" then p.target.guid else p.base.guid;
    (if p.base.xyz.Some? && p.target.xyz.Some? && Delta(p.base.xyz.value, p.target.xyz.value) > tolerance
     then [Item(Moved, guid, p.target.ifcType, p.target.name, Some(p.how))] else [])
    + (if Differ(p.base.psets, p.target.psets)
       then [Item(PropertyChanged, guid, p.target.ifcType, p.target.name, Some(p.how))] else [])
    + (if geometry && Differ(p.base.shape, p.target.shape)
       then [Item(GeometryChanged, guid, p.target.ifcType, p.target.name, Some(p.how))] else [])
  }

  function AllPairItems(ps: seq<Pair>, tolerance: real, geometry: bool): seq<Item> {
    if ps == [] then [] else
      AllPairItems(ps[..|ps| - 1], tolerance, geometry) + PairItems(ps[|ps| - 1], tolerance, geometry)
  }

  function Leftovers(els: seq<Element>, matched: set<int>, change: Change): seq<Item> {
    if els == [] then [] else
      var e := els[|els| - 1];
      Leftovers(els[..|els| - 1], matched, change)
      + if e.id in matched then [] else [Item(change, e.guid, e.ifcType, e.name, None)]
  }

  function CountItems(items: seq<Item>, change: Change): nat {
    if items == [] then 0 else
      CountItems(items[..|items| - 1], change) + if items[|items| - 1].change == change then 1 else 0
  }

  function Ids(es: set<Element>): set<int> { set e | e in es :: e.id }

  function BaseIds(ps: seq<Pair>): set<int> { set p | p in ps :: p.base.id }

  function TargetIds(ps: seq<Pair>): set<int> { set p | p in ps :: p.target.id }

  function AsSet(ps: seq<Pair>): set<Pair> { set p | p in ps }

  /** The list of pairs holds `expected`, each once, and the matched ids are those of its ends. */
  predicate Tracks(ps: seq<Pair>, mb: set<int>, mt: set<int>, expected: set<Pair>) {
    AsSet(ps) == expected && mb == BaseIds(ps) && mt == TargetIds(ps) && |ps| == |mb| == |mt|
  }

  lemma Record(ps: seq<Pair>, mb: set<int>, mt: set<int>, expected: set<Pair>, p: Pair)
    requires Tracks(ps, mb, mt, expected) && p.base.id !in mb && p.target.id !in mt
    ensures Tracks(ps + [p], mb + {p.base.id}, mt + {p.target.id}, expected + {p})
  {
    assert AsSet(ps + [p]) == AsSet(ps) + {p};
    assert BaseIds(ps + [p]) == BaseIds(ps) + {p.base.id};
    assert TargetIds(ps + [p]) == TargetIds(ps) + {p.target.id};
  }

  lemma SameIdSame(els: seq<Element>, a: Element, b: Element)
    requires Model(els) && a in els && b in els && a.id == b.id
    ensures a == b
  {
    var i :| 0 <= i < |els| && els[i] == a;
    var j :| 0 <= j < |els| && els[j] == b;
  }

  /** A pair of the matching not yet listed has unmatched ends, and can be listed. */
  lemma CanPair(base: seq<Element>, target: seq<Element>, ps: seq<Pair>, mb: set<int>, mt: set<int>,
                expected: set<Pair>, p: Pair)
    requires Model(base) && Model(target) && Tracks(ps, mb, mt, expected)
    requires expected <= Matching(base, target) && p in Matching(base, target) && p !in expected
    ensures p.base.id !in mb && p.target.id !in mt
    ensures Tracks(ps + [p], mb + {p.base.id}, mt + {p.target.id}, expected + {p})
  {
    hide Matching;
    MatchingIsOneToOne(base, target);
    forall q | q in ps ensures q.base.id != p.base.id && q.target.id != p.target.id {
      assert q in AsSet(ps);
      if q.base.id == p.base.id { SameIdSame(base, q.base, p.base); }
      if q.target.id == p.target.id { SameIdSame(target, q.target, p.target); }
    }
    Record(ps, mb, mt, expected, p);
  }

  /** The pairs whose base element has one of the visited keys. */
  ghost function Done<K>(all: set<Pair>, keyOf: Element -> Option<K>, keys: seq<K>): set<Pair> {
    set p | p in all && keyOf(p.base).Some? && keyOf(p.base).value in keys
  }

  lemma DoneNext<K>(all: set<Pair>, keyOf: Element -> Option<K>, keys: seq<K>, k: K, more: set<Pair>)
    requires forall p :: p in more <==> p in all && keyOf(p.base) == Some(k)
    ensures Done(all, keyOf, keys + [k]) == Done(all, keyOf, keys) + more
    ensures k !in keys ==> Done(all, keyOf, keys) !! more
  {
  }

  /** Visiting the next key when at most one pair has it: the pair is listed, or nothing is. */
  lemma Visit<K>(base: seq<Element>, target: seq<Element>, ps: seq<Pair>, mb: set<int>, mt: set<int>,
                 before: set<Pair>, all: set<Pair>, keyOf: Element -> Option<K>, keys: seq<K>, i: nat, p: Pair)
    requires Model(base) && Model(target) && i < |keys| && keys[i] !in keys[..i]
    requires Tracks(ps, mb, mt, before + Done(all, keyOf, keys[..i]))
    requires before + all <= Matching(base, target) && p in all && p !in before
    requires forall q :: q == p <==> q in all && keyOf(q.base) == Some(keys[i])
    ensures p.base.id !in mb && p.target.id !in mt
    ensures Tracks(ps + [p], mb + {p.base.id}, mt + {p.target.id}, before + Done(all, keyOf, keys[..i + 1]))
  {
    hide Matching, Tracks, Model;
    var done := Done(all, keyOf, keys[..i]);
    assert keys[..i + 1] == keys[..i] + [keys[i]];
    DoneNext(all, keyOf, keys[..i], keys[i], {p});
    CanPair(base, target, ps, mb, mt, before + done, p);
    assert before + done + {p} == before + (done + {p});
  }

  lemma VisitNothing<K>(all: set<Pair>, keyOf: Element -> Option<K>, keys: seq<K>, i: nat)
    requires i < |keys| && forall q | q in all :: keyOf(q.base) != Some(keys[i])
    ensures Done(all, keyOf, keys[..i + 1]) == Done(all, keyOf, keys[..i])
  {
    assert keys[..i + 1] == keys[..i] + [keys[i]];
  }

  // --------------------------------------------------------------------------- buckets

  /** The unmatched elements with key `k`, in order of appearance. */
  function Having<K(==)>(els: seq<Element>, matched: set<int>, keyOf: Element -> Option<K>, k: K): seq<Element> {
    if els == [] then [] else
      var e := els[|els| - 1];
      Having(els[..|els| - 1], matched, keyOf, k) + if e.id !in matched && keyOf(e) == Some(k) then [e] else []
  }

  lemma HavingSnoc<K>(els: seq<Element>, i: nat, matched: set<int>, keyOf: Element -> Option<K>)
    requires i < |els|
    ensures forall k ::
      Having(els[..i + 1], matched, keyOf, k) ==
        (if els[i].id !in matched && keyOf(els[i]) == Some(k) then Having(els[..i], matched, keyOf, k) + [els[i]]
         else Having(els[..i], matched, keyOf, k))
  {
    assert els[..i + 1][..i] == els[..i];
  }

  /** The dictionary of unmatched elements by key, with its keys in order of appearance. */
  ghost predicate Grouped<K(!new)>(keys: seq<K>, buckets: map<K, seq<Element>>, els: seq<Element>, matched: set<int>,
                             keyOf: Element -> Option<K>) {
    && (forall k :: k in keys <==> k in buckets)
    && (forall i, j | 0 <= i < j < |keys| :: keys[i] != keys[j])
    && (forall k | k in buckets :: buckets[k] == Having(els, matched, keyOf, k))
    && (forall k :: k !in buckets <==> Having(els, matched, keyOf, k) == [])
  }

  function Filed<K(==)>(buckets: map<K, seq<Element>>, k: K, e: Element): map<K, seq<Element>> {
    buckets[k := (if k in buckets then buckets[k] else []) + [e]]
  }

  lemma GroupedSkip<K(!new)>(keys: seq<K>, buckets: map<K, seq<Element>>, els: seq<Element>, i: nat, matched: set<int>,
                       keyOf: Element -> Option<K>)
    requires i < |els| && Grouped(keys, buckets, els[..i], matched, keyOf)
    requires els[i].id in matched || keyOf(els[i]).None?
    ensures Grouped(keys, buckets, els[..i + 1], matched, keyOf)
  {
    hide Having;
    HavingSnoc(els, i, matched, keyOf);
    assert forall k :: Having(els[..i + 1], matched, keyOf, k) == Having(els[..i], matched, keyOf, k);
  }

  lemma GroupedFile<K(!new)>(keys: seq<K>, buckets: map<K, seq<Element>>, els: seq<Element>, i: nat, matched: set<int>,
                       keyOf: Element -> Option<K>, k: K)
    requires i < |els| && Grouped(keys, buckets, els[..i], matched, keyOf)
    requires els[i].id !in matched && keyOf(els[i]) == Some(k)
    ensures Grouped(if k in buckets then keys else keys + [k], Filed(buckets, k, els[i]), els[..i + 1], matched, keyOf)
  {
    hide Having;
    HavingSnoc(els, i, matched, keyOf);
    var after := Filed(buckets, k, els[i]);
    assert Having(els[..i + 1], matched, keyOf, k) == Having(els[..i], matched, keyOf, k) + [els[i]];
    forall l | l != k ensures Having(els[..i + 1], matched, keyOf, l) == Having(els[..i], matched, keyOf, l) {}
    assert forall l :: l in after <==> l in buckets || l == k;
  }

  /** `_guid_map`, `_tag_buckets` and `_keymap`: setdefault(key, []).append(e) for each unmatched element. */
  method Buckets<K(==, !new)>(els: seq<Element>, matched: set<int>, keyOf: Element -> Option<K>)
    returns (keys: seq<K>, buckets: map<K, seq<Element>>)
    ensures Grouped(keys, buckets, els, matched, keyOf)
  {
    keys, buckets := [], map[];
    for i := 0 to |els|
      invariant Grouped(keys, buckets, els[..i], matched, keyOf)
    {
      hide Grouped, Having;
      var e, k := els[i], keyOf(els[i]);
      if e.id in matched || k.None? {
        GroupedSkip(keys, buckets, els, i, matched, keyOf);
      } else {
        GroupedFile(keys, buckets, els, i, matched, keyOf, k.value);
        if k.value !in buckets { keys := keys + [k.value]; }
        buckets := Filed(buckets, k.value, e);
      }
    }
    assert els[..|els|] == els;
  }

  lemma {:induction false} HavingMembers<K>(els: seq<Element>, matched: set<int>, keyOf: Element -> Option<K>, k: K)
    requires Model(els)
    ensures forall e :: e in Having(els, matched, keyOf, k) <==> e in els && e.id !in matched && keyOf(e) == Some(k)
    ensures Model(Having(els, matched, keyOf, k))
  {
    if els != [] {
      var n := |els| - 1;
      HavingMembers(els[..n], matched, keyOf, k);
      assert els == els[..n] + [els[n]];
      var rest := Having(els[..n], matched, keyOf, k);
      forall e | e in rest ensures e.id != els[n].id { var i :| 0 <= i < n && els[i] == e; }
    }
  }

  /** What the levels so far have left of a model. */
  function Left(els: seq<Element>, matched: set<int>): set<Element> { set e | e in els && e.id !in matched }

  lemma LeftIsDifference(els: seq<Element>, ends: set<Element>)
    requires Model(els) && ends <= Elements(els)
    ensures Left(els, Ids(ends)) == Elements(els) - ends
  {
    forall e | e in els ensures e.id in Ids(ends) <==> e in ends {
      if e.id in Ids(ends) {
        var x :| x in ends && x.id == e.id;
        SameIdSame(els, x, e);
      }
    }
  }

  // --------------------------------------------------------------------------- level one

  function GuidKey(e: Element): Option<string> { if Gid(e) == "" then None else Some(Gid(e)) }

  lemma {:induction false} FirstIndex(els: seq<Element>, g: string) returns (i: nat)
    requires g != "" && Having(els, {}, GuidKey, g) != []
    ensures i < |els| && els[i] == Having(els, {}, GuidKey, g)[0] && Gid(els[i]) == g
    ensures forall j | 0 <= j < i :: Gid(els[j]) != g
  {
    var n := |els| - 1;
    if Having(els[..n], {}, GuidKey, g) != [] {
      i := FirstIndex(els[..n], g);
    } else {
      i := n;
      NoneHas(els[..n], g);
      forall j | 0 <= j < n ensures Gid(els[j]) != g { assert els[..n][j] in els[..n]; }
    }
  }

  lemma {:induction false} NoneHas(els: seq<Element>, g: string)
    requires g != "" && Having(els, {}, GuidKey, g) == []
    ensures forall e | e in els :: Gid(e) != g
  {
    if els != [] { NoneHas(els[..|els| - 1], g); }
  }

  /** The first of the elements with a GlobalId. */
  lemma FirstOfBucket(els: seq<Element>, g: string)
    requires g != "" && Having(els, {}, GuidKey, g) != []
    ensures IsFirst(els, Having(els, {}, GuidKey, g)[0]) && Gid(Having(els, {}, GuidKey, g)[0]) == g
    ensures Having(els, {}, GuidKey, g)[0] in els
  {
    var i := FirstIndex(els, g);
  }

  lemma GuidPairOf(base: seq<Element>, target: seq<Element>, g: string)
    requires Model(base) && Model(target) && g != ""
    ensures var b, t := Having(base, {}, GuidKey, g), Having(target, {}, GuidKey, g);
      forall p :: (b != [] && t != [] && p == Pair(b[0], t[0], ByGuid)) <==>
        p in GuidPairs(base, target) && GuidKey(p.base) == Some(g)
  {
    var b, t := Having(base, {}, GuidKey, g), Having(target, {}, GuidKey, g);
    HavingMembers(base, {}, GuidKey, g);
    HavingMembers(target, {}, GuidKey, g);
    if b != [] { FirstOfBucket(base, g); }
    if t != [] { FirstOfBucket(target, g); }
    forall p | p in GuidPairs(base, target) && Gid(p.base) == g
      ensures b != [] && t != [] && p == Pair(b[0], t[0], ByGuid)
    {
      assert p.base in b && p.target in t;
      FirstIsUnique(base, p.base, b[0]);
      FirstIsUnique(target, p.target, t[0]);
    }
  }

  /** One round of the first level: the first elements of the two buckets become a pair, if both have one. */
  lemma GuidRound(base: seq<Element>, target: seq<Element>, keys: seq<string>, bg: map<string, seq<Element>>,
                  others: seq<string>, tg: map<string, seq<Element>>, i: nat, ps: seq<Pair>, mb: set<int>, mt: set<int>)
    requires Model(base) && Model(target) && i < |keys|
    requires Grouped(keys, bg, base, {}, GuidKey) && Grouped(others, tg, target, {}, GuidKey)
    requires Tracks(ps, mb, mt, {} + Done(GuidPairs(base, target), GuidKey, keys[..i]))
    ensures keys[i] in bg && bg[keys[i]] != [] && (keys[i] in tg ==> tg[keys[i]] != [])
    ensures keys[i] in tg ==>
      var p := Pair(bg[keys[i]][0], tg[keys[i]][0], ByGuid);
      Tracks(ps + [p], mb + {p.base.id}, mt + {p.target.id}, {} + Done(GuidPairs(base, target), GuidKey, keys[..i + 1]))
    ensures keys[i] !in tg ==> Tracks(ps, mb, mt, {} + Done(GuidPairs(base, target), GuidKey, keys[..i + 1]))
  {
    hide Matching, Having, Model, GuidPairs, Gid, Levels, Tracks, Done;
    var g, all := keys[i], GuidPairs(base, target);
    KeyIsReal(base, g);
    GuidPairOf(base, target, g);
    LevelsAreMatched(base, target);
    if g in tg {
      var p := Pair(bg[g][0], tg[g][0], ByGuid);
      var none: set<Pair> := {};
      assert forall q :: q == p <==> q in all && GuidKey(q.base) == Some(g);
      Visit(base, target, ps, mb, mt, none, all, GuidKey, keys, i, p);
    } else {
      VisitNothing(all, GuidKey, keys, i);
    }
  }

  method MatchByGuid(base: seq<Element>, target: seq<Element>) returns (pairs: seq<Pair>, mb: set<int>, mt: set<int>)
    requires Model(base) && Model(target)
    ensures Tracks(pairs, mb, mt, GuidPairs(base, target))
  {
    hide Matching, Having, Model, GuidPairs, Gid, Levels, Grouped;
    var keys, bg := Buckets(base, {}, GuidKey);
    var others, tg := Buckets(target, {}, GuidKey);
    pairs, mb, mt := [], {}, {};
    ghost var all := GuidPairs(base, target);
    GuidPairsHaveKeys(base, target);
    AllVisited(base, {}, GuidKey, keys, bg, all);
    assert {} + Done(all, GuidKey, keys[..0]) == {};
    for i := 0 to |keys|
      invariant Tracks(pairs, mb, mt, {} + Done(all, GuidKey, keys[..i]))
    {
      hide Tracks, Done;
      var g := keys[i];
      GuidRound(base, target, keys, bg, others, tg, i, pairs, mb, mt);
      if g in tg {
        var p := Pair(bg[g][0], tg[g][0], ByGuid);
        pairs, mb, mt := pairs + [p], mb + {p.base.id}, mt + {p.target.id};
      }
    }
    assert keys[..|keys|] == keys && {} + all == all;
  }

  lemma KeyIsReal(els: seq<Element>, g: string)
    requires Model(els) && Having(els, {}, GuidKey, g) != []
    ensures g != ""
  {
    HavingMembers(els, {}, GuidKey, g);
    assert Having(els, {}, GuidKey, g)[0] in Having(els, {}, GuidKey, g);
  }

  lemma GuidPairsHaveKeys(base: seq<Element>, target: seq<Element>)
    ensures forall p | p in GuidPairs(base, target) :: p.base in base && GuidKey(p.base).Some?
  {
  }

  lemma LevelsAreMatched(base: seq<Element>, target: seq<Element>)
    ensures var ls := Levels(base, target);
      GuidPairs(base, target) == ls.0 && ls.0 + ls.1 <= Matching(base, target) == ls.0 + ls.1 + ls.2
    ensures GuidPairs(base, target) <= Matching(base, target)
  {
  }

  /** Every pair's base element has been visited once all keys have. */
  lemma AllVisited<K(!new)>(base: seq<Element>, matched: set<int>, keyOf: Element -> Option<K>, keys: seq<K>,
                      buckets: map<K, seq<Element>>, all: set<Pair>)
    requires Model(base) && Grouped(keys, buckets, base, matched, keyOf)
    requires forall p | p in all :: p.base in base && p.base.id !in matched && keyOf(p.base).Some?
    ensures Done(all, keyOf, keys) == all
  {
    forall p | p in all ensures keyOf(p.base).value in keys {
      HavingMembers(base, matched, keyOf, keyOf(p.base).value);
      assert p.base in Having(base, matched, keyOf, keyOf(p.base).value);
    }
  }

  // --------------------------------------------------------------------------- level two

  function TagKey(e: Element): Option<(string, string)> {
    if Tag(e) == "" then None else Some((e.ifcType, Tag(e)))
  }

  lemma SingletonIsOnly(els: seq<Element>, matched: set<int>, e: Element, found: seq<Element>)
    requires Model(els) && Tag(e) != "" && found == Having(els, matched, TagKey, (e.ifcType, Tag(e)))
    ensures found == [e] <==> OnlyTag(Left(els, matched), e)
  {
    var k := (e.ifcType, Tag(e));
    HavingMembers(els, matched, TagKey, k);
    if OnlyTag(Left(els, matched), e) {
      assert e in found;
      forall i | 0 <= i < |found| ensures found[i] == e {
        assert found[i] in found;
        assert SameTag(found[i], e);
      }
      ModelSize(found);
      assert Elements(found) == {e};
    }
    if found == [e] {
      assert e in found;
      forall x | x in Left(els, matched) && SameTag(x, e) ensures x == e { assert x in found; }
    }
  }

  /** The one tag pair of a key, if both sides hold exactly one element with it. */
  lemma TagPairOf(base: seq<Element>, target: seq<Element>, mb: set<int>, mt: set<int>, k: (string, string))
    requires Model(base) && Model(target)
    ensures var b, t := Having(base, mb, TagKey, k), Having(target, mt, TagKey, k);
      forall p :: (|b| == 1 && |t| == 1 && p == Pair(b[0], t[0], ByTag)) <==>
        p in TagPairs(Left(base, mb), Left(target, mt)) && TagKey(p.base) == Some(k)
  {
    hide Model;
    var b, t := Having(base, mb, TagKey, k), Having(target, mt, TagKey, k);
    HavingMembers(base, mb, TagKey, k);
    HavingMembers(target, mt, TagKey, k);
    if |b| == 1 && |t| == 1 {
      assert b == [b[0]] && t == [t[0]] && b[0] in b && t[0] in t;
      SingletonIsOnly(base, mb, b[0], b);
      SingletonIsOnly(target, mt, t[0], t);
    }
    forall p | p in TagPairs(Left(base, mb), Left(target, mt)) && TagKey(p.base) == Some(k)
      ensures b == [p.base] && t == [p.target] && p.how == ByTag
    {
      SingletonIsOnly(base, mb, p.base, b);
      SingletonIsOnly(target, mt, p.target, t);
    }
  }

  method MatchByTag(base: seq<Element>, target: seq<Element>, pairs0: seq<Pair>, mb0: set<int>, mt0: set<int>,
                    ghost before: set<Pair>)
    returns (pairs: seq<Pair>, mb: set<int>, mt: set<int>)
    requires Model(base) && Model(target) && Tracks(pairs0, mb0, mt0, before)
    requires before + TagPairs(Left(base, mb0), Left(target, mt0)) <= Matching(base, target)
    requires forall p | p in before :: p.how == ByGuid
    ensures Tracks(pairs, mb, mt, before + TagPairs(Left(base, mb0), Left(target, mt0)))
  {
    hide Matching, Having, Model, OnlyTag;
    var keys, bt := Buckets(base, mb0, TagKey);
    var _, tt := Buckets(target, mt0, TagKey);
    pairs, mb, mt := pairs0, mb0, mt0;
    ghost var all := TagPairs(Left(base, mb0), Left(target, mt0));
    TagPairsHaveKeys(base, target, mb0, mt0);
    assert before + Done(all, TagKey, keys[..0]) == before;
    AllVisited(base, mb0, TagKey, keys, bt, all);
    for i := 0 to |keys|
      invariant Tracks(pairs, mb, mt, before + Done(all, TagKey, keys[..i]))
    {
      hide Tracks, Done;
      var k := keys[i];
      TagPairOf(base, target, mb0, mt0, k);
      if k in tt && |bt[k]| == 1 && |tt[k]| == 1 {
        var b, t := bt[k][0], tt[k][0];
        Visit(base, target, pairs, mb, mt, before, all, TagKey, keys, i, Pair(b, t, ByTag));
        if b.id !in mb && t.id !in mt {
          pairs, mb, mt := pairs + [Pair(b, t, ByTag)], mb + {b.id}, mt + {t.id};
        }
      } else {
        VisitNothing(all, TagKey, keys, i);
      }
    }
    assert keys[..|keys|] == keys;
  }

  lemma TagPairsHaveKeys(base: seq<Element>, target: seq<Element>, mb: set<int>, mt: set<int>)
    ensures forall p | p in TagPairs(Left(base, mb), Left(target, mt)) ::
      p.how == ByTag && p.base in base && p.base.id !in mb && TagKey(p.base).Some?
  {
  }

  // --------------------------------------------------------------------------- level three

  function LocationKey(e: Element): Option<string> { Some(Key(e)) }

  /** `e` put in its place, in stable order. */
  function Place(e: Element, s: seq<Element>): seq<Element> {
    if s == [] || Precedes(e, s[0]) then [e] + s else [s[0]] + Place(e, s[1..])
  }

  /** `sorted(bucket, key=_stable_key)`. */
  function Sorted(s: seq<Element>): seq<Element> {
    if s == [] then [] else Place(s[|s| - 1], Sorted(s[..|s| - 1]))
  }

  predicate InOrder(s: seq<Element>) { forall i, j | 0 <= i < j < |s| :: Precedes(s[i], s[j]) }

  lemma {:induction false} PlaceIsInOrder(e: Element, s: seq<Element>)
    requires InOrder(s) && forall x | x in s :: x.id != e.id
    ensures InOrder(Place(e, s)) && forall x :: x in Place(e, s) <==> x == e || x in s
  {
    if s == [] {
    } else if Precedes(e, s[0]) {
      forall j | 0 <= j < |s| ensures Precedes(e, s[j]) { PrecedesIsOrder(e, s[0], s[j]); }
    } else {
      assert s == [s[0]] + s[1..];
      PlaceIsInOrder(e, s[1..]);
      PrecedesIsOrder(s[0], e, e);
      forall x | x in Place(e, s[1..]) ensures Precedes(s[0], x) {
        if x != e { var i :| 0 <= i < |s[1..]| && s[1..][i] == x; assert s[i + 1] == x; }
      }
    }
  }

  lemma {:induction false} SortedIsInOrder(s: seq<Element>)
    requires forall i, j | 0 <= i < j < |s| :: s[i].id != s[j].id
    ensures InOrder(Sorted(s)) && forall x :: x in Sorted(s) <==> x in s
  {
    if s != [] {
      var n := |s| - 1;
      SortedIsInOrder(s[..n]);
      forall x | x in Sorted(s[..n]) ensures x.id != s[n].id { var i :| 0 <= i < n && s[..n][i] == x; }
      PlaceIsInOrder(s[n], Sorted(s[..n]));
      assert s == s[..n] + [s[n]];
    }
  }

  /** In a sorted bucket the index of an element is its rank. */
  lemma IndexIsRank(s: seq<Element>, i: nat)
    requires InOrder(s) && i < |s|
    ensures |Below(Elements(s), s[i])| == i
  {
    forall a, b | 0 <= a < b < |s| ensures s[a] != s[b] { PrecedesIsOrder(s[a], s[b], s[a]); }
    forall x | x in s ensures Precedes(x, s[i]) <==> x in s[..i] {
      var k :| 0 <= k < |s| && s[k] == x;
      PrecedesIsOrder(s[i], s[k], s[i]);
      if k < i { assert s[..i][k] == x; }
      if x in s[..i] { var j :| 0 <= j < i && s[..i][j] == x; }
    }
    assert Below(Elements(s), s[i]) == Elements(s[..i]);
    ModelSize(s[..i]);
  }

  /** The first `n` pairs of a zip. */
  function Zipped(a: seq<Element>, b: seq<Element>, n: nat): set<Pair>
    requires n <= |a| && n <= |b|
  {
    set j | 0 <= j < n :: Pair(a[j], b[j], ByLocation)
  }

  function Shorter(a: seq<Element>, b: seq<Element>): nat { if |a| < |b| then |a| else |b| }

  lemma SortedBucket(els: seq<Element>, matched: set<int>, k: string, s: seq<Element>)
    requires Model(els) && s == Sorted(Having(els, matched, LocationKey, k))
    ensures InOrder(s) && Elements(s) == Bucket(Left(els, matched), k)
    ensures forall i | 0 <= i < |s| :: s[i] in Left(els, matched) && Key(s[i]) == k && Rank(Left(els, matched), s[i]) == i
  {
    var found := Having(els, matched, LocationKey, k);
    HavingMembers(els, matched, LocationKey, k);
    SortedIsInOrder(found);
    assert Elements(s) == Bucket(Left(els, matched), k);
    forall i | 0 <= i < |s| ensures s[i] in Bucket(Left(els, matched), k) && |Below(Elements(s), s[i])| == i {
      assert s[i] in Elements(s);
      IndexIsRank(s, i);
    }
  }

  /** The location pairs of a key are the zip of its two sorted buckets. */
  lemma LocationPairsOf(base: seq<Element>, target: seq<Element>, mb: set<int>, mt: set<int>, k: string,
                        bs: seq<Element>, ts: seq<Element>)
    requires Model(base) && Model(target)
    requires bs == Sorted(Having(base, mb, LocationKey, k)) && ts == Sorted(Having(target, mt, LocationKey, k))
    ensures forall p :: p in Zipped(bs, ts, Shorter(bs, ts)) <==>
      p in LocationPairs(Left(base, mb), Left(target, mt)) && LocationKey(p.base) == Some(k)
    ensures forall i, j | 0 <= i < j < |bs| :: bs[i] != bs[j]
  {
    SortedBucket(base, mb, k, bs);
    SortedBucket(target, mt, k, ts);
    forall i, j | 0 <= i < j < |bs| ensures bs[i] != bs[j] { PrecedesIsOrder(bs[i], bs[j], bs[i]); }
    hide Model, Having, Sorted, InOrder, Rank, Precedes, Left, Key;
    forall p | p in LocationPairs(Left(base, mb), Left(target, mt)) && LocationKey(p.base) == Some(k)
      ensures p in Zipped(bs, ts, Shorter(bs, ts))
    {
      assert p.base in Elements(bs) && p.target in Elements(ts);
      var i :| 0 <= i < |bs| && bs[i] == p.base;
      var j :| 0 <= j < |ts| && ts[j] == p.target;
      assert i == j;
    }
  }

  method MatchByLocation(base: seq<Element>, target: seq<Element>, pairs0: seq<Pair>, mb0: set<int>, mt0: set<int>,
                         ghost before: set<Pair>)
    returns (pairs: seq<Pair>, mb: set<int>, mt: set<int>)
    requires Model(base) && Model(target) && Tracks(pairs0, mb0, mt0, before)
    requires before + LocationPairs(Left(base, mb0), Left(target, mt0)) <= Matching(base, target)
    requires forall p | p in before :: p.how != ByLocation
    ensures Tracks(pairs, mb, mt, before + LocationPairs(Left(base, mb0), Left(target, mt0)))
  {
    hide Matching, Having, Model, LocationPairs;
    var keys, bk := Buckets(base, mb0, LocationKey);
    var _, tk := Buckets(target, mt0, LocationKey);
    pairs, mb, mt := pairs0, mb0, mt0;
    ghost var all := LocationPairs(Left(base, mb0), Left(target, mt0));
    LocationPairsHaveKeys(base, target, mb0, mt0);
    AllVisited(base, mb0, LocationKey, keys, bk, all);
    assert before + Done(all, LocationKey, keys[..0]) == before;
    for i := 0 to |keys|
      invariant Tracks(pairs, mb, mt, before + Done(all, LocationKey, keys[..i]))
    {
      var k := keys[i];
      ghost var done := Done(all, LocationKey, keys[..i]);
      var bs, ts := Sorted(bk[k]), Sorted(if k in tk then tk[k] else []);
      LocationPairsOf(base, target, mb0, mt0, k, bs, ts);
      ghost var zip := Zipped(bs, ts, Shorter(bs, ts));
      assert keys[..i + 1] == keys[..i] + [k] && k !in keys[..i];
      DoneNext(all, LocationKey, keys[..i], k, zip);
      pairs, mb, mt := ZipPairs(base, target, bs, ts, pairs, mb, mt, before + done);
      assert before + done + zip == before + (done + zip);
    }
    assert keys[..|keys|] == keys;
  }

  /** One bucket: `zip(sorted(bes), sorted(tes))`. */
  method ZipPairs(base: seq<Element>, target: seq<Element>, bs: seq<Element>, ts: seq<Element>,
                  pairs0: seq<Pair>, mb0: set<int>, mt0: set<int>, ghost before: set<Pair>)
    returns (pairs: seq<Pair>, mb: set<int>, mt: set<int>)
    requires Model(base) && Model(target) && Tracks(pairs0, mb0, mt0, before)
    requires before + Zipped(bs, ts, Shorter(bs, ts)) <= Matching(base, target)
    requires before !! Zipped(bs, ts, Shorter(bs, ts))
    requires forall i, j | 0 <= i < j < |bs| :: bs[i] != bs[j]
    ensures Tracks(pairs, mb, mt, before + Zipped(bs, ts, Shorter(bs, ts)))
  {
    hide Matching, Model, Tracks;
    pairs, mb, mt := pairs0, mb0, mt0;
    assert before + Zipped(bs, ts, 0) == before;
    for i := 0 to Shorter(bs, ts)
      invariant Tracks(pairs, mb, mt, before + Zipped(bs, ts, i))
    {
      var b, t := bs[i], ts[i];
      ghost var p := Pair(b, t, ByLocation);
      assert p in Zipped(bs, ts, Shorter(bs, ts)) && p !in Zipped(bs, ts, i);
      assert Zipped(bs, ts, i) <= Zipped(bs, ts, Shorter(bs, ts));
      CanPair(base, target, pairs, mb, mt, before + Zipped(bs, ts, i), p);
      assert before + Zipped(bs, ts, i) + {p} == before + Zipped(bs, ts, i + 1);
      if !(b.id in mb || t.id in mt) {
        pairs, mb, mt := pairs + [Pair(b, t, ByLocation)], mb + {b.id}, mt + {t.id};
      }
    }
  }

  lemma LocationPairsHaveKeys(base: seq<Element>, target: seq<Element>, mb: set<int>, mt: set<int>)
    ensures forall p | p in LocationPairs(Left(base, mb), Left(target, mt)) ::
      p.how == ByLocation && p.base in base && p.base.id !in mb && LocationKey(p.base).Some?
  {
  }

  // --------------------------------------------------------------------------- the whole matching

  lemma LeftAfter(base: seq<Element>, target: seq<Element>, ps: seq<Pair>, mb: set<int>, mt: set<int>, expected: set<Pair>)
    requires Model(base) && Model(target) && Tracks(ps, mb, mt, expected) && expected <= Matching(base, target)
    ensures Left(base, mb) == Elements(base) - BasesOf(expected)
    ensures Left(target, mt) == Elements(target) - TargetsOf(expected)
  {
    hide Matching, Model, Left;
    MatchingIsOneToOne(base, target);
    IdsOfPairs(ps);
    LeftIsDifference(base, BasesOf(expected));
    LeftIsDifference(target, TargetsOf(expected));
  }

  lemma IdsOfPairs(ps: seq<Pair>)
    ensures BaseIds(ps) == Ids(BasesOf(AsSet(ps))) && TargetIds(ps) == Ids(TargetsOf(AsSet(ps)))
  {
    forall x | x in BaseIds(ps) ensures x in Ids(BasesOf(AsSet(ps))) {
      var p :| p in ps && p.base.id == x;
      assert p in AsSet(ps) && p.base in BasesOf(AsSet(ps));
    }
    forall x | x in TargetIds(ps) ensures x in Ids(TargetsOf(AsSet(ps))) {
      var p :| p in ps && p.target.id == x;
      assert p in AsSet(ps) && p.target in TargetsOf(AsSet(ps));
    }
  }

  lemma UnionEnds(ps: set<Pair>, qs: set<Pair>)
    ensures BasesOf(ps + qs) == BasesOf(ps) + BasesOf(qs) && TargetsOf(ps + qs) == TargetsOf(ps) + TargetsOf(qs)
  {
    forall e | e in BasesOf(ps) + BasesOf(qs) ensures e in BasesOf(ps + qs) {
      var p :| p in ps + qs && p.base == e;
    }
    forall e | e in TargetsOf(ps) + TargetsOf(qs) ensures e in TargetsOf(ps + qs) {
      var p :| p in ps + qs && p.target == e;
    }
  }

  lemma HowOfLevels(base: seq<Element>, target: seq<Element>)
    ensures var ls := Levels(base, target);
      (forall p | p in ls.0 :: p.how == ByGuid) && (forall p | p in ls.1 :: p.how == ByTag)
  {
  }

  /** The three levels in turn: the list holds exactly the matching, each pair once. */
  method Match(base: seq<Element>, target: seq<Element>) returns (pairs: seq<Pair>, mb: set<int>, mt: set<int>)
    requires Model(base) && Model(target)
    ensures Tracks(pairs, mb, mt, Matching(base, target))
  {
    hide Matching, Model, Tracks, GuidPairs, TagPairs, LocationPairs, Left;
    ghost var ls := Levels(base, target);
    LevelsAreMatched(base, target);
    HowOfLevels(base, target);
    UnionEnds(ls.0, ls.1);
    pairs, mb, mt := MatchByGuid(base, target);
    LeftAfter(base, target, pairs, mb, mt, ls.0);
    pairs, mb, mt := MatchByTag(base, target, pairs, mb, mt, ls.0);
    LeftAfter(base, target, pairs, mb, mt, ls.0 + ls.1);
    assert Left(base, mb) == Elements(base) - BasesOf(ls.0) - BasesOf(ls.1);
    assert Left(target, mt) == Elements(target) - TargetsOf(ls.0) - TargetsOf(ls.1);
    pairs, mb, mt := MatchByLocation(base, target, pairs, mb, mt, ls.0 + ls.1);
  }

  // --------------------------------------------------------------------------- the report

  /** All items of a diff: changed pairs, then removed, then added elements. */
  function Report(base: seq<Element>, target: seq<Element>, ps: seq<Pair>, mb: set<int>, mt: set<int>,
                  tolerance: real, geometry: bool): seq<Item>
  {
    AllPairItems(ps, tolerance, geometry) + Leftovers(base, mb, Removed) + Leftovers(target, mt, Added)
  }

  lemma {:induction false} CountConcat(a: seq<Item>, b: seq<Item>, change: Change)
    ensures CountItems(a + b, change) == CountItems(a, change) + CountItems(b, change)
  {
    if b == [] {
      assert a + b == a;
    } else {
      assert (a + b)[..|a + b| - 1] == a + b[..|b| - 1];
      CountConcat(a, b[..|b| - 1], change);
    }
  }

  lemma CountOne(items: seq<Item>, it: Item, change: Change)
    ensures CountItems(items + [it], change) == CountItems(items, change) + if it.change == change then 1 else 0
  {
    assert (items + [it])[..|items|] == items;
  }

  function MatchedIds(els: seq<Element>, matched: set<int>): set<int> { set e | e in els && e.id in matched :: e.id }

  lemma MatchedIdsSnoc(els: seq<Element>, matched: set<int>)
    requires els != [] && forall i, j | 0 <= i < j < |els| :: els[i].id != els[j].id
    ensures var n, e := |els| - 1, els[|els| - 1];
      |MatchedIds(els, matched)| == |MatchedIds(els[..n], matched)| + if e.id in matched then 1 else 0
  {
    var n, e := |els| - 1, els[|els| - 1];
    assert els == els[..n] + [e];
    assert e.id !in MatchedIds(els[..n], matched);
    assert MatchedIds(els, matched) == MatchedIds(els[..n], matched) + if e.id in matched then {e.id} else {};
  }

  lemma {:induction false} LeftoverCount(els: seq<Element>, matched: set<int>, change: Change, other: Change)
    requires forall i, j | 0 <= i < j < |els| :: els[i].id != els[j].id
    ensures CountItems(Leftovers(els, matched, change), other) ==
      if other == change then |els| - |MatchedIds(els, matched)| else 0
  {
    hide MatchedIds, CountItems;
    if els == [] {
      assert MatchedIds(els, matched) == {} && CountItems([], other) == 0 by { EmptyCounts(matched, other); }
    } else {
      var n, e := |els| - 1, els[|els| - 1];
      LeftoverCount(els[..n], matched, change, other);
      MatchedIdsSnoc(els, matched);
      if e.id in matched {
        assert Leftovers(els, matched, change) == Leftovers(els[..n], matched, change);
      } else {
        CountOne(Leftovers(els[..n], matched, change), Item(change, e.guid, e.ifcType, e.name, None), other);
      }
    }
  }

  lemma EmptyCounts(matched: set<int>, change: Change)
    ensures MatchedIds([], matched) == {} && CountItems([], change) == 0
  {
  }

  lemma PairItemChanges(p: Pair, tolerance: real, geometry: bool)
    ensures forall it | it in PairItems(p, tolerance, geometry) :: it.change != Added && it.change != Removed
  {
    hide Delta, Differ;
  }

  lemma {:induction false} PairItemsAreChanges(ps: seq<Pair>, tolerance: real, geometry: bool, change: Change)
    requires change == Added || change == Removed
    ensures CountItems(AllPairItems(ps, tolerance, geometry), change) == 0
  {
    hide PairItems;
    if ps != [] {
      var front, last := ps[..|ps| - 1], PairItems(ps[|ps| - 1], tolerance, geometry);
      PairItemsAreChanges(front, tolerance, geometry, change);
      CountConcat(AllPairItems(front, tolerance, geometry), last, change);
      PairItemChanges(ps[|ps| - 1], tolerance, geometry);
      NoneCounted(last, change);
    }
  }

  lemma {:induction false} NoneCounted(items: seq<Item>, change: Change)
    requires forall it | it in items :: it.change != change
    ensures CountItems(items, change) == 0
  {
    if items != [] {
      assert items[|items| - 1] in items;
      NoneCounted(items[..|items| - 1], change);
    }
  }

  /** Main result: every element is matched or reported once, and nothing else is reported missing. */
  lemma NothingIsLost(base: seq<Element>, target: seq<Element>, ps: seq<Pair>, mb: set<int>, mt: set<int>,
                      tolerance: real, geometry: bool)
    requires Model(base) && Model(target) && Tracks(ps, mb, mt, Matching(base, target))
    ensures var items := Report(base, target, ps, mb, mt, tolerance, geometry);
      |base| == |ps| + CountItems(items, Removed) && |target| == |ps| + CountItems(items, Added)
  {
    hide Matching, AllPairItems, Leftovers, CountItems;
    var a, b, c := AllPairItems(ps, tolerance, geometry), Leftovers(base, mb, Removed), Leftovers(target, mt, Added);
    forall change | change == Removed || change == Added
      ensures CountItems(a + b + c, change) == CountItems(b, change) + CountItems(c, change)
    {
      CountConcat(a + b, c, change);
      CountConcat(a, b, change);
      PairItemsAreChanges(ps, tolerance, geometry, change);
    }
    LeftoverCount(base, mb, Removed, Removed);
    LeftoverCount(base, mb, Removed, Added);
    LeftoverCount(target, mt, Added, Removed);
    LeftoverCount(target, mt, Added, Added);
    AllMatchedIds(base, target, ps, mb, mt);
  }

  lemma AllMatchedIds(base: seq<Element>, target: seq<Element>, ps: seq<Pair>, mb: set<int>, mt: set<int>)
    requires Model(base) && Model(target) && Tracks(ps, mb, mt, Matching(base, target))
    ensures MatchedIds(base, mb) == mb && MatchedIds(target, mt) == mt
  {
    hide Matching, Model;
    MatchingIsOneToOne(base, target);
    forall p | p in ps ensures p.base in base && p.target in target { assert p in AsSet(ps); }
  }

  lemma {:induction false} CountsAddUp(items: seq<Item>)
    ensures CountItems(items, Added) + CountItems(items, Removed) + CountItems(items, Moved)
      + CountItems(items, GeometryChanged) + CountItems(items, PropertyChanged) == |items|
  {
    if items != [] { CountsAddUp(items[..|items| - 1]); }
  }

  method CountChanges(items: seq<Item>) returns (counts: map<Change, nat>)
    ensures forall c :: c in counts <==> exists it :: it in items && it.change == c
    ensures forall c | c in counts :: counts[c] == CountItems(items, c)
  {
    counts := map[];
    for i := 0 to |items|
      invariant forall c :: c in counts <==> exists it :: it in items[..i] && it.change == c
      invariant forall c :: CountItems(items[..i], c) == if c in counts then counts[c] else 0
    {
      assert items[..i + 1] == items[..i] + [items[i]] && items[..i + 1][..i] == items[..i];
      var c := items[i].change;
      counts := counts[c := (if c in counts then counts[c] else 0) + 1];
    }
    assert items[..|items|] == items;
  }

  // --------------------------------------------------------------------------- what is reported of a pair

  /** Both elements are placed, and some coordinate differs by more than the tolerance. */
  predicate HasMoved(p: Pair, tolerance: real) {
    && p.base.xyz.Some? && p.target.xyz.Some?
    && var (a, b) := (p.base.xyz.value, p.target.xyz.value);
    || a.0 - b.0 > tolerance || b.0 - a.0 > tolerance
    || a.1 - b.1 > tolerance || b.1 - a.1 > tolerance
    || a.2 - b.2 > tolerance || b.2 - a.2 > tolerance
  }

  /** Both hashes are known, and they are different. */
  predicate HaveChanged(a: Option<string>, b: Option<string>) {
    a.Some? && b.Some? && a.value != "" && b.value != "" && a.value != b.value
  }

  /** The pair shows this change. */
  predicate Undergoes(p: Pair, change: Change, tolerance: real, geometry: bool) {
    match change
    case Moved => HasMoved(p, tolerance)
    case PropertyChanged => HaveChanged(p.base.psets, p.target.psets)
    case GeometryChanged => geometry && HaveChanged(p.base.shape, p.target.shape)
    case _ => false
  }

  /** The item tells of this change of the pair: as the target has it, but for a GlobalId only the base has. */
  predicate TellsOf(it: Item, p: Pair, change: Change) {
    && it.change == change && it.ifcType == p.target.ifcType && it.name == p.target.name && it.how == Some(p.how)
    && it.guid == if p.target.guid.Some? && p.target.guid.value != "" then p.target.guid else p.base.guid
  }

  lemma DeltaExceeds(p: Pair, tolerance: real)
    ensures HasMoved(p, tolerance) <==>
      p.base.xyz.Some? && p.target.xyz.Some? && Delta(p.base.xyz.value, p.target.xyz.value) > tolerance
  {
  }

  lemma DifferMeans(a: Option<string>, b: Option<string>)
    ensures HaveChanged(a, b) <==> Differ(a, b)
  {
  }

  /** At most one item, of the given change. */
  function Maybe(says: bool, it: Item): seq<Item> { if says then [it] else [] }

  lemma CountMaybe(says: bool, it: Item, change: Change)
    ensures CountItems(Maybe(says, it), change) == if says && it.change == change then 1 else 0
  {
    assert [it][..0] == [];
    assert CountItems([], change) == 0;
  }

  lemma PairItemsAre(p: Pair, tolerance: real, geometry: bool) returns (moved: Item, property: Item, shape: Item)
    ensures TellsOf(moved, p, Moved) && TellsOf(property, p, PropertyChanged) && TellsOf(shape, p, GeometryChanged)
    ensures PairItems(p, tolerance, geometry) ==
      Maybe(Undergoes(p, Moved, tolerance, geometry), moved)
      + Maybe(Undergoes(p, PropertyChanged, tolerance, geometry), property)
      + Maybe(Undergoes(p, GeometryChanged, tolerance, geometry), shape)
  {
    hide Delta, HasMoved, Differ, HaveChanged;
    DeltaExceeds(p, tolerance);
    DifferMeans(p.base.psets, p.target.psets);
    DifferMeans(p.base.shape, p.target.shape);
    var guid := if p.target.guid.Some? && p.target.guid.value != "" then p.target.guid else p.base.guid;
    moved := Item(Moved, guid, p.target.ifcType, p.target.name, Some(p.how));
    property := Item(PropertyChanged, guid, p.target.ifcType, p.target.name, Some(p.how));
    shape := Item(GeometryChanged, guid, p.target.ifcType, p.target.name, Some(p.how));
  }

  lemma MaybeTold(says: bool, it: Item, p: Pair, change: Change, asked: Change)
    requires TellsOf(it, p, change)
    ensures forall x :: x in Maybe(says, it) && x.change == asked <==> says && change == asked && TellsOf(x, p, asked)
    ensures CountItems(Maybe(says, it), asked) == if says && change == asked then 1 else 0
  {
    CountMaybe(says, it, asked);
    forall x | TellsOf(x, p, change) ensures x == it { }
  }

  lemma OnlyChanges(p: Pair, change: Change, tolerance: real, geometry: bool)
    ensures Undergoes(p, change, tolerance, geometry) ==> change in {Moved, PropertyChanged, GeometryChanged}
  {
  }

  lemma OnePairItems(p: Pair, tolerance: real, geometry: bool, change: Change)
    ensures var items := PairItems(p, tolerance, geometry);
      && (forall it :: it in items && it.change == change <==> Undergoes(p, change, tolerance, geometry) && TellsOf(it, p, change))
      && CountItems(items, change) == (if Undergoes(p, change, tolerance, geometry) then 1 else 0)
  {
    hide PairItems, Undergoes, TellsOf, CountItems, Maybe;
    var moved, property, shape := PairItemsAre(p, tolerance, geometry);
    var a, b := Maybe(Undergoes(p, Moved, tolerance, geometry), moved), Maybe(Undergoes(p, PropertyChanged, tolerance, geometry), property);
    var c := Maybe(Undergoes(p, GeometryChanged, tolerance, geometry), shape);
    CountConcat(a + b, c, change);
    CountConcat(a, b, change);
    MaybeTold(Undergoes(p, Moved, tolerance, geometry), moved, p, Moved, change);
    MaybeTold(Undergoes(p, PropertyChanged, tolerance, geometry), property, p, PropertyChanged, change);
    MaybeTold(Undergoes(p, GeometryChanged, tolerance, geometry), shape, p, GeometryChanged, change);
    OnlyChanges(p, change, tolerance, geometry);
  }

  /** The pairs that undergo a change, out of those listed. */
  function Changed(ps: seq<Pair>, change: Change, tolerance: real, geometry: bool): set<Pair> {
    set p | p in ps && Undergoes(p, change, tolerance, geometry)
  }

  /** Each change of each pair is told once, and nothing else is. */
  lemma {:induction false} AllPairsTold(ps: seq<Pair>, tolerance: real, geometry: bool, change: Change)
    requires forall i, j | 0 <= i < j < |ps| :: ps[i] != ps[j]
    ensures var items := AllPairItems(ps, tolerance, geometry);
      && (forall it :: it in items && it.change == change <==>
            exists p :: p in ps && Undergoes(p, change, tolerance, geometry) && TellsOf(it, p, change))
      && CountItems(items, change) == |Changed(ps, change, tolerance, geometry)|
  {
    hide PairItems, Undergoes, TellsOf;
    if ps == [] {
      assert Changed(ps, change, tolerance, geometry) == {} && CountItems([], change) == 0;
    } else {
      var front, last := ps[..|ps| - 1], ps[|ps| - 1];
      AllPairsTold(front, tolerance, geometry, change);
      OnePairItems(last, tolerance, geometry, change);
      CountConcat(AllPairItems(front, tolerance, geometry), PairItems(last, tolerance, geometry), change);
      assert ps == front + [last];
      ChangedSnoc(front, last, change, tolerance, geometry);
    }
  }

  lemma ChangedSnoc(front: seq<Pair>, last: Pair, change: Change, tolerance: real, geometry: bool)
    requires last !in front
    ensures |Changed(front + [last], change, tolerance, geometry)| ==
      |Changed(front, change, tolerance, geometry)| + if Undergoes(last, change, tolerance, geometry) then 1 else 0
  {
    hide Undergoes;
    assert Changed(front + [last], change, tolerance, geometry) ==
      Changed(front, change, tolerance, geometry) + if Undergoes(last, change, tolerance, geometry) then {last} else {};
  }

  // --------------------------------------------------------------------------- what is reported of the rest

  predicate TellsOfElement(it: Item, e: Element, change: Change) {
    it.change == change && it.guid == e.guid && it.ifcType == e.ifcType && it.name == e.name && it.how == None
  }

  lemma {:induction false} LeftoversTold(els: seq<Element>, matched: set<int>, change: Change)
    ensures forall it :: it in Leftovers(els, matched, change) <==>
      exists e :: e in els && e.id !in matched && TellsOfElement(it, e, change)
  {
    hide TellsOfElement;
    if els != [] {
      var front, last := els[..|els| - 1], els[|els| - 1];
      LeftoversTold(front, matched, change);
      assert els == front + [last];
      LastTold(last, change);
    }
  }

  lemma LastTold(e: Element, change: Change)
    ensures forall it :: TellsOfElement(it, e, change) <==> it == Item(change, e.guid, e.ifcType, e.name, None)
  {
  }

  /** The unmatched elements are told of in their own order. */
  lemma {:induction false} LeftoversInOrder(els: seq<Element>, matched: set<int>, change: Change, i: nat, j: nat)
    requires i < j < |Leftovers(els, matched, change)|
    ensures exists x, y ::
      && 0 <= x < y < |els| && els[x].id !in matched && els[y].id !in matched
      && TellsOfElement(Leftovers(els, matched, change)[i], els[x], change)
      && TellsOfElement(Leftovers(els, matched, change)[j], els[y], change)
  {
    var n := |els| - 1;
    var front := Leftovers(els[..n], matched, change);
    if j < |front| {
      LeftoversInOrder(els[..n], matched, change, i, j);
      var x, y :| 0 <= x < y < n && els[..n][x].id !in matched && els[..n][y].id !in matched
        && TellsOfElement(front[i], els[..n][x], change) && TellsOfElement(front[j], els[..n][y], change);
      assert els[x] == els[..n][x] && els[y] == els[..n][y];
    } else {
      LeftoversTold(els[..n], matched, change);
      assert front[i] in front;
      var e :| e in els[..n] && e.id !in matched && TellsOfElement(front[i], e, change);
      var x :| 0 <= x < n && els[x] == e;
      assert TellsOfElement(Leftovers(els, matched, change)[j], els[n], change);
    }
  }

  /** The report is in three parts: changed pairs, then removed, then added elements. */
  lemma ReportInParts(base: seq<Element>, target: seq<Element>, ps: seq<Pair>, mb: set<int>, mt: set<int>,
                      tolerance: real, geometry: bool, i: nat, j: nat)
    requires i < j < |Report(base, target, ps, mb, mt, tolerance, geometry)|
    ensures var items := Report(base, target, ps, mb, mt, tolerance, geometry);
      && (items[i].change == Added ==> items[j].change == Added)
      && (items[i].change == Removed ==> items[j].change in {Removed, Added})
  {
    hide Leftovers, AllPairItems;
    var a, b, c := AllPairItems(ps, tolerance, geometry), Leftovers(base, mb, Removed), Leftovers(target, mt, Added);
    var items := Report(base, target, ps, mb, mt, tolerance, geometry);
    assert items == a + b + c;
    PartChanges(base, target, ps, mb, mt, tolerance, geometry);
    assert items[i] == if i < |a| then a[i] else if i < |a| + |b| then b[i - |a|] else c[i - |a| - |b|];
    assert items[j] == if j < |a| then a[j] else if j < |a| + |b| then b[j - |a|] else c[j - |a| - |b|];
  }

  lemma PartChanges(base: seq<Element>, target: seq<Element>, ps: seq<Pair>, mb: set<int>, mt: set<int>,
                    tolerance: real, geometry: bool)
    ensures forall it | it in AllPairItems(ps, tolerance, geometry) :: it.change in {Moved, PropertyChanged, GeometryChanged}
    ensures forall it | it in Leftovers(base, mb, Removed) :: it.change == Removed
    ensures forall it | it in Leftovers(target, mt, Added) :: it.change == Added
  {
    hide PairItems, CountItems;
    PairItemsAreChanges(ps, tolerance, geometry, Added);
    PairItemsAreChanges(ps, tolerance, geometry, Removed);
    forall it | it in AllPairItems(ps, tolerance, geometry) ensures it.change in {Moved, PropertyChanged, GeometryChanged} {
      if it.change == Added || it.change == Removed { Counted(AllPairItems(ps, tolerance, geometry), it); }
    }
    LeftoversTold(base, mb, Removed);
    LeftoversTold(target, mt, Added);
  }

  lemma {:induction false} Counted(items: seq<Item>, it: Item)
    requires it in items
    ensures CountItems(items, it.change) > 0
  {
    if items[|items| - 1].change != it.change { Counted(items[..|items| - 1], it); }
  }

  /** The pairs of the matching that undergo a change. */
  ghost function PairsThat(base: seq<Element>, target: seq<Element>, change: Change, tolerance: real, geometry: bool): set<Pair> {
    set p | p in Matching(base, target) && Undergoes(p, change, tolerance, geometry)
  }

  /** The item tells of a change of a matched pair, or of an element of no pair. */
  ghost predicate IsTold(it: Item, base: seq<Element>, target: seq<Element>, tolerance: real, geometry: bool) {
    match it.change
    case Removed => exists e :: e in base && (forall p | p in Matching(base, target) :: p.base != e) && TellsOfElement(it, e, Removed)
    case Added => exists e :: e in target && (forall p | p in Matching(base, target) :: p.target != e) && TellsOfElement(it, e, Added)
    case _ => exists p :: p in PairsThat(base, target, it.change, tolerance, geometry) && TellsOf(it, p, it.change)
  }

  /**
   What a diff reports, in the elements' own terms: each change of each matched pair once, each base element of no
   pair as removed and each target element of no pair as added, and nothing else.
   */
  lemma ReportTold(base: seq<Element>, target: seq<Element>, ps: seq<Pair>, mb: set<int>, mt: set<int>,
                   tolerance: real, geometry: bool, it: Item)
    requires Model(base) && Model(target) && Tracks(ps, mb, mt, Matching(base, target))
    requires forall i, j | 0 <= i < j < |ps| :: ps[i] != ps[j]
    ensures it in Report(base, target, ps, mb, mt, tolerance, geometry) <==> IsTold(it, base, target, tolerance, geometry)
    ensures it.change in {Moved, PropertyChanged, GeometryChanged} ==>
      CountItems(Report(base, target, ps, mb, mt, tolerance, geometry), it.change) == |PairsThat(base, target, it.change, tolerance, geometry)|
  {
    hide Matching, Model, AllPairItems, Leftovers, CountItems, Undergoes, TellsOf, TellsOfElement;
    var a, b, c := AllPairItems(ps, tolerance, geometry), Leftovers(base, mb, Removed), Leftovers(target, mt, Added);
    CountConcat(a + b, c, it.change);
    CountConcat(a, b, it.change);
    PartChanges(base, target, ps, mb, mt, tolerance, geometry);
    AllPairsTold(ps, tolerance, geometry, it.change);
    LeftoversTold(base, mb, Removed);
    LeftoversTold(target, mt, Added);
    UnmatchedEnds(base, target, ps, mb, mt);
    assert Changed(ps, it.change, tolerance, geometry) == PairsThat(base, target, it.change, tolerance, geometry) by {
      forall p ensures p in ps <==> p in Matching(base, target) { assert p in ps <==> p in AsSet(ps); }
    }
    if it.change in {Moved, PropertyChanged, GeometryChanged} {
      NoneCounted(b, it.change);
      NoneCounted(c, it.change);
      ChangedAreThese(ps, it, tolerance, geometry);
    }
  }

  lemma ChangedAreThese(ps: seq<Pair>, it: Item, tolerance: real, geometry: bool)
    ensures (exists p :: p in ps && Undergoes(p, it.change, tolerance, geometry) && TellsOf(it, p, it.change)) <==>
      exists p :: p in Changed(ps, it.change, tolerance, geometry) && TellsOf(it, p, it.change)
  {
    hide Undergoes, TellsOf;
  }

  lemma UnmatchedEnds(base: seq<Element>, target: seq<Element>, ps: seq<Pair>, mb: set<int>, mt: set<int>)
    requires Model(base) && Model(target) && Tracks(ps, mb, mt, Matching(base, target))
    ensures forall e | e in base :: e.id !in mb <==> forall p | p in Matching(base, target) :: p.base != e
    ensures forall e | e in target :: e.id !in mt <==> forall p | p in Matching(base, target) :: p.target != e
  {
    hide Matching, Model;
    MatchingIsOneToOne(base, target);
    forall p | p in ps ensures p.base in base && p.target in target { assert p in AsSet(ps); }
    forall e | e in base ensures e.id !in mb <==> forall p | p in Matching(base, target) :: p.base != e {
      if e.id in mb {
        var p :| p in ps && p.base.id == e.id;
        SameIdSame(base, p.base, e);
        assert p in AsSet(ps);
      }
    }
    forall e | e in target ensures e.id !in mt <==> forall p | p in Matching(base, target) :: p.target != e {
      if e.id in mt {
        var p :| p in ps && p.target.id == e.id;
        SameIdSame(target, p.target, e);
        assert p in AsSet(ps);
      }
    }
  }

  /** `run_diff`. */
  method RunDiff(base: seq<Element>, target: seq<Element>, tolerance: real, geometry: bool)
    returns (result: DiffResult, ghost pairs: seq<Pair>)
    requires Model(base) && Model(target)
    ensures AsSet(pairs) == Matching(base, target) && |pairs| == |Matching(base, target)| == result.matched
    ensures result.baseCount == |base| && result.targetCount == |target|
    ensures result.items == Report(base, target, pairs, BaseIds(pairs), TargetIds(pairs), tolerance, geometry)
    ensures result.baseCount == result.matched + CountItems(result.items, Removed)
    ensures result.targetCount == result.matched + CountItems(result.items, Added)
    ensures forall c :: CountItems(result.items, c) == if c in result.counts then result.counts[c] else 0
    ensures forall it :: it in result.items <==> IsTold(it, base, target, tolerance, geometry)
    ensures forall c | c in {Moved, PropertyChanged, GeometryChanged} ::
      (if c in result.counts then result.counts[c] else 0) == |PairsThat(base, target, c, tolerance, geometry)|
  {
    hide Matching, Model, Leftovers, CountItems, IsTold, PairsThat;
    var ps, mb, mt := Match(base, target);
    pairs := ps;
    PairsAreCounted(base, target, ps, mb, mt);
    var items: seq<Item> := [];
    for i := 0 to |ps|
      invariant items == AllPairItems(ps[..i], tolerance, geometry)
    {
      assert ps[..i + 1][..i] == ps[..i];
      items := items + PairItems(ps[i], tolerance, geometry);
    }
    assert ps[..|ps|] == ps;
    var removed := ReportLeftovers(base, mb, Removed);
    var added := ReportLeftovers(target, mt, Added);
    items := items + removed + added;
    NothingIsLost(base, target, ps, mb, mt, tolerance, geometry);
    var counts := CountChanges(items);
    forall c | c !in counts ensures CountItems(items, c) == 0 { NoneCounted(items, c); }
    ReportIsTold(base, target, ps, mb, mt, tolerance, geometry);
    result := DiffResult(|base|, |target|, |ps|, counts, items);
  }

  lemma ReportIsTold(base: seq<Element>, target: seq<Element>, ps: seq<Pair>, mb: set<int>, mt: set<int>,
                     tolerance: real, geometry: bool)
    requires Model(base) && Model(target) && Tracks(ps, mb, mt, Matching(base, target))
    ensures var items := Report(base, target, ps, mb, mt, tolerance, geometry);
      && (forall it :: it in items <==> IsTold(it, base, target, tolerance, geometry))
      && forall c | c in {Moved, PropertyChanged, GeometryChanged} ::
           CountItems(items, c) == |PairsThat(base, target, c, tolerance, geometry)|
  {
    hide Matching, Model, CountItems, IsTold, PairsThat, Report;
    DistinctPairs(ps);
    forall it: Item { ReportTold(base, target, ps, mb, mt, tolerance, geometry, it); }
    forall c | c in {Moved, PropertyChanged, GeometryChanged}
      ensures CountItems(Report(base, target, ps, mb, mt, tolerance, geometry), c) == |PairsThat(base, target, c, tolerance, geometry)|
    {
      ReportTold(base, target, ps, mb, mt, tolerance, geometry, Item(c, None, "", None, None));
    }
  }

  lemma PairsAreCounted(base: seq<Element>, target: seq<Element>, ps: seq<Pair>, mb: set<int>, mt: set<int>)
    requires Model(base) && Model(target) && Tracks(ps, mb, mt, Matching(base, target))
    ensures |ps| == |Matching(base, target)|
  {
    hide Matching;
    MatchingIsOneToOne(base, target);
    var all := Matching(base, target);
    DistinctPairs(ps);
    ListSize(ps);
  }

  /** As many different base ids as pairs: no pair is listed twice. */
  lemma {:induction false} DistinctPairs(ps: seq<Pair>)
    requires |BaseIds(ps)| == |ps|
    ensures forall i, j | 0 <= i < j < |ps| :: ps[i] != ps[j]
  {
    hide BaseIds;
    if ps != [] {
      var n := |ps| - 1;
      BaseIdsAtMost(ps[..n]);
      BaseIdsSnoc(ps);
      DistinctPairs(ps[..n]);
      forall i | 0 <= i < n ensures ps[i] != ps[n] { BaseIdAt(ps[..n], i); }
    }
  }

  lemma BaseIdsSnoc(ps: seq<Pair>)
    requires ps != []
    ensures BaseIds(ps) == BaseIds(ps[..|ps| - 1]) + {ps[|ps| - 1].base.id}
  {
    assert ps == ps[..|ps| - 1] + [ps[|ps| - 1]];
  }

  lemma BaseIdAt(ps: seq<Pair>, i: nat)
    requires i < |ps|
    ensures ps[i].base.id in BaseIds(ps)
  {
  }

  lemma {:induction false} BaseIdsAtMost(ps: seq<Pair>)
    ensures |BaseIds(ps)| <= |ps|
  {
    hide BaseIds;
    if ps != [] {
      BaseIdsAtMost(ps[..|ps| - 1]);
      BaseIdsSnoc(ps);
    } else {
      NoBaseIds();
    }
  }

  lemma NoBaseIds()
    ensures |BaseIds([])| == 0
  {
  }

  lemma {:induction false} ListSize(ps: seq<Pair>)
    requires forall i, j | 0 <= i < j < |ps| :: ps[i] != ps[j]
    ensures |AsSet(ps)| == |ps|
  {
    if ps != [] {
      var n := |ps| - 1;
      ListSize(ps[..n]);
      assert AsSet(ps) == AsSet(ps[..n]) + {ps[n]};
      assert ps[n] !in ps[..n];
    }
  }

  method ReportLeftovers(els: seq<Element>, matched: set<int>, change: Change) returns (items: seq<Item>)
    ensures items == Leftovers(els, matched, change)
  {
    items := [];
    for i := 0 to |els|
      invariant items == Leftovers(els[..i], matched, change)
    {
      assert els[..i + 1][..i] == els[..i];
      if els[i].id !in matched { items := items + [Item(change, els[i].guid, els[i].ifcType, els[i].name, None)]; }
    }
    assert els[..|els|] == els;
  }

  lemma {:induction false} NothingLeft(els: seq<Element>, matched: set<int>, change: Change)
    requires forall e | e in els :: e.id in matched
    ensures Leftovers(els, matched, change) == []
  {
    if els != [] {
      assert els[|els| - 1] in els;
      NothingLeft(els[..|els| - 1], matched, change);
    }
  }

  lemma {:induction false} UnchangedPairs(ps: seq<Pair>, tolerance: real, geometry: bool)
    requires tolerance >= 0.0 && forall p | p in ps :: p.base == p.target
    ensures AllPairItems(ps, tolerance, geometry) == []
  {
    if ps != [] {
      assert ps[|ps| - 1] in ps;
      UnchangedPairs(ps[..|ps| - 1], tolerance, geometry);
    }
  }

  /** Main result: a model differs from itself in nothing, GlobalIds missing or repeated or not. */
  lemma SelfDiffReportsNothing(els: seq<Element>, ps: seq<Pair>, mb: set<int>, mt: set<int>, tolerance: real, geometry: bool)
    requires Model(els) && tolerance >= 0.0 && Tracks(ps, mb, mt, Matching(els, els))
    ensures Report(els, els, ps, mb, mt, tolerance, geometry) == [] && |ps| == |els|
  {
    hide Matching, Model;
    SelfMatchingIsIdentity(els);
    forall p | p in ps ensures p.base == p.target { assert p in AsSet(ps); }
    forall e | e in els ensures e.id in mb && e.id in mt {
      var p :| p in AsSet(ps) && p.base == e && p.target == e;
    }
    UnchangedPairs(ps, tolerance, geometry);
    NothingLeft(els, mb, Removed);
    NothingLeft(els, mt, Added);
    NothingIsLost(els, els, ps, mb, mt, tolerance, geometry);
  }
}
