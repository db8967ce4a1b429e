/** The spatial tree: a traversal of a decomposition graph, possibly cyclic, with one shared set of seen elements. */
module SpatialTree {
  import opened Options

  type Id = nat

  /** An element: its class, the classes of what it contains, and what it decomposes into, relation by relation. */
  datatype Element = Element(kind: string, spatial: bool, contains: seq<seq<string>>, parts: seq<seq<Id>>)

  /** A model is closed: relations name elements of the model. */
  type Model = g: map<Id, Element> | forall n, i, k ::
    n in g && 0 <= i < |g[n].parts| && 0 <= k < |g[n].parts[i]| ==> g[n].parts[i][k] in g

  datatype Tree = Node(id: Id, typeCounts: map<string, nat>, children: seq<Tree>)

  // ----- the graph -----

  /** The spatial elements of one relation, in order. */
  function SpatialOf(g: Model, ids: seq<Id>): (r: seq<Id>)
    requires forall i | i in ids :: i in g
    ensures forall i | i in r :: i in g && g[i].spatial
  {
    if ids == [] then [] else
      var before := SpatialOf(g, ids[..|ids| - 1]);
      if g[ids[|ids| - 1]].spatial then before + [ids[|ids| - 1]] else before
  }

  predicate AllIn(g: Model, relations: seq<seq<Id>>) {
    forall i, k :: 0 <= i < |relations| && 0 <= k < |relations[i]| ==> relations[i][k] in g
  }

  function SpatialParts(g: Model, relations: seq<seq<Id>>): (r: seq<Id>)
    requires AllIn(g, relations)
    ensures forall i | i in r :: i in g && g[i].spatial
  {
    if relations == [] then [] else
      SpatialParts(g, relations[..|relations| - 1]) + SpatialOf(g, relations[|relations| - 1])
  }

  /** The spatial elements a node decomposes into: the edges of the graph. */
  function Edges(g: Model, n: Id): (r: seq<Id>)
    requires n in g
    ensures forall i | i in r :: i in g && g[i].spatial
  {
    SpatialParts(g, g[n].parts)
  }

  ghost predicate IsPath(g: Model, p: seq<Id>) {
    && p != []
    && (forall i | 0 <= i < |p| :: p[i] in g)
    && forall i | 0 <= i < |p| - 1 :: p[i + 1] in Edges(g, p[i])
  }

  ghost predicate Reaches(g: Model, from: Id, to: Id) { exists p :: IsPath(g, p) && p[0] == from && p[|p| - 1] == to }

  // ----- type counts -----

  function Flat<T>(lists: seq<seq<T>>): seq<T> {
    if lists == [] then [] else Flat(lists[..|lists| - 1]) + lists[|lists| - 1]
  }

  ghost predicate Counts(counts: map<string, nat>, kinds: seq<string>) {
    forall k :: (k in counts <==> k in kinds) && (k in counts ==> counts[k] == multiset(kinds)[k])
  }

  /** The map of counts is determined by the contained classes. */
  lemma CountsAreUnique(a: map<string, nat>, b: map<string, nat>, kinds: seq<string>)
    requires Counts(a, kinds) && Counts(b, kinds)
    ensures a == b
  {
  }

  function CountsOf(kinds: seq<string>): (r: map<string, nat>)
    ensures Counts(r, kinds)
  {
    map k | k in kinds :: multiset(kinds)[k]
  }

  method CountTypes(contains: seq<seq<string>>) returns (counts: map<string, nat>)
    ensures counts == CountsOf(Flat(contains))
  {
    counts := map[];
    for i := 0 to |contains|
      invariant Counts(counts, Flat(contains[..i]))
    {
      assert contains[..i + 1][..i] == contains[..i];
      for k := 0 to |contains[i]|
        invariant Counts(counts, Flat(contains[..i]) + contains[i][..k])
      {
        var kind := contains[i][k];
        ghost var before := Flat(contains[..i]) + contains[i][..k];
        assert Flat(contains[..i]) + contains[i][..k + 1] == before + [kind];
        CountOneMore(counts, before, kind);
        counts := counts[kind := (if kind in counts then counts[kind] else 0) + 1];
      }
      assert contains[i][..|contains[i]|] == contains[i];
    }
    assert contains[..|contains|] == contains;
    CountsAreUnique(counts, CountsOf(Flat(contains)), Flat(contains));
  }

  lemma CountOneMore(counts: map<string, nat>, kinds: seq<string>, kind: string)
    requires Counts(counts, kinds)
    ensures Counts(counts[kind := (if kind in counts then counts[kind] else 0) + 1], kinds + [kind])
  {
    assert kind !in kinds ==> multiset(kinds)[kind] == 0;
  }

  /** How often a value occurs in some lists. */
  function Occurrences<T(==)>(lists: seq<seq<T>>, x: T): nat {
    if lists == [] then 0 else multiset(lists[0])[x] + Occurrences(lists[1..], x)
  }

  lemma {:induction false} OccurrencesSnoc<T>(lists: seq<seq<T>>, last: seq<T>, x: T)
    ensures Occurrences(lists + [last], x) == Occurrences(lists, x) + multiset(last)[x]
  {
    if lists == [] {
      assert ([last])[1..] == [] && [] + [last] == [last];
    } else {
      assert (lists + [last])[1..] == lists[1..] + [last];
      OccurrencesSnoc(lists[1..], last, x);
    }
  }

  lemma {:induction false} FlatOccurrences<T>(lists: seq<seq<T>>, x: T)
    ensures multiset(Flat(lists))[x] == Occurrences(lists, x)
  {
    if lists != [] {
      var n := |lists| - 1;
      FlatOccurrences(lists[..n], x);
      OccurrencesSnoc(lists[..n], lists[n], x);
      assert lists == lists[..n] + [lists[n]];
    }
  }

  lemma SpatialSnoc(g: Model, ids: seq<Id>, c: Id)
    requires (forall i | i in ids :: i in g) && c in g
    ensures SpatialOf(g, ids + [c]) == SpatialOf(g, ids) + if g[c].spatial then [c] else []
  {
    assert (ids + [c])[..|ids|] == ids;
  }

  /** The spatial elements of two lists are those of the one, then those of the other. */
  lemma {:induction false} SpatialConcat(g: Model, a: seq<Id>, b: seq<Id>)
    requires forall i | i in a || i in b :: i in g
    ensures SpatialOf(g, a + b) == SpatialOf(g, a) + SpatialOf(g, b)
  {
    hide SpatialOf;
    if b == [] {
      assert a + b == a && SpatialOf(g, []) == [] by { SpatialNone(g); }
    } else {
      var front, c := b[..|b| - 1], b[|b| - 1];
      SpatialConcat(g, a, front);
      SpatialSnoc(g, a + front, c);
      SpatialSnoc(g, front, c);
      assert a + b == a + front + [c] && b == front + [c];
    }
  }

  lemma SpatialNone(g: Model)
    ensures SpatialOf(g, []) == []
  {
  }

  lemma {:induction false} SpatialCount(g: Model, ids: seq<Id>, c: Id)
    requires (forall i | i in ids :: i in g) && c in g
    ensures multiset(SpatialOf(g, ids))[c] == if g[c].spatial then multiset(ids)[c] else 0
  {
    if ids != [] {
      SpatialCount(g, ids[..|ids| - 1], c);
      assert ids == ids[..|ids| - 1] + [ids[|ids| - 1]];
    }
  }

  lemma {:induction false} SpatialPartsCount(g: Model, relations: seq<seq<Id>>, c: Id)
    requires AllIn(g, relations) && c in g
    ensures multiset(SpatialParts(g, relations))[c] == if g[c].spatial then Occurrences(relations, c) else 0
  {
    if relations != [] {
      var n := |relations| - 1;
      SpatialPartsCount(g, relations[..n], c);
      forall i | i in relations[n] ensures i in g {
        var k :| 0 <= k < |relations[n]| && relations[n][k] == i;
      }
      SpatialCount(g, relations[n], c);
      OccurrencesSnoc(relations[..n], relations[n], c);
      assert relations == relations[..n] + [relations[n]];
    }
  }

  lemma {:induction false} Occurs<T>(lists: seq<seq<T>>, x: T)
    ensures Occurrences(lists, x) > 0 <==> exists i, k :: 0 <= i < |lists| && 0 <= k < |lists[i]| && lists[i][k] == x
  {
    if lists != [] {
      Occurs(lists[1..], x);
      if Occurrences(lists[1..], x) > 0 {
        var i, k :| 0 <= i < |lists[1..]| && 0 <= k < |lists[1..][i]| && lists[1..][i][k] == x;
        assert lists[i + 1][k] == x;
      }
      if x in lists[0] {
        var k :| 0 <= k < |lists[0]| && lists[0][k] == x;
      }
      forall i, k | 0 <= i < |lists| && 0 <= k < |lists[i]| && lists[i][k] == x ensures Occurrences(lists, x) > 0 {
        if i == 0 { assert x in lists[0]; } else { assert lists[1..][i - 1][k] == x; }
      }
    }
  }

  /** The edges of an element lead to the spatial elements its relations name, once for every time they are named. */
  lemma EdgesAre(g: Model, n: Id, c: Id)
    requires n in g && c in g
    ensures c in Edges(g, n) <==>
      g[c].spatial && exists i, k :: 0 <= i < |g[n].parts| && 0 <= k < |g[n].parts[i]| && g[n].parts[i][k] == c
    ensures multiset(Edges(g, n))[c] == if g[c].spatial then Occurrences(g[n].parts, c) else 0
  {
    SpatialPartsCount(g, g[n].parts, c);
    Occurs(g[n].parts, c);
    assert c in Edges(g, n) <==> multiset(Edges(g, n))[c] > 0;
  }

  // ----- the traversal -----

  datatype Explored = Explored(tree: Tree, seen: set<Id>)
  datatype ExploredAll = ExploredAll(trees: seq<Tree>, seen: set<Id>)

  /** What the traversal from a node builds and leaves seen. */
  function Explore(g: Model, n: Id, seen: set<Id>): (r: Explored)
    requires n in g && seen <= g.Keys
    ensures seen + {n} <= r.seen <= g.Keys
    decreases g.Keys - seen, 0
  {
    var counts := CountsOf(Flat(g[n].contains));
    if n in seen then Explored(Node(n, counts, []), seen)
    else
      assert n in g.Keys - seen;
      var below := ExploreAll(g, Edges(g, n), seen + {n});
      Explored(Node(n, counts, below.trees), below.seen)
  }

  function ExploreAll(g: Model, ids: seq<Id>, seen: set<Id>): (r: ExploredAll)
    requires (forall i | i in ids :: i in g) && seen <= g.Keys
    ensures seen <= r.seen <= g.Keys && |r.trees| == |ids|
    decreases g.Keys - seen, |ids| + 1
  {
    if ids == [] then ExploredAll([], seen)
    else
      var before := ExploreAll(g, ids[..|ids| - 1], seen);
      assert g.Keys - before.seen <= g.Keys - seen;
      var last := Explore(g, ids[|ids| - 1], before.seen);
      ExploredAll(before.trees + [last.tree], last.seen)
  }

  /** The recursive function of the endpoint, with the set of seen elements it shares among its calls. */
  class Walk {
    const g: Model
    var seen: set<Id>

    constructor (g: Model)
      ensures this.g == g && seen == {}
    {
      this.g := g;
      seen := {};
    }

    method Subtree(n: Id) returns (tree: Tree)
      requires n in g && seen <= g.Keys
      modifies this
      ensures Explored(tree, seen) == Explore(g, n, old(seen))
      decreases g.Keys - seen, 1
    {
      var typeCounts := CountTypes(g[n].contains);
      var children: seq<Tree> := [];
      if n !in seen {
        assert n in g.Keys - seen;
        seen := seen + {n};
        children := Parts(g[n].parts);
      }
      tree := Node(n, typeCounts, children);
    }

    /** The two loops over the relations of a node and the elements they relate. */
    method Parts(relations: seq<seq<Id>>) returns (children: seq<Tree>)
      requires AllIn(g, relations) && seen <= g.Keys
      modifies this
      ensures ExploredAll(children, seen) == ExploreAll(g, SpatialParts(g, relations), old(seen))
      decreases g.Keys - seen, 2
    {
      hide Explore, ExploreAll;
      children := [];
      ghost var entered := seen;
      NoneExplored(g, entered);
      ghost var done: seq<Id> := [];
      for i := 0 to |relations|
        invariant entered <= seen <= g.Keys
        invariant AllIn(g, relations[..i]) && done == SpatialParts(g, relations[..i])
        invariant ExploredAll(children, seen) == ExploreAll(g, done, entered)
      {
        var related := relations[i];
        ghost var before := done;
        for k := 0 to |related|
          invariant entered <= seen <= g.Keys
          invariant (forall x | x in related[..k] :: x in g) && done == before + SpatialOf(g, related[..k])
          invariant ExploredAll(children, seen) == ExploreAll(g, done, entered)
        {
          var child := related[k];
          assert related[..k + 1][..k] == related[..k];
          if g[child].spatial {
            assert g.Keys - seen <= g.Keys - entered;
            OneMoreExplored(g, done, child, entered);
            var subtree := Subtree(child);
            children := children + [subtree];
            done := done + [child];
          }
        }
        assert related[..|related|] == related && relations[..i + 1][..i] == relations[..i];
      }
      assert relations[..|relations|] == relations;
    }
  }

  lemma NoneExplored(g: Model, seen: set<Id>)
    requires seen <= g.Keys
    ensures ExploreAll(g, [], seen) == ExploredAll([], seen)
  {
  }

  lemma OneMoreExplored(g: Model, ids: seq<Id>, last: Id, seen: set<Id>)
    requires (forall i | i in ids :: i in g) && last in g && seen <= g.Keys
    ensures forall i | i in ids + [last] :: i in g
    ensures var before := ExploreAll(g, ids, seen);
      ExploreAll(g, ids + [last], seen) ==
      ExploredAll(before.trees + [Explore(g, last, before.seen).tree], Explore(g, last, before.seen).seen)
  {
    assert (ids + [last])[..|ids|] == ids;
  }

  // ----- what the traversal sees -----

  ghost predicate ReachedFromOne(g: Model, ids: seq<Id>, m: Id) { exists i :: i in ids && Reaches(g, i, m) }

  /** The spatial parts of everything in s are in t. */
  predicate EdgesStay(g: Model, s: set<Id>, t: set<Id>)
    requires s <= g.Keys
  {
    forall m | m in s :: forall c | c in Edges(g, m) :: c in t
  }

  /** Everything newly seen is reachable, and its spatial parts are seen too. */
  lemma {:induction false} ExploreSees(g: Model, n: Id, seen: set<Id>)
    requires n in g && seen <= g.Keys
    ensures forall m | m in Explore(g, n, seen).seen - seen :: Reaches(g, n, m)
    ensures EdgesStay(g, Explore(g, n, seen).seen - seen, Explore(g, n, seen).seen)
    decreases g.Keys - seen, 0
  {
    hide Reaches, Edges;
    if n !in seen {
      assert n in g.Keys - seen;
      var below := ExploreAll(g, Edges(g, n), seen + {n});
      ExploreAllSees(g, Edges(g, n), seen + {n});
      ReachesItself(g, n);
      forall m | m in below.seen - seen ensures Reaches(g, n, m) {
        if m != n {
          assert m in below.seen - (seen + {n}) && ReachedFromOne(g, Edges(g, n), m);
          var c :| c in Edges(g, n) && Reaches(g, c, m);
          Prepend(g, n, c, m);
        }
      }
    }
  }

  lemma {:induction false} ExploreAllSees(g: Model, ids: seq<Id>, seen: set<Id>)
    requires (forall i | i in ids :: i in g) && seen <= g.Keys
    ensures forall i | i in ids :: i in ExploreAll(g, ids, seen).seen
    ensures forall m | m in ExploreAll(g, ids, seen).seen - seen :: ReachedFromOne(g, ids, m)
    ensures EdgesStay(g, ExploreAll(g, ids, seen).seen - seen, ExploreAll(g, ids, seen).seen)
    decreases g.Keys - seen, |ids| + 1
  {
    hide Reaches, Edges, Explore;
    if ids != [] {
      var rest, last := ids[..|ids| - 1], ids[|ids| - 1];
      var before := ExploreAll(g, rest, seen);
      ExploreAllSees(g, rest, seen);
      assert g.Keys - before.seen <= g.Keys - seen;
      ExploreSees(g, last, before.seen);
      assert ids == rest + [last];
      var after := Explore(g, last, before.seen);
      forall m | m in after.seen - seen ensures ReachedFromOne(g, ids, m) {
        if m in before.seen {
          assert ReachedFromOne(g, rest, m);
        } else {
          assert Reaches(g, last, m) && last in ids;
        }
      }
    }
  }

  lemma ReachesItself(g: Model, n: Id)
    requires n in g
    ensures Reaches(g, n, n)
  {
    assert IsPath(g, [n]);
  }

  lemma Prepend(g: Model, n: Id, c: Id, m: Id)
    requires n in g && c in Edges(g, n) && Reaches(g, c, m)
    ensures Reaches(g, n, m)
  {
    var p :| IsPath(g, p) && p[0] == c && p[|p| - 1] == m;
    assert IsPath(g, [n] + p);
  }

  lemma {:induction false} ClosedReaches(g: Model, s: set<Id>, p: seq<Id>)
    requires s <= g.Keys && IsPath(g, p) && p[0] in s
    requires EdgesStay(g, s, s)
    ensures p[|p| - 1] in s
  {
    if |p| > 1 {
      assert IsPath(g, p[1..]);
      ClosedReaches(g, s, p[1..]);
    }
  }

  /** Starting with nothing seen, the elements seen in the end are exactly the reachable ones, cycles or not. */
  lemma SeenIsReachable(g: Model, root: Id)
    requires root in g
    ensures forall m :: m in Explore(g, root, {}).seen <==> Reaches(g, root, m)
  {
    ExploreSees(g, root, {});
    var seen := Explore(g, root, {}).seen;
    assert seen - {} == seen;
    forall m | Reaches(g, root, m) ensures m in seen {
      var p :| IsPath(g, p) && p[0] == root && p[|p| - 1] == m;
      ClosedReaches(g, seen, p);
    }
  }

  // ----- what the tree looks like -----

  /** The nodes of a tree in the order the traversal creates them. */
  function Preorder(t: Tree): (r: seq<Tree>)
    ensures r != [] && r[0] == t
    decreases t, 0
  {
    [t] + PreorderAll(t.children)
  }

  function PreorderAll(ts: seq<Tree>): seq<Tree>
    decreases ts, 1
  {
    if ts == [] then [] else PreorderAll(ts[..|ts| - 1]) + Preorder(ts[|ts| - 1])
  }

  function IdsOf(ts: seq<Tree>): set<Id> { set t | t in ts :: t.id }

  function Roots(ts: seq<Tree>): (r: seq<Id>)
    ensures |r| == |ts| && forall i | 0 <= i < |r| :: r[i] == ts[i].id
  {
    seq(|ts|, i requires 0 <= i < |ts| => ts[i].id)
  }

  /** A node made when the elements in seen were already expanded. */
  predicate Visit(g: Model, seen: set<Id>, t: Tree) {
    && t.id in g
    && t.typeCounts == CountsOf(Flat(g[t.id].contains))
    && Roots(t.children) == if t.id in seen then [] else Edges(g, t.id)
  }

  /** The first node of an element carries its spatial parts, in order; every later node of it is a leaf. */
  predicate FirstVisitExpands(g: Model, seen: set<Id>, visits: seq<Tree>) {
    forall i | 0 <= i < |visits| :: Visit(g, seen + IdsOf(visits[..i]), visits[i])
  }

  lemma VisitsInTurn(g: Model, seen: set<Id>, a: seq<Tree>, b: seq<Tree>)
    requires FirstVisitExpands(g, seen, a) && FirstVisitExpands(g, seen + IdsOf(a), b)
    ensures FirstVisitExpands(g, seen, a + b)
    ensures IdsOf(a + b) == IdsOf(a) + IdsOf(b)
  {
    hide Visit, IdsOf;
    var all := a + b;
    IdsConcat(a, b);
    forall i | 0 <= i < |all| ensures Visit(g, seen + IdsOf(all[..i]), all[i]) {
      if i < |a| {
        assert all[..i] == a[..i];
      } else {
        assert all[..i] == a + b[..i - |a|];
        IdsConcat(a, b[..i - |a|]);
        assert seen + (IdsOf(a) + IdsOf(b[..i - |a|])) == seen + IdsOf(a) + IdsOf(b[..i - |a|]);
      }
    }
  }

  lemma IdsConcat(a: seq<Tree>, b: seq<Tree>)
    ensures IdsOf(a + b) == IdsOf(a) + IdsOf(b)
  {
    assert forall t :: t in a + b <==> t in a || t in b;
  }

  lemma {:induction false} ExploreVisits(g: Model, n: Id, seen: set<Id>)
    requires n in g && seen <= g.Keys
    ensures FirstVisitExpands(g, seen, Preorder(Explore(g, n, seen).tree))
    ensures Explore(g, n, seen).seen == seen + IdsOf(Preorder(Explore(g, n, seen).tree))
    decreases g.Keys - seen, 0
  {
    var t := Explore(g, n, seen).tree;
    assert IdsOf([t]) == {n} && IdsOf([t][..0]) == {};
    if n in seen {
      assert Preorder(t) == [t];
    } else {
      assert n in g.Keys - seen;
      ExploreAllVisits(g, Edges(g, n), seen + {n});
      VisitsInTurn(g, seen, [t], PreorderAll(t.children));
    }
  }

  lemma {:induction false} ExploreAllVisits(g: Model, ids: seq<Id>, seen: set<Id>)
    requires (forall i | i in ids :: i in g) && seen <= g.Keys
    ensures FirstVisitExpands(g, seen, PreorderAll(ExploreAll(g, ids, seen).trees))
    ensures ExploreAll(g, ids, seen).seen == seen + IdsOf(PreorderAll(ExploreAll(g, ids, seen).trees))
    ensures Roots(ExploreAll(g, ids, seen).trees) == ids
    decreases g.Keys - seen, |ids| + 1
  {
    hide FirstVisitExpands, IdsOf, Explore, Preorder;
    if ids != [] {
      var rest, last := ids[..|ids| - 1], ids[|ids| - 1];
      var before := ExploreAll(g, rest, seen);
      ExploreAllVisits(g, rest, seen);
      assert g.Keys - before.seen <= g.Keys - seen;
      ExploreVisits(g, last, before.seen);
      var t := Explore(g, last, before.seen).tree;
      TreeRoot(g, last, before.seen);
      var trees := before.trees + [t];
      assert trees[..|trees| - 1] == before.trees;
      VisitsInTurn(g, seen, PreorderAll(before.trees), Preorder(t));
    } else {
      NoVisits(g, seen);
    }
  }

  lemma TreeRoot(g: Model, n: Id, seen: set<Id>)
    requires n in g && seen <= g.Keys
    ensures Explore(g, n, seen).tree.id == n
  {
  }

  lemma NoVisits(g: Model, seen: set<Id>)
    ensures FirstVisitExpands(g, seen, []) && IdsOf([]) == {}
  {
  }

  // ----- how large the tree is -----

  /** The spatial edges out of a set of elements, each with its position. */
  function EdgeSet(g: Model, s: set<Id>): set<(Id, nat)>
    requires s <= g.Keys
  {
    set n, k: nat | n in s && k < |Edges(g, n)| :: (n, k)
  }

  lemma EdgesOfOne(g: Model, n: Id)
    requires n in g
    ensures |EdgeSet(g, {n})| == |Edges(g, n)|
  {
    PairsCount(n, |Edges(g, n)|);
    assert EdgeSet(g, {n}) == set k: nat | k < |Edges(g, n)| :: (n, k);
  }

  lemma {:induction false} PairsCount(n: Id, count: nat)
    ensures |set k: nat | k < count :: (n, k)| == count
  {
    if count > 0 {
      PairsCount(n, count - 1);
      assert (set k: nat | k < count :: (n, k)) == (set k: nat | k < count - 1 :: (n, k)) + {(n, count - 1)};
    }
  }

  lemma EdgesAdd(g: Model, s: set<Id>, t: set<Id>)
    requires s <= g.Keys && t <= g.Keys && s !! t
    ensures |EdgeSet(g, s + t)| == |EdgeSet(g, s)| + |EdgeSet(g, t)|
  {
    hide Edges;
    assert EdgeSet(g, s + t) == EdgeSet(g, s) + EdgeSet(g, t);
    assert EdgeSet(g, s) !! EdgeSet(g, t);
  }

  lemma {:induction false} ExploreSize(g: Model, n: Id, seen: set<Id>)
    requires n in g && seen <= g.Keys
    ensures |Preorder(Explore(g, n, seen).tree)| == 1 + |EdgeSet(g, Explore(g, n, seen).seen - seen)|
    decreases g.Keys - seen, 0
  {
    hide EdgeSet, Edges;
    var r := Explore(g, n, seen);
    if n in seen {
      assert r.seen - seen == {};
      NoEdges(g);
    } else {
      assert n in g.Keys - seen;
      ExploreAllSize(g, Edges(g, n), seen + {n});
      EdgesOfOne(g, n);
      EdgesAdd(g, {n}, r.seen - (seen + {n}));
      assert r.seen - seen == {n} + (r.seen - (seen + {n}));
    }
  }

  lemma NoEdges(g: Model)
    ensures |EdgeSet(g, {})| == 0
  {
    assert EdgeSet(g, {}) == {};
  }

  lemma {:induction false} ExploreAllSize(g: Model, ids: seq<Id>, seen: set<Id>)
    requires (forall i | i in ids :: i in g) && seen <= g.Keys
    ensures |PreorderAll(ExploreAll(g, ids, seen).trees)| == |ids| + |EdgeSet(g, ExploreAll(g, ids, seen).seen - seen)|
    decreases g.Keys - seen, |ids| + 1
  {
    hide EdgeSet, Edges, Explore, Preorder;
    if ids == [] {
      assert seen - seen == {};
      NoEdges(g);
    } else {
      var rest, last := ids[..|ids| - 1], ids[|ids| - 1];
      var before := ExploreAll(g, rest, seen);
      ExploreAllSize(g, rest, seen);
      assert g.Keys - before.seen <= g.Keys - seen;
      ExploreSize(g, last, before.seen);
      var after := Explore(g, last, before.seen);
      var trees := before.trees + [after.tree];
      assert trees[..|trees| - 1] == before.trees;
      EdgesAdd(g, before.seen - seen, after.seen - before.seen);
      assert after.seen - seen == (before.seen - seen) + (after.seen - before.seen);
    }
  }

  /**
   The tree of the endpoint: its nodes name exactly the reachable spatial elements, each is expanded on its
   first visit and never again, and the tree has one node more than there are spatial edges out of them.
   */
  lemma TreeOfRoot(g: Model, root: Id, reachable: set<Id>)
    requires root in g && forall m :: m in reachable <==> Reaches(g, root, m)
    ensures var visits := Preorder(Explore(g, root, {}).tree);
      && reachable <= g.Keys
      && IdsOf(visits) == reachable == Explore(g, root, {}).seen
      && FirstVisitExpands(g, {}, visits)
      && |visits| == 1 + |EdgeSet(g, reachable)|
  {
    hide Preorder, EdgeSet;
    var r := Explore(g, root, {});
    SeenIsReachable(g, root);
    assert r.seen == reachable;
    ExploreVisits(g, root, {});
    ExploreSize(g, root, {});
    assert r.seen - {} == r.seen;
  }

  /** The endpoint: no tree without a project, else the tree of the first project. */
  method TreeOfModel(g: Model, projects: seq<Id>) returns (tree: Option<Tree>)
    requires forall p | p in projects :: p in g
    ensures tree.None? <==> projects == []
    ensures tree.Some? ==> var visits := Preorder(tree.value);
      && tree.value.id == projects[0]
      && (forall m :: m in IdsOf(visits) <==> Reaches(g, projects[0], m))
      && IdsOf(visits) <= g.Keys
      && FirstVisitExpands(g, {}, visits)
      && |visits| == 1 + |EdgeSet(g, IdsOf(visits))|
  {
    hide Preorder, EdgeSet, Reaches, FirstVisitExpands, IdsOf;
    if projects == [] { return None; }
    var walk := new Walk(g);
    var t := walk.Subtree(projects[0]);
    ghost var r := Explore(g, projects[0], {});
    SeenIsReachable(g, projects[0]);
    TreeRoot(g, projects[0], {});
    TreeOfRoot(g, projects[0], r.seen);
    tree := Some(t);
  }
}
