/** Keyset pages over closed sessions: when following the cursors visits every session exactly once. */
module SessionPages {
  import opened Options
  import opened Order

  /** What the listing keys on. */
  datatype Key = Key(createdAt: string, id: string)

  datatype Stored = Stored(closed: bool, key: Key)

  /**
   The platform's functions: the instant a timestamp denotes, the locale order of ids, and the encoding of
   a cursor as URL-safe text.
   */
  datatype Platform = Platform(
    instant: string -> Option<int>,
    collates: (string, string) -> bool,
    safeId: string -> bool,
    encode: Key -> string,
    decode: string -> Option<Key>)

  /** A key a stored session may have: a timestamp that denotes an instant, and an id of the safe form. */
  predicate Proper(p: Platform, k: Key) { p.instant(k.createdAt).Some? && p.safeId(k.id) }

  /**
   The locale order is a strict order, in which no two ids of the safe form compare equal as canonically
   equivalent texts do, and decoding undoes the encoding of a key.
   */
  ghost predicate Lawful(p: Platform) {
    && (forall a, b :: !(p.collates(a, b) && p.collates(b, a)))
    && (forall a, b | p.safeId(a) && p.safeId(b) :: a != b ==> p.collates(a, b) || p.collates(b, a))
    && (forall a, b, c :: p.collates(a, b) && p.collates(b, c) ==> p.collates(a, c))
    && (forall k | Proper(p, k) :: p.decode(p.encode(k)) == Some(k))
  }

  /** The order of the sort: newest first, then ids in descending locale order. */
  predicate Before(p: Platform, a: Key, b: Key)
    requires Proper(p, a) && Proper(p, b)
  {
    var ta, tb := p.instant(a.createdAt).value, p.instant(b.createdAt).value;
    ta > tb || (ta == tb && p.collates(b.id, a.id))
  }

  /** The order of the cursor filter: by code units, on the timestamp text and then the id. */
  predicate After(cursor: Key, k: Key) {
    Less(k.createdAt, cursor.createdAt) || (k.createdAt == cursor.createdAt && Less(k.id, cursor.id))
  }

  lemma AfterIsTransitive(a: Key, b: Key, c: Key)
    requires After(a, b) && After(b, c)
    ensures After(a, c)
  {
    if Less(c.createdAt, b.createdAt) && Less(b.createdAt, a.createdAt) {
      LessIsTransitive(c.createdAt, b.createdAt, a.createdAt);
    } else if c.createdAt == b.createdAt == a.createdAt {
      LessIsTransitive(c.id, b.id, a.id);
    }
  }

  lemma AfterIsTotal(a: Key, b: Key)
    ensures !(After(a, b) && After(b, a)) && !After(a, a)
    ensures After(a, b) || After(b, a) || a == b
  {
    LessIsTotal(a.createdAt, b.createdAt);
    LessIsAsymmetric(a.createdAt, b.createdAt);
    LessIsTotal(a.id, b.id);
    LessIsAsymmetric(a.id, b.id);
    LessIsAsymmetric(a.createdAt, a.createdAt);
    LessIsAsymmetric(a.id, a.id);
  }

  // ----- one page -----

  function ClosedKeys(store: seq<Stored>): seq<Key> {
    if store == [] then [] else
      var before := ClosedKeys(store[..|store| - 1]);
      if store[|store| - 1].closed then before + [store[|store| - 1].key] else before
  }

  predicate AllProper(p: Platform, keys: seq<Key>) { forall k | k in keys :: Proper(p, k) }

  /** Puts a key behind those that sort before it. */
  function Insert(p: Platform, k: Key, sorted: seq<Key>): (r: seq<Key>)
    requires Proper(p, k) && AllProper(p, sorted)
    ensures multiset(r) == multiset(sorted) + multiset{k} && AllProper(p, r)
  {
    if sorted == [] || Before(p, k, sorted[0]) then
      assert forall x :: x in [k] + sorted <==> x == k || x in sorted;
      [k] + sorted
    else
      assert sorted == [sorted[0]] + sorted[1..];
      var rest := Insert(p, k, sorted[1..]);
      assert forall x :: x in [sorted[0]] + rest <==> x == sorted[0] || x in rest;
      [sorted[0]] + rest
  }

  function Sort(p: Platform, keys: seq<Key>): (r: seq<Key>)
    requires AllProper(p, keys)
    ensures multiset(r) == multiset(keys) && AllProper(p, r)
  {
    if keys == [] then [] else
      assert keys == keys[..|keys| - 1] + [keys[|keys| - 1]];
      Insert(p, keys[|keys| - 1], Sort(p, keys[..|keys| - 1]))
  }

  /** The cursor filter. */
  function Rest(sorted: seq<Key>, cursor: Option<Key>): (r: seq<Key>)
    ensures forall k :: k in r <==> k in sorted && (cursor.None? || After(cursor.value, k))
  {
    if sorted == [] then [] else
      var before, last := Rest(sorted[..|sorted| - 1], cursor), sorted[|sorted| - 1];
      assert sorted == sorted[..|sorted| - 1] + [last];
      if cursor.None? || After(cursor.value, last) then before + [last] else before
  }

  datatype Page = Page(items: seq<Key>, next: Option<string>) | BadCursor

  /** `decodeClosedSessionCursor` on a string. */
  function DecodeCursor(p: Platform, raw: string): Option<Key> {
    if |raw| > 500 then None else
      var k := p.decode(raw);
      if k.Some? && Proper(p, k.value) then k else None
  }

  /** The body of the listing route for a store whose sorted closed keys are given. */
  function PageFrom(p: Platform, sorted: seq<Key>, raw: Option<string>, limit: nat): Page
    requires limit > 0
  {
    if raw.Some? && DecodeCursor(p, raw.value).None? then BadCursor
    else
      var rest := Rest(sorted, if raw.Some? then DecodeCursor(p, raw.value) else None);
      if |rest| > limit then Page(rest[..limit], Some(p.encode(rest[limit - 1]))) else Page(rest, None)
  }

  /** A cursor is read back as it was written, exactly when it is at most 500 characters long. */
  lemma CursorRoundTrip(p: Platform, k: Key)
    requires Lawful(p) && Proper(p, k)
    ensures DecodeCursor(p, p.encode(k)) == Some(k) <==> |p.encode(k)| <= 500
    ensures |p.encode(k)| > 500 ==> DecodeCursor(p, p.encode(k)).None?
  {
  }

  /** The listing is of the closed sessions, each once for every time it is stored. */
  lemma {:induction false} ClosedKeysAre(store: seq<Stored>, k: Key)
    ensures k in ClosedKeys(store) <==> Stored(true, k) in store
    ensures multiset(ClosedKeys(store))[k] == multiset(store)[Stored(true, k)]
  {
    if store != [] {
      var n := |store| - 1;
      ClosedKeysAre(store[..n], k);
      assert store == store[..n] + [store[n]];
    }
  }

  /** A cursor is refused unless it is short and decodes to a timestamp that denotes an instant and a safe id. */
  lemma CursorExactlyWhen(p: Platform, sorted: seq<Key>, raw: string, limit: nat)
    requires limit > 0
    ensures PageFrom(p, sorted, Some(raw), limit) == BadCursor <==>
      |raw| > 500 || p.decode(raw) == None
      || p.instant(p.decode(raw).value.createdAt) == None || !p.safeId(p.decode(raw).value.id)
    ensures PageFrom(p, sorted, None, limit) != BadCursor
  {
  }

  /**
   A page holds the sessions after its cursor by the text of timestamp and id, in the order of the sort, as many as
   the limit lets it, and a next cursor for its last one exactly when there are more.
   */
  lemma PageIs(p: Platform, sorted: seq<Key>, cursor: Option<Key>, raw: Option<string>, limit: nat)
    requires limit > 0 && (if raw.Some? then DecodeCursor(p, raw.value) == cursor && cursor.Some? else cursor == None)
    ensures var page := PageFrom(p, sorted, raw, limit);
      var rest := Rest(sorted, cursor);
      && page.Page? && |page.items| <= limit && page.items <= rest
      && (page.next.None? ==> page.items == rest)
      && (page.next.Some? ==> |page.items| == limit < |rest| && page.next.value == p.encode(page.items[limit - 1]))
      && forall k :: k in rest <==> (
           && k in sorted
           && (cursor.Some? ==> (
                || Less(k.createdAt, cursor.value.createdAt)
                || (k.createdAt == cursor.value.createdAt && Less(k.id, cursor.value.id)))))
  {
  }

  // ----- following the cursors -----

  /** What a client sees that follows next_cursor from a page on, and whether it got to the end. */
  datatype Visited = Visited(items: seq<Key>, complete: bool)

  lemma {:induction false} RestShrinks(sorted: seq<Key>, cursor: Option<Key>, last: Key)
    requires cursor.Some? ==> After(cursor.value, last)
    ensures |Rest(sorted, Some(last))| <= |Rest(sorted, cursor)|
    ensures last in sorted ==> |Rest(sorted, Some(last))| < |Rest(sorted, cursor)|
  {
    if sorted != [] {
      var k := sorted[|sorted| - 1];
      RestShrinks(sorted[..|sorted| - 1], cursor, last);
      assert sorted == sorted[..|sorted| - 1] + [k];
      AfterIsTotal(last, last);
      if cursor.Some? && After(last, k) { AfterIsTransitive(cursor.value, last, k); }
    }
  }

  /** Following the cursors from a first request always ends: every next cursor leaves fewer sessions. */
  ghost function Follow(p: Platform, sorted: seq<Key>, cursor: Option<Key>, limit: nat): Visited
    requires limit > 0 && Lawful(p) && AllProper(p, sorted)
    decreases |Rest(sorted, cursor)|
  {
    var rest := Rest(sorted, cursor);
    if |rest| > limit then
      var last := rest[limit - 1];
      assert last in rest;
      RestShrinks(sorted, cursor, last);
      if DecodeCursor(p, p.encode(last)).None? then Visited(rest[..limit], false)
      else
        var more := Follow(p, sorted, Some(last), limit);
        Visited(rest[..limit] + more.items, more.complete)
    else Visited(rest, true)
  }

  /** A request with the next cursor of a page continues the listing where Follow does. */
  lemma FollowIsPages(p: Platform, sorted: seq<Key>, cursor: Option<Key>, limit: nat)
    requires limit > 0 && Lawful(p) && AllProper(p, sorted)
    requires cursor.Some? ==> DecodeCursor(p, p.encode(cursor.value)) == cursor
    ensures var page := PageFrom(p, sorted, if cursor.Some? then Some(p.encode(cursor.value)) else None, limit);
      && page.Page?
      && page.items == (if |Rest(sorted, cursor)| > limit then Rest(sorted, cursor)[..limit] else Rest(sorted, cursor))
      && (page.next.None? ==> Follow(p, sorted, cursor, limit) == Visited(page.items, true))
      && (page.next.Some? && DecodeCursor(p, page.next.value).None? ==> Follow(p, sorted, cursor, limit) == Visited(page.items, false))
      && (page.next.Some? && DecodeCursor(p, page.next.value).Some? ==>
            var more := Follow(p, sorted, DecodeCursor(p, page.next.value), limit);
            Follow(p, sorted, cursor, limit) == Visited(page.items + more.items, more.complete))
  {
  }

  // ----- when the traversal is right -----

  ghost predicate InOrder(p: Platform, sorted: seq<Key>)
    requires AllProper(p, sorted)
  {
    forall i, j | 0 <= i < j < |sorted| :: Before(p, sorted[i], sorted[j])
  }

  /** The filter agrees with the sort on these keys. */
  predicate Agrees(sorted: seq<Key>) { forall i, j | 0 <= i < j < |sorted| :: After(sorted[i], sorted[j]) }

  /** Every session but the last can serve as a cursor. */
  predicate CursorsFit(p: Platform, sorted: seq<Key>) {
    forall i | 0 <= i < |sorted| - 1 :: |p.encode(sorted[i])| <= 500
  }

  lemma RestOneMore(sorted: seq<Key>, m: nat, cursor: Key)
    requires m < |sorted|
    ensures Rest(sorted[..m + 1], Some(cursor)) ==
      Rest(sorted[..m], Some(cursor)) + if After(cursor, sorted[m]) then [sorted[m]] else []
  {
    hide After;
    assert sorted[..m + 1][..m] == sorted[..m];
  }

  lemma {:induction false} RestOfAgreeing(sorted: seq<Key>, m: nat, k: nat)
    requires k < |sorted| && m <= |sorted| && Agrees(sorted)
    ensures Rest(sorted[..m], Some(sorted[k])) == if m <= k + 1 then [] else sorted[k + 1..m]
  {
    hide After, Rest, Agrees;
    if m > 0 {
      RestOfAgreeing(sorted, m - 1, k);
      RestOneMore(sorted, m - 1, sorted[k]);
      AfterIsTotal(sorted[k], sorted[m - 1]);
      if m - 1 < k { AgreesAt(sorted, m - 1, k); } else if k < m - 1 { AgreesAt(sorted, k, m - 1); }
    } else {
      RestOfNone(Some(sorted[k]));
      assert sorted[..0] == [];
    }
  }

  lemma AgreesAt(sorted: seq<Key>, i: nat, j: nat)
    requires i < j < |sorted| && Agrees(sorted)
    ensures After(sorted[i], sorted[j])
  {
  }

  lemma RestOfNone(cursor: Option<Key>)
    ensures Rest([], cursor) == []
  {
  }

  lemma {:induction false} RestOfFirst(sorted: seq<Key>)
    ensures Rest(sorted, None) == sorted
  {
    if sorted != [] { RestOfFirst(sorted[..|sorted| - 1]); }
  }

  function Preceding(sorted: seq<Key>, k: nat): Option<Key>
    requires k <= |sorted|
  {
    if k == 0 then None else Some(sorted[k - 1])
  }

  lemma RestFrom(sorted: seq<Key>, k: nat)
    requires k <= |sorted| && Agrees(sorted)
    ensures Rest(sorted, Preceding(sorted, k)) == sorted[k..]
  {
    hide Rest, Agrees;
    assert sorted[..|sorted|] == sorted;
    if k == 0 { RestOfFirst(sorted); } else { RestOfAgreeing(sorted, |sorted|, k - 1); }
  }

  /** With agreement, following from the k-th key on visits all that are left, for any limit. */
  lemma {:induction false} FollowsAll(p: Platform, sorted: seq<Key>, k: nat, limit: nat)
    requires Lawful(p) && AllProper(p, sorted) && Agrees(sorted) && CursorsFit(p, sorted)
    requires limit > 0 && k <= |sorted|
    ensures Follow(p, sorted, Preceding(sorted, k), limit) == Visited(sorted[k..], true)
    decreases |sorted| - k
  {
    hide Rest, Agrees, DecodeCursor, Lawful, Proper;
    RestFrom(sorted, k);
    if |sorted| - k > limit {
      assert sorted[k..][limit - 1] == sorted[k + limit - 1];
      CursorRoundTrip(p, sorted[k + limit - 1]);
      FollowsAll(p, sorted, k + limit, limit);
      assert sorted[k..][..limit] + sorted[k + limit..] == sorted[k..];
    }
  }

  /** If one-item pages visit all from the k-th key on, every key from there is a fit cursor for the next one. */
  lemma {:induction false} ChainFrom(p: Platform, sorted: seq<Key>, k: nat)
    requires Lawful(p) && AllProper(p, sorted) && k < |sorted|
    requires Follow(p, sorted, Preceding(sorted, k), 1) == Visited(sorted[k..], true)
    ensures forall i | k <= i < |sorted| - 1 :: After(sorted[i], sorted[i + 1]) && |p.encode(sorted[i])| <= 500
    decreases |sorted| - k
  {
    hide Rest, After, Lawful, Proper, DecodeCursor;
    var rest := Rest(sorted, Preceding(sorted, k));
    if k + 1 < |sorted| {
      assert |rest| > 1 && rest[..1] == [rest[0]];
      var more := Follow(p, sorted, Some(rest[0]), 1);
      assert sorted[k..][0] == sorted[k];
      assert sorted[k..] == [rest[0]] + more.items;
      assert more.items == sorted[k..][1..] == sorted[k + 1..];
      CursorRoundTrip(p, sorted[k]);
      ChainFrom(p, sorted, k + 1);
      FirstFollowed(p, sorted, sorted[k], sorted[k + 1]);
    }
  }

  lemma FirstFollowed(p: Platform, sorted: seq<Key>, cursor: Key, k: Key)
    requires Lawful(p) && AllProper(p, sorted)
    requires var v := Follow(p, sorted, Some(cursor), 1); v.items != [] && v.items[0] == k
    ensures After(cursor, k)
  {
    hide After, Lawful, Proper, DecodeCursor;
    var rest := Rest(sorted, Some(cursor));
    assert k == rest[0] && k in rest;
  }

  lemma {:induction false} ChainAgrees(sorted: seq<Key>, i: nat, j: nat)
    requires i < j < |sorted| && forall m | 0 <= m < |sorted| - 1 :: After(sorted[m], sorted[m + 1])
    ensures After(sorted[i], sorted[j])
  {
    hide After;
    if i + 1 < j {
      ChainAgrees(sorted, i, j - 1);
      assert After(sorted[j - 1], sorted[j - 1 + 1]);
      AfterIsTransitive(sorted[i], sorted[j - 1], sorted[j]);
    }
  }

  /** The pages of this limit show the sorted keys one after the other and get to the end. */
  ghost predicate ShowsAll(p: Platform, sorted: seq<Key>, limit: nat)
    requires limit > 0 && Lawful(p) && AllProper(p, sorted)
  {
    Follow(p, sorted, None, limit) == Visited(sorted, true)
  }

  /**
   Following the cursors visits the sorted keys one after the other and gets to the end, for every limit
   the route accepts, exactly when the filter agrees with the sort and the cursors fit; already one-item
   pages need both.
   */
  lemma TraversalIsComplete(p: Platform, sorted: seq<Key>)
    requires Lawful(p) && AllProper(p, sorted)
    ensures (forall limit | 1 <= limit <= 50 :: ShowsAll(p, sorted, limit)) <==> Agrees(sorted) && CursorsFit(p, sorted)
    ensures ShowsAll(p, sorted, 1) <==> Agrees(sorted) && CursorsFit(p, sorted)
  {
    hide After, Follow, Lawful, Proper;
    assert sorted[0..] == sorted && Preceding(sorted, 0) == None;
    if ShowsAll(p, sorted, 1) && sorted != [] {
      ChainFrom(p, sorted, 0);
      forall i, j | 0 <= i < j < |sorted| ensures After(sorted[i], sorted[j]) { ChainAgrees(sorted, i, j); }
    }
    if Agrees(sorted) && CursorsFit(p, sorted) {
      forall limit | 1 <= limit <= 50 ensures ShowsAll(p, sorted, limit) {
        FollowsAll(p, sorted, 0, limit);
      }
    }
  }

  // ----- the store -----

  ghost predicate DistinctIds(keys: seq<Key>) { forall i, j | 0 <= i < j < |keys| :: keys[i].id != keys[j].id }

  lemma BeforeIsTransitive(p: Platform, a: Key, b: Key, c: Key)
    requires Lawful(p) && Proper(p, a) && Proper(p, b) && Proper(p, c) && Before(p, a, b) && Before(p, b, c)
    ensures Before(p, a, c)
  {
  }

  lemma {:induction false} InsertInOrder(p: Platform, k: Key, sorted: seq<Key>)
    requires Lawful(p) && Proper(p, k) && AllProper(p, sorted) && InOrder(p, sorted)
    requires forall s | s in sorted :: s.id != k.id
    ensures InOrder(p, Insert(p, k, sorted))
  {
    hide Proper;
    if sorted != [] && !Before(p, k, sorted[0]) {
      var rest := Insert(p, k, sorted[1..]);
      InsertInOrder(p, k, sorted[1..]);
      forall j | 0 <= j < |rest| ensures Before(p, sorted[0], rest[j]) {
        assert rest[j] in multiset(rest);
        if rest[j] == k { TotalOnIds(p, sorted[0], k); } else {
          assert rest[j] in sorted[1..];
          var i :| 0 <= i < |sorted[1..]| && sorted[1..][i] == rest[j];
          assert Before(p, sorted[0], sorted[i + 1]);
        }
      }
    } else if sorted != [] {
      forall j | 0 <= j < |sorted| ensures Before(p, k, sorted[j]) {
        if j > 0 { BeforeIsTransitive(p, k, sorted[0], sorted[j]); }
      }
    }
  }

  lemma TotalOnIds(p: Platform, a: Key, b: Key)
    requires Lawful(p) && Proper(p, a) && Proper(p, b) && a.id != b.id
    ensures Before(p, a, b) || Before(p, b, a)
  {
  }

  lemma {:induction false} SortInOrder(p: Platform, keys: seq<Key>)
    requires Lawful(p) && AllProper(p, keys) && DistinctIds(keys)
    ensures InOrder(p, Sort(p, keys))
  {
    if keys != [] {
      var rest, last := keys[..|keys| - 1], keys[|keys| - 1];
      SortInOrder(p, rest);
      forall s | s in Sort(p, rest) ensures s.id != last.id {
        assert s in multiset(Sort(p, rest));
        assert s in rest;
      }
      InsertInOrder(p, last, Sort(p, rest));
    }
  }

  /** The filter keeps a key after a cursor exactly when the sort puts it there. */
  ghost predicate FilterFollowsSort(p: Platform, keys: seq<Key>)
    requires AllProper(p, keys)
  {
    forall a, b | a in keys && b in keys && Before(p, a, b) :: After(a, b)
  }

  lemma AgreesMeans(p: Platform, keys: seq<Key>)
    requires Lawful(p) && AllProper(p, keys) && DistinctIds(keys)
    ensures Agrees(Sort(p, keys)) <==> FilterFollowsSort(p, keys)
  {
    hide Before, After, Proper;
    var sorted := Sort(p, keys);
    SortInOrder(p, keys);
    SameMembers(keys, sorted);
    if FilterFollowsSort(p, keys) {
      forall i, j | 0 <= i < j < |sorted| ensures After(sorted[i], sorted[j]) {
        assert sorted[i] in sorted && sorted[j] in sorted && Before(p, sorted[i], sorted[j]);
      }
    }
    if Agrees(sorted) {
      forall a, b | a in keys && b in keys && Before(p, a, b) ensures After(a, b) {
        var i :| 0 <= i < |sorted| && sorted[i] == a;
        var j :| 0 <= j < |sorted| && sorted[j] == b;
        PlacesInOrder(p, sorted, i, j);
      }
    }
  }

  lemma PlacesInOrder(p: Platform, sorted: seq<Key>, i: nat, j: nat)
    requires Lawful(p) && AllProper(p, sorted) && InOrder(p, sorted)
    requires i < |sorted| && j < |sorted| && Before(p, sorted[i], sorted[j])
    ensures i < j
  {
    BeforeIsStrict(p, sorted[i], sorted[j]);
  }

  lemma BeforeIsStrict(p: Platform, a: Key, b: Key)
    requires Lawful(p) && Proper(p, a) && Proper(p, b) && Before(p, a, b)
    ensures a != b && !Before(p, b, a)
  {
    if p.collates(a.id, b.id) { assert !p.collates(b.id, a.id); }
  }

  lemma SameMembers(a: seq<Key>, b: seq<Key>)
    requires multiset(a) == multiset(b)
    ensures forall k :: k in a <==> k in b
  {
    forall k ensures k in a <==> k in b { assert k in a <==> k in multiset(a); assert k in b <==> k in multiset(b); }
  }

  /**
   Over an unchanged store, every limit's pages show each closed session exactly once, newest first, and
   then stop, exactly when filter and sort agree on the closed sessions and the cursors fit.
   */
  lemma ListingIsComplete(p: Platform, store: seq<Stored>)
    requires Lawful(p) && AllProper(p, ClosedKeys(store)) && DistinctIds(ClosedKeys(store))
    ensures var sorted := Sort(p, ClosedKeys(store));
      && multiset(sorted) == multiset(ClosedKeys(store)) && InOrder(p, sorted)
      && ((forall limit | 1 <= limit <= 50 :: ShowsAll(p, sorted, limit)) <==>
            FilterFollowsSort(p, ClosedKeys(store)) && CursorsFit(p, sorted))
  {
    hide ShowsAll, Agrees, FilterFollowsSort;
    SortInOrder(p, ClosedKeys(store));
    AgreesMeans(p, ClosedKeys(store));
    TraversalIsComplete(p, Sort(p, ClosedKeys(store)));
  }

  /** Timestamps of one fixed-width form and ids the locale orders by code unit are enough for agreement. */
  lemma UniformKeysAgree(p: Platform, keys: seq<Key>)
    requires Lawful(p) && AllProper(p, keys)
    requires forall a, b | a in keys && b in keys ::
      (p.instant(a.createdAt).value < p.instant(b.createdAt).value ==> Less(a.createdAt, b.createdAt))
      && (p.instant(a.createdAt) == p.instant(b.createdAt) ==> a.createdAt == b.createdAt)
      && (p.collates(a.id, b.id) ==> Less(a.id, b.id))
    ensures FilterFollowsSort(p, keys)
  {
  }

  // ----- the keys the service makes itself -----

  predicate HexAfter(prefix: string, id: string) {
    && |prefix| < |id| <= |prefix| + 64 && id[..|prefix|] == prefix
    && forall c | c in id[|prefix|..] :: '0' <= c <= '9' || 'a' <= c <= 'f'
  }

  /** An id the service makes: hexadecimal digits after the prefix of all sessions or that of requested ones. */
  predicate MadeId(id: string) { HexAfter("review_session_", id) || HexAfter("review_session_request_", id) }

  /** Milliseconds since 1970, up to the end of the year 9999. */
  predicate InClock(t: int) { 0 <= t < 253402300800000 }

  ghost predicate MadeKey(stamp: int -> string, k: Key) {
    MadeId(k.id) && exists t | InClock(t) :: k.createdAt == stamp(t)
  }

  /**
   What is taken of the platform for the keys the service makes: ISO stamps of the clock have 24 characters,
   denote their instant and are ordered as text; the locale orders such ids by code unit; a cursor is the
   base64 text of 33 characters of JSON around the two keys.
   */
  ghost predicate Native(p: Platform, stamp: int -> string) {
    && (forall t | InClock(t) :: |stamp(t)| == 24 && p.instant(stamp(t)) == Some(t))
    && (forall t, u | InClock(t) && InClock(u) :: t < u ==> Less(stamp(t), stamp(u)))
    && (forall a, b | MadeId(a) && MadeId(b) :: p.collates(a, b) ==> Less(a, b))
    && (forall k | MadeKey(stamp, k) :: |p.encode(k)| == (4 * (33 + |k.createdAt| + |k.id|) + 2) / 3)
  }

  lemma MadeKeysAgree(p: Platform, stamp: int -> string, keys: seq<Key>)
    requires Lawful(p) && Native(p, stamp) && AllProper(p, keys) && forall k | k in keys :: MadeKey(stamp, k)
    ensures FilterFollowsSort(p, keys)
  {
    forall a, b | a in keys && b in keys ensures
      && (p.instant(a.createdAt).value < p.instant(b.createdAt).value ==> Less(a.createdAt, b.createdAt))
      && (p.instant(a.createdAt) == p.instant(b.createdAt) ==> a.createdAt == b.createdAt)
      && (p.collates(a.id, b.id) ==> Less(a.id, b.id))
    {
      assert MadeKey(stamp, a) && MadeKey(stamp, b);
      var t :| InClock(t) && a.createdAt == stamp(t);
      var u :| InClock(u) && b.createdAt == stamp(u);
    }
    UniformKeysAgree(p, keys);
  }

  lemma MadeCursorFits(p: Platform, stamp: int -> string, k: Key)
    requires Native(p, stamp) && MadeKey(stamp, k)
    ensures |p.encode(k)| <= 192
  {
    var t :| InClock(t) && k.createdAt == stamp(t);
    assert |"review_session_"| == 15 && |"review_session_request_"| == 23;
  }

  /**
   Keys the service makes itself are listed in full: each closed session exactly once, newest first, for
   every limit the route accepts.
   */
  lemma MadeKeysAreListed(p: Platform, stamp: int -> string, store: seq<Stored>)
    requires Lawful(p) && Native(p, stamp) && AllProper(p, ClosedKeys(store)) && DistinctIds(ClosedKeys(store))
    requires forall k | k in ClosedKeys(store) :: MadeKey(stamp, k)
    ensures var sorted := Sort(p, ClosedKeys(store));
      && multiset(sorted) == multiset(ClosedKeys(store)) && InOrder(p, sorted)
      && forall limit | 1 <= limit <= 50 :: ShowsAll(p, sorted, limit)
  {
    hide ShowsAll, FilterFollowsSort, Native, Lawful, Proper, MadeKey;
    var sorted := Sort(p, ClosedKeys(store));
    ListingIsComplete(p, store);
    MadeKeysAgree(p, stamp, ClosedKeys(store));
    SameMembers(ClosedKeys(store), sorted);
    forall i | 0 <= i < |sorted| - 1 ensures |p.encode(sorted[i])| <= 500 {
      assert sorted[i] in sorted;
      MadeCursorFits(p, stamp, sorted[i]);
    }
  }

  // ----- keys of other forms -----

  /** A session the filter does not keep after its predecessor in the sort is never shown by one-item pages. */
  lemma DisagreementSkips(p: Platform, a: Key, b: Key)
    requires Lawful(p) && Proper(p, a) && Proper(p, b) && |p.encode(b)| <= 500
    requires Before(p, b, a) && !After(b, a)
    ensures Sort(p, [a, b]) == [b, a] && Follow(p, [b, a], None, 1) == Visited([b], true)
  {
    hide Before, After, Lawful, Proper, DecodeCursor, Sort, Rest;
    SortTwo(p, a, b);
    RestOfFirst([b, a]);
    NothingAfter(a, b);
    CursorRoundTrip(p, b);
    assert [b, a][..1] == [b] && [b] + [] == [b];
    assert Follow(p, [b, a], Some(b), 1) == Visited([], true);
  }

  lemma SortTwo(p: Platform, a: Key, b: Key)
    requires Proper(p, a) && Proper(p, b) && Before(p, b, a)
    ensures Sort(p, [a, b]) == [b, a]
  {
    hide Before, Proper;
    assert [a, b][..1] == [a] && [a][..0] == [];
    assert Insert(p, a, []) == [a];
    assert Sort(p, [a]) == Insert(p, a, Sort(p, [])) == [a];
    assert Insert(p, b, [a]) == [b, a];
  }

  /** An instance, with ids of the safe form that the service does not make: they differ in case. */
  lemma MixedCaseIdIsSkipped(p: Platform, createdAt: string)
    requires var b, a := Key(createdAt, "review_session_B"), Key(createdAt, "review_session_a");
      Lawful(p) && Proper(p, a) && Proper(p, b) && p.collates(a.id, b.id) && |p.encode(b)| <= 500
    ensures var b, a := Key(createdAt, "review_session_B"), Key(createdAt, "review_session_a");
      Sort(p, [a, b]) == [b, a] && Follow(p, [b, a], None, 1) == Visited([b], true)
  {
    hide After, Sort, Follow, Less;
    NotAfter(createdAt);
    DisagreementSkips(p, Key(createdAt, "review_session_a"), Key(createdAt, "review_session_B"));
  }

  lemma NotAfter(createdAt: string)
    ensures !After(Key(createdAt, "review_session_B"), Key(createdAt, "review_session_a"))
  {
    assert "review_session_" + "a" == "review_session_a" && "review_session_" + "B" == "review_session_B";
    CommonPrefix("review_session_", "a", "B");
    LessIsAsymmetric(createdAt, createdAt);
  }

  lemma NothingAfter(a: Key, b: Key)
    requires !After(b, a)
    ensures Rest([b, a], Some(b)) == []
  {
    hide After;
    AfterIsTotal(b, b);
    assert [b, a][..1] == [b] && [b][..0] == [];
    assert Rest([b], Some(b)) == [];
  }

  lemma {:induction false} CommonPrefix(prefix: string, a: string, b: string)
    ensures Less(prefix + a, prefix + b) <==> Less(a, b)
  {
    if prefix == "" {
      assert prefix + a == a && prefix + b == b;
    } else {
      assert (prefix + a)[1..] == prefix[1..] + a && (prefix + b)[1..] == prefix[1..] + b;
      CommonPrefix(prefix[1..], a, b);
    }
  }
}
