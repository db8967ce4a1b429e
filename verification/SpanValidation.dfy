/** Validation of the spans a model claims to have consumed, against the server's own segmentation. */
module SpanValidation {
  import opened Options
  import PropertyConstraints

  datatype Field = IfcClasses | StoreyTokens | PropertyFilters | NameContains

  /** A server-recognised field anchor. */
  datatype Anchor = Anchor(start: int, end: int, field: Field)

  datatype Filters = Filters(
    classes: seq<string>,
    storeys: seq<string>,
    properties: seq<PropertyConstraints.Filter>,
    names: seq<string>)

  /** The regular expressions and text tables of the interpreter, as functions of the text. */
  datatype Grammar = Grammar(
    anchors: string -> seq<Anchor>,
    removeStopwords: string -> string,
    classMatches: (string, string) -> bool,
    storeyMatches: (string, string) -> bool,
    propertyMatches: (string, PropertyConstraints.Filter) -> bool,
    casefold: string -> string,
    unsupportedTerms: (string, Filters) -> seq<string>)

  /** An element of the submitted list; an integer span may name no known field. */
  datatype Item =
    | NotObject
    | WrongKeys
    | NotIntegers
    | Claim(start: int, end: int, field: Option<Field>, index: int)

  datatype Submission = NotList | Items(items: seq<Item>)

  datatype Span = Span(start: int, end: int, field: Field, index: int)

  datatype Code =
    | SpansNotList
    | SpanNotObject
    | InvalidShape
    | InvalidRange
    | Overlapping
    | EmptySpan
    | FieldMismatch
    | NotExactAnchor
    | FilterMismatch
    | UnboundFilter

  datatype Judgement = Accept(span: Span) | Reject(code: Code)

  function Size(filters: Filters, field: Field): nat {
    match field
    case IfcClasses => |filters.classes|
    case StoreyTokens => |filters.storeys|
    case PropertyFilters => |filters.properties|
    case NameContains => |filters.names|
  }

  predicate Overlaps(aStart: int, aEnd: int, bStart: int, bEnd: int) { aStart < bEnd && bStart < aEnd }

  predicate InRange(raw: string, filters: Filters, s: Span) {
    0 <= s.start < s.end <= |raw| && 0 <= s.index < Size(filters, s.field)
  }

  predicate FilterMatches(g: Grammar, raw: string, filters: Filters, s: Span)
    requires InRange(raw, filters, s)
  {
    var fragment := raw[s.start..s.end];
    match s.field
    case IfcClasses => g.classMatches(fragment, filters.classes[s.index])
    case StoreyTokens => g.storeyMatches(fragment, filters.storeys[s.index])
    case PropertyFilters => g.propertyMatches(fragment, filters.properties[s.index])
    case NameContains => g.casefold(g.removeStopwords(fragment)) == g.casefold(filters.names[s.index])
  }

  predicate ClaimsForeignAnchor(anchors: seq<Anchor>, s: Span) {
    exists a | a in anchors :: Overlaps(s.start, s.end, a.start, a.end) && a.field != s.field
  }

  predicate HasExactAnchor(anchors: seq<Anchor>, s: Span) { Anchor(s.start, s.end, s.field) in anchors }

  predicate OverlapsAny(accepted: seq<Span>, s: Span) {
    exists p | p in accepted :: Overlaps(s.start, s.end, p.start, p.end)
  }

  /** The cascade of tests on one item, given the filter indexes already bound and the spans accepted so far. */
  function Judge(g: Grammar, raw: string, filters: Filters, bound: set<(Field, int)>, accepted: seq<Span>, item: Item): Judgement {
    match item
    case NotObject => Reject(SpanNotObject)
    case WrongKeys => Reject(InvalidShape)
    case NotIntegers => Reject(InvalidRange)
    case Claim(start, end, None, index) => Reject(InvalidRange)
    case Claim(start, end, Some(field), index) =>
      var s := Span(start, end, field, index);
      if !InRange(raw, filters, s) || (field, index) in bound then Reject(InvalidRange)
      else if OverlapsAny(accepted, s) then Reject(Overlapping)
      else if g.removeStopwords(raw[start..end]) == "" then Reject(EmptySpan)
      else if ClaimsForeignAnchor(g.anchors(raw), s) then Reject(FieldMismatch)
      else if (field == IfcClasses || field == StoreyTokens) && !HasExactAnchor(g.anchors(raw), s) then Reject(NotExactAnchor)
      else if
        field == PropertyFilters && !HasExactAnchor(g.anchors(raw), s)
        && !g.propertyMatches(raw[start..end], filters.properties[index])
      then Reject(NotExactAnchor)
      else if !FilterMatches(g, raw, filters, s) then Reject(FilterMismatch)
      else Accept(s)
  }

  function Bound(accepted: seq<Span>): set<(Field, int)> { set s | s in accepted :: (s.field, s.index) }

  datatype Scanned = Scanned(accepted: seq<Span>, codes: seq<Code>)

  /** The scan over the whole list. */
  function Scan(g: Grammar, raw: string, filters: Filters, items: seq<Item>): Scanned {
    if items == [] then Scanned([], []) else
      var before := Scan(g, raw, filters, items[..|items| - 1]);
      match Judge(g, raw, filters, Bound(before.accepted), before.accepted, items[|items| - 1])
      case Accept(span) => before.(accepted := before.accepted + [span])
      case Reject(code) => before.(codes := before.codes + [code])
  }

  function UpTo(n: nat): (r: set<int>)
    ensures forall i :: i in r <==> 0 <= i < n
  {
    if n == 0 then {} else UpTo(n - 1) + {n - 1}
  }

  predicate AllBound(filters: Filters, accepted: seq<Span>, field: Field) {
    UpTo(Size(filters, field)) == set s | s in accepted && s.field == field :: s.index
  }

  const FIELDS := [IfcClasses, StoreyTokens, PropertyFilters, NameContains]

  /** One code for each field left with an unbound filter. */
  function Unbound(filters: Filters, accepted: seq<Span>, fields: seq<Field>): seq<Code> {
    if fields == [] then [] else
      var before := Unbound(filters, accepted, fields[..|fields| - 1]);
      if AllBound(filters, accepted, fields[|fields| - 1]) then before else before + [UnboundFilter]
  }

  /** The validation raises no code. */
  predicate Passes(g: Grammar, raw: string, filters: Filters, items: seq<Item>) {
    var scan := Scan(g, raw, filters, items);
    scan.codes == [] && Unbound(filters, scan.accepted, FIELDS) == []
  }

  // ----- why an item is refused -----

  /** The item is a span over the text that names a filter no accepted span has claimed. */
  predicate MayClaim(raw: string, filters: Filters, accepted: seq<Span>, item: Item) {
    && item.Claim? && item.field.Some?
    && 0 <= item.start < item.end <= |raw| && 0 <= item.index < Size(filters, item.field.value)
    && forall p | p in accepted :: p.field != item.field.value || p.index != item.index
  }

  predicate HoldsPlace(s: Span, k: int) { s.start <= k < s.end }

  /** It shares no position of the text with an accepted span. */
  predicate IsFree(accepted: seq<Span>, item: Item)
    requires item.Claim?
  {
    forall p, k | p in accepted && item.start <= k < item.end :: !HoldsPlace(p, k)
  }

  predicate HasAnchor(anchors: seq<Anchor>, item: Item)
    requires item.Claim?
  {
    exists a :: a in anchors && a.start == item.start && a.end == item.end && Some(a.field) == item.field
  }

  /** It touches an anchor of another field. */
  predicate TouchesOther(anchors: seq<Anchor>, item: Item)
    requires item.Claim?
  {
    exists a :: a in anchors && a.start < item.end && item.start < a.end && Some(a.field) != item.field
  }

  /** The text of the span says what the filter it names says. */
  predicate SaysFilter(g: Grammar, raw: string, filters: Filters, item: Item)
    requires MayClaim(raw, filters, [], item)
  {
    var text := raw[item.start..item.end];
    match item.field.value
    case IfcClasses => g.classMatches(text, filters.classes[item.index])
    case StoreyTokens => g.storeyMatches(text, filters.storeys[item.index])
    case PropertyFilters => g.propertyMatches(text, filters.properties[item.index])
    case NameContains => g.casefold(g.removeStopwords(text)) == g.casefold(filters.names[item.index])
  }

  /** Its field has to be anchored exactly there: always for classes and storeys, for properties unless the text says them. */
  predicate LacksAnchor(g: Grammar, raw: string, filters: Filters, item: Item)
    requires MayClaim(raw, filters, [], item)
  {
    && !HasAnchor(g.anchors(raw), item)
    && (item.field in {Some(IfcClasses), Some(StoreyTokens)}
        || (item.field == Some(PropertyFilters) && !SaysFilter(g, raw, filters, item)))
  }

  /** The item claims a filter over words of its own. */
  predicate IsWorded(g: Grammar, raw: string, filters: Filters, accepted: seq<Span>, item: Item) {
    MayClaim(raw, filters, accepted, item) && IsFree(accepted, item) && g.removeStopwords(raw[item.start..item.end]) != ""
  }

  /** What an item has to be for each code. */
  predicate Earns(g: Grammar, raw: string, filters: Filters, accepted: seq<Span>, item: Item, code: Code) {
    match code
    case SpanNotObject => item.NotObject?
    case InvalidShape => item.WrongKeys?
    case InvalidRange => !item.NotObject? && !item.WrongKeys? && !MayClaim(raw, filters, accepted, item)
    case Overlapping => MayClaim(raw, filters, accepted, item) && !IsFree(accepted, item)
    case EmptySpan =>
      && MayClaim(raw, filters, accepted, item) && IsFree(accepted, item)
      && g.removeStopwords(raw[item.start..item.end]) == ""
    case FieldMismatch => IsWorded(g, raw, filters, accepted, item) && TouchesOther(g.anchors(raw), item)
    case NotExactAnchor =>
      && IsWorded(g, raw, filters, accepted, item) && !TouchesOther(g.anchors(raw), item)
      && LacksAnchor(g, raw, filters, item)
    case FilterMismatch =>
      && IsWorded(g, raw, filters, accepted, item) && !TouchesOther(g.anchors(raw), item)
      && !LacksAnchor(g, raw, filters, item) && !SaysFilter(g, raw, filters, item)
    case _ => false
  }

  /** An item is refused with a code exactly when it is what the code says, given the spans accepted before it. */
  lemma CodeExactlyWhen(g: Grammar, raw: string, filters: Filters, accepted: seq<Span>, item: Item, code: Code)
    requires forall p | p in accepted :: p.start < p.end
    ensures Judge(g, raw, filters, Bound(accepted), accepted, item) == Reject(code) <==>
      Earns(g, raw, filters, accepted, item, code)
  {
    if IsClaim(item) {
      var s := ToSpan(item);
      ClaimMeans(raw, filters, accepted, item);
      AnchorsMean(g.anchors(raw), item);
      hide OverlapsAny, IsFree, ClaimsForeignAnchor, HasExactAnchor, TouchesOther, HasAnchor, Bound, InRange, MayClaim;
    }
  }

  lemma ClaimMeans(raw: string, filters: Filters, accepted: seq<Span>, item: Item)
    requires IsClaim(item) && forall p | p in accepted :: p.start < p.end
    ensures MayClaim(raw, filters, accepted, item) <==>
      InRange(raw, filters, ToSpan(item)) && (item.field.value, item.index) !in Bound(accepted)
    ensures item.start < item.end ==> (IsFree(accepted, item) <==> !OverlapsAny(accepted, ToSpan(item)))
  {
    var s := ToSpan(item);
    forall p | p in accepted && item.start < item.end && Overlaps(s.start, s.end, p.start, p.end) ensures !IsFree(accepted, item) {
      var k := if s.start < p.start then p.start else s.start;
      assert p in accepted && item.start <= k < item.end && HoldsPlace(p, k);
    }
  }

  lemma AnchorsMean(anchors: seq<Anchor>, item: Item)
    requires IsClaim(item)
    ensures HasAnchor(anchors, item) <==> HasExactAnchor(anchors, ToSpan(item))
    ensures TouchesOther(anchors, item) <==> ClaimsForeignAnchor(anchors, ToSpan(item))
  {
    if HasExactAnchor(anchors, ToSpan(item)) { assert Anchor(item.start, item.end, item.field.value) in anchors; }
  }

  // ----- what an accepted list means, without the scan -----

  /** A span judged on its own. */
  predicate Sound(g: Grammar, raw: string, filters: Filters, s: Span) {
    && InRange(raw, filters, s)
    && g.removeStopwords(raw[s.start..s.end]) != ""
    && !ClaimsForeignAnchor(g.anchors(raw), s)
    && (s.field == IfcClasses || s.field == StoreyTokens ==> HasExactAnchor(g.anchors(raw), s))
    && FilterMatches(g, raw, filters, s)
  }

  /** Two spans side by side: no shared position, no shared filter. */
  predicate Compatible(s: Span, t: Span) {
    !Overlaps(s.start, s.end, t.start, t.end) && (s.field, s.index) != (t.field, t.index)
  }

  predicate PairwiseCompatible(spans: seq<Span>) {
    forall i, j | 0 <= i < |spans| && 0 <= j < |spans| && i != j :: Compatible(spans[i], spans[j])
  }

  predicate Covers(filters: Filters, spans: seq<Span>) {
    forall field, i | 0 <= i < Size(filters, field) :: (field, i) in Bound(spans)
  }

  predicate IsClaim(item: Item) { item.Claim? && item.field.Some? }

  predicate AllClaims(items: seq<Item>) { forall item | item in items :: IsClaim(item) }

  function ToSpan(item: Item): Span
    requires IsClaim(item)
  {
    Span(item.start, item.end, item.field.value, item.index)
  }

  function Claimed(items: seq<Item>): (r: seq<Span>)
    requires AllClaims(items)
    ensures |r| == |items|
    ensures forall i | 0 <= i < |r| :: items[i] in items && r[i] == ToSpan(items[i])
  {
    seq(|items|, i requires 0 <= i < |items| && items[i] in items => ToSpan(items[i]))
  }

  /** Every item is a sound claim, and the claims are compatible. */
  predicate SoundClaims(g: Grammar, raw: string, filters: Filters, items: seq<Item>) {
    && AllClaims(items)
    && (forall s | s in Claimed(items) :: Sound(g, raw, filters, s))
    && PairwiseCompatible(Claimed(items))
  }

  /** The order-free reading: sound, compatible claims, and every filter is claimed. */
  predicate Partition(g: Grammar, raw: string, filters: Filters, items: seq<Item>) {
    SoundClaims(g, raw, filters, items) && Covers(filters, Claimed(items))
  }

  lemma JudgeAccepts(g: Grammar, raw: string, filters: Filters, accepted: seq<Span>, item: Item)
    ensures var j := Judge(g, raw, filters, Bound(accepted), accepted, item);
      && (j.Accept? <==>
          && IsClaim(item)
          && Sound(g, raw, filters, ToSpan(item))
          && forall p | p in accepted :: Compatible(p, ToSpan(item)))
      && (j.Accept? ==> j.span == ToSpan(item))
  {
  }

  /** Whatever is submitted, the accepted spans are sound and compatible. */
  lemma {:induction false} AcceptedAreSound(g: Grammar, raw: string, filters: Filters, items: seq<Item>)
    ensures forall s | s in Scan(g, raw, filters, items).accepted :: Sound(g, raw, filters, s)
    ensures PairwiseCompatible(Scan(g, raw, filters, items).accepted)
  {
    if items != [] {
      var before := Scan(g, raw, filters, items[..|items| - 1]);
      AcceptedAreSound(g, raw, filters, items[..|items| - 1]);
      JudgeAccepts(g, raw, filters, before.accepted, items[|items| - 1]);
    }
  }

  lemma ExtendSoundClaims(g: Grammar, raw: string, filters: Filters, rest: seq<Item>, last: Item)
    requires AllClaims(rest)
    ensures SoundClaims(g, raw, filters, rest + [last]) <==>
      && SoundClaims(g, raw, filters, rest)
      && IsClaim(last)
      && Sound(g, raw, filters, ToSpan(last))
      && forall p | p in Claimed(rest) :: Compatible(p, ToSpan(last))
    ensures IsClaim(last) ==> AllClaims(rest + [last]) && Claimed(rest + [last]) == Claimed(rest) + [ToSpan(last)]
  {
    hide Sound, Compatible, PairwiseCompatible;
    if IsClaim(last) {
      assert AllClaims(rest + [last]);
      assert Claimed(rest + [last]) == Claimed(rest) + [ToSpan(last)];
      ExtendCompatible(Claimed(rest), ToSpan(last));
      assert forall s :: s in Claimed(rest + [last]) <==> s in Claimed(rest) || s == ToSpan(last);
    } else {
      assert last in rest + [last];
    }
  }

  /** No code is raised exactly when every item is a sound claim compatible with the others; all are then accepted. */
  lemma {:induction false} ScanAcceptsAll(g: Grammar, raw: string, filters: Filters, items: seq<Item>)
    ensures Scan(g, raw, filters, items).codes == [] <==> SoundClaims(g, raw, filters, items)
    ensures SoundClaims(g, raw, filters, items) ==> Scan(g, raw, filters, items).accepted == Claimed(items)
  {
    hide Sound, Judge, Compatible, PairwiseCompatible;
    if items != [] {
      var rest, last := items[..|items| - 1], items[|items| - 1];
      ScanAcceptsAll(g, raw, filters, rest);
      JudgeAccepts(g, raw, filters, Scan(g, raw, filters, rest).accepted, last);
      assert items == rest + [last];
      if AllClaims(rest) {
        ExtendSoundClaims(g, raw, filters, rest, last);
      } else {
        assert !AllClaims(items);
      }
    } else {
      NoneCompatible();
    }
  }

  lemma NoneCompatible()
    ensures PairwiseCompatible([])
  {
  }

  lemma ExtendCompatible(spans: seq<Span>, s: Span)
    ensures PairwiseCompatible(spans + [s]) <==> PairwiseCompatible(spans) && forall p | p in spans :: Compatible(p, s)
  {
    var all := spans + [s];
    assert forall i | 0 <= i < |spans| :: all[i] == spans[i] && spans[i] in spans;
    if PairwiseCompatible(all) {
      forall p | p in spans ensures Compatible(p, s) {
        var i :| 0 <= i < |spans| && spans[i] == p;
        assert Compatible(all[i], all[|spans|]);
      }
    }
    if PairwiseCompatible(spans) && forall p | p in spans :: Compatible(p, s) {
      forall i, j | 0 <= i < |all| && 0 <= j < |all| && i != j ensures Compatible(all[i], all[j]) {
        if i == |spans| { assert Compatible(all[j], s); } else if j == |spans| { assert Compatible(all[i], s); }
      }
    }
  }

  lemma NothingUnbound(filters: Filters, accepted: seq<Span>, raw: string)
    requires forall s | s in accepted :: InRange(raw, filters, s)
    ensures Unbound(filters, accepted, FIELDS) == [] <==> Covers(filters, accepted)
  {
    forall field ensures AllBound(filters, accepted, field) <==> forall i | 0 <= i < Size(filters, field) :: (field, i) in Bound(accepted) {
      AllBoundMeans(filters, accepted, raw, field);
    }
    UnboundMeans(filters, accepted, FIELDS);
    forall field: Field ensures field in FIELDS { EveryField(field); }
  }

  lemma EveryField(field: Field)
    ensures field in FIELDS
  {
    assert IfcClasses == FIELDS[0] && StoreyTokens == FIELDS[1] && PropertyFilters == FIELDS[2] && NameContains == FIELDS[3];
    match field
    case IfcClasses =>
    case StoreyTokens =>
    case PropertyFilters =>
    case NameContains =>
  }

  lemma AllBoundMeans(filters: Filters, accepted: seq<Span>, raw: string, field: Field)
    requires forall s | s in accepted :: InRange(raw, filters, s)
    ensures AllBound(filters, accepted, field) <==> forall i | 0 <= i < Size(filters, field) :: (field, i) in Bound(accepted)
  {
    var wanted := UpTo(Size(filters, field));
    var found := set s | s in accepted && s.field == field :: s.index;
    assert forall i :: i in found <==> (field, i) in Bound(accepted);
    assert found <= wanted;
  }

  lemma {:induction false} UnboundMeans(filters: Filters, accepted: seq<Span>, fields: seq<Field>)
    ensures Unbound(filters, accepted, fields) == [] <==> forall field | field in fields :: AllBound(filters, accepted, field)
  {
    if fields != [] { UnboundMeans(filters, accepted, fields[..|fields| - 1]); }
  }

  /** The one-pass validation raises no code exactly when the order-free reading holds. */
  lemma PassesIsPartition(g: Grammar, raw: string, filters: Filters, items: seq<Item>)
    ensures Passes(g, raw, filters, items) <==> Partition(g, raw, filters, items)
    ensures Passes(g, raw, filters, items) ==> Scan(g, raw, filters, items).accepted == Claimed(items)
  {
    ScanAcceptsAll(g, raw, filters, items);
    AcceptedAreSound(g, raw, filters, items);
    NothingUnbound(filters, Scan(g, raw, filters, items).accepted, raw);
  }

  // ----- the bijection -----

  function Filterings(filters: Filters): nat {
    |filters.classes| + |filters.storeys| + |filters.properties| + |filters.names|
  }

  function Slots(field: Field, n: nat): (r: set<(Field, int)>)
    ensures forall x :: x in r <==> x.0 == field && 0 <= x.1 < n
    ensures |r| == n
  {
    if n == 0 then {} else Slots(field, n - 1) + {(field, n - 1 as int)}
  }

  function AllSlots(filters: Filters): set<(Field, int)> {
    Slots(IfcClasses, |filters.classes|) + Slots(StoreyTokens, |filters.storeys|)
    + Slots(PropertyFilters, |filters.properties|) + Slots(NameContains, |filters.names|)
  }

  lemma SlotMember(filters: Filters, slot: (Field, int))
    ensures slot in AllSlots(filters) <==> 0 <= slot.1 < Size(filters, slot.0)
  {
    var a, b := Slots(IfcClasses, |filters.classes|), Slots(StoreyTokens, |filters.storeys|);
    var c, d := Slots(PropertyFilters, |filters.properties|), Slots(NameContains, |filters.names|);
    assert slot in AllSlots(filters) <==> slot in a || slot in b || slot in c || slot in d;
  }

  lemma SlotCount(filters: Filters)
    ensures |AllSlots(filters)| == Filterings(filters)
  {
    var a, b := Slots(IfcClasses, |filters.classes|), Slots(StoreyTokens, |filters.storeys|);
    var c, d := Slots(PropertyFilters, |filters.properties|), Slots(NameContains, |filters.names|);
    assert a !! b && |a + b| == |a| + |b|;
    assert (a + b) !! c && |a + b + c| == |a + b| + |c|;
    assert (a + b + c) !! d;
  }

  lemma {:induction false} DistinctFilters(spans: seq<Span>)
    requires PairwiseCompatible(spans)
    ensures |Bound(spans)| == |spans|
  {
    if spans != [] {
      var rest, last := spans[..|spans| - 1], spans[|spans| - 1];
      assert spans == rest + [last];
      ExtendCompatible(rest, last);
      DistinctFilters(rest);
      assert Bound(spans) == Bound(rest) + {(last.field, last.index)};
      assert (last.field, last.index) !in Bound(rest);
    }
  }

  /** Sound, compatible spans that cover every filter are as many as the filters. */
  lemma SpansCount(raw: string, filters: Filters, spans: seq<Span>)
    requires forall s | s in spans :: InRange(raw, filters, s)
    requires PairwiseCompatible(spans) && Covers(filters, spans)
    ensures |spans| == Filterings(filters)
  {
    hide Compatible, PairwiseCompatible, AllSlots;
    DistinctFilters(spans);
    SlotCount(filters);
    forall slot ensures slot in AllSlots(filters) <==> slot in Bound(spans) {
      SlotMember(filters, slot);
      assert 0 <= slot.1 < Size(filters, slot.0) ==> (slot.0, slot.1) in Bound(spans);
      if slot in Bound(spans) {
        var s :| s in spans && slot == (s.field, s.index);
        assert InRange(raw, filters, s);
      }
    }
    assert AllSlots(filters) == Bound(spans);
  }

  /** A candidate that passes has as many spans as filters, and each filter is claimed by exactly one span. */
  lemma SpansMatchFilters(g: Grammar, raw: string, filters: Filters, items: seq<Item>)
    requires Passes(g, raw, filters, items)
    ensures var spans := Scan(g, raw, filters, items).accepted;
      && |spans| == |items| == Filterings(filters)
      && (forall s | s in spans :: InRange(raw, filters, s))
      && (forall field, i | 0 <= i < Size(filters, field) :: (field, i) in Bound(spans))
      && (forall k, l | 0 <= k < l < |spans| ::
            (spans[k].field, spans[k].index) != (spans[l].field, spans[l].index)
            && (spans[k].end <= spans[l].start || spans[l].end <= spans[k].start))
  {
    hide Scan, FilterMatches, Unbound;
    PassesIsPartition(g, raw, filters, items);
    var spans := Scan(g, raw, filters, items).accepted;
    assert forall s | s in spans :: InRange(raw, filters, s) by { assert forall s | s in spans :: Sound(g, raw, filters, s); }
    SpansCount(raw, filters, spans);
    forall k, l | 0 <= k < l < |spans|
      ensures (spans[k].field, spans[k].index) != (spans[l].field, spans[l].index)
      ensures spans[k].end <= spans[l].start || spans[l].end <= spans[k].start
    {
      assert Compatible(spans[k], spans[l]) && spans[k] in spans && spans[l] in spans;
    }
  }

  // ----- the order of the items -----

  lemma {:induction false} NoRepeats<T>(s: seq<T>)
    requires forall i, j | 0 <= i < j < |s| :: s[i] != s[j]
    ensures forall x :: multiset(s)[x] <= 1
  {
    if s != [] {
      var rest, last := s[..|s| - 1], s[|s| - 1];
      assert s == rest + [last];
      NoRepeats(rest);
      assert last !in rest;
      assert multiset(rest)[last] == 0;
    }
  }

  lemma {:induction false} RepeatCounts<T>(s: seq<T>, i: nat, j: nat)
    requires i < j < |s| && s[i] == s[j]
    ensures multiset(s)[s[i]] > 1
  {
    var rest, last := s[..|s| - 1], s[|s| - 1];
    assert s == rest + [last];
    if j == |rest| {
      assert rest[i] == last && last in rest;
      assert multiset(rest)[last] > 0;
    } else {
      RepeatCounts(rest, i, j);
    }
  }

  lemma SoundClaimsInAnyOrder(g: Grammar, raw: string, filters: Filters, items: seq<Item>, other: seq<Item>)
    requires multiset(items) == multiset(other) && SoundClaims(g, raw, filters, items)
    requires forall item :: item in items <==> item in other
    ensures SoundClaims(g, raw, filters, other)
  {
    hide Sound;
    SameSpans(items, other);
    var spans, others := Claimed(items), Claimed(other);
    forall i, j | 0 <= i < j < |items| ensures items[i] != items[j] {
      assert Compatible(spans[i], spans[j]);
    }
    NoRepeats(items);
    forall i, j | 0 <= i < |others| && 0 <= j < |others| && i != j ensures Compatible(others[i], others[j]) {
      if other[i] == other[j] {
        if i < j { RepeatCounts(other, i, j); } else { RepeatCounts(other, j, i); }
      }
      assert other[i] in other && other[j] in other;
      var k :| 0 <= k < |items| && items[k] == other[i];
      var l :| 0 <= l < |items| && items[l] == other[j];
      assert Compatible(spans[k], spans[l]);
    }
  }

  /** Reordering the submitted items changes neither the outcome nor which spans are accepted. */
  lemma OrderDoesNotMatter(g: Grammar, raw: string, filters: Filters, items: seq<Item>, other: seq<Item>)
    requires multiset(items) == multiset(other) && Passes(g, raw, filters, items)
    ensures Passes(g, raw, filters, other)
    ensures forall s :: s in Scan(g, raw, filters, items).accepted <==> s in Scan(g, raw, filters, other).accepted
  {
    hide Scan, SoundClaims, Passes;
    PassesIsPartition(g, raw, filters, items);
    PartitionClaims(g, raw, filters, items);
    forall item ensures item in items <==> item in other {
      assert item in items <==> item in multiset(items);
      assert item in other <==> item in multiset(other);
    }
    SoundClaimsInAnyOrder(g, raw, filters, items, other);
    SameSpans(items, other);
    assert Bound(Claimed(items)) == Bound(Claimed(other));
    PassesIsPartition(g, raw, filters, other);
  }

  lemma PartitionClaims(g: Grammar, raw: string, filters: Filters, items: seq<Item>)
    requires SoundClaims(g, raw, filters, items)
    ensures AllClaims(items)
  {
  }

  lemma SameSpans(items: seq<Item>, other: seq<Item>)
    requires forall item :: item in items <==> item in other
    requires AllClaims(items)
    ensures forall s :: s in Claimed(items) <==> s in Claimed(other)
  {
    ClaimedMembers(items);
    ClaimedMembers(other);
  }

  lemma ClaimedMembers(items: seq<Item>)
    requires AllClaims(items)
    ensures forall s: Span :: s in Claimed(items) <==> Claim(s.start, s.end, Some(s.field), s.index) in items
  {
    forall s: Span ensures s in Claimed(items) <==> Claim(s.start, s.end, Some(s.field), s.index) in items {
      var item := Claim(s.start, s.end, Some(s.field), s.index);
      if item in items {
        var i :| 0 <= i < |items| && items[i] == item;
        assert Claimed(items)[i] == s;
      }
    }
  }

  // ----- the text that is left -----

  predicate Inside(spans: seq<Span>, i: int) { exists s | s in spans :: s.start <= i < s.end }

  /** The query with every accepted position turned into a blank. */
  function Blanked(raw: string, spans: seq<Span>): (r: string)
    ensures |r| == |raw|
  {
    seq(|raw|, i requires 0 <= i < |raw| => if Inside(spans, i) then ' ' else raw[i])
  }

  /** The nested loops that overwrite the accepted ranges in the character list. */
  method BlankOut(raw: string, spans: seq<Span>) returns (text: string)
    requires forall s | s in spans :: 0 <= s.start < s.end <= |raw|
    ensures text == Blanked(raw, spans)
  {
    var remaining := new char[|raw|](i requires 0 <= i < |raw| => raw[i]);
    for k := 0 to |spans|
      invariant forall i | 0 <= i < |raw| :: remaining[i] == if Inside(spans[..k], i) then ' ' else raw[i]
    {
      var s := spans[k];
      assert s in spans && spans[..k + 1] == spans[..k] + [s];
      for index := s.start to s.end
        invariant forall i | 0 <= i < |raw| ::
          remaining[i] == if Inside(spans[..k], i) || s.start <= i < index then ' ' else raw[i]
      {
        remaining[index] := ' ';
      }
      forall i | 0 <= i < |raw| ensures Inside(spans[..k + 1], i) <==> Inside(spans[..k], i) || s.start <= i < s.end {
        InsideMore(spans[..k], s, i);
      }
    }
    assert spans[..|spans|] == spans;
    text := remaining[..];
  }

  lemma InsideMore(spans: seq<Span>, s: Span, i: int)
    ensures Inside(spans + [s], i) <==> Inside(spans, i) || s.start <= i < s.end
  {
    assert forall t :: t in spans + [s] <==> t in spans || t == s;
  }

  // ----- the candidate -----

  function AppendUnique<T(==)>(target: seq<T>, value: T): seq<T> {
    if value in target then target else target + [value]
  }

  function AppendCodes(target: seq<Code>, codes: seq<Code>): seq<Code> {
    if codes == [] then target else AppendUnique(AppendCodes(target, codes[..|codes| - 1]), codes[|codes| - 1])
  }

  /** `_append_unique` on texts, which leaves out empty ones. */
  function AppendTerms(target: seq<string>, terms: seq<string>): (r: seq<string>)
    ensures forall t :: t in r <==> t in target || (t in terms && t != "")
  {
    if terms == [] then target else
      var before, last := AppendTerms(target, terms[..|terms| - 1]), terms[|terms| - 1];
      assert terms == terms[..|terms| - 1] + [last];
      if last == "" then before else AppendUnique(before, last)
  }

  function Shorten(text: string): string { if |text| > 120 then text[..120] else text }

  /** The interpretation of a query, which the validation updates in place. */
  class Candidate {
    const raw: string
    const filters: Filters
    var schemaValid: bool
    var usable: bool
    var complete: bool
    var errors: seq<Code>
    var unresolved: seq<string>
    var consumed: seq<Span>

    constructor (raw: string, filters: Filters, schemaValid: bool)
      ensures this.raw == raw && this.filters == filters && this.schemaValid == schemaValid
      ensures !usable && !complete && errors == [] && unresolved == [] && consumed == []
    {
      this.raw, this.filters, this.schemaValid := raw, filters, schemaValid;
      usable, complete, errors, unresolved, consumed := false, false, [], [], [];
    }

    method MarkInvalid(code: Code)
      modifies `schemaValid, `errors
      ensures !schemaValid && errors == AppendUnique(old(errors), code)
    {
      schemaValid := false;
      errors := AppendUnique(errors, code);
    }

    /**
     `_validate_consumed_spans`. The candidate stays schema-valid exactly when the submission is a list
     that passes; whatever is submitted, the accepted spans and the text they leave are those of the scan.
     */
    method ValidateConsumedSpans(g: Grammar, submission: Submission)
      requires consumed == []
      modifies `schemaValid, `errors, `unresolved, `consumed
      ensures submission.NotList? ==>
        && !schemaValid && errors == AppendUnique(old(errors), SpansNotList)
        && consumed == [] && unresolved == old(unresolved)
      ensures submission.Items? ==>
        var scan := Scan(g, raw, filters, submission.items);
        && (schemaValid <==> old(schemaValid) && Passes(g, raw, filters, submission.items))
        && consumed == scan.accepted
        && errors == AppendCodes(old(errors), scan.codes + Unbound(filters, scan.accepted, FIELDS))
        && unresolved == AppendTerms(
             AppendTerms(old(unresolved), [Shorten(g.removeStopwords(Blanked(raw, scan.accepted)))]),
             g.unsupportedTerms(raw, filters))
    {
      if submission.NotList? {
        MarkInvalid(SpansNotList);
        return;
      }
      var accepted := ScanItems(g, submission.items);
      MarkUnbound(accepted, FIELDS);
      CodesInTurn(old(errors), Scan(g, raw, filters, submission.items).codes, Unbound(filters, accepted, FIELDS));
      AcceptedAreSound(g, raw, filters, submission.items);
      var text := BlankOut(raw, accepted);
      unresolved := AppendTerms(unresolved, [Shorten(g.removeStopwords(text))]);
      unresolved := AppendTerms(unresolved, g.unsupportedTerms(raw, filters));
    }

    /** The loop over the submitted items. */
    method ScanItems(g: Grammar, items: seq<Item>) returns (accepted: seq<Span>)
      requires consumed == []
      modifies `schemaValid, `errors, `consumed
      ensures var scan := Scan(g, raw, filters, items);
        && accepted == consumed == scan.accepted
        && (schemaValid <==> old(schemaValid) && scan.codes == [])
        && errors == AppendCodes(old(errors), scan.codes)
    {
      var bound: set<(Field, int)> := {};
      accepted := [];
      for k := 0 to |items|
        invariant accepted == Scan(g, raw, filters, items[..k]).accepted == consumed
        invariant bound == Bound(accepted)
        invariant schemaValid <==> old(schemaValid) && Scan(g, raw, filters, items[..k]).codes == []
        invariant errors == AppendCodes(old(errors), Scan(g, raw, filters, items[..k]).codes)
      {
        assert items[..k + 1][..k] == items[..k];
        match Judge(g, raw, filters, bound, accepted, items[k]) {
          case Reject(code) =>
            AppendOneMore(old(errors), Scan(g, raw, filters, items[..k]).codes, code);
            MarkInvalid(code);
          case Accept(span) =>
            accepted := accepted + [span];
            bound := bound + {(span.field, span.index)};
            consumed := consumed + [span];
        }
      }
      assert items[..|items|] == items;
    }

    /** The loop over the fields, in search of filters no span claims. */
    method MarkUnbound(accepted: seq<Span>, fields: seq<Field>)
      modifies `schemaValid, `errors
      ensures schemaValid <==> old(schemaValid) && Unbound(filters, accepted, fields) == []
      ensures errors == AppendCodes(old(errors), Unbound(filters, accepted, fields))
    {
      hide AllBound;
      for k := 0 to |fields|
        invariant schemaValid <==> old(schemaValid) && Unbound(filters, accepted, fields[..k]) == []
        invariant errors == AppendCodes(old(errors), Unbound(filters, accepted, fields[..k]))
      {
        assert fields[..k + 1][..k] == fields[..k];
        if !AllBound(filters, accepted, fields[k]) {
          AppendOneMore(old(errors), Unbound(filters, accepted, fields[..k]), UnboundFilter);
          MarkInvalid(UnboundFilter);
        }
      }
      assert fields[..|fields|] == fields;
    }

    /** `refresh_validation`. */
    method RefreshValidation()
      modifies `usable, `complete
      ensures usable <==> schemaValid && Filterings(filters) > 0
      ensures complete <==> usable && unresolved == []
    {
      usable := schemaValid && (filters.classes != [] || filters.storeys != [] || filters.properties != [] || filters.names != []);
      complete := usable && unresolved == [];
    }

    /**
     Validation followed by the refresh. A candidate ends complete exactly when it was schema-valid, has a
     filter, its spans partition the filters, the query outside the spans is only stop words and
     punctuation, and the query holds no unsupported term.
     */
    method Validate(g: Grammar, submission: Submission)
      requires consumed == [] && unresolved == []
      modifies this
      ensures usable <==>
        old(schemaValid) && Filterings(filters) > 0
        && submission.Items? && Partition(g, raw, filters, submission.items)
      ensures complete <==>
        && usable
        && g.removeStopwords(Blanked(raw, consumed)) == ""
        && forall t | t in g.unsupportedTerms(raw, filters) :: t == ""
      ensures usable ==> consumed == Claimed(submission.items)
    {
      ValidateConsumedSpans(g, submission);
      RefreshValidation();
      if submission.Items? {
        PassesIsPartition(g, raw, filters, submission.items);
        TermsEmpty(Shorten(g.removeStopwords(Blanked(raw, consumed))), g.unsupportedTerms(raw, filters));
      }
    }
  }

  lemma AppendOneMore(target: seq<Code>, codes: seq<Code>, code: Code)
    ensures AppendCodes(target, codes + [code]) == AppendUnique(AppendCodes(target, codes), code)
  {
    assert (codes + [code])[..|codes|] == codes;
  }

  lemma {:induction false} CodesInTurn(target: seq<Code>, codes: seq<Code>, more: seq<Code>)
    ensures AppendCodes(AppendCodes(target, codes), more) == AppendCodes(target, codes + more)
  {
    if more != [] {
      var rest, last := more[..|more| - 1], more[|more| - 1];
      assert codes + more == codes + rest + [last];
      CodesInTurn(target, codes, rest);
      AppendOneMore(target, codes + rest, last);
    } else {
      assert codes + more == codes;
    }
  }

  lemma TermsEmpty(first: string, terms: seq<string>)
    ensures AppendTerms(AppendTerms([], [first]), terms) == [] <==> first == "" && forall t | t in terms :: t == ""
  {
    var all := AppendTerms(AppendTerms([], [first]), terms);
    assert first in [first];
    assert first != "" ==> first in all;
    assert forall t | t in terms && t != "" :: t in all;
    if all != [] {
      assert all[0] in all;
    }
  }
}
