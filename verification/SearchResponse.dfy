/** The bounded search response: trimming the rows to the wire limit, then attaching proofs within what is left. */
module SearchResponse {
  import opened CanonicalJson
  import opened Options
  import opened SearchScan

  const MAX_RESPONSE := 1792 * 1024
  const MARGIN := 16 * 1024
  const WIRE_LIMIT := MAX_RESPONSE - MARGIN
  const MAX_PROOF_BYTES := 512 * 1024
  const MAX_PROOF_ROWS := 128
  const MAX_PROOF_ATTEMPTS := 128

  datatype Proof = Proof(id: string, token: Json, snapshot: Json, expires: Json)

  /** A result row. The core members hold the table data; the rest is what proofs change. */
  datatype Row = Row(
    core: seq<Member>,
    mapped: bool,
    proof: Option<Proof>,
    actionEligible: bool,
    proofEligible: bool,
    issueEligible: bool,
    highlightEligible: bool)

  predicate IsBare(r: Row) {
    r.proof.None? && !r.actionEligible && !r.proofEligible && !r.issueEligible && !r.highlightEligible
  }

  function FlagMembers(r: Row): seq<Member> {
    [Member("mapping_observed", Flag(r.mapped)),
     Member("match_status", Word("matched_query")),
     Member("action_eligible", Flag(r.actionEligible)),
     Member("proof_eligible", Flag(r.proofEligible)),
     Member("issue_eligible", Flag(r.issueEligible)),
     Member("highlight_eligible", Flag(r.highlightEligible))]
  }

  function ProofMembers(p: Proof): seq<Member> {
    [Member("evidence_proof", p.token), Member("a4_evidence_snapshot", p.snapshot), Member("proof_expires_at", p.expires)]
  }

  function RowJson(r: Row): Json {
    Obj(r.core + FlagMembers(r) + if r.proof.Some? then ProofMembers(r.proof.value) else [])
  }

  /** What the accounting weighs before a proof is attached. */
  function AttachmentJson(p: Proof): Json { Obj(ProofMembers(p)) }

  /** The row with a proof: three members more, and its flags raised. */
  function Attached(r: Row, p: Proof): Row {
    r.(proof := Some(p), proofEligible := true, issueEligible := true, actionEligible := r.mapped, highlightEligible := r.mapped)
  }

  function RowsJson(rows: seq<Row>): (js: seq<Json>)
    ensures |js| == |rows|
  {
    if rows == [] then [] else RowsJson(rows[..|rows| - 1]) + [RowJson(rows[|rows| - 1])]
  }

  function Mapped(rows: seq<Row>): (n: nat)
    ensures n <= |rows|
  {
    if rows == [] then 0 else Mapped(rows[..|rows| - 1]) + if rows[|rows| - 1].mapped then 1 else 0
  }

  predicate AnyHighlight(rows: seq<Row>) { exists r | r in rows :: r.highlightEligible }

  /** What a finished scan hands over; base holds the members of the base response that are kept. */
  datatype Scan = Scan(base: seq<Member>, candidates: nat, scanned: nat, missed: nat, matched: nat, partial: bool, degraded: bool)

  function ConstantMembers(s: Scan): seq<Member> {
    [Member("status", Word("ok")),
     Member("partial_execution_confirmed", Flag(s.partial)),
     Member("partial_confirmation_available", Flag(false)),
     Member("partial_fallback_id", Null),
     Member("degraded_to_deterministic", Flag(s.degraded))]
  }

  function ConstantStats(s: Scan): seq<Member> {
    [Member("total", Count(s.candidates)),
     Member("scanned", Count(s.scanned)),
     Member("matched", Count(s.matched)),
     Member("not_matched", Count(s.missed)),
     Member("total_is_lower_bound", Flag(false)),
     Member("scan_complete", Flag(true))]
  }

  function Truncated(s: Scan, rows: seq<Row>): bool { s.matched > |rows| }

  function PageStats(s: Scan, rows: seq<Row>, proofs: nat, limited: bool): seq<Member> {
    [Member("returned", Count(|rows|)),
     Member("mapped", Count(Mapped(rows))),
     Member("unmapped", Count(|rows| - Mapped(rows))),
     Member("truncated", Flag(Truncated(s, rows))),
     Member("proof_eligible_returned", Count(proofs)),
     Member("proof_limited", Flag(limited))]
  }

  function Stats(s: Scan, rows: seq<Row>, proofs: nat, limited: bool): Json {
    Obj(ConstantStats(s) + PageStats(s, rows, proofs, limited))
  }

  function CompletionScope(s: Scan, rows: seq<Row>): Json {
    Word(if s.partial then "partial_table_only" else if !Truncated(s, rows) then "complete_table" else "truncated_table")
  }

  function NextStep(s: Scan, rows: seq<Row>): Json {
    if Truncated(s, rows) then Word("narrow_query_or_reduce_result_limit")
    else if rows != [] then Null
    else Word("broaden_filters_or_check_model_content")
  }

  /** `_success_response`. */
  function Response(s: Scan, rows: seq<Row>, proofs: nat, limited: bool): Json {
    Obj(s.base + ConstantMembers(s) + [
      Member("results", Arr(RowsJson(rows))),
      Member("stats", Stats(s, rows, proofs, limited)),
      Member("completion_scope", CompletionScope(s, rows)),
      Member("proof_eligible", Flag(proofs > 0)),
      Member("issue_eligible", Flag(proofs > 0)),
      Member("highlight_eligible", Flag(AnyHighlight(rows)))] + [
      Member("next_step", NextStep(s, rows))])
  }

  function Unproved(s: Scan, rows: seq<Row>): Json { Response(s, rows, 0, true) }

  // ----- what a response weighs -----

  function RowsWeight(rows: seq<Row>): nat { Total(RowsJson(rows)) + Commas(|rows|) }

  /** The bytes that depend on the rows and the proofs. */
  function Varying(s: Scan, rows: seq<Row>, proofs: nat, limited: bool): nat {
    RowsWeight(rows)
    + Digits(|rows|) + Digits(Mapped(rows)) + Digits(|rows| - Mapped(rows))
    + FlagSize(Truncated(s, rows)) + Digits(proofs) + FlagSize(limited)
    + Size(CompletionScope(s, rows))
    + FlagSize(proofs > 0) + FlagSize(proofs > 0) + FlagSize(AnyHighlight(rows))
    + Size(NextStep(s, rows))
  }

  /** The bytes that do not. */
  function Steady(s: Scan): nat { Sum(s.base + ConstantMembers(s)) + |s.base| + 5 + Sum(ConstantStats(s)) + 212 }

  lemma StatsSize(s: Scan, rows: seq<Row>, proofs: nat, limited: bool)
    ensures Size(Stats(s, rows, proofs, limited)) ==
      Sum(ConstantStats(s)) + 98
      + Digits(|rows|) + Digits(Mapped(rows)) + Digits(|rows| - Mapped(rows))
      + FlagSize(Truncated(s, rows)) + Digits(proofs) + FlagSize(limited)
  {
    hide Sum, Mapped;
    var members := PageStats(s, rows, proofs, limited);
    SumSix(members[0], members[1], members[2], members[3], members[4], members[5]);
    SumConcat(ConstantStats(s), members);
  }

  lemma ResponseSize(s: Scan, rows: seq<Row>, proofs: nat, limited: bool)
    ensures Size(Response(s, rows, proofs, limited)) == Steady(s) + Varying(s, rows, proofs, limited)
  {
    hide Sum, Mapped, Stats, ConstantStats, RowsJson, Total, AnyHighlight, NextStep, CompletionScope;
    var members := [
      Member("results", Arr(RowsJson(rows))),
      Member("stats", Stats(s, rows, proofs, limited)),
      Member("completion_scope", CompletionScope(s, rows)),
      Member("proof_eligible", Flag(proofs > 0)),
      Member("issue_eligible", Flag(proofs > 0)),
      Member("highlight_eligible", Flag(AnyHighlight(rows)))];
    var next := Member("next_step", NextStep(s, rows));
    StatsSize(s, rows, proofs, limited);
    SumSix(members[0], members[1], members[2], members[3], members[4], members[5]);
    SumOne(next);
    SumConcat(s.base + ConstantMembers(s), members);
    SumConcat(s.base + ConstantMembers(s) + members, [next]);
  }

  lemma FlagsSize(r: Row)
    ensures |FlagMembers(r)| == 6
    ensures Sum(FlagMembers(r)) == 122
      + FlagSize(r.mapped) + FlagSize(r.actionEligible) + FlagSize(r.proofEligible)
      + FlagSize(r.issueEligible) + FlagSize(r.highlightEligible)
  {
    hide Sum;
    var flags := FlagMembers(r);
    SumSix(flags[0], flags[1], flags[2], flags[3], flags[4], flags[5]);
  }

  lemma RowSize(r: Row)
    ensures Size(RowJson(r)) ==
      Sum(r.core) + |r.core| + 7 + Sum(FlagMembers(r))
      + if r.proof.Some? then Sum(ProofMembers(r.proof.value)) + 3 else 0
  {
    hide Sum, FlagMembers, ProofMembers;
    var flags, extra := FlagMembers(r), if r.proof.Some? then ProofMembers(r.proof.value) else [];
    FlagsSize(r);
    SumConcat(r.core, flags);
    SumConcat(r.core + flags, extra);
    SumNone();
    assert r.proof.Some? ==> |extra| == 3 by { ThreeProofMembers(r); }
  }

  lemma ThreeProofMembers(r: Row)
    ensures r.proof.Some? ==> |ProofMembers(r.proof.value)| == 3
  {
  }

  lemma RowsGrow(rows: seq<Row>, r: Row)
    ensures Total(RowsJson(rows + [r])) == Total(RowsJson(rows)) + Size(RowJson(r))
    ensures Mapped(rows + [r]) == Mapped(rows) + if r.mapped then 1 else 0
    ensures Proved(rows + [r]) == Proved(rows) + if r.proof.Some? then 1 else 0
  {
    hide RowJson, Size;
    assert (rows + [r])[..|rows|] == rows;
    var js := RowsJson(rows + [r]);
    assert js[..|js| - 1] == RowsJson(rows);
  }

  function Proved(rows: seq<Row>): nat {
    if rows == [] then 0 else Proved(rows[..|rows| - 1]) + if rows[|rows| - 1].proof.Some? then 1 else 0
  }

  /** Attaching a proof grows a row by at least three bytes less than the accounting charges for it. */
  lemma AttachmentIsOvercharged(r: Row, p: Proof)
    requires IsBare(r)
    ensures Size(RowJson(Attached(r, p))) + 3 + (if r.mapped then 2 else 0) == Size(RowJson(r)) + Size(AttachmentJson(p))
  {
    hide Sum, FlagMembers, RowJson;
    RowSize(r);
    RowSize(Attached(r, p));
    FlagsSize(r);
    FlagsSize(Attached(r, p));
  }

  /** The page the accounting measures is one byte smaller than the same page without the limited flag. */
  lemma MeasuredOneByteShort(s: Scan, rows: seq<Row>)
    ensures Size(Response(s, rows, 0, false)) == Size(Unproved(s, rows)) + 1
  {
    hide Response, Steady, RowsJson, Mapped, Size, AnyHighlight, NextStep, CompletionScope, Digits;
    ResponseSize(s, rows, 0, true);
    ResponseSize(s, rows, 0, false);
  }

  // ----- trimming -----

  /**
   A page with one row more is larger, although a complete page drops the long hint of a truncated one:
   the fixed members of a row outweigh it.
   */
  lemma OneMoreRow(s: Scan, rows: seq<Row>, r: Row)
    requires IsBare(r) && (forall q | q in rows :: IsBare(q)) && |rows| < s.matched
    ensures Size(Unproved(s, rows)) < Size(Unproved(s, rows + [r]))
  {
    hide Response, Steady, RowJson, RowsJson, Mapped, Size, FlagMembers, AnyHighlight, Digits, NextStep, CompletionScope, Sum, Total;
    var more := rows + [r];
    ResponseSize(s, rows, 0, true);
    ResponseSize(s, more, 0, true);
    RowSize(r);
    FlagsSize(r);
    RowsGrow(rows, r);
    NoHighlight(rows);
    NoHighlight(more);
    TextSizes(s, rows);
    TextSizes(s, more);
    DigitsGrow(|rows|, |more|);
    DigitsGrow(Mapped(rows), Mapped(more));
    DigitsGrow(|rows| - Mapped(rows), |more| - Mapped(more));
  }

  lemma NoHighlight(rows: seq<Row>)
    requires forall q | q in rows :: IsBare(q)
    ensures !AnyHighlight(rows)
  {
  }

  /** What the status texts weigh. */
  lemma TextSizes(s: Scan, rows: seq<Row>)
    ensures 16 <= Size(CompletionScope(s, rows)) <= 20
    ensures Truncated(s, rows) ==> Size(NextStep(s, rows)) == 37
    ensures 4 <= Size(NextStep(s, rows))
  {
  }

  lemma {:induction false} LargerPages(s: Scan, rows: seq<Row>, k: nat, l: nat)
    requires k <= l <= |rows| <= s.matched && forall q | q in rows :: IsBare(q)
    ensures Size(Unproved(s, rows[..k])) <= Size(Unproved(s, rows[..l]))
  {
    hide Unproved;
    if k < l {
      LargerPages(s, rows, k, l - 1);
      OneMoreRow(s, rows[..l - 1], rows[l - 1]);
      assert rows[..l - 1] + [rows[l - 1]] == rows[..l];
    }
  }

  /** The first k rows fit the limit, and no longer prefix does. */
  predicate LongestFit(s: Scan, rows: seq<Row>, limit: nat, k: nat) {
    && k <= |rows|
    && Size(Unproved(s, rows[..k])) <= limit
    && forall l | k < l <= |rows| :: Size(Unproved(s, rows[..l])) > limit
  }

  /** The binary search that keeps as many rows as fit; it fails only if not even an empty page fits. */
  method Trim(s: Scan, rows: seq<Row>, limit: nat) returns (fits: bool, kept: seq<Row>)
    requires |rows| <= s.matched && forall q | q in rows :: IsBare(q)
    ensures fits <==> Size(Unproved(s, [])) <= limit
    ensures kept <= rows
    ensures fits ==> LongestFit(s, rows, limit, |kept|)
  {
    hide Unproved;
    assert rows[..0] == [] && rows[..|rows|] == rows;
    LargerPages(s, rows, 0, |rows|);
    kept := rows;
    if Size(Unproved(s, rows)) > limit {
      var low, high := 0, |rows|;
      while low < high
        invariant 0 <= low <= high <= |rows|
        invariant low > 0 ==> Size(Unproved(s, rows[..low])) <= limit
        invariant forall l | high < l <= |rows| :: Size(Unproved(s, rows[..l])) > limit
      {
        var midpoint := (low + high + 1) / 2;
        if Size(Unproved(s, rows[..midpoint])) <= limit {
          low := midpoint;
        } else {
          forall l | midpoint <= l <= |rows| ensures Size(Unproved(s, rows[..l])) > limit {
            LargerPages(s, rows, midpoint, l);
          }
          high := midpoint - 1;
        }
      }
      kept := rows[..low];
      LargerPages(s, rows, 0, low);
      fits := Size(Unproved(s, kept)) <= limit;
    } else {
      fits := true;
    }
  }

  // ----- proofs -----

  /** Where the attachment loop stands; live holds the ids of the proofs the registry keeps. */
  datatype Progress = Progress(rows: seq<Row>, proofs: nat, attempts: nat, bytes: nat, limited: bool, live: set<string>)

  /** What the registry answers for a row, given the proofs it keeps. */
  type Mint = (Row, set<string>) -> Option<Proof>

  /** A minted proof is registered unless its id is taken. */
  function Issue(mint: Mint, row: Row, live: set<string>): (p: Option<Proof>)
    ensures p.Some? ==> p.value.id !in live
  {
    var p := mint(row, live);
    if p.Some? && p.value.id in live then None else p
  }

  /** One round of the loop; once limited, rows pass unchanged. */
  function Attach(mint: Mint, limit: nat, p: Progress, row: Row): Progress {
    if p.limited then p.(rows := p.rows + [row])
    else if p.proofs >= MAX_PROOF_ROWS || p.attempts >= MAX_PROOF_ATTEMPTS then p.(rows := p.rows + [row], limited := true)
    else
      var tried := p.(attempts := p.attempts + 1);
      var proof := Issue(mint, row, p.live);
      if proof.None? then tried.(rows := p.rows + [row])
      else
        var charge := Size(AttachmentJson(proof.value));
        if p.bytes + charge > limit then tried.(rows := p.rows + [row], limited := true)
        else
          tried.(rows := p.rows + [Attached(row, proof.value)], proofs := p.proofs + 1, bytes := p.bytes + charge,
                 live := p.live + {proof.value.id})
  }

  function AttachAll(mint: Mint, limit: nat, live: set<string>, rows: seq<Row>): Progress {
    if rows == [] then Progress([], 0, 0, 0, false, live)
    else Attach(mint, limit, AttachAll(mint, limit, live, rows[..|rows| - 1]), rows[|rows| - 1])
  }

  lemma {:induction false} StoppedStays(mint: Mint, limit: nat, live: set<string>, rows: seq<Row>, k: nat)
    requires k <= |rows| && AttachAll(mint, limit, live, rows[..k]).limited
    ensures AttachAll(mint, limit, live, rows) ==
      AttachAll(mint, limit, live, rows[..k]).(rows := AttachAll(mint, limit, live, rows[..k]).rows + rows[k..])
  {
    hide Attach;
    if k == |rows| {
      assert rows[..k] == rows && rows[k..] == [];
    } else {
      var rest, last := rows[..|rows| - 1], rows[|rows| - 1];
      assert rest[..k] == rows[..k] && rest[k..] + [last] == rows[k..];
      StoppedStays(mint, limit, live, rest, k);
      PassesUnchanged(mint, limit, AttachAll(mint, limit, live, rest), last);
    }
  }

  lemma PassesUnchanged(mint: Mint, limit: nat, p: Progress, row: Row)
    requires p.limited
    ensures Attach(mint, limit, p, row) == p.(rows := p.rows + [row])
  {
  }

  /** The ids of the proofs in the rows. */
  function ProofIds(rows: seq<Row>): set<string> { set r | r in rows && r.proof.Some? :: r.proof.value.id }

  /** A row after the loop: as it was, or with a proof the registry gave for it. */
  predicate RowOutcome(before: Row, after: Row) {
    after == before || (after.proof.Some? && after == Attached(before, after.proof.value))
  }

  predicate RowOutcomes(before: seq<Row>, after: seq<Row>) {
    |after| == |before| && forall i | 0 <= i < |before| :: RowOutcome(before[i], after[i])
  }

  /**
   What the loop keeps: within the budget, counts that match the rows, a registry that gained exactly the
   proofs the rows show, and rows whose growth is covered by what was charged.
   */
  predicate Accounts(rows: seq<Row>, live: set<string>, limit: nat, p: Progress) {
    && RowOutcomes(rows, p.rows)
    && p.proofs == Proved(p.rows) <= MAX_PROOF_ROWS
    && p.bytes <= limit
    && (p.proofs == 0 ==> p.bytes == 0 && p.rows == rows)
    && p.live == live + ProofIds(p.rows)
    && live !! ProofIds(p.rows)
    && |ProofIds(p.rows)| == p.proofs
    && Total(RowsJson(p.rows)) + 3 * p.proofs <= Total(RowsJson(rows)) + p.bytes
    && Mapped(p.rows) == Mapped(rows)
  }

  lemma {:induction false} AttachAllAccounts(mint: Mint, limit: nat, live: set<string>, rows: seq<Row>)
    requires forall q | q in rows :: IsBare(q)
    ensures Accounts(rows, live, limit, AttachAll(mint, limit, live, rows))
  {
    hide Accounts, Attach, IsBare;
    if rows != [] {
      var rest, last := rows[..|rows| - 1], rows[|rows| - 1];
      AttachAllAccounts(mint, limit, live, rest);
      AttachAccounts(mint, limit, live, rest, AttachAll(mint, limit, live, rest), last);
      assert rest + [last] == rows;
    } else {
      NothingToAccount(live, limit);
    }
  }

  lemma NothingToAccount(live: set<string>, limit: nat)
    ensures Accounts([], live, limit, Progress([], 0, 0, 0, false, live))
  {
  }

  lemma AttachAccounts(mint: Mint, limit: nat, live: set<string>, rest: seq<Row>, p: Progress, row: Row)
    requires IsBare(row) && Accounts(rest, live, limit, p)
    ensures Accounts(rest + [row], live, limit, Attach(mint, limit, p, row))
  {
    hide Accounts, IsBare, Size;
    var q := Attach(mint, limit, p, row);
    AccountedBounds(rest, live, limit, p);
    if q.proofs > p.proofs {
      var proof := Issue(mint, row, p.live).value;
      WithProof(rest, live, limit, p, row, proof, q);
    } else {
      WithoutProof(rest, live, limit, p, row, q);
    }
  }

  lemma AccountedBounds(rows: seq<Row>, live: set<string>, limit: nat, p: Progress)
    requires Accounts(rows, live, limit, p)
    ensures p.bytes <= limit && |p.rows| == |rows|
  {
  }

  lemma WithoutProof(rest: seq<Row>, live: set<string>, limit: nat, p: Progress, row: Row, q: Progress)
    requires IsBare(row) && Accounts(rest, live, limit, p)
    requires q.rows == p.rows + [row] && q.proofs == p.proofs && q.bytes == p.bytes && q.live == p.live
    ensures Accounts(rest + [row], live, limit, q)
  {
    hide RowJson, RowsJson, Total, Mapped, Proved, ProofIds, RowOutcome;
    RowsGrow(rest, row);
    RowsGrow(p.rows, row);
    IdsGrow(p.rows, row);
    OutcomesGrow(rest, p.rows, row, row);
  }

  lemma WithProof(rest: seq<Row>, live: set<string>, limit: nat, p: Progress, row: Row, proof: Proof, q: Progress)
    requires IsBare(row) && Accounts(rest, live, limit, p) && proof.id !in p.live && p.proofs < MAX_PROOF_ROWS
    requires q.rows == p.rows + [Attached(row, proof)] && q.proofs == p.proofs + 1 && q.live == p.live + {proof.id}
    requires q.bytes == p.bytes + Size(AttachmentJson(proof)) <= limit
    ensures Accounts(rest + [row], live, limit, q)
  {
    hide RowJson, RowsJson, Total, Mapped, Proved, ProofIds, RowOutcome, Size;
    RowsGrow(rest, row);
    RowsGrow(p.rows, Attached(row, proof));
    IdsGrow(p.rows, Attached(row, proof));
    OutcomesGrow(rest, p.rows, row, Attached(row, proof));
    AttachmentIsOvercharged(row, proof);
  }

  lemma OutcomesGrow(rest: seq<Row>, done: seq<Row>, row: Row, last: Row)
    requires RowOutcomes(rest, done) && (last == row || (last.proof.Some? && last == Attached(row, last.proof.value)))
    ensures RowOutcomes(rest + [row], done + [last])
  {
  }

  lemma IdsGrow(rows: seq<Row>, r: Row)
    ensures ProofIds(rows + [r]) == ProofIds(rows) + if r.proof.Some? then {r.proof.value.id} else {}
  {
    assert forall q :: q in rows + [r] <==> q in rows || q == r;
  }

  lemma AccountedSize(s: Scan, rows: seq<Row>, live: set<string>, limit: nat, p: Progress, limited: bool)
    requires Accounts(rows, live, limit, p)
    requires forall q | q in rows :: IsBare(q)
    ensures p.proofs > 0 ==> Size(Response(s, p.rows, p.proofs, limited)) <= Size(Unproved(s, rows)) + p.bytes
    ensures p.proofs == 0 ==> Size(Response(s, p.rows, 0, limited)) <= Size(Unproved(s, rows)) + 1
  {
    hide Response, Steady, RowJson, RowsJson, Mapped, Size, FlagMembers, AnyHighlight, Digits, Sum, Total, RowOutcomes, Proved;
    hide NextStep, CompletionScope;
    ResponseSize(s, p.rows, p.proofs, limited);
    ResponseSize(s, rows, 0, true);
    NoHighlight(rows);
    SameTexts(s, rows, p.rows);
    DigitsOfSmall(p.proofs);
    OutcomesLength(rows, p.rows);
  }

  lemma OutcomesLength(rows: seq<Row>, done: seq<Row>)
    requires RowOutcomes(rows, done)
    ensures |done| == |rows|
  {
  }

  lemma SameTexts(s: Scan, rows: seq<Row>, done: seq<Row>)
    requires RowOutcomes(rows, done)
    ensures CompletionScope(s, rows) == CompletionScope(s, done) && NextStep(s, rows) == NextStep(s, done)
  {
  }

  /** The process-wide store of proofs, of which only the ids matter here. */
  class ProofRegistry {
    var live: set<string>

    constructor ()
      ensures live == {}
    {
      live := {};
    }

    method IssueFor(mint: Mint, row: Row) returns (proof: Option<Proof>)
      modifies this
      ensures proof == Issue(mint, row, old(live))
      ensures live == if proof.Some? then old(live) + {proof.value.id} else old(live)
    {
      proof := mint(row, live);
      if proof.Some? && proof.value.id in live { proof := None; }
      if proof.Some? { live := live + {proof.value.id}; }
    }

    method Discard(id: string)
      modifies this
      ensures live == old(live) - {id}
    {
      live := live - {id};
    }
  }

  /** The loop over the rows; a proof that does not fit is given back and ends it. */
  method AttachProofs(registry: ProofRegistry, mint: Mint, limit: nat, rows: seq<Row>)
    returns (done: seq<Row>, proofs: nat, limited: bool)
    modifies registry
    ensures var p := AttachAll(mint, limit, old(registry.live), rows);
      done == p.rows && proofs == p.proofs && limited == p.limited && registry.live == p.live
  {
    hide Size, AttachmentJson, Attached, IsBare;
    done, proofs, limited := [], 0, false;
    var attempts: nat, bytes: nat := 0, 0;
    ghost var live := registry.live;
    for i := 0 to |rows|
      invariant AttachAll(mint, limit, live, rows[..i]) == Progress(done, proofs, attempts, bytes, false, registry.live)
      invariant !limited
    {
      var row := rows[i];
      assert rows[..i + 1][..i] == rows[..i];
      if proofs >= MAX_PROOF_ROWS || attempts >= MAX_PROOF_ATTEMPTS {
        limited := true;
        Stopped(mint, limit, live, rows, i);
        done := done + rows[i..];
        return;
      }
      attempts := attempts + 1;
      var proof := registry.IssueFor(mint, row);
      if proof.Some? {
        var charge := Size(AttachmentJson(proof.value));
        if bytes + charge > limit {
          registry.Discard(proof.value.id);
          limited := true;
          Stopped(mint, limit, live, rows, i);
          done := done + rows[i..];
          return;
        }
        row := Attached(row, proof.value);
        proofs := proofs + 1;
        bytes := bytes + charge;
      }
      done := done + [row];
    }
    assert rows[..|rows|] == rows;
  }

  lemma Stopped(mint: Mint, limit: nat, live: set<string>, rows: seq<Row>, i: nat)
    requires i < |rows|
    requires Halts(mint, limit, AttachAll(mint, limit, live, rows[..i]), rows[i])
    ensures AttachAll(mint, limit, live, rows) ==
      AttachAll(mint, limit, live, rows[..i + 1]).(rows := AttachAll(mint, limit, live, rows[..i]).rows + rows[i..])
  {
    hide Attach;
    assert rows[..i + 1][..i] == rows[..i];
    HaltsMeans(mint, limit, AttachAll(mint, limit, live, rows[..i]), rows[i]);
    StoppedStays(mint, limit, live, rows, i + 1);
    assert rows[i..] == [rows[i]] + rows[i + 1..];
  }

  predicate Halts(mint: Mint, limit: nat, p: Progress, row: Row) { Attach(mint, limit, p, row).limited }

  lemma HaltsMeans(mint: Mint, limit: nat, p: Progress, row: Row)
    requires Halts(mint, limit, p, row)
    ensures Attach(mint, limit, p, row).limited && Attach(mint, limit, p, row).rows == p.rows + [row]
  {
  }

  // ----- the whole answer -----

  datatype Outcome = Answer(rows: seq<Row>, proofs: nat, limited: bool) | ResourceLimited(stop: Stop)

  /** What the proofs may take: their own maximum, or what the rows leave of the wire limit. */
  function Room(s: Scan, rows: seq<Row>): nat {
    var left := WIRE_LIMIT - Size(Unproved(s, rows));
    if left < 0 then 0 else if left < MAX_PROOF_BYTES then left else MAX_PROOF_BYTES
  }

  /**
   The end of `_execute_search`. The answer shows the longest prefix of the rows that fits without
   proofs, and is within the maximum after any number of proofs; it is withheld only when a page without
   rows is already too large. The registry keeps exactly the proofs the answer shows.
   */
  method Finish(registry: ProofRegistry, mint: Mint, s: Scan, results: seq<Row>, bound: bool) returns (outcome: Outcome)
    requires |results| <= s.matched && forall q | q in results :: IsBare(q)
    modifies registry
    ensures outcome.ResourceLimited? <==> Size(Unproved(s, [])) > WIRE_LIMIT
    ensures outcome.ResourceLimited? ==>
      outcome.stop == Stop(ResponseBudget, s.candidates, s.scanned, s.matched) && registry.live == old(registry.live)
    ensures outcome.Answer? ==> Sound(s, results, old(registry.live), registry.live, outcome)
    ensures outcome.Answer? && !s.partial && !Truncated(s, outcome.rows) ==>
      var p := AttachAll(mint, Room(s, results), old(registry.live), results);
      outcome.rows == p.rows && (outcome.limited <==> p.limited || (bound && p.proofs < |results|))
  {
    hide Size, Unproved, AttachAll, Accounts, Sound, Room;
    var fits, kept := Trim(s, results, WIRE_LIMIT);
    if !fits { return ResourceLimited(Stop(ResponseBudget, s.candidates, s.scanned, s.matched)); }
    var rows, proofs: nat, limited := kept, 0, false;
    ghost var live := registry.live;
    ghost var p := Progress(kept, 0, 0, 0, false, live);
    var limit := Room(s, kept);
    assert |kept| == |results| ==> kept == results;
    if !s.partial && !Truncated(s, kept) {
      rows, proofs, limited := AttachProofs(registry, mint, limit, kept);
      AttachAllAccounts(mint, limit, live, kept);
      p := AttachAll(mint, limit, live, kept);
      AccountedBounds(kept, live, limit, p);
      if bound && proofs < |rows| { limited := true; }
    } else {
      BareAccounts(kept, live, limit);
    }
    outcome := Answer(rows, proofs, limited);
    AnswerIsSound(s, results, kept, live, p, limited);
  }

  /** What every answer keeps, in terms of the rows of the scan and the registry before and after. */
  predicate Sound(s: Scan, results: seq<Row>, before: set<string>, after: set<string>, a: Outcome)
    requires a.Answer?
  {
    var size := Size(Response(s, a.rows, a.proofs, a.limited));
    && |a.rows| <= |results|
    && LongestFit(s, results, WIRE_LIMIT, |a.rows|)
    && RowOutcomes(results[..|a.rows|], a.rows)
    && size <= WIRE_LIMIT + 1 <= MAX_RESPONSE
    && (a.proofs > 0 ==> size <= WIRE_LIMIT)
    && a.proofs == Proved(a.rows) == |ProofIds(a.rows)| <= MAX_PROOF_ROWS
    && before !! ProofIds(a.rows)
    && after == before + ProofIds(a.rows)
    && (s.partial || Truncated(s, a.rows) ==> a.proofs == 0)
    && (a.proofs == 0 ==> a.rows == results[..|a.rows|])
  }

  lemma AnswerIsSound(s: Scan, results: seq<Row>, kept: seq<Row>, live: set<string>, p: Progress, limited: bool)
    requires kept <= results && LongestFit(s, results, WIRE_LIMIT, |kept|) && forall q | q in kept :: IsBare(q)
    requires Accounts(kept, live, Room(s, kept), p)
    requires s.partial || Truncated(s, kept) ==> p.proofs == 0
    ensures Sound(s, results, live, p.live, Answer(p.rows, p.proofs, limited))
  {
    hide Size, Unproved, Response, RowOutcome, ProofIds, Proved, Mapped, Total, RowsJson;
    assert results[..|kept|] == kept;
    AccountedSize(s, kept, live, Room(s, kept), p, limited);
  }

  lemma BareAccounts(rows: seq<Row>, live: set<string>, limit: nat)
    requires forall q | q in rows :: IsBare(q)
    ensures Accounts(rows, live, limit, Progress(rows, 0, 0, 0, false, live))
  {
    NoneProved(rows);
    assert ProofIds(rows) == {};
  }

  lemma {:induction false} NoneProved(rows: seq<Row>)
    requires forall q | q in rows :: IsBare(q)
    ensures Proved(rows) == 0
  {
    if rows != [] {
      assert IsBare(rows[|rows| - 1]);
      NoneProved(rows[..|rows| - 1]);
    }
  }

  /** What the scan of the whole file hands over. */
  function FullScan<T>(base: seq<Member>, all: seq<T>, matches: T -> bool, partial: bool, degraded: bool): Scan {
    var matched := |Matching(all, matches)|;
    Scan(base, |all|, |all|, if matched <= |all| then |all| - matched else 0, matched, partial, degraded)
  }

  /**
   `_execute_search` over an open file, with a clock that shows time left for `looks` looks. The scan's own
   budgets come first; a scan that runs to its end counts the whole file, whatever the trimming keeps, and
   the rows shown are the first matches, in scan order, as many as fit.
   */
  method Search<T(!new), P>(registry: ProofRegistry, mint: Mint, base: seq<Member>, filters: Filters<P>, model: Model<T>,
                            lens: Lens<T, P>, row: T -> Row, requested: int, looks: nat,
                            partial: bool, degraded: bool, bound: bool)
    returns (outcome: Outcome)
    requires forall e :: IsBare(row(e))
    modifies registry
    ensures var matches := Chooser(filters, lens);
      var stop, all := EarlyStop(filters, model, matches, looks), CandidatesOf(filters, model);
      var s := FullScan(base, all, matches, partial, degraded);
      && (stop.Some? ==> outcome == ResourceLimited(stop.value))
      && (stop.None? && Size(Unproved(s, [])) > WIRE_LIMIT ==>
            outcome == ResourceLimited(Stop(ResponseBudget, |all|, |all|, |Matching(all, matches)|)))
      && (outcome.ResourceLimited? ==> registry.live == old(registry.live))
      && (outcome.Answer? <==> stop.None? && Size(Unproved(s, [])) <= WIRE_LIMIT)
      && (outcome.Answer? ==> Answers(s, Matching(all, matches), row, requested, old(registry.live), registry.live, outcome))
      && s.matched == |WantedPlaces(all, filters, lens)|
      && (outcome.Answer? ==> AllWanted(all, filters, lens, row, outcome.rows))
  {
    hide AllWanted, Size, Unproved, AttachAll, EarlyStop, CandidatesOf, Matching, Sound, PageLimit, Answers, Chooser, Wanted, WantedPlaces, ShownAs;
    var matches := Chooser(filters, lens);
    MatchingIsWanted(CandidatesOf(filters, model), filters, lens);
    var stop, candidates, results, scanned, matched := FindRows(filters, model, matches, row, requested, looks);
    if stop.Some? { return ResourceLimited(stop.value); }
    ghost var all := CandidatesOf(filters, model);
    MatchingSelects(all, matches);
    ghost var live := registry.live;
    var s := Scan(base, candidates, scanned, scanned - matched, matched, partial, degraded);
    outcome := Finish(registry, mint, s, results, bound);
    if outcome.Answer? {
      SoundAnswers(s, Matching(all, matches), row, requested, results, live, registry.live, outcome);
      RowsAreWanted(s, all, filters, lens, row, requested, live, registry.live, outcome);
    }
  }

  /**
   A row of the answer and the bare row of its element: the same data, a proof or none, and the flags that go with
   it. Only a row with a proof is open to proof and issue, and only if it is also mapped to action and highlight.
   */
  predicate ShownAs(bare: Row, r: Row) {
    && r.core == bare.core && r.mapped == bare.mapped
    && (r.proofEligible <==> r.proof.Some?) && (r.issueEligible <==> r.proof.Some?)
    && (r.actionEligible <==> r.proof.Some? && r.mapped) && (r.highlightEligible <==> r.proof.Some? && r.mapped)
  }

  lemma OutcomeIsShown(bare: Row, r: Row)
    requires IsBare(bare) && RowOutcome(bare, r)
    ensures ShownAs(bare, r)
  {
  }

  /** Every row shown is of a candidate that answers the query. */
  ghost predicate AllWanted<T(!new), P>(all: seq<T>, filters: Filters<P>, lens: Lens<T, P>, row: T -> Row, rows: seq<Row>) {
    forall i | 0 <= i < |rows| :: ShowsWanted(all, filters, lens, row, rows[i])
  }

  ghost predicate ShowsWanted<T(!new), P>(all: seq<T>, filters: Filters<P>, lens: Lens<T, P>, row: T -> Row, r: Row) {
    exists e :: e in all && Wanted(filters, lens, e) && ShownAs(row(e), r)
  }

  lemma RowsAreWanted<T(!new), P>(
    s: Scan, all: seq<T>, filters: Filters<P>, lens: Lens<T, P>, row: T -> Row, requested: int,
    before: set<string>, after: set<string>, a: Outcome)
    requires a.Answer? && Answers(s, Matching(all, Chooser(filters, lens)), row, requested, before, after, a)
    requires forall e :: IsBare(row(e))
    ensures AllWanted(all, filters, lens, row, a.rows)
  {
    hide LongestFit, Size, Response, RowOutcome, ShownAs, IsBare, Matching, Chooser, Wanted;
    var selected := Matching(all, Chooser(filters, lens));
    MatchingIsWanted(all, filters, lens);
    forall i | 0 <= i < |a.rows| ensures ShowsWanted(all, filters, lens, row, a.rows[i]) {
      var e := selected[i];
      assert selected[..|a.rows|][i] == e && e in selected;
      assert Rows(selected[..|a.rows|], row)[i] == row(e);
      assert RowOutcome(row(e), a.rows[i]);
      OutcomeIsShown(row(e), a.rows[i]);
    }
  }

  /** What an answer shows of the elements that match, and what it weighs. */
  predicate Answers<T>(s: Scan, selected: seq<T>, row: T -> Row, requested: int,
                       before: set<string>, after: set<string>, a: Outcome)
    requires a.Answer?
  {
    && |a.rows| <= PageLimit(requested) && |a.rows| <= |selected|
    && Size(Response(s, a.rows, a.proofs, a.limited)) <= MAX_RESPONSE
    && LongestFit(s, Rows(selected[..Least(|selected|, PageLimit(requested))], row), WIRE_LIMIT, |a.rows|)
    && RowOutcomes(Rows(selected[..|a.rows|], row), a.rows)
    && (a.proofs > 0 ==> a.proofs <= |a.rows| == |selected|)
    && after == before + ProofIds(a.rows)
  }

  lemma SoundAnswers<T>(s: Scan, selected: seq<T>, row: T -> Row, requested: int, results: seq<Row>,
                        before: set<string>, after: set<string>, a: Outcome)
    requires a.Answer? && Sound(s, results, before, after, a) && s.matched == |selected|
    requires results == Rows(selected[..Least(|selected|, PageLimit(requested))], row)
    ensures Answers(s, selected, row, requested, before, after, a)
  {
    hide Size, Unproved, Response, ProofIds, RowOutcome, LongestFit;
    assert results[..|a.rows|] == Rows(selected[..|a.rows|], row);
    ProvedAtMost(a.rows);
  }

  /** A withheld answer says nothing of the file that is not so, whichever budget ended the search. */
  lemma WithheldCountsAreBounds<T(!new), P>(filters: Filters<P>, model: Model<T>, matches: T -> bool, looks: nat, stop: Stop)
    requires var early, all := EarlyStop(filters, model, matches, looks), CandidatesOf(filters, model);
      stop == if early.Some? then early.value else Stop(ResponseBudget, |all|, |all|, |Matching(all, matches)|)
    ensures var all := CandidatesOf(filters, model);
      && stop.atLeast <= |all| && stop.matched <= stop.scanned <= stop.atLeast
      && stop.matched <= |Matching(all, matches)|
  {
    hide EarlyStop, CandidatesOf, Matching;
    MatchingSelects(CandidatesOf(filters, model), matches);
    if EarlyStop(filters, model, matches, looks).Some? { EarlyCountsAreBounds(filters, model, matches, looks); }
  }

  lemma {:induction false} ProvedAtMost(rows: seq<Row>)
    ensures Proved(rows) <= |rows|
  {
    if rows != [] { ProvedAtMost(rows[..|rows| - 1]); }
  }

  // ----- what an answer says -----

  lemma {:induction false} MappedAre(rows: seq<Row>)
    ensures Mapped(rows) == |Places(rows, (r: Row) => r.mapped)|
  {
    hide Places;
    if rows == [] {
      NoPlaces((r: Row) => r.mapped);
    } else {
      var n := |rows| - 1;
      MappedAre(rows[..n]);
      PlacesSnoc(rows[..n], rows[n], (r: Row) => r.mapped);
      assert rows == rows[..n] + [rows[n]];
    }
  }

  lemma {:induction false} RowsJsonAt(rows: seq<Row>, i: nat)
    requires i < |rows|
    ensures RowsJson(rows)[i] == RowJson(rows[i])
  {
    if i < |rows| - 1 { RowsJsonAt(rows[..|rows| - 1], i); }
  }

  predicate Tells(o: Json, key: string, value: Json) { o.Obj? && Member(key, value) in o.members }

  /** The numbers of an answer: what the scan counted, and what of it the page shows. */
  predicate Counts(stats: Json, s: Scan, rows: seq<Row>, proofs: nat, limited: bool) {
    var mapped := |Places(rows, (r: Row) => r.mapped)|;
    && Tells(stats, "total", Count(s.candidates)) && Tells(stats, "scanned", Count(s.scanned))
    && Tells(stats, "matched", Count(s.matched)) && Tells(stats, "not_matched", Count(s.missed))
    && Tells(stats, "returned", Count(|rows|)) && mapped <= |rows|
    && Tells(stats, "mapped", Count(mapped)) && Tells(stats, "unmapped", Count(|rows| - mapped))
    && Tells(stats, "truncated", Flag(|rows| < s.matched))
    && Tells(stats, "total_is_lower_bound", Flag(false)) && Tells(stats, "scan_complete", Flag(true))
    && Tells(stats, "proof_eligible_returned", Count(proofs)) && Tells(stats, "proof_limited", Flag(limited))
    && |stats.members| == 12
  }

  lemma StatsSay(s: Scan, rows: seq<Row>, proofs: nat, limited: bool)
    ensures Counts(Stats(s, rows, proofs, limited), s, rows, proofs, limited)
  {
    hide Tells, Mapped, Places, Stats;
    MappedAre(rows);
    ScanStatsSay(s, rows, proofs, limited);
    PageStatsSay(s, rows, proofs, limited);
  }

  lemma ScanStatsSay(s: Scan, rows: seq<Row>, proofs: nat, limited: bool)
    ensures var o := Stats(s, rows, proofs, limited);
      && o.Obj? && |o.members| == 12
      && Tells(o, "total", Count(s.candidates)) && Tells(o, "scanned", Count(s.scanned))
      && Tells(o, "matched", Count(s.matched)) && Tells(o, "not_matched", Count(s.missed))
      && Tells(o, "total_is_lower_bound", Flag(false)) && Tells(o, "scan_complete", Flag(true))
  {
    hide Tells, Mapped, Truncated;
    var o := Stats(s, rows, proofs, limited);
    TellsAt(o, 0);
    TellsAt(o, 1);
    TellsAt(o, 2);
    TellsAt(o, 3);
    TellsAt(o, 4);
    TellsAt(o, 5);
  }

  lemma PageStatsSay(s: Scan, rows: seq<Row>, proofs: nat, limited: bool)
    ensures var o := Stats(s, rows, proofs, limited);
      && Tells(o, "returned", Count(|rows|)) && Tells(o, "mapped", Count(Mapped(rows)))
      && Tells(o, "unmapped", Count(|rows| - Mapped(rows))) && Tells(o, "truncated", Flag(|rows| < s.matched))
      && Tells(o, "proof_eligible_returned", Count(proofs)) && Tells(o, "proof_limited", Flag(limited))
  {
    hide Tells, Mapped, Stats, PageStats;
    PageStatSays(s, rows, proofs, limited, 0, Member("returned", Count(|rows|)));
    PageStatSays(s, rows, proofs, limited, 1, Member("mapped", Count(Mapped(rows))));
    PageStatSays(s, rows, proofs, limited, 2, Member("unmapped", Count(|rows| - Mapped(rows))));
    PageStatSays(s, rows, proofs, limited, 3, Member("truncated", Flag(|rows| < s.matched)));
    PageStatSays(s, rows, proofs, limited, 4, Member("proof_eligible_returned", Count(proofs)));
    PageStatSays(s, rows, proofs, limited, 5, Member("proof_limited", Flag(limited)));
  }

  predicate IsPageStat(s: Scan, rows: seq<Row>, proofs: nat, limited: bool, i: nat, m: Member) {
    match i
    case 0 => m == Member("returned", Count(|rows|))
    case 1 => m == Member("mapped", Count(Mapped(rows)))
    case 2 => m == Member("unmapped", Count(|rows| - Mapped(rows)))
    case 3 => m == Member("truncated", Flag(|rows| < s.matched))
    case 4 => m == Member("proof_eligible_returned", Count(proofs))
    case 5 => m == Member("proof_limited", Flag(limited))
    case _ => false
  }

  lemma PageStatSays(s: Scan, rows: seq<Row>, proofs: nat, limited: bool, i: nat, m: Member)
    requires IsPageStat(s, rows, proofs, limited, i, m)
    ensures Tells(Stats(s, rows, proofs, limited), m.key, m.value)
  {
    hide Tells, Mapped, ConstantStats;
    LaterTells(ConstantStats(s), PageStats(s, rows, proofs, limited), i);
  }

  lemma LaterTells(a: seq<Member>, b: seq<Member>, i: nat)
    requires i < |b|
    ensures Tells(Obj(a + b), b[i].key, b[i].value)
  {
    assert (a + b)[|a| + i] == b[i];
  }

  /**
   What an answer says besides its numbers: it is a complete table if every match is shown, else a truncated one,
   and only a partial one when the query was understood in part; the way on is to narrow a truncated query, to
   broaden one without results, and otherwise none.
   */
  lemma ResponseSays(s: Scan, rows: seq<Row>, proofs: nat, limited: bool)
    ensures var o := Response(s, rows, proofs, limited);
      && Tells(o, "status", Word("ok")) && Tells(o, "stats", Stats(s, rows, proofs, limited))
      && Tells(o, "partial_execution_confirmed", Flag(s.partial)) && Tells(o, "degraded_to_deterministic", Flag(s.degraded))
      && (s.partial ==> Tells(o, "completion_scope", Word("partial_table_only")))
      && (!s.partial && |rows| >= s.matched ==> Tells(o, "completion_scope", Word("complete_table")))
      && (!s.partial && |rows| < s.matched ==> Tells(o, "completion_scope", Word("truncated_table")))
      && (|rows| < s.matched ==> Tells(o, "next_step", Word("narrow_query_or_reduce_result_limit")))
      && (|rows| >= s.matched && |rows| > 0 ==> Tells(o, "next_step", Null))
      && (|rows| >= s.matched && |rows| == 0 ==> Tells(o, "next_step", Word("broaden_filters_or_check_model_content")))
      && Tells(o, "proof_eligible", Flag(proofs > 0)) && Tells(o, "issue_eligible", Flag(proofs > 0))
      && Tells(o, "highlight_eligible", Flag(exists i :: 0 <= i < |rows| && rows[i].highlightEligible))
      && Tells(o, "results", Arr(RowsJson(rows))) && |o.members| == |s.base| + 12
  {
    hide Response, RowsJson, Stats, CompletionScope, NextStep, AnyHighlight, Tells;
    ScopeSays(s, rows);
    MembersSay(s, rows, proofs, limited);
  }

  lemma MembersSay(s: Scan, rows: seq<Row>, proofs: nat, limited: bool)
    ensures var o := Response(s, rows, proofs, limited);
      && o.Obj? && |o.members| == |s.base| + 12
      && Tells(o, "status", Word("ok")) && Tells(o, "partial_execution_confirmed", Flag(s.partial))
      && Tells(o, "degraded_to_deterministic", Flag(s.degraded)) && Tells(o, "results", Arr(RowsJson(rows)))
      && Tells(o, "stats", Stats(s, rows, proofs, limited)) && Tells(o, "completion_scope", CompletionScope(s, rows))
      && Tells(o, "proof_eligible", Flag(proofs > 0)) && Tells(o, "issue_eligible", Flag(proofs > 0))
      && Tells(o, "highlight_eligible", Flag(AnyHighlight(rows))) && Tells(o, "next_step", NextStep(s, rows))
  {
    hide RowsJson, Stats, CompletionScope, NextStep, AnyHighlight, Tells;
    var o, k := Response(s, rows, proofs, limited), |s.base|;
    TellsAt(o, k);
    TellsAt(o, k + 1);
    TellsAt(o, k + 4);
    TellsAt(o, k + 5);
    TellsAt(o, k + 6);
    TellsAt(o, k + 7);
    TellsAt(o, k + 8);
    TellsAt(o, k + 9);
    TellsAt(o, k + 10);
    TellsAt(o, k + 11);
  }

  lemma TellsAt(o: Json, i: nat)
    requires o.Obj? && i < |o.members|
    ensures Tells(o, o.members[i].key, o.members[i].value)
  {
  }

  lemma ScopeSays(s: Scan, rows: seq<Row>)
    ensures CompletionScope(s, rows) == Word(
      if s.partial then "partial_table_only" else if |rows| >= s.matched then "complete_table" else "truncated_table")
    ensures |rows| < s.matched ==> NextStep(s, rows) == Word("narrow_query_or_reduce_result_limit")
    ensures |rows| >= s.matched && |rows| > 0 ==> NextStep(s, rows) == Null
    ensures |rows| >= s.matched && |rows| == 0 ==> NextStep(s, rows) == Word("broaden_filters_or_check_model_content")
    ensures AnyHighlight(rows) <==> exists i :: 0 <= i < |rows| && rows[i].highlightEligible
  {
  }

  /** What a row says: its data, its flags, and its proof if it has one. */
  lemma RowSays(r: Row)
    ensures var o := RowJson(r);
      && (forall m | m in r.core :: m in o.members)
      && Tells(o, "mapping_observed", Flag(r.mapped)) && Tells(o, "match_status", Word("matched_query"))
      && Tells(o, "action_eligible", Flag(r.actionEligible)) && Tells(o, "proof_eligible", Flag(r.proofEligible))
      && Tells(o, "issue_eligible", Flag(r.issueEligible)) && Tells(o, "highlight_eligible", Flag(r.highlightEligible))
      && (r.proof.Some? ==> (
            && Tells(o, "evidence_proof", r.proof.value.token) && Tells(o, "a4_evidence_snapshot", r.proof.value.snapshot)
            && Tells(o, "proof_expires_at", r.proof.value.expires)))
      && |o.members| == |r.core| + 6 + if r.proof.Some? then 3 else 0
  {
    var ms, k := RowJson(r).members, |r.core|;
    forall m | m in r.core ensures m in ms { var i :| 0 <= i < k && r.core[i] == m; assert ms[i] == m; }
    assert ms[k].key == "mapping_observed" && ms[k + 1].key == "match_status" && ms[k + 2].key == "action_eligible";
    assert ms[k + 3].key == "proof_eligible" && ms[k + 4].key == "issue_eligible" && ms[k + 5].key == "highlight_eligible";
    if r.proof.Some? {
      assert ms[k + 6].key == "evidence_proof" && ms[k + 7].key == "a4_evidence_snapshot" && ms[k + 8].key == "proof_expires_at";
    }
  }
}
