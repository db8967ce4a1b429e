/**
 The read-only projection of stored confirmations. The reader trusts nothing: it validates every
 snapshot again. The theorem is that it never has to refuse what the writer stored.
 */
module RemediationHistory {
  import opened Options
  import opened Order
  import opened Text
  import opened LedgerTables
  import opened LedgerTransactions
  import opened LedgerRuns
  import opened LedgerTheorems
  import D = LedgerDecisions

  datatype Grant = Grant(issue: Id, versions: set<string>, expires: nat, cases: seq<Case>)

  /** A history claim's grant: its cases and the model versions they name. */
  function GrantOf(a: Claims, issue: Id, now: nat): Option<Grant> {
    if a.expires <= now || a.operation != HistoryOp || a.issue != issue then None
    else Some(Grant(issue, VersionsOf(a.cases), a.expires, a.cases))
  }

  function VersionsOf(cases: seq<Case>): set<string> {
    (set c | c in cases && c.original.version.Some? :: c.original.version.value)
    + (set c | c in cases && c.revised.version.Some? :: c.revised.version.value)
  }

  datatype Item = Item(
    id: Id, issue: Id, principal: string, createdAt: nat, before: nat, after: nat, note: string,
    actor: ActorKind, original: Group, revised: Group)

  datatype Reading =
    | Page(items: seq<Item>, total: nat, next: Option<nat>)
    | Denied | Missing | Unavailable

  predicate GoodMember(g: Group, m: Row) {
    Canonical(m.id) && IsCanonical(m.guid) && Canonical(m.rule) && m.status != Unknown
    && m.guid == Some(g.guid) && m.rule == g.rule
  }

  predicate GoodGroup(g: Group) {
    && Canonical(g.run) && IsCanonical(g.version) && Canonical(g.guid) && Canonical(g.rule)
    && Canonical(g.digest) && Canonical(g.anchor) && g.members != []
    && (forall m | m in g.members :: GoodMember(g, m))
    && exists m :: m in g.members && m.id == g.anchor
  }

  /** What the reader makes of one row: its item, a refusal, or a finding of corruption. */
  function ProjectRecord(c: Confirmation, issue: Issue, g: Grant): Reading {
    var s := c.snapshot;
    if !Canonical(s.id) || s.id != c.id || !Canonical(s.issue) || s.issue != c.issue
       || !Canonical(s.principal) || s.principal != c.principal || s.createdAt != c.createdAt
       || s.issue != issue.id || s.after != s.before + 1 || s.after > issue.revision || |s.note| > 4000
       || !GoodGroup(s.original) || !GoodGroup(s.revised)
       || s.original.version != issue.version || Some(s.original.anchor) != issue.sourceRef
       || Some(s.original.guid) != issue.guid || Some(s.revised.guid) != issue.guid then Unavailable
    else if s.original.version.value !in g.versions || s.revised.version.value !in g.versions then Denied
    else if g.cases != [] && s.sourceIdentity !in g.cases then Denied
    else Page([ItemOf(s)], 1, None)
  }

  function ItemOf(s: Snapshot): Item {
    Item(s.id, s.issue, s.principal, s.createdAt, s.before, s.after, s.note, s.actor, s.original, s.revised)
  }

  function ProjectAll(cs: seq<Confirmation>, issue: Issue, g: Grant): Reading {
    if cs == [] then Page([], 0, None) else
      var rest := ProjectAll(cs[..|cs| - 1], issue, g);
      if !rest.Page? then rest else
        var last := ProjectRecord(cs[|cs| - 1], issue, g);
        if !last.Page? then last else Page(rest.items + last.items, |cs|, None)
  }

  /** ORDER BY created_at, id. */
  predicate Before(a: Confirmation, b: Confirmation) {
    a.createdAt < b.createdAt || (a.createdAt == b.createdAt && Less(a.id, b.id))
  }

  function Place(c: Confirmation, cs: seq<Confirmation>): seq<Confirmation> {
    if cs == [] || Before(c, cs[0]) then [c] + cs else [cs[0]] + Place(c, cs[1..])
  }

  /** The issue's confirmations, ordered. */
  function RowsFor(cs: seq<Confirmation>, issue: Id): seq<Confirmation> {
    if cs == [] then [] else
      var rest := RowsFor(cs[..|cs| - 1], issue);
      if cs[|cs| - 1].issue == issue then Place(cs[|cs| - 1], rest) else rest
  }

  function PageOf(cs: seq<Confirmation>, limit: nat, offset: nat): seq<Confirmation> {
    if |cs| <= offset then [] else if |cs| <= offset + limit then cs[offset..] else cs[offset..offset + limit]
  }

  /** The grant's case is about this issue's own source and about a run whose source is the one named. */
  function CheckCase(db: Db, issue: Issue, anchor: Row, b: SourceBinding, c: Case): Reading {
    if c.issue != issue.id || c.tenant != b.tenant || c.project != b.project || c.original != b.source
       || Some(c.guid) != issue.guid || c.rule != anchor.rule then Denied
    else if c.revised.run !in db.runs || RunSourceBinding(db.runs[c.revised.run]).Err? then Unavailable
    else
      var r := RunSourceBinding(db.runs[c.revised.run]).value;
      if c.tenant != r.tenant || c.project != r.project || c.revised != r.source then Denied else Page([], 0, None)
  }

  function CheckCases(db: Db, issue: Issue, anchor: Row, b: SourceBinding, cases: seq<Case>): Reading {
    if cases == [] then Page([], 0, None) else
      var rest := CheckCases(db, issue, anchor, b, cases[..|cases| - 1]);
      if !rest.Page? then rest else CheckCase(db, issue, anchor, b, cases[|cases| - 1])
  }

  predicate GoodGrant(g: Option<Grant>, id: Id, now: nat) {
    g.Some? && g.value.issue == id && g.value.versions != {}
    && (forall v | v in g.value.versions :: Canonical(v)) && g.value.expires > now
  }

  predicate GoodIssue(issue: Issue) {
    Canonical(issue.id) && IsCanonical(issue.version) && IsCanonical(issue.guid) && IsCanonical(issue.sourceRef)
  }

  function SourceCheck(db: Db, issue: Issue, anchor: Row, g: Grant): Reading {
    if g.cases == [] then Page([], 0, None)
    else if anchor.guid != issue.guid || anchor.run !in db.runs || RunSourceBinding(db.runs[anchor.run]).Err?
      then Unavailable
    else CheckCases(db, issue, anchor, RunSourceBinding(db.runs[anchor.run]).value, g.cases)
  }

  /** `read_remediation_history`, asked at `start` and answering at `end`. */
  function Read(db: Db, id: Id, g: Option<Grant>, limit: nat, offset: nat, start: nat, end: nat): Reading {
    if !Canonical(id) || limit < 1 || limit > 100 || offset > 9223372036854775807 then Unavailable
    else if !GoodGrant(g, id, start) then Denied
    else if id !in db.issues || db.issues[id].kind != Formal || db.issues[id].sourceType != RULE_RESULT then Missing
    else
      var issue := db.issues[id];
      if !GoodIssue(issue) then Unavailable
      else if issue.version.value !in g.value.versions then Denied
      else
        var anchor := FindRow(db.rows, issue.sourceRef.value);
        if anchor.None? then Unavailable else
          var sources := SourceCheck(db, issue, anchor.value, g.value);
          if !sources.Page? then sources else
            var rows := RowsFor(db.confirmations, id);
            var page := ProjectAll(PageOf(rows, limit, offset), issue, g.value);
            if !page.Page? then page
            else if g.value.expires <= end then Denied
            else
              var next := offset + |page.items|;
              Page(page.items, |rows|, if next < |rows| then Some(next) else None)
  }

  // --------------------------------------------------------------------------- writer and reader agree

  lemma {:induction false} PlaceMembers(c: Confirmation, cs: seq<Confirmation>)
    ensures |Place(c, cs)| == |cs| + 1 && multiset(Place(c, cs)) == multiset(cs) + multiset{c}
    ensures forall x :: x in Place(c, cs) <==> x == c || x in cs
  {
    if cs != [] && !Before(c, cs[0]) {
      PlaceMembers(c, cs[1..]);
      assert cs == [cs[0]] + cs[1..];
    }
  }

  /** The ordered rows are exactly the issue's confirmations. */
  lemma {:induction false} RowsForMembers(cs: seq<Confirmation>, issue: Id)
    ensures forall x :: x in RowsFor(cs, issue) <==> x in cs && x.issue == issue
  {
    if cs != [] {
      RowsForMembers(cs[..|cs| - 1], issue);
      if cs[|cs| - 1].issue == issue { PlaceMembers(cs[|cs| - 1], RowsFor(cs[..|cs| - 1], issue)); }
    }
  }

  predicate Ordered(cs: seq<Confirmation>) {
    forall i, j | 0 <= i < j < |cs| :: !Before(cs[j], cs[i])
  }

  lemma {:induction false} PlaceKeepsOrder(c: Confirmation, cs: seq<Confirmation>)
    requires Ordered(cs)
    ensures Ordered(Place(c, cs))
  {
    if cs == [] || Before(c, cs[0]) {
      forall j | 0 <= j < |cs| ensures !Before(cs[j], c) {
        if Before(cs[j], c) { BeforeIsOrder(cs[j], c, cs[0]); }
      }
    } else {
      assert Ordered(cs[1..]);
      PlaceKeepsOrder(c, cs[1..]);
      PlaceMembers(c, cs[1..]);
      var rest := Place(c, cs[1..]);
      forall j | 0 <= j < |rest| ensures !Before(rest[j], cs[0]) {
        assert rest[j] in rest;
        if rest[j] == c {
        } else {
          var k :| 0 <= k < |cs[1..]| && cs[1..][k] == rest[j];
          assert cs[k + 1] == rest[j];
        }
      }
    }
  }

  lemma BeforeIsOrder(a: Confirmation, b: Confirmation, c: Confirmation)
    ensures Before(a, b) && Before(b, c) ==> Before(a, c)
    ensures !(Before(a, b) && Before(b, a))
  {
    LessIsAsymmetric(a.id, b.id);
    if Less(a.id, b.id) && Less(b.id, c.id) { LessIsTransitive(a.id, b.id, c.id); }
  }

  /** By creation time, and by id where that is equal. */
  lemma {:induction false} RowsForOrdered(cs: seq<Confirmation>, issue: Id)
    ensures Ordered(RowsFor(cs, issue))
    ensures var rows := RowsFor(cs, issue);
      forall i, j | 0 <= i < j < |rows| ::
        rows[i].createdAt < rows[j].createdAt
        || (rows[i].createdAt == rows[j].createdAt && !Less(rows[j].id, rows[i].id))
  {
    if cs != [] {
      RowsForOrdered(cs[..|cs| - 1], issue);
      if cs[|cs| - 1].issue == issue { PlaceKeepsOrder(cs[|cs| - 1], RowsFor(cs[..|cs| - 1], issue)); }
    }
  }

  /** The writer's groups pass the reader's validation. */
  lemma StoredGroupIsGood(db: Db, g: Group)
    requires Inv(db) && IsWholeGroup(db, g)
    requires IsCanonical(g.version) && Canonical(g.guid) && Canonical(g.rule) && IsRuleDigest(g.digest)
    requires forall m | m in g.members :: m.status != Unknown
    ensures GoodGroup(g)
  {
    hide Canonical, IssuesOk, ConfirmationsOk, Resolutions, IsRuleDigest, RowsOf, Covering, FindRow;
    RuleDigestIsCanonical(g.digest);
    assert StoredRun(db, g.run);
    forall m | m in g.members ensures GoodMember(g, m) && StoredRow(db, m) {
      CoveringMember(RowsOf(db.rows, g.run), g.guid, g.rule, m);
      RowsOfMember(db.rows, g.run, m);
    }
  }

  /** A group the evidence check produced, seen from the grant's side. */
  lemma EvidenceGroupIsGood(db: Db, run: RuleRun, guid: string, rule: string, anchor: Id, g: Group)
    requires Inv(db) && RunEvidence(db, run, guid, rule, anchor) == Ok(g) && IsWholeGroup(db, g)
    requires IsCanonical(run.version) && Canonical(guid) && Canonical(rule)
    ensures GoodGroup(g) && g.version == run.version && g.guid == guid && g.rule == rule && g.anchor == anchor
  {
    hide Canonical, IssuesOk, ConfirmationsOk, Resolutions, RowsOf, FindRow, IsRuleDigest, GoodGroup;
    forall m | m in g.members ensures m.status != Unknown {
      CoveringMember(RowsOf(db.rows, run.id), guid, rule, m);
    }
    StoredGroupIsGood(db, g);
  }

  /** What a stored confirmation's backing says in the reader's terms. */
  predicate ReaderFacts(db: Db, c: Confirmation) {
    var s, k := c.snapshot, c.snapshot.sourceIdentity;
    && c.issue in db.issues && GoodIssue(db.issues[c.issue]) && ValidCase(k, c.issue)
    && GoodGroup(s.original) && GoodGroup(s.revised)
    && s.original.version == k.original.version == db.issues[c.issue].version && s.revised.version == k.revised.version
    && Some(s.original.anchor) == db.issues[c.issue].sourceRef
    && Some(s.original.guid) == db.issues[c.issue].guid == Some(s.revised.guid)
    && var anchor := FindRow(db.rows, db.issues[c.issue].sourceRef.value);
    && anchor.Some? && anchor.value.guid == db.issues[c.issue].guid && anchor.value.run in db.runs
    && RunSourceBinding(db.runs[anchor.value.run]).Ok?
    && CheckCase(db, db.issues[c.issue], anchor.value, RunSourceBinding(db.runs[anchor.value.run]).value, k)
       == Page([], 0, None)
  }

  lemma StoredHasReaderFacts(db: Db, c: Confirmation)
    requires Inv(db) && c in db.confirmations
    ensures ReaderFacts(db, c)
  {
    hide Inv, Canonical, FindGroups, RunSourceBinding, GoodGroup, FindRow;
    ConfirmationFacts(db, c);
    SubjectIsStored(db, c);
    BackedGroups(db, c);
    var f := FindSubject(db, c.request).value;
    GroupsAreEvidence(db, c.request, f, c.snapshot.original, c.snapshot.revised);
    BindingNamesSource(f.original);
    BindingNamesSource(f.revised);
    RowIdIsCanonical(db, f.anchor);
    EvidenceGroupIsGood(db, f.original, f.context.guid, f.context.rule, f.anchor.id, c.snapshot.original);
    EvidenceGroupIsGood(db, f.revised, f.context.guid, f.context.rule, c.request.revisedResult, c.snapshot.revised);
  }

  lemma GroupsAreEvidence(db: Db, cmd: Command, f: Subject, a: Group, b: Group)
    requires FindGroups(db, cmd, f) == Ok((a, b))
    ensures RunEvidence(db, f.original, f.context.guid, f.context.rule, f.anchor.id) == Ok(a)
    ensures RunEvidence(db, f.revised, f.context.guid, f.context.rule, cmd.revisedResult) == Ok(b)
  {
    hide RunEvidence;
  }

  lemma RowIdIsCanonical(db: Db, row: Row)
    requires Inv(db) && row in db.rows
    ensures Canonical(row.id)
  {
    hide Canonical;
    assert StoredRow(db, row);
  }

  lemma BindingNamesSource(run: RuleRun)
    requires RunSourceBinding(run).Ok?
    ensures RunSourceBinding(run).value.source.version == run.version
    ensures RunSourceBinding(run).value.source.run == run.id
  {
  }

  lemma RecordProjects(db: Db, c: Confirmation, g: Grant)
    requires Inv(db) && c in db.confirmations && g.cases != [] && g.versions == VersionsOf(g.cases)
    ensures c.issue in db.issues
    ensures ProjectRecord(c, db.issues[c.issue], g) ==
      if c.snapshot.sourceIdentity in g.cases then Page([ItemOf(c.snapshot)], 1, None) else Denied
  {
    hide Inv, Canonical, GoodGroup, FindRow, RunSourceBinding, CheckCase, Backed;
    ConfirmationFacts(db, c);
    StoredHasReaderFacts(db, c);
    GoodGroupsHaveVersions(c.snapshot.original);
    GoodGroupsHaveVersions(c.snapshot.revised);
  }

  lemma GoodGroupsHaveVersions(g: Group)
    requires GoodGroup(g)
    ensures g.version.Some?
  {
  }

  function Items(cs: seq<Confirmation>): seq<Item> {
    seq(|cs|, i requires 0 <= i < |cs| => ItemOf(cs[i].snapshot))
  }

  predicate AllGranted(cs: seq<Confirmation>, g: Grant) { forall c | c in cs :: c.snapshot.sourceIdentity in g.cases }

  lemma {:induction false} PageProjects(db: Db, id: Id, cs: seq<Confirmation>, g: Grant)
    requires Inv(db) && g.cases != [] && g.versions == VersionsOf(g.cases) && id in db.issues
    requires forall c | c in cs :: c in db.confirmations && c.issue == id
    ensures ProjectAll(cs, db.issues[id], g) == if AllGranted(cs, g) then Page(Items(cs), |cs|, None) else Denied
  {
    hide Inv, ProjectRecord;
    if cs == [] {
      assert Items(cs) == [];
    } else {
      var front, last := cs[..|cs| - 1], cs[|cs| - 1];
      PageProjects(db, id, front, g);
      RecordProjects(db, last, g);
      assert cs == front + [last];
      assert AllGranted(cs, g) <==> AllGranted(front, g) && last.snapshot.sourceIdentity in g.cases;
      assert Items(cs) == Items(front) + [ItemOf(last.snapshot)];
    }
  }

  lemma {:induction false} CasesCheck(db: Db, issue: Issue, anchor: Row, b: SourceBinding, cases: seq<Case>)
    requires forall k | k in cases :: CheckCase(db, issue, anchor, b, k) == Page([], 0, None)
    ensures CheckCases(db, issue, anchor, b, cases) == Page([], 0, None)
  {
    if cases != [] { CasesCheck(db, issue, anchor, b, cases[..|cases| - 1]); }
  }

  /** The history grant's cases were all confirmed for the issue. */
  ghost predicate AllConfirmed(db: Db, id: Id, cases: seq<Case>) {
    forall k | k in cases :: exists c :: c in db.confirmations && c.issue == id && c.snapshot.sourceIdentity == k
  }

  lemma ConfirmedCaseHasFacts(db: Db, id: Id, cases: seq<Case>, k: Case) returns (c: Confirmation)
    requires Inv(db) && AllConfirmed(db, id, cases) && k in cases
    ensures c in db.confirmations && c.issue == id && c.snapshot.sourceIdentity == k && ReaderFacts(db, c)
    ensures db.issues[id].kind == Formal && db.issues[id].sourceType == RULE_RESULT
  {
    hide Inv, ReaderFacts, Backed;
    c :| c in db.confirmations && c.issue == id && c.snapshot.sourceIdentity == k;
    ConfirmationFacts(db, c);
    StoredHasReaderFacts(db, c);
  }

  lemma SourcesCheck(db: Db, id: Id, g: Grant)
    requires Inv(db) && AllConfirmed(db, id, g.cases) && g.cases != [] && id in db.issues
    requires GoodIssue(db.issues[id]) && FindRow(db.rows, db.issues[id].sourceRef.value).Some?
    ensures SourceCheck(db, db.issues[id], FindRow(db.rows, db.issues[id].sourceRef.value).value, g) == Page([], 0, None)
  {
    hide Inv, CheckCase, Canonical, GoodGroup, FindRow, RunSourceBinding, AllConfirmed;
    var issue := db.issues[id];
    var anchor := FindRow(db.rows, issue.sourceRef.value).value;
    var c := ConfirmedCaseHasFacts(db, id, g.cases, g.cases[0]);
    var b := RunSourceBinding(db.runs[anchor.run]).value;
    forall k | k in g.cases ensures CheckCase(db, issue, anchor, b, k) == Page([], 0, None) {
      var d := ConfirmedCaseHasFacts(db, id, g.cases, k);
    }
    CasesCheck(db, issue, anchor, b, g.cases);
  }

  lemma {:induction false} CasesDenied(db: Db, issue: Issue, anchor: Row, b: SourceBinding, cases: seq<Case>)
    requires cases != [] && forall k | k in cases :: CheckCase(db, issue, anchor, b, k) == Denied
    ensures CheckCases(db, issue, anchor, b, cases) == Denied
  {
    assert cases[|cases| - 1] in cases;
    if |cases| > 1 { CasesDenied(db, issue, anchor, b, cases[..|cases| - 1]); }
  }

  /** The run a case names as the revised one is stored with its exact source. */
  predicate NamesStoredRun(db: Db, k: Case) {
    k.revised.run in db.runs && RunSourceBinding(db.runs[k.revised.run]).Ok?
  }

  lemma {:induction false} CasesOutcome(db: Db, issue: Issue, anchor: Row, b: SourceBinding, cases: seq<Case>)
    ensures var r := CheckCases(db, issue, anchor, b, cases);
      && (r == Page([], 0, None) || r == Denied || r == Unavailable)
      && (r.Page? <==> forall k | k in cases :: CheckCase(db, issue, anchor, b, k).Page?)
      && (r == Unavailable ==> exists k :: k in cases && !NamesStoredRun(db, k))
  {
    hide RunSourceBinding;
    if cases != [] {
      var front, last := cases[..|cases| - 1], cases[|cases| - 1];
      CasesOutcome(db, issue, anchor, b, front);
      assert cases == front + [last];
      assert last in cases;
    }
  }

  /** What the reader says of a claim's cases before it looks at any record of a confirmed issue. */
  function ClaimCheck(db: Db, id: Id, cases: seq<Case>): Reading
    requires id in db.issues && db.issues[id].sourceRef.Some?
    requires FindRow(db.rows, db.issues[id].sourceRef.value).Some?
    requires var anchor := FindRow(db.rows, db.issues[id].sourceRef.value).value;
      anchor.run in db.runs && RunSourceBinding(db.runs[anchor.run]).Ok?
  {
    var anchor := FindRow(db.rows, db.issues[id].sourceRef.value).value;
    CheckCases(db, db.issues[id], anchor, RunSourceBinding(db.runs[anchor.run]).value, cases)
  }

  /** No case names the issue's own source unless the claim covers the issue's model version. */
  lemma OtherVersionIsDenied(db: Db, c: Confirmation, cases: seq<Case>)
    requires ReaderFacts(db, c) && cases != [] && db.issues[c.issue].version.value !in VersionsOf(cases)
    ensures ClaimCheck(db, c.issue, cases) == Denied
  {
    var issue := db.issues[c.issue];
    var anchor := FindRow(db.rows, issue.sourceRef.value).value;
    var b := RunSourceBinding(db.runs[anchor.run]).value;
    hide Canonical, GoodGroup, FindRow, RunSourceBinding;
    forall k | k in cases ensures k.original != b.source {
    }
    CasesDenied(db, issue, anchor, b, cases);
  }

  lemma ConfirmedIssue(db: Db, c: Confirmation)
    requires Inv(db) && c in db.confirmations
    ensures ReaderFacts(db, c) && c.issue in db.issues
    ensures db.issues[c.issue].kind == Formal && db.issues[c.issue].sourceType == RULE_RESULT
  {
    hide ReaderFacts, Backed;
    ConfirmationFacts(db, c);
    StoredHasReaderFacts(db, c);
  }

  lemma SourceIsClaimCheck(db: Db, c: Confirmation, g: Grant)
    requires ReaderFacts(db, c) && g.cases != []
    ensures var issue := db.issues[c.issue];
      SourceCheck(db, issue, FindRow(db.rows, issue.sourceRef.value).value, g) == ClaimCheck(db, c.issue, g.cases)
  {
    hide CheckCase, CheckCases, Canonical, GoodGroup, FindRow, RunSourceBinding;
  }

  lemma ClaimOutcome(db: Db, c: Confirmation, cases: seq<Case>)
    requires ReaderFacts(db, c)
    ensures var r := ClaimCheck(db, c.issue, cases);
      && (r == Page([], 0, None) || r == Denied || r == Unavailable)
      && (r == Unavailable ==> exists k :: k in cases && !NamesStoredRun(db, k))
  {
    hide CheckCase, CheckCases, Canonical, GoodGroup, FindRow, RunSourceBinding, NamesStoredRun;
    var anchor := FindRow(db.rows, db.issues[c.issue].sourceRef.value).value;
    CasesOutcome(db, db.issues[c.issue], anchor, RunSourceBinding(db.runs[anchor.run]).value, cases);
  }

  /**
   Every history claim about an issue with a confirmation, whatever cases it names: it is refused when a
   case is not about the issue's own source, or names a revised run that is not stored so; else it reads the
   requested page exactly when it names the case of each confirmation there. Unavailable is only ever said
   of a case's run, never of a stored record.
   */
  lemma ClaimReads(steps: seq<Step>, c: Confirmation, a: Claims, limit: nat, offset: nat, start: nat, end: nat)
    requires Feasible(steps) && ValidClaims(a) && c in Run(EMPTY, steps).confirmations
    requires a.operation == HistoryOp && a.issue == c.issue && start < a.expires && end < a.expires
    requires 1 <= limit <= 100 && offset <= 9223372036854775807
    ensures ReaderFacts(Run(EMPTY, steps), c)
    ensures var db := Run(EMPTY, steps);
      var g, rows, check := GrantOf(a, c.issue, start), RowsFor(db.confirmations, c.issue), ClaimCheck(db, c.issue, a.cases);
      var page, reading := PageOf(rows, limit, offset), Read(db, c.issue, g, limit, offset, start, end);
      && reading == (
           if !check.Page? then check
           else if AllGranted(page, g.value)
           then Page(Items(page), |rows|, if offset + |page| < |rows| then Some(offset + |page|) else None)
           else Denied)
      && (reading == Unavailable ==> exists k :: k in a.cases && !NamesStoredRun(db, k))
  {
    hide Inv, Run, Canonical, ClaimCheck, SourceCheck, FindRow, RunSourceBinding, RowsFor, PageOf, ProjectAll,
         GoodGroup, ValidSource, NamesStoredRun, CheckCase;
    RunKeepsInv(steps);
    var db := Run(EMPTY, steps);
    var g := GrantOf(a, c.issue, start).value;
    ConfirmedIssue(db, c);
    GrantIsGood(a, c.issue, start);
    SourceIsClaimCheck(db, c, g);
    ClaimOutcome(db, c, a.cases);
    if db.issues[c.issue].version.value !in g.versions { OtherVersionIsDenied(db, c, a.cases); }
    RowsForMembers(db.confirmations, c.issue);
    PageMembers(RowsFor(db.confirmations, c.issue), limit, offset);
    PageProjects(db, c.issue, PageOf(RowsFor(db.confirmations, c.issue), limit, offset), g);
  }

  /**
   Main result: writer and reader agree. In every database the ledger can reach, a history claim
   whose cases were all confirmed for the issue reads the requested page of its confirmations, in
   order and group for group as stored, exactly when it names the case of each of them; otherwise it
   is denied. The reader never finds the writer's records unusable.
   */
  lemma WriterAndReaderAgree(steps: seq<Step>, id: Id, a: Claims, limit: nat, offset: nat, start: nat, end: nat)
    requires Feasible(steps) && ValidClaims(a) && AllConfirmed(Run(EMPTY, steps), id, a.cases)
    requires a.operation == HistoryOp && a.issue == id && start < a.expires && end < a.expires
    requires 1 <= limit <= 100 && offset <= 9223372036854775807
    ensures var db := Run(EMPTY, steps);
      var g, rows := GrantOf(a, id, start), RowsFor(db.confirmations, id);
      var page := PageOf(rows, limit, offset);
      Read(db, id, g, limit, offset, start, end) ==
        if AllGranted(page, g.value)
        then Page(Items(page), |rows|, if offset + |page| < |rows| then Some(offset + |page|) else None)
        else Denied
  {
    hide Inv, Run, Canonical, ClaimCheck, SourceCheck, FindRow, RunSourceBinding, RowsFor, PageOf, Read,
         AllConfirmed, GoodGroup, ValidSource, CheckCase;
    RunKeepsInv(steps);
    var db := Run(EMPTY, steps);
    var c := ConfirmedCaseHasFacts(db, id, a.cases, a.cases[0]);
    ClaimReads(steps, c, a, limit, offset, start, end);
    var g := GrantOf(a, id, start).value;
    SourcesCheck(db, id, g);
    SourceIsClaimCheck(db, c, g);
  }

  lemma PageMembers(cs: seq<Confirmation>, limit: nat, offset: nat)
    ensures forall c | c in PageOf(cs, limit, offset) :: c in cs
  {
  }

  lemma GrantIsGood(a: Claims, id: Id, now: nat)
    requires ValidClaims(a) && a.operation == HistoryOp && a.issue == id && now < a.expires
    ensures GoodGrant(GrantOf(a, id, now), id, now)
    ensures a.cases[0].original.version.Some? && a.cases[0].original.version.value in VersionsOf(a.cases)
  {
    hide Canonical;
    assert ValidCase(a.cases[0], a.issue);
    assert a.cases[0].original.version.value in VersionsOf(a.cases);
    forall v | v in VersionsOf(a.cases) ensures Canonical(v) {
      var k :| k in a.cases && (k.original.version == Some(v) || k.revised.version == Some(v));
      assert ValidCase(k, a.issue);
    }
  }

  // --------------------------------------------------------------------------- what a page shows

  /** The item tells of the stored snapshot, each field of its own. */
  predicate Tells(it: Item, s: Snapshot) {
    && it.id == s.id && it.issue == s.issue && it.principal == s.principal && it.createdAt == s.createdAt
    && it.before == s.before && it.after == s.after && it.note == s.note && it.actor == s.actor
    && it.original == s.original && it.revised == s.revised
  }

  lemma {:induction false} ProjectionTells(cs: seq<Confirmation>, issue: Issue, g: Grant)
    requires ProjectAll(cs, issue, g).Page?
    ensures var items := ProjectAll(cs, issue, g).items;
      |items| == |cs| && forall i | 0 <= i < |cs| :: Tells(items[i], cs[i].snapshot)
  {
    hide GoodGroup, Canonical;
    if cs != [] { ProjectionTells(cs[..|cs| - 1], issue, g); }
  }

  /**
   Whatever is stored and whoever asks: a page that is read shows, from the offset on, one item for each of the
   issue's confirmations in their order, as many as fit the limit, each with the fields of its own snapshot, and
   says how many there are and where the next page starts, if any are left.
   */
  lemma PageShows(db: Db, id: Id, g: Option<Grant>, limit: nat, offset: nat, start: nat, end: nat)
    requires Read(db, id, g, limit, offset, start, end).Page?
    ensures var page, rows := Read(db, id, g, limit, offset, start, end), RowsFor(db.confirmations, id);
      && page.total == |rows|
      && |page.items| == (if |rows| <= offset then 0 else if |rows| - offset <= limit then |rows| - offset else limit)
      && (forall i | 0 <= i < |page.items| ::
            var it, s := page.items[i], rows[offset + i].snapshot;
            && it.id == s.id && it.issue == s.issue && it.principal == s.principal && it.createdAt == s.createdAt
            && it.before == s.before && it.after == s.after && it.note == s.note && it.actor == s.actor
            && it.original == s.original && it.revised == s.revised)
      && page.next == (if offset + |page.items| < |rows| then Some(offset + |page.items|) else None)
  {
    hide GoodIssue, SourceCheck, Canonical, ProjectAll, RowsFor, FindRow;
    var rows := RowsFor(db.confirmations, id);
    ProjectionTells(PageOf(rows, limit, offset), db.issues[id], g.value);
  }

  /** A group a reader may be shown: named throughout, and of one component and rule, its anchor among its rows. */
  predicate IsShowable(g: Group) {
    && Canonical(g.run) && g.version.Some? && Canonical(g.version.value) && Canonical(g.digest)
    && Canonical(g.guid) && Canonical(g.rule)
    && (exists m :: m in g.members && m.id == g.anchor)
    && forall m | m in g.members :: Canonical(m.id) && m.guid == Some(g.guid) && m.rule == g.rule && m.status in {Pass, Fail, Errored}
  }

  /** The stored record agrees with its columns, its issue and the grant. */
  predicate IsChecked(c: Confirmation, issue: Issue, g: Grant) {
    var s := c.snapshot;
    && Canonical(c.id) && Canonical(c.issue) && Canonical(c.principal)
    && s.id == c.id && s.issue == c.issue == issue.id && s.principal == c.principal && s.createdAt == c.createdAt
    && s.after == s.before + 1 <= issue.revision && |s.note| <= 4000
    && IsShowable(s.original) && IsShowable(s.revised)
    && s.original.version == issue.version && issue.sourceRef == Some(s.original.anchor)
    && issue.guid == Some(s.original.guid) == Some(s.revised.guid)
    && s.original.version.value in g.versions && s.revised.version.value in g.versions
    && (g.cases != [] ==> s.sourceIdentity in g.cases)
  }

  lemma ShowableIsGood(g: Group)
    ensures GoodGroup(g) <==> IsShowable(g) && Canonical(g.anchor)
  {
    hide Canonical;
    if exists m :: m in g.members && m.id == g.anchor {
      var m :| m in g.members && m.id == g.anchor;
      assert g.members != [];
    }
  }

  lemma ShowsOnlyChecked(c: Confirmation, issue: Issue, g: Grant)
    ensures ProjectRecord(c, issue, g).Page? <==> IsChecked(c, issue, g)
  {
    hide Canonical, GoodGroup, IsShowable;
    ShowableIsGood(c.snapshot.original);
    ShowableIsGood(c.snapshot.revised);
    AnchorIsNamed(c.snapshot.original);
    AnchorIsNamed(c.snapshot.revised);
  }

  lemma AnchorIsNamed(g: Group)
    ensures IsShowable(g) ==> Canonical(g.anchor) && g.version.Some?
  {
    hide Canonical;
    if IsShowable(g) {
      var m :| m in g.members && m.id == g.anchor;
    }
  }

  lemma {:induction false} AllChecked(cs: seq<Confirmation>, issue: Issue, g: Grant)
    ensures ProjectAll(cs, issue, g).Page? <==> forall c | c in cs :: IsChecked(c, issue, g)
  {
    hide IsChecked, ProjectRecord;
    if cs != [] {
      var front, last := cs[..|cs| - 1], cs[|cs| - 1];
      AllChecked(front, issue, g);
      ShowsOnlyChecked(last, issue, g);
      assert cs == front + [last];
      assert last in cs;
    }
  }

  /** A case of a claim is about the issue's own row and source, and about a run stored over the source it names. */
  predicate CaseIsOwn(db: Db, issue: Issue, anchor: Row, k: Case) {
    && k.issue == issue.id && Some(k.guid) == issue.guid && k.rule == anchor.rule
    && anchor.run in db.runs && D.SourceIs(db.runs[anchor.run], k.tenant, k.project, k.original)
    && k.revised.run in db.runs && D.SourceIs(db.runs[k.revised.run], k.tenant, k.project, k.revised)
  }

  lemma CheckCaseMeans(db: Db, issue: Issue, anchor: Row, k: Case)
    requires anchor.run in db.runs && RunSourceBinding(db.runs[anchor.run]).Ok?
    ensures CheckCase(db, issue, anchor, RunSourceBinding(db.runs[anchor.run]).value, k).Page? <==> CaseIsOwn(db, issue, anchor, k)
  {
    hide RunSourceBinding, D.SourceIs;
    D.BindingIsSource(db.runs[anchor.run]);
    D.BindingExactlyWhen(db.runs[anchor.run], k.tenant, k.project, k.original);
    if k.revised.run in db.runs {
      D.BindingIsSource(db.runs[k.revised.run]);
      D.BindingExactlyWhen(db.runs[k.revised.run], k.tenant, k.project, k.revised);
    }
  }

  lemma SourceCheckMeans(db: Db, issue: Issue, anchor: Row, g: Grant)
    requires g.cases != []
    ensures SourceCheck(db, issue, anchor, g).Page? <==>
      anchor.guid == issue.guid && forall k | k in g.cases :: CaseIsOwn(db, issue, anchor, k)
  {
    hide RunSourceBinding, CheckCase, CaseIsOwn;
    var k0 := g.cases[0];
    CaseHasSource(db, issue, anchor, k0);
    if anchor.run in db.runs && RunSourceBinding(db.runs[anchor.run]).Ok? {
      CasesOutcome(db, issue, anchor, RunSourceBinding(db.runs[anchor.run]).value, g.cases);
      forall k | k in g.cases { CheckCaseMeans(db, issue, anchor, k); }
    }
  }

  lemma CaseHasSource(db: Db, issue: Issue, anchor: Row, k: Case)
    ensures CaseIsOwn(db, issue, anchor, k) ==> anchor.run in db.runs && RunSourceBinding(db.runs[anchor.run]).Ok?
  {
    if CaseIsOwn(db, issue, anchor, k) {
      D.BindingExactlyWhen(db.runs[anchor.run], k.tenant, k.project, k.original);
    }
  }

  /** Some case of the claim names this model version. */
  predicate NamesVersion(cases: seq<Case>, version: Option<string>) {
    version.Some? && exists k :: k in cases && (k.original.version == version || k.revised.version == version)
  }

  lemma VersionsNamed(cases: seq<Case>, v: string)
    ensures v in VersionsOf(cases) <==> NamesVersion(cases, Some(v))
  {
  }

  /** The issue is one whose history can be read, and it came from row `r`. */
  predicate HasHistory(db: Db, id: Id, r: Row) {
    && id in db.issues && db.issues[id].kind == Formal && db.issues[id].sourceType == Some("rule_result")
    && IsCanonical(db.issues[id].version) && IsCanonical(db.issues[id].guid) && IsCanonical(db.issues[id].sourceRef)
    && Canonical(db.issues[id].id)
    && FindRow(db.rows, db.issues[id].sourceRef.value) == Some(r) && r.guid == db.issues[id].guid
  }

  /** The claim names the issue's version and only its own sources, and the records of the page pass. */
  predicate MayShow(db: Db, id: Id, a: Claims, r: Row, limit: nat, offset: nat) {
    var rows := RowsFor(db.confirmations, id);
    && HasHistory(db, id, r) && NamesVersion(a.cases, db.issues[id].version)
    && (forall k | k in a.cases :: CaseIsOwn(db, db.issues[id], r, k))
    && forall i | offset <= i < |rows| && i < offset + limit ::
         IsChecked(rows[i], db.issues[id], Grant(id, VersionsOf(a.cases), a.expires, a.cases))
  }

  /**
   Exactly when a history page is read, whatever is stored: within the bounds of paging, for an unexpired history
   claim on this issue that names its model version, each of whose cases is about its own row and sources, if
   every record the page would show agrees with its columns, the issue and the claim.
   */
  lemma ReadsExactlyWhen(db: Db, id: Id, a: Claims, limit: nat, offset: nat, start: nat, end: nat)
    requires ValidClaims(a)
    ensures Read(db, id, GrantOf(a, id, start), limit, offset, start, end).Page? <==>
      && Canonical(id) && 1 <= limit <= 100 && offset <= 9223372036854775807
      && a.operation == HistoryOp && a.issue == id && start < a.expires && end < a.expires
      && exists r :: MayShow(db, id, a, r, limit, offset)
  {
    hide Canonical, SourceCheck, ProjectAll, RowsFor, FindRow, CaseIsOwn, IsChecked, VersionsOf, ValidCase;
    if a.operation == HistoryOp && a.issue == id && start < a.expires {
      GrantIsGood(a, id, start);
      ReadsForGrant(db, id, a, limit, offset, start, end);
    }
  }

  lemma ReadsForGrant(db: Db, id: Id, a: Claims, limit: nat, offset: nat, start: nat, end: nat)
    requires var g := GrantOf(a, id, start); GoodGrant(g, id, start) && a.cases != []
    ensures Read(db, id, GrantOf(a, id, start), limit, offset, start, end).Page? <==>
      && Canonical(id) && 1 <= limit <= 100 && offset <= 9223372036854775807 && end < a.expires
      && exists r :: MayShow(db, id, a, r, limit, offset)
  {
    hide Canonical, SourceCheck, ProjectAll, RowsFor, FindRow, CaseIsOwn, IsChecked, VersionsOf, NamesVersion, PageOf;
    var rows, g := RowsFor(db.confirmations, id), GrantOf(a, id, start).value;
    if id in db.issues {
      var issue := db.issues[id];
      AllChecked(PageOf(rows, limit, offset), issue, g);
      PageRows(rows, limit, offset, issue, g);
      if issue.version.Some? { VersionsNamed(a.cases, issue.version.value); }
      if issue.sourceRef.Some? && FindRow(db.rows, issue.sourceRef.value).Some? {
        var r := FindRow(db.rows, issue.sourceRef.value).value;
        SourceCheckMeans(db, issue, r, g);
        if Read(db, id, Some(g), limit, offset, start, end).Page? { assert MayShow(db, id, a, r, limit, offset); }
        if MayShow(db, id, a, r, limit, offset) { assert issue.version.value in g.versions; }
      }
    }
  }

  lemma PageRows(rows: seq<Confirmation>, limit: nat, offset: nat, issue: Issue, g: Grant)
    ensures (forall c | c in PageOf(rows, limit, offset) :: IsChecked(c, issue, g)) <==>
      forall i | offset <= i < |rows| && i < offset + limit :: IsChecked(rows[i], issue, g)
  {
    hide IsChecked;
    var page := PageOf(rows, limit, offset);
    forall i | offset <= i < |rows| && i < offset + limit ensures rows[i] in page { assert page[i - offset] == rows[i]; }
    forall c | c in page ensures exists i :: offset <= i < |rows| && i < offset + limit && rows[i] == c {
      var j :| 0 <= j < |page| && page[j] == c;
      assert rows[offset + j] == c;
    }
  }

  /** The stored record agrees with its columns and its issue, whoever asks. */
  predicate IsSoundRecord(c: Confirmation, issue: Issue) {
    IsChecked(c, issue, Grant(issue.id, VersionsIn(c.snapshot), 0, []))
  }

  function VersionsIn(s: Snapshot): set<string> {
    (if s.original.version.Some? then {s.original.version.value} else {})
    + if s.revised.version.Some? then {s.revised.version.value} else {}
  }

  /** A record that does not agree is unavailable; one that does, but not with the grant, is denied. */
  lemma RecordRefusals(c: Confirmation, issue: Issue, g: Grant)
    ensures ProjectRecord(c, issue, g) == Unavailable <==> !IsSoundRecord(c, issue)
    ensures ProjectRecord(c, issue, g) == Denied <==>
      && IsSoundRecord(c, issue)
      && (!(VersionsIn(c.snapshot) <= g.versions) || (g.cases != [] && c.snapshot.sourceIdentity !in g.cases))
  {
    hide Canonical, GoodGroup, IsShowable;
    ShowableIsGood(c.snapshot.original);
    ShowableIsGood(c.snapshot.revised);
    AnchorIsNamed(c.snapshot.original);
    AnchorIsNamed(c.snapshot.revised);
  }

  /** The refusals of a read that come before any record: of the paging, of the claim, and of what is asked about. */
  lemma ReadRefusals(db: Db, id: Id, a: Claims, limit: nat, offset: nat, start: nat, end: nat)
    requires ValidClaims(a)
    ensures var reading := Read(db, id, GrantOf(a, id, start), limit, offset, start, end);
      var inBounds := Canonical(id) && 1 <= limit <= 100 && offset <= 9223372036854775807;
      var granted := a.operation == HistoryOp && a.issue == id && start < a.expires;
      && (!inBounds ==> reading == Unavailable)
      && (inBounds && !granted ==> reading == Denied)
      && (reading == Missing <==> inBounds && granted && !IsRuleIssue(db, id))
      && (inBounds && granted && IsRuleIssue(db, id) ==> (
            var issue := db.issues[id];
            && (!IsWellKept(issue) ==> reading == Unavailable)
            && (IsWellKept(issue) && !NamesVersion(a.cases, issue.version) ==> reading == Denied)
            && (IsWellKept(issue) && NamesVersion(a.cases, issue.version) && FindRow(db.rows, issue.sourceRef.value).None? ==>
                  reading == Unavailable)))
      && (Read(db, id, GrantOf(a, id, start), limit, offset, start, start).Page? && end >= a.expires ==> reading == Denied)
  {
    hide Canonical, SourceCheck, ProjectAll, RowsFor, FindRow, VersionsOf, ValidCase, NamesVersion;
    if a.operation == HistoryOp && a.issue == id && start < a.expires { GrantIsGood(a, id, start); }
    if id in db.issues && db.issues[id].version.Some? { VersionsNamed(a.cases, db.issues[id].version.value); }
    if id in db.issues && db.issues[id].sourceRef.Some? && FindRow(db.rows, db.issues[id].sourceRef.value).Some? {
      SourceIsNeverMissing(db, db.issues[id], FindRow(db.rows, db.issues[id].sourceRef.value).value, Grant(id, VersionsOf(a.cases), a.expires, a.cases));
      RecordsAreNeverMissing(PageOf(RowsFor(db.confirmations, id), limit, offset), db.issues[id], Grant(id, VersionsOf(a.cases), a.expires, a.cases));
    }
  }

  predicate IsWellKept(issue: Issue) {
    Canonical(issue.id) && IsCanonical(issue.version) && IsCanonical(issue.guid) && IsCanonical(issue.sourceRef)
  }

  predicate IsRuleIssue(db: Db, id: Id) {
    id in db.issues && db.issues[id].kind == Formal && db.issues[id].sourceType == Some("rule_result")
  }

  lemma SourceIsNeverMissing(db: Db, issue: Issue, anchor: Row, g: Grant)
    ensures SourceCheck(db, issue, anchor, g) != Missing
  {
    hide CheckCase, RunSourceBinding;
    if anchor.run in db.runs && RunSourceBinding(db.runs[anchor.run]).Ok? {
      CasesOutcome(db, issue, anchor, RunSourceBinding(db.runs[anchor.run]).value, g.cases);
    }
  }

  lemma {:induction false} RecordsAreNeverMissing(cs: seq<Confirmation>, issue: Issue, g: Grant)
    ensures ProjectAll(cs, issue, g) != Missing
  {
    hide GoodGroup, Canonical;
    if cs != [] { RecordsAreNeverMissing(cs[..|cs| - 1], issue, g); }
  }

  /** The case is about the issue's own row and source, whatever it says of the revised run. */
  predicate IsOwnSide(db: Db, issue: Issue, anchor: Row, k: Case) {
    && k.issue == issue.id && Some(k.guid) == issue.guid && k.rule == anchor.rule
    && anchor.run in db.runs && D.SourceIs(db.runs[anchor.run], k.tenant, k.project, k.original)
  }

  /**
   Why a case is refused: one about another source is denied, one about a revised run without a stored source is
   unavailable, one that names another source than the stored one is denied. An issue whose own row or run has no
   source is unavailable before any case is read.
   */
  lemma CaseRefusals(db: Db, issue: Issue, anchor: Row, g: Grant, k: Case)
    ensures var bound := anchor.guid == issue.guid && anchor.run in db.runs && RunSourceBinding(db.runs[anchor.run]).Ok?;
      && (g.cases != [] && !bound ==> SourceCheck(db, issue, anchor, g) == Unavailable)
      && (g.cases == [] ==> SourceCheck(db, issue, anchor, g) == Page([], 0, None))
      && (bound ==> (
            var r := CheckCase(db, issue, anchor, RunSourceBinding(db.runs[anchor.run]).value, k);
            && (r == Unavailable <==> IsOwnSide(db, issue, anchor, k) && !NamesStoredRun(db, k))
            && (r == Denied <==> !IsOwnSide(db, issue, anchor, k) || (NamesStoredRun(db, k) && !CaseIsOwn(db, issue, anchor, k)))))
  {
    hide RunSourceBinding, D.SourceIs, CheckCases;
    if anchor.run in db.runs {
      D.BindingIsSource(db.runs[anchor.run]);
      D.BindingExactlyWhen(db.runs[anchor.run], k.tenant, k.project, k.original);
    }
    if k.revised.run in db.runs {
      D.BindingIsSource(db.runs[k.revised.run]);
      D.BindingExactlyWhen(db.runs[k.revised.run], k.tenant, k.project, k.revised);
    }
  }

  /** Whoever granted it, a grant that is missing, for another issue, without versions or with a bad one, or expired is denied. */
  lemma BadGrantIsDenied(db: Db, id: Id, g: Option<Grant>, limit: nat, offset: nat, start: nat, end: nat)
    requires Canonical(id) && 1 <= limit <= 100 && offset <= 9223372036854775807
    requires g.Some? ==>
      || g.value.issue != id || g.value.versions == {} || g.value.expires <= start
      || exists v :: v in g.value.versions && !Canonical(v)
    ensures Read(db, id, g, limit, offset, start, end) == Denied
  {
  }
}
