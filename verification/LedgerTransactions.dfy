/**
 The transactions of the governance ledger, each a function from the database and its arguments to
 the committed database and the answer. A transaction that fails leaves the database as it was.
 Generated ids and readings of the clock are arguments.
 */
module LedgerTransactions {
  import opened Options
  import opened Text
  import opened LedgerTables

  // --------------------------------------------------------------------------- issues

  datatype IssueSpec = IssueSpec(
    guid: Option<string>, version: Option<string>, sourceType: Option<string>, sourceRef: Option<string>)

  const RULE_RESULT: Option<string> := Some("rule_result")
  const A4_SEARCH: Option<string> := Some("a4_search")

  function Normalized(text: Option<string>): Option<string> {
    if text.None? || Trim(text.value) == "" then None else Some(Trim(text.value))
  }

  /** A component without a model version cannot be bound. */
  predicate Bindable(spec: IssueSpec) {
    Normalized(spec.guid).Some? ==> Normalized(spec.version).Some?
  }

  function NewIssue(id: Id, spec: IssueSpec): Issue {
    Issue(id, if Normalized(spec.guid).Some? then Formal else Annotation, Open,
          Normalized(spec.guid), Normalized(spec.version), spec.sourceType, spec.sourceRef, 0)
  }

  function Insert(db: Db, issue: Issue): Db {
    db.(issues := db.issues[issue.id := issue],
        events := db.events + [Event(issue.id, IssueCreated, None, Open, "")])
  }

  function CreateIssue(db: Db, id: Id, spec: IssueSpec): (Db, Result<Issue>) {
    if !Bindable(spec) then (db, Err(Unbound))
    else if id in db.issues then (db, Err(Constraint))
    else (Insert(db, NewIssue(id, spec)), Ok(NewIssue(id, spec)))
  }

  /** An issue already stands for this source; a source without type or reference matches nothing. */
  predicate HasSource(db: Db, spec: IssueSpec) {
    spec.sourceType.Some? && spec.sourceRef.Some?
    && exists id :: id in db.issues
         && db.issues[id].sourceType == spec.sourceType && db.issues[id].sourceRef == spec.sourceRef
  }

  datatype Batch = Batch(db: Db, created: seq<Id>, skipped: nat)

  /** The loop of a batch, inside its transaction: `ids[i]` is the id drawn for `specs[i]`. */
  function BatchLoop(db: Db, ids: seq<Id>, specs: seq<IssueSpec>): Result<Batch>
    requires |ids| == |specs|
  {
    if specs == [] then Ok(Batch(db, [], 0)) else
      var n := |specs| - 1;
      var before := BatchLoop(db, ids[..n], specs[..n]);
      if before.Err? then before else
        var b := before.value;
        if HasSource(b.db, specs[n]) then Ok(b.(skipped := b.skipped + 1)) else
          var (next, answer) := CreateIssue(b.db, ids[n], specs[n]);
          if answer.Err? then Err(answer.error) else Ok(Batch(next, b.created + [ids[n]], b.skipped))
  }

  function CreateBatch(db: Db, ids: seq<Id>, specs: seq<IssueSpec>): (Db, Result<Batch>)
    requires |ids| == |specs|
  {
    var run := BatchLoop(db, ids, specs);
    (if run.Ok? then run.value.db else db, run)
  }

  predicate Blank(text: string) { forall c | c in text :: c == ' ' }

  /** Creates an issue from a search proof, or returns the one the same proof created before. */
  function CreateA4Issue(
    db: Db, id: Id, guid: string, version: string, query: string, proof: Id, ev: Evidence): (Db, Result<Issue>)
  {
    if proof in db.a4 then
      var stored := db.a4[proof];
      if stored.issue !in db.issues then (db, Err(Constraint))
      else if stored.session != ev.session || stored.principal != ev.principal then (db, Err(Unauthorized))
      else if stored != ev.(issue := stored.issue) then (db, Err(Conflict))
      else (db, Ok(db.issues[stored.issue]))
    else if id in db.issues || Blank(guid) || Blank(version) then (db, Err(Constraint))
    else
      var issue := Issue(id, Formal, Open, Some(guid), Some(version), A4_SEARCH, Some(query), 0);
      (Insert(db, issue).(a4 := db.a4[proof := ev.(issue := id)]), Ok(issue))
  }

  /** Moves an issue one step along the status machine, with its audit row. */
  function Change(db: Db, id: Id, what: EventType, to: IssueStatus, note: string): Db
    requires id in db.issues
  {
    var issue := db.issues[id];
    db.(issues := db.issues[id := issue.(status := to, revision := issue.revision + 1)],
        events := db.events + [Event(id, what, Some(issue.status), to, note)])
  }

  function Transition(db: Db, id: Id, to: IssueStatus, expected: Option<int>, note: string): (Db, Result<Issue>) {
    if expected.Some? && expected.value < 0 then (db, Err(Illegal))
    else if id !in db.issues then (db, Err(NotFound))
    else
      var issue := db.issues[id];
      if expected.Some? && expected.value != issue.revision then (db, Err(Illegal))
      else if to !in AllowedFrom(issue.status) then (db, Err(Illegal))
      else if issue.sourceType == RULE_RESULT && (to == Resolved || to == Reopened) then (db, Err(Illegal))
      else
        var next := Change(db, id, Transitioned, to, note);
        (next, Ok(next.issues[id]))
  }

  // --------------------------------------------------------------------------- rule runs

  datatype Finding = Finding(guid: Option<string>, rule: string, status: ResultStatus)

  datatype RunResult = RunResult(summary: Summary, findings: seq<Finding>)

  function CreateRun(db: Db, id: Id, version: Option<string>, metadata: Option<Metadata>): Db {
    if id in db.runs then db else db.(runs := db.runs[id := RuleRun(id, version, metadata, Queued, None)])
  }

  function MarkRunning(db: Db, id: Id): Db {
    if id in db.runs && db.runs[id].status == Queued
    then db.(runs := db.runs[id := db.runs[id].(status := Running)]) else db
  }

  predicate Unfinished(db: Db, id: Id) {
    id in db.runs && (db.runs[id].status == Queued || db.runs[id].status == Running)
  }

  function NewRows(id: Id, ids: seq<Id>, findings: seq<Finding>): seq<Row>
    requires |ids| == |findings|
  {
    seq(|ids|, i requires 0 <= i < |ids| => Row(ids[i], id, findings[i].guid, findings[i].rule, findings[i].status))
  }

  /** Drawn ids are usable as primary keys: pairwise distinct and not yet in the table. */
  predicate FreshRowIds(db: Db, ids: seq<Id>) {
    && (forall i, j | 0 <= i < j < |ids| :: ids[i] != ids[j])
    && (forall r | r in db.rows :: r.id !in ids)
  }

  function CompleteRun(db: Db, id: Id, ids: seq<Id>, result: RunResult): Db
    requires |ids| == |result.findings|
  {
    if !Unfinished(db, id) || !FreshRowIds(db, ids) then db else
      db.(runs := db.runs[id := db.runs[id].(status := Succeeded, summary := Some(result.summary))],
          rows := db.rows + NewRows(id, ids, result.findings))
  }

  function FailRun(db: Db, id: Id): Db {
    if Unfinished(db, id) then
      db.(runs := db.runs[id := db.runs[id].(status := Failed, summary := Some(Summary(-1, -1, -1, -1, None, None)))])
    else db
  }

  // --------------------------------------------------------------------------- evidence

  datatype SourceBinding = SourceBinding(tenant: string, project: string, source: Source)

  function RunSourceBinding(run: RuleRun): Result<SourceBinding> {
    if run.metadata.None? || run.summary.None? then Err(Invalid) else
      var m, sha := run.metadata.value, run.summary.value.sourceSha;
      if !IsCanonical(m.tenant) || !IsCanonical(m.project) || m.version != run.version
         || sha.None? || !IsSha256(sha.value) then Err(Invalid)
      else Ok(SourceBinding(m.tenant.value, m.project.value, Source(run.version, run.id, sha.value)))
  }

  /** The summary counts every stored row, and every row has a known outcome. */
  predicate Covered(rows: seq<Row>, s: Summary) {
    && (forall r | r in rows :: r.status != Unknown)
    && s.total == |rows| && s.passed == CountOf(rows, Pass)
    && s.failed == CountOf(rows, Fail) && s.errored == CountOf(rows, Errored)
  }

  function RunEvidence(db: Db, run: RuleRun, guid: string, rule: string, anchor: Id): Result<Group> {
    if run.status != Succeeded || run.summary.None? then Err(Invalid) else
      var digest, rows := run.summary.value.digest, RowsOf(db.rows, run.id);
      var group := Covering(rows, guid, rule);
      if digest.None? || !IsRuleDigest(digest.value) then Err(Invalid)
      else if !Covered(rows, run.summary.value) then Err(Invalid)
      else if exists r :: r in rows && r.rule == rule && !IsCanonical(r.guid) then Err(Invalid)
      else if group == [] then Err(Invalid)
      else Ok(Group(run.id, run.version, guid, rule, digest.value, group, anchor))
  }

  // --------------------------------------------------------------------------- authority

  datatype Operation = ConfirmOp | HistoryOp | ReopenOp

  datatype Claims = Claims(
    operation: Operation, issue: Id, expires: nat, principal: string, actor: ActorKind,
    authorization: string, cases: seq<Case>)

  predicate ValidSource(s: Source) { IsCanonical(s.version) && Canonical(s.run) && IsSha256(s.sha) }

  predicate ValidCase(c: Case, issue: Id) {
    && c.issue == issue && Canonical(c.issue) && Canonical(c.tenant) && Canonical(c.project)
    && Canonical(c.guid) && Canonical(c.rule) && Canonical(c.correspondence)
    && ValidSource(c.original) && ValidSource(c.revised)
    && c.original.run != c.revised.run && c.original.version != c.revised.version
  }

  /** The claims a signed request envelope must carry to become an authority. */
  predicate ValidClaims(a: Claims) {
    && Canonical(a.principal) && Canonical(a.authorization) && 1 <= |a.cases| <= 32
    && forall c | c in a.cases :: ValidCase(c, a.issue)
  }

  datatype Context = Context(
    request: Command, project: string, tenant: string, guid: string, rule: string, original: Source, revised: Source)

  datatype Decision = Decision(correspondence: string, sourceIdentity: Case)

  predicate Vouches(c: Case, ctx: Context) {
    && c.issue == ctx.request.issue && c.project == ctx.project && c.tenant == ctx.tenant
    && c.original == ctx.original && c.revised == ctx.revised && c.guid == ctx.guid && c.rule == ctx.rule
  }

  function Matches(cases: seq<Case>, ctx: Context): (r: seq<Case>)
    ensures forall c | c in r :: c in cases && Vouches(c, ctx)
  {
    if cases == [] then [] else
      var rest := Matches(cases[..|cases| - 1], ctx);
      if Vouches(cases[|cases| - 1], ctx) then rest + [cases[|cases| - 1]] else rest
  }

  /** The authority's answer: the one case of an unexpired confirm grant that matches the context. */
  function Decide(a: Claims, ctx: Context, now: nat): Option<Decision> {
    var found := Matches(a.cases, ctx);
    if a.expires <= now || a.operation != ConfirmOp || |found| != 1
       || !Canonical(a.principal) || !Canonical(a.authorization) || !Canonical(found[0].correspondence)
    then None else Some(Decision(found[0].correspondence, found[0]))
  }

  // --------------------------------------------------------------------------- confirm

  predicate ValidCommand(c: Command) {
    && c.expectedRevision >= 0 && |c.note| <= 4000
    && Canonical(c.issue) && Canonical(c.revisedVersion) && Canonical(c.revisedRun)
    && Canonical(c.revisedResult) && Canonical(c.key)
  }

  /** What a confirmation is about: the issue, the failing result it came from and both runs. */
  datatype Subject = Subject(issue: Issue, anchor: Row, original: RuleRun, revised: RuleRun, context: Context)

  function FindSubject(db: Db, cmd: Command): Result<Subject> {
    if cmd.issue !in db.issues then Err(Invalid) else
      var issue := db.issues[cmd.issue];
      if issue.kind != Formal || issue.sourceType != RULE_RESULT || issue.sourceRef.None? then Err(Invalid) else
        var anchor := FindRow(db.rows, issue.sourceRef.value);
        if anchor.None? || anchor.value.run !in db.runs || cmd.revisedRun !in db.runs then Err(Invalid) else
          var original, revised := db.runs[anchor.value.run], db.runs[cmd.revisedRun];
          var first, second := RunSourceBinding(original), RunSourceBinding(revised);
          if original.version != issue.version || anchor.value.guid != issue.guid || !IsCanonical(issue.guid)
             || !Canonical(anchor.value.rule) || revised.version != Some(cmd.revisedVersion)
             || first.Err? || second.Err?
             || first.value.project != second.value.project || first.value.tenant != second.value.tenant then Err(Invalid)
          else Ok(Subject(issue, anchor.value, original, revised,
                 Context(cmd, first.value.project, first.value.tenant, issue.guid.value, anchor.value.rule,
                         first.value.source, second.value.source)))
  }

  /** The complete rule group failed on the original run and passes on the revised one. */
  function FindGroups(db: Db, cmd: Command, s: Subject): Result<(Group, Group)> {
    var anchor := FindRow(db.rows, cmd.revisedResult);
    if s.original.id == s.revised.id || s.original.version == s.revised.version then Err(Invalid)
    else if s.anchor.status != Fail || anchor.None? || anchor.value.run != s.revised.id
            || anchor.value.status != Pass || anchor.value.guid != s.issue.guid
            || anchor.value.rule != s.anchor.rule then Err(Invalid)
    else
      var first := RunEvidence(db, s.original, s.context.guid, s.context.rule, s.anchor.id);
      var second := RunEvidence(db, s.revised, s.context.guid, s.context.rule, cmd.revisedResult);
      if first.Err? || second.Err? || first.value.digest != second.value.digest
         || |first.value.members| != |second.value.members|
         || exists m :: m in second.value.members && m.status != Pass then Err(Invalid)
      else Ok((first.value, second.value))
  }

  predicate Reuses(db: Db, cmd: Command, d: Decision) {
    exists c :: c in db.confirmations && c.issue == cmd.issue
      && (c.correspondence == d.correspondence || c.revisedRun == cmd.revisedRun)
  }

  datatype Confirmed = Confirmed(issue: Issue, snapshot: Snapshot, replayed: bool)

  function NewSnapshot(id: Id, cmd: Command, a: Claims, d: Decision, issue: Issue, groups: (Group, Group), now: nat)
    : Snapshot
  {
    Snapshot(id, cmd.issue, cmd, a.principal, a.authorization, a.actor, d.sourceIdentity, d.correspondence,
             now, issue.revision, issue.revision + 1, cmd.note, groups.0, groups.1)
  }

  function AddConfirmation(db: Db, s: Snapshot): Db
    requires s.issue in db.issues
  {
    var c := Confirmation(s.id, s.issue, s.request.key, s.request, s.principal, s.correspondence,
                          s.request.revisedRun, s, s.createdAt);
    Change(db.(confirmations := db.confirmations + [c]), s.issue, RemediationConfirmed, Resolved, s.id)
  }

  /** Asking the same again: the stored snapshot, or the reason why not; never a write. */
  function ReplayConfirm(db: Db, cmd: Command, a: Claims, stored: Confirmation, end: nat): Result<Confirmed>
    requires cmd.issue in db.issues
  {
    if stored.principal != a.principal then Err(Unauthorized)
    else if stored.request != cmd then Err(Conflict)
    else if a.expires <= end then Err(Unauthorized)
    else Ok(Confirmed(db.issues[cmd.issue], stored.snapshot, true))
  }

  /** `start` is the clock when the authority is asked, `end` when the transaction commits. */
  function Confirm(db: Db, cmd: Command, authority: Option<Claims>, id: Id, start: nat, end: nat)
    : (Db, Result<Confirmed>)
  {
    if !ValidCommand(cmd) then (db, Err(Invalid))
    else if authority.None? then (db, Err(Unauthorized))
    else
      var found := FindSubject(db, cmd);
      if found.Err? then (db, Err(found.error)) else
        var a, issue := authority.value, found.value.issue;
        var decision := Decide(a, found.value.context, start);
        if decision.None? then (db, Err(Unauthorized)) else
          var stored := FindConfirmation(db.confirmations, cmd.issue, cmd.key);
          if stored.Some? then (db, ReplayConfirm(db, cmd, a, stored.value, end))
          else if issue.revision != cmd.expectedRevision then (db, Err(Conflict))
          else if Resolved !in AllowedFrom(issue.status) then (db, Err(Conflict))
          else
            var groups := FindGroups(db, cmd, found.value);
            if groups.Err? then (db, Err(groups.error))
            else if Reuses(db, cmd, decision.value) then (db, Err(Conflict))
            else if exists c :: c in db.confirmations && c.id == id then (db, Err(Constraint))
            else if a.expires <= end then (db, Err(Unauthorized))
            else
              var snapshot := NewSnapshot(id, cmd, a, decision.value, issue, groups.value, end);
              var next := AddConfirmation(db, snapshot);
              (next, Ok(Confirmed(next.issues[cmd.issue], snapshot, false)))
  }

  // --------------------------------------------------------------------------- reopen

  /** An unexpired reopen grant with a case about this issue and its original source. */
  predicate MayReopen(a: Claims, issue: Issue, rule: string, b: SourceBinding, now: nat) {
    && a.expires > now && a.operation == ReopenOp
    && exists c :: c in a.cases && c.issue == issue.id && Some(c.guid) == issue.guid
         && c.tenant == b.tenant && c.project == b.project && c.original == b.source
         && c.original.version == issue.version && c.rule == rule
  }

  function Reopen(db: Db, id: Id, expected: int, note: string, a: Claims, start: nat, end: nat): (Db, Result<Issue>) {
    if !Canonical(id) || expected < 0 || |note| > 4000 then (db, Err(Invalid))
    else if id !in db.issues then (db, Err(Invalid))
    else
      var issue := db.issues[id];
      if issue.kind != Formal || issue.sourceType != RULE_RESULT || issue.sourceRef.None? then (db, Err(Invalid)) else
        var anchor := FindRow(db.rows, issue.sourceRef.value);
        if anchor.None? || anchor.value.guid != issue.guid || anchor.value.run !in db.runs then (db, Err(Invalid)) else
          var binding := RunSourceBinding(db.runs[anchor.value.run]);
          if binding.Err? then (db, Err(Invalid))
          else if !MayReopen(a, issue, anchor.value.rule, binding.value, start) then (db, Err(Unauthorized))
          else if issue.revision != expected || issue.status !in {Resolved, Rejected} then (db, Err(Conflict))
          else if !MayReopen(a, issue, anchor.value.rule, binding.value, end) then (db, Err(Unauthorized))
          else
            var next := Change(db, id, RemediationReopened, Reopened, note);
            (next, Ok(next.issues[id]))
  }
}
