/**
 The tables of the governance database and the queries the ledger's transactions run on them.
 Times are natural numbers, JSON columns are the values they hold, and a request hash is the request
 itself: SHA-256 is taken to be injective.
 */
module LedgerTables {
  import opened Options
  import opened Text

  type Id = string

  datatype IssueStatus = Open | Assigned | InProgress | Resolved | Rejected | Reopened

  /** The status machine: which statuses may follow `s`. */
  function AllowedFrom(s: IssueStatus): set<IssueStatus> {
    match s
    case Open => {Assigned, InProgress, Resolved, Rejected}
    case Assigned => {InProgress, Resolved, Rejected, Open}
    case InProgress => {Resolved, Rejected, Assigned}
    case Resolved => {Reopened}
    case Rejected => {Reopened}
    case Reopened => {Assigned, InProgress, Resolved, Rejected}
  }

  datatype Kind = Formal | Annotation

  datatype Issue = Issue(
    id: Id, kind: Kind, status: IssueStatus, guid: Option<string>, version: Option<string>,
    sourceType: Option<string>, sourceRef: Option<string>, revision: nat)

  datatype EventType = IssueCreated | Transitioned | RemediationConfirmed | RemediationReopened

  /** A row of the audit log; only the created event has no `from`. */
  datatype Event = Event(issue: Id, what: EventType, from: Option<IssueStatus>, to: IssueStatus, note: string)

  datatype ResultStatus = Pass | Fail | Errored | Unknown

  /** A row of `rule_results`. */
  datatype Row = Row(id: Id, run: Id, guid: Option<string>, rule: string, status: ResultStatus)

  datatype RunStatus = Queued | Running | Succeeded | Failed

  datatype Summary = Summary(
    total: int, passed: int, failed: int, errored: int, digest: Option<string>, sourceSha: Option<string>)

  datatype Metadata = Metadata(tenant: Option<string>, project: Option<string>, version: Option<string>)

  /** A row of `rule_runs`. */
  datatype RuleRun = RuleRun(
    id: Id, version: Option<string>, metadata: Option<Metadata>, status: RunStatus, summary: Option<Summary>)

  /** One exact source: a model version, the run over it and the digest of its file. */
  datatype Source = Source(version: Option<string>, run: Id, sha: string)

  /** One correspondence an authority vouches for. */
  datatype Case = Case(
    issue: Id, tenant: string, project: string, guid: string, rule: string,
    original: Source, revised: Source, correspondence: string)

  datatype Command = Command(
    issue: Id, expectedRevision: int, revisedVersion: string, revisedRun: Id, revisedResult: Id,
    key: string, note: string)

  datatype ActorKind = ExternalAuthority | LocalValidation

  /** The complete results of one run for one component and rule. */
  datatype Group = Group(
    run: Id, version: Option<string>, guid: string, rule: string, digest: string, members: seq<Row>, anchor: Id)

  /** What a confirmation freezes. */
  datatype Snapshot = Snapshot(
    id: Id, issue: Id, request: Command, principal: string, authorization: string, actor: ActorKind,
    sourceIdentity: Case, correspondence: string, createdAt: nat, before: nat, after: nat, note: string,
    original: Group, revised: Group)

  /** A row of `issue_remediation_confirmations`. */
  datatype Confirmation = Confirmation(
    id: Id, issue: Id, key: string, request: Command, principal: string, correspondence: string,
    revisedRun: Id, snapshot: Snapshot, createdAt: nat)

  /** A row of `a4_issue_evidence`. */
  datatype Evidence = Evidence(
    issue: Id, session: string, principal: string, snapshotHash: string, proofDigest: string, requestHash: string)

  datatype Db = Db(
    issues: map<Id, Issue>, events: seq<Event>, confirmations: seq<Confirmation>,
    runs: map<Id, RuleRun>, rows: seq<Row>, a4: map<Id, Evidence>)

  const EMPTY := Db(map[], [], [], map[], [], map[])

  datatype Error = NotFound | Illegal | Invalid | Conflict | Unauthorized | Unbound | Constraint

  datatype Result<+T> = Ok(value: T) | Err(error: Error)

  predicate IsCanonical(s: Option<string>) { s.Some? && Canonical(s.value) }

  /** The row of `rule_results` with the given primary key. */
  function FindRow(rows: seq<Row>, id: Id): Option<Row> {
    if rows == [] then None
    else if rows[|rows| - 1].id == id then Some(rows[|rows| - 1])
    else FindRow(rows[..|rows| - 1], id)
  }

  function RowsOf(rows: seq<Row>, run: Id): seq<Row> {
    if rows == [] then [] else
      var rest := RowsOf(rows[..|rows| - 1], run);
      if rows[|rows| - 1].run == run then rest + [rows[|rows| - 1]] else rest
  }

  /** The rows about one component and rule. */
  function Covering(rows: seq<Row>, guid: string, rule: string): seq<Row> {
    if rows == [] then [] else
      var rest := Covering(rows[..|rows| - 1], guid, rule);
      var row := rows[|rows| - 1];
      if row.guid == Some(guid) && row.rule == rule then rest + [row] else rest
  }

  function CountOf(rows: seq<Row>, status: ResultStatus): nat {
    if rows == [] then 0 else
      CountOf(rows[..|rows| - 1], status) + if rows[|rows| - 1].status == status then 1 else 0
  }

  /** The confirmation stored for an issue under an idempotency key. */
  function FindConfirmation(cs: seq<Confirmation>, issue: Id, key: string): Option<Confirmation> {
    if cs == [] then None
    else if cs[|cs| - 1].issue == issue && cs[|cs| - 1].key == key then Some(cs[|cs| - 1])
    else FindConfirmation(cs[..|cs| - 1], issue, key)
  }

  /** The issue's status-changing events, oldest first: all of its events but the created one. */
  function Changes(events: seq<Event>, issue: Id): seq<Event> {
    if events == [] then [] else
      var rest := Changes(events[..|events| - 1], issue);
      var e := events[|events| - 1];
      if e.issue == issue && e.what != IssueCreated then rest + [e] else rest
  }

  lemma {:induction false} ChangesAppend(events: seq<Event>, e: Event, issue: Id)
    ensures Changes(events + [e], issue) ==
      Changes(events, issue) + (if e.issue == issue && e.what != IssueCreated then [e] else [])
  {
    assert (events + [e])[..|events|] == events;
  }

  lemma {:induction false} RowsOfAppend(rows: seq<Row>, more: seq<Row>, run: Id)
    ensures RowsOf(rows + more, run) == RowsOf(rows, run) + RowsOf(more, run)
  {
    if more == [] {
      assert rows + more == rows;
    } else {
      assert (rows + more)[..|rows + more| - 1] == rows + more[..|more| - 1];
      RowsOfAppend(rows, more[..|more| - 1], run);
    }
  }

  /** A row once stored is found under its id for ever, as long as added rows have new ids. */
  lemma {:induction false} FindRowAppend(rows: seq<Row>, more: seq<Row>, id: Id)
    requires forall r | r in more :: r.id != id
    ensures FindRow(rows + more, id) == FindRow(rows, id)
  {
    if more == [] {
      assert rows + more == rows;
    } else {
      assert (rows + more)[..|rows + more| - 1] == rows + more[..|more| - 1];
      assert more[|more| - 1] in more;
      FindRowAppend(rows, more[..|more| - 1], id);
    }
  }

  lemma {:induction false} FoundRowIsStored(rows: seq<Row>, id: Id)
    ensures FindRow(rows, id).Some? ==> FindRow(rows, id).value in rows && FindRow(rows, id).value.id == id
    ensures FindRow(rows, id).None? ==> forall r | r in rows :: r.id != id
  {
    if rows != [] { FoundRowIsStored(rows[..|rows| - 1], id); }
  }

  lemma {:induction false} RowsOfMember(rows: seq<Row>, run: Id, row: Row)
    ensures row in RowsOf(rows, run) <==> row in rows && row.run == run
  {
    if rows != [] { RowsOfMember(rows[..|rows| - 1], run, row); }
  }

  lemma {:induction false} CoveringMember(rows: seq<Row>, guid: string, rule: string, row: Row)
    ensures row in Covering(rows, guid, rule) <==> row in rows && row.guid == Some(guid) && row.rule == rule
  {
    if rows != [] { CoveringMember(rows[..|rows| - 1], guid, rule, row); }
  }

  lemma {:induction false} FindConfirmationAppend(cs: seq<Confirmation>, c: Confirmation, issue: Id, key: string)
    ensures FindConfirmation(cs + [c], issue, key) ==
      if c.issue == issue && c.key == key then Some(c) else FindConfirmation(cs, issue, key)
  {
    assert (cs + [c])[..|cs|] == cs;
  }

  lemma {:induction false} FoundConfirmationIsStored(cs: seq<Confirmation>, issue: Id, key: string)
    ensures var f := FindConfirmation(cs, issue, key);
      && (f.Some? ==> f.value in cs && f.value.issue == issue && f.value.key == key)
      && (f.None? ==> forall c | c in cs :: c.issue != issue || c.key != key)
  {
    if cs != [] { FoundConfirmationIsStored(cs[..|cs| - 1], issue, key); }
  }
}
