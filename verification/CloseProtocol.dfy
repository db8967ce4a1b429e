/**
 The resumable session-close protocol of the review coordinator.

 A close call writes to two durable stores, the session record and the session's append-only event
 log, and can die between any two writes. `Disk` is what survives. `Plan` lists, in order, the
 writes one call performs on a given disk; a crash keeps a prefix of them.
 */
module CloseProtocol {
  import opened Options
  import opened Text

  /** A JSON value by its canonical text; deep equality of values is equality of texts. */
  type Json = string

  datatype Status = Created | Active | Closing | Closed | Failed

  datatype Checkpoint = Checkpoint(id: nat, expected: nat)

  /** The audit fields of a close event: `{}`, `{reason}` or `{reason, actor}`. */
  datatype Audit = NoAudit | Audit(reason: string, actor: Option<string>)

  datatype Body =
    | SessionClosing(announced: nat, audit: Audit)
    | FinalReview(payload: Json)
    | SessionClosed(audit: Audit)
    | KitReleased(kits: seq<string>)
    | Unrelated(kind: string, payload: Json)

  /** An event; only the server-owned close path stamps one with a checkpoint id. */
  datatype Event = Event(body: Body, owner: Option<nat>)

  datatype KitState = Ready | Draining | Released

  datatype Kit = Kit(id: string, state: KitState)

  datatype Disk = Disk(status: Status, checkpoint: Option<Checkpoint>, kits: seq<Kit>, log: seq<Event>)

  /** One durable write. */
  datatype Write =
    | SetCheckpoint(checkpoint: Checkpoint)
    | Append(body: Body, owner: nat)
    | MarkClosing
    | MarkClosed

  datatype Request = Request(
    finals: seq<Json>, reason: Option<string>, actor: Option<string>, resumeClosing: bool, resumeClosed: bool)

  function KitIds(kits: seq<Kit>): seq<string> {
    seq(|kits|, i requires 0 <= i < |kits| => kits[i].id)
  }

  function Drain(kits: seq<Kit>): seq<Kit> {
    seq(|kits|, i requires 0 <= i < |kits| =>
      if kits[i].state == Released then kits[i] else kits[i].(state := Draining))
  }

  function Release(kits: seq<Kit>): seq<Kit> {
    seq(|kits|, i requires 0 <= i < |kits| => kits[i].(state := Released))
  }

  function Apply(d: Disk, w: Write): Disk {
    match w
    case SetCheckpoint(c) => d.(checkpoint := Some(c))
    case Append(b, id) => d.(log := d.log + [Event(b, Some(id))])
    case MarkClosing => d.(status := Closing, kits := Drain(d.kits))
    case MarkClosed => d.(status := Closed, kits := Release(d.kits))
  }

  function Replay(d: Disk, ws: seq<Write>): Disk {
    if ws == [] then d else Apply(Replay(d, ws[..|ws| - 1]), ws[|ws| - 1])
  }

  function Min(a: int, b: int): int { if a < b then a else b }

  /** What is left of some writes when the process dies after `cut` of them. */
  function Cut(ws: seq<Write>, cut: nat): seq<Write> { ws[..Min(cut, |ws|)] }

  /** The events of one checkpoint, in log order. */
  function Project(log: seq<Event>, id: nat): seq<Body> {
    if log == [] then [] else
      var rest := Project(log[..|log| - 1], id);
      var last := log[|log| - 1];
      if last.owner == Some(id) then rest + [last.body] else rest
  }

  /** The payloads of the final review events among `p`, in order. */
  function FinalsOf(p: seq<Body>): seq<Json> {
    if p == [] then [] else
      var rest := FinalsOf(p[..|p| - 1]);
      var last := p[|p| - 1];
      if last.FinalReview? then rest + [last.payload] else rest
  }

  /** The audit of the first sessionClosing event among `p`. */
  function ClosingAudit(p: seq<Body>): Option<Audit> {
    if p == [] then None
    else if p[0].SessionClosing? then Some(p[0].audit)
    else ClosingAudit(p[1..])
  }

  /** `trim().slice(0, 500) || undefined`. */
  function Clean(text: Option<string>): Option<string> {
    if text.None? then None else
      var t := Trim(text.value);
      var cut := if |t| <= 500 then t else t[..500];
      if cut == "" then None else Some(cut)
  }

  /** The audit fields a request asks for: the actor is kept only beside a reason. */
  function RequestedAudit(req: Request): Audit {
    var reason := Clean(req.reason);
    if reason.Some? then Audit(reason.value, Clean(req.actor)) else NoAudit
  }

  /** The audit fields read back from a persisted sessionClosing payload. */
  function Carried(a: Audit): Audit {
    if a.Audit? && a.reason != "" then
      Audit(a.reason, if a.actor.Some? && a.actor.value != "" then a.actor else None)
    else NoAudit
  }

  predicate IsCurrent(d: Disk, id: nat) { d.checkpoint.Some? && d.checkpoint.value.id == id }

  predicate Refuses(d: Disk, req: Request) {
    || (d.status == Closed && (!req.resumeClosed || d.checkpoint.None?))
    || (d.status == Closing && !req.resumeClosing)
  }

  predicate PayloadMatches(kept: seq<Json>, expected: nat, finals: seq<Json>) {
    && (kept != [] || expected == 0)
    && |kept| <= expected == |finals|
    && kept <= finals
  }

  /** The checkpoint a call works under: the persisted one when it may be resumed, else a fresh one. */
  function Chosen(d: Disk, req: Request, newId: nat): Checkpoint {
    if d.checkpoint.None? then Checkpoint(newId, |req.finals|)
    else if d.status == Closing || d.status == Closed then d.checkpoint.value
    else
      var c := d.checkpoint.value;
      var kept := FinalsOf(Project(d.log, c.id));
      if |kept| < c.expected && !PayloadMatches(kept, c.expected, req.finals)
      then Checkpoint(newId, |req.finals|) else c
  }

  function Appends(finals: seq<Json>, id: nat): seq<Write> {
    seq(|finals|, i requires 0 <= i < |finals| => Append(FinalReview(finals[i]), id))
  }

  predicate HasClosed(p: seq<Body>) { exists b :: b in p && b.SessionClosed? }

  predicate HasReleased(p: seq<Body>) { exists b :: b in p && b.KitReleased? }

  /** The closing half: sessionClosed and kitInstanceReleased, each unless already present. */
  function Tail(p: seq<Body>, audit: Audit, kits: seq<string>, id: nat): seq<Write> {
    (if HasClosed(p) then [] else [Append(SessionClosed(audit), id)])
    + (if HasReleased(p) then [] else [Append(KitReleased(kits), id)])
  }

  /** The first write of a call, if it needs one: its checkpoint. */
  function CheckpointWrites(d: Disk, c: Checkpoint): seq<Write> {
    if IsCurrent(d, c.id) then [] else [SetCheckpoint(c)]
  }

  function ClosingWrites(d: Disk, req: Request, c: Checkpoint): seq<Write> {
    if d.status != Closed && ClosingAudit(Project(d.log, c.id)).None?
    then [Append(SessionClosing(|req.finals|, RequestedAudit(req)), c.id)] else []
  }

  function Prepare(d: Disk, req: Request, c: Checkpoint): seq<Write> {
    CheckpointWrites(d, c) + ClosingWrites(d, req, c)
  }

  /** The audit sessionClosed carries: the persisted sessionClosing one, else the requested one. */
  function AuditOf(d: Disk, req: Request, c: Checkpoint): Audit {
    var persisted := ClosingAudit(Project(d.log, c.id));
    if persisted.Some? then Carried(persisted.value) else RequestedAudit(req)
  }

  /** The call gives up: final events are missing and it has no payload to supply them. */
  predicate GivesUp(d: Disk, req: Request, c: Checkpoint) {
    d.status != Closed && |FinalsOf(Project(d.log, c.id))| < c.expected && |req.finals| < c.expected
  }

  function MissingFinals(d: Disk, req: Request, c: Checkpoint): seq<Write>
    requires !GivesUp(d, req, c)
  {
    var have := |FinalsOf(Project(d.log, c.id))|;
    if d.status != Closed && have < c.expected then Appends(req.finals[have..c.expected], c.id) else []
  }

  function Marks(d: Disk): seq<Write> {
    if d.status == Closed then [] else if d.status == Closing then [MarkClosed] else [MarkClosing, MarkClosed]
  }

  function Finish(d: Disk, req: Request, c: Checkpoint): seq<Write>
    requires !GivesUp(d, req, c)
  {
    MissingFinals(d, req, c) + Marks(d)
    + Tail(Project(d.log, c.id), AuditOf(d, req, c), KitIds(d.kits), c.id)
  }

  /** The durable writes of one uninterrupted close call, in order. */
  function Plan(d: Disk, req: Request, newId: nat): seq<Write> {
    if Refuses(d, req) then [] else
      var c := Chosen(d, req, newId);
      Prepare(d, req, c) + (if GivesUp(d, req, c) then [] else Finish(d, req, c))
  }

  // ---------------------------------------------------------------------------------------------
  // The protocol: what may be written when, over a disk together with its history.

  /** A disk and its history: the checkpoints ever issued and the payloads of all calls so far. */
  datatype World = World(disk: Disk, issued: map<nat, nat>, calls: set<seq<Json>>)

  /** The complete event record of one checkpoint. */
  datatype Script = Script(announced: nat, audit: Audit, payload: seq<Json>, kits: seq<string>)

  function Finals(payload: seq<Json>): seq<Body> {
    seq(|payload|, i requires 0 <= i < |payload| => FinalReview(payload[i]))
  }

  function Lines(s: Script): (r: seq<Body>)
    ensures |r| == |s.payload| + 3
  {
    [SessionClosing(s.announced, s.audit)] + Finals(s.payload) + [SessionClosed(s.audit), KitReleased(s.kits)]
  }

  predicate Normal(a: Audit) { Carried(a) == a }

  /** What the log says of checkpoint `id` is a prefix of one script, whose payload is one call's. */
  predicate Follows(w: World, id: nat, s: Script)
    requires id in w.issued
  {
    && s.payload in w.calls
    && |s.payload| == w.issued[id]
    && Normal(s.audit)
    && Project(w.disk.log, id) <= Lines(s)
  }

  ghost predicate Scripted(w: World, id: nat)
    requires id in w.issued
  {
    exists s :: Follows(w, id, s)
  }

  ghost predicate CheckpointIssued(w: World) {
    w.disk.checkpoint.Some? ==>
      w.disk.checkpoint.value.id in w.issued && w.issued[w.disk.checkpoint.value.id] == w.disk.checkpoint.value.expected
  }

  /** A closing or closed session holds its sessionClosing and every final event. */
  ghost predicate ClosingIsBacked(w: World) {
    w.disk.status == Closing || w.disk.status == Closed ==>
      && w.disk.checkpoint.Some?
      && |Project(w.disk.log, w.disk.checkpoint.value.id)| > w.disk.checkpoint.value.expected
  }

  /** sessionClosed and kitInstanceReleased belong to a closed session's own checkpoint. */
  ghost predicate TailMeansClosed(w: World) {
    forall id | id in w.issued && |Project(w.disk.log, id)| > w.issued[id] + 1 ::
      w.disk.status == Closed && IsCurrent(w.disk, id)
  }

  ghost predicate ReleaseNamesKits(w: World) {
    forall id | id in w.issued && |Project(w.disk.log, id)| == w.issued[id] + 3 ::
      Project(w.disk.log, id)[w.issued[id] + 2] == KitReleased(KitIds(w.disk.kits))
  }

  ghost predicate Inv(w: World) {
    && CheckpointIssued(w)
    && (forall id | id !in w.issued :: Project(w.disk.log, id) == [])
    && (forall id | id in w.issued :: Scripted(w, id))
    && ClosingIsBacked(w)
    && TailMeansClosed(w)
    && ReleaseNamesKits(w)
  }

  /** Performing one write of a call, remembering the checkpoints it issues. */
  function Perform(w: World, write: Write): World {
    w.(disk := Apply(w.disk, write),
       issued := if write.SetCheckpoint? then w.issued[write.checkpoint.id := write.checkpoint.expected] else w.issued)
  }

  function PerformAll(w: World, ws: seq<Write>): (r: World)
    ensures r.calls == w.calls
    ensures r.disk == Replay(w.disk, ws)
  {
    if ws == [] then w else Perform(PerformAll(w, ws[..|ws| - 1]), ws[|ws| - 1])
  }

  /** Some call's whole payload extends the recorded final events by `x`. */
  ghost predicate Extends(w: World, id: nat, x: Json)
    requires id in w.issued
  {
    exists s :: Follows(w, id, s) && ExtendedBy(w, id, s, x)
  }

  predicate ExtendedBy(w: World, id: nat, s: Script, x: Json)
    requires id in w.issued
  {
    var p := Project(w.disk.log, id);
    0 < |p| <= |s.payload| && s.payload[|p| - 1] == x
  }

  /** The abstract exactly-once protocol: when each write is allowed. */
  ghost predicate Allowed(w: World, write: Write) {
    var d := w.disk;
    match write
    case SetCheckpoint(c) =>
      && d.status != Closing && d.status != Closed && c.id !in w.issued
      && exists p :: p in w.calls && |p| == c.expected
    case Append(b, id) =>
      && IsCurrent(d, id) && id in w.issued
      && var p := Project(d.log, id);
      match b {
        case SessionClosing(_, a) => p == [] && Normal(a)
        case FinalReview(x) => Extends(w, id, x)
        case SessionClosed(a) =>
          d.status == Closed && |p| == w.issued[id] + 1 && p[0].SessionClosing? && p[0].audit == a
        case KitReleased(ks) => d.status == Closed && |p| == w.issued[id] + 2 && ks == KitIds(d.kits)
        case Unrelated(_, _) => false
      }
    case MarkClosing =>
      && d.status != Closing && d.status != Closed && d.checkpoint.Some?
      && |Project(d.log, d.checkpoint.value.id)| > d.checkpoint.value.expected
    case MarkClosed => d.status == Closing
  }

  lemma ProjectAppend(log: seq<Event>, e: Event, id: nat)
    ensures Project(log + [e], id) == Project(log, id) + (if e.owner == Some(id) then [e.body] else [])
  {
    assert (log + [e])[..|log|] == log;
  }

  lemma ProjectAfter(w: World, b: Body, id: nat)
    ensures Project(Perform(w, Append(b, id)).disk.log, id) == Project(w.disk.log, id) + [b]
    ensures forall other | other != id :: Project(Perform(w, Append(b, id)).disk.log, other) == Project(w.disk.log, other)
  {
    forall other { ProjectAppend(w.disk.log, Event(b, Some(id)), other); }
  }

  /** The script that the record of checkpoint `id` still follows after `b` is appended to it. */
  lemma ScriptAfter(w: World, b: Body, id: nat) returns (s: Script)
    requires Inv(w) && id in w.issued && Allowed(w, Append(b, id))
    ensures s.payload in w.calls && |s.payload| == w.issued[id] && Normal(s.audit)
    ensures Project(w.disk.log, id) + [b] <= Lines(s)
  {
    var p := Project(w.disk.log, id);
    if b.FinalReview? {
      s :| Follows(w, id, s) && ExtendedBy(w, id, s, b.payload);
      assert Lines(s)[|p|] == Finals(s.payload)[|p| - 1] == b;
    } else {
      assert Scripted(w, id);
      s :| Follows(w, id, s);
      match b {
        case SessionClosing(n, a) => s := s.(announced := n, audit := a);
        case SessionClosed(a) => assert Lines(s)[0] == p[0]; assert Lines(s)[|p|] == b;
        case KitReleased(ks) =>
          var t := s.(kits := ks);
          assert Lines(t)[..|p|] == Lines(s)[..|p|];
          assert Lines(t)[|p|] == b;
          s := t;
      }
    }
  }

  lemma AppendKeepsInv(w: World, b: Body, id: nat)
    requires Inv(w) && Allowed(w, Append(b, id))
    ensures Inv(Perform(w, Append(b, id)))
  {
    var later := Perform(w, Append(b, id));
    ProjectAfter(w, b, id);
    var s := ScriptAfter(w, b, id);
    assert Follows(later, id, s);
    forall other | other in later.issued ensures Scripted(later, other) {
      if other != id {
        assert Scripted(w, other);
        var t :| Follows(w, other, t);
        assert Follows(later, other, t);
      }
    }
    if b.FinalReview? {
      var t :| Follows(w, id, t) && ExtendedBy(w, id, t, b.payload);
    }
  }

  lemma MarkKeepsInv(w: World, write: Write)
    requires Inv(w) && Allowed(w, write) && !write.Append?
    ensures Inv(Perform(w, write))
  {
    var later := Perform(w, write);
    assert KitIds(Drain(w.disk.kits)) == KitIds(w.disk.kits) == KitIds(Release(w.disk.kits));
    forall id | id in later.issued ensures Scripted(later, id) {
      if write.SetCheckpoint? && id == write.checkpoint.id {
        var p :| p in w.calls && |p| == write.checkpoint.expected;
        assert Follows(later, id, Script(0, NoAudit, p, []));
      } else {
        assert Scripted(w, id);
        var t :| Follows(w, id, t);
        assert Follows(later, id, t);
      }
    }
  }

  /** Every write the protocol allows keeps the invariant. */
  lemma AllowedKeepsInv(w: World, write: Write)
    requires Inv(w) && Allowed(w, write)
    ensures Inv(Perform(w, write))
  {
    if write.Append? { AppendKeepsInv(w, write.body, write.owner); } else { MarkKeepsInv(w, write); }
  }

  /** A session nobody has tried to close yet. */
  predicate Initial(w: World) {
    && (w.disk.status == Created || w.disk.status == Active || w.disk.status == Failed)
    && w.disk.checkpoint == None && w.issued == map[] && w.calls == {}
    && forall e | e in w.disk.log :: e.owner == None
  }

  lemma {:induction false} UnownedProject(log: seq<Event>, id: nat)
    requires forall e | e in log :: e.owner == None
    ensures Project(log, id) == []
  {
    if log != [] { UnownedProject(log[..|log| - 1], id); }
  }

  lemma InitialInv(w: World)
    requires Initial(w)
    ensures Inv(w)
  {
    forall id ensures Project(w.disk.log, id) == [] { UnownedProject(w.disk.log, id); }
  }
}
