/** Startup recovery: what it completes, and which crashes it picks up. */
module CloseRecovery {
  import opened Options
  import opened Text
  import opened CloseProtocol
  import opened ClosePlans

  function RecoveryRequest(d: Disk): Request {
    var audit := if d.checkpoint.Some? then ClosingAudit(Project(d.log, d.checkpoint.value.id)) else None;
    if audit.Some? && audit.value.Audit?
    then Request([], Some(audit.value.reason), audit.value.actor, true, true)
    else Request([], None, None, true, true)
  }

  /** The startup loop's test: a payload it can recover, and something left to do. */
  predicate Recoverable(d: Disk) {
    && d.checkpoint.Some?
    && (d.status == Active || d.status == Closing || d.status == Closed)
    && var p := Project(d.log, d.checkpoint.value.id);
    && |FinalsOf(p)| >= d.checkpoint.value.expected
    && (d.status != Active || exists b :: b in p && b.SessionClosing?)
    && (d.status == Closing || !HasClosed(p) || !HasReleased(p))
  }

  /** What a recovery pass writes; it never issues a checkpoint, so the id offered is immaterial. */
  function RecoveryPlan(d: Disk): seq<Write> {
    if Recoverable(d) then Plan(d, RecoveryRequest(d), 0) else []
  }

  lemma RecoveryIssuesNothing(d: Disk, newId: nat)
    requires Recoverable(d)
    ensures Chosen(d, RecoveryRequest(d), newId) == d.checkpoint.value
    ensures RecoveryPlan(d) == Plan(d, RecoveryRequest(d), newId)
  {
  }

  lemma NewIdExists(w: World) returns (newId: nat)
    ensures newId !in w.issued
  {
    newId := BeyondAll(w.issued.Keys);
  }

  lemma {:induction false} BeyondAll(ids: set<nat>) returns (n: nat)
    ensures forall i | i in ids :: i < n
  {
    if ids == {} {
      n := 0;
    } else {
      var i :| i in ids;
      var m := BeyondAll(ids - {i});
      n := if m <= i then i + 1 else m;
      forall j | j in ids ensures j < n { if j != i { assert j in ids - {i}; } }
    }
  }

  /**
   One uninterrupted recovery pass closes every session the startup loop deems recoverable, with
   the complete record of the checkpoint it already had; a second pass, or any further close call,
   writes nothing.
   */
  lemma RecoveryCompletes(w: World)
    requires Inv(w) && Recoverable(w.disk)
    ensures var later := PerformAll(Begin(w, RecoveryRequest(w.disk)), RecoveryPlan(w.disk));
      && Complete(later, w.disk.checkpoint.value)
      && later.issued == w.issued
      && RecoveryPlan(later.disk) == []
      && forall req, newId :: Plan(later.disk, req, newId) == []
  {
    var newId := NewIdExists(w);
    RecoveryIssuesNothing(w.disk, newId);
    PlanIsLegal(w, RecoveryRequest(w.disk), newId);
    var later := PerformAll(Begin(w, RecoveryRequest(w.disk)), RecoveryPlan(w.disk));
    OnlyFirstSetsCheckpoint(w.disk, RecoveryRequest(w.disk), newId);
    NothingIssued(Begin(w, RecoveryRequest(w.disk)), RecoveryPlan(w.disk));
    CompleteIsFinal(later, w.disk.checkpoint.value);
  }

  lemma RestSetsNoCheckpoint(d: Disk, req: Request, c: Checkpoint)
    ensures forall x | x in ClosingWrites(d, req, c) :: !x.SetCheckpoint?
    ensures !GivesUp(d, req, c) ==> forall x | x in Finish(d, req, c) :: !x.SetCheckpoint?
  {
    hide Project, FinalsOf, ClosingAudit, AuditOf, KitIds, HasClosed, HasReleased, RequestedAudit;
  }

  /** A call sets the checkpoint with its first write or not at all. */
  lemma OnlyFirstSetsCheckpoint(d: Disk, req: Request, newId: nat)
    requires !Refuses(d, req)
    ensures var first := CheckpointWrites(d, Chosen(d, req, newId));
      && first <= Plan(d, req, newId)
      && forall i | |first| <= i < |Plan(d, req, newId)| :: !Plan(d, req, newId)[i].SetCheckpoint?
  {
    hide Chosen, GivesUp, CheckpointWrites, ClosingWrites, Finish;
    var c := Chosen(d, req, newId);
    var rest := ClosingWrites(d, req, c) + if GivesUp(d, req, c) then [] else Finish(d, req, c);
    assert Plan(d, req, newId) == CheckpointWrites(d, c) + rest;
    RestSetsNoCheckpoint(d, req, c);
  }

  lemma {:induction false} NothingIssued(w: World, ws: seq<Write>)
    requires forall i | 0 <= i < |ws| :: !ws[i].SetCheckpoint?
    ensures PerformAll(w, ws).issued == w.issued
  {
    if ws != [] {
      NothingIssued(w, ws[..|ws| - 1]);
    }
  }

  lemma CompleteIsFinal(w: World, c: Checkpoint)
    requires Complete(w, c)
    ensures RecoveryPlan(w.disk) == [] && forall req, newId :: Plan(w.disk, req, newId) == []
  {
    assert Scripted(w, c.id);
    var s :| Follows(w, c.id, s);
    FinalsOfScript(Project(w.disk.log, c.id), s);
    forall req, newId ensures Plan(w.disk, req, newId) == [] {
    }
  }

  /** Two complete records that agree up to the last final event are equal. */
  lemma CompletionIsUnique(w: World, v: World, c: Checkpoint, p: seq<Body>)
    requires Complete(w, c) && Complete(v, c) && w.issued[c.id] == v.issued[c.id] == c.expected
    requires |p| > c.expected && p <= Project(w.disk.log, c.id) && p <= Project(v.disk.log, c.id)
    requires KitIds(w.disk.kits) == KitIds(v.disk.kits)
    ensures Project(w.disk.log, c.id) == Project(v.disk.log, c.id)
  {
    var a, b := Project(w.disk.log, c.id), Project(v.disk.log, c.id);
    assert Scripted(w, c.id) && Scripted(v, c.id);
    var s :| Follows(w, c.id, s);
    var t :| Follows(v, c.id, t);
    assert a == Lines(s) && b == Lines(t);
    assert a[0] == p[0] == b[0];
    forall i | 0 <= i < |a| ensures a[i] == b[i] {
      if i < |p| { assert a[i] == p[i] == b[i]; }
    }
  }

  /** From a recoverable point, recovery and any other way to completion leave the same record. */
  lemma RecoveryMatches(w: World, rest: seq<Write>, c: Checkpoint)
    requires Inv(w) && Recoverable(w.disk) && w.disk.checkpoint == Some(c)
    requires Complete(PerformAll(w, rest), c)
    ensures var recovered, whole := Replay(w.disk, RecoveryPlan(w.disk)), PerformAll(w, rest).disk;
      && recovered.status == Closed && recovered.checkpoint == Some(c)
      && Project(recovered.log, c.id) == Project(whole.log, c.id)
  {
    var v, p := Begin(w, RecoveryRequest(w.disk)), Project(w.disk.log, c.id);
    RecoveryCompletes(w);
    RecoverableIsFull(w);
    hide Recoverable, RecoveryPlan, RecoveryRequest;
    RecordIsPrefix(w, rest, c.id);
    RecordIsPrefix(v, RecoveryPlan(w.disk), c.id);
    CompletionIsUnique(PerformAll(v, RecoveryPlan(w.disk)), PerformAll(w, rest), c, p);
  }

  /**
   A call cut after any of its writes, then recovered by the startup loop, leaves the record an
   uninterrupted call would have left.
   */
  lemma RecoverySameAsUninterrupted(w: World, req: Request, newId: nat, k: nat)
    requires Inv(w) && newId !in w.issued && !Refuses(w.disk, req)
    requires k <= |Plan(w.disk, req, newId)|
    requires Recoverable(Replay(w.disk, Plan(w.disk, req, newId)[..k]))
    ensures var plan, c := Plan(w.disk, req, newId), Chosen(w.disk, req, newId);
      var cut, whole := Replay(w.disk, plan[..k]), Replay(w.disk, plan);
      var recovered := Replay(cut, RecoveryPlan(cut));
      && recovered.status == whole.status == Closed
      && recovered.checkpoint == whole.checkpoint == Some(c)
      && Project(recovered.log, c.id) == Project(whole.log, c.id)
      && |Project(whole.log, c.id)| == c.expected + 3
  {
    hide Plan, Chosen, Refuses, Recoverable, RecoveryPlan, Legal, Inv, Project;
    var plan, c, w1 := Plan(w.disk, req, newId), Chosen(w.disk, req, newId), Begin(w, req);
    PlanIsLegal(w, req, newId);
    BeginKeepsInv(w, req);
    CutKeepsInv(w1, plan, k);
    CheckpointIsSettled(w, req, newId, k);
    assert plan == plan[..k] + plan[k..];
    PerformAllConcat(w1, plan[..k], plan[k..]);
    RecoveryMatches(PerformAll(w1, plan[..k]), plan[k..], c);
  }

  /** After its first write, and unless it needs none, the call's checkpoint is the session's. */
  lemma {:induction false} CheckpointIsSettled(w: World, req: Request, newId: nat, k: nat)
    requires Inv(w) && newId !in w.issued && !Refuses(w.disk, req) && k <= |Plan(w.disk, req, newId)|
    requires Recoverable(Replay(w.disk, Plan(w.disk, req, newId)[..k]))
    ensures Replay(w.disk, Plan(w.disk, req, newId)[..k]).checkpoint == Some(Chosen(w.disk, req, newId))
  {
    var d, c, plan := w.disk, Chosen(w.disk, req, newId), Plan(w.disk, req, newId);
    var first := CheckpointWrites(d, c);
    if k == 0 {
      RecoverableIsFull(w);
    } else {
      OnlyFirstSetsCheckpoint(d, req, newId);
      ChoiceIsLegal(w, req, newId);
      assert Replay(d, first).checkpoint == Some(c);
      SettledAfterFirst(d, first, plan, k);
    }
  }

  lemma SettledAfterFirst(d: Disk, first: seq<Write>, plan: seq<Write>, k: nat)
    requires first <= plan && |first| <= k <= |plan|
    requires forall i | |first| <= i < |plan| :: !plan[i].SetCheckpoint?
    ensures Replay(d, plan[..k]).checkpoint == Replay(d, first).checkpoint
  {
    var tail := plan[|first|..k];
    assert plan[..k] == first + tail;
    ReplayConcat(d, first, tail);
    KeepsCheckpoint(Replay(d, first), tail);
  }

  lemma {:induction false} KeepsCheckpoint(d: Disk, ws: seq<Write>)
    requires forall i | 0 <= i < |ws| :: !ws[i].SetCheckpoint?
    ensures Replay(d, ws).checkpoint == d.checkpoint
  {
    if ws != [] {
      KeepsCheckpoint(d, ws[..|ws| - 1]);
    }
  }

  lemma {:induction false} ReplayConcat(d: Disk, a: seq<Write>, b: seq<Write>)
    ensures Replay(d, a + b) == Replay(Replay(d, a), b)
  {
    if b == [] {
      assert a + b == a;
    } else {
      assert (a + b)[..|a + b| - 1] == a + b[..|b| - 1];
      ReplayConcat(d, a, b[..|b| - 1]);
    }
  }

  lemma RecoverableIsFull(w: World)
    requires Inv(w) && Recoverable(w.disk)
    ensures |Project(w.disk.log, w.disk.checkpoint.value.id)| > w.disk.checkpoint.value.expected
  {
    RecoverableExactly(w);
  }

  // ---------------------------------------------------------------------------------------------
  // Which disks the startup loop picks up.

  /**
   In every state the protocol allows, the startup loop picks up a session exactly when it has a
   checkpoint, is active, closing or closed, holds its sessionClosing and all final events, and is not
   closed with a complete record. A crash before that point is left to a caller with the payload.
   */
  lemma RecoverableExactly(w: World)
    requires Inv(w)
    ensures Recoverable(w.disk) <==>
      && w.disk.checkpoint.Some?
      && w.disk.status in {Active, Closing, Closed}
      && var c := w.disk.checkpoint.value;
      var lines := |Project(w.disk.log, c.id)|;
      lines > c.expected && !(w.disk.status == Closed && lines == c.expected + 3)
  {
    if w.disk.checkpoint.Some? {
      var c := w.disk.checkpoint.value;
      assert Scripted(w, c.id);
      var s :| Follows(w, c.id, s);
      var p := Project(w.disk.log, c.id);
      hide Project, Lines, FinalsOf;
      FinalsOfScript(p, s);
      if p != [] { assert p[0] in p && p[0].SessionClosing?; }
    }
  }

  lemma {:induction false} StatusesOfWrites(d: Disk, ws: seq<Write>)
    requires d.status in {Active, Closing, Closed}
    ensures Replay(d, ws).status in {Active, Closing, Closed}
  {
    if ws != [] { StatusesOfWrites(d, ws[..|ws| - 1]); }
  }

  /** The audit a recovery asks for is that of the first line of the record. */
  lemma RequestOfRecord(w: World)
    requires Inv(w) && Recoverable(w.disk)
    ensures var p := Project(w.disk.log, w.disk.checkpoint.value.id);
      p != [] && p[0].SessionClosing? && ClosingAudit(p) == Some(p[0].audit)
  {
    var c := w.disk.checkpoint.value;
    RecoverableIsFull(w);
    assert Scripted(w, c.id);
    var s :| Follows(w, c.id, s);
    FinalsOfScript(Project(w.disk.log, c.id), s);
  }

  /** `v` continues the record that recovery found on `w`, under the same checkpoint. */
  ghost predicate Resumes(w: World, v: World, c: Checkpoint) {
    && Inv(v) && v.disk.checkpoint == Some(c) && v.disk.status in {Active, Closing, Closed}
    && |Project(w.disk.log, c.id)| > c.expected
    && Project(w.disk.log, c.id) <= Project(v.disk.log, c.id)
    && KitIds(v.disk.kits) == KitIds(w.disk.kits)
  }

  lemma RecoverableResumes(w: World)
    requires Inv(w) && Recoverable(w.disk)
    ensures Resumes(w, w, w.disk.checkpoint.value)
  {
    RecoverableExactly(w);
  }

  lemma NothingReplayed(d: Disk)
    ensures Replay(d, []) == d
  {
  }

  /** Once all final events are on disk, every further call works under the checkpoint they belong to. */
  lemma ResumedCheckpoint(w: World, v: World, c: Checkpoint, req: Request, newId: nat, ws: seq<Write>)
    requires Resumes(w, v, c) && !Refuses(v.disk, req) && ws <= Plan(v.disk, req, newId)
    ensures Chosen(v.disk, req, newId) == c && Replay(v.disk, ws).checkpoint == Some(c)
  {
    assert Scripted(v, c.id);
    var s :| Follows(v, c.id, s);
    FinalsOfScript(Project(v.disk.log, c.id), s);
    OnlyFirstSetsCheckpoint(v.disk, req, newId);
    KeepsCheckpoint(v.disk, ws);
  }

  lemma SameRecord(w: World, a: World, b: World, c: Checkpoint)
    requires Complete(a, c) && Complete(b, c) && |Project(w.disk.log, c.id)| > c.expected
    requires Project(w.disk.log, c.id) <= Project(a.disk.log, c.id) && Project(w.disk.log, c.id) <= Project(b.disk.log, c.id)
    requires KitIds(a.disk.kits) == KitIds(b.disk.kits)
    ensures Project(a.disk.log, c.id) == Project(b.disk.log, c.id)
  {
    CompletionIsUnique(a, b, c, Project(w.disk.log, c.id));
  }

  lemma {:induction false} ClosingIsNotLeft(d: Disk, ws: seq<Write>)
    requires d.status in {Closing, Closed} || (ws != [] && ws[0] == MarkClosing)
    ensures Replay(d, ws).status in {Closing, Closed}
  {
    if |ws| > 1 || (ws != [] && d.status in {Closing, Closed}) {
      ClosingIsNotLeft(d, ws[..|ws| - 1]);
    }
  }

  /** Recovering an active session starts with marking it closing. */
  lemma ActiveRecoveryMarks(w: World)
    requires Inv(w) && Recoverable(w.disk) && w.disk.status == Active
    ensures RecoveryPlan(w.disk) != [] && RecoveryPlan(w.disk)[0] == MarkClosing
  {
    RequestOfRecord(w);
  }

  /**
   A recovery that fails leaves a session that may be queued for a retry, closing or closed, unless the
   session was active and the very first write failed: such a one waits for the next start.
   */
  lemma FailedRecoveryStatus(w: World, k: nat)
    requires Inv(w) && Recoverable(w.disk) && k <= |RecoveryPlan(w.disk)|
    ensures Replay(w.disk, RecoveryPlan(w.disk)[..k]).status in {Closing, Closed} <==> !(w.disk.status == Active && k == 0)
  {
    hide Inv;
    if w.disk.status == Active { ActiveRecoveryMarks(w); }
    hide RecoveryPlan, Recoverable;
    if k == 0 {
      NothingReplayed(w.disk);
    } else {
      ClosingIsNotLeft(w.disk, RecoveryPlan(w.disk)[..k]);
    }
  }

  // ---------------------------------------------------------------------------------------------
  // Which crashes of a first close call the startup loop picks up.

  /** The record a first close call of a session leaves when it is not cut. */
  function FirstScript(d: Disk, req: Request): Script {
    Script(|req.finals|, RequestedAudit(req), req.finals, KitIds(d.kits))
  }

  /** The i-th write of that call. */
  function FirstWrite(d: Disk, req: Request, newId: nat, i: nat): Write
    requires i < |req.finals| + 6
  {
    var n, lines := |req.finals|, Lines(FirstScript(d, req));
    if i == 0 then SetCheckpoint(Checkpoint(newId, n))
    else if i <= n + 1 then Append(lines[i - 1], newId)
    else if i == n + 2 then MarkClosing
    else if i == n + 3 then MarkClosed
    else Append(lines[i - 3], newId)
  }

  /** How many lines of the record are on disk after k writes. */
  function LinesAfter(n: nat, k: nat): nat
    requires k <= n + 6
  {
    if k == 0 then 0 else if k <= n + 2 then k - 1 else if k <= n + 4 then n + 1 else k - 3
  }

  lemma FirstPlan(d: Disk, req: Request, newId: nat)
    requires d.status == Active && d.checkpoint == None && Project(d.log, newId) == []
    ensures |Plan(d, req, newId)| == |req.finals| + 6
    ensures forall i | 0 <= i < |req.finals| + 6 :: Plan(d, req, newId)[i] == FirstWrite(d, req, newId, i)
  {
    var n, s := |req.finals|, FirstScript(d, req);
    assert req.finals[0..n] == req.finals;
    var plan := Plan(d, req, newId);
    forall i | 0 <= i < n + 6 ensures plan[i] == FirstWrite(d, req, newId, i) {
      if 1 <= i <= n + 1 { LineAt(s, i - 1); }
    }
  }

  /** What is on disk after k writes of that call. */
  predicate Reached(d: Disk, req: Request, newId: nat, k: nat, r: Disk)
    requires k <= |req.finals| + 6
  {
    var n := |req.finals|;
    && r.checkpoint == (if k == 0 then None else Some(Checkpoint(newId, n)))
    && r.status == (if k <= n + 2 then Active else if k == n + 3 then Closing else Closed)
    && Project(r.log, newId) == Lines(FirstScript(d, req))[..LinesAfter(n, k)]
  }

  lemma ReachedNext(d: Disk, req: Request, newId: nat, k: nat, r: Disk)
    requires k < |req.finals| + 6 && Reached(d, req, newId, k, r)
    ensures Reached(d, req, newId, k + 1, Apply(r, FirstWrite(d, req, newId, k)))
  {
    hide Lines, Project;
    var w, lines, m := FirstWrite(d, req, newId, k), Lines(FirstScript(d, req)), LinesAfter(|req.finals|, k);
    if w.Append? {
      ProjectAppend(r.log, Event(w.body, Some(newId)), newId);
      assert lines[..m] + [lines[m]] == lines[..m + 1];
    }
  }

  lemma {:induction false} AfterFirst(d: Disk, req: Request, newId: nat, k: nat)
    requires d.status == Active && d.checkpoint == None && Project(d.log, newId) == [] && k <= |req.finals| + 6
    ensures k <= |Plan(d, req, newId)| && Reached(d, req, newId, k, Replay(d, Plan(d, req, newId)[..k]))
  {
    hide Plan, FirstWrite;
    FirstPlan(d, req, newId);
    if k > 0 {
      AfterFirst(d, req, newId, k - 1);
      var plan := Plan(d, req, newId);
      ReachedNext(d, req, newId, k - 1, Replay(d, plan[..k - 1]));
      ReplayOneMore(d, plan, k - 1);
    }
  }

  lemma ReplayOneMore(d: Disk, ws: seq<Write>, k: nat)
    requires k < |ws|
    ensures Replay(d, ws[..k + 1]) == Apply(Replay(d, ws[..k]), ws[k])
  {
    assert ws[..k + 1][..k] == ws[..k];
  }

  /**
   Exactly which crashes recovery repairs on its own: a first close call of an active session, cut after
   k of its writes, is picked up by the startup loop if and only if all final events are on disk and
   something is left to do. Before that only a caller with the payload can go on.
   */
  lemma RecoverableCuts(w: World, req: Request, newId: nat, k: nat)
    requires Initial(w) && w.disk.status == Active && k <= |Plan(w.disk, req, newId)|
    ensures Recoverable(Replay(w.disk, Plan(w.disk, req, newId)[..k])) <==> |req.finals| + 2 <= k < |req.finals| + 6
  {
    UnownedProject(w.disk.log, newId);
    FirstPlan(w.disk, req, newId);
    AfterFirst(w.disk, req, newId, k);
    var n, s, r := |req.finals|, FirstScript(w.disk, req), Replay(w.disk, Plan(w.disk, req, newId)[..k]);
    hide Plan, Replay, Project, Lines, FinalsOf;
    var p := Project(r.log, newId);
    FinalsOfScript(p, s);
    if p != [] { assert p[0] in p && p[0].SessionClosing?; }
  }
}
