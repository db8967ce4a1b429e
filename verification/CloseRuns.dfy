/** Runs of close calls and recovery passes, each cut anywhere, among unrelated steps. */
module CloseRuns {
  import opened Options
  import opened Text
  import opened CloseProtocol
  import opened ClosePlans
  import opened CloseRecovery

  datatype Step =
    | CloseCall(req: Request, newId: nat, cut: nat)
    | RecoveryPass(cut: nat)
    | ForeignEvent(body: Body)
    | Activate(kits: seq<Kit>)

  predicate Possible(w: World, step: Step) {
    match step
    case CloseCall(_, newId, _) => newId !in w.issued
    case Activate(_) => w.disk.status == Created
    case _ => true
  }

  function Take(w: World, step: Step): World {
    match step
    case CloseCall(req, newId, cut) => PerformAll(Begin(w, req), Cut(Plan(w.disk, req, newId), cut))
    case RecoveryPass(cut) =>
      if Recoverable(w.disk)
      then PerformAll(Begin(w, RecoveryRequest(w.disk)), Cut(RecoveryPlan(w.disk), cut)) else w
    case ForeignEvent(b) => w.(disk := w.disk.(log := w.disk.log + [Event(b, None)]))
    case Activate(kits) => w.(disk := w.disk.(status := Active, kits := kits))
  }

  function Run(w: World, steps: seq<Step>): World {
    if steps == [] then w else Take(Run(w, steps[..|steps| - 1]), steps[|steps| - 1])
  }

  predicate Feasible(w: World, steps: seq<Step>) {
    steps != [] ==>
      Feasible(w, steps[..|steps| - 1]) && Possible(Run(w, steps[..|steps| - 1]), steps[|steps| - 1])
  }

  lemma CloseCallKeepsInv(w: World, req: Request, newId: nat, cut: nat)
    requires Inv(w) && newId !in w.issued
    ensures Inv(PerformAll(Begin(w, req), Cut(Plan(w.disk, req, newId), cut)))
  {
    BeginKeepsInv(w, req);
    if !Refuses(w.disk, req) { PlanIsLegal(w, req, newId); }
    CutKeepsInv(Begin(w, req), Plan(w.disk, req, newId), Min(cut, |Plan(w.disk, req, newId)|));
  }

  lemma OtherStepKeepsInv(w: World, step: Step)
    requires Inv(w) && Possible(w, step) && (step.ForeignEvent? || step.Activate?)
    ensures Inv(Take(w, step))
  {
    var later := Take(w, step);
    forall id ensures Project(later.disk.log, id) == Project(w.disk.log, id) {
      if step.ForeignEvent? { ProjectAppend(w.disk.log, Event(step.body, None), id); }
    }
    forall id | id in later.issued ensures Scripted(later, id) {
      assert Scripted(w, id);
      var s :| Follows(w, id, s);
      assert Follows(later, id, s);
    }
  }

  lemma StepKeepsInv(w: World, step: Step)
    requires Inv(w) && Possible(w, step)
    ensures Inv(Take(w, step))
  {
    match step
    case CloseCall(req, newId, cut) => CloseCallKeepsInv(w, req, newId, cut);
    case RecoveryPass(cut) =>
      if Recoverable(w.disk) {
        var newId := NewIdExists(w);
        RecoveryIssuesNothing(w.disk, newId);
        CloseCallKeepsInv(w, RecoveryRequest(w.disk), newId, cut);
      }
    case _ => OtherStepKeepsInv(w, step);
  }

  /** Main result: the invariant holds after every run of calls, crashes and recoveries. */
  lemma {:induction false} RunKeepsInv(w: World, steps: seq<Step>)
    requires Initial(w) && Feasible(w, steps)
    ensures Inv(Run(w, steps))
  {
    if steps == [] {
      InitialInv(w);
    } else {
      RunKeepsInv(w, steps[..|steps| - 1]);
      StepKeepsInv(Run(w, steps[..|steps| - 1]), steps[|steps| - 1]);
    }
  }

  /**
   Exactly once, in order, in every reachable state: the record of each checkpoint ever issued has
   at most one sessionClosing, then at most the expected final events, then at most one
   sessionClosed with the audit of the sessionClosing, then at most one kitInstanceReleased naming
   the session's kits. Final events, once all there, are the whole payload of a single call.
   */
  lemma ExactlyOnce(w: World, steps: seq<Step>, id: nat)
    requires Initial(w) && Feasible(w, steps) && id in Run(w, steps).issued
    ensures var later := Run(w, steps);
      var p, n := Project(later.disk.log, id), later.issued[id];
      && |p| <= n + 3
      && (forall i | 0 <= i < |p| ::
            && (p[i].SessionClosing? <==> i == 0) && (p[i].FinalReview? <==> 1 <= i <= n)
            && (p[i].SessionClosed? <==> i == n + 1) && (p[i].KitReleased? <==> i == n + 2))
      && (|p| > n ==> FinalsOf(p) in later.calls && |FinalsOf(p)| == n)
      && (|p| > n + 1 ==> p[n + 1] == SessionClosed(p[0].audit))
      && (|p| > n + 2 ==> p[n + 2] == KitReleased(KitIds(later.disk.kits)))
  {
    RunKeepsInv(w, steps);
    var later := Run(w, steps);
    assert Scripted(later, id);
    var s :| Follows(later, id, s);
    var p, n := Project(later.disk.log, id), later.issued[id];
    ScriptShape(p, s);
  }

  lemma ScriptShape(p: seq<Body>, s: Script)
    requires p <= Lines(s)
    ensures var n := |s.payload|;
      && (forall i | 0 <= i < |p| ::
            && (p[i].SessionClosing? <==> i == 0) && (p[i].FinalReview? <==> 1 <= i <= n)
            && (p[i].SessionClosed? <==> i == n + 1) && (p[i].KitReleased? <==> i == n + 2))
      && (|p| > n ==> FinalsOf(p) == s.payload)
      && (|p| > 0 ==> p[0].audit == s.audit)
      && (|p| > n + 1 ==> p[n + 1] == SessionClosed(s.audit))
      && (|p| > n + 2 ==> p[n + 2] == KitReleased(s.kits))
  {
    FinalsOfScript(p, s);
    forall i | 0 <= i < |p| ensures p[i] == Lines(s)[i] && (1 <= i <= |s.payload| ==> p[i] == Finals(s.payload)[i - 1]) {
    }
  }

  /** A closing or closed session already holds its sessionClosing and all its final events. */
  lemma ClosingHoldsEverything(w: World, steps: seq<Step>)
    requires Initial(w) && Feasible(w, steps)
    requires Run(w, steps).disk.status == Closing || Run(w, steps).disk.status == Closed
    ensures var d := Run(w, steps).disk;
      && d.checkpoint.Some?
      && var p := Project(d.log, d.checkpoint.value.id);
      && p != [] && p[0].SessionClosing? && |FinalsOf(p)| == d.checkpoint.value.expected
      && FinalsOf(p) in Run(w, steps).calls
  {
    RunKeepsInv(w, steps);
    ExactlyOnce(w, steps, Run(w, steps).disk.checkpoint.value.id);
  }

  /**
   Which crashes the startup loop repairs by itself, after any run of calls, recoveries and other steps cut
   anywhere: it picks a session up exactly when it has a checkpoint, is active, closing or closed, has its
   sessionClosing and all final events on disk, and is not closed with a complete record.
   */
  lemma RecoverableAfterRun(w: World, steps: seq<Step>)
    requires Initial(w) && Feasible(w, steps)
    ensures var d := Run(w, steps).disk;
      Recoverable(d) <==>
      && d.checkpoint.Some?
      && d.status in {Active, Closing, Closed}
      && var c := d.checkpoint.value;
      var lines := |Project(d.log, c.id)|;
      lines > c.expected && !(d.status == Closed && lines == c.expected + 3)
  {
    RunKeepsInv(w, steps);
    RecoverableExactly(Run(w, steps));
  }

  lemma CallResumes(w: World, v: World, c: Checkpoint, req: Request, newId: nat, cut: nat)
    requires Resumes(w, v, c) && newId !in v.issued
    ensures Resumes(w, PerformAll(Begin(v, req), Cut(Plan(v.disk, req, newId), cut)), c)
  {
    hide Plan, Recoverable, RecoveryPlan, Inv, Project, Replay;
    var ws := Cut(Plan(v.disk, req, newId), cut);
    CloseCallKeepsInv(v, req, newId, cut);
    RecordIsPrefix(Begin(v, req), ws, c.id);
    StatusesOfWrites(v.disk, ws);
    if Refuses(v.disk, req) {
      RefusedPlan(v.disk, req, newId);
      NothingReplayed(v.disk);
    } else {
      ResumedCheckpoint(w, v, c, req, newId, ws);
    }
  }

  lemma RefusedPlan(d: Disk, req: Request, newId: nat)
    requires Refuses(d, req)
    ensures Plan(d, req, newId) == []
  {
  }

  lemma StepResumes(w: World, v: World, c: Checkpoint, step: Step)
    requires Resumes(w, v, c) && Possible(v, step)
    ensures Resumes(w, Take(v, step), c)
  {
    match step
    case CloseCall(req, newId, cut) => CallResumes(w, v, c, req, newId, cut);
    case RecoveryPass(cut) =>
      if Recoverable(v.disk) {
        var newId := NewIdExists(v);
        RecoveryIssuesNothing(v.disk, newId);
        CallResumes(w, v, c, RecoveryRequest(v.disk), newId, cut);
      }
    case ForeignEvent(b) =>
      OtherStepKeepsInv(v, step);
      ProjectAppend(v.disk.log, Event(b, None), c.id);
    case Activate(_) =>
  }

  lemma {:induction false} RunResumes(w: World, steps: seq<Step>)
    requires Inv(w) && Recoverable(w.disk) && Feasible(w, steps)
    ensures Resumes(w, Run(w, steps), w.disk.checkpoint.value)
  {
    if steps == [] {
      RecoverableResumes(w);
    } else {
      RunResumes(w, steps[..|steps| - 1]);
      hide Resumes, Recoverable, Inv;
      StepResumes(w, Run(w, steps[..|steps| - 1]), w.disk.checkpoint.value, steps[|steps| - 1]);
    }
  }

  /**
   Once a session is recoverable its record is settled: whatever happens next, recoveries that throw and are
   retried any number of times, other close calls, crashes and unrelated events, the first call that is not cut
   leaves the session closed with the very record one unbroken recovery would have left.
   */
  lemma RecordIsSettled(w: World, steps: seq<Step>, req: Request, newId: nat)
    requires Inv(w) && Recoverable(w.disk) && Feasible(w, steps)
    requires newId !in Run(w, steps).issued && !Refuses(Run(w, steps).disk, req)
    ensures var later, c := Run(w, steps).disk, w.disk.checkpoint.value;
      var closed, whole := Replay(later, Plan(later, req, newId)), Replay(w.disk, RecoveryPlan(w.disk));
      && closed.status == whole.status == Closed
      && closed.checkpoint == whole.checkpoint == Some(c)
      && Project(closed.log, c.id) == Project(whole.log, c.id)
      && |Project(whole.log, c.id)| == c.expected + 3
  {
    var v, c, start := Run(w, steps), w.disk.checkpoint.value, Begin(w, RecoveryRequest(w.disk));
    RunResumes(w, steps);
    RecoveryCompletes(w);
    ResumedCheckpoint(w, v, c, req, newId, []);
    PlanIsLegal(v, req, newId);
    hide Plan, Recoverable, RecoveryPlan, RecoveryRequest, Inv, Project, Replay, Run, Feasible;
    RecordIsPrefix(Begin(v, req), Plan(v.disk, req, newId), c.id);
    RecordIsPrefix(start, RecoveryPlan(w.disk), c.id);
    SameRecord(w, PerformAll(Begin(v, req), Plan(v.disk, req, newId)), PerformAll(start, RecoveryPlan(w.disk)), c);
  }

  /** The request a retry makes, in particular, is never refused. */
  lemma RetryIsNotRefused(w: World, steps: seq<Step>)
    requires Inv(w) && Recoverable(w.disk) && Feasible(w, steps)
    ensures !Refuses(Run(w, steps).disk, RecoveryRequest(w.disk))
  {
    RunResumes(w, steps);
  }

  // What becomes of the kits.

  /** A closed session's kits are all released, and a closing one's are draining or released. */
  predicate KitsFollow(d: Disk) {
    && (d.status == Closed ==> forall i | 0 <= i < |d.kits| :: d.kits[i].state == Released)
    && (d.status == Closing ==> forall i | 0 <= i < |d.kits| :: d.kits[i].state in {Draining, Released})
  }

  lemma {:induction false} WritesKeepKits(d: Disk, ws: seq<Write>)
    requires KitsFollow(d)
    ensures KitsFollow(Replay(d, ws))
  {
    if ws != [] { WritesKeepKits(d, ws[..|ws| - 1]); }
  }

  /**
   After every run, whatever was cut: a closed session has given all its kits back, and a closing one hands out
   none.
   */
  lemma {:induction false} ClosedIsReleased(w: World, steps: seq<Step>)
    requires Initial(w) && Feasible(w, steps)
    ensures var d := Run(w, steps).disk;
      && (d.status == Closed ==> forall i | 0 <= i < |d.kits| :: d.kits[i].state == Released)
      && (d.status == Closing ==> forall i | 0 <= i < |d.kits| :: d.kits[i].state in {Draining, Released})
  {
    if steps != [] {
      var before, step := Run(w, steps[..|steps| - 1]), steps[|steps| - 1];
      ClosedIsReleased(w, steps[..|steps| - 1]);
      match step
      case CloseCall(req, newId, cut) => WritesKeepKits(before.disk, Cut(Plan(before.disk, req, newId), cut));
      case RecoveryPass(cut) => WritesKeepKits(before.disk, Cut(RecoveryPlan(before.disk), cut));
      case _ =>
    }
  }

  /** The kits of `b` are those of `a`, in their places, each as it was or further on; none ever is ready again. */
  predicate KitsMoveOn(a: seq<Kit>, b: seq<Kit>) {
    && |b| == |a|
    && forall i | 0 <= i < |a| ::
      && b[i].id == a[i].id
      && (a[i].state == Released ==> b[i].state == Released)
      && (a[i].state == Draining ==> b[i].state != Ready)
  }

  lemma {:induction false} WritesMoveKitsOn(d: Disk, ws: seq<Write>)
    ensures KitsMoveOn(d.kits, Replay(d, ws).kits)
  {
    if ws != [] {
      WritesMoveKitsOn(d, ws[..|ws| - 1]);
    }
  }

  /** Nor does any run: until a session is activated anew, each kit keeps its place and only moves on. */
  lemma {:induction false} RunMovesKitsOn(w: World, steps: seq<Step>)
    requires forall i | 0 <= i < |steps| :: !steps[i].Activate?
    ensures KitsMoveOn(w.disk.kits, Run(w, steps).disk.kits)
  {
    if steps != [] {
      var before, step := Run(w, steps[..|steps| - 1]), steps[|steps| - 1];
      RunMovesKitsOn(w, steps[..|steps| - 1]);
      match step
      case CloseCall(req, newId, cut) => WritesMoveKitsOn(before.disk, Cut(Plan(before.disk, req, newId), cut));
      case RecoveryPass(cut) => WritesMoveKitsOn(before.disk, Cut(RecoveryPlan(before.disk), cut));
      case _ =>
    }
  }

  /** No write leaves a closed session, and none replaces the checkpoint of a closing one. */
  lemma {:induction false} ClosingPersists(w: World, ws: seq<Write>)
    requires Inv(w) && Legal(w, ws)
    ensures w.disk.status == Closed ==> PerformAll(w, ws).disk.status == Closed
    ensures w.disk.status == Closing || w.disk.status == Closed ==>
      PerformAll(w, ws).disk.checkpoint == w.disk.checkpoint && PerformAll(w, ws).disk.status in {Closing, Closed}
  {
    if ws != [] {
      ClosingPersists(w, ws[..|ws| - 1]);
      assert ws[..|ws| - 1][..|ws| - 1] == ws[..|ws| - 1];
      CutKeepsInv(w, ws[..|ws| - 1], |ws| - 1);
    }
  }

  lemma {:induction false} LegalPrefix(w: World, ws: seq<Write>, k: nat)
    requires Legal(w, ws) && k <= |ws|
    ensures Legal(w, ws[..k])
  {
    if k < |ws| {
      LegalPrefix(w, ws[..|ws| - 1], k);
      assert ws[..|ws| - 1][..k] == ws[..k];
    } else {
      assert ws[..k] == ws;
    }
  }

  lemma CutClosingPersists(w: World, req: Request, newId: nat, cut: nat)
    requires Inv(w) && newId !in w.issued
    ensures var later := PerformAll(Begin(w, req), Cut(Plan(w.disk, req, newId), cut));
      && (w.disk.status == Closed ==> later.disk.status == Closed)
      && (w.disk.status == Closing || w.disk.status == Closed ==>
            later.disk.checkpoint == w.disk.checkpoint && later.disk.status in {Closing, Closed})
  {
    var plan := Plan(w.disk, req, newId);
    BeginKeepsInv(w, req);
    if !Refuses(w.disk, req) { PlanIsLegal(w, req, newId); }
    LegalPrefix(Begin(w, req), plan, Min(cut, |plan|));
    ClosingPersists(Begin(w, req), Cut(plan, cut));
  }

  lemma StepClosingPersists(w: World, step: Step)
    requires Inv(w) && Possible(w, step)
    ensures w.disk.status == Closed ==> Take(w, step).disk.status == Closed
    ensures w.disk.status == Closing || w.disk.status == Closed ==>
      Take(w, step).disk.checkpoint == w.disk.checkpoint && Take(w, step).disk.status in {Closing, Closed}
  {
    match step
    case CloseCall(req, newId, cut) => CutClosingPersists(w, req, newId, cut);
    case RecoveryPass(cut) =>
      if Recoverable(w.disk) {
        var newId := NewIdExists(w);
        RecoveryIssuesNothing(w.disk, newId);
        CutClosingPersists(w, RecoveryRequest(w.disk), newId, cut);
      }
    case _ =>
  }

  /** Each kit is released in `b` exactly when it is in `a`. */
  predicate SameReleased(a: seq<Kit>, b: seq<Kit>) {
    |b| == |a| && forall i | 0 <= i < |a| :: b[i].state == Released <==> a[i].state == Released
  }

  lemma {:induction false} LegalReleases(w: World, ws: seq<Write>)
    requires Legal(w, ws) && w.disk.status != Closed
    ensures PerformAll(w, ws).disk.status != Closed ==> SameReleased(w.disk.kits, PerformAll(w, ws).disk.kits)
  {
    if ws != [] { LegalReleases(w, ws[..|ws| - 1]); }
  }

  lemma CallReleases(w: World, req: Request, newId: nat, cut: nat)
    requires Inv(w) && newId !in w.issued && w.disk.status != Closed
    ensures var later := PerformAll(Begin(w, req), Cut(Plan(w.disk, req, newId), cut));
      later.disk.status != Closed ==> SameReleased(w.disk.kits, later.disk.kits)
  {
    var plan := Plan(w.disk, req, newId);
    if !Refuses(w.disk, req) { PlanIsLegal(w, req, newId); }
    LegalPrefix(Begin(w, req), plan, Min(cut, |plan|));
    LegalReleases(Begin(w, req), Cut(plan, cut));
  }

  lemma StepReleases(w: World, step: Step)
    requires Inv(w) && Possible(w, step) && !step.Activate? && w.disk.status != Closed
    ensures Take(w, step).disk.status != Closed ==> SameReleased(w.disk.kits, Take(w, step).disk.kits)
  {
    match step
    case CloseCall(req, newId, cut) => CallReleases(w, req, newId, cut);
    case RecoveryPass(cut) =>
      if Recoverable(w.disk) {
        var newId := NewIdExists(w);
        RecoveryIssuesNothing(w.disk, newId);
        CallReleases(w, RecoveryRequest(w.disk), newId, cut);
      }
    case _ =>
  }

  /** No kit is given back before the session is closed: while it is not, none but those released from the start are. */
  lemma {:induction false} ReleasedOnlyWhenClosed(w: World, steps: seq<Step>)
    requires Initial(w) && Feasible(w, steps) && forall i | 0 <= i < |steps| :: !steps[i].Activate?
    ensures var a, b := w.disk.kits, Run(w, steps).disk.kits;
      Run(w, steps).disk.status != Closed ==>
      |b| == |a| && forall i | 0 <= i < |a| :: b[i].state == Released <==> a[i].state == Released
  {
    if steps != [] {
      var before := Run(w, steps[..|steps| - 1]);
      ReleasedOnlyWhenClosed(w, steps[..|steps| - 1]);
      RunKeepsInv(w, steps[..|steps| - 1]);
      hide Inv;
      StepClosingPersists(before, steps[|steps| - 1]);
      if before.disk.status != Closed { StepReleases(before, steps[|steps| - 1]); }
    }
  }

  /** Closed is never left, and a closing session never changes its checkpoint. */
  lemma {:induction false} ClosedIsForever(w: World, steps: seq<Step>, k: nat)
    requires Initial(w) && Feasible(w, steps) && k <= |steps|
    ensures Run(w, steps[..k]).disk.status == Closed ==> Run(w, steps).disk.status == Closed
    ensures Run(w, steps[..k]).disk.status in {Closing, Closed} ==>
      Run(w, steps).disk.checkpoint == Run(w, steps[..k]).disk.checkpoint && Run(w, steps).disk.status in {Closing, Closed}
  {
    if k == |steps| {
      assert steps[..k] == steps;
    } else {
      var before := steps[..|steps| - 1];
      assert before[..k] == steps[..k];
      ClosedIsForever(w, before, k);
      RunKeepsInv(w, before);
      StepClosingPersists(Run(w, before), steps[|steps| - 1]);
    }
  }
}
