/** The coordinator itself, which performs the writes one by one. */
module CloseCoordinator {
  import opened Options
  import opened Text
  import opened CloseProtocol
  import opened ClosePlans
  import opened CloseRecovery
  import R = CloseRuns

  predicate SafeSessionId(id: string) {
    var prefix := "review_session_";
    && |id| > |prefix| && id[..|prefix|] == prefix
    && forall c | c in id[|prefix|..] ::
         'A' <= c <= 'Z' || 'a' <= c <= 'z' || '0' <= c <= '9' || c == '_' || c == '-'
  }

  /** A safe id is the prefix followed by at least one letter, digit, low line or hyphen, and nothing else. */
  lemma SafeIdMeans(id: string)
    ensures SafeSessionId(id) <==>
      exists rest :: id == "review_session_" + rest && |rest| > 0
        && forall i | 0 <= i < |rest| ::
             var c := rest[i];
             'a' <= c <= 'z' || 'A' <= c <= 'Z' || '0' <= c <= '9' || c in ['-', '_']
  {
    var prefix := "review_session_";
    if SafeSessionId(id) {
      var rest := id[|prefix|..];
      assert id == prefix + rest;
      forall i | 0 <= i < |rest| ensures rest[i] in rest { }
    }
    forall rest | id == prefix + rest ensures |id| >= |prefix| && id[..|prefix|] == prefix && id[|prefix|..] == rest { }
  }

  datatype Outcome = Absent | Returned(status: Status) | Interrupted

  /** The session records and event logs, as the process finds them on disk. */
  class Coordinator {
    var sessions: map<string, Disk>

    constructor (sessions: map<string, Disk>)
      ensures this.sessions == sessions
    {
      this.sessions := sessions;
    }

    /** One durable write, unless the process dies first: it lives for `left` more writes. */
    method Put(id: string, w: Write, left: nat) returns (alive: bool, rest: nat)
      requires id in sessions
      modifies this
      ensures Wrote(old(sessions), sessions, id, [w], left, alive, rest)
    {
      alive, rest := left > 0, 0;
      if alive {
        sessions := sessions[id := Apply(sessions[id], w)];
        rest := left - 1;
      }
      assert [w][..0] == [] && [w][..1] == [w];
    }

    /** Appends the final events that are still missing. */
    method RecordFinals(id: string, finals: seq<Json>, have: nat, expected: nat, checkpoint: nat, left: nat)
      returns (alive: bool, rest: nat)
      requires id in sessions && have <= expected <= |finals|
      modifies this
      ensures Wrote(old(sessions), sessions, id, Appends(finals[have..expected], checkpoint), left, alive, rest)
    {
      alive, rest := true, left;
      ghost var all := Appends(finals[have..expected], checkpoint);
      WroteNothing(sessions, id, left);
      for index := have to expected
        invariant alive && id in sessions
        invariant Wrote(old(sessions), sessions, id, all[..index - have], left, alive, rest)
      {
        ghost var before, room := sessions, rest;
        alive, rest := Put(id, Append(FinalReview(finals[index]), checkpoint), rest);
        WroteMore(old(sessions), before, sessions, id, all[..index - have],
                  [Append(FinalReview(finals[index]), checkpoint)], left, room, alive, rest);
        assert all[..index - have] + [Append(FinalReview(finals[index]), checkpoint)] == all[..index + 1 - have];
        if !alive {
          WroteLess(old(sessions), sessions, id, all[..index + 1 - have], all[index + 1 - have..], left, rest);
          assert all == all[..index + 1 - have] + all[index + 1 - have..];
          return;
        }
      }
      assert all[..expected - have] == all;
    }

    /** The checkpoint and the sessionClosing event, each unless already on disk. */
    method RecordOpening(id: string, req: Request, checkpoint: Checkpoint, budget: nat)
      returns (alive: bool, left: nat)
      requires id in sessions
      modifies this
      ensures Wrote(old(sessions), sessions, id, Prepare(old(sessions)[id], req, checkpoint), budget, alive, left)
    {
      hide RequestedAudit;
      var session := sessions[id];
      alive, left := true, budget;
      WroteNothing(sessions, id, left);
      ghost var all := sessions;
      ghost var a, b := CheckpointWrites(session, checkpoint), ClosingWrites(session, req, checkpoint);
      if !IsCurrent(session, checkpoint.id) {
        alive, left := Put(id, SetCheckpoint(checkpoint), left);
        if !alive { WroteLess(all, sessions, id, a, b, budget, left); return; }
        assert [SetCheckpoint(checkpoint)][..0] == [];
      }
      ghost var mid, room := sessions, left;
      WroteNothing(sessions, id, left);
      if session.status != Closed && ClosingAudit(Project(sessions[id].log, checkpoint.id)).None? {
        alive, left := Put(id, Append(SessionClosing(|req.finals|, RequestedAudit(req)), checkpoint.id), left);
      }
      WroteMore(all, mid, sessions, id, a, b, budget, room, alive, left);
    }

    /** Everything up to the final events; `done` says whether the call goes on to close. */
    method RecordClosing(id: string, req: Request, newId: nat, budget: nat)
      returns (alive: bool, left: nat, done: bool, checkpoint: Checkpoint)
      requires id in sessions && !Refuses(sessions[id], req)
      modifies this
      ensures checkpoint == Chosen(old(sessions)[id], req, newId)
      ensures done <==> alive && !GivesUp(old(sessions)[id], req, checkpoint)
      ensures var d := old(sessions)[id];
        Wrote(old(sessions), sessions, id,
              Prepare(d, req, checkpoint)
              + (if GivesUp(d, req, checkpoint) then [] else MissingFinals(d, req, checkpoint)),
              budget, alive, left)
    {
      hide Chosen, Refuses, RequestedAudit, Prepare;
      var session := sessions[id];
      checkpoint := Chosen(session, req, newId);
      done := false;
      ghost var all, first := sessions, Prepare(session, req, checkpoint);
      ghost var later := if GivesUp(session, req, checkpoint) then [] else MissingFinals(session, req, checkpoint);
      alive, left := RecordOpening(id, req, checkpoint, budget);
      if !alive { WroteLess(all, sessions, id, first, later, budget, left); return; }
      assert Cut(first, budget) == first;
      CountFinals(session, req, checkpoint);
      ghost var mid, room := sessions, left;
      WroteNothing(sessions, id, left);
      if session.status != Closed {
        var have := |FinalsOf(Project(sessions[id].log, checkpoint.id))|;
        if have < checkpoint.expected {
          if |req.finals| < checkpoint.expected {
            WroteMore(all, mid, sessions, id, first, later, budget, room, alive, left);
            return;
          }
          alive, left := RecordFinals(id, req.finals, have, checkpoint.expected, checkpoint.id, left);
        }
      }
      WroteMore(all, mid, sessions, id, first, later, budget, room, alive, left);
      done := alive;
    }

    /** The status writes and the closing half of the record. */
    method RecordClosed(id: string, status: Status, audit: Audit, checkpoint: nat, budget: nat)
      returns (alive: bool, left: nat)
      requires id in sessions && sessions[id].status == status
      modifies this
      ensures var d := old(sessions)[id];
        Wrote(old(sessions), sessions, id,
              Marks(d) + Tail(Project(d.log, checkpoint), audit, KitIds(d.kits), checkpoint), budget, alive, left)
    {
      ghost var d, all := sessions[id], sessions;
      ghost var marks, tail := Marks(d), Tail(Project(d.log, checkpoint), audit, KitIds(d.kits), checkpoint);
      alive, left := RecordMarks(id, status, budget);
      if !alive { WroteLess(all, sessions, id, marks, tail, budget, left); return; }
      MarksKeepRecord(d);
      assert Cut(marks, budget) == marks;
      var p := Project(sessions[id].log, checkpoint);
      var kits := KitIds(sessions[id].kits);
      ghost var mid, room := sessions, left;
      ghost var a := if HasClosed(p) then [] else [Append(SessionClosed(audit), checkpoint)];
      ghost var b := if HasReleased(p) then [] else [Append(KitReleased(kits), checkpoint)];
      assert tail == a + b;
      WroteNothing(sessions, id, left);
      if !HasClosed(p) { alive, left := Put(id, Append(SessionClosed(audit), checkpoint), left); }
      WroteMore(all, mid, sessions, id, marks, a, budget, room, alive, left);
      assert marks + tail == marks + a + b;
      if !alive { WroteLess(all, sessions, id, marks + a, b, budget, left); return; }
      mid, room := sessions, left;
      WroteNothing(sessions, id, left);
      if !HasReleased(p) { alive, left := Put(id, Append(KitReleased(kits), checkpoint), left); }
      WroteMore(all, mid, sessions, id, marks + a, b, budget, room, alive, left);
    }

    method RecordMarks(id: string, status: Status, budget: nat) returns (alive: bool, left: nat)
      requires id in sessions && sessions[id].status == status
      modifies this
      ensures Wrote(old(sessions), sessions, id, Marks(old(sessions)[id]), budget, alive, left)
      ensures alive ==> sessions[id].status == Closed
      ensures alive && status != Closed ==>
        forall i | 0 <= i < |sessions[id].kits| :: sessions[id].kits[i].state == Released
    {
      MarksRelease(sessions[id]);
      ghost var all := sessions;
      alive, left := true, budget;
      WroteNothing(sessions, id, left);
      if status == Closed { return; }
      ghost var a := if status == Closing then [] else [MarkClosing];
      assert Marks(sessions[id]) == a + [MarkClosed];
      if status != Closing { alive, left := Put(id, MarkClosing, left); }
      if !alive { WroteLess(all, sessions, id, a, [MarkClosed], budget, left); return; }
      ghost var mid, room := sessions, left;
      alive, left := Put(id, MarkClosed, left);
      WroteMore(all, mid, sessions, id, a, [MarkClosed], budget, room, alive, left);
    }

    /** `closeReviewSessionInternal`, in a process that lives for `budget` more writes. */
    method Close(id: string, req: Request, newId: nat, budget: nat) returns (outcome: Outcome, left: nat)
      modifies this
      ensures !SafeSessionId(id) || id !in old(sessions) ==>
        outcome == Absent && left == budget && sessions == old(sessions)
      ensures SafeSessionId(id) && id in old(sessions) ==>
        var plan := Plan(old(sessions)[id], req, newId);
        && Wrote(old(sessions), sessions, id, plan, budget, outcome != Interrupted, left)
        && outcome == (if budget < |plan| then Interrupted else Returned(sessions[id].status))
      ensures SafeSessionId(id) && id in old(sessions) && R.KitsFollow(old(sessions)[id]) ==> R.KitsFollow(sessions[id])
    {
      hide R.KitsFollow;
      if SafeSessionId(id) && id in sessions { CallKeepsKits(sessions[id], Plan(sessions[id], req, newId), budget); }
      left := budget;
      if !SafeSessionId(id) || id !in sessions { return Absent, left; }
      var session := sessions[id];
      if Refuses(session, req) {
        WroteNothing(sessions, id, left);
        return Returned(session.status), left;
      }
      ghost var all := sessions;
      var alive, done, checkpoint;
      alive, left, done, checkpoint := RecordClosing(id, req, newId, budget);
      ghost var gone := GivesUp(session, req, checkpoint);
      ghost var first := Prepare(session, req, checkpoint)
                         + if gone then [] else MissingFinals(session, req, checkpoint);
      hide Chosen, Refuses, GivesUp, MissingFinals, Prepare, Tail, Project, ClosingAudit, HasClosed, HasReleased;
      var audit := AuditOf(session, req, checkpoint);
      ghost var rest := if gone then [] else
        Marks(session) + Tail(Project(session.log, checkpoint.id), audit, KitIds(session.kits), checkpoint.id);
      assert Plan(session, req, newId) == first + rest;
      if !done {
        if alive { return Returned(sessions[id].status), left; }
        WroteLess(all, sessions, id, first, rest, budget, left);
        return Interrupted, left;
      }
      assert Cut(first, budget) == first;
      OpeningKeepsTail(session, req, checkpoint);
      ghost var mid, room := sessions, left;
      alive, left := RecordClosed(id, session.status, audit, checkpoint.id, left);
      WroteMore(all, mid, sessions, id, first, rest, budget, room, alive, left);
      outcome := if alive then Returned(sessions[id].status) else Interrupted;
    }

    /**
     The startup loop's body: finish one session's close if it can be recovered. With a fault, the session's
     store refuses every write after that many, and the loop catches what is thrown.
     */
    method RecoverOne(id: string, budget: nat, fault: Option<nat>) returns (alive: bool, left: nat, thrown: bool)
      requires SafeSessionId(id) && id in sessions
      modifies this
      ensures Wrote(old(sessions), sessions, id, Attempted(old(sessions)[id], fault), budget, alive, left)
      ensures thrown <==> alive && Attempted(old(sessions)[id], fault) != RecoveryPlan(old(sessions)[id])
    {
      alive, left, thrown := true, budget, false;
      WroteNothing(sessions, id, left);
      if Recoverable(sessions[id]) {
        var room := if fault.Some? then Min(fault.value, budget) else budget;
        ghost var all, plan := sessions, RecoveryPlan(sessions[id]);
        var outcome, rest := Close(id, RecoveryRequest(sessions[id]), 0, room);
        left := budget - (room - rest);
        if outcome == Interrupted {
          thrown := fault.Some? && fault.value <= budget;
          alive := thrown;
        }
        assert Cut(Attempted(all[id], fault), budget) == Cut(plan, room);
      }
    }

    /**
     The startup loop over the given session ids, in a process that lives for `budget` writes, where the
     stores of some sessions fail. Whenever the process dies each session has had a prefix of its recovery
     plan written. When it lives on, each has had all of it or what its store took, and exactly the failed
     ones that are closing or closed by then are queued, to be asked for again with the audit just read.
     */
    method RecoverAll(ids: seq<string>, budget: nat, faults: map<string, nat>)
      returns (alive: bool, queued: seq<(string, Request)>)
      requires forall id | id in ids :: SafeSessionId(id) && id in sessions
      requires Distinct(ids)
      modifies this
      ensures PartlySwept(old(sessions), sessions, AsSet(ids))
      ensures alive ==> Swept(old(sessions), sessions, faults, AsSet(ids))
      ensures alive ==> Queues(old(sessions), sessions, faults, ids, queued)
    {
      hide Attempted, RecoveryPlan, RecoveryRequest, Wrote, PartlySwept, Swept, Queues, AsSet, Distinct, SafeSessionId;
      var left := budget;
      alive, queued := true, [];
      ghost var all := sessions;
      NothingSwept(all, faults, ids);
      for i := 0 to |ids|
        invariant alive && Swept(all, sessions, faults, AsSet(ids[..i])) && sessions.Keys == all.Keys
        invariant Queues(all, sessions, faults, ids[..i], queued)
      {
        var id := ids[i];
        NotYetSeen(ids, i);
        ghost var mid, room, before := sessions, left, queued;
        var request, thrown := RecoveryRequest(sessions[id]), false;
        OthersWait(all, mid, faults, AsSet(ids[..i]), id);
        alive, left, thrown := RecoverOne(id, left, FaultOf(faults, id));
        SweepOne(all, mid, sessions, faults, AsSet(ids[..i]), id, room, alive, left);
        if !alive {
          PartOfAll(all, sessions, AsSet(ids[..i + 1]), ids);
          return;
        }
        if thrown && sessions[id].status in {Closing, Closed} {
          queued := queued + [(id, request)];
        }
        QueueOne(all, mid, sessions, faults, ids, i, before, queued);
      }
      NotYetSeen(ids, |ids|);
      SweptIsPartial(all, sessions, faults, AsSet(ids));
    }
  }

  lemma NothingSwept(all: map<string, Disk>, faults: map<string, nat>, ids: seq<string>)
    ensures Swept(all, all, faults, AsSet(ids[..0])) && Queues(all, all, faults, ids[..0], [])
  {
  }

  lemma OthersWait(before: map<string, Disk>, mid: map<string, Disk>, faults: map<string, nat>, done: set<string>, id: string)
    requires Swept(before, mid, faults, done) && id in before.Keys - done
    ensures id in mid && mid[id] == before[id]
  {
  }

  lemma PartOfAll(before: map<string, Disk>, after: map<string, Disk>, done: set<string>, ids: seq<string>)
    requires PartlySwept(before, after, done) && done <= AsSet(ids) && forall id | id in ids :: id in before
    ensures PartlySwept(before, after, AsSet(ids))
  {
  }

  function FaultOf(faults: map<string, nat>, id: string): Option<nat> {
    if id in faults then Some(faults[id]) else None
  }

  /** What a recovery writes to a store that may fail. */
  function Attempted(d: Disk, fault: Option<nat>): seq<Write> {
    if fault.Some? then Cut(RecoveryPlan(d), fault.value) else RecoveryPlan(d)
  }

  /** The recovery of this session threw, and the idle service accepts a retry of it. */
  predicate ToRetry(before: Disk, after: Disk, fault: Option<nat>) {
    Attempted(before, fault) != RecoveryPlan(before) && after.status in {Closing, Closed}
  }

  /** The queue holds the sessions to retry, in the order of the loop, each with the request first made. */
  ghost predicate Queues(
    before: map<string, Disk>, after: map<string, Disk>, faults: map<string, nat>, ids: seq<string>,
    queued: seq<(string, Request)>)
  {
    && (forall id | id in ids :: id in before && id in after)
    && queued == RetriesOf(before, after, faults, ids)
  }

  ghost function RetriesOf(
    before: map<string, Disk>, after: map<string, Disk>, faults: map<string, nat>, ids: seq<string>)
    : seq<(string, Request)>
    requires forall id | id in ids :: id in before && id in after
  {
    if ids == [] then [] else
      var id := ids[|ids| - 1];
      RetriesOf(before, after, faults, ids[..|ids| - 1])
      + if ToRetry(before[id], after[id], FaultOf(faults, id)) then [(id, RecoveryRequest(before[id]))] else []
  }

  /** Queued are exactly the sessions to retry, each with the request its recovery made. */
  lemma {:induction false} RetriesExactly(
    before: map<string, Disk>, after: map<string, Disk>, faults: map<string, nat>, ids: seq<string>, q: (string, Request))
    requires forall id | id in ids :: id in before && id in after
    ensures q in RetriesOf(before, after, faults, ids) <==>
      q.0 in ids && ToRetry(before[q.0], after[q.0], FaultOf(faults, q.0)) && q.1 == RecoveryRequest(before[q.0])
  {
    hide ToRetry, RecoveryRequest;
    if ids != [] {
      var rest := ids[..|ids| - 1];
      RetriesExactly(before, after, faults, rest, q);
      assert ids == rest + [ids[|ids| - 1]];
    }
  }

  lemma {:induction false} SameRetries(
    before: map<string, Disk>, mid: map<string, Disk>, after: map<string, Disk>, faults: map<string, nat>,
    ids: seq<string>)
    requires forall id | id in ids :: id in before && id in mid && id in after && after[id] == mid[id]
    ensures RetriesOf(before, after, faults, ids) == RetriesOf(before, mid, faults, ids)
  {
    if ids != [] {
      SameRetries(before, mid, after, faults, ids[..|ids| - 1]);
    }
  }

  lemma QueueOne(before: map<string, Disk>, mid: map<string, Disk>, after: map<string, Disk>,
                 faults: map<string, nat>, ids: seq<string>, i: nat,
                 queued: seq<(string, Request)>, longer: seq<(string, Request)>)
    requires i < |ids| && ids[i] in before && ids[i] in after
    requires Queues(before, mid, faults, ids[..i], queued)
    requires forall id | id in ids[..i] :: id in after && after[id] == mid[id]
    requires longer == queued
      + if ToRetry(before[ids[i]], after[ids[i]], FaultOf(faults, ids[i]))
        then [(ids[i], RecoveryRequest(before[ids[i]]))] else []
    ensures Queues(before, after, faults, ids[..i + 1], longer)
  {
    hide ToRetry, RecoveryRequest;
    SameRetries(before, mid, after, faults, ids[..i]);
    assert ids[..i + 1] == ids[..i] + [ids[i]];
    assert ids[..i + 1][..i] == ids[..i];
  }

  /** Marking a session closed gives all its kits back. */
  lemma MarksRelease(d: Disk)
    ensures var later := Replay(d, Marks(d));
      && later.status == Closed
      && (d.status != Closed ==> forall i | 0 <= i < |later.kits| :: later.kits[i].state == Released)
    ensures forall left: nat | |Marks(d)| <= left :: Cut(Marks(d), left) == Marks(d)
  {
    var ws := Marks(d);
    if d.status != Closed { assert ws[|ws| - 1] == MarkClosed; }
  }

  lemma CallKeepsKits(d: Disk, ws: seq<Write>, left: nat)
    ensures R.KitsFollow(d) ==> R.KitsFollow(Replay(d, Cut(ws, left)))
  {
    if R.KitsFollow(d) { R.WritesKeepKits(d, Cut(ws, left)); }
  }

  function AsSet(ids: seq<string>): set<string> { set id | id in ids }

  predicate Distinct(ids: seq<string>) { forall i, j | 0 <= i < j < |ids| :: ids[i] != ids[j] }

  lemma NotYetSeen(ids: seq<string>, i: nat)
    requires Distinct(ids) && i <= |ids|
    ensures i < |ids| ==> ids[i] !in AsSet(ids[..i]) && ids[i] !in ids[..i]
    ensures i < |ids| ==> AsSet(ids[..i + 1]) == AsSet(ids[..i]) + {ids[i]} <= AsSet(ids)
    ensures i == |ids| ==> ids[..i] == ids
  {
  }

  /** The sessions in `done` were recovered as far as their stores went; nothing else changed. */
  ghost predicate Swept(
    before: map<string, Disk>, after: map<string, Disk>, faults: map<string, nat>, done: set<string>)
  {
    && after.Keys == before.Keys && done <= before.Keys
    && (forall id | id in done :: after[id] == Replay(before[id], Attempted(before[id], FaultOf(faults, id))))
    && (forall id | id in before.Keys - done :: after[id] == before[id])
  }

  ghost predicate PartlySwept(before: map<string, Disk>, after: map<string, Disk>, done: set<string>) {
    && after.Keys == before.Keys && done <= before.Keys
    && (forall id | id in before :: PartlyRecovered(before[id], after[id]))
    && (forall id | id in before.Keys - done :: after[id] == before[id])
  }

  lemma SweptIsPartial(
    before: map<string, Disk>, after: map<string, Disk>, faults: map<string, nat>, done: set<string>)
    requires Swept(before, after, faults, done)
    ensures PartlySwept(before, after, done)
  {
    hide RecoveryPlan, Replay;
    forall id | id in before ensures PartlyRecovered(before[id], after[id]) {
      if id in done {
        CutIsPartial(before[id], after[id], FaultOf(faults, id), |RecoveryPlan(before[id])|);
      } else {
        assert id in before.Keys - done;
        UntouchedIsPartial(before[id]);
      }
    }
  }

  lemma SweepOne(before: map<string, Disk>, mid: map<string, Disk>, after: map<string, Disk>,
                 faults: map<string, nat>, done: set<string>, id: string, room: nat, alive: bool, left: nat)
    requires Swept(before, mid, faults, done) && id in before.Keys - done
    requires Wrote(mid, after, id, Attempted(before[id], FaultOf(faults, id)), room, alive, left)
    ensures PartlySwept(before, after, done + {id})
    ensures after.Keys == mid.Keys && forall other | other in mid && other != id :: after[other] == mid[other]
    ensures alive ==> Swept(before, after, faults, done + {id})
  {
    hide RecoveryPlan, Replay;
    var tried := Attempted(before[id], FaultOf(faults, id));
    assert after[id] == Replay(before[id], Cut(tried, room));
    if alive { assert Cut(tried, room) == tried; }
    SweptIsPartial(before, mid, faults, done);
    CutIsPartial(before[id], after[id], FaultOf(faults, id), room);
    forall other | other in before ensures PartlyRecovered(before[other], after[other]) {
      if other != id { assert after[other] == mid[other]; }
    }
  }

  ghost predicate PartlyRecovered(before: Disk, after: Disk) {
    exists k: nat :: after == Replay(before, Cut(RecoveryPlan(before), k))
  }

  lemma CutIsPartial(before: Disk, after: Disk, fault: Option<nat>, room: nat)
    requires after == Replay(before, Cut(Attempted(before, fault), room))
      || (room == |RecoveryPlan(before)| && after == Replay(before, Attempted(before, fault)))
    ensures PartlyRecovered(before, after)
  {
    hide RecoveryPlan, Replay;
    var plan, tried := RecoveryPlan(before), Attempted(before, fault);
    var k := if after == Replay(before, tried) then |tried| else Min(room, |tried|);
    assert Cut(plan, k) == tried[..k];
    assert tried[..|tried|] == tried;
  }

  lemma UntouchedIsPartial(d: Disk)
    ensures PartlyRecovered(d, d)
  {
    assert Replay(d, Cut(RecoveryPlan(d), 0)) == d;
  }

  /** `ws`, cut after `left` writes, turned `before` into `after`; `alive` when none was cut off. */
  ghost predicate Wrote(
    before: map<string, Disk>, after: map<string, Disk>, id: string, ws: seq<Write>, left: nat, alive: bool, rest: nat)
  {
    && id in before
    && after == before[id := Replay(before[id], Cut(ws, left))]
    && rest == left - Min(left, |ws|)
    && (alive <==> |ws| <= left)
  }

  lemma WroteNothing(all: map<string, Disk>, id: string, left: nat)
    requires id in all
    ensures Wrote(all, all, id, [], left, true, left)
  {
  }

  lemma WroteMore(before: map<string, Disk>, mid: map<string, Disk>, after: map<string, Disk>, id: string,
                  a: seq<Write>, b: seq<Write>, left: nat, room: nat, alive: bool, rest: nat)
    requires Wrote(before, mid, id, a, left, true, room) && Wrote(mid, after, id, b, room, alive, rest)
    ensures Wrote(before, after, id, a + b, left, alive, rest)
  {
    assert Cut(a, left) == a && Cut(a + b, left) == a + Cut(b, room);
    ReplayConcat(before[id], a, Cut(b, room));
  }

  lemma WroteLess(before: map<string, Disk>, after: map<string, Disk>, id: string,
                  a: seq<Write>, b: seq<Write>, left: nat, rest: nat)
    requires Wrote(before, after, id, a, left, false, rest)
    ensures Wrote(before, after, id, a + b, left, false, rest)
  {
    assert Cut(a + b, left) == Cut(a, left);
  }

  lemma FinalsAppend(p: seq<Body>, b: Body)
    ensures FinalsOf(p + [b]) == FinalsOf(p) + (if b.FinalReview? then [b.payload] else [])
  {
    assert (p + [b])[..|p|] == p;
  }

  /** The sessionClosing event just written does not change the count of final events. */
  lemma CountFinals(d: Disk, req: Request, c: Checkpoint)
    ensures FinalsOf(Project(Replay(d, Prepare(d, req, c)).log, c.id)) == FinalsOf(Project(d.log, c.id))
    ensures Replay(d, Prepare(d, req, c)).status == d.status
  {
    var a, b := CheckpointWrites(d, c), ClosingWrites(d, req, c);
    ReplayConcat(d, a, b);
    var mid := Replay(d, a);
    assert mid.log == d.log by { if a != [] { assert a[..0] == []; } }
    if b != [] {
      assert b[..0] == [];
      ProjectAppend(d.log, Event(b[0].body, Some(c.id)), c.id);
      FinalsAppend(Project(d.log, c.id), b[0].body);
    }
  }

  lemma MarksKeepRecord(d: Disk)
    ensures Replay(d, Marks(d)).log == d.log && KitIds(Replay(d, Marks(d)).kits) == KitIds(d.kits)
  {
    forall x | x in Marks(d) ensures !x.Append? { }
    MarkingKeepsRecord(d, Marks(d));
  }

  lemma {:induction false} MarkingKeepsRecord(d: Disk, ws: seq<Write>)
    requires forall x | x in ws :: !x.Append?
    ensures Replay(d, ws).log == d.log && KitIds(Replay(d, ws).kits) == KitIds(d.kits)
  {
    if ws != [] {
      var before := Replay(d, ws[..|ws| - 1]);
      assert ws[|ws| - 1] in ws;
      MarkingKeepsRecord(d, ws[..|ws| - 1]);
      assert KitIds(Drain(before.kits)) == KitIds(before.kits) == KitIds(Release(before.kits));
    }
  }

  /** Checkpoint, sessionClosing and final events leave the questions of the closing half as they were. */
  lemma OpeningKeepsTail(d: Disk, req: Request, c: Checkpoint)
    requires !GivesUp(d, req, c)
    ensures var reached := Replay(d, Prepare(d, req, c) + MissingFinals(d, req, c));
      && reached.status == d.status && reached.kits == d.kits
      && (HasClosed(Project(reached.log, c.id)) <==> HasClosed(Project(d.log, c.id)))
      && (HasReleased(Project(reached.log, c.id)) <==> HasReleased(Project(d.log, c.id)))
  {
    var ws := Prepare(d, req, c) + MissingFinals(d, req, c);
    forall x | x in ws ensures Opening(x) { }
    OpeningKeepsAll(d, ws, c.id);
  }

  predicate Opening(x: Write) {
    x.SetCheckpoint? || (x.Append? && (x.body.SessionClosing? || x.body.FinalReview?))
  }

  lemma {:induction false} OpeningKeepsAll(d: Disk, ws: seq<Write>, id: nat)
    requires forall x | x in ws :: Opening(x)
    ensures var reached := Replay(d, ws);
      && reached.status == d.status && reached.kits == d.kits
      && (HasClosed(Project(reached.log, id)) <==> HasClosed(Project(d.log, id)))
      && (HasReleased(Project(reached.log, id)) <==> HasReleased(Project(d.log, id)))
  {
    if ws != [] {
      var before, x := Replay(d, ws[..|ws| - 1]), ws[|ws| - 1];
      assert x in ws;
      OpeningKeepsAll(d, ws[..|ws| - 1], id);
      if x.Append? { ProjectAppend(before.log, Event(x.body, Some(x.owner)), id); }
    }
  }
}
