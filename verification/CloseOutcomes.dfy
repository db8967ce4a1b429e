/** What one close call comes to: when it is refused, under which checkpoint it works, and what it records. */
module CloseOutcomes {
  import opened Options
  import opened Text
  import opened CloseProtocol
  import opened ClosePlans
  import opened CloseRecovery
  import opened CloseRuns

  /** The text trimmed and cut to 500 characters, or nothing if that leaves nothing. */
  predicate Says(text: Option<string>, kept: Option<string>) {
    match text
    case None => kept == None
    case Some(t) =>
      if forall i | 0 <= i < |t| :: IsSpace(t[i]) then kept == None
      else kept.Some? && 0 < |kept.value| <= 500 && kept.value <= Trim(t)
           && (|kept.value| < 500 ==> kept.value == Trim(t))
  }

  /** The audit of a request: its reason and, only beside a reason, its actor. */
  predicate AuditSays(req: Request, a: Audit) {
    match a
    case NoAudit => Says(req.reason, None)
    case Audit(reason, actor) => Says(req.reason, Some(reason)) && Says(req.actor, actor)
  }

  lemma CleanSays(text: Option<string>)
    ensures Says(text, Clean(text))
  {
    if text.Some? { TrimmedAway(text.value); }
  }

  lemma RequestedSays(req: Request)
    ensures AuditSays(req, RequestedAudit(req))
  {
    hide Clean;
    CleanSays(req.reason);
    CleanSays(req.actor);
  }

  // ----- refusal -----

  /** The session is closed for good, or closing in other hands, as far as this request may go. */
  predicate TurnedAway(d: Disk, req: Request) {
    match d.status
    case Closed => d.checkpoint == None || !req.resumeClosed
    case Closing => !req.resumeClosing
    case _ => false
  }

  /** A call that is turned away changes nothing; any other that is not cut leaves the session closed, its kits released. */
  lemma CallOutcome(w: World, req: Request, newId: nat)
    requires Inv(w) && newId !in w.issued && KitsFollow(w.disk)
    ensures var later := Replay(w.disk, Plan(w.disk, req, newId));
      if TurnedAway(w.disk, req) then later == w.disk
      else
        && later.status == Closed && later.checkpoint.Some?
        && |Project(later.log, later.checkpoint.value.id)| == later.checkpoint.value.expected + 3
        && forall i | 0 <= i < |later.kits| :: later.kits[i].state == Released
  {
    hide Inv;
    WritesKeepKits(w.disk, Plan(w.disk, req, newId));
    if !Refuses(w.disk, req) { PlanIsLegal(w, req, newId); }
  }

  // ----- the checkpoint -----

  /** The recorded final events are the first ones of this payload. */
  predicate Begins(record: seq<Body>, finals: seq<Json>) {
    |record| <= |finals| + 1 && forall i | 1 <= i < |record| :: record[i] == FinalReview(finals[i - 1])
  }

  /**
   The persisted checkpoint stays when the session is closing or closed, when all its final events are recorded,
   or when some are and the request's payload, of the same length, begins with them.
   */
  predicate KeepsOld(d: Disk, req: Request) {
    && d.checkpoint.Some?
    && var c := d.checkpoint.value;
    var record := Project(d.log, c.id);
    || d.status in {Closing, Closed} || c.expected == 0 || |record| > c.expected
    || (|record| > 1 && |req.finals| == c.expected && Begins(record, req.finals))
  }

  lemma FinalsBegin(record: seq<Body>, s: Script, finals: seq<Json>)
    requires record <= Lines(s) && |record| <= |s.payload|
    ensures FinalsOf(record) <= finals <==> (record != [] ==> Begins(record, finals))
    ensures |FinalsOf(record)| == if record == [] then 0 else |record| - 1
  {
    FinalsOfScript(record, s);
    forall i | 1 <= i < |record| ensures record[i] == FinalReview(FinalsOf(record)[i - 1]) {
      LineAt(s, i);
      assert record[i] == Lines(s)[i];
      assert FinalsOf(record)[i - 1] == s.payload[i - 1];
    }
  }

  lemma CheckpointExactlyWhen(w: World, req: Request, newId: nat)
    requires Inv(w) && newId !in w.issued && !TurnedAway(w.disk, req)
    ensures Replay(w.disk, Plan(w.disk, req, newId)).checkpoint ==
      if KeepsOld(w.disk, req) then w.disk.checkpoint else Some(Checkpoint(newId, |req.finals|))
  {
    PlanIsLegal(w, req, newId);
    ChosenExactlyWhen(w, req, newId);
  }

  lemma ChosenExactlyWhen(w: World, req: Request, newId: nat)
    requires Inv(w) && newId !in w.issued && !TurnedAway(w.disk, req)
    ensures Some(Chosen(w.disk, req, newId)) ==
      if KeepsOld(w.disk, req) then w.disk.checkpoint else Some(Checkpoint(newId, |req.finals|))
  {
    if w.disk.checkpoint.Some? {
      var c := w.disk.checkpoint.value;
      assert Scripted(w, c.id);
      var s :| Follows(w, c.id, s);
      var record := Project(w.disk.log, c.id);
      hide Inv, Lines, FinalsOf, Project;
      if |record| <= c.expected { FinalsBegin(record, s, req.finals); } else { FinalsOfScript(record, s); }
    }
  }

  // ----- the record -----

  /** The lines some writes add to the record of a checkpoint. */
  function Added(ws: seq<Write>, id: nat): seq<Body> {
    if ws == [] then [] else
      var last := ws[|ws| - 1];
      Added(ws[..|ws| - 1], id) + if last.Append? && last.owner == id then [last.body] else []
  }

  lemma {:induction false} RecordGrows(d: Disk, ws: seq<Write>, id: nat)
    ensures Project(Replay(d, ws).log, id) == Project(d.log, id) + Added(ws, id)
  {
    if ws != [] {
      var before, last := Replay(d, ws[..|ws| - 1]), ws[|ws| - 1];
      RecordGrows(d, ws[..|ws| - 1], id);
      if last.Append? { ProjectAppend(before.log, Event(last.body, Some(last.owner)), id); }
    }
  }

  lemma {:induction false} AddedConcat(a: seq<Write>, b: seq<Write>, id: nat)
    ensures Added(a + b, id) == Added(a, id) + Added(b, id)
  {
    if b == [] {
      assert a + b == a;
    } else {
      assert (a + b)[..|a + b| - 1] == a + b[..|b| - 1];
      AddedConcat(a, b[..|b| - 1], id);
    }
  }

  lemma {:induction false} FinalsAdded(finals: seq<Json>, id: nat)
    ensures Added(Appends(finals, id), id) == Finals(finals)
  {
    if finals == [] {
      assert Finals(finals) == [];
    } else {
      var n := |finals| - 1;
      FinalsAdded(finals[..n], id);
      AppendsSnoc(finals, id);
      assert Finals(finals) == Finals(finals[..n]) + [FinalReview(finals[n])];
    }
  }

  lemma PlanParts(d: Disk, req: Request, newId: nat)
    requires !Refuses(d, req) && !GivesUp(d, req, Chosen(d, req, newId))
    ensures var c := Chosen(d, req, newId);
      Plan(d, req, newId) == CheckpointWrites(d, c) + ClosingWrites(d, req, c) + (MissingFinals(d, req, c) + Marks(d)
        + Tail(Project(d.log, c.id), AuditOf(d, req, c), KitIds(d.kits), c.id))
  {
    hide Chosen, CheckpointWrites, ClosingWrites, MissingFinals, Marks, Tail;
  }

  /** What a call adds before the final two lines: a sessionClosing unless there is one, and the missing final events. */
  lemma PlanAdds(d: Disk, req: Request, newId: nat) returns (tail: seq<Body>)
    requires !Refuses(d, req) && !GivesUp(d, req, Chosen(d, req, newId))
    ensures var c := Chosen(d, req, newId);
      var have := |FinalsOf(Project(d.log, c.id))|;
      Added(Plan(d, req, newId), c.id) ==
        (if d.status != Closed && ClosingAudit(Project(d.log, c.id)).None?
         then [SessionClosing(|req.finals|, RequestedAudit(req))] else [])
        + (if d.status != Closed && have < c.expected then Finals(req.finals[have..c.expected]) else [])
        + tail
  {
    hide Chosen, Refuses, RequestedAudit, ClosingAudit, Project, FinalsOf, Tail, AuditOf, KitIds, Plan, GivesUp,
         CheckpointWrites, ClosingWrites, MissingFinals, Marks, Finals, Added;
    var c := Chosen(d, req, newId);
    var a, b, f, m := CheckpointWrites(d, c), ClosingWrites(d, req, c), MissingFinals(d, req, c), Marks(d);
    var t := Tail(Project(d.log, c.id), AuditOf(d, req, c), KitIds(d.kits), c.id);
    tail := Added(t, c.id);
    PlanParts(d, req, newId);
    AddedConcat(a + b, f + m + t, c.id);
    AddedConcat(a, b, c.id);
    AddedConcat(f + m, t, c.id);
    AddedConcat(f, m, c.id);
    OpeningAdds(d, req, c);
    MissingAdds(d, req, c);
  }

  lemma MissingAdds(d: Disk, req: Request, c: Checkpoint)
    requires !GivesUp(d, req, c)
    ensures var have := |FinalsOf(Project(d.log, c.id))|;
      Added(MissingFinals(d, req, c), c.id) ==
        if d.status != Closed && have < c.expected then Finals(req.finals[have..c.expected]) else []
  {
    hide Project, FinalsOf, Finals;
    var have := |FinalsOf(Project(d.log, c.id))|;
    if d.status != Closed && have < c.expected { FinalsAdded(req.finals[have..c.expected], c.id); }
  }

  lemma OpeningAdds(d: Disk, req: Request, c: Checkpoint)
    ensures Added(CheckpointWrites(d, c), c.id) == [] && Added(Marks(d), c.id) == [] && Added([], c.id) == []
    ensures Added(ClosingWrites(d, req, c), c.id) ==
      if d.status != Closed && ClosingAudit(Project(d.log, c.id)).None?
      then [SessionClosing(|req.finals|, RequestedAudit(req))] else []
  {
    hide Project, ClosingAudit, RequestedAudit;
    assert forall x: Write :: [x][..0] == [];
    assert [MarkClosing, MarkClosed][..1] == [MarkClosing];
  }

  /** The complete record a call leaves, line by line, over what it found of its checkpoint. */
  predicate Records(d: Disk, req: Request, found: seq<Body>, n: nat, record: seq<Body>) {
    && |record| == n + 3 && found <= record
    && record[0].SessionClosing?
    && (found == [] ==> record[0].announced == |req.finals| && AuditSays(req, record[0].audit))
    && (forall i | 1 <= i <= n && |found| <= i :: i <= |req.finals| && record[i] == FinalReview(req.finals[i - 1]))
    && record[n + 1] == SessionClosed(record[0].audit)
    && record[n + 2] == KitReleased(KitIds(d.kits))
  }

  lemma CompleteRecord(w: World, c: Checkpoint)
    requires Complete(w, c)
    ensures var record, n := Project(w.disk.log, c.id), c.expected;
      && |record| == n + 3 && record[0].SessionClosing?
      && record[n + 1] == SessionClosed(record[0].audit) && record[n + 2] == KitReleased(KitIds(w.disk.kits))
  {
    assert Scripted(w, c.id);
    var s :| Follows(w, c.id, s);
    ScriptShape(Project(w.disk.log, c.id), s);
  }

  function Before(found: seq<Body>): nat { if found == [] then 0 else |found| - 1 }

  /** How far the record goes that a call finds of its checkpoint. */
  lemma FoundShape(w: World, d: Disk, req: Request, c: Checkpoint)
    requires Chose(w, d, req, c)
    ensures var found := Project(d.log, c.id);
      && (found == [] <==> ClosingAudit(found).None?)
      && (|found| <= c.expected ==> |FinalsOf(found)| == Before(found) && d.status != Closed)
      && (|found| > c.expected ==> |FinalsOf(found)| == c.expected)
      && (found == [] ==> d.status != Closed)
      && (|FinalsOf(found)| < c.expected ==> |req.finals| == c.expected)
  {
    ChosenRecord(w, d, req, c);
    assert Scripted(w, c.id);
    var s :| Follows(w, c.id, s);
    FinalsOfScript(Project(d.log, c.id), s);
  }

  /** The lines a call writes, in their places. */
  lemma RecordLines(d: Disk, req: Request, found: seq<Body>, n: nat, record: seq<Body>, tail: seq<Body>)
    requires |record| == n + 3 && record[0].SessionClosing?
    requires record[n + 1] == SessionClosed(record[0].audit) && record[n + 2] == KitReleased(KitIds(d.kits))
    requires Before(found) < n ==> |req.finals| == n
    requires record == found
      + (if found == [] then [SessionClosing(|req.finals|, RequestedAudit(req))] else [])
      + (if Before(found) < n then Finals(req.finals[Before(found)..n]) else []) + tail
    ensures Records(d, req, found, n, record)
  {
    RequestedSays(req);
    hide RequestedAudit, AuditSays, KitIds;
    var closing := if found == [] then [SessionClosing(|req.finals|, RequestedAudit(req))] else [];
    var finals := if Before(found) < n then Finals(req.finals[Before(found)..n]) else [];
    assert found <= record;
    if found == [] { assert record[0] == closing[0]; }
    forall i | 1 <= i <= n && |found| <= i ensures i <= |req.finals| && record[i] == FinalReview(req.finals[i - 1]) {
      var at := |found + closing|;
      assert record[i] == finals[i - at];
      assert finals[i - at] == FinalReview(req.finals[Before(found)..n][i - at]);
    }
  }

  /**
   The record of a call that is not cut: the lines found, the sessionClosing of its own request unless one was
   found, the final events of its own payload that were missing, then the two closing lines.
   */
  lemma RecordOfCall(w: World, req: Request, newId: nat)
    requires Inv(w) && newId !in w.issued && !TurnedAway(w.disk, req)
    ensures var later := Replay(w.disk, Plan(w.disk, req, newId));
      && later.checkpoint.Some?
      && var c := later.checkpoint.value;
      Records(w.disk, req, Project(w.disk.log, c.id), c.expected, Project(later.log, c.id))
  {
    hide Chosen, Plan, Inv, Project, Chose, CheckpointWrites, Records, Legal, GivesUp, Refuses, Replay, FinalsOf, ClosingAudit, KitIds;
    var c, plan := Chosen(w.disk, req, newId), Plan(w.disk, req, newId);
    NotRefused(w.disk, req);
    PlanIsLegal(w, req, newId);
    ChoiceIsLegal(w, req, newId);
    FoundShape(PerformAll(Begin(w, req), CheckpointWrites(w.disk, c)), w.disk, req, c);
    CompleteRecord(PerformAll(Begin(w, req), plan), c);
    RecordIsPrefix(Begin(w, req), plan, c.id);
    RecordIsWritten(w.disk, req, newId);
  }

  lemma NotRefused(d: Disk, req: Request)
    ensures Refuses(d, req) <==> TurnedAway(d, req)
  {
  }

  lemma RecordIsWritten(d: Disk, req: Request, newId: nat)
    requires !Refuses(d, req) && !GivesUp(d, req, Chosen(d, req, newId))
    requires var c := Chosen(d, req, newId);
      var later, found := Replay(d, Plan(d, req, newId)), Project(d.log, c.id);
      var record, n := Project(later.log, c.id), c.expected;
      && (found == [] <==> ClosingAudit(found).None?) && (found == [] ==> d.status != Closed)
      && (|found| <= n ==> |FinalsOf(found)| == Before(found) && d.status != Closed)
      && (|found| > n ==> |FinalsOf(found)| == n)
      && (|FinalsOf(found)| < n ==> |req.finals| == n)
      && |record| == n + 3 && record[0].SessionClosing?
      && record[n + 1] == SessionClosed(record[0].audit) && record[n + 2] == KitReleased(KitIds(d.kits))
    ensures var c := Chosen(d, req, newId);
      Records(d, req, Project(d.log, c.id), c.expected, Project(Replay(d, Plan(d, req, newId)).log, c.id))
  {
    hide Chosen, Plan, Project, RequestedAudit, FinalsOf, ClosingAudit, Refuses, GivesUp, Replay, KitIds, Records;
    var c, plan := Chosen(d, req, newId), Plan(d, req, newId);
    var tail := PlanAdds(d, req, newId);
    RecordGrows(d, plan, c.id);
    RecordLines(d, req, Project(d.log, c.id), c.expected, Project(Replay(d, plan).log, c.id), tail);
  }

  /** A recovery asks with no payload, may resume whatever it finds, and repeats the audit on record. */
  lemma RecoveryAsks(w: World)
    requires Inv(w) && Recoverable(w.disk)
    ensures var record, req := Project(w.disk.log, w.disk.checkpoint.value.id), RecoveryRequest(w.disk);
      && record != [] && record[0].SessionClosing?
      && req.finals == [] && req.resumeClosing && req.resumeClosed
      && (record[0].audit == NoAudit ==> req.reason == None && req.actor == None)
      && (record[0].audit.Audit? ==> req.reason == Some(record[0].audit.reason) && req.actor == record[0].audit.actor)
  {
    RequestOfRecord(w);
    hide Inv, Project, Recoverable, ClosingAudit;
  }
}
