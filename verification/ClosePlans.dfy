/** Every write of a close call is one the protocol allows, whatever the call finds on disk. */
module ClosePlans {
  import opened Options
  import opened Text
  import opened CloseProtocol

  /** Each write of `ws`, performed in order from `w`, is allowed when its turn comes. */
  ghost predicate Legal(w: World, ws: seq<Write>) {
    ws != [] ==> Legal(w, ws[..|ws| - 1]) && Allowed(PerformAll(w, ws[..|ws| - 1]), ws[|ws| - 1])
  }

  lemma {:induction false} PerformAllConcat(w: World, a: seq<Write>, b: seq<Write>)
    ensures PerformAll(w, a + b) == PerformAll(PerformAll(w, a), b)
  {
    if b == [] {
      assert a + b == a;
    } else {
      assert (a + b)[..|a + b| - 1] == a + b[..|b| - 1];
      PerformAllConcat(w, a, b[..|b| - 1]);
    }
  }

  lemma {:induction false} LegalConcat(w: World, a: seq<Write>, b: seq<Write>)
    requires Legal(w, a) && Legal(PerformAll(w, a), b)
    ensures Legal(w, a + b)
  {
    if b == [] {
      assert a + b == a;
    } else {
      assert (a + b)[..|a + b| - 1] == a + b[..|b| - 1];
      LegalConcat(w, a, b[..|b| - 1]);
      PerformAllConcat(w, a, b[..|b| - 1]);
    }
  }

  /** Wherever a legal sequence of writes is cut, the invariant holds. */
  lemma {:induction false} CutKeepsInv(w: World, ws: seq<Write>, k: nat)
    requires Inv(w) && Legal(w, ws) && k <= |ws|
    ensures Inv(PerformAll(w, ws[..k]))
    decreases |ws|
  {
    if k < |ws| {
      assert ws[..|ws| - 1][..k] == ws[..k];
      CutKeepsInv(w, ws[..|ws| - 1], k);
    } else if ws != [] {
      assert ws[..k] == ws && ws[..k - 1][..k - 1] == ws[..k - 1];
      CutKeepsInv(w, ws[..k - 1], k - 1);
      AllowedKeepsInv(PerformAll(w, ws[..k - 1]), ws[k - 1]);
    }
  }

  /** The final events recorded so far are a prefix of the script's payload. */
  lemma {:induction false} FinalsOfScript(p: seq<Body>, s: Script)
    requires p <= Lines(s)
    ensures FinalsOf(p) == if p == [] then [] else s.payload[..Min(|p| - 1, |s.payload|)]
    ensures p != [] ==> ClosingAudit(p) == Some(s.audit) && p[0] == SessionClosing(s.announced, s.audit)
    ensures HasClosed(p) <==> |p| >= |s.payload| + 2
    ensures HasReleased(p) <==> |p| == |s.payload| + 3
  {
    if p != [] {
      var n := |p| - 1;
      FinalsOfScript(p[..n], s);
      assert p[n] == Lines(s)[n];
      assert 0 < n <= |s.payload| ==> p[n] == FinalReview(s.payload[n - 1]);
      assert |p| > |s.payload| + 1 ==> p[|s.payload| + 1] == SessionClosed(s.audit);
    }
  }

  lemma OneIsLegal(w: World, write: Write)
    requires Allowed(w, write)
    ensures Legal(w, [write]) && PerformAll(w, [write]) == Perform(w, write)
  {
    assert [write][..0] == [];
  }

  lemma AppendOne(w: World, b: Body, id: nat)
    requires Inv(w) && Allowed(w, Append(b, id))
    ensures var later := PerformAll(w, [Append(b, id)]);
      && Legal(w, [Append(b, id)]) && Inv(later) && later.issued == w.issued
      && later.disk == w.disk.(log := later.disk.log)
      && Project(later.disk.log, id) == Project(w.disk.log, id) + [b]
  {
    OneIsLegal(w, Append(b, id));
    ProjectAfter(w, b, id);
    AppendKeepsInv(w, b, id);
  }

  /** The world once a call's payload has reached the coordinator. */
  function Begin(w: World, req: Request): World { w.(calls := w.calls + {req.finals}) }

  lemma BeginKeepsInv(w: World, req: Request)
    requires Inv(w)
    ensures Inv(Begin(w, req))
  {
    forall id | id in w.issued ensures Scripted(Begin(w, req), id) {
      assert Scripted(w, id);
      var s :| Follows(w, id, s);
      assert Follows(Begin(w, req), id, s);
    }
  }

  lemma CleanIsNonempty(text: Option<string>)
    ensures Clean(text).Some? ==> Clean(text).value != ""
  {
  }

  lemma LegalSnoc(w: World, ws: seq<Write>, x: Write)
    requires Legal(w, ws) && Allowed(PerformAll(w, ws), x)
    ensures Legal(w, ws + [x]) && PerformAll(w, ws + [x]) == Perform(PerformAll(w, ws), x)
  {
    assert (ws + [x])[..|ws|] == ws;
  }

  lemma NoneIsLegal(w: World)
    ensures Legal(w, []) && PerformAll(w, []) == w
  {
  }

  /** What holds once the checkpoint and its sessionClosing are on disk. */
  ghost predicate Prepared(w: World, d: Disk, req: Request, c: Checkpoint) {
    && Inv(w)
    && w.disk.checkpoint == Some(c) && w.disk.status == d.status && w.disk.kits == d.kits
    && c.id in w.issued && req.finals in w.calls
    && var p := Project(d.log, c.id);
    && var grown := Project(w.disk.log, c.id);
    && |grown| > 0
    && (d.status == Closed ==> grown == p)
    && grown == (if p == [] then [SessionClosing(|req.finals|, RequestedAudit(req))] else p)
    && grown[0].SessionClosing? && grown[0].audit == AuditOf(d, req, c)
    && (|FinalsOf(p)| < c.expected ==> |req.finals| == c.expected && FinalsOf(p) <= req.finals)
  }

  /** What holds once the call's checkpoint is on disk. */
  ghost predicate Chose(w: World, d: Disk, req: Request, c: Checkpoint) {
    && Inv(w)
    && w.disk == d.(checkpoint := Some(c))
    && c.id in w.issued && req.finals in w.calls
    && var kept := FinalsOf(Project(d.log, c.id));
    && (|kept| < c.expected ==> d.status != Closing && d.status != Closed && PayloadMatchesOrNew(kept, c.expected, req.finals))
  }

  predicate PayloadMatchesOrNew(kept: seq<Json>, expected: nat, finals: seq<Json>) {
    |finals| == expected && kept <= finals
  }

  lemma ChoiceIsLegal(w: World, req: Request, newId: nat)
    requires Inv(w) && newId !in w.issued && !Refuses(w.disk, req)
    ensures var c := Chosen(w.disk, req, newId);
      var ws := CheckpointWrites(w.disk, c);
      Legal(Begin(w, req), ws) && Chose(PerformAll(Begin(w, req), ws), w.disk, req, c)
  {
    var d, c, w1 := w.disk, Chosen(w.disk, req, newId), Begin(w, req);
    var p := Project(d.log, c.id);
    BeginKeepsInv(w, req);
    if IsCurrent(d, c.id) {
      NoneIsLegal(w1);
      assert Scripted(w, c.id);
      var s :| Follows(w, c.id, s);
      FinalsOfScript(p, s);
    } else {
      assert c == Checkpoint(newId, |req.finals|) && p == [];
      assert req.finals in w1.calls;
      OneIsLegal(w1, SetCheckpoint(c));
      MarkKeepsInv(w1, SetCheckpoint(c));
    }
  }

  /** What the record of the call's checkpoint looks like before the call adds to it. */
  lemma ChosenRecord(w: World, d: Disk, req: Request, c: Checkpoint)
    requires Chose(w, d, req, c)
    ensures var p := Project(d.log, c.id);
      && (p == [] ==> ClosingAudit(p).None? && d.status != Closed)
      && (p != [] ==> p[0].SessionClosing? && Normal(p[0].audit) && ClosingAudit(p) == Some(p[0].audit))
      && (|FinalsOf(p)| < c.expected ==> |req.finals| == c.expected && FinalsOf(p) <= req.finals)
  {
    assert Scripted(w, c.id);
    var s :| Follows(w, c.id, s);
    FinalsOfScript(Project(d.log, c.id), s);
  }

  lemma RequestedIsNormal(req: Request)
    ensures Normal(RequestedAudit(req))
  {
    CleanIsNonempty(req.reason);
    CleanIsNonempty(req.actor);
  }

  lemma ClosingIsLegal(w: World, d: Disk, req: Request, c: Checkpoint)
    requires Chose(w, d, req, c)
    ensures var ws := ClosingWrites(d, req, c);
      Legal(w, ws) && Prepared(PerformAll(w, ws), d, req, c)
  {
    ChosenRecord(w, d, req, c);
    RequestedIsNormal(req);
    hide Inv, Legal, FinalsOf, RequestedAudit, ClosingAudit, Normal, PerformAll;
    if Project(d.log, c.id) == [] {
      AppendOne(w, SessionClosing(|req.finals|, RequestedAudit(req)), c.id);
    } else {
      NoneIsLegal(w);
    }
  }

  /** From `w` to `later`, exactly the final events `finals[have..have + k]` were recorded. */
  ghost predicate Recorded(w: World, later: World, finals: seq<Json>, c: Checkpoint, have: nat, k: nat) {
    && Inv(later)
    && have + k <= c.expected == |finals| && finals in later.calls
    && later.disk == w.disk.(log := later.disk.log) && later.disk.checkpoint == Some(c)
    && later.issued == w.issued && c.id in w.issued
    && Project(later.disk.log, c.id) == Project(w.disk.log, c.id) + Finals(finals[have..have + k])
  }

  /** Recording starts after a sessionClosing and `have` final events, all of them from `finals`. */
  ghost predicate CanRecord(w: World, finals: seq<Json>, c: Checkpoint, have: nat) {
    && Recorded(w, w, finals, c, have, 0)
    && |Project(w.disk.log, c.id)| == have + 1
    && FinalsOf(Project(w.disk.log, c.id)) <= finals
  }

  /** The lines of a script one by one, up to its last final event. */
  lemma LineAt(s: Script, i: nat)
    requires i <= |s.payload|
    ensures Lines(s)[i] == if i == 0 then SessionClosing(s.announced, s.audit) else FinalReview(s.payload[i - 1])
  {
  }

  /** A record that agrees with `finals` so far goes on to follow the script with that payload. */
  lemma SwitchPayload(p: seq<Body>, s: Script, finals: seq<Json>, q: seq<Body>)
    requires 0 < |p| <= |q| <= |finals| + 1 && |s.payload| == |finals|
    requires p <= Lines(s) && p == q[..|p|]
    requires forall i | 0 <= i < |p| - 1 :: s.payload[i] == finals[i]
    requires forall i | |p| <= i < |q| :: q[i] == FinalReview(finals[i - 1])
    ensures q <= Lines(s.(payload := finals))
  {
    var t := s.(payload := finals);
    forall i | 0 <= i < |q| ensures q[i] == Lines(t)[i] {
      LineAt(t, i);
      if i < |p| { LineAt(s, i); }
    }
  }

  lemma FinalIsAllowed(w: World, later: World, finals: seq<Json>, c: Checkpoint, have: nat, k: nat)
    requires CanRecord(w, finals, c, have) && Recorded(w, later, finals, c, have, k) && have + k < c.expected
    ensures Allowed(later, Append(FinalReview(finals[have + k]), c.id))
  {
    hide Lines;
    var p, q := Project(w.disk.log, c.id), Project(later.disk.log, c.id);
    assert Scripted(w, c.id);
    var s :| Follows(w, c.id, s);
    FinalsOfScript(p, s);
    forall i | 0 <= i < have ensures s.payload[i] == finals[i] {
      assert s.payload[i] == s.payload[..have][i];
    }
    hide FinalsOf;
    SwitchPayload(p, s, finals, q);
    var t := s.(payload := finals);
    assert Follows(later, c.id, t) && ExtendedBy(later, c.id, t, finals[have + k]);
  }

  lemma FinalIsRecorded(w: World, later: World, finals: seq<Json>, c: Checkpoint, have: nat, k: nat)
    requires CanRecord(w, finals, c, have) && Recorded(w, later, finals, c, have, k) && have + k < c.expected
    ensures Allowed(later, Append(FinalReview(finals[have + k]), c.id))
    ensures Recorded(w, Perform(later, Append(FinalReview(finals[have + k]), c.id)), finals, c, have, k + 1)
  {
    hide Inv, Allowed, FinalsOf;
    var b := FinalReview(finals[have + k]);
    FinalIsAllowed(w, later, finals, c, have, k);
    ProjectAfter(later, b, c.id);
    AppendKeepsInv(later, b, c.id);
    assert Finals(finals[have..have + k + 1]) == Finals(finals[have..have + k]) + [b];
  }

  lemma AppendsSnoc(finals: seq<Json>, id: nat)
    requires finals != []
    ensures Appends(finals, id) ==
      Appends(finals[..|finals| - 1], id) + [Append(FinalReview(finals[|finals| - 1]), id)]
  {
  }

  /** The final events of this call, appended after the `have` ones already recorded. */
  lemma {:induction false} FinalsAreLegal(w: World, finals: seq<Json>, c: Checkpoint, have: nat, k: nat)
    requires CanRecord(w, finals, c, have) && have + k <= c.expected == |finals|
    ensures var ws := Appends(finals[have..have + k], c.id);
      Legal(w, ws) && Recorded(w, PerformAll(w, ws), finals, c, have, k)
  {
    hide Inv, Allowed, Recorded, Project, FinalsOf, PerformAll;
    if k == 0 {
      NoneIsLegal(w);
    } else {
      var mine := finals[have..have + k];
      assert mine[..k - 1] == finals[have..have + k - 1];
      AppendsSnoc(mine, c.id);
      var before, x := Appends(mine[..k - 1], c.id), Append(FinalReview(mine[k - 1]), c.id);
      FinalsAreLegal(w, finals, c, have, k - 1);
      FinalIsRecorded(w, PerformAll(w, before), finals, c, have, k - 1);
      LegalSnoc(w, before, x);
    }
  }

  /** Every final event is on record, under the audit the tail will repeat. */
  ghost predicate Filled(w: World, d: Disk, req: Request, c: Checkpoint) {
    && Inv(w)
    && w.disk.checkpoint == Some(c) && w.disk.kits == d.kits && c.id in w.issued
    && var p, grown := Project(d.log, c.id), Project(w.disk.log, c.id);
    && |grown| > c.expected && grown[0].SessionClosing? && grown[0].audit == AuditOf(d, req, c)
    && (if d.status == Closed then grown == p else |p| <= |grown| == c.expected + 1)
  }

  /** How far the record reaches before and after the sessionClosing, in final events. */
  lemma PreparedRecord(w: World, d: Disk, req: Request, c: Checkpoint)
    requires Prepared(w, d, req, c)
    ensures var p, grown := Project(d.log, c.id), Project(w.disk.log, c.id);
      && FinalsOf(grown) == FinalsOf(p) && |p| <= |grown|
      && (|FinalsOf(p)| < c.expected ==> |grown| == |FinalsOf(p)| + 1 && d.status != Closed)
      && (|FinalsOf(p)| >= c.expected ==> |grown| > c.expected)
      && (d.status != Closed ==> |grown| <= c.expected + 1)
  {
    var p, grown := Project(d.log, c.id), Project(w.disk.log, c.id);
    assert Scripted(w, c.id);
    var s :| Follows(w, c.id, s);
    FinalsOfScript(grown, s);
    if p == [] { assert grown[..0] == []; }
  }

  lemma MissingFinalsAreLegal(w: World, d: Disk, req: Request, c: Checkpoint)
    requires Prepared(w, d, req, c)
    ensures !GivesUp(d, req, c)
    ensures var ws := MissingFinals(d, req, c);
      Legal(w, ws) && Filled(PerformAll(w, ws), d, req, c) && PerformAll(w, ws).disk.status == d.status
  {
    hide Inv, Allowed, Legal, Project, FinalsOf, AuditOf;
    var have := |FinalsOf(Project(d.log, c.id))|;
    PreparedRecord(w, d, req, c);
    assert Finals(req.finals[..0]) == [];
    if have < c.expected {
      assert req.finals[have..have] == req.finals[..0];
      FinalsAreLegal(w, req.finals, c, have, c.expected - have);
    } else {
      NoneIsLegal(w);
    }
  }

  lemma MarksAreLegal(w: World, d: Disk, req: Request, c: Checkpoint)
    requires Filled(w, d, req, c) && w.disk.status == d.status
    ensures var later := PerformAll(w, Marks(d));
      && Legal(w, Marks(d)) && Inv(later) && later.issued == w.issued
      && later.disk.status == Closed && later.disk.log == w.disk.log && later.disk.checkpoint == Some(c)
      && KitIds(later.disk.kits) == KitIds(d.kits)
  {
    if d.status == Closed {
      NoneIsLegal(w);
    } else {
      assert KitIds(Drain(d.kits)) == KitIds(d.kits);
      var a := if d.status == Closing then [] else [MarkClosing];
      if a == [] { NoneIsLegal(w); } else { OneIsLegal(w, MarkClosing); MarkKeepsInv(w, MarkClosing); }
      var later := PerformAll(w, a);
      assert KitIds(Release(later.disk.kits)) == KitIds(later.disk.kits);
      OneIsLegal(later, MarkClosed);
      MarkKeepsInv(later, MarkClosed);
      assert Marks(d) == a + [MarkClosed];
      LegalConcat(w, a, [MarkClosed]);
      PerformAllConcat(w, a, [MarkClosed]);
    }
  }

  /** A closed session whose record of checkpoint `c` has reached position `n`. */
  ghost predicate ClosedAt(w: World, c: Checkpoint, n: nat) {
    && Inv(w) && w.disk.status == Closed && w.disk.checkpoint == Some(c)
    && c.id in w.issued && |Project(w.disk.log, c.id)| == n
  }

  /** The session is closed and its checkpoint's record is complete. */
  ghost predicate Complete(w: World, c: Checkpoint) { ClosedAt(w, c, c.expected + 3) }

  lemma ReleaseIsLegal(w: World, c: Checkpoint)
    requires ClosedAt(w, c, c.expected + 2)
    ensures var ws := [Append(KitReleased(KitIds(w.disk.kits)), c.id)];
      Legal(w, ws) && Complete(PerformAll(w, ws), c)
  {
    AppendOne(w, KitReleased(KitIds(w.disk.kits)), c.id);
  }

  lemma ClosedIsLegal(w: World, audit: Audit, c: Checkpoint)
    requires ClosedAt(w, c, c.expected + 1)
    requires Project(w.disk.log, c.id)[0].SessionClosing? && Project(w.disk.log, c.id)[0].audit == audit
    ensures var ws := [Append(SessionClosed(audit), c.id), Append(KitReleased(KitIds(w.disk.kits)), c.id)];
      Legal(w, ws) && Complete(PerformAll(w, ws), c)
  {
    AppendOne(w, SessionClosed(audit), c.id);
    var a, b := [Append(SessionClosed(audit), c.id)], [Append(KitReleased(KitIds(w.disk.kits)), c.id)];
    ReleaseIsLegal(PerformAll(w, a), c);
    LegalConcat(w, a, b);
    PerformAllConcat(w, a, b);
    assert a + b == [Append(SessionClosed(audit), c.id), Append(KitReleased(KitIds(w.disk.kits)), c.id)];
  }

  lemma TailIsLegal(w: World, p: seq<Body>, audit: Audit, c: Checkpoint)
    requires ClosedAt(w, c, |Project(w.disk.log, c.id)|)
    requires p <= Project(w.disk.log, c.id) && |Project(w.disk.log, c.id)| == if |p| <= c.expected then c.expected + 1 else |p|
    requires Project(w.disk.log, c.id)[0].SessionClosing? && Project(w.disk.log, c.id)[0].audit == audit
    ensures var ws := Tail(p, audit, KitIds(w.disk.kits), c.id);
      Legal(w, ws) && Complete(PerformAll(w, ws), c)
  {
    assert Scripted(w, c.id);
    var s :| Follows(w, c.id, s);
    FinalsOfScript(p, s);
    if |p| <= c.expected + 1 {
      ClosedIsLegal(w, audit, c);
    } else if |p| == c.expected + 2 {
      ReleaseIsLegal(w, c);
    } else {
      NoneIsLegal(w);
    }
  }

  /**
   Main result for one call: every write is allowed, the call never gives up for lack of a payload,
   and when it is not cut it leaves the session closed with the complete record of its checkpoint.
   */
  lemma PlanIsLegal(w: World, req: Request, newId: nat)
    requires Inv(w) && newId !in w.issued && !Refuses(w.disk, req)
    ensures !GivesUp(w.disk, req, Chosen(w.disk, req, newId))
    ensures Legal(Begin(w, req), Plan(w.disk, req, newId))
    ensures Complete(PerformAll(Begin(w, req), Plan(w.disk, req, newId)), Chosen(w.disk, req, newId))
  {
    hide Inv, Allowed, Legal;
    var d, c, w1 := w.disk, Chosen(w.disk, req, newId), Begin(w, req);
    var a, b := CheckpointWrites(d, c), ClosingWrites(d, req, c);
    ChoiceIsLegal(w, req, newId);
    var w2 := PerformAll(w1, a);
    ClosingIsLegal(w2, d, req, c);
    LegalConcat(w1, a, b);
    PerformAllConcat(w1, a, b);
    var w3 := PerformAll(w2, b);
    MissingFinalsAreLegal(w3, d, req, c);
    FinishIsLegal(w3, d, req, c);
    LegalConcat(w1, a + b, Finish(d, req, c));
    PerformAllConcat(w1, a + b, Finish(d, req, c));
  }

  lemma FinishIsLegal(w: World, d: Disk, req: Request, c: Checkpoint)
    requires Prepared(w, d, req, c) && !GivesUp(d, req, c)
    ensures Legal(w, Finish(d, req, c)) && Complete(PerformAll(w, Finish(d, req, c)), c)
  {
    var a, b := MissingFinals(d, req, c), Marks(d);
    var p := Project(d.log, c.id);
    MissingFinalsAreLegal(w, d, req, c);
    var w1 := PerformAll(w, a);
    MarksAreLegal(w1, d, req, c);
    LegalConcat(w, a, b);
    PerformAllConcat(w, a, b);
    var w2 := PerformAll(w1, b);
    RecordIsPrefix(w, a, c.id);
    var t := Tail(p, AuditOf(d, req, c), KitIds(d.kits), c.id);
    TailIsLegal(w2, p, AuditOf(d, req, c), c);
    LegalConcat(w, a + b, t);
    PerformAllConcat(w, a + b, t);
  }

  /** Writes only ever extend the record of a checkpoint. */
  lemma {:induction false} RecordIsPrefix(w: World, ws: seq<Write>, id: nat)
    ensures Project(w.disk.log, id) <= Project(PerformAll(w, ws).disk.log, id)
    ensures KitIds(PerformAll(w, ws).disk.kits) == KitIds(w.disk.kits)
  {
    if ws != [] {
      var later, x := PerformAll(w, ws[..|ws| - 1]), ws[|ws| - 1];
      RecordIsPrefix(w, ws[..|ws| - 1], id);
      assert KitIds(Drain(later.disk.kits)) == KitIds(later.disk.kits) == KitIds(Release(later.disk.kits));
      if x.Append? { ProjectAppend(later.disk.log, Event(x.body, Some(x.owner)), id); }
    }
  }
}
