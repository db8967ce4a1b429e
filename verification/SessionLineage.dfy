/** The lookup of an intake job along recreated sessions, and why a permitted purge cannot disturb it. */
module SessionLineage {
  import opened Options

  datatype Status = Created | Active | Closing | Closed | Failed

  datatype Session = Session(tenant: string, project: string, version: string, status: Status, recreatedFrom: Option<string>)

  datatype Job = Job(session: Option<string>, tenant: string, project: string, version: string, updatedAt: int)

  /** The stored sessions; a session id is never empty. */
  type Sessions = m: map<string, Session> | "" !in m

  const MAX_DEPTH := 32
  const MAX_HOPS := 32

  /** The id a link leads to; an empty one leads nowhere. */
  function Link(id: Option<string>): Option<string> { if id == Some("") then None else id }

  function Parent(sessions: Sessions, id: string): Option<string> {
    if id in sessions then Link(sessions[id].recreatedFrom) else None
  }

  /** The ancestor a number of links away. */
  function Ancestor(sessions: Sessions, id: string, n: nat): Option<string> {
    if n == 0 then Link(Some(id)) else
      var before := Ancestor(sessions, id, n - 1);
      if before.None? then None else Parent(sessions, before.value)
  }

  predicate Agree(a: Session, b: Session) { a.tenant == b.tenant && a.project == b.project && a.version == b.version }

  predicate JobAgrees(j: Job, s: Session) { j.tenant == s.tenant && j.project == s.project && j.version == s.version }

  /** The head of the jobs of a session after a stable sort, newest first. */
  function Latest(jobs: seq<Job>, id: string): (r: Option<Job>)
    ensures r.None? <==> forall j | j in jobs :: j.session != Some(id)
    ensures r.Some? ==> r.value in jobs && r.value.session == Some(id)
    ensures r.Some? ==> forall j | j in jobs && j.session == Some(id) :: j.updatedAt <= r.value.updatedAt
  {
    if jobs == [] then None else
      var before, last := Latest(jobs[..|jobs| - 1], id), jobs[|jobs| - 1];
      assert jobs == jobs[..|jobs| - 1] + [last];
      if last.session == Some(id) && (before.None? || last.updatedAt > before.value.updatedAt) then Some(last) else before
  }

  /** Of jobs equally new, the latest is the one listed first. */
  lemma {:induction false} LatestIsFirst(jobs: seq<Job>, id: string)
    requires Latest(jobs, id).Some?
    ensures exists i :: (
      && 0 <= i < |jobs| && jobs[i] == Latest(jobs, id).value
      && forall j | 0 <= j < i && jobs[j].session == Some(id) :: jobs[j].updatedAt < jobs[i].updatedAt)
  {
    var n := |jobs| - 1;
    var before := Latest(jobs[..n], id);
    if before.Some? && Latest(jobs, id) == before {
      LatestIsFirst(jobs[..n], id);
      var i :| 0 <= i < n && jobs[..n][i] == before.value
        && forall j | 0 <= j < i && jobs[..n][j].session == Some(id) :: jobs[..n][j].updatedAt < jobs[..n][i].updatedAt;
      assert forall j | 0 <= j < n :: jobs[..n][j] == jobs[j];
    } else {
      assert forall j | 0 <= j < n :: jobs[..n][j] == jobs[j] && jobs[j] in jobs[..n];
      assert jobs[n] == Latest(jobs, id).value;
    }
  }

  // ----- the lookup -----

  /** The lookup without a visited set: up the links until a session with a job, at most so many sessions. */
  function Walk(sessions: Sessions, jobs: seq<Job>, requested: Session, current: Option<string>, depth: nat): Option<Job>
    decreases MAX_DEPTH - depth
  {
    if current.None? || depth >= MAX_DEPTH then None
    else if current.value !in sessions || !Agree(sessions[current.value], requested) then None
    else
      var linked := Latest(jobs, current.value);
      if linked.Some? then (if JobAgrees(linked.value, requested) then linked else None)
      else Walk(sessions, jobs, requested, Parent(sessions, current.value), depth + 1)
  }

  function Lookup(sessions: Sessions, jobs: seq<Job>, id: string): Option<Job> {
    if id !in sessions then None else Walk(sessions, jobs, sessions[id], Link(Some(id)), 0)
  }

  /** Sessions without a job whose links stay among them yield nothing, from any of them. */
  lemma {:induction false} NothingInACycle(
      sessions: Sessions, jobs: seq<Job>, requested: Session, ring: set<string>, current: Option<string>, depth: nat)
    requires current.Some? ==> current.value in ring
    requires forall id | id in ring :: Latest(jobs, id).None?
    requires forall id | id in ring && Parent(sessions, id).Some? :: Parent(sessions, id).value in ring
    ensures Walk(sessions, jobs, requested, current, depth).None?
    decreases MAX_DEPTH - depth
  {
    if current.Some? && depth < MAX_DEPTH && current.value in sessions {
      NothingInACycle(sessions, jobs, requested, ring, Parent(sessions, current.value), depth + 1);
    }
  }

  /**
   `latestIfcReadyJobForSessionLineage`. The visited set stops the walk on a cycle of links; the walk
   without it gives the same job.
   */
  method LatestJobOfLineage(sessions: Sessions, jobs: seq<Job>, id: string) returns (job: Option<Job>)
    ensures job == Lookup(sessions, jobs, id)
  {
    if id !in sessions { return None; }
    var requested := sessions[id];
    var visited: set<string> := {};
    var current := Link(Some(id));
    var depth := 0;
    while current.Some? && depth < MAX_DEPTH && current.value !in visited
      invariant 0 <= depth <= MAX_DEPTH
      invariant Walk(sessions, jobs, requested, current, depth) == Lookup(sessions, jobs, id)
      invariant forall v | v in visited :: Latest(jobs, v).None?
      invariant forall v | v in visited && Parent(sessions, v).Some? :: Parent(sessions, v).value in visited || Parent(sessions, v) == current
      decreases MAX_DEPTH - depth
    {
      visited := visited + {current.value};
      if current.value !in sessions || !Agree(sessions[current.value], requested) { return None; }
      var linked := Latest(jobs, current.value);
      if linked.Some? {
        if JobAgrees(linked.value, requested) { return linked; } else { return None; }
      }
      current := Parent(sessions, current.value);
      depth := depth + 1;
    }
    job := None;
    if current.Some? && depth < MAX_DEPTH { NothingInACycle(sessions, jobs, requested, visited, current, depth); }
  }

  /** The nearest ancestor with a job is n links away, and every session up to it agrees with the requested one. */
  predicate NearestLinked(sessions: Sessions, jobs: seq<Job>, id: string, n: nat)
    requires id in sessions
  {
    && (forall k | 0 <= k <= n ::
          var a := Ancestor(sessions, id, k);
          && a.Some? && a.value in sessions
          && sessions[a.value].tenant == sessions[id].tenant && sessions[a.value].project == sessions[id].project
          && sessions[a.value].version == sessions[id].version)
    && (forall k | 0 <= k < n :: Ancestor(sessions, id, k).Some? ==> Latest(jobs, Ancestor(sessions, id, k).value).None?)
    && Latest(jobs, Ancestor(sessions, id, n).value).Some?
  }

  lemma {:induction false} WalkFinds(sessions: Sessions, jobs: seq<Job>, id: string, depth: nat, job: Job)
    requires id in sessions && depth <= MAX_DEPTH
    requires forall k | 0 <= k < depth ::
      var a := Ancestor(sessions, id, k);
      a.Some? && a.value in sessions && Agree(sessions[a.value], sessions[id]) && Latest(jobs, a.value).None?
    ensures Walk(sessions, jobs, sessions[id], Ancestor(sessions, id, depth), depth) == Some(job) <==>
      exists n :: depth <= n < MAX_DEPTH && NearestLinked(sessions, jobs, id, n)
        && job == Latest(jobs, Ancestor(sessions, id, n).value).value && JobAgrees(job, sessions[id])
    decreases MAX_DEPTH - depth
  {
    var a := Ancestor(sessions, id, depth);
    if depth < MAX_DEPTH && a.Some? && a.value in sessions && Agree(sessions[a.value], sessions[id]) {
      if Latest(jobs, a.value).Some? {
        assert NearestLinked(sessions, jobs, id, depth);
        forall n | depth <= n < MAX_DEPTH && NearestLinked(sessions, jobs, id, n) ensures n == depth {}
      } else {
        WalkFinds(sessions, jobs, id, depth + 1, job);
        assert !NearestLinked(sessions, jobs, id, depth);
      }
    } else {
      forall n | depth <= n < MAX_DEPTH ensures !NearestLinked(sessions, jobs, id, n) {}
    }
  }

  /**
   The lookup returns a job exactly when it is the latest job of the nearest ancestor with any, at most 31
   links away, and that job and every session up to that ancestor agree with the requested session.
   */
  lemma LookupIsNearest(sessions: Sessions, jobs: seq<Job>, id: string, job: Job)
    requires id in sessions
    ensures Lookup(sessions, jobs, id) == Some(job) <==>
      exists n :: 0 <= n < MAX_DEPTH && NearestLinked(sessions, jobs, id, n)
        && job == Latest(jobs, Ancestor(sessions, id, n).value).value
        && job.tenant == sessions[id].tenant && job.project == sessions[id].project && job.version == sessions[id].version
  {
    WalkFinds(sessions, jobs, id, 0, job);
  }

  // ----- descendants -----

  /** The chain of links out of a session passes through the target within the bound. */
  ghost predicate PassesThrough(sessions: Sessions, id: string, target: string) {
    exists n :: 1 <= n <= MAX_HOPS && Ancestor(sessions, id, n) == Some(target)
  }

  lemma {:induction false} RingAvoids(sessions: Sessions, id: string, target: string, ring: set<string>, h: nat, n: nat)
    requires h <= n && target !in ring
    requires Ancestor(sessions, id, h).Some? ==> Ancestor(sessions, id, h).value in ring
    requires forall v | v in ring && Parent(sessions, v).Some? :: Parent(sessions, v).value in ring
    ensures Ancestor(sessions, id, n) != Some(target)
    ensures Ancestor(sessions, id, n).Some? ==> Ancestor(sessions, id, n).value in ring
  {
    if h < n { RingAvoids(sessions, id, target, ring, h, n - 1); }
  }

  /** The walk `recreationDescendantIds` makes from one session. */
  method LeadsTo(sessions: Sessions, id: string, target: string) returns (found: bool)
    requires id in sessions && id != target
    ensures found <==> PassesThrough(sessions, id, target)
  {
    var visited := {id};
    var ancestor := Link(sessions[id].recreatedFrom);
    var hops := 1;
    assert Ancestor(sessions, id, 0) == Some(id);
    while ancestor.Some? && hops <= MAX_HOPS && ancestor.value !in visited
      invariant 1 <= hops <= MAX_HOPS + 1 && ancestor == Ancestor(sessions, id, hops)
      invariant target !in visited
      invariant forall n | 1 <= n < hops :: Ancestor(sessions, id, n) != Some(target)
      invariant forall v | v in visited && Parent(sessions, v).Some? :: Parent(sessions, v).value in visited || Parent(sessions, v) == ancestor
      decreases MAX_HOPS + 1 - hops
    {
      if ancestor.value == target { return true; }
      visited := visited + {ancestor.value};
      ancestor := Parent(sessions, ancestor.value);
      hops := hops + 1;
    }
    found := false;
    if hops <= MAX_HOPS {
      forall n | hops <= n <= MAX_HOPS ensures Ancestor(sessions, id, n) != Some(target) {
        RingAvoids(sessions, id, target, visited, hops, n);
      }
    }
  }

  ghost predicate IsDescendant(sessions: Sessions, target: string, id: string) {
    id in sessions && id != target && PassesThrough(sessions, id, target)
  }

  ghost function Descendants(sessions: Sessions, target: string, order: seq<string>): (r: seq<string>)
    ensures forall id :: id in r <==> id in order && IsDescendant(sessions, target, id)
  {
    if order == [] then [] else
      var before, last := Descendants(sessions, target, order[..|order| - 1]), order[|order| - 1];
      assert order == order[..|order| - 1] + [last];
      if IsDescendant(sessions, target, last) then before + [last] else before
  }

  /** The sessions whose chain passes through the target, in the order of the listing. */
  method RecreationDescendantIds(sessions: Sessions, target: string, order: seq<string>) returns (ids: seq<string>)
    requires forall id | id in order :: id in sessions
    ensures ids == Descendants(sessions, target, order)
  {
    hide PassesThrough;
    ids := [];
    for i := 0 to |order|
      invariant ids == Descendants(sessions, target, order[..i])
    {
      assert order[..i + 1][..i] == order[..i];
      if order[i] != target {
        var found := LeadsTo(sessions, order[i], target);
        if found { ids := ids + [order[i]]; }
      }
    }
    assert order[..|order|] == order;
  }

  // ----- the purge -----

  /** The route purges a closed or failed session that no other session descends from. */
  ghost predicate MayPurge(sessions: Sessions, id: string) {
    && id in sessions
    && (sessions[id].status == Closed || sessions[id].status == Failed)
    && forall other :: !IsDescendant(sessions, id, other)
  }

  lemma {:induction false} SameAncestors(sessions: Sessions, id: string, other: string, n: nat)
    requires MayPurge(sessions, id) && other in sessions && other != id && n <= MAX_HOPS
    ensures Ancestor(sessions - {id}, other, n) == Ancestor(sessions, other, n)
    ensures Ancestor(sessions, other, n) != Some(id)
  {
    if n > 0 {
      SameAncestors(sessions, id, other, n - 1);
      assert !IsDescendant(sessions, id, other);
    }
  }

  lemma {:induction false} SameWalk(sessions: Sessions, jobs: seq<Job>, requested: Session, id: string, other: string, depth: nat)
    requires MayPurge(sessions, id) && other in sessions && other != id && depth <= MAX_DEPTH
    ensures Walk(sessions - {id}, jobs, requested, Ancestor(sessions, other, depth), depth)
         == Walk(sessions, jobs, requested, Ancestor(sessions, other, depth), depth)
    decreases MAX_DEPTH - depth
  {
    SameAncestors(sessions, id, other, depth);
    if depth < MAX_DEPTH { SameWalk(sessions, jobs, requested, id, other, depth + 1); }
  }

  /** A permitted purge leaves the lookup of every remaining session as it was. */
  lemma PurgeKeepsLookups(sessions: Sessions, jobs: seq<Job>, id: string, other: string)
    requires MayPurge(sessions, id) && other in sessions && other != id
    ensures Lookup(sessions - {id}, jobs, other) == Lookup(sessions, jobs, other)
  {
    SameWalk(sessions, jobs, sessions[other], id, other, 0);
  }

  /** A run of purge requests, each carried out only when permitted. */
  ghost function PurgeRun(sessions: Sessions, ids: seq<string>): (r: Sessions)
    ensures forall id | id in r :: id in sessions && r[id] == sessions[id]
  {
    if ids == [] then sessions else
      var before := PurgeRun(sessions, ids[..|ids| - 1]);
      if MayPurge(before, ids[|ids| - 1]) then before - {ids[|ids| - 1]} else before
  }

  lemma {:induction false} PurgeRunKeepsLookups(sessions: Sessions, jobs: seq<Job>, ids: seq<string>, other: string)
    requires other in PurgeRun(sessions, ids)
    ensures Lookup(PurgeRun(sessions, ids), jobs, other) == Lookup(sessions, jobs, other)
  {
    hide Lookup;
    if ids != [] {
      var before := PurgeRun(sessions, ids[..|ids| - 1]);
      PurgeRunKeepsLookups(sessions, jobs, ids[..|ids| - 1], other);
      if MayPurge(before, ids[|ids| - 1]) { PurgeKeepsLookups(before, jobs, ids[|ids| - 1], other); }
    }
  }

  /** Without the guard the property fails: purging a linked ancestor loses the job of its descendant. */
  lemma UnguardedPurgeLosesJob()
    ensures exists sessions: Sessions, jobs: seq<Job>, id: string, other: string ::
      id in sessions && sessions[id].status == Closed && other in sessions && other != id
      && Lookup(sessions, jobs, other).Some? && Lookup(sessions - {id}, jobs, other).None?
  {
    var old_ := Session("t", "p", "v", Closed, None);
    var new_ := Session("t", "p", "v", Active, Some("a"));
    var sessions: Sessions := map["a" := old_, "b" := new_];
    var jobs := [Job(Some("a"), "t", "p", "v", 1)];
    assert jobs[..0] == [];
    assert Latest(jobs, "a") == Some(jobs[0]) && Latest(jobs, "b").None?;
    assert Walk(sessions, jobs, new_, Some("a"), 1) == Some(jobs[0]);
    assert Lookup(sessions, jobs, "b") == Some(jobs[0]);
    assert Walk(sessions - {"a"}, jobs, new_, Some("a"), 1).None?;
    assert Lookup(sessions - {"a"}, jobs, "b").None?;
  }

  datatype PurgeOutcome = NotFound | NotClosed(status: Status) | HasDescendants(ids: seq<string>) | Purged

  class SessionStore {
    var sessions: Sessions

    constructor (sessions: Sessions)
      ensures this.sessions == sessions
    {
      this.sessions := sessions;
    }

    /** The purge route; order is the listing of the store. */
    method Purge(id: string, order: seq<string>) returns (outcome: PurgeOutcome)
      requires forall other :: other in order <==> other in sessions
      modifies this
      ensures outcome == Purged <==> MayPurge(old(sessions), id)
      ensures sessions == if outcome == Purged then old(sessions) - {id} else old(sessions)
      ensures outcome == NotFound <==> id !in old(sessions)
      ensures outcome.HasDescendants? ==> outcome.ids == Descendants(sessions, id, order) != []
      ensures forall jobs, other | other in sessions :: Lookup(sessions, jobs, other) == Lookup(old(sessions), jobs, other)
    {
      hide Lookup, PassesThrough;
      if id !in sessions { return NotFound; }
      var status := sessions[id].status;
      if status != Closed && status != Failed { return NotClosed(status); }
      var ids := RecreationDescendantIds(sessions, id, order);
      if ids != [] {
        assert ids[0] in ids;
        return HasDescendants(ids);
      }
      forall other ensures !IsDescendant(sessions, id, other) {
        assert other in Descendants(sessions, id, order) <==> other in order && IsDescendant(sessions, id, other);
      }
      forall jobs, other | other in sessions && other != id
        ensures Lookup(sessions - {id}, jobs, other) == Lookup(sessions, jobs, other)
      {
        PurgeKeepsLookups(sessions, jobs, id, other);
      }
      sessions := sessions - {id};
      outcome := Purged;
    }
  }
}
