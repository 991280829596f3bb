/** What retention cleanup may remove, and how deletions by id compose. */
module Retention {
  import opened Common
  import opened JobTables

  predicate StaleEvent(e: Event, jobs: map<JobId, Job>, cutoff: Time) {
    e.createdAt < cutoff && e.job in jobs && jobs[e.job].status.Terminal()
  }

  function StaleEvents(events: seq<Event>, jobs: map<JobId, Job>, cutoff: Time): set<nat> {
    set e | e in events && StaleEvent(e, jobs, cutoff) :: e.id
  }

  /** COALESCE(released_at, expires_at, created_at); expires_at is never null. */
  function LockAge(l: Lock): Time {
    if l.releasedAt.Some? then l.releasedAt.value else l.expiresAt
  }

  predicate StaleLock(l: Lock, cutoff: Time) {
    l.status != Held && LockAge(l) < cutoff
  }

  function StaleLocks(locks: map<LockId, Lock>, cutoff: Time): set<LockId> {
    set l | l in locks && StaleLock(locks[l], cutoff)
  }

  ghost predicate DistinctIds(events: seq<Event>) {
    forall i, k :: 0 <= i < |events| && 0 <= k < |events| && events[i].id == events[k].id ==> i == k
  }

  /** Every stale event outside the set is younger than those in it: ORDER BY created_at, id. */
  ghost predicate OldestEvents(events: seq<Event>, jobs: map<JobId, Job>, cutoff: Time, ids: set<nat>) {
    forall e, f :: e in events && e.id in ids && f in events && StaleEvent(f, jobs, cutoff) && f.id !in ids ==>
      e.createdAt < f.createdAt || (e.createdAt == f.createdAt && e.id < f.id)
  }

  ghost predicate OldestLocks(locks: map<LockId, Lock>, cutoff: Time, ids: set<LockId>) {
    forall l, m :: l in ids && l in locks && m in StaleLocks(locks, cutoff) && m !in ids ==>
      LockAge(locks[l]) < LockAge(locks[m]) || (LockAge(locks[l]) == LockAge(locks[m]) && l < m)
  }

  /** A table of ages that has one entry for each stale event has its time. */
  lemma AgeOfEvent(events: seq<Event>, jobs: map<JobId, Job>, cutoff: Time, age: map<nat, Time>, e: Event)
    requires DistinctIds(events) && e in events && e.id in StaleEvents(events, jobs, cutoff)
    requires forall i :: 0 <= i < |events| && StaleEvent(events[i], jobs, cutoff) ==> events[i].id in age && age[events[i].id] == events[i].createdAt
    ensures e.id in age && age[e.id] == e.createdAt && StaleEvent(e, jobs, cutoff)
  {
    var f :| f in events && StaleEvent(f, jobs, cutoff) && f.id == e.id;
    var i :| 0 <= i < |events| && events[i] == e;
    var k :| 0 <= k < |events| && events[k] == f;
    assert events[i].id == events[k].id;
  }

  function Ids(events: seq<Event>): set<nat> {
    set e | e in events :: e.id
  }

  lemma {:induction false} WithoutLength(events: seq<Event>, ids: set<nat>)
    requires DistinctIds(events) && ids <= Ids(events)
    ensures |Without(events, ids)| == |events| - |ids|
    decreases |events|
  {
    if events == [] {
      assert ids == {};
    } else {
      var n := |events| - 1;
      var e := events[n];
      assert events == events[..n] + [e];
      forall x | x in ids - {e.id} ensures x in Ids(events[..n]) {
        var y :| y in events && y.id == x;
        assert y in events[..n];
      }
      forall y | y in events[..n] ensures y.id != e.id {
        var i :| 0 <= i < n && events[..n][i] == y;
        assert events[i].id != events[n].id;
      }
      WithoutLength(events[..n], ids - {e.id});
      WithoutIrrelevant(events[..n], ids, e.id);
      if e.id in ids { assert |ids - {e.id}| == |ids| - 1; } else { assert ids - {e.id} == ids; }
    }
  }

  lemma {:induction false} WithoutIrrelevant(events: seq<Event>, ids: set<nat>, x: nat)
    requires forall e :: e in events ==> e.id != x
    ensures Without(events, ids) == Without(events, ids - {x})
  {
    if events != [] {
      assert events[|events| - 1] in events;
      WithoutIrrelevant(events[..|events| - 1], ids, x);
    }
  }

  lemma {:induction false} WithoutTwice(events: seq<Event>, x: set<nat>, y: set<nat>)
    ensures Without(Without(events, x), y) == Without(events, x + y)
  {
    if events != [] {
      var n := |events| - 1;
      WithoutTwice(events[..n], x, y);
      if events[n].id !in x {
        assert (Without(events[..n], x) + [events[n]])[..|Without(events[..n], x)|] == Without(events[..n], x);
      }
    }
  }

  lemma {:induction false} WithoutNone(events: seq<Event>)
    ensures Without(events, {}) == events
  {
    if events != [] {
      WithoutNone(events[..|events| - 1]);
      assert events == events[..|events| - 1] + [events[|events| - 1]];
    }
  }

  lemma {:induction false} WithoutDistinct(events: seq<Event>, ids: set<nat>)
    requires DistinctIds(events)
    ensures DistinctIds(Without(events, ids))
  {
    if events != [] {
      var n := |events| - 1;
      WithoutDistinct(events[..n], ids);
      WithoutSubset(events[..n], ids);
      var w := Without(events[..n], ids);
      if events[n].id !in ids {
        forall i | 0 <= i < |w| ensures w[i].id != events[n].id {
          assert w[i] in w;
          var k :| 0 <= k < n && events[..n][k] == w[i];
          assert events[k].id != events[n].id;
        }
      }
    }
  }

  /** Removing the stale events is the same as keeping every event that is not stale. */
  lemma StaleRemovedExactly(events: seq<Event>, jobs: map<JobId, Job>, cutoff: Time)
    requires DistinctIds(events)
    ensures forall e :: e in Without(events, StaleEvents(events, jobs, cutoff)) <==> e in events && !StaleEvent(e, jobs, cutoff)
  {
    WithoutSubset(events, StaleEvents(events, jobs, cutoff));
    forall e, f | e in events && f in events && e.id == f.id ensures e == f {
      var i :| 0 <= i < |events| && events[i] == e;
      var k :| 0 <= k < |events| && events[k] == f;
    }
  }

  /** Rows that survive a deletion are the stale ones not deleted yet. */
  lemma StaleLeft(events: seq<Event>, jobs: map<JobId, Job>, cutoff: Time, gone: set<nat>)
    requires DistinctIds(events)
    ensures StaleEvents(Without(events, gone), jobs, cutoff) == StaleEvents(events, jobs, cutoff) - gone
  {
    WithoutSubset(events, gone);
    StaleRemovedExactly(events, jobs, cutoff);
  }
}
