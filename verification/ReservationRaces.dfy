/**
 Runs that show what exclusion of callers rests on: a refresh that comes after the
 expiry, and an attempt of a job that outlives the next one. The keys are those of
 the code's callers: an identity key and a path key, for any three distinct texts.
 */
module ReservationRaces {
  import opened Common
  import opened Reservations
  import opened ReservationRuns

  const REQUEST_TTL: Time := 5 * MINUTE
  const HANDLER_TTL: Time := 60 * MINUTE

  lemma {:induction false} OneMore(s: Sys, run: seq<Action>, a: Action)
    requires Valid(s, run) && Enabled(Exec(s, run), a)
    ensures Valid(s, run + [a]) && Exec(s, run + [a]) == Next(Exec(s, run), a)
    decreases |run|
  {
    if run == [] {
      assert run + [a] == [a] && [a][1..] == [];
      assert Valid(Next(s, a), []) && Exec(Next(s, a), []) == Next(s, a);
    } else {
      OneMore(Next(s, run[0]), run[1..], a);
      assert (run + [a])[1..] == run[1..] + [a];
    }
  }

  /** The run leads from s to t. */
  ghost predicate Leads(s: Sys, run: seq<Action>, t: Sys) { Valid(s, run) && t == Exec(s, run) }

  lemma Step(s: Sys, run: seq<Action>, t: Sys, a: Action) returns (run': seq<Action>, t': Sys)
    requires Leads(s, run, t) && Enabled(t, a)
    ensures run' == run + [a] && Leads(s, run', t') && t' == Next(t, a)
  {
    OneMore(s, run, a);
    run', t' := run + [a], Next(t, a);
  }

  // ------------------------------------------------------------ whole calls

  const EMPTY := Sys(map[], 0, map[], map[], {})

  function Row(k: string, o: Owner, from: Time, t: Time): Reservation { Reservation(k, o, State.Held, from, t, None) }

  lemma TwoKeys(a: string, b: string)
    ensures [a, b][1..] == [b] && [b][1..] == [] && [] + [a] == [a] && [a] + [b] == [a, b] && [] + [a, b] == [a, b]
  {
  }

  /** A free key is taken in one statement. */
  lemma TakesOne(s: Sys, run: seq<Action>, t: Sys, c: Caller, p: Party, id: int) returns (run': seq<Action>, t': Sys)
    requires Leads(s, run, t) && c in t.work && t.work[c] == p && p.phase.Reserving? && p.phase.todo != []
    requires KeyFree(t.rows, p.phase.todo[0]) && id !in t.rows
    ensures Leads(s, run', t')
    ensures var k, until := p.phase.todo[0], p.phase.now + Ttl(p);
            t' == t.(rows := t.rows[id := Row(k, p.owner, p.phase.now, until)], until := t.until[(p.owner, k) := until],
                     work := t.work[c := p.(phase := Reserving(p.phase.todo[1..], p.phase.got + [k], p.phase.outer, p.phase.now))])
  {
    run', t' := Step(s, run, t, Insert(c, id));
  }

  lemma StillFree(rows: map<int, Reservation>, x: int, r: Reservation, k: string)
    requires KeyFree(rows, k) && r.key != k
    ensures KeyFree(rows[x := r], k)
  {
  }

  lemma TakesFirst(s: Sys, run: seq<Action>, t: Sys, c: Caller, o: Owner, a: string, b: string, x: int) returns (run': seq<Action>, t': Sys)
    requires Leads(s, run, t) && c !in t.work && (forall d :: d in t.work ==> t.work[d].owner != o) && KeyFree(t.rows, a) && x !in t.rows
    ensures Leads(s, run', t')
    ensures t' == t.(rows := t.rows[x := Row(a, o, t.clock, t.clock + REQUEST_TTL)], until := t.until[(o, a) := t.clock + REQUEST_TTL],
                     work := t.work[c := Party(o, false, Reserving([b], [a], [], t.clock))])
  {
    TwoKeys(a, b);
    run', t' := Step(s, run, t, BeginRequest(c, o, [a, b]));
    run', t' := TakesOne(s, run', t', c, Party(o, false, Reserving([a, b], [], [], t.clock)), x);
  }

  /** A request for two free keys gets both. */
  lemma TakesTwo(s: Sys, run: seq<Action>, t: Sys, c: Caller, o: Owner, a: string, b: string, x: int, y: int)
    returns (run': seq<Action>, t': Sys)
    requires Leads(s, run, t) && c !in t.work && (forall d :: d in t.work ==> t.work[d].owner != o)
    requires a != b && KeyFree(t.rows, a) && KeyFree(t.rows, b) && x !in t.rows && y !in t.rows && x != y
    ensures Leads(s, run', t') && t'.clock == t.clock && t'.left == t.left
    ensures t'.rows == t.rows[x := Row(a, o, t.clock, t.clock + REQUEST_TTL)][y := Row(b, o, t.clock, t.clock + REQUEST_TTL)]
    ensures t'.work == t.work[c := Party(o, false, Holding([a, b]))]
    ensures t'.until == t.until[(o, a) := t.clock + REQUEST_TTL][(o, b) := t.clock + REQUEST_TTL]
  {
    TwoKeys(a, b);
    run', t' := TakesFirst(s, run, t, c, o, a, b, x);
    StillFree(t.rows, x, Row(a, o, t.clock, t.clock + REQUEST_TTL), b);
    run', t' := TakesOne(s, run', t', c, Party(o, false, Reserving([b], [a], [], t.clock)), y);
    run', t' := Step(s, run', t', Action.Reserved(c));
  }

  /** A caller whose next key is held under its own owner finds that out in two statements. */
  lemma MeetsOwn(s: Sys, run: seq<Action>, t: Sys, c: Caller, p: Party, id: int, spare: int) returns (run': seq<Action>, t': Sys)
    requires Leads(s, run, t) && c in t.work && t.work[c] == p && p.phase.Reserving? && p.phase.todo != []
    requires id in t.rows && HeldFor(t.rows[id], p.owner, p.phase.todo[0]) && spare !in t.rows
    ensures Leads(s, run', t')
    ensures t' == t.(work := t.work[c := p.(phase := Refreshing(p.phase.todo, p.phase.got, p.phase.outer, p.phase.now))])
  {
    run', t' := Step(s, run, t, Insert(c, spare));
    assert t' == t.(work := t.work[c := p.(phase := Looking(p.phase.todo, p.phase.got, p.phase.outer, p.phase.now))]);
    run', t' := Step(s, run', t', Look(c));
  }

  /** The row is refreshed. */
  lemma RefreshesOwn(s: Sys, run: seq<Action>, t: Sys, c: Caller, p: Party, id: int) returns (run': seq<Action>, t': Sys)
    requires Leads(s, run, t) && OneHeldRow(t.rows) && c in t.work && t.work[c] == p && p.phase.Refreshing? && p.phase.todo != []
    requires id in t.rows && HeldFor(t.rows[id], p.owner, p.phase.todo[0])
    ensures Leads(s, run', t')
    ensures var k, until := p.phase.todo[0], t.clock + Ttl(p);
            t' == t.(rows := t.rows[id := t.rows[id].(expiresAt := until)], until := t.until[(p.owner, k) := until],
                     work := t.work[c := p.(phase := Reserving(p.phase.todo[1..], p.phase.got + [k], p.phase.outer, p.phase.now))])
  {
    var k, until := p.phase.todo[0], t.clock + Ttl(p);
    forall x | x in t.rows ensures HeldFor(t.rows[x], p.owner, k) <==> x == id {}
    assert Renewed(t.rows, p.owner, k, until) == t.rows[id := t.rows[id].(expiresAt := until)];
    run', t' := Step(s, run, t, Refresh(c));
  }

  /** One row is released. */
  lemma ReleasesOne(s: Sys, run: seq<Action>, t: Sys, c: Caller, p: Party, id: int) returns (run': seq<Action>, t': Sys)
    requires Leads(s, run, t) && OneHeldRow(t.rows) && c in t.work && t.work[c] == p && p.phase.Releasing? && p.phase.todo != []
    requires id in t.rows && HeldFor(t.rows[id], p.owner, p.phase.todo[0])
    ensures Leads(s, run', t') && t'.clock == t.clock
    ensures t'.rows == t.rows[id := t.rows[id].(state := State.Released, releasedAt := Some(t.clock))]
    ensures t'.work == t.work[c := p.(phase := Releasing(p.phase.todo[1..], p.phase.goal))]
  {
    var k := p.phase.todo[0];
    forall x | x in t.rows ensures HeldFor(t.rows[x], p.owner, k) <==> x == id {}
    assert Given(t.rows, p.owner, k, t.clock) == t.rows[id := t.rows[id].(state := State.Released, releasedAt := Some(t.clock))];
    run', t' := Step(s, run, t, Release(c));
  }

  // ---------------------------------------- a refresh that comes after the expiry

  /** A clone request has queued its job and keeps its identity key i and its path key p. */
  ghost predicate JobQueued(t: Sys, i: string, p: string) {
    && t.clock == 0 && t.left == {}
    && t.rows == map[1 := Row(i, 1, 0, REQUEST_TTL), 2 := Row(p, 1, 0, REQUEST_TTL)]
    && t.work == map[1 := Party(1, false, Ended(true, [i, p]))]
  }

  lemma QueuesJob(i: string, p: string) returns (run: seq<Action>, t: Sys)
    requires i != p
    ensures Leads(EMPTY, run, t) && JobQueued(t, i, p)
  {
    run, t := TakesTwo(EMPTY, [], EMPTY, 1, 1, i, p, 1, 2);
    run, t := Step(EMPTY, run, t, Queue(1));
  }

  /** An attempt of the job has refreshed the identity key and found the row of the path key. */
  ghost predicate FoundPath(t: Sys, i: string, p: string) {
    && t.clock == 0 && t.left == {}
    && t.rows == map[1 := Row(i, 1, 0, HANDLER_TTL), 2 := Row(p, 1, 0, REQUEST_TTL)]
    && t.work == map[1 := Party(1, false, Ended(true, [i, p])), 10 := Party(1, true, Refreshing([p], [i], [], 0))]
  }

  lemma AttemptFindsPath(run0: seq<Action>, t0: Sys, i: string, p: string) returns (run: seq<Action>, t: Sys)
    requires Leads(EMPTY, run0, t0) && JobQueued(t0, i, p) && i != p
    ensures Leads(EMPTY, run, t) && FoundPath(t, i, p)
  {
    TwoKeys(i, p);
    assert t0.work[1].phase.queued;
    run, t := Step(EMPTY, run0, t0, BeginHandler(10, 1, [i, p]));
    run, t := MeetsOwn(EMPTY, run, t, 10, Party(1, true, Reserving([i, p], [], [], 0)), 1, 9);
    run, t := RefreshesOwn(EMPTY, run, t, 10, Party(1, true, Refreshing([i, p], [], [], 0)), 1);
    run, t := MeetsOwn(EMPTY, run, t, 10, Party(1, true, Reserving([p], [i], [], 0)), 2, 9);
  }

  /** The path key expires before the attempt refreshes it, and a request for another repository takes it. */
  ghost predicate PathTaken(t: Sys, i: string, p: string, other: string) {
    && t.clock == REQUEST_TTL
    && t.rows == map[1 := Row(i, 1, 0, HANDLER_TTL), 2 := Row(p, 1, 0, REQUEST_TTL).(state := State.Expired),
                     3 := Row(other, 2, REQUEST_TTL, REQUEST_TTL + REQUEST_TTL), 4 := Row(p, 2, REQUEST_TTL, REQUEST_TTL + REQUEST_TTL)]
    && t.work == map[1 := Party(1, false, Ended(true, [i, p])), 10 := Party(1, true, Refreshing([p], [i], [], 0)),
                     2 := Party(2, false, Holding([other, p]))]
    && (2, p) in t.until && t.until[(2, p)] == REQUEST_TTL + REQUEST_TTL
  }

  lemma OtherTakesPath(run0: seq<Action>, t0: Sys, i: string, p: string, other: string) returns (run: seq<Action>, t: Sys)
    requires Leads(EMPTY, run0, t0) && FoundPath(t0, i, p) && i != p && other != i && other != p
    ensures Leads(EMPTY, run, t) && PathTaken(t, i, p, other)
  {
    run, t := Step(EMPTY, run0, t0, Tick(REQUEST_TTL));
    run, t := Step(EMPTY, run, t, Age(REQUEST_TTL));
    assert t.rows == map[1 := Row(i, 1, 0, HANDLER_TTL), 2 := Row(p, 1, 0, REQUEST_TTL).(state := State.Expired)];
    run, t := TakesTwo(EMPTY, run, t, 2, 2, other, p, 3, 4);
  }

  /**
   A row is found and refreshed in two statements. Between them it expires and
   another owner takes the key; the refresh changes no row and is not noticed, so
   the attempt and the other request both count on the path key.
   */
  lemma LateRefreshSharesKey(i: string, p: string, other: string) returns (run: seq<Action>, t: Sys)
    requires i != p && other != i && other != p
    ensures Init(EMPTY) && Leads(EMPTY, run, t)
    ensures 10 in t.work && t.work[10] == Party(1, true, Holding([i, p])) && 2 in t.work && t.work[2] == Party(2, false, Holding([other, p]))
    ensures Live(t, 10, p) && Live(t, 2, p) && !Holds(t.rows, 1, p) && Holds(t.rows, 2, p)
  {
    TwoKeys(i, p);
    run, t := QueuesJob(i, p);
    run, t := AttemptFindsPath(run, t, i, p);
    run, t := OtherTakesPath(run, t, i, p, other);
    run, t := RefreshesNothing(run, t, i, p, other);
  }

  lemma RefreshesNothing(run0: seq<Action>, t0: Sys, i: string, p: string, other: string) returns (run: seq<Action>, t: Sys)
    requires Leads(EMPTY, run0, t0) && PathTaken(t0, i, p, other) && i != p && other != p
    ensures Leads(EMPTY, run, t) && 10 in t.work && t.work[10] == Party(1, true, Holding([i, p]))
    ensures 2 in t.work && t.work[2] == Party(2, false, Holding([other, p]))
    ensures Live(t, 10, p) && Live(t, 2, p) && !Holds(t.rows, 1, p) && Holds(t.rows, 2, p)
  {
    TwoKeys(i, p);
    run, t := Step(EMPTY, run0, t0, Refresh(10));
    run, t := Step(EMPTY, run, t, Action.Reserved(10));
    assert HeldFor(t.rows[4], 2, p);
  }

  // ------------------------------------------- an attempt that outlives the next

  ghost predicate AttemptHolds(t: Sys, i: string, p: string, work: map<Caller, Party>) {
    && t.clock == 0 && t.left == {} && t.work == work
    && t.rows == map[1 := Row(i, 1, 0, HANDLER_TTL), 2 := Row(p, 1, 0, HANDLER_TTL)]
  }

  /** A key of the own owner is kept in three statements. */
  lemma KeepsOwn(s: Sys, run: seq<Action>, t: Sys, c: Caller, p: Party, id: int, spare: int) returns (run': seq<Action>, t': Sys)
    requires Leads(s, run, t) && OneHeldRow(t.rows) && c in t.work && t.work[c] == p && p.phase.Reserving? && p.phase.todo != []
    requires id in t.rows && HeldFor(t.rows[id], p.owner, p.phase.todo[0]) && spare !in t.rows
    ensures Leads(s, run', t') && t'.clock == t.clock && t'.left == t.left
    ensures t'.rows == t.rows[id := t.rows[id].(expiresAt := t.clock + Ttl(p))]
    ensures t'.work == t.work[c := p.(phase := Reserving(p.phase.todo[1..], p.phase.got + [p.phase.todo[0]], p.phase.outer, p.phase.now))]
  {
    run', t' := MeetsOwn(s, run, t, c, p, id, spare);
    run', t' := RefreshesOwn(s, run', t', c, t'.work[c], id);
  }

  lemma AttemptKeepsFirst(run0: seq<Action>, t0: Sys, c: Caller, i: string, p: string, x: Time) returns (run: seq<Action>, t: Sys)
    requires Leads(EMPTY, run0, t0) && i != p && c !in t0.work && Queued(t0, 1) && t0.clock == 0 && t0.left == {}
    requires t0.rows == map[1 := Row(i, 1, 0, x), 2 := Row(p, 1, 0, x)]
    ensures Leads(EMPTY, run, t) && t.clock == 0 && t.left == {}
    ensures t.rows == map[1 := Row(i, 1, 0, HANDLER_TTL), 2 := Row(p, 1, 0, x)]
    ensures t.work == t0.work[c := Party(1, true, Reserving([p], [i], [], 0))]
  {
    TwoKeys(i, p);
    run, t := Step(EMPTY, run0, t0, BeginHandler(c, 1, [i, p]));
    run, t := KeepsOwn(EMPTY, run, t, c, Party(1, true, Reserving([i, p], [], [], 0)), 1, 9);
  }

  /** An attempt reserves both keys again, whoever of its owner holds them. */
  lemma AttemptReserves(run0: seq<Action>, t0: Sys, c: Caller, i: string, p: string, x: Time) returns (run: seq<Action>, t: Sys)
    requires Leads(EMPTY, run0, t0) && i != p && c !in t0.work && Queued(t0, 1) && t0.clock == 0 && t0.left == {}
    requires t0.rows == map[1 := Row(i, 1, 0, x), 2 := Row(p, 1, 0, x)]
    ensures Leads(EMPTY, run, t) && AttemptHolds(t, i, p, t0.work[c := Party(1, true, Holding([i, p]))])
  {
    TwoKeys(i, p);
    run, t := AttemptKeepsFirst(run0, t0, c, i, p, x);
    run, t := KeepsOwn(EMPTY, run, t, c, Party(1, true, Reserving([p], [i], [], 0)), 2, 9);
    run, t := Step(EMPTY, run, t, Action.Reserved(c));
  }

  /** The deferred release of the first attempt. */
  lemma FirstAttemptReleases(run0: seq<Action>, t0: Sys, i: string, p: string) returns (run: seq<Action>, t: Sys)
    requires Leads(EMPTY, run0, t0) && i != p
    requires AttemptHolds(t0, i, p, map[1 := Party(1, false, Ended(true, [i, p])), 10 := Party(1, true, Holding([i, p])), 11 := Party(1, true, Holding([i, p]))])
    ensures Leads(EMPTY, run, t) && t.clock == 0
    ensures t.rows == map[1 := Row(i, 1, 0, HANDLER_TTL).(state := State.Released, releasedAt := Some(0)),
                          2 := Row(p, 1, 0, HANDLER_TTL).(state := State.Released, releasedAt := Some(0))]
    ensures t.work == map[1 := Party(1, false, Ended(true, [i, p])), 10 := Party(1, true, Releasing([], Stop)), 11 := Party(1, true, Holding([i, p]))]
  {
    TwoKeys(i, p);
    run, t := Step(EMPTY, run0, t0, Finish(10));
    run, t := ReleasesOne(EMPTY, run, t, 10, Party(1, true, Releasing([i, p], Stop)), 1);
    run, t := ReleasesOne(EMPTY, run, t, 10, Party(1, true, Releasing([p], Stop)), 2);
  }

  /**
   Two attempts of one job share its owner. The first one, whose lease was recovered
   while it ran, ends after the second has reserved the keys, and its deferred
   release frees them: a request for another repository takes the path key.
   */
  lemma StaleAttemptFreesKeys(i: string, p: string, other: string) returns (run: seq<Action>, t: Sys)
    requires i != p && other != i && other != p
    ensures Init(EMPTY) && Leads(EMPTY, run, t)
    ensures 11 in t.work && t.work[11] == Party(1, true, Holding([i, p])) && 2 in t.work && t.work[2] == Party(2, false, Holding([other, p]))
    ensures !Holds(t.rows, 1, i) && !Holds(t.rows, 1, p) && Holds(t.rows, 2, p)
  {
    run, t := QueuesJob(i, p);
    assert t.work[1].phase.queued;
    run, t := AttemptReserves(run, t, 10, i, p, REQUEST_TTL);
    assert t.work[1].phase.queued;
    run, t := AttemptReserves(run, t, 11, i, p, HANDLER_TTL);
    run, t := FirstAttemptReleases(run, t, i, p);
    run, t := TakesTwo(EMPTY, run, t, 2, 2, other, p, 3, 4);
    assert HeldFor(t.rows[4], 2, p);
  }
}
