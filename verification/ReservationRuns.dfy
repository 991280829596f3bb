/**
 Reservations with several callers at once: every statement of a reserving or
 releasing call is a step, and the statements of different callers interleave.
 A caller is a clone request or one attempt of the handler of the job it queued;
 they act under one owner, the id of that job.
 */
module ReservationRuns {
  import opened Common
  import opened Reservations

  type Caller = int

  /** What comes after a release: the request goes on, a failed call leaves its caller's keys to release, or all is over. */
  datatype Goal = BackTo(held: seq<string>, all: seq<string>) | Undo(outer: seq<string>) | Stop

  /** How far a caller has got. The keys of a call are trimmed and not blank; `now` is what the call read at its start. */
  datatype Work =
    | Reserving(todo: seq<string>, got: seq<string>, outer: seq<string>, now: Time)
    | Looking(todo: seq<string>, got: seq<string>, outer: seq<string>, now: Time)
    | Refreshing(todo: seq<string>, got: seq<string>, outer: seq<string>, now: Time)
    | Holding(held: seq<string>)
    | Releasing(todo: seq<string>, goal: Goal)
    | Ended(queued: bool, held: seq<string>)

  datatype Party = Party(owner: Owner, handler: bool, phase: Work)

  /** A request reserves for five minutes, a handler for an hour. */
  function Ttl(p: Party): Time { if p.handler then 60 * MINUTE else 5 * MINUTE }

  /**
   The table, the clock and the callers. Two records are kept for the theorems:
   until when a key of an owner is held as its callers have it, who do not notice a
   refresh that changes no row, and the keys given up by a release that failed.
   */
  datatype Sys = Sys(
    rows: map<int, Reservation>, clock: Time, work: map<Caller, Party>,
    until: map<(Owner, string), Time>, left: set<(Owner, string)>)

  datatype Action =
    | Tick(to: Time)
    | Age(before: Time)
    | Prune(cutoff: Time)
    | BeginRequest(who: Caller, owner: Owner, keys: seq<string>)
    | BeginHandler(who: Caller, owner: Owner, keys: seq<string>)
    | Insert(who: Caller, id: int)
    | Look(who: Caller)
    | Refresh(who: Caller)
    | Breaks(who: Caller)
    | Reserved(who: Caller)
    | More(who: Caller, keys: seq<string>)
    | GiveUp(who: Caller, keys: seq<string>)
    | Release(who: Caller)
    | ReleaseFails(who: Caller)
    | Released(who: Caller)
    | Queue(who: Caller)
    | Finish(who: Caller)

  function Omit(held: seq<string>, keys: seq<string>): seq<string> {
    if held == [] then []
    else Omit(held[..|held| - 1], keys) + if held[|held| - 1] in keys then [] else [held[|held| - 1]]
  }

  predicate Underway(w: Work) { (w.Reserving? || w.Looking? || w.Refreshing?) && w.todo != [] }

  /** The request of the owner has queued its job. */
  ghost predicate Queued(s: Sys, o: Owner) {
    exists r :: r in s.work && s.work[r].owner == o && !s.work[r].handler && s.work[r].phase.Ended? && s.work[r].phase.queued
  }

  ghost predicate Enabled(s: Sys, a: Action) {
    match a
    case Tick(to) => s.clock <= to
    case Age(before) => before <= s.clock
    case Prune(cutoff) => true
    case BeginRequest(c, o, keys) => c !in s.work && forall d :: d in s.work ==> s.work[d].owner != o
    case BeginHandler(c, o, keys) => c !in s.work && Queued(s, o)
    case Insert(c, id) => c in s.work && s.work[c].phase.Reserving? && s.work[c].phase.todo != [] && id !in s.rows
    case Look(c) => c in s.work && s.work[c].phase.Looking? && s.work[c].phase.todo != []
    case Refresh(c) => c in s.work && s.work[c].phase.Refreshing? && s.work[c].phase.todo != []
    case Breaks(c) => c in s.work && Underway(s.work[c].phase)
    case Reserved(c) => c in s.work && s.work[c].phase.Reserving? && s.work[c].phase.todo == []
    case More(c, keys) => c in s.work && s.work[c].phase.Holding? && !s.work[c].handler
    case GiveUp(c, keys) => c in s.work && s.work[c].phase.Holding? && !s.work[c].handler
    case Release(c) => c in s.work && s.work[c].phase.Releasing? && s.work[c].phase.todo != []
    case ReleaseFails(c) => c in s.work && s.work[c].phase.Releasing? && s.work[c].phase.todo != []
    case Released(c) => c in s.work && s.work[c].phase.Releasing? && s.work[c].phase.todo == []
    case Queue(c) => c in s.work && s.work[c].phase.Holding? && !s.work[c].handler
    case Finish(c) => c in s.work && s.work[c].phase.Holding?
  }

  ghost predicate KeyFree(rows: map<int, Reservation>, key: string) {
    forall id :: id in rows ==> !(rows[id].state == State.Held && rows[id].key == key)
  }

  function Renewed(rows: map<int, Reservation>, o: Owner, key: string, t: Time): map<int, Reservation> {
    map id | id in rows :: if HeldFor(rows[id], o, key) then rows[id].(expiresAt := t) else rows[id]
  }

  function Moved(s: Sys, c: Caller, w: Work): Sys
    requires c in s.work
  {
    s.(work := s.work[c := s.work[c].(phase := w)])
  }

  /** A refresh that finds no row changes none, and its key counts as held all the same. */
  ghost function Next(s: Sys, a: Action): Sys
    requires Enabled(s, a)
  {
    match a
    case Tick(to) => s.(clock := to)
    case Age(before) => s.(rows := map id | id in s.rows :: Aged(s.rows[id], before))
    case Prune(cutoff) => s.(rows := map id | id in s.rows && !Prunable(s.rows[id], cutoff) :: s.rows[id])
    case BeginRequest(c, o, keys) => s.(work := s.work[c := Party(o, false, Reserving(keys, [], [], s.clock))])
    case BeginHandler(c, o, keys) => s.(work := s.work[c := Party(o, true, Reserving(keys, [], [], s.clock))])
    case Insert(c, id) =>
      var w, o := s.work[c].phase, s.work[c].owner;
      var key, t := w.todo[0], w.now + Ttl(s.work[c]);
      if KeyFree(s.rows, key) then
        Moved(s.(rows := s.rows[id := Reservation(key, o, State.Held, w.now, t, None)], until := s.until[(o, key) := t]),
              c, Reserving(w.todo[1..], w.got + [key], w.outer, w.now))
      else Moved(s, c, Looking(w.todo, w.got, w.outer, w.now))
    case Look(c) =>
      var w := s.work[c].phase;
      if Holds(s.rows, s.work[c].owner, w.todo[0]) then Moved(s, c, Refreshing(w.todo, w.got, w.outer, w.now))
      else Moved(s, c, Releasing(w.got, Undo(w.outer)))
    case Refresh(c) =>
      var w, o := s.work[c].phase, s.work[c].owner;
      var key, t := w.todo[0], s.clock + Ttl(s.work[c]);
      Moved(s.(rows := Renewed(s.rows, o, key, t), until := s.until[(o, key) := t]), c,
            Reserving(w.todo[1..], w.got + [key], w.outer, w.now))
    case Breaks(c) => Moved(s, c, Releasing(s.work[c].phase.got, Undo(s.work[c].phase.outer)))
    case Reserved(c) => Moved(s, c, Holding(s.work[c].phase.outer + s.work[c].phase.got))
    case More(c, keys) => Moved(s, c, Reserving(keys, [], s.work[c].phase.held, s.clock))
    case GiveUp(c, keys) => Moved(s, c, Releasing(keys, BackTo(Omit(s.work[c].phase.held, keys), s.work[c].phase.held)))
    case Release(c) =>
      var w, o := s.work[c].phase, s.work[c].owner;
      Moved(s.(rows := Given(s.rows, o, w.todo[0], s.clock), until := s.until - {(o, w.todo[0])}), c, Releasing(w.todo[1..], w.goal))
    case ReleaseFails(c) =>
      var w := s.work[c].phase;
      if w.goal.BackTo? then Moved(s, c, Releasing(w.goal.all, Stop))
      else Moved(s.(left := s.left + set k | k in w.todo :: (s.work[c].owner, k)), c, Releasing([], w.goal))
    case Released(c) =>
      var w := s.work[c].phase;
      Moved(s, c, match w.goal
                  case BackTo(held, _) => Holding(held)
                  case Undo(outer) => Releasing(outer, Stop)
                  case Stop => Ended(false, []))
    case Queue(c) => Moved(s, c, Ended(true, s.work[c].phase.held))
    case Finish(c) => Moved(s, c, Releasing(s.work[c].phase.held, Stop))
  }

  ghost predicate Valid(s: Sys, run: seq<Action>)
    decreases |run|
  {
    run == [] || (Enabled(s, run[0]) && Valid(Next(s, run[0]), run[1..]))
  }

  ghost function Exec(s: Sys, run: seq<Action>): Sys
    requires Valid(s, run)
    decreases |run|
  {
    if run == [] then s else Exec(Next(s, run[0]), run[1..])
  }

  ghost predicate Init(s: Sys) { s.rows == map[] && s.work == map[] && s.until == map[] && s.left == {} }

  // --------------------------------------------------------------- invariants

  /** The keys whose rows a caller is still answerable for. */
  predicate Accounted(w: Work, k: string) {
    match w
    case Holding(held) => k in held
    case Releasing(todo, BackTo(held, all)) => (k in held || k in todo) && k in all
    case Releasing(todo, Undo(outer)) => k in todo || k in outer
    case Releasing(todo, Stop) => k in todo
    case Ended(_, held) => k in held
    case _ => k in w.got || k in w.outer
  }

  /** The keys a caller counts on holding. */
  predicate Claims(w: Work, k: string) {
    match w
    case Holding(held) => k in held
    case Releasing(_, BackTo(held, _)) => k in held
    case Releasing(_, _) => false
    case Ended(queued, held) => queued && k in held
    case _ => k in w.got || k in w.outer
  }

  /** Someone of the owner answers for the key. */
  ghost predicate Answered(s: Sys, o: Owner, k: string) {
    exists c :: c in s.work && s.work[c].owner == o && Accounted(s.work[c].phase, k)
  }

  ghost predicate RowsAnswered(s: Sys) {
    forall id :: id in s.rows && s.rows[id].state == State.Held ==>
      Answered(s, s.rows[id].owner, s.rows[id].key) || (s.rows[id].owner, s.rows[id].key) in s.left
  }

  /** Every held row has the recorded expiry. */
  ghost predicate RowsRecorded(s: Sys) {
    forall id :: id in s.rows && s.rows[id].state == State.Held ==>
      (s.rows[id].owner, s.rows[id].key) in s.until && s.until[(s.rows[id].owner, s.rows[id].key)] == s.rows[id].expiresAt
  }

  /** What is being given up is not counted on, and what is counted on was held. */
  ghost predicate GivesUpOthers(w: Work) {
    w.Releasing? && w.goal.BackTo? ==>
      (forall k :: k in w.todo ==> k !in w.goal.held) && (forall k :: k in w.goal.held ==> k in w.goal.all)
  }

  /** One request per owner; handlers run only for a queued job, and never queue one. */
  ghost predicate PartiesOk(s: Sys) {
    && (forall c :: c in s.work ==> GivesUpOthers(s.work[c].phase))
    && (forall c, d :: c in s.work && d in s.work && s.work[c].owner == s.work[d].owner && !s.work[c].handler && !s.work[d].handler ==> c == d)
    && (forall c :: c in s.work && s.work[c].handler ==> Queued(s, s.work[c].owner) && !(s.work[c].phase.Ended? && s.work[c].phase.queued))
  }

  ghost predicate Inv(s: Sys) { OneHeldRow(s.rows) && RowsAnswered(s) && RowsRecorded(s) && PartiesOk(s) }

  lemma {:induction false} OmitIs(held: seq<string>, keys: seq<string>)
    ensures forall k :: k in Omit(held, keys) <==> k in held && k !in keys
  {
    if held != [] {
      OmitIs(held[..|held| - 1], keys);
      assert held == held[..|held| - 1] + [held[|held| - 1]];
    }
  }

  lemma OneHeldRowKept(s: Sys, a: Action)
    requires Enabled(s, a) && OneHeldRow(s.rows)
    ensures OneHeldRow(Next(s, a).rows)
  {
  }

  lemma QueuedStays(s: Sys, a: Action, o: Owner)
    requires Enabled(s, a) && Queued(s, o)
    ensures Queued(Next(s, a), o)
  {
    var r :| r in s.work && s.work[r].owner == o && !s.work[r].handler && s.work[r].phase.Ended? && s.work[r].phase.queued;
    assert r in Next(s, a).work && Next(s, a).work[r] == s.work[r];
  }

  lemma HandlersKept(s: Sys, a: Action, c: Caller)
    requires Enabled(s, a) && PartiesOk(s) && c in Next(s, a).work && Next(s, a).work[c].handler
    ensures var p := Next(s, a).work[c]; Queued(Next(s, a), p.owner) && !(p.phase.Ended? && p.phase.queued)
  {
    QueuedStays(s, a, Next(s, a).work[c].owner);
  }

  lemma OneRequestKept(s: Sys, a: Action, c: Caller, d: Caller)
    requires Enabled(s, a) && PartiesOk(s) && c in Next(s, a).work && d in Next(s, a).work
    requires Next(s, a).work[c].owner == Next(s, a).work[d].owner && !Next(s, a).work[c].handler && !Next(s, a).work[d].handler
    ensures c == d
  {
  }

  lemma GivesUpKept(s: Sys, a: Action, c: Caller)
    requires Enabled(s, a) && PartiesOk(s) && c in Next(s, a).work
    ensures GivesUpOthers(Next(s, a).work[c].phase)
  {
    if a.GiveUp? { OmitIs(s.work[a.who].phase.held, a.keys); }
  }

  lemma PartiesKept(s: Sys, a: Action)
    requires Enabled(s, a) && PartiesOk(s)
    ensures PartiesOk(Next(s, a))
  {
    var t := Next(s, a);
    forall c | c in t.work ensures GivesUpOthers(t.work[c].phase) { GivesUpKept(s, a, c); }
    forall c, d | c in t.work && d in t.work && t.work[c].owner == t.work[d].owner && !t.work[c].handler && !t.work[d].handler
      ensures c == d
    {
      OneRequestKept(s, a, c, d);
    }
    forall c | c in t.work && t.work[c].handler
      ensures Queued(t, t.work[c].owner) && !(t.work[c].phase.Ended? && t.work[c].phase.queued)
    {
      HandlersKept(s, a, c);
    }
  }

  /** A step changes what one caller answers for, by keys whose row it writes, releases or leaves behind. */
  lemma AccountedKept(s: Sys, a: Action, c: Caller, k: string)
    requires Enabled(s, a) && c in s.work && Accounted(s.work[c].phase, k)
    ensures c in Next(s, a).work && Next(s, a).work[c].owner == s.work[c].owner
    ensures Accounted(Next(s, a).work[c].phase, k) || (s.work[c].owner, k) in Next(s, a).left
            || (a.Release? && a.who == c && s.work[c].phase.todo[0] == k)
  {
    if a.GiveUp? { OmitIs(s.work[a.who].phase.held, a.keys); }
  }

  lemma ReleasedIsGone(s: Sys, a: Action)
    requires Enabled(s, a) && a.Release?
    ensures !Holds(Next(s, a).rows, s.work[a.who].owner, s.work[a.who].phase.todo[0])
  {
  }

  lemma AnsweredKept(s: Sys, a: Action, o: Owner, k: string)
    requires Enabled(s, a) && Answered(s, o, k)
    ensures Answered(Next(s, a), o, k) || (o, k) in Next(s, a).left || !Holds(Next(s, a).rows, o, k)
  {
    var c :| c in s.work && s.work[c].owner == o && Accounted(s.work[c].phase, k);
    AccountedKept(s, a, c, k);
    if a.Release? { ReleasedIsGone(s, a); }
  }

  lemma RowsAnsweredKept(s: Sys, a: Action)
    requires Enabled(s, a) && RowsAnswered(s)
    ensures RowsAnswered(Next(s, a))
  {
    var t := Next(s, a);
    forall id | id in t.rows && t.rows[id].state == State.Held
      ensures Answered(t, t.rows[id].owner, t.rows[id].key) || (t.rows[id].owner, t.rows[id].key) in t.left
    {
      var o, k := t.rows[id].owner, t.rows[id].key;
      assert HeldFor(t.rows[id], o, k);
      if a.Insert? && a.id == id && id !in s.rows {
        assert t.work[a.who].owner == o && Accounted(t.work[a.who].phase, k);
      } else {
        assert s.rows[id].state == State.Held && s.rows[id].owner == o && s.rows[id].key == k;
        if Answered(s, o, k) { AnsweredKept(s, a, o, k); }
      }
    }
  }

  lemma RowsRecordedKept(s: Sys, a: Action)
    requires Enabled(s, a) && RowsRecorded(s) && OneHeldRow(s.rows)
    ensures RowsRecorded(Next(s, a))
  {
    var t := Next(s, a);
    forall id | id in t.rows && t.rows[id].state == State.Held
      ensures (t.rows[id].owner, t.rows[id].key) in t.until && t.until[(t.rows[id].owner, t.rows[id].key)] == t.rows[id].expiresAt
    {
      if a.Insert? && id in s.rows { assert KeyFree(s.rows, s.work[a.who].phase.todo[0]) ==> s.rows[id].key != s.work[a.who].phase.todo[0]; }
    }
  }

  lemma InvKept(s: Sys, a: Action)
    requires Enabled(s, a) && Inv(s)
    ensures Inv(Next(s, a))
  {
    OneHeldRowKept(s, a);
    PartiesKept(s, a);
    RowsAnsweredKept(s, a);
    RowsRecordedKept(s, a);
  }

  lemma {:induction false} InvAlways(s: Sys, run: seq<Action>)
    requires Valid(s, run) && Inv(s)
    ensures Inv(Exec(s, run))
    decreases |run|
  {
    if run != [] {
      InvKept(s, run[0]);
      InvAlways(Next(s, run[0]), run[1..]);
    }
  }

  lemma Reachable(s: Sys, run: seq<Action>)
    requires Init(s) && Valid(s, run)
    ensures Inv(Exec(s, run))
  {
    InvAlways(s, run);
  }

  // -------------------------------------------------- what takes a key away

  /** Expiry reaches the row of the key, or someone of the owner releases it. */
  ghost predicate Loses(s: Sys, a: Action, o: Owner, k: string)
    requires Enabled(s, a)
  {
    || (a.Age? && exists id :: id in s.rows && HeldFor(s.rows[id], o, k) && s.rows[id].expiresAt <= a.before)
    || (a.Release? && s.work[a.who].owner == o && s.work[a.who].phase.todo[0] == k)
  }

  /** Someone of the owner tries to insert a row under the key. */
  ghost predicate Inserts(s: Sys, a: Action, o: Owner, k: string)
    requires Enabled(s, a)
  {
    a.Insert? && s.work[a.who].owner == o && s.work[a.who].phase.todo[0] == k
  }

  /** A key that is held stays held over a step exactly when the step does not take it away. */
  lemma KeepsIff(s: Sys, a: Action, o: Owner, k: string)
    requires Enabled(s, a) && OneHeldRow(s.rows) && Holds(s.rows, o, k)
    ensures Holds(Next(s, a).rows, o, k) <==> !Loses(s, a, o, k)
  {
    var t := Next(s, a);
    var id :| id in s.rows && HeldFor(s.rows[id], o, k);
    if !Loses(s, a, o, k) { assert id in t.rows && HeldFor(t.rows[id], o, k); }
    if Loses(s, a, o, k) {
      forall x | x in t.rows ensures !HeldFor(t.rows[x], o, k) { assert HeldFor(s.rows[x], o, k) ==> x == id; }
    }
  }

  ghost predicate Kept(s: Sys, run: seq<Action>, o: Owner, k: string)
    requires Valid(s, run)
    decreases |run|
  {
    run == [] || (!Loses(s, run[0], o, k) && Kept(Next(s, run[0]), run[1..], o, k))
  }

  ghost predicate NotInserted(s: Sys, run: seq<Action>, o: Owner, k: string)
    requires Valid(s, run)
    decreases |run|
  {
    run == [] || (!Inserts(s, run[0], o, k) && NotInserted(Next(s, run[0]), run[1..], o, k))
  }

  lemma NotHeldStep(s: Sys, a: Action, o: Owner, k: string)
    requires Enabled(s, a) && !Holds(s.rows, o, k) && !Inserts(s, a, o, k)
    ensures !Holds(Next(s, a).rows, o, k)
  {
    var t := Next(s, a);
    forall id | id in t.rows ensures !HeldFor(t.rows[id], o, k) {
      assert id in s.rows ==> !HeldFor(s.rows[id], o, k);
    }
  }

  lemma {:induction false} NotHeldStays(s: Sys, run: seq<Action>, o: Owner, k: string)
    requires Valid(s, run) && !Holds(s.rows, o, k) && NotInserted(s, run, o, k)
    ensures !Holds(Exec(s, run).rows, o, k)
    decreases |run|
  {
    if run != [] {
      NotHeldStep(s, run[0], o, k);
      NotHeldStays(Next(s, run[0]), run[1..], o, k);
    }
  }

  /**
   Over any run in which nobody of the owner inserts the key anew, whatever others
   do: it is still held at the end exactly when no expiry reached its row and nobody
   of the owner released it.
   */
  lemma {:induction false} KeepsOverRunIff(s: Sys, run: seq<Action>, o: Owner, k: string)
    requires Valid(s, run) && OneHeldRow(s.rows) && Holds(s.rows, o, k) && NotInserted(s, run, o, k)
    ensures Holds(Exec(s, run).rows, o, k) <==> Kept(s, run, o, k)
    decreases |run|
  {
    if run != [] {
      var a := run[0];
      KeepsIff(s, a, o, k);
      OneHeldRowKept(s, a);
      if Loses(s, a, o, k) { NotHeldStays(Next(s, a), run[1..], o, k); } else { KeepsOverRunIff(Next(s, a), run[1..], o, k); }
    }
  }

  /** The statement is one of a caller of the owner. */
  ghost predicate ActsFor(s: Sys, a: Action, o: Owner)
    requires Enabled(s, a)
  {
    !(a.Tick? || a.Age? || a.Prune? || a.BeginRequest? || a.BeginHandler?) && s.work[a.who].owner == o
  }

  ghost predicate Idle(s: Sys, run: seq<Action>, o: Owner)
    requires Valid(s, run)
    decreases |run|
  {
    run == [] || (!ActsFor(s, run[0], o) && Idle(Next(s, run[0]), run[1..], o))
  }

  /** Every expiry of the run looks at a time before t. */
  ghost predicate AgesBefore(run: seq<Action>, t: Time) {
    forall i :: 0 <= i < |run| && run[i].Age? ==> run[i].before < t
  }

  lemma AgesTail(run: seq<Action>, t: Time)
    requires run != []
    ensures AgesBefore(run, t) <==> (run[0].Age? ==> run[0].before < t) && AgesBefore(run[1..], t)
  {
    if AgesBefore(run, t) { forall i | 0 <= i < |run[1..]| && run[1..][i].Age? ensures run[1..][i].before < t { assert run[1..][i] == run[i + 1]; } }
    if (run[0].Age? ==> run[0].before < t) && AgesBefore(run[1..], t) {
      forall i | 0 <= i < |run| && run[i].Age? ensures run[i].before < t { assert i > 0 ==> run[i] == run[1..][i - 1]; }
    }
  }

  lemma IdleStep(s: Sys, a: Action, o: Owner, k: string, id: int)
    requires Enabled(s, a) && id in s.rows && HeldFor(s.rows[id], o, k) && !ActsFor(s, a, o)
    ensures (a.Age? ==> a.before < s.rows[id].expiresAt) ==> id in Next(s, a).rows && Next(s, a).rows[id] == s.rows[id]
  {
  }

  lemma {:induction false} IdleInsertsNothing(s: Sys, run: seq<Action>, o: Owner, k: string)
    requires Valid(s, run) && Idle(s, run, o)
    ensures NotInserted(s, run, o, k)
    decreases |run|
  {
    if run != [] { IdleInsertsNothing(Next(s, run[0]), run[1..], o, k); }
  }

  /**
   While the callers of an owner do nothing, its row of a key is still held
   exactly when every expiry looked at a time before that of the row.
   */
  lemma {:induction false} IdleKeepsIff(s: Sys, run: seq<Action>, o: Owner, k: string, id: int)
    requires Valid(s, run) && OneHeldRow(s.rows) && id in s.rows && HeldFor(s.rows[id], o, k) && Idle(s, run, o)
    ensures Holds(Exec(s, run).rows, o, k) <==> AgesBefore(run, s.rows[id].expiresAt)
    decreases |run|
  {
    if run != [] {
      var a := run[0];
      AgesTail(run, s.rows[id].expiresAt);
      IdleStep(s, a, o, k, id);
      OneHeldRowKept(s, a);
      if a.Age? && s.rows[id].expiresAt <= a.before {
        assert Holds(s.rows, o, k) && Loses(s, a, o, k);
        KeepsIff(s, a, o, k);
        IdleInsertsNothing(Next(s, a), run[1..], o, k);
        NotHeldStays(Next(s, a), run[1..], o, k);
      } else {
        IdleKeepsIff(Next(s, a), run[1..], o, k, id);
      }
    }
  }

  lemma {:induction false} IdleStands(s: Sys, run: seq<Action>, c: Caller)
    requires Valid(s, run) && c in s.work && Idle(s, run, s.work[c].owner)
    ensures c in Exec(s, run).work && Exec(s, run).work[c] == s.work[c]
    decreases |run|
  {
    if run != [] {
      assert c in Next(s, run[0]).work && Next(s, run[0]).work[c] == s.work[c];
      IdleStands(Next(s, run[0]), run[1..], c);
    }
  }

  /**
   A caller finds the row of its own owner and goes on to refresh it. Unless the
   others of the owner act in between, the refresh keeps the key exactly when every
   expiry in between looked at a time before that of the row.
   */
  lemma RefreshFindsRowIff(s: Sys, c: Caller, run: seq<Action>, id: int)
    requires Enabled(s, Look(c)) && OneHeldRow(s.rows) && Valid(Next(s, Look(c)), run) && Idle(Next(s, Look(c)), run, s.work[c].owner)
    requires id in s.rows && HeldFor(s.rows[id], s.work[c].owner, s.work[c].phase.todo[0])
    ensures var t := Exec(Next(s, Look(c)), run);
            && Enabled(t, Refresh(c))
            && (Holds(Next(t, Refresh(c)).rows, s.work[c].owner, s.work[c].phase.todo[0]) <==> AgesBefore(run, s.rows[id].expiresAt))
  {
    var o, k := s.work[c].owner, s.work[c].phase.todo[0];
    assert Holds(s.rows, o, k);
    var u := Next(s, Look(c));
    IdleStands(u, run, c);
    IdleKeepsIff(u, run, o, k, id);
    RefreshInvents(Exec(u, run), c, o, k);
  }

  /** A refresh neither makes a row nor takes one away. */
  lemma RefreshInvents(t: Sys, c: Caller, o: Owner, k: string)
    requires Enabled(t, Refresh(c))
    ensures Holds(Next(t, Refresh(c)).rows, o, k) <==> Holds(t.rows, o, k)
  {
    var u := Next(t, Refresh(c));
    assert u.rows.Keys == t.rows.Keys && forall id :: id in t.rows ==> (HeldFor(u.rows[id], o, k) <==> HeldFor(t.rows[id], o, k));
    if Holds(t.rows, o, k) { var id :| id in t.rows && HeldFor(t.rows[id], o, k); assert HeldFor(u.rows[id], o, k); }
    if Holds(u.rows, o, k) { var id :| id in u.rows && HeldFor(u.rows[id], o, k); assert HeldFor(t.rows[id], o, k); }
  }

  // --------------------------------------------------------------- exclusion

  /** A row is refreshed before it is over, and an attempt of a job begins after all of the owner have ended. */
  ghost predicate CalmStep(s: Sys, a: Action)
    requires Enabled(s, a)
  {
    && (a.Refresh? ==> var key := (s.work[a.who].owner, s.work[a.who].phase.todo[0]); key in s.until ==> s.until[key] > s.clock)
    && (a.BeginHandler? ==> forall d :: d in s.work && s.work[d].owner == a.owner ==> s.work[d].phase.Ended?)
  }

  ghost predicate Calm(s: Sys, run: seq<Action>)
    requires Valid(s, run)
    decreases |run|
  {
    run == [] || (CalmStep(s, run[0]) && Calm(Next(s, run[0]), run[1..]))
  }

  /** The caller counts on the key; a request that queued its job does until the first attempt of it begins. */
  ghost predicate Counts(s: Sys, c: Caller, k: string) {
    && c in s.work && Claims(s.work[c].phase, k)
    && (s.work[c].phase.Ended? ==> forall d :: d in s.work && s.work[d].owner == s.work[c].owner ==> !s.work[d].handler)
  }

  /** What the callers of an owner have as held until later is held. */
  ghost predicate UntilHolds(s: Sys) {
    forall o, k :: (o, k) in s.until && s.until[(o, k)] > s.clock ==> Holds(s.rows, o, k)
  }

  ghost predicate CountsRecorded(s: Sys) {
    && (forall c, k :: Counts(s, c, k) ==> (s.work[c].owner, k) in s.until)
    && (forall c :: c in s.work && s.work[c].phase.Refreshing? && s.work[c].phase.todo != [] ==> (s.work[c].owner, s.work[c].phase.todo[0]) in s.until)
  }

  ghost predicate OneActs(s: Sys) {
    forall c, d :: c in s.work && d in s.work && s.work[c].owner == s.work[d].owner && !s.work[c].phase.Ended? && !s.work[d].phase.Ended? ==> c == d
  }

  ghost predicate CalmInv(s: Sys) { Inv(s) && UntilHolds(s) && CountsRecorded(s) && OneActs(s) }

  lemma OneActsKept(s: Sys, a: Action)
    requires Enabled(s, a) && CalmStep(s, a) && OneActs(s)
    ensures OneActs(Next(s, a))
  {
  }

  lemma UntilHoldsStep(s: Sys, a: Action, o: Owner, k: string)
    requires Enabled(s, a) && CalmStep(s, a) && UntilHolds(s) && CountsRecorded(s) && RowsRecorded(s)
    requires (o, k) in Next(s, a).until && Next(s, a).until[(o, k)] > Next(s, a).clock
    ensures Holds(Next(s, a).rows, o, k)
  {
    var t := Next(s, a);
    if a.Insert? && (o, k) == (s.work[a.who].owner, s.work[a.who].phase.todo[0]) && KeyFree(s.rows, k) {
      assert HeldFor(t.rows[a.id], o, k);
    } else {
      var id :| id in s.rows && HeldFor(s.rows[id], o, k);
      assert s.until[(o, k)] == s.rows[id].expiresAt;
      assert id in t.rows && HeldFor(t.rows[id], o, k);
    }
  }

  lemma UntilHoldsKept(s: Sys, a: Action)
    requires Enabled(s, a) && CalmStep(s, a) && UntilHolds(s) && CountsRecorded(s) && RowsRecorded(s)
    ensures UntilHolds(Next(s, a))
  {
    forall o, k | (o, k) in Next(s, a).until && Next(s, a).until[(o, k)] > Next(s, a).clock ensures Holds(Next(s, a).rows, o, k) {
      UntilHoldsStep(s, a, o, k);
    }
  }

  lemma PartyStays(s: Sys, a: Action, c: Caller)
    requires Enabled(s, a) && c in s.work
    ensures c in Next(s, a).work && Next(s, a).work[c].owner == s.work[c].owner && Next(s, a).work[c].handler == s.work[c].handler
  {
  }

  /** A key that is counted on after a step was counted on before, or was inserted or refreshed by it. */
  lemma CountsBefore(s: Sys, a: Action, c: Caller, k: string)
    requires Enabled(s, a) && Counts(Next(s, a), c, k)
    ensures c in s.work
    ensures Counts(s, c, k) || ((a.Insert? || a.Refresh?) && a.who == c && k == s.work[c].phase.todo[0] && (s.work[c].owner, k) in Next(s, a).until)
  {
    var t := Next(s, a);
    if a.GiveUp? { OmitIs(s.work[a.who].phase.held, a.keys); }
    forall d | d in s.work ensures d in t.work && t.work[d].owner == s.work[d].owner && t.work[d].handler == s.work[d].handler { PartyStays(s, a, d); }
  }

  lemma CountsStep(s: Sys, a: Action, c: Caller, k: string)
    requires Enabled(s, a) && PartiesOk(s) && OneActs(s) && CountsRecorded(s) && Counts(Next(s, a), c, k)
    ensures (Next(s, a).work[c].owner, k) in Next(s, a).until
  {
    CountsBefore(s, a, c, k);
    if a.Release? && s.work[a.who].owner == s.work[c].owner {
      assert a.who == c;
    }
  }

  lemma CountsRecordedKept(s: Sys, a: Action)
    requires Enabled(s, a) && CalmStep(s, a) && Inv(s) && OneActs(s) && CountsRecorded(s)
    ensures CountsRecorded(Next(s, a))
  {
    var t := Next(s, a);
    forall c, k | Counts(t, c, k) ensures (t.work[c].owner, k) in t.until { CountsStep(s, a, c, k); }
    forall c | c in t.work && t.work[c].phase.Refreshing? && t.work[c].phase.todo != []
      ensures (t.work[c].owner, t.work[c].phase.todo[0]) in t.until
    {
      RefreshingStep(s, a, c);
    }
  }

  lemma RefreshingStep(s: Sys, a: Action, c: Caller)
    requires Enabled(s, a) && RowsRecorded(s) && OneActs(s) && CountsRecorded(s)
    requires c in Next(s, a).work && Next(s, a).work[c].phase.Refreshing? && Next(s, a).work[c].phase.todo != []
    ensures (Next(s, a).work[c].owner, Next(s, a).work[c].phase.todo[0]) in Next(s, a).until
  {
    if a.Look? && a.who == c {
      var id :| id in s.rows && HeldFor(s.rows[id], s.work[c].owner, s.work[c].phase.todo[0]);
    }
  }

  lemma CalmInvKept(s: Sys, a: Action)
    requires Enabled(s, a) && CalmStep(s, a) && CalmInv(s)
    ensures CalmInv(Next(s, a))
  {
    InvKept(s, a);
    OneActsKept(s, a);
    UntilHoldsKept(s, a);
    CountsRecordedKept(s, a);
  }

  lemma {:induction false} CalmAlways(s: Sys, run: seq<Action>)
    requires Valid(s, run) && Calm(s, run) && CalmInv(s)
    ensures CalmInv(Exec(s, run))
    decreases |run|
  {
    if run != [] {
      CalmInvKept(s, run[0]);
      CalmAlways(Next(s, run[0]), run[1..]);
    }
  }

  lemma CalmReachable(s: Sys, run: seq<Action>)
    requires Init(s) && Valid(s, run) && Calm(s, run)
    ensures CalmInv(Exec(s, run))
  {
    CalmAlways(s, run);
  }

  lemma RefreshWrites(t: Sys, c: Caller, id: int)
    requires Enabled(t, Refresh(c)) && id in t.rows && HeldFor(t.rows[id], t.work[c].owner, t.work[c].phase.todo[0])
    ensures id in Next(t, Refresh(c)).rows && Next(t, Refresh(c)).rows[id] == t.rows[id].(expiresAt := t.clock + Ttl(t.work[c]))
  {
  }

  /** In calm runs no refresh comes too late: each finds the row it is after and writes its new expiry. */
  lemma CalmRefreshFinds(s: Sys, run: seq<Action>, c: Caller) returns (id: int)
    requires Init(s) && Valid(s, run) && Calm(s, run) && Enabled(Exec(s, run), Refresh(c)) && CalmStep(Exec(s, run), Refresh(c))
    ensures var t := Exec(s, run);
            && id in t.rows && HeldFor(t.rows[id], t.work[c].owner, t.work[c].phase.todo[0])
            && id in Next(t, Refresh(c)).rows && Next(t, Refresh(c)).rows[id] == t.rows[id].(expiresAt := t.clock + Ttl(t.work[c]))
  {
    CalmReachable(s, run);
    var t := Exec(s, run);
    assert Holds(t.rows, t.work[c].owner, t.work[c].phase.todo[0]);
    id :| id in t.rows && HeldFor(t.rows[id], t.work[c].owner, t.work[c].phase.todo[0]);
    RefreshWrites(t, c, id);
  }

  /** The caller counts on the key, and as its owner has it the key is not over. */
  ghost predicate Live(s: Sys, c: Caller, k: string) {
    Counts(s, c, k) && ((s.work[c].owner, k) in s.until ==> s.until[(s.work[c].owner, k)] > s.clock)
  }

  /** Before it is over, a caller holds every key it counts on, over every calm run. */
  lemma LiveHolds(s: Sys, run: seq<Action>, c: Caller, k: string)
    requires Init(s) && Valid(s, run) && Calm(s, run) && Live(Exec(s, run), c, k)
    ensures Holds(Exec(s, run).rows, Exec(s, run).work[c].owner, k)
  {
    CalmReachable(s, run);
  }

  /**
   Exclusion: however the statements of requests and handlers interleave, no two
   callers count on one key before it is over, when rows are refreshed before they
   are over and the attempts of one job do not overlap.
   */
  lemma CallersExclude(s: Sys, run: seq<Action>, c: Caller, d: Caller, k: string)
    requires Init(s) && Valid(s, run) && Calm(s, run) && Live(Exec(s, run), c, k) && Live(Exec(s, run), d, k)
    ensures c == d
  {
    LiveHolds(s, run, c, k);
    LiveHolds(s, run, d, k);
    CalmReachable(s, run);
    var t := Exec(s, run);
    var i :| i in t.rows && HeldFor(t.rows[i], t.work[c].owner, k);
    var j :| j in t.rows && HeldFor(t.rows[j], t.work[d].owner, k);
    assert i == j;
  }

  // ------------------------------------------------------------------- exits

  /** A request that ended without its job holds nothing, but for keys whose release failed, over every run. */
  lemma FailedHoldsNothing(s: Sys, run: seq<Action>, c: Caller, k: string)
    requires Init(s) && Valid(s, run) && c in Exec(s, run).work
    requires !Exec(s, run).work[c].handler && Exec(s, run).work[c].phase == Ended(false, [])
    ensures Holds(Exec(s, run).rows, Exec(s, run).work[c].owner, k) ==> (Exec(s, run).work[c].owner, k) in Exec(s, run).left
  {
    Reachable(s, run);
    AloneOfItsOwner(Exec(s, run), c);
  }

  /** Until its job is queued a request is the only caller of its owner. */
  lemma AloneOfItsOwner(s: Sys, c: Caller)
    requires PartiesOk(s) && c in s.work && !s.work[c].handler && !(s.work[c].phase.Ended? && s.work[c].phase.queued)
    ensures forall d :: d in s.work && s.work[d].owner == s.work[c].owner ==> d == c
  {
    forall d | d in s.work && s.work[d].owner == s.work[c].owner ensures d == c {
      assert s.work[d].handler ==> Queued(s, s.work[d].owner);
    }
  }

  /**
   A request that queued its job holds exactly the keys it kept, while they are not
   over and until the first attempt of the job begins, and keys whose release failed.
   */
  lemma QueuedHoldsIff(s: Sys, run: seq<Action>, c: Caller, held: seq<string>, k: string)
    requires Init(s) && Valid(s, run) && Calm(s, run)
    requires c in Exec(s, run).work && !Exec(s, run).work[c].handler && Exec(s, run).work[c].phase == Ended(true, held)
    requires forall d :: d in Exec(s, run).work && Exec(s, run).work[d].owner == Exec(s, run).work[c].owner ==> !Exec(s, run).work[d].handler
    requires (Exec(s, run).work[c].owner, k) !in Exec(s, run).left && (k in held ==> Live(Exec(s, run), c, k))
    ensures Holds(Exec(s, run).rows, Exec(s, run).work[c].owner, k) <==> k in held
  {
    CalmReachable(s, run);
    if k in held { LiveHolds(s, run, c, k); }
  }

  /**
   When an attempt of the job keeps a key it has reserved, exactly, over any run in
   which nobody of the owner inserts the key anew: no expiry reaches the row, and no
   other attempt of the same job, whose deferred release is still to come, gives the
   key up.
   */
  lemma AttemptKeepsIff(s: Sys, run: seq<Action>, c: Caller, k: string)
    requires Inv(s) && Valid(s, run) && c in s.work && s.work[c].handler && s.work[c].phase.Holding? && k in s.work[c].phase.held
    requires Holds(s.rows, s.work[c].owner, k) && NotInserted(s, run, s.work[c].owner, k)
    ensures Holds(Exec(s, run).rows, s.work[c].owner, k) <==> Kept(s, run, s.work[c].owner, k)
  {
    KeepsOverRunIff(s, run, s.work[c].owner, k);
  }
}
