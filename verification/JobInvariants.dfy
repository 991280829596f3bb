/**
 What every step of the queue keeps: the shape of each row, the fence between
 workers, the agreement of the event log with the table, and the bound on
 retries. Each action changes at most one row, in one of a few ways; the proofs
 go through that description (Change, Footprint).
 */
module JobInvariants {
  import opened Common
  import opened JobTables
  import opened JobProtocol

  // ------------------------------------------------- one row under one action

  datatype Change =
    | Same
    | Born(row: Job)
    | Taken(worker: WorkerId, now: Time, lease: Time)
    | Begun(now: Time)
    | Renewed(expires: Time)
    | Ended(status: Status, now: Time)
    | SentBack(runAfter: Time)

  function Row(db: Db, j: JobId): Option<Job> {
    if j in db.jobs then Some(db.jobs[j]) else None
  }

  ghost function ChangeOf(s: Sys, a: Action, j: JobId): Change
    requires Enabled(s, a)
  {
    match a
    case Enqueue(id, req) => if id == j then Born(NewRow(req, s.clock)) else Same
    case Claim(slot, job) => if job == j then Taken(s.slots[slot].worker, s.clock, s.slots[slot].lease) else Same
    case Start(slot) => if s.slots[slot].flight.value.job == j then Begun(s.clock) else Same
    case BeatLease(slot) =>
      if s.slots[slot].flight.value.job == j && Owns(s.db, j, s.slots[slot].worker) && s.db.jobs[j].leaseExpires.Some?
      then Renewed(s.clock + s.slots[slot].lease) else Same
    case EndPass(slot, outcome, delay) =>
      var f := s.slots[slot].flight.value;
      if f.job == j && Owns(s.db, j, s.slots[slot].worker) then
        match Decide(f.row, outcome)
        case Finish(status) => Ended(status, s.clock)
        case Retry => SentBack(s.clock + delay)
        case LeaveRunning => Same
      else Same
    case SweepOne(sweep, delay) =>
      var (k, snap) := s.sweeps[sweep].todo[0];
      if k == j && SameLease(s.db, j, snap) then
        if snap.attempts < snap.maxAttempts then SentBack(s.sweeps[sweep].now + delay) else Ended(Failed, s.clock)
      else Same
    case _ => Same
  }

  function Changed(r: Option<Job>, c: Change): Option<Job> {
    match (c, r)
    case (Born(row), _) => Some(row)
    case (Taken(w, now, lease), Some(r)) => Some(ClaimedRow(r, w, now, lease))
    case (Begun(now), Some(r)) => Some(StartedRow(r, now))
    case (Renewed(expires), Some(r)) => Some(r.(leaseExpires := Some(expires)))
    case (Ended(status, now), Some(r)) => Some(FinishedRow(r, status, now))
    case (SentBack(runAfter), Some(r)) => Some(RequeuedRow(r, runAfter))
    case (_, _) => r
  }

  function Told(t: Tally, c: Change): Tally {
    match c
    case Born(_) => t.(status := Some(Queued), queued := t.queued + 1)
    case Taken(w, _, _) => t.(status := Some(Running), claimed := t.claimed + 1, holder := Some(w))
    case Begun(_) => t.(status := Some(Running), started := true)
    case Ended(status, _) => t.(status := Some(status), ended := t.ended + 1)
    case SentBack(_) => t.(status := Some(Queued), retried := t.retried + 1, holder := None)
    case _ => t
  }

  /** An action changes the row of job j as ChangeOf says and in no other way. */
  lemma RowFootprint(s: Sys, a: Action, j: JobId)
    requires Enabled(s, a)
    ensures Row(Next(s, a).db, j) == Changed(Row(s.db, j), ChangeOf(s, a, j))
  {
  }

  ghost predicate LogWellFormed(db: Db) {
    forall e :: e in db.events ==> e.job in db.jobs
  }

  lemma LogStaysWellFormed(s: Sys, a: Action)
    requires Enabled(s, a) && LogWellFormed(s.db)
    requires forall b :: Busy(s, b) ==> s.slots[b].flight.value.job in s.db.jobs
    ensures LogWellFormed(Next(s, a).db)
  {
    if a.DeleteEvents? { WithoutSubset(s.db.events, a.events); }
  }

  lemma LogOfEndPass(s: Sys, a: Action, j: JobId)
    requires Enabled(s, a) && a.EndPass?
    ensures Replay(Next(s, a).db.events, j) == Told(Replay(s.db.events, j), ChangeOf(s, a, j))
  {
    var f, w := s.slots[a.slot].flight.value, s.slots[a.slot].worker;
    if Owns(s.db, f.job, w) {
      match Decide(f.row, a.outcome)
      case Finish(status) => ReplayAppend(s.db.events, Event(s.db.nextEvent, f.job, TerminalEvent(status), status, Some(w), s.clock), j);
      case Retry => ReplayAppend(s.db.events, Event(s.db.nextEvent, f.job, EvRetryScheduled, Queued, Some(w), s.clock), j);
      case LeaveRunning =>
    }
  }

  lemma LogOfSweep(s: Sys, a: Action, j: JobId)
    requires Enabled(s, a) && a.SweepOne?
    ensures Replay(Next(s, a).db.events, j) == Told(Replay(s.db.events, j), ChangeOf(s, a, j))
  {
    var sw := s.sweeps[a.sweep];
    var (k, snap) := sw.todo[0];
    if SameLease(s.db, k, snap) {
      var lapsed := Event(s.db.nextEvent, k, EvLeaseExpired, Running, snap.leasedBy, s.clock);
      ReplayAppend(s.db.events, lapsed, j);
      var second := if snap.attempts < snap.maxAttempts
        then Event(s.db.nextEvent + 1, k, EvRetryScheduled, Queued, Some(sw.worker), s.clock)
        else Event(s.db.nextEvent + 1, k, EvFailed, Failed, Some(sw.worker), s.clock);
      ReplayAppend(s.db.events + [lapsed], second, j);
    }
  }

  lemma LogOfOthers(s: Sys, a: Action, j: JobId)
    requires Enabled(s, a) && !a.DeleteEvents? && !a.EndPass? && !a.SweepOne?
    ensures Replay(Next(s, a).db.events, j) == Told(Replay(s.db.events, j), ChangeOf(s, a, j))
  {
    var ev, ev' := s.db.events, Next(s, a).db.events;
    if |ev'| == |ev| + 1 {
      ReplayAppend(ev, ev'[|ev|], j);
    }
  }

  /** An action appends to the status events of a job exactly those that tell its change. */
  lemma LogFootprint(s: Sys, a: Action, j: JobId)
    requires Enabled(s, a) && LogWellFormed(s.db)
    requires j in s.db.jobs ==> !s.db.jobs[j].status.Terminal()
    ensures Replay(Next(s, a).db.events, j) == Told(Replay(s.db.events, j), ChangeOf(s, a, j))
  {
    match a
    case DeleteEvents(ids) => ReplayWithoutOthers(s.db.events, ids, j);
    case EndPass(_, _, _) => LogOfEndPass(s, a, j);
    case SweepOne(_, _) => LogOfSweep(s, a, j);
    case _ => LogOfOthers(s, a, j);
  }

  // --------------------------------------------------------------- invariants

  predicate RowOk(r: Job) {
    && 0 < r.maxAttempts && r.attempts <= r.maxAttempts
    && (r.status == Queued ==> r.attempts < r.maxAttempts && r.leasedBy.None? && r.leaseExpires.None?)
    && (r.status == Running ==> 0 < r.attempts && r.leasedBy.Some? && r.leaseExpires.Some?)
    && (r.status.Terminal() <==> r.finishedAt.Some?)
  }

  ghost predicate RowsOk(db: Db) {
    forall j :: j in db.jobs ==> RowOk(db.jobs[j])
  }

  /** A job in memory is an earlier reading of a row that still exists. */
  ghost predicate FlightsOk(s: Sys) {
    forall b :: Busy(s, b) ==>
      var f := s.slots[b].flight.value;
      && f.job in s.db.jobs
      && f.row.maxAttempts == s.db.jobs[f.job].maxAttempts && f.row.lockKey == s.db.jobs[f.job].lockKey
      && f.row.attempts <= s.db.jobs[f.job].attempts
  }

  ghost predicate SlotFenced(s: Sys, b: SlotId) {
    Busy(s, b) && Owns(s.db, s.slots[b].flight.value.job, s.slots[b].worker) ==>
      s.slots[b].flight.value.row.attempts == s.db.jobs[s.slots[b].flight.value.job].attempts
  }

  /** A slot that passes the lease guard holds the attempt that is in the row. */
  ghost predicate Fenced(s: Sys) {
    forall b :: b in s.slots ==> SlotFenced(s, b)
  }

  ghost predicate SnapOk(s: Sys, j: JobId, snap: Job) {
    && j in s.db.jobs && snap.maxAttempts == s.db.jobs[j].maxAttempts
    && snap.leaseExpires.Some? && snap.leaseExpires.value <= s.clock
    && (SameLease(s.db, j, snap) ==> snap.attempts == s.db.jobs[j].attempts)
  }

  ghost predicate SweepsOk(s: Sys) {
    forall m, i :: m in s.sweeps && 0 <= i < |s.sweeps[m].todo| ==>
      SnapOk(s, s.sweeps[m].todo[i].0, s.sweeps[m].todo[i].1)
  }

  /** What the events of a job that is not finished must add up to. */
  function Expected(r: Job): Tally
    requires r.status == Running ==> 0 < r.attempts
  {
    Tally(Some(r.status), 1, r.attempts, r.startedAt.Some?,
          if r.status == Running then r.attempts - 1 else r.attempts, 0, r.leasedBy)
  }

  ghost predicate HistoryOk(db: Db) {
    && LogWellFormed(db)
    && forall j :: j in db.jobs && RowOk(db.jobs[j]) ==>
         && Replay(db.events, j).ended <= 1
         && (!db.jobs[j].status.Terminal() ==> Replay(db.events, j) == Expected(db.jobs[j]))
  }

  ghost predicate Inv(s: Sys) {
    RowsOk(s.db) && FlightsOk(s) && Fenced(s) && SweepsOk(s) && HistoryOk(s.db)
  }

  // ------------------------------------------------------------- preservation

  /**
   The only step that can break the fence is a claim, and it does so exactly
   when another slot with the claimant's worker id still holds the claimed job.
   */
  lemma ClaimKeepsFenceIff(s: Sys, a: Action)
    requires Enabled(s, a) && a.Claim? && FlightsOk(s) && Fenced(s)
    ensures Fenced(Next(s, a)) <==>
            !exists b :: Busy(s, b) && b != a.slot && s.slots[b].worker == s.slots[a.slot].worker
                         && s.slots[b].flight.value.job == a.job
  {
    var t := Next(s, a);
    forall b | b in s.slots
      ensures SlotFenced(t, b) <==>
              !(Busy(s, b) && b != a.slot && s.slots[b].worker == s.slots[a.slot].worker && s.slots[b].flight.value.job == a.job)
    {
      if b != a.slot && Busy(s, b) {
        var f := s.slots[b].flight.value;
        RowFootprint(s, a, f.job);
        assert t.slots[b] == s.slots[b];
        assert SlotFenced(s, b);
        assert f.row.attempts <= s.db.jobs[f.job].attempts;
      }
    }
    assert t.slots.Keys == s.slots.Keys;
  }

  lemma OtherStepsKeepFence(s: Sys, a: Action)
    requires Enabled(s, a) && !a.Claim? && FlightsOk(s) && Fenced(s)
    ensures Fenced(Next(s, a))
  {
    var t := Next(s, a);
    WorkersFixed(s, a);
    forall b | b in t.slots
      ensures SlotFenced(t, b)
    {
      assert SlotFenced(s, b);
      if Busy(t, b) {
        var f := s.slots[b].flight.value;
        RowFootprint(s, a, f.job);
      }
    }
  }

  lemma FenceKept(s: Sys, a: Action)
    requires Enabled(s, a) && FlightsOk(s) && Fenced(s) && OneSlotPerWorker(s)
    ensures Fenced(Next(s, a))
  {
    if a.Claim? { ClaimKeepsFenceIff(s, a); } else { OtherStepsKeepFence(s, a); }
  }

  lemma FlightsKept(s: Sys, a: Action)
    requires Enabled(s, a) && FlightsOk(s)
    ensures FlightsOk(Next(s, a))
  {
    var t := Next(s, a);
    forall b | Busy(t, b)
      ensures var f := t.slots[b].flight.value;
              && f.job in t.db.jobs
              && f.row.maxAttempts == t.db.jobs[f.job].maxAttempts && f.row.lockKey == t.db.jobs[f.job].lockKey
              && f.row.attempts <= t.db.jobs[f.job].attempts
    {
      RowFootprint(s, a, t.slots[b].flight.value.job);
    }
  }

  /** The row a change starts from allows it, and carries the attempt the change was decided on. */
  lemma ChangeJustified(s: Sys, a: Action, j: JobId)
    requires Enabled(s, a) && RowsOk(s.db) && FlightsOk(s) && Fenced(s) && SweepsOk(s)
    ensures match ChangeOf(s, a, j)
            case Same => true
            case Born(row) => j !in s.db.jobs && RowOk(row) && row.status == Queued && row.attempts == 0
            case Taken(_, _, lease) => j in s.db.jobs && s.db.jobs[j].status == Queued && s.db.jobs[j].attempts < s.db.jobs[j].maxAttempts && lease > 0
            case Begun(_) => j in s.db.jobs && s.db.jobs[j].status == Running
            case Renewed(expires) => j in s.db.jobs && s.db.jobs[j].status == Running
            case Ended(status, _) => j in s.db.jobs && s.db.jobs[j].status == Running && status.Terminal()
            case SentBack(_) => j in s.db.jobs && s.db.jobs[j].status == Running && s.db.jobs[j].attempts < s.db.jobs[j].maxAttempts
  {
    match a
    case EndPass(slot, _, _) => assert SlotFenced(s, slot);
    case SweepOne(sweep, _) =>
      var todo := s.sweeps[sweep].todo;
      assert SnapOk(s, todo[0].0, todo[0].1);
    case _ =>
  }

  lemma RowsKept(s: Sys, a: Action)
    requires Enabled(s, a) && RowsOk(s.db) && FlightsOk(s) && Fenced(s) && SweepsOk(s)
    ensures RowsOk(Next(s, a).db)
  {
    forall j | j in Next(s, a).db.jobs
      ensures RowOk(Next(s, a).db.jobs[j])
    {
      RowFootprint(s, a, j);
      ChangeJustified(s, a, j);
    }
  }

  /** A lease that had run out when it was read is never written again with the same expiry. */
  lemma SnapKept(s: Sys, a: Action, j: JobId, snap: Job)
    requires Enabled(s, a) && SnapOk(s, j, snap)
    requires a.BeatLease? ==> s.slots[a.slot].lease > 0
    ensures SnapOk(Next(s, a), j, snap)
  {
    RowFootprint(s, a, j);
    WorkersFixed(s, a);
  }

  ghost predicate LeasesPositive(s: Sys) {
    forall b :: b in s.slots ==> s.slots[b].lease > 0
  }

  lemma SweepsKept(s: Sys, a: Action)
    requires Enabled(s, a) && SweepsOk(s) && LeasesPositive(s)
    ensures SweepsOk(Next(s, a))
  {
    var t := Next(s, a);
    forall m, i | m in t.sweeps && 0 <= i < |t.sweeps[m].todo|
      ensures SnapOk(t, t.sweeps[m].todo[i].0, t.sweeps[m].todo[i].1)
    {
      if a.BeginSweep? && a.sweep == m {
      } else {
        var i0 := if a.SweepOne? && a.sweep == m then i + 1 else i;
        assert t.sweeps[m].todo[i] == s.sweeps[m].todo[i0];
        SnapKept(s, a, s.sweeps[m].todo[i0].0, s.sweeps[m].todo[i0].1);
      }
    }
  }

  lemma HistoryKept(s: Sys, a: Action)
    requires Enabled(s, a) && RowsOk(s.db) && FlightsOk(s) && Fenced(s) && SweepsOk(s) && HistoryOk(s.db)
    ensures HistoryOk(Next(s, a).db)
  {
    var t := Next(s, a);
    LogStaysWellFormed(s, a);
    forall j | j in t.db.jobs && RowOk(t.db.jobs[j])
      ensures Replay(t.db.events, j).ended <= 1
      ensures !t.db.jobs[j].status.Terminal() ==> Replay(t.db.events, j) == Expected(t.db.jobs[j])
    {
      JobHistoryKept(s, a, j);
    }
  }

  lemma JobHistoryKept(s: Sys, a: Action, j: JobId)
    requires Enabled(s, a) && RowsOk(s.db) && FlightsOk(s) && Fenced(s) && SweepsOk(s) && HistoryOk(s.db)
    requires j in Next(s, a).db.jobs && RowOk(Next(s, a).db.jobs[j])
    ensures var t := Next(s, a);
            Replay(t.db.events, j).ended <= 1
            && (!t.db.jobs[j].status.Terminal() ==> Replay(t.db.events, j) == Expected(t.db.jobs[j]))
  {
    RowFootprint(s, a, j);
    ChangeJustified(s, a, j);
    if j !in s.db.jobs {
      ReplayNoEvents(s.db.events, j);
      LogFootprint(s, a, j);
    } else if !s.db.jobs[j].status.Terminal() {
      LogFootprint(s, a, j);
    } else {
      TerminalLog(s, a, j);
    }
  }

  lemma TerminalLog(s: Sys, a: Action, j: JobId)
    requires Enabled(s, a) && RowsOk(s.db) && FlightsOk(s) && Fenced(s) && SweepsOk(s)
    requires j in s.db.jobs && s.db.jobs[j].status.Terminal()
    ensures Replay(Next(s, a).db.events, j).ended <= Replay(s.db.events, j).ended
  {
    ChangeJustified(s, a, j);
    match a
    case DeleteEvents(ids) => EndedWithout(s.db.events, ids, j);
    case EndPass(_, _, _) => LogOfEndPass(s, a, j);
    case SweepOne(_, _) => LogOfSweep(s, a, j);
    case _ => LogOfOthers(s, a, j);
  }

  lemma InvInit(s: Sys)
    requires Init(s)
    ensures Inv(s)
  {
  }

  lemma InvKept(s: Sys, a: Action)
    requires Enabled(s, a) && Inv(s) && OneSlotPerWorker(s) && LeasesPositive(s)
    ensures Inv(Next(s, a)) && OneSlotPerWorker(Next(s, a)) && LeasesPositive(Next(s, a))
  {
    WorkersFixed(s, a);
    FenceKept(s, a);
    FlightsKept(s, a);
    RowsKept(s, a);
    SweepsKept(s, a);
    HistoryKept(s, a);
  }

  lemma {:induction false} InvAlways(s: Sys, run: seq<Action>)
    requires Valid(s, run) && Inv(s) && OneSlotPerWorker(s) && LeasesPositive(s)
    ensures Inv(Exec(s, run)) && OneSlotPerWorker(Exec(s, run)) && LeasesPositive(Exec(s, run))
    decreases |run|
  {
    if run != [] {
      InvKept(s, run[0]);
      InvAlways(Next(s, run[0]), run[1..]);
    }
  }
}
