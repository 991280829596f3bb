/**
 How long a queued job can be overtaken, and the retry delay the bound rests on.
 */
module ClaimFairness {
  import opened Common
  import opened JobTables
  import opened JobProtocol
  import opened JobInvariants
  import opened JobRuns

  /** The queued jobs that do not come after job j in claim order. */
  ghost function Ahead(db: Db, j: JobId): set<JobId>
    requires j in db.jobs
  {
    set k | k in db.jobs && k != j && db.jobs[k].status == Queued && ClaimBefore(db.jobs[k], db.jobs[j])
  }

  /** The row a step inserts into the queue or sends back to it, if it does. */
  ghost function QueuedRow(s: Sys, a: Action): Option<(JobId, Job)>
    requires Enabled(s, a)
  {
    match a
    case Enqueue(id, req) => Some((id, NewRow(req, s.clock)))
    case EndPass(slot, outcome, delay) =>
      var f := s.slots[slot].flight.value;
      if Owns(s.db, f.job, s.slots[slot].worker) && Decide(f.row, outcome).Retry?
      then Some((f.job, RequeuedRow(s.db.jobs[f.job], s.clock + delay))) else None
    case SweepOne(sweep, delay) =>
      var (k, snap) := s.sweeps[sweep].todo[0];
      if SameLease(s.db, k, snap) && snap.attempts < snap.maxAttempts
      then Some((k, RequeuedRow(s.db.jobs[k], s.sweeps[sweep].now + delay))) else None
    case _ => None
  }

  /** The step queues a row that does not come after job j. */
  ghost predicate Overtakes(s: Sys, a: Action, j: JobId)
    requires Enabled(s, a) && j in s.db.jobs
  {
    QueuedRow(s, a).Some? && ClaimBefore(QueuedRow(s, a).value.1, s.db.jobs[j])
  }

  /** Job j is queued in every state of the run. */
  ghost predicate Waits(s: Sys, run: seq<Action>, j: JobId)
    requires Valid(s, run)
    decreases |run|
  {
    j in s.db.jobs && s.db.jobs[j].status == Queued && (run != [] ==> Waits(Next(s, run[0]), run[1..], j))
  }

  ghost function AllClaims(run: seq<Action>): nat {
    if run == [] then 0 else (if run[0].Claim? then 1 else 0) + AllClaims(run[1..])
  }

  /** How many steps of the run queue a row that does not come after job j. */
  ghost function Overtakings(s: Sys, run: seq<Action>, j: JobId): nat
    requires Valid(s, run) && Waits(s, run, j)
    decreases |run|
  {
    if run == [] then 0 else (if Overtakes(s, run[0], j) then 1 else 0) + Overtakings(Next(s, run[0]), run[1..], j)
  }

  /** The queued rows after a step: one more, one less, or the same; a job still queued keeps its row. */
  lemma QueueAfter(s: Sys, a: Action, k: JobId)
    requires Enabled(s, a) && Inv(s)
    ensures var t := Next(s, a);
            (k in t.db.jobs && t.db.jobs[k].status == Queued) <==>
            (QueuedRow(s, a).Some? && QueuedRow(s, a).value.0 == k)
            || (k in s.db.jobs && s.db.jobs[k].status == Queued && !(a.Claim? && a.job == k))
    ensures var t := Next(s, a);
            k in t.db.jobs && t.db.jobs[k].status == Queued ==>
              t.db.jobs[k] == if QueuedRow(s, a).Some? && QueuedRow(s, a).value.0 == k then QueuedRow(s, a).value.1 else s.db.jobs[k]
    ensures QueuedRow(s, a).Some? && QueuedRow(s, a).value.0 == k ==> !(k in s.db.jobs && s.db.jobs[k].status == Queued)
  {
    RowFootprint(s, a, k);
    ChangeJustified(s, a, k);
  }

  /**
   While job j waits, a step puts a job ahead of it exactly when it inserts or
   sends back a row that does not come after it in claim order.
   */
  lemma PutsAheadIff(s: Sys, a: Action, j: JobId)
    requires Enabled(s, a) && Inv(s)
    requires j in s.db.jobs && s.db.jobs[j].status == Queued
    requires j in Next(s, a).db.jobs && Next(s, a).db.jobs[j].status == Queued
    ensures Next(s, a).db.jobs[j] == s.db.jobs[j]
    ensures (exists k :: k in Ahead(Next(s, a).db, j) && k !in Ahead(s.db, j)) <==> Overtakes(s, a, j)
  {
    var t := Next(s, a);
    QueueAfter(s, a, j);
    if k :| k in Ahead(t.db, j) && k !in Ahead(s.db, j) { QueueAfter(s, a, k); }
    if Overtakes(s, a, j) {
      var k := QueuedRow(s, a).value.0;
      QueueAfter(s, a, k);
      assert k in Ahead(t.db, j) && k !in Ahead(s.db, j);
    }
  }

  /** The jobs ahead after a step, as a set: those before, less a claimed one, and an overtaking one. */
  lemma AheadAfter(s: Sys, a: Action, j: JobId, left: set<JobId>, back: set<JobId>)
    requires Enabled(s, a) && Inv(s)
    requires j in s.db.jobs && s.db.jobs[j].status == Queued
    requires j in Next(s, a).db.jobs && Next(s, a).db.jobs[j].status == Queued
    requires left == Ahead(s.db, j) - (if a.Claim? then {a.job} else {})
    requires back == if Overtakes(s, a, j) then {QueuedRow(s, a).value.0} else {}
    ensures Next(s, a).db.jobs[j] == s.db.jobs[j]
    ensures Ahead(Next(s, a).db, j) == left + back && left !! back
  {
    QueueAfter(s, a, j);
    forall k ensures (k in Ahead(Next(s, a).db, j) <==> k in left || k in back) && !(k in left && k in back) {
      QueueAfter(s, a, k);
    }
  }

  /** The job a claim takes is ahead of every due job it leaves waiting. */
  lemma ClaimTakesAhead(s: Sys, a: Action, j: JobId)
    requires Enabled(s, a) && Inv(s) && a.Claim?
    requires j in s.db.jobs && s.db.jobs[j].status == Queued && s.db.jobs[j].runAfter <= s.clock
    requires j in Next(s, a).db.jobs && Next(s, a).db.jobs[j].status == Queued
    ensures a.job in Ahead(s.db, j)
  {
    assert RowOk(s.db.jobs[j]);
    assert Eligible(s.db.jobs[j], s.clock);
  }

  /** The jobs ahead of a job that is due: each overtaking step adds one, each claim takes one away, nothing else counts. */
  lemma AheadBalance(s: Sys, a: Action, j: JobId)
    requires Enabled(s, a) && Inv(s)
    requires j in s.db.jobs && s.db.jobs[j].status == Queued && s.db.jobs[j].runAfter <= s.clock
    requires j in Next(s, a).db.jobs && Next(s, a).db.jobs[j].status == Queued
    ensures Next(s, a).db.jobs[j] == s.db.jobs[j]
    ensures |Ahead(Next(s, a).db, j)| + (if a.Claim? then 1 else 0) == |Ahead(s.db, j)| + (if Overtakes(s, a, j) then 1 else 0)
  {
    var before := Ahead(s.db, j);
    var left := before - (if a.Claim? then {a.job} else {});
    var back := if Overtakes(s, a, j) then {QueuedRow(s, a).value.0} else {};
    AheadAfter(s, a, j, left, back);
    if a.Claim? { ClaimTakesAhead(s, a, j); }
    assert |left + back| == |left| + |back|;
  }

  /**
   The overtaking of a job that is due and keeps waiting, exactly: the claims made
   meanwhile and the jobs ahead of it at the end are the jobs ahead of it at the
   start and those that steps of the run queued before it.
   */
  lemma {:induction false} OvertakingBalance(s: Sys, run: seq<Action>, j: JobId)
    requires Valid(s, run) && Inv(s) && OneSlotPerWorker(s) && LeasesPositive(s)
    requires Waits(s, run, j) && s.db.jobs[j].runAfter <= s.clock
    ensures j in Exec(s, run).db.jobs
    ensures AllClaims(run) + |Ahead(Exec(s, run).db, j)| == |Ahead(s.db, j)| + Overtakings(s, run, j)
    decreases |run|
  {
    if run != [] {
      var t := Next(s, run[0]);
      AheadBalance(s, run[0], j);
      WorkersFixed(s, run[0]);
      InvKept(s, run[0]);
      OvertakingBalance(t, run[1..], j);
    }
  }

  /** Bounded overtaking: at most the jobs ahead at the start and the steps that queue a row before it. */
  lemma BoundedOvertaking(s: Sys, run: seq<Action>, j: JobId)
    requires Valid(s, run) && Inv(s) && OneSlotPerWorker(s) && LeasesPositive(s)
    requires Waits(s, run, j) && s.db.jobs[j].runAfter <= s.clock
    ensures AllClaims(run) <= |Ahead(s.db, j)| + Overtakings(s, run, j)
  {
    OvertakingBalance(s, run, j);
  }

  /**
   Once the clock is past the run_after of job j, only two kinds of step can queue
   a row before it: an insert whose request asks for a time not after that
   run_after, and a sweep whose clock was read at least the drawn delay before it.
   */
  lemma OnlyTwoOvertake(s: Sys, a: Action, j: JobId)
    requires Enabled(s, a) && j in s.db.jobs && s.db.jobs[j].runAfter < s.clock && Overtakes(s, a, j)
    ensures (a.Enqueue? && a.req.runAfter.Some? && a.req.runAfter.value <= s.db.jobs[j].runAfter)
            || (a.SweepOne? && s.sweeps[a.sweep].now + a.delay <= s.db.jobs[j].runAfter)
  {
  }

  // ------------------------------------------------------------- retry delay

  /** min(5 s * 2^(attempt-1), 5 min); attempts below one count as one. */
  function BaseDelay(attempt: int): Time
    decreases attempt
  {
    if attempt <= 1 then 5 * SECOND
    else if BaseDelay(attempt - 1) * 2 >= RETRY_MAX then RETRY_MAX
    else BaseDelay(attempt - 1) * 2
  }

  /** The delay with its jitter, cut off at the maximum. */
  function Jittered(delay: Time, jitter: real): Time {
    var d := (delay as real * jitter).Floor;
    if d > RETRY_MAX then RETRY_MAX else d
  }

  method Backoff(attempt: int, jitter: real) returns (d: Time)
    requires 0.8 <= jitter < 1.2
    ensures d == Jittered(BaseDelay(attempt), jitter)
    ensures RETRY_MIN <= d <= RETRY_MAX
  {
    var n := if attempt <= 0 then 1 else attempt;
    var delay := 5 * SECOND;
    var i := 1;
    while i < n
      invariant 1 <= i <= n && delay == BaseDelay(i)
    {
      delay := delay * 2;
      i := i + 1;
      if delay >= RETRY_MAX {
        delay := RETRY_MAX;
        StaysAtMaximum(i, n);
        break;
      }
    }
    BaseDelayRange(n);
    JitterRange(BaseDelay(n), jitter);
    d := (delay as real * jitter).Floor;
    if d > RETRY_MAX { d := RETRY_MAX; }
  }

  lemma {:induction false} StaysAtMaximum(i: int, n: int)
    requires 1 <= i <= n && BaseDelay(i) == RETRY_MAX
    ensures BaseDelay(n) == RETRY_MAX
    decreases n
  {
    if i < n { StaysAtMaximum(i, n - 1); }
  }

  /** The base delay starts at five seconds, never shrinks, and never passes five minutes. */
  lemma {:induction false} BaseDelayRange(n: int)
    ensures 5 * SECOND <= BaseDelay(n) <= RETRY_MAX
    ensures BaseDelay(n) <= BaseDelay(n + 1)
    decreases n
  {
    if n > 1 { BaseDelayRange(n - 1); }
  }

  /** The base delays in seconds: they double from five up to five minutes. */
  lemma BaseDelayIs(n: int)
    ensures BaseDelay(n) == SECOND * if n <= 1 then 5 else if n == 2 then 10 else if n == 3 then 20 else if n == 4 then 40
                                     else if n == 5 then 80 else if n == 6 then 160 else 300
  {
    assert BaseDelay(3) == 20 * SECOND && BaseDelay(5) == 80 * SECOND && BaseDelay(7) == 300 * SECOND;
    if n > 7 { StaysAtMaximum(7, n); }
  }

  /** The jittered delay: the product, to whole nanoseconds, or five minutes if that is less. */
  lemma JitteredIs(delay: Time, jitter: real)
    ensures var d := Jittered(delay, jitter);
            if delay as real * jitter < (300 * SECOND + 1) as real then d as real <= delay as real * jitter < d as real + 1.0
            else d == 300 * SECOND
  {
  }

  lemma JitterRange(delay: Time, jitter: real)
    requires 0.8 <= jitter < 1.2 && 5 * SECOND <= delay
    ensures RETRY_MIN <= Jittered(delay, jitter) <= RETRY_MAX
  {
    assert delay as real * jitter >= (5 * SECOND) as real * 0.8;
    assert (5 * SECOND) as real * 0.8 == RETRY_MIN as real;
  }
}
