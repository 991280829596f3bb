/**
 The workflow read model: one row per job group with an aggregate status and a
 progress count, recomputed from the jobs table.
 */
module WorkflowStatus {
  import opened Common
  import opened JobTables
  import opened JobProtocol
  import opened JobInvariants
  import opened JobRuns

  datatype Aggregate = AggQueued | AggRunning | AggSucceeded | AggFailed | AggCancelled | AggPartial

  datatype Counts = Counts(queued: nat, running: nat, succeeded: nat, failed: nat, cancelled: nat) {
    function Total(): nat { queued + running + succeeded + failed + cancelled }
    function Done(): nat { succeeded + failed + cancelled }
  }

  datatype Workflow = Workflow(aggregate: Aggregate, current: nat, total: nat)

  /** What the counts of a group say about it as a whole. */
  function AggregateOf(c: Counts): Aggregate {
    if c.running > 0 then AggRunning
    else if c.queued > 0 then
      if c.succeeded > 0 || c.failed > 0 || c.cancelled > 0 then AggRunning else AggQueued
    else if c.failed == 0 && c.cancelled == 0 then AggSucceeded
    else if c.succeeded == 0 && c.failed == 0 then AggCancelled
    else if c.succeeded > 0 then AggPartial
    else AggFailed
  }

  /** The case analysis as the store runs it, on the counts and their sum. */
  function AggregateStatus(c: Counts, total: nat): (a: Aggregate)
    requires total == c.Total()
    ensures a == AggregateOf(c)
  {
    if c.running > 0 then AggRunning
    else if c.queued > 0 then
      if c.succeeded + c.failed + c.cancelled > 0 then AggRunning else AggQueued
    else if c.succeeded == total then AggSucceeded
    else if c.cancelled == total then AggCancelled
    else if c.succeeded > 0 then AggPartial
    else if c.failed > 0 then AggFailed
    else AggPartial
  }

  function Members(jobs: map<JobId, Job>, g: int): set<JobId> {
    set j | j in jobs && jobs[j].group == g
  }

  function With(jobs: map<JobId, Job>, g: int, status: Status): set<JobId> {
    set j | j in jobs && jobs[j].group == g && jobs[j].status == status
  }

  function CountsOf(jobs: map<JobId, Job>, g: int): Counts {
    Counts(|With(jobs, g, Queued)|, |With(jobs, g, Running)|, |With(jobs, g, Succeeded)|,
           |With(jobs, g, Failed)|, |With(jobs, g, Cancelled)|)
  }

  function SummaryOf(c: Counts): Workflow {
    Workflow(AggregateOf(c), c.Done(), c.Total())
  }

  function Summary(jobs: map<JobId, Job>, g: int): Workflow {
    SummaryOf(CountsOf(jobs, g))
  }

  /** Every group with a job has a row, and every such row equals its recomputation. */
  ghost predicate Agrees(jobs: map<JobId, Job>, workflows: map<int, Workflow>) {
    forall j :: j in jobs ==> jobs[j].group in workflows && workflows[jobs[j].group] == Summary(jobs, jobs[j].group)
  }

  /** The next groups with a job in increasing order, all of them or as many as the limit allows. */
  ghost predicate GroupsPage(jobs: map<JobId, Job>, after: Option<int>, limit: nat, page: seq<int>) {
    && |page| <= limit
    && (forall i, k :: 0 <= i < k < |page| ==> page[i] < page[k])
    && (forall g :: g in page ==> Members(jobs, g) != {} && (after.Some? ==> g > after.value))
    && (forall g :: Members(jobs, g) != {} && (after.Some? ==> g > after.value) && g !in page ==> |page| == limit > 0 && page[limit - 1] < g)
  }

  // ---------------------------------------------------- meaning of the aggregate

  /** Each aggregate status, read back as a statement about the members of the group. */
  lemma AggregateMeans(jobs: map<JobId, Job>, g: int)
    requires Members(jobs, g) != {}
    ensures var a := Summary(jobs, g).aggregate;
            && (a == AggQueued <==> forall j :: j in Members(jobs, g) ==> jobs[j].status == Queued)
            && (a == AggSucceeded <==> forall j :: j in Members(jobs, g) ==> jobs[j].status == Succeeded)
            && (a == AggCancelled <==> forall j :: j in Members(jobs, g) ==> jobs[j].status == Cancelled)
            && (a == AggRunning || a == AggQueued <==> exists j :: j in Members(jobs, g) && !jobs[j].status.Terminal())
            && (a == AggFailed <==>
                  (forall j :: j in Members(jobs, g) ==> jobs[j].status.Terminal() && jobs[j].status != Succeeded)
                  && exists j :: j in Members(jobs, g) && jobs[j].status == Failed)
            && (a == AggPartial <==>
                  && (forall j :: j in Members(jobs, g) ==> jobs[j].status.Terminal())
                  && (exists j :: j in Members(jobs, g) && jobs[j].status == Succeeded)
                  && (exists j :: j in Members(jobs, g) && jobs[j].status != Succeeded))
  {
    Partition(jobs, g);
    forall status ensures With(jobs, g, status) != {} <==> exists j :: j in Members(jobs, g) && jobs[j].status == status
    {
      if With(jobs, g, status) != {} { SomeMember(With(jobs, g, status)); var j :| j in With(jobs, g, status); assert j in Members(jobs, g); }
      if j :| j in Members(jobs, g) && jobs[j].status == status { assert j in With(jobs, g, status); }
    }
    forall status ensures |With(jobs, g, status)| == |Members(jobs, g)| <==> forall j :: j in Members(jobs, g) ==> jobs[j].status == status
    {
      AllOrFewer(With(jobs, g, status), Members(jobs, g));
    }
    SomeMember(Members(jobs, g));
    var j :| j in Members(jobs, g);
    assert jobs[j].status == Queued || jobs[j].status == Running || jobs[j].status.Terminal();
    assert j in With(jobs, g, jobs[j].status);
  }

  lemma AllOrFewer(x: set<JobId>, y: set<JobId>)
    requires x <= y
    ensures |x| <= |y| && (|x| == |y| <==> x == y)
  {
    assert y == x + (y - x);
  }

  /** The five status sets partition the group. */
  lemma Partition(jobs: map<JobId, Job>, g: int)
    ensures CountsOf(jobs, g).Total() == |Members(jobs, g)|
  {
    var q, r, s, f, c := With(jobs, g, Queued), With(jobs, g, Running), With(jobs, g, Succeeded), With(jobs, g, Failed), With(jobs, g, Cancelled);
    forall j | j in Members(jobs, g) ensures j in q + r + s + f + c {
      assert jobs[j].status.Queued? || jobs[j].status.Running? || jobs[j].status.Terminal();
    }
    assert Members(jobs, g) == q + r + s + f + c;
    assert |q + r| == |q| + |r|;
    assert |q + r + s| == |q + r| + |s|;
    assert |q + r + s + f| == |q + r + s| + |f|;
    assert |q + r + s + f + c| == |q + r + s + f| + |c|;
  }

  /** Progress is complete exactly when the aggregate is neither queued nor running. */
  lemma ProgressCompleteIff(jobs: map<JobId, Job>, g: int)
    requires Members(jobs, g) != {}
    ensures Summary(jobs, g).current <= Summary(jobs, g).total && 0 < Summary(jobs, g).total
    ensures Summary(jobs, g).current == Summary(jobs, g).total <==>
            Summary(jobs, g).aggregate != AggQueued && Summary(jobs, g).aggregate != AggRunning
  {
    Partition(jobs, g);
  }

  // -------------------------------------------------------------- across steps

  /** The group a queue step writes a job of, if it writes one. */
  ghost function TouchedJob(s: Sys, a: Action): Option<JobId>
    requires Enabled(s, a)
  {
    match a
    case Enqueue(id, _) => Some(id)
    case Claim(_, job) => Some(job)
    case Start(slot) => Some(s.slots[slot].flight.value.job)
    case BeatLease(slot) => Some(s.slots[slot].flight.value.job)
    case EndPass(slot, _, _) => Some(s.slots[slot].flight.value.job)
    case SweepOne(sweep, _) => Some(s.sweeps[sweep].todo[0].0)
    case _ => None
  }

  /** Only the touched job can change, and a job never changes its group. */
  lemma TouchesOne(s: Sys, a: Action, j: JobId)
    requires Enabled(s, a)
    ensures TouchedJob(s, a) != Some(j) ==> Row(Next(s, a).db, j) == Row(s.db, j)
    ensures j in s.db.jobs ==> j in Next(s, a).db.jobs && Next(s, a).db.jobs[j].group == s.db.jobs[j].group
  {
    RowFootprint(s, a, j);
  }

  ghost predicate SameGroup(jobs: map<JobId, Job>, jobs': map<JobId, Job>, g: int) {
    && (forall j :: j in jobs && jobs[j].group == g ==> j in jobs' && jobs'[j] == jobs[j])
    && (forall j :: j in jobs' && jobs'[j].group == g ==> j in jobs && jobs'[j] == jobs[j])
  }

  lemma SameWith(jobs: map<JobId, Job>, jobs': map<JobId, Job>, g: int, st: Status)
    requires SameGroup(jobs, jobs', g)
    ensures With(jobs', g, st) == With(jobs, g, st)
  {
    forall j ensures j in With(jobs', g, st) <==> j in With(jobs, g, st) {}
  }

  lemma SameMembers(jobs: map<JobId, Job>, jobs': map<JobId, Job>, g: int)
    requires SameGroup(jobs, jobs', g)
    ensures Members(jobs', g) == Members(jobs, g)
  {
    forall j ensures j in Members(jobs', g) <==> j in Members(jobs, g) {}
  }

  lemma SameGroupSameSummary(jobs: map<JobId, Job>, jobs': map<JobId, Job>, g: int)
    requires SameGroup(jobs, jobs', g)
    ensures Summary(jobs', g) == Summary(jobs, g) && Members(jobs', g) == Members(jobs, g)
  {
    SameMembers(jobs, jobs', g);
    SameWith(jobs, jobs', g, Queued);
    SameWith(jobs, jobs', g, Running);
    SameWith(jobs, jobs', g, Succeeded);
    SameWith(jobs, jobs', g, Failed);
    SameWith(jobs, jobs', g, Cancelled);
  }

  /** A step leaves the summary of every group but that of the job it writes as it was. */
  lemma OtherGroupsUnchanged(s: Sys, a: Action, g: int)
    requires Enabled(s, a)
    requires TouchedJob(s, a).Some? && TouchedJob(s, a).value in Next(s, a).db.jobs ==>
               Next(s, a).db.jobs[TouchedJob(s, a).value].group != g
    ensures Summary(Next(s, a).db.jobs, g) == Summary(s.db.jobs, g)
    ensures Members(Next(s, a).db.jobs, g) == Members(s.db.jobs, g)
  {
    var jobs, jobs' := s.db.jobs, Next(s, a).db.jobs;
    var touched := TouchedJob(s, a);
    forall j ensures (j in jobs && jobs[j].group == g ==> j in jobs' && jobs'[j] == jobs[j])
                  && (j in jobs' && jobs'[j].group == g ==> j in jobs && jobs'[j] == jobs[j])
    {
      TouchesOne(s, a, j);
    }
    SameGroupSameSummary(jobs, jobs', g);
  }

  /** A step followed by a refresh of the group it touched keeps the read model in agreement. */
  lemma RefreshRestores(s: Sys, a: Action, workflows: map<int, Workflow>)
    requires Enabled(s, a) && Agrees(s.db.jobs, workflows)
    ensures TouchedJob(s, a).None? ==> Agrees(Next(s, a).db.jobs, workflows)
    ensures TouchedJob(s, a).Some? && TouchedJob(s, a).value in Next(s, a).db.jobs ==>
              var g := Next(s, a).db.jobs[TouchedJob(s, a).value].group;
              Agrees(Next(s, a).db.jobs, workflows[g := Summary(Next(s, a).db.jobs, g)])
  {
    var t := Next(s, a);
    forall j | j in t.db.jobs
      ensures (TouchedJob(s, a).None? || (TouchedJob(s, a).value in t.db.jobs && t.db.jobs[j].group != t.db.jobs[TouchedJob(s, a).value].group)) ==>
                t.db.jobs[j].group in workflows && workflows[t.db.jobs[j].group] == Summary(t.db.jobs, t.db.jobs[j].group)
    {
      var g := t.db.jobs[j].group;
      if TouchedJob(s, a).None? || (TouchedJob(s, a).value in t.db.jobs && g != t.db.jobs[TouchedJob(s, a).value].group) {
        OtherGroupsUnchanged(s, a, g);
        assert j in Members(t.db.jobs, g);
        assert j in Members(s.db.jobs, g);
      }
    }
  }

  function Finished(jobs: map<JobId, Job>, g: int): set<JobId> {
    set j | j in jobs && jobs[j].group == g && jobs[j].status.Terminal()
  }

  /** How many jobs of a group have finished. */
  function DoneOf(jobs: map<JobId, Job>, g: int): nat { |Finished(jobs, g)| }

  lemma DoneIs(jobs: map<JobId, Job>, g: int)
    ensures CountsOf(jobs, g).Done() == DoneOf(jobs, g)
  {
    var s, f, c := With(jobs, g, Succeeded), With(jobs, g, Failed), With(jobs, g, Cancelled);
    forall j ensures j in Finished(jobs, g) <==> j in s + f + c {}
    assert Finished(jobs, g) == s + f + c;
    assert |s + f| == |s| + |f|;
    assert |s + f + c| == |s + f| + |c|;
  }

  /** No step takes a finished job out of a group. */
  lemma DoneGrows(s: Sys, a: Action, g: int)
    requires Enabled(s, a) && Inv(s)
    ensures DoneOf(s.db.jobs, g) <= DoneOf(Next(s, a).db.jobs, g)
  {
    forall j | j in Finished(s.db.jobs, g) ensures j in Finished(Next(s, a).db.jobs, g) {
      RowFootprint(s, a, j);
      ChangeJustified(s, a, j);
    }
    AllOrFewer(Finished(s.db.jobs, g), Finished(Next(s, a).db.jobs, g));
  }

  /** While no job joins a group, its progress never falls and its total stays. */
  lemma ProgressStep(s: Sys, a: Action, g: int)
    requires Enabled(s, a) && Inv(s)
    requires Members(Next(s, a).db.jobs, g) == Members(s.db.jobs, g)
    ensures CountsOf(s.db.jobs, g).Done() <= CountsOf(Next(s, a).db.jobs, g).Done()
    ensures CountsOf(s.db.jobs, g).Total() == CountsOf(Next(s, a).db.jobs, g).Total()
  {
    DoneGrows(s, a, g);
    DoneIs(s.db.jobs, g);
    DoneIs(Next(s, a).db.jobs, g);
    Partition(s.db.jobs, g);
    Partition(Next(s, a).db.jobs, g);
  }

  ghost predicate NoNewMember(run: seq<Action>, g: int) {
    forall i :: 0 <= i < |run| && run[i].Enqueue? ==> run[i].req.group != g
  }

  lemma StillNoNewMember(run: seq<Action>, g: int)
    requires run != [] && NoNewMember(run, g)
    ensures NoNewMember(run[1..], g)
  {
    forall i | 0 <= i < |run[1..]| && run[1..][i].Enqueue? ensures run[1..][i].req.group != g { assert run[1..][i] == run[i + 1]; }
  }

  lemma MembersFixed(s: Sys, a: Action, g: int)
    requires Enabled(s, a) && (a.Enqueue? ==> a.req.group != g)
    ensures Members(Next(s, a).db.jobs, g) == Members(s.db.jobs, g)
  {
    forall j ensures j in Members(Next(s, a).db.jobs, g) <==> j in Members(s.db.jobs, g) { RowFootprint(s, a, j); }
  }

  lemma {:induction false} ProgressNeverFalls(s: Sys, run: seq<Action>, g: int)
    requires Valid(s, run) && Inv(s) && OneSlotPerWorker(s) && LeasesPositive(s) && NoNewMember(run, g)
    ensures CountsOf(s.db.jobs, g).Done() <= CountsOf(Exec(s, run).db.jobs, g).Done()
    ensures CountsOf(s.db.jobs, g).Total() == CountsOf(Exec(s, run).db.jobs, g).Total()
    decreases |run|
  {
    if run != [] {
      MembersFixed(s, run[0], g);
      ProgressStep(s, run[0], g);
      InvKept(s, run[0]);
      StillNoNewMember(run, g);
      ProgressNeverFalls(Next(s, run[0]), run[1..], g);
    }
  }
}
