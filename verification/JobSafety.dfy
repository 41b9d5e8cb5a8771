/** Claims: which jobs are held by whom, in every run with claims taken in one step or in two. */
module JobSafety {
  import opened Wrappers
  import opened TransactionTypes
  import opened Tables
  import opened Protocol

  /** A worker's copy of its job agrees with the table. */
  predicate Matches(t: Tables, job: ClaimedJob) {
    job.jobId in t.jobs && job == Claimed(t, job.jobId)
  }

  ghost predicate JobInv(s: State) {
    && (forall id :: id in s.t.jobs ==> id < s.t.nextId && s.t.jobs[id].createdAt <= s.now)
    && (forall w :: !s.Of(w).Idle? ==> Matches(s.t, s.Of(w).job))
    && (forall w :: s.Of(w).Selected? ==> s.t.jobs[s.Of(w).job.jobId].status == Pending)
    && (forall w :: Working(s.Of(w)) ==> s.t.jobs[s.Of(w).job.jobId].status == Indexing)
    && (forall v, w :: v != w && !s.Of(v).Idle? && !s.Of(w).Idle? ==> s.Of(v).job.jobId != s.Of(w).job.jobId)
    && NoRepeats(s.claims)
    && (forall id :: id in s.claims <==> id in s.t.jobs && s.t.jobs[id].status != Pending)
  }

  lemma StartsWithoutJobs(now: int)
    ensures JobInv(Init(now))
  {
  }

  lemma CreateKeepsJobs(s: State, step: Step)
    requires JobInv(s) && step.Create? && Enabled(s, step)
    ensures JobInv(Apply(s, step))
  {
    var s' := Apply(s, step);
    assert s.t.nextId !in s.t.jobs;
    assert forall w :: s'.Of(w) == s.Of(w);
  }

  lemma SelectKeepsJobs(s: State, step: Step)
    requires JobInv(s) && step.Select? && Enabled(s, step)
    ensures JobInv(Apply(s, step))
  {
    var s' := Apply(s, step);
    assert forall v :: v != step.w ==> s'.Of(v) == s.Of(v);
    forall v | !s.Of(v).Idle?
      ensures s.Of(v).job.jobId != step.id
    {
      if s.Of(v).Selected? {
        assert s.workers[v].job.jobId in Locked(s);
      }
    }
  }

  /** A pending job held by nobody but `w` becomes indexing under `w`. */
  lemma IndexingKeepsJobs(s: State, s': State, w: Worker, id: JobId)
    requires JobInv(s) && id in s.t.jobs && s.t.jobs[id].status == Pending
    requires s.Of(w).Idle? || (s.Of(w).Selected? && s.Of(w).job.jobId == id)
    requires forall v :: v != w && !s.Of(v).Idle? ==> s.Of(v).job.jobId != id
    requires s' == DoClaim(s, w, Claimed(s.t, id))
    ensures JobInv(s')
  {
    assert forall v :: v != w ==> s'.Of(v) == s.Of(v);
    assert forall v :: v != w && !s.Of(v).Idle? ==> s'.t.jobs[s.Of(v).job.jobId] == s.t.jobs[s.Of(v).job.jobId];
    assert Matches(s'.t, s'.Of(w).job);
    assert id !in s.claims;
    forall i | i in s'.claims
      ensures i in s'.t.jobs && s'.t.jobs[i].status != Pending
    {
      if i != id {
        assert i in s.claims;
      }
    }
  }

  lemma ClaimKeepsJobs(s: State, step: Step)
    requires JobInv(s) && step.Claim? && Enabled(s, step)
    ensures JobInv(Apply(s, step))
  {
    forall v | v != step.w && !s.Of(v).Idle?
      ensures s.Of(v).job.jobId != step.id
    {
      if s.Of(v).Selected? {
        assert s.workers[v].job.jobId in Locked(s);
      }
    }
    IndexingKeepsJobs(s, Apply(s, step), step.w, step.id);
  }

  lemma CommitKeepsJobs(s: State, step: Step)
    requires JobInv(s) && step.Commit? && Enabled(s, step)
    ensures JobInv(Apply(s, step))
  {
    assert Matches(s.t, s.Of(step.w).job);
    IndexingKeepsJobs(s, Apply(s, step), step.w, s.Of(step.w).job.jobId);
  }

  /** A status update changes one row, from indexing, and keeps what its worker has copied. */
  lemma UpdatedJobs(t: Tables, id: JobId, status: Status, now: int)
    requires status == Ready || status == Failed
    ensures var t' := UpdateStatus(t, id, status, now);
            && t'.jobs.Keys == t.jobs.Keys && t'.nextId == t.nextId
            && (forall i :: i in t.jobs && i != id ==> t'.jobs[i] == t.jobs[i])
            && (forall i :: i in t.jobs ==>
                  && Claimed(t', i) == Claimed(t, i) && t'.jobs[i].createdAt == t.jobs[i].createdAt
                  && (t'.jobs[i].status == Pending <==> t.jobs[i].status == Pending))
  {
  }

  lemma MoveKeepsJobs(s: State, s': State, w: Worker)
    requires JobInv(s) && OnlyMoves(s, s', w)
    ensures JobInv(s')
  {
    assert forall v :: v != w ==> s'.Of(v) == s.Of(v);
  }

  /** A status update lets its worker go and touches no job that another worker holds. */
  lemma SettleKeepsJobs(s: State, s': State, w: Worker, status: Status)
    requires JobInv(s) && (status == Ready || status == Failed) && !s.Of(w).Idle?
    requires s' == Move(s, w, Idle).(t := UpdateStatus(s.t, s.Of(w).job.jobId, status, s.now))
    ensures JobInv(s')
  {
    UpdatedJobs(s.t, s.Of(w).job.jobId, status, s.now);
    forall v | v != w && !s.Of(v).Idle?
      ensures s'.Of(v) == s.Of(v) && Matches(s'.t, s'.Of(v).job)
      ensures s'.t.jobs[s.Of(v).job.jobId].status == s.t.jobs[s.Of(v).job.jobId].status
    {
      assert Matches(s.t, s.Of(v).job);
    }
  }

  lemma UpdateKeepsJobs(s: State, step: Step, w: Worker)
    requires JobInv(s) && (step == UpdateReady(w) || step == UpdateError(w)) && Enabled(s, step)
    ensures JobInv(Apply(s, step))
  {
    if step.UpdateError? {
      SettleKeepsJobs(s, Apply(s, step), w, Failed);
    } else if CanUpdate(s.t, s.Of(w).job.jobId, Ready) {
      SettleKeepsJobs(s, Apply(s, step), w, Ready);
    } else {
      MoveKeepsJobs(s, Apply(s, step), w);
    }
  }

  lemma StepKeepsJobs(s: State, step: Step)
    requires JobInv(s) && Enabled(s, step)
    ensures JobInv(Apply(s, step))
  {
    match step
    case Tick(_) => assert forall w :: Apply(s, step).Of(w) == s.Of(w);
    case Create(_, _, _) => CreateKeepsJobs(s, step);
    case Claim(w, id) => ClaimKeepsJobs(s, step);
    case Select(w, id) => SelectKeepsJobs(s, step);
    case Commit(w) => CommitKeepsJobs(s, step);
    case UpdateReady(w) => UpdateKeepsJobs(s, step, w);
    case UpdateError(w) => UpdateKeepsJobs(s, step, w);
    case _ =>
      LocalStepMoves(s, step);
      MoveKeepsJobs(s, Apply(s, step), step.w);
  }

  lemma {:induction false} RunKeepsJobs(s: State, steps: seq<Step>)
    requires JobInv(s) && IsRun(s, steps)
    ensures JobInv(After(s, steps))
    decreases |steps|
  {
    if steps != [] {
      RunKeepsJobs(s, steps[..|steps| - 1]);
      StepKeepsJobs(After(s, steps[..|steps| - 1]), steps[|steps| - 1]);
    }
  }

  /**
   * Whatever the interleaving, and even when a claim is split into lock and update, no job is claimed twice
   * and no two workers hold the same job.
   */
  lemma NoJobClaimedTwice(now: int, steps: seq<Step>)
    requires IsRun(Init(now), steps)
    ensures NoRepeats(After(Init(now), steps).claims)
    ensures var s := After(Init(now), steps);
            forall v, w :: v != w && !s.Of(v).Idle? && !s.Of(w).Idle? ==> s.Of(v).job.jobId != s.Of(w).job.jobId
  {
    RunKeepsJobs(Init(now), steps);
  }

  // ---------- Claims taken in one step ----------

  /** At most one job of an address is indexing. */
  ghost predicate OneIndexing(t: Tables) {
    forall i, j | i in t.jobs && j in t.jobs && i != j && t.jobs[i].status == Indexing
        && t.jobs[j].status == Indexing ::
      t.jobs[i].address != t.jobs[j].address
  }

  /** A pending job is no older than any job of its address that has left the queue. */
  ghost predicate OldestFirst(t: Tables) {
    forall i, j | i in t.jobs && j in t.jobs && t.jobs[i].address == t.jobs[j].address
                  && t.jobs[i].status == Pending && t.jobs[j].status != Pending ::
      t.jobs[j].createdAt <= t.jobs[i].createdAt
  }

  /** The claims made for one address, in the order they were made, are in creation order. */
  ghost predicate ClaimedInOrder(t: Tables, claims: seq<JobId>) {
    forall m, n | 0 <= m < n < |claims| && claims[m] in t.jobs && claims[n] in t.jobs
                  && t.jobs[claims[m]].address == t.jobs[claims[n]].address ::
      t.jobs[claims[m]].createdAt <= t.jobs[claims[n]].createdAt
  }

  ghost predicate QueueInv(s: State) {
    && (forall w :: !s.Of(w).Selected?)
    && OneIndexing(s.t)
    && OldestFirst(s.t)
    && ClaimedInOrder(s.t, s.claims)
  }

  /** The claimed job is the oldest pending one of an address that nothing is indexing. */
  lemma NextJobOfItsAddress(s: State, id: JobId)
    requires (forall w :: !s.Of(w).Selected?) && IsNextJob(s.t, Locked(s), id)
    ensures forall i :: i in s.t.jobs && s.t.jobs[i].address == s.t.jobs[id].address ==>
              && s.t.jobs[i].status != Indexing
              && (s.t.jobs[i].status == Pending ==> s.t.jobs[id].createdAt <= s.t.jobs[i].createdAt)
  {
    assert forall w :: w in s.workers ==> s.workers[w] == s.Of(w);
    assert Locked(s) == {};
    forall i | i in s.t.jobs && s.t.jobs[i].address == s.t.jobs[id].address && s.t.jobs[i].status == Pending
      ensures s.t.jobs[id].createdAt <= s.t.jobs[i].createdAt
    {
      assert Eligible(s.t, i);
    }
  }

  lemma ClaimKeepsTables(s: State, id: JobId, w: Worker)
    requires QueueInv(s) && IsNextJob(s.t, Locked(s), id)
    ensures OneIndexing(ClaimJob(s.t, id, w, s.now)) && OldestFirst(ClaimJob(s.t, id, w, s.now))
  {
    NextJobOfItsAddress(s, id);
  }

  lemma ClaimKeepsOrder(s: State, id: JobId, w: Worker)
    requires JobInv(s) && QueueInv(s) && IsNextJob(s.t, Locked(s), id)
    ensures ClaimedInOrder(ClaimJob(s.t, id, w, s.now), s.claims + [id])
  {
    forall i | i in s.claims
      ensures i in s.t.jobs && s.t.jobs[i].status != Pending
    {
    }
  }

  lemma ClaimKeepsQueue(s: State, step: Step)
    requires JobInv(s) && QueueInv(s) && step.Claim? && Enabled(s, step)
    ensures QueueInv(Apply(s, step))
  {
    ClaimKeepsTables(s, step.id, step.w);
    ClaimKeepsOrder(s, step.id, step.w);
    StepSelectsNothing(s, step);
  }

  /** Without a claim, old jobs keep address, age and queue membership, and new jobs join at the end. */
  ghost predicate QueueOnlyGrows(t: Tables, t': Tables) {
    && (forall i :: i in t.jobs ==>
          && i in t'.jobs && t'.jobs[i].address == t.jobs[i].address && t'.jobs[i].createdAt == t.jobs[i].createdAt
          && (t'.jobs[i].status == Pending <==> t.jobs[i].status == Pending)
          && (t'.jobs[i].status == Indexing ==> t.jobs[i].status == Indexing))
    && (forall i :: i in t'.jobs && i !in t.jobs ==>
          t'.jobs[i].status == Pending && forall j :: j in t.jobs ==> t.jobs[j].createdAt <= t'.jobs[i].createdAt)
    && (forall i, j :: i in t'.jobs && i !in t.jobs && j in t'.jobs && j !in t.jobs ==> i == j)
  }

  lemma StepGrowsQueue(s: State, step: Step)
    requires JobInv(s) && Enabled(s, step) && Atomic(step) && !step.Claim?
    ensures QueueOnlyGrows(s.t, Apply(s, step).t) && Apply(s, step).claims == s.claims
  {
    if LocalStep(step) {
      LocalStepMoves(s, step);
    }
  }

  lemma StepSelectsNothing(s: State, step: Step)
    requires Enabled(s, step) && Atomic(step)
    ensures forall v :: Apply(s, step).Of(v).Selected? ==> s.Of(v).Selected?
  {
    if LocalStep(step) {
      LocalStepMoves(s, step);
    }
  }

  lemma GrowthKeepsQueue(s: State, s': State)
    requires JobInv(s) && QueueInv(s) && QueueOnlyGrows(s.t, s'.t) && s'.claims == s.claims
    requires forall v :: s'.Of(v).Selected? ==> s.Of(v).Selected?
    ensures QueueInv(s')
  {
    assert forall v :: !s.Of(v).Selected?;
  }

  lemma StepKeepsQueue(s: State, step: Step)
    requires JobInv(s) && QueueInv(s) && Enabled(s, step) && Atomic(step)
    ensures QueueInv(Apply(s, step))
  {
    if step.Claim? {
      ClaimKeepsQueue(s, step);
    } else {
      StepGrowsQueue(s, step);
      StepSelectsNothing(s, step);
      GrowthKeepsQueue(s, Apply(s, step));
    }
  }

  lemma {:induction false} RunKeepsQueue(s: State, steps: seq<Step>)
    requires JobInv(s) && QueueInv(s) && IsRun(s, steps) && AllAtomic(steps)
    ensures JobInv(After(s, steps)) && QueueInv(After(s, steps))
    decreases |steps|
  {
    if steps != [] {
      RunKeepsQueue(s, steps[..|steps| - 1]);
      StepKeepsJobs(After(s, steps[..|steps| - 1]), steps[|steps| - 1]);
      StepKeepsQueue(After(s, steps[..|steps| - 1]), steps[|steps| - 1]);
    }
  }

  /**
   * With claims taken in one step: in every reachable state an address has at most one indexing job,
   * and the jobs of an address have been claimed in creation order.
   */
  lemma OneIndexingJobPerAddress(now: int, steps: seq<Step>)
    requires IsRun(Init(now), steps) && AllAtomic(steps)
    ensures var s := After(Init(now), steps);
            && OneIndexing(s.t)
            && (forall id :: id in s.claims ==> id in s.t.jobs)
            && ClaimedInOrder(s.t, s.claims)
  {
    RunKeepsQueue(Init(now), steps);
  }

  // ---------- Claims split into lock and update ----------

  /**
   * Split claims do not keep addresses exclusive: two workers lock different jobs of one address before
   * either updates its row, and both jobs end up indexing.
   */
  lemma SplitClaimsOverlap(address: Address, now: int) returns (steps: seq<Step>)
    ensures IsRun(Init(now), steps) && !OneIndexing(After(Init(now), steps).t)
  {
    var s2, create := BothCreated(address, now);
    var s4, select := BothSelected(s2, address);
    var s6, commit := BothCommitted(s4);
    RunConcat(Init(now), create, select);
    RunConcat(Init(now), create + select, commit);
    steps := create + select + commit;
  }

  /** At most one job of `address` is indexing. */
  ghost predicate Exclusive(t: Tables, address: Address) {
    forall i, j | i in t.jobs && j in t.jobs && t.jobs[i].status == Indexing && t.jobs[j].status == Indexing
                  && t.jobs[i].address == address && t.jobs[j].address == address ::
      i == j
  }

  lemma ExclusiveEverywhere(t: Tables)
    ensures OneIndexing(t) <==> forall address :: Exclusive(t, address)
  {
    if i, j :| i in t.jobs && j in t.jobs && i != j && t.jobs[i].status == Indexing && t.jobs[j].status == Indexing
               && t.jobs[i].address == t.jobs[j].address {
      assert !Exclusive(t, t.jobs[i].address);
    }
  }

  /** The second half of a split claim is taken while some job of its address is indexing. */
  ghost predicate LateCommit(s: State, step: Step, address: Address) {
    step.Commit? && !s.Of(step.w).Idle? && s.Of(step.w).job.address == address && Busy(s.t, address)
  }

  /** A commit keeps its address exclusive exactly when the address is not busy, which it could check again. */
  lemma CommitKeepsExclusiveIff(s: State, w: Worker)
    requires JobInv(s) && Enabled(s, Commit(w)) && Exclusive(s.t, s.Of(w).job.address)
    ensures Exclusive(Apply(s, Commit(w)).t, s.Of(w).job.address) <==> !Busy(s.t, s.Of(w).job.address)
  {
    var id, t' := s.Of(w).job.jobId, Apply(s, Commit(w)).t;
    assert Matches(s.t, s.Of(w).job);
    if i :| i in s.t.jobs && s.t.jobs[i].address == s.Of(w).job.address && s.t.jobs[i].status == Indexing {
      assert t'.jobs[i].status == Indexing && t'.jobs[id].status == Indexing && i != id;
    }
  }

  /** Without a commit, an address takes a second indexing job on no account. */
  lemma OthersKeepExclusive(s: State, step: Step, address: Address)
    requires JobInv(s) && Enabled(s, step) && Exclusive(s.t, address)
    requires !(step.Commit? && s.Of(step.w).job.address == address)
    ensures Exclusive(Apply(s, step).t, address)
  {
    if step.Commit? {
      assert Matches(s.t, s.Of(step.w).job);
    } else if step.Claim? {
      assert Eligible(s.t, step.id);
    } else if !step.Select? {
      StepIndexesNothing(s, step);
    }
  }

  /** Only a claim or a commit makes a job indexing, and no step moves a job to another address. */
  lemma StepIndexesNothing(s: State, step: Step)
    requires JobInv(s) && Enabled(s, step) && !step.Claim? && !step.Commit?
    ensures var t' := Apply(s, step).t;
            forall i :: i in t'.jobs && t'.jobs[i].status == Indexing ==>
              i in s.t.jobs && s.t.jobs[i].status == Indexing && t'.jobs[i].address == s.t.jobs[i].address
  {
    if LocalStep(step) {
      LocalStepMoves(s, step);
    }
  }

  lemma StepKeepsExclusiveIff(s: State, step: Step, address: Address)
    requires JobInv(s) && Enabled(s, step) && Exclusive(s.t, address)
    ensures Exclusive(Apply(s, step).t, address) <==> !LateCommit(s, step, address)
  {
    if step.Commit? && s.Of(step.w).job.address == address {
      CommitKeepsExclusiveIff(s, step.w);
    } else {
      OthersKeepExclusive(s, step, address);
    }
  }

  /** The address is exclusive after every prefix of the run. */
  ghost predicate AlwaysExclusive(s: State, steps: seq<Step>, address: Address)
    requires IsRun(s, steps)
    decreases |steps|
  {
    Exclusive(After(s, steps).t, address) && (steps != [] ==> AlwaysExclusive(s, steps[..|steps| - 1], address))
  }

  /** No commit of the run is taken while its address is busy. */
  ghost predicate NoLateCommit(s: State, steps: seq<Step>, address: Address)
    requires IsRun(s, steps)
    decreases |steps|
  {
    steps == []
    || var n := |steps| - 1;
       NoLateCommit(s, steps[..n], address) && !LateCommit(After(s, steps[..n]), steps[n], address)
  }

  lemma {:induction false} ExclusiveRun(s: State, steps: seq<Step>, address: Address)
    requires JobInv(s) && Exclusive(s.t, address) && IsRun(s, steps)
    ensures AlwaysExclusive(s, steps, address) <==> NoLateCommit(s, steps, address)
    decreases |steps|
  {
    if steps != [] {
      var n := |steps| - 1;
      var before := After(s, steps[..n]);
      ExclusiveRun(s, steps[..n], address);
      if AlwaysExclusive(s, steps[..n], address) {
        RunKeepsJobs(s, steps[..n]);
        ExclusiveNow(s, steps[..n], address);
        StepKeepsExclusiveIff(before, steps[n], address);
      }
    }
  }

  lemma ExclusiveNow(s: State, steps: seq<Step>, address: Address)
    requires IsRun(s, steps) && AlwaysExclusive(s, steps, address)
    ensures Exclusive(After(s, steps).t, address)
  {
  }

  /**
   * In every run, with claims split or not, an address is exclusive throughout exactly when no commit of a
   * split claim is taken while a job of the address is indexing.
   */
  lemma ExclusiveIffNoLateCommit(now: int, steps: seq<Step>, address: Address)
    requires IsRun(Init(now), steps)
    ensures AlwaysExclusive(Init(now), steps, address) <==> NoLateCommit(Init(now), steps, address)
  {
    ExclusiveRun(Init(now), steps, address);
  }

  /** A claim update taken while some job of its own address is indexing. */
  ghost predicate LateSomewhere(s: State, step: Step) {
    step.Commit? && !s.Of(step.w).Idle? && Busy(s.t, s.Of(step.w).job.address)
  }

  lemma StepKeepsOneIndexingIff(s: State, step: Step)
    requires JobInv(s) && Enabled(s, step) && OneIndexing(s.t)
    ensures OneIndexing(Apply(s, step).t) <==> !LateSomewhere(s, step)
  {
    var t' := Apply(s, step).t;
    ExclusiveEverywhere(s.t);
    ExclusiveEverywhere(t');
    forall address
      ensures Exclusive(t', address) <==> !LateCommit(s, step, address)
    {
      StepKeepsExclusiveIff(s, step, address);
    }
    if LateSomewhere(s, step) {
      assert !Exclusive(t', s.Of(step.w).job.address);
    }
  }

  /** No two jobs of one address are indexing after any prefix of the run. */
  ghost predicate AlwaysOneIndexing(s: State, steps: seq<Step>)
    requires IsRun(s, steps)
    decreases |steps|
  {
    OneIndexing(After(s, steps).t) && (steps != [] ==> AlwaysOneIndexing(s, steps[..|steps| - 1]))
  }

  ghost predicate NeverLate(s: State, steps: seq<Step>)
    requires IsRun(s, steps)
    decreases |steps|
  {
    steps == []
    || var n := |steps| - 1;
       NeverLate(s, steps[..n]) && !LateSomewhere(After(s, steps[..n]), steps[n])
  }

  lemma {:induction false} OneIndexingRun(s: State, steps: seq<Step>)
    requires JobInv(s) && OneIndexing(s.t) && IsRun(s, steps)
    ensures AlwaysOneIndexing(s, steps) <==> NeverLate(s, steps)
    decreases |steps|
  {
    if steps != [] {
      var n := |steps| - 1;
      OneIndexingRun(s, steps[..n]);
      if AlwaysOneIndexing(s, steps[..n]) {
        RunKeepsJobs(s, steps[..n]);
        OneIndexingNow(s, steps[..n]);
        StepKeepsOneIndexingIff(After(s, steps[..n]), steps[n]);
      }
    }
  }

  lemma OneIndexingNow(s: State, steps: seq<Step>)
    requires IsRun(s, steps) && AlwaysOneIndexing(s, steps)
    ensures OneIndexing(After(s, steps).t)
  {
  }

  /** In every run: no address ever has two indexing jobs exactly when no claim update is late. */
  lemma OneIndexingIffNeverLate(now: int, steps: seq<Step>)
    requires IsRun(Init(now), steps)
    ensures AlwaysOneIndexing(Init(now), steps) <==> NeverLate(Init(now), steps)
  {
    StartsWithoutJobs(now);
    OneIndexingRun(Init(now), steps);
  }

  lemma BothCreated(address: Address, now: int) returns (s: State, steps: seq<Step>)
    ensures IsRun(Init(now), steps) && s == After(Init(now), steps)
    ensures var job := Job(address, Pending, now, now, None, 10, 1);
            s.t == EmptyTables().(jobs := map[1 := job, 2 := job], nextId := 3) && s.now == now
    ensures s.workers == map[] && s.returned == map[] && AllAtomic(steps)
  {
    var step := Create(address, 10, 1);
    TwoSteps(Init(now), step, step);
    s, steps := Apply(Apply(Init(now), step), step), [step, step];
  }

  lemma BothSelected(s: State, address: Address) returns (s': State, steps: seq<Step>)
    requires s.workers == map[] && s.t.jobs.Keys == {1, 2} && s.t.jobs[1] == s.t.jobs[2]
             && s.t.jobs[1].status == Pending
    requires s.t.jobs[1].address == address
    ensures IsRun(s, steps) && s' == After(s, steps)
    ensures s'.t == s.t && s'.Of(1) == Selected(Claimed(s.t, 1)) && s'.Of(2) == Selected(Claimed(s.t, 2))
  {
    assert !Busy(s.t, address);
    assert IsNextJob(s.t, Locked(s), 1);
    var mid := Apply(s, Select(1, 1));
    assert mid.workers == map[1 := Selected(Claimed(s.t, 1))];
    assert Locked(mid) == {1} by {
      assert mid.workers[1].job.jobId in Locked(mid);
    }
    assert IsNextJob(mid.t, Locked(mid), 2);
    s', steps := Apply(mid, Select(2, 2)), [Select(1, 1), Select(2, 2)];
    TwoSteps(s, Select(1, 1), Select(2, 2));
  }

  lemma BothCommitted(s: State) returns (s': State, steps: seq<Step>)
    requires s.t.jobs.Keys == {1, 2} && s.t.jobs[1].address == s.t.jobs[2].address
    requires s.Of(1) == Selected(Claimed(s.t, 1)) && s.Of(2) == Selected(Claimed(s.t, 2))
    ensures IsRun(s, steps) && s' == After(s, steps)
    ensures !OneIndexing(s'.t)
  {
    var mid := Apply(s, Commit(1));
    s', steps := Apply(mid, Commit(2)), [Commit(1), Commit(2)];
    TwoSteps(s, Commit(1), Commit(2));
    assert s'.t.jobs[1].status == Indexing && s'.t.jobs[2].status == Indexing;
  }
}
