/**
 * From claim to final status, with claims taken in one step: the address is exclusive because the
 * claim makes it so, and the job ends in the status its pipeline earned.
 */
module Verdict {
  import opened Wrappers
  import opened TransactionTypes
  import opened Pagination
  import opened Tables
  import opened Protocol
  import opened LeaseSafety
  import opened JobSafety

  predicate WorksOn(s: State, w: Worker, id: JobId) {
    Working(s.Of(w)) && s.Of(w).job.jobId == id
  }

  /** The signature rows of one owner are the same in both tables. */
  ghost predicate SameRows(t: Tables, t': Tables, owner: Address) {
    forall k: Key :: k.owner == owner ==>
      && (k in t'.signatures <==> k in t.signatures)
      && (k in t.signatures ==> t'.signatures[k] == t.signatures[k])
  }

  /** Two workers at work are on different addresses. */
  lemma AddressesDiffer(s: State, v: Worker, w: Worker)
    requires JobInv(s) && QueueInv(s) && v != w && Working(s.Of(v)) && Working(s.Of(w))
    ensures s.Of(v).job.address != s.Of(w).job.address && s.Of(v).job.jobId != s.Of(w).job.jobId
  {
    assert Matches(s.t, s.Of(v).job) && Matches(s.t, s.Of(w).job);
  }

  lemma OthersKeepRows(s: State, step: Step, w: Worker)
    requires JobInv(s) && QueueInv(s) && Working(s.Of(w))
    requires Enabled(s, step) && Atomic(step) && Actor(step) != Some(w)
    ensures SameRows(s.t, Apply(s, step).t, s.Of(w).job.address)
  {
    if step.WritePage? {
      AddressesDiffer(s, step.w, w);
      WriteKeepsOtherRows(s, step.w, step.page, step.rpcNow, step.last, s.Of(w).job.address);
    } else if step.TakeBatch? {
      AddressesDiffer(s, step.w, w);
      TakeKeepsOtherRows(s, step.w, step.batch, s.Of(w).job.address);
    } else if step.MarkProcessed? {
      AddressesDiffer(s, step.w, w);
      MarkKeepsOtherRows(s, step.w, s.Of(w).job.address);
    }
  }

  lemma WriteKeepsOtherRows(s: State, v: Worker, page: seq<Signature>, rpcNow: int, last: bool, owner: Address)
    requires s.Of(v).Paging? && s.Of(v).job.address != owner
    ensures SameRows(s.t, DoWritePage(s, v, page, rpcNow, last).t, owner)
  {
    var job := s.Of(v).job;
    InsertedRows(s.t.signatures, job.address, RecentPart(page, Cutoff(job.requestedHours, rpcNow)));
  }

  lemma TakeKeepsOtherRows(s: State, v: Worker, batch: seq<Sig>, owner: Address)
    requires s.Of(v).Leasing? && s.Of(v).job.address != owner
    ensures SameRows(s.t, DoTakeBatch(s, v, batch).t, owner)
  {
  }

  lemma MarkKeepsOtherRows(s: State, v: Worker, owner: Address)
    requires s.Of(v).Marking? && s.Of(v).job.address != owner
    ensures SameRows(s.t, DoMark(s, v).t, owner)
  {
  }

  lemma OthersKeepWorker(s: State, step: Step, w: Worker)
    requires Enabled(s, step) && Actor(step) != Some(w)
    ensures Apply(s, step).Of(w) == s.Of(w)
  {
    if LocalStep(step) {
      LocalStepMoves(s, step);
    }
  }

  lemma OthersKeepJobRow(s: State, step: Step, w: Worker)
    requires JobInv(s) && Working(s.Of(w)) && Enabled(s, step) && Actor(step) != Some(w)
    ensures var id := s.Of(w).job.jobId;
            id in s.t.jobs && id in Apply(s, step).t.jobs && Apply(s, step).t.jobs[id] == s.t.jobs[id]
  {
    assert Matches(s.t, s.Of(w).job);
    if LocalStep(step) {
      LocalStepMoves(s, step);
    } else if Actor(step).Some? && !s.Of(step.w).Idle? {
      assert s.Of(step.w).job.jobId != s.Of(w).job.jobId;
    }
  }

  predicate SameReturn(s: State, s': State, id: JobId) {
    (id in s'.returned <==> id in s.returned) && (id in s.returned ==> s'.returned[id] == s.returned[id])
  }

  lemma OthersKeepReturn(s: State, step: Step, w: Worker)
    requires JobInv(s) && QueueInv(s) && Working(s.Of(w))
    requires Enabled(s, step) && Actor(step) != Some(w)
    ensures SameReturn(s, Apply(s, step), s.Of(w).job.jobId)
  {
    if Actor(step).Some? && Working(s.Of(step.w)) {
      AddressesDiffer(s, step.w, w);
    }
  }

  // ---------- The clean address ----------

  /** Every unprocessed row of the owner can be leased now, or is one of `batch`. */
  ghost predicate Clean(s: State, owner: Address, batch: seq<Sig>) {
    forall k :: k in s.t.signatures && k.owner == owner && !s.t.signatures[k].isProcessed ==>
      ClaimableRow(s.t.signatures[k], s.now) || k.signature in batch
  }

  ghost predicate NoneLeft(s: State, owner: Address) {
    forall k :: k in s.t.signatures && k.owner == owner ==> s.t.signatures[k].isProcessed
  }

  /** What holds of the worker of job `id` from its claim to its status update, and of the job afterwards. */
  ghost predicate OnCourse(s: State, w: Worker, id: JobId) {
    && id in s.t.jobs
    && if WorksOn(s, w, id) then
         var g := s.Of(w);
         if g.Finishing? then (g.ok ==> NoneLeft(s, g.job.address)) && id in s.returned && s.returned[id] == g.ok
         else !g.Blocked? && id !in s.returned && Clean(s, g.job.address, if g.Holds() then g.batch else [])
       else
         id in s.returned && s.t.jobs[id].status == if s.returned[id] then Ready else Failed
  }

  lemma OthersKeepClean(s: State, s': State, owner: Address, batch: seq<Sig>)
    requires SameRows(s.t, s'.t, owner) && s'.now >= s.now && Clean(s, owner, batch)
    ensures Clean(s', owner, batch)
  {
  }

  lemma OthersKeepCourse(s: State, step: Step, w: Worker, id: JobId)
    requires JobInv(s) && QueueInv(s) && OnCourse(s, w, id) && WorksOn(s, w, id)
    requires Enabled(s, step) && Atomic(step) && Actor(step) != Some(w)
    ensures OnCourse(Apply(s, step), w, id)
  {
    var s' := Apply(s, step);
    OthersKeepRows(s, step, w);
    OthersKeepWorker(s, step, w);
    OthersKeepReturn(s, step, w);
    StepKeepsJobs(s, step);
    if !s.Of(w).Finishing? {
      OthersKeepClean(s, s', s.Of(w).job.address, if s.Of(w).Holds() then s.Of(w).batch else []);
    }
  }

  /** Once the job has its final status, no step of anyone changes it. */
  lemma FinalStays(s: State, step: Step, w: Worker, id: JobId)
    requires JobInv(s) && OnCourse(s, w, id) && !WorksOn(s, w, id) && Enabled(s, step) && Atomic(step)
    ensures OnCourse(Apply(s, step), w, id) && !WorksOn(Apply(s, step), w, id)
  {
    var s' := Apply(s, step);
    if LocalStep(step) {
      LocalStepMoves(s, step);
    }
    FinalStatusStays(s, step, id);
    FinalReturnStays(s, step, id);
    StepKeepsJobs(s, step);
    NotIndexingNotWorkedOn(s', w, id);
  }

  lemma NotIndexingNotWorkedOn(s: State, w: Worker, id: JobId)
    requires JobInv(s) && id in s.t.jobs && s.t.jobs[id].status != Indexing
    ensures !WorksOn(s, w, id)
  {
  }

  lemma FinalStatusStays(s: State, step: Step, id: JobId)
    requires JobInv(s) && Enabled(s, step) && Atomic(step)
    requires id in s.t.jobs && (s.t.jobs[id].status == Ready || s.t.jobs[id].status == Failed)
    ensures id in Apply(s, step).t.jobs && Apply(s, step).t.jobs[id].status == s.t.jobs[id].status
  {
    if LocalStep(step) {
      LocalStepMoves(s, step);
    }
  }

  lemma FinalReturnStays(s: State, step: Step, id: JobId)
    requires JobInv(s) && Enabled(s, step)
    requires id in s.t.jobs && (s.t.jobs[id].status == Ready || s.t.jobs[id].status == Failed)
    ensures SameReturn(s, Apply(s, step), id)
  {
    if Actor(step).Some? && Working(s.Of(step.w)) {
      assert s.Of(step.w).job.jobId != id;
    }
  }

  // ---------- The worker's own steps ----------

  lemma TakeOnCourse(s: State, w: Worker, batch: seq<Sig>, id: JobId)
    requires OnCourse(s, w, id) && WorksOn(s, w, id) && Enabled(s, TakeBatch(w, batch))
    ensures OnCourse(DoTakeBatch(s, w, batch), w, id)
  {
    var s', owner := DoTakeBatch(s, w, batch), s.Of(w).job.address;
    if batch == [] {
      assert Claimable(s.t.signatures, owner, s.now) == {};
      forall k | k in s.t.signatures && k.owner == owner
        ensures s.t.signatures[k].isProcessed
      {
        assert k !in Claimable(s.t.signatures, owner, s.now);
      }
      assert NoneLeft(s', owner);
    } else {
      assert Clean(s', owner, batch);
    }
  }

  lemma WriteOnCourse(s: State, w: Worker, page: seq<Signature>, rpcNow: int, last: bool, id: JobId)
    requires OnCourse(s, w, id) && WorksOn(s, w, id) && s.Of(w).Paging?
    ensures OnCourse(DoWritePage(s, w, page, rpcNow, last), w, id)
  {
    var s', job := DoWritePage(s, w, page, rpcNow, last), s.Of(w).job;
    InsertedRows(s.t.signatures, job.address, RecentPart(page, Cutoff(job.requestedHours, rpcNow)));
    assert Clean(s', job.address, []);
  }

  lemma MarkOnCourse(s: State, w: Worker, id: JobId)
    requires FetchInv(s) && OnCourse(s, w, id) && WorksOn(s, w, id) && s.Of(w).Marking?
    ensures OnCourse(DoMark(s, w), w, id)
  {
    var s', g := DoMark(s, w), s.Of(w);
    assert IsFetch(g.batch, g.fetch);
    if !g.fetch.failed {
      assert Clean(s', g.job.address, []);
    }
  }

  /** With no row of the address left, the guard of the ready update is open. */
  lemma ReadyOnCourse(s: State, w: Worker, id: JobId)
    requires JobInv(s) && OnCourse(s, w, id) && WorksOn(s, w, id) && Enabled(s, UpdateReady(w))
    ensures OnCourse(DoUpdateReady(s, w), w, id) && DoUpdateReady(s, w).t.jobs[id].status == Ready
  {
    assert Matches(s.t, s.Of(w).job);
    assert GateOpen(s.t, id);
  }

  lemma ErrorOnCourse(s: State, w: Worker, id: JobId)
    requires JobInv(s) && OnCourse(s, w, id) && WorksOn(s, w, id) && Enabled(s, UpdateError(w))
    ensures OnCourse(DoUpdateError(s, w), w, id)
  {
  }

  lemma OwnStepOnCourse(s: State, step: Step, w: Worker, id: JobId)
    requires JobInv(s) && FetchInv(s) && OnCourse(s, w, id) && WorksOn(s, w, id)
    requires Enabled(s, step) && Actor(step) == Some(w) && !step.Crash?
    ensures OnCourse(Apply(s, step), w, id)
  {
    if step.WritePage? {
      WriteOnCourse(s, w, step.page, step.rpcNow, step.last, id);
    } else if step.TakeBatch? {
      TakeOnCourse(s, w, step.batch, id);
    } else if step.MarkProcessed? {
      MarkOnCourse(s, w, id);
    } else if step.UpdateReady? {
      ReadyOnCourse(s, w, id);
    } else if step.UpdateError? {
      ErrorOnCourse(s, w, id);
    }
  }

  // ---------- The whole run ----------

  ghost predicate PipelineInv(s: State) {
    JobInv(s) && QueueInv(s) && FetchInv(s)
  }

  lemma StepKeepsPipeline(s: State, step: Step)
    requires PipelineInv(s) && Enabled(s, step) && Atomic(step)
    ensures PipelineInv(Apply(s, step))
  {
    StepKeepsJobs(s, step);
    StepKeepsQueue(s, step);
    StepKeepsFetches(s, step);
  }

  /** The worker of job `id` does not die, and no status update of it is lost, before it is done with the job. */
  ghost predicate Survives(s: State, steps: seq<Step>, w: Worker, id: JobId)
    requires IsRun(s, steps)
    decreases |steps|
  {
    steps == []
    || var n := |steps| - 1;
       Survives(s, steps[..n], w, id) && !(steps[n] == Crash(w) && WorksOn(After(s, steps[..n]), w, id))
  }

  lemma {:induction false} RunStaysOnCourse(s: State, steps: seq<Step>, w: Worker, id: JobId)
    requires PipelineInv(s) && OnCourse(s, w, id)
    requires IsRun(s, steps) && AllAtomic(steps) && Survives(s, steps, w, id)
    ensures PipelineInv(After(s, steps)) && OnCourse(After(s, steps), w, id)
    decreases |steps|
  {
    if steps != [] {
      var n := |steps| - 1;
      var before, step := After(s, steps[..n]), steps[n];
      RunStaysOnCourse(s, steps[..n], w, id);
      StepKeepsPipeline(before, step);
      if !WorksOn(before, w, id) {
        FinalStays(before, step, w, id);
      } else if Actor(step) == Some(w) {
        OwnStepOnCourse(before, step, w, id);
      } else {
        OthersKeepCourse(before, step, w, id);
      }
    }
  }

  lemma ClaimOnCourse(s: State, w: Worker, id: JobId)
    requires PipelineInv(s) && Enabled(s, Claim(w, id)) && id !in s.returned && Clean(s, s.t.jobs[id].address, [])
    ensures OnCourse(Apply(s, Claim(w, id)), w, id)
  {
  }

  /** Only jobs that have been claimed have returned. */
  ghost predicate ReturnInv(s: State) {
    forall id :: id in s.returned ==> id in s.t.jobs && s.t.jobs[id].status != Pending
  }

  lemma StepKeepsReturns(s: State, step: Step)
    requires JobInv(s) && ReturnInv(s) && Enabled(s, step)
    ensures ReturnInv(Apply(s, step))
  {
    if LocalStep(step) {
      LocalStepMoves(s, step);
      ReturnedIds(s, step);
    } else {
      OthersReturnNothing(s, step);
    }
  }

  lemma ReturnedIds(s: State, step: Step)
    requires Enabled(s, step) && LocalStep(step)
    ensures forall id :: id in Apply(s, step).returned ==>
              id in s.returned || (Working(s.Of(step.w)) && id == s.Of(step.w).job.jobId)
  {
  }

  /** The steps that touch job rows return no pipeline, and put no job back into the queue. */
  lemma OthersReturnNothing(s: State, step: Step)
    requires JobInv(s) && Enabled(s, step) && !LocalStep(step)
    ensures Apply(s, step).returned == s.returned
    ensures forall id :: id in s.t.jobs && s.t.jobs[id].status != Pending ==>
              id in Apply(s, step).t.jobs && Apply(s, step).t.jobs[id].status != Pending
  {
  }

  lemma {:induction false} RunKeepsPipeline(s: State, steps: seq<Step>)
    requires PipelineInv(s) && ReturnInv(s) && IsRun(s, steps) && AllAtomic(steps)
    ensures PipelineInv(After(s, steps)) && ReturnInv(After(s, steps))
    decreases |steps|
  {
    if steps != [] {
      var n := |steps| - 1;
      RunKeepsPipeline(s, steps[..n]);
      StepKeepsPipeline(After(s, steps[..n]), steps[n]);
      StepKeepsReturns(After(s, steps[..n]), steps[n]);
    }
  }

  /**
   * End to end. Take any reachable state in which worker `w` claims job `id` while no row of its address is
   * under a live lease, and any continuation in which `w` survives until it is done with the job, whatever
   * the other workers do. Then the job is still being worked on, or it has the status its pipeline earned:
   * `ready` if the pipeline returned Ok, `error` if it returned Err. It is never left `indexing`.
   */
  lemma PipelineVerdict(now: int, past: seq<Step>, w: Worker, id: JobId, future: seq<Step>)
    requires IsRun(Init(now), past) && AllAtomic(past)
    requires var s := After(Init(now), past);
             && Enabled(s, Claim(w, id))
             && Clean(s, s.t.jobs[id].address, [])
             && IsRun(Apply(s, Claim(w, id)), future) && AllAtomic(future)
             && Survives(Apply(s, Claim(w, id)), future, w, id)
    ensures var s := After(Apply(After(Init(now), past), Claim(w, id)), future);
            && id in s.t.jobs
            && (WorksOn(s, w, id) <==> s.t.jobs[id].status == Indexing)
            && (!WorksOn(s, w, id) ==>
                  id in s.returned && s.t.jobs[id].status == if s.returned[id] then Ready else Failed)
  {
    StartsEmpty(now);
    RunKeepsPipeline(Init(now), past);
    var claimed := After(Init(now), past);
    ClaimOnCourse(claimed, w, id);
    StepKeepsPipeline(claimed, Claim(w, id));
    RunStaysOnCourse(Apply(claimed, Claim(w, id)), future, w, id);
    CourseEnds(After(Apply(claimed, Claim(w, id)), future), w, id);
  }

  lemma StartsEmpty(now: int)
    ensures PipelineInv(Init(now)) && ReturnInv(Init(now))
  {
  }

  lemma CourseEnds(s: State, w: Worker, id: JobId)
    requires JobInv(s) && OnCourse(s, w, id)
    ensures id in s.t.jobs && (WorksOn(s, w, id) <==> s.t.jobs[id].status == Indexing)
    ensures !WorksOn(s, w, id) ==> id in s.returned && s.t.jobs[id].status == if s.returned[id] then Ready else Failed
  {
    assert WorksOn(s, w, id) ==> Matches(s.t, s.Of(w).job);
  }

  // ---------- Abandoned jobs ----------

  /** A job left indexing by a worker that died, or whose last status statement failed. */
  ghost predicate Abandoned(s: State, id: JobId) {
    id in s.t.jobs && s.t.jobs[id].status == Indexing && forall w :: !WorksOn(s, w, id)
  }

  lemma StepKeepsAbandoned(s: State, step: Step, id: JobId)
    requires JobInv(s) && Abandoned(s, id) && Enabled(s, step)
    ensures id in Apply(s, step).t.jobs && Apply(s, step).t.jobs[id] == s.t.jobs[id]
  {
    if LocalStep(step) {
      LocalStepMoves(s, step);
    } else if step.UpdateReady? || step.UpdateError? {
      assert !WorksOn(s, step.w, id);
    } else if step.Commit? {
      assert Matches(s.t, s.Of(step.w).job);
    }
  }

  lemma NobodyTakesUp(s: State, step: Step, id: JobId, w: Worker)
    requires JobInv(s) && Abandoned(s, id) && Enabled(s, step)
    ensures !WorksOn(Apply(s, step), w, id)
  {
    assert !WorksOn(s, w, id);
    if LocalStep(step) {
      LocalStepMoves(s, step);
    }
  }

  lemma {:induction false} RunKeepsAbandoned(s: State, steps: seq<Step>, id: JobId)
    requires JobInv(s) && Abandoned(s, id) && IsRun(s, steps)
    ensures JobInv(After(s, steps)) && Abandoned(After(s, steps), id) && After(s, steps).t.jobs[id] == s.t.jobs[id]
    decreases |steps|
  {
    if steps != [] {
      var n := |steps| - 1;
      var before := After(s, steps[..n]);
      RunKeepsAbandoned(s, steps[..n], id);
      StepKeepsJobs(before, steps[n]);
      StepKeepsAbandoned(before, steps[n], id);
      forall w
        ensures !WorksOn(After(s, steps), w, id)
      {
        NobodyTakesUp(before, steps[n], id, w);
      }
    }
  }

  /**
   * In every run, claims split or not: a job that is indexing while nobody works on it keeps its row for ever,
   * and from then on no job of its address can be selected or claimed.
   */
  lemma AbandonedForever(now: int, past: seq<Step>, future: seq<Step>, id: JobId)
    requires IsRun(Init(now), past) && Abandoned(After(Init(now), past), id) && IsRun(After(Init(now), past), future)
    ensures var s := After(Init(now), past);
            var s' := After(s, future);
            && Abandoned(s', id) && s'.t.jobs[id] == s.t.jobs[id]
            && forall other :: other in s'.t.jobs && s'.t.jobs[other].address == s.t.jobs[id].address ==>
                 !Eligible(s'.t, other)
  {
    RunKeepsJobs(Init(now), past);
    RunKeepsAbandoned(After(Init(now), past), future, id);
  }

  // ---------- Without the assumption on live leases ----------

  /** A row of the job's window that is unprocessed and under a live lease. */
  ghost predicate LiveLeaseInWindow(s: State, id: JobId)
    requires id in s.t.jobs
  {
    exists k :: k in Window(s.t, id) && !s.t.signatures[k].isProcessed && !ClaimableRow(s.t.signatures[k], s.now)
  }

  lemma {:induction false} OthersKeepAddress(s: State, steps: seq<Step>, w: Worker)
    requires PipelineInv(s) && Working(s.Of(w)) && IsRun(s, steps) && AllAtomic(steps)
    requires forall i :: 0 <= i < |steps| ==> Actor(steps[i]) != Some(w)
    ensures PipelineInv(After(s, steps)) && After(s, steps).Of(w) == s.Of(w)
    ensures SameRows(s.t, After(s, steps).t, s.Of(w).job.address)
    ensures var id, t' := s.Of(w).job.jobId, After(s, steps).t;
            id in s.t.jobs && id in t'.jobs && t'.jobs[id] == s.t.jobs[id]
    decreases |steps|
  {
    assert Matches(s.t, s.Of(w).job);
    if steps != [] {
      var n := |steps| - 1;
      OthersKeepAddress(s, steps[..n], w);
      var before := After(s, steps[..n]);
      StepKeepsPipeline(before, steps[n]);
      OthersKeepRows(before, steps[n], w);
      OthersKeepWorker(before, steps[n], w);
      OthersKeepJobRow(before, steps[n], w);
    }
  }

  /**
   * In general a pipeline that returns Ok ends in `ready` exactly when, at the instant the lease statement
   * found nothing to claim, no row of the job's window was under a live lease; otherwise the update is blocked.
   */
  lemma OkEndsReadyIff(s: State, w: Worker, id: JobId, steps: seq<Step>)
    requires PipelineInv(s) && WorksOn(s, w, id) && Enabled(s, TakeBatch(w, []))
    requires id in s.t.jobs && IsRun(Apply(s, TakeBatch(w, [])), steps) && AllAtomic(steps)
    requires forall i :: 0 <= i < |steps| ==> Actor(steps[i]) != Some(w)
    ensures var s' := After(Apply(s, TakeBatch(w, [])), steps);
            && Enabled(s', UpdateReady(w))
            && var end := DoUpdateReady(s', w);
               if LiveLeaseInWindow(s, id)
               then end.Of(w).Blocked? && end.t.jobs == s'.t.jobs
               else end.Of(w).Idle? && id in end.t.jobs && end.t.jobs[id].status == Ready
  {
    var returned := Apply(s, TakeBatch(w, []));
    EmptyBatchReturnsOk(s, w);
    StepKeepsPipeline(s, TakeBatch(w, []));
    OthersKeepAddress(returned, steps, w);
    assert Matches(s.t, s.Of(w).job);
    SameGate(s, After(returned, steps), id);
    GateDecides(After(returned, steps), w, id);
  }

  lemma GateDecides(s: State, w: Worker, id: JobId)
    requires JobInv(s) && WorksOn(s, w, id) && s.Of(w).Finishing? && s.Of(w).ok && id in s.t.jobs
    ensures Enabled(s, UpdateReady(w))
    ensures var end := DoUpdateReady(s, w);
            if GateOpen(s.t, id)
            then end.Of(w).Idle? && id in end.t.jobs && end.t.jobs[id].status == Ready
            else end.Of(w).Blocked? && end.t.jobs == s.t.jobs
  {
    assert Matches(s.t, s.Of(w).job);
  }

  lemma EmptyBatchReturnsOk(s: State, w: Worker)
    requires Enabled(s, TakeBatch(w, []))
    ensures var s' := Apply(s, TakeBatch(w, []));
            s'.Of(w) == Finishing(s.Of(w).job, true) && s'.t == s.t
    ensures Claimable(s.t.signatures, s.Of(w).job.address, s.now) == {}
  {
  }

  lemma SameGate(s: State, s': State, id: JobId)
    requires id in s.t.jobs && id in s'.t.jobs && s.t.jobs[id] == s'.t.jobs[id]
    requires SameRows(s.t, s'.t, s.t.jobs[id].address)
    requires Claimable(s.t.signatures, s.t.jobs[id].address, s.now) == {}
    ensures GateOpen(s'.t, id) <==> !LiveLeaseInWindow(s, id)
  {
    if k :| k in Window(s.t, id) && !s.t.signatures[k].isProcessed && !ClaimableRow(s.t.signatures[k], s.now) {
      assert k in s'.t.signatures;
    } else {
      forall k | k in s'.t.signatures && k.owner == s'.t.jobs[id].address
          && InWindow(s'.t.jobs[id], s'.t.signatures[k].blockTime)
        ensures s'.t.signatures[k].isProcessed
      {
        assert k !in Claimable(s.t.signatures, s.t.jobs[id].address, s.now);
        assert k in Window(s.t, id);
      }
    }
  }
}
