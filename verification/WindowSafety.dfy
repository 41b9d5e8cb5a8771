/** The rows a job writes and the window its gate looks at, over every run of the protocol. */
module WindowSafety {
  import opened Wrappers
  import opened TransactionTypes
  import opened Pagination
  import opened Tables
  import opened Protocol
  import opened LeaseSafety
  import opened JobSafety
  import Convergence
  import TableProperties

  // ---------- One page ----------

  /** Every row added between the two states lies in the window of job `id`, unless it is newer than the job. */
  ghost predicate AddsIntoWindow(s: State, s': State, id: JobId)
    requires id in s.t.jobs
  {
    forall k :: k in s'.t.signatures && k !in s.t.signatures ==>
      var blockTime := s'.t.signatures[k].blockTime;
      blockTime.Some? && (blockTime.value <= s.t.jobs[id].createdAt ==> InWindow(s.t.jobs[id], blockTime))
  }

  /** Every page adds rows of the job's address only, all timed and none before the cutoff of the page. */
  lemma PageRows(s: State, w: Worker, page: seq<Signature>, rpcNow: int, last: bool, k: Key)
    requires s.Of(w).Paging?
    requires k in DoWritePage(s, w, page, rpcNow, last).t.signatures && k !in s.t.signatures
    ensures var job, row := s.Of(w).job, DoWritePage(s, w, page, rpcNow, last).t.signatures[k];
            && k.owner == job.address
            && exists e :: e in RecentPart(page, Cutoff(job.requestedHours, rpcNow)) && row.blockTime == e.blockTime
  {
    var job := s.Of(w).job;
    InsertedRows(s.t.signatures, job.address, RecentPart(page, Cutoff(job.requestedHours, rpcNow)));
  }

  /** In any state, the pages of a job add rows into its window exactly when the client's clock is not behind it. */
  lemma PagesAddIntoWindowIff(s: State, w: Worker, rpcNow: int, last: bool)
    requires JobInv(s) && s.Of(w).Paging?
    ensures var id := s.Of(w).job.jobId;
            && id in s.t.jobs
            && ((forall page :: AddsIntoWindow(s, DoWritePage(s, w, page, rpcNow, last), id))
                <==> TableProperties.ClockReached(s.t.jobs[id], rpcNow))
  {
    var claimed := s.Of(w).job;
    assert Matches(s.t, claimed);
    var job := s.t.jobs[claimed.jobId];
    TableProperties.WrittenLiesInWindowIff(job, rpcNow);
    if TableProperties.ClockReached(job, rpcNow) {
      forall page
        ensures AddsIntoWindow(s, DoWritePage(s, w, page, rpcNow, last), claimed.jobId)
      {
        TimelyPageAdds(s, w, page, rpcNow, last);
      }
    } else {
      var page := LatePageAdds(s, w, rpcNow, last);
    }
  }

  lemma TimelyPageAdds(s: State, w: Worker, page: seq<Signature>, rpcNow: int, last: bool)
    requires JobInv(s) && s.Of(w).Paging?
    requires s.Of(w).job.jobId in s.t.jobs && TableProperties.ClockReached(s.t.jobs[s.Of(w).job.jobId], rpcNow)
    ensures AddsIntoWindow(s, DoWritePage(s, w, page, rpcNow, last), s.Of(w).job.jobId)
  {
    var s', id := DoWritePage(s, w, page, rpcNow, last), s.Of(w).job.jobId;
    assert Matches(s.t, s.Of(w).job);
    TableProperties.WrittenLiesInWindowIff(s.t.jobs[id], rpcNow);
    forall k | k in s'.t.signatures && k !in s.t.signatures
      ensures var blockTime := s'.t.signatures[k].blockTime;
              blockTime.Some? && (blockTime.value <= s.t.jobs[id].createdAt ==> InWindow(s.t.jobs[id], blockTime))
    {
      PageRows(s, w, page, rpcNow, last, k);
    }
  }

  /** With a clock behind, a page of one fresh entry adds a row before the window. */
  lemma LatePageAdds(s: State, w: Worker, rpcNow: int, last: bool) returns (page: seq<Signature>)
    requires JobInv(s) && s.Of(w).Paging?
    requires s.Of(w).job.jobId in s.t.jobs && !TableProperties.ClockReached(s.t.jobs[s.Of(w).job.jobId], rpcNow)
    ensures !AddsIntoWindow(s, DoWritePage(s, w, page, rpcNow, last), s.Of(w).job.jobId)
  {
    var claimed := s.Of(w).job;
    assert Matches(s.t, claimed);
    var cutoff := Cutoff(claimed.requestedHours, rpcNow);
    var sig := FreshSignature(s.t.signatures.Keys);
    var entry := Signature(Some(cutoff), sig);
    page := [entry];
    TableProperties.OneEntryPage(entry, cutoff);
    var k, s' := Key(claimed.address, sig), DoWritePage(s, w, page, rpcNow, last);
    InsertedRows(s.t.signatures, claimed.address, [entry]);
    assert entry in [entry];
    assert k in s'.t.signatures && k !in s.t.signatures;
    assert s'.t.signatures[k].blockTime == Some(cutoff);
  }

  /** A signature longer than all of a finite set. */
  lemma {:induction false} FreshSignature(keys: set<Key>) returns (sig: Sig)
    ensures forall k :: k in keys ==> |k.signature| < |sig|
    decreases |keys|
  {
    if keys == {} {
      sig := "";
    } else {
      var k :| k in keys;
      var rest := FreshSignature(keys - {k});
      sig := rest + k.signature + "1";
    }
  }

  // ---------- Whole runs ----------

  /** The terms of a job never change, and no job is removed. */
  ghost predicate KeepsTerms(t: Tables, t': Tables) {
    forall id :: id in t.jobs ==>
      && id in t'.jobs && t'.jobs[id].address == t.jobs[id].address && t'.jobs[id].createdAt == t.jobs[id].createdAt
      && t'.jobs[id].requestedHours == t.jobs[id].requestedHours && t'.jobs[id].txLimit == t.jobs[id].txLimit
  }

  lemma StepKeepsTerms(s: State, step: Step)
    requires JobInv(s) && Enabled(s, step)
    ensures KeepsTerms(s.t, Apply(s, step).t)
  {
    match step
    case Tick(_) =>
    case Create(address, txLimit, requestedHours) => assert s.t.nextId !in s.t.jobs;
    case Claim(w, id) => ClaimKeepsTerms(s.t, id, w, s.now);
    case Select(_, _) =>
    case Commit(w) => ClaimKeepsTerms(s.t, s.Of(w).job.jobId, w, s.now);
    case UpdateReady(w) => UpdateKeepsTerms(s.t, s.Of(w).job.jobId, Ready, s.now);
    case UpdateError(w) => UpdateKeepsTerms(s.t, s.Of(w).job.jobId, Status.Failed, s.now);
    case _ => LocalStepMoves(s, step);
  }

  lemma ClaimKeepsTerms(t: Tables, id: JobId, worker: nat, now: int)
    requires id in t.jobs
    ensures KeepsTerms(t, ClaimJob(t, id, worker, now))
  {
  }

  lemma UpdateKeepsTerms(t: Tables, id: JobId, status: Status, now: int)
    ensures KeepsTerms(t, UpdateStatus(t, id, status, now))
  {
  }

  lemma {:induction false} RunKeepsTerms(s: State, steps: seq<Step>)
    requires JobInv(s) && IsRun(s, steps)
    ensures KeepsTerms(s.t, After(s, steps).t)
    decreases |steps|
  {
    if steps != [] {
      RunKeepsTerms(s, steps[..|steps| - 1]);
      RunKeepsJobs(s, steps[..|steps| - 1]);
      StepKeepsTerms(After(s, steps[..|steps| - 1]), steps[|steps| - 1]);
    }
  }

  /**
   * Over every run: a row that a page of a job adds is timed, belongs to the job's address and is not before the
   * cutoff of its page; in every later state it is in the window of that job exactly when it is not newer than
   * the job and not before the window. The second cannot happen when the clock had reached the job.
   */
  lemma AddedRowsStayInWindow(now: int, past: seq<Step>, step: Step, future: seq<Step>, k: Key)
    requires IsRun(Init(now), past) && step.WritePage? && Enabled(After(Init(now), past), step)
    requires IsRun(Apply(After(Init(now), past), step), future)
    requires k in Apply(After(Init(now), past), step).t.signatures && k !in After(Init(now), past).t.signatures
    ensures var s := After(Init(now), past);
            var id, t := s.Of(step.w).job.jobId, After(Apply(s, step), future).t;
            && id in s.t.jobs && id in t.jobs && k in t.signatures && k.owner == t.jobs[id].address
            && t.signatures[k].blockTime.Some?
            && var time := t.signatures[k].blockTime.value;
               && time >= Cutoff(t.jobs[id].requestedHours, step.rpcNow)
               && (k in Window(t, id) <==> WindowStart(t.jobs[id]) <= time <= t.jobs[id].createdAt)
               && (TableProperties.ClockReached(t.jobs[id], step.rpcNow) ==>
                     (k in Window(t, id) <==> time <= t.jobs[id].createdAt))
  {
    var s := After(Init(now), past);
    var s', id := Apply(s, step), s.Of(step.w).job.jobId;
    StartsWithoutJobs(now);
    RunKeepsJobs(Init(now), past);
    assert Matches(s.t, s.Of(step.w).job);
    StepKeepsJobs(s, step);
    StepKeepsTerms(s, step);
    RunKeepsTerms(s', future);
    Convergence.RunKeepsProcessed(s', future);
    PageRows(s, step.w, step.page, step.rpcNow, step.last, k);
    PagesAddIntoWindowIff(s, step.w, step.rpcNow, step.last);
  }
}
