/**
 * Any number of workers over the shared tables, one SQL statement (or one local step) at a time.
 *
 * A job may be claimed in one step, or be selected and locked in one step and updated in a later one;
 * a worker may crash or give up between any two steps; the clock never runs backwards.
 * The fields after `workers` are history: no step reads them to decide anything.
 */
module Protocol {
  import opened Wrappers
  import opened TransactionTypes
  import opened Transfers
  import opened Pagination
  import opened Tables

  type Worker = nat

  const BATCH_LIMIT: nat := 100

  /** What a worker holds after get_transaction returned. */
  datatype Fetch = Fetch(processed: seq<Sig>, payload: seq<Saved>, failed: bool)

  /** Where a worker stands; `at` is the time of the lease it works under. */
  datatype Stage =
    | Idle
    | Selected(job: ClaimedJob)
    | Paging(job: ClaimedJob)
    | Leasing(job: ClaimedJob)
    | Fetching(job: ClaimedJob, batch: seq<Sig>, at: int)
    | Saving(job: ClaimedJob, batch: seq<Sig>, at: int, fetch: Fetch)
    | SavingTransfers(job: ClaimedJob, batch: seq<Sig>, at: int, fetch: Fetch)
    | Marking(job: ClaimedJob, batch: seq<Sig>, at: int, fetch: Fetch)
    | Finishing(job: ClaimedJob, ok: bool)
    | Blocked(job: ClaimedJob)
  {
    predicate Holds() {
      Fetching? || Saving? || SavingTransfers? || Marking?
    }

    predicate HasFetch() {
      Saving? || SavingTransfers? || Marking?
    }

    /** Inside fetch_signatures or process_unprocessed_signatures. */
    predicate InPipeline() {
      Paging? || Leasing? || Holds()
    }
  }

  datatype Lease = Lease(worker: Worker, at: int)

  /** Who marked a row, with which payload, and how often the row had been leased by then. */
  datatype Mark = Mark(worker: Worker, saved: Saved, leases: nat)

  datatype State = State(
    t: Tables,
    now: int,
    workers: map<Worker, Stage>,
    leases: map<Key, seq<Lease>>,
    marks: map<Key, Mark>,
    claims: seq<JobId>,
    returned: map<JobId, bool>)
  {
    function Of(w: Worker): Stage {
      if w in workers then workers[w] else Idle
    }

    function LeasesOf(k: Key): seq<Lease> {
      if k in leases then leases[k] else []
    }
  }

  datatype Step =
    | Tick(seconds: nat)
    | Create(address: Address, txLimit: i16, requestedHours: i16)
    | Claim(w: Worker, id: JobId)
    | Select(w: Worker, id: JobId)
    | Commit(w: Worker)
    | WritePage(w: Worker, page: seq<Signature>, rpcNow: int, last: bool)
    | TakeBatch(w: Worker, batch: seq<Sig>)
    | Receive(w: Worker, fetch: Fetch)
    | SaveTransactions(w: Worker)
    | SaveTransfers(w: Worker)
    | MarkProcessed(w: Worker)
    | GiveUp(w: Worker)
    | UpdateReady(w: Worker)
    | UpdateError(w: Worker)
    | Crash(w: Worker)

  /** The worker that takes a step. */
  function Actor(step: Step): Option<Worker> {
    match step
    case Tick(_) => None
    case Create(_, _, _) => None
    case _ => Some(step.w)
  }

  function Init(now: int): State {
    State(EmptyTables(), now, map[], map[], map[], [], map[])
  }

  /** The jobs whose rows are locked by a claim that has selected but not yet updated. */
  function Locked(s: State): set<JobId> {
    set w | w in s.workers && s.workers[w].Selected? :: s.workers[w].job.jobId
  }

  /**
   * A possible result of get_transaction on a batch: some of its signatures in order, each with its
   * transaction and computed transfers. The response carries the requested signature first.
   */
  ghost predicate IsFetch(batch: seq<Sig>, f: Fetch) {
    && |f.processed| == |f.payload|
    && NoRepeats(f.processed)
    && (forall s :: s in f.processed ==> s in batch)
    && (f.failed <==> exists s :: s in batch && s !in f.processed)
    && (forall i :: 0 <= i < |f.payload| ==>
          RowSignature(f.payload[i].info) == f.processed[i] && f.payload[i].transfers == TransfersOf(f.payload[i].info))
  }

  ghost predicate Enabled(s: State, step: Step) {
    match step
    case Tick(_) => true
    case Create(_, _, _) => true
    case Claim(w, id) => s.Of(w).Idle? && IsNextJob(s.t, Locked(s), id)
    case Select(w, id) => s.Of(w).Idle? && IsNextJob(s.t, Locked(s), id)
    case Commit(w) => s.Of(w).Selected? && s.Of(w).job.jobId in s.t.jobs
    case WritePage(w, _, _, _) => s.Of(w).Paging?
    case TakeBatch(w, batch) => s.Of(w).Leasing?
        && IsBatch(s.t.signatures, s.Of(w).job.address, s.now, BATCH_LIMIT, batch)
    case Receive(w, fetch) => s.Of(w).Fetching? && IsFetch(s.Of(w).batch, fetch)
    case SaveTransactions(w) => s.Of(w).Saving?
    case SaveTransfers(w) => s.Of(w).SavingTransfers?
    case MarkProcessed(w) => s.Of(w).Marking?
    case GiveUp(w) => s.Of(w).InPipeline()
    case UpdateReady(w) => s.Of(w).Finishing? && s.Of(w).ok
    case UpdateError(w) => (s.Of(w).Finishing? && !s.Of(w).ok) || s.Of(w).Blocked?
    case Crash(w) => true
  }

  predicate Working(stage: Stage) {
    !stage.Idle? && !stage.Selected?
  }

  /** Only worker `w` and the three data tables change; `w` goes on with the same job or stops. */
  predicate OnlyMoves(s: State, s': State, w: Worker) {
    && s'.t.jobs == s.t.jobs && s'.t.nextId == s.t.nextId && s'.now == s.now && s'.claims == s.claims
    && s'.workers == s.workers[w := s'.Of(w)]
    && (s'.Of(w).Idle? || (Working(s.Of(w)) && Working(s'.Of(w)) && s'.Of(w).job == s.Of(w).job))
  }

  function Move(s: State, w: Worker, stage: Stage): (s': State)
    ensures s'.Of(w) == stage
    ensures forall v :: v != w ==> s'.Of(v) == s.Of(v)
  {
    s.(workers := s.workers[w := stage])
  }

  /** The pipeline of `job` has returned; its worker goes on to the status update. */
  function Return(s: State, w: Worker, job: ClaimedJob, ok: bool): (s': State)
    ensures s'.Of(w) == Finishing(job, ok)
  {
    Move(s, w, Finishing(job, ok)).(returned := s.returned[job.jobId := ok])
  }

  function TakeLeases(s: State, w: Worker, owner: Address, batch: seq<Sig>): map<Key, seq<Lease>> {
    map k | k in s.leases.Keys + s.t.signatures.Keys ::
      if k in s.t.signatures && InBatch(k, owner, batch) then s.LeasesOf(k) + [Lease(w, s.now)] else s.LeasesOf(k)
  }

  /** The payload fetched for a signature. */
  function PayloadOf(f: Fetch, sig: Sig): Saved
    requires sig in f.processed && |f.processed| == |f.payload|
    decreases |f.processed|
  {
    var n := |f.processed| - 1;
    if f.processed[n] == sig then f.payload[n]
    else PayloadOf(Fetch(f.processed[..n], f.payload[..n], f.failed), sig)
  }

  function TakeMarks(s: State, w: Worker, owner: Address, f: Fetch): map<Key, Mark>
    requires |f.processed| == |f.payload|
  {
    map k | k in s.marks.Keys + s.t.signatures.Keys &&
            (k in s.marks || (InBatch(k, owner, f.processed) && !s.t.signatures[k].isProcessed)) ::
      if k in s.marks then s.marks[k] else Mark(w, PayloadOf(f, k.signature), |s.LeasesOf(k)|)
  }

  function DoWritePage(s: State, w: Worker, page: seq<Signature>, rpcNow: int, last: bool): (s': State)
    requires s.Of(w).Paging?
    ensures OnlyMoves(s, s', w)
  {
    var job := s.Of(w).job;
    var entries := RecentPart(page, Cutoff(job.requestedHours, rpcNow));
    Move(s, w, if last then Leasing(job) else Paging(job))
      .(t := s.t.(signatures := InsertSignatures(s.t.signatures, job.address, entries)))
  }

  function DoTakeBatch(s: State, w: Worker, batch: seq<Sig>): (s': State)
    requires s.Of(w).Leasing?
    ensures OnlyMoves(s, s', w)
  {
    var job := s.Of(w).job;
    if batch == [] then Return(s, w, job, true)
    else
      Move(s, w, Fetching(job, batch, s.now))
        .(t := s.t.(signatures := LeaseRows(s.t.signatures, job.address, batch, s.now)),
          leases := TakeLeases(s, w, job.address, batch))
  }

  function DoReceive(s: State, w: Worker, f: Fetch): (s': State)
    requires s.Of(w).Fetching?
    ensures OnlyMoves(s, s', w)
  {
    Move(s, w, Saving(s.Of(w).job, s.Of(w).batch, s.Of(w).at, f))
  }

  function DoSaveTransactions(s: State, w: Worker): (s': State)
    requires s.Of(w).Saving?
    ensures OnlyMoves(s, s', w)
  {
    var g := s.Of(w);
    Move(s, w, SavingTransfers(g.job, g.batch, g.at, g.fetch))
      .(t := s.t.(transactions := InsertTransactions(s.t.transactions, g.job.address, g.fetch.payload)))
  }

  function DoSaveTransfers(s: State, w: Worker): (s': State)
    requires s.Of(w).SavingTransfers?
    ensures OnlyMoves(s, s', w)
  {
    var g := s.Of(w);
    Move(s, w, Marking(g.job, g.batch, g.at, g.fetch))
      .(t := s.t.(transfers := InsertTransfers(s.t.transfers, g.job.address, g.fetch.payload)))
  }

  function DoMark(s: State, w: Worker): (s': State)
    requires s.Of(w).Marking?
    ensures OnlyMoves(s, s', w)
  {
    var g := s.Of(w);
    var marked :=
      s.(t := s.t.(signatures := MarkRows(s.t.signatures, g.job.address, g.fetch.processed)),
         marks :=
           if |g.fetch.processed| == |g.fetch.payload| then TakeMarks(s, w, g.job.address, g.fetch) else s.marks);
    if g.fetch.failed then Return(marked, w, g.job, false) else Move(marked, w, Leasing(g.job))
  }

  function DoGiveUp(s: State, w: Worker): (s': State)
    requires s.Of(w).InPipeline()
    ensures OnlyMoves(s, s', w)
  {
    Return(s, w, s.Of(w).job, false)
  }

  function DoCrash(s: State, w: Worker): (s': State)
    ensures OnlyMoves(s, s', w)
  {
    Move(s, w, Idle)
  }

  function DoClaim(s: State, w: Worker, job: ClaimedJob): State
    requires job.jobId in s.t.jobs
  {
    Move(s, w, Paging(job)).(t := ClaimJob(s.t, job.jobId, w, s.now), claims := s.claims + [job.jobId])
  }

  function DoUpdateReady(s: State, w: Worker): State
    requires s.Of(w).Finishing?
  {
    var job := s.Of(w).job;
    Move(s, w, if CanUpdate(s.t, job.jobId, Ready) then Idle else Blocked(job))
      .(t := UpdateStatus(s.t, job.jobId, Ready, s.now))
  }

  function DoUpdateError(s: State, w: Worker): State
    requires !s.Of(w).Idle?
  {
    Move(s, w, Idle).(t := UpdateStatus(s.t, s.Of(w).job.jobId, Failed, s.now))
  }

  ghost function Apply(s: State, step: Step): State
    requires Enabled(s, step)
  {
    match step
    case Tick(seconds) => s.(now := s.now + seconds)
    case Create(address, txLimit, requestedHours) => s.(t := CreateJob(s.t, address, txLimit, requestedHours, s.now))
    case Claim(w, id) => DoClaim(s, w, Claimed(s.t, id))
    case Select(w, id) => Move(s, w, Selected(Claimed(s.t, id)))
    case Commit(w) => DoClaim(s, w, s.Of(w).job)
    case WritePage(w, page, rpcNow, last) => DoWritePage(s, w, page, rpcNow, last)
    case TakeBatch(w, batch) => DoTakeBatch(s, w, batch)
    case Receive(w, f) => DoReceive(s, w, f)
    case SaveTransactions(w) => DoSaveTransactions(s, w)
    case SaveTransfers(w) => DoSaveTransfers(s, w)
    case MarkProcessed(w) => DoMark(s, w)
    case GiveUp(w) => DoGiveUp(s, w)
    case UpdateReady(w) => DoUpdateReady(s, w)
    case UpdateError(w) => DoUpdateError(s, w)
    case Crash(w) => DoCrash(s, w)
  }

  /** Steps of one worker that touch no job row. */
  predicate LocalStep(step: Step) {
    || step.WritePage? || step.TakeBatch? || step.Receive? || step.SaveTransactions? || step.SaveTransfers?
    || step.MarkProcessed? || step.GiveUp? || step.Crash?
  }

  lemma LocalStepMoves(s: State, step: Step)
    requires LocalStep(step) && Enabled(s, step)
    ensures OnlyMoves(s, Apply(s, step), step.w)
  {
  }

  // ---------- Runs ----------

  /** Every step of the run is enabled where it is taken. */
  ghost predicate IsRun(s: State, steps: seq<Step>)
    decreases |steps|, 0
  {
    steps == [] || (IsRun(s, steps[..|steps| - 1]) && Enabled(After(s, steps[..|steps| - 1]), steps[|steps| - 1]))
  }

  /** The state a run ends in. */
  ghost function After(s: State, steps: seq<Step>): State
    requires IsRun(s, steps)
    decreases |steps|, 1
  {
    if steps == [] then s else Apply(After(s, steps[..|steps| - 1]), steps[|steps| - 1])
  }

  /** A claim takes effect in one step. */
  predicate Atomic(step: Step) {
    !step.Select? && !step.Commit?
  }

  ghost predicate AllAtomic(steps: seq<Step>) {
    forall i :: 0 <= i < |steps| ==> Atomic(steps[i])
  }

  lemma {:induction false} RunConcat(s: State, a: seq<Step>, b: seq<Step>)
    requires IsRun(s, a) && IsRun(After(s, a), b)
    ensures IsRun(s, a + b) && After(s, a + b) == After(After(s, a), b)
    decreases |b|
  {
    if b == [] {
      assert a + b == a;
    } else {
      var n := |b| - 1;
      RunConcat(s, a, b[..n]);
      assert (a + b)[..|a + b| - 1] == a + b[..n];
    }
  }

  lemma {:induction false} RunSplit(s: State, steps: seq<Step>, n: nat)
    requires IsRun(s, steps) && n <= |steps|
    ensures IsRun(s, steps[..n]) && IsRun(After(s, steps[..n]), steps[n..])
    ensures After(s, steps) == After(After(s, steps[..n]), steps[n..])
    decreases |steps|
  {
    if n == |steps| {
      assert steps[..n] == steps;
    } else {
      var m := |steps| - 1;
      RunSplit(s, steps[..m], n);
      assert steps[..m][..n] == steps[..n];
      assert steps[n..][..|steps[n..]| - 1] == steps[..m][n..];
    }
  }

  lemma ExtendRun(s: State, steps: seq<Step>, step: Step)
    requires IsRun(s, steps) && Enabled(After(s, steps), step)
    ensures IsRun(s, steps + [step]) && After(s, steps + [step]) == Apply(After(s, steps), step)
  {
    var all := steps + [step];
    assert all[..|all| - 1] == steps;
  }

  lemma Extend(start: State, steps: seq<Step>, at: State, step: Step) returns (steps': seq<Step>, next: State)
    requires IsRun(start, steps) && After(start, steps) == at && Enabled(at, step)
    ensures IsRun(start, steps') && After(start, steps') == next && next == Apply(at, step)
    ensures steps' == steps + [step]
  {
    ExtendRun(start, steps, step);
    steps', next := steps + [step], Apply(at, step);
  }

  lemma TwoSteps(s: State, x: Step, y: Step)
    requires Enabled(s, x) && Enabled(Apply(s, x), y)
    ensures IsRun(s, [x, y]) && After(s, [x, y]) == Apply(Apply(s, x), y)
  {
    ExtendRun(s, [], x);
    assert [] + [x] == [x];
    ExtendRun(s, [x], y);
    assert [x] + [y] == [x, y];
  }
}
