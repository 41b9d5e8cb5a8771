/**
 * A run, with atomic claims, in which a pipeline returns Ok and its job is blocked: an earlier job of the
 * address failed its fetch and left a live lease on a row of the later job's window.
 */
module BlockedPipeline {
  import opened Wrappers
  import opened TransactionTypes
  import opened Pagination
  import opened Tables
  import opened Protocol
  import JobSafety
  import OneRow
  import Verdict

  /** The run so far. */
  ghost predicate Reached(now: int, steps: seq<Step>, s: State) {
    IsRun(Init(now), steps) && After(Init(now), steps) == s && AllAtomic(steps)
  }

  lemma Take(now: int, steps: seq<Step>, s: State, step: Step) returns (steps': seq<Step>, s': State)
    requires Reached(now, steps, s) && Enabled(s, step) && Atomic(step)
    ensures Reached(now, steps', s') && s' == Apply(s, step)
    ensures forall v :: s'.Of(v).Selected? ==> s.Of(v).Selected?
  {
    JobSafety.StepSelectsNothing(s, step);
    ExtendRun(Init(now), steps, step);
    steps', s' := steps + [step], Apply(s, step);
  }

  /** Two jobs of one address, created now; nobody holds a lock; `rows` are the signature rows. */
  ghost predicate TwoJobs(s: State, address: Address, first: Status, second: Status, rows: map<Key, SigRow>) {
    && s.t.jobs.Keys == {1, 2} && s.t.signatures == rows
    && (forall id :: id in s.t.jobs ==>
          s.t.jobs[id].address == address && s.t.jobs[id].createdAt == s.now && s.t.jobs[id].requestedHours == 1)
    && s.t.jobs[1].status == first && s.t.jobs[2].status == second
    && forall v :: !s.Of(v).Selected?
  }

  /** What the first worker writes, and what it leaves behind: a row under a lease taken just now. */
  function FreshRows(address: Address, sig: Sig, now: int): map<Key, SigRow> {
    OneRow.Fresh(map[], Key(address, sig), now)
  }

  function LeasedRows(address: Address, sig: Sig, now: int): map<Key, SigRow> {
    OneRow.Leased(map[], Key(address, sig), now)
  }

  // ---------- The first worker ----------

  lemma ClaimFirst(now: int, steps: seq<Step>, s: State, address: Address) returns (steps': seq<Step>, s': State)
    requires Reached(now, steps, s) && s.now == now && s.workers == map[] && s.returned == map[]
    requires TwoJobs(s, address, Pending, Pending, map[])
    ensures Reached(now, steps', s') && s'.now == now && s'.returned == map[] && s'.Of(2) == Idle
    ensures TwoJobs(s', address, Indexing, Pending, map[])
            && s'.Of(1) == Paging(ClaimedJob(1, address, 1, s.t.jobs[1].txLimit))
  {
    assert Locked(s) == {};
    assert !Busy(s.t, address);
    steps', s' := Take(now, steps, s, Claim(1, 1));
  }

  lemma PageFirst(now: int, steps: seq<Step>, s: State, address: Address, job: ClaimedJob, sig: Sig)
    returns (steps': seq<Step>, s': State)
    requires Reached(now, steps, s) && s.now == now && s.returned == map[] && s.Of(2) == Idle
    requires TwoJobs(s, address, Indexing, Pending, map[]) && s.Of(1) == Paging(job)
    requires job.address == address && job.requestedHours == 1
    ensures Reached(now, steps', s') && s'.now == now && s'.returned == map[] && s'.Of(2) == Idle
    ensures TwoJobs(s', address, Indexing, Pending, FreshRows(address, sig, now)) && s'.Of(1) == Leasing(job)
  {
    OneRow.Write(map[], Key(address, sig), now);
    steps', s' := Take(now, steps, s, WritePage(1, [Signature(Some(now), sig)], now, true));
  }

  lemma LeaseFirst(now: int, steps: seq<Step>, s: State, address: Address, job: ClaimedJob, sig: Sig)
    returns (steps': seq<Step>, s': State)
    requires Reached(now, steps, s) && s.now == now && s.returned == map[] && s.Of(2) == Idle
    requires TwoJobs(s, address, Indexing, Pending, FreshRows(address, sig, now)) && s.Of(1) == Leasing(job)
             && job.address == address
    ensures Reached(now, steps', s') && s'.now == now && s'.returned == map[] && s'.Of(2) == Idle
    ensures TwoJobs(s', address, Indexing, Pending, LeasedRows(address, sig, now))
            && s'.Of(1) == Stage.Fetching(job, [sig], now)
  {
    OneRow.Lease(map[], Key(address, sig), now, BATCH_LIMIT);
    steps', s' := Take(now, steps, s, TakeBatch(1, [sig]));
  }

  /** The only fetch of the batch failed: nothing processed, nothing to save. */
  function NothingFetched(): Fetch {
    Fetch([], [], true)
  }

  lemma ReceiveFirst(now: int, steps: seq<Step>, s: State, address: Address, job: ClaimedJob, sig: Sig)
    returns (steps': seq<Step>, s': State)
    requires Reached(now, steps, s) && s.now == now && s.returned == map[] && s.Of(2) == Idle
    requires TwoJobs(s, address, Indexing, Pending, LeasedRows(address, sig, now))
    requires s.Of(1) == Stage.Fetching(job, [sig], now)
    ensures Reached(now, steps', s') && s'.now == now && s'.Of(2) == Idle && s'.returned == map[]
    ensures TwoJobs(s', address, Indexing, Pending, LeasedRows(address, sig, now))
    ensures s'.Of(1) == Saving(job, [sig], now, NothingFetched())
  {
    assert sig in [sig];
    steps', s' := Take(now, steps, s, Receive(1, NothingFetched()));
  }

  lemma SaveFirst(now: int, steps: seq<Step>, s: State, address: Address, job: ClaimedJob, sig: Sig)
    returns (steps': seq<Step>, s': State)
    requires Reached(now, steps, s) && s.now == now && s.returned == map[] && s.Of(2) == Idle
    requires TwoJobs(s, address, Indexing, Pending, LeasedRows(address, sig, now))
    requires s.Of(1) == Saving(job, [sig], now, NothingFetched())
    ensures Reached(now, steps', s') && s'.now == now && s'.Of(2) == Idle && s'.returned == map[]
    ensures TwoJobs(s', address, Indexing, Pending, LeasedRows(address, sig, now))
    ensures s'.Of(1) == SavingTransfers(job, [sig], now, NothingFetched())
  {
    steps', s' := Take(now, steps, s, SaveTransactions(1));
  }

  lemma SaveFirstTransfers(now: int, steps: seq<Step>, s: State, address: Address, job: ClaimedJob, sig: Sig)
    returns (steps': seq<Step>, s': State)
    requires Reached(now, steps, s) && s.now == now && s.returned == map[] && s.Of(2) == Idle
    requires TwoJobs(s, address, Indexing, Pending, LeasedRows(address, sig, now))
    requires s.Of(1) == SavingTransfers(job, [sig], now, NothingFetched())
    ensures Reached(now, steps', s') && s'.now == now && s'.Of(2) == Idle && s'.returned == map[]
    ensures TwoJobs(s', address, Indexing, Pending, LeasedRows(address, sig, now))
    ensures s'.Of(1) == Marking(job, [sig], now, NothingFetched())
  {
    steps', s' := Take(now, steps, s, SaveTransfers(1));
  }

  lemma MarkFirst(now: int, steps: seq<Step>, s: State, address: Address, job: ClaimedJob, sig: Sig)
    returns (steps': seq<Step>, s': State)
    requires Reached(now, steps, s) && s.now == now && s.returned == map[] && s.Of(2) == Idle
    requires TwoJobs(s, address, Indexing, Pending, LeasedRows(address, sig, now))
    requires s.Of(1) == Marking(job, [sig], now, NothingFetched()) && job.jobId == 1
    ensures Reached(now, steps', s') && s'.now == now && s'.Of(2) == Idle
    ensures TwoJobs(s', address, Indexing, Pending, LeasedRows(address, sig, now))
    ensures s'.Of(1) == Finishing(job, false)
  {
    MarkNothing(s.t.signatures, job.address);
    steps', s' := Take(now, steps, s, MarkProcessed(1));
  }

  lemma MarkNothing(rows: map<Key, SigRow>, owner: Address)
    ensures MarkRows(rows, owner, []) == rows
  {
  }

  lemma ErrorFirst(now: int, steps: seq<Step>, s: State, address: Address, job: ClaimedJob, rows: map<Key, SigRow>)
    returns (steps': seq<Step>, s': State)
    requires Reached(now, steps, s) && s.now == now && s.Of(2) == Idle
    requires TwoJobs(s, address, Indexing, Pending, rows) && s.Of(1) == Finishing(job, false) && job.jobId == 1
    ensures Reached(now, steps', s') && s'.now == now && s'.Of(2) == Idle
    ensures TwoJobs(s', address, Status.Failed, Pending, rows)
  {
    steps', s' := Take(now, steps, s, UpdateError(1));
  }

  // ---------- The second worker ----------

  lemma ClaimSecond(now: int, steps: seq<Step>, s: State, address: Address, rows: map<Key, SigRow>)
    returns (steps': seq<Step>, s': State)
    requires Reached(now, steps, s) && s.now == now && s.Of(2) == Idle
    requires TwoJobs(s, address, Status.Failed, Pending, rows)
    ensures Reached(now, steps', s') && s'.now == now
    ensures TwoJobs(s', address, Status.Failed, Indexing, rows)
    ensures s'.Of(2) == Paging(ClaimedJob(2, address, 1, s.t.jobs[2].txLimit))
  {
    assert forall v :: v in s.workers ==> s.workers[v] == s.Of(v);
    assert Locked(s) == {};
    assert !Busy(s.t, address);
    steps', s' := Take(now, steps, s, Claim(2, 2));
  }

  lemma PageSecond(now: int, steps: seq<Step>, s: State, address: Address, job: ClaimedJob, rows: map<Key, SigRow>)
    returns (steps': seq<Step>, s': State)
    requires Reached(now, steps, s) && s.now == now
    requires TwoJobs(s, address, Status.Failed, Indexing, rows) && s.Of(2) == Paging(job)
    ensures Reached(now, steps', s') && s'.now == now
    ensures TwoJobs(s', address, Status.Failed, Indexing, rows) && s'.Of(2) == Leasing(job)
  {
    steps', s' := Take(now, steps, s, WritePage(2, [], now, true));
  }

  lemma EmptySecond(now: int, steps: seq<Step>, s: State, address: Address, job: ClaimedJob, sig: Sig)
    returns (steps': seq<Step>, s': State)
    requires Reached(now, steps, s) && s.now == now && job.address == address && job.jobId == 2
    requires TwoJobs(s, address, Status.Failed, Indexing, LeasedRows(address, sig, now)) && s.Of(2) == Leasing(job)
    ensures Reached(now, steps', s') && s'.now == now && 2 in s'.returned && s'.returned[2]
    ensures TwoJobs(s', address, Status.Failed, Indexing, LeasedRows(address, sig, now))
            && s'.Of(2) == Finishing(job, true)
  {
    OneRow.NothingToLease(map[], Key(address, sig), now, BATCH_LIMIT);
    steps', s' := Take(now, steps, s, TakeBatch(2, []));
  }

  lemma BlockSecond(now: int, steps: seq<Step>, s: State, address: Address, job: ClaimedJob, sig: Sig)
    returns (steps': seq<Step>, s': State)
    requires Reached(now, steps, s) && s.now == now && job.jobId == 2 && 2 in s.returned && s.returned[2]
    requires TwoJobs(s, address, Status.Failed, Indexing, LeasedRows(address, sig, now))
             && s.Of(2) == Finishing(job, true)
    ensures Reached(now, steps', s') && s'.now == now && s'.Of(2) == Blocked(job) && 2 in s'.returned && s'.returned[2]
    ensures TwoJobs(s', address, Status.Failed, Indexing, LeasedRows(address, sig, now))
  {
    var k := Key(address, sig);
    assert InWindow(s.t.jobs[2], s.t.signatures[k].blockTime) && !s.t.signatures[k].isProcessed;
    assert !GateOpen(s.t, 2);
    steps', s' := Take(now, steps, s, UpdateReady(2));
  }

  // ---------- The run ----------

  /** After the first job: the address is free again, and its row is under a live lease. */
  lemma FirstFails(address: Address, sig: Sig, now: int) returns (steps: seq<Step>, s: State)
    ensures Reached(now, steps, s) && s.now == now && s.Of(2) == Idle
    ensures TwoJobs(s, address, Status.Failed, Pending, LeasedRows(address, sig, now))
  {
    s, steps := JobSafety.BothCreated(address, now);
    steps, s := ClaimFirst(now, steps, s, address);
    var job := s.Of(1).job;
    steps, s := PageFirst(now, steps, s, address, job, sig);
    steps, s := LeaseFirst(now, steps, s, address, job, sig);
    steps, s := ReceiveFirst(now, steps, s, address, job, sig);
    steps, s := SaveFirst(now, steps, s, address, job, sig);
    steps, s := SaveFirstTransfers(now, steps, s, address, job, sig);
    steps, s := MarkFirst(now, steps, s, address, job, sig);
    steps, s := ErrorFirst(now, steps, s, address, job, LeasedRows(address, sig, now));
  }

  /** The pipeline of job 2 returns Ok, the ready update is blocked, and the job is still indexing. */
  lemma OkCanBeBlocked(address: Address, sig: Sig, now: int) returns (steps: seq<Step>)
    ensures IsRun(Init(now), steps) && AllAtomic(steps)
    ensures var s := After(Init(now), steps);
            && 2 in s.returned && s.returned[2] && s.Of(2).Blocked? && s.Of(2).job.jobId == 2
            && 2 in s.t.jobs && s.t.jobs[2].status == Indexing && Verdict.LiveLeaseInWindow(s, 2)
  {
    var s;
    steps, s := FirstFails(address, sig, now);
    steps, s := ClaimSecond(now, steps, s, address, LeasedRows(address, sig, now));
    var job := s.Of(2).job;
    steps, s := PageSecond(now, steps, s, address, job, LeasedRows(address, sig, now));
    steps, s := EmptySecond(now, steps, s, address, job, sig);
    steps, s := BlockSecond(now, steps, s, address, job, sig);
    LiveLease(s, address, sig);
  }

  lemma LiveLease(s: State, address: Address, sig: Sig)
    requires TwoJobs(s, address, Status.Failed, Indexing, LeasedRows(address, sig, s.now))
    ensures Verdict.LiveLeaseInWindow(s, 2)
  {
    assert Key(address, sig) in Window(s.t, 2);
  }
}
