/** A run without a crash or an error that processes any given signature rows: what the ideal tables come from. */
module CrashFree {
  import opened Wrappers
  import opened TransactionTypes
  import opened Transfers
  import opened Pagination
  import opened Tables
  import opened Protocol
  import Convergence
  import JobSafety
  import OneRow
  import StorageSafety
  import Verdict

  /** The step of a worker to which nothing goes wrong, with the fixed answers. */
  ghost predicate Smooth(step: Step, answer: Convergence.Answer) {
    && Atomic(step) && !step.Crash? && !step.GiveUp? && !step.UpdateError?
    && Convergence.FixedAnswer(step, answer)
  }

  ghost predicate AllSmooth(steps: seq<Step>, answer: Convergence.Answer) {
    forall i :: 0 <= i < |steps| ==> Smooth(steps[i], answer)
  }

  ghost predicate Reached(now: int, steps: seq<Step>, s: State, answer: Convergence.Answer) {
    IsRun(Init(now), steps) && After(Init(now), steps) == s && AllSmooth(steps, answer) && s.now == now
  }

  lemma Take(now: int, steps: seq<Step>, s: State, answer: Convergence.Answer, step: Step)
    returns (steps': seq<Step>, s': State)
    requires Reached(now, steps, s, answer) && Enabled(s, step) && Smooth(step, answer) && !step.Tick?
    requires Actor(step) == None || Actor(step) == Some(0)
    ensures Reached(now, steps', s', answer) && s' == Apply(s, step)
    ensures forall v :: v != 0 ==> s'.Of(v) == s.Of(v)
  {
    forall v | v != 0
      ensures Apply(s, step).Of(v) == s.Of(v)
    {
      Verdict.OthersKeepWorker(s, step, v);
    }
    ExtendRun(Init(now), steps, step);
    steps', s' := steps + [step], Apply(s, step);
  }

  /** Nobody works, every job is ready, and the signature rows are `rows`. */
  ghost predicate Calm(s: State, rows: map<Key, SigRow>) {
    && s.t.signatures == rows
    && (forall v :: s.Of(v).Idle?)
    && (forall i :: i in s.t.jobs ==> i < s.t.nextId && s.t.jobs[i].status == Ready)
  }

  /** Worker 0 stands at `stage` with job `id` of `owner`; all other jobs are ready. */
  ghost predicate Mid(s: State, id: JobId, owner: Address, status: Status, rows: map<Key, SigRow>, stage: Stage) {
    && s.t.signatures == rows && s.Of(0) == stage
    && (forall v :: v != 0 ==> s.Of(v).Idle?)
    && (forall i :: i in s.t.jobs && i != id ==> i < s.t.nextId && s.t.jobs[i].status == Ready)
    && id in s.t.jobs && id < s.t.nextId && s.t.jobs[id].status == status
    && s.t.jobs[id].address == owner && s.t.jobs[id].requestedHours == 1
  }

  lemma TakeCreate(now: int, steps: seq<Step>, s: State, answer: Convergence.Answer, owner: Address,
                   rows: map<Key, SigRow>)
    returns (steps': seq<Step>, s': State, id: JobId)
    requires Reached(now, steps, s, answer) && Calm(s, rows)
    ensures Reached(now, steps', s', answer) && Mid(s', id, owner, Pending, rows, Idle)
  {
    id := s.t.nextId;
    assert id !in s.t.jobs;
    steps', s' := Take(now, steps, s, answer, Create(owner, 10, 1));
    assert forall v :: s'.Of(v) == s.Of(v);
  }

  lemma TakeClaim(now: int, steps: seq<Step>, s: State, answer: Convergence.Answer, id: JobId, owner: Address,
                  rows: map<Key, SigRow>)
    returns (steps': seq<Step>, s': State, job: ClaimedJob)
    requires Reached(now, steps, s, answer) && Mid(s, id, owner, Pending, rows, Idle)
    ensures Reached(now, steps', s', answer) && job.jobId == id && job.address == owner && job.requestedHours == 1
    ensures Mid(s', id, owner, Indexing, rows, Paging(job))
  {
    assert forall v :: v in s.workers ==> s.workers[v] == s.Of(v);
    assert Locked(s) == {};
    assert !Busy(s.t, owner);
    job := Claimed(s.t, id);
    steps', s' := Take(now, steps, s, answer, Claim(0, id));
  }

  lemma TakePage(now: int, steps: seq<Step>, s: State, answer: Convergence.Answer, job: ClaimedJob, key: Key,
                 rows: map<Key, SigRow>)
    returns (steps': seq<Step>, s': State)
    requires Reached(now, steps, s, answer) && key !in rows && job.address == key.owner && job.requestedHours == 1
    requires Mid(s, job.jobId, key.owner, Indexing, rows, Paging(job))
    ensures Reached(now, steps', s', answer)
    ensures Mid(s', job.jobId, key.owner, Indexing, OneRow.Fresh(rows, key, now), Leasing(job))
  {
    OneRow.Write(rows, key, now);
    steps', s' := Take(now, steps, s, answer, WritePage(0, [Signature(Some(now), key.signature)], now, true));
  }

  lemma TakeLease(now: int, steps: seq<Step>, s: State, answer: Convergence.Answer, job: ClaimedJob, key: Key,
                  rows: map<Key, SigRow>)
    returns (steps': seq<Step>, s': State)
    requires Reached(now, steps, s, answer) && key !in rows && OneRow.Done(rows) && job.address == key.owner
    requires Mid(s, job.jobId, key.owner, Indexing, OneRow.Fresh(rows, key, now), Leasing(job))
    ensures Reached(now, steps', s', answer)
    ensures Mid(s', job.jobId, key.owner, Indexing, OneRow.Leased(rows, key, now),
            Stage.Fetching(job, [key.signature], now))
  {
    OneRow.Lease(rows, key, now, BATCH_LIMIT);
    steps', s' := Take(now, steps, s, answer, TakeBatch(0, [key.signature]));
  }

  function AnswerFor(answer: Convergence.Answer, sig: Sig): Fetch {
    Fetch([sig], [Convergence.Ideal(answer, sig)], false)
  }

  lemma TakeAnswer(now: int, steps: seq<Step>, s: State, answer: Convergence.Answer, job: ClaimedJob, key: Key,
                   rows: map<Key, SigRow>)
    returns (steps': seq<Step>, s': State)
    requires Reached(now, steps, s, answer) && RowSignature(answer(key.signature)) == key.signature
    requires Mid(s, job.jobId, key.owner, Indexing, rows, Stage.Fetching(job, [key.signature], now))
    ensures Reached(now, steps', s', answer)
    ensures Mid(s', job.jobId, key.owner, Indexing, rows,
            Saving(job, [key.signature], now, AnswerFor(answer, key.signature)))
  {
    steps', s' := Take(now, steps, s, answer, Receive(0, AnswerFor(answer, key.signature)));
  }

  lemma TakeSaves(now: int, steps: seq<Step>, s: State, answer: Convergence.Answer, job: ClaimedJob, key: Key,
                  rows: map<Key, SigRow>, f: Fetch)
    returns (steps': seq<Step>, s': State)
    requires Reached(now, steps, s, answer)
    requires Mid(s, job.jobId, key.owner, Indexing, rows, Saving(job, [key.signature], now, f))
    ensures Reached(now, steps', s', answer)
    ensures Mid(s', job.jobId, key.owner, Indexing, rows, Marking(job, [key.signature], now, f))
  {
    steps', s' := TakeFirstSave(now, steps, s, answer, job, key, rows, f);
    steps', s' := TakeSecondSave(now, steps', s', answer, job, key, rows, f);
  }

  lemma TakeFirstSave(now: int, steps: seq<Step>, s: State, answer: Convergence.Answer, job: ClaimedJob, key: Key,
                      rows: map<Key, SigRow>, f: Fetch)
    returns (steps': seq<Step>, s': State)
    requires Reached(now, steps, s, answer)
    requires Mid(s, job.jobId, key.owner, Indexing, rows, Saving(job, [key.signature], now, f))
    ensures Reached(now, steps', s', answer)
    ensures Mid(s', job.jobId, key.owner, Indexing, rows, SavingTransfers(job, [key.signature], now, f))
  {
    steps', s' := Take(now, steps, s, answer, SaveTransactions(0));
  }

  lemma TakeSecondSave(now: int, steps: seq<Step>, s: State, answer: Convergence.Answer, job: ClaimedJob, key: Key,
                       rows: map<Key, SigRow>, f: Fetch)
    returns (steps': seq<Step>, s': State)
    requires Reached(now, steps, s, answer)
    requires Mid(s, job.jobId, key.owner, Indexing, rows, SavingTransfers(job, [key.signature], now, f))
    ensures Reached(now, steps', s', answer)
    ensures Mid(s', job.jobId, key.owner, Indexing, rows, Marking(job, [key.signature], now, f))
  {
    steps', s' := Take(now, steps, s, answer, SaveTransfers(0));
  }

  lemma TakeMark(now: int, steps: seq<Step>, s: State, answer: Convergence.Answer, job: ClaimedJob, key: Key,
                 rows: map<Key, SigRow>)
    returns (steps': seq<Step>, s': State)
    requires Reached(now, steps, s, answer) && key !in rows && job.address == key.owner
    requires Mid(s, job.jobId, key.owner, Indexing, OneRow.Leased(rows, key, now),
                 Marking(job, [key.signature], now, AnswerFor(answer, key.signature)))
    ensures Reached(now, steps', s', answer)
    ensures Mid(s', job.jobId, key.owner, Indexing, OneRow.Marked(rows, key, now), Leasing(job))
  {
    OneRow.Mark(rows, key, now);
    steps', s' := Take(now, steps, s, answer, MarkProcessed(0));
  }

  lemma TakeEmpty(now: int, steps: seq<Step>, s: State, answer: Convergence.Answer, job: ClaimedJob, key: Key,
                  rows: map<Key, SigRow>)
    returns (steps': seq<Step>, s': State)
    requires Reached(now, steps, s, answer) && key !in rows && OneRow.Done(rows) && job.address == key.owner
    requires Mid(s, job.jobId, key.owner, Indexing, OneRow.Marked(rows, key, now), Leasing(job))
    ensures Reached(now, steps', s', answer)
    ensures Mid(s', job.jobId, key.owner, Indexing, OneRow.Marked(rows, key, now), Finishing(job, true))
  {
    OneRow.NothingToLease(rows, key, now, BATCH_LIMIT);
    steps', s' := Take(now, steps, s, answer, TakeBatch(0, []));
  }

  lemma TakeReady(now: int, steps: seq<Step>, s: State, answer: Convergence.Answer, job: ClaimedJob, owner: Address,
                  rows: map<Key, SigRow>)
    returns (steps': seq<Step>, s': State)
    requires Reached(now, steps, s, answer) && OneRow.Done(rows)
    requires Mid(s, job.jobId, owner, Indexing, rows, Finishing(job, true))
    ensures Reached(now, steps', s', answer) && Calm(s', rows)
  {
    assert GateOpen(s.t, job.jobId);
    steps', s' := Take(now, steps, s, answer, UpdateReady(0));
  }

  /** A job is created and claimed, and its one row leased. */
  lemma UpToLease(now: int, steps: seq<Step>, s: State, answer: Convergence.Answer, key: Key, rows: map<Key, SigRow>)
    returns (steps': seq<Step>, s': State, job: ClaimedJob)
    requires Reached(now, steps, s, answer) && Calm(s, rows) && OneRow.Done(rows) && key !in rows
    ensures Reached(now, steps', s', answer) && job.address == key.owner
    ensures Mid(s', job.jobId, key.owner, Indexing, OneRow.Leased(rows, key, now),
            Stage.Fetching(job, [key.signature], now))
  {
    var id;
    steps', s', id := TakeCreate(now, steps, s, answer, key.owner, rows);
    steps', s', job := TakeClaim(now, steps', s', answer, id, key.owner, rows);
    steps', s' := TakePage(now, steps', s', answer, job, key, rows);
    steps', s' := TakeLease(now, steps', s', answer, job, key, rows);
  }

  /** Its transaction is fetched and stored, and the row marked. */
  lemma UpToMark(now: int, steps: seq<Step>, s: State, answer: Convergence.Answer, job: ClaimedJob, key: Key,
                 rows: map<Key, SigRow>)
    returns (steps': seq<Step>, s': State)
    requires Reached(now, steps, s, answer) && key !in rows && job.address == key.owner
    requires RowSignature(answer(key.signature)) == key.signature
    requires Mid(s, job.jobId, key.owner, Indexing, OneRow.Leased(rows, key, now),
             Stage.Fetching(job, [key.signature], now))
    ensures Reached(now, steps', s', answer)
    ensures Mid(s', job.jobId, key.owner, Indexing, OneRow.Marked(rows, key, now), Leasing(job))
  {
    var leased, f := OneRow.Leased(rows, key, now), AnswerFor(answer, key.signature);
    steps', s' := TakeAnswer(now, steps, s, answer, job, key, leased);
    steps', s' := TakeSaves(now, steps', s', answer, job, key, leased, f);
    steps', s' := TakeMark(now, steps', s', answer, job, key, rows);
  }

  /** One job for one more row, from the claim to `ready`. */
  lemma OneMoreRow(now: int, steps: seq<Step>, s: State, answer: Convergence.Answer, key: Key, rows: map<Key, SigRow>)
    returns (steps': seq<Step>, s': State)
    requires Reached(now, steps, s, answer) && Calm(s, rows) && OneRow.Done(rows) && key !in rows
    requires RowSignature(answer(key.signature)) == key.signature
    ensures Reached(now, steps', s', answer) && Calm(s', OneRow.Marked(rows, key, now))
  {
    var job;
    steps', s', job := UpToLease(now, steps, s, answer, key, rows);
    steps', s' := UpToMark(now, steps', s', answer, job, key, rows);
    steps', s' := TakeEmpty(now, steps', s', answer, job, key, rows);
    steps', s' := TakeReady(now, steps', s', answer, job, key.owner, OneRow.Marked(rows, key, now));
  }

  lemma {:induction false} RowsOneByOne(now: int, keys: set<Key>, answer: Convergence.Answer)
    returns (steps: seq<Step>, s: State, rows: map<Key, SigRow>)
    requires forall k :: k in keys ==> RowSignature(answer(k.signature)) == k.signature
    ensures Reached(now, steps, s, answer) && Calm(s, rows) && OneRow.Done(rows) && rows.Keys == keys
    decreases |keys|
  {
    if keys == {} {
      steps, s, rows := [], Init(now), map[];
    } else {
      var key :| key in keys;
      var fewer;
      steps, s, fewer := RowsOneByOne(now, keys - {key}, answer);
      steps, s := OneMoreRow(now, steps, s, answer, key, fewer);
      rows := OneRow.Marked(fewer, key, now);
    }
  }

  /**
   * For every finite set of signature rows there is a run without a crash or an error that processes exactly these,
   * and the tables it ends with are the ideal tables.
   */
  lemma CrashFreeRunExists(now: int, keys: set<Key>, answer: Convergence.Answer) returns (steps: seq<Step>)
    requires forall k :: k in keys ==> RowSignature(answer(k.signature)) == k.signature
    ensures IsRun(Init(now), steps) && AllSmooth(steps, answer)
    ensures var t := After(Init(now), steps).t;
            && t.signatures.Keys == keys && Convergence.AllProcessed(t)
            && t.transactions == Convergence.IdealTransactions(keys, answer)
            && t.transfers == Convergence.IdealTransfers(keys, answer)
  {
    var s, rows;
    steps, s, rows := RowsOneByOne(now, keys, answer);
    assert Convergence.AllProcessed(s.t);
    SmoothAnswers(steps, answer);
    Convergence.RetriesConverge(now, steps, answer);
  }

  /**
   * Crash-retry convergence. Whatever crashes, expired leases, repeated saves and overlapping jobs a run went
   * through, there is a run without any of them over the same signature rows whose tables contain everything the
   * run has stored, and are equal to its tables once it has processed every row.
   */
  lemma MatchesCrashFreeRun(now: int, steps: seq<Step>, answer: Convergence.Answer) returns (smooth: seq<Step>)
    requires IsRun(Init(now), steps) && Convergence.AnswersFixed(steps, answer)
    requires forall sig :: RowSignature(answer(sig)) == sig
    ensures IsRun(Init(now), smooth) && AllSmooth(smooth, answer)
    ensures var t, t' := After(Init(now), steps).t, After(Init(now), smooth).t;
            && t'.signatures.Keys == t.signatures.Keys && Convergence.AllProcessed(t')
            && StorageSafety.Grows(t, t')
            && (Convergence.AllProcessed(t) ==> t.transactions == t'.transactions && t.transfers == t'.transfers)
  {
    var t := After(Init(now), steps).t;
    smooth := CrashFreeRunExists(now, t.signatures.Keys, answer);
    SmoothAnswers(smooth, answer);
    Convergence.PartialWithinFinished(now, steps, now, smooth, answer);
    if Convergence.AllProcessed(t) {
      Convergence.FinishedRunsAgree(now, steps, now, smooth, answer);
    }
  }

  lemma SmoothAnswers(steps: seq<Step>, answer: Convergence.Answer)
    requires AllSmooth(steps, answer)
    ensures Convergence.AnswersFixed(steps, answer)
  {
    forall i | 0 <= i < |steps|
      ensures Convergence.FixedAnswer(steps[i], answer)
    {
      assert Smooth(steps[i], answer);
    }
  }
}
