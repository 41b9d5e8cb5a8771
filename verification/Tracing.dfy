/**
 * From the code to the protocol: the run of the protocol machine that an execution of the code takes.
 * A trace records that run step by step; the methods of Paging and Indexer extend it as they go.
 */
module Tracing {
  import opened Wrappers
  import opened TransactionTypes
  import opened Transfers
  import opened Pagination
  import opened Tables
  import opened Database
  import opened Protocol
  import Fetching
  import Convergence
  import Pages = Paging

  /** The replies to every request: `net(n, s)` answers signature s in the n-th batch. */
  type Net = (nat, Sig) -> Fetching.Replies

  /** Who executes the code, and the remote side it talks to. */
  datatype Party = Party(w: Worker, net: Net, maxRetries: nat)

  datatype Trace = Trace(start: State, steps: seq<Step>, end: State) {
    ghost predicate Valid() {
      IsRun(start, steps) && After(start, steps) == end
    }

    /** How many non-empty batches the run has leased. */
    function Batches(): nat {
      CountBatches(steps)
    }
  }

  function CountBatches(steps: seq<Step>): nat {
    if steps == [] then 0 else CountBatches(steps[..|steps| - 1]) + (if LeasesBatch(steps[|steps| - 1]) then 1 else 0)
  }

  predicate LeasesBatch(step: Step) {
    step.TakeBatch? && step.batch != []
  }

  /** The result of one fetch. */
  function FetchOf(party: Party, n: nat, sig: Sig): Fetching.Outcome {
    Fetching.FetchSpec(sig, party.net(n, sig), party.maxRetries)
  }

  /** Every transaction of the fetch was received for the signature it stands under. */
  ghost predicate Received(f: Fetch, party: Party) {
    && |f.payload| == |f.processed|
    && forall i :: 0 <= i < |f.processed| ==> CameFor(party, f.processed[i], f.payload[i].info)
  }

  ghost predicate CameFor(party: Party, sig: Sig, info: TransactionInfo) {
    exists n :: FetchOf(party, n, sig) == Fetching.Fetched(sig, info)
  }

  /** A step of the party itself, of the clock, or a new job. */
  ghost predicate Own(step: Step, party: Party) {
    && Atomic(step)
    && (Actor(step).None? || Actor(step) == Some(party.w))
    && (step.Receive? ==> Received(step.fetch, party))
  }

  /** The later trace goes on from the earlier one, by steps of the party only. */
  ghost predicate Extends(tr: Trace, tr': Trace, party: Party) {
    && tr'.start == tr.start
    && tr.steps <= tr'.steps
    && forall i :: |tr.steps| <= i < |tr'.steps| ==> Own(tr'.steps[i], party)
  }

  /** A returned pipeline is on record with its result. */
  predicate Recorded(s: State, stage: Stage) {
    match stage
    case Finishing(job, ok) => job.jobId in s.returned && s.returned[job.jobId] == ok
    case Blocked(job) => job.jobId in s.returned && s.returned[job.jobId]
    case _ => true
  }

  /** The trace ends in the tables of the database, with the worker at `stage`. */
  ghost predicate Tracks(db: Database, tr: Trace, w: Worker, stage: Stage)
    reads db
  {
    tr.Valid() && tr.end.t == db.All() && tr.end.now <= db.Now() && tr.end.Of(w) == stage && Recorded(tr.end, stage)
  }

  /** The same, for given tables. */
  ghost predicate EndsIn(tr: Trace, t: Tables, now: int, w: Worker, stage: Stage) {
    tr.Valid() && tr.end.t == t && tr.end.now == now && tr.end.Of(w) == stage && Recorded(tr.end, stage)
  }

  /** A new database starts the empty run. */
  lemma InitTrace(db: Database, now: int, w: Worker)
    requires db.All() == EmptyTables() && now <= db.Now()
    ensures Tracks(db, Trace(Init(now), [], Init(now)), w, Idle) && forall v :: Init(now).Of(v) == Idle
  {
  }

  lemma ExtendsTransitive(a: Trace, b: Trace, c: Trace, party: Party)
    requires Extends(a, b, party) && Extends(b, c, party)
    ensures Extends(a, c, party)
  {
    forall i | |a.steps| <= i < |c.steps|
      ensures Own(c.steps[i], party)
    {
      if i < |b.steps| {
        assert c.steps[i] == b.steps[i];
      }
    }
  }

  lemma Follow(tr: Trace, step: Step, party: Party) returns (tr': Trace)
    requires tr.Valid() && Enabled(tr.end, step) && Own(step, party)
    ensures tr'.Valid() && tr'.end == Apply(tr.end, step) && Extends(tr, tr', party)
    ensures tr'.Batches() == tr.Batches() + if LeasesBatch(step) then 1 else 0
  {
    assert (tr.steps + [step])[..|tr.steps|] == tr.steps;
    ExtendRun(tr.start, tr.steps, step);
    tr' := Trace(tr.start, tr.steps + [step], Apply(tr.end, step));
  }

  /** The clock moves on to `now`. */
  lemma FollowClock(tr: Trace, party: Party, now: int) returns (tr': Trace)
    requires tr.Valid() && tr.end.now <= now
    ensures tr'.Valid() && tr'.end == tr.end.(now := now) && Extends(tr, tr', party) && tr'.Batches() == tr.Batches()
  {
    tr' := Follow(tr, Tick(now - tr.end.now), party);
  }

  // ---------- Paging ----------

  lemma FollowPage(tr: Trace, party: Party, job: ClaimedJob, page: seq<Signature>, rpcNow: int, last: bool)
    returns (tr': Trace)
    requires tr.Valid() && tr.end.Of(party.w) == Paging(job)
    ensures Extends(tr, tr', party)
    ensures EndsIn(tr', PageWritten(tr.end.t, job, page, rpcNow), tr.end.now, party.w,
                   if last then Leasing(job) else Paging(job))
  {
    tr' := Follow(tr, WritePage(party.w, page, rpcNow, last), party);
  }

  function PageWritten(t: Tables, job: ClaimedJob, page: seq<Signature>, rpcNow: int): Tables {
    t.(signatures := InsertSignatures(t.signatures, job.address, RecentPart(page, Cutoff(job.requestedHours, rpcNow))))
  }

  lemma PageConcat(t: Tables, job: ClaimedJob, ledger: seq<Signature>, replies: nat -> PageReply, n: nat)
    requires n > 0 && replies(n - 1).Answered?
    ensures PageWritten(Pages.Written(t, job.address,
            Pages.PagesWritten(ledger, job.requestedHours, replies, n - 1)), job,
                        Pages.PageOf(ledger, n - 1), replies(n - 1).now)
         == Pages.Written(t, job.address, Pages.PagesWritten(ledger, job.requestedHours, replies, n))
  {
    Pages.WrittenConcat(t, job.address, Pages.PagesWritten(ledger, job.requestedHours, replies, n - 1),
                        RecentPart(Pages.PageOf(ledger, n - 1), Cutoff(job.requestedHours, replies(n - 1).now)));
  }

  /** The run from `tr` to `tr'` took the first n pages of the loop, one step each, and the worker is at `stage`. */
  ghost predicate Paged(tr: Trace, tr': Trace, party: Party, job: ClaimedJob, ledger: seq<Signature>,
                        replies: nat -> PageReply, n: nat, stage: Stage) {
    && Extends(tr, tr', party)
    && EndsIn(tr', Pages.Written(tr.end.t, job.address, Pages.PagesWritten(ledger, job.requestedHours, replies, n)),
              tr.end.now, party.w, stage)
  }

  lemma StartPages(tr: Trace, party: Party, job: ClaimedJob, ledger: seq<Signature>, replies: nat -> PageReply)
    requires tr.Valid() && tr.end.Of(party.w) == Paging(job)
    ensures Paged(tr, tr, party, job, ledger, replies, 0, Paging(job))
  {
    Pages.NoPages(tr.end.t, job.address, ledger, job.requestedHours, replies);
  }

  /** After n - 1 pages, the next. */
  lemma FollowNextPage(tr: Trace, before: Trace, party: Party, job: ClaimedJob, ledger: seq<Signature>,
                       replies: nat -> PageReply, n: nat, last: bool) returns (tr': Trace)
    requires n > 0 && replies(n - 1).Answered? && Paged(tr, before, party, job, ledger, replies, n - 1, Paging(job))
    ensures Paged(tr, tr', party, job, ledger, replies, n, if last then Leasing(job) else Paging(job))
  {
    PageConcat(tr.end.t, job, ledger, replies, n);
    tr' := FollowPage(before, party, job, Pages.PageOf(ledger, n - 1), replies(n - 1).now, last);
    ExtendsTransitive(tr, before, tr', party);
  }

  lemma {:induction false} FollowPages(tr: Trace, party: Party, job: ClaimedJob, ledger: seq<Signature>,
                                       replies: nat -> PageReply, n: nat) returns (tr': Trace)
    requires tr.Valid() && tr.end.Of(party.w) == Paging(job) && Pages.AllAnswered(replies, n)
    ensures Paged(tr, tr', party, job, ledger, replies, n, Paging(job))
  {
    if n == 0 {
      StartPages(tr, party, job, ledger, replies);
      return tr;
    }
    Pages.FewerAnswered(replies, n);
    var before := FollowPages(tr, party, job, ledger, replies, n - 1);
    tr' := FollowNextPage(tr, before, party, job, ledger, replies, n, false);
  }

  /** The whole paging loop over n pages: on to the leases, or out of the pipeline when the next page failed. */
  lemma FollowPaging(tr: Trace, party: Party, job: ClaimedJob, ledger: seq<Signature>, replies: nat -> PageReply,
                     n: nat, ok: bool)
    returns (tr': Trace)
    requires tr.Valid() && tr.end.Of(party.w) == Paging(job) && Pages.AllAnswered(replies, n)
    requires ok ==> n > 0
    ensures Paged(tr, tr', party, job, ledger, replies, n, if ok then Leasing(job) else Finishing(job, false))
  {
    if ok {
      Pages.FewerAnswered(replies, n);
    }
    var before := FollowPages(tr, party, job, ledger, replies, if ok then n - 1 else n);
    if ok {
      tr' := FollowNextPage(tr, before, party, job, ledger, replies, n, true);
    } else {
      tr' := FollowGiveUp(before, party);
      ExtendsTransitive(tr, before, tr', party);
    }
  }

  /** Something failed inside the pipeline, which returns Err. */
  lemma FollowGiveUp(tr: Trace, party: Party) returns (tr': Trace)
    requires tr.Valid() && tr.end.Of(party.w).InPipeline()
    ensures Extends(tr, tr', party)
    ensures EndsIn(tr', tr.end.t, tr.end.now, party.w, Finishing(tr.end.Of(party.w).job, false))
    ensures tr'.Batches() == tr.Batches()
  {
    tr' := Follow(tr, GiveUp(party.w), party);
  }

  // ---------- One turn of the batch loop ----------

  function Leased(t: Tables, owner: Address, batch: seq<Sig>, now: int): Tables {
    t.(signatures := LeaseRows(t.signatures, owner, batch, now))
  }

  function Marked(t: Tables, owner: Address, processed: seq<Sig>): Tables {
    t.(signatures := MarkRows(t.signatures, owner, processed))
  }

  /** Nothing could be leased: the pipeline returns Ok. */
  lemma FollowEmptyLease(tr: Trace, party: Party, job: ClaimedJob, now: int) returns (tr': Trace)
    requires tr.Valid() && tr.end.Of(party.w) == Leasing(job) && tr.end.now <= now
    requires IsBatch(tr.end.t.signatures, job.address, now, BATCH_LIMIT, [])
    ensures Extends(tr, tr', party) && EndsIn(tr', tr.end.t, now, party.w, Finishing(job, true))
    ensures tr'.Batches() == tr.Batches()
  {
    var ticked := FollowClock(tr, party, now);
    tr' := Follow(ticked, TakeBatch(party.w, []), party);
    ExtendsTransitive(tr, ticked, tr', party);
  }

  lemma FollowLease(tr: Trace, party: Party, job: ClaimedJob, now: int, batch: seq<Sig>) returns (tr': Trace)
    requires tr.Valid() && tr.end.Of(party.w) == Leasing(job) && tr.end.now <= now
    requires batch != [] && IsBatch(tr.end.t.signatures, job.address, now, BATCH_LIMIT, batch)
    ensures Extends(tr, tr', party)
    ensures EndsIn(tr', Leased(tr.end.t, job.address, batch, now), now, party.w, Fetching(job, batch, now))
    ensures tr'.Batches() == tr.Batches() + 1
  {
    var ticked := FollowClock(tr, party, now);
    tr' := Follow(ticked, TakeBatch(party.w, batch), party);
    ExtendsTransitive(tr, ticked, tr', party);
  }

  lemma FollowReceive(tr: Trace, party: Party, job: ClaimedJob, batch: seq<Sig>, at: int, f: Fetch) returns (tr': Trace)
    requires tr.Valid() && tr.end.Of(party.w) == Fetching(job, batch, at)
    requires IsFetch(batch, f) && Received(f, party)
    ensures Extends(tr, tr', party) && EndsIn(tr', tr.end.t, tr.end.now, party.w, Saving(job, batch, at, f))
    ensures tr'.Batches() == tr.Batches()
  {
    tr' := Follow(tr, Receive(party.w, f), party);
  }

  lemma FollowSave(tr: Trace, party: Party, job: ClaimedJob, batch: seq<Sig>, at: int, f: Fetch)
    returns (first: Trace, both: Trace)
    requires tr.Valid() && tr.end.Of(party.w) == Saving(job, batch, at, f)
    ensures Extends(tr, first, party) && Extends(tr, both, party)
    ensures EndsIn(first, SavedFirst(tr.end.t, job.address, f.payload), tr.end.now, party.w,
            SavingTransfers(job, batch, at, f))
    ensures EndsIn(both, SavedBoth(tr.end.t, job.address, f.payload), tr.end.now, party.w, Marking(job, batch, at, f))
    ensures first.Batches() == both.Batches() == tr.Batches()
  {
    first := Follow(tr, SaveTransactions(party.w), party);
    both := Follow(first, SaveTransfers(party.w), party);
    ExtendsTransitive(tr, first, both, party);
  }

  lemma FollowMark(tr: Trace, party: Party, job: ClaimedJob, batch: seq<Sig>, at: int, f: Fetch) returns (tr': Trace)
    requires tr.Valid() && tr.end.Of(party.w) == Marking(job, batch, at, f)
    ensures Extends(tr, tr', party)
    ensures EndsIn(tr', Marked(tr.end.t, job.address, f.processed), tr.end.now, party.w,
                   if f.failed then Finishing(job, false) else Leasing(job))
    ensures tr'.Batches() == tr.Batches()
  {
    tr' := Follow(tr, MarkProcessed(party.w), party);
  }

  /** The tables once `done` of the three statements after the lease have taken effect. */
  function Progress(t: Tables, owner: Address, f: Fetch, done: nat): Tables {
    if done == 0 then t
    else if done == 1 then SavedFirst(t, owner, f.payload)
    else if done == 2 then SavedBoth(t, owner, f.payload)
    else Marked(SavedBoth(t, owner, f.payload), owner, f.processed)
  }

  /** Fetch, and then as many statements as succeed; anything less than all three makes the pipeline fail. */
  lemma FollowStore(tr: Trace, party: Party, job: ClaimedJob, batch: seq<Sig>, at: int, f: Fetch, done: nat)
    returns (tr': Trace)
    requires tr.Valid() && tr.end.Of(party.w) == Fetching(job, batch, at) && done <= 3
    requires IsFetch(batch, f) && Received(f, party)
    ensures Extends(tr, tr', party)
    ensures EndsIn(tr', Progress(tr.end.t, job.address, f, done), tr.end.now, party.w,
                   if done == 3 && !f.failed then Leasing(job) else Finishing(job, false))
    ensures tr'.Batches() == tr.Batches()
  {
    var received := FollowReceive(tr, party, job, batch, at, f);
    var first, both := FollowSave(received, party, job, batch, at, f);
    if done < 3 {
      var reached := if done == 0 then received else if done == 1 then first else both;
      tr' := FollowGiveUp(reached, party);
      ExtendsTransitive(received, reached, tr', party);
    } else {
      tr' := FollowMark(both, party, job, batch, at, f);
      ExtendsTransitive(received, both, tr', party);
    }
    ExtendsTransitive(tr, received, tr', party);
  }

  // ---------- Claim and status ----------

  lemma FollowClaim(tr: Trace, party: Party, id: JobId, now: int) returns (tr': Trace)
    requires tr.Valid() && tr.end.Of(party.w) == Idle && tr.end.now <= now
    requires (forall v :: !tr.end.Of(v).Selected?) && IsNextJob(tr.end.t, {}, id)
    ensures Extends(tr, tr', party)
    ensures EndsIn(tr', ClaimJob(tr.end.t, id, party.w, now), now, party.w, Paging(Claimed(tr.end.t, id)))
  {
    var ticked := FollowClock(tr, party, now);
    var s := ticked.end;
    assert forall v :: v in s.workers ==> s.workers[v] == tr.end.Of(v);
    assert Locked(s) == {};
    tr' := Follow(ticked, Claim(party.w, id), party);
    ExtendsTransitive(tr, ticked, tr', party);
  }

  /** A new job is nobody's step. */
  lemma FollowCreate(tr: Trace, party: Party, address: Address, txLimit: i16, requestedHours: i16, now: int)
    returns (tr': Trace)
    requires tr.Valid() && tr.end.Of(party.w) == Idle && tr.end.now <= now
    ensures Extends(tr, tr', party) && forall v :: tr'.end.Of(v) == tr.end.Of(v)
    ensures EndsIn(tr', CreateJob(tr.end.t, address, txLimit, requestedHours, now), now, party.w, Idle)
  {
    var ticked := FollowClock(tr, party, now);
    tr' := Follow(ticked, Create(address, txLimit, requestedHours), party);
    ExtendsTransitive(tr, ticked, tr', party);
  }

  lemma FollowReady(tr: Trace, party: Party, job: ClaimedJob, now: int) returns (tr': Trace)
    requires tr.Valid() && tr.end.Of(party.w) == Finishing(job, true) && tr.end.now <= now
    requires Recorded(tr.end, Finishing(job, true))
    ensures Extends(tr, tr', party)
    ensures EndsIn(tr', UpdateStatus(tr.end.t, job.jobId, Ready, now), now, party.w,
                   if CanUpdate(tr.end.t, job.jobId, Ready) then Idle else Blocked(job))
    ensures tr'.end.returned == tr.end.returned
  {
    var ticked := FollowClock(tr, party, now);
    tr' := Follow(ticked, UpdateReady(party.w), party);
    ExtendsTransitive(tr, ticked, tr', party);
  }

  lemma FollowError(tr: Trace, party: Party, job: ClaimedJob, now: int) returns (tr': Trace)
    requires tr.Valid() && tr.end.now <= now
    requires tr.end.Of(party.w) == Finishing(job, false) || tr.end.Of(party.w) == Blocked(job)
    ensures Extends(tr, tr', party)
    ensures EndsIn(tr', UpdateStatus(tr.end.t, job.jobId, Status.Failed, now), now, party.w, Idle)
    ensures tr'.end.returned == tr.end.returned
  {
    var ticked := FollowClock(tr, party, now);
    tr' := Follow(ticked, UpdateError(party.w), party);
    ExtendsTransitive(tr, ticked, tr', party);
  }

  /** The worker leaves a job whose status statement failed: for the tables, a crash. */
  lemma FollowLeave(tr: Trace, party: Party) returns (tr': Trace)
    requires tr.Valid()
    ensures Extends(tr, tr', party) && EndsIn(tr', tr.end.t, tr.end.now, party.w, Idle)
    ensures tr'.end.returned == tr.end.returned
  {
    tr' := Follow(tr, Crash(party.w), party);
  }

  // ---------- Fixed answers ----------

  /** Whatever is received for a signature is its fixed answer. */
  ghost predicate FixedAnswers(party: Party, answer: Convergence.Answer) {
    forall n, s :: FetchOf(party, n, s).Fetched? ==> FetchOf(party, n, s).info == answer(s)
  }

  lemma FixedTrace(tr: Trace, tr': Trace, party: Party, answer: Convergence.Answer)
    requires Extends(tr, tr', party) && FixedAnswers(party, answer) && Convergence.AnswersFixed(tr.steps, answer)
    ensures Convergence.AnswersFixed(tr'.steps, answer)
  {
    forall i | 0 <= i < |tr'.steps|
      ensures Convergence.FixedAnswer(tr'.steps[i], answer)
    {
      if i < |tr.steps| {
        assert tr'.steps[i] == tr.steps[i];
      } else if tr'.steps[i].Receive? {
        OwnReceive(tr'.steps[i].fetch, party, answer);
      }
    }
  }

  lemma OwnReceive(f: Fetch, party: Party, answer: Convergence.Answer)
    requires Received(f, party) && FixedAnswers(party, answer)
    ensures Convergence.FromAnswer(f, answer)
  {
    forall i | 0 <= i < |f.payload|
      ensures f.payload[i].info == answer(f.processed[i])
    {
      assert CameFor(party, f.processed[i], f.payload[i].info);
      var n :| FetchOf(party, n, f.processed[i]) == Fetching.Fetched(f.processed[i], f.payload[i].info);
      assert FetchOf(party, n, f.processed[i]).Fetched?;
    }
  }
}
