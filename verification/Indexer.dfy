/** src/indexer.rs: the batch loop, the final status decision, and one whole job. */
module Indexer {
  import opened Wrappers
  import opened TransactionTypes
  import opened Transfers
  import opened Pagination
  import opened Tables
  import opened Database
  import opened Fetching
  import opened Tracing
  import Paging
  import P = Protocol
  import Convergence
  import Coverage
  import JobSafety
  import StorageSafety
  import Reports

  const BATCH_LIMIT := P.BATCH_LIMIT

  function BatchReplies(net: Net, batch: nat, signatures: seq<Sig>): seq<Replies> {
    seq(|signatures|, i requires 0 <= i < |signatures| => net(batch, signatures[i]))
  }

  ghost predicate NeverFails(db: Database) {
    forall n :: !db.fails(n)
  }

  /** Every fetch ends in a transaction. */
  ghost predicate AllFetched(net: Net, maxRetries: nat) {
    forall n, s :: FetchSpec(s, net(n, s), maxRetries).Fetched?
  }

  /** Every transaction received for a signature names that signature first. */
  ghost predicate NamesRequested(party: Party) {
    forall n, s :: FetchOf(party, n, s).Fetched? ==> RowSignature(FetchOf(party, n, s).info) == s
  }

  // ---------- Rows across one turn of the loop ----------

  /** Leasing and then marking a whole batch takes exactly its rows off the unprocessed ones. */
  lemma BatchDone(rows: map<Key, SigRow>, owner: Address, now: int, batch: seq<Sig>)
    requires IsBatch(rows, owner, now, BATCH_LIMIT, batch)
    ensures var rows' := MarkRows(LeaseRows(rows, owner, batch, now), owner, batch);
            && Unprocessed(rows', owner) == Unprocessed(rows, owner) - Keys(owner, batch)
            && |Unprocessed(rows', owner)| == |Unprocessed(rows, owner)| - |batch|
  {
    var rows' := MarkRows(LeaseRows(rows, owner, batch, now), owner, batch);
    assert forall s :: s in batch ==> Key(owner, s) in Unprocessed(rows, owner);
    forall k
      ensures k in Unprocessed(rows', owner) <==> k in Unprocessed(rows, owner) - Keys(owner, batch)
    {
      assert k.owner == owner ==> k == Key(owner, k.signature);
    }
    KeysCount(owner, batch);
    assert Keys(owner, batch) <= Unprocessed(rows, owner);
  }

  /** Every unprocessed row of the owner can be leased. */
  ghost predicate AllClaimable(rows: map<Key, SigRow>, owner: Address, now: int) {
    forall k :: k in rows && k.owner == owner && !rows[k].isProcessed ==> ClaimableRow(rows[k], now)
  }

  // ---------- The fetched batch ----------

  lemma {:induction false} NoErrorsMeansAll(outcomes: seq<Outcome>)
    requires Partition(outcomes).errors == []
    ensures |Partition(outcomes).processed| == |outcomes|
    ensures forall i :: 0 <= i < |outcomes| ==>
              outcomes[i].Fetched? && Partition(outcomes).processed[i] == outcomes[i].signature
  {
    if outcomes != [] {
      NoErrorsMeansAll(outcomes[..|outcomes| - 1]);
    }
  }

  lemma {:induction false} AllFetchedMeansNoErrors(outcomes: seq<Outcome>)
    requires forall i :: 0 <= i < |outcomes| ==> outcomes[i].Fetched?
    ensures Partition(outcomes).errors == []
  {
    if outcomes != [] {
      AllFetchedMeansNoErrors(outcomes[..|outcomes| - 1]);
    }
  }

  /** Without errors the whole batch is processed; with all fetches successful there are no errors. */
  lemma BatchOutcome(net: Net, n: nat, batch: seq<Sig>, maxRetries: nat)
    ensures var v := Partition(Outcomes(batch, BatchReplies(net, n, batch), maxRetries));
            && (v.errors == [] ==> v.processed == batch)
            && (AllFetched(net, maxRetries) ==> v.errors == [])
            && (forall s :: s in v.processed ==> s in batch)
  {
    var replies := BatchReplies(net, n, batch);
    var outcomes := Outcomes(batch, replies, maxRetries);
    var v := Partition(outcomes);
    var ok, bad := PartitionIsComplementary(batch, replies, maxRetries);
    if v.errors == [] {
      NoErrorsMeansAll(outcomes);
      forall i | 0 <= i < |batch|
        ensures v.processed[i] == batch[i]
      {
        OutcomeNamesSignature(batch[i], replies[i], maxRetries);
      }
      assert v.processed == batch;
    }
    if AllFetched(net, maxRetries) {
      forall i | 0 <= i < |outcomes|
        ensures outcomes[i].Fetched?
      {
        assert FetchSpec(batch[i], net(n, batch[i]), maxRetries).Fetched?;
      }
      AllFetchedMeansNoErrors(outcomes);
    }
  }

  function Yield(party: Party, n: nat, batch: seq<Sig>): BatchView {
    Partition(Outcomes(batch, BatchReplies(party.net, n, batch), party.maxRetries))
  }

  /** The fetch of the protocol that a batch yields. */
  function FetchOfBatch(v: BatchView): P.Fetch {
    P.Fetch(v.processed, seq(|v.infos|,
        i requires 0 <= i < |v.infos| => Saved(v.infos[i], TransfersOf(v.infos[i]))), v.errors != [])
  }

  lemma BatchReceived(party: Party, n: nat, batch: seq<Sig>)
    requires NamesRequested(party)
    ensures var v := Yield(party, n, batch);
            && Received(FetchOfBatch(v), party)
            && forall i :: 0 <= i < |v.infos| ==> RowSignature(v.infos[i]) == v.processed[i]
  {
    var v := Yield(party, n, batch);
    var replies := BatchReplies(party.net, n, batch);
    var ok, bad := PartitionIsComplementary(batch, replies, party.maxRetries);
    forall i | 0 <= i < |v.infos|
      ensures CameFor(party, v.processed[i], v.infos[i]) && RowSignature(v.infos[i]) == v.processed[i]
    {
      assert replies[ok[i]] == party.net(n, batch[ok[i]]);
      assert FetchOf(party, n, v.processed[i]) == Fetched(v.processed[i], v.infos[i]);
    }
  }

  lemma BatchSplits(party: Party, n: nat, batch: seq<Sig>)
    requires NoRepeats(batch)
    ensures var v := Yield(party, n, batch);
            && |v.processed| == |v.infos| && NoRepeats(v.processed)
            && (forall s :: s in v.processed ==> s in batch)
            && (v.errors != [] <==> exists s :: s in batch && s !in v.processed)
  {
    var v := Yield(party, n, batch);
    var ok, bad := PartitionIsComplementary(batch, BatchReplies(party.net, n, batch), party.maxRetries);
    BatchOutcome(party.net, n, batch, party.maxRetries);
    forall i, j | 0 <= i < j < |v.processed|
      ensures v.processed[i] != v.processed[j]
    {
      assert ok[i] < ok[j];
    }
    if v.errors != [] {
      assert bad[0] in bad;
      FailedIsMissing(batch, v.processed, ok, bad[0]);
    }
  }

  /** What a batch yields is a fetch the protocol allows. */
  lemma BatchIsFetch(party: Party, n: nat, batch: seq<Sig>)
    requires NamesRequested(party) && NoRepeats(batch)
    ensures var f := FetchOfBatch(Yield(party, n, batch));
            && P.IsFetch(batch, f) && Received(f, party)
            && (f.failed ==> !AllFetched(party.net, party.maxRetries)) && (!f.failed ==> f.processed == batch)
  {
    BatchReceived(party, n, batch);
    BatchSplits(party, n, batch);
    BatchOutcome(party.net, n, batch, party.maxRetries);
  }

  lemma FailedIsMissing(batch: seq<Sig>, processed: seq<Sig>, ok: seq<nat>, failed: nat)
    requires NoRepeats(batch) && failed < |batch| && failed !in ok && |processed| == |ok|
    requires forall k :: 0 <= k < |ok| ==> ok[k] < |batch| && processed[k] == batch[ok[k]]
    ensures batch[failed] in batch && batch[failed] !in processed
  {
    forall k | 0 <= k < |processed|
      ensures processed[k] != batch[failed]
    {
      assert ok[k] in ok;
    }
  }

  // ---------- The batch loop ----------

  /** Something the pipeline depends on went wrong: a statement failed, or a fetch did. */
  ghost predicate Trouble(db: Database, net: Net, maxRetries: nat) {
    !NeverFails(db) || !AllFetched(net, maxRetries)
  }

  /** One turn of the loop; returns the size of the batch it leased. */
  method ProcessBatch(db: Database, api: HeliusApi, address: Address, net: Net, n: nat,
                      ghost job: ClaimedJob, ghost tr: Trace, ghost party: Party)
    returns (r: Result<nat, string>, ghost tr': Trace)
    requires db.Valid() && party == Party(party.w, net, api.maxRateLimitRetries) && NamesRequested(party)
    requires job.address == address && Tracks(db, tr, party.w, P.Leasing(job))
    modifies db, api
    ensures db.Valid() && old(db.statements) < db.statements
    ensures db.jobs == old(db.jobs) && db.nextId == old(db.nextId)
    ensures r.Err? ==> Trouble(db, net, api.maxRateLimitRetries)
    ensures r.Ok? && r.value == 0 ==>
              && db.signatures == old(db.signatures)
              && Claimable(db.signatures, address, old(db.Now())) == {}
              && db.statements == old(db.statements) + 1
    ensures r.Ok? && r.value > 0 ==>
              exists batch ::
                && IsBatch(old(db.signatures), address, old(db.Now()), BATCH_LIMIT, batch) && |batch| == r.value
                && db.signatures == MarkRows(LeaseRows(old(db.signatures), address, batch, old(db.Now())), address,
                    batch)
    ensures Extends(tr, tr', party) && Tracks(db, tr', party.w, StageAfter(job, r))
    ensures r.Ok? ==> tr'.Batches() == tr.Batches() + if r.value > 0 then 1 else 0
  {
    ghost var t0, now := db.All(), db.Now();
    var signatures := db.GetUnprocessedSignatures(address, BATCH_LIMIT);
    if signatures.Err? {
      tr' := FollowGiveUp(tr, party);
      return Err(signatures.error), tr';
    }
    var batch := signatures.value;
    if batch == [] {
      EmptyLease(t0, address, now);
      tr' := FollowEmptyLease(tr, party, job, now);
      return Ok(0), tr';
    }
    ghost var leased := FollowLease(tr, party, job, now, batch);
    var stored;
    stored, tr' := FetchAndStore(db, api, address, net, n, batch, job, now, leased, party);
    ExtendsTransitive(tr, leased, tr', party);
    if stored.Err? {
      return Err(stored.error), tr';
    }
    return Ok(|batch|), tr';
  }

  /** The rest of a turn, once the batch is leased. */
  method FetchAndStore(db: Database, api: HeliusApi, address: Address, net: Net, n: nat, batch: seq<Sig>,
                       ghost job: ClaimedJob, ghost at: int, ghost tr: Trace, ghost party: Party)
    returns (r: Result<(), string>, ghost tr': Trace)
    requires db.Valid() && party == Party(party.w, net, api.maxRateLimitRetries) && NamesRequested(party)
    requires NoRepeats(batch) && job.address == address && Tracks(db, tr, party.w, P.Stage.Fetching(job, batch, at))
    modifies db, api
    ensures db.Valid() && old(db.statements) <= db.statements
    ensures db.jobs == old(db.jobs) && db.nextId == old(db.nextId)
    ensures r.Err? ==> Trouble(db, net, api.maxRateLimitRetries)
    ensures r.Ok? ==> db.signatures == MarkRows(old(db.signatures), address, batch)
    ensures Extends(tr, tr', party)
    ensures Tracks(db, tr', party.w, if r.Ok? then P.Leasing(job) else P.Finishing(job, false))
    ensures tr'.Batches() == tr.Batches()
  {
    var fetched := FetchBatch(api, net, n, batch, party);
    ghost var f := FetchOfBatch(View(fetched));
    var stored;
    ghost var done;
    stored, done := StoreBatch(db, address, fetched);
    tr' := FollowStore(tr, party, job, batch, at, f, done);
    if stored.Err? {
      return stored, tr';
    }
    if fetched.errors != [] {
      assert f.failed;
      return Err("transaction request(s) failed"), tr';
    }
    return Ok(()), tr';
  }

  /** The fetch of a turn, as the protocol sees it. */
  method FetchBatch(api: HeliusApi, net: Net, n: nat, batch: seq<Sig>, ghost party: Party)
    returns (fetched: TransactionBatch)
    requires party == Party(party.w, net, api.maxRateLimitRetries) && NamesRequested(party) && NoRepeats(batch)
    modifies api
    ensures AllCalculated(fetched.transactions)
    ensures var f := FetchOfBatch(View(fetched));
            && P.IsFetch(batch, f) && Received(f, party)
            && (f.failed ==> !AllFetched(net, api.maxRateLimitRetries)) && (!f.failed ==> f.processed == batch)
  {
    fetched := api.GetTransaction(batch, BatchReplies(net, n, batch));
    BatchIsFetch(party, n, batch);
    assert View(fetched) == Yield(party, n, batch);
  }

  /** Save, then mark; `done` counts the statements among the three that took effect. */
  method StoreBatch(db: Database, address: Address, fetched: TransactionBatch)
    returns (r: Result<(), string>, ghost done: nat)
    requires db.Valid() && AllCalculated(fetched.transactions)
    modifies db
    ensures db.Valid() && old(db.statements) <= db.statements
    ensures done <= 3 && db.All() == Progress(old(db.All()), address, FetchOfBatch(View(fetched)), done)
    ensures r.Ok? <==> done == 3
    ensures r.Err? ==> !NeverFails(db)
  {
    ghost var t0, payload := db.All(), Values(fetched.transactions);
    PayloadIsView(fetched);
    ghost var f := FetchOfBatch(View(fetched));
    assert payload == f.payload && f.processed == fetched.processedSignatures;
    var saved := db.SaveTransactionData(fetched.transactions, address);
    if saved.Err? {
      return Err(saved.error), if db.All() == t0 then 0 else 1;
    }
    assert db.All() == SavedBoth(t0, address, f.payload);
    var marked := db.MarkSignaturesProcessed(address, fetched.processedSignatures);
    if marked.Err? {
      return Err(marked.error), 2;
    }
    return Ok(()), 3;
  }

  /** Where a turn leaves the worker. */
  function StageAfter(job: ClaimedJob, r: Result<nat, string>): P.Stage {
    if r.Err? then P.Finishing(job, false)
    else if r.value == 0 then P.Finishing(job, true)
    else P.Leasing(job)
  }

  lemma EmptyLease(t: Tables, owner: Address, now: int)
    requires IsBatch(t.signatures, owner, now, BATCH_LIMIT, [])
    ensures Leased(t, owner, [], now) == t && Claimable(t.signatures, owner, now) == {}
  {
    assert LeaseRows(t.signatures, owner, [], now) == t.signatures;
  }

  lemma PayloadIsView(batch: TransactionBatch)
    requires AllCalculated(batch.transactions)
    ensures |Values(batch.transactions)| == |View(batch).infos|
    ensures forall i :: 0 <= i < |Values(batch.transactions)| ==>
              Values(batch.transactions)[i] == Saved(View(batch).infos[i], TransfersOf(View(batch).infos[i]))
  {
    forall i | 0 <= i < |batch.transactions|
      ensures batch.transactions[i].tokenTransferChanges == TransfersOf(batch.transactions[i].result)
    {
      assert batch.transactions[i] in batch.transactions;
    }
  }

  lemma TurnCounts(rows: map<Key, SigRow>, owner: Address, now: int, later: int, batch: seq<Sig>)
    requires IsBatch(rows, owner, now, BATCH_LIMIT, batch) && now <= later
    ensures var rows' := MarkRows(LeaseRows(rows, owner, batch, now), owner, batch);
            && |Unprocessed(rows', owner)| == |Unprocessed(rows, owner)| - |batch|
            && (AllClaimable(rows, owner, now) ==>
                  && AllClaimable(rows', owner, later)
                  && |batch| == if |Unprocessed(rows, owner)| < BATCH_LIMIT then |Unprocessed(rows, owner)|
                      else BATCH_LIMIT)
  {
    BatchDone(rows, owner, now, batch);
    if AllClaimable(rows, owner, now) {
      assert Claimable(rows, owner, now) == Unprocessed(rows, owner);
      forall k | k in rows && k.owner == owner && !rows[k].isProcessed && k.signature !in batch
        ensures ClaimableRow(rows[k], later)
      {
      }
    }
  }

  /** How many non-empty batches n claimable rows take. */
  function BatchCount(n: nat): nat {
    (n + BATCH_LIMIT - 1) / BATCH_LIMIT
  }

  /** With `n` rows at the start, all claimable, this is what `batches` full turns leave. */
  ghost predicate OnSchedule(rows: map<Key, SigRow>, owner: Address, now: int, n: nat, batches: nat) {
    && AllClaimable(rows, owner, now)
    && batches * BATCH_LIMIT < n + BATCH_LIMIT
    && |Unprocessed(rows, owner)| == if batches * BATCH_LIMIT < n then n - batches * BATCH_LIMIT else 0
  }

  lemma TurnOnSchedule(rows: map<Key, SigRow>, owner: Address, now: int, later: int, batch: seq<Sig>, n: nat,
                       batches: nat)
    requires OnSchedule(rows, owner, now, n, batches)
    requires IsBatch(rows, owner, now, BATCH_LIMIT, batch) && batch != [] && now <= later
    ensures OnSchedule(MarkRows(LeaseRows(rows, owner, batch, now), owner, batch), owner, later, n, batches + 1)
  {
    TurnCounts(rows, owner, now, later, batch);
  }

  lemma EndOnSchedule(rows: map<Key, SigRow>, owner: Address, now: int, n: nat, batches: nat)
    requires OnSchedule(rows, owner, now, n, batches) && Claimable(rows, owner, now) == {}
    ensures batches == BatchCount(n) && batches * 100 - 100 < n <= batches * 100
    ensures Unprocessed(rows, owner) == {}
  {
    assert Unprocessed(rows, owner) == Claimable(rows, owner, now);
  }

  /**
   * Runs until nothing can be leased. It always terminates: every turn that does not return takes a
   * non-empty batch off the unprocessed rows.
   */
  method ProcessUnprocessedSignatures(db: Database, api: HeliusApi, address: Address, net: Net,
                                      ghost job: ClaimedJob, ghost tr: Trace, ghost party: Party)
    returns (r: Result<(), string>, batches: nat, ghost tr': Trace)
    requires db.Valid() && party == Party(party.w, net, api.maxRateLimitRetries) && NamesRequested(party)
    requires job.address == address && Tracks(db, tr, party.w, P.Leasing(job))
    modifies db, api
    ensures db.Valid() && old(db.statements) < db.statements
    ensures db.jobs == old(db.jobs) && db.nextId == old(db.nextId)
    ensures r.Err? ==> Trouble(db, net, api.maxRateLimitRetries)
    // Whatever an Ok result leaves unprocessed was under a live lease at its last statement.
    ensures r.Ok? ==> Claimable(db.signatures, address, db.clock(db.statements - 1)) == {}
    // Sole ownership of n claimable rows: ceil(n / 100) batches, and nothing left.
    ensures r.Ok? && AllClaimable(old(db.signatures), address, old(db.Now())) ==>
              && batches == BatchCount(|Unprocessed(old(db.signatures), address)|)
              && batches * 100 - 100 < |Unprocessed(old(db.signatures), address)| <= batches * 100
              && Unprocessed(db.signatures, address) == {}
    // Which run of the protocol it was, and that the batches counted are those it leased.
    ensures Extends(tr, tr', party) && Tracks(db, tr', party.w, P.Finishing(job, r.Ok?))
    ensures r.Ok? ==> tr'.Batches() == tr.Batches() + batches
  {
    batches, tr' := 0, tr;
    ghost var sole, n := AllClaimable(db.signatures, address, db.Now()), |Unprocessed(db.signatures, address)|;
    while true
      invariant db.Valid() && old(db.statements) <= db.statements
      invariant db.jobs == old(db.jobs) && db.nextId == old(db.nextId)
      invariant sole ==> OnSchedule(db.signatures, address, db.Now(), n, batches)
      invariant Extends(tr, tr', party) && Tracks(db, tr', party.w, P.Leasing(job))
      invariant tr'.Batches() == tr.Batches() + batches
      decreases |Unprocessed(db.signatures, address)|
    {
      ghost var rows, now, reached := db.signatures, db.Now(), tr';
      var size;
      size, tr' := ProcessBatch(db, api, address, net, batches, job, reached, party);
      ExtendsTransitive(tr, reached, tr', party);
      if size.Err? {
        return Err(size.error), batches, tr';
      }
      if size.value == 0 {
        if sole {
          EndOnSchedule(rows, address, now, n, batches);
        }
        return Ok(()), batches, tr';
      }
      ghost var batch :| IsBatch(rows, address, now, BATCH_LIMIT, batch) && |batch| == size.value
                         && db.signatures == MarkRows(LeaseRows(rows, address, batch, now), address, batch);
      TurnCounts(rows, address, now, db.Now(), batch);
      if sole {
        TurnOnSchedule(rows, address, now, db.Now(), batch, n, batches);
      }
      batches := batches + 1;
    }
  }

  // ---------- One job ----------

  /** The remote side: the history of every address, the fate of each page request, and the transactions. */
  datatype World = World(ledger: Address -> seq<Signature>, pages: Address -> (nat -> PageReply), net: Net)

  lemma NewRowsClaimable(rows: map<Key, SigRow>, owner: Address, entries: seq<Signature>, now: int, later: int)
    requires AllClaimable(rows, owner, now) && now <= later
    ensures AllClaimable(InsertSignatures(rows, owner, entries), owner, later)
  {
    InsertedRows(rows, owner, entries);
  }

  /** What writing a part of the history does to the rows of its address. */
  lemma PagedRows(rows: map<Key, SigRow>, job: ClaimedJob, world: World, done: Paging.Summary, now: int, later: int)
    requires Distinct(world.ledger(job.address)) && now <= later
    requires Paging.TakenFrom(world.ledger(job.address), done.written, done.positions, done.visited)
    ensures var rows' := InsertSignatures(rows, job.address, done.written);
            && Coverage.HaveKeys(rows', job.address, done.written)
            && (Coverage.AgreesWith(rows, job.address, world.ledger(job.address)) ==>
                  Coverage.HaveRows(rows', job.address, done.written))
            && (AllClaimable(rows, job.address, now) ==> AllClaimable(rows', job.address, later))
  {
    Coverage.WritingAdds(rows, job.address, done.written);
    if Coverage.AgreesWith(rows, job.address, world.ledger(job.address)) {
      Coverage.TakenEntries(world.ledger(job.address), done.written, done.positions, done.visited);
      Coverage.WritingAgrees(rows, job.address, world.ledger(job.address), done.written);
    }
    if AllClaimable(rows, job.address, now) {
      NewRowsClaimable(rows, job.address, done.written, now, later);
    }
  }

  /** fetch_signatures, then process_unprocessed_signatures; the first error ends the pipeline. */
  method RunPipeline(db: Database, api: HeliusApi, job: ClaimedJob, world: World, ghost tr: Trace, ghost party: Party)
    returns (r: Result<(), string>, ghost tr': Trace, ghost done: Paging.Summary)
    requires db.Valid() && Distinct(world.ledger(job.address))
    requires party == Party(party.w, world.net, api.maxRateLimitRetries) && NamesRequested(party)
    requires Tracks(db, tr, party.w, P.Stage.Paging(job))
    modifies db, api
    ensures db.Valid() && old(db.statements) <= db.statements
    ensures db.jobs == old(db.jobs) && db.nextId == old(db.nextId)
    ensures r.Ok? && AllClaimable(old(db.signatures), job.address, old(db.Now())) ==>
              Unprocessed(db.signatures, job.address) == {}
    ensures r.Ok? ==> db.statements > 0 && Claimable(db.signatures, job.address, db.clock(db.statements - 1)) == {}
    ensures r.Err? ==>
              Trouble(db, world.net, api.maxRateLimitRetries) || exists n :: world.pages(job.address)(n).Refused?
    ensures Extends(tr, tr', party) && Tracks(db, tr', party.w, P.Finishing(job, r.Ok?))
    // What of the history has been written, and that it keeps its rows.
    ensures Coverage.HaveKeys(db.signatures, job.address, done.written)
    ensures r.Ok? ==> PagedWell(job, world, done) && WithinLimit(job, world, done)
    ensures Coverage.AgreesWith(old(db.signatures), job.address, world.ledger(job.address)) ==>
              Coverage.HaveRows(db.signatures, job.address, done.written)
  {
    ghost var now := db.Now();
    assert Paging.PageBudget(job.txLimit) == if job.txLimit >= 0 then job.txLimit else 1000;
    var fetched, sum;
    ghost var complete;
    fetched, sum, done, complete :=
      Paging.FetchSignatures(db, job.address, Paging.PageBudget(job.txLimit), job.requestedHours,
                             world.ledger(job.address), world.pages(job.address));
    tr' := FollowPaging(tr, party, job, world.ledger(job.address), world.pages(job.address), done.pages, fetched.Ok?);
    PagedRows(old(db.signatures), job, world, done, now, db.Now());
    if fetched.Err? {
      return Err(fetched.error), tr', done;
    }
    ghost var reached, paged := tr', db.All();
    var batches;
    r, batches, tr' := ProcessUnprocessedSignatures(db, api, job.address, world.net, job, reached, party);
    ExtendsTransitive(tr, reached, tr', party);
    Coverage.ExtensionKeepsRows(reached, tr', party);
    Coverage.KeptRows(paged, db.All(), job.address, done.written);
  }

  /** The paging answered at least one page, and missed nothing if it saw the end of the history or a cutoff. */
  ghost predicate PagedWell(job: ClaimedJob, world: World, done: Paging.Summary) {
    var ledger, pages := world.ledger(job.address), world.pages(job.address);
    && done.pages > 0 && pages(done.pages - 1).Answered?
    && (Paging.EndedAt(ledger, job.requestedHours, pages, done.pages) ==>
          Paging.Complete(ledger, job.requestedHours, pages, done))
  }

  /**
   * The job's own limit, where a negative one stands for 1000: the pages written are those of the job's history, and
   * they reach the limit unless the history ended first. Paging stops at the first page that reaches it.
   */
  ghost predicate WithinLimit(job: ClaimedJob, world: World, done: Paging.Summary) {
    var ledger, pages := world.ledger(job.address), world.pages(job.address);
    var limit := if job.txLimit >= 0 then job.txLimit else 1000;
    && Paging.OnTrack(ledger, job.requestedHours, pages, done)
    && (Paging.EndedAt(ledger, job.requestedHours, pages, done.pages) || |done.written| >= limit)
    && |done.written| < (if limit > 1 then limit else 1) + 1000
    && (done.pages > 1 ==>
          |Paging.PagesWritten(ledger, job.requestedHours, pages, done.pages - 1)| < limit)
  }

  /** The last page ended the history, on a sorted history and with a clock that advances. */
  ghost predicate SawItAll(job: ClaimedJob, world: World, done: Paging.Summary) {
    var ledger, pages := world.ledger(job.address), world.pages(job.address);
    Paging.EndedAt(ledger, job.requestedHours, pages, done.pages) && Paging.ClockAdvances(pages) && NewestFirst(ledger)
  }

  method MarkJobError(db: Database, job: ClaimedJob, ghost tr: Trace, ghost party: Party) returns (ghost tr': Trace)
    requires db.Valid()
    requires Tracks(db, tr, party.w, P.Finishing(job, false)) || Tracks(db, tr, party.w, P.Blocked(job))
    modifies db
    ensures db.Valid()
    ensures if db.fails(old(db.statements)) then db.All() == old(db.All())
            else db.All() == UpdateStatus(old(db.All()), job.jobId, Status.Failed, old(db.Now()))
    ensures Extends(tr, tr', party) && Tracks(db, tr', party.w, P.Idle) && tr'.end.returned == tr.end.returned
  {
    ghost var now := db.Now();
    var updated := db.UpdateProcessingStatusByJobId(job.jobId, Status.Failed);
    if updated.Ok? {
      tr' := FollowError(tr, party, job, now);
    } else {
      tr' := FollowLeave(tr, party);
    }
  }

  /** The job row has at most a new status and a new updated_at; all other job rows are as before. */
  ghost predicate OnlyStatus(jobs: map<JobId, Job>, jobs': map<JobId, Job>, id: JobId) {
    && id in jobs && id in jobs'
    && jobs' == jobs[id := jobs[id].(status := jobs'[id].status, updatedAt := jobs'[id].updatedAt)]
  }

  /**
   * A whole claimed job, run by the only worker on its address. `ok` tells how the pipeline returned.
   */
  method ProcessClaimedJob(db: Database, api: HeliusApi, job: ClaimedJob, world: World, ghost tr: Trace,
                           ghost party: Party)
    returns (ok: bool, ghost tr': Trace, ghost done: Paging.Summary)
    requires db.Valid() && Distinct(world.ledger(job.address))
    requires party == Party(party.w, world.net, api.maxRateLimitRetries) && NamesRequested(party)
    requires job.jobId in db.jobs && job == Claimed(db.All(), job.jobId) && db.jobs[job.jobId].status == Indexing
    requires Tracks(db, tr, party.w, P.Stage.Paging(job))
    modifies db, api
    ensures db.Valid() && OnlyStatus(old(db.jobs), db.jobs, job.jobId)
    // ready is only ever set through the open gate.
    ensures db.jobs[job.jobId].status == Ready ==> ok && GateOpen(db.All(), job.jobId)
    ensures db.jobs[job.jobId].status != Pending
    // With a working database the job is never left indexing, and the gate decides an Ok pipeline.
    ensures NeverFails(db) ==>
              db.jobs[job.jobId].status == if ok && GateOpen(db.All(), job.jobId) then Ready else Status.Failed
    // From a state without a live lease on the address, Ok means ready, with every row of the address processed.
    ensures NeverFails(db) && ok && AllClaimable(old(db.signatures), job.address, old(db.Now())) ==>
              db.jobs[job.jobId].status == Ready && Unprocessed(db.signatures, job.address) == {}
    ensures !ok ==> Trouble(db, world.net, api.maxRateLimitRetries) || exists n :: world.pages(job.address)(n).Refused?
    // The execution is a run of the protocol by this worker, and the run records how the pipeline returned.
    ensures Extends(tr, tr', party) && Tracks(db, tr', party.w, P.Idle)
    ensures job.jobId in tr'.end.returned && tr'.end.returned[job.jobId] == ok
    // After a complete paging, ready means done for the history itself, from the last cutoff to the job's creation.
    ensures Coverage.HaveKeys(db.signatures, job.address, done.written)
    ensures ok ==> PagedWell(job, world, done) && WithinLimit(job, world, done)
    ensures db.jobs[job.jobId].status == Ready && SawItAll(job, world, done)
            && Coverage.AgreesWith(old(db.signatures), job.address, world.ledger(job.address)) ==>
              Coverage.WindowDone(db.All(), job.jobId, world.ledger(job.address),
                                  Cutoff(job.requestedHours, world.pages(job.address)(done.pages - 1).now))
  {
    var result;
    result, tr', done := RunPipeline(db, api, job, world, tr, party);
    ok := result.Ok?;
    if Unprocessed(db.signatures, job.address) == {} {
      NoneLeftOpensGate(db.All(), job.jobId);
    }
    ghost var before, reached := db.All(), tr';
    tr' := Conclude(db, job, ok, reached, party);
    ExtendsTransitive(tr, reached, tr', party);
    SameGate(before, db.All(), job.jobId);
    if db.jobs[job.jobId].status == Ready && SawItAll(job, world, done)
       && Coverage.AgreesWith(old(db.signatures), job.address, world.ledger(job.address)) {
      Coverage.CoveredAndOpen(db.All(), job.jobId, world.ledger(job.address), done.written,
                              Cutoff(job.requestedHours, world.pages(job.address)(done.pages - 1).now));
    }
  }

  /**
   * Claim, process, report. Nothing was claimed exactly when the answer is None; otherwise the report is the
   * one of the claimed job, it says `ready` only when nothing remains, and without trouble exactly then.
   * Whatever fails on the way, the execution is a run of the protocol that ends in the tables it leaves.
   */
  method ProcessPendingJobOnce(db: Database, api: HeliusApi, worker: nat, world: World, ghost tr: Trace)
    returns (r: Result<Option<JobInfo>, string>, ghost tr': Trace)
    requires db.Valid() && forall a :: Distinct(world.ledger(a))
    requires NamesRequested(Party(worker, world.net, api.maxRateLimitRetries))
    requires Tracks(db, tr, worker, P.Idle) && forall v :: !tr.end.Of(v).Selected?
    modifies db, api
    ensures db.Valid()
    ensures r.Ok? && r.value.None? ==> db.All() == old(db.All()) && forall id :: !Eligible(old(db.All()), id)
    ensures r.Ok? && r.value.Some? ==>
              exists id :: Reported(db, old(db.All()), id, r.value.value, world, api.maxRateLimitRetries)
    ensures Extends(tr, tr', Party(worker, world.net, api.maxRateLimitRetries)) && Tracks(db, tr', worker, P.Idle)
  {
    ghost var party, now := Party(worker, world.net, api.maxRateLimitRetries), db.Now();
    tr' := tr;
    var claimed := db.ClaimPendingJob(worker);
    if claimed.Err? {
      return Err(claimed.error), tr';
    }
    if claimed.value.None? {
      return Ok(None), tr';
    }
    var job := claimed.value.value;
    ghost var start := FollowClaim(tr, party, job.jobId, now);
    var ok;
    ghost var done;
    ok, tr', done := ProcessClaimedJob(db, api, job, world, start, party);
    ExtendsTransitive(tr, start, tr', party);
    r := db.GetJobInfo(job.jobId);
    Reports.ReportAgreesWithGate(db.All(), job.jobId);
    if r.Ok? {
      assert Reported(db, old(db.All()), job.jobId, r.value.value, world, api.maxRateLimitRetries);
    }
  }

  /** What a report says about the job it was made for. */
  ghost predicate Reported(db: Database, before: Tables, id: JobId, info: JobInfo, world: World, maxRetries: nat)
    reads db
  {
    && IsNextJob(before, {}, id) && JobReport(db.All(), id) == Some(info)
    && info.status != Pending
    && (info.status == Ready ==> info.remaining == 0)
    && (NeverFails(db) ==> info.status in {Ready, Status.Failed})
    && (NeverFails(db) && AllFetched(world.net, maxRetries)
        && (forall n :: !world.pages(before.jobs[id].address)(n).Refused?) ==>
          (info.status == Ready <==> info.remaining == 0))
  }

  /** The status decision: ready if the gate allows it, error otherwise. */
  method Conclude(db: Database, job: ClaimedJob, ok: bool, ghost tr: Trace, ghost party: Party)
    returns (ghost tr': Trace)
    requires db.Valid() && job.jobId in db.jobs && db.jobs[job.jobId].status == Indexing
    requires Tracks(db, tr, party.w, P.Finishing(job, ok))
    modifies db
    ensures db.Valid() && OnlyStatus(old(db.jobs), db.jobs, job.jobId)
    ensures db.All() == old(db.All()).(jobs := db.jobs)
    ensures db.jobs[job.jobId].status in {Indexing, Ready, Status.Failed}
    ensures db.jobs[job.jobId].status == Ready ==> ok && GateOpen(old(db.All()), job.jobId)
    ensures NeverFails(db) ==>
              db.jobs[job.jobId].status == if ok && GateOpen(old(db.All()), job.jobId) then Ready else Status.Failed
    ensures Extends(tr, tr', party) && Tracks(db, tr', party.w, P.Idle)
    ensures job.jobId in tr'.end.returned && tr'.end.returned[job.jobId] == ok
  {
    if !ok {
      tr' := MarkJobError(db, job, tr, party);
      return;
    }
    ghost var now := db.Now();
    var updated := db.UpdateProcessingStatusByJobId(job.jobId, Ready);
    if updated.Err? {
      tr' := FollowLeave(tr, party);
      return;
    }
    ghost var reached := FollowReady(tr, party, job, now);
    tr' := reached;
    if updated.value == 0 {
      tr' := MarkJobError(db, job, reached, party);
      ExtendsTransitive(tr, reached, tr', party);
    }
  }

  /** The gate reads neither the status nor the time of the last update. */
  lemma SameGate(t: Tables, t': Tables, id: JobId)
    requires t' == t.(jobs := t'.jobs) && OnlyStatus(t.jobs, t'.jobs, id)
    ensures GateOpen(t', id) <==> GateOpen(t, id)
  {
    assert t'.jobs[id].address == t.jobs[id].address && t'.jobs[id].createdAt == t.jobs[id].createdAt
        && t'.jobs[id].requestedHours == t.jobs[id].requestedHours;
  }

  lemma NoneLeftOpensGate(t: Tables, id: JobId)
    requires id in t.jobs && Unprocessed(t.signatures, t.jobs[id].address) == {}
    ensures GateOpen(t, id)
  {
    forall k | k in t.signatures && k.owner == t.jobs[id].address
      ensures t.signatures[k].isProcessed
    {
      assert k !in Unprocessed(t.signatures, t.jobs[id].address);
    }
  }

  // ---------- What an execution inherits ----------

  /**
   * An address has one indexing job at most; stored data is part of the ideal tables, and equal to them once every
   * row is processed; each processed row has all of its data.
   */
  ghost predicate KeepsPromises(s: P.State, answer: Convergence.Answer) {
    && JobSafety.OneIndexing(s.t)
    && Convergence.PartOfIdeal(s.t, s.t.signatures.Keys, answer)
    && (Convergence.AllProcessed(s.t) ==>
          && s.t.transactions == Convergence.IdealTransactions(s.t.signatures.Keys, answer)
          && s.t.transfers == Convergence.IdealTransfers(s.t.signatures.Keys, answer))
    && (forall k :: k in s.t.signatures && s.t.signatures[k].isProcessed ==>
          k in s.marks && StorageSafety.Stored(s.t, k, s.marks[k].saved))
  }

  /**
   * Whatever ran before on these tables, from an empty database on: after an execution that extends that run,
   * the promises of the protocol hold of the tables the code leaves.
   */
  lemma ExecutionKeepsPromises(now: int, tr: Trace, tr': Trace, party: Party, answer: Convergence.Answer)
    requires tr.start == P.Init(now) && P.AllAtomic(tr.steps) && Convergence.AnswersFixed(tr.steps, answer)
    requires tr'.Valid() && Extends(tr, tr', party) && FixedAnswers(party, answer)
    ensures KeepsPromises(tr'.end, answer)
  {
    forall i | 0 <= i < |tr'.steps|
      ensures P.Atomic(tr'.steps[i])
    {
      assert i < |tr.steps| ==> tr'.steps[i] == tr.steps[i];
    }
    FixedTrace(tr, tr', party, answer);
    Convergence.RetriesConverge(now, tr'.steps, answer);
    JobSafety.OneIndexingJobPerAddress(now, tr'.steps);
    forall k | k in tr'.end.t.signatures && tr'.end.t.signatures[k].isProcessed
      ensures k in tr'.end.marks && StorageSafety.Stored(tr'.end.t, k, tr'.end.marks[k].saved)
    {
      StorageSafety.MarkedOnlyAfterStored(now, tr'.steps, k);
    }
  }

  /** An empty database, one job, one round of a worker; whatever fails, the promises hold of the tables left. */
  method FirstJob(clock: nat -> int, fails: nat -> bool, api: HeliusApi, worker: nat, world: World,
                  address: Address, txLimit: i16, requestedHours: i16, ghost answer: Convergence.Answer)
    returns (db: Database, r: Result<Option<JobInfo>, string>, ghost tr: Trace)
    requires (forall m, n :: 0 <= m <= n ==> clock(m) <= clock(n)) && forall a :: Distinct(world.ledger(a))
    requires NamesRequested(Party(worker, world.net, api.maxRateLimitRetries))
    modifies api
    ensures fresh(db) && db.Valid() && Tracks(db, tr, worker, P.Idle) && tr.start == P.Init(clock(0))
    ensures FixedAnswers(Party(worker, world.net, api.maxRateLimitRetries), answer) ==> KeepsPromises(tr.end, answer)
  {
    ghost var party := Party(worker, world.net, api.maxRateLimitRetries);
    db := new Database(clock, fails);
    ghost var start := Trace(P.Init(clock(0)), [], P.Init(clock(0)));
    InitTrace(db, clock(0), worker);
    ghost var now, created := db.Now(), start;
    var id := db.CreateProcessingJob(address, txLimit, requestedHours);
    if id.Err? {
      r, tr := Err(id.error), start;
    } else {
      created := FollowCreate(start, party, address, txLimit, requestedHours, now);
      r, tr := ProcessPendingJobOnce(db, api, worker, world, created);
      ExtendsTransitive(start, created, tr, party);
    }
    if FixedAnswers(party, answer) {
      ExecutionKeepsPromises(clock(0), start, tr, party, answer);
    }
  }
}
