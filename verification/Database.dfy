/**
 * src/db/: the database handle. Its methods issue one statement each, except save_transaction_data,
 * which issues two. `clock(n)` is NOW() at the n-th statement and `fails(n)` tells whether that
 * statement fails; a failed statement changes no table.
 */
module Database {
  import opened Wrappers
  import opened TransactionTypes
  import opened Transfers
  import opened Tables
  import Reports

  type DbResult<T> = Result<T, string>

  /** The values behind a list of transaction objects. */
  function Values(txs: seq<TransactionResult>): (values: seq<Saved>)
    reads txs
    ensures |values| == |txs| && forall i :: 0 <= i < |txs| ==> values[i] == txs[i].Value()
  {
    if txs == [] then [] else Values(txs[..|txs| - 1]) + [txs[|txs| - 1].Value()]
  }

  /** The tables after write_transaction_info alone, and after both inserts. */
  function SavedFirst(t: Tables, owner: Address, payload: seq<Saved>): Tables {
    t.(transactions := InsertTransactions(t.transactions, owner, payload))
  }

  function SavedBoth(t: Tables, owner: Address, payload: seq<Saved>): Tables {
    SavedFirst(t, owner, payload).(transfers := InsertTransfers(t.transfers, owner, payload))
  }

  // ---------- The statements in terms of rows ----------

  /** The job created: pending, at that time, with what was asked for. */
  predicate IsNewJob(job: Job, address: Address, txLimit: i16, requestedHours: i16, now: int) {
    && job.address == address && job.status == Pending && job.workerId == None
    && job.createdAt == now && job.updatedAt == now
    && job.txLimit == txLimit && job.requestedHours == requestedHours
  }

  /** A pending job whose address has no job being indexed. */
  ghost predicate Waiting(jobs: map<JobId, Job>, id: JobId) {
    && id in jobs && jobs[id].status == Pending
    && forall other :: other in jobs && jobs[other].address == jobs[id].address ==> jobs[other].status != Indexing
  }

  lemma WaitingIsEligible(t: Tables)
    ensures forall id :: Waiting(t.jobs, id) <==> Eligible(t, id)
  {
    forall id
      ensures Waiting(t.jobs, id) <==> Eligible(t, id)
    {
      if id in t.jobs && !Eligible(t, id) && t.jobs[id].status == Pending {
        var other :| other in t.jobs && t.jobs[other].address == t.jobs[id].address
                     && t.jobs[other].status == Indexing;
      }
    }
  }

  /** What becomes of the claimed row, and what of it the worker is handed. */
  predicate IsClaim(row: Job, row': Job, job: ClaimedJob, worker: nat, now: int) {
    && job.address == row.address && job.txLimit == row.txLimit && job.requestedHours == row.requestedHours
    && row'.status == Indexing && row'.updatedAt == now
    && row'.workerId == Some(if worker <= 2147483647 then worker else 2147483647)
    && row'.address == row.address && row'.createdAt == row.createdAt
    && row'.txLimit == row.txLimit && row'.requestedHours == row.requestedHours
  }

  /** A timed row of the job's address, from its hours before the creation of the job up to that. */
  predicate InHours(k: Key, row: SigRow, job: Job) {
    && k.owner == job.address && row.blockTime.Some?
    && 0 <= job.createdAt - row.blockTime.value <= job.requestedHours * 3600
  }

  ghost predicate HoursProcessed(rows: map<Key, SigRow>, job: Job) {
    forall k :: k in rows && InHours(k, rows[k], job) ==> rows[k].isProcessed
  }

  /** When the update takes effect: an indexing job, and for `ready` nothing of its hours left unprocessed. */
  ghost predicate MayBecome(t: Tables, id: JobId, status: Status) {
    && id in t.jobs && t.jobs[id].status == Indexing
    && (status == Ready ==> HoursProcessed(t.signatures, t.jobs[id]))
  }

  /** One job has a new status and time of update. */
  ghost predicate OnlyUpdated(jobs: map<JobId, Job>, jobs': map<JobId, Job>, id: JobId, status: Status, now: int) {
    && id in jobs && jobs'.Keys == jobs.Keys
    && (forall other :: other in jobs && other != id ==> jobs'[other] == jobs[other])
    && jobs'[id].status == status && jobs'[id].updatedAt == now
    && jobs'[id] == jobs[id].(status := jobs'[id].status, updatedAt := jobs'[id].updatedAt)
  }

  /** A row that the lease statement may take: not processed, and not leased within the last five minutes. */
  predicate Leasable(row: SigRow, now: int) {
    !row.isProcessed && !(row.isProcessing && row.startedAt.Some? && now - row.startedAt.value <= 300)
  }

  /** Only leasable rows are taken, at most `limit`, and below the limit none is left. */
  ghost predicate TakesLeasable(rows: map<Key, SigRow>, owner: Address, now: int, limit: nat, batch: seq<Sig>) {
    && |batch| <= limit
    && (forall s :: s in batch ==> Key(owner, s) in rows && Leasable(rows[Key(owner, s)], now))
    && (|batch| < limit ==>
          forall k :: k in rows && k.owner == owner && Leasable(rows[k], now) ==> k.signature in batch)
  }

  /** The named rows are leased at `now`, the others as before. */
  ghost predicate OnlyLeased(rows: map<Key, SigRow>, rows': map<Key, SigRow>, owner: Address, batch: seq<Sig>,
                             now: int) {
    && rows'.Keys == rows.Keys
    && forall k :: k in rows ==>
         if k.owner == owner && k.signature in batch
         then rows'[k] == SigRow(rows[k].blockTime, rows[k].isProcessed, true, Some(now))
         else rows'[k] == rows[k]
  }

  /** The named rows are processed and no longer leased, the others as before. */
  ghost predicate OnlyMarked(rows: map<Key, SigRow>, rows': map<Key, SigRow>, owner: Address, batch: seq<Sig>) {
    && rows'.Keys == rows.Keys
    && forall k :: k in rows ==>
         if k.owner == owner && k.signature in batch && !rows[k].isProcessed
         then rows'[k] == SigRow(rows[k].blockTime, true, false, rows[k].startedAt)
         else rows'[k] == rows[k]
  }

  /** The row of a written entry: its block time, neither processed nor leased. */
  ghost predicate IsNewRow(k: Key, row: SigRow, owner: Address, entries: seq<Signature>) {
    && k.owner == owner && !row.isProcessed && !row.isProcessing && row.startedAt == None
    && exists e :: e in entries && e.signature == k.signature && e.blockTime == row.blockTime
  }

  /** Old rows stay, every entry has a row, and new rows are those of entries. */
  ghost predicate OnlyWritten(rows: map<Key, SigRow>, rows': map<Key, SigRow>, owner: Address,
                              entries: seq<Signature>) {
    && (forall k :: k in rows ==> k in rows' && rows'[k] == rows[k])
    && (forall e :: e in entries ==> Key(owner, e.signature) in rows')
    && (forall k :: k in rows' && k !in rows ==> IsNewRow(k, rows'[k], owner, entries))
  }

  /** The signatures insert. */
  lemma WrittenRows(rows: map<Key, SigRow>, owner: Address, entries: seq<Signature>)
    ensures OnlyWritten(rows, InsertSignatures(rows, owner, entries), owner, entries)
  {
    InsertedRows(rows, owner, entries);
  }

  /** A batch below the limit holds every leasable row. */
  lemma BatchTakesAll(rows: map<Key, SigRow>, owner: Address, now: int, limit: nat, batch: seq<Sig>)
    requires IsBatch(rows, owner, now, limit, batch)
    ensures TakesLeasable(rows, owner, now, limit, batch)
  {
    var taken, all := Keys(owner, batch), Claimable(rows, owner, now);
    KeysCount(owner, batch);
    assert taken <= all;
    if |batch| < limit {
      assert all == taken + (all - taken) && |all| == |taken| + |all - taken|;
      forall k | k in rows && k.owner == owner && Leasable(rows[k], now)
        ensures k.signature in batch
      {
        assert k in all && k !in all - taken;
      }
    }
  }

  function Keys(owner: Address, batch: seq<Sig>): set<Key> {
    set s | s in batch :: Key(owner, s)
  }

  lemma {:induction false} KeysCount(owner: Address, batch: seq<Sig>)
    requires NoRepeats(batch)
    ensures |Keys(owner, batch)| == |batch|
  {
    if batch != [] {
      var n := |batch| - 1;
      KeysCount(owner, batch[..n]);
      assert Keys(owner, batch) == Keys(owner, batch[..n]) + {Key(owner, batch[n])};
    }
  }

  lemma GateIsHours(t: Tables, id: JobId)
    requires id in t.jobs
    ensures GateOpen(t, id) <==> HoursProcessed(t.signatures, t.jobs[id])
    ensures Window(t, id) == set k | k in t.signatures && InHours(k, t.signatures[k], t.jobs[id])
    ensures (set k | k in Window(t, id) && t.signatures[k].isProcessed)
         == set k | k in t.signatures && InHours(k, t.signatures[k], t.jobs[id]) && t.signatures[k].isProcessed
  {
    forall k | k in t.signatures
      ensures InHours(k, t.signatures[k], t.jobs[id]) <==>
              k.owner == t.jobs[id].address && InWindow(t.jobs[id], t.signatures[k].blockTime)
    {
    }
  }

  /** The rows a transfers insert adds are those that are not there yet. */
  lemma AddedRows(rows: set<TransferRow>, owner: Address, payload: seq<Saved>)
    ensures var added := (set r | r in AllRows(owner, payload)) - rows;
            && InsertTransfers(rows, owner, payload) == rows + added
            && |rows + added| == |rows| + |added|
  {
  }

  lemma SaveNothing(t: Tables, owner: Address)
    ensures SavedBoth(t, owner, []) == t
  {
    assert InsertTransfers(t.transfers, owner, []) == t.transfers;
  }

  class Database {
    const clock: nat -> int
    const fails: nat -> bool
    var statements: nat
    var jobs: map<JobId, Job>
    var nextId: JobId
    var signatures: map<Key, SigRow>
    var transactions: map<Key, TxRow>
    var transfers: set<TransferRow>

    function All(): Tables
      reads this
    {
      Tables(jobs, nextId, signatures, transactions, transfers)
    }

    ghost predicate Valid()
      reads this
    {
      && (forall m, n :: 0 <= m <= n ==> clock(m) <= clock(n))
      && (forall id :: id in jobs ==> id < nextId && jobs[id].createdAt <= clock(statements))
    }

    /** NOW() for the next statement. */
    function Now(): int
      reads this
    {
      clock(statements)
    }

    constructor (clock: nat -> int, fails: nat -> bool)
      requires forall m, n :: 0 <= m <= n ==> clock(m) <= clock(n)
      ensures Valid() && All() == EmptyTables()
      ensures statements == 0 && this.clock == clock && this.fails == fails
    {
      this.clock, this.fails, statements := clock, fails, 0;
      jobs, nextId, signatures, transactions, transfers := map[], 1, map[], map[], {};
    }

    // ---------- processing_data ----------

    method CreateProcessingJob(address: Address, txLimit: i16, requestedHours: i16) returns (r: DbResult<JobId>)
      requires Valid()
      modifies this
      ensures Valid() && statements == old(statements) + 1
      ensures r.Err? <==> fails(old(statements))
      ensures r.Err? ==> All() == old(All())
      ensures r.Ok? ==> r.value == old(nextId) && r.value !in old(jobs)
      ensures r.Ok? ==> All() == CreateJob(old(All()), address, txLimit, requestedHours, old(Now()))
      ensures r.Ok? ==>
                && r.value in jobs && IsNewJob(jobs[r.value], address, txLimit, requestedHours, clock(old(statements)))
                && jobs == old(jobs)[r.value := jobs[r.value]] && nextId == r.value + 1
    {
      var failed, now := fails(statements), clock(statements);
      statements := statements + 1;
      if failed {
        return Err("create_processing_job");
      }
      jobs := jobs[nextId := Job(address, Pending, now, now, None, txLimit, requestedHours)];
      nextId := nextId + 1;
      return Ok(nextId - 1);
    }

    /** The oldest pending job whose address has no indexing job becomes indexing; None when there is none. */
    method ClaimPendingJob(worker: nat) returns (r: DbResult<Option<ClaimedJob>>)
      requires Valid()
      modifies this
      ensures Valid() && statements == old(statements) + 1
      ensures r.Err? <==> fails(old(statements))
      ensures r.Err? || r.value.None? ==> All() == old(All())
      ensures r.Ok? && r.value.None? ==> forall id :: !Eligible(old(All()), id)
      ensures r.Ok? && r.value.Some? ==>
                var job := r.value.value;
                && IsNextJob(old(All()), {}, job.jobId)
                && job == Claimed(old(All()), job.jobId)
                && All() == ClaimJob(old(All()), job.jobId, worker, old(Now()))
      // In terms of the rows: which job it is, what of it the worker gets, and what becomes of the row.
      ensures r.Ok? && r.value.None? ==> forall id :: !Waiting(jobs, id)
      ensures r.Ok? && r.value.Some? ==>
                var job := r.value.value;
                && Waiting(old(jobs), job.jobId) && job.jobId in jobs
                && (forall id :: Waiting(old(jobs), id) ==> old(jobs)[job.jobId].createdAt <= old(jobs)[id].createdAt)
                && IsClaim(old(jobs)[job.jobId], jobs[job.jobId], job, worker, clock(old(statements)))
                && jobs == old(jobs)[job.jobId := jobs[job.jobId]]
    {
      var failed, now := fails(statements), clock(statements);
      statements := statements + 1;
      if failed {
        return Err("claim_pending_job");
      }
      WaitingIsEligible(All());
      var eligible := set id | id in jobs && Eligible(All(), id);
      if eligible == {} {
        assert forall id :: Eligible(old(All()), id) ==> id in eligible;
        return Ok(None);
      }
      var best := Oldest(eligible);
      assert forall id :: Eligible(old(All()), id) ==> id in eligible;
      var claimed := Claimed(All(), best);
      jobs := jobs[best := jobs[best].(status := Indexing, workerId := Some(ToWorkerId(worker)), updatedAt := now)];
      return Ok(Some(claimed));
    }

    /** ORDER BY created_at ASC LIMIT 1. */
    method Oldest(ids: set<JobId>) returns (best: JobId)
      requires ids != {} && forall id :: id in ids ==> id in jobs
      ensures best in ids && forall id :: id in ids ==> jobs[best].createdAt <= jobs[id].createdAt
    {
      best :| best in ids;
      var rest := ids - {best};
      while rest != {}
        invariant best in ids && rest <= ids
        invariant forall id :: id in ids && id !in rest ==> jobs[best].createdAt <= jobs[id].createdAt
        decreases |rest|
      {
        var id :| id in rest;
        if jobs[id].createdAt < jobs[best].createdAt {
          best := id;
        }
        rest := rest - {id};
      }
    }

    /** The guarded status update; returns the number of rows changed. */
    method UpdateProcessingStatusByJobId(id: JobId, status: Status) returns (r: DbResult<nat>)
      requires Valid()
      modifies this
      ensures Valid() && statements == old(statements) + 1
      ensures r.Err? <==> fails(old(statements))
      ensures r.Err? ==> All() == old(All())
      ensures r.Ok? ==> All() == UpdateStatus(old(All()), id, status, old(Now()))
      ensures r.Ok? ==> r.value == (if CanUpdate(old(All()), id, status) then 1 else 0)
      ensures r.Ok? && MayBecome(old(All()), id, status) ==>
                r.value == 1 && OnlyUpdated(old(jobs), jobs, id, status, clock(old(statements)))
      ensures r.Ok? && !MayBecome(old(All()), id, status) ==> r.value == 0 && jobs == old(jobs)
    {
      if id in jobs {
        GateIsHours(All(), id);
      }
      var failed, now := fails(statements), clock(statements);
      statements := statements + 1;
      if failed {
        return Err("update_processing_status");
      }
      if !CanUpdate(All(), id, status) {
        return Ok(0);
      }
      jobs := jobs[id := jobs[id].(status := status, updatedAt := now)];
      return Ok(1);
    }

    method GetJobInfo(id: JobId) returns (r: DbResult<Option<JobInfo>>)
      requires Valid()
      modifies this
      ensures Valid() && statements == old(statements) + 1
      ensures All() == old(All())
      ensures r.Err? <==> fails(old(statements))
      ensures r.Ok? ==> (r.value.None? <==> id !in jobs)
      ensures r.Ok? && r.value.Some? ==>
                var report := r.value.value;
                && r.value == JobReport(All(), id)
                && report.status == jobs[id].status && report.updatedAt == jobs[id].updatedAt
                && report.total == |set k | k in signatures && InHours(k, signatures[k], jobs[id])|
                && report.processed == |set k | k in signatures && InHours(k, signatures[k], jobs[id])
                    && signatures[k].isProcessed|
                && report.processed + report.remaining == report.total
                && report.remaining == |Reports.Unfinished(All(), id)|
                && (report.remaining == 0 <==> HoursProcessed(signatures, jobs[id]))
    {
      var failed := fails(statements);
      statements := statements + 1;
      if failed {
        return Err("get_job_info");
      }
      if id in jobs {
        Reports.ReportAgreesWithGate(All(), id);
        GateIsHours(All(), id);
      }
      return Ok(JobReport(All(), id));
    }

    // ---------- signatures ----------

    /** Leases up to `limit` claimable rows of the address; which ones is up to the database. */
    method GetUnprocessedSignatures(address: Address, limit: nat) returns (r: DbResult<seq<Sig>>)
      requires Valid()
      modifies this
      ensures Valid() && statements == old(statements) + 1
      ensures r.Err? <==> fails(old(statements))
      ensures r.Err? ==> All() == old(All())
      ensures r.Ok? ==> IsBatch(old(signatures), address, old(Now()), limit, r.value)
      ensures r.Ok? ==> All() == old(All()).(signatures := LeaseRows(old(signatures), address, r.value, old(Now())))
      ensures r.Ok? ==> TakesLeasable(old(signatures), address, clock(old(statements)), limit, r.value)
      ensures r.Ok? ==> OnlyLeased(old(signatures), signatures, address, r.value, clock(old(statements)))
    {
      var failed, now := fails(statements), clock(statements);
      statements := statements + 1;
      if failed {
        return Err("get_unprocessed_signatures");
      }
      var claimable := Claimable(signatures, address, now);
      var rest, batch := claimable, [];
      while |batch| < limit && rest != {}
        invariant rest <= claimable && |batch| <= limit && |batch| + |rest| == |claimable|
        invariant NoRepeats(batch)
        invariant forall s :: s in batch ==> Key(address, s) in claimable && Key(address, s) !in rest
        decreases |rest|
      {
        var k :| k in rest;
        assert k == Key(address, k.signature);
        rest := rest - {k};
        batch := batch + [k.signature];
      }
      BatchTakesAll(signatures, address, now, limit, batch);
      signatures := map k | k in signatures ::
        if k.owner == address && k.signature in batch
        then signatures[k].(isProcessing := true, startedAt := Some(now)) else signatures[k];
      return Ok(batch);
    }

    method MarkSignaturesProcessed(address: Address, processed: seq<Sig>) returns (r: DbResult<nat>)
      requires Valid()
      modifies this
      ensures Valid() && old(statements) <= statements
      ensures r.Err? ==> fails(old(statements)) && All() == old(All())
      ensures r.Ok? ==> All() == old(All()).(signatures := MarkRows(old(signatures), address, processed))
      ensures r.Ok? ==> OnlyMarked(old(signatures), signatures, address, processed)
      ensures r.Ok? ==>
                r.value == |set k | k in old(signatures) && InBatch(k, address, processed)
                    && !old(signatures)[k].isProcessed|
    {
      if processed == [] {
        assert MarkRows(signatures, address, processed) == signatures;
        assert (set k | k in old(signatures) && InBatch(k, address, processed)
            && !old(signatures)[k].isProcessed) == {};
        return Ok(0);
      }
      var failed := fails(statements);
      statements := statements + 1;
      if failed {
        return Err("mark_signatures_processed");
      }
      var affected := set k | k in signatures && InBatch(k, address, processed) && !signatures[k].isProcessed;
      signatures := map k | k in signatures ::
        if k in affected then signatures[k].(isProcessed := true, isProcessing := false) else signatures[k];
      assert signatures == MarkRows(old(signatures), address, processed);
      return Ok(|affected|);
    }

    method WriteSignatures(entries: seq<Signature>, address: Address) returns (r: DbResult<nat>)
      requires Valid()
      modifies this
      ensures Valid() && old(statements) <= statements
      ensures r.Err? ==> fails(old(statements)) && All() == old(All())
      ensures r.Ok? ==> All() == old(All()).(signatures := InsertSignatures(old(signatures), address, entries))
      ensures r.Ok? ==> r.value == |signatures| - |old(signatures)|
    {
      if entries == [] {
        return Ok(0);
      }
      var failed := fails(statements);
      statements := statements + 1;
      if failed {
        return Err("write_signatures");
      }
      var inserted: nat, rows := 0, signatures;
      for i := 0 to |entries|
        invariant rows == InsertSignatures(signatures, address, entries[..i])
        invariant inserted == |rows| - |signatures|
      {
        assert entries[..i + 1][..i] == entries[..i];
        var key := Key(address, entries[i].signature);
        if key !in rows {
          rows := rows[key := FreshRow(entries[i].blockTime)];
          inserted := inserted + 1;
        }
      }
      assert entries[..|entries|] == entries;
      signatures := rows;
      return Ok(inserted);
    }

    // ---------- transactions and token_transfers ----------

    /** The rows the multi-row insert would leave, and how many of them are new. */
    method InsertInfos(txs: seq<TransactionResult>, owner: Address) returns (rows: map<Key, TxRow>, inserted: nat)
      ensures rows == InsertTransactions(transactions, owner, Values(txs))
      ensures inserted == |rows| - |transactions|
    {
      rows, inserted := transactions, 0;
      var values := Values(txs);
      for i := 0 to |txs|
        invariant rows == InsertTransactions(transactions, owner, values[..i])
        invariant inserted == |rows| - |transactions|
      {
        assert values[..i + 1][..i] == values[..i];
        var info := txs[i].result;
        var key := Key(owner, RowSignature(info));
        if key !in rows {
          rows := rows[key := TxRowOf(info)];
          inserted := inserted + 1;
        }
      }
      assert values[..|txs|] == values;
    }

    method WriteTransactionInfo(txs: seq<TransactionResult>, owner: Address) returns (r: DbResult<nat>)
      requires Valid()
      modifies this
      ensures Valid() && old(statements) <= statements
      ensures r.Err? ==> fails(old(statements)) && All() == old(All())
      ensures r.Ok? ==> All() == old(All()).(transactions := InsertTransactions(old(transactions), owner,
              old(Values(txs))))
      ensures r.Ok? ==> r.value == |transactions| - |old(transactions)|
    {
      if txs == [] {
        return Ok(0);
      }
      var rows, inserted := InsertInfos(txs, owner);
      var failed := fails(statements);
      statements := statements + 1;
      if failed {
        return Err("write_transaction_info");
      }
      transactions := rows;
      return Ok(inserted);
    }

    method WriteTokenTransfers(txs: seq<TransactionResult>, owner: Address) returns (r: DbResult<nat>)
      requires Valid()
      modifies this
      ensures Valid() && old(statements) <= statements
      ensures r.Err? ==> fails(old(statements)) && All() == old(All())
      ensures r.Ok? ==> All() == old(All()).(transfers := InsertTransfers(old(transfers), owner, old(Values(txs))))
      ensures r.Ok? ==> r.value == |transfers| - |old(transfers)|
    {
      ghost var payload := Values(txs);
      var rows := BuildRows(txs, owner);
      if rows == [] {
        assert InsertTransfers(transfers, owner, payload) == transfers;
        return Ok(0);
      }
      var failed := fails(statements);
      statements := statements + 1;
      if failed {
        return Err("write_token_transfers");
      }
      AddedRows(transfers, owner, payload);
      var added := (set x | x in rows) - transfers;
      transfers := transfers + added;
      return Ok(|added|);
    }

    /** The nested loops that collect one row per transfer. */
    method BuildRows(txs: seq<TransactionResult>, owner: Address) returns (rows: seq<TransferRow>)
      ensures rows == AllRows(owner, Values(txs))
    {
      rows := [];
      var values := Values(txs);
      for i := 0 to |txs|
        invariant rows == AllRows(owner, values[..i])
      {
        assert values[..i + 1][..i] == values[..i];
        var tx := txs[i];
        ghost var all, before := RowsOf(owner, values[i]), rows;
        for j := 0 to |tx.tokenTransferChanges|
          invariant rows == before + all[..j]
        {
          rows := rows + [TransferRowOf(owner, tx.result, tx.tokenTransferChanges[j])];
        }
        assert all[..|tx.tokenTransferChanges|] == all;
      }
      assert values[..|txs|] == values;
    }

    /** Transactions first, transfers second; a failure in between leaves the first stored. */
    method SaveTransactionData(txs: seq<TransactionResult>, address: Address) returns (r: DbResult<(nat, nat)>)
      requires Valid()
      modifies this
      ensures Valid() && old(statements) <= statements
      ensures r.Err? ==> exists n :: old(statements) <= n && fails(n)
      ensures r.Err? ==> All() == old(All()) || All() == SavedFirst(old(All()), address, old(Values(txs)))
      ensures r.Ok? ==> All() == SavedBoth(old(All()), address, old(Values(txs)))
      ensures r.Ok? ==> r.value.0 == |transactions| - |old(transactions)|
      ensures r.Ok? ==> r.value.1 == |transfers| - |old(transfers)|
    {
      ghost var t0, payload := All(), Values(txs);
      ghost var rowsBefore, transfersBefore := |transactions|, |transfers|;
      if txs == [] {
        assert SavedBoth(t0, address, payload) == t0 by {
          SaveNothing(t0, address);
        }
        return Ok((0, 0));
      }
      var first := WriteTransactionInfo(txs, address);
      if first.Err? {
        return Err(first.error);
      }
      assert first.value == |transactions| - rowsBefore && |transfers| == transfersBefore;
      ghost var rowsAfter := |transactions|;
      assert Values(txs) == payload;
      assert All() == SavedFirst(t0, address, payload);
      var second := WriteTokenTransfers(txs, address);
      if second.Err? {
        return Err(second.error);
      }
      assert |transactions| == rowsAfter && second.value == |transfers| - transfersBefore;
      return Ok((first.value, second.value));
    }
  }
}
