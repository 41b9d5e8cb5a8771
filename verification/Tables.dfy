/**
 * The four tables and the SQL statements of src/db/ as functions from tables to tables.
 * Times are whole seconds. A transfers row is its natural key: the unique index covers every
 * column except the generated id and created_at, with NULLs not distinct.
 */
module Tables {
  import opened Wrappers
  import opened TransactionTypes

  const LEASE_SECONDS := 300
  const SECONDS_PER_HOUR := 3600

  type JobId = nat

  /** 'pending', 'indexing', 'ready' and 'error'. */
  datatype Status = Pending | Indexing | Ready | Failed

  datatype Job = Job(
    address: Address,
    status: Status,
    createdAt: int,
    updatedAt: int,
    workerId: Option<i32>,
    txLimit: i16,
    requestedHours: i16)

  /** What claim_pending_job returns to its worker. */
  datatype ClaimedJob = ClaimedJob(jobId: JobId, address: Address, requestedHours: i16, txLimit: i16)

  datatype Key = Key(owner: Address, signature: Sig)

  datatype SigRow = SigRow(blockTime: Option<int>, isProcessed: bool, isProcessing: bool, startedAt: Option<int>)

  datatype TxRow = TxRow(
    slot: i32,
    blockTime: i32,
    err: string,
    fee: i32,
    computeUnits: i32,
    numSigners: i32,
    numInstructions: i32)

  datatype TransferRow = TransferRow(
    trackedOwner: Address,
    signature: Sig,
    change: TokenTransferChange,
    slot: i32,
    blockTime: i32)

  datatype Tables = Tables(
    jobs: map<JobId, Job>,
    nextId: JobId,
    signatures: map<Key, SigRow>,
    transactions: map<Key, TxRow>,
    transfers: set<TransferRow>)

  /** The migrated schema before its first row; generated ids start at 1. */
  function EmptyTables(): Tables {
    Tables(map[], 1, map[], map[], {})
  }

  // ---------- signatures ----------

  /** The column defaults of a new signature row. */
  function FreshRow(blockTime: Option<int>): SigRow {
    SigRow(blockTime, false, false, None)
  }

  /** INSERT INTO signatures ... ON CONFLICT DO NOTHING, row by row. */
  function InsertSignatures(rows: map<Key, SigRow>, owner: Address, entries: seq<Signature>): map<Key, SigRow> {
    if entries == [] then rows
    else
      var before := InsertSignatures(rows, owner, entries[..|entries| - 1]);
      var last := entries[|entries| - 1];
      var key := Key(owner, last.signature);
      if key in before then before else before[key := FreshRow(last.blockTime)]
  }

  lemma {:induction false} InsertedRows(rows: map<Key, SigRow>, owner: Address, entries: seq<Signature>)
    ensures var rows' := InsertSignatures(rows, owner, entries);
            && (forall k :: k in rows ==> k in rows' && rows'[k] == rows[k])
            && (forall k :: k in rows' && k !in rows ==>
                  && k.owner == owner
                  && exists e :: e in entries && k.signature == e.signature && rows'[k] == FreshRow(e.blockTime))
            && (forall e :: e in entries ==> Key(owner, e.signature) in rows')
  {
    if entries != [] {
      var n := |entries| - 1;
      InsertedRows(rows, owner, entries[..n]);
      assert entries == entries[..n] + [entries[n]];
    }
  }

  /** The selection of get_unprocessed_signatures: unprocessed and not under a live lease. */
  predicate ClaimableRow(row: SigRow, now: int) {
    && !row.isProcessed
    && (!row.isProcessing || row.startedAt.None? || row.startedAt.value < now - LEASE_SECONDS)
  }

  function Claimable(rows: map<Key, SigRow>, owner: Address, now: int): set<Key> {
    set k | k in rows && k.owner == owner && ClaimableRow(rows[k], now)
  }

  function Unprocessed(rows: map<Key, SigRow>, owner: Address): set<Key> {
    set k | k in rows && k.owner == owner && !rows[k].isProcessed
  }

  /** A possible answer of the lease statement: distinct claimable signatures, as many as the limit allows. */
  ghost predicate IsBatch(rows: map<Key, SigRow>, owner: Address, now: int, limit: nat, batch: seq<Sig>) {
    && NoRepeats(batch)
    && (forall s :: s in batch ==> Key(owner, s) in Claimable(rows, owner, now))
    && |batch| == if |Claimable(rows, owner, now)| < limit then |Claimable(rows, owner, now)| else limit
  }

  predicate InBatch(k: Key, owner: Address, batch: seq<Sig>) {
    k.owner == owner && k.signature in batch
  }

  function LeaseRows(rows: map<Key, SigRow>, owner: Address, batch: seq<Sig>, now: int): map<Key, SigRow> {
    map k | k in rows ::
      if InBatch(k, owner, batch) then rows[k].(isProcessing := true, startedAt := Some(now)) else rows[k]
  }

  function MarkRows(rows: map<Key, SigRow>, owner: Address, processed: seq<Sig>): map<Key, SigRow> {
    map k | k in rows ::
      if InBatch(k, owner, processed) && !rows[k].isProcessed
      then rows[k].(isProcessed := true, isProcessing := false)
      else rows[k]
  }

  // ---------- transactions and token_transfers ----------

  function TxRowOf(info: TransactionInfo): TxRow {
    TxRow(info.slot, info.blockTime, info.meta.err, info.meta.fee, info.meta.computeUnitsConsumed,
          NumSigners(info), NumInstructions(info))
  }

  function TransferRowOf(owner: Address, info: TransactionInfo, change: TokenTransferChange): TransferRow {
    TransferRow(owner, RowSignature(info), change, info.slot, info.blockTime)
  }

  function RowsOf(owner: Address, saved: Saved): seq<TransferRow> {
    seq(|saved.transfers|, i requires 0 <= i < |saved.transfers| => TransferRowOf(owner, saved.info,
        saved.transfers[i]))
  }

  /** All transfer rows of a payload, transaction by transaction. */
  function AllRows(owner: Address, payload: seq<Saved>): seq<TransferRow> {
    if payload == [] then []
    else AllRows(owner, payload[..|payload| - 1]) + RowsOf(owner, payload[|payload| - 1])
  }

  /** INSERT INTO transactions ... ON CONFLICT (owner_address, signature) DO NOTHING, row by row. */
  function InsertTransactions(rows: map<Key, TxRow>, owner: Address, payload: seq<Saved>): map<Key, TxRow> {
    if payload == [] then rows
    else
      var before := InsertTransactions(rows, owner, payload[..|payload| - 1]);
      var info := payload[|payload| - 1].info;
      var key := Key(owner, RowSignature(info));
      if key in before then before else before[key := TxRowOf(info)]
  }

  /** INSERT INTO token_transfers ... ON CONFLICT DO NOTHING. */
  function InsertTransfers(rows: set<TransferRow>, owner: Address, payload: seq<Saved>): set<TransferRow> {
    rows + set r | r in AllRows(owner, payload)
  }

  // ---------- processing_data ----------

  function WindowStart(job: Job): int {
    job.createdAt - job.requestedHours * SECONDS_PER_HOUR
  }

  predicate InWindow(job: Job, blockTime: Option<int>) {
    blockTime.Some? && WindowStart(job) <= blockTime.value <= job.createdAt
  }

  /** The signature rows a job reports on. */
  function Window(t: Tables, id: JobId): set<Key>
    requires id in t.jobs
  {
    set k | k in t.signatures && k.owner == t.jobs[id].address && InWindow(t.jobs[id], t.signatures[k].blockTime)
  }

  /** The guard of the 'ready' update. */
  predicate GateOpen(t: Tables, id: JobId)
    requires id in t.jobs
  {
    forall k | k in t.signatures && k.owner == t.jobs[id].address && InWindow(t.jobs[id], t.signatures[k].blockTime) ::
      t.signatures[k].isProcessed
  }

  predicate CanUpdate(t: Tables, id: JobId, status: Status) {
    id in t.jobs && t.jobs[id].status == Indexing && (status == Ready ==> GateOpen(t, id))
  }

  function UpdateStatus(t: Tables, id: JobId, status: Status, now: int): Tables {
    if CanUpdate(t, id, status)
    then t.(jobs := t.jobs[id := t.jobs[id].(status := status, updatedAt := now)])
    else t
  }

  datatype JobInfo = JobInfo(status: Status, updatedAt: int, total: nat, processed: nat, remaining: int)

  /** The aggregate of get_job_info; an empty join group counts zero rows. */
  function JobReport(t: Tables, id: JobId): Option<JobInfo> {
    if id !in t.jobs then None
    else
      var total := |Window(t, id)|;
      var processed := |set k | k in Window(t, id) && t.signatures[k].isProcessed|;
      Some(JobInfo(t.jobs[id].status, t.jobs[id].updatedAt, total, processed, total - processed))
  }

  function CreateJob(t: Tables, address: Address, txLimit: i16, requestedHours: i16, now: int): Tables {
    t.(jobs := t.jobs[t.nextId := Job(address, Pending, now, now, None, txLimit, requestedHours)],
        nextId := t.nextId + 1)
  }

  predicate Busy(t: Tables, address: Address) {
    exists id :: id in t.jobs && t.jobs[id].address == address && t.jobs[id].status == Indexing
  }

  predicate Eligible(t: Tables, id: JobId) {
    id in t.jobs && t.jobs[id].status == Pending && !Busy(t, t.jobs[id].address)
  }

  /** `id` is the oldest eligible job among those not in `locked`. */
  ghost predicate IsNextJob(t: Tables, locked: set<JobId>, id: JobId) {
    && Eligible(t, id) && id !in locked
    && forall other :: Eligible(t, other) && other !in locked ==> t.jobs[id].createdAt <= t.jobs[other].createdAt
  }

  function ToWorkerId(worker: nat): i32 {
    if worker < I32_LIMIT then worker else I32_LIMIT - 1
  }

  function ClaimJob(t: Tables, id: JobId, worker: nat, now: int): Tables
    requires id in t.jobs
  {
    t.(jobs := t.jobs[id := t.jobs[id].(status := Indexing, workerId := Some(ToWorkerId(worker)), updatedAt := now)])
  }

  function Claimed(t: Tables, id: JobId): ClaimedJob
    requires id in t.jobs
  {
    ClaimedJob(id, t.jobs[id].address, t.jobs[id].requestedHours, t.jobs[id].txLimit)
  }
}
