/** src/db/transactions.rs: what a stored row holds, column by column, read off the transaction it comes from. */
module RowReadings {
  import opened Wrappers
  import opened TransactionTypes
  import opened Transfers
  import opened Tables
  import opened Protocol
  import Convergence
  import StorageSafety

  // ---------- The columns ----------

  /** The key of a transaction's rows: its first signature, or nothing. */
  function FirstSignature(info: TransactionInfo): Sig {
    match |info.transaction.signatures|
    case 0 => ""
    case _ => info.transaction.signatures[0]
  }

  function Fitting(n: nat): int {
    if n <= 2_147_483_647 then n else 0
  }

  predicate Signs(key: AccountKey) {
    key.Info? && key.signer == Some(true)
  }

  /** The positions, from `from` on, of the account keys that say they signed. */
  function SigningFrom(keys: seq<AccountKey>, from: nat): set<nat> {
    set i | from <= i < |keys| && Signs(keys[i])
  }

  /** The header's count, else the number of signatures, else the number of signing keys. */
  function SignerCount(info: TransactionInfo): int {
    match info.transaction.message.requiredSignatures
    case Some(n) => n
    case None =>
      if info.transaction.signatures != [] then Fitting(|info.transaction.signatures|)
      else Fitting(|SigningFrom(info.transaction.message.keys, 0)|)
  }

  lemma {:induction false} SigningCount(keys: seq<AccountKey>, from: nat)
    requires from <= |keys|
    ensures CountSigners(keys[from..]) == |SigningFrom(keys, from)|
    decreases |keys| - from
  {
    if from < |keys| {
      SigningCount(keys, from + 1);
      assert keys[from..][1..] == keys[from + 1..];
      var rest := SigningFrom(keys, from + 1);
      if Signs(keys[from]) {
        assert SigningFrom(keys, from) == rest + {from};
      } else {
        assert SigningFrom(keys, from) == rest;
      }
    }
  }

  /** The row has the transaction's own values, each in its column. */
  ghost predicate TransactionColumns(row: TxRow, info: TransactionInfo) {
    && row.slot == info.slot && row.blockTime == info.blockTime
    && row.err == info.meta.err && row.fee == info.meta.fee && row.computeUnits == info.meta.computeUnitsConsumed
    && row.numSigners == SignerCount(info) && row.numInstructions == Fitting(|info.transaction.message.instructions|)
  }

  lemma TransactionColumnsOf(info: TransactionInfo)
    ensures TransactionColumns(TxRowOf(info), info)
  {
    var keys := info.transaction.message.keys;
    SigningCount(keys, 0);
    assert keys[0..] == keys;
  }

  // ---------- One insert ----------

  /** Entry i is the first of the payload with this signature. */
  ghost predicate FirstFor(payload: seq<Saved>, signature: Sig, i: nat) {
    && i < |payload| && FirstSignature(payload[i].info) == signature
    && forall j :: 0 <= j < i ==> FirstSignature(payload[j].info) != signature
  }

  lemma {:induction false} InsertTakesFirst(rows: map<Key, TxRow>, owner: Address, payload: seq<Saved>, k: Key, i: nat)
    requires k !in rows && k.owner == owner && FirstFor(payload, k.signature, i)
    ensures k in InsertTransactions(rows, owner, payload)
    ensures InsertTransactions(rows, owner, payload)[k] == TxRowOf(payload[i].info)
  {
    var n := |payload| - 1;
    if i < n {
      InsertTakesFirst(rows, owner, payload[..n], k, i);
    } else {
      NotYetInserted(rows, owner, payload[..n], k);
      assert k == Key(owner, RowSignature(payload[n].info));
    }
  }

  lemma {:induction false} NotYetInserted(rows: map<Key, TxRow>, owner: Address, payload: seq<Saved>, k: Key)
    requires k !in rows && forall j :: 0 <= j < |payload| ==> FirstSignature(payload[j].info) != k.signature
    ensures k !in InsertTransactions(rows, owner, payload)
  {
    if payload != [] {
      NotYetInserted(rows, owner, payload[..|payload| - 1], k);
    }
  }

  /** A key without a row gets the columns of the first payload entry with its signature; a row that is there stays. */
  lemma InsertReading(rows: map<Key, TxRow>, owner: Address, payload: seq<Saved>, k: Key, i: nat)
    requires k.owner == owner && FirstFor(payload, k.signature, i)
    ensures k in InsertTransactions(rows, owner, payload)
    ensures k in rows ==> InsertTransactions(rows, owner, payload)[k] == rows[k]
    ensures k !in rows ==> TransactionColumns(InsertTransactions(rows, owner, payload)[k], payload[i].info)
  {
    if k in rows {
      StorageSafety.InsertKeepsRows(rows, owner, payload, k);
    } else {
      InsertTakesFirst(rows, owner, payload, k, i);
      TransactionColumnsOf(payload[i].info);
    }
  }

  /** A transfers row holds the transfer it comes from and its transaction's place in time. */
  ghost predicate TransferColumns(row: TransferRow, owner: Address, info: TransactionInfo,
                                  change: TokenTransferChange) {
    && row.trackedOwner == owner && row.signature == FirstSignature(info) && row.change == change
    && row.slot == info.slot && row.blockTime == info.blockTime
  }

  ghost predicate HasTransfer(rows: set<TransferRow>, owner: Address, info: TransactionInfo,
                              change: TokenTransferChange) {
    exists r :: r in rows && TransferColumns(r, owner, info, change)
  }

  ghost predicate ComesFrom(r: TransferRow, owner: Address, saved: Saved) {
    exists change :: change in saved.transfers && TransferColumns(r, owner, saved.info, change)
  }

  lemma RowOfTransfer(owner: Address, saved: Saved, r: TransferRow)
    ensures r in RowsOf(owner, saved) <==> ComesFrom(r, owner, saved)
  {
    var rows := RowsOf(owner, saved);
    if r in rows {
      var j :| 0 <= j < |rows| && rows[j] == r;
      assert saved.transfers[j] in saved.transfers && TransferColumns(r, owner, saved.info, saved.transfers[j]);
    }
    if change :| change in saved.transfers && TransferColumns(r, owner, saved.info, change) {
      var j :| 0 <= j < |saved.transfers| && saved.transfers[j] == change;
      assert rows[j] == r;
    }
  }

  /** After a save, every transfer of every payload entry has its row, and every other row was there before. */
  lemma TransfersReading(rows: set<TransferRow>, owner: Address, payload: seq<Saved>, r: TransferRow)
    ensures r in InsertTransfers(rows, owner, payload) <==>
              r in rows || exists i :: 0 <= i < |payload| && ComesFrom(r, owner, payload[i])
  {
    StorageSafety.AllRowsMembers(owner, payload, r);
    forall i | 0 <= i < |payload|
      ensures r in RowsOf(owner, payload[i]) <==> ComesFrom(r, owner, payload[i])
    {
      RowOfTransfer(owner, payload[i], r);
    }
  }

  lemma TransferStored(rows: set<TransferRow>, owner: Address, payload: seq<Saved>, i: nat, change: TokenTransferChange)
    requires i < |payload| && change in payload[i].transfers
    ensures HasTransfer(InsertTransfers(rows, owner, payload), owner, payload[i].info, change)
  {
    var info := payload[i].info;
    var r := TransferRow(owner, FirstSignature(info), change, info.slot, info.blockTime);
    assert TransferColumns(r, owner, info, change);
    TransfersReading(rows, owner, payload, r);
  }

  // ---------- Whole runs ----------

  /**
   * With fixed answers, over every run: each transactions row has the columns of the answer for its signature, and
   * each transfers row those of one of that answer's transfers; a processed row has all of them.
   */
  lemma StoredColumns(now: int, steps: seq<Step>, answer: Convergence.Answer, k: Key, r: TransferRow)
    requires IsRun(Init(now), steps) && Convergence.AnswersFixed(steps, answer)
    ensures var t := After(Init(now), steps).t;
            && (k in t.transactions ==> TransactionColumns(t.transactions[k], answer(k.signature)))
            && (r in t.transfers ==>
                  && r.slot == answer(r.signature).slot && r.blockTime == answer(r.signature).blockTime
                  && r.change in TransfersOf(answer(r.signature)))
  {
    TransactionColumnsOf(answer(k.signature));
    RowOfTransfer(r.trackedOwner, Convergence.Ideal(answer, r.signature), r);
    TablesAreIdeal(now, steps, answer);
  }

  lemma TablesAreIdeal(now: int, steps: seq<Step>, answer: Convergence.Answer)
    requires IsRun(Init(now), steps) && Convergence.AnswersFixed(steps, answer)
    ensures Convergence.TablesIdeal(After(Init(now), steps).t, answer)
  {
    Convergence.RunKeepsIdeal(Init(now), steps, answer);
  }

  /** A processed row has the row of every transfer of its answer. */
  lemma ProcessedColumns(now: int, steps: seq<Step>, answer: Convergence.Answer, k: Key, change: TokenTransferChange)
    requires IsRun(Init(now), steps) && Convergence.AnswersFixed(steps, answer)
    requires k in After(Init(now), steps).t.signatures && After(Init(now), steps).t.signatures[k].isProcessed
    requires change in TransfersOf(answer(k.signature))
    ensures k in After(Init(now), steps).t.transactions
    ensures HasTransfer(After(Init(now), steps).t.transfers, k.owner, answer(k.signature), change)
  {
    StorageSafety.MarkedOnlyAfterStored(now, steps, k);
    Convergence.RunKeepsIdeal(Init(now), steps, answer);
    StoredHasTransfer(After(Init(now), steps).t, k, Convergence.Ideal(answer, k.signature), change);
  }

  lemma StoredHasTransfer(t: Tables, k: Key, saved: Saved, change: TokenTransferChange)
    requires StorageSafety.Stored(t, k, saved) && change in saved.transfers
    ensures HasTransfer(t.transfers, k.owner, saved.info, change)
  {
    var r := TransferRow(k.owner, FirstSignature(saved.info), change, saved.info.slot, saved.info.blockTime);
    assert TransferColumns(r, k.owner, saved.info, change);
    RowOfTransfer(k.owner, saved, r);
  }
}
