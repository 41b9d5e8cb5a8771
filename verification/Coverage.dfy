/**
 * What a `ready` job says about the history of its address: from the ledger, through the signature rows, to the
 * stored transactions and transfers.
 */
module Coverage {
  import opened TransactionTypes
  import opened Pagination
  import opened Tables
  import opened Protocol
  import Convergence
  import Paging
  import StorageSafety
  import Tracing

  /** The rows of an address carry the block times of its history. */
  ghost predicate AgreesWith(rows: map<Key, SigRow>, address: Address, ledger: seq<Signature>) {
    forall e :: e in ledger && Key(address, e.signature) in rows ==>
        rows[Key(address, e.signature)].blockTime == e.blockTime
  }

  predicate HasRow(rows: map<Key, SigRow>, address: Address, e: Signature) {
    Key(address, e.signature) in rows && rows[Key(address, e.signature)].blockTime == e.blockTime
  }

  ghost predicate HaveRows(rows: map<Key, SigRow>, address: Address, entries: seq<Signature>) {
    forall e :: e in entries ==> HasRow(rows, address, e)
  }

  /** Each of these entries has a row. */
  ghost predicate HaveKeys(rows: map<Key, SigRow>, address: Address, entries: seq<Signature>) {
    forall e :: e in entries ==> Key(address, e.signature) in rows
  }

  lemma WritingAdds(rows: map<Key, SigRow>, address: Address, entries: seq<Signature>)
    ensures HaveKeys(InsertSignatures(rows, address, entries), address, entries)
  {
    InsertedRows(rows, address, entries);
  }

  lemma OneEntryPerSignature(ledger: seq<Signature>, d: Signature, e: Signature)
    requires Distinct(ledger) && d in ledger && e in ledger && d.signature == e.signature
    ensures d == e
  {
    var i :| 0 <= i < |ledger| && ledger[i] == d;
    var j :| 0 <= j < |ledger| && ledger[j] == e;
    assert i == j;
  }

  /** Writing entries of the history gives each a row with its block time, and keeps the rows in agreement. */
  lemma WritingAgrees(rows: map<Key, SigRow>, address: Address, ledger: seq<Signature>, entries: seq<Signature>)
    requires Distinct(ledger) && AgreesWith(rows, address, ledger) && forall e :: e in entries ==> e in ledger
    ensures var rows' := InsertSignatures(rows, address, entries);
            AgreesWith(rows', address, ledger) && HaveRows(rows', address, entries)
  {
    var rows' := InsertSignatures(rows, address, entries);
    InsertedRows(rows, address, entries);
    forall e | e in ledger && Key(address, e.signature) in rows'
      ensures rows'[Key(address, e.signature)].blockTime == e.blockTime
    {
      var k := Key(address, e.signature);
      if k !in rows {
        var d :| d in entries && k.signature == d.signature && rows'[k] == FreshRow(d.blockTime);
        OneEntryPerSignature(ledger, d, e);
      }
    }
  }

  lemma TakenEntries(ledger: seq<Signature>, written: seq<Signature>, positions: seq<nat>, visited: nat)
    requires Paging.TakenFrom(ledger, written, positions, visited)
    ensures forall e :: e in written ==> e in ledger
  {
    forall e | e in written
      ensures e in ledger
    {
      var k :| 0 <= k < |written| && written[k] == e;
      assert written[k] == ledger[positions[k]];
    }
  }

  lemma KeptRows(t: Tables, t': Tables, address: Address, entries: seq<Signature>)
    requires Convergence.KeepsProcessed(t, t')
    ensures HaveKeys(t.signatures, address, entries) ==> HaveKeys(t'.signatures, address, entries)
    ensures HaveRows(t.signatures, address, entries) ==> HaveRows(t'.signatures, address, entries)
  {
  }

  /** Every entry of the history that is recent for the cutoff and in the job's window has a processed row. */
  ghost predicate WindowDone(t: Tables, id: JobId, ledger: seq<Signature>, cutoff: int) {
    && id in t.jobs
    && forall e :: e in ledger && Recent(e, cutoff) && InWindow(t.jobs[id], e.blockTime) ==>
         var k := Key(t.jobs[id].address, e.signature);
         k in t.signatures && t.signatures[k].isProcessed
  }

  /** Written, kept, and behind an open gate: processed. */
  lemma CoveredAndOpen(t: Tables, id: JobId, ledger: seq<Signature>, written: seq<Signature>, cutoff: int)
    requires id in t.jobs && GateOpen(t, id) && HaveRows(t.signatures, t.jobs[id].address, written)
    requires Paging.Covers(ledger, |ledger|, cutoff, written)
    ensures WindowDone(t, id, ledger, cutoff)
  {
    forall e | e in ledger && Recent(e, cutoff) && InWindow(t.jobs[id], e.blockTime)
      ensures var k := Key(t.jobs[id].address, e.signature); k in t.signatures && t.signatures[k].isProcessed
    {
      var i :| 0 <= i < |ledger| && ledger[i] == e;
      assert ledger[i] in written;
      assert HasRow(t.signatures, t.jobs[id].address, e);
    }
  }

  /**
   * From a run that began with an empty database: whatever of the history the job covers has its transactions row
   * and all of its transfers.
   */
  lemma WindowStored(now: int, tr: Tracing.Trace, id: JobId, ledger: seq<Signature>, cutoff: int, e: Signature)
    requires tr.start == Init(now) && tr.Valid() && WindowDone(tr.end.t, id, ledger, cutoff)
    requires e in ledger && Recent(e, cutoff) && InWindow(tr.end.t.jobs[id], e.blockTime)
    ensures var k := Key(tr.end.t.jobs[id].address, e.signature);
            k in tr.end.marks && StorageSafety.Stored(tr.end.t, k, tr.end.marks[k].saved)
  {
    StorageSafety.MarkedOnlyAfterStored(now, tr.steps, Key(tr.end.t.jobs[id].address, e.signature));
  }

  /** A run of the code keeps every signature row, its block time and its processed flag. */
  lemma ExtensionKeepsRows(tr: Tracing.Trace, tr': Tracing.Trace, party: Tracing.Party)
    requires tr.Valid() && tr'.Valid() && Tracing.Extends(tr, tr', party)
    ensures Convergence.KeepsProcessed(tr.end.t, tr'.end.t)
  {
    RunSplit(tr'.start, tr'.steps, |tr.steps|);
    assert tr'.steps[..|tr.steps|] == tr.steps;
    Convergence.RunKeepsProcessed(tr.end, tr'.steps[|tr.steps|..]);
  }
}
