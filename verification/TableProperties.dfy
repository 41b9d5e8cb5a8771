/** What the statements of Tables promise: the job window, first and repeated saves. */
module TableProperties {
  import opened Wrappers
  import opened TransactionTypes
  import opened Transfers
  import opened TransferProperties
  import opened Pagination
  import T = Tables
  import StorageSafety

  // ---------- What a job writes and what its window holds ----------

  /**
   * Whatever a page answered at `rpcNow` holds, what the job writes of it lies in its window unless newer than the
   * job.
   */
  ghost predicate WritesIntoWindow(job: T.Job, rpcNow: int) {
    forall page: seq<Signature>, entry: Signature ::
      entry in RecentPart(page, Cutoff(job.requestedHours, rpcNow)) && entry.blockTime.value <= job.createdAt ==>
        T.InWindow(job, entry.blockTime)
  }

  /** The client's clock at the page has reached the database's clock at the creation of the job. */
  predicate ClockReached(job: T.Job, rpcNow: int) {
    if job.requestedHours >= 0 then job.createdAt <= rpcNow else job.createdAt < rpcNow
  }

  /**
   * What a job writes lies in its own window, unless it is newer than the job: so it is for every page exactly
   * when the client's clock, which sets the cutoff, is not behind the time the database gave the job.
   */
  lemma WrittenLiesInWindowIff(job: T.Job, rpcNow: int)
    ensures WritesIntoWindow(job, rpcNow) <==> ClockReached(job, rpcNow)
  {
    var cutoff := Cutoff(job.requestedHours, rpcNow);
    if !ClockReached(job, rpcNow) {
      var entry := Signature(Some(cutoff), "");
      OneEntryPage(entry, cutoff);
      assert !T.InWindow(job, entry.blockTime);
    }
  }

  lemma OneEntryPage(entry: Signature, cutoff: int)
    requires Recent(entry, cutoff)
    ensures RecentPart([entry], cutoff) == [entry]
  {
    assert FirstOld([entry], cutoff) == 1;
    assert [entry][..1] == [entry];
    assert entry in KeepRecent([entry], cutoff);
  }

  /**
   * A client clock 1000 seconds behind: the page keeps an entry from before the window of its own job, which
   * the ready gate and the report then never count.
   */
  lemma SlowClockWritesBeforeWindow(address: Address, signature: Sig)
    ensures var job := T.Job(address, T.Pending, 10000, 10000, None, 10, 1);
            var entry := Signature(Some(6000), signature);
            && RecentPart([entry], Cutoff(job.requestedHours, 9000)) == [entry]
            && entry.blockTime.value <= job.createdAt && !T.InWindow(job, entry.blockTime)
  {
    OneEntryPage(Signature(Some(6000), signature), 9000 - 3600);
  }

  /** No entry of the job's window is cut off by a page answered at `rpcNow`. */
  ghost predicate KeepsWindow(job: T.Job, rpcNow: int) {
    forall entry: Signature :: T.InWindow(job, entry.blockTime) ==> Recent(entry, Cutoff(job.requestedHours, rpcNow))
  }

  /**
   * The cutoff spares the whole window exactly when the window is empty or the page is answered no later than the
   * job was created; every second of delay takes a second off the start of the window.
   */
  lemma CutoffKeepsWindowIff(job: T.Job, rpcNow: int)
    ensures KeepsWindow(job, rpcNow) <==> job.requestedHours < 0 || rpcNow <= job.createdAt
  {
    if job.requestedHours >= 0 && rpcNow > job.createdAt {
      var entry := Signature(Some(T.WindowStart(job)), "");
      assert T.InWindow(job, entry.blockTime) && !Recent(entry, Cutoff(job.requestedHours, rpcNow));
    }
  }

  /** A page answered 100 seconds after the job was created: an entry of the window is cut off. */
  lemma LatePageCutsWindow(address: Address, signature: Sig)
    ensures var job := T.Job(address, T.Pending, 10000, 10000, None, 10, 1);
            var entry := Signature(Some(6450), signature);
            && T.InWindow(job, entry.blockTime)
            && RecentPart([entry], Cutoff(job.requestedHours, 10100)) == []
            && FirstOld([entry], Cutoff(job.requestedHours, 10100)) == 0
  {
    assert [Signature(Some(6450), signature)][..0] == [];
  }

  /**
   * The window of a job is empty exactly when its hours are negative. Then the gate is open whatever is
   * unprocessed, although pages are still written: the page filter treats negative hours as zero.
   */
  lemma NegativeHoursEmptyWindow(job: T.Job)
    ensures (forall blockTime: Option<int> :: !T.InWindow(job, blockTime)) <==> job.requestedHours < 0
  {
    if job.requestedHours >= 0 {
      assert T.InWindow(job, Some(job.createdAt));
    }
  }

  /** With negative hours the ready update never waits for the rows the job itself has written. */
  lemma NegativeHoursOpenGate(t: T.Tables, id: T.JobId)
    requires id in t.jobs && t.jobs[id].requestedHours < 0
    ensures T.GateOpen(t, id)
  {
    NegativeHoursEmptyWindow(t.jobs[id]);
  }

  // ---------- Repeated and first saves ----------

  /** Saving a payload again changes nothing. */
  lemma SecondSaveInsertsNothing(txs: map<T.Key, T.TxRow>, transfers: set<T.TransferRow>, owner: Address,
                                payload: seq<Saved>)
    ensures T.InsertTransactions(T.InsertTransactions(txs, owner, payload), owner, payload)
            == T.InsertTransactions(txs, owner, payload)
    ensures T.InsertTransfers(T.InsertTransfers(transfers, owner, payload), owner, payload)
            == T.InsertTransfers(transfers, owner, payload)
  {
    StorageSafety.InsertedTransactions(txs, owner, payload);
    PresentInsertsNothing(T.InsertTransactions(txs, owner, payload), owner, payload);
  }

  lemma {:induction false} PresentInsertsNothing(txs: map<T.Key, T.TxRow>, owner: Address, payload: seq<Saved>)
    requires forall i :: 0 <= i < |payload| ==> T.Key(owner, RowSignature(payload[i].info)) in txs
    ensures T.InsertTransactions(txs, owner, payload) == txs
  {
    if payload != [] {
      PresentInsertsNothing(txs, owner, payload[..|payload| - 1]);
    }
  }

  /** What is saved after a fetch: transactions with distinct signatures, each with its own transfers. */
  ghost predicate Extracted(payload: seq<Saved>) {
    && (forall i :: 0 <= i < |payload| ==> payload[i].transfers == TransfersOf(payload[i].info))
    && (forall i, j :: 0 <= i < j < |payload| ==> RowSignature(payload[i].info) != RowSignature(payload[j].info))
  }

  ghost predicate AllApart(payload: seq<Saved>) {
    forall i :: 0 <= i < |payload| ==> TransfersApart(payload[i].info)
  }

  ghost predicate NoneRepeats(payload: seq<Saved>) {
    forall i :: 0 <= i < |payload| ==> NoRepeats(payload[i].transfers)
  }

  function CountTransfers(payload: seq<Saved>): nat {
    if payload == [] then 0 else CountTransfers(payload[..|payload| - 1]) + |payload[|payload| - 1].transfers|
  }

  lemma {:induction false} RowsDistinctIff(owner: Address, payload: seq<Saved>)
    requires Extracted(payload)
    ensures |T.AllRows(owner, payload)| == CountTransfers(payload)
    ensures NoRepeats(T.AllRows(owner, payload)) <==> NoneRepeats(payload)
  {
    if payload != [] {
      var n := |payload| - 1;
      var before, last := T.AllRows(owner, payload[..n]), T.RowsOf(owner, payload[n]);
      RowsDistinctIff(owner, payload[..n]);
      OwnRowsDistinctIff(owner, payload[n]);
      NoneRepeatsStep(payload);
      forall r | r in last
        ensures r !in before
      {
        if r in before {
          EarlierRowDiffers(owner, payload, r, r);
        }
      }
      if NoneRepeats(payload) {
        NoRepeatsConcat(before, last);
      } else {
        RepeatsConcat(before, last);
      }
    }
  }

  lemma NoneRepeatsStep(payload: seq<Saved>)
    requires payload != []
    ensures NoneRepeats(payload) <==>
            NoneRepeats(payload[..|payload| - 1]) && NoRepeats(payload[|payload| - 1].transfers)
  {
    var n := |payload| - 1;
    assert forall i :: 0 <= i < n ==> payload[..n][i] == payload[i];
  }

  lemma OwnRowsDistinctIff(owner: Address, saved: Saved)
    ensures NoRepeats(T.RowsOf(owner, saved)) <==> NoRepeats(saved.transfers)
  {
    var rows := T.RowsOf(owner, saved);
    forall i, j | 0 <= i < j < |rows|
      ensures rows[i] == rows[j] <==> saved.transfers[i] == saved.transfers[j]
    {
    }
  }

  lemma NoneRepeatsIffApart(payload: seq<Saved>)
    requires Extracted(payload)
    ensures NoneRepeats(payload) <==> AllApart(payload)
  {
    forall i | 0 <= i < |payload|
      ensures NoRepeats(payload[i].transfers) <==> TransfersApart(payload[i].info)
    {
      TransfersDistinctIff(payload[i].info);
    }
  }

  lemma EarlierRowDiffers(owner: Address, payload: seq<Saved>, r: T.TransferRow, last: T.TransferRow)
    requires payload != [] && Extracted(payload)
    requires r in T.AllRows(owner, payload[..|payload| - 1]) && last in T.RowsOf(owner, payload[|payload| - 1])
    ensures r != last
  {
    var n := |payload| - 1;
    StorageSafety.AllRowsMembers(owner, payload[..n], r);
    var m :| 0 <= m < n && r in T.RowsOf(owner, payload[..n][m]);
    assert r.signature == RowSignature(payload[m].info);
  }

  /** Nothing is stored yet for the signatures of the payload. */
  ghost predicate FirstSave(transfers: set<T.TransferRow>, owner: Address, payload: seq<Saved>) {
    forall r :: r in transfers && r.trackedOwner == owner ==>
      forall i :: 0 <= i < |payload| ==> r.signature != RowSignature(payload[i].info)
  }

  /**
   * The first save of a payload adds at most one row per transfer, and exactly one, so that no transfer is lost
   * to the natural unique index, if and only if in every transaction slots that share an index pair read
   * differently. By SecondSaveInsertsNothing a repeat adds none.
   */
  lemma FirstSaveInsertsEveryTransferIff(transfers: set<T.TransferRow>, owner: Address, payload: seq<Saved>)
    requires Extracted(payload) && FirstSave(transfers, owner, payload)
    ensures |T.InsertTransfers(transfers, owner, payload)| <= |transfers| + CountTransfers(payload)
    ensures |T.InsertTransfers(transfers, owner, payload)| == |transfers| + CountTransfers(payload) <==>
            AllApart(payload)
  {
    RowsDistinctIff(owner, payload);
    NoneRepeatsIffApart(payload);
    MemberCount(T.AllRows(owner, payload));
    FirstSaveCount(transfers, owner, payload);
  }

  /** The first save adds one row per distinct transfer row. */
  lemma FirstSaveCount(transfers: set<T.TransferRow>, owner: Address, payload: seq<Saved>)
    requires FirstSave(transfers, owner, payload)
    ensures |T.InsertTransfers(transfers, owner, payload)| == |transfers| + |set r | r in T.AllRows(owner, payload)|
  {
    var rows := set r | r in T.AllRows(owner, payload);
    forall r | r in rows
      ensures r !in transfers
    {
      StorageSafety.AllRowsMembers(owner, payload, r);
    }
    assert transfers !! rows;
    assert T.InsertTransfers(transfers, owner, payload) == transfers + rows;
    assert |transfers + rows| == |transfers| + |rows|;
  }

  /** Fitting indices, which a caller can check without reading an instruction, are enough. */
  lemma FittingIndicesLoseNothing(transfers: set<T.TransferRow>, owner: Address, payload: seq<Saved>)
    requires Extracted(payload) && FirstSave(transfers, owner, payload)
    requires forall i :: 0 <= i < |payload| ==> IndicesFit(payload[i].info)
    ensures |T.InsertTransfers(transfers, owner, payload)| == |transfers| + CountTransfers(payload)
  {
    forall i | 0 <= i < |payload|
      ensures TransfersApart(payload[i].info)
    {
      TransfersDistinct(payload[i].info);
    }
    FirstSaveInsertsEveryTransferIff(transfers, owner, payload);
  }

  function Transfer(lamports: u64): Instruction {
    Instruction(
      Some(ParsedInstruction(ParsedInfo(None, None, None, None, None, None, Some(lamports), None, None, None),
          "transfer")),
      Some("system"), None)
  }

  /** Two inner groups that share an index, each with the same native transfer. */
  function SharedIndex(signature: Sig): TransactionInfo {
    var group := InnerInstructions(0, [Transfer(1)]);
    TransactionInfo(0, 0, Meta(0, 0, "", None, [group, group], [], []),
                    Transaction([signature], AccountKeys([], [], None)))
  }

  /** Without distinct group indices a transfer can be lost: two transfers, one row. */
  lemma SharedIndexLosesTransfer(owner: Address, signature: Sig)
    ensures !IndicesFit(SharedIndex(signature))
    ensures var info := SharedIndex(signature);
            |TransfersOf(info)| == 2 && |T.InsertTransfers({}, owner, [Saved(info, TransfersOf(info))])| == 1
  {
    var info := SharedIndex(signature);
    var group := InnerInstructions(0, [Transfer(1)]);
    assert info.meta.innerInstructions[0].index == info.meta.innerInstructions[1].index;
    assert Slots(info) == GroupSlots(group) + GroupSlots(group) by {
      assert [group, group][..1] == [group] && [group][..0] == [];
      assert InnerSlots([group, group]) == InnerSlots([group]) + GroupSlots(group);
      assert InnerSlots([group]) == GroupSlots(group);
    }
    var slot := GroupSlots(group)[0];
    assert Slots(info) == [slot, slot];
    var meta := BuildMeta(AllAccountKeys(info), Balances(info));
    var change := SlotTransfer(slot, meta).value;
    assert [slot, slot][..1] == [slot] && [slot][..0] == [];
    assert FilterMap([slot], meta) == [change];
    assert TransfersOf(info) == [change, change];
    var saved := Saved(info, [change, change]);
    assert [saved][..0] == [];
    assert T.AllRows(owner, [saved]) == T.RowsOf(owner, saved);
    var row := T.TransferRowOf(owner, info, change);
    assert T.RowsOf(owner, saved) == [row, row];
    assert T.InsertTransfers({}, owner, [saved]) == {row};
  }

  // ---------- The response must name the requested signature ----------

  /**
   * The transactions row is keyed by the response, the mark by the request. After saving one fetched
   * transaction for a requested signature that had no row, its transactions row is there exactly when the
   * response carries that signature first.
   */
  lemma RowFollowsResponse(txs: map<T.Key, T.TxRow>, owner: Address, requested: Sig, saved: Saved)
    requires T.Key(owner, requested) !in txs
    ensures T.Key(owner, requested) in T.InsertTransactions(txs, owner, [saved]) <==>
            RowSignature(saved.info) == requested
  {
    assert [saved][..0] == [];
    assert T.InsertTransactions(txs, owner, []) == txs;
  }
}
