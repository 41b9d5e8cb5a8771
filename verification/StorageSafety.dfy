/**
 * What is stored, over every run of the protocol: nothing is marked before it is stored, retries
 * converge, and `ready` means done.
 */
module StorageSafety {
  import opened TransactionTypes
  import opened Transfers
  import opened Tables
  import opened Protocol
  import opened LeaseSafety

  // ---------- Inserts ----------

  lemma {:induction false} InsertKeepsRows(rows: map<Key, TxRow>, owner: Address, payload: seq<Saved>, k: Key)
    requires k in rows
    ensures k in InsertTransactions(rows, owner, payload) && InsertTransactions(rows, owner, payload)[k] == rows[k]
  {
    if payload != [] {
      InsertKeepsRows(rows, owner, payload[..|payload| - 1], k);
    }
  }

  lemma {:induction false} InsertHasKey(rows: map<Key, TxRow>, owner: Address, payload: seq<Saved>, i: nat)
    requires i < |payload|
    ensures Key(owner, RowSignature(payload[i].info)) in InsertTransactions(rows, owner, payload)
  {
    if i < |payload| - 1 {
      InsertHasKey(rows, owner, payload[..|payload| - 1], i);
    }
  }

  lemma {:induction false} InsertOrigin(rows: map<Key, TxRow>, owner: Address, payload: seq<Saved>, k: Key)
    returns (i: nat)
    requires k in InsertTransactions(rows, owner, payload) && k !in rows
    ensures i < |payload| && k == Key(owner, RowSignature(payload[i].info))
    ensures InsertTransactions(rows, owner, payload)[k] == TxRowOf(payload[i].info)
  {
    var n := |payload| - 1;
    if k in InsertTransactions(rows, owner, payload[..n]) {
      i := InsertOrigin(rows, owner, payload[..n], k);
    } else {
      i := n;
    }
  }

  lemma {:induction false} InsertedTransactions(rows: map<Key, TxRow>, owner: Address, payload: seq<Saved>)
    ensures var rows' := InsertTransactions(rows, owner, payload);
            && (forall k :: k in rows ==> k in rows' && rows'[k] == rows[k])
            && (forall i :: 0 <= i < |payload| ==> Key(owner, RowSignature(payload[i].info)) in rows')
            && (forall k :: k in rows' && k !in rows ==>
                  exists i :: 0 <= i < |payload| && k == Key(owner, RowSignature(payload[i].info))
                              && rows'[k] == TxRowOf(payload[i].info))
  {
    var rows' := InsertTransactions(rows, owner, payload);
    forall k | k in rows
      ensures k in rows' && rows'[k] == rows[k]
    {
      InsertKeepsRows(rows, owner, payload, k);
    }
    forall i | 0 <= i < |payload|
      ensures Key(owner, RowSignature(payload[i].info)) in rows'
    {
      InsertHasKey(rows, owner, payload, i);
    }
    forall k | k in rows' && k !in rows
      ensures exists i :: 0 <= i < |payload| && k == Key(owner, RowSignature(payload[i].info))
                          && rows'[k] == TxRowOf(payload[i].info)
    {
      var i := InsertOrigin(rows, owner, payload, k);
    }
  }

  lemma {:induction false} AllRowsMembers(owner: Address, payload: seq<Saved>, r: TransferRow)
    ensures r in AllRows(owner, payload) <==> exists i :: 0 <= i < |payload| && r in RowsOf(owner, payload[i])
  {
    if payload != [] {
      var n := |payload| - 1;
      AllRowsMembers(owner, payload[..n], r);
      assert forall i :: 0 <= i < n ==> payload[..n][i] == payload[i];
    }
  }

  lemma {:induction false} PayloadOfMember(f: Fetch, sig: Sig)
    requires sig in f.processed && |f.processed| == |f.payload|
    ensures exists i :: 0 <= i < |f.payload| && f.processed[i] == sig && PayloadOf(f, sig) == f.payload[i]
    decreases |f.processed|
  {
    var n := |f.processed| - 1;
    if f.processed[n] != sig {
      var shorter := Fetch(f.processed[..n], f.payload[..n], f.failed);
      PayloadOfMember(shorter, sig);
      var i :| 0 <= i < |shorter.payload| && shorter.processed[i] == sig
          && PayloadOf(shorter, sig) == shorter.payload[i];
      assert f.processed[i] == sig && PayloadOf(f, sig) == f.payload[i];
    }
  }

  // ---------- Nothing is marked before it is stored ----------

  /** The transactions row of `k` and every transfer of the payload are in the tables of its owner. */
  ghost predicate Stored(t: Tables, k: Key, saved: Saved) {
    && k in t.transactions
    && saved.transfers == TransfersOf(saved.info)
    && (forall r :: r in RowsOf(k.owner, saved) ==>
          r in t.transfers && r.trackedOwner == k.owner && r.signature == k.signature)
  }

  ghost predicate HasTransactions(t: Tables, owner: Address, f: Fetch) {
    forall i :: 0 <= i < |f.processed| ==> Key(owner, f.processed[i]) in t.transactions
  }

  ghost predicate HasTransfers(t: Tables, owner: Address, f: Fetch) {
    forall i, r :: 0 <= i < |f.payload| && r in RowsOf(owner, f.payload[i]) ==> r in t.transfers
  }

  ghost predicate StoreInv(s: State) {
    && (forall k :: k in s.marks ==> Stored(s.t, k, s.marks[k].saved))
    && (forall w :: s.Of(w).SavingTransfers? || s.Of(w).Marking? ==>
          HasTransactions(s.t, s.Of(w).job.address, s.Of(w).fetch))
    && (forall w :: s.Of(w).Marking? ==> HasTransfers(s.t, s.Of(w).job.address, s.Of(w).fetch))
  }

  /** Stored rows are never removed. */
  ghost predicate Grows(t: Tables, t': Tables) {
    && (forall k :: k in t.transactions ==> k in t'.transactions && t'.transactions[k] == t.transactions[k])
    && t.transfers <= t'.transfers
  }

  lemma StepGrows(s: State, step: Step)
    requires Enabled(s, step)
    ensures Grows(s.t, Apply(s, step).t)
  {
    if step.SaveTransactions? {
      InsertedTransactions(s.t.transactions, s.Of(step.w).job.address, s.Of(step.w).fetch.payload);
    }
  }

  lemma GrowthKeepsStored(t: Tables, t': Tables, k: Key, saved: Saved)
    requires Grows(t, t') && Stored(t, k, saved)
    ensures Stored(t', k, saved)
  {
  }

  lemma SavedTransactions(s: State, w: Worker)
    requires FetchInv(s) && s.Of(w).Saving?
    ensures HasTransactions(DoSaveTransactions(s, w).t, s.Of(w).job.address, s.Of(w).fetch)
  {
    InsertedTransactions(s.t.transactions, s.Of(w).job.address, s.Of(w).fetch.payload);
  }

  lemma SavedTransfers(s: State, w: Worker)
    requires s.Of(w).SavingTransfers?
    ensures HasTransfers(DoSaveTransfers(s, w).t, s.Of(w).job.address, s.Of(w).fetch)
  {
    var owner, f := s.Of(w).job.address, s.Of(w).fetch;
    forall i, r | 0 <= i < |f.payload| && r in RowsOf(owner, f.payload[i])
      ensures r in InsertTransfers(s.t.transfers, owner, f.payload)
    {
      AllRowsMembers(owner, f.payload, r);
    }
  }

  /** The payload a worker marks a row with is stored by the time it marks it. */
  lemma MarkedIsStored(s: State, w: Worker, sig: Sig)
    requires FetchInv(s) && StoreInv(s) && s.Of(w).Marking? && sig in s.Of(w).fetch.processed
    ensures Stored(s.t, Key(s.Of(w).job.address, sig), PayloadOf(s.Of(w).fetch, sig))
  {
    var f := s.Of(w).fetch;
    assert IsFetch(s.Of(w).batch, f);
    PayloadOfMember(f, sig);
  }

  /** Marks are only added, by a worker that marks, with the payload it fetched. */
  lemma MarksChange(s: State, step: Step, k: Key)
    requires FetchInv(s) && Enabled(s, step) && k in Apply(s, step).marks
    ensures k in s.marks ==> Apply(s, step).marks[k] == s.marks[k]
    ensures k !in s.marks ==>
              && step.MarkProcessed? && k.owner == s.Of(step.w).job.address
                  && k.signature in s.Of(step.w).fetch.processed
              && Apply(s, step).marks[k].saved == PayloadOf(s.Of(step.w).fetch, k.signature)
  {
    if step.MarkProcessed? {
      assert IsFetch(s.Of(step.w).batch, s.Of(step.w).fetch);
    }
  }

  lemma StepKeepsMarksStored(s: State, step: Step, k: Key)
    requires FetchInv(s) && StoreInv(s) && Enabled(s, step) && k in Apply(s, step).marks
    ensures Stored(Apply(s, step).t, k, Apply(s, step).marks[k].saved)
  {
    MarksChange(s, step, k);
    StepGrows(s, step);
    if k !in s.marks {
      MarkedIsStored(s, step.w, k.signature);
    }
    GrowthKeepsStored(s.t, Apply(s, step).t, k, Apply(s, step).marks[k].saved);
  }

  lemma StepKeepsStored(s: State, step: Step)
    requires FetchInv(s) && StoreInv(s) && Enabled(s, step)
    ensures StoreInv(Apply(s, step))
  {
    var s' := Apply(s, step);
    forall k | k in s'.marks
      ensures Stored(s'.t, k, s'.marks[k].saved)
    {
      StepKeepsMarksStored(s, step, k);
    }
    StepGrows(s, step);
    forall v | s'.Of(v).SavingTransfers? || s'.Of(v).Marking?
      ensures HasTransactions(s'.t, s'.Of(v).job.address, s'.Of(v).fetch)
      ensures s'.Of(v).Marking? ==> HasTransfers(s'.t, s'.Of(v).job.address, s'.Of(v).fetch)
    {
      OldFetch(s, step, v);
      StageCameFrom(s, step, v);
      if step == SaveTransactions(v) {
        SavedTransactions(s, v);
      } else if step == SaveTransfers(v) {
        SavedTransfers(s, v);
      }
    }
  }

  lemma StageCameFrom(s: State, step: Step, v: Worker)
    requires Enabled(s, step)
    ensures Apply(s, step).Of(v).SavingTransfers? ==> s.Of(v).SavingTransfers? || step == SaveTransactions(v)
    ensures Apply(s, step).Of(v).Marking? ==> s.Of(v).Marking? || step == SaveTransfers(v)
  {
    if LocalStep(step) {
      LocalStepMoves(s, step);
    }
  }

  ghost predicate DataInv(s: State) {
    LeaseInv(s) && FetchInv(s) && HoldInv(s) && StoreInv(s)
  }

  lemma {:induction false} RunKeepsData(s: State, steps: seq<Step>)
    requires DataInv(s) && IsRun(s, steps)
    ensures DataInv(After(s, steps))
    decreases |steps|
  {
    if steps != [] {
      var before, step := After(s, steps[..|steps| - 1]), steps[|steps| - 1];
      RunKeepsData(s, steps[..|steps| - 1]);
      StepKeepsLeases(before, step);
      StepKeepsFetches(before, step);
      StepKeepsHolds(before, step);
      StepKeepsStored(before, step);
    }
  }

  /**
   * In every reachable state, whatever crashed and wherever, each processed row has its transactions row
   * and every transfer computed by the worker that marked it, all stored for the row's owner.
   */
  lemma MarkedOnlyAfterStored(now: int, steps: seq<Step>, k: Key)
    requires IsRun(Init(now), steps)
    requires k in After(Init(now), steps).t.signatures && After(Init(now), steps).t.signatures[k].isProcessed
    ensures var s := After(Init(now), steps);
            && k in s.marks && Stored(s.t, k, s.marks[k].saved)
  {
    RunKeepsData(Init(now), steps);
    assert KeyAgrees(After(Init(now), steps), k);
  }
}
