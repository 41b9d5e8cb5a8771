/** Retries converge and `ready` means done, over every run of the protocol. */
module Convergence {
  import opened TransactionTypes
  import opened Transfers
  import opened Pagination
  import opened Tables
  import opened Protocol
  import opened LeaseSafety
  import opened StorageSafety

  /** The RPC's fixed answer for every signature. */
  type Answer = Sig -> TransactionInfo

  function Ideal(answer: Answer, sig: Sig): Saved {
    Saved(answer(sig), TransfersOf(answer(sig)))
  }

  /** The tables of one crash-free run over a set of signature rows. */
  function IdealTransactions(keys: set<Key>, answer: Answer): map<Key, TxRow> {
    map k | k in keys :: TxRowOf(answer(k.signature))
  }

  function IdealTransfers(keys: set<Key>, answer: Answer): set<TransferRow> {
    set k, r | k in keys && r in RowsOf(k.owner, Ideal(answer, k.signature)) :: r
  }

  ghost predicate FromAnswer(f: Fetch, answer: Answer) {
    |f.payload| == |f.processed| && forall i :: 0 <= i < |f.payload| ==> f.payload[i].info == answer(f.processed[i])
  }

  /** Whenever this step receives a transaction, it is the fixed answer. */
  ghost predicate FixedAnswer(step: Step, answer: Answer) {
    step.Receive? ==> FromAnswer(step.fetch, answer)
  }

  ghost predicate AnswersFixed(steps: seq<Step>, answer: Answer) {
    forall i :: 0 <= i < |steps| ==> FixedAnswer(steps[i], answer)
  }

  /** Every stored row belongs to a signature row and is what the answer for it yields. */
  ghost predicate TablesIdeal(t: Tables, answer: Answer) {
    && (forall k :: k in t.transactions ==> k in t.signatures && t.transactions[k] == TxRowOf(answer(k.signature)))
    && (forall r :: r in t.transfers ==>
          Key(r.trackedOwner, r.signature) in t.signatures && r in RowsOf(r.trackedOwner, Ideal(answer, r.signature)))
  }

  ghost predicate IdealInv(s: State, answer: Answer) {
    && TablesIdeal(s.t, answer)
    && (forall w :: s.Of(w).HasFetch() ==> FromAnswer(s.Of(w).fetch, answer))
    && (forall k :: k in s.marks ==> s.marks[k].saved.info == answer(k.signature))
  }

  /** A fetched signature has a row: its worker holds a lease on it. */
  lemma FetchedHasRow(s: State, w: Worker, sig: Sig)
    requires DataInv(s) && s.Of(w).HasFetch() && sig in s.Of(w).fetch.processed
    ensures Key(s.Of(w).job.address, sig) in s.t.signatures
  {
    assert IsFetch(s.Of(w).batch, s.Of(w).fetch);
    assert Lease(w, s.Of(w).at) in s.LeasesOf(Key(s.Of(w).job.address, sig));
    assert KeyAgrees(s, Key(s.Of(w).job.address, sig));
  }

  lemma SaveTransactionsIdeal(s: State, w: Worker, answer: Answer)
    requires DataInv(s) && IdealInv(s, answer) && s.Of(w).Saving?
    ensures TablesIdeal(DoSaveTransactions(s, w).t, answer)
  {
    var g := s.Of(w);
    assert IsFetch(g.batch, g.fetch);
    InsertedTransactions(s.t.transactions, g.job.address, g.fetch.payload);
    var rows' := DoSaveTransactions(s, w).t.transactions;
    forall k | k in rows' && k !in s.t.transactions
      ensures k in s.t.signatures && rows'[k] == TxRowOf(answer(k.signature))
    {
      var i :| 0 <= i < |g.fetch.payload| && k == Key(g.job.address, RowSignature(g.fetch.payload[i].info))
               && rows'[k] == TxRowOf(g.fetch.payload[i].info);
      FetchedHasRow(s, w, g.fetch.processed[i]);
    }
  }

  lemma SavedTransferIdeal(s: State, w: Worker, answer: Answer, r: TransferRow)
    requires DataInv(s) && IdealInv(s, answer) && s.Of(w).SavingTransfers?
    requires r in AllRows(s.Of(w).job.address, s.Of(w).fetch.payload)
    ensures Key(r.trackedOwner, r.signature) in s.t.signatures
            && r in RowsOf(r.trackedOwner, Ideal(answer, r.signature))
  {
    var owner, f := s.Of(w).job.address, s.Of(w).fetch;
    assert IsFetch(s.Of(w).batch, f);
    AllRowsMembers(owner, f.payload, r);
    var i :| 0 <= i < |f.payload| && r in RowsOf(owner, f.payload[i]);
    assert f.payload[i] == Ideal(answer, f.processed[i]);
    FetchedHasRow(s, w, f.processed[i]);
  }

  lemma SaveTransfersIdeal(s: State, w: Worker, answer: Answer)
    requires DataInv(s) && IdealInv(s, answer) && s.Of(w).SavingTransfers?
    ensures TablesIdeal(DoSaveTransfers(s, w).t, answer)
  {
    forall r | r in AllRows(s.Of(w).job.address, s.Of(w).fetch.payload)
      ensures Key(r.trackedOwner, r.signature) in s.t.signatures
              && r in RowsOf(r.trackedOwner, Ideal(answer, r.signature))
    {
      SavedTransferIdeal(s, w, answer, r);
    }
  }

  lemma OtherStepsStoreNothing(s: State, step: Step)
    requires Enabled(s, step) && !step.SaveTransactions? && !step.SaveTransfers?
    ensures Apply(s, step).t.transactions == s.t.transactions && Apply(s, step).t.transfers == s.t.transfers
  {
  }

  /** Steps that store no transaction data keep what is stored, and keep its signature rows. */
  lemma OtherStepsIdeal(t: Tables, t': Tables, answer: Answer)
    requires TablesIdeal(t, answer) && t'.transactions == t.transactions && t'.transfers == t.transfers
    requires KeepsProcessed(t, t')
    ensures TablesIdeal(t', answer)
  {
  }

  lemma StepKeepsTablesIdeal(s: State, step: Step, answer: Answer)
    requires DataInv(s) && IdealInv(s, answer) && Enabled(s, step)
    ensures TablesIdeal(Apply(s, step).t, answer)
  {
    match step
    case SaveTransactions(w) => SaveTransactionsIdeal(s, w, answer);
    case SaveTransfers(w) => SaveTransfersIdeal(s, w, answer);
    case _ =>
      OtherStepsStoreNothing(s, step);
      StepKeepsProcessed(s, step);
      OtherStepsIdeal(s.t, Apply(s, step).t, answer);
  }

  lemma StepKeepsMarksIdeal(s: State, step: Step, answer: Answer, k: Key)
    requires DataInv(s) && IdealInv(s, answer) && Enabled(s, step) && k in Apply(s, step).marks
    ensures Apply(s, step).marks[k].saved.info == answer(k.signature)
  {
    MarksChange(s, step, k);
    if k !in s.marks {
      PayloadOfMember(s.Of(step.w).fetch, k.signature);
    }
  }

  lemma StepKeepsFetchesIdeal(s: State, step: Step, answer: Answer, v: Worker)
    requires IdealInv(s, answer) && Enabled(s, step) && FixedAnswer(step, answer) && Apply(s, step).Of(v).HasFetch()
    ensures FromAnswer(Apply(s, step).Of(v).fetch, answer)
  {
    if !(step.Receive? && step.w == v) {
      OldFetch(s, step, v);
    }
  }

  lemma StepKeepsIdeal(s: State, step: Step, answer: Answer)
    requires DataInv(s) && IdealInv(s, answer) && Enabled(s, step) && FixedAnswer(step, answer)
    ensures IdealInv(Apply(s, step), answer)
  {
    StepKeepsTablesIdeal(s, step, answer);
    forall k | k in Apply(s, step).marks
      ensures Apply(s, step).marks[k].saved.info == answer(k.signature)
    {
      StepKeepsMarksIdeal(s, step, answer, k);
    }
    forall v | Apply(s, step).Of(v).HasFetch()
      ensures FromAnswer(Apply(s, step).Of(v).fetch, answer)
    {
      StepKeepsFetchesIdeal(s, step, answer, v);
    }
  }

  lemma {:induction false} RunKeepsIdeal(s: State, steps: seq<Step>, answer: Answer)
    requires DataInv(s) && IdealInv(s, answer) && IsRun(s, steps) && AnswersFixed(steps, answer)
    ensures DataInv(After(s, steps)) && IdealInv(After(s, steps), answer)
    decreases |steps|
  {
    RunKeepsData(s, steps);
    if steps != [] {
      var prefix := steps[..|steps| - 1];
      RunKeepsIdeal(s, prefix, answer);
      StepKeepsIdeal(After(s, prefix), steps[|steps| - 1], answer);
    }
  }

  ghost predicate AllProcessed(t: Tables) {
    forall k :: k in t.signatures ==> t.signatures[k].isProcessed
  }

  /** The stored data is a part of the ideal tables for a set of signature rows. */
  ghost predicate PartOfIdeal(t: Tables, keys: set<Key>, answer: Answer) {
    && (forall k :: k in t.transactions ==>
          k in IdealTransactions(keys, answer) && t.transactions[k] == IdealTransactions(keys, answer)[k])
    && t.transfers <= IdealTransfers(keys, answer)
  }

  /**
   * With a fixed answer per signature, whatever the crashes, expired leases, repeated saves and overlapping
   * jobs: the stored data is always part of the ideal tables, and equal to them once every row is processed.
   */
  lemma RetriesConverge(now: int, steps: seq<Step>, answer: Answer)
    requires IsRun(Init(now), steps) && AnswersFixed(steps, answer)
    ensures var t := After(Init(now), steps).t;
            && PartOfIdeal(t, t.signatures.Keys, answer)
            && (AllProcessed(t) ==>
                  && t.transactions == IdealTransactions(t.signatures.Keys, answer)
                  && t.transfers == IdealTransfers(t.signatures.Keys, answer))
  {
    RunKeepsIdeal(Init(now), steps, answer);
    var s := After(Init(now), steps);
    IdealContains(s.t, answer);
    if AllProcessed(s.t) {
      forall k | k in s.t.signatures
        ensures Stored(s.t, k, Ideal(answer, k.signature))
      {
        MarkedOnlyAfterStored(now, steps, k);
        assert s.marks[k].saved == Ideal(answer, k.signature);
      }
      StoredIsIdeal(s.t, answer);
    }
  }

  lemma IdealContains(t: Tables, answer: Answer)
    requires TablesIdeal(t, answer)
    ensures PartOfIdeal(t, t.signatures.Keys, answer)
  {
    forall r | r in t.transfers
      ensures r in IdealTransfers(t.signatures.Keys, answer)
    {
      var k := Key(r.trackedOwner, r.signature);
      assert k in t.signatures.Keys && r in RowsOf(k.owner, Ideal(answer, k.signature));
    }
  }

  lemma StoredIsIdeal(t: Tables, answer: Answer)
    requires TablesIdeal(t, answer)
    requires forall k :: k in t.signatures ==> Stored(t, k, Ideal(answer, k.signature))
    ensures t.transactions == IdealTransactions(t.signatures.Keys, answer)
    ensures t.transfers == IdealTransfers(t.signatures.Keys, answer)
  {
    IdealContains(t, answer);
    forall r | r in IdealTransfers(t.signatures.Keys, answer)
      ensures r in t.transfers
    {
      var k :| k in t.signatures.Keys && r in RowsOf(k.owner, Ideal(answer, k.signature));
      assert Stored(t, k, Ideal(answer, k.signature));
    }
  }

  /** Any two runs that processed the same signature rows hold the same data, whatever happened on the way. */
  lemma FinishedRunsAgree(now: int, steps: seq<Step>, now': int, steps': seq<Step>, answer: Answer)
    requires IsRun(Init(now), steps) && AnswersFixed(steps, answer)
    requires IsRun(Init(now'), steps') && AnswersFixed(steps', answer)
    requires var t, t' := After(Init(now), steps).t, After(Init(now'), steps').t;
             t.signatures.Keys == t'.signatures.Keys && AllProcessed(t) && AllProcessed(t')
    ensures var t, t' := After(Init(now), steps).t, After(Init(now'), steps').t;
            t.transactions == t'.transactions && t.transfers == t'.transfers
  {
    RetriesConverge(now, steps, answer);
    RetriesConverge(now', steps', answer);
  }

  /** Whatever a partial run has stored, every run that finished the same signature rows, or more, holds as well. */
  lemma PartialWithinFinished(now: int, steps: seq<Step>, now': int, steps': seq<Step>, answer: Answer)
    requires IsRun(Init(now), steps) && AnswersFixed(steps, answer)
    requires IsRun(Init(now'), steps') && AnswersFixed(steps', answer)
    requires var t, t' := After(Init(now), steps).t, After(Init(now'), steps').t;
             t.signatures.Keys <= t'.signatures.Keys && AllProcessed(t')
    ensures Grows(After(Init(now), steps).t, After(Init(now'), steps').t)
  {
    RetriesConverge(now, steps, answer);
    RetriesConverge(now', steps', answer);
    var t, t' := After(Init(now), steps).t, After(Init(now'), steps').t;
    MoreRowsMoreIdeal(t, t.signatures.Keys, t'.signatures.Keys, answer);
    assert t'.transactions == IdealTransactions(t'.signatures.Keys, answer);
  }

  lemma MoreRowsMoreIdeal(t: Tables, keys: set<Key>, keys': set<Key>, answer: Answer)
    requires keys <= keys' && PartOfIdeal(t, keys, answer)
    ensures PartOfIdeal(t, keys', answer)
  {
    forall r | r in t.transfers
      ensures r in IdealTransfers(keys', answer)
    {
      assert r in IdealTransfers(keys, answer);
    }
  }

  // ---------- `ready` means done ----------

  /** Signature rows keep their block time, and once processed they stay so. */
  ghost predicate KeepsProcessed(t: Tables, t': Tables) {
    forall k :: k in t.signatures ==>
      && k in t'.signatures && t'.signatures[k].blockTime == t.signatures[k].blockTime
      && (t.signatures[k].isProcessed ==> t'.signatures[k].isProcessed)
  }

  lemma StepKeepsProcessed(s: State, step: Step)
    requires Enabled(s, step)
    ensures KeepsProcessed(s.t, Apply(s, step).t)
  {
    match step
    case WritePage(w, page, rpcNow, last) => WriteKeepsProcessed(s, w, page, rpcNow, last);
    case TakeBatch(w, batch) => TakeKeepsProcessed(s, w, batch);
    case MarkProcessed(w) => MarkKeepsProcessed(s, w);
    case _ => OtherStepsKeepRows(s, step);
  }

  lemma WriteKeepsProcessed(s: State, w: Worker, page: seq<Signature>, rpcNow: int, last: bool)
    requires s.Of(w).Paging?
    ensures KeepsProcessed(s.t, DoWritePage(s, w, page, rpcNow, last).t)
  {
    var job := s.Of(w).job;
    InsertedRows(s.t.signatures, job.address, RecentPart(page, Cutoff(job.requestedHours, rpcNow)));
  }

  lemma TakeKeepsProcessed(s: State, w: Worker, batch: seq<Sig>)
    requires s.Of(w).Leasing?
    ensures KeepsProcessed(s.t, DoTakeBatch(s, w, batch).t)
  {
  }

  lemma MarkKeepsProcessed(s: State, w: Worker)
    requires s.Of(w).Marking?
    ensures KeepsProcessed(s.t, DoMark(s, w).t)
  {
  }

  lemma OtherStepsKeepRows(s: State, step: Step)
    requires Enabled(s, step) && !step.WritePage? && !step.TakeBatch? && !step.MarkProcessed?
    ensures Apply(s, step).t.signatures == s.t.signatures
  {
  }

  lemma {:induction false} RunKeepsProcessed(s: State, steps: seq<Step>)
    requires IsRun(s, steps)
    ensures KeepsProcessed(s.t, After(s, steps).t)
    decreases |steps|
  {
    if steps != [] {
      RunKeepsProcessed(s, steps[..|steps| - 1]);
      StepKeepsProcessed(After(s, steps[..|steps| - 1]), steps[|steps| - 1]);
    }
  }

  lemma BecomesReady(s: State, step: Step, id: JobId)
    requires Enabled(s, step)
    requires id in Apply(s, step).t.jobs && Apply(s, step).t.jobs[id].status == Ready
    requires !(id in s.t.jobs && s.t.jobs[id].status == Ready)
    ensures step.UpdateReady? && s.Of(step.w).job.jobId == id && CanUpdate(s.t, id, Ready)
  {
    if LocalStep(step) {
      LocalStepMoves(s, step);
    }
  }

  /**
   * A job that is ready became so at some step n, by the guarded update; every signature row then in its
   * window was processed at that instant and is processed in every later state of the run.
   */
  lemma {:induction false} ReadyMeansDone(now: int, steps: seq<Step>, id: JobId) returns (n: nat)
    requires IsRun(Init(now), steps)
    requires id in After(Init(now), steps).t.jobs && After(Init(now), steps).t.jobs[id].status == Ready
    ensures n < |steps| && steps[n].UpdateReady? && IsRun(Init(now), steps[..n]) && IsRun(Init(now), steps[..n + 1])
    ensures var before := After(Init(now), steps[..n]);
            before.Of(steps[n].w).Finishing? && before.Of(steps[n].w).job.jobId == id && CanUpdate(before.t, id, Ready)
    ensures var t := After(Init(now), steps[..n + 1]).t; id in t.jobs && t.jobs[id].status == Ready
    ensures forall m, k | n <= m <= |steps| && IsRun(Init(now), steps[..m])
                          && k in Window(After(Init(now), steps[..n]).t, id) ::
              var t := After(Init(now), steps[..m]).t; k in t.signatures && t.signatures[k].isProcessed
    decreases |steps|
  {
    var last := |steps| - 1;
    var before := After(Init(now), steps[..last]);
    if id in before.t.jobs && before.t.jobs[id].status == Ready {
      n := ReadyMeansDone(now, steps[..last], id);
      assert steps[..last][..n] == steps[..n] && steps[..last][..n + 1] == steps[..n + 1];
    } else {
      BecomesReady(before, steps[last], id);
      n := last;
      assert steps[..n + 1] == steps;
    }
    StaysDone(now, steps, n, id);
  }

  /** Rows that are processed in the window at step n exist and are processed from then on. */
  lemma StaysDone(now: int, steps: seq<Step>, n: nat, id: JobId)
    requires IsRun(Init(now), steps) && n <= |steps| && IsRun(Init(now), steps[..n])
    requires CanUpdate(After(Init(now), steps[..n]).t, id, Ready)
    ensures forall m, k | n <= m <= |steps| && IsRun(Init(now), steps[..m])
                          && k in Window(After(Init(now), steps[..n]).t, id) ::
              var t := After(Init(now), steps[..m]).t; k in t.signatures && t.signatures[k].isProcessed
  {
    forall m, k | n <= m <= |steps| && IsRun(Init(now), steps[..m]) && k in Window(After(Init(now), steps[..n]).t, id)
      ensures var t := After(Init(now), steps[..m]).t; k in t.signatures && t.signatures[k].isProcessed
    {
      RunSplit(Init(now), steps[..m], n);
      assert steps[..m][..n] == steps[..n];
      RunKeepsProcessed(After(Init(now), steps[..n]), steps[..m][n..]);
    }
  }
}
