/** Leases: exclusion in time, over every run of the protocol. */
module LeaseSafety {
  import opened Wrappers
  import opened TransactionTypes
  import opened Tables
  import opened Protocol

  /** Successive leases of one row are more than five minutes apart, and none lies in the future. */
  predicate Spaced(history: seq<Lease>, now: int) {
    && (forall i :: 0 <= i < |history| ==> history[i].at <= now)
    && (forall i, j :: 0 <= i < j < |history| ==> history[j].at - history[i].at > LEASE_SECONDS)
  }

  /** The row shows its last lease until it is processed; a processed row has had no lease since it was marked. */
  ghost predicate RowAgrees(s: State, k: Key)
    requires k in s.t.signatures
  {
    var row, history := s.t.signatures[k], s.LeasesOf(k);
    if row.isProcessed then
      k in s.marks && s.marks[k].leases == |history|
    else
      && k !in s.marks
      && (history == [] ==> !row.isProcessing)
      && (history != [] ==> row.isProcessing && row.startedAt == Some(history[|history| - 1].at))
  }

  ghost predicate KeyAgrees(s: State, k: Key) {
    && Spaced(s.LeasesOf(k), s.now)
    && (k in s.t.signatures ==> RowAgrees(s, k))
    && (k !in s.t.signatures ==> s.LeasesOf(k) == [] && k !in s.marks)
  }

  ghost predicate LeaseInv(s: State) {
    forall k :: KeyAgrees(s, k)
  }

  /** Whoever works on a batch holds a recorded lease on each of its rows. */
  ghost predicate HoldInv(s: State) {
    forall w, sig :: s.Of(w).Holds() && sig in s.Of(w).batch ==>
      Lease(w, s.Of(w).at) in s.LeasesOf(Key(s.Of(w).job.address, sig))
  }

  // ---------- Each step ----------

  lemma WriteKeepsLeases(s: State, w: Worker, page: seq<Signature>, rpcNow: int, last: bool)
    requires LeaseInv(s) && s.Of(w).Paging?
    ensures LeaseInv(DoWritePage(s, w, page, rpcNow, last))
  {
    var s', job := DoWritePage(s, w, page, rpcNow, last), s.Of(w).job;
    InsertedRows(s.t.signatures, job.address,
        Pagination.RecentPart(page, Pagination.Cutoff(job.requestedHours, rpcNow)));
    forall k
      ensures KeyAgrees(s', k)
    {
      assert s'.LeasesOf(k) == s.LeasesOf(k) && KeyAgrees(s, k);
    }
  }

  /** The lease condition leaves more than five minutes since any earlier lease of the row. */
  lemma ClaimableIsSpaced(s: State, k: Key, w: Worker)
    requires LeaseInv(s) && k in s.t.signatures && ClaimableRow(s.t.signatures[k], s.now)
    ensures Spaced(s.LeasesOf(k) + [Lease(w, s.now)], s.now)
  {
    var history := s.LeasesOf(k);
    assert KeyAgrees(s, k);
    if history != [] {
      assert history[|history| - 1].at < s.now - LEASE_SECONDS;
    }
  }

  /** The lease statement, row by row. */
  lemma TakeEffect(s: State, w: Worker, batch: seq<Sig>, k: Key)
    requires s.Of(w).Leasing? && batch != []
    ensures var s', leased := DoTakeBatch(s, w, batch), k in s.t.signatures && InBatch(k, s.Of(w).job.address, batch);
            && s'.LeasesOf(k) == (if leased then s.LeasesOf(k) + [Lease(w, s.now)] else s.LeasesOf(k))
            && (k in s'.t.signatures <==> k in s.t.signatures)
            && (leased ==> s'.t.signatures[k] == s.t.signatures[k].(isProcessing := true, startedAt := Some(s.now)))
            && (k in s.t.signatures && !leased ==> s'.t.signatures[k] == s.t.signatures[k])
            && s'.marks == s.marks && s'.now == s.now
  {
  }

  lemma TakeKeepsKey(s: State, w: Worker, batch: seq<Sig>, k: Key)
    requires LeaseInv(s) && Enabled(s, TakeBatch(w, batch)) && batch != []
    ensures KeyAgrees(DoTakeBatch(s, w, batch), k)
  {
    TakeEffect(s, w, batch, k);
    assert KeyAgrees(s, k);
    if k in s.t.signatures && InBatch(k, s.Of(w).job.address, batch) {
      assert k == Key(s.Of(w).job.address, k.signature) && k in Claimable(s.t.signatures, s.Of(w).job.address, s.now);
      ClaimableIsSpaced(s, k, w);
    }
  }

  lemma TakeKeepsLeases(s: State, w: Worker, batch: seq<Sig>)
    requires LeaseInv(s) && Enabled(s, TakeBatch(w, batch))
    ensures LeaseInv(DoTakeBatch(s, w, batch))
  {
    if batch == [] {
      HistoryKeepsLeases(s, DoTakeBatch(s, w, batch));
    } else {
      forall k
        ensures KeyAgrees(DoTakeBatch(s, w, batch), k)
      {
        TakeKeepsKey(s, w, batch, k);
      }
    }
  }

  lemma MarkKeepsLeases(s: State, w: Worker)
    requires LeaseInv(s) && s.Of(w).Marking? && |s.Of(w).fetch.processed| == |s.Of(w).fetch.payload|
    ensures LeaseInv(DoMark(s, w))
  {
    var s', g := DoMark(s, w), s.Of(w);
    forall k
      ensures KeyAgrees(s', k)
    {
      assert s'.LeasesOf(k) == s.LeasesOf(k) && KeyAgrees(s, k);
    }
  }

  ghost predicate SameHistory(s: State, s': State) {
    s'.t.signatures == s.t.signatures && s'.leases == s.leases && s'.marks == s.marks && s'.now >= s.now
  }

  lemma HistoryKeepsLeases(s: State, s': State)
    requires LeaseInv(s) && SameHistory(s, s')
    ensures LeaseInv(s')
  {
    forall k
      ensures KeyAgrees(s', k)
    {
      assert s'.LeasesOf(k) == s.LeasesOf(k) && KeyAgrees(s, k);
    }
  }

  /** Fetched data lines up; kept from the moment it is received. */
  ghost predicate FetchInv(s: State) {
    forall w :: s.Of(w).HasFetch() ==> IsFetch(s.Of(w).batch, s.Of(w).fetch)
  }

  lemma OldFetch(s: State, step: Step, v: Worker)
    requires Enabled(s, step) && Apply(s, step).Of(v).HasFetch() && !(step.Receive? && step.w == v)
    ensures s.Of(v).HasFetch() && s.Of(v).batch == Apply(s, step).Of(v).batch
            && s.Of(v).fetch == Apply(s, step).Of(v).fetch
    ensures s.Of(v).job == Apply(s, step).Of(v).job
  {
    if LocalStep(step) {
      LocalStepMoves(s, step);
    }
  }

  lemma StepKeepsFetches(s: State, step: Step)
    requires FetchInv(s) && Enabled(s, step)
    ensures FetchInv(Apply(s, step))
  {
    forall v | Apply(s, step).Of(v).HasFetch()
      ensures IsFetch(Apply(s, step).Of(v).batch, Apply(s, step).Of(v).fetch)
    {
      if !(step.Receive? && step.w == v) {
        OldFetch(s, step, v);
      }
    }
  }

  lemma StepKeepsLeases(s: State, step: Step)
    requires LeaseInv(s) && FetchInv(s) && Enabled(s, step)
    ensures LeaseInv(Apply(s, step))
  {
    match step
    case WritePage(w, page, rpcNow, last) => WriteKeepsLeases(s, w, page, rpcNow, last);
    case TakeBatch(w, batch) => TakeKeepsLeases(s, w, batch);
    case MarkProcessed(w) => MarkKeepsLeases(s, w);
    case _ => HistoryKeepsLeases(s, Apply(s, step));
  }

  /** Lease records are never lost. */
  lemma StepKeepsRecords(s: State, step: Step)
    requires LeaseInv(s) && Enabled(s, step)
    ensures forall k :: s.LeasesOf(k) <= Apply(s, step).LeasesOf(k)
  {
  }

  lemma StepKeepsHolds(s: State, step: Step)
    requires LeaseInv(s) && HoldInv(s) && Enabled(s, step)
    ensures HoldInv(Apply(s, step))
  {
    var s' := Apply(s, step);
    StepKeepsRecords(s, step);
    forall v, sig | s'.Of(v).Holds() && sig in s'.Of(v).batch
      ensures Lease(v, s'.Of(v).at) in s'.LeasesOf(Key(s'.Of(v).job.address, sig))
    {
      var k := Key(s'.Of(v).job.address, sig);
      if step.TakeBatch? && step.w == v {
        assert k in Claimable(s.t.signatures, s.Of(v).job.address, s.now);
        assert s'.LeasesOf(k) == s.LeasesOf(k) + [Lease(v, s.now)];
      } else {
        OldHold(s, step, v);
        assert Lease(v, s.Of(v).at) in s.LeasesOf(k);
      }
    }
  }

  lemma OldHold(s: State, step: Step, v: Worker)
    requires Enabled(s, step) && Apply(s, step).Of(v).Holds() && !(step.TakeBatch? && step.w == v)
    ensures s.Of(v).Holds() && s.Of(v).batch == Apply(s, step).Of(v).batch
    ensures s.Of(v).at == Apply(s, step).Of(v).at && s.Of(v).job == Apply(s, step).Of(v).job
  {
    if LocalStep(step) {
      LocalStepMoves(s, step);
    }
  }

  lemma {:induction false} RunKeepsLeases(s: State, steps: seq<Step>)
    requires LeaseInv(s) && FetchInv(s) && HoldInv(s) && IsRun(s, steps)
    ensures LeaseInv(After(s, steps)) && FetchInv(After(s, steps)) && HoldInv(After(s, steps))
    decreases |steps|
  {
    if steps != [] {
      var before, step := After(s, steps[..|steps| - 1]), steps[|steps| - 1];
      RunKeepsLeases(s, steps[..|steps| - 1]);
      StepKeepsLeases(before, step);
      StepKeepsFetches(before, step);
      StepKeepsHolds(before, step);
    }
  }

  // ---------- Whole runs ----------

  /**
   * In every run, any two leases of one row are more than five minutes apart, and a processed row has
   * exactly the leases it had when it was marked: nobody leases it afterwards.
   */
  lemma LeasesExcludeEachOther(now: int, steps: seq<Step>)
    requires IsRun(Init(now), steps)
    ensures var s := After(Init(now), steps);
            && (forall k, i, j :: 0 <= i < j < |s.LeasesOf(k)| ==>
                  s.LeasesOf(k)[j].at - s.LeasesOf(k)[i].at > 300)
            && (forall k :: k in s.t.signatures && s.t.signatures[k].isProcessed ==>
                  k in s.marks && s.marks[k].leases == |s.LeasesOf(k)|)
  {
    RunKeepsLeases(Init(now), steps);
    var s := After(Init(now), steps);
    forall k, i, j | 0 <= i < j < |s.LeasesOf(k)|
      ensures s.LeasesOf(k)[j].at - s.LeasesOf(k)[i].at > 300
    {
      assert KeyAgrees(s, k);
    }
    forall k | k in s.t.signatures && s.t.signatures[k].isProcessed
      ensures k in s.marks && s.marks[k].leases == |s.LeasesOf(k)|
    {
      assert KeyAgrees(s, k);
    }
  }

  /**
   * Two workers may hold the same row only if the older of their leases has run out: while both leases
   * are live, their batches are disjoint.
   */
  lemma LiveBatchesDisjoint(now: int, steps: seq<Step>, v: Worker, w: Worker, sig: Sig)
    requires IsRun(Init(now), steps)
    requires var s := After(Init(now), steps);
             && v != w && s.Of(v).Holds() && s.Of(w).Holds() && s.Of(v).job.address == s.Of(w).job.address
             && sig in s.Of(v).batch && sig in s.Of(w).batch
    ensures var s := After(Init(now), steps);
            s.now - s.Of(v).at > 300 || s.now - s.Of(w).at > 300
  {
    var s := After(Init(now), steps);
    RunKeepsLeases(Init(now), steps);
    var history := s.LeasesOf(Key(s.Of(v).job.address, sig));
    assert KeyAgrees(s, Key(s.Of(v).job.address, sig));
    assert Lease(v, s.Of(v).at) in history && Lease(w, s.Of(w).at) in history;
    var i :| 0 <= i < |history| && history[i] == Lease(v, s.Of(v).at);
    var j :| 0 <= j < |history| && history[j] == Lease(w, s.Of(w).at);
    assert i != j;
  }

  /**
   * In every run, a row can be leased exactly when it has not been marked and either nobody has leased it yet or its
   * last lease is more than five minutes old.
   */
  lemma ClaimableIffLeaseOver(now: int, steps: seq<Step>, k: Key)
    requires IsRun(Init(now), steps) && k in After(Init(now), steps).t.signatures
    ensures var s := After(Init(now), steps);
            var history := s.LeasesOf(k);
            k in Claimable(s.t.signatures, k.owner, s.now) <==>
              k !in s.marks && (history == [] || s.now - history[|history| - 1].at > 300)
  {
    RunKeepsLeases(Init(now), steps);
    assert KeyAgrees(After(Init(now), steps), k);
  }
}
