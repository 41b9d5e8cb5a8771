/**
 * src/requests/client.rs: fetching transactions, one signature with retries, a chunk, a whole batch.
 * The remote side is a stream of replies per requested position: `replies[i](a)` answers attempt a
 * (from 1) of the i-th request. `buffered` keeps the order of the requests.
 */
module Fetching {
  import opened Wrappers
  import opened TransactionTypes
  import opened Transfers

  const CHUNK_SIZE: nat := 10

  datatype RpcError = RpcError(code: int, message: string)

  datatype ResponseField = Missing | Null | Value(decoded: Option<TransactionInfo>)

  datatype RpcBody = Undecodable(message: string) | Envelope(error: Option<RpcError>, result: ResponseField)

  /** One HTTP exchange; `decoded` is None for a result value that is not a transaction. */
  datatype RpcReply = Unsent(message: string) | Http(status: nat, retryAfter: Option<nat>, body: RpcBody)

  datatype FetchError = FetchError(signature: Sig, statusCode: Option<nat>, rpcCode: Option<int>, message: string)

  datatype FetchAttempt =
    | Success(info: TransactionInfo)
    | RateLimited(error: FetchError, retryAfter: Option<nat>)
    | Fatal(error: FetchError)

  datatype Outcome = Fetched(signature: Sig, info: TransactionInfo) | Failed(error: FetchError)

  type Replies = nat -> RpcReply

  // ---------- Classification of one reply ----------

  function Lower(s: string): string {
    seq(|s|, i requires 0 <= i < |s| => if 'A' <= s[i] <= 'Z' then s[i] - 'A' + 'a' else s[i])
  }

  predicate Contains(text: string, part: string) {
    part <= text || (text != [] && Contains(text[1..], part))
  }

  predicate IsRateLimited(statusCode: Option<nat>, rpcCode: Option<int>, message: string) {
    || statusCode == Some(429)
    || rpcCode == Some(-32429)
    || Contains(Lower(message), "rate limit")
    || Contains(Lower(message), "rate-limited")
    || Contains(Lower(message), "too many requests")
  }

  function Classify(error: FetchError, retryAfter: Option<nat>): FetchAttempt {
    if IsRateLimited(error.statusCode, error.rpcCode, error.message) then RateLimited(error, retryAfter)
        else Fatal(error)
  }

  function TryFetchTransactionOnce(signature: Sig, reply: RpcReply): (attempt: FetchAttempt)
    ensures !attempt.Success? ==> attempt.error.signature == signature
  {
    match reply
    case Unsent(message) => Fatal(FetchError(signature, None, None, message))
    case Http(status, retryAfter, Undecodable(message)) =>
      Classify(FetchError(signature, Some(status), None, message), retryAfter)
    case Http(status, retryAfter, Envelope(Some(error), _)) =>
      Classify(FetchError(signature, Some(status), Some(error.code), error.message), retryAfter)
    case Http(status, _, Envelope(None, Missing)) =>
      Fatal(FetchError(signature, Some(status), None, "missing result field in rpc response"))
    case Http(status, _, Envelope(None, Null)) =>
      Fatal(FetchError(signature, Some(status), None, "rpc result is null"))
    case Http(status, _, Envelope(None, Value(None))) =>
      Fatal(FetchError(signature, Some(status), None, "failed to decode transaction result"))
    case Http(_, _, Envelope(None, Value(Some(info)))) => Success(info)
  }

  // ---------- The retry loop ----------

  /** The first attempt from `from` on that is not rate limited, or the last one the budget allows. */
  function Decisive(signature: Sig, replies: Replies, from: nat, maxRetries: nat): (a: nat)
    requires 1 <= from <= maxRetries + 1
    ensures from <= a <= maxRetries + 1
    decreases maxRetries + 1 - from
  {
    if from <= maxRetries && TryFetchTransactionOnce(signature, replies(from)).RateLimited?
    then Decisive(signature, replies, from + 1, maxRetries)
    else from
  }

  function OutcomeOf(signature: Sig, attempt: FetchAttempt): Outcome {
    if attempt.Success? then Fetched(signature, attempt.info) else Failed(attempt.error)
  }

  /** The whole retry loop in one line: the outcome of the decisive attempt. */
  function FetchSpec(signature: Sig, replies: Replies, maxRetries: nat): Outcome {
    OutcomeOf(signature, TryFetchTransactionOnce(signature, replies(Decisive(signature, replies, 1, maxRetries))))
  }

  /** Decisive, read as the source promises it. */
  lemma {:induction false} DecisiveIsFirstUndelayed(signature: Sig, replies: Replies, from: nat, maxRetries: nat)
    requires 1 <= from <= maxRetries + 1
    ensures var d := Decisive(signature, replies, from, maxRetries);
            && (forall a :: from <= a < d ==> TryFetchTransactionOnce(signature, replies(a)).RateLimited?)
            && (d <= maxRetries ==> !TryFetchTransactionOnce(signature, replies(d)).RateLimited?)
    decreases maxRetries + 1 - from
  {
    if from <= maxRetries && TryFetchTransactionOnce(signature, replies(from)).RateLimited? {
      DecisiveIsFirstUndelayed(signature, replies, from + 1, maxRetries);
    }
  }

  /** A fetch fails for a rate limit only when every attempt of the budget was rate limited, and with the last error. */
  lemma ExhaustedOnlyWhenAllLimited(signature: Sig, replies: Replies, maxRetries: nat)
    ensures var d := Decisive(signature, replies, 1, maxRetries);
            TryFetchTransactionOnce(signature, replies(d)).RateLimited? <==>
            forall a :: 1 <= a <= maxRetries + 1 ==> TryFetchTransactionOnce(signature, replies(a)).RateLimited?
    ensures (forall a :: 1 <= a <= maxRetries + 1 ==> TryFetchTransactionOnce(signature, replies(a)).RateLimited?) ==>
              FetchSpec(signature, replies, maxRetries)
              == Failed(TryFetchTransactionOnce(signature, replies(maxRetries + 1)).error)
  {
    DecisiveIsFirstUndelayed(signature, replies, 1, maxRetries);
  }

  /** A use of the shared cooldown: register_rate_limit with a hint, or the idle check after a success. */
  datatype CooldownCall = Register(retryAfter: Option<nat>) | ResetIfIdle

  /** What one fetch does to the cooldown: one registration per retried attempt, an idle check after a success. */
  ghost predicate CallsOf(signature: Sig, replies: Replies, maxRetries: nat, calls: seq<CooldownCall>) {
    var d := Decisive(signature, replies, 1, maxRetries);
    && |calls| == d - 1 + (if TryFetchTransactionOnce(signature, replies(d)).Success? then 1 else 0)
    && (forall a :: 1 <= a < d ==>
          var attempt := TryFetchTransactionOnce(signature, replies(a));
          attempt.RateLimited? && calls[a - 1] == Register(attempt.retryAfter))
    && (TryFetchTransactionOnce(signature, replies(d)).Success? ==> calls[d - 1] == ResetIfIdle)
  }

  class HeliusApi {
    const maxRateLimitRetries: nat
    // The uses of the shared cooldown, in order.
    var calls: seq<CooldownCall>

    constructor (maxRateLimitRetries: nat)
      ensures this.maxRateLimitRetries == maxRateLimitRetries && calls == []
    {
      this.maxRateLimitRetries := maxRateLimitRetries;
      calls := [];
    }

    method FetchTransactionBySignature(signature: Sig, replies: Replies) returns (outcome: Outcome)
      modifies this
      ensures outcome == FetchSpec(signature, replies, maxRateLimitRetries)
      ensures old(calls) <= calls && CallsOf(signature, replies, maxRateLimitRetries, calls[|old(calls)|..])
    {
      DecisiveIsFirstUndelayed(signature, replies, 1, maxRateLimitRetries);
      ghost var before, d := calls, Decisive(signature, replies, 1, maxRateLimitRetries);
      ghost var made: seq<CooldownCall> := [];
      var attempt := 1;
      while attempt <= maxRateLimitRetries + 1
        invariant 1 <= attempt <= d && Decisive(signature, replies, attempt, maxRateLimitRetries) == d
        invariant calls == before + made && |made| == attempt - 1
        invariant forall a :: 1 <= a < attempt ==>
                    var tried := TryFetchTransactionOnce(signature, replies(a));
                    tried.RateLimited? && made[a - 1] == Register(tried.retryAfter)
        decreases maxRateLimitRetries + 1 - attempt
      {
        var tried := TryFetchTransactionOnce(signature, replies(attempt));
        match tried {
          case Success(info) =>
            calls := calls + [ResetIfIdle];
            assert calls[|before|..] == made + [ResetIfIdle];
            return Fetched(signature, info);
          case RateLimited(error, retryAfter) =>
            if attempt > maxRateLimitRetries {
              assert calls[|before|..] == made;
              return Failed(error);
            }
            calls, made := calls + [Register(retryAfter)], made + [Register(retryAfter)];
          case Fatal(error) =>
            assert calls[|before|..] == made;
            return Failed(error);
        }
        attempt := attempt + 1;
      }
      assert false;
    }

    /** One chunk: every signature is fetched, then the outcomes are sorted into successes and failures. */
    method FetchTransactionChunk(signatures: seq<Sig>, replies: seq<Replies>) returns (batch: TransactionBatch)
      requires |replies| == |signatures|
      modifies this
      ensures IsNew(batch) && View(batch) == Partition(Outcomes(signatures, replies, maxRateLimitRetries))
    {
      ghost var expected := Outcomes(signatures, replies, maxRateLimitRetries);
      var outcomes: seq<Outcome> := [];
      for i := 0 to |signatures|
        invariant outcomes == expected[..i]
      {
        var outcome := FetchTransactionBySignature(signatures[i], replies[i]);
        outcomes := outcomes + [outcome];
      }
      assert outcomes == expected;
      batch := Sort(outcomes);
    }

    /** Successes to one side, failures to the other. */
    static method Sort(outcomes: seq<Outcome>) returns (batch: TransactionBatch)
      ensures IsNew(batch) && View(batch) == Partition(outcomes)
    {
      batch := EmptyBatch();
      for i := 0 to |outcomes|
        invariant IsNew(batch) && View(batch) == Partition(outcomes[..i])
      {
        assert outcomes[..i + 1][..i] == outcomes[..i];
        match outcomes[i] {
          case Fetched(signature, info) =>
            var transaction := new TransactionResult(info);
            batch := batch.(transactions := batch.transactions + [transaction],
                            processedSignatures := batch.processedSignatures + [signature]);
          case Failed(error) =>
            batch := batch.(failedSignatures := batch.failedSignatures + [error.signature],
                            errors := batch.errors + [error]);
        }
      }
      assert outcomes[..|outcomes|] == outcomes;
    }

    /** A chunk with the transfers of its transactions computed. */
    method FetchCalculatedChunk(signatures: seq<Sig>, replies: seq<Replies>) returns (chunk: TransactionBatch)
      requires |replies| == |signatures|
      modifies this
      ensures IsNew(chunk) && View(chunk) == Partition(Outcomes(signatures, replies, maxRateLimitRetries))
      ensures AllCalculated(chunk.transactions)
    {
      chunk := FetchTransactionChunk(signatures, replies);
      for k := 0 to |chunk.transactions|
        invariant AllCalculated(chunk.transactions[..k])
      {
        assert chunk.transactions[k] in chunk.transactions;
        chunk.transactions[k].CalculateTokenTransfer();
      }
    }

    /** A whole batch, ten signatures at a time, with the transfers of every transaction computed. */
    method GetTransaction(signatures: seq<Sig>, replies: seq<Replies>) returns (total: TransactionBatch)
      requires |replies| == |signatures|
      modifies this
      ensures IsNew(total) && View(total) == Partition(Outcomes(signatures, replies, maxRateLimitRetries))
      ensures AllCalculated(total.transactions)
    {
      total := EmptyBatch();
      var i := 0;
      while i < |signatures|
        invariant 0 <= i <= |signatures|
        invariant IsNew(total) && View(total) == Partition(Outcomes(signatures[..i], replies[..i], maxRateLimitRetries))
        invariant AllCalculated(total.transactions)
      {
        var j := if i + CHUNK_SIZE <= |signatures| then i + CHUNK_SIZE else |signatures|;
        label before:
        var chunk := FetchCalculatedChunk(signatures[i..j], replies[i..j]);
        assert forall t :: t in chunk.transactions ==> fresh@before(t) && fresh(t) && t !in total.transactions;
        NoRepeatsConcat(total.transactions, chunk.transactions);
        OutcomesConcat(signatures, replies, i, j, maxRateLimitRetries);
        ViewAppend(total, chunk);
        total := Append(total, chunk);
        i := j;
      }
      assert signatures[..i] == signatures && replies[..i] == replies;
    }
  }

  // ---------- Batches ----------

  datatype TransactionBatch = TransactionBatch(
    transactions: seq<TransactionResult>,
    processedSignatures: seq<Sig>,
    failedSignatures: seq<Sig>,
    errors: seq<FetchError>)

  function EmptyBatch(): TransactionBatch {
    TransactionBatch([], [], [], [])
  }

  function Append(a: TransactionBatch, b: TransactionBatch): TransactionBatch {
    TransactionBatch(a.transactions + b.transactions, a.processedSignatures + b.processedSignatures,
                     a.failedSignatures + b.failedSignatures, a.errors + b.errors)
  }

  /** The objects of the batch were created by the call, and no two entries share one. */
  twostate predicate IsNew(new batch: TransactionBatch) {
    NoRepeats(batch.transactions) && forall t :: t in batch.transactions ==> fresh(t)
  }

  ghost predicate AllCalculated(transactions: seq<TransactionResult>)
    reads transactions
  {
    forall t :: t in transactions ==> t.tokenTransferChanges == TransfersOf(t.result)
  }

  /** The four lists of a batch as values. */
  datatype BatchView = BatchView(infos: seq<TransactionInfo>, processed: seq<Sig>, failed: seq<Sig>,
                                errors: seq<FetchError>)

  function Infos(transactions: seq<TransactionResult>): seq<TransactionInfo> {
    seq(|transactions|, i requires 0 <= i < |transactions| => transactions[i].result)
  }

  function View(batch: TransactionBatch): BatchView {
    BatchView(Infos(batch.transactions), batch.processedSignatures, batch.failedSignatures, batch.errors)
  }

  lemma ViewAppend(a: TransactionBatch, b: TransactionBatch)
    ensures View(Append(a, b)) == Join(View(a), View(b))
  {
    assert Infos(a.transactions + b.transactions) == Infos(a.transactions) + Infos(b.transactions);
  }

  function Outcomes(signatures: seq<Sig>, replies: seq<Replies>, maxRetries: nat): seq<Outcome>
    requires |replies| == |signatures|
  {
    seq(|signatures|, i requires 0 <= i < |signatures| => FetchSpec(signatures[i], replies[i], maxRetries))
  }

  function Join(a: BatchView, b: BatchView): BatchView {
    BatchView(a.infos + b.infos, a.processed + b.processed, a.failed + b.failed, a.errors + b.errors)
  }

  function Single(outcome: Outcome): BatchView {
    match outcome
    case Fetched(signature, info) => BatchView([info], [signature], [], [])
    case Failed(error) => BatchView([], [], [error.signature], [error])
  }

  /** The unchunked reading: each outcome goes to one side, in order. */
  function Partition(outcomes: seq<Outcome>): BatchView {
    if outcomes == [] then BatchView([], [], [], [])
    else Join(Partition(outcomes[..|outcomes| - 1]), Single(outcomes[|outcomes| - 1]))
  }

  lemma PartitionLast(outcomes: seq<Outcome>, last: Outcome)
    ensures Partition(outcomes + [last]) == Join(Partition(outcomes), Single(last))
  {
    assert (outcomes + [last])[..|outcomes|] == outcomes;
  }

  lemma {:induction false} PartitionConcat(a: seq<Outcome>, b: seq<Outcome>)
    ensures Partition(a + b) == Join(Partition(a), Partition(b))
  {
    if b == [] {
      assert a + b == a;
      JoinEmpty(Partition(a));
    } else {
      var n := |b| - 1;
      PartitionConcat(a, b[..n]);
      assert a + b == (a + b[..n]) + [b[n]];
      PartitionLast(a + b[..n], b[n]);
      JoinAssociative(Partition(a), Partition(b[..n]), Single(b[n]));
    }
  }

  lemma JoinEmpty(a: BatchView)
    ensures Join(a, BatchView([], [], [], [])) == a
  {
  }

  lemma JoinAssociative(a: BatchView, b: BatchView, c: BatchView)
    ensures Join(Join(a, b), c) == Join(a, Join(b, c))
  {
    assert a.infos + b.infos + c.infos == a.infos + (b.infos + c.infos);
    assert a.processed + b.processed + c.processed == a.processed + (b.processed + c.processed);
    assert a.failed + b.failed + c.failed == a.failed + (b.failed + c.failed);
    assert a.errors + b.errors + c.errors == a.errors + (b.errors + c.errors);
  }

  lemma OutcomesConcat(signatures: seq<Sig>, replies: seq<Replies>, i: nat, j: nat, maxRetries: nat)
    requires |replies| == |signatures| && i <= j <= |signatures|
    ensures Partition(Outcomes(signatures[..j], replies[..j], maxRetries))
         == Join(Partition(Outcomes(signatures[..i], replies[..i], maxRetries)),
                 Partition(Outcomes(signatures[i..j], replies[i..j], maxRetries)))
  {
    var a, b := Outcomes(signatures[..i], replies[..i], maxRetries),
        Outcomes(signatures[i..j], replies[i..j], maxRetries);
    assert Outcomes(signatures[..j], replies[..j], maxRetries) == a + b;
    PartitionConcat(a, b);
  }

  /** An outcome speaks about the signature it was requested for. */
  lemma OutcomeNamesSignature(signature: Sig, replies: Replies, maxRetries: nat)
    ensures var o := FetchSpec(signature, replies, maxRetries);
            (if o.Fetched? then o.signature else o.error.signature) == signature
  {
  }

  /** The successes and the failures among the outcomes. */
  function OkReadings(outcomes: seq<Outcome>): seq<Option<Outcome>> {
    seq(|outcomes|, i requires 0 <= i < |outcomes| => if outcomes[i].Fetched? then Some(outcomes[i]) else None)
  }

  function BadReadings(outcomes: seq<Outcome>): seq<Option<Outcome>> {
    seq(|outcomes|, i requires 0 <= i < |outcomes| => if outcomes[i].Failed? then Some(outcomes[i]) else None)
  }

  lemma {:induction false} PartitionKeepsOk(outcomes: seq<Outcome>)
    ensures var v, ok := Partition(outcomes), Present(OkReadings(outcomes));
            && |v.processed| == |v.infos| == |ok|
            && forall k :: 0 <= k < |ok| ==> ok[k] == Fetched(v.processed[k], v.infos[k])
  {
    if outcomes != [] {
      var n := |outcomes| - 1;
      PartitionKeepsOk(outcomes[..n]);
      assert OkReadings(outcomes)[..n] == OkReadings(outcomes[..n]);
    }
  }

  lemma {:induction false} PartitionKeepsBad(outcomes: seq<Outcome>)
    ensures var v, bad := Partition(outcomes), Present(BadReadings(outcomes));
            && |v.failed| == |v.errors| == |bad|
            && forall k :: 0 <= k < |bad| ==> bad[k] == Failed(v.errors[k]) && v.failed[k] == v.errors[k].signature
  {
    if outcomes != [] {
      var n := |outcomes| - 1;
      PartitionKeepsBad(outcomes[..n]);
      assert BadReadings(outcomes)[..n] == BadReadings(outcomes[..n]);
    }
  }

  /** The positions that succeed, and what lands there. */
  lemma OkPositions(outcomes: seq<Outcome>) returns (ok: seq<nat>)
    ensures Increasing(ok, |outcomes|)
    ensures forall i :: 0 <= i < |outcomes| ==> (i in ok <==> outcomes[i].Fetched?)
    ensures |Partition(outcomes).processed| == |Partition(outcomes).infos| == |ok|
    ensures forall k :: 0 <= k < |ok| ==>
              outcomes[ok[k]] == Fetched(Partition(outcomes).processed[k], Partition(outcomes).infos[k])
  {
    var readings := OkReadings(outcomes);
    PartitionKeepsOk(outcomes);
    PresentByPosition(readings);
    ok := Positions(readings);
    assert forall k :: 0 <= k < |ok| ==> readings[ok[k]] == Some(Present(readings)[k]);
  }

  /** The positions that fail, and what lands there. */
  lemma BadPositions(outcomes: seq<Outcome>) returns (bad: seq<nat>)
    ensures Increasing(bad, |outcomes|)
    ensures forall i :: 0 <= i < |outcomes| ==> (i in bad <==> outcomes[i].Failed?)
    ensures |Partition(outcomes).failed| == |Partition(outcomes).errors| == |bad|
    ensures forall k :: 0 <= k < |bad| ==>
              outcomes[bad[k]] == Failed(Partition(outcomes).errors[k])
              && Partition(outcomes).failed[k] == Partition(outcomes).errors[k].signature
  {
    var readings := BadReadings(outcomes);
    PartitionKeepsBad(outcomes);
    PresentByPosition(readings);
    bad := Positions(readings);
    assert forall k :: 0 <= k < |bad| ==> readings[bad[k]] == Some(Present(readings)[k]);
  }

  /**
   * The processed and the failed signatures are complementary subsequences of the input, in input order.
   * Transactions line up with the processed ones and errors with the failed ones.
   */
  lemma PartitionIsComplementary(signatures: seq<Sig>, replies: seq<Replies>, maxRetries: nat)
    returns (ok: seq<nat>, bad: seq<nat>)
    requires |replies| == |signatures|
    ensures Increasing(ok, |signatures|) && Increasing(bad, |signatures|)
    ensures forall i :: 0 <= i < |signatures| ==> (i in ok <==> i !in bad)
    ensures var v := Partition(Outcomes(signatures, replies, maxRetries));
            && |v.processed| == |v.infos| == |ok| && |v.failed| == |v.errors| == |bad|
            && (forall k :: 0 <= k < |ok| ==>
                  v.processed[k] == signatures[ok[k]]
                  && FetchSpec(signatures[ok[k]], replies[ok[k]], maxRetries) == Fetched(v.processed[k], v.infos[k]))
            && (forall k :: 0 <= k < |bad| ==>
                  v.failed[k] == signatures[bad[k]] == v.errors[k].signature
                  && FetchSpec(signatures[bad[k]], replies[bad[k]], maxRetries) == Failed(v.errors[k]))
  {
    var outcomes := Outcomes(signatures, replies, maxRetries);
    ok := OkPositions(outcomes);
    bad := BadPositions(outcomes);
    forall i | 0 <= i < |signatures|
      ensures outcomes[i] == FetchSpec(signatures[i], replies[i], maxRetries)
      ensures (if outcomes[i].Fetched? then outcomes[i].signature else outcomes[i].error.signature) == signatures[i]
    {
      OutcomeNamesSignature(signatures[i], replies[i], maxRetries);
    }
  }
}
