/**
 * src/requests/client.rs: which replies are rate limits and which are retried, read off the replies themselves:
 * their status, code and text.
 */
module FetchReadings {
  import opened Wrappers
  import opened TransactionTypes
  import opened Fetching

  // ---------- Text ----------

  /** The character is the letter, in either case, or the character itself. */
  predicate SameLetter(c: char, letter: char) {
    c == letter || ('a' <= letter <= 'z' && c as int + 32 == letter as int)
  }

  predicate SaysAt(text: string, phrase: string, i: nat) {
    i + |phrase| <= |text| && forall j :: 0 <= j < |phrase| ==> SameLetter(text[i + j], phrase[j])
  }

  /** The phrase stands somewhere in the text, in any mixture of cases. */
  ghost predicate Says(text: string, phrase: string) {
    exists i: nat :: SaysAt(text, phrase, i)
  }

  predicate OccursAt(text: string, part: string, i: nat) {
    i + |part| <= |text| && forall j :: 0 <= j < |part| ==> text[i + j] == part[j]
  }

  lemma {:induction false} ContainsOccurs(text: string, part: string) returns (i: nat)
    requires Contains(text, part)
    ensures OccursAt(text, part, i)
  {
    if part <= text {
      i := 0;
    } else {
      i := ContainsOccurs(text[1..], part);
      i := i + 1;
    }
  }

  lemma {:induction false} OccursContains(text: string, part: string, i: nat)
    requires OccursAt(text, part, i)
    ensures Contains(text, part)
  {
    if i == 0 {
      assert text[..|part|] == part;
    } else if text != "" {
      OccursContains(text[1..], part, i - 1);
    }
  }

  lemma OccursIffSays(text: string, phrase: string, i: nat)
    requires forall j :: 0 <= j < |phrase| ==> !('A' <= phrase[j] <= 'Z')
    ensures OccursAt(Lower(text), phrase, i) <==> SaysAt(text, phrase, i)
  {
    if i + |phrase| <= |text| {
      forall j | 0 <= j < |phrase|
        ensures Lower(text)[i + j] == phrase[j] <==> SameLetter(text[i + j], phrase[j])
      {
        LowerLetter(text[i + j], phrase[j]);
      }
    }
  }

  lemma LowerLetter(c: char, letter: char)
    requires !('A' <= letter <= 'Z')
    ensures (if 'A' <= c <= 'Z' then c - 'A' + 'a' else c) == letter <==> SameLetter(c, letter)
  {
  }

  /** The text test of the source: to_ascii_lowercase, then contains. */
  lemma ContainsIffSays(text: string, phrase: string)
    requires forall j :: 0 <= j < |phrase| ==> !('A' <= phrase[j] <= 'Z')
    ensures Contains(Lower(text), phrase) <==> Says(text, phrase)
  {
    if Contains(Lower(text), phrase) {
      var i := ContainsOccurs(Lower(text), phrase);
      OccursIffSays(text, phrase, i);
    }
    if i: nat :| SaysAt(text, phrase, i) {
      OccursIffSays(text, phrase, i);
      OccursContains(Lower(text), phrase, i);
    }
  }

  // ---------- One reply ----------

  ghost predicate SpeaksOfLimit(text: string) {
    Says(text, "rate limit") || Says(text, "rate-limited") || Says(text, "too many requests")
  }

  /** The reply reports a rate limit: by status, by code or in words; a decodable result never does. */
  ghost predicate ReportsLimit(reply: RpcReply) {
    reply.Http? && match reply.body
                   case Undecodable(message) => reply.status == 429 || SpeaksOfLimit(message)
                   case Envelope(Some(error), _) =>
                     reply.status == 429 || error.code == -32429 || SpeaksOfLimit(error.message)
                   case Envelope(None, _) => false
  }

  /** The reply carries a transaction and no error. */
  predicate Delivers(reply: RpcReply) {
    reply.Http? && reply.body.Envelope? && reply.body.error.None? && reply.body.result.Value?
    && reply.body.result.decoded.Some?
  }

  lemma LimitTest(statusCode: Option<nat>, rpcCode: Option<int>, message: string)
    ensures IsRateLimited(statusCode, rpcCode, message) <==>
              statusCode == Some(429) || rpcCode == Some(-32429) || SpeaksOfLimit(message)
  {
    ContainsIffSays(message, "rate limit");
    ContainsIffSays(message, "rate-limited");
    ContainsIffSays(message, "too many requests");
  }

  /**
   * Every reply: rate limited exactly when it reports a limit, then with its own retry-after hint; a success exactly
   * when it delivers, then with what it delivers; fatal otherwise. Errors carry the reply's status, code and text.
   */
  lemma AttemptReading(signature: Sig, reply: RpcReply)
    ensures var a := TryFetchTransactionOnce(signature, reply);
            && (a.RateLimited? <==> ReportsLimit(reply))
            && (a.RateLimited? ==> a.retryAfter == reply.retryAfter)
            && (a.Success? <==> Delivers(reply))
            && (a.Success? ==> Some(a.info) == reply.body.result.decoded)
            && (a.Fatal? <==> !ReportsLimit(reply) && !Delivers(reply))
            && (!a.Success? ==>
                  && a.error.signature == signature
                  && a.error.statusCode == (if reply.Http? then Some(reply.status) else None)
                  && (reply.Http? && reply.body.Undecodable? ==> a.error.message == reply.body.message)
                  && (reply.Http? && reply.body.Envelope? && reply.body.error.Some? ==>
                        && a.error.rpcCode == Some(reply.body.error.value.code)
                        && a.error.message == reply.body.error.value.message)
                  && (reply.Http? && reply.body.Envelope? && reply.body.error.Some? <==> a.error.rpcCode.Some?))
  {
    if reply.Http? {
      match reply.body {
        case Undecodable(message) => LimitTest(Some(reply.status), None, message);
        case Envelope(Some(error), _) => LimitTest(Some(reply.status), Some(error.code), error.message);
        case Envelope(None, _) =>
      }
    }
  }

  // ---------- The whole fetch ----------

  ghost predicate LimitedBefore(replies: Replies, d: nat) {
    forall a :: 1 <= a < d ==> ReportsLimit(replies(a))
  }

  /** Attempt `d` is the first whose reply reports no limit, or the last of the budget. */
  ghost predicate Decides(replies: Replies, maxRetries: nat, d: nat) {
    1 <= d <= maxRetries + 1 && LimitedBefore(replies, d) && (d <= maxRetries ==> !ReportsLimit(replies(d)))
  }

  lemma OneDecides(replies: Replies, maxRetries: nat, d: nat, e: nat)
    requires Decides(replies, maxRetries, d) && Decides(replies, maxRetries, e)
    ensures d == e
  {
  }

  lemma DecisiveReading(signature: Sig, replies: Replies, maxRetries: nat, d: nat)
    ensures Decisive(signature, replies, 1, maxRetries) == d <==> Decides(replies, maxRetries, d)
  {
    var e := Decisive(signature, replies, 1, maxRetries);
    DecisiveIsFirstUndelayed(signature, replies, 1, maxRetries);
    forall a | 1 <= a <= maxRetries + 1
      ensures TryFetchTransactionOnce(signature, replies(a)).RateLimited? <==> ReportsLimit(replies(a))
    {
      AttemptReading(signature, replies(a));
    }
    assert Decides(replies, maxRetries, e);
    if Decides(replies, maxRetries, d) {
      OneDecides(replies, maxRetries, d, e);
    }
  }

  /**
   * A fetch, in terms of the replies: the first reply that reports no limit decides, else the last of the budget.
   * The fetch succeeds exactly when that reply delivers; every earlier reply has registered its own hint.
   */
  lemma FetchReading(signature: Sig, replies: Replies, maxRetries: nat, d: nat, calls: seq<CooldownCall>)
    requires Decides(replies, maxRetries, d) && CallsOf(signature, replies, maxRetries, calls)
    ensures var outcome := FetchSpec(signature, replies, maxRetries);
            && (outcome.Fetched? <==> Delivers(replies(d)))
            && (outcome.Fetched? ==>
                  outcome.signature == signature && Some(outcome.info) == replies(d).body.result.decoded)
            && (outcome.Failed? ==>
                  && outcome.error.signature == signature
                  && outcome.error.statusCode == (if replies(d).Http? then Some(replies(d).status) else None))
    ensures |calls| == d - 1 + (if Delivers(replies(d)) then 1 else 0)
    ensures forall a :: 1 <= a < d ==> replies(a).Http? && calls[a - 1] == Register(replies(a).retryAfter)
    ensures Delivers(replies(d)) ==> calls[d - 1] == ResetIfIdle
  {
    DecisiveReading(signature, replies, maxRetries, d);
    AttemptReading(signature, replies(d));
    forall a | 1 <= a < d
      ensures replies(a).Http? && calls[a - 1] == Register(replies(a).retryAfter)
    {
      AttemptReading(signature, replies(a));
    }
  }
}
