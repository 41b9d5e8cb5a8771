/**
 * src/requests/client.rs: one page of getSignaturesForAddress and its time filter.
 * The remote history is a fixed finite ledger, newest entry first; a page holds the entries
 * that follow the `before` signature, at most 1000 of them.
 */
module Pagination {
  import opened Wrappers
  import opened TransactionTypes

  const PAGE_LIMIT: nat := 1000

  function Cutoff(requestedHours: i16, now: int): int {
    now - (if requestedHours > 0 then requestedHours else 0) * 3600
  }

  predicate TooOld(entry: Signature, cutoff: int) {
    entry.blockTime.Some? && entry.blockTime.value < cutoff
  }

  predicate Recent(entry: Signature, cutoff: int) {
    entry.blockTime.Some? && entry.blockTime.value >= cutoff
  }

  /** The position of the first entry older than the cutoff, or the length when there is none. */
  function FirstOld(entries: seq<Signature>, cutoff: int): (n: nat)
    ensures n <= |entries|
    ensures forall i :: 0 <= i < n ==> !TooOld(entries[i], cutoff)
    ensures n < |entries| ==> TooOld(entries[n], cutoff)
  {
    if entries == [] then 0
    else if TooOld(entries[0], cutoff) then 0
    else 1 + FirstOld(entries[1..], cutoff)
  }

  /** The timed entries at or after the cutoff, in order. */
  function KeepRecent(entries: seq<Signature>, cutoff: int): (kept: seq<Signature>)
    ensures |kept| <= |entries|
    ensures forall e :: e in kept <==> e in entries && Recent(e, cutoff)
  {
    if entries == [] then []
    else
      var last := entries[|entries| - 1];
      var rest := KeepRecent(entries[..|entries| - 1], cutoff);
      assert entries == entries[..|entries| - 1] + [last];
      if Recent(last, cutoff) then rest + [last] else rest
  }

  /** What a page contributes: the recent entries before the first one that is too old. */
  function RecentPart(entries: seq<Signature>, cutoff: int): seq<Signature> {
    KeepRecent(entries[..FirstOld(entries, cutoff)], cutoff)
  }

  datatype RecentSignatures = RecentSignatures(signatures: seq<Signature>, reachedCutoff: bool,
                                skippedNullBlockTime: nat)

  method TakeRecentSignaturesAt(entries: seq<Signature>, requestedHours: i16, now: int) returns (r: RecentSignatures)
    ensures var cutoff := Cutoff(requestedHours, now);
            && r.signatures == RecentPart(entries, cutoff)
            && r.reachedCutoff == (FirstOld(entries, cutoff) < |entries|)
            && r.skippedNullBlockTime == FirstOld(entries, cutoff) - |r.signatures|
  {
    var cutoff := Cutoff(requestedHours, now);
    var filtered: seq<Signature> := [];
    var skipped: nat := 0;
    var reached := false;
    var i := 0;
    while i < |entries|
      invariant 0 <= i <= FirstOld(entries, cutoff)
      invariant !reached && filtered == KeepRecent(entries[..i], cutoff)
      invariant skipped == i - |filtered|
    {
      assert entries[..i + 1][..i] == entries[..i];
      var entry := entries[i];
      if Recent(entry, cutoff) {
        filtered := filtered + [entry];
      } else if entry.blockTime.Some? {
        reached := true;
        break;
      } else {
        skipped := skipped + 1;
      }
      i := i + 1;
    }
    return RecentSignatures(filtered, reached, skipped);
  }

  // ---------- The remote ledger ----------

  /** Signatures identify ledger entries. */
  ghost predicate Distinct(ledger: seq<Signature>) {
    forall i, j :: 0 <= i < j < |ledger| ==> ledger[i].signature != ledger[j].signature
  }

  /** Newest first: block times never increase along the ledger; entries without one are ignored. */
  ghost predicate NewestFirst(ledger: seq<Signature>) {
    forall i, j :: 0 <= i < j < |ledger| && ledger[i].blockTime.Some? && ledger[j].blockTime.Some?
                   ==> ledger[i].blockTime.value >= ledger[j].blockTime.value
  }

  /** The position after the entry named `before`; an unknown signature yields the end. */
  function PositionAfter(ledger: seq<Signature>, before: Sig): (p: nat)
    ensures p <= |ledger|
  {
    if ledger == [] then 0
    else if ledger[0].signature == before then 1
    else 1 + PositionAfter(ledger[1..], before)
  }

  lemma {:induction false} PositionAfterEntry(ledger: seq<Signature>, i: nat)
    requires Distinct(ledger) && i < |ledger|
    ensures PositionAfter(ledger, ledger[i].signature) == i + 1
  {
    if i > 0 {
      assert ledger[0].signature != ledger[i].signature;
      assert forall k :: 0 <= k < |ledger| - 1 ==> ledger[1..][k] == ledger[k + 1];
      PositionAfterEntry(ledger[1..], i - 1);
    }
  }

  function PageStart(ledger: seq<Signature>, before: Option<Sig>): (p: nat)
    ensures p <= |ledger|
  {
    if before.None? then 0 else PositionAfter(ledger, before.value)
  }

  function PageEnd(ledger: seq<Signature>, start: nat): (p: nat)
    requires start <= |ledger|
    ensures start <= p <= |ledger|
  {
    if start + PAGE_LIMIT <= |ledger| then start + PAGE_LIMIT else |ledger|
  }

  /** An RPC exchange: the ledger answers at client time `now`, or the call fails for good. */
  datatype PageReply = Answered(now: int) | Refused(message: string)

  datatype SignaturesPage = SignaturesPage(
    response: seq<Signature>,
    lastSignature: Option<Sig>,
    rawCount: nat,
    reachedCutoff: bool)

  /** The page that follows position `start`, filtered at client time `now`. */
  function PageAt(ledger: seq<Signature>, start: nat, requestedHours: i16, now: int): SignaturesPage
    requires start <= |ledger|
  {
    var end := PageEnd(ledger, start);
    var raw, cutoff := ledger[start..end], Cutoff(requestedHours, now);
    SignaturesPage(RecentPart(raw, cutoff), if start == end then None else Some(ledger[end - 1].signature),
                   end - start, FirstOld(raw, cutoff) < |raw|)
  }

  method GetSignatures(ledger: seq<Signature>, before: Option<Sig>, requestedHours: i16, reply: PageReply)
    returns (r: Result<SignaturesPage, string>)
    ensures r.Err? <==> reply.Refused?
    ensures r.Ok? ==> r.value == PageAt(ledger, PageStart(ledger, before), requestedHours, reply.now)
  {
    match reply {
      case Refused(message) =>
        return Err(message);
      case Answered(now) =>
        var start := PageStart(ledger, before);
        var raw := ledger[start..PageEnd(ledger, start)];
        var recent := TakeRecentSignaturesAt(raw, requestedHours, now);
        var last := if raw == [] then None else Some(raw[|raw| - 1].signature);
        return Ok(SignaturesPage(recent.signatures, last, |raw|, recent.reachedCutoff));
    }
  }
}
