/** What the paging loop fetches and writes, in terms of the history itself: pages of 1000, cut off by the hours. */
module PagingReadings {
  import opened Wrappers
  import opened TransactionTypes
  import opened Pagination
  import opened Paging

  /** An entry of ledger[from..to] lies before `since`. */
  ghost predicate OldBetween(ledger: seq<Signature>, from: nat, to: nat, since: int) {
    exists i :: from <= i < to && i < |ledger| && ledger[i].blockTime.Some? && ledger[i].blockTime.value < since
  }

  ghost predicate KeptAt(ledger: seq<Signature>, from: nat, i: nat, since: int, e: Signature) {
    && i < |ledger| && ledger[i] == e && e.blockTime.Some? && e.blockTime.value >= since
    && !OldBetween(ledger, from, i, since)
  }

  /** An entry of ledger[from..to] at or after `since`, with no older one before it. */
  ghost predicate KeptBetween(ledger: seq<Signature>, from: nat, to: nat, since: int, e: Signature) {
    exists i: nat :: from <= i < to && KeptAt(ledger, from, i, since, e)
  }

  /** Negative hours count as none. */
  function Since(requestedHours: int, now: int): int {
    if requestedHours < 0 then now else now - requestedHours * 60 * 60
  }

  lemma StopIsFirstOld(ledger: seq<Signature>, start: nat, end: nat, since: int)
    requires start <= end <= |ledger|
    ensures var stop := FirstOld(ledger[start..end], since);
            && !OldBetween(ledger, start, start + stop, since)
            && (stop < end - start <==> OldBetween(ledger, start, end, since))
            && forall i :: start + stop < i ==> stop < end - start ==> OldBetween(ledger, start, i, since)
  {
    var raw := ledger[start..end];
    var stop := FirstOld(raw, since);
    forall i | start <= i < start + stop
      ensures !TooOld(ledger[i], since)
    {
      assert raw[i - start] == ledger[i];
    }
    if stop < |raw| {
      assert TooOld(ledger[start + stop], since) by {
        assert raw[stop] == ledger[start + stop];
      }
    }
  }

  lemma KeptIsSeen(ledger: seq<Signature>, start: nat, end: nat, since: int, e: Signature)
    requires start <= end <= |ledger| && KeptBetween(ledger, start, end, since, e)
    ensures e in ledger[start..end][..FirstOld(ledger[start..end], since)]
  {
    var raw := ledger[start..end];
    var seen := raw[..FirstOld(raw, since)];
    StopIsFirstOld(ledger, start, end, since);
    var i: nat :| start <= i < end && KeptAt(ledger, start, i, since, e);
    assert i - start < |seen| && seen[i - start] == e;
  }

  lemma SeenIsKept(ledger: seq<Signature>, start: nat, end: nat, since: int, e: Signature)
    requires start <= end <= |ledger| && Recent(e, since)
    requires e in ledger[start..end][..FirstOld(ledger[start..end], since)]
    ensures KeptBetween(ledger, start, end, since, e)
  {
    var raw := ledger[start..end];
    var seen := raw[..FirstOld(raw, since)];
    StopIsFirstOld(ledger, start, end, since);
    var j :| 0 <= j < |seen| && seen[j] == e;
    assert ledger[start + j] == e;
    assert KeptAt(ledger, start, start + j, since, e);
  }

  lemma PartReading(ledger: seq<Signature>, start: nat, end: nat, since: int, e: Signature)
    requires start <= end <= |ledger|
    ensures e in RecentPart(ledger[start..end], since) <==> KeptBetween(ledger, start, end, since, e)
  {
    if KeptBetween(ledger, start, end, since, e) {
      KeptIsSeen(ledger, start, end, since, e);
    } else if e in RecentPart(ledger[start..end], since) {
      SeenIsKept(ledger, start, end, since, e);
    }
  }

  /** One page: at most 1000 entries, the last of them named, and of these the recent ones before the first old one. */
  lemma PageReading(ledger: seq<Signature>, start: nat, requestedHours: i16, now: int, e: Signature)
    requires start <= |ledger|
    ensures var page, since := PageAt(ledger, start, requestedHours, now), Since(requestedHours, now);
            && page.rawCount == (if |ledger| - start < 1000 then |ledger| - start else 1000)
            && page.lastSignature == (if start == |ledger| then None
                                      else Some(ledger[start + page.rawCount - 1].signature))
            && (page.reachedCutoff <==> OldBetween(ledger, start, start + 1000, since))
            && (e in page.response <==> KeptBetween(ledger, start, start + 1000, since, e))
  {
    var end, since := PageEnd(ledger, start), Since(requestedHours, now);
    StopIsFirstOld(ledger, start, end, since);
    PartReading(ledger, start, end, since, e);
    assert since == Cutoff(requestedHours, now);
    assert OldBetween(ledger, start, end, since) <==> OldBetween(ledger, start, start + 1000, since);
    assert KeptBetween(ledger, start, end, since, e) <==> KeptBetween(ledger, start, start + 1000, since, e);
  }

  lemma {:induction false} PageStarts(ledger: seq<Signature>, n: nat)
    ensures Position(ledger, n) == if 1000 * n < |ledger| then 1000 * n else |ledger|
  {
    if n > 0 {
      PageStarts(ledger, n - 1);
    }
  }

  /** Paging ends the history exactly when its pages go beyond it, or the last of them has an old entry. */
  lemma EndReading(ledger: seq<Signature>, requestedHours: i16, replies: nat -> PageReply, n: nat)
    requires n > 0 && replies(n - 1).Answered?
    ensures EndedAt(ledger, requestedHours, replies, n) <==>
            || |ledger| < 1000 * n
            || OldBetween(ledger, 1000 * (n - 1), 1000 * n, Since(requestedHours, replies(n - 1).now))
  {
    PageStarts(ledger, n - 1);
    PageReading(ledger, Position(ledger, n - 1), requestedHours, replies(n - 1).now, Signature(None, ""));
  }

  /** The n-th page wrote this entry. */
  ghost predicate WrittenBy(ledger: seq<Signature>, requestedHours: i16, replies: nat -> PageReply, n: nat,
                            e: Signature) {
    replies(n).Answered?
    && KeptBetween(ledger, 1000 * n, 1000 * (n + 1), Since(requestedHours, replies(n).now), e)
  }

  ghost predicate WrittenWithin(ledger: seq<Signature>, requestedHours: i16, replies: nat -> PageReply, n: nat,
                                e: Signature) {
    exists m: nat :: m < n && WrittenBy(ledger, requestedHours, replies, m, e)
  }

  lemma LastWritten(ledger: seq<Signature>, requestedHours: i16, replies: nat -> PageReply, n: nat, e: Signature)
    requires n > 0
    ensures WrittenWithin(ledger, requestedHours, replies, n, e) <==>
            || WrittenWithin(ledger, requestedHours, replies, n - 1, e)
            || WrittenBy(ledger, requestedHours, replies, n - 1, e)
  {
    if WrittenWithin(ledger, requestedHours, replies, n, e) {
      var m: nat :| m < n && WrittenBy(ledger, requestedHours, replies, m, e);
      assert m == n - 1 || m < n - 1;
    }
  }

  /** The n-th page, where its replies are answered, writes what WrittenBy says. */
  lemma PageWrites(ledger: seq<Signature>, requestedHours: i16, replies: nat -> PageReply, n: nat, e: Signature)
    requires replies(n).Answered?
    ensures e in RecentPart(PageOf(ledger, n), Cutoff(requestedHours, replies(n).now)) <==>
            WrittenBy(ledger, requestedHours, replies, n, e)
  {
    PageStarts(ledger, n);
    var start, since := Position(ledger, n), Since(requestedHours, replies(n).now);
    PageReading(ledger, start, requestedHours, replies(n).now, e);
    if start < 1000 * n {
      assert !KeptBetween(ledger, 1000 * n, 1000 * (n + 1), since, e);
      assert !KeptBetween(ledger, start, start + 1000, since, e);
    }
  }

  lemma PagesAdd(ledger: seq<Signature>, requestedHours: i16, replies: nat -> PageReply, n: nat, e: Signature)
    requires n > 0
    ensures e in PagesWritten(ledger, requestedHours, replies, n) <==>
            || e in PagesWritten(ledger, requestedHours, replies, n - 1)
            || (replies(n - 1).Answered?
                && e in RecentPart(PageOf(ledger, n - 1), Cutoff(requestedHours, replies(n - 1).now)))
  {
  }

  /** What the first n pages write: of each thousand entries the recent ones before the first old one. */
  lemma {:induction false} WrittenReading(ledger: seq<Signature>, requestedHours: i16, replies: nat -> PageReply,
                                          n: nat, e: Signature)
    ensures e in PagesWritten(ledger, requestedHours, replies, n) <==>
            WrittenWithin(ledger, requestedHours, replies, n, e)
  {
    if n > 0 {
      WrittenReading(ledger, requestedHours, replies, n - 1, e);
      LastWritten(ledger, requestedHours, replies, n, e);
      PagesAdd(ledger, requestedHours, replies, n, e);
      if replies(n - 1).Answered? {
        PageWrites(ledger, requestedHours, replies, n - 1, e);
      }
    }
  }
}
