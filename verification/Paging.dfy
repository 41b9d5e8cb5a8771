/** src/indexer.rs: the paging loop, which copies the recent part of the ledger into the signatures table. */
module Paging {
  import opened Wrappers
  import opened TransactionTypes
  import opened Pagination
  import opened Tables
  import opened Database

  /** Client time does not run backwards from one page to the next. */
  ghost predicate ClockAdvances(replies: nat -> PageReply) {
    forall m, n :: 0 <= m <= n && replies(m).Answered? && replies(n).Answered? ==> replies(m).now <= replies(n).now
  }

  /** `written` is the part of the ledger at the given increasing positions. */
  ghost predicate TakenFrom(ledger: seq<Signature>, written: seq<Signature>, positions: seq<nat>, visited: nat) {
    && visited <= |ledger| && |positions| == |written| && Increasing(positions, visited)
    && forall k :: 0 <= k < |written| ==> written[k] == ledger[positions[k]]
  }

  /** Every entry of ledger[..visited] that is recent for `cutoff` has been written. */
  ghost predicate Covers(ledger: seq<Signature>, visited: nat, cutoff: int, written: seq<Signature>) {
    visited <= |ledger| && forall i :: 0 <= i < visited && Recent(ledger[i], cutoff) ==> ledger[i] in written
  }

  ghost predicate NoneBefore(written: seq<Signature>, cutoff: int) {
    forall e :: e in written ==> Recent(e, cutoff)
  }

  // ---------- One page ----------

  function RecentReadings(entries: seq<Signature>, cutoff: int): seq<Option<Signature>> {
    seq(|entries|, i requires 0 <= i < |entries| => if Recent(entries[i], cutoff) then Some(entries[i]) else None)
  }

  lemma {:induction false} KeptIsPresent(entries: seq<Signature>, cutoff: int)
    ensures KeepRecent(entries, cutoff) == Present(RecentReadings(entries, cutoff))
  {
    if entries != [] {
      var n := |entries| - 1;
      KeptIsPresent(entries[..n], cutoff);
      assert RecentReadings(entries, cutoff)[..n] == RecentReadings(entries[..n], cutoff);
    }
  }

  lemma KeptPositions(entries: seq<Signature>, cutoff: int) returns (p: seq<nat>)
    ensures Increasing(p, |entries|) && |p| == |KeepRecent(entries, cutoff)|
    ensures forall k :: 0 <= k < |p| ==> KeepRecent(entries, cutoff)[k] == entries[p[k]]
  {
    KeptIsPresent(entries, cutoff);
    p := Positions(RecentReadings(entries, cutoff));
    PresentByPosition(RecentReadings(entries, cutoff));
  }

  /** Where the recent part of a page sits in the ledger. */
  lemma PagePositions(ledger: seq<Signature>, start: nat, end: nat, cutoff: int) returns (shifted: seq<nat>)
    requires start <= end <= |ledger|
    ensures Increasing(shifted, end) && forall k :: 0 <= k < |shifted| ==> start <= shifted[k]
    ensures |shifted| == |RecentPart(ledger[start..end], cutoff)|
    ensures forall k :: 0 <= k < |shifted| ==> RecentPart(ledger[start..end], cutoff)[k] == ledger[shifted[k]]
  {
    var raw := ledger[start..end];
    var seen := raw[..FirstOld(raw, cutoff)];
    var p := KeptPositions(seen, cutoff);
    shifted := seq(|p|, k requires 0 <= k < |p| => p[k] + start);
    forall k | 0 <= k < |p|
      ensures shifted[k] < end && RecentPart(raw, cutoff)[k] == ledger[shifted[k]]
    {
      assert seen[p[k]] == ledger[p[k] + start];
    }
  }

  /** A page extends what was taken from the ledger, without visiting a position twice. */
  lemma PageTaken(ledger: seq<Signature>, start: nat, end: nat, cutoff: int, written: seq<Signature>,
                  positions: seq<nat>)
    returns (positions': seq<nat>)
    requires start <= end <= |ledger| && TakenFrom(ledger, written, positions, start)
    ensures TakenFrom(ledger, written + RecentPart(ledger[start..end], cutoff), positions', end)
  {
    var shifted := PagePositions(ledger, start, end, cutoff);
    positions' := positions + shifted;
    IncreasingConcat(positions, shifted, start, end);
  }

  lemma IncreasingConcat(a: seq<nat>, b: seq<nat>, middle: nat, bound: nat)
    requires Increasing(a, middle) && Increasing(b, bound) && middle <= bound
    requires forall k :: 0 <= k < |b| ==> middle <= b[k]
    ensures Increasing(a + b, bound)
  {
  }

  /**
   * A page without a stop entry is covered; a page with one, and everything after it, is covered on a sorted ledger.
   */
  lemma PageCovered(ledger: seq<Signature>, start: nat, end: nat, cutoff: int, written: seq<Signature>)
    requires start <= end <= |ledger| && Covers(ledger, start, cutoff, written)
    ensures var raw := ledger[start..end];
            var written' := written + RecentPart(raw, cutoff);
            if FirstOld(raw, cutoff) == |raw| then Covers(ledger, end, cutoff, written')
            else NewestFirst(ledger) ==> Covers(ledger, |ledger|, cutoff, written')
  {
    var raw := ledger[start..end];
    var stop := FirstOld(raw, cutoff);
    forall i | start <= i < start + stop && Recent(ledger[i], cutoff)
      ensures ledger[i] in RecentPart(raw, cutoff)
    {
      assert ledger[i] == raw[..stop][i - start];
    }
    if stop < |raw| && NewestFirst(ledger) {
      assert raw[stop] == ledger[start + stop];
      forall i | start + stop <= i < |ledger|
        ensures !Recent(ledger[i], cutoff)
      {
      }
    }
  }

  lemma CoversLater(ledger: seq<Signature>, visited: nat, cutoff: int, later: int, written: seq<Signature>)
    requires cutoff <= later && Covers(ledger, visited, cutoff, written)
    ensures Covers(ledger, visited, later, written)
  {
  }

  lemma {:induction false} InsertConcat(rows: map<Key, SigRow>, owner: Address, a: seq<Signature>, b: seq<Signature>)
    ensures InsertSignatures(InsertSignatures(rows, owner, a), owner, b) == InsertSignatures(rows, owner, a + b)
  {
    if b == [] {
      assert a + b == a;
    } else {
      var n := |b| - 1;
      InsertConcat(rows, owner, a, b[..n]);
      assert (a + b)[..|a + b| - 1] == a + b[..n];
    }
  }

  /** The tables after writing entries for an address. */
  function Written(t: Tables, owner: Address, entries: seq<Signature>): Tables {
    t.(signatures := InsertSignatures(t.signatures, owner, entries))
  }

  lemma WrittenConcat(t: Tables, owner: Address, a: seq<Signature>, b: seq<Signature>)
    ensures Written(Written(t, owner, a), owner, b) == Written(t, owner, a + b)
  {
    InsertConcat(t.signatures, owner, a, b);
  }

  // ---------- The loop ----------

  /** tx_limit.to_usize().unwrap_or(1000): negative limits become 1000. */
  function PageBudget(txLimit: i16): nat {
    if txLimit >= 0 then txLimit else 1000
  }

  /** Where the n-th page starts, and what the first n pages contribute. */
  function Position(ledger: seq<Signature>, n: nat): (p: nat)
    ensures p <= |ledger|
  {
    if n == 0 then 0 else PageEnd(ledger, Position(ledger, n - 1))
  }

  function PageOf(ledger: seq<Signature>, n: nat): seq<Signature> {
    ledger[Position(ledger, n)..PageEnd(ledger, Position(ledger, n))]
  }

  function PagesWritten(ledger: seq<Signature>, requestedHours: i16, replies: nat -> PageReply, n: nat)
    : seq<Signature>
  {
    if n == 0 then []
    else
      PagesWritten(ledger, requestedHours, replies, n - 1)
      + if replies(n - 1).Answered? then RecentPart(PageOf(ledger, n - 1),
          Cutoff(requestedHours, replies(n - 1).now)) else []
  }

  lemma NoPages(t: Tables, owner: Address, ledger: seq<Signature>, requestedHours: i16, replies: nat -> PageReply)
    ensures Written(t, owner, PagesWritten(ledger, requestedHours, replies, 0)) == t
  {
  }

  /** What a run of the loop did: the pages it answered, and the entries it wrote with their positions. */
  datatype Summary = Summary(pages: nat, visited: nat, written: seq<Signature>, positions: seq<nat>)

  /** The first n page requests were answered. */
  ghost predicate AllAnswered(replies: nat -> PageReply, n: nat) {
    forall m :: 0 <= m < n ==> replies(m).Answered?
  }

  lemma FewerAnswered(replies: nat -> PageReply, n: nat)
    requires n > 0 && AllAnswered(replies, n)
    ensures AllAnswered(replies, n - 1) && replies(n - 1).Answered?
  {
  }

  /** What holds between two pages. */
  ghost predicate OnTrack(ledger: seq<Signature>, requestedHours: i16, replies: nat -> PageReply, s: Summary) {
    && TakenFrom(ledger, s.written, s.positions, s.visited)
    && s.visited == Position(ledger, s.pages) && s.written == PagesWritten(ledger, requestedHours, replies, s.pages)
    && AllAnswered(replies, s.pages)
    && (s.pages == 0 ==> s.visited == 0 && s.written == [])
    && (s.pages > 0 && ClockAdvances(replies) ==> NoneBefore(s.written, Cutoff(requestedHours, replies(0).now)))
  }

  /** Nothing recent has been missed so far. */
  ghost predicate Gapless(ledger: seq<Signature>, requestedHours: i16, replies: nat -> PageReply, s: Summary) {
    s.visited <= |ledger| && (s.pages > 0 && ClockAdvances(replies) && replies(s.pages - 1).Answered? ==>
      Covers(ledger, s.visited, Cutoff(requestedHours, replies(s.pages - 1).now), s.written))
  }

  function NextCutoff(requestedHours: i16, replies: nat -> PageReply, pages: nat): int
    requires replies(pages).Answered?
  {
    Cutoff(requestedHours, replies(pages).now)
  }

  lemma NextPage(ledger: seq<Signature>, requestedHours: i16, replies: nat -> PageReply, s: Summary)
    returns (s': Summary)
    requires OnTrack(ledger, requestedHours, replies, s) && Gapless(ledger, requestedHours, replies, s)
    requires replies(s.pages).Answered?
    ensures var end := PageEnd(ledger, s.visited);
            var raw, cutoff := ledger[s.visited..end], NextCutoff(requestedHours, replies, s.pages);
            && s'.pages == s.pages + 1 && s'.visited == end && s'.written == s.written + RecentPart(raw, cutoff)
            && OnTrack(ledger, requestedHours, replies, s')
            && (if FirstOld(raw, cutoff) == |raw| then Gapless(ledger, requestedHours, replies, s')
                else ClockAdvances(replies) && NewestFirst(ledger) ==> Covers(ledger, |ledger|, cutoff, s'.written))
  {
    var end := PageEnd(ledger, s.visited);
    var raw, cutoff := ledger[s.visited..end], NextCutoff(requestedHours, replies, s.pages);
    var positions := PageTaken(ledger, s.visited, end, cutoff, s.written, s.positions);
    s' := Summary(s.pages + 1, end, s.written + RecentPart(raw, cutoff), positions);
    if ClockAdvances(replies) {
      if s.pages > 0 {
        assert replies(s.pages - 1).now <= replies(s.pages).now && replies(0).now <= replies(s.pages).now;
        CoversLater(ledger, s.visited, Cutoff(requestedHours, replies(s.pages - 1).now), cutoff, s.written);
      }
      PageCovered(ledger, s.visited, end, cutoff, s.written);
    }
  }

  /** The history ended the paging: a cutoff, or nothing further to fetch. */
  predicate HistoryEnded(page: SignaturesPage) {
    page.reachedCutoff || page.lastSignature.None? || page.rawCount < PAGE_LIMIT
  }

  /** Everything recent for the last page's cutoff has been written, if history is sorted and the clock advances. */
  ghost predicate Complete(ledger: seq<Signature>, requestedHours: i16, replies: nat -> PageReply, s: Summary) {
    && s.pages > 0 && replies(s.pages - 1).Answered?
    && (ClockAdvances(replies) && NewestFirst(ledger) ==>
          Covers(ledger, |ledger|, Cutoff(requestedHours, replies(s.pages - 1).now), s.written))
  }

  /** What one written page adds to the summary. */
  ghost predicate Advanced(ledger: seq<Signature>, requestedHours: i16, replies: nat -> PageReply,
                           s: Summary, s': Summary, page: SignaturesPage) {
    && s'.pages == s.pages + 1 && s'.written == s.written + page.response
    && OnTrack(ledger, requestedHours, replies, s')
    && if HistoryEnded(page) then
         Complete(ledger, requestedHours, replies, s')
       else
         && Gapless(ledger, requestedHours, replies, s')
         && s.visited < s'.visited && PageStart(ledger, page.lastSignature) == s'.visited
  }

  lemma Advance(ledger: seq<Signature>, requestedHours: i16, replies: nat -> PageReply, s: Summary)
    returns (s': Summary)
    requires Distinct(ledger) && replies(s.pages).Answered?
    requires OnTrack(ledger, requestedHours, replies, s) && Gapless(ledger, requestedHours, replies, s)
    ensures Advanced(ledger, requestedHours, replies, s, s',
            PageAt(ledger, s.visited, requestedHours, replies(s.pages).now))
  {
    s' := NextPage(ledger, requestedHours, replies, s);
    var page := PageAt(ledger, s.visited, requestedHours, replies(s.pages).now);
    assert page.rawCount == s'.visited - s.visited;
    if !HistoryEnded(page) {
      PositionAfterEntry(ledger, s'.visited - 1);
    } else if !page.reachedCutoff {
      assert s'.visited == |ledger|;
    }
  }

  /** The end of the history, or of the budget. */
  predicate Stops(page: SignaturesPage, sum: nat, txLimit: nat) {
    HistoryEnded(page) || sum >= txLimit
  }

  /** What the loop can count at most: it stops at the limit, but only between pages. */
  function Bound(txLimit: nat): nat {
    (if txLimit > 1 then txLimit else 1) + PAGE_LIMIT
  }

  /** The last of n answered pages. */
  function LastPage(ledger: seq<Signature>, requestedHours: i16, replies: nat -> PageReply, n: nat): SignaturesPage
    requires n > 0 && replies(n - 1).Answered?
  {
    PageAt(ledger, Position(ledger, n - 1), requestedHours, replies(n - 1).now)
  }

  /** The last of n answered pages ended the history. */
  ghost predicate EndedAt(ledger: seq<Signature>, requestedHours: i16, replies: nat -> PageReply, n: nat) {
    n > 0 && replies(n - 1).Answered? && HistoryEnded(LastPage(ledger, requestedHours, replies, n))
  }

  /** Before the last of n pages the limit had not been reached. */
  ghost predicate UnderLimit(ledger: seq<Signature>, requestedHours: i16, replies: nat -> PageReply, n: nat,
                             txLimit: nat) {
    n > 1 ==> |PagesWritten(ledger, requestedHours, replies, n - 1)| < txLimit
  }

  /** One turn of the loop: fetch a page and write its recent part. */
  method FetchPage(db: Database, address: Address, requestedHours: i16, ledger: seq<Signature>, curLast: Option<Sig>,
                   reply: PageReply, ghost replies: nat -> PageReply, ghost done: Summary)
    returns (r: Result<SignaturesPage, string>, ghost done': Summary)
    requires db.Valid() && Distinct(ledger) && reply == replies(done.pages)
    requires OnTrack(ledger, requestedHours, replies, done) && Gapless(ledger, requestedHours, replies, done)
    requires PageStart(ledger, curLast) == done.visited
    modifies db
    ensures db.Valid() && old(db.statements) <= db.statements
    ensures r.Err? ==> db.All() == old(db.All()) && done' == done
    ensures r.Err? ==> reply.Refused? || exists n :: old(db.statements) <= n && db.fails(n)
    ensures r.Ok? ==> reply.Answered? && db.All() == Written(old(db.All()), address, r.value.response)
    ensures r.Ok? ==> (HistoryEnded(r.value) <==> EndedAt(ledger, requestedHours, replies, done.pages + 1))
    ensures r.Ok? ==>
              Advanced(ledger, requestedHours, replies, done, done', r.value) && |r.value.response| <= PAGE_LIMIT
  {
    done' := done;
    r := GetSignatures(ledger, curLast, requestedHours, reply);
    if r.Ok? {
      var inserted := db.WriteSignatures(r.value.response, address);
      if inserted.Err? {
        return Err(inserted.error), done;
      }
      done' := Advance(ledger, requestedHours, replies, done);
    }
  }

  /** The done summary names every page answered, and with it exactly what was written. */
  method FetchSignatures(db: Database, address: Address, txLimit: nat, requestedHours: i16,
                         ledger: seq<Signature>, replies: nat -> PageReply)
    returns (r: Result<(), string>, sum: nat, ghost done: Summary, ghost complete: bool)
    requires db.Valid() && Distinct(ledger)
    modifies db
    ensures db.Valid() && old(db.statements) <= db.statements
    // What is in the table.
    ensures db.All() == Written(old(db.All()), address, done.written)
    // No entry is visited twice, and none is written that the first page would have cut off.
    ensures OnTrack(ledger, requestedHours, replies, done)
    // How far it went.
    ensures r.Ok? ==> done.pages > 0 && sum == |done.written| < Bound(txLimit)
    ensures r.Ok? && !complete ==> sum >= txLimit
    ensures r.Ok? ==> UnderLimit(ledger, requestedHours, replies, done.pages, txLimit)
    ensures r.Ok? ==> (complete <==> EndedAt(ledger, requestedHours, replies, done.pages))
    ensures r.Ok? && complete ==> Complete(ledger, requestedHours, replies, done)
    // Why it failed.
    ensures r.Err? ==> replies(done.pages).Refused? || exists n :: old(db.statements) <= n && db.fails(n)
  {
    var curLast: Option<Sig> := None;
    var pages: nat := 0;
    sum := 0;
    done, complete := Summary(0, 0, [], []), false;
    r := Ok(());
    ghost var before := db.All();
    while true
      invariant r.Ok?
      invariant db.Valid() && old(db.statements) <= db.statements
      invariant db.All() == Written(before, address, done.written)
      invariant OnTrack(ledger, requestedHours, replies, done) && Gapless(ledger, requestedHours, replies, done)
      invariant done.pages == pages && sum == |done.written|
      invariant PageStart(ledger, curLast) == done.visited
      invariant pages > 0 ==> sum < txLimit
      decreases |ledger| - done.visited
    {
      ghost var last := done;
      var page;
      page, done := FetchPage(db, address, requestedHours, ledger, curLast, replies(pages), replies, done);
      if page.Err? {
        r := Err(page.error);
        break;
      }
      WrittenConcat(before, address, last.written, page.value.response);
      sum := sum + |page.value.response|;
      pages := pages + 1;
      complete := HistoryEnded(page.value);
      assert UnderLimit(ledger, requestedHours, replies, done.pages, txLimit) by {
        assert done.pages == last.pages + 1;
      }
      assert sum < Bound(txLimit);
      if Stops(page.value, sum, txLimit) {
        assert complete ==> Complete(ledger, requestedHours, replies, done);
        break;
      }
      curLast := page.value.lastSignature;
    }
  }
}
