/** The signature statements on a single fresh row, beside rows that are all processed. */
module OneRow {
  import opened Wrappers
  import opened TransactionTypes
  import opened Pagination
  import opened Tables
  import TableProperties

  ghost predicate Done(rows: map<Key, SigRow>) {
    forall k :: k in rows ==> rows[k].isProcessed
  }

  /** The row when it has been written, leased and marked, all at `now`. */
  function Fresh(rows: map<Key, SigRow>, key: Key, now: int): map<Key, SigRow> {
    rows[key := FreshRow(Some(now))]
  }

  function Leased(rows: map<Key, SigRow>, key: Key, now: int): map<Key, SigRow> {
    rows[key := SigRow(Some(now), false, true, Some(now))]
  }

  function Marked(rows: map<Key, SigRow>, key: Key, now: int): map<Key, SigRow> {
    rows[key := SigRow(Some(now), true, false, Some(now))]
  }

  lemma Write(rows: map<Key, SigRow>, key: Key, now: int)
    requires key !in rows
    ensures var page := [Signature(Some(now), key.signature)];
            InsertSignatures(rows, key.owner, RecentPart(page, Cutoff(1, now))) == Fresh(rows, key, now)
  {
    var entry := Signature(Some(now), key.signature);
    TableProperties.OneEntryPage(entry, Cutoff(1, now));
    assert [entry][..0] == [];
    assert InsertSignatures(rows, key.owner, []) == rows;
    assert key == Key(key.owner, key.signature);
  }

  lemma Lease(rows: map<Key, SigRow>, key: Key, now: int, limit: nat)
    requires key !in rows && Done(rows) && limit > 0
    ensures IsBatch(Fresh(rows, key, now), key.owner, now, limit, [key.signature])
    ensures LeaseRows(Fresh(rows, key, now), key.owner, [key.signature], now) == Leased(rows, key, now)
  {
    assert Claimable(Fresh(rows, key, now), key.owner, now) == {key};
    assert key == Key(key.owner, key.signature);
    LeaseOnly(rows, key, now);
  }

  lemma LeaseOnly(rows: map<Key, SigRow>, key: Key, now: int)
    requires key !in rows
    ensures LeaseRows(Fresh(rows, key, now), key.owner, [key.signature], now) == Leased(rows, key, now)
  {
    forall k | k in rows
      ensures !InBatch(k, key.owner, [key.signature])
    {
      assert k == Key(k.owner, k.signature) && k != key;
    }
  }

  lemma Mark(rows: map<Key, SigRow>, key: Key, now: int)
    requires key !in rows
    ensures MarkRows(Leased(rows, key, now), key.owner, [key.signature]) == Marked(rows, key, now)
  {
    forall k | k in rows
      ensures !InBatch(k, key.owner, [key.signature])
    {
      assert k == Key(k.owner, k.signature) && k != key;
    }
  }

  /** While the lease lives, and once the row is marked, nothing of the owner can be leased. */
  lemma NothingToLease(rows: map<Key, SigRow>, key: Key, now: int, limit: nat)
    requires key !in rows && Done(rows)
    ensures IsBatch(Leased(rows, key, now), key.owner, now, limit, [])
    ensures IsBatch(Marked(rows, key, now), key.owner, now, limit, [])
  {
    assert Claimable(Leased(rows, key, now), key.owner, now) == {};
    assert Claimable(Marked(rows, key, now), key.owner, now) == {};
  }
}
