/** What the extraction in Transfers promises: order, index pairs, owners and fallbacks. */
module TransferProperties {
  import opened Wrappers
  import opened TransactionTypes
  import opened Transfers

  // ---------- Order and completeness ----------

  /** What each slot yields, and the values among them. */
  function Readings(slots: seq<Slot>, meta: MetaMap): seq<Option<TokenTransferChange>> {
    seq(|slots|, i requires 0 <= i < |slots| => SlotTransfer(slots[i], meta))
  }

  lemma {:induction false} FilterMapIsPresent(slots: seq<Slot>, meta: MetaMap)
    ensures FilterMap(slots, meta) == Present(Readings(slots, meta))
  {
    if slots != [] {
      var n := |slots| - 1;
      FilterMapIsPresent(slots[..n], meta);
      assert Readings(slots, meta)[..n] == Readings(slots[..n], meta);
    }
  }

  /** The transfers sit at increasing slot positions, and every slot that has a transfer is among them. */
  lemma TransferPositions(slots: seq<Slot>, meta: MetaMap) returns (p: seq<nat>)
    ensures |p| == |FilterMap(slots, meta)| && Increasing(p, |slots|)
    ensures forall k :: 0 <= k < |p| ==> SlotTransfer(slots[p[k]], meta) == Some(FilterMap(slots, meta)[k])
    ensures forall i :: 0 <= i < |slots| && SlotTransfer(slots[i], meta).Some? ==> i in p
  {
    var readings := Readings(slots, meta);
    FilterMapIsPresent(slots, meta);
    p := Positions(readings);
    PresentByPosition(readings);
  }

  // ---------- Index pairs ----------

  predicate SamePair(a: Slot, b: Slot) {
    a.instructionIdx == b.instructionIdx && a.innerIdx == b.innerIdx
  }

  ghost predicate PairsDistinct(slots: seq<Slot>) {
    forall i, j :: 0 <= i < j < |slots| ==> !SamePair(slots[i], slots[j])
  }

  /** What a caller can check beforehand: lengths fit i32 and non-empty inner groups have distinct indices. */
  predicate IndicesFit(info: TransactionInfo) {
    var groups := info.meta.innerInstructions;
    && |info.transaction.message.instructions| <= I32_LIMIT
    && (forall g :: 0 <= g < |groups| ==> |groups[g].instructions| <= I32_LIMIT)
    && (forall g, h :: 0 <= g < h < |groups| && groups[g].instructions != [] && groups[h].instructions != []
                       ==> groups[g].index != groups[h].index)
  }

  /** Where group `g` begins in the list of inner slots. */
  function Offset(groups: seq<InnerInstructions>, g: nat): nat
    requires g <= |groups|
  {
    |InnerSlots(groups[..g])|
  }

  lemma {:induction false} InnerSlotAt(groups: seq<InnerInstructions>, g: nat, j: nat)
    requires g < |groups| && j < |groups[g].instructions|
    ensures Offset(groups, g) + j < Offset(groups, g + 1) <= |InnerSlots(groups)|
    ensures InnerSlots(groups)[Offset(groups, g) + j] == GroupSlots(groups[g])[j]
  {
    var n := |groups| - 1;
    assert groups[..g + 1][..g] == groups[..g];
    if g == n {
      assert groups[..g + 1] == groups;
    } else {
      InnerSlotAt(groups[..n], g, j);
      assert groups[..n][..g] == groups[..g] && groups[..n][..g + 1] == groups[..g + 1];
    }
  }

  lemma {:induction false} OffsetMonotone(groups: seq<InnerInstructions>, g: nat, h: nat)
    requires g <= h <= |groups|
    ensures Offset(groups, g) <= Offset(groups, h)
  {
    if g < h {
      OffsetMonotone(groups, g, h - 1);
      assert groups[..h][..h - 1] == groups[..h - 1];
    }
  }

  lemma {:induction false} InnerSlotOrigin(groups: seq<InnerInstructions>, k: nat) returns (g: nat, j: nat)
    requires k < |InnerSlots(groups)|
    ensures g < |groups| && j < |groups[g].instructions| && InnerSlots(groups)[k] == GroupSlots(groups[g])[j]
  {
    var n := |groups| - 1;
    var before := InnerSlots(groups[..n]);
    if k < |before| {
      g, j := InnerSlotOrigin(groups[..n], k);
    } else {
      g, j := n, k - |before|;
    }
  }

  lemma {:induction false} InnerPairsDistinct(groups: seq<InnerInstructions>)
    requires forall g :: 0 <= g < |groups| ==> |groups[g].instructions| <= I32_LIMIT
    requires forall g, h :: 0 <= g < h < |groups| && groups[g].instructions != [] && groups[h].instructions != []
                            ==> groups[g].index != groups[h].index
    ensures PairsDistinct(InnerSlots(groups))
  {
    if groups != [] {
      var n := |groups| - 1;
      var before, last := InnerSlots(groups[..n]), GroupSlots(groups[n]);
      InnerPairsDistinct(groups[..n]);
      forall i, j | 0 <= i < |before| && 0 <= j < |last|
        ensures !SamePair(before[i], last[j])
      {
        var g, _ := InnerSlotOrigin(groups[..n], i);
        assert groups[..n][g] == groups[g];
        assert groups[n].instructions != [];
      }
    }
  }

  /** The index pairs of all slots are pairwise distinct exactly when the indices fit. */
  lemma SlotPairsDistinctIff(info: TransactionInfo)
    ensures PairsDistinct(Slots(info)) <==> IndicesFit(info)
  {
    var top, groups := TopSlots(info.transaction.message.instructions), info.meta.innerInstructions;
    var inner := InnerSlots(groups);
    if IndicesFit(info) {
      InnerPairsDistinct(groups);
      forall i, j | 0 <= i < |top| && 0 <= j < |inner|
        ensures !SamePair(top[i], inner[j])
      {
        var _, _ := InnerSlotOrigin(groups, j);
      }
    } else {
      ClashingPair(info);
    }
  }

  lemma InnerSlotInAll(info: TransactionInfo, g: nat, j: nat)
    requires g < |info.meta.innerInstructions| && j < |info.meta.innerInstructions[g].instructions|
    ensures var k := |info.transaction.message.instructions| + Offset(info.meta.innerInstructions, g) + j;
            k < |Slots(info)| && Slots(info)[k] == GroupSlots(info.meta.innerInstructions[g])[j]
  {
    InnerSlotAt(info.meta.innerInstructions, g, j);
  }

  lemma Clash(slots: seq<Slot>, i: nat, j: nat)
    requires i < j < |slots| && SamePair(slots[i], slots[j])
    ensures !PairsDistinct(slots)
  {
  }

  lemma ClashingPair(info: TransactionInfo)
    requires !IndicesFit(info)
    ensures !PairsDistinct(Slots(info))
  {
    var n := |info.transaction.message.instructions|;
    var groups := info.meta.innerInstructions;
    if n > I32_LIMIT {
      Clash(Slots(info), 0, I32_LIMIT);
    } else if exists g :: 0 <= g < |groups| && |groups[g].instructions| > I32_LIMIT {
      var g :| 0 <= g < |groups| && |groups[g].instructions| > I32_LIMIT;
      InnerSlotInAll(info, g, 0);
      InnerSlotInAll(info, g, I32_LIMIT);
      Clash(Slots(info), n + Offset(groups, g), n + Offset(groups, g) + I32_LIMIT);
    } else {
      var g, h :| 0 <= g < h < |groups| && groups[g].instructions != [] && groups[h].instructions != []
               && groups[g].index == groups[h].index;
      InnerSlotInAll(info, g, 0);
      InnerSlotInAll(info, h, 0);
      InnerSlotAt(groups, g, 0);
      OffsetMonotone(groups, g + 1, h);
      Clash(Slots(info), n + Offset(groups, g), n + Offset(groups, h));
    }
  }

  /** A transfer carries the index pair of its slot. */
  lemma TransferCarriesPair(slot: Slot, meta: MetaMap)
    requires SlotTransfer(slot, meta).Some?
    ensures SlotTransfer(slot, meta).value.instructionIdx == Some(slot.instructionIdx)
    ensures SlotTransfer(slot, meta).value.innerIdx == slot.innerIdx
  {
  }

  /** Of two slots that share an index pair, the first reads as no transfer or the second reads differently. */
  ghost predicate TransfersApart(info: TransactionInfo) {
    var slots, meta := Slots(info), BuildMeta(AllAccountKeys(info), Balances(info));
    forall i, j :: 0 <= i < j < |slots| && SamePair(slots[i], slots[j]) && SlotTransfer(slots[i], meta).Some? ==>
      SlotTransfer(slots[i], meta) != SlotTransfer(slots[j], meta)
  }

  /** No two transfers of a transaction are equal exactly when slots that share an index pair do not read the same. */
  lemma TransfersDistinctIff(info: TransactionInfo)
    ensures NoRepeats(TransfersOf(info)) <==> TransfersApart(info)
  {
    var slots, meta := Slots(info), BuildMeta(AllAccountKeys(info), Balances(info));
    var p := TransferPositions(slots, meta);
    if TransfersApart(info) {
      forall k, l | 0 <= k < l < |p|
        ensures TransfersOf(info)[k] != TransfersOf(info)[l]
      {
        TransferCarriesPair(slots[p[k]], meta);
        TransferCarriesPair(slots[p[l]], meta);
        assert SamePair(slots[p[k]], slots[p[l]]) ==>
            SlotTransfer(slots[p[k]], meta) != SlotTransfer(slots[p[l]], meta);
      }
    } else {
      var i, j :| 0 <= i < j < |slots| && SamePair(slots[i], slots[j]) && SlotTransfer(slots[i], meta).Some?
                  && SlotTransfer(slots[i], meta) == SlotTransfer(slots[j], meta);
      EqualReadingsRepeat(slots, meta, p, i, j);
    }
  }

  lemma EqualReadingsRepeat(slots: seq<Slot>, meta: MetaMap, p: seq<nat>, i: nat, j: nat)
    requires i < j && i in p && j in p && Increasing(p, |slots|) && |p| == |FilterMap(slots, meta)|
    requires forall k :: 0 <= k < |p| ==> SlotTransfer(slots[p[k]], meta) == Some(FilterMap(slots, meta)[k])
    requires SlotTransfer(slots[i], meta) == SlotTransfer(slots[j], meta)
    ensures !NoRepeats(FilterMap(slots, meta))
  {
    var k :| 0 <= k < |p| && p[k] == i;
    var l :| 0 <= l < |p| && p[l] == j;
    assert k < l;
    assert Some(FilterMap(slots, meta)[k]) == Some(FilterMap(slots, meta)[l]);
  }

  /** When the indices fit, no two transfers of a transaction are equal, whatever their other fields hold. */
  lemma TransfersDistinct(info: TransactionInfo)
    requires IndicesFit(info)
    ensures TransfersApart(info) && NoRepeats(TransfersOf(info))
  {
    SlotPairsDistinctIff(info);
    TransfersDistinctIff(info);
  }

  // ---------- Owners, mint and decimals ----------

  /** The last balance known for an account, read from the transaction itself. */
  function KnownMeta(tx: TransactionInfo, account: Option<string>): Option<TokenAccountMeta> {
    if account.None? then None else LastMeta(AllAccountKeys(tx), Balances(tx), account.value)
  }

  lemma LookupIsKnownMeta(tx: TransactionInfo, account: Option<string>)
    ensures Lookup(BuildMeta(AllAccountKeys(tx), Balances(tx)), account) == KnownMeta(tx, account)
  {
    var meta := BuildMeta(AllAccountKeys(tx), Balances(tx));
    if account.Some? {
      assert (if account.value in meta then Some(meta[account.value]) else None)
          == LastMeta(AllAccountKeys(tx), Balances(tx), account.value);
    }
  }

  /**
   * Every SPL transfer: owners come from the last balance of its own source and destination accounts,
   * and an absent mint or decimals is taken from the source account, failing that from the destination.
   */
  lemma SplTransferReading(tx: TransactionInfo, slot: Slot)
    requires IsSpl(slot.instruction)
    requires SlotTransfer(slot, BuildMeta(AllAccountKeys(tx), Balances(tx))).Some?
    ensures var t := SlotTransfer(slot, BuildMeta(AllAccountKeys(tx), Balances(tx))).value;
            var info := slot.instruction.parsed.value.info;
            var known := KnownMeta(tx, t.sourceTokenAccount);
            var knownTo := KnownMeta(tx, t.destinationTokenAccount);
            && t.assetType == "spl"
            && t.transferType in ["transfer", "mint", "burn"]
            && (t.transferType == "transfer" ==>
                  t.sourceTokenAccount == info.source && t.destinationTokenAccount == info.destination)
            && (t.transferType == "mint" && info.account.Some? ==> t.destinationTokenAccount == info.account)
            && (t.transferType == "burn" && info.account.Some? ==> t.sourceTokenAccount == info.account)
            && (t.sourceOwner.Some? <==> known.Some?) && (known.Some? ==> t.sourceOwner.value == known.value.owner)
            && (t.destinationOwner.Some? <==> knownTo.Some?)
            && (knownTo.Some? ==> t.destinationOwner.value == knownTo.value.owner)
            && (info.mint.Some? ==> t.tokenMint == info.mint)
            && (info.mint.None? && known.Some? ==> t.tokenMint == Some(known.value.mint))
            && (info.mint.None? && known.None? && knownTo.Some? ==> t.tokenMint == Some(knownTo.value.mint))
            && (info.mint.None? && known.None? && knownTo.None? ==> t.tokenMint.None?)
            && (info.tokenAmount.Some? ==> t.decimals == Some(info.tokenAmount.value.decimals))
            && (info.tokenAmount.None? && info.decimals.Some? ==> t.decimals == info.decimals)
            && (info.tokenAmount.None? && info.decimals.None? && known.Some? ==>
                  t.decimals == Some(known.value.decimals))
            && (info.tokenAmount.None? && info.decimals.None? && known.None? && knownTo.Some?
                ==> t.decimals == Some(knownTo.value.decimals))
  {
    var meta := BuildMeta(AllAccountKeys(tx), Balances(tx));
    var t := SlotTransfer(slot, meta).value;
    LookupIsKnownMeta(tx, t.sourceTokenAccount);
    LookupIsKnownMeta(tx, t.destinationTokenAccount);
  }

  // ---------- Amounts ----------

  /** The decimal digits of a number, without leading zeros. */
  function Decimal(n: nat): (s: string)
    ensures |s| > 0 && forall i :: 0 <= i < |s| ==> IsDigit(s[i])
  {
    var last := [('0' as int + n % 10) as char];
    if n < 10 then last else Decimal(n / 10) + last
  }

  lemma {:induction false} DigitsOfDecimal(n: nat)
    ensures DigitsValue(Decimal(n)) == n
  {
    var last := [('0' as int + n % 10) as char];
    assert DigitsValue("") == 0;
    if n < 10 {
      assert Decimal(n) == last && last[..0] == "";
    } else {
      DigitsOfDecimal(n / 10);
      assert Decimal(n)[..|Decimal(n)| - 1] == Decimal(n / 10);
    }
  }

  function Signed(n: int): string {
    if n < 0 then "-" + Decimal(-n) else Decimal(n)
  }

  /** Reading back a written amount yields that amount when it fits 128 bits, and nothing otherwise. */
  lemma ParseWritten(n: int)
    ensures ParseI128(Signed(n)) == if -I128_LIMIT <= n < I128_LIMIT then Some(n) else None
  {
    var digits := Decimal(if n < 0 then -n else n);
    DigitsOfDecimal(if n < 0 then -n else n);
    if n < 0 {
      ParseSigned(Signed(n), digits, true);
    } else {
      assert IsDigit(digits[0]);
      ParseSigned(Signed(n), digits, false);
    }
  }

  lemma ParseSigned(text: string, digits: string, negative: bool)
    requires digits != "" && forall i :: 0 <= i < |digits| ==> IsDigit(digits[i])
    requires text != "" && text[0] != '+' && (negative <==> text[0] == '-')
    requires digits == if negative then text[1..] else text
    ensures var magnitude: int := DigitsValue(digits);
            var value := if negative then -magnitude else magnitude;
            ParseI128(text) == if -I128_LIMIT <= value < I128_LIMIT then Some(value) else None
  {
  }

  /** Splitting lamports into 32-bit halves and joining them loses nothing; one SOL is 10^9 lamports. */
  lemma NativeAmountExact(info: ParsedInfo, transferType: string, instructionIdx: i32, innerIdx: Option<i32>)
    ensures var t := ParseNativeTransfer(info, transferType, instructionIdx, innerIdx);
            && (t.Some? <==> info.lamports.Some?)
            && (t.Some? ==>
                  && t.value.amountRaw == info.lamports.value
                  && t.value.amountUi.Some? && t.value.amountUi.value * 1_000_000_000.0 == t.value.amountRaw as real
                  && t.value.decimals == Some(9)
                  && t.value.tokenMint.None? && t.value.sourceTokenAccount.None?
                      && t.value.destinationTokenAccount.None?)
  {
    if info.lamports.Some? {
      var lamports := info.lamports.value;
      assert lamports / 0x1_0000_0000 * 4_294_967_296 + lamports % 0x1_0000_0000 == lamports;
    }
  }

  /**
   * An SPL instruction yields a transfer exactly when its amount text is a 128-bit integer. Its amount in UI
   * units is the one stated, and otherwise the raw amount scaled by whatever decimals were found.
   */
  lemma SplAmount(info: ParsedInfo, transferType: string, programId: Option<string>, meta: MetaMap,
                  instructionIdx: i32, innerIdx: Option<i32>)
    ensures var t := ParseSplTransfer(info, transferType, programId, meta, instructionIdx, innerIdx);
            var text := if info.tokenAmount.Some? then Some(info.tokenAmount.value.amount) else info.amount;
            var stated := if info.tokenAmount.Some? then info.tokenAmount.value.uiAmount else info.uiAmount;
            && (t.Some? <==> text.Some? && ParseI128(text.value).Some?)
            && (t.Some? ==>
                  && Some(t.value.amountRaw) == ParseI128(text.value)
                  && (stated.Some? ==> t.value.amountUi == stated)
                  && (t.value.amountUi.None? <==> stated.None? && t.value.decimals.None?)
                  && (stated.None? && t.value.decimals.Some? ==>
                        t.value.amountUi.value * Pow10(t.value.decimals.value) as real == t.value.amountRaw as real))
  {
    var t := ParseSplTransfer(info, transferType, programId, meta, instructionIdx, innerIdx);
    if t.Some? && t.value.decimals.Some? {
      var raw, scale := t.value.amountRaw as real, Pow10(t.value.decimals.value) as real;
      assert raw / scale * scale == raw;
    }
  }
}
