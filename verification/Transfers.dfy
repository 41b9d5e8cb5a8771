/**
 * src/requests/types.rs: extraction of token and native transfers from a transaction.
 *
 * The nested loops of the source are methods here. They are proved against a flat reading:
 * one list of instruction slots, filtered and mapped in order.
 */
module Transfers {
  import opened Wrappers
  import opened TransactionTypes

  const SYSTEM_PROGRAM := "11111111111111111111111111111111"
  const TOKEN_PROGRAM := "TokenkegQfeZyiNwAJbNbGKPFXCWuBvf9Ss623VQ5DA"

  datatype TokenAccountMeta = TokenAccountMeta(owner: string, mint: string, decimals: u8)
  type MetaMap = map<string, TokenAccountMeta>

  // ---------- Raw amounts ----------

  predicate IsDigit(c: char) {
    '0' <= c <= '9'
  }

  predicate AllDigits(s: string) {
    forall i :: 0 <= i < |s| ==> IsDigit(s[i])
  }

  function DigitsValue(s: string): nat
    requires AllDigits(s)
  {
    if s == "" then 0
    else
      assert IsDigit(s[|s| - 1]);
      10 * DigitsValue(s[..|s| - 1]) + (s[|s| - 1] as int - '0' as int)
  }

  /** str::parse::<i128>: an optional sign, at least one digit, and no overflow. */
  function ParseI128(s: string): Option<int> {
    var negative := s != "" && s[0] == '-';
    var digits := if s != "" && (s[0] == '-' || s[0] == '+') then s[1..] else s;
    if digits == "" || !AllDigits(digits) then
      None
    else
      var magnitude: int := DigitsValue(digits);
      var value := if negative then -magnitude else magnitude;
      if -I128_LIMIT <= value < I128_LIMIT then Some(value) else None
  }

  function Pow10(n: nat): nat
    ensures Pow10(n) > 0
  {
    if n == 0 then 1 else 10 * Pow10(n - 1)
  }

  // ---------- Accounts ----------

  function KeyText(key: AccountKey): string {
    match key
    case Pubkey(s) => s
    case Info(s, _) => s
  }

  function Pubkeys(keys: seq<AccountKey>): seq<string> {
    seq(|keys|, i requires 0 <= i < |keys| => KeyText(keys[i]))
  }

  function AllAccountKeys(info: TransactionInfo): seq<string> {
    var keys := Pubkeys(info.transaction.message.keys);
    match info.meta.loadedAddresses
    case None => keys
    case Some(loaded) => keys + loaded.writable + loaded.readonly
  }

  function Balances(info: TransactionInfo): seq<TokenBalance> {
    info.meta.preTokenBalances + info.meta.postTokenBalances
  }

  /** Balance `b` names account `account` through its index. */
  predicate Resolves(keys: seq<string>, b: TokenBalance, account: string) {
    b.accountIndex < |keys| && keys[b.accountIndex] == account
  }

  function MetaOf(b: TokenBalance): TokenAccountMeta {
    TokenAccountMeta(b.owner, b.mint, b.uiTokenAmount.decimals)
  }

  /** What is known about `account`: the last balance that resolves to it, searched from the end. */
  function LastMeta(keys: seq<string>, balances: seq<TokenBalance>, account: string): Option<TokenAccountMeta> {
    if balances == [] then None
    else if Resolves(keys, balances[|balances| - 1], account) then Some(MetaOf(balances[|balances| - 1]))
    else LastMeta(keys, balances[..|balances| - 1], account)
  }

  /** `meta` holds exactly the accounts some balance resolves to, each with its last balance. */
  ghost predicate IsLastBalanceMap(keys: seq<string>, balances: seq<TokenBalance>, meta: MetaMap) {
    forall account :: (if account in meta then Some(meta[account]) else None) == LastMeta(keys, balances, account)
  }

  /** The hash map of the source, filled balance by balance with later entries overwriting. */
  method TokenAccountMetaMap(info: TransactionInfo) returns (meta: MetaMap)
    ensures IsLastBalanceMap(AllAccountKeys(info), Balances(info), meta)
  {
    var keys := AllAccountKeys(info);
    var balances := Balances(info);
    meta := map[];
    for n := 0 to |balances|
      invariant IsLastBalanceMap(keys, balances[..n], meta)
    {
      var balance := balances[n];
      assert balances[..n + 1][..n] == balances[..n];
      if balance.accountIndex < |keys| {
        meta := meta[keys[balance.accountIndex] := MetaOf(balance)];
      }
    }
    assert balances[..|balances|] == balances;
  }

  /** The account map as a value: the unique map with that property. */
  function BuildMeta(keys: seq<string>, balances: seq<TokenBalance>): (meta: MetaMap)
    ensures IsLastBalanceMap(keys, balances, meta)
  {
    if balances == [] then map[]
    else
      var last := balances[|balances| - 1];
      var rest := BuildMeta(keys, balances[..|balances| - 1]);
      if last.accountIndex < |keys| then rest[keys[last.accountIndex] := MetaOf(last)] else rest
  }

  lemma MetaMapUnique(keys: seq<string>, balances: seq<TokenBalance>, a: MetaMap, b: MetaMap)
    requires IsLastBalanceMap(keys, balances, a) && IsLastBalanceMap(keys, balances, b)
    ensures a == b
  {
    forall account
      ensures account in a <==> account in b
      ensures account in a && account in b ==> a[account] == b[account]
    {
      assert LastMeta(keys, balances, account) == LastMeta(keys, balances, account);
    }
  }

  /** LastMeta, stated by position: the entry of the greatest resolving index, and None when there is none. */
  lemma {:induction false} LastMetaIsLatestBalance(keys: seq<string>, balances: seq<TokenBalance>, account: string)
    ensures LastMeta(keys, balances, account).None? <==>
            forall i :: 0 <= i < |balances| ==> !Resolves(keys, balances[i], account)
    ensures forall i :: 0 <= i < |balances| && Resolves(keys, balances[i], account)
                     && (forall j :: i < j < |balances| ==> !Resolves(keys, balances[j], account))
                     ==> LastMeta(keys, balances, account) == Some(MetaOf(balances[i]))
  {
    if balances != [] {
      LastMetaIsLatestBalance(keys, balances[..|balances| - 1], account);
      assert forall j :: 0 <= j < |balances| - 1 ==> balances[..|balances| - 1][j] == balances[j];
    }
  }

  // ---------- One instruction ----------

  function Lookup(meta: MetaMap, account: Option<string>): Option<TokenAccountMeta> {
    if account.Some? && account.value in meta then Some(meta[account.value]) else None
  }

  function OwnerOf(m: Option<TokenAccountMeta>): Option<string> {
    if m.Some? then Some(m.value.owner) else None
  }

  function MintOf(m: Option<TokenAccountMeta>): Option<string> {
    if m.Some? then Some(m.value.mint) else None
  }

  function DecimalsOf(m: Option<TokenAccountMeta>): Option<u8> {
    if m.Some? then Some(m.value.decimals) else None
  }

  predicate IsRelevant(instructionType: string) {
    instructionType in ["transfer", "transferChecked", "mintTo", "mintToChecked", "burn", "burnChecked"]
  }

  function NormalizedType(instructionType: string): string {
    if instructionType in ["transfer", "transferChecked"] then "transfer"
    else if instructionType in ["mintTo", "mintToChecked"] then "mint"
    else if instructionType in ["burn", "burnChecked"] then "burn"
    else "unknown"
  }

  predicate IsSystem(instruction: Instruction) {
    instruction.programId == Some(SYSTEM_PROGRAM) || instruction.program == Some("system")
  }

  predicate IsSpl(instruction: Instruction) {
    || instruction.programId == Some(TOKEN_PROGRAM)
    || instruction.program == Some("spl-token")
    || instruction.program == Some("spl-token-2022")
  }

  function ParseNativeTransfer(info: ParsedInfo, transferType: string, instructionIdx: i32,
                               innerIdx: Option<i32>): Option<TokenTransferChange>
  {
    if info.lamports.None? then None
    else
      var lamports := info.lamports.value;
      var high := lamports / 0x1_0000_0000;
      var low := lamports % 0x1_0000_0000;
      var scaled := (high * 4_294_967_296 + low) as real;
      Some(TokenTransferChange(
             None, None, info.source, info.destination, None, None,
             lamports, Some(scaled / 1_000_000_000.0), Some(9),
             transferType, "native", "unknown", info.authority, Some(instructionIdx), innerIdx))
  }

  function ParseSplTransfer(info: ParsedInfo, transferType: string, programId: Option<string>, meta: MetaMap,
                            instructionIdx: i32, innerIdx: Option<i32>): Option<TokenTransferChange>
  {
    var text := if info.tokenAmount.Some? then Some(info.tokenAmount.value.amount) else info.amount;
    if text.None? || ParseI128(text.value).None? then None
    else
      var amountRaw := ParseI128(text.value).value;
      var statedUi := if info.tokenAmount.Some? then info.tokenAmount.value.uiAmount else info.uiAmount;
      var statedDecimals := if info.tokenAmount.Some? then Some(info.tokenAmount.value.decimals) else info.decimals;
      var source := if transferType == "burn" then OrElse(info.account, info.source) else info.source;
      var destination := if transferType == "mint" then OrElse(info.account, info.destination) else info.destination;
      var sourceMeta := Lookup(meta, source);
      var destinationMeta := Lookup(meta, destination);
      var tokenMint := OrElse(info.mint, OrElse(MintOf(sourceMeta), MintOf(destinationMeta)));
      var decimals := OrElse(statedDecimals, OrElse(DecimalsOf(sourceMeta), DecimalsOf(destinationMeta)));
      var amountUi :=
        if statedUi.None? && decimals.Some? then Some(amountRaw as real / Pow10(decimals.value) as real) else statedUi;
      Some(TokenTransferChange(
             tokenMint, programId, OwnerOf(sourceMeta), OwnerOf(destinationMeta), source, destination,
             amountRaw, amountUi, decimals,
             transferType, "spl", "unknown", info.authority, Some(instructionIdx), innerIdx))
  }

  /** An instruction with the two indices its transfer would carry. */
  datatype Slot = Slot(instruction: Instruction, instructionIdx: i32, innerIdx: Option<i32>)

  /** The transfer of one slot, if it has one. */
  function SlotTransfer(slot: Slot, meta: MetaMap): Option<TokenTransferChange> {
    if slot.instruction.parsed.None? then None
    else
      var parsed := slot.instruction.parsed.value;
      if !IsRelevant(parsed.instructionType) then None
      else if IsSpl(slot.instruction) then
        ParseSplTransfer(parsed.info, NormalizedType(parsed.instructionType), slot.instruction.programId, meta,
                         slot.instructionIdx, slot.innerIdx)
      else if IsSystem(slot.instruction) then
        ParseNativeTransfer(parsed.info, NormalizedType(parsed.instructionType), slot.instructionIdx, slot.innerIdx)
      else None
  }

  // ---------- The flat reading ----------

  function TopSlots(instructions: seq<Instruction>): seq<Slot> {
    seq(|instructions|, i requires 0 <= i < |instructions| => Slot(instructions[i], ToI32(i), None))
  }

  function GroupSlots(group: InnerInstructions): seq<Slot> {
    seq(|group.instructions|, j requires 0 <= j < |group.instructions| =>
      Slot(group.instructions[j], group.index, Some(ToI32(j))))
  }

  function InnerSlots(groups: seq<InnerInstructions>): seq<Slot> {
    if groups == [] then [] else InnerSlots(groups[..|groups| - 1]) + GroupSlots(groups[|groups| - 1])
  }

  /** Top-level instructions in order, then every inner group in order. */
  function Slots(info: TransactionInfo): seq<Slot> {
    TopSlots(info.transaction.message.instructions) + InnerSlots(info.meta.innerInstructions)
  }

  function FilterMap(slots: seq<Slot>, meta: MetaMap): seq<TokenTransferChange> {
    if slots == [] then []
    else
      var rest := FilterMap(slots[..|slots| - 1], meta);
      var last := SlotTransfer(slots[|slots| - 1], meta);
      if last.Some? then rest + [last.value] else rest
  }

  /** All transfers of a transaction, in slot order. */
  function TransfersOf(info: TransactionInfo): seq<TokenTransferChange> {
    FilterMap(Slots(info), BuildMeta(AllAccountKeys(info), Balances(info)))
  }

  lemma {:induction false} FilterMapAppend(a: seq<Slot>, b: seq<Slot>, meta: MetaMap)
    ensures FilterMap(a + b, meta) == FilterMap(a, meta) + FilterMap(b, meta)
  {
    if b == [] {
      assert a + b == a;
    } else {
      var rest := b[..|b| - 1];
      assert (a + b)[..|a + b| - 1] == a + rest;
      FilterMapAppend(a, rest, meta);
    }
  }

  lemma FilterMapStep(slots: seq<Slot>, n: nat, meta: MetaMap)
    requires n < |slots|
    ensures var t := SlotTransfer(slots[n], meta);
            FilterMap(slots[..n + 1], meta) == FilterMap(slots[..n], meta) + (if t.Some? then [t.value] else [])
  {
    assert slots[..n + 1][..n] == slots[..n];
  }

  lemma GroupStep(groups: seq<InnerInstructions>, n: nat, meta: MetaMap)
    requires n < |groups|
    ensures FilterMap(InnerSlots(groups[..n + 1]), meta)
         == FilterMap(InnerSlots(groups[..n]), meta) + FilterMap(GroupSlots(groups[n]), meta)
  {
    assert groups[..n + 1][..n] == groups[..n];
    FilterMapAppend(InnerSlots(groups[..n]), GroupSlots(groups[n]), meta);
  }

  // ---------- The loops of the source ----------

  class TransactionResult {
    const result: TransactionInfo
    var tokenTransferChanges: seq<TokenTransferChange>

    constructor (result: TransactionInfo)
      ensures this.result == result && tokenTransferChanges == []
    {
      this.result := result;
      tokenTransferChanges := [];
    }

    function Value(): Saved
      reads this
    {
      Saved(result, tokenTransferChanges)
    }

    method CalculateTokenTransfer()
      modifies this
      ensures tokenTransferChanges == TransfersOf(result)
    {
      var transfers: seq<TokenTransferChange> := [];
      var meta := TokenAccountMetaMap(result);
      MetaMapUnique(AllAccountKeys(result), Balances(result), meta,
          BuildMeta(AllAccountKeys(result), Balances(result)));
      var instructions := result.transaction.message.instructions;
      var groups := result.meta.innerInstructions;
      ghost var top := TopSlots(instructions);

      for idx := 0 to |instructions|
        invariant transfers == FilterMap(top[..idx], meta)
      {
        FilterMapStep(top, idx, meta);
        transfers := CollectTokenTransfer(instructions[idx], ToI32(idx), None, meta, transfers);
      }
      assert top[..|instructions|] == top;

      transfers := CollectInner(groups, meta, transfers);
      FilterMapAppend(top, InnerSlots(groups), meta);
      tokenTransferChanges := transfers;
    }

    /** The second pair of loops: every inner group, every instruction in it. */
    static method CollectInner(groups: seq<InnerInstructions>, meta: MetaMap, out: seq<TokenTransferChange>)
      returns (out': seq<TokenTransferChange>)
      ensures out' == out + FilterMap(InnerSlots(groups), meta)
    {
      out' := out;
      for g := 0 to |groups|
        invariant out' == out + FilterMap(InnerSlots(groups[..g]), meta)
      {
        ghost var before := out';
        out' := CollectGroup(groups[g], meta, out');
        GroupStep(groups, g, meta);
        assert before + FilterMap(GroupSlots(groups[g]), meta)
            == out + (FilterMap(InnerSlots(groups[..g]), meta) + FilterMap(GroupSlots(groups[g]), meta));
      }
      assert groups[..|groups|] == groups;
    }

    static method CollectGroup(inner: InnerInstructions, meta: MetaMap, out: seq<TokenTransferChange>)
      returns (out': seq<TokenTransferChange>)
      ensures out' == out + FilterMap(GroupSlots(inner), meta)
    {
      out' := out;
      ghost var slots := GroupSlots(inner);
      for j := 0 to |inner.instructions|
        invariant out' == out + FilterMap(slots[..j], meta)
      {
        FilterMapStep(slots, j, meta);
        out' := CollectTokenTransfer(inner.instructions[j], inner.index, Some(ToI32(j)), meta, out');
      }
      assert slots[..|inner.instructions|] == slots;
    }

    static method CollectTokenTransfer(instruction: Instruction, instructionIdx: i32, innerIdx: Option<i32>,
                                       meta: MetaMap, out: seq<TokenTransferChange>)
      returns (out': seq<TokenTransferChange>)
      ensures var t := SlotTransfer(Slot(instruction, instructionIdx, innerIdx), meta);
              out' == if t.Some? then out + [t.value] else out
    {
      out' := out;
      if instruction.parsed.None? {
        return;
      }
      var parsed := instruction.parsed.value;
      if !IsRelevant(parsed.instructionType) {
        return;
      }
      var normalized := NormalizedType(parsed.instructionType);
      var change: Option<TokenTransferChange> := None;
      if IsSpl(instruction) {
        change := ParseSplTransfer(parsed.info, normalized, instruction.programId, meta, instructionIdx, innerIdx);
      } else if IsSystem(instruction) {
        change := ParseNativeTransfer(parsed.info, normalized, instructionIdx, innerIdx);
      }
      if change.Some? {
        out' := out + [change.value];
      }
    }
  }
}
