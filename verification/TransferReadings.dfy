/**
 * src/requests/types.rs: what the extraction yields, read off the instruction and the transaction: types, programs,
 * accounts, keys and indices as they stand in the payload.
 */
module TransferReadings {
  import opened Wrappers
  import opened TransactionTypes
  import opened Transfers
  import opened TransferProperties

  // ---------- One instruction ----------

  /** The transfer type an instruction type stands for, where it stands for one. */
  function TypeOf(instructionType: string): Option<string> {
    match instructionType
    case "transfer" => Some("transfer")
    case "transferChecked" => Some("transfer")
    case "mintTo" => Some("mint")
    case "mintToChecked" => Some("mint")
    case "burn" => Some("burn")
    case "burnChecked" => Some("burn")
    case _ => None
  }

  /** A token program, by id or by either parsed name. */
  predicate OfTokenProgram(instruction: Instruction) {
    || instruction.programId == Some("TokenkegQfeZyiNwAJbNbGKPFXCWuBvf9Ss623VQ5DA")
    || instruction.program == Some("spl-token") || instruction.program == Some("spl-token-2022")
  }

  predicate OfSystemProgram(instruction: Instruction) {
    instruction.programId == Some("11111111111111111111111111111111") || instruction.program == Some("system")
  }

  /** The amount as it is written: inside the token amount if there is one. */
  function AmountText(info: ParsedInfo): Option<string> {
    match info.tokenAmount
    case Some(tokenAmount) => Some(tokenAmount.amount)
    case None => info.amount
  }

  predicate ReadableAmount(info: ParsedInfo) {
    AmountText(info).Some? && ParseI128(AmountText(info).value).Some?
  }

  /** One of the six types, of a token program with a readable amount, or else of the system program with lamports. */
  predicate YieldsTransfer(instruction: Instruction) {
    && instruction.parsed.Some?
    && TypeOf(instruction.parsed.value.instructionType).Some?
    && if OfTokenProgram(instruction) then ReadableAmount(instruction.parsed.value.info)
       else OfSystemProgram(instruction) && instruction.parsed.value.info.lamports.Some?
  }

  lemma TypeReading(instructionType: string)
    ensures IsRelevant(instructionType) <==> TypeOf(instructionType).Some?
    ensures IsRelevant(instructionType) ==> TypeOf(instructionType) == Some(NormalizedType(instructionType))
  {
  }

  /**
   * Every slot: when it yields a transfer, of which type and kind, with which program, authority and indices, and
   * which accounts. A mint looks at the account field for its destination only, a burn for its source only.
   */
  lemma SlotReading(slot: Slot, meta: MetaMap)
    ensures SlotTransfer(slot, meta).Some? <==> YieldsTransfer(slot.instruction)
    ensures YieldsTransfer(slot.instruction) ==>
              var t, info := SlotTransfer(slot, meta).value, slot.instruction.parsed.value.info;
              && Some(t.transferType) == TypeOf(slot.instruction.parsed.value.instructionType)
              && t.assetType == (if OfTokenProgram(slot.instruction) then "spl" else "native")
              && t.direction == "unknown" && t.authority == info.authority
              && t.instructionIdx == Some(slot.instructionIdx) && t.innerIdx == slot.innerIdx
    ensures YieldsTransfer(slot.instruction) && OfTokenProgram(slot.instruction) ==>
              var t, info := SlotTransfer(slot, meta).value, slot.instruction.parsed.value.info;
              && t.tokenProgram == slot.instruction.programId
              && Some(t.amountRaw) == ParseI128(AmountText(info).value)
              && t.sourceTokenAccount ==
                 (if t.transferType == "burn" && info.account.Some? then info.account else info.source)
              && t.destinationTokenAccount
                 == (if t.transferType == "mint" && info.account.Some? then info.account else info.destination)
    ensures YieldsTransfer(slot.instruction) && !OfTokenProgram(slot.instruction) ==>
              var t, info := SlotTransfer(slot, meta).value, slot.instruction.parsed.value.info;
              && Some(t.amountRaw) == info.lamports && t.decimals == Some(9)
              && t.sourceOwner == info.source && t.destinationOwner == info.destination
              && t.tokenMint.None? && t.tokenProgram.None?
              && t.sourceTokenAccount.None? && t.destinationTokenAccount.None?
  {
    if slot.instruction.parsed.Some? {
      var parsed := slot.instruction.parsed.value;
      TypeReading(parsed.instructionType);
      if parsed.info.lamports.Some? {
        var lamports := parsed.info.lamports.value;
        assert lamports / 0x1_0000_0000 * 4_294_967_296 + lamports % 0x1_0000_0000 == lamports;
      }
    }
  }

  // ---------- The slots of a transaction ----------

  /** The index as an i32, or 0 where it does not fit. */
  function IndexOf(n: nat): int {
    if n <= 2_147_483_647 then n else 0
  }

  /** Top-level instructions come first, each with its own position and no inner index. */
  lemma TopSlotReading(info: TransactionInfo, i: nat)
    requires i < |info.transaction.message.instructions|
    ensures i < |Slots(info)|
    ensures var slot := Slots(info)[i];
            && slot.instruction == info.transaction.message.instructions[i]
            && slot.instructionIdx == IndexOf(i) && slot.innerIdx == None
  {
  }

  /** How many instructions the groups before group g hold. */
  function Before(groups: seq<InnerInstructions>, g: nat): nat
    requires g <= |groups|
  {
    if g == 0 then 0 else Before(groups, g - 1) + |groups[g - 1].instructions|
  }

  lemma {:induction false} OffsetIsBefore(groups: seq<InnerInstructions>, g: nat)
    requires g <= |groups|
    ensures Offset(groups, g) == Before(groups, g)
  {
    if g > 0 {
      OffsetIsBefore(groups, g - 1);
      assert groups[..g][..g - 1] == groups[..g - 1];
    }
  }

  /** Then the inner groups, in order, each instruction with its group's index and its position in the group. */
  lemma InnerSlotReading(info: TransactionInfo, g: nat, j: nat)
    requires g < |info.meta.innerInstructions| && j < |info.meta.innerInstructions[g].instructions|
    ensures var group := info.meta.innerInstructions[g];
            var k := |info.transaction.message.instructions| + Before(info.meta.innerInstructions, g) + j;
            && k < |Slots(info)|
            && Slots(info)[k].instruction == group.instructions[j]
            && Slots(info)[k].instructionIdx == group.index && Slots(info)[k].innerIdx == Some(IndexOf(j))
  {
    var group := info.meta.innerInstructions[g];
    InnerSlotInAll(info, g, j);
    OffsetIsBefore(info.meta.innerInstructions, g);
    GroupSlotReading(group, j);
  }

  lemma GroupSlotReading(group: InnerInstructions, j: nat)
    requires j < |group.instructions|
    ensures GroupSlots(group)[j] == Slot(group.instructions[j], group.index, Some(IndexOf(j)))
  {
  }

  /** And nothing else. */
  lemma SlotCount(info: TransactionInfo)
    ensures |Slots(info)| == |info.transaction.message.instructions|
                             + Before(info.meta.innerInstructions, |info.meta.innerInstructions|)
  {
    var groups := info.meta.innerInstructions;
    OffsetIsBefore(groups, |groups|);
    assert groups[..|groups|] == groups;
  }

  // ---------- The accounts of a transaction ----------

  /** Account number n of the transaction: its own keys, then the loaded writable, then the loaded readonly ones. */
  function AccountAt(tx: TransactionInfo, n: nat): Option<string> {
    var keys := tx.transaction.message.keys;
    if n < |keys| then
      Some(match keys[n] case Pubkey(s) => s case Info(pubkey, _) => pubkey)
    else
      match tx.meta.loadedAddresses
      case None => None
      case Some(loaded) =>
        if n - |keys| < |loaded.writable| then Some(loaded.writable[n - |keys|])
        else if n - |keys| - |loaded.writable| < |loaded.readonly| then
          Some(loaded.readonly[n - |keys| - |loaded.writable|])
        else None
  }

  lemma KeysReading(tx: TransactionInfo, n: nat)
    ensures (if n < |AllAccountKeys(tx)| then Some(AllAccountKeys(tx)[n]) else None) == AccountAt(tx, n)
  {
  }

  /** The balance is about the account with this address. */
  predicate About(tx: TransactionInfo, b: TokenBalance, account: string) {
    AccountAt(tx, b.accountIndex) == Some(account)
  }

  ghost predicate LastAbout(tx: TransactionInfo, balances: seq<TokenBalance>, account: string, i: nat) {
    && i < |balances| && About(tx, balances[i], account)
    && forall j :: i < j < |balances| ==> !About(tx, balances[j], account)
  }

  ghost predicate NoneAbout(tx: TransactionInfo, balances: seq<TokenBalance>, account: string) {
    forall i :: 0 <= i < |balances| ==> !About(tx, balances[i], account)
  }

  lemma ResolvesIsAbout(tx: TransactionInfo, b: TokenBalance, account: string)
    ensures Resolves(AllAccountKeys(tx), b, account) <==> About(tx, b, account)
  {
    KeysReading(tx, b.accountIndex);
  }

  lemma LatestBalance(tx: TransactionInfo, account: string, k: nat)
    requires LastAbout(tx, Balances(tx), account, k)
    ensures var b := Balances(tx)[k];
            LastMeta(AllAccountKeys(tx), Balances(tx), account)
            == Some(TokenAccountMeta(b.owner, b.mint, b.uiTokenAmount.decimals))
  {
    LastMetaIsLatestBalance(AllAccountKeys(tx), Balances(tx), account);
    forall j | 0 <= j < |Balances(tx)|
      ensures Resolves(AllAccountKeys(tx), Balances(tx)[j], account) <==> About(tx, Balances(tx)[j], account)
    {
      ResolvesIsAbout(tx, Balances(tx)[j], account);
    }
    assert Resolves(AllAccountKeys(tx), Balances(tx)[k], account);
  }

  /**
   * What the extraction knows about an account: the owner, mint and decimals of its last post balance, else of its
   * last pre balance, else nothing.
   */
  lemma PostBalanceReading(tx: TransactionInfo, account: string, i: nat)
    requires LastAbout(tx, tx.meta.postTokenBalances, account, i)
    ensures var b, m := tx.meta.postTokenBalances[i], KnownMeta(tx, Some(account));
            && m.Some? && m.value.owner == b.owner && m.value.mint == b.mint
            && m.value.decimals == b.uiTokenAmount.decimals
  {
    var pre, post, all := tx.meta.preTokenBalances, tx.meta.postTokenBalances, Balances(tx);
    assert all[|pre| + i] == post[i];
    forall j | |pre| + i < j < |all|
      ensures !About(tx, all[j], account)
    {
      assert all[j] == post[j - |pre|];
    }
    LatestBalance(tx, account, |pre| + i);
  }

  lemma PreBalanceReading(tx: TransactionInfo, account: string, i: nat)
    requires NoneAbout(tx, tx.meta.postTokenBalances, account) && LastAbout(tx, tx.meta.preTokenBalances, account, i)
    ensures var b, m := tx.meta.preTokenBalances[i], KnownMeta(tx, Some(account));
            && m.Some? && m.value.owner == b.owner && m.value.mint == b.mint
            && m.value.decimals == b.uiTokenAmount.decimals
  {
    var pre, post, all := tx.meta.preTokenBalances, tx.meta.postTokenBalances, Balances(tx);
    forall j | i < j < |all|
      ensures !About(tx, all[j], account)
    {
      assert all[j] == if j < |pre| then pre[j] else post[j - |pre|];
    }
    LatestBalance(tx, account, i);
  }

  lemma NoBalanceReading(tx: TransactionInfo, account: string)
    requires NoneAbout(tx, tx.meta.postTokenBalances, account) && NoneAbout(tx, tx.meta.preTokenBalances, account)
    ensures KnownMeta(tx, Some(account)) == None
  {
    var pre, post, all := tx.meta.preTokenBalances, tx.meta.postTokenBalances, Balances(tx);
    LastMetaIsLatestBalance(AllAccountKeys(tx), all, account);
    forall j | 0 <= j < |all|
      ensures !Resolves(AllAccountKeys(tx), all[j], account)
    {
      assert all[j] == if j < |pre| then pre[j] else post[j - |pre|];
      ResolvesIsAbout(tx, all[j], account);
    }
  }

  // ---------- Amounts ----------

  /** A leading plus is read as none; without digits, or with anything else in the text, there is no amount. */
  lemma ParsePlus(text: string)
    requires |text| > 1 && text[0] == '+' && forall i :: 1 <= i < |text| ==> '0' <= text[i] <= '9'
    ensures ParseI128(text) == ParseI128(text[1..])
  {
    var digits := text[1..];
    assert AllDigits(digits);
    assert '0' <= digits[0] && digits[0] != '-' && digits[0] != '+';
    ParseSigned(digits, digits, false);
  }

  lemma ParseRejectsSign(text: string)
    requires text in ["", "+", "-"]
    ensures ParseI128(text) == None
  {
  }

  lemma ParseRejectsText(text: string, i: nat)
    requires i < |text| && !('0' <= text[i] <= '9') && (i > 0 || (text[0] != '+' && text[0] != '-'))
    ensures ParseI128(text) == None
  {
    if text[0] == '+' || text[0] == '-' {
      assert !IsDigit(text[1..][i - 1]);
      assert !AllDigits(text[1..]);
    } else {
      assert !AllDigits(text);
    }
  }

  function Zeros(n: nat): string {
    seq(n, _ => '0')
  }

  /** The scale of an amount with n decimals is written as a one and n zeros. */
  lemma {:induction false} Pow10Written(n: nat)
    ensures Decimal(Pow10(n)) == "1" + Zeros(n)
  {
    if n == 0 {
      assert Decimal(1) == "1";
      assert "1" + Zeros(0) == "1";
    } else {
      Pow10Written(n - 1);
      assert Pow10(n) / 10 == Pow10(n - 1) && Pow10(n) % 10 == 0;
      assert Decimal(Pow10(n)) == Decimal(Pow10(n - 1)) + "0";
      assert Zeros(n) == Zeros(n - 1) + "0";
    }
  }
}
