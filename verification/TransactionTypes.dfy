/**
 * src/requests/types.rs: the decoded RPC payloads, and the value the row builders read.
 * Amounts in UI units are exact reals here; raw amounts are exact integers in both.
 */
module TransactionTypes {
  import opened Wrappers

  type Address = string
  type Sig = string

  const I32_LIMIT := 0x8000_0000
  const I128_LIMIT := 0x8000_0000_0000_0000_0000_0000_0000_0000

  type u8 = x: int | 0 <= x < 0x100
  type u16 = x: int | 0 <= x < 0x1_0000
  type u64 = x: int | 0 <= x < 0x1_0000_0000_0000_0000
  type i32 = x: int | -0x8000_0000 <= x < 0x8000_0000
  type i16 = x: int | -0x8000 <= x < 0x8000

  /** i32::try_from(n).unwrap_or(0) for an unsigned n. */
  function ToI32(n: nat): i32 {
    if n < I32_LIMIT then n else 0
  }

  /** One entry of a getSignaturesForAddress page. */
  datatype Signature = Signature(blockTime: Option<int>, signature: Sig)

  datatype UiTokenAmount = UiTokenAmount(amount: string, decimals: u8, uiAmount: Option<real>)

  datatype ParsedInfo = ParsedInfo(
    tokenAmount: Option<UiTokenAmount>,
    amount: Option<string>,
    decimals: Option<u8>,
    uiAmount: Option<real>,
    mint: Option<string>,
    authority: Option<string>,
    lamports: Option<u64>,
    source: Option<string>,
    destination: Option<string>,
    account: Option<string>)

  datatype ParsedInstruction = ParsedInstruction(info: ParsedInfo, instructionType: string)

  datatype Instruction = Instruction(
    parsed: Option<ParsedInstruction>,
    program: Option<string>,
    programId: Option<string>)

  datatype InnerInstructions = InnerInstructions(index: u16, instructions: seq<Instruction>)

  datatype AccountKey = Pubkey(key: string) | Info(pubkey: string, signer: Option<bool>)

  datatype TokenBalance = TokenBalance(accountIndex: u8, mint: string, owner: string, uiTokenAmount: UiTokenAmount)

  datatype LoadedAddresses = LoadedAddresses(writable: seq<string>, readonly: seq<string>)

  datatype Meta = Meta(
    computeUnitsConsumed: i32,
    fee: i32,
    err: string,
    loadedAddresses: Option<LoadedAddresses>,
    innerInstructions: seq<InnerInstructions>,
    preTokenBalances: seq<TokenBalance>,
    postTokenBalances: seq<TokenBalance>)

  datatype AccountKeys = AccountKeys(keys: seq<AccountKey>, instructions: seq<Instruction>,
                                requiredSignatures: Option<u8>)

  datatype Transaction = Transaction(signatures: seq<Sig>, message: AccountKeys)

  datatype TransactionInfo = TransactionInfo(blockTime: i32, slot: i32, meta: Meta, transaction: Transaction)

  datatype TokenTransferChange = TokenTransferChange(
    tokenMint: Option<string>,
    tokenProgram: Option<string>,
    sourceOwner: Option<string>,
    destinationOwner: Option<string>,
    sourceTokenAccount: Option<string>,
    destinationTokenAccount: Option<string>,
    amountRaw: int,
    amountUi: Option<real>,
    decimals: Option<u8>,
    transferType: string,
    assetType: string,
    direction: string,
    authority: Option<string>,
    instructionIdx: Option<i32>,
    innerIdx: Option<i32>)

  /** A transaction payload together with the transfers computed from it. */
  datatype Saved = Saved(info: TransactionInfo, transfers: seq<TokenTransferChange>)

  /** The signature the row builders key on: the first of the response, or the empty string. */
  function RowSignature(info: TransactionInfo): Sig {
    if info.transaction.signatures == [] then "" else info.transaction.signatures[0]
  }

  function CountSigners(keys: seq<AccountKey>): nat {
    if keys == [] then 0
    else (if keys[0].Info? && keys[0].signer == Some(true) then 1 else 0) + CountSigners(keys[1..])
  }

  function NumSigners(info: TransactionInfo): i32 {
    if info.transaction.message.requiredSignatures.Some? then
      info.transaction.message.requiredSignatures.value
    else if |info.transaction.signatures| > 0 then
      ToI32(|info.transaction.signatures|)
    else
      ToI32(CountSigners(info.transaction.message.keys))
  }

  function NumInstructions(info: TransactionInfo): i32 {
    ToI32(|info.transaction.message.instructions|)
  }
}
