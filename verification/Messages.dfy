/** Transactions of the four types and the messages derived from them. */
module Messages {
  import opened Prelude
  import opened Accounts
  import opened IntrinsicGas

  const LEGACY_TX_TYPE := 0
  const ACCESS_LIST_TX_TYPE := 1
  const DYNAMIC_FEE_TX_TYPE := 2
  const BLOB_TX_TYPE := 3

  const BLOB_GAS_PER_BLOB := 0x2_0000
  const BLOB_HASH_VERSION := 0x01

  type Uint64 = n: nat | n <= MAX_UINT64

  /** What all transaction types share; only a blob transaction cannot create a contract. */
  datatype Body = Body(nonce: Uint64, gas: Uint64, to: Option<Address>, value: nat, data: seq<Byte>)

  datatype Fees =
    | Legacy(gasPrice: nat)
    | AccessListed(gasPrice: nat, list: seq<AccessTuple>)
    | DynamicFee(gasTipCap: nat, gasFeeCap: nat, list: seq<AccessTuple>)
    | Blob(gasTipCap: nat, gasFeeCap: nat, list: seq<AccessTuple>, blobFeeCap: nat, blobHashes: seq<Bytes32>)

  datatype Transaction = Transaction(body: Body, fees: Fees)

  function TxType(f: Fees): nat {
    match f
    case Legacy(_) => LEGACY_TX_TYPE
    case AccessListed(_, _) => ACCESS_LIST_TX_TYPE
    case DynamicFee(_, _, _) => DYNAMIC_FEE_TX_TYPE
    case Blob(_, _, _, _, _) => BLOB_TX_TYPE
  }

  function FeeCap(f: Fees): nat {
    if f.Legacy? || f.AccessListed? then f.gasPrice else f.gasFeeCap
  }

  function TipCap(f: Fees): nat {
    if f.Legacy? || f.AccessListed? then f.gasPrice else f.gasTipCap
  }

  /** The message of a transaction. Absent and empty access lists are not told apart. */
  datatype Message = Message(
    to: Option<Address>,
    from: Address,
    nonce: Uint64,
    value: nat,
    gasLimit: Uint64,
    gasPrice: nat,
    gasFeeCap: nat,
    gasTipCap: nat,
    data: seq<Byte>,
    accessList: seq<AccessTuple>,
    blobGasFeeCap: Option<nat>,
    blobHashes: Option<seq<Bytes32>>,
    skipAccountChecks: bool,
    txType: nat)

  /** Converts a transaction; `from` is the recovered sender. With a base fee the gas price becomes the
      effective one. */
  function TransactionToMessage(tx: Transaction, from: Address, baseFee: Option<nat>): Message {
    var cap, tip := FeeCap(tx.fees), TipCap(tx.fees);
    Message(
      tx.body.to,
      from,
      tx.body.nonce,
      tx.body.value,
      tx.body.gas,
      if baseFee.Some? then Min(tip + baseFee.value, cap) else cap,
      cap,
      tip,
      tx.body.data,
      if tx.fees.Legacy? then [] else tx.fees.list,
      if tx.fees.Blob? then Some(tx.fees.blobFeeCap) else None,
      if tx.fees.Blob? then Some(tx.fees.blobHashes) else None,
      false,
      TxType(tx.fees))
  }

  /** The blob gas of a message, on uint64. */
  function BlobGasUsed(m: Message): Uint64 {
    if m.blobHashes.Some? then Wrap64(|m.blobHashes.value| * BLOB_GAS_PER_BLOB) else 0
  }
}
