/** Recording a message in a substate and loading it back for replay. */
module Substate {
  import opened Prelude
  import opened Accounts
  import opened IntrinsicGas
  import opened Messages
  import opened StateTransition

  // ---------------------------------------------------------------- byte encodings

  /** The big-endian bytes of a number, without leading zeros. */
  function BigIntToBytes(x: nat): (b: seq<Byte>)
    ensures |b| > 0 ==> b[0] != 0
    ensures b == [] <==> x == 0
  {
    if x == 0 then [] else
    var head := BigIntToBytes(x / 256);
    head + [x % 256]
  }

  function BytesToBigInt(b: seq<Byte>): nat {
    if b == [] then 0 else 256 * BytesToBigInt(b[..|b| - 1]) + b[|b| - 1]
  }

  lemma {:induction false} BigIntRoundTrip(x: nat)
    ensures BytesToBigInt(BigIntToBytes(x)) == x
  {
    if x == 0 {
    } else {
      BigIntRoundTrip(x / 256);
      assert BigIntToBytes(x)[..|BigIntToBytes(x)| - 1] == BigIntToBytes(x / 256);
    }
  }

  /** Fixed-size values keep the last bytes of a longer input and pad a shorter one on the left. */
  function FitBytes(b: seq<Byte>, size: nat): (r: seq<Byte>)
    ensures |r| == size
    ensures |b| == size ==> r == b
  {
    if |b| > size then b[|b| - size..] else seq(size - |b|, _ => 0 as Byte) + b
  }

  function BytesToAddress(b: seq<Byte>): Address {
    FitBytes(b, 20)
  }

  function BytesToHash(b: seq<Byte>): Bytes32 {
    FitBytes(b, 32)
  }

  // ---------------------------------------------------------------- records

  datatype RecordedType = TypeLegacy | TypeAccessList | TypeDynamicFee | TypeBlob

  datatype AccessListEntry = AccessListEntry(address: seq<Byte>, storageKeys: seq<seq<Byte>>)

  datatype TxMessage = TxMessage(
    nonce: Uint64,
    gasPrice: seq<Byte>,
    gas: Uint64,
    from: seq<Byte>,
    to: Option<seq<Byte>>,
    value: seq<Byte>,
    data: seq<Byte>,
    txType: RecordedType,
    accessList: seq<AccessListEntry>,
    gasFeeCap: Option<seq<Byte>>,
    gasTipCap: Option<seq<Byte>>,
    blobGasFeeCap: Option<seq<Byte>>,
    blobHashes: seq<seq<Byte>>)

  function ToRecordedType(t: nat): Option<RecordedType> {
    if t == LEGACY_TX_TYPE then Some(TypeLegacy)
    else if t == ACCESS_LIST_TX_TYPE then Some(TypeAccessList)
    else if t == DYNAMIC_FEE_TX_TYPE then Some(TypeDynamicFee)
    else if t == BLOB_TX_TYPE then Some(TypeBlob)
    else None
  }

  function FromRecordedType(t: RecordedType): nat {
    match t
    case TypeLegacy => LEGACY_TX_TYPE
    case TypeAccessList => ACCESS_LIST_TX_TYPE
    case TypeDynamicFee => DYNAMIC_FEE_TX_TYPE
    case TypeBlob => BLOB_TX_TYPE
  }

  function SaveKeys(keys: seq<Bytes32>): seq<seq<Byte>> {
    seq(|keys|, i requires 0 <= i < |keys| => keys[i])
  }

  function LoadKeys(keys: seq<seq<Byte>>): seq<Bytes32> {
    seq(|keys|, i requires 0 <= i < |keys| => BytesToHash(keys[i]))
  }

  function SaveList(list: seq<AccessTuple>): seq<AccessListEntry> {
    seq(|list|, i requires 0 <= i < |list| => AccessListEntry(list[i].address, SaveKeys(list[i].storageKeys)))
  }

  function LoadList(list: seq<AccessListEntry>): seq<AccessTuple> {
    seq(|list|, i requires 0 <= i < |list| => AccessTuple(BytesToAddress(list[i].address), LoadKeys(list[i].storageKeys)))
  }

  /** The record of a message; an unsupported transaction type panics. */
  function Save(m: Message): Option<TxMessage> {
    var t := ToRecordedType(m.txType);
    if t.None? then None
    else
      var dynamic := t.value.TypeDynamicFee? || t.value.TypeBlob?;
      var blob := t.value.TypeBlob?;
      Some(TxMessage(
        m.nonce,
        BigIntToBytes(m.gasPrice),
        m.gasLimit,
        m.from,
        if m.to.Some? then Some(m.to.value) else None,
        BigIntToBytes(m.value),
        m.data,
        t.value,
        if t.value.TypeLegacy? then [] else SaveList(m.accessList),
        if dynamic then Some(BigIntToBytes(m.gasFeeCap)) else None,
        if dynamic then Some(BigIntToBytes(m.gasTipCap)) else None,
        if blob && m.blobGasFeeCap.Some? then Some(BigIntToBytes(m.blobGasFeeCap.value)) else None,
        if blob && m.blobHashes.Some? then SaveKeys(m.blobHashes.value) else []))
  }

  /** The fee caps in a record of a dynamic-fee transaction are present. */
  predicate Complete(t: TxMessage) {
    t.txType.TypeDynamicFee? || t.txType.TypeBlob? ==> t.gasFeeCap.Some? && t.gasTipCap.Some?
  }

  function Load(t: TxMessage): Message
    requires Complete(t)
  {
    var dynamic := t.txType.TypeDynamicFee? || t.txType.TypeBlob?;
    var blob := t.txType.TypeBlob?;
    var price := BytesToBigInt(t.gasPrice);
    Message(
      if t.to.Some? then Some(BytesToAddress(t.to.value)) else None,
      BytesToAddress(t.from),
      t.nonce,
      BytesToBigInt(t.value),
      t.gas,
      price,
      if dynamic then BytesToBigInt(t.gasFeeCap.value) else price,
      if dynamic then BytesToBigInt(t.gasTipCap.value) else price,
      t.data,
      if t.txType.TypeLegacy? then [] else LoadList(t.accessList),
      if blob && t.blobGasFeeCap.Some? then Some(BytesToBigInt(t.blobGasFeeCap.value)) else None,
      if blob && t.blobHashes != [] then Some(LoadKeys(t.blobHashes)) else None,
      false,
      FromRecordedType(t.txType))
  }

  // ---------------------------------------------------------------- the round trip

  lemma KeysRoundTrip(keys: seq<Bytes32>)
    ensures LoadKeys(SaveKeys(keys)) == keys
  {
    assert |LoadKeys(SaveKeys(keys))| == |keys|;
  }

  lemma ListRoundTrip(list: seq<AccessTuple>)
    ensures LoadList(SaveList(list)) == list
  {
    var back := LoadList(SaveList(list));
    assert |back| == |list|;
    forall i | 0 <= i < |list| ensures back[i] == list[i] {
      KeysRoundTrip(list[i].storageKeys);
    }
  }

  /** What a record can carry: the fee caps of legacy and access-list messages, the access list of
      legacy ones and the blob fields of non-blob ones are not written. */
  predicate Replayable(m: Message) {
    && !m.skipAccountChecks
    && (m.txType == LEGACY_TX_TYPE || m.txType == ACCESS_LIST_TX_TYPE ==>
          m.gasFeeCap == m.gasPrice && m.gasTipCap == m.gasPrice)
    && (m.txType == LEGACY_TX_TYPE ==> m.accessList == [])
    && (m.txType != BLOB_TX_TYPE ==> m.blobGasFeeCap.None? && m.blobHashes.None?)
    && m.blobHashes != Some([])
  }

  /** What is left of a message after recording and loading it. */
  function Remembered(m: Message): Message {
    var priced := m.txType == LEGACY_TX_TYPE || m.txType == ACCESS_LIST_TX_TYPE;
    var blob := m.txType == BLOB_TX_TYPE;
    m.(gasFeeCap := if priced then m.gasPrice else m.gasFeeCap,
       gasTipCap := if priced then m.gasPrice else m.gasTipCap,
       accessList := if m.txType == LEGACY_TX_TYPE then [] else m.accessList,
       blobGasFeeCap := if blob then m.blobGasFeeCap else None,
       blobHashes := if blob && m.blobHashes != Some([]) then m.blobHashes else None,
       skipAccountChecks := false)
  }

  /** The numbers every record carries. */
  lemma PricesSurvive(m: Message)
    requires Save(m).Some?
    ensures var t := Save(m).value;
            BytesToBigInt(t.gasPrice) == m.gasPrice && BytesToBigInt(t.value) == m.value
  {
    BigIntRoundTrip(m.gasPrice);
    BigIntRoundTrip(m.value);
  }

  /** The fee caps, where they are written. */
  lemma CapsSurvive(m: Message)
    requires Save(m).Some?
    ensures var t := Save(m).value;
            && Complete(t)
            && (t.gasFeeCap.Some? ==> BytesToBigInt(t.gasFeeCap.value) == m.gasFeeCap)
            && (t.gasTipCap.Some? ==> BytesToBigInt(t.gasTipCap.value) == m.gasTipCap)
  {
    BigIntRoundTrip(m.gasFeeCap);
    BigIntRoundTrip(m.gasTipCap);
  }

  /** The blob fields, where they are written. */
  lemma BlobsSurvive(m: Message)
    requires Save(m).Some?
    ensures var t := Save(m).value;
            t.txType.TypeBlob? ==>
              && (t.blobGasFeeCap.Some? <==> m.blobGasFeeCap.Some?)
              && (t.blobGasFeeCap.Some? ==> BytesToBigInt(t.blobGasFeeCap.value) == m.blobGasFeeCap.value)
              && (t.blobHashes == [] <==> m.blobHashes.None? || m.blobHashes.value == [])
              && (t.blobHashes != [] ==> LoadKeys(t.blobHashes) == m.blobHashes.value)
  {
    if m.blobGasFeeCap.Some? {
      BigIntRoundTrip(m.blobGasFeeCap.value);
    }
    if m.blobHashes.Some? {
      KeysRoundTrip(m.blobHashes.value);
      assert |SaveKeys(m.blobHashes.value)| == |m.blobHashes.value|;
    }
  }

  lemma LoadSave(m: Message)
    requires Save(m).Some?
    ensures Complete(Save(m).value) && Load(Save(m).value) == Remembered(m)
  {
    PricesSurvive(m);
    CapsSurvive(m);
    BlobsSurvive(m);
    ListRoundTrip(m.accessList);
  }

  /** A message survives recording and loading exactly when it is replayable. */
  lemma RoundTripIff(m: Message)
    requires Save(m).Some?
    ensures Complete(Save(m).value)
    ensures Load(Save(m).value) == m <==> Replayable(m)
  {
    LoadSave(m);
  }

  /** The case arises for a call message that is no transaction's: its checks are skipped and its fee cap
      differs from its price, and neither survives. */
  lemma CallMessageChanges(m: Message)
    requires m.txType == LEGACY_TX_TYPE && m.skipAccountChecks && m.gasFeeCap != m.gasPrice
    ensures Save(m).Some? && Complete(Save(m).value)
    ensures var back := Load(Save(m).value); !back.skipAccountChecks && back.gasFeeCap == m.gasPrice && back != m
  {
    LoadSave(m);
  }

  /** Every message of a transaction that passed the checks can be recorded and comes back unchanged, for
      all four transaction types. Legacy prices survive because their effective price is the full price. */
  lemma RecordReplay(tx: Transaction, from: Address, ctx: Context, w: World, pool: nat)
    ensures var m := TransactionToMessage(tx, from, if ctx.rules.london then Some(ctx.baseFee) else None);
            PreCheck(w, pool, m, ctx).None? ==> Save(m).Some? && Complete(Save(m).value) && Load(Save(m).value) == m
  {
    var m := TransactionToMessage(tx, from, if ctx.rules.london then Some(ctx.baseFee) else None);
    if PreCheck(w, pool, m, ctx).None? {
      assert CheckBlobs(m, ctx).None?;
      RoundTripIff(m);
    }
  }

  // ---------------------------------------------------------------- the loops

  method SaveKeyList(keys: seq<Bytes32>) returns (saved: seq<seq<Byte>>)
    ensures saved == SaveKeys(keys)
  {
    saved := [];
    for i := 0 to |keys|
      invariant saved == SaveKeys(keys)[..i]
    {
      saved := saved + [keys[i]];
    }
  }

  method LoadKeyList(keys: seq<seq<Byte>>) returns (loaded: seq<Bytes32>)
    ensures loaded == LoadKeys(keys)
  {
    loaded := [];
    for i := 0 to |keys|
      invariant loaded == LoadKeys(keys)[..i]
    {
      loaded := loaded + [BytesToHash(keys[i])];
    }
  }

  method SaveAccessList(list: seq<AccessTuple>) returns (saved: seq<AccessListEntry>)
    ensures saved == SaveList(list)
  {
    saved := [];
    for i := 0 to |list|
      invariant saved == SaveList(list)[..i]
    {
      var keys := SaveKeyList(list[i].storageKeys);
      saved := saved + [AccessListEntry(list[i].address, keys)];
    }
  }

  method LoadAccessList(list: seq<AccessListEntry>) returns (loaded: seq<AccessTuple>)
    ensures loaded == LoadList(list)
  {
    loaded := [];
    for i := 0 to |list|
      invariant loaded == LoadList(list)[..i]
    {
      var keys := LoadKeyList(list[i].storageKeys);
      loaded := loaded + [AccessTuple(BytesToAddress(list[i].address), keys)];
    }
  }

  /** Records a message, section by section; None is the panic on an unsupported type. */
  method SaveSubstate(m: Message) returns (r: Option<TxMessage>)
    ensures r == Save(m)
  {
    var txType := ToRecordedType(m.txType);
    if txType.None? {
      return None;
    }
    var t := TxMessage(m.nonce, BigIntToBytes(m.gasPrice), m.gasLimit, m.from,
      if m.to.Some? then Some(m.to.value) else None, BigIntToBytes(m.value), m.data, txType.value, [], None, None, None, []);
    if !txType.value.TypeLegacy? {
      var list := SaveAccessList(m.accessList);
      t := t.(accessList := list);
    }
    if txType.value.TypeDynamicFee? || txType.value.TypeBlob? {
      t := t.(gasFeeCap := Some(BigIntToBytes(m.gasFeeCap)), gasTipCap := Some(BigIntToBytes(m.gasTipCap)));
    }
    if txType.value.TypeBlob? {
      if m.blobGasFeeCap.Some? {
        t := t.(blobGasFeeCap := Some(BigIntToBytes(m.blobGasFeeCap.value)));
      }
      if m.blobHashes.Some? {
        var hashes := SaveKeyList(m.blobHashes.value);
        t := t.(blobHashes := hashes);
      }
    }
    return Some(t);
  }

  /** Loads a recorded message into a fresh one. */
  method LoadSubstate(t: TxMessage) returns (m: Message)
    requires Complete(t)
    ensures m == Load(t)
  {
    var price := BytesToBigInt(t.gasPrice);
    m := Message(if t.to.Some? then Some(BytesToAddress(t.to.value)) else None, BytesToAddress(t.from), t.nonce,
      BytesToBigInt(t.value), t.gas, price, price, price, t.data, [], None, None, false, FromRecordedType(t.txType));
    if !t.txType.TypeLegacy? {
      var list := LoadAccessList(t.accessList);
      m := m.(accessList := list);
    }
    if t.txType.TypeDynamicFee? || t.txType.TypeBlob? {
      m := m.(gasFeeCap := BytesToBigInt(t.gasFeeCap.value), gasTipCap := BytesToBigInt(t.gasTipCap.value));
    }
    if t.txType.TypeBlob? {
      if t.blobGasFeeCap.Some? {
        m := m.(blobGasFeeCap := Some(BytesToBigInt(t.blobGasFeeCap.value)));
      }
      var hashes := LoadKeyList(t.blobHashes);
      if hashes != [] {
        m := m.(blobHashes := Some(hashes));
      }
    }
  }
}
