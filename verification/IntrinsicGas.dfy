/** The gas a transaction pays before execution, computed on uint64. */
module IntrinsicGas {
  import opened Prelude
  import opened Accounts

  const TX_GAS := 21000
  const TX_GAS_CONTRACT_CREATION := 53000
  const TX_DATA_ZERO_GAS := 4
  const TX_DATA_NON_ZERO_GAS_FRONTIER := 68
  const TX_DATA_NON_ZERO_GAS_EIP2028 := 16
  const INIT_CODE_WORD_GAS := 2
  const TX_ACCESS_LIST_ADDRESS_GAS := 2400
  const TX_ACCESS_LIST_STORAGE_KEY_GAS := 1900

  type Bytes32 = h: seq<Byte> | |h| == 32 witness seq(32, _ => 0)

  datatype AccessTuple = AccessTuple(address: Address, storageKeys: seq<Bytes32>)

  datatype Pricing = Pricing(creation: bool, homestead: bool, eip2028: bool, eip3860: bool)

  /** The number of 32-byte words of init code, safe for every uint64. */
  function ToWordSize(size: nat): (words: nat)
    requires size <= MAX_UINT64
    ensures 32 * words >= size && (words > 0 ==> 32 * (words - 1) < size)
  {
    if size > MAX_UINT64 - 31 then MAX_UINT64 / 32 + 1 else Wrap64(size + 31) / 32
  }

  function NonZeroBytes(data: seq<Byte>): (n: nat)
    ensures n <= |data|
  {
    if data == [] then 0 else (if data[0] != 0 then 1 else 0) + NonZeroBytes(data[1..])
  }

  function StorageKeys(list: seq<AccessTuple>): nat {
    if list == [] then 0 else |list[0].storageKeys| + StorageKeys(list[1..])
  }

  function NonZeroGas(p: Pricing): nat {
    if p.eip2028 then TX_DATA_NON_ZERO_GAS_EIP2028 else TX_DATA_NON_ZERO_GAS_FRONTIER
  }

  /** The price of the transaction without its access list, over unbounded integers. */
  function DataCost(data: seq<Byte>, p: Pricing): nat
    requires |data| <= MAX_UINT64
  {
    (if p.creation && p.homestead then TX_GAS_CONTRACT_CREATION else TX_GAS)
    + NonZeroBytes(data) * NonZeroGas(p)
    + (|data| - NonZeroBytes(data)) * TX_DATA_ZERO_GAS
    + (if p.creation && p.eip3860 then ToWordSize(|data|) * INIT_CODE_WORD_GAS else 0)
  }

  function ListCost(list: seq<AccessTuple>): nat {
    |list| * TX_ACCESS_LIST_ADDRESS_GAS + StorageKeys(list) * TX_ACCESS_LIST_STORAGE_KEY_GAS
  }

  /** The result of the uint64 computation: the data part is checked, the access-list part wraps. */
  function IntrinsicCost(data: seq<Byte>, list: seq<AccessTuple>, p: Pricing): (gas: Option<nat>)
    requires |data| <= MAX_UINT64
    ensures gas.Some? ==> gas.value <= MAX_UINT64
  {
    if DataCost(data, p) > MAX_UINT64 then None else Some((DataCost(data, p) + ListCost(list)) % TWO_64)
  }

  lemma {:induction false} NonZeroBytesTake(data: seq<Byte>, i: nat)
    requires i < |data|
    ensures NonZeroBytes(data[..i + 1]) == NonZeroBytes(data[..i]) + if data[i] != 0 then 1 else 0
  {
    if i == 0 {
    } else {
      NonZeroBytesTake(data[1..], i - 1);
      assert data[..i + 1][1..] == data[1..][..i] && data[..i][1..] == data[1..][..i - 1];
    }
  }

  lemma NonZeroAppend(data: seq<Byte>, b: Byte)
    ensures NonZeroBytes(data + [b]) == NonZeroBytes(data) + if b != 0 then 1 else 0
  {
    NonZeroBytesTake(data + [b], |data|);
    assert (data + [b])[..|data|] == data && (data + [b])[..|data| + 1] == data + [b];
  }

  lemma WordsAppend(size: nat)
    requires size < MAX_UINT64 - 31
    ensures ToWordSize(size + 1) == ToWordSize(size) + if size % 32 == 0 then 1 else 0
  {
  }

  /** The cost, byte by byte: what an empty transaction costs, and what one more byte adds. A word of init
      code is charged when its first byte comes in. */
  lemma ByteCost(data: seq<Byte>, b: Byte, p: Pricing)
    requires |data| < MAX_UINT64 - 31
    ensures DataCost([], p) == if p.creation && p.homestead then 53000 else 21000
    ensures DataCost(data + [b], p) == DataCost(data, p)
              + (if b == 0 then 4 else if p.eip2028 then 16 else 68)
              + (if p.creation && p.eip3860 && |data| % 32 == 0 then 2 else 0)
  {
    NonZeroAppend(data, b);
    WordsAppend(|data|);
  }

  /** The cost of an access list, tuple by tuple. */
  lemma TupleCost(t: AccessTuple, list: seq<AccessTuple>)
    ensures ListCost([]) == 0
    ensures ListCost([t] + list) == 2400 + 1900 * |t.storageKeys| + ListCost(list)
  {
    assert ([t] + list)[1..] == list;
  }

  /** Checked addition of `count * unit`. */
  method AddScaled(gas: nat, count: nat, unit: nat) returns (r: Option<nat>)
    requires gas <= MAX_UINT64 && unit > 0
    ensures r == if gas + count * unit <= MAX_UINT64 then Some(gas + count * unit) else None
  {
    DivLess(MAX_UINT64 - gas, unit, count);
    if (MAX_UINT64 - gas) / unit < count {
      return None;
    }
    return Some(gas + count * unit);
  }

  method CountNonZero(data: seq<Byte>) returns (nz: nat)
    ensures nz == NonZeroBytes(data)
  {
    nz := 0;
    for i := 0 to |data|
      invariant nz == NonZeroBytes(data[..i])
    {
      NonZeroBytesTake(data, i);
      if data[i] != 0 {
        nz := nz + 1;
      }
    }
    assert data[..|data|] == data;
  }

  method ComputeDataCost(data: seq<Byte>, p: Pricing) returns (r: Option<nat>)
    requires |data| <= MAX_UINT64
    ensures r == if DataCost(data, p) <= MAX_UINT64 then Some(DataCost(data, p)) else None
  {
    var gas: nat := if p.creation && p.homestead then TX_GAS_CONTRACT_CREATION else TX_GAS;
    var dataLen := |data|;
    if dataLen == 0 {
      return Some(gas);
    }
    var nz := CountNonZero(data);
    r := AddScaled(gas, nz, NonZeroGas(p));
    if r.None? {
      return;
    }
    r := AddScaled(r.value, dataLen - nz, TX_DATA_ZERO_GAS);
    if r.None? {
      return;
    }
    if p.creation && p.eip3860 {
      r := AddScaled(r.value, ToWordSize(dataLen), INIT_CODE_WORD_GAS);
    }
  }

  /** The uint64 loop and its overflow checks compute `IntrinsicCost`. */
  method ComputeIntrinsicGas(data: seq<Byte>, list: seq<AccessTuple>, p: Pricing) returns (r: Option<nat>)
    requires |data| <= MAX_UINT64
    ensures r == IntrinsicCost(data, list, p)
  {
    r := ComputeDataCost(data, p);
    if r.Some? {
      var gas := r.value;
      gas := (gas + |list| * TX_ACCESS_LIST_ADDRESS_GAS) % TWO_64;
      gas := (gas + StorageKeys(list) * TX_ACCESS_LIST_STORAGE_KEY_GAS) % TWO_64;
      r := Some(gas);
    }
  }

  /** The result is exact or an overflow error exactly when the access list does not carry the sum past
      uint64; in particular without an access list it always is. */
  lemma ExactIff(data: seq<Byte>, list: seq<AccessTuple>, p: Pricing)
    requires |data| <= MAX_UINT64
    ensures
      var exact := DataCost(data, p) + ListCost(list);
      IntrinsicCost(data, list, p) == (if exact <= MAX_UINT64 then Some(exact) else None)
      <==> exact <= MAX_UINT64 || DataCost(data, p) > MAX_UINT64
    ensures list == [] ==>
      IntrinsicCost(data, list, p) == if DataCost(data, p) <= MAX_UINT64 then Some(DataCost(data, p)) else None
  {
  }

  lemma {:induction false} NoStorageKeys(list: seq<AccessTuple>)
    requires forall i | 0 <= i < |list| :: list[i].storageKeys == []
    ensures StorageKeys(list) == 0
  {
    if list == [] {
    } else {
      NoStorageKeys(list[1..]);
    }
  }

  /** The case arises for an access list of some 7.7 * 10^15 addresses: the gas of an empty call comes out
      as 584. */
  lemma LongListWraps(list: seq<AccessTuple>, p: Pricing)
    requires |list| == 7_686_143_364_045_638 && !p.creation
    requires forall i | 0 <= i < |list| :: list[i].storageKeys == []
    ensures DataCost([], p) == TX_GAS && IntrinsicCost([], list, p) == Some(584)
  {
    NoStorageKeys(list);
  }
}
