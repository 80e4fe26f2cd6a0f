/** Machine-integer limits and the option type shared by every module. */
module Prelude {
  const MAX_UINT64: nat := 0xFFFF_FFFF_FFFF_FFFF
  const TWO_64: nat := 0x1_0000_0000_0000_0000
  const TWO_256: nat :=
    0x1_0000_0000_0000_0000_0000_0000_0000_0000_0000_0000_0000_0000_0000_0000_0000_0000

  datatype Option<+T> = None | Some(value: T)

  /** `n - 1` on uint64: the predecessor of zero wraps to the largest value. */
  function Pred(n: nat): nat {
    if n == 0 then MAX_UINT64 else n - 1
  }

  /** A value on uint64. */
  function Wrap64(n: nat): (r: nat)
    ensures r <= MAX_UINT64
    ensures n <= MAX_UINT64 ==> r == n
  {
    n % TWO_64
  }

  /** A value on uint256. */
  function Wrap256(n: nat): (r: nat)
    ensures r < TWO_256
    ensures n < TWO_256 ==> r == n
    ensures TWO_256 <= n < 2 * TWO_256 ==> r == n - TWO_256
  {
    n % TWO_256
  }

  function Min(a: nat, b: nat): nat {
    if a <= b then a else b
  }

  function Max(a: nat, b: nat): nat {
    if a <= b then b else a
  }

  lemma MulMonotone(a: nat, b: nat, k: nat)
    requires a <= b
    ensures a * k <= b * k
  {
    assert b * k == a * k + (b - a) * k;
  }

  /** Comparing a quotient is comparing with a product. */
  lemma DivLess(room: nat, unit: nat, count: nat)
    requires unit > 0
    ensures room / unit < count <==> room < count * unit
  {
    var q := room / unit;
    assert room == q * unit + room % unit;
    if q < count {
      MulMonotone(q + 1, count, unit);
      assert (q + 1) * unit == q * unit + unit;
    } else {
      MulMonotone(count, q, unit);
    }
  }
}
