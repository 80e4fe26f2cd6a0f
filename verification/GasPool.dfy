/** The gas still available to the transactions of a block. */
module GasPool {
  import opened Prelude

  class GasPool {
    var gas: nat

    ghost predicate Valid()
      reads this
    {
      gas <= MAX_UINT64
    }

    constructor (amount: nat)
      requires amount <= MAX_UINT64
      ensures Valid() && gas == amount
    {
      gas := amount;
    }

    /** Makes gas available; true is the panic of a pool pushed above uint64, which changes nothing. */
    method AddGas(amount: nat) returns (panicked: bool)
      requires Valid() && amount <= MAX_UINT64
      modifies this
      ensures Valid()
      ensures panicked <==> old(gas) + amount > MAX_UINT64
      ensures gas == if panicked then old(gas) else old(gas) + amount
    {
      if gas > MAX_UINT64 - amount {
        return true;
      }
      gas := gas + amount;
      return false;
    }

    /** Deducts gas if enough is available. */
    method SubGas(amount: nat) returns (ok: bool)
      requires Valid()
      modifies this
      ensures Valid()
      ensures ok <==> amount <= old(gas)
      ensures gas == if ok then old(gas) - amount else old(gas)
    {
      if gas < amount {
        return false;
      }
      gas := gas - amount;
      return true;
    }
  }
}
