/** Account balances and the total supply they add up to. */
module Accounts {
  import opened Prelude

  type Byte = b: nat | b < 256
  type Address = a: seq<Byte> | |a| == 20 witness seq(20, _ => 0)

  type Balances = map<Address, nat>

  function Balance(b: Balances, a: Address): nat {
    if a in b then b[a] else 0
  }

  function Credit(b: Balances, a: Address, amount: nat): Balances {
    b[a := Balance(b, a) + amount]
  }

  function Debit(b: Balances, a: Address, amount: nat): Balances
    requires amount <= Balance(b, a)
  {
    b[a := Balance(b, a) - amount]
  }

  /** The sum of all balances. */
  ghost function Total(b: Balances): nat {
    if b == map[] then 0
    else
      var a :| a in b;
      b[a] + Total(b - {a})
  }

  lemma {:induction false} TotalRemove(b: Balances, a: Address)
    requires a in b
    ensures Total(b) == b[a] + Total(b - {a})
  {
    var x :| x in b && Total(b) == b[x] + Total(b - {x});
    if x == a {
    } else {
      TotalRemove(b - {x}, a);
      TotalRemove(b - {a}, x);
      assert b - {x} - {a} == b - {a} - {x};
    }
  }

  lemma TotalUpdate(b: Balances, a: Address, v: nat)
    ensures Total(b[a := v]) == Total(b) - Balance(b, a) + v
    ensures Balance(b, a) <= Total(b)
  {
    TotalRemove(b[a := v], a);
    assert b[a := v] - {a} == b - {a};
    if a in b {
      TotalRemove(b, a);
    } else {
      assert b - {a} == b;
    }
  }

  lemma CreditTotal(b: Balances, a: Address, amount: nat)
    ensures Total(Credit(b, a, amount)) == Total(b) + amount
    ensures Balance(b, a) <= Total(b)
  {
    TotalUpdate(b, a, Balance(b, a) + amount);
  }

  lemma DebitTotal(b: Balances, a: Address, amount: nat)
    requires amount <= Balance(b, a)
    ensures Total(Debit(b, a, amount)) == Total(b) - amount
  {
    TotalUpdate(b, a, Balance(b, a) - amount);
  }

  predicate CanTransfer(b: Balances, sender: Address, amount: nat) {
    Balance(b, sender) >= amount
  }

  function Transfer(b: Balances, sender: Address, recipient: Address, amount: nat): Balances
    requires CanTransfer(b, sender, amount)
  {
    Credit(Debit(b, sender, amount), recipient, amount)
  }

  /** A covered transfer moves exactly `amount`, also from an account to itself, and conserves the
      total supply. */
  lemma TransferConserves(b: Balances, sender: Address, recipient: Address, amount: nat)
    requires CanTransfer(b, sender, amount)
    ensures var after := Transfer(b, sender, recipient, amount);
            && Total(after) == Total(b)
            && (sender != recipient ==>
                  && Balance(after, sender) == Balance(b, sender) - amount
                  && Balance(after, recipient) == Balance(b, recipient) + amount)
            && (sender == recipient ==> Balance(after, sender) == Balance(b, sender))
            && (forall a: Address | a != sender && a != recipient :: Balance(after, a) == Balance(b, a))
  {
    DebitTotal(b, sender, amount);
    CreditTotal(Debit(b, sender, amount), recipient, amount);
  }
}
