/** Applying a message to the state: buying gas, execution, refund, and payment of the block producer.
    The EVM is an oracle. The base fee is never disabled. */
module StateTransition {
  import opened Prelude
  import opened Accounts
  import opened IntrinsicGas
  import opened Messages
  import GP = GasPool

  const REFUND_QUOTIENT := 2
  const REFUND_QUOTIENT_EIP3529 := 5
  const MAX_INIT_CODE_SIZE := 49152

  datatype World = World(balances: Balances, nonces: map<Address, Uint64>, contracts: set<Address>, refund: Uint64)

  datatype Rules = Rules(homestead: bool, istanbul: bool, london: bool, shanghai: bool, cancun: bool)

  datatype Context = Context(rules: Rules, coinbase: Address, baseFee: nat, blobBaseFee: nat)

  datatype TxError =
    | NonceTooHigh | NonceTooLow | NonceMax | SenderNoEOA
    | FeeCapVeryHigh | TipVeryHigh | TipAboveFeeCap | FeeCapTooLow
    | BlobTxCreate | MissingBlobHashes | InvalidBlobHash | BlobFeeCapTooLow
    | InsufficientFunds | GasLimitReached
    | GasUintOverflow | NotEnoughGas | InsufficientFundsForTransfer | MaxInitCodeSizeExceeded

  function Nonce(w: World, a: Address): Uint64 {
    if a in w.nonces then w.nonces[a] else 0
  }

  // ---------------------------------------------------------------- the EVM oracle

  datatype ExecResult = ExecResult(world: World, gasLeft: nat, failed: bool)

  /** An execution never returns more gas than it got and never mints ether. */
  ghost predicate Lawful(evm: (World, Message, nat) -> ExecResult) {
    forall w: World, m: Message, gas: nat ::
      && evm(w, m, gas).gasLeft <= gas
      && Total(evm(w, m, gas).world.balances) <= Total(w.balances)
  }

  type Evm = evm: (World, Message, nat) -> ExecResult | Lawful(evm) witness (w, m, gas) => ExecResult(w, 0, true)

  // ---------------------------------------------------------------- fees over unbounded integers

  function BlobFee(m: Message, ctx: Context): nat {
    if ctx.rules.cancun && BlobGasUsed(m) > 0 then BlobGasUsed(m) * ctx.blobBaseFee else 0
  }

  /** What the purchase of gas deducts. */
  function Prepaid(m: Message, ctx: Context): nat {
    m.gasLimit * m.gasPrice + BlobFee(m, ctx)
  }

  /** What the purchase checks the balance against. */
  function Required(m: Message, ctx: Context): nat {
    m.gasLimit * m.gasFeeCap + m.value
    + if ctx.rules.cancun && BlobGasUsed(m) > 0 && m.blobGasFeeCap.Some?
      then BlobGasUsed(m) * m.blobGasFeeCap.value else 0
  }

  /** The part of the price that goes to the block producer. */
  function EffectiveTip(m: Message, ctx: Context): nat
    requires ctx.rules.london ==> ctx.baseFee <= m.gasFeeCap
  {
    if ctx.rules.london then Min(m.gasTipCap, m.gasFeeCap - ctx.baseFee) else m.gasPrice
  }

  /** The part of the price that is burned. */
  function BurnedPrice(ctx: Context): nat {
    if ctx.rules.london then ctx.baseFee else 0
  }

  /** The message was derived from a transaction under the block's own base fee. */
  predicate Priced(m: Message, ctx: Context) {
    && m.gasPrice == (if ctx.rules.london then Min(m.gasTipCap + ctx.baseFee, m.gasFeeCap) else m.gasFeeCap)
    && (m.blobHashes.Some? <==> m.blobGasFeeCap.Some?)
  }

  lemma TransactionsArePriced(tx: Transaction, from: Address, ctx: Context)
    ensures Priced(TransactionToMessage(tx, from, if ctx.rules.london then Some(ctx.baseFee) else None), ctx)
  {
  }

  /** The effective price splits into the tip and the base fee. */
  lemma PriceSplits(m: Message, ctx: Context)
    requires Priced(m, ctx) && (ctx.rules.london ==> ctx.baseFee <= m.gasFeeCap)
    ensures m.gasPrice == EffectiveTip(m, ctx) + BurnedPrice(ctx)
    ensures m.gasPrice <= m.gasFeeCap
  {
  }

  // ---------------------------------------------------------------- consensus checks

  function CheckNonce(w: World, m: Message): Option<TxError> {
    if m.skipAccountChecks then None
    else if Nonce(w, m.from) < m.nonce then Some(NonceTooHigh)
    else if Nonce(w, m.from) > m.nonce then Some(NonceTooLow)
    else if Nonce(w, m.from) == MAX_UINT64 then Some(NonceMax)
    else if m.from in w.contracts then Some(SenderNoEOA)
    else None
  }

  function CheckFees(m: Message, ctx: Context): Option<TxError> {
    if !ctx.rules.london then None
    else if m.gasFeeCap >= TWO_256 then Some(FeeCapVeryHigh)
    else if m.gasTipCap >= TWO_256 then Some(TipVeryHigh)
    else if m.gasFeeCap < m.gasTipCap then Some(TipAboveFeeCap)
    else if m.gasFeeCap < ctx.baseFee then Some(FeeCapTooLow)
    else None
  }

  function CheckBlobs(m: Message, ctx: Context): Option<TxError> {
    if m.blobHashes.Some? && m.to.None? then Some(BlobTxCreate)
    else if m.blobHashes == Some([]) then Some(MissingBlobHashes)
    else if m.blobHashes.Some? && exists i :: 0 <= i < |m.blobHashes.value| && m.blobHashes.value[i][0] != BLOB_HASH_VERSION
    then Some(InvalidBlobHash)
    else if ctx.rules.cancun && BlobGasUsed(m) > 0 && m.blobGasFeeCap.Some? && m.blobGasFeeCap.value < ctx.blobBaseFee
    then Some(BlobFeeCapTooLow)
    else None
  }

  function CheckFunds(w: World, pool: nat, m: Message, ctx: Context): Option<TxError> {
    if Required(m, ctx) >= TWO_256 || Balance(w.balances, m.from) < Required(m, ctx) then Some(InsufficientFunds)
    else if pool < m.gasLimit then Some(GasLimitReached)
    else None
  }

  /** All the checks before execution, in order. */
  function PreCheck(w: World, pool: nat, m: Message, ctx: Context): Option<TxError> {
    if CheckNonce(w, m).Some? then CheckNonce(w, m)
    else if CheckFees(m, ctx).Some? then CheckFees(m, ctx)
    else if CheckBlobs(m, ctx).Some? then CheckBlobs(m, ctx)
    else CheckFunds(w, pool, m, ctx)
  }

  /** A covered balance check covers the deduction, which then is an exact subtraction. */
  lemma Affordable(w: World, m: Message, ctx: Context)
    requires Priced(m, ctx) && CheckFees(m, ctx).None? && CheckBlobs(m, ctx).None?
    requires Required(m, ctx) < TWO_256 && Required(m, ctx) <= Balance(w.balances, m.from)
    ensures Prepaid(m, ctx) + m.value <= Required(m, ctx)
  {
    PriceSplits(m, ctx);
    MulMonotone(m.gasPrice, m.gasFeeCap, m.gasLimit);
    if ctx.rules.cancun && BlobGasUsed(m) > 0 {
      MulMonotone(ctx.blobBaseFee, m.blobGasFeeCap.value, BlobGasUsed(m));
    }
  }

  /** A message that passes the checks can pay: what is deducted is at most what was checked, and the
      rest of the balance still covers the value. */
  lemma PrepaymentSound(w: World, pool: nat, m: Message, ctx: Context)
    requires Priced(m, ctx) && PreCheck(w, pool, m, ctx).None?
    ensures Prepaid(m, ctx) + m.value <= Required(m, ctx) <= Balance(w.balances, m.from)
    ensures Prepaid(m, ctx) < TWO_256 && m.value < TWO_256
    ensures m.value <= Balance(Debit(w.balances, m.from, Prepaid(m, ctx)), m.from)
    ensures m.gasLimit <= pool
  {
    Affordable(w, m, ctx);
  }

  // ---------------------------------------------------------------- the transition over unbounded integers

  datatype Result =
    | Rejected(error: TxError, world: World, pool: nat)
    | Applied(world: World, pool: nat, usedGas: nat, refunded: nat, failed: bool)
    | Panicked

  /** A message derived from a transaction. */
  predicate Admissible(m: Message, ctx: Context) {
    Priced(m, ctx) && |m.data| <= MAX_UINT64
  }

  /** The state after the purchase of gas. */
  function Bought(w: World, m: Message, ctx: Context): World
    requires Prepaid(m, ctx) <= Balance(w.balances, m.from)
  {
    w.(balances := Debit(w.balances, m.from, Prepaid(m, ctx)))
  }

  function PricingOf(m: Message, ctx: Context): Pricing {
    Pricing(m.to.None?, ctx.rules.homestead, ctx.rules.istanbul, ctx.rules.shanghai)
  }

  function Intrinsic(m: Message, ctx: Context): Option<nat>
    requires |m.data| <= MAX_UINT64
  {
    IntrinsicCost(m.data, m.accessList, PricingOf(m, ctx))
  }

  /** The checks after the purchase of gas. */
  function PostCheck(m: Message, ctx: Context): Option<TxError>
    requires |m.data| <= MAX_UINT64
  {
    if Intrinsic(m, ctx).None? then Some(GasUintOverflow)
    else if m.gasLimit < Intrinsic(m, ctx).value then Some(NotEnoughGas)
    else if ctx.rules.shanghai && m.to.None? && |m.data| > MAX_INIT_CODE_SIZE then Some(MaxInitCodeSizeExceeded)
    else None
  }

  /** A plain call bumps the sender's nonce before execution; a creation leaves that to the EVM. */
  function Started(w: World, m: Message): World {
    if m.to.None? then w else w.(nonces := w.nonces[m.from := Wrap64(Nonce(w, m.from) + 1)])
  }

  function Execution(w: World, m: Message, ctx: Context, evm: Evm): (ex: ExecResult)
    requires |m.data| <= MAX_UINT64 && PostCheck(m, ctx).None?
    requires Prepaid(m, ctx) <= Balance(w.balances, m.from)
    ensures ex.gasLeft <= m.gasLimit - Intrinsic(m, ctx).value
    ensures Total(ex.world.balances) <= Total(w.balances) - Prepaid(m, ctx)
  {
    DebitTotal(w.balances, m.from, Prepaid(m, ctx));
    evm(Started(Bought(w, m, ctx), m), m, m.gasLimit - Intrinsic(m, ctx).value)
  }

  function Quotient(ctx: Context): nat {
    if ctx.rules.london then REFUND_QUOTIENT_EIP3529 else REFUND_QUOTIENT
  }

  /** The refund: the counter, capped to a fraction of the gas used. */
  function Refund(m: Message, ctx: Context, ex: ExecResult): (refund: nat)
    requires ex.gasLeft <= m.gasLimit
    ensures refund <= m.gasLimit - ex.gasLeft
  {
    Min((m.gasLimit - ex.gasLeft) / Quotient(ctx), ex.world.refund)
  }

  /** Settles an execution: the remaining gas is bought back, the producer gets the tip. */
  function Settle(m: Message, ctx: Context, pool: nat, ex: ExecResult): Result
    requires ex.gasLeft <= m.gasLimit <= pool
    requires ctx.rules.london ==> ctx.baseFee <= m.gasFeeCap
  {
    var refund := Refund(m, ctx, ex);
    var remaining := ex.gasLeft + refund;
    var used := m.gasLimit - remaining;
    var repaid := Credit(ex.world.balances, m.from, remaining * m.gasPrice);
    Applied(ex.world.(balances := Credit(repaid, ctx.coinbase, used * EffectiveTip(m, ctx))),
            pool - used, used, refund, ex.failed)
  }

  /** The whole transition. A price beyond 256 bits panics when the remaining gas is bought back. */
  function Transition(w: World, pool: nat, m: Message, ctx: Context, evm: Evm): Result
    requires Admissible(m, ctx)
  {
    if PreCheck(w, pool, m, ctx).Some? then
      Rejected(PreCheck(w, pool, m, ctx).value, w, pool)
    else
      PrepaymentSound(w, pool, m, ctx);
      if PostCheck(m, ctx).Some? then
        Rejected(PostCheck(m, ctx).value, Bought(w, m, ctx), pool - m.gasLimit)
      else if m.gasPrice >= TWO_256 then
        Panicked
      else
        Settle(m, ctx, pool, Execution(w, m, ctx, evm))
  }

  // ---------------------------------------------------------------- who is let in

  predicate Fails(r: Result, e: TxError) {
    r.Rejected? && r.error == e
  }

  /** The message is the sender's next, and the sender is no contract; some messages are exempt. */
  predicate NonceMatches(w: World, m: Message) {
    m.skipAccountChecks || (m.nonce == Nonce(w, m.from) < MAX_UINT64 && m.from !in w.contracts)
  }

  predicate FeesInOrder(m: Message, ctx: Context) {
    ctx.rules.london ==> ctx.baseFee <= m.gasFeeCap < TWO_256 && m.gasTipCap <= m.gasFeeCap
  }

  predicate HashesInOrder(m: Message) {
    m.blobHashes.Some? ==>
      && m.to.Some? && |m.blobHashes.value| > 0
      && forall i | 0 <= i < |m.blobHashes.value| :: m.blobHashes.value[i][0] == 1
  }

  /** What the blobs of a message cost at a price per unit of blob gas. */
  function BlobCharge(m: Message, price: nat): nat {
    if m.blobHashes.Some? then (|m.blobHashes.value| * 131072) % TWO_64 * price else 0
  }

  predicate BlobsInOrder(m: Message, ctx: Context) {
    && HashesInOrder(m)
    && (ctx.rules.cancun && m.blobGasFeeCap.Some? && BlobCharge(m, 1) > 0 ==> ctx.blobBaseFee <= m.blobGasFeeCap.value)
  }

  /** The most a message may cost its sender. */
  function Most(m: Message, ctx: Context): nat {
    m.gasLimit * m.gasFeeCap + m.value
    + if ctx.rules.cancun && m.blobGasFeeCap.Some? then BlobCharge(m, m.blobGasFeeCap.value) else 0
  }

  /** The sender could pay the highest price the message allows, and the value on top. */
  predicate Covered(w: World, m: Message, ctx: Context) {
    Most(m, ctx) < TWO_256 && Most(m, ctx) <= Balance(w.balances, m.from)
  }

  /** The intrinsic gas under the rules of the block. */
  function Charge(m: Message, ctx: Context): Option<nat>
    requires |m.data| <= MAX_UINT64
  {
    IntrinsicCost(m.data, m.accessList, Pricing(m.to.None?, ctx.rules.homestead, ctx.rules.istanbul, ctx.rules.shanghai))
  }

  /** A message whose gas is bought. */
  predicate Buys(w: World, pool: nat, m: Message, ctx: Context) {
    NonceMatches(w, m) && FeesInOrder(m, ctx) && BlobsInOrder(m, ctx) && Covered(w, m, ctx) && m.gasLimit <= pool
  }

  lemma RequiredIsMost(m: Message, ctx: Context)
    ensures Required(m, ctx) == Most(m, ctx)
  {
  }

  lemma BlobsChecked(m: Message, ctx: Context)
    ensures CheckBlobs(m, ctx).None? <==> BlobsInOrder(m, ctx)
  {
  }

  /** The checks before execution let through exactly the messages that can buy their gas. */
  lemma BuysIff(w: World, pool: nat, m: Message, ctx: Context)
    ensures CheckNonce(w, m).None? <==> NonceMatches(w, m)
    ensures CheckFees(m, ctx).None? <==> FeesInOrder(m, ctx)
    ensures CheckFunds(w, pool, m, ctx).None? <==> Covered(w, m, ctx) && m.gasLimit <= pool
    ensures PreCheck(w, pool, m, ctx).None? <==> Buys(w, pool, m, ctx)
  {
    RequiredIsMost(m, ctx);
    BlobsChecked(m, ctx);
  }

  /** Each nonce and sender error occurs exactly on its condition, before all others. */
  lemma NonceErrors(w: World, pool: nat, m: Message, ctx: Context, evm: Evm)
    requires Admissible(m, ctx)
    ensures var r, known, checked := Transition(w, pool, m, ctx, evm), Nonce(w, m.from), !m.skipAccountChecks;
            && (Fails(r, NonceTooHigh) <==> checked && known < m.nonce)
            && (Fails(r, NonceTooLow) <==> checked && known > m.nonce)
            && (Fails(r, NonceMax) <==> checked && known == m.nonce == MAX_UINT64)
            && (Fails(r, SenderNoEOA) <==> checked && known == m.nonce < MAX_UINT64 && m.from in w.contracts)
            && (r.Applied? && checked ==> known == m.nonce < MAX_UINT64 && m.from !in w.contracts)
  {
  }

  lemma FeeErrors(w: World, pool: nat, m: Message, ctx: Context, evm: Evm)
    requires Admissible(m, ctx)
    ensures var r, checked := Transition(w, pool, m, ctx, evm), NonceMatches(w, m) && ctx.rules.london;
            && (Fails(r, FeeCapVeryHigh) <==> checked && m.gasFeeCap >= TWO_256)
            && (Fails(r, TipVeryHigh) <==> checked && m.gasFeeCap < TWO_256 <= m.gasTipCap)
            && (Fails(r, TipAboveFeeCap) <==> checked && m.gasFeeCap < m.gasTipCap < TWO_256)
            && (Fails(r, FeeCapTooLow) <==> checked && m.gasTipCap <= m.gasFeeCap < TWO_256 && m.gasFeeCap < ctx.baseFee)
  {
  }

  lemma BlobErrors(w: World, pool: nat, m: Message, ctx: Context, evm: Evm)
    requires Admissible(m, ctx)
    ensures var r, checked := Transition(w, pool, m, ctx, evm), NonceMatches(w, m) && FeesInOrder(m, ctx);
            && (Fails(r, BlobTxCreate) <==> checked && m.blobHashes.Some? && m.to.None?)
            && (Fails(r, MissingBlobHashes) <==> checked && m.blobHashes == Some([]) && m.to.Some?)
            && (Fails(r, InvalidBlobHash) <==>
                checked && m.blobHashes.Some? && m.to.Some? && m.blobHashes.value != [] && !HashesInOrder(m))
            && (Fails(r, BlobFeeCapTooLow) <==> checked && HashesInOrder(m) && !BlobsInOrder(m, ctx))
  {
    BlobsChecked(m, ctx);
  }

  lemma FundErrors(w: World, pool: nat, m: Message, ctx: Context, evm: Evm)
    requires Admissible(m, ctx)
    ensures var r := Transition(w, pool, m, ctx, evm);
            var checked := NonceMatches(w, m) && FeesInOrder(m, ctx) && BlobsInOrder(m, ctx);
            && (Fails(r, InsufficientFunds) <==> checked && !Covered(w, m, ctx))
            && (Fails(r, GasLimitReached) <==> checked && Covered(w, m, ctx) && pool < m.gasLimit)
            && !Fails(r, InsufficientFundsForTransfer)
  {
    BuysIff(w, pool, m, ctx);
    BlobsChecked(m, ctx);
    RequiredIsMost(m, ctx);
  }

  /** A message is applied exactly if it can buy its gas, its gas covers the intrinsic part, its init code is
      not too long and its price fits 256 bits. */
  lemma AppliedIff(w: World, pool: nat, m: Message, ctx: Context, evm: Evm)
    requires Admissible(m, ctx)
    ensures var r, buys, charge := Transition(w, pool, m, ctx, evm), Buys(w, pool, m, ctx), Charge(m, ctx);
            var pays := buys && charge.Some? && charge.value <= m.gasLimit;
            var tooLong := ctx.rules.shanghai && m.to.None? && |m.data| > 49152;
            && (Fails(r, GasUintOverflow) <==> buys && charge.None?)
            && (Fails(r, NotEnoughGas) <==> buys && charge.Some? && m.gasLimit < charge.value)
            && (Fails(r, MaxInitCodeSizeExceeded) <==> pays && tooLong)
            && (r.Panicked? <==> pays && !tooLong && m.gasPrice >= TWO_256)
            && (r.Applied? <==> pays && !tooLong && m.gasPrice < TWO_256)
  {
    BuysIff(w, pool, m, ctx);
  }

  /** Ether that the execution itself destroyed. */
  ghost function Destroyed(w: World, m: Message, ctx: Context, evm: Evm): nat
    requires |m.data| <= MAX_UINT64 && PostCheck(m, ctx).None?
    requires Prepaid(m, ctx) <= Balance(w.balances, m.from)
  {
    Total(w.balances) - Prepaid(m, ctx) - Total(Execution(w, m, ctx, evm).world.balances)
  }

  /** Ether that the protocol burns: the base fee on the gas used, and the blob fee. */
  function Burned(m: Message, ctx: Context, usedGas: nat): nat {
    (if ctx.rules.london then usedGas * ctx.baseFee else 0)
    + (if ctx.rules.cancun then BlobCharge(m, ctx.blobBaseFee) else 0)
  }

  lemma SplitCost(remaining: nat, used: nat, price: nat, tip: nat, base: nat)
    requires price == tip + base
    ensures remaining * price + used * tip + used * base == (remaining + used) * price
  {
    assert used * price == used * tip + used * base;
  }

  lemma SplitTotal(b: Balances, from: Address, coinbase: Address, remaining: nat, used: nat, price: nat, tip: nat, base: nat)
    requires price == tip + base
    ensures Total(Credit(Credit(b, from, remaining * price), coinbase, used * tip)) + used * base
            == Total(b) + (remaining + used) * price
  {
    var x, y := remaining * price, used * tip;
    CreditTotal(b, from, x);
    CreditTotal(Credit(b, from, x), coinbase, y);
    SplitCost(remaining, used, price, tip, base);
  }

  /** A settled execution returns to the accounts exactly what was prepaid for gas, less the burn. */
  lemma SettleConserves(m: Message, ctx: Context, pool: nat, ex: ExecResult)
    requires Admissible(m, ctx) && ex.gasLeft <= m.gasLimit <= pool
    requires ctx.rules.london ==> ctx.baseFee <= m.gasFeeCap
    ensures var r := Settle(m, ctx, pool, ex);
            Total(r.world.balances) + r.usedGas * BurnedPrice(ctx) == Total(ex.world.balances) + m.gasLimit * m.gasPrice
  {
    var remaining := ex.gasLeft + Refund(m, ctx, ex);
    PriceSplits(m, ctx);
    SplitTotal(ex.world.balances, m.from, ctx.coinbase, remaining, m.gasLimit - remaining,
               m.gasPrice, EffectiveTip(m, ctx), BurnedPrice(ctx));
  }

  /** An applied message passed all checks. */
  lemma AppliedPassed(w: World, pool: nat, m: Message, ctx: Context, evm: Evm)
    requires Admissible(m, ctx)
    ensures Transition(w, pool, m, ctx, evm).Applied? ==>
              && PreCheck(w, pool, m, ctx).None? && PostCheck(m, ctx).None?
              && Prepaid(m, ctx) <= Balance(w.balances, m.from) && m.gasLimit <= pool
              && (ctx.rules.london ==> ctx.baseFee <= m.gasFeeCap) && m.gasPrice < TWO_256
              && Transition(w, pool, m, ctx, evm) == Settle(m, ctx, pool, Execution(w, m, ctx, evm))
  {
    if PreCheck(w, pool, m, ctx).None? {
      PrepaymentSound(w, pool, m, ctx);
    }
  }

  lemma BurnedParts(m: Message, ctx: Context, usedGas: nat)
    ensures Burned(m, ctx, usedGas) == usedGas * BurnedPrice(ctx) + BlobFee(m, ctx)
  {
  }

  /** Ether conservation: a message that is applied lowers the sum of all balances by exactly the burn
      and by what the execution itself destroys, whoever the sender and the producer are. */
  lemma Conservation(w: World, pool: nat, m: Message, ctx: Context, evm: Evm)
    requires Admissible(m, ctx)
    ensures var r := Transition(w, pool, m, ctx, evm);
            r.Applied? ==>
              && PostCheck(m, ctx).None? && Prepaid(m, ctx) <= Balance(w.balances, m.from)
              && Total(r.world.balances) + Burned(m, ctx, r.usedGas) + Destroyed(w, m, ctx, evm) == Total(w.balances)
  {
    AppliedPassed(w, pool, m, ctx, evm);
    if Transition(w, pool, m, ctx, evm).Applied? {
      SettleConserves(m, ctx, pool, Execution(w, m, ctx, evm));
      BurnedParts(m, ctx, Transition(w, pool, m, ctx, evm).usedGas);
    }
  }

  function Times(gas: nat, price: nat): nat {
    gas * price
  }

  /** What settling changes on account `a`: the sender gets back all but the used gas, the producer gets
      the tip. */
  lemma SettlePays(m: Message, ctx: Context, pool: nat, ex: ExecResult, a: Address)
    requires ex.gasLeft <= m.gasLimit <= pool
    requires ctx.rules.london ==> ctx.baseFee <= m.gasFeeCap
    ensures var r := Settle(m, ctx, pool, ex);
            Balance(r.world.balances, a) + (if a == m.from then Times(r.usedGas, m.gasPrice) else 0)
            == Balance(ex.world.balances, a)
               + (if a == m.from then Times(m.gasLimit, m.gasPrice) else 0)
               + (if a == ctx.coinbase then Times(r.usedGas, EffectiveTip(m, ctx)) else 0)
  {
    var remaining := ex.gasLeft + Refund(m, ctx, ex);
    SplitCost(remaining, m.gasLimit - remaining, m.gasPrice, m.gasPrice, 0);
  }

  /** What the execution itself did to account `a`. */
  function ByExecution(w: World, m: Message, ctx: Context, evm: Evm, a: Address): int
    requires |m.data| <= MAX_UINT64 && PostCheck(m, ctx).None?
    requires Prepaid(m, ctx) <= Balance(w.balances, m.from)
  {
    Balance(Execution(w, m, ctx, evm).world.balances, a) - Balance(Bought(w, m, ctx).balances, a)
  }

  /** What a message that used `usedGas` charges or pays account `a`. */
  function FeeEffect(m: Message, ctx: Context, usedGas: nat, a: Address): int
    requires ctx.rules.london ==> ctx.baseFee <= m.gasFeeCap
  {
    var tip := if ctx.rules.london then Min(m.gasTipCap, m.gasFeeCap - ctx.baseFee) else m.gasPrice;
    var blobs := if ctx.rules.cancun then BlobCharge(m, ctx.blobBaseFee) else 0;
    (if a == ctx.coinbase then Times(usedGas, tip) else 0)
    - (if a == m.from then Times(usedGas, m.gasPrice) + blobs else 0)
  }

  lemma FeesCharged(m: Message, ctx: Context, usedGas: nat, a: Address)
    requires ctx.rules.london ==> ctx.baseFee <= m.gasFeeCap
    ensures FeeEffect(m, ctx, usedGas, a) ==
            (if a == ctx.coinbase then Times(usedGas, EffectiveTip(m, ctx)) else 0)
            - (if a == m.from then Times(usedGas, m.gasPrice) + BlobFee(m, ctx) else 0)
  {
  }

  lemma PrepaidParts(w: World, m: Message, ctx: Context, a: Address)
    requires Prepaid(m, ctx) <= Balance(w.balances, m.from)
    ensures Balance(Bought(w, m, ctx).balances, a) ==
            Balance(w.balances, a) - if a == m.from then Times(m.gasLimit, m.gasPrice) + BlobFee(m, ctx) else 0
  {
  }

  /** Who pays: an applied message changes every balance by exactly what its execution does to it, less
      the used gas at the effective price and the blob fee for the sender, plus the used gas at the tip
      for the producer, also when they are the same. */
  lemma WhoPays(w: World, pool: nat, m: Message, ctx: Context, evm: Evm, a: Address)
    requires Admissible(m, ctx)
    ensures var r := Transition(w, pool, m, ctx, evm);
            r.Applied? ==>
              && PostCheck(m, ctx).None? && Prepaid(m, ctx) <= Balance(w.balances, m.from)
              && (ctx.rules.london ==> ctx.baseFee <= m.gasFeeCap)
              && Balance(r.world.balances, a) ==
                 Balance(w.balances, a) + ByExecution(w, m, ctx, evm, a) + FeeEffect(m, ctx, r.usedGas, a)
  {
    AppliedPassed(w, pool, m, ctx, evm);
    if Transition(w, pool, m, ctx, evm).Applied? {
      SettlePays(m, ctx, pool, Execution(w, m, ctx, evm), a);
      PrepaidParts(w, m, ctx, a);
      FeesCharged(m, ctx, Transition(w, pool, m, ctx, evm).usedGas, a);
    }
  }

  /** Gas accounting: an applied message takes exactly its used gas out of the pool. It is charged for what
      the execution used and the intrinsic gas, less the refund counter up to a fifth (before London a
      half) of that. */
  lemma GasAccounting(w: World, pool: nat, m: Message, ctx: Context, evm: Evm)
    requires Admissible(m, ctx)
    ensures var r := Transition(w, pool, m, ctx, evm);
            r.Applied? ==>
              && PostCheck(m, ctx).None? && Prepaid(m, ctx) <= Balance(w.balances, m.from)
              && var ex := Execution(w, m, ctx, evm);
              && r.usedGas + r.refunded == m.gasLimit - ex.gasLeft
              && r.refunded == Min((m.gasLimit - ex.gasLeft) / (if ctx.rules.london then 5 else 2), ex.world.refund)
              && r.pool + r.usedGas == pool
              && r.failed == ex.failed
              && r.world.(balances := ex.world.balances) == ex.world
              && Charge(m, ctx).value <= r.usedGas + r.refunded
  {
    AppliedPassed(w, pool, m, ctx, evm);
  }

  /** What the execution is given: the sender has paid for all the gas and the blobs, a call has used up the
      sender's nonce, and the intrinsic gas is gone. */
  lemma ExecutionInput(w: World, m: Message, ctx: Context, evm: Evm, a: Address)
    requires |m.data| <= MAX_UINT64 && PostCheck(m, ctx).None?
    requires Prepaid(m, ctx) <= Balance(w.balances, m.from)
    ensures var w' := Started(Bought(w, m, ctx), m);
            && Execution(w, m, ctx, evm) == evm(w', m, m.gasLimit - Charge(m, ctx).value)
            && Nonce(w', a) == (if a == m.from && m.to.Some? then (Nonce(w, a) + 1) % TWO_64 else Nonce(w, a))
            && Balance(w'.balances, a) + (if a != m.from then 0
                                          else m.gasLimit * m.gasPrice
                                               + (if ctx.rules.cancun then BlobCharge(m, ctx.blobBaseFee) else 0))
               == Balance(w.balances, a)
            && w'.contracts == w.contracts && w'.refund == w.refund
  {
  }

  /** A rejection by the checks before the purchase changes nothing; a later one has bought gas. */
  lemma RejectionEffects(w: World, pool: nat, m: Message, ctx: Context, evm: Evm)
    requires Admissible(m, ctx)
    ensures var r := Transition(w, pool, m, ctx, evm);
            r.Rejected? ==>
            && r.error != InsufficientFundsForTransfer
            && if r.error in {GasUintOverflow, NotEnoughGas, MaxInitCodeSizeExceeded}
               then r.pool + m.gasLimit == pool && Total(r.world.balances) + Prepaid(m, ctx) == Total(w.balances)
               else r.world == w && r.pool == pool
  {
    if PreCheck(w, pool, m, ctx).None? {
      PrepaymentSound(w, pool, m, ctx);
      DebitTotal(w.balances, m.from, Prepaid(m, ctx));
    }
  }

  /** A transition panics only for a message without gas, before the London rules, whose access list is so
      long that its cost wraps around to nothing. */
  lemma PanicNeedsWrap(w: World, pool: nat, m: Message, ctx: Context, evm: Evm)
    requires Admissible(m, ctx)
    ensures Transition(w, pool, m, ctx, evm).Panicked? ==>
              && m.gasLimit == 0 && !ctx.rules.london
              && DataCost(m.data, PricingOf(m, ctx)) + ListCost(m.accessList) >= TWO_64
  {
    if m.gasLimit > 0 {
      MulMonotone(1, m.gasLimit, m.gasFeeCap);
    }
  }

  // ---------------------------------------------------------------- machine arithmetic

  lemma QuotientBound(x: nat, q: nat)
    requires q > 0
    ensures x / q <= x
  {
    assert x == x / q * q + x % q;
    MulMonotone(1, q, x / q);
  }

  /** Subtracting a covered amount from a 256-bit balance does not wrap. */
  lemma DebitFits(b: Balances, a: Address, amount: nat)
    requires amount <= Balance(b, a) && Total(b) < TWO_256
    ensures Wrap256(amount) == amount < TWO_256
    ensures Wrap256(Balance(b, a) + TWO_256 - amount) == Balance(b, a) - amount
  {
    CreditTotal(b, a, 0);
  }

  /** 256-bit multiplication. */
  function Mul256(a: nat, b: nat): nat {
    Wrap256(a * b)
  }

  lemma RefundFits(b: Balances, a: Address, gas: nat, limit: nat, price: nat)
    requires gas <= limit && Total(b) + limit * price < TWO_256
    ensures Mul256(gas, price) == gas * price
    ensures Balance(b, a) + gas * price < TWO_256
  {
    MulMonotone(gas, limit, price);
    CreditTotal(b, a, 0);
  }

  lemma FeeBound(total: nat, remaining: nat, used: nat, price: nat, tip: nat)
    requires tip <= price && total + (remaining + used) * price < TWO_256
    ensures total + remaining * price + used * tip < TWO_256
  {
    assert (remaining + used) * price == remaining * price + used * price;
    MulMonotone(tip, price, used);
  }

  lemma FeeFits(b: Balances, from: Address, coinbase: Address, remaining: nat, used: nat, price: nat, tip: nat)
    requires tip <= price < TWO_256 && Total(b) + (remaining + used) * price < TWO_256
    ensures Mul256(used, Wrap256(tip)) == used * tip
    ensures Balance(Credit(b, from, remaining * price), coinbase) + used * tip < TWO_256
  {
    var x, y := remaining * price, used * tip;
    FeeBound(Total(b), remaining, used, price, tip);
    CreditTotal(b, from, x);
    CreditTotal(Credit(b, from, x), coinbase, y);
    assert Wrap256(tip) == tip;
  }

  /** What was prepaid for gas is still missing from the balances after execution, so giving it back
      cannot overflow. */
  lemma SettleFits(w: World, pool: nat, m: Message, ctx: Context, evm: Evm)
    requires Admissible(m, ctx) && PreCheck(w, pool, m, ctx).None? && PostCheck(m, ctx).None?
    requires Prepaid(m, ctx) <= Balance(w.balances, m.from) && Total(w.balances) < TWO_256
    ensures Total(Execution(w, m, ctx, evm).world.balances) + m.gasLimit * m.gasPrice < TWO_256
    ensures ctx.rules.london ==> ctx.baseFee <= m.gasFeeCap
    ensures EffectiveTip(m, ctx) <= m.gasPrice
  {
    PriceSplits(m, ctx);
    CreditTotal(w.balances, m.from, 0);
  }

  class StateDB {
    var world: World

    constructor (w: World)
      ensures world == w
    {
      world := w;
    }

    /** Adds to a balance, modulo 2^256. */
    method AddBalance(a: Address, amount: nat)
      modifies this
      ensures world == old(world).(balances := old(world).balances[a := Wrap256(Balance(old(world).balances, a) + amount)])
    {
      world := world.(balances := world.balances[a := Wrap256(Balance(world.balances, a) + amount)]);
    }

    /** Subtracts from a balance, modulo 2^256. */
    method SubBalance(a: Address, amount: nat)
      requires amount < TWO_256
      modifies this
      ensures world == old(world).(balances :=
                         old(world).balances[a := Wrap256(Balance(old(world).balances, a) + TWO_256 - amount)])
    {
      world := world.(balances := world.balances[a := Wrap256(Balance(world.balances, a) + TWO_256 - amount)]);
    }
  }

  datatype Outcome = Failure(error: TxError) | Success(usedGas: nat, refunded: nat, failed: bool) | Crash

  /** The world as the unbounded transition would leave it. */
  function AsResult(o: Outcome, w: World, pool: nat): Result {
    match o
    case Failure(error) => Rejected(error, w, pool)
    case Success(used, refunded, failed) => Applied(w, pool, used, refunded, failed)
    case Crash => Panicked
  }

  class StateTransition {
    const gp: GP.GasPool
    const state: StateDB
    const msg: Message
    const ctx: Context
    var gasRemaining: nat
    var initialGas: nat

    constructor (gp: GP.GasPool, state: StateDB, msg: Message, ctx: Context)
      ensures this.gp == gp && this.state == state && this.msg == msg && this.ctx == ctx
      ensures gasRemaining == 0 && initialGas == 0
    {
      this.gp, this.state, this.msg, this.ctx := gp, state, msg, ctx;
      gasRemaining, initialGas := 0, 0;
    }

    /** A fresh transition on a state whose supply fits 256 bits. */
    ghost predicate Ready()
      reads this, gp, state
    {
      && gp.Valid() && Admissible(msg, ctx)
      && Total(state.world.balances) < TWO_256
      && gasRemaining == 0 && initialGas == 0
    }

    /** The gas used so far. */
    function GasUsed(): nat
      reads this
      requires gasRemaining <= initialGas
    {
      initialGas - gasRemaining
    }

    /** The amount to deduct and the amount to check, as unbounded integers. */
    method Costs() returns (cost: nat, balanceCheck: nat)
      requires Priced(msg, ctx)
      ensures cost == Prepaid(msg, ctx) && balanceCheck == Required(msg, ctx)
    {
      cost := msg.gasLimit * msg.gasPrice;
      balanceCheck := msg.gasLimit * msg.gasFeeCap + msg.value;
      if ctx.rules.cancun {
        var blobGas := BlobGasUsed(msg);
        if blobGas > 0 {
          balanceCheck := balanceCheck + blobGas * msg.blobGasFeeCap.value;
          cost := cost + blobGas * ctx.blobBaseFee;
        }
      }
    }

    method BuyGas() returns (err: Option<TxError>)
      requires Ready() && CheckFees(msg, ctx).None? && CheckBlobs(msg, ctx).None?
      modifies this, gp, state
      ensures err == CheckFunds(old(state.world), old(gp.gas), msg, ctx) && gp.Valid()
      ensures err.Some? ==> state.world == old(state.world) && gp.gas == old(gp.gas)
      ensures err.None? ==>
                && Prepaid(msg, ctx) <= Balance(old(state.world).balances, msg.from)
                && state.world == Bought(old(state.world), msg, ctx)
                && msg.gasLimit <= old(gp.gas) && gp.gas == old(gp.gas) - msg.gasLimit
                && gasRemaining == initialGas == msg.gasLimit
    {
      var cost, balanceCheck := Costs();
      if balanceCheck >= TWO_256 {
        return Some(InsufficientFunds);
      }
      if Balance(state.world.balances, msg.from) < balanceCheck {
        return Some(InsufficientFunds);
      }
      Affordable(state.world, msg, ctx);
      var ok := gp.SubGas(msg.gasLimit);
      if !ok {
        return Some(GasLimitReached);
      }
      gasRemaining := gasRemaining + msg.gasLimit;
      initialGas := msg.gasLimit;
      DebitFits(state.world.balances, msg.from, cost);
      state.SubBalance(msg.from, Wrap256(cost));
      return None;
    }

    /** The blob hash version check, hash by hash. */
    method BlobHashesValid() returns (valid: bool)
      ensures valid <==> !(msg.blobHashes.Some? &&
                           exists i :: 0 <= i < |msg.blobHashes.value| && msg.blobHashes.value[i][0] != BLOB_HASH_VERSION)
    {
      if msg.blobHashes.None? {
        return true;
      }
      for i := 0 to |msg.blobHashes.value|
        invariant forall j | 0 <= j < i :: msg.blobHashes.value[j][0] == BLOB_HASH_VERSION
      {
        if msg.blobHashes.value[i][0] != BLOB_HASH_VERSION {
          return false;
        }
      }
      return true;
    }

    method CheckMessage() returns (err: Option<TxError>)
      requires Ready()
      modifies this, gp, state
      ensures err == PreCheck(old(state.world), old(gp.gas), msg, ctx) && gp.Valid()
      ensures err.Some? ==> state.world == old(state.world) && gp.gas == old(gp.gas)
      ensures err.None? ==>
                && Prepaid(msg, ctx) <= Balance(old(state.world).balances, msg.from)
                && state.world == Bought(old(state.world), msg, ctx)
                && msg.gasLimit <= old(gp.gas) && gp.gas == old(gp.gas) - msg.gasLimit
                && gasRemaining == initialGas == msg.gasLimit
    {
      if !msg.skipAccountChecks {
        var stNonce := Nonce(state.world, msg.from);
        if stNonce < msg.nonce {
          return Some(NonceTooHigh);
        } else if stNonce > msg.nonce {
          return Some(NonceTooLow);
        } else if Wrap64(stNonce + 1) < stNonce {
          return Some(NonceMax);
        }
        if msg.from in state.world.contracts {
          return Some(SenderNoEOA);
        }
      }
      if ctx.rules.london {
        if msg.gasFeeCap >= TWO_256 {
          return Some(FeeCapVeryHigh);
        }
        if msg.gasTipCap >= TWO_256 {
          return Some(TipVeryHigh);
        }
        if msg.gasFeeCap < msg.gasTipCap {
          return Some(TipAboveFeeCap);
        }
        if msg.gasFeeCap < ctx.baseFee {
          return Some(FeeCapTooLow);
        }
      }
      if msg.blobHashes.Some? {
        if msg.to.None? {
          return Some(BlobTxCreate);
        }
        if |msg.blobHashes.value| == 0 {
          return Some(MissingBlobHashes);
        }
        var valid := BlobHashesValid();
        if !valid {
          return Some(InvalidBlobHash);
        }
      }
      if ctx.rules.cancun && BlobGasUsed(msg) > 0 && msg.blobGasFeeCap.value < ctx.blobBaseFee {
        return Some(BlobFeeCapTooLow);
      }
      err := BuyGas();
    }

    /** The refund counter, capped to a fraction of the gas used. */
    method CappedRefund(quotient: nat) returns (refund: nat)
      requires quotient > 0 && gasRemaining <= initialGas
      ensures refund == Min((initialGas - gasRemaining) / quotient, state.world.refund)
      ensures refund <= initialGas - gasRemaining
    {
      refund := GasUsed() / quotient;
      QuotientBound(GasUsed(), quotient);
      if refund > state.world.refund {
        refund := state.world.refund;
      }
    }

    /** Refunds gas and buys the remaining gas back, in balance and in the pool. None is the panic of a
        price that does not fit 256 bits. */
    method RefundGas(quotient: nat) returns (refunded: Option<nat>)
      requires quotient > 0 && gp.Valid() && gasRemaining <= initialGas <= MAX_UINT64
      requires gp.gas + initialGas <= MAX_UINT64
      requires msg.gasPrice < TWO_256 ==> Total(state.world.balances) + initialGas * msg.gasPrice < TWO_256
      modifies this`gasRemaining, gp, state
      ensures gp.Valid()
      ensures refunded.None? <==> msg.gasPrice >= TWO_256
      ensures refunded.Some? ==>
                && refunded.value == Min((initialGas - old(gasRemaining)) / quotient, old(state.world).refund)
                && gasRemaining == old(gasRemaining) + refunded.value <= initialGas
                && gp.gas == old(gp.gas) + gasRemaining
                && state.world == old(state.world).(balances :=
                                    Credit(old(state.world).balances, msg.from, gasRemaining * msg.gasPrice))
    {
      var refund := CappedRefund(quotient);
      gasRemaining := gasRemaining + refund;
      if msg.gasPrice >= TWO_256 {
        return None;
      }
      var remaining := Mul256(gasRemaining, msg.gasPrice);
      RefundFits(state.world.balances, msg.from, gasRemaining, initialGas, msg.gasPrice);
      state.AddBalance(msg.from, remaining);
      var panicked := gp.AddGas(gasRemaining);
      assert !panicked;
      return Some(refund);
    }

    /** Credits the producer with the tip on the gas used, which is `exact` without wrap-around. */
    method PayProducer(ghost exact: nat)
      requires gasRemaining <= initialGas
      requires ctx.rules.london ==> ctx.baseFee <= msg.gasFeeCap
      requires Mul256(GasUsed(), Wrap256(EffectiveTip(msg, ctx))) == exact
      requires Balance(state.world.balances, ctx.coinbase) + exact < TWO_256
      modifies state
      ensures state.world == old(state.world).(balances := Credit(old(state.world).balances, ctx.coinbase, exact))
    {
      var tip := if ctx.rules.london then Min(msg.gasTipCap, msg.gasFeeCap - ctx.baseFee) else msg.gasPrice;
      assert tip == EffectiveTip(msg, ctx);
      var fee := Mul256(GasUsed(), Wrap256(tip));
      state.AddBalance(ctx.coinbase, fee);
    }

    /** Refund and payment after an execution `ex`. */
    method SettleUp(ghost ex: ExecResult, failed: bool, ghost pool: nat) returns (o: Outcome)
      requires state.world == ex.world && gasRemaining == ex.gasLeft && failed == ex.failed
      requires ex.gasLeft <= msg.gasLimit == initialGas <= pool <= MAX_UINT64
      requires gp.gas == pool - msg.gasLimit
      requires ctx.rules.london ==> ctx.baseFee <= msg.gasFeeCap
      requires EffectiveTip(msg, ctx) <= msg.gasPrice
      requires Total(ex.world.balances) + msg.gasLimit * msg.gasPrice < TWO_256
      modifies this, gp, state
      ensures AsResult(o, state.world, gp.gas) == if msg.gasPrice >= TWO_256 then Panicked else Settle(msg, ctx, pool, ex)
      ensures gp.Valid()
    {
      var refunded := RefundGas(if ctx.rules.london then REFUND_QUOTIENT_EIP3529 else REFUND_QUOTIENT);
      if refunded.None? {
        return Crash;
      }
      var refund := refunded.value;
      assert refund == Refund(msg, ctx, ex);
      FeeFits(ex.world.balances, msg.from, ctx.coinbase, gasRemaining, initialGas - gasRemaining, msg.gasPrice, EffectiveTip(msg, ctx));
      PayProducer(GasUsed() * EffectiveTip(msg, ctx));
      return Success(GasUsed(), refund, failed);
    }

    /** Execution and settlement of a message whose gas has been bought. */
    method Execute(evm: Evm, ghost w: World, ghost pool: nat) returns (o: Outcome)
      requires Admissible(msg, ctx) && PreCheck(w, pool, msg, ctx).None? && PostCheck(msg, ctx).None?
      requires Prepaid(msg, ctx) <= Balance(w.balances, msg.from) && state.world == Bought(w, msg, ctx)
      requires gasRemaining == msg.gasLimit - Intrinsic(msg, ctx).value && initialGas == msg.gasLimit
      requires gp.Valid() && msg.gasLimit <= pool <= MAX_UINT64 && gp.gas == pool - msg.gasLimit
      requires Total(w.balances) < TWO_256
      modifies this, gp, state
      ensures AsResult(o, state.world, gp.gas) ==
              if msg.gasPrice >= TWO_256 then Panicked else Settle(msg, ctx, pool, Execution(w, msg, ctx, evm))
      ensures gp.Valid()
    {
      ghost var ex := Execution(w, msg, ctx, evm);
      if msg.to.Some? {
        state.world := state.world.(nonces := state.world.nonces[msg.from := Wrap64(Nonce(state.world, msg.from) + 1)]);
      }
      var run := evm(state.world, msg, gasRemaining);
      assert run == ex;
      state.world := run.world;
      gasRemaining := run.gasLeft;
      SettleFits(w, pool, msg, ctx, evm);
      o := SettleUp(ex, run.failed, pool);
    }

    /** Applies the message. On uint64 and uint256 it computes exactly the transition over unbounded
        integers: nothing wraps, the pool never panics, and the transfer-funds error never occurs. */
    method TransitionDb(evm: Evm) returns (o: Outcome)
      requires Ready()
      modifies this, gp, state
      ensures AsResult(o, state.world, gp.gas) == Transition(old(state.world), old(gp.gas), msg, ctx, evm)
      ensures gp.Valid()
    {
      ghost var w, pool := state.world, gp.gas;
      var err := CheckMessage();
      if err.Some? {
        return Failure(err.value);
      }
      PrepaymentSound(w, pool, msg, ctx);
      var gas := ComputeIntrinsicGas(msg.data, msg.accessList, PricingOf(msg, ctx));
      if gas.None? {
        return Failure(GasUintOverflow);
      }
      if gasRemaining < gas.value {
        return Failure(NotEnoughGas);
      }
      gasRemaining := gasRemaining - gas.value;
      if msg.value >= TWO_256 || (msg.value != 0 && !CanTransfer(state.world.balances, msg.from, msg.value)) {
        return Failure(InsufficientFundsForTransfer);
      }
      if ctx.rules.shanghai && msg.to.None? && |msg.data| > MAX_INIT_CODE_SIZE {
        return Failure(MaxInitCodeSizeExceeded);
      }
      o := Execute(evm, w, pool);
    }
  }
}
