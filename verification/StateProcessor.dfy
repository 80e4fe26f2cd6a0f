/** The transaction loop of a block: gas pool, cumulative gas, receipts, and the supply over a whole
    block. Rewards, withdrawals and system calls are not part of this model. */
module StateProcessor {
  import opened Prelude
  import opened Accounts
  import opened IntrinsicGas
  import opened Messages
  import opened StateTransition
  import GP = GasPool

  /** A transaction of a block with its recovered sender, None if the signature is bad. */
  datatype SignedTx = SignedTx(tx: Transaction, sender: Option<Address>)

  datatype Receipt = Receipt(gasUsed: nat, cumulativeGasUsed: nat, failed: bool, blobGasUsed: nat)

  /** Finalising a transaction may delete accounts, never mint ether. */
  ghost predicate Shrinks(fin: World -> World) {
    forall w: World :: Total(fin(w).balances) <= Total(w.balances)
  }

  type Finaliser = fin: World -> World | Shrinks(fin) witness w => w

  datatype Env = Env(ctx: Context, evms: nat -> Evm, finalise: Finaliser)

  function BaseFee(ctx: Context): Option<nat> {
    if ctx.rules.london then Some(ctx.baseFee) else None
  }

  /** The data of a transaction has a length. */
  predicate WellSized(t: SignedTx) {
    |t.tx.body.data| <= MAX_UINT64
  }

  function ToMessage(t: SignedTx, sender: Address, ctx: Context): (m: Message)
    requires WellSized(t)
    ensures Admissible(m, ctx)
  {
    TransactionsArePriced(t.tx, sender, ctx);
    TransactionToMessage(t.tx, sender, BaseFee(ctx))
  }

  // ---------------------------------------------------------------- one transaction

  /** A block run: the state, the gas left in the pool, the receipts so far. */
  datatype BlockRun = BlockRun(world: World, pool: nat, receipts: seq<Receipt>)

  function GasOf(receipts: seq<Receipt>): nat {
    if receipts == [] then 0 else GasOf(receipts[..|receipts| - 1]) + receipts[|receipts| - 1].gasUsed
  }

  /** The run after a transaction with result `r`; None if it was rejected or panicked. */
  function Recorded(run: BlockRun, r: Result, blobGas: nat, fin: Finaliser): Option<BlockRun> {
    if !r.Applied? then None
    else
      var receipt := Receipt(r.usedGas, GasOf(run.receipts) + r.usedGas, r.failed, blobGas);
      Some(BlockRun(fin(r.world), r.pool, run.receipts + [receipt]))
  }

  function BlobGasOf(t: SignedTx): nat {
    if t.tx.fees.Blob? then Wrap64(|t.tx.fees.blobHashes| * BLOB_GAS_PER_BLOB) else 0
  }

  function ApplyTx(run: BlockRun, t: SignedTx, index: nat, env: Env): Option<BlockRun>
    requires WellSized(t)
  {
    if t.sender.None? then None
    else
      var m := ToMessage(t, t.sender.value, env.ctx);
      Recorded(run, Transition(run.world, run.pool, m, env.ctx, env.evms(index)), BlobGasOf(t), env.finalise)
  }

  /** The ether a transaction burns when it uses `gasUsed`. */
  function BurnedBy(t: SignedTx, gasUsed: nat, ctx: Context): nat
    requires WellSized(t)
  {
    if t.sender.None? then 0 else Burned(ToMessage(t, t.sender.value, ctx), ctx, gasUsed)
  }

  /** The ether lost to an applied transaction beyond the burn: what its execution destroys, and what its
      finalisation deletes. */
  ghost function LostBy(run: BlockRun, t: SignedTx, index: nat, env: Env): nat
    requires WellSized(t)
  {
    if ApplyTx(run, t, index, env).None? then 0
    else
      var m, evm := ToMessage(t, t.sender.value, env.ctx), env.evms(index);
      var settled := Transition(run.world, run.pool, m, env.ctx, evm).world;
      AppliedPassed(run.world, run.pool, m, env.ctx, evm);
      Destroyed(run.world, m, env.ctx, evm) + (Total(settled.balances) - Total(env.finalise(settled).balances))
  }

  /** One applied transaction: its gas leaves the pool, its receipt carries the running total, and the
      supply falls by exactly what it burns and what is `lost`. */
  ghost predicate Extends(run: BlockRun, t: SignedTx, run': BlockRun, ctx: Context, lost: nat)
    requires WellSized(t)
  {
    && |run'.receipts| == |run.receipts| + 1
    && run'.receipts[..|run.receipts|] == run.receipts
    && var receipt := run'.receipts[|run.receipts|];
    && receipt.cumulativeGasUsed == GasOf(run.receipts) + receipt.gasUsed
    && run'.pool + receipt.gasUsed == run.pool
    && Total(run'.world.balances) + BurnedBy(t, receipt.gasUsed, ctx) + lost == Total(run.world.balances)
  }

  lemma ApplyExtends(run: BlockRun, t: SignedTx, index: nat, env: Env)
    requires WellSized(t) && ApplyTx(run, t, index, env).Some?
    ensures Extends(run, t, ApplyTx(run, t, index, env).value, env.ctx, LostBy(run, t, index, env))
  {
    var m := ToMessage(t, t.sender.value, env.ctx);
    Conservation(run.world, run.pool, m, env.ctx, env.evms(index));
    GasAccounting(run.world, run.pool, m, env.ctx, env.evms(index));
  }

  function BlobHashes(f: Fees): seq<Bytes32> {
    if f.Blob? then f.blobHashes else []
  }

  /** The price a transaction pays per unit of gas. */
  function PriceOf(f: Fees, ctx: Context): nat {
    if ctx.rules.london then Min(TipCap(f) + ctx.baseFee, FeeCap(f)) else FeeCap(f)
  }

  /** The fees of a transaction are in order under the rules and prices of the block. */
  predicate FeesAcceptable(f: Fees, to: Option<Address>, ctx: Context) {
    && (ctx.rules.london ==> ctx.baseFee <= FeeCap(f) < TWO_256 && TipCap(f) <= FeeCap(f))
    && (f.Blob? ==> to.Some? && f.blobHashes != [] && forall i | 0 <= i < |f.blobHashes| :: f.blobHashes[i][0] == 1)
    && (ctx.rules.cancun && f.Blob? && |f.blobHashes| * 131072 % TWO_64 > 0 ==> ctx.blobBaseFee <= f.blobFeeCap)
    && PriceOf(f, ctx) < TWO_256
  }

  /** The most a transaction may cost its sender. */
  function WorstCost(t: Transaction, ctx: Context): nat {
    t.body.gas * FeeCap(t.fees) + t.body.value
    + if ctx.rules.cancun && t.fees.Blob? then |t.fees.blobHashes| * 131072 % TWO_64 * t.fees.blobFeeCap else 0
  }

  /** What a transaction must meet to get into a block. */
  predicate Includable(w: World, pool: nat, t: SignedTx, ctx: Context)
    requires WellSized(t)
  {
    && t.sender.Some?
    && var sender, body, fees := t.sender.value, t.tx.body, t.tx.fees;
    && body.nonce == Nonce(w, sender) < MAX_UINT64 && sender !in w.contracts
    && FeesAcceptable(fees, body.to, ctx)
    && WorstCost(t.tx, ctx) < TWO_256 && WorstCost(t.tx, ctx) <= Balance(w.balances, sender)
    && body.gas <= pool
    && var charge := IntrinsicCost(body.data, if fees.Legacy? then [] else fees.list,
                                   Pricing(body.to.None?, ctx.rules.homestead, ctx.rules.istanbul, ctx.rules.shanghai));
    && charge.Some? && charge.value <= body.gas
    && !(ctx.rules.shanghai && body.to.None? && |body.data| > 49152)
  }

  lemma MessageBuys(w: World, pool: nat, t: SignedTx, ctx: Context)
    requires WellSized(t) && t.sender.Some?
    ensures var m := ToMessage(t, t.sender.value, ctx);
            && (NonceMatches(w, m) <==> t.tx.body.nonce == Nonce(w, m.from) < MAX_UINT64 && m.from !in w.contracts)
            && (FeesInOrder(m, ctx) && BlobsInOrder(m, ctx) && m.gasPrice < TWO_256 <==>
                FeesAcceptable(t.tx.fees, t.tx.body.to, ctx))
            && Most(m, ctx) == WorstCost(t.tx, ctx)
  {
  }

  /** A transaction gets into a block exactly if it is includable there. */
  lemma IncludedIff(run: BlockRun, t: SignedTx, index: nat, env: Env)
    requires WellSized(t)
    ensures ApplyTx(run, t, index, env).Some? <==> Includable(run.world, run.pool, t, env.ctx)
  {
    if t.sender.Some? {
      var m := ToMessage(t, t.sender.value, env.ctx);
      MessageBuys(run.world, run.pool, t, env.ctx);
      AppliedIff(run.world, run.pool, m, env.ctx, env.evms(index));
    }
  }

  /** A receipt reports the status and the gas of an execution, less the refund, and the gas of the blobs. */
  predicate Reports(receipt: Receipt, gas: nat, ex: ExecResult, blobs: nat, london: bool)
    requires ex.gasLeft <= gas
  {
    && receipt.failed == ex.failed
    && receipt.gasUsed == gas - ex.gasLeft - Min((gas - ex.gasLeft) / (if london then 5 else 2), ex.world.refund)
    && receipt.blobGasUsed == blobs * 131072 % TWO_64
  }

  lemma RecordReports(run: BlockRun, r: Result, t: SignedTx, gas: nat, ex: ExecResult, london: bool, fin: Finaliser)
    requires r.Applied? && ex.gasLeft <= gas && r.failed == ex.failed && r.usedGas + r.refunded == gas - ex.gasLeft
    requires r.refunded == Min((gas - ex.gasLeft) / (if london then 5 else 2), ex.world.refund)
    ensures var after := Recorded(run, r, BlobGasOf(t), fin);
            && after.Some? && |after.value.receipts| == |run.receipts| + 1
            && Reports(after.value.receipts[|run.receipts|], gas, ex, |BlobHashes(t.tx.fees)|, london)
  {
  }

  /** What the receipt of an included transaction reports. */
  lemma ReceiptReports(run: BlockRun, t: SignedTx, index: nat, env: Env)
    requires WellSized(t) && ApplyTx(run, t, index, env).Some?
    ensures var m, after := ToMessage(t, t.sender.value, env.ctx), ApplyTx(run, t, index, env);
            && PostCheck(m, env.ctx).None? && Prepaid(m, env.ctx) <= Balance(run.world.balances, m.from)
            && |after.value.receipts| == |run.receipts| + 1
            && var ex, receipt := Execution(run.world, m, env.ctx, env.evms(index)), after.value.receipts[|run.receipts|];
            Reports(receipt, t.tx.body.gas, ex, |BlobHashes(t.tx.fees)|, env.ctx.rules.london)
  {
    var m := ToMessage(t, t.sender.value, env.ctx);
    var r := Transition(run.world, run.pool, m, env.ctx, env.evms(index));
    GasAccounting(run.world, run.pool, m, env.ctx, env.evms(index));
    RecordReports(run, r, t, m.gasLimit, Execution(run.world, m, env.ctx, env.evms(index)), env.ctx.rules.london, env.finalise);
  }

  // ---------------------------------------------------------------- the whole block

  type TxStep = (BlockRun, SignedTx, nat) -> Option<BlockRun>
  type TxLoss = (BlockRun, SignedTx, nat) -> nat

  /** The step of a block as a function of the run. */
  function StepOf(env: Env): TxStep {
    (run: BlockRun, t: SignedTx, index: nat) => if WellSized(t) then ApplyTx(run, t, index, env) else None
  }

  ghost function LossOf(env: Env): TxLoss {
    (run: BlockRun, t: SignedTx, index: nat) => if WellSized(t) then LostBy(run, t, index, env) else 0
  }

  /** `step` does what `ApplyTx` says, here and everywhere. */
  ghost predicate Agrees(step: TxStep, env: Env, run: BlockRun, t: SignedTx, index: nat) {
    WellSized(t) ==> step(run, t, index) == ApplyTx(run, t, index, env)
  }

  ghost predicate Implements(step: TxStep, env: Env) {
    forall run: BlockRun, t: SignedTx, index: nat :: Agrees(step, env, run, t, index)
  }

  lemma StepImplements(env: Env)
    ensures Implements(StepOf(env), env)
  {
  }

  ghost predicate LawfulStep(step: TxStep, loss: TxLoss, ctx: Context) {
    forall run: BlockRun, t: SignedTx, index: nat | WellSized(t) && step(run, t, index).Some? ::
      Extends(run, t, step(run, t, index).value, ctx, loss(run, t, index))
  }

  lemma StepIsLawful(env: Env)
    ensures LawfulStep(StepOf(env), LossOf(env), env.ctx)
  {
    forall run: BlockRun, t: SignedTx, index: nat | WellSized(t) && StepOf(env)(run, t, index).Some?
      ensures Extends(run, t, StepOf(env)(run, t, index).value, env.ctx, LossOf(env)(run, t, index))
    {
      ApplyExtends(run, t, index, env);
    }
  }

  /** Applies the first `n` transactions; None if one of them is rejected. */
  function RunTxs(start: BlockRun, txs: seq<SignedTx>, n: nat, step: TxStep): Option<BlockRun>
    requires n <= |txs|
  {
    if n == 0 then Some(start)
    else
      var before := RunTxs(start, txs, n - 1, step);
      if before.None? then None else step(before.value, txs[n - 1], n - 1)
  }

  /** The transactions before the `i`-th all get in, and the `i`-th does not fit after them. */
  predicate StopsAt(start: BlockRun, txs: seq<SignedTx>, i: nat, step: TxStep, fits: (BlockRun, SignedTx) -> bool)
    requires i < |txs|
  {
    var before := RunTxs(start, txs, i, step);
    before.Some? && !fits(before.value, txs[i])
  }

  lemma {:induction false} StopsOnce(start: BlockRun, txs: seq<SignedTx>, n: nat, step: TxStep, fits: (BlockRun, SignedTx) -> bool)
    requires n <= |txs|
    requires forall run: BlockRun, i: nat | i < |txs| :: step(run, txs[i], i).Some? <==> fits(run, txs[i])
    ensures RunTxs(start, txs, n, step).None? <==> exists i: nat :: i < n && StopsAt(start, txs, i, step, fits)
  {
    if n == 0 {
    } else {
      StopsOnce(start, txs, n - 1, step, fits);
      assert RunTxs(start, txs, n - 1, step).Some? ==>
          (RunTxs(start, txs, n, step).None? <==> StopsAt(start, txs, n - 1, step, fits));
    }
  }

  /** Whether a transaction is includable at this point of a block. */
  function FitsUnder(ctx: Context): (BlockRun, SignedTx) -> bool {
    (run: BlockRun, t: SignedTx) => WellSized(t) && Includable(run.world, run.pool, t, ctx)
  }

  /** A block is refused exactly if one of its transactions is not includable after those before it. */
  lemma RefusedIff(start: BlockRun, txs: seq<SignedTx>, n: nat, env: Env)
    requires n <= |txs| && forall i | 0 <= i < |txs| :: WellSized(txs[i])
    ensures RunTxs(start, txs, n, StepOf(env)).None? <==>
            exists i: nat :: i < n && StopsAt(start, txs, i, StepOf(env), FitsUnder(env.ctx))
  {
    forall run: BlockRun, i: nat | i < |txs|
      ensures StepOf(env)(run, txs[i], i).Some? <==> FitsUnder(env.ctx)(run, txs[i])
    {
      IncludedIff(run, txs[i], i, env);
    }
    StopsOnce(start, txs, n, StepOf(env), FitsUnder(env.ctx));
  }

  function BurnedByAll(txs: seq<SignedTx>, receipts: seq<Receipt>, n: nat, ctx: Context): nat
    requires n <= |txs| && n <= |receipts| && forall i | 0 <= i < |txs| :: WellSized(txs[i])
  {
    if n == 0 then 0
    else BurnedByAll(txs, receipts, n - 1, ctx) + BurnedBy(txs[n - 1], receipts[n - 1].gasUsed, ctx)
  }

  /** What the first `n` transactions of a run lose beyond the burn. */
  ghost function LostByAll(start: BlockRun, txs: seq<SignedTx>, n: nat, step: TxStep, loss: TxLoss): nat
    requires n <= |txs|
  {
    if n == 0 then 0
    else
      var before := RunTxs(start, txs, n - 1, step);
      LostByAll(start, txs, n - 1, step, loss) + if before.None? then 0 else loss(before.value, txs[n - 1], n - 1)
  }

  lemma CumulativeStep(before: BlockRun, run: BlockRun, n: nat)
    requires n > 0 && |before.receipts| == n - 1 && |run.receipts| == n && run.receipts[..n - 1] == before.receipts
    requires run.receipts[n - 1].cumulativeGasUsed == GasOf(before.receipts) + run.receipts[n - 1].gasUsed
    requires forall i | 0 <= i < n - 1 :: before.receipts[i].cumulativeGasUsed == GasOf(before.receipts[..i + 1])
    ensures GasOf(run.receipts) == GasOf(before.receipts) + run.receipts[n - 1].gasUsed
    ensures forall i | 0 <= i < n :: run.receipts[i].cumulativeGasUsed == GasOf(run.receipts[..i + 1])
  {
    forall i | 0 <= i < n ensures run.receipts[i].cumulativeGasUsed == GasOf(run.receipts[..i + 1]) {
      if i < n - 1 {
        assert run.receipts[..i + 1] == before.receipts[..i + 1];
        assert run.receipts[i] == before.receipts[i];
      } else {
        assert run.receipts[..n] == run.receipts;
      }
    }
  }

  lemma {:induction false} BurnedPrefix(txs: seq<SignedTx>, a: seq<Receipt>, b: seq<Receipt>, n: nat, ctx: Context)
    requires n <= |txs| && n <= |a| && n <= |b| && (forall i | 0 <= i < n :: a[i] == b[i])
    requires forall i | 0 <= i < |txs| :: WellSized(txs[i])
    ensures BurnedByAll(txs, a, n, ctx) == BurnedByAll(txs, b, n, ctx)
  {
    if n == 0 {
    } else {
      BurnedPrefix(txs, a, b, n - 1, ctx);
    }
  }

  /** At every point of the loop the pool and the gas used add up to the block's gas limit, each
      receipt's cumulative gas is the sum over the receipts up to it, and the supply has fallen by exactly
      what was burned, destroyed and deleted: a block never mints. */
  lemma {:induction false} BlockAccounting(start: BlockRun, txs: seq<SignedTx>, n: nat, step: TxStep, loss: TxLoss, ctx: Context)
    requires n <= |txs| && (forall i | 0 <= i < |txs| :: WellSized(txs[i])) && LawfulStep(step, loss, ctx)
    requires start.receipts == [] && RunTxs(start, txs, n, step).Some?
    ensures var run := RunTxs(start, txs, n, step).value;
            && |run.receipts| == n
            && run.pool + GasOf(run.receipts) == start.pool
            && (forall i | 0 <= i < n :: run.receipts[i].cumulativeGasUsed == GasOf(run.receipts[..i + 1]))
            && Total(run.world.balances) + BurnedByAll(txs, run.receipts, n, ctx) + LostByAll(start, txs, n, step, loss)
               == Total(start.world.balances)
  {
    if n == 0 {
    } else {
      BlockAccounting(start, txs, n - 1, step, loss, ctx);
      var before, run := RunTxs(start, txs, n - 1, step).value, RunTxs(start, txs, n, step).value;
      assert Extends(before, txs[n - 1], run, ctx, loss(before, txs[n - 1], n - 1));
      CumulativeStep(before, run, n);
      BurnedPrefix(txs, before.receipts, run.receipts, n - 1, ctx);
    }
  }

  /** The accounting holds for the real step, whatever the EVM does. */
  lemma ProcessAccounting(w: World, gasLimit: nat, txs: seq<SignedTx>, env: Env)
    requires forall i | 0 <= i < |txs| :: WellSized(txs[i])
    ensures var start := BlockRun(w, gasLimit, []);
            var whole := RunTxs(start, txs, |txs|, StepOf(env));
            whole.Some? ==>
              var run := whole.value;
              && |run.receipts| == |txs|
              && run.pool + GasOf(run.receipts) == gasLimit
              && (forall i | 0 <= i < |txs| :: run.receipts[i].cumulativeGasUsed == GasOf(run.receipts[..i + 1]))
              && Total(run.world.balances) + BurnedByAll(txs, run.receipts, |txs|, env.ctx)
                 + LostByAll(start, txs, |txs|, StepOf(env), LossOf(env)) == Total(w.balances)
  {
    StepIsLawful(env);
    if RunTxs(BlockRun(w, gasLimit, []), txs, |txs|, StepOf(env)).Some? {
      BlockAccounting(BlockRun(w, gasLimit, []), txs, |txs|, StepOf(env), LossOf(env), env.ctx);
    }
  }

  lemma GasOfAppend(receipts: seq<Receipt>, r: Receipt)
    ensures GasOf(receipts + [r]) == GasOf(receipts) + r.gasUsed
  {
    assert (receipts + [r])[..|receipts|] == receipts;
  }

  lemma {:induction false} StaysRejected(start: BlockRun, txs: seq<SignedTx>, n: nat, step: TxStep)
    requires n <= |txs| && RunTxs(start, txs, n, step).None?
    ensures RunTxs(start, txs, |txs|, step).None?
    decreases |txs| - n
  {
    if n == |txs| {
    } else {
      StaysRejected(start, txs, n + 1, step);
    }
  }

  // ---------------------------------------------------------------- the loop on machine integers

  /** Runs a message on the state with a fresh transition. */
  method ApplyMessage(gp: GP.GasPool, state: StateDB, m: Message, ctx: Context, evm: Evm) returns (o: Outcome)
    requires gp.Valid() && Admissible(m, ctx) && Total(state.world.balances) < TWO_256
    modifies gp, state
    ensures AsResult(o, state.world, gp.gas) == Transition(old(state.world), old(gp.gas), m, ctx, evm)
    ensures gp.Valid()
  {
    var st := new StateTransition(gp, state, m, ctx);
    o := st.TransitionDb(evm);
  }

  /** A step records the result of the transition. */
  lemma StepRecords(run: BlockRun, t: SignedTx, index: nat, env: Env, step: TxStep, r: Result)
    requires WellSized(t) && t.sender.Some? && Implements(step, env)
    requires r == Transition(run.world, run.pool, ToMessage(t, t.sender.value, env.ctx), env.ctx, env.evms(index))
    ensures step(run, t, index) == Recorded(run, r, BlobGasOf(t), env.finalise)
    ensures r.Applied? ==> r.pool + r.usedGas == run.pool && Total(env.finalise(r.world).balances) <= Total(run.world.balances)
  {
    assert Agrees(step, env, run, t, index);
    if r.Applied? {
      ApplyExtends(run, t, index, env);
    }
  }

  method ExecuteTx(gp: GP.GasPool, state: StateDB, t: SignedTx, index: nat, env: Env, ghost step: TxStep, ghost run: BlockRun)
    returns (o: Outcome)
    requires WellSized(t) && t.sender.Some? && gp.Valid() && Total(state.world.balances) < TWO_256 && Implements(step, env)
    requires run.world == state.world && run.pool == gp.gas
    modifies gp, state
    ensures gp.Valid()
    ensures step(run, t, index) == Recorded(run, AsResult(o, state.world, gp.gas), BlobGasOf(t), env.finalise)
    ensures o.Success? ==> gp.gas + o.usedGas == old(gp.gas)
    ensures o.Success? ==> Total(env.finalise(state.world).balances) <= Total(old(state.world).balances)
  {
    var m := ToMessage(t, t.sender.value, env.ctx);
    o := ApplyMessage(gp, state, m, env.ctx, env.evms(index));
    StepRecords(run, t, index, env, step, AsResult(o, state.world, gp.gas));
  }

  method ApplyTransaction(gp: GP.GasPool, state: StateDB, t: SignedTx, index: nat, usedGas: nat, env: Env,
                          ghost step: TxStep, ghost run: BlockRun)
    returns (receipt: Option<Receipt>)
    requires WellSized(t) && gp.Valid() && Total(state.world.balances) < TWO_256 && Implements(step, env)
    requires run.world == state.world && run.pool == gp.gas && usedGas == GasOf(run.receipts)
    requires gp.gas + usedGas <= MAX_UINT64
    modifies gp, state
    ensures gp.Valid()
    ensures step(run, t, index) ==
            if receipt.None? then None else Some(BlockRun(state.world, gp.gas, run.receipts + [receipt.value]))
    ensures receipt.Some? ==>
              && receipt.value.cumulativeGasUsed == usedGas + receipt.value.gasUsed
              && gp.gas + receipt.value.gasUsed == old(gp.gas)
    ensures receipt.Some? ==> Total(state.world.balances) < TWO_256
  {
    if t.sender.None? {
      assert Agrees(step, env, run, t, index);
      return None;
    }
    var o := ExecuteTx(gp, state, t, index, env, step, run);
    if !o.Success? {
      return None;
    }
    state.world := env.finalise(state.world);
    var cumulative := Wrap64(usedGas + o.usedGas);
    return Some(Receipt(o.usedGas, cumulative, o.failed, BlobGasOf(t)));
  }

  method ProcessTxs(txs: seq<SignedTx>, gasLimit: Uint64, state: StateDB, env: Env, ghost step: TxStep)
    returns (ok: bool, receipts: seq<Receipt>, usedGas: nat, left: nat)
    requires forall i | 0 <= i < |txs| :: WellSized(txs[i])
    requires Total(state.world.balances) < TWO_256 && Implements(step, env)
    modifies state
    ensures var whole := RunTxs(BlockRun(old(state.world), gasLimit, []), txs, |txs|, step);
            && (ok <==> whole.Some?)
            && (ok ==> whole.value == BlockRun(state.world, left, receipts))
    ensures ok ==> usedGas == GasOf(receipts) && left + usedGas == gasLimit
    ensures !ok ==> receipts == [] && usedGas == 0
  {
    ghost var start := BlockRun(state.world, gasLimit, []);
    var gp := new GP.GasPool(gasLimit);
    receipts, usedGas := [], 0;
    for i := 0 to |txs|
      invariant gp.Valid() && fresh(gp)
      invariant RunTxs(start, txs, i, step) == Some(BlockRun(state.world, gp.gas, receipts))
      invariant usedGas == GasOf(receipts) && gp.gas + usedGas == gasLimit
      invariant Total(state.world.balances) < TWO_256
    {
      var receipt := ApplyTransaction(gp, state, txs[i], i, usedGas, env, step, BlockRun(state.world, gp.gas, receipts));
      if receipt.None? {
        StaysRejected(start, txs, i + 1, step);
        return false, [], 0, gp.gas;
      }
      usedGas := receipt.value.cumulativeGasUsed;
      GasOfAppend(receipts, receipt.value);
      receipts := receipts + [receipt.value];
    }
    return true, receipts, usedGas, gp.gas;
  }

  /** Processes the transactions of a block. The gas pool never panics and the cumulative gas never
      wraps: the result is that of the unbounded run. `ok` is false for an error or a panic. */
  method Process(txs: seq<SignedTx>, gasLimit: Uint64, state: StateDB, env: Env)
    returns (ok: bool, receipts: seq<Receipt>, usedGas: nat, left: nat)
    requires forall i | 0 <= i < |txs| :: WellSized(txs[i])
    requires Total(state.world.balances) < TWO_256
    modifies state
    ensures var whole := RunTxs(BlockRun(old(state.world), gasLimit, []), txs, |txs|, StepOf(env));
            && (ok <==> whole.Some?)
            && (ok ==> whole.value == BlockRun(state.world, left, receipts))
    ensures ok ==> usedGas == GasOf(receipts) && left + usedGas == gasLimit
    ensures !ok ==> receipts == [] && usedGas == 0
  {
    StepImplements(env);
    ok, receipts, usedGas, left := ProcessTxs(txs, gasLimit, state, env, StepOf(env));
  }
}
