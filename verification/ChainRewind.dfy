/** Rewinding headers and blocks together: each step of the header rewind gives the head block the verdict of
    the state-aware rewind, and a head block below the freezer's limit pulls the header rewind down to it. The
    snap block and the repair mode are not part of this model, and the states on disk do not change
    during the rewind. */
module ChainRewind {
  import opened Prelude
  import opened Headers
  import HC = HeaderChain
  import opened StateRewind

  /** The head block after the header head has moved to `p`; it moves only if `p` is not above it. */
  function BlockAfter(q: Request, genesis: Header, b: Header, p: Header): Header
    requires Rooted(p)
  {
    if p.number <= b.number then Verdict(q, p, q.root.None?, genesis) else b
  }

  /** The head block after the header head has moved from `h` down to number `n`. */
  function BlockHead(q: Request, genesis: Header, h: Header, b: Header, n: nat): Header
    requires Rooted(h)
    decreases h.number
  {
    if h.number <= n then b
    else
      var p := h.parentHash.header;
      BlockHead(q, genesis, p, BlockAfter(q, genesis, b, p), n)
  }

  /** The head block lies below the frozen blocks, and blocks will be imported in full from there. */
  predicate Wipes(q: Request, frozen: nat, b: Header) {
    b.number + 1 < frozen && (q.pivot.None? || b.number >= q.pivot.value)
  }

  /** The block-level verdict on a candidate header head, for a rewind that starts at `h` and `b`. */
  function Forced(q: Request, genesis: Header, frozen: nat, h: Header, b: Header): Header -> Option<Header>
    requires Rooted(h)
  {
    (p: Header) =>
      var block := BlockHead(q, genesis, h, b, p.number);
      if Wipes(q, frozen, block) then Some(block) else None
  }

  /** The head block stays on the ancestry of the header head. Once the header head has moved, the head block
      has usable state or is the genesis, unless it was below the header head all the time. */
  lemma {:induction false} BlockFollows(q: Request, db: set<Header>, genesis: Header, h: Header, b: Header, n: nat)
    requires Tree(db, genesis) && h in db && OnAncestry(h, b) && n <= h.number
    ensures var block := BlockHead(q, genesis, h, b, n);
            && OnAncestry(At(h, n), block)
            && (n < h.number ==> HasState(q, block) || block == genesis || (block == b && b.number < n))
    decreases h.number
  {
    if h.number == n {
    } else {
      var p := h.parentHash.header;
      VerdictUsable(q, db, genesis, p, q.root.None?);
      BlockFollows(q, db, genesis, p, BlockAfter(q, genesis, b, p), n);
    }
  }

  /** The verdict on an ancestor of `start` is an ancestor of that. */
  predicate PointsDownAt(start: Header, force: Header -> Option<Header>, p: Header) {
    OnAncestry(start, p) && force(p).Some? ==> OnAncestry(p, force(p).value)
  }

  ghost predicate PointsDown(start: Header, force: Header -> Option<Header>) {
    forall p: Header :: PointsDownAt(start, force, p)
  }

  /** A verdict that does not lower the target of a rewind further. */
  predicate Settled(force: Header -> Option<Header>, h: Header, headBlock: nat, headTime: nat) {
    force(h).Some? ==> !HC.Lowers(force(h).value, headBlock, headTime) || force(h).value == h
  }

  /** A rewind ends at the verdict on its own target if this lies below the requested number or time. */
  lemma {:induction false} EndsAtVerdict(start: Header, h: Header, headBlock: nat, headTime: nat, force: Header -> Option<Header>)
    requires OnAncestry(start, h) && PointsDown(start, force)
    requires h != start ==> Settled(force, h, headBlock, headTime)
    ensures var target := HC.RewindTarget(h, headBlock, headTime, force);
            target != start && force(target).Some? && (headTime == 0 || force(target).value.time < headTime) ==>
              force(target).value == target
    decreases h.number
  {
    assert PointsDownAt(start, force, h);
    if HC.Done(h, headBlock, headTime) || h.number == 0 {
    } else {
      var p := h.parentHash.header;
      AtParent(start, h.number);
      assert PointsDownAt(start, force, p);
      if force(p).Some? && HC.Lowers(force(p).value, headBlock, headTime) {
        EndsAtVerdict(start, p, force(p).value.number, 0, force);
      } else {
        EndsAtVerdict(start, p, headBlock, headTime, force);
      }
    }
  }

  /** The rewind was pulled down to `target` by the verdict on a header on its way. */
  ghost predicate Pulled(start: Header, force: Header -> Option<Header>, target: Header) {
    exists p: Header :: OnAncestry(start, p) && p != start && force(p) == Some(target)
  }

  /** The pull began at a verdict older than `time`. */
  ghost predicate PulledSince(start: Header, force: Header -> Option<Header>, time: nat, target: Header) {
    exists v: Header :: v.time < time && target.number <= v.number && Pulled(start, force, v)
  }

  /** A rewind by number lands on the requested number, unless a verdict pulls it lower. */
  lemma {:induction false} LandsOnNumber(start: Header, h: Header, headBlock: nat, force: Header -> Option<Header>)
    requires OnAncestry(start, h) && PointsDown(start, force) && headBlock <= h.number
    ensures var target := HC.RewindTarget(h, headBlock, 0, force);
            target == At(h, headBlock) || (target.number < headBlock && Pulled(start, force, target))
    decreases h.number
  {
    if h.number == headBlock {
    } else {
      var p := h.parentHash.header;
      AtParent(start, h.number);
      assert PointsDownAt(start, force, p);
      if force(p).Some? && force(p).value.number < headBlock {
        LandsOnNumber(start, p, force(p).value.number, force);
      } else {
        LandsOnNumber(start, p, headBlock, force);
      }
    }
  }

  /** `x` is the highest ancestor of `h` that is not younger than `time`. */
  ghost predicate HighestUpTo(h: Header, time: nat, x: Header) {
    OnAncestry(h, x) && x.time <= time && forall m: nat | x.number < m <= h.number :: At(h, m).time > time
  }

  lemma HighestAbove(h: Header, time: nat, x: Header)
    requires Rooted(h) && h.number > 0 && h.time > time && HighestUpTo(h.parentHash.header, time, x)
    ensures HighestUpTo(h, time, x)
  {
    var p := h.parentHash.header;
    forall m: nat | x.number < m <= h.number ensures At(h, m).time > time {
      if m < h.number {
        assert At(p, m).time > time;
      }
    }
  }

  lemma HighestBelow(h: Header, time: nat, x: Header)
    requires Rooted(h) && h.number > 0 && h.time > time && HighestUpTo(h, time, x)
    ensures HighestUpTo(h.parentHash.header, time, x)
  {
    var p := h.parentHash.header;
    forall m: nat | x.number < m <= p.number ensures At(p, m).time > time {
      assert At(h, m).time > time;
    }
  }

  /** `head` is not above any highest ancestor of `h` up to `time`. */
  ghost predicate NotAbove(h: Header, time: nat, head: Header) {
    forall x: Header | HighestUpTo(h, time, x) :: head.number <= x.number
  }

  lemma OlderNotAbove(h: Header, time: nat, v: Header, head: Header)
    requires OnAncestry(h, v) && v.time <= time && head.number <= v.number
    ensures NotAbove(h, time, head)
  {
    forall x: Header | HighestUpTo(h, time, x) ensures head.number <= x.number {
      assert At(h, v.number) == v;
    }
  }

  lemma NotAboveParent(h: Header, time: nat, head: Header)
    requires Rooted(h) && h.number > 0 && h.time > time && NotAbove(h.parentHash.header, time, head)
    ensures NotAbove(h, time, head)
  {
    forall x: Header | HighestUpTo(h, time, x) ensures head.number <= x.number {
      HighestBelow(h, time, x);
    }
  }

  /** A rewind by time lands on the highest ancestor that is not younger, unless a verdict pulls it lower. */
  lemma {:induction false} LandsOnTime(start: Header, h: Header, headBlock: nat, time: nat, force: Header -> Option<Header>)
    requires OnAncestry(start, h) && PointsDown(start, force) && time > 0 && At(h, 0).time <= time
    ensures var target := HC.RewindTarget(h, headBlock, time, force);
            && NotAbove(h, time, target)
            && (HighestUpTo(h, time, target) || (Pulled(start, force, target) && PulledSince(start, force, time, target)))
    decreases h.number
  {
    if h.time <= time {
      OlderNotAbove(h, time, h, h);
    } else {
      var p := h.parentHash.header;
      AtParent(start, h.number);
      assert PointsDownAt(start, force, p);
      if force(p).Some? && force(p).value.time < time {
        LandsOnNumber(start, p, force(p).value.number, force);
        assert Pulled(start, force, force(p).value);
        OlderNotAbove(h, time, force(p).value, HC.RewindTarget(h, headBlock, time, force));
      } else {
        LandsOnTime(start, p, headBlock, time, force);
        var target := HC.RewindTarget(p, headBlock, time, force);
        if HighestUpTo(p, time, target) {
          HighestAbove(h, time, target);
        }
        NotAboveParent(h, time, target);
      }
    }
  }

  lemma {:induction false} BlockBelow(q: Request, db: set<Header>, genesis: Header, h: Header, b: Header, p: Header)
    requires Tree(db, genesis) && h in db && OnAncestry(h, b) && OnAncestry(h, p)
    ensures OnAncestry(p, BlockHead(q, genesis, h, b, p.number))
  {
    BlockFollows(q, db, genesis, h, b, p.number);
  }

  lemma {:induction false} ForcedIs(q: Request, genesis: Header, frozen: nat, h: Header, b: Header, p: Header, block: Header)
    requires Rooted(h) && block == BlockHead(q, genesis, h, b, p.number) && OnAncestry(p, block)
    ensures PointsDownAt(h, Forced(q, genesis, frozen, h, b), p)
  {
  }

  lemma {:induction false} ForcedDown(q: Request, db: set<Header>, genesis: Header, frozen: nat, h: Header, b: Header,
                                      p: Header)
    requires Tree(db, genesis) && h in db && OnAncestry(h, b) && OnAncestry(h, p)
    ensures PointsDownAt(h, Forced(q, genesis, frozen, h, b), p)
  {
    BlockBelow(q, db, genesis, h, b, p);
    ForcedIs(q, genesis, frozen, h, b, p, BlockHead(q, genesis, h, b, p.number));
  }

  lemma ForcedPointsDown(q: Request, db: set<Header>, genesis: Header, frozen: nat, h: Header, b: Header)
    requires Tree(db, genesis) && h in db && OnAncestry(h, b)
    ensures PointsDown(h, Forced(q, genesis, frozen, h, b))
  {
    forall p: Header | OnAncestry(h, p) ensures PointsDownAt(h, Forced(q, genesis, frozen, h, b), p) {
      ForcedDown(q, db, genesis, frozen, h, b, p);
    }
  }

  /** When the final head block lies below the frozen blocks the headers go down to it, by time only if it is
      older than requested: nothing is left between the two. */
  lemma WipedMeets(q: Request, db: set<Header>, genesis: Header, frozen: nat, h: Header, b: Header, headBlock: nat,
                   headTime: nat)
    requires Tree(db, genesis) && h in db && OnAncestry(h, b)
    ensures var target := HC.RewindTarget(h, headBlock, headTime, Forced(q, genesis, frozen, h, b));
            var block := BlockHead(q, genesis, h, b, target.number);
            target != h && Wipes(q, frozen, block) && (headTime == 0 || block.time < headTime) ==> block == target
  {
    ForcedPointsDown(q, db, genesis, frozen, h, b);
    EndsAtVerdict(h, h, headBlock, headTime, Forced(q, genesis, frozen, h, b));
  }

  /** A header that a rewind was pulled down to lies below the frozen blocks, at or past the pivot, and its
      state is usable, unless it is the genesis or the old head block. */
  predicate PulledHere(q: Request, genesis: Header, frozen: nat, b: Header, head: Header) {
    && head.number + 1 < frozen && (q.pivot.Some? ==> head.number >= q.pivot.value)
    && (HasState(q, head) || head == genesis || head == b)
  }

  /** The pull began at such a header, at or above `head`, that is older than `time`. */
  ghost predicate PulledFrom(q: Request, genesis: Header, frozen: nat, h: Header, b: Header, time: nat, head: Header) {
    exists v: Header :: OnAncestry(h, v) && v.time < time && head.number <= v.number && PulledHere(q, genesis, frozen, b, v)
  }

  lemma PulledWipes(q: Request, db: set<Header>, genesis: Header, frozen: nat, h: Header, b: Header, target: Header)
    requires Tree(db, genesis) && h in db && OnAncestry(h, b) && Pulled(h, Forced(q, genesis, frozen, h, b), target)
    ensures OnAncestry(h, target) && PulledHere(q, genesis, frozen, b, target)
  {
    var p: Header :| OnAncestry(h, p) && p != h && Forced(q, genesis, frozen, h, b)(p) == Some(target);
    BlockFollows(q, db, genesis, h, b, p.number);
    AtAt(h, p.number, target.number);
  }

  lemma PulledSinceThen(q: Request, db: set<Header>, genesis: Header, frozen: nat, h: Header, b: Header, time: nat,
                        target: Header)
    requires Tree(db, genesis) && h in db && OnAncestry(h, b)
    requires PulledSince(h, Forced(q, genesis, frozen, h, b), time, target)
    ensures PulledFrom(q, genesis, frozen, h, b, time, target)
  {
    var v: Header :| v.time < time && target.number <= v.number && Pulled(h, Forced(q, genesis, frozen, h, b), v);
    PulledWipes(q, db, genesis, frozen, h, b, v);
  }

  /** Where a rewind of the header head `h` to a number, or to a time, lands. */
  ghost predicate Lands(q: Request, genesis: Header, frozen: nat, h: Header, b: Header, headBlock: nat, headTime: nat,
                        head: Header)
    requires Rooted(h)
  {
    && OnAncestry(h, head)
    && if headTime > 0 then
         && NotAbove(h, headTime, head)
         && (HighestUpTo(h, headTime, head) ||
             (PulledHere(q, genesis, frozen, b, head) && PulledFrom(q, genesis, frozen, h, b, headTime, head)))
       else if h.number <= headBlock then
         head == h
       else
         head == At(h, headBlock) || (head.number < headBlock && PulledHere(q, genesis, frozen, b, head))
  }

  lemma LandsBy(h: Header, headBlock: nat, headTime: nat, force: Header -> Option<Header>)
    requires Rooted(h) && PointsDown(h, force) && (headTime > 0 ==> At(h, 0).time <= headTime)
    ensures var target := HC.RewindTarget(h, headBlock, headTime, force);
            && OnAncestry(h, target)
            && if headTime > 0 then
                 && NotAbove(h, headTime, target)
                 && (HighestUpTo(h, headTime, target) || (Pulled(h, force, target) && PulledSince(h, force, headTime, target)))
               else if h.number <= headBlock then target == h
               else target == At(h, headBlock) || (target.number < headBlock && Pulled(h, force, target))
  {
    if headTime > 0 {
      LandsOnTime(h, h, headBlock, headTime, force);
    } else if headBlock < h.number {
      LandsOnNumber(h, h, headBlock, force);
    }
  }

  lemma RewindLands(q: Request, db: set<Header>, genesis: Header, frozen: nat, h: Header, b: Header, headBlock: nat,
                    headTime: nat)
    requires Tree(db, genesis) && h in db && OnAncestry(h, b) && (headTime > 0 ==> genesis.time <= headTime)
    ensures Lands(q, genesis, frozen, h, b, headBlock, headTime,
                  HC.RewindTarget(h, headBlock, headTime, Forced(q, genesis, frozen, h, b)))
  {
    var force := Forced(q, genesis, frozen, h, b);
    ForcedPointsDown(q, db, genesis, frozen, h, b);
    DescendsToGenesis(db, genesis, h);
    RootedDown(h, genesis);
    LandsBy(h, headBlock, headTime, force);
    var target := HC.RewindTarget(h, headBlock, headTime, force);
    if Pulled(h, force, target) {
      PulledWipes(q, db, genesis, frozen, h, b, target);
    }
    if PulledSince(h, force, headTime, target) {
      PulledSinceThen(q, db, genesis, frozen, h, b, headTime, target);
    }
  }

  /** What a joint rewind of the chain `s` with head block `b` leaves. */
  ghost predicate Joined(q: Request, genesis: Header, s: HC.ChainState, b: Header, after: HC.ChainState, block: Header) {
    && OnAncestry(after.head, block)
    && block in after.headers && Canonical(after.canon, block.number) == Of(block)
    && (after.head != s.head ==>
          HasState(q, block) || block == genesis || (block == b && b.number < after.head.number))
  }

  /** The head block after a joint rewind to `target`. */
  lemma JoinedRewind(q: Request, genesis: Header, s: HC.ChainState, b: Header, target: Header)
    requires HC.Consistent(s) && Tree(s.headers, genesis) && OnAncestry(s.head, b) && OnAncestry(s.head, target)
    ensures Joined(q, genesis, s, b, HC.Rewound(s, target), BlockHead(q, genesis, s.head, b, target.number))
  {
    var block := BlockHead(q, genesis, s.head, b, target.number);
    BlockFollows(q, s.headers, genesis, s.head, b, target.number);
    AtAt(s.head, target.number, block.number);
    ClosedRooted(s.headers, s.head);
  }

  // ---------------------------------------------------------------- without a root and a pivot

  /** No root is requested and no pivot is recorded. */
  predicate Plain(q: Request) {
    q.root.None? && q.pivot.None?
  }

  /** `u` is the topmost ancestor of `x` with usable state, or the genesis if there is none. */
  ghost predicate Topmost(q: Request, genesis: Header, x: Header, u: Header) {
    && OnAncestry(x, u) && (HasState(q, u) || u == genesis)
    && forall m: nat | u.number < m <= x.number :: !HasState(q, At(x, m))
  }

  lemma {:induction false} VerdictTopmost(q: Request, db: set<Header>, genesis: Header, x: Header)
    requires Plain(q) && Tree(db, genesis) && x in db && Rooted(x)
    ensures Topmost(q, genesis, x, Verdict(q, x, true, genesis))
    decreases x.number
  {
    VerdictUsable(q, db, genesis, x, true);
    if x.number == 0 || HasState(q, x) {
    } else {
      VerdictTopmost(q, db, genesis, x.parentHash.header);
    }
  }

  /** Below the verdict's start and above the verdict, the verdict is the same. */
  lemma {:induction false} VerdictSame(q: Request, x: Header, n: nat, genesis: Header)
    requires Plain(q) && Rooted(x) && n <= x.number && Verdict(q, x, true, genesis).number < n
    ensures Verdict(q, At(x, n), true, genesis) == Verdict(q, x, true, genesis)
    decreases x.number
  {
    if n == x.number {
    } else {
      VerdictSame(q, x.parentHash.header, n, genesis);
    }
  }

  /** A header at or above the verdict has the verdict at or above itself. */
  lemma {:induction false} VerdictNotBelow(q: Request, x: Header, n: nat, genesis: Header)
    requires Plain(q) && Rooted(x) && n <= x.number && (HasState(q, At(x, n)) || n == 0)
    ensures Verdict(q, x, true, genesis).number >= n
    decreases x.number
  {
    if n == x.number || HasState(q, x) {
    } else {
      VerdictNotBelow(q, x.parentHash.header, n, genesis);
    }
  }

  /** The head block once the header head has moved from `h` to number `n`. */
  function Expected(q: Request, genesis: Header, h: Header, b: Header, n: nat): Header
    requires Rooted(h) && n <= h.number
  {
    if n <= b.number then Verdict(q, At(h, n), true, genesis) else b
  }

  lemma {:induction false} BlockHeadIs(q: Request, db: set<Header>, genesis: Header, h: Header, b: Header, n: nat)
    requires Plain(q) && Tree(db, genesis) && h in db && OnAncestry(h, b) && n < h.number
    ensures BlockHead(q, genesis, h, b, n) == Expected(q, genesis, h, b, n)
    decreases h.number
  {
    var p := h.parentHash.header;
    assert At(h, p.number) == p;
    if p.number == n {
      assert BlockHead(q, genesis, p, BlockAfter(q, genesis, b, p), n) == BlockAfter(q, genesis, b, p);
    } else {
      VerdictUsable(q, db, genesis, p, true);
      BlockHeadIs(q, db, genesis, p, BlockAfter(q, genesis, b, p), n);
      if p.number <= b.number && Verdict(q, p, true, genesis).number < n {
        VerdictSame(q, p, n, genesis);
      }
    }
  }

  lemma ForcedAt(q: Request, db: set<Header>, genesis: Header, frozen: nat, h: Header, b: Header, p: Header)
    requires Plain(q) && Tree(db, genesis) && h in db && OnAncestry(h, b) && OnAncestry(h, p) && p.number < h.number
    ensures var block := Expected(q, genesis, h, b, p.number);
            Forced(q, genesis, frozen, h, b)(p) == if block.number + 1 < frozen then Some(block) else None
  {
    BlockHeadIs(q, db, genesis, h, b, p.number);
  }

  predicate StaysAbove(force: Header -> Option<Header>, k: nat, p: Header) {
    force(p).Some? ==> force(p).value.number >= k
  }

  /** Without a verdict below number `k`, a rewind to `k` lands on it. */
  lemma {:induction false} NotPulled(start: Header, h: Header, k: nat, force: Header -> Option<Header>)
    requires OnAncestry(start, h) && k <= h.number
    requires forall p: Header | OnAncestry(start, p) && k <= p.number < h.number :: StaysAbove(force, k, p)
    ensures HC.RewindTarget(h, k, 0, force) == At(h, k)
    decreases h.number
  {
    if k == h.number {
    } else {
      var p := h.parentHash.header;
      AtParent(start, h.number);
      assert StaysAbove(force, k, p);
      NotPulled(start, p, k, force);
    }
  }

  /** From a head block at or above a usable header, no verdict goes below that header. */
  lemma NothingBelow(q: Request, db: set<Header>, genesis: Header, frozen: nat, h: Header, b: Header, u: Header, p: Header)
    requires Plain(q) && Tree(db, genesis) && h in db && OnAncestry(h, b) && OnAncestry(h, u) && OnAncestry(h, p)
    requires u.number <= p.number < h.number && u.number <= b.number && (HasState(q, u) || u.number == 0)
    ensures StaysAbove(Forced(q, genesis, frozen, h, b), u.number, p)
  {
    ForcedAt(q, db, genesis, frozen, h, b, p);
    AtAt(h, p.number, u.number);
    VerdictNotBelow(q, p, u.number, genesis);
  }

  lemma StoredAt(db: set<Header>, h: Header, x: Header)
    requires ParentClosed(db) && h in db && OnAncestry(h, x)
    ensures x in db
  {
    ClosedRooted(db, h);
  }

  /** A rewind down to the verdict on an ancestor lands on it. */
  lemma LandsOnVerdict(q: Request, db: set<Header>, genesis: Header, frozen: nat, start: Header, b: Header, h: Header, x: Header)
    requires Plain(q) && Tree(db, genesis) && start in db && OnAncestry(start, b) && OnAncestry(start, h) && OnAncestry(h, x)
    requires x.number <= b.number
    ensures var u := Verdict(q, x, true, genesis);
            u.number <= x.number && HC.RewindTarget(h, u.number, 0, Forced(q, genesis, frozen, start, b)) == u
  {
    var u := Verdict(q, x, true, genesis);
    AtAt(start, h.number, x.number);
    StoredAt(db, start, x);
    VerdictUsable(q, db, genesis, x, true);
    AtAt(start, x.number, u.number);
    AtAt(h, x.number, u.number);
    forall y: Header | OnAncestry(start, y) && u.number <= y.number < h.number
      ensures StaysAbove(Forced(q, genesis, frozen, start, b), u.number, y)
    {
      NothingBelow(q, db, genesis, frozen, start, b, u, y);
    }
    NotPulled(start, h, u.number, Forced(q, genesis, frozen, start, b));
  }

  /** A head block that falls below the requested number stays the same down to that number. */
  lemma ExpectedBelow(q: Request, genesis: Header, start: Header, b: Header, p: Header, n: nat)
    requires Plain(q) && OnAncestry(start, p) && n <= b.number && n <= p.number
    ensures var v := Expected(q, genesis, start, b, p.number);
            v.number < n || p.number == n ==> v == Verdict(q, At(p, n), true, genesis)
  {
    if p.number <= b.number && Verdict(q, p, true, genesis).number < n {
      VerdictSame(q, p, n, genesis);
    }
  }

  /** One step of a rewind to a number, on to a header whose verdict is `v`. */
  lemma LandsAfterStep(h: Header, headBlock: nat, frozen: nat, force: Header -> Option<Header>, v: Header, u: Header)
    requires Rooted(h) && headBlock < h.number
    requires var p := h.parentHash.header;
             && force(p) == (if v.number + 1 < frozen then Some(v) else None)
             && (v.number < headBlock || p.number == headBlock ==> v == u)
             && if v.number + 1 < frozen && v.number < headBlock then HC.RewindTarget(p, u.number, 0, force) == u
                else HC.RewindTarget(p, headBlock, 0, force) ==
                     if u.number + 1 < frozen && u.number < headBlock then u else At(p, headBlock)
    ensures HC.RewindTarget(h, headBlock, 0, force) ==
            if u.number + 1 < frozen && u.number < headBlock then u else At(h, headBlock)
  {
  }

  /** The verdict on `p` is the expected head block, if that lies below the frozen blocks. */
  predicate ForcesAt(q: Request, genesis: Header, frozen: nat, start: Header, b: Header, force: Header -> Option<Header>, p: Header) {
    OnAncestry(start, p) && p.number < start.number ==>
      var block := Expected(q, genesis, start, b, p.number);
      force(p) == if block.number + 1 < frozen then Some(block) else None
  }

  predicate ReachesVerdict(q: Request, genesis: Header, start: Header, b: Header, force: Header -> Option<Header>, p: Header,
                           x: Header)
  {
    OnAncestry(start, p) && OnAncestry(p, x) && x.number <= b.number ==>
      var u := Verdict(q, x, true, genesis);
      HC.RewindTarget(p, u.number, 0, force) == u
  }

  lemma {:induction false} LandsFrom(q: Request, genesis: Header, frozen: nat, start: Header, b: Header, h: Header,
                                     headBlock: nat, force: Header -> Option<Header>)
    requires Plain(q) && OnAncestry(start, h) && headBlock <= b.number && headBlock < h.number
    requires forall p: Header :: ForcesAt(q, genesis, frozen, start, b, force, p)
    requires forall p: Header, x: Header :: ReachesVerdict(q, genesis, start, b, force, p, x)
    ensures var x := At(h, headBlock);
            var u := Verdict(q, x, true, genesis);
            HC.RewindTarget(h, headBlock, 0, force) == if u.number + 1 < frozen && u.number < headBlock then u else x
    decreases h.number
  {
    var p := h.parentHash.header;
    AtParent(start, h.number);
    var x := At(p, headBlock);
    ExpectedBelow(q, genesis, start, b, p, headBlock);
    assert ForcesAt(q, genesis, frozen, start, b, force, p) && ReachesVerdict(q, genesis, start, b, force, p, x);
    if p.number > headBlock {
      LandsFrom(q, genesis, frozen, start, b, p, headBlock, force);
    }
    LandsAfterStep(h, headBlock, frozen, force, Expected(q, genesis, start, b, p.number), Verdict(q, x, true, genesis));
  }

  /** Where a rewind to a number at or below the head block lands. */
  lemma LandsExactly(q: Request, db: set<Header>, genesis: Header, frozen: nat, start: Header, b: Header, h: Header,
                     headBlock: nat)
    requires Plain(q) && Tree(db, genesis) && start in db && OnAncestry(start, b) && OnAncestry(start, h)
    requires headBlock <= b.number && headBlock < h.number
    ensures var x := At(h, headBlock);
            var u := Verdict(q, x, true, genesis);
            HC.RewindTarget(h, headBlock, 0, Forced(q, genesis, frozen, start, b)) ==
              if u.number + 1 < frozen && u.number < headBlock then u else x
  {
    var force := Forced(q, genesis, frozen, start, b);
    forall p: Header ensures ForcesAt(q, genesis, frozen, start, b, force, p) {
      if OnAncestry(start, p) && p.number < start.number {
        ForcedAt(q, db, genesis, frozen, start, b, p);
      }
    }
    forall p: Header, x: Header ensures ReachesVerdict(q, genesis, start, b, force, p, x) {
      if OnAncestry(start, p) && OnAncestry(p, x) && x.number <= b.number {
        LandsOnVerdict(q, db, genesis, frozen, start, b, p, x);
      }
    }
    LandsFrom(q, genesis, frozen, start, b, h, headBlock, force);
  }

  /** The outcome of a rewind to a number below the header head, without a root and a pivot: the head
      block becomes the topmost usable one, and the header head goes to the requested number or, if the head
      block lies below the frozen blocks, down to it. A head block that was below the number anyway
      stays, unless it lies below the frozen blocks. */
  ghost predicate PlainOutcome(q: Request, genesis: Header, frozen: nat, h: Header, b: Header, headBlock: nat, head: Header,
                               block: Header)
    requires Rooted(h) && headBlock <= h.number
  {
    var x := At(h, headBlock);
    if headBlock <= b.number then
      Topmost(q, genesis, x, block) && head == if block.number + 1 < frozen then block else x
    else if b.number + 1 < frozen then
      Topmost(q, genesis, b, block) && head == block
    else
      block == b && head == x
  }

  lemma VerdictFixed(q: Request, genesis: Header, u: Header)
    requires Plain(q) && Rooted(u) && genesis.number == 0 && (HasState(q, u) || u == genesis)
    ensures Verdict(q, u, true, genesis) == u
  {
  }

  lemma OutcomeAbove(q: Request, genesis: Header, frozen: nat, h: Header, b: Header, headBlock: nat, u: Header, head: Header,
                     block: Header)
    requires Plain(q) && Rooted(h) && headBlock <= h.number && headBlock <= b.number && genesis.number == 0
    requires u == Verdict(q, At(h, headBlock), true, genesis) && Topmost(q, genesis, At(h, headBlock), u)
    requires head == if u.number + 1 < frozen && u.number < headBlock then u else At(h, headBlock)
    requires block == Expected(q, genesis, h, b, head.number)
    ensures PlainOutcome(q, genesis, frozen, h, b, headBlock, head, block)
  {
    AtAt(h, headBlock, u.number);
    VerdictFixed(q, genesis, u);
  }

  lemma PlainAboveTarget(q: Request, db: set<Header>, genesis: Header, frozen: nat, h: Header, b: Header, headBlock: nat,
                         head: Header)
    requires Plain(q) && Tree(db, genesis) && h in db && OnAncestry(h, b) && headBlock < h.number && headBlock <= b.number
    requires head == HC.RewindTarget(h, headBlock, 0, Forced(q, genesis, frozen, h, b))
    ensures PlainOutcome(q, genesis, frozen, h, b, headBlock, head, BlockHead(q, genesis, h, b, head.number))
  {
    var x := At(h, headBlock);
    StoredAt(db, h, x);
    VerdictTopmost(q, db, genesis, x);
    LandsExactly(q, db, genesis, frozen, h, b, h, headBlock);
    BlockHeadIs(q, db, genesis, h, b, head.number);
    OutcomeAbove(q, genesis, frozen, h, b, headBlock, Verdict(q, x, true, genesis), head, BlockHead(q, genesis, h, b, head.number));
  }

  lemma BlockTopmost(q: Request, db: set<Header>, genesis: Header, h: Header, b: Header)
    requires Plain(q) && Tree(db, genesis) && h in db && OnAncestry(h, b)
    ensures Topmost(q, genesis, b, Verdict(q, b, true, genesis))
  {
    StoredAt(db, h, b);
    VerdictTopmost(q, db, genesis, b);
  }

  lemma PulledByStep(h: Header, headBlock: nat, force: Header -> Option<Header>, b: Header, u: Header)
    requires Rooted(h) && b.number < headBlock < h.number && force(h.parentHash.header) == Some(b)
    requires HC.RewindTarget(h.parentHash.header, b.number, 0, force) == u
    ensures HC.RewindTarget(h, headBlock, 0, force) == u
  {
  }

  /** A rewind down to the head block, from just above the requested number, ends at the verdict on it. */
  lemma LandsBelowBlock(q: Request, db: set<Header>, genesis: Header, frozen: nat, h: Header, b: Header, p: Header)
    requires Plain(q) && Tree(db, genesis) && h in db && OnAncestry(h, b) && OnAncestry(h, p) && b.number < p.number
    requires b.number + 1 < frozen
    ensures HC.RewindTarget(p, b.number, 0, Forced(q, genesis, frozen, h, b)) == Verdict(q, b, true, genesis)
    ensures Topmost(q, genesis, b, Verdict(q, b, true, genesis))
  {
    AtAt(h, p.number, b.number);
    LandsExactly(q, db, genesis, frozen, h, b, p, b.number);
    BlockTopmost(q, db, genesis, h, b);
  }

  /** A head block below the frozen blocks pulls a rewind that aims above it down to its own verdict. */
  lemma PulledToBlock(q: Request, db: set<Header>, genesis: Header, frozen: nat, h: Header, b: Header, headBlock: nat)
    requires Plain(q) && Tree(db, genesis) && h in db && OnAncestry(h, b) && b.number < headBlock < h.number
    requires b.number + 1 < frozen
    ensures HC.RewindTarget(h, headBlock, 0, Forced(q, genesis, frozen, h, b)) == Verdict(q, b, true, genesis)
    ensures Topmost(q, genesis, b, Verdict(q, b, true, genesis))
  {
    var p := h.parentHash.header;
    AtParent(h, h.number);
    ForcedAt(q, db, genesis, frozen, h, b, p);
    LandsBelowBlock(q, db, genesis, frozen, h, b, p);
    PulledByStep(h, headBlock, Forced(q, genesis, frozen, h, b), b, Verdict(q, b, true, genesis));
  }

  lemma LeftAtTarget(q: Request, db: set<Header>, genesis: Header, frozen: nat, h: Header, b: Header, headBlock: nat)
    requires Plain(q) && Tree(db, genesis) && h in db && OnAncestry(h, b) && b.number < headBlock < h.number
    requires b.number + 1 >= frozen
    ensures HC.RewindTarget(h, headBlock, 0, Forced(q, genesis, frozen, h, b)) == At(h, headBlock)
  {
    var force := Forced(q, genesis, frozen, h, b);
    forall p: Header | OnAncestry(h, p) && headBlock <= p.number < h.number ensures StaysAbove(force, headBlock, p) {
      ForcedAt(q, db, genesis, frozen, h, b, p);
    }
    NotPulled(h, h, headBlock, force);
  }

  lemma OutcomeBelow(q: Request, genesis: Header, frozen: nat, h: Header, b: Header, headBlock: nat, head: Header)
    requires Plain(q) && OnAncestry(h, b) && b.number < headBlock <= h.number && genesis.number == 0
    requires if b.number + 1 < frozen then Topmost(q, genesis, b, head) else head == At(h, headBlock)
    ensures OnAncestry(h, head)
    ensures PlainOutcome(q, genesis, frozen, h, b, headBlock, head, Expected(q, genesis, h, b, head.number))
  {
    if b.number + 1 < frozen {
      AtAt(h, b.number, head.number);
      VerdictFixed(q, genesis, head);
    }
  }

  lemma PlainBelowTarget(q: Request, db: set<Header>, genesis: Header, frozen: nat, h: Header, b: Header, headBlock: nat,
                         head: Header)
    requires Plain(q) && Tree(db, genesis) && h in db && OnAncestry(h, b) && b.number < headBlock < h.number
    requires head == HC.RewindTarget(h, headBlock, 0, Forced(q, genesis, frozen, h, b))
    ensures PlainOutcome(q, genesis, frozen, h, b, headBlock, head, BlockHead(q, genesis, h, b, head.number))
  {
    if b.number + 1 < frozen {
      PulledToBlock(q, db, genesis, frozen, h, b, headBlock);
    } else {
      LeftAtTarget(q, db, genesis, frozen, h, b, headBlock);
    }
    OutcomeBelow(q, genesis, frozen, h, b, headBlock, head);
    BlockHeadIs(q, db, genesis, h, b, head.number);
  }

  lemma PlainLands(q: Request, db: set<Header>, genesis: Header, frozen: nat, h: Header, b: Header, headBlock: nat,
                   head: Header)
    requires Plain(q) && Tree(db, genesis) && h in db && OnAncestry(h, b) && headBlock < h.number
    requires head == HC.RewindTarget(h, headBlock, 0, Forced(q, genesis, frozen, h, b))
    ensures PlainOutcome(q, genesis, frozen, h, b, headBlock, head, BlockHead(q, genesis, h, b, head.number))
  {
    if headBlock <= b.number {
      PlainAboveTarget(q, db, genesis, frozen, h, b, headBlock, head);
    } else {
      PlainBelowTarget(q, db, genesis, frozen, h, b, headBlock, head);
    }
  }

  /** What is left of the chain `s` and its head block `b` after the header head has moved to `after.head`. */
  ghost predicate Cut(q: Request, genesis: Header, s: HC.ChainState, b: Header, after: HC.ChainState, block: Header) {
    if after.head == s.head then
      after == s && block == b
    else
      && (forall x: Header :: x in after.headers <==> x in s.headers && x.number <= after.head.number)
      && (Plain(q) ==> if after.head.number <= b.number then Topmost(q, genesis, after.head, block) else block == b)
  }

  lemma CutTo(q: Request, genesis: Header, s: HC.ChainState, b: Header, target: Header)
    requires HC.Consistent(s) && Tree(s.headers, genesis) && OnAncestry(s.head, b) && OnAncestry(s.head, target)
    ensures Cut(q, genesis, s, b, HC.Rewound(s, target), BlockHead(q, genesis, s.head, b, target.number))
  {
    if target != s.head && Plain(q) {
      BlockHeadIs(q, s.headers, genesis, s.head, b, target.number);
      StoredAt(s.headers, s.head, target);
      VerdictTopmost(q, s.headers, genesis, target);
    }
  }

  /** Where the header head `h` and the head block `b` go: the header head lands; a head block below the
      frozen blocks, by time only one older than requested, has the header head at itself; and without a
      root and a pivot the outcome is determined. */
  ghost predicate Landing(q: Request, genesis: Header, frozen: nat, h: Header, b: Header, headBlock: nat, headTime: nat,
                          head: Header, block: Header)
    requires Rooted(h)
  {
    && Lands(q, genesis, frozen, h, b, headBlock, headTime, head)
    && (head != h && Wipes(q, frozen, block) && (headTime == 0 || block.time < headTime) ==> block == head)
    && (Plain(q) && headTime == 0 && headBlock < h.number ==>
          PlainOutcome(q, genesis, frozen, h, b, headBlock, head, block))
  }

  lemma LandingAt(q: Request, db: set<Header>, genesis: Header, frozen: nat, h: Header, b: Header, headBlock: nat,
                  headTime: nat, head: Header)
    requires Tree(db, genesis) && h in db && OnAncestry(h, b) && (headTime > 0 ==> genesis.time <= headTime)
    requires head == HC.RewindTarget(h, headBlock, headTime, Forced(q, genesis, frozen, h, b))
    ensures Landing(q, genesis, frozen, h, b, headBlock, headTime, head, BlockHead(q, genesis, h, b, head.number))
  {
    RewindLands(q, db, genesis, frozen, h, b, headBlock, headTime);
    WipedMeets(q, db, genesis, frozen, h, b, headBlock, headTime);
    if Plain(q) && headTime == 0 && headBlock < h.number {
      PlainLands(q, db, genesis, frozen, h, b, headBlock, head);
    }
  }

  /** What a joint rewind from `s` and `b` promises of its outcome. */
  ghost predicate Rewinds(q: Request, genesis: Header, frozen: nat, s: HC.ChainState, b: Header, headBlock: nat, headTime: nat,
                          after: HC.ChainState, block: Header)
    requires Rooted(s.head)
  {
    && Joined(q, genesis, s, b, after, block)
    && Cut(q, genesis, s, b, after, block)
    && Landing(q, genesis, frozen, s.head, b, headBlock, headTime, after.head, block)
  }

  lemma RewindsTo(q: Request, genesis: Header, frozen: nat, s: HC.ChainState, b: Header, headBlock: nat, headTime: nat,
                  target: Header, block: Header)
    requires HC.Consistent(s) && Tree(s.headers, genesis) && OnAncestry(s.head, b)
    requires headTime > 0 ==> genesis.time <= headTime
    requires target == HC.RewindTarget(s.head, headBlock, headTime, Forced(q, genesis, frozen, s.head, b))
    requires block == BlockHead(q, genesis, s.head, b, target.number)
    ensures Rewinds(q, genesis, frozen, s, b, headBlock, headTime, HC.Rewound(s, target), block)
  {
    JoinedRewind(q, genesis, s, b, target);
    CutTo(q, genesis, s, b, target);
    LandingAt(q, s.headers, genesis, frozen, s.head, b, headBlock, headTime, target);
  }

  /** Rewinds headers and blocks to a number, or to a timestamp when `headTime` is positive. The header head
      lands on that number, or on the highest ancestor that is not younger, unless the frozen blocks pull
      it down to the head block; nothing stored is left above it. The head block is stored, canonical and
      not above the head header, with usable state unless it is the genesis or was below the header head
      anyway; without a root and a pivot it is the topmost usable one. */
  method SetHeadBeyondRoot(hc: HC.HeaderChain, b: Header, q: Request, frozen: nat, headBlock: nat, headTime: nat)
    returns (ok: bool, block: Header)
    requires hc.Valid() && Tree(hc.headers, hc.genesisHeader) && OnAncestry(hc.currentHeader, b)
    modifies hc
    ensures hc.Valid() && Tree(hc.headers, hc.genesisHeader)
    ensures !ok <==> headTime > 0 && hc.genesisHeader.time > headTime
    ensures !ok ==> hc.State() == old(hc.State()) && block == b
    ensures ok ==> Rewinds(q, hc.genesisHeader, frozen, old(hc.State()), b, headBlock, headTime, hc.State(), block)
  {
    var start := hc.currentHeader;
    if headTime == 0 || hc.genesisHeader.time <= headTime {
      ghost var target := HC.RewindTarget(start, headBlock, headTime, Forced(q, hc.genesisHeader, frozen, start, b));
      RewindsTo(q, hc.genesisHeader, frozen, hc.State(), b, headBlock, headTime, target,
                BlockHead(q, hc.genesisHeader, start, b, target.number));
    }
    ok := hc.SetHead(headBlock, headTime, Forced(q, hc.genesisHeader, frozen, start, b));
    block := BlockHead(q, hc.genesisHeader, start, b, hc.currentHeader.number);
  }
}
