/** The state-aware rewind of the head block: from a requested header back to a block whose state is
    usable and that lies at or past a requested state root. */
module StateRewind {
  import opened Prelude
  import opened Headers

  /** What the rewind consults: `root` is the root threshold (None when there is none), `available` the
      states on disk, `recoverable` those that can be rolled back to, `pivot` the last snap-sync pivot. */
  datatype Request = Request(
    root: Option<StateRoot>,
    available: set<StateRoot>,
    recoverable: set<StateRoot>,
    pivot: Option<nat>)

  /** Crash is the nil dereference after a missing parent while skipping blocks above the root. */
  datatype Outcome = NewHead(block: Header, rootNumber: nat) | Crash

  predicate HasState(q: Request, b: Header) {
    b.root in q.available || b.root in q.recoverable
  }

  /** A stateless block at or below the pivot cannot be rewound past. */
  predicate PassedPivot(q: Request, b: Header) {
    !HasState(q, b) && q.pivot.Some? && b.number <= q.pivot.value
  }

  /** `b` or a block between `start` and `b` carries the requested root. */
  predicate BeyondRoot(q: Request, start: Header, b: Header)
    requires Descends(start, b)
  {
    q.root.None? || start.root == q.root.value || (start != b && BeyondRoot(q, start.parentHash.header, b))
  }

  predicate Acceptable(q: Request, start: Header, b: Header)
    requires Descends(start, b)
  {
    HasState(q, b) && BeyondRoot(q, start, b)
  }

  /** The walk from `start` passes over `b`. */
  predicate Skipped(q: Request, start: Header, b: Header)
    requires Descends(start, b)
  {
    !Acceptable(q, start, b) && !PassedPivot(q, b)
  }

  /** Every block from `start` down to, not including, `b` is passed over. */
  ghost predicate SkipsDownTo(q: Request, start: Header, b: Header) {
    && Descends(start, b)
    && forall x: Header | Descends(start, x) && x.number > b.number :: Skipped(q, start, x)
  }

  /** The number of the topmost block from `start` down to `b` with the requested root, if any. */
  function RootNumber(q: Request, start: Header, b: Header, initial: nat): nat
    requires Descends(start, b)
  {
    if q.root.None? then initial
    else if start.root == q.root.value then start.number
    else if start == b then initial
    else RootNumber(q, start.parentHash.header, b, initial)
  }

  lemma {:induction false} BeyondRootStep(q: Request, start: Header, b: Header, initial: nat)
    requires Descends(start, b) && HasParent(b)
    ensures var p := b.parentHash.header;
            && Descends(start, p)
            && (BeyondRoot(q, start, p) <==> BeyondRoot(q, start, b) || q.root == Some(p.root))
            && RootNumber(q, start, p, initial) ==
               (if q.root.Some? && !BeyondRoot(q, start, b) && p.root == q.root.value then p.number
                else RootNumber(q, start, b, initial))
  {
    SegmentStep(start, b);
    if start == b {
    } else {
      BeyondRootStep(q, start.parentHash.header, b, initial);
    }
  }

  lemma SkipsStart(q: Request, start: Header)
    ensures SkipsDownTo(q, start, start)
  {
    forall x: Header | Descends(start, x) ensures x.number <= start.number {
      DescendsBelow(start, x);
    }
  }

  lemma SkipsStep(q: Request, start: Header, b: Header)
    requires SkipsDownTo(q, start, b) && Skipped(q, start, b) && HasParent(b)
    ensures SkipsDownTo(q, start, b.parentHash.header)
  {
    SegmentStep(start, b);
    forall x: Header | Descends(start, x) && x.number >= b.number ensures Skipped(q, start, x) {
      if x.number == b.number {
        DescendsUnique(start, x, b);
      }
    }
  }

  /** How the walk ends at the last block it examines. */
  ghost predicate Ends(q: Request, db: set<Header>, genesis: Header, start: Header, last: Header, rootNumber: nat, r: Outcome)
    requires Descends(start, last)
  {
    var number := RootNumber(q, start, last, rootNumber);
    var gap := Get(db, last.parentHash, Pred(last.number)).None?;
    if Acceptable(q, start, last) then r == NewHead(last, number)
    else if PassedPivot(q, last) then r == NewHead(genesis, number)
    else if !HasState(q, last) then gap && r == NewHead(genesis, number)
    else if last.number == 0 then r == NewHead(last, number)
    else gap && r == Crash
  }

  /** What the rewind promises: the first block on the way down that is acceptable, or the genesis when
      the walk runs into the pivot, into a gap below a stateless block, or out of blocks. */
  ghost predicate Correct(q: Request, db: set<Header>, genesis: Header, start: Header, rootNumber: nat, r: Outcome) {
    exists last: Header ::
      && SkipsDownTo(q, start, last)
      && Ends(q, db, genesis, start, last, rootNumber, r)
  }

  lemma {:induction false} StoredBelow(db: set<Header>, h: Header, b: Header)
    requires ParentClosed(db) && h in db && Descends(h, b)
    ensures b in db
  {
    if h == b {
    } else {
      StoredBelow(db, h.parentHash.header, b);
    }
  }

  /** Every block of a tree descends from the genesis. */
  lemma {:induction false} DescendsToGenesis(db: set<Header>, genesis: Header, h: Header)
    requires Tree(db, genesis) && h in db
    ensures Descends(h, genesis)
  {
    if h.number == 0 {
    } else {
      DescendsToGenesis(db, genesis, h.parentHash.header);
    }
  }

  /** On a tree the rewind never crashes, and its outcome is determined: the topmost acceptable block if
      the pivot is not passed above it, the genesis otherwise, with the root number found on the way: down
      to that block, to where the pivot was passed, or to the genesis when every block is passed over. */
  lemma RewindOnTree(q: Request, db: set<Header>, genesis: Header, start: Header, rootNumber: nat, r: Outcome)
    requires Tree(db, genesis) && start in db
    requires Correct(q, db, genesis, start, rootNumber, r)
    ensures r.NewHead?
    ensures r.block == genesis || (SkipsDownTo(q, start, r.block) && Acceptable(q, start, r.block))
    ensures forall b: Header | SkipsDownTo(q, start, b) && Acceptable(q, start, b) ::
              r == NewHead(b, RootNumber(q, start, b, rootNumber))
    ensures forall b: Header | SkipsDownTo(q, start, b) && PassedPivot(q, b) ::
              r == NewHead(genesis, RootNumber(q, start, b, rootNumber))
    ensures Descends(start, genesis)
    ensures SkipsDownTo(q, start, genesis) && Skipped(q, start, genesis) ==>
              r == NewHead(genesis, RootNumber(q, start, genesis, rootNumber))
  {
    var last: Header :| SkipsDownTo(q, start, last) && Ends(q, db, genesis, start, last, rootNumber, r);
    StoredBelow(db, start, last);
    DescendsToGenesis(db, genesis, start);
    forall b: Header | SkipsDownTo(q, start, b) && !Skipped(q, start, b) ensures b == last {
      StoredBelow(db, start, b);
      DescendsBelow(start, b);
      if b.number == last.number {
        DescendsUnique(start, b, last);
      }
    }
  }

  /** The block at which the walk ends on a tree; `beyond` says that the requested root was seen above `h`. */
  function Verdict(q: Request, h: Header, beyond: bool, genesis: Header): Header
    requires Rooted(h)
  {
    var passed := beyond || q.root == Some(h.root);
    if HasState(q, h) && (passed || h.number == 0) then h
    else if PassedPivot(q, h) || h.number == 0 then genesis
    else Verdict(q, h.parentHash.header, passed, genesis)
  }

  /** The verdict is an ancestor with usable state, or the genesis. */
  lemma {:induction false} VerdictUsable(q: Request, db: set<Header>, genesis: Header, h: Header, beyond: bool)
    requires Tree(db, genesis) && h in db && Rooted(h)
    ensures var v := Verdict(q, h, beyond, genesis);
            v.number <= h.number && At(h, v.number) == v && (HasState(q, v) || v == genesis)
  {
    DescendsToGenesis(db, genesis, h);
    RootedDown(h, genesis);
    if h.number == 0 {
    } else {
      VerdictUsable(q, db, genesis, h.parentHash.header, beyond || q.root == Some(h.root));
    }
  }

  /** The rewind loop. */
  method Rewind(q: Request, db: set<Header>, genesis: Header, start: Header, rootNumber: nat) returns (r: Outcome)
    requires AllNumbered(db) && genesis.number == 0
    ensures start !in db ==> r == NewHead(genesis, rootNumber)
    ensures start in db ==> Correct(q, db, genesis, start, rootNumber, r)
    ensures start in db && Tree(db, genesis) ==>
              Rooted(start) && r.NewHead? && r.block == Verdict(q, start, q.root.None?, genesis)
  {
    ghost var tree := Tree(db, genesis);
    if Get(db, Of(start), start.number).None? {
      return NewHead(genesis, rootNumber);
    }
    var block := start;
    var beyondRoot, number := q.root.None?, rootNumber;
    SkipsStart(q, start);
    if tree {
      ClosedRooted(db, start);
    }
    while true
      invariant block in db && SkipsDownTo(q, start, block)
      invariant tree ==> Rooted(block) && Rooted(start) &&
                         Verdict(q, block, beyondRoot, genesis) == Verdict(q, start, q.root.None?, genesis)
      invariant q.root.None? ==> beyondRoot
      invariant BeyondRoot(q, start, block) <==> beyondRoot || q.root == Some(block.root)
      invariant RootNumber(q, start, block, rootNumber) ==
                if !beyondRoot && q.root == Some(block.root) then block.number else number
      decreases block.number
    {
      if q.root.Some? && !beyondRoot && block.root == q.root.value {
        beyondRoot, number := true, block.number;
      }
      if block.root !in q.available && block.root !in q.recoverable {
        if q.pivot.None? || block.number > q.pivot.value {
          var parent := Get(db, block.parentHash, Pred(block.number));
          if parent.Some? {
            SkipsStep(q, start, block);
            BeyondRootStep(q, start, block, rootNumber);
            block := parent.value;
            continue;
          }
        }
        return NewHead(genesis, number);
      }
      if beyondRoot || block.number == 0 {
        return NewHead(block, number);
      }
      var parent := Get(db, block.parentHash, Pred(block.number));
      if parent.None? {
        return Crash;
      }
      SkipsStep(q, start, block);
      BeyondRootStep(q, start, block, rootNumber);
      block := parent.value;
    }
  }
}
