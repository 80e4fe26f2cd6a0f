/** The full block chain: reorganising the canonical index and the transaction index. */
module BlockChain {
  import opened Prelude
  import opened Headers
  import opened ForkChoice

  datatype ReorgError = HeadMissing | InvalidOldChain | InvalidNewChain | UnknownAncestor | StateUnavailable

  // ---------------------------------------------------------------- transaction index

  /** The lookup entries a block contributes. */
  function Entries(b: Header): map<TxHash, nat> {
    map tx | tx in b.txs :: b.number
  }

  /** The lookup index of the chain that ends in `h`: each of its transactions, mapped to the number of
      the (topmost) block that holds it. */
  function TxIndex(h: Header): map<TxHash, nat> {
    (if h.parentHash.Of? then TxIndex(h.parentHash.header) else map[]) + Entries(h)
  }

  /** The entries of a list of blocks given from the top down; a higher block wins. */
  function EntriesOf(bs: seq<Header>): map<TxHash, nat> {
    if bs == [] then map[] else EntriesOf(bs[1..]) + Entries(bs[0])
  }

  /** All transactions of a list of blocks, in order. */
  function Transactions(blocks: seq<Header>): seq<TxHash> {
    if blocks == [] then [] else blocks[0].txs + Transactions(blocks[1..])
  }

  /** No block of the chain repeats a transaction of a block below it. */
  predicate NoRepeats(h: Header) {
    h.parentHash.Of? ==>
      NoRepeats(h.parentHash.header) && forall tx | tx in h.txs :: tx !in TxIndex(h.parentHash.header)
  }

  /** The index means what it says: a transaction is indexed exactly when some block of the chain holds it,
      under the number of the topmost such block. */
  lemma {:induction false} TxIndexMeaning(h: Header, tx: TxHash)
    requires Rooted(h)
    ensures tx in TxIndex(h) <==> exists n: nat :: n <= h.number && tx in At(h, n).txs
    ensures tx in TxIndex(h) ==>
              var n := TxIndex(h)[tx];
              n <= h.number && tx in At(h, n).txs && forall m: nat | n < m <= h.number :: tx !in At(h, m).txs
  {
    if h.number == 0 {
      assert At(h, 0) == h;
    } else {
      var p := h.parentHash.header;
      TxIndexMeaning(p, tx);
      assert At(h, h.number) == h;
      forall n: nat | n <= p.number ensures At(h, n) == At(p, n) {}
      if tx in h.txs {
        assert tx in At(h, h.number).txs;
      } else if tx in TxIndex(p) {
        assert tx in At(h, TxIndex(p)[tx]).txs;
      } else {
        assert forall n: nat | n <= p.number :: tx !in At(p, n).txs;
      }
    }
  }

  lemma {:induction false} EntriesAre(bs: seq<Header>, tx: TxHash)
    ensures tx in EntriesOf(bs) <==> tx in Transactions(bs)
  {
    if bs == [] {
    } else {
      EntriesAre(bs[1..], tx);
    }
  }

  /** The blocks below the first. */
  function Tail(bs: seq<Header>): seq<Header> {
    if bs == [] then [] else bs[1..]
  }

  lemma OverlayAssoc(a: map<TxHash, nat>, b: map<TxHash, nat>, c: map<TxHash, nat>)
    ensures (a + b) + c == a + (b + c)
  {
  }

  lemma {:induction false} TxIndexSegment(h: Header, b: Header)
    requires Descends(h, b)
    ensures TxIndex(h) == TxIndex(b) + EntriesOf(Segment(h, b))
  {
    if h == b {
    } else {
      var p := h.parentHash.header;
      TxIndexSegment(p, b);
      assert Segment(h, b)[1..] == Segment(p, b);
      OverlayAssoc(TxIndex(b), EntriesOf(Segment(p, b)), Entries(h));
    }
  }

  /** The index of a chain, split at a block below its head. */
  lemma TxIndexSplit(h: Header, b: Header)
    requires Descends(h, b)
    ensures TxIndex(h) == TxIndex(b) + EntriesOf(Tail(Segment(h, b))) + Entries(h)
  {
    if h != b {
      TxIndexSegment(h, b);
      OverlayAssoc(TxIndex(b), EntriesOf(Tail(Segment(h, b))), Entries(h));
    } else {
      assert TxIndex(h) + map[] + Entries(h) == TxIndex(h);
    }
  }

  /** Without repeats, nothing above `b` is indexed at or below `b`. */
  lemma {:induction false} NoRepeatsBelow(h: Header, b: Header, tx: TxHash)
    requires Descends(h, b) && NoRepeats(h) && tx in EntriesOf(Segment(h, b))
    ensures tx !in TxIndex(b)
  {
    var p := h.parentHash.header;
    assert Segment(h, b)[1..] == Segment(p, b);
    TxIndexSegment(p, b);
    if tx in h.txs {
    } else {
      NoRepeatsBelow(p, b, tx);
    }
  }

  /** The lookup index after a reorg whose old and new segments are given and the write of the new
      head. `mid` is the new segment without its head. */
  function LookupAfter(lookup: map<TxHash, nat>, dropped: seq<Header>, mid: seq<Header>, newHead: Header): map<TxHash, nat> {
    (lookup + EntriesOf(mid)) - (EntriesOf(dropped).Keys - EntriesOf(mid).Keys) + Entries(newHead)
  }

  /** No dropped transaction is also held at or below the common block, unless the new chain holds it
      again above. */
  ghost predicate DropsAreGone(oldHead: Header, newHead: Header, c: Header)
    requires Descends(oldHead, c) && Descends(newHead, c)
  {
    forall tx | tx in EntriesOf(Segment(oldHead, c)) && tx in TxIndex(c) ::
      tx in EntriesOf(Tail(Segment(newHead, c))) || tx in newHead.txs
  }

  lemma RestoredIff(base: map<TxHash, nat>, dropped: map<TxHash, nat>, mid: map<TxHash, nat>, head: map<TxHash, nat>)
    ensures
      base + dropped + mid - (dropped.Keys - mid.Keys) + head == base + mid + head
      <==> forall tx | tx in dropped && tx in base :: tx in mid || tx in head
  {
    var after := base + dropped + mid - (dropped.Keys - mid.Keys) + head;
    if tx :| tx in dropped && tx in base && tx !in mid && tx !in head {
      assert tx in base + mid + head && tx !in after;
    } else {
      assert after == base + mid + head;
    }
  }

  /** If the lookup index was exact for the old chain, a reorg and the head write make it exact for the
      new chain if and only if no dropped transaction lived on below the common block. */
  lemma LookupExactIff(oldHead: Header, newHead: Header, c: Header)
    requires Descends(oldHead, c) && Descends(newHead, c)
    ensures
      LookupAfter(TxIndex(oldHead), Segment(oldHead, c), Tail(Segment(newHead, c)), newHead) == TxIndex(newHead)
      <==> DropsAreGone(oldHead, newHead, c)
  {
    TxIndexSegment(oldHead, c);
    TxIndexSplit(newHead, c);
    RestoredIff(TxIndex(c), EntriesOf(Segment(oldHead, c)), EntriesOf(Tail(Segment(newHead, c))), Entries(newHead));
  }

  /** Chains without repeated transactions meet that condition. */
  lemma NoRepeatsDrops(oldHead: Header, newHead: Header, c: Header)
    requires Descends(oldHead, c) && Descends(newHead, c) && NoRepeats(oldHead)
    ensures DropsAreGone(oldHead, newHead, c)
  {
    forall tx | tx in EntriesOf(Segment(oldHead, c)) ensures tx !in TxIndex(c) {
      NoRepeatsBelow(oldHead, c, tx);
    }
  }

  /** The case arises on a chain that repeats a transaction: blocks 1 and 2 both hold it, block 2 is
      replaced by an empty one, and the lookup entry is gone although block 1 is still canonical. */
  lemma RepeatedTxLost(g: Header, low: Header, top: Header, empty: Header, tx: TxHash)
    requires g == Header(Zero, 0, 1, 0, 0, []) && low == Header(Of(g), 1, 1, 0, 0, [tx])
    requires top == Header(Of(low), 2, 1, 0, 0, [tx]) && empty == Header(Of(low), 2, 2, 0, 0, [])
    ensures Descends(top, low) && Descends(empty, low)
    ensures tx in TxIndex(empty)
    ensures tx !in LookupAfter(TxIndex(top), Segment(top, low), Tail(Segment(empty, low)), empty)
  {
    assert tx in Entries(low) && tx in TxIndex(low);
    assert Segment(top, low) == [top] && Segment(empty, low) == [empty];
    assert tx in Entries(top) && tx in EntriesOf([top]);
  }

  /** The hashes of `a` that are not in `b`, in order. */
  method HashDifference(a: seq<TxHash>, b: seq<TxHash>) returns (keep: seq<TxHash>)
    ensures forall x :: x in keep <==> x in a && x !in b
  {
    keep := [];
    var remove := set x | x in b;
    for i := 0 to |a|
      invariant forall x :: x in keep <==> x in a[..i] && x !in b
    {
      if a[i] !in remove {
        keep := keep + [a[i]];
      }
    }
  }

  lemma {:induction false} TransactionsAppend(bs: seq<Header>, b: Header)
    ensures Transactions(bs + [b]) == Transactions(bs) + b.txs
  {
    if bs == [] {
    } else {
      assert (bs + [b])[1..] == bs[1..] + [b];
      TransactionsAppend(bs[1..], b);
    }
  }

  // ---------------------------------------------------------------- canonical index

  /** The canonical index after the markers of `bs`, given from the top down, have been written. */
  function Overlay(canon: map<nat, Hash>, bs: seq<Header>): map<nat, Hash> {
    if bs == [] then canon else Overlay(canon, bs[1..])[bs[0].number := Of(bs[0])]
  }

  function CutAbove(canon: map<nat, Hash>, top: nat): map<nat, Hash> {
    map n | n in canon && n <= top :: canon[n]
  }

  lemma {:induction false} OverlaySegment(canon: map<nat, Hash>, h: Header, b: Header)
    requires Rooted(h) && Descends(h, b)
    ensures forall n: nat :: n in Overlay(canon, Segment(h, b)) <==> n in canon || b.number < n <= h.number
    ensures forall n: nat | n in Overlay(canon, Segment(h, b)) ::
              Overlay(canon, Segment(h, b))[n] == if b.number < n <= h.number then Of(At(h, n)) else canon[n]
  {
    if h == b {
    } else {
      assert Segment(h, b)[1..] == Segment(h.parentHash.header, b);
      OverlaySegment(canon, h.parentHash.header, b);
      DescendsBelow(h.parentHash.header, b);
    }
  }

  lemma CanonicalBelow(a: Header, b: Header, n: nat, m: nat)
    requires Rooted(a) && Rooted(b) && m <= n <= a.number && n <= b.number && At(a, n) == At(b, n)
    ensures At(a, m) == At(b, m)
  {
    AtAt(a, n, m);
    AtAt(b, n, m);
  }

  lemma OverlayMarker(oldHead: Header, p: Header, c: Header, n: nat)
    requires Rooted(oldHead) && Rooted(p) && Descends(p, c) && n <= p.number
    requires c.number <= oldHead.number && c == At(oldHead, c.number)
    ensures n in Overlay(Ancestry(oldHead), Segment(p, c))
    ensures Overlay(Ancestry(oldHead), Segment(p, c))[n] == Of(At(p, n))
  {
    OverlaySegment(Ancestry(oldHead), p, c);
    if n <= c.number {
      DescendsRooted(p, c);
      CanonicalBelow(oldHead, p, c.number, n);
    }
  }

  /** `p` lies on the new chain, at or above the common block. */
  lemma OverlayCut(oldHead: Header, p: Header, c: Header)
    requires Rooted(oldHead) && Rooted(p) && Descends(p, c)
    requires c.number <= oldHead.number && c == At(oldHead, c.number)
    ensures CutAbove(Overlay(Ancestry(oldHead), Segment(p, c)), p.number) == Ancestry(p)
  {
    var cut := CutAbove(Overlay(Ancestry(oldHead), Segment(p, c)), p.number);
    forall n: nat | n <= p.number ensures n in cut && cut[n] == Of(At(p, n)) {
      OverlayMarker(oldHead, p, c, n);
    }
    AncestryIs(cut, p);
  }

  /** The index before the cut has no gap and no empty marker. */
  lemma OverlayGapFree(oldHead: Header, p: Header, c: Header)
    requires Rooted(oldHead) && Rooted(p) && Descends(p, c) && c.number <= oldHead.number
    ensures var written := Overlay(Ancestry(oldHead), Segment(p, c));
            && (forall n: nat :: n in written <==> n <= Max(oldHead.number, p.number))
            && (forall n: nat | n in written :: written[n].Of?)
  {
    OverlaySegment(Ancestry(oldHead), p, c);
    DescendsBelow(p, c);
  }

  /** The last block a reorg writes itself: the parent of the new head, or the common block when the
      new head is on the old chain. */
  function LastWritten(newHead: Header, c: Header): Header
    requires Descends(newHead, c)
  {
    if newHead == c then c else newHead.parentHash.header
  }

  lemma CommonRooted(oldHead: Header, newHead: Header, c: Header)
    requires Rooted(oldHead) && Descends(oldHead, c) && Descends(newHead, c)
    ensures c.number <= oldHead.number && c == At(oldHead, c.number) && Rooted(c) && Rooted(newHead)
  {
    RootedDown(oldHead, c);
    DescendsRooted(newHead, c);
  }

  lemma LastWrittenProps(oldHead: Header, newHead: Header, c: Header)
    requires Rooted(oldHead) && Descends(oldHead, c) && Descends(newHead, c)
    ensures var p := LastWritten(newHead, c);
            && Rooted(newHead) && Rooted(p) && Descends(p, c) && Tail(Segment(newHead, c)) == Segment(p, c)
            && c.number <= oldHead.number && c == At(oldHead, c.number)
            && p.number == c.number + |Segment(p, c)|
            && Ancestry(p)[newHead.number := Of(newHead)] == Ancestry(newHead)
  {
    CommonRooted(oldHead, newHead, c);
    if newHead != c {
      AncestryExtend(newHead);
    }
  }

  lemma ExtendedAt(canon: map<nat, Hash>, head: Header, b: Header, n: nat)
    requires Rooted(b) && b.parentHash == Of(head)
    requires CutAbove(canon, head.number) == Ancestry(head) && n <= b.number
    ensures n in Ancestry(b) && n in canon[b.number := Of(b)] && canon[b.number := Of(b)][n] == Ancestry(b)[n]
  {
    AncestryExtend(b);
    if n <= head.number {
      assert n in Ancestry(head);
      assert n in CutAbove(canon, head.number);
    }
  }

  /** Writing a child of the head on top of the index without a reorg leaves the child's ancestry
      exactly when no marker stood above the child; the extend path deletes none. */
  lemma ExtendExactIff(canon: map<nat, Hash>, head: Header, b: Header)
    requires Rooted(b) && b.parentHash == Of(head)
    requires CutAbove(canon, head.number) == Ancestry(head)
    ensures canon[b.number := Of(b)] == Ancestry(b) <==> forall n | n in canon :: n <= b.number
  {
    var after := canon[b.number := Of(b)];
    if n :| n in canon && n > b.number {
      assert n in after && n !in Ancestry(b);
    } else {
      forall n: nat | n <= b.number ensures n in Ancestry(b) && n in after && after[n] == Ancestry(b)[n] {
        ExtendedAt(canon, head, b, n);
      }
      assert after == Ancestry(b);
    }
  }

  /** The case arises when the index holds a marker above the new head, as an interrupted rewind could
      leave it. */
  lemma {:induction false} StrayMarkerSurvives(g: Header, b: Header, stray: Header)
    requires g.number == 0 && !g.parentHash.Of? && b.parentHash == Of(g) && b.number == 1 && stray.number == 2
    ensures var canon: map<nat, Hash> := map[0 := Of(g), 2 := Of(stray)];
            CutAbove(canon, 0) == Ancestry(g) && canon[1 := Of(b)] != Ancestry(b)
  {
    var canon: map<nat, Hash> := map[0 := Of(g), 2 := Of(stray)];
    AncestryIs(CutAbove(canon, 0), g);
    assert 2 in canon[1 := Of(b)] && 2 !in Ancestry(b);
  }

  // ---------------------------------------------------------------- whole runs

  datatype ChainView = ChainView(
    blocks: set<Header>, td: map<Hash, nat>, canon: map<nat, Hash>, lookup: map<TxHash, nat>, head: Header)

  /** Both indexes are exact for the head, and so is the difficulty table. */
  ghost predicate Indexed(v: ChainView) {
    && AllNumbered(v.blocks)
    && v.td == TdTable(v.blocks)
    && v.head in v.blocks
    && Rooted(v.head)
    && v.canon == Ancestry(v.head)
    && v.lookup == TxIndex(v.head)
  }

  /** What importing one executed block does, whatever the flags and the coin. */
  ghost predicate BlockStep(v: ChainView, v': ChainView, b: Header, terminalTd: Option<nat>) {
    && Numbered(b)
    && v'.blocks == v.blocks + {b}
    && v'.td == TdTable(v'.blocks)
    && (MustFollow(b, v.head, terminalTd) ==> v'.head == b)
    && (|| (v'.head == v.head && v'.canon == v.canon && v'.lookup == v.lookup)
        || (&& v'.head == b && Rooted(b) && v'.canon == Ancestry(b)
            && (v.lookup == TxIndex(v.head) && NoRepeats(v.head) ==> v'.lookup == TxIndex(b))
            && (MayFinalise(b, terminalTd) || NotWorse(b, v.head))))
  }

  /** Over any run of block imports both indexes stay exact and the head's rank never falls. */
  lemma {:induction false} ImportBlocksRun(views: seq<ChainView>, bs: seq<Header>)
    requires |views| == |bs| + 1
    requires Indexed(views[0]) && NoRepeats(views[0].head)
    requires forall b | b in bs :: NoRepeats(b)
    requires forall i | 0 <= i < |bs| :: BlockStep(views[i], views[i + 1], bs[i], None)
    ensures Indexed(views[|bs|]) && NoRepeats(views[|bs|].head)
    ensures NotWorse(views[|bs|].head, views[0].head)
    decreases |bs|
  {
    if bs == [] {
    } else {
      var k := |bs| - 1;
      var before := views[..k + 1];
      ImportBlocksRun(before, bs[..k]);
      assert before[k] == views[k] && before[0] == views[0];
      assert BlockStep(views[k], views[k + 1], bs[k], None);
    }
  }

  /** What forcing a stored block as the head does, to a descendant, an ancestor or across forks. */
  ghost predicate ForceStep(v: ChainView, v': ChainView, b: Header) {
    && b in v.blocks && v'.blocks == v.blocks && v'.td == v.td
    && v'.head == b && Rooted(b) && v'.canon == Ancestry(b)
    && (v.lookup == TxIndex(v.head) && NoRepeats(v.head) ==> v'.lookup == TxIndex(b))
  }

  datatype Operation = Import(block: Header, terminalTd: Option<nat>) | Force(head: Header)

  ghost predicate Performs(v: ChainView, op: Operation, v': ChainView) {
    match op
    case Import(block, terminalTd) => BlockStep(v, v', block, terminalTd)
    case Force(head) => ForceStep(v, v', head)
  }

  function BlockOf(op: Operation): Header {
    match op
    case Import(block, _) => block
    case Force(head) => head
  }

  /** Over any run of imports and forced heads, in any order and also past the terminal difficulty, both
      indexes stay exact for the head. */
  lemma {:induction false} ChainRun(views: seq<ChainView>, ops: seq<Operation>)
    requires |views| == |ops| + 1
    requires Indexed(views[0]) && NoRepeats(views[0].head)
    requires forall i | 0 <= i < |ops| :: NoRepeats(BlockOf(ops[i]))
    requires forall i | 0 <= i < |ops| :: Performs(views[i], ops[i], views[i + 1])
    ensures Indexed(views[|ops|]) && NoRepeats(views[|ops|].head)
    decreases |ops|
  {
    if ops == [] {
    } else {
      var k := |ops| - 1;
      var before := views[..k + 1];
      ChainRun(before, ops[..k]);
      assert before[k] == views[k];
      assert Performs(views[k], ops[k], views[k + 1]) && NoRepeats(BlockOf(ops[k]));
    }
  }

  class BlockChain {
    var blocks: set<Header>
    var td: map<Hash, nat>
    var canon: map<nat, Hash>
    var lookup: map<TxHash, nat>
    var headHeaderHash: Hash
    var headFastBlockHash: Hash
    var headBlockHash: Hash
    var currentHeader: Header
    var currentSnapBlock: Header
    var currentBlock: Header
    const genesisBlock: Header

    function GetBlock(hash: Hash, number: nat): Option<Header>
      reads this
    {
      Get(blocks, hash, number)
    }

    /** Every head marker, on disk and in memory, names `b`. */
    ghost predicate MarkersAt(b: Header)
      reads this
    {
      && currentBlock == b && currentHeader == b && currentSnapBlock == b
      && headBlockHash == Of(b) && headHeaderHash == Of(b) && headFastBlockHash == Of(b)
    }

    /** The head block is stored, and the canonical index is exactly its ancestry. */
    ghost predicate Valid()
      reads this
    {
      && AllNumbered(blocks)
      && td == TdTable(blocks)
      && currentBlock in blocks
      && Rooted(currentBlock)
      && canon == Ancestry(currentBlock)
      && MarkersAt(currentBlock)
    }

    ghost predicate LookupExact()
      reads this
    {
      lookup == TxIndex(currentBlock)
    }

    ghost function View(): ChainView
      reads this
    {
      ChainView(blocks, td, canon, lookup, currentBlock)
    }

    constructor (genesis: Header)
      requires genesis.number == 0 && !genesis.parentHash.Of?
      ensures Valid() && LookupExact() && Tree(blocks, genesis)
      ensures genesisBlock == genesis && currentBlock == genesis
    {
      blocks := {genesis};
      td := map[Of(genesis) := genesis.difficulty];
      canon := map[0 := Of(genesis)];
      lookup := Entries(genesis);
      headHeaderHash, headFastBlockHash, headBlockHash := Of(genesis), Of(genesis), Of(genesis);
      currentHeader, currentSnapBlock, currentBlock := genesis, genesis, genesis;
      genesisBlock := genesis;
      new;
      assert map[] + Entries(genesis) == Entries(genesis);
    }

    /** Makes a block the head: its marker, its lookup entries, and every head marker. */
    method WriteHeadBlock(b: Header)
      modifies this`canon, this`lookup, this`headHeaderHash, this`headFastBlockHash, this`headBlockHash,
               this`currentHeader, this`currentSnapBlock, this`currentBlock
      ensures canon == old(canon)[b.number := Of(b)]
      ensures lookup == old(lookup) + Entries(b)
      ensures MarkersAt(b)
    {
      headHeaderHash := Of(b);
      headFastBlockHash := Of(b);
      canon := canon[b.number := Of(b)];
      lookup := lookup + Entries(b);
      headBlockHash := Of(b);
      currentHeader := b;
      currentSnapBlock := b;
      currentBlock := b;
    }

    /** The markers above `number`, up to the first gap in the live index. */
    method MarkersAbove(number: nat, ghost top: nat) returns (stale: set<nat>)
      requires forall n: nat :: n in canon <==> n <= top
      requires forall n: nat | n in canon :: canon[n] != Zero
      ensures forall n: nat :: n in stale <==> n in canon && n > number
    {
      stale := {};
      var i := number + 1;
      while Canonical(canon, i) != Zero
        invariant i > number && (i <= top + 1 || i == number + 1)
        invariant forall n: nat :: n in stale <==> number < n < i
        decreases top + 1 - i
      {
        stale := stale + {i};
        i := i + 1;
      }
    }

    /** Deletes the lookups that the new chain does not hold, and all markers above `number`. */
    method PruneIndexes(ghost oldChain: seq<Header>, ghost newChain: seq<Header>, number: nat,
                        deletedTxs: seq<TxHash>, addedTxs: seq<TxHash>, ghost top: nat)
      requires forall n: nat :: n in canon <==> n <= top
      requires forall n: nat | n in canon :: canon[n] != Zero
      requires deletedTxs == Transactions(oldChain)
      requires forall tx :: tx in addedTxs <==> tx in EntriesOf(Tail(newChain))
      modifies this`canon, this`lookup
      ensures canon == CutAbove(old(canon), number)
      ensures lookup == old(lookup) - (EntriesOf(oldChain).Keys - EntriesOf(Tail(newChain)).Keys)
    {
      var diffs := HashDifference(deletedTxs, addedTxs);
      forall tx ensures tx in EntriesOf(oldChain) <==> tx in deletedTxs { EntriesAre(oldChain, tx); }
      var dead := set tx | tx in diffs;
      assert dead == EntriesOf(oldChain).Keys - EntriesOf(Tail(newChain)).Keys;
      var stale := MarkersAbove(number, top);
      assert canon - stale == CutAbove(canon, number);
      lookup := lookup - dead;
      canon := canon - stale;
    }

    /** Writes the blocks of a segment below its head, lowest first. */
    method WriteSegment(newChain: seq<Header>) returns (addedTxs: seq<TxHash>)
      modifies this`canon, this`lookup, this`headHeaderHash, this`headFastBlockHash, this`headBlockHash,
               this`currentHeader, this`currentSnapBlock, this`currentBlock
      ensures canon == Overlay(old(canon), Tail(newChain))
      ensures lookup == old(lookup) + EntriesOf(Tail(newChain))
      ensures forall tx :: tx in addedTxs <==> tx in EntriesOf(Tail(newChain))
    {
      addedTxs := [];
      var i := |newChain|;
      ghost var written := [];
      while i > 1
        invariant 0 <= i <= |newChain|
        invariant written == newChain[i..]
        invariant i == 0 ==> newChain == []
        invariant canon == Overlay(old(canon), written)
        invariant lookup == old(lookup) + EntriesOf(written)
        invariant forall tx :: tx in addedTxs <==> tx in EntriesOf(written)
      {
        i := i - 1;
        WriteHeadBlock(newChain[i]);
        addedTxs := addedTxs + newChain[i].txs;
        OverlayAssoc(old(lookup), EntriesOf(written), Entries(newChain[i]));
        written := [newChain[i]] + written;
        assert written[1..] == newChain[i + 1..];
      }
      assert written == Tail(newChain);
    }

    /** Walks `head` back to number `n`, stashing the blocks passed. */
    method Descend(head: Header, n: nat, missing: ReorgError)
      returns (err: Option<ReorgError>, chain: seq<Header>, block: Header)
      requires AllNumbered(blocks) && Numbered(head) && n <= head.number
      ensures err.None? || err == Some(missing)
      ensures ParentClosed(blocks) && head in blocks ==> err.None?
      ensures err.None? ==> Descends(head, block) && block.number == n && chain == Segment(head, block)
      ensures block == head || block in blocks
    {
      chain, block := [], head;
      while block.number != n
        invariant n <= block.number && Numbered(block) && (block == head || block in blocks)
        invariant Descends(head, block) && chain == Segment(head, block)
        decreases block.number
      {
        chain := chain + [block];
        var parent := GetBlock(block.parentHash, block.number - 1);
        if parent.None? {
          return Some(missing), chain, block;
        }
        SegmentStep(head, block);
        block := parent.value;
      }
      err := None;
    }

    /** Follows both chains back to their highest common block, gathering what the old chain drops and
        the new chain adds, both from the head down. */
    method FindCommon(oldHead: Header, newHead: Header)
      returns (err: Option<ReorgError>, oldChain: seq<Header>, newChain: seq<Header>, common: Header, deletedTxs: seq<TxHash>)
      requires AllNumbered(blocks) && Numbered(newHead)
      ensures Tree(blocks, genesisBlock) && oldHead in blocks && newHead in blocks ==> err.None?
      ensures err.Some? ==> err.value in {HeadMissing, InvalidOldChain, InvalidNewChain}
      ensures err.None? ==>
                && HighestCommon(oldHead, newHead, common)
                && oldChain == Segment(oldHead, common)
                && newChain == Segment(newHead, common)
                && deletedTxs == Transactions(oldChain)
    {
      err, oldChain, newChain, common, deletedTxs := None, [], [], newHead, [];
      var found := GetBlock(Of(oldHead), oldHead.number);
      if found.None? {
        err := Some(HeadMissing);
        return;
      }
      var oldBlock, newBlock := found.value, newHead;
      CommonBelowHeads(oldHead, newHead);
      // Level the walks: the higher one goes down to the number of the other.
      if oldBlock.number > newBlock.number {
        err, oldChain, oldBlock := Descend(oldHead, newBlock.number, InvalidOldChain);
        deletedTxs := Transactions(oldChain);
      } else {
        err, newChain, newBlock := Descend(newHead, oldBlock.number, InvalidNewChain);
      }
      if err.Some? {
        return;
      }
      // From equal numbers both go down one block at a time.
      while oldBlock != newBlock
        invariant oldBlock in blocks && Numbered(newBlock) && newBlock.number == oldBlock.number
        invariant newBlock == newHead || newBlock in blocks
        invariant Descends(oldHead, oldBlock) && oldChain == Segment(oldHead, oldBlock)
        invariant Descends(newHead, newBlock) && newChain == Segment(newHead, newBlock)
        invariant deletedTxs == Transactions(oldChain)
        invariant CommonAtMost(oldHead, newHead, oldBlock.number)
        decreases oldBlock.number
      {
        TransactionsAppend(oldChain, oldBlock);
        oldChain := oldChain + [oldBlock];
        deletedTxs := deletedTxs + oldBlock.txs;
        newChain := newChain + [newBlock];
        var oldParent := GetBlock(oldBlock.parentHash, Pred(oldBlock.number));
        if oldParent.None? {
          err := Some(InvalidOldChain);
          return;
        }
        var newParent := GetBlock(newBlock.parentHash, Pred(newBlock.number));
        if newParent.None? {
          err := Some(InvalidNewChain);
          return;
        }
        NotCommonYet(oldHead, newHead, oldBlock, newBlock);
        SegmentStep(oldHead, oldBlock);
        SegmentStep(newHead, newBlock);
        oldBlock, newBlock := oldParent.value, newParent.value;
      }
      common := oldBlock;
    }

    /** Reorganises the canonical chain from `oldHead` to `newHead`, all but the new head itself. Once
        the caller writes the new head, the canonical index is exactly the ancestry of `newHead`. */
    method Reorg(oldHead: Header, newHead: Header) returns (err: Option<ReorgError>, ghost common: Header)
      requires Valid() && oldHead == currentBlock && Numbered(newHead)
      modifies this`canon, this`lookup, this`headHeaderHash, this`headFastBlockHash, this`headBlockHash,
               this`currentHeader, this`currentSnapBlock, this`currentBlock
      ensures Tree(blocks, genesisBlock) && newHead in blocks ==> err.None?
      ensures err.Some? ==> err.value in {HeadMissing, InvalidOldChain, InvalidNewChain}
      ensures err.Some? ==> Valid() && currentBlock == oldHead && lookup == old(lookup)
      ensures err.None? ==>
                && HighestCommon(oldHead, newHead, common)
                && Rooted(newHead)
                && canon[newHead.number := Of(newHead)] == Ancestry(newHead)
                && (newHead.number in canon ==> canon[newHead.number] == Of(newHead))
                && lookup + Entries(newHead) ==
                   LookupAfter(old(lookup), Segment(oldHead, common), Tail(Segment(newHead, common)), newHead)
    {
      var oldChain, newChain, c, deletedTxs;
      err, oldChain, newChain, c, deletedTxs := FindCommon(oldHead, newHead);
      common := c;
      if err.Some? {
        return;
      }
      ghost var p := LastWritten(newHead, c);
      LastWrittenProps(oldHead, newHead, c);
      // All new blocks but the head are written here, from the bottom up.
      var addedTxs := WriteSegment(newChain);
      OverlayCut(oldHead, p, c);
      OverlayGapFree(oldHead, p, c);

      var number := if |newChain| > 1 then newChain[1].number else c.number;
      PruneIndexes(oldChain, newChain, number, deletedTxs, addedTxs, Max(oldHead.number, p.number));
    }

    /** Writes the block with its total difficulty, whatever its canonical status. */
    method StoreBlock(block: Header)
      requires AllNumbered(blocks) && Numbered(block) && td == TdTable(blocks) && block.parentHash in td
      modifies this`blocks, this`td
      ensures blocks == old(blocks) + {block} && td == TdTable(blocks) && AllNumbered(blocks)
      ensures old(Tree(blocks, genesisBlock)) ==> Tree(blocks, genesisBlock)
    {
      var externTd := block.difficulty + td[block.parentHash];
      assert externTd == TotalDifficulty(block);
      td := td[Of(block) := externTd];
      blocks := blocks + {block};
    }

    /** Makes a stored block the head, reorganising unless it extends the current head. */
    method WriteKnownBlock(block: Header) returns (err: Option<ReorgError>)
      requires Valid() && block in blocks
      modifies this
      ensures Valid() && blocks == old(blocks) && td == old(td)
      ensures Tree(blocks, genesisBlock) ==> err.None?
      ensures err.Some? ==> err.value in {HeadMissing, InvalidOldChain, InvalidNewChain}
      ensures err.Some? ==> currentBlock == old(currentBlock) && lookup == old(lookup)
      ensures err.None? ==> currentBlock == block
      ensures err.None? && old(LookupExact()) && NoRepeats(old(currentBlock)) ==> LookupExact()
    {
      var current := currentBlock;
      err := None;
      if block.parentHash != Of(current) {
        ghost var common;
        err, common := Reorg(current, block);
        if err.Some? {
          return;
        }
        LookupExactIff(current, block, common);
        if NoRepeats(current) {
          NoRepeatsDrops(current, block, common);
        }
      } else {
        assert Numbered(block);
        AncestryExtend(block);
      }
      WriteHeadBlock(block);
    }

    /** Stores an executed block and makes it the head if the fork choice prefers it. */
    method WriteBlockAndSetHead(block: Header, terminalTd: Option<nat>, preserve: Header -> bool, draw: bool)
      returns (err: Option<ReorgError>, canonical: bool)
      requires Valid() && Numbered(block)
      modifies this
      ensures Valid()
      ensures err == Some(UnknownAncestor) <==> block.parentHash !in old(td)
      ensures err == Some(UnknownAncestor) ==> View() == old(View())
      ensures err.Some? ==> currentBlock == old(currentBlock) && lookup == old(lookup)
      ensures err.None? ==> BlockStep(old(View()), View(), block, terminalTd)
      ensures err.None? ==> currentBlock == if canonical then block else old(currentBlock)
      ensures err.None? ==> (canonical <==> Wins(block, old(currentBlock), terminalTd, preserve, draw))
      ensures old(Tree(blocks, genesisBlock)) && block.parentHash in old(td) ==> err.None? && Tree(blocks, genesisBlock)
    {
      canonical := false;
      if block.parentHash !in td {
        return Some(UnknownAncestor), canonical;
      }
      StoreBlock(block);
      var current := currentBlock;
      var reorg := ReorgNeeded(
        Candidate(Some(td[Of(current)]), current.number, preserve(current)),
        Candidate(Some(td[Of(block)]), block.number, preserve(block)), terminalTd, draw);
      ChoosesWinner(block, current, terminalTd, preserve, draw);
      err := None;
      if reorg == Some(true) {
        err := WriteKnownBlock(block);
        canonical := err.None?;
      }
    }

    /** Makes a stored block the head; `recovered` is the outcome of rebuilding a missing head state. */
    method SetCanonical(head: Header, hasState: bool, recovered: bool) returns (err: Option<ReorgError>)
      requires Valid() && head in blocks
      modifies this
      ensures Valid() && blocks == old(blocks) && td == old(td)
      ensures err == Some(StateUnavailable) <==> !hasState && !recovered
      ensures Tree(blocks, genesisBlock) && (hasState || recovered) ==> err.None?
      ensures err.Some? ==> currentBlock == old(currentBlock) && lookup == old(lookup)
      ensures err.None? ==> ForceStep(old(View()), View(), head)
    {
      if !hasState && !recovered {
        return Some(StateUnavailable);
      }
      err := WriteKnownBlock(head);
    }
  }
}
