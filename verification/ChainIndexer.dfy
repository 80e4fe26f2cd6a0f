/** The section indexer: its section table, the operations on it, and the object. The interleavings of
    those operations are the subject of `IndexerProtocol`. Checkpoints and child indexers are not part
    of this model. */
module ChainIndexer {
  import opened Prelude
  import opened Headers

  /** Section size (positive) and required confirmations. */
  datatype Config = Config(size: nat, confirms: nat)

  /** The indexer's counters, its section-head table, and the section count in the index database. */
  datatype Index = Index(stored: nat, known: nat, cascaded: nat, heads: map<nat, Hash>, count: nat)

  function SectionHead(ix: Index, section: nat): Hash {
    if section in ix.heads then ix.heads[section] else Zero
  }

  /** The number of the last block of section `i`. */
  function LastOf(c: Config, i: nat): nat
    requires c.size > 0
  {
    if i == 0 then c.size - 1 else LastOf(c, i - 1) + c.size
  }

  lemma {:induction false} LastOfClosed(c: Config, i: nat)
    requires c.size > 0
    ensures LastOf(c, i) == (i + 1) * c.size - 1
  {
    if i == 0 {
    } else {
      LastOfClosed(c, i - 1);
      assert (i + 1) * c.size == i * c.size + c.size;
    }
  }

  // ---------------------------------------------------------------- locked operations

  function SetValid(ix: Index, sections: nat): Index {
    ix.(stored := sections, count := sections,
        heads := map i | i in ix.heads && !(sections <= i < ix.stored) :: ix.heads[i])
  }

  /** Section `i` lies on the canonical chain. */
  predicate OnChain(c: Config, ix: Index, canon: map<nat, Hash>, i: nat)
    requires c.size > 0
  {
    SectionHead(ix, i) == Canonical(canon, LastOf(c, i))
  }

  /** What the reads of the canonical chain return: the marker found for the last block of a section.
      The chain may change between two of them. */
  type Marks = nat -> Hash

  /** The reads of a chain that looks like `canonAt(i)` when section `i` is compared. */
  function Reads(c: Config, canonAt: nat -> map<nat, Hash>): Marks
    requires c.size > 0
  {
    (i: nat) => Canonical(canonAt(i), LastOf(c, i))
  }

  /** The reads of a chain that does not change. */
  function Snapshot(c: Config, canon: map<nat, Hash>): Marks
    requires c.size > 0
  {
    Reads(c, (i: nat) => canon)
  }

  /** The first of `n`, `n - 1`, ... whose last section matches its read. */
  function Verified(ix: Index, marks: Marks, n: nat): nat {
    if n == 0 || SectionHead(ix, n - 1) == marks(n - 1) then n else Verified(ix, marks, n - 1)
  }

  /** Drops sections from the top until the last one matches. */
  function Verify(ix: Index, marks: Marks): Index {
    SetValid(ix, Verified(ix, marks, ix.stored))
  }

  function NewHead(c: Config, ix: Index, head: nat, reorg: bool): Index
    requires c.size > 0
  {
    if reorg then
      var sections := (head + 1) / c.size;
      var ix1 := ix.(known := Min(sections, ix.known));
      var ix2 := if sections < ix1.stored then SetValid(ix1, sections) else ix1;
      ix2.(cascaded := Min(sections * c.size, ix2.cascaded))
    else if head >= c.confirms && (head + 1 - c.confirms) / c.size > ix.known then
      ix.(known := (head + 1 - c.confirms) / c.size)
    else
      ix
  }

  /** The end of an update: commit the section, or verify and give up. */
  function Finish(c: Config, ix: Index, section: nat, oldHead: Hash, newHead: Option<Hash>, marks: Marks): Index
    requires c.size > 0
  {
    if newHead.Some? && (section == 0 || oldHead == SectionHead(ix, section - 1)) then
      var ix1 := SetValid(ix.(heads := ix.heads[section := newHead.value]), section + 1);
      ix1.(cascaded := LastOf(c, section))
    else
      var ix1 := Verify(ix, marks);
      ix1.(known := ix1.stored)
  }

  // ---------------------------------------------------------------- the invariant

  /** `hash` is a rooted header that ends section `i`. */
  predicate EndsSection(c: Config, hash: Hash, i: nat)
    requires c.size > 0
  {
    hash.Of? && Rooted(hash.header) && hash.header.number == LastOf(c, i)
  }

  /** `lower` ends section `i` on the ancestry of `upper`. */
  predicate Follows(c: Config, upper: Hash, lower: Hash, i: nat)
    requires c.size > 0
  {
    && lower.Of? && upper.Of? && Rooted(upper.header)
    && LastOf(c, i) <= upper.header.number && At(upper.header, LastOf(c, i)) == lower.header
  }

  /** Section `i` has a head that ends it and that follows the head of the section below. */
  predicate SectionOk(c: Config, heads: map<nat, Hash>, i: nat)
    requires c.size > 0
  {
    && i in heads && EndsSection(c, heads[i], i)
    && (i > 0 ==> i - 1 in heads && Follows(c, heads[i], heads[i - 1], i - 1))
  }

  /** The stored section heads form a hash-linked chain of sections, and none is kept at or above the
      stored count. */
  ghost predicate SectionChain(c: Config, ix: Index) {
    && c.size > 0
    && (forall i: nat | i < ix.stored :: SectionOk(c, ix.heads, i))
    && (forall i: nat | i in ix.heads :: i < ix.stored)
  }

  /** A section chain whose count the database agrees with. */
  ghost predicate Consistent(c: Config, ix: Index) {
    SectionChain(c, ix) && ix.count == ix.stored
  }

  /** Without heads no section can be stored. */
  lemma NoHeads(c: Config, ix: Index)
    requires c.size > 0 && ix.heads == map[] && ix.stored > 0
    ensures !SectionChain(c, ix)
  {
    assert !SectionOk(c, ix.heads, 0);
  }

  /** The last stored section has a head. */
  lemma LastHead(c: Config, ix: Index)
    requires SectionChain(c, ix) && ix.stored > 0
    ensures ix.stored - 1 in ix.heads && EndsSection(c, SectionHead(ix, ix.stored - 1), ix.stored - 1)
  {
    assert SectionOk(c, ix.heads, ix.stored - 1);
  }

  /** Any lower section end is on the ancestry of any higher one. */
  lemma {:induction false} ChainDown(c: Config, ix: Index, i: nat, j: nat)
    requires SectionChain(c, ix) && i <= j < ix.stored
    ensures LastOf(c, i) <= LastOf(c, j)
    ensures i in ix.heads && j in ix.heads && EndsSection(c, ix.heads[j], j) && ix.heads[i].Of?
    ensures At(ix.heads[j].header, LastOf(c, i)) == ix.heads[i].header
    decreases j - i
  {
    assert SectionOk(c, ix.heads, i) && SectionOk(c, ix.heads, j);
    if i == j {
    } else {
      ChainDown(c, ix, i, j - 1);
      AtAt(ix.heads[j].header, LastOf(c, j - 1), LastOf(c, i));
    }
  }

  lemma SetValidKeeps(c: Config, ix: Index, sections: nat)
    requires SectionChain(c, ix) && sections <= ix.stored
    ensures SectionChain(c, SetValid(ix, sections))
  {
    forall i: nat | i < sections ensures SectionOk(c, SetValid(ix, sections).heads, i) {
      assert SectionOk(c, ix.heads, i);
    }
  }

  lemma SetValidTwice(ix: Index, n: nat, m: nat)
    requires m <= n <= ix.stored
    ensures SetValid(SetValid(ix, n), m) == SetValid(ix, m)
  {
  }

  ghost predicate AllOnChain(c: Config, ix: Index, canon: map<nat, Hash>, sections: nat)
    requires c.size > 0
  {
    forall i: nat | i < sections :: OnChain(c, ix, canon, i)
  }

  lemma {:induction false} VerifiedStops(ix: Index, marks: Marks, n: nat)
    ensures var m := Verified(ix, marks, n);
            && m <= n
            && (m > 0 ==> SectionHead(ix, m - 1) == marks(m - 1))
            && (forall i: nat | m <= i < n :: SectionHead(ix, i) != marks(i))
  {
    if n == 0 {
    } else if SectionHead(ix, n - 1) != marks(n - 1) {
      VerifiedStops(ix, marks, n - 1);
    }
  }

  /** One comparison of a verification that has come down to `n` sections. */
  lemma VerifyRead(c: Config, ix: Index, canonAt: nat -> map<nat, Hash>, n: nat)
    requires c.size > 0 && 0 < n <= ix.stored && n * c.size > 0
    ensures Verified(ix, Reads(c, canonAt), n) ==
            if SectionHead(SetValid(ix, n), n - 1) == Canonical(canonAt(n - 1), n * c.size - 1) then n
            else Verified(ix, Reads(c, canonAt), n - 1)
  {
    LastOfClosed(c, n - 1);
    assert SectionHead(SetValid(ix, n), n - 1) == SectionHead(ix, n - 1);
  }

  /** A verification keeps the table a section chain whose last section matched its read. */
  lemma VerifyKeeps(c: Config, ix: Index, marks: Marks)
    requires SectionChain(c, ix)
    ensures var kept := Verify(ix, marks);
            && Consistent(c, kept) && kept.stored <= ix.stored
            && (kept.stored > 0 ==> SectionHead(kept, kept.stored - 1) == marks(kept.stored - 1))
  {
    VerifiedStops(ix, marks, ix.stored);
    SetValidKeeps(c, ix, Verified(ix, marks, ix.stored));
  }

  /** If the last stored section is on the chain of `head`, so is every section below it. */
  lemma OnChainDown(c: Config, ix: Index, head: Header, i: nat, j: nat)
    requires SectionChain(c, ix) && Rooted(head) && i <= j < ix.stored && OnChain(c, ix, Ancestry(head), j)
    ensures OnChain(c, ix, Ancestry(head), i)
  {
    ChainDown(c, ix, i, j);
    AtAt(head, LastOf(c, j), LastOf(c, i));
  }

  /** If the last of `n` sections is on the chain of `head`, all of them are. */
  lemma {:induction false} PrefixOnChain(c: Config, ix: Index, head: Header, n: nat)
    requires SectionChain(c, ix) && Rooted(head) && n <= ix.stored
    requires n > 0 ==> OnChain(c, ix, Ancestry(head), n - 1)
    ensures AllOnChain(c, ix, Ancestry(head), n)
  {
    if n == 0 {
    } else {
      if n > 1 {
        OnChainDown(c, ix, head, n - 2, n - 1);
      }
      PrefixOnChain(c, ix, head, n - 1);
    }
  }

  /** After a verification whose last read was of the chain of `head`, every stored section, not just the
      one compared last, lies on that chain, and every section dropped differed from its read. */
  lemma VerifySettles(c: Config, ix: Index, marks: Marks, head: Header)
    requires SectionChain(c, ix) && Rooted(head)
    requires var n := Verified(ix, marks, ix.stored); n > 0 ==> marks(n - 1) == Canonical(Ancestry(head), LastOf(c, n - 1))
    ensures var n := Verify(ix, marks).stored;
            && n <= ix.stored
            && AllOnChain(c, ix, Ancestry(head), n)
            && (forall i: nat | n <= i < ix.stored :: SectionHead(ix, i) != marks(i))
  {
    VerifiedStops(ix, marks, ix.stored);
    PrefixOnChain(c, ix, head, Verified(ix, marks, ix.stored));
  }

  /** What a reader gets after a verification. */
  lemma ReadersMayRely(c: Config, ix: Index, canonAt: nat -> map<nat, Hash>, chain: Header)
    requires SectionChain(c, ix)
    ensures var kept := Verify(ix, Reads(c, canonAt));
            && Consistent(c, kept)
            && (kept.stored > 0 ==>
                  SectionHead(kept, kept.stored - 1) == Canonical(canonAt(kept.stored - 1), LastOf(c, kept.stored - 1)) != Zero)
            && (Rooted(chain) && (kept.stored > 0 ==> canonAt(kept.stored - 1) == Ancestry(chain)) ==>
                  AllOnChain(c, kept, Ancestry(chain), kept.stored))
  {
    var kept := Verify(ix, Reads(c, canonAt));
    VerifyKeeps(c, ix, Reads(c, canonAt));
    if kept.stored > 0 {
      LastHead(c, kept);
    }
    if Rooted(chain) && (kept.stored > 0 ==> canonAt(kept.stored - 1) == Ancestry(chain)) {
      PrefixOnChain(c, kept, chain, kept.stored);
    }
  }

  /** On a chain that does not change, a verification stops at the first section from the top on it. */
  lemma SnapshotStops(c: Config, ix: Index, canon: map<nat, Hash>)
    requires c.size > 0
    ensures var n := Verified(ix, Snapshot(c, canon), ix.stored);
            && n <= ix.stored
            && (n > 0 ==> OnChain(c, ix, canon, n - 1))
            && (n < ix.stored ==> !OnChain(c, ix, canon, n))
  {
    var n := Verified(ix, Snapshot(c, canon), ix.stored);
    VerifiedStops(ix, Snapshot(c, canon), ix.stored);
    assert n < ix.stored ==> SectionHead(ix, n) != Snapshot(c, canon)(n);
  }

  /** The sections on the chain are exactly the first `n` if the section after them is off the chain. */
  lemma PrefixIff(c: Config, ix: Index, canon: map<nat, Hash>, n: nat, m: nat)
    requires c.size > 0 && AllOnChain(c, ix, canon, n) && (n < m ==> !OnChain(c, ix, canon, n))
    ensures AllOnChain(c, ix, canon, m) <==> m <= n
  {
  }

  /** On a chain that does not change, what is kept is the longest prefix on the chain. */
  lemma VerifyLongest(c: Config, ix: Index, head: Header, m: nat)
    requires SectionChain(c, ix) && Rooted(head) && m <= ix.stored
    ensures var n := Verify(ix, Snapshot(c, Ancestry(head))).stored;
            n <= ix.stored && (AllOnChain(c, ix, Ancestry(head), m) <==> m <= n)
  {
    var n := Verified(ix, Snapshot(c, Ancestry(head)), ix.stored);
    SnapshotStops(c, ix, Ancestry(head));
    PrefixOnChain(c, ix, head, n);
    PrefixIff(c, ix, Ancestry(head), n, m);
  }

  lemma NewHeadShrinks(c: Config, ix: Index, head: nat, reorg: bool)
    requires SectionChain(c, ix)
    ensures var after := NewHead(c, ix, head, reorg);
            && after.stored <= ix.stored && after.heads == SetValid(ix, after.stored).heads
            && (ix.count == ix.stored ==> after.count == after.stored)
            && (reorg ==> after.stored <= (head + 1) / c.size)
            && SectionChain(c, after)
  {
    var after := NewHead(c, ix, head, reorg);
    if after.stored == ix.stored {
      assert SetValid(ix, ix.stored).heads == ix.heads;
    }
    SetValidKeeps(c, ix, after.stored);
  }

  lemma SectionsComplete(c: Config, head: nat, i: nat)
    requires c.size > 0
    ensures i < (head + 1) / c.size <==> LastOf(c, i) <= head
  {
    LastOfClosed(c, i);
    DivLess(head + 1, c.size, i + 1);
  }

  /** A notice of a reorg to the common ancestor `fork` of the old and the new head keeps every stored
      section canonical: what was on the old chain is on the new one. */
  lemma ReorgNotice(c: Config, ix: Index, oldHead: Header, newHead: Header, fork: nat)
    requires SectionChain(c, ix) && Rooted(oldHead) && Rooted(newHead)
    requires fork <= oldHead.number && fork <= newHead.number && At(oldHead, fork) == At(newHead, fork)
    requires AllOnChain(c, ix, Ancestry(oldHead), ix.stored)
    ensures var after := NewHead(c, ix, fork, true);
            SectionChain(c, after) && AllOnChain(c, after, Ancestry(newHead), after.stored)
  {
    var after := NewHead(c, ix, fork, true);
    NewHeadShrinks(c, ix, fork, true);
    forall i: nat | i < after.stored ensures OnChain(c, after, Ancestry(newHead), i) {
      assert OnChain(c, ix, Ancestry(oldHead), i);
      SectionsComplete(c, fork, i);
      AtAt(oldHead, fork, LastOf(c, i));
      AtAt(newHead, fork, LastOf(c, i));
    }
  }

  lemma CascadedBack(c: Config, ix: Index, head: nat)
    requires c.size > 0
    ensures NewHead(c, ix, head, true).cascaded == Min(head + 1 - (head + 1) % c.size, ix.cascaded)
  {
    assert head + 1 == (head + 1) / c.size * c.size + (head + 1) % c.size;
  }

  /** A reorg notice back to `head` keeps, of the stored and of the known sections, exactly those that end at
      or below `head`, and the notified head goes back to where the first other section begins. */
  lemma ReorgKeeps(c: Config, ix: Index, head: nat, i: nat)
    requires c.size > 0
    ensures var after := NewHead(c, ix, head, true);
            && (i < after.stored <==> i < ix.stored && LastOf(c, i) <= head)
            && (i < after.known <==> i < ix.known && LastOf(c, i) <= head)
            && (i < after.stored ==> SectionHead(after, i) == SectionHead(ix, i))
            && after.cascaded == Min(head + 1 - (head + 1) % c.size, ix.cascaded)
  {
    SectionsComplete(c, head, i);
    CascadedBack(c, ix, head);
  }

  /** A head notice makes known exactly the sections whose last block has enough confirmations, and never
      fewer than before. */
  lemma KnownSections(c: Config, ix: Index, head: nat, i: nat)
    requires c.size > 0
    ensures var after := NewHead(c, ix, head, false);
            && (i < after.known <==> i < ix.known || LastOf(c, i) + c.confirms <= head)
            && after == ix.(known := after.known)
  {
    if head >= c.confirms {
      SectionsComplete(c, head - c.confirms, i);
    }
  }

  /** Every stored section lies on the chain of `head`. */
  ghost predicate Settled(c: Config, ix: Index, head: Header) {
    c.size > 0 && Rooted(head) && AllOnChain(c, ix, Ancestry(head), ix.stored)
  }

  lemma NoticeKeeps(c: Config, ix: Index, number: nat, head: Header)
    requires Settled(c, ix, head)
    ensures Settled(c, NewHead(c, ix, number, false), head)
  {
    forall i: nat | i < ix.stored ensures OnChain(c, NewHead(c, ix, number, false), Ancestry(head), i) {
      assert OnChain(c, ix, Ancestry(head), i);
    }
  }

  /** A head whose child or descendant is the new head is on the new chain. */
  lemma OldHeadKept(prev: Header, header: Header)
    requires Rooted(prev) && Rooted(header)
    requires header.parentHash == Of(prev) || Canonical(Ancestry(header), prev.number) == Of(prev)
    ensures prev.number <= header.number && At(header, prev.number) == prev
  {
  }

  /** Walks `h` back while it is above number `n`. */
  method WalkDown(db: set<Header>, h: Header, n: nat) returns (r: Option<Header>)
    requires AllNumbered(db) && Numbered(h)
    ensures r.Some? ==> Descends(h, r.value) && r.value.number == Min(h.number, n) && Numbered(r.value)
    ensures r.Some? && h in db ==> r.value in db
    ensures ParentClosed(db) && h in db ==> r.Some?
  {
    var x := h;
    while x.number > n
      invariant Descends(h, x) && Numbered(x) && (h in db ==> x in db) && Min(h.number, n) <= x.number <= h.number
      decreases x.number
    {
      var parent := Get(db, x.parentHash, x.number - 1);
      if parent.None? {
        return None;
      }
      SegmentStep(h, x);
      x := parent.value;
    }
    return Some(x);
  }

  /** The last common ancestor of two headers, found by walking both back; None if a header is missing. */
  method FindCommonAncestor(db: set<Header>, a: Header, b: Header, ghost genesis: Header) returns (r: Option<Header>)
    requires AllNumbered(db) && Numbered(a) && Numbered(b)
    ensures r.Some? ==> HighestCommon(a, b, r.value)
    ensures Tree(db, genesis) && a in db && b in db ==> r.Some?
  {
    var x := WalkDown(db, a, b.number);
    if x.None? {
      return None;
    }
    var y := WalkDown(db, b, x.value.number);
    if y.None? {
      return None;
    }
    var p, q := x.value, y.value;
    CommonBelowHeads(a, b);
    while p != q
      invariant Descends(a, p) && Descends(b, q) && Numbered(p) && Numbered(q) && p.number == q.number
      invariant a in db && b in db ==> p in db && q in db
      invariant CommonAtMost(a, b, p.number)
      decreases p.number
    {
      var p', q' := Get(db, p.parentHash, Pred(p.number)), Get(db, q.parentHash, Pred(q.number));
      if p'.None? || q'.None? {
        return None;
      }
      NotCommonYet(a, b, p, q);
      SegmentStep(a, p);
      SegmentStep(b, q);
      p, q := p'.value, q'.value;
    }
    return Some(p);
  }

  /** If the old head is on the chain of the new one, so are the sections on the old chain. */
  lemma ChainGrew(c: Config, ix: Index, oldHead: Header, newHead: Header)
    requires c.size > 0 && Rooted(oldHead) && Rooted(newHead) && SectionChain(c, ix)
    requires oldHead.number <= newHead.number && At(newHead, oldHead.number) == oldHead
    requires AllOnChain(c, ix, Ancestry(oldHead), ix.stored)
    ensures AllOnChain(c, ix, Ancestry(newHead), ix.stored)
  {
    forall i: nat | i < ix.stored ensures OnChain(c, ix, Ancestry(newHead), i) {
      assert OnChain(c, ix, Ancestry(oldHead), i) && SectionOk(c, ix.heads, i);
      AtAt(newHead, oldHead.number, LastOf(c, i));
    }
  }

  // ---------------------------------------------------------------- a section in flight

  function FirstOf(c: Config, section: nat): nat
    requires c.size > 0
  {
    if section == 0 then 0 else LastOf(c, section - 1) + 1
  }

  /** The hash of the header at `number` if the canonical chain continues `lastHead` there. */
  function ReadNext(db: set<Header>, canon: map<nat, Hash>, number: nat, lastHead: Hash): Option<Hash> {
    var header := Get(db, Canonical(canon, number), number);
    if header.Some? && header.value.parentHash == lastHead then Some(Of(header.value)) else None
  }

  /** What the worker captured still fits the table: sections may have been dropped underneath it, but
      while its own section is still next, the head below it is the one it started from. */
  predicate Captured(c: Config, ix: Index, section: nat, oldHead: Hash)
    requires c.size > 0
  {
    && ix.stored <= section
    && (if section == 0 then oldHead == Zero else EndsSection(c, oldHead, section - 1))
    && (ix.stored == section > 0 ==> SectionHead(ix, section - 1) == oldHead)
  }

  /** The headers processed so far hang together and on the head below the section. */
  predicate Progress(c: Config, section: nat, oldHead: Hash, lastHead: Hash, next: nat)
    requires c.size > 0 && (section > 0 ==> EndsSection(c, oldHead, section - 1))
  {
    && FirstOf(c, section) <= next <= LastOf(c, section) + 1
    && if next == FirstOf(c, section) then lastHead == oldHead
       else
         && lastHead.Of? && Rooted(lastHead.header) && lastHead.header.number == next - 1
         && (section > 0 ==> At(lastHead.header, LastOf(c, section - 1)) == oldHead.header)
  }

  /** Reading one more header keeps the section linked, whatever the chain looks like at that moment. */
  lemma ReadKeeps(c: Config, db: set<Header>, canon: map<nat, Hash>, section: nat, oldHead: Hash, lastHead: Hash, next: nat)
    requires c.size > 0
    requires if section == 0 then oldHead == Zero else EndsSection(c, oldHead, section - 1)
    requires Progress(c, section, oldHead, lastHead, next) && next <= LastOf(c, section)
    ensures var hash := ReadNext(db, canon, next, lastHead);
            hash.Some? ==> Progress(c, section, oldHead, hash.value, next + 1)
  {
  }

  /** The parent hash of the block numbered `n` on the chain of `head`. */
  function HashBelow(head: Header, n: nat): Hash
    requires Rooted(head) && n <= head.number + 1
  {
    if n == 0 then Zero else Of(At(head, n - 1))
  }

  /** The read for number `n` finds the ancestor of `h` with that number, and the backend accepts it. */
  predicate ReadsAt(canonAt: nat -> map<nat, Hash>, dbAt: nat -> set<Header>, backendOk: nat -> bool, h: Header, n: nat)
    requires Rooted(h) && n <= h.number
  {
    Canonical(canonAt(n), n) == Of(At(h, n)) && At(h, n) in dbAt(n) && backendOk(n)
  }

  /** What a pass over a section looks for: `h` ends the section, its chain continues `oldHead`, and the
      reads find the headers of this chain. */
  predicate SectionReads(c: Config, section: nat, oldHead: Hash, canonAt: nat -> map<nat, Hash>, dbAt: nat -> set<Header>,
                         backendOk: nat -> bool, h: Header)
    requires c.size > 0
  {
    && EndsSection(c, Of(h), section)
    && HashBelow(h, FirstOf(c, section)) == oldHead
    && (section == 0 ==> At(h, 0).parentHash == Zero)
    && (forall n: nat | FirstOf(c, section) <= n <= h.number :: ReadsAt(canonAt, dbAt, backendOk, h, n))
  }

  lemma ReadsExtend(canonAt: nat -> map<nat, Hash>, dbAt: nat -> set<Header>, backendOk: nat -> bool, h: Header,
                    child: Header, from: nat)
    requires Rooted(h) && child.parentHash == Of(h) && child.number == h.number + 1
    requires forall n: nat | from <= n <= h.number :: ReadsAt(canonAt, dbAt, backendOk, h, n)
    requires Rooted(child) && ReadsAt(canonAt, dbAt, backendOk, child, child.number)
    ensures forall n: nat | from <= n <= child.number :: ReadsAt(canonAt, dbAt, backendOk, child, n)
  {
    forall n: nat | from <= n <= child.number ensures ReadsAt(canonAt, dbAt, backendOk, child, n) {
      if n <= h.number {
        assert ReadsAt(canonAt, dbAt, backendOk, h, n);
      }
    }
  }

  lemma NextOnChain(db: set<Header>, canon: map<nat, Hash>, h: Header, n: nat)
    requires Rooted(h) && n <= h.number && (n == 0 ==> At(h, 0).parentHash == Zero)
    requires Canonical(canon, n) == Of(At(h, n)) && At(h, n) in db
    ensures ReadNext(db, canon, n, HashBelow(h, n)) == Some(Of(At(h, n)))
  {
    if n > 0 {
      AtParent(h, n);
    }
  }

  /** The read for number `n` sees the chain of `head`, and the backend accepts the header. */
  predicate SeesAt(canonAt: nat -> map<nat, Hash>, dbAt: nat -> set<Header>, backendOk: nat -> bool, head: Header, n: nat)
    requires Rooted(head) && n <= head.number
  {
    canonAt(n) == Ancestry(head) && At(head, n) in dbAt(n) && backendOk(n)
  }

  lemma ReadOnChain(canonAt: nat -> map<nat, Hash>, dbAt: nat -> set<Header>, backendOk: nat -> bool, head: Header,
                    last: nat, n: nat)
    requires Rooted(head) && n <= last <= head.number && SeesAt(canonAt, dbAt, backendOk, head, n)
    ensures ReadsAt(canonAt, dbAt, backendOk, At(head, last), n)
  {
    AtAt(head, last, n);
  }

  lemma BelowOnChain(head: Header, last: nat, first: nat)
    requires Rooted(head) && first <= last <= head.number
    ensures HashBelow(At(head, last), first) == HashBelow(head, first) && At(At(head, last), 0) == At(head, 0)
  {
    AtAt(head, last, 0);
    if first > 0 {
      AtAt(head, last, first - 1);
    }
  }

  /** If all reads of a section see the chain of one head, and the backend accepts its headers, the pass
      finds the last header of the section on that chain. */
  lemma ChainIsRead(c: Config, section: nat, oldHead: Hash, canonAt: nat -> map<nat, Hash>, dbAt: nat -> set<Header>,
                    backendOk: nat -> bool, head: Header)
    requires c.size > 0 && Rooted(head) && At(head, 0).parentHash == Zero
    requires FirstOf(c, section) <= LastOf(c, section) <= head.number && oldHead == HashBelow(head, FirstOf(c, section))
    requires forall n: nat | FirstOf(c, section) <= n <= LastOf(c, section) :: SeesAt(canonAt, dbAt, backendOk, head, n)
    ensures SectionReads(c, section, oldHead, canonAt, dbAt, backendOk, At(head, LastOf(c, section)))
  {
    var first, last := FirstOf(c, section), LastOf(c, section);
    BelowOnChain(head, last, first);
    forall n: nat | first <= n <= last ensures ReadsAt(canonAt, dbAt, backendOk, At(head, last), n) {
      ReadOnChain(canonAt, dbAt, backendOk, head, last, n);
    }
  }

  lemma AppendSection(c: Config, ix: Index, hash: Hash)
    requires SectionChain(c, ix) && EndsSection(c, hash, ix.stored)
    requires ix.stored > 0 ==> Follows(c, hash, SectionHead(ix, ix.stored - 1), ix.stored - 1)
    ensures SectionChain(c, ix.(stored := ix.stored + 1, heads := ix.heads[ix.stored := hash]))
  {
    var heads := ix.heads[ix.stored := hash];
    if ix.stored > 0 {
      LastHead(c, ix);
    }
    forall i: nat | i <= ix.stored ensures SectionOk(c, heads, i) {
      if i < ix.stored {
        assert SectionOk(c, ix.heads, i);
      }
    }
  }

  /** A section that hangs on the head below it is committed as the next one. */
  lemma CommitKeeps(c: Config, ix: Index, hash: Hash)
    requires SectionChain(c, ix) && EndsSection(c, hash, ix.stored)
    requires ix.stored > 0 ==> Follows(c, hash, SectionHead(ix, ix.stored - 1), ix.stored - 1)
    ensures Consistent(c, SetValid(ix.(heads := ix.heads[ix.stored := hash]), ix.stored + 1))
  {
    var ix1 := ix.(heads := ix.heads[ix.stored := hash]);
    assert SetValid(ix1, ix.stored + 1).heads == ix1.heads;
    AppendSection(c, ix, hash);
  }

  /** A commit adds exactly the next section; a failed update only drops sections. */
  lemma FinishKeeps(c: Config, ix: Index, section: nat, oldHead: Hash, newHead: Option<Hash>, marks: Marks)
    requires SectionChain(c, ix) && Captured(c, ix, section, oldHead)
    requires newHead.Some? ==> Progress(c, section, oldHead, newHead.value, LastOf(c, section) + 1)
    ensures var after := Finish(c, ix, section, oldHead, newHead, marks);
            && Consistent(c, after)
            && (forall i: nat | i < ix.stored && i < after.stored :: SectionHead(after, i) == SectionHead(ix, i))
            && if newHead.Some? && ix.stored == section then
                 && after.stored == section + 1 && SectionHead(after, section) == newHead.value
                 && after.known == ix.known && after.cascaded == LastOf(c, section)
               else
                 after.known == after.stored <= ix.stored && after.cascaded == ix.cascaded
  {
    if newHead.Some? && (section == 0 || oldHead == SectionHead(ix, section - 1)) {
      assert ix.stored == section;
      if section > 0 {
        LastHead(c, ix);
        assert Follows(c, newHead.value, oldHead, section - 1);
      }
      CommitKeeps(c, ix, newHead.value);
    } else {
      VerifyKeeps(c, ix, marks);
    }
  }

  /** A commit can store a section that the canonical chain has left meanwhile: when the reorg point
      lies in the section in flight, the head below it still matches. All stored sections are
      canonical right after a commit exactly when the new section's own head is. */
  lemma CommitOnChainIff(c: Config, ix: Index, oldHead: Hash, newHead: Hash, marks: Marks, head: Header)
    requires SectionChain(c, ix) && Rooted(head)
    requires Captured(c, ix, ix.stored, oldHead) && Progress(c, ix.stored, oldHead, newHead, LastOf(c, ix.stored) + 1)
    ensures var after := Finish(c, ix, ix.stored, oldHead, Some(newHead), marks);
            && after.stored == ix.stored + 1
            && (AllOnChain(c, after, Ancestry(head), after.stored) <==> newHead == Canonical(Ancestry(head), LastOf(c, ix.stored)))
  {
    var section := ix.stored;
    var after := Finish(c, ix, section, oldHead, Some(newHead), marks);
    FinishKeeps(c, ix, section, oldHead, Some(newHead), marks);
    if OnChain(c, after, Ancestry(head), section) {
      forall i: nat | i < after.stored ensures OnChain(c, after, Ancestry(head), i) {
        OnChainDown(c, after, head, i, section);
      }
    }
  }

  // ---------------------------------------------------------------- the indexer object

  /** A reorg from `prev` to `header` was reported back to their last common ancestor. */
  ghost predicate Reported(c: Config, ix: Index, prev: Header, header: Header, after: Index)
    requires c.size > 0
  {
    exists common: Header :: HighestCommon(prev, header, common) && after == NewHead(c, ix, common.number, true)
  }

  /** A head event: a reorg is reported if `header` does not follow `prev` and `prev` has left the canonical
      chain, then the new head. */
  ghost predicate Handled(c: Config, ix: Index, prev: Header, header: Header, canon: map<nat, Hash>, after: Index)
    requires c.size > 0
  {
    if header.parentHash == Of(prev) || Canonical(canon, prev.number) == Of(prev) then
      after == NewHead(c, ix, header.number, false)
    else
      exists mid: Index :: Reported(c, ix, prev, header, mid) && after == NewHead(c, mid, header.number, false)
  }

  class ChainIndexer {
    const config: Config
    var storedSections: nat
    var knownSections: nat
    var cascadedHead: nat
    var sectionHeads: map<nat, Hash>
    var countRecord: nat // the section count in the index database

    ghost function State(): Index
      reads this
    {
      Index(storedSections, knownSections, cascadedHead, sectionHeads, countRecord)
    }

    ghost predicate Valid()
      reads this
    {
      Consistent(config, State())
    }

    constructor (c: Config)
      requires c.size > 0
      ensures Valid() && config == c && State() == Index(0, 0, 0, map[], 0)
    {
      config := c;
      storedSections, knownSections, cascadedHead, countRecord := 0, 0, 0, 0;
      sectionHeads := map[];
    }

    /** Writes the section count and removes the heads of the sections given up. */
    method SetValidSections(sections: nat)
      modifies this`storedSections, this`sectionHeads, this`countRecord
      ensures State() == SetValid(old(State()), sections)
      ensures countRecord == sections
    {
      countRecord := sections;
      while storedSections > sections
        invariant countRecord == sections
        invariant storedSections <= old(storedSections)
        invariant sections <= old(storedSections) ==> sections <= storedSections
        invariant sections > old(storedSections) ==> storedSections == old(storedSections)
        invariant sectionHeads == map i | i in old(sectionHeads) && !(storedSections <= i < old(storedSections)) :: old(sectionHeads)[i]
      {
        storedSections := storedSections - 1;
        sectionHeads := sectionHeads - {storedSections};
      }
      storedSections := sections;
    }

    function HeadOf(section: nat): Hash
      reads this
    {
      if section in sectionHeads then sectionHeads[section] else Zero
    }

    /** Compares the last section with the canonical chain, in a verification that started from `start`. */
    method LastMatches(ghost start: Index, canonAt: nat -> map<nat, Hash>) returns (matches: bool)
      requires config.size > 0 && 0 < storedSections <= start.stored && State() == SetValid(start, storedSections)
      ensures Verified(start, Reads(config, canonAt), storedSections) ==
              if matches then storedSections else Verified(start, Reads(config, canonAt), storedSections - 1)
    {
      LastOfClosed(config, storedSections - 1);
      VerifyRead(config, start, canonAt, storedSections);
      matches := HeadOf(storedSections - 1) == Canonical(canonAt(storedSections - 1), storedSections * config.size - 1);
    }

    /** Gives up the last section, in a roll-back that started from `start`. */
    method DropLast(ghost start: Index)
      requires 0 < storedSections <= start.stored && State() == SetValid(start, storedSections)
      modifies this`storedSections, this`sectionHeads, this`countRecord
      ensures storedSections == old(storedSections) - 1 && State() == SetValid(start, storedSections)
    {
      SetValidTwice(start, storedSections, storedSections - 1);
      SetValidSections(storedSections - 1);
    }

    /** Rolls back reorged sections: compares the last stored head with the canonical chain, which is
        `canonAt(i)` at the moment section `i` is compared. */
    method VerifyLastHead(canonAt: nat -> map<nat, Hash>)
      requires config.size > 0 && countRecord == storedSections
      modifies this`storedSections, this`sectionHeads, this`countRecord
      ensures State() == Verify(old(State()), Reads(config, canonAt))
    {
      ghost var start := State();
      ghost var kept := Verified(start, Reads(config, canonAt), start.stored);
      assert SetValid(start, start.stored) == start;
      while storedSections > 0
        invariant storedSections <= start.stored && State() == SetValid(start, storedSections)
        invariant Verified(start, Reads(config, canonAt), storedSections) == kept
      {
        var matches := LastMatches(start, canonAt);
        if matches {
          break;
        }
        DropLast(start);
      }
    }

    /** Handles a notice of a new head or of a reorg back to `head`. */
    method HandleHead(head: nat, reorg: bool)
      requires Valid()
      modifies this`storedSections, this`knownSections, this`cascadedHead, this`sectionHeads, this`countRecord
      ensures Valid() && State() == NewHead(config, old(State()), head, reorg)
    {
      NewHeadShrinks(config, State(), head, reorg);
      if reorg {
        var sections := (head + 1) / config.size;
        if sections < knownSections {
          knownSections := sections;
        }
        if sections < storedSections {
          SetValidSections(sections);
        }
        if sections * config.size < cascadedHead {
          cascadedHead := sections * config.size;
        }
        return;
      }
      if head >= config.confirms {
        var sections := (head + 1 - config.confirms) / config.size;
        if sections > knownSections {
          knownSections := sections;
        }
      }
    }

    /** Reports a reorg back to the last common ancestor; there is one on a tree. */
    method ReportReorg(prev: Header, header: Header, db: set<Header>, ghost genesis: Header)
      requires Valid() && AllNumbered(db) && Numbered(prev) && Numbered(header)
      modifies this`storedSections, this`knownSections, this`cascadedHead, this`sectionHeads, this`countRecord
      ensures Valid()
      ensures Tree(db, genesis) && prev in db && header in db && Rooted(header) && Settled(config, old(State()), prev) ==>
                Settled(config, State(), header)
      ensures Reported(config, old(State()), prev, header, State()) ||
              (State() == old(State()) && !(Tree(db, genesis) && prev in db && header in db))
    {
      var common := FindCommonAncestor(db, prev, header, genesis);
      if common.Some? {
        assert HighestCommon(prev, header, common.value);
        if Settled(config, State(), prev) && Rooted(header) {
          RootedDown(prev, common.value);
          RootedDown(header, common.value);
          ReorgNotice(config, State(), prev, header, common.value.number);
        }
        HandleHead(common.value.number, true);
      }
    }

    /** Handles a chain head event: `prev` was the head before, `header` is the head now. A reorg is reported
        back to the common ancestor. With no section in flight, stored sections that were on the old
        chain are on the new one afterwards. */
    method HandleEvent(prev: Header, header: Header, db: set<Header>, canon: map<nat, Hash>, ghost genesis: Header)
      requires Valid() && AllNumbered(db) && Numbered(prev) && Numbered(header)
      modifies this`storedSections, this`knownSections, this`cascadedHead, this`sectionHeads, this`countRecord
      ensures Valid()
      ensures Tree(db, genesis) && prev in db && header in db && Rooted(header) && canon == Ancestry(header)
              && Settled(config, old(State()), prev) ==>
                Settled(config, State(), header)
      ensures Tree(db, genesis) && prev in db && header in db ==>
                Handled(config, old(State()), prev, header, canon, State())
    {
      if header.parentHash != Of(prev) && Canonical(canon, prev.number) != Of(prev) {
        ReportReorg(prev, header, db, genesis);
      } else if Settled(config, State(), prev) && Rooted(header) && canon == Ancestry(header) {
        OldHeadKept(prev, header);
        ChainGrew(config, State(), prev, header);
      }
      if Settled(config, State(), header) {
        NoticeKeeps(config, State(), header.number, header);
      }
      HandleHead(header.number, false);
    }

    /** Under the lock: picks the next section and the head it must attach to. */
    method BeginUpdate(canonAt: nat -> map<nat, Hash>) returns (job: Option<(nat, Hash)>)
      requires Valid()
      modifies this`storedSections, this`sectionHeads, this`countRecord
      ensures Valid()
      ensures job.Some? <==> old(knownSections > storedSections)
      ensures job.None? ==> State() == old(State())
      ensures job.Some? ==>
                && State() == Verify(old(State()), Reads(config, canonAt))
                && job.value.0 == storedSections
                && Captured(config, State(), job.value.0, job.value.1)
    {
      if knownSections <= storedSections {
        return None;
      }
      VerifyKeeps(config, State(), Reads(config, canonAt));
      VerifyLastHead(canonAt);
      if storedSections > 0 {
        LastHead(config, State());
      }
      return Some((storedSections, if storedSections > 0 then HeadOf(storedSections - 1) else Zero));
    }

    /** Without the lock: reads the headers of a section one by one. The chain may change between any
        two reads: `canonAt(n)` and `dbAt(n)` are what the reads for number `n` happen to see,
        `backendOk(n)` is the backend's verdict on that header and `commitOk` the one on the section. */
    method ProcessHeaders(section: nat, oldHead: Hash, canonAt: nat -> map<nat, Hash>, dbAt: nat -> set<Header>,
                          backendOk: nat -> bool, commitOk: bool)
      returns (newHead: Option<Hash>)
      requires config.size > 0
      requires if section == 0 then oldHead == Zero else EndsSection(config, oldHead, section - 1)
      ensures newHead.Some? ==>
                && EndsSection(config, newHead.value, section)
                && (section > 0 ==> At(newHead.value.header, LastOf(config, section - 1)) == oldHead.header)
      ensures forall h: Header ::
                newHead == Some(Of(h)) <==> commitOk && SectionReads(config, section, oldHead, canonAt, dbAt, backendOk, h)
    {
      var lastHead, number := oldHead, FirstOf(config, section);
      var end := LastOf(config, section);
      while number <= end
        invariant Progress(config, section, oldHead, lastHead, number)
        invariant number == 0 || lastHead.Of?
        invariant number > 0 ==> forall n: nat | FirstOf(config, section) <= n <= lastHead.header.number ::
                    ReadsAt(canonAt, dbAt, backendOk, lastHead.header, n)
        invariant section == 0 < number ==> At(lastHead.header, 0).parentHash == Zero
        invariant forall h: Header | SectionReads(config, section, oldHead, canonAt, dbAt, backendOk, h) ::
                    lastHead == HashBelow(h, number)
        decreases end + 1 - number
      {
        forall h: Header | SectionReads(config, section, oldHead, canonAt, dbAt, backendOk, h)
          ensures ReadNext(dbAt(number), canonAt(number), number, lastHead) == Some(Of(At(h, number))) && backendOk(number)
        {
          assert ReadsAt(canonAt, dbAt, backendOk, h, number);
          NextOnChain(dbAt(number), canonAt(number), h, number);
        }
        var hash := ReadNext(dbAt(number), canonAt(number), number, lastHead);
        if hash.None? || !backendOk(number) {
          return None;
        }
        ReadKeeps(config, dbAt(number), canonAt(number), section, oldHead, lastHead, number);
        if number > 0 {
          ReadsExtend(canonAt, dbAt, backendOk, lastHead.header, hash.value.header, FirstOf(config, section));
        }
        lastHead := hash.value;
        number := number + 1;
      }
      if !commitOk {
        return None;
      }
      return Some(lastHead);
    }

    /** Processes a section. A backend that cannot be reset drops the whole index. The drop runs without the
        lock; this is its effect when no locked operation runs beside it. */
    method ProcessSection(section: nat, oldHead: Hash, resetOk: bool, canonAt: nat -> map<nat, Hash>, dbAt: nat -> set<Header>,
                          backendOk: nat -> bool, commitOk: bool)
      returns (newHead: Option<Hash>)
      requires Valid() && Captured(config, State(), section, oldHead)
      modifies this`storedSections, this`sectionHeads, this`countRecord
      ensures Valid() && Captured(config, State(), section, oldHead)
      ensures State() == if resetOk then old(State()) else SetValid(old(State()), 0)
      ensures newHead.Some? ==> resetOk && Progress(config, section, oldHead, newHead.value, LastOf(config, section) + 1)
      ensures forall h: Header ::
                newHead == Some(Of(h)) <==>
                resetOk && commitOk && SectionReads(config, section, oldHead, canonAt, dbAt, backendOk, h)
    {
      if !resetOk {
        SetValidKeeps(config, State(), 0);
        SetValidSections(0);
        return None;
      }
      newHead := ProcessHeaders(section, oldHead, canonAt, dbAt, backendOk, commitOk);
    }

    /** Under the lock again: commits the section if nothing below it was reorged away. */
    method FinishUpdate(section: nat, oldHead: Hash, newHead: Option<Hash>, canonAt: nat -> map<nat, Hash>)
      requires Valid() && Captured(config, State(), section, oldHead)
      requires newHead.Some? ==> Progress(config, section, oldHead, newHead.value, LastOf(config, section) + 1)
      modifies this
      ensures Valid() && State() == Finish(config, old(State()), section, oldHead, newHead, Reads(config, canonAt))
    {
      FinishKeeps(config, State(), section, oldHead, newHead, Reads(config, canonAt));
      if newHead.Some? && (section == 0 || oldHead == HeadOf(section - 1)) {
        sectionHeads := sectionHeads[section := newHead.value];
        SetValidSections(section + 1);
        LastOfClosed(config, section);
        cascadedHead := storedSections * config.size - 1;
      } else {
        VerifyLastHead(canonAt);
        knownSections := storedSections;
      }
    }

    /** The number of sections a reader may rely on, with the last block of the last one: if the last
        comparison saw the chain that ends in `chain`, all of them are on it. With no section stored the
        block number wraps around. */
    method Sections(canonAt: nat -> map<nat, Hash>, ghost chain: Header) returns (count: nat, lastBlock: nat, head: Hash)
      requires Valid()
      modifies this`storedSections, this`sectionHeads, this`countRecord
      ensures Valid() && State() == Verify(old(State()), Reads(config, canonAt))
      ensures count == storedSections
      ensures count > 0 ==> lastBlock == LastOf(config, count - 1) && head == Canonical(canonAt(count - 1), lastBlock) != Zero
      ensures count == 0 ==> lastBlock == MAX_UINT64 && head == Zero
      ensures Rooted(chain) && (count > 0 ==> canonAt(count - 1) == Ancestry(chain)) ==>
                AllOnChain(config, State(), Ancestry(chain), count)
    {
      ReadersMayRely(config, State(), canonAt, chain);
      VerifyLastHead(canonAt);
      if storedSections > 0 {
        LastOfClosed(config, storedSections - 1);
      }
      return storedSections,
             if storedSections == 0 then MAX_UINT64 else storedSections * config.size - 1,
             HeadOf(Pred(storedSections));
    }
  }
}
