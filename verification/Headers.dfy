/** Headers, an ideal (injective) hash, and the ancestry a header commits to.

    A hash is symbolic: `Of(h)` is the hash of `h`, `Unknown` stands for a value that is the hash of
    no header, `Zero` for the all-zero hash. Two headers with equal hashes are therefore equal, and a
    header fixes its whole ancestry. A block is its header together with the transactions the
    header commits to. */
module Headers {
  import opened Prelude

  type TxHash = nat
  type StateRoot = nat

  datatype Hash = Zero | Unknown(id: nat) | Of(header: Header)

  datatype Header = Header(
    parentHash: Hash,
    number: nat,
    difficulty: nat,
    time: nat,
    root: StateRoot,
    txs: seq<TxHash>)

  /** The parent link of `h` is a header one level below it. */
  predicate HasParent(h: Header) {
    h.parentHash.Of? && h.parentHash.header.number + 1 == h.number
  }

  /** Header validation: a header never claims a number that its parent contradicts. */
  predicate Numbered(h: Header) {
    h.parentHash.Of? ==> h.parentHash.header.number + 1 == h.number
  }

  ghost predicate AllNumbered(db: set<Header>) {
    forall h | h in db :: Numbered(h)
  }

  /** The parent links of `h` lead down to a header numbered zero, one number at a time. */
  predicate Rooted(h: Header) {
    if h.number == 0 then !h.parentHash.Of? else HasParent(h) && Rooted(h.parentHash.header)
  }

  /** Every header above level zero is stored together with its parent. */
  ghost predicate ParentClosed(db: set<Header>) {
    forall h | h in db ::
      if h.number == 0 then !h.parentHash.Of? else HasParent(h) && h.parentHash.header in db
  }

  /** A parent-closed store with a single header at level zero. */
  ghost predicate Tree(db: set<Header>, genesis: Header) {
    && ParentClosed(db)
    && genesis in db
    && genesis.number == 0
    && (forall h | h in db :: h.number == 0 ==> h == genesis)
  }

  /** Database read: headers are keyed by number and hash. */
  function Get(db: set<Header>, hash: Hash, number: nat): (r: Option<Header>)
    ensures r.Some? ==> r.value in db && Of(r.value) == hash && r.value.number == number
    ensures r.None? ==> forall h | h in db :: Of(h) != hash || h.number != number
  {
    if hash.Of? && hash.header in db && hash.header.number == number then Some(hash.header) else None
  }

  /** The canonical marker at `n`; a missing marker reads as the zero hash. */
  function Canonical(canon: map<nat, Hash>, n: nat): Hash {
    if n in canon then canon[n] else Zero
  }

  // ---------------------------------------------------------------- ancestry

  /** The ancestor of `h` numbered `n`. */
  function At(h: Header, n: nat): (a: Header)
    requires Rooted(h) && n <= h.number
    ensures a.number == n && Rooted(a)
  {
    if h.number == n then h else At(h.parentHash.header, n)
  }

  /** `b` is an ancestor of `h`, or `h` itself. */
  predicate OnAncestry(h: Header, b: Header) {
    Rooted(h) && b.number <= h.number && At(h, b.number) == b
  }

  /** The number-to-hash index that holds the ancestors of `h`, `h` included, and nothing else. */
  function Ancestry(h: Header): map<nat, Hash>
    requires Rooted(h)
  {
    map n: nat | n <= h.number :: Of(At(h, n))
  }

  lemma AncestryIs(canon: map<nat, Hash>, h: Header)
    requires Rooted(h)
    requires forall n: nat :: n in canon <==> n <= h.number
    requires forall n: nat | n <= h.number :: canon[n] == Of(At(h, n))
    ensures canon == Ancestry(h)
  {
  }

  /** The sum of the difficulties along the ancestry of `h`. */
  function TotalDifficulty(h: Header): nat {
    h.difficulty + if h.parentHash.Of? then TotalDifficulty(h.parentHash.header) else 0
  }

  function ParentTd(h: Header): nat {
    if h.parentHash.Of? then TotalDifficulty(h.parentHash.header) else 0
  }

  /** The total-difficulty table of a store: every stored header and nothing else. */
  function TdTable(db: set<Header>): map<Hash, nat> {
    map h | h in db :: Of(h) := TotalDifficulty(h)
  }

  lemma TdTableAdd(db: set<Header>, h: Header)
    ensures TdTable(db + {h}) == TdTable(db)[Of(h) := TotalDifficulty(h)]
  {
  }

  lemma {:induction false} AtAt(h: Header, n: nat, m: nat)
    requires Rooted(h) && m <= n <= h.number
    ensures At(At(h, n), m) == At(h, m)
  {
    if n == h.number {
    } else {
      AtAt(h.parentHash.header, n, m);
    }
  }

  lemma {:induction false} AtParent(h: Header, n: nat)
    requires Rooted(h) && 0 < n <= h.number
    ensures HasParent(At(h, n)) && At(h, n).parentHash == Of(At(h, n - 1))
  {
    if n == h.number {
    } else {
      AtParent(h.parentHash.header, n);
    }
  }

  /** The canonical index of an ancestor is the index of its descendant, cut at the ancestor. */
  lemma AncestryCut(h: Header, n: nat)
    requires Rooted(h) && n <= h.number
    ensures Ancestry(At(h, n)) == map m: nat | m in Ancestry(h) && m <= n :: Ancestry(h)[m]
  {
    forall m: nat | m <= n ensures At(At(h, n), m) == At(h, m) {
      AtAt(h, n, m);
    }
  }

  /** A child's index is its parent's index plus the child's own marker. */
  lemma AncestryExtend(h: Header)
    requires Rooted(h) && h.number > 0
    ensures Ancestry(h) == Ancestry(h.parentHash.header)[h.number := Of(h)]
  {
    AncestryCut(h, h.number - 1);
  }

  /** The local reading of the index: any gap-free, parent-linked map that ends at `h` and has no
      marker above it is `Ancestry(h)`, and `Ancestry(h)` is such a map. */
  ghost predicate LinkedPath(canon: map<nat, Hash>, h: Header) {
    && (forall n: nat :: n in canon <==> n <= h.number)
    && canon[h.number] == Of(h)
    && (forall n: nat | n in canon :: canon[n].Of? && canon[n].header.number == n)
    && (forall n: nat | n in canon :: n > 0 ==> canon[n].header.parentHash == canon[n - 1])
    && !canon[0].header.parentHash.Of?
  }

  lemma {:induction false} PathRooted(canon: map<nat, Hash>, h: Header, n: nat)
    requires LinkedPath(canon, h) && n <= h.number
    ensures Rooted(canon[n].header)
  {
    if n == 0 {
    } else {
      PathRooted(canon, h, n - 1);
    }
  }

  lemma {:induction false} PathDown(canon: map<nat, Hash>, h: Header, n: nat)
    requires LinkedPath(canon, h) && n <= h.number
    ensures Rooted(h) && canon[n] == Of(At(h, n))
    decreases h.number - n
  {
    PathRooted(canon, h, h.number);
    if n == h.number {
    } else {
      PathDown(canon, h, n + 1);
      AtParent(h, n + 1);
    }
  }

  lemma {:induction false} PathToAncestry(canon: map<nat, Hash>, h: Header)
    requires LinkedPath(canon, h)
    ensures Rooted(h) && canon == Ancestry(h)
  {
    PathDown(canon, h, h.number);
    forall n: nat | n <= h.number ensures canon[n] == Of(At(h, n)) {
      PathDown(canon, h, n);
    }
    AncestryIs(canon, h);
  }

  lemma {:induction false} AncestryToPath(h: Header)
    requires Rooted(h)
    ensures LinkedPath(Ancestry(h), h)
  {
    forall n: nat | n <= h.number && n > 0 ensures At(h, n).parentHash == Of(At(h, n - 1)) {
      AtParent(h, n);
    }
  }

  lemma {:induction false} PathIsAncestry(canon: map<nat, Hash>, h: Header)
    ensures LinkedPath(canon, h) <==> Rooted(h) && canon == Ancestry(h)
  {
    if LinkedPath(canon, h) {
      PathToAncestry(canon, h);
    } else if Rooted(h) {
      AncestryToPath(h);
    }
  }

  /** In a parent-closed store every header is rooted and all its ancestors are stored. */
  lemma {:induction false} ClosedRooted(db: set<Header>, h: Header)
    requires ParentClosed(db) && h in db
    ensures Rooted(h)
    ensures forall n: nat | n <= h.number :: At(h, n) in db
  {
    if h.number == 0 {
    } else {
      ClosedRooted(db, h.parentHash.header);
    }
  }

  // ---------------------------------------------------------------- walks

  /** `h` reaches `b` by following parent links. */
  predicate Descends(h: Header, b: Header) {
    h == b || (HasParent(h) && Descends(h.parentHash.header, b))
  }

  /** The blocks from `h` down to, not including, `b`. */
  function Segment(h: Header, b: Header): (s: seq<Header>)
    requires Descends(h, b)
    ensures h.number == b.number + |s|
    ensures forall i | 0 <= i < |s| :: s[i].number == h.number - i
    ensures |s| > 0 ==> s[0] == h
  {
    if h == b then [] else [h] + Segment(h.parentHash.header, b)
  }

  lemma {:induction false} DescendsBelow(h: Header, b: Header)
    requires Descends(h, b)
    ensures b.number <= h.number
  {
    if h == b {
    } else {
      DescendsBelow(h.parentHash.header, b);
    }
  }

  /** One more step down lengthens the segment by the block left behind. */
  lemma {:induction false} SegmentStep(h: Header, b: Header)
    requires Descends(h, b) && HasParent(b)
    ensures Descends(h, b.parentHash.header)
    ensures Segment(h, b.parentHash.header) == Segment(h, b) + [b]
  {
    if h != b {
      SegmentStep(h.parentHash.header, b);
      DescendsBelow(h.parentHash.header, b.parentHash.header);
    } else {
      assert Segment(h.parentHash.header, b.parentHash.header) == [];
    }
  }

  lemma {:induction false} DescendsRooted(h: Header, b: Header)
    requires Descends(h, b) && Rooted(b)
    ensures Rooted(h) && b.number <= h.number && At(h, b.number) == b
  {
    if h == b {
    } else {
      DescendsRooted(h.parentHash.header, b);
    }
  }

  lemma {:induction false} RootedDown(h: Header, b: Header)
    requires Rooted(h) && Descends(h, b)
    ensures Rooted(b) && b.number <= h.number && At(h, b.number) == b
  {
    if h == b {
    } else {
      RootedDown(h.parentHash.header, b);
    }
  }

  lemma {:induction false} DescendsUnique(h: Header, b: Header, c: Header)
    requires Descends(h, b) && Descends(h, c) && b.number == c.number
    ensures b == c
  {
    if h == b {
      if h != c { DescendsBelow(h.parentHash.header, c); }
    } else if h == c {
      DescendsBelow(h.parentHash.header, b);
    } else {
      DescendsUnique(h.parentHash.header, b, c);
    }
  }

  lemma {:induction false} SegmentAt(h: Header, b: Header, i: nat)
    requires Descends(h, b) && Rooted(h) && i < |Segment(h, b)|
    ensures Segment(h, b)[i] == At(h, h.number - i)
  {
    if i == 0 {
    } else {
      SegmentAt(h.parentHash.header, b, i - 1);
    }
  }

  /** No block of both chains lies above number `n`. */
  ghost predicate CommonAtMost(a: Header, b: Header, n: nat) {
    forall d: Header | Descends(a, d) && Descends(b, d) :: d.number <= n
  }

  /** `c` is the highest block that both chains contain. */
  ghost predicate HighestCommon(a: Header, b: Header, c: Header) {
    && Descends(a, c) && Descends(b, c)
    && CommonAtMost(a, b, c.number)
  }

  /** While two chains differ at a level, their common blocks lie below it. */
  lemma NotCommonYet(a: Header, b: Header, x: Header, y: Header)
    requires Descends(a, x) && Descends(b, y) && x.number == y.number && x != y
    requires CommonAtMost(a, b, x.number)
    ensures x.number > 0 ==> CommonAtMost(a, b, x.number - 1)
  {
    forall d: Header | Descends(a, d) && Descends(b, d) ensures d.number < x.number {
      if d.number == x.number {
        DescendsUnique(a, d, x);
        DescendsUnique(b, d, y);
      }
    }
  }

  lemma CommonBelowHeads(a: Header, b: Header)
    ensures CommonAtMost(a, b, Min(a.number, b.number))
  {
    forall d: Header | Descends(a, d) && Descends(b, d) ensures d.number <= Min(a.number, b.number) {
      DescendsBelow(a, d);
      DescendsBelow(b, d);
    }
  }
}
