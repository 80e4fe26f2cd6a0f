/** The header chain: importing headers, moving the head, rewinding, and reading ancestors. */
module HeaderChain {
  import opened Prelude
  import opened Headers
  import opened ForkChoice

  datatype ImportError = UnknownAncestor | Aborted | MissingTd | MissingParent

  datatype WriteStatus = NonStat | Canon | Side

  datatype ImportResult = Imported(status: WriteStatus, imported: nat, ignored: nat) | Failed(error: ImportError)

  datatype WriteResult = Written(inserted: nat) | Refused(error: ImportError)

  /** Pending writes to the canonical index; None deletes the marker. */
  type Batch = map<nat, Option<Hash>>

  /** The marker a reader finds at `n` once the batch has been flushed. */
  function Effective(canon: map<nat, Hash>, batch: Batch, n: nat): Hash {
    if n !in batch then Canonical(canon, n) else if batch[n].Some? then batch[n].value else Zero
  }

  function Apply(canon: map<nat, Hash>, batch: Batch): map<nat, Hash> {
    map n | n in canon.Keys + batch.Keys && Effective(canon, batch, n) != Zero :: Effective(canon, batch, n)
  }

  /** A flushed batch leaves the ancestry of `h` when every marker reads as that ancestry says. */
  lemma ApplyIs(canon: map<nat, Hash>, batch: Batch, h: Header)
    requires Rooted(h)
    requires forall n: nat :: Effective(canon, batch, n) == if n <= h.number then Of(At(h, n)) else Zero
    ensures Apply(canon, batch) == Ancestry(h)
  {
    forall n: nat ensures n in Apply(canon, batch) <==> n <= h.number {
      assert Effective(canon, batch, n) == if n <= h.number then Of(At(h, n)) else Zero;
    }
    forall n: nat | n <= h.number ensures Apply(canon, batch)[n] == Of(At(h, n)) {
      assert Effective(canon, batch, n) == Of(At(h, n));
    }
  }

  /** A validated batch of headers: contiguous and parent-linked. */
  ghost predicate Linked(hs: seq<Header>) {
    && (forall i | 0 <= i < |hs| :: Numbered(hs[i]))
    && (forall i, j | 0 <= i < j < |hs| && j == i + 1 :: hs[j].parentHash == Of(hs[i]))
  }

  function Elements(hs: seq<Header>): set<Header> {
    set h | h in hs
  }

  datatype ChainState = ChainState(headers: set<Header>, td: map<Hash, nat>, canon: map<nat, Hash>, head: Header)

  /** The canonical index is exactly the ancestry of the head, and every stored total difficulty is
      the sum of the difficulties along that header's ancestry. */
  ghost predicate Consistent(s: ChainState) {
    && AllNumbered(s.headers)
    && s.head in s.headers
    && Rooted(s.head)
    && s.canon == Ancestry(s.head)
    && s.td == TdTable(s.headers)
  }

  // ---------------------------------------------------------------- linked batches

  lemma {:induction false} LinkedNumbers(hs: seq<Header>, i: nat)
    requires Linked(hs) && i < |hs|
    ensures hs[i].number == hs[0].number + i
  {
    if i == 0 {
    } else {
      LinkedNumbers(hs, i - 1);
    }
  }

  lemma {:induction false} LinkedDescends(hs: seq<Header>, i: nat, j: nat)
    requires Linked(hs) && i <= j < |hs|
    ensures Descends(hs[j], hs[i])
    decreases j - i
  {
    if i == j {
    } else {
      LinkedDescends(hs, i, j - 1);
    }
  }

  /** When the first header of a batch is rooted, each header of the batch sits at its own number on
      the ancestry of the last one. */
  lemma LinkedAt(hs: seq<Header>, i: nat)
    requires Linked(hs) && i < |hs| && Rooted(hs[0])
    ensures var last := hs[|hs| - 1];
            Rooted(last) && hs[i].number <= last.number && At(last, hs[i].number) == hs[i]
  {
    LinkedDescends(hs, 0, i);
    DescendsRooted(hs[i], hs[0]);
    LinkedDescends(hs, i, |hs| - 1);
    DescendsRooted(hs[|hs| - 1], hs[i]);
  }

  lemma TdTableUnion(a: set<Header>, b: set<Header>)
    ensures TdTable(a) + TdTable(b) == TdTable(a + b)
  {
  }

  lemma DistinctLater(hs: seq<Header>, i: nat)
    requires Linked(hs) && i < |hs|
    ensures hs[i] !in hs[..i]
  {
    forall j | 0 <= j < i ensures hs[j] != hs[i] {
      LinkedNumbers(hs, j);
      LinkedNumbers(hs, i);
    }
  }

  /** The headers to store after the first `i` of `hs`. Once one of them is new, so are all later
      ones if the store is parent-closed. */
  ghost predicate Collected(db: set<Header>, closed: bool, hs: seq<Header>, i: nat, added: set<Header>, parentKnown: bool)
    requires i <= |hs|
  {
    && added <= Elements(hs[..i]) <= db + added
    && |added| <= i
    && (parentKnown || (i > 0 && hs[i - 1] in added))
    && (closed ==> added !! db)
  }

  lemma CollectStep(db: set<Header>, closed: bool, hs: seq<Header>, i: nat, added: set<Header>, parentKnown: bool)
    requires Linked(hs) && i < |hs| && Collected(db, closed, hs, i, added, parentKnown)
    requires closed ==> ParentClosed(db)
    ensures |added + {hs[i]}| == |added| + 1
    ensures if parentKnown && hs[i] in db then Collected(db, closed, hs, i + 1, added, true)
            else Collected(db, closed, hs, i + 1, added + {hs[i]}, false)
  {
    assert Elements(hs[..i + 1]) == Elements(hs[..i]) + {hs[i]};
    DistinctLater(hs, i);
    if closed && !parentKnown {
      assert hs[i].parentHash == Of(hs[i - 1]);
    }
  }

  /** How many of the first `n` headers are known ones before the first unknown one. */
  function KnownFirst(db: set<Header>, hs: seq<Header>, n: nat): (k: nat)
    requires n <= |hs|
    ensures k <= n
  {
    if n == 0 then 0
    else
      var k := KnownFirst(db, hs, n - 1);
      if k == n - 1 && hs[n - 1] in db then n else k
  }

  /** The same with the total difficulties of the new headers and their number: all from the first unknown
      one on. */
  ghost predicate Gathered(db: set<Header>, closed: bool, hs: seq<Header>, i: nat, added: set<Header>, tds: map<Hash, nat>,
                           inserted: nat, parentKnown: bool)
    requires i <= |hs|
  {
    && Collected(db, closed, hs, i, added, parentKnown)
    && tds == TdTable(added) && inserted == |added|
    && inserted == i - KnownFirst(db, hs, i) && (parentKnown <==> inserted == 0)
  }

  lemma NextParentTd(hs: seq<Header>, i: nat)
    requires Linked(hs) && i < |hs|
    ensures i + 1 < |hs| ==> ParentTd(hs[i + 1]) == TotalDifficulty(hs[i])
  {
  }

  lemma GatherStep(db: set<Header>, closed: bool, hs: seq<Header>, i: nat, added: set<Header>, tds: map<Hash, nat>,
                   inserted: nat, parentKnown: bool, newTd: nat)
    requires Linked(hs) && i < |hs| && Gathered(db, closed, hs, i, added, tds, inserted, parentKnown)
    requires (closed ==> ParentClosed(db)) && newTd == TotalDifficulty(hs[i])
    ensures if parentKnown && hs[i] in db then Gathered(db, closed, hs, i + 1, added, tds, inserted, true)
            else Gathered(db, closed, hs, i + 1, added + {hs[i]}, tds[Of(hs[i]) := newTd], inserted + 1, false)
  {
    CollectStep(db, closed, hs, i, added, parentKnown);
    TdTableAdd(added, hs[i]);
  }

  /** Importing a linked batch on a known parent keeps the store parent-closed. */
  lemma ClosedAfterImport(db: set<Header>, hs: seq<Header>)
    requires ParentClosed(db) && Linked(hs)
    requires |hs| > 0 && hs[0].parentHash.Of? && hs[0].parentHash.header in db
    ensures ParentClosed(db + Elements(hs))
  {
    var db' := db + Elements(hs);
    forall h | h in db' && h !in db ensures HasParent(h) && h.parentHash.header in db' {
      var i :| 0 <= i < |hs| && hs[i] == h;
      if i > 0 {
        assert hs[i].parentHash == Of(hs[i - 1]);
      }
    }
  }

  /** What a successful import does, whatever the flags and the coin: the headers are stored, and the
      head stays or moves to the last imported header, which then is not ranked below the old head. */
  ghost predicate ImportStep(s: ChainState, s': ChainState, hs: seq<Header>, terminalTd: Option<nat>) {
    && Linked(hs) && |hs| > 0 && hs[0].parentHash in s.td
    && s'.headers == s.headers + Elements(hs)
    && s'.td == TdTable(s'.headers)
    && var last := hs[|hs| - 1];
    && (MustFollow(last, s.head, terminalTd) && !OnAncestry(s.head, last) ==> s'.head == last)
    && (|| (s'.head == s.head && s'.canon == s.canon)
        || (&& s'.head == last && Rooted(last) && s'.canon == Ancestry(last)
            && (MayFinalise(last, terminalTd) || NotWorse(last, s.head))))
  }

  lemma ImportKeeps(s: ChainState, s': ChainState, hs: seq<Header>, terminalTd: Option<nat>)
    requires Consistent(s) && ImportStep(s, s', hs, terminalTd)
    ensures Consistent(s')
    ensures terminalTd.None? ==> NotWorse(s'.head, s.head)
  {
    assert hs[|hs| - 1] in hs;
  }

  lemma {:induction false} AncestorTd(h: Header, n: nat)
    requires Rooted(h) && n <= h.number
    ensures TotalDifficulty(At(h, n)) <= TotalDifficulty(h)
  {
    if n == h.number {
    } else {
      AncestorTd(h.parentHash.header, n);
    }
  }

  /** Over any run of imports the canonical index stays exactly the ancestry of the head, the stored
      total difficulties stay exact, and the head's rank never falls. */
  lemma {:induction false} ImportRun(states: seq<ChainState>, batches: seq<seq<Header>>)
    requires |states| == |batches| + 1
    requires Consistent(states[0])
    requires forall i | 0 <= i < |batches| :: ImportStep(states[i], states[i + 1], batches[i], None)
    ensures Consistent(states[|batches|])
    ensures NotWorse(states[|batches|].head, states[0].head)
    decreases |batches|
  {
    if batches == [] {
    } else {
      var k := |batches| - 1;
      var before := states[..k + 1];
      ImportRun(before, batches[..k]);
      assert before[k] == states[k] && before[0] == states[0];
      ImportKeeps(states[k], states[k + 1], batches[k], None);
    }
  }

  // ---------------------------------------------------------------- rewinding

  function Level(db: set<Header>, n: nat): set<Header> {
    set h | h in db && h.number == n
  }

  function Above(db: set<Header>, n: nat): set<Header> {
    set h | h in db && h.number > n
  }

  predicate Done(h: Header, headBlock: nat, headTime: nat) {
    if headTime > 0 then h.time <= headTime else h.number <= headBlock
  }

  /** The forced header lies below the rewind target. */
  predicate Lowers(forced: Header, headBlock: nat, headTime: nat) {
    if headTime > 0 then forced.time < headTime else forced.number < headBlock
  }

  /** The header at which a rewind from `h` stops. */
  function RewindTarget(h: Header, headBlock: nat, headTime: nat, force: Header -> Option<Header>)
    : (target: Header)
    requires Rooted(h)
    ensures Rooted(target) && target.number <= h.number && At(h, target.number) == target
    decreases h
  {
    if Done(h, headBlock, headTime) || h.number == 0 then h
    else
      var parent := h.parentHash.header;
      var forced := force(parent);
      if forced.Some? && Lowers(forced.value, headBlock, headTime)
      then RewindTarget(parent, forced.value.number, 0, force)
      else RewindTarget(parent, headBlock, headTime, force)
  }

  /** The chain rewound to `target`: an actual rewind drops everything above it on every fork. */
  function Rewound(s: ChainState, target: Header): ChainState
    requires Rooted(target)
  {
    if target == s.head then s
    else
      var kept := s.headers - Above(s.headers, target.number);
      ChainState(kept, TdTable(kept), Ancestry(target), target)
  }

  /** In a parent-closed store there is no gap below an occupied level. */
  lemma LevelsContiguous(db: set<Header>, h: Header, n: nat)
    requires ParentClosed(db) && h in db && n <= h.number
    ensures Level(db, n) != {}
  {
    ClosedRooted(db, h);
    assert At(h, n) in Level(db, n);
  }

  function Hashes(db: set<Header>): set<Hash> {
    set h | h in db :: Of(h)
  }

  /** Deletions gathered by a rewind of `s` that has come down to `target`. */
  ghost predicate Pending(s: ChainState, target: Header, wiped: set<Header>, numbers: set<nat>) {
    && (target == s.head ==> wiped == {} && numbers == {})
    && (target != s.head ==> forall h | h in s.headers :: h in wiped <==> h.number > target.number)
    && (forall n: nat | target.number < n <= s.head.number :: n in numbers)
    && (forall n | n in numbers :: n > target.number)
  }

  /** The only header of a rewind at level zero is the genesis. */
  lemma AtZero(s: ChainState, h: Header, genesis: Header)
    requires Tree(s.headers, genesis) && s.head in s.headers && Rooted(s.head)
    requires h.number <= s.head.number && h == At(s.head, h.number)
    ensures h in s.headers && (h.number == 0 ==> h == genesis)
  {
    ClosedRooted(s.headers, s.head);
  }

  /** `h` is on the chain being rewound. */
  ghost predicate OnRewind(s: ChainState, h: Header) {
    Rooted(h) && Rooted(s.head) && h.number <= s.head.number && h == At(s.head, h.number)
  }

  lemma PendingStep(s: ChainState, h: Header, origin: bool, wiped: set<Header>, numbers: set<nat>,
                    doomed: set<Header>, nums: set<nat>)
    requires OnRewind(s, h) && h.number > 0
    requires Pending(s, h, wiped, numbers) && (origin <==> h == s.head)
    requires forall x | x in s.headers :: x in doomed <==> x.number == h.number || (origin && x.number > h.number)
    requires h.number in nums && forall n | n in nums :: n >= h.number
    ensures HasParent(h) && OnRewind(s, h.parentHash.header) && h.parentHash.header != s.head
    ensures Pending(s, h.parentHash.header, wiped + doomed, numbers + nums)
  {
    AtParent(s.head, h.number);
  }

  lemma TdTableMinus(db: set<Header>, wiped: set<Header>)
    ensures TdTable(db) - Hashes(wiped) == TdTable(db - wiped)
  {
  }

  /** Flushing the deletions of a rewind leaves the rewound chain. */
  lemma FlushedRewind(s: ChainState, target: Header, wiped: set<Header>, numbers: set<nat>)
    requires Consistent(s)
    requires Rooted(target) && target.number <= s.head.number && target == At(s.head, target.number)
    requires Pending(s, target, wiped, numbers)
    ensures ChainState(s.headers - wiped, s.td - Hashes(wiped), s.canon - numbers, target) == Rewound(s, target)
  {
    assert s.canon - numbers == Ancestry(target) by {
      AncestryCut(s.head, target.number);
    }
    if target != s.head {
      assert s.headers - wiped == s.headers - Above(s.headers, target.number);
      TdTableMinus(s.headers, wiped);
    }
  }

  lemma CutClosed(db: set<Header>, n: nat, genesis: Header)
    requires Tree(db, genesis)
    ensures Tree(db - Above(db, n), genesis)
  {
  }

  /** A rewound chain is consistent and still a tree. */
  lemma RewoundConsistent(s: ChainState, target: Header, genesis: Header)
    requires Tree(s.headers, genesis) && Consistent(s)
    requires Rooted(target) && target.number <= s.head.number && target == At(s.head, target.number)
    ensures Tree(Rewound(s, target).headers, genesis) && Consistent(Rewound(s, target))
  {
    ClosedRooted(s.headers, s.head);
    CutClosed(s.headers, target.number, genesis);
  }

  /** A rewind by number stops at the ancestor with that number. */
  lemma {:induction false} RewindToNumber(h: Header, n: nat)
    requires Rooted(h)
    ensures RewindTarget(h, n, 0, _ => None) == if n <= h.number then At(h, n) else h
  {
    if h.number <= n {
    } else {
      RewindToNumber(h.parentHash.header, n);
    }
  }

  /** A rewind by time stops at the highest ancestor that is not younger than the timestamp. */
  lemma {:induction false} RewindToTime(h: Header, n: nat, time: nat)
    requires Rooted(h) && time > 0 && At(h, 0).time <= time
    ensures var target := RewindTarget(h, n, time, _ => None);
            && target.time <= time
            && forall m: nat | target.number < m <= h.number :: At(h, m).time > time
  {
    if h.time <= time {
    } else {
      RewindToTime(h.parentHash.header, n, time);
    }
  }

  /** A rewind to number `n` leaves nothing above `n` on any fork exactly when the head stood above
      `n` or nothing was there to begin with: at or below `n` the rewind does not touch side forks. */
  lemma WipesAboveIff(s: ChainState, n: nat)
    requires Consistent(s)
    ensures var after := Rewound(s, RewindTarget(s.head, n, 0, _ => None));
            Above(after.headers, n) == {} <==> n < s.head.number || Above(s.headers, n) == {}
  {
    RewindToNumber(s.head, n);
  }

  lemma RewindStays(s: ChainState, n: nat, h: Header)
    requires Consistent(s) && s.head.number <= n && h in s.headers && h.number > n
    ensures h in Above(Rewound(s, RewindTarget(s.head, n, 0, _ => None)).headers, n)
  {
    RewindToNumber(s.head, n);
  }

  predicate ChildOf(h: Header, parent: Header) {
    h.parentHash == Of(parent) && h.number == parent.number + 1
  }

  lemma SideForkTree(g: Header, heavy: Header, side: Header, top: Header)
    requires g.number == 0 && !g.parentHash.Of? && ChildOf(heavy, g) && ChildOf(side, g) && ChildOf(top, side)
    ensures Tree({g, heavy, side, top}, g) && AllNumbered({g, heavy, side, top}) && Rooted(heavy)
  {
  }

  /** The case arises: a heavy head at number 1, and a lighter fork whose second header stands at number 2.
      A rewind to number 1 leaves that header in place. */
  lemma SideForkSurvives(g: Header, heavy: Header, side: Header, top: Header)
    requires g.number == 0 && !g.parentHash.Of? && ChildOf(heavy, g) && ChildOf(side, g) && ChildOf(top, side)
    requires heavy.difficulty > side.difficulty + top.difficulty
    ensures Rooted(heavy)
    ensures var db := {g, heavy, side, top};
            var s := ChainState(db, TdTable(db), Ancestry(heavy), heavy);
            && Consistent(s) && Tree(db, g) && MustFollow(heavy, top, None)
            && top in Above(Rewound(s, RewindTarget(heavy, 1, 0, _ => None)).headers, 1)
  {
    SideForkTree(g, heavy, side, top);
    var db := {g, heavy, side, top};
    RewindStays(ChainState(db, TdTable(db), Ancestry(heavy), heavy), 1, top);
  }

  /** An operation on the chain: an import, or a rewind that stops at an ancestor of the head. */
  datatype Operation = Import(hs: seq<Header>, terminalTd: Option<nat>) | Rewind(target: Header)

  ghost predicate Performs(s: ChainState, op: Operation, s': ChainState) {
    match op
    case Import(hs, terminalTd) => ImportStep(s, s', hs, terminalTd)
    case Rewind(target) =>
      && Rooted(s.head) && Rooted(target) && target.number <= s.head.number && target == At(s.head, target.number)
      && s' == Rewound(s, target)
  }

  lemma PerformsKeeps(s: ChainState, op: Operation, s': ChainState, genesis: Header)
    requires Consistent(s) && Tree(s.headers, genesis) && Performs(s, op, s')
    ensures Consistent(s') && Tree(s'.headers, genesis)
  {
    match op
    case Import(hs, terminalTd) =>
      ImportKeeps(s, s', hs, terminalTd);
      ClosedAfterImport(s.headers, hs);
      forall h | h in hs ensures h.number > 0 {
        var i :| 0 <= i < |hs| && hs[i] == h;
        LinkedNumbers(hs, i);
      }
    case Rewind(target) =>
      RewoundConsistent(s, target, genesis);
  }

  /** Over any run of imports and rewinds, in any order, the canonical index is exactly the ancestry of the
      head, the total difficulties are exact, and the store stays one tree. */
  lemma {:induction false} ChainRun(states: seq<ChainState>, ops: seq<Operation>, genesis: Header)
    requires |states| == |ops| + 1
    requires Consistent(states[0]) && Tree(states[0].headers, genesis)
    requires forall i | 0 <= i < |ops| :: Performs(states[i], ops[i], states[i + 1])
    ensures Consistent(states[|ops|]) && Tree(states[|ops|].headers, genesis)
    decreases |ops|
  {
    if ops == [] {
    } else {
      var k := |ops| - 1;
      var before := states[..k + 1];
      ChainRun(before, ops[..k], genesis);
      assert before[k] == states[k];
      PerformsKeeps(states[k], ops[k], states[k + 1], genesis);
    }
  }

  // ---------------------------------------------------------------- ancestor queries

  /** `hash` is the hash of a rooted header numbered `number`. */
  predicate Names(hash: Hash, number: nat) {
    hash.Of? && hash.header.number == number && Rooted(hash.header)
  }

  /** Two chains that share a block share everything below it, so the index answers for both. */
  lemma CanonicalJump(canon: map<nat, Hash>, head: Header, h: Header, n: nat, m: nat)
    requires Rooted(head) && canon == Ancestry(head) && Rooted(h) && m <= n <= h.number
    requires Canonical(canon, n) == Of(At(h, n))
    ensures Canonical(canon, m) == Of(At(h, m))
  {
    AtAt(head, n, m);
    AtAt(h, n, m);
  }

  /** Parent steps a query for the `k`-th ancestor takes before it stands on a canonical block. */
  function OffChainSteps(canon: map<nat, Hash>, h: Header, k: nat): nat
    requires Rooted(h) && k <= h.number
  {
    if k == 0 || Canonical(canon, h.number) == Of(h) then 0
    else 1 + OffChainSteps(canon, h.parentHash.header, k - 1)
  }

  lemma StoredAt(db: set<Header>, h: Header, n: nat)
    requires ParentClosed(db) && h in db && Rooted(h) && n <= h.number
    ensures Get(db, Of(At(h, n)), n) == Some(At(h, n))
  {
    ClosedRooted(db, h);
  }

  lemma OffChainStep(canon: map<nat, Hash>, h: Header, n: nat, k: nat)
    requires Rooted(h) && 0 < k <= n <= h.number && Canonical(canon, n) != Of(At(h, n))
    ensures At(h, n).parentHash == Of(At(h, n - 1))
    ensures OffChainSteps(canon, At(h, n), k) == 1 + OffChainSteps(canon, At(h, n - 1), k - 1)
  {
    AtParent(h, n);
  }

  // ---------------------------------------------------------------- pending index writes

  /** The batch holds the marker of every header of `hs`. */
  ghost predicate Extended(hs: seq<Header>, batch: Batch)
    requires |hs| > 0
  {
    var base := hs[0].number;
    forall n: nat | base <= n < base + |hs| :: n in batch && batch[n] == Some(Of(hs[n - base]))
  }

  /** The batch holds the markers of the blocks from `first` down to, not including, `link`. */
  ghost predicate Walked(first: Header, link: Header, batch: Batch)
    requires Descends(first, link)
  {
    forall n: nat | link.number < n <= first.number :: n in batch && batch[n] == Some(Of(Segment(first, link)[first.number - n]))
  }

  /** The link is canonical already or is a rewritten level zero. */
  predicate LinkHolds(canon: map<nat, Hash>, first: Header, link: Header, batch: Batch) {
    if link == first then link.number == 0 || Canonical(canon, link.number) == Of(link)
    else if link.number in batch then link.number == 0 && batch[0] == Some(Of(link))
    else Canonical(canon, link.number) == Of(link)
  }

  /** The batch holds the markers of the blocks strictly between `first` and `link`. */
  ghost predicate Rewritten(first: Header, link: Header, batch: Batch)
    requires Descends(first, link)
  {
    forall n: nat | link.number < n < first.number :: n in batch && batch[n] == Some(Of(Segment(first, link)[first.number - n]))
  }

  ghost predicate SilentBelow(n: nat, batch: Batch) {
    forall m: nat | m < n :: m !in batch
  }

  /** A finished backward walk: the blocks strictly between `first` and the link are rewritten, below
      the link the batch is silent, and the link holds. */
  ghost predicate Relinked(canon: map<nat, Hash>, first: Header, link: Header, batch: Batch)
    requires Descends(first, link)
  {
    && Rewritten(first, link, batch)
    && SilentBelow(link.number, batch)
    && LinkHolds(canon, first, link, batch)
  }

  lemma RelinkedFrame(canon: map<nat, Hash>, first: Header, link: Header, batch: Batch, batch': Batch)
    requires Descends(first, link) && Relinked(canon, first, link, batch)
    requires forall n: nat | n < first.number :: n in batch <==> n in batch'
    requires forall n: nat | n < first.number && n in batch :: batch[n] == batch'[n]
    ensures Relinked(canon, first, link, batch')
  {
    assert |Segment(first, link)| == first.number - link.number;
    if link != first {
      DescendsBelow(first.parentHash.header, link);
      assert link.number < first.number;
    }
  }

  /** The markers above `top` are all deleted. */
  ghost predicate ClearedAbove(top: nat, head: Header, batch: Batch) {
    && (forall n: nat | n > top :: n in batch <==> n <= head.number)
    && (forall n: nat | n > top && n in batch :: batch[n] == None)
  }

  lemma RewrittenMarker(first: Header, link: Header, batch: Batch, n: nat)
    requires Descends(first, link) && Rooted(first) && Rewritten(first, link, batch) && link.number < n < first.number
    ensures n in batch && batch[n] == Some(Of(At(first, n)))
  {
    SegmentAt(first, link, first.number - n);
  }

  /** The cross link that the walk found is canonical and on the ancestry of `first`. */
  lemma LinkIsCanonical(canon: map<nat, Hash>, first: Header, link: Header, batch: Batch)
    requires Descends(first, link) && Rooted(link) && LinkHolds(canon, first, link, batch)
    requires first.number > 0 && (link == first || link.number !in batch)
    ensures Rooted(first) && link.number <= first.number && Canonical(canon, link.number) == Of(At(first, link.number))
  {
    DescendsRooted(first, link);
  }

  lemma RelinkedBelow(canon: map<nat, Hash>, head: Header, first: Header, link: Header, batch: Batch, n: nat)
    requires Rooted(head) && canon == Ancestry(head)
    requires Descends(first, link) && Rooted(link) && Rooted(first)
    requires SilentBelow(link.number, batch) && LinkHolds(canon, first, link, batch)
    requires n < first.number && n <= link.number
    ensures Effective(canon, batch, n) == Of(At(first, n))
  {
    if link != first && link.number in batch {
      DescendsRooted(first, link);
      assert n == 0;
    } else {
      assert n !in batch;
      LinkIsCanonical(canon, first, link, batch);
      CanonicalJump(canon, head, first, link.number, n);
    }
  }

  lemma RelinkedMarker(canon: map<nat, Hash>, head: Header, first: Header, link: Header, batch: Batch, n: nat)
    requires Rooted(head) && canon == Ancestry(head)
    requires Descends(first, link) && Rooted(link) && Rooted(first) && Relinked(canon, first, link, batch)
    requires n < first.number
    ensures Effective(canon, batch, n) == Of(At(first, n))
  {
    if link.number < n {
      RewrittenMarker(first, link, batch, n);
    } else {
      RelinkedBelow(canon, head, first, link, batch, n);
    }
  }

  lemma ImportedMarker(hs: seq<Header>, batch: Batch, n: nat)
    requires |hs| > 0 && Linked(hs) && Rooted(hs[0]) && Extended(hs, batch)
    requires hs[0].number <= n <= hs[|hs| - 1].number
    ensures Rooted(hs[|hs| - 1]) && n in batch && batch[n] == Some(Of(At(hs[|hs| - 1], n)))
  {
    LinkedNumbers(hs, |hs| - 1);
    LinkedNumbers(hs, n - hs[0].number);
    LinkedAt(hs, n - hs[0].number);
  }

  lemma BelowImport(hs: seq<Header>, n: nat)
    requires |hs| > 0 && Linked(hs) && Rooted(hs[0]) && n <= hs[0].number
    ensures Rooted(hs[|hs| - 1]) && n <= hs[|hs| - 1].number && At(hs[|hs| - 1], n) == At(hs[0], n)
  {
    LinkedAt(hs, 0);
    AtAt(hs[|hs| - 1], hs[0].number, n);
  }

  /** The effect of a batch that combines the three parts of a reorg. */
  lemma ReorgedIndex(canon: map<nat, Hash>, head: Header, hs: seq<Header>, link: Header, batch: Batch)
    requires |hs| > 0 && Linked(hs) && Rooted(head) && canon == Ancestry(head)
    requires Descends(hs[0], link) && Rooted(link)
    requires Relinked(canon, hs[0], link, batch)
    requires Extended(hs, batch)
    requires ClearedAbove(hs[|hs| - 1].number, head, batch)
    ensures Rooted(hs[|hs| - 1]) && Apply(canon, batch) == Ancestry(hs[|hs| - 1])
  {
    var first, last := hs[0], hs[|hs| - 1];
    DescendsRooted(first, link);
    LinkedAt(hs, 0);
    forall n: nat
      ensures Effective(canon, batch, n) == if n <= last.number then Of(At(last, n)) else Zero
    {
      if first.number <= n <= last.number {
        ImportedMarker(hs, batch, n);
      } else if n < first.number {
        BelowImport(hs, n);
        RelinkedMarker(canon, head, first, link, batch, n);
      }
    }
    ApplyIs(canon, batch, last);
  }

  /** The index after the batch of an import on top of the current head. */
  lemma ExtendedIndex(canon: map<nat, Hash>, head: Header, hs: seq<Header>, batch: Batch)
    requires |hs| > 0 && Linked(hs) && Rooted(head) && canon == Ancestry(head)
    requires hs[0].parentHash == Of(head)
    requires Extended(hs, batch)
    requires forall n: nat | n in batch :: hs[0].number <= n < hs[0].number + |hs|
    ensures Rooted(hs[|hs| - 1]) && Apply(canon, batch) == Ancestry(hs[|hs| - 1])
  {
    var first, last := hs[0], hs[|hs| - 1];
    assert Numbered(first);
    LinkedNumbers(hs, |hs| - 1);
    LinkedAt(hs, 0);
    forall n: nat
      ensures Effective(canon, batch, n) == if n <= last.number then Of(At(last, n)) else Zero
    {
      if first.number <= n <= last.number {
        ImportedMarker(hs, batch, n);
      } else if n < first.number {
        BelowImport(hs, n);
      }
    }
    ApplyIs(canon, batch, last);
  }

  /** They are known, and the one behind them is not. */
  lemma {:induction false} KnownFirstMeans(db: set<Header>, hs: seq<Header>, n: nat)
    requires n <= |hs|
    ensures var k := KnownFirst(db, hs, n);
            (forall j | 0 <= j < k :: hs[j] in db) && (k < n ==> hs[k] !in db)
  {
    if n == 0 {
    } else {
      KnownFirstMeans(db, hs, n - 1);
    }
  }

  class HeaderChain {
    var headers: set<Header>
    var td: map<Hash, nat>
    var canon: map<nat, Hash>
    var headHeaderHash: Hash
    var currentHeader: Header
    var currentHeaderHash: Hash
    const genesisHeader: Header

    ghost function State(): ChainState
      reads this
    {
      ChainState(headers, td, canon, currentHeader)
    }

    ghost predicate Valid()
      reads this
    {
      && Consistent(State())
      && currentHeaderHash == Of(currentHeader)
      && headHeaderHash == currentHeaderHash
    }

    constructor (genesis: Header)
      requires genesis.number == 0 && !genesis.parentHash.Of?
      ensures Valid() && Tree(headers, genesis)
      ensures currentHeader == genesis && genesisHeader == genesis
    {
      headers := {genesis};
      td := map[Of(genesis) := genesis.difficulty];
      canon := map[0 := Of(genesis)];
      headHeaderHash, currentHeaderHash := Of(genesis), Of(genesis);
      currentHeader, genesisHeader := genesis, genesis;
    }

    /** Batched deletion of the markers above `n`, up to the first gap. */
    method DeleteAbove(n: nat) returns (batch: Batch)
      requires Rooted(currentHeader) && canon == Ancestry(currentHeader)
      ensures forall m: nat :: m in batch <==> n < m <= currentHeader.number
      ensures forall m: nat | m in batch :: batch[m] == None
    {
      batch := map[];
      var i := n + 1;
      while Canonical(canon, i) != Zero
        invariant n < i
        invariant i <= currentHeader.number + 1 || i == n + 1
        invariant forall m: nat :: m in batch <==> n < m < i
        invariant forall m: nat | m in batch :: batch[m] == None
        decreases currentHeader.number + 1 - i
      {
        batch := batch[i := None];
        i := i + 1;
      }
    }

    /** Rewrites the markers from `first` down to the block where its chain meets the canonical one. None when
        a parent is missing from the store. */
    method RelinkBackwards(first: Header, pending: Batch) returns (batch: Option<Batch>, link: Header)
      requires Rooted(currentHeader) && canon == Ancestry(currentHeader)
      requires AllNumbered(headers) && first in headers
      requires forall n: nat | n in pending :: n > first.number
      ensures ParentClosed(headers) ==> batch.Some?
      ensures batch.Some? ==>
                && Descends(first, link) && Rooted(link)
                && Relinked(canon, first, link, batch.value)
                && (forall n: nat | n > first.number :: n in batch.value <==> n in pending)
                && (forall n: nat | n in pending :: batch.value[n] == pending[n])
    {
      link := first;
      var relinked: Batch, headNumber, headHash := pending, first.number, Of(first);
      while Canonical(canon, headNumber) != headHash
        invariant link in headers && headNumber == link.number && headHash == Of(link)
        invariant Descends(first, link) && Walked(first, link, relinked)
        invariant forall n: nat | n <= link.number :: n !in relinked
        invariant forall n: nat | n > first.number :: n in relinked <==> n in pending
        invariant forall n: nat | n in pending :: relinked[n] == pending[n]
        decreases headNumber
      {
        relinked := relinked[headNumber := Some(headHash)];
        if headNumber == 0 {
          break;
        }
        var parent := Get(headers, link.parentHash, link.number - 1);
        if parent.None? {
          return None, link;
        }
        SegmentStep(first, link);
        headHash, headNumber := link.parentHash, link.number - 1;
        link := parent.value;
      }
      batch := Some(relinked);
    }

    /** Adds the markers of the imported headers to the batch. */
    method Extend(pending: Batch, hs: seq<Header>) returns (batch: Batch)
      requires |hs| > 0 && Linked(hs)
      ensures Extended(hs, batch)
      ensures forall n: nat | !(hs[0].number <= n < hs[0].number + |hs|) :: n in batch <==> n in pending
      ensures forall n: nat | n in pending && !(hs[0].number <= n < hs[0].number + |hs|) :: batch[n] == pending[n]
    {
      batch := pending;
      var base := hs[0].number;
      for i := 0 to |hs| - 1
        invariant forall n: nat | base <= n < base + i :: n in batch && batch[n] == Some(Of(hs[n - base]))
        invariant forall n: nat | !(base <= n < base + i) :: n in batch <==> n in pending
        invariant forall n: nat | n in pending && !(base <= n < base + i) :: batch[n] == pending[n]
      {
        LinkedNumbers(hs, i);
        batch := batch[hs[i].number := Some(hs[i + 1].parentHash)];
      }
      LinkedNumbers(hs, |hs| - 1);
      batch := batch[hs[|hs| - 1].number := Some(Of(hs[|hs| - 1]))];
    }

    /** The pending index writes of `Reorg`; they are computed against the live index. */
    method ReorgBatch(hs: seq<Header>) returns (pending: Option<Batch>)
      requires Rooted(currentHeader) && canon == Ancestry(currentHeader) && currentHeaderHash == Of(currentHeader)
      requires AllNumbered(headers) && |hs| > 0 && Linked(hs) && hs[0] in headers
      ensures ParentClosed(headers) ==> pending.Some?
      ensures pending.Some? ==>
                Rooted(hs[|hs| - 1]) && Apply(canon, pending.value) == Ancestry(hs[|hs| - 1])
    {
      var first, last := hs[0], hs[|hs| - 1];
      LinkedNumbers(hs, |hs| - 1);
      var batch: Batch := map[];
      if first.parentHash != currentHeaderHash {
        batch := DeleteAbove(last.number);
        var walk, link := RelinkBackwards(first, batch);
        if walk.None? {
          return None;
        }
        batch := Extend(walk.value, hs);
        RelinkedFrame(canon, first, link, walk.value, batch);
        ReorgedIndex(canon, currentHeader, hs, link, batch);
      } else {
        batch := Extend(batch, hs);
        ExtendedIndex(canon, currentHeader, hs, batch);
      }
      pending := Some(batch);
    }

    /** Makes `hs` the top of the canonical chain. On success the canonical index is exactly the
        ancestry of the last header, whichever path was taken; on failure nothing was written. */
    method Reorg(hs: seq<Header>) returns (err: Option<ImportError>)
      requires Valid() && Linked(hs)
      requires forall h | h in hs :: h in headers
      modifies this`canon, this`headHeaderHash, this`currentHeader, this`currentHeaderHash
      ensures Valid()
      ensures ParentClosed(headers) ==> err.None?
      ensures err.Some? ==> err.value == MissingParent
      ensures err.Some? || hs == [] ==> State() == old(State())
      ensures err.None? && hs != [] ==>
                && currentHeader == hs[|hs| - 1]
                && Rooted(currentHeader)
                && canon == Ancestry(currentHeader)
    {
      if |hs| == 0 {
        return None;
      }
      var batch := ReorgBatch(hs);
      if batch.None? {
        return Some(MissingParent);
      }
      canon := Apply(canon, batch.value);
      headHeaderHash := Of(hs[|hs| - 1]);
      currentHeaderHash := Of(hs[|hs| - 1]);
      currentHeader := hs[|hs| - 1];
      err := None;
    }

    /** The import loop: headers to store, with the running total difficulty of each. */
    method CollectUnknown(hs: seq<Header>) returns (newHeaders: set<Header>, newTds: map<Hash, nat>, inserted: nat)
      requires Linked(hs) && |hs| > 0 && td == TdTable(headers) && hs[0].parentHash in td
      ensures exists known :: Gathered(headers, ParentClosed(headers), hs, |hs|, newHeaders, newTds, inserted, known)
    {
      var newTd := td[hs[0].parentHash];
      newHeaders, newTds, inserted := {}, map[], 0;
      var parentKnown := true;
      ghost var closed := ParentClosed(headers);
      for i := 0 to |hs|
        invariant i < |hs| ==> newTd == ParentTd(hs[i])
        invariant Gathered(headers, closed, hs, i, newHeaders, newTds, inserted, parentKnown)
      {
        var header := hs[i];
        newTd := newTd + header.difficulty;
        assert newTd == TotalDifficulty(header);
        var alreadyKnown := parentKnown && header in headers;
        GatherStep(headers, closed, hs, i, newHeaders, newTds, inserted, parentKnown, newTd);
        if !alreadyKnown {
          newTds := newTds[Of(header) := newTd];
          newHeaders := newHeaders + {header};
          inserted := inserted + 1;
        }
        parentKnown := alreadyKnown;
        NextParentTd(hs, i);
      }
    }

    /** Stores a batch of headers with their total difficulties; the head does not move. Headers that
        are already known are skipped, yet every stored total difficulty is exact. */
    method WriteHeaders(hs: seq<Header>, interrupted: bool) returns (r: WriteResult)
      requires Valid() && Linked(hs)
      modifies this`headers, this`td
      ensures Valid()
      ensures r.Refused? ==> State() == old(State())
      ensures r.Refused? <==> hs != [] && (interrupted || hs[0].parentHash !in old(td))
      ensures r.Written? ==> headers == old(headers) + Elements(hs)
      ensures r.Written? ==> r.inserted == |hs| - KnownFirst(old(headers), hs, |hs|)
      ensures r.Written? && old(ParentClosed(headers)) ==>
                ParentClosed(headers) && r.inserted == |headers| - |old(headers)|
    {
      if |hs| == 0 {
        return Written(0);
      }
      if hs[0].parentHash !in td {
        return Refused(UnknownAncestor);
      }
      var newHeaders, newTds, inserted := CollectUnknown(hs);
      if interrupted {
        return Refused(Aborted);
      }
      assert hs[..|hs|] == hs;
      TdTableUnion(headers, newHeaders);
      if ParentClosed(headers) {
        ClosedAfterImport(headers, hs);
      }
      headers := headers + newHeaders;
      td := td + newTds;
      return Written(inserted);
    }

    function StoredTd(hash: Hash): Option<nat>
      reads this
    {
      if hash in td then Some(td[hash]) else None
    }

    /** Moves the head to the last of the stored headers `hs` if the fork choice prefers it. */
    method FollowIfPreferred(hs: seq<Header>, terminalTd: Option<nat>, preserve: Header -> bool, draw: bool)
      returns (status: WriteStatus, err: Option<ImportError>)
      requires Valid() && Linked(hs) && |hs| > 0
      requires forall h | h in hs :: h in headers
      modifies this`canon, this`headHeaderHash, this`currentHeader, this`currentHeaderHash
      ensures Valid()
      ensures ParentClosed(headers) ==> err.None?
      ensures err.Some? ==> err.value == MissingParent
      ensures err.Some? || status != Canon ==> State() == old(State())
      ensures err.None? && status == Canon ==>
                && currentHeader == hs[|hs| - 1]
                && (MayFinalise(currentHeader, terminalTd) || NotWorse(currentHeader, old(currentHeader)))
      ensures err.None? ==>
                var last, head := hs[|hs| - 1], old(currentHeader);
                status == if !Wins(last, head, terminalTd, preserve, draw) then Side
                          else if OnAncestry(head, last) then NonStat
                          else Canon
    {
      var last := hs[|hs| - 1];
      assert last in hs;
      status, err := Side, None;
      var needed := ReorgNeeded(
        Candidate(StoredTd(Of(currentHeader)), currentHeader.number, preserve(currentHeader)),
        Candidate(StoredTd(Of(last)), last.number, preserve(last)), terminalTd, draw);
      ChoosesWinner(last, currentHeader, terminalTd, preserve, draw);
      if needed == Some(true) {
        if Canonical(canon, last.number) == Of(last) && last.number <= currentHeader.number {
          // Nothing to move: the last header is canonical.
          status := NonStat;
        } else {
          status := Canon;
          err := Reorg(hs);
        }
      }
    }

    /** Imports a batch and moves the head to its last header if the fork choice says so. */
    method WriteHeadersAndSetHead(hs: seq<Header>, terminalTd: Option<nat>, preserve: Header -> bool, draw: bool,
                                  interrupted: bool)
      returns (r: ImportResult)
      requires Valid() && Linked(hs) && |hs| > 0
      modifies this
      ensures Valid()
      ensures r.Imported? ==> ImportStep(old(State()), State(), hs, terminalTd)
      ensures r.Imported? && old(ParentClosed(headers)) ==>
                && ParentClosed(headers)
                && r.imported == |headers| - |old(headers)|
      ensures r.Imported? ==> r.imported + r.ignored == |hs| && r.ignored == KnownFirst(old(headers), hs, |hs|)
      ensures r.Imported? && r.status == Canon ==> currentHeader == hs[|hs| - 1]
      ensures r.Imported? && r.status != Canon ==> currentHeader == old(currentHeader)
      ensures r.Imported? ==>
                var last, head := hs[|hs| - 1], old(currentHeader);
                var wins := Wins(last, head, terminalTd, preserve, draw);
                && (r.status == Canon <==> wins && !OnAncestry(head, last))
                && (r.status == Side <==> !wins && r.imported > 0)
      ensures r.Failed? ==> currentHeader == old(currentHeader) && canon == old(canon)
      ensures r.Failed? && r.error != MissingParent ==> State() == old(State())
      ensures !interrupted && old(ParentClosed(headers)) && hs[0].parentHash in old(td) ==> r.Imported?
    {
      var written := WriteHeaders(hs, interrupted);
      if written.Refused? {
        return Failed(written.error);
      }
      assert hs[|hs| - 1] in hs;
      var ignored := |hs| - written.inserted;
      var choice, err := FollowIfPreferred(hs, terminalTd, preserve, draw);
      if err.Some? {
        return Failed(err.value);
      }
      return Imported(if choice == Side && written.inserted == 0 then NonStat else choice, written.inserted, ignored);
    }

    /** Steps back from a block until it stands on a canonical one or has gone all the way; `link` is where
        it stopped. */
    method WalkToCanonical(hash: Hash, number: nat, ancestor: nat, budget: nat)
      returns (found: bool, ancestorHash: Hash, budget': nat, link: nat)
      requires ancestor <= number
      ensures found ==> number - ancestor <= link <= number
      ensures found && Names(hash, number) ==>
                if link == number - ancestor then ancestorHash == Of(At(hash.header, link))
                else Canonical(canon, link) == Of(At(hash.header, link)) && ancestorHash == Canonical(canon, number - ancestor)
      ensures Get(headers, hash, number).None? && Canonical(canon, number) != hash && ancestor > 0 ==> !found
      ensures ParentClosed(headers) && Names(hash, number) && hash.header in headers ==>
                var steps := OffChainSteps(canon, hash.header, ancestor);
                && (found <==> steps <= budget)
                && budget' == if steps <= budget then budget - steps else 0
    {
      ghost var named := Names(hash, number);
      ghost var stored := named && hash.header in headers && ParentClosed(headers);
      var hash', left: nat := hash, ancestor;
      budget', link := budget, number;
      while left != 0
        invariant left <= link <= number && number - ancestor == link - left
        invariant named ==> hash' == Of(At(hash.header, link))
        invariant left == ancestor ==> hash' == hash && link == number
        invariant left < ancestor ==> Get(headers, hash, number).Some?
        invariant budget' <= budget
        invariant named ==> OffChainSteps(canon, hash.header, ancestor) ==
                            budget - budget' + OffChainSteps(canon, At(hash.header, link), left)
      {
        if Canonical(canon, link) == hash' {
          return true, Canonical(canon, link - left), budget', link;
        }
        if budget' == 0 {
          return false, Zero, budget', link;
        }
        budget' := budget' - 1;
        var header := Get(headers, hash', link);
        if header.None? {
          if stored {
            StoredAt(headers, hash.header, link);
          }
          return false, Zero, budget', link;
        }
        if named {
          OffChainStep(canon, hash.header, link, left);
        }
        left := left - 1;
        hash' := header.value.parentHash;
        link := link - 1;
      }
      return true, hash', budget', link;
    }

    /** The `ancestor`-th ancestor of a block: walks parents until it meets the canonical chain, then
        jumps. `budget` limits the blocks visited off the canonical chain. */
    method GetAncestor(hash: Hash, number: nat, ancestor: nat, budget: nat)
      returns (ancestorHash: Hash, ancestorNumber: nat, budget': nat)
      requires Rooted(currentHeader) && canon == Ancestry(currentHeader)
      ensures ancestorHash != Zero && Names(hash, number) ==>
                && ancestor <= number
                && ancestorHash == Of(At(hash.header, number - ancestor))
                && ancestorNumber == number - ancestor
      ensures ancestorHash == Zero && Names(hash, number) ==> ancestorNumber == 0
      ensures ancestor > number || ancestor == 1 ==> budget' == budget
      ensures ancestor > number ==> ancestorHash == Zero
      ensures Get(headers, hash, number).None? && Canonical(canon, number) != hash && ancestor > 0 ==>
                ancestorHash == Zero
      ensures ParentClosed(headers) && Names(hash, number) && hash.header in headers && ancestor <= number ==>
                var steps := OffChainSteps(canon, hash.header, ancestor);
                && (ancestorHash != Zero <==> steps <= budget || ancestor == 1)
                && (ancestor != 1 ==> budget' == if steps <= budget then budget - steps else 0)
    {
      budget' := budget;
      if ancestor > number {
        return Zero, 0, budget';
      }
      if ancestor == 1 {
        var header := Get(headers, hash, number);
        if header.Some? {
          return header.value.parentHash, number - 1, budget';
        }
        return Zero, 0, budget';
      }
      var found, link;
      found, ancestorHash, budget', link := WalkToCanonical(hash, number, ancestor, budget);
      if !found {
        return Zero, 0, budget';
      }
      if Names(hash, number) && link > number - ancestor {
        CanonicalJump(canon, currentHeader, hash.header, link, number - ancestor);
      }
      ancestorNumber := number - ancestor;
    }

    /** The part of the state a rewind leaves alone until its final flush, and the head so far. */
    ghost predicate Rewinding(s: ChainState, wiped: set<Header>, numbers: set<nat>)
      reads this
    {
      && headers == s.headers && td == s.td && canon == s.canon
      && currentHeaderHash == Of(currentHeader) && headHeaderHash == currentHeaderHash
      && OnRewind(s, currentHeader)
      && Pending(s, currentHeader, wiped, numbers)
    }

    /** Flushes the deletions gathered by a rewind. */
    method Flush(ghost s: ChainState, wiped: set<Header>, numbers: set<nat>)
      requires Rewinding(s, wiped, numbers) && Consistent(s) && Tree(s.headers, genesisHeader)
      modifies this`headers, this`td, this`canon
      ensures Valid() && Tree(headers, genesisHeader)
      ensures State() == Rewound(s, currentHeader)
    {
      FlushedRewind(s, currentHeader, wiped, numbers);
      RewoundConsistent(s, currentHeader, genesisHeader);
      headers := headers - wiped;
      td := td - Hashes(wiped);
      canon := canon - numbers;
    }

    /** Moves the head to its parent, lowering the target when the block level demands it. */
    method StepBack(ghost s: ChainState, ghost wiped: set<Header>, ghost numbers: set<nat>, headBlock: nat, headTime: nat,
                    force: Header -> Option<Header>)
      returns (headBlock': nat, headTime': nat)
      requires Rewinding(s, wiped, numbers) && ParentClosed(headers) && s.head in headers
      requires currentHeader.number > 0 && !Done(currentHeader, headBlock, headTime)
      modifies this`currentHeader, this`currentHeaderHash, this`headHeaderHash
      ensures Of(currentHeader) == old(currentHeader).parentHash && Rooted(currentHeader)
      ensures currentHeaderHash == Of(currentHeader) && headHeaderHash == currentHeaderHash
      ensures RewindTarget(currentHeader, headBlock', headTime', force) ==
              old(RewindTarget(currentHeader, headBlock, headTime, force))
      ensures headTime' == 0 || headTime' == headTime
    {
      ClosedRooted(headers, s.head);
      var stored := Get(headers, currentHeader.parentHash, Pred(currentHeader.number));
      var parent := if stored.Some? then stored.value else genesisHeader;
      headBlock', headTime' := headBlock, headTime;
      var forced := force(parent);
      if forced.Some? && Lowers(forced.value, headBlock, headTime) {
        headBlock', headTime' := forced.value.number, 0;
      }
      headHeaderHash := Of(parent);
      currentHeader := parent;
      currentHeaderHash := Of(parent);
    }

    /** The consecutive levels above `num` that hold any header, highest first. */
    method LevelsAbove(num: nat) returns (nums: seq<nat>)
      requires ParentClosed(headers)
      ensures forall n | n in nums :: n > num && Level(headers, n) != {}
      ensures forall h | h in headers && h.number > num :: h.number in nums
    {
      nums := [];
      var n := num + 1;
      while Level(headers, n) != {}
        invariant n > num
        invariant forall m: nat :: m in nums <==> num < m < n
        invariant forall m | m in nums :: Level(headers, m) != {}
        decreases Above(headers, n - 1)
      {
        var h :| h in Level(headers, n);
        assert h in Above(headers, n - 1) && h !in Above(headers, n);
        nums := [n] + nums;
        n := n + 1;
      }
      forall h | h in headers && h.number > num ensures h.number in nums {
        if n <= h.number {
          LevelsContiguous(headers, h, n);
        }
      }
    }

    /** The headers of all forks on the given levels. */
    method DeleteLevels(nums: seq<nat>, hdr: Header) returns (wiped: set<Header>)
      requires forall n | n in nums && Level(headers, n) == {} :: n == hdr.number
      ensures forall h | h in headers :: h in wiped <==> h.number in nums
    {
      wiped := {};
      for i := 0 to |nums|
        invariant forall h | h in headers :: h in wiped <==> h.number in nums[..i]
      {
        var hashes := Level(headers, nums[i]);
        if hashes == {} {
          // No fork is listed for the level: fall back to the header itself.
          hashes := {hdr};
        }
        wiped := wiped + hashes;
      }
      assert nums[..|nums|] == nums;
    }

    /** What one rewind step off `hdr` deletes: all forks on its level and, on the first step, all
        leftover data above it. */
    method Doomed(hdr: Header, origin: bool) returns (wiped: set<Header>, numbers: set<nat>)
      requires ParentClosed(headers) && hdr in headers
      ensures forall h | h in headers :: h in wiped <==> h.number == hdr.number || (origin && h.number > hdr.number)
      ensures hdr.number in numbers
      ensures forall n | n in numbers :: n >= hdr.number
    {
      var nums := [];
      if origin {
        nums := LevelsAbove(hdr.number);
      }
      nums := nums + [hdr.number];
      assert hdr in Level(headers, hdr.number);
      wiped := DeleteLevels(nums, hdr);
      numbers := set n | n in nums;
    }

    /** One step of a rewind: the head moves down and the deletions for the level left are gathered. */
    method RewindStep(ghost s: ChainState, wiped: set<Header>, numbers: set<nat>, origin: bool, headBlock: nat, headTime: nat,
                      force: Header -> Option<Header>)
      returns (headBlock': nat, headTime': nat, wiped': set<Header>, numbers': set<nat>)
      requires Rewinding(s, wiped, numbers) && ParentClosed(headers) && s.head in headers && currentHeader in headers
      requires currentHeader.number > 0 && !Done(currentHeader, headBlock, headTime)
      requires origin <==> currentHeader == s.head
      modifies this`currentHeader, this`currentHeaderHash, this`headHeaderHash
      ensures Rewinding(s, wiped', numbers')
      ensures currentHeader.number < old(currentHeader).number && currentHeader != s.head
      ensures RewindTarget(currentHeader, headBlock', headTime', force) ==
              old(RewindTarget(currentHeader, headBlock, headTime, force))
      ensures headTime' == 0 || headTime' == headTime
    {
      var hdr := currentHeader;
      headBlock', headTime' := StepBack(s, wiped, numbers, headBlock, headTime, force);
      var doomed, nums := Doomed(hdr, origin);
      PendingStep(s, hdr, origin, wiped, numbers, doomed, nums);
      wiped', numbers' := wiped + doomed, numbers + nums;
    }

    /** Rewinds the chain to a block number, or to a timestamp when `headTime` is positive. `force` is
        the block-level verdict on a candidate head: a header it must not stay above. False is the
        refusal to go below the genesis timestamp. */
    method SetHead(headBlock: nat, headTime: nat, force: Header -> Option<Header>) returns (ok: bool)
      requires Valid() && Tree(headers, genesisHeader)
      modifies this
      ensures Valid() && Tree(headers, genesisHeader)
      ensures !ok <==> headTime > 0 && genesisHeader.time > headTime
      ensures !ok ==> State() == old(State())
      ensures ok ==> State() == Rewound(old(State()), RewindTarget(old(currentHeader), headBlock, headTime, force))
    {
      if headTime > 0 && genesisHeader.time > headTime {
        return false;
      }
      var target, time, origin := headBlock, headTime, true;
      var wiped: set<Header>, numbers: set<nat> := {}, {};
      while !Done(currentHeader, target, time)
        invariant Rewinding(old(State()), wiped, numbers)
        invariant origin <==> currentHeader == old(currentHeader)
        invariant time > 0 ==> genesisHeader.time <= time
        invariant RewindTarget(currentHeader, target, time, force) ==
                  RewindTarget(old(currentHeader), headBlock, headTime, force)
        decreases currentHeader.number
      {
        AtZero(old(State()), currentHeader, genesisHeader);
        target, time, wiped, numbers := RewindStep(old(State()), wiped, numbers, origin, target, time, force);
        origin := false;
      }
      Flush(old(State()), wiped, numbers);
      return true;
    }
  }
}
