/** The block-hash function of the EVM: ancestor hashes by number, behind a cache that persists between
    queries. */
module BlockHashes {
  import opened Prelude
  import opened Headers

  /** The memoryless answer: walk from the header with hash `hash` and number `number` down to `n`. The
      hash at a number is known without its header; going further needs the header. */
  function Walk(db: set<Header>, hash: Hash, number: nat, n: nat): Hash
    requires n <= number
    decreases number
  {
    if number == n then hash
    else
      var header := Get(db, hash, number);
      if header.None? then Zero else Walk(db, header.value.parentHash, number - 1, n)
  }

  /** The hash of the ancestor of `ref` numbered `n`; zero if `n` is not below `ref` or a header on the
      way is missing. */
  function AncestorHash(db: set<Header>, ref: Header, n: nat): Hash {
    if ref.number <= n then Zero else Walk(db, ref.parentHash, ref.number - 1, n)
  }

  /** The ancestors of `h` from its own number down to just above `n` are stored. */
  ghost predicate StoredDown(db: set<Header>, h: Header, n: nat)
    requires Rooted(h)
  {
    forall m: nat | n < m <= h.number :: At(h, m) in db
  }

  lemma StoredParent(db: set<Header>, h: Header, n: nat)
    requires Rooted(h) && n < h.number
    ensures StoredDown(db, h, n) <==> h in db && StoredDown(db, h.parentHash.header, n)
  {
    var parent := h.parentHash.header;
    if StoredDown(db, h, n) {
      assert At(h, h.number) in db;
      forall m: nat | n < m <= parent.number ensures At(parent, m) in db {
        assert At(h, m) in db;
      }
    }
    if h in db && StoredDown(db, parent, n) {
      forall m: nat | n < m <= h.number ensures At(h, m) in db {
        assert m < h.number ==> At(parent, m) in db;
      }
    }
  }

  /** The walk finds the real ancestor exactly if the headers on the way are stored, and zero otherwise. */
  lemma {:induction false} WalkFindsAncestor(db: set<Header>, h: Header, n: nat)
    requires Rooted(h) && n <= h.number
    ensures Walk(db, Of(h), h.number, n) == if StoredDown(db, h, n) then Of(At(h, n)) else Zero
  {
    if n == h.number {
    } else {
      StoredParent(db, h, n);
      if h in db {
        WalkFindsAncestor(db, h.parentHash.header, n);
      }
    }
  }

  /** The block-hash function on a rooted reference: the hash of the ancestor for a number below the
      reference if the headers between are stored, zero otherwise. */
  lemma AncestorHashIs(db: set<Header>, ref: Header, n: nat)
    requires Rooted(ref)
    ensures AncestorHash(db, ref, n) ==
            if n < ref.number && StoredDown(db, ref.parentHash.header, n) then Of(At(ref, n)) else Zero
  {
    if n < ref.number {
      WalkFindsAncestor(db, ref.parentHash.header, n);
    }
  }

  /** Every header from `number` down to just above `n` is stored. */
  predicate Reaches(db: set<Header>, hash: Hash, number: nat, n: nat)
    requires n <= number
    decreases number
  {
    number == n ||
    (Get(db, hash, number).Some? && Reaches(db, Get(db, hash, number).value.parentHash, number - 1, n))
  }

  lemma {:induction false} ReachesStep(db: set<Header>, hash: Hash, number: nat, n: nat)
    requires 0 < n <= number && Reaches(db, hash, number, n) && Get(db, Walk(db, hash, number, n), n).Some?
    ensures Reaches(db, hash, number, n - 1)
    ensures Walk(db, hash, number, n - 1) == Get(db, Walk(db, hash, number, n), n).value.parentHash
    decreases number
  {
    if n == number {
    } else {
      ReachesStep(db, Get(db, hash, number).value.parentHash, number - 1, n);
    }
  }

  lemma {:induction false} BlockedBelow(db: set<Header>, hash: Hash, number: nat, mid: nat, n: nat)
    requires n < mid <= number && Reaches(db, hash, number, mid) && Get(db, Walk(db, hash, number, mid), mid).None?
    ensures Walk(db, hash, number, n) == Zero
    decreases number
  {
    if mid == number {
    } else {
      BlockedBelow(db, Get(db, hash, number).value.parentHash, number - 1, mid, n);
    }
  }

  class HashCache {
    const ref: Header
    const db: set<Header>
    var cache: seq<Hash>

    /** Slot `i` holds the hash of the ancestor numbered `ref.number - 1 - i`, and its header's ancestors
        above it are stored. */
    ghost predicate Valid()
      reads this
    {
      && |cache| <= ref.number
      && (forall i | 0 <= i < |cache| :: cache[i] == AncestorHash(db, ref, ref.number - 1 - i))
      && (|cache| > 0 ==> Reaches(db, ref.parentHash, ref.number - 1, ref.number - |cache|))
    }

    constructor (ref: Header, db: set<Header>)
      ensures Valid() && this.ref == ref && this.db == db && cache == []
    {
      this.ref, this.db, cache := ref, db, [];
    }

    /** Answers a query. Whatever was asked before, the answer is the memoryless one, and the cache only
        grows. */
    method GetHash(n: nat) returns (hash: Hash)
      requires Valid()
      modifies this
      ensures Valid() && old(cache) <= cache
      ensures hash == AncestorHash(db, ref, n)
    {
      if ref.number <= n {
        return Zero;
      }
      if |cache| == 0 {
        cache := [ref.parentHash];
      }
      var idx := ref.number - n - 1;
      if idx < |cache| {
        return cache[idx];
      }
      var lastKnownHash := cache[|cache| - 1];
      var lastKnownNumber := ref.number - |cache|;
      while true
        invariant Valid() && 0 < |cache| && old(cache) <= cache
        invariant lastKnownNumber == ref.number - |cache| && n < lastKnownNumber
        invariant lastKnownHash == cache[|cache| - 1]
        decreases lastKnownNumber
      {
        var header := Get(db, lastKnownHash, lastKnownNumber);
        if header.None? {
          BlockedBelow(db, ref.parentHash, ref.number - 1, lastKnownNumber, n);
          break;
        }
        ReachesStep(db, ref.parentHash, ref.number - 1, lastKnownNumber);
        cache := cache + [header.value.parentHash];
        lastKnownHash := header.value.parentHash;
        lastKnownNumber := header.value.number - 1;
        if n == lastKnownNumber {
          return lastKnownHash;
        }
      }
      return Zero;
    }
  }
}
