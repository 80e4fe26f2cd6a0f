/** Runs of the section indexer: operations that nobody disturbs compute what the object computes, a query
    settles the table whatever the chain does meanwhile, and the worker catches up with the chain. */
module IndexerRuns {
  import opened Prelude
  import opened Headers
  import opened ChainIndexer
  import opened IndexerProtocol

  // ---------------------------------------------------------------- the trimming loop

  /** The table without the heads from `m` up to the counter, the count on disk aside. */
  function Cut(ix: Index, m: nat): Index {
    SetValid(ix, m).(count := ix.count)
  }

  /** The party that steps by `e` is at the head of its loop down to `target`. */
  predicate AtLoop(s: System, e: Event, target: nat) {
    || (e.Proceed? && s.lock.Trimming? && s.lock.target == target && s.lock.at.Test?)
    || (e.Drop? && s.worker == Dropping(Test) && target == 0)
  }

  lemma ThreeSteps(c: Config, s: System, s1: System, s2: System, e: Event)
    requires c.size > 0 && Step(c, s, e) == s1 && Step(c, s1, e) == s2
    ensures Run(c, s, Repeat(e, 3)) == Step(c, s2, e)
  {
    RepeatStep(c, s, e, 3);
    RepeatStep(c, s1, e, 2);
    RepeatStep(c, s2, e, 1);
  }

  lemma TopHead(ix: Index)
    requires ix.stored > 0
    ensures ix.(stored := ix.stored - 1, heads := ix.heads - {ix.stored - 1}) == Cut(ix, ix.stored - 1)
  {
    assert ix.heads - {ix.stored - 1} == Cut(ix, ix.stored - 1).heads;
  }

  /** One turn of the loop, of a roll-back or of the drop. */
  lemma TrimTurn(c: Config, s: System)
    requires c.size > 0 && s.lock.Trimming? && s.lock.at.Test? && s.lock.target < s.ix.stored
    ensures Run(c, s, Repeat(Proceed, 3)) == s.(ix := Cut(s.ix, s.ix.stored - 1))
  {
    var s1 := s.(lock := s.lock.(at := Decrement));
    var s2 := s.(lock := s.lock.(at := Delete), ix := s.ix.(stored := s.ix.stored - 1));
    ThreeSteps(c, s, s1, s2, Proceed);
    TopHead(s.ix);
  }

  lemma DropTurn(c: Config, s: System)
    requires c.size > 0 && s.worker == Dropping(Test) && 0 < s.ix.stored
    ensures Run(c, s, Repeat(Drop, 3)) == s.(ix := Cut(s.ix, s.ix.stored - 1))
  {
    var s1 := s.(worker := Dropping(Decrement));
    var s2 := s.(worker := Dropping(Delete), ix := s.ix.(stored := s.ix.stored - 1));
    ThreeSteps(c, s, s1, s2, Drop);
    TopHead(s.ix);
  }

  /** The loop left alone comes down to any number of sections from the target up. */
  lemma {:induction false} Down(c: Config, s: System, e: Event, target: nat, m: nat)
    requires c.size > 0 && AtLoop(s, e, target) && target <= m <= s.ix.stored
    ensures Run(c, s, Repeat(e, 3 * (s.ix.stored - m))) == s.(ix := Cut(s.ix, m))
    decreases s.ix.stored
  {
    if m == s.ix.stored {
      assert Cut(s.ix, m).heads == s.ix.heads;
    } else {
      var s1 := s.(ix := Cut(s.ix, s.ix.stored - 1));
      if e.Proceed? {
        TrimTurn(c, s);
      } else {
        DropTurn(c, s);
      }
      Down(c, s1, e, target, m);
      RunRepeat(c, s, e, 3, 3 * (s1.ix.stored - m));
      assert Cut(s1.ix, m).heads == Cut(s.ix, m).heads;
    }
  }

  /** The last test and the last write. */
  lemma LoopEnds(c: Config, s: System, e: Event, target: nat)
    requires c.size > 0 && AtLoop(s, e, target) && s.ix.stored == target
    ensures Run(c, s, Repeat(e, 2)) == if e.Proceed? then Trimmed(c, s, s.lock.who) else s.(worker := Broken)
  {
    RepeatStep(c, s, e, 2);
    RepeatStep(c, Step(c, s, e), e, 1);
  }

  /** A roll-back left alone. */
  lemma TrimEnds(c: Config, s: System) returns (n: nat)
    requires c.size > 0 && s.lock.Trimming? && s.lock.at.Test? && s.lock.target <= s.ix.stored
    ensures Run(c, s, Repeat(Proceed, n)) == Trimmed(c, s.(ix := Cut(s.ix, s.lock.target)), s.lock.who)
  {
    var m, target := 3 * (s.ix.stored - s.lock.target), s.lock.target;
    Down(c, s, Proceed, target, target);
    LoopEnds(c, s.(ix := Cut(s.ix, target)), Proceed, target);
    RunRepeat(c, s, Proceed, m, 2);
    n := m + 2;
  }

  /** A drop left alone. */
  lemma DropEnds(c: Config, s: System)
    requires c.size > 0 && s.worker == Dropping(Test)
    ensures Run(c, s, Repeat(Drop, 3 * s.ix.stored + 2)) == s.(ix := Cut(s.ix, 0), worker := Broken)
  {
    Down(c, s, Drop, 0, 0);
    LoopEnds(c, s.(ix := Cut(s.ix, 0)), Drop, 0);
    RunRepeat(c, s, Drop, 3 * s.ix.stored, 2);
  }

  // ---------------------------------------------------------------- undisturbed operations

  /** A reorg notice that nobody disturbs is `NewHead`. */
  lemma NoticeAlone(c: Config, s: System, head: nat) returns (n: nat)
    requires Safe(c, s) && s.lock.Free? && !s.worker.Dropping?
    ensures Run(c, TakeNotice(c, s, head), Repeat(Proceed, n)) == s.(ix := NewHead(c, s.ix, head, true))
  {
    var s1 := TakeNotice(c, s, head);
    if s1.lock.Free? {
      n := 0;
    } else {
      var target := s1.lock.target;
      var s2 := Step(c, s1, Proceed);
      n := TrimEnds(c, s2);
      n := n + 1;
      RepeatStep(c, s1, Proceed, n);
      assert Cut(s2.ix, target) == SetValid(s1.ix, target);
    }
  }

  /** A drop that nobody disturbs is `SetValid` to zero. */
  lemma DropAlone(c: Config, s: System)
    requires Safe(c, s) && s.lock.Free? && s.worker == Dropping(Count)
    ensures Run(c, s, Repeat(Drop, 3 * s.ix.stored + 3)) == s.(ix := SetValid(s.ix, 0), worker := Broken)
  {
    var s1 := Step(c, s, Drop);
    RepeatStep(c, s, Drop, 3 * s.ix.stored + 3);
    DropEnds(c, s1);
    assert Cut(s1.ix, 0) == SetValid(s.ix, 0);
  }

  lemma {:induction false} VerifiedFrame(a: Index, b: Index, marks: Marks, n: nat)
    requires forall i: nat | i < n :: SectionHead(a, i) == SectionHead(b, i)
    ensures Verified(a, marks, n) == Verified(b, marks, n)
  {
    if n == 0 {
    } else {
      VerifiedFrame(a, b, marks, n - 1);
    }
  }

  /** A verification goes on from the table without its last section if that is off the chain. */
  lemma VerifyRolls(ix: Index, marks: Marks)
    requires ix.stored > 0 && SectionHead(ix, ix.stored - 1) != marks(ix.stored - 1)
    ensures Verify(ix, marks) == Verify(SetValid(ix, ix.stored - 1), marks)
  {
    var n := ix.stored - 1;
    VerifiedFrame(ix, SetValid(ix, n), marks, n);
    VerifiedStops(ix, marks, n);
    SetValidTwice(ix, n, Verified(ix, marks, n));
  }

  lemma RollsOn(c: Config, ix: Index, canon: map<nat, Hash>)
    requires c.size > 0 && ix.stored > 0 && !OnChain(c, ix, canon, ix.stored - 1)
    ensures Verify(ix, Snapshot(c, canon)) == Verify(SetValid(ix, ix.stored - 1), Snapshot(c, canon))
  {
    VerifyRolls(ix, Snapshot(c, canon));
  }

  /** A verification that finds its last section off the chain comes to give it up. */
  lemma LookAlone(c: Config, s: System) returns (n: nat)
    requires Safe(c, s) && s.lock.Looking? && !s.worker.Dropping? && s.ix.stored > 0
    requires !OnChain(c, s.ix, s.canon, s.ix.stored - 1)
    ensures Run(c, s, Repeat(Proceed, n)) == s.(lock := Trimming(s.lock.who, s.ix.stored - 1, Count))
  {
    var s1 := s.(lock := Reading(s.lock.who));
    var s2 := s.(lock := Comparing(s.lock.who, SectionHead(s.ix, s.ix.stored - 1)));
    var s3 := s.(lock := Rolling(s.lock.who));
    LastBlockIs(c, s.ix.stored);
    ThreeSteps(c, s, s1, s2, Proceed);
    RunRepeat(c, s, Proceed, 3, 1);
    RepeatStep(c, s3, Proceed, 1);
    n := 4;
  }

  /** And gives it up. */
  lemma RollAlone(c: Config, s: System) returns (n: nat)
    requires c.size > 0 && s.lock.Trimming? && !s.lock.who.Notice? && s.ix.stored > 0
    requires s.lock.target == s.ix.stored - 1 && s.lock.at.Count?
    ensures Run(c, s, Repeat(Proceed, n)) == s.(lock := Looking(s.lock.who), ix := SetValid(s.ix, s.ix.stored - 1))
  {
    var s1 := Step(c, s, Proceed);
    n := TrimEnds(c, s1);
    n := n + 1;
    RepeatStep(c, s, Proceed, n);
    assert Cut(s1.ix, s.lock.target) == SetValid(s.ix, s.lock.target);
  }

  lemma AcceptAlone(c: Config, s: System) returns (n: nat)
    requires Safe(c, s) && s.lock.Looking? && !s.worker.Dropping?
    requires s.ix.stored == 0 || OnChain(c, s.ix, s.canon, s.ix.stored - 1)
    ensures Run(c, s, Repeat(Proceed, n)) == Return(c, s, s.lock.who)
    ensures Verify(s.ix, Snapshot(c, s.canon)) == s.ix
  {
    n := if s.ix.stored == 0 then 1 else 3;
    assert SetValid(s.ix, s.ix.stored) == s.ix;
    RepeatStep(c, s, Proceed, n);
    if s.ix.stored > 0 {
      var s1 := s.(lock := Reading(s.lock.who));
      LastBlockIs(c, s.ix.stored);
      RepeatStep(c, s1, Proceed, 2);
      RepeatStep(c, Step(c, s1, Proceed), Proceed, 1);
    }
  }

  /** One round of a verification that finds its last section off the chain. */
  lemma GiveUpAlone(c: Config, s: System) returns (n: nat)
    requires Safe(c, s) && s.lock.Looking? && !s.worker.Dropping? && s.ix.stored > 0
    requires !OnChain(c, s.ix, s.canon, s.ix.stored - 1)
    ensures Run(c, s, Repeat(Proceed, n)) == s.(ix := SetValid(s.ix, s.ix.stored - 1))
  {
    var a := LookAlone(c, s);
    var b := RollAlone(c, s.(lock := Trimming(s.lock.who, s.ix.stored - 1, Count)));
    RunRepeat(c, s, Proceed, a, b);
    n := a + b;
  }

  lemma GivenUpSafe(c: Config, s: System)
    requires Safe(c, s) && s.lock.Looking? && !s.worker.Dropping? && s.ix.stored > 0
    ensures Safe(c, s.(ix := SetValid(s.ix, s.ix.stored - 1)))
  {
    SetValidKeeps(c, s.ix, s.ix.stored - 1);
    InRangeDown(c, s.ix.stored - 1, s.ix.stored);
  }

  /** `n` steps of the verification compute `Verify`. */
  predicate VerifiesIn(c: Config, s: System, n: nat)
    requires c.size > 0 && s.lock.Looking?
  {
    Run(c, s, Repeat(Proceed, n)) == Return(c, s.(ix := Verify(s.ix, Snapshot(c, s.canon))), s.lock.who)
  }

  lemma VerifiesLater(c: Config, s: System, ix: Index, n: nat, k: nat)
    requires c.size > 0 && s.lock.Looking? && Verify(s.ix, Snapshot(c, s.canon)) == Verify(ix, Snapshot(c, s.canon))
    requires Run(c, s, Repeat(Proceed, n)) == s.(ix := ix) && VerifiesIn(c, s.(ix := ix), k)
    ensures VerifiesIn(c, s, n + k)
  {
    RunRepeat(c, s, Proceed, n, k);
  }

  /** A verification that nobody disturbs, on a chain that does not change, is `Verify`. */
  lemma {:induction false} VerifyAlone(c: Config, s: System) returns (n: nat)
    requires Safe(c, s) && s.lock.Looking? && !s.worker.Dropping?
    ensures VerifiesIn(c, s, n)
    decreases s.ix.stored
  {
    if s.ix.stored == 0 || OnChain(c, s.ix, s.canon, s.ix.stored - 1) {
      n := AcceptAlone(c, s);
    } else {
      var ix := SetValid(s.ix, s.ix.stored - 1);
      var m := GiveUpAlone(c, s);
      GivenUpSafe(c, s);
      RollsOn(c, s.ix, s.canon);
      var k := VerifyAlone(c, s.(ix := ix));
      VerifiesLater(c, s, ix, m, k);
      n := m + k;
    }
  }

  // ---------------------------------------------------------------- queries

  /** The sections that the operation holding the lock has not given up so far. */
  function Kept(s: System): nat {
    match s.lock
    case Rolling(_) => if s.ix.stored == 0 then 0 else s.ix.stored - 1
    case Trimming(_, target, _) => target
    case _ => s.ix.stored
  }

  /** A query that no drop disturbs. */
  ghost predicate Querying(c: Config, s: System) {
    Safe(c, s) && !s.lock.Free? && s.lock.who == Reader && !s.worker.Dropping?
  }

  /** From `s` to `s'` at most one section is given up, and only one that is off the chain of `s`. */
  ghost predicate GivesUpStale(c: Config, s: System, s': System)
    requires c.size > 0
  {
    && Kept(s') <= Kept(s) <= Kept(s') + 1
    && (forall i: nat | i < Kept(s') :: SectionHead(s'.ix, i) == SectionHead(s.ix, i))
    && (Kept(s') < Kept(s) ==> !OnChain(c, s.ix, s.canon, Kept(s')))
  }

  /** What one step does to a query; when the query ends, its last section is on the chain of that moment. */
  ghost predicate QueryGoesOn(c: Config, s: System, s': System)
    requires c.size > 0
  {
    && GivesUpStale(c, s, s')
    && if s'.lock.Free?
       then Consistent(c, s'.ix) && (s'.ix.stored > 0 ==> OnChain(c, s'.ix, s'.canon, s'.ix.stored - 1))
       else Querying(c, s')
  }

  lemma QueryTrims(c: Config, s: System)
    requires Querying(c, s) && Intact(c, NextStep(c, s)) && s.lock.Trimming?
    ensures QueryGoesOn(c, s, NextStep(c, s))
  {
  }

  lemma QueryProceeds(c: Config, s: System)
    requires Querying(c, s) && Intact(c, NextStep(c, s))
    ensures QueryGoesOn(c, s, NextStep(c, s))
  {
    if s.lock.Trimming? {
      QueryTrims(c, s);
    } else if s.lock.Comparing? {
      LastBlockIs(c, s.ix.stored);
    }
  }

  /** While an operation holds the lock and no drop runs, nothing else touches the table. */
  lemma LockedOut(c: Config, s: System, e: Event)
    requires c.size > 0 && !s.lock.Free? && !s.worker.Dropping? && !e.Proceed? && !e.ResetFails?
    ensures var s' := Step(c, s, e); s'.ix == s.ix && s'.lock == s.lock && !s'.worker.Dropping?
  {
  }

  lemma QueryWaits(c: Config, s: System, s': System)
    requires Querying(c, s) && Intact(c, s') && s'.ix == s.ix && s'.lock == s.lock && !s'.worker.Dropping?
    ensures QueryGoesOn(c, s, s')
  {
  }

  lemma QueryStep(c: Config, s: System, e: Event)
    requires Querying(c, s) && !e.ResetFails?
    ensures QueryGoesOn(c, s, Step(c, s, e))
  {
    StepIntact(c, s, e);
    if e.Proceed? {
      QueryProceeds(c, s);
    } else {
      LockedOut(c, s, e);
      QueryWaits(c, s, Step(c, s, e));
    }
  }

  /** Section `i` was off the chain at some moment of the run. */
  ghost predicate OffAtSomeTime(c: Config, s: System, events: seq<Event>, i: nat)
    requires c.size > 0
  {
    exists k: nat :: k < |events| && !OnChain(c, s.ix, Run(c, s, events[..k]).canon, i)
  }

  /** The lock is held up to the last event of the run and released by it. */
  ghost predicate EndsLast(c: Config, s: System, events: seq<Event>)
    requires c.size > 0
  {
    Run(c, s, events).lock.Free? && forall k: nat | k < |events| :: !Run(c, s, events[..k]).lock.Free?
  }

  lemma EndsLastStep(c: Config, s: System, events: seq<Event>)
    requires c.size > 0 && |events| > 1 && EndsLast(c, s, events)
    ensures var s' := Step(c, s, events[0]);
            !s'.lock.Free? && EndsLast(c, s', events[1..])
  {
    var s' := Step(c, s, events[0]);
    forall k: nat | k < |events| - 1 ensures !Run(c, s', events[1..][..k]).lock.Free? {
      assert events[..k + 1][1..] == events[1..][..k];
      assert !Run(c, s, events[..k + 1]).lock.Free?;
    }
    assert !Run(c, s', events[1..][..0]).lock.Free?;
  }

  lemma OffNow(c: Config, s: System, events: seq<Event>, i: nat)
    requires c.size > 0 && |events| > 0 && !OnChain(c, s.ix, s.canon, i)
    ensures OffAtSomeTime(c, s, events, i)
  {
    assert Run(c, s, events[..0]).canon == s.canon;
  }

  lemma OffLater(c: Config, s: System, events: seq<Event>, i: nat)
    requires c.size > 0 && |events| > 0
    requires var s' := Step(c, s, events[0]);
             SectionHead(s'.ix, i) == SectionHead(s.ix, i) && OffAtSomeTime(c, s', events[1..], i)
    ensures OffAtSomeTime(c, s, events, i)
  {
    var s' := Step(c, s, events[0]);
    var k: nat :| k < |events[1..]| && !OnChain(c, s'.ix, Run(c, s', events[1..][..k]).canon, i);
    assert events[..k + 1][1..] == events[1..][..k];
    assert !OnChain(c, s.ix, Run(c, s, events[..k + 1]).canon, i);
  }

  /** Every section from `n` up that was still kept was off the chain at some moment of the run. */
  ghost predicate RightlyDropped(c: Config, s: System, events: seq<Event>, n: nat)
    requires c.size > 0
  {
    forall i: nat | n <= i < Kept(s) :: OffAtSomeTime(c, s, events, i)
  }

  lemma RightlyDroppedStep(c: Config, s: System, events: seq<Event>, n: nat)
    requires c.size > 0 && |events| > 0
    requires var s' := Step(c, s, events[0]); GivesUpStale(c, s, s') && RightlyDropped(c, s', events[1..], n)
    ensures RightlyDropped(c, s, events, n)
  {
    var s' := Step(c, s, events[0]);
    forall i: nat | n <= i < Kept(s) ensures OffAtSomeTime(c, s, events, i) {
      if i < Kept(s') {
        OffLater(c, s, events, i);
      } else {
        OffNow(c, s, events, i);
      }
    }
  }

  /** A query run from `s` has ended in `t`. */
  ghost predicate QueryEnds(c: Config, s: System, events: seq<Event>, t: System)
    requires c.size > 0
  {
    && Consistent(c, t.ix) && t.ix.stored <= Kept(s)
    && (t.ix.stored > 0 ==> OnChain(c, t.ix, t.canon, t.ix.stored - 1))
    && RightlyDropped(c, s, events, t.ix.stored)
  }

  lemma QueryEndsStep(c: Config, s: System, events: seq<Event>, t: System)
    requires c.size > 0 && |events| > 0
    requires var s' := Step(c, s, events[0]); GivesUpStale(c, s, s') && QueryEnds(c, s', events[1..], t)
    ensures QueryEnds(c, s, events, t)
  {
    RightlyDroppedStep(c, s, events, t.ix.stored);
  }

  /** A whole query, with the chain changing between its reads. */
  lemma {:induction false} QueryRun(c: Config, s: System, events: seq<Event>)
    requires Querying(c, s) && |events| > 0 && EndsLast(c, s, events)
    requires forall e | e in events :: !e.ResetFails?
    ensures QueryEnds(c, s, events, Run(c, s, events))
    decreases |events|
  {
    var s' := Step(c, s, events[0]);
    QueryStep(c, s, events[0]);
    if |events| == 1 {
      assert events[1..] == [];
    } else {
      EndsLastStep(c, s, events);
      QueryRun(c, s', events[1..]);
    }
    QueryEndsStep(c, s, events, Run(c, s', events[1..]));
  }

  lemma LastReadSettles(c: Config, ix: Index, canon: map<nat, Hash>, head: Header)
    requires SectionChain(c, ix) && Rooted(head) && canon == Ancestry(head)
    requires ix.stored > 0 ==> OnChain(c, ix, canon, ix.stored - 1)
    ensures AllOnChain(c, ix, canon, ix.stored)
  {
    PrefixOnChain(c, ix, head, ix.stored);
  }

  /** A query made at any point of any clash-free interleaving, and not overlapped by a drop, leaves a consistent
      table; if the chain of its last read is that of `head`, every stored section is on that chain; and
      each section it dropped was off the chain at some moment of the query. */
  lemma QueryAnytime(c: Config, start: System, before: seq<Event>, s: System, query: seq<Event>, head: Header)
    requires Safe(c, start) && ClashFree(c, start, before) && Run(c, start, before) == s
    requires s.lock.Free? && !s.worker.Dropping?
    requires |query| > 0 && EndsLast(c, Step(c, s, Query), query) && forall e | e in query :: !e.ResetFails?
    requires Rooted(head)
    ensures var t := Run(c, Step(c, s, Query), query);
            && QueryEnds(c, Step(c, s, Query), query, t)
            && (t.canon == Ancestry(head) ==> AllOnChain(c, t.ix, t.canon, t.ix.stored))
  {
    RunSafe(c, start, before);
    QueryRun(c, Step(c, s, Query), query);
    var t := Run(c, Step(c, s, Query), query);
    if t.canon == Ancestry(head) {
      LastReadSettles(c, t.ix, t.canon, head);
    }
  }

  // ---------------------------------------------------------------- the worker catches up

  predicate HoldsAt(db: set<Header>, head: Header, n: nat)
    requires Rooted(head) && n <= head.number
  {
    At(head, n) in db
  }

  /** The chain of `head` is stored and holds every known section. */
  ghost predicate Reachable(c: Config, s: System, head: Header) {
    && c.size > 0 && Rooted(head) && s.canon == Ancestry(head) && At(head, 0).parentHash == Zero
    && (forall n: nat | n <= head.number :: HoldsAt(s.db, head, n))
    && (s.ix.known > 0 ==> LastOf(c, s.ix.known - 1) <= head.number)
  }

  /** The steps of the worker that are no failures. */
  predicate WorkersOwn(events: seq<Event>) {
    forall e | e in events :: e.Begin? || e.Proceed? || e.ReadHeader? || e.End?
  }

  lemma {:induction false} RepeatOwn(e: Event, n: nat)
    requires e.Proceed? || e.ReadHeader?
    ensures WorkersOwn(Repeat(e, n))
  {
    if n == 0 {
    } else {
      RepeatOwn(e, n - 1);
    }
  }

  /** One more header of the chain is read. */
  lemma ReadOne(c: Config, s: System, head: Header)
    requires Reachable(c, s, head) && s.worker.Working? && s.worker.next <= LastOf(c, s.worker.section) <= head.number
    requires s.worker.lastHead == HashBelow(head, s.worker.next)
    ensures Step(c, s, ReadHeader) ==
            s.(worker := s.worker.(lastHead := Of(At(head, s.worker.next)), next := s.worker.next + 1))
  {
    assert HoldsAt(s.db, head, s.worker.next);
    NextOnChain(s.db, s.canon, head, s.worker.next);
  }

  /** The worker with the section read up to, not including, `next`. */
  function ReadTo(s: System, head: Header, next: nat): System
    requires s.worker.Working? && Rooted(head) && next <= head.number + 1
  {
    s.(worker := s.worker.(lastHead := HashBelow(head, next), next := next))
  }

  lemma ReadNextOne(c: Config, s: System, head: Header, next: nat)
    requires Reachable(c, s, head) && s.worker.Working? && next <= LastOf(c, s.worker.section) <= head.number
    ensures Step(c, ReadTo(s, head, next), ReadHeader) == ReadTo(s, head, next + 1)
  {
    ReadOne(c, ReadTo(s, head, next), head);
  }

  /** The event `e` leads from each state of the path to the next one. */
  predicate LeadsOn(c: Config, path: nat -> System, e: Event, k: nat)
    requires c.size > 0
  {
    Step(c, path(k), e) == path(k + 1)
  }

  lemma {:induction false} RunPath(c: Config, path: nat -> System, e: Event, from: nat, n: nat)
    requires c.size > 0 && forall k: nat | from <= k < from + n :: LeadsOn(c, path, e, k)
    ensures Run(c, path(from), Repeat(e, n)) == path(from + n)
    decreases n
  {
    if n == 0 {
    } else {
      assert LeadsOn(c, path, e, from);
      RepeatStep(c, path(from), e, n);
      RunPath(c, path, e, from + 1, n - 1);
    }
  }

  /** Reading a section of the chain from `next` to its end. */
  lemma ReadAll(c: Config, s: System, head: Header, next: nat, n: nat)
    requires Reachable(c, s, head) && s.worker.Working? && LastOf(c, s.worker.section) <= head.number
    requires next + n == LastOf(c, s.worker.section) + 1
    ensures Run(c, ReadTo(s, head, next), Repeat(ReadHeader, n)) == ReadTo(s, head, next + n)
  {
    var path := (k: nat) => if k <= head.number + 1 then ReadTo(s, head, k) else s;
    forall k: nat | next <= k < next + n ensures LeadsOn(c, path, ReadHeader, k) {
      ReadNextOne(c, s, head, k);
    }
    RunPath(c, path, ReadHeader, next, n);
  }

  /** The worker rests, and every stored section is on the chain. */
  ghost predicate Rests(c: Config, s: System) {
    Safe(c, s) && s.lock.Free? && s.worker.Idle? && AllOnChain(c, s.ix, s.canon, s.ix.stored)
  }

  /** The worker has begun the next section, on a table that is on the chain. */
  ghost predicate Begun(c: Config, s: System, head: Header) {
    && Safe(c, s) && Reachable(c, s, head) && s.lock.Free? && s.ix.stored < s.ix.known
    && FirstOf(c, s.ix.stored) <= head.number + 1
    && var below := HashBelow(head, FirstOf(c, s.ix.stored));
       s.worker == Working(s.ix.stored, below, below, FirstOf(c, s.ix.stored))
  }

  lemma VerifiedFrameBelow(c: Config, ix: Index, w: Worker, n: nat)
    requires c.size > 0 && WorkerOk(c, ix, w) && n <= ix.stored
    ensures WorkerOk(c, SetValid(ix, n), w)
  {
  }

  lemma VerifiedSafe(c: Config, s: System)
    requires Safe(c, s) && s.lock.Looking? && !s.worker.Dropping?
    ensures Safe(c, s.(ix := Verify(s.ix, Snapshot(c, s.canon))))
  {
    VerifyKeeps(c, s.ix, Snapshot(c, s.canon));
    InRangeDown(c, Verify(s.ix, Snapshot(c, s.canon)).stored, s.ix.stored);
    VerifiedFrameBelow(c, s.ix, s.worker, Verify(s.ix, Snapshot(c, s.canon)).stored);
  }

  lemma {:induction false} LastOfMonotone(c: Config, i: nat, j: nat)
    requires c.size > 0 && i <= j
    ensures LastOf(c, i) <= LastOf(c, j)
    decreases j
  {
    if i == j {
    } else {
      LastOfMonotone(c, i, j - 1);
    }
  }

  lemma KnownOnChain(c: Config, s: System, head: Header, section: nat)
    requires Reachable(c, s, head) && section < s.ix.known
    ensures FirstOf(c, section) <= LastOf(c, section) <= head.number
    decreases s.ix.known - section
  {
    LastOfMonotone(c, section, s.ix.known - 1);
  }

  lemma BeginsBelow(c: Config, s: System, head: Header)
    requires Reachable(c, s, head) && s.ix.stored < s.ix.known
    requires s.ix.stored > 0 ==> OnChain(c, s.ix, s.canon, s.ix.stored - 1)
    ensures FirstOf(c, s.ix.stored) <= head.number + 1
    ensures HashBelow(head, FirstOf(c, s.ix.stored)) == if s.ix.stored == 0 then Zero else SectionHead(s.ix, s.ix.stored - 1)
  {
    KnownOnChain(c, s, head, s.ix.stored);
  }

  /** What a verification returns to a starting worker is a begun section. */
  lemma ReturnBegins(c: Config, s: System, head: Header)
    requires Safe(c, s) && Reachable(c, s, head) && s.lock == Looking(Starter)
    requires s.ix.stored > 0 ==> OnChain(c, s.ix, s.canon, s.ix.stored - 1)
    ensures Begun(c, Return(c, s, Starter), head)
  {
    ReturnIntact(c, s, Starter);
    BeginsBelow(c, s, head);
  }

  lemma VerifiedReachable(c: Config, s: System, head: Header)
    requires Reachable(c, s, head)
    ensures var kept := s.(ix := Verify(s.ix, Snapshot(c, s.canon)));
            && Reachable(c, kept, head) && kept.ix.known == s.ix.known && kept.ix.stored <= s.ix.stored
            && (kept.ix.stored > 0 ==> OnChain(c, kept.ix, kept.canon, kept.ix.stored - 1))
  {
    SnapshotStops(c, s.ix, s.canon);
  }

  /** Beginning a section verifies the table first. */
  lemma BeginSection(c: Config, s: System, head: Header) returns (events: seq<Event>, s1: System)
    requires Safe(c, s) && Reachable(c, s, head) && s.lock.Free? && s.worker.Idle? && s.ix.stored < s.ix.known
    ensures WorkersOwn(events) && Run(c, s, events) == s1 && Begun(c, s1, head)
    ensures s1.ix == Verify(s.ix, Snapshot(c, s.canon))
  {
    var looking := Step(c, s, Begin);
    StepIntact(c, s, Begin);
    var n := VerifyAlone(c, looking);
    events := [Begin] + Repeat(Proceed, n);
    RepeatOwn(Proceed, n);
    RunOne(c, s, Begin);
    RunAppend(c, s, [Begin], Repeat(Proceed, n));
    var kept := looking.(ix := Verify(s.ix, Snapshot(c, s.canon)));
    VerifiedSafe(c, looking);
    VerifiedReachable(c, looking, head);
    ReturnBegins(c, kept, head);
    s1 := Return(c, kept, Starter);
  }

  /** The begun section, read to its end. */
  function ReadUp(c: Config, s: System, head: Header): System
    requires c.size > 0 && s.worker.Working? && Rooted(head) && LastOf(c, s.ix.stored) <= head.number
  {
    var last := LastOf(c, s.ix.stored);
    s.(worker := s.worker.(lastHead := Of(At(head, last)), next := last + 1))
  }

  /** The read section hangs together. */
  lemma {:induction false} ReadLinked(c: Config, head: Header, section: nat, below: Hash)
    requires c.size > 0 && Rooted(head) && LastOf(c, section) <= head.number
    requires FirstOf(c, section) <= head.number + 1 && below == HashBelow(head, FirstOf(c, section))
    requires section > 0 ==> EndsSection(c, below, section - 1)
    ensures Progress(c, section, below, Of(At(head, LastOf(c, section))), LastOf(c, section) + 1)
  {
    var last := LastOf(c, section);
    if section > 0 {
      var prev := LastOf(c, section - 1);
      assert last == prev + c.size;
      AtAt(head, last, prev);
    }
  }

  lemma ReadSafe(c: Config, s: System, head: Header)
    requires Begun(c, s, head) && LastOf(c, s.ix.stored) <= head.number
    ensures Safe(c, ReadUp(c, s, head))
  {
    ReadLinked(c, head, s.ix.stored, s.worker.oldHead);
  }

  /** A begun section is read to its end. */
  lemma ReadSection(c: Config, s: System, head: Header) returns (n: nat)
    requires Begun(c, s, head)
    ensures LastOf(c, s.ix.stored) <= head.number
    ensures Run(c, s, Repeat(ReadHeader, n)) == ReadUp(c, s, head) && Safe(c, ReadUp(c, s, head))
  {
    KnownOnChain(c, s, head, s.ix.stored);
    n := LastOf(c, s.ix.stored) + 1 - s.worker.next;
    ReadAll(c, s, head, s.worker.next, n);
    assert ReadTo(s, head, s.worker.next) == s;
    ReadSafe(c, s, head);
  }

  /** What the commit does to the table. */
  function Committed(c: Config, s: System, head: Header): Index
    requires c.size > 0 && Rooted(head) && LastOf(c, s.ix.stored) <= head.number && s.worker.Working?
  {
    Finish(c, s.ix, s.ix.stored, s.worker.oldHead, Some(Of(At(head, LastOf(c, s.ix.stored)))), Snapshot(c, s.canon))
  }

  lemma {:induction false} CommitStep(c: Config, s: System, head: Header)
    requires Begun(c, s, head) && LastOf(c, s.ix.stored) <= head.number
    ensures Step(c, ReadUp(c, s, head), End) == s.(ix := Committed(c, s, head), worker := Idle)
    ensures Safe(c, s.(ix := Committed(c, s, head), worker := Idle))
  {
    ReadSafe(c, s, head);
    StepIntact(c, ReadUp(c, s, head), End);
  }

  lemma {:induction false} CommitTable(c: Config, s: System, head: Header)
    requires Begun(c, s, head) && LastOf(c, s.ix.stored) <= head.number
    ensures var after := Committed(c, s, head);
            && after.stored == s.ix.stored + 1 && after.known == s.ix.known
            && AllOnChain(c, after, s.canon, after.stored)
  {
    ReadLinked(c, head, s.ix.stored, s.worker.oldHead);
    CommitOnChainIff(c, s.ix, s.worker.oldHead, Of(At(head, LastOf(c, s.ix.stored))), Snapshot(c, s.canon), head);
  }

  /** A section of the chain is committed, and the table is on the chain. */
  lemma {:induction false} CommitRests(c: Config, s: System, head: Header)
    requires Begun(c, s, head) && LastOf(c, s.ix.stored) <= head.number
    ensures var s1 := Step(c, ReadUp(c, s, head), End);
            && Rests(c, s1) && Reachable(c, s1, head)
            && s1.ix.stored == s.ix.stored + 1 && s1.ix.known == s.ix.known
  {
    CommitStep(c, s, head);
    CommitTable(c, s, head);
  }

  /** A begun section is read and committed. */
  lemma CommitSection(c: Config, s: System, head: Header) returns (events: seq<Event>, s1: System)
    requires Begun(c, s, head)
    ensures WorkersOwn(events) && Run(c, s, events) == s1 && Rests(c, s1) && Reachable(c, s1, head)
    ensures s1.ix.stored == s.ix.stored + 1 && s1.ix.known == s.ix.known
  {
    var n := ReadSection(c, s, head);
    events, s1 := Repeat(ReadHeader, n) + [End], Step(c, ReadUp(c, s, head), End);
    RepeatOwn(ReadHeader, n);
    RunThen(c, s, Repeat(ReadHeader, n), End);
    CommitRests(c, s, head);
  }

  /** From a table on the chain the worker indexes every known section. */
  lemma {:induction false} CatchUp(c: Config, s: System, head: Header) returns (events: seq<Event>, t: System)
    requires Rests(c, s) && Reachable(c, s, head) && s.ix.stored <= s.ix.known
    ensures WorkersOwn(events) && Run(c, s, events) == t && Rests(c, t) && t.ix.stored == t.ix.known == s.ix.known
    ensures Reachable(c, t, head)
    decreases s.ix.known - s.ix.stored
  {
    if s.ix.stored == s.ix.known {
      events, t := [], s;
    } else {
      var first, s1 := BeginSection(c, s, head);
      VerifyLongest(c, s.ix, head, s.ix.stored);
      var second, s2 := CommitSection(c, s1, head);
      var third;
      third, t := CatchUp(c, s2, head);
      RunAppend(c, s, first, second);
      RunAppend(c, s, first + second, third);
      events := first + second + third;
    }
  }

  /** Progress: on a chain that does not change, without failures, an idle worker that has a known section left
      to index comes to a table that holds exactly the known sections, all of them on the chain, whatever
      stale sections it held before. */
  lemma WorkerCatchesUp(c: Config, s: System, head: Header) returns (events: seq<Event>, t: System)
    requires Safe(c, s) && Reachable(c, s, head) && s.lock.Free? && s.worker.Idle? && s.ix.stored < s.ix.known
    ensures WorkersOwn(events) && Run(c, s, events) == t && Rests(c, t) && t.ix.stored == t.ix.known == s.ix.known
    ensures Reachable(c, t, head)
  {
    var first, s1 := BeginSection(c, s, head);
    SnapshotStops(c, s.ix, s.canon);
    var second, s2 := CommitSection(c, s1, head);
    var third;
    third, t := CatchUp(c, s2, head);
    RunAppend(c, s, first, second);
    RunAppend(c, s, first + second, third);
    events := first + second + third;
  }
}
