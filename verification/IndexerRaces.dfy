/** Where the section indexer goes wrong: the drop after a failed reset takes no lock. A state in which it
    meets a locked operation while something is stored can always be continued to a damaged table, and no
    other safe state can. */
module IndexerRaces {
  import opened Prelude
  import opened Headers
  import opened ChainIndexer
  import opened IndexerProtocol
  import opened IndexerRuns

  // ---------------------------------------------------------------- finishing what is in progress

  /** Only steps of the operation that holds the lock and of the drop. */
  predicate Finishing(events: seq<Event>) {
    forall e | e in events :: e.Proceed? || e.Drop?
  }

  lemma {:induction false} RepeatFinishing(e: Event, n: nat)
    requires e.Proceed? || e.Drop?
    ensures Finishing(Repeat(e, n))
  {
    if n == 0 {
    } else {
      RepeatFinishing(e, n - 1);
    }
  }

  /** A locked operation and a drop are both in progress while something is stored. */
  predicate Danger(s: System) {
    !s.lock.Free? && s.worker.Dropping? && s.ix.stored > 0
  }

  lemma FinishStep(c: Config, s: System, e: Event)
    requires Safe(c, s) && !Danger(s) && (e.Proceed? || e.Drop?)
    ensures Safe(c, Step(c, s, e)) && !Danger(Step(c, s, e))
  {
    StepIntact(c, s, e);
  }

  /** Out of danger, whatever is in progress ends well in every order. */
  lemma {:induction false} FinishSafe(c: Config, s: System, events: seq<Event>)
    requires Safe(c, s) && !Danger(s) && Finishing(events)
    ensures Safe(c, Run(c, s, events)) && !Corrupt(c, Run(c, s, events))
    decreases |events|
  {
    if events == [] {
      IntactIsSound(c, s);
    } else {
      assert events[0] in events;
      FinishStep(c, s, events[0]);
      FinishSafe(c, Step(c, s, events[0]), events[1..]);
    }
  }

  // ---------------------------------------------------------------- the drop runs to its end

  /** No head stands at or above `n`. */
  ghost predicate Below(ix: Index, n: nat) {
    forall i | i in ix.heads :: i < n
  }

  function Emptied(ix: Index): Index {
    ix.(stored := 0, heads := map[], count := 0)
  }

  lemma CutToNothing(ix: Index)
    requires Below(ix, ix.stored) && ix.count == 0
    ensures Cut(ix, 0) == Emptied(ix)
  {
    assert Cut(ix, 0).heads == map[];
  }

  /** The whole drop, from its first write. */
  lemma DropWhole(c: Config, s: System)
    requires c.size > 0 && s.worker == Dropping(Count) && Below(s.ix, s.ix.stored)
    ensures Run(c, s, Repeat(Drop, 3 * s.ix.stored + 3)) == s.(ix := Emptied(s.ix), worker := Broken)
  {
    var s1 := Step(c, s, Drop);
    RepeatStep(c, s, Drop, 3 * s.ix.stored + 3);
    DropEnds(c, s1);
    CutToNothing(s1.ix);
  }

  /** The drop, brought to the head of its loop. */
  lemma DropToTest(c: Config, s: System) returns (n: nat, ix: Index)
    requires c.size > 0 && s.worker.Dropping? && !s.worker.at.Last? && StageOk(s.ix.stored, 0, s.worker.at)
    requires Below(s.ix, s.ix.stored + if s.worker.at.Delete? then 1 else 0) && (Active(s.worker) ==> s.ix.count == 0)
    ensures Run(c, s, Repeat(Drop, n)) == s.(ix := ix, worker := Dropping(Test))
    ensures Below(ix, ix.stored) && ix.count == 0 && Emptied(ix) == Emptied(s.ix)
  {
    var s1 := Step(c, s, Drop);
    if s.worker.at.Test? {
      n, ix := 0, s.ix;
    } else if s.worker.at.Decrement? {
      n, ix := 2, Step(c, s1, Drop).ix;
      RepeatStep(c, s, Drop, 2);
      RepeatStep(c, s1, Drop, 1);
    } else {
      n, ix := 1, s1.ix;
      RepeatStep(c, s, Drop, 1);
    }
  }

  /** The drop, finished from wherever it is. */
  lemma DropFinishes(c: Config, s: System) returns (n: nat)
    requires c.size > 0 && s.worker.Dropping? && StageOk(s.ix.stored, 0, s.worker.at)
    requires Below(s.ix, s.ix.stored + if s.worker.at.Delete? then 1 else 0) && (Active(s.worker) ==> s.ix.count == 0)
    ensures Run(c, s, Repeat(Drop, n)) == s.(ix := Emptied(s.ix), worker := Broken)
  {
    if s.worker.at.Last? {
      n := 1;
      RepeatStep(c, s, Drop, 1);
      assert s.ix.heads == map[];
    } else {
      var m, ix := DropToTest(c, s);
      DropEnds(c, s.(ix := ix, worker := Dropping(Test)));
      CutToNothing(ix);
      RunRepeat(c, s, Drop, m, 3 * ix.stored + 2);
      n := m + (3 * ix.stored + 2);
    }
  }

  // ---------------------------------------------------------------- a verification meets a drop

  /** A verification that finds nothing stored any more rolls back from zero, and the count wraps. */
  lemma WrapsFromZero(c: Config, s: System) returns (n: nat)
    requires c.size > 0 && s.ix.stored == 0 && Canonical(s.canon, MAX_UINT64) == Zero
    requires s.lock.Rolling? || (s.lock.Comparing? && s.lock.head != Zero)
    requires !s.lock.who.Notice?
    ensures n == if s.lock.Rolling? then 4 else 5
    ensures Run(c, s, Repeat(Proceed, n)) ==
            s.(ix := s.ix.(stored := MAX_UINT64, count := MAX_UINT64), lock := Looking(s.lock.who))
  {
    var rolling := s.(lock := Rolling(s.lock.who));
    var trimming := s.(lock := Trimming(s.lock.who, MAX_UINT64, Count));
    var counted := s.(lock := Trimming(s.lock.who, MAX_UINT64, Test), ix := s.ix.(count := MAX_UINT64));
    ThreeSteps(c, rolling, trimming, counted, Proceed);
    RunRepeat(c, rolling, Proceed, 3, 1);
    RepeatStep(c, counted.(lock := counted.lock.(at := Last)), Proceed, 1);
    if s.lock.Rolling? {
      n := 4;
    } else {
      n := 5;
      RepeatStep(c, s, Proceed, 5);
    }
  }

  /** A verification that is about to look or read comes to compare the last head. */
  lemma ComesToCompare(c: Config, s: System) returns (n: nat, head: Hash)
    requires Intact(c, s) && (s.lock.Looking? || s.lock.Reading? || s.lock.Comparing?) && s.ix.stored > 0
    ensures Run(c, s, Repeat(Proceed, n)) == s.(lock := Comparing(s.lock.who, head)) && head != Zero
  {
    assert SectionOk(c, s.ix.heads, s.ix.stored - 1);
    head := SectionHead(s.ix, s.ix.stored - 1);
    if s.lock.Looking? {
      n := 2;
      RepeatStep(c, s, Proceed, 2);
      RepeatStep(c, s.(lock := Reading(s.lock.who)), Proceed, 1);
    } else if s.lock.Reading? {
      n := 1;
      RepeatStep(c, s, Proceed, 1);
    } else {
      n := 0;
    }
  }

  /** Three runs one after the other. */
  lemma RunThree(c: Config, s: System, s1: System, s2: System, first: seq<Event>, second: seq<Event>, third: seq<Event>)
    requires c.size > 0 && Run(c, s, first) == s1 && Run(c, s1, second) == s2
    ensures Run(c, s, first + second + third) == Run(c, s2, third)
  {
    RunAppend(c, s, first, second);
    RunAppend(c, s, first + second, third);
  }

  /** A drop that lands whole in a verification past its look leaves a wrapped count and no heads. */
  lemma QueryCorrupts(c: Config, s: System) returns (events: seq<Event>)
    requires Intact(c, s) && Danger(s) && !s.lock.Trimming? && Canonical(s.canon, MAX_UINT64) == Zero
    ensures Finishing(events) && Hollow(Run(c, s, events).ix)
  {
    var n, s1 := 0, s;
    if !s.lock.Rolling? {
      var head;
      n, head := ComesToCompare(c, s);
      s1 := s.(lock := Comparing(s.lock.who, head));
    }
    var m := DropFinishes(c, s1);
    var s2 := s1.(ix := Emptied(s1.ix), worker := Broken);
    var k := WrapsFromZero(c, s2);
    RunThree(c, s, s1, s2, Repeat(Proceed, n), Repeat(Drop, m), Repeat(Proceed, k));
    RepeatFinishing(Proceed, n);
    RepeatFinishing(Drop, m);
    RepeatFinishing(Proceed, k);
    events := Repeat(Proceed, n) + Repeat(Drop, m) + Repeat(Proceed, k);
  }

  // ---------------------------------------------------------------- a roll-back meets a drop

  /** A roll-back, brought to the head of its loop. */
  lemma TrimToTest(c: Config, s: System) returns (n: nat, ix: Index)
    requires c.size > 0 && s.lock.Trimming? && !s.lock.at.Last? && StageOk(s.ix.stored, s.lock.target, s.lock.at)
    requires Below(s.ix, s.ix.stored + if s.lock.at.Delete? then 1 else 0)
    ensures Run(c, s, Repeat(Proceed, n)) == s.(ix := ix, lock := s.lock.(at := Test))
    ensures Below(ix, ix.stored) && ix.count == if s.lock.at.Count? then s.lock.target else s.ix.count
    ensures ix.stored == if s.lock.at.Decrement? then s.ix.stored - 1 else s.ix.stored
  {
    var s1 := Step(c, s, Proceed);
    if s.lock.at.Test? {
      n, ix := 0, s.ix;
    } else if s.lock.at.Decrement? {
      n, ix := 2, Step(c, s1, Proceed).ix;
      RepeatStep(c, s, Proceed, 2);
      RepeatStep(c, s1, Proceed, 1);
    } else {
      n, ix := 1, s1.ix;
      RepeatStep(c, s, Proceed, 1);
    }
  }

  /** The loop of a roll-back, from `m` sections of a table to the statement after the test. */
  lemma TrimDownTo(c: Config, s: System, m: nat) returns (n: nat, ix: Index)
    requires c.size > 0 && s.lock.Trimming? && s.lock.at.Test? && s.lock.target <= m <= s.ix.stored
    requires Below(s.ix, s.ix.stored)
    ensures Run(c, s, Repeat(Proceed, n)) ==
            s.(ix := ix, lock := s.lock.(at := if m > s.lock.target then Decrement else Last))
    ensures ix.stored == m && Below(ix, m) && ix.count == s.ix.count
  {
    ix := Cut(s.ix, m);
    Down(c, s, Proceed, s.lock.target, m);
    RunRepeat(c, s, Proceed, 3 * (s.ix.stored - m), 1);
    RepeatStep(c, s.(ix := ix), Proceed, 1);
    n := 3 * (s.ix.stored - m) + 1;
  }

  /** A roll-back, brought to its last write. */
  lemma TrimToLast(c: Config, s: System) returns (n: nat, ix: Index)
    requires c.size > 0 && s.lock.Trimming? && !s.lock.at.Count? && StageOk(s.ix.stored, s.lock.target, s.lock.at)
    requires Below(s.ix, s.ix.stored + if s.lock.at.Delete? then 1 else 0)
    ensures Run(c, s, Repeat(Proceed, n)) == s.(ix := ix, lock := s.lock.(at := Last))
    ensures ix.stored == s.lock.target && Below(ix, ix.stored) && ix.count == s.ix.count
  {
    if s.lock.at.Last? {
      n, ix := 0, s.ix;
    } else {
      var a, ix1 := TrimToTest(c, s);
      var b;
      b, ix := TrimDownTo(c, s.(ix := ix1, lock := s.lock.(at := Test)), s.lock.target);
      RunRepeat(c, s, Proceed, a, b);
      n := a + b;
    }
  }

  /** A roll-back to zero, brought to the decrement of the last section. */
  lemma TrimToOne(c: Config, s: System) returns (n: nat, ix: Index)
    requires c.size > 0 && s.lock.Trimming? && s.lock.target == 0 < s.ix.stored && StageOk(s.ix.stored, 0, s.lock.at)
    requires Below(s.ix, s.ix.stored + if s.lock.at.Delete? then 1 else 0)
    ensures Run(c, s, Repeat(Proceed, n)) == s.(ix := ix, lock := s.lock.(at := Decrement))
    ensures ix.stored == 1 && Below(ix, 1)
  {
    if s.lock.at.Decrement? && s.ix.stored == 1 {
      n, ix := 0, s.ix;
    } else {
      var a, ix1 := TrimToTest(c, s);
      var b;
      b, ix := TrimDownTo(c, s.(ix := ix1, lock := s.lock.(at := Test)), 1);
      RunRepeat(c, s, Proceed, a, b);
      n := a + b;
    }
  }

  /** The last write of a roll-back to a positive count, on an emptied table. */
  lemma LastWriteHollow(c: Config, s: System)
    requires c.size > 0 && s.lock.Trimming? && s.lock.target > 0 && s.lock.at.Last? && s.ix.heads == map[]
    ensures Hollow(Step(c, s, Proceed).ix)
  {
  }

  /** A roll-back that has begun, a positive target: the drop lands before the last write. */
  lemma LateTrimCorrupts(c: Config, s: System) returns (events: seq<Event>)
    requires Intact(c, s) && Danger(s) && s.lock.Trimming? && s.lock.target > 0 && !s.lock.at.Count?
    ensures Finishing(events) && Hollow(Run(c, s, events).ix)
  {
    var n, ix := TrimToLast(c, s);
    var s1 := s.(ix := ix, lock := s.lock.(at := Last));
    var m := DropFinishes(c, s1);
    var s2 := s1.(ix := Emptied(ix), worker := Broken);
    RunThree(c, s, s1, s2, Repeat(Proceed, n), Repeat(Drop, m), [Proceed]);
    RunOne(c, s2, Proceed);
    LastWriteHollow(c, s2);
    RepeatFinishing(Proceed, n);
    RepeatFinishing(Drop, m);
    events := Repeat(Proceed, n) + Repeat(Drop, m) + [Proceed];
  }

  /** A roll-back that has not written yet, a positive target: the drop lands before the first write. */
  lemma EarlyTrimCorrupts(c: Config, s: System) returns (events: seq<Event>)
    requires Intact(c, s) && Danger(s) && s.lock.Trimming? && s.lock.target > 0 && s.lock.at.Count?
    ensures Finishing(events) && Hollow(Run(c, s, events).ix)
  {
    var m := DropFinishes(c, s);
    var s1 := s.(ix := Emptied(s.ix), worker := Broken);
    var s2 := Step(c, s1, Proceed);
    var s3 := s2.(lock := s2.lock.(at := Last));
    ThreeSteps(c, s1, s2, s3, Proceed);
    RunAppend(c, s, Repeat(Drop, m), Repeat(Proceed, 3));
    LastWriteHollow(c, s3);
    RepeatFinishing(Drop, m);
    RepeatFinishing(Proceed, 3);
    events := Repeat(Drop, m) + Repeat(Proceed, 3);
  }

  // ---------------------------------------------------------------- two decrements of the last section

  /** The drop, brought from its beginning or its loop head to the decrement; the table is not touched. */
  lemma DropToDecrement(c: Config, s: System) returns (n: nat, ix: Index)
    requires c.size > 0 && s.worker.Dropping? && !s.worker.at.Delete? && !s.worker.at.Last? && s.ix.stored > 0
    ensures Run(c, s, Repeat(Drop, n)) == s.(ix := ix, worker := Dropping(Decrement))
    ensures ix.stored == s.ix.stored && ix.heads == s.ix.heads
  {
    var s1 := Step(c, s, Drop);
    if s.worker.at.Decrement? {
      n, ix := 0, s.ix;
    } else if s.worker.at.Test? {
      n, ix := 1, s.ix;
      RepeatStep(c, s, Drop, 1);
    } else {
      n, ix := 2, s1.ix;
      RepeatStep(c, s, Drop, 2);
      RepeatStep(c, s1, Drop, 1);
    }
  }

  /** Both loops have seen the last section and decrement: the counter wraps to 2^64-1. */
  lemma BothDecrement(c: Config, s: System)
    requires c.size > 0 && s.ix.stored == 1 && Below(s.ix, 1)
    requires s.lock.Trimming? && s.lock.at.Decrement? && s.worker == Dropping(Decrement)
    ensures var t := Run(c, s, [Proceed, Drop]);
            && t.ix.stored == MAX_UINT64 && Hollow(t.ix)
            && t.lock == s.lock.(at := Delete) && t.worker == Dropping(Delete)
  {
    RunThen(c, s, [Proceed], Drop);
    RunOne(c, s, Proceed);
    assert [Proceed] + [Drop] == [Proceed, Drop];
  }

  /** A roll-back to zero, with the drop at its beginning or in its loop. */
  lemma ZeroTrimCorrupts(c: Config, s: System) returns (events: seq<Event>)
    requires Intact(c, s) && Danger(s) && s.lock.Trimming? && s.lock.target == 0 && !s.worker.at.Delete?
    ensures Finishing(events) && Hollow(Run(c, s, events).ix)
  {
    var n, ix := TrimToOne(c, s);
    var s1 := s.(ix := ix, lock := s.lock.(at := Decrement));
    var m, ix2 := DropToDecrement(c, s1);
    var s2 := s1.(ix := ix2, worker := Dropping(Decrement));
    BothDecrement(c, s2);
    RunThree(c, s, s1, s2, Repeat(Proceed, n), Repeat(Drop, m), [Proceed, Drop]);
    RepeatFinishing(Proceed, n);
    RepeatFinishing(Drop, m);
    events := Repeat(Proceed, n) + Repeat(Drop, m) + [Proceed, Drop];
  }

  /** The same with the drop about to delete a head: it does that first. */
  lemma ZeroTrimLaterCorrupts(c: Config, s: System) returns (events: seq<Event>)
    requires Intact(c, s) && Danger(s) && s.lock.Trimming? && s.lock.target == 0 && s.worker.at.Delete?
    ensures Finishing(events) && Hollow(Run(c, s, events).ix)
  {
    var s1 := DropStep(s);
    DeleteKeeps(c, s.ix);
    var rest := ZeroTrimCorrupts(c, s1);
    RunAppend(c, s, [Drop], rest);
    RunOne(c, s, Drop);
    events := [Drop] + rest;
  }

  // ---------------------------------------------------------------- the exact condition

  /** From every state in danger some continuation damages the table. */
  lemma DangerCorrupts(c: Config, s: System) returns (events: seq<Event>)
    requires Intact(c, s) && Danger(s) && Canonical(s.canon, MAX_UINT64) == Zero
    ensures Finishing(events) && Corrupt(c, Run(c, s, events))
  {
    if !s.lock.Trimming? {
      events := QueryCorrupts(c, s);
    } else if s.lock.target > 0 {
      if s.lock.at.Count? {
        events := EarlyTrimCorrupts(c, s);
      } else {
        events := LateTrimCorrupts(c, s);
      }
    } else if s.worker.at.Delete? {
      events := ZeroTrimLaterCorrupts(c, s);
    } else {
      events := ZeroTrimCorrupts(c, s);
    }
  }

  /** The exact condition: what is in progress can end in a damaged table if and only if a locked operation and
      a drop are both in progress while something is stored. */
  lemma DangerIff(c: Config, s: System)
    requires Intact(c, s) && Canonical(s.canon, MAX_UINT64) == Zero
    ensures Danger(s) <==> exists events: seq<Event> :: Finishing(events) && Corrupt(c, Run(c, s, events))
  {
    if Danger(s) {
      var events := DangerCorrupts(c, s);
    } else {
      forall events: seq<Event> | Finishing(events) ensures !Corrupt(c, Run(c, s, events)) {
        FinishSafe(c, s, events);
      }
    }
  }

  /** The condition of `RunSafe` cannot be weakened: after any clash-free run, an event that brings about a
      clash can be continued to a damaged table. */
  lemma ClashCorrupts(c: Config, s: System, before: seq<Event>, e: Event) returns (after: seq<Event>)
    requires Safe(c, s) && ClashFree(c, s, before) && Clash(Step(c, Run(c, s, before), e))
    requires Canonical(Step(c, Run(c, s, before), e).canon, MAX_UINT64) == Zero
    ensures Finishing(after) && Corrupt(c, Run(c, s, before + [e] + after))
  {
    var s1 := Step(c, Run(c, s, before), e);
    RunSafe(c, s, before);
    StepIntact(c, Run(c, s, before), e);
    after := DangerCorrupts(c, s1);
    RunThen(c, s, before, e);
    RunAppend(c, s, before + [e], after);
  }

  // ---------------------------------------------------------------- schedules that go wrong

  lemma RunTwo(c: Config, s: System, a: Event, b: Event)
    requires c.size > 0
    ensures Run(c, s, [a, b]) == Step(c, Step(c, s, a), b)
  {
    RunOne(c, s, a);
    RunThen(c, s, [a], b);
    assert [a] + [b] == [a, b];
  }

  /** The wrapped counter keeps both loops going: whatever happens, the lock stays taken and the drop stays in
      progress for every number of steps below the counter. */
  lemma {:induction false} LoopsHold(c: Config, s: System, events: seq<Event>)
    requires c.size > 0 && |events| < s.ix.stored
    requires s.lock.Trimming? && s.lock.target == 0 && !s.lock.at.Count? && !s.lock.at.Last?
    requires Active(s.worker) && !s.worker.at.Last?
    ensures Run(c, s, events).lock.Trimming? && Active(Run(c, s, events).worker)
    decreases |events|
  {
    if events == [] {
    } else {
      LoopsHold(c, Step(c, s, events[0]), events[1..]);
    }
  }

  /** A notice and a drop that have both written their counts: each decrements once, and both delete the same
      head. The one above it is skipped. */
  lemma HeadSkipped(c: Config, s: System) returns (events: seq<Event>, t: System)
    requires c.size > 0 && s.ix.stored >= 2 && s.lock.Trimming? && s.lock.at.Test? && s.lock.target < s.ix.stored
    requires s.worker == Dropping(Test)
    ensures Run(c, s, events) == t
    ensures t == s.(ix := s.ix.(stored := s.ix.stored - 2, heads := s.ix.heads - {s.ix.stored - 2}))
  {
    var n := s.ix.stored;
    var s1 := s.(lock := s.lock.(at := Delete), ix := s.ix.(stored := n - 1));
    var s2 := s1.(worker := Dropping(Delete), ix := s.ix.(stored := n - 2));
    t := s.(ix := s.ix.(stored := n - 2, heads := s.ix.heads - {n - 2}));
    RunTwo(c, s, Proceed, Proceed);
    RunTwo(c, s1, Drop, Drop);
    RunTwo(c, s2, Proceed, Drop);
    assert s.ix.heads - {n - 2} - {n - 2} == s.ix.heads - {n - 2};
    RunThree(c, s, s1, s2, [Proceed, Proceed], [Drop, Drop], [Proceed, Drop]);
    events := [Proceed, Proceed] + [Drop, Drop] + [Proceed, Drop];
  }

  /** The notice goes on to its end, at most down to its target. */
  lemma NoticeEnds(c: Config, s: System) returns (n: nat, t: System)
    requires c.size > 0 && s.lock.Trimming? && s.lock.who.Notice? && s.lock.at.Test?
    ensures Run(c, s, Repeat(Proceed, n)) == t && t.lock.Free? && t.worker == s.worker && t.ix.count == s.ix.count
    ensures t.ix.stored == s.lock.target
    ensures forall i | i in s.ix.heads && i >= s.ix.stored :: i in t.ix.heads
  {
    if s.lock.target <= s.ix.stored {
      n := TrimEnds(c, s);
      t := Trimmed(c, s.(ix := Cut(s.ix, s.lock.target)), s.lock.who);
    } else {
      n := 2;
      RepeatStep(c, s, Proceed, 2);
      RepeatStep(c, s.(lock := s.lock.(at := Last)), Proceed, 1);
      t := Run(c, s, Repeat(Proceed, n));
    }
  }

  /** A head is left over: of two or more sections a notice gives up some, and the drop begins right after the
      notice has written its count. First and last write of the notice come before those of the drop, yet the
      top head stays in the table for good, above a count of zero. */
  lemma HeadLeftOver(c: Config, s: System, head: nat) returns (events: seq<Event>)
    requires Safe(c, s) && s.lock.Free? && Resetting(c, s.worker)
    requires s.ix.stored >= 2 && (head + 1) / c.size < s.ix.stored
    ensures var t := Run(c, s, events);
            t.ix.stored == t.ix.count == 0 && s.ix.stored - 1 in t.ix.heads && Quiet(t) && Corrupt(c, t)
  {
    assert SectionOk(c, s.ix.heads, s.ix.stored - 1);
    var s1 := Step(c, TakeNotice(c, s, head), Proceed);
    RunTwo(c, s, ReorgTo(head), Proceed);
    var s2 := s1.(worker := Dropping(Test), ix := s1.ix.(count := 0));
    RunTwo(c, s1, ResetFails, Drop);
    var skip, s3 := HeadSkipped(c, s2);
    RunThree(c, s, s1, s2, [ReorgTo(head), Proceed], [ResetFails, Drop], skip);
    var n, s4 := NoticeEnds(c, s3);
    DropEnds(c, s4);
    var first := [ReorgTo(head), Proceed] + [ResetFails, Drop] + skip;
    RunThree(c, s, s3, s4, first, Repeat(Proceed, n), Repeat(Drop, 3 * s4.ix.stored + 2));
    events := first + Repeat(Proceed, n) + Repeat(Drop, 3 * s4.ix.stored + 2);
  }

  /** What is left of a notice after the drop. */
  lemma NoticeAfterDrop(c: Config, s: System) returns (n: nat, t: System)
    requires c.size > 0 && s.ix.stored == s.ix.count == 0 && s.ix.heads == map[] && s.worker.Broken?
    requires s.lock.Free? || (s.lock.Trimming? && s.lock.at.Count? && s.lock.who.Notice?)
    ensures n == 3 && t == Run(c, s, Repeat(Proceed, n))
    ensures t.ix.heads == map[] && t.lock.Free? && t.worker.Broken?
    ensures t.ix.stored == t.ix.count == if s.lock.Free? then 0 else s.lock.target
  {
    var s1 := Step(c, s, Proceed);
    ThreeSteps(c, s, s1, Step(c, s1, Proceed), Proceed);
    n, t := 3, Run(c, s, Repeat(Proceed, 3));
  }

  lemma EmptyIff(c: Config, ix: Index)
    requires c.size > 0 && ix.heads == map[] && ix.count == ix.stored
    ensures Consistent(c, ix) <==> ix.stored == 0
  {
    if ix.stored > 0 {
      NoHeads(c, ix);
    }
  }

  /** A reset that fails right after a reorg notice has passed its test, and whose drop is over before the
      notice goes on. */
  function ResetInNotice(head: nat, stored: nat): seq<Event> {
    [ReorgTo(head), ResetFails] + Repeat(Drop, 3 * stored + 3) + Repeat(Proceed, 3)
  }

  /** The table survives that if and only if the notice gives up all sections or none. */
  lemma ResetInNoticeIff(c: Config, s: System, head: nat) returns (events: seq<Event>)
    requires Safe(c, s) && s.lock.Free? && Resetting(c, s.worker)
    ensures events == ResetInNotice(head, s.ix.stored) && Quiet(Run(c, s, events))
    ensures Consistent(c, Run(c, s, events).ix) <==> !(0 < (head + 1) / c.size < s.ix.stored)
  {
    var s1 := TakeNotice(c, s, head).(worker := Dropping(Count));
    var s2 := s1.(ix := Emptied(s1.ix), worker := Broken);
    RunTwo(c, s, ReorgTo(head), ResetFails);
    DropWhole(c, s1);
    var n, t := NoticeAfterDrop(c, s2);
    var first, drop := [ReorgTo(head), ResetFails], Repeat(Drop, 3 * s1.ix.stored + 3);
    RunThree(c, s, s1, s2, first, drop, Repeat(Proceed, n));
    EmptyIff(c, t.ix);
    events := first + drop + Repeat(Proceed, n);
  }

  /** A reset that fails right after a query has read the last head, and whose drop is over before the query
      compares it with the chain. */
  function ResetInQuery(stored: nat): seq<Event> {
    ([Query] + Repeat(Proceed, 2) + [ResetFails]) + Repeat(Drop, 3 * stored + 3) + Repeat(Proceed, 5)
  }

  lemma {:induction false} FreeStays(c: Config, s: System, n: nat)
    requires c.size > 0 && s.lock.Free?
    ensures Run(c, s, Repeat(Proceed, n)) == s
  {
    if n == 0 {
    } else {
      RepeatStep(c, s, Proceed, n);
      FreeStays(c, s, n - 1);
    }
  }

  /** The query up to the comparison. */
  lemma QueryReads(c: Config, s: System) returns (n: nat, s1: System)
    requires Safe(c, s) && s.lock.Free?
    ensures n == 2 && Run(c, s, [Query] + Repeat(Proceed, n)) == s1
    ensures s1 == if s.ix.stored == 0 then s else s.(lock := Comparing(Reader, SectionHead(s.ix, s.ix.stored - 1)))
  {
    n := 2;
    var looking := s.(lock := Looking(Reader));
    RunOne(c, s, Query);
    RunAppend(c, s, [Query], Repeat(Proceed, n));
    RepeatStep(c, looking, Proceed, 2);
    RepeatStep(c, Step(c, looking, Proceed), Proceed, 1);
    s1 := Run(c, looking, Repeat(Proceed, n));
  }

  /** What is left of the query after the drop. */
  lemma QueryAfterDrop(c: Config, s: System) returns (n: nat, t: System)
    requires c.size > 0 && s.ix.stored == s.ix.count == 0 && Canonical(s.canon, MAX_UINT64) == Zero
    requires s.lock.Free? || (s.lock.Comparing? && s.lock.who.Reader? && s.lock.head != Zero)
    ensures n == 5 && t == Run(c, s, Repeat(Proceed, n)) && t.ix.heads == s.ix.heads
    ensures t.ix.stored == t.ix.count == if s.lock.Free? then 0 else MAX_UINT64
  {
    if s.lock.Free? {
      FreeStays(c, s, 5);
      n, t := 5, s;
    } else {
      n := WrapsFromZero(c, s);
      t := Run(c, s, Repeat(Proceed, n));
    }
  }

  /** The table survives that if and only if nothing was stored; whether the last section was on the chain
      does not matter. Otherwise the query rolls back from zero sections, and the count wraps around, in
      memory and on disk. */
  lemma ResetInQueryIff(c: Config, s: System) returns (events: seq<Event>)
    requires Safe(c, s) && s.lock.Free? && Resetting(c, s.worker) && Canonical(s.canon, MAX_UINT64) == Zero
    ensures events == ResetInQuery(s.ix.stored)
    ensures var after := Run(c, s, events).ix;
            && (Consistent(c, after) <==> s.ix.stored == 0)
            && after.heads == map[] && after.stored == after.count == if s.ix.stored == 0 then 0 else MAX_UINT64
  {
    if s.ix.stored > 0 {
      assert SectionOk(c, s.ix.heads, s.ix.stored - 1);
    }
    var n, s1 := QueryReads(c, s);
    var s2 := s1.(worker := Dropping(Count));
    RunThen(c, s, [Query] + Repeat(Proceed, n), ResetFails);
    DropWhole(c, s2);
    var s3 := s2.(ix := Emptied(s2.ix), worker := Broken);
    var k, t := QueryAfterDrop(c, s3);
    var first, drop := [Query] + Repeat(Proceed, n) + [ResetFails], Repeat(Drop, 3 * s2.ix.stored + 3);
    RunThree(c, s, s2, s3, first, drop, Repeat(Proceed, k));
    EmptyIff(c, t.ix);
    events := first + drop + Repeat(Proceed, k);
  }

  /** On uint64, the number of the last block of 2^64-1 sections. */
  lemma WrappedLastBlock(c: Config)
    requires 0 < c.size <= MAX_UINT64
    ensures LastBlock(c, MAX_UINT64) == MAX_UINT64 - c.size
  {
    assert MAX_UINT64 * c.size == (c.size - 1) * TWO_64 + (TWO_64 - c.size);
  }

  /** The wrapped count is then accepted: with no head stored and no block at the number the code computes, the
      zero hash is compared with the zero hash. */
  lemma WrappedCountStays(c: Config, s: System)
    requires 0 < c.size <= MAX_UINT64 && s.lock == Looking(Reader) && s.ix.stored == MAX_UINT64 && s.ix.heads == map[]
    requires Canonical(s.canon, MAX_UINT64 - c.size) == Zero
    ensures Run(c, s, Repeat(Proceed, 3)) == s.(lock := Free)
  {
    WrappedLastBlock(c);
    ThreeSteps(c, s, s.(lock := Reading(Reader)), s.(lock := Comparing(Reader, Zero)), Proceed);
  }

  // ---------------------------------------------------------------- runs from the empty index

  predicate Fresh(s: System) {
    s.ix == Index(0, 0, 0, map[], 0) && s.lock.Free? && s.worker.Idle?
  }

  /** A head notice at the last block of section `k - 1`, plus confirmations, makes `k` sections known. */
  lemma {:induction false} NoticeKnows(c: Config, ix: Index, k: nat)
    requires c.size > 0 && k > 0 && ix.known < k
    ensures NewHead(c, ix, LastOf(c, k - 1) + c.confirms, false) == ix.(known := k)
  {
    var head := LastOf(c, k - 1) + c.confirms;
    var known := NewHead(c, ix, head, false).known;
    KnownSections(c, ix, head, k - 1);
    KnownSections(c, ix, head, k);
    assert k - 1 < known && !(k < known);
  }

  lemma NoticeReachable(c: Config, s: System, head: Header, k: nat) returns (s1: System)
    requires Safe(c, s) && Reachable(c, s, head) && s.lock.Free? && s.worker.Idle? && s.ix.known < k
    requires LastOf(c, k - 1) + c.confirms < MAX_UINT64 && LastOf(c, k - 1) <= head.number
    ensures s1 == Run(c, s, [HeadNotice(LastOf(c, k - 1) + c.confirms)])
    ensures s1 == s.(ix := s.ix.(known := k)) && Safe(c, s1) && Reachable(c, s1, head)
    ensures Settled(c, s.ix, head) ==> Settled(c, s1.ix, head)
  {
    var e := HeadNotice(LastOf(c, k - 1) + c.confirms);
    NoticeKnows(c, s.ix, k);
    StepIntact(c, s, e);
    RunOne(c, s, e);
    s1 := Step(c, s, e);
    if Settled(c, s.ix, head) {
      NoticeKeeps(c, s.ix, LastOf(c, k - 1) + c.confirms, head);
    }
  }

  /** Over any chain with enough blocks, a run from the empty index stores `k` sections. */
  lemma ReachStored(c: Config, start: System, head: Header, k: nat) returns (events: seq<Event>, s: System)
    requires Fresh(start) && Reachable(c, start, head)
    requires k > 0 ==> LastOf(c, k - 1) + c.confirms < MAX_UINT64 && LastOf(c, k - 1) <= head.number
    ensures Run(c, start, events) == s && Rests(c, s) && Reachable(c, s, head) && s.ix.stored == s.ix.known == k
  {
    InitSafe(c, start.db, start.canon);
    if k == 0 {
      events, s := [], start;
    } else {
      var s1 := NoticeReachable(c, start, head, k);
      var more;
      more, s := WorkerCatchesUp(c, s1, head);
      RunAppend(c, start, [HeadNotice(LastOf(c, k - 1) + c.confirms)], more);
      events := [HeadNotice(LastOf(c, k - 1) + c.confirms)] + more;
    }
  }

  /** Beginning a section on a table that is on the chain gives up nothing. */
  lemma BeginSettled(c: Config, s: System, head: Header) returns (events: seq<Event>, s1: System)
    requires Safe(c, s) && Reachable(c, s, head) && s.lock.Free? && s.worker.Idle? && s.ix.stored < s.ix.known
    requires Settled(c, s.ix, head)
    ensures Run(c, s, events) == s1 && Begun(c, s1, head) && s1.ix.stored == s.ix.stored
  {
    VerifyLongest(c, s.ix, head, s.ix.stored);
    events, s1 := BeginSection(c, s, head);
  }

  /** And begins section `k`. */
  lemma ReachSection(c: Config, start: System, head: Header, k: nat) returns (events: seq<Event>, s: System)
    requires Fresh(start) && Reachable(c, start, head)
    requires LastOf(c, k) + c.confirms < MAX_UINT64 && LastOf(c, k) <= head.number
    ensures Run(c, start, events) == s && Begun(c, s, head) && s.ix.stored == k
  {
    var first, s1 := ReachStored(c, start, head, k);
    var s2 := NoticeReachable(c, s1, head, k + 1);
    var third;
    third, s := BeginSettled(c, s2, head);
    var second := [HeadNotice(LastOf(c, k) + c.confirms)];
    RunThree(c, start, s1, s2, first, second, third);
    events := first + second + third;
  }

  /** The race happens: over any chain with three sections, a run from the empty index in which the reset for
      the third section fails while a reorg notice gives up the second ends with one section counted, in
      memory and on disk, and no head stored. */
  lemma ResetRaceHappens(c: Config, start: System, head: Header) returns (events: seq<Event>)
    requires Fresh(start) && Reachable(c, start, head)
    requires LastOf(c, 2) + c.confirms < MAX_UINT64 && LastOf(c, 2) <= head.number
    ensures !Consistent(c, Run(c, start, events).ix)
  {
    var before, s := ReachSection(c, start, head, 2);
    var fork := LastOf(c, 0);
    SectionsComplete(c, fork, 0);
    SectionsComplete(c, fork, 1);
    var race := ResetInNoticeIff(c, s, fork);
    RunAppend(c, start, before, race);
    events := before + race;
  }

  /** So does the one that leaves a head over. */
  lemma LeftOverHappens(c: Config, start: System, head: Header) returns (events: seq<Event>)
    requires Fresh(start) && Reachable(c, start, head)
    requires LastOf(c, 3) + c.confirms < MAX_UINT64 && LastOf(c, 3) <= head.number
    ensures var t := Run(c, start, events); t.ix.stored == t.ix.count == 0 && 2 in t.ix.heads && Quiet(t)
  {
    var before, s := ReachSection(c, start, head, 3);
    var fork := LastOf(c, 1);
    SectionsComplete(c, fork, 1);
    SectionsComplete(c, fork, 2);
    var race := HeadLeftOver(c, s, fork);
    RunAppend(c, start, before, race);
    events := before + race;
  }

  // ---------------------------------------------------------------- a stale commit

  lemma StaleEnd(c: Config, s: System)
    requires Safe(c, s) && s.lock.Free? && s.worker.Working? && s.worker.section == s.ix.stored
    requires s.worker.next == LastOf(c, s.ix.stored) + 1 && s.worker.lastHead != Canonical(s.canon, LastOf(c, s.ix.stored))
    ensures var t := Step(c, s, End);
            && t.canon == s.canon && Consistent(c, t.ix)
            && t.ix.stored == s.ix.stored + 1 && !OnChain(c, t.ix, t.canon, s.ix.stored)
  {
    var w := s.worker;
    FinishKeeps(c, s.ix, w.section, w.oldHead, Some(w.lastHead), Snapshot(c, s.canon));
  }

  /** The chain moves, and the notice of it gives up nothing. */
  lemma MovedAndNoticed(c: Config, s: System, canon: map<nat, Hash>, fork: nat) returns (t: System)
    requires Safe(c, s) && s.lock.Free? && !s.worker.Dropping? && s.ix.stored <= (fork + 1) / c.size
    ensures t == Run(c, s, [ChainMoves(s.db, canon), ReorgTo(fork)]) && Safe(c, t)
    ensures t.lock.Free? && t.worker == s.worker && t.canon == canon && t.ix.stored == s.ix.stored
  {
    var s1 := Step(c, s, ChainMoves(s.db, canon));
    RunTwo(c, s, ChainMoves(s.db, canon), ReorgTo(fork));
    StepIntact(c, s, ChainMoves(s.db, canon));
    StepIntact(c, s1, ReorgTo(fork));
    t := Step(c, s1, ReorgTo(fork));
  }

  /** A section is read on one chain and committed on another that has replaced it. */
  lemma CommitsStale(c: Config, s: System, left: Header, canon: map<nat, Hash>, fork: nat) returns (events: seq<Event>)
    requires Begun(c, s, left) && s.ix.stored <= (fork + 1) / c.size && LastOf(c, s.ix.stored) <= left.number
    requires Canonical(canon, LastOf(c, s.ix.stored)) != Of(At(left, LastOf(c, s.ix.stored)))
    ensures var t := Run(c, s, events);
            && t.canon == canon && Consistent(c, t.ix)
            && t.ix.stored == s.ix.stored + 1 && !OnChain(c, t.ix, t.canon, s.ix.stored)
  {
    var n := ReadSection(c, s, left);
    var read := ReadUp(c, s, left);
    var s1 := MovedAndNoticed(c, read, canon, fork);
    RunThree(c, s, read, s1, Repeat(ReadHeader, n), [ChainMoves(s.db, canon), ReorgTo(fork)], [End]);
    RunOne(c, s1, End);
    StaleEnd(c, s1);
    events := Repeat(ReadHeader, n) + [ChainMoves(s.db, canon), ReorgTo(fork)] + [End];
  }

  /** A replaced section is committed: over any two chains that part inside section `k`, a run from the empty
      index reads the section on one of them, the chain moves to the other, the reorg notice arrives, and
      the section of the first is stored all the same. */
  lemma StaleCommitHappens(c: Config, start: System, left: Header, right: Header, k: nat, fork: nat)
    returns (events: seq<Event>)
    requires Fresh(start) && Reachable(c, start, left) && Rooted(right) && k <= (fork + 1) / c.size
    requires LastOf(c, k) + c.confirms < MAX_UINT64 && LastOf(c, k) <= left.number && LastOf(c, k) <= right.number
    requires At(left, LastOf(c, k)) != At(right, LastOf(c, k))
    ensures var t := Run(c, start, events);
            t.canon == Ancestry(right) && t.ix.stored == k + 1 && !OnChain(c, t.ix, t.canon, k)
  {
    var before, s := ReachSection(c, start, left, k);
    var after := CommitsStale(c, s, left, Ancestry(right), fork);
    RunAppend(c, start, before, after);
    events := before + after;
  }
}
