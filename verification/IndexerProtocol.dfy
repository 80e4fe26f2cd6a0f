/** The section indexer as a concurrent system. The worker processes a section without the lock, while
    notices, queries and chain updates land between any two of its steps. The chain database is not
    covered by the indexer's lock, so the chain may also change between the reads of one locked
    operation. And a backend that cannot be reset makes the worker drop the whole index without the
    lock, so the drop may land inside a locked operation.

    A step is one statement that reads or writes the shared table. Roll-backs and the drop run the same
    routine, and each statement of its loop is a step of its own. */
module IndexerProtocol {
  import opened Prelude
  import opened Headers
  import opened ChainIndexer

  // ---------------------------------------------------------------- state

  /** Whose locked operation it is: a reader's, the worker's before or after a section, or a reorg notice
      back to a number of sections. */
  datatype Caller = Reader | Starter | Closer | Notice(sections: nat)

  /** The next statement of the routine that trims the table to a target: write the count, test the loop
      condition, decrement the counter, delete the head at the counter, write the counter. */
  datatype Stage = Count | Test | Decrement | Delete | Last

  /** The progress of the operation that holds the lock: it looks whether a section is stored, reads the
      last head, compares it with the chain, decides to roll back, and trims the table. */
  datatype Lock =
    | Free
    | Looking(who: Caller)
    | Reading(who: Caller)
    | Comparing(who: Caller, head: Hash)
    | Rolling(who: Caller)
    | Trimming(who: Caller, target: nat, at: Stage)

  /** The worker: the section in flight, the section head captured under the lock, the last header
      processed, and the next number. `Dropping` is the unlocked drop, `Broken` a failed section. */
  datatype Worker =
    | Idle
    | Working(section: nat, oldHead: Hash, lastHead: Hash, next: nat)
    | Dropping(at: Stage)
    | Broken

  datatype System = System(ix: Index, lock: Lock, worker: Worker, db: set<Header>, canon: map<nat, Hash>)

  datatype Event =
    | ChainMoves(db: set<Header>, canon: map<nat, Hash>)
    | HeadNotice(head: nat)
    | ReorgTo(head: nat)
    | Query
    | Begin
    | Proceed
    | ReadHeader
    | BackendFails
    | ResetFails
    | Drop
    | End

  // ---------------------------------------------------------------- steps

  /** The number read for the end of the last of `stored` sections, computed on uint64. */
  function LastBlock(c: Config, stored: nat): nat {
    Pred(Wrap64(stored * c.size))
  }

  /** One statement of the routine that trims the table; None when it is over. Counters are uint64. */
  function TrimStep(ix: Index, target: nat, at: Stage): (Index, Option<Stage>) {
    match at
    case Count => (ix.(count := target), Some(Test))
    case Test => (ix, Some(if ix.stored > target then Decrement else Last))
    case Decrement => (ix.(stored := Pred(ix.stored)), Some(Delete))
    case Delete => (ix.(heads := ix.heads - {ix.stored}), Some(Test))
    case Last => (ix.(stored := target), None)
  }

  /** The end of a verification. */
  function Return(c: Config, s: System, who: Caller): System
    requires c.size > 0
  {
    match who
    case Starter =>
      var section := s.ix.stored;
      var oldHead := if section == 0 then Zero else SectionHead(s.ix, section - 1);
      s.(lock := Free, worker := Working(section, oldHead, oldHead, FirstOf(c, section)))
    case Closer => s.(lock := Free, worker := Idle, ix := s.ix.(known := s.ix.stored))
    case _ => s.(lock := Free)
  }

  /** The end of a reorg notice. */
  function Noticed(c: Config, s: System, sections: nat): System {
    s.(lock := Free, ix := s.ix.(cascaded := Min(sections * c.size, s.ix.cascaded)))
  }

  /** The end of a roll-back: a notice is over, a verification looks again. */
  function Trimmed(c: Config, s: System, who: Caller): System {
    if who.Notice? then Noticed(c, s, who.sections) else s.(lock := Looking(who))
  }

  /** The next step of the operation that holds the lock. */
  function NextStep(c: Config, s: System): System
    requires c.size > 0
  {
    match s.lock
    case Free => s
    case Looking(who) => if s.ix.stored == 0 then Return(c, s, who) else s.(lock := Reading(who))
    case Reading(who) => s.(lock := Comparing(who, SectionHead(s.ix, Pred(s.ix.stored))))
    case Comparing(who, head) =>
      if head == Canonical(s.canon, LastBlock(c, s.ix.stored)) then Return(c, s, who) else s.(lock := Rolling(who))
    case Rolling(who) => s.(lock := Trimming(who, Pred(s.ix.stored), Count))
    case Trimming(who, target, at) =>
      var (ix, next) := TrimStep(s.ix, target, at);
      if next.Some? then s.(ix := ix, lock := s.lock.(at := next.value)) else Trimmed(c, s.(ix := ix), who)
  }

  /** The next step of the drop. */
  function DropStep(s: System): System
    requires s.worker.Dropping?
  {
    var (ix, next) := TrimStep(s.ix, 0, s.worker.at);
    s.(ix := ix, worker := if next.Some? then Dropping(next.value) else Broken)
  }

  /** A reorg notice takes the lock and tests whether sections are to be given up. */
  function TakeNotice(c: Config, s: System, head: nat): System
    requires c.size > 0
  {
    var sections := (head + 1) / c.size;
    var s1 := s.(ix := s.ix.(known := Min(sections, s.ix.known)));
    if sections < s.ix.stored then s1.(lock := Trimming(Notice(sections), sections, Count)) else Noticed(c, s1, sections)
  }

  /** The end of an update: the section is committed if nothing below it was reorged away, otherwise the
      table is verified. */
  function EndUpdate(c: Config, s: System): System
    requires c.size > 0 && s.worker.Working?
  {
    var section := s.worker.section;
    if section == 0 || s.worker.oldHead == SectionHead(s.ix, section - 1)
    then s.(ix := Finish(c, s.ix, section, s.worker.oldHead, Some(s.worker.lastHead), Snapshot(c, s.canon)), worker := Idle)
    else s.(worker := Broken, lock := Looking(Closer))
  }

  function ReadStep(c: Config, s: System): System
    requires c.size > 0 && s.worker.Working?
  {
    var hash := ReadNext(s.db, s.canon, s.worker.next, s.worker.lastHead);
    if hash.Some? then s.(worker := s.worker.(lastHead := hash.value, next := s.worker.next + 1))
    else s.(worker := Broken)
  }

  /** The worker is about to reset the backend for its section. */
  predicate Resetting(c: Config, w: Worker)
    requires c.size > 0
  {
    w.Working? && w.next == FirstOf(c, w.section)
  }

  /** One step; an event that is not enabled changes nothing. Block numbers stay below 2^64-1. */
  function Step(c: Config, s: System, e: Event): System
    requires c.size > 0
  {
    match e
    case ChainMoves(db, canon) => s.(db := db, canon := canon)
    case HeadNotice(head) => if s.lock.Free? && head < MAX_UINT64 then s.(ix := NewHead(c, s.ix, head, false)) else s
    case ReorgTo(head) => if s.lock.Free? then TakeNotice(c, s, head) else s
    case Query => if s.lock.Free? then s.(lock := Looking(Reader)) else s
    case Begin =>
      if s.lock.Free? && s.worker.Idle? && s.ix.known > s.ix.stored then s.(lock := Looking(Starter)) else s
    case Proceed => NextStep(c, s)
    case ReadHeader => if s.worker.Working? && s.worker.next <= LastOf(c, s.worker.section) then ReadStep(c, s) else s
    case BackendFails => if s.worker.Working? then s.(worker := Broken) else s
    case ResetFails => if Resetting(c, s.worker) then s.(worker := Dropping(Count)) else s
    case Drop => if s.worker.Dropping? then DropStep(s) else s
    case End =>
      if s.lock.Free? && s.worker.Broken? then s.(lock := Looking(Closer))
      else if s.lock.Free? && s.worker.Working? && s.worker.next > LastOf(c, s.worker.section) then EndUpdate(c, s)
      else s
  }

  function Run(c: Config, s: System, events: seq<Event>): System
    requires c.size > 0
    decreases |events|
  {
    if events == [] then s else Run(c, Step(c, s, events[0]), events[1..])
  }

  // ---------------------------------------------------------------- the invariant

  /** The operation has looked at the table and has not made its last write. */
  predicate Busy(l: Lock) {
    !l.Free? && !l.Looking?
  }

  /** The drop has made its first write and not its last. */
  predicate Active(w: Worker) {
    w.Dropping? && !w.at.Count?
  }

  /** A drop overlaps a locked operation while something is stored. */
  predicate Clash(s: System) {
    Busy(s.lock) && Active(s.worker) && s.ix.stored > 0
  }

  /** The last block of `n` sections has a number below 2^64-1. */
  predicate InRange(c: Config, n: nat)
    requires c.size > 0
  {
    n == 0 || LastOf(c, n - 1) < MAX_UINT64
  }

  /** The worker's own operations exclude its drop, and an operation and a drop are not both under way except
      where one of them has just begun or nothing is left to do. */
  predicate LockOk(l: Lock, w: Worker) {
    && (!l.Free? && l.who.Starter? ==> w.Idle?)
    && (!l.Free? && l.who.Closer? ==> w.Broken?)
    && (!l.Free? && l.who.Notice? ==> l.Trimming?)
    && (Busy(l) && Active(w) ==> l.Reading? || (l.Trimming? && l.at.Count?) || w.at.Test? || w.at.Last?)
  }

  /** What the next statement of a trimming routine may rely on. */
  predicate StageOk(stored: nat, target: nat, at: Stage) {
    match at
    case Count => true
    case Test => target <= stored
    case Decrement => target < stored
    case Delete => target <= stored
    case Last => target == stored
  }

  /** How far the operation that holds the lock has come. */
  predicate Underway(ix: Index, l: Lock) {
    match l
    case Reading(_) => ix.stored > 0
    case Comparing(_, head) => ix.stored > 0 && head == SectionHead(ix, ix.stored - 1)
    case Rolling(_) => ix.stored > 0
    case Trimming(_, target, at) => StageOk(ix.stored, target, at) && (at.Count? ==> target < ix.stored)
    case _ => true
  }

  /** The sections that have a head: between a decrement and the deletion there is one more than counted. */
  function Present(s: System): nat {
    s.ix.stored + if (s.lock.Trimming? && s.lock.at.Delete?) || (s.worker.Dropping? && s.worker.at.Delete?) then 1 else 0
  }

  /** The count on disk is written first. */
  function CountOnDisk(s: System): nat {
    if Active(s.worker) then 0 else if s.lock.Trimming? && !s.lock.at.Count? then s.lock.target else s.ix.stored
  }

  predicate WorkerOk(c: Config, ix: Index, w: Worker)
    requires c.size > 0
  {
    w.Working? ==>
      Captured(c, ix, w.section, w.oldHead) && Progress(c, w.section, w.oldHead, w.lastHead, w.next)
  }

  /** All section counts are in range. */
  predicate RangeOk(c: Config, s: System)
    requires c.size > 0
  {
    && InRange(c, s.ix.known) && InRange(c, s.ix.stored)
    && (s.worker.Working? ==> InRange(c, s.worker.section + 1))
    && (!s.lock.Free? && s.lock.who.Starter? ==> s.ix.stored < s.ix.known)
  }

  /** The heads form a section chain, and counters and stages fit it. This also holds right after a clash
      has begun. */
  ghost predicate Intact(c: Config, s: System) {
    && c.size > 0
    && LockOk(s.lock, s.worker) && Underway(s.ix, s.lock)
    && (s.worker.Dropping? ==> StageOk(s.ix.stored, 0, s.worker.at))
    && SectionChain(c, s.ix.(stored := Present(s)))
    && s.ix.count == CountOnDisk(s)
    && WorkerOk(c, s.ix, s.worker) && RangeOk(c, s)
  }

  ghost predicate Safe(c: Config, s: System) {
    Intact(c, s) && !Clash(s)
  }

  /** Nobody is changing the table. */
  predicate Quiet(s: System) {
    !s.worker.Dropping? && !s.lock.Trimming?
  }

  /** The last counted section has no head. */
  predicate Hollow(ix: Index) {
    ix.stored > 0 && ix.stored - 1 !in ix.heads
  }

  /** The table is damaged: a section is counted that has no head, or nobody is changing the table and it is
      not consistent. */
  ghost predicate Corrupt(c: Config, s: System) {
    Hollow(s.ix) || (Quiet(s) && !Consistent(c, s.ix))
  }

  /** A fresh indexer is safe. */
  lemma InitSafe(c: Config, db: set<Header>, canon: map<nat, Hash>)
    requires c.size > 0
    ensures Safe(c, System(Index(0, 0, 0, map[], 0), Free, Idle, db, canon))
  {
  }

  /** The table of an intact state is not damaged. */
  lemma IntactIsSound(c: Config, s: System)
    requires Intact(c, s)
    ensures !Corrupt(c, s)
  {
    if s.ix.stored > 0 {
      assert SectionOk(c, s.ix.heads, s.ix.stored - 1);
    }
  }

  // ---------------------------------------------------------------- ranges

  lemma {:induction false} InRangeDown(c: Config, m: nat, n: nat)
    requires c.size > 0 && m <= n && InRange(c, n)
    ensures InRange(c, m)
    decreases n
  {
    if m == n {
    } else {
      InRangeDown(c, m, n - 1);
    }
  }

  /** In range, the number computed on uint64 is the last block of the last section. */
  lemma LastBlockIs(c: Config, n: nat)
    requires c.size > 0 && n > 0 && InRange(c, n)
    ensures LastBlock(c, n) == LastOf(c, n - 1)
  {
    LastOfClosed(c, n - 1);
  }

  lemma KnownInRange(c: Config, ix: Index, head: nat)
    requires c.size > 0 && InRange(c, ix.known) && head < MAX_UINT64
    ensures InRange(c, NewHead(c, ix, head, false).known)
  {
    var known := NewHead(c, ix, head, false).known;
    if known > ix.known {
      SectionsComplete(c, head - c.confirms, known - 1);
    }
  }

  // ---------------------------------------------------------------- safety of every step

  /** Deleting the head above the counter keeps the chain. */
  lemma DeleteKeeps(c: Config, ix: Index)
    requires SectionChain(c, ix.(stored := ix.stored + 1))
    ensures SectionChain(c, ix.(heads := ix.heads - {ix.stored}))
  {
    var more := ix.(stored := ix.stored + 1);
    SetValidKeeps(c, more, ix.stored);
    assert SetValid(more, ix.stored).heads == ix.heads - {ix.stored};
  }

  lemma ReturnIntact(c: Config, s: System, who: Caller)
    requires Safe(c, s) && (s.lock.Looking? || s.lock.Comparing?) && s.lock.who == who
    ensures Intact(c, Return(c, s, who))
  {
    if who.Starter? {
      InRangeDown(c, s.ix.stored + 1, s.ix.known);
      if s.ix.stored > 0 {
        LastHead(c, s.ix);
      }
    }
  }

  lemma TrimIntact(c: Config, s: System)
    requires Safe(c, s) && s.lock.Trimming?
    ensures Intact(c, NextStep(c, s))
  {
    match s.lock.at
    case Delete => DeleteKeeps(c, s.ix);
    case Decrement => InRangeDown(c, s.ix.stored - 1, s.ix.stored);
    case _ =>
  }

  lemma NextStepIntact(c: Config, s: System)
    requires Safe(c, s)
    ensures Intact(c, NextStep(c, s))
  {
    match s.lock
    case Free =>
    case Looking(who) => ReturnIntact(c, s, who);
    case Reading(_) =>
    case Comparing(who, _) => ReturnIntact(c, s, who);
    case Rolling(_) =>
    case Trimming(_, _, _) => TrimIntact(c, s);
  }

  lemma DropIntact(c: Config, s: System)
    requires Safe(c, s) && s.worker.Dropping?
    ensures Intact(c, DropStep(s))
  {
    match s.worker.at
    case Delete => DeleteKeeps(c, s.ix);
    case Decrement => InRangeDown(c, s.ix.stored - 1, s.ix.stored);
    case _ =>
  }

  lemma NoticeIntact(c: Config, s: System, head: nat)
    requires Safe(c, s) && s.lock.Free?
    ensures Intact(c, TakeNotice(c, s, head))
    ensures head < MAX_UINT64 ==> Intact(c, s.(ix := NewHead(c, s.ix, head, false)))
  {
    InRangeDown(c, Min((head + 1) / c.size, s.ix.known), s.ix.known);
    if head < MAX_UINT64 {
      KnownInRange(c, s.ix, head);
    }
  }

  lemma EndUpdateIntact(c: Config, s: System)
    requires Safe(c, s) && s.lock.Free? && s.worker.Working? && s.worker.next > LastOf(c, s.worker.section)
    ensures Intact(c, EndUpdate(c, s))
  {
    var w := s.worker;
    FinishKeeps(c, s.ix, w.section, w.oldHead, Some(w.lastHead), Snapshot(c, s.canon));
  }

  /** Every step from a safe state leaves the table intact. */
  lemma StepIntact(c: Config, s: System, e: Event)
    requires Safe(c, s)
    ensures Intact(c, Step(c, s, e))
  {
    match e
    case ChainMoves(_, _) =>
    case HeadNotice(head) =>
      if s.lock.Free? { NoticeIntact(c, s, head); }
    case ReorgTo(head) =>
      if s.lock.Free? { NoticeIntact(c, s, head); }
    case Query =>
    case Begin =>
    case Proceed => NextStepIntact(c, s);
    case ReadHeader =>
      if s.worker.Working? && s.worker.next <= LastOf(c, s.worker.section) {
        ReadKeeps(c, s.db, s.canon, s.worker.section, s.worker.oldHead, s.worker.lastHead, s.worker.next);
      }
    case BackendFails =>
    case ResetFails =>
    case Drop =>
      if s.worker.Dropping? { DropIntact(c, s); }
    case End =>
      if s.lock.Free? && s.worker.Working? && s.worker.next > LastOf(c, s.worker.section) {
        EndUpdateIntact(c, s);
      }
  }

  /** No state of the run is a clash. */
  predicate ClashFree(c: Config, s: System, events: seq<Event>)
    requires c.size > 0
    decreases |events|
  {
    !Clash(s) && (events == [] || ClashFree(c, Step(c, s, events[0]), events[1..]))
  }

  /** Over every interleaving in which a drop and a locked operation do not overlap while something is
      stored, the stored sections stay a hash-linked chain; and whenever nobody is changing them, nothing
      stands above the count and the count on disk equals it. */
  lemma {:induction false} RunSafe(c: Config, s: System, events: seq<Event>)
    requires Safe(c, s) && ClashFree(c, s, events)
    ensures Safe(c, Run(c, s, events)) && !Corrupt(c, Run(c, s, events))
    decreases |events|
  {
    if events == [] {
      IntactIsSound(c, s);
    } else {
      StepIntact(c, s, events[0]);
      RunSafe(c, Step(c, s, events[0]), events[1..]);
    }
  }

  // ---------------------------------------------------------------- runs

  lemma {:induction false} RunAppend(c: Config, s: System, first: seq<Event>, second: seq<Event>)
    requires c.size > 0
    ensures Run(c, s, first + second) == Run(c, Run(c, s, first), second)
    decreases |first|
  {
    if first == [] {
      assert first + second == second;
    } else {
      assert (first + second)[1..] == first[1..] + second;
      RunAppend(c, Step(c, s, first[0]), first[1..], second);
    }
  }

  lemma RunOne(c: Config, s: System, e: Event)
    requires c.size > 0
    ensures Run(c, s, [e]) == Step(c, s, e)
  {
    assert Run(c, s, [e]) == Run(c, Step(c, s, e), []);
  }

  /** A run continued by one event. */
  lemma RunThen(c: Config, s: System, events: seq<Event>, e: Event)
    requires c.size > 0
    ensures Run(c, s, events + [e]) == Step(c, Run(c, s, events), e)
  {
    RunAppend(c, s, events, [e]);
    RunOne(c, Run(c, s, events), e);
  }

  function Repeat(e: Event, n: nat): seq<Event> {
    if n == 0 then [] else [e] + Repeat(e, n - 1)
  }

  lemma RepeatStep(c: Config, s: System, e: Event, n: nat)
    requires c.size > 0 && n > 0
    ensures Run(c, s, Repeat(e, n)) == Run(c, Step(c, s, e), Repeat(e, n - 1))
  {
    assert Repeat(e, n)[0] == e && Repeat(e, n)[1..] == Repeat(e, n - 1);
  }

  lemma {:induction false} RepeatSplit(e: Event, a: nat, b: nat)
    ensures Repeat(e, a + b) == Repeat(e, a) + Repeat(e, b)
  {
    if a == 0 {
    } else {
      RepeatSplit(e, a - 1, b);
    }
  }

  lemma RunRepeat(c: Config, s: System, e: Event, a: nat, b: nat)
    requires c.size > 0
    ensures Run(c, s, Repeat(e, a + b)) == Run(c, Run(c, s, Repeat(e, a)), Repeat(e, b))
  {
    RepeatSplit(e, a, b);
    RunAppend(c, s, Repeat(e, a), Repeat(e, b));
  }
}
