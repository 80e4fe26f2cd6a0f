/** The event feed: one-to-many delivery over a list of select cases that `Send` partitions in place. */
module Feed {
  import opened Prelude

  type Chan = nat

  /** Slot 0 receives removal requests; every other slot sends on a subscribed channel. */
  datatype Case = RemoveSub | Sub(ch: Chan)

  // ---------------------------------------------------------------- case lists

  /** The index of the first case for `ch`, -1 if there is none. */
  function Find(cs: seq<Case>, ch: Chan): (index: int)
    ensures -1 <= index < |cs|
    ensures index >= 0 ==> cs[index] == Sub(ch)
    ensures index == -1 <==> Sub(ch) !in cs
  {
    if cs == [] then -1
    else if cs[0] == Sub(ch) then 0
    else
      var rest := Find(cs[1..], ch);
      if rest == -1 then -1 else rest + 1
  }

  function Delete(cs: seq<Case>, index: nat): seq<Case>
    requires index < |cs|
  {
    cs[..index] + cs[index + 1..]
  }

  /** Moves the case at `index` to the end of the active prefix of length `k`. */
  function Deactivate(cs: seq<Case>, k: nat, index: nat): seq<Case>
    requires index < k <= |cs|
  {
    cs[index := cs[k - 1]][k - 1 := cs[index]]
  }

  /** A case list: the removal slot first, then subscriptions. A channel may be subscribed several times. */
  ghost predicate WellFormed(cs: seq<Case>) {
    && |cs| > 0 && cs[0] == RemoveSub
    && (forall i | 0 < i < |cs| :: cs[i].Sub?)
  }

  ghost predicate AllSubs(cs: seq<Case>) {
    forall i | 0 <= i < |cs| :: cs[i].Sub?
  }

  lemma DeleteCounts(cs: seq<Case>, i: nat)
    requires i < |cs|
    ensures multiset(Delete(cs, i)) == multiset(cs) - multiset{cs[i]}
  {
    assert cs == cs[..i] + [cs[i]] + cs[i + 1..];
  }

  /** Swapping two cases of a list keeps what it holds. */
  lemma SwapCounts(cs: seq<Case>, i: nat, j: nat)
    requires i < |cs| && j < |cs|
    ensures multiset(cs[i := cs[j]][j := cs[i]]) == multiset(cs)
  {
  }

  /** How often `c` stands in the slots from `lo` up to, not including, `hi`. */
  function Count(cs: seq<Case>, lo: nat, hi: nat, c: Case): nat
    requires lo <= hi <= |cs|
  {
    if lo == hi then 0 else Count(cs, lo, hi - 1, c) + if cs[hi - 1] == c then 1 else 0
  }

  function Times(cs: seq<Case>, c: Case): nat {
    Count(cs, 0, |cs|, c)
  }

  lemma {:induction false} CountFrame(a: seq<Case>, lo: nat, hi: nat, b: seq<Case>, from: nat, c: Case)
    requires lo <= hi <= |a| && from + (hi - lo) <= |b|
    requires forall j | lo <= j < hi :: a[j] == b[j - lo + from]
    ensures Count(a, lo, hi, c) == Count(b, from, from + (hi - lo), c)
  {
    if lo == hi {
    } else {
      CountFrame(a, lo, hi - 1, b, from, c);
    }
  }

  lemma {:induction false} CountJoin(cs: seq<Case>, lo: nat, mid: nat, hi: nat, c: Case)
    requires lo <= mid <= hi <= |cs|
    ensures Count(cs, lo, hi, c) == Count(cs, lo, mid, c) + Count(cs, mid, hi, c)
  {
    if mid == hi {
    } else {
      CountJoin(cs, lo, mid, hi - 1, c);
    }
  }

  /** Slot `i` apart from the slots before and behind it. */
  lemma CountAt(cs: seq<Case>, lo: nat, i: nat, hi: nat, c: Case)
    requires lo <= i < hi <= |cs|
    ensures Count(cs, lo, hi, c) == Count(cs, lo, i, c) + (if cs[i] == c then 1 else 0) + Count(cs, i + 1, hi, c)
  {
    CountJoin(cs, lo, i + 1, hi, c);
  }

  lemma TimesAppend(cs: seq<Case>, x: Case, c: Case)
    ensures Times(cs + [x], c) == Times(cs, c) + if x == c then 1 else 0
  {
    CountFrame(cs + [x], 0, |cs|, cs, 0, c);
  }

  lemma SubmultisetSize(a: multiset<Case>, b: multiset<Case>)
    requires a <= b
    ensures |a| <= |b|
  {
    assert b == a + (b - a);
  }

  lemma {:induction false} PrefixCount(cs: seq<Case>, n: nat, c: Case)
    requires n <= |cs|
    ensures Count(cs, 0, n, c) == multiset(cs[..n])[c]
  {
    if n == 0 {
    } else {
      PrefixCount(cs, n - 1, c);
      assert cs[..n] == cs[..n - 1] + [cs[n - 1]];
    }
  }

  lemma TimesCounts(cs: seq<Case>, c: Case)
    ensures Times(cs, c) == multiset(cs)[c]
  {
    PrefixCount(cs, |cs|, c);
    assert cs[..|cs|] == cs;
  }

  /** Lists that hold every case equally often are permutations of each other. */
  lemma SameTimes(a: seq<Case>, b: seq<Case>)
    requires forall c: Case :: Times(a, c) == Times(b, c)
    ensures multiset(a) == multiset(b) && |a| == |b|
  {
    forall c: Case ensures multiset(a)[c] == multiset(b)[c] {
      assert Times(a, c) == Times(b, c);
      TimesCounts(a, c);
      TimesCounts(b, c);
    }
    assert multiset(a) == multiset(b);
    assert |a| == |multiset(a)| && |b| == |multiset(b)|;
  }

  // ---------------------------------------------------------------- one send

  /** A send in progress: the length of the active prefix, the subscriptions when it took the lock, those
      removed since, and the deliveries so far. */
  datatype Session = Session(k: nat, start: seq<Case>, removed: seq<Case>, delivered: seq<Case>)

  /** For a subscription that stands `waiting` times in the active prefix and `served` times behind it: both
      and the removed ones add up to the start; what stands behind has got the value; and what waits can
      still get it without anyone getting it too often. */
  predicate Balanced(waiting: nat, served: nat, se: Session, c: Case) {
    && waiting + served + Times(se.removed, c) == Times(se.start, c)
    && served <= Times(se.delivered, c)
    && Times(se.delivered, c) + waiting <= Times(se.start, c)
  }

  predicate BalancedAt(cs: seq<Case>, se: Session, c: Case)
    requires 1 <= se.k <= |cs|
  {
    Balanced(Count(cs, 1, se.k, c), Count(cs, se.k, |cs|, c), se, c)
  }

  ghost predicate Sending(cs: seq<Case>, se: Session) {
    && WellFormed(cs)
    && 1 <= se.k <= |cs|
    && (forall c: Case :: BalancedAt(cs, se, c))
  }

  function AfterDelivery(cs: seq<Case>, se: Session, i: nat): (seq<Case>, Session)
    requires 0 < i < se.k <= |cs|
  {
    (Deactivate(cs, se.k, i), se.(k := se.k - 1, delivered := se.delivered + [cs[i]]))
  }

  function AfterRemoval(cs: seq<Case>, se: Session, i: nat): (seq<Case>, Session)
    requires 0 < i < |cs| && 1 <= se.k <= |cs|
  {
    (Delete(cs, i), se.(k := if i < se.k then se.k - 1 else se.k, removed := se.removed + [cs[i]]))
  }

  /** Deactivation moves one subscription from the waiting to the served ones. */
  lemma DeactivateWaiting(cs: seq<Case>, k: nat, i: nat, c: Case)
    requires 0 < i < k <= |cs|
    ensures Count(Deactivate(cs, k, i), 1, k - 1, c) + (if cs[i] == c then 1 else 0) == Count(cs, 1, k, c)
  {
    var cs' := Deactivate(cs, k, i);
    CountAt(cs, 1, i, k, c);
    CountFrame(cs', 1, i, cs, 1, c);
    if i < k - 1 {
      CountAt(cs', 1, i, k - 1, c);
      CountFrame(cs', i + 1, k - 1, cs, i + 1, c);
    }
  }

  lemma DeactivateServed(cs: seq<Case>, k: nat, i: nat, c: Case)
    requires 0 < i < k <= |cs|
    ensures Count(Deactivate(cs, k, i), k - 1, |cs|, c) == Count(cs, k, |cs|, c) + if cs[i] == c then 1 else 0
  {
    var cs' := Deactivate(cs, k, i);
    CountAt(cs', k - 1, k - 1, |cs|, c);
    CountFrame(cs', k, |cs|, cs, k, c);
  }

  lemma DeliveryKeeps(cs: seq<Case>, se: Session, i: nat)
    requires Sending(cs, se) && 0 < i < se.k
    ensures var (cs', se') := AfterDelivery(cs, se, i); Sending(cs', se')
  {
    var (cs', se') := AfterDelivery(cs, se, i);
    forall c: Case ensures BalancedAt(cs', se', c) {
      assert BalancedAt(cs, se, c);
      DeactivateWaiting(cs, se.k, i, c);
      DeactivateServed(cs, se.k, i, c);
      TimesAppend(se.delivered, cs[i], c);
    }
  }

  /** Removal takes one subscription out of the part of the list where it is. */
  lemma RemovalCounts(cs: seq<Case>, lo: nat, i: nat, hi: nat, c: Case)
    requires lo <= i < hi <= |cs|
    ensures Count(Delete(cs, i), lo, hi - 1, c) + (if cs[i] == c then 1 else 0) == Count(cs, lo, hi, c)
  {
    var cs' := Delete(cs, i);
    CountAt(cs, lo, i, hi, c);
    CountFrame(cs', lo, i, cs, lo, c);
    CountFrame(cs', i, hi - 1, cs, i + 1, c);
    CountJoin(cs', lo, i, hi - 1, c);
  }

  /** What a removal changes on the two parts of the list. */
  lemma RemovalParts(cs: seq<Case>, k: nat, i: nat, c: Case)
    requires 0 < i < |cs| && 1 <= k <= |cs|
    ensures var k', one := if i < k then k - 1 else k, if cs[i] == c then 1 else 0;
            && Count(Delete(cs, i), 1, k', c) + (if i < k then one else 0) == Count(cs, 1, k, c)
            && Count(Delete(cs, i), k', |cs| - 1, c) + (if i < k then 0 else one) == Count(cs, k, |cs|, c)
  {
    if i < k {
      RemovalCounts(cs, 1, i, k, c);
      CountFrame(Delete(cs, i), k - 1, |cs| - 1, cs, k, c);
    } else {
      CountFrame(Delete(cs, i), 1, k, cs, 1, c);
      RemovalCounts(cs, k, i, |cs|, c);
    }
  }

  lemma RemovalBalances(cs: seq<Case>, se: Session, i: nat, c: Case)
    requires 0 < i < |cs| && 1 <= se.k <= |cs| && BalancedAt(cs, se, c)
    ensures var (cs', se') := AfterRemoval(cs, se, i); BalancedAt(cs', se', c)
  {
    TimesAppend(se.removed, cs[i], c);
    RemovalParts(cs, se.k, i, c);
  }

  lemma RemovalKeeps(cs: seq<Case>, se: Session, i: nat)
    requires Sending(cs, se) && 0 < i < |cs|
    ensures var (cs', se') := AfterRemoval(cs, se, i); Sending(cs', se')
  {
    var (cs', se') := AfterRemoval(cs, se, i);
    forall c: Case ensures BalancedAt(cs', se', c) {
      assert BalancedAt(cs, se, c);
      RemovalBalances(cs, se, i, c);
    }
  }

  /** For a subscription `c` of a send that is over: each time it was subscribed and not removed it has
      got the value once, each time it was removed at most once; and the list holds what is left. A channel
      subscribed once and not removed gets the value exactly once. */
  predicate CompleteAt(cs: seq<Case>, se: Session, c: Case) {
    && Times(se.start, c) <= Times(se.delivered, c) + Times(se.removed, c)
    && Times(se.delivered, c) <= Times(se.start, c)
    && (c.Sub? ==> Times(cs, c) + Times(se.removed, c) == Times(se.start, c))
  }

  ghost predicate Complete(cs: seq<Case>, se: Session) {
    forall c: Case :: CompleteAt(cs, se, c)
  }

  /** Once the active prefix is down to the removal slot, the send is complete. */
  lemma DeliveredExactlyOnce(cs: seq<Case>, se: Session)
    requires Sending(cs, se) && se.k == 1
    ensures Complete(cs, se)
    ensures forall c: Case | Times(se.removed, c) == 0 :: Times(se.delivered, c) == Times(se.start, c)
  {
    forall c: Case ensures CompleteAt(cs, se, c) {
      assert BalancedAt(cs, se, c);
      CountAt(cs, 0, 0, |cs|, c);
    }
    forall c: Case | Times(se.removed, c) == 0 ensures Times(se.delivered, c) == Times(se.start, c) {
      assert CompleteAt(cs, se, c);
    }
  }

  lemma {:induction false} NoRemoveSlot(cs: seq<Case>, lo: nat, hi: nat)
    requires WellFormed(cs) && 1 <= lo <= hi <= |cs|
    ensures Count(cs, lo, hi, RemoveSub) == 0
  {
    if lo == hi {
    } else {
      NoRemoveSlot(cs, lo, hi - 1);
    }
  }

  lemma RestTimes(cs: seq<Case>, c: Case)
    requires WellFormed(cs)
    ensures Times(cs[1..], c) == if c.Sub? then Times(cs, c) else 0
  {
    CountAt(cs, 0, 0, |cs|, c);
    CountFrame(cs[1..], 0, |cs| - 1, cs, 1, c);
    if c == RemoveSub {
      NoRemoveSlot(cs, 1, |cs|);
    }
  }

  /** Without removals the deliveries and the list both hold the subscriptions of the start. */
  lemma NothingRemoved(cs: seq<Case>, se: Session)
    requires WellFormed(cs) && Complete(cs, se) && AllSubs(se.start) && se.removed == []
    ensures multiset(se.delivered) == multiset(se.start) && |se.delivered| == |se.start|
    ensures multiset(cs[1..]) == multiset(se.start)
  {
    forall c: Case ensures Times(se.delivered, c) == Times(se.start, c) && Times(cs[1..], c) == Times(se.start, c) {
      assert CompleteAt(cs, se, c);
      RestTimes(cs, c);
      TimesCounts(se.start, c);
    }
    SameTimes(se.delivered, se.start);
    SameTimes(cs[1..], se.start);
  }

  /** How many deliveries a send makes: one for each subscription, less at most the removed ones. */
  lemma SentBounds(cs: seq<Case>, se: Session)
    requires WellFormed(cs) && Complete(cs, se) && AllSubs(se.start)
    ensures |se.start| - |se.removed| <= |se.delivered| <= |se.start|
    ensures se.removed == [] ==>
              && |se.delivered| == |se.start|
              && multiset(se.delivered) == multiset(se.start)
              && multiset(cs[1..]) == multiset(se.start)
  {
    forall c: Case
      ensures multiset(se.start)[c] <= (multiset(se.delivered) + multiset(se.removed))[c]
      ensures multiset(se.delivered)[c] <= multiset(se.start)[c]
    {
      assert CompleteAt(cs, se, c);
      TimesCounts(se.start, c);
      TimesCounts(se.delivered, c);
      TimesCounts(se.removed, c);
    }
    SubmultisetSize(multiset(se.start), multiset(se.delivered) + multiset(se.removed));
    SubmultisetSize(multiset(se.delivered), multiset(se.start));
    if se.removed == [] {
      NothingRemoved(cs, se);
    }
  }

  // ---------------------------------------------------------------- interleavings

  /** The shared state of a feed. `requests` are unsubscribers waiting for a running send or the lock;
      `panicked` records a deletion at index -1. */
  datatype FeedState = FeedState(
    cases: seq<Case>, inbox: seq<Case>, requests: multiset<Case>, session: Option<Session>, panicked: bool)

  /** `Deliver` is a successful send to the active slot `i`, from the fast path or from the select. */
  datatype Event =
    | Subscribe(ch: Chan)
    | Unsubscribe(ch: Chan)
    | StartSend
    | Deliver(i: nat)
    | ReceiveRemoval(ch: Chan)
    | RemoveIdle(ch: Chan)
    | EndSend

  /** One atomic step; an event that is not enabled changes nothing. Each subscription is cancelled at most
      once, so there are never more requests for a channel than it has subscriptions. */
  function Step(f: FeedState, e: Event): FeedState {
    match e
    case Subscribe(ch) => f.(inbox := f.inbox + [Sub(ch)])
    case Unsubscribe(ch) =>
      if Find(f.inbox, ch) >= 0 then f.(inbox := Delete(f.inbox, Find(f.inbox, ch)))
      else if f.requests[Sub(ch)] < multiset(f.cases)[Sub(ch)] then f.(requests := f.requests + multiset{Sub(ch)})
      else f
    case StartSend =>
      if f.session.None? && |f.cases| > 0 then
        var cases := f.cases + f.inbox;
        f.(cases := cases, inbox := [], session := Some(Session(|cases|, cases[1..], [], [])))
      else f
    case Deliver(i) =>
      if f.session.Some? && 0 < i < f.session.value.k <= |f.cases| then
        var (cs, se) := AfterDelivery(f.cases, f.session.value, i);
        f.(cases := cs, session := Some(se))
      else f
    case ReceiveRemoval(ch) =>
      if Sub(ch) in f.requests && f.session.Some? && 1 < f.session.value.k <= |f.cases| then
        var index := Find(f.cases, ch);
        if index <= 0 then f.(panicked := true)
        else
          var (cs, se) := AfterRemoval(f.cases, f.session.value, index);
          f.(cases := cs, session := Some(se), requests := f.requests - multiset{Sub(ch)})
      else f
    case RemoveIdle(ch) =>
      if Sub(ch) in f.requests && f.session.None? then
        var index := Find(f.cases, ch);
        if index <= 0 then f.(panicked := true)
        else f.(cases := Delete(f.cases, index), requests := f.requests - multiset{Sub(ch)})
      else f
    case EndSend =>
      if f.session.Some? && f.session.value.k == 1 then f.(session := None) else f
  }

  function Run(f: FeedState, events: seq<Event>): FeedState
    decreases |events|
  {
    if events == [] then f else Run(Step(f, events[0]), events[1..])
  }

  ghost predicate Sound(f: FeedState) {
    && WellFormed(f.cases)
    && AllSubs(f.inbox)
    && f.requests <= multiset(f.cases)
    && (f.session.Some? ==> Sending(f.cases, f.session.value))
    && !f.panicked
  }

  /** A feed without subscribers is sound. */
  lemma InitSound()
    ensures Sound(FeedState([RemoveSub], [], multiset{}, None, false))
  {
  }

  lemma StartBalances(cs: seq<Case>)
    requires WellFormed(cs)
    ensures Sending(cs, Session(|cs|, cs[1..], [], []))
  {
    var se := Session(|cs|, cs[1..], [], []);
    forall c: Case ensures BalancedAt(cs, se, c) {
      CountFrame(cs, 1, |cs|, cs[1..], 0, c);
    }
  }

  lemma StartSound(f: FeedState)
    requires Sound(f)
    ensures Sound(Step(f, StartSend))
  {
    if f.session.None? {
      StartBalances(f.cases + f.inbox);
      assert multiset(f.cases + f.inbox) == multiset(f.cases) + multiset(f.inbox);
    }
  }

  lemma DeliverSound(f: FeedState, i: nat)
    requires Sound(f) && f.session.Some? && 0 < i < f.session.value.k
    ensures Sound(Step(f, Deliver(i)))
  {
    DeliveryKeeps(f.cases, f.session.value, i);
    SwapCounts(f.cases, i, f.session.value.k - 1);
  }

  lemma RequestListed(f: FeedState, ch: Chan)
    requires Sound(f) && Sub(ch) in f.requests
    ensures var index := Find(f.cases, ch);
            && 0 < index < |f.cases|
            && f.requests - multiset{Sub(ch)} <= multiset(Delete(f.cases, index))
  {
    assert Sub(ch) in multiset(f.cases);
    DeleteCounts(f.cases, Find(f.cases, ch));
  }

  lemma ReceiveSound(f: FeedState, ch: Chan)
    requires Sound(f) && Sub(ch) in f.requests
    ensures Sound(Step(f, ReceiveRemoval(ch)))
  {
    RequestListed(f, ch);
    if f.session.Some? {
      RemovalKeeps(f.cases, f.session.value, Find(f.cases, ch));
    }
  }

  lemma RemoveIdleSound(f: FeedState, ch: Chan)
    requires Sound(f) && Sub(ch) in f.requests
    ensures Sound(Step(f, RemoveIdle(ch)))
  {
    RequestListed(f, ch);
  }

  lemma OneMoreFits(requests: multiset<Case>, all: multiset<Case>, c: Case)
    requires requests <= all && requests[c] < all[c]
    ensures requests + multiset{c} <= all
  {
    forall x: Case ensures (requests + multiset{c})[x] <= all[x] {
      assert requests[x] <= all[x];
    }
  }

  lemma DeleteSubs(cs: seq<Case>, i: nat)
    requires AllSubs(cs) && i < |cs|
    ensures AllSubs(Delete(cs, i))
  {
  }

  lemma InboxSound(f: FeedState, inbox: seq<Case>)
    requires Sound(f) && AllSubs(inbox)
    ensures Sound(f.(inbox := inbox))
  {
  }

  lemma RequestsSound(f: FeedState, requests: multiset<Case>)
    requires Sound(f) && requests <= multiset(f.cases)
    ensures Sound(f.(requests := requests))
  {
  }

  lemma UnsubscribeSound(f: FeedState, ch: Chan)
    requires Sound(f)
    ensures Sound(Step(f, Unsubscribe(ch)))
  {
    var index := Find(f.inbox, ch);
    if index >= 0 {
      DeleteSubs(f.inbox, index);
      InboxSound(f, Delete(f.inbox, index));
    } else if f.requests[Sub(ch)] < multiset(f.cases)[Sub(ch)] {
      OneMoreFits(f.requests, multiset(f.cases), Sub(ch));
      RequestsSound(f, f.requests + multiset{Sub(ch)});
    }
  }

  lemma StepSound(f: FeedState, e: Event)
    requires Sound(f)
    ensures Sound(Step(f, e))
  {
    match e
    case Subscribe(_) =>
    case Unsubscribe(ch) => UnsubscribeSound(f, ch);
    case StartSend => StartSound(f);
    case Deliver(i) =>
      if f.session.Some? && 0 < i < f.session.value.k {
        DeliverSound(f, i);
      }
    case ReceiveRemoval(ch) =>
      if Sub(ch) in f.requests {
        ReceiveSound(f, ch);
      }
    case RemoveIdle(ch) =>
      if Sub(ch) in f.requests {
        RemoveIdleSound(f, ch);
      }
    case EndSend =>
  }

  /** Over every interleaving of subscriptions, cancellations and sends: no deletion is ever attempted
      for a channel that is not listed, and whenever a send is about to end, it has delivered the value
      exactly once for every subscription of its start that was not removed since. */
  lemma {:induction false} RunSound(f: FeedState, events: seq<Event>)
    requires Sound(f)
    ensures var f' := Run(f, events);
            && Sound(f')
            && (f'.session.Some? && f'.session.value.k == 1 ==> Complete(f'.cases, f'.session.value))
    decreases |events|
  {
    if events == [] {
      if f.session.Some? && f.session.value.k == 1 {
        DeliveredExactlyOnce(f.cases, f.session.value);
      }
    } else {
      StepSound(f, events[0]);
      RunSound(Step(f, events[0]), events[1..]);
    }
  }

  /** A send goes on, for the same subscriptions and with everything delivered and removed so far, until it
      is complete. */
  ghost predicate GoesOn(f: FeedState, f': FeedState)
    requires f.session.Some?
  {
    if f'.session.None? then Complete(f.cases, f.session.value)
    else
      var se, se' := f.session.value, f'.session.value;
      se'.start == se.start && se.delivered <= se'.delivered && se.removed <= se'.removed
  }

  /** At any point of any run, the next event lets a running send go on or ends it complete. */
  lemma SendGoesOn(f: FeedState, events: seq<Event>, e: Event)
    requires Sound(f) && Run(f, events).session.Some?
    ensures GoesOn(Run(f, events), Step(Run(f, events), e))
  {
    RunSound(f, events);
  }

  /** How often `ch` is unsubscribed in a run. */
  function Cancellations(events: seq<Event>, ch: Chan): nat {
    if events == [] then 0 else (if events[0] == Unsubscribe(ch) then 1 else 0) + Cancellations(events[1..], ch)
  }

  /** The unsubscribers of `ch` that wait, and those that the running send has served. */
  function Asked(f: FeedState, ch: Chan): nat {
    f.requests[Sub(ch)] + if f.session.Some? then Times(f.session.value.removed, Sub(ch)) else 0
  }

  lemma ServedAsked(removed: seq<Case>, requests: multiset<Case>, c: Case, x: Case)
    requires x in requests
    ensures (requests - multiset{x})[c] + Times(removed + [x], c) == requests[c] + Times(removed, c)
  {
    TimesAppend(removed, x, c);
  }

  lemma ReceiveAsked(f: FeedState, other: Chan, ch: Chan)
    requires Sub(other) in f.requests ==> 0 < Find(f.cases, other)
    ensures Asked(Step(f, ReceiveRemoval(other)), ch) == Asked(f, ch)
  {
    if f.session.Some? && Sub(other) in f.requests {
      ServedAsked(f.session.value.removed, f.requests, Sub(ch), Sub(other));
    }
  }

  /** The unsubscribers of `ch` are among its listed subscriptions, and a waiting one is found there. */
  predicate FoundIfAsked(f: FeedState, ch: Chan) {
    && f.requests[Sub(ch)] <= Times(f.cases, Sub(ch))
    && (Sub(ch) in f.requests ==> 0 < Find(f.cases, ch))
  }

  lemma UnsubscribeAsked(f: FeedState, other: Chan, ch: Chan)
    ensures Asked(Step(f, Unsubscribe(other)), ch) <= Asked(f, ch) + if other == ch then 1 else 0
  {
  }

  lemma RemoveIdleAsked(f: FeedState, other: Chan, ch: Chan)
    ensures Asked(Step(f, RemoveIdle(other)), ch) <= Asked(f, ch)
  {
  }

  /** An event that leaves the unsubscribers alone, and the removals too unless it begins or ends a send. */
  lemma OtherAsked(f: FeedState, e: Event, ch: Chan)
    requires e.Subscribe? || e.StartSend? || e.Deliver? || e.EndSend?
    ensures Asked(Step(f, e), ch) <= Asked(f, ch)
  {
  }

  lemma EventAsked(f: FeedState, e: Event, ch: Chan)
    requires e.ReceiveRemoval? ==> FoundIfAsked(f, e.ch)
    ensures Asked(Step(f, e), ch) <= Asked(f, ch) + if e == Unsubscribe(ch) then 1 else 0
  {
    if e.ReceiveRemoval? {
      ReceiveAsked(f, e.ch, ch);
    } else if e.Unsubscribe? {
      UnsubscribeAsked(f, e.ch, ch);
    } else if e.RemoveIdle? {
      RemoveIdleAsked(f, e.ch, ch);
    } else {
      OtherAsked(f, e, ch);
    }
  }

  lemma SoundFinds(f: FeedState, ch: Chan)
    requires Sound(f)
    ensures FoundIfAsked(f, ch)
  {
    assert f.requests[Sub(ch)] <= multiset(f.cases)[Sub(ch)];
    TimesCounts(f.cases, Sub(ch));
    if Sub(ch) in f.requests {
      RequestListed(f, ch);
    }
  }

  lemma StepAsked(f: FeedState, e: Event, ch: Chan)
    requires Sound(f)
    ensures Asked(Step(f, e), ch) <= Asked(f, ch) + if e == Unsubscribe(ch) then 1 else 0
  {
    if e.ReceiveRemoval? {
      SoundFinds(f, e.ch);
    }
    EventAsked(f, e, ch);
  }

  /** A send removes a subscription only because it was cancelled: over every run, the removals of a channel
      number at most its cancellations and the unsubscribers that were already there. */
  lemma {:induction false} RemovalsWereAsked(f: FeedState, events: seq<Event>, ch: Chan)
    requires Sound(f)
    ensures Asked(Run(f, events), ch) <= Asked(f, ch) + Cancellations(events, ch)
    decreases |events|
  {
    if events == [] {
    } else {
      StepSound(f, events[0]);
      StepAsked(f, events[0], ch);
      RemovalsWereAsked(Step(f, events[0]), events[1..], ch);
    }
  }

  /** A channel nobody cancels gets the value of every send exactly once for each of its subscriptions, and
      all of them stay. */
  lemma UncancelledServed(f: FeedState, events: seq<Event>, ch: Chan)
    requires Sound(f) && Asked(f, ch) == 0 && Cancellations(events, ch) == 0
    ensures var f' := Run(f, events);
            f'.session.Some? && f'.session.value.k == 1 ==>
              && Times(f'.session.value.delivered, Sub(ch)) == Times(f'.session.value.start, Sub(ch))
              && Times(f'.cases, Sub(ch)) == Times(f'.session.value.start, Sub(ch))
  {
    var f' := Run(f, events);
    RunSound(f, events);
    RemovalsWereAsked(f, events, ch);
    if f'.session.Some? && f'.session.value.k == 1 {
      assert CompleteAt(f'.cases, f'.session.value, Sub(ch));
    }
  }

  /** The subscriptions of `ch` that nobody has asked to cancel. */
  function Live(f: FeedState, ch: Chan): int {
    Times(f.inbox, Sub(ch)) + Times(f.cases, Sub(ch)) - f.requests[Sub(ch)]
  }

  /** What users of the feed expect: subscribing adds one, unsubscribing takes one away. */
  function LiveAfter(n: int, e: Event, ch: Chan): int {
    if e == Subscribe(ch) then n + 1
    else if e == Unsubscribe(ch) && n > 0 then n - 1
    else n
  }

  function LiveAfterAll(n: int, events: seq<Event>, ch: Chan): int
    decreases |events|
  {
    if events == [] then n else LiveAfterAll(LiveAfter(n, events[0], ch), events[1..], ch)
  }

  lemma TimesParts(cs: seq<Case>, n: nat, c: Case)
    requires n <= |cs|
    ensures Times(cs, c) == Times(cs[..n], c) + Times(cs[n..], c)
  {
    CountJoin(cs, 0, n, |cs|, c);
    CountFrame(cs[..n], 0, n, cs, 0, c);
    CountFrame(cs[n..], 0, |cs| - n, cs, n, c);
  }

  lemma TimesConcat(a: seq<Case>, b: seq<Case>, c: Case)
    ensures Times(a + b, c) == Times(a, c) + Times(b, c)
  {
    TimesParts(a + b, |a|, c);
    assert (a + b)[..|a|] == a && (a + b)[|a|..] == b;
  }

  lemma TimesAbsent(cs: seq<Case>, c: Case)
    requires c !in cs
    ensures Times(cs, c) == 0
  {
    TimesCounts(cs, c);
  }

  lemma TimesDelete(cs: seq<Case>, i: nat, c: Case)
    requires i < |cs|
    ensures Times(Delete(cs, i), c) + (if cs[i] == c then 1 else 0) == Times(cs, c)
  {
    RemovalCounts(cs, 0, i, |cs|, c);
  }

  lemma TimesDeactivate(cs: seq<Case>, k: nat, i: nat, c: Case)
    requires i < k <= |cs|
    ensures Times(Deactivate(cs, k, i), c) == Times(cs, c)
  {
    SwapCounts(cs, i, k - 1);
    TimesCounts(cs, c);
    TimesCounts(Deactivate(cs, k, i), c);
  }

  lemma RequestLive(f: FeedState, other: Chan, ch: Chan)
    requires Find(f.inbox, other) == -1 && f.requests[Sub(ch)] <= Times(f.cases, Sub(ch))
    ensures Live(Step(f, Unsubscribe(other)), ch) == LiveAfter(Live(f, ch), Unsubscribe(other), ch)
  {
    TimesAbsent(f.inbox, Sub(other));
    TimesCounts(f.cases, Sub(other));
  }

  lemma UnsubscribeLive(f: FeedState, other: Chan, ch: Chan)
    requires f.requests[Sub(ch)] <= Times(f.cases, Sub(ch))
    ensures Live(Step(f, Unsubscribe(other)), ch) == LiveAfter(Live(f, ch), Unsubscribe(other), ch)
  {
    var index := Find(f.inbox, other);
    if index >= 0 {
      TimesDelete(f.inbox, index, Sub(ch));
    } else {
      RequestLive(f, other, ch);
    }
  }

  /** Removing a cancelled subscription leaves the others. */
  lemma ServedLive(f: FeedState, f': FeedState, index: nat, ch: Chan)
    requires index < |f.cases| && f.cases[index] in f.requests
    requires f'.inbox == f.inbox && f'.cases == Delete(f.cases, index) && f'.requests == f.requests - multiset{f.cases[index]}
    ensures Live(f', ch) == Live(f, ch)
  {
    TimesDelete(f.cases, index, Sub(ch));
  }

  lemma ReceiveLive(f: FeedState, other: Chan, ch: Chan)
    requires Sub(other) in f.requests ==> 0 < Find(f.cases, other)
    ensures Live(Step(f, ReceiveRemoval(other)), ch) == Live(f, ch)
  {
    var f' := Step(f, ReceiveRemoval(other));
    if f' != f {
      ServedLive(f, f', Find(f.cases, other), ch);
    }
  }

  lemma RemoveIdleLive(f: FeedState, other: Chan, ch: Chan)
    requires Sub(other) in f.requests ==> 0 < Find(f.cases, other)
    ensures Live(Step(f, RemoveIdle(other)), ch) == Live(f, ch)
  {
    var f' := Step(f, RemoveIdle(other));
    if f' != f {
      ServedLive(f, f', Find(f.cases, other), ch);
    }
  }

  lemma DeliverLive(f: FeedState, i: nat, ch: Chan)
    ensures Live(Step(f, Deliver(i)), ch) == Live(f, ch)
  {
    if f.session.Some? && 0 < i < f.session.value.k <= |f.cases| {
      TimesDeactivate(f.cases, f.session.value.k, i, Sub(ch));
    }
  }

  lemma EventLive(f: FeedState, e: Event, ch: Chan)
    requires FoundIfAsked(f, ch)
    requires e.ReceiveRemoval? || e.RemoveIdle? ==> FoundIfAsked(f, e.ch)
    ensures Live(Step(f, e), ch) == LiveAfter(Live(f, ch), e, ch)
  {
    match e
    case Subscribe(other) => TimesAppend(f.inbox, Sub(other), Sub(ch));
    case Unsubscribe(other) => UnsubscribeLive(f, other, ch);
    case StartSend => TimesConcat(f.cases, f.inbox, Sub(ch));
    case Deliver(i) => DeliverLive(f, i, ch);
    case ReceiveRemoval(other) => ReceiveLive(f, other, ch);
    case RemoveIdle(other) => RemoveIdleLive(f, other, ch);
    case EndSend =>
  }

  lemma StepLive(f: FeedState, e: Event, ch: Chan)
    requires Sound(f)
    ensures Live(Step(f, e), ch) == LiveAfter(Live(f, ch), e, ch)
  {
    SoundFinds(f, ch);
    if e.ReceiveRemoval? || e.RemoveIdle? {
      SoundFinds(f, e.ch);
    }
    EventLive(f, e, ch);
  }

  /** Whatever sends run in between, the feed keeps exactly the subscriptions its users expect. */
  lemma {:induction false} RunLive(f: FeedState, events: seq<Event>, ch: Chan)
    requires Sound(f)
    ensures Live(Run(f, events), ch) == LiveAfterAll(Live(f, ch), events, ch)
    decreases |events|
  {
    if events == [] {
    } else {
      StepSound(f, events[0]);
      StepLive(f, events[0], ch);
      RunLive(Step(f, events[0]), events[1..], ch);
    }
  }

  function Deliveries(n: nat): (events: seq<Event>)
    ensures |events| == n
  {
    if n == 0 then [] else [Deliver(1)] + Deliveries(n - 1)
  }

  lemma RunFirst(f: FeedState, e: Event, rest: seq<Event>)
    ensures Run(f, [e] + rest) == Run(Step(f, e), rest)
  {
    assert ([e] + rest)[1..] == rest;
  }

  lemma DeliverOne(f: FeedState)
    requires Sound(f) && f.session.Some? && f.session.value.k > 1
    ensures var f' := Step(f, Deliver(1)); Sound(f') && f'.session.Some? && f'.session.value.k == f.session.value.k - 1
  {
    StepSound(f, Deliver(1));
  }

  /** A send can always finish: once the channels take the value one after the other, it is over. */
  lemma {:induction false} SendCanEnd(f: FeedState, n: nat)
    requires Sound(f) && f.session.Some? && n == f.session.value.k - 1
    ensures Run(f, Deliveries(n) + [EndSend]).session.None?
    decreases n
  {
    if n == 0 {
      RunFirst(f, EndSend, []);
      assert [] + [EndSend] == [EndSend] + [];
    } else {
      DeliverOne(f);
      SendCanEnd(Step(f, Deliver(1)), n - 1);
      RunFirst(f, Deliver(1), Deliveries(n - 1) + [EndSend]);
      assert Deliveries(n) + [EndSend] == [Deliver(1)] + (Deliveries(n - 1) + [EndSend]);
    }
  }

  /** An unsubscriber can always be served, unless a send is just about to end: its subscription goes. */
  lemma UnsubscriberServed(f: FeedState, ch: Chan)
    requires Sound(f) && Sub(ch) in f.requests && (f.session.Some? ==> f.session.value.k > 1)
    ensures var f' := Step(f, if f.session.None? then RemoveIdle(ch) else ReceiveRemoval(ch));
            && f'.requests == f.requests - multiset{Sub(ch)}
            && Times(f'.cases, Sub(ch)) == Times(f.cases, Sub(ch)) - 1
  {
    SoundFinds(f, ch);
    TimesDelete(f.cases, Find(f.cases, ch), Sub(ch));
  }

  // ---------------------------------------------------------------- the feed object

  /** Every unsubscriber in `waiting` has a subscription in the list. */
  ghost predicate AllListed(waiting: multiset<Case>, cs: seq<Case>) {
    RemoveSub !in waiting && waiting <= multiset(cs)
  }

  /** The unsubscribers that have been served since `all` were waiting are the removed subscriptions. */
  ghost predicate Served(all: multiset<Case>, waiting: multiset<Case>, removed: seq<Case>) {
    waiting + multiset(removed) == all
  }

  lemma OneMoreServed(all: multiset<Case>, waiting: multiset<Case>, removed: seq<Case>, c: Case)
    requires Served(all, waiting, removed) && c in waiting
    ensures Served(all, waiting - multiset{c}, removed + [c])
  {
  }

  /** The unsubscribers of a send that starts on `cs` are among its subscriptions. */
  lemma StartListed(all: multiset<Case>, cs: seq<Case>)
    requires WellFormed(cs) && AllListed(all, cs)
    ensures all <= multiset(cs[1..]) && AllSubs(cs[1..])
  {
    forall c: Case ensures all[c] <= multiset(cs[1..])[c] {
      assert all[c] <= multiset(cs)[c];
      RestTimes(cs, c);
      TimesCounts(cs, c);
      TimesCounts(cs[1..], c);
    }
  }

  /** What a send that is over has done: only waiting unsubscribers were removed, and everyone else got the
      value. */
  ghost predicate Delivered(cs: seq<Case>, se: Session, all: multiset<Case>, waiting: multiset<Case>) {
    && |cs| > 0 && Complete(cs, se)
    && Served(all, waiting, se.removed) && AllListed(waiting, cs)
    && |se.start| - |se.removed| <= |se.delivered| <= |se.start|
    && (all == multiset{} ==>
          && |se.delivered| == |se.start|
          && multiset(se.delivered) == multiset(se.start)
          && multiset(cs[1..]) == multiset(se.start))
  }

  /** During a send the unsubscribers that still wait are still listed. */
  lemma StillListed(all: multiset<Case>, waiting: multiset<Case>, cs: seq<Case>, se: Session)
    requires RemoveSub !in all && all <= multiset(se.start) && Served(all, waiting, se.removed)
    requires Sending(cs, se)
    ensures AllListed(waiting, cs)
  {
    forall c: Case ensures waiting[c] <= multiset(cs)[c] {
      assert (waiting + multiset(se.removed))[c] == all[c] <= multiset(se.start)[c];
      assert BalancedAt(cs, se, c);
      CountJoin(cs, 1, se.k, |cs|, c);
      CountAt(cs, 0, 0, |cs|, c);
      TimesCounts(cs, c);
      TimesCounts(se.start, c);
      TimesCounts(se.removed, c);
    }
    assert (waiting + multiset(se.removed))[RemoveSub] == 0;
  }

  lemma SendOver(cs: seq<Case>, se: Session, all: multiset<Case>, waiting: multiset<Case>)
    requires RemoveSub !in all && all <= multiset(se.start) && AllSubs(se.start)
    requires Sending(cs, se) && se.k == 1 && Served(all, waiting, se.removed)
    ensures Delivered(cs, se, all, waiting)
  {
    StillListed(all, waiting, cs, se);
    DeliveredExactlyOnce(cs, se);
    SentBounds(cs, se);
    if all == multiset{} {
      assert |multiset(se.removed)| == |se.removed|;
    }
  }

  /** What the channels and the unsubscribers do while a send runs. */
  class Channels {
    var received: seq<Case>      // the successful deliveries
    var waiting: multiset<Case>  // the unsubscribers that hand over their channel sooner or later

    /** Offers the value to a channel, which takes it if it is ready. */
    method TrySend(c: Case) returns (ok: bool)
      modifies this`received
      ensures received == old(received) + if ok then [c] else []
    {
      ok := *;
      if ok {
        received := received + [c];
      }
    }

    /** Blocks until one of the cases is ready: an unsubscriber hands over its channel, or a channel takes the
        value. */
    method Select(cases: seq<Case>) returns (chosen: nat, ch: Chan)
      requires 1 < |cases| && RemoveSub !in waiting
      modifies this
      ensures chosen < |cases|
      ensures chosen == 0 ==>
                && Sub(ch) in old(waiting)
                && waiting == old(waiting) - multiset{Sub(ch)}
                && received == old(received)
      ensures chosen > 0 ==> received == old(received) + [cases[chosen]] && waiting == old(waiting)
    {
      chosen :| chosen < |cases| && (chosen == 0 ==> waiting != multiset{});
      ch := 0;
      if chosen == 0 {
        var c :| c in waiting;
        ch := c.ch;
        waiting := waiting - multiset{c};
      } else {
        received := received + [cases[chosen]];
      }
    }
  }

  class Feed {
    var buf: array<Case>
    var len: nat
    var inbox: seq<Case>

    /** The slice `sendCases`: the first `len` slots of the backing array. */
    function Cases(): seq<Case>
      requires len <= buf.Length
      reads this, buf
    {
      buf[..len]
    }

    ghost predicate Valid()
      reads this, buf
    {
      len <= buf.Length && WellFormed(Cases()) && AllSubs(inbox)
    }

    constructor ()
      ensures Valid() && fresh(buf) && Cases() == [RemoveSub] && inbox == []
    {
      buf := new Case[1](_ => RemoveSub);
      len := 1;
      inbox := [];
    }

    method Subscribe(ch: Chan)
      requires Valid()
      modifies this`inbox
      ensures Valid() && inbox == old(inbox) + [Sub(ch)]
    {
      inbox := inbox + [Sub(ch)];
    }

    method FindCase(ch: Chan) returns (index: int)
      requires len <= buf.Length
      ensures index == Find(Cases(), ch)
    {
      index := 0;
      while index < len
        invariant 0 <= index <= len
        invariant Find(Cases(), ch) == var rest := Find(buf[index..len], ch); if rest == -1 then -1 else rest + index
      {
        assert buf[index..len][1..] == buf[index + 1..len];
        if buf[index] == Sub(ch) {
          return;
        }
        index := index + 1;
      }
      index := -1;
    }

    /** Shifts the cases after `index` down by one. */
    method DeleteCase(index: nat)
      requires index < len <= buf.Length
      modifies this`len, buf
      ensures len == old(len) - 1 && len <= buf.Length && Cases() == Delete(old(Cases()), index)
    {
      ghost var cs := Cases();
      ghost var rest := Delete(cs, index);
      for i := index to len - 1
        invariant len == |cs|
        invariant forall j | 0 <= j < i :: buf[j] == rest[j]
        invariant forall j | i <= j < len :: buf[j] == cs[j]
      {
        buf[i] := buf[i + 1];
        assert rest[i] == cs[i + 1];
      }
      len := len - 1;
    }

    /** Swaps the case at `index` out of the active prefix of length `k`. */
    method DeactivateCase(k: nat, index: nat)
      requires index < k <= len <= buf.Length
      modifies buf
      ensures Cases() == Deactivate(old(Cases()), k, index)
    {
      buf[index], buf[k - 1] := buf[k - 1], buf[index];
    }

    /** Cancels a subscription while no send is in progress. */
    method RemoveIdleSub(ch: Chan)
      requires Valid() && (Sub(ch) in inbox || Sub(ch) in Cases())
      modifies this, buf
      ensures Valid()
      ensures var index := Find(old(inbox), ch);
              if index != -1 then inbox == Delete(old(inbox), index) && Cases() == old(Cases())
              else inbox == old(inbox) && Cases() == Delete(old(Cases()), Find(old(Cases()), ch))
    {
      var index := Find(inbox, ch);
      if index != -1 {
        inbox := Delete(inbox, index);
        return;
      }
      index := FindCase(ch);
      DeleteCase(index);
    }

    /** Appends the inbox to the case list, in a new backing array. */
    method TakeInbox()
      requires Valid()
      modifies this
      ensures Valid() && fresh(buf) && inbox == []
      ensures Cases() == old(Cases()) + old(inbox)
    {
      var all := buf[..len] + inbox;
      buf := new Case[|all|](i requires 0 <= i < |all| => all[i]);
      len := |all|;
      inbox := [];
      assert buf[..len] == all;
    }

    /** The fast path: tries every active channel once without blocking. */
    method TrySendAll(env: Channels, k: nat, sent: nat, ghost earlier: seq<Case>, ghost se: Session)
      returns (k': nat, sent': nat, ghost se': Session)
      requires env.received == earlier + se.delivered
      requires len <= buf.Length && Sending(Cases(), se) && se.k == k && sent == |se.delivered|
      modifies buf, env`received
      ensures Sending(Cases(), se') && se'.k == k' <= k && sent' == |se'.delivered|
      ensures se'.start == se.start && se'.removed == se.removed
      ensures env.received == earlier + se'.delivered
    {
      k', sent', se' := k, sent, se;
      var i := 1;
      while i < k'
        invariant 1 <= i && Sending(Cases(), se') && se'.k == k' <= k && sent' == |se'.delivered|
        invariant se'.start == se.start && se'.removed == se.removed
        invariant env.received == earlier + se'.delivered
        decreases k' - i
      {
        var ready := env.TrySend(buf[i]);
        if ready {
          DeliveryKeeps(Cases(), se', i);
          se' := AfterDelivery(Cases(), se', i).1;
          DeactivateCase(k', i);
          sent' := sent' + 1;
          k' := k' - 1;
        } else {
          i := i + 1;
        }
      }
    }

    /** Blocks until an unsubscriber or one of the active channels is ready. */
    method SelectOne(env: Channels, k: nat, sent: nat, ghost earlier: seq<Case>, ghost all: multiset<Case>, ghost se: Session)
      returns (k': nat, sent': nat, ghost se': Session)
      requires env.received == earlier + se.delivered && Served(all, env.waiting, se.removed)
      requires len <= buf.Length && Sending(Cases(), se) && 1 < se.k == k && sent == |se.delivered|
      requires AllListed(env.waiting, Cases())
      modifies this`len, buf, env
      ensures len <= buf.Length && Sending(Cases(), se') && se'.k == k' && sent' == |se'.delivered|
      ensures se'.start == se.start
      ensures env.received == earlier + se'.delivered && Served(all, env.waiting, se'.removed)
      ensures k' + len < k + old(len)
    {
      k', sent', se' := k, sent, se;
      var chosen, ch := env.Select(buf[..k]);
      if chosen == 0 {
        assert Sub(ch) in multiset(Cases());
        OneMoreServed(all, old(env.waiting), se.removed, Sub(ch));
        var index := FindCase(ch);
        RemovalKeeps(Cases(), se, index);
        se' := AfterRemoval(Cases(), se, index).1;
        DeleteCase(index);
        if index < k {
          k' := k - 1;
        }
      } else {
        DeliveryKeeps(Cases(), se, chosen);
        se' := AfterDelivery(Cases(), se, chosen).1;
        DeactivateCase(k, chosen);
        k' := k - 1;
        sent' := sent + 1;
      }
    }

    /** Sends until only the removal slot is active. */
    method SendUntilDone(env: Channels, ghost start: Session) returns (sent: nat, ghost se: Session)
      requires len <= buf.Length && Sending(Cases(), start) && start.k == len
      requires start.removed == start.delivered == [] && AllSubs(start.start)
      requires RemoveSub !in env.waiting && env.waiting <= multiset(start.start)
      modifies this`len, buf, env
      ensures len <= buf.Length && WellFormed(Cases())
      ensures se.start == start.start
      ensures Delivered(Cases(), se, old(env.waiting), env.waiting)
      ensures env.received == old(env.received) + se.delivered
      ensures sent == |se.delivered|
    {
      var k := len;
      sent, se := 0, start;
      while true
        invariant len <= buf.Length
        invariant Sending(Cases(), se) && se.k == k && sent == |se.delivered|
        invariant se.start == start.start
        invariant env.received == old(env.received) + se.delivered && Served(old(env.waiting), env.waiting, se.removed)
        decreases k + len
      {
        k, sent, se := TrySendAll(env, k, sent, old(env.received), se);
        if k == 1 {
          break;
        }
        StillListed(old(env.waiting), env.waiting, Cases(), se);
        k, sent, se := SelectOne(env, k, sent, old(env.received), old(env.waiting), se);
      }
      SendOver(Cases(), se, old(env.waiting), env.waiting);
    }

    /** Delivers a value to all subscribed channels, whatever the order in which channels get ready and
        unsubscribers come in. `env.received` records what the channels got; a subscription leaves the list
        only if its unsubscriber was waiting. Without unsubscribers every subscription gets the value exactly
        once, all stay listed, and the result is their number. */
    method Send(env: Channels) returns (sent: nat, ghost se: Session)
      requires Valid() && AllListed(env.waiting, Cases() + inbox)
      modifies this, buf, env
      ensures Valid() && inbox == []
      ensures se.start == old(Cases()[1..] + inbox)
      ensures Delivered(Cases(), se, old(env.waiting), env.waiting)
      ensures env.received == old(env.received) + se.delivered
      ensures sent == |se.delivered|
    {
      ghost var start := Cases()[1..] + inbox;
      assert (Cases() + inbox)[1..] == start;
      StartListed(env.waiting, Cases() + inbox);
      TakeInbox();
      StartBalances(Cases());
      sent, se := SendUntilDone(env, Session(len, start, [], []));
    }
  }
}
