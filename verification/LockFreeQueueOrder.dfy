/**
 Ordering and mutual exclusion of slot accesses. `m_max_read` counts completed stores, not the
 longest stored prefix, so both depend on the order in which producers publish.
 */
module LockFreeQueueOrder {
  import opened LockFreeQueue

  /** Some producer holds ticket `t` and has not stored its value yet. */
  ghost predicate Pending<T(!new)>(s: State<T>, t: nat) {
    exists i :: 0 <= i < |s.producers| && s.producers[i].Ticketed? && s.producers[i].ticket == t
  }

  /** Two threads whose next accesses are to the same slot, at least one of them a store. */
  ghost predicate Race<T(!new)>(s: State<T>)
    requires WellFormed(s)
  {
    || (exists i, j :: 0 <= i < j < |s.producers| && s.producers[i].Ticketed? && s.producers[j].Ticketed?
          && s.producers[i].ticket % s.cap == s.producers[j].ticket % s.cap)
    || (exists i :: 0 <= i < |s.producers| && s.producers[i].Ticketed? && s.consumer.Taking?
          && s.producers[i].ticket % s.cap == s.consumer.slot)
  }

  /** `m_max_read` is at most the length of the longest prefix of stored tickets. */
  ghost predicate StoredPrefix<T(!new)>(s: State<T>) {
    forall t: nat :: Pending(s, t) ==> s.maxRead <= t
  }

  /** No ticket is still pending once it has been popped. */
  ghost predicate Behind<T(!new)>(s: State<T>) {
    forall t: nat :: Pending(s, t) ==> |s.popped| <= t
  }

  /** What was popped is a prefix of what was pushed, and every later ticket whose store is done
      sits in its slot. */
  ghost predicate Faithful<T(!new)>(s: State<T>)
    requires WellFormed(s)
  {
    && |s.popped| <= |s.pushed|
    && (forall k :: 0 <= k < |s.popped| ==> s.popped[k] == Holds(s.pushed[k]))
    && (forall t: nat :: |s.popped| <= t < |s.pushed| && 0 < s.cap && !Pending(s, t) ==>
          s.slots[t % s.cap] == Holds(s.pushed[t]))
  }

  ghost predicate Ordered<T(!new)>(s: State<T>) {
    Counted(s) && Behind(s) && Faithful(s)
  }

  lemma OwnSlot(t: nat, cap: nat)
    requires t < cap
    ensures t % cap == t
  {
    var q := t / cap;
    assert t == cap * q + t % cap;
    assert (q >= 1 ==> cap * q >= cap) && (q <= -1 ==> cap * q + cap <= 0);
  }

  lemma DistinctSlots(a: nat, b: nat, cap: nat)
    requires a < b < a + cap
    ensures a % cap != b % cap
  {
    var d := b / cap - a / cap;
    assert b - a == cap * d + (b % cap - a % cap);
    if d != 0 {
      assert cap * d >= cap || cap * d + cap <= 0;
    }
  }

  /** Two different tickets at or after the next one to pop are in different slots. */
  lemma {:induction false} LiveTicketsApart<T(!new)>(s: State<T>, a: nat, b: nat)
    requires Counted(s)
    requires |s.popped| <= a < |s.pushed| && |s.popped| <= b < |s.pushed| && a != b
    ensures 0 < s.cap && a % s.cap != b % s.cap
  {
    CountBounds(s.producers, HoldsReservation);
    DistinctSlots(if a < b then a else b, if a < b then b else a, s.cap);
  }

  /** As long as popped tickets are not pending, the only possible race is on the ticket being taken. */
  lemma {:induction false} RaceIsOnTheTakenTicket<T(!new)>(s: State<T>)
    requires Counted(s) && Behind(s)
    ensures Race(s) <==> s.consumer.Taking? && Pending(s, |s.popped|)
  {
    forall i | 0 <= i < |s.producers| && s.producers[i].Ticketed?
      ensures |s.popped| <= s.producers[i].ticket < |s.pushed|
    {
      assert Pending(s, s.producers[i].ticket);
    }
    forall i, j | 0 <= i < j < |s.producers| && s.producers[i].Ticketed? && s.producers[j].Ticketed?
      ensures s.producers[i].ticket % s.cap != s.producers[j].ticket % s.cap
    {
      LiveTicketsApart(s, s.producers[i].ticket, s.producers[j].ticket);
    }
    if s.consumer.Taking? {
      forall i | 0 <= i < |s.producers| && s.producers[i].Ticketed? && s.producers[i].ticket != |s.popped|
        ensures s.producers[i].ticket % s.cap != s.consumer.slot
      {
        LiveTicketsApart(s, s.producers[i].ticket, |s.popped|);
      }
    }
  }

  lemma {:induction false} PendingAfter<T(!new)>(s: State<T>, i: nat, t: nat)
    requires Counted(s) && Enabled(s, Advance(i))
    ensures var p := s.producers[i];
            Pending(ProducerStep(s, i), t) <==>
            if p.Reserved? then Pending(s, t) || t == |s.pushed|
            else if p.Ticketed? then Pending(s, t) && t != p.ticket
            else Pending(s, t)
  {
    var s' := ProducerStep(s, i);
    forall j | 0 <= j < |s.producers| && j != i ensures s'.producers[j] == s.producers[j] {}
    if Pending(s, t) {
      var j :| 0 <= j < |s.producers| && s.producers[j].Ticketed? && s.producers[j].ticket == t;
      assert j != i ==> s'.producers[j].Ticketed? && s'.producers[j].ticket == t;
    }
    assert s'.producers[i].Ticketed? ==> Pending(s', s'.producers[i].ticket);
  }

  lemma {:induction false} TicketedIsPending<T(!new)>(s: State<T>, i: nat)
    requires Counted(s) && Behind(s) && i < |s.producers| && s.producers[i].Ticketed?
    ensures var t := s.producers[i].ticket;
            Pending(s, t) && |s.popped| <= t < |s.pushed| && s.pushed[t] == s.producers[i].value
  {
    assert Pending(s, s.producers[i].ticket);
  }

  lemma {:induction false} CountedBounds<T(!new)>(s: State<T>)
    requires Counted(s)
    ensures |s.popped| <= |s.pushed| == s.write
    ensures s.consumer.Taking? ==> 0 < s.cap && s.consumer.slot == |s.popped| % s.cap && |s.popped| < |s.pushed|
  {
  }

  lemma {:induction false} ProducerStepOrdered<T(!new)>(s: State<T>, i: nat)
    requires Ordered(s) && Enabled(s, Advance(i)) && |ProducerStep(s, i).pushed| <= MAX_PUSHES
    ensures Ordered(ProducerStep(s, i))
  {
    hide Pending, Balanced, Tickets;
    var s', p := ProducerStep(s, i), s.producers[i];
    StepCounted(s, Advance(i));
    assert |s.popped| <= |s.pushed| && s.write == |s.pushed| by { CountedBounds(s); }
    forall t: nat | Pending(s', t) ensures |s'.popped| <= t { PendingAfter(s, i, t); }
    forall t: nat | |s'.popped| <= t < |s'.pushed| && 0 < s.cap && !Pending(s', t)
      ensures s'.slots[t % s.cap] == Holds(s'.pushed[t])
    {
      PendingAfter(s, i, t);
      if p.Ticketed? {
        TicketedIsPending(s, i);
        if t != p.ticket { LiveTicketsApart(s, t, p.ticket); }
      }
    }
  }

  lemma {:induction false} ConsumerStepOrdered<T(!new)>(s: State<T>)
    requires Ordered(s) && !Race(s)
    ensures Ordered(ConsumerStep(s))
  {
    hide Balanced, Tickets, Race;
    var s' := ConsumerStep(s);
    ConsumerStepCounted(s);
    CountedBounds(s);
    RaceIsOnTheTakenTicket(s);
    assert forall t: nat :: Pending(s', t) <==> Pending(s, t);
    if s.consumer.Taking? {
      forall t: nat | |s'.popped| <= t < |s'.pushed| && !Pending(s', t)
        ensures s'.slots[t % s.cap] == Holds(s'.pushed[t])
      {
        LiveTicketsApart(s, t, |s.popped|);
      }
    }
  }

  lemma {:induction false} StepOrdered<T(!new)>(s: State<T>, a: Action<T>)
    requires Ordered(s) && !Race(s) && Enabled(s, a) && |Do(s, a).pushed| <= MAX_PUSHES
    ensures Ordered(Do(s, a))
  {
    match a
    case Advance(i) => ProducerStepOrdered(s, i);
    case Consume => ConsumerStepOrdered(s);
    case Call(i, v, blocking) =>
      var s' := Do(s, a);
      StepCounted(s, a);
      forall t: nat ensures Pending(s', t) <==> Pending(s, t) {
        if Pending(s, t) {
          var j :| 0 <= j < |s.producers| && s.producers[j].Ticketed? && s.producers[j].ticket == t;
          assert s'.producers[j] == s.producers[j];
        }
      }
  }

  // ---------------------------------------------------------------------------------------------
  // Whole runs

  lemma {:induction false} InitOrdered<T(!new)>(s: State<T>)
    requires Init(s) && |s.pushed| <= MAX_PUSHES
    ensures Ordered(s)
  {
    InitCounted(s);
    forall t: nat | |s.popped| <= t < |s.pushed| ensures s.slots[t % s.cap] == Holds(s.pushed[t]) {
      OwnSlot(t, s.cap);
    }
  }

  lemma {:induction false} NextCounted<T(!new)>(s: State<T>, s': State<T>)
    requires Counted(s) && Next(s, s') && |s'.pushed| <= MAX_PUSHES
    ensures Counted(s')
  {
    var a :| Enabled(s, a) && s' == Do(s, a);
    StepCounted(s, a);
  }

  lemma {:induction false} CountedInEveryState<T(!new)>(ss: seq<State<T>>, k: nat)
    requires Run(ss) && k < |ss|
    ensures Counted(ss[k])
  {
    if k == 0 {
      InitCounted(ss[0]);
    } else {
      CountedInEveryState(ss, k - 1);
      assert StepAt(ss, k);
      NextCounted(ss[k - 1], ss[k]);
    }
  }

  /** Every state of every run, with any number of producers and any order of publication: `m_size`
      is the unreleased reservations plus the producers about to undo, reservations never exceed the
      capacity, and the four counters stay in order. */
  lemma {:induction false} CountersInEveryState<T(!new)>(ss: seq<State<T>>, k: nat)
    requires Run(ss) && k < |ss|
    ensures var s := ss[k];
            && s.size == Unreleased(s) + Count(s.producers, AwaitsUndo)
            && 0 <= Unreleased(s) <= s.cap
            && s.read <= s.maxRead <= s.write <= Released(s) + Unreleased(s)
  {
    CountedInEveryState(ss, k);
    CountBounds(ss[k].producers, HoldsReservation);
  }

  /** The run has not raced before state `k`. */
  ghost predicate RaceFreeBefore<T(!new)>(ss: seq<State<T>>, k: nat)
    requires k <= |ss|
  {
    forall j :: 0 <= j < k ==> WellFormed(ss[j]) && !Race(ss[j])
  }

  lemma {:induction false} OrderedWhileRaceFree<T(!new)>(ss: seq<State<T>>, k: nat)
    requires Run(ss) && k < |ss| && RaceFreeBefore(ss, k)
    ensures Ordered(ss[k])
  {
    hide Ordered, Do, Enabled, Race, Init;
    if k == 0 {
      InitOrdered(ss[0]);
    } else {
      OrderedWhileRaceFree(ss, k - 1);
      assert StepAt(ss, k);
      var a :| Enabled(ss[k - 1], a) && ss[k] == Do(ss[k - 1], a);
      StepOrdered(ss[k - 1], a);
    }
  }

  lemma {:induction false} StoredPrefixIsRaceFree<T(!new)>(s: State<T>)
    requires Counted(s) && StoredPrefix(s)
    ensures Behind(s) && !Race(s)
  {
    RaceIsOnTheTakenTicket(s);
  }

  /** What a reader of the queue is promised: the consumer got a prefix of the pushed values in
      ticket order, and the published rest sits in slots `m_read % cap` to `(m_max_read - 1) % cap`. */
  ghost predicate Fifo<T(!new)>(s: State<T>)
    requires WellFormed(s)
  {
    && |s.popped| <= s.maxRead <= |s.pushed|
    && (forall k :: 0 <= k < |s.popped| ==> s.popped[k] == Holds(s.pushed[k]))
    && (forall t :: |s.popped| <= t < s.maxRead ==> 0 < s.cap && s.slots[t % s.cap] == Holds(s.pushed[t]))
  }

  /** Any number of producers, every interleaving in which `m_max_read` never passes the stored
      prefix: no two threads are ever at the same slot, and the queue is first in, first out. */
  lemma {:induction false} FifoWhenPublishedInOrder<T(!new)>(ss: seq<State<T>>, k: nat)
    requires Run(ss) && k < |ss|
    requires forall j :: 0 <= j < |ss| ==> StoredPrefix(ss[j])
    ensures WellFormed(ss[k]) && !Race(ss[k]) && Fifo(ss[k])
  {
    forall j | 0 <= j <= k ensures WellFormed(ss[j]) && !Race(ss[j]) {
      CountedInEveryState(ss, j);
      StoredPrefixIsRaceFree(ss[j]);
    }
    OrderedWhileRaceFree(ss, k);
    var s := ss[k];
    forall t | |s.popped| <= t < s.maxRead ensures 0 < s.cap && s.slots[t % s.cap] == Holds(s.pushed[t]) {
      assert !Pending(s, t);
    }
  }

  // ---------------------------------------------------------------------------------------------
  // The exact condition

  /** A run of consumer steps only, starting in `s`. */
  ghost predicate ConsumerRun<T(!new)>(s: State<T>, ss: seq<State<T>>) {
    && |ss| > 0 && ss[0] == s
    && (forall k :: 0 <= k < |ss| ==> WellFormed(ss[k]))
    && (forall k :: 0 < k < |ss| ==> ss[k] == ConsumerStep(ss[k - 1]))
  }

  lemma {:induction false} SamePending<T(!new)>(s: State<T>, s': State<T>)
    requires StoredPrefix(s) && s'.producers == s.producers && s'.maxRead == s.maxRead
    ensures StoredPrefix(s')
  {
    forall t: nat | Pending(s', t) ensures s'.maxRead <= t { assert Pending(s, t); }
  }

  lemma {:induction false} ConsumerKeepsStoredPrefix<T(!new)>(s: State<T>, ss: seq<State<T>>, k: nat)
    requires Counted(s) && StoredPrefix(s) && ConsumerRun(s, ss) && k < |ss|
    ensures Counted(ss[k]) && !Race(ss[k]) && ss[k].producers == s.producers && ss[k].maxRead == s.maxRead
  {
    hide Balanced, Tickets, StoredPrefix, Race, WellFormed;
    if k > 0 {
      ConsumerKeepsStoredPrefix(s, ss, k - 1);
      ConsumerStepCounted(ss[k - 1]);
    }
    SamePending(s, ss[k]);
    StoredPrefixIsRaceFree(ss[k]);
  }

  function Stage(c: Consumer): nat {
    match c
    case Waiting => 2
    case Checked => 1
    case Taking(_) => 0
    case Releasing => 3
  }

  lemma {:induction false} ConsumerStepTowards<T(!new)>(s: State<T>, t: nat)
    requires Ordered(s) && !Race(s) && Pending(s, t) && t < s.maxRead
    ensures var s' := ConsumerStep(s);
            && Ordered(s') && Pending(s', t) && t < s'.maxRead && |s'.popped| <= t
            && 4 * (t - |s'.popped|) + Stage(s'.consumer) < 4 * (t - |s.popped|) + Stage(s.consumer)
  {
    RaceIsOnTheTakenTicket(s);
    ConsumerStepOrdered(s);
    assert Pending(ConsumerStep(s), t);
  }

  /** A published ticket that is still pending lets the consumer run into its producer. */
  lemma {:induction false} ConsumerReachesPending<T(!new)>(s: State<T>, t: nat) returns (ss: seq<State<T>>)
    requires Ordered(s) && Pending(s, t) && t < s.maxRead
    ensures ConsumerRun(s, ss) && Race(ss[|ss| - 1])
    decreases 4 * (t - |s.popped|) + Stage(s.consumer)
  {
    hide Faithful, Pending, Race, ConsumerStep, Balanced, Tickets;
    if Race(s) {
      ss := [s];
    } else {
      ConsumerStepTowards(s, t);
      var rest := ConsumerReachesPending(ConsumerStep(s), t);
      ss := [s] + rest;
      assert ss[|ss| - 1] == rest[|rest| - 1];
    }
  }

  /** Exactly when `m_max_read` has passed the stored prefix can the consumer, running alone, reach
      a state in which it and a producer are at the same slot. */
  lemma {:induction false} RaceReachableIffPrefixPassed<T(!new)>(ss: seq<State<T>>, k: nat)
    requires Run(ss) && k < |ss| && RaceFreeBefore(ss, k)
    ensures (exists rest :: ConsumerRun(ss[k], rest) && Race(rest[|rest| - 1])) <==> !StoredPrefix(ss[k])
  {
    var s := ss[k];
    OrderedWhileRaceFree(ss, k);
    if StoredPrefix(s) {
      forall rest | ConsumerRun(s, rest) ensures !Race(rest[|rest| - 1]) {
        ConsumerKeepsStoredPrefix(s, rest, |rest| - 1);
      }
    } else {
      var t: nat :| Pending(s, t) && t < s.maxRead;
      var rest := ConsumerReachesPending(s, t);
    }
  }

  // ---------------------------------------------------------------------------------------------
  // What a race costs

  /** Of the `cap` tickets from the next one to pop, those not stored yet have nothing in their slot. */
  ghost predicate Vacant<T(!new)>(s: State<T>)
    requires WellFormed(s)
  {
    forall t: nat :: |s.popped| <= t < |s.popped| + s.cap && (t < |s.pushed| ==> Pending(s, t)) ==>
      !s.slots[t % s.cap].Holds?
  }

  lemma {:induction false} WindowApart<T(!new)>(s: State<T>, a: nat, b: nat)
    requires Counted(s) && |s.popped| <= a < |s.popped| + s.cap && |s.popped| <= b < |s.pushed| && a != b
    ensures a % s.cap != b % s.cap
  {
    CountBounds(s.producers, HoldsReservation);
    DistinctSlots(if a < b then a else b, if a < b then b else a, s.cap);
  }

  lemma {:induction false} ProducerStepVacant<T(!new)>(s: State<T>, i: nat)
    requires Ordered(s) && Vacant(s) && Enabled(s, Advance(i)) && |ProducerStep(s, i).pushed| <= MAX_PUSHES
    ensures WellFormed(ProducerStep(s, i)) && Vacant(ProducerStep(s, i))
  {
    hide Pending, Balanced, Tickets, Faithful;
    var s', p := ProducerStep(s, i), s.producers[i];
    StepCounted(s, Advance(i));
    forall t: nat | |s'.popped| <= t < |s'.popped| + s.cap && (t < |s'.pushed| ==> Pending(s', t))
      ensures !s'.slots[t % s.cap].Holds?
    {
      PendingAfter(s, i, t);
      if p.Ticketed? {
        TicketedIsPending(s, i);
        if t != p.ticket { WindowApart(s, t, p.ticket); }
      }
    }
  }

  lemma {:induction false} ConsumerStepVacant<T(!new)>(s: State<T>)
    requires Ordered(s) && Vacant(s)
    ensures WellFormed(ConsumerStep(s)) && Vacant(ConsumerStep(s))
  {
    hide Balanced, Tickets, Faithful, Behind;
    var s' := ConsumerStep(s);
    ConsumerStepCounted(s);
    CountedBounds(s);
    forall t: nat | |s'.popped| <= t < |s'.popped| + s.cap && (t < |s'.pushed| ==> Pending(s', t))
      ensures !s'.slots[t % s.cap].Holds?
    {
      assert t < |s.pushed| ==> Pending(s, t);
      if s.consumer.Taking? && t == |s.popped| + s.cap {
        SlotAround(|s.popped|, s.cap);
      }
    }
  }

  lemma SlotAround(t: nat, cap: nat)
    requires cap > 0
    ensures (t + cap) % cap == t % cap
  {
    var d := (t + cap) / cap - t / cap - 1;
    assert t + cap == cap * ((t + cap) / cap) + (t + cap) % cap;
    assert t == cap * (t / cap) + t % cap;
    assert cap * d == t % cap - (t + cap) % cap;
    assert (d >= 1 ==> cap * d >= cap) && (d <= -1 ==> cap * d + cap <= 0);
  }

  lemma {:induction false} StepVacant<T(!new)>(s: State<T>, a: Action<T>)
    requires Ordered(s) && Vacant(s) && Enabled(s, a) && |Do(s, a).pushed| <= MAX_PUSHES
    ensures WellFormed(Do(s, a)) && Vacant(Do(s, a))
  {
    match a
    case Advance(i) => ProducerStepVacant(s, i);
    case Consume => ConsumerStepVacant(s);
    case Call(i, v, blocking) =>
      var s' := Do(s, a);
      StepCounted(s, a);
      forall t: nat | Pending(s', t) ensures Pending(s, t) {
        var j :| 0 <= j < |s'.producers| && s'.producers[j].Ticketed? && s'.producers[j].ticket == t;
        assert s.producers[j] == s'.producers[j];
      }
  }

  lemma {:induction false} InitVacant<T(!new)>(s: State<T>)
    requires Init(s) && |s.pushed| <= MAX_PUSHES
    ensures WellFormed(s) && Vacant(s)
  {
    InitCounted(s);
    forall t: nat | t < s.cap ensures t % s.cap == t { OwnSlot(t, s.cap); }
  }

  lemma {:induction false} VacantWhileRaceFree<T(!new)>(ss: seq<State<T>>, k: nat)
    requires Run(ss) && k < |ss| && RaceFreeBefore(ss, k)
    ensures WellFormed(ss[k]) && Vacant(ss[k])
  {
    hide Vacant, Ordered, Do, Enabled, Race, Init;
    if k == 0 {
      InitVacant(ss[0]);
    } else {
      VacantWhileRaceFree(ss, k - 1);
      OrderedWhileRaceFree(ss, k - 1);
      assert StepAt(ss, k);
      var a :| Enabled(ss[k - 1], a) && ss[k] == Do(ss[k - 1], a);
      StepVacant(ss[k - 1], a);
    }
  }

  /** A race costs the order: if the consumer moves first, it pops a slot that holds no value, and
      what was popped is no longer a prefix of what was pushed. */
  lemma {:induction false} RacePopsNoValue<T(!new)>(ss: seq<State<T>>, k: nat)
    requires Run(ss) && k < |ss| && RaceFreeBefore(ss, k) && WellFormed(ss[k]) && Race(ss[k])
    ensures var s' := ConsumerStep(ss[k]);
            && |s'.popped| == |ss[k].popped| + 1 && !s'.popped[|ss[k].popped|].Holds?
            && WellFormed(s') && !Fifo(s')
  {
    var s := ss[k];
    OrderedWhileRaceFree(ss, k);
    VacantWhileRaceFree(ss, k);
    RaceIsOnTheTakenTicket(s);
    ConsumerStepCounted(s);
    assert Pending(s, |s.popped|) && s.consumer.slot == |s.popped| % s.cap;
  }

  // ---------------------------------------------------------------------------------------------
  // Quiescence

  ghost predicate Quiescent<T(!new)>(s: State<T>) {
    s.consumer.Waiting? && forall i :: 0 <= i < |s.producers| ==> s.producers[i].Idle?
  }

  /** With no call in progress, `size`, `empty` and `full` describe the stored elements exactly. */
  lemma {:induction false} QuiescentCountersAreExact<T(!new)>(s: State<T>)
    requires Counted(s) && Quiescent(s)
    ensures s.size == |s.pushed| - |s.popped| == s.maxRead - s.read
    ensures s.size == 0 <==> |s.popped| == |s.pushed|
    ensures s.size == s.cap <==> |s.pushed| - |s.popped| == s.cap
    ensures StoredPrefix(s)
  {
    CountBounds(s.producers, HoldsReservation);
    CountBounds(s.producers, AwaitsUndo);
    CountBounds(s.producers, InFlight);
  }
}
