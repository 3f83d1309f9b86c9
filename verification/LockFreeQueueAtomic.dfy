/**
 Producers that publish in the order of their tickets, one producer among them: each call takes
 effect at one instant, on a first-in, first-out queue.
 */
module LockFreeQueueAtomic {
  import opened LockFreeQueue
  import opened LockFreeQueueOrder

  /** If the step publishes, it does so for the ticket that is next. */
  ghost predicate PublishesByTicket<T(!new)>(s: State<T>, s': State<T>) {
    forall i :: 0 <= i < |s.producers| && i < |s'.producers| && s.producers[i].Stored? && s'.producers[i].Idle? ==>
      s.producers[i].ticket == s.maxRead
  }

  ghost predicate PublishedByTicket<T(!new)>(ss: seq<State<T>>) {
    forall j :: 0 < j < |ss| ==> PublishesByTicket(ss[j - 1], ss[j])
  }

  /** No producer in flight holds a ticket that counts as published. */
  ghost predicate InFlightAhead<T(!new)>(s: State<T>) {
    forall i :: 0 <= i < |s.producers| && HasTicket(s.producers[i]) ==> s.maxRead <= s.producers[i].ticket
  }

  lemma {:induction false} StepAhead<T(!new)>(s: State<T>, a: Action<T>)
    requires Counted(s) && InFlightAhead(s) && Enabled(s, a) && PublishesByTicket(s, Do(s, a))
    ensures InFlightAhead(Do(s, a))
  {
    var s' := Do(s, a);
    if a.Advance? {
      var i := a.thread;
      assert s.producers[i].Stored? ==> s.producers[i].ticket == s.maxRead;
      forall j | 0 <= j < |s'.producers| && HasTicket(s'.producers[j]) ensures s'.maxRead <= s'.producers[j].ticket {
        if j != i { assert s'.producers[j] == s.producers[j]; }
      }
    }
  }

  lemma {:induction false} AheadInEveryState<T(!new)>(ss: seq<State<T>>, k: nat)
    requires Run(ss) && k < |ss| && PublishedByTicket(ss)
    ensures InFlightAhead(ss[k])
  {
    if k > 0 {
      AheadInEveryState(ss, k - 1);
      CountedInEveryState(ss, k - 1);
      assert StepAt(ss, k) && PublishesByTicket(ss[k - 1], ss[k]);
      var a :| Enabled(ss[k - 1], a) && ss[k] == Do(ss[k - 1], a);
      StepAhead(ss[k - 1], a);
    }
  }

  lemma {:induction false} AheadIsStoredPrefix<T(!new)>(s: State<T>)
    requires InFlightAhead(s)
    ensures StoredPrefix(s)
  {
  }

  /** Producers that publish in the order of their tickets keep the queue race free and first in,
      first out, however many they are. */
  lemma {:induction false} FifoWhenPublishedByTicket<T(!new)>(ss: seq<State<T>>, k: nat)
    requires Run(ss) && k < |ss| && PublishedByTicket(ss)
    ensures WellFormed(ss[k]) && !Race(ss[k]) && Fifo(ss[k])
  {
    forall j | 0 <= j < |ss| ensures StoredPrefix(ss[j]) {
      AheadInEveryState(ss, j);
    }
    FifoWhenPublishedInOrder(ss, k);
  }

  // ---------------------------------------------------------------------------------------------
  // One producer

  ghost predicate HoldsNewest<T(!new)>(s: State<T>) {
    |s.producers| == 1 && (HasTicket(s.producers[0]) ==> s.producers[0].ticket + 1 == |s.pushed|)
  }

  lemma {:induction false} StepNewest<T(!new)>(s: State<T>, a: Action<T>)
    requires HoldsNewest(s) && s.write == |s.pushed| && Enabled(s, a)
    ensures HoldsNewest(Do(s, a))
  {
  }

  lemma {:induction false} NewestInEveryState<T(!new)>(ss: seq<State<T>>, k: nat)
    requires Run(ss) && k < |ss| && |ss[0].producers| == 1
    ensures HoldsNewest(ss[k])
  {
    if k > 0 {
      NewestInEveryState(ss, k - 1);
      assert ss[k - 1].write == |ss[k - 1].pushed| by { CountedInEveryState(ss, k - 1); }
      assert StepAt(ss, k);
      var a :| Enabled(ss[k - 1], a) && ss[k] == Do(ss[k - 1], a);
      StepNewest(ss[k - 1], a);
    }
  }

  /** One producer cannot but publish in the order of its tickets. */
  lemma {:induction false} OneProducerPublishesByTicket<T(!new)>(ss: seq<State<T>>)
    requires Run(ss) && |ss[0].producers| == 1
    ensures PublishedByTicket(ss)
  {
    forall j | 0 < j < |ss| ensures PublishesByTicket(ss[j - 1], ss[j]) {
      NewestInEveryState(ss, j - 1);
      CountedInEveryState(ss, j - 1);
      CountBounds(ss[j - 1].producers, InFlight);
    }
  }

  /** With one producer and one consumer, first in, first out holds in every interleaving. */
  lemma {:induction false} FifoWithOneProducer<T(!new)>(ss: seq<State<T>>, k: nat)
    requires Run(ss) && k < |ss| && |ss[0].producers| == 1
    ensures WellFormed(ss[k]) && !Race(ss[k]) && Fifo(ss[k]) && StoredPrefix(ss[k])
  {
    OneProducerPublishesByTicket(ss);
    FifoWhenPublishedByTicket(ss, k);
    AheadInEveryState(ss, k);
  }

  // ---------------------------------------------------------------------------------------------
  // Atomic calls

  /** The values a consumer could still claim: published, and `m_read` has not passed them. */
  function Visible<T>(s: State<T>): seq<T>
    requires s.read <= s.maxRead <= |s.pushed|
  {
    s.pushed[s.read..s.maxRead]
  }

  /** The values that take up room: published, and their reservation not yet given back. */
  function Held<T>(s: State<T>): seq<T>
    requires 0 <= Released(s) <= s.maxRead <= |s.pushed|
  {
    s.pushed[Released(s)..s.maxRead]
  }

  ghost predicate InRange<T>(s: State<T>) {
    0 <= Released(s) <= s.read <= s.maxRead <= |s.pushed|
  }

  lemma {:induction false} BothInRange<T(!new)>(s: State<T>)
    requires Counted(s)
    ensures InRange(s) && s.maxRead <= MAX_PUSHES
    ensures s.consumer.Waiting? ==> Held(s) == Visible(s)
  {
  }

  lemma {:induction false} ProducerStepOnContents<T(!new)>(s: State<T>, i: nat)
    requires Enabled(s, Advance(i)) && InRange(s) && InRange(ProducerStep(s, i))
    requires s.maxRead < U32_MODULUS - 1 && PublishesByTicket(s, ProducerStep(s, i))
    ensures var s', p := ProducerStep(s, i), s.producers[i];
            if p.Stored? then
              && p.ticket == s.maxRead < |s.pushed|
              && Visible(s') == Visible(s) + [s.pushed[p.ticket]] && Held(s') == Held(s) + [s.pushed[p.ticket]]
            else Visible(s') == Visible(s) && Held(s') == Held(s)
  {
    hide Visible, Held;
    var s', p := ProducerStep(s, i), s.producers[i];
    if p.Stored? {
      assert s'.producers[i].Idle?;
    }
    ContentsAfter(s, s');
  }

  lemma {:induction false} ContentsAfter<T>(s: State<T>, s': State<T>)
    requires InRange(s) && InRange(s') && s.pushed <= s'.pushed
    requires s'.read == s.read && Released(s') == Released(s) && s.maxRead <= s'.maxRead <= s.maxRead + 1
    ensures s'.maxRead == s.maxRead ==> Visible(s') == Visible(s) && Held(s') == Held(s)
    ensures s'.maxRead == s.maxRead + 1 ==>
              var v := s'.pushed[s.maxRead];
              Visible(s') == Visible(s) + [v] && Held(s') == Held(s) + [v]
  {
    var r, h, m := s.read, Released(s), s.maxRead;
    assert s'.pushed[..|s.pushed|] == s.pushed;
    assert s'.pushed[r..m] == s.pushed[r..m] && s'.pushed[h..m] == s.pushed[h..m];
    if s'.maxRead == m + 1 {
      assert s'.pushed[r..m + 1] == s'.pushed[r..m] + [s'.pushed[m]];
      assert s'.pushed[h..m + 1] == s'.pushed[h..m] + [s'.pushed[m]];
    }
  }

  lemma {:induction false} ConsumerStepOnContents<T(!new)>(s: State<T>)
    requires Counted(s) && Fifo(s)
    ensures Counted(ConsumerStep(s))
    ensures var s' := ConsumerStep(s);
            && (if s.consumer.Checked? then Visible(s) != [] && Visible(s') == Visible(s)[1..]
                else Visible(s') == Visible(s))
            && (if s.consumer.Releasing? then
                  Held(s) != [] && s.popped[|s.popped| - 1] == Holds(Held(s)[0]) && Held(s') == Held(s)[1..]
                else Held(s') == Held(s))
            && (s.consumer.Waiting? ==> (s'.consumer.Waiting? <==> Held(s) == []))
  {
    ConsumerStepCounted(s);
  }

  /** However many producers, as long as they publish in the order of their tickets, each call takes
      effect at one instant on the sequence `Held`: a push appends its own value when it publishes, a
      pop removes the front when it gives the reservation back, having moved out that very value,
      and a pop finds nothing only at an instant at which the sequence is empty. */
  lemma {:induction false} AtomicWhenPublishedByTicket<T(!new)>(ss: seq<State<T>>, k: nat, a: Action<T>)
    requires Run(ss) && k + 1 < |ss| && PublishedByTicket(ss)
    requires Enabled(ss[k], a) && ss[k + 1] == Do(ss[k], a)
    ensures Counted(ss[k]) && Counted(ss[k + 1])
    ensures var s, q, q' := ss[k], Held(ss[k]), Held(ss[k + 1]);
            if a.Advance? && s.producers[a.thread].Stored? then
              var ticket := s.producers[a.thread].ticket;
              ticket < |s.pushed| && q' == q + [s.pushed[ticket]]
            else if a.Consume? && s.consumer.Releasing? then
              q != [] && s.popped[|s.popped| - 1] == Holds(q[0]) && q' == q[1..]
            else q' == q
    ensures a.Consume? && ss[k].consumer.Waiting? ==> (ss[k + 1].consumer.Waiting? <==> Held(ss[k]) == [])
  {
    CountedInEveryState(ss, k);
    CountedInEveryState(ss, k + 1);
    FifoWhenPublishedByTicket(ss, k);
    assert PublishesByTicket(ss[k + 1 - 1], ss[k + 1]);
    match a
    case Advance(i) =>
      BothInRange(ss[k]);
      BothInRange(ss[k + 1]);
      ProducerStepOnContents(ss[k], i);
    case Consume => ConsumerStepOnContents(ss[k]);
    case Call(_, _, _) =>
  }

  /** A push about to reserve is refused exactly when what is held and the pushes in progress, undone
      ones included, reach the capacity. */
  lemma {:induction false} RefusedByHeld<T(!new)>(s: State<T>, i: nat)
    requires Counted(s) && i < |s.producers| && s.producers[i].Trying?
    ensures ProducerStep(s, i).producers[i].Undoing? <==>
              |Held(s)| + Count(s.producers, InFlight) + Count(s.producers, HoldsReservation)
              + Count(s.producers, AwaitsUndo) >= s.cap
  {
    BothInRange(s);
  }

  /** With one producer no push is in progress but its own: it is refused exactly when the queue is full. */
  lemma {:induction false} OneProducerRefusedIffFull<T(!new)>(s: State<T>)
    requires Counted(s) && |s.producers| == 1 && s.producers[0].Trying?
    ensures ProducerStep(s, 0).producers[0].Undoing? <==> |Held(s)| == s.cap
  {
    RefusedByHeld(s, 0);
    CountBounds(s.producers, InFlight);
    CountBounds(s.producers, HoldsReservation);
    CountBounds(s.producers, AwaitsUndo);
  }
}
