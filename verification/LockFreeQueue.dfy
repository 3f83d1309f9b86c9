/**
 The multi-producer, single-consumer queue as a step system: one step per atomic access, any
 number of producers, one consumer, sequentially consistent interleaving. The counters are 32 bits
 wide and wrap. `pushed` (values in ticket order) and `popped` (what the consumer moved out) are
 history: no step reads them.
 */
module LockFreeQueue {

  const U32_MODULUS: nat := 0x1_0000_0000

  /** The most tickets a queue can issue before `m_read + 1` can wrap (see `WrappedCheckPops`). */
  const MAX_PUSHES: nat := U32_MODULUS - 2

  /** `fetch_add(1)` on a `u32`. */
  function Increment(counter: nat): nat {
    if counter == U32_MODULUS - 1 then 0 else counter + 1
  }

  /** `fetch_sub(1)` on a `u32`. */
  function Decrement(counter: nat): nat {
    if counter == 0 then U32_MODULUS - 1 else counter - 1
  }

  /** A buffer slot: never assigned, assigned by a push, or moved out of by a pop. */
  datatype Slot<T> = Unset | Holds(value: T) | MovedFrom

  /** A producer, named by the atomic access it performs next. `blocking` tells `push_back` and
      `emplace_back` (spin on failure) from `try_push_back` and `try_emplace_back` (give up). */
  datatype Producer<T> =
    | Idle
    | Trying(value: T, blocking: bool)
    | Undoing(value: T, blocking: bool)
    | Reserved(value: T)
    | Ticketed(value: T, ticket: nat)
    | Stored(ticket: nat)

  /** The consumer inside `pop_front`: about to load `m_max_read`, about to increment `m_read`,
      about to move out of `slot`, about to decrement `m_size`. */
  datatype Consumer = Waiting | Checked | Taking(slot: nat) | Releasing

  datatype State<T> = State(
    cap: nat, slots: seq<Slot<T>>,
    read: nat, write: nat, maxRead: nat, size: nat,
    producers: seq<Producer<T>>, consumer: Consumer,
    pushed: seq<T>, popped: seq<Slot<T>>)
  {
    function With(i: nat, p: Producer<T>): State<T>
      requires i < |producers|
    {
      this.(producers := producers[i := p])
    }
  }

  datatype Action<T> = Call(thread: nat, value: T, blocking: bool) | Advance(thread: nat) | Consume

  /** Nothing indexes outside the buffer and nothing is reduced modulo zero. */
  predicate WellFormed<T(!new)>(s: State<T>) {
    && |s.slots| == s.cap
    && (s.consumer.Checked? ==> 0 < s.cap)
    && (s.consumer.Taking? ==> s.consumer.slot < s.cap)
    && (forall i :: 0 <= i < |s.producers| && s.producers[i].Ticketed? ==> 0 < s.cap)
  }

  predicate Enabled<T(!new)>(s: State<T>, a: Action<T>) {
    && WellFormed(s)
    && match a
       case Call(i, _, _) => i < |s.producers| && s.producers[i].Idle?
       case Advance(i) => i < |s.producers| && !s.producers[i].Idle?
       case Consume => true
  }

  /** One atomic access of a producer in the middle of a push. */
  function ProducerStep<T(!new)>(s: State<T>, i: nat): State<T>
    requires Enabled(s, Advance(i))
  {
    match s.producers[i]
    case Trying(v, blocking) =>
      s.With(i, if s.size >= s.cap then Undoing(v, blocking) else Reserved(v)).(size := Increment(s.size))
    case Undoing(v, blocking) =>
      s.With(i, if blocking then Trying(v, blocking) else Idle).(size := Decrement(s.size))
    case Reserved(v) =>
      s.With(i, Ticketed(v, s.write)).(write := Increment(s.write), pushed := s.pushed + [v])
    case Ticketed(v, ticket) =>
      s.With(i, Stored(ticket)).(slots := s.slots[ticket % s.cap := Holds(v)])
    case Stored(_) =>
      s.With(i, Idle).(maxRead := Increment(s.maxRead))
  }

  /** One access of `pop_front`; a failed check returns None and leaves the consumer waiting. */
  function ConsumerStep<T(!new)>(s: State<T>): State<T>
    requires WellFormed(s)
  {
    match s.consumer
    case Waiting =>
      if Increment(s.read) > s.maxRead then s else s.(consumer := Checked)
    case Checked =>
      s.(consumer := Taking(s.read % s.cap), read := Increment(s.read))
    case Taking(slot) =>
      s.(consumer := Releasing, slots := s.slots[slot := MovedFrom], popped := s.popped + [s.slots[slot]])
    case Releasing =>
      s.(consumer := Waiting, size := Decrement(s.size))
  }

  function Do<T(!new)>(s: State<T>, a: Action<T>): State<T>
    requires Enabled(s, a)
  {
    match a
    case Call(i, v, blocking) => s.With(i, Trying(v, blocking))
    case Advance(i) => ProducerStep(s, i)
    case Consume => ConsumerStep(s)
  }

  ghost predicate Next<T(!new)>(s: State<T>, s': State<T>) {
    exists a :: Enabled(s, a) && s' == Do(s, a)
  }

  /** The constructors: an empty queue, or one filled to capacity with the given values. */
  ghost predicate Init<T(!new)>(s: State<T>) {
    && s.cap + |s.producers| < U32_MODULUS
    && (forall i :: 0 <= i < |s.producers| ==> s.producers[i].Idle?)
    && s.consumer.Waiting? && s.read == 0 && s.popped == []
    && |s.slots| == s.cap
    && s.write == s.size == s.maxRead == |s.pushed|
    && ( || (s.pushed == [] && forall k :: 0 <= k < s.cap ==> s.slots[k].Unset?)
         || (|s.pushed| == s.cap && forall k :: 0 <= k < s.cap ==> s.slots[k] == Holds(s.pushed[k])))
  }

  /** State `k` is one step after the state before it. */
  ghost predicate StepAt<T(!new)>(ss: seq<State<T>>, k: nat)
    requires 0 < k < |ss|
  {
    Next(ss[k - 1], ss[k])
  }

  ghost predicate Execution<T(!new)>(ss: seq<State<T>>) {
    |ss| > 0 && Init(ss[0]) && forall k :: 0 < k < |ss| ==> StepAt(ss, k)
  }

  /** A run: an execution that issues at most MAX_PUSHES tickets. */
  ghost predicate Run<T(!new)>(ss: seq<State<T>>) {
    Execution(ss) && forall k :: 0 <= k < |ss| ==> |ss[k].pushed| <= MAX_PUSHES
  }

  // ---------------------------------------------------------------------------------------------
  // Counting

  datatype Role = HoldsReservation | AwaitsUndo | InFlight

  predicate HasTicket<T>(p: Producer<T>) {
    p.Ticketed? || p.Stored?
  }

  function Weight<T>(p: Producer<T>, role: Role): nat {
    match role
    case HoldsReservation => if p.Reserved? then 1 else 0
    case AwaitsUndo => if p.Undoing? then 1 else 0
    case InFlight => if HasTicket(p) then 1 else 0
  }

  function Count<T>(ps: seq<Producer<T>>, role: Role): nat {
    if ps == [] then 0 else Weight(ps[0], role) + Count(ps[1..], role)
  }

  lemma {:induction false} CountUpdate<T>(ps: seq<Producer<T>>, i: nat, p: Producer<T>, role: Role)
    requires i < |ps|
    ensures Count(ps[i := p], role) == Count(ps, role) - Weight(ps[i], role) + Weight(p, role)
  {
    if i == 0 {
      assert ps[i := p][1..] == ps[1..];
    } else {
      CountUpdate(ps[1..], i - 1, p, role);
      assert ps[i := p][1..] == ps[1..][i - 1 := p];
    }
  }

  lemma {:induction false} CountBounds<T>(ps: seq<Producer<T>>, role: Role)
    ensures Count(ps, role) <= |ps|
    ensures (forall i :: 0 <= i < |ps| ==> Weight(ps[i], role) == 0) ==> Count(ps, role) == 0
    ensures forall i :: 0 <= i < |ps| ==> Weight(ps[i], role) <= Count(ps, role) < |ps| + Weight(ps[i], role)
  {
    if ps != [] {
      CountBounds(ps[1..], role);
      assert forall i :: 1 <= i < |ps| ==> ps[i] == ps[1..][i - 1];
    }
  }

  /** Reservations given back so far by the consumer's `m_size` decrement. */
  function Released<T>(s: State<T>): int {
    |s.popped| - (if s.consumer.Releasing? then 1 else 0)
  }

  /** Reservations that succeeded and were not yet given back. */
  function Unreleased<T>(s: State<T>): int {
    |s.pushed| + Count(s.producers, HoldsReservation) - Released(s)
  }

  /** What every interleaving keeps, whatever the order of publication. */
  ghost predicate Counted<T(!new)>(s: State<T>) {
    WellFormed(s) && Balanced(s) && Tickets(s)
  }

  /** The four counters, in terms of what the producers and the consumer have done. */
  predicate Balanced<T>(s: State<T>) {
    BalancedFor(s, Count(s.producers, HoldsReservation), Count(s.producers, AwaitsUndo), Count(s.producers, InFlight))
  }

  /** `Balanced`, with the number of producers in each role given by the caller. */
  predicate BalancedFor<T>(s: State<T>, reserved: int, undoing: int, inFlight: int) {
    && s.cap + |s.producers| < U32_MODULUS
    && s.write == |s.pushed| <= MAX_PUSHES
    && s.read == |s.popped| + (if s.consumer.Taking? then 1 else 0)
    && s.maxRead + inFlight == |s.pushed|
    && s.read + (if s.consumer.Checked? then 1 else 0) <= s.maxRead
    && 0 <= Released(s)
    && s.size == |s.pushed| + reserved - Released(s) + undoing
    && |s.pushed| + reserved - Released(s) <= s.cap
    && (s.cap == 0 ==> s.pushed == [])
    && (s.consumer.Taking? ==> 0 < s.cap && s.consumer.slot == |s.popped| % s.cap)
  }

  /** Each ticket in a producer's hands was issued to it alone, for the value it carries. */
  ghost predicate Tickets<T(!new)>(s: State<T>) {
    && (forall i :: 0 <= i < |s.producers| && s.producers[i].Ticketed? ==>
          s.producers[i].ticket < |s.pushed| && s.pushed[s.producers[i].ticket] == s.producers[i].value)
    && (forall i :: 0 <= i < |s.producers| && s.producers[i].Stored? ==> s.producers[i].ticket < |s.pushed|)
    && (forall i, j :: 0 <= i < j < |s.producers| && HasTicket(s.producers[i]) && HasTicket(s.producers[j]) ==>
          s.producers[i].ticket != s.producers[j].ticket)
  }

  lemma {:induction false} InitCounted<T(!new)>(s: State<T>)
    requires Init(s) && |s.pushed| <= MAX_PUSHES
    ensures Counted(s)
  {
    CountBounds(s.producers, HoldsReservation);
    CountBounds(s.producers, AwaitsUndo);
    CountBounds(s.producers, InFlight);
  }

  /** A producer that keeps its ticket, gives it up, or gets a new one leaves the tickets in order. */
  lemma {:induction false} TicketsAfter<T(!new)>(s: State<T>, s': State<T>, i: nat)
    requires Tickets(s) && i < |s.producers| == |s'.producers| && s'.producers == s.producers[i := s'.producers[i]]
    requires s.pushed <= s'.pushed
    requires var p, p' := s.producers[i], s'.producers[i];
             HasTicket(p') ==>
               && (if HasTicket(p) then p'.ticket == p.ticket else p'.ticket == |s.pushed| < |s'.pushed|)
               && (p'.Ticketed? ==> p'.ticket < |s'.pushed| && s'.pushed[p'.ticket] == p'.value)
    ensures Tickets(s')
  {
    assert forall j :: 0 <= j < |s'.producers| && j != i ==> s'.producers[j] == s.producers[j];
  }

  lemma {:induction false} ProducerStepTickets<T(!new)>(s: State<T>, i: nat)
    requires Tickets(s) && Enabled(s, Advance(i)) && s.write == |s.pushed|
    ensures Tickets(ProducerStep(s, i))
  {
    TicketsAfter(s, ProducerStep(s, i), i);
  }

  lemma {:induction false} CountsAfter<T>(s: State<T>, s': State<T>, i: nat, role: Role)
    requires i < |s.producers| == |s'.producers| && s'.producers == s.producers[i := s'.producers[i]]
    ensures Count(s'.producers, role)
         == Count(s.producers, role) - Weight(s.producers[i], role) + Weight(s'.producers[i], role)
    ensures Count(s'.producers, role) <= |s.producers|
    ensures Weight(s.producers[i], role) <= Count(s.producers, role) < |s.producers| + Weight(s.producers[i], role)
  {
    CountUpdate(s.producers, i, s'.producers[i], role);
    CountBounds(s'.producers, role);
    CountBounds(s.producers, role);
  }

  /** The counters after one access of producer `i`, which has left one role for another. */
  lemma {:induction false} ProducerStepArithmetic<T(!new)>(s: State<T>, i: nat, reserved: int, undoing: int,
                                                           inFlight: int)
    requires Enabled(s, Advance(i)) && BalancedFor(s, reserved, undoing, inFlight)
    requires Weight(s.producers[i], HoldsReservation) <= reserved <= |s.producers|
    requires Weight(s.producers[i], AwaitsUndo) <= undoing <= |s.producers|
    requires s.producers[i].Trying? ==> undoing < |s.producers|
    requires Weight(s.producers[i], InFlight) <= inFlight
    requires |ProducerStep(s, i).pushed| <= MAX_PUSHES
    ensures var s', p := ProducerStep(s, i), s.producers[i];
            var p' := s'.producers[i];
            BalancedFor(s', reserved - Weight(p, HoldsReservation) + Weight(p', HoldsReservation),
                            undoing - Weight(p, AwaitsUndo) + Weight(p', AwaitsUndo),
                            inFlight - Weight(p, InFlight) + Weight(p', InFlight))
  {
    hide WellFormed;
    if s.producers[i].Trying? || s.producers[i].Undoing? {
      SizeStepArithmetic(s, i, reserved, undoing, inFlight);
    } else {
      TicketStepArithmetic(s, i, reserved, undoing, inFlight);
    }
  }

  /** The accesses to `m_size`. */
  lemma {:induction false} SizeStepArithmetic<T(!new)>(s: State<T>, i: nat, reserved: int, undoing: int, inFlight: int)
    requires Enabled(s, Advance(i)) && BalancedFor(s, reserved, undoing, inFlight)
    requires 0 <= reserved && 0 <= inFlight && Weight(s.producers[i], AwaitsUndo) <= undoing
    requires (s.producers[i].Trying? && undoing < |s.producers|) || s.producers[i].Undoing?
    ensures var s', p := ProducerStep(s, i), s.producers[i];
            var p' := s'.producers[i];
            BalancedFor(s', reserved + Weight(p', HoldsReservation),
                            undoing - Weight(p, AwaitsUndo) + Weight(p', AwaitsUndo), inFlight)
  {
    hide WellFormed;
  }

  /** The ticket, the store and the publication. */
  lemma {:induction false} TicketStepArithmetic<T(!new)>(s: State<T>, i: nat, reserved: int, undoing: int,
                                                         inFlight: int)
    requires Enabled(s, Advance(i)) && BalancedFor(s, reserved, undoing, inFlight)
    requires !s.producers[i].Trying? && !s.producers[i].Undoing?
    requires 0 <= undoing && Weight(s.producers[i], HoldsReservation) <= reserved
    requires Weight(s.producers[i], InFlight) <= inFlight && |ProducerStep(s, i).pushed| <= MAX_PUSHES
    ensures var s', p := ProducerStep(s, i), s.producers[i];
            BalancedFor(s', reserved - Weight(p, HoldsReservation), undoing,
                            inFlight - Weight(p, InFlight) + Weight(s'.producers[i], InFlight))
  {
    hide WellFormed;
  }

  lemma {:induction false} ProducerStepBalanced<T(!new)>(s: State<T>, i: nat)
    requires Balanced(s) && Enabled(s, Advance(i)) && |ProducerStep(s, i).pushed| <= MAX_PUSHES
    ensures Balanced(ProducerStep(s, i))
  {
    var s' := ProducerStep(s, i);
    CountsAfter(s, s', i, HoldsReservation);
    CountsAfter(s, s', i, AwaitsUndo);
    CountsAfter(s, s', i, InFlight);
    ProducerStepArithmetic(s, i, Count(s.producers, HoldsReservation), Count(s.producers, AwaitsUndo),
                           Count(s.producers, InFlight));
  }

  lemma {:induction false} CallCounted<T(!new)>(s: State<T>, a: Action<T>)
    requires Counted(s) && Enabled(s, a) && a.Call?
    ensures Counted(Do(s, a))
  {
    var s' := Do(s, a);
    CountsAfter(s, s', a.thread, HoldsReservation);
    CountsAfter(s, s', a.thread, AwaitsUndo);
    CountsAfter(s, s', a.thread, InFlight);
  }

  lemma {:induction false} ConsumerStepCounted<T(!new)>(s: State<T>)
    requires Counted(s)
    ensures Counted(ConsumerStep(s))
  {
    var r, u, f := Count(s.producers, HoldsReservation), Count(s.producers, AwaitsUndo), Count(s.producers, InFlight);
    assert BalancedFor(ConsumerStep(s), r, u, f);
  }

  lemma {:induction false} StepCounted<T(!new)>(s: State<T>, a: Action<T>)
    requires Counted(s) && Enabled(s, a) && |Do(s, a).pushed| <= MAX_PUSHES
    ensures Counted(Do(s, a))
  {
    match a
    case Call(_, _, _) => CallCounted(s, a);
    case Consume => ConsumerStepCounted(s);
    case Advance(i) =>
      ProducerStepBalanced(s, i);
      ProducerStepTickets(s, i);
  }
}
