/**
 Executions that show where the guarantees of the queue end: two producers publishing out of order,
 a refused push on an empty queue, and the check of `pop_front` once `m_read + 1` wraps.
 */
module LockFreeQueueLimits {
  import opened LockFreeQueue
  import opened LockFreeQueueOrder

  function Last<T>(ss: seq<State<T>>): State<T>
    requires |ss| > 0
  {
    ss[|ss| - 1]
  }

  lemma {:induction false} Extend<T(!new)>(ss: seq<State<T>>, a: Action<T>) returns (ss': seq<State<T>>)
    requires Execution(ss) && Enabled(Last(ss), a)
    ensures Execution(ss') && Last(ss') == Do(Last(ss), a)
    ensures ss' == ss + [Do(Last(ss), a)]
  {
    ss' := ss + [Do(Last(ss), a)];
    forall k | 0 < k < |ss'| ensures StepAt(ss', k) {
      if k < |ss| {
        assert StepAt(ss, k);
      } else {
        assert Enabled(ss'[k - 1], a) && ss'[k] == Do(ss'[k - 1], a);
      }
    }
  }

  /** Runs `a` after `ss`, several actions at a time. */
  lemma {:induction false} ExtendAll<T(!new)>(ss: seq<State<T>>, s: State<T>, actions: seq<Action<T>>,
                                              targets: seq<State<T>>)
      returns (ss': seq<State<T>>)
    requires Execution(ss) && Last(ss) == s && |targets| == |actions| > 0
    requires Enabled(s, actions[0]) && targets[0] == Do(s, actions[0])
    requires forall k :: 1 <= k < |actions| ==>
               Enabled(targets[k - 1], actions[k]) && targets[k] == Do(targets[k - 1], actions[k])
    ensures Execution(ss') && ss' == ss + targets
    decreases |actions|
  {
    ss' := Extend(ss, actions[0]);
    if |actions| > 1 {
      assert Enabled(targets[1 - 1], actions[1]);
      ss' := ExtendAll(ss', targets[0], actions[1..], targets[1..]);
    }
  }

  /** A queue of capacity 2, one of whose two producers has a ticket. */
  lemma {:induction false} OneTicketIssued<T(!new)>(v: T) returns (ss: seq<State<T>>)
    ensures Execution(ss)
    ensures Last(ss) == State(2, [Unset, Unset], 0, 1, 0, 1, [Ticketed(v, 0), Idle], Waiting, [v], [])
    ensures forall k :: 0 <= k < |ss| ==> |ss[k].pushed| <= 2
  {
    var s0 := State(2, [Unset, Unset], 0, 0, 0, 0, [Idle, Idle], Waiting, [], []);
    var s1 := State(2, [Unset, Unset], 0, 0, 0, 0, [Trying(v, true), Idle], Waiting, [], []);
    var s2 := State(2, [Unset, Unset], 0, 0, 0, 1, [Reserved(v), Idle], Waiting, [], []);
    var s3 := State(2, [Unset, Unset], 0, 1, 0, 1, [Ticketed(v, 0), Idle], Waiting, [v], []);
    ss := ExtendAll([s0], s0, [Call(0, v, true), Advance(0), Advance(0)], [s1, s2, s3]);
  }

  /** Both producers have a ticket, and neither has its store done. */
  lemma {:induction false} TwoTicketsIssued<T(!new)>(v: T, w: T) returns (ss: seq<State<T>>)
    ensures Execution(ss)
    ensures Last(ss) == State(2, [Unset, Unset], 0, 2, 0, 2, [Ticketed(v, 0), Ticketed(w, 1)], Waiting, [v, w], [])
    ensures forall k :: 0 <= k < |ss| ==> |ss[k].pushed| <= 2
  {
    ss := OneTicketIssued(v);
    var s1 := State(2, [Unset, Unset], 0, 1, 0, 1, [Ticketed(v, 0), Trying(w, true)], Waiting, [v], []);
    var s2 := State(2, [Unset, Unset], 0, 1, 0, 2, [Ticketed(v, 0), Reserved(w)], Waiting, [v], []);
    var s3 := State(2, [Unset, Unset], 0, 2, 0, 2, [Ticketed(v, 0), Ticketed(w, 1)], Waiting, [v, w], []);
    ss := ExtendAll(ss, Last(ss), [Call(1, w, true), Advance(1), Advance(1)], [s1, s2, s3]);
  }

  /** Two producers publishing out of ticket order: the consumer and the first producer meet at slot 0. */
  lemma {:induction false} OutOfOrderPublicationRaces<T(!new)>(v: T, w: T) returns (ss: seq<State<T>>)
    ensures Run(ss) && WellFormed(Last(ss)) && Race(Last(ss)) && |Last(ss).producers| == 2
  {
    ss := TwoTicketsIssued(v, w);
    var s1 := State(2, [Unset, Holds(w)], 0, 2, 0, 2, [Ticketed(v, 0), Stored(1)], Waiting, [v, w], []);
    var s2 := State(2, [Unset, Holds(w)], 0, 2, 1, 2, [Ticketed(v, 0), Idle], Waiting, [v, w], []);
    var s3 := State(2, [Unset, Holds(w)], 0, 2, 1, 2, [Ticketed(v, 0), Idle], Checked, [v, w], []);
    var s4 := State(2, [Unset, Holds(w)], 1, 2, 1, 2, [Ticketed(v, 0), Idle], Taking(0), [v, w], []);
    ss := ExtendAll(ss, Last(ss), [Advance(1), Advance(1), Consume, Consume], [s1, s2, s3, s4]);
    assert s4.producers[0].ticket % s4.cap == s4.consumer.slot;
  }

  /** Whether a `try_push_back` about to reserve is refused: producers still undoing count as elements. */
  lemma {:induction false} RefusedIff<T(!new)>(s: State<T>, i: nat)
    requires Counted(s) && i < |s.producers| && s.producers[i].Trying?
    ensures ProducerStep(s, i).producers[i].Undoing? <==> Unreleased(s) + Count(s.producers, AwaitsUndo) >= s.cap
    ensures Count(s.producers, AwaitsUndo) == 0 ==>
              (ProducerStep(s, i).producers[i].Undoing? <==> Unreleased(s) == s.cap)
  {
  }

  /** A queue of capacity 1 holding one value. */
  lemma {:induction false} OneValuePushed<T(!new)>(v: T) returns (ss: seq<State<T>>)
    ensures Execution(ss)
    ensures Last(ss) == State(1, [Holds(v)], 0, 1, 1, 1, [Idle, Idle], Waiting, [v], [])
    ensures forall k :: 0 <= k < |ss| ==> |ss[k].pushed| <= 1
  {
    var s0 := State(1, [Unset], 0, 0, 0, 0, [Idle, Idle], Waiting, [], []);
    var s1 := State(1, [Unset], 0, 0, 0, 0, [Trying(v, false), Idle], Waiting, [], []);
    var s2 := State(1, [Unset], 0, 0, 0, 1, [Reserved(v), Idle], Waiting, [], []);
    var s3 := State(1, [Unset], 0, 1, 0, 1, [Ticketed(v, 0), Idle], Waiting, [v], []);
    var s4 := State(1, [Holds(v)], 0, 1, 0, 1, [Stored(0), Idle], Waiting, [v], []);
    var s5 := State(1, [Holds(v)], 0, 1, 1, 1, [Idle, Idle], Waiting, [v], []);
    ss := ExtendAll([s0], s0, [Call(0, v, false), Advance(0), Advance(0), Advance(0), Advance(0)],
                    [s1, s2, s3, s4, s5]);
  }

  /** A queue of capacity 1 holding one value, and a second producer that was just refused. */
  lemma {:induction false} FullQueueRefuses<T(!new)>(v: T) returns (ss: seq<State<T>>)
    ensures Execution(ss)
    ensures Last(ss) == State(1, [Holds(v)], 0, 1, 1, 2, [Idle, Undoing(v, false)], Waiting, [v], [])
    ensures forall k :: 0 <= k < |ss| ==> |ss[k].pushed| <= 1
  {
    ss := OneValuePushed(v);
    var s1 := State(1, [Holds(v)], 0, 1, 1, 1, [Idle, Trying(v, false)], Waiting, [v], []);
    var s2 := State(1, [Holds(v)], 0, 1, 1, 2, [Idle, Undoing(v, false)], Waiting, [v], []);
    ss := ExtendAll(ss, Last(ss), [Call(1, v, false), Advance(1)], [s1, s2]);
  }

  /** A refused push does not mean a full queue: here the value has been popped, nothing is stored,
      and the first producer is refused because the second has not undone its increment yet. */
  lemma {:induction false} EmptyQueueRefuses<T(!new)>(v: T) returns (ss: seq<State<T>>)
    ensures Run(ss) && |Last(ss).pushed| == |Last(ss).popped| && Last(ss).consumer.Waiting?
    ensures Last(ss).producers == [Undoing(v, false), Undoing(v, false)] && Last(ss).cap == 1
  {
    ss := FullQueueRefuses(v);
    var s1 := State(1, [Holds(v)], 0, 1, 1, 2, [Idle, Undoing(v, false)], Checked, [v], []);
    var s2 := State(1, [Holds(v)], 1, 1, 1, 2, [Idle, Undoing(v, false)], Taking(0), [v], []);
    var s3 := State(1, [MovedFrom], 1, 1, 1, 2, [Idle, Undoing(v, false)], Releasing, [v], [Holds(v)]);
    var s4 := State(1, [MovedFrom], 1, 1, 1, 1, [Idle, Undoing(v, false)], Waiting, [v], [Holds(v)]);
    var s5 := State(1, [MovedFrom], 1, 1, 1, 1, [Trying(v, false), Undoing(v, false)], Waiting, [v], [Holds(v)]);
    var s6 := State(1, [MovedFrom], 1, 1, 1, 2, [Undoing(v, false), Undoing(v, false)], Waiting, [v], [Holds(v)]);
    ss := ExtendAll(ss, Last(ss), [Consume, Consume, Consume, Consume, Call(0, v, false), Advance(0)],
                    [s1, s2, s3, s4, s5, s6]);
  }

  /** A queue of capacity 1 with one producer, at rest after `c` values were pushed and popped. */
  ghost predicate AtRest<T(!new)>(s: State<T>, c: nat) {
    && c < U32_MODULUS && s.cap == 1 && |s.slots| == 1
    && s.read == s.write == s.maxRead == c && s.size == 0
    && s.producers == [Idle] && s.consumer.Waiting? && |s.pushed| == |s.popped| == c
  }

  /** The same queue with one value in it. */
  ghost predicate HoldsOne<T(!new)>(s: State<T>, c: nat, v: T) {
    && c + 1 < U32_MODULUS && |s.pushed| == c + 1 && |s.popped| == c
    && s == State(1, [Holds(v)], c, c + 1, c + 1, 1, [Idle], Waiting, s.pushed, s.popped)
  }

  lemma {:induction false} PushOnce<T(!new)>(ss: seq<State<T>>, c: nat, v: T) returns (ss': seq<State<T>>)
    requires Execution(ss) && AtRest(Last(ss), c) && c + 1 < U32_MODULUS
    ensures Execution(ss') && HoldsOne(Last(ss'), c, v)
  {
    var s := Last(ss);
    var q, r := s.pushed, s.popped;
    var s1 := State(1, s.slots, c, c, c, 0, [Trying(v, true)], Waiting, q, r);
    var s2 := State(1, s.slots, c, c, c, 1, [Reserved(v)], Waiting, q, r);
    var s3 := State(1, s.slots, c, c + 1, c, 1, [Ticketed(v, c)], Waiting, q + [v], r);
    var s4 := State(1, [Holds(v)], c, c + 1, c, 1, [Stored(c)], Waiting, q + [v], r);
    var s5 := State(1, [Holds(v)], c, c + 1, c + 1, 1, [Idle], Waiting, q + [v], r);
    ss' := ExtendAll(ss, s, [Call(0, v, true), Advance(0), Advance(0), Advance(0), Advance(0)], [s1, s2, s3, s4, s5]);
  }

  lemma {:induction false} PopOnce<T(!new)>(ss: seq<State<T>>, c: nat, v: T) returns (ss': seq<State<T>>)
    requires Execution(ss) && HoldsOne(Last(ss), c, v)
    ensures Execution(ss') && AtRest(Last(ss'), c + 1)
  {
    var s := Last(ss);
    var q, r := s.pushed, s.popped;
    var s1 := State(1, [Holds(v)], c, c + 1, c + 1, 1, [Idle], Checked, q, r);
    var s2 := State(1, [Holds(v)], c + 1, c + 1, c + 1, 1, [Idle], Taking(0), q, r);
    var s3 := State(1, [MovedFrom], c + 1, c + 1, c + 1, 1, [Idle], Releasing, q, r + [Holds(v)]);
    var s4 := State(1, [MovedFrom], c + 1, c + 1, c + 1, 0, [Idle], Waiting, q, r + [Holds(v)]);
    ss' := ExtendAll(ss, s, [Consume, Consume, Consume, Consume], [s1, s2, s3, s4]);
  }

  lemma {:induction false} ManyPushesAndPops<T(!new)>(c: nat, v: T) returns (ss: seq<State<T>>)
    requires c < U32_MODULUS
    ensures Execution(ss) && AtRest(Last(ss), c)
  {
    if c == 0 {
      ss := [State(1, [Unset], 0, 0, 0, 0, [Idle], Waiting, [], [])];
    } else {
      var before := ManyPushesAndPops(c - 1, v);
      var pushed := PushOnce(before, c - 1, v);
      ss := PopOnce(pushed, c - 1, v);
    }
  }

  /** MAX_PUSHES is the exact limit: after one push more, with everything popped and nothing in
      progress, `pop_front` passes its check and goes on to take a value that is not there. */
  lemma {:induction false} WrappedCheckPops<T(!new)>(v: T) returns (ss: seq<State<T>>)
    ensures Execution(ss) && Quiescent(Last(ss))
    ensures |Last(ss).pushed| == |Last(ss).popped| == MAX_PUSHES + 1 == 0xFFFF_FFFF
    ensures WellFormed(Last(ss)) && ConsumerStep(Last(ss)).consumer.Checked?
  {
    ss := ManyPushesAndPops(MAX_PUSHES + 1, v);
  }

  /** Up to MAX_PUSHES, the check of `pop_front` passes exactly when a published value is left. */
  lemma {:induction false} CheckIsExact<T(!new)>(s: State<T>)
    requires Counted(s) && s.consumer.Waiting?
    ensures ConsumerStep(s).consumer.Checked? <==> |s.popped| < s.maxRead
  {
  }
}
