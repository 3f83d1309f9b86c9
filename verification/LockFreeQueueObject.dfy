/**
 The queue as an object whose methods perform the atomic accesses one after the other, without
 interruption. Each call is shown to be a run of the step system, and to act on `Contents()` as a
 bounded first-in, first-out queue.
 */
module LockFreeQueueObject {
  import opened LockFreeQueue
  import opened LockFreeQueueOrder
  import opened Options

  /** `n` further accesses of producer 0. */
  ghost function Advances<T(!new)>(s: State<T>, n: nat): State<T>
    decreases n
  {
    if n == 0 || !Enabled(s, Advance(0)) then s else Advances(ProducerStep(s, 0), n - 1)
  }

  /** `n` further accesses of the consumer. */
  ghost function Consumes<T(!new)>(s: State<T>, n: nat): State<T>
    decreases n
  {
    if n == 0 || !WellFormed(s) then s else Consumes(ConsumerStep(s), n - 1)
  }

  class Queue<T(!new)> {
    var buffer: array<Slot<T>>
    var capacity: nat
    var read: nat
    var write: nat
    var maxRead: nat
    var size: nat
    ghost var pushed: seq<T>
    ghost var popped: seq<Slot<T>>
    // Whether the slots were given objects when the storage was allocated, and how many assignments
    // went to storage without one.
    var constructed: bool
    var strayAssignments: nat

    /** The state of the step system, with its one producer and its consumer as given. */
    ghost function View(p: Producer<T>, c: Consumer): State<T>
      reads this, buffer
    {
      State(capacity, buffer[..], read, write, maxRead, size, [p], c, pushed, popped)
    }

    ghost function AtRest(): State<T>
      reads this, buffer
    {
      View(Idle, Waiting)
    }

    ghost predicate Valid()
      reads this, buffer
    {
      Ordered(AtRest())
    }

    ghost function Contents(): seq<T>
      requires Valid()
      reads this, buffer
    {
      pushed[|popped|..]
    }

    constructor (initialCapacity: nat)
      requires initialCapacity + 1 < U32_MODULUS
      ensures Valid() && Contents() == [] && capacity == initialCapacity && fresh(buffer)
      ensures constructed && strayAssignments == 0
    {
      capacity := initialCapacity;
      read, write, maxRead, size := 0, 0, 0, 0;
      pushed, popped := [], [];
      constructed, strayAssignments := true, 0;
      buffer := new Slot<T>[initialCapacity](_ => Unset);
      new;
      InitOrdered(AtRest());
    }

    /** Fills the queue with the given values, up to its capacity, by assigning to raw storage. */
    constructor FromValues(values: seq<T>)
      requires |values| <= MAX_PUSHES
      ensures Valid() && Contents() == values && capacity == |values| && fresh(buffer)
      ensures !constructed && strayAssignments == |values|
    {
      capacity := |values|;
      var slots := new Slot<T>[|values|](_ => Unset);
      var strays := 0;
      for index := 0 to |values|
        invariant strays == index && forall k :: 0 <= k < index ==> slots[k] == Holds(values[k])
      {
        slots[index] := Holds(values[index]);
        strays := strays + 1;
      }
      constructed, strayAssignments := false, strays;
      buffer := slots;
      read, write, size, maxRead := 0, |values|, |values|, |values|;
      pushed, popped := values, [];
      new;
      InitOrdered(AtRest());
    }

    /** Reserves a slot, or gives the reservation back when the queue is at capacity. */
    method IncrementSize(ghost v: T) returns (ok: bool)
      requires Counted(View(Trying(v, false), Waiting))
      modifies this`size
      ensures ok ==> View(Reserved(v), Waiting) == Advances(old(View(Trying(v, false), Waiting)), 1)
      ensures !ok ==> AtRest() == Advances(old(View(Trying(v, false), Waiting)), 2) && size == old(size)
      ensures ok <==> old(size) < capacity
    {
      ghost var s0 := View(Trying(v, false), Waiting);
      var current := size;
      size := Increment(size);
      ghost var s1 := ProducerStep(s0, 0);
      StepCounted(s0, Advance(0));
      if current >= capacity {
        assert View(Undoing(v, false), Waiting) == s1;
        size := Decrement(size);
        assert AtRest() == ProducerStep(s1, 0);
        assert Advances(s1, 1) == Advances(AtRest(), 0);
        return false;
      }
      assert View(Reserved(v), Waiting) == s1;
      return true;
    }

    /** The rest of a push whose reservation succeeded: ticket, store, publication. */
    method StoreReserved(value: T)
      requires Ordered(View(Reserved(value), Waiting)) && |pushed| < MAX_PUSHES
      modifies this`write, this`maxRead, this`pushed, this`strayAssignments, buffer
      ensures Valid() && pushed == old(pushed) + [value]
      ensures strayAssignments == old(strayAssignments) + if constructed then 0 else 1
      ensures AtRest() == Advances(old(View(Reserved(value), Waiting)), 3)
    {
      hide Ordered, Advances;
      ghost var s := View(Reserved(value), Waiting);
      PushRuns(s, value);
      var ticket := write;
      write := Increment(write);
      pushed := pushed + [value];
      buffer[ticket % capacity] := Holds(value);
      strayAssignments := strayAssignments + if constructed then 0 else 1;
      maxRead := Increment(maxRead);
      assert AtRest() == PushFinished(s, value);
    }

    method TryPushBack(value: T) returns (ok: bool)
      requires Valid() && |pushed| < MAX_PUSHES
      modifies this, buffer
      ensures Valid() && buffer == old(buffer) && capacity == old(capacity)
      ensures ok <==> |old(Contents())| < capacity
      ensures Contents() == if ok then old(Contents()) + [value] else old(Contents())
      ensures AtRest() == Advances(Do(old(AtRest()), Call(0, value, false)), if ok then 4 else 2)
      ensures constructed == old(constructed)
      ensures strayAssignments == old(strayAssignments) + if ok && !constructed then 1 else 0
    {
      hide Faithful, Behind, Balanced, Tickets, Advances;
      ghost var s0 := View(Trying(value, false), Waiting);
      CallOrdered(AtRest(), s0, value);
      ok := IncrementSize(value);
      if ok {
        assert View(Reserved(value), Waiting) == ProducerStep(s0, 0) by {
          FirstAdvance(s0, 0);
        }
        ProducerStepOrdered(s0, 0);
        FirstAdvance(s0, 3);
        StoreReserved(value);
      }
    }

    /** The rest of a pop whose check passed: read position, move, release. */
    method TakeChecked() returns (value: T)
      requires Ordered(View(Idle, Checked))
      modifies this`read, this`popped, this`size, buffer
      ensures Valid() && |old(popped)| < |pushed| && value == pushed[|old(popped)|]
      ensures popped == old(popped) + [Holds(value)]
      ensures AtRest() == Consumes(old(View(Idle, Checked)), 3)
    {
      ghost var s1 := View(Idle, Checked);
      var slot := read % capacity;
      read := Increment(read);
      ghost var s2 := View(Idle, Taking(slot));
      assert s2 == ConsumerStep(s1);
      QuietConsumerStep(s1);

      FrontIsStored(s2);
      value := buffer[slot].value;
      popped := popped + [buffer[slot]];
      buffer[slot] := MovedFrom;
      ghost var s3 := View(Idle, Releasing);
      assert s3 == ConsumerStep(s2);
      QuietConsumerStep(s2);

      size := Decrement(size);
      assert AtRest() == ConsumerStep(s3);
      QuietConsumerStep(s3);
      ThreeConsumes(s1, s2, s3);
    }

    method PopFront() returns (r: Option<T>)
      requires Valid()
      modifies this, buffer
      ensures Valid() && buffer == old(buffer) && capacity == old(capacity)
      ensures r == if old(Contents()) == [] then None else Some(old(Contents())[0])
      ensures Contents() == if old(Contents()) == [] then [] else old(Contents())[1..]
      ensures AtRest() == Consumes(old(AtRest()), if r.None? then 1 else 4)
      ensures constructed == old(constructed) && strayAssignments == old(strayAssignments)
    {
      hide Ordered, Consumes;
      ghost var s0 := AtRest();
      CheckAtRest(s0);
      FirstConsume(s0, 0);
      FirstConsume(s0, 3);
      if Increment(read) > maxRead {
        return None;
      }
      assert View(Idle, Checked) == ConsumerStep(s0);
      QuietConsumerStep(s0);
      var value := TakeChecked();
      r := Some(value);
    }

    /** Drops every element: the counters go back to zero over a new buffer, whose slots are not given
        objects, so every later push assigns to storage without one. */
    method Clear()
      requires Valid()
      modifies this
      ensures Valid() && Contents() == [] && capacity == old(capacity) && fresh(buffer)
      ensures !constructed && strayAssignments == old(strayAssignments)
    {
      hide Ordered;
      OrderedBounds(AtRest());
      buffer := new Slot<T>[capacity](_ => Unset);
      constructed := false;
      read, write, size, maxRead := 0, 0, 0, 0;
      pushed, popped := [], [];
      InitOrdered(AtRest());
    }

    method Size() returns (n: nat)
      requires Valid()
      ensures n == |Contents()|
    {
      QuiescentCountersAreExact(AtRest());
      n := size;
    }

    method Full() returns (full: bool)
      requires Valid()
      ensures full <==> |Contents()| == capacity
    {
      QuiescentCountersAreExact(AtRest());
      full := size == capacity;
    }
  }

  lemma {:induction false} OrderedBounds<T(!new)>(s: State<T>)
    requires Ordered(s)
    ensures s.cap + |s.producers| < U32_MODULUS
  {
  }

  lemma {:induction false} CheckAtRest<T(!new)>(s: State<T>)
    requires Ordered(s) && s.producers == [Idle] && s.consumer.Waiting?
    ensures WellFormed(s) && |s.popped| <= |s.pushed|
    ensures Increment(s.read) > s.maxRead <==> |s.popped| == |s.pushed|
  {
    QuiescentCountersAreExact(s);
  }

  lemma {:induction false} FirstAdvance<T(!new)>(s: State<T>, n: nat)
    requires Enabled(s, Advance(0))
    ensures Advances(s, n + 1) == Advances(ProducerStep(s, 0), n)
    ensures Advances(ProducerStep(s, 0), 0) == ProducerStep(s, 0)
  {
  }

  lemma {:induction false} FirstConsume<T(!new)>(s: State<T>, n: nat)
    requires WellFormed(s)
    ensures Consumes(s, n + 1) == Consumes(ConsumerStep(s), n) && Consumes(ConsumerStep(s), 0) == ConsumerStep(s)
  {
  }

  lemma {:induction false} QuietIsRaceFree<T(!new)>(s: State<T>)
    requires Counted(s) && s.producers == [Idle]
    ensures !Race(s) && forall t: nat :: !Pending(s, t)
  {
  }

  /** Starting a call on a queue at rest. */
  lemma {:induction false} CallOrdered<T(!new)>(s: State<T>, s': State<T>, v: T)
    requires Ordered(s) && s.producers == [Idle] && s.consumer.Waiting? && s' == s.(producers := [Trying(v, false)])
    ensures s' == Do(s, Call(0, v, false)) && Ordered(s')
    ensures s.size == |s.pushed| - |s.popped|
  {
    QuiescentCountersAreExact(s);
    QuietIsRaceFree(s);
    StepOrdered(s, Call(0, v, false));
  }

  /** The state after the ticket, the store and the publication of a push that has its reservation. */
  ghost function PushFinished<T(!new)>(s: State<T>, v: T): State<T>
    requires 0 < s.cap == |s.slots|
  {
    s.(write := Increment(s.write), pushed := s.pushed + [v], slots := s.slots[s.write % s.cap := Holds(v)],
       maxRead := Increment(s.maxRead), producers := [Idle])
  }

  lemma {:induction false} PushRuns<T(!new)>(s: State<T>, v: T)
    requires Ordered(s) && s.producers == [Reserved(v)] && |s.pushed| < MAX_PUSHES
    ensures 0 < s.cap == |s.slots| && Advances(s, 3) == PushFinished(s, v) && Ordered(PushFinished(s, v))
  {
    hide Faithful, Behind, Balanced, Tickets, Advances;
    var s2 := ProducerStep(s, 0);
    ProducerStepOrdered(s, 0);
    assert s2.producers == [Ticketed(v, s.write)] && s2.producers[0].Ticketed?;
    var s3 := ProducerStep(s2, 0);
    ProducerStepOrdered(s2, 0);
    assert s3.producers == [Stored(s.write)];
    ProducerStepOrdered(s3, 0);
    assert ProducerStep(s3, 0) == PushFinished(s, v);
    ThreeAdvances(s, s2, s3);
  }

  lemma {:induction false} ThreeAdvances<T(!new)>(s1: State<T>, s2: State<T>, s3: State<T>)
    requires Enabled(s1, Advance(0)) && s2 == ProducerStep(s1, 0)
    requires Enabled(s2, Advance(0)) && s3 == ProducerStep(s2, 0)
    requires Enabled(s3, Advance(0))
    ensures Advances(s1, 3) == ProducerStep(s3, 0)
  {
    assert Advances(s3, 1) == Advances(ProducerStep(s3, 0), 0);
    assert Advances(s2, 2) == Advances(s3, 1);
  }

  lemma {:induction false} QuietConsumerStep<T(!new)>(s: State<T>)
    requires Ordered(s) && s.producers == [Idle]
    ensures Ordered(ConsumerStep(s)) && ConsumerStep(s).producers == [Idle]
  {
    QuietIsRaceFree(s);
    ConsumerStepOrdered(s);
  }

  lemma {:induction false} FrontIsStored<T(!new)>(s: State<T>)
    requires Ordered(s) && s.producers == [Idle] && s.consumer.Taking?
    ensures |s.popped| < |s.pushed| && s.slots[s.consumer.slot] == Holds(s.pushed[|s.popped|])
  {
    QuietIsRaceFree(s);
    assert !Pending(s, |s.popped|);
  }

  lemma {:induction false} ThreeConsumes<T(!new)>(s1: State<T>, s2: State<T>, s3: State<T>)
    requires WellFormed(s1) && s2 == ConsumerStep(s1)
    requires WellFormed(s2) && s3 == ConsumerStep(s2)
    requires WellFormed(s3)
    ensures Consumes(s1, 3) == ConsumerStep(s3)
  {
    assert Consumes(s3, 1) == Consumes(ConsumerStep(s3), 0);
    assert Consumes(s2, 2) == Consumes(s3, 1);
  }
}
