/**
 The bounded deque over a circular array, for an element type whose destructor is not trivial. The
 array has one slot more than the capacity; a flag per slot records whether it holds an object.
 */
module RingBuffers {
  import opened Deque
  import opened Options
  import opened RingBufferLayout

  /** An iterator: the array index it points at, and its position in the sequence. */
  datatype Iterator = Iterator(ptr: nat, index: nat)

  class RingBuffer<T> {
    var buffer: array<Cell<T>>
    var constructed: array<bool>
    var start: nat
    var write: nat
    var capacity: nat
    ghost var contents: seq<T>
    // History: how many destructor calls were made on elements.
    var destructions: nat

    ghost predicate Consistent()
      reads this, buffer, constructed
    {
      && start < capacity && write < capacity
      && buffer.Length == capacity == constructed.Length
      && Synced(buffer[..], constructed[..])
    }

    ghost predicate Valid()
      reads this, buffer, constructed
    {
      Consistent() && Represents(buffer[..], start, write, contents)
    }

    // -------------------------------------------------------------------------------------------
    // Object lifetime: the preconditions say what the language demands

    method Construct(index: nat, v: T)
      requires index < buffer.Length && buffer[index].Raw?
      modifies buffer
      ensures buffer[..] == old(buffer[..])[index := Live(v)]
    {
      buffer[index] := Live(v);
    }

    method Destroy(index: nat)
      requires index < buffer.Length && !buffer[index].Raw?
      modifies this`destructions, buffer
      ensures buffer[..] == old(buffer[..])[index := Raw]
      ensures destructions == old(destructions) + 1
    {
      buffer[index] := Raw;
      destructions := destructions + 1;
    }

    method Assign(index: nat, v: T)
      requires index < buffer.Length && !buffer[index].Raw?
      modifies buffer
      ensures buffer[..] == old(buffer[..])[index := Live(v)]
    {
      buffer[index] := Live(v);
    }

    method MoveOut(index: nat) returns (v: T)
      requires index < buffer.Length && buffer[index].Live?
      modifies buffer
      ensures v == old(buffer[index].value)
      ensures buffer[..] == old(buffer[..])[index := Moved]
    {
      v := buffer[index].value;
      buffer[index] := Moved;
    }

    // -------------------------------------------------------------------------------------------
    // Indices

    method AdjustedInternalIndex(index: nat) returns (r: nat)
      requires start < capacity && index <= capacity
      ensures r == Rotate(start, index, capacity)
    {
      RotateIsModulo(start, index, capacity);
      r := (start + index) % capacity;
    }

    /** The slots from `start` to `write`: the length of the sequence, if the array represents one. */
    method Size() returns (n: nat)
      requires start < capacity && write < capacity
      ensures n < capacity && Rotate(start, n, capacity) == write
      ensures Valid() ==> n == |contents|
    {
      n := if write >= start then write - start else capacity - (start - write);
    }

    /** Advances `write`, and `start` with it when they would meet. */
    method IncrementIndices()
      requires start < capacity == buffer.Length && write < capacity
      modifies this`start, this`write
      ensures write == Rotate(old(write), 1, capacity)
      ensures start == if write == old(start) then Rotate(old(start), 1, capacity) else old(start)
    {
      RotateIsModulo(write, 1, capacity);
      write := (write + 1) % capacity;
      if write == start {
        RotateIsModulo(start, 1, capacity);
        start := (start + 1) % capacity;
      }
    }

    method IncrementStart()
      requires start < capacity
      modifies this`start
      ensures start == if old(start) != write then Rotate(old(start), 1, capacity) else old(start)
    {
      if start != write {
        RotateIsModulo(start, 1, capacity);
        start := (start + 1) % capacity;
      }
    }

    method DecrementWrite()
      requires write < capacity
      modifies this`write
      ensures write == if old(write) == 0 then capacity - 1 else old(write) - 1
    {
      if write == 0 {
        write := capacity - 1;
      } else {
        write := write - 1;
      }
    }

    // -------------------------------------------------------------------------------------------
    // The two ends

    constructor (initialCapacity: nat)
      ensures Valid() && contents == [] && capacity == initialCapacity + 1
      ensures fresh(buffer) && fresh(constructed) && destructions == 0
    {
      buffer := new Cell<T>[initialCapacity + 1](_ => Raw);
      constructed := new bool[initialCapacity + 1](_ => false);
      start, write, capacity, destructions := 0, 0, initialCapacity + 1, 0;
      contents := [];
    }

    /** Constructs a full buffer from the values given. */
    constructor FromValues(values: seq<T>)
      ensures Valid() && contents == values && capacity == |values| + 1
      ensures fresh(buffer) && fresh(constructed) && destructions == 0
    {
      var cells := new Cell<T>[|values| + 1](_ => Raw);
      var flags := new bool[|values| + 1](_ => false);
      for index := 0 to |values|
        invariant forall k :: 0 <= k < index ==> cells[k] == Live(values[k]) && flags[k]
        invariant forall k :: index <= k <= |values| ==> cells[k] == Raw && !flags[k]
      {
        cells[index] := Live(values[index]);
        flags[index] := true;
      }
      buffer, constructed := cells, flags;
      start, write, capacity, destructions := 0, |values|, |values| + 1, 0;
      contents := values;
    }

    /** Constructs `v` in a slot, ending the lifetime of an object still there. */
    method Replace(index: nat, v: T)
      requires Consistent() && index < capacity
      modifies this`destructions, buffer, constructed
      ensures Consistent() && buffer[..] == old(buffer[..])[index := Live(v)]
      ensures destructions == old(destructions) + if old(buffer[index]).Live? then 1 else 0
    {
      if constructed[index] {
        Destroy(index);
      }
      Construct(index, v);
      constructed[index] := true;
    }

    /** `push_back` and `emplace_back`: overwrites the front when the buffer is full. */
    method EmplaceBack(v: T) returns (index: nat)
      requires Valid()
      modifies this`destructions, this`start, this`write, this`contents, buffer, constructed
      ensures Valid() && contents == Pushed(old(contents), v, capacity - 1)
      ensures index == old(write) && buffer[..] == old(buffer[..])[index := Live(v)]
      ensures write == Rotate(old(write), 1, capacity)
      ensures start == if |old(contents)| == capacity - 1 then Rotate(old(start), 1, capacity) else old(start)
      ensures old(contents) != [] && |old(contents)| == capacity - 1 ==> buffer[write] == Live(old(contents)[0])
      ensures destructions == old(destructions) + if old(buffer[write]).Live? then 1 else 0
    {
      PushRepresents(buffer[..], start, write, contents, v);
      if contents != [] && |contents| == capacity - 1 {
        OverflowLeavesFront(buffer[..], start, write, contents, v);
      }
      Replace(write, v);
      index := write;
      IncrementIndices();
      contents := Pushed(contents, v, capacity - 1);
    }

    method PopBack() returns (r: Option<T>)
      requires Valid()
      modifies this`destructions, this`write, this`contents, buffer, constructed
      ensures Valid()
      ensures old(contents) == [] ==> r == None && contents == []
      ensures old(contents) != [] ==>
                && r == Some(old(contents)[|old(contents)| - 1])
                && contents == old(contents)[..|old(contents)| - 1]
                && buffer[..] == old(buffer[..])[write := Raw]
      ensures destructions == old(destructions) + if old(contents) == [] then 0 else 1
    {
      hide Represents, Synced;
      var size := Size();
      if size == 0 {
        return None;
      }
      PopBackRepresents(buffer[..], start, write, contents);
      EndIsAtWrite(buffer[..], start, write, contents, size - 1);
      var index := AdjustedInternalIndex(size - 1);
      var value := MoveLastOut(index);
      contents := contents[..|contents| - 1];
      return Some(value);
    }

    /** Moves the last element out, puts `write` on its slot, and ends its lifetime there. */
    method MoveLastOut(index: nat) returns (value: T)
      requires Consistent() && index == (if write == 0 then capacity - 1 else write - 1) && buffer[index].Live?
      modifies this`destructions, this`write, buffer, constructed
      ensures Consistent() && write == index && value == old(buffer[index].value)
      ensures buffer[..] == old(buffer[..])[index := Raw]
      ensures destructions == old(destructions) + 1
    {
      value := MoveOut(index);
      DecrementWrite();
      Destroy(write);
      constructed[write] := false;
    }

    /** Moves the value out of a live slot and ends the object's lifetime. */
    method Extract(index: nat) returns (v: T)
      requires Consistent() && index < capacity && buffer[index].Live?
      modifies this`destructions, buffer, constructed
      ensures Consistent() && v == old(buffer[index].value)
      ensures buffer[..] == old(buffer[..])[index := Raw]
      ensures destructions == old(destructions) + 1
    {
      v := MoveOut(index);
      Destroy(index);
      constructed[index] := false;
    }

    method PopFront() returns (r: Option<T>)
      requires Valid()
      modifies this`destructions, this`start, this`contents, buffer, constructed
      ensures Valid()
      ensures old(contents) == [] ==> r == None && contents == []
      ensures old(contents) != [] ==>
                && r == Some(old(contents)[0]) && contents == old(contents)[1..]
                && buffer[..] == old(buffer[..])[old(start) := Raw] && start == Rotate(old(start), 1, capacity)
      ensures destructions == old(destructions) + if old(contents) == [] then 0 else 1
    {
      var size := Size();
      if size == 0 {
        return None;
      }
      PopFrontRepresents(buffer[..], start, write, contents);
      var value := Extract(start);
      IncrementStart();
      contents := contents[1..];
      return Some(value);
    }

    // -------------------------------------------------------------------------------------------
    // The middle

    /** One iteration of the shifting loops, between two logical positions. */
    method MoveCell(dest: nat, source: nat)
      requires Consistent() && dest < capacity && source < capacity && dest != source
      modifies this`destructions, buffer, constructed
      ensures Consistent()
      ensures var u := old(Unrolled(buffer[..], start));
              if u[source].Live? then Unrolled(buffer[..], start) == u[dest := u[source]][source := Raw]
              else buffer[..] == old(buffer[..])
      ensures destructions == old(destructions) + if old(Unrolled(buffer[..], start))[source].Live? then 1 else 0
    {
      var d := AdjustedInternalIndex(dest);
      var s := AdjustedInternalIndex(source);
      MovedUnrolled(buffer[..], start, dest, source);
      MoveSlot(d, s);
    }

    method MoveSlot(d: nat, s: nat)
      requires Consistent() && d < capacity && s < capacity && d != s
      modifies this`destructions, buffer, constructed
      ensures Consistent()
      ensures buffer[..] == if old(constructed[s]) then old(buffer[..][d := buffer[s]][s := Raw]) else old(buffer[..])
      ensures destructions == old(destructions) + if old(constructed[s]) then 1 else 0
    {
      if !constructed[d] {
        if constructed[s] {
          MoveByConstruction(d, s);
        }
      } else {
        if constructed[s] {
          MoveByAssignment(d, s);
        }
      }
    }

    method MoveByConstruction(d: nat, s: nat)
      requires Consistent() && d < capacity && s < capacity && !constructed[d] && constructed[s]
      modifies this`destructions, buffer, constructed
      ensures Consistent() && buffer[..] == old(buffer[..][d := buffer[s]][s := Raw])
      ensures destructions == old(destructions) + 1
    {
      var v := MoveOut(s);
      Construct(d, v);
      constructed[d] := true;
      Destroy(s);
      constructed[s] := false;
    }

    method MoveByAssignment(d: nat, s: nat)
      requires Consistent() && d < capacity && s < capacity && d != s && constructed[d] && constructed[s]
      modifies this`destructions, buffer, constructed
      ensures Consistent() && buffer[..] == old(buffer[..][d := buffer[s]][s := Raw])
      ensures destructions == old(destructions) + 1
    {
      var v := MoveOut(s);
      Assign(d, v);
      Destroy(s);
      constructed[s] := false;
    }

    /** The backward loop of the insertions: `count` cells ending at `size - gap` go to `gap`
        positions later, the last one to position `size`. */
    method ShiftBack(size: nat, external: nat, count: nat, ghost gap: nat)
      requires Consistent() && size < capacity && gap > 0 && external + count + gap == size + 1
      requires Occupied(Unrolled(buffer[..], start), 0, size)
      modifies this`destructions, buffer, constructed
      ensures Consistent()
      ensures Shifted(old(Unrolled(buffer[..], start)), Unrolled(buffer[..], start), size, gap, count)
      ensures destructions == old(destructions) + count
    {
      hide Shifted, Synced, Occupied;
      var sourceIndex: int := count - 1;
      ghost var u := Unrolled(buffer[..], start);
      ShiftedStart(u, size, gap);
      for i := 0 to count
        invariant Consistent() && sourceIndex == count - 1 - i && destructions == old(destructions) + i
        invariant Shifted(u, Unrolled(buffer[..], start), size, gap, i)
      {
        OccupiedAt(u, 0, size, external + sourceIndex);
        ShiftBackOnce(u, size, gap, i, external + sourceIndex);
        sourceIndex := sourceIndex - 1;
      }
    }

    method ShiftBackOnce(ghost u: seq<Cell<T>>, size: nat, ghost gap: nat, i: nat, source: nat)
      requires Consistent() && Shifted(u, Unrolled(buffer[..], start), size, gap, i)
      requires gap > 0 && source + gap + i == size < capacity == |u| && u[source].Live?
      modifies this`destructions, buffer, constructed
      ensures Consistent() && Shifted(u, Unrolled(buffer[..], start), size, gap, i + 1)
      ensures destructions == old(destructions) + 1
    {
      hide Shifted, Synced;
      ShiftedStep(u, Unrolled(buffer[..], start), size, gap, i);
      MoveCell(size - i, source);
    }

    /** What `insert_internal` and `insert_emplace_internal` do before storing the element: makes
        room at logical position `external`, or, in a full buffer, one later. */
    method OpenGap(external: nat) returns (index: nat)
      requires Valid() && external < |contents|
      modifies this`destructions, buffer, constructed
      ensures Consistent() && Gapped(old(buffer[..]), buffer[..], start, |contents|, external, index)
      ensures destructions == old(destructions) + |contents| - external - if |contents| == capacity - 1 then 1 else 0
    {
      index := AdjustedInternalIndex(external);
      var size := Size();
      var numToMove := size - external;
      if size == capacity - 1 {
        numToMove := numToMove - 1;
        index := index + 1;
        ShiftBack(size, external, numToMove, 2);
      } else {
        ShiftBack(size, external, numToMove, 1);
      }
    }

    /** `insert_internal`. In a full buffer, the documented result (drop the last element) comes
        out only under the stated condition; elsewhere a position is left without an object. The
        result is false where the code, having shifted the elements, goes on to a slot past the array. */
    method Insert(external: nat, v: T) returns (inBounds: bool)
      requires Valid() && external <= |contents|
      modifies this`destructions, this`start, this`write, this`contents, buffer, constructed
      ensures Consistent() && capacity == old(capacity)
      ensures inBounds <==> old(InsertionInBounds(external))
      ensures !inBounds ==> Gapped(old(buffer[..]), buffer[..], old(start), |old(contents)|, external, capacity)
      ensures external == |old(contents)| ==> Valid() && contents == Pushed(old(contents), v, capacity - 1)
      ensures |old(contents)| < capacity - 1 ==>
                && Valid() && contents == Inserted(old(contents), external, v) && start == old(start)
                && SameBeyond(old(buffer[..]), buffer[..], start, |contents|)
      ensures inBounds && |old(contents)| == capacity - 1 && external < |old(contents)| ==>
                && FullInsertion(old(contents), external, v, buffer[..], start, write)
                && start == Rotate(old(start), 1, capacity)
      ensures external == |old(contents)| ==>
                destructions == old(destructions) + if old(buffer[write]).Live? then 1 else 0
      ensures external < |old(contents)| ==>
                destructions == old(destructions) + |old(contents)| - external
                                - if |old(contents)| == capacity - 1 then 1 else 0
    {
      hide Represents, Synced, Gapped, FullInsertion, InsertedBeforeAdvance, Inserted, Pushed, SameBeyond,
           GapHoldsObject;
      inBounds := true;
      EndIsAtWrite(buffer[..], start, write, contents, external);
      var index := AdjustedInternalIndex(external);
      if index == write {
        if |contents| < capacity - 1 {
          InsertedAtEnd(contents, v, capacity - 1);
          SameBeyondEnd(buffer[..], start, write, contents, v);
        }
        index := EmplaceBack(v);
      } else {
        ghost var before := buffer[..];
        index := OpenGap(external);
        GappedIndex(before, buffer[..], start, |contents|, external, index);
        if index == capacity {
          return false;
        }
        ghost var gapped := buffer[..];
        Put(index, v);
        InsertionEnds(before, gapped, start, write, contents, external, v, index);
        SameBeyondGap(before, gapped, start, contents, external, v, index);
        FinishInsertion(external, v);
      }
    }

    method Put(index: nat, v: T)
      requires Consistent() && index < capacity
      modifies buffer, constructed
      ensures Consistent() && buffer[..] == old(buffer[..])[index := Live(v)]
    {
      if constructed[index] {
        Assign(index, v);
      } else {
        Construct(index, v);
        constructed[index] := true;
      }
    }

    method PutInPlace(index: nat, v: T)
      requires Consistent() && index < capacity
      modifies this`destructions, buffer, constructed
      ensures Consistent() && buffer[..] == old(buffer[..])[index := Live(v)]
      ensures destructions == old(destructions) + if old(buffer[index]).Live? then 1 else 0
    {
      if constructed[index] {
        Destroy(index);
      } else {
        constructed[index] := true;
      }
      Construct(index, v);
    }

    /** `insert_emplace_internal`: like `Insert`, constructing in place; returns where. The index is
        the capacity where the code goes on to a slot past the array. */
    method InsertEmplace(external: nat, v: T) returns (index: nat)
      requires Valid() && external <= |contents|
      modifies this`destructions, this`start, this`write, this`contents, buffer, constructed
      ensures Consistent() && capacity == old(capacity)
      ensures index <= capacity && (index < capacity <==> old(InsertionInBounds(external)))
      ensures index == capacity ==> Gapped(old(buffer[..]), buffer[..], old(start), |old(contents)|, external, capacity)
      ensures index < capacity ==> buffer[index] == Live(v)
      ensures external == |old(contents)| ==> Valid() && contents == Pushed(old(contents), v, capacity - 1)
      ensures |old(contents)| < capacity - 1 ==>
                && Valid() && contents == Inserted(old(contents), external, v) && start == old(start)
                && SameBeyond(old(buffer[..]), buffer[..], start, |contents|)
      ensures index < capacity && |old(contents)| == capacity - 1 && external < |old(contents)| ==>
                && FullInsertion(old(contents), external, v, buffer[..], start, write)
                && start == Rotate(old(start), 1, capacity)
      ensures external == |old(contents)| ==>
                destructions == old(destructions) + if old(buffer[write]).Live? then 1 else 0
      ensures index < capacity && external < |old(contents)| ==>
                destructions == old(destructions) + |old(contents)| - external
                                - (if |old(contents)| == capacity - 1 then 1 else 0)
                                + (if GapHoldsObject(|old(contents)|, capacity, external, old(buffer[write])) then 1
                                   else 0)
    {
      hide Represents, Synced, Gapped, FullInsertion, InsertedBeforeAdvance, Inserted, Pushed, SameBeyond,
           GapHoldsObject;
      EndIsAtWrite(buffer[..], start, write, contents, external);
      index := AdjustedInternalIndex(external);
      if index == write {
        if |contents| < capacity - 1 {
          InsertedAtEnd(contents, v, capacity - 1);
          SameBeyondEnd(buffer[..], start, write, contents, v);
        }
        index := EmplaceBack(v);
        return;
      }
      ghost var before := buffer[..];
      index := OpenGap(external);
      GappedIndex(before, buffer[..], start, |contents|, external, index);
      if index == capacity {
        return;
      }
      ghost var gapped := buffer[..];
      GapCell(before, gapped, start, write, contents, external, index);
      PutInPlace(index, v);
      InsertionEnds(before, gapped, start, write, contents, external, v, index);
      SameBeyondGap(before, gapped, start, contents, external, v, index);
      FinishInsertion(external, v);
    }

    /** In a full buffer the array index is incremented without wrapping. */
    ghost predicate InsertionInBounds(external: nat)
      requires start < capacity && external <= capacity
      reads this
    {
      |contents| == capacity - 1 && external < |contents| ==> Rotate(start, external, capacity) + 1 < capacity
    }

    /** The element is in place; moves the indices. */
    method FinishInsertion(ghost external: nat, ghost v: T)
      requires Consistent() && external < |contents|
      requires InsertedBeforeAdvance(buffer[..], start, write, contents, external, v)
      modifies this`start, this`write, this`contents
      ensures Consistent()
      ensures |old(contents)| < capacity - 1 ==>
                Valid() && contents == Inserted(old(contents), external, v) && start == old(start)
      ensures |old(contents)| == capacity - 1 ==>
                && FullInsertion(old(contents), external, v, buffer[..], start, write)
                && start == Rotate(old(start), 1, capacity)
    {
      hide FullInsertion, Represents, Inserted, Synced;
      IncrementIndices();
      contents := if |contents| < capacity - 1 then Inserted(contents, external, v) else contents;
    }

    /** The forward loop of the erasures: `count` cells beginning at `last` go to `first`. */
    method ShiftForward(first: nat, last: nat, count: nat)
      requires Consistent() && first < last && last + count < capacity
      requires Occupied(Unrolled(buffer[..], start), last, last + count)
      modifies this`destructions, buffer, constructed
      ensures Consistent()
      ensures Closed(old(Unrolled(buffer[..], start)), Unrolled(buffer[..], start), first, last, count)
      ensures destructions == old(destructions) + count
    {
      hide Closed, Synced, Occupied;
      ghost var u := Unrolled(buffer[..], start);
      ClosedStart(u, first, last);
      for i := 0 to count
        invariant Consistent() && destructions == old(destructions) + i
        invariant Closed(u, Unrolled(buffer[..], start), first, last, i)
      {
        OccupiedAt(u, last, last + count, last + i);
        ShiftForwardOnce(u, first, last, i);
      }
    }

    method ShiftForwardOnce(ghost u: seq<Cell<T>>, first: nat, last: nat, i: nat)
      requires Consistent() && Closed(u, Unrolled(buffer[..], start), first, last, i)
      requires first < last && last + i < capacity == |u| && u[last + i].Live?
      modifies this`destructions, buffer, constructed
      ensures Consistent() && Closed(u, Unrolled(buffer[..], start), first, last, i + 1)
      ensures destructions == old(destructions) + 1
    {
      hide Closed, Synced;
      ClosedStep(u, Unrolled(buffer[..], start), first, last, i);
      MoveCell(first + i, last + i);
    }

    method Begin() returns (it: Iterator)
      ensures it == Iterator(start, 0)
    {
      it := Iterator(start, 0);
    }

    method End() returns (it: Iterator)
      requires Valid()
      ensures it == Iterator(write, |contents|)
    {
      var size := Size();
      it := Iterator(write, size);
    }

    /** `begin() + external` for a position inside the capacity. */
    method BeginPlus(external: nat) returns (it: Iterator)
      requires start < capacity && external < capacity
      ensures it == Iterator(Rotate(start, external, capacity), external)
    {
      var ptr := AdjustedInternalIndex(external);
      it := Iterator(ptr, external);
    }

    /** Single-element `erase_internal`; erasing the end does nothing. */
    method Erase(external: nat) returns (it: Iterator)
      requires Valid() && external <= |contents|
      modifies this`destructions, this`write, this`contents, buffer, constructed
      ensures Valid()
      ensures contents == if external < |old(contents)| then Removed(old(contents), external, external + 1)
                          else old(contents)
      ensures it == Iterator(Rotate(start, external, capacity), external)
      ensures external < |old(contents)| ==>
                && Closed(old(Unrolled(buffer[..], start)), Unrolled(buffer[..], start), external, external + 1,
                          |old(contents)| - 1 - external)
                && buffer[write] == if external + 1 == |old(contents)| then Live(old(contents)[external]) else Raw
      ensures destructions == old(destructions)
                              + if external < |old(contents)| then |old(contents)| - 1 - external else 0
    {
      hide Closed, Synced, Removed;
      EndIsAtWrite(buffer[..], start, write, contents, external);
      var index := AdjustedInternalIndex(external);
      if index == write {
        it := End();
        return;
      }
      EraseInside(external);
      it := BeginPlus(external);
    }

    method EraseInside(external: nat)
      requires Valid() && external < |contents|
      modifies this`destructions, this`write, this`contents, buffer, constructed
      ensures Valid() && contents == Removed(old(contents), external, external + 1)
      ensures Closed(old(Unrolled(buffer[..], start)), Unrolled(buffer[..], start), external, external + 1,
                     |old(contents)| - 1 - external)
      ensures buffer[write] == if external + 1 == |old(contents)| then Live(old(contents)[external]) else Raw
      ensures destructions == old(destructions) + |old(contents)| - 1 - external
    {
      hide Closed, Synced, Removed;
      var size := Size();
      ghost var before := buffer[..];
      ShiftForward(external, external + 1, size - 1 - external);
      ErasureEnds(before, buffer[..], start, write, contents, external);
      FinishErase(Removed(contents, external, external + 1));
    }

    /** Moves the end index after one element has been closed up. */
    method FinishErase(ghost s: seq<T>)
      requires Consistent() && Represents(buffer[..], start, if write == 0 then capacity - 1 else write - 1, s)
      modifies this`write, this`contents
      ensures Valid() && contents == s && write == if old(write) == 0 then capacity - 1 else old(write) - 1
    {
      hide Represents, Synced;
      DecrementWrite();
      contents := s;
    }

    method DecrementWriteN(n: nat)
      requires write < capacity && n < capacity
      modifies this`write
      ensures write == WriteBack(old(write), capacity, n)
      ensures Rotate(write, n, capacity) == old(write) <==> n <= old(write)
    {
      var amountToDecrement := n;
      if amountToDecrement > write {
        amountToDecrement := amountToDecrement - write;
        write := capacity - 1 - amountToDecrement;
      } else {
        write := write - amountToDecrement;
      }
    }

    /** `write` after the branch taken when the array index of `last` is beyond it. */
    method TruncateWrapped(numToRemove: nat)
      requires start < capacity && write < capacity && numToRemove < capacity
      modifies this`write
      ensures write < capacity
      ensures old(write) < start ==> write == TruncatedWrite(old(write), capacity, numToRemove)
    {
      if write > start {
        DecrementWriteN(numToRemove);
      } else if write < start {
        var numAfterStartIndex := if write > numToRemove then write - numToRemove else 0;
        var numBeforeStartIndex := numToRemove - numAfterStartIndex;
        if numAfterStartIndex > 0 {
          numAfterStartIndex := numAfterStartIndex - 1;
          write := capacity - 1 - numAfterStartIndex;
        } else {
          DecrementWriteN(numBeforeStartIndex);
        }
      }
    }

    /** Moves the end index after the elements of a range have been closed up. */
    method FinishRange(ghost s: seq<T>, first: nat, last: nat)
      requires Consistent() && first < last < capacity
      requires RemovedBeforeDecrement(buffer[..], start, write, s, last - first)
      modifies this`write, this`contents
      ensures Consistent() && write == WriteBack(old(write), capacity, last - first)
      ensures last - first <= old(write) ==> Valid() && contents == s
      ensures Represents(buffer[..], start, write, s) <==> last - first <= old(write)
    {
      hide Represents, Synced;
      ghost var exact := last - first <= write;
      DecrementWriteN(last - first);
      contents := if exact then s else contents;
    }

    /** The part of the range erasure that moves elements. */
    method CloseRange(first: nat, last: nat)
      requires Valid() && first < last <= |contents| && Rotate(start, last, capacity) <= write
      modifies this`destructions, this`write, this`contents, buffer, constructed
      ensures Consistent() && write == WriteBack(old(write), capacity, last - first)
      ensures Closed(old(Unrolled(buffer[..], start)), Unrolled(buffer[..], start), first, last, |old(contents)| - last)
      ensures last - first <= old(write) ==> Valid() && contents == Removed(old(contents), first, last)
      ensures Represents(buffer[..], start, write, Removed(old(contents), first, last)) <==> last - first <= old(write)
      ensures destructions == old(destructions) + |old(contents)| - last
    {
      hide Closed, Synced, Removed;
      var size := Size();
      ghost var before := buffer[..];
      ShiftForward(first, last, size - last);
      RangeErasureEnds(before, buffer[..], start, write, contents, first, last);
      FinishRange(Removed(contents, first, last), first, last);
    }

    /** `erase_internal` of a range. `RangeErasureHolds` says exactly when it does what it promises;
        `RangeErasureIsExact` when it does so by moving the elements. */
    method EraseRange(first: nat, last: nat) returns (it: Iterator)
      requires Valid() && first < last <= |contents|
      modifies this`destructions, this`write, this`contents, buffer, constructed
      ensures Consistent()
      ensures Represents(buffer[..], start, write, Removed(old(contents), first, last))
         <==> RangeErasureHolds(old(contents), start, old(write), capacity, first, last)
      ensures RangeErasureHolds(old(contents), start, old(write), capacity, first, last) ==>
                Valid() && contents == Removed(old(contents), first, last)
      ensures Rotate(start, last, capacity) <= old(write) ==>
                && Closed(old(Unrolled(buffer[..], start)), Unrolled(buffer[..], start), first, last,
                          |old(contents)| - last)
                && write == WriteBack(old(write), capacity, last - first)
                && it == Iterator(Rotate(start, first, capacity), first)
      ensures Rotate(start, last, capacity) > old(write) ==>
                && buffer[..] == old(buffer[..]) && write == TruncatedWrite(old(write), capacity, last - first)
                && it.ptr == write && it.index < capacity && Rotate(start, it.index, capacity) == write
      ensures destructions == old(destructions)
                              + if Rotate(start, last, capacity) <= old(write) then |old(contents)| - last else 0
    {
      hide Represents, Synced, Removed;
      EndIsAtWrite(buffer[..], start, write, contents, last);
      var lastInternal := AdjustedInternalIndex(last);
      var numToRemove := last - first;
      if lastInternal > write {
        TruncationHolds(buffer[..], start, write, contents, first, last);
        ghost var holds := RangeErasureHolds(contents, start, write, capacity, first, last);
        TruncateWrapped(numToRemove);
        contents := if holds then Removed(contents, first, last) else contents;
        var size := Size();
        it := Iterator(write, size);
        return;
      }
      CloseRange(first, last);
      it := BeginPlus(first);
    }

    // -------------------------------------------------------------------------------------------
    // Iteration, growth, destruction

    /** `operator++`: from a position inside the sequence to the next, which is `end()` exactly at the
        size; from the last position of the capacity or beyond, to the slot `write`, and no further. */
    method Step(it: Iterator) returns (r: Iterator)
      requires Valid()
      ensures it.index < |contents| ==> r == Iterator(Rotate(start, it.index + 1, capacity), it.index + 1)
      ensures it.index < |contents| ==> (r == Iterator(write, |contents|) <==> it.index + 1 == |contents|)
      ensures it.index + 1 < capacity - 1 ==> r == Iterator(Rotate(start, it.index + 1, capacity), it.index + 1)
      ensures it.index + 1 >= capacity - 1 ==> r == Iterator(write, capacity - 1)
    {
      var index := it.index + 1;
      if index >= capacity - 1 {
        r := Iterator(write, capacity - 1);
      } else {
        var ptr := AdjustedInternalIndex(index);
        r := Iterator(ptr, index);
      }
    }

    /** Steps an iterator from `begin()` until it equals `end()`; iterators are compared by position. */
    method Collect() returns (values: seq<T>)
      requires Valid()
      ensures values == contents
    {
      values := [];
      var it := Begin();
      var end := End();
      while it.index != end.index
        invariant it.index <= |contents| && values == contents[..it.index]
        invariant it.ptr == Rotate(start, it.index, capacity)
        decreases |contents| - it.index
      {
        assert buffer[it.ptr] == Unrolled(buffer[..], start)[it.index];
        values := values + [buffer[it.ptr].value];
        it := Step(it);
      }
    }

    /** Moves the elements into fresh storage, from index 0 up. */
    method RelocateCells(temp: array<Cell<T>>)
      requires Valid() && temp != buffer && |contents| < temp.Length
      requires forall k :: 0 <= k < temp.Length ==> temp[k].Raw?
      modifies temp, buffer
      ensures forall k :: 0 <= k < temp.Length ==> temp[k] == if k < |contents| then Live(contents[k]) else Raw
      ensures forall p :: 0 <= p < capacity ==>
                Unrolled(buffer[..], start)[p] == if p < |contents| then Moved else old(Unrolled(buffer[..], start))[p]
    {
      var size := Size();
      ghost var u := Unrolled(buffer[..], start);
      for index := 0 to size
        invariant forall k :: 0 <= k < temp.Length ==> temp[k] == if k < index then Live(contents[k]) else Raw
        invariant forall p :: 0 <= p < capacity ==> Unrolled(buffer[..], start)[p] == if p < index then Moved else u[p]
      {
        var internal := AdjustedInternalIndex(index);
        assert buffer[internal] == Unrolled(buffer[..], start)[index];
        UnrolledUpdate(buffer[..], start, index, Moved);
        var value := MoveOut(internal);
        temp[index] := Live(value);
      }
    }

    /** Copies the flags of the elements, from index 0 up. */
    method RelocateFlags(checker: array<bool>)
      requires Valid() && checker != constructed && |contents| <= checker.Length
      requires forall k :: 0 <= k < checker.Length ==> !checker[k]
      modifies checker
      ensures forall k :: 0 <= k < checker.Length ==> (checker[k] <==> k < |contents|)
    {
      var size := Size();
      ghost var u := Unrolled(buffer[..], start);
      for index := 0 to size
        invariant forall k :: 0 <= k < checker.Length ==> (checker[k] <==> k < index)
      {
        var internal := AdjustedInternalIndex(index);
        assert u[index].Live?;
        checker[index] := constructed[internal];
      }
    }

    /** `reserve`. The new flag array has one entry fewer than there are slots, and `write` is put
        after the old capacity whatever the size, so only a full buffer keeps its sequence. The old
        storage is given up with the moved-from elements in it, none of them destroyed. */
    method Reserve(newCapacity: nat)
      requires Valid()
      modifies this, buffer
      ensures contents == old(contents) && destructions == old(destructions)
      ensures newCapacity <= old(capacity) ==> Valid() && capacity == old(capacity)
      ensures newCapacity > old(capacity) ==>
                && capacity == buffer.Length == newCapacity + 1
                && (forall k :: 0 <= k < capacity ==> buffer[k] == if k < |contents| then Live(contents[k]) else Raw)
                && start == 0 && write == old(capacity) - 1
                && (Represents(buffer[..], start, write, contents) <==> |contents| == old(capacity) - 1)
                && constructed.Length == capacity - 1
                && (forall k :: 0 <= k < capacity - 1 ==> (constructed[k] <==> buffer[k].Live?))
                && old(start) < old(capacity) == old(buffer).Length
                && (forall p :: 0 <= p < old(capacity) ==>
                      Unrolled(old(buffer)[..], old(start))[p]
                      == if p < |contents| then Moved else old(Unrolled(buffer[..], start))[p])
    {
      hide Represents, Synced;
      EndIsAtWrite(buffer[..], start, write, contents, |contents|);
      if newCapacity > capacity {
        var temp := new Cell<T>[newCapacity + 1](_ => Raw);
        var checker := new bool[newCapacity](_ => false);
        RelocateFlags(checker);
        RelocateCells(temp);
        constructed := checker;
        buffer := temp;
        start := 0;
        write := capacity - 1;
        capacity := newCapacity + 1;
        RelocatedRepresents(buffer[..], write, contents);
      }
    }

    /** The destructor: ends the lifetime of the elements, and of nothing else. */
    method Finalize()
      requires Valid()
      modifies this`destructions, buffer
      ensures start < buffer.Length == capacity && |contents| < capacity
      ensures forall p :: 0 <= p < capacity ==>
                Unrolled(buffer[..], start)[p] == if p < |contents| then Raw else old(Unrolled(buffer[..], start))[p]
      ensures (exists p :: 0 <= p < capacity && !Unrolled(buffer[..], start)[p].Raw?)
         <==> (exists p :: |contents| <= p < capacity && old(Unrolled(buffer[..], start))[p].Live?)
      ensures destructions == old(destructions) + |contents|
    {
      var size := Size();
      ghost var u := Unrolled(buffer[..], start);
      for index := 0 to size
        invariant destructions == old(destructions) + index
        invariant forall p :: 0 <= p < capacity ==> Unrolled(buffer[..], start)[p] == if p < index then Raw else u[p]
      {
        var internal := AdjustedInternalIndex(index);
        assert buffer[internal] == Unrolled(buffer[..], start)[index] && u[index].Live?;
        UnrolledUpdate(buffer[..], start, index, Raw);
        if constructed[internal] {
          Destroy(internal);
        }
      }
    }

    // -------------------------------------------------------------------------------------------
    // Histories

    /** The number of elements there is room for. */
    ghost function Limit(): nat
      reads this
    {
      if capacity == 0 then 0 else capacity - 1
    }

    method PerformOne(op: Op<T>)
      requires Valid() && Allowed(contents, op, Limit())
      modifies this`destructions, this`start, this`write, this`contents, buffer, constructed
      ensures Valid() && contents == old(Apply(contents, op, Limit()))
    {
      match op {
        case Push(v) => var _ := EmplaceBack(v);
        case PopFront => var _ := PopFront();
        case PopBack => var _ := PopBack();
        case Insert(i, v) => var _ := Insert(i, v);
        case Erase(i) => var _ := Erase(i);
      }
    }

    /** Performs a history of calls. Every lifetime precondition on the way is met. */
    method Perform(ops: seq<Op<T>>)
      requires Valid() && AllowedAll(contents, ops, Limit())
      modifies this`destructions, this`start, this`write, this`contents, buffer, constructed
      ensures Valid() && contents == old(ApplyAll(contents, ops, Limit()))
      decreases |ops|
    {
      hide Valid, Apply;
      if ops != [] {
        PerformOne(ops[0]);
        Perform(ops[1..]);
      }
    }
  }

  /** For every full buffer, at every rotation: one push more, and the destructor leaves the old front
      alive. */
  method OverflowOutlivesDestruction<T>(r: RingBuffer<T>, v: T)
    requires r.Valid() && r.contents != [] && |r.contents| == r.capacity - 1
    modifies r`start, r`write, r`contents, r`destructions, r.buffer, r.constructed
    ensures r.start < r.buffer.Length
    ensures exists p :: 0 <= p < r.buffer.Length && Unrolled(r.buffer[..], r.start)[p] == Live(old(r.contents)[0])
  {
    ghost var front := r.contents[0];
    var _ := r.EmplaceBack(v);
    assert r.buffer[r.write] == Unrolled(r.buffer[..], r.start)[|r.contents|];
    r.Finalize();
    assert Unrolled(r.buffer[..], r.start)[|r.contents|] == Live(front);
  }

  /** `size()` after growth is the old `capacity()`, whatever the size was; the positions it counts beyond
      the sequence hold no object. */
  method SizeAfterGrowth<T>(r: RingBuffer<T>, newCapacity: nat) returns (n: nat)
    requires r.Valid() && newCapacity > r.capacity
    modifies r, r.buffer
    ensures n == old(r.capacity) - 1 && r.contents == old(r.contents) && n < r.buffer.Length
    ensures |r.contents| <= n && forall p :: |r.contents| <= p < n ==> r.buffer[p].Raw?
  {
    EndIsAtWrite(r.buffer[..], r.start, r.write, r.contents, |r.contents|);
    r.Reserve(newCapacity);
    n := r.Size();
  }
}
