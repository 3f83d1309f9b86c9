/**
 Sequences laid out in a circular array: which slot holds which position, and what the shifting
 loops of insertion and erasure do to the array, whatever its rotation.
 */
module RingBufferLayout {
  import opened Deque

  /** A slot of storage: no object, a live object, or a live object whose value was moved out. */
  datatype Cell<T> = Raw | Live(value: T) | Moved

  /** The array index of position `p` counted from `start`, in an array of `capacity` slots. */
  function Rotate(start: nat, p: nat, capacity: nat): (r: nat)
    requires start < capacity && p <= capacity
    ensures r < capacity
  {
    if start + p < capacity then start + p else start + p - capacity
  }

  lemma Multiples(capacity: nat, q: int)
    ensures q >= 2 ==> capacity * q >= 2 * capacity
    ensures q <= 0 ==> capacity * q <= 0
  {
  }

  lemma RotateIsModulo(start: nat, p: nat, capacity: nat)
    requires start < capacity && p <= capacity
    ensures (start + p) % capacity == Rotate(start, p, capacity)
  {
    var q, r := (start + p) / capacity, (start + p) % capacity;
    assert start + p == capacity * q + r && 0 <= r < capacity;
    Multiples(capacity, q);
    assert q == 0 || q == 1;
  }

  /** The slots in logical order, beginning at `start`. */
  ghost function Unrolled<T>(cells: seq<Cell<T>>, start: nat): (u: seq<Cell<T>>)
    requires start < |cells|
    ensures |u| == |cells|
    ensures forall p :: 0 <= p < |u| ==> u[p] == cells[Rotate(start, p, |cells|)]
  {
    seq(|cells|, p requires 0 <= p < |cells| => cells[Rotate(start, p, |cells|)])
  }

  /** A flag is set exactly on the slots that hold an object. */
  ghost predicate Synced<T>(cells: seq<Cell<T>>, flags: seq<bool>) {
    && |cells| == |flags|
    && (forall i :: 0 <= i < |cells| ==> !cells[i].Moved?)
    && (forall i :: 0 <= i < |cells| ==> (flags[i] <==> cells[i].Live?))
  }

  /** `cells` begins with live objects holding `s`. */
  ghost predicate Begins<T>(cells: seq<Cell<T>>, s: seq<T>) {
    |s| < |cells| && forall k :: 0 <= k < |s| ==> cells[k] == Live(s[k])
  }

  /** Positions `first` up to `last` hold live objects. */
  ghost predicate Occupied<T>(u: seq<Cell<T>>, first: nat, last: nat) {
    last <= |u| && forall p :: first <= p < last ==> u[p].Live?
  }

  lemma OccupiedAt<T>(u: seq<Cell<T>>, first: nat, last: nat, p: nat)
    requires Occupied(u, first, last) && first <= p < last
    ensures p < |u| && u[p].Live?
  {
  }

  /** Changing the slot of one logical position changes that position and no other. */
  lemma UnrolledUpdate<T>(cells: seq<Cell<T>>, start: nat, p: nat, c: Cell<T>)
    requires start < |cells| && p < |cells|
    ensures Unrolled(cells[Rotate(start, p, |cells|) := c], start) == Unrolled(cells, start)[p := c]
  {
  }

  lemma MovedUnrolled<T>(cells: seq<Cell<T>>, start: nat, dest: nat, source: nat)
    requires start < |cells| && dest < |cells| && source < |cells| && dest != source
    ensures var u, d, s := Unrolled(cells, start), Rotate(start, dest, |cells|), Rotate(start, source, |cells|);
            d != s && Unrolled(cells[d := cells[s]][s := Raw], start) == u[dest := u[source]][source := Raw]
  {
    var d, s := Rotate(start, dest, |cells|), Rotate(start, source, |cells|);
    UnrolledUpdate(cells, start, dest, cells[s]);
    UnrolledUpdate(cells[d := cells[s]], start, source, Raw);
  }

  lemma UnrolledAdvance<T>(cells: seq<Cell<T>>, start: nat)
    requires start < |cells|
    ensures forall p :: 0 <= p < |cells| - 1 ==>
              Unrolled(cells, Rotate(start, 1, |cells|))[p] == Unrolled(cells, start)[p + 1]
  {
  }

  /** The array, seen from `start`, holds `s` and `write` is the slot after it. */
  ghost predicate Represents<T>(cells: seq<Cell<T>>, start: nat, write: nat, s: seq<T>) {
    start < |cells| && Begins(Unrolled(cells, start), s) && write == Rotate(start, |s|, |cells|)
  }

  lemma PushRepresents<T>(cells: seq<Cell<T>>, start: nat, write: nat, s: seq<T>, v: T)
    requires Represents(cells, start, write, s)
    ensures var write' := Rotate(write, 1, |cells|);
            var start' := if write' == start then Rotate(start, 1, |cells|) else start;
            Represents(cells[write := Live(v)], start', write', Pushed(s, v, |cells| - 1))
  {
    var u, u' := Unrolled(cells, start), Unrolled(cells[write := Live(v)], start);
    UnrolledUpdate(cells, start, |s|, Live(v));
    assert forall k :: 0 <= k <= |s| ==> u'[k] == Live((s + [v])[k]);
    if |s| + 1 == |cells| {
      OverflowRepresents(cells[write := Live(v)], start, s + [v]);
    }
  }

  /** Once a push has filled every slot, the sequence begins one slot later. */
  lemma OverflowRepresents<T>(cells: seq<Cell<T>>, start: nat, s: seq<T>)
    requires start < |cells| == |s| && forall k :: 0 <= k < |s| ==> Unrolled(cells, start)[k] == Live(s[k])
    ensures Represents(cells, Rotate(start, 1, |cells|), start, s[1..])
  {
    UnrolledAdvance(cells, start);
    var u, u' := Unrolled(cells, start), Unrolled(cells, Rotate(start, 1, |cells|));
    assert forall k :: 0 <= k < |s| - 1 ==> u'[k] == u[k + 1] == Live(s[1..][k]);
  }

  /** A position of the sequence, or its end, is in the slot `write` exactly if it is the end. */
  lemma EndIsAtWrite<T>(cells: seq<Cell<T>>, start: nat, write: nat, s: seq<T>, p: nat)
    requires Represents(cells, start, write, s) && p <= |s|
    ensures start < |cells| && |s| < |cells| && (Rotate(start, p, |cells|) == write <==> p == |s|)
  {
  }

  /** Elements laid out from slot 0 are represented exactly if `write` is the slot after them. */
  lemma RelocatedRepresents<T>(cells: seq<Cell<T>>, write: nat, s: seq<T>)
    requires |s| < |cells| && forall k :: 0 <= k < |s| ==> cells[k] == Live(s[k])
    ensures Represents(cells, 0, write, s) <==> write == |s|
  {
    assert forall p :: 0 <= p < |cells| ==> Unrolled(cells, 0)[p] == cells[p];
  }

  lemma InsertedAtEnd<T>(s: seq<T>, v: T, limit: nat)
    requires |s| < limit
    ensures Inserted(s, |s|, v) == Pushed(s, v, limit) && |Pushed(s, v, limit)| == |s| + 1
  {
  }

  /** A push into a full buffer leaves the old front alive in the slot that becomes the spacer. */
  lemma OverflowLeavesFront<T>(cells: seq<Cell<T>>, start: nat, write: nat, s: seq<T>, v: T)
    requires Represents(cells, start, write, s) && |s| + 1 == |cells| && s != []
    ensures Rotate(write, 1, |cells|) == start && cells[write := Live(v)][start] == Live(s[0])
  {
    assert cells[start] == Unrolled(cells, start)[0];
  }

  lemma PopFrontRepresents<T>(cells: seq<Cell<T>>, start: nat, write: nat, s: seq<T>)
    requires Represents(cells, start, write, s) && s != []
    ensures cells[start] == Live(s[0]) && start != write
    ensures Represents(cells[start := Raw], Rotate(start, 1, |cells|), write, s[1..])
  {
    assert cells[start] == Unrolled(cells, start)[0];
    UnrolledUpdate(cells, start, 0, Raw);
    UnrolledAdvance(cells[start := Raw], start);
  }

  lemma PopBackRepresents<T>(cells: seq<Cell<T>>, start: nat, write: nat, s: seq<T>)
    requires Represents(cells, start, write, s) && s != []
    ensures var last := Rotate(start, |s| - 1, |cells|);
            && last == (if write == 0 then |cells| - 1 else write - 1)
            && cells[last] == Live(s[|s| - 1])
            && Represents(cells[last := Raw], start, last, s[..|s| - 1])
  {
    assert cells[Rotate(start, |s| - 1, |cells|)] == Unrolled(cells, start)[|s| - 1];
    UnrolledUpdate(cells, start, |s| - 1, Raw);
  }

  /** Position `p` of `u` after `count` steps of the backward loop. */
  ghost function ShiftedCell<T>(u: seq<Cell<T>>, size: nat, gap: nat, count: nat, p: nat): Cell<T>
    requires p < |u| && count + gap <= size + 1
  {
    if size - count < p <= size then u[p - gap]
    else if size - gap - count < p <= size - gap then Raw
    else u[p]
  }

  /** `v` is `u` after `count` steps of the backward loop. */
  ghost predicate Shifted<T>(u: seq<Cell<T>>, v: seq<Cell<T>>, size: nat, gap: nat, count: nat) {
    && |v| == |u| && count + gap <= size + 1 && size < |u|
    && forall p :: 0 <= p < |v| ==> v[p] == ShiftedCell(u, size, gap, count, p)
  }

  lemma ShiftedStart<T>(u: seq<Cell<T>>, size: nat, gap: nat)
    requires gap <= size + 1 && size < |u|
    ensures Shifted(u, u, size, gap, 0)
  {
  }

  lemma ShiftedStep<T>(u: seq<Cell<T>>, v: seq<Cell<T>>, size: nat, gap: nat, count: nat)
    requires Shifted(u, v, size, gap, count) && gap > 0 && count + gap <= size
    ensures v[size - gap - count] == u[size - gap - count]
    ensures Shifted(u, v[size - count := v[size - gap - count]][size - gap - count := Raw], size, gap, count + 1)
  {
  }

  /** The array before and after the backward loop, and the array index for the new element. */
  ghost predicate Gapped<T>(before: seq<Cell<T>>, gapped: seq<Cell<T>>, start: nat, size: nat, external: nat,
                            index: nat)
  {
    && |before| == |gapped| && start < |gapped| && external < size < |gapped|
    && (size == |gapped| - 1 ==>
          && Shifted(Unrolled(before, start), Unrolled(gapped, start), size, 2, size - external - 1)
          && index == Rotate(start, external, |gapped|) + 1)
    && (size < |gapped| - 1 ==>
          && Shifted(Unrolled(before, start), Unrolled(gapped, start), size, 1, size - external)
          && index == Rotate(start, external, |gapped|))
  }

  lemma GappedIndex<T>(before: seq<Cell<T>>, gapped: seq<Cell<T>>, start: nat, size: nat, external: nat, index: nat)
    requires Gapped(before, gapped, start, size, external, index)
    ensures start < |gapped| && external < size < |gapped| && index <= |gapped|
    ensures index < |gapped| <==> (size == |gapped| - 1 ==> Rotate(start, external, |gapped|) + 1 < |gapped|)
  {
  }

  lemma InsertRepresents<T>(u: seq<Cell<T>>, cells: seq<Cell<T>>, start: nat, s: seq<T>, i: nat, v: T)
    requires start < |cells| && |s| + 1 < |cells| && i < |s| && Begins(u, s)
    requires Shifted(u, Unrolled(cells, start), |s|, 1, |s| - i)
    ensures var cells' := cells[Rotate(start, i, |cells|) := Live(v)];
            var write' := Rotate(Rotate(start, |s|, |cells|), 1, |cells|);
            write' != start && Represents(cells', start, write', Inserted(s, i, v))
  {
    UnrolledUpdate(cells, start, i, Live(v));
    var w, s' := Unrolled(cells, start)[i := Live(v)], Inserted(s, i, v);
    forall p | 0 <= p < |s'| ensures w[p] == Live(s'[p]) {
      if p > i { assert w[p] == u[p - 1]; }
    }
  }

  /** Position `k`, seen from the advanced start, after an insertion at `i` into a full buffer holding `s`. */
  ghost function FullCell<T>(s: seq<T>, i: nat, v: T, k: nat): Cell<T>
    requires i < |s| && k <= |s|
  {
    if k == i then Live(v)
    else if k == |s| then if i == 0 && |s| > 1 then Raw else Live(s[0])
    else if k > i then Live(s[k - 1])
    else if k == i - 1 && i < |s| - 1 then Raw
    else Live(s[k + 1])
  }

  /** What an insertion before the last position does to a full buffer holding `s`: the array is
      left with a front slot dropped, not the last element; for a position strictly inside, with a
      hole. What is left in each slot, the one between end and start included, is `FullCell`. The
      documented result is `Inserted(s, i, v)` without its last element. */
  ghost predicate FullInsertion<T>(s: seq<T>, i: nat, v: T, cells: seq<Cell<T>>, start: nat, write: nat)
    requires i < |s|
  {
    var n := |s|;
    && |cells| == n + 1 && start < |cells| && write == Rotate(start, n, |cells|)
    && (forall k :: 0 <= k <= n ==> Unrolled(cells, start)[k] == FullCell(s, i, v, k))
    && (0 < i < n - 1 ==> Unrolled(cells, start)[i - 1].Raw?)
    && (i == n - 1 ==> Represents(cells, start, write, s[1..] + [v]))
    && (i == 0 ==> Represents(cells, start, write, [v] + s[..n - 1]))
    && (Represents(cells, start, write, Inserted(s, i, v)[..n]) <==> i == 0 || (i == n - 1 && s[1..] == s[..n - 1]))
  }

  lemma SameLayout<T>(u: seq<Cell<T>>, s: seq<T>, s': seq<T>)
    requires Begins(u, s) && |s'| == |s|
    ensures Begins(u, s') <==> s' == s
  {
    if Begins(u, s') {
      assert forall k :: 0 <= k < |s| ==> u[k] == Live(s[k]) && u[k] == Live(s'[k]);
    }
  }

  /** The slots after an insertion at `i` into a full buffer, seen from the advanced start. */
  lemma FullUnrolled<T>(u: seq<Cell<T>>, cells: seq<Cell<T>>, start: nat, n: nat, i: nat, v: T)
    requires start < |cells| == n + 1 == |u| && i < n && Rotate(start, i, |cells|) + 1 < |cells|
    requires Shifted(u, Unrolled(cells, start), n, 2, n - i - 1)
    ensures var u' := Unrolled(cells[Rotate(start, i, |cells|) + 1 := Live(v)], Rotate(start, 1, |cells|));
            && u'[n] == (if i == 0 && n > 1 then Raw else u[0])
            && forall k :: 0 <= k < n ==>
              u'[k] == if k == i then Live(v) else if k > i then u[k - 1]
                       else if k == i - 1 && i < n - 1 then Raw else u[k + 1]
  {
    var cells' := cells[Rotate(start, i, |cells|) + 1 := Live(v)];
    assert Rotate(start, i, |cells|) + 1 == Rotate(start, i + 1, |cells|);
    UnrolledUpdate(cells, start, i + 1, Live(v));
    UnrolledAdvance(cells', start);
    assert Unrolled(cells', Rotate(start, 1, |cells|))[n] == Unrolled(cells', start)[0] == Unrolled(cells, start)[0]
        == ShiftedCell(u, n, 2, n - i - 1, 0);
  }

  /** Which sequences such slots can hold. */
  lemma FullInsertCases<T>(u: seq<Cell<T>>, u': seq<Cell<T>>, s: seq<T>, i: nat, v: T)
    requires Begins(u, s) && |u'| == |u| == |s| + 1 && i < |s|
    requires forall k :: 0 <= k < |s| ==>
               u'[k] == if k == i then Live(v) else if k > i then u[k - 1]
                        else if k == i - 1 && i < |s| - 1 then Raw else u[k + 1]
    ensures var n := |s|;
            && (0 < i < n - 1 ==> u'[i - 1].Raw?)
            && (i == n - 1 ==> Begins(u', s[1..] + [v]))
            && (i == 0 ==> Begins(u', [v] + s[..n - 1]))
            && (Begins(u', Inserted(s, i, v)[..n]) <==> i == 0 || (i == n - 1 && s[1..] == s[..n - 1]))
  {
    var n := |s|;
    if i == 0 {
      assert Inserted(s, i, v)[..n] == [v] + s[..n - 1];
    } else if i == n - 1 {
      assert Inserted(s, i, v)[..n] == s[..n - 1] + [v];
      assert Begins(u', s[1..] + [v]);
      SameLayout(u', s[1..] + [v], s[..n - 1] + [v]);
      assert s[1..] == (s[1..] + [v])[..n - 1] && s[..n - 1] == (s[..n - 1] + [v])[..n - 1];
    }
  }

  lemma FullInsertRepresents<T>(u: seq<Cell<T>>, cells: seq<Cell<T>>, start: nat, s: seq<T>, i: nat, v: T)
    requires start < |cells| && |s| + 1 == |cells| && i < |s| && Begins(u, s)
    requires Rotate(start, i, |cells|) + 1 < |cells|
    requires Shifted(u, Unrolled(cells, start), |s|, 2, |s| - i - 1)
    ensures var cells', start' := cells[Rotate(start, i, |cells|) + 1 := Live(v)], Rotate(start, 1, |cells|);
            && Rotate(Rotate(start, |s|, |cells|), 1, |cells|) == start
            && FullInsertion(s, i, v, cells', start', start)
  {
    hide Begins;
    var cells', start' := cells[Rotate(start, i, |cells|) + 1 := Live(v)], Rotate(start, 1, |cells|);
    FullUnrolled(u, cells, start, |s|, i, v);
    FullInsertCases(u, Unrolled(cells', start'), s, i, v);
    assert forall k :: 0 <= k < |s| ==> u[k] == Live(s[k]) by { BeginsAt(u, s); }
  }

  lemma BeginsAt<T>(u: seq<Cell<T>>, s: seq<T>)
    requires Begins(u, s)
    ensures |s| < |u| && forall k :: 0 <= k < |s| ==> u[k] == Live(s[k])
  {
  }

  /** The element is in its slot; `Insert` is done once the indices have moved. */
  ghost predicate InsertedBeforeAdvance<T>(cells: seq<Cell<T>>, start: nat, write: nat, s: seq<T>, i: nat, v: T)
    requires start < |cells| && write < |cells| && i < |s|
  {
    var write' := Rotate(write, 1, |cells|);
    var start' := if write' == start then Rotate(start, 1, |cells|) else start;
    && (|s| < |cells| - 1 ==> write' != start && Represents(cells, start', write', Inserted(s, i, v)))
    && (|s| == |cells| - 1 ==> write' == start && FullInsertion(s, i, v, cells, start', write'))
  }

  lemma InsertionEnds<T>(before: seq<Cell<T>>, gapped: seq<Cell<T>>, start: nat, write: nat, s: seq<T>, i: nat, v: T,
                         index: nat)
    requires Represents(before, start, write, s) && Gapped(before, gapped, start, |s|, i, index) && index < |gapped|
    ensures InsertedBeforeAdvance(gapped[index := Live(v)], start, write, s, i, v)
  {
    if |s| == |before| - 1 {
      FullInsertRepresents(Unrolled(before, start), gapped, start, s, i, v);
    } else {
      InsertRepresents(Unrolled(before, start), gapped, start, s, i, v);
    }
  }

  /** Whether the slot for the new element still holds an object once room has been made: only in a full
      buffer, at the last position but one, or at the last one with an object in the spacer slot. */
  lemma GapCell<T>(before: seq<Cell<T>>, gapped: seq<Cell<T>>, start: nat, write: nat, s: seq<T>, i: nat, index: nat)
    requires Represents(before, start, write, s) && Gapped(before, gapped, start, |s|, i, index) && index < |gapped|
    ensures write < |before| && (gapped[index].Live? <==> GapHoldsObject(|s|, |gapped|, i, before[write]))
  {
    hide Shifted, Begins;
    var u, v := Unrolled(before, start), Unrolled(gapped, start);
    BeginsAt(u, s);
    assert before[write] == u[|s|];
    if |s| == |gapped| - 1 {
      FullGap(u, v, s, i);
      assert gapped[index] == v[i + 1];
    } else {
      ShiftedAt(u, v, |s|, 1, |s| - i, i);
      assert gapped[index] == v[i];
    }
  }

  lemma ShiftedAt<T>(u: seq<Cell<T>>, v: seq<Cell<T>>, size: nat, gap: nat, count: nat, p: nat)
    requires Shifted(u, v, size, gap, count) && p < |u|
    ensures |v| == |u| && v[p] == ShiftedCell(u, size, gap, count, p)
  {
  }

  lemma FullGap<T>(u: seq<Cell<T>>, v: seq<Cell<T>>, s: seq<T>, i: nat)
    requires Begins(u, s) && |u| == |s| + 1 && i < |s| && Shifted(u, v, |s|, 2, |s| - i - 1)
    ensures |v| == |u| && v[i + 1] == if i + 2 < |s| then Raw else u[i + 1]
    ensures i + 1 < |s| ==> u[i + 1].Live?
  {
    ShiftedAt(u, v, |s|, 2, |s| - i - 1, i + 1);
  }

  predicate GapHoldsObject<T>(size: nat, capacity: nat, i: nat, spacer: Cell<T>) {
    size == capacity - 1 && (i + 2 == size || (i + 1 == size && spacer.Live?))
  }

  /** The slots after the first `n` positions are as they were. */
  ghost predicate SameBeyond<T>(before: seq<Cell<T>>, after: seq<Cell<T>>, start: nat, n: nat) {
    && |before| == |after| && start < |after|
    && forall p :: n <= p < |after| ==> Unrolled(after, start)[p] == Unrolled(before, start)[p]
  }

  lemma SameBeyondEnd<T>(cells: seq<Cell<T>>, start: nat, write: nat, s: seq<T>, v: T)
    requires Represents(cells, start, write, s)
    ensures write < |cells| && SameBeyond(cells, cells[write := Live(v)], start, |s| + 1)
  {
    UnrolledUpdate(cells, start, |s|, Live(v));
  }

  lemma SameBeyondGap<T>(before: seq<Cell<T>>, gapped: seq<Cell<T>>, start: nat, s: seq<T>, i: nat, v: T, index: nat)
    requires Gapped(before, gapped, start, |s|, i, index) && index < |gapped|
    ensures |Inserted(s, i, v)| == |s| + 1
    ensures |s| < |gapped| - 1 ==> SameBeyond(before, gapped[index := Live(v)], start, |s| + 1)
  {
    if |s| < |gapped| - 1 {
      UnrolledUpdate(gapped, start, i, Live(v));
      forall p | |s| + 1 <= p < |gapped| ensures Unrolled(gapped, start)[p] == Unrolled(before, start)[p] {
        assert Unrolled(gapped, start)[p] == ShiftedCell(Unrolled(before, start), |s|, 1, |s| - i, p);
      }
    }
  }

  /** Position `p` of `u` after `count` steps of the forward loop. */
  ghost function ClosedCell<T>(u: seq<Cell<T>>, first: nat, last: nat, count: nat, p: nat): Cell<T>
    requires p < |u| && first < last && last + count <= |u|
  {
    if first <= p < first + count then u[p + (last - first)]
    else if last <= p < last + count then Raw
    else u[p]
  }

  /** `v` is `u` after `count` steps of the forward loop. */
  ghost predicate Closed<T>(u: seq<Cell<T>>, v: seq<Cell<T>>, first: nat, last: nat, count: nat) {
    && |v| == |u| && first < last && last + count <= |u|
    && forall p :: 0 <= p < |v| ==> v[p] == ClosedCell(u, first, last, count, p)
  }

  lemma ClosedStart<T>(u: seq<Cell<T>>, first: nat, last: nat)
    requires first < last <= |u|
    ensures Closed(u, u, first, last, 0)
  {
  }

  lemma ClosedStep<T>(u: seq<Cell<T>>, v: seq<Cell<T>>, first: nat, last: nat, count: nat)
    requires Closed(u, v, first, last, count) && last + count < |u|
    ensures v[last + count] == u[last + count]
    ensures Closed(u, v[first + count := v[last + count]][last + count := Raw], first, last, count + 1)
  {
  }

  lemma ClosedBegins<T>(u: seq<Cell<T>>, v: seq<Cell<T>>, s: seq<T>, first: nat, last: nat)
    requires Begins(u, s) && first < last <= |s| && Closed(u, v, first, last, |s| - last)
    ensures Begins(v, Removed(s, first, last))
  {
    var s' := Removed(s, first, last);
    forall k | 0 <= k < |s'| ensures v[k] == Live(s'[k]) {
      assert v[k] == ClosedCell(u, first, last, |s| - last, k);
    }
  }

  /** What the slot of the last element holds once one element has been closed up. */
  lemma ClosedLast<T>(u: seq<Cell<T>>, v: seq<Cell<T>>, s: seq<T>, i: nat)
    requires Begins(u, s) && i < |s| && Closed(u, v, i, i + 1, |s| - 1 - i)
    ensures |v| == |u| && v[|s| - 1] == if i + 1 == |s| then Live(s[i]) else Raw
  {
    assert v[|s| - 1] == ClosedCell(u, i, i + 1, |s| - 1 - i, |s| - 1);
  }

  /** The array index of `last` and the number of removed elements are both at most `write`. */
  predicate RangeErasureIsExact(start: nat, write: nat, capacity: nat, first: nat, last: nat)
    requires start < capacity && first <= last <= capacity
  {
    Rotate(start, last, capacity) <= write && last - first <= write
  }

  /** An unwrapped buffer always meets the condition. */
  lemma UnwrappedErasureIsExact<T>(cells: seq<Cell<T>>, start: nat, write: nat, s: seq<T>, first: nat, last: nat)
    requires Represents(cells, start, write, s) && start <= write && first < last <= |s|
    ensures RangeErasureIsExact(start, write, |cells|, first, last)
  {
  }

  /** Exactly when the range erasure leaves the promised sequence. In the branch that moves nothing,
      the sequence must read the same with its last elements cut off as with the range removed, and
      the new end index must happen to be the right one. */
  ghost predicate RangeErasureHolds<T>(s: seq<T>, start: nat, write: nat, capacity: nat, first: nat, last: nat)
    requires start < capacity && first <= last <= |s| < capacity
  {
    var n := last - first;
    if Rotate(start, last, capacity) <= write then n <= write
    else Removed(s, first, last) == s[..|s| - n] && (write == n || (write > n && capacity == 2 * (write - n)))
  }

  /** The end index after the branch that moves nothing. */
  function TruncatedWrite(write: nat, capacity: nat, n: nat): (r: nat)
    requires write < capacity && n < capacity
    ensures r < capacity
  {
    if write > n then capacity - (write - n) else if write == n then 0 else capacity - 1 - (n - write)
  }

  lemma TruncationHolds<T>(cells: seq<Cell<T>>, start: nat, write: nat, s: seq<T>, first: nat, last: nat)
    requires Represents(cells, start, write, s) && first < last <= |s| && Rotate(start, last, |cells|) > write
    ensures write < start && last < |s|
    ensures Represents(cells, start, TruncatedWrite(write, |cells|, last - first), Removed(s, first, last))
       <==> RangeErasureHolds(s, start, write, |cells|, first, last)
  {
    var n := last - first;
    assert Begins(Unrolled(cells, start), s[..|s| - n]);
    SameLayout(Unrolled(cells, start), s[..|s| - n], Removed(s, first, last));
  }

  /** The end index `n` slots back; one too far if that goes past the start of the array. */
  function WriteBack(write: nat, capacity: nat, n: nat): (r: nat)
    requires write < capacity && n < capacity
    ensures r < capacity && (Rotate(r, n, capacity) == write <==> n <= write)
    ensures n > write ==> Rotate(r, n + 1, capacity) == write
  {
    if n > write then capacity - 1 - (n - write) else write - n
  }

  /** After `write` goes back by `n`, the array holds `s` exactly when `n` was at most `write`. */
  ghost predicate RemovedBeforeDecrement<T>(cells: seq<Cell<T>>, start: nat, write: nat, s: seq<T>, n: nat)
    requires write < |cells| && n < |cells|
  {
    Represents(cells, start, WriteBack(write, |cells|, n), s) <==> n <= write
  }

  lemma RangeErasureEnds<T>(before: seq<Cell<T>>, after: seq<Cell<T>>, start: nat, write: nat, s: seq<T>,
                            first: nat, last: nat)
    requires Represents(before, start, write, s) && |after| == |before| && first < last <= |s|
    requires Rotate(start, last, |before|) <= write
    requires Closed(Unrolled(before, start), Unrolled(after, start), first, last, |s| - last)
    ensures RemovedBeforeDecrement(after, start, write, Removed(s, first, last), last - first)
  {
    hide Closed;
    ClosedBegins(Unrolled(before, start), Unrolled(after, start), s, first, last);
  }

  lemma ErasureEnds<T>(before: seq<Cell<T>>, after: seq<Cell<T>>, start: nat, write: nat, s: seq<T>, i: nat)
    requires Represents(before, start, write, s) && |after| == |before| && i < |s|
    requires Closed(Unrolled(before, start), Unrolled(after, start), i, i + 1, |s| - 1 - i)
    ensures var write' := if write == 0 then |after| - 1 else write - 1;
            && Represents(after, start, write', Removed(s, i, i + 1))
            && after[write'] == if i + 1 == |s| then Live(s[i]) else Raw
  {
    hide Closed, Begins;
    assert |s| < |after| by { EndIsAtWrite(before, start, write, s, |s|); }
    ClosedBegins(Unrolled(before, start), Unrolled(after, start), s, i, i + 1);
    ClosedLast(Unrolled(before, start), Unrolled(after, start), s, i);
    assert after[Rotate(start, |s| - 1, |after|)] == Unrolled(after, start)[|s| - 1];
  }
}
