/** The bounded deque that the ring buffer implements, as operations on sequences. */
module Deque {

  /** What a deque holding at most `limit` elements becomes when `v` is added at the back. */
  function Pushed<T>(s: seq<T>, v: T, limit: nat): seq<T> {
    if |s| < limit then s + [v] else (s + [v])[1..]
  }

  function Inserted<T>(s: seq<T>, i: nat, v: T): seq<T>
    requires i <= |s|
  {
    s[..i] + [v] + s[i..]
  }

  function Removed<T>(s: seq<T>, first: nat, last: nat): seq<T>
    requires first <= last <= |s|
  {
    s[..first] + s[last..]
  }

  datatype Op<T> = Push(v: T) | PopFront | PopBack | Insert(i: nat, v: T) | Erase(i: nat)

  /** What a caller must respect: positions inside the sequence, insertion only with room left. */
  predicate Allowed<T>(s: seq<T>, op: Op<T>, limit: nat) {
    match op
    case Insert(i, _) => i <= |s| < limit
    case Erase(i) => i < |s|
    case _ => true
  }

  function Apply<T>(s: seq<T>, op: Op<T>, limit: nat): seq<T>
    requires Allowed(s, op, limit)
  {
    match op
    case Push(v) => Pushed(s, v, limit)
    case PopFront => if s == [] then s else s[1..]
    case PopBack => if s == [] then s else s[..|s| - 1]
    case Insert(i, v) => Inserted(s, i, v)
    case Erase(i) => Removed(s, i, i + 1)
  }

  predicate AllowedAll<T>(s: seq<T>, ops: seq<Op<T>>, limit: nat)
    decreases |ops|
  {
    ops == [] || (Allowed(s, ops[0], limit) && AllowedAll(Apply(s, ops[0], limit), ops[1..], limit))
  }

  function ApplyAll<T>(s: seq<T>, ops: seq<Op<T>>, limit: nat): seq<T>
    requires AllowedAll(s, ops, limit)
    decreases |ops|
  {
    if ops == [] then s else ApplyAll(Apply(s, ops[0], limit), ops[1..], limit)
  }

  /** No history makes the deque longer than its capacity. */
  lemma {:induction false} NeverLongerThanCapacity<T>(s: seq<T>, ops: seq<Op<T>>, limit: nat)
    requires |s| <= limit && AllowedAll(s, ops, limit)
    ensures |ApplyAll(s, ops, limit)| <= limit
    decreases |ops|
  {
    if ops != [] {
      NeverLongerThanCapacity(Apply(s, ops[0], limit), ops[1..], limit);
    }
  }

  function Pushes<T>(vs: seq<T>): seq<Op<T>> {
    if vs == [] then [] else [Push(vs[0])] + Pushes(vs[1..])
  }

  function Latest<T>(all: seq<T>, limit: nat): seq<T> {
    if |all| <= limit then all else all[|all| - limit..]
  }

  lemma LatestAfterPush<T>(s: seq<T>, v: T, rest: seq<T>, limit: nat)
    requires |s| <= limit
    ensures Latest(Pushed(s, v, limit) + rest, limit) == Latest(s + ([v] + rest), limit)
  {
    var all := s + ([v] + rest);
    if |s| < limit {
      assert Pushed(s, v, limit) + rest == all;
    } else {
      assert Pushed(s, v, limit) + rest == all[1..];
    }
  }

  lemma {:induction false} ApplyPushFirst<T>(s: seq<T>, v: T, ops: seq<Op<T>>, limit: nat)
    requires AllowedAll(Pushed(s, v, limit), ops, limit)
    ensures AllowedAll(s, [Push(v)] + ops, limit)
    ensures ApplyAll(s, [Push(v)] + ops, limit) == ApplyAll(Pushed(s, v, limit), ops, limit)
  {
    assert ([Push(v)] + ops)[1..] == ops;
  }

  /** Any number of pushes leaves the last `limit` of all the elements, in order. */
  lemma {:induction false} PushesKeepTheLast<T>(s: seq<T>, vs: seq<T>, limit: nat)
    requires |s| <= limit
    ensures AllowedAll(s, Pushes(vs), limit)
    ensures ApplyAll(s, Pushes(vs), limit) == Latest(s + vs, limit)
    decreases |vs|
  {
    if vs == [] {
      assert s + vs == s;
    } else {
      assert vs == [vs[0]] + vs[1..];
      PushesKeepTheLast(Pushed(s, vs[0], limit), vs[1..], limit);
      ApplyPushFirst(s, vs[0], Pushes(vs[1..]), limit);
      LatestAfterPush(s, vs[0], vs[1..], limit);
    }
  }
}
