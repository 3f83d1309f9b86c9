/**
 What becomes of the calls of the pushing operations. A blocking call returns only once its value is
 published; a call that does not block may return refused; no value gets a ticket without a call.
 */
module LockFreeQueueCalls {
  import opened LockFreeQueue
  import opened LockFreeQueueOrder

  // ---------------------------------------------------------------------------------------------
  // One call

  /** Producer `i` enters a call for `v` at step `j` and is inside it up to `k`. */
  ghost predicate InsideCall<T(!new)>(ss: seq<State<T>>, i: nat, j: nat, k: nat, v: T, blocking: bool) {
    && 0 < j <= k < |ss| && i < |ss[j - 1].producers| && i < |ss[j].producers|
    && ss[j - 1].producers[i].Idle? && ss[j].producers[i] == Trying(v, blocking)
    && (forall m :: j < m <= k ==> i < |ss[m].producers| && !ss[m].producers[i].Idle?)
  }

  /** What a producer carries inside a call for `v` that began when `first` tickets were issued. */
  predicate Carries<T(==)>(p: Producer<T>, v: T, blocking: bool, first: nat, pushed: seq<T>) {
    match p
    case Idle => false
    case Trying(w, b) => w == v && b == blocking
    case Undoing(w, b) => w == v && b == blocking
    case Reserved(w) => w == v
    case Ticketed(w, t) => w == v && first <= t < |pushed| && pushed[t] == v
    case Stored(t) => first <= t < |pushed| && pushed[t] == v
  }

  lemma {:induction false} StepCarries<T(!new)>(s: State<T>, a: Action<T>, i: nat, v: T, blocking: bool, first: nat)
    requires Enabled(s, a) && s.write == |s.pushed| >= first && i < |s.producers|
    requires Carries(s.producers[i], v, blocking, first, s.pushed)
    ensures var s', p := Do(s, a), s.producers[i];
            && s.pushed <= s'.pushed && |s'.producers| == |s.producers|
            && (if s'.producers[i].Idle? then p.Stored? || (p.Undoing? && !blocking)
                else Carries(s'.producers[i], v, blocking, first, s'.pushed))
            && (p.Stored? && s'.producers[i].Idle? ==> s'.maxRead == Increment(s.maxRead))
  {
  }

  lemma {:induction false} CarriesInside<T(!new)>(ss: seq<State<T>>, i: nat, j: nat, k: nat, v: T, blocking: bool)
    requires Run(ss) && InsideCall(ss, i, j, k, v, blocking)
    ensures Counted(ss[k]) && i < |ss[k].producers| && |ss[j].pushed| <= |ss[k].pushed|
    ensures Carries(ss[k].producers[i], v, blocking, |ss[j].pushed|, ss[k].pushed)
    decreases k
  {
    hide Balanced, Tickets, WellFormed, Do, Enabled, Init;
    CountedInEveryState(ss, k);
    if k > j {
      CarriesInside(ss, i, j, k - 1, v, blocking);
      CountedWrites(ss[k - 1]);
      assert StepAt(ss, k);
      var a :| Enabled(ss[k - 1], a) && ss[k] == Do(ss[k - 1], a);
      StepCarries(ss[k - 1], a, i, v, blocking, |ss[j].pushed|);
    }
  }

  /** In every run, a call returns either at the step that publishes a ticket issued to it for its own
      value, or, if it does not block, by undoing a refused reservation. In particular a blocking call
      on a full queue does not return before its value is in. */
  lemma {:induction false} CallReturns<T(!new)>(ss: seq<State<T>>, i: nat, j: nat, k: nat, v: T, blocking: bool)
    requires Run(ss) && k + 1 < |ss| && InsideCall(ss, i, j, k, v, blocking)
    requires i < |ss[k + 1].producers| && ss[k + 1].producers[i].Idle?
    ensures i < |ss[k].producers|
    ensures var p := ss[k].producers[i];
            if p.Stored? then
              && |ss[j].pushed| <= p.ticket < |ss[k + 1].pushed| && ss[k + 1].pushed[p.ticket] == v
              && ss[k + 1].maxRead == ss[k].maxRead + 1
            else !blocking && p == Undoing(v, false)
  {
    CarriesInside(ss, i, j, k, v, blocking);
    assert StepAt(ss, k + 1);
    var a :| Enabled(ss[k], a) && ss[k + 1] == Do(ss[k], a);
    StepCarries(ss[k], a, i, v, blocking, |ss[j].pushed|);
  }

  // ---------------------------------------------------------------------------------------------
  // Progress

  /** A producer inside a call always has a next access to make. */
  lemma {:induction false} ProducerNeverStuck<T(!new)>(ss: seq<State<T>>, k: nat, i: nat)
    requires Run(ss) && k < |ss| && i < |ss[k].producers| && !ss[k].producers[i].Idle?
    ensures Enabled(ss[k], Advance(i))
  {
    CountedInEveryState(ss, k);
  }

  /** While there is no room, a blocking push spins: two accesses bring the queue back to where it was. */
  lemma {:induction false} SpinChangesNothing<T(!new)>(s: State<T>, i: nat)
    requires Counted(s) && i < |s.producers| && s.producers[i].Trying? && s.producers[i].blocking && s.size >= s.cap
    ensures var s1 := ProducerStep(s, i);
            s1.producers[i].Undoing? && Enabled(s1, Advance(i)) && ProducerStep(s1, i) == s
  {
    CountBounds(s.producers, AwaitsUndo);
    var s1 := ProducerStep(s, i);
    assert s1.producers[i := s.producers[i]] == s.producers;
  }

  /** Once there is room, four accesses of its own complete a push, whatever the others are in the middle
      of: the value gets the next ticket, is in its slot, and one more value is published. */
  lemma {:induction false} PushCompletes<T(!new)>(s: State<T>, i: nat) returns (s': State<T>)
    requires Counted(s) && i < |s.producers| && s.producers[i].Trying? && s.size < s.cap && |s.pushed| < MAX_PUSHES
    ensures Counted(s') && s'.producers == s.producers[i := Idle] && s'.consumer == s.consumer
    ensures s'.pushed == s.pushed + [s.producers[i].value] && s'.maxRead == s.maxRead + 1
    ensures 0 < s.cap && s'.slots == s.slots[|s.pushed| % s.cap := Holds(s.producers[i].value)]
  {
    hide Balanced, Tickets;
    var v := s.producers[i].value;
    CountedWrites(s);
    var s1 := ProducerStep(s, i);
    StepCounted(s, Advance(i));
    var s2 := ProducerStep(s1, i);
    StepCounted(s1, Advance(i));
    var s3 := ProducerStep(s2, i);
    StepCounted(s2, Advance(i));
    s' := ProducerStep(s3, i);
    StepCounted(s3, Advance(i));
    assert s'.producers == s.producers[i := Idle];
  }

  lemma {:induction false} CountedWrites<T(!new)>(s: State<T>)
    requires Counted(s)
    ensures s.write == |s.pushed| && s.maxRead <= |s.pushed| <= MAX_PUSHES
  {
  }

  // ---------------------------------------------------------------------------------------------
  // All calls

  /** How many elements of `s` satisfy `f`. */
  ghost function Matching<T>(s: seq<T>, f: T -> bool): nat {
    if s == [] then 0 else Matching(s[..|s| - 1], f) + if f(s[|s| - 1]) then 1 else 0
  }

  lemma {:induction false} MatchingAppend<T>(s: seq<T>, v: T, f: T -> bool)
    ensures Matching(s + [v], f) == Matching(s, f) + if f(v) then 1 else 0
  {
    assert (s + [v])[..|s|] == s;
  }

  lemma {:induction false} MatchingNone<T>(f: T -> bool)
    ensures Matching([], f) == 0
  {
  }

  lemma {:induction false} MatchingAll<T>(s: seq<T>, f: T -> bool)
    requires forall v :: f(v)
    ensures Matching(s, f) == |s|
  {
    if s != [] { MatchingAll(s[..|s| - 1], f); }
  }

  /** Whether a producer is inside a call for a value that satisfies `f`, without a ticket yet. */
  ghost function Lacks<T>(p: Producer<T>, f: T -> bool): nat {
    if (p.Trying? || p.Undoing? || p.Reserved?) && f(p.value) then 1 else 0
  }

  ghost function Unticketed<T>(ps: seq<Producer<T>>, f: T -> bool): nat {
    if ps == [] then 0 else Lacks(ps[0], f) + Unticketed(ps[1..], f)
  }

  datatype Event = Entry | Refusal

  /** Whether a producer that goes from `p` to `p'` enters a call, or has one refused, for a value that
      satisfies `f`. */
  ghost function Is<T>(event: Event, p: Producer<T>, p': Producer<T>, f: T -> bool): nat {
    match event
    case Entry => if p.Idle? && p'.Trying? && f(p'.value) then 1 else 0
    case Refusal => if p.Undoing? && !p.blocking && p'.Idle? && f(p.value) then 1 else 0
  }

  ghost function Happened<T>(event: Event, ps: seq<Producer<T>>, ps': seq<Producer<T>>, f: T -> bool): nat {
    if ps == [] || ps' == [] then 0 else Is(event, ps[0], ps'[0], f) + Happened(event, ps[1..], ps'[1..], f)
  }

  /** How often it happened up to state `k`. */
  ghost function Total<T>(event: Event, ss: seq<State<T>>, k: nat, f: T -> bool): nat
    requires k < |ss|
  {
    if k == 0 then 0 else Total(event, ss, k - 1, f) + Happened(event, ss[k - 1].producers, ss[k].producers, f)
  }

  lemma {:induction false} UnticketedUpdate<T>(ps: seq<Producer<T>>, i: nat, p: Producer<T>, f: T -> bool)
    requires i < |ps|
    ensures Unticketed(ps[i := p], f) == Unticketed(ps, f) - Lacks(ps[i], f) + Lacks(p, f)
  {
    if i == 0 {
      assert ps[i := p][1..] == ps[1..];
    } else {
      UnticketedUpdate(ps[1..], i - 1, p, f);
      assert ps[i := p][1..] == ps[1..][i - 1 := p];
    }
  }

  lemma {:induction false} NothingHappened<T>(event: Event, ps: seq<Producer<T>>, f: T -> bool)
    ensures Happened(event, ps, ps, f) == 0
  {
    if ps != [] { NothingHappened(event, ps[1..], f); }
  }

  lemma {:induction false} HappenedUpdate<T>(event: Event, ps: seq<Producer<T>>, i: nat, p: Producer<T>, f: T -> bool)
    requires i < |ps|
    ensures Happened(event, ps, ps[i := p], f) == Is(event, ps[i], p, f)
  {
    if i == 0 {
      assert ps[i := p][1..] == ps[1..];
      NothingHappened(event, ps[1..], f);
    } else {
      HappenedUpdate(event, ps[1..], i - 1, p, f);
      assert ps[i := p][1..] == ps[1..][i - 1 := p];
    }
  }

  lemma {:induction false} StepAccounted<T(!new)>(s: State<T>, a: Action<T>, f: T -> bool)
    requires Enabled(s, a) && s.write == |s.pushed|
    ensures var s' := Do(s, a);
            Matching(s.pushed, f) + Unticketed(s.producers, f) + Happened(Entry, s.producers, s'.producers, f)
            == Matching(s'.pushed, f) + Unticketed(s'.producers, f) + Happened(Refusal, s.producers, s'.producers, f)
  {
    hide Unticketed, Happened, Matching, WellFormed;
    var s' := Do(s, a);
    if a.Consume? {
      NothingHappened(Entry, s.producers, f);
      NothingHappened(Refusal, s.producers, f);
    } else {
      var i := a.thread;
      var p := s'.producers[i];
      UnticketedUpdate(s.producers, i, p, f);
      HappenedUpdate(Entry, s.producers, i, p, f);
      HappenedUpdate(Refusal, s.producers, i, p, f);
      if s.producers[i].Reserved? { MatchingAppend(s.pushed, s.producers[i].value, f); }
    }
  }

  /** In every state of every run, and for every choice `f` of values: those the queue was built with
      and those of the calls so far are those that got a ticket, those of the calls still without one,
      and those of the calls refused. */
  lemma {:induction false} CallsAccountedFor<T(!new)>(ss: seq<State<T>>, k: nat, f: T -> bool)
    requires Run(ss) && k < |ss|
    ensures Matching(ss[0].pushed, f) + Total(Entry, ss, k, f)
         == Matching(ss[k].pushed, f) + Unticketed(ss[k].producers, f) + Total(Refusal, ss, k, f)
  {
    hide Unticketed, Happened, Matching, Init, Counted;
    if k == 0 {
      NoneUnticketed(ss[0], f);
    } else {
      CallsAccountedFor(ss, k - 1, f);
      CountedInEveryState(ss, k - 1);
      CountedWrites(ss[k - 1]);
      assert StepAt(ss, k);
      var a :| Enabled(ss[k - 1], a) && ss[k] == Do(ss[k - 1], a);
      StepAccounted(ss[k - 1], a, f);
    }
  }

  lemma {:induction false} NoneUnticketed<T(!new)>(s: State<T>, f: T -> bool)
    requires Init(s)
    ensures Unticketed(s.producers, f) == 0
  {
    AllIdle(s.producers, f);
  }

  lemma {:induction false} AllIdle<T>(ps: seq<Producer<T>>, f: T -> bool)
    requires forall i :: 0 <= i < |ps| ==> ps[i].Idle?
    ensures Unticketed(ps, f) == 0
  {
    if ps != [] { AllIdle(ps[1..], f); }
  }

  /** The producers inside a call. */
  function Busy<T>(ps: seq<Producer<T>>): nat {
    if ps == [] then 0 else (if ps[0].Idle? then 0 else 1) + Busy(ps[1..])
  }

  lemma {:induction false} BusySplits<T>(ps: seq<Producer<T>>, f: T -> bool)
    requires forall v :: f(v)
    ensures Busy(ps) == Unticketed(ps, f) + Count(ps, InFlight)
  {
    if ps != [] { BusySplits(ps[1..], f); }
  }

  /** No call of the run gives up. */
  ghost predicate AllBlock<T(!new)>(ss: seq<State<T>>) {
    forall k, i :: 0 <= k < |ss| && 0 <= i < |ss[k].producers| && ss[k].producers[i].Undoing? ==>
      ss[k].producers[i].blocking
  }

  lemma {:induction false} NoRefusal<T>(ps: seq<Producer<T>>, ps': seq<Producer<T>>, f: T -> bool)
    requires forall i :: 0 <= i < |ps| && ps[i].Undoing? ==> ps[i].blocking
    ensures Happened(Refusal, ps, ps', f) == 0
  {
    if ps != [] && ps' != [] { NoRefusal(ps[1..], ps'[1..], f); }
  }

  lemma {:induction false} NoRefusals<T(!new)>(ss: seq<State<T>>, k: nat, f: T -> bool)
    requires k < |ss| && AllBlock(ss)
    ensures Total(Refusal, ss, k, f) == 0
  {
    if k > 0 {
      NoRefusals(ss, k - 1, f);
      NoRefusal(ss[k - 1].producers, ss[k].producers, f);
    }
  }

  /** In numbers: calls and initial values are published values, calls in progress, and refusals. If all
      calls block there are no refusals, so every call that has returned has published. */
  lemma {:induction false} EveryReturnPublishes<T(!new)>(ss: seq<State<T>>, k: nat, f: T -> bool)
    requires Run(ss) && k < |ss| && forall v :: f(v)
    ensures |ss[0].pushed| + Total(Entry, ss, k, f)
         == ss[k].maxRead + Busy(ss[k].producers) + Total(Refusal, ss, k, f)
    ensures AllBlock(ss) ==> Total(Refusal, ss, k, f) == 0
  {
    hide Unticketed, Total, Count, Busy;
    CallsAccountedFor(ss, k, f);
    MatchingAll(ss[0].pushed, f);
    MatchingAll(ss[k].pushed, f);
    BusySplits(ss[k].producers, f);
    CountedInEveryState(ss, k);
    if AllBlock(ss) { NoRefusals(ss, k, f); }
  }
}
