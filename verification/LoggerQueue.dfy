/**
 The asynchronous logger over the real queue: a call of `log` and a read of the logging thread go
 through the atomic accesses of LockFreeQueue one by one. As long as callers publish in the order of
 their tickets, and so always with one caller, every run refines a run of the logger over an atomic
 queue, and what is proved there holds here.
 */
module LoggerQueue {
  import opened LogSinks
  import L = Logger
  import S = LoggerShutdown
  import Q = LockFreeQueue
  import O = LockFreeQueueOrder
  import A = LockFreeQueueAtomic

  /** The queue, and the rest of the logger (whose own `queue` stays empty and is not used). Caller i
      is producer i of the queue, the logging thread is its consumer. */
  datatype World = World(q: Q.State<Entry>, log: L.State)

  datatype Action = Log(caller: nat, entry: Entry) | Signal(caller: nat) | Enter(caller: nat) | Advance(caller: nat)
                  | ThreadStep | OwnerStep

  predicate InRead(w: World) {
    w.log.thread.Reading? || w.log.thread.FlushReading?
  }

  predicate Enabled(c: L.Config, w: World, a: Action) {
    match a
    case Log(i, e) => L.Enabled(c, w.log, L.Log(i, e))
    case Signal(i) => i < |w.log.callers| && w.log.callers[i].Signalling?
    case Enter(i) =>
      && i < |w.log.callers| && w.log.callers[i].Pushing?
      && Q.WellFormed(w.q) && i < |w.q.producers| && w.q.producers[i].Idle?
    case Advance(i) => i < |w.log.callers| && w.log.callers[i].Pushing? && Q.Enabled(w.q, Q.Advance(i))
    case ThreadStep =>
      if InRead(w) then
        && Q.WellFormed(w.q)
        && (w.q.consumer.Releasing? ==> w.q.popped != [] && w.q.popped[|w.q.popped| - 1].Holds?)
      else L.Enabled(c, w.log, L.ThreadStep)
    case OwnerStep => L.Enabled(c, w.log, L.OwnerStep)
  }

  /** One access of `push`; the call returns when it has published, or has undone a refused try. */
  function DoAdvance(c: L.Config, w: World, i: nat): World
    requires Enabled(c, w, Advance(i))
  {
    var q', p, e := Q.ProducerStep(w.q, i), w.q.producers[i], w.log.callers[i].entry;
    if p.Stored? then
      World(q', w.log.(accepted := w.log.accepted + [e], ok := w.log.ok + [e], callers := w.log.callers[i := L.Idle]))
    else if p.Undoing? && !p.blocking then
      World(q', w.log.(rejected := w.log.rejected + 1, callers := w.log.callers[i := L.Idle]))
    else World(q', w.log)
  }

  /** One access of `read`; the call returns when the check fails or the reservation is given back. */
  function DoRead(c: L.Config, w: World): World
    requires InRead(w) && Enabled(c, w, ThreadStep)
  {
    var q', flushing := Q.ConsumerStep(w.q), w.log.thread.FlushReading?;
    if w.q.consumer.Waiting? && q'.consumer.Waiting? then
      World(q', if flushing then w.log.(thread := L.Done)
                else w.log.(thread := L.Acquiring, failedReads := w.log.failedReads + 1))
    else if w.q.consumer.Releasing? then
      var e := w.q.popped[|w.q.popped| - 1].value;
      World(q', w.log.(thread := if flushing then L.FlushDelivering(e, 0) else L.Delivering(e, 0)))
    else World(q', w.log)
  }

  function Do(c: L.Config, w: World, a: Action): World
    requires Enabled(c, w, a)
  {
    match a
    case Log(i, e) => w.(log := L.Begin(c, w.log, i, e))
    case Signal(i) => w.(log := L.DoCaller(c, w.log, i))
    case Enter(i) => w.(q := Q.Do(w.q, Q.Call(i, w.log.callers[i].entry, c.policy.BlockWhenFull?)))
    case Advance(i) => DoAdvance(c, w, i)
    case ThreadStep => if InRead(w) then DoRead(c, w) else w.(log := L.DoThread(c, w.log))
    case OwnerStep => w.(log := L.DoOwner(w.log))
  }

  ghost predicate Next(c: L.Config, w: World, w': World) {
    exists a :: Enabled(c, w, a) && w' == Do(c, w, a)
  }

  ghost predicate Init(c: L.Config, w: World) {
    && L.Init(c, w.log) && Q.Init(w.q) && w.q.pushed == []
    && w.q.cap == c.queueSize && |w.q.producers| == |w.log.callers|
  }

  ghost predicate StepAt(c: L.Config, ws: seq<World>, k: nat)
    requires 0 < k < |ws|
  {
    Next(c, ws[k - 1], ws[k])
  }

  /** A run of the logger over the real queue, within the number of pushes its counters allow. */
  ghost predicate Run(c: L.Config, ws: seq<World>) {
    && |ws| > 0 && Init(c, ws[0])
    && (forall k :: 0 < k < |ws| ==> StepAt(c, ws, k))
    && (forall k :: 0 <= k < |ws| ==> |ws[k].q.pushed| <= Q.MAX_PUSHES)
  }

  /** Callers publish in the order of their tickets. */
  ghost predicate ByTicket(ws: seq<World>) {
    forall k :: 0 < k < |ws| ==> A.PublishesByTicket(ws[k - 1].q, ws[k].q)
  }

  // ---------------------------------------------------------------------------------------------
  // The atomic logger seen in a state

  /** What keeps the queue sound. */
  ghost predicate Sound(q: Q.State<Entry>) {
    O.Ordered(q) && A.InFlightAhead(q)
  }

  /** Where a caller may be in the queue, given where it is in `log`. */
  predicate Matches(c: L.Config, caller: L.Caller, p: Q.Producer<Entry>, pushed: seq<Entry>) {
    match p
    case Idle => true
    case Trying(e, b) => caller == L.Pushing(e) && b == c.policy.BlockWhenFull?
    case Undoing(e, b) => caller == L.Pushing(e) && b == c.policy.BlockWhenFull?
    case Reserved(e) => caller == L.Pushing(e)
    case Ticketed(e, _) => caller == L.Pushing(e)
    case Stored(t) => t < |pushed| && caller == L.Pushing(pushed[t])
  }

  ghost predicate Coupled(c: L.Config, w: World) {
    && w.q.cap == c.queueSize && |w.q.producers| == |w.log.callers|
    && |w.log.handed| == |w.log.emitted| == |c.sinks|
    && (!w.q.consumer.Waiting? ==> InRead(w))
    && (forall i :: 0 <= i < |w.log.callers| ==> Matches(c, w.log.callers[i], w.q.producers[i], w.q.pushed))
  }

  /** The entry a read has claimed and not yet returned. */
  function Claimed(q: Q.State<Entry>): seq<Entry> {
    if q.consumer.Taking? && |q.popped| < |q.pushed| then [q.pushed[|q.popped|]]
    else if q.consumer.Releasing? && 0 < |q.popped| <= |q.pushed| then [q.pushed[|q.popped| - 1]]
    else []
  }

  /** A read in progress has an entry to claim. */
  predicate Claimable(q: Q.State<Entry>) {
    && |q.popped| <= |q.pushed|
    && (q.consumer.Taking? ==> |q.popped| < |q.pushed|)
    && (q.consumer.Releasing? ==> q.popped != [])
  }

  function ThreadOf(w: World): L.Thread {
    if InRead(w) && Claimed(w.q) != [] then
      if w.log.thread.FlushReading? then L.FlushDelivering(Claimed(w.q)[0], 0) else L.Delivering(Claimed(w.q)[0], 0)
    else w.log.thread
  }

  /** The state of the logger over an atomic queue: a push has happened once it is published, a read
      once it has claimed its entry. */
  function Abstract(w: World): L.State
    requires w.q.read <= w.q.maxRead <= |w.q.pushed|
  {
    w.log.(queue := A.Visible(w.q), thread := ThreadOf(w))
  }

  lemma {:induction false} SoundInRange(q: Q.State<Entry>)
    requires Sound(q)
    ensures A.InRange(q) && q.maxRead <= Q.MAX_PUSHES && Q.Counted(q)
    ensures Q.WellFormed(q) && !O.Race(q) && O.Fifo(q) && Claimable(q)
  {
    A.BothInRange(q);
    A.AheadIsStoredPrefix(q);
    O.StoredPrefixIsRaceFree(q);
    forall t | |q.popped| <= t < q.maxRead ensures 0 < q.cap && q.slots[t % q.cap] == Q.Holds(q.pushed[t]) {
      assert !O.Pending(q, t);
    }
  }

  lemma {:induction false} SoundStep(q: Q.State<Entry>, a: Q.Action<Entry>)
    requires Sound(q) && Q.Enabled(q, a) && |Q.Do(q, a).pushed| <= Q.MAX_PUSHES && A.PublishesByTicket(q, Q.Do(q, a))
    ensures Sound(Q.Do(q, a))
  {
    SoundInRange(q);
    O.StepOrdered(q, a);
    A.StepAhead(q, a);
  }

  /** What a step of the real logger is to the atomic one: nothing, or one step. */
  ghost predicate Refines(c: L.Config, w: World, w': World)
    requires w.q.read <= w.q.maxRead <= |w.q.pushed| && w'.q.read <= w'.q.maxRead <= |w'.q.pushed|
  {
    Abstract(w') == Abstract(w) || L.Next(c, Abstract(w), Abstract(w'))
  }

  /** Steps that leave the queue alone. */
  predicate LeavesQueue(w: World, a: Action) {
    a.Log? || a.Signal? || a.OwnerStep? || (a.ThreadStep? && !InRead(w))
  }

  /** What such a step is to the atomic logger. */
  function LoggerAction(a: Action): L.Action
    requires !a.Enter? && !a.Advance?
  {
    match a
    case Log(i, e) => L.Log(i, e)
    case Signal(i) => L.CallerStep(i)
    case ThreadStep => L.ThreadStep
    case OwnerStep => L.OwnerStep
  }

  lemma {:induction false} LoggerStepCoupled(c: L.Config, w: World, a: Action)
    requires Coupled(c, w) && Enabled(c, w, a) && LeavesQueue(w, a)
    ensures Coupled(c, Do(c, w, a)) && Do(c, w, a).q == w.q
  {
    hide Q.WellFormed;
  }

  lemma {:induction false} LoggerStepAbstract(c: L.Config, w: World, a: Action)
    requires A.InRange(w.q) && Enabled(c, w, a) && LeavesQueue(w, a)
    requires !w.q.consumer.Waiting? ==> InRead(w)
    ensures Do(c, w, a).q == w.q
    ensures L.Enabled(c, Abstract(w), LoggerAction(a)) && Abstract(Do(c, w, a)) == L.Do(c, Abstract(w), LoggerAction(a))
  {
    hide Q.WellFormed, A.Visible;
  }

  lemma {:induction false} LoggerStepRefines(c: L.Config, w: World, a: Action)
    requires Coupled(c, w) && A.InRange(w.q) && Enabled(c, w, a) && LeavesQueue(w, a)
    ensures Coupled(c, Do(c, w, a)) && Do(c, w, a).q == w.q && Refines(c, w, Do(c, w, a))
  {
    hide Abstract, Do, Enabled, L.Do, L.Enabled, Q.WellFormed;
    LoggerStepCoupled(c, w, a);
    LoggerStepAbstract(c, w, a);
  }

  lemma {:induction false} EnterRefines(c: L.Config, w: World, i: nat)
    requires Coupled(c, w) && Sound(w.q) && Enabled(c, w, Enter(i))
    ensures var w' := Do(c, w, Enter(i));
            Coupled(c, w') && Sound(w'.q) && A.InRange(w.q) && A.InRange(w'.q) && Refines(c, w, w')
  {
    var w' := Do(c, w, Enter(i));
    SoundInRange(w.q);
    assert A.PublishesByTicket(w.q, w'.q);
    SoundStep(w.q, Q.Call(i, w.log.callers[i].entry, c.policy.BlockWhenFull?));
  }

  /** There is room in the atomic queue when a push publishes. */
  lemma {:induction false} RoomToPublish(q: Q.State<Entry>, i: nat)
    requires Sound(q) && i < |q.producers| && q.producers[i].Stored?
    ensures A.InRange(q) && |A.Visible(q)| < q.cap
  {
    SoundInRange(q);
    Q.CountBounds(q.producers, Q.InFlight);
    Q.CountBounds(q.producers, Q.HoldsReservation);
  }

  lemma {:induction false} AdvanceCoupled(c: L.Config, w: World, i: nat)
    requires Coupled(c, w) && Enabled(c, w, Advance(i)) && w.q.write == |w.q.pushed|
    requires forall j :: 0 <= j < |w.q.producers| && w.q.producers[j].Ticketed? ==>
               w.q.producers[j].ticket < |w.q.pushed| && w.q.pushed[w.q.producers[j].ticket] == w.q.producers[j].value
    ensures Coupled(c, DoAdvance(c, w, i))
  {
    var w' := DoAdvance(c, w, i);
    forall j | 0 <= j < |w'.log.callers| ensures Matches(c, w'.log.callers[j], w'.q.producers[j], w'.q.pushed) {
      assert Matches(c, w.log.callers[j], w.q.producers[j], w.q.pushed);
      if j != i { assert w'.log.callers[j] == w.log.callers[j] && w'.q.producers[j] == w.q.producers[j]; }
    }
  }

  lemma {:induction false} AdvanceRefines(c: L.Config, w: World, i: nat)
    requires Coupled(c, w) && Sound(w.q) && Enabled(c, w, Advance(i))
    requires |Q.ProducerStep(w.q, i).pushed| <= Q.MAX_PUSHES && A.PublishesByTicket(w.q, Q.ProducerStep(w.q, i))
    ensures var w' := DoAdvance(c, w, i);
            Coupled(c, w') && Sound(w'.q) && A.InRange(w.q) && A.InRange(w'.q) && Refines(c, w, w')
  {
    var w', p := DoAdvance(c, w, i), w.q.producers[i];
    SoundInRange(w.q);
    SoundStep(w.q, Q.Advance(i));
    SoundInRange(w'.q);
    AdvanceCoupled(c, w, i);
    A.ProducerStepOnContents(w.q, i);
    AdvanceAbstract(c, w, i);
  }

  lemma {:induction false} AdvanceAbstract(c: L.Config, w: World, i: nat)
    requires Coupled(c, w) && Sound(w.q) && Enabled(c, w, Advance(i))
    requires A.InRange(w.q) && A.InRange(Q.ProducerStep(w.q, i)) && Claimable(w.q)
    requires var q', p := Q.ProducerStep(w.q, i), w.q.producers[i];
             if p.Stored? then p.ticket < |w.q.pushed| && A.Visible(q') == A.Visible(w.q) + [w.q.pushed[p.ticket]]
             else A.Visible(q') == A.Visible(w.q)
    ensures Refines(c, w, DoAdvance(c, w, i))
  {
    hide Sound, A.Visible, Q.WellFormed;
    var w', p := DoAdvance(c, w, i), w.q.producers[i];
    assert Matches(c, w.log.callers[i], p, w.q.pushed);
    SameClaim(w.q, i);
    assert ThreadOf(w') == ThreadOf(w);
    if p.Stored? {
      RoomToPublish(w.q, i);
      assert L.Enabled(c, Abstract(w), L.CallerStep(i)) && Abstract(w') == L.Do(c, Abstract(w), L.CallerStep(i));
    } else if p.Undoing? && !p.blocking {
      assert L.Enabled(c, Abstract(w), L.Refuse(i)) && Abstract(w') == L.Do(c, Abstract(w), L.Refuse(i));
    } else {
      assert Abstract(w') == Abstract(w);
    }
  }

  lemma {:induction false} SameClaim(q: Q.State<Entry>, i: nat)
    requires Q.Enabled(q, Q.Advance(i)) && Claimable(q)
    ensures Claimed(Q.ProducerStep(q, i)) == Claimed(q)
  {
  }

  lemma {:induction false} ReadOutcome(c: L.Config, w: World)
    requires Sound(w.q) && InRead(w) && Enabled(c, w, ThreadStep)
    ensures var q, q' := w.q, Q.ConsumerStep(w.q);
            && A.InRange(q) && A.InRange(q') && Sound(q')
            && A.Visible(q') == (if q.consumer.Checked? then A.Visible(q)[1..] else A.Visible(q))
            && (q.consumer.Checked? ==> A.Visible(q) != [] && Claimed(q') == [A.Visible(q)[0]])
            && (q.consumer.Waiting? ==> (q'.consumer.Waiting? <==> A.Visible(q) == []))
            && (q.consumer.Waiting? || q.consumer.Checked? ==> Claimed(q) == [])
            && (q'.consumer.Waiting? || q'.consumer.Checked? ==> Claimed(q') == [])
            && (q.consumer.Taking? ==> Claimed(q) != [] && Claimed(q') == Claimed(q))
            && (q.consumer.Releasing? ==> Claimed(q) == [q.popped[|q.popped| - 1].value] && Claimed(q') == [])
  {
    SoundInRange(w.q);
    assert A.PublishesByTicket(w.q, Q.ConsumerStep(w.q));
    SoundStep(w.q, Q.Consume);
    SoundInRange(Q.ConsumerStep(w.q));
    A.ConsumerStepOnContents(w.q);
  }

  lemma {:induction false} ReadRefines(c: L.Config, w: World)
    requires Coupled(c, w) && Sound(w.q) && InRead(w) && Enabled(c, w, ThreadStep)
    ensures var w' := DoRead(c, w);
            Coupled(c, w') && Sound(w'.q) && A.InRange(w.q) && A.InRange(w'.q) && Refines(c, w, w')
  {
    hide Sound, A.Visible, Q.WellFormed, Claimed;
    ReadOutcome(c, w);
    var w' := DoRead(c, w);
    if (w.q.consumer.Waiting? && w'.q.consumer.Waiting?) || w.q.consumer.Checked? {
      assert L.Enabled(c, Abstract(w), L.ThreadStep) && Abstract(w') == L.Do(c, Abstract(w), L.ThreadStep);
    } else {
      assert Abstract(w') == Abstract(w);
    }
  }

  lemma {:induction false} StepRefines(c: L.Config, w: World, a: Action)
    requires Coupled(c, w) && Sound(w.q) && Enabled(c, w, a)
    requires |Do(c, w, a).q.pushed| <= Q.MAX_PUSHES && A.PublishesByTicket(w.q, Do(c, w, a).q)
    ensures var w' := Do(c, w, a);
            Coupled(c, w') && Sound(w'.q) && A.InRange(w.q) && A.InRange(w'.q) && Refines(c, w, w')
  {
    hide Sound, Coupled, Refines, Q.WellFormed;
    SoundInRange(w.q);
    match a
    case Enter(i) => EnterRefines(c, w, i);
    case Advance(i) => AdvanceRefines(c, w, i);
    case _ =>
      if a.ThreadStep? && InRead(w) {
        ReadRefines(c, w);
      } else {
        LoggerStepRefines(c, w, a);
      }
  }

  lemma {:induction false} InitCoupled(c: L.Config, w: World)
    requires Init(c, w)
    ensures Coupled(c, w) && Sound(w.q) && A.InRange(w.q) && L.Init(c, Abstract(w))
  {
    O.InitOrdered(w.q);
  }

  /** `s` is what some state of `ws` up to `k` is to the atomic logger. */
  ghost predicate ComesFrom(ws: seq<World>, k: nat, s: L.State)
    requires k < |ws|
  {
    exists j :: 0 <= j <= k && A.InRange(ws[j].q) && s == Abstract(ws[j])
  }

  /** Every state of a run over the real queue in which callers publish by ticket is a state of a run
      over an atomic queue, all of whose states come from that run. */
  lemma {:induction false} RefinesAtomicLogger(c: L.Config, ws: seq<World>, k: nat) returns (ss: seq<L.State>)
    requires Run(c, ws) && ByTicket(ws) && k < |ws|
    ensures Coupled(c, ws[k]) && Sound(ws[k].q) && A.InRange(ws[k].q)
    ensures L.Run(c, ss) && ss[|ss| - 1] == Abstract(ws[k])
    ensures forall m :: 0 <= m < |ss| ==> ComesFrom(ws, k, ss[m])
  {
    hide Coupled, Sound, Abstract, Init, L.Next, L.Init, L.StepAt;
    if k == 0 {
      InitCoupled(c, ws[0]);
      ss := [Abstract(ws[0])];
      assert ComesFrom(ws, 0, ss[0]);
    } else {
      var before := RefinesAtomicLogger(c, ws, k - 1);
      assert StepAt(c, ws, k) && A.PublishesByTicket(ws[k - 1].q, ws[k].q);
      NextRefines(c, ws[k - 1], ws[k]);
      forall m | 0 <= m < |before| ensures ComesFrom(ws, k, before[m]) {
        ComesFromLater(ws, k, before[m]);
      }
      assert ComesFrom(ws, k, Abstract(ws[k]));
      ss := before;
      if Abstract(ws[k]) != Abstract(ws[k - 1]) {
        ss := ExtendAbstract(c, before, Abstract(ws[k]));
      }
    }
  }

  lemma {:induction false} ComesFromLater(ws: seq<World>, k: nat, s: L.State)
    requires 0 < k < |ws| && ComesFrom(ws, k - 1, s)
    ensures ComesFrom(ws, k, s)
  {
    hide Abstract;
  }

  lemma {:induction false} NextRefines(c: L.Config, w: World, w': World)
    requires Coupled(c, w) && Sound(w.q) && Next(c, w, w')
    requires |w'.q.pushed| <= Q.MAX_PUSHES && A.PublishesByTicket(w.q, w'.q)
    ensures Coupled(c, w') && Sound(w'.q) && A.InRange(w.q) && A.InRange(w'.q) && Refines(c, w, w')
  {
    hide Sound, Coupled, Refines, Enabled, Do, A.InRange;
    var a :| Enabled(c, w, a) && w' == Do(c, w, a);
    StepRefines(c, w, a);
  }

  lemma {:induction false} ExtendAbstract(c: L.Config, ss: seq<L.State>, s: L.State) returns (ss': seq<L.State>)
    requires L.Run(c, ss) && L.Next(c, ss[|ss| - 1], s)
    ensures L.Run(c, ss') && ss' == ss + [s]
  {
    hide L.Next, L.Init;
    ss' := ss + [s];
    forall k | 0 < k < |ss'| ensures L.StepAt(c, ss', k) {
      if k < |ss| { assert L.StepAt(c, ss, k); }
    }
  }

  // ---------------------------------------------------------------------------------------------
  // What the real logger keeps

  /** Over the real queue, in every state: delivered, in hand (or claimed by a read) and visible in the
      queue make up exactly what was accepted, in order; and the stop protocol is in order. */
  lemma {:induction false} NothingLostOverQueue(c: L.Config, ws: seq<World>, k: nat)
    requires Run(c, ws) && ByTicket(ws) && k < |ws|
    ensures A.InRange(ws[k].q) && L.Inv(c, Abstract(ws[k]))
    ensures var log := ws[k].log;
            log.delivered + L.InHand(ThreadOf(ws[k])) + A.Visible(ws[k].q) == log.accepted
  {
    hide Run, ByTicket, Coupled, Sound, A.Visible, L.HandedOver, L.Stoppable;
    var ss := RefinesAtomicLogger(c, ws, k);
    L.InvInEveryState(c, ss, |ss| - 1);
  }

  /** Step `i` accepts an entry after the flush loop has ended. */
  predicate LatePush(ws: seq<World>, i: nat)
    requires 0 < i < |ws|
  {
    ws[i - 1].log.thread.Done? && |ws[i].log.accepted| > |ws[i - 1].log.accepted|
  }

  ghost predicate NoLatePush(ws: seq<World>, k: nat)
    requires k < |ws|
  {
    forall i :: 0 < i <= k ==> !LatePush(ws, i)
  }

  lemma {:induction false} StepAfterFlush(c: L.Config, w: World, w': World)
    requires A.InRange(w.q) && A.InRange(w'.q) && Refines(c, w, w')
    ensures w.log.thread.Done? ==>
              && w'.log.thread.Done?
              && (if |w'.log.accepted| > |w.log.accepted| then A.Visible(w'.q) != []
                  else A.Visible(w'.q) == A.Visible(w.q))
    ensures !w.log.thread.Done? && w'.log.thread.Done? ==> A.Visible(w'.q) == []
  {
    hide L.Next, A.Visible;
    assert w.log.thread.Done? <==> Abstract(w).thread.Done?;
    assert w'.log.thread.Done? <==> Abstract(w').thread.Done?;
    if Abstract(w') != Abstract(w) {
      S.StepAfterFlush(c, Abstract(w), Abstract(w'));
    }
  }

  lemma {:induction false} DrainedIffNoLatePush(c: L.Config, ws: seq<World>, k: nat)
    requires Run(c, ws) && ByTicket(ws) && k < |ws|
    ensures Coupled(c, ws[k]) && Sound(ws[k].q) && A.InRange(ws[k].q)
    ensures ws[k].log.thread.Done? ==> (A.Visible(ws[k].q) == [] <==> NoLatePush(ws, k))
    ensures !ws[k].log.thread.Done? ==> NoLatePush(ws, k)
  {
    hide Coupled, Sound, Init, Refines, Next, A.Visible, A.InRange, A.PublishesByTicket;
    if k == 0 {
      InitCoupled(c, ws[0]);
      InitNotDone(c, ws[0]);
    } else {
      DrainedIffNoLatePush(c, ws, k - 1);
      assert StepAt(c, ws, k) && A.PublishesByTicket(ws[k - 1].q, ws[k].q);
      NextRefines(c, ws[k - 1], ws[k]);
      StepAfterFlush(c, ws[k - 1], ws[k]);
      assert NoLatePush(ws, k) <==> NoLatePush(ws, k - 1) && !LatePush(ws, k);
    }
  }

  lemma {:induction false} InitNotDone(c: L.Config, w: World)
    requires Init(c, w)
    ensures !w.log.thread.Done?
  {
  }

  /** Over the real queue, after `join` each sink has been handed what the synchronous logger hands it
      for the same calls if and only if no entry was accepted after the flush loop ended. */
  lemma {:induction false} JoinedOverQueueIff(c: L.Config, ws: seq<World>, k: nat, j: nat)
    requires Run(c, ws) && ByTicket(ws) && k < |ws| && ws[k].log.owner.Joined? && j < |c.sinks|
    ensures |ws[k].log.handed| == |ws[k].log.emitted| == |c.sinks|
    ensures ws[k].log.handed[j] == Keep(ws[k].log.ok, c.minimum + 1) <==> NoLatePush(ws, k)
    ensures NoLatePush(ws, k) ==>
              ws[k].log.emitted[j]
              == Keep(ws[k].log.ok, if c.minimum + 1 < c.sinks[j] then c.sinks[j] else c.minimum + 1)
  {
    hide Run, ByTicket, NoLatePush;
    var s := ws[k].log;
    NothingLostOverQueue(c, ws, k);
    DrainedIffNoLatePush(c, ws, k);
    var q := A.Visible(ws[k].q);
    assert s.delivered + [] + q == s.accepted == Keep(s.ok, c.minimum + 1);
    assert s.handed[j] == s.delivered + [] == s.delivered;
    assert s.delivered == s.accepted <==> q == [];
    KeepTwice(s.ok, c.minimum + 1, c.sinks[j]);
  }

  // ---------------------------------------------------------------------------------------------
  // One caller

  lemma {:induction false} QueueStep(c: L.Config, w: World, w': World)
    requires Next(c, w, w')
    ensures w'.q == w.q || Q.Next(w.q, w'.q)
  {
    var a :| Enabled(c, w, a) && w' == Do(c, w, a);
    match a
    case Enter(i) =>
      var b := Q.Call(i, w.log.callers[i].entry, c.policy.BlockWhenFull?);
      assert Q.Enabled(w.q, b) && w'.q == Q.Do(w.q, b);
    case Advance(i) => assert Q.Enabled(w.q, Q.Advance(i)) && w'.q == Q.Do(w.q, Q.Advance(i));
    case ThreadStep =>
      if InRead(w) { assert Q.Enabled(w.q, Q.Consume) && w'.q == Q.Do(w.q, Q.Consume); }
    case _ =>
  }

  lemma {:induction false} NewestInEveryState(c: L.Config, ws: seq<World>, k: nat)
    requires Run(c, ws) && k < |ws| && |ws[0].log.callers| == 1
    ensures Q.Counted(ws[k].q) && A.HoldsNewest(ws[k].q)
  {
    hide Next, Q.WellFormed, Q.Balanced, Q.Tickets, Q.Do, Q.Enabled;
    if k == 0 {
      Q.InitCounted(ws[0].q);
    } else {
      NewestInEveryState(c, ws, k - 1);
      assert StepAt(c, ws, k);
      QueueStep(c, ws[k - 1], ws[k]);
      if ws[k].q != ws[k - 1].q { NextNewest(ws[k - 1].q, ws[k].q); }
    }
  }

  lemma {:induction false} NextNewest(q: Q.State<Entry>, q': Q.State<Entry>)
    requires Q.Counted(q) && A.HoldsNewest(q) && Q.Next(q, q') && |q'.pushed| <= Q.MAX_PUSHES
    ensures Q.Counted(q') && A.HoldsNewest(q')
  {
    O.NextCounted(q, q');
    var a :| Q.Enabled(q, a) && q' == Q.Do(q, a);
    A.StepNewest(q, a);
  }

  /** A logger used by one caller publishes by ticket, so all of the above holds of it. */
  lemma {:induction false} OneCallerByTicket(c: L.Config, ws: seq<World>)
    requires Run(c, ws) && |ws[0].log.callers| == 1
    ensures ByTicket(ws)
  {
    forall k | 0 < k < |ws| ensures A.PublishesByTicket(ws[k - 1].q, ws[k].q) {
      NewestInEveryState(c, ws, k - 1);
      Q.CountBounds(ws[k - 1].q.producers, Q.InFlight);
    }
  }

  // ---------------------------------------------------------------------------------------------
  // Concurrent callers

  lemma {:induction false} Extend(c: L.Config, ws: seq<World>, a: Action) returns (ws': seq<World>)
    requires Run(c, ws) && Enabled(c, ws[|ws| - 1], a) && |Do(c, ws[|ws| - 1], a).q.pushed| <= Q.MAX_PUSHES
    ensures Run(c, ws') && |ws'| > 0 && ws'[|ws'| - 1] == Do(c, ws[|ws| - 1], a)
  {
    hide Do, Enabled, Init;
    ws' := ws + [Do(c, ws[|ws| - 1], a)];
    forall k | 0 < k < |ws'| ensures StepAt(c, ws', k) {
      if k < |ws| {
        assert StepAt(c, ws, k);
      } else {
        assert Enabled(c, ws'[k - 1], a) && ws'[k] == Do(c, ws'[k - 1], a);
      }
    }
  }

  /** The logger before anything has been delivered, with the given callers. */
  function Fresh(c: L.Config, callers: seq<L.Caller>): L.State {
    var none := seq(|c.sinks|, _ => []);
    L.State([], 0, callers, L.Testing, L.Running, [], [], [], none, none, 0, 0)
  }

  /** Two callers of a MultiThreadedAsync logger, the first with a ticket, the second at its push. */
  lemma {:induction false} FirstCallerTicketed(c: L.Config, e: Entry, f: Entry) returns (ws: seq<World>)
    requires !c.signals && c.queueSize == 2 && e.level > c.minimum && f.level > c.minimum
    ensures Run(c, ws)
    ensures ws[|ws| - 1]
         == World(Q.State(2, [Q.Unset, Q.Unset], 0, 1, 0, 1, [Q.Ticketed(e, 0), Q.Idle], Q.Waiting, [e], []),
                  Fresh(c, [L.Pushing(e), L.Pushing(f)]))
  {
    ws := [World(Q.State(2, [Q.Unset, Q.Unset], 0, 0, 0, 0, [Q.Idle, Q.Idle], Q.Waiting, [], []),
                 Fresh(c, [L.Idle, L.Idle]))];
    ws := Extend(c, ws, Log(0, e));
    ws := Extend(c, ws, Log(1, f));
    ws := Extend(c, ws, Enter(0));
    ws := Extend(c, ws, Advance(0));
    ws := Extend(c, ws, Advance(0));
  }

  /** Both callers have a ticket, and neither has its entry stored. */
  lemma {:induction false} TwoCallersTicketed(c: L.Config, e: Entry, f: Entry) returns (ws: seq<World>)
    requires !c.signals && c.queueSize == 2 && e.level > c.minimum && f.level > c.minimum
    ensures Run(c, ws)
    ensures ws[|ws| - 1]
         == World(Q.State(2, [Q.Unset, Q.Unset], 0, 2, 0, 2, [Q.Ticketed(e, 0), Q.Ticketed(f, 1)], Q.Waiting,
                          [e, f], []),
                  Fresh(c, [L.Pushing(e), L.Pushing(f)]))
  {
    ws := FirstCallerTicketed(c, e, f);
    ws := Extend(c, ws, Enter(1));
    ws := Extend(c, ws, Advance(1));
    ws := Extend(c, ws, Advance(1));
  }

  /** Publishing by ticket is not made up: two callers, the second publishes first, and the logging
      thread takes an entry out of a slot in which none was ever stored. */
  lemma {:induction false} ConcurrentCallersReadNothing(c: L.Config, e: Entry, f: Entry) returns (ws: seq<World>)
    requires !c.signals && c.queueSize == 2 && e.level > c.minimum && f.level > c.minimum
    ensures Run(c, ws) && InRead(ws[|ws| - 1]) && ws[|ws| - 1].log.accepted == [f]
    ensures ws[|ws| - 1].q.consumer.Releasing? && ws[|ws| - 1].q.popped == [Q.Unset]
  {
    ws := TwoCallersTicketed(c, e, f);
    ws := Extend(c, ws, Advance(1));
    ws := Extend(c, ws, Advance(1));
    assert ws[|ws| - 1].q
        == Q.State(2, [Q.Unset, Q.Holds(f)], 0, 2, 1, 2, [Q.Ticketed(e, 0), Q.Idle], Q.Waiting, [e, f], []);
    ws := Extend(c, ws, ThreadStep);
    ws := Extend(c, ws, ThreadStep);
    ws := Extend(c, ws, ThreadStep);
    ws := Extend(c, ws, ThreadStep);
  }
}
