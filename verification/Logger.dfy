/**
 The asynchronous logger as a step system: any number of callers inside `log`, the logging thread,
 the queue, the semaphore, and the destructor. The queue is a bounded first-in, first-out queue whose
 operations are atomic; LoggerQueue shows that the real one behaves so. The semaphore is a natural
 number.
 */
module Logger {
  import opened LogSinks

  datatype Policy = DropWhenFull | BlockWhenFull

  /** `signals` tells the SingleThreadedAsync logger, whose `log` releases the semaphore before it
      pushes, from the MultiThreadedAsync logger, whose `log` never does. */
  datatype Config = Config(signals: bool, policy: Policy, minimum: Level, queueSize: nat, sinks: seq<Level>)

  /** A caller inside `log`: about to release the semaphore, or about to push. */
  datatype Caller = Idle | Signalling(entry: Entry) | Pushing(entry: Entry)

  /** The logging thread: the main loop (test, read, hand over, acquire), then the flush loop. */
  datatype Thread =
    | Testing
    | Reading
    | Delivering(entry: Entry, next: nat)
    | Acquiring
    | FlushReading
    | FlushDelivering(entry: Entry, next: nat)
    | Done

  /** The destructor: not started, stop flag set, semaphore released and waiting, returned. */
  datatype Owner = Running | StopSet | Joining | Joined

  /** `ok` lists the calls of `log` that returned Ok, in the order in which they took effect. */
  datatype State = State(
    queue: seq<Entry>, sem: nat, callers: seq<Caller>, thread: Thread, owner: Owner,
    ok: seq<Entry>, accepted: seq<Entry>, delivered: seq<Entry>,
    handed: seq<seq<Entry>>, emitted: seq<seq<Entry>>, failedReads: nat, rejected: nat)

  datatype Action =
    | Log(caller: nat, entry: Entry)
    | CallerStep(caller: nat)
    | Refuse(caller: nat)
    | ThreadStep
    | OwnerStep

  predicate Stopping(s: State) {
    !s.owner.Running?
  }

  predicate Enabled(c: Config, s: State, a: Action) {
    match a
    case Log(i, _) => i < |s.callers| && s.callers[i].Idle?
    case CallerStep(i) =>
      i < |s.callers| && !s.callers[i].Idle? && (s.callers[i].Pushing? ==> |s.queue| < c.queueSize)
    case Refuse(i) => i < |s.callers| && s.callers[i].Pushing? && c.policy.DropWhenFull?
    case ThreadStep =>
      && |s.handed| == |s.emitted| == |c.sinks|
      && !s.thread.Done? && (s.thread.Acquiring? ==> s.sem > 0)
    case OwnerStep => !s.owner.Joined? && (s.owner.Joining? ==> s.thread.Done?)
  }

  /** Entry into `log`: an entry that is not above the minimum level is dropped with Ok. */
  function Begin(c: Config, s: State, i: nat, e: Entry): State
    requires Enabled(c, s, Log(i, e))
  {
    if e.level > c.minimum then s.(callers := s.callers[i := if c.signals then Signalling(e) else Pushing(e)])
    else s.(ok := s.ok + [e])
  }

  function DoCaller(c: Config, s: State, i: nat): State
    requires Enabled(c, s, CallerStep(i))
  {
    match s.callers[i]
    case Signalling(e) => s.(sem := s.sem + 1, callers := s.callers[i := Pushing(e)])
    case Pushing(e) =>
      s.(queue := s.queue + [e], accepted := s.accepted + [e], ok := s.ok + [e], callers := s.callers[i := Idle])
  }

  /** A push that the queue turns down. The queue may do so when it is not full, while other calls are
      in progress (see LockFreeQueueAtomic.RefusedByHeld), so no condition on `queue` is made here. */
  function DoRefuse(c: Config, s: State, i: nat): State
    requires Enabled(c, s, Refuse(i))
  {
    s.(rejected := s.rejected + 1, callers := s.callers[i := Idle])
  }

  /** Hands `e` to sink `k`, which writes it if the level reaches its own. */
  function Hand(c: Config, s: State, e: Entry, k: nat): State
    requires k < |c.sinks| == |s.handed| == |s.emitted|
  {
    s.(handed := s.handed[k := s.handed[k] + [e]],
       emitted := if e.level >= c.sinks[k] then s.emitted[k := s.emitted[k] + [e]] else s.emitted)
  }

  function DoThread(c: Config, s: State): State
    requires Enabled(c, s, ThreadStep)
  {
    match s.thread
    case Testing => s.(thread := if Stopping(s) then FlushReading else Reading)
    case Reading =>
      if s.queue == [] then s.(thread := Acquiring, failedReads := s.failedReads + 1)
      else s.(thread := Delivering(s.queue[0], 0), queue := s.queue[1..])
    case Delivering(e, k) =>
      if k < |c.sinks| then Hand(c, s, e, k).(thread := Delivering(e, k + 1))
      else s.(thread := Acquiring, delivered := s.delivered + [e])
    case Acquiring => s.(thread := Testing, sem := s.sem - 1)
    case FlushReading =>
      if s.queue == [] then s.(thread := Done)
      else s.(thread := FlushDelivering(s.queue[0], 0), queue := s.queue[1..])
    case FlushDelivering(e, k) =>
      if k < |c.sinks| then Hand(c, s, e, k).(thread := FlushDelivering(e, k + 1))
      else s.(thread := FlushReading, delivered := s.delivered + [e])
  }

  function DoOwner(s: State): State
    requires !s.owner.Joined?
  {
    match s.owner
    case Running => s.(owner := StopSet)
    case StopSet => s.(owner := Joining, sem := s.sem + 1)
    case Joining => s.(owner := Joined)
  }

  function Do(c: Config, s: State, a: Action): State
    requires Enabled(c, s, a)
  {
    match a
    case Log(i, e) => Begin(c, s, i, e)
    case CallerStep(i) => DoCaller(c, s, i)
    case Refuse(i) => DoRefuse(c, s, i)
    case ThreadStep => DoThread(c, s)
    case OwnerStep => DoOwner(s)
  }

  ghost predicate Init(c: Config, s: State) {
    && s.queue == [] && s.sem == 0 && s.thread.Testing? && s.owner.Running?
    && (forall i :: 0 <= i < |s.callers| ==> s.callers[i].Idle?)
    && s.ok == [] && s.accepted == [] && s.delivered == [] && s.failedReads == 0 && s.rejected == 0
    && |s.handed| == |s.emitted| == |c.sinks|
    && (forall k :: 0 <= k < |c.sinks| ==> s.handed[k] == [] && s.emitted[k] == [])
  }

  ghost predicate Next(c: Config, s: State, s': State) {
    exists a :: Enabled(c, s, a) && s' == Do(c, s, a)
  }

  ghost predicate StepAt(c: Config, ss: seq<State>, k: nat)
    requires 0 < k < |ss|
  {
    Next(c, ss[k - 1], ss[k])
  }

  ghost predicate Run(c: Config, ss: seq<State>) {
    |ss| > 0 && Init(c, ss[0]) && forall k :: 0 < k < |ss| ==> StepAt(c, ss, k)
  }

  // ---------------------------------------------------------------------------------------------
  // Nothing is lost, repeated or reordered

  /** The entry the logging thread is handing over, if any. */
  function InHand(t: Thread): seq<Entry> {
    if t.Delivering? || t.FlushDelivering? then [t.entry] else []
  }

  /** Whether the thread has handed the entry in its hand to sink `k` already. */
  function Partial(t: Thread, k: nat): seq<Entry> {
    if (t.Delivering? || t.FlushDelivering?) && k < t.next then [t.entry] else []
  }

  predicate Conserved(c: Config, s: State) {
    && s.delivered + InHand(s.thread) + s.queue == s.accepted
    && |s.queue| <= c.queueSize
    && s.accepted == Keep(s.ok, c.minimum + 1)
    && (forall i :: 0 <= i < |s.callers| && !s.callers[i].Idle? ==> s.callers[i].entry.level > c.minimum)
  }

  predicate HandedOver(c: Config, s: State) {
    && |s.handed| == |s.emitted| == |c.sinks|
    && (s.thread.Delivering? || s.thread.FlushDelivering? ==> s.thread.next <= |c.sinks|)
    && (forall k :: 0 <= k < |c.sinks| ==> s.handed[k] == s.delivered + Partial(s.thread, k))
    && (forall k :: 0 <= k < |c.sinks| ==> s.emitted[k] == Keep(s.handed[k], c.sinks[k]))
  }

  predicate InMainLoop(t: Thread) {
    t.Reading? || t.Delivering? || t.Acquiring?
  }

  /** The stop protocol: the flush loop runs only after the stop request, and once the destructor
      has released the semaphore a thread that may still acquire will find it positive. */
  predicate Stoppable(s: State) {
    && (s.thread.FlushReading? || s.thread.FlushDelivering? || s.thread.Done? ==> Stopping(s))
    && ((s.owner.Joining? || s.owner.Joined?) && InMainLoop(s.thread) ==> s.sem > 0)
    && (s.owner.Joined? ==> s.thread.Done?)
  }

  predicate Inv(c: Config, s: State) {
    Conserved(c, s) && HandedOver(c, s) && Stoppable(s)
  }

  lemma {:induction false} CallerConserved(c: Config, s: State, i: nat)
    requires Conserved(c, s) && Enabled(c, s, CallerStep(i))
    ensures Conserved(c, DoCaller(c, s, i))
  {
    hide Keep;
    KeepAppend(s.ok, s.callers[i].entry, c.minimum + 1);
    var taken := s.delivered + InHand(s.thread);
    assert taken + (s.queue + [s.callers[i].entry]) == taken + s.queue + [s.callers[i].entry];
  }

  lemma {:induction false} ThreadConserved(c: Config, s: State)
    requires Conserved(c, s) && Enabled(c, s, ThreadStep)
    ensures Conserved(c, DoThread(c, s))
  {
    hide Keep;
  }

  lemma {:induction false} StepConserved(c: Config, s: State, a: Action)
    requires Conserved(c, s) && Enabled(c, s, a)
    ensures Conserved(c, Do(c, s, a))
  {
    hide Keep;
    match a
    case Log(i, e) => KeepAppend(s.ok, e, c.minimum + 1);
    case CallerStep(i) => CallerConserved(c, s, i);
    case Refuse(i) =>
    case ThreadStep => ThreadConserved(c, s);
    case OwnerStep =>
  }

  lemma {:induction false} ThreadHandsOver(c: Config, s: State)
    requires HandedOver(c, s) && Enabled(c, s, ThreadStep)
    requires (s.thread.Delivering? || s.thread.FlushDelivering?) && s.thread.next < |c.sinks|
    ensures HandedOver(c, DoThread(c, s))
  {
    hide Keep;
    var e, k := s.thread.entry, s.thread.next;
    KeepAppend(s.handed[k], e, c.sinks[k]);
    var s' := DoThread(c, s);
    forall j | 0 <= j < |c.sinks|
      ensures s'.handed[j] == s'.delivered + Partial(s'.thread, j) && s'.emitted[j] == Keep(s'.handed[j], c.sinks[j])
    {
      assert j != k ==> Partial(s'.thread, j) == Partial(s.thread, j);
    }
  }

  lemma {:induction false} StepHandedOver(c: Config, s: State, a: Action)
    requires HandedOver(c, s) && Enabled(c, s, a)
    ensures HandedOver(c, Do(c, s, a))
  {
    hide Keep;
    if a.ThreadStep? {
      if (s.thread.Delivering? || s.thread.FlushDelivering?) && s.thread.next < |c.sinks| {
        ThreadHandsOver(c, s);
      } else {
        var s' := Do(c, s, a);
        assert forall j :: 0 <= j < |c.sinks| ==>
                 s'.delivered + Partial(s'.thread, j) == s.delivered + Partial(s.thread, j);
      }
    }
  }

  lemma {:induction false} StepStoppable(c: Config, s: State, a: Action)
    requires Stoppable(s) && Enabled(c, s, a)
    ensures Stoppable(Do(c, s, a))
  {
  }

  lemma {:induction false} InvInEveryState(c: Config, ss: seq<State>, k: nat)
    requires Run(c, ss) && k < |ss|
    ensures Inv(c, ss[k])
  {
    if k > 0 {
      InvInEveryState(c, ss, k - 1);
      assert StepAt(c, ss, k);
      var a :| Enabled(c, ss[k - 1], a) && ss[k] == Do(c, ss[k - 1], a);
      StepConserved(c, ss[k - 1], a);
      StepHandedOver(c, ss[k - 1], a);
      StepStoppable(c, ss[k - 1], a);
    }
  }
}
