/**
 The wake-up of the logging thread. The MultiThreadedAsync `log` never releases the semaphore; the
 SingleThreadedAsync `log` releases it before it pushes. Neither affects what is delivered by the end
 of shutdown (see LoggerShutdown), but both affect when.
 */
module LoggerWakeups {
  import opened LogSinks
  import opened Logger
  import opened LoggerShutdown

  function Last(ss: seq<State>): State
    requires |ss| > 0
  {
    ss[|ss| - 1]
  }

  lemma {:induction false} Extend(c: Config, ss: seq<State>, a: Action) returns (ss': seq<State>)
    requires Run(c, ss) && Enabled(c, Last(ss), a)
    ensures Run(c, ss') && Last(ss') == Do(c, Last(ss), a)
  {
    hide Do, Enabled, Init;
    ss' := ss + [Do(c, Last(ss), a)];
    forall k | 0 < k < |ss'| ensures StepAt(c, ss', k) {
      if k < |ss| {
        assert StepAt(c, ss, k);
      } else {
        assert Enabled(c, ss'[k - 1], a) && ss'[k] == Do(c, ss'[k - 1], a);
      }
    }
  }

  // ---------------------------------------------------------------------------------------------
  // MultiThreadedAsync

  /** Until the destructor starts, the thread has read at most once and nobody will wake it again. */
  predicate Unsignalled(s: State) {
    s.owner.Running? ==>
      && s.sem == 0
      && (forall i :: 0 <= i < |s.callers| ==> !s.callers[i].Signalling?)
      && (s.thread.Testing? || s.thread.Reading? || s.thread.Delivering? || s.thread.Acquiring?)
      && |s.delivered| <= (if s.thread.Acquiring? then 1 else 0)
  }

  lemma {:induction false} StepUnsignalled(c: Config, s: State, a: Action)
    requires !c.signals && Unsignalled(s) && Enabled(c, s, a)
    ensures Unsignalled(Do(c, s, a))
  {
  }

  lemma {:induction false} UnsignalledInEveryState(c: Config, ss: seq<State>, k: nat)
    requires Run(c, ss) && k < |ss| && !c.signals
    ensures Unsignalled(ss[k])
  {
    if k > 0 {
      UnsignalledInEveryState(c, ss, k - 1);
      assert StepAt(c, ss, k);
      var a :| Enabled(c, ss[k - 1], a) && ss[k] == Do(c, ss[k - 1], a);
      StepUnsignalled(c, ss[k - 1], a);
    }
  }

  /** A MultiThreadedAsync logger takes at most one entry off its queue, and so accepts at most one
      more than the queue holds, before its destructor starts. */
  lemma {:induction false} MultiThreadedAcceptsLittle(c: Config, ss: seq<State>, k: nat)
    requires Run(c, ss) && k < |ss| && !c.signals && ss[k].owner.Running?
    ensures |ss[k].delivered + InHand(ss[k].thread)| <= 1
    ensures |ss[k].accepted| <= c.queueSize + 1
    ensures ss[k].thread.Acquiring? ==> !Enabled(c, ss[k], ThreadStep)
  {
    UnsignalledInEveryState(c, ss, k);
    InvInEveryState(c, ss, k);
  }

  /** The thread is asleep and the queue is full. */
  predicate Clogged(c: Config, s: State) {
    !c.signals && c.policy.BlockWhenFull? && Unsignalled(s) && s.thread.Acquiring? && |s.queue| == c.queueSize
  }

  /** Nothing but the destructor unclogs the logger: no blocked caller ever gets on. */
  lemma {:induction false} CloggedUntilDestroyed(c: Config, s: State, a: Action)
    requires Clogged(c, s) && s.owner.Running? && Enabled(c, s, a) && !a.OwnerStep?
    ensures a.Log? && Clogged(c, Do(c, s, a)) && Do(c, s, a).accepted == s.accepted
    ensures forall i :: 0 <= i < |s.callers| && s.callers[i].Pushing? ==> Do(c, s, a).callers[i] == s.callers[i]
  {
  }

  lemma {:induction false} FillQueue(c: Config, e: Entry, n: nat) returns (ss: seq<State>)
    requires !c.signals && n <= c.queueSize && e.level > c.minimum
    ensures Run(c, ss) && Last(ss).thread.Acquiring? && Last(ss).callers == [Idle] && Last(ss).owner.Running?
    ensures |Last(ss).queue| == n
  {
    if n == 0 {
      var none := seq(|c.sinks|, _ => []);
      ss := [State([], 0, [Idle], Testing, Running, [], [], [], none, none, 0, 0)];
      ss := Extend(c, ss, ThreadStep);
      ss := Extend(c, ss, ThreadStep);
    } else {
      ss := FillQueue(c, e, n - 1);
      ss := Extend(c, ss, Log(0, e));
      ss := Extend(c, ss, CallerStep(0));
    }
  }

  /** Every blocking MultiThreadedAsync logger that logs anything at all can be clogged by one caller. */
  lemma {:induction false} MultiThreadedCanClog(c: Config, e: Entry) returns (ss: seq<State>)
    requires !c.signals && c.policy.BlockWhenFull? && e.level > c.minimum
    ensures Run(c, ss) && Clogged(c, Last(ss)) && Last(ss).owner.Running? && Last(ss).callers == [Pushing(e)]
  {
    ss := FillQueue(c, e, c.queueSize);
    ss := Extend(c, ss, Log(0, e));
    UnsignalledInEveryState(c, ss, |ss| - 1);
  }

  // ---------------------------------------------------------------------------------------------
  // SingleThreadedAsync

  function Pushers(callers: seq<Caller>): nat {
    if callers == [] then 0 else (if callers[0].Pushing? then 1 else 0) + Pushers(callers[1..])
  }

  lemma {:induction false} PushersUpdate(callers: seq<Caller>, i: nat, p: Caller)
    requires i < |callers|
    ensures Pushers(callers[i := p])
         == Pushers(callers) - (if callers[i].Pushing? then 1 else 0) + (if p.Pushing? then 1 else 0)
  {
    if i == 0 {
      assert callers[i := p][1..] == callers[1..];
    } else {
      PushersUpdate(callers[1..], i - 1, p);
      assert callers[i := p][1..] == callers[1..][i - 1 := p];
    }
  }

  lemma {:induction false} QuietHasNoPushers(callers: seq<Caller>)
    requires forall i :: 0 <= i < |callers| ==> callers[i].Idle?
    ensures Pushers(callers) == 0
  {
    if callers != [] {
      QuietHasNoPushers(callers[1..]);
    }
  }

  /** How often the thread has acquired: once for each read but the one after which it has not yet. */
  function Acquired(s: State): int {
    |s.delivered| + |InHand(s.thread)| + s.failedReads - (if s.thread.Delivering? || s.thread.Acquiring? then 1 else 0)
  }

  /** Every release of the semaphore is accounted for, until the destructor starts. */
  predicate Accounted(s: State) {
    s.owner.Running? ==>
      && !(s.thread.FlushReading? || s.thread.FlushDelivering? || s.thread.Done?)
      && s.sem + Acquired(s) == |s.accepted| + s.rejected + Pushers(s.callers)
  }

  lemma {:induction false} StepAccounted(c: Config, s: State, a: Action)
    requires c.signals && Accounted(s) && Enabled(c, s, a)
    ensures Accounted(Do(c, s, a))
  {
    hide Pushers, Hand;
    match a
    case Log(i, e) => PushersUpdate(s.callers, i, Signalling(e));
    case CallerStep(i) => PushersUpdate(s.callers, i, Do(c, s, a).callers[i]);
    case Refuse(i) => PushersUpdate(s.callers, i, Idle);
    case ThreadStep => ThreadAccounted(c, s);
    case OwnerStep =>
  }

  lemma {:induction false} ThreadAccounted(c: Config, s: State)
    requires Accounted(s) && Enabled(c, s, ThreadStep)
    ensures Accounted(DoThread(c, s))
  {
    hide Pushers;
  }

  lemma {:induction false} AccountedInEveryState(c: Config, ss: seq<State>, k: nat)
    requires Run(c, ss) && k < |ss| && c.signals
    ensures Accounted(ss[k])
  {
    if k == 0 {
      QuietHasNoPushers(ss[0].callers);
    } else {
      AccountedInEveryState(c, ss, k - 1);
      assert StepAt(c, ss, k);
      var a :| Enabled(c, ss[k - 1], a) && ss[k] == Do(c, ss[k - 1], a);
      StepAccounted(c, ss[k - 1], a);
    }
  }

  /** How often the thread has acquired the semaphore, up to state `k`. */
  function AcquisitionsUpTo(ss: seq<State>, k: nat): nat
    requires k < |ss|
  {
    if k == 0 then 0
    else AcquisitionsUpTo(ss, k - 1) + if ss[k - 1].thread.Acquiring? && ss[k].thread.Testing? then 1 else 0
  }

  /** The releases of the semaphore: one by each call that got past it, if calls release at all, and one
      by the destructor. */
  function Releases(c: Config, s: State): nat {
    (if c.signals then |s.accepted| + s.rejected + Pushers(s.callers) else 0)
    + if s.owner.Joining? || s.owner.Joined? then 1 else 0
  }

  lemma {:induction false} StepReleases(c: Config, s: State, a: Action)
    requires Enabled(c, s, a)
    ensures var s' := Do(c, s, a);
            s'.sem + (if s.thread.Acquiring? && s'.thread.Testing? then 1 else 0) - s.sem
            == Releases(c, s') - Releases(c, s)
               + if !c.signals && a.CallerStep? && s.callers[a.caller].Signalling? then 1 else 0
  {
    hide Pushers;
    match a
    case Log(i, e) => PushersUpdate(s.callers, i, Signalling(e));
    case CallerStep(i) => PushersUpdate(s.callers, i, Do(c, s, a).callers[i]);
    case Refuse(i) => PushersUpdate(s.callers, i, Idle);
    case ThreadStep =>
    case OwnerStep =>
  }

  lemma {:induction false} NobodySignals(c: Config, ss: seq<State>, k: nat, i: nat)
    requires Run(c, ss) && k < |ss| && !c.signals && i < |ss[k].callers|
    ensures !ss[k].callers[i].Signalling?
  {
    hide Do, Enabled;
    if k > 0 {
      assert StepAt(c, ss, k);
      var a :| Enabled(c, ss[k - 1], a) && ss[k] == Do(c, ss[k - 1], a);
      StepSignals(c, ss[k - 1], a, i);
      NobodySignals(c, ss, k - 1, i);
    }
  }

  lemma {:induction false} StepSignals(c: Config, s: State, a: Action, i: nat)
    requires Enabled(c, s, a) && !c.signals && i < |Do(c, s, a).callers|
    ensures i < |s.callers| && (Do(c, s, a).callers[i].Signalling? ==> s.callers[i].Signalling?)
  {
    hide Hand;
    if a.ThreadStep? { ThreadKeepsCallers(c, s); }
  }

  lemma {:induction false} ThreadKeepsCallers(c: Config, s: State)
    requires Enabled(c, s, ThreadStep)
    ensures DoThread(c, s).callers == s.callers
  {
  }

  /** In every state of every run of either logger, shutdown included, each release of the semaphore has
      been acquired by the thread or is still to be had. */
  lemma {:induction false} SemaphoreBalanced(c: Config, ss: seq<State>, k: nat)
    requires Run(c, ss) && k < |ss|
    ensures ss[k].sem + AcquisitionsUpTo(ss, k) == Releases(c, ss[k])
  {
    hide Releases, Do;
    if k == 0 {
      InitReleases(c, ss[0]);
    } else {
      SemaphoreBalanced(c, ss, k - 1);
      assert StepAt(c, ss, k);
      var a :| Enabled(c, ss[k - 1], a) && ss[k] == Do(c, ss[k - 1], a);
      StepReleases(c, ss[k - 1], a);
      if !c.signals && a.CallerStep? { NobodySignals(c, ss, k - 1, a.caller); }
    }
  }

  lemma {:induction false} InitReleases(c: Config, s: State)
    requires Init(c, s)
    ensures Releases(c, s) == 0
  {
    QuietHasNoPushers(s.callers);
  }

  /** A SingleThreadedAsync logger at rest, its thread asleep: the entries left waiting are the reads
      that came too early, less the first one and the rejected calls. */
  lemma {:induction false} EntriesLeftAsleep(c: Config, ss: seq<State>, k: nat)
    requires Run(c, ss) && k < |ss| && c.signals && ss[k].owner.Running?
    requires Quiet(ss[k]) && ss[k].thread.Acquiring? && ss[k].sem == 0
    ensures |ss[k].queue| + ss[k].rejected + 1 == ss[k].failedReads
    ensures ss[k].queue == [] <==> ss[k].failedReads == ss[k].rejected + 1
  {
    AccountedInEveryState(c, ss, k);
    InvInEveryState(c, ss, k);
    QuietHasNoPushers(ss[k].callers);
  }

  /** A wake-up can be lost: one call, one entry queued, and the thread asleep with no one to wake it. */
  lemma {:induction false} WakeupLost(c: Config, e: Entry) returns (ss: seq<State>)
    requires c.signals && c.queueSize > 0 && e.level > c.minimum
    ensures Run(c, ss) && Quiet(Last(ss)) && Last(ss).owner.Running?
    ensures Last(ss).queue == [e] && Last(ss).thread.Acquiring? && Last(ss).sem == 0
  {
    var none := seq(|c.sinks|, _ => []);
    ss := [State([], 0, [Idle], Testing, Running, [], [], [], none, none, 0, 0)];
    ss := Extend(c, ss, ThreadStep);
    ss := Extend(c, ss, ThreadStep);
    ss := Extend(c, ss, Log(0, e));
    ss := Extend(c, ss, CallerStep(0));
    ss := Extend(c, ss, ThreadStep);
    ss := Extend(c, ss, ThreadStep);
    ss := Extend(c, ss, ThreadStep);
    ss := Extend(c, ss, CallerStep(0));
  }

  // ---------------------------------------------------------------------------------------------
  // Logging during destruction

  /** Without `NoOverlap` the promise of `JoinedEqualsSynchronous` fails: an entry can be accepted
      after the flush and never reach a sink. */
  lemma {:induction false} OverlapLosesEntry(c: Config, e: Entry) returns (ss: seq<State>)
    requires c.queueSize > 0 && e.level > c.minimum
    ensures Run(c, ss) && Last(ss).owner.Joined? && Last(ss).accepted == [e]
    ensures |Last(ss).handed| == |c.sinks| && forall k :: 0 <= k < |c.sinks| ==> Last(ss).handed[k] == []
  {
    var none := seq(|c.sinks|, _ => []);
    ss := [State([], 0, [Idle], Testing, Running, [], [], [], none, none, 0, 0)];
    ss := Extend(c, ss, OwnerStep);
    ss := Extend(c, ss, ThreadStep);
    ss := Extend(c, ss, ThreadStep);
    ss := Extend(c, ss, Log(0, e));
    if c.signals {
      ss := Extend(c, ss, CallerStep(0));
    }
    ss := Extend(c, ss, CallerStep(0));
    ss := Extend(c, ss, OwnerStep);
    ss := Extend(c, ss, OwnerStep);
  }
}
