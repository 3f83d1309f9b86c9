/** What whole runs of the asynchronous logger deliver, and how shutdown ends. */
module LoggerShutdown {
  import opened LogSinks
  import opened Logger

  /** No caller is inside `log`. */
  predicate Quiet(s: State) {
    forall i :: 0 <= i < |s.callers| ==> s.callers[i].Idle?
  }

  /** No `log` that passes the level test overlaps destruction. */
  ghost predicate NoOverlap(ss: seq<State>) {
    forall k :: 0 <= k < |ss| && Stopping(ss[k]) ==> Quiet(ss[k])
  }

  /** In every state of every run: handed over, in hand and queued make up exactly what was
      accepted, in order, and each sink has got the handed-over part plus at most the entry in hand. */
  lemma {:induction false} NothingLostOrReordered(c: Config, ss: seq<State>, k: nat)
    requires Run(c, ss) && k < |ss|
    ensures ss[k].delivered + InHand(ss[k].thread) + ss[k].queue == ss[k].accepted
    ensures |ss[k].handed| == |c.sinks| && forall j :: 0 <= j < |c.sinks| ==>
              ss[k].handed[j] == ss[k].delivered || ss[k].handed[j] == ss[k].delivered + InHand(ss[k].thread)
  {
    InvInEveryState(c, ss, k);
  }

  /** Step `i` accepts an entry after the flush loop has ended. */
  predicate LatePush(ss: seq<State>, i: nat)
    requires 0 < i < |ss|
  {
    ss[i - 1].thread.Done? && |ss[i].accepted| > |ss[i - 1].accepted|
  }

  lemma {:induction false} StepAfterFlush(c: Config, s: State, s': State)
    requires Next(c, s, s')
    ensures s.thread.Done? ==>
              && s'.thread.Done?
              && (if |s'.accepted| > |s.accepted| then s'.queue != [] else s'.queue == s.queue)
    ensures !s.thread.Done? && s'.thread.Done? ==> s'.queue == []
  {
  }

  lemma {:induction false} DrainedIffNoLatePush(c: Config, ss: seq<State>, k: nat)
    requires Run(c, ss) && k < |ss|
    ensures ss[k].thread.Done? ==> (ss[k].queue == [] <==> forall i :: 0 < i <= k ==> !LatePush(ss, i))
    ensures !ss[k].thread.Done? ==> forall i :: 0 < i <= k ==> !LatePush(ss, i)
  {
    if k > 0 {
      DrainedIffNoLatePush(c, ss, k - 1);
      assert StepAt(c, ss, k);
      StepAfterFlush(c, ss[k - 1], ss[k]);
      assert LatePush(ss, k) <==> ss[k - 1].thread.Done? && |ss[k].accepted| > |ss[k - 1].accepted|;
      assert (forall i :: 0 < i <= k ==> !LatePush(ss, i))
         <==> (forall i :: 0 < i <= k - 1 ==> !LatePush(ss, i)) && !LatePush(ss, k);
    }
  }

  /** After `join`, each sink has been handed what the synchronous logger hands it for the same calls
      if and only if no entry was accepted after the flush loop ended. Then it has written exactly
      those that reach its own level, too. */
  lemma {:induction false} JoinedEqualsSynchronousIff(c: Config, ss: seq<State>, k: nat, j: nat)
    requires Run(c, ss) && k < |ss| && ss[k].owner.Joined? && j < |c.sinks|
    ensures |ss[k].handed| == |ss[k].emitted| == |c.sinks|
    ensures ss[k].handed[j] == Keep(ss[k].ok, c.minimum + 1) <==> forall i :: 0 < i <= k ==> !LatePush(ss, i)
    ensures (forall i :: 0 < i <= k ==> !LatePush(ss, i)) ==>
              ss[k].emitted[j] == Keep(ss[k].ok, if c.minimum + 1 < c.sinks[j] then c.sinks[j] else c.minimum + 1)
  {
    var s := ss[k];
    InvInEveryState(c, ss, k);
    DrainedIffNoLatePush(c, ss, k);
    assert s.delivered + [] + s.queue == s.accepted == Keep(s.ok, c.minimum + 1);
    assert s.handed[j] == s.delivered + [] == s.delivered;
    assert s.delivered == s.accepted <==> s.queue == [];
    KeepTwice(s.ok, c.minimum + 1, c.sinks[j]);
  }

  /** In particular, if no `log` overlaps destruction. */
  lemma {:induction false} JoinedEqualsSynchronous(c: Config, ss: seq<State>, k: nat, j: nat)
    requires Run(c, ss) && NoOverlap(ss) && k < |ss| && ss[k].owner.Joined? && j < |c.sinks|
    ensures |ss[k].handed| == |ss[k].emitted| == |c.sinks|
    ensures ss[k].handed[j] == Keep(ss[k].ok, c.minimum + 1)
    ensures ss[k].emitted[j] == Keep(ss[k].ok, if c.minimum + 1 < c.sinks[j] then c.sinks[j] else c.minimum + 1)
  {
    forall i | 0 < i <= k ensures !LatePush(ss, i) {
      InvInEveryState(c, ss, i - 1);
      assert StepAt(c, ss, i);
      if ss[i - 1].thread.Done? {
        QuietAcceptsNothing(c, ss[i - 1], ss[i]);
      }
    }
    JoinedEqualsSynchronousIff(c, ss, k, j);
  }

  lemma {:induction false} QuietAcceptsNothing(c: Config, s: State, s': State)
    requires Next(c, s, s') && Quiet(s)
    ensures s'.accepted == s.accepted
  {
  }

  // ---------------------------------------------------------------------------------------------
  // Shutdown ends

  predicate ShutdownStep(c: Config, s: State, s': State) {
    || (Enabled(c, s, ThreadStep) && s' == DoThread(c, s))
    || (Enabled(c, s, OwnerStep) && s' == DoOwner(s))
  }

  /** A run of the destructor and the logging thread alone. */
  ghost predicate ShutdownRun(c: Config, s: State, ss: seq<State>) {
    && |ss| > 0 && ss[0] == s
    && forall k :: 0 < k < |ss| ==> ShutdownStep(c, ss[k - 1], ss[k])
  }

  function Backlog(entries: nat, perEntry: nat): nat {
    entries * perEntry
  }

  lemma BacklogGrows(entries: nat, perEntry: nat)
    ensures Backlog(entries + 1, perEntry) == Backlog(entries, perEntry) + perEntry
  {
  }

  /** Steps left for the logging thread once the stop flag is set. */
  function ThreadWork(c: Config, s: State): int {
    Backlog(|s.queue|, |c.sinks| + 2) +
    match s.thread
    case Done => 0
    case FlushReading => 1
    case FlushDelivering(_, k) => 2 + |c.sinks| - k
    case Testing => 2
    case Acquiring => 3
    case Delivering(_, k) => 4 + |c.sinks| - k
    case Reading => 4
  }

  function OwnerWork(s: State): nat {
    match s.owner
    case Running => 3
    case StopSet => 2
    case Joining => 1
    case Joined => 0
  }

  function Work(c: Config, s: State): int {
    ThreadWork(c, s) + OwnerWork(s)
  }

  lemma {:induction false} WorkIsNatural(c: Config, s: State)
    requires Inv(c, s)
    ensures Work(c, s) >= 0
    ensures Work(c, s) <= |s.queue| * (|c.sinks| + 2) + |c.sinks| + 7
  {
    hide Keep, Conserved, Stoppable;
  }

  lemma {:induction false} StepKeepsInv(c: Config, s: State, s': State)
    requires Inv(c, s) && Next(c, s, s')
    ensures Inv(c, s')
  {
    hide Conserved, HandedOver, Stoppable, Do;
    var a :| Enabled(c, s, a) && s' == Do(c, s, a);
    StepConserved(c, s, a);
    StepHandedOver(c, s, a);
    StepStoppable(c, s, a);
  }

  /** The step was one of the logging thread or the destructor. */
  predicate Moved(s: State, s': State) {
    s'.thread != s.thread || s'.owner != s.owner
  }

  /** Any step after the stop flag is set: a step of thread or destructor uses up work, and only an
      accepted entry makes more. */
  lemma {:induction false} StepOnWork(c: Config, s: State, a: Action)
    requires s.thread.Delivering? || s.thread.FlushDelivering? ==> s.thread.next <= |c.sinks|
    requires Stopping(s) && Enabled(c, s, a)
    ensures var s' := Do(c, s, a);
            && Stopping(s') && |s.accepted| <= |s'.accepted| <= |s.accepted| + 1
            && (Moved(s, s') <==> a.ThreadStep? || a.OwnerStep?)
            && Work(c, s') + (if Moved(s, s') then 1 else 0)
               <= Work(c, s) + (if |s'.accepted| > |s.accepted| then |c.sinks| + 2 else 0)
  {
    hide Backlog;
    BacklogGrows(|s.queue|, |c.sinks| + 2);
    if a.ThreadStep? {
      ThreadStepOnWork(c, s);
    }
  }

  lemma {:induction false} ThreadStepOnWork(c: Config, s: State)
    requires s.thread.Delivering? || s.thread.FlushDelivering? ==> s.thread.next <= |c.sinks|
    requires Stopping(s) && Enabled(c, s, ThreadStep)
    ensures var s' := DoThread(c, s);
            && s'.owner == s.owner && s'.accepted == s.accepted && s'.thread != s.thread
            && ThreadWork(c, s') < ThreadWork(c, s)
  {
    hide Backlog;
    if s.queue != [] { BacklogGrows(|s.queue| - 1, |c.sinks| + 2); }
  }

  lemma {:induction false} NextOnWork(c: Config, s: State, s': State)
    requires Inv(c, s) && Stopping(s) && Next(c, s, s')
    ensures Inv(c, s') && Stopping(s') && |s.accepted| <= |s'.accepted|
    ensures Work(c, s') + (if Moved(s, s') then 1 else 0)
            <= Work(c, s) + (|c.sinks| + 2) * (|s'.accepted| - |s.accepted|)
  {
    hide Work, Do, Enabled, Conserved, Stoppable;
    StepKeepsInv(c, s, s');
    var a :| Enabled(c, s, a) && s' == Do(c, s, a);
    StepOnWork(c, s, a);
  }

  lemma Distributes(m: int, a: int, b: int, x: int)
    ensures m * (x - a) == m * (x - b) + m * (b - a)
  {
  }

  /** Once the stop flag is set there is always a step to take until the destructor returns: the
      logging thread never waits on a semaphore nobody will release. */
  lemma {:induction false} ShutdownNeverStuck(c: Config, s: State)
    requires Inv(c, s) && Stopping(s) && !s.owner.Joined?
    ensures Enabled(c, s, ThreadStep) || Enabled(c, s, OwnerStep)
    ensures s.owner.Joining? && s.thread.Acquiring? ==> s.sem > 0
  {
  }

  /** Consecutive states one step apart, whoever takes the steps. */
  ghost predicate Steps(c: Config, s: State, ss: seq<State>) {
    |ss| > 0 && ss[0] == s && forall k :: 0 < k < |ss| ==> StepAt(c, ss, k)
  }

  lemma {:induction false} StepsTail(c: Config, s: State, ss: seq<State>)
    requires Steps(c, s, ss) && |ss| > 1
    ensures Next(c, s, ss[1]) && Steps(c, ss[1], ss[1..])
  {
    hide Next;
    assert StepAt(c, ss, 1);
    forall k | 0 < k < |ss| - 1 ensures StepAt(c, ss[1..], k) {
      assert StepAt(c, ss, k + 1);
    }
  }

  /** How many of the steps are the logging thread's or the destructor's. */
  function Moves(ss: seq<State>): nat {
    if |ss| < 2 then 0 else (if Moved(ss[0], ss[1]) then 1 else 0) + Moves(ss[1..])
  }

  /** After the stop flag is set, in every schedule, callers included, thread and destructor take at
      most `Work` steps, and as many more as the entries accepted meanwhile account for. */
  lemma {:induction false} ShutdownIsBounded(c: Config, s: State, ss: seq<State>)
    requires Inv(c, s) && Stopping(s) && Steps(c, s, ss)
    ensures var last := ss[|ss| - 1];
            && Inv(c, last) && Stopping(last) && Work(c, last) >= 0
            && Moves(ss) + Work(c, last) <= Work(c, s) + (|c.sinks| + 2) * (|last.accepted| - |s.accepted|)
    decreases |ss|
  {
    hide Work, Inv, Stopping, Next, Moved;
    if |ss| == 1 {
      WorkIsNatural(c, s);
    } else {
      StepsTail(c, s, ss);
      NextOnWork(c, s, ss[1]);
      ShutdownIsBounded(c, ss[1], ss[1..]);
      Distributes(|c.sinks| + 2, |s.accepted|, |ss[1].accepted|, |ss[|ss| - 1].accepted|);
    }
  }

  /** With no caller in the way, every schedule is over within `Work` steps. */
  lemma {:induction false} QuietShutdownIsBounded(c: Config, s: State, ss: seq<State>)
    requires Inv(c, s) && Stopping(s) && ShutdownRun(c, s, ss)
    ensures 0 <= Work(c, ss[|ss| - 1]) <= Work(c, s) - (|ss| - 1)
  {
    hide Work, Inv, Stopping, Next, Moved, ShutdownStep, Moves, Steps;
    QuietSteps(c, s, ss);
    ShutdownIsBounded(c, s, ss);
  }

  lemma {:induction false} QuietSteps(c: Config, s: State, ss: seq<State>)
    requires ShutdownRun(c, s, ss) && Stopping(s) && Inv(c, s)
    ensures Steps(c, s, ss) && Moves(ss) == |ss| - 1 && ss[|ss| - 1].accepted == s.accepted
    decreases |ss|
  {
    forall k | 0 < k < |ss| ensures StepAt(c, ss, k) {
      ShutdownStepIsStep(c, ss[k - 1], ss[k]);
    }
    if |ss| > 1 {
      ShutdownStepIsStep(c, s, ss[1]);
      StepKeepsInv(c, s, ss[1]);
      forall k | 0 < k < |ss| - 1 ensures ShutdownStep(c, ss[1..][k - 1], ss[1..][k]) {
        assert ShutdownStep(c, ss[k], ss[k + 1]);
      }
      QuietSteps(c, ss[1], ss[1..]);
    }
  }

  lemma {:induction false} ShutdownStepIsStep(c: Config, s: State, s': State)
    requires ShutdownStep(c, s, s')
    ensures Next(c, s, s') && Moved(s, s') && s'.accepted == s.accepted && (Stopping(s) ==> Stopping(s'))
  {
    var a := if Enabled(c, s, ThreadStep) && s' == DoThread(c, s) then ThreadStep else OwnerStep;
    assert Enabled(c, s, a) && s' == Do(c, s, a);
  }

  /** From every stopping state the destructor can return; with `ShutdownIsBounded` and
      `ShutdownNeverStuck`, every schedule makes it return. */
  lemma {:induction false} ShutdownReachesJoined(c: Config, s: State) returns (ss: seq<State>)
    requires Inv(c, s) && Stopping(s)
    ensures ShutdownRun(c, s, ss) && ss[|ss| - 1].owner.Joined?
    decreases Work(c, s)
  {
    hide Inv, Work, DoThread, DoOwner;
    if s.owner.Joined? {
      ss := [s];
    } else {
      WorkIsNatural(c, s);
      ShutdownNeverStuck(c, s);
      var a := if Enabled(c, s, ThreadStep) then ThreadStep else OwnerStep;
      var s' := Do(c, s, a);
      assert Enabled(c, s, a) && s' == Do(c, s, a);
      NextOnWork(c, s, s');
      ShutdownStepIsStep(c, s, s');
      WorkIsNatural(c, s');
      var rest := ShutdownReachesJoined(c, s');
      ss := [s] + rest;
      assert ss[|ss| - 1] == rest[|rest| - 1];
    }
  }

  /** How often the logging thread acquires the semaphore in a run. */
  function Acquisitions(ss: seq<State>): nat {
    if |ss| < 2 then 0
    else (if ss[0].thread.Acquiring? && ss[1].thread.Testing? then 1 else 0) + Acquisitions(ss[1..])
  }

  lemma {:induction false} StepOnAcquisition(c: Config, s: State, s': State)
    requires Stopping(s) && Next(c, s, s')
    ensures Stopping(s')
    ensures s.thread.Acquiring? && s'.thread.Testing? ==> !InMainLoop(s'.thread)
    ensures !InMainLoop(s.thread) ==> !InMainLoop(s'.thread)
  {
  }

  /** After the stop flag is set, in every schedule, callers included, the logging thread acquires at
      most once more, and not at all once it has left the loop. */
  lemma {:induction false} AcquiresAtMostOnceMore(c: Config, s: State, ss: seq<State>)
    requires Stopping(s) && Steps(c, s, ss)
    ensures Acquisitions(ss) <= if InMainLoop(s.thread) then 1 else 0
    decreases |ss|
  {
    if |ss| >= 2 {
      StepsTail(c, s, ss);
      StepOnAcquisition(c, s, ss[1]);
      AcquiresAtMostOnceMore(c, ss[1], ss[1..]);
    }
  }
}
