/**
 Shutdown of the asynchronous logger over the real queue, counted in the accesses of its reads: it is
 never stuck, bounded, and over after at most one more acquisition, whatever the callers do meanwhile.
 */
module LoggerQueueShutdown {
  import opened LogSinks
  import L = Logger
  import S = LoggerShutdown
  import Q = LockFreeQueue
  import O = LockFreeQueueOrder
  import opened LoggerQueue
  import opened LoggerTickets
  import opened LoggerRaces

  lemma {:induction false} SaneNeverStuck(c: L.Config, w: World)
    requires Sane(c, w) && L.Stopping(w.log) && !w.log.owner.Joined?
    ensures Enabled(c, w, ThreadStep) || Enabled(c, w, OwnerStep)
  {
    hide O.Vacant, Handled, Issued, Admitted, Keep, Q.Tickets;
  }

  /** Once the stop flag is set, the destructor or the logging thread, in the middle of a read or not,
      has a step to take until the destructor returns, in every state before which the run has not
      raced. */
  lemma {:induction false} ShutdownNeverStuckOverQueue(c: L.Config, ws: seq<World>, k: nat)
    requires Run(c, ws) && k < |ws| && RaceFreeBefore(ws, k)
    requires L.Stopping(ws[k].log) && !ws[k].log.owner.Joined?
    ensures Enabled(c, ws[k], ThreadStep) || Enabled(c, ws[k], OwnerStep)
  {
    hide Run, RaceFreeBefore, Sane, Enabled;
    SaneWhileRaceFree(c, ws, k);
    SaneNeverStuck(c, ws[k]);
  }

  /** Before and during shutdown: until the run races, the logging thread waits for nothing but the
      semaphore, and stops only when it is done. */
  lemma {:induction false} ThreadWaitsForSemaphoreOnly(c: L.Config, ws: seq<World>, k: nat)
    requires Run(c, ws) && k < |ws| && RaceFreeBefore(ws, k)
    ensures var log := ws[k].log;
            Enabled(c, ws[k], ThreadStep) <==> !log.thread.Done? && (log.thread.Acquiring? ==> log.sem > 0)
  {
    hide Run, RaceFreeBefore, O.Vacant, Handled, Issued, Admitted, Keep, Q.Tickets;
    SaneWhileRaceFree(c, ws, k);
  }

  // ---------------------------------------------------------------------------------------------
  // The bound

  /** Steps from within a read of the flush loop to the end of that loop, beyond those for the entries
      not yet claimed. */
  function ReadWork(consumer: Q.Consumer, sinks: nat): nat {
    match consumer
    case Waiting => 1
    case Checked => 0
    case Taking(_) => 4 + sinks
    case Releasing => 3 + sinks
  }

  /** Steps left for the logging thread once the stop flag is set. An entry takes four accesses of the
      queue, one step per sink and one to count it as delivered. */
  function ThreadWork(c: L.Config, w: World): int
    requires w.q.read <= w.q.maxRead
  {
    var n := |c.sinks|;
    S.Backlog(w.q.maxRead - w.q.read, n + 5) +
    match w.log.thread
    case Done => 0
    case FlushDelivering(_, k) => 2 + n - k
    case Testing => 2
    case Acquiring => 3
    case Delivering(_, k) => 4 + n - k
    case FlushReading => ReadWork(w.q.consumer, n)
    case Reading => ReadWork(w.q.consumer, n) + if w.q.consumer.Taking? || w.q.consumer.Releasing? then 2 else 3
  }

  function Work(c: L.Config, w: World): int
    requires w.q.read <= w.q.maxRead
  {
    ThreadWork(c, w) + S.OwnerWork(w.log)
  }

  /** The step was one of the logging thread or the destructor. */
  predicate Moved(w: World, w': World) {
    w'.q.consumer != w.q.consumer || w'.log.thread != w.log.thread || w'.log.owner != w.log.owner
  }

  lemma {:induction false} WorkIsNatural(c: L.Config, w: World)
    requires Sane(c, w)
    ensures w.q.read <= w.q.maxRead && 0 <= Work(c, w)
    ensures Work(c, w) <= (w.q.maxRead - w.q.read) * (|c.sinks| + 5) + |c.sinks| + 9
  {
    hide O.Vacant, O.Faithful, Handled, Issued, Admitted, Keep, Q.Tickets;
  }

  lemma {:induction false} CallerStepOnWork(c: L.Config, w: World, a: Action)
    requires Coupled(c, w) && Q.Counted(w.q) && Enabled(c, w, a) && (a.Log? || a.Signal? || a.Enter? || a.Advance?)
    ensures var w' := Do(c, w, a);
            && !Moved(w, w') && w.q.read <= w.q.maxRead && w'.q.read <= w'.q.maxRead
            && |w.log.accepted| <= |w'.log.accepted| <= |w.log.accepted| + 1
            && Work(c, w') == Work(c, w) + (if |w'.log.accepted| > |w.log.accepted| then |c.sinks| + 5 else 0)
  {
    hide Do, Enabled, Coupled, Q.Count, Q.Tickets, Q.WellFormed, S.Backlog;
    CallerStepMoves(c, w, a);
    S.BacklogGrows(w.q.maxRead - w.q.read, |c.sinks| + 5);
  }

  lemma {:induction false} CallerStepMoves(c: L.Config, w: World, a: Action)
    requires Coupled(c, w) && Q.Counted(w.q) && Enabled(c, w, a) && (a.Log? || a.Signal? || a.Enter? || a.Advance?)
    ensures var w' := Do(c, w, a);
            && !Moved(w, w') && w'.q.read == w.q.read
            && |w.log.accepted| <= |w'.log.accepted| <= |w.log.accepted| + 1
            && w'.q.maxRead - w.q.maxRead == |w'.log.accepted| - |w.log.accepted|
  {
    hide Coupled, Q.Count, Q.Balanced, Q.Tickets, Q.WellFormed;
    if a.Advance? { AdvanceCounts(c, w, a.caller); }
  }

  lemma {:induction false} ReadOnWork(c: L.Config, w: World)
    requires Q.Counted(w.q) && InRead(w) && Enabled(c, w, ThreadStep)
    ensures var w' := DoRead(c, w);
            && Moved(w, w') && w.q.read <= w.q.maxRead && w'.q.read <= w'.q.maxRead
            && w'.log.accepted == w.log.accepted && w'.log.owner == w.log.owner && Work(c, w') < Work(c, w)
  {
    hide S.Backlog, Q.Count, Q.Tickets;
    if w.q.read < w.q.maxRead { S.BacklogGrows(w.q.maxRead - w.q.read - 1, |c.sinks| + 5); }
  }

  lemma {:induction false} LoggerStepOnWork(c: L.Config, w: World, a: Action)
    requires w.q.read <= w.q.maxRead && L.Stopping(w.log) && Enabled(c, w, a)
    requires !w.q.consumer.Waiting? ==> InRead(w)
    requires w.log.thread.Delivering? || w.log.thread.FlushDelivering? ==> w.log.thread.next <= |c.sinks|
    requires a.OwnerStep? || (a.ThreadStep? && !InRead(w))
    ensures var w' := Do(c, w, a);
            Moved(w, w') && w'.q == w.q && w'.log.accepted == w.log.accepted && Work(c, w') < Work(c, w)
  {
    hide S.Backlog;
  }

  /** Any step after the stop flag is set: a step of thread or destructor uses up work, and only an
      accepted entry makes more. */
  lemma {:induction false} StepOnWork(c: L.Config, w: World, w': World)
    requires Sane(c, w) && L.Stopping(w.log) && Next(c, w, w')
    ensures L.Stopping(w'.log) && w.q.read <= w.q.maxRead && w'.q.read <= w'.q.maxRead
    ensures |w.log.accepted| <= |w'.log.accepted|
    ensures Work(c, w') + (if Moved(w, w') then 1 else 0)
            <= Work(c, w) + (|c.sinks| + 5) * (|w'.log.accepted| - |w.log.accepted|)
  {
    hide O.Vacant, O.Behind, O.Faithful, Handled, Issued, Admitted, Keep, Work, Moved, Enabled, Do, Q.Tickets, Q.Count;
    WorkIsNatural(c, w);
    var a :| Enabled(c, w, a) && w' == Do(c, w, a);
    StaysStopping(c, w, a);
    if a.OwnerStep? || (a.ThreadStep? && !InRead(w)) {
      LoggerStepOnWork(c, w, a);
    } else if a.ThreadStep? {
      DoesRead(c, w);
      ReadOnWork(c, w);
    } else {
      CallerStepOnWork(c, w, a);
    }
  }

  lemma {:induction false} DoesRead(c: L.Config, w: World)
    requires InRead(w) && Enabled(c, w, ThreadStep)
    ensures Do(c, w, ThreadStep) == DoRead(c, w)
  {
  }

  lemma {:induction false} StaysStopping(c: L.Config, w: World, a: Action)
    requires Enabled(c, w, a)
    ensures L.Stopping(w.log) ==> L.Stopping(Do(c, w, a).log)
  {
  }

  /** How many of the steps from state `i` to state `k` are the logging thread's or the destructor's. */
  function Moves(ws: seq<World>, i: nat, k: nat): nat
    requires i <= k < |ws|
  {
    if k == i then 0 else Moves(ws, i, k - 1) + if Moved(ws[k - 1], ws[k]) then 1 else 0
  }

  /** After the stop flag is set, in every schedule that does not race, callers included, thread and
      destructor take at most `Work` accesses and steps, and as many more as the entries accepted
      meanwhile account for. */
  lemma {:induction false} ShutdownIsBoundedOverQueue(c: L.Config, ws: seq<World>, i: nat, k: nat)
    requires Run(c, ws) && i <= k < |ws| && RaceFreeBefore(ws, k) && L.Stopping(ws[i].log)
    ensures L.Stopping(ws[k].log) && ws[i].q.read <= ws[i].q.maxRead && ws[k].q.read <= ws[k].q.maxRead
    ensures 0 <= Work(c, ws[k])
    ensures Work(c, ws[i]) <= (ws[i].q.maxRead - ws[i].q.read) * (|c.sinks| + 5) + |c.sinks| + 9
    ensures Moves(ws, i, k) + Work(c, ws[k])
            <= Work(c, ws[i]) + (|c.sinks| + 5) * (|ws[k].log.accepted| - |ws[i].log.accepted|)
    decreases k - i
  {
    hide Sane, Init, Next, O.Race, Q.WellFormed, Work, Moved, L.Stopping;
    SaneWhileRaceFree(c, ws, k);
    WorkIsNatural(c, ws[k]);
    if k > i {
      ShutdownIsBoundedOverQueue(c, ws, i, k - 1);
      SaneWhileRaceFree(c, ws, k - 1);
      assert StepAt(c, ws, k);
      StepOnWork(c, ws[k - 1], ws[k]);
      S.Distributes(|c.sinks| + 5, |ws[i].log.accepted|, |ws[k - 1].log.accepted|, |ws[k].log.accepted|);
    }
  }

  // ---------------------------------------------------------------------------------------------
  // The end

  lemma {:induction false} AloneOnWork(c: L.Config, w: World, w': World)
    requires Sane(c, w) && Safe(w) && L.Stopping(w.log) && AloneStep(c, w, w')
    ensures Sane(c, w') && Safe(w') && L.Stopping(w'.log)
    ensures w.q.read <= w.q.maxRead && w'.q.read <= w'.q.maxRead && 0 <= Work(c, w') < Work(c, w)
  {
    hide Sane, Safe, O.Race, Enabled, Do, Work, Moved, L.Stopping;
    SafeIsRaceFree(c, w);
    AloneSane(c, w, w');
    SafeKept(w, w');
    AloneStepKeeps(c, w, w');
    StepOnWork(c, w, w');
    AloneMoves(c, w, w');
    WorkIsNatural(c, w');
  }

  lemma {:induction false} AloneMoves(c: L.Config, w: World, w': World)
    requires Sane(c, w) && AloneStep(c, w, w')
    ensures Moved(w, w')
  {
    hide O.Vacant, O.Faithful, Handled, Issued, Admitted, L.HandedOver, Q.Tickets, Q.Count;
  }

  lemma {:induction false} JoinedFrom(c: L.Config, w: World) returns (ws: seq<World>)
    requires Sane(c, w) && Safe(w) && L.Stopping(w.log) && w.q.read <= w.q.maxRead
    ensures Alone(c, w, ws) && ws[|ws| - 1].log.owner.Joined?
    decreases Work(c, w)
  {
    hide Sane, Safe, AloneStep, Enabled, Do, Work, Q.WellFormed;
    SaneBounds(c, w);
    if w.log.owner.Joined? {
      ws := [w];
    } else {
      var w' := NextAlone(c, w);
      WorkIsNatural(c, w);
      AloneOnWork(c, w, w');
      var rest := JoinedFrom(c, w');
      ws := [w] + rest;
      assert ws[|ws| - 1] == rest[|rest| - 1];
    }
  }

  lemma {:induction false} NextAlone(c: L.Config, w: World) returns (w': World)
    requires Sane(c, w) && L.Stopping(w.log) && !w.log.owner.Joined?
    ensures AloneStep(c, w, w')
  {
    hide Sane, Enabled, Do;
    SaneNeverStuck(c, w);
    w' := Do(c, w, if Enabled(c, w, ThreadStep) then ThreadStep else OwnerStep);
  }

  /** From every stopping state of a run that has not raced, thread and destructor alone get the
      destructor to return if no pending ticket counts as published; if one does, they can run into
      its caller instead (`RaceReachableIff`). */
  lemma {:induction false} ShutdownReachesJoinedOverQueue(c: L.Config, ws: seq<World>, k: nat)
      returns (rest: seq<World>)
    requires Run(c, ws) && k < |ws| && RaceFreeBefore(ws, k) && L.Stopping(ws[k].log) && O.StoredPrefix(ws[k].q)
    ensures Alone(c, ws[k], rest) && rest[|rest| - 1].log.owner.Joined?
  {
    hide Run, RaceFreeBefore, Sane, Alone, O.StoredPrefix;
    SaneWhileRaceFree(c, ws, k);
    WorkIsNatural(c, ws[k]);
    rest := JoinedFrom(c, ws[k]);
  }

  // ---------------------------------------------------------------------------------------------
  // The semaphore

  /** How often the logging thread acquires the semaphore from state `i` to state `k`. */
  function Acquisitions(ws: seq<World>, i: nat, k: nat): nat
    requires i <= k < |ws|
  {
    if k == i then 0
    else Acquisitions(ws, i, k - 1) + if ws[k - 1].log.thread.Acquiring? && ws[k].log.thread.Testing? then 1 else 0
  }

  lemma {:induction false} StepOnAcquisition(c: L.Config, w: World, w': World)
    requires L.Stopping(w.log) && Next(c, w, w')
    ensures L.Stopping(w'.log)
    ensures w.log.thread.Acquiring? && w'.log.thread.Testing? ==> !L.InMainLoop(w'.log.thread)
    ensures !L.InMainLoop(w.log.thread) ==> !L.InMainLoop(w'.log.thread)
  {
  }

  /** After the stop flag is set, in every schedule, racing or not, the logging thread acquires at most
      once more, and not at all once it has left the loop. */
  lemma {:induction false} AcquiresAtMostOnceMoreOverQueue(c: L.Config, ws: seq<World>, i: nat, k: nat)
    requires Run(c, ws) && i <= k < |ws| && L.Stopping(ws[i].log)
    ensures L.Stopping(ws[k].log)
    ensures Acquisitions(ws, i, k) + (if L.InMainLoop(ws[k].log.thread) then 1 else 0)
            <= if L.InMainLoop(ws[i].log.thread) then 1 else 0
    decreases k - i
  {
    hide Next, Init;
    if k > i {
      AcquiresAtMostOnceMoreOverQueue(c, ws, i, k - 1);
      assert StepAt(c, ws, k);
      StepOnAcquisition(c, ws[k - 1], ws[k]);
    }
  }
}
