/**
 When the logging thread can be sent to a slot whose entry is not stored yet, and what it reads there.
 */
module LoggerRaces {
  import opened LogSinks
  import L = Logger
  import S = LoggerShutdown
  import Q = LockFreeQueue
  import O = LockFreeQueueOrder
  import opened LoggerQueue
  import opened LoggerTickets

  predicate AloneStep(c: L.Config, w: World, w': World) {
    || (Enabled(c, w, ThreadStep) && w' == Do(c, w, ThreadStep))
    || (Enabled(c, w, OwnerStep) && w' == Do(c, w, OwnerStep))
  }

  /** A run of the logging thread and the destructor alone, starting in `w`. */
  ghost predicate Alone(c: L.Config, w: World, ws: seq<World>) {
    && |ws| > 0 && ws[0] == w
    && (forall k :: 0 <= k < |ws| ==> Q.WellFormed(ws[k].q))
    && (forall k :: 0 < k < |ws| ==> AloneStep(c, ws[k - 1], ws[k]))
  }

  /** What thread and destructor leave as it is. */
  predicate CallersWait(w: World, w': World) {
    && w'.q.producers == w.q.producers && w'.q.maxRead == w.q.maxRead && w'.q.pushed == w.q.pushed
    && w'.log.callers == w.log.callers && w'.log.accepted == w.log.accepted
    && (w.log.thread.Done? ==> w'.log.thread.Done? && w'.q == w.q)
  }

  lemma {:induction false} AloneStepKeeps(c: L.Config, w: World, w': World)
    requires AloneStep(c, w, w')
    ensures Next(c, w, w') && CallersWait(w, w')
  {
    var a := if Enabled(c, w, ThreadStep) && w' == Do(c, w, ThreadStep) then ThreadStep else OwnerStep;
    assert Enabled(c, w, a) && w' == Do(c, w, a);
  }

  lemma {:induction false} AloneSane(c: L.Config, w: World, w': World)
    requires Sane(c, w) && !O.Race(w.q) && AloneStep(c, w, w')
    ensures Sane(c, w') && CallersWait(w, w')
  {
    hide Sane, AloneStep, O.Race, Next;
    AloneStepKeeps(c, w, w');
    assert |w.q.pushed| <= Q.MAX_PUSHES by { SaneBounds(c, w); }
    SaneStep(c, w, w');
  }

  lemma {:induction false} SaneBounds(c: L.Config, w: World)
    requires Sane(c, w)
    ensures |w.q.pushed| <= Q.MAX_PUSHES && Q.WellFormed(w.q)
  {
  }

  // ---------------------------------------------------------------------------------------------
  // No race

  /** No pending ticket counts as published, or the logging thread reads no more. */
  ghost predicate Safe(w: World) {
    O.StoredPrefix(w.q) || w.log.thread.Done?
  }

  lemma {:induction false} SafeIsRaceFree(c: L.Config, w: World)
    requires Sane(c, w) && Safe(w)
    ensures !O.Race(w.q)
  {
    hide L.HandedOver, L.Stoppable, Handled, Issued, Admitted, O.Vacant, O.Faithful, O.Race;
    O.RaceIsOnTheTakenTicket(w.q);
    if O.StoredPrefix(w.q) { O.StoredPrefixIsRaceFree(w.q); }
  }

  lemma {:induction false} SafeKept(w: World, w': World)
    requires Safe(w) && CallersWait(w, w')
    ensures Safe(w')
  {
    assert forall t: nat :: O.Pending(w'.q, t) <==> O.Pending(w.q, t);
  }

  lemma {:induction false} AloneStaysSafe(c: L.Config, w: World, ws: seq<World>, k: nat)
    requires Sane(c, w) && Safe(w) && Alone(c, w, ws) && k < |ws|
    ensures Sane(c, ws[k]) && Safe(ws[k]) && !O.Race(ws[k].q)
  {
    hide Sane, Safe, AloneStep, CallersWait, O.Race;
    if k > 0 {
      AloneStaysSafe(c, w, ws, k - 1);
      AloneSane(c, ws[k - 1], ws[k]);
      SafeKept(ws[k - 1], ws[k]);
    }
    SafeIsRaceFree(c, ws[k]);
  }

  // ---------------------------------------------------------------------------------------------
  // A race

  /** How far the thread is from reading in the flush loop for good. */
  function Loop(t: L.Thread): nat {
    match t
    case Reading => 4
    case Delivering(_, _) => 3
    case Acquiring => 2
    case Testing => 1
    case FlushReading => 0
    case FlushDelivering(_, _) => 0
    case Done => 0
  }

  /** How far the thread is from moving the next entry out of the queue. */
  function Stage(c: L.Config, w: World): nat {
    if w.log.thread.Delivering? || w.log.thread.FlushDelivering? then
      if w.log.thread.next <= |c.sinks| then 3 + |c.sinks| - w.log.thread.next else 0
    else
      match w.q.consumer
      case Waiting => 2
      case Checked => 1
      case Taking(_) => 0
      case Releasing => 4 + |c.sinks|
  }

  /** A pending ticket counts as published, and the thread has not stopped reading. */
  ghost predicate Exposed(c: L.Config, w: World, t: nat) {
    Sane(c, w) && O.Pending(w.q, t) && |w.q.popped| <= t < w.q.maxRead && !w.log.thread.Done?
  }

  /** `w'` is nearer to a race on ticket `t` than `w`. */
  predicate Nearer(c: L.Config, w: World, w': World, t: nat)
    requires |w.q.popped| <= t && |w'.q.popped| <= t
  {
    var o, o' := S.OwnerWork(w.log), S.OwnerWork(w'.log);
    var l, l' := Loop(w.log.thread), Loop(w'.log.thread);
    var d, d' := t - |w.q.popped|, t - |w'.q.popped|;
    o' < o || (o' == o && (l' < l || (l' == l && (d' < d || (d' == d && Stage(c, w') < Stage(c, w))))))
  }

  /** The destructor first, until it waits for the thread; then the thread. */
  function Towards(w: World): Action {
    if w.log.owner.Running? || w.log.owner.StopSet? then OwnerStep else ThreadStep
  }

  lemma {:induction false} TowardsEnabled(c: L.Config, w: World, t: nat)
    requires Exposed(c, w, t) && !O.Race(w.q)
    ensures Enabled(c, w, Towards(w))
  {
    hide O.Vacant, Handled, Issued, Admitted, O.Race, O.Pending, Keep;
  }

  lemma {:induction false} ReadMovesNearer(c: L.Config, w: World, t: nat)
    requires Q.Counted(w.q) && |w.q.popped| <= t < w.q.maxRead
    requires !(w.q.consumer.Taking? && t == |w.q.popped|)
    requires InRead(w) && Enabled(c, w, ThreadStep)
    ensures var w' := DoRead(c, w);
            && !w'.log.thread.Done? && w'.log.owner == w.log.owner && |w'.q.popped| <= t
            && Nearer(c, w, w', t)
  {
    hide Q.Count, Q.Tickets;
  }

  lemma {:induction false} TowardsMovesNearer(c: L.Config, w: World, t: nat)
    requires Exposed(c, w, t) && !O.Race(w.q) && Enabled(c, w, Towards(w))
    ensures var w' := Do(c, w, Towards(w));
            !w'.log.thread.Done? && |w'.q.popped| <= t && Nearer(c, w, w', t)
  {
    hide O.Vacant, O.Faithful, Handled, Issued, Admitted, O.Race, Keep, Q.Tickets, Q.Count;
    O.RaceIsOnTheTakenTicket(w.q);
    if Towards(w).ThreadStep? && InRead(w) {
      hide Do, DoRead, Enabled, Nearer;
      ReadMovesNearer(c, w, t);
    }
  }

  lemma {:induction false} TowardsExposed(c: L.Config, w: World, t: nat)
    requires Exposed(c, w, t) && !O.Race(w.q)
    ensures Enabled(c, w, Towards(w))
    ensures var w' := Do(c, w, Towards(w));
            AloneStep(c, w, w') && Exposed(c, w', t) && Q.WellFormed(w'.q) && Nearer(c, w, w', t)
  {
    hide Sane, O.Race, Q.WellFormed, Enabled, Do, Nearer;
    TowardsEnabled(c, w, t);
    TowardsMovesNearer(c, w, t);
    var w' := Do(c, w, Towards(w));
    AloneSane(c, w, w');
    SaneBounds(c, w');
    assert O.Pending(w'.q, t);
  }

  /** A pending ticket that counts as published lets the logging thread run into its caller. */
  lemma {:induction false} ReachesRace(c: L.Config, w: World, t: nat) returns (ws: seq<World>)
    requires Exposed(c, w, t)
    ensures Alone(c, w, ws) && O.Race(ws[|ws| - 1].q)
    decreases S.OwnerWork(w.log), Loop(w.log.thread), t - |w.q.popped|, Stage(c, w)
  {
    hide Sane, O.Pending, O.Race, Q.WellFormed, AloneStep, Enabled, Do, S.OwnerWork, Loop, Stage;
    SaneBounds(c, w);
    if O.Race(w.q) {
      ws := [w];
    } else {
      TowardsExposed(c, w, t);
      var rest := ReachesRace(c, Do(c, w, Towards(w)), t);
      ws := [w] + rest;
      assert ws[|ws| - 1] == rest[|rest| - 1];
    }
  }

  /** After any run of any number of callers that has not raced, thread and destructor can reach a race
      if and only if `m_max_read` has passed the stored prefix and the flush loop has not ended. */
  lemma {:induction false} RaceReachableIff(c: L.Config, ws: seq<World>, k: nat)
    requires Run(c, ws) && k < |ws| && RaceFreeBefore(ws, k)
    ensures (exists rest: seq<World> :: Alone(c, ws[k], rest) && O.Race(rest[|rest| - 1].q)) <==>
            !O.StoredPrefix(ws[k].q) && !ws[k].log.thread.Done?
  {
    hide Run, Sane, AloneStep, O.Race, O.Pending, Q.WellFormed;
    var w := ws[k];
    SaneWhileRaceFree(c, ws, k);
    if Safe(w) {
      forall rest: seq<World> | Alone(c, w, rest) ensures !O.Race(rest[|rest| - 1].q) {
        AloneStaysSafe(c, w, rest, |rest| - 1);
      }
    } else {
      var t: nat :| O.Pending(w.q, t) && t < w.q.maxRead;
      SaneIsBehind(c, w, t);
      var rest := ReachesRace(c, w, t);
    }
  }

  lemma {:induction false} SaneIsBehind(c: L.Config, w: World, t: nat)
    requires Sane(c, w) && O.Pending(w.q, t)
    ensures |w.q.popped| <= t
  {
    hide O.Pending;
  }

  /** What a race costs: if the logging thread moves first, it takes out of the queue a slot that holds
      no entry, and has none to hand over. */
  lemma {:induction false} RaceReadsNothing(c: L.Config, ws: seq<World>, k: nat)
    requires Run(c, ws) && k < |ws| && RaceFreeBefore(ws, k) && Q.WellFormed(ws[k].q) && O.Race(ws[k].q)
    ensures InRead(ws[k]) && Enabled(c, ws[k], ThreadStep)
    ensures var w' := Do(c, ws[k], ThreadStep);
            && w'.q.consumer.Releasing? && |w'.q.popped| == |ws[k].q.popped| + 1
            && !w'.q.popped[|ws[k].q.popped|].Holds? && !Enabled(c, w', ThreadStep)
  {
    hide Run, RaceFreeBefore, L.HandedOver, L.Stoppable, Handled, Issued, Admitted, O.Race, O.Faithful;
    var q := ws[k].q;
    SaneWhileRaceFree(c, ws, k);
    O.RaceIsOnTheTakenTicket(q);
    assert q.consumer.slot == |q.popped| % q.cap;
  }
}
