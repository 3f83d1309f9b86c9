/**
 What becomes of the calls of `log` over the real queue, with any number of callers and in any order of
 publication, racing or not: each makes one push, which under DropWhenFull is over after five accesses,
 and returns Ok exactly with its entry accepted.
 */
module LoggerQueueCalls {
  import opened LogSinks
  import L = Logger
  import Q = LockFreeQueue
  import O = LockFreeQueueOrder
  import C = LockFreeQueueCalls
  import LC = LoggerCalls
  import opened LoggerQueue
  import T = LoggerTickets

  lemma {:induction false} NextCoupled(c: L.Config, w: World, w': World)
    requires Coupled(c, w) && Q.Counted(w.q) && Next(c, w, w') && |w'.q.pushed| <= Q.MAX_PUSHES
    ensures Coupled(c, w') && Q.Counted(w'.q)
  {
    hide Coupled, Q.Balanced, Q.Tickets, Q.WellFormed, Q.Next, Do, Enabled;
    QueueStep(c, w, w');
    if w'.q != w.q { O.NextCounted(w.q, w'.q); }
    var a :| Enabled(c, w, a) && w' == Do(c, w, a);
    T.StepCoupled(c, w, a);
  }

  lemma {:induction false} InitMatches(c: L.Config, w: World)
    requires Init(c, w)
    ensures Coupled(c, w) && Q.Counted(w.q)
  {
    Q.InitCounted(w.q);
  }

  lemma {:induction false} CoupledInEveryState(c: L.Config, ws: seq<World>, k: nat)
    requires Run(c, ws) && k < |ws|
    ensures Coupled(c, ws[k]) && Q.Counted(ws[k].q)
  {
    hide Coupled, Q.Balanced, Q.Tickets, Q.WellFormed, Next, Init;
    if k == 0 {
      InitMatches(c, ws[0]);
    } else {
      CoupledInEveryState(c, ws, k - 1);
      assert StepAt(c, ws, k);
      NextCoupled(c, ws[k - 1], ws[k]);
    }
  }

  // ---------------------------------------------------------------------------------------------
  // One call

  function CallerOf(w: World, i: nat): L.Caller {
    if i < |w.log.callers| then w.log.callers[i] else L.Idle
  }

  function ProducerOf(w: World, i: nat): Q.Producer<Entry> {
    if i < |w.q.producers| then w.q.producers[i] else Q.Idle
  }

  /** Caller `i` begins a call of `log` for `e` at step `j` and is inside it up to `k`. */
  ghost predicate InsideLog(ws: seq<World>, i: nat, j: nat, k: nat, e: Entry) {
    && 0 < j <= k < |ws| && CallerOf(ws[j - 1], i).Idle?
    && (CallerOf(ws[j], i) == L.Signalling(e) || CallerOf(ws[j], i) == L.Pushing(e))
    && (forall m :: j < m <= k ==> !CallerOf(ws[m], i).Idle?)
  }

  /** How many accesses a push has made since its last try began. */
  function Progress(p: Q.Producer<Entry>): nat {
    match p
    case Idle => 0
    case Trying(_, _) => 1
    case Undoing(_, _) => 2
    case Reserved(_) => 2
    case Ticketed(_, _) => 3
    case Stored(_) => 4
  }

  predicate Accessed(w: World, w': World, i: nat) {
    ProducerOf(w', i) != ProducerOf(w, i)
  }

  /** The accesses of caller `i` to the queue from state `j` to state `k`. */
  function Accesses(ws: seq<World>, i: nat, j: nat, k: nat): nat
    requires j <= k < |ws|
  {
    if k == j then 0 else Accesses(ws, i, j, k - 1) + if Accessed(ws[k - 1], ws[k], i) then 1 else 0
  }

  /** Those of them that begin a push. */
  function Entries(ws: seq<World>, i: nat, j: nat, k: nat): nat
    requires j <= k < |ws|
  {
    if k == j then 0
    else Entries(ws, i, j, k - 1) + if ProducerOf(ws[k - 1], i).Idle? && Accessed(ws[k - 1], ws[k], i) then 1 else 0
  }

  /** Those of them that undo a refused try. */
  function Undos(ws: seq<World>, i: nat, j: nat, k: nat): nat
    requires j <= k < |ws|
  {
    if k == j then 0
    else Undos(ws, i, j, k - 1) + if ProducerOf(ws[k - 1], i).Undoing? && Accessed(ws[k - 1], ws[k], i) then 1 else 0
  }

  /** A call begins with nothing of a push done, for an entry above the minimum level. */
  lemma {:induction false} StepBegins(c: L.Config, w: World, a: Action, i: nat)
    requires Coupled(c, w) && Enabled(c, w, a) && CallerOf(w, i).Idle? && !CallerOf(Do(c, w, a), i).Idle?
    ensures ProducerOf(Do(c, w, a), i).Idle? && a.Log? && a.caller == i
    ensures CallerOf(Do(c, w, a), i).entry == a.entry && a.entry.level > c.minimum
  {
    assert i < |w.log.callers| ==> Matches(c, w.log.callers[i], w.q.producers[i], w.q.pushed);
  }

  /** The call for `e` returns: Ok with its entry accepted, or an error under DropWhenFull, counted. */
  ghost predicate Returns(c: L.Config, w: World, w': World, i: nat, e: Entry) {
    var p, log, log' := ProducerOf(w, i), w.log, w'.log;
    && ProducerOf(w', i).Idle?
    && if p.Stored? then
         log'.ok == log.ok + [e] && log'.accepted == log.accepted + [e] && log'.rejected == log.rejected
       else
         && p == Q.Undoing(e, false) && c.policy.DropWhenFull?
         && log'.ok == log.ok && log'.accepted == log.accepted && log'.rejected == log.rejected + 1
  }

  /** What any step is to a call in progress: it returns, or its push goes on. */
  ghost predicate GoesOn(c: L.Config, w: World, w': World, i: nat, e: Entry) {
    var p, p' := ProducerOf(w, i), ProducerOf(w', i);
    && !CallerOf(w', i).Idle? && CallerOf(w', i).entry == e
    && (Accessed(w, w', i) ==>
          && !p'.Idle?
          && Progress(p') + (if p.Undoing? then 2 else 0) == Progress(p) + 1
          && (p.Undoing? ==> c.policy.BlockWhenFull?))
  }

  /** The caller's own access of the queue. */
  lemma {:induction false} AdvanceInside(c: L.Config, w: World, i: nat, e: Entry)
    requires Coupled(c, w) && Enabled(c, w, Advance(i)) && CallerOf(w, i) == L.Pushing(e)
    ensures var w' := DoAdvance(c, w, i);
            if CallerOf(w', i).Idle? then Returns(c, w, w', i, e) else GoesOn(c, w, w', i, e)
  {
    hide Q.WellFormed;
    assert Matches(c, w.log.callers[i], w.q.producers[i], w.q.pushed);
  }

  /** Steps of the others, and those of the caller before its push. */
  lemma {:induction false} OtherInside(c: L.Config, w: World, a: Action, i: nat, e: Entry)
    requires Coupled(c, w) && Enabled(c, w, a) && !(a.Advance? && a.caller == i)
    requires !CallerOf(w, i).Idle? && CallerOf(w, i).entry == e
    ensures GoesOn(c, w, Do(c, w, a), i, e)
  {
    hide Q.WellFormed;
    assert Matches(c, w.log.callers[i], w.q.producers[i], w.q.pushed);
  }

  lemma {:induction false} StepInside(c: L.Config, w: World, a: Action, i: nat, e: Entry)
    requires Coupled(c, w) && Enabled(c, w, a) && !CallerOf(w, i).Idle? && CallerOf(w, i).entry == e
    ensures var w' := Do(c, w, a);
            if CallerOf(w', i).Idle? then Returns(c, w, w', i, e) else GoesOn(c, w, w', i, e)
  {
    hide Q.WellFormed, Coupled, DoAdvance, Returns;
    if a.Advance? && a.caller == i {
      AdvanceInside(c, w, i, e);
    } else {
      OtherInside(c, w, a, i, e);
    }
  }

  lemma {:induction false} NextInside(c: L.Config, w: World, w': World, i: nat, e: Entry)
    requires Coupled(c, w) && Next(c, w, w') && !CallerOf(w, i).Idle? && CallerOf(w, i).entry == e
    ensures if CallerOf(w', i).Idle? then Returns(c, w, w', i, e) else GoesOn(c, w, w', i, e)
  {
    hide Coupled, Enabled, Do, Returns, GoesOn, CallerOf;
    var a :| Enabled(c, w, a) && w' == Do(c, w, a);
    StepInside(c, w, a, i, e);
  }

  lemma {:induction false} NextBegins(c: L.Config, w: World, w': World, i: nat)
    requires Coupled(c, w) && Next(c, w, w') && CallerOf(w, i).Idle? && !CallerOf(w', i).Idle?
    ensures ProducerOf(w', i).Idle?
  {
    hide Coupled, Enabled, Do, CallerOf;
    var a :| Enabled(c, w, a) && w' == Do(c, w, a);
    StepBegins(c, w, a, i);
  }

  /** Inside a call: it pushes once, each access takes the push further but for the undoing of a refused
      try, after which it tries again, and under DropWhenFull that does not happen. So under
      DropWhenFull a call in progress has made at most four accesses. */
  lemma {:induction false} CallIsShort(c: L.Config, ws: seq<World>, i: nat, j: nat, k: nat, e: Entry)
    requires Run(c, ws) && InsideLog(ws, i, j, k, e)
    ensures !CallerOf(ws[k], i).Idle? && CallerOf(ws[k], i).entry == e
    ensures Accesses(ws, i, j, k) == Progress(ProducerOf(ws[k], i)) + 2 * Undos(ws, i, j, k)
    ensures Entries(ws, i, j, k) == if ProducerOf(ws[k], i).Idle? then 0 else 1
    ensures c.policy.DropWhenFull? ==> Undos(ws, i, j, k) == 0 && Accesses(ws, i, j, k) <= 4
    decreases k
  {
    hide Run, Coupled, Q.Counted, Next, CallerOf, ProducerOf;
    CoupledInEveryState(c, ws, k - 1);
    assert Next(c, ws[k - 1], ws[k]) by { RunSteps(c, ws, k); }
    if k == j {
      NextBegins(c, ws[k - 1], ws[k], i);
    } else {
      CallIsShort(c, ws, i, j, k - 1, e);
      NextInside(c, ws[k - 1], ws[k], i, e);
    }
  }

  lemma {:induction false} RunSteps(c: L.Config, ws: seq<World>, k: nat)
    requires Run(c, ws) && 0 < k < |ws|
    ensures Next(c, ws[k - 1], ws[k])
  {
    hide Init, Next;
    assert StepAt(c, ws, k);
  }

  /** A call of `log` that returns does so with its entry accepted after five accesses and two more for
      every refused try, or, under DropWhenFull only, rejected after three. */
  lemma {:induction false} CallReturns(c: L.Config, ws: seq<World>, i: nat, j: nat, k: nat, e: Entry)
    requires Run(c, ws) && InsideLog(ws, i, j, k, e) && k + 1 < |ws| && CallerOf(ws[k + 1], i).Idle?
    ensures Returns(c, ws[k], ws[k + 1], i, e) && Entries(ws, i, j, k + 1) == 1
    ensures Accesses(ws, i, j, k + 1)
         == if ProducerOf(ws[k], i).Stored? then 5 + 2 * Undos(ws, i, j, k) else 3
  {
    hide Run, Coupled, Q.Counted, Next, CallerOf, ProducerOf;
    CallIsShort(c, ws, i, j, k, e);
    CoupledInEveryState(c, ws, k);
    RunSteps(c, ws, k + 1);
    NextInside(c, ws[k], ws[k + 1], i, e);
  }

  /** A caller inside `log` always has a step to take: in every state of every run, racing or not. */
  lemma {:induction false} CallerNeverStuck(c: L.Config, ws: seq<World>, k: nat, i: nat)
    requires Run(c, ws) && k < |ws| && !CallerOf(ws[k], i).Idle?
    ensures Enabled(c, ws[k], Signal(i)) || Enabled(c, ws[k], Enter(i)) || Enabled(c, ws[k], Advance(i))
  {
    CoupledInEveryState(c, ws, k);
    assert Matches(c, ws[k].log.callers[i], ws[k].q.producers[i], ws[k].q.pushed);
  }

  // ---------------------------------------------------------------------------------------------
  // Rejected calls

  /** How many refused tries were given up, up to state `k`. */
  ghost function Refusals(ws: seq<World>, k: nat): nat
    requires k < |ws|
  {
    if k == 0 then 0
    else Refusals(ws, k - 1) + C.Happened(C.Refusal, ws[k - 1].q.producers, ws[k].q.producers, (_: Entry) => true)
  }

  lemma {:induction false} StepRejects(c: L.Config, w: World, a: Action)
    requires Enabled(c, w, a)
    ensures var w' := Do(c, w, a);
            w'.log.rejected == w.log.rejected + C.Happened(C.Refusal, w.q.producers, w'.q.producers, (_: Entry) => true)
  {
    hide C.Happened, Q.WellFormed;
    var w', f := Do(c, w, a), (_: Entry) => true;
    if a.Enter? || a.Advance? {
      C.HappenedUpdate(C.Refusal, w.q.producers, a.caller, w'.q.producers[a.caller], f);
    } else {
      C.NothingHappened(C.Refusal, w.q.producers, f);
    }
  }

  /** In every run, `rejected` is the number of steps that give up a refused try. */
  lemma {:induction false} RejectedIsRefusals(c: L.Config, ws: seq<World>, k: nat)
    requires Run(c, ws) && k < |ws|
    ensures ws[k].log.rejected == Refusals(ws, k)
  {
    hide C.Happened, Enabled, Do;
    if k > 0 {
      RejectedIsRefusals(c, ws, k - 1);
      assert StepAt(c, ws, k);
      var a :| Enabled(c, ws[k - 1], a) && ws[k] == Do(c, ws[k - 1], a);
      StepRejects(c, ws[k - 1], a);
    }
  }

  // ---------------------------------------------------------------------------------------------
  // All calls

  /** A run and the actions taken in it. */
  ghost predicate Trace(c: L.Config, ws: seq<World>, actions: seq<Action>) {
    && |ws| == |actions| + 1 && Run(c, ws)
    && forall k :: 0 <= k < |actions| ==> Enabled(c, ws[k], actions[k]) && ws[k + 1] == Do(c, ws[k], actions[k])
  }

  function Logged(actions: seq<Action>, k: nat): seq<Entry>
    requires k <= |actions|
  {
    if k == 0 then [] else Logged(actions, k - 1) + if actions[k - 1].Log? then [actions[k - 1].entry] else []
  }

  /** The entry of a call that the step turns down, if it does. */
  function RefusedBy(w: World, a: Action): seq<Entry> {
    if a.Advance? && ProducerOf(w, a.caller).Undoing? && !ProducerOf(w, a.caller).blocking then
      [ProducerOf(w, a.caller).value]
    else []
  }

  function TurnedDown(ws: seq<World>, actions: seq<Action>, k: nat): seq<Entry>
    requires k <= |actions| <= |ws|
  {
    if k == 0 then [] else TurnedDown(ws, actions, k - 1) + RefusedBy(ws[k - 1], actions[k - 1])
  }

  lemma {:induction false} StepOnCalls(c: L.Config, w: World, a: Action, f: Entry -> bool)
    requires Coupled(c, w) && Enabled(c, w, a)
    ensures var w', down := Do(c, w, a), RefusedBy(w, a);
            && C.Matching(w'.log.ok, f) + LC.InProgress(w'.log.callers, f) + C.Matching(down, f)
               == C.Matching(w.log.ok, f) + LC.InProgress(w.log.callers, f) + (if a.Log? && f(a.entry) then 1 else 0)
            && w'.log.rejected == w.log.rejected + |down| && |down| <= 1
  {
    hide LC.InProgress, C.Matching, Q.WellFormed, Q.ConsumerStep, Q.ProducerStep;
    var w', down := Do(c, w, a), RefusedBy(w, a);
    C.MatchingNone(f);
    if a.Log? || a.Signal? || a.Advance? {
      var i := a.caller;
      LC.InProgressUpdate(w.log.callers, i, w'.log.callers[i], f);
      assert w.log.callers[i := w.log.callers[i]] == w.log.callers;
      if a.Log? { C.MatchingAppend(w.log.ok, a.entry, f); }
      if a.Advance? {
        var e := w.log.callers[i].entry;
        assert Matches(c, w.log.callers[i], w.q.producers[i], w.q.pushed);
        C.MatchingAppend(w.log.ok, e, f);
        C.MatchingAppend([], e, f);
        assert [] + [e] == [e];
      }
    }
  }

  /** In every state of every run, and for every choice `f` of entries: the calls of `log` are those that
      returned Ok, those in progress and those turned down, and `rejected` counts the last. */
  lemma {:induction false} LogCallsAccountedFor(c: L.Config, ws: seq<World>, actions: seq<Action>, k: nat,
                                                f: Entry -> bool)
    requires Trace(c, ws, actions) && k <= |actions|
    ensures C.Matching(Logged(actions, k), f)
         == C.Matching(ws[k].log.ok, f) + LC.InProgress(ws[k].log.callers, f)
            + C.Matching(TurnedDown(ws, actions, k), f)
    ensures |TurnedDown(ws, actions, k)| == ws[k].log.rejected
  {
    hide LC.InProgress, C.Matching, Do, Enabled, Coupled, RefusedBy;
    if k == 0 {
      C.MatchingNone(f);
      LC.QuietHasNoneInProgress(ws[0].log.callers, f);
    } else {
      LogCallsAccountedFor(c, ws, actions, k - 1, f);
      var w, a := ws[k - 1], actions[k - 1];
      assert Enabled(c, w, a) && ws[k - 1 + 1] == Do(c, w, a);
      CoupledInEveryState(c, ws, k - 1);
      StepOnCalls(c, w, a, f);
      var logged, down, more := Logged(actions, k - 1), TurnedDown(ws, actions, k - 1), RefusedBy(w, a);
      assert logged + [] == logged && down + [] == down;
      if a.Log? { C.MatchingAppend(logged, a.entry, f); }
      C.MatchingNone(f);
      if more != [] {
        C.MatchingAppend(down, more[0], f);
        C.MatchingAppend([], more[0], f);
        assert more == [more[0]] == [] + [more[0]];
      }
    }
  }

  lemma {:induction false} StepOnLow(c: L.Config, w: World, a: Action)
    requires Enabled(c, w, a) && T.Admitted(c, w.log)
    ensures LC.Low(Do(c, w, a).log.ok, c.minimum)
         == LC.Low(w.log.ok, c.minimum) + if a.Log? && a.entry.level <= c.minimum then [a.entry] else []
  {
    hide LC.Low, Q.WellFormed, Q.ProducerStep, Q.ConsumerStep;
    assert LC.Low(w.log.ok, c.minimum) + [] == LC.Low(w.log.ok, c.minimum);
    if a.Log? { LC.LowAppend(w.log.ok, a.entry, c.minimum); }
    if a.Advance? { LC.LowAppend(w.log.ok, w.log.callers[a.caller].entry, c.minimum); }
  }

  /** A call with an entry not above the minimum level is always possible, returns Ok at once and changes
      nothing else. */
  lemma {:induction false} LowCallsReturnAtOnce(c: L.Config, ws: seq<World>, actions: seq<Action>, k: nat)
    requires Trace(c, ws, actions) && k <= |actions|
    ensures LC.Low(ws[k].log.ok, c.minimum) == LC.Low(Logged(actions, k), c.minimum) && T.Admitted(c, ws[k].log)
    ensures forall i, e: Entry :: 0 <= i < |ws[k].log.callers| && ws[k].log.callers[i].Idle? && e.level <= c.minimum ==>
              && Enabled(c, ws[k], Log(i, e))
              && Do(c, ws[k], Log(i, e)) == ws[k].(log := ws[k].log.(ok := ws[k].log.ok + [e]))
  {
    hide LC.Low;
    if k > 0 {
      LowCallsReturnAtOnce(c, ws, actions, k - 1);
      var w, a := ws[k - 1], actions[k - 1];
      assert Enabled(c, w, a) && ws[k - 1 + 1] == Do(c, w, a);
      StepOnLow(c, w, a);
      T.StepAdmitted(c, w, a);
      var logged := Logged(actions, k - 1);
      assert logged + [] == logged && LC.Low(w.log.ok, c.minimum) + [] == LC.Low(w.log.ok, c.minimum);
      if a.Log? { LC.LowAppend(logged, a.entry, c.minimum); }
    }
  }
}
