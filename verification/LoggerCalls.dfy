/**
 What becomes of the calls of `log` over an atomic queue. Runs are taken together with the actions
 that made them, so that every call is on record.
 */
module LoggerCalls {
  import opened LogSinks
  import opened Logger
  import C = LockFreeQueueCalls

  /** A run and the actions taken in it. */
  ghost predicate Trace(c: Config, ss: seq<State>, actions: seq<Action>) {
    && |ss| == |actions| + 1 && Init(c, ss[0])
    && forall k :: 0 <= k < |actions| ==> Enabled(c, ss[k], actions[k]) && ss[k + 1] == Do(c, ss[k], actions[k])
  }

  /** Every run comes from some actions. */
  lemma {:induction false} RunHasTrace(c: Config, ss: seq<State>) returns (actions: seq<Action>)
    requires Run(c, ss)
    ensures Trace(c, ss, actions)
    decreases |ss|
  {
    hide Init, Enabled, Do;
    if |ss| == 1 {
      actions := [];
    } else {
      var init, n := ss[..|ss| - 1], |ss| - 1;
      forall k | 0 < k < n ensures StepAt(c, init, k) { assert StepAt(c, ss, k); }
      var before := RunHasTrace(c, init);
      assert StepAt(c, ss, n);
      var a :| Enabled(c, ss[n - 1], a) && ss[n] == Do(c, ss[n - 1], a);
      actions := before + [a];
      forall k | 0 <= k < n ensures Enabled(c, ss[k], actions[k]) && ss[k + 1] == Do(c, ss[k], actions[k]) {
        if k < n - 1 { assert Enabled(c, init[k], before[k]) && init[k + 1] == Do(c, init[k], before[k]); }
      }
    }
  }

  lemma {:induction false} TraceIsRun(c: Config, ss: seq<State>, actions: seq<Action>)
    requires Trace(c, ss, actions)
    ensures Run(c, ss)
  {
    hide Init, Enabled, Do;
    forall k | 0 < k < |ss| ensures StepAt(c, ss, k) {
      assert Enabled(c, ss[k - 1], actions[k - 1]) && ss[k] == Do(c, ss[k - 1], actions[k - 1]);
    }
  }

  /** The entries `log` was called with in the first `k` actions, in order. */
  function Logged(actions: seq<Action>, k: nat): seq<Entry>
    requires k <= |actions|
  {
    if k == 0 then [] else Logged(actions, k - 1) + if actions[k - 1].Log? then [actions[k - 1].entry] else []
  }

  /** The entries turned down by the queue in the first `k` steps, in order. */
  function TurnedDown(ss: seq<State>, actions: seq<Action>, k: nat): seq<Entry>
    requires k <= |actions| <= |ss|
  {
    if k == 0 then [] else TurnedDown(ss, actions, k - 1) + RefusedBy(actions[k - 1], ss[k - 1])
  }

  function RefusedBy(a: Action, s: State): seq<Entry> {
    if a.Refuse? && a.caller < |s.callers| && s.callers[a.caller].Pushing? then [s.callers[a.caller].entry] else []
  }

  /** The entries not above `limit`, in order. */
  function Low(es: seq<Entry>, limit: Level): seq<Entry> {
    if es == [] then [] else Low(es[..|es| - 1], limit) + if es[|es| - 1].level <= limit then [es[|es| - 1]] else []
  }

  lemma {:induction false} LowAppend(es: seq<Entry>, e: Entry, limit: Level)
    ensures Low(es + [e], limit) == Low(es, limit) + if e.level <= limit then [e] else []
  {
    assert (es + [e])[..|es|] == es;
  }

  ghost function Holds(caller: Caller, f: Entry -> bool): nat {
    if !caller.Idle? && f(caller.entry) then 1 else 0
  }

  /** How many calls in progress are for an entry that satisfies `f`. */
  ghost function InProgress(callers: seq<Caller>, f: Entry -> bool): nat {
    if callers == [] then 0 else Holds(callers[0], f) + InProgress(callers[1..], f)
  }

  lemma {:induction false} InProgressUpdate(callers: seq<Caller>, i: nat, p: Caller, f: Entry -> bool)
    requires i < |callers|
    ensures InProgress(callers[i := p], f) == InProgress(callers, f) - Holds(callers[i], f) + Holds(p, f)
  {
    if i == 0 {
      assert callers[i := p][1..] == callers[1..];
    } else {
      InProgressUpdate(callers[1..], i - 1, p, f);
      assert callers[i := p][1..] == callers[1..][i - 1 := p];
    }
  }

  lemma {:induction false} QuietHasNoneInProgress(callers: seq<Caller>, f: Entry -> bool)
    requires forall i :: 0 <= i < |callers| ==> callers[i].Idle?
    ensures InProgress(callers, f) == 0
  {
    if callers != [] { QuietHasNoneInProgress(callers[1..], f); }
  }

  /** One step: an entry is called with, and is in progress, returned Ok, or turned down. */
  lemma {:induction false} StepOnCalls(c: Config, s: State, a: Action, f: Entry -> bool)
    requires Enabled(c, s, a)
    ensures var s' := Do(c, s, a);
            && C.Matching(s'.ok, f) + InProgress(s'.callers, f)
               + (if a.Refuse? && f(s.callers[a.caller].entry) then 1 else 0)
               == C.Matching(s.ok, f) + InProgress(s.callers, f) + (if a.Log? && f(a.entry) then 1 else 0)
            && s'.rejected == s.rejected + if a.Refuse? then 1 else 0
  {
    hide InProgress, C.Matching;
    var s' := Do(c, s, a);
    if a.Log? || a.CallerStep? || a.Refuse? {
      var i := a.caller;
      InProgressUpdate(s.callers, i, s'.callers[i], f);
      assert s.callers[i := s.callers[i]] == s.callers;
      if a.Log? { C.MatchingAppend(s.ok, a.entry, f); }
      if a.CallerStep? { C.MatchingAppend(s.ok, s.callers[i].entry, f); }
    }
  }

  /** In every state of every run, and for every choice `f` of entries: the calls of `log` are those that
      returned Ok, those in progress and those turned down, and `rejected` counts the last. */
  lemma {:induction false} LogCallsAccountedFor(c: Config, ss: seq<State>, actions: seq<Action>, k: nat,
                                                f: Entry -> bool)
    requires Trace(c, ss, actions) && k <= |actions|
    ensures C.Matching(Logged(actions, k), f)
         == C.Matching(ss[k].ok, f) + InProgress(ss[k].callers, f) + C.Matching(TurnedDown(ss, actions, k), f)
    ensures |TurnedDown(ss, actions, k)| == ss[k].rejected
  {
    hide InProgress, Do;
    if k == 0 {
      QuietHasNoneInProgress(ss[0].callers, f);
    } else {
      LogCallsAccountedFor(c, ss, actions, k - 1, f);
      var s, a := ss[k - 1], actions[k - 1];
      assert Enabled(c, s, a) && ss[k - 1 + 1] == Do(c, s, a);
      StepOnCalls(c, s, a, f);
      var logged, down := Logged(actions, k - 1), TurnedDown(ss, actions, k - 1);
      assert logged + [] == logged && down + [] == down;
      if a.Log? { C.MatchingAppend(logged, a.entry, f); }
      if a.Refuse? { C.MatchingAppend(down, s.callers[a.caller].entry, f); }
    }
  }

  lemma {:induction false} StepOnLow(c: Config, s: State, a: Action)
    requires Enabled(c, s, a)
    requires forall i :: 0 <= i < |s.callers| && !s.callers[i].Idle? ==> s.callers[i].entry.level > c.minimum
    ensures Low(Do(c, s, a).ok, c.minimum)
         == Low(s.ok, c.minimum) + if a.Log? && a.entry.level <= c.minimum then [a.entry] else []
  {
    hide Low;
    assert Low(s.ok, c.minimum) + [] == Low(s.ok, c.minimum);
    if a.Log? { LowAppend(s.ok, a.entry, c.minimum); }
    if a.CallerStep? { LowAppend(s.ok, s.callers[a.caller].entry, c.minimum); }
  }

  /** A call with an entry not above the minimum level is always possible, returns Ok at once and changes
      nothing else: such entries are on record as returned exactly as they were called with, in order. */
  lemma {:induction false} LowCallsReturnAtOnce(c: Config, ss: seq<State>, actions: seq<Action>, k: nat)
    requires Trace(c, ss, actions) && k <= |actions|
    ensures Low(ss[k].ok, c.minimum) == Low(Logged(actions, k), c.minimum)
    ensures forall i, e: Entry :: 0 <= i < |ss[k].callers| && ss[k].callers[i].Idle? && e.level <= c.minimum ==>
              Enabled(c, ss[k], Log(i, e)) && Do(c, ss[k], Log(i, e)) == ss[k].(ok := ss[k].ok + [e])
  {
    hide Low;
    if k > 0 {
      LowCallsReturnAtOnce(c, ss, actions, k - 1);
      var s, a := ss[k - 1], actions[k - 1];
      assert Enabled(c, s, a) && ss[k - 1 + 1] == Do(c, s, a);
      assert Conserved(c, s) by {
        TraceIsRun(c, ss, actions);
        InvInEveryState(c, ss, k - 1);
      }
      StepOnLow(c, s, a);
      var logged := Logged(actions, k - 1);
      assert logged + [] == logged && Low(s.ok, c.minimum) + [] == Low(s.ok, c.minimum);
      if a.Log? { LowAppend(logged, a.entry, c.minimum); }
    }
  }
}
