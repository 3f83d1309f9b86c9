/**
 The asynchronous logger over the real queue with any number of concurrent callers, in whatever order
 they publish. As long as the run has not raced, entries reach the sinks in the order of the tickets
 and none is lost; a race can come about exactly when `m_max_read` has passed the stored prefix and
 the logging thread still reads.
 */
module LoggerTickets {
  import opened LogSinks
  import L = Logger
  import S = LoggerShutdown
  import Q = LockFreeQueue
  import O = LockFreeQueueOrder
  import A = LockFreeQueueAtomic
  import opened LoggerQueue

  /** No state before `k` is a race. */
  ghost predicate RaceFreeBefore(ws: seq<World>, k: nat)
    requires k <= |ws|
  {
    forall j :: 0 <= j < k ==> Q.WellFormed(ws[j].q) && !O.Race(ws[j].q)
  }

  /** Whether a push that has its ticket and has not published is for `e`. */
  function Carries(p: Q.Producer<Entry>, pushed: seq<Entry>, e: Entry): nat {
    if Q.HasTicket(p) && p.ticket < |pushed| && pushed[p.ticket] == e then 1 else 0
  }

  /** How many such pushes are for `e`. */
  function Carried(ps: seq<Q.Producer<Entry>>, pushed: seq<Entry>, e: Entry): nat {
    if ps == [] then 0 else Carries(ps[0], pushed, e) + Carried(ps[1..], pushed, e)
  }

  /** The thread has had the entries whose reservation is given back, in ticket order. */
  ghost predicate Handled(w: World) {
    && 0 <= Q.Released(w.q) <= |w.q.pushed|
    && w.log.delivered + L.InHand(w.log.thread) == w.q.pushed[..Q.Released(w.q)]
  }

  /** The tickets issued are the entries accepted and those of the pushes on their way. */
  ghost predicate Issued(w: World) {
    && |w.log.accepted| == w.q.maxRead
    && forall e :: multiset(w.log.accepted)[e] + Carried(w.q.producers, w.q.pushed, e) == multiset(w.q.pushed)[e]
  }

  /** The entries accepted are those of the calls that returned Ok, the ones above the minimum level. */
  ghost predicate Admitted(c: L.Config, log: L.State) {
    && log.accepted == Keep(log.ok, c.minimum + 1)
    && (forall i :: 0 <= i < |log.callers| && !log.callers[i].Idle? ==> log.callers[i].entry.level > c.minimum)
  }

  /** What a run keeps until it has raced. */
  ghost predicate Sane(c: L.Config, w: World) {
    && O.Ordered(w.q) && O.Vacant(w.q) && Coupled(c, w)
    && L.Stoppable(w.log) && L.HandedOver(c, w.log)
    && Handled(w) && Issued(w) && Admitted(c, w.log)
  }

  // ---------------------------------------------------------------------------------------------
  // Each part of the invariant, step by step

  lemma {:induction false} QueueNext(q: Q.State<Entry>, q': Q.State<Entry>)
    requires O.Ordered(q) && O.Vacant(q) && !O.Race(q) && Q.Next(q, q') && |q'.pushed| <= Q.MAX_PUSHES
    ensures O.Ordered(q') && O.Vacant(q')
  {
    hide O.Ordered, O.Vacant, Q.Do, Q.Enabled;
    var a :| Q.Enabled(q, a) && q' == Q.Do(q, a);
    O.StepOrdered(q, a);
    O.StepVacant(q, a);
  }

  lemma {:induction false} ReadCoupled(c: L.Config, w: World)
    requires Coupled(c, w) && InRead(w) && Enabled(c, w, ThreadStep)
    ensures Coupled(c, DoRead(c, w))
  {
  }

  lemma {:induction false} EnterCoupled(c: L.Config, w: World, i: nat)
    requires Coupled(c, w) && Enabled(c, w, Enter(i))
    ensures Coupled(c, Do(c, w, Enter(i)))
  {
  }

  lemma {:induction false} StepCoupled(c: L.Config, w: World, a: Action)
    requires Coupled(c, w) && Q.Counted(w.q) && Enabled(c, w, a)
    ensures Coupled(c, Do(c, w, a))
  {
    hide Coupled, Q.WellFormed;
    match a
    case Enter(i) => EnterCoupled(c, w, i);
    case Advance(i) => AdvanceCoupled(c, w, i);
    case _ =>
      if a.ThreadStep? && InRead(w) {
        ReadCoupled(c, w);
      } else {
        LoggerStepCoupled(c, w, a);
      }
  }

  /** A step of the logger that leaves the queue alone is one of the logger over an atomic queue. */
  lemma {:induction false} LoggerActionDoes(c: L.Config, w: World, a: Action)
    requires LeavesQueue(w, a) && Enabled(c, w, a)
    ensures L.Enabled(c, w.log, LoggerAction(a)) && Do(c, w, a) == w.(log := L.Do(c, w.log, LoggerAction(a)))
  {
  }

  lemma {:induction false} StepKeepsProtocol(c: L.Config, w: World, a: Action)
    requires L.Stoppable(w.log) && L.HandedOver(c, w.log) && Enabled(c, w, a)
    ensures L.Stoppable(Do(c, w, a).log) && L.HandedOver(c, Do(c, w, a).log)
  {
    hide Keep, Q.WellFormed, Q.ProducerStep, Q.ConsumerStep;
    if LeavesQueue(w, a) {
      hide L.Stoppable, L.HandedOver, Enabled, Do;
      LoggerActionDoes(c, w, a);
      L.StepStoppable(c, w.log, LoggerAction(a));
      L.StepHandedOver(c, w.log, LoggerAction(a));
    }
  }

  // ---------------------------------------------------------------------------------------------
  // Accounting

  lemma {:induction false} CarriedUpdate(ps: seq<Q.Producer<Entry>>, i: nat, p: Q.Producer<Entry>,
                                         pushed: seq<Entry>, e: Entry)
    requires i < |ps|
    ensures Carried(ps[i := p], pushed, e) == Carried(ps, pushed, e) - Carries(ps[i], pushed, e) + Carries(p, pushed, e)
  {
    if i == 0 {
      assert ps[i := p][1..] == ps[1..];
    } else {
      CarriedUpdate(ps[1..], i - 1, p, pushed, e);
      assert ps[i := p][1..] == ps[1..][i - 1 := p];
    }
  }

  lemma {:induction false} CarriedGrows(ps: seq<Q.Producer<Entry>>, pushed: seq<Entry>, more: Entry, e: Entry)
    requires forall i :: 0 <= i < |ps| && Q.HasTicket(ps[i]) ==> ps[i].ticket < |pushed|
    ensures Carried(ps, pushed + [more], e) == Carried(ps, pushed, e)
  {
    if ps != [] {
      assert forall i :: 0 <= i < |ps[1..]| ==> ps[1..][i] == ps[i + 1];
      CarriedGrows(ps[1..], pushed, more, e);
    }
  }

  lemma {:induction false} CarriedNone(ps: seq<Q.Producer<Entry>>, pushed: seq<Entry>, e: Entry)
    requires forall i :: 0 <= i < |ps| ==> !Q.HasTicket(ps[i])
    ensures Carried(ps, pushed, e) == 0
  {
    if ps != [] {
      CarriedNone(ps[1..], pushed, e);
    }
  }

  /** What an access of a push does to the entries on their way. */
  lemma {:induction false} ProducerStepCarries(q: Q.State<Entry>, i: nat, e: Entry)
    requires Q.Tickets(q) && Q.Enabled(q, Q.Advance(i)) && q.write == |q.pushed|
    ensures var q', p := Q.ProducerStep(q, i), q.producers[i];
            && (p.Stored? ==> p.ticket < |q.pushed|)
            && q'.pushed == q.pushed + (if p.Reserved? then [p.value] else [])
            && Carried(q'.producers, q'.pushed, e) == Carried(q.producers, q.pushed, e)
               + (if p.Reserved? && p.value == e then 1 else 0)
               - (if p.Stored? && q.pushed[p.ticket] == e then 1 else 0)
  {
    hide Carried, Q.WellFormed;
    var q', p := Q.ProducerStep(q, i), q.producers[i];
    CarriedUpdate(q.producers, i, q'.producers[i], q'.pushed, e);
    if p.Reserved? {
      CarriedGrows(q.producers, q.pushed, p.value, e);
    }
  }

  /** What an access of a push does to the numbers of tickets issued and entries accepted. */
  lemma {:induction false} AdvanceCounts(c: L.Config, w: World, i: nat)
    requires Coupled(c, w) && Q.Counted(w.q) && Enabled(c, w, Advance(i))
    ensures var w', p := DoAdvance(c, w, i), w.q.producers[i];
            && w'.q == Q.ProducerStep(w.q, i)
            && (p.Stored? ==> p.ticket < |w.q.pushed|)
            && w'.q.maxRead == w.q.maxRead + (if p.Stored? then 1 else 0)
            && w'.log.accepted == w.log.accepted + (if p.Stored? then [w.q.pushed[p.ticket]] else [])
  {
    var p := w.q.producers[i];
    assert Matches(c, w.log.callers[i], p, w.q.pushed);
  }

  lemma {:induction false} AdvanceIssued(c: L.Config, w: World, i: nat)
    requires Issued(w) && Coupled(c, w) && Q.Counted(w.q) && Enabled(c, w, Advance(i))
    ensures Issued(DoAdvance(c, w, i))
  {
    hide Carried, Q.WellFormed, Q.ProducerStep, DoAdvance, Coupled, Q.Balanced, Q.Tickets;
    var w', p := DoAdvance(c, w, i), w.q.producers[i];
    AdvanceCounts(c, w, i);
    assert w.q.write == |w.q.pushed| by { CountedWrite(w.q); }
    forall e
      ensures multiset(w'.log.accepted)[e] + Carried(w'.q.producers, w'.q.pushed, e) == multiset(w'.q.pushed)[e]
    {
      ProducerStepCarries(w.q, i, e);
    }
  }

  lemma {:induction false} CountedWrite(q: Q.State<Entry>)
    requires Q.Counted(q)
    ensures q.write == |q.pushed|
  {
  }

  lemma {:induction false} SameIssued(w: World, w': World)
    requires Issued(w) && w'.log.accepted == w.log.accepted && w'.q.maxRead == w.q.maxRead && w'.q.pushed == w.q.pushed
    requires forall e :: Carried(w'.q.producers, w.q.pushed, e) == Carried(w.q.producers, w.q.pushed, e)
    ensures Issued(w')
  {
    hide Carried;
  }

  lemma {:induction false} StepIssued(c: L.Config, w: World, a: Action)
    requires Issued(w) && Coupled(c, w) && Q.Counted(w.q) && Enabled(c, w, a)
    ensures Issued(Do(c, w, a))
  {
    hide Issued, Coupled, Carried, Q.WellFormed, Q.Balanced, Q.Tickets;
    match a
    case Enter(i) =>
      var p := Do(c, w, a).q.producers[i];
      forall e ensures Carried(w.q.producers[i := p], w.q.pushed, e) == Carried(w.q.producers, w.q.pushed, e) {
        CarriedUpdate(w.q.producers, i, p, w.q.pushed, e);
      }
      SameIssued(w, Do(c, w, a));
    case Advance(i) => AdvanceIssued(c, w, i);
    case _ => SameIssued(w, Do(c, w, a));
  }

  lemma {:induction false} ReadHandled(c: L.Config, w: World)
    requires Handled(w) && O.Ordered(w.q) && InRead(w) && Enabled(c, w, ThreadStep)
    ensures Handled(DoRead(c, w))
  {
    hide Q.Count;
    var q, n := w.q, Q.Released(w.q);
    if q.consumer.Releasing? {
      assert q.popped[n] == Q.Holds(q.pushed[n]);
      assert q.pushed[..n] + [q.pushed[n]] == q.pushed[..n + 1];
    }
  }

  lemma {:induction false} StepHandled(c: L.Config, w: World, a: Action)
    requires Handled(w) && O.Ordered(w.q) && Enabled(c, w, a)
    ensures Handled(Do(c, w, a))
  {
    hide Q.WellFormed, O.Ordered;
    if a.ThreadStep? && InRead(w) {
      ReadHandled(c, w);
    } else {
      assert Do(c, w, a).q.pushed[..Q.Released(w.q)] == w.q.pushed[..Q.Released(w.q)];
    }
  }

  lemma {:induction false} StepAdmitted(c: L.Config, w: World, a: Action)
    requires Admitted(c, w.log) && Enabled(c, w, a)
    ensures Admitted(c, Do(c, w, a).log)
  {
    hide Keep, Q.WellFormed, Q.ProducerStep, Q.ConsumerStep;
    if a.Log? {
      KeepAppend(w.log.ok, a.entry, c.minimum + 1);
    } else if a.Advance? {
      KeepAppend(w.log.ok, w.log.callers[a.caller].entry, c.minimum + 1);
    }
  }

  lemma {:induction false} SaneStep(c: L.Config, w: World, w': World)
    requires Sane(c, w) && !O.Race(w.q) && Next(c, w, w') && |w'.q.pushed| <= Q.MAX_PUSHES
    ensures Sane(c, w')
  {
    hide O.Vacant, O.Behind, O.Faithful, Q.Balanced, Q.Tickets, Coupled, Handled, Issued, Admitted,
         L.Stoppable, L.HandedOver, Do, Enabled, Q.WellFormed, Q.Next, O.Race;
    QueueStep(c, w, w');
    if w'.q != w.q { QueueNext(w.q, w'.q); }
    var a :| Enabled(c, w, a) && w' == Do(c, w, a);
    StepCoupled(c, w, a);
    StepKeepsProtocol(c, w, a);
    StepHandled(c, w, a);
    StepIssued(c, w, a);
    StepAdmitted(c, w, a);
  }

  lemma {:induction false} InitSane(c: L.Config, w: World)
    requires Init(c, w)
    ensures Sane(c, w)
  {
    O.InitOrdered(w.q);
    forall e ensures Carried(w.q.producers, w.q.pushed, e) == 0 {
      CarriedNone(w.q.producers, w.q.pushed, e);
    }
  }

  lemma {:induction false} SaneWhileRaceFree(c: L.Config, ws: seq<World>, k: nat)
    requires Run(c, ws) && k < |ws| && RaceFreeBefore(ws, k)
    ensures Sane(c, ws[k])
  {
    hide Sane, Init, Next, O.Race, Q.WellFormed;
    if k == 0 {
      InitSane(c, ws[0]);
    } else {
      SaneWhileRaceFree(c, ws, k - 1);
      assert StepAt(c, ws, k);
      SaneStep(c, ws[k - 1], ws[k]);
    }
  }

  // ---------------------------------------------------------------------------------------------
  // Nothing is lost, in the order of the tickets

  lemma {:induction false} ClaimedIsNext(w: World)
    requires O.Ordered(w.q) && (!w.q.consumer.Waiting? ==> InRead(w))
    ensures A.InRange(w.q)
    ensures L.InHand(ThreadOf(w)) == L.InHand(w.log.thread) + w.q.pushed[Q.Released(w.q)..w.q.read]
  {
    A.BothInRange(w.q);
  }

  /** In every state of every run that has not raced, however many the callers and whatever the order
      in which they publish: delivered, in hand (or claimed by a read) and visible in the queue are the
      first `m_max_read` entries in ticket order, and each sink has got the delivered part plus at most
      the entry in hand. As many entries were accepted, and those accepted and those of the pushes on
      their way are together the entries that got tickets. */
  lemma {:induction false} NothingLostInTicketOrder(c: L.Config, ws: seq<World>, k: nat)
    requires Run(c, ws) && k < |ws| && RaceFreeBefore(ws, k)
    ensures A.InRange(ws[k].q)
    ensures var w := ws[k];
            && w.log.delivered + L.InHand(ThreadOf(w)) + A.Visible(w.q) == w.q.pushed[..w.q.maxRead]
            && L.HandedOver(c, w.log) && Issued(w) && Admitted(c, w.log)
  {
    hide O.Ordered, O.Vacant, Issued, Admitted, L.HandedOver, L.Stoppable, ThreadOf, L.InHand, Run;
    SaneWhileRaceFree(c, ws, k);
    ClaimedIsNext(ws[k]);
    var q, n := ws[k].q, Q.Released(ws[k].q);
    assert q.pushed[..n] + q.pushed[n..q.read] + q.pushed[q.read..q.maxRead] == q.pushed[..q.maxRead];
  }

  /** A run in which `m_max_read` never passes the stored prefix does not race. */
  lemma {:induction false} StoredPrefixIsRaceFree(c: L.Config, ws: seq<World>, k: nat)
    requires Run(c, ws) && k <= |ws| && forall j :: 0 <= j < k ==> O.StoredPrefix(ws[j].q)
    ensures RaceFreeBefore(ws, k)
  {
    hide Run, Sane, O.StoredPrefix;
    if k > 0 {
      StoredPrefixIsRaceFree(c, ws, k - 1);
      SaneWhileRaceFree(c, ws, k - 1);
      SaneIsCounted(c, ws[k - 1]);
      O.StoredPrefixIsRaceFree(ws[k - 1].q);
    }
  }

  lemma {:induction false} SaneIsCounted(c: L.Config, w: World)
    requires Sane(c, w)
    ensures Q.Counted(w.q)
  {
  }

  /** A run in which callers publish by ticket does not race. */
  lemma {:induction false} ByTicketIsRaceFree(c: L.Config, ws: seq<World>, k: nat)
    requires Run(c, ws) && ByTicket(ws) && k <= |ws|
    ensures RaceFreeBefore(ws, k)
  {
    hide Run, ByTicket, Sound, O.Race, Q.WellFormed;
    forall j | 0 <= j < k ensures Q.WellFormed(ws[j].q) && !O.Race(ws[j].q) {
      var ss := RefinesAtomicLogger(c, ws, j);
      SoundInRange(ws[j].q);
    }
  }

  // ---------------------------------------------------------------------------------------------
  // After join

  lemma {:induction false} StepAfterFlush(c: L.Config, w: World, a: Action)
    requires Coupled(c, w) && Q.Counted(w.q) && Issued(w) && Enabled(c, w, a) && Issued(Do(c, w, a))
    requires Q.Counted(Do(c, w, a).q)
    ensures var w' := Do(c, w, a);
            && |w.log.accepted| <= |w'.log.accepted|
            && (w.log.thread.Done? ==> w'.log.thread.Done? && w'.q.read == w.q.read)
            && (!w.log.thread.Done? && w'.log.thread.Done? ==> w'.q.read == w'.q.maxRead)
  {
    hide Carried, Q.Count, Q.Tickets;
    if a.Advance? { AdvanceCounts(c, w, a.caller); }
  }

  lemma {:induction false} DrainedIffNoLatePush(c: L.Config, ws: seq<World>, k: nat)
    requires Run(c, ws) && k < |ws| && RaceFreeBefore(ws, k)
    ensures Sane(c, ws[k])
    ensures ws[k].log.thread.Done? ==> (ws[k].q.read == ws[k].q.maxRead <==> NoLatePush(ws, k))
    ensures !ws[k].log.thread.Done? ==> NoLatePush(ws, k)
  {
    hide Init, Next, O.Ordered, O.Vacant, O.Race, Coupled, L.Stoppable, L.HandedOver, Handled, Carried, Admitted,
         Q.WellFormed;
    SaneWhileRaceFree(c, ws, k);
    if k == 0 {
      InitNotDone(c, ws[0]);
    } else {
      DrainedIffNoLatePush(c, ws, k - 1);
      assert StepAt(c, ws, k);
      NextAfterFlush(c, ws[k - 1], ws[k]);
      assert NoLatePush(ws, k) <==> NoLatePush(ws, k - 1) && !LatePush(ws, k);
    }
  }

  lemma {:induction false} NextAfterFlush(c: L.Config, w: World, w': World)
    requires Sane(c, w) && Sane(c, w') && Next(c, w, w')
    ensures |w.log.accepted| <= |w'.log.accepted| && w.q.read <= w.q.maxRead
    ensures w.log.thread.Done? ==> w'.log.thread.Done? && w'.q.read == w.q.read
    ensures !w.log.thread.Done? && w'.log.thread.Done? ==> w'.q.read == w'.q.maxRead
  {
    hide O.Faithful, O.Behind, O.Vacant, Coupled, L.Stoppable, L.HandedOver, Handled, Issued, Admitted, Enabled, Do,
         Q.Tickets;
    var a :| Enabled(c, w, a) && w' == Do(c, w, a);
    StepAfterFlush(c, w, a);
  }

  /** After `join`, if the run has not raced, each sink was handed the first `m_max_read` entries in
      ticket order if and only if none was accepted after the flush loop ended. With no call in
      progress, that is a rearrangement of what the synchronous logger hands it for the same calls. */
  lemma {:induction false} JoinedInTicketOrderIff(c: L.Config, ws: seq<World>, k: nat, j: nat)
    requires Run(c, ws) && k < |ws| && RaceFreeBefore(ws, k) && ws[k].log.owner.Joined? && j < |c.sinks|
    ensures |ws[k].log.handed| == |ws[k].log.emitted| == |c.sinks| && ws[k].q.maxRead <= |ws[k].q.pushed|
    ensures var w := ws[k];
            && (w.log.handed[j] == w.q.pushed[..w.q.maxRead] <==> NoLatePush(ws, k))
            && w.log.emitted[j] == Keep(w.log.handed[j], c.sinks[j])
            && (S.Quiet(w.log) ==>
                  (multiset(w.log.handed[j]) == multiset(Keep(w.log.ok, c.minimum + 1)) <==> NoLatePush(ws, k)))
  {
    hide Run, RaceFreeBefore, O.Ordered, O.Vacant, Issued, NoLatePush, Keep;
    var w := ws[k];
    DrainedIffNoLatePush(c, ws, k);
    ClaimedIsNext(w);
    assert w.log.handed[j] == w.log.delivered == w.q.pushed[..Q.Released(w.q)];
    assert Q.Released(w.q) == w.q.read by { ReadIsReleased(w.q); }
    if S.Quiet(w.log) {
      SaneIsCounted(c, w);
      AcceptedAtRest(c, w);
      PrefixHasAll(w.q.pushed, w.q.read);
      assert w.log.accepted == Keep(w.log.ok, c.minimum + 1);
    }
  }

  lemma {:induction false} PrefixHasAll(s: seq<Entry>, n: nat)
    requires n <= |s|
    ensures multiset(s[..n]) == multiset(s) <==> n == |s|
  {
    assert n == |s| ==> s[..n] == s;
    assert |multiset(s[..n])| == n && |multiset(s)| == |s|;
  }

  lemma {:induction false} ReadIsReleased(q: Q.State<Entry>)
    requires O.Ordered(q) && q.consumer.Waiting?
    ensures Q.Released(q) == q.read
  {
  }

  lemma {:induction false} AcceptedAtRest(c: L.Config, w: World)
    requires Q.Counted(w.q) && Coupled(c, w) && Issued(w) && S.Quiet(w.log)
    ensures w.q.maxRead == |w.q.pushed| == |w.log.accepted| && multiset(w.log.accepted) == multiset(w.q.pushed)
  {
    forall i | 0 <= i < |w.q.producers| ensures w.q.producers[i].Idle? {
      assert Matches(c, w.log.callers[i], w.q.producers[i], w.q.pushed);
    }
    Q.CountBounds(w.q.producers, Q.InFlight);
    forall e ensures multiset(w.log.accepted)[e] == multiset(w.q.pushed)[e] {
      CarriedNone(w.q.producers, w.q.pushed, e);
    }
  }
}
