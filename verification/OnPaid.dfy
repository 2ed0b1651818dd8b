/** The polling loop of `onPaid` (src/service/honor-service.ts) on top of the engine: a timer, a
    re-entrancy guard, a `cancel`, and honor calls that the rest of the world drives and interleaves
    with. */
module OnPaid {
  import opened HonorSpec
  import opened Gate
  import opened Engine
  import opened ExactlyOnce
  import opened Hypotheses

  datatype PaidResult = ResHonored(outpoint: Outpoint) | ResDeclined(reason: DeclineReason) | ResCancelled

  /** The `done` promise. */
  datatype Done = Pending | Resolved(result: PaidResult) | Rejected(fault: Fault)

  /** The await a tick is suspended at. */
  datatype Tick = Resting | Observing(now: int) | Observed | Honoring(id: nat)

  /** `ticks` holds the suspended activations of `tick`, numbered as they start; nothing but the
      `ticking` guard keeps them from overlapping. */
  datatype Loop = Loop(
    key: Key,
    registering: bool,
    timer: bool,
    settled: bool,
    ticking: bool,
    ticks: map<nat, Tick>,
    started: nat,
    done: Done)
  {
    /** Where the tick started last stands. */
    function Latest(): Tick { if started in ticks then ticks[started] else Resting }
  }

  /** `ids` (honor calls started by this loop) and `mine` (deliveries they committed) are for
      specification. */
  datatype LSys = LSys(sys: Sys, loop: Loop, ids: set<nat>, mine: seq<Delivery>)

  datatype LEvent =
    | World(e: Event)
    | RegisterReturned(fault: Option<Fault>, now: int)
    | IntervalFire(now: int)
    | ObserveEffect(tick: nat)
    | ObserveReturned(tick: nat, fault: Option<Fault>, now: int, id: nat)
    | HonorReturned(tick: nat)
    | Cancel

  predicate IsRetryableFault(f: Fault) { f.ChainFault? || f.KeystoreFault? || f.DbFault? || f.IndexerFault? }

  // ---- the loop's own steps -------------------------------------------------------------------------------

  function Settle(l: Loop, done: Done): Loop {
    if l.settled then l else l.(settled := true, timer := false, done := done)
  }

  function OnFault(l: Loop, f: Fault): Loop {
    if IsRetryableFault(f) then l else Settle(l, Rejected(f))
  }

  function OnOutcome(l: Loop, o: Outcome): Loop {
    match o
    case Honored(outpoint) => Settle(l, Resolved(ResHonored(outpoint)))
    case NotReady(Decline(reason)) => Settle(l, Resolved(ResDeclined(reason)))
    case Threw(f) => OnFault(l, f)
    case _ => l
  }

  /** Entry of `tick`: its guard, then the first await. */
  function StartTick(l: Loop, now: int): Loop {
    if l.settled || l.ticking then l
    else l.(ticking := true, started := l.started + 1, ticks := l.ticks[l.started + 1 := Observing(now)])
  }

  /** Return from `tick`: its `finally` lowers the guard. */
  function EndTick(l: Loop, t: nat): Loop { l.(ticking := false, ticks := l.ticks - {t}) }

  /** The continuation after `register`: a retryable fault falls through and the loop starts anyway. */
  function AfterRegister(l: Loop, fault: Option<Fault>, now: int): Loop {
    var l1 := if fault.Some? then OnFault(l, fault.value) else l;
    if l1.settled then l1.(registering := false)
    else StartTick(l1.(registering := false, timer := true), now)
  }

  function Added(before: seq<Delivery>, after: seq<Delivery>): seq<Delivery> {
    if |before| < |after| then after[|before|..] else []
  }

  function WorldStep(s: LSys, w: Event): LSys {
    var sys := Step(s.sys, w);
    s.(sys := sys, mine := if w.RunGate? && w.id in s.ids then s.mine + Added(s.sys.log, sys.log) else s.mine)
  }

  /** The honor call this tick awaits has ended. */
  predicate Answered(s: LSys, t: nat) {
    && t in s.loop.ticks && s.loop.ticks[t].Honoring? && s.loop.ticks[t].id in s.sys.calls
    && s.sys.calls[s.loop.ticks[t].id].pc.Ended?
  }

  function AnswerTo(s: LSys, t: nat): Outcome
    requires Answered(s, t)
  {
    s.sys.calls[s.loop.ticks[t].id].pc.outcome
  }

  /** One atomic section. The loop lives in one process, so the world does not restart it. */
  function LStep(s: LSys, e: LEvent): LSys {
    var l := s.loop;
    match e
    case World(w) => if w.Restart? then s else WorldStep(s, w)
    case RegisterReturned(fault, now) => if l.registering then s.(loop := AfterRegister(l, fault, now)) else s
    case IntervalFire(now) => if l.timer then s.(loop := StartTick(l, now)) else s
    case ObserveEffect(t) =>
      if t in l.ticks && l.ticks[t].Observing? then
        s.(sys := Step(s.sys, Observe(l.key, l.ticks[t].now)), loop := l.(ticks := l.ticks[t := Observed]))
      else s
    case ObserveReturned(t, Some(f), _, _) =>
      if t in l.ticks && l.ticks[t].Observing? then s.(loop := EndTick(OnFault(l, f), t)) else s
    case ObserveReturned(t, None, now, id) =>
      if t in l.ticks && l.ticks[t].Observed? && id !in s.sys.calls then
        s.(sys := Step(s.sys, Enter(id, l.key, now)),
        loop := l.(ticks := l.ticks[t := Honoring(id)]),
        ids := s.ids + {id})
      else s
    case HonorReturned(t) => if Answered(s, t) then s.(loop := EndTick(OnOutcome(l, AnswerTo(s, t)), t)) else s
    case Cancel => s.(loop := Settle(l, Resolved(ResCancelled)))
  }

  function LInit(k: Key): LSys { LSys(INITIAL, Loop(k, true, false, false, false, map[], 0, Pending), {}, []) }

  function LRun(k: Key, es: seq<LEvent>): LSys
    decreases |es|
  {
    if es == [] then LInit(k) else LStep(LRun(k, es[..|es| - 1]), es[|es| - 1])
  }

  // ---- the loop is one of the engine's interleavings ------------------------------------------------------

  /** The engine event behind a loop event, if any. */
  function EngineEvent(s: LSys, e: LEvent): seq<Event> {
    match e
    case World(w) => if w.Restart? then [] else [w]
    case ObserveEffect(t) =>
      if t in s.loop.ticks && s.loop.ticks[t].Observing? then [Observe(s.loop.key, s.loop.ticks[t].now)] else []
    case ObserveReturned(t, None, now, id) =>
      if t in s.loop.ticks && s.loop.ticks[t].Observed? && id !in s.sys.calls then [Enter(id, s.loop.key, now)] else []
    case _ => []
  }

  function EngineRun(k: Key, es: seq<LEvent>): seq<Event>
    decreases |es|
  {
    if es == [] then [] else EngineRun(k, es[..|es| - 1]) + EngineEvent(LRun(k, es[..|es| - 1]), es[|es| - 1])
  }

  lemma EngineSees(s: LSys, e: LEvent)
    ensures |EngineEvent(s, e)| <= 1
    ensures LStep(s, e).sys == if EngineEvent(s, e) == [] then s.sys else Step(s.sys, EngineEvent(s, e)[0])
  {
  }

  lemma {:induction false} LoopIsEngineRun(k: Key, es: seq<LEvent>)
    ensures LRun(k, es).sys == Run(EngineRun(k, es))
    decreases |es|
  {
    if es != [] {
      var before := es[..|es| - 1];
      LoopIsEngineRun(k, before);
      EngineSees(LRun(k, before), es[|es| - 1]);
      var past, u := EngineRun(k, before), EngineEvent(LRun(k, before), es[|es| - 1]);
      if u == [] { assert past + u == past; }
      else {
        assert u == [u[0]];
        RunSnoc(past, u[0]);
      }
    }
  }

  // ---- safety over all schedules --------------------------------------------------------------------------

  /** The call the tick in flight waits for has delivered, and nobody has told the loop yet. */
  predicate AnswerOnItsWay(s: LSys) { Answered(s, s.loop.started) && AnswerTo(s, s.loop.started).Honored? }

  predicate Shape(l: Loop) {
    && (l.settled <==> l.done != Pending)
    && (l.timer <==> !l.registering && !l.settled)
    && (forall t :: t in l.ticks ==> t == l.started && l.ticks[t] != Resting)
    && (l.ticking <==> l.Latest() != Resting)
    && (l.registering ==> l.Latest() == Resting)
    && (l.settled && l.done != Resolved(ResCancelled) ==> l.Latest() == Resting)
  }

  /** Every call of this loop but the awaited one has ended. */
  ghost predicate CallsEnded(s: LSys) {
    && (forall id :: id in s.ids ==> id in s.sys.calls && s.sys.calls[id].key == s.loop.key)
    && (s.loop.Latest().Honoring? ==> s.loop.Latest().id in s.ids)
    && (forall id :: id in s.ids && s.loop.Latest() != Honoring(id) ==> s.sys.calls[id].pc.Ended?)
  }

  ghost predicate Deliveries(s: LSys) {
    && |s.mine| <= 1
    && (forall d <- s.mine :: d in s.sys.log && d.key == s.loop.key)
    && (AnswerOnItsWay(s) ==> |s.mine| == 1 && s.mine[0].outpoint == AnswerTo(s, s.loop.started).outpoint)
    && (s.mine != [] ==> AnswerOnItsWay(s) || (s.loop.settled && s.loop.Latest() == Resting))
  }

  /** What the answer means. */
  ghost predicate AnswerIsTrue(s: LSys) {
    match s.loop.done
    case Pending => s.mine != [] ==> AnswerOnItsWay(s)
    case Resolved(ResHonored(o)) => |s.mine| == 1 && s.mine[0].outpoint == o
    case Resolved(ResDeclined(_)) => s.mine == []
    case Rejected(_) => s.mine == []
    case Resolved(ResCancelled) => |s.mine| <= 1
  }

  ghost predicate Inv(s: LSys) { Shape(s.loop) && CallsEnded(s) && Deliveries(s) && AnswerIsTrue(s) }

  /** What a world step adds to the loop's deliveries. */
  lemma WorldDelivers(s: LSys, w: Event)
    requires Inv(s)
    ensures WorldStep(s, w).mine == s.mine ||
            (w.RunGate? && s.loop.Latest() == Honoring(w.id) && AtGate(s.sys, w.id) && AnswerOnItsWay(WorldStep(s, w))
             && WorldStep(s, w).mine == s.mine + [DeliveryOf(GateInput(s.sys.calls[w.id]))])
  {
    HonoredIffDelivered(s.sys, w);
    if w.RunGate? && AtGate(s.sys, w.id) && Step(s.sys, w).log != s.sys.log {
      assert Added(s.sys.log, Step(s.sys, w).log) == [DeliveryOf(GateInput(s.sys.calls[w.id]))];
    } else {
      assert Added(s.sys.log, Step(s.sys, w).log) == [];
    }
  }

  /** Calls stay, ended ones unchanged, and the log only grows. */
  ghost predicate Moves(a: Sys, b: Sys) {
    && (forall id :: id in a.calls ==>
          && id in b.calls && b.calls[id].key == a.calls[id].key
          && (a.calls[id].pc.Ended? ==> b.calls[id].pc == a.calls[id].pc))
    && |a.log| <= |b.log| && b.log[..|a.log|] == a.log
  }

  lemma StepMoves(s: Sys, w: Event)
    requires !w.Restart?
    ensures Moves(s, Step(s, w))
  {
    HonoredIffDelivered(s, w);
    forall id | id in s.calls
      ensures id in Step(s, w).calls && Step(s, w).calls[id].key == s.calls[id].key
      ensures s.calls[id].pc.Ended? ==> Step(s, w).calls[id].pc == s.calls[id].pc
    {
      CallMoves(s, w, id);
    }
  }

  lemma CallMoves(s: Sys, w: Event, id: nat)
    requires !w.Restart? && id in s.calls
    ensures id in Step(s, w).calls && Step(s, w).calls[id].key == s.calls[id].key
    ensures s.calls[id].pc.Ended? ==> Step(s, w).calls[id].pc == s.calls[id].pc
  {
  }

  /** A call is answered honored by the step that delivers. */
  lemma AnswerComesWithDelivery(s: LSys, w: Event)
    requires Inv(s) && !w.Restart? && AnswerOnItsWay(WorldStep(s, w)) && !AnswerOnItsWay(s)
    ensures w.RunGate? && AtGate(s.sys, w.id) && s.loop.Latest() == Honoring(w.id) && w.id in s.ids
    ensures WorldStep(s, w).mine == s.mine + [DeliveryOf(GateInput(s.sys.calls[w.id]))]
    ensures WorldStep(s, w).sys.calls[w.id].pc.outcome.outpoint == s.sys.calls[w.id].pc.cand.outpoint
  {
    HonoredIffDelivered(s.sys, w);
    WorldDelivers(s, w);
    assert s.sys.log != Step(s.sys, w).log;
    assert Added(s.sys.log, Step(s.sys, w).log) == [DeliveryOf(GateInput(s.sys.calls[w.id]))];
  }

  lemma LogHasDelivery(s: LSys, w: Event, d: Delivery)
    requires Inv(s) && d in WorldStep(s, w).mine
    ensures d in Step(s.sys, w).log && d.key == s.loop.key
  {
    HonoredIffDelivered(s.sys, w);
    WorldDelivers(s, w);
  }

  lemma WorldKeeps(s: LSys, w: Event)
    requires Inv(s) && !w.Restart?
    ensures Inv(WorldStep(s, w))
  {
    var s' := WorldStep(s, w);
    StepMoves(s.sys, w);
    WorldDelivers(s, w);
    forall d | d in s'.mine ensures d in s'.sys.log && d.key == s.loop.key { LogHasDelivery(s, w, d); }
    if AnswerOnItsWay(s') && !AnswerOnItsWay(s) { AnswerComesWithDelivery(s, w); }
  }

  lemma ObserveKeeps(s: LSys, e: LEvent)
    requires Inv(s) && (e.ObserveEffect? || e.ObserveReturned?)
    ensures Inv(LStep(s, e))
  {
  }

  lemma AnswerKeeps(s: LSys, t: nat)
    requires Inv(s) && Answered(s, t)
    ensures Inv(LStep(s, HonorReturned(t)))
  {
    assert t == s.loop.started;
  }

  lemma LoopStepKeeps(s: LSys, e: LEvent)
    requires Inv(s)
    ensures Inv(LStep(s, e))
  {
    if e.World? {
      if !e.e.Restart? { WorldKeeps(s, e.e); }
    } else if e.ObserveEffect? || e.ObserveReturned? {
      ObserveKeeps(s, e);
    } else if e.HonorReturned? {
      if Answered(s, e.tick) { AnswerKeeps(s, e.tick); }
    }
  }

  /** Safety of `onPaid` over all schedules of interval fires, awaits, faults and cancel: at most one
      tick is in flight, the timer lives exactly while the loop is started and unsettled, honored means
      exactly one delivery committed by this loop (the one answered), declined or rejected means none,
      cancelled means at most one. */
  lemma {:induction false} OnPaidIsSafe(k: Key, es: seq<LEvent>)
    ensures Inv(LRun(k, es)) && LRun(k, es).loop.key == k
    decreases |es|
  {
    if es != [] {
      OnPaidIsSafe(k, es[..|es| - 1]);
      LoopStepKeeps(LRun(k, es[..|es| - 1]), es[|es| - 1]);
    }
  }

  lemma SettledStays(s: LSys, e: LEvent)
    requires Inv(s) && s.loop.done != Pending
    ensures LStep(s, e).loop.done == s.loop.done
  {
  }

  /** Once `done` has settled nothing changes it, whatever happens next. */
  lemma {:induction false} DoneSettlesOnce(k: Key, es: seq<LEvent>, more: seq<LEvent>)
    requires LRun(k, es).loop.done != Pending
    ensures LRun(k, es + more).loop.done == LRun(k, es).loop.done
    decreases |more|
  {
    OnPaidIsSafe(k, es);
    if more == [] {
      assert es + more == es;
    } else {
      var all := es + more;
      assert all[..|all| - 1] == es + more[..|more| - 1];
      DoneSettlesOnce(k, es, more[..|more| - 1]);
      OnPaidIsSafe(k, all[..|all| - 1]);
      SettledStays(LRun(k, all[..|all| - 1]), all[|all| - 1]);
    }
  }

  // ---- when the loop settles, and with what ---------------------------------------------------------------

  /** A call of this loop has ended so. */
  predicate HasEnded(s: LSys, id: nat, o: Outcome) {
    id in s.ids && id in s.sys.calls && s.sys.calls[id].pc == Ended(o)
  }

  ghost predicate Heard(s: LSys, o: Outcome) { exists id :: HasEnded(s, id, o) }

  /** Registration or an observation came back with this fault. */
  predicate CameBack(e: LEvent, f: Fault) {
    (e.RegisterReturned? || e.ObserveReturned?) && e.fault == Some(f)
  }

  /** A fault that is not one of the four infrastructure faults that retry. */
  predicate Terminal(f: Fault) { f != ChainFault && f != KeystoreFault && f != DbFault && f != IndexerFault }

  /** What each answer of `done` rests on. */
  ghost predicate Justified(s: LSys, es: seq<LEvent>) {
    match s.loop.done
    case Pending => true
    case Resolved(ResCancelled) => Cancel in es
    case Resolved(ResHonored(o)) => Heard(s, Honored(o))
    case Resolved(ResDeclined(reason)) => Heard(s, NotReady(Decline(reason)))
    case Rejected(f) => Terminal(f) && (Heard(s, Threw(f)) || exists i :: 0 <= i < |es| && CameBack(es[i], f))
  }

  lemma HeardStays(s: LSys, e: LEvent, o: Outcome)
    requires Inv(s) && Heard(s, o)
    ensures Heard(LStep(s, e), o)
  {
    var id :| HasEnded(s, id, o);
    if e.World? && !e.e.Restart? { CallMoves(s.sys, e.e, id); }
    assert HasEnded(LStep(s, e), id, o);
  }

  /** The step at which `done` settles. */
  lemma SettlingStep(s: LSys, e: LEvent)
    requires Inv(s) && s.loop.done == Pending && LStep(s, e).loop.done != Pending
    ensures match LStep(s, e).loop.done
      case Pending => false
      case Resolved(ResCancelled) => e == Cancel
      case Resolved(ResHonored(o)) => Heard(LStep(s, e), Honored(o))
      case Resolved(ResDeclined(reason)) => Heard(LStep(s, e), NotReady(Decline(reason)))
      case Rejected(f) => Terminal(f) && (Heard(LStep(s, e), Threw(f)) || CameBack(e, f))
  {
    if e.HonorReturned? && Answered(s, e.tick) {
      var id := s.loop.ticks[e.tick].id;
      assert HasEnded(LStep(s, e), id, AnswerTo(s, e.tick));
    }
  }

  /** The loop settles for no other reasons: cancelled only by a `cancel`, honored or declined only with what one
      of its own honor calls answered, rejected only with a fault that came back and is not retryable. A
      wait, a failed delivery or a retryable fault never settles it. */
  lemma {:induction false} SettlesOnlyFor(k: Key, es: seq<LEvent>)
    ensures Justified(LRun(k, es), es)
    decreases |es|
  {
    if es != [] {
      var before, e := es[..|es| - 1], es[|es| - 1];
      var s := LRun(k, before);
      SettlesOnlyFor(k, before);
      OnPaidIsSafe(k, before);
      if s.loop.done == Pending {
        if LStep(s, e).loop.done != Pending { SettlingStep(s, e); }
      } else {
        SettledStays(s, e);
        JustifiedStays(s, before, e);
        assert es == before + [e];
      }
    }
  }

  lemma JustifiedStays(s: LSys, es: seq<LEvent>, e: LEvent)
    requires Inv(s) && s.loop.done != Pending && Justified(s, es)
    ensures Justified(LStep(s, e), es + [e])
  {
    SettledStays(s, e);
    match s.loop.done
    case Resolved(ResCancelled) => assert (es + [e])[..|es|] == es;
    case Resolved(ResHonored(o)) => HeardStays(s, e, Honored(o));
    case Resolved(ResDeclined(reason)) => HeardStays(s, e, NotReady(Decline(reason)));
    case Rejected(f) =>
      if Heard(s, Threw(f)) {
        HeardStays(s, e, Threw(f));
      } else {
        var i :| 0 <= i < |es| && CameBack(es[i], f);
        assert CameBack((es + [e])[i], f);
      }
  }

  /** The loop as it was, with this tick over. */
  function Rested(l: Loop, t: nat): Loop { l.(ticking := false, ticks := l.ticks - {t}) }

  /** What a tick makes of its answer: an honor and a decline settle the loop with just that and stop the timer,
      a fault that is not retryable rejects it, and anything else leaves `done` pending and the timer
      running, so that the next interval tries again. */
  lemma TickAnswers(s: LSys, t: nat)
    requires Inv(s) && s.loop.done == Pending && Answered(s, t)
    ensures var s', a := LStep(s, HonorReturned(t)), AnswerTo(s, t);
            var over := s'.loop == Rested(s.loop, t).(settled := true, timer := false, done := s'.loop.done);
            && s' == s.(loop := s'.loop)
            && (a.Honored? ==> over && s'.loop.done == Resolved(ResHonored(a.outpoint)))
            && (a.NotReady? && a.verdict.Decline? ==> over && s'.loop.done == Resolved(ResDeclined(a.verdict.reason)))
            && (a.Threw? && Terminal(a.fault) ==> over && s'.loop.done == Rejected(a.fault))
            && (a == DeliveryFailed || (a.NotReady? && !a.verdict.Decline?) || (a.Threw? && !Terminal(a.fault)) ==>
                  s'.loop == Rested(s.loop, t) && s'.loop.done == Pending && s'.loop.timer)
  {
  }

  /** The same for a fault of the observation, which the tick catches alike. */
  lemma ObserveAnswers(s: LSys, t: nat, f: Fault, now: int, id: nat)
    requires Inv(s) && s.loop.done == Pending && t in s.loop.ticks && s.loop.ticks[t].Observing?
    ensures var s' := LStep(s, ObserveReturned(t, Some(f), now, id));
            && s' == s.(loop := s'.loop)
            && (Terminal(f) ==>
                  s'.loop == Rested(s.loop, t).(settled := true, timer := false, done := Rejected(f)))
            && (!Terminal(f) ==> s'.loop == Rested(s.loop, t) && s'.loop.timer)
  {
  }

  /** When registration returns: a fault that is not retryable rejects, a loop cancelled meanwhile starts nothing,
      and any other starts the timer and its first tick at once. */
  lemma RegisterAnswers(s: LSys, fault: Option<Fault>, now: int)
    requires Inv(s) && s.loop.registering
    ensures var l, l' := s.loop, LStep(s, RegisterReturned(fault, now)).loop;
            && !l'.registering
            && (l.done != Pending ==> l' == l.(registering := false))
            && (l.done == Pending && fault.Some? && Terminal(fault.value) ==>
                  l' == l.(registering := false, settled := true, done := Rejected(fault.value)))
            && (l.done == Pending && (fault == None || !Terminal(fault.value)) ==>
                  l'.done == Pending && l'.timer && l'.ticking && l'.Latest() == Observing(now))
  {
  }

  /** The observation of a tick is made for the loop's key at the time its tick started, and its honor call is
      entered for that key at the time the observation came back. */
  lemma TickProceeds(s: LSys, t: nat, now: int, id: nat)
    requires t in s.loop.ticks
    ensures s.loop.ticks[t].Observing? ==>
              var observed := s.loop.(ticks := s.loop.ticks[t := Observed]);
              var sys := Step(s.sys, Observe(s.loop.key, s.loop.ticks[t].now));
              LStep(s, ObserveEffect(t)) == s.(sys := sys, loop := observed)
    ensures s.loop.ticks[t].Observed? && id !in s.sys.calls ==>
              var s' := LStep(s, ObserveReturned(t, None, now, id));
              && s'.sys == s.sys.(calls := s.sys.calls[id := Call(s.loop.key, now, Entered)])
              && s'.loop == s.loop.(ticks := s.loop.ticks[t := Honoring(id)])
              && s'.ids == s.ids + {id} && s'.mine == s.mine
  {
  }

  /** An interval starts a tick exactly when none is in flight. */
  lemma IntervalAnswers(s: LSys, now: int)
    requires Inv(s) && s.loop.timer
    ensures var l, l' := s.loop, LStep(s, IntervalFire(now)).loop;
            && (l.Latest() != Resting ==> l' == l)
            && (l.Latest() == Resting ==> l'.Latest() == Observing(now) && l'.done == Pending && l'.timer)
  {
  }

  /** While nothing is swept, or under H1-H3 with sweeps, the delivery of a loop that answered honored is
      the only one its key ever gets in the whole system, other loops and callers included. */
  lemma HonoredLoopOwnsTheDelivery(env: Env, k: Key, es: seq<LEvent>, o: Outpoint)
    requires NoSweep(EngineRun(k, es)) || AllowedRun(env, EngineRun(k, es))
    requires LRun(k, es).loop.done == Resolved(ResHonored(o))
    ensures exists i :: 0 <= i < |LRun(k, es).sys.log|
                        && LRun(k, es).mine == [LRun(k, es).sys.log[i]]
                        && LRun(k, es).sys.log[i].key == k && LRun(k, es).sys.log[i].outpoint == o
                        && forall j :: 0 <= j < |LRun(k, es).sys.log| && LRun(k, es).sys.log[j].key == k ==> j == i
  {
    OnPaidIsSafe(k, es);
    LoopIsEngineRun(k, es);
    if NoSweep(EngineRun(k, es)) { ExactlyOnceUnswept(EngineRun(k, es)); }
    else { ExactlyOnceSwept(env, EngineRun(k, es)); }
    var s := LRun(k, es);
    assert s.mine[0] in s.sys.log && s.mine[0].key == k;
    var i :| 0 <= i < |s.sys.log| && s.sys.log[i] == s.mine[0];
    assert s.mine == [s.sys.log[i]];
    forall j | 0 <= j < |s.sys.log| && s.sys.log[j].key == k ensures j == i { }
  }

  ghost predicate OnlyCaller(k: Key, es: seq<LEvent>) {
    forall i :: 0 <= i < |es| && es[i].World? && es[i].e.Enter? ==> es[i].e.key != k
  }

  predicate InFlight(s: Sys, id: nat, k: Key) { id in s.calls && s.calls[id].key == k && !s.calls[id].pc.Ended? }

  /** The re-entrancy guard is what makes the ticks of a quote serial: when the loop is the only caller
      for its key, no two honor calls of that key are ever in flight together, as the HTLC form needs. */
  lemma {:induction false} LoopTicksAreSerial(k: Key, es: seq<LEvent>)
    requires OnlyCaller(k, es)
    ensures var s := LRun(k, es);
            && (forall id :: id in s.sys.calls && s.sys.calls[id].key == k ==> id in s.ids)
            && (forall i, j :: InFlight(s.sys, i, k) && InFlight(s.sys, j, k) ==> i == j)
    decreases |es|
  {
    OnPaidIsSafe(k, es);
    if es != [] {
      LoopTicksAreSerial(k, es[..|es| - 1]);
      OnPaidIsSafe(k, es[..|es| - 1]);
      OwnCalls(LRun(k, es[..|es| - 1]), es[|es| - 1]);
    }
  }

  lemma OwnCalls(s: LSys, e: LEvent)
    requires e.World? && e.e.Enter? ==> e.e.key != s.loop.key
    requires forall id :: id in s.sys.calls && s.sys.calls[id].key == s.loop.key ==> id in s.ids
    ensures var s' := LStep(s, e);
            forall id :: id in s'.sys.calls && s'.sys.calls[id].key == s'.loop.key ==> id in s'.ids
  {
  }

  // ---- after the loop has settled -------------------------------------------------------------------------

  function After(s: LSys, es: seq<LEvent>): LSys
    decreases |es|
  {
    if es == [] then s else LStep(After(s, es[..|es| - 1]), es[|es| - 1])
  }

  lemma {:induction false} RunAfter(k: Key, es: seq<LEvent>, more: seq<LEvent>)
    ensures LRun(k, es + more) == After(LRun(k, es), more)
    decreases |more|
  {
    if more == [] {
      assert es + more == es;
    } else {
      assert (es + more)[..|es + more| - 1] == es + more[..|more| - 1];
      RunAfter(k, es, more[..|more| - 1]);
    }
  }

  lemma AfterSnoc(s: LSys, es: seq<LEvent>, e: LEvent)
    ensures After(s, es + [e]) == LStep(After(s, es), e)
  {
    assert (es + [e])[..|es + [e]| - 1] == es;
  }

  lemma {:induction false} AfterJoin(s: LSys, es: seq<LEvent>, more: seq<LEvent>)
    ensures After(s, es + more) == After(After(s, es), more)
    decreases |more|
  {
    if more == [] {
      assert es + more == es;
    } else {
      assert (es + more)[..|es + more| - 1] == es + more[..|more| - 1];
      AfterJoin(s, es, more[..|more| - 1]);
    }
  }

  /** A tick is in flight whose honor call, if it has one yet, has not ended. */
  predicate TickOutstanding(s: LSys) {
    var t := s.loop.Latest();
    t.Observing? || t.Observed? || (t.Honoring? && t.id in s.sys.calls && !s.sys.calls[t.id].pc.Ended?)
  }

  lemma QuietStep(s: LSys, e: LEvent)
    requires Inv(s) && s.loop.settled && !TickOutstanding(s)
    ensures LStep(s, e).loop.settled && !TickOutstanding(LStep(s, e)) && LStep(s, e).mine == s.mine
  {
    if e.World? && !e.e.Restart? {
      WorldDelivers(s, e.e);
      StepMoves(s.sys, e.e);
    }
  }

  lemma {:induction false} QuietAfter(k: Key, es: seq<LEvent>, more: seq<LEvent>)
    requires LRun(k, es).loop.settled && !TickOutstanding(LRun(k, es))
    ensures var s := LRun(k, es + more); s.loop.settled && !TickOutstanding(s) && s.mine == LRun(k, es).mine
    decreases |more|
  {
    if more == [] {
      assert es + more == es;
    } else {
      var front := es + more[..|more| - 1];
      assert (es + more)[..|es + more| - 1] == front;
      QuietAfter(k, es, more[..|more| - 1]);
      OnPaidIsSafe(k, front);
      QuietStep(LRun(k, front), more[|more| - 1]);
    }
  }

  // ---- a registration that failed -------------------------------------------------------------------------

  ghost predicate NeverRegistered(k: Key, es: seq<LEvent>) {
    forall i :: 0 <= i < |es| && es[i].World? && es[i].e.Register? ==> es[i].e.quote.KeyOf() != k
  }

  /** What a loop without a row can end with. */
  predicate Hopeless(l: Loop) {
    l.done.Resolved? ==> l.done.result == ResCancelled || l.done.result == ResDeclined(ExpiredUnobserved)
  }

  ghost predicate NoRow(s: LSys) {
    && s.loop.key !in s.sys.db.seen
    && (forall id :: id in s.sys.calls && s.sys.calls[id].key == s.loop.key ==>
          var pc := s.sys.calls[id].pc;
          pc.Entered? || (pc.Ended? && (pc.outcome.Threw? || pc.outcome == NotReady(Decline(ExpiredUnobserved)))))
  }

  lemma NoRowStep(s: LSys, e: LEvent)
    requires Inv(s) && NoRow(s) && Hopeless(s.loop) && s.mine == []
    requires e.World? && e.e.Register? ==> e.e.quote.KeyOf() != s.loop.key
    ensures NoRow(LStep(s, e)) && Hopeless(LStep(s, e).loop) && LStep(s, e).mine == []
  {
    if e.World? && !e.e.Restart? { NoRowWorld(s, e.e); }
  }

  lemma NoRowWorld(s: LSys, w: Event)
    requires Inv(s) && NoRow(s) && (w.Register? ==> w.quote.KeyOf() != s.loop.key)
    ensures NoRow(WorldStep(s, w)) && WorldStep(s, w).mine == s.mine
  {
    WorldDelivers(s, w);
  }

  /** A retryable registration fault is not repaired by later ticks, which never register again: if
      nobody else registers the key, the loop never delivers, and can only resolve as cancelled or
      expired_unobserved. */
  lemma {:induction false} LostRegistrationNeverHonors(k: Key, es: seq<LEvent>)
    requires NeverRegistered(k, es)
    ensures NoRow(LRun(k, es)) && Hopeless(LRun(k, es).loop) && LRun(k, es).mine == []
    decreases |es|
  {
    if es != [] {
      var before := es[..|es| - 1];
      LostRegistrationNeverHonors(k, before);
      OnPaidIsSafe(k, before);
      NoRowStep(LRun(k, before), es[|es| - 1]);
    }
  }

  /** The tick that finds no row is the one that ends the loop, and only a missing row ends it so. */
  lemma MissingRowEndsTheLoop(s: LSys)
    requires Inv(s) && s.loop.done == Pending
    requires s.loop.Latest().Honoring? && s.sys.calls[s.loop.Latest().id].pc.Entered?
    ensures LStep(LStep(s, World(Load(s.loop.Latest().id))), HonorReturned(s.loop.started)).loop.done
            == Resolved(ResDeclined(ExpiredUnobserved))
            <==> s.loop.key !in s.sys.db.seen
  {
  }

  // ---- the object -----------------------------------------------------------------------------------------

  /** The closure state of one `onPaid`: every callback is a method, tied to the step it takes. */
  class PaidLoop {
    const engine: HonorEngine
    const key: Key
    const rethrow: bool
    var registering: bool
    var timer: bool
    var settled: bool
    var ticking: bool
    var ticks: map<nat, Tick>
    var started: nat
    var done: Done
    ghost var ids: set<nat>
    ghost var mine: seq<Delivery>

    ghost function Closure(): Loop
      reads this
    {
      Loop(key, registering, timer, settled, ticking, ticks, started, done)
    }

    ghost function View(): LSys
      reads this, engine, engine.store
    {
      LSys(engine.View(), Closure(), ids, mine)
    }

    constructor (engine: HonorEngine, key: Key, rethrow: bool)
      ensures Closure() == LInit(key).loop && ids == {} && mine == [] && this.engine == engine
      ensures engine.View() == INITIAL ==> View() == LInit(key)
    {
      this.engine, this.key, this.rethrow := engine, key, rethrow;
      registering, timer, settled, ticking := true, false, false, false;
      ticks, started, done, ids, mine := map[], 0, Pending, {}, [];
    }

    method Stop()
      modifies this`timer
      ensures !timer
    {
      if timer { timer := false; }
    }

    method Finish(r: PaidResult)
      modifies this`settled, this`timer, this`done
      ensures Closure() == Settle(old(Closure()), Resolved(r))
    {
      if settled { return; }
      settled := true;
      Stop();
      done := Resolved(r);
    }

    method FailWith(f: Fault)
      modifies this`settled, this`timer, this`done
      ensures Closure() == Settle(old(Closure()), Rejected(f))
    {
      if settled { return; }
      settled := true;
      Stop();
      done := Rejected(f);
    }

    method Cancel()
      modifies this`settled, this`timer, this`done
      ensures View() == LStep(old(View()), LEvent.Cancel)
    {
      Finish(ResCancelled);
    }

    method BeginTick(now: int)
      modifies this`ticking, this`ticks, this`started
      ensures Closure() == StartTick(old(Closure()), now)
    {
      if settled || ticking { return; }
      ticking := true;
      started := started + 1;
      ticks := ticks[started := Observing(now)];
    }

    method OnInterval(now: int)
      requires timer
      modifies this`ticking, this`ticks, this`started
      ensures View() == LStep(old(View()), IntervalFire(now))
    {
      BeginTick(now);
    }

    method ResumeRegistered(fault: Option<Fault>, now: int)
      requires registering
      modifies this
      ensures View() == LStep(old(View()), RegisterReturned(fault, now))
    {
      registering := false;
      if fault.Some? && !IsRetryableFault(fault.value) {
        FailWith(fault.value);
        return;
      }
      if settled { return; }
      timer := true;
      BeginTick(now);
    }

    /** `markObserved` up to its read: when there is no flag to raise this is all of it. */
    method ReadObserve(t: nat) returns (over: bool)
      requires t in ticks && ticks[t].Observing?
      modifies this`ticks
      ensures over ==> View() == LStep(old(View()), ObserveEffect(t))
      ensures !over ==> View() == old(View())
    {
      var r := engine.BeginObserve(key, ticks[t].now);
      over := r.Some?;
      if over { ticks := ticks[t := Observed]; }
    }

    /** The rest of `markObserved`: the write takes effect. */
    method WriteObserve(t: nat)
      requires t in ticks && ticks[t].Observing?
      modifies this`ticks, engine.store
      ensures View() == LStep(old(View()), ObserveEffect(t))
    {
      var r := engine.ResumeObserve(key, ticks[t].now);
      ticks := ticks[t := Observed];
    }

    method EndTickNow(t: nat)
      modifies this`ticking, this`ticks
      ensures Closure() == EndTick(old(Closure()), t)
    {
      ticking := false;
      ticks := ticks - {t};
    }

    /** The `catch` of a tick. */
    method Catch(f: Fault)
      modifies this`settled, this`timer, this`done
      ensures Closure() == OnFault(old(Closure()), f)
    {
      if !IsRetryableFault(f) { FailWith(f); }
    }

    method ObserveFaulted(t: nat, f: Fault)
      requires t in ticks && ticks[t].Observing?
      modifies this
      ensures View() == LStep(old(View()), ObserveReturned(t, Some(f), 0, 0))
    {
      Catch(f);
      EndTickNow(t);
    }

    method ResumeObserved(t: nat, now: int, id: nat)
      requires t in ticks && ticks[t].Observed? && id !in engine.calls
      modifies this`ticks, this`ids, engine`calls
      ensures View() == LStep(old(View()), ObserveReturned(t, None, now, id))
    {
      engine.BeginHonor(id, key, now);
      ticks := ticks[t := Honoring(id)];
      ids := ids + {id};
    }

    method ResumeHonored(t: nat, outcome: Outcome)
      requires t in ticks && ticks[t].Honoring? && ticks[t].id in engine.calls
      requires engine.calls[ticks[t].id].pc == Ended(outcome)
      modifies this
      ensures View() == LStep(old(View()), HonorReturned(t))
    {
      match outcome {
        case Honored(outpoint) => Finish(ResHonored(outpoint));
        case DeliveryFailed =>
        case NotReady(verdict) => if verdict.Decline? { Finish(ResDeclined(verdict.reason)); }
        case Threw(f) => Catch(f);
      }
      EndTickNow(t);
    }

    /** The gate transaction of an honor call, seen from the loop. */
    method RunGate(id: nat, d: Deliver)
      requires id in engine.calls && engine.calls[id].pc.Ready?
      modifies this`mine, engine, engine.store
      ensures View() == LStep(old(View()), World(Event.RunGate(id, d, rethrow)))
    {
      ghost var before := engine.log;
      var outcome := engine.CommitHonor(id, d, rethrow);
      if id in ids { mine := mine + Added(before, engine.log); }
    }
  }
}
