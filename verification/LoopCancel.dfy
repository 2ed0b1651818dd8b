/** What settling an `onPaid` loop does and does not stop. */
module LoopCancel {
  import opened HonorSpec
  import opened Gate
  import opened Engine
  import opened OnPaid

  // ---- an outstanding call can still deliver --------------------------------------------------------------

  /** Every number is below the bound. */
  predicate Below(ns: set<int>, bound: int) { forall n <- ns :: n < bound }

  lemma {:induction false} UpperBound(ns: set<int>)
    ensures exists bound :: Below(ns, bound)
    decreases |ns|
  {
    if n :| n in ns {
      UpperBound(ns - {n});
      var b :| Below(ns - {n}, b);
      var bound := if b > n then b else n + 1;
      assert forall x <- ns :: x == n || x in ns - {n};
      assert Below(ns, bound);
    } else {
      assert Below(ns, 0);
    }
  }

  /** Some sweep empties both tables. */
  lemma SweptEmpty(db: Db) returns (now: int)
    ensures Gate.Sweep(db, now).seen == map[] && Gate.Sweep(db, now).consumed == map[]
  {
    var seenEnds := set k | k in db.seen :: db.seen[k].retainUntil;
    var consumedEnds := set o | o in db.consumed :: db.consumed[o].retainUntil;
    var ends := seenEnds + consumedEnds;
    UpperBound(ends);
    now :| Below(ends, now);
    assert forall k :: k in db.seen ==> db.seen[k].retainUntil in ends;
    assert forall o :: o in db.consumed ==> db.consumed[o].retainUntil in ends;
    assert ExpiredSeen(db.seen, now) == db.seen.Keys && ExpiredConsumed(db.consumed, now) == db.consumed.Keys;
  }

  /** What a call has captured so far, or what it may still capture. */
  function CandOf(pc: Pc, c: Candidate): Candidate { if pc.Scored? || pc.Ready? then pc.cand else c }

  function FormOf(pc: Pc): Form { if pc.Loaded? || pc.Scored? || pc.Ready? then pc.row.form else Form.Plain }

  /** A quote of this key that has not expired at `now`. */
  function LiveQuote(k: Key, now: int, form: Form): AcceptedQuote {
    AcceptedQuote(k.quoteId, k.signer, "", None, 0, now + 1, now, form)
  }

  /** The tables let this call commit. */
  predicate Clear(s: Sys, c: Call, o: Outpoint) {
    && c.key in s.db.seen && Lockable(s.db.seen[c.key], c.now) && s.db.seen[c.key].form == FormOf(c.pc)
    && Takeable(s.db.consumed, o, ModeOf(FormOf(c.pc)))
  }

  /** Sweep everything, register the key again and reserve the outpoint if it is to be promoted. */
  function Clearing(c: Call, o: Outpoint, sweep: int): seq<Event> {
    [SweepAt(sweep), Register(LiveQuote(c.key, c.now, FormOf(c.pc)), c.now, 0)]
    + if FormOf(c.pc).Htlc? then [ReserveClaim(c.key, o, "")] else []
  }

  function Steps(s: Sys, ws: seq<Event>): Sys
    decreases |ws|
  {
    if ws == [] then s else Steps(Step(s, ws[0]), ws[1..])
  }

  lemma {:induction false} StepsJoin(s: Sys, a: seq<Event>, b: seq<Event>)
    ensures Steps(s, a + b) == Steps(Steps(s, a), b)
    decreases |a|
  {
    if a == [] {
      assert a + b == b;
    } else {
      assert (a + b)[1..] == a[1..] + b;
      StepsJoin(Step(s, a[0]), a[1..], b);
    }
  }

  lemma StepsOne(s: Sys, a: Event)
    ensures Steps(s, [a]) == Step(s, a)
  {
    assert [a][1..] == [];
  }

  lemma StepsTwo(s: Sys, a: Event, b: Event)
    ensures Steps(s, [a, b]) == Step(Step(s, a), b)
  {
    assert [a, b][1..] == [b];
    StepsOne(Step(s, a), b);
  }

  lemma StepsThree(s: Sys, a: Event, b: Event, c: Event)
    ensures Steps(s, [a, b, c]) == Step(Step(Step(s, a), b), c)
  {
    assert [a, b, c][1..] == [b, c];
    StepsTwo(Step(s, a), b, c);
  }

  /** The key is registered afresh in empty tables. */
  lemma RegisteredInEmpty(s: Sys, c: Call, sweep: int)
    requires Gate.Sweep(s.db, sweep).seen == map[] && Gate.Sweep(s.db, sweep).consumed == map[]
    ensures var q := LiveQuote(c.key, c.now, FormOf(c.pc));
            var s' := Step(Step(s, SweepAt(sweep)), Register(q, c.now, 0));
            && s'.calls == s.calls && s'.log == s.log && s'.db.consumed == map[]
            && s'.db.seen == map[c.key := AcceptedRow(q, c.now, c.now + 1)]
  {
  }

  lemma ClearingClears(s: Sys, id: nat, o: Outpoint, sweep: int)
    requires id in s.calls && Gate.Sweep(s.db, sweep).seen == map[] && Gate.Sweep(s.db, sweep).consumed == map[]
    ensures var s' := Steps(s, Clearing(s.calls[id], o, sweep));
            s'.calls == s.calls && s'.log == s.log && Clear(s', s.calls[id], o)
  {
    var c := s.calls[id];
    var q := LiveQuote(c.key, c.now, FormOf(c.pc));
    RegisteredInEmpty(s, c, sweep);
    StepsTwo(s, SweepAt(sweep), Register(q, c.now, 0));
    if FormOf(c.pc).Htlc? {
      var s' := Step(Step(s, SweepAt(sweep)), Register(q, c.now, 0));
      StepsOne(s', ReserveClaim(c.key, o, ""));
      StepsJoin(s, [SweepAt(sweep), Register(q, c.now, 0)], [ReserveClaim(c.key, o, "")]);
    } else {
      assert Clearing(c, o, sweep) == [SweepAt(sweep), Register(q, c.now, 0)];
    }
  }

  /** The sections left to a call up to the gate; those behind it do nothing. */
  function Hurry(id: nat, c: Candidate): seq<Event> { [Load(id), Score(id, Honor(c)), Prepare(id, PrepReady)] }

  lemma HurryReachesGate(s: Sys, id: nat, c: Candidate)
    requires id in s.calls && !s.calls[id].pc.Ended? && Clear(s, s.calls[id], CandOf(s.calls[id].pc, c).outpoint)
    ensures var s' := Steps(s, Hurry(id, c));
            && AtGate(s', id) && s'.db == s.db && s'.log == s.log
            && s'.calls[id].key == s.calls[id].key && s'.calls[id].now == s.calls[id].now
            && s'.calls[id].pc.cand == CandOf(s.calls[id].pc, c) && s'.calls[id].pc.row.form == FormOf(s.calls[id].pc)
  {
    var loaded := Step(s, Load(id));
    assert !loaded.calls[id].pc.Ended? && !loaded.calls[id].pc.Entered?;
    var scored := Step(loaded, Score(id, Honor(c)));
    assert scored.calls[id].pc.Scored? || scored.calls[id].pc.Ready?;
    StepsThree(s, Load(id), Score(id, Honor(c)), Prepare(id, PrepReady));
  }

  lemma ClearGateDelivers(s: Sys, id: nat)
    requires AtGate(s, id) && s.calls[id].pc.row.form == FormOf(s.calls[id].pc)
    requires Clear(s, s.calls[id], s.calls[id].pc.cand.outpoint)
    ensures Step(s, RunGate(id, Deliver([], Returns), false)).log != s.log
  {
    assert GateCheck(s.db, GateInput(s.calls[id])).None?;
    assert |Step(s, RunGate(id, Deliver([], Returns), false)).log| == |s.log| + 1;
  }

  function Worldly(ws: seq<Event>): seq<LEvent> { seq(|ws|, i requires 0 <= i < |ws| => World(ws[i])) }

  ghost predicate Steady(ws: seq<Event>) { forall i :: 0 <= i < |ws| ==> !ws[i].Restart? && !ws[i].RunGate? }

  /** Events that are no gate run pass the loop by. */
  lemma {:induction false} WorldlySteps(s: LSys, ws: seq<Event>)
    requires Steady(ws)
    ensures After(s, Worldly(ws)) == s.(sys := Steps(s.sys, ws))
    decreases |ws|
  {
    if ws != [] {
      var rest := ws[1..];
      assert Steady(rest) && Worldly(ws) == [World(ws[0])] + Worldly(rest);
      AfterSnoc(s, [], World(ws[0]));
      assert [] + [World(ws[0])] == [World(ws[0])] && After(s, [World(ws[0])]) == WorldStep(s, ws[0]);
      AfterJoin(s, [World(ws[0])], Worldly(rest));
      WorldlySteps(WorldStep(s, ws[0]), rest);
    }
  }

  ghost predicate MayDeliver(s: LSys) { exists more: seq<LEvent> :: After(s, more).mine != s.mine }

  /** The sections left to a call, and its gate with goods that are delivered. */
  function Finishing(id: nat, c: Candidate): seq<LEvent> {
    Worldly(Hurry(id, c)) + [World(RunGate(id, Deliver([], Returns), false))]
  }

  lemma FinishingDelivers(s: LSys, id: nat, c: Candidate)
    requires id in s.ids && id in s.sys.calls && !s.sys.calls[id].pc.Ended?
    requires Clear(s.sys, s.sys.calls[id], CandOf(s.sys.calls[id].pc, c).outpoint)
    ensures var s' := After(s, Finishing(id, c));
            && s'.loop == s.loop && |s'.mine| == |s.mine| + 1
            && s'.mine[|s.mine|].outpoint == CandOf(s.sys.calls[id].pc, c).outpoint
            && id in s'.sys.calls
            && s'.sys.calls[id].pc == Ended(Honored(CandOf(s.sys.calls[id].pc, c).outpoint))
  {
    HurryReachesGate(s.sys, id, c);
    WorldlySteps(s, Hurry(id, c));
    var s' := After(s, Worldly(Hurry(id, c)));
    var gate := RunGate(id, Deliver([], Returns), false);
    ClearGateDelivers(s'.sys, id);
    HonoredIffDelivered(s'.sys, gate);
    assert Added(s'.sys.log, Step(s'.sys, gate).log) == [DeliveryOf(GateInput(s'.sys.calls[id]))];
    AfterSnoc(s, Worldly(Hurry(id, c)), World(gate));
  }

  /** A call that has not ended delivers in some future. */
  lemma OpenCallMayDeliver(s: LSys, c: Candidate)
    requires Inv(s) && s.loop.Latest().Honoring? && !s.sys.calls[s.loop.Latest().id].pc.Ended?
    ensures MayDeliver(s)
  {
    var id := s.loop.Latest().id;
    var call := s.sys.calls[id];
    var o := CandOf(call.pc, c).outpoint;
    var sweep := SweptEmpty(s.sys.db);
    var ws := Clearing(call, o, sweep);
    ClearingClears(s.sys, id, o, sweep);
    WorldlySteps(s, ws);
    FinishingDelivers(After(s, Worldly(ws)), id, c);
    AfterJoin(s, Worldly(ws), Finishing(id, c));
    assert After(s, Worldly(ws) + Finishing(id, c)).mine != s.mine;
  }

  lemma MayDeliverLater(s: LSys, es: seq<LEvent>)
    requires MayDeliver(After(s, es)) && After(s, es).mine == s.mine
    ensures MayDeliver(s)
  {
    var more :| After(After(s, es), more).mine != After(s, es).mine;
    AfterJoin(s, es, more);
  }

  lemma FreshId(calls: map<nat, Call>) returns (id: nat)
    ensures id !in calls
  {
    UpperBound(calls.Keys);
    var bound :| Below(calls.Keys, bound);
    id := if bound < 0 then 0 else bound;
  }

  lemma AfterOne(s: LSys, a: LEvent)
    ensures After(s, [a]) == LStep(s, a)
  {
    AfterSnoc(s, [], a);
    assert [] + [a] == [a];
  }

  lemma AfterTwo(s: LSys, a: LEvent, b: LEvent)
    ensures After(s, [a, b]) == LStep(LStep(s, a), b)
  {
    AfterOne(s, a);
    AfterSnoc(s, [a], b);
    assert [a] + [b] == [a, b];
  }

  lemma AfterThree(s: LSys, a: LEvent, b: LEvent, c: LEvent)
    ensures After(s, [a, b, c]) == LStep(LStep(LStep(s, a), b), c)
  {
    AfterTwo(s, a, b);
    AfterSnoc(s, [a, b], c);
    assert [a, b] + [c] == [a, b, c];
  }

  /** The next await of the tick is its honor call. */
  lemma HonorEnters(s: LSys, now: int, id: nat)
    requires s.loop.Latest().Observed? && id !in s.sys.calls
    ensures var s' := LStep(s, ObserveReturned(s.loop.started, None, now, id));
            && s'.loop.Latest() == Honoring(id) && id in s'.ids && s'.loop.done == s.loop.done
            && s'.sys == s.sys.(calls := s.sys.calls[id := Call(s.loop.key, now, Entered)]) && s'.mine == s.mine
  {
  }

  lemma ObservedMayDeliver(s: LSys, c: Candidate)
    requires Inv(s) && s.loop.Latest().Observed?
    ensures MayDeliver(s)
  {
    var id := FreshId(s.sys.calls);
    HonorEnters(s, 0, id);
    var e := ObserveReturned(s.loop.started, None, 0, id);
    LoopStepKeeps(s, e);
    AfterOne(s, e);
    OpenCallMayDeliver(LStep(s, e), c);
    MayDeliverLater(s, [e]);
  }

  lemma ObservingMayDeliver(s: LSys, c: Candidate)
    requires Inv(s) && s.loop.Latest().Observing?
    ensures MayDeliver(s)
  {
    var e := ObserveEffect(s.loop.started);
    LoopStepKeeps(s, e);
    AfterOne(s, e);
    ObservedMayDeliver(LStep(s, e), c);
    MayDeliverLater(s, [e]);
  }

  /** Cancelling stops the timer, not the tick in flight: once a loop has settled, no continuation of the run
      delivers anything more through it exactly when no tick is outstanding at that point, that is, when
      no tick is suspended before its honor call or waits for one that has not ended. */
  lemma SettledIsQuietIff(k: Key, es: seq<LEvent>)
    requires LRun(k, es).loop.settled
    ensures (forall more: seq<LEvent> :: LRun(k, es + more).mine == LRun(k, es).mine) <==> !TickOutstanding(LRun(k, es))
  {
    var s := LRun(k, es);
    OnPaidIsSafe(k, es);
    if TickOutstanding(s) {
      var c := Candidate(Form.Plain, "", Outpoint("", 0), 0, "", None);
      if s.loop.Latest().Observing? { ObservingMayDeliver(s, c); }
      else if s.loop.Latest().Observed? { ObservedMayDeliver(s, c); }
      else { OpenCallMayDeliver(s, c); }
      var more :| After(s, more).mine != s.mine;
      RunAfter(k, es, more);
    } else {
      forall more: seq<LEvent> ensures LRun(k, es + more).mine == s.mine { QuietAfter(k, es, more); }
    }
  }

  // ---- and a loop that was cancelled does so --------------------------------------------------------------

  /** Registered and started; cancelled while the first tick is suspended at `markObserved`. */
  function CancelledEarly(q: AcceptedQuote, window: int, now: int): seq<LEvent> {
    [World(Register(q, now, window)), RegisterReturned(None, now), Cancel]
  }

  lemma CancelledEarlyRuns(q: AcceptedQuote, window: int, now: int)
    ensures var s := LRun(q.KeyOf(), CancelledEarly(q, window, now));
            && s.loop.done == Resolved(ResCancelled) && s.loop.started == 1 && s.loop.Latest() == Observing(now)
            && s.loop.key == q.KeyOf() && s.sys.calls == map[]
            && s.sys.db == Db(map[q.KeyOf() := AcceptedRow(q, now, q.expiresAt + window)], map[], {}) && s.mine == []
  {
    var s := LInit(q.KeyOf());
    RunAfter(q.KeyOf(), [], CancelledEarly(q, window, now));
    assert [] + CancelledEarly(q, window, now) == CancelledEarly(q, window, now);
    AfterThree(s, World(Register(q, now, window)), RegisterReturned(None, now), Cancel);
  }

  /** The tick that was suspended goes on to honor, and nobody asks whether it still should. */
  function GoesOn(c: Candidate, now: int): seq<LEvent> {
    [ObserveEffect(1), ObserveReturned(1, None, now, 0)] + Finishing(0, c)
  }

  lemma GoesOnDelivers(s: LSys, c: Candidate, now: int)
    requires s.loop.started == 1 && s.loop.Latest().Observing? && s.sys.calls == map[]
    requires s.loop.key in s.sys.db.seen && Lockable(s.sys.db.seen[s.loop.key], now) && s.sys.db.consumed == map[]
    requires s.sys.db.seen[s.loop.key].form == Form.Plain
    ensures var s' := After(s, GoesOn(c, now));
            |s'.mine| == |s.mine| + 1 && s'.mine[|s.mine|].outpoint == c.outpoint && s'.loop.done == s.loop.done
  {
    var a, b := ObserveEffect(1), ObserveReturned(1, None, now, 0);
    AfterTwo(s, a, b);
    HonorEnters(LStep(s, a), now, 0);
    AfterJoin(s, [a, b], Finishing(0, c));
    FinishingDelivers(After(s, [a, b]), 0, c);
  }

  /** A loop that answered cancelled delivers all the same: every plain quote has such a run. */
  lemma CancelledLoopDelivers(q: AcceptedQuote, window: int, now: int, c: Candidate)
    requires q.form == Form.Plain && now < q.expiresAt && now < q.expiresAt + window
    ensures var s := LRun(q.KeyOf(), CancelledEarly(q, window, now) + GoesOn(c, now));
            s.loop.done == Resolved(ResCancelled) && |s.mine| == 1 && s.mine[0].outpoint == c.outpoint
  {
    CancelledEarlyRuns(q, window, now);
    RunAfter(q.KeyOf(), CancelledEarly(q, window, now), GoesOn(c, now));
    GoesOnDelivers(LRun(q.KeyOf(), CancelledEarly(q, window, now)), c, now);
  }

  // ---- a registration that failed -------------------------------------------------------------------------

  /** Registration hits a retryable fault, and the first tick runs undisturbed. */
  function LostRun(f: Fault, now: int): seq<LEvent> {
    [RegisterReturned(Some(f), now), ObserveEffect(1), ObserveReturned(1, None, now, 0)]
    + [World(Load(0)), HonorReturned(1)]
  }

  lemma LostStart(k: Key, f: Fault, now: int)
    requires IsRetryableFault(f)
    ensures var first := [RegisterReturned(Some(f), now), ObserveEffect(1), ObserveReturned(1, None, now, 0)];
            var s := After(LInit(k), first);
            && s.loop.done == Pending && !s.loop.settled && s.loop.started == 1 && s.loop.Latest() == Honoring(0)
            && s.sys == INITIAL.(calls := map[0 := Call(k, now, Entered)])
  {
    var started := LStep(LInit(k), RegisterReturned(Some(f), now));
    AfterThree(LInit(k), RegisterReturned(Some(f), now), ObserveEffect(1), ObserveReturned(1, None, now, 0));
    HonorEnters(LStep(started, ObserveEffect(1)), now, 0);
  }

  lemma LostEnd(s: LSys, k: Key, now: int)
    requires s.loop.done == Pending && !s.loop.settled && s.loop.started == 1 && s.loop.Latest() == Honoring(0)
    requires s.sys == INITIAL.(calls := map[0 := Call(k, now, Entered)])
    ensures LStep(LStep(s, World(Load(0))), HonorReturned(1)).loop.done == Resolved(ResDeclined(ExpiredUnobserved))
  {
    var loaded := WorldStep(s, Load(0));
    assert loaded.sys.calls[0].pc == Ended(NotReady(Decline(ExpiredUnobserved)));
    assert Answered(loaded, 1);
  }

  /** The first undisturbed tick ends the loop as expired_unobserved: the failing run, for every retryable
      fault and every key. */
  lemma LostRegistrationExpires(k: Key, f: Fault, now: int)
    requires IsRetryableFault(f)
    ensures LRun(k, LostRun(f, now)).loop.done == Resolved(ResDeclined(ExpiredUnobserved))
  {
    var first := [RegisterReturned(Some(f), now), ObserveEffect(1), ObserveReturned(1, None, now, 0)];
    var s := After(LInit(k), first);
    LostStart(k, f, now);
    LostEnd(s, k, now);
    AfterTwo(s, World(Load(0)), HonorReturned(1));
    AfterJoin(LInit(k), first, [World(Load(0)), HonorReturned(1)]);
    assert LRun(k, []) == LInit(k) && [] + LostRun(f, now) == LostRun(f, now);
    RunAfter(k, [], LostRun(f, now));
  }
}
