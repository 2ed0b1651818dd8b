/** An `onPaid` loop that has not settled can still honor: nothing but a terminal answer closes the way. */
module LoopProgress {
  import opened HonorSpec
  import opened OnPaid
  import opened LoopCancel

  /** The awaited honor call has ended with a decline or with a fault that is not retryable. */
  predicate Doomed(s: LSys) {
    var t := s.loop.Latest();
    && t.Honoring? && t.id in s.sys.calls && s.sys.calls[t.id].pc.Ended?
    && var o := s.sys.calls[t.id].pc.outcome;
    (o.NotReady? && o.verdict.Decline?) || (o.Threw? && Terminal(o.fault))
  }

  predicate HonoredDone(s: LSys) { s.loop.done.Resolved? && s.loop.done.result.ResHonored? }

  ghost predicate MayHonor(s: LSys) { exists more: seq<LEvent> :: HonoredDone(After(s, more)) }

  lemma MayHonorLater(s: LSys, es: seq<LEvent>)
    requires MayHonor(After(s, es))
    ensures MayHonor(s)
  {
    var more: seq<LEvent> :| HonoredDone(After(After(s, es), more));
    AfterJoin(s, es, more);
  }

  lemma MayHonorNext(s: LSys, e: LEvent)
    requires MayHonor(LStep(s, e))
    ensures MayHonor(s)
  {
    AfterOne(s, e);
    MayHonorLater(s, [e]);
  }

  // ---- from each place a pending loop can stand -----------------------------------------------------------

  lemma FromHonored(s: LSys, t: nat)
    requires Inv(s) && s.loop.done == Pending && Answered(s, t) && AnswerTo(s, t).Honored?
    ensures MayHonor(s)
  {
    TickAnswers(s, t);
    AfterOne(s, HonorReturned(t));
    assert HonoredDone(After(s, [HonorReturned(t)]));
  }

  lemma FromCall(s: LSys, c: Candidate)
    requires Inv(s) && s.loop.done == Pending
    requires s.loop.Latest().Honoring? && !s.sys.calls[s.loop.Latest().id].pc.Ended?
    ensures MayHonor(s)
  {
    var id := s.loop.Latest().id;
    var call := s.sys.calls[id];
    var o := CandOf(call.pc, c).outpoint;
    var sweep := SweptEmpty(s.sys.db);
    var ws := Clearing(call, o, sweep);
    ClearingClears(s.sys, id, o, sweep);
    WorldlySteps(s, ws);
    var cleared := After(s, Worldly(ws));
    FinishingDelivers(cleared, id, c);
    AfterKeeps(s, Worldly(ws));
    AfterKeeps(cleared, Finishing(id, c));
    FromHonored(After(cleared, Finishing(id, c)), s.loop.started);
    MayHonorLater(cleared, Finishing(id, c));
    MayHonorLater(s, Worldly(ws));
  }

  lemma {:induction false} AfterKeeps(s: LSys, es: seq<LEvent>)
    requires Inv(s)
    ensures Inv(After(s, es))
    decreases |es|
  {
    if es != [] {
      AfterKeeps(s, es[..|es| - 1]);
      LoopStepKeeps(After(s, es[..|es| - 1]), es[|es| - 1]);
    }
  }

  lemma FromObserved(s: LSys, c: Candidate)
    requires Inv(s) && s.loop.done == Pending && s.loop.Latest().Observed?
    ensures MayHonor(s)
  {
    var id := FreshId(s.sys.calls);
    HonorEnters(s, 0, id);
    var e := ObserveReturned(s.loop.started, None, 0, id);
    LoopStepKeeps(s, e);
    FromCall(LStep(s, e), c);
    MayHonorNext(s, e);
  }

  lemma FromObserving(s: LSys, c: Candidate)
    requires Inv(s) && s.loop.done == Pending && s.loop.Latest().Observing?
    ensures MayHonor(s)
  {
    var e := ObserveEffect(s.loop.started);
    LoopStepKeeps(s, e);
    FromObserved(LStep(s, e), c);
    MayHonorNext(s, e);
  }

  lemma FromResting(s: LSys, c: Candidate)
    requires Inv(s) && s.loop.done == Pending && s.loop.Latest() == Resting
    ensures MayHonor(s)
  {
    if s.loop.registering {
      LoopStepKeeps(s, RegisterReturned(None, 0));
      RegisterAnswers(s, None, 0);
      FromObserving(LStep(s, RegisterReturned(None, 0)), c);
      MayHonorNext(s, RegisterReturned(None, 0));
    } else {
      LoopStepKeeps(s, IntervalFire(0));
      IntervalAnswers(s, 0);
      FromObserving(LStep(s, IntervalFire(0)), c);
      MayHonorNext(s, IntervalFire(0));
    }
  }

  lemma FromAnswered(s: LSys, c: Candidate)
    requires Inv(s) && s.loop.done == Pending && Answered(s, s.loop.started) && !Doomed(s)
    ensures MayHonor(s)
  {
    if AnswerTo(s, s.loop.started).Honored? {
      FromHonored(s, s.loop.started);
    } else {
      var e := HonorReturned(s.loop.started);
      TickAnswers(s, s.loop.started);
      LoopStepKeeps(s, e);
      FromResting(LStep(s, e), c);
      MayHonorNext(s, e);
    }
  }

  // ---- and from nowhere else ------------------------------------------------------------------------------

  /** The loop will not answer honored. */
  predicate Lost(s: LSys) { if s.loop.done == Pending then Doomed(s) else !HonoredDone(s) }

  lemma LostStep(s: LSys, e: LEvent)
    requires Inv(s) && Lost(s)
    ensures Lost(LStep(s, e))
  {
    if s.loop.done != Pending {
      SettledStays(s, e);
    } else if e.World? && !e.e.Restart? {
      CallMoves(s.sys, e.e, s.loop.Latest().id);
    } else if e.HonorReturned? && Answered(s, e.tick) {
      TickAnswers(s, e.tick);
    }
  }

  lemma {:induction false} LostAfter(s: LSys, es: seq<LEvent>)
    requires Inv(s) && Lost(s)
    ensures Lost(After(s, es))
    decreases |es|
  {
    if es != [] {
      LostAfter(s, es[..|es| - 1]);
      AfterKeeps(s, es[..|es| - 1]);
      LostStep(After(s, es[..|es| - 1]), es[|es| - 1]);
    }
  }

  /** At any point of any run, a pending loop can still come to answer honored exactly when the honor call it
      awaits has not ended with a decline or a fault that is not retryable: waits, failed deliveries,
      retryable faults and registrations that failed never close the way. */
  lemma PendingMayHonorIff(k: Key, es: seq<LEvent>)
    requires LRun(k, es).loop.done == Pending
    ensures (exists more: seq<LEvent> :: HonoredDone(LRun(k, es + more))) <==> !Doomed(LRun(k, es))
  {
    var s := LRun(k, es);
    OnPaidIsSafe(k, es);
    if Doomed(s) {
      forall more: seq<LEvent> ensures !HonoredDone(LRun(k, es + more)) {
        RunAfter(k, es, more);
        LostAfter(s, more);
      }
    } else {
      var c := Candidate(Form.Plain, "", Outpoint("", 0), 0, "", None);
      match s.loop.Latest() {
        case Resting => FromResting(s, c);
        case Observing(_) => FromObserving(s, c);
        case Observed => FromObserved(s, c);
        case Honoring(id) =>
          if s.sys.calls[id].pc.Ended? { FromAnswered(s, c); } else { FromCall(s, c); }
      }
      var more: seq<LEvent> :| HonoredDone(After(s, more));
      RunAfter(k, es, more);
    }
  }
}
