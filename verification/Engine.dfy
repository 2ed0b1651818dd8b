/** The honor engine (src/core/engine.ts, steps 0 and delegation of src/core/scorer.ts) as an
    interleaved transition system. A call of `honor` is cut at its awaits: between two cuts any other
    call, registration, observation, reservation or sweep may run. What the environment decides (the
    scoring verdict, the prepare result, how `deliver` ends) is carried by the events. */
module Engine {
  import opened HonorSpec
  import opened Gate
  import opened SqliteStores

  /** Where an in-flight `honor` call stands, with the locals it has captured. */
  datatype Pc =
    | Entered
    | Loaded(row: SeenRow)
    | Scored(row: SeenRow, cand: Candidate)
    | Ready(row: SeenRow, cand: Candidate)
    | Ended(outcome: Outcome)

  datatype Call = Call(key: Key, now: int, pc: Pc)

  datatype PrepareResult = PrepReady | ClaimSubmitted(claimTxId: Hex) | PrepWait(reason: WaitReason)

  /** A committed delivery. */
  datatype Delivery = Delivery(key: Key, outpoint: Outpoint, at: int, mode: GateMode)

  /** `log` (committed deliveries) and `swept` (the largest sweep time so far) are for specification. */
  datatype Sys = Sys(db: Db, calls: map<nat, Call>, claimTxIds: map<Key, Hex>, log: seq<Delivery>, swept: Option<int>)

  const INITIAL := Sys(EMPTY_DB, map[], map[], [], None)

  datatype Event =
    | Register(quote: AcceptedQuote, now: int, window: int)
    | Observe(key: Key, at: int)
    | Enter(id: nat, key: Key, now: int)
    | Load(id: nat)
    | Score(id: nat, verdict: Verdict)
    | Prepare(id: nat, result: PrepareResult)
    | ReserveClaim(key: Key, outpoint: Outpoint, claimTxId: Hex)
    | RunGate(id: nat, deliver: Deliver, rethrow: bool)
    | Fail(id: nat, fault: Fault)
    | SweepAt(now: int)
    | Restart

  // ---- pure parts -----------------------------------------------------------------------------------------

  /** Step 0 of the spine: None lets scoring proceed. */
  function GateStep0(row: Option<SeenRow>): Option<Verdict> {
    if row.None? then Some(Decline(ExpiredUnobserved))
    else if row.value.honoredAt.Some? then Some(Decline(AlreadyHonored))
    else None
  }

  function DeclineFor(v: Violation): DeclineReason {
    match v
    case SeenAlreadyHonored => AlreadyHonored
    case ExpiredWindow => ExpiredUnobserved
    case OutpointTaken => OutpointConsumed
  }

  /** How the end of the gate transaction is reported to the caller of `honor`. */
  function OutcomeOf(r: TxnResult, o: Outpoint, rethrow: bool): Outcome {
    match r
    case Committed => Honored(o)
    case Violated(kind) => NotReady(Decline(DeclineFor(kind)))
    case DeliverThrew(error) => if rethrow then Threw(error) else DeliveryFailed
    case AsyncDeliver => Threw(ContractViolation)
  }

  /** The gate input: `now`, `retainUntil` and the candidate are the ones captured earlier. */
  function GateInput(c: Call): TxnInput
    requires c.pc.Ready?
  {
    TxnInput(c.key, c.pc.cand.outpoint, c.now, c.pc.row.retainUntil, ModeOf(c.pc.row.form))
  }

  function DeliveryOf(inp: TxnInput): Delivery { Delivery(inp.key, inp.outpoint, inp.now, inp.mode) }

  // ---- the transition system ------------------------------------------------------------------------------

  predicate AtGate(s: Sys, id: nat) { id in s.calls && s.calls[id].pc.Ready? }

  function SetPc(s: Sys, id: nat, pc: Pc): Sys
    requires id in s.calls
  {
    s.(calls := s.calls[id := s.calls[id].(pc := pc)])
  }

  function LoadStep(s: Sys, id: nat): Sys
    requires id in s.calls
  {
    var k := s.calls[id].key;
    var row := if k in s.db.seen then Some(s.db.seen[k]) else None;
    match GateStep0(row)
    case Some(v) => SetPc(s, id, Ended(NotReady(v)))
    case None => SetPc(s, id, Loaded(row.value))
  }

  function ScoreStep(s: Sys, id: nat, v: Verdict): Sys
    requires id in s.calls && s.calls[id].pc.Loaded?
  {
    match v
    case Honor(cand) => SetPc(s, id, Scored(s.calls[id].pc.row, cand))
    case _ => SetPc(s, id, Ended(NotReady(v)))
  }

  function PrepareStep(s: Sys, id: nat, p: PrepareResult): Sys
    requires id in s.calls && s.calls[id].pc.Scored?
  {
    var c := s.calls[id];
    match p
    case PrepReady => SetPc(s, id, Ready(c.pc.row, c.pc.cand))
    case ClaimSubmitted(tx) =>
      SetPc(s, id, Ended(NotReady(Wait(HtlcClaimPending)))).(claimTxIds := s.claimTxIds[c.key := tx])
    case PrepWait(reason) => SetPc(s, id, Ended(NotReady(Wait(reason))))
  }

  function GateStep(s: Sys, id: nat, d: Deliver, rethrow: bool): Sys
    requires id in s.calls && s.calls[id].pc.Ready?
  {
    var inp := GateInput(s.calls[id]);
    var (db, r) := HonorTxn(s.db, inp, d);
    SetPc(s, id, Ended(OutcomeOf(r, inp.outpoint, rethrow)))
    .(db := db, log := if r == Committed then s.log + [DeliveryOf(inp)] else s.log)
  }

  function Latest(a: Option<int>, b: int): Option<int> {
    if a.Some? && a.value >= b then a else Some(b)
  }

  /** One atomic section. An event for a call that is not at that section does nothing. */
  function Step(s: Sys, e: Event): Sys {
    match e
    case Register(q, now, window) => s.(db := Gate.UpsertAccepted(s.db, q, now, q.expiresAt + window))
    case Observe(k, at) => s.(db := MarkObserved(s.db, k, at))
    case Enter(id, k, now) => if id in s.calls then s else s.(calls := s.calls[id := Call(k, now, Entered)])
    case Load(id) => if id in s.calls && s.calls[id].pc.Entered? then LoadStep(s, id) else s
    case Score(id, v) => if id in s.calls && s.calls[id].pc.Loaded? then ScoreStep(s, id, v) else s
    case Prepare(id, p) => if id in s.calls && s.calls[id].pc.Scored? then PrepareStep(s, id, p) else s
    case ReserveClaim(k, o, tx) => s.(db := Reserve(s.db, k, o, Some(tx)))
    case RunGate(id, d, rethrow) => if AtGate(s, id) then GateStep(s, id, d, rethrow) else s
    case Fail(id, f) => if id in s.calls && !s.calls[id].pc.Ended? then SetPc(s, id, Ended(Threw(f))) else s
    case SweepAt(now) => s.(db := Gate.Sweep(s.db, now), swept := Latest(s.swept, now))
    case Restart => s.(calls := map[], claimTxIds := map[])
  }

  /** The state after a run from the empty store. */
  function Run(es: seq<Event>): Sys
    decreases |es|
  {
    if es == [] then INITIAL else Step(Run(es[..|es| - 1]), es[|es| - 1])
  }

  /** One more event. */
  lemma RunSnoc(es: seq<Event>, e: Event)
    ensures Run(es + [e]) == Step(Run(es), e)
  {
    assert (es + [e])[..|es + [e]| - 1] == es;
  }

  /** `honored` is answered exactly by the call whose transaction commits, and it is the only thing
      that ever adds to the log. */
  lemma HonoredIffDelivered(s: Sys, e: Event)
    ensures Step(s, e).log != s.log ==>
              && e.RunGate? && AtGate(s, e.id)
              && Step(s, e).log == s.log + [DeliveryOf(GateInput(s.calls[e.id]))]
    ensures e.RunGate? && AtGate(s, e.id) ==>
              (Step(s, e).calls[e.id].pc == Ended(Honored(s.calls[e.id].pc.cand.outpoint)) <==> Step(s, e).log != s.log)
    ensures e.RunGate? && Step(s, e).log == s.log ==> Step(s, e).db == s.db
  {
    if e.RunGate? && AtGate(s, e.id) {
      var inp := GateInput(s.calls[e.id]);
      assert |s.log + [DeliveryOf(inp)]| == |s.log| + 1;
    }
  }

  // ---- the answers, written out ---------------------------------------------------------------------------

  /** A registration leaves a row that stands exactly as it is, its observation flag included; a new key gets
      a row with the quote's facts, unobserved, unhonored and kept until the recheck window closes. */
  lemma RegisterByRule(s: Sys, q: AcceptedQuote, now: int, window: int)
    ensures var s', k := Step(s, Register(q, now, window)), Key(q.signer, q.quoteId);
            && (k in s.db.seen ==> s' == s)
            && (k !in s.db.seen ==>
                  && s' == s.(db := s.db.(seen := s'.db.seen)) && k in s'.db.seen
                  && s'.db.seen == s.db.seen[k := s'.db.seen[k]]
                  && var row := s'.db.seen[k];
                  && row.key == k && row.payee == q.payee && row.payer == q.payer && row.form == q.form
                  && row.exferAmount == q.exferAmount && row.acceptedAt == now && row.expiresAt == q.expiresAt
                  && !row.observedBeforeExpiry && row.honoredAt == None && row.honoredOutpoint == None
                  && row.retainUntil == q.expiresAt + window)
  {
  }

  /** Step 0 of a call: a missing row is expired_unobserved, an honored one already_honored, and any other is
      captured. */
  lemma LoadByRule(s: Sys, id: nat)
    requires id in s.calls && s.calls[id].pc.Entered?
    ensures var s', k := Step(s, Load(id)), s.calls[id].key;
            && (k !in s.db.seen ==> s' == SetPc(s, id, Ended(NotReady(Decline(ExpiredUnobserved)))))
            && (k in s.db.seen && s.db.seen[k].honoredAt != None ==>
                  s' == SetPc(s, id, Ended(NotReady(Decline(AlreadyHonored)))))
            && (k in s.db.seen && s.db.seen[k].honoredAt == None ==> s' == SetPc(s, id, Loaded(s.db.seen[k])))
  {
  }

  /** A scored call goes on with an honor verdict's candidate and ends with any other verdict, unchanged. */
  lemma ScoreByRule(s: Sys, id: nat, v: Verdict)
    requires id in s.calls && s.calls[id].pc.Loaded?
    ensures var s' := Step(s, Score(id, v));
            && (v.Honor? ==> s' == SetPc(s, id, Scored(s.calls[id].pc.row, v.candidate)))
            && (!v.Honor? ==> s' == SetPc(s, id, Ended(NotReady(v))))
  {
  }

  /** A prepared call reaches the gate with its row and candidate, or ends waiting: for the claim it submitted,
      which the engine then shows for its key, or for the reason it was given. */
  lemma PrepareByRule(s: Sys, id: nat, p: PrepareResult)
    requires id in s.calls && s.calls[id].pc.Scored?
    ensures var s', c := Step(s, Prepare(id, p)), s.calls[id];
            && (p == PrepReady ==> s' == SetPc(s, id, Ready(c.pc.row, c.pc.cand)))
            && (p.PrepWait? ==> s' == SetPc(s, id, Ended(NotReady(Wait(p.reason)))))
            && (p.ClaimSubmitted? ==>
                  var ended := SetPc(s, id, Ended(NotReady(Wait(HtlcClaimPending))));
                  s' == ended.(claimTxIds := s.claimTxIds[c.key := p.claimTxId]))
  {
  }

  /** A restart forgets the calls in flight and the claims submitted, and nothing that is stored. */
  lemma RestartByRule(s: Sys)
    ensures Step(s, Restart).calls == map[] && Step(s, Restart).claimTxIds == map[]
    ensures Step(s, Restart).db == s.db && Step(s, Restart).log == s.log && Step(s, Restart).swept == s.swept
  {
  }

  /** What a caller of `honor` hears of its gate transaction: a consumer's error is thrown on exactly when the
      caller asked for it and is otherwise a retryable delivery_failed, a thenable is an infra error, and a
      violation is the decline of its kind. Only a commit is answered honored. */
  lemma GateAnswers(s: Sys, id: nat, d: Deliver, rethrow: bool)
    requires AtGate(s, id)
    ensures var r, pc := HonorTxn(s.db, GateInput(s.calls[id]), d).1, Step(s, RunGate(id, d, rethrow)).calls[id].pc;
            && pc.Ended?
            && (r == Committed <==> pc.outcome == Honored(s.calls[id].pc.cand.outpoint))
            && (r == Violated(SeenAlreadyHonored) <==> pc.outcome == NotReady(Decline(AlreadyHonored)))
            && (r == Violated(ExpiredWindow) <==> pc.outcome == NotReady(Decline(ExpiredUnobserved)))
            && (r == Violated(OutpointTaken) <==> pc.outcome == NotReady(Decline(OutpointConsumed)))
            && (r.DeliverThrew? && !rethrow <==> pc.outcome == DeliveryFailed)
            && (r.DeliverThrew? && rethrow ==> pc.outcome == Threw(r.error))
            && (r == AsyncDeliver ==> pc.outcome == Threw(ContractViolation))
  {
  }

  // ---- the engine object ----------------------------------------------------------------------------------

  datatype Custody = NotScreened | Controls | DoesNotControl | Unavailable

  datatype RegisterResult = Registered(created: bool, retainUntil: int) | RegisterRejected(fault: Fault)

  datatype ObserveResult = ObserveResult(observedBeforeExpiry: bool, withinWindow: bool)

  datatype Status = Accepted | ClaimOut(claimTxId: Hex) | HonoredAt(at: int, outpoint: Option<Outpoint>)

  function StatusOf(s: Sys, k: Key): Option<Status> {
    if k !in s.db.seen then None
    else if s.db.seen[k].honoredAt.Some? then
      Some(HonoredAt(s.db.seen[k].honoredAt.value, s.db.seen[k].honoredOutpoint))
    else if k in s.claimTxIds then Some(ClaimOut(s.claimTxIds[k]))
    else Some(Accepted)
  }

  /** HonorEngineImpl: each method is one atomic section of an operation, and `calls` holds the
      suspended activations of `honor`. */
  class HonorEngine {
    const store: SqliteStore
    const maxRecheckWindow: int
    var claimTxIds: map<Key, Hex>
    var calls: map<nat, Call>
    ghost var log: seq<Delivery>
    ghost var swept: Option<int>

    ghost function View(): Sys
      reads this, store
    {
      Sys(store.View(), calls, claimTxIds, log, swept)
    }

    /** A new process over a store that may already hold rows. */
    constructor (store: SqliteStore, maxRecheckWindow: int)
      ensures View() == Sys(store.View(), map[], map[], [], None)
      ensures this.store == store && this.maxRecheckWindow == maxRecheckWindow
    {
      this.store, this.maxRecheckWindow := store, maxRecheckWindow;
      claimTxIds, calls, log, swept := map[], map[], [], None;
    }

    /** `register` up to its read of the store: an existing row answers at once. */
    method BeginRegister(quote: AcceptedQuote) returns (existing: Option<RegisterResult>)
      ensures existing.Some? <==> quote.KeyOf() in View().db.seen
      ensures existing.Some? ==> existing.value == Registered(false, View().db.seen[quote.KeyOf()].retainUntil)
    {
      var row := store.GetSeen(quote.KeyOf());
      if row.None? { return None; }
      return Some(Registered(false, row.value.retainUntil));
    }

    /** `register` after a read that found no row. Whatever was inserted since then stands, so `created`
        can be answered for a row that is not this call's. */
    method ResumeRegister(quote: AcceptedQuote, now: int, screen: Custody) returns (r: RegisterResult)
      modifies store
      ensures r.RegisterRejected? <==> screen == DoesNotControl || screen == Unavailable
      ensures r.RegisterRejected? ==> View() == old(View())
      ensures r.RegisterRejected? ==> r.fault == if screen == Unavailable then KeystoreFault else MalformedQuote
      ensures r.Registered? ==> View() == Step(old(View()), Event.Register(quote, now, maxRecheckWindow))
      ensures r.Registered? ==> r.created && quote.KeyOf() in View().db.seen
      ensures r.Registered? && quote.KeyOf() !in old(View()).db.seen ==>
                View().db.seen[quote.KeyOf()] == AcceptedRow(quote, now, r.retainUntil)
    {
      var retainUntil := quote.expiresAt + maxRecheckWindow;
      if screen == Unavailable { return RegisterRejected(KeystoreFault); }
      if screen == DoesNotControl { return RegisterRejected(MalformedQuote); }
      store.UpsertAccepted(quote, now, retainUntil);
      return Registered(true, retainUntil);
    }

    /** `markObserved` up to its read: it is over unless there is a flag to raise. */
    method BeginObserve(key: Key, observedAt: int) returns (r: Option<ObserveResult>)
      ensures r.None? <==>
              && key in View().db.seen && observedAt < View().db.seen[key].expiresAt
              && !View().db.seen[key].observedBeforeExpiry
      ensures r.Some? ==> Step(View(), Observe(key, observedAt)) == View()
      ensures r.Some? ==>
                (r.value.observedBeforeExpiry <==> key in View().db.seen && View().db.seen[key].observedBeforeExpiry)
      ensures r.Some? ==>
                (r.value.withinWindow <==> key in View().db.seen && observedAt < View().db.seen[key].expiresAt)
    {
      var row := store.GetSeen(key);
      if row.None? { return Some(ObserveResult(false, false)); }
      var withinWindow := observedAt < row.value.expiresAt;
      if withinWindow && !row.value.observedBeforeExpiry { return None; }
      if withinWindow { assert store.seen[key := row.value.(observedBeforeExpiry := true)] == store.seen; }
      return Some(ObserveResult(withinWindow || row.value.observedBeforeExpiry, withinWindow));
    }

    /** `markObserved` after a read that found a flag to raise: the store looks again, so the flag it
        reports is the row's own unless the row has gone or changed its expiry since the read. */
    method ResumeObserve(key: Key, observedAt: int) returns (r: ObserveResult)
      modifies store
      ensures View() == Step(old(View()), Observe(key, observedAt))
      ensures r == ObserveResult(true, true)
      ensures key in View().db.seen && observedAt < View().db.seen[key].expiresAt ==>
                View().db.seen[key].observedBeforeExpiry
    {
      store.MarkObservedBeforeExpiry(key, observedAt);
      return ObserveResult(true, true);
    }

    /** Entry of `honor`: the clock is read. */
    method BeginHonor(id: nat, key: Key, now: int)
      requires id !in calls
      modifies this`calls
      ensures View() == Step(old(View()), Enter(id, key, now))
    {
      calls := calls[id := Call(key, now, Entered)];
    }

    method LoadSeen(id: nat)
      requires id in calls && calls[id].pc.Entered?
      modifies this`calls
      ensures View() == Step(old(View()), Load(id))
    {
      var c := calls[id];
      var row := store.GetSeen(c.key);
      var step0 := GateStep0(row);
      if step0.Some? {
        calls := calls[id := c.(pc := Ended(NotReady(step0.value)))];
      } else {
        calls := calls[id := c.(pc := Loaded(row.value))];
      }
    }

    method ResumeScored(id: nat, verdict: Verdict)
      requires id in calls && calls[id].pc.Loaded?
      modifies this`calls
      ensures View() == Step(old(View()), Score(id, verdict))
    {
      var c := calls[id];
      if !verdict.Honor? {
        calls := calls[id := c.(pc := Ended(NotReady(verdict)))];
      } else {
        calls := calls[id := c.(pc := Scored(c.pc.row, verdict.candidate))];
      }
    }

    method ResumePrepared(id: nat, prep: PrepareResult)
      requires id in calls && calls[id].pc.Scored?
      modifies this`calls, this`claimTxIds
      ensures View() == Step(old(View()), Prepare(id, prep))
    {
      var c := calls[id];
      if prep.ClaimSubmitted? {
        claimTxIds := claimTxIds[c.key := prep.claimTxId];
        calls := calls[id := c.(pc := Ended(NotReady(Wait(HtlcClaimPending))))];
      } else if prep.PrepWait? {
        calls := calls[id := c.(pc := Ended(NotReady(Wait(prep.reason))))];
      } else {
        calls := calls[id := c.(pc := Ready(c.pc.row, c.pc.cand))];
      }
    }

    /** The gate transaction and the mapping of what it threw. */
    method CommitHonor(id: nat, d: Deliver, rethrow: bool) returns (outcome: Outcome)
      requires id in calls && calls[id].pc.Ready?
      modifies this, store
      ensures View() == Step(old(View()), RunGate(id, d, rethrow))
      ensures calls[id].pc == Ended(outcome)
      ensures outcome.Honored? <==> log != old(log)
    {
      var c := calls[id];
      var outpoint := c.pc.cand.outpoint;
      var inp := TxnInput(c.key, outpoint, c.now, c.pc.row.retainUntil, ModeOf(c.pc.row.form));
      var r := store.RunHonorTxn(inp, d);
      match r {
        case Committed =>
          outcome := Honored(outpoint);
          log := log + [DeliveryOf(inp)];
          assert |log| == |old(log)| + 1;
        case DeliverThrew(error) =>
          outcome := if rethrow then Threw(error) else DeliveryFailed;
        case Violated(kind) =>
          var reason := if kind == SeenAlreadyHonored then AlreadyHonored
                        else if kind == ExpiredWindow then ExpiredUnobserved
                        else OutpointConsumed;
          outcome := NotReady(Decline(reason));
        case AsyncDeliver =>
          outcome := Threw(ContractViolation);
      }
      calls := calls[id := c.(pc := Ended(outcome))];
    }

    method ReadStatus(key: Key) returns (r: Option<Status>)
      ensures r == StatusOf(View(), key)
    {
      var row := store.GetSeen(key);
      if row.None? { return None; }
      if row.value.honoredAt.Some? { return Some(HonoredAt(row.value.honoredAt.value, row.value.honoredOutpoint)); }
      if key in claimTxIds { return Some(ClaimOut(claimTxIds[key])); }
      return Some(Accepted);
    }

    method Sweep(now: int) returns (seenDeleted: nat, outpointsDeleted: nat)
      modifies this`swept, store
      ensures View() == Step(old(View()), SweepAt(now))
      ensures seenDeleted == |old(View()).db.seen.Keys - View().db.seen.Keys|
      ensures outpointsDeleted == |old(View()).db.consumed.Keys - View().db.consumed.Keys|
    {
      assert store.seen.Keys - (store.seen - ExpiredSeen(store.seen, now)).Keys == ExpiredSeen(store.seen, now);
      assert store.consumed.Keys - (store.consumed - ExpiredConsumed(store.consumed, now)).Keys
          == ExpiredConsumed(store.consumed, now);
      seenDeleted, outpointsDeleted := store.Sweep(now);
      swept := Latest(swept, now);
    }
  }
}
