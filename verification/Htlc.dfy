/** The HTLC form (src/forms/htlc.ts): scoring, the two-phase `prepare`, and the protocol it makes with
    the engine and the store inside one process. */
module Htlc {
  import opened HonorSpec
  import opened Datum
  import opened Gate
  import opened Engine
  import opened Chains

  datatype ClaimRecord = ClaimRecord(claimTxId: Hex, lock: Outpoint)

  // ---- pure parts of the form -----------------------------------------------------------------------------

  /** The on-chain checks, in order; None when the lock binds. */
  function ValidateOnChain(q: AcceptedQuote, htlc: OnChainHtlc): Option<DeclineReason> {
    if DecodeSettlementDatum(q.quoteId, SETTLEMENT_DATUM_VERSION) != Decoded(q.quoteId) then Some(DatumUnhonorable)
    else if htlc.receiver != q.payee then Some(AddressMismatch)
    else if htlc.value != q.exferAmount then Some(AmountMismatch)
    else if q.payer.Some? && htlc.sender != q.payer.value then Some(PayerBindingFailed)
    else None
  }

  /** The verdict for the first candidate, given the HTLC found at its outpoint. */
  function HtlcScore(q: AcceptedQuote, raw: seq<RawCandidate>, htlc: Option<OnChainHtlc>): Verdict {
    if raw == [] || htlc.None? then Wait(NoCandidate)
    else match ValidateOnChain(q, htlc.value)
      case Some(reason) => Decline(reason)
      case None =>
        var c := raw[0];
        Honor(Candidate(Form.Htlc, q.quoteId, c.outpoint, htlc.value.value, c.scriptHex, c.blockHeight))
  }

  /** An HTLC is honored exactly when the first candidate's lock exists and pays this payee exactly the
      quoted amount, from this payer where one is named, for a well-formed quote id. */
  lemma HtlcHonorsExactly(q: AcceptedQuote, raw: seq<RawCandidate>, htlc: Option<OnChainHtlc>)
    ensures HtlcScore(q, raw, htlc).Honor? <==>
            raw != [] && htlc.Some? && IsQuoteId(q.quoteId)
            && htlc.value.receiver == q.payee && htlc.value.value == q.exferAmount
            && (q.payer == None || q.payer == Some(htlc.value.sender))
    ensures HtlcScore(q, raw, htlc).Honor? ==>
              HtlcScore(q, raw, htlc).candidate
              == Candidate(Form.Htlc, q.quoteId, raw[0].outpoint, q.exferAmount, raw[0].scriptHex, raw[0].blockHeight)
  {
  }

  /** Everything the HTLC form can answer, by the rules: without a candidate or a lock there is something to
      wait for, never a decline; a lock that breaks a rule is declined with the first rule it breaks. */
  lemma HtlcScoreByRule(q: AcceptedQuote, raw: seq<RawCandidate>, htlc: Option<OnChainHtlc>)
    ensures HtlcScore(q, raw, htlc) == Wait(NoCandidate) <==> raw == [] || htlc == None
    ensures HtlcScore(q, raw, htlc).Wait? ==> HtlcScore(q, raw, htlc) == Wait(NoCandidate)
    ensures raw != [] && htlc.Some? ==>
              var r, lock := HtlcScore(q, raw, htlc), htlc.value;
              && (r == Decline(DatumUnhonorable) <==> !IsQuoteId(q.quoteId))
              && (r == Decline(AddressMismatch) <==> IsQuoteId(q.quoteId) && lock.receiver != q.payee)
              && (r == Decline(AmountMismatch)
                  <==> IsQuoteId(q.quoteId) && lock.receiver == q.payee && lock.value != q.exferAmount)
              && (r == Decline(PayerBindingFailed)
                  <==> IsQuoteId(q.quoteId) && lock.receiver == q.payee && lock.value == q.exferAmount
                       && q.payer != None && q.payer != Some(lock.sender))
              && (r.Decline? ==> r.reason in {DatumUnhonorable, AddressMismatch, AmountMismatch, PayerBindingFailed})
  {
  }

  /** Phase A goes ahead only if the claim can bury before the timeout. */
  predicate TimeToClaim(cfg: Config, tip: int, timeout: int) { tip + cfg.claimMargin <= timeout }

  datatype Prior = PhaseA | PhaseB(record: ClaimRecord)

  /** The in-process record of submitted claims decides the phase. */
  function PriorOf(claims: map<Key, ClaimRecord>, k: Key): Prior {
    if k in claims then PhaseB(claims[k]) else PhaseA
  }

  // ---- the protocol of one process ------------------------------------------------------------------------

  /** Where an HTLC call's `prepare` stands; phase A's tip and timeout travel along for specification. */
  datatype Phase =
    | AwaitHtlc(tip: int)
    | AwaitPreimage(tip: int, timeout: int)
    | AwaitSubmit(tip: int, timeout: int)
    | AwaitReserve(tip: int, timeout: int, claimTxId: Hex)
    | AwaitRecord(tip: int, timeout: int, claimTxId: Hex)
    | AwaitEngine(claimTxId: Hex)
    | AwaitClaim(tip: int, prior: ClaimRecord)

  /** The history the theorems speak about. */
  datatype Mark =
    | PreimageMark(key: Key)
    | PhaseAMark(key: Key, lock: Outpoint, claimTxId: Hex, tip: int, timeout: int)
    | PhaseBMark(key: Key, claimTxId: Hex, tip: int, height: int)
    | DeliveredMark(key: Key, outpoint: Outpoint)

  datatype HSys = HSys(sys: Sys, claims: map<Key, ClaimRecord>, phases: map<nat, Phase>, marks: seq<Mark>)

  datatype HEvent =
    | Base(e: Event)
    | PrepareEntry(id: nat, tip: int)
    | GotHtlc(id: nat, timeout: Option<int>)
    | GotPreimage(id: nat, present: bool)
    | Submitted(id: nat, claimTxId: Hex)
    | Reserved(id: nat)
    | Recorded(id: nat)
    | Resumed(id: nat)
    | GotClaim(id: nat, height: Option<int>)

  const H_INITIAL := HSys(INITIAL, map[], map[], [])

  /** An HTLC call inside `prepare` (or about to enter it). */
  predicate Preparing(s: Sys, id: nat) {
    id in s.calls && s.calls[id].pc.Scored? && s.calls[id].pc.row.form == Form.Htlc
  }

  predicate InPhase(h: HSys, id: nat) { id in h.phases && Preparing(h.sys, id) }

  /** `prepare` resolves: the engine resumes with the result. */
  function Resolve(h: HSys, id: nat, r: PrepareResult): HSys {
    h.(sys := Step(h.sys, Prepare(id, r)), phases := h.phases - {id})
  }

  /** Engine and store events. Other forms are always ready; the HTLC form alone does more in `prepare`
      and reserves outpoints. A call cannot fault between its reservation and its record, which run
      without an await of outside work. */
  function BaseStep(h: HSys, e: Event): HSys {
    match e
    case Prepare(id, r) => if Preparing(h.sys, id) || r != PrepReady then h else h.(sys := Step(h.sys, e))
    case ReserveClaim(_, _, _) => h
    case Restart => h
    case Fail(id, _) =>
      if id in h.phases && (h.phases[id].AwaitRecord? || h.phases[id].AwaitEngine?) then h
      else h.(sys := Step(h.sys, e), phases := h.phases - {id})
    case RunGate(id, _, _) =>
      var s := Step(h.sys, e);
      h.(sys := s,
      marks := if s.log != h.sys.log && s.log[|s.log| - 1].mode == Promote
               then h.marks + [DeliveredMark(s.log[|s.log| - 1].key, s.log[|s.log| - 1].outpoint)] else h.marks)
    case _ => h.(sys := Step(h.sys, e))
  }

  /** Phase A reserves its lock ... */
  function ReserveStep(h: HSys, id: nat): HSys
    requires InPhase(h, id) && h.phases[id].AwaitReserve?
  {
    var c, p := h.sys.calls[id], h.phases[id];
    h.(sys := Step(h.sys, ReserveClaim(c.key, c.pc.cand.outpoint, p.claimTxId)),
    phases := h.phases[id := AwaitRecord(p.tip, p.timeout, p.claimTxId)])
  }

  /** ... and records the claim. */
  function RecordStep(h: HSys, id: nat): HSys
    requires InPhase(h, id) && h.phases[id].AwaitRecord?
  {
    var c, p := h.sys.calls[id], h.phases[id];
    h.(claims := h.claims[c.key := ClaimRecord(p.claimTxId, c.pc.cand.outpoint)],
    phases := h.phases[id := AwaitEngine(p.claimTxId)],
    marks := h.marks + [PhaseAMark(c.key, c.pc.cand.outpoint, p.claimTxId, p.tip, p.timeout)])
  }

  /** Phase B on the claim height it has read. */
  function ClaimStep(cfg: Config, h: HSys, id: nat, height: Option<int>): HSys
    requires InPhase(h, id) && h.phases[id].AwaitClaim?
  {
    var k, p := h.sys.calls[id].key, h.phases[id];
    if height.Some? && Buried(cfg, p.tip, height.value) then
      Resolve(h, id, PrepReady).(marks := h.marks + [PhaseBMark(k, p.prior.claimTxId, p.tip, height.value)])
    else Resolve(h, id, PrepWait(ReorgWithheld))
  }

  function PhaseStep(cfg: Config, h: HSys, e: HEvent, id: nat): HSys
    requires InPhase(h, id)
  {
    match (e, h.phases[id])
    case (GotHtlc(_, timeout), AwaitHtlc(tip)) =>
      if timeout.None? then Resolve(h, id, PrepWait(NoCandidate))
      else if !TimeToClaim(cfg, tip, timeout.value) then Resolve(h, id, PrepWait(ReorgWithheld))
      else h.(phases := h.phases[id := AwaitPreimage(tip, timeout.value)])
    case (GotPreimage(_, present), AwaitPreimage(tip, timeout)) =>
      if present then h.(phases := h.phases[id := AwaitSubmit(tip, timeout)])
      else Resolve(h, id, PrepWait(NoCandidate))
    case (Submitted(_, tx), AwaitSubmit(tip, timeout)) =>
      h.(phases := h.phases[id := AwaitReserve(tip, timeout, tx)])
    case (Reserved(_), AwaitReserve(_, _, _)) => ReserveStep(h, id)
    case (Recorded(_), AwaitRecord(_, _, _)) => RecordStep(h, id)
    case (Resumed(_), AwaitEngine(tx)) => Resolve(h, id, ClaimSubmitted(tx))
    case (GotClaim(_, height), AwaitClaim(_, _)) => ClaimStep(cfg, h, id, height)
    case _ => h
  }

  /** The history notes that a call which asked for the preimage was given it, whatever comes of that. */
  function Hears(h: HSys, e: HEvent): HSys {
    if e.GotPreimage? && e.present && InPhase(h, e.id) && h.phases[e.id].AwaitPreimage? then
      h.(marks := h.marks + [PreimageMark(h.sys.calls[e.id].key)])
    else h
  }

  function HStep(cfg: Config, h: HSys, e: HEvent): HSys {
    match e
    case Base(b) => BaseStep(h, b)
    case PrepareEntry(id, tip) =>
      if Preparing(h.sys, id) && id !in h.phases then
        var prior := PriorOf(h.claims, h.sys.calls[id].key);
        h.(phases := h.phases[id := if prior.PhaseA? then AwaitHtlc(tip) else AwaitClaim(tip, prior.record)])
      else h
    case _ => if InPhase(h, e.id) then PhaseStep(cfg, Hears(h, e), e, e.id) else h
  }

  function HRun(cfg: Config, es: seq<HEvent>): HSys
    decreases |es|
  {
    if es == [] then H_INITIAL else HStep(cfg, HRun(cfg, es[..|es| - 1]), es[|es| - 1])
  }

  // ---- an HTLC run is an engine run -----------------------------------------------------------------------

  /** The engine event behind a protocol event, if any. */
  function Underlying(cfg: Config, h: HSys, e: HEvent): seq<Event> {
    match e
    case Base(b) => UnderlyingBase(h, b)
    case PrepareEntry(_, _) => []
    case _ => if InPhase(h, e.id) then UnderlyingPhase(cfg, Hears(h, e), e, e.id) else []
  }

  function UnderlyingBase(h: HSys, e: Event): seq<Event> {
    match e
    case Prepare(id, r) => if Preparing(h.sys, id) || r != PrepReady then [] else [e]
    case ReserveClaim(_, _, _) => []
    case Restart => []
    case Fail(id, _) => if id in h.phases && (h.phases[id].AwaitRecord? || h.phases[id].AwaitEngine?) then [] else [e]
    case _ => [e]
  }

  function UnderlyingPhase(cfg: Config, h: HSys, e: HEvent, id: nat): seq<Event>
    requires InPhase(h, id)
  {
    match (e, h.phases[id])
    case (GotHtlc(_, timeout), AwaitHtlc(tip)) =>
      if timeout.None? then [Prepare(id, PrepWait(NoCandidate))]
      else if !TimeToClaim(cfg, tip, timeout.value) then [Prepare(id, PrepWait(ReorgWithheld))]
      else []
    case (GotPreimage(_, present), AwaitPreimage(_, _)) =>
      if present then [] else [Prepare(id, PrepWait(NoCandidate))]
    case (Reserved(_), AwaitReserve(_, _, tx)) =>
      [ReserveClaim(h.sys.calls[id].key, h.sys.calls[id].pc.cand.outpoint, tx)]
    case (Resumed(_), AwaitEngine(tx)) => [Prepare(id, ClaimSubmitted(tx))]
    case (GotClaim(_, height), AwaitClaim(tip, _)) =>
      if height.Some? && Buried(cfg, tip, height.value) then [Prepare(id, PrepReady)]
      else [Prepare(id, PrepWait(ReorgWithheld))]
    case _ => []
  }

  function EngineRun(cfg: Config, es: seq<HEvent>): seq<Event>
    decreases |es|
  {
    if es == [] then []
    else EngineRun(cfg, es[..|es| - 1]) + Underlying(cfg, HRun(cfg, es[..|es| - 1]), es[|es| - 1])
  }

  lemma EngineSeesBase(h: HSys, e: Event)
    ensures |UnderlyingBase(h, e)| <= 1
    ensures BaseStep(h, e).sys == if UnderlyingBase(h, e) == [] then h.sys else Step(h.sys, UnderlyingBase(h, e)[0])
  {
  }

  lemma EngineSeesPhase(cfg: Config, h: HSys, e: HEvent, id: nat)
    requires InPhase(h, id)
    ensures var u := UnderlyingPhase(cfg, h, e, id);
            |u| <= 1 && PhaseStep(cfg, h, e, id).sys == if u == [] then h.sys else Step(h.sys, u[0])
  {
  }

  /** The protocol only ever drives the engine through its own events, so every theorem about engine runs
      holds of it. */
  lemma {:induction false} HtlcRunIsEngineRun(cfg: Config, es: seq<HEvent>)
    ensures HRun(cfg, es).sys == Run(EngineRun(cfg, es))
    decreases |es|
  {
    if es != [] {
      var h, e := HRun(cfg, es[..|es| - 1]), es[|es| - 1];
      var past, u := EngineRun(cfg, es[..|es| - 1]), Underlying(cfg, h, e);
      HtlcRunIsEngineRun(cfg, es[..|es| - 1]);
      if e.Base? { EngineSeesBase(h, e.e); }
      else if !e.PrepareEntry? && InPhase(h, e.id) { EngineSeesPhase(cfg, Hears(h, e), e, e.id); }
      if u == [] { assert past + u == past; }
      else {
        assert u == [u[0]];
        RunSnoc(past, u[0]);
      }
    }
  }

  // ---- the form object ------------------------------------------------------------------------------------

  /** HtlcForm inside one process: its claim map and the suspended activations of `prepare`. Each method is
      one atomic section, proved to take the step of the protocol. */
  class HtlcForm {
    const engine: HonorEngine
    const cfg: Config
    var claims: map<Key, ClaimRecord>
    var phases: map<nat, Phase>
    ghost var marks: seq<Mark>

    ghost function View(): HSys
      reads this, engine, engine.store
    {
      HSys(engine.View(), claims, phases, marks)
    }

    constructor (engine: HonorEngine, cfg: Config)
      ensures View() == HSys(engine.View(), map[], map[], [])
      ensures this.engine == engine && this.cfg == cfg
    {
      this.engine, this.cfg, claims, phases, marks := engine, cfg, map[], map[], [];
    }

    /** Entry of `prepare` with the tip the engine has read. */
    method Prepare(id: nat, tip: int)
      requires Preparing(engine.View(), id) && id !in phases
      modifies this`phases
      ensures View() == HStep(cfg, old(View()), PrepareEntry(id, tip))
    {
      var k := engine.calls[id].key;
      if k !in claims {
        phases := phases[id := AwaitHtlc(tip)];
      } else {
        phases := phases[id := AwaitClaim(tip, claims[k])];
      }
    }

    /** `prepare` returns, and the engine goes on with its result. */
    method Return(id: nat, r: PrepareResult)
      requires InPhase(View(), id)
      modifies this`phases, engine`calls, engine`claimTxIds
      ensures View() == Resolve(old(View()), id, r)
    {
      phases := phases - {id};
      engine.ResumePrepared(id, r);
    }

    method ResumeHtlc(id: nat, htlc: Option<OnChainHtlc>)
      requires InPhase(View(), id) && phases[id].AwaitHtlc?
      modifies this`phases, engine`calls, engine`claimTxIds
      ensures var timeout := if htlc.Some? then Some(htlc.value.timeoutHeight) else None;
              View() == HStep(cfg, old(View()), GotHtlc(id, timeout))
    {
      var tip := phases[id].tip;
      if htlc.None? {
        Return(id, PrepWait(NoCandidate));
      } else if tip + cfg.claimMargin > htlc.value.timeoutHeight {
        Return(id, PrepWait(ReorgWithheld));
      } else {
        phases := phases[id := AwaitPreimage(tip, htlc.value.timeoutHeight)];
      }
    }

    /** `present`: the payee has the preimage at hand and a way to submit the claim. */
    method ResumePreimage(id: nat, present: bool)
      requires InPhase(View(), id) && phases[id].AwaitPreimage?
      modifies this`phases, this`marks, engine`calls, engine`claimTxIds
      ensures View() == HStep(cfg, old(View()), GotPreimage(id, present))
    {
      if !present {
        Return(id, PrepWait(NoCandidate));
      } else {
        marks := marks + [PreimageMark(engine.calls[id].key)];
        phases := phases[id := AwaitSubmit(phases[id].tip, phases[id].timeout)];
      }
    }

    method ResumeSubmitted(id: nat, claimTxId: Hex)
      requires InPhase(View(), id) && phases[id].AwaitSubmit?
      modifies this`phases
      ensures View() == HStep(cfg, old(View()), Submitted(id, claimTxId))
    {
      phases := phases[id := AwaitReserve(phases[id].tip, phases[id].timeout, claimTxId)];
    }

    /** The reservation takes effect in the store. */
    method RunReserve(id: nat)
      requires InPhase(View(), id) && phases[id].AwaitReserve?
      modifies this`phases, engine.store
      ensures View() == HStep(cfg, old(View()), Reserved(id))
    {
      var c, p := engine.calls[id], phases[id];
      engine.store.ReserveClaimOutpoint(c.key, c.pc.cand.outpoint, p.claimTxId);
      phases := phases[id := AwaitRecord(p.tip, p.timeout, p.claimTxId)];
    }

    method RecordClaim(id: nat)
      requires InPhase(View(), id) && phases[id].AwaitRecord?
      modifies this
      ensures View() == HStep(cfg, old(View()), Recorded(id))
    {
      var c, p := engine.calls[id], phases[id];
      claims := claims[c.key := ClaimRecord(p.claimTxId, c.pc.cand.outpoint)];
      phases := phases[id := AwaitEngine(p.claimTxId)];
      marks := marks + [PhaseAMark(c.key, c.pc.cand.outpoint, p.claimTxId, p.tip, p.timeout)];
    }

    method ReturnSubmitted(id: nat)
      requires InPhase(View(), id) && phases[id].AwaitEngine?
      modifies this`phases, engine`calls, engine`claimTxIds
      ensures View() == HStep(cfg, old(View()), Resumed(id))
    {
      Return(id, ClaimSubmitted(phases[id].claimTxId));
    }

    /** Phase B on the re-read claim height. */
    method ResumeClaim(id: nat, height: Option<int>)
      requires InPhase(View(), id) && phases[id].AwaitClaim?
      modifies this`phases, this`marks, engine`calls, engine`claimTxIds
      ensures View() == HStep(cfg, old(View()), GotClaim(id, height))
    {
      var c, p := engine.calls[id], phases[id];
      if height.None? {
        Return(id, PrepWait(ReorgWithheld));
        return;
      }
      var depth := p.tip - height.value + 1;
      if depth < cfg.claimMargin {
        Return(id, PrepWait(ReorgWithheld));
      } else {
        marks := marks + [PhaseBMark(c.key, p.prior.claimTxId, p.tip, height.value)];
        Return(id, PrepReady);
      }
    }

    /** The gate transaction of a call, in either mode. */
    method RunGate(id: nat, d: Deliver, rethrow: bool)
      requires id in engine.calls && engine.calls[id].pc.Ready?
      modifies this`marks, engine, engine.store
      ensures View() == HStep(cfg, old(View()), Base(Event.RunGate(id, d, rethrow)))
    {
      var c := engine.calls[id];
      var outcome := engine.CommitHonor(id, d, rethrow);
      if outcome.Honored? && c.pc.row.form == Form.Htlc {
        marks := marks + [DeliveredMark(c.key, c.pc.cand.outpoint)];
      }
    }
  }
}
