/** What `prepare` answers at each of its awaits, and that the protocol does deliver. */
module HtlcProgress {
  import opened HonorSpec
  import opened Gate
  import opened Engine
  import opened Chains
  import opened Htlc

  // ---- each await, by its outcome -------------------------------------------------------------------------

  /** The call has left `prepare` with something to wait for, and nothing else has changed. */
  predicate Waits(h: HSys, h': HSys, id: nat, reason: WaitReason) {
    && id in h.sys.calls && id !in h'.phases
    && h'.sys == h.sys.(calls := h.sys.calls[id := h.sys.calls[id].(pc := Ended(NotReady(Wait(reason))))])
    && h'.claims == h.claims && h'.phases == h.phases - {id}
  }

  /** The call goes on to await `p`, and nothing else has changed. */
  predicate GoesOn(h: HSys, h': HSys, id: nat, p: Phase) {
    h'.sys == h.sys && h'.claims == h.claims && h'.phases == h.phases[id := p]
  }

  /** `prepare` starts on phase A unless this process has a claim on record for the key. */
  lemma EntryNext(cfg: Config, h: HSys, id: nat, tip: int)
    requires Preparing(h.sys, id) && id !in h.phases
    ensures var h', k := HStep(cfg, h, PrepareEntry(id, tip)), h.sys.calls[id].key;
            && (k !in h.claims ==> GoesOn(h, h', id, AwaitHtlc(tip)))
            && (k in h.claims ==> GoesOn(h, h', id, AwaitClaim(tip, h.claims[k])))
  {
  }

  /** No lock: no_candidate. Too close to the timeout to bury the claim: reorg_withheld. Otherwise on to the
      preimage. */
  lemma LockNext(cfg: Config, h: HSys, id: nat, timeout: Option<int>)
    requires InPhase(h, id) && h.phases[id].AwaitHtlc?
    ensures var h', tip := HStep(cfg, h, GotHtlc(id, timeout)), h.phases[id].tip;
            && (timeout == None ==> Waits(h, h', id, NoCandidate))
            && (timeout.Some? && tip + cfg.claimMargin > timeout.value ==> Waits(h, h', id, ReorgWithheld))
            && (timeout.Some? && tip + cfg.claimMargin <= timeout.value ==>
                  GoesOn(h, h', id, AwaitPreimage(tip, timeout.value)))
  {
  }

  /** With the preimage in hand the claim is submitted, on the same tip and timeout; without it there is
      nothing to claim with. */
  lemma PreimageNext(cfg: Config, h: HSys, id: nat, present: bool)
    requires InPhase(h, id) && h.phases[id].AwaitPreimage?
    ensures var h', p := HStep(cfg, h, GotPreimage(id, present)), h.phases[id];
            && (present ==> GoesOn(h, h', id, AwaitSubmit(p.tip, p.timeout)))
            && (!present ==> Waits(h, h', id, NoCandidate))
  {
  }

  /** The submitted claim is reserved for, recorded with its lock, and told to the engine, which answers
      htlc_claim_pending and shows the claim from then on. */
  lemma ClaimNext(cfg: Config, h: HSys, id: nat, tx: Hex)
    requires InPhase(h, id)
    ensures h.phases[id].AwaitSubmit? ==>
              GoesOn(h, HStep(cfg, h, Submitted(id, tx)), id, AwaitReserve(h.phases[id].tip, h.phases[id].timeout, tx))
    ensures h.phases[id].AwaitReserve? ==>
              var h', c, p := HStep(cfg, h, Reserved(id)), h.sys.calls[id], h.phases[id];
              var o, table := c.pc.cand.outpoint, h.sys.db.consumed;
              var row := ConsumedRow(c.key, ClaimPending, None, Some(p.claimTxId), MAX_SAFE_INTEGER);
              && h'.phases == h.phases[id := AwaitRecord(p.tip, p.timeout, p.claimTxId)] && h'.claims == h.claims
              && (o in table ==> h'.sys == h.sys)
              && (o !in table ==> h'.sys == h.sys.(db := h.sys.db.(consumed := table[o := row])))
    ensures h.phases[id].AwaitRecord? ==>
              var h', c, p := HStep(cfg, h, HEvent.Recorded(id)), h.sys.calls[id], h.phases[id];
              && h'.sys == h.sys && h'.phases == h.phases[id := AwaitEngine(p.claimTxId)]
              && h'.claims == h.claims[c.key := ClaimRecord(p.claimTxId, c.pc.cand.outpoint)]
    ensures h.phases[id].AwaitEngine? ==>
              var h', c, p := HStep(cfg, h, Resumed(id)), h.sys.calls[id], h.phases[id];
              && h'.sys == h.sys.(claimTxIds := h.sys.claimTxIds[c.key := p.claimTxId],
                                  calls := h.sys.calls[id := c.(pc := Ended(NotReady(Wait(HtlcClaimPending))))])
              && h'.claims == h.claims && h'.phases == h.phases - {id}
  {
  }

  /** Phase B: an unmined or shallow claim is withheld; a claim CLAIM_MARGIN deep opens the gate for the row
      and candidate the call has captured. */
  lemma BurialNext(cfg: Config, h: HSys, id: nat, height: Option<int>)
    requires InPhase(h, id) && h.phases[id].AwaitClaim?
    ensures var h', c, tip := HStep(cfg, h, GotClaim(id, height)), h.sys.calls[id], h.phases[id].tip;
            && (height == None ==> Waits(h, h', id, ReorgWithheld))
            && (height.Some? && tip - height.value + 1 < cfg.claimMargin ==> Waits(h, h', id, ReorgWithheld))
            && (height.Some? && tip - height.value + 1 >= cfg.claimMargin ==>
                  && h'.sys == h.sys.(calls := h.sys.calls[id := c.(pc := Ready(c.pc.row, c.pc.cand))])
                  && h'.claims == h.claims && h'.phases == h.phases - {id})
  {
  }

  // ---- the protocol delivers ------------------------------------------------------------------------------

  function HAfter(cfg: Config, h: HSys, es: seq<HEvent>): HSys
    decreases |es|
  {
    if es == [] then h else HStep(cfg, HAfter(cfg, h, es[..|es| - 1]), es[|es| - 1])
  }

  ghost predicate Reaches(cfg: Config, h: HSys, h': HSys) { exists es: seq<HEvent> :: HAfter(cfg, h, es) == h' }

  lemma ReachesNext(cfg: Config, h: HSys, h': HSys, e: HEvent)
    requires Reaches(cfg, h, h')
    ensures Reaches(cfg, h, HStep(cfg, h', e))
  {
    var es: seq<HEvent> :| HAfter(cfg, h, es) == h';
    assert (es + [e])[..|es + [e]| - 1] == es;
    assert HAfter(cfg, h, es + [e]) == HStep(cfg, h', e);
  }

  lemma {:induction false} RunReaches(cfg: Config, es: seq<HEvent>, more: seq<HEvent>)
    ensures HRun(cfg, es + more) == HAfter(cfg, HRun(cfg, es), more)
    decreases |more|
  {
    if more == [] {
      assert es + more == es;
    } else {
      assert (es + more)[..|es + more| - 1] == es + more[..|more| - 1];
      RunReaches(cfg, es, more[..|more| - 1]);
    }
  }

  /** Unhonored, inside retention, and before expiry or observed before it. */
  predicate Live(row: SeenRow, now: int) {
    row.honoredAt == None && now < row.retainUntil && (now < row.expiresAt || row.observedBeforeExpiry)
  }

  /** A call enters, reads its row and is scored; nothing else moves. */
  lemma Scoring(cfg: Config, h0: HSys, h: HSys, id: nat, k: Key, now: int, c: Candidate) returns (h': HSys)
    requires Reaches(cfg, h0, h) && id !in h.sys.calls && k in h.sys.db.seen && h.sys.db.seen[k].honoredAt.None?
    ensures Reaches(cfg, h0, h')
    ensures h' == h.(sys := h.sys.(calls := h.sys.calls[id := Call(k, now, Scored(h.sys.db.seen[k], c))]))
  {
    var entered := HStep(cfg, h, Base(Enter(id, k, now)));
    ReachesNext(cfg, h0, h, Base(Enter(id, k, now)));
    var loaded := HStep(cfg, entered, Base(Load(id)));
    ReachesNext(cfg, h0, entered, Base(Load(id)));
    assert loaded.sys.calls[id] == Call(k, now, Loaded(h.sys.db.seen[k]));
    h' := HStep(cfg, loaded, Base(Score(id, Honor(c))));
    ReachesNext(cfg, h0, loaded, Base(Score(id, Honor(c))));
    assert h'.sys.calls == h.sys.calls[id := Call(k, now, Scored(h.sys.db.seen[k], c))];
  }

  /** Phase A up to the submission. */
  lemma Submitting(cfg: Config, h0: HSys, h: HSys, id: nat, tip: int, timeout: int, tx: Hex) returns (h': HSys)
    requires Reaches(cfg, h0, h) && Preparing(h.sys, id) && id !in h.phases && h.sys.calls[id].key !in h.claims
    requires TimeToClaim(cfg, tip, timeout)
    ensures Reaches(cfg, h0, h') && GoesOn(h, h', id, AwaitReserve(tip, timeout, tx))
  {
    var entered := HStep(cfg, h, PrepareEntry(id, tip));
    ReachesNext(cfg, h0, h, PrepareEntry(id, tip));
    EntryNext(cfg, h, id, tip);
    var checked := HStep(cfg, entered, GotHtlc(id, Some(timeout)));
    ReachesNext(cfg, h0, entered, GotHtlc(id, Some(timeout)));
    LockNext(cfg, entered, id, Some(timeout));
    var held := HStep(cfg, checked, GotPreimage(id, true));
    ReachesNext(cfg, h0, checked, GotPreimage(id, true));
    PreimageNext(cfg, checked, id, true);
    h' := HStep(cfg, held, Submitted(id, tx));
    ReachesNext(cfg, h0, held, Submitted(id, tx));
    ClaimNext(cfg, held, id, tx);
  }

  /** The rest of phase A: the lock is reserved and recorded, and the call ends. */
  lemma Recording(cfg: Config, h0: HSys, h: HSys, id: nat) returns (h': HSys)
    requires Reaches(cfg, h0, h) && InPhase(h, id) && h.phases[id].AwaitReserve?
    requires h.sys.calls[id].pc.cand.outpoint !in h.sys.db.consumed
    ensures Reaches(cfg, h0, h')
    ensures var c := h.sys.calls[id];
            var o, tx := c.pc.cand.outpoint, h.phases[id].claimTxId;
            && h'.claims == h.claims[c.key := ClaimRecord(tx, o)] && h'.phases == h.phases - {id}
            && h'.sys.calls.Keys == h.sys.calls.Keys && h'.sys.log == h.sys.log && h'.sys.db.seen == h.sys.db.seen
            && h'.sys.db.goods == h.sys.db.goods
            && o in h'.sys.db.consumed && h'.sys.db.consumed[o].state == ClaimPending
  {
    var tx := h.phases[id].claimTxId;
    var reserved := HStep(cfg, h, Reserved(id));
    ReachesNext(cfg, h0, h, Reserved(id));
    ClaimNext(cfg, h, id, tx);
    var recorded := HStep(cfg, reserved, HEvent.Recorded(id));
    ReachesNext(cfg, h0, reserved, HEvent.Recorded(id));
    ClaimNext(cfg, reserved, id, tx);
    h' := HStep(cfg, recorded, Resumed(id));
    ReachesNext(cfg, h0, recorded, Resumed(id));
    ClaimNext(cfg, recorded, id, tx);
  }

  /** Phase B of another call: the claim is found buried and the gate commits. */
  lemma Committing(cfg: Config, h0: HSys, h: HSys, id: nat, tip: int, height: int, d: Deliver) returns (h': HSys)
    requires Reaches(cfg, h0, h) && Preparing(h.sys, id) && id !in h.phases && h.sys.calls[id].key in h.claims
    requires Buried(cfg, tip, height) && d.end == Returns
    requires var c := h.sys.calls[id];
             && c.key in h.sys.db.seen && h.sys.db.seen[c.key] == c.pc.row && Live(c.pc.row, c.now)
             && c.pc.cand.outpoint in h.sys.db.consumed
             && h.sys.db.consumed[c.pc.cand.outpoint].state == ClaimPending
    ensures Reaches(cfg, h0, h')
    ensures var c := h.sys.calls[id];
            && h'.sys.log == h.sys.log + [Delivery(c.key, c.pc.cand.outpoint, c.now, Promote)]
            && h'.sys.db.goods == h.sys.db.goods + (set g | g in d.writes)
            && id in h'.sys.calls && h'.sys.calls[id].pc == Ended(Honored(c.pc.cand.outpoint))
  {
    var entered := HStep(cfg, h, PrepareEntry(id, tip));
    ReachesNext(cfg, h0, h, PrepareEntry(id, tip));
    EntryNext(cfg, h, id, tip);
    var ready := HStep(cfg, entered, GotClaim(id, Some(height)));
    ReachesNext(cfg, h0, entered, GotClaim(id, Some(height)));
    BurialNext(cfg, entered, id, Some(height));
    h' := HStep(cfg, ready, Base(RunGate(id, d, false)));
    ReachesNext(cfg, h0, ready, Base(RunGate(id, d, false)));
    assert Written(d.writes) == set g | g in d.writes;
  }

  /** From any state, an HTLC quote whose row is live, whose outpoint is free and which has no claim yet does
      get its goods: with the preimage in hand, time to claim and a claim that buries, two calls deliver it
      from its lock. */
  lemma HtlcQuoteDelivers(
    cfg: Config, h: HSys, k: Key, c: Candidate, a: nat, b: nat, tip: int, timeout: int, tx: Hex, later: int,
    height: int, now: int, d: Deliver
  ) returns (h': HSys)
    requires k in h.sys.db.seen && h.sys.db.seen[k].form == Form.Htlc && Live(h.sys.db.seen[k], now)
    requires c.outpoint !in h.sys.db.consumed && k !in h.claims && d.end == Returns
    requires a != b && a !in h.sys.calls && b !in h.sys.calls && a !in h.phases && b !in h.phases
    requires TimeToClaim(cfg, tip, timeout) && Buried(cfg, later, height)
    ensures Reaches(cfg, h, h')
    ensures h'.sys.log == h.sys.log + [Delivery(k, c.outpoint, now, Promote)]
    ensures h'.sys.db.goods == h.sys.db.goods + (set g | g in d.writes)
  {
    assert HAfter(cfg, h, []) == h;
    var first := Scoring(cfg, h, h, a, k, now, c);
    var submitting := Submitting(cfg, h, first, a, tip, timeout, tx);
    var claimed := Recording(cfg, h, submitting, a);
    var second := Scoring(cfg, h, claimed, b, k, now, c);
    h' := Committing(cfg, h, second, b, later, height, d);
  }

  /** So every HTLC quote has a run, from its registration on, that ends with its goods delivered. */
  lemma HtlcRunDelivers(
    cfg: Config, q: AcceptedQuote, window: int, c: Candidate, tip: int, timeout: int, tx: Hex, later: int, height: int,
    now: int, d: Deliver
  ) returns (es: seq<HEvent>)
    requires q.form == Form.Htlc && now < q.expiresAt && now < q.expiresAt + window && d.end == Returns
    requires TimeToClaim(cfg, tip, timeout) && Buried(cfg, later, height)
    ensures HRun(cfg, es).sys.log == [Delivery(q.KeyOf(), c.outpoint, now, Promote)]
    ensures HRun(cfg, es).sys.db.goods == set g | g in d.writes
  {
    var start := [Base(Register(q, now, window))];
    assert start[..0] == [] && HRun(cfg, start) == HStep(cfg, HRun(cfg, []), Base(Register(q, now, window)));
    var h := HRun(cfg, start);
    var h' := HtlcQuoteDelivers(cfg, h, q.KeyOf(), c, 0, 1, tip, timeout, tx, later, height, now, d);
    var more: seq<HEvent> :| HAfter(cfg, h, more) == h';
    RunReaches(cfg, start, more);
    es := start + more;
  }
}
