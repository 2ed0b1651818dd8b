/** The engine's claim map, the form's claim map and the CONSUMED rows tell one story. */
module HtlcBookkeeping {
  import opened HonorSpec
  import opened Engine
  import opened Hypotheses
  import opened ExactlyOnce
  import opened Chains
  import opened Htlc
  import opened HtlcEarned

  // ---- the two claim maps ---------------------------------------------------------------------------------

  /** The form has recorded a claim the engine has not yet been told of. */
  predicate Telling(h: HSys, id: nat, k: Key) {
    id in h.phases && h.phases[id].AwaitEngine? && Preparing(h.sys, id) && h.sys.calls[id].key == k
  }

  ghost predicate MapsAgree(h: HSys) {
    && (forall k :: k in h.sys.claimTxIds ==> k in h.claims && h.sys.claimTxIds[k] == h.claims[k].claimTxId)
    && (forall k :: k in h.claims ==> k in h.sys.claimTxIds || exists id :: Telling(h, id, k))
  }

  lemma TellingCarries(h: HSys, h': HSys)
    requires MapsAgree(h)
    requires forall k :: k in h'.sys.claimTxIds ==> k in h'.claims && h'.sys.claimTxIds[k] == h'.claims[k].claimTxId
    requires forall k :: k in h.sys.claimTxIds ==> k in h'.sys.claimTxIds
    requires forall k :: k in h'.claims ==> k in h.claims || exists id :: Telling(h', id, k)
    requires forall id, k :: Telling(h, id, k) ==> Telling(h', id, k) || k in h'.sys.claimTxIds
    ensures MapsAgree(h')
  {
    forall k | k in h'.claims && k !in h'.sys.claimTxIds ensures exists id :: Telling(h', id, k) {
      if k in h.claims {
        var id :| Telling(h, id, k);
        assert Telling(h', id, k);
      }
    }
  }

  lemma BaseMaps(cfg: Config, h: HSys, e: Event)
    requires MapsAgree(h) && PhasesFit(cfg, h)
    ensures MapsAgree(BaseStep(h, e))
  {
    var h' := BaseStep(h, e);
    if Passes(h, e) {
      forall id, k | Telling(h, id, k) ensures Telling(h', id, k) { PreparingStands(h.sys, e, id); }
      TellingCarries(h, h');
    }
  }

  /** A step of one call's `prepare` leaves every other call where it was. */
  lemma OthersStand(cfg: Config, h: HSys, e: HEvent, id: nat, i: nat)
    requires InPhase(h, id) && i != id && i in h.phases && Preparing(h.sys, i)
    ensures var h' := PhaseStep(cfg, h, e, id);
            i in h'.phases && h'.phases[i] == h.phases[i] && i in h'.sys.calls && h'.sys.calls[i] == h.sys.calls[i]
  {
    CallsMove(h.sys, Prepare(id, PrepReady));
  }

  lemma PhaseMaps(cfg: Config, h: HSys, e: HEvent, id: nat)
    requires MapsAgree(h) && PhaseFits(cfg, h, id) && InPhase(h, id)
    ensures MapsAgree(PhaseStep(cfg, h, e, id))
  {
    var h' := PhaseStep(cfg, h, e, id);
    assert PhaseFits(cfg, h, id);
    forall i, x | Telling(h, i, x) && i != id ensures Telling(h', i, x) { OthersStand(cfg, h, e, id, i); }
    OwnMaps(cfg, h, e, id);
    TellingCarries(h, h');
  }

  /** A step of one call only touches its own entries. */
  lemma OwnMaps(cfg: Config, h: HSys, e: HEvent, id: nat)
    requires InPhase(h, id) && PhaseFits(cfg, h, id)
    ensures var h', k := PhaseStep(cfg, h, e, id), h.sys.calls[id].key;
            && (h'.claims == h.claims || (Telling(h', id, k) && k !in h.claims && k in h'.claims
                                          && h'.claims == h.claims[k := h'.claims[k]]))
            && (h'.sys.claimTxIds == h.sys.claimTxIds
                || (k in h'.claims && h'.sys.claimTxIds == h.sys.claimTxIds[k := h'.claims[k].claimTxId]))
            && (Telling(h, id, k) ==> Telling(h', id, k) || k in h'.sys.claimTxIds)
  {
  }

  lemma MapsAgreeStep(cfg: Config, h: HSys, e: HEvent)
    requires MapsAgree(h) && PhasesFit(cfg, h)
    ensures MapsAgree(HStep(cfg, h, e))
  {
    match e
    case Base(b) => BaseMaps(cfg, h, b);
    case PrepareEntry(id, tip) => TellingCarries(h, HStep(cfg, h, e));
    case _ =>
      if InPhase(h, e.id) {
        TellingCarries(h, Hears(h, e));
        assert PhaseFits(cfg, h, e.id);
        PhaseMaps(cfg, Hears(h, e), e, e.id);
      }
  }

  lemma {:induction false} MapsAgreeHolds(cfg: Config, env: Env, es: seq<HEvent>)
    requires HAllowedRun(cfg, env, es)
    ensures MapsAgree(HRun(cfg, es))
    decreases |es|
  {
    if es != [] {
      MapsAgreeHolds(cfg, env, es[..|es| - 1]);
      InvHolds(cfg, env, es[..|es| - 1]);
      MapsAgreeStep(cfg, HRun(cfg, es[..|es| - 1]), es[|es| - 1]);
    }
  }

  /** The claim ids of the form's records. */
  function ClaimIds(claims: map<Key, ClaimRecord>): map<Key, Hex> { map k | k in claims :: claims[k].claimTxId }

  /** At every quiescent point, when no call stands between the form's record and the engine's, the two
      claim maps are equal. */
  lemma ClaimMapsAgree(cfg: Config, env: Env, es: seq<HEvent>)
    requires HAllowedRun(cfg, env, es)
    requires forall id :: id in HRun(cfg, es).phases ==> !HRun(cfg, es).phases[id].AwaitEngine?
    ensures HRun(cfg, es).sys.claimTxIds == ClaimIds(HRun(cfg, es).claims)
  {
    MapsAgreeHolds(cfg, env, es);
  }

  // ---- recorded locks and the CONSUMED rows, without sweeps -----------------------------------------------

  ghost predicate NoHSweep(es: seq<HEvent>) { forall i :: 0 <= i < |es| ==> !(es[i].Base? && es[i].e.SweepAt?) }

  predicate HonoredWith(s: Sys, k: Key, o: Outpoint) {
    && k in s.db.seen && s.db.seen[k].honoredAt.Some? && s.db.seen[k].honoredOutpoint == Some(o)
    && o in s.db.consumed && s.db.consumed[o].state == HonoredState
  }

  /** Honored outpoints were honored by their owner. */
  ghost predicate TakenByOwner(env: Env, s: Sys) {
    forall o :: o in s.db.consumed && s.db.consumed[o].state == HonoredState ==> HonoredWith(s, env.owner(o), o)
  }

  predicate HoldsRow(s: Sys, id: nat) {
    id in s.calls && (s.calls[id].pc.Loaded? || s.calls[id].pc.Scored? || s.calls[id].pc.Ready?)
  }

  /** A call past its read still faces an unhonored row. */
  ghost predicate Unhonored(s: Sys) { forall id :: HoldsRow(s, id) ==> UnhonoredCall(s, id) }

  predicate UnhonoredCall(s: Sys, id: nat)
    requires id in s.calls
  {
    s.calls[id].key in s.db.seen && s.db.seen[s.calls[id].key].honoredAt.None?
  }

  /** A lock is reserved, or was honored for its own key. */
  predicate LockHeld(s: Sys, k: Key, o: Outpoint) { Pending(s, o) || HonoredWith(s, k, o) }

  ghost predicate LocksHeld(env: Env, h: HSys) {
    && (forall k :: k in h.claims ==> env.owner(h.claims[k].lock) == k && LockHeld(h.sys, k, h.claims[k].lock))
    && (forall id, k, o :: Recording(h, id, k, o) ==> Pending(h.sys, o))
  }

  ghost predicate RowsInv(env: Env, h: HSys) { TakenByOwner(env, h.sys) && Unhonored(h.sys) && LocksHeld(env, h) }

  lemma HonoredStands(s: Sys, e: Event)
    requires !e.SweepAt?
    ensures forall k, o :: HonoredWith(s, k, o) ==> HonoredWith(Step(s, e), k, o)
  {
  }

  lemma TakenByOwnerStep(env: Env, s: Sys, e: Event)
    requires OwnersFit(env, s) && TakenByOwner(env, s) && !e.SweepAt?
    ensures TakenByOwner(env, Step(s, e))
  {
    HonoredStands(s, e);
    if e.RunGate? && AtGate(s, e.id) { assert CandFits(env, s.calls[e.id]); }
  }

  /** An unswept reservation only ends by being promoted, by the call at the gate that owns it. */
  lemma PendingEnds(env: Env, s: Sys, e: Event, o: Outpoint)
    requires OwnersFit(env, s) && !e.SweepAt? && Pending(s, o) && !Pending(Step(s, e), o)
    ensures e.RunGate? && AtGate(s, e.id) && env.owner(o) == s.calls[e.id].key
    ensures HonoredWith(Step(s, e), env.owner(o), o)
  {
    if e.RunGate? && AtGate(s, e.id) { assert CandFits(env, s.calls[e.id]); }
  }

  lemma UnhonoredStep(s: Sys, e: Event)
    requires Serial(s) && Unhonored(s) && !e.SweepAt? && !e.Restart?
    ensures Unhonored(Step(s, e))
  {
    forall id | HoldsRow(Step(s, e), id) ensures UnhonoredCall(Step(s, e), id) { UnhonoredCallStep(s, e, id); }
  }

  lemma UnhonoredCallStep(s: Sys, e: Event, id: nat)
    requires Serial(s) && Unhonored(s) && !e.SweepAt? && !e.Restart? && HoldsRow(Step(s, e), id)
    ensures UnhonoredCall(Step(s, e), id)
  {
    assert HoldsRow(s, id) || (e.Load? && e.id == id);
    assert HoldsRow(s, id) ==> UnhonoredCall(s, id);
    assert Live(s, id);
    if e.RunGate? && AtGate(s, e.id) { assert Live(s, e.id); }
  }

  lemma BaseRows(cfg: Config, env: Env, h: HSys, e: Event)
    requires Inv(cfg, env, h) && RowsInv(env, h) && Passes(h, e) && !e.SweepAt?
    ensures RowsInv(env, BaseStep(h, e))
  {
    var h' := BaseStep(h, e);
    TakenByOwnerStep(env, h.sys, e);
    UnhonoredStep(h.sys, e);
    HonoredStands(h.sys, e);
    if e.RunGate? && AtGate(h.sys, e.id) { NotRecording(h, e.id); }
    forall k | k in h'.claims ensures LockHeld(h'.sys, k, h'.claims[k].lock) {
      var o := h.claims[k].lock;
      assert LockHeld(h.sys, k, o);
      if Pending(h.sys, o) && !Pending(h'.sys, o) { PendingEnds(env, h.sys, e, o); }
    }
    forall id, k, o | Recording(h', id, k, o) ensures Pending(h'.sys, o) {
      assert PhaseFits(cfg, h, id);
      PreparingStands(h.sys, e, id);
      assert Recording(h, id, k, o) && CandFits(env, h.sys.calls[id]);
      if !Pending(h'.sys, o) { PendingEnds(env, h.sys, e, o); }
    }
  }

  /** Phase A reserves a fresh row: its lock was neither reserved nor honored before. */
  lemma ReservationIsFresh(cfg: Config, env: Env, h: HSys, id: nat)
    requires Inv(cfg, env, h) && RowsInv(env, h) && InPhase(h, id) && h.phases[id].AwaitReserve?
    ensures h.sys.calls[id].pc.cand.outpoint !in h.sys.db.consumed
  {
    var c := h.sys.calls[id];
    var o := c.pc.cand.outpoint;
    assert CandFits(env, c) && PhaseFits(cfg, h, id) && HoldsRow(h.sys, id);
    NotRecording(h, id);
    assert !LockOf(h, c.key, o);
  }

  lemma ReservedRows(cfg: Config, env: Env, h: HSys, id: nat)
    requires Inv(cfg, env, h) && RowsInv(env, h) && InPhase(h, id) && h.phases[id].AwaitReserve?
    ensures RowsInv(env, ReserveStep(h, id))
  {
    ReservationIsFresh(cfg, env, h, id);
    var h' := ReserveStep(h, id);
    var o := h.sys.calls[id].pc.cand.outpoint;
    assert h'.sys.calls == h.sys.calls && h'.sys.db.seen == h.sys.db.seen && Pending(h'.sys, o);
    forall x | Pending(h.sys, x) ensures Pending(h'.sys, x) {
    }
    forall k, x | HonoredWith(h.sys, k, x) ensures HonoredWith(h'.sys, k, x) {
    }
    forall i | HoldsRow(h'.sys, i) ensures UnhonoredCall(h'.sys, i) {
      assert HoldsRow(h.sys, i) && UnhonoredCall(h.sys, i);
    }
    forall i, k, x | Recording(h', i, k, x) ensures Pending(h'.sys, x) { assert i == id || Recording(h, i, k, x); }
  }

  /** Other steps leave the tables alone. */
  lemma SameTables(env: Env, h: HSys, h': HSys)
    requires RowsInv(env, h) && h'.sys.db == h.sys.db
    requires forall id :: HoldsRow(h'.sys, id) ==> HoldsRow(h.sys, id) && h'.sys.calls[id].key == h.sys.calls[id].key
    requires forall k :: k in h'.claims ==>
                           || (k in h.claims && h'.claims[k] == h.claims[k])
                           || (env.owner(h'.claims[k].lock) == k && Pending(h.sys, h'.claims[k].lock))
    requires forall id, k, o :: Recording(h', id, k, o) ==> Recording(h, id, k, o)
    ensures RowsInv(env, h')
  {
  }

  /** The shape of every step of `prepare` but the reservation. */
  lemma PhaseShape(cfg: Config, h: HSys, e: HEvent, id: nat)
    requires InPhase(h, id) && !(e.Reserved? && h.phases[id].AwaitReserve?)
    ensures var h', c := PhaseStep(cfg, h, e, id), h.sys.calls[id];
            && h'.sys.db == h.sys.db
            && (h'.claims == h.claims
                || (h.phases[id].AwaitRecord?
                    && h'.claims == h.claims[c.key := ClaimRecord(h.phases[id].claimTxId, c.pc.cand.outpoint)]))
  {
  }

  lemma PhaseHolds(cfg: Config, h: HSys, e: HEvent, id: nat, i: nat)
    requires InPhase(h, id) && !(e.Reserved? && h.phases[id].AwaitReserve?)
    ensures var h' := PhaseStep(cfg, h, e, id);
            && (HoldsRow(h'.sys, i) ==> HoldsRow(h.sys, i) && h'.sys.calls[i].key == h.sys.calls[i].key)
            && (forall k, o :: Recording(h', i, k, o) ==> Recording(h, i, k, o))
  {
  }

  lemma PhaseRows(cfg: Config, env: Env, h: HSys, e: HEvent, id: nat)
    requires Inv(cfg, env, h) && RowsInv(env, h) && InPhase(h, id)
    ensures RowsInv(env, PhaseStep(cfg, h, e, id))
  {
    if e.Reserved? && h.phases[id].AwaitReserve? { ReservedRows(cfg, env, h, id); }
    else { OtherPhaseRows(cfg, env, h, PhaseStep(cfg, h, e, id), e, id); }
  }

  lemma OtherPhaseRows(cfg: Config, env: Env, h: HSys, h': HSys, e: HEvent, id: nat)
    requires Inv(cfg, env, h) && RowsInv(env, h) && InPhase(h, id)
    requires !(e.Reserved? && h.phases[id].AwaitReserve?) && h' == PhaseStep(cfg, h, e, id)
    ensures RowsInv(env, h')
  {
    var c := h.sys.calls[id];
    assert CandFits(env, c);
    if h.phases[id].AwaitRecord? { assert Recording(h, id, c.key, c.pc.cand.outpoint); }
    PhaseShape(cfg, h, e, id);
    forall i: nat
      ensures HoldsRow(h'.sys, i) ==> HoldsRow(h.sys, i) && h'.sys.calls[i].key == h.sys.calls[i].key
      ensures forall k, o :: Recording(h', i, k, o) ==> Recording(h, i, k, o)
    {
      PhaseHolds(cfg, h, e, id, i);
    }
    SameTables(env, h, h');
  }

  lemma EntryRows(cfg: Config, env: Env, h: HSys, id: nat, tip: int)
    requires RowsInv(env, h)
    ensures RowsInv(env, HStep(cfg, h, PrepareEntry(id, tip)))
  {
    SameTables(env, h, HStep(cfg, h, PrepareEntry(id, tip)));
  }

  lemma RowsInvStep(cfg: Config, env: Env, h: HSys, e: HEvent)
    requires Inv(cfg, env, h) && RowsInv(env, h) && !(e.Base? && e.e.SweepAt?)
    ensures RowsInv(env, HStep(cfg, h, e))
  {
    if e.Base? {
      if Passes(h, e.e) { BaseRows(cfg, env, h, e.e); }
    } else if e.PrepareEntry? {
      EntryRows(cfg, env, h, e.id, e.tip);
    } else if InPhase(h, e.id) {
      HearsKeeps(cfg, env, h, e);
      SameTables(env, h, Hears(h, e));
      PhaseRows(cfg, env, Hears(h, e), e, e.id);
    }
  }

  lemma {:induction false} RowsInvHolds(cfg: Config, env: Env, es: seq<HEvent>)
    requires HAllowedRun(cfg, env, es) && NoHSweep(es)
    ensures RowsInv(env, HRun(cfg, es))
    decreases |es|
  {
    if es != [] {
      RowsInvHolds(cfg, env, es[..|es| - 1]);
      InvHolds(cfg, env, es[..|es| - 1]);
      RowsInvStep(cfg, env, HRun(cfg, es[..|es| - 1]), es[|es| - 1]);
    }
  }

  /** While nothing is swept, each lock the form has recorded is claim_pending, or is the honored
      outpoint of that same key. */
  lemma RecordedLocksAreHeld(cfg: Config, env: Env, es: seq<HEvent>, k: Key)
    requires HAllowedRun(cfg, env, es) && NoHSweep(es) && k in HRun(cfg, es).claims
    ensures var s, lock := HRun(cfg, es).sys, HRun(cfg, es).claims[k].lock;
            lock in s.db.consumed && s.db.consumed[lock].key == k
            && (s.db.consumed[lock].state == ClaimPending
                || (k in s.db.seen && s.db.seen[k].honoredAt.Some? && s.db.seen[k].honoredOutpoint == Some(lock)))
  {
    RowsInvHolds(cfg, env, es);
    InvHolds(cfg, env, es);
    assert LockHeld(HRun(cfg, es).sys, k, HRun(cfg, es).claims[k].lock);
  }

  // ---- the status surface ---------------------------------------------------------------------------------

  function Rank(st: Option<Status>): nat {
    match st
    case None => 0
    case Some(Accepted) => 1
    case Some(ClaimOut(_)) => 2
    case Some(HonoredAt(_, _)) => 3
  }

  lemma StatusAdvances(s: Sys, e: Event, k: Key)
    requires !e.SweepAt? && !e.Restart?
    ensures Rank(StatusOf(s, k)) <= Rank(StatusOf(Step(s, e), k))
    ensures Rank(StatusOf(s, k)) == 3 ==> StatusOf(Step(s, e), k) == StatusOf(s, k)
  {
  }

  /** What `status` shows, by the row and the claim map. */
  lemma StatusByRule(s: Sys, k: Key)
    ensures StatusOf(s, k) == None <==> k !in s.db.seen
    ensures k in s.db.seen ==>
              var row, st := s.db.seen[k], StatusOf(s, k);
              && (forall at, o :: st == Some(HonoredAt(at, o))
                                  <==> row.honoredAt == Some(at) && row.honoredOutpoint == o)
              && (forall tx :: st == Some(ClaimOut(tx))
                               <==> row.honoredAt == None && k in s.claimTxIds && s.claimTxIds[k] == tx)
              && (st == Some(Accepted) <==> row.honoredAt == None && k !in s.claimTxIds)
  {
  }

  /** The row tells this delivery. */
  predicate Tells(s: Sys, d: Delivery) {
    && d.key in s.db.seen && s.db.seen[d.key].honoredAt == Some(d.at)
    && s.db.seen[d.key].honoredOutpoint == Some(d.outpoint)
  }

  /** What a standing row says of its honor never changes. */
  lemma HonorIsKept(s: Sys, e: Event, k: Key)
    requires k in s.db.seen && s.db.seen[k].honoredAt.Some? && k in Step(s, e).db.seen
    ensures Step(s, e).db.seen[k].honoredAt == s.db.seen[k].honoredAt
    ensures Step(s, e).db.seen[k].honoredOutpoint == s.db.seen[k].honoredOutpoint
  {
  }

  lemma {:induction false} HonoredRowsTell(es: seq<Event>, k: Key)
    requires k in Run(es).db.seen && Run(es).db.seen[k].honoredAt.Some?
    ensures exists i :: 0 <= i < |Run(es).log| && Run(es).log[i].key == k && Tells(Run(es), Run(es).log[i])
    decreases |es|
  {
    if es != [] {
      var s, e := Run(es[..|es| - 1]), es[|es| - 1];
      HonoredIffDelivered(s, e);
      if k in s.db.seen && s.db.seen[k].honoredAt.Some? {
        HonoredRowsTell(es[..|es| - 1], k);
        var i :| 0 <= i < |s.log| && s.log[i].key == k && Tells(s, s.log[i]);
        HonorIsKept(s, e, k);
        assert Run(es).log[i] == s.log[i];
      } else {
        assert Tells(Run(es), Run(es).log[|s.log|]);
      }
    }
  }

  lemma TellsStep(s: Sys, e: Event, d: Delivery)
    requires Tells(s, d) && !e.SweepAt?
    ensures Tells(Step(s, e), d)
  {
  }

  lemma {:induction false} DeliveriesAreTold(es: seq<Event>, i: nat)
    requires NoSweep(es) && i < |Run(es).log|
    ensures Tells(Run(es), Run(es).log[i])
    decreases |es|
  {
    var s, e := Run(es[..|es| - 1]), es[|es| - 1];
    HonoredIffDelivered(s, e);
    if i < |s.log| {
      DeliveriesAreTold(es[..|es| - 1], i);
      assert Run(es).log[i] == s.log[i];
      TellsStep(s, e, s.log[i]);
    }
  }

  /** While nothing is swept, `status` reports honored at a time and from an outpoint exactly when the key was
      delivered at that time from that outpoint. */
  lemma StatusTellsDelivery(es: seq<Event>, k: Key, at: int, o: Outpoint)
    requires NoSweep(es)
    ensures StatusOf(Run(es), k) == Some(HonoredAt(at, Some(o)))
            <==> exists i :: 0 <= i < |Run(es).log| && Run(es).log[i].key == k && Run(es).log[i].at == at
                             && Run(es).log[i].outpoint == o
  {
    var s := Run(es);
    StatusByRule(s, k);
    if StatusOf(s, k) == Some(HonoredAt(at, Some(o))) { HonoredRowsTell(es, k); }
    if i :| 0 <= i < |s.log| && s.log[i].key == k && s.log[i].at == at && s.log[i].outpoint == o {
      DeliveriesAreTold(es, i);
    }
  }

  /** `status` only moves from unknown to accepted, claim_submitted and honored, and an honored status
      never changes: between any two points of an unswept run of one process. */
  lemma {:induction false} StatusOnlyAdvances(es: seq<Event>, i: nat, j: nat, k: Key)
    requires i <= j <= |es| && forall x :: 0 <= x < |es| ==> !es[x].SweepAt? && !es[x].Restart?
    ensures Rank(StatusOf(Run(es[..i]), k)) <= Rank(StatusOf(Run(es[..j]), k))
    ensures Rank(StatusOf(Run(es[..i]), k)) == 3 ==> StatusOf(Run(es[..j]), k) == StatusOf(Run(es[..i]), k)
    decreases j
  {
    if i < j {
      StatusOnlyAdvances(es, i, j - 1, k);
      assert es[..j][..|es[..j]| - 1] == es[..j - 1];
      StatusAdvances(Run(es[..j - 1]), es[j - 1], k);
    }
  }
}
