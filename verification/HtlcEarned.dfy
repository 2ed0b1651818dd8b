/** HTLC deliveries are earned by a phase A and a phase B of the same key. */
module HtlcEarned {
  import opened HonorSpec
  import opened Engine
  import opened Hypotheses
  import opened ExactlyOnce
  import opened Chains
  import opened Htlc

  predicate Live(s: Sys, id: nat) { id in s.calls && !s.calls[id].pc.Ended? }

  /** Ticks of one quote do not overlap: at most one live call per key. */
  ghost predicate Serial(s: Sys) {
    forall i, j :: Live(s, i) && Live(s, j) && s.calls[i].key == s.calls[j].key ==> i == j
  }

  /** What is asked of each event: a call is only entered when its key has none in flight, and
      candidates belong to the key they are scored for (H3). */
  ghost predicate HAllowed(env: Env, h: HSys, e: HEvent) {
    e.Base? ==>
      && OneOwner(env, h.sys, e.e)
      && (e.e.Enter? ==> forall j :: Live(h.sys, j) ==> h.sys.calls[j].key != e.e.key)
  }

  ghost predicate HAllowedRun(cfg: Config, env: Env, es: seq<HEvent>)
    decreases |es|
  {
    es == [] || (HAllowedRun(cfg, env, es[..|es| - 1]) && HAllowed(env, HRun(cfg, es[..|es| - 1]), es[|es| - 1]))
  }

  /** Marks `i` and `j`, in this order and before `n`: a phase A of `k` for `lock` in time to claim and with
      the preimage in hand, and a phase B that found that same claim buried. */
  predicate Pair(cfg: Config, marks: seq<Mark>, k: Key, lock: Outpoint, n: nat, i: nat, j: nat) {
    && i < j < n <= |marks| && marks[i].PhaseAMark? && marks[j].PhaseBMark?
    && marks[i].key == k == marks[j].key && marks[i].lock == lock && marks[i].claimTxId == marks[j].claimTxId
    && TimeToClaim(cfg, marks[i].tip, marks[i].timeout) && PreimageMark(k) in marks[..i]
    && Buried(cfg, marks[j].tip, marks[j].height)
  }

  ghost predicate Earned(cfg: Config, marks: seq<Mark>, k: Key, lock: Outpoint, n: nat) {
    exists i: nat, j: nat :: Pair(cfg, marks, k, lock, n, i, j)
  }

  /** Mark `i` records the claim: its phase A. */
  predicate Records(cfg: Config, marks: seq<Mark>, k: Key, c: ClaimRecord, i: nat) {
    && i < |marks| && marks[i].PhaseAMark?
    && marks[i].key == k && marks[i].lock == c.lock && marks[i].claimTxId == c.claimTxId
    && TimeToClaim(cfg, marks[i].tip, marks[i].timeout) && PreimageMark(k) in marks[..i]
  }

  ghost predicate OnRecord(cfg: Config, marks: seq<Mark>, k: Key, c: ClaimRecord) {
    exists i: nat :: Records(cfg, marks, k, c, i)
  }

  // ---- the invariant --------------------------------------------------------------------------------------

  predicate PhaseFits(cfg: Config, h: HSys, id: nat) {
    id in h.phases ==>
      && Preparing(h.sys, id)
      && var k := h.sys.calls[id].key;
      match h.phases[id]
      case AwaitHtlc(_) => k !in h.claims
      case AwaitPreimage(tip, timeout) => k !in h.claims && TimeToClaim(cfg, tip, timeout)
      case AwaitSubmit(tip, timeout) => k !in h.claims && TimeToClaim(cfg, tip, timeout) && PreimageMark(k) in h.marks
      case AwaitReserve(tip, timeout, _) =>
        k !in h.claims && TimeToClaim(cfg, tip, timeout) && PreimageMark(k) in h.marks
      case AwaitRecord(tip, timeout, _) =>
        k !in h.claims && TimeToClaim(cfg, tip, timeout) && PreimageMark(k) in h.marks
      case AwaitEngine(tx) => k in h.claims && h.claims[k].claimTxId == tx
      case AwaitClaim(_, prior) => k in h.claims && h.claims[k] == prior
  }

  ghost predicate PhasesFit(cfg: Config, h: HSys) { forall id :: id in h.phases ==> PhaseFits(cfg, h, id) }

  /** The call has reserved its lock and is about to record it. */
  predicate Recording(h: HSys, id: nat, k: Key, o: Outpoint) {
    && id in h.phases && h.phases[id].AwaitRecord? && Preparing(h.sys, id)
    && h.sys.calls[id].key == k && h.sys.calls[id].pc.cand.outpoint == o
  }

  predicate Pending(s: Sys, o: Outpoint) { o in s.db.consumed && s.db.consumed[o].state == ClaimPending }

  /** A reserved outpoint is the recorded lock of its owner, or about to be. */
  predicate LockOf(h: HSys, k: Key, o: Outpoint) { k in h.claims && h.claims[k].lock == o }

  ghost predicate PendingFits(env: Env, h: HSys) {
    forall o :: Pending(h.sys, o) ==>
      LockOf(h, env.owner(o), o) || exists id :: Recording(h, id, env.owner(o), o)
  }

  ghost predicate ClaimsRecorded(cfg: Config, h: HSys) {
    forall k :: k in h.claims ==> OnRecord(cfg, h.marks, k, h.claims[k])
  }

  predicate ReadyHtlc(s: Sys, id: nat) { AtGate(s, id) && s.calls[id].pc.row.form == Form.Htlc }

  ghost predicate ReadyEarned(cfg: Config, h: HSys) {
    forall id :: ReadyHtlc(h.sys, id) ==>
      h.sys.calls[id].key in h.claims
      && Earned(cfg, h.marks, h.sys.calls[id].key, h.claims[h.sys.calls[id].key].lock, |h.marks|)
  }

  ghost predicate DeliveredEarned(cfg: Config, marks: seq<Mark>) {
    forall n :: 0 <= n < |marks| && marks[n].DeliveredMark? ==> Earned(cfg, marks, marks[n].key, marks[n].outpoint, n)
  }

  ghost predicate MarksFit(cfg: Config, h: HSys) {
    ClaimsRecorded(cfg, h) && ReadyEarned(cfg, h) && DeliveredEarned(cfg, h.marks)
  }

  ghost predicate Inv(cfg: Config, env: Env, h: HSys) {
    OwnersFit(env, h.sys) && Serial(h.sys) && PhasesFit(cfg, h) && PendingFits(env, h) && MarksFit(cfg, h)
  }

  // ---- marks only grow ------------------------------------------------------------------------------------

  lemma EarnedGrows(cfg: Config, marks: seq<Mark>, m: Mark, k: Key, lock: Outpoint, n: nat, later: nat)
    requires n <= later <= |marks| + 1 && Earned(cfg, marks, k, lock, n)
    ensures Earned(cfg, marks + [m], k, lock, later)
  {
    var i: nat, j: nat :| Pair(cfg, marks, k, lock, n, i, j);
    assert (marks + [m])[..i] == marks[..i];
    assert Pair(cfg, marks + [m], k, lock, later, i, j);
  }

  lemma RecordGrows(cfg: Config, marks: seq<Mark>, m: Mark, k: Key, c: ClaimRecord)
    requires OnRecord(cfg, marks, k, c)
    ensures OnRecord(cfg, marks + [m], k, c)
  {
    var i: nat :| Records(cfg, marks, k, c, i);
    assert (marks + [m])[..i] == marks[..i];
    assert Records(cfg, marks + [m], k, c, i);
  }

  /** What the history proved it still proves with one more mark. */
  lemma MarksGrow(cfg: Config, h: HSys, m: Mark)
    requires MarksFit(cfg, h)
    ensures var marks := h.marks + [m];
            && (forall k :: k in h.claims ==> OnRecord(cfg, marks, k, h.claims[k]))
            && (forall id :: ReadyHtlc(h.sys, id) ==>
                  && h.sys.calls[id].key in h.claims
                  && Earned(cfg, marks, h.sys.calls[id].key, h.claims[h.sys.calls[id].key].lock, |marks|))
            && (forall n :: 0 <= n < |h.marks| && marks[n].DeliveredMark? ==>
                  Earned(cfg, marks, marks[n].key, marks[n].outpoint, n))
  {
    var marks := h.marks + [m];
    forall k | k in h.claims ensures OnRecord(cfg, marks, k, h.claims[k]) {
      RecordGrows(cfg, h.marks, m, k, h.claims[k]);
    }
    forall id | ReadyHtlc(h.sys, id)
      ensures Earned(cfg, marks, h.sys.calls[id].key, h.claims[h.sys.calls[id].key].lock, |marks|)
    {
      var k := h.sys.calls[id].key;
      EarnedGrows(cfg, h.marks, m, k, h.claims[k].lock, |h.marks|, |marks|);
    }
    forall n | 0 <= n < |h.marks| && marks[n].DeliveredMark?
      ensures Earned(cfg, marks, marks[n].key, marks[n].outpoint, n)
    {
      EarnedGrows(cfg, h.marks, m, h.marks[n].key, h.marks[n].outpoint, n, n);
    }
  }

  // ---- what one engine event does to calls and reservations -----------------------------------------------

  function Named(e: Event): Option<nat> {
    match e
    case Enter(id, _, _) => Some(id)
    case Load(id) => Some(id)
    case Score(id, _) => Some(id)
    case Prepare(id, _) => Some(id)
    case RunGate(id, _, _) => Some(id)
    case Fail(id, _) => Some(id)
    case _ => None
  }

  lemma CallsMove(s: Sys, e: Event)
    requires !e.Restart?
    ensures var s' := Step(s, e);
            && (forall id :: id in s.calls ==> id in s'.calls && s'.calls[id].key == s.calls[id].key)
            && (forall id :: id in s.calls && Named(e) != Some(id) ==> s'.calls[id] == s.calls[id])
            && (forall id :: id in s.calls && s.calls[id].pc.Ended? ==> s'.calls[id].pc.Ended?)
            && (forall id :: id in s'.calls && id !in s.calls ==>
                  e.Enter? && e.id == id && s'.calls[id] == Call(e.key, e.now, Entered))
  {
  }

  lemma SerialStep(s: Sys, e: Event)
    requires Serial(s) && !e.Restart?
    requires e.Enter? ==> forall j :: Live(s, j) ==> s.calls[j].key != e.key
    ensures Serial(Step(s, e))
  {
    CallsMove(s, e);
  }

  /** Only a reservation adds a pending row, and only a promote or a sweep removes one. */
  lemma PendingMoves(s: Sys, e: Event)
    ensures forall o :: Pending(Step(s, e), o) && !(e.ReserveClaim? && e.outpoint == o) ==> Pending(s, o)
  {
  }

  /** A call inside `prepare` is only moved by its own prepare result or a fault. */
  lemma PreparingStands(s: Sys, e: Event, id: nat)
    requires Preparing(s, id) && !e.Restart? && !(e.Prepare? && e.id == id) && !(e.Fail? && e.id == id)
    ensures id in Step(s, e).calls && Step(s, e).calls[id] == s.calls[id]
  {
    CallsMove(s, e);
  }

  /** Outside `prepare` no HTLC call becomes ready. */
  lemma NoNewReady(s: Sys, e: Event)
    requires !e.Restart? && !(e.Prepare? && Preparing(s, e.id))
    ensures forall id :: ReadyHtlc(Step(s, e), id) ==> ReadyHtlc(s, id) && Step(s, e).calls[id] == s.calls[id]
  {
  }

  // ---- engine and store events keep the invariant ---------------------------------------------------------

  /** The base events that do something. */
  predicate Passes(h: HSys, e: Event) {
    && !e.Restart? && !e.ReserveClaim? && !(e.Prepare? && (Preparing(h.sys, e.id) || e.result != PrepReady))
    && !(e.Fail? && e.id in h.phases && (h.phases[e.id].AwaitRecord? || h.phases[e.id].AwaitEngine?))
  }

  /** Reservations stay explained when locks and recording calls are kept. */
  lemma PendingCarry(env: Env, h: HSys, h': HSys)
    requires PendingFits(env, h)
    requires forall o :: Pending(h'.sys, o) ==> Pending(h.sys, o) || exists id :: Recording(h', id, env.owner(o), o)
    requires forall k, o :: LockOf(h, k, o) ==> LockOf(h', k, o)
    requires forall id, k, o :: Recording(h, id, k, o) ==> Recording(h', id, k, o) || LockOf(h', k, o)
    ensures PendingFits(env, h')
  {
    forall o | Pending(h'.sys, o)
      ensures LockOf(h', env.owner(o), o) || exists id :: Recording(h', id, env.owner(o), o)
    {
      if Pending(h.sys, o) && !LockOf(h, env.owner(o), o) {
        var id :| Recording(h, id, env.owner(o), o);
        assert Recording(h', id, env.owner(o), o) || LockOf(h', env.owner(o), o);
      }
    }
  }

  lemma BasePhases(cfg: Config, env: Env, h: HSys, e: Event)
    requires PhasesFit(cfg, h) && PendingFits(env, h) && Passes(h, e)
    ensures PhasesFit(cfg, BaseStep(h, e)) && PendingFits(env, BaseStep(h, e))
  {
    var h' := BaseStep(h, e);
    forall id | id in h'.phases ensures PhaseFits(cfg, h', id) && h'.sys.calls[id] == h.sys.calls[id] {
      assert PhaseFits(cfg, h, id);
      PreparingStands(h.sys, e, id);
    }
    PendingMoves(h.sys, e);
    PendingCarry(env, h, h');
  }

  /** While a call of the key is live and not between its reservation and its record, no call is. */
  lemma NotRecording(h: HSys, id: nat)
    requires Serial(h.sys) && Live(h.sys, id)
    requires !(Preparing(h.sys, id) && id in h.phases && h.phases[id].AwaitRecord?)
    ensures forall j, o :: !Recording(h, j, h.sys.calls[id].key, o)
  {
    assert forall j :: Preparing(h.sys, j) ==> Live(h.sys, j);
  }

  /** A promoting delivery consumes the lock its own phase A recorded, although nothing compares them. */
  lemma PromotesItsLock(cfg: Config, env: Env, h: HSys, e: Event)
    requires Inv(cfg, env, h) && Passes(h, e) && BaseStep(h, e).marks != h.marks
    ensures AtGate(h.sys, e.id) && ReadyHtlc(h.sys, e.id)
    ensures var c := h.sys.calls[e.id];
            BaseStep(h, e).marks == h.marks + [DeliveredMark(c.key, c.pc.cand.outpoint)]
            && c.key in h.claims && h.claims[c.key].lock == c.pc.cand.outpoint
  {
    HonoredIffDelivered(h.sys, e);
    var c := h.sys.calls[e.id];
    var o := c.pc.cand.outpoint;
    assert CandFits(env, c) && Pending(h.sys, o);
    NotRecording(h, e.id);
  }

  lemma BaseMarks(cfg: Config, env: Env, h: HSys, e: Event)
    requires Inv(cfg, env, h) && Passes(h, e)
    ensures MarksFit(cfg, BaseStep(h, e))
  {
    var h' := BaseStep(h, e);
    NoNewReady(h.sys, e);
    if h'.marks != h.marks {
      PromotesItsLock(cfg, env, h, e);
      var c := h.sys.calls[e.id];
      DeliveryFits(cfg, h, h', DeliveredMark(c.key, c.pc.cand.outpoint), e.id);
    } else {
      SameMarksFit(cfg, h, h');
    }
  }

  /** No mark, no new ready call. */
  lemma SameMarksFit(cfg: Config, h: HSys, h': HSys)
    requires MarksFit(cfg, h) && h'.claims == h.claims && h'.marks == h.marks
    requires forall id :: ReadyHtlc(h'.sys, id) ==> ReadyHtlc(h.sys, id) && h'.sys.calls[id] == h.sys.calls[id]
    ensures MarksFit(cfg, h')
  {
  }

  lemma DeliveryFits(cfg: Config, h: HSys, h': HSys, m: Mark, id: nat)
    requires MarksFit(cfg, h) && h'.claims == h.claims && h'.marks == h.marks + [m]
    requires forall x :: ReadyHtlc(h'.sys, x) ==> ReadyHtlc(h.sys, x) && h'.sys.calls[x] == h.sys.calls[x]
    requires m.DeliveredMark? && ReadyHtlc(h.sys, id) && h.sys.calls[id].key == m.key
    requires h.claims[m.key].lock == m.outpoint
    ensures MarksFit(cfg, h')
  {
    MarksGrow(cfg, h, m);
    EarnedGrows(cfg, h.marks, m, m.key, m.outpoint, |h.marks|, |h.marks|);
  }

  lemma BaseKeeps(cfg: Config, env: Env, h: HSys, e: Event)
    requires Inv(cfg, env, h) && HAllowed(env, h, Base(e))
    ensures Inv(cfg, env, BaseStep(h, e))
  {
    if Passes(h, e) {
      OwnersFitStep(env, h.sys, e);
      SerialStep(h.sys, e);
      BasePhases(cfg, env, h, e);
      BaseMarks(cfg, env, h, e);
    }
  }

  // ---- the steps of `prepare` keep the invariant ----------------------------------------------------------

  /** Entering `prepare`, or going from one await of phase A to the next. */
  lemma AdvanceKeeps(cfg: Config, env: Env, h: HSys, id: nat, p: Phase)
    requires Inv(cfg, env, h) && Preparing(h.sys, id)
    requires id in h.phases ==> !h.phases[id].AwaitRecord?
    requires PhaseFits(cfg, h.(phases := h.phases[id := p]), id)
    ensures Inv(cfg, env, h.(phases := h.phases[id := p]))
  {
    var h' := h.(phases := h.phases[id := p]);
    forall i | i in h'.phases ensures PhaseFits(cfg, h', i) { assert i == id || PhaseFits(cfg, h, i); }
    PendingCarry(env, h, h');
    SameCalls(cfg, h, h');
  }

  /** The call leaves `prepare`: what this does to the other calls and to the reservations. */
  lemma ResolvePhases(cfg: Config, env: Env, h: HSys, id: nat, r: PrepareResult)
    requires OwnersFit(env, h.sys) && Serial(h.sys) && PhasesFit(cfg, h) && PendingFits(env, h)
    requires InPhase(h, id) && !h.phases[id].AwaitRecord?
    ensures var h' := Resolve(h, id, r);
            OwnersFit(env, h'.sys) && Serial(h'.sys) && PhasesFit(cfg, h') && PendingFits(env, h')
  {
    OwnersFitStep(env, h.sys, Prepare(id, r));
    SerialStep(h.sys, Prepare(id, r));
    ResolvedPhases(cfg, env, h, id, r);
  }

  lemma ResolvedPhases(cfg: Config, env: Env, h: HSys, id: nat, r: PrepareResult)
    requires PhasesFit(cfg, h) && PendingFits(env, h) && InPhase(h, id) && !h.phases[id].AwaitRecord?
    ensures PhasesFit(cfg, Resolve(h, id, r)) && PendingFits(env, Resolve(h, id, r))
  {
    var e := Prepare(id, r);
    var h' := Resolve(h, id, r);
    forall i | i in h'.phases ensures PhaseFits(cfg, h', i) && h'.sys.calls[i] == h.sys.calls[i] {
      assert PhaseFits(cfg, h, i);
      PreparingStands(h.sys, e, i);
    }
    PendingMoves(h.sys, e);
    PendingCarry(env, h, h');
  }

  lemma ResolveReady(h: HSys, id: nat, r: PrepareResult)
    requires InPhase(h, id)
    ensures var s' := Resolve(h, id, r).sys;
            forall x :: ReadyHtlc(s', x) ==>
              (x == id && r == PrepReady) || (ReadyHtlc(h.sys, x) && s'.calls[x] == h.sys.calls[x])
  {
    CallsMove(h.sys, Prepare(id, r));
  }

  /** Leaving `prepare` with anything but ready. */
  lemma LeaveKeeps(cfg: Config, env: Env, h: HSys, id: nat, r: PrepareResult)
    requires Inv(cfg, env, h) && InPhase(h, id) && r != PrepReady && !h.phases[id].AwaitRecord?
    ensures Inv(cfg, env, Resolve(h, id, r))
  {
    ResolvePhases(cfg, env, h, id, r);
    ResolveReady(h, id, r);
    SameMarksFit(cfg, h, Resolve(h, id, r));
  }

  /** Phase B finds the recorded claim buried. */
  lemma BuriedFits(cfg: Config, h: HSys, h': HSys, m: Mark, id: nat)
    requires MarksFit(cfg, h) && h'.claims == h.claims && h'.marks == h.marks + [m]
    requires forall x :: ReadyHtlc(h'.sys, x) && x != id ==> ReadyHtlc(h.sys, x) && h'.sys.calls[x] == h.sys.calls[x]
    requires m.PhaseBMark? && Buried(cfg, m.tip, m.height)
    requires ReadyHtlc(h'.sys, id) ==> h'.sys.calls[id].key == m.key
    requires m.key in h.claims && h.claims[m.key].claimTxId == m.claimTxId
    ensures MarksFit(cfg, h')
  {
    MarksGrow(cfg, h, m);
    var prior := h.claims[m.key];
    assert OnRecord(cfg, h.marks, m.key, prior);
    var i: nat :| Records(cfg, h.marks, m.key, prior, i);
    assert h'.marks[..i] == h.marks[..i];
    assert Pair(cfg, h'.marks, m.key, prior.lock, |h'.marks|, i, |h.marks|);
    assert Earned(cfg, h'.marks, m.key, prior.lock, |h'.marks|);
    forall x | ReadyHtlc(h'.sys, x)
      ensures h'.sys.calls[x].key in h'.claims
              && Earned(cfg, h'.marks, h'.sys.calls[x].key, h'.claims[h'.sys.calls[x].key].lock, |h'.marks|)
    {
      if x != id { assert ReadyHtlc(h.sys, x); }
    }
  }

  lemma BuriedKeeps(cfg: Config, env: Env, h: HSys, id: nat, tip: int, prior: ClaimRecord, height: int)
    requires Inv(cfg, env, h) && InPhase(h, id) && h.phases[id] == AwaitClaim(tip, prior) && Buried(cfg, tip, height)
    ensures var m := PhaseBMark(h.sys.calls[id].key, prior.claimTxId, tip, height);
            Inv(cfg, env, Resolve(h, id, PrepReady).(marks := h.marks + [m]))
  {
    var m := PhaseBMark(h.sys.calls[id].key, prior.claimTxId, tip, height);
    var h' := Resolve(h, id, PrepReady).(marks := h.marks + [m]);
    assert PhaseFits(cfg, h, id);
    ResolvePhases(cfg, env, h, id, PrepReady);
    ResolveReady(h, id, PrepReady);
    MarksDoNotMatter(cfg, env, Resolve(h, id, PrepReady), h'.marks);
    BuriedFits(cfg, h, h', m, id);
  }

  lemma MarksDoNotMatter(cfg: Config, env: Env, h: HSys, marks: seq<Mark>)
    requires PhasesFit(cfg, h) && PendingFits(env, h) && forall m <- h.marks :: m in marks
    ensures PhasesFit(cfg, h.(marks := marks)) && PendingFits(env, h.(marks := marks))
  {
    var h' := h.(marks := marks);
    forall i | i in h'.phases ensures PhaseFits(cfg, h', i) { assert PhaseFits(cfg, h, i); }
    PendingCarry(env, h, h');
  }

  lemma ReservePhases(cfg: Config, env: Env, h: HSys, id: nat)
    requires InPhase(h, id) && h.phases[id].AwaitReserve?
    requires PhasesFit(cfg, h) && PendingFits(env, h) && CandFits(env, h.sys.calls[id])
    ensures PhasesFit(cfg, ReserveStep(h, id)) && PendingFits(env, ReserveStep(h, id))
  {
    var c := h.sys.calls[id];
    var h' := ReserveStep(h, id);
    assert h'.sys.calls == h.sys.calls && h'.claims == h.claims;
    forall i | i in h'.phases ensures PhaseFits(cfg, h', i) { assert PhaseFits(cfg, h, i) && PhaseFits(cfg, h, id); }
    assert Recording(h', id, c.key, c.pc.cand.outpoint);
    forall o | Pending(h'.sys, o) && !Pending(h.sys, o) ensures o == c.pc.cand.outpoint {
    }
    PendingCarry(env, h, h');
  }

  lemma ReserveKeeps(cfg: Config, env: Env, h: HSys, id: nat)
    requires Inv(cfg, env, h) && InPhase(h, id) && h.phases[id].AwaitReserve?
    ensures Inv(cfg, env, ReserveStep(h, id))
  {
    var c := h.sys.calls[id];
    var h' := ReserveStep(h, id);
    assert CandFits(env, c);
    OwnersFitStep(env, h.sys, ReserveClaim(c.key, c.pc.cand.outpoint, h.phases[id].claimTxId));
    ReservePhases(cfg, env, h, id);
    SameCalls(cfg, h, h');
  }

  /** Calls, claims and history are as they were. */
  lemma SameCalls(cfg: Config, h: HSys, h': HSys)
    requires Serial(h.sys) && MarksFit(cfg, h)
    requires h'.sys.calls == h.sys.calls && h'.claims == h.claims && h'.marks == h.marks
    ensures Serial(h'.sys) && MarksFit(cfg, h')
  {
    forall i, j | Live(h'.sys, i) && Live(h'.sys, j) && h'.sys.calls[i].key == h'.sys.calls[j].key ensures i == j {
      assert Live(h.sys, i) && Live(h.sys, j);
    }
    SameMarksFit(cfg, h, h');
  }

  lemma RecordFits(cfg: Config, h: HSys, h': HSys, m: Mark)
    requires MarksFit(cfg, h) && m.PhaseAMark? && TimeToClaim(cfg, m.tip, m.timeout) && h'.sys == h.sys
    requires PreimageMark(m.key) in h.marks
    requires h'.claims == h.claims[m.key := ClaimRecord(m.claimTxId, m.lock)] && h'.marks == h.marks + [m]
    requires forall x :: ReadyHtlc(h.sys, x) ==> h.sys.calls[x].key != m.key
    ensures MarksFit(cfg, h')
  {
    MarksGrow(cfg, h, m);
    assert h'.marks[..|h.marks|] == h.marks;
    assert Records(cfg, h'.marks, m.key, ClaimRecord(m.claimTxId, m.lock), |h.marks|);
  }

  lemma RecordPhases(cfg: Config, env: Env, h: HSys, id: nat)
    requires Serial(h.sys) && PhasesFit(cfg, h) && PendingFits(env, h)
    requires InPhase(h, id) && h.phases[id].AwaitRecord?
    ensures PhasesFit(cfg, RecordStep(h, id)) && PendingFits(env, RecordStep(h, id))
  {
    var h' := RecordStep(h, id);
    assert PhaseFits(cfg, h, id) && Live(h.sys, id);
    forall i | i in h'.phases ensures PhaseFits(cfg, h', i) {
      assert PhaseFits(cfg, h, i);
      assert Live(h.sys, i);
    }
    PendingCarry(env, h, h');
  }

  lemma RecordKeeps(cfg: Config, env: Env, h: HSys, id: nat)
    requires Inv(cfg, env, h) && InPhase(h, id) && h.phases[id].AwaitRecord?
    ensures Inv(cfg, env, RecordStep(h, id))
  {
    var k, lock, p := h.sys.calls[id].key, h.sys.calls[id].pc.cand.outpoint, h.phases[id];
    assert PhaseFits(cfg, h, id) && Live(h.sys, id);
    RecordPhases(cfg, env, h, id);
    forall x | ReadyHtlc(h.sys, x) ensures h.sys.calls[x].key != k { assert Live(h.sys, x); }
    RecordFits(cfg, h, RecordStep(h, id), PhaseAMark(k, lock, p.claimTxId, p.tip, p.timeout));
  }

  lemma LockCheckedKeeps(cfg: Config, env: Env, h: HSys, id: nat, timeout: Option<int>)
    requires Inv(cfg, env, h) && InPhase(h, id) && h.phases[id].AwaitHtlc?
    ensures Inv(cfg, env, PhaseStep(cfg, h, GotHtlc(id, timeout), id))
  {
    var tip := h.phases[id].tip;
    assert PhaseFits(cfg, h, id);
    if timeout.None? {
      LeaveKeeps(cfg, env, h, id, PrepWait(NoCandidate));
    } else if !TimeToClaim(cfg, tip, timeout.value) {
      LeaveKeeps(cfg, env, h, id, PrepWait(ReorgWithheld));
    } else {
      AdvanceKeeps(cfg, env, h, id, AwaitPreimage(tip, timeout.value));
    }
  }

  lemma BeforeSubmitKeeps(cfg: Config, env: Env, h: HSys, e: HEvent, id: nat)
    requires Inv(cfg, env, h) && InPhase(h, id) && (e.GotHtlc? || e.GotPreimage? || e.Submitted?)
    requires e.GotPreimage? && e.present && h.phases[id].AwaitPreimage? ==> PreimageMark(h.sys.calls[id].key) in h.marks
    ensures Inv(cfg, env, PhaseStep(cfg, h, e, id))
  {
    var p := h.phases[id];
    assert PhaseFits(cfg, h, id);
    if e.GotHtlc? && p.AwaitHtlc? {
      LockCheckedKeeps(cfg, env, h, id, e.timeout);
    } else if e.GotPreimage? && p.AwaitPreimage? {
      if e.present { AdvanceKeeps(cfg, env, h, id, AwaitSubmit(p.tip, p.timeout)); }
      else { LeaveKeeps(cfg, env, h, id, PrepWait(NoCandidate)); }
    } else if e.Submitted? && p.AwaitSubmit? {
      AdvanceKeeps(cfg, env, h, id, AwaitReserve(p.tip, p.timeout, e.claimTxId));
    }
  }

  lemma PhaseKeeps(cfg: Config, env: Env, h: HSys, e: HEvent, id: nat)
    requires Inv(cfg, env, h) && InPhase(h, id)
    requires e.GotPreimage? && e.present && h.phases[id].AwaitPreimage? ==> PreimageMark(h.sys.calls[id].key) in h.marks
    ensures Inv(cfg, env, PhaseStep(cfg, h, e, id))
  {
    if e.GotHtlc? || e.GotPreimage? || e.Submitted? { BeforeSubmitKeeps(cfg, env, h, e, id); }
    else { AfterSubmitKeeps(cfg, env, h, e, id); }
  }

  lemma ClaimKeeps(cfg: Config, env: Env, h: HSys, id: nat, height: Option<int>)
    requires Inv(cfg, env, h) && InPhase(h, id) && h.phases[id].AwaitClaim?
    ensures Inv(cfg, env, ClaimStep(cfg, h, id, height))
  {
    var tip, prior := h.phases[id].tip, h.phases[id].prior;
    if height.Some? && Buried(cfg, tip, height.value) {
      BuriedKeeps(cfg, env, h, id, tip, prior, height.value);
    } else {
      LeaveKeeps(cfg, env, h, id, PrepWait(ReorgWithheld));
    }
  }

  lemma AfterSubmitKeeps(cfg: Config, env: Env, h: HSys, e: HEvent, id: nat)
    requires Inv(cfg, env, h) && InPhase(h, id) && !e.GotHtlc? && !e.GotPreimage? && !e.Submitted?
    ensures Inv(cfg, env, PhaseStep(cfg, h, e, id))
  {
    var p := h.phases[id];
    if e.Reserved? && p.AwaitReserve? { ReserveKeeps(cfg, env, h, id); }
    else if e.Recorded? && p.AwaitRecord? { RecordKeeps(cfg, env, h, id); }
    else if e.Resumed? && p.AwaitEngine? { LeaveKeeps(cfg, env, h, id, ClaimSubmitted(p.claimTxId)); }
    else if e.GotClaim? && p.AwaitClaim? { ClaimKeeps(cfg, env, h, id, e.height); }
  }

  /** Being given the preimage only adds to the history. */
  lemma HearsKeeps(cfg: Config, env: Env, h: HSys, e: HEvent)
    requires Inv(cfg, env, h)
    ensures Inv(cfg, env, Hears(h, e))
  {
    var h' := Hears(h, e);
    MarksDoNotMatter(cfg, env, h, h'.marks);
    if h' != h { MarksGrow(cfg, h, PreimageMark(h.sys.calls[e.id].key)); }
  }

  lemma EntryKeeps(cfg: Config, env: Env, h: HSys, id: nat, tip: int)
    requires Inv(cfg, env, h)
    ensures Inv(cfg, env, HStep(cfg, h, PrepareEntry(id, tip)))
  {
    if Preparing(h.sys, id) && id !in h.phases {
      var prior := PriorOf(h.claims, h.sys.calls[id].key);
      AdvanceKeeps(cfg, env, h, id, if prior.PhaseA? then AwaitHtlc(tip) else AwaitClaim(tip, prior.record));
    }
  }

  lemma InvStep(cfg: Config, env: Env, h: HSys, e: HEvent)
    requires Inv(cfg, env, h) && HAllowed(env, h, e)
    ensures Inv(cfg, env, HStep(cfg, h, e))
  {
    if e.Base? {
      BaseKeeps(cfg, env, h, e.e);
    } else if e.PrepareEntry? {
      EntryKeeps(cfg, env, h, e.id, e.tip);
    } else if InPhase(h, e.id) {
      HearsKeeps(cfg, env, h, e);
      PhaseKeeps(cfg, env, Hears(h, e), e, e.id);
    }
  }

  lemma {:induction false} InvHolds(cfg: Config, env: Env, es: seq<HEvent>)
    requires HAllowedRun(cfg, env, es)
    ensures Inv(cfg, env, HRun(cfg, es))
    decreases |es|
  {
    if es != [] {
      InvHolds(cfg, env, es[..|es| - 1]);
      InvStep(cfg, env, HRun(cfg, es[..|es| - 1]), es[|es| - 1]);
    }
  }

  lemma MarkedDeliveriesAreEarned(cfg: Config, env: Env, es: seq<HEvent>, n: nat)
    requires HAllowedRun(cfg, env, es)
    requires n < |HRun(cfg, es).marks| && HRun(cfg, es).marks[n].DeliveredMark?
    ensures var marks := HRun(cfg, es).marks;
            exists i: nat, j: nat :: Pair(cfg, marks, marks[n].key, marks[n].outpoint, n, i, j)
  {
    InvHolds(cfg, env, es);
    var marks := HRun(cfg, es).marks;
    assert Earned(cfg, marks, marks[n].key, marks[n].outpoint, n);
  }

  // ---- the log --------------------------------------------------------------------------------------------

  /** Mark `n` stands for this delivery. */
  predicate MarkedAt(marks: seq<Mark>, d: Delivery, n: nat) {
    n < |marks| && marks[n] == DeliveredMark(d.key, d.outpoint)
  }

  ghost predicate PromotesMarked(h: HSys) {
    forall i :: 0 <= i < |h.sys.log| && h.sys.log[i].mode == Promote ==>
      exists n: nat :: MarkedAt(h.marks, h.sys.log[i], n)
  }

  /** The history is only added to, and a promoting delivery adds its mark. */
  lemma HistoryGrows(cfg: Config, h: HSys, e: HEvent)
    ensures var h' := HStep(cfg, h, e);
            && |h.marks| <= |h'.marks| && h'.marks[..|h.marks|] == h.marks
            && |h.sys.log| <= |h'.sys.log| <= |h.sys.log| + 1 && h'.sys.log[..|h.sys.log|] == h.sys.log
            && (|h'.sys.log| > |h.sys.log| && h'.sys.log[|h.sys.log|].mode == Promote ==>
                  MarkedAt(h'.marks, h'.sys.log[|h.sys.log|], |h.marks|))
  {
    if e.Base? { HonoredIffDelivered(h.sys, e.e); }
  }

  lemma PromotesStayMarked(h: HSys, h': HSys)
    requires PromotesMarked(h) && |h.marks| <= |h'.marks| && h'.marks[..|h.marks|] == h.marks
    requires |h.sys.log| <= |h'.sys.log| && h'.sys.log[..|h.sys.log|] == h.sys.log
    requires forall i :: |h.sys.log| <= i < |h'.sys.log| && h'.sys.log[i].mode == Promote ==>
                           MarkedAt(h'.marks, h'.sys.log[i], |h.marks|)
    ensures PromotesMarked(h')
  {
    forall i | 0 <= i < |h'.sys.log| && h'.sys.log[i].mode == Promote
      ensures exists n: nat :: MarkedAt(h'.marks, h'.sys.log[i], n)
    {
      if i < |h.sys.log| {
        assert h'.sys.log[i] == h.sys.log[i];
        var n: nat :| MarkedAt(h.marks, h.sys.log[i], n);
        assert h'.marks[n] == h.marks[n] && MarkedAt(h'.marks, h'.sys.log[i], n);
      }
    }
  }

  lemma PromotesMarkedStep(cfg: Config, h: HSys, e: HEvent)
    requires PromotesMarked(h)
    ensures PromotesMarked(HStep(cfg, h, e))
  {
    HistoryGrows(cfg, h, e);
    PromotesStayMarked(h, HStep(cfg, h, e));
  }

  lemma {:induction false} PromotesAreMarked(cfg: Config, es: seq<HEvent>)
    ensures PromotesMarked(HRun(cfg, es))
    decreases |es|
  {
    if es != [] {
      PromotesAreMarked(cfg, es[..|es| - 1]);
      PromotesMarkedStep(cfg, HRun(cfg, es[..|es| - 1]), es[|es| - 1]);
    }
  }

  /** HTLC deliveries are earned: in any run of one process with serial ticks per quote, faults at any
      other await, and arbitrary tips and claim heights, each promoting delivery in the log comes after a
      phase A that recorded exactly its outpoint as the lock of its key, with the preimage in hand and in time
      to bury the claim before the timeout, and after a later phase B that found that same claim buried
      CLAIM_MARGIN deep. */
  lemma HtlcDeliveriesAreEarned(cfg: Config, env: Env, es: seq<HEvent>, m: nat)
    requires HAllowedRun(cfg, env, es)
    requires m < |HRun(cfg, es).sys.log| && HRun(cfg, es).sys.log[m].mode == Promote
    ensures var marks, d := HRun(cfg, es).marks, HRun(cfg, es).sys.log[m];
            exists n: nat, i: nat, j: nat :: MarkedAt(marks, d, n) && Pair(cfg, marks, d.key, d.outpoint, n, i, j)
  {
    PromotesAreMarked(cfg, es);
    var marks, d := HRun(cfg, es).marks, HRun(cfg, es).sys.log[m];
    var n: nat :| MarkedAt(marks, d, n);
    MarkedDeliveriesAreEarned(cfg, env, es, n);
    var i: nat, j: nat :| Pair(cfg, marks, marks[n].key, marks[n].outpoint, n, i, j);
    assert Pair(cfg, marks, d.key, d.outpoint, n, i, j);
  }

  /** No key is delivered twice and no outpoint pays twice in a run of the protocol, without sweeps or, under
      H1-H3, with them. */
  lemma HtlcDeliversOnce(cfg: Config, env: Env, es: seq<HEvent>)
    requires NoSweep(EngineRun(cfg, es)) || AllowedRun(env, EngineRun(cfg, es))
    ensures Once(HRun(cfg, es).sys.log)
  {
    HtlcRunIsEngineRun(cfg, es);
    if NoSweep(EngineRun(cfg, es)) { ExactlyOnceUnswept(EngineRun(cfg, es)); }
    else { ExactlyOnceSwept(env, EngineRun(cfg, es)); }
  }
}
