/** What the engine needs from the world, and exactly-once delivery over whole runs. */
module Hypotheses {
  import opened HonorSpec
  import opened Engine

  /** The fixed facts of the world: the accepted quote behind each key, the key each outpoint pays
      (its datum names one quote id and a quote id has one signer), the outpoint's on-chain value and
      the configured recheck window. */
  datatype Env = Env(quoteOf: Key -> AcceptedQuote, owner: Outpoint -> Key, valueOf: Outpoint -> nat, window: int)

  function Retain(env: Env, k: Key): int { env.quoteOf(k).expiresAt + env.window }

  /** H2: a key is always registered with the same quote and window. */
  predicate OneQuotePerKey(env: Env, e: Event) {
    e.Register? ==> e.quote == env.quoteOf(e.quote.KeyOf()) && e.window == env.window
  }

  /** H3: scoring and reserving only ever name outpoints the key owns. */
  predicate OneOwner(env: Env, s: Sys, e: Event) {
    && (e.Score? && e.verdict.Honor? && e.id in s.calls ==>
          env.owner(e.verdict.candidate.outpoint) == s.calls[e.id].key)
    && (e.ReserveClaim? ==> env.owner(e.outpoint) == e.key)
  }

  /** H1: a call that reaches the gate does not carry a time before a sweep that already ran. */
  predicate Timely(s: Sys, e: Event) {
    e.RunGate? && AtGate(s, e.id) ==> s.swept.None? || s.swept.value <= s.calls[e.id].now
  }

  predicate Allowed(env: Env, s: Sys, e: Event) {
    OneQuotePerKey(env, e) && OneOwner(env, s, e) && Timely(s, e)
  }

  /** Every event of the run is allowed in the state it meets. */
  predicate AllowedRun(env: Env, es: seq<Event>)
    decreases |es|
  {
    es == [] || (AllowedRun(env, es[..|es| - 1]) && Allowed(env, Run(es[..|es| - 1]), es[|es| - 1]))
  }

  predicate KeysFixed(env: Env, es: seq<Event>) { forall i :: 0 <= i < |es| ==> OneQuotePerKey(env, es[i]) }

  predicate NoSweep(es: seq<Event>) { forall i :: 0 <= i < |es| ==> !es[i].SweepAt? }
}

module ExactlyOnce {
  import opened HonorSpec
  import opened Gate
  import opened Engine
  import opened Hypotheses

  /** No key is delivered twice and no outpoint pays twice. */
  ghost predicate Once(log: seq<Delivery>) {
    forall i, j :: 0 <= i < j < |log| ==> log[i].key != log[j].key && log[i].outpoint != log[j].outpoint
  }

  // ---- without sweeps: no hypothesis at all ---------------------------------------------------------------

  /** Each delivery still holds both of its locks. */
  ghost predicate Locked(s: Sys) { forall i :: 0 <= i < |s.log| ==> LocksStand(s, s.log[i].key, s.log[i].outpoint) }

  predicate LocksStand(s: Sys, k: Key, o: Outpoint) {
    k in s.db.seen && s.db.seen[k].honoredAt.Some? && IsTaken(s.db, o)
  }

  lemma LocksStandStep(s: Sys, e: Event, k: Key, o: Outpoint)
    requires LocksStand(s, k, o) && !e.SweepAt?
    ensures LocksStand(Step(s, e), k, o)
  {
  }

  /** What is delivered was neither locked before, and both locks are taken by it. */
  lemma DeliveryTakesBoth(s: Sys, e: Event)
    requires Step(s, e).log != s.log
    ensures var d := DeliveryOf(GateInput(s.calls[e.id]));
            && Step(s, e).log == s.log + [d] && LocksStand(Step(s, e), d.key, d.outpoint)
            && (d.key in s.db.seen ==> s.db.seen[d.key].honoredAt.None?) && !IsTaken(s.db, d.outpoint)
  {
    HonoredIffDelivered(s, e);
  }

  lemma LockedStep(s: Sys, e: Event)
    requires Locked(s) && Once(s.log) && !e.SweepAt?
    ensures Locked(Step(s, e)) && Once(Step(s, e).log)
  {
    forall i | 0 <= i < |s.log| ensures LocksStand(Step(s, e), s.log[i].key, s.log[i].outpoint) {
      LocksStandStep(s, e, s.log[i].key, s.log[i].outpoint);
    }
    if Step(s, e).log != s.log { DeliveryTakesBoth(s, e); }
  }

  /** Exactly once under all interleavings: any number of concurrent `honor` calls, with arbitrary
      stale times, verdicts and candidates, process restarts included, as long as nothing is swept. */
  lemma {:induction false} ExactlyOnceUnswept(es: seq<Event>)
    requires NoSweep(es)
    ensures Locked(Run(es)) && Once(Run(es).log)
    decreases |es|
  {
    if es != [] {
      ExactlyOnceUnswept(es[..|es| - 1]);
      LockedStep(Run(es[..|es| - 1]), es[|es| - 1]);
    }
  }

  /** A call that reaches the gate after its key was delivered changes nothing and answers
      already_honored. */
  lemma LoserIsTurnedAway(es: seq<Event>, id: nat, d: Deliver, rethrow: bool, i: nat)
    requires NoSweep(es) && AtGate(Run(es), id) && i < |Run(es).log|
    requires Run(es).log[i].key == Run(es).calls[id].key
    ensures Run(es + [RunGate(id, d, rethrow)]) == SetPc(Run(es), id, Ended(NotReady(Decline(AlreadyHonored))))
  {
    ExactlyOnceUnswept(es);
    RunSnoc(es, RunGate(id, d, rethrow));
  }

  /** A call that reaches the gate with an outpoint that was delivered changes nothing either, whatever its
      key, and answers outpoint_consumed exactly when its own row could still be locked. */
  lemma TakenOutpointIsTurnedAway(es: seq<Event>, id: nat, d: Deliver, rethrow: bool, i: nat)
    requires NoSweep(es) && AtGate(Run(es), id) && i < |Run(es).log|
    requires Run(es).log[i].outpoint == Run(es).calls[id].pc.cand.outpoint
    ensures var s, c := Run(es), Run(es).calls[id];
            var reason := if c.key !in s.db.seen then ExpiredUnobserved
                          else if s.db.seen[c.key].honoredAt.Some? then AlreadyHonored
                          else if Lockable(s.db.seen[c.key], c.now) then OutpointConsumed
                          else ExpiredUnobserved;
            Run(es + [RunGate(id, d, rethrow)]) == SetPc(s, id, Ended(NotReady(Decline(reason))))
  {
    ExactlyOnceUnswept(es);
    RunSnoc(es, RunGate(id, d, rethrow));
  }

  /** Every consumed outpoint was delivered. */
  lemma {:induction false} TakenWasDelivered(es: seq<Event>, o: Outpoint)
    requires IsTaken(Run(es).db, o)
    ensures exists i :: 0 <= i < |Run(es).log| && Run(es).log[i].outpoint == o
    decreases |es|
  {
    if es != [] {
      var s, e := Run(es[..|es| - 1]), es[|es| - 1];
      HonoredIffDelivered(s, e);
      if IsTaken(s.db, o) {
        TakenWasDelivered(es[..|es| - 1], o);
        var i :| 0 <= i < |s.log| && s.log[i].outpoint == o;
        assert Run(es).log[i].outpoint == o;
      } else {
        assert Run(es).log[|s.log|].outpoint == o;
      }
    }
  }

  /** What `isOutpointConsumed` tells: while nothing is swept, an outpoint is consumed exactly when goods
      were delivered for it. */
  lemma ConsumedIffDelivered(es: seq<Event>, o: Outpoint)
    requires NoSweep(es)
    ensures IsTaken(Run(es).db, o) <==> exists i :: 0 <= i < |Run(es).log| && Run(es).log[i].outpoint == o
  {
    ExactlyOnceUnswept(es);
    if IsTaken(Run(es).db, o) { TakenWasDelivered(es, o); }
  }

  // ---- with sweeps and re-registration, under H1-H3 -------------------------------------------------------

  /** The sweeps so far are past the retention of this key. */
  predicate Expired(env: Env, swept: Option<int>, k: Key) { swept.Some? && Retain(env, k) < swept.value }

  predicate SeenFits(env: Env, k: Key, row: SeenRow) {
    && row.key == k && row.retainUntil == Retain(env, k)
    && row.expiresAt == env.quoteOf(k).expiresAt && row.exferAmount == env.quoteOf(k).exferAmount
    && row.form == env.quoteOf(k).form && row.payee == env.quoteOf(k).payee
  }

  predicate RowFits(env: Env, c: Call) {
    match c.pc
    case Loaded(row) => SeenFits(env, c.key, row)
    case Scored(row, _) => SeenFits(env, c.key, row)
    case Ready(row, _) => SeenFits(env, c.key, row)
    case _ => true
  }

  /** Stored rows and the rows captured by calls carry their key's quote (from H2). */
  ghost predicate RowsFit(env: Env, s: Sys) {
    && (forall k :: k in s.db.seen ==> SeenFits(env, k, s.db.seen[k]))
    && (forall id :: id in s.calls ==> RowFits(env, s.calls[id]))
  }

  predicate CandFits(env: Env, c: Call) {
    (c.pc.Scored? || c.pc.Ready?) ==> env.owner(c.pc.cand.outpoint) == c.key
  }

  /** Candidates captured by calls and reserved outpoints belong to their key (from H3). */
  ghost predicate OwnersFit(env: Env, s: Sys) {
    && (forall id :: id in s.calls ==> CandFits(env, s.calls[id]))
    && (forall o :: o in s.db.consumed ==> s.db.consumed[o].key == env.owner(o))
  }

  /** Each delivery was of the outpoint's owner, and its SEEN lock stands unless it was swept. */
  ghost predicate LogFits(env: Env, s: Sys) {
    forall i :: 0 <= i < |s.log| ==>
      && env.owner(s.log[i].outpoint) == s.log[i].key
      && (Expired(env, s.swept, s.log[i].key)
          || (s.log[i].key in s.db.seen && s.db.seen[s.log[i].key].honoredAt.Some?))
  }

  lemma RowsFitStep(env: Env, s: Sys, e: Event)
    requires RowsFit(env, s) && OneQuotePerKey(env, e)
    ensures RowsFit(env, Step(s, e))
  {
  }

  lemma OwnersFitStep(env: Env, s: Sys, e: Event)
    requires OwnersFit(env, s) && OneOwner(env, s, e)
    ensures OwnersFit(env, Step(s, e))
  {
    if e.RunGate? && AtGate(s, e.id) { assert CandFits(env, s.calls[e.id]); }
  }

  /** An honored row only disappears by a sweep past its retention. */
  lemma HonorLockStands(env: Env, s: Sys, e: Event, k: Key)
    requires RowsFit(env, s) && k in s.db.seen && s.db.seen[k].honoredAt.Some?
    ensures || Expired(env, Step(s, e).swept, k)
            || (k in Step(s, e).db.seen && Step(s, e).db.seen[k].honoredAt == s.db.seen[k].honoredAt)
  {
  }

  /** Under H1 only a live, unhonored key can be delivered. */
  lemma DeliveryIsFresh(env: Env, s: Sys, e: Event)
    requires RowsFit(env, s) && OwnersFit(env, s) && Timely(s, e) && Step(s, e).log != s.log
    ensures AtGate(s, e.id)
    ensures var d := DeliveryOf(GateInput(s.calls[e.id]));
            && Step(s, e).log == s.log + [d] && env.owner(d.outpoint) == d.key && d.at < Retain(env, d.key)
            && !Expired(env, s.swept, d.key) && d.key in s.db.seen && s.db.seen[d.key].honoredAt.None?
            && d.key in Step(s, e).db.seen && Step(s, e).db.seen[d.key].honoredAt.Some?
  {
    HonoredIffDelivered(s, e);
    assert RowFits(env, s.calls[e.id]) && CandFits(env, s.calls[e.id]);
  }

  lemma LogFitsStep(env: Env, s: Sys, e: Event)
    requires RowsFit(env, s) && OwnersFit(env, s) && LogFits(env, s) && Once(s.log)
    requires Allowed(env, s, e)
    ensures LogFits(env, Step(s, e)) && Once(Step(s, e).log)
  {
    var s' := Step(s, e);
    forall i | 0 <= i < |s.log|
      ensures || Expired(env, s'.swept, s.log[i].key)
              || (s.log[i].key in s'.db.seen && s'.db.seen[s.log[i].key].honoredAt.Some?)
    {
      if !Expired(env, s.swept, s.log[i].key) { HonorLockStands(env, s, e, s.log[i].key); }
    }
    if s'.log != s.log { DeliveryIsFresh(env, s, e); }
  }

  /** Exactly once across sweeps and re-registration: over any run in which times at the gate do not
      fall behind an earlier sweep (H1), keys keep their quote (H2) and outpoints their owner (H3), no
      key is delivered twice and no outpoint pays twice, swept and re-registered quotes included. */
  lemma {:induction false} ExactlyOnceSwept(env: Env, es: seq<Event>)
    requires AllowedRun(env, es)
    ensures Once(Run(es).log)
    ensures RowsFit(env, Run(es)) && OwnersFit(env, Run(es)) && LogFits(env, Run(es))
    decreases |es|
  {
    if es != [] {
      var before := es[..|es| - 1];
      ExactlyOnceSwept(env, before);
      RowsFitStep(env, Run(before), es[|es| - 1]);
      OwnersFitStep(env, Run(before), es[|es| - 1]);
      LogFitsStep(env, Run(before), es[|es| - 1]);
    }
  }

  // ---- the goods ------------------------------------------------------------------------------------------

  /** Event `n` of the run is a gate transaction that was delivered, and it wrote `g`. */
  predicate Wrote(es: seq<Event>, n: nat, g: string) {
    && n < |es| && es[n].RunGate? && Run(es[..n + 1]).log != Run(es[..n]).log && g in es[n].deliver.writes
  }

  lemma WroteEarlier(es: seq<Event>, n: nat, g: string)
    requires es != [] && n < |es| - 1
    ensures Wrote(es, n, g) <==> Wrote(es[..|es| - 1], n, g)
  {
    assert es[..|es| - 1][..n + 1] == es[..n + 1] && es[..|es| - 1][..n] == es[..n];
  }

  lemma GoodsStep(s: Sys, e: Event)
    ensures forall g :: g in Step(s, e).db.goods <==>
              g in s.db.goods || (e.RunGate? && Step(s, e).log != s.log && g in e.deliver.writes)
  {
    HonoredIffDelivered(s, e);
    if e.RunGate? && AtGate(s, e.id) { HonorTxnByRule(s.db, GateInput(s.calls[e.id]), e.deliver); }
  }

  /** The goods handed out are exactly what the callbacks of the delivered transactions wrote: a delivery
      never goes without its goods, and goods never go out any other way. */
  lemma {:induction false} GoodsAreDelivered(es: seq<Event>, g: string)
    ensures g in Run(es).db.goods <==> exists n: nat :: Wrote(es, n, g)
    decreases |es|
  {
    if es != [] {
      var before, last := es[..|es| - 1], |es| - 1;
      GoodsAreDelivered(before, g);
      GoodsStep(Run(before), es[last]);
      assert es[..last + 1] == es && es[..last] == before;
      assert Wrote(es, last, g) <==>
        es[last].RunGate? && Run(es).log != Run(before).log && g in es[last].deliver.writes;
      if n: nat :| Wrote(before, n, g) { WroteEarlier(es, n, g); }
      if n: nat :| Wrote(es, n, g) && n < last { WroteEarlier(es, n, g); }
    }
  }
}
