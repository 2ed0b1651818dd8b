/** Honored SEEN rows and honored CONSUMED rows are in one-to-one correspondence. */
module GateBijection {
  import opened HonorSpec
  import opened Gate
  import opened Engine
  import opened Hypotheses
  import opened ExactlyOnce

  predicate IsHonored(s: Sys, k: Key) { k in s.db.seen && s.db.seen[k].honoredAt.Some? }

  /** The SEEN row of `k` and the CONSUMED row of `o` are the two halves of one honor. */
  predicate Halves(s: Sys, k: Key, o: Outpoint) {
    && IsHonored(s, k) && IsTaken(s.db, o)
    && s.db.seen[k].honoredOutpoint == Some(o)
    && s.db.consumed[o].honoredAt == s.db.seen[k].honoredAt
    && s.db.consumed[o].retainUntil == s.db.seen[k].retainUntil
  }

  /** `honoredOutpoint` is total and injective on honored rows, and onto the taken outpoints. */
  ghost predicate Bijection(s: Sys) {
    && (forall k :: IsHonored(s, k) ==>
          s.db.seen[k].honoredOutpoint.Some? && Halves(s, k, s.db.seen[k].honoredOutpoint.value))
    && (forall k, k' :: IsHonored(s, k) && IsHonored(s, k') && k != k' ==>
          s.db.seen[k].honoredOutpoint != s.db.seen[k'].honoredOutpoint)
    && (forall o :: IsTaken(s.db, o) ==> exists k :: Halves(s, k, o))
  }

  /** A sweep removes both halves of an honor or neither. */
  lemma SweepKeepsPairs(s: Sys, now: int, k: Key, o: Outpoint)
    requires Halves(s, k, o)
    ensures Halves(Step(s, SweepAt(now)), k, o)
            || (k !in Step(s, SweepAt(now)).db.seen && o !in Step(s, SweepAt(now)).db.consumed)
  {
  }

  lemma BijectionSweep(s: Sys, now: int)
    requires Bijection(s)
    ensures Bijection(Step(s, SweepAt(now)))
  {
    var s' := Step(s, SweepAt(now));
    forall k | IsHonored(s', k) ensures Halves(s', k, s'.db.seen[k].honoredOutpoint.value) {
      SweepKeepsPairs(s, now, k, s.db.seen[k].honoredOutpoint.value);
    }
    forall o | IsTaken(s'.db, o) ensures exists k :: Halves(s', k, o) {
      assert IsTaken(s.db, o);
      var k :| Halves(s, k, o);
      SweepKeepsPairs(s, now, k, o);
    }
  }

  /** Every other event leaves the halves of an honor alone. */
  lemma HalvesStand(s: Sys, e: Event, k: Key, o: Outpoint)
    requires Halves(s, k, o) && !e.SweepAt?
    ensures Halves(Step(s, e), k, o)
  {
  }

  /** A commit adds exactly one pair; nothing else but a sweep touches honored rows. */
  lemma NewHalves(env: Env, s: Sys, e: Event)
    requires RowsFit(env, s) && !e.SweepAt?
    ensures var s' := Step(s, e);
            if s'.log == s.log then
              (forall k :: IsHonored(s', k) ==> IsHonored(s, k)) && (forall o :: IsTaken(s'.db, o) ==> IsTaken(s.db, o))
            else
              var d := s'.log[|s.log|];
              && Halves(s', d.key, d.outpoint) && !IsHonored(s, d.key) && !IsTaken(s.db, d.outpoint)
              && (forall k :: IsHonored(s', k) ==> k == d.key || IsHonored(s, k))
              && (forall o :: IsTaken(s'.db, o) ==> o == d.outpoint || IsTaken(s.db, o))
  {
    HonoredIffDelivered(s, e);
    if Step(s, e).log != s.log { assert RowFits(env, s.calls[e.id]); }
  }

  lemma BijectionStep(env: Env, s: Sys, e: Event)
    requires Bijection(s) && RowsFit(env, s)
    ensures Bijection(Step(s, e))
  {
    if e.SweepAt? {
      BijectionSweep(s, e.now);
    } else {
      var s' := Step(s, e);
      NewHalves(env, s, e);
      forall k | IsHonored(s, k) ensures Halves(s', k, s.db.seen[k].honoredOutpoint.value) {
        HalvesStand(s, e, k, s.db.seen[k].honoredOutpoint.value);
      }
      forall o | IsTaken(s'.db, o) ensures exists k :: Halves(s', k, o) {
        if IsTaken(s.db, o) {
          var k :| Halves(s, k, o);
          HalvesStand(s, e, k, o);
        }
      }
    }
  }

  /** Through commits, rollbacks, promotes and sweeps, in every reachable state (H2 only):
      `honoredOutpoint` is a bijection between honored SEEN rows and honored CONSUMED rows, with equal
      honor times and retention. */
  lemma {:induction false} GateIsBijective(env: Env, es: seq<Event>)
    requires KeysFixed(env, es)
    ensures Bijection(Run(es)) && RowsFit(env, Run(es))
    decreases |es|
  {
    if es != [] {
      var before := es[..|es| - 1];
      GateIsBijective(env, before);
      RowsFitStep(env, Run(before), es[|es| - 1]);
      BijectionStep(env, Run(before), es[|es| - 1]);
    }
  }

  /** What `isOutpointConsumed` tells: in every reachable state, sweeps included, an outpoint is consumed
      exactly when some key stands honored from it, which is then the only one. A reservation does not
      count, nor does an attempt that was rolled back. */
  lemma ConsumedIffHonored(env: Env, es: seq<Event>, o: Outpoint)
    requires KeysFixed(env, es)
    ensures IsTaken(Run(es).db, o) <==> exists k :: Halves(Run(es), k, o)
    ensures forall k, k' :: Halves(Run(es), k, o) && Halves(Run(es), k', o) ==> k == k'
  {
    GateIsBijective(env, es);
  }
}
