/** Sweeping is unobservable: it never changes which goods are delivered. */
module SweepInvisible {
  import opened HonorSpec
  import opened Gate
  import opened Engine
  import opened Hypotheses
  import opened ExactlyOnce

  /** H1 as it must be read here: a call whose gate section comes after a sweep was entered no earlier
      than it, whether or not it lives to reach the gate. Reservations are never swept. */
  predicate TimelyCalls(s: Sys, e: Event) {
    && (e.RunGate? && e.id in s.calls ==> s.swept.None? || s.swept.value <= s.calls[e.id].now)
    && (e.SweepAt? ==> e.now <= MAX_SAFE_INTEGER)
  }

  predicate TimelyRun(env: Env, es: seq<Event>)
    decreases |es|
  {
    es == [] ||
    var s, e := Run(es[..|es| - 1]), es[|es| - 1];
    TimelyRun(env, es[..|es| - 1]) && OneQuotePerKey(env, e) && OneOwner(env, s, e) && TimelyCalls(s, e)
  }

  /** The same run with every sweep removed. */
  function WithoutSweeps(es: seq<Event>): seq<Event>
    decreases |es|
  {
    if es == [] then []
    else WithoutSweeps(es[..|es| - 1]) + if es[|es| - 1].SweepAt? then [] else [es[|es| - 1]]
  }

  /** A reservation is kept for ever, an honored outpoint as long as its owner's row. */
  predicate ConsumedAt(env: Env, s: Sys, o: Outpoint)
    requires o in s.db.consumed
  {
    s.db.consumed[o].retainUntil
    == if s.db.consumed[o].state.ClaimPending? then MAX_SAFE_INTEGER else Retain(env, env.owner(o))
  }

  ghost predicate ConsumedFits(env: Env, s: Sys) { forall o :: o in s.db.consumed ==> ConsumedAt(env, s, o) }

  ghost predicate Fits(env: Env, s: Sys) { RowsFit(env, s) && OwnersFit(env, s) && ConsumedFits(env, s) }

  predicate SameAt<K, V(==)>(m: map<K, V>, n: map<K, V>, k: K) {
    (k in m <==> k in n) && (k in m ==> m[k] == n[k])
  }

  /** `a` has swept and `b` has not: they agree on everything but expired keys and their outpoints. */
  ghost predicate Similar(env: Env, a: Sys, b: Sys) {
    a.log == b.log && SimilarDb(env, a.swept, a.db, b.db) && SimilarCalls(env, a.swept, a.calls, b.calls)
  }

  ghost predicate SimilarDb(env: Env, swept: Option<int>, a: Db, b: Db) {
    && (forall k :: Expired(env, swept, k) || SameAt(a.seen, b.seen, k))
    && (forall o :: Expired(env, swept, env.owner(o)) || SameAt(a.consumed, b.consumed, o))
  }

  ghost predicate SimilarCalls(env: Env, swept: Option<int>, a: map<nat, Call>, b: map<nat, Call>) {
    && a.Keys == b.Keys
    && (forall id :: id in a ==>
                       && a[id].key == b[id].key && a[id].now == b[id].now
                       && (Expired(env, swept, a[id].key) || a[id] == b[id]))
  }

  lemma FitsStep(env: Env, s: Sys, e: Event)
    requires Fits(env, s) && OneQuotePerKey(env, e) && OneOwner(env, s, e)
    ensures Fits(env, Step(s, e))
  {
    RowsFitStep(env, s, e);
    OwnersFitStep(env, s, e);
    ConsumedFitsStep(env, s, e);
  }

  lemma ConsumedFitsStep(env: Env, s: Sys, e: Event)
    requires Fits(env, s) && OneOwner(env, s, e)
    ensures ConsumedFits(env, Step(s, e))
  {
    forall o | o in Step(s, e).db.consumed ensures ConsumedAt(env, Step(s, e), o) { ConsumedStep(env, s, e, o); }
  }

  lemma ConsumedStep(env: Env, s: Sys, e: Event, o: Outpoint)
    requires Fits(env, s) && OneOwner(env, s, e) && o in Step(s, e).db.consumed
    ensures ConsumedAt(env, Step(s, e), o)
  {
    if o in s.db.consumed { assert ConsumedAt(env, s, o); }
    if e.RunGate? && AtGate(s, e.id) {
      assert RowFits(env, s.calls[e.id]) && CandFits(env, s.calls[e.id]);
    }
  }

  /** No transaction for an expired key commits. */
  lemma ExpiredNeverCommits(env: Env, a: Sys, s: Sys, id: nat, d: Deliver, rethrow: bool)
    requires RowsFit(env, s) && AtGate(s, id)
    requires Expired(env, a.swept, s.calls[id].key) && a.swept.value <= s.calls[id].now
    ensures GateStep(s, id, d, rethrow).db == s.db && GateStep(s, id, d, rethrow).log == s.log
  {
  }

  /** One call moves on in each system, or in one of them only. */
  lemma SimilarUpdate(
    env: Env, swept: Option<int>, a: map<nat, Call>, b: map<nat, Call>, a': map<nat, Call>, b': map<nat, Call>,
    id: nat
  )
    requires SimilarCalls(env, swept, a, b) && id in a
    requires id in a' && id in b' && a' == a[id := a'[id]] && b' == b[id := b'[id]]
    requires a'[id].key == b'[id].key == a[id].key && a'[id].now == b'[id].now == a[id].now
    requires Expired(env, swept, a[id].key) || a'[id] == b'[id]
    ensures SimilarCalls(env, swept, a', b')
  {
  }

  /** What an event does to the call it names, and nothing else among the calls. */
  lemma OnlyThatCall(s: Sys, e: Event, id: nat)
    requires id in s.calls
    requires e == Load(id) || (e.Score? && e.id == id) || (e.Prepare? && e.id == id) || (e.Fail? && e.id == id)
    || (e.RunGate? && e.id == id)
    ensures var s' := Step(s, e);
            && id in s'.calls && s'.calls == s.calls[id := s'.calls[id]]
            && s'.calls[id].key == s.calls[id].key && s'.calls[id].now == s.calls[id].now
            && s'.swept == s.swept && (e.RunGate? || (s'.db == s.db && s'.log == s.log))
  {
  }

  lemma SimilarLiveGate(env: Env, a: Sys, b: Sys, id: nat, d: Deliver, rethrow: bool)
    requires OwnersFit(env, a) && Similar(env, a, b) && AtGate(a, id)
    requires !Expired(env, a.swept, a.calls[id].key)
    ensures AtGate(b, id) && GateStep(a, id, d, rethrow).log == GateStep(b, id, d, rethrow).log
    ensures GateStep(a, id, d, rethrow).calls[id] == GateStep(b, id, d, rethrow).calls[id]
    ensures SimilarDb(env, a.swept, GateStep(a, id, d, rethrow).db, GateStep(b, id, d, rethrow).db)
  {
    var inp := GateInput(a.calls[id]);
    assert CandFits(env, a.calls[id]);
    assert SameAt(a.db.seen, b.db.seen, inp.key) && SameAt(a.db.consumed, b.db.consumed, inp.outpoint);
    assert HonorTxn(a.db, inp, d).1 == HonorTxn(b.db, inp, d).1;
  }

  lemma SimilarGate(env: Env, a: Sys, b: Sys, id: nat, d: Deliver, rethrow: bool)
    requires Fits(env, a) && Fits(env, b) && Similar(env, a, b) && TimelyCalls(a, RunGate(id, d, rethrow))
    ensures Similar(env, Step(a, RunGate(id, d, rethrow)), Step(b, RunGate(id, d, rethrow)))
  {
    var e := RunGate(id, d, rethrow);
    if id in a.calls {
      OnlyThatCall(a, e, id);
      OnlyThatCall(b, e, id);
      if Expired(env, a.swept, a.calls[id].key) {
        if AtGate(a, id) { ExpiredNeverCommits(env, a, a, id, d, rethrow); }
        if AtGate(b, id) { ExpiredNeverCommits(env, a, b, id, d, rethrow); }
      } else if AtGate(a, id) {
        SimilarLiveGate(env, a, b, id, d, rethrow);
      }
      SimilarUpdate(env, a.swept, a.calls, b.calls, Step(a, e).calls, Step(b, e).calls, id);
    }
  }

  lemma SimilarStore(env: Env, a: Sys, b: Sys, e: Event)
    requires Similar(env, a, b) && (e.Register? || e.Observe? || e.ReserveClaim?)
    ensures Similar(env, Step(a, e), Step(b, e))
  {
  }

  lemma SimilarCall(env: Env, a: Sys, b: Sys, e: Event, id: nat)
    requires Similar(env, a, b)
    requires e == Load(id) || (e.Score? && e.id == id) || (e.Prepare? && e.id == id) || (e.Fail? && e.id == id)
    ensures Similar(env, Step(a, e), Step(b, e))
  {
    if id in a.calls {
      OnlyThatCall(a, e, id);
      OnlyThatCall(b, e, id);
      if e.Load? && !Expired(env, a.swept, a.calls[id].key) { assert SameAt(a.db.seen, b.db.seen, a.calls[id].key); }
      SimilarUpdate(env, a.swept, a.calls, b.calls, Step(a, e).calls, Step(b, e).calls, id);
    }
  }

  lemma SimilarStep(env: Env, a: Sys, b: Sys, e: Event)
    requires Fits(env, a) && Fits(env, b) && Similar(env, a, b) && !e.SweepAt?
    requires TimelyCalls(a, e)
    ensures Similar(env, Step(a, e), Step(b, e))
  {
    match e
    case RunGate(id, d, rethrow) => SimilarGate(env, a, b, id, d, rethrow);
    case Register(_, _, _) => SimilarStore(env, a, b, e);
    case Observe(_, _) => SimilarStore(env, a, b, e);
    case ReserveClaim(_, _, _) => SimilarStore(env, a, b, e);
    case Load(id) => SimilarCall(env, a, b, e, id);
    case Score(id, _) => SimilarCall(env, a, b, e, id);
    case Prepare(id, _) => SimilarCall(env, a, b, e, id);
    case Fail(id, _) => SimilarCall(env, a, b, e, id);
    case Enter(_, _, _) =>
    case Restart =>
  }

  lemma SimilarSweep(env: Env, a: Sys, b: Sys, now: int)
    requires Fits(env, a) && Similar(env, a, b) && now <= MAX_SAFE_INTEGER
    ensures Similar(env, Step(a, SweepAt(now)), b)
  {
    var a' := Step(a, SweepAt(now));
    forall k | !Expired(env, a'.swept, k) ensures SameAt(a'.db.seen, b.db.seen, k) {
      assert !Expired(env, a.swept, k) && SameAt(a.db.seen, b.db.seen, k);
    }
    forall o | !Expired(env, a'.swept, env.owner(o)) ensures SameAt(a'.db.consumed, b.db.consumed, o) {
      assert !Expired(env, a.swept, env.owner(o)) && SameAt(a.db.consumed, b.db.consumed, o);
    }
    forall id | id in a.calls ensures Expired(env, a'.swept, a.calls[id].key) || a.calls[id] == b.calls[id] {
      assert Expired(env, a.swept, a.calls[id].key) ==> Expired(env, a'.swept, a.calls[id].key);
    }
  }

  /** Sweeping is unobservable: under H1-H3 a run delivers exactly what the same run delivers with
      every sweep removed, in the same order, from the same outpoints and at the same times. */
  lemma {:induction false} SweepsAreInvisible(env: Env, es: seq<Event>)
    requires TimelyRun(env, es)
    ensures Run(es).log == Run(WithoutSweeps(es)).log
    ensures NoSweep(WithoutSweeps(es))
    ensures Similar(env, Run(es), Run(WithoutSweeps(es)))
    ensures Fits(env, Run(es)) && Fits(env, Run(WithoutSweeps(es)))
    decreases |es|
  {
    if es != [] {
      var before, e := es[..|es| - 1], es[|es| - 1];
      SweepsAreInvisible(env, before);
      var a, b := Run(before), Run(WithoutSweeps(before));
      FitsStep(env, a, e);
      if e.SweepAt? {
        SimilarSweep(env, a, b, e.now);
        assert WithoutSweeps(es) == WithoutSweeps(before);
      } else {
        SimilarStep(env, a, b, e);
        FitsStep(env, b, e);
        assert WithoutSweeps(es) == WithoutSweeps(before) + [e];
        RunSnoc(WithoutSweeps(before), e);
      }
    }
  }
}
