/** Late honors are truthful: a delivery after expiry rests on an observation made before it. */
module LateHonor {
  import opened HonorSpec
  import opened Gate
  import opened Engine
  import opened Hypotheses
  import opened ExactlyOnce

  /** Event `j` observed the key before its quote expired, and its row has stood ever since. */
  ghost predicate StandingObservation(env: Env, es: seq<Event>, k: Key, j: nat) {
    && j < |es| && es[j].Observe? && es[j].key == k && es[j].at < env.quoteOf(k).expiresAt
    && forall i :: j <= i <= |es| ==> k in Run(es[..i]).db.seen
  }

  ghost predicate ObservedInTime(env: Env, es: seq<Event>, k: Key) {
    exists j: nat :: StandingObservation(env, es, k, j)
  }

  lemma ObservationStands(env: Env, es: seq<Event>, k: Key, j: nat)
    requires es != [] && StandingObservation(env, es[..|es| - 1], k, j) && k in Run(es).db.seen
    ensures StandingObservation(env, es, k, j)
  {
    var before := es[..|es| - 1];
    forall i | j <= i <= |es| ensures k in Run(es[..i]).db.seen {
      if i < |es| {
        assert es[..i] == before[..i];
      } else {
        assert es[..i] == es;
      }
    }
  }

  /** Only an observation in time raises the flag of a standing row. */
  lemma FlagRaised(s: Sys, e: Event, k: Key)
    requires k in Step(s, e).db.seen && Step(s, e).db.seen[k].observedBeforeExpiry
    ensures k in s.db.seen
    ensures s.db.seen[k].observedBeforeExpiry || (e.Observe? && e.key == k && e.at < s.db.seen[k].expiresAt)
  {
  }

  /** A row that carries the observation flag has been observed in time since it was inserted. */
  lemma {:induction false} FlagMeansObserved(env: Env, es: seq<Event>, k: Key)
    requires KeysFixed(env, es) && k in Run(es).db.seen && Run(es).db.seen[k].observedBeforeExpiry
    ensures ObservedInTime(env, es, k)
    decreases |es|
  {
    if es != [] {
      var before, e := es[..|es| - 1], es[|es| - 1];
      var s := Run(before);
      FlagRaised(s, e, k);
      if s.db.seen[k].observedBeforeExpiry {
        FlagMeansObserved(env, before, k);
        var j: nat :| StandingObservation(env, before, k, j);
        ObservationStands(env, es, k, j);
      } else {
        KeptRowsFit(env, before);
        assert es[..|es|] == es;
        assert StandingObservation(env, es, k, |before|);
      }
    }
  }

  lemma {:induction false} KeptRowsFit(env: Env, es: seq<Event>)
    requires KeysFixed(env, es)
    ensures RowsFit(env, Run(es))
    decreases |es|
  {
    if es != [] {
      KeptRowsFit(env, es[..|es| - 1]);
      RowsFitStep(env, Run(es[..|es| - 1]), es[|es| - 1]);
    }
  }

  /** Event `n` of the run committed the delivery `d`, in time. */
  ghost predicate TruthfulAt(env: Env, es: seq<Event>, n: nat, d: Delivery) {
    && n < |es| && Run(es[..n + 1]).log == Run(es[..n]).log + [d]
    && d.at < env.quoteOf(d.key).expiresAt + env.window
    && (d.at >= env.quoteOf(d.key).expiresAt ==> ObservedInTime(env, es[..n], d.key))
  }

  lemma LastDeliveryIsTruthful(env: Env, es: seq<Event>)
    requires es != [] && KeysFixed(env, es) && Run(es).log != Run(es[..|es| - 1]).log
    ensures |Run(es).log| == |Run(es[..|es| - 1]).log| + 1
    ensures TruthfulAt(env, es, |es| - 1, Run(es).log[|Run(es).log| - 1])
  {
    var before, e := es[..|es| - 1], es[|es| - 1];
    var s := Run(before);
    HonoredIffDelivered(s, e);
    KeptRowsFit(env, before);
    var d := DeliveryOf(GateInput(s.calls[e.id]));
    assert RowFits(env, s.calls[e.id]);
    assert es[..|es| - 1 + 1] == es;
    if d.at >= env.quoteOf(d.key).expiresAt {
      FlagMeansObserved(env, before, d.key);
    }
  }

  /** Late-honor truthfulness (H2): every delivery in the log of a run was committed at a time before
      its quote's retention ended, and one committed at or after expiry was preceded by an observation
      of that key, before expiry, of the very row that was honored. */
  lemma {:induction false} DeliveriesAreTruthful(env: Env, es: seq<Event>, m: nat)
    requires KeysFixed(env, es) && m < |Run(es).log|
    ensures exists n: nat :: TruthfulAt(env, es, n, Run(es).log[m])
    decreases |es|
  {
    var before := es[..|es| - 1];
    HonoredIffDelivered(Run(before), es[|es| - 1]);
    if Run(es).log != Run(before).log {
      LastDeliveryIsTruthful(env, es);
    }
    if m < |Run(before).log| {
      DeliveriesAreTruthful(env, before, m);
      var n: nat :| TruthfulAt(env, before, n, Run(es).log[m]);
      assert before[..n + 1] == es[..n + 1] && before[..n] == es[..n];
      assert TruthfulAt(env, es, n, Run(es).log[m]);
    }
  }

  // ---- and the other way round ----------------------------------------------------------------------------

  /** While a row stands its flag is never lost, whoever registers or observes again. */
  lemma FlagStands(s: Sys, e: Event, k: Key)
    requires k in s.db.seen && s.db.seen[k].observedBeforeExpiry && k in Step(s, e).db.seen
    ensures Step(s, e).db.seen[k].observedBeforeExpiry
  {
  }

  lemma ObservationRaises(s: Sys, k: Key, at: int)
    requires k in s.db.seen && at < s.db.seen[k].expiresAt
    ensures k in Step(s, Observe(k, at)).db.seen && Step(s, Observe(k, at)).db.seen[k].observedBeforeExpiry
  {
  }

  lemma RunPrefix(es: seq<Event>, n: nat)
    requires 0 < n <= |es|
    ensures Run(es[..n]) == Step(Run(es[..n - 1]), es[n - 1])
  {
    assert es[..n][..n - 1] == es[..n - 1];
  }

  /** A timely observation of a row that still stands shows in its flag. */
  lemma {:induction false} ObservedMeansFlag(env: Env, es: seq<Event>, k: Key, j: nat, n: nat)
    requires KeysFixed(env, es) && StandingObservation(env, es, k, j) && j < n <= |es|
    ensures k in Run(es[..n]).db.seen && Run(es[..n]).db.seen[k].observedBeforeExpiry
    decreases n
  {
    RunPrefix(es, n);
    if n == j + 1 {
      KeptRowsFit(env, es[..j]);
      ObservationRaises(Run(es[..j]), k, es[j].at);
    } else {
      ObservedMeansFlag(env, es, k, j, n - 1);
      FlagStands(Run(es[..n - 1]), es[n - 1], k);
    }
  }

  lemma FlagIffObserved(env: Env, es: seq<Event>, k: Key)
    requires KeysFixed(env, es) && k in Run(es).db.seen
    ensures Run(es).db.seen[k].observedBeforeExpiry <==> ObservedInTime(env, es, k)
  {
    if Run(es).db.seen[k].observedBeforeExpiry { FlagMeansObserved(env, es, k); }
    if j: nat :| StandingObservation(env, es, k, j) {
      ObservedMeansFlag(env, es, k, j, |es|);
      assert es[..|es|] == es;
    }
  }

  /** The quote may still be honored at `now`: retention has not ended, and the quote has not expired or was
      observed before it did. */
  ghost predicate InTime(env: Env, es: seq<Event>, k: Key, now: int) {
    && now < env.quoteOf(k).expiresAt + env.window
    && (now < env.quoteOf(k).expiresAt || ObservedInTime(env, es, k))
  }

  /** The row of the key stands and has not been honored. */
  predicate Standing(s: Sys, k: Key) { k in s.db.seen && s.db.seen[k].honoredAt == None }

  /** A plain payment has not been used; an HTLC lock is reserved and not yet honored. */
  predicate OutpointOpen(s: Sys, o: Outpoint, form: Form) {
    match form
    case Plain => o !in s.db.consumed
    case Htlc => o in s.db.consumed && s.db.consumed[o].state == ClaimPending
  }

  /** The same by the row as it is stored. */
  lemma GateByRow(s: Sys, id: nat, d: Deliver, rethrow: bool)
    requires AtGate(s, id) && d.end == Returns
    ensures var c, s' := s.calls[id], Step(s, RunGate(id, d, rethrow));
            var o, k := c.pc.cand.outpoint, c.key;
            var live := Standing(s, k) && c.now < s.db.seen[k].retainUntil
                        && (c.now < s.db.seen[k].expiresAt || s.db.seen[k].observedBeforeExpiry);
            var open := OutpointOpen(s, o, c.pc.row.form);
            var pc := s'.calls[id].pc;
            && (s'.log != s.log <==> live && open)
            && (pc == Ended(Honored(o)) <==> live && open)
            && (pc == Ended(NotReady(Decline(AlreadyHonored))) <==> k in s.db.seen && !Standing(s, k))
            && (pc == Ended(NotReady(Decline(OutpointConsumed))) <==> live && !open)
            && (pc == Ended(NotReady(Decline(ExpiredUnobserved))) <==> !live && !(k in s.db.seen && !Standing(s, k)))
  {
    HonoredIffDelivered(s, RunGate(id, d, rethrow));
    HonorTxnByRule(s.db, GateInput(s.calls[id]), d);
    GateAnswers(s, id, d, rethrow);
  }

  /** Late honors are honored (H2): in any run, a call at the gate with a callback that returns is delivered
      if and only if its row stands unhonored, its captured time is in time by the history of the run, and
      its outpoint is open; the answer it gets otherwise names what failed. */
  lemma DeliveredIffInTime(env: Env, es: seq<Event>, id: nat, d: Deliver, rethrow: bool)
    requires KeysFixed(env, es) && AtGate(Run(es), id) && d.end == Returns
    ensures var s, c := Run(es), Run(es).calls[id];
            var s' := Run(es + [RunGate(id, d, rethrow)]);
            var o, live := c.pc.cand.outpoint, Standing(s, c.key) && InTime(env, es, c.key, c.now);
            && (s'.log != s.log <==> live && OutpointOpen(s, o, env.quoteOf(c.key).form))
            && (s'.calls[id].pc == Ended(Honored(o)) <==> s'.log != s.log)
            && (s'.calls[id].pc == Ended(NotReady(Decline(AlreadyHonored)))
                <==> c.key in s.db.seen && s.db.seen[c.key].honoredAt != None)
            && (s'.calls[id].pc == Ended(NotReady(Decline(OutpointConsumed)))
                <==> live && !OutpointOpen(s, o, env.quoteOf(c.key).form))
            && (s'.calls[id].pc == Ended(NotReady(Decline(ExpiredUnobserved)))
                <==> !live && !(c.key in s.db.seen && s.db.seen[c.key].honoredAt != None))
  {
    var s, c := Run(es), Run(es).calls[id];
    RunSnoc(es, RunGate(id, d, rethrow));
    KeptRowsFit(env, es);
    assert RowFits(env, c);
    GateByRow(s, id, d, rethrow);
    if c.key in s.db.seen { FlagIffObserved(env, es, c.key); }
  }
}
