/** What was delivered is what was paid. */
module Conservation {
  import opened HonorSpec
  import opened Engine
  import opened Hypotheses
  import opened ExactlyOnce

  /** The scorers only honor a candidate whose value is its on-chain value and exactly the quote's. */
  predicate ExactValue(env: Env, s: Sys, e: Event) {
    e.Score? && e.verdict.Honor? && e.id in s.calls && s.calls[e.id].pc.Loaded? ==>
      e.verdict.candidate.value == env.valueOf(e.verdict.candidate.outpoint) == s.calls[e.id].pc.row.exferAmount
  }

  predicate ExactRun(env: Env, es: seq<Event>)
    decreases |es|
  {
    es == [] || (ExactRun(env, es[..|es| - 1]) && ExactValue(env, Run(es[..|es| - 1]), es[|es| - 1]))
  }

  predicate CallExact(env: Env, c: Call) {
    match c.pc
    case Scored(row, cand) => env.valueOf(cand.outpoint) == row.exferAmount
    case Ready(row, cand) => env.valueOf(cand.outpoint) == row.exferAmount
    case _ => true
  }

  ghost predicate CallsExact(env: Env, s: Sys) { forall id :: id in s.calls ==> CallExact(env, s.calls[id]) }

  function Quoted(env: Env, log: seq<Delivery>): nat {
    if log == [] then 0 else Quoted(env, log[..|log| - 1]) + env.quoteOf(log[|log| - 1].key).exferAmount
  }

  /** The distinct outpoints the deliveries consumed. */
  function Consumed(log: seq<Delivery>): set<Outpoint> { set i | 0 <= i < |log| :: log[i].outpoint }

  /** Total on-chain value of a set of outpoints. */
  ghost function Paid(env: Env, os: set<Outpoint>): nat
    decreases |os|
  {
    if os == {} then 0
    else
      var o :| o in os;
      env.valueOf(o) + Paid(env, os - {o})
  }

  lemma {:induction false} PaidAdd(env: Env, os: set<Outpoint>, x: Outpoint)
    requires x in os
    ensures Paid(env, os) == env.valueOf(x) + Paid(env, os - {x})
    decreases |os|
  {
    var o :| o in os && Paid(env, os) == env.valueOf(o) + Paid(env, os - {o});
    if o != x {
      PaidAdd(env, os - {o}, x);
      PaidAdd(env, os - {x}, o);
      assert os - {o} - {x} == os - {x} - {o};
    }
  }

  lemma CallsExactStep(env: Env, s: Sys, e: Event)
    requires CallsExact(env, s) && ExactValue(env, s, e)
    ensures CallsExact(env, Step(s, e))
  {
  }

  lemma PaidExtends(env: Env, log: seq<Delivery>, d: Delivery)
    requires Once(log + [d]) && env.valueOf(d.outpoint) == env.quoteOf(d.key).exferAmount
    requires Quoted(env, log) == Paid(env, Consumed(log))
    ensures Quoted(env, log + [d]) == Paid(env, Consumed(log + [d]))
  {
    var all := log + [d];
    assert all[..|all| - 1] == log && all[|log|] == d;
    assert d.outpoint !in Consumed(log) by {
      forall i | 0 <= i < |log| ensures log[i].outpoint != d.outpoint { assert all[i] == log[i]; }
    }
    assert Consumed(all) - {d.outpoint} == Consumed(log) by {
      forall o | o in Consumed(log) ensures o in Consumed(all) {
        var i :| 0 <= i < |log| && log[i].outpoint == o;
        assert all[i].outpoint == o;
      }
    }
    assert d.outpoint in Consumed(all) by { assert all[|log|].outpoint == d.outpoint; }
    PaidAdd(env, Consumed(all), d.outpoint);
  }

  /** Conservation (H1-H3): at every reachable state the sum of exferAmount over the delivered quotes
      is the sum of the on-chain values of the distinct outpoints they consumed. */
  lemma {:induction false} DeliveredIsPaid(env: Env, es: seq<Event>)
    requires AllowedRun(env, es) && ExactRun(env, es)
    ensures Quoted(env, Run(es).log) == Paid(env, Consumed(Run(es).log))
    ensures CallsExact(env, Run(es))
    decreases |es|
  {
    if es == [] {
      assert Consumed([]) == {};
    } else {
      var before, e := es[..|es| - 1], es[|es| - 1];
      DeliveredIsPaid(env, before);
      ExactlyOnceSwept(env, before);
      ExactlyOnceSwept(env, es);
      CallsExactStep(env, Run(before), e);
      HonoredIffDelivered(Run(before), e);
      if Run(es).log != Run(before).log {
        var c := Run(before).calls[e.id];
        assert CallExact(env, c) && RowFits(env, c);
        PaidExtends(env, Run(before).log, DeliveryOf(GateInput(c)));
      }
    }
  }
}
