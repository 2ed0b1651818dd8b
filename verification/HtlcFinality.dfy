/** The two-phase protocol over a chain that reorganises: delivered claims are final. */
module HtlcFinality {
  import opened HonorSpec
  import opened Hypotheses
  import opened Chains
  import opened Htlc
  import opened HtlcEarned

  /** The chain history up to state `now`: a tip read there or earlier. */
  ghost predicate TipRead(cs: seq<Chain>, now: nat, tip: int) {
    exists i: nat :: i <= now && i < |cs| && tip == TipHeight(cs[i])
  }

  predicate ReadAt(cs: seq<Chain>, tx: Hex, tip: int, h: int, i: nat, j: nat) {
    i <= j < |cs| && tip == TipHeight(cs[i]) && Mined(cs[j], tx, h)
  }

  /** A phase B that read its tip and then, in the same or a later chain state, its claim height. */
  ghost predicate ReadInOrder(cs: seq<Chain>, now: nat, m: Mark) {
    m.PhaseBMark? ==> exists i: nat, j: nat :: j <= now && ReadAt(cs, m.claimTxId, m.tip, m.height, i, j)
  }

  /** Event `e` in state `h`, run while the chain is in state `now`, reports what the chain says. */
  ghost predicate Reports(cs: seq<Chain>, now: nat, h: HSys, e: HEvent) {
    && now < |cs|
    && (e.PrepareEntry? ==> TipRead(cs, now, e.tip))
    && (e.GotClaim? && e.height.Some? && e.id in h.phases && h.phases[e.id].AwaitClaim? ==>
          Mined(cs[now], h.phases[e.id].prior.claimTxId, e.height.value))
  }

  /** Event `n` runs while the chain is in state `when[n]`, and chain states only move forward. */
  ghost predicate ReportsAll(cfg: Config, cs: seq<Chain>, when: seq<nat>, es: seq<HEvent>) {
    && |when| == |es|
    && (forall n, m :: 0 <= n <= m < |when| ==> when[n] <= when[m])
    && (forall n :: 0 <= n < |es| ==> Reports(cs, when[n], HRun(cfg, es[..n]), es[n]))
  }

  ghost predicate ReadsFit(cs: seq<Chain>, now: nat, h: HSys) {
    && (forall id :: id in h.phases && h.phases[id].AwaitClaim? ==> TipRead(cs, now, h.phases[id].tip))
    && (forall n :: 0 <= n < |h.marks| ==> ReadInOrder(cs, now, h.marks[n]))
  }

  lemma ReadsLater(cs: seq<Chain>, now: nat, later: nat, h: HSys)
    requires ReadsFit(cs, now, h) && now <= later
    ensures ReadsFit(cs, later, h)
  {
    forall id | id in h.phases && h.phases[id].AwaitClaim? ensures TipRead(cs, later, h.phases[id].tip) {
      assert TipRead(cs, now, h.phases[id].tip);
    }
    forall n | 0 <= n < |h.marks| ensures ReadInOrder(cs, later, h.marks[n]) {
      assert ReadInOrder(cs, now, h.marks[n]);
    }
  }

  lemma ReadsStep(cfg: Config, cs: seq<Chain>, now: nat, h: HSys, e: HEvent)
    requires ReadsFit(cs, now, h) && Reports(cs, now, h, e)
    ensures ReadsFit(cs, now, HStep(cfg, h, e))
  {
    var h' := HStep(cfg, h, e);
    forall n | 0 <= n < |h'.marks| ensures ReadInOrder(cs, now, h'.marks[n]) {
      if n < |h.marks| {
        assert h'.marks[n] == h.marks[n];
      } else if h'.marks[n].PhaseBMark? {
        var p := h.phases[e.id];
        assert TipRead(cs, now, p.tip);
        var i: nat :| i <= now && i < |cs| && p.tip == TipHeight(cs[i]);
        assert ReadAt(cs, p.prior.claimTxId, p.tip, e.height.value, i, now);
      }
    }
  }

  lemma {:induction false} ReadsHold(cfg: Config, cs: seq<Chain>, when: seq<nat>, es: seq<HEvent>, now: nat)
    requires ReportsAll(cfg, cs, when, es) && (es == [] || when[|when| - 1] <= now)
    ensures ReadsFit(cs, now, HRun(cfg, es))
    decreases |es|
  {
    if es != [] {
      var before, last := es[..|es| - 1], when[|when| - 1];
      forall n | 0 <= n < |before| ensures Reports(cs, when[..|when| - 1][n], HRun(cfg, before[..n]), before[n]) {
        assert before[..n] == es[..n];
      }
      ReadsHold(cfg, cs, when[..|when| - 1], before, last);
      ReadsStep(cfg, cs, last, HRun(cfg, before), es[|es| - 1]);
      ReadsLater(cs, last, now, HRun(cfg, es));
    }
  }

  /** In every state of the chain from the last event on, the claim recorded by phase A for the outpoint of
      an HTLC delivery is mined, at least CLAIM_MARGIN deep: goods are never out against a claim that can
      vanish. */
  lemma DeliveredClaimsAreFinal(
    cfg: Config, env: Env, cs: seq<Chain>, when: seq<nat>, es: seq<HEvent>, n: nat, m: nat
  )
    requires CheckConfig(cfg).None? && CoversReorgs(cfg) && History(cfg.maxReorgDepth, cs)
    requires HAllowedRun(cfg, env, es) && ReportsAll(cfg, cs, when, es) && es != []
    requires n < |HRun(cfg, es).sys.log| && HRun(cfg, es).sys.log[n].mode == Promote
    requires when[|when| - 1] <= m < |cs|
    ensures var marks, d := HRun(cfg, es).marks, HRun(cfg, es).sys.log[n];
            exists i: nat, h: int ::
              && i < |marks| && marks[i].PhaseAMark? && marks[i].key == d.key && marks[i].lock == d.outpoint
              && Mined(cs[m], marks[i].claimTxId, h) && DepthAt(TipHeight(cs[m]), h) >= cfg.claimMargin
  {
    var marks, d := HRun(cfg, es).marks, HRun(cfg, es).sys.log[n];
    var now := when[|when| - 1];
    HtlcDeliveriesAreEarned(cfg, env, es, n);
    ReadsHold(cfg, cs, when, es, now);
    var x: nat, i: nat, j: nat :| MarkedAt(marks, d, x) && Pair(cfg, marks, d.key, d.outpoint, x, i, j);
    assert ReadInOrder(cs, now, marks[j]);
    var a: nat, b: nat :| b <= now && ReadAt(cs, marks[j].claimTxId, marks[j].tip, marks[j].height, a, b);
    BuriedClaimIsFinal(cfg, cs, a, b, m, marks[j].claimTxId, marks[j].height);
  }
}
