/** The reorganising chain and the depth arithmetic behind CLAIM_MARGIN (src/core/engine.ts
    createHonorEngine, src/forms/htlc.ts phase B). */
module Chains {
  import opened HonorSpec

  /** A block is the set of transaction ids it mines; a chain is indexed by height. */
  type Block = set<Hex>
  type Chain = seq<Block>

  datatype Config = Config(
    confirmationDepth: int,
    maxReorgDepth: int,
    claimMargin: int,
    maxRecheckWindow: int,
    sourceBinding: bool,
    requirePayerFunded: bool)

  /** `createHonorEngine` throws unless claimMargin is exactly derived from the two depths. */
  function CheckConfig(cfg: Config): Option<Fault> {
    if cfg.claimMargin != cfg.maxReorgDepth + cfg.confirmationDepth + 1 then Some(MarginAssertion) else None
  }

  function TipHeight(c: Chain): int { |c| - 1 }

  predicate Mined(c: Chain, tx: Hex, h: int) { 0 <= h < |c| && tx in c[h] }

  function DepthAt(tip: int, h: int): int { tip - h + 1 }

  /** The depth test of phase B, on the tip and the claim height it was given. */
  predicate Buried(cfg: Config, tip: int, h: int) { DepthAt(tip, h) >= cfg.claimMargin }

  /** `b` keeps the first `keep` blocks of `a` and is at least as long. */
  predicate Replaces(a: Chain, b: Chain, keep: nat) { keep <= |a| <= |b| && a[..keep] == b[..keep] }

  /** The chain grows, or swaps at most `r` top blocks for at least as many others. */
  ghost predicate Advances(r: int, a: Chain, b: Chain) {
    exists keep: nat :: Replaces(a, b, keep) && |a| - keep <= r
  }

  ghost predicate History(r: int, cs: seq<Chain>) {
    forall i :: 0 <= i && i + 1 < |cs| ==> Advances(r, cs[i], cs[i + 1])
  }

  lemma AdvanceKeepsDeep(r: int, a: Chain, b: Chain, tx: Hex, h: int)
    requires Advances(r, a, b)
    ensures TipHeight(a) <= TipHeight(b)
    ensures Mined(a, tx, h) && DepthAt(TipHeight(a), h) > r ==> Mined(b, tx, h)
  {
    var keep: nat :| Replaces(a, b, keep) && |a| - keep <= r;
    if Mined(a, tx, h) && DepthAt(TipHeight(a), h) > r {
      assert a[h] == a[..keep][h] == b[..keep][h] == b[h];
    }
  }

  lemma {:induction false} TipNeverFalls(r: int, cs: seq<Chain>, i: nat, j: nat)
    requires History(r, cs) && i <= j < |cs|
    ensures TipHeight(cs[i]) <= TipHeight(cs[j])
    decreases j
  {
    if i < j {
      TipNeverFalls(r, cs, i, j - 1);
      AdvanceKeepsDeep(r, cs[j - 1], cs[j - 1 + 1], "", 0);
    }
  }

  lemma {:induction false} DeepStaysMined(r: int, cs: seq<Chain>, i: nat, j: nat, tx: Hex, h: int)
    requires History(r, cs) && i <= j < |cs|
    requires Mined(cs[i], tx, h) && DepthAt(TipHeight(cs[i]), h) > r
    ensures Mined(cs[j], tx, h) && DepthAt(TipHeight(cs[j]), h) >= DepthAt(TipHeight(cs[i]), h)
    decreases j
  {
    if i < j {
      DeepStaysMined(r, cs, i, j - 1, tx, h);
      AdvanceKeepsDeep(r, cs[j - 1], cs[j - 1 + 1], tx, h);
    }
  }

  function EmptyBlocks(n: nat): Chain { seq(n, i => {}) }

  /** Swap everything from height `h` on for empty blocks, `extra` more than there were. */
  function CutAt(c: Chain, h: nat, extra: nat): Chain
    requires h <= |c|
  {
    c[..h] + EmptyBlocks(|c| - h + extra)
  }

  lemma CutAdvances(r: int, c: Chain, h: nat, extra: nat, tx: Hex)
    requires h < |c| && |c| - h <= r
    ensures Advances(r, c, CutAt(c, h, extra)) && !Mined(CutAt(c, h, extra), tx, h)
  {
    assert Replaces(c, CutAt(c, h, extra), h);
  }

  /** The confirmation depth is not negative, or no reorganisation is tolerated. */
  predicate CoversReorgs(cfg: Config) { cfg.confirmationDepth >= 0 || cfg.maxReorgDepth <= 0 }

  /** In some history the tip was read in state `i` and the claim height in state `j`, the depth computed
      from the two reached CLAIM_MARGIN, and `m` is a later state. */
  ghost predicate ReadAsBuried(cfg: Config, cs: seq<Chain>, i: nat, j: nat, m: nat, tx: Hex, h: int) {
    && History(cfg.maxReorgDepth, cs) && i <= j <= m < |cs|
    && Mined(cs[j], tx, h) && Buried(cfg, TipHeight(cs[i]), h)
  }

  /** A buried claim is final. The engine reads the tip first (in chain state `i`) and the form reads
      the claim height later (in state `j`). If the depth computed from the two reaches CLAIM_MARGIN
      then in every later state the claim is still mined at that height, at least that deep. */
  lemma BuriedClaimIsFinal(cfg: Config, cs: seq<Chain>, i: nat, j: nat, m: nat, tx: Hex, h: int)
    requires CheckConfig(cfg).None? && CoversReorgs(cfg) && ReadAsBuried(cfg, cs, i, j, m, tx, h)
    ensures Mined(cs[m], tx, h) && DepthAt(TipHeight(cs[m]), h) >= cfg.claimMargin
  {
    TipNeverFalls(cfg.maxReorgDepth, cs, i, j);
    DeepStaysMined(cfg.maxReorgDepth, cs, j, m, tx, h);
  }

  ghost predicate BurialIsFinal(cfg: Config) {
    forall cs: seq<Chain>, i: nat, j: nat, m: nat, tx: Hex, h: int :: ReadAsBuried(cfg, cs, i, j, m, tx, h) ==>
      Mined(cs[m], tx, h) && DepthAt(TipHeight(cs[m]), h) >= cfg.claimMargin
  }

  /** Of all the configurations the constructor accepts, burial as the engine reads it is final under
      exactly those that cover the tolerated reorganisations, which the constructor does not check. */
  lemma BurialIsFinalIff(cfg: Config)
    requires CheckConfig(cfg).None?
    ensures BurialIsFinal(cfg) <==> CoversReorgs(cfg)
  {
    if CoversReorgs(cfg) {
      forall cs: seq<Chain>, i: nat, j: nat, m: nat, tx: Hex, h: int | ReadAsBuried(cfg, cs, i, j, m, tx, h)
        ensures Mined(cs[m], tx, h) && DepthAt(TipHeight(cs[m]), h) >= cfg.claimMargin
      {
        BuriedClaimIsFinal(cfg, cs, i, j, m, tx, h);
      }
    } else {
      var c: Chain := [{""}] + EmptyBlocks(cfg.maxReorgDepth - 1);
      var cs := [c, CutAt(c, 0, 0)];
      CutAdvances(cfg.maxReorgDepth, c, 0, 0, "");
      assert ReadAsBuried(cfg, cs, 0, 0, 1, "", 0) && !Mined(cs[1], "", 0);
    }
  }

  /** No history from `c` ever un-mines the transaction at height `h`. */
  ghost predicate Final(r: int, c: Chain, tx: Hex, h: int) {
    forall cs: seq<Chain> :: cs != [] && cs[0] == c && History(r, cs) ==> Mined(cs[|cs| - 1], tx, h)
  }

  /** The margin is exact: a mined transaction is final exactly when it is deeper than the deepest
      tolerated reorganisation. */
  lemma FinalIffDeep(r: int, c: Chain, tx: Hex, h: int)
    requires Mined(c, tx, h)
    ensures Final(r, c, tx, h) <==> DepthAt(TipHeight(c), h) > r
  {
    if DepthAt(TipHeight(c), h) > r {
      forall cs: seq<Chain> | cs != [] && cs[0] == c && History(r, cs) ensures Mined(cs[|cs| - 1], tx, h) {
        DeepStaysMined(r, cs, 0, |cs| - 1, tx, h);
      }
    } else {
      var cs := [c, CutAt(c, h, 0)];
      CutAdvances(r, c, h, 0, tx);
      assert History(r, cs) && !Mined(cs[|cs| - 1], tx, h);
    }
  }

  /** The same for a claim seen buried in one chain state: it is final under exactly those configurations. */
  lemma MarginCoversReorgs(cfg: Config)
    requires CheckConfig(cfg).None?
    ensures CoversReorgs(cfg) <==>
            forall c: Chain, tx: Hex, h: int ::
              Mined(c, tx, h) && Buried(cfg, TipHeight(c), h) ==> Final(cfg.maxReorgDepth, c, tx, h)
  {
    if CoversReorgs(cfg) {
      forall c: Chain, tx: Hex, h: int | Mined(c, tx, h) && Buried(cfg, TipHeight(c), h)
        ensures Final(cfg.maxReorgDepth, c, tx, h)
      {
        FinalIffDeep(cfg.maxReorgDepth, c, tx, h);
      }
    } else {
      var c: Chain := [{""}] + EmptyBlocks(cfg.maxReorgDepth - 1);
      assert Mined(c, "", 0) && Buried(cfg, TipHeight(c), 0);
      FinalIffDeep(cfg.maxReorgDepth, c, "", 0);
      assert !Final(cfg.maxReorgDepth, c, "", 0);
    }
  }

  /** The order of the two reads matters: had the claim height been read before the tip, a claim that
      a reorganisation removed in between could look as deep as one likes. */
  lemma ReadOrderMatters(cfg: Config, c: Chain, tx: Hex, h: int)
    requires Mined(c, tx, h) && DepthAt(TipHeight(c), h) <= cfg.maxReorgDepth
    ensures exists cs: seq<Chain> :: |cs| == 2 && cs[0] == c && History(cfg.maxReorgDepth, cs)
                                     && Buried(cfg, TipHeight(cs[1]), h) && !Mined(cs[1], tx, h)
  {
    var extra := if cfg.claimMargin > 0 then cfg.claimMargin else 0;
    var cs := [c, CutAt(c, h, extra)];
    CutAdvances(cfg.maxReorgDepth, c, h, extra, tx);
    assert History(cfg.maxReorgDepth, cs) && Buried(cfg, TipHeight(cs[1]), h);
  }
}
