/** The binding spine (src/forms/spine.ts) and the plain form's candidate loop (src/forms/plain.ts). */
module Plain {
  import opened HonorSpec
  import opened Datum
  import opened Chains

  /** The answer of a port that may throw. */
  datatype Answer<+T> = Ok(value: T) | Thrown(fault: Fault)

  datatype OutputDatum = OutputDatum(quoteIdHex: Option<Hex>, honorable: bool)

  /** What the ChainSource answers while a quote is scored. */
  datatype ChainFacts = ChainFacts(
    datumOf: Outpoint -> Answer<OutputDatum>,
    inputsOf: Hex -> Answer<seq<Outpoint>>,
    scriptOf: Outpoint -> Answer<Hex>)

  /** The scoring context; `custody` is None when the custody test is unavailable and `deriver` maps a
      public key to its address script. */
  datatype Ctx = Ctx(
    quote: AcceptedQuote,
    tip: int,
    cfg: Config,
    deriver: Hex -> Hex,
    custody: Option<bool>,
    chain: ChainFacts)

  // ---- the spine ------------------------------------------------------------------------------------------

  datatype PayerCheck = PayerPasses | PayerFails | PayerThrows(fault: Fault)

  /** Scan the prevouts in order for one scripted to the payer. */
  function ScanPrevouts(chain: ChainFacts, prevouts: seq<Outpoint>, expected: Hex): PayerCheck {
    if prevouts == [] then PayerFails
    else match chain.scriptOf(prevouts[0])
      case Thrown(f) => PayerThrows(f)
      case Ok(script) => if script == expected then PayerPasses else ScanPrevouts(chain, prevouts[1..], expected)
  }

  predicate UsesSource(cfg: Config) { cfg.sourceBinding || cfg.requirePayerFunded }

  function CheckPayerBinding(ctx: Ctx, txId: Hex): PayerCheck {
    if ctx.quote.payer.None? || !UsesSource(ctx.cfg) then PayerPasses
    else match ctx.chain.inputsOf(txId)
      case Thrown(f) => PayerThrows(f)
      case Ok(prevouts) => ScanPrevouts(ctx.chain, prevouts, ctx.deriver(ctx.quote.payer.value))
  }

  datatype SpineResult =
    | SpineDecline(reason: DeclineReason)
    | Skip
    | SpineOk(candidate: Candidate)
    | SpineThrows(fault: Fault)

  function RunBindingSpine(ctx: Ctx, raw: RawCandidate): SpineResult {
    match ctx.chain.datumOf(raw.outpoint)
    case Thrown(f) => SpineThrows(f)
    case Ok(datum) =>
      if !datum.honorable || datum.quoteIdHex.None? then SpineDecline(DatumUnhonorable)
      else
        var decoded := DecodeSettlementDatum(datum.quoteIdHex.value, SETTLEMENT_DATUM_VERSION);
        if decoded.Rejected? then SpineDecline(DatumUnhonorable)
        else if decoded.quoteId != ctx.quote.quoteId then Skip
        else if raw.value != ctx.quote.exferAmount then SpineDecline(AmountMismatch)
        else if raw.scriptHex != ctx.deriver(ctx.quote.payee) then SpineDecline(AddressMismatch)
        else if ctx.custody.None? then SpineThrows(KeystoreFault)
        else if !ctx.custody.value then SpineDecline(PayeeNotControlled)
        else match CheckPayerBinding(ctx, raw.outpoint.txId)
          case PayerThrows(f) => SpineThrows(f)
          case PayerFails => SpineDecline(PayerBindingFailed)
          case PayerPasses =>
            SpineOk(Candidate(Form.Plain, ctx.quote.quoteId, raw.outpoint, raw.value, raw.scriptHex, raw.blockHeight))
  }

  function DepthGate(ctx: Ctx, c: Candidate): Verdict {
    if c.blockHeight.None? then Wait(InsufficientDepth)
    else if ctx.tip - c.blockHeight.value + 1 < ctx.cfg.confirmationDepth then Wait(InsufficientDepth)
    else Honor(c)
  }

  // ---- the candidate loop ---------------------------------------------------------------------------------

  datatype ScoreResult = Scored(verdict: Verdict) | Faulted(fault: Fault)

  /** What the loop does with one candidate. */
  datatype Judgement = Skipped | Refused(verdict: Verdict) | Accepted(candidate: Candidate) | Broken(fault: Fault)

  function Judge(ctx: Ctx, raw: RawCandidate): Judgement {
    match RunBindingSpine(ctx, raw)
    case SpineThrows(f) => Broken(f)
    case Skip => Skipped
    case SpineDecline(reason) => Refused(Decline(reason))
    case SpineOk(c) => if DepthGate(ctx, c).Honor? then Accepted(c) else Refused(DepthGate(ctx, c))
  }

  function ScoreFrom(ctx: Ctx, raw: seq<RawCandidate>, last: Verdict): ScoreResult
    decreases |raw|
  {
    if raw == [] then Scored(last)
    else match Judge(ctx, raw[0])
      case Skipped => ScoreFrom(ctx, raw[1..], last)
      case Refused(v) => ScoreFrom(ctx, raw[1..], v)
      case Accepted(c) => Scored(Honor(c))
      case Broken(f) => Faulted(f)
  }

  function PlainScore(ctx: Ctx, raw: seq<RawCandidate>): ScoreResult { ScoreFrom(ctx, raw, Wait(NoCandidate)) }

  /** PlainOutputForm.score: the loop over candidates with its two locals. */
  method Score(ctx: Ctx, raw: seq<RawCandidate>) returns (r: ScoreResult)
    ensures r == PlainScore(ctx, raw)
  {
    if |raw| == 0 { return Scored(Wait(NoCandidate)); }
    var lastDecline: Option<Verdict> := None;
    var sawSkippedOnly := true;
    for i := 0 to |raw|
      invariant sawSkippedOnly <==> lastDecline.None?
      invariant PlainScore(ctx, raw)
             == ScoreFrom(ctx, raw[i..], if lastDecline.Some? then lastDecline.value else Wait(NoCandidate))
    {
      assert raw[i..][1..] == raw[i + 1..];
      var spine := RunBindingSpine(ctx, raw[i]);
      if spine.SpineThrows? { return Faulted(spine.fault); }
      if spine.Skip? { continue; }
      sawSkippedOnly := false;
      if spine.SpineDecline? {
        lastDecline := Some(Decline(spine.reason));
        continue;
      }
      var depthVerdict := DepthGate(ctx, spine.candidate);
      if depthVerdict.Honor? { return Scored(depthVerdict); }
      lastDecline := Some(depthVerdict);
    }
    if lastDecline.Some? { return Scored(lastDecline.value); }
    return Scored(Wait(NoCandidate));
  }

  // ---- what the loop computes -----------------------------------------------------------------------------

  predicate Decisive(j: Judgement) { j.Accepted? || j.Broken? }

  ghost predicate FirstDecisive(ctx: Ctx, raw: seq<RawCandidate>, i: nat) {
    i < |raw| && Decisive(Judge(ctx, raw[i])) && forall k :: 0 <= k < i ==> !Decisive(Judge(ctx, raw[k]))
  }

  predicate AllSkipped(ctx: Ctx, raw: seq<RawCandidate>) {
    forall k :: 0 <= k < |raw| ==> Judge(ctx, raw[k]).Skipped?
  }

  ghost predicate LastRefused(ctx: Ctx, raw: seq<RawCandidate>, i: nat) {
    i < |raw| && Judge(ctx, raw[i]).Refused? && forall k :: i < k < |raw| ==> Judge(ctx, raw[k]).Skipped?
  }

  lemma {:induction false} ScoreFromMeans(ctx: Ctx, raw: seq<RawCandidate>, last: Verdict)
    ensures forall i: nat :: FirstDecisive(ctx, raw, i) ==>
              ScoreFrom(ctx, raw, last) == match Judge(ctx, raw[i])
                case Accepted(c) => Scored(Honor(c))
                case Broken(f) => Faulted(f)
                case _ => Scored(last)
    ensures (forall k :: 0 <= k < |raw| ==> !Decisive(Judge(ctx, raw[k]))) ==>
              && (forall i: nat :: LastRefused(ctx, raw, i) ==>
                    ScoreFrom(ctx, raw, last) == Scored(Judge(ctx, raw[i]).verdict))
              && (AllSkipped(ctx, raw) ==> ScoreFrom(ctx, raw, last) == Scored(last))
    decreases |raw|
  {
    if raw != [] {
      var rest := raw[1..];
      var next := if Judge(ctx, raw[0]).Refused? then Judge(ctx, raw[0]).verdict else last;
      ScoreFromMeans(ctx, rest, next);
      forall i: nat | FirstDecisive(ctx, raw, i) && i > 0 ensures FirstDecisive(ctx, rest, i - 1) {
        forall k | 0 <= k < i - 1 ensures !Decisive(Judge(ctx, rest[k])) { assert rest[k] == raw[k + 1]; }
      }
      forall i: nat | LastRefused(ctx, raw, i) && i > 0 ensures LastRefused(ctx, rest, i - 1) {
        forall k | i - 1 < k < |rest| ensures Judge(ctx, rest[k]).Skipped? { assert rest[k] == raw[k + 1]; }
      }
      assert forall k :: 0 <= k < |rest| ==> rest[k] == raw[k + 1];
    }
  }

  /** The loop returns the earliest acceptance or fault; failing both, the last verdict that was not a
      skip, a later decline overwriting an earlier wait; failing that, no_candidate. */
  lemma PlainScoreMeans(ctx: Ctx, raw: seq<RawCandidate>)
    ensures forall i: nat :: FirstDecisive(ctx, raw, i) && Judge(ctx, raw[i]).Accepted? ==>
              PlainScore(ctx, raw) == Scored(Honor(Judge(ctx, raw[i]).candidate))
    ensures forall i: nat :: FirstDecisive(ctx, raw, i) && Judge(ctx, raw[i]).Broken? ==>
              PlainScore(ctx, raw) == Faulted(Judge(ctx, raw[i]).fault)
    ensures (forall k :: 0 <= k < |raw| ==> !Decisive(Judge(ctx, raw[k]))) ==>
              && (forall i: nat :: LastRefused(ctx, raw, i) ==>
                    PlainScore(ctx, raw) == Scored(Judge(ctx, raw[i]).verdict))
              && (AllSkipped(ctx, raw) ==> PlainScore(ctx, raw) == Scored(Wait(NoCandidate)))
  {
    ScoreFromMeans(ctx, raw, Wait(NoCandidate));
  }
}
