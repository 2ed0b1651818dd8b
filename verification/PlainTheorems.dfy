/** Plain scoring is sound, complete and order-free. */
module PlainTheorems {
  import opened HonorSpec
  import opened Datum
  import opened Chains
  import opened Plain

  // ---- the rules, stated without the spine ----------------------------------------------------------------

  /** The output's datum is honorable and is exactly this quote's id. */
  predicate DatumNames(ctx: Ctx, o: Outpoint) {
    ctx.chain.datumOf(o) == Ok(OutputDatum(Some(ctx.quote.quoteId), true)) && IsQuoteId(ctx.quote.quoteId)
  }

  /** R7, R4: right datum, exact amount, payee's script. What is left is custody, payer and depth. */
  predicate ReachesCustody(ctx: Ctx, c: RawCandidate) {
    DatumNames(ctx, c.outpoint) && c.value == ctx.quote.exferAmount && c.scriptHex == ctx.deriver(ctx.quote.payee)
  }

  predicate PayerKeyedAt(ctx: Ctx, prevouts: seq<Outpoint>, expected: Hex, i: nat) {
    && i < |prevouts| && ctx.chain.scriptOf(prevouts[i]) == Ok(expected)
    && forall k :: 0 <= k < i ==> ctx.chain.scriptOf(prevouts[k]).Ok?
  }

  /** R5 asks for the prevouts: a payer is named, and SOURCE binding or payer funding is configured. */
  predicate NeedsPrevouts(ctx: Ctx) { ctx.quote.payer.Some? && (ctx.cfg.sourceBinding || ctx.cfg.requirePayerFunded) }

  /** R5: no payer to bind, consent binding, or a payer-keyed prevout funds the settlement. */
  ghost predicate PayerBound(ctx: Ctx, txId: Hex) {
    || !NeedsPrevouts(ctx)
    || (ctx.chain.inputsOf(txId).Ok? && exists i: nat ::
          PayerKeyedAt(ctx, ctx.chain.inputsOf(txId).value, ctx.deriver(ctx.quote.payer.value), i))
  }

  predicate DeepEnough(ctx: Ctx, height: Option<int>) {
    height.Some? && DepthAt(ctx.tip, height.value) >= ctx.cfg.confirmationDepth
  }

  /** The candidate satisfies every rule. */
  ghost predicate Passes(ctx: Ctx, c: RawCandidate) {
    && ReachesCustody(ctx, c) && ctx.custody == Some(true) && PayerBound(ctx, c.outpoint.txId)
    && DeepEnough(ctx, c.blockHeight)
  }

  /** No chain query that the spine can make about this candidate throws. */
  ghost predicate Answers(ctx: Ctx, c: RawCandidate) {
    && ctx.chain.datumOf(c.outpoint).Ok?
    && (NeedsPrevouts(ctx) ==>
          && ctx.chain.inputsOf(c.outpoint.txId).Ok?
          && forall o :: o in ctx.chain.inputsOf(c.outpoint.txId).value ==> ctx.chain.scriptOf(o).Ok?)
  }

  ghost predicate ChainAnswers(ctx: Ctx, raw: seq<RawCandidate>) { forall i :: 0 <= i < |raw| ==> Answers(ctx, raw[i]) }

  // ---- one candidate --------------------------------------------------------------------------------------

  lemma {:induction false} ScanMeans(ctx: Ctx, prevouts: seq<Outpoint>, expected: Hex)
    ensures ScanPrevouts(ctx.chain, prevouts, expected).PayerPasses?
            <==> exists i: nat :: PayerKeyedAt(ctx, prevouts, expected, i)
    ensures ScanPrevouts(ctx.chain, prevouts, expected).PayerThrows? ==>
              exists k :: 0 <= k < |prevouts| && ctx.chain.scriptOf(prevouts[k]).Thrown?
    decreases |prevouts|
  {
    if prevouts != [] && ctx.chain.scriptOf(prevouts[0]).Ok? {
      var rest := prevouts[1..];
      ScanMeans(ctx, rest, expected);
      if ctx.chain.scriptOf(prevouts[0]) == Ok(expected) {
        assert PayerKeyedAt(ctx, prevouts, expected, 0);
      } else {
        forall i: nat | PayerKeyedAt(ctx, rest, expected, i) ensures PayerKeyedAt(ctx, prevouts, expected, i + 1) {
        }
        forall i: nat | PayerKeyedAt(ctx, prevouts, expected, i)
          ensures i > 0 && PayerKeyedAt(ctx, rest, expected, i - 1)
        {
          forall k | 0 <= k < i - 1 ensures ctx.chain.scriptOf(rest[k]).Ok? { assert rest[k] == prevouts[k + 1]; }
        }
        if ScanPrevouts(ctx.chain, prevouts, expected).PayerThrows? {
          var k :| 0 <= k < |rest| && ctx.chain.scriptOf(rest[k]).Thrown?;
          assert rest[k] == prevouts[k + 1];
        }
      }
    }
  }

  lemma PayerCheckMeans(ctx: Ctx, txId: Hex)
    ensures CheckPayerBinding(ctx, txId).PayerPasses? <==> PayerBound(ctx, txId)
    ensures CheckPayerBinding(ctx, txId).PayerThrows? ==> NeedsPrevouts(ctx)
    ensures CheckPayerBinding(ctx, txId).PayerThrows? && ctx.chain.inputsOf(txId).Ok? ==>
              exists o :: o in ctx.chain.inputsOf(txId).value && ctx.chain.scriptOf(o).Thrown?
  {
    if ctx.quote.payer.Some? && ctx.chain.inputsOf(txId).Ok? {
      ScanMeans(ctx, ctx.chain.inputsOf(txId).value, ctx.deriver(ctx.quote.payer.value));
    }
  }

  /** The loop accepts a candidate exactly when it satisfies every rule, and carries its facts on. */
  lemma AcceptedIffPasses(ctx: Ctx, c: RawCandidate)
    ensures Judge(ctx, c).Accepted? <==> Passes(ctx, c)
    ensures Judge(ctx, c).Accepted? ==>
              Judge(ctx, c).candidate == Candidate(Form.Plain, ctx.quote.quoteId, c.outpoint, ctx.quote.exferAmount,
                                                   ctx.deriver(ctx.quote.payee), c.blockHeight)
  {
    PayerCheckMeans(ctx, c.outpoint.txId);
  }

  /** With a chain that answers, only unavailable custody faults, for a candidate that reaches it. */
  lemma BrokenIffCustodyUnavailable(ctx: Ctx, c: RawCandidate)
    requires Answers(ctx, c)
    ensures Judge(ctx, c).Broken? <==> ctx.custody.None? && ReachesCustody(ctx, c)
    ensures Judge(ctx, c).Broken? ==> Judge(ctx, c).fault == KeystoreFault
  {
    PayerCheckMeans(ctx, c.outpoint.txId);
  }

  // ---- the whole list -------------------------------------------------------------------------------------

  lemma {:induction false} ExistsFirst(ctx: Ctx, raw: seq<RawCandidate>, n: nat)
    requires n <= |raw| && exists i :: 0 <= i < n && Decisive(Judge(ctx, raw[i]))
    ensures exists i: nat :: i < n && FirstDecisive(ctx, raw, i)
    decreases n
  {
    if exists i :: 0 <= i < n - 1 && Decisive(Judge(ctx, raw[i])) {
      ExistsFirst(ctx, raw, n - 1);
    } else {
      assert FirstDecisive(ctx, raw, n - 1);
    }
  }

  /** With chain and custody answers fixed: the score honors exactly when some candidate satisfies every
      rule, and then returns the earliest such one; it faults exactly when custody is unavailable and
      some candidate gets as far as the custody test. */
  lemma PlainSoundAndComplete(ctx: Ctx, raw: seq<RawCandidate>)
    requires ChainAnswers(ctx, raw)
    ensures PlainScore(ctx, raw) == Faulted(KeystoreFault)
            <==> ctx.custody.None? && exists i :: 0 <= i < |raw| && ReachesCustody(ctx, raw[i])
    ensures PlainScore(ctx, raw).Faulted? ==> PlainScore(ctx, raw) == Faulted(KeystoreFault)
    ensures Honors(PlainScore(ctx, raw)) <==> exists i :: 0 <= i < |raw| && Passes(ctx, raw[i])
    ensures forall i :: 0 <= i < |raw| && Passes(ctx, raw[i]) && (forall k :: 0 <= k < i ==> !Passes(ctx, raw[k])) ==>
              PlainScore(ctx, raw) == Scored(Honor(Candidate(Form.Plain, ctx.quote.quoteId, raw[i].outpoint,
                                                             ctx.quote.exferAmount, ctx.deriver(ctx.quote.payee),
                                                             raw[i].blockHeight)))
  {
    forall i | 0 <= i < |raw|
      ensures var c := raw[i];
              && (Judge(ctx, c).Accepted? <==> Passes(ctx, c))
              && (Judge(ctx, c).Accepted? ==>
                    Judge(ctx, c).candidate == Candidate(Form.Plain, ctx.quote.quoteId, c.outpoint,
                                                         ctx.quote.exferAmount, ctx.deriver(ctx.quote.payee),
                                                         c.blockHeight))
              && (Judge(ctx, c).Broken? <==> ctx.custody.None? && ReachesCustody(ctx, c))
              && (Judge(ctx, c).Broken? ==> Judge(ctx, c).fault == KeystoreFault)
    {
      AcceptedIffPasses(ctx, raw[i]);
      BrokenIffCustodyUnavailable(ctx, raw[i]);
    }
    ScoreByFirst(ctx, raw);
  }

  ghost predicate HasAccepted(ctx: Ctx, raw: seq<RawCandidate>) {
    exists i :: 0 <= i < |raw| && Judge(ctx, raw[i]).Accepted?
  }

  ghost predicate HasBroken(ctx: Ctx, raw: seq<RawCandidate>) {
    exists i :: 0 <= i < |raw| && Judge(ctx, raw[i]).Broken?
  }

  predicate Honors(r: ScoreResult) { r.Scored? && r.verdict.Honor? }

  /** Honors or faults by the first decisive candidate, and neither when there is none. */
  lemma ScoreByFirst(ctx: Ctx, raw: seq<RawCandidate>)
    ensures Honors(PlainScore(ctx, raw)) ==> HasAccepted(ctx, raw)
    ensures PlainScore(ctx, raw).Faulted? ==>
              exists i :: 0 <= i < |raw| && Judge(ctx, raw[i]) == Broken(PlainScore(ctx, raw).fault)
    ensures HasAccepted(ctx, raw) && !HasBroken(ctx, raw) ==> Honors(PlainScore(ctx, raw))
    ensures HasBroken(ctx, raw) && !HasAccepted(ctx, raw) ==> PlainScore(ctx, raw).Faulted?
    ensures forall i: nat :: FirstDecisive(ctx, raw, i) && Judge(ctx, raw[i]).Accepted? ==>
              PlainScore(ctx, raw) == Scored(Honor(Judge(ctx, raw[i]).candidate))
  {
    PlainScoreMeans(ctx, raw);
    if exists i :: 0 <= i < |raw| && Decisive(Judge(ctx, raw[i])) {
      ExistsFirst(ctx, raw, |raw|);
    } else {
      NeitherScore(ctx, raw, Wait(NoCandidate));
    }
  }

  lemma {:induction false} NeitherScore(ctx: Ctx, raw: seq<RawCandidate>, last: Verdict)
    requires !last.Honor? && forall k :: 0 <= k < |raw| ==> !Decisive(Judge(ctx, raw[k]))
    ensures ScoreFrom(ctx, raw, last).Scored? && !ScoreFrom(ctx, raw, last).verdict.Honor?
    decreases |raw|
  {
    if raw != [] {
      NeitherScore(ctx, raw[1..], if Judge(ctx, raw[0]).Refused? then Judge(ctx, raw[0]).verdict else last);
    }
  }

  // ---- order ----------------------------------------------------------------------------------------------

  predicate SameKind(a: ScoreResult, b: ScoreResult) { (Honors(a) <==> Honors(b)) && (a.Faulted? <==> b.Faulted?) }

  ghost predicate OrderFree(ctx: Ctx, raw: seq<RawCandidate>) {
    forall other: seq<RawCandidate> :: multiset(other) == multiset(raw) ==>
      SameKind(PlainScore(ctx, other), PlainScore(ctx, raw))
  }

  lemma SameMembers(ctx: Ctx, a: seq<RawCandidate>, b: seq<RawCandidate>)
    requires multiset(a) == multiset(b)
    ensures HasAccepted(ctx, a) ==> HasAccepted(ctx, b)
    ensures HasBroken(ctx, a) ==> HasBroken(ctx, b)
  {
    forall i | 0 <= i < |a| ensures a[i] in b {
      assert a[i] in multiset(a);
      assert a[i] in multiset(b);
    }
  }

  function ToFront(raw: seq<RawCandidate>, i: nat): seq<RawCandidate>
    requires i < |raw|
  {
    [raw[i]] + raw[..i] + raw[i + 1..]
  }

  lemma ToFrontPermutes(raw: seq<RawCandidate>, i: nat)
    requires i < |raw|
    ensures multiset(ToFront(raw, i)) == multiset(raw)
  {
    assert raw == raw[..i] + [raw[i]] + raw[i + 1..];
  }

  /** Whether a list of candidates honors, faults or does neither does not depend on its order, exactly
      when it does not hold both an acceptable candidate and one whose chain queries throw. */
  lemma OrderFreeIff(ctx: Ctx, raw: seq<RawCandidate>)
    ensures OrderFree(ctx, raw) <==> !(HasAccepted(ctx, raw) && HasBroken(ctx, raw))
  {
    if HasAccepted(ctx, raw) && HasBroken(ctx, raw) {
      var i :| 0 <= i < |raw| && Judge(ctx, raw[i]).Accepted?;
      var j :| 0 <= j < |raw| && Judge(ctx, raw[j]).Broken?;
      ToFrontPermutes(raw, i);
      ToFrontPermutes(raw, j);
      assert Honors(PlainScore(ctx, ToFront(raw, i))) && PlainScore(ctx, ToFront(raw, j)).Faulted?;
    } else {
      forall other: seq<RawCandidate> | multiset(other) == multiset(raw)
        ensures SameKind(PlainScore(ctx, other), PlainScore(ctx, raw))
      {
        SameMembers(ctx, other, raw);
        SameMembers(ctx, raw, other);
        KindByMembers(ctx, raw);
        KindByMembers(ctx, other);
      }
    }
  }

  lemma KindByMembers(ctx: Ctx, raw: seq<RawCandidate>)
    requires !(HasAccepted(ctx, raw) && HasBroken(ctx, raw))
    ensures Honors(PlainScore(ctx, raw)) <==> HasAccepted(ctx, raw)
    ensures PlainScore(ctx, raw).Faulted? <==> HasBroken(ctx, raw)
  {
    ScoreByFirst(ctx, raw);
  }

  /** In particular, when every chain query is answered the order never matters. */
  lemma OrderFreeWhenAnswered(ctx: Ctx, raw: seq<RawCandidate>)
    requires ChainAnswers(ctx, raw)
    ensures OrderFree(ctx, raw)
  {
    OrderFreeIff(ctx, raw);
    if HasAccepted(ctx, raw) && HasBroken(ctx, raw) {
      var i :| 0 <= i < |raw| && Judge(ctx, raw[i]).Accepted?;
      var j :| 0 <= j < |raw| && Judge(ctx, raw[j]).Broken?;
      AcceptedIffPasses(ctx, raw[i]);
      BrokenIffCustodyUnavailable(ctx, raw[j]);
    }
  }

  // ---- refusals, by the rules -----------------------------------------------------------------------------

  /** The candidate carries another well-formed quote id. */
  predicate Foreign(ctx: Ctx, c: RawCandidate) {
    match ctx.chain.datumOf(c.outpoint)
    case Ok(OutputDatum(Some(id), true)) => IsQuoteId(id) && id != ctx.quote.quoteId
    case _ => false
  }

  /** All that is missing is depth. */
  ghost predicate Shallow(ctx: Ctx, c: RawCandidate) {
    && ReachesCustody(ctx, c) && ctx.custody == Some(true) && PayerBound(ctx, c.outpoint.txId)
    && !DeepEnough(ctx, c.blockHeight)
  }

  /** The rule this candidate breaks first. */
  ghost predicate BreaksRule(ctx: Ctx, c: RawCandidate, reason: DeclineReason) {
    match reason
    case DatumUnhonorable => !DatumNames(ctx, c.outpoint) && !Foreign(ctx, c)
    case AmountMismatch => DatumNames(ctx, c.outpoint) && c.value != ctx.quote.exferAmount
    case AddressMismatch =>
      DatumNames(ctx, c.outpoint) && c.value == ctx.quote.exferAmount && c.scriptHex != ctx.deriver(ctx.quote.payee)
    case PayeeNotControlled => ReachesCustody(ctx, c) && ctx.custody == Some(false)
    case PayerBindingFailed =>
      ReachesCustody(ctx, c) && ctx.custody == Some(true) && !PayerBound(ctx, c.outpoint.txId)
    case _ => false
  }

  // ---- failing queries ------------------------------------------------------------------------------------

  /** Script lookup `i` is the first the payer scan needs that fails: those before it answer, and not with the
      payer's script. */
  ghost predicate LookupFails(ctx: Ctx, prevouts: seq<Outpoint>, expected: Hex, f: Fault, i: nat) {
    && i < |prevouts| && ctx.chain.scriptOf(prevouts[i]) == Thrown(f)
    && forall k :: 0 <= k < i ==>
         ctx.chain.scriptOf(prevouts[k]).Ok? && ctx.chain.scriptOf(prevouts[k]) != Ok(expected)
  }

  /** The first query that the rules need for this candidate and that fails, fails with `f`: its datum; custody,
      once datum, amount and script fit; then, where R5 asks, the prevouts and the scripts in their order. */
  ghost predicate QueryFails(ctx: Ctx, c: RawCandidate, f: Fault) {
    || ctx.chain.datumOf(c.outpoint) == Thrown(f)
    || (ReachesCustody(ctx, c) && ctx.custody == None && f == KeystoreFault)
    || (ReachesCustody(ctx, c) && ctx.custody == Some(true) && NeedsPrevouts(ctx)
        && PrevoutsFail(ctx, c.outpoint.txId, f))
  }

  ghost predicate PrevoutsFail(ctx: Ctx, txId: Hex, f: Fault)
    requires ctx.quote.payer.Some?
  {
    match ctx.chain.inputsOf(txId)
    case Thrown(g) => g == f
    case Ok(prevouts) => exists i: nat :: LookupFails(ctx, prevouts, ctx.deriver(ctx.quote.payer.value), f, i)
  }

  lemma {:induction false} ScanThrows(ctx: Ctx, prevouts: seq<Outpoint>, expected: Hex, f: Fault)
    ensures ScanPrevouts(ctx.chain, prevouts, expected) == PayerThrows(f)
            <==> exists i: nat :: LookupFails(ctx, prevouts, expected, f, i)
    decreases |prevouts|
  {
    if prevouts != [] {
      var rest := prevouts[1..];
      ScanThrows(ctx, rest, expected, f);
      if ctx.chain.scriptOf(prevouts[0]) == Thrown(f) { assert LookupFails(ctx, prevouts, expected, f, 0); }
      forall i: nat | LookupFails(ctx, prevouts, expected, f, i) && i > 0
        ensures LookupFails(ctx, rest, expected, f, i - 1)
      {
        assert forall k :: 0 <= k < i - 1 ==> rest[k] == prevouts[k + 1];
      }
      forall i: nat | LookupFails(ctx, rest, expected, f, i) && ctx.chain.scriptOf(prevouts[0]).Ok?
                      && ctx.chain.scriptOf(prevouts[0]) != Ok(expected)
        ensures LookupFails(ctx, prevouts, expected, f, i + 1)
      {
        assert forall k :: 0 < k <= i ==> prevouts[k] == rest[k - 1];
      }
    }
  }

  /** A candidate faults with `f` if and only if the first query it needs that fails, fails with `f`. */
  lemma BrokenIffQueryFails(ctx: Ctx, c: RawCandidate, f: Fault)
    ensures Judge(ctx, c) == Broken(f) <==> QueryFails(ctx, c, f)
  {
    if NeedsPrevouts(ctx) && ctx.chain.inputsOf(c.outpoint.txId).Ok? {
      ScanThrows(ctx, ctx.chain.inputsOf(c.outpoint.txId).value, ctx.deriver(ctx.quote.payer.value), f);
    }
  }

  ghost predicate SomeQueryFails(ctx: Ctx, c: RawCandidate) { exists f :: QueryFails(ctx, c, f) }

  /** Every judgement, by the rules and with no assumption on the answers: a failing query is a fault and
      never a skip, a wait or a decline, and otherwise the rules decide. */
  lemma JudgedByRule(ctx: Ctx, c: RawCandidate)
    ensures Judge(ctx, c).Accepted? <==> Passes(ctx, c)
    ensures Judge(ctx, c).Broken? <==> SomeQueryFails(ctx, c)
    ensures Judge(ctx, c).Skipped? <==> Foreign(ctx, c)
    ensures Judge(ctx, c) == Refused(Wait(InsufficientDepth)) <==> Shallow(ctx, c)
    ensures forall reason ::
              Judge(ctx, c) == Refused(Decline(reason)) <==> BreaksRule(ctx, c, reason) && !SomeQueryFails(ctx, c)
    ensures Judge(ctx, c).Refused? ==>
              Judge(ctx, c).verdict.Decline? || Judge(ctx, c).verdict == Wait(InsufficientDepth)
  {
    PayerCheckMeans(ctx, c.outpoint.txId);
    AcceptedIffPasses(ctx, c);
    forall f ensures Judge(ctx, c) == Broken(f) <==> QueryFails(ctx, c, f) { BrokenIffQueryFails(ctx, c, f); }
    assert Judge(ctx, c).Broken? ==> QueryFails(ctx, c, Judge(ctx, c).fault);
  }

  /** One candidate is skipped, waited for or declined exactly as the rules say, when chain and custody answer. */
  lemma RefusedByRule(ctx: Ctx, c: RawCandidate)
    requires Answers(ctx, c) && ctx.custody.Some?
    ensures Judge(ctx, c).Skipped? <==> Foreign(ctx, c)
    ensures Judge(ctx, c) == Refused(Wait(InsufficientDepth)) <==> Shallow(ctx, c)
    ensures forall reason :: Judge(ctx, c) == Refused(Decline(reason)) <==> BreaksRule(ctx, c, reason)
    ensures Judge(ctx, c).Refused? <==> !Foreign(ctx, c) && !Passes(ctx, c)
  {
    JudgedByRule(ctx, c);
    BrokenIffCustodyUnavailable(ctx, c);
  }

  /** Candidate `i` is the first that either passes or has a query fail. */
  ghost predicate Decides(ctx: Ctx, raw: seq<RawCandidate>, i: nat) {
    && i < |raw| && (Passes(ctx, raw[i]) || SomeQueryFails(ctx, raw[i]))
    && forall k :: 0 <= k < i ==> !Passes(ctx, raw[k]) && !SomeQueryFails(ctx, raw[k])
  }

  /** The score of any list over any answers, by the rules: the first candidate that passes or has a query fail
      decides, with its facts or with that query's fault; failing that the last of this quote's
      candidates, by depth or by the first rule it breaks; failing that there is none. */
  lemma ScoredByRule(ctx: Ctx, raw: seq<RawCandidate>)
    ensures forall i: nat, f: Fault :: Decides(ctx, raw, i) && QueryFails(ctx, raw[i], f) ==>
              PlainScore(ctx, raw) == Faulted(f)
    ensures forall i: nat :: Decides(ctx, raw, i) && Passes(ctx, raw[i]) ==>
              PlainScore(ctx, raw) == Scored(Honor(Candidate(Form.Plain, ctx.quote.quoteId, raw[i].outpoint,
                                                             ctx.quote.exferAmount, ctx.deriver(ctx.quote.payee),
                                                             raw[i].blockHeight)))
    ensures (forall i: nat :: !Decides(ctx, raw, i)) ==>
              && (forall i: nat :: LastOwn(ctx, raw, i) && Shallow(ctx, raw[i]) ==>
                    PlainScore(ctx, raw) == Scored(Wait(InsufficientDepth)))
              && (forall i: nat, reason :: LastOwn(ctx, raw, i) && BreaksRule(ctx, raw[i], reason) ==>
                    PlainScore(ctx, raw) == Scored(Decline(reason)))
              && ((forall k :: 0 <= k < |raw| ==> Foreign(ctx, raw[k])) ==>
                    PlainScore(ctx, raw) == Scored(Wait(NoCandidate)))
  {
    PlainScoreMeans(ctx, raw);
    forall k | 0 <= k < |raw|
      ensures Decisive(Judge(ctx, raw[k])) <==> Passes(ctx, raw[k]) || SomeQueryFails(ctx, raw[k])
    {
      JudgedByRule(ctx, raw[k]);
    }
    forall i: nat | Decides(ctx, raw, i) ensures FirstDecisive(ctx, raw, i) { }
    forall i: nat, f: Fault | Decides(ctx, raw, i) && QueryFails(ctx, raw[i], f)
      ensures PlainScore(ctx, raw) == Faulted(f)
    {
      BrokenIffQueryFails(ctx, raw[i], f);
    }
    forall i: nat | Decides(ctx, raw, i) && Passes(ctx, raw[i])
      ensures Judge(ctx, raw[i]).Accepted?
    {
      AcceptedIffPasses(ctx, raw[i]);
    }
    if forall i: nat :: !Decides(ctx, raw, i) { UndecidedList(ctx, raw); }
  }

  lemma {:induction false} NoneDecides(ctx: Ctx, raw: seq<RawCandidate>, n: nat)
    requires n <= |raw| && forall i: nat :: !Decides(ctx, raw, i)
    ensures forall k :: 0 <= k < n ==> !Passes(ctx, raw[k]) && !SomeQueryFails(ctx, raw[k])
  {
    if n > 0 {
      NoneDecides(ctx, raw, n - 1);
      assert !Decides(ctx, raw, n - 1);
    }
  }

  lemma UndecidedList(ctx: Ctx, raw: seq<RawCandidate>)
    requires forall i: nat :: !Decides(ctx, raw, i)
    ensures forall i: nat :: LastOwn(ctx, raw, i) && Shallow(ctx, raw[i]) ==>
              PlainScore(ctx, raw) == Scored(Wait(InsufficientDepth))
    ensures forall i: nat, reason :: LastOwn(ctx, raw, i) && BreaksRule(ctx, raw[i], reason) ==>
              PlainScore(ctx, raw) == Scored(Decline(reason))
    ensures (forall k :: 0 <= k < |raw| ==> Foreign(ctx, raw[k])) ==> PlainScore(ctx, raw) == Scored(Wait(NoCandidate))
  {
    NoneDecides(ctx, raw, |raw|);
    PlainScoreMeans(ctx, raw);
    forall k | 0 <= k < |raw|
      ensures !Decisive(Judge(ctx, raw[k])) && (Judge(ctx, raw[k]).Skipped? <==> Foreign(ctx, raw[k]))
    {
      JudgedByRule(ctx, raw[k]);
    }
    forall i: nat | LastOwn(ctx, raw, i) ensures LastRefused(ctx, raw, i) { }
    forall i: nat | LastOwn(ctx, raw, i) && Shallow(ctx, raw[i])
      ensures Judge(ctx, raw[i]) == Refused(Wait(InsufficientDepth))
    {
      JudgedByRule(ctx, raw[i]);
    }
    forall i: nat, reason | LastOwn(ctx, raw, i) && BreaksRule(ctx, raw[i], reason)
      ensures Judge(ctx, raw[i]) == Refused(Decline(reason))
    {
      JudgedByRule(ctx, raw[i]);
    }
  }

  /** Candidate `i` is the last that does not carry another quote id. */
  predicate LastOwn(ctx: Ctx, raw: seq<RawCandidate>, i: nat) {
    i < |raw| && !Foreign(ctx, raw[i]) && forall k :: i < k < |raw| ==> Foreign(ctx, raw[k])
  }

  /** The verdict of a list in which nothing passes, when chain and custody answer: the last candidate of
      this quote decides alone. The list waits for depth exactly when that one is shallow, and is declined
      exactly when it breaks a rule, with the first rule it breaks, whatever came before it. */
  lemma RefusedList(ctx: Ctx, raw: seq<RawCandidate>, i: nat)
    requires ChainAnswers(ctx, raw) && ctx.custody.Some? && LastOwn(ctx, raw, i)
    requires forall k :: 0 <= k < |raw| ==> !Passes(ctx, raw[k])
    ensures PlainScore(ctx, raw) == Scored(Wait(InsufficientDepth)) <==> Shallow(ctx, raw[i])
    ensures forall reason :: PlainScore(ctx, raw) == Scored(Decline(reason)) <==> BreaksRule(ctx, raw[i], reason)
    ensures PlainScore(ctx, raw).Scored? && (PlainScore(ctx, raw).verdict.Decline? <==> !Shallow(ctx, raw[i]))
  {
    forall k | 0 <= k < |raw|
      ensures !Decisive(Judge(ctx, raw[k])) && (Judge(ctx, raw[k]).Skipped? <==> Foreign(ctx, raw[k]))
    {
      AcceptedIffPasses(ctx, raw[k]);
      BrokenIffCustodyUnavailable(ctx, raw[k]);
      RefusedByRule(ctx, raw[k]);
    }
    RefusedByRule(ctx, raw[i]);
    assert LastRefused(ctx, raw, i);
    PlainScoreMeans(ctx, raw);
  }

  /** With nothing but other quotes' candidates there is no candidate. */
  lemma ForeignList(ctx: Ctx, raw: seq<RawCandidate>)
    requires ChainAnswers(ctx, raw) && ctx.custody.Some? && forall k :: 0 <= k < |raw| ==> Foreign(ctx, raw[k])
    ensures PlainScore(ctx, raw) == Scored(Wait(NoCandidate))
  {
    forall k | 0 <= k < |raw| ensures Judge(ctx, raw[k]).Skipped? { RefusedByRule(ctx, raw[k]); }
    PlainScoreMeans(ctx, raw);
  }

  /** So a valid payment that only lacks depth is declined for good, although it is in the list, exactly when
      the last candidate of its quote is not itself shallow. */
  lemma ShallowDeclinedIff(ctx: Ctx, raw: seq<RawCandidate>, s: nat, i: nat)
    requires ChainAnswers(ctx, raw) && s < |raw| && Shallow(ctx, raw[s]) && LastOwn(ctx, raw, i)
    requires forall k :: 0 <= k < |raw| ==> !Passes(ctx, raw[k])
    ensures PlainScore(ctx, raw).Scored? && (PlainScore(ctx, raw).verdict.Decline? <==> !Shallow(ctx, raw[i]))
  {
    RefusedList(ctx, raw, i);
  }

  /** For one, a payment that only lacks depth is declined when a sibling with the wrong amount follows
      it, and waits when the sibling comes first. */
  lemma ShallowCanBeDeclined(ctx: Ctx, shallow: RawCandidate, sibling: RawCandidate)
    requires ReachesCustody(ctx, shallow) && ctx.custody == Some(true) && PayerBound(ctx, shallow.outpoint.txId)
    requires !DeepEnough(ctx, shallow.blockHeight)
    requires DatumNames(ctx, sibling.outpoint) && sibling.value != ctx.quote.exferAmount
    ensures PlainScore(ctx, [shallow, sibling]) == Scored(Decline(AmountMismatch))
    ensures PlainScore(ctx, [sibling, shallow]) == Scored(Wait(InsufficientDepth))
  {
    PayerCheckMeans(ctx, shallow.outpoint.txId);
    assert Judge(ctx, shallow) == Refused(Wait(InsufficientDepth));
    assert Judge(ctx, sibling) == Refused(Decline(AmountMismatch));
    PlainScoreMeans(ctx, [shallow, sibling]);
    PlainScoreMeans(ctx, [sibling, shallow]);
    assert LastRefused(ctx, [shallow, sibling], 1) && LastRefused(ctx, [sibling, shallow], 1);
  }
}
