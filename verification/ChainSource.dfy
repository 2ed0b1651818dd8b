/** IndexerChainSource (src/adapters/indexer-chain.ts): candidates, prevouts and scripts cut out of raw
    transaction hex, and the plain verdict that results. */
module ChainSource {
  import opened HonorSpec
  import opened Datum
  import opened LittleEndian
  import opened TxCodec
  import opened WireDecoder
  import opened Plain
  import opened PlainTheorems

  // ---- the RPC answers ------------------------------------------------------------------------------------

  datatype TxStatus = TxStatus(txHex: string, blockHeight: Option<int>)

  datatype RawDatum = RawDatum(quoteId: Option<Hex>, unhonorable: bool)

  /** What the node and the indexer answer, or throw; None is a null `get_transaction`. */
  datatype Rpc = Rpc(
    getTransaction: Hex -> Answer<Option<TxStatus>>,
    getOutputDatum: Outpoint -> Answer<RawDatum>,
    findSettlements: Hex -> Answer<seq<Outpoint>>)

  // ---- the adapter ----------------------------------------------------------------------------------------

  /** The indexer's flag is negated, and a missing quote id is never honorable. */
  function DatumOf(rpc: Rpc, o: Outpoint): Answer<OutputDatum> {
    match rpc.getOutputDatum(o)
    case Thrown(f) => Thrown(f)
    case Ok(r) => Ok(OutputDatum(r.quoteId, !r.unhonorable && r.quoteId.Some?))
  }

  /** The decoded output, with the height of its transaction. */
  datatype PlacedOutput = PlacedOutput(output: DecodedOutput, blockHeight: Option<int>)

  function OutputAt(rpc: Rpc, o: Outpoint): Answer<PlacedOutput> {
    match rpc.getTransaction(o.txId)
    case Thrown(f) => Thrown(f)
    case Ok(None) => Thrown(ChainError)
    case Ok(Some(tx)) =>
      match DecodeHex(tx.txHex)
      case None => Thrown(ChainError)
      case Some(decoded) =>
        if o.outputIndex < |decoded.outputs| then Ok(PlacedOutput(decoded.outputs[o.outputIndex], tx.blockHeight))
        else Thrown(ChainError)
  }

  function ScriptOf(rpc: Rpc, o: Outpoint): Answer<Hex> {
    match OutputAt(rpc, o)
    case Thrown(f) => Thrown(f)
    case Ok(placed) => Ok(placed.output.scriptHex)
  }

  function InputsOf(rpc: Rpc, txId: Hex): Answer<seq<Outpoint>> {
    match rpc.getTransaction(txId)
    case Thrown(f) => Thrown(f)
    case Ok(None) => Ok([])
    case Ok(Some(tx)) =>
      match DecodeHex(tx.txHex)
      case None => Thrown(ChainError)
      case Some(decoded) => Ok(decoded.inputs)
  }

  function CandidateAt(rpc: Rpc, o: Outpoint): Answer<RawCandidate> {
    match OutputAt(rpc, o)
    case Thrown(f) => Thrown(f)
    case Ok(placed) => Ok(RawCandidate(o, placed.output.value, placed.output.scriptHex, placed.blockHeight))
  }

  function Candidates(rpc: Rpc, os: seq<Outpoint>): Answer<seq<RawCandidate>> {
    if os == [] then Ok([])
    else match Candidates(rpc, os[..|os| - 1])
      case Thrown(f) => Thrown(f)
      case Ok(front) =>
        match CandidateAt(rpc, os[|os| - 1])
        case Thrown(f) => Thrown(f)
        case Ok(c) => Ok(front + [c])
  }

  /** What `discover` returns for a quote id. */
  function Discovered(rpc: Rpc, quoteId: Hex): Answer<seq<RawCandidate>> {
    match rpc.findSettlements(quoteId)
    case Thrown(f) => Thrown(f)
    case Ok(os) => Candidates(rpc, os)
  }

  // ---- the adapter, by what it is answered ----------------------------------------------------------------

  /** A datum is honorable exactly when the indexer does not flag it and names a quote id. */
  lemma DatumByRule(rpc: Rpc, o: Outpoint)
    ensures var r := rpc.getOutputDatum(o);
            && (forall f :: DatumOf(rpc, o) == Thrown(f) <==> r == Thrown(f))
            && (r.Ok? ==> DatumOf(rpc, o)
                          == Ok(OutputDatum(r.value.quoteId, r.value.unhonorable == false && r.value.quoteId != None)))
  {
  }

  /** An output is read from the bytes of its transaction; the RPC's own fault is passed on as it is, and an
      unknown transaction, undecodable bytes or a missing output is a plain error. */
  lemma OutputByRule(rpc: Rpc, o: Outpoint)
    ensures var r := rpc.getTransaction(o.txId);
            var readable := r.Ok? && r.value.Some? && DecodeHex(r.value.value.txHex).Some?
                            && o.outputIndex < |DecodeHex(r.value.value.txHex).value.outputs|;
            && (r.Thrown? ==> ScriptOf(rpc, o) == Thrown(r.fault) && CandidateAt(rpc, o) == Thrown(r.fault))
            && (r.Ok? && !readable ==>
                  ScriptOf(rpc, o) == Thrown(ChainError) && CandidateAt(rpc, o) == Thrown(ChainError))
            && (readable ==>
                  var output := DecodeHex(r.value.value.txHex).value.outputs[o.outputIndex];
                  && ScriptOf(rpc, o) == Ok(output.scriptHex)
                  && CandidateAt(rpc, o)
                     == Ok(RawCandidate(o, output.value, output.scriptHex, r.value.value.blockHeight)))
  {
  }

  /** Prevouts: none for an unknown transaction, the RPC's own fault as it is, a plain error for bad bytes. */
  lemma InputsByRule(rpc: Rpc, txId: Hex)
    ensures var r := rpc.getTransaction(txId);
            && (r.Thrown? ==> InputsOf(rpc, txId) == Thrown(r.fault))
            && (r == Ok(None) ==> InputsOf(rpc, txId) == Ok([]))
            && (r.Ok? && r.value.Some? ==>
                  var decoded := DecodeHex(r.value.value.txHex);
                  InputsOf(rpc, txId) == if decoded == None then Thrown(ChainError) else Ok(decoded.value.inputs))
  {
  }

  /** Outpoint `i` is the first reported one that cannot be turned into a candidate. */
  predicate FirstUnreadable(rpc: Rpc, os: seq<Outpoint>, i: nat) {
    i < |os| && CandidateAt(rpc, os[i]).Thrown? && forall k :: 0 <= k < i ==> CandidateAt(rpc, os[k]).Ok?
  }

  /** A scoring faults with what its listing faults with: the indexer's own fault, or that of the first reported
      outpoint that cannot be read. Nothing is scored then, and no verdict is given. */
  lemma ListingFaults(ctx: Ctx, rpc: Rpc, i: nat)
    ensures var listing, r := rpc.findSettlements(ctx.quote.quoteId), ScoreThroughRpc(ctx, rpc);
            && (listing.Thrown? ==> r == Faulted(listing.fault))
            && (listing.Ok? && FirstUnreadable(rpc, listing.value, i) ==>
                  r == Faulted(CandidateAt(rpc, listing.value[i]).fault))
  {
    var listing := rpc.findSettlements(ctx.quote.quoteId);
    if listing.Ok? && FirstUnreadable(rpc, listing.value, i) {
      ReadablePrefix(rpc, listing.value, i);
      CandidatesNext(rpc, listing.value, i);
      ThrownStays(rpc, listing.value, i + 1);
    }
  }

  lemma {:induction false} ReadablePrefix(rpc: Rpc, os: seq<Outpoint>, i: nat)
    requires i <= |os| && forall k :: 0 <= k < i ==> CandidateAt(rpc, os[k]).Ok?
    ensures Candidates(rpc, os[..i]).Ok?
  {
    if i > 0 {
      ReadablePrefix(rpc, os, i - 1);
      CandidatesNext(rpc, os, i - 1);
    }
  }

  /** One more outpoint. */
  lemma CandidatesNext(rpc: Rpc, os: seq<Outpoint>, i: nat)
    requires i < |os| && Candidates(rpc, os[..i]).Ok?
    ensures Candidates(rpc, os[..i + 1])
         == match CandidateAt(rpc, os[i])
            case Thrown(f) => Thrown(f)
            case Ok(c) => Ok(Candidates(rpc, os[..i]).value + [c])
  {
    assert os[..i + 1][..i] == os[..i];
  }

  /** The first outpoint that throws ends the listing with its fault. */
  lemma {:induction false} ThrownStays(rpc: Rpc, os: seq<Outpoint>, i: nat)
    requires i <= |os| && Candidates(rpc, os[..i]).Thrown?
    ensures Candidates(rpc, os) == Candidates(rpc, os[..i])
    decreases |os|
  {
    if i < |os| {
      var front := os[..|os| - 1];
      assert front[..i] == os[..i];
      ThrownStays(rpc, front, i);
    } else {
      assert os[..i] == os;
    }
  }

  lemma CandidatesLast(rpc: Rpc, os: seq<Outpoint>, cs: seq<RawCandidate>)
    requires os != [] && Candidates(rpc, os) == Ok(cs)
    ensures cs != [] && Candidates(rpc, os[..|os| - 1]) == Ok(cs[..|cs| - 1])
    ensures CandidateAt(rpc, os[|os| - 1]) == Ok(cs[|cs| - 1])
  {
    var front, c := Candidates(rpc, os[..|os| - 1]).value, CandidateAt(rpc, os[|os| - 1]).value;
    assert cs == front + [c] && (front + [c])[..|front|] == front;
  }

  lemma {:induction false} CandidatesLength(rpc: Rpc, os: seq<Outpoint>, cs: seq<RawCandidate>)
    requires Candidates(rpc, os) == Ok(cs)
    ensures |cs| == |os|
    decreases |os|
  {
    if os != [] {
      CandidatesLast(rpc, os, cs);
      CandidatesLength(rpc, os[..|os| - 1], cs[..|cs| - 1]);
    }
  }

  /** The candidates are those of the outpoints, in order. */
  lemma {:induction false} CandidatesExact(rpc: Rpc, os: seq<Outpoint>, cs: seq<RawCandidate>, i: nat)
    requires Candidates(rpc, os) == Ok(cs) && i < |os|
    ensures i < |cs| && CandidateAt(rpc, os[i]) == Ok(cs[i])
    decreases |os|
  {
    CandidatesLength(rpc, os, cs);
    CandidatesLast(rpc, os, cs);
    if i < |os| - 1 { CandidatesExact(rpc, os[..|os| - 1], cs[..|cs| - 1], i); }
  }

  /** findSettlementsByQuoteId: one candidate for each reported outpoint, or a throw. */
  method FindSettlementsByQuoteId(rpc: Rpc, q: Hex) returns (r: Answer<seq<RawCandidate>>)
    ensures r == Discovered(rpc, q)
  {
    var reported := rpc.findSettlements(q);
    if reported.Thrown? { return Thrown(reported.fault); }
    var settlements := reported.value;
    var out := [];
    for i := 0 to |settlements|
      invariant Candidates(rpc, settlements[..i]) == Ok(out)
    {
      var o := settlements[i];
      CandidatesNext(rpc, settlements, i);
      var tx := rpc.getTransaction(o.txId);
      if tx.Thrown? || tx.value.None? {
        ThrownStays(rpc, settlements, i + 1);
        return Thrown(if tx.Thrown? then tx.fault else ChainError);
      }
      var decoded := DecodeTxHex(tx.value.value.txHex);
      if decoded.None? || o.outputIndex >= |decoded.value.outputs| {
        ThrownStays(rpc, settlements, i + 1);
        return Thrown(ChainError);
      }
      var op := decoded.value.outputs[o.outputIndex];
      out := out + [RawCandidate(o, op.value, op.scriptHex, tx.value.value.blockHeight)];
    }
    assert settlements[..|settlements|] == settlements;
    return Ok(out);
  }

  method GetTxInputs(rpc: Rpc, txId: Hex) returns (r: Answer<seq<Outpoint>>)
    ensures r == InputsOf(rpc, txId)
  {
    var tx := rpc.getTransaction(txId);
    if tx.Thrown? { return Thrown(tx.fault); }
    if tx.value.None? { return Ok([]); }
    var decoded := DecodeTxHex(tx.value.value.txHex);
    if decoded.None? { return Thrown(ChainError); }
    return Ok(decoded.value.inputs);
  }

  method GetOutputScript(rpc: Rpc, o: Outpoint) returns (r: Answer<Hex>)
    ensures r == ScriptOf(rpc, o)
  {
    var tx := rpc.getTransaction(o.txId);
    if tx.Thrown? { return Thrown(tx.fault); }
    if tx.value.None? { return Thrown(ChainError); }
    var decoded := DecodeTxHex(tx.value.value.txHex);
    if decoded.None? || o.outputIndex >= |decoded.value.outputs| { return Thrown(ChainError); }
    return Ok(decoded.value.outputs[o.outputIndex].scriptHex);
  }

  function Facts(rpc: Rpc): ChainFacts {
    ChainFacts((o: Outpoint) => DatumOf(rpc, o), (txId: Hex) => InputsOf(rpc, txId), (o: Outpoint) => ScriptOf(rpc, o))
  }

  /** discover, then score, through the adapter. */
  function ScoreThroughRpc(ctx: Ctx, rpc: Rpc): ScoreResult {
    match Discovered(rpc, ctx.quote.quoteId)
    case Thrown(f) => Faulted(f)
    case Ok(raw) => PlainScore(ctx.(chain := Facts(rpc)), raw)
  }

  // ---- the ledger behind the RPCs -------------------------------------------------------------------------

  /** A transaction on the chain, with its witness bytes and the height of its block. */
  datatype Entry = Entry(tx: Tx, witnesses: seq<Byte>, height: Option<int>)

  type Ledger = map<Hex, Entry>

  predicate HasOutput(l: Ledger, o: Outpoint) { o.txId in l && o.outputIndex < |l[o.txId].tx.outputs| }

  function OutputOf(l: Ledger, o: Outpoint): TxOut
    requires HasOutput(l, o)
  {
    l[o.txId].tx.outputs[o.outputIndex]
  }

  /** The quote id an output carries: a bare 16-byte inline datum, in hex. */
  function QuoteIdOn(l: Ledger, o: Outpoint): Option<Hex> {
    if HasOutput(l, o) && OutputOf(l, o).datum.Some? && |OutputOf(l, o).datum.value| == QUOTE_ID_BYTES
    then Some(ToHex(OutputOf(l, o).datum.value))
    else None
  }

  function EncodedTx(e: Entry): string { ToHex(Serialize(e.tx) + e.witnesses) }

  /** The node returns the canonical bytes of what is on the chain and the indexer reports the datum that
      stands on the output; which outpoints it lists for a quote is left open. */
  ghost predicate Serves(l: Ledger, rpc: Rpc) {
    && (forall t :: t in l ==> ValidTx(l[t].tx))
    && (forall t :: t in l ==> rpc.getTransaction(t) == Ok(Some(TxStatus(EncodedTx(l[t]), l[t].height))))
    && (forall t :: t !in l ==> rpc.getTransaction(t) == Ok(None))
    && (forall o :: rpc.getOutputDatum(o).Ok? && rpc.getOutputDatum(o).value.quoteId == QuoteIdOn(l, o))
    && (forall o :: rpc.getOutputDatum(o).Ok? && rpc.getOutputDatum(o).value.unhonorable ==> QuoteIdOn(l, o).None?)
    && (forall q :: rpc.findSettlements(q).Ok?)
  }

  // ---- the same questions, answered from the abstract ledger ----------------------------------------------

  function LedgerDatum(l: Ledger, o: Outpoint): OutputDatum { OutputDatum(QuoteIdOn(l, o), QuoteIdOn(l, o).Some?) }

  function LedgerInputs(l: Ledger, txId: Hex): seq<Outpoint> {
    if txId in l then MapSeq(ProjectIn, l[txId].tx.inputs) else []
  }

  function LedgerScript(l: Ledger, o: Outpoint): Answer<Hex> {
    if HasOutput(l, o) then Ok(ToHex(OutputOf(l, o).script)) else Thrown(ChainError)
  }

  function LedgerFacts(l: Ledger): ChainFacts {
    ChainFacts(
      (o: Outpoint) => Ok(LedgerDatum(l, o)),
      (txId: Hex) => Ok(LedgerInputs(l, txId)),
      (o: Outpoint) => LedgerScript(l, o))
  }

  function LedgerCandidate(l: Ledger, o: Outpoint): RawCandidate
    requires HasOutput(l, o)
  {
    RawCandidate(o, OutputOf(l, o).value, ToHex(OutputOf(l, o).script), l[o.txId].height)
  }

  predicate AllListed(l: Ledger, os: seq<Outpoint>) { forall i :: 0 <= i < |os| ==> HasOutput(l, os[i]) }

  function LedgerCandidates(l: Ledger, os: seq<Outpoint>): seq<RawCandidate>
    requires AllListed(l, os)
  {
    seq(|os|, i requires 0 <= i < |os| => LedgerCandidate(l, os[i]))
  }

  /** The plain verdict computed directly on abstract transactions, with no bytes in between. */
  function ScoreOnLedger(ctx: Ctx, l: Ledger, os: seq<Outpoint>): ScoreResult {
    if AllListed(l, os) then PlainScore(ctx.(chain := LedgerFacts(l)), LedgerCandidates(l, os)) else Faulted(ChainError)
  }

  // ---- the adapter answers as the ledger does -------------------------------------------------------------

  /** The canonical bytes of a transaction give its outputs back. */
  lemma EntryOutput(rpc: Rpc, o: Outpoint, e: Entry)
    requires ValidTx(e.tx) && rpc.getTransaction(o.txId) == Ok(Some(TxStatus(EncodedTx(e), e.height)))
    ensures OutputAt(rpc, o)
         == if o.outputIndex < |e.tx.outputs| then Ok(PlacedOutput(ProjectOut(e.tx.outputs[o.outputIndex]), e.height))
            else Thrown(ChainError)
  {
    DecodeRoundTrip(e.tx, e.witnesses);
  }

  lemma ServedTx(l: Ledger, rpc: Rpc, t: Hex)
    requires Serves(l, rpc) && t in l
    ensures DecodeHex(rpc.getTransaction(t).value.value.txHex) == Some(Project(l[t].tx))
  {
    DecodeRoundTrip(l[t].tx, l[t].witnesses);
  }

  lemma ServedOutput(l: Ledger, rpc: Rpc, o: Outpoint)
    requires Serves(l, rpc)
    ensures OutputAt(rpc, o)
         == if HasOutput(l, o) then Ok(PlacedOutput(ProjectOut(OutputOf(l, o)), l[o.txId].height))
            else Thrown(ChainError)
  {
    if o.txId in l { EntryOutput(rpc, o, l[o.txId]); }
  }

  lemma ServedInputs(l: Ledger, rpc: Rpc, txId: Hex)
    requires Serves(l, rpc)
    ensures InputsOf(rpc, txId) == Ok(LedgerInputs(l, txId))
  {
    if txId in l { ServedTx(l, rpc, txId); }
  }

  lemma ServedCandidate(l: Ledger, rpc: Rpc, o: Outpoint)
    requires Serves(l, rpc)
    ensures CandidateAt(rpc, o) == if HasOutput(l, o) then Ok(LedgerCandidate(l, o)) else Thrown(ChainError)
  {
    ServedOutput(l, rpc, o);
  }

  lemma ListedSnoc(l: Ledger, os: seq<Outpoint>, o: Outpoint)
    ensures AllListed(l, os + [o]) <==> AllListed(l, os) && HasOutput(l, o)
    ensures AllListed(l, os + [o]) ==>
              LedgerCandidates(l, os + [o]) == LedgerCandidates(l, os) + [LedgerCandidate(l, o)]
  {
    var all := os + [o];
    assert forall i :: 0 <= i < |os| ==> all[i] == os[i];
    assert all[|os|] == o;
  }

  /** The candidates are the listed outputs as they stand on the ledger, or a throw for one that does not. */
  lemma {:induction false} ServedCandidates(l: Ledger, rpc: Rpc, os: seq<Outpoint>)
    requires Serves(l, rpc)
    ensures Candidates(rpc, os) == if AllListed(l, os) then Ok(LedgerCandidates(l, os)) else Thrown(ChainError)
    decreases |os|
  {
    if os == [] {
      assert LedgerCandidates(l, os) == [];
    } else {
      var front, last := os[..|os| - 1], os[|os| - 1];
      assert os == front + [last];
      ServedCandidates(l, rpc, front);
      ServedCandidate(l, rpc, last);
      ListedSnoc(l, front, last);
    }
  }

  /** The two sets of facts give the same answers to every question. */
  ghost predicate SameAnswers(a: ChainFacts, b: ChainFacts) {
    && (forall o :: a.datumOf(o) == b.datumOf(o))
    && (forall t :: a.inputsOf(t) == b.inputsOf(t))
    && (forall o :: a.scriptOf(o) == b.scriptOf(o))
  }

  lemma ServedFacts(l: Ledger, rpc: Rpc)
    requires Serves(l, rpc)
    ensures SameAnswers(Facts(rpc), LedgerFacts(l))
  {
    var a, b := Facts(rpc), LedgerFacts(l);
    forall o ensures a.datumOf(o) == b.datumOf(o) { assert DatumOf(rpc, o) == Ok(LedgerDatum(l, o)); }
    forall t ensures a.inputsOf(t) == b.inputsOf(t) { ServedInputs(l, rpc, t); }
    forall o ensures a.scriptOf(o) == b.scriptOf(o) { ServedOutput(l, rpc, o); }
  }

  lemma {:induction false} SameScan(a: ChainFacts, b: ChainFacts, prevouts: seq<Outpoint>, expected: Hex)
    requires SameAnswers(a, b)
    ensures ScanPrevouts(a, prevouts, expected) == ScanPrevouts(b, prevouts, expected)
    decreases |prevouts|
  {
    if prevouts != [] { SameScan(a, b, prevouts[1..], expected); }
  }

  lemma SameJudgement(ctx: Ctx, b: ChainFacts, c: RawCandidate)
    requires SameAnswers(ctx.chain, b)
    ensures Judge(ctx, c) == Judge(ctx.(chain := b), c)
  {
    if ctx.quote.payer.Some? && ctx.chain.inputsOf(c.outpoint.txId).Ok? {
      SameScan(ctx.chain, b, ctx.chain.inputsOf(c.outpoint.txId).value, ctx.deriver(ctx.quote.payer.value));
    }
    assert CheckPayerBinding(ctx, c.outpoint.txId) == CheckPayerBinding(ctx.(chain := b), c.outpoint.txId);
  }

  lemma {:induction false} SameScore(ctx: Ctx, b: ChainFacts, raw: seq<RawCandidate>, last: Verdict)
    requires SameAnswers(ctx.chain, b)
    ensures ScoreFrom(ctx, raw, last) == ScoreFrom(ctx.(chain := b), raw, last)
    decreases |raw|
  {
    if raw != [] {
      var j := Judge(ctx, raw[0]);
      SameJudgement(ctx, b, raw[0]);
      SameScore(ctx, b, raw[1..], if j.Refused? then j.verdict else last);
    }
  }

  /** Bytes to verdict: scoring through the adapter, out of serialized transactions, is scoring on the
      abstract ledger. Verdict, reason, candidate and fault are the same for every quote, every listing and
      every configuration, under CONSENT and under SOURCE binding, prevouts known or not. */
  lemma BytesToVerdict(ctx: Ctx, l: Ledger, rpc: Rpc)
    requires Serves(l, rpc)
    ensures ScoreThroughRpc(ctx, rpc) == ScoreOnLedger(ctx, l, rpc.findSettlements(ctx.quote.quoteId).value)
  {
    var os := rpc.findSettlements(ctx.quote.quoteId).value;
    ServedCandidates(l, rpc, os);
    ServedFacts(l, rpc);
    if AllListed(l, os) {
      SameScore(ctx.(chain := Facts(rpc)), LedgerFacts(l), LedgerCandidates(l, os), Wait(NoCandidate));
    }
  }

  // ---- the verdict, by the rules --------------------------------------------------------------------------

  /** Some prevout is scripted to the payer, and those before it can be looked up. */
  predicate PayerFunds(ctx: Ctx, l: Ledger, txId: Hex)
    requires txId in l
  {
    exists i :: 0 <= i < |l[txId].tx.inputs| && PaidBy(ctx, l, ProjectIn(l[txId].tx.inputs[i]))
                && forall k :: 0 <= k < i ==> HasOutput(l, ProjectIn(l[txId].tx.inputs[k]))
  }

  predicate PaidBy(ctx: Ctx, l: Ledger, o: Outpoint) {
    HasOutput(l, o) && ctx.quote.payer.Some? && ToHex(OutputOf(l, o).script) == ctx.deriver(ctx.quote.payer.value)
  }

  /** This output carries exactly this quote's id and amount and pays this payee. */
  predicate PaysTheQuote(ctx: Ctx, l: Ledger, o: Outpoint) {
    && HasOutput(l, o) && IsQuoteId(ctx.quote.quoteId) && QuoteIdOn(l, o) == Some(ctx.quote.quoteId)
    && OutputOf(l, o).value == ctx.quote.exferAmount
    && ToHex(OutputOf(l, o).script) == ctx.deriver(ctx.quote.payee)
  }

  /** The whole rule on the abstract transactions: besides, the output is deep enough and is paid by this
      payer where that must be shown. */
  predicate Settles(ctx: Ctx, l: Ledger, o: Outpoint) {
    && PaysTheQuote(ctx, l, o)
    && (!NeedsPrevouts(ctx) || PayerFunds(ctx, l, o.txId))
    && DeepEnough(ctx, l[o.txId].height)
  }

  /** Every prevout of the transaction stands on the ledger. */
  predicate PrevoutsKnown(l: Ledger, txId: Hex) {
    txId in l && forall i :: 0 <= i < |l[txId].tx.inputs| ==> HasOutput(l, ProjectIn(l[txId].tx.inputs[i]))
  }

  lemma FundsIffKeyed(ctx: Ctx, l: Ledger, txId: Hex)
    requires txId in l && ctx.chain == LedgerFacts(l) && ctx.quote.payer.Some?
    ensures (exists i: nat :: PayerKeyedAt(ctx, LedgerInputs(l, txId), ctx.deriver(ctx.quote.payer.value), i))
            <==> PayerFunds(ctx, l, txId)
  {
    var inputs, prevouts, expected := l[txId].tx.inputs, LedgerInputs(l, txId), ctx.deriver(ctx.quote.payer.value);
    assert forall i :: 0 <= i < |inputs| ==> prevouts[i] == ProjectIn(inputs[i]);
    if i: nat :| PayerKeyedAt(ctx, prevouts, expected, i) {
      assert PaidBy(ctx, l, ProjectIn(inputs[i]));
      forall k | 0 <= k < i ensures HasOutput(l, ProjectIn(inputs[k])) {
        assert ctx.chain.scriptOf(prevouts[k]).Ok?;
      }
    }
    if PayerFunds(ctx, l, txId) {
      var i :| 0 <= i < |inputs| && PaidBy(ctx, l, ProjectIn(inputs[i]))
               && forall k :: 0 <= k < i ==> HasOutput(l, ProjectIn(inputs[k]));
      assert PayerKeyedAt(ctx, prevouts, expected, i);
    }
  }

  lemma ReachesIffPays(ctx: Ctx, l: Ledger, o: Outpoint)
    requires HasOutput(l, o) && ctx.chain == LedgerFacts(l)
    ensures ReachesCustody(ctx, LedgerCandidate(l, o)) <==> PaysTheQuote(ctx, l, o)
  {
    assert ctx.chain.datumOf(o) == Ok(LedgerDatum(l, o));
  }

  /** A listed output passes every rule of the spine exactly when it settles the quote. */
  lemma PassesIffSettles(ctx: Ctx, l: Ledger, o: Outpoint)
    requires HasOutput(l, o) && ctx.chain == LedgerFacts(l)
    ensures Passes(ctx, LedgerCandidate(l, o)) <==> ctx.custody == Some(true) && Settles(ctx, l, o)
  {
    ReachesIffPays(ctx, l, o);
    assert ctx.chain.inputsOf(o.txId) == Ok(LedgerInputs(l, o.txId));
    if ctx.quote.payer.Some? { FundsIffKeyed(ctx, l, o.txId); }
  }

  lemma LedgerAnswers(ctx: Ctx, l: Ledger, o: Outpoint)
    requires HasOutput(l, o) && ctx.chain == LedgerFacts(l) && (NeedsPrevouts(ctx) ==> PrevoutsKnown(l, o.txId))
    ensures Answers(ctx, LedgerCandidate(l, o))
  {
    assert ctx.chain.inputsOf(o.txId) == Ok(LedgerInputs(l, o.txId));
  }

  /** The rules of the spine on one listed output. */
  lemma LedgerRules(ctx: Ctx, l: Ledger, o: Outpoint)
    requires HasOutput(l, o) && (NeedsPrevouts(ctx) ==> PrevoutsKnown(l, o.txId))
    ensures var ctx', c := ctx.(chain := LedgerFacts(l)), LedgerCandidate(l, o);
            && Answers(ctx', c)
            && (Passes(ctx', c) <==> ctx.custody == Some(true) && Settles(ctx, l, o))
            && (ReachesCustody(ctx', c) <==> PaysTheQuote(ctx, l, o))
  {
    var ctx' := ctx.(chain := LedgerFacts(l));
    LedgerAnswers(ctx', l, o);
    PassesIffSettles(ctx', l, o);
    ReachesIffPays(ctx', l, o);
    SettlesIgnoresFacts(ctx, ctx', l, o);
  }

  ghost predicate SomeSettles(ctx: Ctx, l: Ledger, os: seq<Outpoint>) {
    exists i :: 0 <= i < |os| && Settles(ctx, l, os[i])
  }

  ghost predicate SomePays(ctx: Ctx, l: Ledger, os: seq<Outpoint>) {
    exists i :: 0 <= i < |os| && PaysTheQuote(ctx, l, os[i])
  }

  lemma LedgerHonors(ctx: Ctx, l: Ledger, os: seq<Outpoint>)
    requires AllListed(l, os)
    requires NeedsPrevouts(ctx) ==> forall i :: 0 <= i < |os| ==> PrevoutsKnown(l, os[i].txId)
    ensures var r := ScoreOnLedger(ctx, l, os);
            && (Honors(r) <==> ctx.custody == Some(true) && SomeSettles(ctx, l, os))
            && (r.Faulted? <==> ctx.custody.None? && SomePays(ctx, l, os))
            && (r.Faulted? ==> r.fault == KeystoreFault)
  {
    var ctx', raw := ctx.(chain := LedgerFacts(l)), LedgerCandidates(l, os);
    forall i | 0 <= i < |os|
      ensures raw[i] == LedgerCandidate(l, os[i]) && Answers(ctx', raw[i])
      ensures Passes(ctx', raw[i]) <==> ctx.custody == Some(true) && Settles(ctx, l, os[i])
      ensures ReachesCustody(ctx', raw[i]) <==> PaysTheQuote(ctx, l, os[i])
    {
      LedgerRules(ctx, l, os[i]);
    }
    PlainSoundAndComplete(ctx', raw);
  }

  lemma LedgerHonorsFirst(ctx: Ctx, l: Ledger, os: seq<Outpoint>, i: nat)
    requires AllListed(l, os) && i < |os| && ctx.custody == Some(true) && Settles(ctx, l, os[i])
    requires NeedsPrevouts(ctx) ==> forall i :: 0 <= i < |os| ==> PrevoutsKnown(l, os[i].txId)
    requires forall k :: 0 <= k < i ==> !Settles(ctx, l, os[k])
    ensures ScoreOnLedger(ctx, l, os)
         == Scored(Honor(Candidate(Form.Plain, ctx.quote.quoteId, os[i], ctx.quote.exferAmount,
                                   ctx.deriver(ctx.quote.payee), l[os[i].txId].height)))
  {
    var ctx', raw := ctx.(chain := LedgerFacts(l)), LedgerCandidates(l, os);
    forall k | 0 <= k < |os|
      ensures raw[k] == LedgerCandidate(l, os[k]) && Answers(ctx', raw[k])
      ensures Passes(ctx', raw[k]) <==> Settles(ctx, l, os[k])
    {
      LedgerRules(ctx, l, os[k]);
    }
    PlainSoundAndComplete(ctx', raw);
  }

  /** What the verdict from bytes comes to: it honors exactly when custody is certain and some listed output
      settles the quote, and then names the earliest such with its ledger value and height; it faults
      exactly when custody is unavailable and some listed output pays the quote. Only where prevouts are
      fetched must they be known. */
  lemma BytesHonorIffSettled(ctx: Ctx, l: Ledger, rpc: Rpc, os: seq<Outpoint>)
    requires Serves(l, rpc) && rpc.findSettlements(ctx.quote.quoteId) == Ok(os) && AllListed(l, os)
    requires NeedsPrevouts(ctx) ==> forall i :: 0 <= i < |os| ==> PrevoutsKnown(l, os[i].txId)
    ensures var r := ScoreThroughRpc(ctx, rpc);
            && (Honors(r) <==> ctx.custody == Some(true) && SomeSettles(ctx, l, os))
            && (r.Faulted? <==> ctx.custody.None? && SomePays(ctx, l, os))
            && (r.Faulted? ==> r.fault == KeystoreFault)
    ensures forall i :: 0 <= i < |os| && ctx.custody == Some(true) && Settles(ctx, l, os[i])
                        && (forall k :: 0 <= k < i ==> !Settles(ctx, l, os[k])) ==>
              ScoreThroughRpc(ctx, rpc)
              == Scored(Honor(Candidate(Form.Plain, ctx.quote.quoteId, os[i], ctx.quote.exferAmount,
                                        ctx.deriver(ctx.quote.payee), l[os[i].txId].height)))
  {
    BytesToVerdict(ctx, l, rpc);
    LedgerHonors(ctx, l, os);
    forall i: nat | i < |os| && ctx.custody == Some(true) && Settles(ctx, l, os[i])
                    && (forall k :: 0 <= k < i ==> !Settles(ctx, l, os[k]))
      ensures ScoreOnLedger(ctx, l, os)
           == Scored(Honor(Candidate(Form.Plain, ctx.quote.quoteId, os[i], ctx.quote.exferAmount,
                                     ctx.deriver(ctx.quote.payee), l[os[i].txId].height)))
    {
      LedgerHonorsFirst(ctx, l, os, i);
    }
  }

  lemma SettlesIgnoresFacts(a: Ctx, b: Ctx, l: Ledger, o: Outpoint)
    requires b == a.(chain := b.chain)
    ensures Settles(a, l, o) <==> Settles(b, l, o)
    ensures PaysTheQuote(a, l, o) <==> PaysTheQuote(b, l, o)
  {
  }
}
