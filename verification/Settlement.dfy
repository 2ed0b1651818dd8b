/** The whole path put together: rows from the store, quotes rebuilt from rows (src/core/scorer.ts),
    verdicts from the two forms over an honest but moving chain, and the gate. The ownership and amount
    hypotheses of the gate theorems are discharged here from the scorers. */
module Settlement {
  import opened HonorSpec
  import opened Engine
  import opened Hypotheses
  import opened ExactlyOnce
  import opened Conservation
  import opened Plain
  import opened PlainTheorems
  import opened TxCodec
  import opened WireDecoder
  import opened ChainSource
  import opened Htlc

  /** `book` holds every transaction that ever exists under its id (an id commits to the content) and
      `lockOf` the HTLC terms an output locks; a quote id has one signer and a key one quote (H2, and the
      signer half of H3); `deriver` maps a public key to its script. */
  datatype World = World(
    book: Ledger,
    lockOf: Outpoint -> OnChainHtlc,
    signerOf: Hex -> Hex,
    quoteOf: Key -> AcceptedQuote,
    deriver: Hex -> Hex,
    window: int)

  function OwnerIn(w: World, o: Outpoint): Key {
    match QuoteIdOn(w.book, o)
    case Some(q) => Key(w.signerOf(q), q)
    case None => Key("", "")
  }

  function ValueIn(w: World, o: Outpoint): nat { if HasOutput(w.book, o) then OutputOf(w.book, o).value else 0 }

  function EnvOf(w: World): Env {
    Env(w.quoteOf, (o: Outpoint) => OwnerIn(w, o), (o: Outpoint) => ValueIn(w, o), w.window)
  }

  /** A state of the chain: some of the transactions, at any heights and with any witnesses. */
  ghost predicate Snapshot(w: World, l: Ledger) {
    forall t :: t in l ==> t in w.book && l[t].tx == w.book[t].tx && ValidTx(l[t].tx)
  }

  // ---- where verdicts come from ---------------------------------------------------------------------------

  ghost predicate TruthfulTx(w: World, t: Hex, status: TxStatus) {
    exists l: Ledger :: Snapshot(w, l) && t in l && status == TxStatus(EncodedTx(l[t]), l[t].height)
  }

  ghost predicate TruthfulDatum(w: World, o: Outpoint, datum: RawDatum) {
    exists l: Ledger :: Snapshot(w, l) && datum.quoteId == QuoteIdOn(l, o)
  }

  /** Each answer is true of some state of the chain, not all of the same one; calls may also throw. */
  ghost predicate Truthful(w: World, rpc: Rpc) {
    && (forall t :: rpc.getTransaction(t).Ok? && rpc.getTransaction(t).value.Some? ==>
          TruthfulTx(w, t, rpc.getTransaction(t).value.value))
    && (forall o :: rpc.getOutputDatum(o).Ok? ==> TruthfulDatum(w, o, rpc.getOutputDatum(o).value))
  }

  /** The context in which one candidate is judged, with answers of its own from chain and custody. */
  ghost predicate HonestCtx(w: World, row: SeenRow, ctx: Ctx) {
    && ctx.quote == QuoteFromSeen(row) && ctx.deriver == w.deriver
    && exists rpc: Rpc :: Truthful(w, rpc) && ctx.chain == Facts(rpc)
  }

  ghost predicate HonestCandidate(w: World, c: RawCandidate) {
    exists rpc: Rpc :: Truthful(w, rpc) && CandidateAt(rpc, c.outpoint) == Ok(c)
  }

  /** The candidate loop while the world moves: candidate `i` is judged in its own context. */
  function ScoreMoving(ctxs: seq<Ctx>, raw: seq<RawCandidate>, last: Verdict): ScoreResult
    requires |ctxs| == |raw|
    decreases |raw|
  {
    if raw == [] then ScoreResult.Scored(last)
    else match Judge(ctxs[0], raw[0])
      case Skipped => ScoreMoving(ctxs[1..], raw[1..], last)
      case Refused(v) => ScoreMoving(ctxs[1..], raw[1..], v)
      case Accepted(c) => ScoreResult.Scored(Honor(c))
      case Broken(f) => Faulted(f)
  }

  function Still(ctx: Ctx, n: nat): seq<Ctx> { seq(n, i => ctx) }

  /** In a world that stands still it is the loop of the plain form. */
  lemma {:induction false} MovingIsScore(ctx: Ctx, raw: seq<RawCandidate>, last: Verdict)
    ensures ScoreMoving(Still(ctx, |raw|), raw, last) == ScoreFrom(ctx, raw, last)
    decreases |raw|
  {
    if raw != [] {
      var j := Judge(ctx, raw[0]);
      assert Still(ctx, |raw|)[1..] == Still(ctx, |raw| - 1);
      MovingIsScore(ctx, raw[1..], if j.Refused? then j.verdict else last);
    }
  }

  /** The plain form scored this row while the chain moved between any two of its calls. */
  ghost predicate PlainVerdict(w: World, row: SeenRow, v: Verdict) {
    exists ctxs: seq<Ctx>, raw: seq<RawCandidate> ::
      && |ctxs| == |raw|
      && (forall i :: 0 <= i < |raw| ==> HonestCtx(w, row, ctxs[i]) && HonestCandidate(w, raw[i]))
      && ScoreMoving(ctxs, raw, Wait(NoCandidate)) == ScoreResult.Scored(v)
  }

  /** An indexer that lists the locks of a quote by their datum, and reports an HTLC as it stands. */
  ghost predicate HonestLock(w: World, quoteId: Hex, raw: seq<RawCandidate>, htlc: Option<OnChainHtlc>) {
    raw != [] && htlc.Some? ==>
      && QuoteIdOn(w.book, raw[0].outpoint) == Some(quoteId) && htlc.value == w.lockOf(raw[0].outpoint)
      && htlc.value.value == OutputOf(w.book, raw[0].outpoint).value
  }

  /** The HTLC form scored this row. It re-decodes the quote's own id, so it takes the indexer's word
      for which quote the lock belongs to. */
  ghost predicate HtlcVerdict(w: World, row: SeenRow, v: Verdict) {
    exists raw: seq<RawCandidate>, htlc: Option<OnChainHtlc> ::
      HonestLock(w, row.key.quoteId, raw, htlc) && HtlcScore(QuoteFromSeen(row), raw, htlc) == v
  }

  ghost predicate FormVerdict(w: World, row: SeenRow, v: Verdict) {
    match row.form
    case Plain => PlainVerdict(w, row, v)
    case Htlc => HtlcVerdict(w, row, v)
  }

  /** What the code does and the world allows: quotes are registered under their key's signer, honor
      verdicts come from the form of the loaded row, reservations are of a scored candidate, and times
      do not fall behind a sweep (H1). */
  ghost predicate Grounded(w: World, s: Sys, e: Event) {
    && Timely(s, e)
    && (e.Register? ==>
          && e.quote == w.quoteOf(e.quote.KeyOf()) && e.window == w.window
          && e.quote.signer == w.signerOf(e.quote.quoteId))
    && (e.Score? && e.verdict.Honor? && e.id in s.calls ==>
          s.calls[e.id].pc.Loaded? && FormVerdict(w, s.calls[e.id].pc.row, e.verdict))
    && (e.ReserveClaim? ==> exists id :: Reserving(s, id, e.key, e.outpoint))
  }

  predicate Reserving(s: Sys, id: nat, k: Key, o: Outpoint) {
    id in s.calls && s.calls[id].key == k && s.calls[id].pc.Scored? && s.calls[id].pc.cand.outpoint == o
  }

  ghost predicate GroundedRun(w: World, es: seq<Event>)
    decreases |es|
  {
    es == [] || (GroundedRun(w, es[..|es| - 1]) && Grounded(w, Run(es[..|es| - 1]), es[|es| - 1]))
  }

  // ---- what an honor verdict proves about the chain -------------------------------------------------------

  /** The output exists, carries this quote id and holds this amount; a plain one pays this payee's script,
      an HTLC can be claimed by this payee. */
  predicate PaysFor(w: World, quoteId: Hex, amount: nat, payee: Hex, form: Form, o: Outpoint) {
    && HasOutput(w.book, o) && QuoteIdOn(w.book, o) == Some(quoteId) && OutputOf(w.book, o).value == amount
    && (form == Form.Plain ==> ToHex(OutputOf(w.book, o).script) == w.deriver(payee))
    && (form == Form.Htlc ==> w.lockOf(o).receiver == payee)
  }

  predicate Pays(w: World, k: Key, o: Outpoint) {
    PaysFor(w, k.quoteId, w.quoteOf(k).exferAmount, w.quoteOf(k).payee, w.quoteOf(k).form, o)
  }

  /** An honoring score names a candidate of the list that meets every rule in its own context. */
  lemma {:induction false} HonoredCandidate(ctxs: seq<Ctx>, raw: seq<RawCandidate>, last: Verdict) returns (i: nat)
    requires |ctxs| == |raw| && !last.Honor? && Honors(ScoreMoving(ctxs, raw, last))
    ensures i < |raw| && Passes(ctxs[i], raw[i])
    ensures ScoreMoving(ctxs, raw, last).verdict.candidate.outpoint == raw[i].outpoint
    ensures ScoreMoving(ctxs, raw, last).verdict.candidate.value == raw[i].value
    decreases |raw|
  {
    var j := Judge(ctxs[0], raw[0]);
    AcceptedIffPasses(ctxs[0], raw[0]);
    if j.Accepted? {
      i := 0;
    } else {
      i := HonoredCandidate(ctxs[1..], raw[1..], if j.Refused? then j.verdict else last);
      i := i + 1;
    }
  }

  lemma SnapshotOutput(w: World, l: Ledger, o: Outpoint)
    requires Snapshot(w, l) && HasOutput(l, o)
    ensures HasOutput(w.book, o) && OutputOf(w.book, o) == OutputOf(l, o) && QuoteIdOn(w.book, o) == QuoteIdOn(l, o)
  {
  }

  /** A candidate cut from a truthful answer is an output of the book, at its value and script. */
  lemma CandidateInBook(w: World, c: RawCandidate)
    requires HonestCandidate(w, c)
    ensures HasOutput(w.book, c.outpoint) && OutputOf(w.book, c.outpoint).value == c.value
    ensures ToHex(OutputOf(w.book, c.outpoint).script) == c.scriptHex
  {
    var rpc: Rpc :| Truthful(w, rpc) && CandidateAt(rpc, c.outpoint) == Ok(c);
    var t := c.outpoint.txId;
    var status := rpc.getTransaction(t).value.value;
    assert TruthfulTx(w, t, status);
    var l: Ledger :| Snapshot(w, l) && t in l && status == TxStatus(EncodedTx(l[t]), l[t].height);
    EntryOutput(rpc, c.outpoint, l[t]);
    SnapshotOutput(w, l, c.outpoint);
  }

  /** A datum read from a truthful answer stands in the book. */
  lemma DatumInBook(w: World, rpc: Rpc, o: Outpoint, q: Hex)
    requires Truthful(w, rpc) && DatumOf(rpc, o) == Ok(OutputDatum(Some(q), true))
    ensures QuoteIdOn(w.book, o) == Some(q)
  {
    var datum := rpc.getOutputDatum(o).value;
    assert TruthfulDatum(w, o, datum);
    var l: Ledger :| Snapshot(w, l) && datum.quoteId == QuoteIdOn(l, o);
    SnapshotOutput(w, l, o);
  }

  lemma PlainVerdictPays(w: World, row: SeenRow, v: Verdict)
    requires PlainVerdict(w, row, v) && v.Honor? && row.form == Form.Plain
    ensures PaysFor(w, row.key.quoteId, row.exferAmount, row.payee, row.form, v.candidate.outpoint)
    ensures v.candidate.value == row.exferAmount
  {
    var ctxs: seq<Ctx>, raw: seq<RawCandidate> :|
      && |ctxs| == |raw|
      && (forall i :: 0 <= i < |raw| ==> HonestCtx(w, row, ctxs[i]) && HonestCandidate(w, raw[i]))
      && ScoreMoving(ctxs, raw, Wait(NoCandidate)) == ScoreResult.Scored(v);
    var i := HonoredCandidate(ctxs, raw, Wait(NoCandidate));
    var ctx, c := ctxs[i], raw[i];
    assert HonestCtx(w, row, ctx) && HonestCandidate(w, c);
    var rpc: Rpc :| Truthful(w, rpc) && ctx.chain == Facts(rpc);
    assert ctx.chain.datumOf(c.outpoint) == DatumOf(rpc, c.outpoint);
    CandidateInBook(w, c);
    DatumInBook(w, rpc, c.outpoint, ctx.quote.quoteId);
  }

  lemma VerdictPays(w: World, row: SeenRow, v: Verdict)
    requires FormVerdict(w, row, v) && v.Honor?
    ensures PaysFor(w, row.key.quoteId, row.exferAmount, row.payee, row.form, v.candidate.outpoint)
    ensures v.candidate.value == row.exferAmount
  {
    match row.form
    case Plain => PlainVerdictPays(w, row, v);
    case Htlc =>
      var raw: seq<RawCandidate>, htlc: Option<OnChainHtlc> :|
        HonestLock(w, row.key.quoteId, raw, htlc) && HtlcScore(QuoteFromSeen(row), raw, htlc) == v;
      HtlcHonorsExactly(QuoteFromSeen(row), raw, htlc);
  }

  // ---- over whole runs ------------------------------------------------------------------------------------

  predicate SignerFits(w: World, k: Key) { k.signer == w.signerOf(k.quoteId) }

  predicate CallGrounded(w: World, c: Call) {
    match c.pc
    case Loaded(_) => SignerFits(w, c.key)
    case Scored(row, cand) => SignerFits(w, c.key) && Pays(w, c.key, cand.outpoint)
    case Ready(row, cand) => SignerFits(w, c.key) && Pays(w, c.key, cand.outpoint)
    case _ => true
  }

  ghost predicate SysGrounded(w: World, s: Sys) {
    && (forall k :: k in s.db.seen ==> SignerFits(w, k))
    && (forall id :: id in s.calls ==> CallGrounded(w, s.calls[id]))
    && (forall d <- s.log :: Pays(w, d.key, d.outpoint))
  }

  /** A grounded event meets every hypothesis of the gate theorems. */
  lemma GroundedIsAllowed(w: World, s: Sys, e: Event)
    requires SysGrounded(w, s) && RowsFit(EnvOf(w), s) && Grounded(w, s, e)
    ensures Allowed(EnvOf(w), s, e) && ExactValue(EnvOf(w), s, e)
  {
    if e.Score? && e.verdict.Honor? && e.id in s.calls {
      assert RowFits(EnvOf(w), s.calls[e.id]) && CallGrounded(w, s.calls[e.id]);
      VerdictPays(w, s.calls[e.id].pc.row, e.verdict);
    }
    if e.ReserveClaim? {
      var id :| Reserving(s, id, e.key, e.outpoint);
      assert CallGrounded(w, s.calls[id]);
    }
  }

  /** What a grounded event does to one call. */
  lemma CallStep(w: World, s: Sys, e: Event, id: nat)
    requires SysGrounded(w, s) && RowsFit(EnvOf(w), s) && Grounded(w, s, e) && id in Step(s, e).calls
    ensures CallGrounded(w, Step(s, e).calls[id])
  {
    if e.Score? && e.id == id && e.verdict.Honor? { ScoredCall(w, s, id, e.verdict); }
    else { OtherCall(w, s, e, id); }
  }

  lemma OtherCall(w: World, s: Sys, e: Event, id: nat)
    requires SysGrounded(w, s) && !(e.Score? && e.id == id && e.verdict.Honor?) && id in Step(s, e).calls
    ensures CallGrounded(w, Step(s, e).calls[id])
  {
    if id in s.calls { assert CallGrounded(w, s.calls[id]); }
  }

  lemma ScoredCall(w: World, s: Sys, id: nat, v: Verdict)
    requires SysGrounded(w, s) && RowsFit(EnvOf(w), s) && id in s.calls && v.Honor? && Grounded(w, s, Score(id, v))
    ensures CallGrounded(w, ScoreStep(s, id, v).calls[id])
  {
    assert RowFits(EnvOf(w), s.calls[id]) && CallGrounded(w, s.calls[id]);
    VerdictPays(w, s.calls[id].pc.row, v);
  }

  lemma GroundedStep(w: World, s: Sys, e: Event)
    requires SysGrounded(w, s) && RowsFit(EnvOf(w), s) && Grounded(w, s, e)
    ensures SysGrounded(w, Step(s, e))
  {
    forall id | id in Step(s, e).calls ensures CallGrounded(w, Step(s, e).calls[id]) { CallStep(w, s, e, id); }
    LogStep(w, s, e);
  }

  lemma LogStep(w: World, s: Sys, e: Event)
    requires SysGrounded(w, s)
    ensures forall d <- Step(s, e).log :: Pays(w, d.key, d.outpoint)
  {
    HonoredIffDelivered(s, e);
    if e.RunGate? && AtGate(s, e.id) { assert CallGrounded(w, s.calls[e.id]); }
  }

  /** End to end: with verdicts that come from the two forms over honest snapshots of the chain, over any
      run (H1): the gate theorems apply; no key is delivered twice and no outpoint pays twice; every
      delivery is of an existing output that carries that very quote id and exactly the quoted amount and
      pays the quote's payee;
      and the amounts delivered add up to the on-chain value consumed. */
  lemma {:induction false} GoodsOnlyForPayment(w: World, es: seq<Event>)
    requires GroundedRun(w, es)
    ensures AllowedRun(EnvOf(w), es) && ExactRun(EnvOf(w), es)
    ensures SysGrounded(w, Run(es)) && Once(Run(es).log)
    ensures Quoted(EnvOf(w), Run(es).log) == Paid(EnvOf(w), Consumed(Run(es).log))
    decreases |es|
  {
    if es != [] {
      var before := es[..|es| - 1];
      GoodsOnlyForPayment(w, before);
      ExactlyOnceSwept(EnvOf(w), before);
      GroundedIsAllowed(w, Run(before), es[|es| - 1]);
      GroundedStep(w, Run(before), es[|es| - 1]);
    }
    ExactlyOnceSwept(EnvOf(w), es);
    DeliveredIsPaid(EnvOf(w), es);
  }
}
