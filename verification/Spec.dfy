/** The value types of the standard (src/spec/types.ts, src/ports/store.ts): quotes, outpoints,
    verdicts, outcomes and the two persisted row shapes. Free-text `detail` strings are dropped. */
module HonorSpec {

  type Hex = string

  datatype Option<+T> = None | Some(value: T)

  datatype Form = Plain | Htlc

  /** (signerPubkey, quoteId): the key of a SEEN row. */
  datatype Key = Key(signer: Hex, quoteId: Hex)

  datatype Outpoint = Outpoint(txId: Hex, outputIndex: nat)

  datatype AcceptedQuote = AcceptedQuote(
    quoteId: Hex,
    signer: Hex,
    payee: Hex,
    payer: Option<Hex>,
    exferAmount: nat,
    expiresAt: int,
    issuedAt: int,
    form: Form)
  {
    function KeyOf(): Key { Key(signer, quoteId) }
  }

  datatype Candidate = Candidate(
    form: Form,
    quoteId: Hex,
    outpoint: Outpoint,
    value: nat,
    scriptHex: Hex,
    blockHeight: Option<int>)

  /** What `discover` returns for an outpoint. */
  datatype RawCandidate = RawCandidate(outpoint: Outpoint, value: nat, scriptHex: Hex, blockHeight: Option<int>)

  datatype OnChainHtlc = OnChainHtlc(receiver: Hex, sender: Hex, timeoutHeight: int, value: nat)

  datatype WaitReason = NoCandidate | InsufficientDepth | HtlcClaimPending | ReorgWithheld

  datatype DeclineReason =
    | ExpiredUnobserved
    | AmountMismatch
    | DatumUnhonorable
    | AddressMismatch
    | PayeeNotControlled
    | PayerBindingFailed
    | AlreadyHonored
    | OutpointConsumed

  datatype Verdict =
    | Honor(candidate: Candidate)
    | Wait(waitFor: WaitReason)
    | Decline(reason: DeclineReason)

  /** What `honor` answers; `Threw` stands for a rejected promise (infra fault, contract violation
      or a re-thrown delivery error). */
  datatype Outcome =
    | Honored(outpoint: Outpoint)
    | NotReady(verdict: Verdict)
    | DeliveryFailed
    | Threw(fault: Fault)

  /** DeliverError is any error of the consumer's own, ChainError any plain Error of the adapter. */
  datatype Fault =
    | MalformedQuote
    | ContractViolation
    | DeliverError
    | ChainFault
    | KeystoreFault
    | DbFault
    | IndexerFault
    | ChainError
    | MarginAssertion

  /** A row of quote_seen. */
  datatype SeenRow = SeenRow(
    key: Key,
    payee: Hex,
    payer: Option<Hex>,
    exferAmount: nat,
    form: Form,
    acceptedAt: int,
    expiresAt: int,
    observedBeforeExpiry: bool,
    honoredAt: Option<int>,
    honoredOutpoint: Option<Outpoint>,
    retainUntil: int)

  datatype ConsumedState = ClaimPending | HonoredState

  /** A row of quote_consumed_outpoint. */
  datatype ConsumedRow = ConsumedRow(
    key: Key,
    state: ConsumedState,
    honoredAt: Option<int>,
    claimTxId: Option<Hex>,
    retainUntil: int)

  /** 'single' inserts the outpoint as honored; 'promote' turns claim_pending into honored. */
  datatype GateMode = Single | Promote

  function ModeOf(form: Form): GateMode {
    match form
    case Plain => Single
    case Htlc => Promote
  }

  /** Number.MAX_SAFE_INTEGER, the retention of a claim_pending row. */
  const MAX_SAFE_INTEGER: int := 9007199254740991

  /** The row `upsertAccepted` inserts for a fresh quote. */
  function AcceptedRow(q: AcceptedQuote, acceptedAt: int, retainUntil: int): SeenRow {
    SeenRow(q.KeyOf(), q.payee, q.payer, q.exferAmount, q.form, acceptedAt, q.expiresAt, false, None, None, retainUntil)
  }

  /** The quote the scorer rebuilds from a SEEN row. */
  function QuoteFromSeen(row: SeenRow): AcceptedQuote {
    AcceptedQuote(row.key.quoteId, row.key.signer, row.payee, row.payer, row.exferAmount, row.expiresAt,
                  row.acceptedAt, row.form)
  }

  /** Persisting a quote and rebuilding it keeps every field but `issuedAt`, which becomes the
      acceptance time: the quote survives unchanged exactly when it was accepted when issued. */
  lemma QuoteRoundTrip(q: AcceptedQuote, acceptedAt: int, retainUntil: int)
    ensures QuoteFromSeen(AcceptedRow(q, acceptedAt, retainUntil)) == q.(issuedAt := acceptedAt)
    ensures QuoteFromSeen(AcceptedRow(q, acceptedAt, retainUntil)) == q <==> acceptedAt == q.issuedAt
  {
  }

  /** The string under which the engine, the HTLC form and the fake store key their maps. */
  function RowKey(k: Key): string { k.signer + ":" + k.quoteId }

  ghost predicate NoColon(s: string) { forall i :: 0 <= i < |s| ==> s[i] != ':' }

  /** Public keys are hex, so the string key identifies the pair and the models below key their
      maps by the pair itself. */
  lemma RowKeyInjective(a: Key, b: Key)
    requires NoColon(a.signer) && NoColon(b.signer)
    ensures RowKey(a) == RowKey(b) <==> a == b
  {
    FirstColon(a);
    FirstColon(b);
    if RowKey(a) == RowKey(b) {
      assert a.signer == RowKey(a)[..|a.signer|] && b.signer == RowKey(b)[..|b.signer|];
      assert a.quoteId == RowKey(a)[|a.signer| + 1..] && b.quoteId == RowKey(b)[|b.signer| + 1..];
    }
  }

  lemma FirstColon(k: Key)
    requires NoColon(k.signer)
    ensures |k.signer| < |RowKey(k)| && RowKey(k)[|k.signer|] == ':'
    ensures forall i :: 0 <= i < |k.signer| ==> RowKey(k)[i] != ':'
  {
  }
}
