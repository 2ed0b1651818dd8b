/** The two-table gate as a value: what each atomic store operation does to the SEEN table, the
    CONSUMED table and the consumer's goods (src/ports/store.ts, src/adapters/ddl.ts). The concrete
    stores are proved against these functions. */
module Gate {
  import opened HonorSpec

  datatype Db = Db(seen: map<Key, SeenRow>, consumed: map<Outpoint, ConsumedRow>, goods: set<string>)

  const EMPTY_DB := Db(map[], map[], {})

  datatype TxnInput = TxnInput(key: Key, outpoint: Outpoint, now: int, retainUntil: int, mode: GateMode)

  datatype Violation = SeenAlreadyHonored | ExpiredWindow | OutpointTaken

  /** What the consumer's callback does inside the transaction: it writes goods rows and then
      returns, throws an error of its choice, or returns a thenable. */
  datatype DeliverEnd = Returns | Throws(error: Fault) | ReturnsThenable
  datatype Deliver = Deliver(writes: seq<string>, end: DeliverEnd)

  datatype TxnResult = Committed | Violated(kind: Violation) | DeliverThrew(error: Fault) | AsyncDeliver

  function Written(writes: seq<string>): set<string> { set g | g in writes }

  /** The outpoint has been spent on goods; a reservation does not count. */
  predicate IsTaken(db: Db, o: Outpoint) { o in db.consumed && db.consumed[o].state == HonoredState }

  // ---- row-level operations -------------------------------------------------------------------------------

  function UpsertAccepted(db: Db, q: AcceptedQuote, acceptedAt: int, retainUntil: int): Db {
    if q.KeyOf() in db.seen then db
    else db.(seen := db.seen[q.KeyOf() := AcceptedRow(q, acceptedAt, retainUntil)])
  }

  function MarkObserved(db: Db, k: Key, now: int): Db {
    if k in db.seen && now < db.seen[k].expiresAt then
      db.(seen := db.seen[k := db.seen[k].(observedBeforeExpiry := true)])
    else db
  }

  function Reserve(db: Db, k: Key, o: Outpoint, claimTxId: Option<Hex>): Db {
    if o in db.consumed then db
    else db.(consumed := db.consumed[o := ConsumedRow(k, ClaimPending, None, claimTxId, MAX_SAFE_INTEGER)])
  }

  function ExpiredSeen(m: map<Key, SeenRow>, now: int): set<Key> {
    set k | k in m && m[k].retainUntil < now
  }

  function ExpiredConsumed(m: map<Outpoint, ConsumedRow>, now: int): set<Outpoint> {
    set o | o in m && m[o].retainUntil < now
  }

  function Sweep(db: Db, now: int): Db {
    db.(seen := db.seen - ExpiredSeen(db.seen, now), consumed := db.consumed - ExpiredConsumed(db.consumed, now))
  }

  // ---- the honor transaction ------------------------------------------------------------------------------

  /** The row can be locked at `now`: not honored, inside retention, and inside the quote's life or
      observed during it. */
  predicate Lockable(row: SeenRow, now: int) {
    row.honoredAt.None? && now < row.retainUntil && (now < row.expiresAt || row.observedBeforeExpiry)
  }

  /** The outpoint may be taken in this mode: unused for 'single', claim_pending for 'promote'. */
  predicate Takeable(consumed: map<Outpoint, ConsumedRow>, o: Outpoint, mode: GateMode) {
    match mode
    case Single => o !in consumed
    case Promote => o in consumed && consumed[o].state == ClaimPending
  }

  function GateCheck(db: Db, inp: TxnInput): Option<Violation> {
    if inp.key in db.seen && db.seen[inp.key].honoredAt.Some? then Some(SeenAlreadyHonored)
    else if inp.key !in db.seen || !Lockable(db.seen[inp.key], inp.now) then Some(ExpiredWindow)
    else if !Takeable(db.consumed, inp.outpoint, inp.mode) then Some(OutpointTaken)
    else None
  }

  function LockedRow(row: SeenRow, inp: TxnInput): SeenRow {
    row.(honoredAt := Some(inp.now), honoredOutpoint := Some(inp.outpoint))
  }

  /** The consumed row after the gate: fresh for 'single', the reserved row promoted otherwise. */
  function TakenRow(consumed: map<Outpoint, ConsumedRow>, inp: TxnInput): ConsumedRow {
    if inp.mode.Promote? && inp.outpoint in consumed then
      consumed[inp.outpoint].(state := HonoredState, honoredAt := Some(inp.now), retainUntil := inp.retainUntil)
    else
      ConsumedRow(inp.key, HonoredState, Some(inp.now), None, inp.retainUntil)
  }

  function Publish(db: Db, inp: TxnInput, writes: seq<string>): Db
    requires GateCheck(db, inp).None?
  {
    Db(db.seen[inp.key := LockedRow(db.seen[inp.key], inp)],
       db.consumed[inp.outpoint := TakenRow(db.consumed, inp)],
       db.goods + Written(writes))
  }

  function HonorTxn(db: Db, inp: TxnInput, d: Deliver): (Db, TxnResult) {
    if GateCheck(db, inp).Some? then (db, Violated(GateCheck(db, inp).value))
    else match d.end
      case Returns => (Publish(db, inp, d.writes), Committed)
      case Throws(error) => (db, DeliverThrew(error))
      case ReturnsThenable => (db, AsyncDeliver)
  }

  /** What a transaction does, by the rules and the rows as they stand: which violation it meets, in this
      order, and what a commit leaves in each table and in the goods. Anything but a commit leaves all
      of them alone. */
  lemma HonorTxnByRule(db: Db, inp: TxnInput, d: Deliver)
    ensures var (db', r) := HonorTxn(db, inp, d);
            var known, free := inp.key in db.seen, inp.outpoint !in db.consumed;
            var live := known && db.seen[inp.key].honoredAt == None && inp.now < db.seen[inp.key].retainUntil
                        && (inp.now < db.seen[inp.key].expiresAt || db.seen[inp.key].observedBeforeExpiry);
            var open := if inp.mode == Single then free else !free && db.consumed[inp.outpoint].state == ClaimPending;
            && (r == Violated(SeenAlreadyHonored) <==> known && db.seen[inp.key].honoredAt != None)
            && (r == Violated(ExpiredWindow) <==> !live && !(known && db.seen[inp.key].honoredAt != None))
            && (r == Violated(OutpointTaken) <==> live && !open)
            && (r == Committed <==> live && open && d.end == Returns)
            && (r == AsyncDeliver <==> live && open && d.end == ReturnsThenable)
            && (forall error :: r == DeliverThrew(error) <==> live && open && d.end == Throws(error))
            && (r != Committed ==> db' == db)
            && (r == Committed ==>
                  var row := db.seen[inp.key].(honoredAt := Some(inp.now), honoredOutpoint := Some(inp.outpoint));
                  && db'.seen == db.seen[inp.key := row]
                  && db'.goods == db.goods + (set g | g in d.writes)
                  && inp.outpoint in db'.consumed
                  && db'.consumed == db.consumed[inp.outpoint := db'.consumed[inp.outpoint]]
                  && var taken := db'.consumed[inp.outpoint];
                  && taken.state == HonoredState && taken.honoredAt == Some(inp.now)
                  && taken.retainUntil == inp.retainUntil
                  && (free ==> taken.key == inp.key && taken.claimTxId == None)
                  && (!free ==> taken.key == db.consumed[inp.outpoint].key
                                && taken.claimTxId == db.consumed[inp.outpoint].claimTxId))
  {
  }

  // ---- runs of attempts -----------------------------------------------------------------------------------

  datatype Attempt = Attempt(inp: TxnInput, deliver: Deliver)

  function RunAttempts(db: Db, ts: seq<Attempt>): Db
    decreases ts
  {
    if ts == [] then db else RunAttempts(HonorTxn(db, ts[0].inp, ts[0].deliver).0, ts[1..])
  }

  /** The attempts of a run that commit in it, in order. */
  function Successes(db: Db, ts: seq<Attempt>): seq<Attempt>
    decreases ts
  {
    if ts == [] then []
    else
      var (next, r) := HonorTxn(db, ts[0].inp, ts[0].deliver);
      (if r == Committed then [ts[0]] else []) + Successes(next, ts[1..])
  }

  /** Failing attempts leave no trace: a run of honor transactions equals the run of its successful
      ones, each of which still succeeds without the failures around it. */
  lemma {:induction false} FailuresLeaveNoTrace(db: Db, ts: seq<Attempt>)
    ensures RunAttempts(db, Successes(db, ts)) == RunAttempts(db, ts)
    ensures Successes(db, Successes(db, ts)) == Successes(db, ts)
    decreases ts
  {
    if ts != [] {
      var (next, r) := HonorTxn(db, ts[0].inp, ts[0].deliver);
      FailuresLeaveNoTrace(next, ts[1..]);
      if r == Committed {
        assert Successes(db, ts)[1..] == Successes(next, ts[1..]);
      } else {
        assert next == db && Successes(db, ts) == Successes(next, ts[1..]);
      }
    }
  }

  /** Any number of failing attempts followed by a good one equals the good one alone; in
      particular a failed promote leaves the reservation it needs. */
  lemma {:induction false} RetryAfterFailures(db: Db, ts: seq<Attempt>, t: Attempt)
    requires Successes(db, ts) == []
    ensures RunAttempts(db, ts + [t]) == HonorTxn(db, t.inp, t.deliver).0
    ensures Successes(db, ts + [t]) == Successes(db, [t])
    decreases ts
  {
    if ts == [] {
      assert ts + [t] == [t];
      assert RunAttempts(HonorTxn(db, t.inp, t.deliver).0, []) == HonorTxn(db, t.inp, t.deliver).0;
      assert [t][1..] == [];
    } else {
      assert HonorTxn(db, ts[0].inp, ts[0].deliver).1 != Committed;
      assert (ts + [t])[1..] == ts[1..] + [t];
      RetryAfterFailures(db, ts[1..], t);
    }
  }
}
