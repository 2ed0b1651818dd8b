/** Why the timing hypothesis is needed: `honor` reads the clock on entry, or takes a time its caller
    supplies, and uses that time at commit. */
module StaleHonor {
  import opened HonorSpec
  import opened Gate
  import opened Engine

  /** The synchronous start of an `honor` call: the time and the SEEN row are read together. */
  function Opening(id: nat, k: Key, now: int): seq<Event> { [Enter(id, k, now), Load(id)] }

  /** The sections left after the row was read. */
  function Closing(id: nat, c: Candidate, d: Deliver): seq<Event> {
    [Score(id, Honor(c)), Prepare(id, PrepReady), RunGate(id, d, false)]
  }

  /** Where a call stands after reading the row: over, or with the row captured. */
  function Opened(s: Sys, k: Key): Pc {
    match GateStep0(if k in s.db.seen then Some(s.db.seen[k]) else None)
    case Some(v) => Ended(NotReady(v))
    case None => Loaded(s.db.seen[k])
  }

  lemma LoadOpens(s: Sys, id: nat)
    requires id in s.calls && s.calls[id].pc.Entered?
    ensures Step(s, Load(id)) == SetPc(s, id, Opened(s, s.calls[id].key))
  {
  }

  lemma OpeningRuns(es: seq<Event>, id: nat, k: Key, now: int)
    requires id !in Run(es).calls
    ensures var s := Run(es);
            Run(es + Opening(id, k, now)) == s.(calls := s.calls[id := Call(k, now, Opened(s, k))])
  {
    var entered := es + [Enter(id, k, now)];
    RunSnoc(es, Enter(id, k, now));
    RunSnoc(entered, Load(id));
    assert entered + [Load(id)] == es + Opening(id, k, now);
    LoadOpens(Run(entered), id);
  }

  lemma ClosingSteps(es: seq<Event>, id: nat, c: Candidate, d: Deliver)
    ensures Run(es + Closing(id, c, d))
         == Step(Step(Step(Run(es), Score(id, Honor(c))), Prepare(id, PrepReady)), RunGate(id, d, false))
  {
    var scored := es + [Score(id, Honor(c))];
    var prepared := scored + [Prepare(id, PrepReady)];
    RunSnoc(es, Score(id, Honor(c)));
    RunSnoc(scored, Prepare(id, PrepReady));
    RunSnoc(prepared, RunGate(id, d, false));
    assert prepared + [RunGate(id, d, false)] == es + Closing(id, c, d);
  }

  /** The transaction a call that has read `row` at `now` ends in. */
  function ClosingInput(k: Key, now: int, row: SeenRow, c: Candidate): TxnInput {
    TxnInput(k, c.outpoint, now, row.retainUntil, ModeOf(row.form))
  }

  lemma ClosingRuns(es: seq<Event>, id: nat, c: Candidate, d: Deliver)
    requires id in Run(es).calls && Run(es).calls[id].pc.Loaded?
    ensures var s, s' := Run(es), Run(es + Closing(id, c, d));
            var inp := ClosingInput(s.calls[id].key, s.calls[id].now, s.calls[id].pc.row, c);
            && s'.db == HonorTxn(s.db, inp, d).0
            && s'.log == (if HonorTxn(s.db, inp, d).1 == Committed then s.log + [DeliveryOf(inp)] else s.log)
            && s'.swept == s.swept && id in s'.calls && s'.calls == s.calls[id := s'.calls[id]]
  {
    ClosingSteps(es, id, c, d);
  }

  /** Registered, two calls read the same row at `stale` and `now`, the second runs to its end. */
  function FirstHonor(q: AcceptedQuote, window: int, c: Candidate, d: Deliver, stale: int, now: int): seq<Event> {
    [Register(q, now, window)] + Opening(0, q.KeyOf(), stale) + Opening(1, q.KeyOf(), now) + Closing(1, c, d)
  }

  /** ... then the quote is swept and registered again, and the first call runs to its end. */
  function StaleRun(
    q: AcceptedQuote, window: int, c: Candidate, d: Deliver, stale: int, now: int, sweep: int
  ): seq<Event> {
    FirstHonor(q, window, c, d, stale, now) + [SweepAt(sweep)] + [Register(q, sweep, window)] + Closing(0, c, d)
  }

  lemma BothRead(q: AcceptedQuote, window: int, stale: int, now: int)
    ensures var k, row := q.KeyOf(), AcceptedRow(q, now, q.expiresAt + window);
            var s := Run([Register(q, now, window)] + Opening(0, k, stale) + Opening(1, k, now));
            && s.db == Db(map[k := row], map[], {}) && s.log == [] && s.swept.None?
            && 0 in s.calls && s.calls[0] == Call(k, stale, Loaded(row))
            && 1 in s.calls && s.calls[1] == Call(k, now, Loaded(row))
  {
    var k := q.KeyOf();
    var registered := [Register(q, now, window)];
    RunSnoc([], Register(q, now, window));
    assert [] + registered == registered;
    OpeningRuns(registered, 0, k, stale);
    OpeningRuns(registered + Opening(0, k, stale), 1, k, now);
  }

  lemma FirstHonorRuns(q: AcceptedQuote, window: int, c: Candidate, d: Deliver, stale: int, now: int)
    requires q.form == Plain && d.end == Returns && now < q.expiresAt && now < q.expiresAt + window
    ensures var s, row := Run(FirstHonor(q, window, c, d, stale, now)), AcceptedRow(q, now, q.expiresAt + window);
            && s.log == [Delivery(q.KeyOf(), c.outpoint, now, Single)] && s.swept.None?
            && 0 in s.calls && s.calls[0] == Call(q.KeyOf(), stale, Loaded(row))
            && s.db.seen.Keys == {q.KeyOf()} && s.db.seen[q.KeyOf()].retainUntil == q.expiresAt + window
            && s.db.consumed.Keys == {c.outpoint} && s.db.consumed[c.outpoint].retainUntil == q.expiresAt + window
  {
    BothRead(q, window, stale, now);
    ClosingRuns([Register(q, now, window)] + Opening(0, q.KeyOf(), stale) + Opening(1, q.KeyOf(), now), 1, c, d);
  }

  /** The state the stale call comes back to: its quote registered afresh, no outpoint consumed. */
  lemma RegisteredAgain(
    q: AcceptedQuote, window: int, c: Candidate, d: Deliver, stale: int, now: int, sweep: int
  )
    requires q.form == Plain && d.end == Returns && now < q.expiresAt && now < q.expiresAt + window < sweep
    ensures var s := Run(FirstHonor(q, window, c, d, stale, now) + [SweepAt(sweep)] + [Register(q, sweep, window)]);
            && s.log == [Delivery(q.KeyOf(), c.outpoint, now, Single)]
            && 0 in s.calls && s.calls[0] == Call(q.KeyOf(), stale, Loaded(AcceptedRow(q, now, q.expiresAt + window)))
            && s.db.seen == map[q.KeyOf() := AcceptedRow(q, sweep, q.expiresAt + window)] && s.db.consumed == map[]
  {
    var es := FirstHonor(q, window, c, d, stale, now);
    FirstHonorRuns(q, window, c, d, stale, now);
    RunSnoc(es, SweepAt(sweep));
    RunSnoc(es + [SweepAt(sweep)], Register(q, sweep, window));
    assert Run(es + [SweepAt(sweep)]).db.seen == map[] && Run(es + [SweepAt(sweep)]).db.consumed == map[];
  }

  /** A call that read the clock and the row, and commits after the quote was delivered, swept and registered
      again, delivers the same quote from the same outpoint a second time; it does so exactly when its
      stale time still falls inside the quote's life and retention. */
  lemma StaleHonorPaysTwice(
    q: AcceptedQuote, window: int, c: Candidate, d: Deliver, stale: int, now: int, sweep: int
  )
    requires q.form == Plain && d.end == Returns && now < q.expiresAt && now < q.expiresAt + window < sweep
    ensures var log := Run(StaleRun(q, window, c, d, stale, now, sweep)).log;
            var first := Delivery(q.KeyOf(), c.outpoint, now, Single);
            var second := Delivery(q.KeyOf(), c.outpoint, stale, Single);
            log == if stale < q.expiresAt && stale < q.expiresAt + window then [first, second] else [first]
  {
    RegisteredAgain(q, window, c, d, stale, now, sweep);
    ClosingRuns(FirstHonor(q, window, c, d, stale, now) + [SweepAt(sweep)] + [Register(q, sweep, window)], 0, c, d);
  }

  lemma ReadBeforeSweep(q: AcceptedQuote, window: int, c: Candidate, d: Deliver, stale: int)
    requires q.form == Plain && d.end == Returns && stale < q.expiresAt && stale < q.expiresAt + window
    ensures Run([Register(q, stale, window)] + Opening(0, q.KeyOf(), stale) + Closing(0, c, d)).log
         == [Delivery(q.KeyOf(), c.outpoint, stale, Single)]
  {
    var registered := [Register(q, stale, window)];
    RunSnoc([], Register(q, stale, window));
    assert [] + registered == registered;
    OpeningRuns(registered, 0, q.KeyOf(), stale);
    ClosingRuns(registered + Opening(0, q.KeyOf(), stale), 0, c, d);
  }

  lemma ReadAfterSweep(q: AcceptedQuote, window: int, c: Candidate, d: Deliver, stale: int, sweep: int)
    requires q.expiresAt + window < sweep
    ensures Run([Register(q, stale, window)] + [SweepAt(sweep)] + Opening(0, q.KeyOf(), stale) + Closing(0, c, d)).log
         == []
  {
    var registered := [Register(q, stale, window)];
    var swept := registered + [SweepAt(sweep)];
    RunSnoc([], Register(q, stale, window));
    assert [] + registered == registered;
    RunSnoc(registered, SweepAt(sweep));
    assert q.KeyOf() !in Run(swept).db.seen;
    OpeningRuns(swept, 0, q.KeyOf(), stale);
    ClosingSteps(swept + Opening(0, q.KeyOf(), stale), 0, c, d);
  }

  /** A call whose caller supplies a time from before a sweep finds no row, and delivers when the sweep is
      left out: without H1 on calls that never reach the gate, sweeping can be observed. */
  lemma StaleReadSeesTheSweep(q: AcceptedQuote, window: int, c: Candidate, d: Deliver, stale: int, sweep: int)
    requires q.form == Plain && d.end == Returns && stale < q.expiresAt && stale < q.expiresAt + window < sweep
    ensures var registered, k := [Register(q, stale, window)], q.KeyOf();
            && Run(registered + [SweepAt(sweep)] + Opening(0, k, stale) + Closing(0, c, d)).log == []
            && Run(registered + Opening(0, k, stale) + Closing(0, c, d)).log
               == [Delivery(k, c.outpoint, stale, Single)]
  {
    ReadBeforeSweep(q, window, c, d, stale);
    ReadAfterSweep(q, window, c, d, stale, sweep);
  }
}
