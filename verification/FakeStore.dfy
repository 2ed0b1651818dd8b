/** FakeSyncStore (src/core/fakes.test-helpers.ts): the same gate with staged copies that are
    published only at commit, and the agreement of the two stores. */
module FakeStores {
  import opened HonorSpec
  import opened Gate

  /** The fake keeps no claim_tx_id column, so its rows carry None there. */
  class FakeSyncStore {
    var seen: map<Key, SeenRow>
    var outpoints: map<Outpoint, ConsumedRow>
    var goods: set<string>
    var deliverCount: nat

    function View(): Db
      reads this
    {
      Db(seen, outpoints, goods)
    }

    constructor ()
      ensures View() == EMPTY_DB && deliverCount == 0
    {
      seen, outpoints, goods, deliverCount := map[], map[], {}, 0;
    }

    method UpsertAccepted(q: AcceptedQuote, acceptedAt: int, retainUntil: int)
      modifies this`seen
      ensures View() == Gate.UpsertAccepted(old(View()), q, acceptedAt, retainUntil)
    {
      var k := q.KeyOf();
      if k in seen { return; }
      seen := seen[k := AcceptedRow(q, acceptedAt, retainUntil)];
    }

    method MarkObservedBeforeExpiry(k: Key, now: int)
      modifies this`seen
      ensures View() == MarkObserved(old(View()), k, now)
    {
      if k in seen && now < seen[k].expiresAt {
        seen := seen[k := seen[k].(observedBeforeExpiry := true)];
      }
    }

    method ReserveClaimOutpoint(k: Key, o: Outpoint)
      modifies this`outpoints
      ensures View() == Reserve(old(View()), k, o, None)
    {
      if o in outpoints { return; }
      outpoints := outpoints[o := ConsumedRow(k, ClaimPending, None, None, MAX_SAFE_INTEGER)];
    }

    /** The staged-commit transaction: nothing live changes before the three publishing steps. */
    method RunHonorTxn(inp: TxnInput, d: Deliver) returns (r: TxnResult)
      modifies this
      ensures (View(), r) == HonorTxn(old(View()), inp, d)
      ensures r == Committed ==> goods == old(goods) + (set g | g in d.writes)
      ensures r != Committed ==> View() == old(View())
      ensures deliverCount == old(deliverCount) + (if r == Committed || r.DeliverThrew? then 1 else 0)
    {
      if inp.key !in seen { return Violated(ExpiredWindow); }
      var stagedSeen := seen[inp.key];
      if stagedSeen.honoredAt.Some? { return Violated(SeenAlreadyHonored); }
      var insideRetention := inp.now < stagedSeen.retainUntil;
      var lateHonorOk := inp.now < stagedSeen.expiresAt || stagedSeen.observedBeforeExpiry;
      if !insideRetention || !lateHonorOk { return Violated(ExpiredWindow); }
      stagedSeen := stagedSeen.(honoredAt := Some(inp.now));
      stagedSeen := stagedSeen.(honoredOutpoint := Some(inp.outpoint));

      var stagedOutpoint;
      if inp.mode == Single {
        if inp.outpoint in outpoints { return Violated(OutpointTaken); }
        stagedOutpoint := ConsumedRow(inp.key, HonoredState, Some(inp.now), None, inp.retainUntil);
      } else {
        if inp.outpoint !in outpoints { return Violated(OutpointTaken); }
        var row := outpoints[inp.outpoint];
        if row.state != ClaimPending { return Violated(OutpointTaken); }
        stagedOutpoint :=
          row.(state := HonoredState, honoredAt := Some(inp.now), retainUntil := inp.retainUntil);
      }

      deliverCount := deliverCount + 1;
      var stagedGoods := Stage(d);
      if d.end.Throws? { return DeliverThrew(d.end.error); }
      if d.end == ReturnsThenable {
        deliverCount := deliverCount - 1;
        return AsyncDeliver;
      }

      seen := seen[inp.key := stagedSeen];
      outpoints := outpoints[inp.outpoint := stagedOutpoint];
      goods := goods + stagedGoods;
      return Committed;
    }

    /** `stageGoods`, called by the consumer once per goods row. */
    method Stage(d: Deliver) returns (staged: set<string>)
      ensures staged == set g | g in d.writes
    {
      staged := {};
      for i := 0 to |d.writes|
        invariant staged == Written(d.writes[..i])
      {
        assert d.writes[..i + 1] == d.writes[..i] + [d.writes[i]];
        staged := staged + {d.writes[i]};
      }
      assert d.writes[..|d.writes|] == d.writes;
    }

    /** Deletes expired rows one at a time, counting them. */
    method Sweep(now: int) returns (seenDeleted: nat, outpointsDeleted: nat)
      modifies this`seen, this`outpoints
      ensures View() == Gate.Sweep(old(View()), now)
      ensures seenDeleted == |ExpiredSeen(old(seen), now)| && outpointsDeleted == |ExpiredConsumed(old(outpoints), now)|
    {
      seenDeleted := SweepSeen(now);
      outpointsDeleted := SweepOutpoints(now);
    }

    method SweepSeen(now: int) returns (deleted: nat)
      modifies this`seen
      ensures seen == old(seen) - ExpiredSeen(old(seen), now)
      ensures deleted == |ExpiredSeen(old(seen), now)|
    {
      deleted := 0;
      var todo := seen.Keys;
      ghost var all, dead := seen, {};
      while todo != {}
        invariant todo <= all.Keys && seen == all - dead && deleted == |dead|
        invariant forall k :: k in dead <==> k in all && k !in todo && all[k].retainUntil < now
      {
        var k :| k in todo;
        todo := todo - {k};
        DropOne(all, dead, k);
        if seen[k].retainUntil < now {
          seen := seen - {k};
          dead := dead + {k};
          deleted := deleted + 1;
        }
      }
      assert dead == ExpiredSeen(all, now);
    }

    method SweepOutpoints(now: int) returns (deleted: nat)
      modifies this`outpoints
      ensures outpoints == old(outpoints) - ExpiredConsumed(old(outpoints), now)
      ensures deleted == |ExpiredConsumed(old(outpoints), now)|
    {
      deleted := 0;
      var todo := outpoints.Keys;
      ghost var all, dead := outpoints, {};
      while todo != {}
        invariant todo <= all.Keys && outpoints == all - dead && deleted == |dead|
        invariant forall o :: o in dead <==> o in all && o !in todo && all[o].retainUntil < now
      {
        var o :| o in todo;
        todo := todo - {o};
        DropOne(all, dead, o);
        if outpoints[o].retainUntil < now {
          outpoints := outpoints - {o};
          dead := dead + {o};
          deleted := deleted + 1;
        }
      }
      assert dead == ExpiredConsumed(all, now);
    }
  }

  lemma DropOne<K, V>(all: map<K, V>, dead: set<K>, k: K)
    requires k in all && k !in dead
    ensures k in all - dead && (all - dead)[k] == all[k]
    ensures (all - dead) - {k} == all - (dead + {k})
    ensures |dead + {k}| == |dead| + 1
  {
  }

  // ---- the two stores agree -------------------------------------------------------------------------------

  datatype Op =
    | OpUpsert(q: AcceptedQuote, acceptedAt: int, retainUntil: int)
    | OpObserve(k: Key, now: int)
    | OpReserve(k: Key, o: Outpoint, claimTxId: Hex)
    | OpHonor(inp: TxnInput, d: Deliver)
    | OpSweep(now: int)

  datatype OpResult = Nothing | Ended(r: TxnResult) | Deleted(seenRows: nat, outpointRows: nat)

  /** One store operation; `keepsClaimTx` tells SqliteStore (true) from the fake (false). */
  function Apply(db: Db, op: Op, keepsClaimTx: bool): (Db, OpResult) {
    match op
    case OpUpsert(q, at, retain) => (Gate.UpsertAccepted(db, q, at, retain), Nothing)
    case OpObserve(k, now) => (MarkObserved(db, k, now), Nothing)
    case OpReserve(k, o, tx) => (Reserve(db, k, o, if keepsClaimTx then Some(tx) else None), Nothing)
    case OpHonor(inp, d) => var (next, r) := HonorTxn(db, inp, d); (next, Ended(r))
    case OpSweep(now) =>
      (Gate.Sweep(db, now), Deleted(|ExpiredSeen(db.seen, now)|, |ExpiredConsumed(db.consumed, now)|))
  }

  function RunOps(db: Db, ops: seq<Op>, keepsClaimTx: bool): (Db, seq<OpResult>)
    decreases ops
  {
    if ops == [] then (db, [])
    else
      var (next, r) := Apply(db, ops[0], keepsClaimTx);
      var (last, rs) := RunOps(next, ops[1..], keepsClaimTx);
      (last, [r] + rs)
  }

  /** What a SQLite database looks like to the fake: the same tables without claim_tx_id. */
  function Forget(db: Db): Db {
    db.(consumed := map o | o in db.consumed :: db.consumed[o].(claimTxId := None))
  }

  lemma HonorAgrees(db: Db, inp: TxnInput, d: Deliver)
    ensures HonorTxn(Forget(db), inp, d) == (Forget(HonorTxn(db, inp, d).0), HonorTxn(db, inp, d).1)
  {
    assert HonorTxn(Forget(db), inp, d).0.consumed == Forget(HonorTxn(db, inp, d).0).consumed;
  }

  lemma SweepAgrees(db: Db, now: int)
    ensures Gate.Sweep(Forget(db), now) == Forget(Gate.Sweep(db, now))
    ensures ExpiredConsumed(Forget(db).consumed, now) == ExpiredConsumed(db.consumed, now)
  {
    assert ExpiredConsumed(Forget(db).consumed, now) == ExpiredConsumed(db.consumed, now);
    assert Gate.Sweep(Forget(db), now).consumed == Forget(Gate.Sweep(db, now)).consumed;
  }

  lemma ApplyAgrees(db: Db, op: Op)
    ensures Apply(Forget(db), op, false) == (Forget(Apply(db, op, true).0), Apply(db, op, true).1)
  {
    match op
    case OpUpsert(_, _, _) =>
    case OpObserve(_, _) =>
    case OpReserve(k, o, tx) =>
      assert Reserve(Forget(db), k, o, None).consumed == Forget(Reserve(db, k, o, Some(tx))).consumed;
    case OpHonor(inp, d) => HonorAgrees(db, inp, d);
    case OpSweep(now) => SweepAgrees(db, now);
  }

  /** In-place writes with rollback refine staged commits: over any sequence of store operations the
      two stores answer alike, violation kinds and sweep counts included, and hold the same rows and
      goods up to the column the fake does not have. */
  lemma {:induction false} StoresAgree(db: Db, ops: seq<Op>)
    ensures RunOps(Forget(db), ops, false) == (Forget(RunOps(db, ops, true).0), RunOps(db, ops, true).1)
    decreases ops
  {
    if ops != [] {
      ApplyAgrees(db, ops[0]);
      StoresAgree(Apply(db, ops[0], true).0, ops[1..]);
    }
  }
}
