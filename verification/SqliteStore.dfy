/** SqliteStore (src/adapters/sqlite-store.ts): every statement updates the live tables in place; the
    enclosing better-sqlite3 transaction restores them when its body throws. */
module SqliteStores {
  import opened HonorSpec
  import opened Gate

  class SqliteStore {
    var seen: map<Key, SeenRow>
    var consumed: map<Outpoint, ConsumedRow>
    var goods: set<string>

    function View(): Db
      reads this
    {
      Db(seen, consumed, goods)
    }

    /** The injected connection may already hold rows. */
    constructor (db: Db)
      ensures View() == db
    {
      seen, consumed, goods := db.seen, db.consumed, db.goods;
    }

    /** INSERT ... ON CONFLICT DO NOTHING. */
    method UpsertAccepted(q: AcceptedQuote, acceptedAt: int, retainUntil: int)
      modifies this
      ensures View() == Gate.UpsertAccepted(old(View()), q, acceptedAt, retainUntil)
    {
      if q.KeyOf() !in seen {
        seen := seen[q.KeyOf() := AcceptedRow(q, acceptedAt, retainUntil)];
      }
    }

    method GetSeen(k: Key) returns (row: Option<SeenRow>)
      ensures row.Some? <==> k in seen
      ensures row.Some? ==> row.value == seen[k]
    {
      row := if k in seen then Some(seen[k]) else None;
    }

    method IsOutpointConsumed(o: Outpoint) returns (b: bool)
      ensures b <==> IsTaken(View(), o)
    {
      b := o in consumed && consumed[o].state == HonoredState;
    }

    /** UPDATE ... SET observed_before_expiry=1 WHERE ... AND now < expires_at. */
    method MarkObservedBeforeExpiry(k: Key, now: int)
      modifies this
      ensures View() == MarkObserved(old(View()), k, now)
    {
      if k in seen && now < seen[k].expiresAt {
        seen := seen[k := seen[k].(observedBeforeExpiry := true)];
      }
    }

    method ReserveClaimOutpoint(k: Key, o: Outpoint, claimTxId: Hex)
      modifies this
      ensures View() == Reserve(old(View()), k, o, Some(claimTxId))
    {
      if o !in consumed {
        consumed := consumed[o := ConsumedRow(k, ClaimPending, None, Some(claimTxId), MAX_SAFE_INTEGER)];
      }
    }

    // ---- statements of the honor transaction; each returns changes() ----------------------------

    /** UPDATE quote_seen SET honored_at, honored_tx_id, honored_output_index WHERE <lockable>. */
    method LockSeen(inp: TxnInput) returns (changes: nat)
      modifies this`seen
      ensures changes == 1 <==>
              && inp.key in old(seen) && old(seen)[inp.key].honoredAt == None
              && inp.now < old(seen)[inp.key].retainUntil
              && (inp.now < old(seen)[inp.key].expiresAt || old(seen)[inp.key].observedBeforeExpiry)
      ensures changes == 1 ==>
                seen == old(seen)[inp.key := old(seen)[inp.key].(honoredAt := Some(inp.now),
                                                                 honoredOutpoint := Some(inp.outpoint))]
      ensures changes != 1 ==> seen == old(seen)
    {
      changes := 0;
      if inp.key in seen {
        var row := seen[inp.key];
        if row.honoredAt == None && inp.now < row.retainUntil && (inp.now < row.expiresAt || row.observedBeforeExpiry) {
          seen := seen[inp.key := row.(honoredAt := Some(inp.now), honoredOutpoint := Some(inp.outpoint))];
          changes := 1;
        }
      }
    }

    /** INSERT INTO quote_consumed_outpoint ... 'honored'; false on a primary-key collision. */
    method InsertConsumed(inp: TxnInput) returns (inserted: bool)
      modifies this`consumed
      ensures inserted <==> inp.outpoint !in old(consumed)
      ensures inserted ==>
                consumed
                == old(consumed)[inp.outpoint :=
                     ConsumedRow(inp.key, HonoredState, Some(inp.now), None, inp.retainUntil)]
      ensures !inserted ==> consumed == old(consumed)
    {
      inserted := inp.outpoint !in consumed;
      if inserted {
        consumed := consumed[inp.outpoint := ConsumedRow(inp.key, HonoredState, Some(inp.now), None, inp.retainUntil)];
      }
    }

    /** UPDATE quote_consumed_outpoint SET state='honored' ... WHERE ... AND state='claim_pending'. */
    method PromoteConsumed(inp: TxnInput) returns (changes: nat)
      modifies this`consumed
      ensures changes == 1 <==> inp.outpoint in old(consumed) && old(consumed)[inp.outpoint].state == ClaimPending
      ensures changes == 1 ==>
                consumed == old(consumed)[inp.outpoint := old(consumed)[inp.outpoint].(state := HonoredState,
                                                                                     honoredAt := Some(inp.now),
                                                                                     retainUntil := inp.retainUntil)]
      ensures changes != 1 ==> consumed == old(consumed)
    {
      changes := 0;
      if inp.outpoint in consumed && consumed[inp.outpoint].state == ClaimPending {
        var row := consumed[inp.outpoint];
        row := row.(state := HonoredState, honoredAt := Some(inp.now), retainUntil := inp.retainUntil);
        consumed := consumed[inp.outpoint := row];
        changes := 1;
      }
    }

    /** The consumer's callback: its goods rows land on the same connection one by one. */
    method RunDeliver(d: Deliver)
      modifies this`goods
      ensures goods == old(goods) + (set g | g in d.writes)
    {
      for i := 0 to |d.writes|
        invariant goods == old(goods) + Written(d.writes[..i])
      {
        assert d.writes[..i + 1] == d.writes[..i] + [d.writes[i]];
        goods := goods + {d.writes[i]};
      }
      assert d.writes[..|d.writes|] == d.writes;
    }

    /** The transaction body. When it does not end in Committed it has thrown, with whatever it had
        already written still in the tables. */
    method TxnBody(inp: TxnInput, d: Deliver) returns (r: TxnResult)
      modifies this
      ensures r == HonorTxn(old(View()), inp, d).1
      ensures r == Committed ==> View() == HonorTxn(old(View()), inp, d).0
      ensures r == Committed ==> goods == old(goods) + (set g | g in d.writes)
    {
      var locked := LockSeen(inp);
      if locked != 1 {
        var existing := GetSeen(inp.key);
        if existing.Some? && existing.value.honoredAt.Some? {
          return Violated(SeenAlreadyHonored);
        }
        return Violated(ExpiredWindow);
      }
      if inp.mode == Single {
        var inserted := InsertConsumed(inp);
        if !inserted { return Violated(OutpointTaken); }
      } else {
        var promoted := PromoteConsumed(inp);
        if promoted != 1 { return Violated(OutpointTaken); }
      }
      RunDeliver(d);
      if d.end.Throws? { return DeliverThrew(d.end.error); }
      if d.end == ReturnsThenable { return AsyncDeliver; }
      return Committed;
    }

    /** BEGIN; body; COMMIT, or ROLLBACK when the body throws: all the writes or none. */
    method RunHonorTxn(inp: TxnInput, d: Deliver) returns (r: TxnResult)
      modifies this
      ensures (View(), r) == HonorTxn(old(View()), inp, d)
      ensures r == Committed ==> goods == old(goods) + (set g | g in d.writes)
      ensures r != Committed ==> View() == old(View())
    {
      var seen0, consumed0, goods0 := seen, consumed, goods;
      r := TxnBody(inp, d);
      if r != Committed {
        seen, consumed, goods := seen0, consumed0, goods0;
      }
    }

    /** DELETE ... WHERE retain_until < now, on both tables in one transaction. */
    method Sweep(now: int) returns (seenDeleted: nat, outpointsDeleted: nat)
      modifies this
      ensures View() == Gate.Sweep(old(View()), now)
      ensures seenDeleted == |ExpiredSeen(old(seen), now)| && outpointsDeleted == |ExpiredConsumed(old(consumed), now)|
    {
      var deadSeen := ExpiredSeen(seen, now);
      seen := seen - deadSeen;
      var deadOutpoints := ExpiredConsumed(consumed, now);
      consumed := consumed - deadOutpoints;
      seenDeleted, outpointsDeleted := |deadSeen|, |deadOutpoints|;
    }
  }
}
