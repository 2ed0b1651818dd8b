/** The canonical transaction wire format (src/adapters/indexer-chain.ts:295-309) as a serializer, and
    the parser the decoder is proved against. */
module TxCodec {
  import opened HonorSpec
  import opened LittleEndian

  // ---- transactions and their serialization ---------------------------------------------------------------

  datatype TxIn = TxIn(prevTxId: seq<Byte>, prevIndex: nat)

  datatype TxOut = TxOut(value: nat, script: seq<Byte>, datum: Option<seq<Byte>>, datumHash: Option<seq<Byte>>)

  datatype Tx = Tx(inputs: seq<TxIn>, outputs: seq<TxOut>)

  predicate ValidIn(i: TxIn) { |i.prevTxId| == 32 && i.prevIndex < Pow256(4) }

  predicate ValidOut(o: TxOut) {
    && o.value < Pow256(8) && |o.script| < Pow256(2)
    && (o.datum.Some? ==> |o.datum.value| < Pow256(2))
    && (o.datumHash.Some? ==> |o.datumHash.value| == 32)
  }

  /** Within the format's u16 counts and lengths and its fixed-width fields. */
  predicate ValidTx(tx: Tx) {
    && |tx.inputs| < Pow256(2) && |tx.outputs| < Pow256(2)
    && (forall i :: 0 <= i < |tx.inputs| ==> ValidIn(tx.inputs[i]))
    && (forall i :: 0 <= i < |tx.outputs| ==> ValidOut(tx.outputs[i]))
  }

  function SerVar(bs: seq<Byte>): seq<Byte> { Bytes(|bs|, 2) + bs }

  function SerIn(i: TxIn): seq<Byte> { i.prevTxId + Bytes(i.prevIndex, 4) }

  function SerOptVar(d: Option<seq<Byte>>): seq<Byte> { if d.Some? then [1] + SerVar(d.value) else [0] }

  function SerOptHash(h: Option<seq<Byte>>): seq<Byte> { if h.Some? then [1] + h.value else [0] }

  function SerOut(o: TxOut): seq<Byte> {
    Bytes(o.value, 8) + (SerVar(o.script) + (SerOptVar(o.datum) + SerOptHash(o.datumHash)))
  }

  /** The items of a list one after another. */
  function SerAll<T>(ser: T -> seq<Byte>, xs: seq<T>): seq<Byte> {
    if xs == [] then [] else SerAll(ser, xs[..|xs| - 1]) + ser(xs[|xs| - 1])
  }

  /** Header and body; witnesses follow on the wire. */
  function Serialize(tx: Tx): seq<Byte> {
    Bytes(|tx.inputs|, 2) + (Bytes(|tx.outputs|, 2) + (SerAll(SerIn, tx.inputs) + SerAll(SerOut, tx.outputs)))
  }

  // ---- parsing --------------------------------------------------------------------------------------------

  datatype Parsed<+T> = Fail | Got(value: T, next: nat)

  function ParseRaw(bs: seq<Byte>, pos: nat, n: nat): Parsed<seq<Byte>> {
    if pos + n <= |bs| then Got(bs[pos..pos + n], pos + n) else Fail
  }

  function ParseNum(bs: seq<Byte>, pos: nat, n: nat): Parsed<nat> {
    if pos + n <= |bs| then Got(Value(bs[pos..pos + n]), pos + n) else Fail
  }

  function ParseVar(bs: seq<Byte>, pos: nat): Parsed<seq<Byte>> {
    match ParseNum(bs, pos, 2)
    case Fail => Fail
    case Got(len, p) => ParseRaw(bs, p, len)
  }

  /** A strict flag byte, then the field when it is 1. */
  function ParseOptVar(bs: seq<Byte>, pos: nat): Parsed<Option<seq<Byte>>> {
    if pos >= |bs| || bs[pos] > 1 then Fail
    else if bs[pos] == 0 then Got(None, pos + 1)
    else match ParseVar(bs, pos + 1)
      case Fail => Fail
      case Got(v, p) => Got(Some(v), p)
  }

  function ParseOptHash(bs: seq<Byte>, pos: nat): Parsed<Option<seq<Byte>>> {
    if pos >= |bs| || bs[pos] > 1 then Fail
    else if bs[pos] == 0 then Got(None, pos + 1)
    else match ParseRaw(bs, pos + 1, 32)
      case Fail => Fail
      case Got(v, p) => Got(Some(v), p)
  }

  function ParseIn(bs: seq<Byte>, pos: nat): Parsed<TxIn> {
    match ParseRaw(bs, pos, 32)
    case Fail => Fail
    case Got(id, p) =>
      match ParseNum(bs, p, 4)
      case Fail => Fail
      case Got(index, q) => Got(TxIn(id, index), q)
  }

  function ParseOut(bs: seq<Byte>, pos: nat): Parsed<TxOut> {
    match ParseNum(bs, pos, 8)
    case Fail => Fail
    case Got(value, p) =>
      match ParseVar(bs, p)
      case Fail => Fail
      case Got(script, q) =>
        match ParseOptVar(bs, q)
        case Fail => Fail
        case Got(datum, r) =>
          match ParseOptHash(bs, r)
          case Fail => Fail
          case Got(hash, s) => Got(TxOut(value, script, datum, hash), s)
  }

  /** `n` items in a row, each with the given parser. */
  function ParseAll<T>(parse: nat -> Parsed<T>, pos: nat, n: nat): Parsed<seq<T>> {
    if n == 0 then Got([], pos)
    else match ParseAll(parse, pos, n - 1)
      case Fail => Fail
      case Got(xs, p) =>
        match parse(p)
        case Fail => Fail
        case Got(x, q) => Got(xs + [x], q)
  }

  function InParser(bs: seq<Byte>): nat -> Parsed<TxIn> { (pos: nat) => ParseIn(bs, pos) }

  function OutParser(bs: seq<Byte>): nat -> Parsed<TxOut> { (pos: nat) => ParseOut(bs, pos) }

  function ParseTx(bs: seq<Byte>): Parsed<Tx> {
    match ParseNum(bs, 0, 2)
    case Fail => Fail
    case Got(inputCount, p) =>
      match ParseNum(bs, p, 2)
      case Fail => Fail
      case Got(outputCount, q) =>
        match ParseAll(InParser(bs), q, inputCount)
        case Fail => Fail
        case Got(inputs, r) =>
          match ParseAll(OutParser(bs), r, outputCount)
          case Fail => Fail
          case Got(outputs, s) => Got(Tx(inputs, outputs), s)
  }

  // ---- what was parsed is what stands there ---------------------------------------------------------------

  /** The bytes from `pos` on start with `chunk`, which ends at `next`. */
  predicate Reads(bs: seq<Byte>, pos: nat, chunk: seq<Byte>, next: nat) {
    pos <= next <= |bs| && bs[pos..next] == chunk
  }

  lemma ReadsJoin(bs: seq<Byte>, pos: nat, a: seq<Byte>, mid: nat, b: seq<Byte>, next: nat)
    requires Reads(bs, pos, a, mid) && Reads(bs, mid, b, next)
    ensures Reads(bs, pos, a + b, next)
  {
  }

  lemma ReadsSplit(bs: seq<Byte>, pos: nat, a: seq<Byte>, b: seq<Byte>, next: nat)
    requires Reads(bs, pos, a + b, next)
    ensures Reads(bs, pos, a, pos + |a|) && Reads(bs, pos + |a|, b, next)
  {
    assert bs[pos..pos + |a|] == bs[pos..next][..|a|];
    assert bs[pos + |a|..next] == bs[pos..next][|a|..];
  }

  lemma NumSound(bs: seq<Byte>, pos: nat, n: nat)
    ensures ParseNum(bs, pos, n).Got? ==>
              var r := ParseNum(bs, pos, n);
              r.value < Pow256(n) && Reads(bs, pos, Bytes(r.value, n), r.next)
  {
    if pos + n <= |bs| {
      ValueBound(bs[pos..pos + n]);
      BytesOfValue(bs[pos..pos + n]);
    }
  }

  lemma NumComplete(bs: seq<Byte>, pos: nat, v: nat, n: nat, next: nat)
    requires v < Pow256(n) && Reads(bs, pos, Bytes(v, n), next)
    ensures ParseNum(bs, pos, n) == Got(v, next)
  {
    ValueOfBytes(v, n);
    assert next == pos + n;
  }

  lemma VarSound(bs: seq<Byte>, pos: nat)
    ensures ParseVar(bs, pos).Got? ==>
              var r := ParseVar(bs, pos);
              |r.value| < Pow256(2) && Reads(bs, pos, SerVar(r.value), r.next)
  {
    NumSound(bs, pos, 2);
    if ParseVar(bs, pos).Got? {
      var r := ParseVar(bs, pos);
      ReadsJoin(bs, pos, Bytes(|r.value|, 2), pos + 2, r.value, r.next);
    }
  }

  lemma VarComplete(bs: seq<Byte>, pos: nat, v: seq<Byte>, next: nat)
    requires |v| < Pow256(2) && Reads(bs, pos, SerVar(v), next)
    ensures ParseVar(bs, pos) == Got(v, next)
  {
    ReadsSplit(bs, pos, Bytes(|v|, 2), v, next);
    NumComplete(bs, pos, |v|, 2, pos + 2);
  }

  lemma OptVarSound(bs: seq<Byte>, pos: nat)
    ensures ParseOptVar(bs, pos).Got? ==>
              var r := ParseOptVar(bs, pos);
              (r.value.Some? ==> |r.value.value| < Pow256(2)) && Reads(bs, pos, SerOptVar(r.value), r.next)
  {
    if ParseOptVar(bs, pos).Got? {
      assert Reads(bs, pos, [bs[pos]], pos + 1);
      if bs[pos] == 1 {
        VarSound(bs, pos + 1);
        var v := ParseVar(bs, pos + 1);
        ReadsJoin(bs, pos, [1], pos + 1, SerVar(v.value), v.next);
      }
    }
  }

  lemma OptVarComplete(bs: seq<Byte>, pos: nat, d: Option<seq<Byte>>, next: nat)
    requires (d.Some? ==> |d.value| < Pow256(2)) && Reads(bs, pos, SerOptVar(d), next)
    ensures ParseOptVar(bs, pos) == Got(d, next)
  {
    assert bs[pos] == bs[pos..next][0];
    if d.Some? {
      ReadsSplit(bs, pos, [1], SerVar(d.value), next);
      VarComplete(bs, pos + 1, d.value, next);
    }
  }

  lemma OptHashSound(bs: seq<Byte>, pos: nat)
    ensures ParseOptHash(bs, pos).Got? ==>
              var r := ParseOptHash(bs, pos);
              (r.value.Some? ==> |r.value.value| == 32) && Reads(bs, pos, SerOptHash(r.value), r.next)
  {
    if ParseOptHash(bs, pos).Got? {
      assert Reads(bs, pos, [bs[pos]], pos + 1);
      if bs[pos] == 1 {
        var v := ParseRaw(bs, pos + 1, 32);
        ReadsJoin(bs, pos, [1], pos + 1, v.value, v.next);
      }
    }
  }

  lemma OptHashComplete(bs: seq<Byte>, pos: nat, h: Option<seq<Byte>>, next: nat)
    requires (h.Some? ==> |h.value| == 32) && Reads(bs, pos, SerOptHash(h), next)
    ensures ParseOptHash(bs, pos) == Got(h, next)
  {
    assert bs[pos] == bs[pos..next][0];
    if h.Some? { ReadsSplit(bs, pos, [1], h.value, next); }
  }

  lemma InSound(bs: seq<Byte>, pos: nat)
    ensures ParseIn(bs, pos).Got? ==>
              var r := ParseIn(bs, pos); ValidIn(r.value) && Reads(bs, pos, SerIn(r.value), r.next)
  {
    if ParseIn(bs, pos).Got? {
      var r := ParseIn(bs, pos);
      NumSound(bs, pos + 32, 4);
      ReadsJoin(bs, pos, r.value.prevTxId, pos + 32, Bytes(r.value.prevIndex, 4), r.next);
    }
  }

  lemma InComplete(bs: seq<Byte>, pos: nat, i: TxIn, next: nat)
    requires ValidIn(i) && Reads(bs, pos, SerIn(i), next)
    ensures ParseIn(bs, pos) == Got(i, next)
  {
    ReadsSplit(bs, pos, i.prevTxId, Bytes(i.prevIndex, 4), next);
    NumComplete(bs, pos + 32, i.prevIndex, 4, next);
  }

  lemma OutSound(bs: seq<Byte>, pos: nat)
    ensures ParseOut(bs, pos).Got? ==>
              var r := ParseOut(bs, pos); ValidOut(r.value) && Reads(bs, pos, SerOut(r.value), r.next)
  {
    if ParseOut(bs, pos).Got? {
      var o, next := ParseOut(bs, pos).value, ParseOut(bs, pos).next;
      var p := pos + 8;
      var q := ParseVar(bs, p).next;
      var r := ParseOptVar(bs, q).next;
      NumSound(bs, pos, 8);
      VarSound(bs, p);
      OptVarSound(bs, q);
      OptHashSound(bs, r);
      ReadsJoin(bs, q, SerOptVar(o.datum), r, SerOptHash(o.datumHash), next);
      ReadsJoin(bs, p, SerVar(o.script), q, SerOptVar(o.datum) + SerOptHash(o.datumHash), next);
      ReadsJoin(bs, pos, Bytes(o.value, 8), p, SerVar(o.script) + (SerOptVar(o.datum) + SerOptHash(o.datumHash)), next);
    }
  }

  lemma OutComplete(bs: seq<Byte>, pos: nat, o: TxOut, next: nat)
    requires ValidOut(o) && Reads(bs, pos, SerOut(o), next)
    ensures ParseOut(bs, pos) == Got(o, next)
  {
    var p := pos + 8;
    var tail := SerVar(o.script) + (SerOptVar(o.datum) + SerOptHash(o.datumHash));
    ReadsSplit(bs, pos, Bytes(o.value, 8), tail, next);
    NumComplete(bs, pos, o.value, 8, p);
    OutTailComplete(bs, p, o, next);
  }

  /** Where the fields of an output after its value stand. */
  lemma TailSplits(bs: seq<Byte>, p: nat, o: TxOut, next: nat)
    requires Reads(bs, p, SerVar(o.script) + (SerOptVar(o.datum) + SerOptHash(o.datumHash)), next)
    ensures var q := p + |SerVar(o.script)|;
            var r := q + |SerOptVar(o.datum)|;
            && Reads(bs, p, SerVar(o.script), q) && Reads(bs, q, SerOptVar(o.datum), r)
            && Reads(bs, r, SerOptHash(o.datumHash), next)
  {
    var q := p + |SerVar(o.script)|;
    ReadsSplit(bs, p, SerVar(o.script), SerOptVar(o.datum) + SerOptHash(o.datumHash), next);
    ReadsSplit(bs, q, SerOptVar(o.datum), SerOptHash(o.datumHash), next);
  }

  lemma OutTailComplete(bs: seq<Byte>, p: nat, o: TxOut, next: nat)
    requires ValidOut(o) && Reads(bs, p, SerVar(o.script) + (SerOptVar(o.datum) + SerOptHash(o.datumHash)), next)
    ensures var q := p + |SerVar(o.script)|;
            var r := q + |SerOptVar(o.datum)|;
            && ParseVar(bs, p) == Got(o.script, q) && ParseOptVar(bs, q) == Got(o.datum, r)
            && ParseOptHash(bs, r) == Got(o.datumHash, next)
  {
    var q := p + |SerVar(o.script)|;
    var r := q + |SerOptVar(o.datum)|;
    TailSplits(bs, p, o, next);
    VarComplete(bs, p, o.script, q);
    OptVarComplete(bs, q, o.datum, r);
    OptHashComplete(bs, r, o.datumHash, next);
  }

  /** The parser only reads what the serializer writes. */
  ghost predicate Sound<T(!new)>(bs: seq<Byte>, ser: T -> seq<Byte>, valid: T -> bool, parse: nat -> Parsed<T>) {
    forall pos: nat :: parse(pos).Got? ==>
      valid(parse(pos).value) && Reads(bs, pos, ser(parse(pos).value), parse(pos).next)
  }

  /** The parser reads everything the serializer writes. */
  ghost predicate Complete<T(!new)>(bs: seq<Byte>, ser: T -> seq<Byte>, valid: T -> bool, parse: nat -> Parsed<T>) {
    forall pos: nat, x: T, next: nat :: valid(x) && Reads(bs, pos, ser(x), next) ==> parse(pos) == Got(x, next)
  }

  lemma {:induction false} AllSound<T(!new)>(
    bs: seq<Byte>, ser: T -> seq<Byte>, valid: T -> bool, parse: nat -> Parsed<T>, pos: nat, n: nat
  )
    requires Sound(bs, ser, valid, parse) && pos <= |bs|
    ensures ParseAll(parse, pos, n).Got? ==>
              var r := ParseAll(parse, pos, n);
              && |r.value| == n && (forall i :: 0 <= i < n ==> valid(r.value[i]))
              && Reads(bs, pos, SerAll(ser, r.value), r.next)
    decreases n
  {
    if n > 0 && ParseAll(parse, pos, n).Got? {
      var r, before := ParseAll(parse, pos, n), ParseAll(parse, pos, n - 1);
      AllSound(bs, ser, valid, parse, pos, n - 1);
      var x := parse(before.next).value;
      assert r.value == before.value + [x];
      SerAllSnoc(ser, before.value, x);
      ReadsJoin(bs, pos, SerAll(ser, before.value), before.next, ser(x), r.next);
    }
  }

  lemma SerAllSnoc<T>(ser: T -> seq<Byte>, front: seq<T>, x: T)
    ensures SerAll(ser, front + [x]) == SerAll(ser, front) + ser(x)
  {
    assert (front + [x])[..|front + [x]| - 1] == front;
  }

  lemma {:induction false} AllComplete<T(!new)>(
    bs: seq<Byte>, ser: T -> seq<Byte>, valid: T -> bool, parse: nat -> Parsed<T>, pos: nat, xs: seq<T>, n: nat,
    next: nat
  )
    requires Complete(bs, ser, valid, parse) && n <= |xs| && forall i :: 0 <= i < |xs| ==> valid(xs[i])
    requires Reads(bs, pos, SerAll(ser, xs[..n]), next)
    ensures ParseAll(parse, pos, n) == Got(xs[..n], next)
    decreases n
  {
    if n > 0 {
      var front, x := xs[..n - 1], xs[n - 1];
      assert xs[..n] == front + [x];
      SerAllSnoc(ser, front, x);
      var mid := pos + |SerAll(ser, front)|;
      ReadsSplit(bs, pos, SerAll(ser, front), ser(x), next);
      AllComplete(bs, ser, valid, parse, pos, xs, n - 1, mid);
      assert parse(mid) == Got(x, next);
    }
  }

  lemma ItemParsers(bs: seq<Byte>)
    ensures Sound(bs, SerIn, ValidIn, InParser(bs)) && Complete(bs, SerIn, ValidIn, InParser(bs))
    ensures Sound(bs, SerOut, ValidOut, OutParser(bs)) && Complete(bs, SerOut, ValidOut, OutParser(bs))
  {
    InParserExact(bs);
    OutParserExact(bs);
  }

  lemma InParserExact(bs: seq<Byte>)
    ensures Sound(bs, SerIn, ValidIn, InParser(bs)) && Complete(bs, SerIn, ValidIn, InParser(bs))
  {
    forall pos: nat | InParser(bs)(pos).Got?
      ensures ValidIn(InParser(bs)(pos).value) && Reads(bs, pos, SerIn(InParser(bs)(pos).value), InParser(bs)(pos).next)
    {
      InSound(bs, pos);
    }
    forall pos: nat, x: TxIn, next: nat | ValidIn(x) && Reads(bs, pos, SerIn(x), next)
      ensures InParser(bs)(pos) == Got(x, next)
    {
      InComplete(bs, pos, x, next);
    }
  }

  lemma OutParserExact(bs: seq<Byte>)
    ensures Sound(bs, SerOut, ValidOut, OutParser(bs)) && Complete(bs, SerOut, ValidOut, OutParser(bs))
  {
    forall pos: nat | OutParser(bs)(pos).Got?
      ensures ValidOut(OutParser(bs)(pos).value)
      ensures Reads(bs, pos, SerOut(OutParser(bs)(pos).value), OutParser(bs)(pos).next)
    {
      OutSound(bs, pos);
    }
    forall pos: nat, x: TxOut, next: nat | ValidOut(x) && Reads(bs, pos, SerOut(x), next)
      ensures OutParser(bs)(pos) == Got(x, next)
    {
      OutComplete(bs, pos, x, next);
    }
  }

  /** Canonicality: on every byte string, what is parsed is a valid transaction, and the bytes consumed
      are exactly its serialization. */
  lemma ParseIsCanonical(bs: seq<Byte>)
    ensures ParseTx(bs).Got? ==>
              var r := ParseTx(bs);
              ValidTx(r.value) && r.next <= |bs| && bs[..r.next] == Serialize(r.value)
  {
    if ParseTx(bs).Got? {
      var tx, next := ParseTx(bs).value, ParseTx(bs).next;
      NumSound(bs, 0, 2);
      NumSound(bs, 2, 2);
      var nIn, nOut := ParseNum(bs, 0, 2).value, ParseNum(bs, 2, 2).value;
      var r := ParseAll(InParser(bs), 4, nIn).next;
      ItemParsers(bs);
      AllSound(bs, SerIn, ValidIn, InParser(bs), 4, nIn);
      AllSound(bs, SerOut, ValidOut, OutParser(bs), r, nOut);
      ReadsJoin(bs, 4, SerAll(SerIn, tx.inputs), r, SerAll(SerOut, tx.outputs), next);
      ReadsJoin(bs, 2, Bytes(nOut, 2), 4, SerAll(SerIn, tx.inputs) + SerAll(SerOut, tx.outputs), next);
      var body := SerAll(SerIn, tx.inputs) + SerAll(SerOut, tx.outputs);
      ReadsJoin(bs, 0, Bytes(nIn, 2), 2, Bytes(nOut, 2) + body, next);
    }
  }

  /** Round trip: a valid transaction followed by any witness bytes parses to itself, and the cursor
      stops where the witnesses begin. */
  lemma ParseSerialized(tx: Tx, rest: seq<Byte>)
    requires ValidTx(tx)
    ensures ParseTx(Serialize(tx) + rest) == Got(tx, |Serialize(tx)|)
  {
    var bs, next := Serialize(tx) + rest, |Serialize(tx)|;
    var nIn, nOut := |tx.inputs|, |tx.outputs|;
    var body := SerAll(SerIn, tx.inputs) + SerAll(SerOut, tx.outputs);
    var r := 4 + |SerAll(SerIn, tx.inputs)|;
    assert Reads(bs, 0, Bytes(nIn, 2) + (Bytes(nOut, 2) + body), next);
    ReadsSplit(bs, 0, Bytes(nIn, 2), Bytes(nOut, 2) + body, next);
    ReadsSplit(bs, 2, Bytes(nOut, 2), body, next);
    ReadsSplit(bs, 4, SerAll(SerIn, tx.inputs), SerAll(SerOut, tx.outputs), next);
    assert tx.inputs[..nIn] == tx.inputs && tx.outputs[..nOut] == tx.outputs;
    NumComplete(bs, 0, nIn, 2, 2);
    NumComplete(bs, 2, nOut, 2, 4);
    ItemParsers(bs);
    AllComplete(bs, SerIn, ValidIn, InParser(bs), 4, tx.inputs, nIn, r);
    AllComplete(bs, SerOut, ValidOut, OutParser(bs), r, tx.outputs, nOut, next);
  }

  /** The format is prefix-free: no byte string starts with two different transactions. */
  lemma SerializationUnique(a: Tx, b: Tx, restA: seq<Byte>, restB: seq<Byte>)
    requires ValidTx(a) && ValidTx(b) && Serialize(a) + restA == Serialize(b) + restB
    ensures a == b && restA == restB
  {
    ParseSerialized(a, restA);
    ParseSerialized(b, restB);
    assert restA == (Serialize(a) + restA)[|Serialize(a)|..];
    assert restB == (Serialize(b) + restB)[|Serialize(b)|..];
  }
}
