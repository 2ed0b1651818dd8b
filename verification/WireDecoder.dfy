/** ByteReader, decodeTxHex and hexToBytes (src/adapters/indexer-chain.ts), proved against the parser of
    the canonical format. A thrown Error is None. */
module WireDecoder {
  import opened HonorSpec
  import opened Datum
  import opened LittleEndian
  import opened TxCodec

  // ---- hex ------------------------------------------------------------------------------------------------

  function HexDigit(d: nat): char
    requires d < 16
  {
    "0123456789abcdef"[d]
  }

  /** Two lowercase digits a byte. */
  function ToHex(bs: seq<Byte>): Hex {
    seq(2 * |bs|, k requires 0 <= k < 2 * |bs| => HexDigit(if k % 2 == 0 then bs[k / 2] / 16 else bs[k / 2] % 16))
  }

  function HexValue(c: char): Option<int> {
    if '0' <= c <= '9' then Some(c as int - '0' as int)
    else if 'a' <= c <= 'f' then Some(c as int - 'a' as int + 10)
    else if 'A' <= c <= 'F' then Some(c as int - 'A' as int + 10)
    else None
  }

  predicate IsJsSpace(c: char) {
    || c in "\t\n\r " || c == '\U{0B}' || c == '\U{0C}' || c == '\U{A0}' || c == '\U{1680}'
    || '\U{2000}' <= c <= '\U{200A}' || c == '\U{2028}' || c == '\U{2029}' || c == '\U{202F}'
    || c == '\U{205F}' || c == '\U{3000}' || c == '\U{FEFF}'
  }

  /** Number.parseInt of a two-character string in base 16; None is NaN. Leading white space, a sign and
      a trailing non-digit are all tolerated, and "0x" leaves no digits. */
  function ParseInt16(c0: char, c1: char): Option<int> {
    if IsJsSpace(c0) then HexValue(c1)
    else if c0 == '+' then HexValue(c1)
    else if c0 == '-' then (if HexValue(c1).Some? then Some(-HexValue(c1).value) else None)
    else if HexValue(c0).None? || (c0 == '0' && (c1 == 'x' || c1 == 'X')) then None
    else if HexValue(c1).None? then HexValue(c0)
    else Some(16 * HexValue(c0).value + HexValue(c1).value)
  }

  // ---- parseInt in general, which the two-character case refines ------------------------------------------

  function TrimStart(s: string): string { if s != "" && IsJsSpace(s[0]) then TrimStart(s[1..]) else s }

  /** The longest prefix of hex digits. */
  function LeadingDigits(s: string): string {
    if s == "" || HexValue(s[0]).None? then "" else [s[0]] + LeadingDigits(s[1..])
  }

  function NumberOf(digits: string): int
    requires forall i :: 0 <= i < |digits| ==> HexValue(digits[i]).Some?
  {
    if digits == "" then 0
    else 16 * NumberOf(digits[..|digits| - 1]) + HexValue(digits[|digits| - 1]).value
  }

  lemma {:induction false} LeadingAreDigits(s: string)
    ensures forall i :: 0 <= i < |LeadingDigits(s)| ==> HexValue(LeadingDigits(s)[i]).Some?
  {
    if s != "" && HexValue(s[0]).Some? { LeadingAreDigits(s[1..]); }
  }

  /** Number.parseInt(s, 16): white space, a sign, a 0x prefix, then as many digits as there are; NaN without any. */
  function ParseInt(s: string): Option<int> {
    var t := TrimStart(s);
    var u := if t != "" && (t[0] == '+' || t[0] == '-') then t[1..] else t;
    var digits := LeadingDigits(if |u| >= 2 && u[0] == '0' && u[1] in "xX" then u[2..] else u);
    LeadingAreDigits(if |u| >= 2 && u[0] == '0' && u[1] in "xX" then u[2..] else u);
    if digits == "" then None
    else if t[0] == '-' then Some(-NumberOf(digits))
    else Some(NumberOf(digits))
  }

  /** The sixteen digits, in either case. */
  lemma HexValueMeans(c: char, v: int)
    ensures HexValue(c) == Some(v) <==> 0 <= v < 16 && (c == "0123456789abcdef"[v] || c == "0123456789ABCDEF"[v])
  {
  }

  lemma OneDigit(c: char)
    ensures LeadingDigits([c]) == if HexValue(c).Some? then [c] else ""
    ensures HexValue(c).Some? ==> NumberOf([c]) == HexValue(c).value
  {
    assert [c][1..] == "" && [c][..0] == "";
  }

  lemma TwoDigits(c0: char, c1: char)
    ensures HexValue(c0).None? ==> LeadingDigits([c0, c1]) == ""
    ensures HexValue(c0).Some? && HexValue(c1).None? ==> LeadingDigits([c0, c1]) == [c0]
    ensures HexValue(c0).Some? && HexValue(c1).Some? ==>
              LeadingDigits([c0, c1]) == [c0, c1] && NumberOf([c0, c1]) == 16 * HexValue(c0).value + HexValue(c1).value
  {
    OneDigit(c0);
    OneDigit(c1);
    assert [c0, c1][1..] == [c1] && [c0, c1][..1] == [c0];
  }

  /** On two characters, the reader's table is parseInt. */
  lemma ParseInt16IsParseInt(c0: char, c1: char)
    ensures ParseInt16(c0, c1) == ParseInt([c0, c1])
  {
    OneDigit(c0);
    OneDigit(c1);
    TwoDigits(c0, c1);
    assert [c0, c1][1..] == [c1] && [c0, c1][2..] == "" && [c1][1..] == "";
    assert TrimStart([c1]) == if IsJsSpace(c1) then "" else [c1];
  }

  function PairAt(s: string, i: nat): Option<int>
    requires i < |s| / 2
  {
    ParseInt16(s[2 * i], s[2 * i + 1])
  }

  predicate AllPairsParse(s: string) { forall i :: 0 <= i < |s| / 2 ==> PairAt(s, i).Some? }

  /** A Uint8Array slot keeps the low byte. */
  function BytesOfHex(s: string): Option<seq<Byte>> {
    if |s| % 2 != 0 || !AllPairsParse(s) then None
    else Some(seq(|s| / 2, i requires 0 <= i < |s| / 2 => PairAt(s, i).value % 256))
  }

  method HexToBytes(hex: string) returns (r: Option<array<Byte>>)
    ensures r.Some? <==> BytesOfHex(hex).Some?
    ensures r.Some? ==> fresh(r.value) && r.value[..] == BytesOfHex(hex).value
  {
    if |hex| % 2 != 0 { return None; }
    var out := new Byte[|hex| / 2](_ => 0);
    for i := 0 to out.Length
      invariant forall k: nat :: k < i ==> PairAt(hex, k).Some? && out[k] == PairAt(hex, k).value % 256
    {
      var byte := ParseInt16(hex[2 * i], hex[2 * i + 1]);
      if byte.None? {
        assert PairAt(hex, i).None?;
        return None;
      }
      out[i] := byte.value % 256;
    }
    r := Some(out);
  }

  lemma HexAt(bs: seq<Byte>, i: nat)
    requires i < |bs|
    ensures ToHex(bs)[2 * i] == HexDigit(bs[i] / 16) && ToHex(bs)[2 * i + 1] == HexDigit(bs[i] % 16)
  {
    assert (2 * i) / 2 == i && (2 * i) % 2 == 0 && (2 * i + 1) / 2 == i && (2 * i + 1) % 2 == 1;
  }

  lemma HexFromDigits(bs: seq<Byte>, s: string)
    requires |s| == 2 * |bs|
    requires forall i: nat :: i < |bs| ==> s[2 * i] == HexDigit(bs[i] / 16) && s[2 * i + 1] == HexDigit(bs[i] % 16)
    ensures ToHex(bs) == s
  {
    forall k | 0 <= k < |s| ensures ToHex(bs)[k] == s[k] {
      HexAt(bs, k / 2);
      assert k == 2 * (k / 2) || k == 2 * (k / 2) + 1;
    }
  }

  lemma BytesFromPairs(s: string, bs: seq<Byte>)
    requires |s| == 2 * |bs|
    requires forall i: nat :: i < |bs| ==> PairAt(s, i).Some? && PairAt(s, i).value % 256 == bs[i]
    ensures BytesOfHex(s) == Some(bs)
  {
    assert BytesOfHex(s).value == bs;
  }

  /** Hex of bytes reads back as those bytes. */
  lemma HexRoundTrip(bs: seq<Byte>)
    ensures BytesOfHex(ToHex(bs)) == Some(bs)
  {
    var s := ToHex(bs);
    forall i: nat | i < |bs| ensures PairAt(s, i).Some? && PairAt(s, i).value % 256 == bs[i] { PairOfHex(bs, i); }
    BytesFromPairs(s, bs);
  }

  lemma PairOfHex(bs: seq<Byte>, i: nat)
    requires i < |bs|
    ensures PairAt(ToHex(bs), i).Some? && PairAt(ToHex(bs), i).value % 256 == bs[i]
  {
    HexAt(bs, i);
    DigitsRoundTrip(bs[i]);
  }

  lemma DigitsRoundTrip(b: Byte)
    ensures ParseInt16(HexDigit(b / 16), HexDigit(b % 16)) == Some(b as int)
  {
    DigitValue(b / 16);
    DigitValue(b % 16);
  }

  lemma DigitValue(d: nat)
    requires d < 16
    ensures HexValue(HexDigit(d)) == Some(d as int) && IsHexDigit(HexDigit(d))
    ensures HexDigit(d) != 'x' && HexDigit(d) != 'X'
  {
  }

  lemma DigitOfValue(c: char)
    requires IsHexDigit(c)
    ensures HexValue(c).Some? && 0 <= HexValue(c).value < 16 && HexDigit(HexValue(c).value) == c && !IsJsSpace(c)
  {
  }

  lemma PairOfBareHex(c0: char, c1: char)
    requires IsHexDigit(c0) && IsHexDigit(c1)
    ensures var v := ParseInt16(c0, c1);
            v.Some? && 0 <= v.value < 256 && HexDigit(v.value / 16) == c0 && HexDigit(v.value % 16) == c1
  {
    DigitOfValue(c0);
    DigitOfValue(c1);
    var v := ParseInt16(c0, c1).value;
    assert v / 16 == HexValue(c0).value && v % 16 == HexValue(c1).value;
  }

  /** The decoder accepts more than canonical hex (signs, spaces, capitals, trailing junk), so a text it
      accepts is the hex of the bytes it yields exactly when it is bare lowercase hex of even length. */
  lemma HexCanonicalIff(s: string)
    ensures BytesOfHex(s).Some? && ToHex(BytesOfHex(s).value) == s <==> IsBareHex(s) && |s| % 2 == 0
  {
    if IsBareHex(s) && |s| % 2 == 0 {
      BareHexReads(s);
    } else if BytesOfHex(s).Some? && ToHex(BytesOfHex(s).value) == s {
      HexIsBare(BytesOfHex(s).value);
    }
  }

  predicate PairReads(s: string, i: nat)
    requires i < |s| / 2
  {
    var v := PairAt(s, i);
    v.Some? && 0 <= v.value < 256 && HexDigit(v.value / 16) == s[2 * i] && HexDigit(v.value % 16) == s[2 * i + 1]
  }

  lemma BareHexReads(s: string)
    requires IsBareHex(s) && |s| % 2 == 0
    ensures BytesOfHex(s).Some? && ToHex(BytesOfHex(s).value) == s
  {
    forall i: nat | i < |s| / 2 ensures PairReads(s, i) { PairOfBareHex(s[2 * i], s[2 * i + 1]); }
    PairsReadBack(s);
  }

  lemma PairsReadBack(s: string)
    requires |s| % 2 == 0 && forall i: nat :: i < |s| / 2 ==> PairReads(s, i)
    ensures BytesOfHex(s).Some? && ToHex(BytesOfHex(s).value) == s
  {
    forall i | 0 <= i < |s| / 2 ensures PairAt(s, i).Some? { assert PairReads(s, i); }
    assert AllPairsParse(s);
    var bs := BytesOfHex(s).value;
    forall i: nat | i < |bs| ensures s[2 * i] == HexDigit(bs[i] / 16) && s[2 * i + 1] == HexDigit(bs[i] % 16) {
      assert PairReads(s, i);
      assert bs[i] == PairAt(s, i).value;
    }
    HexFromDigits(bs, s);
  }

  lemma HexIsBare(bs: seq<Byte>)
    ensures IsBareHex(ToHex(bs)) && |ToHex(bs)| == 2 * |bs|
  {
    forall k | 0 <= k < 2 * |bs| ensures IsHexDigit(ToHex(bs)[k]) {
      DigitValue(if k % 2 == 0 then bs[k / 2] / 16 else bs[k / 2] % 16);
    }
  }

  /** Texts that are not hex and are accepted all the same. */
  lemma LenientExamples()
    ensures BytesOfHex("-1") == Some([255]) && BytesOfHex("5g") == Some([5]) && BytesOfHex(" 7") == Some([7])
  {
    BytesFromPairs("-1", [255]);
    BytesFromPairs("5g", [5]);
    BytesFromPairs(" 7", [7]);
  }

  // ---- the reader -----------------------------------------------------------------------------------------

  /** A cursor over bytes. Every read either throws (None) or returns what the parser reads there and
      leaves the cursor where the parser stops; the cursor stays in bounds and never moves back. */
  class ByteReader {
    const bytes: seq<Byte>
    var pos: nat

    ghost predicate Valid()
      reads this
    {
      pos <= |bytes|
    }

    constructor (bytes: seq<Byte>)
      ensures Valid() && this.bytes == bytes && pos == 0
    {
      this.bytes, pos := bytes, 0;
    }

    method U8() returns (r: Option<Byte>)
      requires Valid()
      modifies this
      ensures Valid() && old(pos) <= pos
      ensures r == if old(pos) < |bytes| then Some(bytes[old(pos)]) else None
      ensures r.Some? ==> pos == old(pos) + 1
    {
      if pos + 1 > |bytes| { return None; }
      r := Some(bytes[pos]);
      pos := pos + 1;
    }

    method U16le() returns (r: Option<nat>)
      requires Valid()
      modifies this
      ensures Valid() && old(pos) <= pos
      ensures (if r.Some? then Got(r.value, pos) else Fail) == ParseNum(bytes, old(pos), 2)
      ensures r.Some? ==> r.value < Pow256(2)
    {
      if pos + 2 > |bytes| { return None; }
      U16IsLittleEndian(bytes[pos], bytes[pos + 1]);
      assert bytes[pos..pos + 2] == [bytes[pos], bytes[pos + 1]];
      r := Some(U16(bytes[pos], bytes[pos + 1]));
      pos := pos + 2;
    }

    method U32le() returns (r: Option<nat>)
      requires Valid()
      modifies this
      ensures Valid() && old(pos) <= pos
      ensures (if r.Some? then Got(r.value, pos) else Fail) == ParseNum(bytes, old(pos), 4)
    {
      if pos + 4 > |bytes| { return None; }
      var b := bytes;
      U32IsLittleEndian(b[pos], b[pos + 1], b[pos + 2], b[pos + 3]);
      assert b[pos..pos + 4] == [b[pos], b[pos + 1], b[pos + 2], b[pos + 3]];
      r := Some(U32(b[pos], b[pos + 1], b[pos + 2], b[pos + 3]));
      pos := pos + 4;
    }

    /** `v = (v << 8n) | byte`, from the last byte down. */
    method U64le() returns (r: Option<nat>)
      requires Valid()
      modifies this
      ensures Valid() && old(pos) <= pos
      ensures (if r.Some? then Got(r.value, pos) else Fail) == ParseNum(bytes, old(pos), 8)
      ensures r.Some? ==> r.value < Pow256(8)
    {
      if pos + 8 > |bytes| { return None; }
      var v: nat := 0;
      var i := 7;
      while i >= 0
        invariant -1 <= i <= 7 && pos == old(pos)
        invariant v == Value(bytes[pos + i + 1..pos + 8])
      {
        assert bytes[pos + i..pos + 8][1..] == bytes[pos + i + 1..pos + 8];
        Powers();
        OrLow(v, bytes[pos + i], 8);
        v := BitOr(v * Pow2(8), bytes[pos + i]);
        i := i - 1;
      }
      ValueBound(bytes[pos..pos + 8]);
      r := Some(v);
      pos := pos + 8;
    }

    /** `n` raw bytes as lowercase hex. */
    method ReadHex(n: nat) returns (r: Option<Hex>)
      requires Valid()
      modifies this
      ensures Valid() && old(pos) <= pos
      ensures r.Some? <==> old(pos) + n <= |bytes|
      ensures r.Some? ==> r.value == ToHex(bytes[old(pos)..old(pos) + n]) && pos == old(pos) + n
    {
      if pos + n > |bytes| { return None; }
      var s: Hex := "";
      for i := 0 to n
        invariant s == ToHex(bytes[pos..pos + i])
      {
        var b := bytes[pos + i];
        assert bytes[pos..pos + i + 1] == bytes[pos..pos + i] + [b];
        s := s + [HexDigit(b / 16), HexDigit(b % 16)];
      }
      r := Some(s);
      pos := pos + n;
    }

    method SkipVarBytes() returns (ok: bool)
      requires Valid()
      modifies this
      ensures Valid() && old(pos) <= pos
      ensures ok <==> ParseVar(bytes, old(pos)).Got?
      ensures ok ==> pos == ParseVar(bytes, old(pos)).next
    {
      var len := U16le();
      if len.None? { return false; }
      if pos + len.value > |bytes| { return false; }
      pos := pos + len.value;
      return true;
    }

    method VarBytesHex() returns (r: Option<Hex>)
      requires Valid()
      modifies this
      ensures Valid() && old(pos) <= pos
      ensures r.Some? <==> ParseVar(bytes, old(pos)).Got?
      ensures r.Some? ==> r.value == ToHex(ParseVar(bytes, old(pos)).value) && pos == ParseVar(bytes, old(pos)).next
    {
      var len := U16le();
      if len.None? { return None; }
      r := ReadHex(len.value);
    }
  }

  // ---- the transaction decoder ----------------------------------------------------------------------------

  datatype DecodedOutput = DecodedOutput(value: nat, scriptHex: Hex)

  datatype DecodedTx = DecodedTx(inputs: seq<Outpoint>, outputs: seq<DecodedOutput>)

  function ProjectIn(i: TxIn): Outpoint { Outpoint(ToHex(i.prevTxId), i.prevIndex) }

  function ProjectOut(o: TxOut): DecodedOutput { DecodedOutput(o.value, ToHex(o.script)) }

  function MapSeq<A, B>(f: A -> B, xs: seq<A>): seq<B> { seq(|xs|, i requires 0 <= i < |xs| => f(xs[i])) }

  lemma MapSnoc<A, B>(f: A -> B, xs: seq<A>, x: A)
    ensures MapSeq(f, xs + [x]) == MapSeq(f, xs) + [f(x)]
  {
  }

  /** What the honor path keeps of a transaction. */
  function Project(tx: Tx): DecodedTx { DecodedTx(MapSeq(ProjectIn, tx.inputs), MapSeq(ProjectOut, tx.outputs)) }

  function DecodeBytes(bs: seq<Byte>): Option<DecodedTx> {
    match ParseTx(bs)
    case Fail => None
    case Got(tx, _) => Some(Project(tx))
  }

  function DecodeHex(txHex: string): Option<DecodedTx> {
    if BytesOfHex(txHex).None? then None else DecodeBytes(BytesOfHex(txHex).value)
  }

  lemma {:induction false} FailStays<T>(parse: nat -> Parsed<T>, pos: nat, i: nat, n: nat)
    requires i <= n && ParseAll(parse, pos, i).Fail?
    ensures ParseAll(parse, pos, n).Fail?
    decreases n
  {
    if i < n { FailStays(parse, pos, i, n - 1); }
  }

  method ReadInput(reader: ByteReader) returns (r: Option<Outpoint>)
    requires reader.Valid()
    modifies reader
    ensures reader.Valid() && old(reader.pos) <= reader.pos
    ensures r.Some? <==> ParseIn(reader.bytes, old(reader.pos)).Got?
    ensures r.Some? ==>
              && r.value == ProjectIn(ParseIn(reader.bytes, old(reader.pos)).value)
              && reader.pos == ParseIn(reader.bytes, old(reader.pos)).next
  {
    var prevTxId := reader.ReadHex(32);
    if prevTxId.None? { return None; }
    var prevOutputIndex := reader.U32le();
    if prevOutputIndex.None? { return None; }
    return Some(Outpoint(prevTxId.value, prevOutputIndex.value));
  }

  method ReadOutput(reader: ByteReader) returns (r: Option<DecodedOutput>)
    requires reader.Valid()
    modifies reader
    ensures reader.Valid() && old(reader.pos) <= reader.pos
    ensures r.Some? <==> ParseOut(reader.bytes, old(reader.pos)).Got?
    ensures r.Some? ==>
              && r.value == ProjectOut(ParseOut(reader.bytes, old(reader.pos)).value)
              && reader.pos == ParseOut(reader.bytes, old(reader.pos)).next
  {
    var value := reader.U64le();
    if value.None? { return None; }
    var scriptHex := reader.VarBytesHex();
    if scriptHex.None? { return None; }
    var hasDatum := reader.U8();
    if hasDatum.None? { return None; }
    if hasDatum.value == 1 {
      var skipped := reader.SkipVarBytes();
      if !skipped { return None; }
    } else if hasDatum.value != 0 {
      return None;
    }
    var hasDatumHash := reader.U8();
    if hasDatumHash.None? { return None; }
    if hasDatumHash.value == 1 {
      var hash := reader.ReadHex(32);
      if hash.None? { return None; }
    } else if hasDatumHash.value != 0 {
      return None;
    }
    return Some(DecodedOutput(value.value, scriptHex.value));
  }

  lemma ParseNext<T>(parse: nat -> Parsed<T>, pos: nat, i: nat, items: seq<T>, next: nat)
    requires ParseAll(parse, pos, i) == Got(items, next)
    ensures ParseAll(parse, pos, i + 1)
         == if parse(next).Got? then Got(items + [parse(next).value], parse(next).next) else Fail
  {
  }

  method ReadInputs(reader: ByteReader, n: nat) returns (r: Option<seq<Outpoint>>)
    requires reader.Valid()
    modifies reader
    ensures reader.Valid() && old(reader.pos) <= reader.pos
    ensures var p := ParseAll(InParser(reader.bytes), old(reader.pos), n);
            && (r.Some? <==> p.Got?)
            && (r.Some? ==> reader.pos == p.next && r.value == MapSeq(ProjectIn, p.value))
  {
    var inputs := [];
    ghost var start, parse, items := reader.pos, InParser(reader.bytes), [];
    for i := 0 to n
      invariant reader.Valid() && start <= reader.pos
      invariant ParseAll(parse, start, i) == Got(items, reader.pos)
      invariant inputs == MapSeq(ProjectIn, items)
    {
      ParseNext(parse, start, i, items, reader.pos);
      ghost var item := parse(reader.pos);
      var input := ReadInput(reader);
      if input.None? {
        FailStays(parse, start, i + 1, n);
        return None;
      }
      MapSnoc(ProjectIn, items, item.value);
      inputs := inputs + [input.value];
      items := items + [item.value];
    }
    return Some(inputs);
  }

  method ReadOutputs(reader: ByteReader, n: nat) returns (r: Option<seq<DecodedOutput>>)
    requires reader.Valid()
    modifies reader
    ensures reader.Valid() && old(reader.pos) <= reader.pos
    ensures var p := ParseAll(OutParser(reader.bytes), old(reader.pos), n);
            && (r.Some? <==> p.Got?)
            && (r.Some? ==> reader.pos == p.next && r.value == MapSeq(ProjectOut, p.value))
  {
    var outputs := [];
    ghost var start, parse, items := reader.pos, OutParser(reader.bytes), [];
    for i := 0 to n
      invariant reader.Valid() && start <= reader.pos
      invariant ParseAll(parse, start, i) == Got(items, reader.pos)
      invariant outputs == MapSeq(ProjectOut, items)
    {
      ParseNext(parse, start, i, items, reader.pos);
      ghost var item := parse(reader.pos);
      var output := ReadOutput(reader);
      if output.None? {
        FailStays(parse, start, i + 1, n);
        return None;
      }
      MapSnoc(ProjectOut, items, item.value);
      outputs := outputs + [output.value];
      items := items + [item.value];
    }
    return Some(outputs);
  }

  /** decodeTxHex: decodes exactly what the canonical parser accepts, to its projection. */
  method DecodeTxHex(txHex: string) returns (r: Option<DecodedTx>)
    ensures r == DecodeHex(txHex)
  {
    var bytes := HexToBytes(txHex);
    if bytes.None? { return None; }
    var reader := new ByteReader(bytes.value[..]);
    var inputCount := reader.U16le();
    if inputCount.None? { return None; }
    var outputCount := reader.U16le();
    if outputCount.None? { return None; }
    var inputs := ReadInputs(reader, inputCount.value);
    if inputs.None? { return None; }
    var outputs := ReadOutputs(reader, outputCount.value);
    if outputs.None? { return None; }
    r := Some(DecodedTx(inputs.value, outputs.value));
    assert r.value == Project(ParseTx(reader.bytes).value);
  }

  /** Decoder round trip: for every transaction within u16 counts and lengths, with any datum, datum hash
      and trailing witness bytes, decoding the lowercase hex of its serialization returns exactly its
      prevouts and its (value, script) outputs. */
  lemma DecodeRoundTrip(tx: Tx, rest: seq<Byte>)
    requires ValidTx(tx)
    ensures DecodeHex(ToHex(Serialize(tx) + rest)) == Some(Project(tx))
  {
    HexRoundTrip(Serialize(tx) + rest);
    ParseSerialized(tx, rest);
  }

  /** Decoder canonicality: decoding bytes yields `d` exactly when some prefix of them is the
      serialization of a valid transaction that projects to `d`; the rest of the bytes is never looked at. */
  lemma DecodeCanonical(bs: seq<Byte>, d: DecodedTx)
    ensures DecodeBytes(bs) == Some(d) <==>
            exists tx: Tx :: ValidTx(tx) && Serialize(tx) <= bs && Project(tx) == d
  {
    if DecodeBytes(bs) == Some(d) {
      ParseIsCanonical(bs);
      var tx := ParseTx(bs).value;
      assert Serialize(tx) <= bs;
    }
    if tx: Tx :| ValidTx(tx) && Serialize(tx) <= bs && Project(tx) == d {
      ParseSerialized(tx, bs[|Serialize(tx)|..]);
      assert Serialize(tx) + bs[|Serialize(tx)|..] == bs;
    }
  }
}
