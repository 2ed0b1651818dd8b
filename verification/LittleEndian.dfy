/** Little-endian integers, and the JavaScript operators the reader computes them with. */
module LittleEndian {

  type Byte = b: int | 0 <= b < 256

  /** Sum of byte i times 256^i. */
  function Value(bs: seq<Byte>): nat {
    if bs == [] then 0 else bs[0] + 256 * Value(bs[1..])
  }

  /** The `n` low bytes of `v`, least significant first. */
  function Bytes(v: nat, n: nat): seq<Byte>
    ensures |Bytes(v, n)| == n
  {
    if n == 0 then [] else [v % 256] + Bytes(v / 256, n - 1)
  }

  function Pow2(k: nat): nat
    ensures Pow2(k) > 0
  {
    if k == 0 then 1 else 2 * Pow2(k - 1)
  }

  function Pow256(n: nat): nat
    ensures Pow256(n) > 0
  {
    if n == 0 then 1 else 256 * Pow256(n - 1)
  }

  lemma {:induction false} ValueBound(bs: seq<Byte>)
    ensures Value(bs) < Pow256(|bs|)
  {
    if bs != [] { ValueBound(bs[1..]); }
  }

  /** Encoding and decoding are inverse, on all byte strings and on all values that fit. */
  lemma {:induction false} BytesOfValue(bs: seq<Byte>)
    ensures Bytes(Value(bs), |bs|) == bs
  {
    if bs != [] {
      var low, high := bs[0], Value(bs[1..]);
      BytesOfValue(bs[1..]);
      Digits(low, high);
      assert Bytes(low + 256 * high, |bs|) == [low] + Bytes(high, |bs| - 1);
      assert bs == [low] + bs[1..];
    }
  }

  lemma Digits(low: Byte, high: nat)
    ensures (low + 256 * high) % 256 == low && (low + 256 * high) / 256 == high
  {
  }

  lemma {:induction false} ValueOfBytes(v: nat, n: nat)
    requires v < Pow256(n)
    ensures Value(Bytes(v, n)) == v
  {
    if n > 0 { ValueOfBytes(v / 256, n - 1); }
  }

  // ---- JavaScript integer operators -----------------------------------------------------------------------

  const TWO32: int := 0x1_0000_0000

  function ToUint32(x: int): nat { x % TWO32 }

  function ToInt32(x: int): int {
    var u := x % TWO32;
    if u >= 0x8000_0000 then u - TWO32 else u
  }

  /** Bitwise or of two naturals. */
  function BitOr(a: nat, b: nat): nat
    decreases a
  {
    if a == 0 then b
    else 2 * BitOr(a / 2, b / 2) + if a % 2 == 1 || b % 2 == 1 then 1 else 0
  }

  /** `a << k` and `a | b` work on signed 32-bit words; `a >>> 0` reads the word as unsigned. */
  function Shl(a: int, k: nat): int { ToInt32(ToUint32(a) * Pow2(k)) }
  function Or(a: int, b: int): int { ToInt32(BitOr(ToUint32(a), ToUint32(b))) }
  function UnsignedShr0(a: int): int { ToUint32(a) }

  /** Or-ing in bits above the ones in use is addition. */
  lemma {:induction false} OrHigh(a: nat, b: nat, k: nat)
    requires a < Pow2(k)
    ensures BitOr(a, b * Pow2(k)) == a + b * Pow2(k)
  {
    if a != 0 {
      assert b * Pow2(k) == 2 * (b * Pow2(k - 1));
      OrHigh(a / 2, b, k - 1);
    }
  }

  /** Or-ing in bits below the ones in use is addition. */
  lemma {:induction false} OrLow(a: nat, b: nat, k: nat)
    requires b < Pow2(k)
    ensures BitOr(a * Pow2(k), b) == a * Pow2(k) + b
    decreases k
  {
    if k > 0 && a > 0 {
      assert a * Pow2(k) == 2 * (a * Pow2(k - 1)) && a * Pow2(k) > 0;
      OrLow(a, b / 2, k - 1);
    } else if k == 0 {
      OrZero(a);
    }
  }

  lemma {:induction false} OrZero(a: nat)
    ensures BitOr(a, 0) == a
  {
    if a != 0 { OrZero(a / 2); }
  }

  lemma Word(x: int)
    requires 0 <= x < TWO32
    ensures ToUint32(x) == x && ToUint32(ToInt32(x)) == x
  {
  }

  lemma Powers()
    ensures Pow2(8) == 0x100 && Pow2(16) == 0x1_0000 && Pow2(24) == 0x100_0000
  {
    assert Pow2(4) == 16;
    assert Pow2(8) == 256;
    assert Pow2(12) == 4096;
    assert Pow2(16) == 65536;
    assert Pow2(20) == 1048576;
  }

  /** One `| (b << k)` step: the word's unsigned value grows by b * 2^k. */
  lemma OrShifted(w: int, b: Byte, k: nat)
    requires ToUint32(w) < Pow2(k) && Pow2(k) * 256 <= TWO32
    ensures ToUint32(Or(w, Shl(b, k))) == ToUint32(w) + b * Pow2(k) < 256 * Pow2(k)
  {
    var u, shifted := ToUint32(w), b * Pow2(k);
    Product(b, Pow2(k));
    Word(b);
    Word(shifted);
    assert Shl(b, k) == ToInt32(shifted);
    OrHigh(u, b, k);
    Word(u + shifted);
    assert Or(w, Shl(b, k)) == ToInt32(u + shifted);
  }

  lemma Product(b: Byte, p: nat)
    ensures 0 <= b * p <= 255 * p
  {
  }

  lemma Or8(w: int, b: Byte)
    requires ToUint32(w) < 0x100
    ensures ToUint32(Or(w, Shl(b, 8))) == ToUint32(w) + 0x100 * b < 0x1_0000
  {
    Powers();
    OrShifted(w, b, 8);
  }

  lemma Or16(w: int, b: Byte)
    requires ToUint32(w) < 0x1_0000
    ensures ToUint32(Or(w, Shl(b, 16))) == ToUint32(w) + 0x1_0000 * b < 0x100_0000
  {
    Powers();
    OrShifted(w, b, 16);
  }

  lemma Or24(w: int, b: Byte)
    requires ToUint32(w) < 0x100_0000
    ensures ToUint32(Or(w, Shl(b, 24))) == ToUint32(w) + 0x100_0000 * b < TWO32
  {
    Powers();
    OrShifted(w, b, 24);
  }

  /** `b0 | (b1 << 8)`. */
  function U16(b0: Byte, b1: Byte): int { Or(b0, Shl(b1, 8)) }

  /** `(b0 | (b1 << 8) | (b2 << 16) | (b3 << 24)) >>> 0`. */
  function U32(b0: Byte, b1: Byte, b2: Byte, b3: Byte): int {
    UnsignedShr0(Or(Or(U16(b0, b1), Shl(b2, 16)), Shl(b3, 24)))
  }

  lemma U16IsLittleEndian(b0: Byte, b1: Byte)
    ensures U16(b0, b1) == Value([b0, b1]) < 0x1_0000
  {
    Word(b0);
    Or8(b0, b1);
    ValueOf2(b0, b1);
    OrIsWord(b0, Shl(b1, 8));
  }

  /** The signed shifts cost nothing: the expression is exactly the little-endian value, also when the
      top byte makes the intermediate word negative. */
  lemma U32IsLittleEndian(b0: Byte, b1: Byte, b2: Byte, b3: Byte)
    ensures U32(b0, b1, b2, b3) == Value([b0, b1, b2, b3]) < TWO32
  {
    var w1 := U16(b0, b1);
    U16IsLittleEndian(b0, b1);
    Word(w1);
    ValueOf2(b0, b1);
    Or16(w1, b2);
    Or24(Or(w1, Shl(b2, 16)), b3);
    ValueOf4(b0, b1, b2, b3);
  }

  /** A result with the sign bit clear is its own unsigned value. */
  lemma OrIsWord(a: int, b: int)
    requires ToUint32(Or(a, b)) < 0x8000_0000
    ensures Or(a, b) == ToUint32(Or(a, b))
  {
    SignedWord(BitOr(ToUint32(a), ToUint32(b)));
  }

  lemma SignedWord(x: int)
    requires ToUint32(ToInt32(x)) < 0x8000_0000
    ensures ToInt32(x) == ToUint32(ToInt32(x))
  {
  }

  lemma ValueOf2(b0: Byte, b1: Byte)
    ensures Value([b0, b1]) == b0 + 256 * b1
  {
    assert [b0, b1][1..] == [b1] && [b1][1..] == [];
    assert Value([b1]) == b1;
  }

  lemma ValueOf4(b0: Byte, b1: Byte, b2: Byte, b3: Byte)
    ensures Value([b0, b1, b2, b3]) == b0 + 256 * b1 + 0x1_0000 * b2 + 0x100_0000 * b3
  {
    assert [b0, b1, b2, b3][1..] == [b1, b2, b3] && [b1, b2, b3][1..] == [b2, b3];
    ValueOf2(b2, b3);
  }
}
