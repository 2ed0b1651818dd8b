/** The strict settlement-datum codec (src/spec/datum.ts): a datum is the bare 16-byte quote id. */
module Datum {
  import opened HonorSpec

  const SETTLEMENT_DATUM_VERSION: int := 1
  const QUOTE_ID_BYTES: nat := 16

  datatype DecodeFailure = NotHex | OddLength | WrongLength | UnknownVersion
  datatype DecodeResult = Decoded(quoteId: Hex) | Rejected(why: DecodeFailure)

  predicate IsHexDigit(c: char) { '0' <= c <= '9' || 'a' <= c <= 'f' }

  predicate IsBareHex(s: string) { forall i :: 0 <= i < |s| ==> IsHexDigit(s[i]) }

  /** The 16-byte bare-hex strings: what the standard calls a QuoteId. */
  predicate IsQuoteId(s: string) { IsBareHex(s) && |s| == 2 * QUOTE_ID_BYTES }

  function DecodeSettlementDatum(datumHex: Hex, version: int): DecodeResult {
    if version != SETTLEMENT_DATUM_VERSION then Rejected(UnknownVersion)
    else if !IsBareHex(datumHex) then Rejected(NotHex)
    else if |datumHex| % 2 != 0 then Rejected(OddLength)
    else if |datumHex| / 2 != QUOTE_ID_BYTES then Rejected(WrongLength)
    else Decoded(datumHex)
  }

  /** None where the encoder throws a RangeError. */
  function EncodeSettlementDatum(quoteId: Hex, version: int): Option<Hex> {
    if version != SETTLEMENT_DATUM_VERSION then None
    else if !(IsBareHex(quoteId) && |quoteId| % 2 == 0) || |quoteId| / 2 != QUOTE_ID_BYTES then None
    else Some(quoteId)
  }

  /** Decoding accepts exactly the 16-byte bare-hex strings under version 1, and what the encoder
      emits is exactly what the decoder accepts. */
  lemma DatumRoundTrip(s: Hex, version: int)
    ensures DecodeSettlementDatum(s, version) == Decoded(s) <==> version == 1 && IsQuoteId(s)
    ensures DecodeSettlementDatum(s, version).Decoded? ==> DecodeSettlementDatum(s, version).quoteId == s
    ensures EncodeSettlementDatum(s, version).Some? <==> DecodeSettlementDatum(s, version).Decoded?
    ensures EncodeSettlementDatum(s, version).Some? ==>
              DecodeSettlementDatum(EncodeSettlementDatum(s, version).value, version) == Decoded(s)
  {
  }

  /** Why a datum is rejected: the version before the alphabet before the parity before the length. */
  lemma RejectedFor(s: Hex, version: int)
    ensures var r := DecodeSettlementDatum(s, version);
            && (r == Rejected(UnknownVersion) <==> version != 1)
            && (r == Rejected(NotHex) <==> version == 1 && exists i :: 0 <= i < |s| && s[i] !in "0123456789abcdef")
            && (r == Rejected(OddLength)
                <==> version == 1 && (forall i :: 0 <= i < |s| ==> s[i] in "0123456789abcdef") && |s| % 2 == 1)
            && (r == Rejected(WrongLength)
                <==> version == 1 && (forall i :: 0 <= i < |s| ==> s[i] in "0123456789abcdef") && |s| % 2 == 0
                     && |s| != 32)
  {
    forall i | 0 <= i < |s| ensures IsHexDigit(s[i]) <==> s[i] in "0123456789abcdef" { DigitSet(s[i]); }
  }

  lemma DigitSet(c: char)
    ensures IsHexDigit(c) <==> c in "0123456789abcdef"
  {
    var digits := "0123456789abcdef";
    if '0' <= c <= '9' { assert c == digits[c as int - '0' as int]; }
    if 'a' <= c <= 'f' { assert c == digits[c as int - 'a' as int + 10]; }
  }

  /** One payment cannot satisfy two quotes: bytes before or after an accepted datum make it unacceptable,
      so no datum decodes to a quote id and contains another. */
  lemma NoTrailingBytes(q: Hex, before: Hex, after: Hex)
    requires IsQuoteId(q)
    ensures DecodeSettlementDatum(before + q + after, SETTLEMENT_DATUM_VERSION).Decoded?
            <==> before == "" && after == ""
  {
    var s := before + q + after;
    if before == "" && after == "" {
      assert s == q;
    } else {
      assert |s| > 32;
    }
  }
}
