/**
 * Go's `encoding/hex` string decoder (`hex.DecodeString`) and, as its partner,
 * the lower-case encoder (`hex.EncodeToString`). Bytes are chars below 256.
 */
module Hex {
  import opened Wrappers
  import Strings

  /** `hex.InvalidByteError` and `hex.ErrLength`. */
  datatype HexError = InvalidByte(c: char) | OddLength

  predicate IsHexDigit(c: char) {
    '0' <= c <= '9' || 'a' <= c <= 'f' || 'A' <= c <= 'F'
  }

  predicate AllHex(s: string) {
    forall i :: 0 <= i < |s| ==> IsHexDigit(s[i])
  }

  /** Every char stands for one byte. */
  predicate IsBytes(s: string) {
    forall i :: 0 <= i < |s| ==> s[i] as int < 256
  }

  function DigitValue(c: char): (v: nat)
    requires IsHexDigit(c)
    ensures v < 16
  {
    if '0' <= c <= '9' then c as int - '0' as int
    else if 'a' <= c <= 'f' then c as int - 'a' as int + 10
    else c as int - 'A' as int + 10
  }

  function ByteOf(hi: char, lo: char): (b: char)
    requires IsHexDigit(hi) && IsHexDigit(lo)
    ensures b as int < 256
  {
    (16 * DigitValue(hi) + DigitValue(lo)) as char
  }

  /** The index of the first char of `s` that is not a hex digit. */
  predicate FirstNonHex(s: string, k: int) {
    0 <= k < |s| && !IsHexDigit(s[k]) && forall j :: 0 <= j < k ==> IsHexDigit(s[j])
  }

  /**
   * `hex.DecodeString`: pairs of digits become bytes. The first char that is
   * not a hex digit is reported, even in an odd-length input; an odd length
   * with only hex digits is `OddLength`.
   */
  function DecodeString(s: string): (r: Result<string, HexError>)
    ensures r.Ok? <==> |s| % 2 == 0 && AllHex(s)
    ensures r.Ok? ==> |r.value| == |s| / 2 && IsBytes(r.value)
    ensures r.Ok? ==> forall k :: 0 <= k < |r.value| ==> r.value[k] == ByteOf(s[2 * k], s[2 * k + 1])
    ensures r == Err(OddLength) <==> |s| % 2 == 1 && AllHex(s)
    ensures r.Err? && r.error.InvalidByte? ==> exists k :: FirstNonHex(s, k) && r.error.c == s[k]
  {
    if |s| == 0 then Ok("")
    else if !IsHexDigit(s[0]) then
      assert FirstNonHex(s, 0);
      Err(InvalidByte(s[0]))
    else if |s| == 1 then Err(OddLength)
    else if !IsHexDigit(s[1]) then
      assert FirstNonHex(s, 1);
      Err(InvalidByte(s[1]))
    else
      var rest := DecodeString(s[2..]);
      match rest
      case Ok(tail) =>
        Ok([ByteOf(s[0], s[1])] + tail)
      case Err(e) =>
        assert !AllHex(s[2..]) ==> !AllHex(s) by {
          if !AllHex(s[2..]) {
            var i :| 0 <= i < |s[2..]| && !IsHexDigit(s[2..][i]);
            assert s[i + 2] == s[2..][i];
          }
        }
        assert AllHex(s[2..]) ==> AllHex(s) by {
          if AllHex(s[2..]) {
            forall i | 0 <= i < |s| ensures IsHexDigit(s[i]) {
              if i >= 2 { assert s[i] == s[2..][i - 2]; }
            }
          }
        }
        assert e.InvalidByte? ==> exists k :: FirstNonHex(s, k) && e.c == s[k] by {
          if e.InvalidByte? {
            var k :| FirstNonHex(s[2..], k) && e.c == s[2..][k];
            assert FirstNonHex(s, k + 2);
          }
        }
        Err(e)
  }

  function HexDigit(v: nat): (c: char)
    requires v < 16
    ensures IsHexDigit(c) && DigitValue(c) == v
  {
    if v < 10 then ('0' as int + v) as char else ('a' as int + v - 10) as char
  }

  /** `hex.EncodeToString`: two lower-case digits per byte. */
  function EncodeToString(b: string): (r: string)
    requires IsBytes(b)
    ensures |r| == 2 * |b|
  {
    if |b| == 0 then ""
    else [HexDigit(b[0] as int / 16), HexDigit(b[0] as int % 16)] + EncodeToString(b[1..])
  }

  /** Decoding an encoding gives back the bytes. */
  lemma {:induction false} DecodeEncode(b: string)
    requires IsBytes(b)
    ensures DecodeString(EncodeToString(b)) == Ok(b)
  {
    if |b| > 0 {
      var e := EncodeToString(b);
      DecodeEncode(b[1..]);
      assert e[2..] == EncodeToString(b[1..]);
      assert ByteOf(e[0], e[1]) == b[0];
      assert b == [b[0]] + b[1..];
    }
  }

  lemma DigitLower(c: char)
    requires IsHexDigit(c)
    ensures HexDigit(DigitValue(c)) == Strings.LowerChar(c)
  {
  }

  lemma PairLower(hi: char, lo: char)
    requires IsHexDigit(hi) && IsHexDigit(lo)
    ensures HexDigit(ByteOf(hi, lo) as int / 16) == Strings.LowerChar(hi)
    ensures HexDigit(ByteOf(hi, lo) as int % 16) == Strings.LowerChar(lo)
  {
    var h, l := DigitValue(hi), DigitValue(lo);
    assert ByteOf(hi, lo) as int == 16 * h + l;
    assert (16 * h + l) / 16 == h && (16 * h + l) % 16 == l;
    DigitLower(hi);
    DigitLower(lo);
  }

  /** Encoding a decoding gives back the digits, lower-cased. */
  lemma {:induction false} EncodeDecode(s: string)
    requires DecodeString(s).Ok?
    ensures EncodeToString(DecodeString(s).value) == Strings.ToLower(s)
  {
    if |s| > 0 {
      var b := DecodeString(s).value;
      EncodeDecode(s[2..]);
      assert b[1..] == DecodeString(s[2..]).value;
      var lo := Strings.ToLower(s);
      assert lo[2..] == Strings.ToLower(s[2..]);
      PairLower(s[0], s[1]);
      assert b[0] == ByteOf(s[0], s[1]);
      assert lo == [lo[0], lo[1]] + lo[2..];
    }
  }
}
