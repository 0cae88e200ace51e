/** Byte encodings: lower-case hex, fixed-width integers, and splitting concatenations. */
module Bytes {
  import opened Wrappers
  import opened ProofProtocol

  lemma SplitEqual<T>(a: seq<T>, b: seq<T>, c: seq<T>, d: seq<T>)
    requires |a| == |c| && a + b == c + d
    ensures a == c && b == d
  {
    assert (a + b)[..|a|] == a && (c + d)[..|c|] == c;
    assert (a + b)[|a|..] == b && (c + d)[|c|..] == d;
  }

  // ---------------------------------------------------------------- hex

  function HexDigit(n: nat): char
    requires n < 16
  {
    "0123456789abcdef"[n]
  }

  function HexValue(c: char): (v: Option<nat>)
    ensures v.Some? ==> v.value < 16
  {
    if '0' <= c <= '9' then Some(c as int - '0' as int)
    else if 'a' <= c <= 'f' then Some(c as int - 'a' as int + 10)
    else if 'A' <= c <= 'F' then Some(c as int - 'A' as int + 10)
    else None
  }

  predicate AllLowerHex(s: string) { forall i :: 0 <= i < |s| ==> LowerHex(s[i]) }

  predicate LowerHex(c: char) { '0' <= c <= '9' || 'a' <= c <= 'f' }

  lemma DigitRoundTrip(n: nat)
    requires n < 16
    ensures LowerHex(HexDigit(n)) && HexValue(HexDigit(n)) == Some(n)
  {
  }

  lemma ValueRoundTrip(c: char)
    requires LowerHex(c)
    ensures HexValue(c).Some? && HexDigit(HexValue(c).value) == c
  {
  }

  /** `hex::encode`. */
  function HexEncode(bytes: seq<Byte>): string {
    seq(2 * |bytes|, i requires 0 <= i < 2 * |bytes| =>
      HexDigit(if i % 2 == 0 then bytes[i / 2] / 16 else bytes[i / 2] % 16))
  }

  /** `hex::decode`, which takes either case and refuses odd lengths and other characters. */
  function HexDecode(s: string): (bytes: Option<seq<Byte>>)
    ensures bytes.Some? ==> |s| == 2 * |bytes.value|
  {
    if |s| % 2 == 0 && forall i :: 0 <= i < |s| ==> HexValue(s[i]).Some? then
      Some(seq(|s| / 2, i requires 0 <= i < |s| / 2 => HexValue(s[2 * i]).value * 16 + HexValue(s[2 * i + 1]).value))
    else None
  }

  lemma DigitEitherCase(c: char, n: nat)
    requires n < 16
    ensures HexValue(c) == Some(n) <==> c == "0123456789abcdef"[n] || c == "0123456789ABCDEF"[n]
  {
  }

  /** A string decodes to bytes exactly when it spells them, digit by digit, in either case. */
  lemma HexDecodeExactly(s: string, bytes: seq<Byte>)
    ensures HexDecode(s) == Some(bytes) <==>
              && |s| == 2 * |bytes|
              && forall i :: 0 <= i < |bytes| ==>
                   && (s[2 * i] == "0123456789abcdef"[bytes[i] / 16] || s[2 * i] == "0123456789ABCDEF"[bytes[i] / 16])
                   && (s[2 * i + 1] == "0123456789abcdef"[bytes[i] % 16] || s[2 * i + 1] == "0123456789ABCDEF"[bytes[i] % 16])
  {
    forall i | 0 <= i < |bytes| && |s| == 2 * |bytes|
      ensures HexValue(s[2 * i]) == Some(bytes[i] / 16) <==>
                s[2 * i] == "0123456789abcdef"[bytes[i] / 16] || s[2 * i] == "0123456789ABCDEF"[bytes[i] / 16]
      ensures HexValue(s[2 * i + 1]) == Some(bytes[i] % 16) <==>
                s[2 * i + 1] == "0123456789abcdef"[bytes[i] % 16] || s[2 * i + 1] == "0123456789ABCDEF"[bytes[i] % 16]
    {
      DigitEitherCase(s[2 * i], bytes[i] / 16);
      DigitEitherCase(s[2 * i + 1], bytes[i] % 16);
    }
    DecodesByDigits(s, bytes);
  }

  predicate SpelledBy(s: string, bytes: seq<Byte>) {
    && |s| == 2 * |bytes|
    && forall i :: 0 <= i < |bytes| ==>
         HexValue(s[2 * i]) == Some(bytes[i] / 16) && HexValue(s[2 * i + 1]) == Some(bytes[i] % 16)
  }

  lemma DecodesByDigits(s: string, bytes: seq<Byte>)
    ensures HexDecode(s) == Some(bytes) <==> SpelledBy(s, bytes)
  {
    if HexDecode(s) == Some(bytes) {
      forall i | 0 <= i < |bytes|
        ensures HexValue(s[2 * i]) == Some(bytes[i] / 16) && HexValue(s[2 * i + 1]) == Some(bytes[i] % 16)
      {
        assert bytes[i] == HexValue(s[2 * i]).value * 16 + HexValue(s[2 * i + 1]).value;
      }
    }
    if SpelledBy(s, bytes) {
      forall k | 0 <= k < |s| ensures HexValue(s[k]).Some? {
        assert HexValue(s[2 * (k / 2)]).Some? && HexValue(s[2 * (k / 2) + 1]).Some?;
        assert k == 2 * (k / 2) || k == 2 * (k / 2) + 1;
      }
      forall i | 0 <= i < |bytes| ensures HexDecode(s).value[i] == bytes[i] {
        assert HexValue(s[2 * i]) == Some(bytes[i] / 16) && HexValue(s[2 * i + 1]) == Some(bytes[i] % 16);
      }
      assert HexDecode(s).value == bytes;
    }
  }

  lemma EncodeThenDecode(bytes: seq<Byte>)
    ensures HexDecode(HexEncode(bytes)) == Some(bytes)
    ensures AllLowerHex(HexEncode(bytes))
  {
    var s := HexEncode(bytes);
    forall i | 0 <= i < |s| ensures LowerHex(s[i]) && HexValue(s[i]).Some? {
      DigitRoundTrip(if i % 2 == 0 then bytes[i / 2] / 16 else bytes[i / 2] % 16);
    }
    forall i | 0 <= i < |bytes| ensures HexDecode(s).value[i] == bytes[i] {
      DigitRoundTrip(bytes[i] / 16);
      DigitRoundTrip(bytes[i] % 16);
      assert s[2 * i] == HexDigit(bytes[i] / 16) && s[2 * i + 1] == HexDigit(bytes[i] % 16);
    }
    assert HexDecode(s).value == bytes;
  }

  lemma DecodeThenEncode(s: string)
    requires |s| % 2 == 0 && AllLowerHex(s)
    ensures HexDecode(s).Some? && HexEncode(HexDecode(s).value) == s
  {
    forall i | 0 <= i < |s| ensures HexValue(s[i]).Some? { ValueRoundTrip(s[i]); }
    var bytes := HexDecode(s).value;
    forall i | 0 <= i < |s| ensures HexEncode(bytes)[i] == s[i] {
      ValueRoundTrip(s[i]);
      assert bytes[i / 2] == HexValue(s[i / 2 * 2]).value * 16 + HexValue(s[i / 2 * 2 + 1]).value;
      assert bytes[i / 2] / 16 == HexValue(s[i / 2 * 2]).value;
      assert bytes[i / 2] % 16 == HexValue(s[i / 2 * 2 + 1]).value;
    }
  }

  datatype HexError = NotSixtyFourHexDigits | NotLowercase

  predicate HexDigitAnyCase(c: char) { LowerHex(c) || 'A' <= c <= 'F' }

  /** `decode_hex_32`. */
  function DecodeHex32(s: string): Result<Digest, HexError> {
    if |s| != 64 || exists i :: 0 <= i < |s| && !HexDigitAnyCase(s[i]) then Failure(NotSixtyFourHexDigits)
    else if exists i :: 0 <= i < |s| && 'A' <= s[i] <= 'Z' then Failure(NotLowercase)
    else
      var bytes := HexDecode(s);
      if bytes.Some? && |bytes.value| == 32 then Success(bytes.value) else Failure(NotSixtyFourHexDigits)
  }

  lemma DigitsAt(d: Digest, i: nat)
    requires i < 32
    ensures HexEncode(d)[2 * i] == "0123456789abcdef"[d[i] / 16] && HexEncode(d)[2 * i + 1] == "0123456789abcdef"[d[i] % 16]
  {
    assert (2 * i) / 2 == i && (2 * i + 1) / 2 == i;
  }

  lemma DigitsSpelled(s: string, d: Digest)
    ensures s == HexEncode(d) <==>
              |s| == 64 && forall i :: 0 <= i < 32 ==> s[2 * i] == "0123456789abcdef"[d[i] / 16]
                                                       && s[2 * i + 1] == "0123456789abcdef"[d[i] % 16]
  {
    forall i | 0 <= i < 32
      ensures HexEncode(d)[2 * i] == "0123456789abcdef"[d[i] / 16] && HexEncode(d)[2 * i + 1] == "0123456789abcdef"[d[i] % 16]
    {
      DigitsAt(d, i);
    }
    if |s| == 64 && s != HexEncode(d) {
      var k :| 0 <= k < 64 && s[k] != HexEncode(d)[k];
      var i := k / 2;
      assert k == 2 * i || k == 2 * i + 1;
      DigitsAt(d, i);
    }
  }

  /** Every 32-byte value is the decoding of exactly one accepted string: its lower-case hex, the high half of
      each byte first. */
  lemma DecodeHex32Bijection(s: string, d: Digest)
    ensures DecodeHex32(s) == Success(d) <==> s == HexEncode(d)
    ensures DecodeHex32(s) == Success(d) <==>
              |s| == 64 && forall i :: 0 <= i < 32 ==> s[2 * i] == "0123456789abcdef"[d[i] / 16]
                                                       && s[2 * i + 1] == "0123456789abcdef"[d[i] % 16]
  {
    EncodeThenDecode(d);
    if DecodeHex32(s) == Success(d) {
      forall i | 0 <= i < |s| ensures LowerHex(s[i]) {
        assert HexDigitAnyCase(s[i]) && !('A' <= s[i] <= 'Z');
      }
      DecodeThenEncode(s);
    }
    DigitsSpelled(s, d);
  }

  /** Accepted are exactly 64 lower-case hex digits. Of 64 hex digits with an upper-case one among them the error
      says just that, of anything else that they are not 64 hex digits. */
  lemma DecodeHex32Accepts(s: string)
    ensures DecodeHex32(s).Success? <==>
              |s| == 64 && forall i :: 0 <= i < |s| ==> '0' <= s[i] <= '9' || 'a' <= s[i] <= 'f'
    ensures DecodeHex32(s) == Failure(NotLowercase) <==>
              && |s| == 64 && (exists i :: 0 <= i < |s| && 'A' <= s[i] <= 'F')
              && forall i :: 0 <= i < |s| ==> '0' <= s[i] <= '9' || 'a' <= s[i] <= 'f' || 'A' <= s[i] <= 'F'
  {
    if DecodeHex32(s).Success? {
      DecodeHex32Bijection(s, DecodeHex32(s).value);
      EncodeThenDecode(DecodeHex32(s).value);
    } else if |s| == 64 && AllLowerHex(s) {
      DecodeThenEncode(s);
      DecodeHex32Bijection(s, HexDecode(s).value);
      assert false;
    }
  }

  /** A digest written with `0x` is refused: the daemon must send bare hex. */
  lemma PrefixedHexIsRefused(digits: string)
    ensures DecodeHex32("0x" + digits) == Failure(NotSixtyFourHexDigits)
  {
    assert ("0x" + digits)[1] == 'x';
  }

  // ---------------------------------------------------------------- integers

  function Pow256(k: nat): nat { if k == 0 then 1 else 256 * Pow256(k - 1) }

  /** `to_be_bytes` and `to_le_bytes` of a k-byte integer. */
  function BeBytes(n: nat, k: nat): (b: seq<Byte>)
    ensures |b| == k
  {
    if k == 0 then [] else BeBytes(n / 256, k - 1) + [n % 256]
  }

  function FromBe(b: seq<Byte>): nat {
    if b == [] then 0 else FromBe(b[..|b| - 1]) * 256 + b[|b| - 1]
  }

  function LeBytes(n: nat, k: nat): (b: seq<Byte>)
    ensures |b| == k
  {
    if k == 0 then [] else [n % 256] + LeBytes(n / 256, k - 1)
  }

  function FromLe(b: seq<Byte>): nat {
    if b == [] then 0 else b[0] + 256 * FromLe(b[1..])
  }

  /** The four bytes of a `u32`, the high one first. */
  lemma BigEndian(n: nat)
    requires n < 0x1_0000_0000
    ensures var b := BeBytes(n, 4);
            n == b[0] as int * 0x100_0000 + b[1] as int * 0x1_0000 + b[2] as int * 0x100 + b[3] as int
  {
    var n1, n2, n3 := n / 256, n / 256 / 256, n / 256 / 256 / 256;
    assert BeBytes(n3, 1) == BeBytes(n3 / 256, 0) + [n3 % 256] == [n3 % 256];
    assert BeBytes(n2, 2) == BeBytes(n3, 1) + [n2 % 256];
    assert BeBytes(n1, 3) == BeBytes(n2, 2) + [n1 % 256];
    assert BeBytes(n, 4) == BeBytes(n1, 3) + [n % 256];
  }

  /** The eight bytes of a `u64`, the low one first. */
  lemma LittleEndian(n: nat)
    requires n < 0x1_0000_0000_0000_0000
    ensures var b := LeBytes(n, 8);
            n == b[0] as int + b[1] as int * 0x100 + b[2] as int * 0x1_0000 + b[3] as int * 0x100_0000
                 + b[4] as int * 0x1_0000_0000 + b[5] as int * 0x100_0000_0000 + b[6] as int * 0x1_0000_0000_0000
                 + b[7] as int * 0x100_0000_0000_0000
  {
    var n1, n2 := n / 256, n / 256 / 256;
    var n3, n4 := n2 / 256, n2 / 256 / 256;
    var n5, n6 := n4 / 256, n4 / 256 / 256;
    var n7 := n6 / 256;
    assert LeBytes(n6, 2) == [n6 % 256] + LeBytes(n7, 1) == [n6 % 256] + ([n7 % 256] + LeBytes(n7 / 256, 0));
    assert LeBytes(n4, 4) == [n4 % 256] + ([n5 % 256] + LeBytes(n6, 2));
    assert LeBytes(n2, 6) == [n2 % 256] + ([n3 % 256] + LeBytes(n4, 4));
    assert LeBytes(n, 8) == [n % 256] + ([n1 % 256] + LeBytes(n2, 6));
    assert LeBytes(n, 8) == [n % 256, n1 % 256, n2 % 256, n3 % 256, n4 % 256, n5 % 256, n6 % 256, n7 % 256];
  }

  lemma {:induction false} BeRoundTrip(n: nat, k: nat)
    requires n < Pow256(k)
    ensures FromBe(BeBytes(n, k)) == n
    decreases k
  {
    if k > 0 {
      BeRoundTrip(n / 256, k - 1);
      var b := BeBytes(n, k);
      assert b[..|b| - 1] == BeBytes(n / 256, k - 1);
    }
  }

  lemma {:induction false} BeInverse(b: seq<Byte>)
    ensures BeBytes(FromBe(b), |b|) == b && FromBe(b) < Pow256(|b|)
    decreases |b|
  {
    if b != [] {
      BeInverse(b[..|b| - 1]);
      assert b == b[..|b| - 1] + [b[|b| - 1]];
    }
  }

  lemma {:induction false} LeRoundTrip(n: nat, k: nat)
    requires n < Pow256(k)
    ensures FromLe(LeBytes(n, k)) == n
    decreases k
  {
    if k > 0 {
      LeRoundTrip(n / 256, k - 1);
      assert LeBytes(n, k)[1..] == LeBytes(n / 256, k - 1);
    }
  }

  lemma {:induction false} LeInverse(b: seq<Byte>)
    ensures LeBytes(FromLe(b), |b|) == b && FromLe(b) < Pow256(|b|)
    decreases |b|
  {
    if b != [] { LeInverse(b[1..]); }
  }
}
