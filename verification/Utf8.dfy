/**
 UTF-8 as the runtime's `Buffer` uses it: encoding, byte length, and the lossy
 decoding that writes U+FFFD where a sequence is not complete (RFC 3629,
 section 3, with the replacement rule of the WHATWG Encoding standard).

 A Dafny `string` is a sequence of Unicode scalar values, that is, a well-formed
 string of the source program.
 */
module Utf8 {
  import opened Prelude

  type Byte = n: nat | n < 256

  const REPLACEMENT: char := '\U{FFFD}'

  function EncodeChar(c: char): (b: seq<Byte>)
    ensures 1 <= |b| <= 4
  {
    var n := c as int;
    if n < 0x80 then [n]
    else if n < 0x800 then [0xC0 + n / 64, 0x80 + n % 64]
    else if n < 0x10000 then [0xE0 + n / 4096, 0x80 + n / 64 % 64, 0x80 + n % 64]
    else [0xF0 + n / 262144, 0x80 + n / 4096 % 64, 0x80 + n / 64 % 64, 0x80 + n % 64]
  }

  function Encode(s: string): (b: seq<Byte>)
    ensures |s| <= |b|
  {
    if s == "" then [] else EncodeChar(s[0]) + Encode(s[1..])
  }

  function ByteLength(s: string): nat {
    |Encode(s)|
  }

  function ScalarOrReplacement(cp: nat): char {
    if cp < 0xD800 || 0xE000 <= cp < 0x110000 then cp as char else REPLACEMENT
  }

  /** The decoder with a partly read sequence: code point so far, bytes still
      needed, and the bounds the next byte must meet. */
  function DecodeFrom(b: seq<Byte>, cp: nat, needed: nat, lower: nat, upper: nat): string
    decreases |b|, needed
  {
    if b == [] then
      if needed == 0 then "" else [REPLACEMENT]
    else if needed == 0 then
      var x := b[0];
      if x < 0x80 then [x as char] + DecodeFrom(b[1..], 0, 0, 0x80, 0xBF)
      else if 0xC2 <= x <= 0xDF then DecodeFrom(b[1..], x - 0xC0, 1, 0x80, 0xBF)
      else if 0xE0 <= x <= 0xEF then DecodeFrom(b[1..], x - 0xE0, 2, LeadLower(x), LeadUpper(x))
      else if 0xF0 <= x <= 0xF4 then DecodeFrom(b[1..], x - 0xF0, 3, LeadLower(x), LeadUpper(x))
      else [REPLACEMENT] + DecodeFrom(b[1..], 0, 0, 0x80, 0xBF)
    else if !(lower <= b[0] <= upper) || b[0] < 0x80 then
      [REPLACEMENT] + DecodeFrom(b, 0, 0, 0x80, 0xBF)
    else
      var next := cp * 64 + (b[0] - 0x80);
      if needed == 1 then [ScalarOrReplacement(next)] + DecodeFrom(b[1..], 0, 0, 0x80, 0xBF)
      else DecodeFrom(b[1..], next, needed - 1, 0x80, 0xBF)
  }

  function Decode(b: seq<Byte>): string {
    DecodeFrom(b, 0, 0, 0x80, 0xBF)
  }

  function LeadLower(x: Byte): Byte {
    if x == 0xE0 then 0xA0 else if x == 0xF0 then 0x90 else 0x80
  }

  function LeadUpper(x: Byte): Byte {
    if x == 0xED then 0x9F else if x == 0xF4 then 0x8F else 0xBF
  }

  /** What the first byte of an encoded character leaves to be read. */
  lemma LeadStep(c: char, rest: seq<Byte>)
    requires c as int >= 0x80
    ensures var e := EncodeChar(c);
            Decode([e[0]] + rest) ==
            DecodeFrom(rest, c as int / (if |e| == 2 then 64 else if |e| == 3 then 4096 else 262144), |e| - 1,
                       LeadLower(e[0]), LeadUpper(e[0]))
  {
  }

  lemma ContinueStep(x: Byte, rest: seq<Byte>, cp: nat, needed: nat, lower: nat, upper: nat)
    requires needed > 0 && 0x80 <= x && lower <= x <= upper
    ensures DecodeFrom([x] + rest, cp, needed, lower, upper) ==
            if needed == 1 then [ScalarOrReplacement(cp * 64 + (x - 0x80))] + Decode(rest)
            else DecodeFrom(rest, cp * 64 + (x - 0x80), needed - 1, 0x80, 0xBF)
  {
  }

  lemma DecodeTail2(cp: nat, x: Byte, y: Byte, rest: seq<Byte>, lower: nat, upper: nat)
    requires 0x80 <= y <= 0xBF && 0x80 <= x && lower <= x <= upper
    ensures DecodeFrom([x, y] + rest, cp, 2, lower, upper)
         == [ScalarOrReplacement((cp * 64 + (x - 0x80)) * 64 + (y - 0x80))] + Decode(rest)
  {
    assert [x, y] + rest == [x] + ([y] + rest);
    ContinueStep(x, [y] + rest, cp, 2, lower, upper);
    ContinueStep(y, rest, cp * 64 + (x - 0x80), 1, 0x80, 0xBF);
  }

  lemma DecodeTail3(cp: nat, x: Byte, y: Byte, z: Byte, rest: seq<Byte>, lower: nat, upper: nat)
    requires 0x80 <= y <= 0xBF && 0x80 <= z <= 0xBF && 0x80 <= x && lower <= x <= upper
    ensures DecodeFrom([x, y, z] + rest, cp, 3, lower, upper)
         == [ScalarOrReplacement(((cp * 64 + (x - 0x80)) * 64 + (y - 0x80)) * 64 + (z - 0x80))] + Decode(rest)
  {
    assert [x, y, z] + rest == [x] + ([y, z] + rest);
    ContinueStep(x, [y, z] + rest, cp, 3, lower, upper);
    DecodeTail2(cp * 64 + (x - 0x80), y, z, rest, 0x80, 0xBF);
  }

  lemma ThreeBytesReadBack(n: nat)
    ensures (n / 4096 * 64 + n / 64 % 64) * 64 + n % 64 == n
  {
    assert n / 4096 == n / 64 / 64;
    assert n == n / 64 * 64 + n % 64;
    assert n / 64 == n / 4096 * 64 + n / 64 % 64;
  }

  lemma SecondOfThree(c: char)
    requires 0x800 <= c as int < 0x10000
    ensures var e := EncodeChar(c);
            |e| == 3 && 0x80 <= e[1] && LeadLower(e[0]) <= e[1] <= LeadUpper(e[0])
  {
  }

  lemma DecodeThreeBytes(c: char, rest: seq<Byte>)
    requires 0x800 <= c as int < 0x10000
    ensures Decode(EncodeChar(c) + rest) == [c] + Decode(rest)
  {
    var n, e := c as int, EncodeChar(c);
    assert e + rest == [e[0]] + ([e[1], e[2]] + rest);
    LeadStep(c, [e[1], e[2]] + rest);
    SecondOfThree(c);
    ThreeBytesReadBack(n);
    DecodeTail2(n / 4096, e[1], e[2], rest, LeadLower(e[0]), LeadUpper(e[0]));
  }

  lemma FourBytesReadBack(n: nat)
    ensures ((n / 262144 * 64 + n / 4096 % 64) * 64 + n / 64 % 64) * 64 + n % 64 == n
  {
    assert n / 4096 == n / 64 / 64 && n / 262144 == n / 4096 / 64;
    assert n == n / 64 * 64 + n % 64;
    assert n / 64 == n / 4096 * 64 + n / 64 % 64;
    assert n / 4096 == n / 262144 * 64 + n / 4096 % 64;
  }

  lemma SecondOfFour(c: char)
    requires 0x10000 <= c as int
    ensures var e := EncodeChar(c);
            |e| == 4 && 0x80 <= e[1] && LeadLower(e[0]) <= e[1] <= LeadUpper(e[0])
  {
  }

  lemma DecodeFourBytes(c: char, rest: seq<Byte>)
    requires 0x10000 <= c as int
    ensures Decode(EncodeChar(c) + rest) == [c] + Decode(rest)
  {
    var n, e := c as int, EncodeChar(c);
    assert e + rest == [e[0]] + ([e[1], e[2], e[3]] + rest);
    LeadStep(c, [e[1], e[2], e[3]] + rest);
    SecondOfFour(c);
    FourBytesReadBack(n);
    DecodeTail3(n / 262144, e[1], e[2], e[3], rest, LeadLower(e[0]), LeadUpper(e[0]));
  }

  /** Reading one whole encoded character yields it and nothing else. */
  lemma DecodeWholeChar(c: char, rest: seq<Byte>)
    ensures Decode(EncodeChar(c) + rest) == [c] + Decode(rest)
  {
    var n, e := c as int, EncodeChar(c);
    if n < 0x80 {
      assert (e + rest)[1..] == rest;
    } else if n < 0x800 {
      assert e + rest == [e[0]] + ([e[1]] + rest);
      LeadStep(c, [e[1]] + rest);
    } else if n < 0x10000 {
      DecodeThreeBytes(c, rest);
    } else {
      DecodeFourBytes(c, rest);
    }
  }

  lemma DecodeCutTail(cp: nat, x: Byte, y: Byte, lower: nat, upper: nat)
    requires 0x80 <= y <= 0xBF && 0x80 <= x && lower <= x <= upper
    ensures DecodeFrom([x] + [y], cp, 3, lower, upper) == [REPLACEMENT]
  {
    ContinueStep(x, [y], cp, 3, lower, upper);
    assert [y] == [y] + [];
    ContinueStep(y, [], cp * 64 + (x - 0x80), 2, 0x80, 0xBF);
  }

  lemma DecodeTwoOf(c: char)
    requires |EncodeChar(c)| > 2
    ensures Decode(EncodeChar(c)[..2]) == [REPLACEMENT]
  {
    var n, e := c as int, EncodeChar(c);
    assert e[..2] == [e[0]] + [e[1]] && [e[1]] == [e[1]] + [];
    LeadStep(c, [e[1]]);
    if |e| == 3 {
      SecondOfThree(c);
      ContinueStep(e[1], [], n / 4096, 2, LeadLower(e[0]), LeadUpper(e[0]));
    } else {
      SecondOfFour(c);
      ContinueStep(e[1], [], n / 262144, 3, LeadLower(e[0]), LeadUpper(e[0]));
    }
  }

  lemma DecodeThreeOf(c: char)
    requires |EncodeChar(c)| > 3
    ensures Decode(EncodeChar(c)[..3]) == [REPLACEMENT]
  {
    var e := EncodeChar(c);
    assert e[..3] == [e[0]] + ([e[1]] + [e[2]]);
    LeadStep(c, [e[1]] + [e[2]]);
    SecondOfFour(c);
    DecodeCutTail(c as int / 262144, e[1], e[2], LeadLower(e[0]), LeadUpper(e[0]));
  }

  /** A character cut short at the end of the input decodes to one U+FFFD. */
  lemma DecodeCutChar(c: char, k: nat)
    requires 0 < k < |EncodeChar(c)|
    ensures Decode(EncodeChar(c)[..k]) == [REPLACEMENT]
  {
    if k == 1 {
      assert EncodeChar(c)[..1] == [EncodeChar(c)[0]] + [];
      LeadStep(c, []);
    } else if k == 2 {
      DecodeTwoOf(c);
    } else {
      DecodeThreeOf(c);
    }
  }

  /** Decoding inverts encoding. */
  lemma {:induction false} DecodeEncode(s: string)
    ensures Decode(Encode(s)) == s
  {
    if s != "" {
      DecodeEncode(s[1..]);
      DecodeWholeChar(s[0], Encode(s[1..]));
    }
  }

  /** The bytes start with the whole encoding of `c`, which is what is decoded first. */
  ghost predicate BeginsWith(b: seq<Byte>, c: char) {
    EncodeChar(c) <= b && Decode(b) == [c] + Decode(b[|EncodeChar(c)|..])
  }

  /** A started sequence that leaves no U+FFFD goes on with a byte within its bounds. */
  lemma NextByteFits(b: seq<Byte>, cp: nat, needed: nat, lower: nat, upper: nat)
    requires needed > 0 && REPLACEMENT !in DecodeFrom(b, cp, needed, lower, upper)
    ensures b != [] && 0x80 <= b[0] && lower <= b[0] <= upper
    ensures var next: nat := cp * 64 + (b[0] - 0x80);
            if needed == 1 then ScalarOrReplacement(next) != REPLACEMENT &&
                                DecodeFrom(b, cp, needed, lower, upper) == [ScalarOrReplacement(next)] + Decode(b[1..])
            else DecodeFrom(b, cp, needed, lower, upper) == DecodeFrom(b[1..], next, needed - 1, 0x80, 0xBF)
  {
  }

  lemma DigitsOf(high: nat, low: nat)
    requires low < 64
    ensures (high * 64 + low) / 64 == high && (high * 64 + low) % 64 == low
  {
  }

  lemma TwoBytesOnly(b: seq<Byte>)
    requires b != [] && 0xC2 <= b[0] <= 0xDF && REPLACEMENT !in Decode(b)
    ensures exists c :: BeginsWith(b, c)
  {
    var high: nat := b[0] - 0xC0;
    NextByteFits(b[1..], high, 1, 0x80, 0xBF);
    var n: nat := high * 64 + (b[1] - 0x80);
    DigitsOf(high, b[1] - 0x80);
    assert EncodeChar(n as char) == b[..2];
    assert b[1..][1..] == b[2..];
    assert BeginsWith(b, n as char);
  }

  lemma ThreeBytesOnly(b: seq<Byte>)
    requires b != [] && 0xE0 <= b[0] <= 0xEF && REPLACEMENT !in Decode(b)
    ensures exists c :: BeginsWith(b, c)
  {
    var high: nat := b[0] - 0xE0;
    NextByteFits(b[1..], high, 2, LeadLower(b[0]), LeadUpper(b[0]));
    var mid: nat := high * 64 + (b[1] - 0x80);
    assert b[1..][1..] == b[2..];
    NextByteFits(b[2..], mid, 1, 0x80, 0xBF);
    var n: nat := mid * 64 + (b[2] - 0x80);
    DigitsOf(high, b[1] - 0x80);
    DigitsOf(mid, b[2] - 0x80);
    assert n / 4096 == n / 64 / 64;
    assert EncodeChar(n as char) == b[..3];
    assert b[2..][1..] == b[3..];
    assert BeginsWith(b, n as char);
  }

  lemma FourBytesEncode(high: nat, y: nat, z: nat, u: nat)
    requires y < 64 && z < 64 && u < 64
    requires 0x10000 <= ((high * 64 + y) * 64 + z) * 64 + u < 0x110000
    ensures EncodeChar((((high * 64 + y) * 64 + z) * 64 + u) as char) == [0xF0 + high, 0x80 + y, 0x80 + z, 0x80 + u]
  {
    var mid := high * 64 + y;
    var low := mid * 64 + z;
    var n := low * 64 + u;
    DigitsOf(high, y);
    DigitsOf(mid, z);
    DigitsOf(low, u);
    assert n / 4096 == n / 64 / 64 && n / 262144 == n / 4096 / 64;
  }

  lemma FourBytesOnly(b: seq<Byte>)
    requires b != [] && 0xF0 <= b[0] <= 0xF4 && REPLACEMENT !in Decode(b)
    ensures exists c :: BeginsWith(b, c)
  {
    var high: nat := b[0] - 0xF0;
    NextByteFits(b[1..], high, 3, LeadLower(b[0]), LeadUpper(b[0]));
    var mid: nat := high * 64 + (b[1] - 0x80);
    assert b[1..][1..] == b[2..];
    NextByteFits(b[2..], mid, 2, 0x80, 0xBF);
    var low: nat := mid * 64 + (b[2] - 0x80);
    assert b[2..][1..] == b[3..];
    NextByteFits(b[3..], low, 1, 0x80, 0xBF);
    assert b[3..][1..] == b[4..];
    FourBytesEncode(high, b[1] - 0x80, b[2] - 0x80, b[3] - 0x80);
    assert BeginsWith(b, (low * 64 + (b[3] - 0x80)) as char);
  }

  lemma OneCharOnly(b: seq<Byte>)
    requires b != [] && REPLACEMENT !in Decode(b)
    ensures exists c :: BeginsWith(b, c)
  {
    if b[0] < 0x80 {
      assert BeginsWith(b, b[0] as char);
    } else if b[0] < 0xE0 {
      TwoBytesOnly(b);
    } else if b[0] < 0xF0 {
      ThreeBytesOnly(b);
    } else {
      FourBytesOnly(b);
    }
  }

  /** Nothing but encoded text decodes without U+FFFD: whatever the bytes, if none
      comes out then they are the encoding of what does. An overlong form, a
      surrogate, a value past U+10FFFF or a stray byte always leaves one. */
  lemma {:induction false} OnlyEncodedTextDecodes(b: seq<Byte>)
    requires REPLACEMENT !in Decode(b)
    ensures Encode(Decode(b)) == b
    decreases |b|
  {
    if b != [] {
      OneCharOnly(b);
      var c :| BeginsWith(b, c);
      var rest := b[|EncodeChar(c)|..];
      assert Decode(b)[1..] == Decode(rest);
      assert forall i :: 0 <= i < |Decode(rest)| ==> Decode(rest)[i] == Decode(b)[i + 1];
      OnlyEncodedTextDecodes(rest);
      assert b == EncodeChar(c) + rest;
    }
  }

  /** How many leading characters of `s` fit in `limit` bytes. */
  function FitCount(s: string, limit: nat): (k: nat)
    ensures k <= |s|
  {
    if s == "" || |EncodeChar(s[0])| > limit then 0
    else 1 + FitCount(s[1..], limit - |EncodeChar(s[0])|)
  }

  lemma {:induction false} EncodeTake(s: string, k: nat)
    requires k <= |s|
    ensures Encode(s[..k]) <= Encode(s)
    ensures k < |s| ==> ByteLength(s[..k + 1]) == ByteLength(s[..k]) + |EncodeChar(s[k])|
  {
    if k == 0 {
      if s != "" {
        assert s[..1][1..] == "";
      }
    } else {
      assert s[..k][1..] == s[1..][..k - 1];
      EncodeTake(s[1..], k - 1);
      if k < |s| {
        assert s[..k + 1][1..] == s[1..][..k];
      }
    }
  }

  /** A longer prefix never takes fewer bytes. */
  lemma {:induction false} ByteLengthMonotone(s: string, j: nat, k: nat)
    requires j <= k <= |s|
    ensures ByteLength(s[..j]) <= ByteLength(s[..k])
    ensures j < k ==> ByteLength(s[..j]) < ByteLength(s[..k])
    decreases k - j
  {
    if j < k {
      EncodeTake(s, j);
      ByteLengthMonotone(s, j + 1, k);
    }
  }

  /** `FitCount` is the longest prefix that fits: one character more does not. */
  lemma {:induction false} FitCountIsLongest(s: string, limit: nat)
    ensures ByteLength(s[..FitCount(s, limit)]) <= limit
    ensures forall k :: 0 <= k <= |s| ==> (ByteLength(s[..k]) <= limit <==> k <= FitCount(s, limit))
  {
    var f := FitCount(s, limit);
    FitCountBoundary(s, limit);
    forall k | 0 <= k <= |s|
      ensures ByteLength(s[..k]) <= limit <==> k <= f
    {
      if k <= f {
        ByteLengthMonotone(s, k, f);
      } else {
        ByteLengthMonotone(s, f + 1, k);
      }
    }
  }

  lemma {:induction false} FitCountBoundary(s: string, limit: nat)
    ensures ByteLength(s[..FitCount(s, limit)]) <= limit
    ensures FitCount(s, limit) < |s| ==> ByteLength(s[..FitCount(s, limit) + 1]) > limit
  {
    if s == "" {
    } else if |EncodeChar(s[0])| > limit {
      assert s[..1][1..] == "";
    } else {
      var f := FitCount(s, limit);
      FitCountBoundary(s[1..], limit - |EncodeChar(s[0])|);
      assert s[..f][1..] == s[1..][..f - 1];
      if f < |s| {
        assert s[..f + 1][1..] == s[1..][..f];
      }
    }
  }

  /** The cut falls inside the first character or in front of it. */
  lemma DecodeCutFirst(s: string, n: nat)
    requires s != "" && n < |EncodeChar(s[0])|
    ensures n <= ByteLength(s) && FitCount(s, n) == 0
    ensures Decode(Encode(s)[..n]) == if n == 0 then "" else [REPLACEMENT]
  {
    assert Encode(s)[..n] == EncodeChar(s[0])[..n];
    if n > 0 {
      DecodeCutChar(s[0], n);
    }
  }

  lemma FirstOfPrefix(s: string, k: nat)
    requires 0 < k <= |s|
    ensures s[..k] == [s[0]] + s[1..][..k - 1]
    ensures ByteLength(s[..k]) == |EncodeChar(s[0])| + ByteLength(s[1..][..k - 1])
  {
    assert s[..k][1..] == s[1..][..k - 1];
  }

  /** Decoding the first `n` bytes of an encoded string: the characters that fit
      whole, then one U+FFFD exactly when the cut falls inside a character. */
  lemma {:induction false} DecodeCut(s: string, n: nat)
    requires n <= ByteLength(s)
    ensures var k := FitCount(s, n);
            Decode(Encode(s)[..n]) == s[..k] + (if ByteLength(s[..k]) == n then "" else [REPLACEMENT])
  {
    var k := FitCount(s, n);
    if s == "" {
    } else if |EncodeChar(s[0])| > n {
      DecodeCutFirst(s, n);
      assert s[..0] == "";
    } else {
      var m := n - |EncodeChar(s[0])|;
      DecodeCut(s[1..], m);
      assert Encode(s)[..n] == EncodeChar(s[0]) + Encode(s[1..])[..m];
      DecodeWholeChar(s[0], Encode(s[1..])[..m]);
      FirstOfPrefix(s, k);
    }
  }

  lemma {:induction false} ByteLengthConcat(a: string, b: string)
    ensures ByteLength(a + b) == ByteLength(a) + ByteLength(b)
  {
    if a == "" {
      assert a + b == b;
    } else {
      assert (a + b)[1..] == a[1..] + b;
      ByteLengthConcat(a[1..], b);
    }
  }

  // ------------------------------------------------------------ truncation

  function StripReplacement(s: string): string {
    if s != "" && s[|s| - 1] == REPLACEMENT then s[..|s| - 1] else s
  }

  /** How many characters of an over-long text survive truncation: all that fit,
      one less when the cut lands exactly behind a literal U+FFFD. */
  function KeptCount(value: string, allowed: nat): (k: nat)
    ensures k <= |value|
  {
    var f := FitCount(value, allowed);
    if f > 0 && value[f - 1] == REPLACEMENT && ByteLength(value[..f]) == allowed then f - 1 else f
  }

  /** Cutting the bytes, decoding them and dropping one trailing U+FFFD leaves
      a prefix of the text, in whole characters. */
  lemma TruncationKeepsPrefix(value: string, allowed: nat)
    requires allowed <= ByteLength(value)
    ensures StripReplacement(Decode(Encode(value)[..allowed])) == value[..KeptCount(value, allowed)]
  {
    var f := FitCount(value, allowed);
    DecodeCut(value, allowed);
    var decoded := Decode(Encode(value)[..allowed]);
    if ByteLength(value[..f]) == allowed {
      assert decoded == value[..f];
      if f > 0 && value[f - 1] == REPLACEMENT {
        assert decoded[..f - 1] == value[..f - 1];
      }
    } else {
      assert decoded[..f] == value[..f];
    }
  }

  /** That prefix fits, and a longer prefix that fits is longer by one literal
      U+FFFD that ends exactly at the limit. */
  lemma KeptPrefixIsLongest(value: string, allowed: nat)
    ensures ByteLength(value[..KeptCount(value, allowed)]) <= allowed
    ensures forall k :: 0 <= k <= |value| && ByteLength(value[..k]) <= allowed ==>
              || k <= KeptCount(value, allowed)
              || (k == KeptCount(value, allowed) + 1 && value[k - 1] == REPLACEMENT && ByteLength(value[..k]) == allowed)
  {
    FitCountIsLongest(value, allowed);
    ByteLengthMonotone(value, KeptCount(value, allowed), FitCount(value, allowed));
  }
}
