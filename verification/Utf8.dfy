/**
  UTF-8 as sections 3 and 4 of RFC 3629 define it, and decoding from either end of a byte string as
  Go's utf8 package does it.
 */
module Utf8 {
  type byte = b: int | 0 <= b < 256

  /** A Unicode scalar value. */
  type rune = r: int | 0 <= r < 0xD800 || 0xE000 <= r < 0x110000

  const RUNE_ERROR := 0xFFFD

  // ---------- encoding ----------

  function EncodeRune(r: rune): seq<byte>
  {
    if r < 0x80 then [r]
    else if r < 0x800 then [0xC0 + r / 64, 0x80 + r % 64]
    else if r < 0x10000 then [0xE0 + r / 4096, 0x80 + r / 64 % 64, 0x80 + r % 64]
    else [0xF0 + r / 262144, 0x80 + r / 4096 % 64, 0x80 + r / 64 % 64, 0x80 + r % 64]
  }

  function Flatten(units: seq<seq<byte>>): seq<byte>
  {
    if units == [] then [] else Flatten(units[..|units| - 1]) + units[|units| - 1]
  }

  function Units(rs: seq<rune>): seq<seq<byte>>
  {
    seq(|rs|, i requires 0 <= i < |rs| => EncodeRune(rs[i]))
  }

  function Encode(rs: seq<rune>): seq<byte>
  {
    Flatten(Units(rs))
  }

  lemma {:induction false} FlattenConcat(a: seq<seq<byte>>, b: seq<seq<byte>>)
    ensures Flatten(a + b) == Flatten(a) + Flatten(b)
  {
    if b == [] {
      assert a + b == a;
    } else {
      FlattenConcat(a, b[..|b| - 1]);
      assert (a + b)[..|a + b| - 1] == a + b[..|b| - 1];
    }
  }

  lemma EncodeConcat(a: seq<rune>, b: seq<rune>)
    ensures Encode(a + b) == Encode(a) + Encode(b)
  {
    assert Units(a + b) == Units(a) + Units(b);
    FlattenConcat(Units(a), Units(b));
  }

  lemma EncodeLast(rs: seq<rune>)
    requires rs != []
    ensures Encode(rs) == Encode(rs[..|rs| - 1]) + EncodeRune(rs[|rs| - 1])
  {
    assert Units(rs)[..|rs| - 1] == Units(rs[..|rs| - 1]);
  }

  lemma EncodeOne(r: rune)
    ensures Encode([r]) == EncodeRune(r)
  {
    EncodeLast([r]);
    assert Units([r][..0]) == [];
  }

  // ---------- decoding ----------

  predicate Continuation(b: byte)
  {
    0x80 <= b <= 0xBF
  }

  /** How many bytes a first byte announces; 0 if no rune starts with it. */
  function Width(b: byte): nat
  {
    if b < 0x80 then 1 else if b < 0xC2 then 0 else if b < 0xE0 then 2 else if b < 0xF0 then 3
    else if b < 0xF5 then 4 else 0
  }

  /** The second bytes that may follow a first byte: no overlong form, no surrogate, nothing beyond U+10FFFF. */
  predicate SecondAccepted(first: byte, second: byte)
  {
    && Continuation(second)
    && (first == 0xE0 ==> 0xA0 <= second) && (first == 0xED ==> second <= 0x9F)
    && (first == 0xF0 ==> 0x90 <= second) && (first == 0xF4 ==> second <= 0x8F)
  }

  predicate StartsWithRune(s: seq<byte>)
  {
    && s != []
    && var n := Width(s[0]);
       && 1 <= n <= |s|
       && (2 <= n ==> SecondAccepted(s[0], s[1]))
       && (3 <= n ==> Continuation(s[2]))
       && (4 <= n ==> Continuation(s[3]))
  }

  /** What a byte contributes once its marker bits are taken off. */
  function Bits(b: byte, marker: int): int
  {
    b - marker
  }

  /** The first rune and its length; anything malformed is the error rune of length 1. */
  function DecodeRune(s: seq<byte>): (int, nat)
  {
    if s == [] then (RUNE_ERROR, 0)
    else if !StartsWithRune(s) then (RUNE_ERROR, 1)
    else
      var n := Width(s[0]);
      if n == 1 then (s[0], 1)
      else if n == 2 then (64 * Bits(s[0], 0xC0) + Bits(s[1], 0x80), 2)
      else if n == 3 then (4096 * Bits(s[0], 0xE0) + 64 * Bits(s[1], 0x80) + Bits(s[2], 0x80), 3)
      else (262144 * Bits(s[0], 0xF0) + 4096 * Bits(s[1], 0x80) + 64 * Bits(s[2], 0x80) + Bits(s[3], 0x80), 4)
  }

  /** The nearest index at or below i, but not below lim, where a rune could start; else lim - 1. */
  function ScanBack(s: seq<byte>, i: int, lim: nat): (start: int)
    requires lim - 1 <= i < |s|
    ensures lim - 1 <= start <= i
    decreases i - lim
  {
    if i < lim || !Continuation(s[i]) then i else ScanBack(s, i - 1, lim)
  }

  function Max0(i: int): nat
  {
    if i < 0 then 0 else i
  }

  /** The last rune and its length, looking back at most four bytes. */
  function DecodeLastRune(s: seq<byte>): (int, nat)
  {
    if s == [] then (RUNE_ERROR, 0) else
    var end := |s|;
    if s[end - 1] < 0x80 then (s[end - 1], 1) else
    var lim := Max0(end - 4);
    var start := Max0(if end == 1 then -1 else ScanBack(s, end - 2, lim));
    var (r, size) := DecodeRune(s[start..]);
    if start + size != end then (RUNE_ERROR, 1) else (r, size)
  }

  // ---------- decoding what was encoded ----------

  lemma EncodedRuneShape(r: rune)
    ensures var e := EncodeRune(r);
            && 1 <= |e| <= 4 && Width(e[0]) == |e| && !Continuation(e[0])
            && (2 <= |e| ==> SecondAccepted(e[0], e[1]))
            && forall i :: 1 <= i < |e| ==> Continuation(e[i])
    ensures |EncodeRune(r)| == 1 <==> r < 0x80
    ensures |EncodeRune(r)| == 3 <==> 0x800 <= r < 0x10000
  {
  }

  /** Decoding the front of an encoding gives its first rune back. */
  lemma DecodeFirst(r: rune, rest: seq<byte>)
    ensures DecodeRune(EncodeRune(r) + rest) == (r, |EncodeRune(r)|)
  {
    EncodedRuneShape(r);
    var e := EncodeRune(r);
    var s := e + rest;
    assert forall i :: 0 <= i < |e| ==> s[i] == e[i];
    if |e| == 3 {
      assert r == r / 4096 * 4096 + r / 64 % 64 * 64 + r % 64;
    } else if |e| == 4 {
      assert r == r / 262144 * 262144 + r / 4096 % 64 * 4096 + r / 64 % 64 * 64 + r % 64;
    }
  }

  lemma TwoBytesAreARune(a: byte, b: byte) returns (r: rune)
    requires Width(a) == 2 && Continuation(b)
    ensures EncodeRune(r) == [a, b]
  {
    r := 64 * (a - 0xC0) + (b - 0x80);
    assert r / 64 == a - 0xC0 && r % 64 == b - 0x80;
  }

  lemma ThreeBytesAreARune(a: byte, b: byte, c: byte) returns (r: rune)
    requires Width(a) == 3 && SecondAccepted(a, b) && Continuation(c)
    ensures EncodeRune(r) == [a, b, c]
  {
    var high := 64 * (a - 0xE0) + (b - 0x80);
    r := 64 * high + (c - 0x80);
    assert r / 64 == high && r % 64 == c - 0x80;
    assert r / 4096 == a - 0xE0 && high % 64 == b - 0x80;
  }

  lemma FourBytesAreARune(a: byte, b: byte, c: byte, d: byte) returns (r: rune)
    requires Width(a) == 4 && SecondAccepted(a, b) && Continuation(c) && Continuation(d)
    ensures EncodeRune(r) == [a, b, c, d]
  {
    var top := 64 * (a - 0xF0) + (b - 0x80);
    var high := 64 * top + (c - 0x80);
    r := 64 * high + (d - 0x80);
    assert r / 64 == high && r % 64 == d - 0x80;
    assert r / 4096 == top && high % 64 == c - 0x80;
    assert r / 262144 == a - 0xF0 && top % 64 == b - 0x80;
  }

  /** Bytes that start with an accepted sequence start with the encoding of a rune, and it is the one decoded. */
  lemma AcceptedIsARune(s: seq<byte>) returns (r: rune)
    requires StartsWithRune(s)
    ensures EncodeRune(r) <= s && DecodeRune(s) == (r, |EncodeRune(r)|)
  {
    var n := Width(s[0]);
    if n == 1 {
      r := s[0];
    } else if n == 2 {
      r := TwoBytesAreARune(s[0], s[1]);
      assert s[..2] == [s[0], s[1]];
    } else if n == 3 {
      r := ThreeBytesAreARune(s[0], s[1], s[2]);
      assert s[..3] == [s[0], s[1], s[2]];
    } else {
      r := FourBytesAreARune(s[0], s[1], s[2], s[3]);
      assert s[..4] == [s[0], s[1], s[2], s[3]];
    }
    var k := |EncodeRune(r)|;
    assert s == EncodeRune(r) + s[k..];
    DecodeFirst(r, s[k..]);
  }

  /** Decoding finds a rune in front of any bytes exactly if the encoding of one is there; else it is an error. */
  lemma DecodesIffEncoded(s: seq<byte>, r: rune)
    ensures EncodeRune(r) <= s <==> StartsWithRune(s) && DecodeRune(s) == (r, |EncodeRune(r)|)
    ensures s != [] && !StartsWithRune(s) ==> DecodeRune(s) == (RUNE_ERROR, 1)
  {
    if EncodeRune(r) <= s {
      var k := |EncodeRune(r)|;
      assert s == EncodeRune(r) + s[k..];
      DecodeFirst(r, s[k..]);
      EncodedRuneShape(r);
    }
    if StartsWithRune(s) {
      var r' := AcceptedIsARune(s);
    }
  }

  lemma {:induction false} ScanFinds(s: seq<byte>, i: nat, lim: nat, start: nat)
    requires lim <= start <= i < |s| && !Continuation(s[start])
    requires forall k :: start < k <= i ==> Continuation(s[k])
    ensures ScanBack(s, i, lim) == start
    decreases i
  {
    if start < i {
      ScanFinds(s, i - 1, lim, start);
    }
  }

  /** Decoding the end of an encoding gives its last rune back, whatever comes before. */
  lemma DecodeLast(x: seq<byte>, r: rune)
    ensures DecodeLastRune(x + EncodeRune(r)) == (r, |EncodeRune(r)|)
  {
    EncodedRuneShape(r);
    var e := EncodeRune(r);
    var s := x + e;
    if |e| > 1 {
      assert s[|x|..] == e;
      assert forall k :: 0 <= k < |e| ==> s[|x| + k] == e[k];
      ScanFinds(s, |s| - 2, Max0(|s| - 4), |x|);
      DecodeFirst(r, []);
      assert e + [] == e;
    }
  }

  lemma DecodedEndsInContinuation(s: seq<byte>)
    requires DecodeRune(s).1 >= 2
    ensures DecodeRune(s).1 <= |s| && Continuation(s[DecodeRune(s).1 - 1])
  {
  }

  /** The beginning of a longer rune: its first byte announces more than there is. */
  predicate IsPart(part: seq<byte>)
  {
    && part != [] && !Continuation(part[0]) && |part| < Width(part[0])
    && forall i :: 1 <= i < |part| ==> Continuation(part[i])
  }

  lemma DecodeLastOfFirstByte(x: seq<byte>, b: byte)
    requires IsPart([b])
    ensures DecodeLastRune(x + [b]) == (RUNE_ERROR, 1)
  {
    var s := x + [b];
    if x != [] {
      var start := Max0(ScanBack(s, |s| - 2, Max0(|s| - 4)));
      if DecodeRune(s[start..]).1 >= 2 {
        DecodedEndsInContinuation(s[start..]);
      }
    }
  }

  /** Cut short, a rune decodes as an error of length 1 from the end. */
  lemma DecodeLastOfPart(x: seq<byte>, part: seq<byte>)
    requires IsPart(part)
    ensures DecodeLastRune(x + part) == (RUNE_ERROR, 1)
  {
    if |part| == 1 {
      assert part == [part[0]];
      DecodeLastOfFirstByte(x, part[0]);
    } else {
      var s := x + part;
      assert s[|x|..] == part;
      assert forall k :: 0 <= k < |part| ==> s[|x| + k] == part[k];
      ScanFinds(s, |s| - 2, Max0(|s| - 4), |x|);
    }
  }

  lemma PrefixOfRuneIsPart(r: rune, j: nat)
    requires 1 <= j < |EncodeRune(r)|
    ensures IsPart(EncodeRune(r)[..j])
  {
    EncodedRuneShape(r);
  }

  /** On any bytes: unless their end decodes as an error of length one, they end with the encoding of a rune. */
  lemma DecodedEndIsARune(s: seq<byte>) returns (x: seq<byte>, r: rune)
    requires s != [] && DecodeLastRune(s) != (RUNE_ERROR, 1)
    ensures s == x + EncodeRune(r) && DecodeLastRune(s) == (r, |EncodeRune(r)|)
  {
    var end := |s|;
    if s[end - 1] < 0x80 {
      r := s[end - 1];
      x := s[..end - 1];
    } else {
      var lim := Max0(end - 4);
      var start := Max0(if end == 1 then -1 else ScanBack(s, end - 2, lim));
      assert StartsWithRune(s[start..]);
      r := AcceptedIsARune(s[start..]);
      x := s[..start];
      assert s == x + s[start..];
    }
  }
}
