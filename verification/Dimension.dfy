/**
  Cleaning a usage dimension (analytics.go): trim white space, then cap at 64 bytes without cutting a
  rune in two.
 */
module Dimension {
  import opened Utf8
  import opened Whitespace

  const DIMENSION_MAX_LEN := 64

  // ---------- trimming ----------

  function TrimLeft(s: seq<byte>): seq<byte>
    decreases |s|
  {
    var (r, size) := DecodeRune(s);
    if s != [] && IsSpaceCode(r) && 1 <= size <= |s| then TrimLeft(s[size..]) else s
  }

  function TrimRight(s: seq<byte>): seq<byte>
    decreases |s|
  {
    var (r, size) := DecodeLastRune(s);
    if s != [] && IsSpaceCode(r) && 1 <= size <= |s| then TrimRight(s[..|s| - size]) else s
  }

  function TrimSpace(s: seq<byte>): seq<byte>
  {
    TrimRight(TrimLeft(s))
  }

  /** Trimming on runes: what white space at the ends means. */
  function TrimRunesLeft(rs: seq<rune>): seq<rune>
  {
    if rs != [] && IsSpaceCode(rs[0]) then TrimRunesLeft(rs[1..]) else rs
  }

  function TrimRunesRight(rs: seq<rune>): seq<rune>
  {
    if rs != [] && IsSpaceCode(rs[|rs| - 1]) then TrimRunesRight(rs[..|rs| - 1]) else rs
  }

  function TrimRunes(rs: seq<rune>): seq<rune>
  {
    TrimRunesRight(TrimRunesLeft(rs))
  }

  ghost predicate AllSpace(rs: seq<rune>)
  {
    forall i :: 0 <= i < |rs| ==> IsSpaceCode(rs[i])
  }

  lemma {:induction false} TrimLeftDropsSpace(rs: seq<rune>) returns (i: nat)
    ensures i <= |rs| && TrimRunesLeft(rs) == rs[i..] && AllSpace(rs[..i]) && (i < |rs| ==> !IsSpaceCode(rs[i]))
  {
    i := 0;
    if rs != [] && IsSpaceCode(rs[0]) {
      var j := TrimLeftDropsSpace(rs[1..]);
      i := j + 1;
      assert rs[..i] == [rs[0]] + rs[1..][..j];
    }
  }

  lemma {:induction false} TrimRightDropsSpace(rs: seq<rune>) returns (j: nat)
    ensures j <= |rs| && TrimRunesRight(rs) == rs[..j] && AllSpace(rs[j..]) && (j > 0 ==> !IsSpaceCode(rs[j - 1]))
  {
    j := |rs|;
    if rs != [] && IsSpaceCode(rs[|rs| - 1]) {
      j := TrimRightDropsSpace(rs[..|rs| - 1]);
      assert rs[j..] == rs[..|rs| - 1][j..] + [rs[|rs| - 1]];
    }
  }

  /** Trimming drops white space at both ends, all of it and nothing else. */
  lemma TrimmingDropsWhiteSpace(rs: seq<rune>) returns (i: nat, j: nat)
    ensures i <= j <= |rs| && TrimRunes(rs) == rs[i..j] && AllSpace(rs[..i]) && AllSpace(rs[j..])
    ensures i < j ==> !IsSpaceCode(rs[i]) && !IsSpaceCode(rs[j - 1])
  {
    i := TrimLeftDropsSpace(rs);
    var n := TrimRightDropsSpace(rs[i..]);
    j := i + n;
    assert rs[i..][..n] == rs[i..j] && rs[i..][n..] == rs[j..];
  }

  lemma {:induction false} TrimLeftOfEncoded(rs: seq<rune>)
    ensures TrimLeft(Encode(rs)) == Encode(TrimRunesLeft(rs))
  {
    if rs != [] {
      var e := EncodeRune(rs[0]);
      assert rs == [rs[0]] + rs[1..];
      EncodeConcat([rs[0]], rs[1..]);
      EncodeOne(rs[0]);
      DecodeFirst(rs[0], Encode(rs[1..]));
      EncodedRuneShape(rs[0]);
      assert Encode(rs)[|e|..] == Encode(rs[1..]);
      if IsSpaceCode(rs[0]) {
        TrimLeftOfEncoded(rs[1..]);
      }
    }
  }

  lemma {:induction false} TrimRightOfEncoded(rs: seq<rune>)
    ensures TrimRight(Encode(rs)) == Encode(TrimRunesRight(rs))
  {
    if rs != [] {
      var front, last := rs[..|rs| - 1], rs[|rs| - 1];
      EncodeLast(rs);
      DecodeLast(Encode(front), last);
      EncodedRuneShape(last);
      assert Encode(rs)[..|Encode(rs)| - |EncodeRune(last)|] == Encode(front);
      if IsSpaceCode(last) {
        TrimRightOfEncoded(front);
      }
    }
  }

  // ---------- cutting ----------

  /** Drops trailing bytes until the end decodes as a rune. */
  function Shrink(b: seq<byte>): seq<byte>
  {
    if b != [] && DecodeLastRune(b) == (RUNE_ERROR, 1) then Shrink(b[..|b| - 1]) else b
  }

  function Cleaned(value: seq<byte>): seq<byte>
  {
    var v := TrimSpace(value);
    if |v| <= DIMENSION_MAX_LEN then v else Shrink(v[..DIMENSION_MAX_LEN])
  }

  method CleanDimension(value: seq<byte>) returns (b: seq<byte>)
    ensures b == Cleaned(value)
  {
    var v := TrimSpace(value);
    if |v| <= DIMENSION_MAX_LEN {
      return v;
    }
    b := v[..DIMENSION_MAX_LEN];
    while |b| > 0
      invariant Shrink(b) == Shrink(v[..DIMENSION_MAX_LEN])
      decreases |b|
    {
      var (r, size) := DecodeLastRune(b);
      if r != RUNE_ERROR || size != 1 {
        break;
      }
      b := b[..|b| - 1];
    }
  }

  /** The replacement character itself is three bytes long, so a whole rune never looks like an error. */
  lemma WholeRunesStay(rs: seq<rune>)
    ensures Shrink(Encode(rs)) == Encode(rs)
  {
    if rs == [] {
      assert Encode(rs) == [];
    } else {
      EncodeLast(rs);
      DecodeLast(Encode(rs[..|rs| - 1]), rs[|rs| - 1]);
      EncodedRuneShape(rs[|rs| - 1]);
    }
  }

  /** A cut-off rune is dropped byte by byte. */
  lemma {:induction false} PartIsDropped(x: seq<byte>, part: seq<byte>)
    requires part == [] || IsPart(part)
    ensures Shrink(x + part) == Shrink(x)
    decreases |part|
  {
    if part == [] {
      assert x + part == x;
    } else {
      DecodeLastOfPart(x, part);
      assert (x + part)[..|x + part| - 1] == x + part[..|part| - 1];
      PartIsDropped(x, part[..|part| - 1]);
    }
  }

  lemma ShrinkDropsThePart(rs: seq<rune>, r: rune, j: nat)
    requires j < |EncodeRune(r)|
    ensures Shrink(Encode(rs) + EncodeRune(r)[..j]) == Encode(rs)
  {
    if j > 0 {
      PrefixOfRuneIsPart(r, j);
    }
    PartIsDropped(Encode(rs), EncodeRune(r)[..j]);
    WholeRunesStay(rs);
  }

  /** How many leading runes fit into a number of bytes. */
  function FitCount(rs: seq<rune>, limit: nat): (n: nat)
    ensures n <= |rs|
  {
    if |Encode(rs)| <= limit then |rs| else FitCount(rs[..|rs| - 1], limit)
  }

  lemma {:induction false} EncodeGrows(rs: seq<rune>, m: nat)
    requires m <= |rs|
    ensures |Encode(rs[..m])| <= |Encode(rs)|
    ensures m < |rs| ==> |Encode(rs[..m])| < |Encode(rs)|
  {
    assert rs == rs[..m] + rs[m..];
    EncodeConcat(rs[..m], rs[m..]);
    if m < |rs| {
      EncodedRuneShape(rs[|rs| - 1]);
      EncodeLast(rs[m..]);
      assert rs[m..][|rs[m..]| - 1] == rs[|rs| - 1];
    }
  }

  /** FitCount is the largest number of leading runes that fit. */
  lemma {:induction false} FitCountIsLargest(rs: seq<rune>, limit: nat, m: nat)
    requires m <= |rs|
    ensures FitCount(rs, limit) <= |rs| && |Encode(rs[..FitCount(rs, limit)])| <= limit
    ensures |Encode(rs[..m])| <= limit <==> m <= FitCount(rs, limit)
    decreases |rs|
  {
    assert rs[..|rs|] == rs;
    if |Encode(rs)| <= limit {
      EncodeGrows(rs, m);
    } else {
      var front := rs[..|rs| - 1];
      var k := if m < |rs| then m else 0;
      FitCountIsLargest(front, limit, k);
      assert front[..k] == rs[..k];
      assert front[..FitCount(front, limit)] == rs[..FitCount(front, limit)];
    }
  }

  lemma EncodeNext(rs: seq<rune>, k: nat)
    requires k < |rs|
    ensures Encode(rs[..k + 1]) == Encode(rs[..k]) + EncodeRune(rs[k])
    ensures Encode(rs[..k + 1]) <= Encode(rs)
  {
    assert rs[..k + 1][..k] == rs[..k];
    EncodeLast(rs[..k + 1]);
    assert rs == rs[..k + 1] + rs[k + 1..];
    EncodeConcat(rs[..k + 1], rs[k + 1..]);
  }

  /** The first rune that does not fit. */
  lemma NextRuneOverflows(rs: seq<rune>, limit: nat)
    requires |Encode(rs)| > limit
    ensures var k := FitCount(rs, limit);
            k < |rs| && |Encode(rs[..k])| <= limit < |Encode(rs[..k + 1])|
  {
    var k := FitCount(rs, limit);
    assert rs[..|rs|] == rs;
    FitCountIsLargest(rs, limit, |rs|);
    FitCountIsLargest(rs, limit, k + 1);
  }

  /** The first bytes of an encoding are its fitting runes and a proper part of the next one. */
  lemma CutIsRunesAndAPart(rs: seq<rune>, limit: nat)
    requires |Encode(rs)| > limit
    ensures var k := FitCount(rs, limit);
            && k < |rs|
            && var j := limit - |Encode(rs[..k])|;
               0 <= j < |EncodeRune(rs[k])| && Encode(rs)[..limit] == Encode(rs[..k]) + EncodeRune(rs[k])[..j]
  {
    NextRuneOverflows(rs, limit);
    EncodeNext(rs, FitCount(rs, limit));
  }

  /**
    On valid UTF-8 the result is the longest prefix of the trimmed value that fits into 64 bytes and
    ends between two runes; if anything was cut off, at least 61 bytes remain.
   */
  lemma CleanedIsLongestWholeRunePrefix(rs: seq<rune>)
    ensures var t := TrimRunes(rs);
            var k := FitCount(t, DIMENSION_MAX_LEN);
            && k <= |t|
            && Cleaned(Encode(rs)) == Encode(t[..k])
            && |Cleaned(Encode(rs))| <= 64
            && (forall m :: 0 <= m <= |t| ==> (|Encode(t[..m])| <= 64 <==> m <= k))
            && (k < |t| ==> |Cleaned(Encode(rs))| >= 61)
  {
    TrimLeftOfEncoded(rs);
    TrimRightOfEncoded(TrimRunesLeft(rs));
    var t := TrimRunes(rs);
    var k := FitCount(t, DIMENSION_MAX_LEN);
    forall m | 0 <= m <= |t| ensures |Encode(t[..m])| <= DIMENSION_MAX_LEN <==> m <= k {
      FitCountIsLargest(t, DIMENSION_MAX_LEN, m);
    }
    FitCountIsLargest(t, DIMENSION_MAX_LEN, 0);
    assert t[..|t|] == t;
    if |Encode(t)| > DIMENSION_MAX_LEN {
      CutIsRunesAndAPart(t, DIMENSION_MAX_LEN);
      ShrinkDropsThePart(t[..k], t[k], DIMENSION_MAX_LEN - |Encode(t[..k])|);
      EncodedRuneShape(t[k]);
    }
  }

  lemma {:induction false} TrimmedLeftStartsWithNoSpace(rs: seq<rune>)
    ensures var t := TrimRunesLeft(rs); t == [] || !IsSpaceCode(t[0])
  {
    if rs != [] {
      TrimmedLeftStartsWithNoSpace(rs[1..]);
    }
  }

  lemma {:induction false} TrimRightIsPrefix(rs: seq<rune>)
    ensures TrimRunesRight(rs) <= rs
  {
    if rs != [] && IsSpaceCode(rs[|rs| - 1]) {
      TrimRightIsPrefix(rs[..|rs| - 1]);
    }
  }

  lemma TrimmedEndsWithNoSpace(rs: seq<rune>)
    ensures var t := TrimRunesRight(rs); t == [] || !IsSpaceCode(t[|t| - 1])
  {
  }

  /** A short value that starts with no white space is left alone exactly if it does not end in any. */
  lemma CleaningShort(kept: seq<rune>)
    requires |Encode(kept)| <= DIMENSION_MAX_LEN && (kept == [] || !IsSpaceCode(kept[0]))
    ensures Cleaned(Encode(kept)) == Encode(kept) <==> kept == [] || !IsSpaceCode(kept[|kept| - 1])
  {
    var again := TrimRunesRight(kept);
    assert TrimRunesLeft(kept) == kept;
    TrimLeftOfEncoded(kept);
    TrimRightOfEncoded(kept);
    TrimRightIsPrefix(kept);
    assert again == kept[..|again|];
    EncodeGrows(kept, |again|);
    assert Cleaned(Encode(kept)) == Encode(again);
    if kept != [] && IsSpaceCode(kept[|kept| - 1]) {
      TrimRightIsPrefix(kept[..|kept| - 1]);
    }
  }

  /** Cleaning what was kept trims its end: it changes exactly if it ends in white space. */
  lemma CleaningKept(rs: seq<rune>)
    ensures var once := Cleaned(Encode(rs));
            var kept := TrimRunes(rs)[..FitCount(TrimRunes(rs), DIMENSION_MAX_LEN)];
            Cleaned(once) == once <==> kept == [] || !IsSpaceCode(kept[|kept| - 1])
  {
    CleanedIsLongestWholeRunePrefix(rs);
    var t := TrimRunes(rs);
    var kept := t[..FitCount(t, DIMENSION_MAX_LEN)];
    TrimmedLeftStartsWithNoSpace(rs);
    TrimRightIsPrefix(TrimRunesLeft(rs));
    CleaningShort(kept);
  }

  /** If not everything fits, something does: a rune has at most four bytes. */
  lemma SomethingFits(t: seq<rune>)
    requires |Encode(t)| > DIMENSION_MAX_LEN
    ensures 0 < FitCount(t, DIMENSION_MAX_LEN) < |t|
  {
    CutIsRunesAndAPart(t, DIMENSION_MAX_LEN);
    var k := FitCount(t, DIMENSION_MAX_LEN);
    EncodedRuneShape(t[k]);
    assert t[..0] == [] && Encode([]) == [];
  }

  /**
    Cleaning again changes nothing exactly if the trimmed value already fits into 64 bytes, or the last
    of its runes that fits is not white space.
   */
  lemma CleaningTwice(rs: seq<rune>)
    ensures var once, t := Cleaned(Encode(rs)), TrimRunes(rs);
            var k := FitCount(t, DIMENSION_MAX_LEN);
            && (|Encode(t)| > DIMENSION_MAX_LEN ==> 0 < k <= |t|)
            && (Cleaned(once) == once <==> |Encode(t)| <= DIMENSION_MAX_LEN || !IsSpaceCode(t[k - 1]))
  {
    CleaningKept(rs);
    var t := TrimRunes(rs);
    var k := FitCount(t, DIMENSION_MAX_LEN);
    if |Encode(t)| <= DIMENSION_MAX_LEN {
      assert t[..|t|] == t;
      TrimmedEndsWithNoSpace(TrimRunesLeft(rs));
    } else {
      SomethingFits(t);
      assert t[..k][k - 1] == t[k - 1];
    }
  }

  function Letters(n: nat): seq<rune>
  {
    seq(n, _ => 0x61)
  }

  lemma {:induction false} LettersEncoded(n: nat)
    ensures |Encode(Letters(n))| == n
  {
    if n == 0 {
      assert Letters(0) == [] && Encode([]) == [];
    } else {
      LettersEncoded(n - 1);
      EncodeLast(Letters(n));
      assert Letters(n)[..n - 1] == Letters(n - 1);
    }
  }

  lemma Trimmed(rs: seq<rune>)
    requires rs != [] && !IsSpaceCode(rs[0]) && !IsSpaceCode(rs[|rs| - 1])
    ensures TrimRunes(rs) == rs
  {
  }

  /** It does change something: 63 letters, a space and a letter lose the letter first and then the space. */
  lemma SecondCleaningCuts()
    ensures var once := Cleaned(Encode(Letters(63) + [0x20] + [0x61]));
            once == Encode(Letters(63) + [0x20]) && Cleaned(once) != once
  {
    var kept, rs := Letters(63) + [0x20], Letters(63) + [0x20] + [0x61];
    Trimmed(rs);
    LettersEncoded(63);
    EncodeLast(kept);
    EncodeLast(rs);
    assert kept[..63] == Letters(63) && rs[..64] == kept && rs[..65] == rs;
    FitCountIsLargest(rs, DIMENSION_MAX_LEN, 64);
    FitCountIsLargest(rs, DIMENSION_MAX_LEN, 65);
    CleanedIsLongestWholeRunePrefix(rs);
    CleaningTwice(rs);
  }

  /**
    On any bytes at all the result is a prefix of the trimmed value of at most 64 bytes: all of it if it
    fits, and otherwise the longest one that is empty or ends with a whole rune.
   */
  lemma CleanedIsBoundedPrefix(value: seq<byte>)
    ensures var v, c := TrimSpace(value), Cleaned(value);
            && c <= v && |c| <= 64 && (|v| <= 64 ==> c == v)
            && (|v| > 64 ==> (c == [] || EndsWithRune(c)) && forall n :: |c| < n <= 64 ==> !EndsWithRune(v[..n]))
  {
    var v := TrimSpace(value);
    if |v| > DIMENSION_MAX_LEN {
      var b := v[..DIMENSION_MAX_LEN];
      ShrinkIsPrefix(b);
      ShrinkIsLongest(b);
      forall n | |Shrink(b)| < n <= 64 ensures !EndsWithRune(v[..n]) {
        assert v[..n] == b[..n];
      }
    }
  }

  ghost predicate EndsWithRune(s: seq<byte>)
  {
    exists x, r :: EndsIn(s, x, r)
  }

  ghost predicate EndsIn(s: seq<byte>, x: seq<byte>, r: rune)
  {
    s == x + EncodeRune(r)
  }

  /** The end of some bytes decodes exactly if they end with a whole rune. */
  lemma DecodableEnd(s: seq<byte>)
    requires s != []
    ensures EndsWithRune(s) <==> DecodeLastRune(s) != (RUNE_ERROR, 1)
  {
    if EndsWithRune(s) {
      var x, r :| EndsIn(s, x, r);
      DecodeLast(x, r);
      EncodedRuneShape(r);
    }
    if DecodeLastRune(s) != (RUNE_ERROR, 1) {
      var x, r := DecodedEndIsARune(s);
      assert EndsIn(s, x, r);
    }
  }

  /** Shrinking stops at the longest prefix that is empty or ends with a whole rune. */
  lemma {:induction false} ShrinkIsLongest(b: seq<byte>)
    ensures Shrink(b) <= b && (Shrink(b) == [] || EndsWithRune(Shrink(b)))
    ensures forall n :: |Shrink(b)| < n <= |b| ==> !EndsWithRune(b[..n])
  {
    if b != [] {
      DecodableEnd(b);
      assert b[..|b|] == b;
      if DecodeLastRune(b) == (RUNE_ERROR, 1) {
        var front := b[..|b| - 1];
        ShrinkIsLongest(front);
        forall n | |Shrink(b)| < n <= |b| ensures !EndsWithRune(b[..n]) {
          if n < |b| { assert b[..n] == front[..n]; }
        }
      }
    }
  }

  lemma {:induction false} ShrinkIsPrefix(b: seq<byte>)
    ensures Shrink(b) <= b
  {
    if b != [] && DecodeLastRune(b) == (RUNE_ERROR, 1) {
      ShrinkIsPrefix(b[..|b| - 1]);
    }
  }
}
