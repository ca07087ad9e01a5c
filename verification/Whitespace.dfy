/** White space as Go's unicode.IsSpace has it, and splitting around it as strings.Fields does. */
module Whitespace {
  predicate IsSpaceCode(c: int)
  {
    || 0x09 <= c <= 0x0D || c == 0x20 || c == 0x85 || c == 0xA0 || c == 0x1680
    || 0x2000 <= c <= 0x200A || c == 0x2028 || c == 0x2029 || c == 0x202F || c == 0x205F || c == 0x3000
  }

  predicate IsSpace(c: char)
  {
    IsSpaceCode(c as int)
  }

  function Word(w: string): seq<string>
  {
    if w == [] then [] else [w]
  }

  /** The words of s, the first of them continuing a word already begun. */
  function FieldsFrom(s: string, begun: string): seq<string>
    decreases |s|
  {
    if s == [] then Word(begun)
    else if IsSpace(s[0]) then Word(begun) + FieldsFrom(s[1..], [])
    else FieldsFrom(s[1..], begun + [s[0]])
  }

  function Fields(s: string): seq<string>
  {
    FieldsFrom(s, [])
  }

  /** A word: not empty and without white space. */
  predicate IsWord(w: string)
  {
    w != [] && forall i :: 0 <= i < |w| ==> !IsSpace(w[i])
  }

  lemma {:induction false} FieldsAreWords(s: string, begun: string)
    requires forall i :: 0 <= i < |begun| ==> !IsSpace(begun[i])
    ensures forall k :: 0 <= k < |FieldsFrom(s, begun)| ==> IsWord(FieldsFrom(s, begun)[k])
    decreases |s|
  {
    if s != [] {
      if IsSpace(s[0]) {
        FieldsAreWords(s[1..], []);
      } else {
        FieldsAreWords(s[1..], begun + [s[0]]);
      }
    }
  }

  lemma {:induction false} SplitAtSpace(a: string, begun: string, sp: char, b: string)
    requires IsSpace(sp)
    ensures FieldsFrom(a + [sp] + b, begun) == FieldsFrom(a, begun) + Fields(b)
    decreases |a|
  {
    var s := a + [sp] + b;
    if a == [] {
      assert s[1..] == b;
    } else {
      assert s[1..] == a[1..] + [sp] + b;
      if IsSpace(a[0]) {
        SplitAtSpace(a[1..], [], sp, b);
        assert Word(begun) + (FieldsFrom(a[1..], []) + Fields(b)) == Word(begun) + FieldsFrom(a[1..], []) + Fields(b);
      } else {
        SplitAtSpace(a[1..], begun + [a[0]], sp, b);
      }
    }
  }

  lemma {:induction false} WordIsItsField(w: string, begun: string)
    requires forall i :: 0 <= i < |w| ==> !IsSpace(w[i])
    ensures FieldsFrom(w, begun) == Word(begun + w)
    decreases |w|
  {
    if w == [] {
      assert begun + w == begun;
    } else {
      WordIsItsField(w[1..], begun + [w[0]]);
      assert begun + [w[0]] + w[1..] == begun + w;
    }
  }

  /** x is one of the words of a text: a stretch without white space that has white space or an end on both sides. */
  ghost predicate IsWordOf(x: string, text: string)
  {
    IsWord(x) && exists before, after :: Between(before, x, after, text)
  }

  ghost predicate Between(before: string, x: string, after: string, text: string)
  {
    && text == before + x + after
    && (before != [] ==> IsSpace(before[|before| - 1]))
    && (after != [] ==> IsSpace(after[0]))
  }

  lemma FieldStands(begun: string, sp: char, x: string, rest: string)
    requires IsSpace(sp) && (exists before, after :: Between(before, x, after, rest))
    ensures exists before, after :: Between(before, x, after, begun + [sp] + rest)
  {
    var before, after :| Between(before, x, after, rest);
    assert Between(begun + [sp] + before, x, after, begun + [sp] + rest);
  }

  lemma {:induction false} FieldsAreWordsOf(s: string, begun: string, x: string)
    requires x in FieldsFrom(s, begun)
    ensures exists before, after :: Between(before, x, after, begun + s)
    decreases |s|
  {
    if s == [] {
      assert Between([], x, [], begun + s);
    } else if !IsSpace(s[0]) {
      assert begun + [s[0]] + s[1..] == begun + s;
      FieldsAreWordsOf(s[1..], begun + [s[0]], x);
    } else if x in Word(begun) {
      assert Between([], x, s, begun + s);
    } else {
      FieldsAreWordsOf(s[1..], [], x);
      assert [] + s[1..] == s[1..];
      FieldStands(begun, s[0], x, s[1..]);
      assert begun + [s[0]] + s[1..] == begun + s;
    }
  }

  lemma WordOfIsField(before: string, x: string, after: string, text: string)
    requires IsWord(x) && Between(before, x, after, text)
    ensures x in Fields(text)
  {
    WordIsItsField(x, []);
    assert [] + x == x;
    var tail := x + after;
    assert x in Fields(tail) by {
      if after == [] {
        assert tail == x;
      } else {
        assert tail == x + [after[0]] + after[1..];
        SplitAtSpace(x, [], after[0], after[1..]);
      }
    }
    if before == [] {
      assert text == tail;
    } else {
      var n := |before| - 1;
      assert text == before[..n] + [before[n]] + tail;
      SplitAtSpace(before[..n], [], before[n], tail);
    }
  }

  /** Splitting finds exactly the words of a text, whatever white space stands between them. */
  lemma FieldsAreExactlyTheWords(text: string, x: string)
    ensures x in Fields(text) <==> IsWordOf(x, text)
  {
    if x in Fields(text) {
      FieldsAreWordsOf(text, [], x);
      assert [] + text == text;
      FieldsAreWords(text, []);
    }
    if IsWordOf(x, text) {
      var before, after :| Between(before, x, after, text);
      WordOfIsField(before, x, after, text);
    }
  }

  function Join(words: seq<string>): string
  {
    if words == [] then [] else if |words| == 1 then words[0] else words[0] + [' '] + Join(words[1..])
  }

  /** Splitting undoes joining words with spaces. */
  lemma {:induction false} FieldsOfJoin(words: seq<string>)
    requires forall k :: 0 <= k < |words| ==> IsWord(words[k])
    ensures Fields(Join(words)) == words
  {
    if words != [] {
      WordIsItsField(words[0], []);
      assert [] + words[0] == words[0];
      if |words| > 1 {
        FieldsOfJoin(words[1..]);
        SplitAtSpace(words[0], [], ' ', Join(words[1..]));
        assert words == [words[0]] + words[1..];
      }
    }
  }
}
