/**
  Reading the scopes off a token (identity/middleware.go): issuers write them as a list or as one
  string, under one of three claim names; the result is their set in one canonical form.
 */
module Scopes {
  import opened Outcomes
  import opened Ordering
  import opened Whitespace

  const SCOPE_CLAIMS := ["scp", "scope", "scopes"]

  /** A claim value: a string slice, a mixed list (None stands for a non-string), one string, or anything else. */
  datatype Claim = Texts(texts: array<string>) | Mixed(items: seq<Option<string>>) | Text(text: string) | Other

  type Claims = map<string, Claim>

  function OnlyStrings(items: seq<Option<string>>): seq<string>
  {
    if items == [] then [] else
    OnlyStrings(items[..|items| - 1]) +
      match items[|items| - 1] { case Some(s) => [s] case None => [] }
  }

  /** The scopes a claim gives, in token order. */
  function Given(c: Claim): seq<string>
    reads if c.Texts? then {c.texts} else {}
  {
    match c
    case Texts(texts) => texts[..]
    case Mixed(items) => OnlyStrings(items)
    case Text(text) => Fields(text)
    case Other => []
  }

  function GivenUnder(claims: Claims, name: string): seq<string>
    reads set c | c in claims.Values && c.Texts? :: c.texts
  {
    if name in claims then Given(claims[name]) else []
  }

  /** The first claim name that gives any scope decides. */
  function Chosen(claims: Claims): seq<string>
    reads set c | c in claims.Values && c.Texts? :: c.texts
  {
    if GivenUnder(claims, "scp") != [] then GivenUnder(claims, "scp")
    else if GivenUnder(claims, "scope") != [] then GivenUnder(claims, "scope")
    else GivenUnder(claims, "scopes")
  }

  /** The canonical form of a collection of scopes: its members, each once, ascending. */
  ghost predicate Canonical(r: seq<string>, xs: seq<string>)
  {
    StrictlySorted(r) && forall x :: x in r <==> x in xs
  }

  /** Equal sets have equal canonical forms, whatever the order and the repeats. */
  lemma CanonicalFormsAreUnique(r: seq<string>, xs: seq<string>, r': seq<string>, xs': seq<string>)
    requires Canonical(r, xs) && Canonical(r', xs')
    requires forall x :: x in xs <==> x in xs'
    ensures r == r'
  {
    forall x ensures multiset(r)[x] == multiset(r')[x] {
      assert x in r <==> x in r';
      OccursOnce(r, x);
      OccursOnce(r', x);
    }
    assert multiset(r) == multiset(r');
    SortedIsUnique(r, r');
  }

  lemma {:induction false} OccursOnce(r: seq<string>, x: string)
    requires forall i, j :: 0 <= i < j < |r| ==> r[i] != r[j]
    ensures multiset(r)[x] == if x in r then 1 else 0
  {
    if r != [] {
      OccursOnce(r[1..], x);
      assert r == [r[0]] + r[1..];
    }
  }

  /** Distinct members in ordinal order; the caller's slice is only read. */
  method SortedUnique(scopes: array<string>) returns (unique: seq<string>)
    ensures Canonical(unique, scopes[..])
  {
    var seen: set<string> := {};
    unique := [];
    for i := 0 to scopes.Length
      invariant forall x :: x in seen <==> x in scopes[..i]
      invariant forall x :: x in unique <==> x in seen
      invariant forall j, k :: 0 <= j < k < |unique| ==> unique[j] != unique[k]
    {
      assert scopes[..i + 1] == scopes[..i] + [scopes[i]];
      if scopes[i] !in seen {
        seen := seen + {scopes[i]};
        unique := unique + [scopes[i]];
      }
    }
    assert scopes[..scopes.Length] == scopes[..];
    SortKeepsDistinct(unique);
    unique := Sort(unique);
  }

  lemma SortKeepsDistinct(xs: seq<string>)
    requires forall j, k :: 0 <= j < k < |xs| ==> xs[j] != xs[k]
    ensures Canonical(Sort(xs), xs)
  {
    SortSorts(xs);
    var r := Sort(xs);
    forall x ensures x in r <==> x in xs {
      assert x in r <==> x in multiset(r);
      assert x in xs <==> x in multiset(xs);
    }
    forall j, k | 0 <= j < k < |r| ensures r[j] != r[k] {
      if r[j] == r[k] {
        OccursOnce(xs, r[j]);
        OccursTwice(r, j, k);
      }
    }
  }

  lemma OccursTwice(r: seq<string>, j: nat, k: nat)
    requires j < k < |r| && r[j] == r[k]
    ensures multiset(r)[r[j]] >= 2
  {
    assert r == r[..k] + r[k..];
    assert r[j] in r[..k] && r[k] in r[k..] by {
      assert r[..k][j] == r[j] && r[k..][0] == r[k];
    }
  }

  method Strings(items: seq<Option<string>>) returns (scopes: seq<string>)
    ensures scopes == OnlyStrings(items)
  {
    scopes := [];
    for i := 0 to |items|
      invariant scopes == OnlyStrings(items[..i])
    {
      assert items[..i + 1][..i] == items[..i];
      if items[i].Some? {
        scopes := scopes + [items[i].value];
      }
    }
    assert items[..|items|] == items;
  }

  /** A claim of any form gives a scope. */
  ghost predicate Gives(c: Claim, x: string)
    reads if c.Texts? then {c.texts} else {}
  {
    match c
    case Texts(texts) => x in texts[..]
    case Mixed(items) => Some(x) in items
    case Text(text) => IsWordOf(x, text)
    case Other => false
  }

  ghost predicate ClaimGives(claims: Claims, name: string, x: string)
    reads set c | c in claims.Values && c.Texts? :: c.texts
  {
    name in claims && Gives(claims[name], x)
  }

  ghost predicate GivesNone(claims: Claims, name: string)
    reads set c | c in claims.Values && c.Texts? :: c.texts
  {
    forall x :: !ClaimGives(claims, name, x)
  }

  lemma {:induction false} OnlyStringsAreTheStrings(items: seq<Option<string>>, x: string)
    ensures x in OnlyStrings(items) <==> Some(x) in items
  {
    if items != [] {
      OnlyStringsAreTheStrings(items[..|items| - 1], x);
      assert items == items[..|items| - 1] + [items[|items| - 1]];
    }
  }

  lemma GivenIsWhatItGives(c: Claim, x: string)
    ensures x in Given(c) <==> Gives(c, x)
  {
    match c
    case Texts(_) =>
    case Mixed(items) => OnlyStringsAreTheStrings(items, x);
    case Text(text) => FieldsAreExactlyTheWords(text, x);
    case Other =>
  }

  lemma NoneGivenIsEmpty(claims: Claims, name: string)
    ensures GivenUnder(claims, name) == [] <==> GivesNone(claims, name)
  {
    forall x ensures x in GivenUnder(claims, name) <==> ClaimGives(claims, name, x) {
      if name in claims { GivenIsWhatItGives(claims[name], x); }
    }
    var given := GivenUnder(claims, name);
    if given != [] {
      assert given[0] in given;
    }
  }

  /** The chosen scopes, by claim form and precedence: scp, then scope, then scopes. */
  lemma ChosenByPrecedence(claims: Claims, x: string)
    ensures x in Chosen(claims) <==>
              || ClaimGives(claims, "scp", x)
              || (GivesNone(claims, "scp") && ClaimGives(claims, "scope", x))
              || (GivesNone(claims, "scp") && GivesNone(claims, "scope") && ClaimGives(claims, "scopes", x))
  {
    NoneGivenIsEmpty(claims, "scp");
    NoneGivenIsEmpty(claims, "scope");
    if "scp" in claims { GivenIsWhatItGives(claims["scp"], x); }
    if "scope" in claims { GivenIsWhatItGives(claims["scope"], x); }
    if "scopes" in claims { GivenIsWhatItGives(claims["scopes"], x); }
  }

  /** Tries the claim names in precedence order and returns the canonical form of the first that gives any scope. */
  method ExtractScopes(claims: Claims) returns (scopes: seq<string>)
    ensures Canonical(scopes, Chosen(claims))
  {
    for i := 0 to |SCOPE_CLAIMS|
      invariant forall j :: 0 <= j < i ==> GivenUnder(claims, SCOPE_CLAIMS[j]) == []
    {
      var name := SCOPE_CLAIMS[i];
      var slice := new string[0];
      ghost var given := GivenUnder(claims, name);
      if name in claims {
        match claims[name]
        case Texts(texts) =>
          assert texts == claims[name].texts;
          slice := texts;
        case Mixed(items) =>
          var strings := Strings(items);
          slice := new string[|strings|](k requires 0 <= k < |strings| => strings[k]);
          assert slice[..] == strings;
        case Text(text) =>
          var words := Fields(text);
          slice := new string[|words|](k requires 0 <= k < |words| => words[k]);
          assert slice[..] == words;
        case Other =>
      }
      assert slice[..] == given;
      if slice.Length > 0 {
        scopes := SortedUnique(slice);
        assert given == Chosen(claims) by {
          assert SCOPE_CLAIMS[0] == "scp" && SCOPE_CLAIMS[1] == "scope" && SCOPE_CLAIMS[2] == "scopes";
        }
        return;
      }
    }
    assert Chosen(claims) == [] by {
      assert SCOPE_CLAIMS[0] == "scp" && SCOPE_CLAIMS[1] == "scope" && SCOPE_CLAIMS[2] == "scopes";
    }
    scopes := [];
  }

  /** Whether some required scope is not held. */
  method MissingScopes(required: seq<string>, granted: seq<string>) returns (missing: bool)
    ensures missing <==> !((set s | s in required) <= (set s | s in granted))
  {
    var held: set<string> := {};
    for i := 0 to |granted|
      invariant held == set s | s in granted[..i]
    {
      assert granted[..i + 1] == granted[..i] + [granted[i]];
      held := held + {granted[i]};
    }
    assert granted[..|granted|] == granted;
    for i := 0 to |required|
      invariant forall s :: s in required[..i] ==> s in held
    {
      assert required[..i + 1] == required[..i] + [required[i]];
      if required[i] !in held {
        return true;
      }
    }
    assert required[..|required|] == required;
    return false;
  }

  /** Two tokens whose chosen claims hold the same set give the same scopes, whatever the claims' form. */
  lemma EqualSetsEqualScopes(a: Claims, b: Claims, r: seq<string>, r': seq<string>)
    requires Canonical(r, Chosen(a)) && Canonical(r', Chosen(b))
    requires forall x :: x in Chosen(a) <==> x in Chosen(b)
    ensures r == r'
  {
    CanonicalFormsAreUnique(r, Chosen(a), r', Chosen(b));
  }

  lemma OneClaimIsChosen(name: string, c: Claim)
    requires name in SCOPE_CLAIMS
    ensures Chosen(map[name := c]) == Given(c)
  {
    assert SCOPE_CLAIMS[0] == "scp" && SCOPE_CLAIMS[1] == "scope" && SCOPE_CLAIMS[2] == "scopes";
    assert "scp" != "scope" && "scope" != "scopes" && "scp" != "scopes";
  }

  /**
    A list under one claim name and a text under another give the same scopes exactly if the list holds
    the words of the text, in any order, with any repeats and with any white space between the words.
   */
  lemma ListAndStringAgree(n: string, list: Claim, m: string, text: string, r: seq<string>, r': seq<string>)
    requires n in SCOPE_CLAIMS && m in SCOPE_CLAIMS
    requires Canonical(r, Chosen(map[n := list])) && Canonical(r', Chosen(map[m := Text(text)]))
    ensures r == r' <==> forall x :: x in Given(list) <==> IsWordOf(x, text)
  {
    OneClaimIsChosen(n, list);
    OneClaimIsChosen(m, Text(text));
    forall x ensures x in Given(Text(text)) <==> IsWordOf(x, text) {
      FieldsAreExactlyTheWords(text, x);
    }
    if forall x :: x in Given(list) <==> IsWordOf(x, text) {
      EqualSetsEqualScopes(map[n := list], map[m := Text(text)], r, r');
    }
  }
}
