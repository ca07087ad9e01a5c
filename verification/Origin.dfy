/**
  Which outbound requests may carry the caller's token (identity/http.go): those that still address
  the origin the redirect chain started from.
 */
module Origin {
  import opened Outcomes

  const HTTP := "http"
  const HTTPS := "https"
  const MAX_REDIRECT_CHAIN_WALK := 64
  const USER_TOKEN_HEADER := "X-Diagrid-User-Token"
  const BEARER_PREFIX := "Bearer "

  /** A URL as far as origins go: scheme, host name and the port if it is spelled out. */
  datatype Url = Url(scheme: string, host: string, port: string)

  // ---------- origins ----------

  /** A choice of one representative for all the cases of a character, as Unicode simple folding gives. */
  type Folding = char -> char

  function Folded(fold: Folding, s: string): string
  {
    seq(|s|, i requires 0 <= i < |s| => fold(s[i]))
  }

  /** Equality of host names without regard to case. */
  predicate EqualFold(fold: Folding, a: string, b: string)
  {
    Folded(fold, a) == Folded(fold, b)
  }

  function OriginPort(u: Url): string
  {
    if u.port != "" then u.port else if u.scheme == HTTPS then "443" else "80"
  }

  predicate SameIdentityOrigin(fold: Folding, original: Url, target: Url)
  {
    if !EqualFold(fold, original.host, target.host) then false
    else if original.scheme == target.scheme && OriginPort(original) == OriginPort(target) then true
    else
      && original.scheme == HTTP && OriginPort(original) == "80"
      && target.scheme == HTTPS && OriginPort(target) == "443"
  }

  /** The port a URL addresses: the one spelled out, else 443 for https and 80 for anything else. */
  ghost predicate Addresses(u: Url, port: string)
  {
    || (u.port != "" && port == u.port)
    || (u.port == "" && u.scheme == "https" && port == "443")
    || (u.port == "" && u.scheme != "https" && port == "80")
  }

  /** Two URLs on the same host, up to case. */
  ghost predicate SameHost(fold: Folding, a: string, b: string)
  {
    |a| == |b| && forall i :: 0 <= i < |a| ==> fold(a[i]) == fold(b[i])
  }

  /** A token may go from one URL to another on the same host, scheme and port, or on the one upgrade. */
  lemma OriginRelatesIff(fold: Folding, a: Url, b: Url)
    ensures SameIdentityOrigin(fold, a, b) <==>
              && SameHost(fold, a.host, b.host)
              && exists p, q :: Addresses(a, p) && Addresses(b, q) &&
                   ((a.scheme == b.scheme && p == q)
                    || (a.scheme == "http" && p == "80" && b.scheme == "https" && q == "443"))
  {
    assert Addresses(a, OriginPort(a)) && Addresses(b, OriginPort(b));
    if SameHost(fold, a.host, b.host) {
      assert Folded(fold, a.host) == Folded(fold, b.host);
    }
    if EqualFold(fold, a.host, b.host) {
      forall i | 0 <= i < |a.host| ensures fold(a.host[i]) == fold(b.host[i]) {
        assert Folded(fold, a.host)[i] == Folded(fold, b.host)[i];
      }
      assert |Folded(fold, a.host)| == |Folded(fold, b.host)|;
    }
  }

  /** Ports that are spelled out and differ keep origins apart, but for the upgrade from 80 to 443. */
  lemma DifferentPortsDiffer(fold: Folding, a: Url, b: Url)
    requires a.port != "" && b.port != "" && a.port != b.port && SameIdentityOrigin(fold, a, b)
    ensures a.scheme == "http" && a.port == "80" && b.scheme == "https" && b.port == "443"
  {
    OriginRelatesIff(fold, a, b);
  }

  /** A token may go along in a preorder on origins. */
  lemma OriginsArePreordered(fold: Folding, a: Url, b: Url, c: Url)
    ensures SameIdentityOrigin(fold, a, a)
    ensures SameIdentityOrigin(fold, a, b) && SameIdentityOrigin(fold, b, c) ==> SameIdentityOrigin(fold, a, c)
  {
    if SameIdentityOrigin(fold, a, b) && SameIdentityOrigin(fold, b, c) {
      assert Folded(fold, a.host) == Folded(fold, c.host);
    }
  }

  /** Its only one-way pairs are the upgrades from http on port 80 to https on port 443 of one host. */
  lemma OneWayPairsAreUpgrades(fold: Folding, a: Url, b: Url)
    ensures SameIdentityOrigin(fold, a, b) && !SameIdentityOrigin(fold, b, a) <==>
              && EqualFold(fold, a.host, b.host)
              && a.scheme == HTTP && OriginPort(a) == "80" && b.scheme == HTTPS && OriginPort(b) == "443"
    ensures SameIdentityOrigin(fold, a, b) && SameIdentityOrigin(fold, b, a) <==>
              EqualFold(fold, a.host, b.host) && a.scheme == b.scheme && OriginPort(a) == OriginPort(b)
  {
    assert |HTTP| != |HTTPS|;
  }

  // ---------- redirect chains ----------

  /** Why a request was made: by the application, or by the redirect that answered an earlier request, if known. */
  datatype Cause = First | Redirected(answered: Option<nat>)

  datatype Request = Request(url: Option<Url>, cause: Cause)

  /** All requests by number; chains may be broken, endless or cyclic. */
  type Requests = nat -> Request

  /** The request k redirects before request id. */
  function Hop(reqs: Requests, id: nat, k: nat): Option<nat>
    decreases k
  {
    if k == 0 then Some(id)
    else match reqs(id).cause
         case Redirected(Some(earlier)) => Hop(reqs, earlier, k - 1)
         case _ => None
  }

  /** Request f started the chain that led to request id in exactly k redirects. */
  predicate StartsChain(reqs: Requests, id: nat, k: nat, f: nat)
  {
    Hop(reqs, id, k) == Some(f) && reqs(f).cause.First?
  }

  function Walk(reqs: Requests, id: nat, steps: nat): Option<Url>
    decreases steps
  {
    if steps == 0 then None
    else match reqs(id).cause
         case First => reqs(id).url
         case Redirected(None) => None
         case Redirected(Some(earlier)) => Walk(reqs, earlier, steps - 1)
  }

  lemma {:induction false} WalkFindsTheStart(reqs: Requests, id: nat, steps: nat, u: Url)
    ensures Walk(reqs, id, steps) == Some(u) <==>
              exists k: nat, f: nat :: k < steps && StartsChain(reqs, id, k, f) && reqs(f).url == Some(u)
    decreases steps
  {
    if steps != 0 {
      match reqs(id).cause
      case First =>
        assert StartsChain(reqs, id, 0, id);
      case Redirected(None) =>
      case Redirected(Some(earlier)) =>
        WalkFindsTheStart(reqs, earlier, steps - 1, u);
        if Walk(reqs, id, steps) == Some(u) {
          var k: nat, f: nat :| k < steps - 1 && StartsChain(reqs, earlier, k, f) && reqs(f).url == Some(u);
          assert StartsChain(reqs, id, k + 1, f);
        }
        if k: nat, f: nat :| k < steps && StartsChain(reqs, id, k, f) && reqs(f).url == Some(u) {
          assert StartsChain(reqs, earlier, k - 1, f);
        }
    }
  }

  lemma {:induction false} HopsAdd(reqs: Requests, id: nat, a: nat, b: nat)
    requires Hop(reqs, id, a).Some?
    ensures Hop(reqs, id, a + b) == Hop(reqs, Hop(reqs, id, a).value, b)
    decreases a
  {
    if a != 0 {
      HopsAdd(reqs, reqs(id).cause.answered.value, a - 1, b);
    }
  }

  lemma {:induction false} EarlierHopsExist(reqs: Requests, id: nat, j: nat, k: nat)
    requires j <= k && Hop(reqs, id, k).Some?
    ensures Hop(reqs, id, j).Some?
    decreases j
  {
    if j != 0 {
      EarlierHopsExist(reqs, reqs(id).cause.answered.value, j - 1, k - 1);
    }
  }

  lemma {:induction false} CyclesNeverEnd(reqs: Requests, id: nat, j: nat, k: nat, n: nat)
    requires j < k && Hop(reqs, id, j).Some? && Hop(reqs, id, k) == Hop(reqs, id, j)
    ensures Hop(reqs, id, n).Some?
    decreases n
  {
    if n <= k {
      EarlierHopsExist(reqs, id, n, k);
    } else {
      HopsAdd(reqs, id, k, n - k);
      HopsAdd(reqs, id, j, n - k);
      CyclesNeverEnd(reqs, id, j, k, n - (k - j));
    }
  }

  /** A chain that comes back to itself has no start, so the walk finds nothing. */
  lemma CyclicChainsAreRefused(reqs: Requests, id: nat, j: nat, k: nat, steps: nat)
    requires j < k && Hop(reqs, id, j).Some? && Hop(reqs, id, k) == Hop(reqs, id, j)
    ensures Walk(reqs, id, steps) == None
  {
    if Walk(reqs, id, steps).Some? {
      var u := Walk(reqs, id, steps).value;
      WalkFindsTheStart(reqs, id, steps, u);
      var n: nat, f: nat :| n < steps && StartsChain(reqs, id, n, f) && reqs(f).url == Some(u);
      HopsAdd(reqs, id, n, 1);
      CyclesNeverEnd(reqs, id, j, k, n + 1);
    }
  }

  method OriginalRequestUrl(reqs: Requests, id: nat) returns (original: Option<Url>)
    ensures original == Walk(reqs, id, MAX_REDIRECT_CHAIN_WALK)
  {
    var hop := id;
    for i := 0 to MAX_REDIRECT_CHAIN_WALK
      invariant Walk(reqs, hop, MAX_REDIRECT_CHAIN_WALK - i) == Walk(reqs, id, MAX_REDIRECT_CHAIN_WALK)
    {
      match reqs(hop).cause
      case First => return reqs(hop).url;
      case Redirected(None) => return None;
      case Redirected(Some(earlier)) => hop := earlier;
    }
    return None;
  }

  // ---------- sending ----------

  type Header = map<string, seq<string>>

  ghost predicate MayCarryToken(fold: Folding, reqs: Requests, id: nat)
  {
    exists k: nat, f: nat ::
      && k <= 63 && StartsChain(reqs, id, k, f)
      && reqs(f).url.Some? && reqs(id).url.Some?
      && SameIdentityOrigin(fold, reqs(f).url.value, reqs(id).url.value)
  }

  lemma MayCarryIffWalkAgrees(fold: Folding, reqs: Requests, id: nat)
    ensures MayCarryToken(fold, reqs, id) <==>
              var original := Walk(reqs, id, MAX_REDIRECT_CHAIN_WALK);
              && original.Some? && reqs(id).url.Some?
              && SameIdentityOrigin(fold, original.value, reqs(id).url.value)
  {
    var original := Walk(reqs, id, MAX_REDIRECT_CHAIN_WALK);
    if original.Some? {
      WalkFindsTheStart(reqs, id, MAX_REDIRECT_CHAIN_WALK, original.value);
    }
    if MayCarryToken(fold, reqs, id) {
      var k: nat, f: nat :| k < MAX_REDIRECT_CHAIN_WALK && StartsChain(reqs, id, k, f)
        && reqs(f).url.Some? && reqs(id).url.Some?
        && SameIdentityOrigin(fold, reqs(f).url.value, reqs(id).url.value);
      WalkFindsTheStart(reqs, id, MAX_REDIRECT_CHAIN_WALK, reqs(f).url.value);
    }
  }

  /**
    The header that goes out with a request: the token header is first cleared, whoever set it, and
    then set from the context's token exactly if the chain's first request had the same origin. The
    origin of a request without a URL is only looked at once the chain's start is found.
   */
  method RoundTrip(fold: Folding, reqs: Requests, id: nat, header: Header, token: string) returns (sent: Header)
    requires reqs(id).url.None? ==> Walk(reqs, id, MAX_REDIRECT_CHAIN_WALK).None?
    ensures sent - {USER_TOKEN_HEADER} == header - {USER_TOKEN_HEADER}
    ensures USER_TOKEN_HEADER in sent <==> token != "" && MayCarryToken(fold, reqs, id)
    ensures USER_TOKEN_HEADER in sent ==> sent[USER_TOKEN_HEADER] == [BEARER_PREFIX + token]
  {
    MayCarryIffWalkAgrees(fold, reqs, id);
    sent := header - {USER_TOKEN_HEADER};
    var original := OriginalRequestUrl(reqs, id);
    if original.Some? && SameIdentityOrigin(fold, original.value, reqs(id).url.value) && token != "" {
      sent := sent[USER_TOKEN_HEADER := [BEARER_PREFIX + token]];
    }
  }
}
