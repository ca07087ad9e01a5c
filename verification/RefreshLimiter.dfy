/**
  The rate limit on forced key refetches (identity/verifier.go). Times are in nanoseconds; zero is the
  zero time, "never".
 */
module RefreshLimiter {
  const FORCED_REFRESH_INTERVAL := 30_000_000_000

  /** Whether a refetch may run now, and the time remembered afterwards. */
  function Allow(last: int, now: int): (bool, int)
  {
    if last != 0 && now - last < FORCED_REFRESH_INTERVAL then (false, last) else (true, now)
  }

  /** A lookup of a signing key: the cached set may hold the key, and the time is read under the lock. */
  datatype Lookup = Lookup(known: bool, now: int)

  /** The times at which a sequence of lookups starts forced refetches, from a given last one on. */
  function Refetches(last: int, lookups: seq<Lookup>): seq<int>
    decreases |lookups|
  {
    if lookups == [] then [] else
    var (granted, last') := if lookups[0].known then (false, last) else Allow(last, lookups[0].now);
    (if granted then [lookups[0].now] else []) + Refetches(last', lookups[1..])
  }

  ghost predicate NonZero(lookups: seq<Lookup>)
  {
    forall k :: 0 <= k < |lookups| ==> lookups[k].now != 0
  }

  ghost predicate Spaced(times: seq<int>)
  {
    forall k :: 0 < k < |times| ==> times[k - 1] + FORCED_REFRESH_INTERVAL <= times[k]
  }

  /** Refetches are at least an interval apart from each other and from the last one, whatever the clock does. */
  lemma {:induction false} RefetchesAreSpaced(last: int, lookups: seq<Lookup>)
    requires NonZero(lookups)
    ensures Spaced(Refetches(last, lookups))
    ensures last != 0 && Refetches(last, lookups) != [] ==>
              last + FORCED_REFRESH_INTERVAL <= Refetches(last, lookups)[0]
    decreases |lookups|
  {
    if lookups != [] {
      var last' := if lookups[0].known then last else Allow(last, lookups[0].now).1;
      RefetchesAreSpaced(last', lookups[1..]);
    }
  }

  /** How many of the times fall in the closed window from a to b. */
  function CountIn(times: seq<int>, a: int, b: int): nat
  {
    if times == [] then 0
    else CountIn(times[..|times| - 1], a, b) + if a <= times[|times| - 1] <= b then 1 else 0
  }

  lemma {:induction false} SpacedTimesFillTheWindow(times: seq<int>, a: int, b: int)
    requires Spaced(times) && CountIn(times, a, b) > 0
    ensures (CountIn(times, a, b) - 1) * FORCED_REFRESH_INTERVAL <= b - a
    ensures (CountIn(times, a, b) - 1) * FORCED_REFRESH_INTERVAL <= times[|times| - 1] - a
  {
    var front := times[..|times| - 1];
    if CountIn(front, a, b) > 0 {
      SpacedTimesFillTheWindow(front, a, b);
      assert front[|front| - 1] == times[|times| - 2];
    }
  }

  /** In any closed window of length T at most T / 30s + 1 forced refetches start, over all callers together. */
  lemma RefetchesAreRateLimited(last: int, lookups: seq<Lookup>, from: int, length: nat)
    requires NonZero(lookups)
    ensures CountIn(Refetches(last, lookups), from, from + length) <= length / 30_000_000_000 + 1
  {
    RefetchesAreSpaced(last, lookups);
    var times := Refetches(last, lookups);
    var c := CountIn(times, from, from + length);
    if c > 0 {
      SpacedTimesFillTheWindow(times, from, from + length);
      assert (c - 1) * FORCED_REFRESH_INTERVAL <= length;
    }
  }

  /** The time remembered after a sequence of lookups. */
  function Remembered(last: int, lookups: seq<Lookup>): int
    decreases |lookups|
  {
    if lookups == [] then last
    else Remembered(if lookups[0].known then last else Allow(last, lookups[0].now).1, lookups[1..])
  }

  lemma {:induction false} RefetchesAppend(last: int, lookups: seq<Lookup>, l: Lookup)
    ensures Refetches(last, lookups + [l]) == Refetches(last, lookups) +
              if !l.known && Allow(Remembered(last, lookups), l.now).0 then [l.now] else []
    ensures var times := Refetches(last, lookups);
            Remembered(last, lookups) == if times == [] then last else times[|times| - 1]
    decreases |lookups|
  {
    if lookups == [] {
      assert lookups + [l] == [l];
    } else {
      assert (lookups + [l])[1..] == lookups[1..] + [l];
      RefetchesAppend(if lookups[0].known then last else Allow(last, lookups[0].now).1, lookups[1..], l);
    }
  }

  /** The limiter refuses an unknown key only within 30s of a refetch that did run. */
  lemma RefusedOnlyAfterRecentRefetch(lookups: seq<Lookup>, l: Lookup)
    requires NonZero(lookups) && !l.known
    ensures var times := Refetches(0, lookups);
            Refetches(0, lookups + [l]) == times <==>
              times != [] && l.now - times[|times| - 1] < 30_000_000_000
  {
    RefetchesAppend(0, lookups, l);
    RefetchTimesNonZero(0, lookups);
  }

  lemma {:induction false} RefetchTimesNonZero(last: int, lookups: seq<Lookup>)
    requires NonZero(lookups)
    ensures 0 !in Refetches(last, lookups)
    decreases |lookups|
  {
    if lookups != [] {
      RefetchTimesNonZero(if lookups[0].known then last else Allow(last, lookups[0].now).1, lookups[1..]);
    }
  }
}
