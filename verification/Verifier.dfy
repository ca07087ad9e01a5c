/**
  The life of the key cache's background refresher (identity/verifier.go): created by the first lookup
  that needs it, under a lock taken after a lock-free-looking check, and stopped by Close for good.
 */
module Verifier {
  import opened Outcomes
  import opened RefreshLimiter

  datatype Error = Closed | RegisterFailed

  /**
    The verifier's fields, and what happened to refreshers: live ones run, every one started is
    numbered, every cancelled one counted.
   */
  datatype Fields = Fields(
    cache: Option<nat>,
    cancel: Option<nat>,
    closed: bool,
    started: nat,
    cancelled: nat,
    live: set<nat>)

  datatype Seen = Cached(id: nat) | Missing | Refused

  /** The check under the read lock. */
  function CheckStep(v: Fields): Seen
  {
    if v.closed then Refused
    else match v.cache
         case Some(id) => Cached(id)
         case None => Missing
  }

  /** The part under the write lock: look again, then start a refresher and register the key address. */
  function CreateStep(v: Fields, registers: bool): (Fields, Result<nat, Error>)
  {
    if v.closed then (v, Err(Closed))
    else if v.cache.Some? then (v, Ok(v.cache.value))
    else
      var id := v.started;
      var running := v.(started := id + 1, live := v.live + {id});
      if registers then (running.(cache := Some(id), cancel := Some(id)), Ok(id))
      else (running.(cancelled := v.cancelled + 1, live := running.live - {id}), Err(RegisterFailed))
  }

  function CloseStep(v: Fields): Fields
  {
    var stopped := if v.cancel.None? then v
                   else v.(cancelled := v.cancelled + 1, live := v.live - {v.cancel.value}, cancel := None);
    stopped.(closed := true, cache := None)
  }

  const Unused := Fields(None, None, false, 0, 0, {})

  /** A cache has its refresher running and can cancel it; a closed verifier has none. */
  ghost predicate FieldsOk(v: Fields)
  {
    && v.cancel == v.cache
    && v.live == (if v.cache.Some? then {v.cache.value} else {})
    && v.started == v.cancelled + |v.live|
    && (v.closed ==> v.cache == None)
    && (v.cache.Some? ==> v.cache.value < v.started)
  }

  // ---------- the verifier object ----------

  class JWKSVerifier {
    var cache: Option<nat>
    var cancel: Option<nat>
    var closed: bool
    var lastForcedRefresh: int
    var started: nat
    var cancelled: nat
    var live: set<nat>

    ghost function Content(): Fields
      reads this
    {
      Fields(cache, cancel, closed, started, cancelled, live)
    }

    ghost predicate Valid()
      reads this
    {
      FieldsOk(Content())
    }

    constructor ()
      ensures Valid() && cache.None? && !closed && live == {} && started == 0
      ensures Content() == Unused && lastForcedRefresh == 0
    {
      cache, cancel, closed := None, None, false;
      lastForcedRefresh := 0;
      started, cancelled, live := 0, 0, {};
    }

    /** Whatever was live is cancelled, and the verifier is closed for good. */
    method Close()
      requires Valid()
      modifies this
      ensures Valid() && closed && cache.None? && live == {}
      ensures started == old(started) && cancelled == old(cancelled) + |old(live)|
      ensures Content() == CloseStep(old(Content())) && lastForcedRefresh == old(lastForcedRefresh)
    {
      closed := true;
      if cancel.Some? {
        live := live - {cancel.value};
        cancelled := cancelled + 1;
        cancel := None;
      }
      cache := None;
    }

    method CheckCache() returns (seen: Seen)
      ensures seen == if closed then Refused else if cache.Some? then Cached(cache.value) else Missing
      ensures seen == CheckStep(Content())
    {
      if closed {
        return Refused;
      }
      if cache.Some? {
        return Cached(cache.value);
      }
      return Missing;
    }

    method CreateCache(registers: bool) returns (r: Result<nat, Error>)
      requires Valid()
      modifies this
      ensures (Content(), r) == CreateStep(old(Content()), registers)
      ensures Valid() && closed == old(closed)
      ensures closed ==> r == Err(Closed) && Content() == old(Content())
      ensures !closed && old(cache).Some? ==> r == Ok(old(cache).value) && Content() == old(Content())
      ensures !closed && old(cache).None? ==>
                && started == old(started) + 1
                && if registers then r.Ok? && cache == Some(r.value) && live == {r.value} && cancelled == old(cancelled)
                   else r == Err(RegisterFailed) && cache.None? && live == {} && cancelled == old(cancelled) + 1
      ensures !closed && registers ==> r.Ok? && cache == Some(r.value) && r.value in live
      ensures lastForcedRefresh == old(lastForcedRefresh)
    {
      if closed {
        return Err(Closed);
      }
      if cache.None? {
        var id := started;
        started := started + 1;
        live := live + {id};
        if !registers {
          live := live - {id};
          cancelled := cancelled + 1;
          return Err(RegisterFailed);
        }
        cache := Some(id);
        cancel := Some(id);
      }
      return Ok(cache.value);
    }

    /** Check, then create if nothing was there; with nobody in between the check costs nothing. */
    method JwksCache(registers: bool) returns (r: Result<nat, Error>)
      requires Valid()
      modifies this
      ensures (Content(), r) == CreateStep(old(Content()), registers)
      ensures Valid() && closed == old(closed)
      ensures closed ==> r == Err(Closed) && Content() == old(Content())
      ensures !closed && old(cache).Some? ==> r == Ok(old(cache).value) && Content() == old(Content())
      ensures !closed && old(cache).None? ==>
                && started == old(started) + 1
                && if registers then r.Ok? && cache == Some(r.value) && live == {r.value} && cancelled == old(cancelled)
                   else r == Err(RegisterFailed) && cache.None? && live == {} && cancelled == old(cancelled) + 1
      ensures !closed && registers ==> r.Ok? && cache == Some(r.value) && r.value in live
      ensures lastForcedRefresh == old(lastForcedRefresh)
    {
      var seen := CheckCache();
      match seen
      case Refused => return Err(Closed);
      case Cached(id) => return Ok(id);
      case Missing => r := CreateCache(registers);
    }

    method AllowForcedRefresh(now: int) returns (allowed: bool)
      modifies this`lastForcedRefresh
      ensures (allowed, lastForcedRefresh) == Allow(old(lastForcedRefresh), now)
    {
      if lastForcedRefresh != 0 && now - lastForcedRefresh < FORCED_REFRESH_INTERVAL {
        return false;
      }
      lastForcedRefresh := now;
      return true;
    }

    /**
      The key lookup: a key the cached set lacks costs at most one forced refetch, and only one the
      limiter grants. fetched is what a refetch would bring.
     */
    method SigningKey(keys: set<string>, kid: string, now: int, fetched: Option<set<string>>)
      returns (found: bool, refetched: bool)
      modifies this`lastForcedRefresh
      ensures var lookups := [Lookup(kid in keys, now)];
              && refetched == (Refetches(old(lastForcedRefresh), lookups) != [])
              && lastForcedRefresh == Remembered(old(lastForcedRefresh), lookups)
      ensures found <==> kid in keys || (refetched && fetched.Some? && kid in fetched.value)
    {
      if kid in keys {
        return true, false;
      }
      refetched := AllowForcedRefresh(now);
      found := refetched && fetched.Some? && kid in fetched.value;
    }
  }

  // ---------- many lookups and closes, interleaved ----------

  datatype Caller = Idle | Creating | Got(id: nat) | Failed(error: Error)

  datatype World = World(v: Fields, callers: map<nat, Caller>, served: seq<nat>)

  /** A lookup's two critical sections, and Close; any caller may start over at any time. */
  datatype Event = Check(i: nat) | Create(i: nat, registers: bool) | CloseIt

  function CallerOf(w: World, i: nat): Caller
  {
    if i in w.callers then w.callers[i] else Idle
  }

  function Step(w: World, ev: Event): World
  {
    match ev
    case Check(i) =>
      (match CheckStep(w.v)
       case Refused => w.(callers := w.callers[i := Failed(Closed)])
       case Cached(id) => w.(callers := w.callers[i := Got(id)], served := w.served + [id])
       case Missing => w.(callers := w.callers[i := Creating]))
    case Create(i, registers) =>
      if !CallerOf(w, i).Creating? then w else
      (match CreateStep(w.v, registers)
       case (v, Ok(id)) => World(v, w.callers[i := Got(id)], w.served + [id])
       case (v, Err(e)) => World(v, w.callers[i := Failed(e)], w.served))
    case CloseIt => w.(v := CloseStep(w.v))
  }

  function Run(w: World, evs: seq<Event>): World
  {
    if evs == [] then w else Step(Run(w, evs[..|evs| - 1]), evs[|evs| - 1])
  }

  ghost predicate Inv(w: World)
  {
    var v := w.v;
    && FieldsOk(v)
    && (w.served != [] && !v.closed ==> v.cache.Some?)
    && (forall k :: 0 <= k < |w.served| ==> w.served[k] == w.served[0])
    && (v.cache.Some? && w.served != [] ==> w.served[0] == v.cache.value)
  }

  lemma StepKeepsInv(w: World, ev: Event)
    requires Inv(w)
    ensures Inv(Step(w, ev))
  {
  }

  lemma {:induction false} InvHolds(evs: seq<Event>)
    ensures Inv(Run(Fresh(), evs))
  {
    if evs != [] {
      InvHolds(evs[..|evs| - 1]);
      StepKeepsInv(Run(Fresh(), evs[..|evs| - 1]), evs[|evs| - 1]);
    }
  }

  /**
    However lookups and closes interleave: every refresher started is cancelled or live, at most one is
    live, and all lookups that succeed get the same one.
   */
  lemma AtMostOneRefresherLives(evs: seq<Event>)
    ensures var w := Run(Fresh(), evs);
            && w.v.started == w.v.cancelled + |w.v.live|
            && |w.v.live| <= 1
            && (w.v.closed ==> w.v.live == {})
            && forall j, k :: 0 <= j < |w.served| && 0 <= k < |w.served| ==> w.served[j] == w.served[k]
  {
    InvHolds(evs);
  }

  lemma {:induction false} ClosedStaysClosed(w: World, evs: seq<Event>)
    requires Inv(w) && w.v.closed
    ensures Run(w, evs).v.closed && Inv(Run(w, evs))
    ensures Run(w, evs).v.started == w.v.started && Run(w, evs).served == w.served
  {
    if evs != [] {
      ClosedStaysClosed(w, evs[..|evs| - 1]);
      StepKeepsInv(Run(w, evs[..|evs| - 1]), evs[|evs| - 1]);
    }
  }

  /** After Close no refresher is live, none is ever started, and no lookup is served, even one past its first check. */
  lemma NothingStartsAfterClose(before: seq<Event>, after: seq<Event>)
    ensures var w := Step(Run(Fresh(), before), CloseIt);
            var w' := Run(w, after);
            w'.v.live == {} && w'.v.started == w.v.started && w'.served == w.served
  {
    InvHolds(before);
    var w0 := Run(Fresh(), before);
    StepKeepsInv(w0, CloseIt);
    ClosedStaysClosed(Step(w0, CloseIt), after);
  }

  // ---------- lookups are served ----------

  function Fresh(): World
  {
    World(Unused, map[], [])
  }

  /** The two halves of a lookup, with nobody in between. */
  function Lookup(w: World, i: nat, registers: bool): World
  {
    Step(Step(w, Check(i)), Create(i, registers))
  }

  /**
    In every reachable world that is not closed a lookup whose registration succeeds is served: with the
    refresher that is live, or with a new one that is then live if there was none.
   */
  lemma LookupIsServed(evs: seq<Event>, i: nat)
    requires !Run(Fresh(), evs).v.closed
    ensures var w, w' := Run(Fresh(), evs), Lookup(Run(Fresh(), evs), i, true);
            && CallerOf(w', i).Got? && var id := CallerOf(w', i).id;
            && id in w'.v.live && w'.v.cache == Some(id) && !w'.v.closed
            && w'.served == w.served + [id]
            && w'.v.started == w.v.started + (if w.v.cache.None? then 1 else 0)
            && w'.v.cancelled == w.v.cancelled
            && (w.v.cache.Some? ==> id == w.v.cache.value)
  {
    InvHolds(evs);
  }

  /**
    A failed registration is reported and leaves nothing behind: its refresher is cancelled, nobody is
    served, and the next lookup can still succeed.
   */
  lemma FailedRegistrationLeavesNothing(evs: seq<Event>, i: nat, j: nat)
    requires !Run(Fresh(), evs).v.closed && Run(Fresh(), evs).v.cache.None?
    ensures var w, w' := Run(Fresh(), evs), Lookup(Run(Fresh(), evs), i, false);
            var later := Lookup(w', j, true);
            && CallerOf(w', i) == Failed(RegisterFailed)
            && w'.v.cache.None? && w'.v.live == {} && !w'.v.closed && w'.served == w.served
            && w'.v.started == w.v.started + 1 && w'.v.cancelled == w.v.cancelled + 1
            && CallerOf(later, j).Got? && CallerOf(later, j).id in later.v.live
  {
    InvHolds(evs);
  }

  /** Once closed, every lookup is refused, whichever of its halves comes after the close. */
  lemma ClosedLookupIsRefused(evs: seq<Event>, i: nat, registers: bool)
    requires Run(Fresh(), evs).v.closed
    ensures var w := Run(Fresh(), evs);
            && CallerOf(Lookup(w, i, registers), i) == Failed(Closed)
            && (CallerOf(w, i).Creating? ==> CallerOf(Step(w, Create(i, registers)), i) == Failed(Closed))
            && Lookup(w, i, registers).v == w.v
  {
    InvHolds(evs);
  }
}
