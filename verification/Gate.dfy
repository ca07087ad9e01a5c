/**
  The build-once gate in front of the identity middleware (identity/middleware.go): requests share one
  verifier, built under a lock by the first request that finds none.
 */
module Gate {
  import opened Outcomes

  class OauthGate {
    var verifier: Option<nat>

    constructor ()
      ensures verifier == None
    {
      verifier := None;
    }

    /** Without interleaving: a stored verifier is served, a successful build is stored, a failed one is not. */
    method GetVerifier(build: Result<nat, string>) returns (r: Result<nat, string>)
      modifies this
      ensures verifier == if old(verifier).None? && build.Ok? then Some(build.value) else old(verifier)
      ensures r == if old(verifier).Some? then Ok(old(verifier).value) else build
    {
      if verifier.Some? {
        return Ok(verifier.value);
      }
      if build.Err? {
        return build;
      }
      verifier := Some(build.value);
      return build;
    }
  }

  // ---------- interleaved requests ----------

  /** Outside, waiting for the lock, inside it, building inside it, or about to leave it. */
  datatype Request = Outside | Waiting | Inside | Building | Leaving

  datatype World = World(
    verifier: Option<nat>,
    lock: Option<nat>,
    requests: map<nat, Request>,
    builds: nat,
    stores: nat,
    served: seq<nat>)

  /** The atomic steps of a request; the pointer is also read without the lock. */
  datatype Event = Load(i: nat) | Lock(i: nat) | Reload(i: nat) | Build(i: nat, succeeds: bool) | Unlock(i: nat)

  const Empty := World(None, None, map[], 0, 0, [])

  function RequestOf(w: World, i: nat): Request
  {
    if i in w.requests then w.requests[i] else Outside
  }

  function Goto(w: World, i: nat, r: Request): World
  {
    w.(requests := w.requests[i := r])
  }

  function Serve(w: World): World
    requires w.verifier.Some?
  {
    w.(served := w.served + [w.verifier.value])
  }

  function Step(w: World, ev: Event): World
  {
    var r := RequestOf(w, ev.i);
    match ev
    case Load(i) =>
      if !r.Outside? then w else if w.verifier.Some? then Serve(w) else Goto(w, i, Waiting)
    case Lock(i) =>
      if !r.Waiting? || w.lock.Some? then w else Goto(w, i, Inside).(lock := Some(i))
    case Reload(i) =>
      if !r.Inside? then w else if w.verifier.Some? then Goto(Serve(w), i, Leaving) else Goto(w, i, Building)
    case Build(i, succeeds) =>
      if !r.Building? then w
      else
        var tried := Goto(w, i, Leaving).(builds := w.builds + 1);
        if succeeds then Serve(tried.(verifier := Some(w.builds), stores := w.stores + 1)) else tried
    case Unlock(i) =>
      if !r.Leaving? then w else Goto(w, i, Outside).(lock := None)
  }

  function Run(w: World, evs: seq<Event>): World
  {
    if evs == [] then w else Step(Run(w, evs[..|evs| - 1]), evs[|evs| - 1])
  }

  predicate Critical(r: Request)
  {
    r.Inside? || r.Building? || r.Leaving?
  }

  ghost predicate Inv(w: World)
  {
    && (forall i: nat :: Critical(RequestOf(w, i)) ==> w.lock == Some(i))
    && (forall i: nat :: RequestOf(w, i).Building? ==> w.verifier == None)
    && w.stores == (if w.verifier.Some? then 1 else 0)
    && (forall k :: 0 <= k < |w.served| ==> w.verifier == Some(w.served[k]))
  }

  lemma StepKeepsInv(w: World, ev: Event)
    requires Inv(w)
    ensures Inv(Step(w, ev))
    ensures w.verifier.Some? ==> Step(w, ev).verifier == w.verifier
  {
    assert Critical(RequestOf(w, ev.i)) ==> w.lock == Some(ev.i);
    var w' := Step(w, ev);
    forall i: nat
      ensures Critical(RequestOf(w', i)) ==> w'.lock == Some(i)
      ensures RequestOf(w', i).Building? ==> w'.verifier == None
    {
      assert Critical(RequestOf(w, i)) ==> w.lock == Some(i);
    }
  }

  /** From any reachable world on: at most one verifier is ever stored, and every request served gets it. */
  lemma {:induction false} OneVerifierForAll(before: seq<Event>, after: seq<Event>)
    ensures var w := Run(Empty, before);
            var w' := Run(w, after);
            && Inv(w') && w'.stores <= 1
            && (w.verifier.Some? ==> w'.verifier == w.verifier)
            && (forall k :: 0 <= k < |w'.served| ==> w'.verifier == Some(w'.served[k]))
    decreases |before| + |after|
  {
    if after != [] {
      OneVerifierForAll(before, after[..|after| - 1]);
      StepKeepsInv(Run(Run(Empty, before), after[..|after| - 1]), after[|after| - 1]);
    } else if before != [] {
      OneVerifierForAll(before[..|before| - 1], []);
      StepKeepsInv(Run(Empty, before[..|before| - 1]), before[|before| - 1]);
    }
  }

  /** A failed build stores nothing and serves nobody, and gives the lock up for the next request to try again. */
  lemma FailedBuildLeavesNoTrace(w: World, i: nat)
    requires Inv(w) && RequestOf(w, i).Building?
    ensures var w' := Run(w, [Build(i, false), Unlock(i)]);
            && w'.verifier == None && w'.served == w.served && w'.stores == w.stores
            && w'.lock == None && RequestOf(w', i).Outside?
  {
    var evs := [Build(i, false), Unlock(i)];
    assert evs[..1] == [Build(i, false)] && evs[..1][..0] == [];
    assert Run(w, evs[..1]) == Step(w, Build(i, false));
  }

  /** The four steps of a request that finds nothing stored and meets nobody. */
  lemma SoloBuild(w: World, i: nat, succeeds: bool)
    requires RequestOf(w, i).Outside? && w.lock.None? && w.verifier.None?
    ensures var w1 := Step(Step(Step(w, Load(i)), Lock(i)), Reload(i));
            var w2 := Step(Step(w1, Build(i, succeeds)), Unlock(i));
            && w2.verifier == (if succeeds then Some(w.builds) else None)
            && w2.served == w.served + (if succeeds then [w.builds] else [])
            && w2.lock.None? && RequestOf(w2, i).Outside?
  {
  }

  /** With nobody in between, the steps of a request do what GetVerifier does. */
  lemma SoloRequestIsGetVerifier(w: World, i: nat, succeeds: bool)
    requires RequestOf(w, i).Outside? && w.lock.None?
    ensures var build: Result<nat, string> := if succeeds then Ok(w.builds) else Err("");
            var w' := Step(Step(Step(Step(Step(w, Load(i)), Lock(i)), Reload(i)), Build(i, succeeds)), Unlock(i));
            && w'.verifier == (if w.verifier.None? && build.Ok? then Some(build.value) else w.verifier)
            && w'.served == w.served + (if w'.verifier.Some? then [w'.verifier.value] else [])
            && w'.lock.None? && RequestOf(w', i).Outside?
  {
    if w.verifier.None? {
      SoloBuild(w, i, succeeds);
    } else {
      assert Step(w, Load(i)) == Serve(w);
    }
  }
}
