/**
  The retry loop of the registry object is the client of the step machine: under the same behaviour of
  the other clients both leave the same store and end the same way.
 */
module RegistryRefinement {
  import opened Outcomes
  import opened StateStore
  import opened Registry
  import opened RegistryProtocol

  /** What the other clients do before each of our store calls. */
  type Schedule = nat -> seq<Event>

  ghost predicate Foreign(sched: Schedule, i: nat)
  {
    forall k: nat, n :: 0 <= n < |sched(k)| ==> sched(k)[n].client != i
  }

  /** One attempt of client i in the machine: its load and, if it wants to write, its compare-and-set. */
  function DriveOnce(w: World, i: nat, sched: Schedule, attempt: nat): World
  {
    var a := CallStep(Run(w, sched(2 * attempt)), i);
    if PhaseOf(a, i).Storing? then CallStep(Run(a, sched(2 * attempt + 1)), i) else a
  }

  /** What an attempt of the numbered ones does to the world. */
  type Driver = (nat, World) -> World

  function DriverOf(i: nat, sched: Schedule): Driver
  {
    (attempt: nat, w) => DriveOnce(w, i, sched, attempt)
  }

  /** Client i's update from a given attempt on. */
  function DriveFrom(d: Driver, w: World, i: nat, attempt: nat): World
    decreases MAX_ETAG_ATTEMPTS + 1 - attempt
  {
    if attempt > MAX_ETAG_ATTEMPTS then w else
    var next := d(attempt, w);
    if PhaseOf(next, i).Loading? then DriveFrom(d, next, i, attempt + 1) else next
  }

  function Drive(w: World, i: nat, sched: Schedule, attempt: nat): World
  {
    DriveFrom(DriverOf(i, sched), w, i, attempt)
  }

  /** In one attempt, the interference function says what the schedule does to the store. */
  ghost predicate FollowsOnce(w: World, i: nat, sched: Schedule, others: Interference, attempt: nat)
  {
    && others(2 * attempt, w.store) == Run(w, sched(2 * attempt)).store
    && var a := CallStep(Run(w, sched(2 * attempt)), i);
       PhaseOf(a, i).Storing? ==> others(2 * attempt + 1, a.store) == Run(a, sched(2 * attempt + 1)).store
  }

  /** What is to hold in each attempt of a client's update. */
  type Condition = (nat, World) -> bool

  ghost function FollowerOf(i: nat, sched: Schedule, others: Interference): Condition
  {
    (attempt: nat, w) => FollowsOnce(w, i, sched, others, attempt)
  }

  ghost predicate AllAlong(d: Driver, good: Condition, w: World, i: nat, attempt: nat)
    decreases MAX_ETAG_ATTEMPTS + 1 - attempt
  {
    attempt <= MAX_ETAG_ATTEMPTS ==>
      good(attempt, w) && (PhaseOf(d(attempt, w), i).Loading? ==> AllAlong(d, good, d(attempt, w), i, attempt + 1))
  }

  /** The interference function says what the schedule does, all along the update. */
  ghost predicate Follows(w: World, i: nat, sched: Schedule, others: Interference, attempt: nat)
  {
    AllAlong(DriverOf(i, sched), FollowerOf(i, sched, others), w, i, attempt)
  }

  function OutcomeOf(err: Option<Error>): Outcome
  {
    match err
    case None => Succeeded
    case Some(RetriesExhausted) => GaveUp
    case Some(_) => Failed
  }

  lemma {:induction false} ForeignEventsKeepPhase(w: World, evs: seq<Event>, i: nat)
    requires forall n :: 0 <= n < |evs| ==> evs[n].client != i
    ensures PhaseOf(Run(w, evs), i) == PhaseOf(w, i)
  {
    if evs != [] {
      var n := |evs| - 1;
      ForeignEventsKeepPhase(w, evs[..n], i);
      StepFrame(Run(w, evs[..n]), evs[n], i);
    }
  }

  /** An attempt of the loop and one of client i leave the same store, and both end or both go on. */
  ghost predicate InStep(tried: Tried, b: World, i: nat, op: Op, attempt: nat)
  {
    && b.store == tried.s
    && !PhaseOf(b, i).Idle? && PhaseOf(b, i).op == op
    && match tried
       case Over(_, err) => PhaseOf(b, i).Finished? && PhaseOf(b, i).outcome == OutcomeOf(err)
       case Refused(_) =>
         if attempt < MAX_ETAG_ATTEMPTS then PhaseOf(b, i).Loading? && PhaseOf(b, i).attempt == attempt + 1
         else PhaseOf(b, i).Finished? && PhaseOf(b, i).outcome == GaveUp
  }

  /** One attempt of the loop is one attempt of the client. */
  lemma AttemptIsDriveOnce(w: World, i: nat, sched: Schedule, others: Interference, attempt: nat)
    requires PhaseOf(w, i).Loading? && PhaseOf(w, i).attempt == attempt <= MAX_ETAG_ATTEMPTS
    requires Foreign(sched, i) && FollowsOnce(w, i, sched, others, attempt)
    ensures var op := PhaseOf(w, i).op;
            InStep(Attempt(w.store, IndexKey(op.team), MutationOf(op), others, attempt),
                   DriveOnce(w, i, sched, attempt), i, op, attempt)
  {
    var before := Run(w, sched(2 * attempt));
    ForeignEventsKeepPhase(w, sched(2 * attempt), i);
    var a := CallStep(before, i);
    if PhaseOf(a, i).Storing? {
      ForeignEventsKeepPhase(a, sched(2 * attempt + 1), i);
    }
  }

  /** Client i is about to load for an attempt of its operation. */
  predicate AtAttempt(w: World, i: nat, op: Op, attempt: nat)
  {
    PhaseOf(w, i).Loading? && PhaseOf(w, i).op == op && PhaseOf(w, i).attempt == attempt <= MAX_ETAG_ATTEMPTS
  }

  ghost predicate MatchesAt(
      d: Driver, tries: Attempts, good: Condition, i: nat, op: Op, attempt: nat, w: World)
  {
    AtAttempt(w, i, op, attempt) && good(attempt, w) ==> InStep(tries(attempt, w.store), d(attempt, w), i, op, attempt)
  }

  /** Wherever the condition holds, an attempt of the loop and one of the client are in step. */
  ghost predicate Matches(d: Driver, tries: Attempts, good: Condition, i: nat, op: Op)
  {
    forall attempt: nat, w :: MatchesAt(d, tries, good, i, op, attempt, w)
  }

  /** Loop and client in step attempt by attempt end in the same store and the same way. */
  lemma {:induction false} AttemptsInStep(
      d: Driver, tries: Attempts, good: Condition, w: World, i: nat, op: Op, attempt: nat)
    requires Matches(d, tries, good, i, op) && AtAttempt(w, i, op, attempt) && AllAlong(d, good, w, i, attempt)
    ensures var (store, err) := UpdateFrom(tries, w.store, attempt);
            var w' := DriveFrom(d, w, i, attempt);
            && w'.store == store
            && PhaseOf(w', i).Finished? && PhaseOf(w', i).op == op
            && PhaseOf(w', i).outcome == OutcomeOf(err)
    decreases MAX_ETAG_ATTEMPTS + 1 - attempt
  {
    assert MatchesAt(d, tries, good, i, op, attempt, w);
    if PhaseOf(d(attempt, w), i).Loading? {
      AttemptsInStep(d, tries, good, d(attempt, w), i, op, attempt + 1);
    }
  }

  lemma AttemptsMatch(i: nat, op: Op, sched: Schedule, others: Interference)
    requires Foreign(sched, i)
    ensures Matches(DriverOf(i, sched), AttemptsOn(IndexKey(op.team), MutationOf(op), others),
                    FollowerOf(i, sched, others), i, op)
  {
    var d, good := DriverOf(i, sched), FollowerOf(i, sched, others);
    var tries := AttemptsOn(IndexKey(op.team), MutationOf(op), others);
    forall attempt: nat, w ensures MatchesAt(d, tries, good, i, op, attempt, w) {
      if AtAttempt(w, i, op, attempt) && good(attempt, w) {
        AttemptIsDriveOnce(w, i, sched, others, attempt);
      }
    }
  }

  /** The loop and the client leave the same store and end the same way. */
  lemma LoopIsMachineClient(w: World, i: nat, sched: Schedule, others: Interference, attempt: nat)
    requires PhaseOf(w, i).Loading? && PhaseOf(w, i).attempt == attempt <= MAX_ETAG_ATTEMPTS
    requires Foreign(sched, i) && Follows(w, i, sched, others, attempt)
    ensures var op := PhaseOf(w, i).op;
            var (store, err) := UpdateFrom(AttemptsOn(IndexKey(op.team), MutationOf(op), others), w.store, attempt);
            var w' := Drive(w, i, sched, attempt);
            && w'.store == store
            && PhaseOf(w', i).Finished? && PhaseOf(w', i).op == op
            && PhaseOf(w', i).outcome == OutcomeOf(err)
  {
    var op := PhaseOf(w, i).op;
    var tries := AttemptsOn(IndexKey(op.team), MutationOf(op), others);
    AttemptsMatch(i, op, sched, others);
    AttemptsInStep(DriverOf(i, sched), tries, FollowerOf(i, sched, others), w, i, op, attempt);
  }

  // ---------- the record call and the whole operation ----------

  /** What the object's own operation does first: write the record, or delete it. */
  function Recorded(s: View<Doc>, op: Op): View<Doc>
  {
    var key := AgentKey(op.team, op.name);
    if op.Register? then Put(s, key, Record(op.rec)) else s - {key}
  }

  /**
    From its record call on, an operation of the object is an operation of the machine's client: the
    record first, then the update of the index, with the same final store and outcome.
   */
  lemma OperationIsMachineClient(w: World, i: nat, sched: Schedule, others: Interference)
    requires PhaseOf(w, i).Begun? && Foreign(sched, i)
    requires others(0, w.store) == Run(w, sched(0)).store
    requires Follows(CallStep(Run(w, sched(0)), i), i, sched, others, FIRST_ATTEMPT)
    ensures var op := PhaseOf(w, i).op;
            var (store, err) := Update(Recorded(others(0, w.store), op), IndexKey(op.team), MutationOf(op), others);
            var w' := Drive(CallStep(Run(w, sched(0)), i), i, sched, FIRST_ATTEMPT);
            && w'.store == store
            && PhaseOf(w', i).Finished? && PhaseOf(w', i).op == op
            && PhaseOf(w', i).outcome == OutcomeOf(err)
  {
    ForeignEventsKeepPhase(w, sched(0), i);
    LoopIsMachineClient(CallStep(Run(w, sched(0)), i), i, sched, others, FIRST_ATTEMPT);
  }

  // ---------- every schedule can be followed ----------

  /** From some store call on, two interference functions do the same. */
  ghost predicate AlikeFrom(a: Interference, b: Interference, first: nat)
  {
    forall k: nat, s :: first <= k ==> a(k, s) == b(k, s)
  }

  ghost predicate ImpliesFrom(a: Condition, b: Condition, first: nat)
  {
    forall k: nat, w :: first <= k && a(k, w) ==> b(k, w)
  }

  lemma {:induction false} AllAlongWeakens(
      d: Driver, a: Condition, b: Condition, w: World, i: nat, attempt: nat)
    requires AllAlong(d, a, w, i, attempt) && ImpliesFrom(a, b, attempt)
    ensures AllAlong(d, b, w, i, attempt)
    decreases MAX_ETAG_ATTEMPTS + 1 - attempt
  {
    if attempt <= MAX_ETAG_ATTEMPTS && PhaseOf(d(attempt, w), i).Loading? {
      AllAlongWeakens(d, a, b, d(attempt, w), i, attempt + 1);
    }
  }

  lemma FollowsAlike(w: World, i: nat, sched: Schedule, a: Interference, b: Interference, attempt: nat)
    requires Follows(w, i, sched, a, attempt) && AlikeFrom(a, b, 2 * attempt)
    ensures Follows(w, i, sched, b, attempt)
  {
    AllAlongWeakens(DriverOf(i, sched), FollowerOf(i, sched, a), FollowerOf(i, sched, b), w, i, attempt);
  }

  /** The interference that does in calls first and first + 1 what two stores say, and later the same as before. */
  function Prefixed(first: nat, s0: View<Doc>, s1: View<Doc>, others: Interference): Interference
  {
    (k: nat, s) => if k == first then s0 else if k == first + 1 then s1 else others(k, s)
  }

  lemma {:induction false} EveryScheduleCanBeFollowed(w: World, i: nat, sched: Schedule, attempt: nat)
    returns (others: Interference)
    ensures Follows(w, i, sched, others, attempt)
    decreases MAX_ETAG_ATTEMPTS + 1 - attempt
  {
    others := NobodyElse;
    if attempt <= MAX_ETAG_ATTEMPTS {
      var a := CallStep(Run(w, sched(2 * attempt)), i);
      var next := DriveOnce(w, i, sched, attempt);
      var later := EveryScheduleCanBeFollowed(next, i, sched, attempt + 1);
      others := Prefixed(2 * attempt, Run(w, sched(2 * attempt)).store, Run(a, sched(2 * attempt + 1)).store, later);
      assert FollowsOnce(w, i, sched, others, attempt);
      assert AlikeFrom(later, others, 2 * (attempt + 1));
      FollowsAlike(next, i, sched, later, others, attempt + 1);
    }
  }

  /** So whatever the others do, some interference makes the object's operation the machine's. */
  lemma EveryOperationIsSomeObjectRun(w: World, i: nat, sched: Schedule) returns (others: Interference)
    requires PhaseOf(w, i).Begun? && Foreign(sched, i)
    ensures var op := PhaseOf(w, i).op;
            var (store, err) := Update(Recorded(others(0, w.store), op), IndexKey(op.team), MutationOf(op), others);
            var w' := Drive(CallStep(Run(w, sched(0)), i), i, sched, FIRST_ATTEMPT);
            && others(0, w.store) == Run(w, sched(0)).store
            && w'.store == store && PhaseOf(w', i).Finished? && PhaseOf(w', i).outcome == OutcomeOf(err)
  {
    var begun := CallStep(Run(w, sched(0)), i);
    var later := EveryScheduleCanBeFollowed(begun, i, sched, FIRST_ATTEMPT);
    others := Prefixed(0, Run(w, sched(0)).store, map[], later);
    assert AlikeFrom(later, others, 2 * FIRST_ATTEMPT);
    FollowsAlike(begun, i, sched, later, others, FIRST_ATTEMPT);
    OperationIsMachineClient(w, i, sched, others);
  }
}
