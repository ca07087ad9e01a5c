/**
  Records and index agree: with at most one operation under way per agent, every name whose last
  operation finished without error is in the index exactly when its record exists.
 */
module RegistryAgreement {
  import opened Outcomes
  import opened StateStore
  import opened Registry
  import opened RegistryProtocol
  import opened RegistrySafety

  predicate Recorded(s: View<Doc>, team: string, name: string)
  {
    AgentKey(team, name) in s
  }

  /** No operation starts on an agent that another client is working on. */
  predicate MayStart(w: World, ev: Event)
  {
    ev.Begin? && !InFlight(PhaseOf(w, ev.client)) ==>
      !StatusOf(w, EffectiveTeam(ev.op.team), ev.op.name).Busy?
  }

  predicate ExclusiveRun(w0: World, evs: seq<Event>)
  {
    evs == [] ||
    (ExclusiveRun(w0, evs[..|evs| - 1]) && MayStart(Run(w0, evs[..|evs| - 1]), evs[|evs| - 1]))
  }

  ghost predicate NameOk(w: World, team: string, name: string)
  {
    StatusOf(w, team, name) == Settled ==>
      (name in IndexList(w.store, team) <==> Recorded(w.store, team, name))
  }

  ghost predicate WorkerOk(w: World, i: nat)
  {
    var p := PhaseOf(w, i);
    InFlight(p) ==>
      && StatusOf(w, p.op.team, p.op.name) == Busy(i)
      && (p.Begun? || (Recorded(w.store, p.op.team, p.op.name) <==> p.op.Register?))
  }

  ghost predicate Agreement(w: World, team: string)
  {
    && NoDuplicates(IndexList(w.store, team))
    && (forall name :: name != "_index" ==> NameOk(w, team, name))
    && (forall i: nat :: WorkerOk(w, i))
  }

  /** The list of a team after one call: the mutation of a successful write, and otherwise the same list. */
  lemma ListAfterCall(list0: seq<string>, s0: View<Doc>, w: World, i: nat, team: string)
    requires Inv(s0, w) && TeamName(team) && IndexKey(team) in s0 && IndexOk(list0, w, team)
    ensures var before, after := IndexList(w.store, team), IndexList(CallStep(w, i).store, team);
            after == if AboutToWrite(w, i, team) then Applied(MutationOf(PhaseOf(w, i).op), before) else before
  {
    IndexMoves(list0, s0, w, i, team);
    if AboutToWrite(w, i, team) {
      SuccessMeansUnchanged(s0, w, i, team);
      assert HeldListOk(w, i, team);
    }
  }

  /** A call changes the presence of at most one record: that of its own agent, in its first call. */
  lemma RecordsAfterCall(w: World, i: nat, team: string, name: string)
    requires InFlight(PhaseOf(w, i)) && ResolvedOp(PhaseOf(w, i).op)
    requires TeamName(team) && name != "_index"
    ensures var op := PhaseOf(w, i).op;
            Recorded(CallStep(w, i).store, team, name) <==>
              if PhaseOf(w, i).Begun? && op.team == team && op.name == name then op.Register?
              else Recorded(w.store, team, name)
  {
    var op := PhaseOf(w, i).op;
    KeysAreInjective(op.team, op.name, team, name);
    KeysAreInjective(team, name, op.team, op.name);
  }

  lemma StatusAfterCall(w: World, i: nat, team: string, name: string)
    requires InFlight(PhaseOf(w, i)) && (team, name) != (PhaseOf(w, i).op.team, PhaseOf(w, i).op.name)
    ensures StatusOf(CallStep(w, i), team, name) == StatusOf(w, team, name)
  {
  }

  /** Names the calling client is not working on keep their agreement. */
  lemma OtherNameOk(list0: seq<string>, s0: View<Doc>, w: World, i: nat, team: string, name: string)
    requires Inv(s0, w) && TeamName(team) && IndexKey(team) in s0 && IndexOk(list0, w, team)
    requires Agreement(w, team) && name != "_index" && InFlight(PhaseOf(w, i))
    requires (team, name) != (PhaseOf(w, i).op.team, PhaseOf(w, i).op.name)
    ensures NameOk(CallStep(w, i), team, name)
  {
    var op := PhaseOf(w, i).op;
    assert ClientOk(s0, w, i) && NameOk(w, team, name);
    ListAfterCall(list0, s0, w, i, team);
    RecordsAfterCall(w, i, team, name);
    StatusAfterCall(w, i, team, name);
    MutationEffect(MutationOf(op), IndexList(w.store, team));
  }

  /** The name the calling client works on agrees once the operation finishes without error. */
  lemma OwnNameOk(list0: seq<string>, s0: View<Doc>, w: World, i: nat, team: string)
    requires Inv(s0, w) && TeamName(team) && IndexKey(team) in s0 && IndexOk(list0, w, team)
    requires Agreement(w, team) && InFlight(PhaseOf(w, i)) && PhaseOf(w, i).op.team == team
    ensures NameOk(CallStep(w, i), team, PhaseOf(w, i).op.name)
  {
    var op := PhaseOf(w, i).op;
    assert ClientOk(s0, w, i) && WorkerOk(w, i);
    ListAfterCall(list0, s0, w, i, team);
    RecordsAfterCall(w, i, team, op.name);
    MutationEffect(MutationOf(op), IndexList(w.store, team));
  }

  lemma WorkersAfterCall(s0: View<Doc>, w: World, i: nat, j: nat)
    requires Inv(s0, w) && InFlight(PhaseOf(w, i))
    requires forall k: nat :: WorkerOk(w, k)
    ensures WorkerOk(CallStep(w, i), j)
  {
    assert ClientOk(s0, w, i) && ClientOk(s0, w, j) && WorkerOk(w, i) && WorkerOk(w, j);
    var p := PhaseOf(w, j);
    if i != j {
      StepFrame(w, Call(i), j);
    }
    if InFlight(p) {
      RecordsAfterCall(w, i, p.op.team, p.op.name);
      if i != j {
        StatusAfterCall(w, i, p.op.team, p.op.name);
      }
    }
  }

  lemma AgreementAfterCall(list0: seq<string>, s0: View<Doc>, w: World, i: nat, team: string)
    requires Inv(s0, w) && TeamName(team) && IndexKey(team) in s0 && IndexOk(list0, w, team)
    requires Agreement(w, team)
    ensures Agreement(CallStep(w, i), team)
  {
    if InFlight(PhaseOf(w, i)) {
      var w' := CallStep(w, i);
      var op := PhaseOf(w, i).op;
      ListAfterCall(list0, s0, w, i, team);
      MutationEffect(MutationOf(op), IndexList(w.store, team));
      forall name | name != "_index" ensures NameOk(w', team, name) {
        if (team, name) == (op.team, op.name) {
          OwnNameOk(list0, s0, w, i, team);
        } else {
          OtherNameOk(list0, s0, w, i, team, name);
        }
      }
      forall j: nat ensures WorkerOk(w', j) {
        WorkersAfterCall(s0, w, i, j);
      }
    }
  }

  /** Starting and failing touch no document, and only the status of the agent concerned. */
  lemma AgreementAfterNote(w: World, ev: Event, team: string)
    requires Agreement(w, team) && !ev.Call? && MayStart(w, ev)
    ensures Agreement(Step(w, ev), team)
  {
    var w' := Step(w, ev);
    forall name | name != "_index" ensures NameOk(w', team, name) {
      assert NameOk(w, team, name);
    }
    forall j: nat ensures WorkerOk(w', j) {
      assert WorkerOk(w, j) && WorkerOk(w, ev.client);
    }
  }

  /**
    From an agreeing store with the index present, and with no two operations on one agent at a time,
    every reachable index is duplicate-free and agrees with the records on every settled name.
   */
  lemma {:induction false} IndexAndRecordsAgree(w0: World, evs: seq<Event>, team: string)
    requires Fresh(w0) && WellNamedRun(evs) && TeamName(team) && IndexKey(team) in w0.store
    requires NoDuplicates(IndexList(w0.store, team))
    requires forall name :: name != "_index" ==>
               (name in IndexList(w0.store, team) <==> Recorded(w0.store, team, name))
    requires ExclusiveRun(w0, evs)
    ensures Agreement(Run(w0, evs), team)
  {
    if evs != [] {
      var front, ev := evs[..|evs| - 1], evs[|evs| - 1];
      IndexAndRecordsAgree(w0, front, team);
      var w := Run(w0, front);
      if ev.Call? {
        InvHolds(w0, front);
        IndexOkHolds(w0, front, team);
        AgreementAfterCall(IndexList(w0.store, team), w0.store, w, ev.client, team);
      } else {
        AgreementAfterNote(w, ev, team);
      }
    }
  }

  /** Why agents must not be called _index: removing such a "record" removes the team's index. */
  lemma DeregisteringIndexErasesIt(w0: World, team: string)
    requires Fresh(w0) && TeamName(team)
    ensures IndexKey(team) !in Run(w0, [Begin(0, Deregister(team, "_index")), Call(0)]).store
  {
    var op := Deregister(team, "_index");
    RunExtends(w0, [], Begin(0, op));
    RunExtends(w0, [Begin(0, op)], Call(0));
    assert [] + [Begin(0, op)] == [Begin(0, op)];
    assert [Begin(0, op)] + [Call(0)] == [Begin(0, op), Call(0)];
    KeysAreInjective(team, "_index", team, "_index");
  }

  /** And why none may register as _index: its record takes the place of the index, which no one can read then. */
  lemma RegisteringIndexBlocksIt(w0: World, team: string)
    requires Fresh(w0) && TeamName(team)
    ensures var w := Run(w0, [Begin(0, Newcomer(team, "_index")), Call(0)]);
            LoadView(w.store, IndexKey(team)) == Err(UnreadableIndex)
  {
    RunTwo(w0, Begin(0, Newcomer(team, "_index")), Call(0));
    KeysAreInjective(team, "_index", team, "_index");
  }

  // ---------- two operations on one agent ----------

  /** Clients 0 and 1 work on agent "a" of a team with an empty index; does the agent's record exist? */
  ghost predicate OnAgent(w: World, team: string, recorded: bool, p0: Phase, p1: Phase)
  {
    && TeamName(team) && IndexKey(team) in w.store && w.store[IndexKey(team)].value == Index([])
    && (Recorded(w.store, team, "a") <==> recorded)
    && PhaseOf(w, 0) == p0 && PhaseOf(w, 1) == p1
  }

  lemma RegistrarRecords(w: World, team: string)
    requires OnAgent(w, team, false, Idle, Idle) && w.log == []
    ensures var w' := Run(w, [Begin(0, Newcomer(team, "a")), Call(0)]);
            OnAgent(w', team, true, Loading(Newcomer(team, "a"), 1, 0, []), Idle) && w'.log == []
  {
    RunTwo(w, Begin(0, Newcomer(team, "a")), Call(0));
    KeysAreInjective(team, "a", team, "");
  }

  lemma RemoverErases(w: World, team: string, p: Phase)
    requires OnAgent(w, team, true, p, Idle) && w.log == []
    ensures var w' := Run(w, [Begin(1, Deregister(team, "a")), Call(1)]);
            OnAgent(w', team, false, p, Loading(Deregister(team, "a"), 1, 0, [])) && w'.log == []
  {
    RunTwo(w, Begin(1, Deregister(team, "a")), Call(1));
    KeysAreInjective(team, "a", team, "");
  }

  lemma RemoverFindsNothing(w: World, team: string, p: Phase)
    requires OnAgent(w, team, false, p, Loading(Deregister(team, "a"), 1, 0, []))
    ensures OnAgent(Run(w, [Call(1)]), team, false, p, Finished(Deregister(team, "a"), Succeeded, 0, []))
  {
    RunOne(w, Call(1));
  }

  lemma RegistrarAddsName(w: World, team: string, p: Phase)
    requires OnAgent(w, team, false, Loading(Newcomer(team, "a"), 1, 0, []), p)
    ensures var w' := Run(w, [Call(0), Call(0)]);
            && IndexList(w'.store, team) == ["a"] && !Recorded(w'.store, team, "a")
            && PhaseOf(w', 0).Finished? && PhaseOf(w', 0).outcome == Succeeded && PhaseOf(w', 1) == p
            && StatusOf(w', team, "a") == Settled
  {
    RunTwo(w, Call(0), Call(0));
    KeysAreInjective(team, "a", team, "");
    TrySetSucceedsIffCurrent(w.store, IndexKey(team), Index(["a"]), VersionOf(w.store, IndexKey(team)));
  }

  function Interrupted(team: string): seq<Event>
  {
    [Begin(0, Newcomer(team, "a")), Call(0)] + [Begin(1, Deregister(team, "a")), Call(1)]
  }

  lemma InterruptedRuns(w0: World, team: string)
    requires OnAgent(w0, team, false, Idle, Idle) && w0.log == []
    ensures OnAgent(Run(w0, Interrupted(team)), team, false,
                    Loading(Newcomer(team, "a"), 1, 0, []), Loading(Deregister(team, "a"), 1, 0, []))
  {
    var first, second := [Begin(0, Newcomer(team, "a")), Call(0)], [Begin(1, Deregister(team, "a")), Call(1)];
    RegistrarRecords(w0, team);
    RemoverErases(Run(w0, first), team, Loading(Newcomer(team, "a"), 1, 0, []));
    RunConcat(w0, first, second);
  }

  lemma BothFinish(w: World, team: string)
    requires OnAgent(w, team, false, Loading(Newcomer(team, "a"), 1, 0, []), Loading(Deregister(team, "a"), 1, 0, []))
    ensures var w' := Run(w, [Call(1)] + [Call(0), Call(0)]);
            && IndexList(w'.store, team) == ["a"] && !Recorded(w'.store, team, "a")
            && PhaseOf(w', 0).Finished? && PhaseOf(w', 0).outcome == Succeeded
            && PhaseOf(w', 1).Finished? && PhaseOf(w', 1).outcome == Succeeded
            && StatusOf(w', team, "a") == Settled
  {
    RemoverFindsNothing(w, team, PhaseOf(w, 0));
    RegistrarAddsName(Run(w, [Call(1)]), team, Finished(Deregister(team, "a"), Succeeded, 0, []));
    RunConcat(w, [Call(1)], [Call(0), Call(0)]);
  }

  /**
    Why operations on one agent must not overlap: a deregistration between the two halves of a
    registration leaves the name in the index without a record, although both finish without error.
   */
  lemma OverlapParts(w0: World, team: string) returns (evs: seq<Event>)
    requires Fresh(w0) && TeamName(team) && !Recorded(w0.store, team, "a")
    requires IndexKey(team) in w0.store && w0.store[IndexKey(team)].value == Index([])
    ensures WellNamedRun(evs) && !Agreement(Run(w0, evs), team)
    ensures var w := Run(w0, evs);
            && "a" in IndexList(w.store, team) && !Recorded(w.store, team, "a")
            && PhaseOf(w, 0).Finished? && PhaseOf(w, 0).outcome == Succeeded
            && PhaseOf(w, 1).Finished? && PhaseOf(w, 1).outcome == Succeeded
  {
    evs := Interrupted(team) + ([Call(1)] + [Call(0), Call(0)]);
    InterruptedRuns(w0, team);
    var w := Run(w0, Interrupted(team));
    BothFinish(w, team);
    RunConcat(w0, Interrupted(team), [Call(1)] + [Call(0), Call(0)]);
    assert !NameOk(Run(w0, evs), team, "a") by {
      assert "a" in ["a"];
    }
  }

  // ---------- ten foreign writes can be enough ----------

  /** Client 0 is about to load for attempt k and client 1 is idle over an index of at most the name "b". */
  ghost predicate RoundStart(w: World, team: string, k: nat)
  {
    && TeamName(team) && 1 <= k
    && PhaseOf(w, 0).Loading? && PhaseOf(w, 0).op.Register?
    && PhaseOf(w, 0).op.team == team && PhaseOf(w, 0).op.name == "a" && PhaseOf(w, 0).attempt == k
    && !InFlight(PhaseOf(w, 1))
    && IndexKey(team) in w.store
    && (w.store[IndexKey(team)].value == Index([]) || w.store[IndexKey(team)].value == Index(["b"]))
  }

  function OtherOp(w: World, team: string): Op
  {
    if "b" in IndexList(w.store, team) then Deregister(team, "b")
    else Op.Register(team, "b", RecordDoc("b", RegistryRef(team, ""), ""))
  }

  function Round(w: World, team: string): seq<Event>
  {
    [Call(0)] + ([Begin(1, OtherOp(w, team)), Call(1)] + [Call(1), Call(1)]) + [Call(0)]
  }

  /** Client 0 holds the list and etag of version v and is about to write it back. */
  ghost predicate Lagging(w: World, team: string, k: nat, v: nat)
  {
    && TeamName(team) && 0 < v && IndexKey(team) in w.store
    && PhaseOf(w, 0).Storing? && PhaseOf(w, 0).op.Register?
    && PhaseOf(w, 0).op.team == team && PhaseOf(w, 0).op.name == "a" && PhaseOf(w, 0).attempt == k
    && PhaseOf(w, 0).tag == EtagString(v)
  }

  lemma RunOne(w: World, ev: Event)
    ensures Run(w, [ev]) == Step(w, ev)
  {
    assert [] + [ev] == [ev];
    RunExtends(w, [], ev);
  }

  lemma Falls(w: World, team: string, k: nat)
    requires RoundStart(w, team, k)
    ensures var w' := Run(w, [Call(0)]);
            && Lagging(w', team, k, VersionOf(w.store, IndexKey(team)))
            && w'.store == w.store && w'.log == w.log && PhaseOf(w', 1) == PhaseOf(w, 1)
  {
    RunOne(w, Call(0));
  }

  lemma OtherRecords(w: World, team: string, k: nat, v: nat)
    requires Lagging(w, team, k, v) && !InFlight(PhaseOf(w, 1))
    ensures var w' := Run(w, [Begin(1, OtherOp(w, team)), Call(1)]);
            && Lagging(w', team, k, v) && w'.log == w.log && IndexKey(team) in w'.store
            && w'.store[IndexKey(team)] == w.store[IndexKey(team)]
            && PhaseOf(w', 1) == Loading(OtherOp(w, team), 1, |w.log|, [])
  {
    RunTwo(w, Begin(1, OtherOp(w, team)), Call(1));
    KeysAreInjective(team, "b", team, "");
  }

  lemma OtherWrites(w: World, team: string, k: nat, v: nat, op: Op, list: seq<string>)
    requires Lagging(w, team, k, v) && w.store[IndexKey(team)] == Entry(Index(list), v)
    requires PhaseOf(w, 1) == Loading(op, 1, |w.log|, []) && op.team == team && Changes(MutationOf(op), list)
    ensures var w' := Run(w, [Call(1), Call(1)]);
            && Lagging(w', team, k, v) && w'.log == w.log + [LogEntry(1, op, true)]
            && !InFlight(PhaseOf(w', 1))
            && w'.store[IndexKey(team)] == Entry(Index(Applied(MutationOf(op), list)), v + 1)
  {
    RunTwo(w, Call(1), Call(1));
    assert PhaseOf(Step(w, Call(1)), 1) == Storing(op, 1, list, EtagString(v), |w.log|, |w.log|, []);
  }

  lemma Loses(w: World, team: string, k: nat, v: nat)
    requires Lagging(w, team, k, v) && VersionOf(w.store, IndexKey(team)) == v + 1 && 1 <= k
    ensures var w' := Run(w, [Call(0)]);
            && w'.store == w.store && w'.log == w.log && PhaseOf(w', 1) == PhaseOf(w, 1)
            && (k < MAX_ETAG_ATTEMPTS ==> PhaseOf(w', 0).Loading? && PhaseOf(w', 0).attempt == k + 1
                                          && PhaseOf(w', 0).op == PhaseOf(w, 0).op)
            && (k >= MAX_ETAG_ATTEMPTS ==> PhaseOf(w', 0).Finished? && PhaseOf(w', 0).outcome == GaveUp)
  {
    RunOne(w, Call(0));
    EtagInjective(v, v + 1);
    EtagInjective(v, 0);
  }

  /** One lost attempt: client 0 loads, client 1 changes the index, client 0's write is refused. */
  lemma OneRound(w: World, team: string, k: nat)
    requires RoundStart(w, team, k)
    ensures var w' := Run(w, Round(w, team));
            && ForeignWrites(w'.log, team, 0) == ForeignWrites(w.log, team, 0) + 1
            && (k < MAX_ETAG_ATTEMPTS ==> RoundStart(w', team, k + 1))
            && (k >= MAX_ETAG_ATTEMPTS ==> PhaseOf(w', 0).Finished? && PhaseOf(w', 0).outcome == GaveUp)
  {
    var op := OtherOp(w, team);
    var list := w.store[IndexKey(team)].value.agents;
    var v := VersionOf(w.store, IndexKey(team));
    var first, second, third := [Call(0)], [Begin(1, op), Call(1)], [Call(1), Call(1)];
    Falls(w, team, k);
    var w1 := Run(w, first);
    OtherRecords(w1, team, k, v);
    var w2 := Run(w1, second);
    OtherWrites(w2, team, k, v, op, list);
    var w3 := Run(w2, third);
    LogGrows(w.log, LogEntry(1, op, true));
    Loses(w3, team, k, v);
    RunConcat(w1, second, third);
    RunConcat(w, first, second + third);
    RunConcat(w, first + (second + third), [Call(0)]);
    assert Applied(Remove("b"), ["b"]) == [];
  }

  lemma {:induction false} LosingRounds(w: World, team: string, k: nat) returns (evs: seq<Event>)
    requires RoundStart(w, team, k) && k <= MAX_ETAG_ATTEMPTS
    ensures WellNamedRun(evs)
    ensures var w' := Run(w, evs);
            && PhaseOf(w', 0).Finished? && PhaseOf(w', 0).outcome == GaveUp
            && ForeignWrites(w'.log, team, 0) == ForeignWrites(w.log, team, 0) + MAX_ETAG_ATTEMPTS + 1 - k
    decreases MAX_ETAG_ATTEMPTS - k
  {
    OneRound(w, team, k);
    evs := Round(w, team);
    if k < MAX_ETAG_ATTEMPTS {
      var rest := LosingRounds(Run(w, evs), team, k + 1);
      RunConcat(w, evs, rest);
      evs := evs + rest;
    }
  }

  /** The bound of ten is met: ten writes by one single other client can make a registration give up. */
  lemma TenForeignWritesSuffice(w0: World, team: string) returns (evs: seq<Event>)
    requires Fresh(w0) && TeamName(team)
    requires IndexKey(team) in w0.store && w0.store[IndexKey(team)].value == Index([])
    ensures WellNamedRun(evs)
    ensures PhaseOf(Run(w0, evs), 0).Finished? && PhaseOf(Run(w0, evs), 0).outcome == GaveUp
    ensures ForeignWrites(Run(w0, evs).log, team, 0) == 10
  {
    var op := Newcomer(team, "a");
    KeysAreInjective(team, "a", team, "");
    var first := [Begin(0, op), Call(0)];
    RunTwo(w0, first[0], first[1]);
    var rest := LosingRounds(Run(w0, first), team, 1);
    RunConcat(w0, first, rest);
    evs := first + rest;
  }
}
