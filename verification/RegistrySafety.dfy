/**
  What the registry's update protocol guarantees over whole runs: no successful index update is lost
  once the index exists, and records and index agree on every name at rest.
 */
module RegistrySafety {
  import opened Outcomes
  import opened StateStore
  import opened Registry
  import opened RegistryProtocol

  lemma RunExtends(w: World, evs: seq<Event>, ev: Event)
    ensures Run(w, evs + [ev]) == Step(Run(w, evs), ev)
  {
    assert (evs + [ev])[..|evs|] == evs;
  }

  // ---------- success and the log ----------

  /** An operation finishes without error in exactly the step that logs it, and is then logged once. */
  lemma SuccessIsLoggedOnce(w: World, ev: Event)
    ensures var w' := Step(w, ev); var i := ev.client;
            && (w'.log == w.log || (w'.log[..|w.log|] == w.log && |w'.log| == |w.log| + 1))
            && (|w'.log| == |w.log| + 1 <==>
                  InFlight(PhaseOf(w, i)) && PhaseOf(w', i).Finished? && PhaseOf(w', i).outcome == Succeeded)
            && (|w'.log| == |w.log| + 1 ==>
                  w'.log[|w.log|].client == i && w'.log[|w.log|].op == PhaseOf(w, i).op == PhaseOf(w', i).op)
  {
    var w' := Step(w, ev);
    if |w'.log| == |w.log| + 1 {
      LogGrows(w.log, w'.log[|w.log|]);
    }
  }

  // ---------- no lost update ----------

  /** A client about to write holds the current list, unless someone has written since it loaded. */
  ghost predicate HeldListOk(w: World, i: nat, team: string)
  {
    var p := PhaseOf(w, i);
    (p.Storing? && p.op.team == team && p.at <= |w.log| && Writes(w.log[..p.at], team) == Writes(w.log, team)) ==>
      p.list == IndexList(w.store, team)
  }

  ghost predicate IndexOk(list0: seq<string>, w: World, team: string)
  {
    && IndexKey(team) in w.store
    && IndexList(w.store, team) == Fold(list0, w.log, team)
    && forall i: nat :: HeldListOk(w, i, team)
  }

  /** With the index present, a compare-and-set succeeds only if nobody wrote the index since the load. */
  lemma SuccessMeansUnchanged(s0: View<Doc>, w: World, i: nat, team: string)
    requires Inv(s0, w) && TeamName(team) && IndexKey(team) in s0
    requires AboutToWrite(w, i, team)
    ensures PhaseOf(w, i).at <= |w.log| && Writes(w.log[..PhaseOf(w, i).at], team) == Writes(w.log, team)
  {
    var p := PhaseOf(w, i);
    assert ClientOk(s0, w, i);
    TrySetSucceedsIffCurrent(w.store, IndexKey(team), Blank, VersionAt(s0, w.log[..p.at], team));
    assert VersionOf(w.store, IndexKey(team)) == VersionAt(s0, w.log, team);
  }

  /** A write that goes through applies its operation to the current list. */
  lemma WriteMovesIndex(list0: seq<string>, s0: View<Doc>, w: World, i: nat, team: string)
    requires Inv(s0, w) && TeamName(team) && IndexKey(team) in s0
    requires IndexOk(list0, w, team) && AboutToWrite(w, i, team)
    ensures var w' := CallStep(w, i);
            && IndexKey(team) in w'.store
            && IndexList(w'.store, team) == Fold(list0, w'.log, team)
  {
    var p := PhaseOf(w, i);
    LogGrows(w.log, LogEntry(i, p.op, true));
    SuccessMeansUnchanged(s0, w, i, team);
    assert HeldListOk(w, i, team);
  }

  /** Any other call leaves the list alone, and logs nothing that would have changed it. */
  lemma OtherCallsKeepIndex(list0: seq<string>, w: World, i: nat, team: string)
    requires TeamName(team) && !AboutToWrite(w, i, team)
    requires InFlight(PhaseOf(w, i)) ==> ResolvedOp(PhaseOf(w, i).op)
    requires IndexKey(team) in w.store && IndexList(w.store, team) == Fold(list0, w.log, team)
    ensures var w' := CallStep(w, i);
            && IndexKey(team) in w'.store
            && IndexList(w'.store, team) == Fold(list0, w'.log, team)
            && IndexList(w'.store, team) == IndexList(w.store, team)
  {
    var w' := CallStep(w, i);
    var p := PhaseOf(w, i);
    if w'.log != w.log {
      LogGrows(w.log, w'.log[|w.log|]);
    }
    if InFlight(p) && !(p.Storing? && p.op.team == team) {
      OtherIndexUntouched(w, i, team);
      if p.Loading? && p.op.team == team && !Changes(MutationOf(p.op), IndexList(w.store, team)) {
        NoChangeNoEffect(MutationOf(p.op), IndexList(w.store, team));
      }
    }
  }

  /** How the list of a team and its log move together in one call. */
  lemma IndexMoves(list0: seq<string>, s0: View<Doc>, w: World, i: nat, team: string)
    requires Inv(s0, w) && TeamName(team) && IndexKey(team) in s0
    requires IndexOk(list0, w, team)
    ensures var w' := CallStep(w, i);
            && IndexKey(team) in w'.store
            && IndexList(w'.store, team) == Fold(list0, w'.log, team)
            && (!AboutToWrite(w, i, team) ==> IndexList(w'.store, team) == IndexList(w.store, team))
  {
    assert ClientOk(s0, w, i);
    if AboutToWrite(w, i, team) {
      WriteMovesIndex(list0, s0, w, i, team);
    } else {
      OtherCallsKeepIndex(list0, w, i, team);
    }
  }

  lemma OwnHeldList(w: World, i: nat, team: string)
    ensures HeldListOk(CallStep(w, i), i, team)
  {
  }

  /** If client i's call leaves the write count of a team where client j last saw it, it left the list too. */
  lemma CountSeenIsCurrent(w: World, i: nat, at: nat, team: string)
    requires at <= |w.log|
    requires Writes(CallStep(w, i).log[..at], team) == Writes(CallStep(w, i).log, team)
    requires CallStep(w, i).log[..at] == w.log[..at]
    ensures !AboutToWrite(w, i, team) && Writes(w.log[..at], team) == Writes(w.log, team)
  {
    LogCountsWrites(w, i, team);
    assert w.log[..|w.log|] == w.log;
    WriteBetween(w.log, at, |w.log|, team);
  }

  lemma OthersHeldList(list0: seq<string>, s0: View<Doc>, w: World, i: nat, j: nat, team: string)
    requires Inv(s0, w) && TeamName(team) && IndexKey(team) in s0
    requires IndexOk(list0, w, team) && i != j
    requires PhaseOf(w, j).Storing? && PhaseOf(w, j).op.team == team
    ensures HeldListOk(CallStep(w, i), j, team)
  {
    var w' := CallStep(w, i);
    var p := PhaseOf(w, j);
    StepFrame(w, Call(i), j);
    assert ClientOk(s0, w, j) && p.at <= |w.log|;
    assert w'.log[..p.at] == w.log[..p.at] by {
      if w'.log != w.log { LogGrows(w.log, w'.log[|w.log|]); }
    }
    if Writes(w'.log[..p.at], team) == Writes(w'.log, team) {
      CountSeenIsCurrent(w, i, p.at, team);
      assert HeldListOk(w, j, team);
      IndexMoves(list0, s0, w, i, team);
    }
  }

  lemma HeldListsStay(list0: seq<string>, s0: View<Doc>, w: World, ev: Event, j: nat, team: string)
    requires Inv(s0, w) && TeamName(team) && IndexKey(team) in s0
    requires IndexOk(list0, w, team)
    ensures HeldListOk(Step(w, ev), j, team)
  {
    assert HeldListOk(w, j, team);
    if ev.Call? {
      if j == ev.client {
        OwnHeldList(w, j, team);
      } else {
        StepFrame(w, ev, j);
        if PhaseOf(w, j).Storing? && PhaseOf(w, j).op.team == team {
          OthersHeldList(list0, s0, w, ev.client, j, team);
        }
      }
    }
  }

  lemma {:induction false} IndexOkHolds(w0: World, evs: seq<Event>, team: string)
    requires Fresh(w0) && WellNamedRun(evs) && TeamName(team) && IndexKey(team) in w0.store
    ensures IndexOk(IndexList(w0.store, team), Run(w0, evs), team)
  {
    if evs != [] {
      var front, ev := evs[..|evs| - 1], evs[|evs| - 1];
      var list0 := IndexList(w0.store, team);
      IndexOkHolds(w0, front, team);
      InvHolds(w0, front);
      var w := Run(w0, front);
      if ev.Call? {
        IndexMoves(list0, w0.store, w, ev.client, team);
      }
      forall j: nat ensures HeldListOk(Step(w, ev), j, team) {
        HeldListsStay(list0, w0.store, w, ev, j, team);
      }
    }
  }

  /** From w0 on, the index of a team is always its first list folded through the logged operations. */
  ghost predicate KeepsEveryUpdate(w0: World, team: string)
  {
    forall evs :: WellNamedRun(evs) ==>
      IndexList(Run(w0, evs).store, team) == Fold(IndexList(w0.store, team), Run(w0, evs).log, team)
  }

  lemma {:induction false} RunConcat(w: World, a: seq<Event>, b: seq<Event>)
    ensures Run(w, a + b) == Run(Run(w, a), b)
  {
    if b == [] {
      assert a + b == a;
    } else {
      var n := |b| - 1;
      RunConcat(w, a, b[..n]);
      assert (a + b)[..|a + b| - 1] == a + b[..n];
    }
  }

  lemma RunTwo(w: World, first: Event, second: Event)
    ensures Run(w, [first, second]) == Step(Step(w, first), second)
  {
    RunExtends(w, [], first);
    RunExtends(w, [first], second);
    assert [] + [first] == [first] && [first] + [second] == [first, second];
  }

  function Newcomer(team: string, name: string): Op
  {
    Op.Register(team, name, RecordDoc(name, RegistryRef(team, ""), ""))
  }

  /** Two newcomers at the same point of their calls, with no index yet and nothing logged. */
  ghost predicate Abreast(w: World, team: string, a: Phase, b: Phase)
  {
    && TeamName(team) && IndexKey(team) !in w.store && w.log == []
    && PhaseOf(w, 0) == a && PhaseOf(w, 1) == b
  }

  lemma BothBegin(w: World, team: string)
    requires Abreast(w, team, Idle, Idle)
    ensures Abreast(Run(w, [Begin(0, Newcomer(team, "a")), Begin(1, Newcomer(team, "b"))]),
                    team, Begun(Newcomer(team, "a")), Begun(Newcomer(team, "b")))
  {
    RunTwo(w, Begin(0, Newcomer(team, "a")), Begin(1, Newcomer(team, "b")));
  }

  lemma BothRecord(w: World, team: string)
    requires Abreast(w, team, Begun(Newcomer(team, "a")), Begun(Newcomer(team, "b")))
    ensures Abreast(Run(w, [Call(0), Call(1)]), team,
                    Loading(Newcomer(team, "a"), 1, 0, []), Loading(Newcomer(team, "b"), 1, 0, []))
  {
    RunTwo(w, Call(0), Call(1));
    KeysAreInjective(team, "a", team, "");
    KeysAreInjective(team, "b", team, "");
  }

  lemma BothLoad(w: World, team: string)
    requires Abreast(w, team, Loading(Newcomer(team, "a"), 1, 0, []), Loading(Newcomer(team, "b"), 1, 0, []))
    ensures Abreast(Run(w, [Call(0), Call(1)]), team,
                    Storing(Newcomer(team, "a"), 1, [], "", 0, 0, []),
                    Storing(Newcomer(team, "b"), 1, [], "", 0, 0, []))
  {
    RunTwo(w, Call(0), Call(1));
  }

  lemma BothStore(w: World, team: string)
    requires Abreast(w, team, Storing(Newcomer(team, "a"), 1, [], "", 0, 0, []),
                              Storing(Newcomer(team, "b"), 1, [], "", 0, 0, []))
    ensures var w' := Run(w, [Call(0), Call(1)]);
            && IndexList(w'.store, team) == ["b"]
            && w'.log == [LogEntry(0, Newcomer(team, "a"), true), LogEntry(1, Newcomer(team, "b"), true)]
            && PhaseOf(w', 0) == Finished(Newcomer(team, "a"), Succeeded, 0, [])
            && PhaseOf(w', 1) == Finished(Newcomer(team, "b"), Succeeded, 0, [])
  {
    RunTwo(w, Call(0), Call(1));
  }

  function RaceScript(team: string): seq<Event>
  {
    [Begin(0, Newcomer(team, "a")), Begin(1, Newcomer(team, "b"))]
      + [Call(0), Call(1)] + [Call(0), Call(1)] + [Call(0), Call(1)]
  }

  lemma RaceRuns(w0: World, team: string)
    requires Abreast(w0, team, Idle, Idle)
    ensures var w := Run(w0, RaceScript(team));
            && IndexList(w.store, team) == ["b"]
            && w.log == [LogEntry(0, Newcomer(team, "a"), true), LogEntry(1, Newcomer(team, "b"), true)]
            && PhaseOf(w, 0) == Finished(Newcomer(team, "a"), Succeeded, 0, [])
            && PhaseOf(w, 1) == Finished(Newcomer(team, "b"), Succeeded, 0, [])
  {
    var begin := [Begin(0, Newcomer(team, "a")), Begin(1, Newcomer(team, "b"))];
    var both := [Call(0), Call(1)];
    BothBegin(w0, team);
    BothRecord(Run(w0, begin), team);
    RunConcat(w0, begin, both);
    BothLoad(Run(w0, begin + both), team);
    RunConcat(w0, begin + both, both);
    BothStore(Run(w0, begin + both + both), team);
    RunConcat(w0, begin + both + both, both);
  }

  /**
    Two clients that both found no index: both writes are unconditional, both operations succeed, and
    the second write hides the first.
   */
  lemma FirstWriteRace(w0: World, team: string)
    requires Fresh(w0) && TeamName(team) && IndexKey(team) !in w0.store
    ensures WellNamedRun(RaceScript(team))
    ensures var w := Run(w0, RaceScript(team));
            && IndexList(w.store, team) == ["b"]
            && Fold(IndexList(w0.store, team), w.log, team) == ["a", "b"]
            && PhaseOf(w, 0).Finished? && PhaseOf(w, 0).outcome == Succeeded
            && PhaseOf(w, 1).Finished? && PhaseOf(w, 1).outcome == Succeeded
  {
    RaceRuns(w0, team);
    FoldOfTwo(LogEntry(0, Newcomer(team, "a"), true), LogEntry(1, Newcomer(team, "b"), true), team);
  }

  lemma FoldOfTwo(x: LogEntry, y: LogEntry, team: string)
    requires x.op == Newcomer(team, "a") && y.op == Newcomer(team, "b")
    ensures Fold([], [x, y], team) == ["a", "b"]
  {
    assert [x, y][..1] == [x] && [x][..0] == [];
    assert Fold([], [x], team) == Applied(Add("a"), []) == ["a"];
    assert Applied(Add("b"), ["a"]) == ["a", "b"];
  }

  /** No update is ever lost from a start exactly if the index key is already there. */
  lemma NoLostUpdateIffIndexPresent(w0: World, team: string)
    requires Fresh(w0) && TeamName(team)
    ensures KeepsEveryUpdate(w0, team) <==> IndexKey(team) in w0.store
  {
    if IndexKey(team) in w0.store {
      forall evs | WellNamedRun(evs)
        ensures IndexList(Run(w0, evs).store, team) == Fold(IndexList(w0.store, team), Run(w0, evs).log, team)
      {
        IndexOkHolds(w0, evs, team);
      }
    } else {
      FirstWriteRace(w0, team);
      assert WellNamedRun(RaceScript(team)) && ["b"] != ["a", "b"];
    }
  }
}
