/**
  Exactly when a durable run agrees with the in-process run, for graphs whose reducers append and whose
  nodes and routers cannot tell a state from its JSON form; and the inputs on which the two part.
 */
module RunAgreement {
  import opened Outcomes
  import opened Values
  import opened Channels
  import opened Graphs
  import opened Engine
  import opened Durable
  import opened Refinement

  // ---------- one merge ----------

  /** What a workflow's channels hold: decoded values, and nil slices from appending nothing to nothing. */
  ghost predicate Decoded(t: State)
  {
    forall c :: c in t ==> t[c] == NilList || JsonNormal(t[c])
  }

  lemma EncodedIsDecoded(s: State)
    ensures Decoded(EncodeState(s))
  {
    forall c | c in s { EncodeIsNormal(s[c]); }
  }

  /** If channel c appends, its value and its update are steady. */
  ghost predicate WritesSteady(s: State, u: State, reducers: Reducers, c: string)
    requires c in u
  {
    c in reducers ==> Steady(Existing(s, c)) && Steady(u[c])
  }

  /** A value already decoded contributes the elements of its JSON. */
  lemma DecodedList(e': Value)
    requires e' == NilList || JsonNormal(e')
    ensures AsList(e') == AsList(Encode(e')) && EncodeAll(AsList(e')) == AsList(e')
  {
    if e' != NilList {
      NormalIffFixed(e');
      EncodedElementsFixed(e');
    }
  }

  lemma ChannelAgreesIffSteady(e: Value, u: Value, e': Value)
    requires Encode(e) == Encode(e') && (e' == NilList || JsonNormal(e'))
    ensures Encode(AppendReducer(e, u)) == Encode(AppendReducer(e', Encode(u))) <==> Steady(e) && Steady(u)
  {
    DecodedList(e');
    AppendEncoded(e, u);
    AppendEncoded(e', Encode(u));
    EncodedElementsFixed(u);
    UnsteadyShows(e, u);
  }

  /**
    From states with the same JSON, a merge in process and its durable form give the same JSON exactly
    if no appending channel that is written holds or is sent an unsteady value.
   */
  lemma MergeAgreesIffSteady(s: State, t: State, u: State, reducers: Reducers)
    requires Appending(reducers) && SameJson(s, t) && Decoded(t)
    ensures SameJson(Merged(s, u, reducers), Merged(t, EncodeState(u), reducers))
            <==> forall c :: c in u ==> WritesSteady(s, u, reducers, c)
  {
    var a, b := Merged(s, u, reducers), Merged(t, EncodeState(u), reducers);
    forall c ensures c in s <==> c in t { SameJsonAt(s, t, c); }
    assert a.Keys == b.Keys;
    SameJsonByChannel(a, b);
    forall c | c in a
      ensures Encode(a[c]) == Encode(b[c]) <==> (c in u ==> WritesSteady(s, u, reducers, c))
    {
      SameJsonAt(s, t, c);
      if c in u {
        EncodeTwice(u[c]);
        if c in reducers {
          ChannelAgreesIffSteady(Existing(s, c), u[c], Existing(t, c));
        }
      }
    }
  }

  lemma MergeStaysDecoded(t: State, u: State, reducers: Reducers)
    requires Appending(reducers) && Decoded(t)
    ensures Decoded(Merged(t, EncodeState(u), reducers))
  {
    forall c | c in u
      ensures var x := Written(t, c, Encode(u[c]), reducers); x == NilList || JsonNormal(x)
    {
      EncodeIsNormal(u[c]);
      if c in reducers {
        AppendByLists(Existing(t, c), Encode(u[c]));
      }
    }
  }

  // ---------- one node ----------

  /** The node at s appends nothing unsteady, and to nothing unsteady. */
  ghost predicate SteadyStep(cg: CompiledGraph, node: string, s: State)
  {
    RunNode(cg, node, s).Ok? ==>
      forall c :: c in RunNode(cg, node, s).value ==> WritesSteady(s, RunNode(cg, node, s).value, cg.reducers, c)
  }

  /** One node in process on s and durably on t: the same error, or states of the same JSON exactly if steady. */
  ghost predicate StepAgrees(cg: CompiledGraph, node: string, s: State, t: State)
  {
    match RunNode(cg, node, s)
    case Err(e) => NodeResult(cg, node, t) == Err(e)
    case Ok(u) =>
      var s', t' := Merged(s, u, cg.reducers), Merged(t, EncodeState(u), cg.reducers);
      && NodeResult(cg, node, t) == Ok(EncodeState(u))
      && Decoded(t')
      && (SameJson(s', t') <==> SteadyStep(cg, node, s))
      && (SameJson(s', t') ==> Next(cg, node, s') == Next(cg, node, t'))
  }

  ghost predicate StepsAgree(cg: CompiledGraph)
  {
    forall node, s, t :: SameJson(s, t) && Decoded(t) ==> StepAgrees(cg, node, s, t)
  }

  lemma BlindStepsAgree(cg: CompiledGraph)
    requires Blind(cg) && Appending(cg.reducers)
    ensures StepsAgree(cg)
  {
    forall node, s, t | SameJson(s, t) && Decoded(t)
      ensures StepAgrees(cg, node, s, t)
    {
      BlindNode(cg, node, s, t);
      if RunNode(cg, node, s).Ok? {
        var u := RunNode(cg, node, s).value;
        var s', t' := Merged(s, u, cg.reducers), Merged(t, EncodeState(u), cg.reducers);
        MergeStaysDecoded(t, u, cg.reducers);
        MergeAgreesIffSteady(s, t, u, cg.reducers);
        if SameJson(s', t') {
          RoutingSameJson(cg, node, s', t');
        }
      }
    }
  }

  // ---------- whole runs, node by node ----------

  /** No executed node of the in-process run appends anything unsteady, or to anything unsteady. */
  ghost predicate SteadyRun(cg: CompiledGraph, node: string, s: State, step: nat, max: nat)
    decreases if step <= max then max - step + 1 else 0
  {
    node != END && step < max && RunNode(cg, node, s).Ok? ==>
      && SteadyStep(cg, node, s)
      && var s' := Merged(s, RunNode(cg, node, s).value, cg.reducers);
         Next(cg, node, s').Ok? ==> SteadyRun(cg, Next(cg, node, s').value, s', step + 1, max)
  }

  /** The durable run keeps up with the in-process run: the same JSON before and after every executed node. */
  ghost predicate Lockstep(cg: CompiledGraph, node: string, s: State, t: State, step: nat, max: nat)
    decreases if step <= max then max - step + 1 else 0
  {
    && SameJson(s, t)
    && (node != END && step < max && RunNode(cg, node, s).Ok? ==>
          && NodeResult(cg, node, t).Ok?
          && var s' := Merged(s, RunNode(cg, node, s).value, cg.reducers);
             var t' := Merged(t, NodeResult(cg, node, t).value, cg.reducers);
             && SameJson(s', t')
             && Next(cg, node, t') == Next(cg, node, s')
             && (Next(cg, node, s').Ok? ==> Lockstep(cg, Next(cg, node, s').value, s', t', step + 1, max)))
  }

  /** The two runs have the same JSON at every node exactly if the in-process run is steady. */
  lemma {:induction false} LockstepIffSteady(
      cg: CompiledGraph, node: string, s: State, t: State, step: nat, max: nat)
    requires StepsAgree(cg) && SameJson(s, t) && Decoded(t)
    ensures Lockstep(cg, node, s, t, step, max) <==> SteadyRun(cg, node, s, step, max)
    decreases if step <= max then max - step + 1 else 0
  {
    if node != END && step < max && RunNode(cg, node, s).Ok? {
      assert StepAgrees(cg, node, s, t);
      var u := RunNode(cg, node, s).value;
      var s', t' := Merged(s, u, cg.reducers), Merged(t, EncodeState(u), cg.reducers);
      if SameJson(s', t') && Next(cg, node, s').Ok? {
        LockstepIffSteady(cg, Next(cg, node, s').value, s', t', step + 1, max);
      }
    }
  }

  /** A steady run ends alike both ways, with the same JSON or the same error at the same step. */
  lemma {:induction false} SteadyRunAgrees(cg: CompiledGraph, node: string, s: State, t: State, step: nat, max: nat)
    requires StepsAgree(cg) && SameJson(s, t) && Decoded(t) && step <= max
    requires SteadyRun(cg, node, s, step, max)
    ensures SameOutcomeAsJson(RunFrom(cg, node, s, step, max), RunDurable(cg, node, t, step, max).progress, step)
    decreases max - step
  {
    if node != END && step < max {
      assert StepAgrees(cg, node, s, t);
      if RunNode(cg, node, s).Ok? {
        var u := RunNode(cg, node, s).value;
        var s', t' := Merged(s, u, cg.reducers), Merged(t, EncodeState(u), cg.reducers);
        if Next(cg, node, s').Ok? {
          SteadyRunAgrees(cg, Next(cg, node, s').value, s', t', step + 1, max);
        }
      }
    }
  }

  // ---------- a difference in an appending channel stays ----------

  /** Channel c holds a list that starts with some elements. */
  ghost predicate Holds(s: State, c: string, some: seq<Value>)
  {
    c in s && s[c].List? && some != [] && some <= s[c].items
  }

  lemma MergeKeepsHeld(s: State, u: State, reducers: Reducers, c: string, some: seq<Value>)
    requires Holds(s, c, some) && c in reducers && reducers[c] == AppendReducer
    ensures Holds(Merged(s, u, reducers), c, some)
  {
    if c in u {
      AppendByLists(s[c], u[c]);
    }
  }

  lemma {:induction false} RunKeepsHeld(
      cg: CompiledGraph, node: string, s: State, step: nat, max: nat, c: string, some: seq<Value>)
    requires Holds(s, c, some) && c in cg.reducers && cg.reducers[c] == AppendReducer
    ensures Holds(RunFrom(cg, node, s, step, max).state, c, some)
    decreases if step <= max then max - step + 1 else 0
  {
    if node != END && step < max && RunNode(cg, node, s).Ok? {
      var s' := Merged(s, RunNode(cg, node, s).value, cg.reducers);
      MergeKeepsHeld(s, RunNode(cg, node, s).value, cg.reducers, c, some);
      if Next(cg, node, s').Ok? {
        RunKeepsHeld(cg, Next(cg, node, s').value, s', step + 1, max, c, some);
      }
    }
  }

  lemma {:induction false} DurableRunKeepsHeld(
      cg: CompiledGraph, node: string, t: State, step: nat, max: nat, c: string, some: seq<Value>)
    requires Holds(t, c, some) && c in cg.reducers && cg.reducers[c] == AppendReducer
    ensures var p := RunDurable(cg, node, t, step, max).progress; p.Completed? ==> Holds(p.state, c, some)
    decreases if step <= max then max - step + 1 else 0
  {
    if node != END && step < max && NodeResult(cg, node, t).Ok? {
      var t' := Merged(t, NodeResult(cg, node, t).value, cg.reducers);
      MergeKeepsHeld(t, NodeResult(cg, node, t).value, cg.reducers, c, some);
      if Next(cg, node, t').Ok? {
        DurableRunKeepsHeld(cg, Next(cg, node, t').value, t', step + 1, max, c, some);
      }
    }
  }

  /** An element at which the JSON of two lists differs. */
  ghost predicate DifferAt(a: seq<Value>, b: seq<Value>, i: nat)
  {
    i < |a| && i < |b| && Encode(a[i]) != Encode(b[i])
  }

  lemma HeldDifferenceShows(s: State, t: State, c: string, a: seq<Value>, b: seq<Value>, i: nat)
    requires Holds(s, c, a) && Holds(t, c, b) && DifferAt(a, b, i)
    ensures !SameJson(s, t)
  {
    assert Encode(s[c]).items[i] == Encode(a[i]);
    assert Encode(t[c]).items[i] == Encode(b[i]);
    if SameJson(s, t) {
      SameJsonAt(s, t, c);
    }
  }

  /** Appending a native array, or to one, leaves an element that differs from its durable counterpart for good. */
  lemma UnsteadyAppendDiffers(e: Value, u: Value, e': Value) returns (i: nat)
    requires Encode(e) == Encode(e') && (e' == NilList || JsonNormal(e'))
    requires !(Steady(e) && Steady(u)) && !Blank(e) && !Blank(u)
    ensures AppendReducer(e, u).List? && AppendReducer(e', Encode(u)).List?
    ensures DifferAt(AppendReducer(e, u).items, AppendReducer(e', Encode(u)).items, i)
  {
    AppendByLists(e, u);
    AppendByLists(e', Encode(u));
    DecodedList(e');
    EncodedElementsFixed(u);
    SteadyIffSameList(e);
    SteadyIffSameList(u);
    var a, b := AsList(e) + AsList(u), AsList(e') + AsList(Encode(u));
    if !Steady(e) {
      i := 0;
      assert a[0] == e && Encode(b[0]) == EncodeAll(AsList(e'))[0] == Encode(e).items[0];
      NoListHoldsItself(Encode(e).items, 0);
    } else {
      i := |AsList(e)|;
      assert |AsList(e')| == |EncodeAll(AsList(e))| == i;
      assert a[i] == u && Encode(b[i]) == EncodeAll(AsList(Encode(u)))[0] == Encode(u).items[0];
      NoListHoldsItself(Encode(u).items, 0);
    }
  }

  // ---------- whole runs, by their outcome ----------

  /** No reduced channel holds, or is updated with, a native value that JSON makes nothing of. */
  ghost predicate NotBlank(s: State, reducers: Reducers)
  {
    forall c :: c in s && c in reducers ==> !Blank(s[c])
  }

  ghost predicate NeverBlank(cg: CompiledGraph)
  {
    forall n, s :: n in cg.nodes && cg.nodes[n](s).Ok? ==> NotBlank(cg.nodes[n](s).value, cg.reducers)
  }

  lemma UnsteadyStepDiffers(cg: CompiledGraph, node: string, s: State, t: State) returns (c: string, i: nat)
    requires Appending(cg.reducers) && SameJson(s, t) && Decoded(t)
    requires NotBlank(s, cg.reducers) && NeverBlank(cg)
    requires RunNode(cg, node, s).Ok? && !SteadyStep(cg, node, s)
    ensures var u := RunNode(cg, node, s).value;
            var s', t' := Merged(s, u, cg.reducers), Merged(t, EncodeState(u), cg.reducers);
            && c in cg.reducers && c in s' && c in t' && s'[c].List? && t'[c].List?
            && DifferAt(s'[c].items, t'[c].items, i)
  {
    var u := RunNode(cg, node, s).value;
    assert NotBlank(u, cg.reducers);
    c :| c in u && !WritesSteady(s, u, cg.reducers, c);
    SameJsonAt(s, t, c);
    i := UnsteadyAppendDiffers(Existing(s, c), u[c], Existing(t, c));
  }

  /** Once an unsteady value was appended the two runs never agree again. */
  lemma UnsteadyStepParts(cg: CompiledGraph, node: string, s: State, t: State, step: nat, max: nat)
    requires StepsAgree(cg) && Appending(cg.reducers) && SameJson(s, t) && Decoded(t)
    requires NotBlank(s, cg.reducers) && NeverBlank(cg) && node != END && step < max
    requires !SteadyStep(cg, node, s) && RunFrom(cg, node, s, step, max).error == None
    ensures !SameOutcomeAsJson(RunFrom(cg, node, s, step, max), RunDurable(cg, node, t, step, max).progress, step)
  {
    assert StepAgrees(cg, node, s, t);
    var u := RunNode(cg, node, s).value;
    var s', t' := Merged(s, u, cg.reducers), Merged(t, EncodeState(u), cg.reducers);
    var c, i := UnsteadyStepDiffers(cg, node, s, t);
    RunKeepsHeld(cg, Next(cg, node, s').value, s', step + 1, max, c, s'[c].items);
    if Next(cg, node, t').Ok? {
      DurableRunKeepsHeld(cg, Next(cg, node, t').value, t', step + 1, max, c, t'[c].items);
      var p := RunDurable(cg, Next(cg, node, t').value, t', step + 1, max).progress;
      if p.Completed? {
        var final := RunFrom(cg, Next(cg, node, s').value, s', step + 1, max).state;
        HeldDifferenceShows(final, p.state, c, s'[c].items, t'[c].items, i);
      }
    }
  }

  lemma MergeStaysNotBlank(s: State, u: State, reducers: Reducers)
    requires Appending(reducers) && NotBlank(s, reducers)
    ensures NotBlank(Merged(s, u, reducers), reducers)
  {
  }

  lemma {:induction false} CompletedRunAgreesIffSteady(
      cg: CompiledGraph, node: string, s: State, t: State, step: nat, max: nat)
    requires StepsAgree(cg) && Appending(cg.reducers) && SameJson(s, t) && Decoded(t) && step <= max
    requires NotBlank(s, cg.reducers) && NeverBlank(cg)
    requires RunFrom(cg, node, s, step, max).error == None
    ensures SameOutcomeAsJson(RunFrom(cg, node, s, step, max), RunDurable(cg, node, t, step, max).progress, step)
            <==> SteadyRun(cg, node, s, step, max)
    decreases max - step
  {
    if node != END {
      assert StepAgrees(cg, node, s, t);
      var u := RunNode(cg, node, s).value;
      var s', t' := Merged(s, u, cg.reducers), Merged(t, EncodeState(u), cg.reducers);
      if SteadyStep(cg, node, s) {
        MergeStaysNotBlank(s, u, cg.reducers);
        CompletedRunAgreesIffSteady(cg, Next(cg, node, s').value, s', t', step + 1, max);
      } else {
        UnsteadyStepParts(cg, node, s, t, step, max);
      }
    }
  }

  /**
    Whole runs from the same input: on a blind graph with appending reducers, a run that completes in
    process completes durably with the same JSON exactly if it never appends a native array or to one.
   */
  lemma WorkflowAgreesIffSteady(cg: CompiledGraph, input: State, maxSteps: int)
    requires Blind(cg) && Appending(cg.reducers) && NeverBlank(cg) && NotBlank(input, cg.reducers)
    requires RunFrom(cg, cg.entry, input, 0, StepBound(maxSteps)).error == None
    ensures var max := StepBound(maxSteps);
            SameOutcomeAsJson(RunFrom(cg, cg.entry, input, 0, max),
                              CrashFree(Job(cg, EncodeState(input), max)).progress, 0)
            <==> SteadyRun(cg, cg.entry, input, 0, max)
  {
    BlindStepsAgree(cg);
    EncodedStateSameJson(input);
    EncodedIsDecoded(input);
    CompletedRunAgreesIffSteady(cg, cg.entry, input, EncodeState(input), 0, StepBound(maxSteps));
  }

  /** And a steady run ends alike however it ends: the same JSON, or the same error at the same step and node. */
  lemma SteadyWorkflowAgrees(cg: CompiledGraph, input: State, maxSteps: int)
    requires Blind(cg) && Appending(cg.reducers)
    requires SteadyRun(cg, cg.entry, input, 0, StepBound(maxSteps))
    ensures var max := StepBound(maxSteps);
            SameOutcomeAsJson(RunFrom(cg, cg.entry, input, 0, max),
                              CrashFree(Job(cg, EncodeState(input), max)).progress, 0)
  {
    BlindStepsAgree(cg);
    EncodedStateSameJson(input);
    EncodedIsDecoded(input);
    SteadyRunAgrees(cg, cg.entry, input, EncodeState(input), 0, StepBound(maxSteps));
  }

  /**
    Node by node the condition is exact without any restriction: on every blind graph with appending
    reducers the two runs have the same JSON at every node if and only if the in-process run is steady.
   */
  lemma WorkflowKeepsUpIffSteady(cg: CompiledGraph, input: State, maxSteps: int)
    requires Blind(cg) && Appending(cg.reducers)
    ensures var max := StepBound(maxSteps);
            Lockstep(cg, cg.entry, input, EncodeState(input), 0, max) <==> SteadyRun(cg, cg.entry, input, 0, max)
  {
    BlindStepsAgree(cg);
    EncodedStateSameJson(input);
    EncodedIsDecoded(input);
    LockstepIffSteady(cg, cg.entry, input, EncodeState(input), 0, StepBound(maxSteps));
  }
}
