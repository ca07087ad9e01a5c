/**
  The model/tool loop (adapters/langchaingo/tools.go): a model is called with a growing message history
  until it answers without asking for tools, for at most eight turns.
 */
module ToolLoop {
  import opened Outcomes

  const MAX_TOOL_TURNS := 8

  datatype ToolCall = ToolCall(id: string, name: string, arguments: string)

  datatype Message =
    | System(text: string)
    | Human(text: string)
    | Assistant(calls: seq<ToolCall>)
    | ToolResponse(callId: string, name: string, content: string)

  datatype Choice = Choice(content: string, toolCalls: seq<ToolCall>)

  datatype Error =
    | ModelFailed(reason: string)
    | NoChoices
    | UnknownTool(name: string)
    | BadArguments(name: string)
    | ToolFailed(reason: string)
    | TurnsExceeded

  /** The model's answer to a history, at a given turn. */
  type Model = (nat, seq<Message>) -> Result<seq<Choice>, string>

  /** A tool named in the list it came in; call is what it answers to its decoded arguments. */
  datatype Tool = Tool(name: string, call: string -> Result<string, string>)

  /** Which argument strings are valid JSON objects. */
  type Decoder = string -> bool

  type Toolbox = map<string, string -> Result<string, string>>

  /** Of several tools with one name the last counts. */
  function ByName(tools: seq<Tool>): Toolbox
  {
    if tools == [] then map[]
    else ByName(tools[..|tools| - 1])[tools[|tools| - 1].name := tools[|tools| - 1].call]
  }

  /** Tool i is the last one of its name. */
  ghost predicate IsLast(tools: seq<Tool>, i: int)
  {
    0 <= i < |tools| && forall j :: i < j < |tools| ==> tools[j].name != tools[i].name
  }

  lemma {:induction false} LastToolCounts(tools: seq<Tool>, i: int)
    requires IsLast(tools, i)
    ensures tools[i].name in ByName(tools) && ByName(tools)[tools[i].name] == tools[i].call
    decreases |tools|
  {
    var n := |tools| - 1;
    if i < n {
      assert tools[n].name != tools[i].name && tools[..n][i] == tools[i];
      LastToolCounts(tools[..n], i);
    }
  }

  lemma {:induction false} NamesAreTools(tools: seq<Tool>, name: string)
    requires name in ByName(tools)
    ensures exists i :: IsLast(tools, i) && tools[i].name == name
    decreases |tools|
  {
    var n := |tools| - 1;
    if tools[n].name == name {
      assert IsLast(tools, n);
    } else {
      NamesAreTools(tools[..n], name);
      var i :| IsLast(tools[..n], i) && tools[..n][i].name == name;
      assert forall j :: i < j < n ==> tools[..n][j] == tools[j];
      assert IsLast(tools, i);
    }
  }

  // ---------- what calls are answered with ----------

  /** The tool of a call is the last one of its name; no tool of that name means there is none. */
  ghost predicate IsToolOf(tools: seq<Tool>, c: ToolCall, i: int)
  {
    IsLast(tools, i) && tools[i].name == c.name
  }

  ghost predicate IsKnown(tools: seq<Tool>, c: ToolCall)
  {
    exists i :: 0 <= i < |tools| && tools[i].name == c.name
  }

  predicate Decodable(decodes: Decoder, c: ToolCall)
  {
    c.arguments == "" || decodes(c.arguments)
  }

  /** What the tool of a call returns on the call's own arguments. */
  ghost predicate Returns(tools: seq<Tool>, c: ToolCall, result: Result<string, string>)
  {
    exists i :: IsToolOf(tools, c, i) && tools[i].call(c.arguments) == result
  }

  /** A response to a call: its ID, its name, and what its tool returned. */
  ghost predicate IsAnswer(tools: seq<Tool>, decodes: Decoder, c: ToolCall, m: Message)
  {
    && m.ToolResponse? && m.callId == c.id && m.name == c.name
    && Decodable(decodes, c) && Returns(tools, c, Ok(m.content))
  }

  /** A call that cannot be answered: no such tool, arguments that do not decode, or a tool that fails. */
  ghost predicate FailsWith(tools: seq<Tool>, decodes: Decoder, c: ToolCall, e: Error)
  {
    || (e == UnknownTool(c.name) && !IsKnown(tools, c))
    || (e == BadArguments(c.name) && IsKnown(tools, c) && !Decodable(decodes, c))
    || (e.ToolFailed? && Decodable(decodes, c) && Returns(tools, c, Err(e.reason)))
  }

  /** One response per call, in the calls' order. */
  ghost predicate AnswersCalls(tools: seq<Tool>, decodes: Decoder, responses: seq<Message>, calls: seq<ToolCall>)
  {
    |responses| == |calls| && forall k :: 0 <= k < |calls| ==> IsAnswer(tools, decodes, calls[k], responses[k])
  }

  /** The first call that cannot be answered, and why. */
  ghost predicate FirstFailure(tools: seq<Tool>, decodes: Decoder, calls: seq<ToolCall>, i: int, e: Error)
  {
    && 0 <= i < |calls| && FailsWith(tools, decodes, calls[i], e)
    && exists before :: AnswersCalls(tools, decodes, before, calls[..i])
  }

  // ---------- what the loop computes ----------

  function Answer(tools: Toolbox, decodes: Decoder, c: ToolCall): Result<Message, Error>
  {
    if c.name !in tools then Err(UnknownTool(c.name))
    else if c.arguments != "" && !decodes(c.arguments) then Err(BadArguments(c.name))
    else match tools[c.name](c.arguments)
         case Ok(content) => Ok(ToolResponse(c.id, c.name, content))
         case Err(reason) => Err(ToolFailed(reason))
  }

  /** The responses to a turn's calls, in order, or the first error. */
  function Answers(tools: Toolbox, decodes: Decoder, calls: seq<ToolCall>): Result<seq<Message>, Error>
  {
    if calls == [] then Ok([])
    else match Answers(tools, decodes, calls[..|calls| - 1])
         case Err(e) => Err(e)
         case Ok(before) =>
           match Answer(tools, decodes, calls[|calls| - 1])
           case Err(e) => Err(e)
           case Ok(message) => Ok(before + [message])
  }

  /** A turn ends the loop, or extends the history. */
  datatype TurnEnd = Stop(result: Result<string, Error>) | Continue(msgs: seq<Message>)

  function Turn(model: Model, tools: Toolbox, decodes: Decoder, msgs: seq<Message>, turn: nat): TurnEnd
  {
    match model(turn, msgs)
    case Err(reason) => Stop(Err(ModelFailed(reason)))
    case Ok(choices) =>
      if choices == [] then Stop(Err(NoChoices))
      else if choices[0].toolCalls == [] then Stop(Ok(choices[0].content))
      else match Answers(tools, decodes, choices[0].toolCalls)
           case Err(e) => Stop(Err(e))
           case Ok(responses) => Continue(msgs + [Assistant(choices[0].toolCalls)] + responses)
  }

  /** What a run of the loop leaves: its result and the histories the model was called with. */
  datatype LoopRun = LoopRun(result: Result<string, Error>, histories: seq<seq<Message>>)

  /** What a turn does with the history it is given. */
  type Turner = (nat, seq<Message>) -> TurnEnd

  function TurnerOf(model: Model, tools: Toolbox, decodes: Decoder): Turner
  {
    (turn: nat, msgs) => Turn(model, tools, decodes, msgs, turn)
  }

  ghost predicate IsTurnOf(
      f: Turner, model: Model, tools: Toolbox, decodes: Decoder, turn: nat, msgs: seq<Message>)
  {
    f(turn, msgs) == Turn(model, tools, decodes, msgs, turn)
  }

  ghost predicate AreTurns(f: Turner, model: Model, tools: Toolbox, decodes: Decoder)
  {
    forall turn: nat, msgs :: IsTurnOf(f, model, tools, decodes, turn, msgs)
  }

  function LoopFrom(f: Turner, msgs: seq<Message>, turn: nat): LoopRun
    decreases MAX_TOOL_TURNS - turn
  {
    if turn >= MAX_TOOL_TURNS then LoopRun(Err(TurnsExceeded), [])
    else match f(turn, msgs)
         case Stop(result) => LoopRun(result, [msgs])
         case Continue(msgs') =>
           var rest := LoopFrom(f, msgs', turn + 1);
           LoopRun(rest.result, [msgs] + rest.histories)
  }

  function Opening(system: string, prompt: string): seq<Message>
  {
    (if system != "" then [System(system)] else []) + [Human(prompt)]
  }

  // ---------- the node ----------

  /** The names are those of the tools, and each leads to the last tool that carries it. */
  method IndexTools(tools: seq<Tool>) returns (byName: Toolbox)
    ensures forall name :: name in byName ==> exists i :: IsLast(tools, i) && tools[i].name == name
    ensures forall i :: IsLast(tools, i) ==> tools[i].name in byName && byName[tools[i].name] == tools[i].call
    ensures byName == ByName(tools)
  {
    byName := map[];
    for i := 0 to |tools|
      invariant byName == ByName(tools[..i])
    {
      assert tools[..i + 1][..i] == tools[..i];
      byName := byName[tools[i].name := tools[i].call];
    }
    assert tools[..|tools|] == tools;
    forall name | name in byName ensures exists i :: IsLast(tools, i) && tools[i].name == name {
      NamesAreTools(tools, name);
    }
    forall i | IsLast(tools, i) ensures tools[i].name in byName && byName[tools[i].name] == tools[i].call {
      LastToolCounts(tools, i);
    }
  }

  lemma AnswerIsTheTools(tools: seq<Tool>, decodes: Decoder, c: ToolCall)
    ensures var a := Answer(ByName(tools), decodes, c);
            if a.Ok? then IsAnswer(tools, decodes, c, a.value) else FailsWith(tools, decodes, c, a.error)
  {
    var byName := ByName(tools);
    if c.name in byName {
      NamesAreTools(tools, c.name);
      var i :| IsLast(tools, i) && tools[i].name == c.name;
      LastToolCounts(tools, i);
      assert IsToolOf(tools, c, i);
    } else if IsKnown(tools, c) {
      LastOfName(tools, c.name);
    }
  }

  lemma {:induction false} LastOfName(tools: seq<Tool>, name: string)
    requires exists i :: 0 <= i < |tools| && tools[i].name == name
    ensures name in ByName(tools)
  {
    var n := |tools| - 1;
    if tools[n].name != name {
      var i :| 0 <= i < |tools| && tools[i].name == name;
      assert tools[..n][i] == tools[i];
      LastOfName(tools[..n], name);
    }
  }

  lemma {:induction false} AnswersAreTheTools(tools: seq<Tool>, decodes: Decoder, calls: seq<ToolCall>)
    ensures var a := Answers(ByName(tools), decodes, calls);
            if a.Ok? then AnswersCalls(tools, decodes, a.value, calls)
            else exists i :: FirstFailure(tools, decodes, calls, i, a.error)
  {
    if calls != [] {
      var n := |calls| - 1;
      AnswersAreTheTools(tools, decodes, calls[..n]);
      match Answers(ByName(tools), decodes, calls[..n])
      case Err(e) =>
        var i :| FirstFailure(tools, decodes, calls[..n], i, e);
        assert calls[..n][..i] == calls[..i];
        assert FirstFailure(tools, decodes, calls, i, e);
      case Ok(before) =>
        AnswerIsTheTools(tools, decodes, calls[n]);
        if Answer(ByName(tools), decodes, calls[n]).Err? {
          assert FirstFailure(tools, decodes, calls, n, Answer(ByName(tools), decodes, calls[n]).error);
        }
    }
  }

  /** Runs the tools of one turn in order, appending each response to the history. */
  method AppendResponses(tools: Toolbox, decodes: Decoder, calls: seq<ToolCall>, msgs: seq<Message>)
    returns (extended: seq<Message>, error: Option<Error>)
    ensures match Answers(tools, decodes, calls)
            case Ok(responses) => error == None && extended == msgs + responses
            case Err(e) => error == Some(e)
  {
    extended := msgs;
    for i := 0 to |calls|
      invariant Answers(tools, decodes, calls[..i]).Ok?
      invariant extended == msgs + Answers(tools, decodes, calls[..i]).value
    {
      var tc := calls[i];
      assert calls[..i + 1][..i] == calls[..i];
      if tc.name !in tools {
        ErrorsStick(tools, decodes, calls, i);
        return extended, Some(UnknownTool(tc.name));
      }
      if tc.arguments != "" && !decodes(tc.arguments) {
        ErrorsStick(tools, decodes, calls, i);
        return extended, Some(BadArguments(tc.name));
      }
      var result := tools[tc.name](tc.arguments);
      if result.Err? {
        ErrorsStick(tools, decodes, calls, i);
        return extended, Some(ToolFailed(result.error));
      }
      extended := extended + [ToolResponse(tc.id, tc.name, result.value)];
    }
    assert calls[..|calls|] == calls;
    error := None;
  }

  lemma {:induction false} ErrorsStick(tools: Toolbox, decodes: Decoder, calls: seq<ToolCall>, i: nat)
    requires i < |calls| && Answers(tools, decodes, calls[..i]).Ok? && Answer(tools, decodes, calls[i]).Err?
    ensures Answers(tools, decodes, calls) == Err(Answer(tools, decodes, calls[i]).error)
    decreases |calls|
  {
    var n := |calls| - 1;
    if i < n {
      assert calls[..n][..i] == calls[..i] && calls[..n][i] == calls[i];
      ErrorsStick(tools, decodes, calls[..n], i);
    } else {
      assert calls[..n] == calls[..i];
    }
  }

  /** In terms of the tools themselves: all calls answered in order, or the first that cannot be. */
  method RunTools(
      tools: Toolbox, decodes: Decoder, calls: seq<ToolCall>, msgs: seq<Message>, ghost list: seq<Tool>)
    returns (extended: seq<Message>, error: Option<Error>)
    requires tools == ByName(list)
    ensures error.None? ==>
              exists responses :: AnswersCalls(list, decodes, responses, calls) && extended == msgs + responses
    ensures error.Some? ==> exists i :: FirstFailure(list, decodes, calls, i, error.value)
    ensures match Answers(tools, decodes, calls)
            case Ok(responses) => error == None && extended == msgs + responses
            case Err(e) => error == Some(e)
  {
    extended, error := AppendResponses(tools, decodes, calls, msgs);
    AnswersAreTheTools(list, decodes, calls);
  }

  /** One turn of the loop: call the model, then run the tools it asks for. */
  method RunTurn(model: Model, tools: Toolbox, decodes: Decoder, msgs: seq<Message>, turn: nat,
                 ghost list: seq<Tool>, ghost f: Turner)
    returns (end: TurnEnd)
    requires AreTurns(f, model, tools, decodes) && tools == ByName(list)
    ensures end == f(turn, msgs)
  {
    assert IsTurnOf(f, model, tools, decodes, turn, msgs);
    var response := model(turn, msgs);
    if response.Err? {
      return Stop(Err(ModelFailed(response.error)));
    }
    if |response.value| == 0 {
      return Stop(Err(NoChoices));
    }
    var choice := response.value[0];
    if |choice.toolCalls| == 0 {
      return Stop(Ok(choice.content));
    }
    var extended, error := RunTools(tools, decodes, choice.toolCalls, msgs + [Assistant(choice.toolCalls)], list);
    if error.Some? {
      return Stop(Err(error.value));
    }
    return Continue(extended);
  }

  /** A run that was preceded by model calls on the given histories. */
  ghost function Preceded(earlier: seq<seq<Message>>, run: LoopRun): LoopRun
  {
    LoopRun(run.result, earlier + run.histories)
  }

  lemma OneTurnOn(f: Turner, earlier: seq<seq<Message>>, msgs: seq<Message>, turn: nat)
    requires turn < MAX_TOOL_TURNS
    ensures Preceded(earlier, LoopFrom(f, msgs, turn)) ==
            match f(turn, msgs)
            case Stop(result) => LoopRun(result, earlier + [msgs])
            case Continue(msgs') => Preceded(earlier + [msgs], LoopFrom(f, msgs', turn + 1))
  {
    if f(turn, msgs).Continue? {
      var later := LoopFrom(f, f(turn, msgs).msgs, turn + 1).histories;
      assert earlier + ([msgs] + later) == earlier + [msgs] + later;
    }
  }

  /** The bounded loop, over turns it knows nothing about but that RunTurn carries them out. */
  method RunLoop(model: Model, tools: Toolbox, decodes: Decoder, opening: seq<Message>,
                 ghost list: seq<Tool>, ghost f: Turner)
    returns (result: Result<string, Error>, histories: seq<seq<Message>>)
    requires AreTurns(f, model, tools, decodes) && tools == ByName(list)
    ensures LoopRun(result, histories) == LoopFrom(f, opening, 0)
  {
    var turn, msgs := 0, opening;
    histories := [];
    ghost var whole := LoopFrom(f, msgs, turn);
    while turn < MAX_TOOL_TURNS
      invariant turn <= MAX_TOOL_TURNS
      invariant whole == Preceded(histories, LoopFrom(f, msgs, turn))
    {
      OneTurnOn(f, histories, msgs, turn);
      var end := RunTurn(model, tools, decodes, msgs, turn, list, f);
      histories := histories + [msgs];
      if end.Stop? {
        return end.result, histories;
      }
      msgs := end.msgs;
      turn := turn + 1;
    }
    return Err(TurnsExceeded), histories;
  }

  method ToolModelNode(model: Model, tools: seq<Tool>, decodes: Decoder, system: string, prompt: string)
    returns (result: Result<string, Error>, histories: seq<seq<Message>>)
    ensures LoopRun(result, histories) == LoopFrom(TurnerOf(model, ByName(tools), decodes), Opening(system, prompt), 0)
  {
    var byName := IndexTools(tools);
    var msgs: seq<Message> := [];
    if system != "" {
      msgs := msgs + [System(system)];
    }
    msgs := msgs + [Human(prompt)];
    assert msgs == Opening(system, prompt);
    ghost var f := TurnerOf(model, byName, decodes);
    assert AreTurns(f, model, byName, decodes);
    result, histories := RunLoop(model, byName, decodes, msgs, tools, f);
  }

  // ---------- one turn, in terms of the model and the tools ----------

  /** A history is another one with a request and the answers to its calls. */
  ghost predicate Extends(tools: seq<Tool>, decodes: Decoder, msgs: seq<Message>, calls: seq<ToolCall>,
                          responses: seq<Message>, longer: seq<Message>)
  {
    AnswersCalls(tools, decodes, responses, calls) && longer == msgs + [Assistant(calls)] + responses
  }

  /** A turn goes on: the model asked for tools, and its request and their answers are added to the history. */
  ghost predicate GoesOn(
      model: Model, tools: seq<Tool>, decodes: Decoder, turn: nat, msgs: seq<Message>, longer: seq<Message>)
  {
    && model(turn, msgs).Ok? && model(turn, msgs).value != []
    && var calls := model(turn, msgs).value[0].toolCalls;
       && calls != []
       && exists responses :: Extends(tools, decodes, msgs, calls, responses, longer)
  }

  /** A turn ends the loop: the model failed, had nothing to say, answered, or asked for what cannot be answered. */
  ghost predicate EndsWith(
      model: Model, tools: seq<Tool>, decodes: Decoder, turn: nat, msgs: seq<Message>, result: Result<string, Error>)
  {
    match model(turn, msgs)
    case Err(reason) => result == Err(ModelFailed(reason))
    case Ok(choices) =>
      if choices == [] then result == Err(NoChoices)
      else if choices[0].toolCalls == [] then result == Ok(choices[0].content)
      else result.Err? && exists i :: FirstFailure(tools, decodes, choices[0].toolCalls, i, result.error)
  }

  /** What a turn does, said without its own functions. */
  lemma TurnIsTheTools(model: Model, tools: seq<Tool>, decodes: Decoder, msgs: seq<Message>, turn: nat)
    ensures var end := Turn(model, ByName(tools), decodes, msgs, turn);
            if end.Stop? then EndsWith(model, tools, decodes, turn, msgs, end.result)
            else GoesOn(model, tools, decodes, turn, msgs, end.msgs)
  {
    if model(turn, msgs).Ok? && model(turn, msgs).value != [] {
      var calls := model(turn, msgs).value[0].toolCalls;
      AnswersAreTheTools(tools, decodes, calls);
      var end := Turn(model, ByName(tools), decodes, msgs, turn);
      if end.Continue? {
        assert Extends(tools, decodes, msgs, calls, Answers(ByName(tools), decodes, calls).value, end.msgs);
      }
    }
  }

  // ---------- answers are unique ----------

  lemma ToolsReturnOnce(tools: seq<Tool>, c: ToolCall, a: Result<string, string>, b: Result<string, string>)
    requires Returns(tools, c, a) && Returns(tools, c, b)
    ensures a == b && IsKnown(tools, c)
  {
    var i :| IsToolOf(tools, c, i) && tools[i].call(c.arguments) == a;
    var j :| IsToolOf(tools, c, j) && tools[j].call(c.arguments) == b;
    LastToolCounts(tools, i);
    LastToolCounts(tools, j);
    assert tools[i].name == c.name;
  }

  /** A call is answered in one way or fails in one way, never both. */
  lemma AnswersAreUnique(tools: seq<Tool>, decodes: Decoder, c: ToolCall, m: Message, m': Message, e: Error, e': Error)
    ensures IsAnswer(tools, decodes, c, m) && IsAnswer(tools, decodes, c, m') ==> m == m'
    ensures FailsWith(tools, decodes, c, e) && FailsWith(tools, decodes, c, e') ==> e == e'
    ensures !(IsAnswer(tools, decodes, c, m) && FailsWith(tools, decodes, c, e))
  {
    if IsAnswer(tools, decodes, c, m) && IsAnswer(tools, decodes, c, m') {
      ToolsReturnOnce(tools, c, Ok(m.content), Ok(m'.content));
    }
    if FailsWith(tools, decodes, c, e) && FailsWith(tools, decodes, c, e') {
      if e.ToolFailed? { ToolsReturnOnce(tools, c, Err(e.reason), Err(e.reason)); }
      if e'.ToolFailed? { ToolsReturnOnce(tools, c, Err(e'.reason), Err(e'.reason)); }
      if e.ToolFailed? && e'.ToolFailed? { ToolsReturnOnce(tools, c, Err(e.reason), Err(e'.reason)); }
    }
    if IsAnswer(tools, decodes, c, m) {
      ToolsReturnOnce(tools, c, Ok(m.content), Ok(m.content));
    }
  }

  /** A turn that asks for tools stops exactly if some call cannot be answered; the first such call decides. */
  lemma ToolTurnStopsIff(model: Model, tools: seq<Tool>, decodes: Decoder, msgs: seq<Message>, turn: nat)
    requires model(turn, msgs).Ok? && model(turn, msgs).value != [] && model(turn, msgs).value[0].toolCalls != []
    ensures var calls := model(turn, msgs).value[0].toolCalls;
            Turn(model, ByName(tools), decodes, msgs, turn).Stop? <==>
              exists i, e :: 0 <= i < |calls| && FailsWith(tools, decodes, calls[i], e)
  {
    var calls := model(turn, msgs).value[0].toolCalls;
    TurnIsTheTools(model, tools, decodes, msgs, turn);
    if Turn(model, ByName(tools), decodes, msgs, turn).Stop? {
      var e := Turn(model, ByName(tools), decodes, msgs, turn).result.error;
      var i :| FirstFailure(tools, decodes, calls, i, e);
      assert FailsWith(tools, decodes, calls[i], e);
    } else {
      var longer := Turn(model, ByName(tools), decodes, msgs, turn).msgs;
      var responses :| Extends(tools, decodes, msgs, calls, responses, longer);
      forall i, e | 0 <= i < |calls| ensures !FailsWith(tools, decodes, calls[i], e) {
        AnswersAreUnique(tools, decodes, calls[i], responses[i], responses[i], e, e);
      }
    }
  }

  // ---------- well-formed histories ----------

  /** A tool-call turn followed by its responses. */
  ghost predicate IsTurn(tools: seq<Tool>, decodes: Decoder, part: seq<Message>)
  {
    && part != [] && part[0].Assistant? && part[0].calls != []
    && AnswersCalls(tools, decodes, part[1..], part[0].calls)
  }

  function FlattenTurns(turns: seq<seq<Message>>): seq<Message>
  {
    if turns == [] then [] else FlattenTurns(turns[..|turns| - 1]) + turns[|turns| - 1]
  }

  /** How every history starts: the system message if there is one, then the prompt. */
  ghost predicate Opens(system: string, prompt: string, msgs: seq<Message>)
  {
    msgs == if system == "" then [Human(prompt)] else [System(system), Human(prompt)]
  }

  lemma OpeningOpens(system: string, prompt: string)
    ensures Opens(system, prompt, Opening(system, prompt))
  {
  }

  /** The opening followed by a number of complete tool-call turns. */
  ghost predicate WellFormed(tools: seq<Tool>, decodes: Decoder, system: string, prompt: string, msgs: seq<Message>,
                             turns: seq<seq<Message>>)
  {
    && (exists opening :: Opens(system, prompt, opening) && msgs == opening + FlattenTurns(turns))
    && forall k :: 0 <= k < |turns| ==> IsTurn(tools, decodes, turns[k])
  }

  /** The opening and exactly n complete tool-call turns. */
  ghost predicate HasTurns(
      tools: seq<Tool>, decodes: Decoder, system: string, prompt: string, msgs: seq<Message>, n: nat)
  {
    exists turns :: |turns| == n && WellFormed(tools, decodes, system, prompt, msgs, turns)
  }

  lemma AskedAndAnsweredIsATurn(tools: seq<Tool>, decodes: Decoder, calls: seq<ToolCall>, responses: seq<Message>)
    requires calls != [] && AnswersCalls(tools, decodes, responses, calls)
    ensures IsTurn(tools, decodes, [Assistant(calls)] + responses)
  {
    assert ([Assistant(calls)] + responses)[1..] == responses;
  }

  lemma FlattenOneMore(opening: seq<Message>, turns: seq<seq<Message>>, turn: seq<Message>)
    ensures opening + FlattenTurns(turns + [turn]) == opening + FlattenTurns(turns) + turn
  {
    assert (turns + [turn])[..|turns|] == turns;
    assert opening + (FlattenTurns(turns) + turn) == opening + FlattenTurns(turns) + turn;
  }

  /** The history stays well formed with one more turn. */
  lemma OneMoreTurn(tools: seq<Tool>, decodes: Decoder, system: string, prompt: string, msgs: seq<Message>,
                    turns: seq<seq<Message>>, turn: seq<Message>)
    requires WellFormed(tools, decodes, system, prompt, msgs, turns) && IsTurn(tools, decodes, turn)
    ensures WellFormed(tools, decodes, system, prompt, msgs + turn, turns + [turn])
  {
    var opening :| Opens(system, prompt, opening) && msgs == opening + FlattenTurns(turns);
    FlattenOneMore(opening, turns, turn);
    assert msgs + turn == opening + FlattenTurns(turns + [turn]);
  }

  lemma OneMoreHasOneMore(tools: seq<Tool>, decodes: Decoder, system: string, prompt: string, msgs: seq<Message>,
                          n: nat, turn: seq<Message>)
    requires HasTurns(tools, decodes, system, prompt, msgs, n) && IsTurn(tools, decodes, turn)
    ensures HasTurns(tools, decodes, system, prompt, msgs + turn, n + 1)
  {
    var turns :| |turns| == n && WellFormed(tools, decodes, system, prompt, msgs, turns);
    OneMoreTurn(tools, decodes, system, prompt, msgs, turns, turn);
    assert |turns + [turn]| == n + 1;
  }

  /** Going on adds exactly a request and its answers. */
  lemma GoingOnIsATurn(model: Model, tools: seq<Tool>, decodes: Decoder, turn: nat, msgs: seq<Message>,
                       longer: seq<Message>) returns (part: seq<Message>)
    requires GoesOn(model, tools, decodes, turn, msgs, longer)
    ensures IsTurn(tools, decodes, part) && longer == msgs + part
  {
    var calls := model(turn, msgs).value[0].toolCalls;
    var responses :| Extends(tools, decodes, msgs, calls, responses, longer);
    part := [Assistant(calls)] + responses;
    AskedAndAnsweredIsATurn(tools, decodes, calls, responses);
    assert msgs + [Assistant(calls)] + responses == msgs + part;
  }

  lemma GoingOnAddsATurn(model: Model, tools: seq<Tool>, decodes: Decoder, system: string, prompt: string,
                         turn: nat, msgs: seq<Message>, longer: seq<Message>)
    requires HasTurns(tools, decodes, system, prompt, msgs, turn)
    requires GoesOn(model, tools, decodes, turn, msgs, longer)
    ensures msgs < longer && HasTurns(tools, decodes, system, prompt, longer, turn + 1)
  {
    var part := GoingOnIsATurn(model, tools, decodes, turn, msgs, longer);
    OneMoreHasOneMore(tools, decodes, system, prompt, msgs, turn, part);
  }

  /** The model's first choice asks for no tool. */
  predicate FinalAnswer(answer: Result<seq<Choice>, string>)
  {
    answer.Ok? && answer.value != [] && answer.value[0].toolCalls == []
  }

  // ---------- the whole loop ----------

  /** A property of histories that holds at a turn still holds, of a longer history, at the next. */
  ghost predicate Carries(f: Turner, good: (nat, seq<Message>) -> bool)
  {
    forall turn: nat, msgs :: good(turn, msgs) && f(turn, msgs).Continue? ==>
      msgs < f(turn, msgs).msgs && good(turn + 1, f(turn, msgs).msgs)
  }

  /** One history follows from another by the turn at number k. */
  ghost predicate Follows(f: Turner, k: nat, msgs: seq<Message>, longer: seq<Message>)
  {
    f(k, msgs) == Continue(longer)
  }

  /** Histories from a turn on with a property, each extending the previous one by its turn. */
  ghost predicate Kept(f: Turner, good: (nat, seq<Message>) -> bool, h: seq<seq<Message>>, turn: nat)
  {
    && (forall k :: 0 <= k < |h| ==> good(turn + k, h[k]))
    && (forall k :: 0 < k < |h| ==> h[k - 1] < h[k] && Follows(f, turn + k - 1, h[k - 1], h[k]))
  }

  lemma KeptInFront(f: Turner, good: (nat, seq<Message>) -> bool, msgs: seq<Message>, h: seq<seq<Message>>, turn: nat)
    requires Kept(f, good, h, turn + 1) && good(turn, msgs)
    requires h != [] ==> msgs < h[0] && Follows(f, turn, msgs, h[0])
    ensures Kept(f, good, [msgs] + h, turn)
  {
    var all := [msgs] + h;
    forall k | 0 <= k < |all| ensures good(turn + k, all[k]) {
      if k > 0 { assert good(turn + 1 + (k - 1), h[k - 1]); }
    }
    forall k | 0 < k < |all| ensures all[k - 1] < all[k] && Follows(f, turn + k - 1, all[k - 1], all[k]) {
      if k > 1 { assert Follows(f, turn + 1 + (k - 1) - 1, h[k - 2], h[k - 1]); }
    }
  }

  /** Such a property holds at every model call, and each history extends the previous one by its turn. */
  lemma {:induction false} HistoriesKeep(
      f: Turner, good: (nat, seq<Message>) -> bool, msgs: seq<Message>, turn: nat)
    requires Carries(f, good) && good(turn, msgs) && turn <= MAX_TOOL_TURNS
    ensures var h := LoopFrom(f, msgs, turn).histories;
            turn + |h| <= MAX_TOOL_TURNS && Kept(f, good, h, turn) && (h != [] ==> h[0] == msgs)
    decreases MAX_TOOL_TURNS - turn
  {
    if turn < MAX_TOOL_TURNS && f(turn, msgs).Continue? {
      var msgs' := f(turn, msgs).msgs;
      HistoriesKeep(f, good, msgs', turn + 1);
      KeptInFront(f, good, msgs, LoopFrom(f, msgs', turn + 1).histories, turn);
    }
  }

  /** How a run ended, seen from the turn of its last model call. */
  ghost predicate EndsLike(f: Turner, run: LoopRun, first: nat)
  {
    && run.histories != []
    && var n := |run.histories| - 1;
       var last := f(first + n, run.histories[n]);
       if last.Stop? then run.result == last.result
       else run.result == Err(TurnsExceeded) && first + n + 1 == MAX_TOOL_TURNS
  }

  lemma EndsLikeTheRest(f: Turner, msgs: seq<Message>, rest: LoopRun, first: nat)
    requires EndsLike(f, rest, first + 1)
    ensures EndsLike(f, LoopRun(rest.result, [msgs] + rest.histories), first)
  {
    var n := |rest.histories|;
    assert ([msgs] + rest.histories)[n] == rest.histories[n - 1];
  }

  /** The loop ends with its last turn's result, or for want of turns after all eight. */
  lemma {:induction false} LastTurnDecides(f: Turner, msgs: seq<Message>, turn: nat)
    requires turn < MAX_TOOL_TURNS
    ensures EndsLike(f, LoopFrom(f, msgs, turn), turn)
    decreases MAX_TOOL_TURNS - turn
  {
    if f(turn, msgs).Continue? && turn + 1 < MAX_TOOL_TURNS {
      var msgs' := f(turn, msgs).msgs;
      LastTurnDecides(f, msgs', turn + 1);
      EndsLikeTheRest(f, msgs, LoopFrom(f, msgs', turn + 1), turn);
    }
  }

  /** What is true of a history after n tool-call turns. */
  ghost function Expected(
      tools: seq<Tool>, decodes: Decoder, system: string, prompt: string): (nat, seq<Message>) -> bool
  {
    (n: nat, msgs) => HasTurns(tools, decodes, system, prompt, msgs, n)
  }

  lemma OneTurnCarries(f: Turner, model: Model, tools: seq<Tool>, decodes: Decoder, system: string, prompt: string,
                       turn: nat, msgs: seq<Message>)
    requires AreTurns(f, model, ByName(tools), decodes)
    requires HasTurns(tools, decodes, system, prompt, msgs, turn) && f(turn, msgs).Continue?
    ensures msgs < f(turn, msgs).msgs
    ensures HasTurns(tools, decodes, system, prompt, f(turn, msgs).msgs, turn + 1)
  {
    assert IsTurnOf(f, model, ByName(tools), decodes, turn, msgs);
    TurnIsTheTools(model, tools, decodes, msgs, turn);
    GoingOnAddsATurn(model, tools, decodes, system, prompt, turn, msgs, f(turn, msgs).msgs);
  }

  lemma TurnsAreCarried(
      f: Turner, model: Model, tools: seq<Tool>, decodes: Decoder, system: string, prompt: string)
    requires AreTurns(f, model, ByName(tools), decodes)
    ensures Carries(f, Expected(tools, decodes, system, prompt))
  {
    forall turn: nat, msgs | HasTurns(tools, decodes, system, prompt, msgs, turn) && f(turn, msgs).Continue?
      ensures msgs < f(turn, msgs).msgs
      ensures HasTurns(tools, decodes, system, prompt, f(turn, msgs).msgs, turn + 1)
    {
      OneTurnCarries(f, model, tools, decodes, system, prompt, turn, msgs);
    }
  }

  lemma OpeningIsExpected(tools: seq<Tool>, decodes: Decoder, system: string, prompt: string)
    ensures Expected(tools, decodes, system, prompt)(0, Opening(system, prompt))
  {
    OpeningOpens(system, prompt);
    assert Opening(system, prompt) + FlattenTurns([]) == Opening(system, prompt);
    assert WellFormed(tools, decodes, system, prompt, Opening(system, prompt), []);
  }

  lemma FollowingIsGoingOn(f: Turner, model: Model, tools: seq<Tool>, decodes: Decoder,
                           k: nat, msgs: seq<Message>, longer: seq<Message>)
    requires AreTurns(f, model, ByName(tools), decodes) && Follows(f, k, msgs, longer)
    ensures GoesOn(model, tools, decodes, k, msgs, longer)
  {
    assert IsTurnOf(f, model, ByName(tools), decodes, k, msgs);
    TurnIsTheTools(model, tools, decodes, msgs, k);
  }

  /**
    Histories as they should be, from a given number of turns on: each has the opening and as many
    complete tool-call turns as its number, and each is the previous one with what the model asked for on
    it and what the last tools of those names returned on the calls' arguments.
   */
  ghost predicate WellGrown(model: Model, tools: seq<Tool>, decodes: Decoder, system: string, prompt: string,
                            h: seq<seq<Message>>, turn: nat)
  {
    && (forall k :: 0 <= k < |h| ==> HasTurns(tools, decodes, system, prompt, h[k], turn + k))
    && (forall k :: 0 < k < |h| ==> h[k - 1] < h[k])
    && (forall k :: 0 < k < |h| ==> GoesOn(model, tools, decodes, turn + k - 1, h[k - 1], h[k]))
  }

  lemma FollowingHistoriesAreWellGrown(f: Turner, model: Model, tools: seq<Tool>, decodes: Decoder,
                                       system: string, prompt: string, h: seq<seq<Message>>, turn: nat)
    requires AreTurns(f, model, ByName(tools), decodes)
    requires forall k :: 0 <= k < |h| ==> Expected(tools, decodes, system, prompt)(turn + k, h[k])
    requires forall k :: 0 < k < |h| ==> h[k - 1] < h[k] && Follows(f, turn + k - 1, h[k - 1], h[k])
    ensures WellGrown(model, tools, decodes, system, prompt, h, turn)
  {
    forall k | 0 <= k < |h| ensures HasTurns(tools, decodes, system, prompt, h[k], turn + k) {
      assert Expected(tools, decodes, system, prompt)(turn + k, h[k]);
    }
    forall k | 0 < k < |h| ensures GoesOn(model, tools, decodes, turn + k - 1, h[k - 1], h[k]) {
      FollowingIsGoingOn(f, model, tools, decodes, turn + k - 1, h[k - 1], h[k]);
    }
  }

  lemma HistoriesGrowWell(f: Turner, model: Model, tools: seq<Tool>, decodes: Decoder, system: string, prompt: string,
                          msgs: seq<Message>, turn: nat)
    requires AreTurns(f, model, ByName(tools), decodes)
    requires Expected(tools, decodes, system, prompt)(turn, msgs) && turn < MAX_TOOL_TURNS
    ensures var h := LoopFrom(f, msgs, turn).histories;
            && 1 <= |h| && turn + |h| <= MAX_TOOL_TURNS && h[0] == msgs
            && WellGrown(model, tools, decodes, system, prompt, h, turn)
  {
    TurnsAreCarried(f, model, tools, decodes, system, prompt);
    HistoriesKeep(f, Expected(tools, decodes, system, prompt), msgs, turn);
    LastTurnDecides(f, msgs, turn);
    var h := LoopFrom(f, msgs, turn).histories;
    FollowingHistoriesAreWellGrown(f, model, tools, decodes, system, prompt, h, turn);
  }

  /** At every model call the history is as it should be; there are between one and eight. */
  lemma HistoriesAreWellFormed(model: Model, tools: seq<Tool>, decodes: Decoder, system: string, prompt: string)
    ensures var h := LoopFrom(TurnerOf(model, ByName(tools), decodes), Opening(system, prompt), 0).histories;
            && 1 <= |h| <= 8 && Opens(system, prompt, h[0])
            && WellGrown(model, tools, decodes, system, prompt, h, 0)
  {
    OpeningIsExpected(tools, decodes, system, prompt);
    OpeningOpens(system, prompt);
    var f := TurnerOf(model, ByName(tools), decodes);
    assert AreTurns(f, model, ByName(tools), decodes);
    HistoriesGrowWell(f, model, tools, decodes, system, prompt, Opening(system, prompt), 0);
  }

  /** How a loop may end, by its last history. */
  ghost predicate EndsAsItShould(model: Model, tools: seq<Tool>, decodes: Decoder, run: LoopRun)
  {
    && run.histories != []
    && var n := |run.histories| - 1;
       || EndsWith(model, tools, decodes, n, run.histories[n], run.result)
       || (run.result == Err(TurnsExceeded) && n + 1 == 8
             && exists longer :: GoesOn(model, tools, decodes, n, run.histories[n], longer))
  }

  /** Reading the result off the last turn. */
  lemma EndingTellsResult(f: Turner, model: Model, tools: seq<Tool>, decodes: Decoder, run: LoopRun)
    requires AreTurns(f, model, ByName(tools), decodes) && EndsLike(f, run, 0)
    ensures EndsAsItShould(model, tools, decodes, run)
  {
    var n := |run.histories| - 1;
    assert IsTurnOf(f, model, ByName(tools), decodes, 0 + n, run.histories[n]);
    TurnIsTheTools(model, tools, decodes, run.histories[n], n);
  }

  /** Success is exactly an answer without tool calls, and its content. */
  lemma SuccessIsTheFinalAnswer(model: Model, tools: seq<Tool>, decodes: Decoder, run: LoopRun)
    requires EndsAsItShould(model, tools, decodes, run)
    ensures var n := |run.histories| - 1; var answer := model(n, run.histories[n]);
            && (run.result.Ok? <==> FinalAnswer(answer))
            && (run.result.Ok? ==> run.result.value == answer.value[0].content)
  {
  }

  /**
    How a node ends, by the model's answer to the last history: with that answer's content if it asks for
    no tool, with the model's own failure, with the first call of it that cannot be answered, or for want
    of turns after eight answers that all asked for tools and got them.
   */
  lemma ResultIsTheLastAnswer(model: Model, tools: seq<Tool>, decodes: Decoder, system: string, prompt: string)
    ensures var run := LoopFrom(TurnerOf(model, ByName(tools), decodes), Opening(system, prompt), 0);
            EndsAsItShould(model, tools, decodes, run)
  {
    var f := TurnerOf(model, ByName(tools), decodes);
    assert AreTurns(f, model, ByName(tools), decodes);
    ResultOf(f, model, tools, decodes, Opening(system, prompt));
  }

  lemma ResultOf(f: Turner, model: Model, tools: seq<Tool>, decodes: Decoder, msgs: seq<Message>)
    requires AreTurns(f, model, ByName(tools), decodes)
    ensures EndsAsItShould(model, tools, decodes, LoopFrom(f, msgs, 0))
  {
    LastTurnDecides(f, msgs, 0);
    EndingTellsResult(f, model, tools, decodes, LoopFrom(f, msgs, 0));
  }
}
