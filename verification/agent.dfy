/**
  `Novagent` (novagent/agent.py): the older, synchronous agent loop. It
  asks the model for a whole reply at once, extracts the code up to the
  `<end_code>` tag, and differs from the session in three ways: a reply
  without code does not stop the loop, a final answer stops it before any
  observation is appended, and the observation glues stdout and stderr
  together with nothing in between.

  The model is an oracle from the history and the pass number to a reply
  (`None` standing for Python's `None`): the pass number stands for the
  sampling that lets the same history get a different reply on a retry.
  The loop that may spin forever runs on fuel.
 */
module Agent {
  import opened Wrappers
  import opened Strings
  import Fences
  import opened Conversation
  import opened Context
  import Session
  import SessionLoop

  datatype Novagent = Novagent(
    systemPrompt: string,
    nsteps: nat,
    history: seq<Turn>,
    context: PythonContext)

  /**
    `self.model`: the history and the number of the pass asking in, a reply
    out. A sampling model may answer the same history differently each time
    it is asked; the pass number is what tells those calls apart.
   */
  type Model = (seq<Turn>, nat) -> Option<string>

  const NoResponseMessage := "No response from model."

  /**
    `Novagent(model, context, ...)`: the context defaults to a fresh one
    (a `PythonContext` object is always truthy), then `clear()` runs. The
    rendered system prompt is a parameter.
   */
  function NewAgent(systemPrompt: string, context: Option<PythonContext>): (a: Novagent)
    ensures a.systemPrompt == systemPrompt
    ensures context.Some? ==> a.context == context.value
    ensures context.None? ==> a.context == NewContext()
    ensures a == Clear(a)
  {
    Clear(Novagent(systemPrompt, 0, [], context.GetOr(NewContext())))
  }

  /** `clear()`: the step counter back to 0 and the history back to the system turn; the context is kept. */
  function Clear(a: Novagent): (r: Novagent)
    ensures r.nsteps == 0 && r.history == [Turn(System, a.systemPrompt)]
    ensures r.systemPrompt == a.systemPrompt && r.context == a.context
  {
    a.(nsteps := 0, history := [Turn(System, a.systemPrompt)])
  }

  /** Clearing twice is clearing once: what `clear` leaves does not depend on the counter or the history. */
  lemma ClearIdempotent(a: Novagent, b: Novagent)
    requires a.systemPrompt == b.systemPrompt && a.context == b.context
    ensures Clear(Clear(a)) == Clear(a) == Clear(b)
  {
  }

  /** `_call_model`: a falsy reply, `None` or `""`, is a `ValueError`. */
  function CallModel(history: seq<Turn>, pass: nat, model: Model): (r: Result)
    ensures r.Failure? <==> model(history, pass) == None || model(history, pass) == Some("")
    ensures r.Failure? ==> r.error == NoResponseMessage
    ensures r.Success? ==> Some(r.value) == model(history, pass) && r.value != ""
  {
    match model(history, pass)
    case None => Failure(NoResponseMessage)
    case Some(reply) => if reply == "" then Failure(NoResponseMessage) else Success(reply)
  }

  /** A reply, or the message of the exception raised instead. */
  datatype Result = Success(value: string) | Failure(error: string)

  // ---------------------------------------------------------------------
  // Extraction

  /**
    `_extract_thought_and_code`: `re.match(r"(.*?)```py(.*?)<end_code>", text, re.DOTALL)`.
    Without a match the text comes back untouched; with one, group 1
    stripped, and group 2 with its trailing backticks removed, then stripped.
   */
  function Extract(text: string): (r: Session.Extraction)
    ensures r.code.None? ==> r.thought == text
    ensures r.code.Some? ==> IsStripped(r.thought) && IsStripped(r.code.value)
  {
    match Fences.FirstFence(text, Session.OpenFence, Session.EndCodeTag)
    case None => Session.Extraction(text, None)
    case Some(f) =>
      var body := text[f.open + |Session.OpenFence|..f.close];
      StripResultStripped(text[..f.open]);
      StripResultStripped(TrimEnd(body, IsBacktick));
      Session.Extraction(Strip(text[..f.open]), Some(Strip(TrimEnd(body, IsBacktick))))
  }

  /**
    The extraction is the regular expression's: no code exactly when
    nothing matches, and on a match the groups of the match the lazy
    pattern reports, cleaned as `Novagent._extract_thought_and_code`
    cleans them: the thought stripped, the code's trailing backticks
    removed and then stripped.
   */
  lemma ExtractIsRegexGroups(text: string)
    ensures Extract(text).code.None? <==>
      forall i: nat, j: nat :: !Fences.Matches(text, Session.OpenFence, Session.EndCodeTag, i, j)
    ensures forall i: nat, j: nat :: Fences.LeastMatch(text, Session.OpenFence, Session.EndCodeTag, i, j) ==>
      Extract(text) == Session.Extraction(Strip(text[..i]), Some(Strip(TrimEnd(text[i + 5..j], IsBacktick))))
  {
    Fences.FirstFenceIsLeastMatch(text, Session.OpenFence, Session.EndCodeTag);
    forall i: nat, j: nat | Fences.LeastMatch(text, Session.OpenFence, Session.EndCodeTag, i, j)
      ensures Extract(text) == Session.Extraction(Strip(text[..i]), Some(Strip(TrimEnd(text[i + 5..j], IsBacktick))))
    {
      Fences.FirstFenceIsRegexMatch(text, Session.OpenFence, Session.EndCodeTag, i, j);
      ExtractAt(text, i, j);
    }
  }

  /** In the session's re-serialised turn `t`, the first `<end_code>` after the opening fence is the one written last. */
  lemma ReserializedEndTag(thought: string, code: string, t: string)
    requires NoOccurrence(code, Session.EndCodeTag)
    requires t == Session.Reserialize(thought, code)
    ensures Find(t, Session.EndCodeTag, |thought| + 6) == Some(|thought| + |code| + 11)
  {
    var pre := thought + "\n```py";
    var rest := "```" + Session.EndCodeTag;
    var p := Session.EndCodeTag;
    Session.ReserializeAroundCode(thought, code);
    assert t == pre + ['\n'] + code + ['\n'] + rest;
    NoneInSeparatedPiece(pre, '\n', code, rest, p);
    var k := |pre| + |code| + 2;
    assert t == (pre + ['\n'] + code + ['\n'] + "```") + p;
    ContainsAtShift(pre + ['\n'] + code + ['\n'] + "```", p, p, 0);
    forall m: nat | k <= m < k + 3
      ensures !ContainsAt(t, p, m)
    {
      assert t[m] == '`';
      assert m + |p| <= |t| ==> t[m..m + |p|][0] == '`';
    }
    FindIsFirst(t, p, |pre|, k + 3);
  }

  /** `rstrip("`")` then `strip()` on the session's padded code body leaves the code. */
  lemma CleanPaddedBody(code: string)
    requires IsStripped(code)
    ensures Strip(TrimEnd("\n" + code + "\n```", IsBacktick)) == code
  {
    var body := "\n" + code + "\n```";
    var n := |code| + 2;
    assert body[n - 1] == '\n';
    SkipBackUnique(body, IsBacktick, 0, |body|, n);
    assert TrimEnd(body, IsBacktick) == "\n" + code + "\n";
    StripPadded("\n", code, "\n");
  }

  /**
    The two extractors agree on the session's assistant turn: the older
    agent parses `f"{thought}\n```py\n{code}\n```{END_CODE_TAG}"` back to the
    same thought and code, as long as the code does not itself contain
    the end tag.
   */
  lemma ExtractSessionTurn(thought: string, code: string)
    requires IsStripped(thought) && IsStripped(code)
    requires NoOccurrence(thought, Session.OpenFence) && NoOccurrence(code, Session.EndCodeTag)
    ensures Extract(Session.Reserialize(thought, code)) == Session.Extraction(thought, Some(code))
  {
    var t := Session.Reserialize(thought, code);
    var i, j := |thought| + 1, |thought| + |code| + 11;
    Session.ReserializedOpen(thought, code, t);
    ReserializedEndTag(thought, code, t);
    ExtractAt(t, i, j);
    Session.ReserializedGroupsStripped(thought, code, t);
    SessionTurnBody(thought, code, t);
    CleanPaddedBody(code);
  }

  /** Extraction cleans the two groups around the block `FirstFence` finds. */
  lemma ExtractAt(text: string, i: nat, j: nat)
    requires Fences.FirstFence(text, Session.OpenFence, Session.EndCodeTag) == Some(Fences.Fence(i, j))
    ensures i + 5 <= j <= |text|
    ensures Extract(text) == Session.Extraction(Strip(text[..i]), Some(Strip(TrimEnd(text[i + 5..j], IsBacktick))))
  {
  }

  /** The code group of the session's turn `t` under the end-tag pattern: the code with its newlines and the closing fence. */
  lemma SessionTurnBody(thought: string, code: string, t: string)
    requires t == Session.Reserialize(thought, code)
    ensures |thought| + |code| + 11 <= |t|
    ensures t[|thought| + 6..|thought| + |code| + 11] == "\n" + code + "\n```"
  {
    var pre := thought + "\n```py";
    var x := ['\n'] + code + ['\n'] + "```";
    Session.ReserializeAroundCode(thought, code);
    assert t == pre + x + Session.EndCodeTag;
    assert t[|pre|..|pre| + |x|] == x;
    assert x == "\n" + code + "\n```";
  }

  // ---------------------------------------------------------------------
  // The loop of `run`

  /** Why `run` stopped: it returned the answer, an exception escaped it, or the fuel ran out. */
  datatype Ending = Answered(value: string) | Raised(exception: string) | OutOfFuel

  /** One pass through the `while` body: the agent after it, and the ending when the pass ends the loop. */
  datatype StepResult = StepResult(agent: Novagent, ending: Option<Ending>)

  /** `if not code`: no block, or an empty one. */
  predicate NoCode(e: Session.Extraction) {
    e.code.None? || e.code.value == ""
  }

  /** The assistant turn of the older agent: thought and code on separate lines, no fence. */
  function AssistantTurn(e: Session.Extraction): (r: Turn)
    requires e.code.Some?
    ensures r.role == Assistant
    ensures |r.content| == |e.thought| + 1 + |e.code.value|
    ensures r.content[..|e.thought|] == e.thought && r.content[|e.thought|] == '\n'
    ensures r.content[|e.thought| + 1..] == e.code.value
  {
    Turn(Assistant, e.thought + "\n" + e.code.value)
  }

  /** The observation turn: stdout and stderr run together. */
  function Observation(out: string, err: string): (r: Turn)
    ensures r.role == User
    ensures |r.content| == 13 + |out| + |err|
    ensures r.content[..13] == "Observation:\n"
    ensures r.content[13..13 + |out|] == out && r.content[13 + |out|..] == err
  {
    Turn(User, "Observation:\n" + out + err)
  }

  /**
    Nothing marks where stdout ends and stderr begins: moving the boundary
    gives the same turn, and with no stderr it is the session's observation
    of stdout alone.
   */
  lemma ObservationGlues(out: string, err: string)
    ensures Observation(out, err) == Observation(out + err, "")
    ensures |out| > 0 && |err| == 0 ==> Observation(out, err).content == SessionLoop.ObservationTurn(out, err, None)
  {
    assert "Observation:\n" + out + err == "Observation:\n" + (out + err) + "";
  }

  /** The pass after code was extracted: append the assistant turn, run, then answer or observe. */
  function RunCode(a: Novagent, e: Session.Extraction, exec: Exec): (r: StepResult)
    requires Valid(a.context) && e.code.Some?
    ensures Valid(r.agent.context)
    ensures r.agent.nsteps == a.nsteps && r.agent.systemPrompt == a.systemPrompt
    ensures r.ending.None? || r.ending.value.Answered? || r.ending.value.Raised?
    ensures r.ending.None? ==> !r.agent.context.hasFinalAnswer && |r.agent.history| == |a.history| + 2
    ensures r.ending.Some? ==> |r.agent.history| == |a.history| + 1
    ensures r.agent.history[..|a.history| + 1] == a.history + [AssistantTurn(e)]
    ensures r.ending.Some? && r.ending.value.Answered? ==>
      r.agent.context.finalAnswerValue == Some(r.ending.value.value)
  {
    var a1 := a.(history := a.history + [AssistantTurn(e)]);
    match Run(a.context, e.code.value, exec)
    case Escaped(x, ctx) => StepResult(a1.(context := ctx), Some(Raised(x)))
    case Returned(out, err, ctx) =>
      if ctx.hasFinalAnswer then StepResult(a1.(context := ctx), Some(Answered(ctx.finalAnswerValue.value)))
      else
        var h := a1.history + [Observation(out, err)];
        assert h[..|a.history| + 1] == a1.history;
        StepResult(a1.(context := ctx, history := h), None)
  }

  /**
    One pass through the `while` body: count the step, ask the model,
    extract; with no code go round again, otherwise run the code.
   */
  function Step(a: Novagent, model: Model, exec: Exec): (r: StepResult)
    requires Valid(a.context)
    ensures Valid(r.agent.context)
    ensures r.agent.nsteps == a.nsteps + 1 && r.agent.systemPrompt == a.systemPrompt
  {
    var a1 := a.(nsteps := a.nsteps + 1);
    match CallModel(a.history, a.nsteps + 1, model)
    case Failure(error) => StepResult(a1, Some(Raised(error)))
    case Success(reply) =>
      var e := Extract(reply);
      if NoCode(e) then StepResult(a1, None)
      else RunCode(a1, e, exec)
  }

  /** A reply without code only counts the step: the history and the context stay, and the loop goes on. */
  lemma NoCodeContinues(a: Novagent, model: Model, exec: Exec)
    requires Valid(a.context)
    requires CallModel(a.history, a.nsteps + 1, model).Success?
    requires NoCode(Extract(CallModel(a.history, a.nsteps + 1, model).value))
    ensures Step(a, model, exec) == StepResult(a.(nsteps := a.nsteps + 1), None)
  {
  }

  /**
    A retry asks again: after a pass whose reply had no code, the next pass
    asks about the same history under the next pass number, and a reply
    with code then runs.
   */
  lemma RetryAfterNoCode(a: Novagent, model: Model, exec: Exec)
    requires Valid(a.context)
    requires CallModel(a.history, a.nsteps + 1, model).Success?
    requires NoCode(Extract(CallModel(a.history, a.nsteps + 1, model).value))
    requires CallModel(a.history, a.nsteps + 2, model).Success?
    requires !NoCode(Extract(CallModel(a.history, a.nsteps + 2, model).value))
    ensures Step(a, model, exec) == StepResult(a.(nsteps := a.nsteps + 1), None)
    ensures Step(a.(nsteps := a.nsteps + 1), model, exec)
      == RunCode(a.(nsteps := a.nsteps + 2), Extract(CallModel(a.history, a.nsteps + 2, model).value), exec)
  {
    NoCodeContinues(a, model, exec);
    var b := a.(nsteps := a.nsteps + 1);
    CodeRuns(b, model, exec);
  }

  /** A reply with code runs it. */
  lemma CodeRuns(a: Novagent, model: Model, exec: Exec)
    requires Valid(a.context)
    requires CallModel(a.history, a.nsteps + 1, model).Success?
    requires !NoCode(Extract(CallModel(a.history, a.nsteps + 1, model).value))
    ensures Step(a, model, exec) == RunCode(a.(nsteps := a.nsteps + 1), Extract(CallModel(a.history, a.nsteps + 1, model).value), exec)
  {
  }

  /**
    Running code appends the assistant turn before running it. If the
    code set the final answer, the pass ends the loop with that answer and
    appends nothing else; otherwise it appends the observation of what
    the run printed and goes on.
   */
  lemma RunCodeOutcomes(a: Novagent, e: Session.Extraction, exec: Exec)
    requires Valid(a.context) && e.code.Some?
    ensures var r := RunCode(a, e, exec);
      match Run(a.context, e.code.value, exec)
      case Escaped(x, ctx) =>
        r == StepResult(a.(history := a.history + [AssistantTurn(e)], context := ctx), Some(Raised(x)))
      case Returned(out, err, ctx) =>
        if ctx.hasFinalAnswer then
          r == StepResult(a.(history := a.history + [AssistantTurn(e)], context := ctx), Some(Answered(ctx.finalAnswerValue.value)))
        else
          r == StepResult(a.(history := a.history + [AssistantTurn(e), Observation(out, err)], context := ctx), None)
  {
    match Run(a.context, e.code.value, exec)
    case Escaped(x, ctx) =>
    case Returned(out, err, ctx) =>
      assert a.history + [AssistantTurn(e)] + [Observation(out, err)] == a.history + [AssistantTurn(e), Observation(out, err)];
  }

  /** What every pass guarantees: one more step, the history only appended to, the ending a legal one. */
  predicate Advances(a: Novagent, r: StepResult) {
    && Valid(r.agent.context)
    && r.agent.nsteps == a.nsteps + 1 && r.agent.systemPrompt == a.systemPrompt
    && |a.history| <= |r.agent.history| && r.agent.history[..|a.history|] == a.history
    && (r.ending.None? ==> !r.agent.context.hasFinalAnswer || r.agent.context == a.context)
    && (r.ending.Some? && r.ending.value.Answered? ==>
          && |r.agent.history| == |a.history| + 1
          && r.agent.history[|a.history|].role == Assistant
          && r.agent.context.finalAnswerValue == Some(r.ending.value.value))
    && r.ending != Some(OutOfFuel)
  }

  lemma StepAdvances(a: Novagent, model: Model, exec: Exec)
    requires Valid(a.context)
    ensures Advances(a, Step(a, model, exec))
  {
    match CallModel(a.history, a.nsteps + 1, model)
    case Failure(error) =>
      assert Step(a, model, exec) == StepResult(a.(nsteps := a.nsteps + 1), Some(Raised(error)));
    case Success(reply) =>
      var e := Extract(reply);
      if NoCode(e) {
        NoCodeContinues(a, model, exec);
      } else {
        CodeRuns(a, model, exec);
        RunCodeAdvances(a, e, exec);
      }
  }

  lemma RunCodeAdvances(a: Novagent, e: Session.Extraction, exec: Exec)
    requires Valid(a.context) && e.code.Some?
    ensures Advances(a, RunCode(a.(nsteps := a.nsteps + 1), e, exec))
  {
    var r := RunCode(a.(nsteps := a.nsteps + 1), e, exec);
    assert r.agent.history[..|a.history|] == (r.agent.history[..|a.history| + 1])[..|a.history|];
    assert r.agent.history[|a.history|] == (r.agent.history[..|a.history| + 1])[|a.history|];
  }

  /** How `run` ends: the agent after it and why it stopped. */
  datatype Outcome = Outcome(agent: Novagent, ending: Ending)

  /**
    What the loop guarantees from `a` to `r` within `fuel` passes: the
    counter goes up by one per pass and is never reset, the history is
    only appended to, and a returned answer is the context's value, with
    the assistant turn that produced it as the last turn.
   */
  predicate Reaches(a: Novagent, r: Outcome, fuel: nat) {
    && Valid(r.agent.context)
    && a.nsteps <= r.agent.nsteps <= a.nsteps + fuel
    && r.agent.systemPrompt == a.systemPrompt
    && |a.history| <= |r.agent.history| && r.agent.history[..|a.history|] == a.history
    && (r.ending.Answered? ==> r.agent.context.finalAnswerValue == Some(r.ending.value))
    && (r.ending.Answered? && !a.context.hasFinalAnswer ==>
          |a.history| < |r.agent.history| && r.agent.history[|r.agent.history| - 1].role == Assistant)
    && (r.ending == OutOfFuel ==> r.agent.nsteps == a.nsteps + fuel)
  }

  /** A pass that does not end the loop, followed by the rest of the loop, is the loop. */
  lemma ReachesAfterStep(a: Novagent, t: StepResult, rest: Outcome, fuel: nat)
    requires Valid(a.context) && fuel > 0 && !a.context.hasFinalAnswer
    requires Advances(a, t) && t.ending.None?
    requires Reaches(t.agent, rest, fuel - 1)
    ensures Reaches(a, rest, fuel)
  {
    assert rest.agent.history[..|a.history|] == (rest.agent.history[..|t.agent.history|])[..|a.history|];
  }

  /** One pass, as the loop sees it. */
  type Pass = Novagent --> StepResult

  /** A pass that runs on every agent with a valid context and advances it. */
  ghost predicate Sound(pass: Pass) {
    forall a: Novagent :: Valid(a.context) ==> pass.requires(a) && Advances(a, pass(a))
  }

  /** The pass of an agent talking to `model` and running code with `exec`. */
  function StepOf(model: Model, exec: Exec): Pass {
    (a: Novagent) requires Valid(a.context) => Step(a, model, exec)
  }

  lemma StepOfSound(model: Model, exec: Exec)
    ensures Sound(StepOf(model, exec))
  {
    forall a: Novagent | Valid(a.context)
      ensures StepOf(model, exec).requires(a) && Advances(a, StepOf(model, exec)(a))
    {
      StepAdvances(a, model, exec);
    }
  }

  /** The `while not self.context.has_final_answer` loop over any sound pass, at most `fuel` times. */
  function Iterate(pass: Pass, a: Novagent, fuel: nat): (r: Outcome)
    requires Sound(pass) && Valid(a.context)
    ensures Reaches(a, r, fuel)
    decreases fuel
  {
    if a.context.hasFinalAnswer then Outcome(a, Answered(a.context.finalAnswerValue.value))
    else if fuel == 0 then Outcome(a, OutOfFuel)
    else
      var t := pass(a);
      assert Advances(a, t);
      match t.ending
      case Some(ending) => Outcome(t.agent, ending)
      case None =>
        var rest := Iterate(pass, t.agent, fuel - 1);
        ReachesAfterStep(a, t, rest, fuel);
        rest
  }

  /** The loop of `run` itself. */
  function Loop(a: Novagent, model: Model, exec: Exec, fuel: nat): (r: Outcome)
    requires Valid(a.context)
    ensures Valid(r.agent.context)
  {
    StepOfSound(model, exec);
    Iterate(StepOf(model, exec), a, fuel)
  }

  /** The loop of `run` keeps every guarantee of `Reaches`. */
  lemma LoopReaches(a: Novagent, model: Model, exec: Exec, fuel: nat)
    requires Valid(a.context)
    ensures Reaches(a, Loop(a, model, exec, fuel), fuel)
  {
    StepOfSound(model, exec);
  }

  /** The agent `run` loops on: the answer cleared and the task appended. */
  function Prepared(a: Novagent, task: string): (r: Novagent)
    ensures Valid(r.context) && !r.context.hasFinalAnswer
  {
    a.(context := ClearFinalAnswer(a.context), history := a.history + [Turn(User, "Task: " + task)])
  }

  /** `run(task)`: clear the last answer (not the step counter), append the task, loop. */
  function RunTask(a: Novagent, task: string, model: Model, exec: Exec, fuel: nat): (r: Outcome)
    ensures Valid(r.agent.context)
  {
    Loop(Prepared(a, task), model, exec, fuel)
  }

  /**
    `run` returns the value the code passed to `final_answer`, and breaks
    out right after the assistant turn that produced it: no observation
    follows it.
   */
  lemma RunReturnsAnswer(a: Novagent, task: string, model: Model, exec: Exec, fuel: nat)
    ensures var r := RunTask(a, task, model, exec, fuel);
      r.ending.Answered? ==>
        && r.agent.context.finalAnswerValue == Some(r.ending.value)
        && |r.agent.history| > 0
        && r.agent.history[|r.agent.history| - 1].role == Assistant
  {
    LoopReaches(Prepared(a, task), model, exec, fuel);
  }

  /**
    `run` appends the task after the history it was given and keeps the
    step counter running from where it was: only `clear` resets it.
   */
  lemma RunKeepsCounting(a: Novagent, task: string, model: Model, exec: Exec, fuel: nat)
    ensures var r := RunTask(a, task, model, exec, fuel);
      && a.nsteps <= r.agent.nsteps <= a.nsteps + fuel
      && |a.history| < |r.agent.history|
      && r.agent.history[..|a.history| + 1] == a.history + [Turn(User, "Task: " + task)]
  {
    var p := Prepared(a, task);
    var r := RunTask(a, task, model, exec, fuel);
    assert r.agent.history[..|p.history|] == p.history;
  }

  /**
    A model that never writes code makes the loop spin: every pass only
    counts a step, so the fuel runs out with the history and the context
    as they were.
   */
  lemma NoCodeSpins(a: Novagent, model: Model, exec: Exec, fuel: nat)
    requires Valid(a.context) && !a.context.hasFinalAnswer
    requires forall h, n :: CallModel(h, n, model).Success? && NoCode(Extract(CallModel(h, n, model).value))
    ensures var r := Loop(a, model, exec, fuel);
      && r.ending == OutOfFuel && r.agent.nsteps == a.nsteps + fuel
      && r.agent.history == a.history && r.agent.context == a.context
  {
    StepOfSound(model, exec);
    var pass := StepOf(model, exec);
    forall b: Novagent | Valid(b.context)
      ensures pass.requires(b) && Idles(b, pass(b))
    {
      NoCodeContinues(b, model, exec);
    }
    IterateSpins(pass, a, fuel);
  }

  /** A pass that only counted a step. */
  predicate Idles(a: Novagent, r: StepResult) {
    && r.ending.None?
    && r.agent.nsteps == a.nsteps + 1
    && r.agent.history == a.history
    && r.agent.context == a.context
  }

  /** An idle pass spins until the fuel runs out. */
  lemma {:induction false} IterateSpins(pass: Pass, a: Novagent, fuel: nat)
    requires Sound(pass)
    requires forall b: Novagent :: Valid(b.context) ==> pass.requires(b) && Idles(b, pass(b))
    requires Valid(a.context) && !a.context.hasFinalAnswer
    ensures var r := Iterate(pass, a, fuel);
      && r.ending == OutOfFuel && r.agent.nsteps == a.nsteps + fuel
      && r.agent.history == a.history && r.agent.context == a.context
    decreases fuel
  {
    if fuel > 0 {
      var t := pass(a);
      assert Idles(a, t);
      IterateSpins(pass, t.agent, fuel - 1);
    }
  }
}
