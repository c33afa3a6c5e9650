/**
  `NovagentSession.arun` and `_call_model` (novagent/session.py): the turn
  loop as a pure function. The model is an oracle from the history it is
  sent to the chunks its stream delivers; `exec` is the context's oracle;
  `fuel` bounds the number of iterations, since nothing in the loop forces
  the model to ever call `final_answer`.
 */
module SessionLoop {
  import opened Wrappers
  import opened Strings
  import opened Conversation
  import opened Context
  import opened StepSummary
  import opened Session

  /** The model: the chat history in, the streamed chunks out. */
  type Model = seq<Turn> -> seq<Chunk>

  // ---------------------------------------------------------------------
  // `_call_model`

  /** What a chunk adds to the reply: its content, or nothing. */
  function ChunkText(c: Chunk): string {
    c.content.GetOr("")
  }

  /** The reply a stream spells out: every chunk's content, in order. */
  function StreamText(chunks: seq<Chunk>): string
    decreases |chunks|
  {
    if |chunks| == 0 then "" else StreamText(chunks[..|chunks| - 1]) + ChunkText(chunks[|chunks| - 1])
  }

  /** A reported counter, absent reading as 0. */
  function Tokens(x: Option<nat>): nat {
    x.GetOr(0)
  }

  /** All prompt tokens a stream reports. */
  function PromptUsage(chunks: seq<Chunk>): nat
    decreases |chunks|
  {
    if |chunks| == 0 then 0 else PromptUsage(chunks[..|chunks| - 1]) + Tokens(chunks[|chunks| - 1].promptTokens)
  }

  /** All completion tokens a stream reports. */
  function CompletionUsage(chunks: seq<Chunk>): nat
    decreases |chunks|
  {
    if |chunks| == 0 then 0 else CompletionUsage(chunks[..|chunks| - 1]) + Tokens(chunks[|chunks| - 1].completionTokens)
  }

  /** The non-empty contents of a stream, in order: what gets a message of its own. */
  function Kept(chunks: seq<Chunk>): seq<string>
    decreases |chunks|
  {
    if |chunks| == 0 then []
    else
      var c := ChunkText(chunks[|chunks| - 1]);
      Kept(chunks[..|chunks| - 1]) + (if c == "" then [] else [c])
  }

  /** The messages' contents, one after the other. */
  function Contents(ms: seq<Message>): string
    decreases |ms|
  {
    if |ms| == 0 then "" else Contents(ms[..|ms| - 1]) + ms[|ms| - 1].content
  }

  /** Every message is an AGENT chunk of step `nstep` with something in it. */
  predicate AgentChunks(ms: seq<Message>, nstep: nat) {
    forall i :: 0 <= i < |ms| ==> ms[i].kind == Agent && ms[i].step == nstep && ms[i].content != ""
  }

  /** What one model call leaves behind: the AGENT messages, the reply they spell, and both counters. */
  datatype Streamed = Streamed(messages: seq<Message>, text: string, promptTokens: nat, completionTokens: nat)

  /**
    The body of the `async for` in `_call_model` for one chunk: an AGENT
    message when the content is non-empty, added to the reply, and each
    counter bumped when its count is truthy.
   */
  function Absorb(prev: Streamed, nstep: nat, c: Chunk): (r: Streamed)
    ensures r.messages == prev.messages + (if ChunkText(c) == "" then [] else [Message(Agent, nstep, ChunkText(c))])
    ensures AgentChunks(prev.messages, nstep) ==> AgentChunks(r.messages, nstep)
    ensures prev.text == Contents(prev.messages) ==> r.text == Contents(r.messages)
    ensures r.text == prev.text + ChunkText(c)
    ensures r.promptTokens == prev.promptTokens + Tokens(c.promptTokens)
    ensures r.completionTokens == prev.completionTokens + Tokens(c.completionTokens)
  {
    var p := if c.promptTokens.Some? && c.promptTokens.value != 0 then prev.promptTokens + c.promptTokens.value else prev.promptTokens;
    var q := if c.completionTokens.Some? && c.completionTokens.value != 0 then prev.completionTokens + c.completionTokens.value else prev.completionTokens;
    if c.content.Some? && c.content.value != "" then
      var messages := prev.messages + [Message(Agent, nstep, c.content.value)];
      assert messages[..|prev.messages|] == prev.messages;
      Streamed(messages, prev.text + c.content.value, p, q)
    else
      Streamed(prev.messages, prev.text, p, q)
  }

  /**
    `_call_model` over a whole stream: one AGENT message per chunk with
    content, the reply is exactly what those messages spell (empty and
    missing contents add nothing), and the counters grow by every count
    reported.
   */
  function CallModel(nstep: nat, chunks: seq<Chunk>, prompt: nat, completion: nat): (r: Streamed)
    ensures |r.messages| == |Kept(chunks)|
    ensures forall i :: 0 <= i < |r.messages| ==> r.messages[i] == Message(Agent, nstep, Kept(chunks)[i])
    ensures AgentChunks(r.messages, nstep)
    ensures r.text == Contents(r.messages) == StreamText(chunks)
    ensures r.promptTokens == prompt + PromptUsage(chunks)
    ensures r.completionTokens == completion + CompletionUsage(chunks)
    decreases |chunks|
  {
    if |chunks| == 0 then Streamed([], "", prompt, completion)
    else Absorb(CallModel(nstep, chunks[..|chunks| - 1], prompt, completion), nstep, chunks[|chunks| - 1])
  }

  // ---------------------------------------------------------------------
  // One iteration

  /** `if not code`: no block, or a block with nothing but whitespace in it. */
  predicate NoCode(e: Extraction) {
    e.code.None? || e.code.value == ""
  }

  /**
    The observation turn: `"\n".join(parts)` over the observation part and
    the final part. It is empty exactly when there is nothing to report,
    opens with the `Observation:` heading when the code printed anything,
    and closes with the answer when one is set.
   */
  function ObservationTurn(out: string, err: string, final: Option<string>): (r: string)
    ensures r == "" <==> |out| == 0 && |err| == 0 && final.None?
    ensures |out| > 0 || |err| > 0 ==> |r| >= 13 && r[..13] == "Observation:\n"
    ensures final.Some? ==> |r| >= 7 + |final.value| && r[|r| - 7 - |final.value|..] == "Final:\n" + final.value
  {
    var observations := (if |out| > 0 then [out] else []) + (if |err| > 0 then [err] else []);
    var parts :=
      (if |observations| > 0 then ["Observation:\n" + Join("\n", observations)] else []) +
      (match final case Some(v) => ["Final:\n" + v] case None => []);
    JoinEnds("\n", parts);
    Join("\n", parts)
  }

  /** `sep.join` of one or two parts: the first part opens it and the last closes it. */
  lemma JoinEnds(sep: string, parts: seq<string>)
    requires |parts| <= 2
    ensures |parts| == 0 ==> Join(sep, parts) == ""
    ensures |parts| == 1 ==> Join(sep, parts) == parts[0]
    ensures |parts| == 2 ==> Join(sep, parts) == parts[0] + sep + parts[1]
  {
    if |parts| == 2 {
      assert parts[1..] == [parts[1]];
    }
  }

  /**
    The observation turn spelled out: the non-empty streams under one
    `Observation:` heading, one newline between them, then the answer
    under `Final:`; nothing to say gives the empty turn.
   */
  lemma ObservationLayout(out: string, err: string, final: Option<string>)
    ensures |out| == 0 && |err| == 0 ==>
      ObservationTurn(out, err, final) == (if final.Some? then "Final:\n" + final.value else "")
    ensures |out| > 0 && |err| > 0 && final.None? ==>
      ObservationTurn(out, err, final) == "Observation:\n" + out + "\n" + err
    ensures |out| > 0 && |err| == 0 && final.None? ==>
      ObservationTurn(out, err, final) == "Observation:\n" + out
    ensures |out| == 0 && |err| > 0 && final.None? ==>
      ObservationTurn(out, err, final) == "Observation:\n" + err
    ensures |out| > 0 && |err| == 0 && final.Some? ==>
      ObservationTurn(out, err, final) == "Observation:\n" + out + "\n" + "Final:\n" + final.value
    ensures |out| == 0 && |err| > 0 && final.Some? ==>
      ObservationTurn(out, err, final) == "Observation:\n" + err + "\n" + "Final:\n" + final.value
    ensures |out| > 0 && |err| > 0 && final.Some? ==>
      ObservationTurn(out, err, final) == "Observation:\n" + out + "\n" + err + "\n" + "Final:\n" + final.value
  {
    var observations := (if |out| > 0 then [out] else []) + (if |err| > 0 then [err] else []);
    JoinEnds("\n", observations);
    if |observations| > 0 {
      var obs := "Observation:\n" + Join("\n", observations);
      match final {
        case None =>
          JoinEnds("\n", [obs]);
        case Some(v) =>
          FinalAfterObservation(Join("\n", observations), v);
      }
    }
  }

  /** The observation part and the final part, joined by a newline. */
  lemma FinalAfterObservation(body: string, v: string)
    ensures Join("\n", ["Observation:\n" + body] + ["Final:\n" + v]) == "Observation:\n" + body + "\n" + "Final:\n" + v
  {
    var obs := "Observation:\n" + body;
    var fin := "Final:\n" + v;
    assert [obs] + [fin] == [obs, fin];
    JoinEnds("\n", [obs, fin]);
  }


  /**
    What a step yields after running its code: OUTPUT carrying stdout
    exactly when there is some, ERROR carrying stderr exactly when there is
    some, FINAL carrying the answer when one is set, and nothing else.
   */
  function Reports(nstep: nat, out: string, err: string, ctx: PythonContext): (r: seq<Message>)
    requires Valid(ctx)
    ensures Message(Output, nstep, out) in r <==> |out| > 0
    ensures Message(Error, nstep, err) in r <==> |err| > 0
    ensures ctx.hasFinalAnswer ==> Message(Final, nstep, ctx.finalAnswerValue.value) in r
    ensures forall i :: 0 <= i < |r| ==>
      || (r[i] == Message(Output, nstep, out) && |out| > 0)
      || (r[i] == Message(Error, nstep, err) && |err| > 0)
      || (ctx.hasFinalAnswer && r[i] == Message(Final, nstep, ctx.finalAnswerValue.value))
  {
    (if |out| > 0 then [Message(Output, nstep, out)] else []) +
    (if |err| > 0 then [Message(Error, nstep, err)] else []) +
    (if ctx.hasFinalAnswer then [Message(Final, nstep, ctx.finalAnswerValue.value)] else [])
  }

  /** The place of a message type in a step: AGENT chunks, then INFO, OUTPUT, ERROR, FINAL. */
  function Rank(k: MessageType): nat {
    match k
    case Agent => 0
    case Info => 1
    case Output => 2
    case Error => 3
    case Final => 4
  }

  /** Messages in the order a step yields them: ranks never go back, and only AGENT repeats. */
  predicate InStepOrder(ms: seq<Message>) {
    forall i, j :: 0 <= i < j < |ms| ==>
      Rank(ms[i].kind) < Rank(ms[j].kind) || (ms[i].kind == Agent && ms[j].kind == Agent)
  }

  /** Every message carries step number `n`. */
  predicate Tagged(ms: seq<Message>, n: nat) {
    forall i :: 0 <= i < |ms| ==> ms[i].step == n
  }

  lemma AgentsThenOrdered(a: seq<Message>, b: seq<Message>)
    requires forall i :: 0 <= i < |a| ==> a[i].kind == Agent
    requires InStepOrder(b)
    ensures InStepOrder(a + b)
  {
    var ab := a + b;
    forall i, j | 0 <= i < j < |ab|
      ensures Rank(ab[i].kind) < Rank(ab[j].kind) || (ab[i].kind == Agent && ab[j].kind == Agent)
    {
      if j < |a| {
        assert ab[i] == a[i] && ab[j] == a[j];
      } else if i < |a| {
        assert ab[i] == a[i] && ab[j] == b[j - |a|];
      } else {
        assert ab[i] == b[i - |a|] && ab[j] == b[j - |a|];
      }
    }
  }

  /** INFO, then OUTPUT if there was output, ERROR if there were errors, FINAL if an answer is set: all tagged and in order. */
  lemma ReportsInOrder(n: nat, summary: string, out: string, err: string, ctx: PythonContext)
    requires Valid(ctx)
    ensures InStepOrder([Message(Info, n, summary)] + Reports(n, out, err, ctx))
    ensures Tagged([Message(Info, n, summary)] + Reports(n, out, err, ctx), n)
  {
  }

  /**
    How `arun` ends: the flag was found set at the head of the loop, the
    `break` on missing code, an exception `run` lets through, or the fuel
    ran out.
   */
  datatype Stop = Answered | NoCodeProduced | Raised(exception: string) | OutOfFuel

  /** One iteration: the session after it, what it yielded, and whether it ended the loop itself. */
  datatype StepResult = StepResult(session: NovagentSession, messages: seq<Message>, ending: Option<Stop>)

  /**
    The second half of an iteration, once code was found: append the
    re-serialised assistant turn, yield INFO with the summary, run the
    code, yield what it reported and append the observation turn. An
    exception `run` lets through ends the iteration right after INFO.
   */
  function RunCode(s: NovagentSession, thought: string, code: string, exec: Exec): (r: StepResult)
    requires Valid(s.context)
    ensures Valid(r.session.context)
    ensures r.session.nstep == s.nstep
    ensures r.session.promptTokens == s.promptTokens && r.session.completionTokens == s.completionTokens
    ensures Tagged(r.messages, s.nstep) && InStepOrder(r.messages)
    ensures |r.messages| > 0 && r.messages[0] == Message(Info, s.nstep, StepSumup(s.nstep, s.promptTokens, s.completionTokens))
    ensures r.ending.None? || r.ending.value.Raised?
    ensures |r.session.history| == |s.history| + (if r.ending.None? then 2 else 1)
    ensures r.session.history[..|s.history| + 1] == s.history + [Turn(Assistant, Reserialize(thought, code))]
    ensures r.session.history[..|s.history|] == s.history
    ensures r.ending.None? && r.session.context.hasFinalAnswer ==>
      r.messages[|r.messages| - 1] == Message(Final, s.nstep, r.session.context.finalAnswerValue.value)
  {
    var s1 := s.(history := s.history + [Turn(Assistant, Reserialize(thought, code))]);
    var info := Message(Info, s.nstep, StepSumup(s.nstep, s.promptTokens, s.completionTokens));
    match Context.Run(s.context, code, exec)
    case Escaped(x, ctx) =>
      assert s1.history[..|s.history| + 1] == s1.history;
      StepResult(s1.(context := ctx), [info], Some(Raised(x)))
    case Returned(out, err, ctx) =>
      ReportsInOrder(s.nstep, info.content, out, err, ctx);
      var observation := ObservationTurn(out, err, if ctx.hasFinalAnswer then ctx.finalAnswerValue else None);
      var history := s1.history + [Turn(User, observation)];
      assert history[..|s.history| + 1] == s1.history;
      StepResult(s1.(context := ctx, history := history), [info] + Reports(s.nstep, out, err, ctx), None)
  }

  /**
    When `run` returns, the step appends the assistant turn and then the
    user turn built from what the code printed and the answer it set.
   */
  lemma RunCodeObserves(s: NovagentSession, thought: string, code: string, exec: Exec)
    requires Valid(s.context)
    requires Context.Run(s.context, code, exec).Returned?
    ensures var x := Context.Run(s.context, code, exec);
      var r := RunCode(s, thought, code, exec);
      && r.ending.None?
      && r.session.context == x.ctx
      && r.messages == [Message(Info, s.nstep, StepSumup(s.nstep, s.promptTokens, s.completionTokens))] +
           Reports(s.nstep, x.stdout, x.stderr, x.ctx)
      && r.session.history == s.history + [Turn(Assistant, Reserialize(thought, code)),
           Turn(User, ObservationTurn(x.stdout, x.stderr, if x.ctx.hasFinalAnswer then x.ctx.finalAnswerValue else None))]
  {
  }

  /**
    When the code lets a `BaseException` escape, the step has yielded only
    INFO; the assistant turn stays, no observation follows, and the
    exception ends the loop.
   */
  lemma RunCodeEscapes(s: NovagentSession, thought: string, code: string, exec: Exec)
    requires Valid(s.context)
    requires Context.Run(s.context, code, exec).Escaped?
    ensures var x := Context.Run(s.context, code, exec);
      var r := RunCode(s, thought, code, exec);
      && r.ending == Some(Raised(x.exception))
      && r.session.context == x.ctx
      && r.messages == [Message(Info, s.nstep, StepSumup(s.nstep, s.promptTokens, s.completionTokens))]
      && r.session.history == s.history + [Turn(Assistant, Reserialize(thought, code))]
  {
  }

  /** The model call of the next step: the stream answering the current history, tagged with the next step number. */
  function StepCall(s: NovagentSession, model: Model): Streamed {
    CallModel(s.nstep + 1, model(s.history), s.promptTokens, s.completionTokens)
  }

  /**
    One pass of the `while` body of `arun`: bump the step, stream the
    reply, and either stop with one ERROR when it holds no code or go on
    to run it.
   */
  function Step(s: NovagentSession, model: Model, exec: Exec): (r: StepResult)
    requires Valid(s.context)
    ensures Valid(r.session.context)
    ensures r.session.nstep == s.nstep + 1
  {
    var n := s.nstep + 1;
    var call := StepCall(s, model);
    var s1 := s.(nstep := n, promptTokens := call.promptTokens, completionTokens := call.completionTokens);
    var e := ExtractThoughtAndCode(call.text);
    if NoCode(e) then
      StepResult(s1, call.messages + [Message(Error, n, NoCodeMessage)], Some(NoCodeProduced))
    else
      var rest := RunCode(s1, e.thought, e.code.value, exec);
      rest.(messages := call.messages + rest.messages)
  }

  /** Every message a step yields carries the new step number, and they come AGENT, INFO, OUTPUT, ERROR, FINAL. */
  lemma StepMessages(s: NovagentSession, model: Model, exec: Exec)
    requires Valid(s.context)
    ensures Tagged(Step(s, model, exec).messages, s.nstep + 1)
    ensures InStepOrder(Step(s, model, exec).messages)
    ensures StepCall(s, model).messages <= Step(s, model, exec).messages
  {
    var call := StepCall(s, model);
    var r := Step(s, model, exec);
    var tail := r.messages[|call.messages|..];
    assert r.messages == call.messages + tail;
    AgentsThenOrdered(call.messages, tail);
  }

  /** What the step extracts from: the reply streamed for the current history. */
  function StepExtraction(s: NovagentSession, model: Model): Extraction {
    ExtractThoughtAndCode(StreamText(model(s.history)))
  }

  /**
    The step stops with `NoCodeProduced` exactly when its reply has no
    code; it then yields the chunks and one ERROR, runs nothing and
    appends no turn.
   */
  lemma StepNoCode(s: NovagentSession, model: Model, exec: Exec)
    requires Valid(s.context)
    ensures Step(s, model, exec).ending == Some(NoCodeProduced) <==> NoCode(StepExtraction(s, model))
    ensures NoCode(StepExtraction(s, model)) ==>
      var r := Step(s, model, exec);
      && r.messages == StepCall(s, model).messages + [Message(Error, s.nstep + 1, NoCodeMessage)]
      && r.session.history == s.history
      && r.session.context == s.context
  {
  }

  /**
    With code, the step appends the re-serialised assistant turn, then
    the observation turn unless `run` raised; the turn re-extracts to the
    thought and code the step extracted.
   */
  lemma StepAppendsTurns(s: NovagentSession, model: Model, exec: Exec)
    requires Valid(s.context)
    requires !NoCode(StepExtraction(s, model))
    ensures var r := Step(s, model, exec);
      var e := StepExtraction(s, model);
      && |r.session.history| == |s.history| + (if r.ending.None? then 2 else 1)
      && r.session.history[..|s.history| + 1] == s.history + [Turn(Assistant, Reserialize(e.thought, e.code.value))]
      && ExtractThoughtAndCode(r.session.history[|s.history|].content) == e
  {
    var r := Step(s, model, exec);
    var e := StepExtraction(s, model);
    assert r.session.history[|s.history|] == (r.session.history[..|s.history| + 1])[|s.history|];
    ExtractRoundTrip(StreamText(model(s.history)));
  }

  /** The counters grow by every count the stream reports, and by nothing else. */
  lemma StepCounters(s: NovagentSession, model: Model, exec: Exec)
    requires Valid(s.context)
    ensures Step(s, model, exec).session.promptTokens == s.promptTokens + PromptUsage(model(s.history))
    ensures Step(s, model, exec).session.completionTokens == s.completionTokens + CompletionUsage(model(s.history))
  {
  }

  // ---------------------------------------------------------------------
  // The loop

  /** Step numbers never go down along a message sequence. */
  predicate StepsAscend(ms: seq<Message>) {
    forall i, j :: 0 <= i < j < |ms| ==> ms[i].step <= ms[j].step
  }

  /** Every message carries a step number in `(lo, hi]`. */
  predicate StepsWithin(ms: seq<Message>, lo: nat, hi: nat) {
    forall i :: 0 <= i < |ms| ==> lo < ms[i].step <= hi
  }

  lemma AscendingJoin(a: seq<Message>, b: seq<Message>, lo: nat, mid: nat, hi: nat)
    requires StepsAscend(a) && StepsWithin(a, lo, mid)
    requires StepsAscend(b) && StepsWithin(b, mid, hi)
    requires lo <= mid <= hi
    ensures StepsAscend(a + b) && StepsWithin(a + b, lo, hi)
  {
    var ab := a + b;
    forall i, j | 0 <= i < j < |ab| ensures ab[i].step <= ab[j].step {
      if j < |a| {
        assert ab[i] == a[i] && ab[j] == a[j];
      } else if i < |a| {
        assert ab[i] == a[i] && ab[j] == b[j - |a|];
      } else {
        assert ab[i] == b[i - |a|] && ab[j] == b[j - |a|];
      }
    }
    forall i | 0 <= i < |ab| ensures lo < ab[i].step <= hi {
      if i < |a| {
        assert ab[i] == a[i];
      } else {
        assert ab[i] == b[i - |a|];
      }
    }
  }

  /** How a call of `arun` ends: the session after it, every message it yielded, and why it stopped. */
  datatype Outcome = Outcome(session: NovagentSession, messages: seq<Message>, stop: Stop)

  /** The last message is the FINAL one carrying the session's answer, tagged with its last step. */
  predicate FinalLast(ms: seq<Message>, s: NovagentSession) {
    && |ms| > 0
    && ms[|ms| - 1].kind == Final
    && ms[|ms| - 1].step == s.nstep
    && s.context.finalAnswerValue == Some(ms[|ms| - 1].content)
  }

  /** What every iteration of `arun` guarantees, whatever the model and the code do. */
  predicate Advances(s: NovagentSession, t: StepResult) {
    && t.session.nstep == s.nstep + 1
    && Tagged(t.messages, s.nstep + 1)
    && Valid(t.session.context)
    && s.promptTokens <= t.session.promptTokens && s.completionTokens <= t.session.completionTokens
    && |s.history| <= |t.session.history| && t.session.history[..|s.history|] == s.history
    && (t.ending.None? || t.ending == Some(NoCodeProduced) || t.ending.value.Raised?)
    && (t.ending == Some(NoCodeProduced) ==> t.session.context == s.context)
    && (t.ending.None? && t.session.context.hasFinalAnswer ==> FinalLast(t.messages, t.session))
  }

  /** Every step advances the session, whatever the model replies and whatever the code does. */
  lemma StepAdvances(s: NovagentSession, model: Model, exec: Exec)
    requires Valid(s.context)
    ensures Advances(s, Step(s, model, exec))
  {
    StepMessages(s, model, exec);
  }

  /** One iteration, as the loop sees it. */
  type Iteration = NovagentSession --> StepResult

  /** An iteration that runs on every session with a valid context and advances it. */
  ghost predicate Sound(iterate: Iteration) {
    forall s: NovagentSession :: Valid(s.context) ==> iterate.requires(s) && Advances(s, iterate(s))
  }

  /** The iteration of a session talking to `model` and running code with `exec`. */
  function StepOf(model: Model, exec: Exec): Iteration {
    (s: NovagentSession) requires Valid(s.context) => Step(s, model, exec)
  }

  lemma StepOfSound(model: Model, exec: Exec)
    ensures Sound(StepOf(model, exec))
  {
    forall s: NovagentSession | Valid(s.context)
      ensures StepOf(model, exec).requires(s) && Advances(s, StepOf(model, exec)(s))
    {
      StepAdvances(s, model, exec);
    }
  }

  /** An `Answered` outcome whose last message announced the answer. */
  predicate AnsweredWithFinal(r: Outcome) {
    r.stop == Answered ==> FinalLast(r.messages, r.session)
  }

  /**
    What the loop guarantees from `s` to `r` within `fuel` iterations. The
    step counter counts up by one per iteration and the messages carry the
    numbers of the steps that yielded them, in order; the history is only
    appended to and the counters never decrease. Unless an exception
    escaped, the loop ends with `Answered` exactly when the flag is set;
    an answer already in hand ends it at once, and an answer found by the loop itself was announced by its last message.
   */
  predicate Reaches(s: NovagentSession, r: Outcome, fuel: nat) {
    && Valid(r.session.context)
    && s.nstep <= r.session.nstep <= s.nstep + fuel
    && StepsWithin(r.messages, s.nstep, r.session.nstep) && StepsAscend(r.messages)
    && |s.history| <= |r.session.history| && r.session.history[..|s.history|] == s.history
    && s.promptTokens <= r.session.promptTokens && s.completionTokens <= r.session.completionTokens
    && (r.stop.Raised? || (r.stop == Answered <==> r.session.context.hasFinalAnswer))
    && (s.context.hasFinalAnswer ==> r == Outcome(s, [], Answered))
    && (!s.context.hasFinalAnswer ==> AnsweredWithFinal(r))
  }

  /** An iteration that does not end the loop, followed by the rest of the loop, is the loop. */
  lemma ReachesAfterStep(s: NovagentSession, t: StepResult, rest: Outcome, fuel: nat)
    requires Valid(s.context) && fuel > 0 && !s.context.hasFinalAnswer
    requires Advances(s, t) && t.ending.None?
    requires Reaches(t.session, rest, fuel - 1)
    ensures Reaches(s, Outcome(rest.session, t.messages + rest.messages, rest.stop), fuel)
  {
    AscendingJoin(t.messages, rest.messages, s.nstep, t.session.nstep, rest.session.nstep);
    var ms := t.messages + rest.messages;
    assert rest.session.history[..|s.history|] == (rest.session.history[..|t.session.history|])[..|s.history|];
    assert rest.stop == Answered && |rest.messages| > 0 ==> ms[|ms| - 1] == rest.messages[|rest.messages| - 1];
  }

  /** The `while not self.context.has_final_answer` loop over any sound iteration, at most `fuel` times. */
  function Iterate(iterate: Iteration, s: NovagentSession, fuel: nat): (r: Outcome)
    requires Sound(iterate) && Valid(s.context)
    ensures Reaches(s, r, fuel)
    decreases fuel
  {
    if s.context.hasFinalAnswer then Outcome(s, [], Answered)
    else if fuel == 0 then Outcome(s, [], OutOfFuel)
    else
      var t := iterate(s);
      assert Advances(s, t);
      match t.ending
      case Some(stop) => Outcome(t.session, t.messages, stop)
      case None =>
        var rest := Iterate(iterate, t.session, fuel - 1);
        ReachesAfterStep(s, t, rest, fuel);
        Outcome(rest.session, t.messages + rest.messages, rest.stop)
  }

  /** The loop of `arun` itself. */
  function Loop(s: NovagentSession, model: Model, exec: Exec, fuel: nat): (r: Outcome)
    requires Valid(s.context)
    ensures Valid(r.session.context)
  {
    StepOfSound(model, exec);
    Iterate(StepOf(model, exec), s, fuel)
  }

  /** `arun(task)`: clear the last answer, append the task as a user turn, loop. */
  function Arun(s: NovagentSession, task: string, model: Model, exec: Exec, fuel: nat): (r: Outcome)
    ensures Valid(r.session.context)
  {
    Loop(Prepared(s, task), model, exec, fuel)
  }

  /** The session `arun` loops on: the answer cleared and the task appended. */
  function Prepared(s: NovagentSession, task: string): (r: NovagentSession)
    ensures Valid(r.context) && !r.context.hasFinalAnswer
  {
    s.(context := ClearFinalAnswer(s.context), history := s.history + [Turn(User, "Task: " + task)])
  }

  /** Without an answer in hand and with fuel left, the loop takes at least one step. */
  lemma IterateSteps(iterate: Iteration, s: NovagentSession, fuel: nat)
    requires Sound(iterate) && Valid(s.context)
    requires !s.context.hasFinalAnswer && fuel > 0
    ensures s.nstep < Iterate(iterate, s, fuel).session.nstep
  {
    var t := iterate(s);
    assert Advances(s, t);
  }

  // ---------------------------------------------------------------------
  // What a call of `arun` does

  /** `arun` first appends exactly one `Task:` user turn, and afterwards only appends. */
  lemma ArunAppendsTask(s: NovagentSession, task: string, model: Model, exec: Exec, fuel: nat)
    ensures var h := Arun(s, task, model, exec, fuel).session.history;
      |s.history| < |h| && h[..|s.history| + 1] == s.history + [Turn(User, "Task: " + task)]
  {
    var s1 := Prepared(s, task);
    var h := Arun(s, task, model, exec, fuel).session.history;
    assert h[..|s1.history|] == s1.history;
  }

  /**
    A stale answer is never inherited: `arun` clears it, so with any fuel
    at all the loop takes at least one step, and if the run ends
    `Answered` its own last message announced the answer.
   */
  lemma ArunAnswerIsFresh(s: NovagentSession, task: string, model: Model, exec: Exec, fuel: nat)
    ensures fuel > 0 ==> s.nstep < Arun(s, task, model, exec, fuel).session.nstep
    ensures AnsweredWithFinal(Arun(s, task, model, exec, fuel))
  {
    if fuel > 0 {
      StepOfSound(model, exec);
      IterateSteps(StepOf(model, exec), Prepared(s, task), fuel);
    }
  }

  /**
    Unless an exception escaped, `arun` ends `Answered` exactly when the
    session then holds a final answer.
   */
  lemma ArunStopsOnAnswer(s: NovagentSession, task: string, model: Model, exec: Exec, fuel: nat)
    ensures var r := Arun(s, task, model, exec, fuel);
      r.stop.Raised? || (r.stop == Answered <==> FinalAnswerValue(r.session).Some?)
  {
  }

  /**
    The step counter is never reset: the messages of a run carry step
    numbers after those of the run before it, in order, up to the
    counter's new value.
   */
  lemma ArunNumbering(s: NovagentSession, task: string, model: Model, exec: Exec, fuel: nat)
    ensures var r := Arun(s, task, model, exec, fuel);
      && s.nstep <= r.session.nstep
      && StepsWithin(r.messages, s.nstep, r.session.nstep)
      && StepsAscend(r.messages)
  {
  }

  /** Two runs in a row: every message of the second carries a later step than every message of the first. */
  lemma SecondRunNumberedAfterFirst(s: NovagentSession, task1: string, task2: string, model: Model, exec: Exec, fuel1: nat, fuel2: nat)
    ensures var r1 := Arun(s, task1, model, exec, fuel1);
      var r2 := Arun(r1.session, task2, model, exec, fuel2);
      forall i, j :: 0 <= i < |r1.messages| && 0 <= j < |r2.messages| ==> r1.messages[i].step < r2.messages[j].step
  {
    var r1 := Arun(s, task1, model, exec, fuel1);
    ArunNumbering(s, task1, model, exec, fuel1);
    ArunNumbering(r1.session, task2, model, exec, fuel2);
  }
}

