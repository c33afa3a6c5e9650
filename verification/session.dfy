/**
  `NovagentSession` (novagent/session.py): the streaming turn loop. Each
  step streams one model answer, extracts the thought and the first
  ```` ```py ```` block, runs the code in the persistent context, reports
  what happened as messages, and feeds an observation back to the model.

  The async generators become finite sequences: the model is an oracle
  from the history it is sent to the chunks its stream delivers; `exec`
  is the context's oracle. The loop itself is in `SessionLoop`.
 */
module Session {
  import opened Wrappers
  import opened Strings
  import Fences
  import opened Conversation
  import opened Context
  import opened StepSummary

  datatype MessageType = Info | Agent | Output | Error | Final

  /** `MessageType.name`. */
  function TypeName(t: MessageType): string {
    match t
    case Info => "INFO"
    case Agent => "AGENT"
    case Output => "OUTPUT"
    case Error => "ERROR"
    case Final => "FINAL"
  }

  datatype Message = Message(kind: MessageType, step: nat, content: string)

  /** One streamed delta: `choices[0].delta.content` and the optional `usage` counters. */
  datatype Chunk = Chunk(content: Option<string>, promptTokens: Option<nat>, completionTokens: Option<nat>)

  datatype NovagentSession = NovagentSession(
    nstep: nat,
    promptTokens: nat,
    completionTokens: nat,
    history: seq<Turn>,
    context: PythonContext)

  const OpenFence := "```py"
  const CloseFence := "```"
  /** `END_CODE_TAG` of novagent/system_prompt.py. */
  const EndCodeTag := "<end_code>"
  const NoCodeMessage := "No code produced."

  /** `NovagentSession(model, context, system_prompt)`; the model is supplied per call. */
  function NewSession(systemPrompt: string, context: PythonContext): (s: NovagentSession)
    ensures s.nstep == 0 && s.promptTokens == 0 && s.completionTokens == 0
    ensures s.history == [Turn(System, systemPrompt)] && s.context == context
  {
    NovagentSession(0, 0, 0, [Turn(System, systemPrompt)], context)
  }

  /** `final_answer_value()`. */
  function FinalAnswerValue(s: NovagentSession): Option<string> {
    s.context.finalAnswerValue
  }

  // ---------------------------------------------------------------------
  // Extraction

  datatype Extraction = Extraction(thought: string, code: Option<string>)

  /**
    `_extract_thought_and_code`: `re.match(r"(.*?)```py(.*?)```", text, re.DOTALL)`.
    Without a match the text comes back untouched; with one, group 1 and
    group 2, each stripped.
   */
  function ExtractThoughtAndCode(text: string): (r: Extraction)
    ensures r.code.None? ==> r.thought == text
    ensures r.code.Some? ==> IsStripped(r.thought) && IsStripped(r.code.value)
  {
    match Fences.FirstFence(text, OpenFence, CloseFence)
    case None => Extraction(text, None)
    case Some(f) =>
      var thought := Strip(text[..f.open]);
      var code := Strip(text[f.open + |OpenFence|..f.close]);
      StripResultStripped(text[..f.open]);
      StripResultStripped(text[f.open + |OpenFence|..f.close]);
      Extraction(thought, Some(code))
  }

  /** Code is found exactly when the regular expression matches; without a match the text is returned untrimmed. */
  lemma ExtractFindsCodeIffMatch(text: string)
    ensures ExtractThoughtAndCode(text).code.None? <==>
      forall i: nat, j: nat :: !Fences.Matches(text, OpenFence, CloseFence, i, j)
    ensures ExtractThoughtAndCode(text).code.None? ==> ExtractThoughtAndCode(text).thought == text
  {
    Fences.FirstFenceIsLeastMatch(text, OpenFence, CloseFence);
  }

  /** On a match, the result is the stripped groups of the match the lazy regular expression reports. */
  lemma ExtractIsRegexGroups(text: string, i: nat, j: nat)
    requires Fences.LeastMatch(text, OpenFence, CloseFence, i, j)
    ensures ExtractThoughtAndCode(text) == Extraction(Strip(text[..i]), Some(Strip(text[i + |OpenFence|..j])))
  {
    Fences.FirstFenceIsRegexMatch(text, OpenFence, CloseFence, i, j);
  }

  /** Text after the first complete block is discarded: appending to such a text changes nothing. */
  lemma ExtractIgnoresSuffix(text: string, more: string)
    requires ExtractThoughtAndCode(text).code.Some?
    ensures ExtractThoughtAndCode(text + more) == ExtractThoughtAndCode(text)
  {
    Fences.FirstFenceIgnoresSuffix(text, more, OpenFence, CloseFence);
    var f := Fences.FirstFence(text, OpenFence, CloseFence).value;
    var t := text + more;
    assert f.close + |CloseFence| <= |text|;
    assert t[..f.open] == text[..f.open];
    assert t[f.open + |OpenFence|..f.close] == text[f.open + |OpenFence|..f.close];
  }

  /**
    The assistant turn `f"{thought}\n```py\n{code}\n```{END_CODE_TAG}"`,
    as the f-string's five pieces: the thought on its own line, then the
    code in a python block, then the end-of-code tag.
   */
  function Reserialize(thought: string, code: string): (r: string)
    ensures |r| == |thought| + |code| + 21
    ensures r[..|thought| + 1] == thought + "\n"
    ensures r[|thought| + 1..|thought| + 6] == OpenFence
    ensures r[|thought| + 6..|thought| + |code| + 8] == "\n" + code + "\n"
    ensures r[|r| - |EndCodeTag| - 3..] == CloseFence + EndCodeTag
  {
    ConcatFive(thought, "\n```py\n", code, "\n```", EndCodeTag);
    var t := thought + "\n```py\n" + code + "\n```" + EndCodeTag;
    assert t == (thought + "\n```py") + ("\n" + code + "\n") + ("```" + EndCodeTag);
    Concat([thought, "\n```py\n", code, "\n```", EndCodeTag])
  }

  /** The re-serialised turn as one concatenation. */
  lemma ReserializeFlat(thought: string, code: string)
    ensures Reserialize(thought, code) == thought + "\n```py\n" + code + "\n```" + EndCodeTag
  {
    ConcatFive(thought, "\n```py\n", code, "\n```", EndCodeTag);
  }

  /** The re-serialised turn cut at the two newlines around the code. */
  lemma ReserializeAroundCode(thought: string, code: string)
    ensures Reserialize(thought, code) == (thought + "\n```py") + ['\n'] + code + ['\n'] + ("```" + EndCodeTag)
  {
    ReserializeFlat(thought, code);
    assert "\n```py\n" == "\n```py" + ['\n'];
    assert "\n```" == ['\n'] + "```";
  }

  /** In a re-serialised turn `t` the first opening fence follows the thought and its newline. */
  lemma ReserializedOpen(thought: string, code: string, t: string)
    requires NoOccurrence(thought, OpenFence)
    requires t == Reserialize(thought, code)
    ensures Find(t, OpenFence, 0) == Some(|thought| + 1)
  {
    var rest := "```py\n" + code + "\n```" + EndCodeTag;
    ReserializeFlat(thought, code);
    assert t == thought + ['\n'] + rest;
    NoOccurrenceUpToSeparator(thought, '\n', rest, OpenFence);
    assert ContainsAt(rest, OpenFence, 0) by { assert rest[..5] == OpenFence; }
    ContainsAtShift(thought + ['\n'], rest, OpenFence, 0);
    FindIsFirst(t, OpenFence, 0, |thought| + 1);
  }

  /** In a re-serialised turn `t` the first closing fence after the opening one follows the code and its newline. */
  lemma ReserializedClose(thought: string, code: string, t: string)
    requires NoOccurrence(code, CloseFence)
    requires t == Reserialize(thought, code)
    ensures Find(t, CloseFence, |thought| + 6) == Some(|thought| + |code| + 8)
  {
    var pre := thought + "\n```py";
    var rest := "```" + EndCodeTag;
    ReserializeAroundCode(thought, code);
    assert ContainsAt(rest, CloseFence, 0) by { assert rest[..3] == CloseFence; }
    FindAfterSeparatedPiece(t, pre, '\n', code, rest, CloseFence, |thought| + 6, |thought| + |code| + 8);
  }

  /** The block the regular expression finds in a re-serialised turn `t` is the one written around the code. */
  lemma ReserializedFence(thought: string, code: string, t: string)
    requires NoOccurrence(thought, OpenFence) && NoOccurrence(code, CloseFence)
    requires t == Reserialize(thought, code)
    ensures Fences.FirstFence(t, OpenFence, CloseFence) == Some(Fences.Fence(|thought| + 1, |thought| + |code| + 8))
  {
    ReserializedOpen(thought, code, t);
    ReserializedClose(thought, code, t);
  }

  /** The two groups of a re-serialised turn `t`: the thought and the code, each with one newline of padding. */
  lemma ReserializedGroups(thought: string, code: string, t: string)
    requires t == Reserialize(thought, code)
    ensures |t| == |thought| + |code| + 21
    ensures t[..|thought| + 1] == thought + "\n"
    ensures t[|thought| + 6..|thought| + |code| + 8] == "\n" + code + "\n"
  {
    var pre := thought + "\n```py";
    ReserializeAroundCode(thought, code);
    assert t == pre + ['\n'] + code + ['\n'] + ("```" + EndCodeTag);
    assert t[..|thought| + 1] == pre[..|thought| + 1] == thought + "\n";
    assert t[|pre|..|pre| + |code| + 2] == ['\n'] + code + ['\n'];
  }

  /** Stripping the groups of a re-serialised turn `t` removes exactly that padding. */
  lemma ReserializedGroupsStripped(thought: string, code: string, t: string)
    requires IsStripped(thought) && IsStripped(code)
    requires t == Reserialize(thought, code)
    ensures |t| == |thought| + |code| + 21
    ensures Strip(t[..|thought| + 1]) == thought
    ensures Strip(t[|thought| + 6..|thought| + |code| + 8]) == code
  {
    ReserializedGroups(thought, code, t);
    StripPadded([], thought, "\n");
    assert [] + thought + "\n" == thought + "\n";
    StripPadded("\n", code, "\n");
  }

  /**
    What extraction needs to know about a text: the block the regular
    expression finds spans `[i, j)`, and stripping the text before it and
    the code inside it gives `thought` and `code`.
   */
  predicate FencedAt(text: string, i: nat, j: nat, thought: string, code: string) {
    && Fences.FirstFence(text, OpenFence, CloseFence) == Some(Fences.Fence(i, j))
    && i + 5 <= j <= |text|
    && Strip(text[..i]) == thought
    && Strip(text[i + 5..j]) == code
  }

  /** Extraction strips the two groups around the block the regular expression finds. */
  lemma ExtractAtFence(text: string, i: nat, j: nat, thought: string, code: string)
    requires FencedAt(text, i, j, thought, code)
    ensures ExtractThoughtAndCode(text) == Extraction(thought, Some(code))
  {
    assert |OpenFence| == 5;
  }

  /** A re-serialised turn has its block right after the thought's newline, around the code. */
  lemma ReserializedFencedAt(thought: string, code: string)
    requires IsStripped(thought) && IsStripped(code)
    requires NoOccurrence(thought, OpenFence) && NoOccurrence(code, CloseFence)
    ensures FencedAt(Reserialize(thought, code), |thought| + 1, |thought| + |code| + 8, thought, code)
  {
    var t := Reserialize(thought, code);
    ReserializedFence(thought, code, t);
    ReserializedGroupsStripped(thought, code, t);
  }

  /** Extraction of a re-serialised turn gives back its thought and code. */
  lemma ExtractReserialized(thought: string, code: string)
    requires IsStripped(thought) && IsStripped(code)
    requires NoOccurrence(thought, OpenFence) && NoOccurrence(code, CloseFence)
    ensures ExtractThoughtAndCode(Reserialize(thought, code)) == Extraction(thought, Some(code))
  {
    ReserializedFencedAt(thought, code);
    ExtractAtFence(Reserialize(thought, code), |thought| + 1, |thought| + |code| + 8, thought, code);
  }

  /**
    Round trip: the assistant turn the session appends re-extracts to the
    thought and code it was built from.
   */
  lemma ExtractRoundTrip(text: string)
    requires ExtractThoughtAndCode(text).code.Some?
    ensures
      var e := ExtractThoughtAndCode(text);
      ExtractThoughtAndCode(Reserialize(e.thought, e.code.value)) == e
  {
    var e := ExtractThoughtAndCode(text);
    ExtractedPartsClean(text);
    ExtractReserialized(e.thought, e.code.value);
  }

  /** The extracted thought holds no opening fence and the extracted code no closing fence. */
  lemma ExtractedPartsClean(text: string)
    requires ExtractThoughtAndCode(text).code.Some?
    ensures NoOccurrence(ExtractThoughtAndCode(text).thought, OpenFence)
    ensures NoOccurrence(ExtractThoughtAndCode(text).code.value, CloseFence)
  {
    var f := Fences.FirstFence(text, OpenFence, CloseFence).value;
    Fences.NoOpenBeforeFence(text, OpenFence, CloseFence);
    NoOccurrenceStrip(text[..f.open], OpenFence);
    Fences.NoCloseInBody(text, OpenFence, CloseFence);
    NoOccurrenceStrip(text[f.open + |OpenFence|..f.close], CloseFence);
  }
}
