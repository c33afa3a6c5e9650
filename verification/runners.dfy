/**
  The two runners of novagent/runners.py drive one `arun` call to its end
  and return the session's final answer. `StdoutRunner` also prints the
  message stream: a separator line when the step changes, a `[TYPE]`
  header when the type changes, then the content, on its own line except
  for AGENT chunks, which run together as the model streamed them.

  What it prints is a sequence of `Print` events, each the effect of one
  `print` call; `Text` is the characters they write.
 */
module Runners {
  import opened Wrappers
  import opened Strings
  import opened Context
  import opened Session
  import SessionLoop

  /** `"=" * 80`, the step separator. */
  const SeparatorLine := "================================================================================"

  /** One `print` call of `StdoutRunner._run`. */
  datatype Print =
    | Separator          // the line of `=`
    | BlankLine          // `print("")` before a header that follows AGENT chunks
    | Header(kind: MessageType)
    | Content(text: string)  // `print(message.content, end="")`
    | LineEnd            // `print("")` after any content but AGENT

  /** The characters one `print` call writes. */
  function PrintText(p: Print): string {
    match p
    case Separator => SeparatorLine + "\n"
    case BlankLine => "\n"
    case Header(k) => "[" + TypeName(k) + "]\n"
    case Content(t) => t
    case LineEnd => "\n"
  }

  /** Everything a sequence of `print` calls writes. */
  function Text(ps: seq<Print>): string
    decreases |ps|
  {
    if |ps| == 0 then "" else Text(ps[..|ps| - 1]) + PrintText(ps[|ps| - 1])
  }

  /** What the runner remembers between messages: `current_step` and `current_type`, both `None` at first. */
  datatype RunnerState = RunnerState(currentStep: Option<nat>, currentType: Option<MessageType>)

  const Fresh := RunnerState(None, None)

  datatype Rendered = Rendered(state: RunnerState, prints: seq<Print>)

  /**
    The loop body of `StdoutRunner._run` for one message. A new step
    prints the separator and forgets the type; a new type prints a header,
    after a blank line when AGENT chunks precede it; then the content, and
    a line end for anything but AGENT.
   */
  function Render(st: RunnerState, m: Message): (r: Rendered)
    ensures r.state == RunnerState(Some(m.step), Some(m.kind))
    ensures var newStep := st.currentStep != Some(m.step);
      var newType := newStep || st.currentType != Some(m.kind);
      var blank := !newStep && st.currentType == Some(Agent) && m.kind != Agent;
      r.prints ==
        (if newStep then [Separator] else []) +
        (if blank then [BlankLine] else []) +
        (if newType then [Header(m.kind)] else []) +
        [Content(m.content)] +
        (if m.kind != Agent then [LineEnd] else [])
  {
    var (st1, sep) :=
      if Some(m.step) != st.currentStep then (RunnerState(Some(m.step), None), [Separator]) else (st, []);
    var (st2, head) :=
      if Some(m.kind) != st1.currentType then
        (st1.(currentType := Some(m.kind)), (if st1.currentType == Some(Agent) then [BlankLine] else []) + [Header(m.kind)])
      else (st1, []);
    var tail := [Content(m.content)] + (if m.kind != Agent then [LineEnd] else []);
    Rendered(st2, sep + head + tail)
  }

  /** The loop of `StdoutRunner._run` over the whole stream. */
  function RenderAll(st: RunnerState, ms: seq<Message>): (r: Rendered)
    ensures |ms| > 0 ==> r.state == RunnerState(Some(ms[|ms| - 1].step), Some(ms[|ms| - 1].kind))
    ensures |ms| == 0 ==> r.state == st
    decreases |ms|
  {
    if |ms| == 0 then Rendered(st, [])
    else
      var prev := RenderAll(st, ms[..|ms| - 1]);
      var last := Render(prev.state, ms[|ms| - 1]);
      Rendered(last.state, prev.prints + last.prints)
  }

  // ---------------------------------------------------------------------
  // What the printed stream shows

  /** The content events' texts, one after the other. */
  function Payload(ps: seq<Print>): string
    decreases |ps|
  {
    if |ps| == 0 then ""
    else Payload(ps[..|ps| - 1]) + (if ps[|ps| - 1].Content? then ps[|ps| - 1].text else "")
  }

  lemma PayloadAppend(a: seq<Print>, b: seq<Print>)
    ensures Payload(a + b) == Payload(a) + Payload(b)
    decreases |b|
  {
    if |b| == 0 {
      assert a + b == a;
    } else {
      assert (a + b)[..|a + b| - 1] == a + b[..|b| - 1];
      PayloadAppend(a, b[..|b| - 1]);
    }
  }

  /** An optional print adds its content, if it is one. */
  lemma PayloadOptional(b: bool, x: Print)
    ensures Payload(if b then [x] else []) == if b && x.Content? then x.text else ""
  {
    if b {
      assert [x][..0] == [];
    }
  }

  /** One message prints its own content and no other. */
  lemma RenderPayload(st: RunnerState, m: Message)
    ensures Payload(Render(st, m).prints) == m.content
  {
    var newStep := st.currentStep != Some(m.step);
    var newType := newStep || st.currentType != Some(m.kind);
    var blank := !newStep && st.currentType == Some(Agent) && m.kind != Agent;
    var a := if newStep then [Separator] else [];
    var b := if blank then [BlankLine] else [];
    var c := if newType then [Header(m.kind)] else [];
    var d := if true then [Content(m.content)] else [];
    var e := if m.kind != Agent then [LineEnd] else [];
    PayloadAppend(a + b + c + d, e);
    PayloadAppend(a + b + c, d);
    PayloadAppend(a + b, c);
    PayloadAppend(a, b);
    PayloadOptional(newStep, Separator);
    PayloadOptional(blank, BlankLine);
    PayloadOptional(newType, Header(m.kind));
    PayloadOptional(true, Content(m.content));
    PayloadOptional(m.kind != Agent, LineEnd);
  }

  /** Every message's content is printed, verbatim and in order, and nothing else is printed as content. */
  lemma {:induction false} RenderKeepsContents(st: RunnerState, ms: seq<Message>)
    ensures Payload(RenderAll(st, ms).prints) == SessionLoop.Contents(ms)
    decreases |ms|
  {
    if |ms| > 0 {
      var prev := RenderAll(st, ms[..|ms| - 1]);
      RenderKeepsContents(st, ms[..|ms| - 1]);
      PayloadAppend(prev.prints, Render(prev.state, ms[|ms| - 1]).prints);
      RenderPayload(prev.state, ms[|ms| - 1]);
    }
  }

  /** How many times the step changes along `ms`, starting from `prev`. */
  function StepChanges(prev: Option<nat>, ms: seq<Message>): nat
    decreases |ms|
  {
    if |ms| == 0 then 0
    else
      var before := if |ms| == 1 then prev else Some(ms[|ms| - 2].step);
      StepChanges(prev, ms[..|ms| - 1]) + (if before != Some(ms[|ms| - 1].step) then 1 else 0)
  }

  /** How many separators a sequence of prints holds. */
  function Separators(ps: seq<Print>): nat
    decreases |ps|
  {
    if |ps| == 0 then 0 else Separators(ps[..|ps| - 1]) + (if ps[|ps| - 1] == Separator then 1 else 0)
  }

  lemma SeparatorsAppend(a: seq<Print>, b: seq<Print>)
    ensures Separators(a + b) == Separators(a) + Separators(b)
    decreases |b|
  {
    if |b| == 0 {
      assert a + b == a;
    } else {
      assert (a + b)[..|a + b| - 1] == a + b[..|b| - 1];
      SeparatorsAppend(a, b[..|b| - 1]);
    }
  }

  /** An optional print adds one separator if it is one. */
  lemma SeparatorsOptional(b: bool, x: Print)
    ensures Separators(if b then [x] else []) == if b && x == Separator then 1 else 0
  {
    if b {
      assert [x][..0] == [];
    }
  }

  /** One message prints a separator exactly when its step differs from the runner's current one. */
  lemma RenderSeparators(st: RunnerState, m: Message)
    ensures Separators(Render(st, m).prints) == if st.currentStep != Some(m.step) then 1 else 0
  {
    var newStep := st.currentStep != Some(m.step);
    var newType := newStep || st.currentType != Some(m.kind);
    var blank := !newStep && st.currentType == Some(Agent) && m.kind != Agent;
    var a := if newStep then [Separator] else [];
    var b := if blank then [BlankLine] else [];
    var c := if newType then [Header(m.kind)] else [];
    var d := if true then [Content(m.content)] else [];
    var e := if m.kind != Agent then [LineEnd] else [];
    SeparatorsAppend(a + b + c + d, e);
    SeparatorsAppend(a + b + c, d);
    SeparatorsAppend(a + b, c);
    SeparatorsAppend(a, b);
    SeparatorsOptional(newStep, Separator);
    SeparatorsOptional(blank, BlankLine);
    SeparatorsOptional(newType, Header(m.kind));
    SeparatorsOptional(true, Content(m.content));
    SeparatorsOptional(m.kind != Agent, LineEnd);
  }

  /**
    A separator is printed exactly once per step change, counting the
    first message of a fresh runner, whose `current_step` is `None`.
   */
  lemma {:induction false} SeparatorPerStepChange(st: RunnerState, ms: seq<Message>)
    ensures Separators(RenderAll(st, ms).prints) == StepChanges(st.currentStep, ms)
    decreases |ms|
  {
    if |ms| > 0 {
      var prev := RenderAll(st, ms[..|ms| - 1]);
      SeparatorPerStepChange(st, ms[..|ms| - 1]);
      SeparatorsAppend(prev.prints, Render(prev.state, ms[|ms| - 1]).prints);
      RenderSeparators(prev.state, ms[|ms| - 1]);
      if |ms| > 1 {
        assert ms[..|ms| - 1][|ms| - 2] == ms[|ms| - 2];
      }
    }
  }

  /** A separator is always followed by the header of the message that caused it: a step change resets the type. */
  lemma HeaderAfterSeparator(st: RunnerState, m: Message)
    requires st.currentStep != Some(m.step)
    ensures Render(st, m).prints[..2] == [Separator, Header(m.kind)]
  {
  }

  /** A fresh runner opens its output with a separator and the first message's header. */
  lemma {:induction false} FreshStartsWithSeparator(ms: seq<Message>)
    requires |ms| > 0
    ensures |RenderAll(Fresh, ms).prints| >= 2
    ensures RenderAll(Fresh, ms).prints[..2] == [Separator, Header(ms[0].kind)]
    decreases |ms|
  {
    if |ms| == 1 {
      assert ms[..0] == [];
      HeaderAfterSeparator(Fresh, ms[0]);
    } else {
      var init := ms[..|ms| - 1];
      FreshStartsWithSeparator(init);
      var prev := RenderAll(Fresh, init);
      var ps := prev.prints + Render(prev.state, ms[|ms| - 1]).prints;
      assert ps[..2] == prev.prints[..2];
    }
  }

  /** Within a step, a header appears only when the type changes, after a blank line exactly when AGENT chunks came before. */
  lemma HeaderWithinStep(st: RunnerState, m: Message)
    requires st.currentStep == Some(m.step)
    ensures Header(m.kind) in Render(st, m).prints <==> st.currentType != Some(m.kind)
    ensures BlankLine in Render(st, m).prints <==> st.currentType == Some(Agent) && m.kind != Agent
  {
  }

  /** The prints of chunks shown with nothing around them. */
  function Bare(ms: seq<Message>): seq<Print> {
    seq(|ms|, i requires 0 <= i < |ms| => Content(ms[i].content))
  }

  lemma {:induction false} BareText(ms: seq<Message>)
    ensures Text(Bare(ms)) == SessionLoop.Contents(ms)
    decreases |ms|
  {
    if |ms| > 0 {
      assert Bare(ms)[..|ms| - 1] == Bare(ms[..|ms| - 1]);
      BareText(ms[..|ms| - 1]);
    }
  }

  /**
    Consecutive AGENT chunks of the step in progress print as their plain
    concatenation: no header, no separator, nothing in between.
   */
  lemma {:induction false} AgentChunksRunTogether(n: nat, ms: seq<Message>)
    requires forall i :: 0 <= i < |ms| ==> ms[i].kind == Agent && ms[i].step == n
    ensures RenderAll(RunnerState(Some(n), Some(Agent)), ms).prints == Bare(ms)
    ensures Text(RenderAll(RunnerState(Some(n), Some(Agent)), ms).prints) == SessionLoop.Contents(ms)
    decreases |ms|
  {
    if |ms| > 0 {
      var st := RunnerState(Some(n), Some(Agent));
      var init := ms[..|ms| - 1];
      AgentChunksRunTogether(n, init);
      assert Render(RenderAll(st, init).state, ms[|ms| - 1]).prints == [Content(ms[|ms| - 1].content)];
      assert Bare(init) + [Content(ms[|ms| - 1].content)] == Bare(ms);
    }
    BareText(ms);
  }

  // ---------------------------------------------------------------------
  // The two runners

  /** How `run` comes back: with the final answer, with an exception propagating, or unfinished when the fuel ran out. */
  datatype RunEnd = Returned(answer: Option<string>) | Propagated(exception: string) | Unfinished

  /** The end of a run, from the way the stream stopped. */
  function EndOf(o: SessionLoop.Outcome): RunEnd {
    match o.stop
    case Raised(x) => Propagated(x)
    case OutOfFuel => Unfinished
    case _ => RunEnd.Returned(FinalAnswerValue(o.session))
  }

  /** `DummyRunner(session).run(task)`: drain the stream, return the final answer. */
  function DummyRun(s: NovagentSession, task: string, model: SessionLoop.Model, exec: Exec, fuel: nat): (r: (NovagentSession, RunEnd))
    ensures Valid(r.0.context)
  {
    var o := SessionLoop.Arun(s, task, model, exec, fuel);
    (o.session, EndOf(o))
  }

  datatype StdoutResult = StdoutResult(session: NovagentSession, state: RunnerState, prints: seq<Print>, end: RunEnd)

  /** `StdoutRunner(session).run(task)`: print the stream, return the final answer. */
  function StdoutRun(st: RunnerState, s: NovagentSession, task: string, model: SessionLoop.Model, exec: Exec, fuel: nat): (r: StdoutResult)
    ensures Valid(r.session.context)
  {
    var o := SessionLoop.Arun(s, task, model, exec, fuel);
    var rendered := RenderAll(st, o.messages);
    StdoutResult(o.session, rendered.state, rendered.prints, EndOf(o))
  }

  /**
    Printing changes nothing about the run: both runners leave the same
    session and come back the same way. A returned answer is present
    exactly when the run ended on one, and it is the content of the FINAL
    message the stream ended with.
   */
  lemma RunnersAgree(st: RunnerState, s: NovagentSession, task: string, model: SessionLoop.Model, exec: Exec, fuel: nat)
    ensures var d := DummyRun(s, task, model, exec, fuel);
      var p := StdoutRun(st, s, task, model, exec, fuel);
      d.0 == p.session && d.1 == p.end
    ensures var o := SessionLoop.Arun(s, task, model, exec, fuel);
      var e := DummyRun(s, task, model, exec, fuel).1;
      && (e.Returned? && e.answer.Some? <==> o.stop == SessionLoop.Answered)
      && (o.stop == SessionLoop.Answered ==> e.answer == Some(o.messages[|o.messages| - 1].content))
  {
    SessionLoop.ArunStopsOnAnswer(s, task, model, exec, fuel);
    SessionLoop.ArunAnswerIsFresh(s, task, model, exec, fuel);
  }

  /** The stdout runner prints every message's content, in order, and one separator per step. */
  lemma StdoutShowsRun(st: RunnerState, s: NovagentSession, task: string, model: SessionLoop.Model, exec: Exec, fuel: nat)
    ensures var o := SessionLoop.Arun(s, task, model, exec, fuel);
      var p := StdoutRun(st, s, task, model, exec, fuel);
      && Payload(p.prints) == SessionLoop.Contents(o.messages)
      && Separators(p.prints) == StepChanges(st.currentStep, o.messages)
  {
    var o := SessionLoop.Arun(s, task, model, exec, fuel);
    RenderKeepsContents(st, o.messages);
    SeparatorPerStepChange(st, o.messages);
  }
}
