# novagent, modelled in Dafny

novagent is a small code agent. A language model is asked for a thought
and a block of Python code. The code runs in a persistent namespace, and
what it printed goes back to the model as an observation. This repeats
until the code calls `final_answer(value)`. This project models that loop
and the pure rules around it as immutable Dafny datatypes and functions,
and proves what the loop guarantees whatever the model says and whatever
the code does.

What is modelled, one module per source component:

- `Context` (context.py): the persistent namespace, the two-field
  final-answer state, and `run`. `run` turns an `Exception` into an
  `Error during execution: …` line on stderr and lets any other
  `BaseException` propagate.
- `Session`, `StepSummary`, `Fences`, `SessionLoop` (session.py): the
  streaming session.
  - messages and message types;
  - the `(.*?)```py(.*?)```` extractor, modelled as a first-occurrence
    search and proved equal to the regular expression's lazy least match;
  - the assistant turn re-serialised around the code, and its round trip
    through the extractor;
  - the four-branch step summary, with a parser that reads it back;
  - `_call_model` over a chunk stream;
  - one iteration of `arun`;
  - the whole `arun` loop.
- `Agent` (agent.py): the older, non-streaming agent.
  - Its extractor stops at `<end_code>` and strips trailing backticks.
  - A reply without code makes it count the step and ask again. The
    retry can get code, since the model samples; a model that never writes
    code keeps it spinning.
  - A final answer makes it break before any observation is appended.
- `Runners` (runners.py): both runners.
  - `StdoutRunner` is a transducer from messages to print events.
  - `DummyRunner` only drains the stream.
- `Loggers` and `Outputs` (loggers.py, outputs.py): the verbosity filter,
  the colour tables with their defaults, and the line layouts.
- `Strings`, `Decimal`, `Conversation`, `Ansi`, `Wrappers`: helpers.
  - `Strings` has the first-occurrence search, Python's `strip`, `lstrip`,
    `rstrip` and `join`.
  - `Decimal` has `str(n)` on naturals.
  - `Conversation` has chat turns and roles.
  - `Ansi` has the colour escapes.

How the foreign parts are modelled:

- The language model is a function parameter.
  - For the session, it maps the history to the chunk stream it answers with.
  - For the older agent, it maps the history and the number of the pass
    asking to an optional reply. litellm's `completion` samples, so the
    same history can get a different reply on a retry; the pass number
    tells those calls apart.
- `exec` is an oracle. It maps the code and the namespace to the stdout and
  stderr written, the namespace writes, the `final_answer` calls, and
  whether the code raised an `Exception`, raised another `BaseException`,
  or completed.
- Nothing forces the model to call `final_answer`, so both loops take a
  `fuel` bound on the number of iterations. They report running out of it
  as a separate ending.
- Token counters are unbounded naturals.

Where the code and its documentation differ, the model follows the code.

- Both extractors return the text unchanged, not stripped, when nothing
  matches (session.py:141-142, agent.py:56-57).
- `StdoutRunner` groups output by step and by message type only. It has no
  rendering that splits on code fences.

## Model

| member | source | states |
|---|---|---|
| Strings.Find | novagent/session.py:139 | the first index at or after `from` where the pattern occurs, with no occurrence between; none exactly when the pattern never occurs there |
| Strings.StripIsTrimBoth | novagent/session.py:144-145 | `strip()` is `lstrip()` followed by `rstrip()` over the `isspace()` characters |
| Strings.StripSlice | novagent/session.py:144-145 | `strip()` returns a contiguous piece of its input with no whitespace at either end |
| Strings.StripPadded | novagent/session.py:144-145 | stripping whitespace padding from a stripped string gives that string back |
| Strings.NoOccurrenceStrip | novagent/session.py:144-145 | stripping cannot create an occurrence of a pattern |
| Decimal.Show | novagent/session.py:152-163 | `str(n)` is a non-empty digit string denoting `n`, without a leading zero |
| Decimal.ShowInjective | novagent/session.py:152-163 | different numbers print differently |
| Decimal.SplitShow | novagent/session.py:152-163 | a printed number followed by a non-digit splits back into the number and the rest |
| Fences.FirstFenceIsLeastMatch | novagent/session.py:139 | a fence found by the search is a match of `(.*?)OPEN(.*?)CLOSE`; none is found exactly when nothing matches; a found one is the lazy least match |
| Fences.LeastMatchUnique | novagent/session.py:139 | the regular expression has at most one least match |
| Fences.FirstFenceIsRegexMatch | novagent/session.py:139 | the search finds fence `(i, j)` exactly when `(i, j)` is the least match |
| Fences.FirstFenceIgnoresSuffix | novagent/session.py:139-147 | text appended after a complete fence does not change the fence found |
| Fences.NoOpenBeforeFence | novagent/session.py:139 | the text before the found opening marker holds no opening marker |
| Fences.NoCloseInBody | novagent/session.py:139 | the body between the found markers holds no closing marker |
| Context.NewContext | novagent/context.py:6-10 | a fresh context has no final answer and binds only `final_answer`, to the callback |
| Context.ClearFinalAnswer | novagent/context.py:12-14 | clearing leaves no final answer and keeps the namespace |
| Context.FinalAnswer | novagent/context.py:16-18 | the callback sets the flag and the value together and keeps the namespace |
| Context.ApplyCalls | novagent/context.py:16-18 | several callback calls leave the last value; none leave the context as it was |
| Context.ApplyWrites | novagent/context.py:27 | after a snippet's writes, each name holds its last write, or its old binding if never written |
| Context.Run | novagent/context.py:20-34 | the namespace takes the writes; the final-answer fields change only through callback calls; an `Exception` appends `Error during execution: <e>` and a newline to stderr; any other `BaseException` escapes |
| Context.ClearIdempotent | novagent/context.py:12-14 | clearing twice is clearing once |
| Context.FinalAnswerOverwrites | novagent/context.py:16-18 | a later `final_answer` call overwrites an earlier one |
| Context.FinalAnswerThenClear | novagent/context.py:12-18 | setting then clearing the answer is the same as only clearing |
| Context.BindingPersists | novagent/context.py:20-27 | a name one run binds is still bound in a later run that does not write it |
| StepSummary.StepSumup | novagent/session.py:149-163 | the summary always starts with `Step ` and something after it |
| StepSummary.SumupShape | novagent/session.py:152-163 | the four branches are one rule: the label alone with no counters, else the sum of both counters followed by both counters, `?` for an unreported one |
| StepSummary.SumupRoundTrip | novagent/session.py:149-163 | parsing a printed summary gives back the step number and both counters |
| StepSummary.SumupInjective | novagent/session.py:149-163 | different step numbers or counters never print the same summary |
| StepSummary.CountersRoundTrip | novagent/session.py:158-163 | the `(in: P - out: C)` part reads back to its two counters |
| StepSummary.TotalsRoundTrip | novagent/session.py:158-163 | the `- Total tokens T (in: …)` part reads back to its counters, with `T` their sum |
| Session.NewSession | novagent/session.py:32-45 | a new session starts at step 0 with zero counters and only the system turn in its history |
| Session.ExtractThoughtAndCode | novagent/session.py:136-147 | with no code the text comes back unchanged; with code, thought and code are stripped |
| Session.ExtractFindsCodeIffMatch | novagent/session.py:139-142 | code is found exactly when the regular expression matches; otherwise the text is returned untrimmed |
| Session.ExtractIsRegexGroups | novagent/session.py:139-147 | on a match, the result is the two stripped groups of the lazy least match |
| Session.ExtractIgnoresSuffix | novagent/session.py:139-147 | everything after the first complete block is discarded |
| Session.Reserialize | novagent/session.py:81 | the assistant turn is the thought on its own line, the opening fence, the code between two newlines, the closing fence and the end-of-code tag |
| Session.ReserializedFence | novagent/session.py:81 | in a re-serialised assistant turn, the regular expression finds the block written around the code |
| Session.ReserializedGroupsStripped | novagent/session.py:81 | stripping the two groups of a re-serialised turn removes exactly the padding the turn added |
| Session.ExtractReserialized | novagent/session.py:81 | extracting a re-serialised turn gives back its thought and code |
| Session.ExtractRoundTrip | novagent/session.py:136-147 | re-serialising an extraction that found code and extracting again gives the same thought and code |
| Session.ExtractedPartsClean | novagent/session.py:139-145 | an extracted thought holds no opening fence, and extracted code no closing fence |
| SessionLoop.Absorb | novagent/session.py:119-134 | one chunk appends exactly one AGENT message with its content when the content is non-empty and none otherwise, keeping the earlier messages; extends the text by the chunk's content; adds its reported counts |
| SessionLoop.CallModel | novagent/session.py:118-134 | the stream yields one AGENT message of the step per non-empty chunk, carrying that chunk's content, in order; their concatenation is the reply; the counters grow by every reported count |
| SessionLoop.ObservationTurn | novagent/session.py:90-110 | the user turn is empty exactly when there is no output, no error and no answer; it opens with `Observation:` when something was printed and ends with `Final:` and the answer when one is set |
| SessionLoop.ObservationLayout | novagent/session.py:90-110 | the user turn in each of the seven cases: the non-empty streams under `Observation:` joined by a newline, then `Final:` and the answer; nothing to report gives the empty turn |
| SessionLoop.Reports | novagent/session.py:93-108 | a step yields OUTPUT with stdout exactly when stdout is non-empty, ERROR with stderr exactly when stderr is non-empty, FINAL with the answer when one is set, and nothing else |
| SessionLoop.ReportsInOrder | novagent/session.py:84-108 | INFO, then OUTPUT if out is non-empty, ERROR if err is non-empty, FINAL if an answer is set, all tagged with the step |
| SessionLoop.RunCode | novagent/session.py:81-110 | appends the re-serialised assistant turn; yields INFO with the summary first; appends the observation unless the code escaped; announces a set answer last |
| SessionLoop.RunCodeObserves | novagent/session.py:81-110 | when `run` returns, the step yields INFO with the summary followed by its reports, and the history gains exactly the assistant turn and the observation built from its output and answer |
| SessionLoop.RunCodeEscapes | novagent/session.py:81-87 | when the code lets an exception escape, the step has yielded only INFO, the history gains only the assistant turn, and the exception ends the loop |
| SessionLoop.Step | novagent/session.py:63-110 | an iteration advances the step number by exactly one and keeps the context well-formed |
| SessionLoop.StepMessages | novagent/session.py:63-107 | every message of an iteration carries its step number, in the order AGENT, INFO, OUTPUT, ERROR, FINAL, starting with the streamed chunks |
| SessionLoop.StepNoCode | novagent/session.py:74-78 | the loop stops with no code exactly when the reply has none; it then yields one ERROR, runs nothing and appends no turn |
| SessionLoop.StepAppendsTurns | novagent/session.py:74-81 | with code, the assistant turn is appended and re-extracts to what was extracted |
| SessionLoop.StepCounters | novagent/session.py:130-134 | the counters grow by every count the stream reports and by nothing else |
| SessionLoop.StepAdvances | novagent/session.py:63-110 | every iteration advances the session, whatever the model and the code do |
| SessionLoop.Iterate | novagent/session.py:63-110 | the loop keeps the history as a prefix and counters monotone; it stops on an answer exactly when the flag is set; an answered loop ends with the FINAL message |
| SessionLoop.Loop | novagent/session.py:63-110 | the loop keeps the context well-formed; its guarantees are those of `SessionLoop.Iterate` |
| SessionLoop.Arun | novagent/session.py:50-110 | a run keeps the context well-formed; the `Arun…` lemmas below state what it does |
| SessionLoop.Prepared | novagent/session.py:56-60 | the session the loop starts from has no final answer |
| SessionLoop.IterateSteps | novagent/session.py:63-65 | without an answer and with fuel, the loop takes at least one step |
| SessionLoop.ArunAppendsTask | novagent/session.py:57-60 | `arun` appends exactly one `Task:` user turn, then only appends |
| SessionLoop.ArunAnswerIsFresh | novagent/session.py:57-108 | an old answer never ends a new run: it takes a step, and an answered run ends with the FINAL message carrying the answer |
| SessionLoop.ArunStopsOnAnswer | novagent/session.py:63-78 | unless something escaped, the run ended on an answer exactly when the session holds one |
| SessionLoop.ArunNumbering | novagent/session.py:63-65 | step numbers never go down, are never reset, and tag messages within the run's steps |
| SessionLoop.SecondRunNumberedAfterFirst | novagent/session.py:40-65 | every message of a second run carries a later step than every message of the first |
| Agent.NewAgent | novagent/agent.py:10-25 | a new agent uses the given context or a fresh one, and is already cleared |
| Agent.Clear | novagent/agent.py:72-76 | clearing resets the step counter to 0 and the history to the system turn, keeping the context |
| Agent.ClearIdempotent | novagent/agent.py:72-76 | clearing twice is clearing once, whatever the counter and history were |
| Agent.CallModel | novagent/agent.py:45-51 | the call fails with `No response from model.` exactly when the reply is missing or empty; otherwise it returns the model's reply for this history and pass |
| Agent.Extract | novagent/agent.py:53-62 | with no code the text comes back unchanged; with code, thought and code are stripped |
| Agent.ExtractIsRegexGroups | novagent/agent.py:53-62 | code is found exactly when `(.*?)```py(.*?)<end_code>` matches, as the least match's stripped prefix and its body with backticks trimmed then stripped |
| Agent.CleanPaddedBody | novagent/agent.py:60 | `rstrip("`")` then `strip()` on a newline-padded body ending in a fence leaves the code |
| Agent.ExtractSessionTurn | novagent/agent.py:53-62 | the older extractor reads a session's re-serialised turn back to its thought and code |
| Agent.AssistantTurn | novagent/agent.py:99 | the assistant turn is the thought, a newline and the code, with no fence around the code |
| Agent.Observation | novagent/agent.py:113 | the user turn is `Observation:` and a newline, then stdout, then stderr |
| Agent.ObservationGlues | novagent/agent.py:113 | nothing marks where stdout ends and stderr begins; with stdout alone the turn equals the session's observation |
| Agent.RunCode | novagent/agent.py:99-113 | the assistant turn is appended before the run; an answer ends the pass without an observation; otherwise the observation follows |
| Agent.Step | novagent/agent.py:83-113 | a pass counts exactly one step and keeps the system prompt |
| Agent.RetryAfterNoCode | novagent/agent.py:87-101 | after a reply without code, the next pass asks again about the same history, and a reply with code then runs |
| Agent.NoCodeContinues | novagent/agent.py:89-94 | a reply without code only counts the step: the history and context stay and the loop goes on |
| Agent.CodeRuns | novagent/agent.py:96-101 | a reply with code runs it |
| Agent.RunCodeOutcomes | novagent/agent.py:99-113 | an escape ends the pass; a set answer ends it with that answer; otherwise the observation `Observation:\n` + out + err is appended |
| Agent.StepAdvances | novagent/agent.py:82-113 | every pass advances the agent, whatever the model and the code do |
| Agent.Iterate | novagent/agent.py:82-113 | the loop keeps the history as a prefix; an answer is the context's value and follows an assistant turn; running out of fuel means every step was taken |
| Agent.LoopReaches | novagent/agent.py:82-113 | the loop of `run` keeps every guarantee of `Iterate` |
| Agent.Loop | novagent/agent.py:82-113 | the loop keeps the context well-formed; `Agent.LoopReaches` states the rest |
| Agent.Prepared | novagent/agent.py:79-80 | the agent the loop starts from has no final answer |
| Agent.RunTask | novagent/agent.py:78-117 | a run keeps the context well-formed; `Agent.RunReturnsAnswer` and `Agent.RunKeepsCounting` state what it does |
| Agent.RunReturnsAnswer | novagent/agent.py:103-117 | `run` returns the value passed to `final_answer`, right after the assistant turn that produced it |
| Agent.RunKeepsCounting | novagent/agent.py:78-83 | `run` appends the task and keeps counting steps from where it was: only `clear` resets the counter |
| Agent.NoCodeSpins | novagent/agent.py:82-94 | a model that never writes code makes the loop use all its fuel, changing neither the history nor the context |
| Agent.IterateSpins | novagent/agent.py:82-94 | a loop of passes that only count steps runs out of fuel with everything else unchanged |
| Loggers.Upper | novagent/loggers.py:40 | `str.upper()` on ASCII: same length, lower-case letters raised, everything else kept |
| Loggers.UpperKnown | novagent/loggers.py:40 | the labels of the known types are their upper-case names |
| Loggers.ColorsAreColors | novagent/loggers.py:12-20 | every colour the logger can pick, the info fallback included, is an ANSI colour escape |
| Loggers.Log | novagent/loggers.py:34-44 | a line is printed exactly when the level reaches the type's requirement; it is exactly the type's colour escape (the info colour for an unknown type), the upper-cased label, a line break for code and a space otherwise, the message, the reset and a newline |
| Loggers.LevelMonotone | novagent/loggers.py:35-37 | raising the level never hides a message that was shown |
| Loggers.FinalAlwaysShown | novagent/loggers.py:23 | the final answer is shown at every level, in green under `[FINAL]` |
| Loggers.UnknownKind | novagent/loggers.py:35-39 | an unknown type needs `NORMAL` and is printed in the info colour |
| Loggers.KnownLayouts | novagent/loggers.py:22-44 | code goes below its label and only at `VERBOSE`; errors show at every level but `SILENT`; thoughts are printed after their label |
| Loggers.LogRecoversMessage | novagent/loggers.py:41-44 | the message can be read back from a printed line |
| Outputs.DummyOutput | novagent/outputs.py:13-15 | prints nothing for any message and type |
| Outputs.NamesDistinct | novagent/outputs.py:4-10 | different types have different names and values |
| Outputs.PrintOutput | novagent/outputs.py:18-20 | the plain line is the type's name in brackets and a space, then the message and a newline |
| Outputs.CliOutput | novagent/outputs.py:36-42 | the console line is exactly the type's colour escape, its bracketed name, a line break for CODE and a space otherwise, the message, the reset and a newline |
| Outputs.ColorsTotal | novagent/outputs.py:24-37 | every type has its own colour, so the fallback never fires |
| Outputs.CliIsColoredPrint | novagent/outputs.py:18-42 | the console line is the plain line coloured and reset; CODE moves the message below its label |
| Outputs.AgreesWithLogger | novagent/outputs.py:36-42 | the console output and the logger print each type in the same colour, label and layout |
| Runners.Render | novagent/runners.py:28-46 | a message prints a separator iff its step is new, a header iff its step or type is new, a blank line iff it leaves AGENT chunks within a step, its content, and a line end unless it is an AGENT chunk |
| Runners.RenderAll | novagent/runners.py:28-46 | the runner ends on the last message's step and type |
| Runners.RenderPayload | novagent/runners.py:43 | a message prints its own content and no other |
| Runners.RenderKeepsContents | novagent/runners.py:43-46 | every content is printed verbatim and in order |
| Runners.RenderSeparators | novagent/runners.py:29-34 | a message prints one separator exactly when its step differs from the current one |
| Runners.SeparatorPerStepChange | novagent/runners.py:21-34 | the separators printed are exactly the step changes, the first message of a fresh runner included |
| Runners.HeaderAfterSeparator | novagent/runners.py:29-41 | a separator is always followed by the header of the message that caused it |
| Runners.FreshStartsWithSeparator | novagent/runners.py:21-41 | a fresh runner opens with a separator and the first message's header |
| Runners.HeaderWithinStep | novagent/runners.py:36-41 | within a step a header appears iff the type changes, after a blank line iff AGENT chunks came before |
| Runners.AgentChunksRunTogether | novagent/runners.py:43-46 | consecutive AGENT chunks of the current step print as their plain concatenation |
| Runners.DummyRun | novagent/runners.py:12-15 | draining the stream keeps the context well-formed; `Runners.RunnersAgree` states what it returns |
| Runners.StdoutRun | novagent/runners.py:27-48 | printing the stream keeps the context well-formed; `Runners.RunnersAgree` and `Runners.StdoutShowsRun` state what it returns and prints |
| Runners.RunnersAgree | novagent/runners.py:12-48 | both runners leave the same session and return the same way; an answer (always a string here) is returned exactly when the run ended on one, and it is the last FINAL message's content |
| Runners.StdoutShowsRun | novagent/runners.py:27-48 | the stdout runner prints every message's content in order and one separator per step change |

## Left out

- I/O: `print`, `sys.stdout` and `sys.stderr` swapping and `io.StringIO` (context.py:21-32) are foreign runtime. Printing is modelled as the text written; `exec` is an oracle.
- Async mechanics: `async for`, `asyncio.run` and the generators become finite sequences computed in full.
- server.py, trace_loggers.py, models.py, main.py, config.py: web serving, tracing, network calls to the model, argument parsing and wiring. None of it holds logic of the loop.
- system_prompt.py: only `END_CODE_TAG = "<end_code>"` is used, inlined as a constant.
- `Novagent._build_system_prompt` and `update_system_prompt` (agent.py:27-37, 64-70): file reading and templating. `update_system_prompt` reads attributes that are never set, so it can only raise `AttributeError`.
- The `self.log` calls of agent.py: with a `LogLevel`, the default `NORMAL` included, the built-in logger only prints, so they leave the agent's state alone. The logger itself is modelled in `Loggers`, whose level is always a `LogLevel`.
- `log_level=None` (agent.py:15, 19): `CliLogger` then raises `AttributeError` at `self.level.value` (loggers.py:36) on its first call. That call is at agent.py:85, so `run` aborts after the step was counted and the task turn appended. The model has no such abort. A custom `logger` that raises is not modelled either.
- SessionLoop.Iterate: stops after `fuel` iterations, an ending the source does not have, because nothing forces the model to ever call `final_answer`.
- Agent.Iterate: stops after `fuel` passes, an ending the source does not have, because a model that never writes code makes `run` loop forever.
- Context.Run: a final answer is modelled as a string. The source accepts any Python value and never checks it.
- Loggers.Upper: only ASCII letters are raised. Python's `str.upper()` also maps non-ASCII letters, some to several characters.
- Token counters are naturals. A negative or non-integer count reported by a model is not modelled.
- The well-formedness requirement `Valid` (the flag is set exactly when a value is held) is a precondition of a single step and of the inner loops; `arun`, `run` and the runners need nothing, since they clear the answer first. The source does not keep this invariant: `final_answer(None)` sets the flag while the value stays `None`. Answers are strings in the model, so that state does not arise here.
- Runners.RunnersAgree: does not cover a run whose code called `final_answer(None)`. In the source such a run ends on an answer, yields FINAL with content `None` and returns `None`. In the model an answer is always returned when the run ended on one.
- Context aliasing in config.py (lines 28 and 43): `NovagentConfig` hands its one `PythonContext` object to every session it creates, so those sessions share a namespace and an answer state. In the model a session holds the context as a value, so a run in one session never changes another.
- SessionLoop.Arun: its own contract only keeps the context well-formed. What it computes is stated by the `Arun…` lemmas. Stating it in separate lemmas keeps each proof small.
- SessionLoop.Loop: its own contract only keeps the context well-formed. What it computes is stated by `SessionLoop.Iterate`. Stating it in separate lemmas keeps each proof small.
- Agent.RunTask: its own contract only keeps the context well-formed. What it computes is stated by `Agent.RunReturnsAnswer` and `Agent.RunKeepsCounting`. Stating it in separate lemmas keeps each proof small.
- Agent.Loop: its own contract only keeps the context well-formed. What it computes is stated by `Agent.LoopReaches`. Stating it in separate lemmas keeps each proof small.
- Runners.DummyRun: its own contract only keeps the context well-formed. What it computes is stated by `Runners.RunnersAgree`. Stating it in separate lemmas keeps each proof small.
- Runners.StdoutRun: its own contract only keeps the context well-formed. What it computes is stated by `Runners.RunnersAgree` and `Runners.StdoutShowsRun`. Stating it in separate lemmas keeps each proof small.
