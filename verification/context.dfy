/**
  `PythonContext` (novagent/context.py): a persistent namespace in which
  snippets run, and the final-answer signal the injected `final_answer`
  callback sets. Python's `exec` is foreign: it is an oracle that, given
  the code and the current namespace, reports what the snippet printed, the
  bindings it wrote, the values it passed to `final_answer`, and whether it
  raised.
 */
module Context {
  import opened Wrappers

  /** A runtime value in the namespace: the injected callback, or any other object. */
  datatype Value = FinalAnswerCallback | Object(repr: string)

  type Namespace = map<string, Value>

  /** One change a snippet makes to its globals: an assignment or a `del`. */
  datatype Write = Bind(name: string, value: Value) | Unbind(name: string)

  /** How `exec` ended: normally, with an `Exception`, or with another `BaseException`. */
  datatype Raise = Completed | RaisedException(message: string) | RaisedBaseException(message: string)

  /** Everything one call of `exec` does, as far as the context can observe it. */
  datatype ExecEffect = ExecEffect(
    stdout: string,
    stderr: string,
    writes: seq<Write>,
    finalAnswerCalls: seq<string>,
    raise: Raise)

  /** The `exec` oracle: code and globals in, observable effect out. */
  type Exec = (string, Namespace) -> ExecEffect

  datatype PythonContext = PythonContext(
    globals: Namespace,
    hasFinalAnswer: bool,
    finalAnswerValue: Option<string>)

  /** `run` either returns `(stdout, stderr)` or lets a non-`Exception` escape. */
  datatype RunResult =
    | Returned(stdout: string, stderr: string, ctx: PythonContext)
    | Escaped(exception: string, ctx: PythonContext)

  const FinalAnswerName := "final_answer"
  const ErrorPrefix := "Error during execution: "

  /** The two final-answer fields move together: the flag is set exactly when a value is held. */
  predicate Valid(c: PythonContext) {
    c.hasFinalAnswer <==> c.finalAnswerValue.Some?
  }

  function Lookup(ns: Namespace, x: string): Option<Value> {
    if x in ns then Some(ns[x]) else None
  }

  /** `PythonContext()`: globals hold only the callback, no final answer. */
  function NewContext(): (c: PythonContext)
    ensures Valid(c) && !c.hasFinalAnswer
    ensures forall x :: Lookup(c.globals, x) == (if x == FinalAnswerName then Some(FinalAnswerCallback) else None)
  {
    PythonContext(map[FinalAnswerName := FinalAnswerCallback], false, None)
  }

  /** `clear_final_answer`. */
  function ClearFinalAnswer(c: PythonContext): (r: PythonContext)
    ensures Valid(r) && !r.hasFinalAnswer
    ensures r.globals == c.globals
  {
    c.(hasFinalAnswer := false, finalAnswerValue := None)
  }

  /** `_final_answer(value)`, the callback bound to `final_answer` in the globals. */
  function FinalAnswer(c: PythonContext, value: string): (r: PythonContext)
    ensures Valid(r) && r.hasFinalAnswer && r.finalAnswerValue == Some(value)
    ensures r.globals == c.globals
  {
    c.(hasFinalAnswer := true, finalAnswerValue := Some(value))
  }

  /** The effect of the callback invoked once per element of `calls`, in order. */
  function ApplyCalls(c: PythonContext, calls: seq<string>): (r: PythonContext)
    ensures r.globals == c.globals
    ensures |calls| == 0 ==> r == c
    ensures |calls| > 0 ==> r.hasFinalAnswer && r.finalAnswerValue == Some(calls[|calls| - 1])
    decreases |calls|
  {
    if |calls| == 0 then c else FinalAnswer(ApplyCalls(c, calls[..|calls| - 1]), calls[|calls| - 1])
  }

  /** The last write to `x`, if any. */
  function LastWrite(ws: seq<Write>, x: string): Option<Write>
    decreases |ws|
  {
    if |ws| == 0 then None
    else if ws[|ws| - 1].name == x then Some(ws[|ws| - 1])
    else LastWrite(ws[..|ws| - 1], x)
  }

  /** The binding of a name after writes: its last write decides, and with none the old binding stays. */
  function Resolve(last: Option<Write>, before: Option<Value>): Option<Value> {
    match last
    case None => before
    case Some(Bind(_, v)) => Some(v)
    case Some(Unbind(_)) => None
  }

  function ApplyWrite(ns: Namespace, w: Write): Namespace {
    match w
    case Bind(x, v) => ns[x := v]
    case Unbind(x) => ns - {x}
  }

  /** The globals after a snippet's writes, performed in order on the same dictionary. */
  function ApplyWrites(ns: Namespace, ws: seq<Write>): (r: Namespace)
    ensures forall x :: Lookup(r, x) == Resolve(LastWrite(ws, x), Lookup(ns, x))
    decreases |ws|
  {
    if |ws| == 0 then ns
    else
      var prev := ApplyWrites(ns, ws[..|ws| - 1]);
      var r := ApplyWrite(prev, ws[|ws| - 1]);
      assert forall x :: Lookup(r, x) == Resolve(LastWrite(ws, x), Lookup(ns, x)) by {
        forall x ensures Lookup(r, x) == Resolve(LastWrite(ws, x), Lookup(ns, x)) {
          assert Lookup(prev, x) == Resolve(LastWrite(ws[..|ws| - 1], x), Lookup(ns, x));
        }
      }
      r
  }

  /**
    `run(code)`: executes against the same globals dictionary every time,
    turns an `Exception` into a line on stderr, and lets any other
    `BaseException` propagate.
   */
  function Run(c: PythonContext, code: string, exec: Exec): (r: RunResult)
    ensures var e := exec(code, c.globals);
      && (forall x :: Lookup(r.ctx.globals, x) == Resolve(LastWrite(e.writes, x), Lookup(c.globals, x)))
      && (|e.finalAnswerCalls| == 0 ==>
            r.ctx.hasFinalAnswer == c.hasFinalAnswer && r.ctx.finalAnswerValue == c.finalAnswerValue)
      && (|e.finalAnswerCalls| > 0 ==>
            r.ctx.hasFinalAnswer && r.ctx.finalAnswerValue == Some(e.finalAnswerCalls[|e.finalAnswerCalls| - 1]))
      && (r.Escaped? <==> e.raise.RaisedBaseException?)
      && (r.Escaped? ==> r.exception == e.raise.message)
      && (r.Returned? ==> r.stdout == e.stdout)
      && (e.raise.Completed? ==> r.Returned? && r.stderr == e.stderr)
      && (e.raise.RaisedException? ==>
            r.Returned? && r.stderr == e.stderr + ErrorPrefix + e.raise.message + "\n")
    ensures Valid(c) ==> Valid(r.ctx)
  {
    var e := exec(code, c.globals);
    var after := ApplyCalls(c.(globals := ApplyWrites(c.globals, e.writes)), e.finalAnswerCalls);
    match e.raise
    case Completed => Returned(e.stdout, e.stderr, after)
    case RaisedException(m) => Returned(e.stdout, e.stderr + ErrorPrefix + m + "\n", after)
    case RaisedBaseException(m) => Escaped(m, after)
  }

  /** Clearing twice is clearing once, and clearing keeps the globals. */
  lemma ClearIdempotent(c: PythonContext)
    ensures ClearFinalAnswer(ClearFinalAnswer(c)) == ClearFinalAnswer(c)
    ensures ClearFinalAnswer(c).globals == c.globals
  {
  }

  /** A later `final_answer` call overwrites an earlier one: the newest value wins. */
  lemma FinalAnswerOverwrites(c: PythonContext, v1: string, v2: string)
    ensures FinalAnswer(FinalAnswer(c, v1), v2) == FinalAnswer(c, v2)
  {
  }

  /** Calling `final_answer("42")` then clearing gives `{false, None}` back. */
  lemma FinalAnswerThenClear(c: PythonContext, v: string)
    ensures FinalAnswer(c, v).hasFinalAnswer && FinalAnswer(c, v).finalAnswerValue == Some(v)
    ensures ClearFinalAnswer(FinalAnswer(c, v)) == ClearFinalAnswer(c)
  {
  }

  /**
    Namespace persistence: a name the first snippet binds keeps its value
    through a second run that does not write it.
   */
  lemma BindingPersists(c: PythonContext, code1: string, code2: string, exec: Exec, x: string, v: Value)
    requires LastWrite(exec(code1, c.globals).writes, x) == Some(Bind(x, v))
    requires LastWrite(exec(code2, Run(c, code1, exec).ctx.globals).writes, x) == None
    ensures Lookup(Run(Run(c, code1, exec).ctx, code2, exec).ctx.globals, x) == Some(v)
  {
  }
}
