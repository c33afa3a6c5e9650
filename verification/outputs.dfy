/**
  The message writers of novagent/outputs.py: one that writes nothing,
  one that writes `[NAME] msg`, and a coloured console writer. The value
  of each is the text its `print` writes, newline included.
 */
module Outputs {
  import Ansi
  import Loggers

  datatype OutputType = Info | Thought | Code | Output | Error | Final

  /** `MessageType.name`. */
  function Name(t: OutputType): string {
    match t
    case Info => "INFO"
    case Thought => "THOUGHT"
    case Code => "CODE"
    case Output => "OUTPUT"
    case Error => "ERROR"
    case Final => "FINAL"
  }

  /** `MessageType.value`. */
  function Ordinal(t: OutputType): nat {
    match t
    case Info => 0
    case Thought => 1
    case Code => 2
    case Output => 3
    case Error => 4
    case Final => 5
  }

  /** `DummyOutput()(msg, type)`. */
  function DummyOutput(msg: string, t: OutputType): (r: string)
    ensures r == []
  {
    []
  }

  /** `f"[{type.name}]"`. */
  function Label(t: OutputType): string {
    "[" + Name(t) + "]"
  }

  /** `PrintOutput()(msg, type)`: the bracketed name, a space, the message, a newline. */
  function PrintOutput(msg: string, t: OutputType): (r: string)
    ensures |r| == |Name(t)| + 4 + |msg|
    ensures r[..|Name(t)| + 3] == "[" + Name(t) + "] "
    ensures r[|Name(t)| + 3..] == msg + "\n"
  {
    Label(t) + " " + msg + "\n"
  }

  /** `CliOutput.COLORS`. */
  const Colors: map<OutputType, string> := map[
    Info := Ansi.Gray,
    Thought := Ansi.White,
    Code := Ansi.Yellow,
    Output := Ansi.Blue,
    Error := Ansi.Red,
    Final := Ansi.Green]

  /** `COLORS.get(type, COLORS[MessageType.INFO])`. */
  function ColorOf(t: OutputType): string {
    if t in Colors then Colors[t] else Colors[Info]
  }

  /**
    `CliOutput()(msg, type)`: one line that opens with the type's colour
    escape and its label and ends with the message, the reset escape and
    the newline; the message goes below the label exactly for code.
   */
  function CliOutput(msg: string, t: OutputType): (r: string)
    ensures Ansi.ColoredLine(r, ColorOf(t), "[" + Name(t) + "]", msg, t == Code)
    ensures |r| == |ColorOf(t)| + |Name(t)| + 3 + |msg| + 5
  {
    ColorsTotal(t);
    if t == Code then
      Ansi.ColoredLineLayout(ColorOf(t), Label(t), "\n", msg);
      ColorOf(t) + Label(t) + "\n" + msg + Ansi.Reset + "\n"
    else
      Ansi.ColoredLineLayout(ColorOf(t), Label(t), " ", msg);
      ColorOf(t) + Label(t) + " " + msg + Ansi.Reset + "\n"
  }


  /** Different types have different names and values. */
  lemma NamesDistinct(t: OutputType, u: OutputType)
    ensures Name(t) == Name(u) <==> t == u
    ensures Ordinal(t) == Ordinal(u) <==> t == u
  {
  }

  /** Every type has its own colour, so the fallback to the info colour never fires. */
  lemma ColorsTotal(t: OutputType)
    ensures t in Colors && ColorOf(t) == Colors[t]
    ensures Ansi.IsColor(ColorOf(t))
  {
  }

  /**
    The console writer is the plain writer's line, coloured: for every type
    but CODE it is the colour, the plain line without its newline, the
    reset and the newline; CODE moves the message below its label.
   */
  lemma CliIsColoredPrint(msg: string, t: OutputType)
    ensures t != Code ==>
      CliOutput(msg, t) == ColorOf(t) + PrintOutput(msg, t)[..|PrintOutput(msg, t)| - 1] + Ansi.Reset + "\n"
    ensures t == Code ==> CliOutput(msg, t) == Ansi.Yellow + "[CODE]" + "\n" + msg + Ansi.Reset + "\n"
  {
    if t == Code {
      assert CliOutput(msg, t) == ColorOf(t) + Label(t) + "\n" + msg + Ansi.Reset + "\n";
    } else {
      CliPlain(msg, t);
    }
  }

  /** For every type but CODE, the console line is the plain line between the colour and the reset. */
  lemma CliPlain(msg: string, t: OutputType)
    requires t != Code
    ensures CliOutput(msg, t) == ColorOf(t) + (PrintOutput(msg, t))[..|PrintOutput(msg, t)| - 1] + Ansi.Reset + "\n"
  {
    var plain := PrintOutput(msg, t);
    assert plain == Label(t) + " " + msg + "\n";
    assert CliOutput(msg, t) == ColorOf(t) + Label(t) + " " + msg + Ansi.Reset + "\n";
    DropNewline(ColorOf(t), Label(t), msg, plain);
  }

  /** Colouring a plain line and dropping its newline before the reset. */
  lemma DropNewline(color: string, tag: string, msg: string, plain: string)
    requires plain == tag + " " + msg + "\n"
    ensures color + plain[..|plain| - 1] + Ansi.Reset + "\n" == color + tag + " " + msg + Ansi.Reset + "\n"
  {
    assert plain[..|plain| - 1] == tag + " " + msg;
  }

  /** The lower-cased type name the logger uses. */
  function LoggerKind(t: OutputType): string {
    match t
    case Info => "info"
    case Thought => "thought"
    case Code => "code"
    case Output => "output"
    case Error => "error"
    case Final => "final"
  }

  /**
    The two console writers agree: each type is printed in the colour the
    logger gives its lower-case name, under the same upper-case label, in
    the same layout.
   */
  lemma AgreesWithLogger(msg: string, t: OutputType)
    ensures ColorOf(t) == Loggers.ColorOf(LoggerKind(t))
    ensures Loggers.Label(LoggerKind(t)) == Label(t)
    ensures CliOutput(msg, t) == Loggers.Log(Loggers.Verbose, msg, LoggerKind(t)).value
  {
    var kind := LoggerKind(t);
    LabelsAgree(t);
    assert Loggers.Log(Loggers.Verbose, msg, kind).value
      == Loggers.ColorOf(kind) + Loggers.Label(kind) + Loggers.Gap(kind) + msg + Ansi.Reset + "\n";
  }

  /** The logger's colour, label and gap for the lower-case name of each type. */
  lemma LabelsAgree(t: OutputType)
    ensures ColorOf(t) == Loggers.ColorOf(LoggerKind(t))
    ensures Loggers.Label(LoggerKind(t)) == Label(t)
    ensures Loggers.Gap(LoggerKind(t)) == (if t == Code then "\n" else " ")
  {
    Loggers.UpperKnown();
  }
}
