/**
  `CliLogger` (novagent/loggers.py), the console logger of the older agent:
  a message of a given type is printed when the logger's level reaches the
  level the type requires, in the type's colour, after an upper-cased
  label. The value of `print` is the text it writes, newline included.
 */
module Loggers {
  import opened Wrappers
  import Strings
  import Ansi

  datatype LogLevel = Silent | Minimal | Normal | Verbose

  /** `LogLevel.value`. */
  function LevelValue(l: LogLevel): nat {
    match l
    case Silent => 0
    case Minimal => 1
    case Normal => 2
    case Verbose => 3
  }

  /** `CliLogger.COLORS`. */
  const Colors: map<string, string> := map[
    "thought" := Ansi.White,
    "code" := Ansi.Yellow,
    "output" := Ansi.Blue,
    "error" := Ansi.Red,
    "final" := Ansi.Green,
    "info" := Ansi.Gray,
    "reset" := Ansi.Reset]

  /** `CliLogger.VERBOSITY`. */
  const Verbosity: map<string, LogLevel> := map[
    "final" := Silent,
    "error" := Minimal,
    "thought" := Normal,
    "output" := Normal,
    "code" := Verbose,
    "info" := Verbose]

  /** `VERBOSITY.get(type, LogLevel.NORMAL)`. */
  function Required(kind: string): LogLevel {
    if kind in Verbosity then Verbosity[kind] else Normal
  }

  /** `COLORS.get(type, COLORS["info"])`. */
  function ColorOf(kind: string): string {
    if kind in Colors then Colors[kind] else Colors["info"]
  }

  /** `str.upper()` on ASCII letters; every other character is left as it is. */
  function Upper(s: string): (r: string)
    ensures |r| == |s|
    ensures forall i :: 0 <= i < |s| ==> r[i] == (if 'a' <= s[i] <= 'z' then (s[i] as int - 32) as char else s[i])
  {
    seq(|s|, i requires 0 <= i < |s| => if 'a' <= s[i] <= 'z' then (s[i] as int - 32) as char else s[i])
  }

  /** The upper-cased labels of the types the tables know. */
  lemma UpperKnown()
    ensures Upper("final") == "FINAL" && Upper("error") == "ERROR" && Upper("thought") == "THOUGHT"
    ensures Upper("output") == "OUTPUT" && Upper("code") == "CODE" && Upper("info") == "INFO"
  {
    assert forall i | 0 <= i < 5 :: Upper("final")[i] == "FINAL"[i];
    assert forall i | 0 <= i < 5 :: Upper("error")[i] == "ERROR"[i];
    assert forall i | 0 <= i < 7 :: Upper("thought")[i] == "THOUGHT"[i];
    assert forall i | 0 <= i < 6 :: Upper("output")[i] == "OUTPUT"[i];
    assert forall i | 0 <= i < 4 :: Upper("code")[i] == "CODE"[i];
    assert forall i | 0 <= i < 4 :: Upper("info")[i] == "INFO"[i];
  }

  /** `f"[{label}]"`. */
  function Label(kind: string): string {
    "[" + Upper(kind) + "]"
  }

  /** What follows the label: code goes on the next line, anything else after a space. */
  function Gap(kind: string): string {
    if kind == "code" then "\n" else " "
  }

  /**
    `CliLogger(level)(msg, type)`: nothing when the level is below the
    type's requirement, else one line that opens with a colour escape and
    the bracketed label, ends with the message, the reset escape and the
    newline, and breaks the line before the message exactly for code.
   */
  function Log(level: LogLevel, msg: string, kind: string): (r: Option<string>)
    ensures r.Some? <==> LevelValue(level) >= LevelValue(Required(kind))
    ensures r.Some? ==> Ansi.ColoredLine(r.value, ColorOf(kind), "[" + Upper(kind) + "]", msg, kind == "code")
  {
    if LevelValue(level) < LevelValue(Required(kind)) then None
    else
      ColorsAreColors(kind);
      Ansi.ColoredLineLayout(ColorOf(kind), "[" + Upper(kind) + "]", Gap(kind), msg);
      Some(ColorOf(kind) + Label(kind) + Gap(kind) + msg + Ansi.Reset + "\n")
  }

  /** Every colour the table holds, the fallback included, is a colour escape. */
  lemma ColorsAreColors(kind: string)
    ensures Ansi.IsColor(ColorOf(kind))
  {
  }


  /** Raising the level never hides a message that was shown. */
  lemma LevelMonotone(low: LogLevel, high: LogLevel, msg: string, kind: string)
    requires LevelValue(low) <= LevelValue(high)
    requires Log(low, msg, kind).Some?
    ensures Log(high, msg, kind) == Log(low, msg, kind)
  {
  }

  /** The final answer is shown at every level, even `SILENT`. */
  lemma FinalAlwaysShown(level: LogLevel, msg: string)
    ensures Log(level, msg, "final") == Some(Ansi.Green + "[FINAL]" + " " + msg + Ansi.Reset + "\n")
  {
    UpperKnown();
    assert Label("final") == "[FINAL]";
  }

  /** A type the tables do not know needs `NORMAL` and is printed in the info colour. */
  lemma UnknownKind(level: LogLevel, msg: string, kind: string)
    requires kind !in Verbosity && kind !in Colors
    ensures Log(level, msg, kind).Some? <==> level == Normal || level == Verbose
    ensures Log(level, msg, kind).Some? ==>
      Log(level, msg, kind).value == Ansi.Gray + Label(kind) + " " + msg + Ansi.Reset + "\n"
  {
  }

  /** Code goes below its label, and only at `VERBOSE`; errors show at every level but `SILENT`. */
  lemma KnownLayouts(level: LogLevel, msg: string)
    ensures Log(level, msg, "code").Some? <==> level == Verbose
    ensures Log(Verbose, msg, "code") == Some(Ansi.Yellow + "[CODE]" + "\n" + msg + Ansi.Reset + "\n")
    ensures Log(level, msg, "error").Some? <==> level != Silent
    ensures Log(Normal, msg, "thought") == Some(Ansi.White + "[THOUGHT]" + " " + msg + Ansi.Reset + "\n")
  {
    UpperKnown();
    assert Label("code") == "[CODE]";
    assert Label("thought") == "[THOUGHT]";
  }

  /** The message can be read back from a printed line: the colour, label and reset around it are fixed by the type. */
  lemma LogRecoversMessage(level: LogLevel, m1: string, m2: string, kind: string)
    requires Log(level, m1, kind).Some? && Log(level, m1, kind) == Log(level, m2, kind)
    ensures m1 == m2
  {
    Strings.CancelAround(ColorOf(kind) + Label(kind) + Gap(kind), m1, m2, Ansi.Reset, "\n");
  }
}
