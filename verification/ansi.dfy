/** The ANSI colour escapes both console writers use (novagent/loggers.py, novagent/outputs.py). */
module Ansi {
  const Escape: char := '\U{001B}'

  const Gray := "\U{001B}[90m"
  const White := "\U{001B}[97m"
  const Yellow := "\U{001B}[93m"
  const Blue := "\U{001B}[94m"
  const Red := "\U{001B}[91m"
  const Green := "\U{001B}[92m"
  const Reset := "\U{001B}[0m"

  /** A select-graphic-rendition escape: ESC, `[`, digits, `m`. */
  predicate IsColor(s: string) {
    && |s| >= 4 && s[0] == Escape && s[1] == '['
    && s[|s| - 1] == 'm'
    && forall i :: 2 <= i < |s| - 1 ==> '0' <= s[i] <= '9'
  }

  /**
    A coloured console line: exactly the colour escape `color`, the
    bracketed tag right after it, then a line break when `below` and a
    space otherwise, then the message, the reset escape and the newline.
   */
  predicate ColoredLine(line: string, color: string, tag: string, msg: string, below: bool) {
    && IsColor(color)
    && |line| == |color| + |tag| + 1 + |msg| + |Reset| + 1
    && line[..|color|] == color
    && line[|color|..|color| + |tag|] == tag
    && line[|color| + |tag|] == (if below then '\n' else ' ')
    && line[|color| + |tag| + 1..] == msg + Reset + "\n"
  }

  /** Where the pieces of a coloured line sit. */
  lemma ColoredLineLayout(color: string, tag: string, gap: string, msg: string)
    requires IsColor(color) && (gap == "\n" || gap == " ")
    ensures ColoredLine(color + tag + gap + msg + Reset + "\n", color, tag, msg, gap == "\n")
  {
    var line := color + tag + gap + msg + Reset + "\n";
    assert line == color + (tag + (gap + (msg + Reset + "\n")));
    assert line[|color| + |tag|] == gap[0];
  }
}
