/**
  `NovagentSession._step_sumup` (novagent/session.py): the step label with
  running token totals. A counter that is 0 is treated as not reported.
 */
module StepSummary {
  import opened Wrappers
  import opened Strings
  import opened Decimal

  /** How a counter appears inside the parentheses: `?` when it was not reported. */
  function Shown(x: nat): string {
    if x == 0 then "?" else Show(x)
  }

  /** The step label with token usage, branch for branch as `NovagentSession._step_sumup` writes it. */
  function StepSumup(nstep: nat, prompt: nat, completion: nat): (r: string)
    ensures |r| >= 6 && r[..5] == "Step "
  {
    var base := "Step " + Show(nstep);
    if prompt == 0 && completion == 0 then base
    else if prompt != 0 && completion == 0 then
      base + (" - Total tokens " + (Show(prompt) + (" (in: " + (Show(prompt) + " - out: ?)"))))
    else if prompt == 0 && completion != 0 then
      base + (" - Total tokens " + (Show(completion) + (" (in: ? - out: " + (Show(completion) + ")"))))
    else
      base + (" - Total tokens " + (Show(prompt + completion) +
        (" (in: " + (Show(prompt) + (" - out: " + (Show(completion) + ")"))))))
  }

  /** What a summary line tells a reader: the step and both counters, 0 standing for `?`. */
  datatype Usage = Usage(nstep: nat, prompt: nat, completion: nat)

  /** `s` without its leading `prefix`, if it has one. */
  function Cut(s: string, prefix: string): (r: Option<string>)
    ensures r.Some? <==> |prefix| <= |s| && s[..|prefix|] == prefix
    ensures r.Some? ==> prefix + r.value == s
  {
    if |prefix| <= |s| && s[..|prefix|] == prefix then Some(s[|prefix|..]) else None
  }

  lemma CutConcat(prefix: string, rest: string)
    ensures Cut(prefix + rest, prefix) == Some(rest)
  {
    assert (prefix + rest)[..|prefix|] == prefix;
    assert (prefix + rest)[|prefix|..] == rest;
  }

  /** Reads a counter as `Shown` writes it. */
  function ParseShown(s: string): Option<(nat, string)> {
    if |s| > 0 && s[0] == '?' then Some((0, s[1..]))
    else
      var (d, rest) := SplitDigits(s);
      if d == [] then None else Some((Value(d), rest))
  }

  /** Reads ` (in: P - out: C)` back. */
  function ParseCounters(s: string): Option<(nat, nat)> {
    match Cut(s, " (in: ")
    case None => None
    case Some(s1) =>
      match ParseShown(s1)
      case None => None
      case Some((p, s2)) =>
        match Cut(s2, " - out: ")
        case None => None
        case Some(s3) =>
          match ParseShown(s3)
          case None => None
          case Some((c, s4)) => if s4 == ")" then Some((p, c)) else None
  }

  /** Reads ` - Total tokens T (in: P - out: C)` back, checking that `T` is `P + C`. */
  function ParseTotals(s: string): Option<(nat, nat)> {
    match Cut(s, " - Total tokens ")
    case None => None
    case Some(s1) =>
      var (t, s2) := SplitDigits(s1);
      if t == [] then None
      else
        match ParseCounters(s2)
        case None => None
        case Some((p, c)) => if Value(t) == p + c then Some((p, c)) else None
  }

  /** Reads a summary line back. */
  function ParseSumup(s: string): Option<Usage> {
    match Cut(s, "Step ")
    case None => None
    case Some(s1) =>
      var (n, s2) := SplitDigits(s1);
      if n == [] then None
      else if s2 == [] then Some(Usage(Value(n), 0, 0))
      else
        match ParseTotals(s2)
        case None => None
        case Some((p, c)) => Some(Usage(Value(n), p, c))
  }

  function CountersText(prompt: nat, completion: nat): string {
    " (in: " + (Shown(prompt) + (" - out: " + (Shown(completion) + ")")))
  }

  function TotalsText(prompt: nat, completion: nat): string {
    " - Total tokens " + (Show(prompt + completion) + CountersText(prompt, completion))
  }

  lemma ParseShownShown(x: nat, rest: string)
    requires |rest| > 0 && !IsDigit(rest[0])
    ensures ParseShown(Shown(x) + rest) == Some((x, rest))
  {
    if x == 0 {
      assert ("?" + rest)[1..] == rest;
    } else {
      assert (Show(x) + rest)[0] == Show(x)[0];
      SplitShow(x, rest);
    }
  }

  lemma CountersRoundTrip(prompt: nat, completion: nat)
    ensures ParseCounters(CountersText(prompt, completion)) == Some((prompt, completion))
  {
    var tail := " - out: " + (Shown(completion) + ")");
    CutConcat(" (in: ", Shown(prompt) + tail);
    ParseShownShown(prompt, tail);
    CutConcat(" - out: ", Shown(completion) + ")");
    ParseShownShown(completion, ")");
  }

  lemma TotalsRoundTrip(prompt: nat, completion: nat)
    ensures ParseTotals(TotalsText(prompt, completion)) == Some((prompt, completion))
  {
    var counters := CountersText(prompt, completion);
    assert counters[0] == ' ';
    CutConcat(" - Total tokens ", Show(prompt + completion) + counters);
    SplitShow(prompt + completion, counters);
    CountersRoundTrip(prompt, completion);
  }

  /** The literal ` - out: ?)` is the counters' tail with `?` for the completion. */
  lemma OutUnknown(x: string)
    ensures x + " - out: ?)" == x + (" - out: " + ("?" + ")"))
  {
    assert " - out: ?)" == " - out: " + ("?" + ")");
  }

  /** The literal ` (in: ? - out: ` is the counters' head with `?` for the prompt. */
  lemma InUnknown(y: string)
    ensures " (in: ? - out: " + y == " (in: " + ("?" + (" - out: " + y))
  {
    assert " (in: ? - out: " == " (in: " + "?" + " - out: ";
  }

  /**
    The four branches of `NovagentSession._step_sumup` collapse into one rule: with no
    counter reported the label stands alone; otherwise the total is the sum
    of both counters, and a counter that was not reported shows as `?`.
   */
  lemma SumupShape(nstep: nat, prompt: nat, completion: nat)
    ensures StepSumup(nstep, prompt, completion) ==
      "Step " + (Show(nstep) + (if prompt == 0 && completion == 0 then [] else TotalsText(prompt, completion)))
  {
    if prompt == 0 && completion == 0 {
      assert Show(nstep) + [] == Show(nstep);
    } else {
      var base := "Step " + Show(nstep);
      assert base + TotalsText(prompt, completion) == "Step " + (Show(nstep) + TotalsText(prompt, completion));
      if prompt != 0 && completion == 0 {
        OutUnknown(Show(prompt));
      } else if prompt == 0 && completion != 0 {
        InUnknown(Show(completion) + ")");
      }
    }
  }

  lemma ParseStepLabel(nstep: nat, tail: string)
    requires tail == [] || tail[0] == ' '
    ensures ParseSumup("Step " + (Show(nstep) + tail)) ==
      if tail == [] then Some(Usage(nstep, 0, 0))
      else match ParseTotals(tail)
        case None => None
        case Some((p, c)) => Some(Usage(nstep, p, c))
  {
    CutConcat("Step ", Show(nstep) + tail);
    SplitShow(nstep, tail);
  }

  /**
    The summary line loses nothing: the step number and both counters can
    be read back from it, and its total is their sum.
   */
  lemma SumupRoundTrip(nstep: nat, prompt: nat, completion: nat)
    ensures ParseSumup(StepSumup(nstep, prompt, completion)) == Some(Usage(nstep, prompt, completion))
  {
    SumupShape(nstep, prompt, completion);
    if prompt == 0 && completion == 0 {
      ParseStepLabel(nstep, []);
    } else {
      ParseStepLabel(nstep, TotalsText(prompt, completion));
      TotalsRoundTrip(prompt, completion);
    }
  }

  /** Different step or counter values never print the same summary. */
  lemma SumupInjective(n1: nat, p1: nat, c1: nat, n2: nat, p2: nat, c2: nat)
    requires StepSumup(n1, p1, c1) == StepSumup(n2, p2, c2)
    ensures n1 == n2 && p1 == p2 && c1 == c2
  {
    SumupRoundTrip(n1, p1, c1);
    SumupRoundTrip(n2, p2, c2);
  }
}
