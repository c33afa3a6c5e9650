/**
  The fence search both extractors perform with Python's `re.match` on the
  pattern `(.*?)OPEN(.*?)CLOSE` under `re.DOTALL`. The pattern is anchored at
  the start of the text; `.` also matches newlines; both groups are lazy, so
  the backtracking engine reports the match whose first group is shortest
  and, for that first group, whose second group is shortest.
 */
module Fences {
  import opened Wrappers
  import opened Strings

  /** Where the opening marker and the closing marker of a match start. */
  datatype Fence = Fence(open: nat, close: nat)

  /**
    The pattern matches with group 1 = `text[..i]` and group 2 =
    `text[i + |open|..j]`: `open` at `i`, `close` at `j`, not overlapping.
   */
  predicate Matches(text: string, open: string, close: string, i: nat, j: nat) {
    ContainsAt(text, open, i) && i + |open| <= j && ContainsAt(text, close, j)
  }

  /** The match the lazy groups pick: no match with a shorter group 1, none with this group 1 and a shorter group 2. */
  ghost predicate LeastMatch(text: string, open: string, close: string, i: nat, j: nat) {
    && Matches(text, open, close, i, j)
    && (forall i': nat, j': nat :: i' < i ==> !Matches(text, open, close, i', j'))
    && (forall j': nat :: j' < j ==> !Matches(text, open, close, i, j'))
  }

  /**
    The match as a first-occurrence search: the first `open`, then the first
    `close` after it. When the first `open` has no `close` after it, no later
    `open` has one either, so there is no match at all.
   */
  function FirstFence(text: string, open: string, close: string): (r: Option<Fence>)
    ensures r.Some? ==> Matches(text, open, close, r.value.open, r.value.close)
  {
    match Find(text, open, 0)
    case None => None
    case Some(i) =>
      match Find(text, close, i + |open|)
      case None => None
      case Some(j) => Some(Fence(i, j))
  }

  /** `FirstFence` is the regular expression's answer: no fence exactly when nothing matches, else the least match. */
  lemma FirstFenceIsLeastMatch(text: string, open: string, close: string)
    ensures FirstFence(text, open, close).None? ==> forall i: nat, j: nat :: !Matches(text, open, close, i, j)
    ensures FirstFence(text, open, close).Some? ==>
      var f := FirstFence(text, open, close).value;
      LeastMatch(text, open, close, f.open, f.close)
  {
  }

  /** The regular expression has at most one least match. */
  lemma LeastMatchUnique(text: string, open: string, close: string, i: nat, j: nat, i': nat, j': nat)
    requires LeastMatch(text, open, close, i, j)
    requires LeastMatch(text, open, close, i', j')
    ensures i == i' && j == j'
  {
  }

  /** `FirstFence` finds a fence exactly when the regular expression matches, and then the same one. */
  lemma FirstFenceIsRegexMatch(text: string, open: string, close: string, i: nat, j: nat)
    ensures FirstFence(text, open, close) == Some(Fence(i, j)) <==> LeastMatch(text, open, close, i, j)
  {
    FirstFenceIsLeastMatch(text, open, close);
    if LeastMatch(text, open, close, i, j) {
      var r := FirstFence(text, open, close);
      assert r.Some?;
      LeastMatchUnique(text, open, close, i, j, r.value.open, r.value.close);
    }
  }

  /**
    Once the text holds a complete fenced block, text appended after it does
    not change the match: everything after the first closing marker is
    ignored.
   */
  lemma FirstFenceIgnoresSuffix(text: string, more: string, open: string, close: string)
    requires FirstFence(text, open, close).Some?
    ensures FirstFence(text + more, open, close) == FirstFence(text, open, close)
  {
    FirstFenceIsLeastMatch(text, open, close);
    var f := FirstFence(text, open, close).value;
    var i, j := f.open, f.close;
    var t := text + more;
    ContainsAtPrefix(text, more, open, i);
    ContainsAtPrefix(text, more, close, j);
    assert Matches(t, open, close, i, j);
    forall i': nat, j': nat | i' < i
      ensures !Matches(t, open, close, i', j')
    {
      ContainsAtPrefix(text, more, open, i');
      assert !Matches(text, open, close, i', j);
    }
    forall j': nat | j' < j
      ensures !Matches(t, open, close, i, j')
    {
      ContainsAtPrefix(text, more, close, j');
      assert !Matches(text, open, close, i, j');
    }
    assert LeastMatch(t, open, close, i, j);
    FirstFenceIsRegexMatch(t, open, close, i, j);
  }

  /** The text before the opening marker of a match holds no opening marker. */
  lemma NoOpenBeforeFence(text: string, open: string, close: string)
    requires |open| > 0
    requires FirstFence(text, open, close).Some?
    ensures NoOccurrence(text[..FirstFence(text, open, close).value.open], open)
  {
    FirstFenceIsLeastMatch(text, open, close);
    var f := FirstFence(text, open, close).value;
    forall k: nat
      ensures !ContainsAt(text[..f.open], open, k)
    {
      if k + |open| <= f.open {
        assert text[..f.open] + text[f.open..] == text;
        ContainsAtPrefix(text[..f.open], text[f.open..], open, k);
        assert !Matches(text, open, close, k, f.close);
      }
    }
  }

  /** The body between the markers of a match holds no closing marker. */
  lemma NoCloseInBody(text: string, open: string, close: string)
    requires |close| > 0
    requires FirstFence(text, open, close).Some?
    ensures
      var f := FirstFence(text, open, close).value;
      NoOccurrence(text[f.open + |open|..f.close], close)
  {
    FirstFenceIsLeastMatch(text, open, close);
    var f := FirstFence(text, open, close).value;
    var a := f.open + |open|;
    var body := text[a..f.close];
    forall k: nat
      ensures !ContainsAt(body, close, k)
    {
      if k + |close| <= |body| {
        assert text[..a] + text[a..] == text;
        ContainsAtShift(text[..a], text[a..], close, k);
        assert text[a..] == body + text[f.close..];
        ContainsAtPrefix(body, text[f.close..], close, k);
        assert !Matches(text, open, close, f.open, a + k);
      }
    }
  }
}
