/**
 * Text helpers shared by the watcher and the orchestrator: Python's
 * `'\n'.join(xs)` and `str.splitlines()`, and the conditions under which
 * splitting a joined list gives the list back.
 */
module Lines {

  /** The characters `str.splitlines` treats as line boundaries. */
  predicate IsLineBreak(c: char) {
    c == '\n' || c == '\r' || c == '\U{B}' || c == '\U{C}'
    || c == '\U{1C}' || c == '\U{1D}' || c == '\U{1E}'
    || c == '\U{85}' || c == '\U{2028}' || c == '\U{2029}'
  }

  predicate NoLineBreak(s: string) {
    forall i :: 0 <= i < |s| ==> !IsLineBreak(s[i])
  }

  /** Index of the first line break in `s`, or `|s|` when there is none. */
  function FirstBreak(s: string): (k: nat)
    ensures k <= |s|
    ensures k < |s| ==> IsLineBreak(s[k])
    ensures NoLineBreak(s[..k])
  {
    if s == [] then 0
    else if IsLineBreak(s[0]) then 0
    else
      var k := 1 + FirstBreak(s[1..]);
      assert s[..k] == [s[0]] + s[1..][..k - 1];
      k
  }

  /** `'\n'.join(xs)` */
  function Join(xs: seq<string>): string {
    if xs == [] then ""
    else if |xs| == 1 then xs[0]
    else xs[0] + "\n" + Join(xs[1..])
  }

  /**
   * `s.splitlines()`: the pieces between line breaks, where "\r\n" counts
   * as one break and a break at the very end opens no further (empty) line.
   */
  function SplitLines(s: string): seq<string>
    decreases |s|
  {
    if s == [] then []
    else
      var k := FirstBreak(s);
      if k == |s| then [s]
      else
        var width := if s[k] == '\r' && k + 1 < |s| && s[k + 1] == '\n' then 2 else 1;
        [s[..k]] + SplitLines(s[k + width..])
  }

  /** Every line `SplitLines` returns is free of line breaks. */
  lemma {:induction false} SplitLinesHaveNoBreaks(s: string)
    ensures forall i :: 0 <= i < |SplitLines(s)| ==> NoLineBreak(SplitLines(s)[i])
    decreases |s|
  {
    if s != [] {
      var k := FirstBreak(s);
      if k < |s| {
        var width := if s[k] == '\r' && k + 1 < |s| && s[k + 1] == '\n' then 2 else 1;
        SplitLinesHaveNoBreaks(s[k + width..]);
      }
    }
  }

  lemma FirstBreakOfJoined(x: string, rest: string)
    requires NoLineBreak(x)
    ensures FirstBreak(x + "\n" + rest) == |x|
    decreases |x|
  {
    if x != [] {
      assert (x + "\n" + rest)[1..] == x[1..] + "\n" + rest;
      FirstBreakOfJoined(x[1..], rest);
    }
  }

  /**
   * Round trip: splitting a joined list restores it when no item holds a
   * line break and the last item is not empty (a trailing empty item
   * becomes a trailing "\n", which `splitlines` drops).
   */
  lemma {:induction false} SplitJoin(xs: seq<string>)
    requires forall i :: 0 <= i < |xs| ==> NoLineBreak(xs[i])
    requires xs != [] ==> xs[|xs| - 1] != ""
    ensures SplitLines(Join(xs)) == xs
  {
    if |xs| == 1 {
      assert FirstBreak(xs[0]) == |xs[0]|;
    } else if |xs| > 1 {
      var s := Join(xs);
      var rest := Join(xs[1..]);
      assert s == xs[0] + "\n" + rest;
      FirstBreakOfJoined(xs[0], rest);
      assert s[..|xs[0]|] == xs[0];
      assert s[|xs[0]| + 1..] == rest;
      SplitJoin(xs[1..]);
    }
  }

  /** A single empty item does not survive: `''.splitlines() == []`. */
  lemma EmptyItemIsLost()
    ensures Join([""]) == "" && SplitLines(Join([""])) == []
  {
  }
}
