/** `str.splitlines` and its inverse. */
module Lines {
  import opened PyText

  /** Where the first line of `s` ends. */
  function LineEnd(s: string): (n: nat)
    ensures n <= |s| && (n < |s| ==> IsLineBreak(s[n]))
    ensures forall i :: 0 <= i < n ==> !IsLineBreak(s[i])
  {
    if s == "" || IsLineBreak(s[0]) then 0 else 1 + LineEnd(s[1..])
  }

  /** The text after the line break at `n`; CR LF is one break. */
  function AfterBreak(s: string, n: nat): (rest: string)
    requires n < |s|
    ensures |rest| < |s|
  {
    if s[n] == '\r' && n + 1 < |s| && s[n + 1] == '\n' then s[n + 2..] else s[n + 1..]
  }

  function SplitLines(s: string): seq<string> {
    if s == "" then []
    else
      var n := LineEnd(s);
      if n == |s| then [s] else [s[..n]] + SplitLines(AfterBreak(s, n))
  }

  /** `"\n".join(lines)`. */
  function JoinLines(lines: seq<string>): string {
    if lines == [] then "" else if |lines| == 1 then lines[0] else lines[0] + "\n" + JoinLines(lines[1..])
  }

  predicate OneLine(s: string) { forall i :: 0 <= i < |s| ==> !IsLineBreak(s[i]) }

  lemma {:induction false} LinesAreSingle(s: string)
    ensures forall k :: 0 <= k < |SplitLines(s)| ==> OneLine(SplitLines(s)[k])
  {
    if s != "" && LineEnd(s) < |s| { LinesAreSingle(AfterBreak(s, LineEnd(s))); }
  }

  lemma {:induction false} LineEndAt(line: string, rest: string)
    requires OneLine(line) && rest != "" && IsLineBreak(rest[0])
    ensures LineEnd(line + rest) == |line|
  {
    if line == "" {
      assert line + rest == rest;
    } else {
      assert (line + rest)[1..] == line[1..] + rest && (line + rest)[0] == line[0];
      LineEndAt(line[1..], rest);
    }
  }

  /** A line and the break that ends it are split off first. */
  lemma FirstLine(line: string, c: char, rest: string)
    requires OneLine(line) && IsLineBreak(c) && c != '\r'
    ensures SplitLines(line + [c] + rest) == [line] + SplitLines(rest)
  {
    var s := line + [c] + rest;
    assert s == line + ([c] + rest);
    LineEndAt(line, [c] + rest);
    assert s[|line|] == c && s[..|line|] == line && s[|line| + 1..] == rest;
  }

  /** Every line break replaced by a newline. */
  function Unbroken(s: string): (r: string)
    ensures |r| == |s|
    ensures forall i :: 0 <= i < |s| ==> r[i] == if IsLineBreak(s[i]) then '\n' else s[i]
  {
    if s == "" then "" else [if IsLineBreak(s[0]) then '\n' else s[0]] + Unbroken(s[1..])
  }

  lemma UnbrokenLine(line: string, c: char, rest: string)
    requires OneLine(line) && IsLineBreak(c)
    ensures Unbroken(line + [c] + rest) == line + "\n" + Unbroken(rest)
  {
  }

  /** Splitting newline-terminated text without CR and joining it again turns each line break into a newline. */
  lemma {:induction false} SplitJoin(s: string)
    requires '\r' !in s
    ensures SplitLines(s + "\n") != [] && JoinLines(SplitLines(s + "\n")) == Unbroken(s)
    decreases |s|
  {
    var n := LineEnd(s);
    var line := s[..n];
    if n == |s| {
      assert s + "\n" == s + ['\n'] + "";
      FirstLine(s, '\n', "");
    } else {
      var c, rest := s[n], s[n + 1..];
      assert c in s && s == line + [c] + rest && s + "\n" == line + [c] + (rest + "\n");
      FirstLine(line, c, rest + "\n");
      UnbrokenLine(line, c, rest);
      SplitJoin(rest);
      JoinedFirst(line, SplitLines(rest + "\n"));
    }
  }

  lemma JoinedFirst(line: string, more: seq<string>)
    requires more != []
    ensures JoinLines([line] + more) == line + "\n" + JoinLines(more)
  {
    assert ([line] + more)[1..] == more;
  }

  /** Text up to its first break, and from it on. */
  lemma SplitAtBreak(line: string, tail: string)
    requires OneLine(line) && tail != "" && IsLineBreak(tail[0])
    ensures SplitLines(line + tail) == [line] + SplitLines(AfterBreak(tail, 0))
  {
    var s := line + tail;
    LineEndAt(line, tail);
    assert s[..|line|] == line && AfterBreak(s, |line|) == AfterBreak(tail, 0);
  }

  lemma AfterBreakAppend(tail: string, more: string)
    requires |tail| > 1
    ensures AfterBreak(tail + more, 0) == AfterBreak(tail, 0) + more
  {
  }

  lemma SplitConcatStep(head: string, tail: string, more: string, lines: seq<string>)
    requires OneLine(head) && |tail| > 1 && IsLineBreak(tail[0])
    requires var rest := AfterBreak(tail, 0); SplitLines(rest + more) == SplitLines(rest) + lines
    ensures SplitLines(head + tail + more) == SplitLines(head + tail) + lines
  {
    var rest := AfterBreak(tail, 0);
    SplitAtBreak(head, tail);
    Assoc(head, tail, more);
    SplitAtBreak(head, tail + more);
    AfterBreakAppend(tail, more);
    Assoc([head], SplitLines(rest), lines);
  }

  lemma SplitFirst(s: string, more: string)
    requires s != "" && OneLine(s)
    ensures SplitLines(s + (['\n'] + more)) == SplitLines(s) + SplitLines(more)
  {
    SplitAtBreak(s, ['\n'] + more);
    OneLineAlone(s);
    assert AfterBreak(['\n'] + more, 0) == more;
  }

  /** Text that does not end in a break, and text after a newline, split apart. */
  lemma {:induction false} SplitConcat(s: string, more: string)
    requires s != "" && !IsLineBreak(s[|s| - 1])
    ensures SplitLines(s + (['\n'] + more)) == SplitLines(s) + SplitLines(more)
    decreases |s|
  {
    var n := LineEnd(s);
    if n == |s| {
      SplitFirst(s, more);
    } else {
      var rest := AfterBreak(s[n..], 0);
      assert rest != "" && rest[|rest| - 1] == s[|s| - 1];
      SplitConcat(rest, more);
      TakeDrop(s, n);
      SplitConcatStep(s[..n], s[n..], ['\n'] + more, SplitLines(more));
    }
  }

  /** A line appended to text that does not end in a break is one more line. */
  lemma SplitAppend(s: string, line: string)
    requires s != "" && !IsLineBreak(s[|s| - 1]) && line != "" && OneLine(line)
    ensures SplitLines(s + (['\n'] + line)) == SplitLines(s) + [line]
  {
    SplitConcat(s, line);
    OneLineAlone(line);
  }

  /** The lines of `s` that a break ends. */
  function Ended(s: string): seq<string>
    decreases |s|
  {
    var n := LineEnd(s);
    if n == |s| then [] else [s[..n]] + Ended(AfterBreak(s, n))
  }

  /** What follows the last break of `s`. */
  function Unended(s: string): string
    decreases |s|
  {
    var n := LineEnd(s);
    if n == |s| then s else Unended(AfterBreak(s, n))
  }

  lemma BreakThen(tail: string, more: string)
    requires tail != "" && IsLineBreak(tail[0]) && more != "" && !IsLineBreak(more[0])
    ensures AfterBreak(tail + more, 0) == AfterBreak(tail, 0) + more
  {
    if |tail| > 1 { AfterBreakAppend(tail, more); } else { assert (tail + more)[1..] == more; }
  }

  lemma OneLineBoth(s: string, t: string)
    requires OneLine(s) && OneLine(t)
    ensures OneLine(s + t)
  {
  }

  /** Text appended on the same line changes the last line alone. */
  lemma {:induction false} SplitSameLine(s: string, more: string)
    requires more != "" && OneLine(more)
    ensures SplitLines(s + more) == Ended(s) + [Unended(s) + more]
    decreases |s|
  {
    var n := LineEnd(s);
    if n == |s| {
      OneLineBoth(s, more);
      OneLineAlone(s + more);
    } else {
      var rest := AfterBreak(s[n..], 0);
      assert rest == AfterBreak(s, n);
      SplitSameLine(rest, more);
      TakeDrop(s, n);
      Assoc(s[..n], s[n..], more);
      BreakThen(s[n..], more);
      SplitAtBreak(s[..n], s[n..] + more);
      Assoc([s[..n]], Ended(rest), [Unended(rest) + more]);
    }
  }

  lemma OneLineAlone(s: string)
    requires s != "" && OneLine(s)
    ensures SplitLines(s) == [s]
  {
    assert LineEnd(s) == |s|;
  }
}
