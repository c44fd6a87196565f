/** The few pieces of Python text and container behaviour the models share. */
module PyText {
  datatype Option<+T> = None | Some(value: T)

  /** The characters `str.strip` and `str.split` treat as whitespace. */
  predicate IsSpace(c: char) {
    '\t' <= c <= '\r' || '\U{1c}' <= c <= ' ' || c == '\U{85}' || c == '\U{a0}' || c == '\U{1680}' ||
    '\U{2000}' <= c <= '\U{200a}' || c == '\U{2028}' || c == '\U{2029}' || c == '\U{202f}' ||
    c == '\U{205f}' || c == '\U{3000}'
  }

  /** The characters `str.splitlines` breaks at; each of them is whitespace. */
  predicate IsLineBreak(c: char) {
    '\n' <= c <= '\r' || '\U{1c}' <= c <= '\U{1e}' || c == '\U{85}' || c == '\U{2028}' || c == '\U{2029}'
  }

  const MAX_SLUG := 128

  predicate SlugHead(c: char) { 'a' <= c <= 'z' || '0' <= c <= '9' }

  predicate SlugChar(c: char) { SlugHead(c) || c == '_' || c == '-' }

  /** `shared_memory.is_safe_slug`. */
  predicate SafeSlug(s: string) {
    0 < |s| <= MAX_SLUG && SlugHead(s[0]) && forall c :: c in s ==> SlugChar(c)
  }

  predicate Stripped(s: string) {
    s == "" || (!IsSpace(s[0]) && !IsSpace(s[|s| - 1]))
  }

  function StripLeft(s: string): (r: string)
    ensures r == "" || !IsSpace(r[0])
    ensures |r| <= |s|
  {
    if s != "" && IsSpace(s[0]) then StripLeft(s[1..]) else s
  }

  function StripRight(s: string): (r: string)
    ensures r == "" || !IsSpace(r[|r| - 1])
    ensures |r| <= |s| && r == s[..|r|]
  {
    if s != "" && IsSpace(s[|s| - 1]) then StripRight(s[..|s| - 1]) else s
  }

  function Strip(s: string): (r: string)
    ensures Stripped(r) && |r| <= |s|
    ensures Stripped(s) ==> r == s
  {
    StripRight(StripLeft(s))
  }

  lemma {:induction false} StripRightKeepsHead(s: string)
    requires s != "" && !IsSpace(s[0])
    ensures StripRight(s) != "" && StripRight(s)[0] == s[0]
  {
    if IsSpace(s[|s| - 1]) { StripRightKeepsHead(s[..|s| - 1]); }
  }

  lemma StripKeepsHead(s: string)
    requires s != "" && !IsSpace(s[0])
    ensures Strip(s) != "" && Strip(s)[0] == s[0]
  {
    assert StripLeft(s) == s;
    StripRightKeepsHead(s);
  }

  lemma {:induction false} StripLeftChars(s: string, c: char)
    requires c in StripLeft(s)
    ensures c in s
  {
    if s != "" && IsSpace(s[0]) { StripLeftChars(s[1..], c); }
  }

  lemma StripChars(s: string, c: char)
    requires c in Strip(s)
    ensures c in s
  {
    assert c in StripLeft(s)[..|Strip(s)|];
    StripLeftChars(s, c);
  }

  /** `s[:n]` for a non-negative `n`. */
  function Clip(s: string, n: nat): (r: string)
    ensures |r| <= n && r <= s
    ensures |s| <= n ==> r == s
  {
    if |s| <= n then s else s[..n]
  }

  /** `" ".join(s.split())` for text without leading whitespace: every gap becomes one space. */
  function Squeeze(s: string, gap: bool): string {
    if s == "" then ""
    else if IsSpace(s[0]) then Squeeze(s[1..], true)
    else (if gap then [' ', s[0]] else [s[0]]) + Squeeze(s[1..], false)
  }

  lemma {:induction false} SqueezeOneLine(s: string, gap: bool)
    ensures forall c :: c in Squeeze(s, gap) ==> c == ' ' || !IsSpace(c)
  {
    if s != "" { SqueezeOneLine(s[1..], IsSpace(s[0])); }
  }

  /** `_single_line`: one bounded, stripped line. */
  function SingleLine(s: string, limit: nat): string {
    Strip(Clip(Squeeze(StripLeft(s), false), limit))
  }

  lemma SingleLineClean(s: string, limit: nat)
    ensures var r := SingleLine(s, limit); Stripped(r) && |r| <= limit && '\n' !in r && '\r' !in r
  {
    var squeezed := Squeeze(StripLeft(s), false);
    SqueezeOneLine(StripLeft(s), false);
    forall c | c in SingleLine(s, limit)
      ensures c == ' ' || !IsSpace(c)
    {
      StripChars(Clip(squeezed, limit), c);
      assert c in Clip(squeezed, limit) && c in squeezed;
    }
  }

  predicate IsWord(w: string) { w != "" && forall i :: 0 <= i < |w| ==> !IsSpace(w[i]) }

  predicate IsGap(g: string) { forall i :: 0 <= i < |g| ==> IsSpace(g[i]) }

  /** Text as its words, each with the whitespace behind it. */
  function SpacedOut(words: seq<string>, gaps: seq<string>): string
    requires |gaps| == |words|
  {
    if words == [] then "" else words[0] + gaps[0] + SpacedOut(words[1..], gaps[1..])
  }

  /** The same words with one space between them. */
  function SingleSpaced(words: seq<string>): string {
    if words == [] then "" else if |words| == 1 then words[0] else words[0] + " " + SingleSpaced(words[1..])
  }

  lemma {:induction false} SqueezeWord(w: string, rest: string, gap: bool)
    requires IsWord(w)
    ensures Squeeze(w + rest, gap) == (if gap then " " + w else w) + Squeeze(rest, false)
  {
    assert (w + rest)[0] == w[0] && (w + rest)[1..] == w[1..] + rest;
    if |w| == 1 {
      assert w[1..] + rest == rest;
    } else {
      SqueezeWord(w[1..], rest, false);
    }
    assert [w[0]] + w[1..] == w;
  }

  lemma {:induction false} SqueezeGap(g: string, rest: string, gap: bool)
    requires IsGap(g)
    ensures Squeeze(g + rest, gap) == Squeeze(rest, gap || g != "")
  {
    if g == "" {
      assert g + rest == rest;
    } else {
      assert (g + rest)[0] == g[0] && (g + rest)[1..] == g[1..] + rest;
      SqueezeGap(g[1..], rest, true);
    }
  }

  lemma {:induction false} StripLeftGap(g: string, rest: string)
    requires IsGap(g) && (rest == "" || !IsSpace(rest[0]))
    ensures StripLeft(g + rest) == rest
  {
    if g == "" {
      assert g + rest == rest;
    } else {
      assert (g + rest)[0] == g[0] && (g + rest)[1..] == g[1..] + rest;
      StripLeftGap(g[1..], rest);
    }
  }

  lemma {:induction false} SqueezeSpaced(words: seq<string>, gaps: seq<string>, gap: bool)
    requires |gaps| == |words| && (forall i :: 0 <= i < |words| ==> IsWord(words[i]) && IsGap(gaps[i]))
    requires forall i :: 0 <= i < |words| - 1 ==> gaps[i] != ""
    ensures Squeeze(SpacedOut(words, gaps), gap) ==
            if words == [] then "" else if gap then " " + SingleSpaced(words) else SingleSpaced(words)
  {
    if words != [] {
      var rest := SpacedOut(words[1..], gaps[1..]);
      assert SpacedOut(words, gaps) == words[0] + (gaps[0] + rest);
      SqueezeWord(words[0], gaps[0] + rest, gap);
      SqueezeGap(gaps[0], rest, false);
      SqueezeSpaced(words[1..], gaps[1..], gaps[0] != "");
    }
  }

  lemma {:induction false} StripRightGap(core: string, g: string)
    requires IsGap(g) && (core == "" || !IsSpace(core[|core| - 1]))
    ensures StripRight(core + g) == core
  {
    if g == "" {
      assert core + g == core;
    } else {
      assert (core + g)[..|core + g| - 1] == core + g[..|g| - 1];
      StripRightGap(core, g[..|g| - 1]);
    }
  }

  /** Stripping takes the whitespace off both ends and nothing else. */
  lemma StripExactly(lead: string, core: string, tail: string)
    requires IsGap(lead) && IsGap(tail) && Stripped(core)
    ensures Strip(lead + core + tail) == core
  {
    if core == "" {
      assert lead + core + tail == (lead + tail) + "" && IsGap(lead + tail);
      StripLeftGap(lead + tail, "");
    } else {
      assert lead + core + tail == lead + (core + tail) && (core + tail)[0] == core[0];
      StripLeftGap(lead, core + tail);
      StripRightGap(core, tail);
    }
  }

  /** A single line is the words of the text, one space between them, cut at the limit. */
  lemma SingleLineWords(lead: string, words: seq<string>, gaps: seq<string>, limit: nat)
    requires |gaps| == |words| && (forall i :: 0 <= i < |words| ==> IsWord(words[i]) && IsGap(gaps[i]))
    requires IsGap(lead) && forall i :: 0 <= i < |words| - 1 ==> gaps[i] != ""
    ensures SingleLine(lead + SpacedOut(words, gaps), limit) == Strip(Clip(SingleSpaced(words), limit))
  {
    StripLeftGap(lead, SpacedOut(words, gaps));
    SqueezeSpaced(words, gaps, false);
  }

  function Digit(d: nat): (c: char)
    requires d < 10
    ensures '0' <= c <= '9' && c as int - '0' as int == d
  {
    '0' + d as char
  }

  /** `str(n)` for a non-negative `n`. */
  function Decimal(n: nat): (r: string)
    ensures r != "" && forall c :: c in r ==> '0' <= c <= '9'
  {
    if n < 10 then [Digit(n)] else Decimal(n / 10) + [Digit(n % 10)]
  }

  lemma {:induction false} DecimalInjective(m: nat, n: nat)
    requires Decimal(m) == Decimal(n)
    ensures m == n
  {
    var a, b := Decimal(m), Decimal(n);
    assert a[|a| - 1] == Digit(m % 10) && b[|b| - 1] == Digit(n % 10);
    assert a[..|a| - 1] == b[..|b| - 1];
    assert a[..|a| - 1] == if m < 10 then "" else Decimal(m / 10);
    assert b[..|b| - 1] == if n < 10 then "" else Decimal(n / 10);
    if m >= 10 && n >= 10 {
      DecimalInjective(m / 10, n / 10);
    }
  }

  function HexDigit(d: nat): char
    requires d < 16
  {
    if d < 10 then '0' + d as char else 'a' + (d - 10) as char
  }

  /** One character of a `repr` between quotes `q`; beyond ASCII every character counts as printable. */
  function ReprChar(c: char, q: char): string {
    if c == q || c == '\\' then ['\\', c]
    else if c == '\t' then ['\\', 't']
    else if c == '\n' then ['\\', 'n']
    else if c == '\r' then ['\\', 'r']
    else if c < ' ' || c == '\U{7f}' then ['\\', 'x', HexDigit(c as int / 16), HexDigit(c as int % 16)]
    else [c]
  }

  function ReprChars(s: string, q: char): string {
    if s == "" then "" else ReprChar(s[0], q) + ReprChars(s[1..], q)
  }

  /** `repr(s)`: in double quotes exactly where only single ones occur inside. */
  function Repr(s: string): string {
    var q := if '\'' in s && '\"' !in s then '\"' else '\'';
    [q] + ReprChars(s, q) + [q]
  }

  function Min(a: int, b: int): int { if a < b then a else b }

  function Max(a: int, b: int): int { if a > b then a else b }

  ghost predicate Ascending(ids: seq<nat>) { forall i, j :: 0 <= i < j < |ids| ==> ids[i] < ids[j] }

  ghost predicate Unique<T>(s: seq<T>) {
    forall i, j :: 0 <= i < j < |s| ==> s[i] != s[j]
  }

  /** The keys of `dict.fromkeys(s)`, in order: each element at its first occurrence. */
  function Distinct<T(==,!new)>(s: seq<T>): (r: seq<T>)
    ensures forall x :: x in r <==> x in s
    ensures Unique(r) && |r| <= |s|
  {
    if s == [] then []
    else
      var front := Distinct(s[..|s| - 1]);
      if s[|s| - 1] in s[..|s| - 1] then front else front + [s[|s| - 1]]
  }

  /** A list comprehension's filter. */
  function Filter<T(!new)>(s: seq<T>, keep: T -> bool): (r: seq<T>)
    ensures |r| <= |s|
    ensures forall x :: x in r <==> x in s && keep(x)
  {
    if s == [] then []
    else Filter(s[..|s| - 1], keep) + if keep(s[|s| - 1]) then [s[|s| - 1]] else []
  }

  /** What is done of a list of steps of which at most `left` succeed. */
  function Cut<T>(s: seq<T>, left: nat): seq<T> { if left < |s| then s[..left] else s }

  lemma HeadTail<T>(s: seq<T>, more: seq<T>)
    requires s != []
    ensures [s[0]] + (s[1..] + more) == s + more
  {
  }

  lemma Snoc<T>(s: seq<T>, x: T)
    ensures (s + [x])[..|s|] == s
  {
  }

  lemma TakeDrop<T>(s: seq<T>, n: nat)
    requires n <= |s|
    ensures s[..n] + s[n..] == s
  {
  }

  lemma LastOrBefore<T>(s: seq<T>)
    requires s != []
    ensures forall x :: x in s <==> x in s[..|s| - 1] || x == s[|s| - 1]
  {
    assert s == s[..|s| - 1] + [s[|s| - 1]];
  }

  lemma ConsAppend<T>(x: T, a: seq<T>, b: seq<T>)
    ensures [x] + (a + b) == [x] + a + b && ([x] + a + b)[1..] == a + b
  {
  }

  lemma SplitAt<T>(s: seq<T>, k: nat)
    requires k < |s|
    ensures s[..k] + [s[k]] == s[..k + 1] && s[k..] == [s[k]] + s[k + 1..] && s[k..][1..] == s[k + 1..]
  {
  }

  lemma Assoc<T>(a: seq<T>, b: seq<T>, c: seq<T>)
    ensures a + (b + c) == a + b + c
  {
  }

  lemma ConcatHead<T>(a: seq<T>, b: seq<T>)
    requires a != []
    ensures a + b != [] && (a + b)[0] == a[0] && (a + b)[1..] == a[1..] + b
  {
  }

  lemma NoneConcat<T>(s: seq<T>)
    ensures [] + s == s && s + [] == s
  {
  }

  /** Three parts of `a + b + c`, `b` splitting in two. */
  lemma Regroup<T>(a: seq<T>, b: seq<T>, c: seq<T>, d: seq<T>)
    ensures a + (b + c) + d == (a + b) + (c + d)
  {
  }
}
