/** Fact files: one note as frontmatter and body, rendered by the writers and read back by the loader. */
module FactFormat {
  import opened PyText
  import opened Lines

  datatype Fact = Fact(name: string, kind: string, summary: string, body: string,
                       source: Option<string>, asOf: Option<string>)

  // ----- writing -----

  /** `single_line`: the stripped value, or nothing where it raises. */
  function Cleaned(value: string): Option<string> {
    var v := Strip(value);
    if v == "" || '\n' in v || '\r' in v then None else Some(v)
  }

  /** `PrivateScope.remember`: the note written, or nothing where it raises. `asOf` stands for today when none
      is given. */
  function Remembered(name: string, kind: string, summary: string, body: string, source: string,
                      asOf: string): Option<Fact> {
    if !SafeSlug(name) || Cleaned(kind).None? || Cleaned(summary).None? || Cleaned(asOf).None? then None
    else if source == "" then
      Some(Fact(name, Cleaned(kind).value, Cleaned(summary).value, Strip(body), None, Cleaned(asOf)))
    else if Cleaned(source).None? then None
    else Some(Fact(name, Cleaned(kind).value, Cleaned(summary).value, Strip(body), Cleaned(source), Cleaned(asOf)))
  }

  /** `s.replace("\r\n", "\n")`. */
  function ReplaceCrLf(s: string): string {
    if s == "" then ""
    else if s[0] == '\r' && |s| > 1 && s[1] == '\n' then "\n" + ReplaceCrLf(s[2..])
    else [s[0]] + ReplaceCrLf(s[1..])
  }

  /** `s.replace("\r", "\n")`. */
  function ReplaceCr(s: string): string {
    if s == "" then "" else [if s[0] == '\r' then '\n' else s[0]] + ReplaceCr(s[1..])
  }

  function Normal(body: string): string { ReplaceCr(ReplaceCrLf(body)) }

  function Field(key: string, value: string): string { key + (":" + (" " + value)) }

  /** Each line with its newline, then `tail`. */
  function Written(lines: seq<string>, tail: string): string {
    if lines == [] then tail else lines[0] + "\n" + Written(lines[1..], tail)
  }

  datatype Entry = Entry(key: string, value: string)

  function OrEmpty(v: Option<string>): string { if v.Some? then v.value else "" }

  /** The frontmatter `render_fact` writes. */
  function Entries(f: Fact): seq<Entry> {
    [Entry("name", f.name), Entry("kind", f.kind), Entry("summary", f.summary),
     Entry("source", OrEmpty(f.source)), Entry("as_of", OrEmpty(f.asOf))]
  }

  function Fields(es: seq<Entry>): (lines: seq<string>)
    ensures |lines| == |es|
  {
    if es == [] then [] else Fields(es[..|es| - 1]) + [Field(es[|es| - 1].key, es[|es| - 1].value)]
  }

  function Tail(f: Fact): string { if Normal(f.body) == "" then "" else Normal(f.body) + "\n" }

  /** `render_fact`. */
  function Render(f: Fact): string { Written(["---"] + Fields(Entries(f)) + ["---"], Tail(f)) }

  // ----- reading -----

  datatype Front = Front(meta: map<string, string>, body: string)

  /** The first line from `i` on that closes the frontmatter, or the number of lines. */
  function Closing(lines: seq<string>, i: nat): (end: nat)
    requires i <= |lines|
    ensures i <= end <= |lines|
    decreases |lines| - i
  {
    if i == |lines| || Strip(lines[i]) == "---" then i else Closing(lines, i + 1)
  }

  function Colon(line: string): (n: nat)
    ensures n <= |line|
  {
    if line == "" || line[0] == ':' then 0 else 1 + Colon(line[1..])
  }

  /** The entry a line holds; a blank or colon-less line holds none. */
  function EntryOf(line: string): Option<Entry> {
    var c := Colon(line);
    if Strip(line) == "" || c == |line| then None else Some(Entry(Strip(line[..c]), Strip(line[c + 1..])))
  }

  /** The dict after one line: a later key wins. */
  function Entered(meta: map<string, string>, line: string): map<string, string> {
    match EntryOf(line) case None => meta case Some(e) => meta[e.key := e.value]
  }

  function Meta(lines: seq<string>): map<string, string> {
    if lines == [] then map[] else Entered(Meta(lines[..|lines| - 1]), lines[|lines| - 1])
  }

  /** `parse_frontmatter`. */
  function Frontmatter(text: string): Front {
    var lines := SplitLines(text);
    if !("---" <= text) || lines == [] || Closing(lines, 1) == |lines| then Front(map[], text)
    else
      var end := Closing(lines, 1);
      Front(Meta(lines[1..end]), Strip(JoinLines(lines[end + 1..])))
  }

  function Got(meta: map<string, string>, key: string): string { if key in meta then meta[key] else "" }

  function OrNone(v: string): Option<string> { if v == "" then None else Some(v) }

  /** `load_fact` on a readable file. */
  function Loaded(text: string, stem: string): Option<Fact> {
    var front := Frontmatter(text);
    var name := Got(front.meta, "name");
    if Got(front.meta, "kind") == "" || Got(front.meta, "summary") == "" then None
    else Some(Fact(if name == "" then stem else name, front.meta["kind"], front.meta["summary"], front.body,
                   OrNone(Got(front.meta, "source")), OrNone(Got(front.meta, "as_of"))))
  }

  method FindClosing(lines: seq<string>) returns (end: nat)
    requires lines != []
    ensures end == Closing(lines, 1)
  {
    end := 1;
    while end < |lines| && Strip(lines[end]) != "---"
      invariant 1 <= end <= |lines| && Closing(lines, end) == Closing(lines, 1)
    {
      end := end + 1;
    }
  }

  lemma MetaUpTo(lines: seq<string>, i: nat)
    requires i < |lines|
    ensures Meta(lines[..i + 1]) == Entered(Meta(lines[..i]), lines[i])
  {
    assert lines[..i + 1][..i] == lines[..i];
  }

  method ReadMeta(lines: seq<string>) returns (meta: map<string, string>)
    ensures meta == Meta(lines)
  {
    meta := map[];
    for i := 0 to |lines|
      invariant meta == Meta(lines[..i])
    {
      MetaUpTo(lines, i);
      var entry := EntryOf(lines[i]);
      if entry.Some? { meta := meta[entry.value.key := entry.value.value]; }
    }
    assert lines[..|lines|] == lines;
  }

  method ParseFrontmatter(text: string) returns (front: Front)
    ensures front == Frontmatter(text)
  {
    if !("---" <= text) { return Front(map[], text); }
    var lines := SplitLines(text);
    if lines == [] { return Front(map[], text); }
    var end := FindClosing(lines);
    if end == |lines| { return Front(map[], text); }
    var meta := ReadMeta(lines[1..end]);
    front := Front(meta, Strip(JoinLines(lines[end + 1..])));
  }

  // ----- normalising line ends -----

  /** Normalising removes every CR, adds nothing but newlines, and keeps every other character. */
  lemma {:induction false} NormalChars(s: string, c: char)
    ensures c in Normal(s) <==> (c in s && c != '\r') || (c == '\n' && '\r' in s)
    decreases |s|
  {
    if s != "" {
      if s[0] == '\r' && |s| > 1 && s[1] == '\n' {
        NormalChars(s[2..], c);
        assert s == "\r\n" + s[2..];
        assert ReplaceCrLf(s) == "\n" + ReplaceCrLf(s[2..]);
        assert Normal(s) == "\n" + Normal(s[2..]);
      } else {
        NormalChars(s[1..], c);
        assert s == [s[0]] + s[1..];
        assert ReplaceCrLf(s) == [s[0]] + ReplaceCrLf(s[1..]);
        assert Normal(s) == [if s[0] == '\r' then '\n' else s[0]] + Normal(s[1..]);
      }
    }
  }

  lemma NormalBreak(s: string)
    requires s != "" && IsLineBreak(s[0])
    ensures Normal(s) == [if s[0] == '\r' then '\n' else s[0]] + Normal(AfterBreak(s, 0))
  {
    assert ReplaceCrLf(s) == (if s[0] == '\r' && |s| > 1 && s[1] == '\n' then "\n" else [s[0]]) +
      ReplaceCrLf(AfterBreak(s, 0));
  }

  lemma {:induction false} NormalPrefix(line: string, rest: string)
    requires OneLine(line)
    ensures Normal(line + rest) == line + Normal(rest)
  {
    if line == "" {
      assert line + rest == rest;
    } else {
      NormalPrefix(line[1..], rest);
      assert (line + rest)[1..] == line[1..] + rest && (line + rest)[0] == line[0];
      assert ReplaceCrLf(line + rest) == [line[0]] + ReplaceCrLf(line[1..] + rest);
    }
  }

  lemma NormalLine(line: string, tail: string)
    requires OneLine(line) && tail != "" && IsLineBreak(tail[0])
    ensures var c := if tail[0] == '\r' then '\n' else tail[0];
            Normal(line + tail) == line + [c] + Normal(AfterBreak(tail, 0))
  {
    NormalPrefix(line, tail);
    NormalBreak(tail);
    var c := if tail[0] == '\r' then '\n' else tail[0];
    var rest := Normal(AfterBreak(tail, 0));
    assert line + ([c] + rest) == line + [c] + rest;
  }

  /** The lines of a text do not change when its line ends are normalised. */
  lemma {:induction false} NormalKeepsLines(s: string)
    ensures SplitLines(Normal(s)) == SplitLines(s)
    decreases |s|
  {
    var n := LineEnd(s);
    var line, tail := s[..n], s[n..];
    assert s == line + tail;
    if n == |s| {
      NormalPrefix(line, tail);
      assert Normal(s) == s;
    } else {
      var rest := AfterBreak(s, n);
      assert AfterBreak(tail, 0) == rest;
      NormalKeepsLines(rest);
      NormalLine(line, tail);
      FirstLine(line, if s[n] == '\r' then '\n' else s[n], Normal(rest));
    }
  }

  // ----- one line of frontmatter -----

  lemma {:induction false} ColonAt(key: string, rest: string)
    requires forall i :: 0 <= i < |key| ==> key[i] != ':'
    ensures Colon(key + (":" + rest)) == |key|
  {
    if key == "" {
      assert key + (":" + rest) == ":" + rest;
    } else {
      assert (key + (":" + rest))[1..] == key[1..] + (":" + rest) && (key + (":" + rest))[0] == key[0];
      ColonAt(key[1..], rest);
    }
  }

  predicate Key(key: string) {
    key != "" && key[0] != '-' && forall i :: 0 <= i < |key| ==> key[i] != ':' && !IsSpace(key[i])
  }

  lemma StripPadded(value: string)
    requires Stripped(value)
    ensures Strip(" " + value) == value
  {
    assert (" " + value)[1..] == value;
    assert StripLeft(" " + value) == StripLeft(value);
  }

  lemma FieldSplit(key: string, value: string)
    requires Key(key)
    ensures var line := Field(key, value);
            Colon(line) == |key| && line[..|key|] == key && line[|key| + 1..] == " " + value && line[0] == key[0]
  {
    ColonAt(key, " " + value);
  }

  /** A rendered field is read back whole, colons in its value included, and never closes the frontmatter. */
  lemma FieldRead(key: string, value: string)
    requires Key(key) && Stripped(value)
    ensures EntryOf(Field(key, value)) == Some(Entry(key, value)) && !Closes(Field(key, value))
  {
    var line := Field(key, value);
    FieldSplit(key, value);
    StripPadded(value);
    StripKeepsHead(line);
    var k, v := line[..|key|], line[|key| + 1..];
    assert Strip(k) == key && Strip(v) == value;
    assert Strip(line) != "" && |key| < |line|;
    assert EntryOf(line) == Some(Entry(Strip(k), Strip(v)));
  }

  // ----- the round trip -----

  /** What the writers put in a note. */
  predicate Clean(value: string) { value != "" && Stripped(value) && '\n' !in value && '\r' !in value }

  /** Today's date, as the `as_of` line holds it. */
  type Day = s: string | Clean(s) && OneLine(s) witness ['1']

  predicate Writable(f: Fact) {
    && SafeSlug(f.name) && Clean(f.kind) && Clean(f.summary) && Stripped(f.body)
    && (f.source.Some? ==> Clean(f.source.value)) && f.asOf.Some? && Clean(f.asOf.value)
  }

  /** No line separator of any kind in the fields. */
  predicate PlainFields(f: Fact) {
    OneLine(f.kind) && OneLine(f.summary) && OneLine(OrEmpty(f.source)) && OneLine(OrEmpty(f.asOf))
  }

  /** No line separator but CR and LF. */
  predicate PlainBody(body: string) {
    forall i :: 0 <= i < |body| && IsLineBreak(body[i]) ==> body[i] == '\n' || body[i] == '\r'
  }

  lemma RememberedWritable(name: string, kind: string, summary: string, body: string, source: string, asOf: string)
    ensures var f := Remembered(name, kind, summary, body, source, asOf); f.Some? ==> Writable(f.value)
  {
  }

  lemma SlugOneLine(s: string)
    requires SafeSlug(s)
    ensures OneLine(s) && Stripped(s)
  {
    assert s[0] in s && s[|s| - 1] in s;
    forall i | 0 <= i < |s|
      ensures !IsLineBreak(s[i])
    {
      assert s[i] in s;
    }
  }

  lemma FieldOneLine(key: string, value: string)
    requires Key(key) && OneLine(value)
    ensures OneLine(Field(key, value))
  {
    forall i | 0 <= i < |Field(key, value)|
      ensures !IsLineBreak(Field(key, value)[i])
    {
      if i >= |key| + 2 { assert Field(key, value)[i] == value[i - |key| - 2]; }
    }
  }

  lemma {:induction false} WrittenLines(lines: seq<string>, tail: string)
    requires forall k :: 0 <= k < |lines| ==> OneLine(lines[k])
    ensures SplitLines(Written(lines, tail)) == lines + SplitLines(tail)
  {
    if lines == [] {
      assert Written(lines, tail) == tail;
      assert lines + SplitLines(tail) == SplitLines(tail);
    } else {
      var more := Written(lines[1..], tail);
      WrittenLines(lines[1..], tail);
      FirstLine(lines[0], '\n', more);
      assert Written(lines, tail) == lines[0] + ['\n'] + more;
      HeadTail(lines, SplitLines(tail));
    }
  }

  predicate Single(e: Entry) { Key(e.key) && OneLine(e.value) }

  predicate Recoverable(e: Entry) { Key(e.key) && Stripped(e.value) }

  lemma {:induction false} FieldsOneLine(es: seq<Entry>)
    requires forall k :: 0 <= k < |es| ==> Single(es[k])
    ensures forall k :: 0 <= k < |es| ==> OneLine(Fields(es)[k])
  {
    if es != [] {
      FieldsOneLine(es[..|es| - 1]);
      FieldOneLine(es[|es| - 1].key, es[|es| - 1].value);
    }
  }

  /** The dict a list of entries spells: a later key wins. */
  function Dict(es: seq<Entry>): map<string, string> {
    if es == [] then map[] else Dict(es[..|es| - 1])[es[|es| - 1].key := es[|es| - 1].value]
  }

  lemma MetaSnoc(lines: seq<string>, line: string)
    ensures Meta(lines + [line]) == Entered(Meta(lines), line)
  {
    Snoc(lines, line);
  }

  predicate Closes(line: string) { Strip(line) == "---" }

  lemma {:induction false} FieldsRead(es: seq<Entry>)
    requires forall k :: 0 <= k < |es| ==> Recoverable(es[k])
    ensures Meta(Fields(es)) == Dict(es)
  {
    if es != [] {
      var front, e := es[..|es| - 1], es[|es| - 1];
      FieldsRead(front);
      FieldRead(e.key, e.value);
      MetaSnoc(Fields(front), Field(e.key, e.value));
    }
  }

  lemma {:induction false} FieldAt(es: seq<Entry>, k: nat)
    requires k < |es|
    ensures Fields(es)[k] == Field(es[k].key, es[k].value)
  {
    if k < |es| - 1 { FieldAt(es[..|es| - 1], k); }
  }

  lemma {:induction false} DictAt(es: seq<Entry>, k: nat)
    requires k < |es| && forall j :: k < j < |es| ==> es[j].key != es[k].key
    ensures Got(Dict(es), es[k].key) == es[k].value
  {
    if k < |es| - 1 { DictAt(es[..|es| - 1], k); }
  }

  lemma EntriesRecoverable(f: Fact)
    requires Writable(f)
    ensures forall k :: 0 <= k < |Entries(f)| ==> Recoverable(Entries(f)[k])
  {
    SlugOneLine(f.name);
  }

  lemma EntriesSingle(f: Fact)
    requires SafeSlug(f.name) && PlainFields(f)
    ensures forall k :: 0 <= k < |Entries(f)| ==> Single(Entries(f)[k])
  {
    SlugOneLine(f.name);
  }

  lemma KeysDiffer(f: Fact)
    ensures var es := Entries(f); forall i, j :: 0 <= i < j < |es| ==> es[i].key != es[j].key
  {
  }

  lemma RenderedLines(f: Fact)
    requires Writable(f) && PlainFields(f)
    ensures SplitLines(Render(f)) == ["---"] + Fields(Entries(f)) + ["---"] + SplitLines(Tail(f)) && "---" <= Render(f)
  {
    EntriesSingle(f);
    var fields := Fields(Entries(f));
    FieldsOneLine(Entries(f));
    var lines := ["---"] + fields + ["---"];
    forall k | 0 <= k < |lines|
      ensures OneLine(lines[k])
    {
      if 0 < k <= |fields| { assert lines[k] == fields[k - 1]; }
    }
    WrittenLines(lines, Tail(f));
    assert Render(f) == "---" + ("\n" + Written(lines[1..], Tail(f)));
  }

  lemma {:induction false} ClosingAt(lines: seq<string>, i: nat, end: nat)
    requires i <= end < |lines| && Closes(lines[end])
    requires forall k :: i <= k < end ==> !Closes(lines[k])
    ensures Closing(lines, i) == end
    decreases end - i
  {
    if i < end { ClosingAt(lines, i + 1, end); }
  }

  lemma FieldNeverCloses(es: seq<Entry>, k: nat)
    requires k < |es| && Recoverable(es[k])
    ensures !Closes(Fields(es)[k])
  {
    FieldAt(es, k);
    FieldRead(es[k].key, es[k].value);
  }

  lemma Fenced<T>(fence: T, mid: seq<T>, rest: seq<T>)
    ensures var all := [fence] + mid + [fence] + rest;
            && all[|mid| + 1] == fence && all[1..|mid| + 1] == mid && all[|mid| + 2..] == rest
            && forall k :: 1 <= k < |mid| + 1 ==> all[k] == mid[k - 1]
  {
  }

  /** The first closing line of a rendered note is its own: no field of it closes the frontmatter. */
  lemma FencedCloses(es: seq<Entry>, lines: seq<string>, rest: seq<string>, fence: string)
    requires lines == [fence] + Fields(es) + [fence] + rest && Closes(fence)
    requires forall k :: 0 <= k < |es| ==> Recoverable(es[k])
    ensures Closing(lines, 1) == |es| + 1 && lines[1..|es| + 1] == Fields(es) && lines[|es| + 2..] == rest
  {
    Fenced(fence, Fields(es), rest);
    forall k | 1 <= k < |es| + 1
      ensures !Closes(lines[k])
    {
      FieldNeverCloses(es, k - 1);
    }
    ClosingAt(lines, 1, |es| + 1);
  }

  lemma NormalStep(s: string)
    requires s != ""
    ensures var k := if s[0] == '\r' && |s| > 1 && s[1] == '\n' then 2 else 1;
            Normal(s) == [if s[0] == '\r' then '\n' else s[0]] + Normal(s[k..])
  {
    var k := if s[0] == '\r' && |s| > 1 && s[1] == '\n' then 2 else 1;
    assert ReplaceCrLf(s) == [if k == 2 then '\n' else s[0]] + ReplaceCrLf(s[k..]);
  }

  lemma {:induction false} NormalLast(s: string)
    requires s != "" && !IsSpace(s[|s| - 1])
    ensures Normal(s) != "" && Normal(s)[|Normal(s)| - 1] == s[|s| - 1]
    decreases |s|
  {
    var k := if s[0] == '\r' && |s| > 1 && s[1] == '\n' then 2 else 1;
    NormalStep(s);
    if |s| > k {
      NormalLast(s[k..]);
      assert s[k..][|s| - k - 1] == s[|s| - 1];
    }
  }

  lemma NormalStripped(s: string)
    requires Stripped(s)
    ensures Stripped(Normal(s)) && Strip(Unbroken(Normal(s))) == Unbroken(Normal(s))
  {
    if s != "" {
      NormalLast(s);
      assert Normal(s)[0] == s[0];
    }
  }

  /** The body of a rendered note is read back with every line separator as a newline. */
  lemma BodyRead(f: Fact)
    requires Stripped(f.body)
    ensures Strip(JoinLines(SplitLines(Tail(f)))) == Unbroken(Normal(f.body))
  {
    NormalStripped(f.body);
    if Normal(f.body) != "" {
      NormalChars(f.body, '\r');
      SplitJoin(Normal(f.body));
    }
  }

  lemma FrontRead(f: Fact)
    requires Writable(f) && PlainFields(f)
    ensures Frontmatter(Render(f)) == Front(Dict(Entries(f)), Unbroken(Normal(f.body)))
  {
    RenderedLines(f);
    EntriesRecoverable(f);
    FencedCloses(Entries(f), SplitLines(Render(f)), SplitLines(Tail(f)), "---");
    FieldsRead(Entries(f));
    BodyRead(f);
  }

  lemma PlainLoaded(f: Fact, stem: string)
    requires Writable(f) && PlainFields(f)
    ensures Loaded(Render(f), stem) == Some(f.(body := Unbroken(Normal(f.body))))
  {
    FrontRead(f);
    KeysDiffer(f);
    var es := Entries(f);
    DictAt(es, 0);
    DictAt(es, 1);
    DictAt(es, 2);
    DictAt(es, 3);
    DictAt(es, 4);
  }

  lemma StripOneLine(s: string)
    requires OneLine(s)
    ensures OneLine(Strip(s))
  {
    forall i | 0 <= i < |Strip(s)|
      ensures !IsLineBreak(Strip(s)[i])
    {
      StripChars(s, Strip(s)[i]);
    }
  }

  lemma EntryOneLine(line: string)
    requires OneLine(line) && EntryOf(line).Some?
    ensures OneLine(EntryOf(line).value.value)
  {
    StripOneLine(line[Colon(line) + 1..]);
  }

  lemma {:induction false} MetaOneLine(lines: seq<string>, key: string)
    requires forall k :: 0 <= k < |lines| ==> OneLine(lines[k])
    ensures OneLine(Got(Meta(lines), key))
  {
    if lines != [] {
      var line := lines[|lines| - 1];
      MetaOneLine(lines[..|lines| - 1], key);
      if EntryOf(line).Some? { EntryOneLine(line); }
    }
  }

  /** No text loads as a note with a line separator in its fields. */
  lemma LoadedPlain(text: string, stem: string)
    ensures var f := Loaded(text, stem); f.Some? ==> PlainFields(f.value)
  {
    var front, lines := Frontmatter(text), SplitLines(text);
    LinesAreSingle(text);
    if front.meta != map[] {
      var fields := lines[1..Closing(lines, 1)];
      MetaOneLine(fields, "kind");
      MetaOneLine(fields, "summary");
      MetaOneLine(fields, "source");
      MetaOneLine(fields, "as_of");
    }
  }

  lemma UnbrokenSame(body: string)
    ensures Unbroken(Normal(body)) == Normal(body) <==> PlainBody(body)
  {
    var n := Normal(body);
    if PlainBody(body) {
      forall i | 0 <= i < |n|
        ensures Unbroken(n)[i] == n[i]
      {
        NormalChars(body, n[i]);
        assert n[i] in n;
      }
    } else {
      var i :| 0 <= i < |body| && IsLineBreak(body[i]) && body[i] != '\n' && body[i] != '\r';
      NormalChars(body, body[i]);
      var k :| 0 <= k < |n| && n[k] == body[i];
      assert Unbroken(n)[k] == '\n';
    }
  }

  /** Every note the writers accept is recovered whole, its body up to CR normalisation, exactly when its fields hold
      no line separator at all and its body none but CR and LF: `single_line` refuses only CR and LF in a field. */
  lemma FactRoundTrip(name: string, kind: string, summary: string, body: string, source: string, asOf: string,
                      stem: string)
    requires Remembered(name, kind, summary, body, source, asOf).Some?
    ensures var f := Remembered(name, kind, summary, body, source, asOf).value;
            Loaded(Render(f), stem) == Some(f.(body := Normal(f.body))) <==> PlainFields(f) && PlainBody(f.body)
  {
    RememberedWritable(name, kind, summary, body, source, asOf);
    var f := Remembered(name, kind, summary, body, source, asOf).value;
    LoadedPlain(Render(f), stem);
    UnbrokenSame(f.body);
    if PlainFields(f) { PlainLoaded(f, stem); }
  }

  /** "a" and "b" parted by a vertical tab: a value `single_line` accepts although it holds a line separator, so that by
      `LoadedPlain` no reader gets it back. */
  lemma SeparatorAccepted(value: string)
    requires value == ['a', '\U{0b}', 'b']
    ensures Cleaned(value) == Some(value) && !OneLine(value)
  {
    assert IsLineBreak(value[1]);
  }
}
