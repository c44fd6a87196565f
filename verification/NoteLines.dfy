/** Which capability keys leave notes that load under their own names, told from the lines of the key. */
module NoteLines {
  import opened PyText
  import opened Lines
  import opened FactFormat
  import opened Reflex
  import opened ReflexNotes

  // ----- frontmatter in parts -----

  lemma LastOff<T>(a: seq<T>, b: seq<T>)
    requires b != []
    ensures a + b == a + b[..|b| - 1] + [b[|b| - 1]]
  {
  }

  lemma EnteredOver(under: map<string, string>, meta: map<string, string>, line: string)
    ensures Entered(under + meta, line) == under + Entered(meta, line)
  {
    if EntryOf(line).Some? { AddedOver(under, meta, EntryOf(line).value.key, EntryOf(line).value.value); }
  }

  lemma AddedOver(under: map<string, string>, meta: map<string, string>, key: string, value: string)
    ensures (under + meta)[key := value] == under + meta[key := value]
  {
  }

  /** Later lines override earlier ones. */
  lemma {:induction false} MetaConcat(a: seq<string>, b: seq<string>)
    ensures Meta(a + b) == Meta(a) + Meta(b)
  {
    if b == [] {
      NoneConcat(a);
    } else {
      var front, line := b[..|b| - 1], b[|b| - 1];
      MetaConcat(a, front);
      LastOff(a, b);
      MetaSnoc(a + front, line);
      EnteredOver(Meta(a), Meta(front), line);
    }
  }

  lemma At<T>(a: seq<T>, b: seq<T>, i: nat)
    requires i < |b|
    ensures (a + b)[|a| + i] == b[i]
  {
  }

  lemma {:induction false} ClosingPast(lines: seq<string>, i: nat, j: nat)
    requires i <= j <= |lines| && forall k :: i <= k < j ==> !Closes(lines[k])
    ensures Closing(lines, i) == Closing(lines, j)
    decreases j - i
  {
    if i < j { ClosingPast(lines, i + 1, j); }
  }

  lemma {:induction false} ClosingShift(a: seq<string>, b: seq<string>, i: nat)
    requires i <= |b|
    ensures Closing(a + b, |a| + i) == |a| + Closing(b, i)
    decreases |b| - i
  {
    if i < |b| {
      At(a, b, i);
      ClosingShift(a, b, i + 1);
    }
  }

  lemma {:induction false} ClosingFirst(lines: seq<string>, i: nat)
    requires i <= |lines|
    ensures forall k :: i <= k < Closing(lines, i) ==> !Closes(lines[k])
    ensures Closing(lines, i) < |lines| ==> Closes(lines[Closing(lines, i)])
    decreases |lines| - i
  {
    if i < |lines| && !Closes(lines[i]) { ClosingFirst(lines, i + 1); }
  }

  /** The lines before the first that closes, or all of them. */
  function Open(lines: seq<string>): seq<string> { lines[..Closing(lines, 0)] }

  lemma Whole<T>(a: seq<T>, b: seq<T>, n: nat)
    requires n <= |b|
    ensures (a + b)[..|a| + n] == a + b[..n] && a[..|a|] == a
  {
  }

  lemma Part<T>(a: seq<T>, b: seq<T>, n: nat)
    requires n <= |a|
    ensures (a + b)[..n] == a[..n]
  {
  }

  lemma SameAt<T>(a: seq<T>, b: seq<T>, n: nat)
    requires n < |a|
    ensures (a + b)[n] == a[n]
  {
  }

  lemma OpenWithin(a: seq<string>, b: seq<string>)
    requires Closing(a, 0) < |a|
    ensures Closing(a + b, 0) == Closing(a, 0) && Open(a + b) == Open(a)
  {
    var n := Closing(a, 0);
    ClosingFirst(a, 0);
    forall k | 0 <= k < n
      ensures !Closes((a + b)[k])
    {
      SameAt(a, b, k);
    }
    SameAt(a, b, n);
    ClosingAt(a + b, 0, n);
    Part(a, b, n);
  }

  lemma OpenPast(a: seq<string>, b: seq<string>)
    requires Closing(a, 0) == |a|
    ensures Closing(a + b, 0) == |a| + Closing(b, 0) && Open(a + b) == a + Open(b)
  {
    ClosingFirst(a, 0);
    forall k | 0 <= k < |a|
      ensures !Closes((a + b)[k])
    {
      SameAt(a, b, k);
    }
    ClosingPast(a + b, 0, |a|);
    ClosingShift(a, b, 0);
    Whole(a, b, Closing(b, 0));
  }

  /** A line that closes among the first ones hides what follows; otherwise they all stay. */
  lemma OpenConcat(a: seq<string>, b: seq<string>)
    ensures Closing(a + b, 0) == if Closing(a, 0) < |a| then Closing(a, 0) else |a| + Closing(b, 0)
    ensures Open(a + b) == if Closing(a, 0) < |a| then Open(a) else a + Open(b)
  {
    if Closing(a, 0) < |a| { OpenWithin(a, b); } else { OpenPast(a, b); }
  }

  // ----- the lines of a note -----

  lemma {:induction false} WrittenTail(head: seq<string>, rest: seq<string>, tail: string)
    ensures Written(head + rest, tail) == Written(head, Written(rest, tail))
  {
    if head == [] {
      NoneConcat(rest);
    } else {
      WrittenTail(head[1..], rest, tail);
      ConcatHead(head, rest);
    }
  }

  lemma WrittenOne(line: string, rest: seq<string>)
    ensures Written([line] + rest, "") == line + (['\n'] + Written(rest, ""))
  {
    assert ([line] + rest)[1..] == rest;
    Assoc(line, ['\n'], Written(rest, ""));
  }

  predicate AllOneLine(lines: seq<string>) { forall i :: 0 <= i < |lines| ==> OneLine(lines[i]) }

  /** One written line that may hold separators, among others that do not. */
  lemma WrittenAround(head: seq<string>, line: string, rest: seq<string>)
    requires AllOneLine(head) && AllOneLine(rest) && line != "" && !IsLineBreak(line[|line| - 1])
    ensures SplitLines(Written(head + ([line] + rest), "")) == head + (SplitLines(line) + rest)
  {
    WrittenTail(head, [line] + rest, "");
    WrittenLines(head, Written([line] + rest, ""));
    WrittenOne(line, rest);
    SplitConcat(line, Written(rest, ""));
    WrittenLines(rest, "");
    NoneConcat(rest);
  }

  /** Text before a first line stays on it. */
  lemma SplitPrefix(head: string, s: string)
    requires OneLine(head) && s != ""
    ensures SplitLines(s) != [] && SplitLines(head + s) == [head + SplitLines(s)[0]] + SplitLines(s)[1..]
  {
    var n := LineEnd(s);
    OneLineBoth(head, s[..n]);
    TakeDrop(s, n);
    Assoc(head, s[..n], s[n..]);
    if n == |s| {
      OneLineAlone(head + s);
    } else {
      SplitAtBreak(head + s[..n], s[n..]);
    }
  }

  lemma FiveLines(es: seq<Entry>)
    requires |es| == 5
    ensures Fields(es) == [Field(es[0].key, es[0].value), Field(es[1].key, es[1].value),
                           Field(es[2].key, es[2].value), Field(es[3].key, es[3].value),
                           Field(es[4].key, es[4].value)]
  {
    FieldAt(es, 0);
    FieldAt(es, 1);
    FieldAt(es, 2);
    FieldAt(es, 3);
    FieldAt(es, 4);
  }

  lemma FencedFive<T>(fence: T, a: T, b: T, c: T, d: T, e: T)
    ensures [fence] + [a, b, c, d, e] + [fence] == [fence, a, b] + ([c] + [d, e, fence])
  {
  }

  lemma FencedThree<T>(fence: T, a: T, b: T, c: T, more: seq<T>, rest: seq<T>)
    ensures [fence, a, b] + ([c] + more + rest) == [fence] + ([a, b, c] + (more + rest))
  {
  }

  function Note(name: string, summary: string, day: Day): FactFormat.Fact {
    FactFormat.Fact(name, "reflex", summary, "", None, Some(day))
  }

  function Top(name: string): seq<string> { ["---", Field("name", name), Field("kind", "reflex")] }

  function Above(name: string, summary: string): seq<string> {
    [Field("name", name), Field("kind", "reflex"), Field("summary", summary)]
  }

  function Below(day: string): seq<string> { [Field("source", ""), Field("as_of", day), "---"] }

  lemma AroundOneLine(name: string, day: Day)
    requires SafeSlug(name)
    ensures AllOneLine(Top(name)) && AllOneLine(Below(day))
  {
    SlugOneLine(name);
    KindClean();
    FieldOneLine("name", name);
    FieldOneLine("kind", "reflex");
    FieldOneLine("source", "");
    FieldOneLine("as_of", day);
  }

  lemma Rendered(name: string, summary: string, day: Day)
    ensures Render(Note(name, summary, day)) ==
            Written(Top(name) + ([Field("summary", summary)] + Below(day)), "")
  {
    var f := Note(name, summary, day);
    var fs := Fields(Entries(f));
    FiveLines(Entries(f));
    FencedFive("---", fs[0], fs[1], fs[2], fs[3], fs[4]);
  }

  lemma FieldEnds(key: string, value: string)
    requires value != ""
    ensures var line := Field(key, value); line != "" && line[|line| - 1] == value[|value| - 1]
  {
  }

  lemma FieldPrefix(key: string, value: string)
    requires Key(key) && value != ""
    ensures SplitLines(value) != []
    ensures SplitLines(Field(key, value)) == [Field(key, SplitLines(value)[0])] + SplitLines(value)[1..]
  {
    var head := key + ": ";
    assert forall v :: Field(key, v) == head + v;
    SplitPrefix(head, value);
  }

  lemma RenderFenced(f: FactFormat.Fact)
    ensures "---" <= Render(f)
  {
    var rest := Fields(Entries(f)) + ["---"];
    ConsAppend("---", Fields(Entries(f)), ["---"]);
    WrittenTail(["---"], rest, Tail(f));
    assert ["---"] + rest == ["---"] + Fields(Entries(f)) + ["---"];
    assert Render(f) == "---" + ("\n" + Written(rest, Tail(f)));
  }

  lemma SummaryKey()
    ensures Key("summary")
  {
    var key := "summary";
    assert key[0] == 's' && key[1] == 'u' && key[2] == 'm' && key[3] == 'm' && key[4] == 'a' && key[5] == 'r' &&
           key[6] == 'y';
  }

  lemma FieldAround(head: seq<string>, key: string, value: string, rest: seq<string>)
    requires AllOneLine(head) && AllOneLine(rest) && Key(key)
    requires value != "" && !IsSpace(value[|value| - 1])
    ensures var ls := SplitLines(value);
            ls != [] && SplitLines(Written(head + ([Field(key, value)] + rest), "")) ==
                        head + ([Field(key, ls[0])] + ls[1..] + rest)
  {
    FieldEnds(key, value);
    WrittenAround(head, Field(key, value), rest);
    FieldPrefix(key, value);
  }

  lemma RenderedSplit(name: string, summary: string, day: Day)
    requires SafeSlug(name) && summary != "" && !IsSpace(summary[|summary| - 1])
    ensures var ls := SplitLines(summary);
            ls != [] && SplitLines(Render(Note(name, summary, day))) ==
                        Top(name) + ([Field("summary", ls[0])] + ls[1..] + Below(day))
  {
    Rendered(name, summary, day);
    AroundOneLine(name, day);
    SummaryKey();
    FieldAround(Top(name), "summary", summary, Below(day));
  }

  /** The lines of a note whose summary may hold separators. */
  lemma NoteSplit(name: string, summary: string, day: Day)
    requires SafeSlug(name) && summary != "" && !IsSpace(summary[|summary| - 1])
    ensures var ls := SplitLines(summary);
            ls != [] &&
            SplitLines(Render(Note(name, summary, day))) == ["---"] + (Above(name, ls[0]) + (ls[1..] + Below(day)))
  {
    RenderedSplit(name, summary, day);
    var ls := SplitLines(summary);
    FencedThree("---", Field("name", name), Field("kind", "reflex"), Field("summary", ls[0]), ls[1..], Below(day));
  }

  // ----- what a reader makes of them -----

  lemma FieldEntry(key: string, value: string)
    requires Key(key)
    ensures EntryOf(Field(key, value)) == Some(Entry(key, Strip(value))) && !Closes(Field(key, value))
  {
    var line := Field(key, value);
    FieldSplit(key, value);
    assert (" " + value)[1..] == value;
    assert Strip(" " + value) == Strip(value);
    StripKeepsHead(line);
    assert Strip(key) == key && |key| < |line|;
  }

  lemma Pair<T>(a: T, b: T)
    ensures [a] + [b] == [a, b] && [] + [a] == [a]
  {
  }

  lemma Triple<T>(a: T, b: T, c: T)
    ensures [a, b] + [c] == [a, b, c] && [a, b, c][..2] == [a, b] && [a, b, c][..3] == [a, b, c]
  {
  }

  lemma TwoFields(k: string, v: string, l: string, w: string)
    requires Key(k) && Key(l)
    ensures Meta([Field(k, v), Field(l, w)]) == map[k := Strip(v)][l := Strip(w)]
  {
    FieldEntry(k, v);
    FieldEntry(l, w);
    Pair(Field(k, v), Field(l, w));
    MetaSnoc([], Field(k, v));
    MetaSnoc([Field(k, v)], Field(l, w));
  }

  lemma ThreeFields(k: string, v: string, l: string, w: string, m: string, x: string)
    requires Key(k) && Key(l) && Key(m)
    ensures Meta([Field(k, v), Field(l, w), Field(m, x)]) == map[k := Strip(v)][l := Strip(w)][m := Strip(x)]
  {
    TwoFields(k, v, l, w);
    FieldEntry(m, x);
    Triple(Field(k, v), Field(l, w), Field(m, x));
    MetaSnoc([Field(k, v), Field(l, w)], Field(m, x));
  }

  lemma OpenThree(a: string, b: string, c: string)
    requires !Closes(a) && !Closes(b)
    ensures Closing([a, b, c], 0) == if Closes(c) then 2 else 3
    ensures Open([a, b, c]) == if Closes(c) then [a, b] else [a, b, c]
  {
    var lines := [a, b, c];
    Triple(a, b, c);
    if Closes(c) { ClosingAt(lines, 0, 2); } else { ClosingPast(lines, 0, 3); }
  }

  lemma GotThree(k: string, v: string, l: string, w: string, m: string, x: string)
    requires k != l && k != m && l != m
    ensures var meta := map[k := v][l := w][m := x]; Got(meta, k) == v && Got(meta, l) == w && Got(meta, m) == x
  {
  }

  lemma AboveMeta(name: string, summary: string)
    requires SafeSlug(name)
    ensures var meta := Meta(Above(name, summary));
            Got(meta, "name") == name && Got(meta, "kind") == "reflex" && Got(meta, "summary") == Strip(summary)
  {
    SlugOneLine(name);
    KindClean();
    ThreeFields("name", name, "kind", "reflex", "summary", summary);
    GotThree("name", name, "kind", "reflex", "summary", Strip(summary));
  }

  lemma OpenFields(k: string, v: string, l: string, w: string, m: string, x: string)
    requires Key(k) && Key(l) && Key(m)
    ensures var lines := [Field(k, v), Field(l, w), Field(m, x)]; Open(lines) == lines && Closing(lines, 0) == 3
  {
    FieldEntry(k, v);
    FieldEntry(l, w);
    FieldEntry(m, x);
    OpenThree(Field(k, v), Field(l, w), Field(m, x));
  }

  lemma ClosedFields(k: string, v: string, l: string, w: string, fence: string)
    requires Key(k) && Key(l) && Closes(fence)
    ensures var lines := [Field(k, v), Field(l, w), fence];
            Closing(lines, 0) == 2 && Meta(Open(lines)) == map[k := Strip(v)][l := Strip(w)]
  {
    FieldEntry(k, v);
    FieldEntry(l, w);
    OpenThree(Field(k, v), Field(l, w), fence);
    TwoFields(k, v, l, w);
  }

  lemma AboveOpen(name: string, summary: string)
    ensures Open(Above(name, summary)) == Above(name, summary) && Closing(Above(name, summary), 0) == 3
  {
    OpenFields("name", name, "kind", "reflex", "summary", summary);
  }

  lemma FenceCloses()
    ensures Closes("---")
  {
  }

  lemma BelowMeta(day: Day, key: string)
    requires key != "source" && key != "as_of"
    ensures Closing(Below(day), 0) == 2 && key !in Meta(Open(Below(day)))
  {
    FenceCloses();
    ClosedFields("source", "", "as_of", day, "---");
  }

  lemma Fronted(text: string, rest: seq<string>)
    requires "---" <= text && SplitLines(text) == ["---"] + rest && Closing(rest, 0) < |rest|
    ensures Frontmatter(text).meta == Meta(Open(rest))
  {
    var n, fence := Closing(rest, 0), ["---"];
    ClosingShift(fence, rest, 0);
    Sliced("---", rest, n);
    assert Closing(fence + rest, 1) == n + 1;
  }

  lemma Sliced<T>(x: T, rest: seq<T>, n: nat)
    requires n <= |rest|
    ensures ([x] + rest)[1..1 + n] == rest[..n]
  {
  }

  function Over(meta: map<string, string>, key: string, under: string): string {
    if key in meta then meta[key] else under
  }

  lemma OverGot(under: map<string, string>, meta: map<string, string>, key: string)
    ensures Got(under + meta, key) == Over(meta, key, Got(under, key))
  {
  }

  lemma OverBelow(meta: map<string, string>, below: map<string, string>, key: string, under: string)
    requires key !in below
    ensures Over(meta + below, key, under) == Over(meta, key, under)
  {
  }

  /** The lines after the summary's first, and the rest of the note. */
  lemma LaterMeta(later: seq<string>, day: Day, key: string, under: string)
    requires key != "source" && key != "as_of"
    ensures Closing(later + Below(day), 0) < |later + Below(day)|
    ensures Over(Meta(Open(later + Below(day))), key, under) == Over(Meta(Open(later)), key, under)
  {
    BelowMeta(day, key);
    OpenConcat(later, Below(day));
    if Closing(later, 0) == |later| {
      MetaConcat(later, Open(Below(day)));
      Prefixed(later);
      OverBelow(Meta(later), Meta(Open(Below(day))), key, under);
    }
  }

  lemma Prefixed<T>(s: seq<T>)
    ensures s[..|s|] == s
  {
  }

  /** What a note's fields are read as: its own, unless a later line of its summary says otherwise. */
  lemma NoteRead(name: string, summary: string, day: Day, key: string)
    requires SafeSlug(name) && summary != "" && !IsSpace(summary[|summary| - 1]) && key != "source" && key != "as_of"
    ensures var ls := SplitLines(summary);
            ls != [] &&
            Got(Frontmatter(Render(Note(name, summary, day))).meta, key) ==
            Over(Meta(Open(ls[1..])), key, Got(Meta(Above(name, ls[0])), key))
  {
    NoteSplit(name, summary, day);
    var ls := SplitLines(summary);
    var above, rest := Above(name, ls[0]), ls[1..] + Below(day);
    AboveOpen(name, ls[0]);
    LaterMeta(ls[1..], day, key, Got(Meta(above), key));
    OpenConcat(above, rest);
    RenderFenced(Note(name, summary, day));
    Fronted(Render(Note(name, summary, day)), above + rest);
    MetaConcat(above, Open(rest));
    OverGot(Meta(above), Meta(Open(rest)), key);
  }

  // ----- a key's notes -----

  function Applying(task: string): string { " applied for #" + task }

  /** The lines a note takes from its key after the first, `end` standing for what follows the key. */
  function Later(key: string, end: string): seq<string>
    requires end != ""
  {
    SplitLines(StripLeft(key) + end)[1..]
  }

  /** The entries a reader finds on them. */
  function Injected(key: string, end: string): map<string, string>
    requires end != ""
  {
    Meta(Open(Later(key, end)))
  }

  /** Such entries leave a note of this name valid, and its name as it was. */
  predicate Suits(meta: map<string, string>, name: string) {
    && (Got(meta, "name") == "" || Got(meta, "name") == name)
    && ("kind" in meta ==> meta["kind"] != "") && ("summary" in meta ==> meta["summary"] != "")
  }

  lemma FirstHead(s: string)
    requires s != "" && !IsSpace(s[0])
    ensures SplitLines(s) != [] && Strip(SplitLines(s)[0]) != ""
  {
    StripKeepsHead(SplitLines(s)[0]);
  }

  lemma SummaryEnds(task: string, key: string)
    requires TaskId(task) && Strip(key) != ""
    ensures var s := StripLeft(key) + Applying(task);
            StripLeft(key) != "" && s[0] == StripLeft(key)[0] && !IsSpace(s[|s| - 1])
  {
    if StripLeft(key) == "" { StripNothing(key); }
    assert task[|task| - 1] in task;
  }

  lemma SuitsLoaded(text: string, name: string, meta: map<string, string>, first: string)
    requires name != "" && first != ""
    requires Got(Frontmatter(text).meta, "name") == Over(meta, "name", name)
    requires Got(Frontmatter(text).meta, "kind") == Over(meta, "kind", "reflex")
    requires Got(Frontmatter(text).meta, "summary") == Over(meta, "summary", first)
    ensures LoadedName(text, name) == Some(name) <==> Suits(meta, name)
  {
  }

  /** A note is written and loads under its own name exactly when its key is markable and the lines it takes from the
      key suit that name. */
  lemma KeptExactly(task: string, key: string, day: Day)
    requires TaskId(task) && Strip(key) != ""
    ensures Kept(task, key, day) <==> Markable(key) && Suits(Injected(key, Applying(task)), NoteName(task, key))
  {
    var name, summary := NoteName(task, key), StripLeft(key) + Applying(task);
    MarkExactly(task, key, day);
    NoteNameSafe(task, key);
    SummaryEnds(task, key);
    FirstHead(summary);
    AboveMeta(name, SplitLines(summary)[0]);
    NoteRead(name, summary, day, "name");
    NoteRead(name, summary, day, "kind");
    NoteRead(name, summary, day, "summary");
    SuitsLoaded(Render(Note(name, summary, day)), name, Injected(key, Applying(task)), Strip(SplitLines(summary)[0]));
  }

  // ----- for all tasks at once -----

  /** Text that may follow a key: on one line, without a colon, with a hash. */
  predicate Ending(end: string) {
    end != "" && OneLine(end) && ':' !in end && '#' in end && !IsSpace(end[|end| - 1])
  }

  lemma ApplyingEnds(task: string)
    requires TaskId(task)
    ensures Ending(Applying(task))
  {
    var end := Applying(task);
    assert task[|task| - 1] in task && end[13] == '#';
    forall i | 0 <= i < |end|
      ensures !IsLineBreak(end[i]) && end[i] != ':'
    {
      if i >= 14 { assert end[i] == task[i - 14] && task[i - 14] in task; }
    }
  }

  lemma {:induction false} StripLeftKeeps(s: string, c: char)
    requires c in s && !IsSpace(c)
    ensures c in StripLeft(s) && StripLeft(s)[|StripLeft(s)| - 1] == s[|s| - 1]
  {
    if IsSpace(s[0]) {
      assert c in s[1..];
      StripLeftKeeps(s[1..], c);
    }
  }

  lemma HashStays(s: string, end: string)
    requires Ending(end)
    ensures '#' in Strip(s + end)
  {
    InEither(s, end, '#');
    StripLeftKeeps(s + end, '#');
  }

  lemma {:induction false} ColonBefore(s: string, end: string)
    requires ':' !in end
    ensures Colon(s + end) == if Colon(s) < |s| then Colon(s) else |s + end|
  {
    if s == "" {
      NoneConcat(end);
      NoColon(end);
    } else if s[0] != ':' {
      ColonBefore(s[1..], end);
      ConcatHead(s, end);
    }
  }

  lemma {:induction false} NoColon(s: string)
    requires ':' !in s
    ensures Colon(s) == |s|
  {
    if s != "" { NoColon(s[1..]); }
  }

  lemma HashOpens(line: string)
    requires '#' in Strip(line)
    ensures !Closes(line) && Strip(line) != ""
  {
    assert '#' !in "---";
  }

  lemma After<T>(a: seq<T>, b: seq<T>, n: nat)
    requires n < |a|
    ensures (a + b)[..n] == a[..n] && (a + b)[n + 1..] == a[n + 1..] + b
  {
  }

  lemma LastOpen(s: string, end: string)
    requires Ending(end)
    ensures !Closes(s + end) && Strip(s + end) != ""
  {
    HashStays(s, end);
    HashOpens(s + end);
  }

  lemma EntryIs(line: string, k: string, v: string)
    requires Strip(line) != "" && Colon(line) == |k| < |line| && line[..|k|] == k && line[|k| + 1..] == v
    ensures EntryOf(line) == Some(Entry(Strip(k), Strip(v)))
  {
  }

  /** The entry such a line holds: the key before the colon, if there is one, and the rest with what follows. */
  lemma LastEntry(s: string, end: string, n: nat)
    requires Ending(end) && n == Colon(s) < |s|
    ensures EntryOf(s + end) == Some(Entry(Strip(s[..n]), Strip(s[n + 1..] + end)))
  {
    ColonBefore(s, end);
    LastOpen(s, end);
    After(s, end, n);
    EntryIs(s + end, s[..n], s[n + 1..] + end);
  }

  lemma LastNone(s: string, end: string)
    requires Ending(end) && Colon(s) == |s|
    ensures EntryOf(s + end).None?
  {
    ColonBefore(s, end);
  }

  lemma LaterIs(key: string, end: string)
    requires Ending(end)
    ensures var front, last := Ended(StripLeft(key)), Unended(StripLeft(key)) + end;
            Later(key, end) == if front == [] then [] else front[1..] + [last]
  {
    var front, last := Ended(StripLeft(key)), Unended(StripLeft(key)) + end;
    SplitSameLine(StripLeft(key), end);
    if front == [] { NoneConcat([last]); } else { ConcatHead(front, [last]); }
  }

  lemma OpenOne(lines: seq<string>, line: string)
    requires !Closes(line)
    ensures Open(lines + [line]) == if Closing(lines, 0) < |lines| then Open(lines) else lines + [line]
  {
    OpenConcat(lines, [line]);
    ClosingPast([line], 0, 1);
    Prefixed([line]);
  }

  lemma InjectedIs(key: string, end: string)
    requires Ending(end)
    ensures var front, last := Ended(StripLeft(key)), Unended(StripLeft(key)) + end;
            Injected(key, end) ==
            if front == [] then map[]
            else if Closing(front[1..], 0) < |front[1..]| then Meta(Open(front[1..]))
            else Entered(Meta(front[1..]), last)
  {
    var front, last := Ended(StripLeft(key)), Unended(StripLeft(key)) + end;
    LaterIs(key, end);
    if front != [] {
      LastOpen(Unended(StripLeft(key)), end);
      OpenOne(front[1..], last);
      MetaSnoc(front[1..], last);
    }
  }

  /** The same keys, with the same values or values that both hold a hash. */
  predicate Alike(a: map<string, string>, b: map<string, string>) {
    a.Keys == b.Keys && forall key :: key in a ==> a[key] == b[key] || ('#' in a[key] && '#' in b[key])
  }

  lemma EnteredAlike(meta: map<string, string>, line: string, other: string)
    requires EntryOf(line).None? <==> EntryOf(other).None?
    requires EntryOf(line).Some? ==>
               EntryOf(line).value.key == EntryOf(other).value.key &&
               '#' in EntryOf(line).value.value && '#' in EntryOf(other).value.value
    ensures Alike(Entered(meta, line), Entered(meta, other))
  {
  }

  lemma LastAlike(meta: map<string, string>, s: string, end: string, other: string)
    requires Ending(end) && Ending(other)
    ensures Alike(Entered(meta, s + end), Entered(meta, s + other))
  {
    var n := Colon(s);
    if n < |s| {
      LastEntry(s, end, n);
      LastEntry(s, other, n);
      HashStays(s[n + 1..], end);
      HashStays(s[n + 1..], other);
    } else {
      LastNone(s, end);
      LastNone(s, other);
    }
    EnteredAlike(meta, s + end, s + other);
  }

  /** What follows a key changes no value it injects but one that what follows is part of. */
  lemma InjectedAlike(key: string, end: string, other: string)
    requires Ending(end) && Ending(other)
    ensures Alike(Injected(key, end), Injected(key, other))
  {
    InjectedIs(key, end);
    InjectedIs(key, other);
    var front := Ended(StripLeft(key));
    if front != [] { LastAlike(Meta(front[1..]), Unended(StripLeft(key)), end, other); }
  }

  /** No name of their own, and no kind or summary blanked. */
  predicate Harmless(meta: map<string, string>) { Suits(meta, "") }

  lemma HashEnds()
    ensures Ending("#")
  {
    var end := "#";
    assert end[0] == '#';
  }

  lemma NamesDiffer(key: string)
    ensures NoteName("a", key) != NoteName("b", key)
  {
    assert NoteName("a", key)[7] == 'a' && NoteName("b", key)[7] == 'b';
  }

  lemma HashNoSlug(s: string, name: string)
    requires '#' in s && SafeSlug(name)
    ensures s != "" && s != name
  {
    assert !SlugChar('#');
  }

  lemma HarmlessSuits(a: map<string, string>, b: map<string, string>, name: string)
    requires Alike(a, b) && Harmless(a)
    ensures Suits(b, name)
  {
  }

  lemma SuitsHarmless(a: map<string, string>, b: map<string, string>, c: map<string, string>, m: string, n: string)
    requires Alike(a, b) && Alike(a, c) && Suits(b, m) && Suits(c, n) && m != n && SafeSlug(m) && SafeSlug(n)
    ensures Harmless(a)
  {
    if '#' in Got(b, "name") { HashNoSlug(Got(b, "name"), m); }
    if '#' in Got(c, "name") { HashNoSlug(Got(c, "name"), n); }
  }

  /** A key is durable exactly when it is markable and its own lines after the first, up to one that is a fence, give
      no name and blank neither kind nor summary; a hash stands for what follows the key on its last line. */
  lemma DurableExactly(key: string)
    requires Strip(key) != ""
    ensures Durable(key) <==> Markable(key) && Harmless(Injected(key, "#"))
  {
    HashEnds();
    if Durable(key) {
      var day: Day := ['1'];
      assert TaskId("a") && TaskId("b") && Kept("a", key, day) && Kept("b", key, day);
      KeptExactly("a", key, day);
      KeptExactly("b", key, day);
      ApplyingEnds("a");
      ApplyingEnds("b");
      InjectedAlike(key, "#", Applying("a"));
      InjectedAlike(key, "#", Applying("b"));
      NamesDiffer(key);
      NoteNameSafe("a", key);
      NoteNameSafe("b", key);
      SuitsHarmless(Injected(key, "#"), Injected(key, Applying("a")), Injected(key, Applying("b")),
                    NoteName("a", key), NoteName("b", key));
    }
    if Markable(key) && Harmless(Injected(key, "#")) {
      forall task: string, day: Day | TaskId(task)
        ensures Kept(task, key, day)
      {
        ApplyingEnds(task);
        InjectedAlike(key, "#", Applying(task));
        HarmlessSuits(Injected(key, "#"), Injected(key, Applying(task)), NoteName(task, key));
        KeptExactly(task, key, day);
      }
    }
  }
}
