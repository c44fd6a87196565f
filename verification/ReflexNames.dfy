/** A capability key whose note is stored and loads under another name. */
module ReflexNames {
  import opened PyText
  import opened Handoff
  import opened Reflex
  import opened ReflexSafety
  import opened ReflexNotes
  import FactFormat
  import Lines
  import NoteLines

  predicate Plain(value: string) { value != "" && Stripped(value) && Lines.OneLine(value) }

  function InjectingKey(k: string, sep: char, v: string): string { k + ([sep] + FactFormat.Field("name", v)) }

  lemma InjectingMarkable(k: string, sep: char, v: string)
    requires Plain(k) && Plain(v) && IsLineBreak(sep) && sep != '\n' && sep != '\r'
    ensures Markable(InjectingKey(k, sep, v)) && StripLeft(InjectingKey(k, sep, v)) == InjectingKey(k, sep, v)
  {
    var key := InjectingKey(k, sep, v);
    assert key[0] == k[0];
    forall i | 0 <= i < |key| ensures key[i] != '\n' && key[i] != '\r' {
      if i > |k| + 6 { assert key[i] == v[i - |k| - 7]; }
    }
  }

  /** Such a key has two lines, and the second is the name's. */
  lemma InjectingLines(k: string, sep: char, v: string)
    requires Plain(k) && Plain(v) && IsLineBreak(sep) && sep != '\n' && sep != '\r'
    ensures var key := InjectingKey(k, sep, v);
            Lines.Ended(StripLeft(key)) == [k] && Lines.Unended(StripLeft(key)) == FactFormat.Field("name", v)
  {
    var key, rest := InjectingKey(k, sep, v), FactFormat.Field("name", v);
    InjectingMarkable(k, sep, v);
    Lines.LineEndAt(k, [sep] + rest);
    assert key[..|k|] == k && Lines.AfterBreak(key, |k|) == rest;
    FactFormat.FieldOneLine("name", v);
    assert Lines.LineEnd(rest) == |rest|;
  }

  lemma FieldShift(key: string, k: string, more: string)
    ensures FactFormat.Field(key, k + more) == FactFormat.Field(key, k) + more
  {
    assert key + (":" + (" " + (k + more))) == key + (":" + (" " + k)) + more;
  }

  lemma NamedUnsuitably(v: string, name: string)
    requires '#' in v && SafeSlug(name)
    ensures !NoteLines.Suits(map["name" := v], name)
  {
    NoteLines.HashNoSlug(v, name);
  }

  lemma OneEntered(line: string, key: string, value: string)
    requires FactFormat.EntryOf(line) == Some(FactFormat.Entry(key, value))
    ensures FactFormat.Entered(FactFormat.Meta([]), line) == map[key := value]
  {
  }

  lemma OneField(key: string, v: string, end: string)
    requires FactFormat.Key(key)
    ensures FactFormat.Entered(FactFormat.Meta([]), FactFormat.Field(key, v) + end) == map[key := Strip(v + end)]
  {
    FieldShift(key, v, end);
    NoteLines.FieldEntry(key, v + end);
    OneEntered(FactFormat.Field(key, v + end), key, Strip(v + end));
  }

  /** A key of two lines whose second is a field: that field is what its notes take from it. */
  lemma OneLater(key: string, k: string, name: string, v: string, end: string)
    requires Lines.Ended(StripLeft(key)) == [k] && Lines.Unended(StripLeft(key)) == FactFormat.Field(name, v)
    requires FactFormat.Key(name) && NoteLines.Ending(end)
    ensures NoteLines.Injected(key, end) == map[name := Strip(v + end)]
  {
    NoteLines.InjectedIs(key, end);
    assert [k][1..] == [];
    OneField(name, v, end);
  }

  lemma NameKey()
    ensures FactFormat.Key("name")
  {
    var key := "name";
    assert key[0] == 'n' && key[1] == 'a' && key[2] == 'm' && key[3] == 'e';
  }

  lemma InjectingMeta(k: string, sep: char, v: string, end: string)
    requires Plain(k) && Plain(v) && IsLineBreak(sep) && sep != '\n' && sep != '\r' && NoteLines.Ending(end)
    ensures NoteLines.Injected(InjectingKey(k, sep, v), end) == map["name" := Strip(v + end)]
  {
    InjectingLines(k, sep, v);
    NameKey();
    OneLater(InjectingKey(k, sep, v), k, "name", v, end);
  }

  /** No note of such a key loads under its own name. */
  lemma InjectingUnkept(k: string, sep: char, v: string, task: string, day: FactFormat.Day)
    requires Plain(k) && Plain(v) && IsLineBreak(sep) && sep != '\n' && sep != '\r' && TaskId(task)
    ensures var key := InjectingKey(k, sep, v); Strip(key) != "" && !Kept(task, key, day)
  {
    var key, end := InjectingKey(k, sep, v), NoteLines.Applying(task);
    InjectingMarkable(k, sep, v);
    StripKeepsHead(key);
    NoteLines.ApplyingEnds(task);
    InjectingMeta(k, sep, v, end);
    NoteLines.HashStays(v, end);
    NoteNameSafe(task, key);
    NamedUnsuitably(Strip(v + end), NoteName(task, key));
    NoteLines.KeptExactly(task, key, day);
  }

  /** A key that holds a line separator other than CR and LF before a name line, "k\vname: x" say: it keeps the cap and
      not the log, so that the same task succeeds again after a restart although no write failed. */
  lemma InjectingKeyFails(k: string, sep: char, v: string, task: string, day: FactFormat.Day)
    requires Plain(k) && Plain(v) && IsLineBreak(sep) && sep != '\n' && sep != '\r' && TaskId(task)
    ensures var key := InjectingKey(k, sep, v);
            && Markable(key) && !Durable(key)
            && var c := Lone(key, {key}, None, Disk(Some(day), true));
               Sound(c) && !OnceEach(Lived(c, [Handled(Alert(task)), Restart, Handled(Alert(task))]).runs)
  {
    var key, disk := InjectingKey(k, sep, v), Disk(Some(day), true);
    InjectingMarkable(k, sep, v);
    InjectingUnkept(k, sep, v, task, day);
    TwiceAfterRestart(Lone(key, {key}, None, disk), key, task, disk);
  }

  // ----- a false report -----

  lemma {:induction false} SlugSame(s: string)
    requires forall c :: c in s ==> SlugChar(c)
    ensures SlugOf(s) == s
  {
    if s != "" {
      assert forall c :: c in s[1..] ==> c in s;
      SlugSame(s[1..]);
      assert s[0] in s;
    }
  }

  /** `_slug_key` and the dashes in task ids make note names ambiguous. */
  lemma NoteNamesCollide()
    ensures NoteName("a-b", "c") == NoteName("a", "b-c")
  {
    SlugSame("c");
    SlugSame("b-c");
  }

  function Asked(ask: string): Envelope -> Option<string> {
    (env: Envelope) => if ask in env.asks then Some(ask) else None
  }

  function Asking(task: string, ask: string): Envelope {
    Envelope(Notice, task, "a", "s", "b", [Fact("t", "a", "p")], [ask], [], [])
  }

  /** Two rules, one for each ask. */
  function TwoRules(first: string, second: string, day: FactFormat.Day): Config {
    Config([Rule(first, Asked("x")), Rule(second, Asked("y"))], {first, second}, None, true, (n: nat) => Applied,
           (n: nat) => Disk(Some(day), true))
  }

  lemma AskingValid(task: string, ask: string)
    requires TaskId(task) && RequiredLine(ask, MAX_LINE)
    ensures Asking(task, ask).Valid()
  {
  }

  lemma AskingPosted(task: string, other: string)
    requires TaskId(task) && TaskId(other)
    ensures Posted([Handled(Asking(task, "x"))]) && Asking(other, "y").Valid()
  {
    AskingValid(task, "x");
    AskingValid(other, "y");
  }

  lemma NoteFound(files: map<string, string>, stem: string)
    requires stem in files && LoadedName(files[stem], stem) == Some(stem)
    ensures Noted(files, stem)
  {
  }

  /** The first rule's success, on file. */
  lemma FirstOnFile(first: string, second: string, task: string, day: FactFormat.Day)
    requires TaskId(task) && Kept(task, first, day)
    ensures var c, env := TwoRules(first, second, day), Asking(task, "x");
            var k := After(c, Kit({}, map[], 0, []), Handled(env));
            k.runs == [Run(BuildProposal(env, first, "x"), Applied)] && Noted(k.files, NoteName(task, first))
  {
    var c, env, born := TwoRules(first, second, day), Asking(task, "x"), Kit({}, map[], 0, []);
    FirstApplies(c, born, first, second, task);
    NoteFound(After(c, born, Handled(env)).files, NoteName(task, first));
  }

  lemma OnlyRun(k: Kit, r: Run, other: string, second: string)
    requires k.runs == [r] && Succeeded(r) && PairOf(r).1 != second
    ensures !TrulyApplied(k, other, second)
  {
  }

  lemma LivedOnce(c: Config, e: Event)
    ensures Lived(c, [e]) == After(c, Kit({}, map[], 0, []), e)
  {
    LivedSnoc(c, [], e);
    assert [] + [e] == [e];
  }

  /** The next turn reports a pair as applied that never was. */
  ghost predicate ReportsFalsely(c: Config, k: Kit, key: string, task: string) {
    && Fire(c, k, Asking(task, "y")) == Fired(k, [Firing("y", key, true, Previously)], false)
    && !TrulyApplied(k, task, key)
  }

  lemma ReportedFalsely(c: Config, k: Kit, first: string, second: string, other: string)
    requires |c.rules| == 2 && c.rules[0] == Rule(first, Asked("x")) && c.rules[1] == Rule(second, Asked("y"))
    requires c.persistent && c.disk(|k.runs|).readable && Noted(k.files, NoteName(other, second)) && |k.runs| == 1
    requires Succeeded(k.runs[0]) && PairOf(k.runs[0]).1 != second
    ensures ReportsFalsely(c, k, second, other)
  {
    OnlyRun(k, k.runs[0], other, second);
    SecondReported(c, k, first, second, other);
  }

  /** The first rule applied for one task; then the second rule, never executed for another, is reported as applied. */
  lemma FalseReportLife(first: string, task: string, second: string, other: string, day: FactFormat.Day)
    requires TaskId(task) && TaskId(other) && first != second && NoteName(task, first) == NoteName(other, second)
    requires Kept(task, first, day)
    ensures Posted([Handled(Asking(task, "x"))]) && Asking(other, "y").Valid()
    ensures var c := TwoRules(first, second, day);
            ReportsFalsely(c, Lived(c, [Handled(Asking(task, "x"))]), second, other)
  {
    var c := TwoRules(first, second, day);
    AskingPosted(task, other);
    LivedOnce(c, Handled(Asking(task, "x")));
    FirstOnFile(first, second, task, day);
    ReportedFalsely(c, Lived(c, [Handled(Asking(task, "x"))]), first, second, other);
  }

  /** Such a life: task "a-b" under key "c", then task "a" under key "b-c". */
  lemma DashesReportFalsely(day: FactFormat.Day)
    ensures Posted([Handled(Asking("a-b", "x"))]) && Asking("a", "y").Valid()
    ensures var c := TwoRules("c", "b-c", day); ReportsFalsely(c, Lived(c, [Handled(Asking("a-b", "x"))]), "b-c", "a")
  {
    NoteNamesCollide();
    var first, task, other := "c", "a-b", "a";
    StripKeepsHead(first);
    assert StripLeft(first) == first && TaskId(task) && TaskId(other);
    OneLineKeyKept(task, first, day);
    FalseReportLife(first, task, "b-c", other, day);
  }

  lemma FirstApplies(c: Config, k: Kit, first: string, second: string, task: string)
    requires |c.rules| == 2 && c.rules[0] == Rule(first, Asked("x")) && c.rules[1] == Rule(second, Asked("y"))
    requires first in c.keys && TaskId(task) && k == Kit({}, map[], 0, []) && c.max.None?
    ensures Fire(c, k, Asking(task, "x")).kit ==
            Executed(c, k, task, first, BuildProposal(Asking(task, "x"), first, "x"))
  {
    var env := Asking(task, "x");
    assert OwnProvenance(env.facts, "a") == "p";
    assert "x" != "y" && "y" !in env.asks && "x" in env.asks;
    assert FireFirst(c, k, env, 0) == Fired(k, [], false);
    assert FireFirst(c, k, env, 2).kit == FireFirst(c, k, env, 1).kit;
  }

  lemma SecondReported(c: Config, k: Kit, first: string, second: string, other: string)
    requires |c.rules| == 2 && c.rules[0] == Rule(first, Asked("x")) && c.rules[1] == Rule(second, Asked("y"))
    requires Seen(c, k, other, second)
    ensures Fire(c, k, Asking(other, "y")) == Fired(k, [Firing("y", second, true, Previously)], false)
  {
    var env := Asking(other, "y");
    assert "x" != "y" && "x" !in env.asks && "y" in env.asks;
    assert FireFirst(c, k, env, 0) == Fired(k, [], false);
    assert FireFirst(c, k, env, 1) == Fired(k, [], false);
  }
}
