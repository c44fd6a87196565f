/** The transcript's files through the fact format: what a turn and a summary are once they are read back. */
module TranscriptStore {
  import opened PyText
  import opened Lines
  import opened Transcript
  import opened TranscriptSafety
  import F = FactFormat

  function RoleName(role: Role): string { match role case User => "user" case Persona => "persona" }

  // ----- a turn's file -----

  /** The note `record` asks the store for. */
  function TurnNote(name: string, role: Role, text: string, day: F.Day): Option<F.Fact> {
    F.Remembered(name, RoleName(role), Preview(Strip(text)), Strip(text), "", day)
  }

  lemma RoleClean(role: Role)
    ensures F.Clean(RoleName(role)) && OneLine(RoleName(role))
  {
    var name := RoleName(role);
    assert name[0] in {'u', 'p'} && name[|name| - 1] in {'r', 'a'};
  }

  lemma PreviewClean(text: string)
    requires Strip(text) != ""
    ensures F.Clean(Strip(Preview(Strip(text)))) && OneLine(Strip(Preview(Strip(text))))
  {
    var body := Strip(text);
    PreviewIsOneLine(User, text);
    StripKeepsHead(SplitLines(body)[0]);
    StripKeepsHead(Preview(body));
    var kept := Strip(Preview(body));
    assert forall i :: 0 <= i < |kept| ==> kept[i] != '\n' && kept[i] != '\r';
  }

  lemma BodyStripped(text: string)
    ensures Strip(Strip(text)) == Strip(text)
  {
  }

  /** Every text a record takes is accepted by the store, and its file gives back `TurnOf`: the stripped preview, and
      the stripped text with every line separator a newline. */
  lemma TurnReadsBack(name: string, role: Role, text: string, day: F.Day)
    requires SafeSlug(name) && Strip(text) != ""
    ensures TurnNote(name, role, text, day).Some?
    ensures F.Loaded(F.Render(TurnNote(name, role, text, day).value), name) ==
            Some(F.Fact(name, RoleName(role), TurnOf(role, text).preview, TurnOf(role, text).body, None, Some(day)))
  {
    RoleClean(role);
    PreviewClean(text);
    BodyStripped(text);
    var f := F.Fact(name, RoleName(role), Strip(Preview(Strip(text))), Strip(text), None, Some(day));
    assert TurnNote(name, role, text, day) == Some(f);
    F.PlainLoaded(f, name);
  }

  // ----- the summary's file -----

  predicate Lead(c: char) { c == 'u' || c == 'p' }

  /** Lines of a role and a preview, parted by newlines only. */
  predicate Roll(s: string) {
    && s != "" && Lead(s[0])
    && forall i :: 0 <= i < |s| && IsLineBreak(s[i]) ==> s[i] == '\n' && i + 1 < |s| && Lead(s[i + 1])
  }

  predicate RollLine(s: string) { s != "" && Lead(s[0]) && OneLine(s) }

  lemma RollJoined(a: string, b: string)
    requires Roll(a) && Roll(b)
    ensures Roll(a + "\n" + b)
  {
    var s := a + "\n" + b;
    forall i | 0 <= i < |s| && IsLineBreak(s[i]) ensures s[i] == '\n' && i + 1 < |s| && Lead(s[i + 1]) {
      if i < |a| {
        assert s[i] == a[i] && s[i + 1] == a[i + 1];
      } else if i > |a| {
        assert s[i] == b[i - |a| - 1] && s[i + 1] == b[i - |a|];
      }
    }
  }

  lemma FoldLineRolls(t: Turn)
    requires OneLine(t.preview)
    ensures RollLine(FoldLine(t))
  {
    FoldLineIsOne(t);
  }

  lemma {:induction false} FoldTextRolls(turns: map<nat, Turn>, ids: seq<nat>)
    requires ids != [] && forall k :: 0 <= k < |ids| ==> ids[k] in turns && OneLine(turns[ids[k]].preview)
    ensures Roll(FoldText(turns, ids))
  {
    var line := FoldLine(turns[ids[|ids| - 1]]);
    FoldLineRolls(turns[ids[|ids| - 1]]);
    if |ids| > 1 {
      FoldTextRolls(turns, ids[..|ids| - 1]);
      RollJoined(FoldText(turns, ids[..|ids| - 1]), line);
    }
  }

  lemma RollTail(s: string)
    requires Roll(s) && LineEnd(s) < |s|
    ensures Roll(AfterBreak(s, LineEnd(s)))
  {
    var n := LineEnd(s);
    var rest := AfterBreak(s, n);
    assert rest == s[n + 1..];
    forall i | 0 <= i < |rest| && IsLineBreak(rest[i]) ensures rest[i] == '\n' && i + 1 < |rest| && Lead(rest[i + 1]) {
      assert rest[i] == s[n + 1 + i] && s[n + 2 + i] == rest[i + 1];
    }
  }

  predicate AllRoll(lines: seq<string>) { forall k :: 0 <= k < |lines| ==> RollLine(lines[k]) }

  lemma RollHead(s: string)
    requires Roll(s)
    ensures LineEnd(s) > 0 && RollLine(s[..LineEnd(s)])
  {
    assert LineEnd(s) > 0 by { assert !IsLineBreak(s[0]); }
  }

  lemma RollMore(line: string, lines: seq<string>)
    requires RollLine(line) && AllRoll(lines)
    ensures AllRoll([line] + lines)
  {
  }

  lemma {:induction false} RollLines(s: string)
    requires Roll(s)
    ensures SplitLines(s) != [] && AllRoll(SplitLines(s))
    decreases |s|
  {
    var n := LineEnd(s);
    RollHead(s);
    if n < |s| {
      RollTail(s);
      RollLines(AfterBreak(s, n));
      RollMore(s[..n], SplitLines(AfterBreak(s, n)));
    } else {
      assert s[..n] == s;
    }
  }

  lemma {:induction false} LinesRoll(lines: seq<string>)
    requires lines != [] && AllRoll(lines)
    ensures Roll(JoinLines(lines))
  {
    if |lines| > 1 {
      LinesRoll(lines[1..]);
      RollJoined(lines[0], JoinLines(lines[1..]));
    }
  }

  lemma {:induction false} NewestFits(lines: seq<string>, limit: nat)
    requires lines != [] && AllRoll(lines)
    ensures var kept := Newest(lines, limit);
            && kept != [] && AllRoll(kept)
            && (|kept| == 1 || |JoinLines(kept)| <= limit)
  {
    if |lines| > 1 && |JoinLines(lines)| > limit { NewestFits(lines[1..], limit); }
  }

  lemma TruncatedRolls(s: string, limit: nat)
    requires Roll(s) && limit >= 1
    ensures Roll(Truncated(s, limit))
  {
    if |s| > limit {
      var kept := Newest(SplitLines(s), limit);
      RollLines(s);
      NewestFits(SplitLines(s), limit);
      LinesRoll(kept);
      if |JoinLines(kept)| > limit {
        var clipped := Clip(kept[0], limit);
        assert clipped[0] == kept[0][0] && forall i :: 0 <= i < |clipped| ==> clipped[i] == kept[0][i];
      }
    }
  }

  lemma StripRolls(s: string)
    requires Roll(s)
    ensures Roll(Strip(s))
  {
    StripKeepsHead(s);
    var r := Strip(s);
    assert StripLeft(s) == s && r == s[..|r|];
    forall i | 0 <= i < |r| && IsLineBreak(r[i]) ensures r[i] == '\n' && i + 1 < |r| && Lead(r[i + 1]) {
      assert r[i] == s[i] && i < |r| - 1;
    }
  }

  /** What the transcript's files hold: previews on one line, and a summary of such lines. */
  ghost predicate Stored(d: Disk) {
    (forall i :: i in d.turns ==> OneLine(d.turns[i].preview)) && (d.summary.Some? ==> Roll(d.summary.value.body))
  }

  lemma GrownRolls(c: Config, d: Disk, ids: seq<nat>)
    requires c.Valid() && Stored(d) && ids != [] && forall k :: 0 <= k < |ids| ==> ids[k] in d.turns
    ensures Roll(Grown(c, d, ids))
  {
    var text := FoldText(d.turns, ids);
    FoldTextRolls(d.turns, ids);
    if d.summary.Some? {
      RollJoined(d.summary.value.body, text);
      TruncatedRolls(d.summary.value.body + "\n" + text, c.summaryMax);
    } else {
      TruncatedRolls(text, c.summaryMax);
    }
  }

  predicate OpStores(op: Op) {
    match op case Write(_, t) => OneLine(t.preview) case Delete(_) => true case Fold(_, body) => Roll(body)
  }

  predicate AllStore(ops: seq<Op>) { forall k :: 0 <= k < |ops| ==> OpStores(ops[k]) }

  lemma {:induction false} ReplayStores(d: Disk, ops: seq<Op>)
    requires Stored(d) && AllStore(ops)
    ensures Stored(Replay(d, ops))
  {
    if ops != [] {
      var front, op := ops[..|ops| - 1], ops[|ops| - 1];
      ReplayStores(d, front);
      assert OpStores(op);
    }
  }

  lemma {:induction false} DeletesStore(ids: seq<nat>)
    ensures AllStore(Deletes(ids))
  {
    if ids != [] { DeletesStore(ids[..|ids| - 1]); }
  }

  lemma StoreConcat(a: seq<Op>, b: seq<Op>)
    requires AllStore(a) && AllStore(b)
    ensures AllStore(a + b)
  {
  }

  lemma CompactionStores(c: Config, d: Disk)
    requires c.Valid() && Stored(d)
    ensures AllStore(Compaction(c, d))
  {
    var ids := Oldest(c, d);
    if ids != [] {
      GrownRolls(c, d, ids);
      StripRolls(Grown(c, d, ids));
      DeletesStore(ids);
      StoreConcat([Fold(ids, Refolded(c, d, ids))], Deletes(ids));
    }
  }

  lemma TidiedStores(c: Config, e: Disk)
    requires c.Valid() && Stored(e)
    ensures AllStore(Tidied(c, e))
  {
    var sweep := Deletes(Leftover(c.order(e.turns.Keys), Mark(e)));
    DeletesStore(Leftover(c.order(e.turns.Keys), Mark(e)));
    ReplayStores(e, sweep);
    CompactionStores(c, Replay(e, sweep));
    StoreConcat(sweep, Compaction(c, Replay(e, sweep)));
  }

  lemma WriteStores(c: Config, d: Disk, i: nat, t: Turn)
    requires c.Valid() && Stored(d) && OneLine(t.preview)
    ensures AllStore([Write(i, t)] + Tidied(c, Apply(d, Write(i, t))))
  {
    TidiedStores(c, Apply(d, Write(i, t)));
    StoreConcat([Write(i, t)], Tidied(c, Apply(d, Write(i, t))));
  }

  lemma RecordStores(c: Config, d: Disk, role: Role, text: string)
    requires c.Valid() && Stored(d)
    ensures AllStore(RecordOps(c, d, role, text))
  {
    if Strip(text) != "" {
      PreviewIsOneLine(role, text);
      WriteStores(c, d, Next(c, d), TurnOf(role, text));
    }
  }

  lemma {:induction false} TrackDisk(h: History, ops: seq<Op>)
    ensures Track(h, ops).disk == Replay(h.disk, ops)
  {
    if ops != [] { TrackDisk(h, ops[..|ops| - 1]); }
  }

  lemma RecordingStores(c: Config, h: History, role: Role, text: string, done: nat)
    requires c.Valid() && Stored(h.disk)
    ensures Stored(Recording(c, h, role, text, done).disk)
  {
    var ops := RecordOps(c, h.disk, role, text);
    RecordStores(c, h.disk, role, text);
    TrackDisk(h, Cut(ops, done));
    ReplayStores(h.disk, Cut(ops, done));
  }

  /** In every run, crashes and failed writes included, the files hold only what the store gives back unchanged. */
  lemma {:induction false} RunStored(c: Config, es: seq<Event>)
    requires c.Valid()
    ensures Stored(Run(c, es).disk)
  {
    if es != [] {
      RunStored(c, es[..|es| - 1]);
      var h := Run(c, es[..|es| - 1]);
      match es[|es| - 1]
      case Spoken(role, text, done) => RecordingStores(c, h, role, text, done);
      case Exchange(message, reply, firstCut, secondCut, undo) =>
        RecordingStores(c, h, User, message, firstCut);
        RecordingStores(c, Recording(c, h, User, message, firstCut), Persona, Strip(reply), secondCut);
    }
  }

  const SUMMARY_FACT := "thread-summary"
  const SUMMARY_KIND := "summary"

  /** The note a fold asks the store for; `source` carries the watermark. */
  function SummaryNote(body: string, source: string, day: F.Day): Option<F.Fact>
    requires SplitLines(body) != []
  {
    F.Remembered(SUMMARY_FACT, SUMMARY_KIND, SplitLines(body)[0], body, source, day)
  }

  lemma SummaryNamed()
    ensures SafeSlug(SUMMARY_FACT) && F.Clean(SUMMARY_KIND) && OneLine(SUMMARY_KIND)
  {
    var name, kind := SUMMARY_FACT, SUMMARY_KIND;
    assert name == ['t', 'h', 'r', 'e', 'a', 'd', '-', 's', 'u', 'm', 'm', 'a', 'r', 'y'];
    assert kind[0] == 's' && kind[6] == 'y';
  }

  lemma RollLineClean(line: string)
    requires RollLine(line)
    ensures F.Clean(Strip(line)) && OneLine(Strip(line))
  {
    StripKeepsHead(line);
    F.StripOneLine(line);
    var kept := Strip(line);
    assert forall i :: 0 <= i < |kept| ==> kept[i] != '\n' && kept[i] != '\r';
  }

  lemma {:induction false} CrLfFree(s: string)
    requires '\r' !in s
    ensures F.ReplaceCrLf(s) == s && F.ReplaceCr(s) == s
  {
    if s != "" {
      assert s[0] in s && s == [s[0]] + s[1..];
      CrLfFree(s[1..]);
    }
  }

  lemma RollUnchanged(s: string)
    requires Roll(s)
    ensures Unbroken(F.Normal(s)) == s
  {
    CrLfFree(s);
    assert forall i :: 0 <= i < |s| ==> Unbroken(s)[i] == s[i];
  }

  function SummaryFact(line: string, body: string, source: string, day: F.Day): F.Fact {
    F.Fact(SUMMARY_FACT, SUMMARY_KIND, line, body, Some(source), Some(day))
  }

  lemma SummaryNoteIs(body: string, source: string, day: F.Day)
    requires Roll(body) && source != "" && F.Clean(source)
    ensures SplitLines(body) != [] && RollLine(SplitLines(body)[0])
    ensures SummaryNote(body, source, day) == Some(SummaryFact(Strip(SplitLines(body)[0]), Strip(body), source, day))
  {
    RollLines(body);
    SummaryNamed();
    RollLineClean(SplitLines(body)[0]);
  }

  lemma SummaryLoads(line: string, body: string, source: string, day: F.Day)
    requires F.Clean(line) && OneLine(line) && F.Clean(source) && OneLine(source) && Stripped(body)
    ensures F.Loaded(F.Render(SummaryFact(line, body, source, day)), SUMMARY_FACT) ==
            Some(SummaryFact(line, Unbroken(F.Normal(body)), source, day))
  {
    SummaryNamed();
    F.PlainLoaded(SummaryFact(line, body, source, day), SUMMARY_FACT);
  }

  lemma RollReadsBack(body: string, source: string, day: F.Day)
    requires Roll(body) && source != "" && F.Clean(source) && OneLine(source)
    ensures SplitLines(body) != [] && SummaryNote(body, source, day).Some?
    ensures var f := F.Loaded(F.Render(SummaryNote(body, source, day).value), SUMMARY_FACT);
            f.Some? && f.value.body == Strip(body) && f.value.source == Some(source)
  {
    SummaryNoteIs(body, source, day);
    StripRolls(body);
    RollUnchanged(Strip(body));
    RollLineClean(SplitLines(body)[0]);
    SummaryLoads(Strip(SplitLines(body)[0]), Strip(body), source, day);
  }

  /** The summary a fold writes is accepted by the store, and is read back as the next fold and the replay expect it. */
  lemma SummaryReadsBack(c: Config, d: Disk, ids: seq<nat>, source: string, day: F.Day)
    requires c.Valid() && Stored(d) && ids != [] && forall k :: 0 <= k < |ids| ==> ids[k] in d.turns
    requires source != "" && F.Clean(source) && OneLine(source)
    ensures SplitLines(Grown(c, d, ids)) != [] && SummaryNote(Grown(c, d, ids), source, day).Some?
    ensures var f := F.Loaded(F.Render(SummaryNote(Grown(c, d, ids), source, day).value), SUMMARY_FACT);
            f.Some? && f.value.body == Refolded(c, d, ids) && f.value.source == Some(source)
  {
    GrownRolls(c, d, ids);
    RollReadsBack(Grown(c, d, ids), source, day);
  }
}
