/** What a transcript replays: each completed record's turn, and of the older ones exactly those not yet folded. */
module TranscriptReplay {
  import opened PyText
  import opened Lines
  import opened Transcript
  import opened TranscriptSafety

  // ----- the newest turns -----

  lemma SweptUnfolded(c: Config, d: Disk)
    requires c.Valid()
    ensures var r := Replay(d, Deletes(Leftover(c.order(d.turns.Keys), Mark(d))));
            Unfolded(c, r) == Unfolded(c, d) && r.summary == d.summary && forall i :: i in r.turns ==> i > Mark(r)
  {
    var r := Replay(d, Deletes(Leftover(c.order(d.turns.Keys), Mark(d))));
    SweepFacts(c, d);
    UnfoldedIs(c, d);
    UnfoldedIs(c, r);
    AscendUnique(Unfolded(c, r), Unfolded(c, d));
  }

  /** What compaction leaves of the unfolded turns: all, or the newest `keepTurns` once there are more than `maxTurns`.
      */
  function Kept(c: Config, ids: seq<nat>): seq<nat>
    requires c.keepTurns < c.maxTurns
  {
    if |ids| > c.maxTurns then ids[|ids| - c.keepTurns..] else ids
  }

  lemma CompactedUnfolded(c: Config, d: Disk)
    requires c.Valid() && forall i :: i in d.turns ==> i > Mark(d)
    ensures Unfolded(c, Replay(d, Compaction(c, d))) == Kept(c, Unfolded(c, d))
  {
    var ids := Unfolded(c, d);
    if |ids| > c.maxTurns {
      var n := |ids| - c.keepTurns;
      assert Oldest(c, d) == ids[..n];
      FoldingUnfolded(c, d, n, Refolded(c, d, ids[..n]));
    }
  }

  lemma FoldingUnfolded(c: Config, d: Disk, n: nat, body: string)
    requires c.Valid() && 0 < n <= |Unfolded(c, d)| && forall i :: i in d.turns ==> i > Mark(d)
    ensures Unfolded(c, Replay(d, Folding(Unfolded(c, d)[..n], body))) == Unfolded(c, d)[n..]
  {
    var r := Replay(d, Folding(Unfolded(c, d)[..n], body));
    FoldedDeletes(c, d, n, body);
    MarkRises(c, d, n);
    FoldedUnfolded(c, d, n, r);
  }

  lemma WrittenUnfolded(c: Config, d: Disk, t: Turn)
    requires c.Valid()
    ensures Unfolded(c, Apply(d, Write(Next(c, d), t))) == Unfolded(c, d) + [Next(c, d)]
  {
    var i, e := Next(c, d), Apply(d, Write(Next(c, d), t));
    NextAbove(c, d);
    UnfoldedIs(c, d);
    UnfoldedIs(c, e);
    var ids := Unfolded(c, d);
    assert forall k :: 0 <= k < |ids| ==> ids[k] in ids;
    AscendUnique(Unfolded(c, e), ids + [i]);
  }

  lemma TidiedUnfolded(c: Config, e: Disk)
    requires c.Valid()
    ensures Unfolded(c, Replay(e, Tidied(c, e))) == Kept(c, Unfolded(c, e))
  {
    var sweep := Deletes(Leftover(c.order(e.turns.Keys), Mark(e)));
    SweptUnfolded(c, e);
    CompactedUnfolded(c, Replay(e, sweep));
    ReplayConcat(e, sweep, Compaction(c, Replay(e, sweep)));
  }

  /** A completed record adds its turn to what is replayed; past `maxTurns`, exactly the newest `keepTurns` stay. */
  lemma RecordReplays(c: Config, d: Disk, role: Role, text: string)
    requires c.Valid() && Strip(text) != ""
    ensures var r := Replay(d, RecordOps(c, d, role, text)); Unfolded(c, r) == Kept(c, Unfolded(c, d) + [Next(c, d)])
  {
    var write := Write(Next(c, d), TurnOf(role, text));
    RecordShape(c, d, role, text);
    WrittenUnfolded(c, d, write.turn);
    TidiedUnfolded(c, Apply(d, write));
  }

  /** What is replayed to the model: the newest `limit` unfolded turns, oldest first, a persona's as the assistant's,
      each in full or, where it has no text, by its preview. A limit of zero shows all of them, a negative one leaves
      out as many of the oldest. */
  lemma RecentShows(turns: map<nat, Turn>, ids: seq<nat>, limit: int, ms: seq<Message>)
    requires (forall k :: 0 <= k < |ids| ==> ids[k] in turns) && ms == Messages(turns, ids[Start(|ids|, limit)..])
    ensures |ms| == if limit > 0 then Min(limit, |ids|) else Max(0, |ids| + limit)
    ensures forall j :: 0 <= j < |ms| ==>
              var t := turns[ids[|ids| - |ms| + j]];
              && (ms[j].assistant <==> t.role == Persona)
              && (t.body != "" ==> ms[j].content == t.body) && (t.body == "" ==> ms[j].content == t.preview)
  {
  }

  // ----- the summary -----

  /** A fold adds one line for each folded turn to the lines of the summary so far, as long as they fit; past that the
      newest lines are kept (`Transcript.TruncationDropsOldest`). */
  lemma GrownLines(c: Config, d: Disk, ids: seq<nat>)
    requires ids != [] && forall k :: 0 <= k < |ids| ==> ids[k] in d.turns && OneLine(d.turns[ids[k]].preview)
    requires d.summary.Some? && d.summary.value.body != "" ==>
             !IsLineBreak(d.summary.value.body[|d.summary.value.body| - 1])
    ensures var before := if d.summary.Some? then SplitLines(d.summary.value.body) else [];
            var lines := before + FoldLines(d.turns, ids);
            if |JoinedText(d, ids)| <= c.summaryMax then SplitLines(Grown(c, d, ids)) == lines
            else Grown(c, d, ids) == Clip(JoinLines(Newest(lines, c.summaryMax)), c.summaryMax)
  {
    FoldTextLines(d.turns, ids);
    NoneConcat(FoldLines(d.turns, ids));
    if d.summary.Some? && d.summary.value.body != "" {
      var body, text := d.summary.value.body, FoldText(d.turns, ids);
      SplitConcat(body, text);
      Assoc(body, ['\n'], text);
    }
  }

  /** The summary so far and the text of the fold, joined by a newline. */
  function JoinedText(d: Disk, ids: seq<nat>): string
    requires ids != [] && forall k :: 0 <= k < |ids| ==> ids[k] in d.turns
  {
    if d.summary.Some? && d.summary.value.body != "" then d.summary.value.body + "\n" + FoldText(d.turns, ids)
    else FoldText(d.turns, ids)
  }

  /** A folded turn's line names who spoke. */
  lemma LineSays(t: Turn)
    ensures t.role == User ==> FoldLine(t) == "user: " + t.preview
    ensures t.role == Persona ==> FoldLine(t) == "persona: " + t.preview
  {
  }

  /** A preview is the first line that is not blank, stripped and cut at 120 characters. */
  lemma PreviewShows(text: string, k: nat)
    requires k < |SplitLines(text)| && Strip(SplitLines(text)[k]) != ""
    requires forall j :: 0 <= j < k ==> Strip(SplitLines(text)[j]) == ""
    ensures Preview(text) == Clip(Strip(SplitLines(text)[k]), 120)
  {
    FirstWordsAt(SplitLines(text), Strip(text), k);
  }

  lemma {:induction false} FirstWordsAt(lines: seq<string>, fallback: string, k: nat)
    requires k < |lines| && Strip(lines[k]) != "" && forall j :: 0 <= j < k ==> Strip(lines[j]) == ""
    ensures FirstWords(lines, fallback) == Strip(lines[k])
  {
    if k > 0 {
      assert Strip(lines[0]) == "";
      assert forall j :: 0 <= j < k ==> lines[1..][j] == lines[j + 1];
      FirstWordsAt(lines[1..], fallback, k - 1);
    }
  }
}
