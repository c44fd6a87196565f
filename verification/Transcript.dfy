/** A persona's transcript of one thread: turn files, a rolling summary with its watermark, and the file operations
    between which a write may fail or the process may die. */
module Transcript {
  import opened PyText
  import opened Lines
  import FactFormat

  datatype Role = User | Persona

  datatype Turn = Turn(role: Role, preview: string, body: string)

  /** `through` is the watermark: every turn up to it has been folded into `body`. */
  datatype Summary = Summary(body: string, through: nat)

  datatype Disk = Disk(turns: map<nat, Turn>, summary: Option<Summary>)

  /** One atomic file operation. A fold writes the summary file, `ids` being the turns its text takes in. */
  datatype Op = Write(idx: nat, turn: Turn) | Delete(idx: nat) | Fold(ids: seq<nat>, body: string)

  ghost predicate Lists(listing: seq<nat>, keys: set<nat>) { forall i :: i in listing <==> i in keys }

  /** `order` is the order in which the directory lists its turns. */
  datatype Config = Config(maxTurns: nat, keepTurns: nat, summaryMax: nat, order: set<nat> -> seq<nat>) {
    /** What the constructor accepts. */
    ghost predicate Valid() {
      2 <= keepTurns < maxTurns && summaryMax >= 1 && forall keys :: Lists(order(keys), keys)
    }
  }

  const PREVIEW_MAX := 120

  // ----- what a record writes -----

  /** The summary's watermark, -1 before the first fold. */
  function Mark(d: Disk): int { if d.summary.Some? then d.summary.value.through else -1 }

  function FirstWords(lines: seq<string>, fallback: string): string {
    if lines == [] then fallback
    else if Strip(lines[0]) != "" then Strip(lines[0])
    else FirstWords(lines[1..], fallback)
  }

  /** `_preview`: the first non-blank line. */
  function Preview(text: string): string { Clip(FirstWords(SplitLines(text), Strip(text)), PREVIEW_MAX) }

  /** One more than every listed index and the watermark. */
  function NextIndex(listing: seq<nat>, mark: int): nat
    requires mark >= -1
  {
    if listing == [] then mark + 1
    else
      var front, last := NextIndex(listing[..|listing| - 1], mark), listing[|listing| - 1];
      if last >= front then last + 1 else front
  }

  /** The indices of `turns` above `mark` and below `n`, ascending. */
  function AboveMark(turns: map<nat, Turn>, mark: int, n: nat): seq<nat> {
    if n == 0 || n - 1 <= mark then []
    else if n - 1 in turns then AboveMark(turns, mark, n - 1) + [n - 1]
    else AboveMark(turns, mark, n - 1)
  }

  function Next(c: Config, d: Disk): nat { NextIndex(c.order(d.turns.Keys), Mark(d)) }

  /** `_unfolded_turns`, as indices. */
  function Unfolded(c: Config, d: Disk): seq<nat> { AboveMark(d.turns, Mark(d), Next(c, d)) }

  /** The listed turns a finished fold left behind. */
  function Leftover(listing: seq<nat>, mark: int): seq<nat> {
    if listing == [] then []
    else
      var front, last := Leftover(listing[..|listing| - 1], mark), listing[|listing| - 1];
      if last <= mark then front + [last] else front
  }

  function Deletes(ids: seq<nat>): (ops: seq<Op>)
    ensures |ops| == |ids|
  {
    if ids == [] then [] else Deletes(ids[..|ids| - 1]) + [Delete(ids[|ids| - 1])]
  }

  function FoldLine(t: Turn): string { (match t.role case User => "user" case Persona => "persona") + ": " + t.preview }

  function FoldText(turns: map<nat, Turn>, ids: seq<nat>): string
    requires ids != [] && forall k :: 0 <= k < |ids| ==> ids[k] in turns
  {
    var line := FoldLine(turns[ids[|ids| - 1]]);
    if |ids| == 1 then line else FoldText(turns, ids[..|ids| - 1]) + ['\n'] + line
  }

  /** The lines left once enough of the oldest have gone for the rest to fit. */
  function Newest(lines: seq<string>, limit: nat): seq<string> {
    if |lines| > 1 && |JoinLines(lines)| > limit then Newest(lines[1..], limit) else lines
  }

  /** `_truncate_summary`. */
  function Truncated(body: string, limit: nat): (r: string)
    ensures |r| <= limit && (|body| <= limit ==> r == body)
  {
    if |body| <= limit then body else Clip(JoinLines(Newest(SplitLines(body), limit)), limit)
  }

  /** What truncation keeps is the longest run of newest lines that fits, or the last line alone. */
  lemma {:induction false} TruncationDropsOldest(lines: seq<string>, limit: nat) returns (k: nat)
    requires lines != []
    ensures k < |lines| && Newest(lines, limit) == lines[k..]
    ensures forall j :: 0 <= j < k ==> |JoinLines(lines[j..])| > limit
    ensures k < |lines| - 1 ==> |JoinLines(lines[k..])| <= limit
  {
    assert lines[0..] == lines;
    if |lines| > 1 && |JoinLines(lines)| > limit {
      var rest := lines[1..];
      var m := TruncationDropsOldest(rest, limit);
      k := m + 1;
      assert forall j :: 0 < j <= k ==> lines[j..] == rest[j - 1..];
    } else {
      k := 0;
    }
  }

  /** The text a fold of `ids` asks the store to keep. */
  function Grown(c: Config, d: Disk, ids: seq<nat>): (body: string)
    requires ids != [] && forall k :: 0 <= k < |ids| ==> ids[k] in d.turns
    ensures |body| <= c.summaryMax
  {
    var text := FoldText(d.turns, ids);
    Truncated(if d.summary.Some? && d.summary.value.body != "" then d.summary.value.body + "\n" + text else text,
              c.summaryMax)
  }

  /** The summary after folding `ids`. */
  function Refolded(c: Config, d: Disk, ids: seq<nat>): (body: string)
    requires ids != [] && forall k :: 0 <= k < |ids| ==> ids[k] in d.turns
    ensures |body| <= c.summaryMax
  {
    Strip(Grown(c, d, ids))
  }

  lemma {:induction false} AboveMarkKnown(turns: map<nat, Turn>, mark: int, n: nat)
    ensures forall k :: 0 <= k < |AboveMark(turns, mark, n)| ==> AboveMark(turns, mark, n)[k] in turns
  {
    if n > 0 { AboveMarkKnown(turns, mark, n - 1); }
  }

  /** The new summary, then the folded turns' files. */
  function Folding(ids: seq<nat>, body: string): seq<Op> { [Fold(ids, body)] + Deletes(ids) }

  /** The turns a compaction folds: none up to `maxTurns`, otherwise all but the newest `keepTurns`. */
  function Oldest(c: Config, d: Disk): (ids: seq<nat>)
    requires c.keepTurns < c.maxTurns
    ensures forall k :: 0 <= k < |ids| ==> ids[k] in d.turns
  {
    var ids := Unfolded(c, d);
    AboveMarkKnown(d.turns, Mark(d), Next(c, d));
    if |ids| <= c.maxTurns then [] else ids[..|ids| - c.keepTurns]
  }

  /** `_compact_if_needed`. */
  function Compaction(c: Config, d: Disk): seq<Op>
    requires c.keepTurns < c.maxTurns
  {
    var oldest := Oldest(c, d);
    if oldest == [] then [] else Folding(oldest, Refolded(c, d, oldest))
  }

  function Apply(d: Disk, op: Op): Disk {
    match op
    case Write(i, t) => d.(turns := d.turns[i := t])
    case Delete(i) => d.(turns := d.turns - {i})
    case Fold(ids, body) => if ids == [] then d else d.(summary := Some(Summary(body, ids[|ids| - 1])))
  }

  function Replay(d: Disk, ops: seq<Op>): Disk {
    if ops == [] then d else Apply(Replay(d, ops[..|ops| - 1]), ops[|ops| - 1])
  }

  /** `_sweep_folded`, then `_compact_if_needed`. */
  function Tidied(c: Config, d: Disk): seq<Op>
    requires c.keepTurns < c.maxTurns
  {
    var sweep := Deletes(Leftover(c.order(d.turns.Keys), Mark(d)));
    sweep + Compaction(c, Replay(d, sweep))
  }

  /** A text as a turn's file gives it back: stripped, every line separator a newline. */
  function ReadBack(text: string): string { Unbroken(FactFormat.Normal(Strip(text))) }

  /** The turn of a text, as its file gives it back. */
  function TurnOf(role: Role, text: string): Turn { Turn(role, Strip(Preview(Strip(text))), ReadBack(text)) }

  /** `record`, as file operations; blank text writes nothing. */
  function RecordOps(c: Config, d: Disk, role: Role, text: string): seq<Op>
    requires c.keepTurns < c.maxTurns
  {
    if Strip(text) == "" then []
    else
      var write := Write(Next(c, d), TurnOf(role, text));
      [write] + Tidied(c, Apply(d, write))
  }

  // ----- a write that may stop anywhere -----

  datatype Progress = Progress(disk: Disk, left: nat, ok: bool)

  function Done(d: Disk, left: nat, plan: seq<Op>): Progress {
    Progress(Replay(d, Cut(plan, left)), left - |Cut(plan, left)|, |plan| <= left)
  }

  lemma {:induction false} ReplayConcat(d: Disk, a: seq<Op>, b: seq<Op>)
    ensures Replay(d, a + b) == Replay(Replay(d, a), b)
  {
    if b == [] {
      assert a + b == a;
    } else {
      ReplayConcat(d, a, b[..|b| - 1]);
      assert (a + b)[..|a + b| - 1] == a + b[..|b| - 1];
    }
  }

  /** A finished part followed by another is one plan; what follows a part that failed is never begun. */
  lemma DoneThen(d: Disk, left: nat, a: seq<Op>, b: seq<Op>)
    ensures var first := Done(d, left, a);
            Done(d, left, a + b) == if first.ok then Done(first.disk, first.left, b) else first
  {
    if |a| <= left {
      var rest := Cut(b, left - |a|);
      ReplayConcat(d, a, rest);
      assert Cut(a + b, left) == a + rest;
    } else {
      assert Cut(a + b, left) == Cut(a, left);
    }
  }

  lemma DoneOne(d: Disk, left: nat, op: Op)
    ensures Done(d, left, [op]) == if left > 0 then Progress(Apply(d, op), left - 1, true) else Progress(d, 0, false)
  {
    assert [op][..0] == [];
    assert Replay(d, [op]) == Apply(Replay(d, []), op);
  }

  lemma {:induction false} DeletesConcat(a: seq<nat>, b: seq<nat>)
    ensures Deletes(a + b) == Deletes(a) + Deletes(b)
  {
    if b == [] {
      assert a + b == a;
    } else {
      DeletesConcat(a, b[..|b| - 1]);
      assert (a + b)[..|a + b| - 1] == a + b[..|b| - 1];
    }
  }

  /** The deletions from the `k`-th on: the next one, then the rest. */
  lemma DeletesFrom(ids: seq<nat>, k: nat)
    requires k < |ids|
    ensures Deletes(ids[k..]) == [Delete(ids[k])] + Deletes(ids[k + 1..])
  {
    assert ids[k..] == [ids[k]] + ids[k + 1..];
    DeletesConcat([ids[k]], ids[k + 1..]);
    assert Deletes([ids[k]]) == [Delete(ids[k])];
  }

  // ----- the transcript's own code -----

  datatype Outcome = Blank | Recorded(idx: nat) | Failed

  datatype Message = Message(assistant: bool, content: string)

  /** `recent`: the newest `limit` unfolded turns, oldest first, as Python's `[-limit:]` cuts them. */
  function Start(n: nat, limit: int): nat {
    if limit > n then 0 else if limit > 0 then n - limit else if -limit > n then n else -limit
  }

  function Messages(turns: map<nat, Turn>, ids: seq<nat>): (ms: seq<Message>)
    requires forall k :: 0 <= k < |ids| ==> ids[k] in turns
    ensures |ms| == |ids| && forall k :: 0 <= k < |ids| ==>
              ms[k] == Message(turns[ids[k]].role == Persona,
                               if turns[ids[k]].body != "" then turns[ids[k]].body else turns[ids[k]].preview)
  {
    if ids == [] then []
    else
      var t := turns[ids[|ids| - 1]];
      Messages(turns, ids[..|ids| - 1]) + [Message(t.role == Persona, if t.body != "" then t.body else t.preview)]
  }

  method TruncateSummary(body: string, limit: nat) returns (r: string)
    ensures r == Truncated(body, limit)
  {
    if |body| <= limit { return body; }
    var lines := SplitLines(body);
    while |lines| > 1 && |JoinLines(lines)| > limit
      invariant Newest(lines, limit) == Newest(SplitLines(body), limit)
      decreases |lines|
    {
      lines := lines[1..];
    }
    r := Clip(JoinLines(lines), limit);
  }

  /** The pair of turns `remembering_responder` records for a reply. The message's record stops after `firstCut` file
      operations, the reply's after `secondCut`; `undo` says whether the rollback is reached and succeeds. */
  function Paired(c: Config, d: Disk, message: string, reply: string, firstCut: nat, secondCut: nat, undo: bool): Disk
    requires c.keepTurns < c.maxTurns
  {
    if Strip(reply) == "" then d
    else
      var first := Done(d, firstCut, RecordOps(c, d, User, message));
      if !first.ok then first.disk
      else
        var second := Done(first.disk, secondCut, RecordOps(c, first.disk, Persona, Strip(reply)));
        if second.ok || !undo || Strip(message) == "" then second.disk else Apply(second.disk, Delete(Next(c, d)))
  }

  class ThreadTranscript {
    const config: Config
    var turns: map<nat, Turn>
    var summary: Option<Summary>
    /** How many more file operations succeed. */
    var left: nat

    ghost function Value(): Disk
      reads this
    {
      Disk(turns, summary)
    }

    constructor (c: Config, d: Disk, left: nat)
      ensures Value() == d && config == c && this.left == left
    {
      config, turns, summary, this.left := c, d.turns, d.summary, left;
    }

    function FoldedThrough(): int
      reads this
    {
      if summary.Some? then summary.value.through else -1
    }

    ghost function Now(ok: bool): Progress
      reads this
    {
      Progress(Value(), left, ok)
    }

    method Put(i: nat, t: Turn) returns (ok: bool)
      modifies this`turns, this`left
      ensures Now(ok) == Done(old(Value()), old(left), [Write(i, t)])
    {
      DoneOne(Value(), left, Write(i, t));
      ok := left > 0;
      if ok { turns, left := turns[i := t], left - 1; }
    }

    method PutSummary(ids: seq<nat>, body: string) returns (ok: bool)
      requires ids != []
      modifies this`summary, this`left
      ensures Now(ok) == Done(old(Value()), old(left), [Fold(ids, body)])
    {
      DoneOne(Value(), left, Fold(ids, body));
      ok := left > 0;
      if ok { summary, left := Some(Summary(body, ids[|ids| - 1])), left - 1; }
    }

    method Remove(i: nat) returns (ok: bool)
      modifies this`turns, this`left
      ensures Now(ok) == Done(old(Value()), old(left), [Delete(i)])
    {
      DoneOne(Value(), left, Delete(i));
      ok := left > 0;
      if ok { turns, left := turns - {i}, left - 1; }
    }

    method RemoveAll(ids: seq<nat>) returns (ok: bool)
      modifies this`turns, this`left
      ensures Now(ok) == Done(old(Value()), old(left), Deletes(ids))
    {
      ok := true;
      var k := 0;
      assert ids[0..] == ids;
      while ok && k < |ids|
        invariant k <= |ids|
        invariant if ok then Done(Value(), left, Deletes(ids[k..])) == Done(old(Value()), old(left), Deletes(ids))
                  else Now(false) == Done(old(Value()), old(left), Deletes(ids))
      {
        DeletesFrom(ids, k);
        DoneThen(Value(), left, [Delete(ids[k])], Deletes(ids[k + 1..]));
        ok := Remove(ids[k]);
        k := k + 1;
      }
    }

    method SweepFolded() returns (ok: bool)
      modifies this`turns, this`left
      ensures Now(ok) == Done(old(Value()), old(left),
                              Deletes(Leftover(config.order(old(turns).Keys), Mark(old(Value())))))
    {
      ok := RemoveAll(Leftover(config.order(turns.Keys), FoldedThrough()));
    }

    method FoldOldest(oldest: seq<nat>) returns (ok: bool)
      requires config.keepTurns < config.maxTurns && oldest != [] && oldest == Oldest(config, Value())
      modifies this`turns, this`summary, this`left
      ensures Now(ok) == Done(old(Value()), old(left), Compaction(config, old(Value())))
    {
      DoneThen(Value(), left, [Fold(oldest, Refolded(config, Value(), oldest))], Deletes(oldest));
      var text := FoldText(turns, oldest);
      if summary.Some? && summary.value.body != "" { text := summary.value.body + "\n" + text; }
      text := TruncateSummary(text, config.summaryMax);
      ok := PutSummary(oldest, Strip(text));
      if ok { ok := RemoveAll(oldest); }
    }

    method CompactIfNeeded() returns (ok: bool)
      requires config.keepTurns < config.maxTurns
      modifies this`turns, this`summary, this`left
      ensures Now(ok) == Done(old(Value()), old(left), Compaction(config, old(Value())))
    {
      ok := true;
      var n := NextIndex(config.order(turns.Keys), FoldedThrough());
      var ids := AboveMark(turns, FoldedThrough(), n);
      assert ids == Unfolded(config, Value());
      if |ids| > config.maxTurns { ok := FoldOldest(ids[..|ids| - config.keepTurns]); }
    }

    /** The sweep and the compaction a new turn triggers. */
    method Tidy() returns (ok: bool)
      requires config.keepTurns < config.maxTurns
      modifies this`turns, this`summary, this`left
      ensures Now(ok) == Done(old(Value()), old(left), Tidied(config, old(Value())))
    {
      ghost var sweep := Deletes(Leftover(config.order(turns.Keys), Mark(Value())));
      DoneThen(Value(), left, sweep, Compaction(config, Replay(Value(), sweep)));
      ok := SweepFolded();
      if ok { ok := CompactIfNeeded(); }
    }

    /** `record`: every file operation of it that `left` allows, in order. */
    method Record(role: Role, text: string) returns (outcome: Outcome)
      requires config.keepTurns < config.maxTurns
      modifies this`turns, this`summary, this`left
      ensures Now(!outcome.Failed?) == Done(old(Value()), old(left), RecordOps(config, old(Value()), role, text))
      ensures outcome.Blank? <==> Strip(text) == ""
      ensures outcome.Recorded? ==> outcome.idx == Next(config, old(Value()))
    {
      var body := Strip(text);
      if body == "" { return Blank; }
      var i := NextIndex(config.order(turns.Keys), FoldedThrough());
      var turn := Turn(role, Strip(Preview(body)), ReadBack(body));
      DoneOne(Value(), left, Write(i, turn));
      DoneThen(Value(), left, [Write(i, turn)], Tidied(config, Apply(Value(), Write(i, turn))));
      var ok := Put(i, turn);
      if ok { ok := Tidy(); }
      outcome := if ok then Outcome.Recorded(i) else Failed;
    }

    /** `forget`: whether the turn was there. */
    method Forget(i: nat) returns (was: bool)
      modifies this`turns
      ensures Value() == Apply(old(Value()), Delete(i)) && was == (i in old(turns))
    {
      was := i in turns;
      turns := turns - {i};
    }

    method RecordPair(message: string, reply: string, firstCut: nat, secondCut: nat, undo: bool)
      requires config.keepTurns < config.maxTurns
      modifies this`turns, this`summary, this`left
      ensures Value() == Paired(config, old(Value()), message, reply, firstCut, secondCut, undo)
    {
      var text := Strip(reply);
      if text == "" { return; }
      left := firstCut;
      var user := Record(User, message);
      if user.Failed? { return; }
      left := secondCut;
      var persona := Record(Persona, text);
      if persona.Failed? && undo && user.Recorded? { var _ := Forget(user.idx); }
    }

    method Recent(limit: int) returns (ms: seq<Message>)
      ensures var ids := Unfolded(config, Value());
              (forall k :: 0 <= k < |ids| ==> ids[k] in turns) && ms == Messages(turns, ids[Start(|ids|, limit)..])
    {
      var n := NextIndex(config.order(turns.Keys), FoldedThrough());
      AboveMarkKnown(turns, FoldedThrough(), n);
      var ids := AboveMark(turns, FoldedThrough(), n);
      ms := Messages(turns, ids[Start(|ids|, limit)..]);
    }
  }
}
