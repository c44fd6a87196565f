/** Over whole runs, crashes and failed writes included, every turn is either replayable or folded once. */
module TranscriptSafety {
  import opened PyText
  import opened Lines
  import opened Transcript
  import FactFormat

  /** The disk, the turns recorded and not rolled back, and every index folded so far in fold order. */
  datatype History = History(disk: Disk, live: map<nat, Turn>, folded: seq<nat>)

  function Step(h: History, op: Op): History {
    match op
    case Write(i, t) => h.(disk := Apply(h.disk, op), live := h.live[i := t])
    case Delete(i) => h.(disk := Apply(h.disk, op))
    case Fold(ids, body) => h.(disk := Apply(h.disk, op), folded := h.folded + ids)
  }

  function Track(h: History, ops: seq<Op>): (r: History)
    ensures r.disk == Replay(h.disk, ops)
  {
    if ops == [] then h else Step(Track(h, ops[..|ops| - 1]), ops[|ops| - 1])
  }

  /** A rollback deletes the turn's file and the turn is no longer owed. */
  function Undone(h: History, i: nat): History {
    h.(disk := Apply(h.disk, Delete(i)), live := h.live - {i})
  }

  // ----- the invariant -----

  /** A live turn above the watermark is on disk as recorded, one at or below it is folded. */
  ghost predicate Kept(h: History) {
    && (forall i :: i in h.live && i > Mark(h.disk) ==> i in h.disk.turns && h.disk.turns[i] == h.live[i])
    && (forall i :: i in h.live && i <= Mark(h.disk) ==> i in h.folded)
    && (forall i :: i in h.disk.turns ==> i in h.live)
  }

  /** Each index is folded once, and the watermark is the last of them. */
  ghost predicate FoldedOnce(h: History) {
    && Ascending(h.folded) && (forall k :: 0 <= k < |h.folded| ==> h.folded[k] in h.live)
    && (h.folded == [] <==> h.disk.summary.None?)
    && (h.folded != [] ==> h.folded[|h.folded| - 1] == Mark(h.disk))
  }

  ghost predicate Conserved(h: History) { Kept(h) && FoldedOnce(h) }

  /** What an operation needs to keep the invariant. */
  ghost predicate Allowed(d: Disk, op: Op) {
    match op
    case Write(i, t) => i > Mark(d) && i !in d.turns
    case Delete(i) => i <= Mark(d)
    case Fold(ids, body) =>
      ids != [] && Ascending(ids) && forall i :: i in ids <==> i in d.turns && Mark(d) < i <= ids[|ids| - 1]
  }

  lemma AscendBelow(ids: seq<nat>, i: nat)
    requires Ascending(ids) && i in ids
    ensures i <= ids[|ids| - 1]
  {
  }

  lemma AscendConcat(a: seq<nat>, b: seq<nat>)
    requires Ascending(a) && Ascending(b) && (a != [] && b != [] ==> a[|a| - 1] < b[0])
    ensures Ascending(a + b)
  {
    var s := a + b;
    forall i, j | 0 <= i < j < |s|
      ensures s[i] < s[j]
    {
      if i < |a| <= j { assert a[i] <= a[|a| - 1] && b[0] <= b[j - |a|]; }
    }
  }

  lemma FoldKeepsTurns(h: History, ids: seq<nat>, body: string)
    requires Kept(h) && Allowed(h.disk, Fold(ids, body))
    ensures Kept(Step(h, Fold(ids, body)))
  {
    assert ids[|ids| - 1] in ids;
  }

  lemma FoldedOnceMore(h: History, ids: seq<nat>, body: string)
    requires Conserved(h) && Allowed(h.disk, Fold(ids, body))
    ensures FoldedOnce(Step(h, Fold(ids, body)))
  {
    assert forall k :: 0 <= k < |ids| ==> ids[k] in ids;
    AscendConcat(h.folded, ids);
  }

  lemma StepKeeps(h: History, op: Op)
    requires Conserved(h) && Allowed(h.disk, op)
    ensures Conserved(Step(h, op))
  {
    if op.Fold? {
      FoldKeepsTurns(h, op.ids, op.body);
      FoldedOnceMore(h, op.ids, op.body);
    }
  }

  ghost predicate AllAllowed(d: Disk, ops: seq<Op>) {
    ops == [] || (AllAllowed(d, ops[..|ops| - 1]) && Allowed(Replay(d, ops[..|ops| - 1]), ops[|ops| - 1]))
  }

  lemma {:induction false} TrackKeeps(h: History, ops: seq<Op>)
    requires Conserved(h) && AllAllowed(h.disk, ops)
    ensures Conserved(Track(h, ops))
  {
    if ops != [] {
      TrackKeeps(h, ops[..|ops| - 1]);
      StepKeeps(Track(h, ops[..|ops| - 1]), ops[|ops| - 1]);
    }
  }

  lemma {:induction false} AllowedConcat(d: Disk, a: seq<Op>, b: seq<Op>)
    requires AllAllowed(d, a) && AllAllowed(Replay(d, a), b)
    ensures AllAllowed(d, a + b)
  {
    if b == [] {
      assert a + b == a;
    } else {
      AllowedConcat(d, a, b[..|b| - 1]);
      ReplayConcat(d, a, b[..|b| - 1]);
      assert (a + b)[..|a + b| - 1] == a + b[..|b| - 1];
    }
  }

  lemma {:induction false} AllowedCut(d: Disk, ops: seq<Op>, left: nat)
    requires AllAllowed(d, ops)
    ensures AllAllowed(d, Cut(ops, left))
  {
    if left < |ops| {
      AllowedCut(d, ops[..|ops| - 1], left);
      assert ops[..left] == if left == |ops| - 1 then ops[..|ops| - 1] else ops[..|ops| - 1][..left];
    }
  }

  // ----- what a record does -----

  lemma {:induction false} NextIndexAbove(listing: seq<nat>, mark: int)
    requires mark >= -1
    ensures NextIndex(listing, mark) > mark && forall i :: i in listing ==> i < NextIndex(listing, mark)
  {
    if listing != [] {
      LastOrBefore(listing);
      NextIndexAbove(listing[..|listing| - 1], mark);
    }
  }

  lemma NextAbove(c: Config, d: Disk)
    requires c.Valid()
    ensures Next(c, d) > Mark(d) && forall i :: i in d.turns ==> i < Next(c, d)
  {
    NextIndexAbove(c.order(d.turns.Keys), Mark(d));
    assert Lists(c.order(d.turns.Keys), d.turns.Keys);
  }

  lemma {:induction false} AscendingIs(turns: map<nat, Turn>, mark: int, n: nat)
    ensures var ids := AboveMark(turns, mark, n); Ascending(ids) && forall i :: i in ids <==> i in turns && mark < i < n
  {
    if n > 0 {
      AscendingIs(turns, mark, n - 1);
      var front := AboveMark(turns, mark, n - 1);
      assert forall k :: 0 <= k < |front| ==> front[k] in front;
    }
  }

  /** `_unfolded_turns` is every turn above the watermark, in order. */
  lemma UnfoldedIs(c: Config, d: Disk)
    requires c.Valid()
    ensures Ascending(Unfolded(c, d)) && forall i :: i in Unfolded(c, d) <==> i in d.turns && i > Mark(d)
  {
    NextAbove(c, d);
    AscendingIs(d.turns, Mark(d), Next(c, d));
  }

  lemma {:induction false} LeftoverIs(listing: seq<nat>, mark: int)
    ensures forall i :: i in Leftover(listing, mark) <==> i in listing && i <= mark
  {
    if listing != [] { LeftoverIs(listing[..|listing| - 1], mark); }
  }

  lemma DeletesSnoc(ids: seq<nat>)
    requires ids != []
    ensures var ops, front := Deletes(ids), Deletes(ids[..|ids| - 1]);
            ops == front + [Delete(ids[|ids| - 1])] && ops[..|ops| - 1] == front
  {
    Snoc(Deletes(ids[..|ids| - 1]), Delete(ids[|ids| - 1]));
  }

  lemma {:induction false} DeletesReplay(d: Disk, ids: seq<nat>)
    ensures var r := Replay(d, Deletes(ids));
            r.summary == d.summary && forall i :: i in r.turns <==> i in d.turns && i !in ids
    ensures var r := Replay(d, Deletes(ids)); forall i :: i in r.turns ==> r.turns[i] == d.turns[i]
  {
    if ids != [] {
      LastOrBefore(ids);
      DeletesReplay(d, ids[..|ids| - 1]);
      DeletesSnoc(ids);
    }
  }

  lemma {:induction false} DeletesAllowed(d: Disk, ids: seq<nat>)
    requires forall k :: 0 <= k < |ids| ==> ids[k] <= Mark(d)
    ensures AllAllowed(d, Deletes(ids))
  {
    if ids != [] {
      DeletesAllowed(d, ids[..|ids| - 1]);
      DeletesReplay(d, ids[..|ids| - 1]);
      DeletesSnoc(ids);
    }
  }

  lemma SweepFacts(c: Config, d: Disk)
    requires c.Valid()
    ensures var sweep := Deletes(Leftover(c.order(d.turns.Keys), Mark(d)));
            var r := Replay(d, sweep);
            && AllAllowed(d, sweep) && r.summary == d.summary
            && (forall i :: i in r.turns <==> i in d.turns && i > Mark(d))
            && (forall i :: i in r.turns ==> r.turns[i] == d.turns[i])
  {
    var ids := Leftover(c.order(d.turns.Keys), Mark(d));
    LeftoverIs(c.order(d.turns.Keys), Mark(d));
    assert Lists(c.order(d.turns.Keys), d.turns.Keys);
    assert forall k :: 0 <= k < |ids| ==> ids[k] in ids;
    DeletesAllowed(d, ids);
    DeletesReplay(d, ids);
  }

  lemma AscendFront(ids: seq<nat>)
    requires Ascending(ids) && ids != []
    ensures Ascending(ids[..|ids| - 1]) && forall i :: i in ids[..|ids| - 1] <==> i in ids && i != ids[|ids| - 1]
  {
    forall i | i in ids
      ensures i in ids[..|ids| - 1] <==> i != ids[|ids| - 1]
    {
      var k :| 0 <= k < |ids| && ids[k] == i;
      if k < |ids| - 1 { assert ids[..|ids| - 1][k] == i; }
    }
  }

  lemma HasFirst(ids: seq<nat>)
    ensures ids == [] || ids[0] in ids
  {
  }

  lemma {:induction false} AscendUnique(a: seq<nat>, b: seq<nat>)
    requires Ascending(a) && Ascending(b) && forall i :: i in a <==> i in b
    ensures a == b
  {
    HasFirst(a);
    HasFirst(b);
    if a != [] {
      assert a[|a| - 1] in a;
      assert b[|b| - 1] in b;
      AscendBelow(a, b[|b| - 1]);
      AscendBelow(b, a[|a| - 1]);
      AscendFront(a);
      AscendFront(b);
      var front, rest := a[..|a| - 1], b[..|b| - 1];
      assert a[|a| - 1] == b[|b| - 1];
      forall i: nat
        ensures i in front <==> i in rest
      {
        assert i in a <==> i in b;
      }
      AscendUnique(front, rest);
      assert a == front + [a[|a| - 1]] && b == rest + [b[|b| - 1]];
    }
  }

  /** Folding the oldest `n` unfolded turns is allowed, and the rest stay above the new watermark. */
  lemma FoldAllowed(c: Config, d: Disk, n: nat, body: string)
    requires c.Valid() && 0 < n <= |Unfolded(c, d)|
    ensures Allowed(d, Fold(Unfolded(c, d)[..n], body))
    ensures forall i :: i in d.turns && i > Mark(d) && i !in Unfolded(c, d)[..n] ==> i > Unfolded(c, d)[n - 1]
  {
    UnfoldedIs(c, d);
    var ids := Unfolded(c, d);
    forall i | i in ids
      ensures i in ids[..n] <==> i <= ids[n - 1]
    {
      var k :| 0 <= k < |ids| && ids[k] == i;
      if k < n { assert ids[..n][k] == i; }
    }
    forall i | i in ids[..n]
      ensures i in ids
    {
    }
  }

  /** `r` is `d` less some turns: only unfolded ones, at most `maxTurns`, and any new summary within its limit. */
  ghost predicate TidyAfter(c: Config, d: Disk, r: Disk) {
    match r case Disk(turns, summary) =>
      && (forall i :: i in turns ==> i > Mark(r) && i in d.turns && turns[i] == d.turns[i])
      && |Unfolded(c, r)| <= c.maxTurns
      && (summary != d.summary ==> summary.Some? && |summary.value.body| <= c.summaryMax)
  }

  lemma FoldThenDelete(d: Disk, fold: Op, ids: seq<nat>)
    requires Allowed(d, fold) && forall k :: 0 <= k < |ids| ==> ids[k] <= Mark(Apply(d, fold))
    ensures var ops := [fold] + Deletes(ids);
            AllAllowed(d, ops) && Replay(d, ops) == Replay(Apply(d, fold), Deletes(ids))
  {
    AllowedOne(d, fold);
    DeletesAllowed(Apply(d, fold), ids);
    ReplayConcat(d, [fold], Deletes(ids));
    AllowedConcat(d, [fold], Deletes(ids));
  }

  /** The fold and its deletions, from a swept disk. */
  lemma FoldedDeletes(c: Config, d: Disk, n: nat, body: string)
    requires c.Valid() && 0 < n <= |Unfolded(c, d)| && forall i :: i in d.turns ==> i > Mark(d)
    ensures var ops := Folding(Unfolded(c, d)[..n], body);
            var r := Replay(d, ops);
            && AllAllowed(d, ops) && r.summary == Some(Summary(body, Unfolded(c, d)[n - 1]))
            && (forall i :: i in r.turns <==> i in d.turns && i > Unfolded(c, d)[n - 1])
            && (forall i :: i in r.turns ==> r.turns[i] == d.turns[i])
  {
    var oldest := Unfolded(c, d)[..n];
    var fold := Fold(oldest, body);
    UnfoldedIs(c, d);
    FoldAllowed(c, d, n, body);
    AscendTop(Unfolded(c, d), n);
    FoldThenDelete(d, fold, oldest);
    DeletesReplay(Apply(d, fold), oldest);
  }

  lemma AscendTop(ids: seq<nat>, n: nat)
    requires Ascending(ids) && 0 < n <= |ids|
    ensures forall i :: i in ids[..n] ==> i <= ids[n - 1]
  {
  }

  /** What is left unfolded after it. */
  lemma FoldedUnfolded(c: Config, d: Disk, n: nat, r: Disk)
    requires c.Valid() && 0 < n <= |Unfolded(c, d)| && Mark(r) == Unfolded(c, d)[n - 1] && Mark(d) < Mark(r)
    requires forall i :: i in r.turns <==> i in d.turns && i > Mark(r)
    ensures Unfolded(c, r) == Unfolded(c, d)[n..]
  {
    UnfoldedIs(c, d);
    UnfoldedIs(c, r);
    RestUnfolded(Unfolded(c, d), n);
    AscendUnique(Unfolded(c, r), Unfolded(c, d)[n..]);
  }

  lemma TidyFrom(c: Config, d: Disk, n: nat, body: string, r: Disk)
    requires c.Valid() && 0 < n <= |Unfolded(c, d)| <= n + c.maxTurns && |body| <= c.summaryMax
    requires r.summary == Some(Summary(body, Unfolded(c, d)[n - 1]))
    requires (forall i :: i in r.turns <==> i in d.turns && i > Mark(r))
    requires (forall i :: i in r.turns ==> r.turns[i] == d.turns[i])
    ensures TidyAfter(c, d, r)
  {
    MarkRises(c, d, n);
    FoldedUnfolded(c, d, n, r);
  }

  lemma FoldedTidy(c: Config, d: Disk, n: nat, body: string)
    requires c.Valid() && 0 < n <= |Unfolded(c, d)| <= n + c.maxTurns && |body| <= c.summaryMax
    requires forall i :: i in d.turns ==> i > Mark(d)
    ensures var ops := Folding(Unfolded(c, d)[..n], body); AllAllowed(d, ops) && TidyAfter(c, d, Replay(d, ops))
  {
    FoldedDeletes(c, d, n, body);
    TidyFrom(c, d, n, body, Replay(d, Folding(Unfolded(c, d)[..n], body)));
  }

  lemma OldestIs(c: Config, d: Disk)
    requires c.Valid() && Oldest(c, d) != []
    ensures var n := |Oldest(c, d)|; n <= |Unfolded(c, d)| <= n + c.maxTurns && Oldest(c, d) == Unfolded(c, d)[..n]
  {
  }

  lemma MarkRises(c: Config, d: Disk, n: nat)
    requires c.Valid() && 0 < n <= |Unfolded(c, d)|
    ensures Unfolded(c, d)[n - 1] > Mark(d)
  {
    UnfoldedIs(c, d);
    assert Unfolded(c, d)[n - 1] in Unfolded(c, d);
  }

  /** Compacting a swept disk leaves only unfolded turns, at most `maxTurns` of them. */
  lemma CompactionFacts(c: Config, d: Disk)
    requires c.Valid() && forall i :: i in d.turns ==> i > Mark(d)
    ensures AllAllowed(d, Compaction(c, d)) && TidyAfter(c, d, Replay(d, Compaction(c, d)))
  {
    var oldest := Oldest(c, d);
    if oldest != [] {
      OldestIs(c, d);
      FoldedTidy(c, d, |oldest|, Refolded(c, d, oldest));
    }
  }

  lemma AllowedOne(d: Disk, op: Op)
    requires Allowed(d, op)
    ensures AllAllowed(d, [op]) && Replay(d, [op]) == Apply(d, op)
  {
    assert [op][..0] == [];
    assert Replay(d, [op]) == Apply(Replay(d, []), op);
  }

  lemma RestUnfolded(ids: seq<nat>, n: nat)
    requires Ascending(ids) && 0 < n <= |ids|
    ensures Ascending(ids[n..]) && forall i :: i in ids[n..] <==> i in ids && i !in ids[..n]
    ensures forall i :: i in ids[n..] <==> i in ids && i > ids[n - 1]
  {
    forall i | i in ids
      ensures (i in ids[n..] <==> i > ids[n - 1]) && (i in ids[..n] <==> i <= ids[n - 1])
    {
      var k :| 0 <= k < |ids| && ids[k] == i;
      if k < n { assert ids[..n][k] == i; } else { assert ids[n..][k - n] == i; }
    }
  }

  // ----- one record -----

  /** Everything `record` does after writing its turn: allowed, and no turn is written by it. */
  lemma TidiedFacts(c: Config, d: Disk)
    requires c.Valid()
    ensures AllAllowed(d, Tidied(c, d))
    ensures TidyAfter(c, d, Replay(d, Tidied(c, d)))
  {
    var sweep := Deletes(Leftover(c.order(d.turns.Keys), Mark(d)));
    var swept := Replay(d, sweep);
    SweepFacts(c, d);
    CompactionFacts(c, swept);
    AllowedConcat(d, sweep, Compaction(c, swept));
    ReplayConcat(d, sweep, Compaction(c, swept));
  }

  lemma RecordAllowed(c: Config, d: Disk, role: Role, text: string)
    requires c.Valid()
    ensures AllAllowed(d, RecordOps(c, d, role, text))
  {
    if Strip(text) != "" {
      var write := Write(Next(c, d), TurnOf(role, text));
      NextAbove(c, d);
      AllowedOne(d, write);
      TidiedFacts(c, Apply(d, write));
      AllowedConcat(d, [write], Tidied(c, Apply(d, write)));
    }
  }

  lemma {:induction false} LiveUnwritten(h: History, ops: seq<Op>)
    requires forall k :: 0 <= k < |ops| ==> !ops[k].Write?
    ensures Track(h, ops).live == h.live
  {
    if ops != [] { LiveUnwritten(h, ops[..|ops| - 1]); }
  }

  lemma {:induction false} TrackConcat(h: History, a: seq<Op>, b: seq<Op>)
    ensures Track(h, a + b) == Track(Track(h, a), b)
  {
    if b == [] {
      assert a + b == a;
    } else {
      TrackConcat(h, a, b[..|b| - 1]);
      assert (a + b)[..|a + b| - 1] == a + b[..|b| - 1];
    }
  }

  lemma LiveAfter(h: History, i: nat, t: Turn, rest: seq<Op>, done: nat)
    requires done > 0 && forall k :: 0 <= k < |rest| ==> Spares(rest[k], i)
    ensures Track(h, Cut([Write(i, t)] + rest, done)).live == h.live[i := t]
  {
    var first := [Write(i, t)];
    assert Cut(first + rest, done) == first + Cut(rest, done - 1);
    TrackConcat(h, first, Cut(rest, done - 1));
    LiveUnwritten(Track(h, first), Cut(rest, done - 1));
    assert Track(h, first) == Step(Track(h, []), Write(i, t));
  }

  /** An operation that writes no turn, and neither deletes turn `i` nor folds it. */
  predicate Spares(op: Op, i: nat) {
    match op case Write(_, _) => false case Delete(j) => j != i case Fold(ids, _) => ids != [] && ids[|ids| - 1] < i
  }

  lemma {:induction false} SparedStays(d: Disk, ops: seq<Op>, i: nat)
    requires i in d.turns && i > Mark(d) && forall k :: 0 <= k < |ops| ==> Spares(ops[k], i)
    ensures var r := Replay(d, ops); i in r.turns && i > Mark(r)
  {
    if ops != [] { SparedStays(d, ops[..|ops| - 1], i); }
  }

  lemma SparedCut(d: Disk, j: nat, t: Turn, rest: seq<Op>, done: nat, i: nat)
    requires i in d.turns && i > Mark(d) && i != j && forall k :: 0 <= k < |rest| ==> Spares(rest[k], i)
    ensures var r := Replay(d, Cut([Write(j, t)] + rest, done)); i in r.turns && i > Mark(r)
  {
    var write := Write(j, t);
    if done > 0 {
      assert Cut([write] + rest, done) == [write] + Cut(rest, done - 1);
      ReplayConcat(d, [write], Cut(rest, done - 1));
      assert Replay(d, [write]) == Apply(Replay(d, []), write);
      SparedStays(Apply(d, write), Cut(rest, done - 1), i);
    }
  }

  lemma {:induction false} DeletesSpare(ids: seq<nat>, i: nat)
    requires forall k :: 0 <= k < |ids| ==> ids[k] != i
    ensures forall k :: 0 <= k < |ids| ==> Spares(Deletes(ids)[k], i)
  {
    if ids != [] { DeletesSpare(ids[..|ids| - 1], i); }
  }

  lemma {:induction false} AscendGap(ids: seq<nat>, p: nat, q: nat)
    requires Ascending(ids) && p <= q < |ids|
    ensures ids[q] >= ids[p] + (q - p)
    decreases q
  {
    if p < q { AscendGap(ids, p, q - 1); }
  }

  /** The fold never reaches the two newest turns. */
  lemma FoldStopsShort(ids: seq<nat>, keep: nat, i: nat)
    requires Ascending(ids) && i in ids && 2 <= keep < |ids| && forall k :: 0 <= k < |ids| ==> ids[k] <= i + 1
    ensures forall k :: 0 <= k < |ids| - keep ==> ids[k] < i
  {
    var p :| 0 <= p < |ids| && ids[p] == i;
    AscendGap(ids, p, |ids| - 1);
  }

  /** Nothing `record` does after writing a turn touches that turn or the one before it: `keepTurns` is at least 2. */
  lemma NewestTwoStay(c: Config, d: Disk, i: nat)
    requires c.Valid() && i in d.turns && i > Mark(d) && forall j :: j in d.turns ==> j <= i + 1
    ensures var ops := Tidied(c, d); forall k :: 0 <= k < |ops| ==> Spares(ops[k], i)
  {
    var leftover := Leftover(c.order(d.turns.Keys), Mark(d));
    LeftoverIs(c.order(d.turns.Keys), Mark(d));
    assert forall k :: 0 <= k < |leftover| ==> leftover[k] in leftover;
    DeletesSpare(leftover, i);
    var swept := Replay(d, Deletes(leftover));
    SweepFacts(c, d);
    CompactionSpares(c, swept, i);
  }

  lemma FoldingSpares(ids: seq<nat>, body: string, i: nat)
    requires ids != [] && forall k :: 0 <= k < |ids| ==> ids[k] < i
    ensures var ops := Folding(ids, body); forall k :: 0 <= k < |ops| ==> Spares(ops[k], i)
  {
    DeletesSpare(ids, i);
  }

  lemma OldestBelow(c: Config, d: Disk, i: nat)
    requires c.Valid() && i in d.turns && i > Mark(d) && forall j :: j in d.turns ==> j <= i + 1
    ensures forall k :: 0 <= k < |Oldest(c, d)| ==> Oldest(c, d)[k] < i
  {
    var ids := Unfolded(c, d);
    UnfoldedIs(c, d);
    assert forall k :: 0 <= k < |ids| ==> ids[k] in ids;
    if |ids| > c.maxTurns { FoldStopsShort(ids, c.keepTurns, i); }
  }

  lemma CompactionSpares(c: Config, d: Disk, i: nat)
    requires c.Valid() && i in d.turns && i > Mark(d) && forall j :: j in d.turns ==> j <= i + 1
    ensures var ops := Compaction(c, d); forall k :: 0 <= k < |ops| ==> Spares(ops[k], i)
  {
    var oldest := Oldest(c, d);
    OldestBelow(c, d, i);
    if oldest != [] { FoldingSpares(oldest, Refolded(c, d, oldest), i); }
  }

  function Recording(c: Config, h: History, role: Role, text: string, done: nat): History
    requires c.keepTurns < c.maxTurns
  {
    Track(h, Cut(RecordOps(c, h.disk, role, text), done))
  }

  lemma RecordingLive(c: Config, h: History, role: Role, text: string, done: nat)
    requires c.Valid()
    ensures Recording(c, h, role, text, done).live ==
            if Strip(text) == "" || done == 0 then h.live
            else h.live[Next(c, h.disk) := TurnOf(role, text)]
  {
    if Strip(text) != "" && done > 0 {
      var i, t := Next(c, h.disk), TurnOf(role, text);
      var rest := Tidied(c, Apply(h.disk, Write(i, t)));
      NextAbove(c, h.disk);
      NewestTwoStay(c, Apply(h.disk, Write(i, t)), i);
      LiveAfter(h, i, t, rest, done);
    } else {
      assert Cut(RecordOps(c, h.disk, role, text), done) == [];
    }
  }

  /** However far a record gets, the invariant holds, and its turn is live as soon as its file is written. */
  lemma RecordingKeeps(c: Config, h: History, role: Role, text: string, done: nat)
    requires c.Valid() && Conserved(h)
    ensures Conserved(Recording(c, h, role, text, done))
  {
    RecordAllowed(c, h.disk, role, text);
    AllowedCut(h.disk, RecordOps(c, h.disk, role, text), done);
    TrackKeeps(h, Cut(RecordOps(c, h.disk, role, text), done));
  }

  lemma RecordShape(c: Config, d: Disk, role: Role, text: string)
    requires c.keepTurns < c.maxTurns && Strip(text) != ""
    ensures var write := Write(Next(c, d), TurnOf(role, text));
            && RecordOps(c, d, role, text) == [write] + Tidied(c, Apply(d, write))
            && Replay(d, RecordOps(c, d, role, text)) == Replay(Apply(d, write), Tidied(c, Apply(d, write)))
  {
    var write := Write(Next(c, d), TurnOf(role, text));
    ReplayConcat(d, [write], Tidied(c, Apply(d, write)));
    assert Replay(d, [write]) == Apply(Replay(d, []), write);
  }

  lemma FreshIndex(c: Config, h: History)
    requires c.Valid() && Conserved(h)
    ensures Next(c, h.disk) !in h.live && Next(c, h.disk) !in h.disk.turns && Next(c, h.disk) > Mark(h.disk)
  {
    NextAbove(c, h.disk);
  }

  /** What one completed record leaves, its turn being number `i`. */
  ghost predicate Bounded(c: Config, d: Disk, i: nat, r: Disk) {
    match r case Disk(turns, summary) =>
      && (forall j :: j in turns ==> Mark(r) < j <= i) && |Unfolded(c, r)| <= c.maxTurns
      && (summary != d.summary ==> summary.Some? && |summary.value.body| <= c.summaryMax)
  }

  lemma TidyBounded(c: Config, d: Disk, i: nat, t: Turn, r: Disk)
    requires TidyAfter(c, Apply(d, Write(i, t)), r) && forall j :: j in d.turns ==> j < i
    ensures Bounded(c, d, i, r)
  {
  }

  lemma RecordTidies(c: Config, d: Disk, role: Role, text: string)
    requires c.Valid() && Strip(text) != ""
    ensures Bounded(c, d, Next(c, d), Replay(d, RecordOps(c, d, role, text)))
  {
    var write := Write(Next(c, d), TurnOf(role, text));
    NextAbove(c, d);
    RecordShape(c, d, role, text);
    TidiedFacts(c, Apply(d, write));
    TidyBounded(c, d, write.idx, write.turn, Replay(Apply(d, write), Tidied(c, Apply(d, write))));
  }

  lemma TidyStays(c: Config, e: Disk, i: nat)
    requires c.Valid() && i in e.turns && i > Mark(e) && forall j :: j in e.turns ==> j <= i
    ensures var r := Replay(e, Tidied(c, e)); i in r.turns && i > Mark(r)
  {
    NewestTwoStay(c, e, i);
    SparedStays(e, Tidied(c, e), i);
  }

  lemma WriteThenTidy(c: Config, d: Disk, i: nat, t: Turn)
    requires c.Valid() && i > Mark(d) && forall j :: j in d.turns ==> j < i
    ensures var e := Apply(d, Write(i, t)); var r := Replay(e, Tidied(c, e)); i in r.turns && i > Mark(r)
  {
    TidyStays(c, Apply(d, Write(i, t)), i);
  }

  lemma RecordStays(c: Config, d: Disk, role: Role, text: string)
    requires c.Valid() && Strip(text) != ""
    ensures var r := Replay(d, RecordOps(c, d, role, text)); Next(c, d) in r.turns && Next(c, d) > Mark(r)
  {
    NextAbove(c, d);
    RecordShape(c, d, role, text);
    WriteThenTidy(c, d, Next(c, d), TurnOf(role, text));
  }

  /** A completed record: its index is new to every live turn, above the watermark before and after, and the newest on
      disk; every turn left on disk is unfolded, at most `maxTurns` of them; a summary it writes is within its limit. */
  lemma CompletedRecord(c: Config, h: History, role: Role, text: string)
    requires c.Valid() && Conserved(h) && Strip(text) != ""
    ensures var i := Next(c, h.disk);
            var r := Replay(h.disk, RecordOps(c, h.disk, role, text));
            i > Mark(h.disk) && i !in h.live && i in r.turns && i > Mark(r) && Bounded(c, h.disk, i, r)
  {
    FreshIndex(c, h);
    RecordTidies(c, h.disk, role, text);
    RecordStays(c, h.disk, role, text);
  }

  // ----- what a fold writes -----

  function FoldLines(turns: map<nat, Turn>, ids: seq<nat>): seq<string>
    requires forall k :: 0 <= k < |ids| ==> ids[k] in turns
  {
    if ids == [] then [] else FoldLines(turns, ids[..|ids| - 1]) + [FoldLine(turns[ids[|ids| - 1]])]
  }

  lemma FoldLineIsOne(t: Turn)
    requires OneLine(t.preview)
    ensures OneLine(FoldLine(t)) && FoldLine(t) != ""
  {
    var head := (match t.role case User => "user" case Persona => "persona") + ": ";
    assert FoldLine(t) == head + t.preview && OneLine(head);
  }

  /** A fold takes in each folded turn as one line of its own, in order. */
  lemma {:induction false} FoldTextLines(turns: map<nat, Turn>, ids: seq<nat>)
    requires ids != [] && forall k :: 0 <= k < |ids| ==> ids[k] in turns && OneLine(turns[ids[k]].preview)
    ensures SplitLines(FoldText(turns, ids)) == FoldLines(turns, ids)
    ensures FoldText(turns, ids) != "" && !IsLineBreak(FoldText(turns, ids)[|FoldText(turns, ids)| - 1])
  {
    var line := FoldLine(turns[ids[|ids| - 1]]);
    FoldLineIsOne(turns[ids[|ids| - 1]]);
    if |ids| == 1 {
      OneLineAlone(line);
      OnlyLine(turns, ids);
    } else {
      var front := ids[..|ids| - 1];
      FoldTextLines(turns, front);
      SplitAppend(FoldText(turns, front), line);
      Assoc(FoldText(turns, front), ['\n'], line);
    }
  }

  lemma OnlyLine(turns: map<nat, Turn>, ids: seq<nat>)
    requires |ids| == 1 && ids[0] in turns
    ensures FoldLines(turns, ids) == [FoldLine(turns[ids[0]])]
  {
    assert ids[..0] == [];
  }

  /** The preview a record stores is one line, so it folds into one line. */
  lemma PreviewIsOneLine(role: Role, text: string)
    requires Strip(text) != ""
    ensures OneLine(TurnOf(role, text).preview)
  {
    var body := Strip(text);
    LinesAreSingle(body);
    assert SplitLines(body) != [] && Strip(SplitLines(body)[0]) != "" by { StripKeepsHead(SplitLines(body)[0]); }
    FactFormat.StripOneLine(SplitLines(body)[0]);
    FactFormat.StripOneLine(Preview(body));
  }

  // ----- the pair of turns of one exchange -----

  /** `Transcript.Paired`, with its history. */
  function Exchanged(c: Config, h: History, message: string, reply: string, firstCut: nat, secondCut: nat,
                     undo: bool): (r: History)
    requires c.keepTurns < c.maxTurns
    ensures r.disk == Paired(c, h.disk, message, reply, firstCut, secondCut, undo)
  {
    if Strip(reply) == "" then h
    else
      var first := Recording(c, h, User, message, firstCut);
      if firstCut < |RecordOps(c, h.disk, User, message)| then first
      else
        var second := Recording(c, first, Persona, Strip(reply), secondCut);
        if secondCut >= |RecordOps(c, first.disk, Persona, Strip(reply))| || !undo || Strip(message) == "" then second
        else Undone(second, Next(c, h.disk))
  }

  lemma {:induction false} NextIndexExact(listing: seq<nat>, mark: int)
    requires mark >= -1
    ensures NextIndex(listing, mark) == mark + 1 || NextIndex(listing, mark) - 1 in listing
  {
    if listing != [] { NextIndexExact(listing[..|listing| - 1], mark); }
  }

  lemma NextIsNewest(c: Config, d: Disk, i: nat)
    requires c.Valid() && i in d.turns && i > Mark(d) && forall j :: j in d.turns ==> j <= i
    ensures Next(c, d) == i + 1
  {
    NextAbove(c, d);
    NextIndexExact(c.order(d.turns.Keys), Mark(d));
    assert Lists(c.order(d.turns.Keys), d.turns.Keys);
  }

  /** The reply's record, however far it gets, leaves the message's turn on disk and unfolded. */
  lemma MessageStays(c: Config, d: Disk, i: nat, reply: string, done: nat)
    requires c.Valid() && Strip(reply) != "" && i in d.turns && i > Mark(d) && forall j :: j in d.turns ==> j <= i
    ensures var r := Replay(d, Cut(RecordOps(c, d, Persona, reply), done)); i in r.turns && i > Mark(r)
  {
    var write := Write(Next(c, d), TurnOf(Persona, reply));
    NextIsNewest(c, d, i);
    RecordShape(c, d, Persona, reply);
    NewestTwoStay(c, Apply(d, write), i);
    SparedCut(d, write.idx, write.turn, Tidied(c, Apply(d, write)), done, i);
  }

  /** Rolling back a live, unfolded turn keeps the invariant. */
  lemma UndoneKeeps(h: History, i: nat)
    requires Conserved(h) && i > Mark(h.disk)
    ensures Conserved(Undone(h, i))
  {
    forall k | 0 <= k < |h.folded|
      ensures h.folded[k] != i
    {
      AscendBelow(h.folded, h.folded[k]);
    }
  }

  lemma ExchangedKeeps(c: Config, h: History, message: string, reply: string, firstCut: nat, secondCut: nat, undo: bool)
    requires c.Valid() && Conserved(h)
    ensures Conserved(Exchanged(c, h, message, reply, firstCut, secondCut, undo))
  {
    var ops := RecordOps(c, h.disk, User, message);
    var first := Recording(c, h, User, message, firstCut);
    RecordingKeeps(c, h, User, message, firstCut);
    if Strip(reply) != "" && firstCut >= |ops| {
      RecordingKeeps(c, first, Persona, Strip(reply), secondCut);
      if Strip(message) != "" {
        CompletedRecord(c, h, User, message);
        StripAgain(reply);
        MessageStays(c, first.disk, Next(c, h.disk), Strip(reply), secondCut);
        UndoneKeeps(Recording(c, first, Persona, Strip(reply), secondCut), Next(c, h.disk));
      }
    }
  }

  lemma StripAgain(s: string)
    ensures Strip(Strip(s)) == Strip(s)
  {
  }

  lemma TakenBack(live: map<nat, Turn>, i: nat, u: Turn, j: nat, t: Turn)
    requires i !in live && j !in live && i != j
    ensures live[i := u] - {i} == live && live[i := u][j := t] - {i} == live[j := t] && live[j := t] != live
  {
    assert j in live[j := t];
  }

  /** A reply whose record fails, rolled back, leaves the transcript's turns as they were exactly when nothing of the
      reply's own turn reached the disk; when it failed later, the reply's turn stays without its message. */
  lemma PairRollback(c: Config, h: History, message: string, reply: string, firstCut: nat, secondCut: nat)
    requires c.Valid() && Conserved(h) && Strip(message) != "" && Strip(reply) != ""
    requires firstCut >= |RecordOps(c, h.disk, User, message)|
    requires secondCut < |RecordOps(c, Recording(c, h, User, message, firstCut).disk, Persona, Strip(reply))|
    ensures var r := Exchanged(c, h, message, reply, firstCut, secondCut, true);
            var j := Next(c, Recording(c, h, User, message, firstCut).disk);
            && r.live == (if secondCut == 0 then h.live else h.live[j := TurnOf(Persona, Strip(reply))])
            && (r.live == h.live <==> secondCut == 0)
  {
    var first := Recording(c, h, User, message, firstCut);
    RecordingLive(c, h, User, message, firstCut);
    RecordingLive(c, first, Persona, Strip(reply), secondCut);
    CompletedRecord(c, h, User, message);
    RecordingKeeps(c, h, User, message, firstCut);
    StripAgain(reply);
    CompletedRecord(c, first, Persona, Strip(reply));
    TakenBack(h.live, Next(c, h.disk), TurnOf(User, message), Next(c, first.disk), TurnOf(Persona, Strip(reply)));
  }

  // ----- runs -----

  /** One call: a record that stops after `done` file operations, or an exchange. */
  datatype Event =
    | Spoken(role: Role, text: string, done: nat)
    | Exchange(message: string, reply: string, firstCut: nat, secondCut: nat, undo: bool)

  function After(c: Config, h: History, e: Event): History
    requires c.keepTurns < c.maxTurns
  {
    match e
    case Spoken(role, text, done) => Recording(c, h, role, text, done)
    case Exchange(message, reply, firstCut, secondCut, undo) =>
      Exchanged(c, h, message, reply, firstCut, secondCut, undo)
  }

  const EMPTY := History(Disk(map[], None), map[], [])

  function Run(c: Config, es: seq<Event>): History
    requires c.keepTurns < c.maxTurns
  {
    if es == [] then EMPTY else After(c, Run(c, es[..|es| - 1]), es[|es| - 1])
  }

  lemma {:induction false} RunKeeps(c: Config, es: seq<Event>)
    requires c.Valid()
    ensures Conserved(Run(c, es))
  {
    if es != [] {
      RunKeeps(c, es[..|es| - 1]);
      var h := Run(c, es[..|es| - 1]);
      match es[|es| - 1]
      case Spoken(role, text, done) => RecordingKeeps(c, h, role, text, done);
      case Exchange(message, reply, firstCut, secondCut, undo) =>
        ExchangedKeeps(c, h, message, reply, firstCut, secondCut, undo);
    }
  }

  lemma ConservedMeans(c: Config, h: History)
    requires c.Valid() && Conserved(h)
    ensures Ascending(Unfolded(c, h.disk))
    ensures forall i :: i in h.live <==> i in h.folded || i in Unfolded(c, h.disk)
    ensures forall i :: i in Unfolded(c, h.disk) ==> i !in h.folded && i in h.disk.turns && h.disk.turns[i] == h.live[i]
  {
    UnfoldedIs(c, h.disk);
    forall i | i in h.folded
      ensures i in h.live && i <= Mark(h.disk)
    {
      AscendBelow(h.folded, i);
    }
  }

  /** In every run of records, crashes between file operations, failed writes and rollbacks: a recorded turn not rolled
      back is replayed as it was recorded, or was folded once, and never both; replay shows nothing else, in order. */
  lemma TranscriptConserved(c: Config, es: seq<Event>)
    requires c.Valid()
    ensures var h := Run(c, es);
            && Ascending(h.folded) && Ascending(Unfolded(c, h.disk))
            && (forall i :: i in h.live <==> i in h.folded || i in Unfolded(c, h.disk))
            && (forall i :: i in Unfolded(c, h.disk) ==>
                i !in h.folded && i in h.disk.turns && h.disk.turns[i] == h.live[i])
  {
    RunKeeps(c, es);
    ConservedMeans(c, Run(c, es));
  }

  // ----- an exchange that is not rolled back whole -----

  /** Only turns `0` to `n - 1` are on disk and nothing has been folded. */
  ghost predicate Plain(d: Disk, n: nat) { d.summary.None? && forall i: nat :: i in d.turns <==> i < n }

  function Upto(n: nat): (ids: seq<nat>)
    ensures |ids| == n && forall k :: 0 <= k < n ==> ids[k] == k
  {
    if n == 0 then [] else Upto(n - 1) + [n - 1]
  }

  lemma PlainUnfolded(c: Config, d: Disk, n: nat)
    requires c.Valid() && Plain(d, n)
    ensures Unfolded(c, d) == Upto(n) && Leftover(c.order(d.turns.Keys), Mark(d)) == []
  {
    UnfoldedIs(c, d);
    forall i: nat | i < n
      ensures i in Upto(n)
    {
      assert Upto(n)[i] == i;
    }
    AscendUnique(Unfolded(c, d), Upto(n));
    var left := Leftover(c.order(d.turns.Keys), Mark(d));
    LeftoverIs(c.order(d.turns.Keys), Mark(d));
    HasFirst(left);
  }

  /** Tidying such a disk writes nothing exactly when it holds no more than `maxTurns` turns. */
  lemma PlainTidied(c: Config, d: Disk, n: nat)
    requires c.Valid() && Plain(d, n)
    ensures Tidied(c, d) == [] <==> n <= c.maxTurns
  {
    PlainUnfolded(c, d, n);
    assert Replay(d, []) == d;
  }

  lemma PlainNext(c: Config, d: Disk, n: nat)
    requires c.Valid() && Plain(d, n)
    ensures Next(c, d) == n
  {
    if n > 0 {
      NextIsNewest(c, d, n - 1);
    } else {
      NextAbove(c, d);
      NextIndexExact(c.order(d.turns.Keys), Mark(d));
      assert Lists(c.order(d.turns.Keys), d.turns.Keys);
    }
  }

  /** A record on such a disk is its turn's file alone exactly while `maxTurns` is not exceeded. */
  lemma PlainRecord(c: Config, h: History, n: nat, role: Role, text: string)
    requires c.Valid() && Plain(h.disk, n) && Strip(text) != ""
    ensures |RecordOps(c, h.disk, role, text)| == 1 <==> n < c.maxTurns
    ensures Plain(Recording(c, h, role, text, 1).disk, n + 1)
  {
    var write := Write(n, TurnOf(role, text));
    var ops := RecordOps(c, h.disk, role, text);
    PlainNext(c, h.disk, n);
    PlainTidied(c, Apply(h.disk, write), n + 1);
    assert Cut(ops, 1) == [write];
    assert Replay(h.disk, [write]) == Apply(Replay(h.disk, []), write);
  }

  lemma RunSnoc(c: Config, es: seq<Event>, e: Event, h: History)
    requires c.keepTurns < c.maxTurns && h == Run(c, es)
    ensures Run(c, es + [e]) == After(c, h, e)
  {
    Snoc(es, e);
  }

  lemma OneMore(c: Config, es: seq<Event>, h: History, n: nat, text: string) returns (fs: seq<Event>, r: History)
    requires c.Valid() && Strip(text) != "" && h == Run(c, es) && Plain(h.disk, n) && Conserved(h)
    ensures r == Run(c, fs) && Plain(r.disk, n + 1) && Conserved(r)
  {
    fs, r := es + [Spoken(User, text, 1)], Recording(c, h, User, text, 1);
    RunSnoc(c, es, Spoken(User, text, 1), h);
    PlainRecord(c, h, n, User, text);
    RecordingKeeps(c, h, User, text, 1);
  }

  /** The run that records a message `n` times. */
  lemma {:induction false} Filled(c: Config, text: string, n: nat) returns (es: seq<Event>, h: History)
    requires c.Valid() && Strip(text) != ""
    ensures h == Run(c, es) && Plain(h.disk, n) && Conserved(h)
  {
    if n == 0 {
      es, h := [], EMPTY;
    } else {
      es, h := Filled(c, text, n - 1);
      es, h := OneMore(c, es, h, n - 1, text);
    }
  }

  lemma SentWhole(c: Config, h: History, n: nat, message: string) returns (first: History)
    requires c.Valid() && Conserved(h) && Plain(h.disk, n) && n + 1 == c.maxTurns && Strip(message) != ""
    ensures first == Recording(c, h, User, message, 1) && Conserved(first) && Plain(first.disk, n + 1)
    ensures Next(c, h.disk) == n && |RecordOps(c, h.disk, User, message)| == 1 && Next(c, first.disk) == n + 1
  {
    first := Recording(c, h, User, message, 1);
    PlainNext(c, h.disk, n);
    PlainRecord(c, h, n, User, message);
    RecordingKeeps(c, h, User, message, 1);
    PlainNext(c, first.disk, n + 1);
  }

  lemma ReplyCutShort(c: Config, first: History, n: nat, reply: string)
    requires c.Valid() && Conserved(first) && Plain(first.disk, n) && n == c.maxTurns && Strip(reply) != ""
    ensures |RecordOps(c, first.disk, Persona, Strip(reply))| > 1 && n !in first.live
    ensures Plain(Recording(c, first, Persona, Strip(reply), 1).disk, n + 1)
  {
    StripAgain(reply);
    PlainNext(c, first.disk, n);
    FreshIndex(c, first);
    PlainRecord(c, first, n, Persona, Strip(reply));
    RecordShape(c, first.disk, Persona, Strip(reply));
  }

  /** On disk the rollback takes the message's turn alone. */
  lemma UndoneDisk(h: History, i: nat, n: nat)
    requires Plain(h.disk, n) && i + 1 < n
    ensures i !in Undone(h, i).disk.turns && i + 1 in Undone(h, i).disk.turns && i !in Undone(h, i).live
  {
  }

  lemma ExchangeUndone(c: Config, h: History, message: string, reply: string)
    requires c.keepTurns < c.maxTurns && Strip(message) != "" && Strip(reply) != ""
    requires |RecordOps(c, h.disk, User, message)| == 1
    requires |RecordOps(c, Recording(c, h, User, message, 1).disk, Persona, Strip(reply))| > 1
    ensures Exchanged(c, h, message, reply, 1, 1, true) ==
            Undone(Recording(c, Recording(c, h, User, message, 1), Persona, Strip(reply), 1), Next(c, h.disk))
  {
  }

  /** What the rollback leaves of an exchange begun at turn `n`: the reply's turn, live and on disk, and no message. */
  ghost predicate HalfUndone(before: map<nat, Turn>, n: nat, t: Turn, r: History) {
    && n !in r.live && n !in r.disk.turns
    && n + 1 !in before && r.live == before[n + 1 := t] && n + 1 in r.disk.turns
  }

  lemma HalfPair(c: Config, h: History, n: nat, message: string, reply: string)
    requires c.Valid() && Conserved(h) && Plain(h.disk, n) && n + 1 == c.maxTurns
    requires Strip(message) != "" && Strip(reply) != ""
    ensures HalfUndone(h.live, n, TurnOf(Persona, Strip(reply)), Exchanged(c, h, message, reply, 1, 1, true))
  {
    var first := SentWhole(c, h, n, message);
    ReplyCutShort(c, first, n + 1, reply);
    RecordingLive(c, h, User, message, 1);
    ExchangeUndone(c, h, message, reply);
    UndoneDisk(Recording(c, first, Persona, Strip(reply), 1), n, n + 2);
    PairRollback(c, h, message, reply, 1, 1);
  }

  lemma ExchangeNext(c: Config, es: seq<Event>, h: History, message: string, reply: string)
    requires c.keepTurns < c.maxTurns && h == Run(c, es)
    ensures Run(c, es + [Exchange(message, reply, 1, 1, true)]) == Exchanged(c, h, message, reply, 1, 1, true)
  {
    RunSnoc(c, es, Exchange(message, reply, 1, 1, true), h);
  }

  /** The failing case of `PairRollback` occurs under every configuration, with any texts: after a run that leaves `n`
      turns on disk, one less than `maxTurns`, the message's record is whole with its turn's file, the reply's fails
      after its own, before the fold that is due. */
  lemma ReplyWithoutMessage(c: Config, n: nat, text: string, message: string, reply: string)
    returns (es: seq<Event>, h: History)
    requires c.Valid() && n + 1 == c.maxTurns && Strip(text) != "" && Strip(message) != "" && Strip(reply) != ""
    ensures h == Run(c, es) && |RecordOps(c, h.disk, User, message)| == 1
    ensures HalfUndone(h.live, n, TurnOf(Persona, Strip(reply)),
                       Run(c, es + [Exchange(message, reply, 1, 1, true)]))
  {
    es, h := Filled(c, text, n);
    var _ := SentWhole(c, h, n, message);
    HalfPair(c, h, n, message, reply);
    ExchangeNext(c, es, h, message, reply);
  }
}
