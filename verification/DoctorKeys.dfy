/** The interactive Doctor, key by key: what a focus resolves to, where the cursor goes, what runs and what follows. */
module DoctorKeys {
  import opened PyText
  import opened Doctor
  import opened DoctorLoop

  // ----- what a focus resolves to -----

  /** The row is about the focused probe: it is paired with a probe of that id, or its fix declares the id. */
  predicate AboutProbe(s: Snapshot, r: Row, focus: string) {
    || r.fix.value.probeId == focus
    || (r.probeIndex.Some? && r.probeIndex.value < |s.probes| &&
        exists k :: 0 <= k < |s.probes| && s.probes[k].probeId == focus &&
                    s.probes[k].ref == s.probes[r.probeIndex.value].ref)
  }

  /** `k` is the first row that passes. */
  ghost predicate First(rows: seq<Row>, k: nat, passes: Row -> bool) {
    k < |rows| && passes(rows[k]) && forall j :: 0 <= j < k ==> !passes(rows[j])
  }

  predicate SharedProbe(s: Snapshot, focus: string) {
    exists i, j :: 0 <= i < j < |s.probes| && s.probes[i].probeId == focus && s.probes[j].probeId == focus
  }

  predicate SharedRemedy(s: Snapshot, focus: string) {
    exists i, j :: 0 <= i < j < |s.fixes| && s.fixes[i].value.remedyId == focus && s.fixes[j].value.remedyId == focus
  }

  predicate NamesRemedy(s: Snapshot, focus: string) {
    exists i :: 0 <= i < |s.fixes| && s.fixes[i].value.remedyId == focus
  }

  predicate NamesProbe(s: Snapshot, focus: string) {
    || (exists i :: 0 <= i < |s.probes| && s.probes[i].probeId == focus)
    || (exists i :: 0 <= i < |s.fixes| && s.fixes[i].value.probeId == focus)
  }

  lemma {:induction false} RemediesCount(fixes: seq<Fix>, focus: string)
    ensures Remedies(fixes, focus) == 0 <==> forall i :: 0 <= i < |fixes| ==> fixes[i].value.remedyId != focus
    ensures Remedies(fixes, focus) > 1 <==>
            exists i, j :: 0 <= i < j < |fixes| && fixes[i].value.remedyId == focus && fixes[j].value.remedyId == focus
  {
    if fixes != [] {
      var front, n := fixes[..|fixes| - 1], |fixes| - 1;
      RemediesCount(front, focus);
      assert forall i :: 0 <= i < n ==> front[i] == fixes[i];
      if fixes[n].value.remedyId == focus && Remedies(front, focus) > 0 {
        var i: nat :| i < n && front[i].value.remedyId == focus;
        assert fixes[i].value.remedyId == focus;
      }
    }
  }

  lemma NamedShared(s: Snapshot, focus: string)
    ensures var named := Claimants(s.probes, focus, |s.probes|);
            && (|named| > 1 <==> SharedProbe(s, focus))
            && (named != [] <==> exists i :: 0 <= i < |s.probes| && s.probes[i].probeId == focus)
            && (named != [] ==> named[0] < |s.probes| && s.probes[named[0]].probeId == focus)
  {
    var named := Claimants(s.probes, focus, |s.probes|);
    ClaimantsAre(s.probes, focus, |s.probes|);
    if named != [] { assert named[0] in named; }
    if |named| > 1 {
      assert named[0] in named && named[1] in named && named[0] != named[1];
    }
    if SharedProbe(s, focus) {
      var i: nat, j: nat :| i < j < |s.probes| && s.probes[i].probeId == focus && s.probes[j].probeId == focus;
      assert i in named && j in named;
    }
  }

  lemma AboutProbeIs(s: Snapshot, r: Row, focus: string)
    requires !SharedProbe(s, focus)
    ensures var named := Claimants(s.probes, focus, |s.probes|);
            var target := if named != [] && named[0] < |s.probes| then Some(s.probes[named[0]]) else None;
            ForProbe(s.probes, r, target, focus) <==> AboutProbe(s, r, focus)
  {
    NamedShared(s, focus);
  }

  /** A runnable row shows one of the fixes. */
  lemma RowFix(s: Snapshot, k: nat)
    requires k < |Runnable(s)|
    ensures exists i :: 0 <= i < |s.fixes| && s.fixes[i] == Runnable(s)[k].fix
  {
    var rows := Paired(s.probes, s.fixes);
    var i: nat :| i < |rows| && rows[i] == Runnable(s)[k];
    RowsNumbered(s.probes, s.fixes, i);
    assert s.fixes[i] == Runnable(s)[k].fix;
  }

  lemma RowNames(s: Snapshot, k: nat, focus: string)
    requires k < |Runnable(s)| && AboutProbe(s, Runnable(s)[k], focus)
    ensures NamesProbe(s, focus)
  {
    RowFix(s, k);
  }

  /** What the resolution looks at, spelled out. */
  lemma FocusFacts(s: Snapshot, focus: string)
    ensures var named := Claimants(s.probes, focus, |s.probes|);
            var claimed := named != [] || FixNames(s.fixes, focus);
            var target := if named != [] && named[0] < |s.probes| then Some(s.probes[named[0]]) else None;
            && (|named| > 1 <==> SharedProbe(s, focus)) && (claimed <==> NamesProbe(s, focus))
            && (Remedies(s.fixes, focus) > 1 <==> SharedRemedy(s, focus))
            && (Remedies(s.fixes, focus) > 0 <==> NamesRemedy(s, focus))
            && (!SharedProbe(s, focus) ==>
                  forall k :: 0 <= k < |Runnable(s)| ==>
                    (claimed && ForProbe(s.probes, Runnable(s)[k], target, focus) <==>
                     AboutProbe(s, Runnable(s)[k], focus)))
  {
    NamedShared(s, focus);
    RemediesCount(s.fixes, focus);
    if !SharedProbe(s, focus) {
      forall k | 0 <= k < |Runnable(s)|
        ensures AboutProbe(s, Runnable(s)[k], focus) ==> NamesProbe(s, focus)
      {
        if AboutProbe(s, Runnable(s)[k], focus) { RowNames(s, k, focus); }
        AboutProbeIs(s, Runnable(s)[k], focus);
      }
    }
  }

  predicate OnProbe(s: Snapshot, focus: string) {
    exists k :: 0 <= k < |Runnable(s)| && AboutProbe(s, Runnable(s)[k], focus)
  }

  predicate OnRemedy(s: Snapshot, focus: string) {
    exists k :: 0 <= k < |Runnable(s)| && Runnable(s)[k].fix.value.remedyId == focus
  }

  lemma ResolvesByProbe(s: Snapshot, focus: string)
    requires focus != "" && !SharedProbe(s, focus) && OnProbe(s, focus)
    ensures var c := Focused(s, focus);
            c.state == Some(Matched) && c.identity == Some(focus) && c.row.Some? &&
            First(Runnable(s), c.row.value, (r: Row) => AboutProbe(s, r, focus))
  {
    FocusFacts(s, focus);
  }

  lemma ResolvesByRemedy(s: Snapshot, focus: string)
    requires focus != "" && !SharedProbe(s, focus) && !OnProbe(s, focus) && !SharedRemedy(s, focus)
    requires NamesRemedy(s, focus) && OnRemedy(s, focus)
    ensures var c := Focused(s, focus);
            c.state == Some(Matched) && c.identity == Some(focus) && c.row.Some? &&
            First(Runnable(s), c.row.value, (r: Row) => r.fix.value.remedyId == focus)
  {
    FocusFacts(s, focus);
  }

  lemma ResolvesToNone(s: Snapshot, focus: string)
    requires focus != "" && (SharedProbe(s, focus) || !OnProbe(s, focus))
    requires SharedProbe(s, focus) || SharedRemedy(s, focus) || !NamesRemedy(s, focus) || !OnRemedy(s, focus)
    ensures Focused(s, focus) ==
            Decision(None, None, Some(if SharedProbe(s, focus) || SharedRemedy(s, focus) then Ambiguous
                                      else if NamesProbe(s, focus) || NamesRemedy(s, focus) then Present else Unknown))
  {
    FocusFacts(s, focus);
  }

  /** A focus resolves to the first runnable row about its probe; failing that to the first with its remedy id. An id
      two probes have, or that is left to two remedies, selects nothing; a rendered target nothing runnable carries is
      "present"; anything else is unknown. */
  lemma FocusResolves(s: Snapshot, focus: string)
    requires focus != ""
    ensures var c, rows := Focused(s, focus), Runnable(s);
            if !SharedProbe(s, focus) && OnProbe(s, focus) then
              c.state == Some(Matched) && c.identity == Some(focus) && c.row.Some? &&
              First(rows, c.row.value, (r: Row) => AboutProbe(s, r, focus))
            else if !SharedProbe(s, focus) && !SharedRemedy(s, focus) && NamesRemedy(s, focus) &&
              OnRemedy(s, focus) then
              c.state == Some(Matched) && c.identity == Some(focus) && c.row.Some? &&
              First(rows, c.row.value, (r: Row) => r.fix.value.remedyId == focus)
            else c == Decision(None, None, Some(if SharedProbe(s, focus) || SharedRemedy(s, focus) then Ambiguous
                                                else if NamesProbe(s, focus) || NamesRemedy(s, focus) then Present
                                                else Unknown))
  {
    if !SharedProbe(s, focus) && OnProbe(s, focus) {
      ResolvesByProbe(s, focus);
    } else if !SharedProbe(s, focus) && !SharedRemedy(s, focus) && NamesRemedy(s, focus) && OnRemedy(s, focus) {
      ResolvesByRemedy(s, focus);
    } else {
      ResolvesToNone(s, focus);
    }
  }

  // ----- the runnable rows -----

  /** `r` is the elements of `s` at these places. */
  ghost predicate Picks<T>(s: seq<T>, ks: seq<nat>, r: seq<T>) {
    |ks| == |r| && forall i :: 0 <= i < |ks| ==> ks[i] < |s| && r[i] == s[ks[i]]
  }

  lemma PicksMore<T>(s: seq<T>, ks: seq<nat>, r: seq<T>)
    requires s != [] && Picks(s[..|s| - 1], ks, r)
    ensures Picks(s, ks, r) && Picks(s, ks + [|s| - 1], r + [s[|s| - 1]])
  {
    assert forall i :: 0 <= i < |ks| ==> s[..|s| - 1][ks[i]] == s[ks[i]];
  }

  lemma RunnableSnoc(rows: seq<Row>)
    requires rows != []
    ensures var front, last := RunnableIn(rows[..|rows| - 1]), rows[|rows| - 1];
            RunnableIn(rows) == if last.kind != DisplayOnly then front + [last] else front
  {
  }

  /** `ks` are the places of the rows that do something. */
  ghost predicate Places(rows: seq<Row>, ks: seq<nat>) {
    Ascending(ks) && forall k: nat :: k in ks <==> k < |rows| && rows[k].kind != DisplayOnly
  }

  lemma AscendingMore(ks: seq<nat>, n: nat)
    requires Ascending(ks) && forall k :: k in ks ==> k < n
    ensures Ascending(ks + [n])
  {
    forall i | 0 <= i < |ks| ensures ks[i] < n { assert ks[i] in ks; }
  }

  lemma PlacesMore(rows: seq<Row>, n: nat, ks: seq<nat>)
    requires |rows| == n + 1 && Places(rows[..n], ks)
    ensures Places(rows, if rows[n].kind != DisplayOnly then ks + [n] else ks)
  {
    AscendingMore(ks, n);
    forall k: nat
      ensures k in ks <==> k < n && rows[k].kind != DisplayOnly
    {
      if k < n { assert rows[..n][k] == rows[k]; }
    }
  }

  /** The dispatch list is the rows that do something, in order. */
  lemma {:induction false} RunnableIs(rows: seq<Row>) returns (ks: seq<nat>)
    ensures Picks(rows, ks, RunnableIn(rows)) && Ascending(ks)
    ensures forall k: nat :: k in ks <==> k < |rows| && rows[k].kind != DisplayOnly
  {
    ks := [];
    if rows != [] {
      var n := |rows| - 1;
      var before := RunnableIs(rows[..n]);
      PicksMore(rows, before, RunnableIn(rows[..n]));
      RunnableSnoc(rows);
      PlacesMore(rows, n, before);
      ks := if rows[n].kind != DisplayOnly then before + [n] else before;
    }
  }

  // ----- keeping a selection -----

  /** `at` is the only row that passes, if there is exactly one. */
  ghost predicate SoleIs(rows: seq<Row>, passes: Row -> bool, at: Option<nat>) {
    match at case Some(k) => Sole(rows, passes, k) case None => forall k :: !Sole(rows, passes, k)
  }

  lemma {:induction false} MatchesAscend(rows: seq<Row>, wanted: Row -> bool)
    ensures Ascending(Matches(rows, wanted)) && forall k: nat :: k in Matches(rows, wanted) <==>
            k < |rows| && wanted(rows[k])
  {
    if rows != [] {
      var front := Matches(rows[..|rows| - 1], wanted);
      MatchesAscend(rows[..|rows| - 1], wanted);
      assert forall i :: 0 <= i < |front| ==> front[i] in front;
    }
  }

  lemma UniqueRowExactly(rows: seq<Row>, wanted: Row -> bool, passes: Row -> bool)
    requires forall k :: 0 <= k < |rows| ==> (wanted(rows[k]) <==> passes(rows[k]))
    ensures SoleIs(rows, passes, UniqueRow(rows, wanted))
  {
    var all := Matches(rows, wanted);
    MatchesAscend(rows, wanted);
    if |all| == 1 {
      assert all[0] in all;
    } else {
      forall k | Sole(rows, passes, k) ensures false {
        assert k in all;
        SecondElsewhere(all, k);
      }
    }
  }

  lemma SecondElsewhere(all: seq<nat>, k: nat)
    requires Ascending(all) && k in all && |all| != 1
    ensures exists j :: j in all && j != k
  {
    if all[0] != k { assert all[0] in all; } else { assert all[1] in all && all[1] != k; }
  }

  /** The row's probe is this one, object for object; or neither has one. */
  predicate SameProbe(s: Snapshot, r: Row, p: Option<Probe>) {
    if r.probeIndex.Some? && r.probeIndex.value < |s.probes|
    then p.Some? && p.value.ref == s.probes[r.probeIndex.value].ref else p.None?
  }

  /** The row's probe has the same contents; or neither has one. */
  predicate LikeProbe(s: Snapshot, r: Row, p: Option<Probe>) {
    if r.probeIndex.Some? && r.probeIndex.value < |s.probes|
    then
      p.Some? &&
      var q := s.probes[r.probeIndex.value];
      && p.value.name == q.name && p.value.level == q.level && p.value.detail == q.detail
      && p.value.probeId == q.probeId && p.value.revision == q.revision
      && (p.value.fix.None? <==> q.fix.None?)
      && (p.value.fix.Some? && q.fix.Some? ==> p.value.fix.value.value == q.fix.value.value)
    else p.None?
  }

  predicate OfProbeId(s: Snapshot, r: Row, id: string) {
    || r.fix.value.probeId == id
    || (r.probeIndex.Some? && r.probeIndex.value < |s.probes| && s.probes[r.probeIndex.value].probeId == id)
  }

  lemma ByProbeId(s: Snapshot, id: string) returns (at: Option<nat>)
    ensures at == UniqueRow(Runnable(s), (r: Row) => HasProbeId(s.probes, r, id))
    ensures SoleIs(Runnable(s), (r: Row) => OfProbeId(s, r, id), at)
  {
    at := UniqueRow(Runnable(s), (r: Row) => HasProbeId(s.probes, r, id));
    UniqueRowExactly(Runnable(s), (r: Row) => HasProbeId(s.probes, r, id), (r: Row) => OfProbeId(s, r, id));
  }

  lemma ByObjects(s: Snapshot, p: Picked) returns (at: Option<nat>)
    ensures at == UniqueRow(Runnable(s), (r: Row) => SameObjects(s.probes, r, p))
    ensures SoleIs(Runnable(s), (r: Row) => r.fix.ref == p.fix.ref && SameProbe(s, r, p.probe), at)
  {
    at := UniqueRow(Runnable(s), (r: Row) => SameObjects(s.probes, r, p));
    UniqueRowExactly(Runnable(s), (r: Row) => SameObjects(s.probes, r, p),
                     (r: Row) => r.fix.ref == p.fix.ref && SameProbe(s, r, p.probe));
  }

  lemma ByValues(s: Snapshot, p: Picked) returns (at: Option<nat>)
    ensures at == UniqueRow(Runnable(s), (r: Row) => EqualValues(s.probes, r, p))
    ensures SoleIs(Runnable(s), (r: Row) => r.fix.value == p.fix.value && LikeProbe(s, r, p.probe), at)
  {
    at := UniqueRow(Runnable(s), (r: Row) => EqualValues(s.probes, r, p));
    UniqueRowExactly(Runnable(s), (r: Row) => EqualValues(s.probes, r, p),
                     (r: Row) => r.fix.value == p.fix.value && LikeProbe(s, r, p.probe));
  }

  lemma ByRemedyId(s: Snapshot, p: Picked) returns (at: Option<nat>)
    ensures at == UniqueRow(Runnable(s), (r: Row) => r.fix.value.remedyId == p.fix.value.remedyId)
    ensures SoleIs(Runnable(s), (r: Row) => r.fix.value.remedyId == p.fix.value.remedyId, at)
  {
    at := UniqueRow(Runnable(s), (r: Row) => r.fix.value.remedyId == p.fix.value.remedyId);
    UniqueRowExactly(Runnable(s), (r: Row) => r.fix.value.remedyId == p.fix.value.remedyId,
                     (r: Row) => r.fix.value.remedyId == p.fix.value.remedyId);
  }

  /** After a rebuild the selection goes to the one row with the remedy id of what was run, if it has one; else to the
      one row with its probe id, if there is one; else to the one with its very objects; else to the one that equals it;
      else nowhere. */
  lemma PreservedExactly(s: Snapshot, p: Picked, id: string)
    returns (byRemedy: Option<nat>, byProbe: Option<nat>, byObject: Option<nat>, byValue: Option<nat>)
    requires id == if p.probe.Some? && p.probe.value.probeId != "" then p.probe.value.probeId else p.fix.value.probeId
    ensures var rows := Runnable(s);
            && SoleIs(rows, (r: Row) => r.fix.value.remedyId == p.fix.value.remedyId, byRemedy)
            && SoleIs(rows, (r: Row) => OfProbeId(s, r, id), byProbe)
            && SoleIs(rows, (r: Row) => r.fix.ref == p.fix.ref && SameProbe(s, r, p.probe), byObject)
            && SoleIs(rows, (r: Row) => r.fix.value == p.fix.value && LikeProbe(s, r, p.probe), byValue)
    ensures Preserved(s, p) ==
            if p.fix.value.remedyId != "" && byRemedy.Some? then byRemedy
            else if id != "" && byProbe.Some? then byProbe
            else if byObject.Some? then byObject
            else byValue
  {
    byRemedy := ByRemedyId(s, p);
    byProbe := ByProbeId(s, id);
    byObject := ByObjects(s, p);
    byValue := ByValues(s, p);
  }

  // ----- key by key -----

  /** What a frame says: the row under the cursor if one shows, the focus's verdict, and a match only where the cursor
      is on the row the focus resolved to. */
  predicate Says(u: Setup, d: Session) {
    var c := Focused(u.world(d.build), u.focus);
    && d.frame.build == d.build && d.frame.state == c.state
    && d.frame.selected == (if Rows(u, d.build) != [] && d.visible then Some(d.sel) else None)
    && d.frame.matched == (if c.state == Some(Matched) && c.row.Some? && d.frame.selected == c.row then c.identity
                           else None)
  }

  /** The cursor shows where there are rows, unless nothing was chosen and the focus names something not runnable. */
  predicate Visible(u: Setup, d: Session) {
    var c := Focused(u.world(d.build), u.focus);
    Rows(u, d.build) != [] && (d.explicit || c.row.Some? || c.state == Some(Ambiguous) || c.state == Some(Unknown))
  }

  lemma PaintedSays(u: Setup, d: Session)
    requires Painted(u, d)
    ensures Says(u, d) && d.visible == Visible(u, d)
  {
  }

  /** A painted session on this report, its cursor on row `k`. */
  predicate On(u: Setup, n: Session, build: nat, k: nat) {
    && n.open && n.build == build && n.sel == k && n.visible && n.frame.build == build && n.frame.selected == Some(k)
  }

  /** Doctor opens with the cursor on the row the focus resolves to, else on the first. */
  lemma OpensOn(u: Setup, build: nat)
    ensures var d, c := Opened(u, build), Focused(u.world(build), u.focus);
            && d.open && d.build == build && d.log == [] && !d.explicit && Painted(u, d) && Says(u, d)
            && d.visible == Visible(u, d)
            && (Rows(u, build) != [] ==> d.sel == if c.row.Some? then c.row.value else 0)
  {
    ToppedPainted(u, Session(build, 0, false, true, false, None, true, Frame(build, None, None, None), true, []));
  }

  /** Leaving, and the keys that do nothing. */
  lemma QuietKeys(u: Setup, d: Session, e: Event)
    requires d.open && Painted(u, d)
    ensures var n := After(u, d, e);
            && (e.key == Quit ==> !n.open && n.log == d.log)
            && (Rows(u, d.build) != [] && (e.key == Key.Inert ||
                                           (e.key.Digit? && !(1 <= e.key.n <= |Rows(u, d.build)|))) ==>
                  n == d)
  {
    ArrangedStill(u, d);
  }

  /** With nothing to run any key but quit rebuilds the report, and ends the session where that fails. */
  lemma RebuildKey(u: Setup, d: Session, e: Event)
    requires d.open && Painted(u, d) && Rows(u, d.build) == [] && e.key != Quit
    ensures var n := After(u, d, e);
            && n.log == d.log && (n.open <==> e.outcome.Rebuilt?)
            && (n.open ==> n.build == e.outcome.build && !n.explicit && Says(u, n) && n.visible == Visible(u, n))
  {
    if e.outcome.Rebuilt? {
      var r := Refreshed(d, e.outcome);
      ToppedPainted(u, r);
      PaintedSays(u, Topped(u, r));
    }
  }

  /** Repainting the same report keeps the cursor. */
  lemma Repainted(u: Setup, d: Session, r: Session)
    requires Painted(u, d) && Rows(u, d.build) != [] && r.build == d.build && r.sel < |Rows(u, d.build)| && r.dirty
    requires !r.pending && r.anchor.None? && r.open && r.explicit
    ensures On(u, Topped(u, r), d.build, r.sel) && Topped(u, r).log == r.log && Topped(u, r).explicit
  {
    PlacedStill(u, r);
  }

  /** Where no row is selected, the first move or Enter only shows the cursor. */
  lemma RevealKey(u: Setup, d: Session, e: Event)
    requires d.open && Painted(u, d) && Rows(u, d.build) != [] && !d.visible && e.key in {Up, Down, Enter}
    ensures var n := After(u, d, e); On(u, n, d.build, d.sel) && n.log == d.log
  {
    Repainted(u, d, d.(explicit := true, dirty := true));
  }

  lemma Wraps(k: nat, n: nat)
    requires k < n
    ensures (k + n - 1) % n == (if k == 0 then n - 1 else k - 1) && (k + 1) % n == (if k == n - 1 then 0 else k + 1)
  {
  }

  /** Moving the cursor to row `k`. */
  lemma Moved(u: Setup, d: Session, e: Event, k: nat)
    requires d.open && Painted(u, d) && k < |Rows(u, d.build)|
    requires Pressed(u, d, e) == Chosen(d, k).(dirty := true)
    ensures var n := After(u, d, e); On(u, n, d.build, k) && n.log == d.log
  {
    Repainted(u, d, Chosen(d, k).(dirty := true));
  }

  /** Up moves the cursor up by one, round the ends, and runs nothing. */
  lemma UpKey(u: Setup, d: Session, e: Event)
    requires d.open && Painted(u, d) && Rows(u, d.build) != [] && d.visible && e.key == Up
    ensures var n, count := After(u, d, e), |Rows(u, d.build)|;
            n.log == d.log && On(u, n, d.build, if d.sel == 0 then count - 1 else d.sel - 1)
  {
    var count := |Rows(u, d.build)|;
    Wraps(d.sel, count);
    Moved(u, d, e, (d.sel + count - 1) % count);
  }

  /** Down moves it down. */
  lemma DownKey(u: Setup, d: Session, e: Event)
    requires d.open && Painted(u, d) && Rows(u, d.build) != [] && d.visible && e.key == Down
    ensures var n, count := After(u, d, e), |Rows(u, d.build)|;
            n.log == d.log && On(u, n, d.build, if d.sel == count - 1 then 0 else d.sel + 1)
  {
    var count := |Rows(u, d.build)|;
    Wraps(d.sel, count);
    Moved(u, d, e, (d.sel + 1) % count);
  }

  /** What one run leads to: the session over, or back on the same row, or on the rebuilt report with the selection kept
      as `PreservedExactly` has it, else on the first row, and only the focus deciding whether it shows. */
  predicate Follows(u: Setup, d: Session, row: Row, k: nat, outcome: Outcome, n: Session) {
    match outcome
    case ShelledOut => !n.open
    case RebuildFailed => !n.open
    case Missing => On(u, n, d.build, k)
    case Rebuilt(b) =>
      && n.open && n.build == b && !n.explicit && Says(u, n) && n.visible == Visible(u, n)
      && (Rows(u, b) != [] ==>
            n.sel == match Preserved(u.world(b), Picked(ProbeOf(u.world(d.build).probes, row), row.fix))
                     case Some(i) => i case None => 0)
  }

  lemma RanFollows(u: Setup, d: Session, c: Session, run: Ran, outcome: Outcome)
    requires Painted(u, d) && Rows(u, d.build) != [] && c.build == d.build && c.sel < |Rows(u, d.build)|
    requires !c.pending && c.anchor.None? && c.open && Visible(u, c)
    requires run.fix == Rows(u, d.build)[c.sel].fix
    requires run.probe == ProbeOf(u.world(d.build).probes, Rows(u, d.build)[c.sel])
    ensures var r := Followed(c, run, outcome);
            var n := if r.open then Topped(u, r) else r;
            n.log == c.log + [run] && Follows(u, d, Rows(u, d.build)[c.sel], c.sel, outcome, n)
  {
    var r := Followed(c, run, outcome);
    if outcome.Missing? {
      PlacedStill(u, r);
    } else if outcome.Rebuilt? {
      ToppedPainted(u, r);
      PaintedSays(u, Topped(u, r));
    }
  }

  /** `run` is row `k`, painted on the frame it was chosen on. */
  predicate RunSays(u: Setup, d: Session, run: Ran, k: nat, entered: bool)
    requires k < |Rows(u, d.build)|
  {
    var row := Rows(u, d.build)[k];
    run.fix == row.fix && run.probe == ProbeOf(u.world(d.build).probes, row) && run.number == k &&
    run.frame == d.frame && run.entered == entered
  }

  lemma RowRuns(d: Session, probes: seq<Probe>, rows: seq<Row>, e: Event, c: Session)
    requires d.sel < |rows| && ((e.key == Enter && d.visible) || (e.key.Digit? && 1 <= e.key.n <= |rows|))
    requires c == if e.key == Enter then d else Chosen(d, e.key.n - 1)
    ensures c.sel < |rows| && Keyed(d, probes, rows, e) == Followed(c, RunOf(c, probes, rows, e.key == Enter),
                                                                    e.outcome)
  {
  }

  /** Enter runs the row under the cursor, and a number the row of that number, once; and what follows is as the run
      ended. */
  lemma RunKeys(u: Setup, d: Session, e: Event)
    requires d.open && Painted(u, d) && Rows(u, d.build) != []
    requires (e.key == Enter && d.visible) || (e.key.Digit? && 1 <= e.key.n <= |Rows(u, d.build)|)
    ensures var n, rows, k := After(u, d, e), Rows(u, d.build), if e.key == Enter then d.sel else e.key.n - 1;
            && |n.log| == |d.log| + 1 && n.log[..|d.log|] == d.log
            && RunSays(u, d, n.log[|d.log|], k, e.key == Enter) && Follows(u, d, rows[k], k, e.outcome, n)
  {
    var rows, probes := Rows(u, d.build), u.world(d.build).probes;
    var c := if e.key == Enter then d else Chosen(d, e.key.n - 1);
    RowRuns(d, probes, rows, e, c);
    var run := RunOf(c, probes, rows, e.key == Enter);
    RanFollows(u, d, c, run, e.outcome);
    Snoc(d.log, run);
  }
}
