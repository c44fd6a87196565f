/** The interactive Doctor: a focus resolved once per frame, a cursor, and remedies run from the painted list. */
module DoctorLoop {
  import opened PyText
  import opened Doctor

  datatype FocusState = Matched | Present | Ambiguous | Unknown

  /** `row` is the runnable row the focus resolved to. */
  datatype Decision = Decision(row: Option<nat>, identity: Option<string>, state: Option<FocusState>)

  /** What Doctor renders for one report. */
  datatype Snapshot = Snapshot(probes: seq<Probe>, fixes: seq<Fix>)

  /** The dispatch list: the pairing's rows that are not display-only. */
  function RunnableIn(rows: seq<Row>): (r: seq<Row>)
    ensures forall k :: 0 <= k < |r| ==> r[k] in rows && r[k].kind != DisplayOnly
  {
    if rows == [] then []
    else if rows[|rows| - 1].kind != DisplayOnly then RunnableIn(rows[..|rows| - 1]) + [rows[|rows| - 1]]
    else RunnableIn(rows[..|rows| - 1])
  }

  function Runnable(s: Snapshot): seq<Row> { RunnableIn(Paired(s.probes, s.fixes)) }

  /** The row's probe object. */
  function ProbeOf(probes: seq<Probe>, r: Row): Option<Probe> {
    if r.probeIndex.Some? && r.probeIndex.value < |probes| then Some(probes[r.probeIndex.value]) else None
  }

  // ----- resolving a focus -----

  function FirstRow(rows: seq<Row>, wanted: Row -> bool): (at: Option<nat>)
    ensures at.Some? ==> at.value < |rows| && wanted(rows[at.value])
    ensures at.Some? ==> forall k :: 0 <= k < at.value ==> !wanted(rows[k])
    ensures at.None? ==> forall k :: 0 <= k < |rows| ==> !wanted(rows[k])
  {
    if rows == [] then None
    else
      var before := FirstRow(rows[..|rows| - 1], wanted);
      if before.Some? then before else if wanted(rows[|rows| - 1]) then Some(|rows| - 1) else None
  }

  predicate FixNames(fixes: seq<Fix>, id: string) { exists k :: 0 <= k < |fixes| && fixes[k].value.probeId == id }

  /** How many fixes have this remedy id. */
  function Remedies(fixes: seq<Fix>, id: string): nat {
    if fixes == [] then 0
    else Remedies(fixes[..|fixes| - 1], id) + if fixes[|fixes| - 1].value.remedyId == id then 1 else 0
  }

  /** The row is for this probe object, or its fix declares the id. */
  predicate ForProbe(probes: seq<Probe>, r: Row, target: Option<Probe>, id: string) {
    (target.Some? && ProbeOf(probes, r).Some? && ProbeOf(probes, r).value.ref == target.value.ref) ||
      r.fix.value.probeId == id
  }

  /** `_focused_remedy`; an empty focus is none. */
  function Focused(s: Snapshot, focus: string): Decision {
    var rows := Runnable(s);
    var named := Claimants(s.probes, focus, |s.probes|);
    var claimed := named != [] || FixNames(s.fixes, focus);
    var target := if named != [] && named[0] < |s.probes| then Some(s.probes[named[0]]) else None;
    var byProbe := if claimed then FirstRow(rows, (r: Row) => ForProbe(s.probes, r, target, focus)) else None;
    var remedies := Remedies(s.fixes, focus);
    var byRemedy := FirstRow(rows, (r: Row) => r.fix.value.remedyId == focus);
    if focus == "" then Decision(Some(0), None, None)
    else if |named| > 1 then Decision(None, None, Some(Ambiguous))
    else if byProbe.Some? then Decision(byProbe, Some(focus), Some(Matched))
    else if remedies > 1 then Decision(None, None, Some(Ambiguous))
    else if remedies == 1 && byRemedy.Some? then Decision(byRemedy, Some(focus), Some(Matched))
    else if claimed || remedies > 0 then Decision(None, None, Some(Present))
    else Decision(None, None, Some(Unknown))
  }

  // ----- keeping a selection over a rebuild -----

  /** A remedy that was run, with its probe. */
  datatype Picked = Picked(probe: Option<Probe>, fix: Fix)

  function Matches(rows: seq<Row>, wanted: Row -> bool): (at: seq<nat>)
    ensures forall k :: 0 <= k < |at| ==> at[k] < |rows| && wanted(rows[at[k]])
  {
    if rows == [] then []
    else if wanted(rows[|rows| - 1]) then Matches(rows[..|rows| - 1], wanted) + [|rows| - 1]
    else Matches(rows[..|rows| - 1], wanted)
  }

  /** The sole match; none on zero or many. */
  function UniqueRow(rows: seq<Row>, wanted: Row -> bool): (at: Option<nat>)
    ensures at.Some? ==> at.value < |rows| && wanted(rows[at.value])
  {
    var all := Matches(rows, wanted);
    if |all| == 1 then Some(all[0]) else None
  }

  predicate HasProbeId(probes: seq<Probe>, r: Row, id: string) {
    (ProbeOf(probes, r).Some? && ProbeOf(probes, r).value.probeId == id) || r.fix.value.probeId == id
  }

  predicate SameObjects(probes: seq<Probe>, r: Row, p: Picked) {
    r.fix.ref == p.fix.ref &&
    match ProbeOf(probes, r) case None => p.probe.None? case Some(q) => p.probe.Some? && p.probe.value.ref == q.ref
  }

  function FixIn(p: Probe): Option<FixValue> { match p.fix case None => None case Some(f) => Some(f.value) }

  predicate EqualProbes(p: Probe, q: Probe) {
    p.name == q.name && p.level == q.level && p.detail == q.detail && FixIn(p) == FixIn(q) && p.probeId == q.probeId &&
      p.revision == q.revision
  }

  predicate EqualValues(probes: seq<Probe>, r: Row, p: Picked) {
    r.fix.value == p.fix.value &&
    match ProbeOf(probes, r) case None => p.probe.None? case Some(q) => p.probe.Some? && EqualProbes(p.probe.value, q)
  }

  function PickedProbeId(p: Picked): string {
    if p.probe.Some? && p.probe.value.probeId != "" then p.probe.value.probeId else p.fix.value.probeId
  }

  /** `_preserved_remedy_index`. */
  function Preserved(s: Snapshot, p: Picked): (at: Option<nat>)
    ensures at.Some? ==> at.value < |Runnable(s)|
  {
    var rows, id := Runnable(s), PickedProbeId(p);
    var byRemedy := UniqueRow(rows, (r: Row) => r.fix.value.remedyId == p.fix.value.remedyId);
    var byProbe := UniqueRow(rows, (r: Row) => HasProbeId(s.probes, r, id));
    var byObject := UniqueRow(rows, (r: Row) => SameObjects(s.probes, r, p));
    if p.fix.value.remedyId != "" && byRemedy.Some? then byRemedy
    else if id != "" && byProbe.Some? then byProbe
    else if byObject.Some? then byObject
    else UniqueRow(rows, (r: Row) => EqualValues(s.probes, r, p))
  }

  // ----- the loop -----

  /** A painted frame: the report it shows, the row under the cursor, and the focus it claims to be on. */
  datatype Frame = Frame(build: nat, selected: Option<nat>, matched: Option<string>, state: Option<FocusState>)

  /** A remedy run: by Enter or by its number, from which frame, and which of its runnable rows. */
  datatype Ran = Ran(fix: Fix, probe: Option<Probe>, entered: bool, frame: Frame, number: nat)

  datatype Session = Session(build: nat, sel: nat, visible: bool, pending: bool, explicit: bool, anchor: Option<Picked>,
                           dirty: bool, frame: Frame, open: bool, log: seq<Ran>)

  datatype Key = Quit | Up | Down | Enter | Digit(n: nat) | Inert

  /** How running a remedy, or rebuilding the report, ends. */
  datatype Outcome = ShelledOut | Missing | RebuildFailed | Rebuilt(build: nat)

  datatype Event = Event(key: Key, outcome: Outcome)

  /** `world` gives each report's probes and fixes, `focus` the requested identity. */
  datatype Setup = Setup(world: nat -> Snapshot, focus: string)

  function Rows(u: Setup, build: nat): seq<Row> { Runnable(u.world(build)) }

  function DecisionFor(u: Setup, build: nat): Decision { Focused(u.world(build), u.focus) }

  /** `_FocusDecision.matched_identity`. */
  function MatchedIdentity(c: Decision, selected: Option<nat>): Option<string> {
    if c.state == Some(Matched) && c.row.Some? && selected == c.row then c.identity else None
  }

  function FrameOf(u: Setup, build: nat, sel: nat, visible: bool): Frame {
    var selected := if Rows(u, build) != [] && visible then Some(sel) else None;
    Frame(build, selected, MatchedIdentity(DecisionFor(u, build), selected), DecisionFor(u, build).state)
  }

  function Placed(u: Setup, d: Session): nat {
    var rows := Rows(u, d.build);
    if rows == [] then d.sel
    else if d.pending then (if DecisionFor(u, d.build).row.Some? then DecisionFor(u, d.build).row.value else 0)
    else if d.anchor.Some? then (match Preserved(u.world(d.build), d.anchor.value) case Some(i) => i case None => 0)
    else d.sel % |rows|
  }

  predicate Shows(u: Setup, d: Session) {
    Rows(u, d.build) != [] &&
    (d.explicit || DecisionFor(u, d.build).row.Some? ||
     DecisionFor(u, d.build).state in {Some(Ambiguous), Some(Unknown)})
  }

  /** Place the cursor and decide whether it shows. */
  function Arranged(u: Setup, d: Session): Session {
    var none := Rows(u, d.build) == [];
    d.(sel := Placed(u, d), visible := Shows(u, d), pending := d.pending && none,
       anchor := if none || d.pending then d.anchor else None)
  }

  /** The top of the loop, with no key queued: place the cursor, then paint if anything changed. */
  function Topped(u: Setup, d: Session): Session {
    var a := Arranged(u, d);
    if a.dirty then a.(dirty := false, frame := FrameOf(u, a.build, a.sel, a.visible)) else a
  }

  /** The selected one of `rows`, run. */
  function RunOf(d: Session, probes: seq<Probe>, rows: seq<Row>, entered: bool): Ran
    requires d.sel < |rows|
  {
    Ran(rows[d.sel].fix, ProbeOf(probes, rows[d.sel]), entered, d.frame, d.sel)
  }

  /** The session after a run: over, back on the same report, or on a rebuilt one. */
  function Followed(d: Session, run: Ran, outcome: Outcome): Session {
    var r := d.(log := d.log + [run]);
    match outcome
    case ShelledOut => r.(open := false)
    case Missing => r.(dirty := true)
    case RebuildFailed => r.(open := false)
    case Rebuilt(b) => r.(build := b, anchor := Some(Picked(run.probe, run.fix)), explicit := false, dirty := true)
  }

  /** The session with its cursor on row `k`, by choice. */
  function Chosen(d: Session, k: nat): Session { d.(explicit := true, sel := k) }

  /** Without a runnable row any key rebuilds the report. */
  function Refreshed(d: Session, outcome: Outcome): Session {
    match outcome case Rebuilt(b) => d.(build := b, explicit := false, dirty := true) case _ => d.(open := false)
  }

  /** A key that moves over the rows or runs one of them. */
  function Chose(d: Session, probes: seq<Probe>, rows: seq<Row>, e: Event): Session
    requires d.sel < |rows|
  {
    var n := |rows|;
    match e.key
    case Up => Chosen(d, (d.sel + n - 1) % n).(dirty := true)
    case Down => Chosen(d, (d.sel + 1) % n).(dirty := true)
    case Digit(k) =>
      if 1 <= k <= n then Followed(Chosen(d, k - 1), RunOf(Chosen(d, k - 1), probes, rows, false), e.outcome) else d
    case Enter => Followed(d, RunOf(d, probes, rows, true), e.outcome)
    case _ => d
  }

  /** One key, over the rows on screen. */
  function Keyed(d: Session, probes: seq<Probe>, rows: seq<Row>, e: Event): Session
    requires rows != [] ==> d.sel < |rows|
  {
    if e.key == Quit then d.(open := false)
    else if rows == [] then Refreshed(d, e.outcome)
    else if !d.visible && e.key in {Up, Down, Enter} then d.(explicit := true, dirty := true)
    else Chose(d, probes, rows, e)
  }

  /** The cursor is on a row, when there are rows; `Painted` has it so at every key. */
  predicate InRange(u: Setup, d: Session) { Rows(u, d.build) != [] ==> d.sel < |Rows(u, d.build)| }

  function Pressed(u: Setup, d: Session, e: Event): Session
    requires InRange(u, d)
  {
    Keyed(d, u.world(d.build).probes, Rows(u, d.build), e)
  }

  // ----- what a focus resolves to -----

  /** Objects are what they are: one probe object, one value. */
  predicate OneObjectEach(s: Snapshot) {
    forall i, j :: 0 <= i < |s.probes| && 0 <= j < |s.probes| ==> s.probes[i].ref == s.probes[j].ref ==>
      s.probes[i] == s.probes[j]
  }

  /** The row is the one the identity names: by its probe, its declared probe, or its remedy id. */
  predicate Identifies(s: Snapshot, r: Row, id: string) { HasProbeId(s.probes, r, id) || r.fix.value.remedyId == id }

  /** A focus is matched only with a runnable row that carries it. */
  lemma FocusCarries(s: Snapshot, focus: string)
    requires OneObjectEach(s)
    ensures var c := Focused(s, focus);
            c.state == Some(Matched) ==>
              c.identity == Some(focus) && focus != "" && c.row.Some? && c.row.value < |Runnable(s)| &&
              Identifies(s, Runnable(s)[c.row.value], focus)
  {
    var named := Claimants(s.probes, focus, |s.probes|);
    ClaimantsAre(s.probes, focus, |s.probes|);
    if named != [] { assert named[0] in named; }
  }

  lemma FocusRowIsRunnable(s: Snapshot, focus: string)
    requires Runnable(s) != []
    ensures var c := Focused(s, focus); c.row.Some? ==> c.row.value < |Runnable(s)|
  {
  }

  predicate Claimed(s: Snapshot, focus: string) {
    (exists k :: 0 <= k < |s.probes| && s.probes[k].probeId == focus) || FixNames(s.fixes, focus)
  }

  /** "Unknown" is said exactly when nothing Doctor renders claims the identity. */
  lemma UnknownExactly(s: Snapshot, focus: string)
    requires focus != ""
    ensures Focused(s, focus).state == Some(Unknown) <==> !Claimed(s, focus) && Remedies(s.fixes, focus) == 0
  {
    var named := Claimants(s.probes, focus, |s.probes|);
    ClaimantsAre(s.probes, focus, |s.probes|);
    if named != [] { assert named[0] in named; }
    if exists k :: 0 <= k < |s.probes| && s.probes[k].probeId == focus {
      var k: nat :| k < |s.probes| && s.probes[k].probeId == focus;
      assert k in named;
    }
  }

  /** An identity two probes claim resolves to neither; one that only remedies claim resolves only when one does. */
  lemma AmbiguityFailsClosed(s: Snapshot, focus: string, i: nat, j: nat)
    requires focus != ""
    requires (i < j < |s.probes| && s.probes[i].probeId == focus && s.probes[j].probeId == focus) ||
             (!Claimed(s, focus) && Remedies(s.fixes, focus) > 1)
    ensures Focused(s, focus) == Decision(None, None, Some(Ambiguous))
  {
    var named := Claimants(s.probes, focus, |s.probes|);
    ClaimantsAre(s.probes, focus, |s.probes|);
    if named != [] { assert named[0] in named; }
    if i < j < |s.probes| && s.probes[i].probeId == focus && s.probes[j].probeId == focus {
      assert i in named && j in named;
    }
  }

  lemma {:induction false} UniqueMatch(rows: seq<Row>, wanted: Row -> bool, i: nat)
    requires i < |rows| && wanted(rows[i])
    ensures i in Matches(rows, wanted)
  {
    if i < |rows| - 1 { UniqueMatch(rows[..|rows| - 1], wanted, i); }
  }

  /** `at` is the only row wanted. */
  ghost predicate Sole(rows: seq<Row>, wanted: Row -> bool, at: nat) {
    at < |rows| && forall k :: 0 <= k < |rows| ==> (wanted(rows[k]) <==> k == at)
  }

  lemma UniqueRowIsSole(rows: seq<Row>, wanted: Row -> bool)
    ensures UniqueRow(rows, wanted).Some? ==> Sole(rows, wanted, UniqueRow(rows, wanted).value)
  {
    forall k | 0 <= k < |rows| && wanted(rows[k])
      ensures k in Matches(rows, wanted)
    {
      UniqueMatch(rows, wanted, k);
    }
  }

  /** A selection survives a rebuild only as the one row with its remedy id, else with its probe id, its objects or its
      very values; two rows that share what is compared select neither. */
  lemma PreservedIsTheSame(s: Snapshot, p: Picked)
    ensures var at, rows := Preserved(s, p), Runnable(s);
            at.Some? ==>
              || (p.fix.value.remedyId != "" && Sole(rows, (r: Row) => r.fix.value.remedyId == p.fix.value.remedyId,
                                                     at.value))
              || (PickedProbeId(p) != "" && Sole(rows, (r: Row) => HasProbeId(s.probes, r, PickedProbeId(p)), at.value))
              || Sole(rows, (r: Row) => SameObjects(s.probes, r, p), at.value)
              || Sole(rows, (r: Row) => EqualValues(s.probes, r, p), at.value)
  {
    var rows := Runnable(s);
    UniqueRowIsSole(rows, (r: Row) => r.fix.value.remedyId == p.fix.value.remedyId);
    UniqueRowIsSole(rows, (r: Row) => HasProbeId(s.probes, r, PickedProbeId(p)));
    UniqueRowIsSole(rows, (r: Row) => SameObjects(s.probes, r, p));
    UniqueRowIsSole(rows, (r: Row) => EqualValues(s.probes, r, p));
  }

  // ----- what every session keeps -----

  ghost predicate Objects(u: Setup) { forall b :: OneObjectEach(u.world(b)) }

  /** Between a paint and the next key: the frame on screen is the state the key acts on. */
  predicate Painted(u: Setup, d: Session) {
    match d case Session(build, sel, visible, pending, _, anchor, dirty, frame, _, _) =>
      && !dirty && frame == FrameOf(u, build, sel, visible) && visible == Shows(u, d)
      && (Rows(u, build) != [] ==> sel < |Rows(u, build)| && !pending && anchor.None?) && (pending ==> anchor.None?)
  }

  /** The remedy run is row `number` of the list its frame painted. By Enter it is the row under the frame's cursor, and
      when the frame claimed a focus, that row carries it. */
  predicate RanAsPainted(u: Setup, r: Ran) {
    match r case Ran(fix, probe, entered, frame, number) =>
      var rows := Rows(u, frame.build);
      && number < |rows| && fix == rows[number].fix && probe == ProbeOf(u.world(frame.build).probes, rows[number])
      && (entered ==> frame.selected == Some(number))
      && (entered && frame.matched.Some? ==>
            frame.matched == Some(u.focus) && Identifies(u.world(frame.build), rows[number], u.focus))
  }

  ghost predicate SessionOk(u: Setup, d: Session) { forall k :: 0 <= k < |d.log| ==> RanAsPainted(u, d.log[k]) }

  /** A frame that claims a focus has its cursor on a row that carries it. */
  lemma ClaimIsCarried(u: Setup, build: nat, sel: nat, visible: bool)
    requires Objects(u)
    ensures var f := FrameOf(u, build, sel, visible);
            f.matched.Some? ==>
              f.matched == Some(u.focus) && f.selected == Some(sel) && sel < |Rows(u, build)| &&
              Identifies(u.world(build), Rows(u, build)[sel], u.focus)
  {
    FocusCarries(u.world(build), u.focus);
  }

  lemma PlacedInRange(u: Setup, d: Session)
    ensures Rows(u, d.build) != [] ==> Placed(u, d) < |Rows(u, d.build)|
  {
    if Rows(u, d.build) != [] { FocusRowIsRunnable(u.world(d.build), u.focus); }
  }

  lemma ArrangedShows(u: Setup, d: Session)
    requires d.pending ==> d.anchor.None?
    ensures var a := Arranged(u, d);
            && a.visible == Shows(u, a) && (a.pending ==> a.anchor.None?)
            && (Rows(u, a.build) != [] ==> a.sel < |Rows(u, a.build)| && !a.pending && a.anchor.None?)
  {
    PlacedInRange(u, d);
  }

  lemma SmallRemainder(x: nat, n: nat)
    requires x < n
    ensures x % n == x
  {
  }

  lemma PlacedStill(u: Setup, d: Session)
    requires Rows(u, d.build) != [] ==> d.sel < |Rows(u, d.build)| && !d.pending && d.anchor.None?
    ensures Placed(u, d) == d.sel
  {
    if Rows(u, d.build) != [] { SmallRemainder(d.sel, |Rows(u, d.build)|); }
  }

  /** Nothing moves while the screen is as painted. */
  lemma ArrangedStill(u: Setup, d: Session)
    requires Painted(u, d)
    ensures Arranged(u, d) == d
  {
    PlacedStill(u, d);
  }

  lemma PaintedNow(u: Setup, a: Session)
    requires a.visible == Shows(u, a) && (a.pending ==> a.anchor.None?)
    requires Rows(u, a.build) != [] ==> a.sel < |Rows(u, a.build)| && !a.pending && a.anchor.None?
    ensures Painted(u, a.(dirty := false, frame := FrameOf(u, a.build, a.sel, a.visible)))
  {
  }

  lemma ToppedPainted(u: Setup, d: Session)
    requires (d.dirty || Painted(u, d)) && (d.pending ==> d.anchor.None?)
    ensures Painted(u, Topped(u, d)) && Topped(u, d).log == d.log
  {
    if d.dirty {
      ArrangedShows(u, d);
      PaintedNow(u, Arranged(u, d));
    } else {
      ArrangedStill(u, d);
    }
  }

  lemma RunOk(u: Setup, d: Session, entered: bool)
    requires Objects(u) && d.sel < |Rows(u, d.build)| && d.frame.build == d.build
    requires entered ==> d.frame == FrameOf(u, d.build, d.sel, true)
    ensures RanAsPainted(u, RunOf(d, u.world(d.build).probes, Rows(u, d.build), entered))
  {
    ClaimIsCarried(u, d.build, d.sel, true);
  }

  lemma LogOk(u: Setup, log: seq<Ran>, run: Ran)
    requires (forall k :: 0 <= k < |log| ==> RanAsPainted(u, log[k])) && RanAsPainted(u, run)
    ensures forall k :: 0 <= k < |log + [run]| ==> RanAsPainted(u, (log + [run])[k])
  {
  }

  lemma FollowedKeeps(d: Session, run: Ran, outcome: Outcome)
    ensures var n := Followed(d, run, outcome); n.log == d.log + [run] && n.pending == d.pending && (n.open ==> n.dirty)
  {
  }

  /** One key runs the row under a visible cursor, or a numbered row, or nothing. */
  lemma KeyedRuns(d: Session, probes: seq<Probe>, rows: seq<Row>, e: Event)
    requires rows != [] ==> d.sel < |rows|
    ensures var n := Keyed(d, probes, rows, e);
            || (rows != [] && d.visible && n.log == d.log + [RunOf(d, probes, rows, true)])
            || (e.key.Digit? && 1 <= e.key.n <= |rows| &&
                n.log == d.log + [RunOf(Chosen(d, e.key.n - 1), probes, rows, false)])
            || n.log == d.log
  {
    if rows != [] && e.key == Enter && d.visible {
      FollowedKeeps(d, RunOf(d, probes, rows, true), e.outcome);
    } else if e.key.Digit? && 1 <= e.key.n <= |rows| {
      FollowedKeeps(Chosen(d, e.key.n - 1), RunOf(Chosen(d, e.key.n - 1), probes, rows, false), e.outcome);
    }
  }

  /** And then the session is over, to be repainted, or as it was. */
  lemma KeyedKeeps(d: Session, probes: seq<Probe>, rows: seq<Row>, e: Event)
    requires rows != [] ==> d.sel < |rows|
    ensures var n := Keyed(d, probes, rows, e);
            (n.open ==> n.dirty || n == d) && n.pending == d.pending && (rows == [] ==> n.anchor == d.anchor)
  {
    if rows != [] && e.key == Enter {
      FollowedKeeps(d, RunOf(d, probes, rows, true), e.outcome);
    } else if e.key.Digit? && 1 <= e.key.n <= |rows| {
      FollowedKeeps(Chosen(d, e.key.n - 1), RunOf(Chosen(d, e.key.n - 1), probes, rows, false), e.outcome);
    }
  }

  lemma PressedOk(u: Setup, d: Session, e: Event)
    requires Objects(u) && SessionOk(u, d) && Painted(u, d)
    ensures SessionOk(u, Pressed(u, d, e))
  {
    var n, rows, probes := Pressed(u, d, e), Rows(u, d.build), u.world(d.build).probes;
    KeyedRuns(d, probes, rows, e);
    if rows != [] && d.visible && n.log == d.log + [RunOf(d, probes, rows, true)] {
      RunOk(u, d, true);
      LogOk(u, d.log, RunOf(d, probes, rows, true));
    } else if e.key.Digit? && 1 <= e.key.n <= |rows| &&
      n.log == d.log + [RunOf(Chosen(d, e.key.n - 1), probes, rows, false)] {
      RunOk(u, Chosen(d, e.key.n - 1), false);
      LogOk(u, d.log, RunOf(Chosen(d, e.key.n - 1), probes, rows, false));
    }
  }

  /** `_doctor` on entry, with its report built. */
  function Opened(u: Setup, build: nat): Session {
    Topped(u, Session(build, 0, false, true, false, None, true, Frame(build, None, None, None), true, []))
  }

  function After(u: Setup, d: Session, e: Event): Session {
    if !d.open || !InRange(u, d) then d
    else
      var n := Pressed(u, d, e);
      if n.open then Topped(u, n) else n
  }

  /** A session of keys, each with what running or rebuilding led to. */
  function Run(u: Setup, build: nat, es: seq<Event>): Session {
    if es == [] then Opened(u, build) else After(u, Run(u, build, es[..|es| - 1]), es[|es| - 1])
  }

  lemma AfterOk(u: Setup, d: Session, e: Event)
    requires Objects(u) && SessionOk(u, d) && d.open && Painted(u, d)
    ensures var n := After(u, d, e); SessionOk(u, n) && (n.open ==> Painted(u, n))
  {
    PressedOk(u, d, e);
    KeyedKeeps(d, u.world(d.build).probes, Rows(u, d.build), e);
    var n := Pressed(u, d, e);
    if n.open { ToppedPainted(u, n); }
  }

  lemma {:induction false} RunKeeps(u: Setup, build: nat, es: seq<Event>)
    requires Objects(u)
    ensures var d := Run(u, build, es); SessionOk(u, d) && (d.open ==> Painted(u, d))
  {
    if es == [] {
      ToppedPainted(u, Session(build, 0, false, true, false, None, true, Frame(build, None, None, None), true, []));
    } else {
      RunKeeps(u, build, es[..|es| - 1]);
      var d := Run(u, build, es[..|es| - 1]);
      if d.open { AfterOk(u, d, es[|es| - 1]); }
    }
  }

  /** In every session, whatever the remedies and rebuilds do: Enter runs exactly the row painted under the cursor, a
      number the row painted with it; and when the frame claimed the requested focus, the row Enter ran carries it. */
  lemma DoctorRunsWhatItPaints(u: Setup, build: nat, es: seq<Event>, k: nat)
    requires Objects(u) && k < |Run(u, build, es).log|
    ensures var r := Run(u, build, es).log[k];
            var rows := Rows(u, r.frame.build);
            && r.number < |rows| && r.fix == rows[r.number].fix &&
               r.probe == ProbeOf(u.world(r.frame.build).probes, rows[r.number])
            && (r.entered ==> r.frame.selected == Some(r.number))
            && (r.entered && r.frame.matched.Some? ==>
                  r.frame.matched == Some(u.focus) && Identifies(u.world(r.frame.build), rows[r.number], u.focus))
  {
    RunKeeps(u, build, es);
    assert RanAsPainted(u, Run(u, build, es).log[k]);
  }

  // ----- the loop's own code -----

  class DoctorScreen {
    const setup: Setup
    var build: nat
    var sel: nat
    var visible: bool
    var pending: bool
    var explicit: bool
    var anchor: Option<Picked>
    var dirty: bool
    var frame: Frame
    var open: bool
    var log: seq<Ran>

    ghost function Value(): Session
      reads this
    {
      Session(build, sel, visible, pending, explicit, anchor, dirty, frame, open, log)
    }

    constructor (u: Setup, b: nat)
      ensures setup == u && Value() == Opened(u, b)
    {
      setup, build, sel, visible, pending, explicit, anchor := u, b, 0, false, true, false, None;
      dirty, frame, open, log := true, Frame(b, None, None, None), true, [];
      new;
      Top();
    }

    /** Where the cursor goes: the focus once, the remedy just run after a rebuild, and otherwise where it was. */
    method Place(rows: seq<Row>, decision: Decision)
      requires rows == Rows(setup, build) && rows != [] && decision == DecisionFor(setup, build)
      modifies this`sel, this`pending, this`anchor
      ensures sel == Placed(setup, old(Value())) && !pending && anchor == if old(pending) then old(anchor) else None
    {
      if pending {
        sel := if decision.row.Some? then decision.row.value else 0;
        pending := false;
      } else if anchor.Some? {
        var preserved := Preserved(setup.world(build), anchor.value);
        sel := if preserved.Some? then preserved.value else 0;
        anchor := None;
      } else {
        sel := sel % |rows|;
      }
    }

    method Arrange()
      modifies this`sel, this`visible, this`pending, this`anchor
      ensures Value() == Arranged(setup, old(Value()))
    {
      var rows := Rows(setup, build);
      var decision := DecisionFor(setup, build);
      visible := false;
      if rows != [] {
        Place(rows, decision);
        visible := explicit || decision.row.Some? || decision.state in {Some(Ambiguous), Some(Unknown)};
      }
    }

    method Top()
      modifies this
      ensures Value() == Topped(setup, old(Value()))
    {
      Arrange();
      if dirty { frame, dirty := FrameOf(setup, build, sel, visible), false; }
    }

    method RunSelected(rows: seq<Row>, entered: bool, outcome: Outcome)
      requires sel < |rows| && rows == Rows(setup, build)
      modifies this`log, this`open, this`dirty, this`build, this`anchor, this`explicit
      ensures Value() == Followed(old(Value()), RunOf(old(Value()), setup.world(old(build)).probes, rows, entered),
                                  outcome)
    {
      var probe := ProbeOf(setup.world(build).probes, rows[sel]);
      log := log + [Ran(rows[sel].fix, probe, entered, frame, sel)];
      match outcome
      case ShelledOut => open := false;
      case Missing => dirty := true;
      case RebuildFailed => open := false;
      case Rebuilt(b) => build, anchor, explicit, dirty := b, Some(Picked(probe, rows[sel].fix)), false, true;
    }

    method Refresh(outcome: Outcome)
      modifies this`build, this`explicit, this`dirty, this`open
      ensures Value() == Refreshed(old(Value()), outcome)
    {
      match outcome
      case Rebuilt(b) => build, explicit, dirty := b, false, true;
      case _ => open := false;
    }

    method RunNumbered(rows: seq<Row>, k: nat, outcome: Outcome)
      requires k < |rows| && rows == Rows(setup, build)
      modifies this
      ensures var d := Chosen(old(Value()), k);
              Value() == Followed(d, RunOf(d, setup.world(old(build)).probes, rows, false), outcome)
    {
      explicit, sel := true, k;
      RunSelected(rows, false, outcome);
    }

    method Choose(rows: seq<Row>, key: Key, outcome: Outcome)
      requires sel < |rows| && rows == Rows(setup, build)
      modifies this
      ensures Value() == Chose(old(Value()), setup.world(old(build)).probes, rows, Event(key, outcome))
    {
      var n := |rows|;
      match key
      case Up => sel, explicit, dirty := (sel + n - 1) % n, true, true;
      case Down => sel, explicit, dirty := (sel + 1) % n, true, true;
      case Digit(k) => if 1 <= k <= n { RunNumbered(rows, k - 1, outcome); }
      case Enter => RunSelected(rows, true, outcome);
      case _ =>
    }

    method Press(key: Key, outcome: Outcome)
      requires InRange(setup, Value())
      modifies this
      ensures Value() == Pressed(setup, old(Value()), Event(key, outcome))
    {
      var rows := Rows(setup, build);
      if key == Quit {
        open := false;
      } else if rows == [] {
        Refresh(outcome);
      } else if !visible && key in {Up, Down, Enter} {
        explicit, dirty := true, true;
      } else {
        Choose(rows, key, outcome);
      }
    }
  }
}
