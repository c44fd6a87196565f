/** The scrolling viewport: which lines of a page taller than the terminal a frame shows. */
module Viewport {
  import opened PyText

  const MIN_BODY := 3
  const CURSOR := '\U{276f}'

  /** One row of a frame: a line of the page, or the scroll note. */
  datatype Row = Shown(line: nat) | Note(above: nat, below: nat)

  datatype Pins = Pins(top: nat, bottom: nat)

  /** What the viewport remembers between draws, and the frame on screen. `novel` is set until an update is drawn. */
  datatype View = View(offset: int, manual: bool, novel: bool, identity: Option<string>, cursor: Option<nat>,
                       rows: nat, bodyLen: nat, overflowing: bool, frame: seq<Row>)

  // ----- the arithmetic of one frame -----

  /** The larger pin gives up a line, the footer never its last. */
  function Smaller(p: Pins): (q: Pins)
    requires p.top > 0 || p.bottom > 1
    ensures q.top + q.bottom == p.top + p.bottom - 1 && q.top <= p.top && q.bottom <= p.bottom
    ensures p.bottom >= 1 ==> q.bottom >= 1
  {
    if p.top > 0 && (p.top >= p.bottom || p.bottom <= 1) then p.(top := p.top - 1) else p.(bottom := p.bottom - 1)
  }

  /** `_pins`, from the pins left so far. */
  function Shrunk(p: Pins, height: int): Pins
    decreases p.top + p.bottom
  {
    if p.top + p.bottom + 1 + MIN_BODY > height && (p.top > 0 || p.bottom > 1) then Shrunk(Smaller(p), height) else p
  }

  function PinsFor(top: nat, bottom: nat, height: int): Pins { Shrunk(Pins(top, Max(1, bottom)), height) }

  function NoteRows(p: Pins, height: int): nat { if height - p.top - p.bottom >= 2 then 1 else 0 }

  function RowsFor(p: Pins, height: int): int { height - p.top - p.bottom - NoteRows(p, height) }

  predicate HasCursor(line: string) { CURSOR in line }

  /** The first line from `i` on, and before `end`, that holds the cursor. */
  function CursorFrom(lines: seq<string>, i: nat, end: int): Option<nat>
    requires end <= |lines|
    decreases end - i
  {
    if i >= end then None else if HasCursor(lines[i]) then Some(i) else CursorFrom(lines, i + 1, end)
  }

  /** `_follow`. */
  function Followed(offset: int, cursor: int, rows: nat): int {
    var context := if rows >= 3 then 1 else 0;
    if cursor < offset + context then cursor - context
    else if cursor > offset + rows - 1 - context then cursor - rows + 1 + context
    else offset
  }

  function Clamped(offset: int, limit: int): int { Max(0, Min(offset, limit)) }

  /** Page lines `a` up to `b`. */
  function Span(a: nat, b: nat): (rows: seq<Row>)
    requires a <= b
    ensures |rows| == b - a && forall k :: 0 <= k < |rows| ==> rows[k] == Shown(a + k)
  {
    seq(b - a, k requires 0 <= k < b - a => Shown(a + k))
  }

  /** The rows of a frame: the top pin, the window, the note where it fits, and the bottom pin. */
  function Framed(p: Pins, n: nat, offset: nat, rows: nat, note: bool): seq<Row>
    requires p.top + offset + rows + p.bottom <= n
  {
    Span(0, p.top) + Span(p.top + offset, p.top + offset + rows) +
    (if note then [Note(offset, n - p.top - p.bottom - offset - rows)] else []) + Span(n - p.bottom, n)
  }

  lemma {:induction false} ShrunkFits(p: Pins, height: int)
    requires p.bottom >= 1
    ensures var r := Shrunk(p, height);
            && r.top <= p.top && 1 <= r.bottom <= p.bottom
            && r.top + r.bottom == Max(1, Min(p.top + p.bottom, height - 1 - MIN_BODY))
            && (r.top < p.top ==> r.top + 1 >= r.bottom) && (r.bottom < p.bottom ==> r.top <= r.bottom)
    decreases p.top + p.bottom
  {
    if p.top + p.bottom + 1 + MIN_BODY > height && (p.top > 0 || p.bottom > 1) { ShrunkFits(Smaller(p), height); }
  }

  /** The pins give up exactly what the body and the note need, down to the footer's last line: from two rows on the
      window keeps at least one, and from five on, three. */
  lemma PinsFit(top: nat, bottom: nat, height: int)
    requires height >= 1
    ensures var p := PinsFor(top, bottom, height);
            && p.top <= top && 1 <= p.bottom <= Max(1, bottom)
            && p.top + p.bottom == Max(1, Min(top + Max(1, bottom), height - 1 - MIN_BODY))
            && 0 <= RowsFor(p, height) && p.top + RowsFor(p, height) + NoteRows(p, height) + p.bottom == height
            && (RowsFor(p, height) >= 1 <==> height >= 2) && (height >= 5 ==> RowsFor(p, height) >= MIN_BODY)
  {
    ShrunkFits(Pins(top, Max(1, bottom)), height);
  }

  /** The larger pin gives up lines first, and from three rows on there is a note. */
  lemma PinsBalance(top: nat, bottom: nat, height: int)
    requires height >= 1
    ensures var p := PinsFor(top, bottom, height);
            && (p.top < top ==> p.top + 1 >= p.bottom) && (p.bottom < Max(1, bottom) ==> p.top <= p.bottom)
            && (NoteRows(p, height) == if height >= 3 then 1 else 0)
  {
    ShrunkFits(Pins(top, Max(1, bottom)), height);
  }

  // ----- one draw -----

  /** The pins asked for, and how a page's first lines are told apart (its text with the digits masked). */
  datatype Setup = Setup(top: nat, bottom: nat, mask: seq<string> -> string)

  function CursorOf(s: Setup, lines: seq<string>): Option<nat> { CursorFrom(lines, s.top, |lines| - s.bottom) }

  function IdentityOf(s: Setup, lines: seq<string>): string { s.mask(lines[..Min(s.top, |lines|)]) }

  /** The part of `_draw_once` before anything is cut: a new page or a moved cursor ends a manual scroll. */
  function Noticed(s: Setup, v: View, lines: seq<string>): View {
    var identity, cursor := Some(IdentityOf(s, lines)), CursorOf(s, lines);
    var turned := v.novel && identity != v.identity;
    v.(offset := if turned then 0 else v.offset,
       manual := if turned || (v.novel && cursor != v.cursor) then false else v.manual,
       novel := false, identity := identity, cursor := cursor)
  }

  /** Where the window starts. */
  function Placed(v: View, p: Pins, rows: nat, bodyLen: nat): int {
    var offset := if !v.manual && v.cursor.Some? then Followed(v.offset, v.cursor.value - p.top, rows) else v.offset;
    Clamped(offset, bodyLen - rows)
  }

  /** The rest of it, for a page of `n` lines with these pins. */
  function CutBy(v: View, p: Pins, n: nat, height: nat): View
    requires RowsFor(p, height) >= 0 && height < n
  {
    var rows := RowsFor(p, height);
    var bodyLen := n - p.top - p.bottom;
    var offset := Placed(v, p, rows, bodyLen);
    v.(offset := offset, rows := rows, bodyLen := bodyLen, overflowing := true,
       frame := Framed(p, n, offset, rows, NoteRows(p, height) == 1))
  }

  function Cut(s: Setup, v: View, n: nat, height: nat): View
    requires 1 <= height < n
  {
    PinsFit(s.top, s.bottom, height);
    CutBy(v, PinsFor(s.top, s.bottom, height), n, height)
  }

  /** `_draw_once`: `lines` is the page rendered at the terminal's width, `height` the terminal's. */
  function Drawn(s: Setup, v: View, lines: seq<string>, height: int): View {
    var seen := Noticed(s, v, lines);
    if |lines| <= height || height <= 0 then
      seen.(rows := 0, bodyLen := 0, overflowing := false, frame := Span(0, |lines|))
    else Cut(s, seen, |lines|, height)
  }

  /** `_scroll_to`. */
  function ScrolledTo(s: Setup, v: View, offset: int, lines: seq<string>, height: int): View {
    Drawn(s, v.(offset := Clamped(offset, v.bodyLen - v.rows), manual := true), lines, height)
  }

  /** `scroll_page`. */
  function Paged(s: Setup, v: View, down: bool, lines: seq<string>, height: int): View {
    var step := Max(1, v.rows - 1);
    ScrolledTo(s, v, v.offset + if down then step else -step, lines, height)
  }

  // ----- what every frame shows -----

  /** What row `k` of a frame `height` rows tall holds. */
  function RowAt(p: Pins, n: nat, offset: nat, rows: nat, height: nat, k: nat): Row
    requires k < height <= n && p.top + offset + rows + p.bottom <= n
  {
    if k < p.top then Shown(k)
    else if k < p.top + rows then Shown(offset + k)
    else if k < height - p.bottom then Note(offset, n - p.top - p.bottom - offset - rows)
    else Shown(n - (height - k))
  }

  /** The frame of `v` holds exactly those rows. */
  predicate Filled(p: Pins, n: nat, v: View, height: nat)
    requires height <= n && 0 <= v.offset && p.top + v.offset + v.rows + p.bottom <= n
  {
    match v case View(offset, _, _, _, _, rows, _, _, frame) =>
      |frame| == height && forall k :: 0 <= k < height ==> frame[k] == RowAt(p, n, offset, rows, height, k)
  }

  lemma FramedRows(p: Pins, n: nat, offset: nat, rows: nat, note: bool, height: nat)
    requires p.top + offset + rows + p.bottom <= n && height <= n
    requires p.top + rows + (if note then 1 else 0) + p.bottom == height
    ensures var f := Framed(p, n, offset, rows, note);
            |f| == height && forall k :: 0 <= k < height ==> f[k] == RowAt(p, n, offset, rows, height, k)
  {
  }

  lemma CutFills(s: Setup, v: View, n: nat, height: nat)
    requires 1 <= height < n
    ensures var d := Cut(s, v, n, height);
            var p := PinsFor(s.top, s.bottom, height);
            && d.bodyLen == n - p.top - p.bottom && 0 <= d.offset <= d.bodyLen - d.rows
            && d.rows == RowsFor(p, height) && Filled(p, n, d, height)
  {
    PinsFit(s.top, s.bottom, height);
    var p, d := PinsFor(s.top, s.bottom, height), Cut(s, v, n, height);
    FramedRows(p, n, d.offset, d.rows, NoteRows(p, height) == 1, height);
  }

  /** A frame of a page taller than the terminal: exactly `height` rows, being the pinned lines, `rows` consecutive body
      lines and, when there is room, the note; what is above, shown and below add up to the body. */
  lemma FrameFills(s: Setup, v: View, lines: seq<string>, height: int)
    requires 1 <= height < |lines|
    ensures var d := Drawn(s, v, lines, height);
            var p := PinsFor(s.top, s.bottom, height);
            && d.bodyLen == |lines| - p.top - p.bottom && 0 <= d.offset <= d.bodyLen - d.rows
            && d.rows == RowsFor(p, height) && Filled(p, |lines|, d, height)
  {
    CutFills(s, Noticed(s, v, lines), |lines|, height);
  }

  /** A page that fits is shown whole, unscrolled. */
  lemma ShortPageWhole(s: Setup, v: View, lines: seq<string>, height: int)
    requires |lines| <= height
    ensures var d := Drawn(s, v, lines, height);
            !d.overflowing && |d.frame| == |lines| && forall k :: 0 <= k < |lines| ==> d.frame[k] == Shown(k)
  {
  }

  /** The first line from `i` on, and before `end`, with the cursor glyph. */
  predicate FirstCursor(lines: seq<string>, i: nat, end: int, c: Option<nat>)
    requires end <= |lines|
  {
    match c
    case Some(at) => i <= at < end && CURSOR in lines[at] && forall k :: i <= k < at ==> CURSOR !in lines[k]
    case None => forall k :: i <= k < end ==> CURSOR !in lines[k]
  }

  lemma {:induction false} CursorInside(lines: seq<string>, i: nat, end: int)
    requires end <= |lines|
    ensures FirstCursor(lines, i, end, CursorFrom(lines, i, end))
    decreases end - i
  {
    if i < end && !HasCursor(lines[i]) { CursorInside(lines, i + 1, end); }
  }

  lemma FollowShows(offset: int, cursor: nat, rows: nat, bodyLen: nat)
    requires cursor < bodyLen && 1 <= rows <= bodyLen
    ensures var o := Clamped(Followed(offset, cursor, rows), bodyLen - rows); o <= cursor < o + rows
  {
  }

  /** Line `c` is in the frame when it is in the bottom pin or in the window. */
  lemma LineShown(p: Pins, n: nat, v: View, height: nat, c: nat)
    requires height <= n && 0 <= v.offset && p.top + v.offset + v.rows + p.bottom <= n &&
             p.top + v.rows + p.bottom <= height
    requires Filled(p, n, v, height) && p.top <= c < n &&
             (c < n - p.bottom ==> v.offset <= c - p.top < v.offset + v.rows)
    ensures Shown(c) in v.frame
  {
    var k := if c < n - p.bottom then c - v.offset else height - (n - c);
    assert v.frame[k] == Shown(c);
  }

  /** Cursor-follow keeps a cursor in the body inside the window. */
  lemma WindowFollows(p: Pins, v: View, n: nat, rows: nat)
    requires p.top + p.bottom + rows <= n && rows >= 1 && !v.manual && v.cursor.Some?
    requires p.top <= v.cursor.value < n - p.bottom
    ensures var o := Placed(v, p, rows, n - p.top - p.bottom); o <= v.cursor.value - p.top < o + rows
  {
    FollowShows(v.offset, v.cursor.value - p.top, rows, n - p.top - p.bottom);
  }

  lemma CursorInWindow(s: Setup, v: View, n: nat, height: nat)
    requires 2 <= height < n && !v.manual && v.cursor.Some? && s.top <= v.cursor.value < n
    ensures var p := PinsFor(s.top, s.bottom, height);
            var d := Cut(s, v, n, height);
            && p.top <= v.cursor.value
            && (v.cursor.value < n - p.bottom ==> d.offset <= v.cursor.value - p.top < d.offset + d.rows)
  {
    PinsFit(s.top, s.bottom, height);
    var p := PinsFor(s.top, s.bottom, height);
    if v.cursor.value < n - p.bottom { WindowFollows(p, v, n, RowsFor(p, height)); }
  }

  lemma CutShowsCursor(s: Setup, v: View, n: nat, height: nat)
    requires 2 <= height < n && !v.manual && v.cursor.Some? && s.top <= v.cursor.value < n
    ensures Shown(v.cursor.value) in Cut(s, v, n, height).frame
  {
    CutFills(s, v, n, height);
    CursorInWindow(s, v, n, height);
    PinsFit(s.top, s.bottom, height);
    LineShown(PinsFor(s.top, s.bottom, height), n, Cut(s, v, n, height), height, v.cursor.value);
  }

  /** An unscrolled frame shows the cursor line, whenever it has a row for the body: always, but on a one-row
      terminal. */
  lemma CursorShown(s: Setup, v: View, lines: seq<string>, height: int)
    requires 2 <= height < |lines|
    ensures var d := Drawn(s, v, lines, height);
            !d.manual && d.cursor.Some? ==>
              d.cursor.value < |lines| && CURSOR in lines[d.cursor.value] && Shown(d.cursor.value) in d.frame
  {
    var seen := Noticed(s, v, lines);
    CursorInside(lines, s.top, |lines| - s.bottom);
    if !seen.manual && seen.cursor.Some? { CutShowsCursor(s, seen, |lines|, height); }
  }

  /** A window of `rows` lines from `offset` shows `c`, with a line to spare on either side from three lines on. */
  predicate ShowsAt(offset: int, c: int, rows: nat) {
    var spare := if rows >= 3 then 1 else 0;
    offset + spare <= c <= offset + rows - 1 - spare
  }

  function Distance(a: int, b: int): nat { if a < b then b - a else a - b }

  /** `o` is the offset nearest to `from` whose window shows `c` so. */
  ghost predicate Nearest(o: int, from: int, c: int, rows: nat) {
    ShowsAt(o, c, rows) && forall other :: ShowsAt(other, c, rows) ==> Distance(o, from) <= Distance(other, from)
  }

  lemma FollowedNearest(offset: int, c: int, rows: nat)
    requires rows >= 1
    ensures Nearest(Followed(offset, c, rows), offset, c, rows)
  {
  }

  lemma NoticedIs(s: Setup, v: View, lines: seq<string>)
    ensures var n, identity := Noticed(s, v, lines), Some(s.mask(lines[..Min(s.top, |lines|)]));
            var turned, moved := v.novel && v.identity != identity, v.novel && v.cursor != n.cursor;
            && !n.novel && n.identity == identity && FirstCursor(lines, s.top, |lines| - s.bottom, n.cursor)
            && (n.manual <==> v.manual && !turned && !moved) && n.offset == if turned then 0 else v.offset
  {
    CursorInside(lines, s.top, |lines| - s.bottom);
  }

  lemma CutPlaces(s: Setup, v: View, n: nat, height: nat) returns (to: int)
    requires 2 <= height < n
    ensures var d, p := Cut(s, v, n, height), PinsFor(s.top, s.bottom, height);
            && d.novel == v.novel && d.identity == v.identity && d.cursor == v.cursor && d.manual == v.manual
            && d.offset == Max(0, Min(to, d.bodyLen - d.rows))
            && if v.manual || v.cursor.None? then to == v.offset
               else Nearest(to, v.offset, v.cursor.value - p.top, d.rows)
  {
    PinsFit(s.top, s.bottom, height);
    var p := PinsFor(s.top, s.bottom, height);
    if v.manual || v.cursor.None? {
      to := v.offset;
    } else {
      to := Followed(v.offset, v.cursor.value - p.top, RowsFor(p, height));
      FollowedNearest(v.offset, v.cursor.value - p.top, RowsFor(p, height));
    }
  }

  /** What one draw of a taller page remembers and where it puts the window. A page whose first lines changed starts at
      its top; it, and a page whose cursor moved, is followed again; anything else keeps a manual scroll. A followed
      window goes to the nearest place that shows the cursor, a scrolled one stays, both within the body. */
  lemma DrawFollows(s: Setup, v: View, lines: seq<string>, height: int) returns (to: int)
    requires 2 <= height < |lines|
    ensures var d, p := Drawn(s, v, lines, height), PinsFor(s.top, s.bottom, height);
            var identity := Some(s.mask(lines[..Min(s.top, |lines|)]));
            var turned, moved := v.novel && v.identity != identity, v.novel && v.cursor != d.cursor;
            var from := if turned then 0 else v.offset;
            && !d.novel && d.identity == identity && FirstCursor(lines, s.top, |lines| - s.bottom, d.cursor)
            && (d.manual <==> v.manual && !turned && !moved)
            && d.offset == Max(0, Min(to, d.bodyLen - d.rows))
            && if d.manual || d.cursor.None? then to == from else Nearest(to, from, d.cursor.value - p.top, d.rows)
  {
    NoticedIs(s, v, lines);
    to := CutPlaces(s, Noticed(s, v, lines), |lines|, height);
  }

  // ----- paging -----

  /** A view whose last draw was of this page at this height. */
  predicate Steady(s: Setup, v: View, lines: seq<string>, height: int)
    requires 1 <= height < |lines|
  {
    PinsFit(s.top, s.bottom, height);
    var p := PinsFor(s.top, s.bottom, height);
    && !v.novel && v.rows == RowsFor(p, height) && v.bodyLen == |lines| - p.top - p.bottom
    && 0 <= v.offset <= v.bodyLen - v.rows && Filled(p, |lines|, v, height)
  }

  lemma DrawnSteady(s: Setup, v: View, lines: seq<string>, height: int)
    requires 1 <= height < |lines|
    ensures Steady(s, Drawn(s, v, lines, height), lines, height)
  {
    FrameFills(s, v, lines, height);
  }

  function Step(v: View): nat { Max(1, v.rows - 1) }

  lemma PageMoves(s: Setup, v: View, lines: seq<string>, height: int)
    requires 1 <= height < |lines| && Steady(s, v, lines, height)
    ensures var d := Paged(s, v, true, lines, height);
            Steady(s, d, lines, height) && d.offset == Min(v.offset + Step(v), v.bodyLen - v.rows)
  {
    DrawnSteady(s, v.(offset := Clamped(v.offset + Step(v), v.bodyLen - v.rows), manual := true), lines, height);
  }

  /** `n` presses of PgDn. */
  function PageDowns(s: Setup, v: View, lines: seq<string>, height: int, n: nat): View
    decreases n
  {
    if n == 0 then v else PageDowns(s, Paged(s, v, true, lines, height), lines, height, n - 1)
  }

  lemma {:induction false} PageReaches(s: Setup, v: View, lines: seq<string>, height: int, b: nat) returns (n: nat)
    requires 2 <= height < |lines| && Steady(s, v, lines, height)
    requires var p := PinsFor(s.top, s.bottom, height); v.offset + p.top <= b < |lines| - p.bottom
    ensures Shown(b) in PageDowns(s, v, lines, height, n).frame
    decreases v.bodyLen - v.rows - v.offset
  {
    PinsFit(s.top, s.bottom, height);
    var p := PinsFor(s.top, s.bottom, height);
    if b < v.offset + p.top + v.rows {
      LineShown(p, |lines|, v, height, b);
      n := 0;
    } else {
      PageMoves(s, v, lines, height);
      n := PageReaches(s, Paged(s, v, true, lines, height), lines, height, b);
      n := n + 1;
    }
  }

  lemma {:induction false} PageEnds(s: Setup, v: View, lines: seq<string>, height: int) returns (n: nat)
    requires 1 <= height < |lines| && Steady(s, v, lines, height)
    ensures var d := PageDowns(s, v, lines, height, n);
            Steady(s, d, lines, height) && d.offset == d.bodyLen - d.rows &&
              Paged(s, d, true, lines, height).offset == d.offset
    decreases v.bodyLen - v.rows - v.offset
  {
    PageMoves(s, v, lines, height);
    if v.offset == v.bodyLen - v.rows {
      n := 0;
    } else {
      n := PageEnds(s, Paged(s, v, true, lines, height), lines, height);
      n := n + 1;
    }
  }

  /** A one-row frame is the footer's last line. */
  lemma OneRowFrame(s: Setup, v: View, lines: seq<string>, height: int)
    requires height == 1 < |lines| && Steady(s, v, lines, height)
    ensures Shown(0) !in v.frame
  {
    PinsFit(s.top, s.bottom, height);
    assert v.frame[0] == Shown(|lines| - 1);
  }

  lemma {:induction false} PageDownsSteady(s: Setup, v: View, lines: seq<string>, height: int, n: nat)
    requires 1 <= height < |lines| && Steady(s, v, lines, height)
    ensures Steady(s, PageDowns(s, v, lines, height, n), lines, height)
    decreases n
  {
    if n > 0 {
      PageMoves(s, v, lines, height);
      PageDownsSteady(s, Paged(s, v, true, lines, height), lines, height, n - 1);
    }
  }

  /** The start of a page, after any draw of it. */
  function AtStart(s: Setup, v: View, lines: seq<string>, height: int): View {
    ScrolledTo(s, Drawn(s, v, lines, height), 0, lines, height)
  }

  lemma StartSteady(s: Setup, v: View, lines: seq<string>, height: int)
    requires 1 <= height < |lines|
    ensures Steady(s, AtStart(s, v, lines, height), lines, height) && AtStart(s, v, lines, height).offset == 0
  {
    DrawnSteady(s, v, lines, height);
    DrawnSteady(s, Drawn(s, v, lines, height).(offset := 0, manual := true), lines, height);
  }

  ghost predicate SomePressShows(s: Setup, v: View, lines: seq<string>, height: int, b: nat) {
    exists n: nat :: Shown(b) in PageDowns(s, v, lines, height, n).frame
  }

  /** Pressing PgDn from the start of a page shows every line of its body, exactly when the terminal has two rows. */
  lemma PagingCovers(s: Setup, v: View, lines: seq<string>, height: int)
    requires 1 <= height < |lines|
    ensures var p := PinsFor(s.top, s.bottom, height);
            (forall b: nat :: p.top <= b < |lines| - p.bottom ==>
               SomePressShows(s, AtStart(s, v, lines, height), lines, height, b))
            <==> height >= 2
  {
    PinsFit(s.top, s.bottom, height);
    StartSteady(s, v, lines, height);
    var p, start := PinsFor(s.top, s.bottom, height), AtStart(s, v, lines, height);
    if height >= 2 {
      forall b: nat | p.top <= b < |lines| - p.bottom
        ensures SomePressShows(s, start, lines, height, b)
      {
        var n := PageReaches(s, start, lines, height, b);
      }
    } else {
      OneRowNever(s, start, lines, height);
    }
  }

  lemma OneRowNever(s: Setup, v: View, lines: seq<string>, height: int)
    requires height == 1 < |lines| && Steady(s, v, lines, height)
    ensures !SomePressShows(s, v, lines, height, 0)
  {
    forall n: nat
      ensures Shown(0) !in PageDowns(s, v, lines, height, n).frame
    {
      PageDownsSteady(s, v, lines, height, n);
      OneRowFrame(s, PageDowns(s, v, lines, height, n), lines, height);
    }
  }

  // ----- the viewport's own code -----

  datatype Key = PgDn | PgUp | Home | End | Other

  /** A key the viewport takes for itself, on a page of these lines. */
  function Keyed(s: Setup, v: View, key: Key, lines: seq<string>, height: int): View {
    match key
    case PgDn => Paged(s, v, true, lines, height)
    case PgUp => Paged(s, v, false, lines, height)
    case Home => if v.overflowing then ScrolledTo(s, v, 0, lines, height) else v
    case End => if v.overflowing then ScrolledTo(s, v, v.bodyLen, lines, height) else v
    case Other => v
  }

  lemma ScrollMoves(s: Setup, v: View, to: int, lines: seq<string>, height: int)
    requires 1 <= height < |lines| && Steady(s, v, lines, height)
    ensures var d := ScrolledTo(s, v, to, lines, height);
            Steady(s, d, lines, height) && d.offset == Max(0, Min(to, v.bodyLen - v.rows))
  {
    DrawnSteady(s, v.(offset := Clamped(to, v.bodyLen - v.rows), manual := true), lines, height);
  }

  /** Where each key leaves the window of a page that is cut, and which keys leave it alone. */
  lemma KeysMove(s: Setup, v: View, key: Key, lines: seq<string>, height: int)
    requires 1 <= height < |lines| && Steady(s, v, lines, height) && v.overflowing
    ensures var n := Keyed(s, v, key, lines, height);
            && Steady(s, n, lines, height)
            && match key
               case PgDn => n.offset == Min(v.offset + Max(1, v.rows - 1), v.bodyLen - v.rows)
               case PgUp => n.offset == Max(0, v.offset - Max(1, v.rows - 1))
               case Home => n.offset == 0
               case End => n.offset == v.bodyLen - v.rows
               case Other => n == v
  {
    match key
    case PgDn => PageMoves(s, v, lines, height);
    case PgUp => ScrollMoves(s, v, v.offset - Step(v), lines, height);
    case Home => ScrollMoves(s, v, 0, lines, height);
    case End => ScrollMoves(s, v, v.bodyLen, lines, height);
    case Other =>
  }

  /** Home and End do nothing to a page that fits. */
  lemma FittingPageStays(s: Setup, v: View, key: Key, lines: seq<string>, height: int)
    requires !v.overflowing && key in {Home, End, Other}
    ensures Keyed(s, v, key, lines, height) == v
  {
  }

  /** Away from the last page, PgUp takes PgDn back: the frame shown is the one before. */
  lemma PgUpUndoesPgDn(s: Setup, v: View, lines: seq<string>, height: int)
    requires 1 <= height < |lines| && Steady(s, v, lines, height) && v.overflowing
    requires v.offset + Max(1, v.rows - 1) <= v.bodyLen - v.rows
    ensures var back := Keyed(s, Keyed(s, v, PgDn, lines, height), PgUp, lines, height);
            back.offset == v.offset && back.frame == v.frame
  {
    var down := Paged(s, v, true, lines, height);
    PageMoves(s, v, lines, height);
    ScrollMoves(s, down, down.offset - Step(down), lines, height);
    SameFrame(s, v, Paged(s, down, false, lines, height), lines, height);
  }

  lemma SameFrame(s: Setup, v: View, d: View, lines: seq<string>, height: int)
    requires 1 <= height < |lines| && Steady(s, v, lines, height) && Steady(s, d, lines, height)
    requires v.offset == d.offset
    ensures v.frame == d.frame
  {
  }

  method Pin(top: nat, bottom: nat, height: int) returns (p: Pins)
    ensures p == PinsFor(top, bottom, height)
  {
    var t, b := top, Max(1, bottom);
    while t + b + 1 + MIN_BODY > height && (t > 0 || b > 1)
      invariant t >= 0 && b >= 1 && Shrunk(Pins(t, b), height) == PinsFor(top, bottom, height)
      decreases t + b
    {
      if t > 0 && (t >= b || b <= 1) { t := t - 1; } else { b := b - 1; }
    }
    p := Pins(t, b);
  }

  method FindCursor(s: Setup, lines: seq<string>) returns (cursor: Option<nat>)
    ensures cursor == CursorOf(s, lines)
  {
    var i := s.top;
    while i < |lines| - s.bottom
      invariant CursorFrom(lines, i, |lines| - s.bottom) == CursorOf(s, lines)
    {
      if HasCursor(lines[i]) { return Some(i); }
      i := i + 1;
    }
    cursor := None;
  }

  class Viewport {
    const setup: Setup
    var offset: int
    var manual: bool
    var novel: bool
    var identity: Option<string>
    var cursor: Option<nat>
    var rows: nat
    var bodyLen: nat
    var overflowing: bool
    var frame: seq<Row>

    ghost function Value(): View
      reads this
    {
      View(offset, manual, novel, identity, cursor, rows, bodyLen, overflowing, frame)
    }

    constructor (s: Setup)
      ensures setup == s && Value() == View(0, false, false, None, None, 0, 0, false, [])
    {
      setup, offset, manual, novel, identity, cursor := s, 0, false, false, None, None;
      rows, bodyLen, overflowing, frame := 0, 0, false, [];
    }

    method Notice(lines: seq<string>)
      modifies this`offset, this`manual, this`novel, this`identity, this`cursor
      ensures Value() == Noticed(setup, old(Value()), lines)
    {
      var id := IdentityOf(setup, lines);
      var at := FindCursor(setup, lines);
      if novel {
        novel := false;
        if Some(id) != identity {
          offset, manual := 0, false;
        } else if at != cursor {
          manual := false;
        }
      }
      identity, cursor := Some(id), at;
    }

    method Follow(c: int, r: nat)
      modifies this`offset
      ensures offset == Followed(old(offset), c, r)
    {
      var context := if r >= 3 then 1 else 0;
      if c < offset + context {
        offset := c - context;
      } else if c > offset + r - 1 - context {
        offset := c - r + 1 + context;
      }
    }

    method Place(p: Pins, r: nat, len: nat)
      requires r <= len
      modifies this`offset
      ensures offset == Placed(old(Value()), p, r, len) && 0 <= offset <= len - r
    {
      if !manual && cursor.Some? { Follow(cursor.value - p.top, r); }
      offset := Max(0, Min(offset, len - r));
    }

    method CutTo(p: Pins, n: nat, height: nat)
      requires RowsFor(p, height) >= 0 && height < n
      modifies this`offset, this`rows, this`bodyLen, this`overflowing, this`frame
      ensures Value() == CutBy(old(Value()), p, n, height)
    {
      var note := if height - p.top - p.bottom >= 2 then 1 else 0;
      var r, len := height - p.top - p.bottom - note, n - p.top - p.bottom;
      Place(p, r, len);
      overflowing, rows, bodyLen, frame := true, r, len, Framed(p, n, offset, r, note == 1);
    }

    method DrawOnce(lines: seq<string>, height: int)
      modifies this
      ensures Value() == Drawn(setup, old(Value()), lines, height)
    {
      Notice(lines);
      if |lines| <= height || height <= 0 {
        overflowing, rows, bodyLen, frame := false, 0, 0, Span(0, |lines|);
        return;
      }
      PinsFit(setup.top, setup.bottom, height);
      var p := Pin(setup.top, setup.bottom, height);
      CutTo(p, |lines|, height);
    }

    /** `update`: a new page, or the same one with new text. */
    method Update(lines: seq<string>, height: int)
      modifies this
      ensures Value() == Drawn(setup, old(Value()).(novel := true), lines, height)
    {
      novel := true;
      DrawOnce(lines, height);
    }

    method ScrollTo(to: int, lines: seq<string>, height: int)
      modifies this
      ensures Value() == ScrolledTo(setup, old(Value()), to, lines, height)
    {
      offset, manual := Max(0, Min(to, bodyLen - rows)), true;
      DrawOnce(lines, height);
    }

    /** `wrap_read_key`: whether the key is passed on. */
    method Handle(key: Key, lines: seq<string>, height: int) returns (passed: bool)
      modifies this
      ensures Value() == Keyed(setup, old(Value()), key, lines, height)
      ensures passed <==> key == Other || (key in {Home, End} && !old(overflowing))
    {
      passed := false;
      var step := Max(1, rows - 1);
      if key == PgDn {
        ScrollTo(offset + step, lines, height);
      } else if key == PgUp {
        ScrollTo(offset - step, lines, height);
      } else if key == Home && overflowing {
        ScrollTo(0, lines, height);
      } else if key == End && overflowing {
        ScrollTo(bodyLen, lines, height);
      } else {
        passed := true;
      }
    }
  }
}
