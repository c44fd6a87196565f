/** What the Home loop does bring: a finished capture is shown, an acting key is followed by a capture begun after it,
    and once captures have finished the observer has been shown the live Home. */
module HomeLive {
  import opened PyText
  import opened HomeRefresh

  // ----- a capture that finishes -----

  /** A pass in which the capture in flight finished and succeeded shows what it captured. Nothing is then in flight and
      nothing marked, and with no input queued the observer is handed it; a superseded one is followed by exactly one
      capture begun after it. */
  lemma PassDelivers(h: Home, pending: bool)
    requires h.open && h.refresh.Some?
    ensures var c, n := h.refresh.value, Next(h, Top(true, true, pending));
            && n.open && n.source == Captured(c.began) && n.lastAct == h.lastAct
            && if c.superseded
               then n.refresh == Some(Capture(h.clock, false)) && n.clock == h.clock + 1 && n.emitted == h.emitted
               else
                 && n.refresh.None? && !n.failed && n.dirty == pending
                 && n.emitted == if pending then h.emitted else h.emitted + [Emission(Captured(c.began), h.lastAct)]
  {
  }

  /** One that failed leaves the Home shown as it was, marked unless a follow-up is begun. */
  lemma PassFails(h: Home, pending: bool)
    requires h.open && h.refresh.Some?
    ensures var c, n := h.refresh.value, Next(h, Top(true, false, pending));
            && n.open && n.source == h.source && n.emitted == h.emitted && n.dirty == pending
            && if c.superseded then n.refresh == Some(Capture(h.clock, false)) && !n.failed
               else n.refresh.None? && n.failed
  {
  }

  /** Any other pass changes nothing but what is painted: a change is shown to the observer unless it is marked. */
  lemma PassPaints(h: Home, ok: bool, pending: bool)
    requires h.open
    ensures var n := Next(h, Top(false, ok, pending));
            && n.open && n.source == h.source && n.refresh == h.refresh && n.failed == h.failed &&
               n.lastAct == h.lastAct
            && n.dirty == (h.dirty && pending)
            && n.emitted == if h.dirty && !pending && h.refresh.None? && !h.failed
                            then h.emitted + [Emission(h.source, h.lastAct)] else h.emitted
  {
  }

  // ----- keys -----

  /** What runs for a key that reaches the worker. */
  function Runs(host: Host, key: Key, claimed: bool): seq<Code> {
    HookCodes(host, key) + [Handler(key)] + ActionCodes(key, claimed)
  }

  predicate ToWorker(key: Key) { !key.Quit? && !key.Esc? && !key.Back? }

  predicate RanExactly(before: seq<Dispatch>, after: seq<Dispatch>, codes: seq<Code>, beside: bool) {
    && |after| == |before| + |codes| && after[..|before|] == before
    && forall i :: 0 <= i < |codes| ==> after[|before| + i].code == codes[i] && after[|before| + i].beside == beside
  }

  /** What waiting leaves alone: everything but the Home shown, the capture and its marks. */
  predicate Besides(h: Home, s: Home) {
    && s == h.(source := s.source, refresh := s.refresh, failed := s.failed, clock := s.clock, dirty := s.dirty)
    && h.clock <= s.clock
  }

  lemma SettledBesides(h: Home, s: Home, ok: bool)
    requires s.refresh.Some? && Besides(h, s)
    ensures Besides(h, Settled(s, ok))
  {
  }

  lemma {:induction false} FinishedEnds(h: Home, oks: nat -> bool, n: nat)
    ensures Finished(h, oks, n).refresh.None?
    decreases if h.refresh.Some? then 1 + (if h.refresh.value.superseded then 1 else 0) else 0
  {
    if h.refresh.Some? { FinishedEnds(Settled(h, oks(n)), oks, n + 1); }
  }

  lemma {:induction false} FinishedBesides(h: Home, s: Home, oks: nat -> bool, n: nat)
    requires Besides(h, s)
    ensures Besides(h, Finished(s, oks, n))
    decreases if s.refresh.Some? then 1 + (if s.refresh.value.superseded then 1 else 0) else 0
  {
    if s.refresh.Some? {
      SettledBesides(h, s, oks(n));
      FinishedBesides(h, Settled(s, oks(n)), oks, n + 1);
    }
  }

  lemma AwaitedBesides(h: Home, key: Key, oks: nat -> bool)
    ensures Besides(h, Awaited(h, key, oks))
  {
    FinishedBesides(h, h, oks, 0);
  }

  lemma RanNone(ds: seq<Dispatch>, beside: bool)
    ensures RanExactly(ds, ds, [], beside)
  {
  }

  lemma RanOne(ds: seq<Dispatch>, d: Dispatch)
    ensures RanExactly(ds, ds + [d], [d.code], d.beside)
  {
  }

  lemma RanThen(a: seq<Dispatch>, b: seq<Dispatch>, c: seq<Dispatch>, first: seq<Code>, second: seq<Code>, beside: bool)
    requires RanExactly(a, b, first, beside) && RanExactly(b, c, second, beside)
    ensures RanExactly(a, c, first + second, beside)
  {
    assert c[..|a|] == c[..|b|][..|a|];
    forall i | 0 <= i < |first + second|
      ensures c[|a| + i].code == (first + second)[i] && c[|a| + i].beside == beside
    {
      if i < |first| {
        assert c[|a| + i] == c[..|b|][|a| + i];
      } else {
        assert c[|b| + (i - |first|)].code == second[i - |first|];
      }
    }
  }

  function HookCodes(host: Host, key: Key): seq<Code> {
    if host.hook && key != Cursor && key != Reload then [Hook(key)] else []
  }

  function ActionCodes(key: Key, claimed: bool): seq<Code> {
    if !claimed && key.Act? then [Action(key.action)] else []
  }

  lemma HookedRuns(h: Home, key: Key)
    ensures Hooked(h, key) == h.(dispatched := Hooked(h, key).dispatched)
    ensures RanExactly(h.dispatched, Hooked(h, key).dispatched, HookCodes(h.host, key), InFlight(h) > 0)
  {
    RanNone(h.dispatched, InFlight(h) > 0);
    RanOne(h.dispatched, Dispatch(Hook(key), InFlight(h) > 0, h.frames));
  }

  lemma OfferedRuns(h: Home, key: Key)
    ensures Offered(h, key) == h.(dispatched := Offered(h, key).dispatched)
    ensures RanExactly(h.dispatched, Offered(h, key).dispatched, HookCodes(h.host, key) + [Handler(key)],
                       InFlight(h) > 0)
  {
    var w := Hooked(h, key);
    HookedRuns(h, key);
    RanOne(w.dispatched, Dispatch(Handler(key), InFlight(w) > 0, w.frames));
    RanThen(h.dispatched, w.dispatched, Offered(h, key).dispatched, HookCodes(h.host, key), [Handler(key)],
            InFlight(h) > 0);
  }

  lemma RefreshedRuns(h: Home, key: Key, syncOk: bool)
    ensures Refreshed(h, key, syncOk).dispatched == h.dispatched
  {
  }

  lemma ActionRuns(w: Home, key: Key, a: Action, syncOk: bool)
    requires key == Act(a)
    ensures RanExactly(w.dispatched, Worked(w, key, syncOk).dispatched, [Action(a)], InFlight(w) > 0)
  {
    RefreshedRuns(Acted(Dispatched(w, a)), key, syncOk);
    RanOne(w.dispatched, Dispatch(Action(a), InFlight(w) > 0, if Dives(a) then w.frames + 1 else w.frames));
  }

  lemma WorkedRuns(w: Home, key: Key, claimed: bool, syncOk: bool)
    ensures RanExactly(w.dispatched, (if claimed then Claimed(w, syncOk) else Worked(w, key, syncOk)).dispatched,
                       ActionCodes(key, claimed), InFlight(w) > 0)
  {
    if !claimed && key.Act? {
      ActionRuns(w, key, key.action, syncOk);
    } else {
      RanNone(w.dispatched, InFlight(w) > 0);
    }
  }

  /** Each key that reaches the worker runs its hook, its handler and, unless the worker claims it, its action, in that
      order and nothing else; no other key runs anything. It runs beside a capture exactly when one is in flight and the
      key does not wait for it. */
  lemma KeyRuns(h: Home, key: Key, claimed: bool, oks: nat -> bool, syncOk: bool)
    requires h.open && h.frames == 0 && !h.abandoned
    ensures RanExactly(h.dispatched, Next(h, Press(key, claimed, oks, syncOk)).dispatched,
                       if ToWorker(key) then Runs(h.host, key, claimed) else [],
                       h.refresh.Some? && (h.actNow || key in {Cursor, Reload, Help}))
  {
    if ToWorker(key) {
      var a := Awaited(h, key, oks);
      var w := Offered(a, key);
      AwaitedBesides(h, key, oks);
      FinishedEnds(h, oks, 0);
      OfferedRuns(a, key);
      WorkedRuns(w, key, claimed, syncOk);
      RanThen(a.dispatched, w.dispatched, Taken(h, key, claimed, oks, syncOk).dispatched,
              HookCodes(h.host, key) + [Handler(key)], ActionCodes(key, claimed), InFlight(a) > 0);
    } else {
      RanNone(h.dispatched, h.refresh.Some? && (h.actNow || key in {Cursor, Reload, Help}));
    }
  }

  /** Quitting asks first, but not of an agent; Esc quits an agent's session only; Backspace has nowhere to go. */
  lemma LeavingKeys(h: Home, key: Key, claimed: bool, oks: nat -> bool, syncOk: bool)
    requires h.open && h.frames == 0 && !ToWorker(key)
    ensures var n := Next(h, Press(key, claimed, oks, syncOk));
            && (n.open <==> match key case Quit(confirmed) => !h.host.agent && !confirmed
                                      case Esc => !h.host.agent
                                      case _ => true)
            && (n.dirty <==> h.dirty || (n.open && key.Quit?))
            && n.source == h.source && n.refresh == h.refresh && n.failed == h.failed && n.emitted == h.emitted
  {
  }

  /** Whether a key acts on something, as far as the freshness of Home goes. */
  predicate Acting(key: Key, claimed: bool) { ToWorker(key) && (claimed || key.Act? || key == Help) }

  /** A capture begun after the last acting key is shown, or is in flight, or will follow the one that is. */
  predicate Coming(h: Home) {
    match h.refresh
    case None => h.source.Captured? && h.source.began > h.lastAct
    case Some(c) => c.superseded || c.began > h.lastAct
  }

  lemma ClaimBrings(w: Home, syncOk: bool)
    requires w.open && Truthful(w)
    ensures var n := Claimed(w, syncOk);
            && (n.open <==> w.actNow || syncOk)
            && (n.open ==> n.lastAct == w.clock && Coming(n) && n.dirty && (n.refresh.Some? <==> w.actNow))
            && (n.open ==> (n.failed <==> w.failed && !w.actNow && w.refresh.None?))
  {
  }

  lemma RefreshBrings(w: Home, key: Key, syncOk: bool)
    requires w.open && Truthful(w) && key != Reload
    ensures var n := Refreshed(Acted(w), key, syncOk);
            && (n.open <==> w.instant || syncOk)
            && (n.open ==> n.lastAct == w.clock && Coming(n) && n.dirty && (n.refresh.Some? <==> w.instant))
            && (n.open ==> !n.failed)
  {
  }

  lemma DispatchedIs(w: Home, a: Action)
    ensures Dispatched(w, a) == w.(dispatched := Dispatched(w, a).dispatched)
  {
  }

  lemma WorkBrings(w: Home, key: Key, syncOk: bool)
    requires w.open && Truthful(w) && (key.Act? || key == Help)
    ensures var n := Worked(w, key, syncOk);
            && (n.open <==> w.instant || syncOk)
            && (n.open ==> n.lastAct == w.clock && Coming(n) && n.dirty && (n.refresh.Some? <==> w.instant))
            && (n.open ==> !n.failed)
  {
    if key.Act? {
      DispatchedIs(w, key.action);
      RefreshBrings(Dispatched(w, key.action), key, syncOk);
    } else {
      RefreshBrings(w, key, syncOk);
    }
  }

  /** Every acting key is followed by a capture begun after it: in flight, or where Home is not refreshed in the
      background made at once, which ends the session if it fails. */
  lemma ActingBrings(h: Home, key: Key, claimed: bool, oks: nat -> bool, syncOk: bool)
    requires h.open && SessionOk(h) && Acting(key, claimed)
    ensures var n := Next(h, Press(key, claimed, oks, syncOk));
            var background := if claimed then h.actNow else h.instant;
            && (n.open <==> background || syncOk)
            && (n.open ==> n.lastAct >= h.clock && Coming(n) && n.dirty && (n.refresh.Some? <==> background))
            && (n.open && (background || !claimed) ==> !n.failed)
  {
    var a := Awaited(h, key, oks);
    AwaitedBesides(h, key, oks);
    AwaitedOk(h, key, oks);
    OfferedOk(a, key);
    OfferedRuns(a, key);
    if claimed { ClaimBrings(Offered(a, key), syncOk); } else { WorkBrings(Offered(a, key), key, syncOk); }
  }

  /** A key that does not wait, claimed without act-during-refresh: the capture in flight is dropped, and with it the
      mark of an earlier failure, which otherwise stays. */
  lemma ClaimMarks(h: Home, key: Key, oks: nat -> bool, syncOk: bool)
    requires h.open && !h.actNow && key in {Cursor, Reload, Help}
    ensures var n := Next(h, Press(key, true, oks, syncOk));
            n.open ==>
              && n.refresh.None? && n.source == Captured(n.clock - 1)
              && (n.failed <==> h.failed && h.refresh.None?)
  {
  }

  /** An explicit refresh is followed by a capture begun after it exactly when none was in flight before; otherwise it
      joins the one that was. Without a background refresh it is made at once. */
  lemma ReloadBrings(h: Home, oks: nat -> bool, syncOk: bool)
    requires h.open && Truthful(h)
    ensures var n := Next(h, Press(Reload, false, oks, syncOk));
            && n.lastAct == h.lastAct && (n.open <==> h.instant || syncOk)
            && (h.instant ==> n.dirty && !n.failed)
            && (h.instant ==> n.refresh == if h.refresh.None? then Some(Capture(h.clock, false)) else h.refresh)
            && (h.instant ==> (n.refresh.value.began >= h.clock <==> h.refresh.None?))
            && (!h.instant && n.open ==> n.source == Captured(h.clock) && n.dirty && n.refresh.None?)
  {
  }

  /** Cursor moves and keys nothing takes leave the capture in flight, and what it will be shown as, alone. */
  lemma MovesChangeNothing(h: Home, oks: nat -> bool, syncOk: bool)
    requires h.open
    ensures var n := Next(h, Press(Cursor, false, oks, syncOk));
            && n.open && n.dirty && n.source == h.source && n.refresh == h.refresh && n.failed == h.failed
            && n.lastAct == h.lastAct && n.emitted == h.emitted
  {
  }

  // ----- what the observer has seen -----

  /** Unless a change is still to be painted or Home is marked, the observer was last shown the Home that is up. */
  predicate Shown(h: Home) {
    h.open && !h.dirty && h.refresh.None? && !h.failed ==>
      h.emitted != [] && h.emitted[|h.emitted| - 1] == Emission(h.source, h.lastAct)
  }

  lemma AwaitedShown(h: Home, key: Key, oks: nat -> bool)
    requires h.open && Shown(h)
    ensures Shown(Awaited(h, key, oks))
  {
    AwaitedBesides(h, key, oks);
  }

  lemma WorkedShown(w: Home, key: Key, claimed: bool, syncOk: bool)
    requires w.open && Shown(w) && ToWorker(key)
    ensures Shown(if claimed then Claimed(w, syncOk) else Worked(w, key, syncOk))
  {
  }

  lemma TakenShown(h: Home, key: Key, claimed: bool, oks: nat -> bool, syncOk: bool)
    requires h.open && Shown(h) && ToWorker(key)
    ensures Shown(Taken(h, key, claimed, oks, syncOk))
  {
    AwaitedShown(h, key, oks);
    AwaitedBesides(h, key, oks);
    OfferedRuns(Awaited(h, key, oks), key);
    WorkedShown(Offered(Awaited(h, key, oks), key), key, claimed, syncOk);
  }

  lemma NextShown(h: Home, e: Event)
    requires h.open ==> Truthful(h)
    requires Shown(h)
    ensures Shown(Next(h, e))
  {
    if h.open && e.Press? && ToWorker(e.key) { TakenShown(h, e.key, e.claimed, e.oks, e.syncOk); }
  }

  lemma {:induction false} SessionShown(host: Host, live: bool, act: bool, saved: bool, es: seq<Event>)
    ensures Shown(Session(Entered(host, live, act, saved), es))
  {
    if es != [] {
      var front := es[..|es| - 1];
      SessionShown(host, live, act, saved, front);
      SessionSafe(host, live, act, saved, front);
      NextShown(Session(Entered(host, live, act, saved), front), es[|es| - 1]);
    }
  }

  /** A pass in which what is in flight has finished, with no input queued. */
  const DONE := Top(true, true, false)

  lemma Settles(h: Home)
    requires h.open && Truthful(h) && Shown(h) && (h.refresh.Some? || !h.failed)
    ensures var n := Next(Next(h, DONE), DONE);
            && n.open && n.refresh.None? && !n.failed && !n.dirty && n.lastAct == h.lastAct
            && n.source.Captured? && n.source.began > n.lastAct
            && n.emitted != [] && n.emitted[|n.emitted| - 1] == Emission(n.source, n.lastAct)
  {
    var one := Next(h, DONE);
    NextShown(h, DONE);
    if h.refresh.Some? { PassDelivers(h, false); } else { PassPaints(h, true, false); }
    NextShown(one, DONE);
    if one.refresh.Some? { PassDelivers(one, false); } else { PassPaints(one, true, false); }
  }

  /** After any session still open, unless a refresh failed and none is in flight: once the capture in flight and its
      follow-up have finished and succeeded, and no input is queued, what the observer was last shown is the Home on
      screen, live, and captured after the last acting key. */
  lemma SessionSettles(host: Host, live: bool, act: bool, saved: bool, es: seq<Event>)
    ensures var h := Session(Entered(host, live, act, saved), es);
            var n := Session(Entered(host, live, act, saved), es + [DONE] + [DONE]);
            h.open && (h.refresh.Some? || !h.failed) ==>
              && n.open && n.refresh.None? && !n.failed && n.lastAct == h.lastAct
              && n.source.Captured? && n.source.began > n.lastAct
              && n.emitted != [] && n.emitted[|n.emitted| - 1] == Emission(n.source, n.lastAct)
  {
    var h := Session(Entered(host, live, act, saved), es);
    SessionSnoc(Entered(host, live, act, saved), es, DONE);
    SessionSnoc(Entered(host, live, act, saved), es + [DONE], DONE);
    SessionSafe(host, live, act, saved, es);
    SessionShown(host, live, act, saved, es);
    if h.open && (h.refresh.Some? || !h.failed) { Settles(h); }
  }
}
