/** The Home loop and its background capture: what the observer is shown, and what may run beside a capture. */
module HomeRefresh {
  import opened PyText

  /** Where the Home on screen came from. Instants are ticks of a clock read when a capture starts or a key acts. */
  datatype Source = Saved | Captured(began: nat)

  /** A background capture in flight (`_Refresh`). */
  datatype Capture = Capture(began: nat, superseded: bool)

  datatype Action = Drill | Filter | Digit | AckSnooze | Shelf

  datatype Key = Cursor | Reload | Help | Act(action: Action) | Inert | Quit(confirmed: bool) | Esc | Back

  /** A home model handed to the observer, and the last acting key at that moment. */
  datatype Emission = Emission(source: Source, lastAct: nat)

  /** What the loop runs: an action, or for a key the worker's `before_action` hook and its own key handler. */
  datatype Code = Action(action: Action) | Hook(key: Key) | Handler(key: Key)

  /** Code run: whether a background capture was in flight beside it, and the frames on the back stack. */
  datatype Dispatch = Dispatch(code: Code, beside: bool, depth: nat)

  /** What the host asks for: an agent at the keys, and a hook before actions. */
  datatype Host = Host(agent: bool, hook: bool)

  /** `frames` counts the back stack; `abandoned` is a capture a pop-back left running without anyone to adopt it. */
  datatype Home = Home(host: Host, source: Source, refresh: Option<Capture>, failed: bool, dirty: bool, instant: bool,
                       actNow: bool, clock: nat, lastAct: nat, frames: nat, abandoned: bool, open: bool,
                       emitted: seq<Emission>, dispatched: seq<Dispatch>)

  /** One pass of the loop top (has the capture finished, did it succeed, is input queued), or one key: whether the
      worker claims it, whether captures waited for or run inline succeed. */
  datatype Event =
    | Top(finished: bool, ok: bool, pending: bool)
    | Press(key: Key, claimed: bool, oks: nat -> bool, syncOk: bool)

  // ----- starting -----

  /** `_home` on entry: `live` says whether the host has instant Home, `act` act-during-refresh; a null saved Home
      means it was loaded on the loading page. */
  function Entered(host: Host, live: bool, act: bool, saved: bool): Home {
    if live && saved then
      Home(host, Saved, Some(Capture(1, false)), false, true, true, act, 2, 0, 0, false, true, [], [])
    else
      Home(host, Captured(1), None, false, true, live, live && act, 2, 0, 0, false, true, [], [])
  }

  // ----- the capture in flight -----

  /** Background captures in flight, adopted or not. */
  function InFlight(h: Home): nat { (if h.refresh.Some? then 1 else 0) + if h.abandoned then 1 else 0 }

  function Started(h: Home): Home {
    h.(refresh := Some(Capture(h.clock, false)), clock := h.clock + 1)
  }

  /** `_request_refresh`. */
  function Requested(h: Home, supersede: bool): Home {
    match h.refresh
    case None => Started(h)
    case Some(c) => if supersede then h.(refresh := Some(c.(superseded := true))) else h
  }

  /** `_settle_refresh`: adopt a finished capture, or keep the Home shown when it failed. */
  function Settled(h: Home, ok: bool): Home
    requires h.refresh.Some?
  {
    var c := h.refresh.value;
    var shown := if ok then h.(source := Captured(c.began)) else h;
    if c.superseded then Started(shown).(failed := false) else shown.(refresh := None, failed := !ok)
  }

  /** `_finish_refresh`: settle the capture in flight and any follow-up, from the `n`-th wait on. */
  function Finished(h: Home, oks: nat -> bool, n: nat): Home
    decreases if h.refresh.Some? then 1 + (if h.refresh.value.superseded then 1 else 0) else 0
  {
    if h.refresh.None? then h else Finished(Settled(h, oks(n)), oks, n + 1)
  }

  /** `_recapture` on this thread; a capture that raises ends the session. */
  function Recaptured(h: Home, ok: bool): Home {
    if ok then h.(source := Captured(h.clock), clock := h.clock + 1, dirty := true) else h.(open := false)
  }

  function Acted(h: Home): Home { h.(lastAct := h.clock, clock := h.clock + 1) }

  // ----- one pass, one key -----

  predicate Marked(h: Home) { h.refresh.Some? || h.failed }

  function Painted(h: Home, pending: bool): Home {
    if !h.dirty || pending then h
    else h.(dirty := false, emitted := if Marked(h) then h.emitted else h.emitted + [Emission(h.source, h.lastAct)])
  }

  function TopPass(h: Home, finished: bool, ok: bool, pending: bool): Home {
    Painted(if h.refresh.Some? && finished then Settled(h, ok).(dirty := true) else h, pending)
  }

  function Popped(h: Home): Home { if h.frames == 0 then h else h.(frames := h.frames - 1) }

  /** Backspace with somewhere to go: the restored Home, seeded or captured afresh. */
  function PoppedBack(h: Home, syncOk: bool): Home {
    if h.actNow then (if h.refresh.None? then Started(h) else h).(failed := false, dirty := true)
    else
      var left := h.(refresh := None, failed := false, instant := false, abandoned := h.abandoned || h.refresh.Some?);
      Recaptured(left, syncOk)
  }

  /** A key that may open or act on something. */
  predicate Acts(key: Key) { match key case Cursor | Reload | Help => false case _ => true }

  /** Such a key waits for the capture in flight, unless acting beside it is allowed. */
  function Awaited(h: Home, key: Key, oks: nat -> bool): Home {
    if h.refresh.Some? && !h.actNow && Acts(key) then Finished(h, oks, 0).(dirty := true) else h
  }

  /** The hook runs before every key but cursor moves and the explicit refresh. */
  predicate HookRuns(h: Home, key: Key) { h.host.hook && !key.Cursor? && !key.Reload? }

  function Hooked(h: Home, key: Key): Home {
    if HookRuns(h, key) then h.(dispatched := h.dispatched + [Dispatch(Hook(key), InFlight(h) > 0, h.frames)]) else h
  }

  /** Every key that reaches the worker is offered to its handler first. */
  function Offered(h: Home, key: Key): Home {
    var w := Hooked(h, key);
    w.(dispatched := w.dispatched + [Dispatch(Handler(key), InFlight(w) > 0, w.frames)])
  }

  /** A dive into a nested view pushes a frame and pops it on return; acknowledging and snoozing open none. */
  predicate Dives(a: Action) { a != AckSnooze }

  function Dispatched(h: Home, a: Action): Home {
    var entered := if Dives(a) then h.(frames := h.frames + 1) else h;
    var ran := entered.(dispatched := h.dispatched + [Dispatch(Action(a), InFlight(h) > 0, entered.frames)]);
    if Dives(a) then Popped(ran) else ran
  }

  /** The worker took the key. */
  function Claimed(h: Home, syncOk: bool): Home {
    if h.actNow then Requested(Acted(h), true).(failed := false, dirty := true)
    else Recaptured(Acted(h).(refresh := None, failed := if h.refresh.Some? then false else h.failed), syncOk)
  }

  /** After an action, a help page or an explicit refresh. */
  function Refreshed(h: Home, key: Key, syncOk: bool): Home {
    if h.instant then Requested(h, key != Reload).(failed := false, dirty := true) else Recaptured(h, syncOk)
  }

  /** The framework's own branches, for a key the worker left. */
  function Worked(w: Home, key: Key, syncOk: bool): Home {
    match key
    case Cursor => w.(dirty := true)
    case Reload => Refreshed(w, key, syncOk)
    case Help => Refreshed(Acted(w), key, syncOk)
    case Act(a) => Refreshed(Acted(Dispatched(w, a)), key, syncOk)
    case _ => w
  }

  /** A key that is neither quit, Esc nor Backspace. */
  function Taken(h: Home, key: Key, claimed: bool, oks: nat -> bool, syncOk: bool): Home {
    var w := Offered(Awaited(h, key, oks), key);
    if claimed then Claimed(w, syncOk) else Worked(w, key, syncOk)
  }

  function Pressed(h: Home, key: Key, claimed: bool, oks: nat -> bool, syncOk: bool): Home {
    match key
    case Quit(confirmed) => if h.host.agent || confirmed then h.(open := false) else h.(dirty := true)
    case Esc => if h.host.agent then h.(open := false) else h
    case Back => if h.frames > 0 then PoppedBack(Popped(h), syncOk) else h
    case _ => Taken(h, key, claimed, oks, syncOk)
  }

  function Next(h: Home, e: Event): Home {
    if !h.open then h
    else match e
      case Top(finished, ok, pending) => TopPass(h, finished, ok, pending)
      case Press(key, claimed, oks, syncOk) => Pressed(h, key, claimed, oks, syncOk)
  }

  function Session(h: Home, es: seq<Event>): Home {
    if es == [] then h else Next(Session(h, es[..|es| - 1]), es[|es| - 1])
  }

  // ----- what every session keeps -----

  /** An emission is fresh when its capture began after the last acting key. */
  predicate Fresh(e: Emission) { e.source.Captured? && e.source.began > e.lastAct }

  /** An unmarked Home is a live one begun after the last acting key; a capture in flight is that fresh or
      superseded. */
  predicate Truthful(h: Home) {
    match h case Home(_, source, refresh, failed, _, instant, actNow, clock, lastAct, frames, abandoned, _, _, _) =>
      && lastAct < clock && (source.Captured? ==> source.began < clock)
      && (refresh.None? && !failed ==> source.Captured? && source.began > lastAct)
      && (refresh.Some? ==> refresh.value.began < clock && (refresh.value.superseded || refresh.value.began > lastAct))
      && (!instant ==> refresh.None? && !failed) && (actNow ==> instant) && frames == 0 && !abandoned
  }

  /** The worker's code may run beside a capture for the keys that do not wait for it. */
  predicate BesideAllowed(code: Code) {
    match code case Action(_) => false case Hook(key) => key == Help case Handler(key) => !Acts(key)
  }

  ghost predicate SessionOk(h: Home) {
    && (h.open ==> Truthful(h)) && InFlight(h) <= 1
    && (forall e :: e in h.emitted ==> Fresh(e))
    && (forall d :: d in h.dispatched ==> d.depth == if d.code.Action? && d.code.action != AckSnooze then 1 else 0)
    && (!h.actNow ==> forall d :: d in h.dispatched ==> d.beside ==> BesideAllowed(d.code))
  }

  /** A settled capture leaves either an unmarked fresh Home, a marked one, or a follow-up that is not superseded. */
  lemma SettledTruthful(h: Home, ok: bool)
    requires Truthful(h) && h.refresh.Some? && h.instant
    ensures var s := Settled(h, ok);
            && Truthful(s) && s.emitted == h.emitted && s.dispatched == h.dispatched && s.open == h.open
            && s.actNow == h.actNow && s.instant && s.lastAct == h.lastAct
            && (s.refresh.Some? <==> h.refresh.value.superseded) && (s.refresh.Some? ==> !s.refresh.value.superseded)
  {
  }

  /** Waiting ends with nothing in flight. */
  lemma {:induction false} FinishedTruthful(h: Home, oks: nat -> bool, n: nat)
    requires Truthful(h) && h.instant
    ensures var s := Finished(h, oks, n);
            && Truthful(s) && s.refresh.None? && s.emitted == h.emitted && s.dispatched == h.dispatched &&
               s.open == h.open
            && s.actNow == h.actNow && s.instant
    decreases if h.refresh.Some? then 1 + (if h.refresh.value.superseded then 1 else 0) else 0
  {
    if h.refresh.Some? {
      SettledTruthful(h, oks(n));
      FinishedTruthful(Settled(h, oks(n)), oks, n + 1);
    }
  }

  lemma AwaitedOk(h: Home, key: Key, oks: nat -> bool)
    requires SessionOk(h) && h.open
    ensures var w := Awaited(h, key, oks);
            SessionOk(w) && w.open && w.actNow == h.actNow && (Acts(key) && !h.actNow ==> w.refresh.None?)
  {
    if h.refresh.Some? && !h.actNow { FinishedTruthful(h, oks, 0); }
  }

  lemma HookedOk(h: Home, key: Key)
    requires SessionOk(h) && h.open && (Acts(key) && !h.actNow ==> h.refresh.None?)
    ensures var w := Hooked(h, key);
            SessionOk(w) && w.open && w.actNow == h.actNow && (Acts(key) && !h.actNow ==> w.refresh.None?)
  {
  }

  lemma OfferedOk(h: Home, key: Key)
    requires SessionOk(h) && h.open && (Acts(key) && !h.actNow ==> h.refresh.None?)
    ensures var w := Offered(h, key);
            SessionOk(w) && w.open && w.actNow == h.actNow && (Acts(key) && !h.actNow ==> w.refresh.None?)
  {
    HookedOk(h, key);
  }

  lemma ClaimedOk(h: Home, syncOk: bool)
    requires SessionOk(h) && h.open
    ensures SessionOk(Claimed(h, syncOk))
  {
  }

  lemma RefreshedOk(h: Home, key: Key, syncOk: bool)
    requires SessionOk(h) && h.open && key != Cursor
    ensures SessionOk(Refreshed(if key == Reload then h else Acted(h), key, syncOk))
  {
  }

  lemma DispatchedOk(h: Home, a: Action)
    requires SessionOk(h) && h.open && (!h.actNow ==> h.refresh.None?)
    ensures SessionOk(Dispatched(h, a))
  {
  }

  lemma WorkedOk(w: Home, key: Key, syncOk: bool)
    requires SessionOk(w) && w.open && (key.Act? && !w.actNow ==> w.refresh.None?)
    ensures SessionOk(Worked(w, key, syncOk))
  {
    if key.Act? {
      DispatchedOk(w, key.action);
      RefreshedOk(Dispatched(w, key.action), key, syncOk);
    } else if key in {Reload, Help} {
      RefreshedOk(w, key, syncOk);
    }
  }

  lemma PressedOk(h: Home, key: Key, claimed: bool, oks: nat -> bool, syncOk: bool)
    requires SessionOk(h) && h.open
    ensures SessionOk(Pressed(h, key, claimed, oks, syncOk))
  {
    if !(key.Quit? || key.Esc? || key.Back?) {
      AwaitedOk(h, key, oks);
      OfferedOk(Awaited(h, key, oks), key);
      var w := Offered(Awaited(h, key, oks), key);
      if claimed { ClaimedOk(w, syncOk); } else { WorkedOk(w, key, syncOk); }
    }
  }

  lemma TopOk(h: Home, finished: bool, ok: bool, pending: bool)
    requires SessionOk(h) && h.open
    ensures SessionOk(TopPass(h, finished, ok, pending))
  {
    if h.refresh.Some? { SettledTruthful(h, ok); }
  }

  /** In every session: the observer sees only live Homes captured after the last acting key, at most one background
      capture is in flight, the back stack is empty at every key and holds one frame inside a nested view, and without
      act-during-refresh nothing runs beside a capture but the hook and the key handler on keys that do not wait. */
  lemma {:induction false} SessionSafe(host: Host, live: bool, act: bool, saved: bool, es: seq<Event>)
    ensures SessionOk(Session(Entered(host, live, act, saved), es))
  {
    if es != [] {
      var front := es[..|es| - 1];
      SessionSafe(host, live, act, saved, front);
      var h := Session(Entered(host, live, act, saved), front);
      if h.open {
        match es[|es| - 1]
        case Top(finished, ok, pending) => TopOk(h, finished, ok, pending);
        case Press(key, claimed, oks, syncOk) => PressedOk(h, key, claimed, oks, syncOk);
      }
    }
  }

  /** Backspace never leaves Home: there is nothing to go back to. */
  lemma BackIsInert(host: Host, live: bool, act: bool, saved: bool, es: seq<Event>, key: Event)
    requires key.Press? && key.key == Back
    ensures var h := Session(Entered(host, live, act, saved), es); Next(h, key) == h
  {
    SessionSafe(host, live, act, saved, es);
  }

  lemma FinishOnce(h: Home, oks: nat -> bool, n: nat)
    requires h.refresh.Some? && !h.refresh.value.superseded
    ensures Finished(h, oks, n) == Settled(h, oks(n))
  {
  }

  lemma FinishTwice(h: Home, oks: nat -> bool, n: nat)
    requires h.refresh.Some? && h.refresh.value.superseded
    ensures Finished(h, oks, n) == Settled(Settled(h, oks(n)), oks(n + 1))
  {
    FinishOnce(Settled(h, oks(n)), oks, n + 1);
  }

  /** Waiting for a capture takes one more exactly when it was superseded; the last of them decides what is shown. */
  lemma AtMostOneFollowUp(h: Home, oks: nat -> bool, n: nat)
    requires h.refresh.Some?
    ensures var s, again := Finished(h, oks, n), h.refresh.value.superseded;
            && s.refresh.None? && s.clock - h.clock == (if again then 1 else 0)
            && (s.failed <==> !oks(if again then n + 1 else n))
            && (!s.failed ==> s.source == Captured(if again then h.clock else h.refresh.value.began))
  {
    if h.refresh.value.superseded { FinishTwice(h, oks, n); } else { FinishOnce(h, oks, n); }
  }

  // ----- the loop's own code -----

  class HomeLoop {
    const host: Host
    var source: Source
    var refresh: Option<Capture>
    var failed: bool
    var dirty: bool
    var clock: nat
    var lastAct: nat
    var instant: bool
    var actNow: bool
    var frames: nat
    var abandoned: bool
    var open: bool
    var emitted: seq<Emission>
    var dispatched: seq<Dispatch>

    ghost function Value(): Home
      reads this
    {
      Home(host, source, refresh, failed, dirty, instant, actNow, clock, lastAct, frames, abandoned, open, emitted,
           dispatched)
    }

    constructor (host: Host, live: bool, act: bool, saved: bool)
      ensures Value() == Entered(host, live, act, saved)
    {
      this.host := host;
      instant, actNow, frames, abandoned, open := live, live && act, 0, false, true;
      failed, dirty, lastAct, emitted, dispatched := false, true, 0, [], [];
      if live && saved {
        source, refresh, clock := Saved, Some(Capture(1, false)), 2;
      } else {
        source, refresh, clock := Captured(1), None, 2;
      }
    }

    method Request(supersede: bool)
      modifies this`refresh, this`clock
      ensures Value() == Requested(old(Value()), supersede)
    {
      if refresh.None? {
        refresh, clock := Some(Capture(clock, false)), clock + 1;
      } else if supersede {
        refresh := Some(refresh.value.(superseded := true));
      }
    }

    method Settle(ok: bool)
      requires refresh.Some?
      modifies this`source, this`refresh, this`failed, this`clock
      ensures Value() == Settled(old(Value()), ok)
    {
      if ok { source := Captured(refresh.value.began); }
      if refresh.value.superseded {
        refresh, clock, failed := Some(Capture(clock, false)), clock + 1, false;
      } else {
        refresh, failed := None, !ok;
      }
    }

    method Finish(oks: nat -> bool)
      modifies this`source, this`refresh, this`failed, this`clock
      ensures Value() == Finished(old(Value()), oks, 0)
    {
      var n := 0;
      while refresh.Some?
        invariant Finished(Value(), oks, n) == Finished(old(Value()), oks, 0)
        decreases if refresh.Some? then 1 + (if refresh.value.superseded then 1 else 0) else 0
      {
        Settle(oks(n));
        n := n + 1;
      }
    }

    /** The top of the loop: settle a finished capture, then paint; only an unmarked Home reaches the observer. */
    method LoopTop(finished: bool, ok: bool, pending: bool)
      modifies this
      ensures Value() == TopPass(old(Value()), finished, ok, pending)
    {
      if refresh.Some? && finished {
        Settle(ok);
        dirty := true;
      }
      if dirty && !pending {
        if refresh.None? && !failed { emitted := emitted + [Emission(source, lastAct)]; }
        dirty := false;
      }
    }

    method Recapture(ok: bool)
      modifies this`source, this`clock, this`dirty, this`open
      ensures Value() == Recaptured(old(Value()), ok)
    {
      if ok {
        source, clock, dirty := Captured(clock), clock + 1, true;
      } else {
        open := false;
      }
    }

    method Act()
      modifies this`lastAct, this`clock
      ensures Value() == Acted(old(Value()))
    {
      lastAct, clock := clock, clock + 1;
    }

    /** Backspace: the restored Home runs in this one's place. */
    method PopBack(syncOk: bool)
      modifies this
      ensures Value() == PoppedBack(old(Value()), syncOk)
    {
      if actNow {
        if refresh.None? { Request(false); }
        failed, dirty := false, true;
      } else {
        abandoned := abandoned || refresh.Some?;
        refresh, failed, instant := None, false, false;
        Recapture(syncOk);
      }
    }

    /** The tail of the loop: the re-capture an action, a help page or an explicit refresh asks for. */
    method Refresh(key: Key, syncOk: bool)
      modifies this
      ensures Value() == Refreshed(old(Value()), key, syncOk)
    {
      if instant {
        Request(key != Reload);
        failed, dirty := false, true;
      } else {
        Recapture(syncOk);
      }
    }

    method Claim(syncOk: bool)
      modifies this
      ensures Value() == Claimed(old(Value()), syncOk)
    {
      Act();
      if actNow {
        Request(true);
        failed, dirty := false, true;
        return;
      }
      if refresh.Some? { refresh, failed := None, false; }
      Recapture(syncOk);
    }

    /** One action, in a nested view where it opens one. */
    method Run(a: Action)
      modifies this`frames, this`dispatched
      ensures Value() == Dispatched(old(Value()), a)
    {
      if Dives(a) { frames := frames + 1; }
      dispatched := dispatched + [Dispatch(Action(a), refresh.Some? || abandoned, frames)];
      if Dives(a) { frames := frames - 1; }
    }

    method Work(key: Key, syncOk: bool)
      modifies this
      ensures Value() == Worked(old(Value()), key, syncOk)
    {
      if key == Cursor {
        dirty := true;
      } else if key == Reload {
        Refresh(key, syncOk);
      } else if key == Help || key.Act? {
        if key.Act? { Run(key.action); }
        Act();
        Refresh(key, syncOk);
      }
    }

    method Await(key: Key, oks: nat -> bool)
      modifies this`source, this`refresh, this`failed, this`clock, this`dirty
      ensures Value() == Awaited(old(Value()), key, oks)
    {
      if refresh.Some? && !actNow && Acts(key) {
        Finish(oks);
        dirty := true;
      }
    }

    method Offer(key: Key)
      modifies this`dispatched
      ensures Value() == Offered(old(Value()), key)
    {
      if host.hook && !key.Cursor? && !key.Reload? {
        dispatched := dispatched + [Dispatch(Hook(key), refresh.Some? || abandoned, frames)];
      }
      dispatched := dispatched + [Dispatch(Handler(key), refresh.Some? || abandoned, frames)];
    }

    method Take(key: Key, claimed: bool, oks: nat -> bool, syncOk: bool)
      modifies this
      ensures Value() == Taken(old(Value()), key, claimed, oks, syncOk)
    {
      Await(key, oks);
      Offer(key);
      if claimed { Claim(syncOk); } else { Work(key, syncOk); }
    }

    method Press(key: Key, claimed: bool, oks: nat -> bool, syncOk: bool)
      modifies this
      ensures Value() == Pressed(old(Value()), key, claimed, oks, syncOk)
    {
      match key
      case Quit(confirmed) => if host.agent || confirmed { open := false; } else { dirty := true; }
      case Esc => if host.agent { open := false; }
      case Back =>
        if frames > 0 {
          frames := frames - 1;
          PopBack(syncOk);
        }
      case _ => Take(key, claimed, oks, syncOk);
    }
  }

  /** A key the worker claims after a failed capture is followed by a live Home that still reads "couldn't refresh":
      the failure mark is cleared only when a capture was in flight. */
  lemma ClaimAfterFailureStaysMarked(h: Home)
    requires Truthful(h) && !h.actNow && h.refresh.None?
    ensures var c := Claimed(h, true); c.source.Captured? && c.source.began > c.lastAct && (Marked(c) <==> h.failed)
  {
  }

  lemma SessionSnoc(h: Home, es: seq<Event>, e: Event)
    ensures Session(h, es + [e]) == Next(Session(h, es), e)
  {
    Snoc(es, e);
  }

  lemma ThreeEvents(h: Home, a: Event, b: Event, c: Event)
    ensures Session(h, [a, b, c]) == Next(Next(Next(h, a), b), c)
  {
    SessionSnoc(h, [], a);
    SessionSnoc(h, [a], b);
    SessionSnoc(h, [a, b], c);
    assert [] + [a] == [a] && [a] + [b] == [a, b] && [a, b] + [c] == [a, b, c];
  }

  /** A Home still marked as failed, live and current, and never shown to the observer. */
  predicate LiveButMarked(h: Home) {
    match h case Home(_, source, refresh, failed, _, _, _, _, lastAct, _, _, open, emitted, _) =>
      open && refresh.None? && failed && source.Captured? && source.began > lastAct && emitted == []
  }

  lemma FirstRefreshFails(h: Home)
    requires h == Entered(h.host, true, false, true)
    ensures var f := TopPass(h, true, false, false);
            f.open && f.failed && f.refresh.None? && !f.actNow && f.emitted == [] && f.frames == 0 &&
              f.lastAct < f.clock
  {
  }

  lemma ClaimAfterFailure(f: Home, key: Key, oks: nat -> bool)
    requires f.open && f.failed && f.refresh.None? && !f.actNow && f.emitted == [] && (key.Act? || key.Inert?)
    ensures LiveButMarked(Pressed(f, key, true, oks, true))
  {
  }

  lemma MarkedNotEmitted(h: Home)
    requires LiveButMarked(h)
    ensures LiveButMarked(TopPass(h, false, true, false))
  {
  }

  /** Such a session: the first refresh fails, the worker claims a key, and the live Home that follows is painted as
      failed and never shown to the observer. */
  lemma MarkedSession(host: Host, key: Key, oks: nat -> bool)
    requires key.Act? || key.Inert?
    ensures var es := [Top(true, false, false), Press(key, true, oks, true), Top(false, true, false)];
            LiveButMarked(Session(Entered(host, true, false, true), es))
  {
    var h := Entered(host, true, false, true);
    var f := TopPass(h, true, false, false);
    ThreeEvents(h, Top(true, false, false), Press(key, true, oks, true), Top(false, true, false));
    FirstRefreshFails(h);
    ClaimAfterFailure(f, key, oks);
    MarkedNotEmitted(Pressed(f, key, true, oks, true));
  }

  /** The worker's code does run beside a capture: the hook and the handler on the help key, which does not wait. */
  lemma HookBesideCapture(oks: nat -> bool)
    ensures var h := Session(Entered(Host(false, true), true, false, true), [Press(Help, false, oks, true)]);
            !h.actNow && h.dispatched == [Dispatch(Hook(Help), true, 0), Dispatch(Handler(Help), true, 0)]
  {
    var h := Entered(Host(false, true), true, false, true);
    SessionSnoc(h, [], Press(Help, false, oks, true));
    assert [] + [Press(Help, false, oks, true)] == [Press(Help, false, oks, true)];
  }
}
