/** Whole agent sessions: what a write needs, and that every key is answered with a frame. */
module GateSafety {
  import opened PyText
  import opened WriteGate

  /** What the cockpit does between two messages: draw, read a key, reach a write gate, ask for a field. */
  datatype Event = Draw(id: nat) | Key | Gate(verdict: bool) | Asking(ask: Ask)

  function After(s: Server, e: Event): Server {
    match e
    case Draw(id) => Drew(s, Page(id))
    case Key => ReadKey(s).server
    case Gate(verdict) => Confirmed(s, verdict).server
    case Asking(ask) => Requested(s, ask)
  }

  /** A session over `lines`, in a process that had `before` gates. */
  function Session(mode: Mode, lines: seq<Line>, before: nat, es: seq<Event>): Server {
    if es == [] then Server(mode, lines, 0, None, 0, -1, before, [])
    else After(Session(mode, lines, before, es[..|es| - 1]), es[|es| - 1])
  }

  // ----- gates -----

  /** An applied gate had its injected policy's yes, or the line read right after its own frame applying its own
      token. */
  predicate Justified(mode: Mode, log: seq<Entry>, k: nat)
    requires k < |log| && log[k].Decided?
  {
    log[k].applied ==>
      mode == Autonomous ||
      (mode == Handshake && k >= 2 && log[k - 2] == Wrote(Frame(AwaitingApply(log[k].token))) &&
       log[k - 1].Got? && Authorizes(log[k - 1].line, log[k].token))
  }

  predicate AllJustified(mode: Mode, log: seq<Entry>) {
    forall k :: 0 <= k < |log| && log[k].Decided? ==> Justified(mode, log, k) && mode != DryRun
  }

  ghost predicate Issued(token: string, gates: nat) { exists n: nat :: n <= gates && token == TokenFor(n) }

  /** No two gates have the same token, and every token so far belongs to a gate up to `gates`. */
  ghost predicate TokensFresh(log: seq<Entry>, gates: nat) {
    && (forall i, j :: 0 <= i < j < |log| && log[i].Decided? && log[j].Decided? ==> log[i].token != log[j].token)
    && forall i :: 0 <= i < |log| && log[i].Decided? ==> Issued(log[i].token, gates)
  }

  /** Lines are read once each, in order. */
  predicate ReadOnce(log: seq<Entry>, taken: nat) {
    && (forall i, j :: 0 <= i < j < |log| && log[i].Got? && log[j].Got? ==> log[i].n < log[j].n)
    && forall i :: 0 <= i < |log| && log[i].Got? ==> log[i].n < taken
  }

  // ----- answers to keys -----

  /** A key was handed over and nothing was drawn since, nor has the next read begun. */
  predicate Owed(log: seq<Entry>) {
    log != [] && match log[|log| - 1]
                 case Dispatched(_) => true
                 case Reading => false
                 case Wrote(out) => !out.Frame? && Owed(log[..|log| - 1])
                 case _ => Owed(log[..|log| - 1])
  }

  predicate SawFrame(log: seq<Entry>) { log != [] && (IsFrame(log[|log| - 1]) || SawFrame(log[..|log| - 1])) }

  predicate IsFrame(e: Entry) { e.Wrote? && e.out.Frame? }

  /** Whenever a key read began, no key was owed a frame, once a screen existed. */
  predicate Answered(log: seq<Entry>) {
    log == [] ||
    (Answered(log[..|log| - 1]) &&
     (log[|log| - 1] == Reading ==> !Owed(log[..|log| - 1]) || !SawFrame(log[..|log| - 1])))
  }

  /** The counters agree with what happened. */
  predicate Counted(s: Server) {
    match s case Server(_, _, _, last, frames, mark, _, log) =>
      -1 <= mark <= frames && (Owed(log) <==> mark == frames) && (SawFrame(log) <==> last.Some?) && Answered(log)
  }

  ghost predicate Sound(s: Server) {
    match s case Server(mode, _, taken, _, _, _, gates, log) =>
      AllJustified(mode, log) && TokensFresh(log, gates) && ReadOnce(log, taken) && Counted(s)
  }

  // ----- every step keeps it -----

  lemma AppendGates(mode: Mode, log: seq<Entry>, gates: nat, e: Entry)
    requires AllJustified(mode, log) && TokensFresh(log, gates) && !e.Decided?
    ensures AllJustified(mode, log + [e]) && TokensFresh(log + [e], gates)
  {
  }

  lemma AppendRead(log: seq<Entry>, taken: nat, e: Entry)
    requires ReadOnce(log, taken) && (e.Got? ==> e.n == taken)
    ensures ReadOnce(log + [e], if e.Got? then taken + 1 else taken)
  {
  }

  lemma AppendKeys(log: seq<Entry>, e: Entry)
    ensures SawFrame(log + [e]) <==> IsFrame(e) || SawFrame(log)
    ensures Owed(log + [e]) <==> e.Dispatched? || (Owed(log) && e != Reading && !IsFrame(e))
    ensures Answered(log + [e]) <==> Answered(log) && (e == Reading ==> !Owed(log) || !SawFrame(log))
  {
    Snoc(log, e);
  }

  /** Entries that settle nothing. */
  lemma NotedKeeps(s: Server, e: Entry)
    requires Sound(s) && (e.Closed? || e == Wrote(Error) || e == Wrote(Request))
    ensures Sound(Noted(s, e))
  {
    AppendGates(s.mode, s.log, s.gates, e);
    AppendRead(s.log, s.taken, e);
    AppendKeys(s.log, e);
  }

  lemma TookKeeps(s: Server)
    requires Sound(s) && s.input != []
    ensures Sound(Took(s))
  {
    var e := Got(s.taken, s.input[0]);
    AppendGates(s.mode, s.log, s.gates, e);
    AppendRead(s.log, s.taken, e);
    AppendKeys(s.log, e);
  }

  lemma DrewKeeps(s: Server, screen: Screen)
    requires Sound(s)
    ensures Sound(Drew(s, screen))
  {
    var e := Wrote(Frame(screen));
    AppendGates(s.mode, s.log, s.gates, e);
    AppendRead(s.log, s.taken, e);
    AppendKeys(s.log, e);
  }

  /** Resending the screen in answer to a snapshot, while no key is owed. */
  lemma ResentKeeps(s: Server)
    requires Sound(s) && s.mark == -1
    ensures Sound(Resent(s))
  {
    if s.last.Some? {
      var e := Wrote(Frame(s.last.value));
      AppendGates(s.mode, s.log, s.gates, e);
      AppendRead(s.log, s.taken, e);
      AppendKeys(s.log, e);
    }
  }

  lemma DispatchedKeeps(s: Server, key: string)
    requires Sound(s)
    ensures Sound(Noted(s, Dispatched(key)).(mark := s.frames))
  {
    AppendGates(s.mode, s.log, s.gates, Dispatched(key));
    AppendRead(s.log, s.taken, Dispatched(key));
    AppendKeys(s.log, Dispatched(key));
  }

  lemma {:induction false} KeyedKeeps(s: Server)
    requires Sound(s) && s.mark == -1
    ensures Sound(Keyed(s).server)
    decreases |s.input|
  {
    if s.input == [] {
      NotedKeeps(s, Closed);
    } else {
      TookKeeps(s);
      var t := Took(s);
      match MeaningOf(s.input[0])
      case Skip => KeyedKeeps(t);
      case Reject =>
        NotedKeeps(t, Wrote(Error));
        KeyedKeeps(Noted(t, Wrote(Error)));
      case Press(key) => DispatchedKeeps(t, key);
      case Snapshot =>
        ResentKeeps(t);
        KeyedKeeps(Resent(t));
      case Quit =>
    }
  }

  /** The read begins only once the previous key is answered. */
  lemma ReadingKeeps(s: Server)
    requires Sound(s)
    ensures Sound(Noted(if s.mark == s.frames then Resent(s) else s, Reading).(mark := -1))
  {
    if s.mark == s.frames && s.last.Some? {
      var e := Wrote(Frame(s.last.value));
      AppendGates(s.mode, s.log, s.gates, e);
      AppendRead(s.log, s.taken, e);
      AppendKeys(s.log, e);
    }
    var t := if s.mark == s.frames then Resent(s) else s;
    AppendGates(t.mode, t.log, t.gates, Reading);
    AppendRead(t.log, t.taken, Reading);
    AppendKeys(t.log, Reading);
  }

  lemma ReadKeyKeeps(s: Server)
    requires Sound(s)
    ensures Sound(ReadKey(s).server)
  {
    ReadingKeeps(s);
    KeyedKeeps(Noted(if s.mark == s.frames then Resent(s) else s, Reading).(mark := -1));
  }

  lemma TokensDiffer(m: nat, n: nat)
    requires m != n
    ensures TokenFor(m) != TokenFor(n)
  {
    if TokenFor(m) == TokenFor(n) {
      assert TokenFor(m)[5..] == Decimal(m) && TokenFor(n)[5..] == Decimal(n);
      DecimalInjective(m, n);
    }
  }

  /** A new gate's token is new. */
  lemma DecidedFresh(log: seq<Entry>, gates: nat, applied: bool)
    requires TokensFresh(log, gates)
    ensures TokensFresh(log + [Decided(TokenFor(gates + 1), applied)], gates + 1)
  {
    var more := log + [Decided(TokenFor(gates + 1), applied)];
    forall i | 0 <= i < |log| && log[i].Decided?
      ensures more[i].token != TokenFor(gates + 1)
      ensures Issued(more[i].token, gates + 1)
    {
      var n: nat :| n <= gates && log[i].token == TokenFor(n);
      TokensDiffer(n, gates + 1);
    }
    assert more[|log|].token == TokenFor(gates + 1) && Issued(more[|log|].token, gates + 1);
  }

  /** A gate is open: all is sound but for its own token. */
  ghost predicate Deciding(s: Server) { s.gates > 0 && Sound(s.(gates := s.gates - 1)) }

  lemma DecidedKeeps(s: Server, applied: bool)
    requires Deciding(s) && s.mode != DryRun
    requires var log := s.log + [Decided(TokenFor(s.gates), applied)]; Justified(s.mode, log, |s.log|)
    ensures Sound(Noted(s, Decided(TokenFor(s.gates), applied)))
  {
    var e := Decided(TokenFor(s.gates), applied);
    DecidedFresh(s.log, s.gates - 1, applied);
    AppendRead(s.log, s.taken, e);
    AppendKeys(s.log, e);
    JustifiedMore(s.mode, s.log, e);
  }

  lemma JustifiedMore(mode: Mode, log: seq<Entry>, e: Entry)
    requires AllJustified(mode, log) && e.Decided? && mode != DryRun && Justified(mode, log + [e], |log|)
    ensures AllJustified(mode, log + [e])
  {
    var more := log + [e];
    forall k | 0 <= k < |more| && more[k].Decided?
      ensures Justified(mode, more, k)
    {
      if k < |log| { assert Justified(mode, log, k); }
    }
  }

  /** The frame that offers the gate. */
  lemma OfferedKeeps(s: Server)
    requires Sound(s)
    ensures Deciding(Drew(s.(gates := s.gates + 1), AwaitingApply(TokenFor(s.gates + 1))))
  {
    DrewKeeps(s, AwaitingApply(TokenFor(s.gates + 1)));
  }

  lemma EntryKeepsDeciding(s: Server, e: Entry)
    requires Deciding(s) && (e.Closed? || e == Wrote(Error))
    ensures Deciding(Noted(s, e))
  {
    NotedKeeps(s.(gates := s.gates - 1), e);
  }

  lemma TookKeepsDeciding(s: Server)
    requires Deciding(s) && s.input != []
    ensures Deciding(Took(s))
  {
    TookKeeps(s.(gates := s.gates - 1));
  }

  /** A line read at the gate, and what it decides. */
  lemma LineKeeps(s: Server, ok: bool)
    requires Deciding(s) && s.mode == Handshake && s.log != [] && s.input != []
    requires s.log[|s.log| - 1] == Wrote(Frame(AwaitingApply(TokenFor(s.gates))))
    requires ok ==> Authorizes(s.input[0], TokenFor(s.gates))
    ensures Sound(Noted(Took(s), Decided(TokenFor(s.gates), ok)))
    ensures !ok ==> Sound(Noted(Noted(Took(s), Wrote(Error)), Decided(TokenFor(s.gates), false)))
  {
    TookKeepsDeciding(s);
    DecidedKeeps(Took(s), ok);
    if !ok {
      EntryKeepsDeciding(Took(s), Wrote(Error));
      DecidedKeeps(Noted(Took(s), Wrote(Error)), false);
    }
  }

  /** The handshake: what it answers is justified by the two entries before. */
  lemma AuthorizedKeeps(s: Server)
    requires Deciding(s) && s.mode == Handshake && s.log != [] &&
             s.log[|s.log| - 1] == Wrote(Frame(AwaitingApply(TokenFor(s.gates))))
    ensures var a := Authorized(s, TokenFor(s.gates)); Sound(Noted(a.server, Decided(TokenFor(s.gates), a.ok)))
  {
    if s.input == [] {
      EntryKeepsDeciding(s, Closed);
      DecidedKeeps(Noted(s, Closed), false);
    } else {
      LineKeeps(s, s.input[0].Object? && Authorizes(s.input[0], TokenFor(s.gates)));
    }
  }

  function Offered(s: Server): Server { Drew(s.(gates := s.gates + 1), AwaitingApply(TokenFor(s.gates + 1))) }

  lemma PolicyKeeps(s: Server, verdict: bool)
    requires Sound(s) && s.mode == Autonomous
    ensures Sound(Noted(Offered(s), Decided(TokenFor(s.gates + 1), verdict)))
  {
    OfferedKeeps(s);
    DecidedKeeps(Offered(s), verdict);
  }

  lemma HandshakeKeeps(s: Server)
    requires Sound(s) && s.mode == Handshake
    ensures var a := Authorized(Offered(s), TokenFor(s.gates + 1));
            Sound(Noted(a.server, Decided(TokenFor(s.gates + 1), a.ok)))
  {
    OfferedKeeps(s);
    AuthorizedKeeps(Offered(s));
  }

  lemma ConfirmedKeeps(s: Server, verdict: bool)
    requires Sound(s)
    ensures Sound(Confirmed(s, verdict).server)
  {
    var token := TokenFor(s.gates + 1);
    match s.mode
    case DryRun =>
      ReadKeyKeeps(s);
      DrewKeeps(ReadKey(s).server, DryRunHeld);
    case Autonomous =>
      PolicyKeeps(s, verdict);
      DrewKeeps(Noted(Offered(s), Decided(token, verdict)), if verdict then Applied(token) else Declined(token));
    case Handshake =>
      HandshakeKeeps(s);
      var a := Authorized(Offered(s), token);
      DrewKeeps(Noted(a.server, Decided(token, a.ok)), if a.ok then Applied(token) else Declined(token));
  }

  lemma RequestedKeeps(s: Server, ask: Ask)
    requires Sound(s)
    ensures Sound(Requested(s, ask))
  {
    var t := Noted(s, Wrote(Request));
    NotedKeeps(s, Wrote(Request));
    if t.input == [] {
      NotedKeeps(t, Closed);
    } else {
      TookKeeps(t);
      NotedKeeps(Took(t), Wrote(Error));
    }
  }

  lemma {:induction false} SessionSound(mode: Mode, lines: seq<Line>, before: nat, es: seq<Event>)
    ensures Sound(Session(mode, lines, before, es)) && Session(mode, lines, before, es).mode == mode
  {
    if es != [] {
      var s := Session(mode, lines, before, es[..|es| - 1]);
      SessionSound(mode, lines, before, es[..|es| - 1]);
      ModeStays(s, es[|es| - 1]);
      match es[|es| - 1]
      case Draw(id) => DrewKeeps(s, Page(id));
      case Key => ReadKeyKeeps(s);
      case Gate(verdict) => ConfirmedKeeps(s, verdict);
      case Asking(ask) => RequestedKeeps(s, ask);
    }
  }

  lemma {:induction false} KeyedMode(s: Server)
    ensures Keyed(s).server.mode == s.mode
    decreases |s.input|
  {
    if s.input != [] {
      var t := Took(s);
      match MeaningOf(s.input[0])
      case Skip => KeyedMode(t);
      case Reject => KeyedMode(Noted(t, Wrote(Error)));
      case Press(_) =>
      case Snapshot => KeyedMode(Resent(t));
      case Quit =>
    }
  }

  lemma ModeStays(s: Server, e: Event)
    ensures After(s, e).mode == s.mode
  {
    KeyedMode(Noted(if s.mark == s.frames then Resent(s) else s, Reading).(mark := -1));
  }

  // ----- what a whole session guarantees -----

  /** In every session a gate applies only by its injected policy's yes, or by the handshake: the line read right after
      the frame that offered this gate carries apply and this gate's token. A dry run decides no gate at all. */
  lemma AppliesAreJustified(mode: Mode, lines: seq<Line>, before: nat, es: seq<Event>)
    ensures AllJustified(mode, Session(mode, lines, before, es).log)
  {
    SessionSound(mode, lines, before, es);
  }

  lemma {:induction false} SessionMode(mode: Mode, lines: seq<Line>, before: nat, es: seq<Event>)
    ensures Session(mode, lines, before, es).mode == mode
  {
    if es != [] {
      SessionMode(mode, lines, before, es[..|es| - 1]);
      ModeStays(Session(mode, lines, before, es[..|es| - 1]), es[|es| - 1]);
    }
  }

  lemma GateDecides(s: Server, verdict: bool)
    ensures Confirmed(s, verdict).ok <==>
            (s.mode == Autonomous && verdict) ||
            (s.mode == Handshake && s.input != [] && Authorizes(s.input[0], TokenFor(s.gates + 1)))
  {
  }

  /** The last thing a gate writes. */
  lemma GateEnds(s: Server, verdict: bool)
    ensures var log := Confirmed(s, verdict).server.log;
            log != [] && log[|log| - 1] == Wrote(Frame(
              if s.mode == DryRun then DryRunHeld
              else if Confirmed(s, verdict).ok then Applied(TokenFor(s.gates + 1))
              else Declined(TokenFor(s.gates + 1))))
  {
  }

  predicate EndsApplied(log: seq<Entry>, token: string) {
    log != [] && log[|log| - 1] == Wrote(Frame(Applied(token)))
  }

  /** What a gate of `s` with this token needs. */
  predicate Clears(mode: Mode, verdict: bool, input: seq<Line>, token: string) {
    || (mode == Autonomous && verdict)
    || (mode == Handshake && input != [] && Authorizes(input[0], token))
  }

  lemma GateAppliesExactly(s: Server, verdict: bool, r: Server)
    requires r == After(s, Gate(verdict))
    ensures EndsApplied(r.log, TokenFor(s.gates + 1)) <==> Clears(s.mode, verdict, s.input, TokenFor(s.gates + 1))
  {
    GateEnds(s, verdict);
    GateDecides(s, verdict);
  }

  /** And it applies then: whatever the session so far, a gate offered when the next line carries apply and the token
      the gate is about to issue ends the log with that gate applied; with any other line, or none, it does not. */
  lemma AppliesExactlyWhen(mode: Mode, lines: seq<Line>, before: nat, es: seq<Event>, verdict: bool)
    ensures var s := Session(mode, lines, before, es);
            EndsApplied(Session(mode, lines, before, es + [Gate(verdict)]).log, TokenFor(s.gates + 1)) <==>
            Clears(mode, verdict, s.input, TokenFor(s.gates + 1))
  {
    var s, n := Session(mode, lines, before, es), Session(mode, lines, before, es + [Gate(verdict)]);
    SessionMode(mode, lines, before, es);
    SessionSnoc(mode, lines, before, es, Gate(verdict));
    GateAppliesExactly(s, verdict, n);
  }

  /** A line authorises at most one gate: two applied gates were applied by two lines, in order, and neither line would
      have applied the other gate. */
  lemma OneLineOneGate(lines: seq<Line>, before: nat, es: seq<Event>, i: nat, j: nat)
    requires var log := Session(Handshake, lines, before, es).log;
             i < j < |log| && log[i].Decided? && log[i].applied && log[j].Decided? && log[j].applied
    ensures var log := Session(Handshake, lines, before, es).log;
            && i > 0 && log[i - 1].Got? && log[j - 1].Got? && log[i - 1].n < log[j - 1].n
            && !Authorizes(log[i - 1].line, log[j].token) && !Authorizes(log[j - 1].line, log[i].token)
  {
    SessionSound(Handshake, lines, before, es);
    var log := Session(Handshake, lines, before, es).log;
    assert Justified(Handshake, log, i) && Justified(Handshake, log, j);
  }

  /** Without a frame or the next read in between, a dispatched key is still owed its frame. */
  lemma {:induction false} OwedSince(log: seq<Entry>, i: nat, j: nat)
    requires i < j <= |log| && log[i].Dispatched? && forall k :: i < k < j ==> log[k] != Reading && !IsFrame(log[k])
    ensures Owed(log[..j])
    decreases j
  {
    assert log[..j][..j - 1] == log[..j - 1];
    if i < j - 1 { OwedSince(log, i, j - 1); }
  }

  lemma {:induction false} SawFrameBy(log: seq<Entry>, f: nat, j: nat)
    requires f < j <= |log| && IsFrame(log[f])
    ensures SawFrame(log[..j])
    decreases j
  {
    assert log[..j][..j - 1] == log[..j - 1];
    if f < j - 1 { SawFrameBy(log, f, j - 1); }
  }

  lemma {:induction false} AnsweredBy(log: seq<Entry>, j: nat)
    requires Answered(log) && j <= |log|
    ensures Answered(log[..j])
    decreases |log|
  {
    if j < |log| {
      AnsweredBy(log[..|log| - 1], j);
      assert log[..|log| - 1][..j] == log[..j];
    } else {
      assert log[..j] == log;
    }
  }

  /** A key handed over at `i`, the next key read beginning at `j`, a screen frame written at `f` before it. */
  predicate Window(log: seq<Entry>, i: nat, j: nat, f: nat) {
    && i < j < |log| && log[i].Dispatched? && log[j] == Reading && f < j && IsFrame(log[f])
    && forall k :: i < k < j ==> log[k] != Reading
  }

  lemma KeyAnswered(log: seq<Entry>, i: nat, j: nat, f: nat)
    requires Answered(log) && Window(log, i, j, f)
    ensures exists k :: i < k < j && IsFrame(log[k])
  {
    AnsweredBy(log, j + 1);
    assert log[..j + 1][..j] == log[..j];
    SawFrameBy(log, f, j);
    if forall k :: i < k < j ==> !IsFrame(log[k]) { OwedSince(log, i, j); }
  }

  /** Every key handed to the cockpit is followed by a screen frame before the next key read starts reading, as soon as
      there is a screen at all. */
  lemma FramePerKey(mode: Mode, lines: seq<Line>, before: nat, es: seq<Event>, i: nat, j: nat, f: nat)
    requires Window(Session(mode, lines, before, es).log, i, j, f)
    ensures var log := Session(mode, lines, before, es).log; exists k :: i < k < j && IsFrame(log[k])
  {
    SessionSound(mode, lines, before, es);
    KeyAnswered(Session(mode, lines, before, es).log, i, j, f);
  }

  // ----- frames that are not sent -----

  /** A screen frame written between two entries reached the agent; `sent` says which writes did not fail silently. */
  predicate Reaches(log: seq<Entry>, sent: nat -> bool, i: nat, j: nat)
    requires j <= |log|
  {
    exists k: nat :: i < k < j && IsFrame(log[k]) && sent(k)
  }

  /** With every frame between sent, a frame reaches the agent for every key. */
  lemma FrameReaches(mode: Mode, lines: seq<Line>, before: nat, es: seq<Event>, i: nat, j: nat, f: nat,
                     sent: nat -> bool)
    requires var log := Session(mode, lines, before, es).log;
             Window(log, i, j, f) && forall k: nat :: i < k < j && IsFrame(log[k]) ==> sent(k)
    ensures Reaches(Session(mode, lines, before, es).log, sent, i, j)
  {
    FramePerKey(mode, lines, before, es, i, j, f);
  }

  lemma {:induction false} KeyedGrows(s: Server)
    ensures s.log <= Keyed(s).server.log
    decreases |s.input|
  {
    if s.input != [] {
      var t := Took(s);
      match MeaningOf(s.input[0])
      case Skip => KeyedGrows(t);
      case Reject => KeyedGrows(Noted(t, Wrote(Error)));
      case Press(_) =>
      case Snapshot => KeyedGrows(Resent(t));
      case Quit =>
    }
  }

  /** The key reader writes the screen again exactly when nothing was drawn since the last key, as far as its counters
      go: they count a frame that could not be written, so that frame is not made up for. */
  lemma ResentExactly(s: Server)
    ensures var log := ReadKey(s).server.log;
            |s.log| < |log| && s.log <= log &&
            log[|s.log|] == if s.mark == s.frames && s.last.Some? then Wrote(Frame(s.last.value)) else Reading
  {
    KeyedGrows(Noted(if s.mark == s.frames then Resent(s) else s, Reading).(mark := -1));
  }

  lemma SessionSnoc(mode: Mode, lines: seq<Line>, before: nat, es: seq<Event>, e: Event)
    ensures Session(mode, lines, before, es + [e]) == After(Session(mode, lines, before, es), e)
  {
    Snoc(es, e);
  }

  lemma OneKeyRead(s: Server, line: Line, key: string)
    requires s.input == [line] && MeaningOf(line) == Press(key) && s.mark != s.frames
    ensures var r := ReadKey(s).server;
            && r.log == s.log + [Reading, Got(s.taken, line), Dispatched(key)] && r.input == [] &&
               r.mark == r.frames == s.frames
            && r.last == s.last
  {
  }

  lemma NothingLeft(s: Server)
    requires s.input == [] && s.mark != s.frames
    ensures ReadKey(s).server.log == s.log + [Reading, Closed]
  {
  }

  lemma OneByOne<T>(a: T, b: T, c: T, d: T)
    ensures [] + [a] == [a] && [a] + [b] == [a, b] && [a, b] + [c] == [a, b, c] && [a, b, c] + [d] == [a, b, c, d]
  {
  }

  lemma FourEvents(mode: Mode, lines: seq<Line>, before: nat, a: Event, b: Event, c: Event, d: Event)
    ensures var s := Server(mode, lines, 0, None, 0, -1, before, []);
            Session(mode, lines, before, [a, b, c, d]) == After(After(After(After(s, a), b), c), d)
  {
    OneByOne(a, b, c, d);
    SessionSnoc(mode, lines, before, [], a);
    SessionSnoc(mode, lines, before, [a], b);
    SessionSnoc(mode, lines, before, [a, b], c);
    SessionSnoc(mode, lines, before, [a, b, c], d);
  }

  lemma DrawnOnce(s: Server, line: Line, key: string, before: Screen, after: Screen)
    requires s.input == [line] && MeaningOf(line) == Press(key) && s.mark < s.frames && s.log == [] && s.taken == 0
    ensures ReadKey(Drew(ReadKey(Drew(s, before)).server, after)).server.log ==
            [Wrote(Frame(before)), Reading, Got(0, line), Dispatched(key), Wrote(Frame(after)), Reading, Closed]
  {
    var drawn := Drew(s, before);
    OneKeyRead(drawn, line, key);
    NothingLeft(Drew(ReadKey(drawn).server, after));
  }

  lemma OneFrameBetween(log: seq<Entry>, sent: nat -> bool)
    requires |log| > 5 && !IsFrame(log[3]) && IsFrame(log[4])
    ensures Reaches(log, sent, 3, 5) <==> sent(4)
  {
  }

  /** A key that draws one frame: between its dispatch and the next read there is that frame alone, so when its write
      fails the agent gets none. */
  lemma LostFrame(mode: Mode, line: Line, key: string, before: nat, sent: nat -> bool)
    requires MeaningOf(line) == Press(key)
    ensures var log := Session(mode, [line], before, [Draw(0), Key, Draw(1), Key]).log;
            && log == [Wrote(Frame(Page(0))), Reading, Got(0, line), Dispatched(key), Wrote(Frame(Page(1))), Reading,
                       Closed]
            && (Reaches(log, sent, 3, 5) <==> sent(4))
  {
    FourEvents(mode, [line], before, Draw(0), Key, Draw(1), Key);
    DrawnOnce(Server(mode, [line], 0, None, 0, -1, before, []), line, key, Page(0), Page(1));
    OneFrameBetween(Session(mode, [line], before, [Draw(0), Key, Draw(1), Key]).log, sent);
  }

  // ----- when every key's frame reaches the agent -----

  /** No key is handed over before a read began and took a line. */
  predicate Late(log: seq<Entry>) { forall i :: 0 <= i < |log| && log[i].Dispatched? ==> i >= 2 }

  lemma AppendLate(log: seq<Entry>, e: Entry)
    requires Late(log) && (e.Dispatched? ==> |log| >= 2)
    ensures Late(log + [e])
  {
  }

  lemma TookLate(s: Server)
    requires Late(s.log) && s.input != []
    ensures Late(Took(s).log)
  {
    AppendLate(s.log, Got(s.taken, s.input[0]));
  }

  lemma DrewLate(s: Server, screen: Screen)
    requires Late(s.log)
    ensures Late(Drew(s, screen).log)
  {
    AppendLate(s.log, Wrote(Frame(screen)));
  }

  lemma ResentLate(s: Server)
    requires Late(s.log)
    ensures Late(Resent(s).log) && |Resent(s).log| >= |s.log|
  {
    if s.last.Some? { AppendLate(s.log, Wrote(Frame(s.last.value))); }
  }

  lemma {:induction false} KeyedLate(s: Server)
    requires Late(s.log) && s.log != []
    ensures Late(Keyed(s).server.log)
    decreases |s.input|
  {
    if s.input == [] {
      AppendLate(s.log, Closed);
    } else {
      var t := Took(s);
      TookLate(s);
      match MeaningOf(s.input[0])
      case Skip => KeyedLate(t);
      case Reject => AppendLate(t.log, Wrote(Error)); KeyedLate(Noted(t, Wrote(Error)));
      case Press(key) => AppendLate(t.log, Dispatched(key));
      case Snapshot => ResentLate(t); KeyedLate(Resent(t));
      case Quit =>
    }
  }

  lemma ReadLate(s: Server)
    requires Late(s.log)
    ensures Late(ReadKey(s).server.log)
  {
    var t := if s.mark == s.frames then Resent(s) else s;
    ResentLate(s);
    AppendLate(t.log, Reading);
    KeyedLate(Noted(t, Reading).(mark := -1));
  }

  lemma AuthorizedLate(s: Server, token: string)
    requires Late(s.log)
    ensures Late(Authorized(s, token).server.log)
  {
    if s.input == [] {
      AppendLate(s.log, Closed);
    } else {
      TookLate(s);
      AppendLate(Took(s).log, Wrote(Error));
    }
  }

  lemma ConfirmedLate(s: Server, verdict: bool)
    requires Late(s.log)
    ensures Late(Confirmed(s, verdict).server.log)
  {
    if s.mode == DryRun {
      ReadLate(s);
      DrewLate(ReadKey(s).server, DryRunHeld);
    } else {
      var token := TokenFor(s.gates + 1);
      var asked := Drew(s.(gates := s.gates + 1), AwaitingApply(token));
      DrewLate(s.(gates := s.gates + 1), AwaitingApply(token));
      AuthorizedLate(asked, token);
      var a := if s.mode == Autonomous then Answer(asked, verdict) else Authorized(asked, token);
      AppendLate(a.server.log, Decided(token, a.ok));
      DrewLate(Noted(a.server, Decided(token, a.ok)), if a.ok then Applied(token) else Declined(token));
    }
  }

  lemma RequestedLate(s: Server, ask: Ask)
    requires Late(s.log)
    ensures Late(Requested(s, ask).log)
  {
    var t := Noted(s, Wrote(Request));
    AppendLate(s.log, Wrote(Request));
    if t.input == [] {
      AppendLate(t.log, Closed);
    } else {
      TookLate(t);
      AppendLate(Took(t).log, Wrote(Error));
    }
  }

  lemma {:induction false} SessionLate(mode: Mode, lines: seq<Line>, before: nat, es: seq<Event>)
    ensures Late(Session(mode, lines, before, es).log)
  {
    if es != [] {
      var s := Session(mode, lines, before, es[..|es| - 1]);
      SessionLate(mode, lines, before, es[..|es| - 1]);
      match es[|es| - 1]
      case Draw(id) => DrewLate(s, Page(id));
      case Key => ReadLate(s);
      case Gate(verdict) => ConfirmedLate(s, verdict);
      case Asking(ask) => RequestedLate(s, ask);
    }
  }

  /** A session that has drawn `m` screens and read nothing. */
  lemma {:induction false} OnlyDrawn(mode: Mode, lines: seq<Line>, before: nat, m: nat)
    returns (es: seq<Event>, s: Server)
    ensures s == Session(mode, lines, before, es) && |s.log| == m && s.input == lines && s.mark == -1
  {
    if m == 0 {
      es, s := [], Session(mode, lines, before, []);
    } else {
      es, s := OnlyDrawn(mode, lines, before, m - 1);
      SessionSnoc(mode, lines, before, es, Draw(0));
      es, s := es + [Draw(0)], Drew(s, Page(0));
    }
  }

  /** Keyed, drawn once and keyed again from `s`: one window, with one frame in it. */
  lemma OneFrameMore(s: Server, line: Line, key: string, sent: nat -> bool)
    requires s.input == [line] && MeaningOf(line) == Press(key) && s.mark < s.frames
    ensures var log := ReadKey(Drew(ReadKey(s).server, Page(0))).server.log;
            var m := |s.log|;
            Window(log, m + 2, m + 4, m + 3) && (Reaches(log, sent, m + 2, m + 4) <==> sent(m + 3))
  {
    OneKeyRead(s, line, key);
    NothingLeft(Drew(ReadKey(s).server, Page(0)));
  }

  lemma WindowAt(k: nat, sent: nat -> bool)
    returns (mode: Mode, lines: seq<Line>, es: seq<Event>, i: nat, j: nat, f: nat)
    requires k >= 3
    ensures var log := Session(mode, lines, 0, es).log;
            Window(log, i, j, f) && (Reaches(log, sent, i, j) <==> sent(k))
  {
    var line := Object(map["key" := Str("x")]);
    mode, lines := Handshake, [line];
    var drawn, s := OnlyDrawn(mode, lines, 0, k - 3);
    OneFrameMore(s, line, "x", sent);
    SessionSnoc(mode, lines, 0, drawn, Key);
    SessionSnoc(mode, lines, 0, drawn + [Key], Draw(0));
    SessionSnoc(mode, lines, 0, drawn + [Key] + [Draw(0)], Key);
    es, i, j, f := drawn + [Key] + [Draw(0)] + [Key], k - 1, k + 1, k;
  }

  /** In every session a frame reaches the agent between every key and the next read, once a screen exists. */
  ghost predicate AllReach(sent: nat -> bool) {
    forall mode, lines, before, es, i, j, f :: Window(Session(mode, lines, before, es).log, i, j, f) ==>
      Reaches(Session(mode, lines, before, es).log, sent, i, j)
  }

  /** That is so exactly when no write fails from the fourth entry of a session on, the first that can answer a key. */
  lemma FramesReachExactly(sent: nat -> bool)
    ensures AllReach(sent) <==> forall k: nat :: k >= 3 ==> sent(k)
  {
    if AllReach(sent) {
      forall k: nat | k >= 3
        ensures sent(k)
      {
        var mode, lines, es, i, j, f := WindowAt(k, sent);
      }
    }
    if forall k: nat :: k >= 3 ==> sent(k) {
      forall mode, lines, before, es, i, j, f | Window(Session(mode, lines, before, es).log, i, j, f)
        ensures Reaches(Session(mode, lines, before, es).log, sent, i, j)
      {
        SessionLate(mode, lines, before, es);
        FrameReaches(mode, lines, before, es, i, j, f, sent);
      }
    }
  }

  // ----- what each line does -----

  /** The key reader over its next line: a string under "key" is the key; without one, the snapshot command writes the
      screen again and the quit command, like the end of the input, reads as q; a blank line is passed over, and
      anything else answered with an error. */
  lemma LineReads(s: Server)
    ensures var r := Keyed(s);
            if s.input == [] then r.key == "q" && r.server == Noted(s, Closed)
            else
              var t := Took(s);
              match s.input[0]
              case Blank => r == Keyed(t)
              case Garbage => r == Keyed(Noted(t, Wrote(Error)))
              case NotAnObject => r == Keyed(Noted(t, Wrote(Error)))
              case Object(m) =>
                if "key" in m && m["key"].Str? then
                  r.key == m["key"].s && r.server == Noted(t, Dispatched(m["key"].s)).(mark := s.frames)
                else if "key" !in m && "cmd" in m && m["cmd"] == Str("snapshot") then
                  r == Keyed(if s.last.Some? then Noted(t, Wrote(Frame(s.last.value))) else t)
                else if "key" !in m && "cmd" in m && m["cmd"] == Str("quit") then r == KeyRead(t, "q")
                else r == Keyed(Noted(t, Wrote(Error)))
  {
  }

  /** A line that asks for a field is refused exactly when it holds no string of that name; a yes or no never is. */
  lemma RefusedExactly(line: Line)
    ensures Refused(ForInput, line) <==> !(line.Object? && "input" in line.fields && line.fields["input"].Str?)
    ensures !Refused(ForConfirm, line)
  {
  }
}
