/** The agent's stdio session: keys read from a message stream, frames written back, and the guarded write gate. */
module WriteGate {
  import opened PyText

  /** A field of a message, as far as the session looks at it. */
  datatype Field = Str(s: string) | Yes | Otherwise

  /** One line of input. `Garbage` is not JSON, `NotAnObject` is JSON of another kind. */
  datatype Line = Blank | Garbage | NotAnObject | Object(fields: map<string, Field>)

  datatype Screen =
    | Page(id: nat) | AwaitingApply(token: string) | Applied(token: string) | Declined(token: string) | DryRunHeld

  datatype Out = Frame(screen: Screen) | Error | Request

  /** The session as it happened, reads and writes in one order. `Got(n, line)` is the `n`-th line read, `Reading` the
      key reader starting to read, `Dispatched` a key handed to the cockpit, `Decided` the answer of one gate. */
  datatype Entry =
    | Wrote(out: Out) | Reading | Got(n: nat, line: Line) | Closed | Dispatched(key: string)
    | Decided(token: string, applied: bool)

  /** How gates are decided: an injected policy, the handshake, or not at all. */
  datatype Mode = Autonomous | Handshake | DryRun

  /** `frames` and `mark` are `frames_written` and `key_mark`; `gates` is the process's gate counter. */
  datatype Server = Server(mode: Mode, input: seq<Line>, taken: nat, last: Option<Screen>, frames: nat, mark: int,
                           gates: nat, log: seq<Entry>)

  function Noted(s: Server, e: Entry): Server { s.(log := s.log + [e]) }

  /** `on_screen`. */
  function Drew(s: Server, screen: Screen): Server {
    Noted(s, Wrote(Frame(screen))).(last := Some(screen), frames := s.frames + 1)
  }

  /** One line off the stream. */
  function Took(s: Server): Server
    requires s.input != []
  {
    Noted(s, Got(s.taken, s.input[0])).(input := s.input[1..], taken := s.taken + 1)
  }

  // ----- reading a key -----

  /** What one line means to the key reader. */
  datatype Meaning = Skip | Reject | Press(key: string) | Snapshot | Quit

  function MeaningOf(line: Line): Meaning {
    match line
    case Blank => Skip
    case Garbage => Reject
    case NotAnObject => Reject
    case Object(m) =>
      if "key" in m then (match m["key"] case Str(k) => Press(k) case _ => Reject)
      else if "cmd" in m && m["cmd"] == Str("snapshot") then Snapshot
      else if "cmd" in m && m["cmd"] == Str("quit") then Quit
      else Reject
  }

  datatype KeyRead = KeyRead(server: Server, key: string)

  function Resent(s: Server): Server { if s.last.Some? then Noted(s, Wrote(Frame(s.last.value))) else s }

  /** The loop of `read_key`. */
  function Keyed(s: Server): KeyRead
    decreases |s.input|
  {
    if s.input == [] then KeyRead(Noted(s, Closed), "q")
    else
      var t := Took(s);
      match MeaningOf(s.input[0])
      case Skip => Keyed(t)
      case Reject => Keyed(Noted(t, Wrote(Error)))
      case Press(key) => KeyRead(Noted(t, Dispatched(key)).(mark := t.frames), key)
      case Snapshot => Keyed(Resent(t))
      case Quit => KeyRead(t, "q")
  }

  /** `read_key`: a key that drew nothing is answered with the current screen first. */
  function ReadKey(s: Server): KeyRead {
    Keyed(Noted(if s.mark == s.frames then Resent(s) else s, Reading).(mark := -1))
  }

  // ----- the gate -----

  function TokenFor(n: nat): string { ['g', 'a', 't', 'e', '-'] + Decimal(n) }

  predicate Authorizes(line: Line, token: string) {
    line.Object? && "apply" in line.fields && line.fields["apply"] == Yes && "token" in line.fields &&
      line.fields["token"] == Str(token)
  }

  datatype Answer = Answer(server: Server, ok: bool)

  /** `authorize_apply`: exactly one line is read, and anything but this gate's apply declines. */
  function Authorized(s: Server, token: string): Answer {
    if s.input == [] then Answer(Noted(s, Closed), false)
    else
      var t := Took(s);
      match s.input[0]
      case Blank => Answer(t, false)
      case Garbage => Answer(Noted(t, Wrote(Error)), false)
      case NotAnObject => Answer(Noted(t, Wrote(Error)), false)
      case Object(_) => Answer(t, Authorizes(s.input[0], token))
  }

  /** `confirm_apply` in agent mode; `verdict` is what an injected policy answers. */
  function Confirmed(s: Server, verdict: bool): Answer {
    if s.mode == DryRun then Answer(Drew(ReadKey(s).server, DryRunHeld), false)
    else
      var token := TokenFor(s.gates + 1);
      var asked := Drew(s.(gates := s.gates + 1), AwaitingApply(token));
      var a := if s.mode == Autonomous then Answer(asked, verdict) else Authorized(asked, token);
      Answer(Drew(Noted(a.server, Decided(token, a.ok)), if a.ok then Applied(token) else Declined(token)), a.ok)
  }

  /** What a walk asks the agent for: a field's value, or a yes or no. */
  datatype Ask = ForInput | ForConfirm

  /** `agent_input` reports a reply that is no input; `agent_confirm` takes anything but a true confirm as no. */
  predicate Refused(ask: Ask, line: Line) {
    ask == ForInput && !(line.Object? && "input" in line.fields && line.fields["input"].Str?)
  }

  /** A request written, and one line read. */
  function Requested(s: Server, ask: Ask): Server {
    var t := Noted(s, Wrote(Request));
    if t.input == [] then Noted(t, Closed)
    else if Refused(ask, t.input[0]) then Noted(Took(t), Wrote(Error))
    else Took(t)
  }

  // ----- the session's own code -----

  class AgentSession {
    const mode: Mode
    var input: seq<Line>
    var taken: nat
    var last: Option<Screen>
    var frames: nat
    var mark: int
    var gates: nat
    var log: seq<Entry>

    ghost function Value(): Server
      reads this
    {
      Server(mode, input, taken, last, frames, mark, gates, log)
    }

    constructor (m: Mode, lines: seq<Line>, before: nat)
      ensures Value() == Server(m, lines, 0, None, 0, -1, before, [])
    {
      mode, input, taken, last, frames, mark, gates, log := m, lines, 0, None, 0, -1, before, [];
    }

    method Write(out: Out)
      modifies this`log
      ensures log == old(log) + [Wrote(out)]
    {
      log := log + [Wrote(out)];
    }

    method OnScreen(screen: Screen)
      modifies this`last, this`frames, this`log
      ensures Value() == Drew(old(Value()), screen)
    {
      last, frames := Some(screen), frames + 1;
      Write(Frame(screen));
    }

    method ReadLine() returns (line: Line)
      requires input != []
      modifies this`input, this`taken, this`log
      ensures line == old(input)[0] && Value() == Took(old(Value()))
    {
      line := input[0];
      log, input, taken := log + [Got(taken, line)], input[1..], taken + 1;
    }

    method Resend()
      modifies this`log
      ensures Value() == Resent(old(Value()))
    {
      if last.Some? { Write(Frame(last.value)); }
    }

    method NextKey() returns (key: string)
      modifies this
      ensures KeyRead(Value(), key) == ReadKey(old(Value()))
    {
      if mark == frames { Resend(); }
      log, mark := log + [Reading], -1;
      while input != []
        invariant Keyed(Value()) == ReadKey(old(Value()))
        decreases |input|
      {
        var line := ReadLine();
        match MeaningOf(line)
        case Skip =>
        case Reject => Write(Error);
        case Press(k) =>
          log, mark := log + [Dispatched(k)], frames;
          return k;
        case Snapshot => Resend();
        case Quit => return "q";
      }
      log := log + [Closed];
      key := "q";
    }

    method AuthorizeApply(token: string) returns (ok: bool)
      modifies this`input, this`taken, this`log
      ensures Answer(Value(), ok) == Authorized(old(Value()), token)
    {
      if input == [] {
        log := log + [Closed];
        return false;
      }
      var line := ReadLine();
      if line == Blank { return false; }
      if !line.Object? {
        Write(Error);
        return false;
      }
      ok := Authorizes(line, token);
    }

    method Request(ask: Ask) returns (reply: Option<Line>)
      modifies this`input, this`taken, this`log
      ensures Value() == Requested(old(Value()), ask)
      ensures reply == if old(input) == [] || Refused(ask, old(input)[0]) then None else Some(old(input)[0])
    {
      Write(Out.Request);
      if input == [] {
        log := log + [Closed];
        return None;
      }
      var line := ReadLine();
      if Refused(ask, line) {
        Write(Error);
        return None;
      }
      reply := Some(line);
    }

    method ConfirmApply(verdict: bool) returns (ok: bool)
      modifies this
      ensures Answer(Value(), ok) == Confirmed(old(Value()), verdict)
    {
      if mode == DryRun {
        var _ := NextKey();
        OnScreen(DryRunHeld);
        return false;
      }
      gates := gates + 1;
      var token := TokenFor(gates);
      OnScreen(AwaitingApply(token));
      if mode == Autonomous { ok := verdict; } else { ok := AuthorizeApply(token); }
      log := log + [Decided(token, ok)];
      OnScreen(if ok then Applied(token) else Declined(token));
    }
  }
}
