/** The chat text an envelope travels in: a voice line, a human section and one fenced block. */
module HandoffText {
  import opened PyText
  import opened Handoff

  const TICKS := "```"
  const OPENER := "```handoff"
  const CLOSER := "\n```"
  const MAX_BLOCK_BYTES := 32 * 1024

  /** JSON text, kept abstract: `loads` is None where `json.loads` raises. */
  datatype Codec = Codec(dumps: Json -> string, loads: string -> Option<Json>) {
    /** `json` keeps a payload on one line, reads it back as written, and reads an object only from text that
        opens one (after whitespace). */
    ghost predicate Lawful() {
      && (forall e: Envelope :: e.Valid() ==>
            '\n' !in dumps(ToPayload(e)) && loads(dumps(ToPayload(e))) == Some(ToPayload(e)))
      && (forall text :: loads(text).Some? && loads(text).value.JObj? ==>
          text != "" && (text[0] == '{' || IsSpace(text[0])))
    }
  }

  // ----- rendering -----

  /** The fixed wording of the human section. */
  datatype Wording =
    | NoticeFor | ResponseFor | PlanFor | FromAt | ToAt | Colon
    | FactIs | ClaimedBy | ProvenanceIs | CloseParen | AskIs
    | DoneIs | ReflexedVia | FailedIs | NotApplied | MineIs | NotMineIs | RedirectTo | NeedsOwnerIs | OpenNote
    | ForOwner | StepNumber(n: nat) | OwnerAt | NoOwner | PlanFoot

  predicate NoNewline(s: string) { forall i :: 0 <= i < |s| ==> s[i] != '\n' }

  /** A character that opens neither a fence nor a JSON object. */
  predicate LineHead(c: char) { !IsSpace(c) && c != '{' && c != '`' }

  predicate StartsLine(w: Wording) {
    w in {FactIs, AskIs, DoneIs, FailedIs, MineIs, NotMineIs, NeedsOwnerIs, PlanFoot} || w.StepNumber?
  }

  predicate Clean(s: string) { s != "" && forall i :: 0 <= i < |s| ==> s[i] != '\n' && s[i] != '`' }

  function SharedWords(w: Wording): (s: string)
    ensures Clean(s) && (StartsLine(w) ==> LineHead(s[0]))
  {
    match w
    case NoticeFor => "handoff notice #"
    case ResponseFor => "response #"
    case FromAt => " from @"
    case ToAt => " \U{2192} @"
    case CloseParen => ")"
    case _ => ": "
  }

  function NoticeWords(w: Wording): (s: string)
    ensures Clean(s) && (StartsLine(w) ==> LineHead(s[0]))
  {
    match w
    case FactIs => "fact: "
    case ClaimedBy => " (claimant @"
    case ProvenanceIs => "; provenance: "
    case _ => "ask: "
  }

  function ReflexWords(w: Wording): (s: string)
    ensures Clean(s) && (StartsLine(w) ==> LineHead(s[0]))
  {
    match w
    case ReflexedVia => " \U{2014} reflexed via "
    case FailedIs => "[failed] "
    case NotApplied => " \U{2014} reflex did not apply"
    case _ => "[done] "
  }

  function VerdictWords(w: Wording): (s: string)
    ensures Clean(s) && (StartsLine(w) ==> LineHead(s[0]))
  {
    match w
    case MineIs => "[mine] "
    case NotMineIs => "[not mine] "
    case RedirectTo => " \U{2192} @"
    case OpenNote => " ("
    case _ => "[needs owner] "
  }

  function PlanFootWords(): (s: string)
    ensures Clean(s) && LineHead(s[0])
  {
    var every, gate := "every step executes ", "through the approval gate";
    var plan := " \U{2014} this plan authorizes nothing";
    assert Clean(every) && Clean(gate) && Clean(plan);
    every + gate + plan
  }

  function StepWords(n: nat): (s: string)
    ensures Clean(s) && LineHead(s[0])
  {
    var digits := Decimal(n);
    assert forall i :: 0 <= i < |digits| ==> digits[i] in digits;
    digits + ". ["
  }

  function PlanWords(w: Wording): (s: string)
    ensures Clean(s) && (StartsLine(w) ==> LineHead(s[0]))
  {
    match w
    case PlanFor => "unified plan #"
    case ForOwner => " \U{2014} for the owner: "
    case _ => PlanFootWords()
  }

  function OwnerWords(w: Wording): (s: string)
    ensures Clean(s) && (StartsLine(w) ==> LineHead(s[0]))
  {
    match w
    case StepNumber(n) => StepWords(n)
    case OwnerAt => "] @"
    case _ => "] unassigned"
  }

  function Words(w: Wording): (s: string)
    ensures Clean(s) && (StartsLine(w) ==> LineHead(s[0]))
  {
    match w
    case PlanFor | ForOwner | PlanFoot => PlanWords(w)
    case StepNumber(_) | OwnerAt | NoOwner => OwnerWords(w)
    case DoneIs | ReflexedVia | FailedIs | NotApplied => ReflexWords(w)
    case MineIs | NotMineIs | RedirectTo | NeedsOwnerIs | OpenNote => VerdictWords(w)
    case FactIs | ClaimedBy | ProvenanceIs | AskIs => NoticeWords(w)
    case _ => SharedWords(w)
  }

  /** Wording followed by one field of the envelope. */
  datatype Piece = Piece(wording: Wording, field: string)

  function PieceText(p: Piece): string {
    (if StartsLine(p.wording) then "\n" else "") + Words(p.wording) + p.field
  }

  function Text(pieces: seq<Piece>): string {
    if pieces == [] then "" else PieceText(pieces[0]) + Text(pieces[1..])
  }

  function NotePieces(note: string): seq<Piece> {
    if note == "" then [] else [Piece(OpenNote, note), Piece(CloseParen, "")]
  }

  function FactPieces(f: Fact): seq<Piece> {
    [Piece(FactIs, f.text), Piece(ClaimedBy, f.claimant),
     Piece(ProvenanceIs, if f.provenance == "" then "none" else f.provenance), Piece(CloseParen, "")]
  }

  function AskPieces(a: string): seq<Piece> { [Piece(AskIs, a)] }

  function VerdictPieces(d: Decision): seq<Piece> {
    match d.verdict
    case Reflexed =>
      if d.applied then [Piece(DoneIs, d.ask), Piece(ReflexedVia, d.capability)]
      else [Piece(FailedIs, d.ask), Piece(NotApplied, "")]
    case Accept => [Piece(MineIs, d.ask)]
    case Decline =>
      if d.redirect != "" then [Piece(NotMineIs, d.ask), Piece(RedirectTo, d.redirect)] else [Piece(NotMineIs, d.ask)]
    case Defer => [Piece(NeedsOwnerIs, d.ask)]
  }

  function DecisionPieces(d: Decision): seq<Piece> { VerdictPieces(d) + NotePieces(d.note) }

  function StepPieces(s: Step, number: nat): seq<Piece> {
    [Piece(StepNumber(number), StatusName(s.status)),
     if s.owner == "" then Piece(NoOwner, "") else Piece(OwnerAt, s.owner), Piece(Colon, s.action)]
  }

  function AllPieces<T>(items: seq<T>, pieces: T -> seq<Piece>): seq<Piece> {
    if items == [] then [] else pieces(items[0]) + AllPieces(items[1..], pieces)
  }

  function AllStepPieces(steps: seq<Step>, number: nat): seq<Piece> {
    if steps == [] then [] else StepPieces(steps[0], number) + AllStepPieces(steps[1..], number + 1)
  }

  function HeadPieces(title: Wording, e: Envelope): seq<Piece> {
    [Piece(title, e.taskId), Piece(FromAt, e.origin), Piece(ToAt, e.recipient), Piece(Colon, e.summary)]
  }

  /** `_human`: the wording of each kind, in order. */
  function HumanPieces(e: Envelope): seq<Piece> {
    match e.kind
    case Notice => HeadPieces(NoticeFor, e) + AllPieces(e.facts, FactPieces) + AllPieces(e.asks, AskPieces)
    case Response => HeadPieces(ResponseFor, e) + AllPieces(e.decisions, DecisionPieces)
    case Plan =>
      [Piece(PlanFor, e.taskId), Piece(ForOwner, e.summary)] + AllStepPieces(e.steps, 1) + [Piece(PlanFoot, "")]
  }

  function Human(e: Envelope): string { Text(HumanPieces(e)) }

  /** `say.replace("```", "'''")`. */
  function Defang(say: string): string {
    if TICKS <= say then "'''" + Defang(say[3..])
    else if say == "" then ""
    else [say[0]] + Defang(say[1..])
  }

  function Frame(codec: Codec, e: Envelope): string {
    OPENER + "\n" + codec.dumps(ToPayload(e)) + CLOSER
  }

  function Body(codec: Codec, e: Envelope): string {
    Human(e) + "\n\n" + Frame(codec, e)
  }

  /** The voice line, defanged and stripped, above `body` when anything is left of it. */
  function Voiced(say: string, body: string): string {
    var voice := Strip(Defang(say));
    if voice == "" then body else voice + "\n\n" + body
  }

  /** `render_envelope`. */
  function Render(codec: Codec, e: Envelope, say: string): string { Voiced(say, Body(codec, e)) }

  // ----- parsing -----

  predicate Blank(c: char) { c == ' ' || c == '\t' }

  function DropBlanks(t: string): (r: string)
    ensures |r| <= |t|
  {
    if t != "" && Blank(t[0]) then DropBlanks(t[1..]) else t
  }

  /** The lazy `(.*?)` up to the first closing fence: the block, and the text after it. */
  function Close(t: string): (r: Option<(string, string)>)
    ensures r.Some? ==> |r.value.1| < |t|
  {
    if CLOSER <= t then Some(("", t[4..]))
    else if t == "" then None
    else match Close(t[1..]) case Some(p) => Some(([t[0]] + p.0, p.1)) case None => None
  }

  /** The fence pattern tried at the head of `t`. */
  function MatchHead(t: string): (r: Option<(string, string)>)
    ensures r.Some? ==> |r.value.1| < |t|
  {
    if Opens(t) then Close(DropBlanks(t[|OPENER|..])[1..]) else None
  }

  predicate Opens(t: string) {
    OPENER <= t && var rest := DropBlanks(t[|OPENER|..]); rest != "" && rest[0] == '\n'
  }

  /** `_FENCE_RE.findall`: the non-overlapping blocks, left to right. */
  function Blocks(t: string): seq<string>
    decreases |t|
  {
    if t == "" then []
    else match MatchHead(t)
      case Some(p) => [p.0] + Blocks(p.1)
      case None => Blocks(t[1..])
  }

  function Utf8Width(c: char): nat {
    if c < '\U{80}' then 1 else if c < '\U{800}' then 2 else if c < '\U{10000}' then 3 else 4
  }

  function Utf8Length(s: string): nat {
    if s == "" then 0 else Utf8Width(s[0]) + Utf8Length(s[1..])
  }

  /** `parse_envelope`: exactly one block, within the size limit, decoding to a valid envelope. */
  function Parse(codec: Codec, text: string): (r: Option<Envelope>)
    ensures r.Some? ==> r.value.Valid()
  {
    var blocks := Blocks(text);
    if |blocks| != 1 || Utf8Length(blocks[0]) > MAX_BLOCK_BYTES then None
    else match codec.loads(blocks[0])
      case Some(j) => FromPayload(j)
      case None => None
  }

  // ----- fence-free text -----

  predicate TicksAt(s: string, i: nat) {
    i + 2 < |s| && s[i] == '`' && s[i + 1] == '`' && s[i + 2] == '`'
  }

  ghost predicate FenceFree(s: string) {
    forall i: nat :: !TicksAt(s, i)
  }

  /** No run of backticks crosses the seam of `a + b`. */
  lemma FenceFreeConcat(a: string, b: string)
    requires FenceFree(a) && FenceFree(b)
    requires a == "" || b == "" || a[|a| - 1] != '`' || b[0] != '`'
    ensures FenceFree(a + b)
  {
    forall i: nat ensures !TicksAt(a + b, i) {
      assert !TicksAt(a, i);
      if i >= |a| { assert !TicksAt(b, i - |a|); }
    }
  }

  lemma PlainIsFenceFree(s: string)
    requires '`' !in s
    ensures FenceFree(s)
  {
  }

  lemma OpenerTicks(t: string)
    requires OPENER <= t
    ensures TicksAt(t, 0)
  {
    assert t[0] == OPENER[0] && t[1] == OPENER[1] && t[2] == OPENER[2];
  }

  /** Text without a backtick run, closed by a newline, hides nothing that follows it. */
  lemma {:induction false} SkipQuiet(pre: string, t: string)
    requires FenceFree(pre) && (pre == "" || pre[|pre| - 1] == '\n')
    ensures Blocks(pre + t) == Blocks(t)
  {
    if pre == "" {
      assert pre + t == t;
    } else {
      var rest := pre[1..];
      forall i: nat ensures !TicksAt(rest, i) { assert !TicksAt(pre, i + 1); }
      assert (pre + t)[1..] == rest + t;
      SkipQuiet(rest, t);
      assert !TicksAt(pre, 0);
      if Opens(pre + t) { OpenerTicks(pre + t); }
    }
  }

  /** No voice line keeps a run of three backticks; shorter runs at its head are its own. */
  lemma {:induction false} DefangFenceFree(say: string)
    ensures var d := Defang(say);
            && FenceFree(d)
            && (d != "" && d[0] == '`' ==> say != "" && say[0] == '`')
            && (|d| >= 2 && d[0] == '`' && d[1] == '`' ==> |say| >= 2 && say[0] == '`' && say[1] == '`')
  {
    if say == "" {
    } else if TICKS <= say {
      var rest := Defang(say[3..]);
      DefangFenceFree(say[3..]);
      PlainIsFenceFree("'''");
      FenceFreeConcat("'''", rest);
    } else {
      var rest := Defang(say[1..]);
      DefangFenceFree(say[1..]);
      assert Defang(say) == [say[0]] + rest;
      forall i: nat ensures !TicksAt([say[0]] + rest, i) {
        if i > 0 { assert !TicksAt(rest, i - 1); }
        else if |say| >= 3 { assert say[..3] == TICKS <==> say[0] == '`' && say[1] == '`' && say[2] == '`'; }
      }
    }
  }

  lemma {:induction false} StripLeftFenceFree(s: string)
    requires FenceFree(s)
    ensures FenceFree(StripLeft(s))
  {
    if s != "" && IsSpace(s[0]) {
      forall i: nat ensures !TicksAt(s[1..], i) {
        assert !TicksAt(s, i + 1);
      }
      StripLeftFenceFree(s[1..]);
    }
  }

  lemma StripFenceFree(s: string)
    requires FenceFree(s)
    ensures FenceFree(Strip(s))
  {
    var l := StripLeft(s);
    StripLeftFenceFree(s);
    forall i: nat ensures !TicksAt(Strip(s), i) {
      assert !TicksAt(l, i);
    }
  }

  /** Whatever the voice line says, the fenced blocks found are those of the message without it. */
  lemma VoiceNeverFences(say: string, body: string)
    ensures Blocks(Voiced(say, body)) == Blocks(body)
  {
    var voice := Strip(Defang(say));
    DefangFenceFree(say);
    StripFenceFree(Defang(say));
    if voice != "" {
      PlainIsFenceFree("\n\n");
      FenceFreeConcat(voice, "\n\n");
      SkipQuiet(voice + "\n\n", body);
    }
  }

  // ----- the human section, line by line -----

  ghost predicate Fields(pieces: seq<Piece>, ok: string -> bool) { forall p :: p in pieces ==> ok(p.field) }

  ghost predicate LinesOk(t: string) {
    forall i :: 0 <= i < |t| && t[i] == '\n' ==> i + 1 < |t| && LineHead(t[i + 1])
  }

  lemma LineAdded(starts: bool, words: string, field: string, rest: string)
    requires Clean(words) && NoNewline(field) && (starts ==> LineHead(words[0])) && LinesOk(rest)
    ensures LinesOk((if starts then "\n" else "") + words + field + rest)
  {
    var line := words + field;
    assert NoNewline(line) && line[0] == words[0];
    assert LinesOk(line + rest);
    assert (if starts then "\n" else "") + words + field + rest ==
           if starts then ['\n'] + (line + rest) else line + rest;
  }

  lemma {:induction false} LinedText(pieces: seq<Piece>)
    requires Fields(pieces, NoNewline)
    ensures LinesOk(Text(pieces))
  {
    if pieces != [] {
      LinedText(pieces[1..]);
      var p := pieces[0];
      LineAdded(StartsLine(p.wording), Words(p.wording), p.field, Text(pieces[1..]));
    }
  }

  /** Whatever holds of an envelope's own texts, and of slugs and the fixed words, holds of every field shown. */
  lemma HumanFields(e: Envelope, ok: string -> bool)
    requires e.Valid() && ok(e.summary) && ok("") && ok("none")
    requires forall s :: SafeSlug(s) ==> ok(s)
    requires forall status :: ok(StatusName(status))
    requires forall f :: f in e.facts ==> ok(f.text) && ok(f.provenance)
    requires forall a :: a in e.asks ==> ok(a)
    requires forall d :: d in e.decisions ==> ok(d.ask) && ok(d.note) && ok(d.capability)
    requires forall s :: s in e.steps ==> ok(s.action)
    ensures Fields(HumanPieces(e), ok)
  {
    match e.kind
    case Notice =>
      HeadFields(NoticeFor, e, ok);
      forall f | f in e.facts ensures Fields(FactPieces(f), ok) { FactFields(f, ok); }
      ListFields(e.facts, FactPieces, ok);
      forall a | a in e.asks ensures Fields(AskPieces(a), ok) {}
      ListFields(e.asks, AskPieces, ok);
    case Response =>
      HeadFields(ResponseFor, e, ok);
      forall d | d in e.decisions ensures Fields(DecisionPieces(d), ok) { DecisionFields(d, ok); }
      ListFields(e.decisions, DecisionPieces, ok);
    case Plan =>
      StepFields(e.steps, 1, ok);
  }

  lemma HeadFields(title: Wording, e: Envelope, ok: string -> bool)
    requires ok(e.taskId) && ok(e.origin) && ok(e.recipient) && ok(e.summary)
    ensures Fields(HeadPieces(title, e), ok)
  {
  }

  lemma FactFields(f: Fact, ok: string -> bool)
    requires ok("none") && ok(f.text) && ok(f.claimant) && ok(f.provenance) && ok("")
    ensures Fields(FactPieces(f), ok)
  {
  }

  lemma DecisionFields(d: Decision, ok: string -> bool)
    requires ok("") && ok(d.ask) && ok(d.redirect) && ok(d.note) && ok(d.capability)
    ensures Fields(DecisionPieces(d), ok)
  {
    assert Fields(VerdictPieces(d), ok) && Fields(NotePieces(d.note), ok);
  }

  lemma {:induction false} ListFields<T(!new)>(items: seq<T>, pieces: T -> seq<Piece>, ok: string -> bool)
    requires forall x :: x in items ==> Fields(pieces(x), ok)
    ensures Fields(AllPieces(items, pieces), ok)
  {
    if items != [] { ListFields(items[1..], pieces, ok); }
  }

  lemma {:induction false} StepFields(steps: seq<Step>, number: nat, ok: string -> bool)
    requires ok("") && (forall s :: SafeSlug(s) ==> ok(s)) && (forall status :: ok(StatusName(status)))
    requires forall s :: s in steps ==> s.Valid() && ok(s.action)
    ensures Fields(AllStepPieces(steps, number), ok)
  {
    if steps != [] {
      StepFields(steps[1..], number + 1, ok);
      assert steps[0] in steps;
    }
  }

  lemma SlugIsPlain(s: string)
    requires SafeSlug(s)
    ensures NoNewline(s) && FenceFree(s)
  {
    forall i | 0 <= i < |s| ensures s[i] != '\n' && s[i] != '`' { assert s[i] in s; }
  }

  lemma CleanHasNoNewline(s: string, limit: nat)
    requires CleanLine(s, limit)
    ensures NoNewline(s)
  {
    forall i | 0 <= i < |s| ensures s[i] != '\n' { assert s[i] in s; }
  }

  lemma HumanLines(e: Envelope)
    requires e.Valid()
    ensures LinesOk(Human(e))
  {
    forall s | SafeSlug(s) ensures NoNewline(s) { SlugIsPlain(s); }
    forall s, limit | CleanLine(s, limit) ensures NoNewline(s) { CleanHasNoNewline(s, limit); }
    HumanFields(e, NoNewline);
    LinedText(HumanPieces(e));
  }

  // ----- reading back what was rendered -----

  /** Some line of the human section ends the way a fenced block begins. */
  predicate OpensFence(human: string) {
    human != "" && (Opens(human + "\n") || OpensFence(human[1..]))
  }

  lemma {:induction false} DropBlanksPrefix(line: string, rest: string)
    requires line != "" && !Blank(line[|line| - 1])
    ensures DropBlanks(line + rest) == DropBlanks(line) + rest && DropBlanks(line) != ""
  {
    assert (line + rest)[0] == line[0];
    if Blank(line[0]) {
      assert (line + rest)[1..] == line[1..] + rest;
      DropBlanksPrefix(line[1..], rest);
    }
  }

  lemma NoNewlineInOpener(m: nat)
    requires m < |OPENER|
    ensures OPENER[m] != '\n' && OPENER[m] != '\r'
  {
    assert OPENER == ['`', '`', '`', 'h', 'a', 'n', 'd', 'o', 'f', 'f'];
  }

  /** Whether a fence opens here does not depend on what follows the human section's closing newline. */
  lemma OpensLocally(human: string, rest: string)
    ensures Opens(human + "\n" + rest) <==> Opens(human + "\n")
    ensures Opens(human + "\n") ==>
              var line := (human + "\n")[|OPENER|..];
              DropBlanks((human + "\n" + rest)[|OPENER|..]) == DropBlanks(line) + rest
  {
    var short, long := human + "\n", human + "\n" + rest;
    assert short[|human|] == '\n' && long[|human|] == '\n';
    if |human| < |OPENER| {
      NoNewlineInOpener(|human|);
    } else {
      assert long[..|OPENER|] == short[..|OPENER|];
      var line := short[|OPENER|..];
      assert long[|OPENER|..] == line + rest;
      DropBlanksPrefix(line, rest);
    }
  }

  lemma {:induction false} FirstClose(t: string, q: nat)
    requires q <= |t| && CLOSER <= t[q..] && forall i: nat :: i < q ==> !(CLOSER <= t[i..])
    ensures Close(t) == Some((t[..q], t[q..][4..]))
  {
    if q == 0 {
      assert t[0..] == t;
    } else {
      assert t[0..] == t && !(CLOSER <= t[0..]);
      forall i: nat | i < q - 1 ensures !(CLOSER <= t[1..][i..]) { assert t[1..][i..] == t[i + 1..]; }
      assert t[1..][q - 1..] == t[q..];
      FirstClose(t[1..], q - 1);
      assert [t[0]] + t[1..][..q - 1] == t[..q];
    }
  }

  /** No closing fence stands in `payload`, or begins there. */
  ghost predicate EndsAtFence(payload: string) {
    forall i: nat :: i < |payload| ==> !(CLOSER <= (payload + CLOSER)[i..])
  }

  lemma OneLineEnds(payload: string)
    requires NoNewline(payload)
    ensures EndsAtFence(payload)
  {
    forall i: nat | i < |payload| ensures !(CLOSER <= (payload + CLOSER)[i..]) {
      assert (payload + CLOSER)[i..][0] == payload[i];
    }
  }

  lemma {:induction false} DropBlanksAll(blanks: string, rest: string)
    requires (forall i :: 0 <= i < |blanks| ==> Blank(blanks[i])) && rest != "" && !Blank(rest[0])
    ensures DropBlanks(blanks + rest) == rest
  {
    if blanks == "" {
      assert blanks + rest == rest;
    } else {
      assert (blanks + rest)[0] == blanks[0] && (blanks + rest)[1..] == blanks[1..] + rest;
      DropBlanksAll(blanks[1..], rest);
    }
  }

  lemma BlockOpens(blanks: string, inner: string)
    requires forall i :: 0 <= i < |blanks| ==> Blank(blanks[i])
    ensures MatchHead(OPENER + (blanks + ("\n" + inner))) == Close(inner)
  {
    var t := OPENER + (blanks + ("\n" + inner));
    assert t[|OPENER|..] == blanks + ("\n" + inner) && OPENER <= t;
    DropBlanksAll(blanks, "\n" + inner);
    assert ("\n" + inner)[1..] == inner;
  }

  lemma BlockCloses(payload: string, rest: string)
    requires EndsAtFence(payload)
    ensures Close(payload + CLOSER + rest) == Some((payload, rest))
  {
    var inner := payload + CLOSER + rest;
    forall i: nat | i < |payload| ensures !(CLOSER <= inner[i..]) {
      assert !(CLOSER <= (payload + CLOSER)[i..]);
      assert inner[i..] == (payload + CLOSER)[i..] + rest;
    }
    assert inner[|payload|..] == CLOSER + rest;
    FirstClose(inner, |payload|);
    assert inner[..|payload|] == payload && (CLOSER + rest)[4..] == rest;
  }

  /** A fenced block ends at its own closing fence, and the search goes on behind it. */
  lemma BlockThen(blanks: string, payload: string, rest: string)
    requires (forall i :: 0 <= i < |blanks| ==> blanks[i] == ' ' || blanks[i] == '\t') && EndsAtFence(payload)
    ensures Blocks(OPENER + blanks + "\n" + payload + CLOSER + rest) == [payload] + Blocks(rest)
  {
    var inner := payload + CLOSER + rest;
    BlockOpens(blanks, inner);
    BlockCloses(payload, rest);
    assert OPENER + blanks + "\n" + payload + CLOSER + rest == OPENER + (blanks + ("\n" + inner));
  }

  lemma FrameThen(payload: string, rest: string)
    requires NoNewline(payload)
    ensures Blocks(OPENER + "\n" + payload + CLOSER + rest) == [payload] + Blocks(rest)
  {
    OneLineEnds(payload);
    BlockThen("", payload, rest);
    assert OPENER + "" == OPENER;
  }

  lemma {:induction false} QuietBody(human: string, frame: string)
    requires !OpensFence(human)
    ensures Blocks(human + "\n\n" + frame) == Blocks(frame)
  {
    var t := human + "\n\n" + frame;
    if human == "" {
      assert t[0] == '\n' && t[1..][0] == '\n' && t[1..][1..] == frame;
    } else {
      assert t == human + "\n" + ("\n" + frame);
      OpensLocally(human, "\n" + frame);
      assert t[1..] == human[1..] + "\n\n" + frame;
      QuietBody(human[1..], frame);
    }
  }

  /** A fence opened at the head of the human section closes only where the real one opens. */
  lemma SwallowedBlock(human: string, frame: string)
    requires LinesOk(human) && OPENER <= frame && Opens(human + "\n")
    ensures var m := MatchHead(human + "\n\n" + frame);
            m.Some? && (m.value.0 == "" || LineHead(m.value.0[0]))
  {
    var short, rest := human + "\n", "\n" + frame;
    assert human + "\n\n" + frame == short + rest;
    OpensLocally(human, rest);
    var line := DropBlanks(short[|OPENER|..]);
    DropBlanksSuffix(short[|OPENER|..]);
    var n := |short| - |line|;
    assert line == short[n..];
    var tail := line[1..];
    assert (line + rest)[1..] == tail + rest;
    CloseAtFrame(tail, human, n, frame);
  }

  lemma {:induction false} DropBlanksSuffix(t: string)
    ensures DropBlanks(t) == t[|t| - |DropBlanks(t)|..]
  {
    if t != "" && Blank(t[0]) { DropBlanksSuffix(t[1..]); }
  }

  lemma CloseAtFrame(tail: string, human: string, n: nat, frame: string)
    requires LinesOk(human) && n <= |human| && (human + "\n")[n] == '\n' && tail == (human + "\n")[n..][1..] &&
             OPENER <= frame
    ensures var c := Close(tail + ("\n" + frame)); c.Some? && c.value.0 == tail && (tail == "" || LineHead(tail[0]))
  {
    var short, inner := human + "\n", tail + ("\n" + frame);
    forall j: nat | j < |tail| ensures !(CLOSER <= inner[j..]) {
      assert inner[j..][0] == short[n + 1 + j] && inner[j..][1] == (if j + 1 < |tail| then short[n + 2 + j] else '\n');
    }
    assert inner[|tail|..] == "\n" + frame;
    assert frame[..3] == OPENER[..3] == TICKS;
    FirstClose(inner, |tail|);
    assert inner[..|tail|] == tail;
    if tail != "" { assert tail[0] == human[n + 1]; }
  }

  /** A fence opened in the human section swallows text up to the real one: a block that is no JSON object. */
  lemma {:induction false} LoudBody(human: string, frame: string)
    requires OpensFence(human) && LinesOk(human) && OPENER <= frame
    ensures var blocks := Blocks(human + "\n\n" + frame);
            blocks != [] && (blocks[0] == "" || LineHead(blocks[0][0]))
  {
    var t := human + "\n\n" + frame;
    if Opens(human + "\n") {
      SwallowedBlock(human, frame);
    } else {
      assert t == human + "\n" + ("\n" + frame);
      OpensLocally(human, "\n" + frame);
      assert t[1..] == human[1..] + "\n\n" + frame;
      LoudBody(human[1..], frame);
    }
  }

  /** Parsing inverts rendering, whatever the voice line, exactly when no line of the human section opens a
      fence and the payload fits the size limit; otherwise the message reads as prose. */
  lemma TextRoundTrip(codec: Codec, e: Envelope, say: string)
    requires e.Valid() && codec.Lawful()
    ensures Parse(codec, Render(codec, e, say)) ==
            if !OpensFence(Human(e)) && Utf8Length(codec.dumps(ToPayload(e))) <= MAX_BLOCK_BYTES then Some(e) else None
  {
    var human, payload := Human(e), codec.dumps(ToPayload(e));
    VoiceNeverFences(say, Body(codec, e));
    if OpensFence(human) {
      HumanLines(e);
      LoudBody(human, Frame(codec, e));
    } else {
      QuietBody(human, Frame(codec, e));
      FrameThen(payload, "");
      assert Frame(codec, e) + "" == Frame(codec, e) && Blocks("") == [];
      PayloadRoundTrip(e);
    }
  }

  lemma {:induction false} QuietTail(t: string)
    requires FenceFree(t)
    ensures Blocks(t) == []
  {
    if t != "" {
      forall i: nat ensures !TicksAt(t[1..], i) { assert !TicksAt(t, i + 1); }
      assert !TicksAt(t, 0);
      if Opens(t) { OpenerTicks(t); }
      QuietTail(t[1..]);
    }
  }

  /** A message without three backticks in a row is prose. */
  lemma ProseUnread(codec: Codec, text: string)
    requires FenceFree(text)
    ensures Parse(codec, text) == None
  {
    QuietTail(text);
  }

  /** A message's one block is read, whatever prose stands around it: to the envelope its payload decodes to, if it is
      JSON of such an envelope within the size limit, and otherwise the message is prose. */
  lemma OneBlockRead(codec: Codec, before: string, blanks: string, payload: string, after: string)
    requires !OpensFence(before) && FenceFree(after) && EndsAtFence(payload)
    requires forall i :: 0 <= i < |blanks| ==> blanks[i] == ' ' || blanks[i] == '\t'
    ensures Parse(codec, before + "\n\n" + (OPENER + blanks + "\n" + payload + CLOSER + after)) ==
            if Utf8Length(payload) > MAX_BLOCK_BYTES then None
            else match codec.loads(payload) case Some(j) => FromPayload(j) case None => None
  {
    QuietBody(before, OPENER + blanks + "\n" + payload + CLOSER + after);
    BlockThen(blanks, payload, after);
    QuietTail(after);
  }

  /** A message with two blocks reads as prose, whatever envelopes they hold and whatever stands around them. */
  lemma TwoBlocksUnread(codec: Codec, one: Envelope, two: Envelope, before: string, between: string, after: string)
    requires one.Valid() && two.Valid() && codec.Lawful() && !OpensFence(before) && !OpensFence(between)
    ensures var second := between + "\n\n" + (OPENER + "\n" + codec.dumps(ToPayload(two)) + CLOSER + after);
            Parse(codec, before + "\n\n" + (OPENER + "\n" + codec.dumps(ToPayload(one)) + CLOSER + second)) == None
  {
    var p, q := codec.dumps(ToPayload(one)), codec.dumps(ToPayload(two));
    var last := OPENER + "\n" + q + CLOSER + after;
    var second := between + "\n\n" + last;
    QuietBody(before, OPENER + "\n" + p + CLOSER + second);
    FrameThen(p, second);
    QuietBody(between, last);
    FrameThen(q, after);
  }

  /** Fields without a triple backtick never open a fence. */
  lemma FenceFreeFieldsRead(e: Envelope)
    requires e.Valid() && FenceFree(e.summary)
    requires forall f :: f in e.facts ==> FenceFree(f.text) && FenceFree(f.provenance)
    requires forall a :: a in e.asks ==> FenceFree(a)
    requires forall d :: d in e.decisions ==> FenceFree(d.ask) && FenceFree(d.note) && FenceFree(d.capability)
    requires forall s :: s in e.steps ==> FenceFree(s.action)
    ensures !OpensFence(Human(e))
  {
    forall s | SafeSlug(s) ensures FenceFree(s) { SlugIsPlain(s); }
    HumanFields(e, FenceFree);
    FenceFreeText(HumanPieces(e));
    FenceFreeNeverOpens(Human(e));
  }

  lemma {:induction false} FenceFreeNeverOpens(human: string)
    requires FenceFree(human)
    ensures !OpensFence(human)
  {
    if human != "" {
      forall i: nat ensures !TicksAt(human[1..], i) { assert !TicksAt(human, i + 1); }
      FenceFreeNeverOpens(human[1..]);
      assert !TicksAt(human, 0);
      if Opens(human + "\n") { OpenerTicks(human + "\n"); }
    }
  }

  lemma {:induction false} FenceFreeText(pieces: seq<Piece>)
    requires Fields(pieces, FenceFree)
    ensures FenceFree(Text(pieces)) && (Text(pieces) == "" || Text(pieces)[0] != '`')
  {
    if pieces != [] {
      var p, rest := pieces[0], Text(pieces[1..]);
      FenceFreeText(pieces[1..]);
      FenceFreePiece(StartsLine(p.wording), Words(p.wording), p.field, rest);
    }
  }

  lemma FenceFreePiece(starts: bool, words: string, field: string, rest: string)
    requires Clean(words) && FenceFree(field) && FenceFree(rest) && (rest == "" || rest[0] != '`')
    ensures var t := (if starts then "\n" else "") + words + field + rest; FenceFree(t) && t[0] != '`'
  {
    var lead := (if starts then "\n" else "") + words;
    assert FenceFree(lead);
    FenceFreeConcat(lead, field);
    FenceFreeConcat(lead + field, rest);
  }

  /** The round trip does fail: a notice whose last ask ends in an opening fence is never read back. */
  lemma OpenFenceAskUnread(codec: Codec, e: Envelope, say: string, ask: string)
    requires e.Valid() && codec.Lawful() && e.kind == Notice
    requires e.asks != [] && e.asks[|e.asks| - 1] == ask + OPENER
    ensures Parse(codec, Render(codec, e, say)) == None
  {
    var others := HeadPieces(NoticeFor, e) + AllPieces(e.facts, FactPieces);
    var earlier := e.asks[..|e.asks| - 1];
    AllAskPieces(earlier, ask + OPENER);
    assert e.asks == earlier + [ask + OPENER];
    assert HumanPieces(e) == others + AllPieces(earlier, AskPieces) + [Piece(AskIs, ask + OPENER)];
    TextLast(others + AllPieces(earlier, AskPieces), Piece(AskIs, ask + OPENER));
    EndsOpen(Text(others + AllPieces(earlier, AskPieces)), StartsLine(AskIs), Words(AskIs), ask, Human(e));
    TextRoundTrip(codec, e, say);
  }

  lemma {:induction false} AllAskPieces(asks: seq<string>, last: string)
    ensures AllPieces(asks + [last], AskPieces) == AllPieces(asks, AskPieces) + [Piece(AskIs, last)]
  {
    if asks != [] {
      assert (asks + [last])[1..] == asks[1..] + [last];
      AllAskPieces(asks[1..], last);
    }
  }

  lemma {:induction false} TextLast(pieces: seq<Piece>, last: Piece)
    ensures Text(pieces + [last]) == Text(pieces) + PieceText(last)
  {
    if pieces != [] {
      assert (pieces + [last])[1..] == pieces[1..] + [last];
      TextLast(pieces[1..], last);
    }
  }

  lemma EndsOpen(before: string, starts: bool, words: string, ask: string, whole: string)
    requires whole == before + ((if starts then "\n" else "") + words + (ask + OPENER))
    ensures OpensFence(whole)
  {
    var lead := before + ((if starts then "\n" else "") + words + ask);
    assert whole == lead + OPENER;
    OpensAtEnd(lead);
  }

  lemma {:induction false} OpensAtEnd(lead: string)
    ensures OpensFence(lead + OPENER)
  {
    if lead == "" {
      assert lead + OPENER + "\n" == OPENER + "\n" && (OPENER + "\n")[|OPENER|..] == "\n";
    } else {
      assert (lead + OPENER)[1..] == lead[1..] + OPENER;
      OpensAtEnd(lead[1..]);
    }
  }
}
