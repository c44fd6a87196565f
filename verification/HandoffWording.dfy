/** The human section of an envelope, line by line, as its reader sees it. */
module HandoffWording {
  import opened PyText
  import opened Handoff
  import opened HandoffText
  import opened HandoffMentions

  // ----- the lines -----

  function FactLine(f: Fact): string {
    var provenance := if f.provenance == "" then "none" else f.provenance;
    "\n" + "fact: " + f.text + " (claimant @" + f.claimant + "; provenance: " + provenance + ")"
  }

  function AskLine(a: string): string { "\n" + "ask: " + a }

  /** A note follows its decision in brackets. */
  function Noted(line: string, note: string): string { if note == "" then line else line + (" (" + note + ")") }

  function DoneLine(ask: string, capability: string): string {
    "\n" + "[done] " + ask + " \U{2014} reflexed via " + capability
  }

  function FailedLine(ask: string): string { "\n" + "[failed] " + ask + " \U{2014} reflex did not apply" }

  function HandedLine(ask: string, redirect: string): string { "\n" + "[not mine] " + ask + " \U{2192} @" + redirect }

  function PlainLine(lead: string, ask: string): string { "\n" + lead + ask }

  function DecisionLine(d: Decision): string {
    Noted(match d.verdict
          case Reflexed => if d.applied then DoneLine(d.ask, d.capability) else FailedLine(d.ask)
          case Accept => PlainLine("[mine] ", d.ask)
          case Decline =>
            if d.redirect == "" then PlainLine("[not mine] ", d.ask) else HandedLine(d.ask, d.redirect)
          case Defer => PlainLine("[needs owner] ", d.ask), d.note)
  }

  function OwnerWord(owner: string): string { if owner == "" then "] unassigned" else "] @" + owner }

  function StatusWord(s: StepStatus): string {
    match s case StepDone => "done" case NeedsApproval => "needs-approval" case Unassigned => "unassigned"
  }

  function StepLine(number: nat, s: Step): string {
    "\n" + (Decimal(number) + ". [") + StatusWord(s.status) + OwnerWord(s.owner) + ": " + s.action
  }

  function AllLines<T>(items: seq<T>, line: T -> string): string {
    if items == [] then "" else line(items[0]) + AllLines(items[1..], line)
  }

  function StepLines(steps: seq<Step>, number: nat): string {
    if steps == [] then "" else StepLine(number, steps[0]) + StepLines(steps[1..], number + 1)
  }

  function HeadLine(title: string, e: Envelope): string {
    title + e.taskId + " from @" + e.origin + " \U{2192} @" + e.recipient + ": " + e.summary
  }

  // ----- pieces to lines -----

  lemma OneText(p: Piece)
    ensures Text([p]) == if StartsLine(p.wording) then "\n" + Words(p.wording) + p.field else Words(p.wording) + p.field
  {
    assert Text([p]) == PieceText(p) + Text([p][1..]) && Text([p][1..]) == "";
  }

  lemma TwoTexts(p: Piece, q: Piece)
    ensures Text([p, q]) == Text([p]) + Text([q])
  {
    TextConcat([p], [q]);
    assert [p] + [q] == [p, q];
  }

  lemma FourTexts(p: Piece, q: Piece, r: Piece, s: Piece)
    ensures Text([p, q, r, s]) == Text([p]) + Text([q]) + Text([r]) + Text([s])
    ensures Text([p, q, r]) == Text([p]) + Text([q]) + Text([r])
  {
    TwoTexts(p, q);
    TextConcat([p, q], [r]);
    TextConcat([p, q, r], [s]);
    assert [p, q] + [r] == [p, q, r] && [p, q, r] + [s] == [p, q, r, s];
  }

  lemma Spread(a: string, b: string, c: string)
    ensures a + (b + c) == a + b + c
  {
  }

  function Opened(p: Piece): string {
    if StartsLine(p.wording) then "\n" + Words(p.wording) + p.field else Words(p.wording) + p.field
  }

  lemma FourParts(p: Piece, q: Piece, r: Piece, s: Piece)
    requires !StartsLine(q.wording) && !StartsLine(r.wording) && !StartsLine(s.wording)
    ensures var three := Opened(p) + Words(q.wording) + q.field + Words(r.wording) + r.field;
            Text([p, q, r]) == three && Text([p, q, r, s]) == three + Words(s.wording) + s.field
  {
    FourTexts(p, q, r, s);
    OneText(p);
    OneText(q);
    OneText(r);
    OneText(s);
    var a := Opened(p);
    Spread(a, Words(q.wording), q.field);
    var b := a + Words(q.wording) + q.field;
    Spread(b, Words(r.wording), r.field);
    Spread(b + Words(r.wording) + r.field, Words(s.wording), s.field);
  }

  lemma TwoParts(p: Piece, q: Piece)
    requires !StartsLine(q.wording)
    ensures Text([p, q]) == Opened(p) + Words(q.wording) + q.field
  {
    TwoTexts(p, q);
    OneText(p);
    OneText(q);
    Spread(Opened(p), Words(q.wording), q.field);
  }

  // ----- each line -----

  /** The fixed words of a fact's line. */
  lemma FactWords()
    ensures StartsLine(FactIs) && !StartsLine(ClaimedBy) && !StartsLine(ProvenanceIs) && !StartsLine(CloseParen)
    ensures Words(FactIs) == "fact: " && Words(CloseParen) == ")"
    ensures Words(ClaimedBy) == " (claimant @" && Words(ProvenanceIs) == "; provenance: "
  {
  }

  lemma FactReads(f: Fact)
    ensures Text(FactPieces(f)) == FactLine(f)
  {
    var provenance := if f.provenance == "" then "none" else f.provenance;
    FactWords();
    FourParts(Piece(FactIs, f.text), Piece(ClaimedBy, f.claimant), Piece(ProvenanceIs, provenance),
              Piece(CloseParen, ""));
    NoneConcat(FactLine(f));
  }

  lemma AskReads(a: string)
    ensures Text(AskPieces(a)) == AskLine(a)
  {
    OneText(Piece(AskIs, a));
  }

  lemma NoteReads(note: string)
    ensures Text(NotePieces(note)) == if note == "" then "" else " (" + note + ")"
  {
    if note != "" {
      TwoParts(Piece(OpenNote, note), Piece(CloseParen, ""));
      var text := " (" + note + ")";
      NoneConcat(text);
    }
  }

  lemma DoneReads(ask: string, capability: string)
    ensures Text([Piece(DoneIs, ask), Piece(ReflexedVia, capability)]) == DoneLine(ask, capability)
  {
    TwoParts(Piece(DoneIs, ask), Piece(ReflexedVia, capability));
  }

  lemma FailedReads(ask: string)
    ensures Text([Piece(FailedIs, ask), Piece(NotApplied, "")]) == FailedLine(ask)
  {
    TwoParts(Piece(FailedIs, ask), Piece(NotApplied, ""));
    var line := FailedLine(ask);
    NoneConcat(line);
  }

  lemma HandedReads(ask: string, redirect: string)
    ensures Text([Piece(NotMineIs, ask), Piece(RedirectTo, redirect)]) == HandedLine(ask, redirect)
  {
    TwoParts(Piece(NotMineIs, ask), Piece(RedirectTo, redirect));
  }

  lemma PlainReads(w: Wording, ask: string)
    requires w in {MineIs, NotMineIs, NeedsOwnerIs}
    ensures Text([Piece(w, ask)]) ==
            PlainLine(match w case MineIs => "[mine] " case NotMineIs => "[not mine] " case _ => "[needs owner] ", ask)
  {
    OneText(Piece(w, ask));
  }

  lemma VerdictReads(d: Decision)
    ensures Text(VerdictPieces(d)) == DecisionLine(d.(note := ""))
  {
    match d.verdict
    case Reflexed =>
      DoneReads(d.ask, d.capability);
      FailedReads(d.ask);
    case Accept => PlainReads(MineIs, d.ask);
    case Decline =>
      PlainReads(NotMineIs, d.ask);
      HandedReads(d.ask, d.redirect);
    case Defer => PlainReads(NeedsOwnerIs, d.ask);
  }

  lemma DecisionReads(d: Decision)
    ensures Text(DecisionPieces(d)) == DecisionLine(d)
  {
    TextConcat(VerdictPieces(d), NotePieces(d.note));
    VerdictReads(d);
    NoteReads(d.note);
    var line := DecisionLine(d.(note := ""));
    NoneConcat(line);
  }

  function OwnerPiece(owner: string): Piece { if owner == "" then Piece(NoOwner, "") else Piece(OwnerAt, owner) }

  lemma OwnerReads(lead: string, owner: string)
    ensures var p := OwnerPiece(owner);
            !StartsLine(p.wording) && lead + Words(p.wording) + p.field == lead + OwnerWord(owner)
  {
    var p := OwnerPiece(owner);
    Spread(lead, Words(p.wording), p.field);
    assert Words(NoOwner) + "" == Words(NoOwner);
  }

  lemma StatusReads(s: StepStatus)
    ensures StatusName(s) == StatusWord(s)
  {
  }

  lemma StepReads(s: Step, number: nat)
    ensures Text(StepPieces(s, number)) == StepLine(number, s)
  {
    var first, owner, last := Piece(StepNumber(number), StatusName(s.status)), OwnerPiece(s.owner),
      Piece(Colon, s.action);
    assert StepPieces(s, number) == [first, owner, last];
    OwnerReads(Opened(first), s.owner);
    FourParts(first, owner, last, last);
    StatusReads(s.status);
    assert Words(Colon) == ": " && Words(first.wording) == Decimal(number) + ". [";
  }

  lemma {:induction false} LinesRead<T(!new)>(items: seq<T>, pieces: T -> seq<Piece>, line: T -> string)
    requires forall x :: Text(pieces(x)) == line(x)
    ensures Text(AllPieces(items, pieces)) == AllLines(items, line)
  {
    if items != [] {
      TextConcat(pieces(items[0]), AllPieces(items[1..], pieces));
      LinesRead(items[1..], pieces, line);
    }
  }

  lemma {:induction false} StepLinesRead(steps: seq<Step>, number: nat)
    ensures Text(AllStepPieces(steps, number)) == StepLines(steps, number)
  {
    if steps != [] {
      TextConcat(StepPieces(steps[0], number), AllStepPieces(steps[1..], number + 1));
      StepReads(steps[0], number);
      StepLinesRead(steps[1..], number + 1);
    }
  }

  lemma HeadReads(title: Wording, e: Envelope)
    requires !StartsLine(title)
    ensures Text(HeadPieces(title, e)) == HeadLine(Words(title), e)
  {
    FourParts(Piece(title, e.taskId), Piece(FromAt, e.origin), Piece(ToAt, e.recipient), Piece(Colon, e.summary));
  }

  // ----- the whole section -----

  /** A notice shows its facts, then its asks. */
  lemma NoticeReads(e: Envelope)
    requires e.kind == Notice
    ensures Human(e) == HeadLine("handoff notice #", e) + AllLines(e.facts, FactLine) + AllLines(e.asks, AskLine)
  {
    var head, facts, asks := HeadPieces(NoticeFor, e), AllPieces(e.facts, FactPieces), AllPieces(e.asks, AskPieces);
    TextConcat(head + facts, asks);
    TextConcat(head, facts);
    HeadReads(NoticeFor, e);
    forall f ensures Text(FactPieces(f)) == FactLine(f) { FactReads(f); }
    forall a ensures Text(AskPieces(a)) == AskLine(a) { AskReads(a); }
    LinesRead(e.facts, FactPieces, FactLine);
    LinesRead(e.asks, AskPieces, AskLine);
  }

  /** A response shows its decisions. */
  lemma ResponseReads(e: Envelope)
    requires e.kind == Response
    ensures Human(e) == HeadLine("response #", e) + AllLines(e.decisions, DecisionLine)
  {
    TextConcat(HeadPieces(ResponseFor, e), AllPieces(e.decisions, DecisionPieces));
    HeadReads(ResponseFor, e);
    forall d ensures Text(DecisionPieces(d)) == DecisionLine(d) { DecisionReads(d); }
    LinesRead(e.decisions, DecisionPieces, DecisionLine);
  }

  function PlanHead(taskId: string, summary: string): string {
    "unified plan #" + taskId + " \U{2014} for the owner: " + summary
  }

  lemma PlanHeadReads(taskId: string, summary: string)
    ensures Text([Piece(PlanFor, taskId), Piece(ForOwner, summary)]) == PlanHead(taskId, summary)
  {
    TwoParts(Piece(PlanFor, taskId), Piece(ForOwner, summary));
  }

  lemma PlanFootLine()
    ensures Text([Piece(PlanFoot, "")]) == "\n" + PlanFootWords()
  {
    OneText(Piece(PlanFoot, ""));
    var line := "\n" + PlanFootWords();
    NoneConcat(line);
  }

  /** A plan shows its steps, numbered from one, between its title and the line that says it authorizes nothing. */
  lemma PlanReads(e: Envelope)
    requires e.kind == Plan
    ensures Human(e) == PlanHead(e.taskId, e.summary) + StepLines(e.steps, 1) + ("\n" + PlanFootWords())
  {
    var head, steps, foot := [Piece(PlanFor, e.taskId), Piece(ForOwner, e.summary)], AllStepPieces(e.steps, 1),
                             [Piece(PlanFoot, "")];
    TextConcat(head + steps, foot);
    TextConcat(head, steps);
    PlanHeadReads(e.taskId, e.summary);
    StepLinesRead(e.steps, 1);
    PlanFootLine();
  }

  /** The line that says so. */
  lemma PlanFootReads()
    ensures var gate := "every step executes " + "through the approval gate";
            PlanFootWords() == gate + " \U{2014} this plan authorizes nothing"
  {
  }

  // ----- the voice line -----

  lemma TicksFirst(t: string)
    requires TICKS <= t
    ensures TicksAt(t, 0)
  {
    assert t[0] == TICKS[0] && t[1] == TICKS[1] && t[2] == TICKS[2];
  }

  lemma {:induction false} DefangSkips(a: string, rest: string)
    requires forall i: nat :: i < |a| ==> !TicksAt(a + rest, i)
    ensures Defang(a + rest) == a + Defang(rest)
  {
    if a == "" {
      assert a + rest == rest && a + Defang(rest) == Defang(rest);
    } else {
      var t := a + rest;
      assert t[0] == a[0] && t[1..] == a[1..] + rest;
      assert !TicksAt(t, 0);
      if TICKS <= t { TicksFirst(t); }
      forall i: nat | i < |a[1..]| ensures !TicksAt(a[1..] + rest, i) { assert !TicksAt(t, i + 1); }
      DefangSkips(a[1..], rest);
      assert [a[0]] + (a[1..] + Defang(rest)) == a + Defang(rest);
    }
  }

  /** Each run of three backticks, from the left, becomes three quotes; everything else is kept. */
  lemma DefangReads(a: string, rest: string)
    requires forall i: nat :: i < |a| ==> !TicksAt(a + (TICKS + rest), i)
    ensures Defang(a + (TICKS + rest)) == a + ("'''" + Defang(rest))
  {
    DefangSkips(a, TICKS + rest);
    assert TICKS <= TICKS + rest && (TICKS + rest)[3..] == rest;
  }

  /** A message is the voice line, if it is not blank, the human section and the fenced payload. */
  lemma RenderReads(codec: Codec, e: Envelope, say: string)
    requires FenceFree(say)
    ensures var block := "```handoff" + "\n" + codec.dumps(ToPayload(e)) + "\n```";
            Render(codec, e, say) ==
            if Strip(say) == "" then Human(e) + "\n\n" + block else Strip(say) + "\n\n" + (Human(e) + "\n\n" + block)
  {
    forall i: nat ensures !TicksAt(say + "", i) { assert say + "" == say && !TicksAt(say, i); }
    DefangSkips(say, "");
    assert say + "" == say && Defang(say) == say;
  }
}
