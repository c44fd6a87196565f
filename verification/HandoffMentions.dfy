/** The mentions that wake the right personas: every rendered notice and response @-addresses whom it must. */
module HandoffMentions {
  import opened PyText
  import opened Handoff
  import opened HandoffText

  /** What ends a handle where these texts mention one. */
  predicate Ends(c: char) { c == ':' || c == ' ' || c == '\n' }

  /** `text` holds "@handle" as the mention scan reads it: after a space, and whole. */
  ghost predicate Mentions(text: string, handle: string) {
    exists pre: string, post: string :: Split(text, handle, pre, post)
  }

  predicate Split(text: string, handle: string, pre: string, post: string) {
    text == pre + (" @" + handle + post) && post != "" && Ends(post[0])
  }

  lemma MentionsWithin(before: string, text: string, handle: string, after: string)
    requires Mentions(text, handle)
    ensures Mentions(before + text + after, handle)
  {
    var pre, post :| Split(text, handle, pre, post);
    var mid := " @" + handle;
    Regroup(before, pre, mid + post, after);
    assert before + text + after == (before + pre) + (" @" + handle + (post + after)) by { Assoc(mid, post, after); }
    assert Split(before + text + after, handle, before + pre, post + after);
  }

  lemma MentionMade(before: string, arrow: string, handle: string, tail: string)
    requires tail != "" && Ends(tail[0])
    ensures Mentions(before + (arrow + (" @" + handle)) + tail, handle)
  {
    Regroup(before, arrow, " @" + handle, tail);
    assert Split(before + (arrow + (" @" + handle)) + tail, handle, before + arrow, tail);
  }

  lemma {:induction false} TextConcat(a: seq<Piece>, b: seq<Piece>)
    ensures Text(a + b) == Text(a) + Text(b)
  {
    if a == [] {
      NoneConcat(b);
      NoneConcat(Text(b));
    } else {
      ConcatHead(a, b);
      TextConcat(a[1..], b);
      Assoc(PieceText(a[0]), Text(a[1..]), Text(b));
    }
  }

  /** What may follow a handle. */
  predicate Follows(post: seq<Piece>) {
    post == [] || post[0].wording in {Colon, OpenNote} || StartsLine(post[0].wording)
  }

  predicate Addresses(w: Wording) { w == ToAt || w == RedirectTo }

  lemma FollowsEnds(post: seq<Piece>)
    requires Follows(post)
    ensures Text(post) == "" || Ends(Text(post)[0])
  {
    if post != [] && !StartsLine(post[0].wording) {
      assert Words(Colon) == ": " && Words(OpenNote) == " (";
    }
  }

  lemma AddressText(p: Piece)
    requires Addresses(p.wording)
    ensures PieceText(p) == " \U{2192}" + (" @" + p.field)
  {
  }

  lemma OnePiece(p: Piece)
    ensures Text([p]) == PieceText(p)
  {
    assert [p][1..] == [];
    NoneConcat(PieceText(p));
  }

  lemma AddressMentions(pre: seq<Piece>, p: Piece, post: seq<Piece>)
    requires Addresses(p.wording) && Follows(post)
    ensures Mentions(Text(pre + [p] + post) + "\n", p.field)
  {
    FollowsEnds(post);
    TextConcat(pre + [p], post);
    TextConcat(pre, [p]);
    OnePiece(p);
    AddressText(p);
    Assoc(Text(pre + [p]), Text(post), "\n");
    MentionMade(Text(pre), " \U{2192}", p.field, Text(post) + "\n");
  }

  /** The head of a notice or response names its recipient. */
  lemma RecipientMentioned(title: Wording, e: Envelope, rest: seq<Piece>)
    ensures Mentions(Text(HeadPieces(title, e) + rest) + "\n", e.recipient)
  {
    var pre, post := [Piece(title, e.taskId), Piece(FromAt, e.origin)], [Piece(Colon, e.summary)] + rest;
    assert HeadPieces(title, e) + rest == pre + [Piece(ToAt, e.recipient)] + post;
    AddressMentions(pre, Piece(ToAt, e.recipient), post);
  }

  lemma {:induction false} DecisionsSplit(ds: seq<Decision>, i: nat)
    requires i < |ds|
    ensures AllPieces(ds, DecisionPieces) ==
            AllPieces(ds[..i], DecisionPieces) + (DecisionPieces(ds[i]) + AllPieces(ds[i + 1..], DecisionPieces))
  {
    if i == 0 {
      assert ds[..0] == [];
      NoneConcat(AllPieces(ds, DecisionPieces));
    } else {
      DecisionsSplit(ds[1..], i - 1);
      assert ds[1..][..i - 1] == ds[..i][1..] && ds[1..][i..] == ds[i + 1..];
      Assoc(DecisionPieces(ds[0]), AllPieces(ds[..i][1..], DecisionPieces),
            DecisionPieces(ds[i]) + AllPieces(ds[i + 1..], DecisionPieces));
    }
  }

  lemma DecisionStartsLine(ds: seq<Decision>)
    ensures Follows(AllPieces(ds, DecisionPieces))
  {
    if ds != [] { assert DecisionPieces(ds[0]) != [] && StartsLine(DecisionPieces(ds[0])[0].wording); }
  }

  lemma FourParts<T>(head: seq<T>, before: seq<T>, x: T, y: T, notes: seq<T>, after: seq<T>)
    ensures head + (before + ([x, y] + notes + after)) == head + before + [x] + [y] + (notes + after)
  {
  }

  lemma NotesFollow(note: string, after: seq<Piece>)
    requires Follows(after)
    ensures Follows(NotePieces(note) + after)
  {
    if note == "" { NoneConcat(after); }
  }

  /** A declined ask handed on names its new target. */
  lemma RedirectMentioned(head: seq<Piece>, ds: seq<Decision>, i: nat)
    requires i < |ds| && ds[i].verdict == Decline && ds[i].redirect != ""
    ensures Mentions(Text(head + AllPieces(ds, DecisionPieces)) + "\n", ds[i].redirect)
  {
    var d, p := ds[i], Piece(RedirectTo, ds[i].redirect);
    var before, after := AllPieces(ds[..i], DecisionPieces), AllPieces(ds[i + 1..], DecisionPieces);
    DecisionsSplit(ds, i);
    DecisionStartsLine(ds[i + 1..]);
    NotesFollow(d.note, after);
    FourParts(head, before, Piece(NotMineIs, d.ask), p, NotePieces(d.note), after);
    AddressMentions(head + before + [Piece(NotMineIs, d.ask)], p, NotePieces(d.note) + after);
  }

  /** Whom an envelope must wake: its recipient, and every target of a redirect. */
  predicate Wakes(e: Envelope, handle: string) {
    (e.kind != Plan && handle == e.recipient) ||
    (e.kind == Response && handle != "" &&
     exists i :: 0 <= i < |e.decisions| && e.decisions[i].verdict == Decline && e.decisions[i].redirect == handle)
  }

  /** With any voice line, the rendered envelope mentions its recipient and every redirect target, whole. */
  lemma RenderMentions(codec: Codec, e: Envelope, say: string, handle: string)
    requires Wakes(e, handle)
    ensures Mentions(Render(codec, e, say), handle)
  {
    HumanMentions(e, handle);
    var human, frame := Human(e) + "\n", "\n" + Frame(codec, e);
    MentionsWithin("", human, handle, frame);
    NoneConcat(human);
    BodySplit(codec, e);
    var voice := Strip(Defang(say));
    if voice != "" {
      MentionsWithin(voice + "\n\n", Body(codec, e), handle, "");
      NoneConcat(voice + "\n\n" + Body(codec, e));
    }
  }

  lemma BodySplit(codec: Codec, e: Envelope)
    ensures Body(codec, e) == Human(e) + "\n" + ("\n" + Frame(codec, e))
  {
    assert "\n\n" == "\n" + "\n";
    Regroup(Human(e), "\n", "\n", Frame(codec, e));
  }

  lemma HumanMentions(e: Envelope, handle: string)
    requires Wakes(e, handle)
    ensures Mentions(Human(e) + "\n", handle)
  {
    match e.kind
    case Notice =>
      var rest := AllPieces(e.facts, FactPieces) + AllPieces(e.asks, AskPieces);
      Assoc(HeadPieces(NoticeFor, e), AllPieces(e.facts, FactPieces), AllPieces(e.asks, AskPieces));
      RecipientMentioned(NoticeFor, e, rest);
    case Response =>
      if handle == e.recipient {
        RecipientMentioned(ResponseFor, e, AllPieces(e.decisions, DecisionPieces));
      } else {
        var i :| 0 <= i < |e.decisions| && e.decisions[i].verdict == Decline && e.decisions[i].redirect == handle;
        RedirectMentioned(HeadPieces(ResponseFor, e), e.decisions, i);
      }
    case Plan =>
  }
}
