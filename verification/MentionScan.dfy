/** The room's @-scan, and whom a rendered envelope wakes. */
module MentionScan {
  import opened PyText
  import opened Handoff
  import opened HandoffText
  import opened HandoffMentions
  import Room = GroupChat

  /** Lower-casing and `\w`, character by character; the scan's own patterns are ASCII. */
  datatype Scan = Scan(fold: char -> string, word: char -> bool) {
    /** What both do to ASCII. */
    ghost predicate Lawful() {
      forall c: char | c < '\U{80}' ::
        && fold(c) == [if 'A' <= c <= 'Z' then c - 'A' + 'a' else c]
        && (word(c) <==> 'a' <= c <= 'z' || 'A' <= c <= 'Z' || '0' <= c <= '9' || c == '_')
    }
  }

  function Lower(scan: Scan, text: string): string {
    if text == "" then "" else scan.fold(text[0]) + Lower(scan, text[1..])
  }

  /** The longest run of slug characters `t` starts with. */
  function Handle(t: string): (h: string)
    ensures |h| <= |t| && h == t[..|h|] && (|h| < |t| ==> !SlugChar(t[|h|]))
    ensures forall i :: 0 <= i < |h| ==> SlugChar(h[i])
  {
    if t != "" && SlugChar(t[0]) then [t[0]] + Handle(t[1..]) else ""
  }

  /** An @ at the head of `t` that mentions someone, `after` saying whether a word character stands before it. */
  predicate At(t: string, after: bool) { !after && |t| > 1 && t[0] == '@' && SlugHead(t[1]) }

  /** `_MENTION_RE.findall`, as a set. */
  function Found(scan: Scan, t: string, after: bool): set<string> {
    if t == "" then {}
    else
      var rest := Found(scan, t[1..], scan.word(t[0]));
      if At(t, after) then {Handle(t[1..])} + rest else rest
  }

  /** `extract_mentions`. */
  function Extracted(scan: Scan, text: string): set<string> { Found(scan, Lower(scan, text), false) }

  // ----- what the scan finds -----

  predicate WordBefore(scan: Scan, pre: string, after: bool) { if pre == "" then after else scan.word(pre[|pre| - 1]) }

  /** A handle, and text that does not prolong it. */
  predicate Whole(h: string, post: string) {
    && h != "" && SlugHead(h[0]) && (forall i :: 0 <= i < |h| ==> SlugChar(h[i]))
    && (post == "" || !SlugChar(post[0]))
  }

  /** "@handle" in `t`, whole, and not inside a word. */
  predicate Stands(scan: Scan, t: string, after: bool, h: string, pre: string, post: string) {
    t == pre + (['@'] + h + post) && Whole(h, post) && !WordBefore(scan, pre, after)
  }

  lemma {:induction false} HandleIs(h: string, post: string)
    requires (forall i :: 0 <= i < |h| ==> SlugChar(h[i])) && (post == "" || !SlugChar(post[0]))
    ensures Handle(h + post) == h
  {
    if h == "" {
      assert h + post == post;
    } else {
      assert (h + post)[1..] == h[1..] + post && (h + post)[0] == h[0];
      HandleIs(h[1..], post);
    }
  }

  lemma HeadFound(scan: Scan, t: string, h: string, post: string)
    requires Whole(h, post) && t == ['@'] + h + post
    ensures h in Found(scan, t, false)
  {
    assert t[1..] == h + post && t[0] == '@' && t[1] == h[0];
    HandleIs(h, post);
  }

  lemma FoundLater(scan: Scan, t: string, after: bool, h: string)
    requires t != "" && h in Found(scan, t[1..], scan.word(t[0]))
    ensures h in Found(scan, t, after)
  {
  }

  lemma {:induction false} StandingFound(scan: Scan, t: string, after: bool, h: string, pre: string, post: string)
    requires Stands(scan, t, after, h, pre, post)
    ensures h in Found(scan, t, after)
  {
    if pre == "" {
      NoneConcat(['@'] + h + post);
      HeadFound(scan, t, h, post);
    } else {
      ConcatHead(pre, ['@'] + h + post);
      assert pre[1..] != "" ==> pre[1..][|pre| - 2] == pre[|pre| - 1];
      StandingFound(scan, t[1..], scan.word(t[0]), h, pre[1..], post);
      FoundLater(scan, t, after, h);
    }
  }

  lemma HandleSplits(t: string)
    requires t != "" && SlugHead(t[0])
    ensures var h := Handle(t); Whole(h, t[|h|..]) && t == h + t[|h|..]
  {
    TakeDrop(t, |Handle(t)|);
  }

  lemma FoundHere(scan: Scan, t: string, after: bool)
    requires At(t, after)
    ensures var h := Handle(t[1..]); Stands(scan, t, after, h, "", t[1..][|h|..])
  {
    var h := Handle(t[1..]);
    var post := t[1..][|h|..];
    HandleSplits(t[1..]);
    assert t == ['@'] + (h + post);
    Assoc(['@'], h, post);
    NoneConcat(['@'] + h + post);
  }

  lemma {:induction false} FoundStands(scan: Scan, t: string, after: bool, h: string)
    returns (pre: string, post: string)
    requires h in Found(scan, t, after)
    ensures Stands(scan, t, after, h, pre, post)
  {
    if At(t, after) && h == Handle(t[1..]) {
      FoundHere(scan, t, after);
      pre, post := "", t[1..][|h|..];
    } else {
      pre, post := FoundStands(scan, t[1..], scan.word(t[0]), h);
      pre := [t[0]] + pre;
      Assoc([t[0]], pre[1..], ['@'] + h + post);
      assert pre[1..] != "" ==> pre[|pre| - 1] == pre[1..][|pre| - 2];
    }
  }

  /** "@handle" stands somewhere in the text, whole and outside a word. */
  ghost predicate StandsIn(scan: Scan, t: string, h: string) {
    exists pre: string, post: string :: Stands(scan, t, false, h, pre, post)
  }

  /** The scan finds exactly the handles that stand in the lower-cased text. */
  lemma FoundExactly(scan: Scan, text: string, h: string)
    ensures h in Extracted(scan, text) <==> StandsIn(scan, Lower(scan, text), h)
  {
    var t := Lower(scan, text);
    if h in Found(scan, t, false) {
      var pre, post := FoundStands(scan, t, false, h);
      assert Stands(scan, t, false, h, pre, post);
    }
    if StandsIn(scan, t, h) {
      var pre: string, post: string :| Stands(scan, t, false, h, pre, post);
      StandingFound(scan, t, false, h, pre, post);
    }
  }

  // ----- what a rendered envelope makes it find -----

  lemma {:induction false} LowerConcat(scan: Scan, a: string, b: string)
    ensures Lower(scan, a + b) == Lower(scan, a) + Lower(scan, b)
  {
    if a == "" {
      NoneConcat(b);
    } else {
      ConcatHead(a, b);
      LowerConcat(scan, a[1..], b);
      Assoc(scan.fold(a[0]), Lower(scan, a[1..]), Lower(scan, b));
    }
  }

  predicate Small(c: char) { c < '\U{80}' && !('A' <= c <= 'Z') }

  lemma {:induction false} LowerSame(scan: Scan, s: string)
    requires scan.Lawful() && forall i :: 0 <= i < |s| ==> Small(s[i])
    ensures Lower(scan, s) == s
  {
    if s != "" {
      LowerSame(scan, s[1..]);
      assert Small(s[0]) && scan.fold(s[0]) == [s[0]];
    }
  }

  lemma LowerHead(scan: Scan, post: string)
    requires scan.Lawful() && post != "" && Ends(post[0])
    ensures Lower(scan, post) != "" && !SlugChar(Lower(scan, post)[0])
  {
    assert scan.fold(post[0]) == [post[0]];
  }

  /** A handle mentioned as `Mentions` has it is found. */
  lemma MentionFound(scan: Scan, text: string, handle: string)
    requires scan.Lawful() && SafeSlug(handle) && Mentions(text, handle)
    ensures handle in Extracted(scan, text)
  {
    var pre, post :| Split(text, handle, pre, post);
    var at := " @" + handle;
    forall i | 0 <= i < |at| ensures Small(at[i]) {
      if i >= 2 { assert at[i] == handle[i - 2] && handle[i - 2] in handle; }
    }
    LowerSame(scan, at);
    LowerConcat(scan, pre, at + post);
    LowerConcat(scan, at, post);
    LowerHead(scan, post);
    SpacedStands(scan, Lower(scan, text), Lower(scan, pre), handle, Lower(scan, post));
    StandingFound(scan, Lower(scan, text), false, handle, Lower(scan, pre) + " ", Lower(scan, post));
  }

  lemma SpacedStands(scan: Scan, t: string, pre: string, handle: string, post: string)
    requires scan.Lawful() && SafeSlug(handle) && t == pre + (" @" + handle + post) && post != "" && !SlugChar(post[0])
    ensures Stands(scan, t, false, handle, pre + " ", post)
  {
    assert t == (pre + " ") + (['@'] + handle + post);
    assert (pre + " ")[|pre|] == ' ' && !scan.word(' ');
    assert forall i :: 0 <= i < |handle| ==> handle[i] in handle;
  }

  lemma WokenIsSlug(e: Envelope, handle: string)
    requires e.Valid() && Wakes(e, handle)
    ensures SafeSlug(handle)
  {
    if e.kind == Response && handle != e.recipient {
      var i :| 0 <= i < |e.decisions| && e.decisions[i].verdict == Decline && e.decisions[i].redirect == handle;
      assert e.decisions[i] in e.decisions;
    }
  }

  /** Posted in a room, with any voice line, an envelope is offered to its recipient and to every persona it redirects
      an ask to, unless that persona posted it. */
  lemma RenderWakes(room: Room.Room, scan: Scan, codec: Codec, e: Envelope, say: string, author: string, handle: string)
    requires scan.Lawful() && forall text :: room.mentionsOf(text) == Extracted(scan, text)
    requires e.Valid() && Wakes(e, handle) && handle != author
    ensures Room.ShouldRespond(room, Room.AsMessage(room, Room.Reply(author, Render(codec, e, say))), handle)
  {
    RenderMentions(codec, e, say, handle);
    WokenIsSlug(e, handle);
    MentionFound(scan, Render(codec, e, say), handle);
  }

  /** The message a posted envelope becomes mentions whom it wakes. */
  lemma PostedMentions(room: Room.Room, scan: Scan, codec: Codec, e: Envelope, say: string, text: string,
                       handle: string)
    requires scan.Lawful() && room.mentionsOf(text) == Extracted(scan, text) && text == Render(codec, e, say)
    requires e.Valid() && Wakes(e, handle)
    ensures handle in room.mentionsOf(text)
  {
    RenderMentions(codec, e, say, handle);
    WokenIsSlug(e, handle);
    MentionFound(scan, text, handle);
  }

  /** Posted as a reply of the round, an envelope is taken up in it: its recipient, and every persona it redirects an
      ask to, is answered for if it has an answer, unless the cap is reached first. */
  lemma RedirectTakenUp(room: Room.Room, scan: Scan, codec: Codec, e: Envelope, say: string,
                        inbound: seq<Room.Message>, turns: seq<Room.Turn>, j: nat, p: nat)
    requires scan.Lawful() && forall text :: room.mentionsOf(text) == Extracted(scan, text)
    requires Room.Answered(room, inbound, turns) && j < |turns| && turns[j].reply.text == Render(codec, e, say)
    requires p < |room.personas| && room.personas[p] != turns[j].reply.handle
    requires e.Valid() && Wakes(e, room.personas[p]) && forall m :: Room.AlwaysAnswers(room, m, room.personas[p])
    ensures |inbound| + j < |Room.All(room, inbound, turns)|
    ensures Room.AnsweredAt(turns, |inbound| + j, p) || Room.CapReached(room, inbound, turns, |inbound| + j, p)
  {
    PostedMentions(room, scan, codec, e, say, turns[j].reply.text, room.personas[p]);
    Room.ReplyHeard(room, inbound, turns, j, p);
  }
}
