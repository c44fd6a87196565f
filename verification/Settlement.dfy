/** A worker's answer once it is posted: what the ledger makes of the text. */
module Settlement {
  import opened PyText
  import opened Handoff
  import opened Ledger
  import opened Reflex
  import opened Responder
  import T = HandoffText
  import M = HandoffMentions

  /** No ask of the task is pending. */
  predicate Settled(s: State, id: string) {
    id in s.tasks && forall a :: a in s.tasks[id].asks ==> s.tasks[id].asks[a].status != Pending
  }

  /** The reply as the room hears it: text by its author, parsed. */
  function Heard(codec: T.Codec, r: Envelope, me: string, say: string): ChatMessage {
    ChatMessage(me, false, T.Parse(codec, T.Render(codec, r, say)))
  }

  /** No line of the human section opens a fence, and the block fits. */
  predicate Readable(codec: T.Codec, r: Envelope) {
    !T.OpensFence(T.Human(r)) && T.Utf8Length(codec.dumps(ToPayload(r))) <= T.MAX_BLOCK_BYTES
  }

  lemma {:induction false} DecidedAsk(asks: Asks, response: Envelope, n: nat, a: string)
    requires n <= |response.decisions| && a in asks
    requires asks[a].status != Pending || exists i :: 0 <= i < n && response.decisions[i].ask == a
    ensures AsksAfter(asks, response, n)[a].status != Pending
  {
    if n > 0 && (asks[a].status != Pending || exists i :: 0 <= i < n - 1 && response.decisions[i].ask == a) {
      DecidedAsk(asks, response, n - 1, a);
    }
  }

  /** A complete answer whose envelope reaches the ledger leaves none of the notice's asks pending. */
  lemma EnvelopeSettles(s: State, response: Envelope, env: Envelope, me: string, replyTo: string)
    requires WellFormed(s) && env.taskId in s.tasks && s.tasks[env.taskId].notice == env
    requires CompleteAnswer(response, env, me, replyTo)
    ensures var s' := Ledger.Feed(s, ChatMessage(me, false, Some(response)));
            Settled(s', env.taskId) && s'.tasks[env.taskId].notice == env
  {
    assert Keyed(env.taskId, s.tasks[env.taskId]);
    forall a | a in s.tasks[env.taskId].asks
      ensures AsksAfter(s.tasks[env.taskId].asks, response, |response.decisions|)[a].status != Pending
    {
      assert a in env.asks;
      DecidedAsk(s.tasks[env.taskId].asks, response, |response.decisions|, a);
    }
  }

  /** Posted and heard, a complete answer leaves no ask of the task pending exactly when none was pending before, or the
      answer is readable: no line of its human section opens a fence, and its block is within the size limit. */
  lemma AnswerSettles(codec: T.Codec, say: string, s: State, r: Envelope, env: Envelope, me: string, replyTo: string)
    requires codec.Lawful() && WellFormed(s) && env.taskId in s.tasks && s.tasks[env.taskId].notice == env
    requires CompleteAnswer(r, env, me, replyTo)
    ensures Settled(Ledger.Feed(s, Heard(codec, r, me, say)), env.taskId) <==>
            Settled(s, env.taskId) || Readable(codec, r)
  {
    T.TextRoundTrip(codec, r, say);
    if Readable(codec, r) { EnvelopeSettles(s, r, env, me, replyTo); } else { ProseIsInert(s, me); }
  }

  lemma ProseIsInert(s: State, author: string)
    ensures Ledger.Feed(s, ChatMessage(author, false, None)) == s
  {
    assert s.failures + [] == s.failures;
  }

  // ----- a key that opens a fence -----

  lemma OpensHere(rest: string)
    requires rest == "" || rest[0] == '\n'
    ensures T.OpensFence(T.OPENER + rest)
  {
    var t := T.OPENER + rest;
    assert (t + "\n")[|T.OPENER|..] == rest + "\n" && T.OPENER <= t + "\n";
  }

  lemma {:induction false} OpensWithin(lead: string, rest: string)
    requires rest == "" || rest[0] == '\n'
    ensures T.OpensFence(lead + T.OPENER + rest)
  {
    if lead == "" {
      OpensHere(rest);
      assert lead + T.OPENER + rest == T.OPENER + rest;
    } else {
      assert (lead + T.OPENER + rest)[1..] == lead[1..] + T.OPENER + rest;
      OpensWithin(lead[1..], rest);
    }
  }

  lemma {:induction false} AllPiecesConcat(a: seq<Decision>, b: seq<Decision>)
    ensures T.AllPieces(a + b, T.DecisionPieces) == T.AllPieces(a, T.DecisionPieces) + T.AllPieces(b, T.DecisionPieces)
  {
    if a == [] {
      NoneConcat(b);
      NoneConcat(T.AllPieces(b, T.DecisionPieces));
    } else {
      ConcatHead(a, b);
      AllPiecesConcat(a[1..], b);
      Assoc(T.DecisionPieces(a[0]), T.AllPieces(a[1..], T.DecisionPieces), T.AllPieces(b, T.DecisionPieces));
    }
  }

  /** Every decision starts a line of its own. */
  lemma DecisionsStartLines(ds: seq<Decision>)
    ensures var t := T.Text(T.AllPieces(ds, T.DecisionPieces)); t == "" || t[0] == '\n'
  {
    if ds != [] {
      var first, rest := T.DecisionPieces(ds[0]), T.AllPieces(ds[1..], T.DecisionPieces);
      ConcatHead(first, rest);
      FirstStarts(ds[0]);
    }
  }

  lemma FirstStarts(d: Decision)
    ensures T.DecisionPieces(d) != [] && T.StartsLine(T.DecisionPieces(d)[0].wording)
  {
    assert T.VerdictPieces(d) != [] && T.StartsLine(T.VerdictPieces(d)[0].wording);
    ConcatHead(T.VerdictPieces(d), T.NotePieces(d.note));
  }

  lemma Shift<A>(head: seq<A>, before: seq<A>, x: A, y: A, rest: seq<A>)
    ensures head + (before + ([x] + ([y] + rest))) == (head + before + [x]) + ([y] + rest)
  {
  }

  lemma AroundOne<A>(s: seq<A>, i: nat)
    requires i < |s|
    ensures s == s[..i] + ([s[i]] + s[i + 1..])
  {
  }

  /** The pieces of the human section around the i-th decision. */
  lemma PiecesAround(r: Envelope, i: nat, ask: string, key: string)
    requires r.kind == Response && i < |r.decisions|
    requires r.decisions[i] == Decision(ask, Reflexed, "", "", key + T.OPENER, true)
    ensures var before, after := r.decisions[..i], r.decisions[i + 1..];
            T.HumanPieces(r) ==
            (T.HeadPieces(T.ResponseFor, r) + T.AllPieces(before, T.DecisionPieces) + [T.Piece(T.DoneIs, ask)]) +
            ([T.Piece(T.ReflexedVia, key + T.OPENER)] + T.AllPieces(after, T.DecisionPieces))
  {
    var before, after := r.decisions[..i], r.decisions[i + 1..];
    AroundOne(r.decisions, i);
    AllPiecesConcat(before, [r.decisions[i]] + after);
    FiringPieces(r.decisions[i], after, ask, key);
    Shift(T.HeadPieces(T.ResponseFor, r), T.AllPieces(before, T.DecisionPieces), T.Piece(T.DoneIs, ask),
          T.Piece(T.ReflexedVia, key + T.OPENER), T.AllPieces(after, T.DecisionPieces));
  }

  lemma TextAround(lead: seq<T.Piece>, last: T.Piece, rest: seq<T.Piece>)
    ensures T.Text(lead + ([last] + rest)) == T.Text(lead) + (T.PieceText(last) + T.Text(rest))
  {
    M.TextConcat(lead, [last] + rest);
    ConcatHead([last], rest);
    assert [last][1..] + rest == rest;
  }

  lemma ReflexedText(field: string)
    ensures T.PieceText(T.Piece(T.ReflexedVia, field)) == T.Words(T.ReflexedVia) + field
  {
    NoneConcat(T.Words(T.ReflexedVia));
  }

  lemma PieceOpens(head: seq<T.Piece>, key: string, rest: seq<T.Piece>)
    requires T.Text(rest) == "" || T.Text(rest)[0] == '\n'
    ensures T.OpensFence(T.Text(head + ([T.Piece(T.ReflexedVia, key + T.OPENER)] + rest)))
  {
    TextAround(head, T.Piece(T.ReflexedVia, key + T.OPENER), rest);
    ReflexedText(key + T.OPENER);
    EndsInOpener(T.Text(head), T.Words(T.ReflexedVia), key, T.Text(rest),
                 T.Text(head) + (T.Words(T.ReflexedVia) + (key + T.OPENER) + T.Text(rest)));
  }

  /** An applied reflex under a key that ends in an opening fence, wherever it stands among the decisions. */
  lemma KeyOpensFence(r: Envelope, i: nat, ask: string, key: string)
    requires r.kind == Response && i < |r.decisions|
    requires r.decisions[i] == Decision(ask, Reflexed, "", "", key + T.OPENER, true)
    ensures T.OpensFence(T.Human(r))
  {
    var before, after := r.decisions[..i], r.decisions[i + 1..];
    PiecesAround(r, i, ask, key);
    DecisionsStartLines(after);
    PieceOpens(T.HeadPieces(T.ResponseFor, r) + T.AllPieces(before, T.DecisionPieces) + [T.Piece(T.DoneIs, ask)], key,
               T.AllPieces(after, T.DecisionPieces));
  }

  lemma AllPiecesCons(d: Decision, after: seq<Decision>)
    ensures T.AllPieces([d] + after, T.DecisionPieces) == T.DecisionPieces(d) + T.AllPieces(after, T.DecisionPieces)
  {
    assert ([d] + after)[1..] == after && ([d] + after)[0] == d;
  }

  lemma PairThen<A>(x: A, y: A, rest: seq<A>)
    ensures [x, y] + rest == [x] + ([y] + rest)
  {
  }

  lemma FiringPieces(d: Decision, after: seq<Decision>, ask: string, key: string)
    requires d == Decision(ask, Reflexed, "", "", key + T.OPENER, true)
    ensures T.AllPieces([d] + after, T.DecisionPieces) ==
            [T.Piece(T.DoneIs, ask)] + ([T.Piece(T.ReflexedVia, key + T.OPENER)] + T.AllPieces(after, T.DecisionPieces))
  {
    var x, y := T.Piece(T.DoneIs, ask), T.Piece(T.ReflexedVia, key + T.OPENER);
    AllPiecesCons(d, after);
    NoneConcat([x, y]);
    assert T.DecisionPieces(d) == [x, y];
    PairThen(x, y, T.AllPieces(after, T.DecisionPieces));
  }

  lemma EndsInOpener(lead: string, words: string, key: string, rest: string, whole: string)
    requires whole == lead + (words + (key + T.OPENER) + rest) && (rest == "" || rest[0] == '\n')
    ensures T.OpensFence(whole)
  {
    assert whole == (lead + words + key) + T.OPENER + rest;
    OpensWithin(lead + words + key, rest);
  }

  /** A firing that applied under such a key: the reply is heard as prose, and changes nothing. */
  lemma FencedKeyUnheard(codec: T.Codec, say: string, s: State, env: Envelope, me: string, replyTo: string,
                         fs: seq<Firing>, rest: seq<Decision>, i: nat, key: string)
    requires codec.Lawful() && i < |fs| && fs[i] == Firing(fs[i].ask, key + T.OPENER, true, NoNote)
    requires var r := ResponseTo(env, me, replyTo, FiringDecisions(fs) + rest); CompleteAnswer(r, env, me, replyTo)
    ensures var r := ResponseTo(env, me, replyTo, FiringDecisions(fs) + rest);
            !Readable(codec, r) && Ledger.Feed(s, Heard(codec, r, me, say)) == s
  {
    var r := ResponseTo(env, me, replyTo, FiringDecisions(fs) + rest);
    NoNoteEmpty();
    assert r.decisions[i] == FiringDecision(fs[i]);
    KeyOpensFence(r, i, fs[i].ask, key);
    T.TextRoundTrip(codec, r, say);
    ProseIsInert(s, me);
  }

  lemma NoNoteEmpty()
    ensures SingleLine(NoteText(NoNote), MAX_LINE) == ""
  {
    assert StripLeft("") == "" && Squeeze("", false) == "";
  }

  /** Such a key passes every check on keys. */
  lemma FencedKeyClean(f: Firing)
    requires f.key == "k" + T.OPENER
    ensures CleanKey(f)
  {
    var key, opener := f.key, T.OPENER;
    assert key[0] == 'k' && |key| == 11 && key[10] == opener[9] == 'f';
    forall i | 0 <= i < |key| ensures key[i] != '\n' && key[i] != '\r' {
      if i > 0 { T.NoNewlineInOpener(i - 1); }
    }
  }

  // ----- a block over the size limit -----

  function Bytes(ds: seq<Decision>): nat {
    if ds == [] then 0 else Bytes(ds[1..]) + T.Utf8Length(ds[0].ask) + T.Utf8Length(ds[0].note)
  }

  /** JSON text holds every ask and note in full: escapes only lengthen them. */
  ghost predicate Spells(codec: T.Codec) {
    forall e: Envelope :: e.Valid() ==> T.Utf8Length(codec.dumps(ToPayload(e))) >= Bytes(e.decisions)
  }

  /** Characters of three bytes or more. */
  predicate Wide(s: string) { forall i :: 0 <= i < |s| ==> s[i] >= '\U{800}' }

  lemma {:induction false} WideBytes(s: string)
    requires Wide(s)
    ensures T.Utf8Length(s) >= 3 * |s|
  {
    if s != "" { WideBytes(s[1..]); }
  }

  lemma {:induction false} BytesAtLeast(ds: seq<Decision>)
    requires forall i :: 0 <= i < |ds| ==> T.Utf8Length(ds[i].ask) + T.Utf8Length(ds[i].note) >= 2700
    ensures Bytes(ds) >= |ds| * 2700
  {
    if ds != [] { BytesAtLeast(ds[1..]); }
  }

  /** Sixteen asks of 400 such characters, each answered with a reason of 500: valid, and heard as prose. */
  lemma LongReasonsUnheard(codec: T.Codec, say: string, s: State, r: Envelope, me: string)
    requires codec.Lawful() && Spells(codec) && r.Valid() && |r.decisions| == 16
    requires forall i :: 0 <= i < 16 ==> Wide(r.decisions[i].ask) && Wide(r.decisions[i].note) &&
                                         |r.decisions[i].ask| >= 400 && |r.decisions[i].note| >= 500
    ensures !Readable(codec, r) && Ledger.Feed(s, Heard(codec, r, me, say)) == s
  {
    forall i | 0 <= i < 16
      ensures T.Utf8Length(r.decisions[i].ask) + T.Utf8Length(r.decisions[i].note) >= 2700
    {
      WideBytes(r.decisions[i].ask);
      WideBytes(r.decisions[i].note);
    }
    BytesAtLeast(r.decisions);
    T.TextRoundTrip(codec, r, say);
    ProseIsInert(s, me);
  }

  function Glyphs(n: nat): string { seq(n, i => '\U{4e00}') }

  /** A notice and a complete answer to it of that size. */
  lemma LongReasonsExist(env: Envelope, d: Decision, ask: string, reason: string)
    requires ask == Glyphs(400) && reason == Glyphs(500) && d == Decision(ask, Defer, "", reason, "", false)
    requires env == Envelope(Notice, "t", "a", "s", "b", [], seq(16, i => ask), [], [])
    ensures var r := ResponseTo(env, "b", "a", seq(16, i => d));
            && env.Valid() && CompleteAnswer(r, env, "b", "a")
            && forall i :: 0 <= i < 16 ==> Wide(r.decisions[i].ask) && Wide(r.decisions[i].note) &&
                                           |r.decisions[i].ask| >= 400 && |r.decisions[i].note| >= 500
  {
    var ds := seq(16, i => d);
    GlyphsClean(400);
    GlyphsClean(500);
    assert d.Valid();
    assert env.asks[0] == ask && ds[0] == d;
    assert forall a :: a in env.asks ==> a == ask;
    ResponseValid(env, "b", "a", ds);
    assert Names(ds, env.asks);
  }

  lemma GlyphsClean(n: nat)
    requires 0 < n <= MAX_LINE
    ensures RequiredLine(Glyphs(n), MAX_LINE) && Wide(Glyphs(n)) && |Glyphs(n)| == n
  {
    assert Glyphs(n)[0] == '\U{4e00}' && Glyphs(n)[n - 1] == '\U{4e00}';
  }
}
