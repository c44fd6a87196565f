/** A round of the group room: personas that select themselves reply until the room is quiet or the cap stops them. */
module GroupChat {
  import opened PyText

  /** A message; `mentions` are the handles its text @-addresses. */
  datatype Message = Message(text: string, author: string, isOwner: bool, mentions: set<string>)

  datatype Reply = Reply(handle: string, text: string)

  /** A reply together with the message that drew it, that message's place among all messages of the round, and the
      persona's place in the registry. */
  datatype Turn = Turn(reply: Reply, to: Message, at: nat, who: nat)

  /** The room's wiring. `responder` answers its n-th call, so it may keep any state of its own; `matches` is the
      "is this mine?" gate and `mentionsOf` the @-scan of a text. */
  datatype Room = Room(personas: seq<string>, cap: int, responder: (nat, string, Message) -> Option<string>,
                       matches: (string, string) -> bool, mentionsOf: string -> set<string>)

  /** `should_respond`. */
  predicate ShouldRespond(room: Room, m: Message, persona: string) {
    persona != m.author && (persona in m.mentions || (m.isOwner && room.matches(m.text, persona)))
  }

  function AsMessage(room: Room, r: Reply): Message { Message(r.text, r.handle, false, room.mentionsOf(r.text)) }

  /** The loop's state: the queue, the replies with what drew them, turns since the owner, responder calls and messages
      taken so far. */
  datatype State = State(queue: seq<Message>, turns: seq<Turn>, since: nat, calls: nat, taken: nat)

  /** The `p`-th persona's turn at message `m`, the last one taken. */
  function Offer(room: Room, s: State, m: Message, p: nat): State
    requires p < |room.personas|
  {
    var persona := room.personas[p];
    if !ShouldRespond(room, m, persona) || (s.since >= room.cap && !m.isOwner) then s
    else match room.responder(s.calls, persona, m)
      case None => s.(calls := s.calls + 1)
      case Some(text) =>
        var r := Reply(persona, text);
        s.(queue := s.queue + [AsMessage(room, r)], turns := s.turns + [Turn(r, m, Max(0, s.taken - 1), p)],
           since := s.since + 1, calls := s.calls + 1)
  }

  function OfferFirst(room: Room, s: State, m: Message, n: nat): State
    requires n <= |room.personas|
  {
    if n == 0 then s else Offer(room, OfferFirst(room, s, m, n - 1), m, n - 1)
  }

  /** Taking the head of the queue: an owner message resets the count. */
  function Take(s: State): State
    requires s.queue != []
  {
    s.(queue := s.queue[1..], since := if s.queue[0].isOwner then 0 else s.since, taken := s.taken + 1)
  }

  function HandleHead(room: Room, s: State): State
    requires s.queue != []
  {
    OfferFirst(room, Take(s), s.queue[0], |room.personas|)
  }

  function Owners(queue: seq<Message>): nat {
    if queue == [] then 0 else Owners(queue[..|queue| - 1]) + if queue[|queue| - 1].isOwner then 1 else 0
  }

  function Budget(room: Room, since: nat): nat { if since < room.cap then room.cap - since else 0 }

  // ----- what one message can add -----

  lemma {:induction false} OwnersSplit(a: seq<Message>, b: seq<Message>)
    ensures Owners(a + b) == Owners(a) + Owners(b)
  {
    if b == [] {
      assert a + b == a;
    } else {
      assert (a + b)[..|a + b| - 1] == a + b[..|b| - 1];
      OwnersSplit(a, b[..|b| - 1]);
    }
  }

  function AsMessages(room: Room, turns: seq<Turn>): (r: seq<Message>)
    ensures |r| == |turns| && Owners(r) == 0
  {
    if turns == [] then []
    else AsMessages(room, turns[..|turns| - 1]) + [AsMessage(room, turns[|turns| - 1].reply)]
  }

  /** A turn this message may draw. */
  predicate Drawn(room: Room, m: Message, t: Turn) {
    t.to == m && t.reply.handle in room.personas && ShouldRespond(room, m, t.reply.handle)
  }

  /** What taking turns added to a state, beyond the cap only for the owner. */
  predicate Adds(room: Room, s: State, s': State, m: Message, added: seq<Turn>) {
    match s' case State(queue, turns, since, _, _) =>
      && turns == s.turns + added && queue == s.queue + AsMessages(room, added) && since == s.since + |added|
      && (!m.isOwner ==> added == [] || since <= room.cap)
  }

  lemma OneMore(room: Room, s: State, s0: State, s1: State, m: Message, before: seq<Turn>, t: Turn)
    requires Adds(room, s, s0, m, before) && s1.turns == s0.turns + [t] && s1.since == s0.since + 1
    requires s1.queue == s0.queue + [AsMessage(room, t.reply)] && (!m.isOwner ==> s1.since <= room.cap)
    ensures Adds(room, s, s1, m, before + [t])
  {
    Snoc(before, t);
    Assoc(s.turns, before, [t]);
    Assoc(s.queue, AsMessages(room, before), [AsMessage(room, t.reply)]);
  }

  lemma AddsOne(room: Room, s: State, s0: State, m: Message, before: seq<Turn>, p: nat) returns (added: seq<Turn>)
    requires p < |room.personas| && Adds(room, s, s0, m, before)
    ensures Adds(room, s, Offer(room, s0, m, p), m, added)
    ensures added == before || (|added| == |before| + 1 && added[..|before|] == before &&
                                Drawn(room, m, added[|before|]))
  {
    var s1 := Offer(room, s0, m, p);
    added := before;
    if |s1.turns| != |s0.turns| {
      OneMore(room, s, s0, s1, m, before, s1.turns[|s0.turns|]);
      added := before + [s1.turns[|s0.turns|]];
    }
  }

  /** What offering `m` to the first `n` personas adds: entitled turns, one queue entry each, and beyond the cap
      only for the owner. */
  lemma {:induction false} OfferAdds(room: Room, s: State, m: Message, n: nat) returns (added: seq<Turn>)
    requires n <= |room.personas|
    ensures Adds(room, s, OfferFirst(room, s, m, n), m, added) && |added| <= n
    ensures forall i :: 0 <= i < |added| ==> Drawn(room, m, added[i])
  {
    if n == 0 {
      added := [];
      NoneConcat(s.turns);
      NoneConcat(s.queue);
    } else {
      var before := OfferAdds(room, s, m, n - 1);
      added := AddsOne(room, s, OfferFirst(room, s, m, n - 1), m, before, n - 1);
      assert forall i :: 0 <= i < |before| ==> added[i] == added[..|before|][i];
    }
  }

  lemma HeadAdds(room: Room, s: State) returns (added: seq<Turn>)
    requires s.queue != []
    ensures var m, s' := s.queue[0], HandleHead(room, s);
            && s'.turns == s.turns + added && s'.queue == s.queue[1..] + AsMessages(room, added)
            && |added| <= |room.personas| && Owners(s'.queue) == Owners(s.queue) - (if m.isOwner then 1 else 0)
            && s'.since == (if m.isOwner then 0 else s.since) + |added|
            && (!m.isOwner ==> added == [] || s'.since <= room.cap)
    ensures forall t :: t in added ==> Drawn(room, s.queue[0], t)
  {
    assert s.queue == [s.queue[0]] + s.queue[1..];
    OwnersSplit([s.queue[0]], s.queue[1..]);
    assert [s.queue[0]][..0] == [] && Owners([s.queue[0]]) == if s.queue[0].isOwner then 1 else 0;
    added := OfferAdds(room, Take(s), s.queue[0], |room.personas|);
    OwnersSplit(s.queue[1..], AsMessages(room, added));
  }

  /** The termination measure's three parts fall at every message taken. */
  lemma HeadShrinks(room: Room, s: State)
    requires s.queue != []
    ensures var s' := HandleHead(room, s);
            || Owners(s'.queue) < Owners(s.queue)
            || (Owners(s'.queue) == Owners(s.queue) &&
                (Budget(room, s'.since) < Budget(room, s.since) ||
                 (Budget(room, s'.since) == Budget(room, s.since) && |s'.queue| < |s.queue|)))
  {
    var added := HeadAdds(room, s);
  }

  /** The whole round. It ends for every responder: owner messages are never added, and between them the budget of
      replies runs down before the queue does. */
  function Round(room: Room, s: State): State
    decreases Owners(s.queue), Budget(room, s.since), |s.queue|
  {
    if s.queue == [] then s
    else
      HeadShrinks(room, s);
      Round(room, HandleHead(room, s))
  }

  // ----- the bound -----

  /** The most that may still be posted from state `s`. */
  function Allowance(room: Room, s: State): nat {
    Budget(room, s.since) + Owners(s.queue) * Share(room)
  }

  function Share(room: Room): nat { Max(|room.personas|, Max(0, room.cap)) }

  lemma OneLess(n: nat, share: nat)
    requires n > 0
    ensures n * share == (n - 1) * share + share
  {
  }

  lemma AllowanceFalls(room: Room, s: State)
    requires s.queue != []
    ensures var s' := HandleHead(room, s);
            |s'.turns| - |s.turns| + Allowance(room, s') <= Allowance(room, s)
  {
    var added := HeadAdds(room, s);
    if s.queue[0].isOwner { OneLess(Owners(s.queue), Share(room)); }
  }

  lemma {:induction false} RoundWithin(room: Room, s: State)
    ensures |Round(room, s).turns| <= |s.turns| + Allowance(room, s)
    decreases Owners(s.queue), Budget(room, s.since), |s.queue|
  {
    if s.queue != [] {
      AllowanceFalls(room, s);
      HeadShrinks(room, s);
      RoundWithin(room, HandleHead(room, s));
    }
  }

  /** A round posts at most cap + owners * max(personas, cap) replies. */
  lemma RoundBounded(room: Room, inbound: seq<Message>)
    ensures |Round(room, State(inbound, [], 0, 0, 0)).turns| <=
            Max(0, room.cap) + Owners(inbound) * Max(|room.personas|, Max(0, room.cap))
  {
    RoundWithin(room, State(inbound, [], 0, 0, 0));
  }

  // ----- who answers whom -----

  /** Every message of the round, in the order it is taken: the inbound ones, then the replies as posted. */
  function All(room: Room, inbound: seq<Message>, turns: seq<Turn>): seq<Message> { inbound + AsMessages(room, turns) }

  lemma {:induction false} AsMessagesAt(room: Room, turns: seq<Turn>, k: nat)
    requires k < |turns|
    ensures AsMessages(room, turns)[k] == AsMessage(room, turns[k].reply)
  {
    if k < |turns| - 1 { AsMessagesAt(room, turns[..|turns| - 1], k); }
  }

  /** The messages of the round, spelled out. */
  lemma AllAre(room: Room, inbound: seq<Message>, turns: seq<Turn>, q: nat)
    requires q < |inbound| + |turns|
    ensures var ms := All(room, inbound, turns);
            && |ms| == |inbound| + |turns|
            && ms[q] == if q < |inbound| then inbound[q]
                        else var r := turns[q - |inbound|].reply;
                          Message(r.text, r.handle, false, room.mentionsOf(r.text))
  {
    if q >= |inbound| { AsMessagesAt(room, turns, q - |inbound|); }
  }

  /** Whom a message is for: a persona it mentions, or one whose matter an owner's message is, other than its author. */
  predicate For(room: Room, m: Message, persona: string) {
    && persona != m.author
    && (persona in m.mentions || (m.isOwner && room.matches(m.text, persona)))
  }

  /** The place of the last owner message up to `q`, or the beginning. */
  function LastOwner(ms: seq<Message>, q: nat): (l: nat)
    requires q < |ms|
    ensures l <= q && (l > 0 ==> ms[l].isOwner) && forall k :: l < k <= q ==> !ms[k].isOwner
  {
    if ms[q].isOwner || q == 0 then q else LastOwner(ms, q - 1)
  }

  predicate Earlier(t: Turn, q: nat, p: nat) { t.at < q || (t.at == q && t.who < p) }

  /** How many turns before persona `p`'s at message `q` answer the messages from `lo` on. */
  function Since(turns: seq<Turn>, lo: nat, q: nat, p: nat): nat {
    if turns == [] then 0
    else
      var last := turns[|turns| - 1];
      Since(turns[..|turns| - 1], lo, q, p) + if lo <= last.at && Earlier(last, q, p) then 1 else 0
  }

  predicate AnsweredAt(turns: seq<Turn>, q: nat, p: nat) {
    exists i :: 0 <= i < |turns| && turns[i].at == q && turns[i].who == p
  }

  /** The persona may answer: the message is for it, and is the owner's or finds the cap not reached since the owner. */
  predicate Free(room: Room, ms: seq<Message>, turns: seq<Turn>, q: nat, p: nat)
    requires q < |ms| && p < |room.personas|
  {
    For(room, ms[q], room.personas[p]) && (ms[q].isOwner || Since(turns, LastOwner(ms, q), q, p) < room.cap)
  }

  ghost predicate AlwaysAnswers(room: Room, m: Message, persona: string) {
    forall calls: nat :: room.responder(calls, persona, m).Some?
  }

  /** Persona `p`'s answer to message `q` is posted only if it is free to answer, and is if the responder has one. */
  ghost predicate Exact(room: Room, ms: seq<Message>, turns: seq<Turn>, q: nat, p: nat)
    requires q < |ms| && p < |room.personas|
  {
    && (AnsweredAt(turns, q, p) ==> Free(room, ms, turns, q, p))
    && (Free(room, ms, turns, q, p) && AlwaysAnswers(room, ms[q], room.personas[p]) ==> AnsweredAt(turns, q, p))
  }

  /** A turn is what the responder answered the message at its place with. */
  ghost predicate Genuine(room: Room, ms: seq<Message>, t: Turn) {
    && t.at < |ms| && t.to == ms[t.at] && t.who < |room.personas| && t.reply.handle == room.personas[t.who]
    && exists calls: nat :: room.responder(calls, t.reply.handle, t.to) == Some(t.reply.text)
  }

  ghost predicate AllGenuine(room: Room, ms: seq<Message>, turns: seq<Turn>) {
    forall i :: 0 <= i < |turns| ==> Genuine(room, ms, turns[i])
  }

  /** Turns come message by message, at each in the order of the registry, and answer what was posted before them. */
  predicate InOrder(inbound: seq<Message>, turns: seq<Turn>) {
    && (forall i, j :: 0 <= i < j < |turns| ==> Earlier(turns[i], turns[j].at, turns[j].who))
    && forall i :: 0 <= i < |turns| ==> turns[i].at < |inbound| + i
  }

  predicate AllEarlier(turns: seq<Turn>, q: nat, p: nat) { forall i :: 0 <= i < |turns| ==> Earlier(turns[i], q, p) }

  ghost predicate AllExact(room: Room, ms: seq<Message>, turns: seq<Turn>, q: nat, n: nat)
    requires q <= |ms|
  {
    forall k: nat, p: nat | k < |ms| && p < |room.personas| && (k < q || (k == q && p < n)) ::
      Exact(room, ms, turns, k, p)
  }

  /** Where the loop stands: all messages before `q` handled, and `q` offered to the first `n` personas. */
  ghost predicate Standing(room: Room, inbound: seq<Message>, s: State, q: nat, n: nat) {
    match s case State(queue, turns, since, _, taken) =>
      var ms := All(room, inbound, turns);
      && q < |ms| && taken == q + 1 && queue == ms[q + 1..] && since == Since(turns, LastOwner(ms, q), q, n)
      && AllGenuine(room, ms, turns) && InOrder(inbound, turns) && AllEarlier(turns, q, n) &&
         AllExact(room, ms, turns, q, n)
  }

  // ----- one more turn changes nothing earlier -----

  lemma LastOwnerSame(ms: seq<Message>, more: seq<Message>, q: nat)
    requires q < |ms|
    ensures LastOwner(ms + more, q) == LastOwner(ms, q)
    decreases q
  {
    if !ms[q].isOwner && q > 0 { LastOwnerSame(ms, more, q - 1); }
  }

  lemma SinceSnoc(turns: seq<Turn>, t: Turn, lo: nat, q: nat, p: nat)
    ensures Since(turns + [t], lo, q, p) == Since(turns, lo, q, p) + if lo <= t.at && Earlier(t, q, p) then 1 else 0
  {
    Snoc(turns, t);
  }

  lemma AnsweredSnoc(turns: seq<Turn>, t: Turn, q: nat, p: nat)
    ensures AnsweredAt(turns + [t], q, p) <==> AnsweredAt(turns, q, p) || (t.at == q && t.who == p)
  {
    if AnsweredAt(turns, q, p) {
      var i :| 0 <= i < |turns| && turns[i].at == q && turns[i].who == p;
      assert (turns + [t])[i] == turns[i];
    }
    if t.at == q && t.who == p { assert (turns + [t])[|turns|] == t; }
  }

  lemma AllSnoc(room: Room, inbound: seq<Message>, turns: seq<Turn>, t: Turn)
    ensures All(room, inbound, turns + [t]) == All(room, inbound, turns) + [AsMessage(room, t.reply)]
  {
    Snoc(turns, t);
    Assoc(inbound, AsMessages(room, turns), [AsMessage(room, t.reply)]);
  }

  /** A position before a new turn stays as it was. */
  lemma ExactStays(room: Room, ms: seq<Message>, more: seq<Message>, turns: seq<Turn>, t: Turn, q: nat, p: nat)
    requires q < |ms| && p < |room.personas| && !Earlier(t, q, p) && !(t.at == q && t.who == p)
    requires Exact(room, ms, turns, q, p)
    ensures Exact(room, ms + more, turns + [t], q, p)
  {
    LastOwnerSame(ms, more, q);
    SinceSnoc(turns, t, LastOwner(ms, q), q, p);
    AnsweredSnoc(turns, t, q, p);
  }

  lemma GenuineStays(room: Room, ms: seq<Message>, more: seq<Message>, turns: seq<Turn>, t: Turn)
    requires AllGenuine(room, ms, turns) && Genuine(room, ms, t)
    ensures AllGenuine(room, ms + more, turns + [t])
  {
    forall i | 0 <= i < |turns + [t]|
      ensures Genuine(room, ms + more, (turns + [t])[i])
    {
      if i < |turns| { assert Genuine(room, ms, turns[i]); }
    }
  }

  /** Every turn so far being earlier, the later bounds of a count do not matter. */
  lemma {:induction false} SinceLater(turns: seq<Turn>, lo: nat, q: nat, p: nat, k: nat, n: nat)
    requires AllEarlier(turns, q, p) && AllEarlier(turns, k, n)
    ensures Since(turns, lo, q, p) == Since(turns, lo, k, n)
  {
    if turns != [] {
      assert forall i :: 0 <= i < |turns| - 1 ==> turns[..|turns| - 1][i] == turns[i];
      SinceLater(turns[..|turns| - 1], lo, q, p, k, n);
    }
  }

  lemma {:induction false} SinceNone(turns: seq<Turn>, lo: nat, q: nat, p: nat)
    requires AllEarlier(turns, lo, 0)
    ensures Since(turns, lo, q, p) == 0
  {
    if turns != [] {
      assert forall i :: 0 <= i < |turns| - 1 ==> turns[..|turns| - 1][i] == turns[i];
      SinceNone(turns[..|turns| - 1], lo, q, p);
    }
  }

  /** A persona that does not answer leaves every count as it is. */
  lemma PassedOver(room: Room, inbound: seq<Message>, s: State, q: nat, n: nat)
    requires n < |room.personas| && Standing(room, inbound, s, q, n)
    requires var ms := All(room, inbound, s.turns);
             !Free(room, ms, s.turns, q, n) || !AlwaysAnswers(room, ms[q], room.personas[n])
    ensures Standing(room, inbound, s, q, n + 1)
  {
    var ms := All(room, inbound, s.turns);
    assert AllEarlier(s.turns, q, n + 1);
    SinceLater(s.turns, LastOwner(ms, q), q, n, q, n + 1);
    forall k: nat, p: nat | k < |ms| && p < |room.personas| && (k < q || (k == q && p < n + 1))
      ensures Exact(room, ms, s.turns, k, p)
    {
      if k == q && p == n { assert !AnsweredAt(s.turns, q, n); }
    }
  }

  lemma PostedExact(room: Room, ms: seq<Message>, more: seq<Message>, turns: seq<Turn>, t: Turn)
    requires t.at < |ms| && t.who < |room.personas| && AllExact(room, ms, turns, t.at, t.who)
    requires AllEarlier(turns, t.at, t.who) && Free(room, ms, turns, t.at, t.who)
    ensures AllExact(room, ms + more, turns + [t], t.at, t.who + 1)
  {
    var q, n := t.at, t.who;
    forall k: nat, p: nat | k < |ms + more| && p < |room.personas| && (k < q || (k == q && p < n + 1))
      ensures Exact(room, ms + more, turns + [t], k, p)
    {
      if k == q && p == n {
        LastOwnerSame(ms, more, q);
        SinceSnoc(turns, t, LastOwner(ms, q), q, n);
        AnsweredSnoc(turns, t, q, n);
      } else {
        assert Exact(room, ms, turns, k, p);
        ExactStays(room, ms, more, turns, t, k, p);
      }
    }
  }

  lemma PostedSince(ms: seq<Message>, more: seq<Message>, turns: seq<Turn>, t: Turn)
    requires t.at < |ms| && AllEarlier(turns, t.at, t.who)
    ensures Since(turns + [t], LastOwner(ms + more, t.at), t.at, t.who + 1) ==
            Since(turns, LastOwner(ms, t.at), t.at, t.who) + 1
  {
    var lo := LastOwner(ms, t.at);
    LastOwnerSame(ms, more, t.at);
    assert AllEarlier(turns, t.at, t.who + 1);
    SinceLater(turns, lo, t.at, t.who, t.at, t.who + 1);
    SinceSnoc(turns, t, lo, t.at, t.who + 1);
  }

  lemma PostedInOrder(inbound: seq<Message>, turns: seq<Turn>, t: Turn)
    requires InOrder(inbound, turns) && AllEarlier(turns, t.at, t.who) && t.at < |inbound| + |turns|
    ensures InOrder(inbound, turns + [t]) && AllEarlier(turns + [t], t.at, t.who + 1)
  {
  }

  function With(room: Room, s: State, t: Turn): State {
    s.(queue := s.queue + [AsMessage(room, t.reply)], turns := s.turns + [t], since := s.since + 1)
  }

  lemma PostedStands(room: Room, inbound: seq<Message>, s: State, t: Turn, ms: seq<Message>, more: seq<Message>,
                     after: State)
    requires t.who < |room.personas| && Standing(room, inbound, s, t.at, t.who) && ms == All(room, inbound, s.turns)
    requires Free(room, ms, s.turns, t.at, t.who) && Genuine(room, ms, t)
    requires after == State(s.queue + more, s.turns + [t], s.since + 1, s.calls, s.taken)
    requires All(room, inbound, after.turns) == ms + more
    ensures Standing(room, inbound, after, t.at, t.who + 1)
  {
    PostedSince(ms, more, s.turns, t);
    PostedInOrder(inbound, s.turns, t);
    GenuineStays(room, ms, more, s.turns, t);
    PostedExact(room, ms, more, s.turns, t);
    DropConcat(ms, more, t.at + 1);
  }

  /** The persona's answer is posted. */
  lemma Posted(room: Room, inbound: seq<Message>, s: State, t: Turn)
    requires t.who < |room.personas| && Standing(room, inbound, s, t.at, t.who)
    requires var ms := All(room, inbound, s.turns); Free(room, ms, s.turns, t.at, t.who) && Genuine(room, ms, t)
    ensures Standing(room, inbound, With(room, s, t), t.at, t.who + 1)
  {
    var ms, more := All(room, inbound, s.turns), [AsMessage(room, t.reply)];
    AllSnoc(room, inbound, s.turns, t);
    PostedStands(room, inbound, s, t, ms, more, With(room, s, t));
  }

  lemma PostedSame(room: Room, inbound: seq<Message>, turns: seq<Turn>, t: Turn, q: nat)
    requires q < |All(room, inbound, turns)|
    ensures q < |All(room, inbound, turns + [t])| &&
            All(room, inbound, turns + [t])[q] == All(room, inbound, turns)[q]
  {
    AllSnoc(room, inbound, turns, t);
  }

  lemma DropConcat<T>(a: seq<T>, b: seq<T>, n: nat)
    requires n <= |a|
    ensures (a + b)[n..] == a[n..] + b
  {
  }

  /** What a turn comes to: nothing, a call without an answer, or an answer posted. */
  lemma OfferIs(room: Room, s: State, m: Message, n: nat)
    requires n < |room.personas| && s.taken > 0
    ensures var r, persona := Offer(room, s, m, n), room.personas[n];
            if ShouldRespond(room, m, persona) && (s.since < room.cap || m.isOwner) &&
               room.responder(s.calls, persona, m).Some?
            then r == With(room, s.(calls := s.calls + 1),
                           Turn(Reply(persona, room.responder(s.calls, persona, m).value),
                                                               m, s.taken - 1, n))
            else r == s.(calls := r.calls)
  {
  }

  lemma CallsAside(room: Room, inbound: seq<Message>, s: State, calls: nat, q: nat, n: nat)
    requires Standing(room, inbound, s, q, n)
    ensures Standing(room, inbound, s.(calls := calls), q, n)
  {
  }

  /** The answer of a persona free to give it. */
  lemma OwedAnswer(room: Room, ms: seq<Message>, turns: seq<Turn>, since: nat, calls: nat, t: Turn)
    requires t.at < |ms| && t.who < |room.personas| && t.to == ms[t.at]
    requires since == Since(turns, LastOwner(ms, t.at), t.at, t.who) && (since < room.cap || t.to.isOwner)
    requires ShouldRespond(room, t.to, room.personas[t.who])
    requires room.responder(calls, room.personas[t.who], t.to) == Some(t.reply.text)
    requires t.reply.handle == room.personas[t.who]
    ensures Free(room, ms, turns, t.at, t.who) && Genuine(room, ms, t)
  {
  }

  lemma OfferPosts(room: Room, inbound: seq<Message>, before: State, called: State, t: Turn)
    requires t.who < |room.personas| && Standing(room, inbound, before, t.at, t.who)
    requires t.to == All(room, inbound, before.turns)[t.at] && called == before.(calls := before.calls + 1)
    requires before.since < room.cap || t.to.isOwner
    requires ShouldRespond(room, t.to, room.personas[t.who])
    requires room.responder(before.calls, room.personas[t.who], t.to) == Some(t.reply.text)
    requires t.reply.handle == room.personas[t.who]
    ensures Standing(room, inbound, With(room, called, t), t.at, t.who + 1)
  {
    CallsAside(room, inbound, before, called.calls, t.at, t.who);
    OwedAnswer(room, All(room, inbound, before.turns), before.turns, before.since, before.calls, t);
    Posted(room, inbound, called, t);
  }

  lemma OfferPasses(room: Room, inbound: seq<Message>, before: State, m: Message, calls: nat, q: nat, n: nat)
    requires n < |room.personas| && Standing(room, inbound, before, q, n) && m == All(room, inbound, before.turns)[q]
    requires !ShouldRespond(room, m, room.personas[n]) || !(before.since < room.cap || m.isOwner) ||
             room.responder(before.calls, room.personas[n], m).None?
    ensures Standing(room, inbound, before.(calls := calls), q, n + 1)
  {
    PassedOver(room, inbound, before, q, n);
    CallsAside(room, inbound, before, calls, q, n + 1);
  }

  lemma OfferStep(room: Room, inbound: seq<Message>, before: State, after: State, m: Message, q: nat, n: nat)
    requires n < |room.personas| && Standing(room, inbound, before, q, n) && m == All(room, inbound, before.turns)[q]
    requires after == Offer(room, before, m, n)
    ensures Standing(room, inbound, after, q, n + 1) && All(room, inbound, after.turns)[q] == m
  {
    var persona := room.personas[n];
    OfferIs(room, before, m, n);
    if ShouldRespond(room, m, persona) && (before.since < room.cap || m.isOwner) &&
       room.responder(before.calls, persona, m).Some? {
      var reply := Reply(persona, room.responder(before.calls, persona, m).value);
      OfferPosts(room, inbound, before, before.(calls := before.calls + 1), Turn(reply, m, q, n));
      PostedSame(room, inbound, before.turns, Turn(reply, m, q, n), q);
    } else {
      OfferPasses(room, inbound, before, m, after.calls, q, n);
    }
  }

  lemma {:induction false} OffersStand(room: Room, inbound: seq<Message>, s: State, m: Message, q: nat, n: nat)
    returns (r: State)
    requires n <= |room.personas| && Standing(room, inbound, s, q, 0) && m == All(room, inbound, s.turns)[q]
    ensures r == OfferFirst(room, s, m, n) && Standing(room, inbound, r, q, n) && All(room, inbound, r.turns)[q] == m
  {
    if n == 0 {
      r := s;
    } else {
      var before := OffersStand(room, inbound, s, m, q, n - 1);
      r := Offer(room, before, m, n - 1);
      OfferStep(room, inbound, before, r, m, q, n - 1);
    }
  }

  /** Between two messages. */
  ghost predicate Between(room: Room, inbound: seq<Message>, s: State) {
    match s case State(queue, turns, since, _, taken) =>
      var ms := All(room, inbound, turns);
      && taken <= |ms| && queue == ms[taken..]
      && since == (if taken == 0 then 0 else Since(turns, LastOwner(ms, taken - 1), taken, 0))
      && AllGenuine(room, ms, turns) && InOrder(inbound, turns) && AllEarlier(turns, taken, 0)
      && AllExact(room, ms, turns, taken, 0)
  }

  lemma TakeStands(room: Room, inbound: seq<Message>, s: State)
    requires Between(room, inbound, s) && s.queue != []
    ensures Standing(room, inbound, Take(s), s.taken, 0) && s.queue[0] == All(room, inbound, s.turns)[s.taken]
  {
    var ms := All(room, inbound, s.turns);
    if ms[s.taken].isOwner || s.taken == 0 { SinceNone(s.turns, LastOwner(ms, s.taken), s.taken, 0); }
  }

  lemma HandledStands(room: Room, inbound: seq<Message>, s: State, q: nat)
    requires Standing(room, inbound, s, q, |room.personas|)
    ensures Between(room, inbound, s)
  {
    var ms := All(room, inbound, s.turns);
    assert AllEarlier(s.turns, q + 1, 0);
    SinceLater(s.turns, LastOwner(ms, q), q, |room.personas|, q + 1, 0);
  }

  lemma HeadBetween(room: Room, inbound: seq<Message>, s: State)
    requires Between(room, inbound, s) && s.queue != []
    ensures Between(room, inbound, HandleHead(room, s))
  {
    TakeStands(room, inbound, s);
    var r := OffersStand(room, inbound, Take(s), s.queue[0], s.taken, |room.personas|);
    HandledStands(room, inbound, r, s.taken);
  }

  lemma {:induction false} RoundBetween(room: Room, inbound: seq<Message>, s: State)
    requires Between(room, inbound, s)
    ensures Between(room, inbound, Round(room, s)) && Round(room, s).queue == []
    decreases Owners(s.queue), Budget(room, s.since), |s.queue|
  {
    if s.queue != [] {
      HeadBetween(room, inbound, s);
      HeadShrinks(room, s);
      RoundBetween(room, inbound, HandleHead(room, s));
    }
  }

  /** What a round's turns are: genuine answers, in order, each posted exactly where its persona was free to answer. */
  ghost predicate Answered(room: Room, inbound: seq<Message>, turns: seq<Turn>) {
    var ms := All(room, inbound, turns);
    AllGenuine(room, ms, turns) && InOrder(inbound, turns) && AllExact(room, ms, turns, |ms|, 0)
  }

  /** Of every message of the round, inbound or posted in it, and every persona of the room: its answer is posted only
      if the message mentions it, or is the owner's and its matter, and is not its own; and, short of the owner's
      messages, only while fewer than `cap` replies were posted since the last of those. Then it is posted, if it has
      one. */
  lemma RoundAnswered(room: Room, inbound: seq<Message>)
    ensures Answered(room, inbound, Round(room, State(inbound, [], 0, 0, 0)).turns)
  {
    NoneConcat(inbound);
    RoundBetween(room, inbound, State(inbound, [], 0, 0, 0));
  }

  /** The cap was reached before persona `p`'s turn at message `q`. */
  predicate CapReached(room: Room, inbound: seq<Message>, turns: seq<Turn>, q: nat, p: nat)
    requires q < |All(room, inbound, turns)|
  {
    Since(turns, LastOwner(All(room, inbound, turns), q), q, p) >= room.cap
  }

  /** Below the cap personas are heard: a persona that a message mentions and did not write, and that has an answer to
      it, is answered for, or `cap` replies were posted since the last owner message. */
  lemma PersonaHeard(room: Room, inbound: seq<Message>, turns: seq<Turn>, q: nat, p: nat)
    requires Answered(room, inbound, turns) && q < |All(room, inbound, turns)| && p < |room.personas|
    requires var m, persona := All(room, inbound, turns)[q], room.personas[p];
             persona in m.mentions && persona != m.author && AlwaysAnswers(room, m, persona)
    ensures AnsweredAt(turns, q, p) || CapReached(room, inbound, turns, q, p)
  {
    assert Exact(room, All(room, inbound, turns), turns, q, p);
  }

  /** So are those a reply of the round mentions. */
  lemma ReplyHeard(room: Room, inbound: seq<Message>, turns: seq<Turn>, j: nat, p: nat)
    requires Answered(room, inbound, turns) && j < |turns| && p < |room.personas|
    requires room.personas[p] in room.mentionsOf(turns[j].reply.text) && room.personas[p] != turns[j].reply.handle
    requires forall m :: AlwaysAnswers(room, m, room.personas[p])
    ensures |inbound| + j < |All(room, inbound, turns)|
    ensures AnsweredAt(turns, |inbound| + j, p) || CapReached(room, inbound, turns, |inbound| + j, p)
  {
    AllAre(room, inbound, turns, |inbound| + j);
    PersonaHeard(room, inbound, turns, |inbound| + j, p);
  }

  /** The cap never silences an answer to the owner: whatever the round's other messages, a persona that an owner
      message mentions, or whose matter it is, and that has an answer to it, is answered for. */
  lemma OwnerHeard(room: Room, inbound: seq<Message>, turns: seq<Turn>, q: nat, p: nat)
    requires Answered(room, inbound, turns) && q < |inbound| && p < |room.personas|
    requires inbound[q].isOwner && room.personas[p] != inbound[q].author
    requires room.personas[p] in inbound[q].mentions || room.matches(inbound[q].text, room.personas[p])
    requires AlwaysAnswers(room, inbound[q], room.personas[p])
    ensures AnsweredAt(turns, q, p)
  {
    AllAre(room, inbound, turns, q);
    assert Exact(room, All(room, inbound, turns), turns, q, p);
  }

  /** No persona answers its own message; a reply to anyone but the owner is by a persona that message mentions; and
      every reply answers an inbound message or an earlier reply. */
  lemma RepliesEntitled(room: Room, inbound: seq<Message>, turns: seq<Turn>, i: nat)
    requires Answered(room, inbound, turns) && i < |turns|
    ensures var t := turns[i];
            && t.reply.handle in room.personas && t.reply.handle != t.to.author
            && (!t.to.isOwner ==> t.reply.handle in t.to.mentions)
            && (t.to in inbound || exists j :: 0 <= j < i && t.to == AsMessage(room, turns[j].reply))
  {
    var ms, t := All(room, inbound, turns), turns[i];
    assert Genuine(room, ms, t) && Exact(room, ms, turns, t.at, t.who);
    assert AnsweredAt(turns, t.at, t.who);
    if t.at < |inbound| {
      assert inbound[t.at] == t.to;
    } else {
      AsMessagesAt(room, turns, t.at - |inbound|);
      assert t.to == AsMessage(room, turns[t.at - |inbound|].reply);
    }
  }

  // ----- the loop itself -----

  /** `run_round`. `turns` pairs each reply posted with the message that drew it and its place. */
  method RunRound(room: Room, inbound: seq<Message>) returns (posted: seq<Reply>, turns: seq<Turn>)
    ensures turns == Round(room, State(inbound, [], 0, 0, 0)).turns
    ensures |posted| == |turns| && forall i :: 0 <= i < |posted| ==> posted[i] == turns[i].reply
    ensures |posted| <= Max(0, room.cap) + Owners(inbound) * Max(|room.personas|, Max(0, room.cap))
    ensures Answered(room, inbound, turns)
  {
    var queue, since, calls, taken := inbound, 0, 0, 0;
    posted, turns := [], [];
    while queue != []
      invariant |posted| == |turns| && forall i :: 0 <= i < |posted| ==> posted[i] == turns[i].reply
      invariant Round(room, State(inbound, [], 0, 0, 0)) == Round(room, State(queue, turns, since, calls, taken))
      decreases Owners(queue), Budget(room, since), |queue|
    {
      ghost var s := State(queue, turns, since, calls, taken);
      var m := queue[0];
      queue, taken := queue[1..], taken + 1;
      if m.isOwner { since := 0; }
      for n := 0 to |room.personas|
        invariant State(queue, turns, since, calls, taken) == OfferFirst(room, Take(s), m, n)
        invariant |posted| == |turns| && forall i :: 0 <= i < |posted| ==> posted[i] == turns[i].reply
        invariant taken > 0
      {
        var persona := room.personas[n];
        if !ShouldRespond(room, m, persona) { continue; }
        if since >= room.cap && !m.isOwner { continue; }
        var reply := room.responder(calls, persona, m);
        calls := calls + 1;
        if reply.None? { continue; }
        posted := posted + [Reply(persona, reply.value)];
        turns := turns + [Turn(Reply(persona, reply.value), m, taken - 1, n)];
        since := since + 1;
        queue := queue + [AsMessage(room, Reply(persona, reply.value))];
      }
      HeadShrinks(room, s);
    }
    RoundBounded(room, inbound);
    RoundAnswered(room, inbound);
  }
}
