/** How a worker answers a frame: reflexes first, the model's reconciled decisions for the rest, one composed reply. */
module Responder {
  import opened PyText
  import opened Handoff
  import opened Ledger
  import opened Reflex
  import opened ReflexSafety
  import opened Reconcile

  /** The model's decision list, a gateway failure, or any other exception on the way to a decision: recalling notes and
      turns, or the completer's own. */
  datatype Model = Answer(items: seq<Item>) | GatewayDown | Broken

  /** Whether writing the task note or the transcript turns raises. */
  datatype Records = Records(noteFails: bool, turnFails: bool)

  /** `Inner` passes the message to the wrapped responder; the last five are the exceptions that escape: from a reflex's
      mark, the gateway, anything else about the decision, composing the response, and the records of it. */
  datatype Reply =
    | Inner | Silent | Say(response: Envelope)
    | MarkRaised | GatewayRaised | DecisionRaised | HandoffRaised | RecordRaised

  // ----- which asks are answered how -----

  function FiringDecision(f: Firing): Decision {
    Decision(f.ask, Reflexed, "", SingleLine(NoteText(f.note), MAX_LINE), f.key, f.applied)
  }

  predicate CleanKey(f: Firing) { RequiredLine(f.key, MAX_SUMMARY) }

  predicate AllClean(fs: seq<Firing>) { forall i :: 0 <= i < |fs| ==> CleanKey(fs[i]) }

  function FiringDecisions(fs: seq<Firing>): seq<Decision> {
    seq(|fs|, i requires 0 <= i < |fs| => FiringDecision(fs[i]))
  }

  function FiredAsks(fs: seq<Firing>): set<string> { set i | 0 <= i < |fs| :: fs[i].ask }

  function Remaining(asks: seq<string>, fired: set<string>): seq<string> {
    if asks == [] then []
    else
      var front, last := Remaining(asks[..|asks| - 1], fired), asks[|asks| - 1];
      if last in fired then front else front + [last]
  }

  lemma {:induction false} RemainingMembers(asks: seq<string>, fired: set<string>)
    ensures forall a :: a in Remaining(asks, fired) <==> a in asks && a !in fired
  {
    if asks != [] { RemainingMembers(asks[..|asks| - 1], fired); }
  }

  lemma {:induction false} RemainingSame(asks: seq<string>, fired: set<string>, fired': set<string>)
    requires forall a :: a in asks ==> (a in fired <==> a in fired')
    ensures Remaining(asks, fired) == Remaining(asks, fired')
  {
    if asks != [] { RemainingSame(asks[..|asks| - 1], fired, fired'); }
  }

  lemma RemainingNone(asks: seq<string>)
    ensures Remaining(asks, {}) == [] ==> asks == []
  {
  }

  /** A fired ask frees at least its own place. */
  lemma {:induction false} RemainingFits(asks: seq<string>, fired: set<string>)
    requires forall a :: a in fired ==> a in asks
    ensures |fired| + |Remaining(asks, fired)| <= |asks|
  {
    if asks != [] {
      var front, last := asks[..|asks| - 1], asks[|asks| - 1];
      if last in fired && last !in front {
        RemainingSame(front, fired, fired - {last});
        RemainingFits(front, fired - {last});
      } else {
        RemainingFits(front, fired);
      }
    }
  }

  lemma {:induction false} FiredCount(fs: seq<Firing>)
    requires forall i, j :: 0 <= i < j < |fs| ==> fs[i].ask != fs[j].ask
    ensures |FiredAsks(fs)| == |fs|
  {
    if fs != [] {
      var front := fs[..|fs| - 1];
      FiredCount(front);
      assert FiredAsks(fs) == FiredAsks(front) + {fs[|fs| - 1].ask};
    }
  }

  // ----- composing -----

  /** The decisions name exactly these asks. */
  ghost predicate Names(decisions: seq<Decision>, asks: seq<string>) {
    && (forall d :: d in decisions ==> d.ask in asks)
    && (forall a :: a in asks ==> exists i :: 0 <= i < |decisions| && decisions[i].ask == a)
  }

  /** A complete answer to `env` from `me`: valid, authentic once posted, naming exactly its asks. */
  ghost predicate CompleteAnswer(r: Envelope, env: Envelope, me: string, replyTo: string) {
    && r.Valid() && r.kind == Response && r.taskId == env.taskId && r.origin == me && r.recipient == replyTo
    && r.summary == SingleLine("re: " + env.summary, MAX_SUMMARY)
    && |r.decisions| <= |env.asks| && Names(r.decisions, env.asks)
  }

  function Deferred(asks: seq<string>): seq<Decision> {
    seq(|asks|, i requires 0 <= i < |asks| => Decision(asks[i], Defer, "", "model unavailable", "", false))
  }

  function ResponseTo(env: Envelope, me: string, replyTo: string, decisions: seq<Decision>): Envelope {
    Envelope(Response, env.taskId, me, SingleLine("re: " + env.summary, MAX_SUMMARY), replyTo, [], [], decisions, [])
  }

  lemma UnavailableClean()
    ensures CleanLine("model unavailable", MAX_LINE)
  {
    var s := "model unavailable";
    assert s[0] == 'm' && s[16] == 'e';
    assert forall i :: 0 <= i < |s| ==> s[i] != '\n' && s[i] != '\r';
  }

  lemma DeferredValid(asks: seq<string>)
    requires forall a :: a in asks ==> RequiredLine(a, MAX_LINE)
    ensures forall i :: 0 <= i < |asks| ==> Deferred(asks)[i].Valid()
  {
    UnavailableClean();
    forall i | 0 <= i < |asks| ensures Deferred(asks)[i].Valid() { assert asks[i] in asks; }
  }

  lemma SummaryClean(summary: string)
    ensures RequiredLine(SingleLine("re: " + summary, MAX_SUMMARY), MAX_SUMMARY)
  {
    var s := "re: " + summary;
    SingleLineClean(s, MAX_SUMMARY);
    assert s[0] == 'r' && !IsSpace('r') && s[1] == 'e';
    assert StripLeft(s) == s;
    var squeezed := Squeeze(s, false);
    assert squeezed[0] == 'r';
    var clipped := Clip(squeezed, MAX_SUMMARY);
    assert clipped != "" && clipped[0] == 'r';
    StripKeepsHead(clipped);
  }

  lemma FiringValid(f: Firing)
    requires RequiredLine(f.ask, MAX_LINE) && CleanKey(f)
    ensures FiringDecision(f).Valid()
  {
    SingleLineClean(NoteText(f.note), MAX_LINE);
  }

  lemma ResponseValid(env: Envelope, me: string, replyTo: string, ds: seq<Decision>)
    requires env.Valid() && SafeSlug(me) && SafeSlug(replyTo) && ds != [] && |ds| <= |env.asks|
    requires forall i :: 0 <= i < |ds| ==> ds[i].Valid()
    ensures ResponseTo(env, me, replyTo, ds).Valid()
  {
    SummaryClean(env.summary);
  }

  lemma DecisionsValid(asks: seq<string>, fs: seq<Firing>, rest: seq<Decision>)
    requires forall a :: a in asks ==> RequiredLine(a, MAX_LINE)
    requires (forall i :: 0 <= i < |fs| ==> fs[i].ask in asks) && AllClean(fs)
    requires forall i :: 0 <= i < |rest| ==> rest[i].Valid()
    ensures var ds := FiringDecisions(fs) + rest; forall i :: 0 <= i < |ds| ==> ds[i].Valid()
  {
    var ds := FiringDecisions(fs) + rest;
    forall i | 0 <= i < |ds| ensures ds[i].Valid() {
      if i < |fs| {
        assert fs[i].ask in asks;
        FiringValid(fs[i]);
        assert ds[i] == FiringDecision(fs[i]);
      } else {
        assert ds[i] == rest[i - |fs|];
      }
    }
  }

  /** Firings and decisions together make a complete answer. */
  lemma ComposedComplete(env: Envelope, me: string, replyTo: string, fs: seq<Firing>, rest: seq<Decision>)
    requires env.Valid() && env.asks != [] && SafeSlug(me) && SafeSlug(replyTo) && Distinctly(fs, env) && AllClean(fs)
    requires |rest| == |Remaining(env.asks, FiredAsks(fs))|
    requires forall i :: 0 <= i < |rest| ==> rest[i].Valid() && rest[i].ask == Remaining(env.asks, FiredAsks(fs))[i]
    ensures CompleteAnswer(ResponseTo(env, me, replyTo, FiringDecisions(fs) + rest), env, me, replyTo)
  {
    var ds := FiringDecisions(fs) + rest;
    FiredCount(fs);
    RemainingFits(env.asks, FiredAsks(fs));
    NamesAll(env.asks, fs, rest);
    DecisionsValid(env.asks, fs, rest);
    assert exists i :: 0 <= i < |ds| && ds[i].ask == env.asks[0] by { assert env.asks[0] in env.asks; }
    ResponseValid(env, me, replyTo, ds);
  }

  lemma NamesAll(asks: seq<string>, fs: seq<Firing>, rest: seq<Decision>)
    requires forall i :: 0 <= i < |fs| ==> fs[i].ask in asks
    requires |rest| == |Remaining(asks, FiredAsks(fs))|
    requires forall i :: 0 <= i < |rest| ==> rest[i].ask == Remaining(asks, FiredAsks(fs))[i]
    ensures Names(FiringDecisions(fs) + rest, asks)
  {
    var ds, left := FiringDecisions(fs) + rest, Remaining(asks, FiredAsks(fs));
    RemainingMembers(asks, FiredAsks(fs));
    forall a | a in asks ensures exists i :: 0 <= i < |ds| && ds[i].ask == a {
      if a in FiredAsks(fs) {
        var i :| 0 <= i < |fs| && fs[i].ask == a;
        assert ds[i].ask == a;
      } else {
        assert a in left;
        var i :| 0 <= i < |left| && left[i] == a;
        assert ds[|fs| + i].ask == a;
      }
    }
  }

  // ----- what a reply carries -----

  /** The asks no firing took, in their order. */
  lemma {:induction false} RemainingIs(asks: seq<string>, fs: seq<Firing>) returns (ks: seq<nat>)
    ensures var left := Remaining(asks, FiredAsks(fs));
            |ks| == |left| && forall i :: 0 <= i < |ks| ==> ks[i] < |asks| && left[i] == asks[ks[i]]
    ensures Ascending(ks)
    ensures forall k: nat :: k in ks <==> k < |asks| && forall i :: 0 <= i < |fs| ==> fs[i].ask != asks[k]
  {
    ks := [];
    if asks != [] {
      var n := |asks| - 1;
      ks := RemainingIs(asks[..n], fs);
      assert forall i :: 0 <= i < |ks| ==> ks[i] in ks;
      if asks[n] !in FiredAsks(fs) { ks := ks + [n]; }
    }
  }

  /** A decision reports a firing: which reflex ran on which ask, and how it went. */
  predicate Reports(d: Decision, f: Firing) {
    && d.ask == f.ask && d.verdict == Reflexed && d.redirect == "" && d.capability == f.key && d.applied == f.applied
    && d.note == SingleLine(NoteText(f.note), MAX_LINE)
  }

  /** The model's list, matched with the remaining asks, is what the decisions on them say. */
  ghost predicate HeardBy(rest: seq<Decision>, remaining: seq<string>, items: seq<Item>, m: seq<Option<nat>>,
                          known: set<string>, me: string)
  {
    && |m| == |remaining| == |rest| && WellMatched(remaining, items, m)
    && forall i :: 0 <= i < |rest| ==> Fits(rest[i], remaining[i], items, m[i], known, me)
  }

  predicate Unavailable(d: Decision, ask: string) {
    d.ask == ask && d.verdict == Defer && d.redirect == "" && d.note == "model unavailable"
  }

  /** The decisions on the remaining asks: what the model answered, or all deferred where it could not be asked. */
  ghost predicate Answers(rest: seq<Decision>, remaining: seq<string>, model: Model, known: set<string>, me: string) {
    |rest| == |remaining| &&
    (remaining != [] ==>
       match model
       case Answer(items) => exists m :: HeardBy(rest, remaining, items, m, known, me)
       case GatewayDown => forall i :: 0 <= i < |rest| ==> Unavailable(rest[i], remaining[i])
       case Broken => false)
  }

  /** A reply's decisions: one report for each firing, in order, then the answers to the remaining asks, in order. */
  ghost predicate Carries(ds: seq<Decision>, asks: seq<string>, fs: seq<Firing>, model: Model, known: set<string>,
                          me: string)
  {
    && |fs| <= |ds| && (forall i :: 0 <= i < |fs| ==> Reports(ds[i], fs[i]))
    && Answers(ds[|fs|..], Remaining(asks, FiredAsks(fs)), model, known, me)
  }

  lemma AnswersFit(rest: seq<Decision>, remaining: seq<string>, model: Model, known: set<string>, me: string)
    requires Answers(rest, remaining, model, known, me)
    ensures forall i :: 0 <= i < |rest| ==> rest[i].ask == remaining[i]
  {
  }

  lemma ComposedCarries(asks: seq<string>, fs: seq<Firing>, rest: seq<Decision>, model: Model, known: set<string>,
                        me: string)
    requires Answers(rest, Remaining(asks, FiredAsks(fs)), model, known, me)
    ensures Carries(FiringDecisions(fs) + rest, asks, fs, model, known, me)
  {
    var ds := FiringDecisions(fs) + rest;
    assert ds[|fs|..] == rest;
    forall i | 0 <= i < |fs|
      ensures Reports(ds[i], fs[i])
    {
      assert ds[i] == FiringDecision(fs[i]);
    }
  }

  // ----- the responder -----

  /** What comes back, given the firings: the exceptions in the order the code reaches them, and otherwise a complete
      answer to every ask, saying what fired and what the model decided. */
  ghost predicate Replies(r: Reply, env: Envelope, me: string, replyTo: string, firings: seq<Firing>, raised: bool,
                          model: Model, quiet: bool, known: set<string>, records: Records)
  {
    match r
    case Inner => false
    case MarkRaised => raised
    case Silent => !raised && env.asks == [] && !records.noteFails
    case GatewayRaised => !raised && env.asks != [] && model == GatewayDown && !quiet && firings == []
    case DecisionRaised => !raised && model == Broken && Remaining(env.asks, FiredAsks(firings)) != []
    case HandoffRaised => Composes(env, firings, raised, model, quiet) && !AllClean(firings)
    case RecordRaised =>
      || (!raised && env.asks == [] && records.noteFails)
      || (Composes(env, firings, raised, model, quiet) && AllClean(firings) && (records.noteFails || records.turnFails))
    case Say(response) =>
      && Composes(env, firings, raised, model, quiet) && AllClean(firings) && !records.noteFails && !records.turnFails
      && CompleteAnswer(response, env, me, replyTo)
      && Carries(response.decisions, env.asks, firings, model, known, me)
  }

  /** The code gets as far as composing a response. */
  predicate Composes(env: Envelope, firings: seq<Firing>, raised: bool, model: Model, quiet: bool) {
    && !raised && env.asks != [] && (model == GatewayDown ==> quiet || firings != [])
    && (model == Broken ==> Remaining(env.asks, FiredAsks(firings)) == [])
  }

  /** `_decide`: the decisions on the remaining asks, or the exception that escapes. */
  method Decide(remaining: seq<string>, model: Model, quiet: bool, fired: bool, known: set<string>, me: string)
    returns (escaped: Option<Reply>, rest: seq<Decision>)
    requires remaining != [] && (forall a :: a in remaining ==> RequiredLine(a, MAX_LINE))
    requires forall h :: h in known ==> SafeSlug(h)
    ensures escaped == if model == Broken then Some(DecisionRaised)
                       else if model == GatewayDown && !quiet && !fired then Some(GatewayRaised)
                       else None
    ensures escaped.None? ==> Answers(rest, remaining, model, known, me) && forall i :: 0 <= i < |rest| ==>
            rest[i].Valid()
  {
    escaped, rest := None, [];
    match model
    case Answer(items) =>
      var matched;
      rest, matched := Reconcile.Reconcile(remaining, items, known, me);
      assert HeardBy(rest, remaining, items, matched, known, me);
    case GatewayDown =>
      if !quiet && !fired { return Some(GatewayRaised), []; }
      DeferredValid(remaining);
      rest := Deferred(remaining);
    case Broken => escaped := Some(DecisionRaised);
  }

  /** `_negotiate` for a constituted colleague; `kit` is null when the persona has no reflexes. */
  method Negotiate(kit: ReflexKit?, env: Envelope, me: string, replyTo: string, model: Model, quiet: bool,
                   known: set<string>, records: Records)
    returns (r: Reply, firings: seq<Firing>, raised: bool)
    requires env.Valid() && SafeSlug(me) && SafeSlug(replyTo) && forall h :: h in known ==> SafeSlug(h)
    modifies if kit == null then {} else {kit, kit.log}
    ensures if kit == null || env.kind != Notice then firings == [] && !raised
            else Fired(kit.Value(), firings, raised) == Fire(kit.Wiring(), old(kit.Value()), env)
    ensures Distinctly(firings, env)
    ensures Replies(r, env, me, replyTo, firings, raised, model, quiet, known, records)
  {
    firings, raised := [], false;
    if kit != null && env.kind == Notice {
      OneFiringPerAsk(kit.Wiring(), kit.Value(), env, |kit.rules|);
      firings, raised := kit.FireReflexes(env);
      if raised { return MarkRaised, firings, raised; }
    }
    var remaining := Remaining(env.asks, FiredAsks(firings));
    RemainingMembers(env.asks, FiredAsks(firings));
    if remaining == [] && firings == [] {
      RemainingNone(env.asks);
      assert FiredAsks(firings) == {};
      r := if records.noteFails then RecordRaised else Silent;
      return;
    }
    assert env.asks != [] by { if firings != [] { assert firings[0].ask in env.asks; } }
    var rest: seq<Decision> := [];
    if remaining != [] {
      var escaped;
      escaped, rest := Decide(remaining, model, quiet, firings != [], known, me);
      if escaped.Some? { return escaped.value, firings, raised; }
    }
    if !AllClean(firings) { return HandoffRaised, firings, raised; }
    if records.noteFails || records.turnFails { return RecordRaised, firings, raised; }
    AnswersFit(rest, remaining, model, known, me);
    ComposedComplete(env, me, replyTo, firings, rest);
    ComposedCarries(env.asks, firings, rest, model, known, me);
    r := Say(ResponseTo(env, me, replyTo, FiringDecisions(firings) + rest));
  }

  /** The asks of a response this persona was redirected to. */
  function Redirected(ds: seq<Decision>, me: string): seq<string> {
    if ds == [] then []
    else
      var front, d := Redirected(ds[..|ds| - 1], me), ds[|ds| - 1];
      if d.verdict == Decline && d.redirect == me then front + [d.ask] else front
  }

  predicate StartsRe(s: string) { |s| >= 3 && s[0] in {'r', 'R'} && s[1] in {'e', 'E'} && s[2] == ':' }

  /** The notice made of a response's redirected asks; it carries no facts. */
  function Synthetic(env: Envelope, me: string): Envelope {
    var cut := if StartsRe(env.summary) then Strip(env.summary[3..]) else env.summary;
    var summary := if cut == "" then env.summary else cut;
    Envelope(Notice, env.taskId, env.origin, summary, me, [], Redirected(env.decisions, me), [], [])
  }

  /** A declined ask of these decisions handed on to `me`. */
  predicate HandedOn(ds: seq<Decision>, me: string, ask: string) {
    exists i :: 0 <= i < |ds| && ds[i].verdict == Decline && ds[i].redirect == me && ds[i].ask == ask
  }

  lemma {:induction false} RedirectedValid(ds: seq<Decision>, me: string)
    requires forall d :: d in ds ==> d.Valid()
    ensures |Redirected(ds, me)| <= |ds| && forall a :: a in Redirected(ds, me) ==> RequiredLine(a, MAX_LINE)
    ensures forall a :: a in Redirected(ds, me) <==> HandedOn(ds, me, a)
  {
    if ds != [] {
      var front, d := ds[..|ds| - 1], ds[|ds| - 1];
      RedirectedValid(front, me);
      assert d in ds && d.Valid();
      forall a | a in Redirected(ds, me) ensures HandedOn(ds, me, a) {
        if a in Redirected(front, me) {
          var i :| 0 <= i < |front| && front[i].verdict == Decline && front[i].redirect == me && front[i].ask == a;
          assert ds[i] == front[i];
        } else {
          assert ds[|ds| - 1].ask == a;
        }
      }
      forall i | 0 <= i < |ds| && ds[i].verdict == Decline && ds[i].redirect == me
        ensures ds[i].ask in Redirected(ds, me)
      {
        if i < |front| { assert front[i] == ds[i]; }
      }
    }
  }

  /** The asks handed on to `me`, in the order of the response. */
  lemma {:induction false} RedirectedIs(ds: seq<Decision>, me: string) returns (ks: seq<nat>)
    ensures |ks| == |Redirected(ds, me)| && Ascending(ks)
    ensures forall i :: 0 <= i < |ks| ==> ks[i] < |ds| && Redirected(ds, me)[i] == ds[ks[i]].ask
    ensures forall k: nat :: k in ks <==> k < |ds| && ds[k].verdict == Decline && ds[k].redirect == me
  {
    ks := [];
    if ds != [] {
      var n := |ds| - 1;
      ks := RedirectedIs(ds[..n], me);
      assert forall i :: 0 <= i < |ks| ==> ks[i] in ks;
      if ds[n].verdict == Decline && ds[n].redirect == me { ks := ks + [n]; }
    }
  }

  /** A redirect of a response to a notice comes as that notice's task and origin, its summary without the prefix the
      response put on it, and nothing of its facts. */
  lemma SyntheticIs(env: Envelope, me: string, summary: string)
    requires summary != "" && Stripped(summary) && env.summary == "re: " + summary
    ensures var s := Synthetic(env, me);
            && s.kind == Notice && s.taskId == env.taskId && s.origin == env.origin && s.recipient == me
            && s.summary == summary && s.facts == [] && s.asks == Redirected(env.decisions, me)
  {
    var tail := env.summary[3..];
    assert tail == " " + summary && tail[1..] == summary;
    assert StripLeft(tail) == StripLeft(summary);
  }

  /** Otherwise the summary is kept, like one with nothing behind the prefix. */
  lemma SyntheticKeeps(env: Envelope, me: string)
    requires |env.summary| < 3 || env.summary[0] !in {'r', 'R'} || env.summary[1] !in {'e', 'E'} ||
             env.summary[2] != ':' || Strip(env.summary[3..]) == ""
    ensures Synthetic(env, me).summary == env.summary
  {
  }

  lemma StrippedTailClean(s: string)
    requires |s| >= 3 && '\n' !in s && '\r' !in s
    ensures '\n' !in Strip(s[3..]) && '\r' !in Strip(s[3..])
  {
    if '\n' in Strip(s[3..]) { StripChars(s[3..], '\n'); }
    if '\r' in Strip(s[3..]) { StripChars(s[3..], '\r'); }
  }

  lemma SyntheticValid(env: Envelope, me: string)
    requires env.Valid() && env.kind == Response && SafeSlug(me)
    ensures Synthetic(env, me).Valid()
  {
    RedirectedValid(env.decisions, me);
    if StartsRe(env.summary) { StrippedTailClean(env.summary); }
  }

  /** Without facts there is no provenance, so nothing may execute. */
  lemma {:induction false} FactlessNeverRuns(c: Config, k: Kit, env: Envelope, n: nat)
    requires n <= |c.rules| && env.facts == []
    ensures FireFirst(c, k, env, n).kit == k && !FireFirst(c, k, env, n).raised
  {
    if n > 0 {
      FactlessNeverRuns(c, k, env, n - 1);
      assert Strip("") == "";
    }
  }

  predicate Addressed(m: ChatMessage, me: string) {
    m.Authentic() && m.frame.value.kind == Notice && m.frame.value.recipient == me
  }

  /** A response to someone else that redirects some asks here. */
  predicate RedirectedHere(m: ChatMessage, me: string) {
    m.Authentic() && m.frame.value.kind == Response && m.frame.value.recipient != me &&
    Redirected(m.frame.value.decisions, me) != []
  }

  /** Messages that are only noted: a plan with a step for this persona, and a response to it. */
  predicate OnlyNoted(m: ChatMessage, me: string) {
    m.Authentic() && match m.frame.value.kind {
      case Plan => exists i :: 0 <= i < |m.frame.value.steps| && m.frame.value.steps[i].owner == me
      case Response => m.frame.value.recipient == me
      case Notice => false
    }
  }

  /** Whom a message concerns, spelled out: the notice's recipient, a persona the response declines some ask to, and
      those who only note it. */
  lemma HeardHere(m: ChatMessage, me: string)
    ensures Addressed(m, me) <==>
            && !m.isOwner && m.frame.Some? && m.frame.value.origin == m.author
            && m.frame.value.kind == Notice && m.frame.value.recipient == me
    ensures RedirectedHere(m, me) <==>
            && !m.isOwner && m.frame.Some? && m.frame.value.origin == m.author
            && m.frame.value.kind == Response && m.frame.value.recipient != me
            && exists k :: 0 <= k < |m.frame.value.decisions| &&
                           m.frame.value.decisions[k].verdict == Decline && m.frame.value.decisions[k].redirect == me
    ensures OnlyNoted(m, me) <==>
            && !m.isOwner && m.frame.Some? && m.frame.value.origin == m.author
            && ((m.frame.value.kind == Response && m.frame.value.recipient == me) ||
                (m.frame.value.kind == Plan &&
                 exists i :: 0 <= i < |m.frame.value.steps| && m.frame.value.steps[i].owner == me))
  {
    if m.frame.Some? {
      var ds := m.frame.value.decisions;
      var ks := RedirectedIs(ds, me);
      assert forall k: nat :: k in ks <==> k < |ds| && ds[k].verdict == Decline && ds[k].redirect == me;
      if ks != [] { assert ks[0] in ks; }
    }
  }

  /** `respond`: envelope messages never reach the inner responder, forged ones and plans draw nothing, a notice
      addressed here or a redirect to here is negotiated, everything else stays quiet. */
  method Respond(m: ChatMessage, kit: ReflexKit?, me: string, constituted: bool, model: Model, quiet: bool,
                 known: set<string>, records: Records)
    returns (r: Reply, firings: seq<Firing>, raised: bool)
    requires m.Valid() && SafeSlug(me) && forall h :: h in known ==> SafeSlug(h)
    modifies if kit == null then {} else {kit, kit.log}
    ensures r == Inner <==> m.isOwner || m.frame.None?
    ensures !constituted || !(Addressed(m, me) || RedirectedHere(m, me)) ==>
              firings == [] && !raised && (kit != null ==> kit.Value() == old(kit.Value())) &&
              r in {Inner, Reply.Silent, RecordRaised} && (r == RecordRaised <==> OnlyNoted(m, me) && records.noteFails)
    ensures constituted && Addressed(m, me) ==>
              && Replies(r, m.frame.value, me, m.author, firings, raised, model, quiet, known, records)
              && if kit == null then firings == [] && !raised
                 else Fired(kit.Value(), firings, raised) == Fire(kit.Wiring(), old(kit.Value()), m.frame.value)
    ensures constituted && RedirectedHere(m, me) ==>
              && !raised && (kit != null ==> kit.Value() == old(kit.Value()))
              && Replies(r, Synthetic(m.frame.value, me), me, m.frame.value.recipient, firings, raised, model, quiet,
                         known, records)
  {
    firings, raised := [], false;
    if m.isOwner || m.frame.None? { return Inner, [], false; }
    var env := m.frame.value;
    if env.origin != m.author { return Reply.Silent, [], false; }
    var noted := if records.noteFails then RecordRaised else Reply.Silent;
    if env.kind == Plan {
      if exists i :: 0 <= i < |env.steps| && env.steps[i].owner == me { return noted, [], false; }
      return Reply.Silent, [], false;
    }
    if env.kind == Response {
      if env.recipient == me { return noted, [], false; }
      var mine := Redirected(env.decisions, me);
      if mine == [] || !constituted { return Reply.Silent, [], false; }
      SyntheticValid(env, me);
      if kit != null { FactlessNeverRuns(kit.Wiring(), kit.Value(), Synthetic(env, me), |kit.rules|); }
      r, firings, raised := Negotiate(kit, Synthetic(env, me), me, env.recipient, model, quiet, known, records);
    } else {
      if env.recipient != me || !constituted { return Reply.Silent, [], false; }
      r, firings, raised := Negotiate(kit, env, me, env.origin, model, quiet, known, records);
    }
  }
}
