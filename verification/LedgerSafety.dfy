/** What holds along every sequence of messages a ledger is fed. */
module LedgerSafety {
  import opened PyText
  import opened Handoff
  import opened Ledger

  // ----- asks -----

  lemma {:induction false} AskWithin(asks: Asks, response: Envelope, n: nat, a: string)
    requires n <= |response.decisions| && a in asks
    ensures var after := AsksAfter(asks, response, n)[a];
            && (!asks[a].Open() ==> after == asks[a])
            && (after != asks[a] ==> Moves(asks[a], response.origin))
  {
    if n > 0 { AskWithin(asks, response, n - 1, a); }
  }

  /** One message: the first notice fixes a task's asks; an answered ask never changes; an open one changes only
      on the task's own authentic response, and a redirected one only on its current target's. */
  lemma FeedKeeps(s: State, m: ChatMessage, id: string, a: string)
    requires WellFormed(s) && m.Valid() && id in s.tasks && a in s.tasks[id].notice.asks
    ensures var s' := Feed(s, m);
            && id in s'.tasks && s'.tasks[id].notice == s.tasks[id].notice
            && s'.tasks[id].asks.Keys == s.tasks[id].asks.Keys
            && var before, after := s.tasks[id].asks[a], s'.tasks[id].asks[a];
            && (!before.Open() ==> after == before)
            && (after != before ==>
                  && m.Authentic() && m.frame.value.kind == Response && m.frame.value.taskId == id
                  && (before.status == Redirected ==> m.author == before.decider))
  {
    assert a in s.tasks[id].asks;
    if m.Authentic() && m.frame.value.kind == Response && m.frame.value.taskId == id {
      AskWithin(s.tasks[id].asks, m.frame.value, |m.frame.value.decisions|, a);
    }
  }

  lemma {:induction false} AskAnsweredOnce(asks: Asks, response: Envelope, n: nat, k: nat)
    requires n <= |response.decisions| && k < |response.decisions| && response.decisions[k].ask in asks
    requires forall j :: 0 <= j < |response.decisions| && response.decisions[j].ask == response.decisions[k].ask ==>
             j == k
    ensures var d := response.decisions[k];
            AsksAfter(asks, response, n)[d.ask] ==
            if k < n && Moves(asks[d.ask], response.origin) then Answered(d, response.origin) else asks[d.ask]
  {
    if n > 0 { AskAnsweredOnce(asks, response, n - 1, k); }
  }

  lemma StepSaid(d: Decision, who: string)
    ensures StepFor(d.ask, Answered(d, who)) ==
            match d.verdict
            case Reflexed => if d.applied then Step(who, d.ask, StepDone) else Step("", d.ask, Unassigned)
            case Accept => Step(who, d.ask, NeedsApproval)
            case Decline =>
              if d.redirect != "" then Step(d.redirect, d.ask, NeedsApproval) else Step("", d.ask, Unassigned)
            case Defer => Step("", d.ask, Unassigned)
  {
  }

  lemma AnsweredStep(s: State, m: ChatMessage, id: string, i: nat, st: AskState)
    requires m.Authentic() && m.frame.value.kind == Response && m.frame.value.taskId == id && id in s.tasks
    requires WellFormed(Feed(s, m)) && i < |s.tasks[id].notice.asks| && s.tasks[id].notice.asks[i] in s.tasks[id].asks
    requires AsksAfter(s.tasks[id].asks, m.frame.value, |m.frame.value.decisions|)[s.tasks[id].notice.asks[i]] == st
    ensures id in Feed(s, m).tasks && Keyed(id, Feed(s, m).tasks[id])
    ensures i < |PlanFor(id, Feed(s, m).tasks[id]).steps|
    ensures PlanFor(id, Feed(s, m).tasks[id]).steps[i] == StepFor(s.tasks[id].notice.asks[i], st)
  {
  }

  /** What the plan will say of an ask its addressee (or redirect target) has answered once: what was done or accepted
      is the responder's, what was handed on is the new target's to approve, anything else is the owner's. */
  lemma PlanReportsAnswer(s: State, m: ChatMessage, id: string, k: nat, i: nat)
    requires WellFormed(s) && m.Valid() && m.Authentic() && m.frame.value.kind == Response && m.frame.value.taskId == id
    requires id in s.tasks && k < |m.frame.value.decisions| && i < |s.tasks[id].notice.asks|
    requires var env, d := m.frame.value, m.frame.value.decisions[k];
             && d.ask == s.tasks[id].notice.asks[i] && d.ask in s.tasks[id].asks &&
                Moves(s.tasks[id].asks[d.ask], m.author)
             && forall j :: 0 <= j < |env.decisions| && env.decisions[j].ask == d.ask ==> j == k
    ensures WellFormed(Feed(s, m)) && id in Feed(s, m).tasks && Keyed(id, Feed(s, m).tasks[id])
    ensures var d, steps := m.frame.value.decisions[k], PlanFor(id, Feed(s, m).tasks[id]).steps;
            && i < |steps|
            && steps[i] == match d.verdict
                           case Reflexed =>
                             if d.applied then Step(m.author, d.ask, StepDone) else Step("", d.ask, Unassigned)
                           case Accept => Step(m.author, d.ask, NeedsApproval)
                           case Decline =>
                             if d.redirect != "" then Step(d.redirect, d.ask, NeedsApproval)
                             else Step("", d.ask, Unassigned)
                           case Defer => Step("", d.ask, Unassigned)
  {
    var env := m.frame.value;
    FeedWellFormed(s, m);
    AskAnsweredOnce(s.tasks[id].asks, env, |env.decisions|, k);
    StepSaid(env.decisions[k], m.author);
    AnsweredStep(s, m, id, i, Answered(env.decisions[k], m.author));
  }

  lemma {:induction false} FeedAllWellFormed(s: State, ms: seq<ChatMessage>)
    requires WellFormed(s) && forall m :: m in ms ==> m.Valid()
    ensures WellFormed(FeedAll(s, ms))
  {
    if ms != [] {
      FeedAllWellFormed(s, ms[..|ms| - 1]);
      FeedWellFormed(FeedAll(s, ms[..|ms| - 1]), ms[|ms| - 1]);
    }
  }

  /** Along any run: whatever is fed, a task keeps its first notice and an answered ask keeps its answer. */
  lemma {:induction false} AnswersAreFinal(s: State, ms: seq<ChatMessage>, id: string, a: string)
    requires WellFormed(s) && (forall m :: m in ms ==> m.Valid()) && id in s.tasks && a in s.tasks[id].notice.asks
    ensures var s' := FeedAll(s, ms);
            && id in s'.tasks && s'.tasks[id].notice == s.tasks[id].notice && a in s'.tasks[id].asks
            && (!s.tasks[id].asks[a].Open() ==> s'.tasks[id].asks[a] == s.tasks[id].asks[a])
  {
    if ms != [] {
      var front := ms[..|ms| - 1];
      AnswersAreFinal(s, front, id, a);
      FeedAllWellFormed(s, front);
      FeedKeeps(FeedAll(s, front), ms[|ms| - 1], id, a);
    }
  }

  // ----- what each kind of message does -----

  /** A notice under a new id opens its task with every ask pending; one under a known id is only counted. */
  lemma NoticeOpens(s: State, m: ChatMessage)
    requires m.Authentic() && m.frame.value.kind == Notice
    ensures var s', env := Feed(s, m), m.frame.value;
            && s'.planned == s.planned && s'.stalled == s.stalled && s'.failures == s.failures
            && if env.taskId in s.tasks
               then s'.tasks == s.tasks && s'.order == s.order && s'.duplicates == s.duplicates + [env.taskId]
               else
                 && s'.duplicates == s.duplicates && s'.order == s.order + [env.taskId]
                 && s'.tasks.Keys == s.tasks.Keys + {env.taskId} && s'.tasks[env.taskId].notice == env
                 && (forall a :: a in s'.tasks[env.taskId].asks <==> a in env.asks)
                 && (forall a :: a in env.asks ==> s'.tasks[env.taskId].asks[a].status == Pending)
                 && forall id :: id in s.tasks ==> s'.tasks[id] == s.tasks[id]
  {
    assert Untagged([]) == [];
    NoneConcat(s.failures);
  }

  /** A plan marks its task planned and does nothing else. */
  lemma PlanMarks(s: State, m: ChatMessage)
    requires m.Authentic() && m.frame.value.kind == Plan
    ensures Feed(s, m) == s.(planned := s.planned + {m.frame.value.taskId})
  {
    assert Untagged([]) == [];
    NoneConcat(s.failures);
  }

  /** Prose, the owner's messages and responses to unknown tasks change nothing; a forged frame leaves a record if it is
      a response to a known task, naming the task's initiator and the author who sent it, and nothing else. */
  lemma OthersAreInert(s: State, m: ChatMessage)
    requires !m.Authentic() || (m.frame.value.kind == Response && m.frame.value.taskId !in s.tasks)
    ensures var s' := Feed(s, m);
            if m.isOwner || m.frame.None? || m.frame.value.kind != Response || m.frame.value.taskId !in s.tasks
            then s' == s
            else var id := m.frame.value.taskId;
              && s' == s.(failures := s'.failures) && |s'.failures| == |s.failures| + 1
              && s'.failures[..|s.failures|] == s.failures
              && var r := s'.failures[|s.failures|];
                 && r.taskId == id && r.initiator == s.tasks[id].notice.origin && r.counterparty == m.author
                 && r.reason == ParseFailed
                 && r.summary == "origin mismatch " + ("on response to " + Clip(Repr(s.tasks[id].notice.summary), 60))
  {
    assert Untagged([]) == [];
    NoneConcat(s.failures);
  }

  /** The asks a record is about. */
  function About(rs: seq<(string, Failure)>, ask: string): seq<Failure> {
    if rs == [] then []
    else
      var front, last := About(rs[..|rs| - 1], ask), rs[|rs| - 1];
      if last.0 == ask then front + [last.1] else front
  }

  lemma {:induction false} AboutConcat(a: seq<(string, Failure)>, b: seq<(string, Failure)>, ask: string)
    ensures About(a + b, ask) == About(a, ask) + About(b, ask)
  {
    if b == [] {
      NoneConcat(a);
      NoneConcat(About(a, ask));
    } else {
      AboutConcat(a, b[..|b| - 1], ask);
      assert (a + b)[..|a + b| - 1] == a + b[..|b| - 1];
    }
  }

  lemma AboutLast(rs: seq<(string, Failure)>, lands: bool, of: string, records: seq<Failure>, ask: string)
    ensures var all := if lands then rs + Tagged(of, records) else rs;
            About(all, ask) == if lands && of == ask then About(rs, ask) + records else About(rs, ask)
    ensures rs + [] == rs
  {
    AboutConcat(rs, Tagged(of, records), ask);
    TaggedAbout(of, records, ask);
    NoneConcat(About(rs, ask));
  }

  lemma AboutNext(task: Task, response: Envelope, n: nat, d: Decision, ask: string)
    requires n < |response.decisions| && d == response.decisions[n]
    ensures var rs := About(RecordsAfter(task, response, n), ask);
            About(RecordsAfter(task, response, n + 1), ask) ==
            if Lands(AsksAfter(task.asks, response, n), response, d) && d.ask == ask
            then rs + Recorded(task.notice, response, d) else rs
  {
    AboutLast(RecordsAfter(task, response, n), Lands(AsksAfter(task.asks, response, n), response, d), d.ask,
              Recorded(task.notice, response, d), ask);
  }

  lemma {:induction false} AboutOnce(task: Task, response: Envelope, n: nat, k: nat)
    requires n <= |response.decisions| && k < |response.decisions| && response.decisions[k].ask in task.asks
    requires forall j :: 0 <= j < |response.decisions| && response.decisions[j].ask == response.decisions[k].ask ==>
             j == k
    ensures var d := response.decisions[k];
            About(RecordsAfter(task, response, n), d.ask) ==
            if k < n && Moves(task.asks[d.ask], response.origin) then Recorded(task.notice, response, d) else []
  {
    if n > 0 {
      var ask, last := response.decisions[k].ask, response.decisions[n - 1];
      AboutOnce(task, response, n - 1, k);
      AskAnsweredOnce(task.asks, response, n - 1, k);
      AboutNext(task, response, n - 1, last, ask);
      NoneConcat(Recorded(task.notice, response, last));
    }
  }

  lemma {:induction false} TaggedAbout(ask: string, records: seq<Failure>, other: string)
    ensures About(Tagged(ask, records), other) == if ask == other then records else []
  {
    if records != [] {
      TaggedAbout(ask, records[..|records| - 1], other);
      assert Tagged(ask, records)[..|records| - 1] == Tagged(ask, records[..|records| - 1]);
    }
  }

  /** What the failure records say of an ask its addressee (or redirect target) has answered once: a decline handed to
      nobody and a reflex that did not apply leave one, naming task, initiator and responder; nothing else does. */
  lemma RecordsReportAnswer(s: State, m: ChatMessage, id: string, k: nat)
    requires m.Authentic() && m.frame.value.kind == Response && m.frame.value.taskId == id && id in s.tasks
    requires k < |m.frame.value.decisions|
    requires var env, d := m.frame.value, m.frame.value.decisions[k];
             && d.ask in s.tasks[id].asks && Moves(s.tasks[id].asks[d.ask], m.author)
             && forall j :: 0 <= j < |env.decisions| && env.decisions[j].ask == d.ask ==> j == k
    ensures var d := m.frame.value.decisions[k];
            var initiator, text := s.tasks[id].notice.origin, Clip(d.ask, 80);
            About(Records(s, m), d.ask) ==
            match d.verdict
            case Decline => if d.redirect == "" then [Failure(id, initiator, m.author, Declined, text)] else []
            case Reflexed => if d.applied then [] else [Failure(id, initiator, m.author, ReflexRefused, text)]
            case Accept => []
            case Defer => []
  {
    AboutOnce(s.tasks[id], m.frame.value, |m.frame.value.decisions|, k);
  }

  // ----- what is still missing -----

  /** Where an ask is first named. */
  function FirstAt(asks: seq<string>, a: string): (i: nat)
    requires a in asks
    ensures i < |asks| && asks[i] == a && forall j :: 0 <= j < i ==> asks[j] != a
  {
    if asks[0] == a then 0 else 1 + FirstAt(asks[1..], a)
  }

  /** The asks reported missing are exactly those pending or handed on, each once, in the order the notice first names
      them. */
  lemma MissingExactly(task: Task)
    requires task.asks.Keys == set a | a in task.notice.asks
    ensures var r, asks := Missing(task), task.notice.asks;
            && (forall a :: a in r <==> a in asks && (task.asks[a].status == Pending ||
                                                      task.asks[a].status == Redirected))
            && forall i, j :: 0 <= i < j < |r| ==> FirstAt(asks, r[i]) < FirstAt(asks, r[j])
  {
    var keep := (a: string) => a in task.asks && task.asks[a].Open();
    DistinctInOrder(task.notice.asks);
    FilterInOrder(Distinct(task.notice.asks), keep, task.notice.asks);
  }

  lemma {:induction false} FirstAtFront(asks: seq<string>, n: nat, a: string)
    requires n <= |asks| && a in asks[..n]
    ensures a in asks && FirstAt(asks, a) == FirstAt(asks[..n], a)
  {
    var i := FirstAt(asks[..n], a);
    assert asks[i] == a;
    assert forall j :: 0 <= j < i ==> asks[j] == asks[..n][j];
  }

  lemma FirstNew(asks: seq<string>)
    requires asks != [] && asks[|asks| - 1] !in asks[..|asks| - 1]
    ensures FirstAt(asks, asks[|asks| - 1]) == |asks| - 1
  {
    InFront(asks, FirstAt(asks, asks[|asks| - 1]));
  }

  lemma InFront<T>(s: seq<T>, k: nat)
    requires k < |s|
    ensures k < |s| - 1 ==> s[k] in s[..|s| - 1]
  {
    if k < |s| - 1 { assert s[..|s| - 1][k] == s[k]; }
  }

  /** `s` names asks, in the order they first appear. */
  ghost predicate AsksInOrder(s: seq<string>, asks: seq<string>) {
    (forall a :: a in s ==> a in asks) && forall i, j :: 0 <= i < j < |s| ==> FirstAt(asks, s[i]) < FirstAt(asks, s[j])
  }

  lemma {:induction false} DistinctInOrder(asks: seq<string>)
    ensures AsksInOrder(Distinct(asks), asks)
  {
    if asks != [] {
      var n, front := |asks| - 1, Distinct(asks[..|asks| - 1]);
      DistinctInOrder(asks[..n]);
      forall i | 0 <= i < |front|
        ensures front[i] in asks && FirstAt(asks, front[i]) == FirstAt(asks[..n], front[i]) < n
      {
        assert front[i] in front;
        FirstAtFront(asks, n, front[i]);
      }
      if asks[n] !in asks[..n] { FirstNew(asks); }
    }
  }

  lemma InOrderSnoc(r: seq<string>, last: string, asks: seq<string>)
    requires AsksInOrder(r, asks) && last in asks && forall a :: a in r ==> FirstAt(asks, a) < FirstAt(asks, last)
    ensures AsksInOrder(r + [last], asks)
  {
    var all := r + [last];
    forall i, j | 0 <= i < j < |all|
      ensures FirstAt(asks, all[i]) < FirstAt(asks, all[j])
    {
      assert all[i] == r[i] && r[i] in r;
    }
  }

  lemma {:induction false} FilterInOrder(s: seq<string>, keep: string -> bool, asks: seq<string>)
    requires AsksInOrder(s, asks)
    ensures AsksInOrder(Filter(s, keep), asks) && forall a :: a in Filter(s, keep) ==> a in s
  {
    if s != [] {
      var front, last := s[..|s| - 1], s[|s| - 1];
      assert forall i :: 0 <= i < |front| ==> front[i] == s[i] && s[i] in s;
      FilterInOrder(front, keep, asks);
      FilterSnoc(s, keep);
      if keep(last) {
        forall a | a in Filter(front, keep)
          ensures FirstAt(asks, a) < FirstAt(asks, last)
        {
          var k :| 0 <= k < |front| && front[k] == a;
          assert s[k] == a;
        }
        InOrderSnoc(Filter(front, keep), last, asks);
      }
    }
  }

  lemma FilterSnoc(s: seq<string>, keep: string -> bool)
    requires s != []
    ensures var r, last := Filter(s[..|s| - 1], keep), s[|s| - 1];
            Filter(s, keep) == if keep(last) then r + [last] else r
  {
    NoneConcat(Filter(s[..|s| - 1], keep));
  }

  // ----- failure records -----

  /** The (ask, record) pairs generated along a run. */
  function AllRecords(s: State, ms: seq<ChatMessage>): seq<(string, Failure)> {
    if ms == [] then [] else AllRecords(s, ms[..|ms| - 1]) + Records(FeedAll(s, ms[..|ms| - 1]), ms[|ms| - 1])
  }

  predicate AboutAsk(r: (string, Failure)) { r.1.reason != ParseFailed }

  predicate SameAsk(r: (string, Failure), q: (string, Failure)) { r.0 == q.0 && r.1.taskId == q.1.taskId }

  ghost predicate OnePerAsk(rs: seq<(string, Failure)>) {
    forall i, j :: 0 <= i < j < |rs| && AboutAsk(rs[i]) && AboutAsk(rs[j]) ==> !SameAsk(rs[i], rs[j])
  }

  predicate OwnersNow(r: (string, Failure), s: State) {
    r.1.taskId in s.tasks && r.0 in s.tasks[r.1.taskId].asks && s.tasks[r.1.taskId].asks[r.0].status == OwnerAttention
  }

  /** Every record about an ask left that ask with the owner. */
  ghost predicate Closed(rs: seq<(string, Failure)>, s: State) {
    forall r :: r in rs && AboutAsk(r) ==> OwnersNow(r, s)
  }

  lemma OnePerAskConcat(rs: seq<(string, Failure)>, more: seq<(string, Failure)>)
    requires OnePerAsk(rs) && OnePerAsk(more)
    requires forall r, q :: r in rs && q in more && AboutAsk(r) && AboutAsk(q) ==> !SameAsk(r, q)
    ensures OnePerAsk(rs + more)
  {
    var all := rs + more;
    forall i, j | 0 <= i < j < |all| && AboutAsk(all[i]) && AboutAsk(all[j]) ensures !SameAsk(all[i], all[j]) {
      if i < |rs| && j >= |rs| { assert all[i] in rs && all[j] in more; }
    }
  }

  /** A record made by the first `n` decisions: its ask was open before them and is the owner's after. */
  predicate MadeBy(task: Task, response: Envelope, n: nat, r: (string, Failure))
    requires n <= |response.decisions|
  {
    AboutAsk(r) && r.1.taskId == response.taskId && r.0 in task.asks && task.asks[r.0].Open() &&
    AsksAfter(task.asks, response, n)[r.0].status == OwnerAttention
  }

  /** Within one response no ask is recorded twice. */
  lemma {:induction false} RecordsWithin(task: Task, response: Envelope, n: nat)
    requires n <= |response.decisions|
    ensures OnePerAsk(RecordsAfter(task, response, n))
    ensures forall r :: r in RecordsAfter(task, response, n) ==> MadeBy(task, response, n, r)
  {
    if n > 0 {
      RecordsWithin(task, response, n - 1);
      var d, before := response.decisions[n - 1], AsksAfter(task.asks, response, n - 1);
      var rs := RecordsAfter(task, response, n - 1);
      if Lands(before, response, d) {
        var more := Tagged(d.ask, Recorded(task.notice, response, d));
        assert RecordsAfter(task, response, n) == rs + more;
        AskWithin(task.asks, response, n - 1, d.ask);
        forall r | r in more ensures MadeBy(task, response, n, r) && r.0 == d.ask {}
        forall r | r in rs ensures MadeBy(task, response, n, r) && r.0 != d.ask {
          assert MadeBy(task, response, n - 1, r);
        }
        OnePerAskConcat(rs, more);
      } else {
        assert RecordsAfter(task, response, n) == rs;
        forall r | r in rs ensures MadeBy(task, response, n, r) { assert MadeBy(task, response, n - 1, r); }
      }
    }
  }

  lemma ClosedKept(s: State, m: ChatMessage, rs: seq<(string, Failure)>)
    requires WellFormed(s) && m.Valid() && Closed(rs, s)
    ensures Closed(rs, Feed(s, m))
  {
    forall r | r in rs && AboutAsk(r) ensures OwnersNow(r, Feed(s, m)) {
      assert OwnersNow(r, s);
      FeedKeeps(s, m, r.1.taskId, r.0);
    }
  }

  lemma RecordsStep(s: State, m: ChatMessage, rs: seq<(string, Failure)>)
    requires WellFormed(s) && m.Valid() && OnePerAsk(rs) && Closed(rs, s)
    ensures OnePerAsk(rs + Records(s, m)) && Closed(rs + Records(s, m), Feed(s, m))
  {
    var more := Records(s, m);
    ClosedKept(s, m, rs);
    if m.Authentic() && m.frame.value.kind == Response && m.frame.value.taskId in s.tasks {
      var env := m.frame.value;
      var task := s.tasks[env.taskId];
      RecordsWithin(task, env, |env.decisions|);
      assert more == RecordsAfter(task, env, |env.decisions|);
      forall r, q | r in rs && q in more && AboutAsk(r) && AboutAsk(q) ensures !SameAsk(r, q) {
        assert MadeBy(task, env, |env.decisions|, q);
      }
      OnePerAskConcat(rs, more);
      assert Closed(more, Feed(s, m));
    } else {
      assert forall q :: q in more ==> !AboutAsk(q);
      OnePerAskConcat(rs, more);
    }
  }

  /** Along any run each ask leaves at most one declined or reflex-refused record. */
  lemma {:induction false} AtMostOneRecordPerAsk(s: State, ms: seq<ChatMessage>)
    requires WellFormed(s) && forall m :: m in ms ==> m.Valid()
    ensures OnePerAsk(AllRecords(s, ms)) && Closed(AllRecords(s, ms), FeedAll(s, ms))
  {
    if ms != [] {
      var front := ms[..|ms| - 1];
      AtMostOneRecordPerAsk(s, front);
      FeedAllWellFormed(s, front);
      RecordsStep(FeedAll(s, front), ms[|ms| - 1], AllRecords(s, front));
    }
  }

  // ----- draining -----

  datatype Use = FeedUse(m: ChatMessage) | DrainUse

  function Used(s: State, us: seq<Use>): State {
    if us == [] then s
    else var before := Used(s, us[..|us| - 1]);
      match us[|us| - 1] case FeedUse(m) => Feed(before, m) case DrainUse => before.(failures := [])
  }

  /** What the drains along a run hand out, in order. */
  function Drained(s: State, us: seq<Use>): seq<Failure> {
    if us == [] then []
    else
      var front := Drained(s, us[..|us| - 1]);
      match us[|us| - 1] case FeedUse(_) => front case DrainUse => front + Used(s, us[..|us| - 1]).failures
  }

  function Generated(s: State, us: seq<Use>): seq<Failure> {
    if us == [] then []
    else
      var front := Generated(s, us[..|us| - 1]);
      match us[|us| - 1] case FeedUse(m) => front + Untagged(Records(Used(s, us[..|us| - 1]), m)) case DrainUse => front
  }

  lemma FedFailures(s: State, m: ChatMessage)
    ensures Feed(s, m).failures == s.failures + Untagged(Records(s, m))
  {
  }

  /** No record is lost, repeated or reordered: what was drained, then what still waits, is what was generated. */
  lemma {:induction false} RecordsConserved(s: State, us: seq<Use>)
    ensures s.failures + Generated(s, us) == Drained(s, us) + Used(s, us).failures
  {
    if us == [] {
      assert s.failures + [] == [] + s.failures;
    } else {
      var front := us[..|us| - 1];
      var before := Used(s, front);
      RecordsConserved(s, front);
      match us[|us| - 1]
      case FeedUse(m) =>
        var made := Untagged(Records(before, m));
        FedFailures(before, m);
        Assoc(s.failures, Generated(s, front), made);
        Assoc(Drained(s, front), before.failures, made);
      case DrainUse =>
        assert Drained(s, us) + [] == Drained(s, us);
    }
  }
}
