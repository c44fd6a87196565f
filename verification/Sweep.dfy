/** The negotiation sweep: after every round each task is planned, escalated once, or fully done. */
module Sweep {
  import opened PyText
  import opened Handoff
  import opened Ledger
  import opened LedgerSafety

  datatype Post = PlanPost(taskId: string, plan: Envelope) | StallPost(task: OpenTask)

  /** What the failure callback is told: a stalled task, or a drained record. */
  datatype Report =
    | StallReport(taskId: string, initiator: string, missing: nat, first: string)
    | FailureReport(f: Failure)

  datatype Space = Space(ledger: State, posts: seq<Post>, reports: seq<Report>)

  ghost predicate Known(ids: seq<string>, tasks: map<string, Task>) {
    forall id :: id in ids ==> id in tasks && Keyed(id, tasks[id])
  }

  /** `plan_worthy` over the first tasks in dictionary order. */
  function Worthy(ids: seq<string>, tasks: map<string, Task>, planned: set<string>): (r: seq<string>)
    requires Known(ids, tasks)
    ensures forall id :: id in r ==> id in ids
  {
    if ids == [] then []
    else
      var id, front := ids[|ids| - 1], Worthy(ids[..|ids| - 1], tasks, planned);
      if id !in planned && Consolidates(tasks[id]) then front + [id] else front
  }

  /** `unresolved`: the open tasks, each with the asks it misses. */
  function OpenTasks(ids: seq<string>, tasks: map<string, Task>): seq<OpenTask>
    requires Known(ids, tasks)
  {
    if ids == [] then []
    else
      var id, front := ids[|ids| - 1], OpenTasks(ids[..|ids| - 1], tasks);
      if Unresolved(tasks[id]) then front + [AsOpen(tasks[id])] else front
  }

  function AsOpen(task: Task): OpenTask
    requires task.asks.Keys == set a | a in task.notice.asks
  {
    OpenTask(task.notice.taskId, task.notice.origin, Missing(task))
  }

  function NotStalled(ts: seq<OpenTask>, stalled: set<string>): seq<OpenTask>
  {
    if ts == [] then []
    else
      var t, front := ts[|ts| - 1], NotStalled(ts[..|ts| - 1], stalled);
      if t.taskId !in stalled then front + [t] else front
  }

  function PlanPosts(ids: seq<string>, tasks: map<string, Task>): seq<Post>
    requires Known(ids, tasks)
  {
    if ids == [] then []
    else
      var id := ids[|ids| - 1];
      PlanPosts(ids[..|ids| - 1], tasks) + [PlanPost(id, PlanFor(id, tasks[id]))]
  }

  function StallPosts(ts: seq<OpenTask>): seq<Post> {
    seq(|ts|, i requires 0 <= i < |ts| => StallPost(ts[i]))
  }

  function StallReports(ts: seq<OpenTask>): seq<Report> {
    seq(|ts|, i requires 0 <= i < |ts| =>
      StallReport(ts[i].taskId, ts[i].origin, |ts[i].missing|,
                  if ts[i].missing == [] then "" else Clip(ts[i].missing[0], 80)))
  }

  function FailureReports(fs: seq<Failure>): seq<Report> {
    seq(|fs|, i requires 0 <= i < |fs| => FailureReport(fs[i]))
  }

  /** Reports name the task, its initiator and how much is missing, or pass the record on. */
  lemma ReportsSay(ts: seq<OpenTask>, fs: seq<Failure>)
    ensures |StallReports(ts)| == |ts| && |FailureReports(fs)| == |fs|
    ensures forall i :: 0 <= i < |ts| ==>
              var r, t := StallReports(ts)[i], ts[i];
              && r.StallReport? && r.taskId == t.taskId && r.initiator == t.origin && r.missing == |t.missing|
              && (t.missing != [] ==> r.first == Clip(t.missing[0], 80))
    ensures forall i :: 0 <= i < |fs| ==> FailureReports(fs)[i] == FailureReport(fs[i])
  {
  }

  function Elements(ids: seq<string>): set<string> { set id | id in ids }

  lemma PlanStep(ids: seq<string>, i: nat, tasks: map<string, Task>)
    requires i < |ids| && Known(ids, tasks)
    ensures PlanPosts(ids[..i + 1], tasks) == PlanPosts(ids[..i], tasks) +
            [PlanPost(ids[i], PlanFor(ids[i], tasks[ids[i]]))]
    ensures Elements(ids[..i + 1]) == Elements(ids[..i]) + {ids[i]}
  {
    assert ids[..i + 1][..i] == ids[..i] && ids[..i + 1] == ids[..i] + [ids[i]];
  }

  function Ids(ts: seq<OpenTask>): set<string> {
    if ts == [] then {} else Ids(ts[..|ts| - 1]) + {ts[|ts| - 1].taskId}
  }

  /** Some ask of the task is pending or handed on. */
  predicate Waits(task: Task) {
    exists a :: a in task.asks && (task.asks[a].status == Pending || task.asks[a].status == Redirected)
  }

  /** Some ask of the task is accepted, or the owner's to see to. */
  predicate Owed(task: Task) {
    exists a :: a in task.asks && (task.asks[a].status == Accepted || task.asks[a].status == OwnerAttention)
  }

  lemma WaitsIs(task: Task)
    ensures Unresolved(task) <==> Waits(task)
    ensures Consolidates(task) <==> !Waits(task) && Owed(task)
  {
  }

  predicate WorthPlan(id: string, tasks: map<string, Task>, planned: set<string>) {
    id in tasks && id !in planned && !Waits(tasks[id]) && Owed(tasks[id])
  }

  /** The tasks worth a plan, in dictionary order: not planned, nothing waited for, and something owed to the owner. */
  lemma {:induction false} WorthyExactly(ids: seq<string>, tasks: map<string, Task>, planned: set<string>)
    returns (ks: seq<nat>)
    requires Known(ids, tasks)
    ensures var r := Worthy(ids, tasks, planned);
            |ks| == |r| && Ascending(ks) && forall i :: 0 <= i < |ks| ==> ks[i] < |ids| && r[i] == ids[ks[i]]
    ensures forall k: nat :: k in ks <==> k < |ids| && WorthPlan(ids[k], tasks, planned)
  {
    ks := [];
    if ids != [] {
      var n := |ids| - 1;
      ks := WorthyExactly(ids[..n], tasks, planned);
      assert forall i :: 0 <= i < |ks| ==> ks[i] in ks;
      assert ids[n] in ids;
      WaitsIs(tasks[ids[n]]);
      if WorthPlan(ids[n], tasks, planned) { ks := ks + [n]; }
    }
  }

  lemma {:induction false} WorthyMembers(ids: seq<string>, tasks: map<string, Task>, planned: set<string>)
    requires Known(ids, tasks)
    ensures var r := Worthy(ids, tasks, planned);
            && (forall id :: id in r <==> id in ids && id !in planned && Consolidates(tasks[id]))
            && (Unique(ids) ==> Unique(r))
  {
    if ids != [] { WorthyMembers(ids[..|ids| - 1], tasks, planned); }
  }

  lemma {:induction false} OpenMember(ids: seq<string>, tasks: map<string, Task>, id: string)
    requires Known(ids, tasks)
    ensures id in Ids(OpenTasks(ids, tasks)) <==> id in ids && Unresolved(tasks[id])
  {
    if ids != [] {
      var front, last := ids[..|ids| - 1], ids[|ids| - 1];
      LastOrBefore(ids);
      OpenMember(front, tasks, id);
      if Unresolved(tasks[last]) { IdsAppend(OpenTasks(front, tasks), AsOpen(tasks[last])); }
    }
  }

  lemma {:induction false} OpenDistinct(ids: seq<string>, tasks: map<string, Task>)
    requires Known(ids, tasks) && Unique(ids)
    ensures DistinctIds(OpenTasks(ids, tasks))
  {
    if ids != [] {
      var front, last := ids[..|ids| - 1], ids[|ids| - 1];
      OpenDistinct(front, tasks);
      OpenMember(front, tasks, last);
      if Unresolved(tasks[last]) { IdsAppend(OpenTasks(front, tasks), AsOpen(tasks[last])); }
    }
  }

  lemma OpenMembers(ids: seq<string>, tasks: map<string, Task>)
    requires Known(ids, tasks)
    ensures forall id :: id in Ids(OpenTasks(ids, tasks)) <==> id in ids && Unresolved(tasks[id])
    ensures Unique(ids) ==> DistinctIds(OpenTasks(ids, tasks))
  {
    forall id ensures id in Ids(OpenTasks(ids, tasks)) <==> id in ids && Unresolved(tasks[id]) {
      OpenMember(ids, tasks, id);
    }
    if Unique(ids) { OpenDistinct(ids, tasks); }
  }

  lemma {:induction false} NotStalledMembers(ts: seq<OpenTask>, stalled: set<string>)
    ensures Ids(NotStalled(ts, stalled)) == Ids(ts) - stalled
    ensures DistinctIds(ts) ==> DistinctIds(NotStalled(ts, stalled))
  {
    if ts != [] {
      var front, last := ts[..|ts| - 1], ts[|ts| - 1];
      NotStalledMembers(front, stalled);
      if last.taskId !in stalled { IdsAppend(NotStalled(front, stalled), last); }
    }
  }

  /** No two of these share a task id. */
  predicate DistinctIds(ts: seq<OpenTask>) {
    ts == [] || (ts[|ts| - 1].taskId !in Ids(ts[..|ts| - 1]) && DistinctIds(ts[..|ts| - 1]))
  }

  lemma IdsAppend(ts: seq<OpenTask>, t: OpenTask)
    ensures Ids(ts + [t]) == Ids(ts) + {t.taskId}
    ensures DistinctIds(ts + [t]) <==> DistinctIds(ts) && t.taskId !in Ids(ts)
  {
    assert (ts + [t])[..|ts|] == ts;
  }

  /** The plan posts, of which `left` succeed before one raises. */
  function Planned(sp: Space, left: nat): Space
    requires WellFormed(sp.ledger)
  {
    var s := sp.ledger;
    var plans := Cut(Worthy(s.order, s.tasks, s.planned), left);
    sp.(ledger := s.(planned := s.planned + Elements(plans)), posts := sp.posts + PlanPosts(plans, s.tasks))
  }

  function ToEscalate(s: State): seq<OpenTask>
    requires WellFormed(s)
  {
    NotStalled(OpenTasks(s.order, s.tasks), s.stalled)
  }

  /** The stall posts, and once they are all made the drain of the failure buffer. */
  function Escalated(sp: Space, listening: bool, left: nat): Space
    requires WellFormed(sp.ledger)
  {
    var s := sp.ledger;
    var stalls, done := Cut(ToEscalate(s), left), |ToEscalate(s)| <= left;
    var stalled := Space(s.(stalled := s.stalled + Ids(stalls)), sp.posts + StallPosts(stalls),
                         if listening then sp.reports + StallReports(stalls) else sp.reports);
    if done then Drained(stalled, listening) else stalled
  }

  function Drained(sp: Space, listening: bool): Space {
    Space(sp.ledger.(failures := []), sp.posts,
          if listening then sp.reports + FailureReports(sp.ledger.failures) else sp.reports)
  }

  /** What follows the plan posts, `plans` of them wanted: the stall posts, if all plans were made. */
  function Onward(planned: Space, plans: nat, listening: bool, left: nat): Space
    requires WellFormed(planned.ledger)
  {
    if left < plans then planned else Escalated(planned, listening, left - plans)
  }

  /** How many plans a sweep wants to post. */
  function Plans(s: State): nat
    requires WellFormed(s)
  {
    |Worthy(s.order, s.tasks, s.planned)|
  }

  /** One sweep over the messages of a round, whose transport takes `left` posts and raises on the next. */
  function Swept(sp: Space, ms: seq<ChatMessage>, listening: bool, left: nat): Space
    requires WellFormed(FeedAll(sp.ledger, ms))
  {
    var fed := sp.(ledger := FeedAll(sp.ledger, ms));
    Onward(Planned(fed, left), Plans(fed.ledger), listening, left)
  }

  /** Every post of the sweep is made. */
  predicate Completes(sp: Space, ms: seq<ChatMessage>, left: nat)
    requires WellFormed(FeedAll(sp.ledger, ms))
  {
    var fed := FeedAll(sp.ledger, ms);
    Plans(fed) + |ToEscalate(fed)| <= left
  }

  lemma SameToEscalate(fed: Space, left: nat)
    requires WellFormed(fed.ledger) && WellFormed(Planned(fed, left).ledger)
    ensures ToEscalate(Planned(fed, left).ledger) == ToEscalate(fed.ledger)
  {
  }

  lemma SweptShort(sp: Space, ms: seq<ChatMessage>, listening: bool, left: nat, fed: Space, r: Space)
    requires WellFormed(FeedAll(sp.ledger, ms)) && fed == sp.(ledger := FeedAll(sp.ledger, ms))
    requires r == Planned(fed, left) && WellFormed(r.ledger) && left < Plans(fed.ledger)
    ensures r == Swept(sp, ms, listening, left) && !Completes(sp, ms, left)
  {
  }

  lemma SweptOn(sp: Space, ms: seq<ChatMessage>, listening: bool, left: nat, fed: Space, planned: Space, rest: nat,
                r: Space)
    requires WellFormed(FeedAll(sp.ledger, ms)) && fed == sp.(ledger := FeedAll(sp.ledger, ms))
    requires planned == Planned(fed, left) && WellFormed(planned.ledger) && left == Plans(fed.ledger) + rest
    requires r == Escalated(planned, listening, rest)
    ensures r == Swept(sp, ms, listening, left)
    ensures Completes(sp, ms, left) <==> |ToEscalate(planned.ledger)| <= rest
  {
    SameToEscalate(fed, left);
  }

  lemma PlansDone(sp: Space, ids: seq<string>, i: nat, left: nat, posts: seq<Post>, planned: set<string>)
    requires WellFormed(sp.ledger) && ids == Worthy(sp.ledger.order, sp.ledger.tasks, sp.ledger.planned)
    requires PlansMade(sp, ids, i, sp.ledger.tasks, posts, planned) && i <= left && (i == |ids| || i == left)
    ensures Planned(sp, left) == sp.(ledger := sp.ledger.(planned := planned), posts := posts)
  {
    CutAt(ids, left, i);
  }

  // ----- the classes -----

  class TaskLedger {
    var order: seq<string>
    var tasks: map<string, Task>
    var planned: set<string>
    var stalled: set<string>
    var duplicates: seq<string>
    var failures: seq<Failure>

    ghost function Value(): State
      reads this
    {
      State(order, tasks, planned, stalled, duplicates, failures)
    }

    constructor ()
      ensures Value() == EMPTY
    {
      order, tasks, planned, stalled, duplicates, failures := [], map[], {}, {}, [], [];
    }

    method Feed(m: ChatMessage)
      modifies this
      ensures Value() == Ledger.Feed(old(Value()), m)
    {
      if m.isOwner || m.frame.None? { return; }
      var env := m.frame.value;
      if env.origin != m.author {
        if env.kind == Response && env.taskId in tasks {
          var notice := tasks[env.taskId].notice;
          failures := failures + [Failure(env.taskId, notice.origin, m.author, ParseFailed, Mismatch(notice.summary))];
        }
      } else if env.kind == Notice {
        Open(env);
      } else if env.kind == Plan {
        planned := planned + {env.taskId};
      } else if env.taskId in tasks {
        Answer(env);
      }
    }

    method Open(env: Envelope)
      modifies this`order, this`tasks, this`duplicates
      ensures if env.taskId in old(tasks)
              then duplicates == old(duplicates) + [env.taskId] && order == old(order) && tasks == old(tasks)
              else duplicates == old(duplicates) && order == old(order) + [env.taskId] &&
                   tasks == old(tasks)[env.taskId := Task(env, OpenAsks(env))]
    {
      if env.taskId in tasks {
        duplicates := duplicates + [env.taskId];
      } else {
        order := order + [env.taskId];
        tasks := tasks[env.taskId := Task(env, OpenAsks(env))];
      }
    }

    /** The decision loop of a known task's authentic response. */
    method Answer(env: Envelope)
      requires env.taskId in tasks
      modifies this`tasks, this`failures
      ensures var task := old(tasks[env.taskId]);
              && tasks == old(tasks)[env.taskId := task.(asks := AsksAfter(task.asks, env, |env.decisions|))]
              && failures == old(failures) + Untagged(RecordsAfter(task, env, |env.decisions|))
    {
      var task := tasks[env.taskId];
      var asks, i := task.asks, 0;
      ghost var recorded := failures;
      while i < |env.decisions|
        invariant i <= |env.decisions| && tasks == old(tasks)
        invariant asks == AsksAfter(task.asks, env, i)
        invariant failures == recorded + Untagged(RecordsAfter(task, env, i))
      {
        var d := env.decisions[i];
        if d.ask in asks && !(asks[d.ask].status == Redirected && env.origin != asks[d.ask].decider) &&
           asks[d.ask].status in {Pending, Redirected} {
          if d.verdict == Reflexed && d.applied {
            asks := asks[d.ask := AskState(Done, env.origin)];
          } else if d.verdict == Accept {
            asks := asks[d.ask := AskState(Accepted, env.origin)];
          } else if d.verdict == Decline && d.redirect != "" {
            asks := asks[d.ask := AskState(Redirected, d.redirect)];
          } else {
            asks := asks[d.ask := AskState(OwnerAttention, env.origin)];
            if d.verdict == Decline {
              failures := failures + [Failure(env.taskId, task.notice.origin, env.origin, Declined, Clip(d.ask, 80))];
            } else if d.verdict == Reflexed {
              failures := failures + [Failure(env.taskId, task.notice.origin, env.origin, ReflexRefused,
                                              Clip(d.ask, 80))];
            }
          }
        }
        i := i + 1;
      }
      tasks := tasks[env.taskId := task.(asks := asks)];
    }

    method PlanWorthy() returns (out: seq<string>)
      requires WellFormed(Value())
      ensures out == Worthy(order, tasks, planned)
    {
      out := [];
      for i := 0 to |order|
        invariant out == Worthy(order[..i], tasks, planned)
      {
        assert order[..i + 1][..i] == order[..i];
        var id := order[i];
        if id in planned { continue; }
        if AnyIn(tasks[id], {Pending, Redirected}) { continue; }
        if AnyIn(tasks[id], {Accepted, OwnerAttention}) { out := out + [id]; }
      }
      assert order[..|order|] == order;
    }

    method UnresolvedTasks() returns (out: seq<OpenTask>)
      requires WellFormed(Value())
      ensures out == OpenTasks(order, tasks)
    {
      out := [];
      for i := 0 to |order|
        invariant out == OpenTasks(order[..i], tasks)
      {
        assert order[..i + 1][..i] == order[..i];
        var task := tasks[order[i]];
        var missing := Missing(task);
        MissingIffOpen(task);
        if missing != [] { out := out + [OpenTask(order[i], task.notice.origin, missing)]; }
      }
      assert order[..|order|] == order;
    }

    method ComposePlan(id: string) returns (plan: Option<Envelope>)
      requires WellFormed(Value())
      ensures plan.Some? <==> id in tasks && tasks[id].notice.asks != []
      ensures plan.Some? ==> plan.value.Valid() && plan.value == PlanFor(id, tasks[id])
    {
      if id !in tasks { return None; }
      var task := tasks[id];
      OkAt(order, tasks, id);
      var steps := [];
      for i := 0 to |task.notice.asks|
        invariant steps == PlanFor(id, task).steps[..i]
      {
        steps := steps + [StepFor(task.notice.asks[i], task.asks[task.notice.asks[i]])];
      }
      if steps == [] { return None; }
      PlanValid(id, task);
      assert steps == PlanFor(id, task).steps;
      plan := Some(Envelope(Plan, id, task.notice.origin, task.notice.summary, "", [], [], [], steps));
    }

    method MarkPlanned(id: string)
      modifies this`planned
      ensures planned == old(planned) + {id}
    {
      planned := planned + {id};
    }

    method MarkStalled(id: string)
      modifies this`stalled
      ensures stalled == old(stalled) + {id}
    {
      stalled := stalled + {id};
    }

    method ConsumeFailures() returns (out: seq<Failure>)
      modifies this`failures
      ensures out == old(failures) && failures == []
    {
      out, failures := failures, [];
    }
  }

  /** A group space with its ledger; `posts` is the transport, which takes `left` more posts of the sweep underway, and
      `reports` what the callback was handed. */
  class NegotiatedSpace {
    const ledger: TaskLedger
    const listening: bool
    var posts: seq<Post>
    var reports: seq<Report>
    var left: nat

    ghost function Value(): Space
      reads this, ledger
    {
      Space(ledger.Value(), posts, reports)
    }

    constructor (listening: bool)
      ensures Value() == Space(EMPTY, [], []) && this.listening == listening && fresh(ledger)
    {
      ledger := new TaskLedger();
      this.listening := listening;
      posts, reports, left := [], [], 0;
    }

    /** `_sweep`: `ms` is the round's inbound message followed by the replies posted; the transport takes `accepted` of
        its posts, and the next one raises and ends it. */
    method Sweep(ms: seq<ChatMessage>, accepted: nat) returns (ok: bool)
      requires WellFormed(ledger.Value()) && forall m :: m in ms ==> m.Valid()
      modifies this, ledger
      ensures WellFormed(FeedAll(old(ledger.Value()), ms))
      ensures Value() == Swept(old(Value()), ms, listening, accepted) && WellFormed(ledger.Value())
      ensures ok <==> Completes(old(Value()), ms, accepted)
    {
      ghost var sp := Value();
      left := accepted;
      FeedRound(ms);
      ghost var fed := Value();
      ok := PostPlans();
      ghost var planned, rest := Value(), left;
      if ok {
        ok := Escalate();
        SweptOn(sp, ms, listening, accepted, fed, planned, rest, Value());
      } else {
        SweptShort(sp, ms, listening, accepted, fed, planned);
      }
    }

    /** The stall posts, then the drain of the failure buffer. */
    method Escalate() returns (ok: bool)
      requires WellFormed(ledger.Value())
      modifies this, ledger`stalled, ledger`failures
      ensures Value() == Escalated(old(Value()), listening, old(left)) && WellFormed(ledger.Value())
      ensures ok <==> |ToEscalate(old(ledger.Value()))| <= old(left)
    {
      var open := ledger.UnresolvedTasks();
      OpenMembers(ledger.order, ledger.tasks);
      ok := PostStalls(open);
      if ok {
        var pending := ledger.ConsumeFailures();
        if listening { reports := reports + FailureReports(pending); }
      }
    }

    method FeedRound(ms: seq<ChatMessage>)
      requires WellFormed(ledger.Value()) && forall m :: m in ms ==> m.Valid()
      modifies ledger
      ensures ledger.Value() == FeedAll(old(ledger.Value()), ms) && WellFormed(ledger.Value())
    {
      for i := 0 to |ms|
        invariant ledger.Value() == FeedAll(old(ledger.Value()), ms[..i]) && WellFormed(ledger.Value())
      {
        assert ms[..i + 1][..i] == ms[..i];
        FeedWellFormed(ledger.Value(), ms[i]);
        ledger.Feed(ms[i]);
      }
      assert ms[..|ms|] == ms;
    }

    method PostPlans() returns (ok: bool)
      requires WellFormed(ledger.Value())
      modifies this`posts, this`left, ledger`planned
      ensures Value() == Planned(old(Value()), old(left)) && WellFormed(ledger.Value())
      ensures var plans := Plans(old(ledger.Value()));
              (ok <==> plans <= old(left)) && (ok ==> left == old(left) - plans)
    {
      ghost var sp, tasks := Value(), ledger.tasks;
      var ids := ledger.PlanWorthy();
      WorthyMembers(ledger.order, ledger.tasks, ledger.planned);
      var i := 0;
      PlansNone(sp, ids, tasks);
      while i < |ids| && left > 0
        invariant i <= |ids| && left == old(left) - i
        invariant PlansMade(sp, ids, i, tasks, posts, ledger.planned)
      {
        PlansStep(sp, ids, i, tasks, posts, ledger.planned);
        assert ids[i] in ids;
        PostPlan(ids[i]);
        i := i + 1;
      }
      ok := i == |ids|;
      PlansDone(sp, ids, i, old(left), posts, ledger.planned);
    }

    method PostPlan(id: string)
      requires Indexed(ledger.order, ledger.tasks) && id in ledger.tasks && Consolidates(ledger.tasks[id]) && left > 0
      modifies this`posts, this`left, ledger`planned
      ensures posts == old(posts) + [PlanPost(id, PlanFor(id, ledger.tasks[id]))] && left == old(left) - 1
      ensures ledger.planned == old(ledger.planned) + {id}
    {
      HasAsks(ledger.tasks[id]);
      var plan := ledger.ComposePlan(id);
      if plan.Some? {
        posts, left := posts + [PlanPost(id, plan.value)], left - 1;
        ledger.MarkPlanned(id);
      }
    }

    method PostStalls(open: seq<OpenTask>) returns (ok: bool)
      requires DistinctIds(open)
      modifies this, ledger`stalled
      ensures Stopped(open, old(Now([])), Now(Cut(NotStalled(open, old(ledger.stalled)), old(left))), listening, ok)
    {
      ghost var was, done := Now([]), [];
      UnderwayFrom(open, was, listening);
      for i := 0 to |open|
        invariant Underway(open, i, was, Now(done), listening)
      {
        UnderwayStep(open, i, was, Now(done), listening);
        if open[i].taskId in ledger.stalled { continue; }
        if left == 0 {
          UnderwayStops(open, i, was, Now(done), listening);
          return false;
        }
        PostStall(open[i], done);
        done := done + [open[i]];
      }
      UnderwayEnds(open, was, Now(done), listening);
      ok := true;
    }

    ghost function Now(done: seq<OpenTask>): Progress
      reads this, ledger
    {
      Progress(done, ledger.stalled, posts, reports, left)
    }

    /** One stall post, its mark and its report, `done` being the tasks escalated before it. */
    method PostStall(t: OpenTask, ghost done: seq<OpenTask>)
      requires left > 0
      modifies this, ledger`stalled
      ensures Now(done + [t]) == Stalled(old(Now(done)), t, listening)
    {
      posts, left := posts + [StallPost(t)], left - 1;
      ledger.MarkStalled(t.taskId);
      if listening { reports := reports + StallReports([t]); }
    }
  }

  lemma CutAll<T>(s: seq<T>, left: nat)
    requires |s| <= left
    ensures Cut(s, left) == s
  {
  }

  /** The first `i` plans are posted and marked. */
  ghost predicate PlansMade(sp: Space, ids: seq<string>, i: nat, tasks: map<string, Task>, posts: seq<Post>,
                            planned: set<string>)
  {
    match sp case Space(ledger, before, _) =>
      && i <= |ids| && Known(ids, tasks) && posts == before + PlanPosts(ids[..i], tasks)
      && planned == ledger.planned + Elements(ids[..i])
  }

  lemma PlansNone(sp: Space, ids: seq<string>, tasks: map<string, Task>)
    requires Known(ids, tasks)
    ensures PlansMade(sp, ids, 0, tasks, sp.posts, sp.ledger.planned)
  {
    assert ids[..0] == [];
    NoneConcat(sp.posts);
  }

  lemma PlansStep(sp: Space, ids: seq<string>, i: nat, tasks: map<string, Task>, posts: seq<Post>, planned: set<string>)
    requires i < |ids| && PlansMade(sp, ids, i, tasks, posts, planned)
    ensures var post := PlanPost(ids[i], PlanFor(ids[i], tasks[ids[i]]));
            PlansMade(sp, ids, i + 1, tasks, posts + [post], planned + {ids[i]})
  {
    PlanStep(ids, i, tasks);
    Assoc(sp.posts, PlanPosts(ids[..i], tasks), [PlanPost(ids[i], PlanFor(ids[i], tasks[ids[i]]))]);
  }

  /** The escalation underway: the tasks posted by it, and what that left behind. */
  datatype Progress = Progress(done: seq<OpenTask>, stalled: set<string>, posts: seq<Post>, reports: seq<Report>,
                               left: nat)

  /** One more stall post. */
  function Stalled(p: Progress, t: OpenTask, listening: bool): Progress
    requires p.left > 0
  {
    Progress(p.done + [t], p.stalled + {t.taskId}, p.posts + [StallPost(t)],
             if listening then p.reports + StallReports([t]) else p.reports, p.left - 1)
  }

  /** `done` is posted, marked, and reported when someone listens. */
  ghost predicate Done(was: Progress, now: Progress, listening: bool) {
    match now case Progress(done, stalled, posts, reports, left) =>
      && stalled == was.stalled + Ids(done) && posts == was.posts + StallPosts(done) && left == was.left - |done|
      && reports == if listening then was.reports + StallReports(done) else was.reports
  }

  /** After the first `i` open tasks. */
  ghost predicate Underway(open: seq<OpenTask>, i: nat, was: Progress, now: Progress, listening: bool) {
    match now case Progress(done, _, _, _, _) =>
      i <= |open| && done == NotStalled(open[..i], was.stalled) && Done(was, now, listening)
  }

  /** At the end, or where the transport refused the next post. */
  ghost predicate Stopped(open: seq<OpenTask>, was: Progress, now: Progress, listening: bool, ok: bool) {
    match now case Progress(done, _, _, _, _) =>
      && done == Cut(NotStalled(open, was.stalled), was.left) && Done(was, now, listening)
      && (ok <==> |NotStalled(open, was.stalled)| <= was.left)
  }

  lemma UnderwayFrom(open: seq<OpenTask>, was: Progress, listening: bool)
    requires was.done == []
    ensures Underway(open, 0, was, was, listening)
  {
    NoneConcat(was.posts);
    NoneConcat(was.reports);
    assert open[..0] == [];
  }

  lemma DoneMore(was: Progress, now: Progress, t: OpenTask, listening: bool)
    requires Done(was, now, listening) && now.left > 0
    ensures Done(was, Stalled(now, t, listening), listening)
  {
    IdsAppend(now.done, t);
    StallAppend(now.done, t);
    Assoc(was.posts, StallPosts(now.done), [StallPost(t)]);
    Assoc(was.reports, StallReports(now.done), StallReports([t]));
  }

  lemma UnderwayStep(open: seq<OpenTask>, i: nat, was: Progress, now: Progress, listening: bool)
    requires i < |open| && DistinctIds(open) && Underway(open, i, was, now, listening)
    ensures if open[i].taskId in now.stalled then Underway(open, i + 1, was, now, listening)
            else now.left > 0 ==> Underway(open, i + 1, was, Stalled(now, open[i], listening), listening)
  {
    DistinctPrefix(open, i + 1);
    StallStep(open, i, was.stalled);
    if now.left > 0 { DoneMore(was, now, open[i], listening); }
  }

  lemma UnderwayStops(open: seq<OpenTask>, i: nat, was: Progress, now: Progress, listening: bool)
    requires i < |open| && Underway(open, i, was, now, listening) && open[i].taskId !in now.stalled && now.left == 0
    ensures now.done == Cut(NotStalled(open, was.stalled), was.left) && Stopped(open, was, now, listening, false)
  {
    StallsStopped(open, i, was.stalled);
  }

  lemma UnderwayEnds(open: seq<OpenTask>, was: Progress, now: Progress, listening: bool)
    requires Underway(open, |open|, was, now, listening)
    ensures now.done == Cut(NotStalled(open, was.stalled), was.left) && Stopped(open, was, now, listening, true)
  {
    assert open[..|open|] == open;
    CutAll(now.done, was.left);
  }

  lemma CutAt<T>(s: seq<T>, left: nat, i: nat)
    requires i <= |s| && i <= left && (i == |s| || i == left)
    ensures s[..i] == Cut(s, left)
  {
  }

  lemma {:induction false} NotStalledPrefix(open: seq<OpenTask>, i: nat, stalled: set<string>)
    requires i <= |open|
    ensures var done, all := NotStalled(open[..i], stalled), NotStalled(open, stalled);
            |done| <= |all| && all[..|done|] == done
  {
    if i == |open| {
      assert open[..i] == open;
    } else {
      var front := open[..|open| - 1];
      NotStalledPrefix(front, i, stalled);
      assert front[..i] == open[..i];
    }
  }

  /** The transport refuses the next stall post: what was made is the part that was allowed. */
  lemma StallsStopped(open: seq<OpenTask>, i: nat, stalled: set<string>)
    requires i < |open| && open[i].taskId !in stalled
    ensures var done, all := NotStalled(open[..i], stalled), NotStalled(open, stalled);
            |done| < |all| && Cut(all, |done|) == done
  {
    NotStalledPrefix(open, i, stalled);
    NotStalledPrefix(open, i + 1, stalled);
    assert open[..i + 1][..i] == open[..i];
  }

  lemma StallAppend(ts: seq<OpenTask>, t: OpenTask)
    ensures StallPosts(ts + [t]) == StallPosts(ts) + [StallPost(t)]
    ensures StallReports(ts + [t]) == StallReports(ts) + StallReports([t])
  {
  }

  lemma StallStep(open: seq<OpenTask>, i: nat, before: set<string>)
    requires i < |open| && DistinctIds(open[..i + 1])
    ensures var done, next := NotStalled(open[..i], before), NotStalled(open[..i + 1], before);
            && (open[i].taskId in before + Ids(done) <==> open[i].taskId in before)
            && if open[i].taskId in before then next == done
               else next == done + [open[i]] && Ids(next) == Ids(done) + {open[i].taskId}
  {
    assert open[..i + 1][..i] == open[..i];
    NotStalledMembers(open[..i], before);
    IdsAppend(NotStalled(open[..i], before), open[i]);
  }

  lemma {:induction false} DistinctPrefix(ts: seq<OpenTask>, i: nat)
    requires i <= |ts| && DistinctIds(ts)
    ensures DistinctIds(ts[..i])
  {
    if i < |ts| {
      DistinctPrefix(ts[..|ts| - 1], i);
      assert ts[..|ts| - 1][..i] == ts[..i];
    } else {
      assert ts[..i] == ts;
    }
  }

  lemma HasAsks(task: Task)
    requires Keyed(task.notice.taskId, task) && Consolidates(task)
    ensures task.notice.asks != []
  {
    var a :| a in task.asks;
    assert a in task.notice.asks;
  }

  lemma MissingIffOpen(task: Task)
    requires task.asks.Keys == set a | a in task.notice.asks
    ensures Missing(task) != [] <==> Unresolved(task)
  {
    if Unresolved(task) {
      var a :| a in task.asks && task.asks[a].status in {Pending, Redirected};
      assert a in Missing(task);
    }
    if Missing(task) != [] {
      var a := Missing(task)[0];
      assert a in Missing(task);
    }
  }
}
