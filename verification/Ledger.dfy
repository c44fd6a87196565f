/** The ledger that follows each handed-off ask to an answer, and the sweep that posts plans and escalations. */
module Ledger {
  import opened PyText
  import opened Handoff

  /** A message as the ledger reads it: `frame` is what parsing its text gave. */
  datatype ChatMessage = ChatMessage(author: string, isOwner: bool, frame: Option<Envelope>) {
    predicate Valid() { frame.Some? ==> frame.value.Valid() }

    /** An agent's own frame: not the owner's prose, and not forged or echoed. */
    predicate Authentic() { !isOwner && frame.Some? && frame.value.origin == author }
  }

  datatype Status = Pending | Redirected | Done | Accepted | OwnerAttention

  datatype AskState = AskState(status: Status, decider: string) {
    predicate Open() { status in {Pending, Redirected} }
  }

  type Asks = map<string, AskState>

  datatype Task = Task(notice: Envelope, asks: Asks)

  const MAX_QUOTED := 60

  datatype Reason = Declined | ParseFailed | ReflexRefused

  datatype Failure = Failure(taskId: string, initiator: string, counterparty: string, reason: Reason, summary: string)

  /** `order` is the insertion order of the task dictionary. */
  datatype State = State(order: seq<string>, tasks: map<string, Task>, planned: set<string>, stalled: set<string>,
                         duplicates: seq<string>, failures: seq<Failure>)

  const EMPTY := State([], map[], {}, {}, [], [])

  // ----- feeding -----

  /** Whether decision `d` of a response by `origin` moves an ask in state `st`. */
  predicate Moves(st: AskState, origin: string) {
    st.status == Pending || (st.status == Redirected && origin == st.decider)
  }

  function Answered(d: Decision, origin: string): AskState {
    if d.verdict == Reflexed && d.applied then AskState(Done, origin)
    else if d.verdict == Accept then AskState(Accepted, origin)
    else if d.verdict == Decline && d.redirect != "" then AskState(Redirected, d.redirect)
    else AskState(OwnerAttention, origin)
  }

  /** The record a decision leaves behind when it lands on the owner: declines and refused reflexes do. */
  function Recorded(notice: Envelope, response: Envelope, d: Decision): seq<Failure> {
    if Answered(d, response.origin).status != OwnerAttention then []
    else if d.verdict == Decline then
      [Failure(response.taskId, notice.origin, response.origin, Declined, Clip(d.ask, 80))]
    else if d.verdict == Reflexed then
      [Failure(response.taskId, notice.origin, response.origin, ReflexRefused, Clip(d.ask, 80))]
    else []
  }

  predicate Lands(asks: Asks, response: Envelope, d: Decision) {
    d.ask in asks && Moves(asks[d.ask], response.origin)
  }

  /** The asks after the first `n` decisions of a response. */
  function AsksAfter(asks: Asks, response: Envelope, n: nat): (r: Asks)
    requires n <= |response.decisions|
    ensures r.Keys == asks.Keys
  {
    if n == 0 then asks
    else
      var before, d := AsksAfter(asks, response, n - 1), response.decisions[n - 1];
      if Lands(before, response, d) then before[d.ask := Answered(d, response.origin)] else before
  }

  /** The records of the first `n` decisions, each with the ask it is about. */
  function RecordsAfter(task: Task, response: Envelope, n: nat): seq<(string, Failure)>
    requires n <= |response.decisions|
  {
    if n == 0 then []
    else
      var d := response.decisions[n - 1];
      RecordsAfter(task, response, n - 1) +
      if Lands(AsksAfter(task.asks, response, n - 1), response, d)
      then Tagged(d.ask, Recorded(task.notice, response, d)) else []
  }

  function Tagged(ask: string, records: seq<Failure>): seq<(string, Failure)> {
    seq(|records|, i requires 0 <= i < |records| => (ask, records[i]))
  }

  function Untagged(records: seq<(string, Failure)>): seq<Failure> {
    seq(|records|, i requires 0 <= i < |records| => records[i].1)
  }

  function OpenAsks(notice: Envelope): Asks { map a | a in notice.asks :: AskState(Pending, "") }

  /** What one message does to the ledger, without the records it leaves. */
  function Fed(s: State, m: ChatMessage): State {
    if !m.Authentic() then s
    else
      var env := m.frame.value;
      match env.kind
      case Notice =>
        if env.taskId in s.tasks then s.(duplicates := s.duplicates + [env.taskId])
        else s.(order := s.order + [env.taskId], tasks := s.tasks[env.taskId := Task(env, OpenAsks(env))])
      case Plan => s.(planned := s.planned + {env.taskId})
      case Response =>
        if env.taskId !in s.tasks then s
        else var task := s.tasks[env.taskId];
          s.(tasks := s.tasks[env.taskId := task.(asks := AsksAfter(task.asks, env, |env.decisions|))])
  }

  /** What a forged response's record says of the notice. */
  function Mismatch(summary: string): string {
    "origin mismatch " + ("on response to " + Clip(Repr(summary), MAX_QUOTED))
  }

  /** The (ask, record) pairs one message generates; a forged response has no ask of its own. */
  function Records(s: State, m: ChatMessage): seq<(string, Failure)> {
    if m.isOwner || m.frame.None? || m.frame.value.kind != Response || m.frame.value.taskId !in s.tasks then []
    else
      var env, task := m.frame.value, s.tasks[m.frame.value.taskId];
      if env.origin == m.author then RecordsAfter(task, env, |env.decisions|)
      else [("", Failure(env.taskId, task.notice.origin, m.author, ParseFailed, Mismatch(task.notice.summary)))]
  }

  function Feed(s: State, m: ChatMessage): State {
    var r := Fed(s, m);
    r.(failures := r.failures + Untagged(Records(s, m)))
  }

  function FeedAll(s: State, ms: seq<ChatMessage>): State {
    if ms == [] then s else Feed(FeedAll(s, ms[..|ms| - 1]), ms[|ms| - 1])
  }

  // ----- reading -----

  datatype OpenTask = OpenTask(taskId: string, origin: string, missing: seq<string>)

  predicate AnyIn(task: Task, statuses: set<Status>) {
    exists a :: a in task.asks && task.asks[a].status in statuses
  }

  /** The asks of a task still open, in the order its notice first named them. */
  function Missing(task: Task): seq<string>
    requires task.asks.Keys == set a | a in task.notice.asks
  {
    Filter(Distinct(task.notice.asks), a => a in task.asks && task.asks[a].Open())
  }

  predicate Unresolved(task: Task) { AnyIn(task, {Pending, Redirected}) }

  /** Resolved, with something for the owner. */
  predicate Consolidates(task: Task) { !Unresolved(task) && AnyIn(task, {Accepted, OwnerAttention}) }

  function StepFor(ask: string, st: AskState): Step {
    if st.status == Done then Step(st.decider, ask, StepDone)
    else if st.status in {Accepted, Redirected} then Step(st.decider, ask, NeedsApproval)
    else Step("", ask, Unassigned)
  }

  /** `compose_plan` for a known task with asks. */
  function PlanFor(id: string, task: Task): Envelope
    requires forall a :: a in task.notice.asks ==> a in task.asks
  {
    var n := task.notice;
    Envelope(Plan, id, n.origin, n.summary, "", [], [], [],
             seq(|n.asks|, i requires 0 <= i < |n.asks| => StepFor(n.asks[i], task.asks[n.asks[i]])))
  }

  // ----- invariant -----

  predicate Keyed(id: string, task: Task) {
    task.notice.taskId == id && task.asks.Keys == set a | a in task.notice.asks
  }

  predicate TaskOk(id: string, task: Task) {
    match task case Task(notice, asks) =>
      && notice.taskId == id && asks.Keys == (set a | a in notice.asks) && notice.Valid() && notice.kind == Notice
      && forall a :: a in asks ==> asks[a].status in {Redirected, Done, Accepted} ==> SafeSlug(asks[a].decider)
  }

  ghost predicate WellFormed(s: State) {
    match s case State(order, tasks, _, _, _, _) => Indexed(order, tasks)
  }

  ghost predicate Indexed(order: seq<string>, tasks: map<string, Task>) {
    && Unique(order) && (forall id :: id in order <==> id in tasks)
    && (forall id :: id in tasks ==> Keyed(id, tasks[id])) && AllOk(order, tasks)
  }

  predicate AllOk(ids: seq<string>, tasks: map<string, Task>)
    requires forall id :: id in ids ==> id in tasks
  {
    ids == [] || (TaskOk(ids[|ids| - 1], tasks[ids[|ids| - 1]]) && AllOk(ids[..|ids| - 1], tasks))
  }

  lemma {:induction false} OkAt(ids: seq<string>, tasks: map<string, Task>, id: string)
    requires (forall id :: id in ids ==> id in tasks) && AllOk(ids, tasks) && id in ids
    ensures TaskOk(id, tasks[id])
  {
    if id != ids[|ids| - 1] { OkAt(ids[..|ids| - 1], tasks, id); }
  }

  lemma {:induction false} OkUpdated(ids: seq<string>, tasks: map<string, Task>, id: string, task: Task)
    requires (forall x :: x in ids ==> x == id || x in tasks) && TaskOk(id, task)
    requires forall x :: x in ids && x != id ==> TaskOk(x, tasks[x])
    ensures AllOk(ids, tasks[id := task])
  {
    if ids != [] { OkUpdated(ids[..|ids| - 1], tasks, id, task); }
  }

  lemma {:induction false} AsksAfterOk(id: string, task: Task, response: Envelope, n: nat)
    requires TaskOk(id, task) && response.Valid() && n <= |response.decisions|
    ensures TaskOk(id, task.(asks := AsksAfter(task.asks, response, n)))
  {
    if n > 0 {
      AsksAfterOk(id, task, response, n - 1);
      assert response.decisions[n - 1] in response.decisions;
    }
  }

  lemma AllTasksOk(order: seq<string>, tasks: map<string, Task>)
    requires Indexed(order, tasks)
    ensures forall x :: x in order ==> TaskOk(x, tasks[x])
  {
    forall x | x in order ensures TaskOk(x, tasks[x]) { OkAt(order, tasks, x); }
  }

  lemma NoticeAdded(order: seq<string>, tasks: map<string, Task>, env: Envelope)
    requires Indexed(order, tasks) && env.Valid() && env.kind == Notice && env.taskId !in tasks
    ensures Indexed(order + [env.taskId], tasks[env.taskId := Task(env, OpenAsks(env))])
  {
    AllTasksOk(order, tasks);
    OkUpdated(order + [env.taskId], tasks, env.taskId, Task(env, OpenAsks(env)));
  }

  lemma AsksUpdated(order: seq<string>, tasks: map<string, Task>, id: string, task: Task)
    requires Indexed(order, tasks) && id in tasks && TaskOk(id, task)
    ensures Indexed(order, tasks[id := task])
  {
    AllTasksOk(order, tasks);
    OkUpdated(order, tasks, id, task);
  }

  lemma FeedWellFormed(s: State, m: ChatMessage)
    requires WellFormed(s) && m.Valid()
    ensures WellFormed(Feed(s, m))
  {
    if m.Authentic() {
      var env := m.frame.value;
      if env.kind == Response && env.taskId in s.tasks {
        OkAt(s.order, s.tasks, env.taskId);
        AsksAfterOk(env.taskId, s.tasks[env.taskId], env, |env.decisions|);
        AsksUpdated(s.order, s.tasks, env.taskId, Fed(s, m).tasks[env.taskId]);
      } else if env.kind == Notice && env.taskId !in s.tasks {
        NoticeAdded(s.order, s.tasks, env);
      }
    }
  }

  /** A plan always composes: one step per notice ask, in order, inside every limit. */
  lemma PlanValid(id: string, task: Task)
    requires TaskOk(id, task) && task.notice.asks != []
    ensures var plan := PlanFor(id, task);
            && plan.Valid() && plan.kind == Plan && plan.taskId == id && plan.origin == task.notice.origin
            && |plan.steps| == |task.notice.asks|
            && forall i :: 0 <= i < |plan.steps| ==> plan.steps[i].action == task.notice.asks[i]
  {
    var plan := PlanFor(id, task);
    forall s | s in plan.steps ensures s.Valid() {
      var i :| 0 <= i < |plan.steps| && plan.steps[i] == s;
      assert task.notice.asks[i] in task.notice.asks;
    }
  }
}
