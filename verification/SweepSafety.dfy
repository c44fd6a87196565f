/** What the sweep guarantees after every round, and over the lifetime of a space. */
module SweepSafety {
  import opened PyText
  import opened Handoff
  import opened Ledger
  import opened LedgerSafety
  import opened Sweep

  /** After a sweep every task is planned, escalated, or has every ask done. */
  ghost predicate Covered(s: State) {
    forall id :: id in s.tasks ==>
      id in s.planned || id in s.stalled || forall a :: a in s.tasks[id].asks ==> s.tasks[id].asks[a].status == Done
  }

  lemma PlanningMarks(sp: Space, left: nat)
    requires WellFormed(sp.ledger) && |Worthy(sp.ledger.order, sp.ledger.tasks, sp.ledger.planned)| <= left
    ensures var s, s' := sp.ledger, Planned(sp, left).ledger;
            && s'.tasks == s.tasks && s'.order == s.order && s'.stalled == s.stalled
            && forall id :: id in s.tasks && Consolidates(s.tasks[id]) ==> id in s'.planned
  {
    var s := sp.ledger;
    CutAll(Worthy(s.order, s.tasks, s.planned), left);
    WorthyMembers(s.order, s.tasks, s.planned);
  }

  lemma EscalatingMarks(sp: Space, listening: bool, left: nat)
    requires WellFormed(sp.ledger) && |ToEscalate(sp.ledger)| <= left
    ensures var s, s' := sp.ledger, Escalated(sp, listening, left).ledger;
            && s'.tasks == s.tasks && s'.planned == s.planned
            && forall id :: id in s.tasks && Unresolved(s.tasks[id]) ==> id in s'.stalled
  {
    var s := sp.ledger;
    CutAll(ToEscalate(s), left);
    OpenMembers(s.order, s.tasks);
    NotStalledMembers(OpenTasks(s.order, s.tasks), s.stalled);
  }

  /** A sweep whose posts are all made leaves every task covered. */
  lemma SweepCovers(sp: Space, ms: seq<ChatMessage>, listening: bool, left: nat)
    requires WellFormed(sp.ledger) && forall m :: m in ms ==> m.Valid()
    ensures WellFormed(FeedAll(sp.ledger, ms))
    ensures Completes(sp, ms, left) ==> Covered(Swept(sp, ms, listening, left).ledger)
  {
    FeedAllWellFormed(sp.ledger, ms);
    var fed := sp.(ledger := FeedAll(sp.ledger, ms));
    if Completes(sp, ms, left) {
      PlanningMarks(fed, left);
      var plans := |Worthy(fed.ledger.order, fed.ledger.tasks, fed.ledger.planned)|;
      EscalatingMarks(Planned(fed, left), listening, left - plans);
    }
  }

  /** `q` may follow `p`: no second plan or stall for a task, and no stall once the sweep has planned it. */
  predicate MayFollow(p: Post, q: Post) {
    match (p, q)
    case (PlanPost(id, _), PlanPost(id', _)) => id != id'
    case (PlanPost(id, _), StallPost(t)) => id != t.taskId
    case (StallPost(t), StallPost(t')) => t.taskId != t'.taskId
    case (StallPost(_), PlanPost(_, _)) => true
  }

  ghost predicate Orderly(posts: seq<Post>) {
    forall i, j :: 0 <= i < j < |posts| ==> MayFollow(posts[i], posts[j])
  }

  lemma OrderlyConcat(a: seq<Post>, b: seq<Post>)
    requires Orderly(a) && Orderly(b) && forall p, q :: p in a && q in b ==> MayFollow(p, q)
    ensures Orderly(a + b)
  {
    forall i, j | 0 <= i < j < |a + b| ensures MayFollow((a + b)[i], (a + b)[j]) {
      if i < |a| && j >= |a| { assert (a + b)[i] in a && (a + b)[j] in b; }
    }
  }

  /** A plan's step says what became of its ask. */
  predicate StepSays(step: Step, ask: string, st: AskState) {
    step.action == ask &&
    match st.status
    case Done => step.status == StepDone && step.owner == st.decider
    case Accepted => step.status == NeedsApproval && step.owner == st.decider
    case OwnerAttention => step.status == Unassigned && step.owner == ""
    case _ => false
  }

  /** A plan reports a task none of whose asks is waited for and some of which the owner is owed: every ask, in order,
      as it was answered. */
  predicate PlanSays(plan: Envelope, task: Task) {
    && !Waits(task) && Owed(task) && plan.Valid() && plan.kind == Plan && plan.taskId == task.notice.taskId
    && plan.origin == task.notice.origin && plan.summary == task.notice.summary
    && |plan.steps| == |task.notice.asks|
    && forall i :: 0 <= i < |plan.steps| ==>
         task.notice.asks[i] in task.asks && StepSays(plan.steps[i], task.notice.asks[i],
                                                      task.asks[task.notice.asks[i]])
  }

  lemma PlanForSays(id: string, task: Task)
    requires TaskOk(id, task) && Consolidates(task)
    ensures PlanSays(PlanFor(id, task), task)
  {
    HasAsks(task);
    PlanValid(id, task);
    WaitsIs(task);
    forall i | 0 <= i < |task.notice.asks|
      ensures task.notice.asks[i] in task.asks &&
              StepSays(PlanFor(id, task).steps[i], task.notice.asks[i], task.asks[task.notice.asks[i]])
    {
      assert task.notice.asks[i] in task.notice.asks;
    }
  }

  /** What the ledger remembers of a post already made; a plan keeps saying what became of its task. */
  predicate Accounted(p: Post, s: State) {
    match p
    case PlanPost(id, plan) => id in s.planned && id in s.tasks && plan.taskId == id && PlanSays(plan, s.tasks[id])
    case StallPost(t) => t.taskId in s.stalled
  }

  ghost predicate SpaceOk(sp: Space) {
    match sp case Space(ledger, posts, _) => WellFormed(ledger) && SpaceOkPosts(ledger, posts)
  }

  ghost predicate SpaceOkPosts(s: State, posts: seq<Post>) {
    Orderly(posts) && forall p :: p in posts ==> Accounted(p, s)
  }

  lemma {:induction false} PlanPostsAre(ids: seq<string>, s: State)
    requires Known(ids, s.tasks) && Unique(ids)
    requires forall id :: id in ids ==> Consolidates(s.tasks[id]) && TaskOk(id, s.tasks[id])
    ensures var r := PlanPosts(ids, s.tasks);
            && Orderly(r)
            && forall p :: p in r ==> p.PlanPost? && p.taskId in ids && p.plan.taskId == p.taskId &&
                                      PlanSays(p.plan, s.tasks[p.taskId])
  {
    if ids != [] {
      var front, last := ids[..|ids| - 1], ids[|ids| - 1];
      PlanPostsAre(front, s);
      PlanForSays(last, s.tasks[last]);
      OrderlyConcat(PlanPosts(front, s.tasks), [PlanPost(last, PlanFor(last, s.tasks[last]))]);
    }
  }

  lemma {:induction false} StallPostsAre(ts: seq<OpenTask>)
    requires DistinctIds(ts)
    ensures Orderly(StallPosts(ts)) && forall p :: p in StallPosts(ts) ==> p.StallPost? && p.task.taskId in Ids(ts)
  {
    if ts != [] {
      var front, last := ts[..|ts| - 1], ts[|ts| - 1];
      StallPostsAre(front);
      assert StallPosts(ts) == StallPosts(front) + [StallPost(last)];
      OrderlyConcat(StallPosts(front), [StallPost(last)]);
    }
  }

  /** A resolved task stays as it was answered, whatever is fed. */
  lemma ResolvedStays(s: State, ms: seq<ChatMessage>, id: string)
    requires WellFormed(s) && (forall m :: m in ms ==> m.Valid()) && id in s.tasks && !Waits(s.tasks[id])
    ensures var s' := FeedAll(s, ms); id in s'.tasks && s'.tasks[id] == s.tasks[id]
  {
    FeedAllWellFormed(s, ms);
    assert Keyed(id, s.tasks[id]);
    forall a | a in s.tasks[id].notice.asks
      ensures id in FeedAll(s, ms).tasks && FeedAll(s, ms).tasks[id].notice == s.tasks[id].notice &&
              a in FeedAll(s, ms).tasks[id].asks && FeedAll(s, ms).tasks[id].asks[a] == s.tasks[id].asks[a]
    {
      AnswersAreFinal(s, ms, id, a);
    }
    TaskStays(s, ms, id);
  }

  lemma {:induction false} TaskStays(s: State, ms: seq<ChatMessage>, id: string)
    requires id in s.tasks
    ensures var s' := FeedAll(s, ms);
            && id in s'.tasks && s'.tasks[id].notice == s.tasks[id].notice
            && s'.tasks[id].asks.Keys == s.tasks[id].asks.Keys
  {
    if ms != [] { TaskStays(s, ms[..|ms| - 1], id); }
  }

  lemma {:induction false} MarksGrow(s: State, ms: seq<ChatMessage>)
    ensures s.planned <= FeedAll(s, ms).planned && s.stalled == FeedAll(s, ms).stalled
  {
    if ms != [] { MarksGrow(s, ms[..|ms| - 1]); }
  }

  lemma FeedAccounts(s: State, ms: seq<ChatMessage>, p: Post)
    requires WellFormed(s) && (forall m :: m in ms ==> m.Valid()) && Accounted(p, s)
    ensures Accounted(p, FeedAll(s, ms))
  {
    MarksGrow(s, ms);
    if p.PlanPost? { ResolvedStays(s, ms, p.taskId); }
  }

  lemma UniqueCut<T>(s: seq<T>, left: nat)
    requires Unique(s)
    ensures Unique(Cut(s, left)) && forall x :: x in Cut(s, left) ==> x in s
  {
  }

  lemma NewPlansOk(sp: Space, left: nat)
    requires SpaceOk(sp)
    ensures SpaceOk(Planned(sp, left))
  {
    var s, plans := sp.ledger, Cut(Worthy(sp.ledger.order, sp.ledger.tasks, sp.ledger.planned), left);
    WorthyMembers(s.order, s.tasks, s.planned);
    UniqueCut(Worthy(s.order, s.tasks, s.planned), left);
    AllTasksOk(s.order, s.tasks);
    PlanPostsAre(plans, s);
    OrderlyConcat(sp.posts, PlanPosts(plans, s.tasks));
  }

  lemma {:induction false} IdsOfPart(ts: seq<OpenTask>, i: nat)
    requires i <= |ts|
    ensures Ids(ts[..i]) <= Ids(ts)
  {
    if i < |ts| {
      IdsOfPart(ts[..|ts| - 1], i);
      assert ts[..|ts| - 1][..i] == ts[..i];
    } else {
      assert ts[..i] == ts;
    }
  }

  lemma StallsCut(s: State, left: nat)
    requires WellFormed(s)
    ensures var stalls := Cut(ToEscalate(s), left);
            DistinctIds(stalls) && forall id :: id in Ids(stalls) ==>
              id in s.tasks && Unresolved(s.tasks[id]) && id !in s.stalled
  {
    var all := ToEscalate(s);
    OpenMembers(s.order, s.tasks);
    NotStalledMembers(OpenTasks(s.order, s.tasks), s.stalled);
    if left < |all| {
      DistinctPrefix(all, left);
      IdsOfPart(all, left);
    }
  }

  lemma StallMayFollow(p: Post, q: Post, s: State)
    requires Accounted(p, s) && q.StallPost? && q.task.taskId in s.tasks && Unresolved(s.tasks[q.task.taskId]) &&
             q.task.taskId !in s.stalled
    ensures MayFollow(p, q)
  {
    WaitsIs(s.tasks[q.task.taskId]);
  }

  lemma AccountedMore(p: Post, s: State, stalled: set<string>, failures: seq<Failure>)
    requires Accounted(p, s) || (p.StallPost? && p.task.taskId in stalled)
    ensures Accounted(p, s.(stalled := s.stalled + stalled, failures := failures))
  {
  }

  lemma NewStallsOk(sp: Space, listening: bool, left: nat)
    requires SpaceOk(sp)
    ensures SpaceOk(Escalated(sp, listening, left))
  {
    var s, stalls := sp.ledger, Cut(ToEscalate(sp.ledger), left);
    var r := Escalated(sp, listening, left);
    StallsCut(s, left);
    StallPostsAre(stalls);
    forall p, q | p in sp.posts && q in StallPosts(stalls)
      ensures MayFollow(p, q)
    {
      StallMayFollow(p, q, s);
    }
    OrderlyConcat(sp.posts, StallPosts(stalls));
    forall p | p in r.posts
      ensures Accounted(p, r.ledger)
    {
      AccountedMore(p, s, Ids(stalls), r.ledger.failures);
    }
  }

  lemma FedKeeps(sp: Space, ms: seq<ChatMessage>)
    requires SpaceOk(sp) && forall m :: m in ms ==> m.Valid()
    ensures SpaceOk(sp.(ledger := FeedAll(sp.ledger, ms)))
  {
    FeedAllWellFormed(sp.ledger, ms);
    forall p | p in sp.posts ensures Accounted(p, FeedAll(sp.ledger, ms)) { FeedAccounts(sp.ledger, ms, p); }
  }

  lemma SweepKeeps(sp: Space, ms: seq<ChatMessage>, listening: bool, left: nat)
    requires SpaceOk(sp) && forall m :: m in ms ==> m.Valid()
    ensures WellFormed(FeedAll(sp.ledger, ms)) && SpaceOk(Swept(sp, ms, listening, left))
  {
    FedKeeps(sp, ms);
    var fed := sp.(ledger := FeedAll(sp.ledger, ms));
    var plans := |Worthy(fed.ledger.order, fed.ledger.tasks, fed.ledger.planned)|;
    NewPlansOk(fed, left);
    if left >= plans { NewStallsOk(Planned(fed, left), listening, left - plans); }
  }

  /** A round: its messages, and how many posts its sweep's transport takes. */
  datatype Round = Round(messages: seq<ChatMessage>, left: nat)

  ghost predicate AllValid(rounds: seq<Round>) { forall r, m :: r in rounds && m in r.messages ==> m.Valid() }

  /** A space after any number of rounds. */
  ghost function Rounds(sp: Space, rounds: seq<Round>, listening: bool): (r: Space)
    requires WellFormed(sp.ledger) && AllValid(rounds)
    ensures WellFormed(r.ledger)
  {
    if rounds == [] then sp
    else
      var before, last := Rounds(sp, rounds[..|rounds| - 1], listening), rounds[|rounds| - 1];
      FeedAllWellFormed(before.ledger, last.messages);
      Swept(before, last.messages, listening, last.left)
  }

  /** Over a space's lifetime, posts that raise included: at most one plan post and one stall post per task, every plan
      valid, and no stall after the sweep planned the task; and after every sweep whose posts were all made, every task
      is covered. */
  lemma {:induction false} SpaceLifetime(rounds: seq<Round>, listening: bool)
    requires AllValid(rounds)
    ensures WellFormed(EMPTY)
    ensures SpaceOk(Rounds(Space(EMPTY, [], []), rounds, listening))
    ensures rounds != [] ==>
              var before, last := Rounds(Space(EMPTY, [], []), rounds[..|rounds| - 1], listening), rounds[|rounds| - 1];
              WellFormed(FeedAll(before.ledger, last.messages)) &&
              (Completes(before, last.messages, last.left) ==>
                 Covered(Rounds(Space(EMPTY, [], []), rounds, listening).ledger))
  {
    if rounds != [] {
      SpaceLifetime(rounds[..|rounds| - 1], listening);
      var before, last := Rounds(Space(EMPTY, [], []), rounds[..|rounds| - 1], listening), rounds[|rounds| - 1];
      SweepKeeps(before, last.messages, listening, last.left);
      SweepCovers(before, last.messages, listening, last.left);
    }
  }

  // ----- what a completed sweep posts -----

  ghost predicate PlanAmong(posts: seq<Post>, id: string, task: Task) {
    exists p :: p in posts && p.PlanPost? && p.taskId == id && PlanSays(p.plan, task)
  }

  ghost predicate StallAmong(posts: seq<Post>, id: string, task: Task) {
    exists p :: p in posts && p.StallPost? && p.task.taskId == id && StallSays(p.task, task)
  }

  /** A stall post names the task, its initiator and exactly the asks waited for. */
  ghost predicate StallSays(t: OpenTask, task: Task) {
    && t.taskId == task.notice.taskId && t.origin == task.notice.origin
    && forall a :: a in t.missing <==>
         a in task.asks && (task.asks[a].status == Pending || task.asks[a].status == Redirected)
  }

  lemma {:induction false} PlanPostOf(ids: seq<string>, tasks: map<string, Task>, id: string)
    requires Known(ids, tasks) && id in ids
    ensures PlanPost(id, PlanFor(id, tasks[id])) in PlanPosts(ids, tasks)
  {
    if id != ids[|ids| - 1] {
      LastOrBefore(ids);
      PlanPostOf(ids[..|ids| - 1], tasks, id);
    }
  }

  lemma {:induction false} StallTaskOf(ids: seq<string>, tasks: map<string, Task>, stalled: set<string>, id: string)
    requires Known(ids, tasks) && id in ids && Unresolved(tasks[id]) && id !in stalled
    ensures AsOpen(tasks[id]) in NotStalled(OpenTasks(ids, tasks), stalled)
  {
    var front, last := ids[..|ids| - 1], ids[|ids| - 1];
    LastOrBefore(ids);
    if Unresolved(tasks[last]) { NotStalledSnoc(OpenTasks(front, tasks), AsOpen(tasks[last]), stalled); }
    if id != last { StallTaskOf(front, tasks, stalled, id); }
  }

  lemma NotStalledSnoc(ts: seq<OpenTask>, t: OpenTask, stalled: set<string>)
    ensures NotStalled(ts + [t], stalled) ==
            if t.taskId !in stalled then NotStalled(ts, stalled) + [t] else NotStalled(ts, stalled)
  {
    Snoc(ts, t);
  }

  lemma AsOpenSays(task: Task)
    requires task.asks.Keys == set a | a in task.notice.asks
    ensures StallSays(AsOpen(task), task)
  {
    MissingExactly(task);
  }

  /** The posts a sweep adds when all are made: first a plan for each task worth one, then a stall post for each task
      waited for and not yet escalated. */
  lemma SweptPosts(sp: Space, ms: seq<ChatMessage>, listening: bool, left: nat)
    requires WellFormed(FeedAll(sp.ledger, ms)) && Completes(sp, ms, left)
    ensures var fed := FeedAll(sp.ledger, ms);
            var plans, stalls := Worthy(fed.order, fed.tasks, fed.planned), ToEscalate(fed);
            var r := Swept(sp, ms, listening, left);
            && r.posts == sp.posts + (PlanPosts(plans, fed.tasks) + StallPosts(stalls))
            && r.reports == (if listening then sp.reports + (StallReports(stalls) + FailureReports(fed.failures))
                             else sp.reports)
            && r.ledger.failures == []
  {
    var fed := FeedAll(sp.ledger, ms);
    var plans, stalls := Worthy(fed.order, fed.tasks, fed.planned), ToEscalate(fed);
    CutAll(plans, left);
    CutAll(stalls, left - |plans|);
    Assoc(sp.posts, PlanPosts(plans, fed.tasks), StallPosts(stalls));
    Assoc(sp.reports, StallReports(stalls), FailureReports(fed.failures));
  }

  /** A completed sweep posts, of every task it knows, a plan exactly when it is worth one, which reports the task; and
      a stall post exactly when it is waited for and was not escalated before, which names what is missing. */
  lemma SweepPostsExactly(sp: Space, ms: seq<ChatMessage>, listening: bool, left: nat, id: string)
    requires WellFormed(FeedAll(sp.ledger, ms)) && Completes(sp, ms, left) && id in FeedAll(sp.ledger, ms).tasks
    ensures var fed, posts := FeedAll(sp.ledger, ms), Swept(sp, ms, listening, left).posts;
            && sp.posts <= posts
            && var added := posts[|sp.posts|..];
               && (WorthPlan(id, fed.tasks, fed.planned) ==> PlanAmong(added, id, fed.tasks[id]))
               && (Waits(fed.tasks[id]) && id !in fed.stalled ==> StallAmong(added, id, fed.tasks[id]))
               && (forall p :: p in added && p.PlanPost? && p.taskId == id ==> WorthPlan(id, fed.tasks, fed.planned))
               && (forall p :: p in added && p.StallPost? && p.task.taskId == id ==>
                     Waits(fed.tasks[id]) && id !in fed.stalled)
  {
    var fed := FeedAll(sp.ledger, ms);
    var plans, stalls := Worthy(fed.order, fed.tasks, fed.planned), ToEscalate(fed);
    var added := PlanPosts(plans, fed.tasks) + StallPosts(stalls);
    SweptPosts(sp, ms, listening, left);
    assert Swept(sp, ms, listening, left).posts[|sp.posts|..] == added;
    WorthyMembers(fed.order, fed.tasks, fed.planned);
    WaitsIs(fed.tasks[id]);
    NewPosts(fed, plans, stalls, id);
    if WorthPlan(id, fed.tasks, fed.planned) {
      PlanPostOf(plans, fed.tasks, id);
      AllTasksOk(fed.order, fed.tasks);
      PlanForSays(id, fed.tasks[id]);
      assert PlanPost(id, PlanFor(id, fed.tasks[id])) in added;
    }
    if Waits(fed.tasks[id]) && id !in fed.stalled {
      StallTaskOf(fed.order, fed.tasks, fed.stalled, id);
      AsOpenSays(fed.tasks[id]);
      StallPostOf(stalls, AsOpen(fed.tasks[id]));
      assert StallPost(AsOpen(fed.tasks[id])) in added;
    }
  }

  lemma StallPostOf(ts: seq<OpenTask>, t: OpenTask)
    requires t in ts
    ensures StallPost(t) in StallPosts(ts)
  {
    var i :| 0 <= i < |ts| && ts[i] == t;
    assert StallPosts(ts)[i] == StallPost(t);
  }

  lemma {:induction false} PlanPostsOnly(ids: seq<string>, tasks: map<string, Task>)
    requires Known(ids, tasks)
    ensures forall p :: p in PlanPosts(ids, tasks) ==> p.PlanPost? && p.taskId in ids
  {
    if ids != [] { PlanPostsOnly(ids[..|ids| - 1], tasks); }
  }

  lemma {:induction false} IdsAre(ts: seq<OpenTask>)
    ensures forall t :: t in ts ==> t.taskId in Ids(ts)
  {
    if ts != [] {
      LastOrBefore(ts);
      IdsAre(ts[..|ts| - 1]);
    }
  }

  lemma NewPosts(fed: State, plans: seq<string>, stalls: seq<OpenTask>, id: string)
    requires WellFormed(fed) && plans == Worthy(fed.order, fed.tasks, fed.planned) && stalls == ToEscalate(fed)
    ensures var added := PlanPosts(plans, fed.tasks) + StallPosts(stalls);
            && (forall p :: p in added && p.PlanPost? ==> p.taskId in plans)
            && (forall p :: p in added && p.StallPost? ==>
                  p.task.taskId in fed.tasks && Unresolved(fed.tasks[p.task.taskId]) && p.task.taskId !in fed.stalled)
  {
    PlanPostsOnly(plans, fed.tasks);
    OpenMembers(fed.order, fed.tasks);
    NotStalledMembers(OpenTasks(fed.order, fed.tasks), fed.stalled);
    IdsAre(stalls);
    forall p | p in StallPosts(stalls)
      ensures p.StallPost? && p.task.taskId in Ids(stalls)
    {
      var i :| 0 <= i < |stalls| && StallPosts(stalls)[i] == p;
      assert stalls[i] in stalls;
    }
  }
}
