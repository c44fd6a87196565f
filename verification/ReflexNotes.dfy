/** When a reflex kit keeps its promises: which keys leave a note behind, and what a store that fails costs. */
module ReflexNotes {
  import opened PyText
  import opened Handoff
  import opened Reflex
  import opened ReflexSafety
  import FactFormat
  import Lines

  // ----- which marks go through -----

  predicate TaskId(s: string) { SafeSlug(s) && |s| <= MAX_TASK_ID }

  /** No CR or LF from the key's first visible character on: `single_line` strips only the ends of the summary, and the
      key is not at its end. */
  predicate Markable(key: string) { '\n' !in StripLeft(key) && '\r' !in StripLeft(key) }

  lemma {:induction false} SlugOfChars(key: string)
    ensures forall c :: c in SlugOf(key) ==> SlugChar(c)
  {
    if key != "" { SlugOfChars(key[1..]); }
  }

  lemma {:induction false} DashesOff(s: string)
    ensures forall c :: c in StripDashes(s) ==> c in s
  {
    if s == "" {
    } else if s[0] in {'-', '_'} {
      DashesOff(s[1..]);
    } else if s[|s| - 1] in {'-', '_'} {
      DashesOff(s[..|s| - 1]);
    }
  }

  /** The slug of a character: lower case, itself, or a dash. */
  predicate Slugged(c: char, to: char) {
    if 'A' <= c <= 'Z' then to as int == c as int + 32
    else if 'a' <= c <= 'z' || '0' <= c <= '9' || c == '_' then to == c
    else to == '-'
  }

  predicate Dashes(s: string) { forall i :: 0 <= i < |s| ==> s[i] == '-' || s[i] == '_' }

  lemma {:induction false} SlugOfIs(key: string)
    ensures |SlugOf(key)| == |key| && forall i :: 0 <= i < |key| ==> Slugged(key[i], SlugOf(key)[i])
  {
    if key != "" { SlugOfIs(key[1..]); }
  }

  lemma {:induction false} StripDashesIs(lead: string, core: string, tail: string)
    requires Dashes(lead) && Dashes(tail) && (core != "" ==> !Dashes([core[0]]) && !Dashes([core[|core| - 1]]))
    ensures StripDashes(lead + core + tail) == core
    decreases |lead| + |tail|
  {
    var s := lead + core + tail;
    if lead != "" {
      assert s[0] == lead[0] && s[1..] == lead[1..] + core + tail;
      StripDashesIs(lead[1..], core, tail);
    } else if tail != "" {
      if core == "" {
        assert s == tail + core + "" && s[0] == tail[0] && s[1..] == tail[1..] + core + "";
        StripDashesIs(tail[1..], core, "");
      } else {
        assert s[0] == core[0] && s[|s| - 1] == tail[|tail| - 1] && s[..|s| - 1] == lead + core + tail[..|tail| - 1];
        StripDashesIs(lead, core, tail[..|tail| - 1]);
      }
    } else {
      assert s == core;
    }
  }

  /** A note is named after its task and the key's characters slugged one by one, without dashes and underscores at the
      ends, cut at 48, and "key" if none are left. */
  lemma NoteNameExactly(task: string, key: string, lead: string, core: string, tail: string)
    requires |lead + core + tail| == |key| && forall i :: 0 <= i < |key| ==> Slugged(key[i], (lead + core + tail)[i])
    requires Dashes(lead) && Dashes(tail) && (core != "" ==> !Dashes([core[0]]) && !Dashes([core[|core| - 1]]))
    ensures NoteName(task, key) ==
            "reflex-" + task + "-" + if core == "" then "key" else if |core| <= 48 then core else core[..48]
  {
    SlugOfIs(key);
    assert SlugOf(key) == lead + core + tail;
    StripDashesIs(lead, core, tail);
  }

  /** Every note name fits the store's slug rule. */
  lemma NoteNameSafe(task: string, key: string)
    requires TaskId(task)
    ensures SafeSlug(NoteName(task, key))
  {
    SlugOfChars(key);
    DashesOff(SlugOf(key));
    assert forall c :: c in Clip(StripDashes(SlugOf(key)), MAX_KEY_SLUG) ==> c in StripDashes(SlugOf(key));
    assert forall c :: c in SlugKey(key) ==> SlugChar(c);
    assert NoteName(task, key)[0] == 'r' && |NoteName(task, key)| <= 7 + MAX_TASK_ID + 1 + MAX_KEY_SLUG;
  }

  lemma {:induction false} StripLeftAppend(s: string, more: string)
    requires StripLeft(s) != ""
    ensures StripLeft(s + more) == StripLeft(s) + more
  {
    if IsSpace(s[0]) {
      assert (s + more)[1..] == s[1..] + more;
      StripLeftAppend(s[1..], more);
    }
  }

  lemma {:induction false} StripNothing(s: string)
    requires StripLeft(s) == ""
    ensures Strip(s) == ""
  {
  }

  lemma StripSolid(s: string, more: string)
    requires StripLeft(s) != "" && more != "" && !IsSpace(more[|more| - 1])
    ensures Strip(s + more) == StripLeft(s) + more
  {
    StripLeftAppend(s, more);
    var all := StripLeft(s) + more;
    assert all[|all| - 1] == more[|more| - 1];
  }

  /** The summary line as `single_line` leaves it. */
  lemma SummaryStripped(task: string, key: string)
    requires TaskId(task) && Strip(key) != ""
    ensures Strip(Summary(task, key)) == StripLeft(key) + (" applied for #" + task)
  {
    var more := " applied for #" + task;
    assert StripLeft(key) != "" by { if StripLeft(key) == "" { StripNothing(key); } }
    assert task[|task| - 1] in task && more[|more| - 1] == task[|task| - 1];
    StripSolid(key, more);
  }

  lemma InEither(a: string, b: string, c: char)
    ensures c in a + b <==> c in a || c in b
  {
  }

  lemma TailPlain(task: string, c: char)
    requires SafeSlug(task) && c in " applied for #" + task
    ensures c != '\n' && c != '\r'
  {
    InEither(" applied for #", task, c);
  }

  lemma SummaryCleaned(task: string, key: string)
    requires TaskId(task) && Strip(key) != ""
    ensures FactFormat.Cleaned(Summary(task, key)).Some? <==> Markable(key)
    ensures Markable(key) ==> FactFormat.Cleaned(Summary(task, key)).value == StripLeft(key) + (" applied for #" + task)
  {
    SummaryStripped(task, key);
    var head, tail := StripLeft(key), " applied for #" + task;
    InEither(head, tail, '\n');
    InEither(head, tail, '\r');
    if '\n' in tail { TailPlain(task, '\n'); }
    if '\r' in tail { TailPlain(task, '\r'); }
  }

  lemma RememberedExactly(name: string, kind: string, summary: string, day: string)
    requires SafeSlug(name) && FactFormat.Clean(kind) && FactFormat.Clean(day)
    ensures var f := FactFormat.Remembered(name, kind, summary, "", "", day);
            && (f.Some? <==> FactFormat.Cleaned(summary).Some?)
            && (f.Some? ==> f.value == FactFormat.Fact(name, kind, FactFormat.Cleaned(summary).value, "", None,
                                                       Some(day)))
  {
  }

  lemma KindClean()
    ensures FactFormat.Clean("reflex") && Lines.OneLine("reflex")
  {
    var kind := "reflex";
    assert kind[0] == 'r' && kind[5] == 'x';
  }

  function NoteFact(task: string, key: string, day: FactFormat.Day): FactFormat.Fact {
    FactFormat.Fact(NoteName(task, key), "reflex", StripLeft(key) + (" applied for #" + task), "", None, Some(day))
  }

  /** A mark on a store that takes the write goes through exactly when the key is markable. */
  lemma MarkExactly(task: string, key: string, day: FactFormat.Day)
    requires TaskId(task) && Strip(key) != ""
    ensures NoteFile(task, key, Some(day)) ==
            if Markable(key) then Some(FactFormat.Render(NoteFact(task, key, day))) else None
  {
    NoteNameSafe(task, key);
    SummaryCleaned(task, key);
    KindClean();
    RememberedExactly(NoteName(task, key), "reflex", Summary(task, key), day);
  }

  // ----- which notes are found again -----

  /** The note of a mark loads under its own name. */
  predicate Kept(task: string, key: string, day: FactFormat.Day) {
    var text := NoteFile(task, key, Some(day));
    text.Some? && LoadedName(text.value, NoteName(task, key)) == Some(NoteName(task, key))
  }

  /** Every note of the key is written and found again. */
  ghost predicate Durable(key: string) {
    forall task: string, day: FactFormat.Day :: TaskId(task) ==> Kept(task, key, day)
  }

  /** A key on a single line in the wide sense, of every line separator there is, is durable. */
  lemma OneLineKeyDurable(key: string)
    requires Strip(key) != "" && Lines.OneLine(StripLeft(key))
    ensures Durable(key)
  {
    forall task: string, day: FactFormat.Day | TaskId(task) ensures Kept(task, key, day) {
      OneLineKeyKept(task, key, day);
    }
  }

  lemma OneLineKeyPlain(task: string, key: string, day: FactFormat.Day)
    requires TaskId(task) && Strip(key) != "" && Lines.OneLine(StripLeft(key))
    ensures FactFormat.PlainFields(NoteFact(task, key, day))
  {
    var more, line := " applied for #" + task, StripLeft(key) + (" applied for #" + task);
    KindClean();
    forall i | 0 <= i < |more| ensures !IsLineBreak(more[i]) {
      if i >= 14 { assert more[i] == task[i - 14] && task[i - 14] in task; }
    }
    assert Lines.OneLine(line);
  }

  lemma NoteWritable(task: string, key: string, day: FactFormat.Day)
    requires TaskId(task) && Strip(key) != "" && Markable(key)
    ensures FactFormat.Writable(NoteFact(task, key, day))
  {
    NoteNameSafe(task, key);
    SummaryCleaned(task, key);
    KindClean();
  }

  lemma OneLineKeyKept(task: string, key: string, day: FactFormat.Day)
    requires TaskId(task) && Strip(key) != "" && Lines.OneLine(StripLeft(key))
    ensures Kept(task, key, day)
  {
    var f := NoteFact(task, key, day);
    MarkExactly(task, key, day);
    OneLineKeyPlain(task, key, day);
    NoteWritable(task, key, day);
    FactFormat.PlainLoaded(f, f.name);
  }

  // ----- the cap -----

  /** Keys a rule may be registered under. */
  predicate Registrable(keys: set<string>) { keys != {} && forall key :: key in keys ==> Strip(key) != "" }

  ghost predicate WritesLand(c: Config) { forall n: nat :: c.disk(n).write.Some? }

  /** The process since the last restart kept the cap. */
  ghost predicate Capped(c: Config, es: seq<Event>, max: int) {
    Successes(Lived(c, es).runs) - Successes(Earlier(c, es)) <= if max < 0 then 0 else max
  }

  lemma RunKeyed(c: Config, r: Run, es: seq<Event>)
    requires JustifiedIn(c, r, es) && Posted(es)
    ensures r.proposal.key.Text? && r.proposal.key.s in c.keys && r.proposal.taskId.Text? && TaskId(r.proposal.taskId.s)
  {
  }

  lemma {:induction false} NoneLost(c: Config, runs: seq<Run>, es: seq<Event>)
    requires AllJustified(c, runs, es) && Posted(es) && WritesLand(c) && Registrable(c.keys)
    requires forall key :: key in c.keys ==> Markable(key)
    ensures RaisedMarks(c, runs) == 0
  {
    if runs != [] {
      var last := |runs| - 1;
      assert forall i :: 0 <= i < last ==> runs[..last][i] == runs[i];
      NoneLost(c, runs[..last], es);
      RunKeyed(c, runs[last], es);
      MarkExactly(runs[last].proposal.taskId.s, runs[last].proposal.key.s, c.disk(last).write.value);
    }
  }

  lemma EarlierJustified(c: Config, runs: seq<Run>, earlier: seq<Run>, es: seq<Event>)
    requires AllJustified(c, runs, es) && earlier <= runs
    ensures AllJustified(c, earlier, es)
  {
    forall i | 0 <= i < |earlier| ensures JustifiedIn(c, earlier[i], es) { assert earlier[i] == runs[i]; }
  }

  /** No mark of the life raised. */
  lemma NoMarkRaises(c: Config, es: seq<Event>)
    requires Posted(es) && Registrable(c.keys)
    requires c.persistent ==> WritesLand(c) && forall key :: key in c.keys ==> Markable(key)
    ensures RaisedMarks(c, Lived(c, es).runs) == 0 && RaisedMarks(c, Earlier(c, es)) == 0
  {
    var runs, earlier := Lived(c, es).runs, Earlier(c, es);
    if c.persistent {
      SuccessesAccounted(c, es);
      EveryRunJustified(c, es);
      EarlierJustified(c, runs, earlier, es);
      NoneLost(c, runs, es);
      NoneLost(c, earlier, es);
    } else {
      InMemory(c, runs);
      InMemory(c, earlier);
    }
  }

  /** Markable keys on a store whose writes land: the cap is kept in every life. */
  lemma CapKept(c: Config, es: seq<Event>, max: int)
    requires c.max == Some(max) && Posted(es) && Registrable(c.keys)
    requires c.persistent ==> WritesLand(c) && forall key :: key in c.keys ==> Markable(key)
    ensures Capped(c, es, max)
  {
    SuccessesAccounted(c, es);
    NoMarkRaises(c, es);
  }

  lemma {:induction false} InMemory(c: Config, runs: seq<Run>)
    requires !c.persistent
    ensures RaisedMarks(c, runs) == 0
  {
    if runs != [] { InMemory(c, runs[..|runs| - 1]); }
  }

  // ----- kits and lives that break the promises -----

  function FirstAsk(env: Envelope): Option<string> { if env.asks == [] then None else Some(env.asks[0]) }

  /** A kit of one rule, whose executor always applies, on one kind of store. */
  function Lone(key: string, keys: set<string>, max: Option<int>, disk: Disk): Config {
    Config([Rule(key, FirstAsk)], keys, max, true, (n: nat) => Applied, (n: nat) => disk)
  }

  function Alert(task: string): Envelope { Envelope(Notice, task, "a", "s", "b", [Fact("t", "a", "p")], ["x"], [], []) }

  lemma AlertValid(task: string)
    requires TaskId(task)
    ensures Alert(task).Valid()
  {
  }

  function AlertProposal(task: string, key: string): Proposal { BuildProposal(Alert(task), key, "x") }

  /** One turn of such a kit on a pair it has not seen. */
  lemma LoneFires(c: Config, k: Kit, key: string, task: string)
    requires c.rules == [Rule(key, FirstAsk)] && key in c.keys && TaskId(task) && !Seen(c, k, task, key)
    requires c.max.None? || k.applied < c.max.value
    ensures Fire(c, k, Alert(task)).kit == Executed(c, k, task, key, AlertProposal(task, key))
  {
    assert OwnProvenance(Alert(task).facts, "a") == "p";
    assert FireFirst(c, k, Alert(task), 0) == Fired(k, [], false);
  }

  function Alerts(tasks: seq<string>): seq<Event> {
    if tasks == [] then [] else Alerts(tasks[..|tasks| - 1]) + [Handled(Alert(tasks[|tasks| - 1]))]
  }

  lemma {:induction false} AlertsPosted(tasks: seq<string>)
    requires forall i :: 0 <= i < |tasks| ==> TaskId(tasks[i])
    ensures Posted(Alerts(tasks))
  {
    if tasks != [] {
      AlertsPosted(tasks[..|tasks| - 1]);
      AlertValid(tasks[|tasks| - 1]);
    }
  }

  /** Marks that all raise: every task succeeds once more, and nothing is counted. */
  lemma {:induction false} NothingCounted(c: Config, key: string, tasks: seq<string>)
    requires c.rules == [Rule(key, FirstAsk)] && key in c.keys && c.persistent && (c.max.Some? ==> c.max.value > 0)
    requires forall n: nat :: c.world(n) == Applied
    requires Unique(tasks) && forall i :: 0 <= i < |tasks| ==> TaskId(tasks[i])
    requires forall n: nat, i :: 0 <= i < |tasks| ==> MarkRaises(c, n, tasks[i], key)
    ensures var k := Lived(c, Alerts(tasks));
            && k.applied == 0 && k.files == map[] && Successes(k.runs) == |tasks| && Earlier(c, Alerts(tasks)) == []
            && forall t :: (t, key) in k.seen ==> t in tasks
  {
    if tasks != [] {
      var front, task := tasks[..|tasks| - 1], tasks[|tasks| - 1];
      NothingCounted(c, key, front);
      var before := Lived(c, Alerts(front));
      assert Alerts(tasks)[..|Alerts(front)|] == Alerts(front);
      LoneFires(c, before, key, task);
      assert MarkRaises(c, |before.runs|, task, key);
      assert Lived(c, Alerts(tasks)).runs[..|before.runs|] == before.runs;
    }
  }

  /** A cap below the number of task ids is kept in every life of every kit with these keys on a persistent store,
      whether or not its writes are known to land, exactly when no execution is allowed at all, or the writes are known
      to land and every key is markable. */
  lemma CapExactly(keys: set<string>, max: int, landing: bool, tasks: seq<string>)
    requires Registrable(keys) && max < |tasks| && Unique(tasks) && forall i :: 0 <= i < |tasks| ==> TaskId(tasks[i])
    ensures (forall c: Config, es: seq<Event> ::
               c.keys == keys && c.max == Some(max) && c.persistent && (landing ==> WritesLand(c)) && Posted(es) ==>
               Capped(c, es, max)) <==>
            max <= 0 || (landing && forall key :: key in keys ==> Markable(key))
  {
    if max <= 0 {
      forall c: Config, es: seq<Event> | c.keys == keys && c.max == Some(max) && c.persistent
        ensures Capped(c, es, max)
      {
        NothingAllowed(c, es, max);
      }
    } else if landing && forall key :: key in keys ==> Markable(key) {
      forall c: Config, es: seq<Event> | c.keys == keys && c.max == Some(max) && WritesLand(c) && Posted(es)
        ensures Capped(c, es, max)
      {
        CapKept(c, es, max);
      }
    } else {
      var key :| key in keys && (landing ==> !Markable(key));
      var c, es := CapBroken(key, keys, max, landing, tasks);
    }
  }

  lemma NothingAllowed(c: Config, es: seq<Event>, max: int)
    requires c.max == Some(max) && max <= 0
    ensures Capped(c, es, max)
  {
    Idle(c, es, max);
    SuccessesAccounted(c, es);
  }

  lemma {:induction false} Idle(c: Config, es: seq<Event>, max: int)
    requires c.max == Some(max) && max <= 0
    ensures Lived(c, es).runs == []
  {
    if es != [] {
      Idle(c, es[..|es| - 1], max);
      if es[|es| - 1].Handled? { IdleFires(c, Lived(c, es[..|es| - 1]), es[|es| - 1].env, |c.rules|); }
    }
  }

  lemma {:induction false} IdleFires(c: Config, k: Kit, env: Envelope, n: nat)
    requires n <= |c.rules| && c.max.Some? && c.max.value <= 0
    ensures FireFirst(c, k, env, n).kit == k
  {
    if n > 0 { IdleFires(c, k, env, n - 1); }
  }

  /** The failing family: a key that cannot be marked, or a store that refuses the writes, and one task more than the
      cap. */
  lemma CapBroken(key: string, keys: set<string>, max: int, landing: bool, tasks: seq<string>)
    returns (c: Config, es: seq<Event>)
    requires key in keys && Registrable(keys) && (landing ==> !Markable(key))
    requires 0 < max < |tasks| && Unique(tasks) && forall i :: 0 <= i < |tasks| ==> TaskId(tasks[i])
    ensures c.keys == keys && c.max == Some(max) && c.persistent && (landing ==> WritesLand(c)) && Posted(es)
    ensures !Capped(c, es, max)
  {
    var day: FactFormat.Day := ['1'];
    c := Lone(key, keys, Some(max), Disk(if landing then Some(day) else None, true));
    var some := tasks[..max + 1];
    es := Alerts(some);
    forall n: nat, i | 0 <= i < |some| ensures MarkRaises(c, n, some[i], key) {
      if landing { MarkExactly(some[i], key, day); }
    }
    NothingCounted(c, key, some);
    AlertsPosted(some);
  }

  // ----- at most once across restarts -----

  ghost predicate Sound(c: Config) { forall n: nat :: c.disk(n).write.Some? && c.disk(n).readable }

  /** Every success of the life is on file, under a note found by its name. */
  ghost predicate OnFile(k: Kit) {
    && OnceEach(k.runs)
    && (forall i :: 0 <= i < |k.runs| && Succeeded(k.runs[i]) ==> NoteOfRun(k.runs[i]) in k.files)
    && forall stem :: stem in k.files ==> LoadedName(k.files[stem], stem) == Some(stem)
  }

  lemma NewPair(k: Kit, task: string, key: string)
    requires OnFile(k) && NoteName(task, key) !in k.files
    ensures forall i :: 0 <= i < |k.runs| && Succeeded(k.runs[i]) ==> PairOf(k.runs[i]) != (task, key)
  {
  }

  lemma OnceAppended(runs: seq<Run>, r: Run)
    requires OnceEach(runs)
    requires forall i :: 0 <= i < |runs| && Succeeded(runs[i]) && Succeeded(r) ==> PairOf(runs[i]) != PairOf(r)
    ensures OnceEach(runs + [r])
  {
  }

  /** The kit after an execution whose note is kept as `text`. */
  lemma NoteAdded(k: Kit, after: Kit, task: string, key: string, text: string, r: Run)
    requires OnFile(k) && NoteName(task, key) !in k.files && Succeeded(r) && PairOf(r) == (task, key)
    requires after.runs == k.runs + [r] && after.files == k.files[NoteName(task, key) := text]
    requires LoadedName(text, NoteName(task, key)) == Some(NoteName(task, key))
    ensures OnFile(after)
  {
    NewPair(k, task, key);
    OnceAppended(k.runs, r);
  }

  lemma DurableKept(task: string, key: string, day: FactFormat.Day)
    requires Durable(key) && TaskId(task)
    ensures Kept(task, key, day)
  {
  }

  lemma RanOnFile(c: Config, k: Kit, after: Kit, env: Envelope, rule: Rule)
    requires c.persistent && Sound(c) && OnFile(k) && TaskId(env.taskId) && Ran(c, k, after, env, rule)
    requires Durable(rule.key)
    ensures OnFile(after)
  {
    var r, day := after.runs[|k.runs|], c.disk(|k.runs|).write.value;
    if r.outcome == Applied {
      DurableKept(env.taskId, rule.key, day);
      NoteAdded(k, after, env.taskId, rule.key, NoteFile(env.taskId, rule.key, Some(day)).value, r);
    } else {
      OnceAppended(k.runs, r);
    }
  }

  lemma {:induction false} FireOnFile(c: Config, k: Kit, env: Envelope, n: nat)
    requires n <= |c.rules| && c.persistent && Sound(c) && OnFile(k) && TaskId(env.taskId)
    requires forall key :: key in c.keys ==> Durable(key)
    ensures OnFile(FireFirst(c, k, env, n).kit)
  {
    if n > 0 {
      FireOnFile(c, k, env, n - 1);
      Turn(c, k, env, n);
      var before, after := FireFirst(c, k, env, n - 1).kit, FireFirst(c, k, env, n).kit;
      if after != before { RanOnFile(c, before, after, env, c.rules[n - 1]); }
    }
  }

  /** Durable keys on a sound store: no pair succeeds twice in any life, restarts included. */
  lemma {:induction false} OnceAcrossRestarts(c: Config, es: seq<Event>)
    requires c.persistent && Sound(c) && Posted(es) && forall key :: key in c.keys ==> Durable(key)
    ensures OnFile(Lived(c, es))
  {
    if es != [] {
      var front := es[..|es| - 1];
      OnceAcrossRestarts(c, front);
      if es[|es| - 1].Handled? { FireOnFile(c, Lived(c, front), es[|es| - 1].env, |c.rules|); }
    }
  }

  lemma LivedSnoc(c: Config, es: seq<Event>, e: Event)
    ensures Lived(c, es + [e]) == After(c, Lived(c, es), e)
  {
    Snoc(es, e);
  }

  lemma LivedTwice(c: Config, e: Event, k0: Kit, k1: Kit, k2: Kit, k3: Kit)
    requires k0 == Kit({}, map[], 0, []) && k1 == After(c, k0, e) && k2 == After(c, k1, Restart) &&
             k3 == After(c, k2, e)
    ensures Lived(c, [e, Restart, e]) == k3
  {
    LivedSnoc(c, [], e);
    LivedSnoc(c, [e], Restart);
    LivedSnoc(c, [e, Restart], e);
    assert [] + [e] == [e] && [e] + [Restart] == [e, Restart] && [e, Restart] + [e] == [e, Restart, e];
  }

  /** No note file is found under the pair's note name. */
  ghost predicate Unfound(files: map<string, string>, task: string, key: string) { !Noted(files, NoteName(task, key)) }

  lemma StaysUnfound(files: map<string, string>, task: string, key: string, text: string)
    requires Unfound(files, task, key) && LoadedName(text, NoteName(task, key)) != Some(NoteName(task, key))
    ensures Unfound(files[NoteName(task, key) := text], task, key)
  {
  }

  /** An alert whose note is not found again. */
  lemma AlertAgain(c: Config, k: Kit, key: string, task: string, text: Option<string>)
    requires c.rules == [Rule(key, FirstAsk)] && key in c.keys && c.persistent && c.max.None? && TaskId(task)
    requires c.world(|k.runs|) == Applied && text == NoteFile(task, key, c.disk(|k.runs|).write)
    requires text.Some? ==> LoadedName(text.value, NoteName(task, key)) != Some(NoteName(task, key))
    requires Unfound(k.files, task, key) && (task, key) !in k.seen
    ensures var after := After(c, k, Handled(Alert(task)));
            after.runs == k.runs + [Run(AlertProposal(task, key), Applied)] && Unfound(after.files, task, key)
  {
    LoneFires(c, k, key, task);
    if text.Some? { StaysUnfound(k.files, task, key, text.value); }
  }

  /** The note of the pair, written on this store, is not found again. */
  predicate Unkept(task: string, key: string, disk: Disk) {
    var text := NoteFile(task, key, disk.write);
    text.None? || LoadedName(text.value, NoteName(task, key)) != Some(NoteName(task, key))
  }

  /** A note that is not found again, and a restart: the same pair succeeds twice. */
  lemma TwiceAfterRestart(c: Config, key: string, task: string, disk: Disk)
    requires c.rules == [Rule(key, FirstAsk)] && key in c.keys && c.persistent && c.max.None? && TaskId(task)
    requires (forall n: nat :: c.world(n) == Applied && c.disk(n) == disk) && Unkept(task, key, disk)
    ensures var es := [Handled(Alert(task)), Restart, Handled(Alert(task))]; Posted(es) && !OnceEach(Lived(c, es).runs)
  {
    var e, text := Handled(Alert(task)), NoteFile(task, key, disk.write);
    var born := Kit({}, map[], 0, []);
    var first := After(c, born, e);
    var again := After(c, first, Restart);
    AlertValid(task);
    assert c.world(0) == Applied && c.world(1) == Applied && c.disk(0) == disk && c.disk(1) == disk;
    AlertAgain(c, born, key, task, text);
    AlertAgain(c, again, key, task, text);
    LivedTwice(c, e, born, first, again, After(c, again, e));
    TwoOfAPair(After(c, again, e).runs, AlertProposal(task, key));
  }

  lemma TwoOfAPair(runs: seq<Run>, p: Proposal)
    requires runs == [Run(p, Applied), Run(p, Applied)] && p.taskId.Text? && p.key.Text?
    ensures !OnceEach(runs)
  {
    assert Succeeded(runs[0]) && Succeeded(runs[1]) && PairOf(runs[0]) == PairOf(runs[1]);
  }

  /** No pair succeeds twice in any life of any kit with these keys on a persistent store, restarts included, exactly
      when the store is known to be sound and every key is durable. */
  lemma AtMostOnceExactly(keys: set<string>, sound: bool)
    requires Registrable(keys)
    ensures (forall c: Config, es: seq<Event> ::
               c.keys == keys && c.persistent && (sound ==> Sound(c)) && Posted(es) ==>
                 OnceEach(Lived(c, es).runs)) <==>
            sound && forall key :: key in keys ==> Durable(key)
  {
    if sound && forall key :: key in keys ==> Durable(key) {
      forall c: Config, es: seq<Event> | c.keys == keys && c.persistent && Sound(c) && Posted(es)
        ensures OnceEach(Lived(c, es).runs)
      {
        OnceAcrossRestarts(c, es);
      }
    } else {
      var key :| key in keys && (sound ==> !Durable(key));
      var c, es := RunTwice(key, keys, sound);
    }
  }

  /** The failing family: a key whose note is not found again, or a store that refuses the write. */
  lemma RunTwice(key: string, keys: set<string>, sound: bool) returns (c: Config, es: seq<Event>)
    requires key in keys && Registrable(keys) && (sound ==> !Durable(key))
    ensures c.keys == keys && c.persistent && (sound ==> Sound(c)) && Posted(es) && !OnceEach(Lived(c, es).runs)
  {
    var task, disk := "t", Disk(None, true);
    if sound {
      var day: FactFormat.Day;
      task, day :| TaskId(task) && !Kept(task, key, day);
      disk := Disk(Some(day), true);
    }
    c, es := Lone(key, keys, None, disk), [Handled(Alert(task)), Restart, Handled(Alert(task))];
    TwiceAfterRestart(c, key, task, disk);
  }

  // ----- the failing inputs -----

  /** A line break inside the key: with a cap of one, two tasks succeed; and after a restart the first succeeds
      again. */
  lemma LineBreakKeyFails(key: string, day: FactFormat.Day)
    requires key == ['a', '\n', 'b']
    ensures !Markable(key) && !Durable(key)
    ensures var c := Lone(key, {key}, Some(1), Disk(Some(day), true));
            WritesLand(c) && Successes(Lived(c, Alerts(["t", "u"])).runs) == 2
    ensures var c := Lone(key, {key}, None, Disk(Some(day), true));
            Sound(c) && !OnceEach(Lived(c, [Handled(Alert("t")), Restart, Handled(Alert("t"))]).runs)
  {
    assert StripLeft(key) == key && key[1] == '\n';
    StripKeepsHead(key);
    var tasks := ["t", "u"];
    forall i | 0 <= i < |tasks| ensures NoteFile(tasks[i], key, Some(day)).None? { MarkExactly(tasks[i], key, day); }
    assert !Kept(tasks[0], key, day);
    NothingCounted(Lone(key, {key}, Some(1), Disk(Some(day), true)), key, tasks);
    TwiceAfterRestart(Lone(key, {key}, None, Disk(Some(day), true)), key, tasks[0], Disk(Some(day), true));
  }
}
