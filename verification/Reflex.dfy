/** The blocking-only reflex: which registered rules fire on an envelope, at most once per event. */
module Reflex {
  import opened PyText
  import opened Handoff
  import FactFormat

  const MAX_KEY_SLUG := 48

  /** A value in a gate proposal, as the policy's identity checks see it. */
  datatype Value = Absent | Bool(b: bool) | Text(s: string) | OtherValue

  datatype Proposal = Proposal(key: Value, moneyMovement: Value, blocking: Value, taskId: Value, provenance: Value,
                               origin: string, ask: string)

  /** What the worker's executor did: it may raise. */
  datatype Outcome = Applied | NotApplied | Raised(name: string)

  datatype Rule = Rule(key: string, matcher: Envelope -> Option<string>)

  datatype Run = Run(proposal: Proposal, outcome: Outcome)

  datatype Note = NoNote | Previously | Unapplied | Failed(name: string)

  function NoteText(n: Note): string {
    match n
    case NoNote => "" case Previously => "previously applied" case Unapplied => "executor reported not applied"
    case Failed(name) => "reflex execution failed: " + name
  }

  datatype Firing = Firing(ask: string, key: string, applied: bool, note: Note)

  /** What the note store does: a write lands on its day or raises, and the notes can be read or not. */
  datatype Disk = Disk(write: Option<FactFormat.Day>, readable: bool)

  /** A kit's wiring; `world` answers the n-th execution, whatever the executor's own state, and `disk` is the note
      store around it. */
  datatype Config = Config(rules: seq<Rule>, keys: set<string>, max: Option<int>, persistent: bool,
                           world: nat -> Outcome, disk: nat -> Disk)

  /** A kit's state: the in-memory log, the note files, the policy's counter and the executions so far. */
  datatype Kit = Kit(seen: set<(string, string)>, files: map<string, string>, applied: nat, runs: seq<Run>)

  /** The kit after the firing loop, its firings, and whether a mark raised out of it. */
  datatype Fired = Fired(kit: Kit, firings: seq<Firing>, raised: bool)

  // ----- the persisted note -----

  function SlugOf(key: string): string {
    if key == "" then ""
    else
      var c := key[0];
      [if 'A' <= c <= 'Z' then c - 'A' + 'a' else if SlugChar(c) then c else '-'] + SlugOf(key[1..])
  }

  function StripDashes(s: string): string {
    if s == "" then ""
    else if s[0] in {'-', '_'} then StripDashes(s[1..])
    else if s[|s| - 1] in {'-', '_'} then StripDashes(s[..|s| - 1])
    else s
  }

  /** `_slug_key` on ASCII keys. */
  function SlugKey(key: string): string {
    var slug := Clip(StripDashes(SlugOf(key)), MAX_KEY_SLUG);
    if slug == "" then "key" else slug
  }

  function NoteName(task: string, key: string): string { "reflex-" + task + "-" + SlugKey(key) }

  function Summary(task: string, key: string): string { key + (" applied for #" + task) }

  /** The text `remember` writes for a mark, or nothing where it raises: on a summary with a line break inside, or on a
      failed write. */
  function NoteFile(task: string, key: string, write: Option<FactFormat.Day>): Option<string> {
    if write.None? then None
    else
      match FactFormat.Remembered(NoteName(task, key), "reflex", Summary(task, key), "", "", write.value)
      case None => None
      case Some(f) => Some(FactFormat.Render(f))
  }

  /** The name a note file loads under, or nothing where it does not load. */
  function LoadedName(text: string, stem: string): Option<string> {
    match FactFormat.Loaded(text, stem) case None => None case Some(f) => Some(f.name)
  }

  /** `working.get(name)`: some file loads under `name`. */
  predicate Noted(files: map<string, string>, name: string) {
    exists stem :: stem in files && LoadedName(files[stem], stem) == Some(name)
  }

  // ----- the decision -----

  predicate Seen(c: Config, k: Kit, task: string, key: string) {
    (task, key) in k.seen || (c.persistent && c.disk(|k.runs|).readable && Noted(k.files, NoteName(task, key)))
  }

  /** `ReflexPolicy.__call__`: every check by identity, so anything malformed is refused. */
  predicate Allows(c: Config, k: Kit, p: Proposal) {
    && p.moneyMovement in {Absent, Bool(false)} && p.blocking == Bool(true)
    && p.key.Text? && p.key.s in c.keys
    && p.provenance.Text? && Strip(p.provenance.s) != ""
    && p.taskId.Text? && SafeSlug(p.taskId.s)
    && !Seen(c, k, p.taskId.s, p.key.s)
    && (c.max.None? || k.applied < c.max.value)
  }

  /** The first provenance the origin itself claims. */
  function OwnProvenance(facts: seq<Fact>, origin: string): string {
    if facts == [] then ""
    else if facts[0].claimant == origin && facts[0].provenance != "" then facts[0].provenance
    else OwnProvenance(facts[1..], origin)
  }

  function BuildProposal(env: Envelope, key: string, ask: string): Proposal {
    Proposal(Text(key), Bool(false), Bool(true), Text(env.taskId), Text(OwnProvenance(env.facts, env.origin)),
             env.origin, ask)
  }

  // ----- firing -----

  predicate Covered(fs: seq<Firing>, ask: string) { exists i :: 0 <= i < |fs| && fs[i].ask == ask }

  function NoteOf(o: Outcome): Note {
    match o case Applied => NoNote case NotApplied => Unapplied case Raised(name) => Failed(name)
  }

  /** The kit after a success's mark, `text` being the note that landed: memory first, then the file, then the
      counter. */
  function Marked(k: Kit, persistent: bool, task: string, key: string, text: Option<string>): Kit {
    var k' := k.(seen := k.seen + {(task, key)});
    if !persistent then k'.(applied := k.applied + 1)
    else match text
      case None => k'
      case Some(t) => k'.(files := k.files[NoteName(task, key) := t], applied := k.applied + 1)
  }

  function Executed(c: Config, k: Kit, task: string, key: string, p: Proposal): Kit {
    var n := |k.runs|;
    var k' := k.(runs := k.runs + [Run(p, c.world(n))]);
    if c.world(n) != Applied then k' else Marked(k', c.persistent, task, key, NoteFile(task, key, c.disk(n).write))
  }

  /** The mark of the n-th execution raises. */
  predicate MarkRaises(c: Config, n: nat, task: string, key: string) {
    c.persistent && NoteFile(task, key, c.disk(n).write).None?
  }

  /** One rule's turn. */
  function FireRule(c: Config, k: Kit, fs: seq<Firing>, env: Envelope, rule: Rule): Fired {
    match rule.matcher(env)
    case None => Fired(k, fs, false)
    case Some(ask) =>
      if ask !in env.asks || Covered(fs, ask) then Fired(k, fs, false)
      else if Seen(c, k, env.taskId, rule.key) then Fired(k, fs + [Firing(ask, rule.key, true, Previously)], false)
      else if !Allows(c, k, BuildProposal(env, rule.key, ask)) then Fired(k, fs, false)
      else
        var n := |k.runs|;
        var k' := Executed(c, k, env.taskId, rule.key, BuildProposal(env, rule.key, ask));
        if c.world(n) == Applied && MarkRaises(c, n, env.taskId, rule.key) then Fired(k', fs, true)
        else Fired(k', fs + [Firing(ask, rule.key, c.world(n) == Applied, NoteOf(c.world(n)))], false)
  }

  /** What the first `n` rules did; a raising mark ends the loop. */
  function FireFirst(c: Config, k: Kit, env: Envelope, n: nat): Fired
    requires n <= |c.rules|
  {
    if n == 0 then Fired(k, [], false)
    else
      var before := FireFirst(c, k, env, n - 1);
      if before.raised then before else FireRule(c, before.kit, before.firings, env, c.rules[n - 1])
  }

  function Fire(c: Config, k: Kit, env: Envelope): Fired { FireFirst(c, k, env, |c.rules|) }

  // ----- the classes -----

  class ReflexLog {
    const persistent: bool
    var seen: set<(string, string)>
    var files: map<string, string>

    constructor (persistent: bool, files: map<string, string>)
      ensures this.persistent == persistent && seen == {} && this.files == files
    {
      this.persistent, seen, this.files := persistent, {}, files;
    }

    predicate Has(task: string, key: string, readable: bool)
      reads this
    {
      (task, key) in seen || (persistent && readable && Noted(files, NoteName(task, key)))
    }

    /** `mark`: the pair is in memory even where the note raises. */
    method Mark(task: string, key: string, write: Option<FactFormat.Day>) returns (raised: bool)
      modifies this
      ensures seen == old(seen) + {(task, key)}
      ensures raised <==> persistent && NoteFile(task, key, write).None?
      ensures files == if persistent && !raised then old(files)[NoteName(task, key) := NoteFile(task, key, write).value]
                       else old(files)
    {
      seen := seen + {(task, key)};
      raised := false;
      if persistent {
        var text := NoteFile(task, key, write);
        if text.None? { return true; }
        files := files[NoteName(task, key) := text.value];
      }
    }
  }

  class ReflexKit {
    const rules: seq<Rule>
    const keys: set<string>
    const max: Option<int>
    const world: nat -> Outcome
    const disk: nat -> Disk
    const log: ReflexLog
    var applied: nat
    var runs: seq<Run>

    ghost function Wiring(): Config { Config(rules, keys, max, log.persistent, world, disk) }

    ghost function Value(): Kit
      reads this, log
    {
      Kit(log.seen, log.files, applied, runs)
    }

    constructor (rules: seq<Rule>, keys: set<string>, max: Option<int>, log: ReflexLog, world: nat -> Outcome,
                 disk: nat -> Disk)
      ensures Wiring() == Config(rules, keys, max, log.persistent, world, disk)
      ensures Value() == Kit(log.seen, log.files, 0, []) && this.log == log
    {
      this.rules, this.keys, this.max, this.log, this.world, this.disk := rules, keys, max, log, world, disk;
      applied, runs := 0, [];
    }

    /** The approved rule's execution, its mark and the counter. */
    method Execute(task: string, key: string, proposal: Proposal) returns (outcome: Outcome, raised: bool)
      modifies this, log
      ensures outcome == world(old(|runs|))
      ensures Value() == Executed(Wiring(), old(Value()), task, key, proposal)
      ensures raised <==> outcome == Applied && MarkRaises(Wiring(), old(|runs|), task, key)
    {
      var write := disk(|runs|).write;
      outcome, raised := world(|runs|), false;
      runs := runs + [Run(proposal, outcome)];
      if outcome == Applied {
        raised := log.Mark(task, key, write);
        if !raised { applied := applied + 1; }
      }
    }

    /** `fire_reflexes`; `raised` where the mark's exception escapes, in which case no firings come back. */
    method FireReflexes(env: Envelope) returns (firings: seq<Firing>, raised: bool)
      modifies this, log
      ensures Fired(Value(), firings, raised) == Fire(Wiring(), old(Value()), env)
    {
      firings, raised := [], false;
      var covered: set<string> := {};
      for n := 0 to |rules|
        invariant !raised && Fired(Value(), firings, raised) == FireFirst(Wiring(), old(Value()), env, n)
        invariant forall a :: a in covered <==> Covered(firings, a)
      {
        var ask := rules[n].matcher(env);
        if ask.None? || ask.value !in env.asks || ask.value in covered { continue; }
        ghost var was := firings;
        if log.Has(env.taskId, rules[n].key, disk(|runs|).readable) {
          firings := firings + [Firing(ask.value, rules[n].key, true, Previously)];
          CoveredAppend(was, firings[|was|]);
          covered := covered + {ask.value};
          continue;
        }
        var proposal := BuildProposal(env, rules[n].key, ask.value);
        if !Approves(proposal) { continue; }
        var outcome;
        outcome, raised := Execute(env.taskId, rules[n].key, proposal);
        if raised {
          StaysRaised(Wiring(), old(Value()), env, n + 1, |rules|);
          return;
        }
        firings := firings + [Firing(ask.value, rules[n].key, outcome == Applied, NoteOf(outcome))];
        CoveredAppend(was, firings[|was|]);
        covered := covered + {ask.value};
      }
    }

    predicate Approves(p: Proposal)
      reads this, log
    {
      p.moneyMovement in {Absent, Bool(false)} && p.blocking == Bool(true) && p.key.Text? && p.key.s in keys &&
      p.provenance.Text? && Strip(p.provenance.s) != "" && p.taskId.Text? && SafeSlug(p.taskId.s) &&
      !log.Has(p.taskId.s, p.key.s, disk(|runs|).readable) && (max.None? || applied < max.value)
    }
  }

  /** The rule's turn executed it. */
  ghost predicate Ran(c: Config, k: Kit, after: Kit, env: Envelope, rule: Rule) {
    match rule.matcher(env)
    case None => false
    case Some(ask) =>
      && ask in env.asks && Allows(c, k, BuildProposal(env, rule.key, ask))
      && after == Executed(c, k, env.taskId, rule.key, BuildProposal(env, rule.key, ask))
  }

  lemma Turn(c: Config, k: Kit, env: Envelope, n: nat)
    requires 0 < n <= |c.rules|
    ensures var before, after := FireFirst(c, k, env, n - 1).kit, FireFirst(c, k, env, n).kit;
            after == before || Ran(c, before, after, env, c.rules[n - 1])
  {
  }

  lemma {:induction false} StaysRaised(c: Config, k: Kit, env: Envelope, n: nat, m: nat)
    requires n <= m <= |c.rules| && FireFirst(c, k, env, n).raised
    ensures FireFirst(c, k, env, m) == FireFirst(c, k, env, n)
  {
    if n < m { StaysRaised(c, k, env, n, m - 1); }
  }

  lemma CoveredAppend(fs: seq<Firing>, f: Firing)
    ensures forall a :: Covered(fs + [f], a) <==> Covered(fs, a) || a == f.ask
  {
    forall a ensures Covered(fs + [f], a) <==> Covered(fs, a) || a == f.ask {
      if Covered(fs, a) {
        var i :| 0 <= i < |fs| && fs[i].ask == a;
        assert (fs + [f])[i].ask == a;
      }
      if a == f.ask { assert (fs + [f])[|fs|].ask == a; }
    }
  }
}
