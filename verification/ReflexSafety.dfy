/** What holds of a reflex kit over its whole life. */
module ReflexSafety {
  import opened PyText
  import opened Handoff
  import opened Reflex

  /** A kit's life: envelopes it handles, and process restarts, which keep only the note files. */
  datatype Event = Handled(env: Envelope) | Restart

  function After(c: Config, k: Kit, e: Event): Kit {
    match e case Handled(env) => Fire(c, k, env).kit case Restart => Kit({}, k.files, 0, k.runs)
  }

  function Lived(c: Config, es: seq<Event>): Kit {
    if es == [] then Kit({}, map[], 0, []) else After(c, Lived(c, es[..|es| - 1]), es[|es| - 1])
  }

  /** The executions before the last restart. */
  function Earlier(c: Config, es: seq<Event>): seq<Run> {
    if es == [] then []
    else if es[|es| - 1].Restart? then Lived(c, es[..|es| - 1]).runs
    else Earlier(c, es[..|es| - 1])
  }

  /** The envelopes handled are ones that can be composed. */
  predicate Posted(es: seq<Event>) { forall i :: 0 <= i < |es| && es[i].Handled? ==> es[i].env.Valid() }

  predicate Succeeded(r: Run) { r.outcome == Applied && r.proposal.taskId.Text? && r.proposal.key.Text? }

  function PairOf(r: Run): (string, string)
    requires Succeeded(r)
  {
    (r.proposal.taskId.s, r.proposal.key.s)
  }

  predicate OnceEach(runs: seq<Run>) {
    forall i, j :: 0 <= i < j < |runs| && Succeeded(runs[i]) && Succeeded(runs[j]) ==>
      PairOf(runs[i]) != PairOf(runs[j])
  }

  function Successes(runs: seq<Run>): nat {
    if runs == [] then 0 else Successes(runs[..|runs| - 1]) + if runs[|runs| - 1].outcome == Applied then 1 else 0
  }

  // ----- at most once within a process -----

  /** No pair succeeded twice since execution `from`, and memory holds what did. */
  ghost predicate OnceSince(k: Kit, from: nat) {
    && from <= |k.runs| && OnceEach(k.runs[from..])
    && forall i :: from <= i < |k.runs| && Succeeded(k.runs[i]) ==> PairOf(k.runs[i]) in k.seen
  }

  lemma OnceMore(runs: seq<Run>, from: nat, r: Run)
    requires from <= |runs| && OnceEach(runs[from..])
    requires forall i :: from <= i < |runs| && Succeeded(runs[i]) && Succeeded(r) ==> PairOf(runs[i]) != PairOf(r)
    ensures OnceEach((runs + [r])[from..])
  {
    var all, before := (runs + [r])[from..], runs[from..];
    assert forall i :: 0 <= i < |before| ==> all[i] == before[i] == runs[from + i];
  }

  lemma RanOnce(c: Config, k: Kit, after: Kit, from: nat, env: Envelope, rule: Rule)
    requires OnceSince(k, from) && Ran(c, k, after, env, rule)
    ensures OnceSince(after, from)
  {
    OnceMore(k.runs, from, after.runs[|k.runs|]);
  }

  lemma {:induction false} FireOnce(c: Config, k: Kit, from: nat, env: Envelope, n: nat)
    requires n <= |c.rules| && OnceSince(k, from)
    ensures OnceSince(FireFirst(c, k, env, n).kit, from)
  {
    if n > 0 {
      FireOnce(c, k, from, env, n - 1);
      Turn(c, k, env, n);
      var before, after := FireFirst(c, k, env, n - 1).kit, FireFirst(c, k, env, n).kit;
      if after != before { RanOnce(c, before, after, from, env, c.rules[n - 1]); }
    }
  }

  /** Whatever the note store does, marks that raise included: within one process no pair succeeds twice. */
  lemma {:induction false} AtMostOnce(c: Config, es: seq<Event>)
    ensures OnceSince(Lived(c, es), |Earlier(c, es)|)
  {
    if es != [] {
      var front, k := es[..|es| - 1], Lived(c, es[..|es| - 1]);
      AtMostOnce(c, front);
      match es[|es| - 1]
      case Handled(env) => FireOnce(c, k, |Earlier(c, front)|, env, |c.rules|);
      case Restart => assert k.runs[|k.runs|..] == [];
    }
  }

  // ----- what each execution was -----

  /** The run was a blocking, non-money proposal of a registered key, on provenance the origin itself claims. */
  ghost predicate Justified(c: Config, r: Run, env: Envelope) {
    && r.proposal.blocking == Bool(true) && r.proposal.moneyMovement == Bool(false)
    && r.proposal.key.Text? && r.proposal.key.s in c.keys && r.proposal.taskId == Text(env.taskId)
    && r.proposal.ask in env.asks
    && exists f :: f in env.facts && f.claimant == env.origin && r.proposal.provenance == Text(f.provenance) &&
                   Strip(f.provenance) != ""
  }

  lemma {:induction false} OwnProvenanceClaimed(facts: seq<Fact>, origin: string)
    requires OwnProvenance(facts, origin) != ""
    ensures exists f :: f in facts && f.claimant == origin && f.provenance == OwnProvenance(facts, origin)
  {
    if !(facts[0].claimant == origin && facts[0].provenance != "") {
      OwnProvenanceClaimed(facts[1..], origin);
      var f :| f in facts[1..] && f.claimant == origin && f.provenance == OwnProvenance(facts[1..], origin);
      assert f in facts;
    } else {
      assert facts[0] in facts;
    }
  }

  /** The n-th execution succeeded and its mark raised, so that the counter missed it. */
  predicate Lost(c: Config, n: nat, r: Run) { Succeeded(r) && MarkRaises(c, n, PairOf(r).0, PairOf(r).1) }

  function RaisedMarks(c: Config, runs: seq<Run>): nat {
    if runs == [] then 0
    else
      var last := |runs| - 1;
      RaisedMarks(c, runs[..last]) + if Lost(c, last, runs[last]) then 1 else 0
  }

  /** What handling one envelope adds to a kit. */
  ghost predicate Grew(c: Config, k: Kit, after: Kit, env: Envelope) {
    && |k.runs| <= |after.runs| && after.runs[..|k.runs|] == k.runs
    && (forall i :: |k.runs| <= i < |after.runs| ==> Justified(c, after.runs[i], env))
    && after.applied - k.applied + RaisedMarks(c, after.runs) - RaisedMarks(c, k.runs) ==
       Successes(after.runs) - Successes(k.runs)
    && (c.max.Some? ==> after.applied <= k.applied || after.applied <= c.max.value)
  }

  lemma RanGrows(c: Config, k: Kit, after: Kit, env: Envelope, rule: Rule)
    requires Ran(c, k, after, env, rule)
    ensures Grew(c, k, after, env)
  {
    var ask, r := rule.matcher(env).value, after.runs[|k.runs|];
    ProposalJustified(c, k, env, rule.key, ask, r.outcome);
    GrewByOne(c, k, after, env, r);
  }

  lemma GrewByOne(c: Config, k: Kit, after: Kit, env: Envelope, r: Run)
    requires after.runs == k.runs + [r] && Justified(c, r, env)
    requires c.max.Some? ==> k.applied < c.max.value
    requires after.applied == k.applied + (if r.outcome == Applied && !Lost(c, |k.runs|, r) then 1 else 0)
    ensures Grew(c, k, after, env)
  {
    assert after.runs[..|k.runs|] == k.runs;
  }

  lemma ProposalJustified(c: Config, k: Kit, env: Envelope, key: string, ask: string, o: Outcome)
    requires Allows(c, k, BuildProposal(env, key, ask)) && ask in env.asks
    ensures Justified(c, Run(BuildProposal(env, key, ask), o), env)
  {
    OwnProvenanceClaimed(env.facts, env.origin);
  }

  lemma GrewTwice(c: Config, k: Kit, mid: Kit, after: Kit, env: Envelope)
    requires Grew(c, k, mid, env) && Grew(c, mid, after, env)
    ensures Grew(c, k, after, env)
  {
    assert after.runs[..|k.runs|] == after.runs[..|mid.runs|][..|k.runs|];
    forall i | |k.runs| <= i < |after.runs| ensures Justified(c, after.runs[i], env) {
      if i < |mid.runs| { assert after.runs[i] == after.runs[..|mid.runs|][i]; }
    }
  }

  lemma {:induction false} FireGrows(c: Config, k: Kit, env: Envelope, n: nat)
    requires n <= |c.rules|
    ensures Grew(c, k, FireFirst(c, k, env, n).kit, env)
  {
    if n > 0 {
      FireGrows(c, k, env, n - 1);
      Turn(c, k, env, n);
      var before, after := FireFirst(c, k, env, n - 1).kit, FireFirst(c, k, env, n).kit;
      if after != before {
        RanGrows(c, before, after, env, c.rules[n - 1]);
        GrewTwice(c, k, before, after, env);
      }
    }
  }

  /** A run some envelope of the life justified. */
  ghost predicate JustifiedIn(c: Config, r: Run, es: seq<Event>) {
    exists i :: 0 <= i < |es| && es[i].Handled? && Justified(c, r, es[i].env)
  }

  ghost predicate AllJustified(c: Config, runs: seq<Run>, es: seq<Event>) {
    forall i :: 0 <= i < |runs| ==> JustifiedIn(c, runs[i], es)
  }

  lemma JustifiedLonger(c: Config, r: Run, front: seq<Event>, last: Event)
    requires JustifiedIn(c, r, front)
    ensures JustifiedIn(c, r, front + [last])
  {
    var j :| 0 <= j < |front| && front[j].Handled? && Justified(c, r, front[j].env);
    assert (front + [last])[j] == front[j];
  }

  /** Over any life every execution was justified by an envelope handled. */
  lemma {:induction false} EveryRunJustified(c: Config, es: seq<Event>)
    ensures AllJustified(c, Lived(c, es).runs, es)
  {
    if es != [] {
      var front, last := es[..|es| - 1], es[|es| - 1];
      var before, after := Lived(c, front), Lived(c, es);
      assert es == front + [last];
      EveryRunJustified(c, front);
      if last.Handled? { FireGrows(c, before, last.env, |c.rules|); }
      forall i | 0 <= i < |after.runs| ensures JustifiedIn(c, after.runs[i], es) {
        if i < |before.runs| {
          JustifiedLonger(c, before.runs[i], front, last);
          assert after.runs[i] == after.runs[..|before.runs|][i];
        } else {
          assert es[|es| - 1] == last;
        }
      }
    }
  }

  /** Over any life: since the last restart the successes are those the policy counted and those whose mark raised, and
      what it counted stays within the cap. */
  lemma {:induction false} SuccessesAccounted(c: Config, es: seq<Event>)
    ensures var k, earlier := Lived(c, es), Earlier(c, es);
            && earlier <= k.runs
            && Successes(k.runs) - Successes(earlier) == k.applied + RaisedMarks(c, k.runs) - RaisedMarks(c, earlier)
            && (c.max.Some? ==> k.applied <= if c.max.value < 0 then 0 else c.max.value)
  {
    if es != [] {
      var front := es[..|es| - 1];
      SuccessesAccounted(c, front);
      if es[|es| - 1].Handled? {
        var k, after := Lived(c, front), Lived(c, es);
        FireGrows(c, k, es[|es| - 1].env, |c.rules|);
        assert k.runs == after.runs[..|k.runs|];
      }
    }
  }

  /** Firings on distinct asks of the envelope. */
  ghost predicate Distinctly(fs: seq<Firing>, env: Envelope) {
    && (forall i :: 0 <= i < |fs| ==> fs[i].ask in env.asks)
    && forall i, j :: 0 <= i < j < |fs| ==> fs[i].ask != fs[j].ask
  }

  /** One envelope: at most one firing per ask, every one on an ask it carries. */
  lemma {:induction false} OneFiringPerAsk(c: Config, k: Kit, env: Envelope, n: nat)
    requires n <= |c.rules|
    ensures Distinctly(FireFirst(c, k, env, n).firings, env)
  {
    if n > 0 {
      OneFiringPerAsk(c, k, env, n - 1);
      var before := FireFirst(c, k, env, n - 1);
      if !before.raised { RuleFires(c, before.kit, before.firings, env, c.rules[n - 1]); }
    }
  }

  lemma RuleFires(c: Config, k: Kit, fs: seq<Firing>, env: Envelope, rule: Rule)
    requires Distinctly(fs, env)
    ensures Distinctly(FireRule(c, k, fs, env, rule).firings, env)
  {
    var all := FireRule(c, k, fs, env, rule).firings;
    if all != fs {
      var last := all[|fs|];
      assert all == fs + [last] && !Covered(fs, last.ask);
      forall i, j | 0 <= i < j < |all| ensures all[i].ask != all[j].ask { assert all[i] == fs[i]; }
    }
  }

  // ----- is a "previously applied" report true? -----

  /** A success of exactly this task and key. */
  ghost predicate TrulyApplied(k: Kit, task: string, key: string) {
    exists i :: 0 <= i < |k.runs| && Succeeded(k.runs[i]) && PairOf(k.runs[i]) == (task, key)
  }

  function NoteOfRun(r: Run): string
    requires Succeeded(r)
  {
    NoteName(PairOf(r).0, PairOf(r).1)
  }

  /** The note of some success loads under the name of this pair's note. */
  ghost predicate Shadowed(k: Kit, task: string, key: string) {
    exists i :: 0 <= i < |k.runs| && Succeeded(k.runs[i]) && NoteOfRun(k.runs[i]) in k.files &&
                LoadedName(k.files[NoteOfRun(k.runs[i])], NoteOfRun(k.runs[i])) == Some(NoteName(task, key))
  }

  ghost predicate Wrote(k: Kit, stem: string) {
    exists i :: 0 <= i < |k.runs| && Succeeded(k.runs[i]) && NoteOfRun(k.runs[i]) == stem
  }

  /** Everything logged comes from a success. */
  ghost predicate NothingElse(k: Kit) {
    (forall p :: p in k.seen ==> TrulyApplied(k, p.0, p.1)) && forall stem :: stem in k.files ==> Wrote(k, stem)
  }

  /** A rule whose pair was not applied reports "previously applied" exactly when the notes persist and can be read and
      another success's note loads under its pair's note name. */
  lemma FalseReport(c: Config, k: Kit, fs: seq<Firing>, env: Envelope, rule: Rule, ask: string)
    requires NothingElse(k) && !TrulyApplied(k, env.taskId, rule.key)
    requires rule.matcher(env) == Some(ask) && ask in env.asks && !Covered(fs, ask)
    ensures FireRule(c, k, fs, env, rule) == Fired(k, fs + [Firing(ask, rule.key, true, Previously)], false) <==>
            c.persistent && c.disk(|k.runs|).readable && Shadowed(k, env.taskId, rule.key)
  {
    ShadowedNoted(k, env.taskId, rule.key);
    assert (env.taskId, rule.key) !in k.seen;
    var r := FireRule(c, k, fs, env, rule);
    if !Seen(c, k, env.taskId, rule.key) && Allows(c, k, BuildProposal(env, rule.key, ask)) {
      assert |r.kit.runs| == |k.runs| + 1;
    }
  }

  lemma ShadowedNoted(k: Kit, task: string, key: string)
    requires NothingElse(k)
    ensures Noted(k.files, NoteName(task, key)) <==> Shadowed(k, task, key)
  {
    if Noted(k.files, NoteName(task, key)) {
      var stem :| stem in k.files && LoadedName(k.files[stem], stem) == Some(NoteName(task, key));
      assert Wrote(k, stem);
    }
  }

  /** Over any life the log and its notes hold only what a successful execution put there. */
  lemma {:induction false} LogHasNothingElse(c: Config, es: seq<Event>)
    ensures NothingElse(Lived(c, es))
  {
    if es != [] {
      LogHasNothingElse(c, es[..|es| - 1]);
      if es[|es| - 1].Handled? { FireAddsNothingElse(c, Lived(c, es[..|es| - 1]), es[|es| - 1].env, |c.rules|); }
    }
  }

  lemma {:induction false} FireAddsNothingElse(c: Config, k: Kit, env: Envelope, n: nat)
    requires n <= |c.rules| && NothingElse(k)
    ensures NothingElse(FireFirst(c, k, env, n).kit)
  {
    if n > 0 {
      FireAddsNothingElse(c, k, env, n - 1);
      Turn(c, k, env, n);
      var before, after := FireFirst(c, k, env, n - 1).kit, FireFirst(c, k, env, n).kit;
      if after != before { RanAddsNothingElse(c, before, after, env, c.rules[n - 1]); }
    }
  }

  lemma RanAddsNothingElse(c: Config, k: Kit, after: Kit, env: Envelope, rule: Rule)
    requires NothingElse(k) && Ran(c, k, after, env, rule)
    ensures NothingElse(after)
  {
    NothingElseAfter(k, after, env.taskId, rule.key, after.runs[|k.runs|]);
  }

  lemma NothingElseAfter(k: Kit, after: Kit, task: string, key: string, r: Run)
    requires NothingElse(k) && after.runs == k.runs + [r]
    requires forall q :: q in after.seen ==> q in k.seen || (Succeeded(r) && q == PairOf(r))
    requires forall stem :: stem in after.files ==> stem in k.files || (Succeeded(r) && stem == NoteOfRun(r))
    ensures NothingElse(after)
  {
    var last := |k.runs|;
    forall q | q in after.seen ensures TrulyApplied(after, q.0, q.1) {
      if q in k.seen {
        var i :| 0 <= i < last && Succeeded(k.runs[i]) && PairOf(k.runs[i]) == q;
        assert after.runs[i] == k.runs[i];
      } else {
        assert Succeeded(after.runs[last]) && PairOf(after.runs[last]) == q;
      }
    }
    forall stem | stem in after.files ensures Wrote(after, stem) {
      if stem in k.files {
        var i :| 0 <= i < last && Succeeded(k.runs[i]) && NoteOfRun(k.runs[i]) == stem;
        assert after.runs[i] == k.runs[i];
      } else {
        assert Succeeded(after.runs[last]) && NoteOfRun(after.runs[last]) == stem;
      }
    }
  }

  // ----- what one rule's turn does -----

  /** The log knows the pair, in memory or by a note that can be read. */
  ghost predicate Logged(c: Config, k: Kit, task: string, key: string) {
    || (task, key) in k.seen
    || (c.persistent && c.disk(|k.runs|).readable &&
        exists stem :: stem in k.files && LoadedName(k.files[stem], stem) == Some(NoteName(task, key)))
  }

  /** Fact `i` is the origin's own, with provenance. */
  predicate Vouches(env: Envelope, i: nat) {
    i < |env.facts| && env.facts[i].claimant == env.origin && env.facts[i].provenance != ""
  }

  /** The first such fact's provenance. */
  ghost predicate Vouched(env: Envelope, provenance: string) {
    exists i: nat :: Vouches(env, i) && (forall j: nat :: j < i ==> !Vouches(env, j)) &&
      env.facts[i].provenance == provenance
  }

  /** The policy's yes: a key it lists, under its cap, on the origin's own visible provenance. */
  ghost predicate Permitted(c: Config, k: Kit, env: Envelope, key: string) {
    && key in c.keys && (match c.max case None => true case Some(max) => k.applied < max)
    && exists provenance :: Vouched(env, provenance) && Strip(provenance) != ""
  }

  /** From `b` to `a`: one execution, on the proposal spelled out, and what its outcome leaves in log and counter. */
  ghost predicate Runs(c: Config, b: Fired, a: Fired, env: Envelope, key: string, ask: string, provenance: string) {
    var k, outcome, task := b.kit, c.world(|b.kit.runs|), env.taskId;
    var text := NoteFile(task, key, c.disk(|k.runs|).write);
    var proposal :=
      Proposal(Text(key), Bool(false), Bool(true), Text(task), Text(provenance), env.origin, ask);
    var ran := k.(runs := k.runs + [Run(proposal, outcome)]);
    match outcome
    case NotApplied => a == Fired(ran, b.firings + [Firing(ask, key, false, Unapplied)], false)
    case Raised(name) => a == Fired(ran, b.firings + [Firing(ask, key, false, Failed(name))], false)
    case Applied =>
      var known := ran.(seen := k.seen + {(task, key)});
      if !c.persistent then
        a == Fired(known.(applied := k.applied + 1), b.firings + [Firing(ask, key, true, NoNote)], false)
      else if text.None? then a == Fired(known, b.firings, true)
      else
        a == Fired(known.(applied := k.applied + 1, files := k.files[NoteName(task, key) := text.value]),
                   b.firings + [Firing(ask, key, true, NoNote)], false)
  }

  lemma {:induction false} OwnProvenanceFirst(env: Envelope, facts: seq<Fact>, i: nat)
    requires i <= |env.facts| && facts == env.facts[i..] && forall j: nat :: j < i ==> !Vouches(env, j)
    ensures var own := OwnProvenance(facts, env.origin);
            if own == "" then forall j: nat :: !Vouches(env, j) else Vouched(env, own)
    decreases |facts|
  {
    if facts != [] {
      assert facts[0] == env.facts[i] && facts[1..] == env.facts[i + 1..];
      if Vouches(env, i) {
        assert Vouched(env, facts[0].provenance);
      } else {
        OwnProvenanceFirst(env, facts[1..], i + 1);
      }
    }
  }

  lemma VouchedOnce(env: Envelope, one: string, two: string)
    requires Vouched(env, one) && Vouched(env, two)
    ensures one == two
  {
    var i: nat :| Vouches(env, i) && (forall j: nat :: j < i ==> !Vouches(env, j)) && env.facts[i].provenance == one;
    var k: nat :| Vouches(env, k) && (forall j: nat :: j < k ==> !Vouches(env, j)) && env.facts[k].provenance == two;
    assert !(i < k) && !(k < i);
  }

  lemma PermittedIs(c: Config, k: Kit, env: Envelope, key: string, ask: string)
    requires env.Valid() && !Seen(c, k, env.taskId, key)
    ensures var own := OwnProvenance(env.facts, env.origin);
            && (Permitted(c, k, env, key) <==> Allows(c, k, BuildProposal(env, key, ask)))
            && (Permitted(c, k, env, key) ==> Vouched(env, own))
  {
    var own := OwnProvenance(env.facts, env.origin);
    OwnProvenanceFirst(env, env.facts, 0);
    if exists p :: Vouched(env, p) && Strip(p) != "" {
      var p :| Vouched(env, p) && Strip(p) != "";
      VouchedOnce(env, p, own);
    }
  }

  /** Rule by rule, in the order registered: a rule that matches an ask of the envelope not yet taken reports it
      "previously applied" if the log knows the pair, else runs once if the policy permits it, and is otherwise passed
      over, like one that matches nothing; what the run leaves is as it came out. A raising mark ends the loop. */
  lemma RuleTurn(c: Config, k: Kit, env: Envelope, n: nat)
    requires env.Valid() && n < |c.rules|
    ensures FireFirst(c, k, env, 0) == Fired(k, [], false) && Fire(c, k, env) == FireFirst(c, k, env, |c.rules|)
    ensures var b, a, rule := FireFirst(c, k, env, n), FireFirst(c, k, env, n + 1), c.rules[n];
            if b.raised then a == b
            else
              match rule.matcher(env)
              case None => a == b
              case Some(ask) =>
                if ask !in env.asks || exists i :: 0 <= i < |b.firings| && b.firings[i].ask == ask then a == b
                else if Logged(c, b.kit, env.taskId, rule.key) then
                  a == Fired(b.kit, b.firings + [Firing(ask, rule.key, true, Previously)], false)
                else if !Permitted(c, b.kit, env, rule.key) then a == b
                else exists provenance :: Vouched(env, provenance) && Runs(c, b, a, env, rule.key, ask, provenance)
  {
    var b, a, rule := FireFirst(c, k, env, n), FireFirst(c, k, env, n + 1), c.rules[n];
    if !b.raised && rule.matcher(env).Some? {
      var ask := rule.matcher(env).value;
      if ask in env.asks && !Covered(b.firings, ask) && !Seen(c, b.kit, env.taskId, rule.key) {
        PermittedIs(c, b.kit, env, rule.key, ask);
        if Permitted(c, b.kit, env, rule.key) { TurnRuns(c, b, a, env, rule, ask); }
      }
    }
  }

  lemma TurnRuns(c: Config, b: Fired, a: Fired, env: Envelope, rule: Rule, ask: string)
    requires a == FireRule(c, b.kit, b.firings, env, rule) && rule.matcher(env) == Some(ask)
    requires ask in env.asks && !Covered(b.firings, ask) && !Seen(c, b.kit, env.taskId, rule.key)
    requires Allows(c, b.kit, BuildProposal(env, rule.key, ask))
    ensures Runs(c, b, a, env, rule.key, ask, OwnProvenance(env.facts, env.origin))
  {
  }

  /** The wording of a firing's note. */
  lemma NotesSay(name: string)
    ensures NoteText(NoNote) == "" && NoteText(Previously) == "previously applied"
    ensures NoteText(Unapplied) == "executor reported not applied"
    ensures NoteText(Failed(name)) == "reflex execution failed: " + name
  {
  }
}
