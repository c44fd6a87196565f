/** Whether a reply follows a fired reflex: the condition on the keys a kit's rules are registered under. */
module ReplyKeys {
  import opened PyText
  import opened Handoff
  import opened Reflex
  import opened ReflexSafety
  import opened ReflexNotes
  import opened Responder

  /** Every rule is registered under one of these keys. */
  predicate RulesUnder(c: Config, keys: set<string>) { forall i :: 0 <= i < |c.rules| ==> c.rules[i].key in keys }

  /** A key a decision can carry: stripped, on one line, and at most 200 characters. */
  predicate Carried(key: string) { RequiredLine(key, MAX_SUMMARY) }

  // ----- clean keys -----

  predicate FiringsUnder(fs: seq<Firing>, keys: set<string>) { forall i :: 0 <= i < |fs| ==> fs[i].key in keys }

  lemma RuleFiresUnder(c: Config, k: Kit, fs: seq<Firing>, env: Envelope, rule: Rule, keys: set<string>)
    requires FiringsUnder(fs, keys) && rule.key in keys
    ensures FiringsUnder(FireRule(c, k, fs, env, rule).firings, keys)
  {
  }

  lemma {:induction false} FiresUnder(c: Config, k: Kit, env: Envelope, keys: set<string>, n: nat)
    requires n <= |c.rules| && RulesUnder(c, keys)
    ensures FiringsUnder(FireFirst(c, k, env, n).firings, keys)
  {
    if n > 0 {
      FiresUnder(c, k, env, keys, n - 1);
      var before := FireFirst(c, k, env, n - 1);
      if !before.raised { RuleFiresUnder(c, before.kit, before.firings, env, c.rules[n - 1], keys); }
    }
  }

  lemma CarriedMarkable(key: string)
    requires Carried(key)
    ensures Strip(key) != "" && Markable(key)
  {
    assert StripLeft(key) == key;
  }

  lemma RuleRaisesNot(c: Config, k: Kit, fs: seq<Firing>, env: Envelope, rule: Rule)
    requires TaskId(env.taskId) && Carried(rule.key) && (c.persistent ==> WritesLand(c))
    ensures !FireRule(c, k, fs, env, rule).raised
  {
    CarriedMarkable(rule.key);
    if c.persistent {
      var n := |k.runs|;
      assert c.disk(n).write.Some?;
      MarkExactly(env.taskId, rule.key, c.disk(n).write.value);
    }
  }

  /** Under such keys no mark raises where the writes land. */
  lemma {:induction false} NoMarkRaisesUnder(c: Config, k: Kit, env: Envelope, keys: set<string>, n: nat)
    requires n <= |c.rules| && RulesUnder(c, keys) && (forall key :: key in keys ==> Carried(key))
    requires TaskId(env.taskId) && (c.persistent ==> WritesLand(c))
    ensures !FireFirst(c, k, env, n).raised
  {
    if n > 0 {
      NoMarkRaisesUnder(c, k, env, keys, n - 1);
      var before := FireFirst(c, k, env, n - 1);
      RuleRaisesNot(c, before.kit, before.firings, env, c.rules[n - 1]);
    }
  }

  // ----- the failing kits -----

  /** An in-memory kit of one rule whose executor always applies. */
  function Unlogged(key: string, keys: set<string>): Config { Lone(key, keys, None,
                                                                   Disk(None, true)).(persistent := false) }

  const NEWBORN := Kit({}, map[], 0, [])

  /** Its one firing on an alert: the reflex ran, and applied. */
  lemma UnloggedFires(key: string, keys: set<string>)
    requires key in keys
    ensures var f := Fire(Unlogged(key, keys), NEWBORN, Alert("t"));
            f.firings == [Firing("x", key, true, NoNote)] && !f.raised &&
            f.kit.runs == [Run(AlertProposal("t", key), Applied)]
  {
    var c, env := Unlogged(key, keys), Alert("t");
    LoneFires(c, NEWBORN, key, "t");
    assert FireFirst(c, NEWBORN, env, 0) == Fired(NEWBORN, [], false);
    assert OwnProvenance(env.facts, "a") == "p";
    assert [] + [Firing("x", key, true, NoNote)] == [Firing("x", key, true, NoNote)];
  }

  lemma OneRemains(key: string)
    ensures var fs := [Firing("x", key, true, NoNote)]; Remaining(Alert("t").asks, FiredAsks(fs)) == []
  {
    var fs := [Firing("x", key, true, NoNote)];
    assert FiredAsks(fs) == {"x"} by { assert fs[0].ask == "x"; }
    assert Alert("t").asks[..0] == [];
  }

  /** Under a key that no decision can carry the reflex runs, and then every way on raises composing the response,
      whatever the model answers and whoever asks. */
  lemma UncarriedKeyRaises(key: string, keys: set<string>, me: string, replyTo: string, model: Model, quiet: bool,
                           known: set<string>, records: Records, r: Reply)
    requires key in keys && !Carried(key)
    ensures var f := Fire(Unlogged(key, keys), NEWBORN, Alert("t"));
            && f.firings == [Firing("x", key, true, NoNote)] && !f.raised
            && f.kit.runs == [Run(AlertProposal("t", key), Applied)]
            && (Replies(r, Alert("t"), me, replyTo, f.firings, f.raised, model, quiet, known, records) <==>
                r == HandoffRaised)
  {
    var f := Fire(Unlogged(key, keys), NEWBORN, Alert("t"));
    UnloggedFires(key, keys);
    OneRemains(key);
    assert !CleanKey(f.firings[0]);
  }

  /** Such a key: "k" after a space, which a rule may be registered under. */
  lemma SpacedKey(key: string)
    requires key == [' ', 'k']
    ensures Registrable({key}) && !Carried(key)
  {
    assert key[1..] == ['k'] && StripLeft(key) == ['k'];
  }

  // ----- the exact condition -----

  /** Every firing of every kit with these keys can be reported exactly when every key can be carried. */
  lemma CleanExactly(keys: set<string>)
    ensures (forall c: Config, k: Kit, env: Envelope ::
               RulesUnder(c, keys) && env.Valid() ==> AllClean(Fire(c, k, env).firings)) <==>
            forall key :: key in keys ==> Carried(key)
  {
    if forall key :: key in keys ==> Carried(key) {
      forall c: Config, k: Kit, env: Envelope | RulesUnder(c, keys) ensures AllClean(Fire(c, k, env).firings) {
        FiresUnder(c, k, env, keys, |c.rules|);
      }
    } else {
      var key :| key in keys && !Carried(key);
      var c := Unlogged(key, keys);
      UnloggedFires(key, keys);
      AlertValid("t");
      assert RulesUnder(c, keys) && !CleanKey(Fire(c, NEWBORN, Alert("t")).firings[0]);
    }
  }

  /** A reflex fired, and `r` is an outcome of negotiating the envelope with a working model and records. */
  ghost predicate Reacted(c: Config, k: Kit, env: Envelope, me: string, replyTo: string, model: Model, quiet: bool,
                          known: set<string>, r: Reply)
  {
    var f := Fire(c, k, env);
    && (f.firings != [] || f.raised) && model != Broken
    && Replies(r, env, me, replyTo, f.firings, f.raised, model, quiet, known, Records(false, false))
  }

  /** A kit under these keys whose note writes land, handed an envelope that can be composed. */
  ghost predicate Served(c: Config, env: Envelope, keys: set<string>) {
    RulesUnder(c, keys) && env.Valid() && (c.persistent ==> WritesLand(c))
  }

  /** Where no mark raises and every key is clean, the reply follows. */
  lemma ReplyFollows(c: Config, k: Kit, env: Envelope, me: string, replyTo: string, model: Model, quiet: bool,
                     known: set<string>, r: Reply, keys: set<string>)
    requires Served(c, env, keys) && (forall key :: key in keys ==> Carried(key))
    requires Reacted(c, k, env, me, replyTo, model, quiet, known, r)
    ensures r.Say?
  {
    var f := Fire(c, k, env);
    NoMarkRaisesUnder(c, k, env, keys, |c.rules|);
    FiresUnder(c, k, env, keys, |c.rules|);
    OneFiringPerAsk(c, k, env, |c.rules|);
    assert f.firings[0].ask in env.asks;
  }

  /** A reply follows whenever a reflex fired, in every kit with these keys whose note writes land, with the gateway up
      or down, exactly when every key can be carried by a decision. */
  lemma ReplyExactly(keys: set<string>)
    ensures (forall c: Config, k: Kit, env: Envelope, me: string, replyTo: string, model: Model, quiet: bool,
             known: set<string>, r: Reply ::
               Served(c, env, keys) && Reacted(c, k, env, me, replyTo, model, quiet, known, r) ==> r.Say?) <==>
            forall key :: key in keys ==> Carried(key)
  {
    if forall key :: key in keys ==> Carried(key) {
      forall c: Config, k: Kit, env: Envelope, me: string, replyTo: string, model: Model, quiet: bool,
             known: set<string>, r: Reply |
        Served(c, env, keys) && Reacted(c, k, env, me, replyTo, model, quiet, known, r)
        ensures r.Say?
      {
        ReplyFollows(c, k, env, me, replyTo, model, quiet, known, r, keys);
      }
    } else {
      var key :| key in keys && !Carried(key);
      var c := Unlogged(key, keys);
      UncarriedKeyRaises(key, keys, "b", "a", GatewayDown, true, {}, Records(false, false), HandoffRaised);
      AlertValid("t");
      assert Served(c, Alert("t"), keys) && Reacted(c, NEWBORN, Alert("t"), "b", "a", GatewayDown, true, {},
                                                    HandoffRaised);
    }
  }
}
