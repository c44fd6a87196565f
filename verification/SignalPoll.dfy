/** Polling the archive at least once: what survives failed reads, callbacks and cursor saves. */
module SignalPoll {
  import opened PyText
  import opened Archive

  datatype Signal = Signal(kind: string, urgency: string)

  datatype Subscription = Subscription(kinds: Option<set<string>>, minUrgency: Option<string>)

  /** `_URGENCY_RANK.get(urgency, 0)`. */
  function Rank(urgency: string): nat {
    if urgency == "info" then 0
    else if urgency == "soon" then 1
    else if urgency == "due" then 2
    else if urgency == "overdue" then 3
    else 0
  }

  /** `_matches`. */
  predicate Matches(s: Signal, sub: Subscription) {
    (sub.kinds.Some? ==> s.kind in sub.kinds.value) &&
    (sub.minUrgency.Some? ==> Rank(s.urgency) >= Rank(sub.minUrgency.value))
  }

  /** One signal of one archive object: the `index`-th line of `name`. */
  datatype Delivery = Delivery(name: string, index: nat, signal: Signal)

  /** The worker polled for, the subscription, and the (immutable) contents of its archive objects. */
  datatype Feed = Feed(worker: string, sub: Subscription, contents: string -> seq<Signal>)

  /** The matching signals of an object, in line order. */
  function Matching(f: Feed, name: string, n: nat): seq<Delivery>
    requires n <= |f.contents(name)|
  {
    if n == 0 then []
    else
      var front, s := Matching(f, name, n - 1), f.contents(name)[n - 1];
      if Matches(s, f.sub) then front + [Delivery(name, n - 1, s)] else front
  }

  function AllMatching(f: Feed, name: string): seq<Delivery> { Matching(f, name, |f.contents(name)|) }

  // ----- what a subscription wants -----

  /** An urgency at or above a floor on the ladder info, soon, due, overdue; anything else stands with info. */
  predicate AtOrAbove(urgency: string, floor: string) {
    && (floor == "soon" ==> urgency == "soon" || urgency == "due" || urgency == "overdue")
    && (floor == "due" ==> urgency == "due" || urgency == "overdue")
    && (floor == "overdue" ==> urgency == "overdue")
  }

  /** A signal of a wanted kind, any where none are given, at or above the floor, if there is one. */
  predicate Wants(sub: Subscription, s: Signal) {
    && (match sub.kinds case None => true case Some(kinds) => s.kind in kinds)
    && (match sub.minUrgency case None => true case Some(floor) => AtOrAbove(s.urgency, floor))
  }

  lemma MatchesExactly(s: Signal, sub: Subscription)
    ensures Matches(s, sub) <==> Wants(sub, s)
  {
    if sub.minUrgency.Some? { RankExactly(s.urgency, sub.minUrgency.value); }
  }

  lemma RankExactly(urgency: string, floor: string)
    ensures Rank(urgency) >= Rank(floor) <==> AtOrAbove(urgency, floor)
  {
    assert |"info"| == 4 && |"soon"| == 4 && |"due"| == 3 && |"overdue"| == 7 && "info"[0] != "soon"[0];
  }

  /** The deliveries of an object are exactly its wanted lines, in line order. */
  lemma {:induction false} MatchingExactly(f: Feed, name: string, n: nat)
    requires n <= |f.contents(name)|
    ensures var ds := Matching(f, name, n);
            && (forall d :: d in ds <==> d.name == name && d.index < n && d.signal == f.contents(name)[d.index] &&
                                         Wants(f.sub, d.signal))
            && forall i, j :: 0 <= i < j < |ds| ==> ds[i].index < ds[j].index
  {
    if n > 0 {
      var ds := Matching(f, name, n - 1);
      MatchingExactly(f, name, n - 1);
      MatchesExactly(f.contents(name)[n - 1], f.sub);
      assert forall i :: 0 <= i < |ds| ==> ds[i] in ds;
    }
  }

  // ----- one object -----

  /** What happens while an object is processed: its read fails; the callback raises on its `at`-th matching signal;
      or neither, and the cursor save then succeeds or not. */
  datatype Fate = ReadFails | CallbackFails(at: nat) | Processed(saved: bool)

  /** `mem` is the cursor in memory, `stored` the persisted one, `handed` every delivery the callback has taken
      without raising, `out` what this poll returns, `done` the objects processed, in order, over all polls. */
  datatype Walker = Walker(mem: Option<Cursor>, stored: Option<Cursor>, handed: seq<Delivery>, out: seq<Delivery>,
                           done: seq<string>, stopped: bool)

  function Advance(c: Option<Cursor>, name: string): Option<Cursor> {
    if c.None? || Less(c.value.date, DateOf(name)) then Some(Cursor(DateOf(name), {RunOf(name)}))
    else Some(Cursor(c.value.date, c.value.runs + {RunOf(name)}))
  }

  /** One object of the listing. */
  function Visit(f: Feed, w: Walker, name: string, fate: Fate): Walker {
    var due := AllMatching(f, name);
    match fate
    case ReadFails => w.(stopped := true)
    case CallbackFails(at) =>
      if at < |due| then w.(handed := w.handed + due[..at], out := w.out + due[..at + 1], stopped := true)
      else Settle(w, name, due, true)
    case Processed(saved) => Settle(w, name, due, saved)
  }

  function Settle(w: Walker, name: string, due: seq<Delivery>, saved: bool): Walker {
    var mem := Advance(w.mem, name);
    Walker(mem, if saved then mem else w.stored, w.handed + due, w.out + due, w.done + [name], false)
  }

  /** The first `n` objects of the listing, up to the first failure. */
  function Walk(f: Feed, w: Walker, names: seq<string>, fates: nat -> Fate, n: nat): Walker
    requires n <= |names|
  {
    if n == 0 then w
    else
      var before := Walk(f, w, names, fates, n - 1);
      if before.stopped then before else Visit(f, before, names[n - 1], fates(n - 1))
  }

  // ----- the poll loop -----

  /** One worker's part of `poll`, over a listing already made; the consumer's cursor store and deliveries taken. */
  class Consumer {
    var stored: Option<Cursor>
    var handed: seq<Delivery>
    var done: seq<string>

    constructor ()
      ensures stored == None && handed == [] && done == []
    {
      stored, handed, done := None, [], [];
    }

    method Poll(f: Feed, names: seq<string>, loaded: Option<Cursor>, fates: nat -> Fate) returns (out: seq<Delivery>)
      modifies this
      ensures var r := Walk(f, Walker(loaded, old(stored), old(handed), [], old(done), false), names, fates, |names|);
              stored == r.stored && handed == r.handed && done == r.done && out == r.out
    {
      ghost var start := Walker(loaded, stored, handed, [], done, false);
      var mem, halted := loaded, false;
      out := [];
      var i := 0;
      while i < |names| && !halted
        invariant i <= |names|
        invariant Walk(f, start, names, fates, i) == Walker(mem, stored, handed, out, done, halted)
      {
        mem, out, halted := Process(f, names[i], fates(i), mem, out);
        i := i + 1;
      }
      if halted { StoppedStays(f, start, names, fates, i, |names|); }
    }

    /** The body of the object loop. */
    method Process(f: Feed, name: string, fate: Fate, mem: Option<Cursor>, out: seq<Delivery>)
      returns (mem': Option<Cursor>, out': seq<Delivery>, halted: bool)
      modifies this
      ensures Walker(mem', stored, handed, out', done, halted) ==
              Visit(f, Walker(mem, old(stored), old(handed), out, old(done), false), name, fate)
    {
      if fate == ReadFails { return mem, out, true; }
      var given, failed := Deliver(f, name, fate);
      if failed { return mem, out + given, true; }
      done := done + [name];
      mem' := Advance(mem, name);
      if fate.CallbackFails? || fate.saved { stored := mem'; }
      return mem', out + given, false;
    }

    /** The signal loop of one object: every matching signal goes out, up to the first the callback raises on. */
    method Deliver(f: Feed, name: string, fate: Fate) returns (given: seq<Delivery>, failed: bool)
      modifies this`handed
      ensures var due := AllMatching(f, name);
              && (failed <==> fate.CallbackFails? && fate.at < |due|)
              && given == (if failed then due[..fate.at + 1] else due)
              && handed == old(handed) + if failed then due[..fate.at] else due
    {
      var signals := f.contents(name);
      given, failed := [], false;
      for k := 0 to |signals|
        invariant given == Matching(f, name, k) && handed == old(handed) + given && !failed
        invariant fate.CallbackFails? ==> |given| <= fate.at
      {
        if Matches(signals[k], f.sub) {
          var d := Delivery(name, k, signals[k]);
          MatchingPrefix(f, name, k + 1, |signals|);
          if fate.CallbackFails? && fate.at == |given| {
            assert AllMatching(f, name)[..fate.at] == given;
            return given + [d], true;
          }
          given := given + [d];
          handed := handed + [d];
        }
      }
    }
  }

  lemma {:induction false} MatchingPrefix(f: Feed, name: string, k: nat, n: nat)
    requires k <= n <= |f.contents(name)|
    ensures Matching(f, name, k) <= Matching(f, name, n)
  {
    if k < n { MatchingPrefix(f, name, k, n - 1); }
  }

  lemma {:induction false} StoppedStays(f: Feed, w: Walker, names: seq<string>, fates: nat -> Fate, k: nat, n: nat)
    requires k <= n <= |names| && Walk(f, w, names, fates, k).stopped
    ensures Walk(f, w, names, fates, n) == Walk(f, w, names, fates, k)
  {
    if k < n { StoppedStays(f, w, names, fates, k, n - 1); }
  }
}
