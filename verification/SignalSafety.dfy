/** No signal is lost, over every interleaving of arrivals, polls and failures. */
module SignalSafety {
  import opened PyText
  import opened Archive
  import opened SignalPoll

  /** `listed` is what the last listing saw. */
  datatype World = World(archive: set<string>, listed: set<string>, stored: Option<Cursor>, handed: seq<Delivery>,
                         done: seq<string>)

  datatype Event = Arrive(name: string) | Polled(names: seq<string>, loaded: Option<Cursor>, fates: nat -> Fate)

  predicate Dated(f: Feed, name: string) { Archived(f.worker, name) && |DateOf(name)| == DATE_LENGTH }

  /** `names` is the listing of the archive for cursor `c`. */
  ghost predicate ListingOf(f: Feed, archive: set<string>, c: Option<Cursor>, names: seq<string>) {
    Sorted(names) && forall n :: n in names <==> n in archive && !Covers(c, n)
  }

  /** The environment: an object arrives once, never with a date earlier than one already listed; a poll loads the
      stored cursor, or nothing when the load fails. */
  ghost predicate Legal(f: Feed, w: World, e: Event) {
    match e
    case Arrive(name) =>
      Dated(f, name) && name !in w.archive && forall m :: m in w.listed ==> !Less(DateOf(name), DateOf(m))
    case Polled(names, loaded, _) => loaded in {w.stored, None} && ListingOf(f, w.archive, loaded, names)
  }

  function After(f: Feed, w: World, e: Event): World {
    match e
    case Arrive(name) => w.(archive := w.archive + {name})
    case Polled(names, loaded, fates) =>
      var r := Walk(f, Walker(loaded, w.stored, w.handed, [], w.done, false), names, fates, |names|);
      World(w.archive, w.archive, r.stored, r.handed, r.done)
  }

  /** Every signal of the object that the subscription wants went to the callback without raising. */
  ghost predicate Handed(f: Feed, handed: seq<Delivery>, name: string) {
    forall k: nat :: k < |f.contents(name)| && Wants(f.sub, f.contents(name)[k]) ==>
      Delivery(name, k, f.contents(name)[k]) in handed
  }

  lemma HandedIs(f: Feed, handed: seq<Delivery>, name: string)
    ensures Handed(f, handed, name) <==> forall d :: d in AllMatching(f, name) ==> d in handed
  {
    MatchingExactly(f, name, |f.contents(name)|);
  }

  /** Everything a cursor covers was handed over. */
  ghost predicate Honest(f: Feed, archive: set<string>, c: Option<Cursor>, handed: seq<Delivery>) {
    forall n :: n in archive && Covers(c, n) ==> Handed(f, handed, n)
  }

  /** A cursor names only dates and run ids of objects seen. */
  ghost predicate Seen(c: Option<Cursor>, listed: set<string>) {
    c.Some? ==>
      && |c.value.date| == DATE_LENGTH
      && (exists m :: m in listed && DateOf(m) == c.value.date)
      && forall r :: r in c.value.runs ==> exists m :: m in listed && DateOf(m) == c.value.date && RunOf(m) == r
  }

  ghost predicate WorldOk(f: Feed, w: World) {
    match w case World(archive, listed, stored, handed, _) =>
      && AllDated(f, archive) && listed <= archive && Seen(stored, listed) && Honest(f, archive, stored, handed)
      && forall n :: n in archive && Covers(stored, n) ==> n in listed
  }

  ghost predicate AllDated(f: Feed, archive: set<string>) { forall n :: n in archive ==> Dated(f, n) }

  // ----- advancing the cursor -----

  /** Advancing over an object not before the cursor keeps what was covered, adds the object, and otherwise covers
      only strictly earlier dates. */
  lemma AdvanceCovers(f: Feed, c: Option<Cursor>, name: string, n: string)
    requires '/' !in f.worker && Dated(f, name) && Dated(f, n)
    requires c.Some? ==> |c.value.date| == DATE_LENGTH && !Less(DateOf(name), c.value.date)
    ensures Covers(c, n) ==> Covers(Advance(c, name), n)
    ensures Covers(Advance(c, name), name)
    ensures Covers(Advance(c, name), n) && !Covers(c, n) ==> n == name || Less(DateOf(n), DateOf(name))
  {
    NameOrder(f.worker, n, name);
    if c.Some? {
      LessTrichotomy(DateOf(name), c.value.date);
      if Less(DateOf(n), c.value.date) && Less(c.value.date, DateOf(name)) {
        LessTransitive(DateOf(n), c.value.date, DateOf(name));
      }
    }
  }

  // ----- one poll -----

  ghost predicate CursorOk(f: Feed, archive: set<string>, c: Option<Cursor>, handed: seq<Delivery>) {
    Seen(c, archive) && Honest(f, archive, c, handed)
  }

  /** Nothing still to come precedes the cursor in memory. */
  ghost predicate Ahead(c: Option<Cursor>, names: seq<string>, k: nat) {
    c.Some? ==> forall j :: k <= j < |names| ==> !Less(DateOf(names[j]), c.value.date)
  }

  /** Mid-poll, after `k` objects: both cursors are honest, and whatever the one in memory does not cover is still to
      come. */
  ghost predicate WalkOk(f: Feed, archive: set<string>, names: seq<string>, k: nat, w: Walker) {
    match w case Walker(mem, stored, handed, _, _, stopped) =>
      && CursorOk(f, archive, mem, handed) && CursorOk(f, archive, stored, handed)
      && (stopped || (Ahead(mem, names, k) &&
                      forall n :: n in archive && !Covers(mem, n) ==> exists j :: k <= j < |names| && names[j] == n))
  }

  lemma HandedMore(f: Feed, archive: set<string>, c: Option<Cursor>, handed: seq<Delivery>, more: seq<Delivery>)
    requires CursorOk(f, archive, c, handed)
    ensures CursorOk(f, archive, c, handed + more)
  {
    forall n | n in archive && Covers(c, n) ensures Handed(f, handed + more, n) { assert Handed(f, handed, n); }
  }

  lemma SeenAdvanced(f: Feed, archive: set<string>, c: Option<Cursor>, name: string)
    requires Seen(c, archive) && name in archive && Dated(f, name) && (c.Some? ==> !Less(DateOf(name), c.value.date))
    ensures Seen(Advance(c, name), archive)
  {
    if c.Some? { LessTrichotomy(DateOf(name), c.value.date); }
    var after := Advance(c, name).value;
    forall r | r in after.runs ensures exists m :: m in archive && DateOf(m) == after.date && RunOf(m) == r {
      if r == RunOf(name) { assert name in archive; }
    }
  }

  lemma HandedStill(f: Feed, handed: seq<Delivery>, more: seq<Delivery>, name: string)
    requires Handed(f, handed, name)
    ensures Handed(f, handed + more, name)
  {
  }

  lemma HandedNow(f: Feed, handed: seq<Delivery>, name: string)
    ensures Handed(f, handed + AllMatching(f, name), name)
  {
    HandedIs(f, handed + AllMatching(f, name), name);
  }

  lemma AdvanceOk(f: Feed, archive: set<string>, names: seq<string>, k: nat, w: Walker)
    requires '/' !in f.worker && AllDated(f, archive) && (forall n :: n in names ==> n in archive)
    requires Sorted(names) && k < |names| && WalkOk(f, archive, names, k, w) && !w.stopped
    ensures var mem := Advance(w.mem, names[k]);
            && CursorOk(f, archive, mem, w.handed + AllMatching(f, names[k]))
            && Ahead(mem, names, k + 1)
            && forall n :: n in archive && !Covers(mem, n) ==> exists j :: k + 1 <= j < |names| && names[j] == n
  {
    var name, mem := names[k], Advance(w.mem, names[k]);
    assert name in names;
    SeenAdvanced(f, archive, w.mem, name);
    forall n | n in archive && Covers(mem, n) ensures Handed(f, w.handed + AllMatching(f, name), n) {
      AdvanceCovers(f, w.mem, name, n);
      if Covers(w.mem, n) {
        HandedStill(f, w.handed, AllMatching(f, name), n);
      } else if n == name {
        HandedNow(f, w.handed, name);
      } else {
        var j :| k <= j < |names| && names[j] == n;
        NameOrder(f.worker, name, n);
        assert false;
      }
    }
    forall n | n in archive && !Covers(mem, n) ensures exists j :: k + 1 <= j < |names| && names[j] == n {
      AdvanceCovers(f, w.mem, name, n);
      var j :| k <= j < |names| && names[j] == n;
      AdvanceCovers(f, w.mem, name, name);
    }
    forall j | k + 1 <= j < |names| ensures !Less(DateOf(names[j]), mem.value.date) {
      assert names[j] in names && Less(name, names[j]);
      NameOrder(f.worker, name, names[j]);
    }
  }

  lemma VisitOk(f: Feed, archive: set<string>, names: seq<string>, k: nat, w: Walker, fate: Fate)
    requires '/' !in f.worker && AllDated(f, archive) && (forall n :: n in names ==> n in archive)
    requires Sorted(names) && k < |names| && WalkOk(f, archive, names, k, w) && !w.stopped
    ensures WalkOk(f, archive, names, k + 1, Visit(f, w, names[k], fate))
  {
    var due := AllMatching(f, names[k]);
    AdvanceOk(f, archive, names, k, w);
    HandedMore(f, archive, w.stored, w.handed, due);
    if fate.CallbackFails? && fate.at < |due| {
      HandedMore(f, archive, w.stored, w.handed, due[..fate.at]);
      HandedMore(f, archive, w.mem, w.handed, due[..fate.at]);
    }
  }

  /** Objects of the archive, in name order. */
  ghost predicate Scene(f: Feed, archive: set<string>, names: seq<string>) {
    '/' !in f.worker && AllDated(f, archive) && (forall n :: n in names ==> n in archive) && Sorted(names)
  }

  lemma SceneVisit(f: Feed, archive: set<string>, names: seq<string>, k: nat, w: Walker, fate: Fate)
    requires Scene(f, archive, names) && k < |names| && WalkOk(f, archive, names, k, w)
    ensures WalkOk(f, archive, names, k + 1, if w.stopped then w else Visit(f, w, names[k], fate))
  {
    if !w.stopped { VisitOk(f, archive, names, k, w, fate); }
  }

  lemma {:induction false} SceneWalk(f: Feed, archive: set<string>, w: Walker, names: seq<string>, fates: nat -> Fate,
                                     k: nat)
    requires Scene(f, archive, names) && k <= |names| && WalkOk(f, archive, names, 0, w)
    ensures WalkOk(f, archive, names, k, Walk(f, w, names, fates, k))
  {
    if k > 0 {
      SceneWalk(f, archive, w, names, fates, k - 1);
      SceneVisit(f, archive, names, k - 1, Walk(f, w, names, fates, k - 1), fates(k - 1));
    }
  }

  lemma WalkSafe(f: Feed, archive: set<string>, w: Walker, names: seq<string>, fates: nat -> Fate, k: nat)
    requires '/' !in f.worker && AllDated(f, archive) && (forall n :: n in names ==> n in archive)
    requires Sorted(names) && k <= |names| && WalkOk(f, archive, names, 0, w)
    ensures WalkOk(f, archive, names, k, Walk(f, w, names, fates, k))
  {
    SceneWalk(f, archive, w, names, fates, k);
  }

  lemma StartOk(f: Feed, w: World, names: seq<string>, loaded: Option<Cursor>)
    requires '/' !in f.worker && WorldOk(f, w) && loaded in {w.stored, None} && ListingOf(f, w.archive, loaded, names)
    ensures WalkOk(f, w.archive, names, 0, Walker(loaded, w.stored, w.handed, [], w.done, false))
  {
    if loaded.Some? {
      forall j | 0 <= j < |names| ensures !Less(DateOf(names[j]), loaded.value.date) { assert names[j] in names; }
    }
    forall n | n in w.archive && !Covers(loaded, n)
      ensures exists j :: 0 <= j < |names| && names[j] == n
    {
      assert n in names;
    }
  }

  // ----- every run -----

  lemma ArriveOk(f: Feed, w: World, name: string)
    requires '/' !in f.worker && WorldOk(f, w) && Legal(f, w, Arrive(name))
    ensures WorldOk(f, After(f, w, Arrive(name)))
  {
    assert !Covers(w.stored, name) by {
      if w.stored.Some? {
        var m :| m in w.listed && DateOf(m) == w.stored.value.date;
        if DateOf(name) == w.stored.value.date && RunOf(name) in w.stored.value.runs {
          var x :| x in w.listed && DateOf(x) == w.stored.value.date && RunOf(x) == RunOf(name);
          NameOrder(f.worker, x, name);
        }
      }
    }
  }

  lemma StepOk(f: Feed, w: World, e: Event)
    requires '/' !in f.worker && WorldOk(f, w) && Legal(f, w, e)
    ensures WorldOk(f, After(f, w, e))
  {
    match e
    case Arrive(name) => ArriveOk(f, w, name);
    case Polled(names, loaded, fates) =>
      StartOk(f, w, names, loaded);
      WalkSafe(f, w.archive, Walker(loaded, w.stored, w.handed, [], w.done, false), names, fates, |names|);
  }

  const START := World({}, {}, None, [], [])

  function Run(f: Feed, es: seq<Event>): World {
    if es == [] then START else After(f, Run(f, es[..|es| - 1]), es[|es| - 1])
  }

  ghost predicate LegalRun(f: Feed, es: seq<Event>) {
    es == [] || (LegalRun(f, es[..|es| - 1]) && Legal(f, Run(f, es[..|es| - 1]), es[|es| - 1]))
  }

  /** No loss: whatever arrives, fails or is retried, an archive object the persisted cursor covers has had every
      matching signal taken by the callback. */
  lemma {:induction false} NoLoss(f: Feed, es: seq<Event>)
    requires '/' !in f.worker && LegalRun(f, es)
    ensures WorldOk(f, Run(f, es))
  {
    if es != [] {
      NoLoss(f, es[..|es| - 1]);
      StepOk(f, Run(f, es[..|es| - 1]), es[|es| - 1]);
    }
  }

  // ----- coverage -----

  ghost predicate Grows(archive: set<string>, c: Option<Cursor>, d: Option<Cursor>) {
    forall n :: n in archive && Covers(c, n) ==> Covers(d, n)
  }

  lemma GrowsTransitive(archive: set<string>, c: Option<Cursor>, d: Option<Cursor>, e: Option<Cursor>)
    requires Grows(archive, c, d) && Grows(archive, d, e)
    ensures Grows(archive, c, e)
  {
  }

  function Begun(w: World, loaded: Option<Cursor>): Walker { Walker(loaded, w.stored, w.handed, [], w.done, false) }

  lemma WalkFrom(f: Feed, w: World, names: seq<string>, loaded: Option<Cursor>, fates: nat -> Fate, k: nat)
    requires '/' !in f.worker && WorldOk(f, w) && loaded in {w.stored, None} &&
             ListingOf(f, w.archive, loaded, names) && k <= |names|
    ensures WalkOk(f, w.archive, names, k, Walk(f, Begun(w, loaded), names, fates, k))
  {
    StartOk(f, w, names, loaded);
    WalkSafe(f, w.archive, Begun(w, loaded), names, fates, k);
  }

  lemma VisitGrows(f: Feed, archive: set<string>, names: seq<string>, k: nat, w: Walker, fate: Fate)
    requires '/' !in f.worker && AllDated(f, archive) && k < |names| && names[k] in archive
    requires WalkOk(f, archive, names, k, w) && !w.stopped
    ensures var v := Visit(f, w, names[k], fate);
            Grows(archive, w.mem, v.mem) && v.stored in {w.stored, v.mem}
  {
    forall n | n in archive ensures Covers(w.mem, n) ==> Covers(Advance(w.mem, names[k]), n) {
      AdvanceCovers(f, w.mem, names[k], n);
    }
  }

  lemma StepGrows(archive: set<string>, c: Option<Cursor>, before: Walker, after: Walker)
    requires Grows(archive, c, before.stored) && (before.mem.Some? ==> Grows(archive, c, before.mem))
    requires Grows(archive, before.mem, after.mem) && after.stored in {before.stored, after.mem}
    ensures before.mem.Some? ==> Grows(archive, c, after.stored) && Grows(archive, c, after.mem)
  {
    if before.mem.Some? { GrowsTransitive(archive, c, before.mem, after.mem); }
  }

  /** Both cursors cover what `c` covers. */
  ghost predicate Keeps(archive: set<string>, c: Option<Cursor>, w: Walker) {
    match w case Walker(mem, stored, _, _, _, _) => Grows(archive, c, stored) && Grows(archive, c, mem)
  }

  lemma VisitKeeps(f: Feed, archive: set<string>, c: Option<Cursor>, names: seq<string>, k: nat, w: Walker, fate: Fate)
    requires '/' !in f.worker && AllDated(f, archive) && k < |names| && names[k] in archive
    requires WalkOk(f, archive, names, k, w) && !w.stopped && Keeps(archive, c, w)
    ensures Keeps(archive, c, Visit(f, w, names[k], fate))
  {
    VisitGrows(f, archive, names, k, w, fate);
    GrowsTransitive(archive, c, w.mem, Visit(f, w, names[k], fate).mem);
  }

  lemma {:induction false} WalkKeeps(f: Feed, w: World, names: seq<string>, fates: nat -> Fate, k: nat)
    requires '/' !in f.worker && WorldOk(f, w) && ListingOf(f, w.archive, w.stored, names) && k <= |names|
    ensures Keeps(w.archive, w.stored, Walk(f, Begun(w, w.stored), names, fates, k))
  {
    if k > 0 {
      WalkKeeps(f, w, names, fates, k - 1);
      var before := Walk(f, Begun(w, w.stored), names, fates, k - 1);
      if !before.stopped {
        WalkFrom(f, w, names, w.stored, fates, k - 1);
        assert names[k - 1] in names;
        VisitKeeps(f, w.archive, w.stored, names, k - 1, before, fates(k - 1));
      }
    }
  }

  /** A poll whose load returned the stored cursor never shrinks coverage, whatever then fails. */
  lemma CoverageGrows(f: Feed, w: World, names: seq<string>, fates: nat -> Fate, k: nat)
    requires '/' !in f.worker && WorldOk(f, w) && ListingOf(f, w.archive, w.stored, names) && k <= |names|
    ensures var r := Walk(f, Begun(w, w.stored), names, fates, k);
            Grows(w.archive, w.stored, r.stored) && Grows(w.archive, w.stored, r.mem)
  {
    WalkKeeps(f, w, names, fates, k);
  }

  lemma {:induction false} UnluckyWalk(f: Feed, w: Walker, names: seq<string>, fates: nat -> Fate, n: nat)
    requires 1 <= n <= |names| && w.mem == None && !w.stopped
    requires fates(0) == Processed(true) && forall i: nat :: i > 0 ==> fates(i) == ReadFails
    ensures var r := Walk(f, w, names, fates, n); r.stored == Advance(None, names[0]) && (n >= 2 ==> r.stopped)
  {
    if n >= 2 {
      UnluckyWalk(f, w, names, fates, n - 1);
    } else {
      assert Walk(f, w, names, fates, 0) == w;
    }
  }

  lemma {:induction false} MemSome(f: Feed, w: Walker, names: seq<string>, fates: nat -> Fate, k: nat)
    requires 1 <= k <= |names|
    ensures var r := Walk(f, w, names, fates, k); !r.stopped ==> r.mem.Some?
  {
    if k > 1 { MemSome(f, w, names, fates, k - 1); }
  }

  lemma ReloadStep(f: Feed, w: World, names: seq<string>, k: nat, before: Walker, fate: Fate)
    requires '/' !in f.worker && WorldOk(f, w) && k < |names| && names[k] in w.archive
    requires WalkOk(f, w.archive, names, k, before) && !before.stopped && (k == 0 || before.mem.Some?)
    requires Grows(w.archive, w.stored, Advance(None, names[0]))
    requires Grows(w.archive, w.stored, before.stored) && (before.mem.Some? ==> Grows(w.archive, w.stored, before.mem))
    ensures var r := Visit(f, before, names[k], fate);
            Grows(w.archive, w.stored, r.stored) && (r.mem.Some? ==> Grows(w.archive, w.stored, r.mem))
  {
    var after := Visit(f, before, names[k], fate);
    VisitGrows(f, w.archive, names, k, before, fate);
    StepGrows(w.archive, w.stored, before, after);
    assert before.mem.None? ==> after.mem in {None, Advance(None, names[0])};
  }

  lemma {:induction false} ReloadGrows(f: Feed, w: World, names: seq<string>, fates: nat -> Fate, k: nat)
    requires '/' !in f.worker && WorldOk(f, w) && ListingOf(f, w.archive, None, names) && names != [] && k <= |names|
    requires Grows(w.archive, w.stored, Advance(None, names[0]))
    ensures var r := Walk(f, Begun(w, None), names, fates, k);
            Grows(w.archive, w.stored, r.stored) && (r.mem.Some? ==> Grows(w.archive, w.stored, r.mem))
  {
    if k > 0 {
      ReloadGrows(f, w, names, fates, k - 1);
      var before := Walk(f, Begun(w, None), names, fates, k - 1);
      if !before.stopped {
        WalkFrom(f, w, names, None, fates, k - 1);
        assert names[k - 1] in names;
        if k > 1 { MemSome(f, Begun(w, None), names, fates, k - 1); }
        ReloadStep(f, w, names, k - 1, before, fates(k - 1));
      }
    }
  }

  /** After a failed load coverage survives every outcome exactly when the first object alone covers what the stored
      cursor did: otherwise a save followed by a failed read leaves the stored cursor behind. */
  lemma FailedLoadShrinks(f: Feed, w: World, names: seq<string>)
    requires '/' !in f.worker && WorldOk(f, w) && ListingOf(f, w.archive, None, names)
    ensures (forall fates :: Grows(w.archive, w.stored, After(f, w, Polled(names, None, fates)).stored)) <==>
            names == [] || Grows(w.archive, w.stored, Advance(None, names[0]))
  {
    if names != [] {
      var unlucky: nat -> Fate := i => if i == 0 then Processed(true) else ReadFails;
      UnluckyWalk(f, Begun(w, None), names, unlucky, |names|);
      assert After(f, w, Polled(names, None, unlucky)).stored == Advance(None, names[0]);
      if Grows(w.archive, w.stored, Advance(None, names[0])) {
        forall fates ensures Grows(w.archive, w.stored, After(f, w, Polled(names, None, fates)).stored) {
          ReloadGrows(f, w, names, fates, |names|);
        }
      }
    }
  }

  // ----- a run whose cursor goes back -----

  function CleanFates(): nat -> Fate { (i: nat) => Processed(true) }

  /** The first object is processed, and the next read fails. */
  function UnluckyFates(): nat -> Fate { (i: nat) => if i == 0 then Processed(true) else ReadFails }

  lemma RunSnoc(f: Feed, es: seq<Event>, e: Event)
    requires LegalRun(f, es) && Legal(f, Run(f, es), e)
    ensures LegalRun(f, es + [e]) && Run(f, es + [e]) == After(f, Run(f, es), e)
  {
    Snoc(es, e);
  }

  lemma PairListed(f: Feed, a: string, b: string)
    requires '/' !in f.worker && Dated(f, a) && Dated(f, b) && Less(DateOf(a), DateOf(b))
    ensures a != b && ListingOf(f, {a, b}, None, [a, b])
  {
    NameOrder(f.worker, a, b);
    LessTrichotomy(DateOf(a), DateOf(b));
  }

  /** Two objects of two dates processed in one poll: the cursor covers the later one. */
  lemma BothWalked(f: Feed, w: Walker, a: string, b: string)
    requires w.mem == None && !w.stopped && Less(DateOf(a), DateOf(b))
    ensures Walk(f, w, [a, b], CleanFates(), 2).stored == Some(Cursor(DateOf(b), {RunOf(b)}))
  {
    var names := [a, b];
    assert Walk(f, w, names, CleanFates(), 0) == w;
    assert Walk(f, w, names, CleanFates(), 1) == Visit(f, w, a, Processed(true));
  }

  /** A reload that gets no further than the first leaves a cursor that does not. */
  lemma FirstWalked(f: Feed, w: Walker, a: string, b: string)
    requires w.mem == None && !w.stopped && Less(DateOf(a), DateOf(b))
    ensures !Covers(Walk(f, w, [a, b], UnluckyFates(), 2).stored, b)
  {
    UnluckyWalk(f, w, [a, b], UnluckyFates(), 2);
    LessTrichotomy(DateOf(a), DateOf(b));
  }

  function Both(a: string, b: string): seq<Event> { [Arrive(a), Arrive(b), Polled([a, b], None, CleanFates())] }

  lemma BothRun(f: Feed, a: string, b: string)
    requires '/' !in f.worker && Dated(f, a) && Dated(f, b) && Less(DateOf(a), DateOf(b))
    ensures LegalRun(f, Both(a, b)) && Run(f, Both(a, b)).archive == {a, b}
    ensures Run(f, Both(a, b)).stored == Some(Cursor(DateOf(b), {RunOf(b)}))
  {
    var es, last := [Arrive(a), Arrive(b)], Polled([a, b], None, CleanFates());
    PairListed(f, a, b);
    RunSnoc(f, [], Arrive(a));
    RunSnoc(f, [Arrive(a)], Arrive(b));
    assert [] + [Arrive(a)] == [Arrive(a)] && [Arrive(a)] + [Arrive(b)] == es && es + [last] == Both(a, b);
    assert Run(f, es).archive == {a, b};
    BothWalked(f, Begun(Run(f, es), None), a, b);
    RunSnoc(f, es, last);
  }

  lemma BothReloaded(f: Feed, a: string, b: string)
    requires '/' !in f.worker && Dated(f, a) && Dated(f, b) && Less(DateOf(a), DateOf(b))
    ensures var es := Both(a, b) + [Polled([a, b], None, UnluckyFates())];
            LegalRun(f, es) && !Covers(Run(f, es).stored, b)
  {
    BothRun(f, a, b);
    PairListed(f, a, b);
    RunSnoc(f, Both(a, b), Polled([a, b], None, UnluckyFates()));
    FirstWalked(f, Begun(Run(f, Both(a, b)), None), a, b);
  }

  /** The cursor does go back: after a poll that processed the objects of two days, a poll whose load failed and whose
      second read failed stores a cursor that no longer covers the later one. */
  lemma CursorGoesBack(f: Feed, day: string, next: string, run: string)
    requires '/' !in f.worker && '/' !in day && '/' !in next && '/' !in run
    requires |day| == DATE_LENGTH == |next| && Less(day, next)
    ensures var a, b := Name(f.worker, day, run), Name(f.worker, next, run);
            var es := Both(a, b) + [Polled([a, b], None, UnluckyFates())];
            && LegalRun(f, es) && LegalRun(f, Both(a, b)) && b in Run(f, Both(a, b)).archive
            && Covers(Run(f, Both(a, b)).stored, b) && !Covers(Run(f, es).stored, b)
  {
    var a, b := Name(f.worker, day, run), Name(f.worker, next, run);
    NameRead(f.worker, day, run);
    NameRead(f.worker, next, run);
    BothRun(f, a, b);
    BothReloaded(f, a, b);
  }

  // ----- failure-free polls -----

  /** Every object listed is processed and its cursor saved. */
  ghost predicate FailureFree(w: World, e: Event) {
    match e
    case Arrive(_) => true
    case Polled(_, loaded, fates) => loaded == w.stored && forall i: nat :: fates(i) == Processed(true)
  }

  lemma {:induction false} CleanWalk(f: Feed, w: Walker, names: seq<string>, fates: nat -> Fate, k: nat)
    requires k <= |names| && w.mem == w.stored && !w.stopped && forall i: nat :: fates(i) == Processed(true)
    ensures var r := Walk(f, w, names, fates, k);
            !r.stopped && r.mem == r.stored && r.done == w.done + names[..k]
  {
    if k > 0 {
      CleanWalk(f, w, names, fates, k - 1);
      assert names[..k] == names[..k - 1] + [names[k - 1]];
    } else {
      assert names[..0] == [];
    }
  }

  ghost predicate CleanRun(f: Feed, es: seq<Event>) {
    es == [] || (CleanRun(f, es[..|es| - 1]) && FailureFree(Run(f, es[..|es| - 1]), es[|es| - 1]))
  }

  /** The log has no repeats and holds exactly what was listed, all of it now covered. */
  ghost predicate AllOnce(w: World) {
    && Unique(w.done) && (forall n :: n in w.done <==> n in w.listed)
    && forall n :: n in w.listed ==> Covers(w.stored, n)
  }

  lemma CleanPoll(f: Feed, w: World, names: seq<string>, fates: nat -> Fate)
    requires '/' !in f.worker && WorldOk(f, w) && AllOnce(w)
    requires ListingOf(f, w.archive, w.stored, names) && forall i: nat :: fates(i) == Processed(true)
    ensures AllOnce(After(f, w, Polled(names, w.stored, fates)))
  {
    var r := Walk(f, Begun(w, w.stored), names, fates, |names|);
    CleanWalk(f, Begun(w, w.stored), names, fates, |names|);
    assert names[..|names|] == names;
    CoverageGrows(f, w, names, fates, |names|);
    WalkFrom(f, w, names, w.stored, fates, |names|);
    UniqueConcat(w.done, names);
    forall n ensures n in r.done <==> n in w.archive {
      assert n in r.done <==> n in w.done || n in names;
    }
  }

  /** Over failure-free polls each object is processed exactly once. */
  lemma {:induction false} ExactlyOnce(f: Feed, es: seq<Event>)
    requires '/' !in f.worker && LegalRun(f, es) && CleanRun(f, es)
    ensures AllOnce(Run(f, es))
  {
    if es != [] {
      var front, e := es[..|es| - 1], es[|es| - 1];
      ExactlyOnce(f, front);
      NoLoss(f, front);
      if e.Polled? { CleanPoll(f, Run(f, front), e.names, e.fates); }
    }
  }

  /** The deliveries due for some objects, in order. */
  function AllDue(f: Feed, names: seq<string>): seq<Delivery> {
    if names == [] then [] else AllDue(f, names[..|names| - 1]) + AllMatching(f, names[|names| - 1])
  }

  lemma {:induction false} DueConcat(f: Feed, a: seq<string>, b: seq<string>)
    ensures AllDue(f, a + b) == AllDue(f, a) + AllDue(f, b)
  {
    if b == [] {
      NoneConcat(a);
      NoneConcat(AllDue(f, a));
    } else {
      DueConcat(f, a, b[..|b| - 1]);
      assert (a + b)[..|a + b| - 1] == a + b[..|b| - 1];
      Assoc(AllDue(f, a), AllDue(f, b[..|b| - 1]), AllMatching(f, b[|b| - 1]));
    }
  }

  lemma DueSnoc(f: Feed, names: seq<string>, name: string)
    ensures AllDue(f, names + [name]) == AllDue(f, names) + AllMatching(f, name)
  {
    Snoc(names, name);
  }

  lemma {:induction false} CleanHands(f: Feed, w: Walker, names: seq<string>, fates: nat -> Fate, k: nat)
    requires k <= |names| && !w.stopped && forall i: nat :: fates(i) == Processed(true)
    ensures var r := Walk(f, w, names, fates, k); !r.stopped && r.handed == w.handed + AllDue(f, names[..k])
  {
    if k == 0 {
      NoneConcat(w.handed);
    } else {
      CleanHands(f, w, names, fates, k - 1);
      PyText.SplitAt(names, k - 1);
      DueSnoc(f, names[..k - 1], names[k - 1]);
      Assoc(w.handed, AllDue(f, names[..k - 1]), AllMatching(f, names[k - 1]));
    }
  }

  /** Over failure-free polls what was handed over is exactly the wanted lines of the objects processed, object by
      object and line by line; with `ExactlyOnce`, each once. */
  lemma {:induction false} HandedExactly(f: Feed, es: seq<Event>)
    requires CleanRun(f, es)
    ensures Run(f, es).handed == AllDue(f, Run(f, es).done)
  {
    if es != [] {
      HandedExactly(f, es[..|es| - 1]);
      if es[|es| - 1].Polled? { CleanPollHands(f, Run(f, es[..|es| - 1]), es[|es| - 1].names, es[|es| - 1].fates); }
    }
  }

  lemma CleanPollHands(f: Feed, w: World, names: seq<string>, fates: nat -> Fate)
    requires w.handed == AllDue(f, w.done) && forall i: nat :: fates(i) == Processed(true)
    ensures var r := After(f, w, Polled(names, w.stored, fates)); r.handed == AllDue(f, r.done)
  {
    CleanWalk(f, Begun(w, w.stored), names, fates, |names|);
    CleanHands(f, Begun(w, w.stored), names, fates, |names|);
    assert names[..|names|] == names;
    DueConcat(f, w.done, names);
  }

  // ----- nothing else is delivered -----

  /** A wanted line of an archived object. */
  predicate Wanted(f: Feed, archive: set<string>, d: Delivery) {
    && d.name in archive && d.index < |f.contents(d.name)| && d.signal == f.contents(d.name)[d.index]
    && Wants(f.sub, d.signal)
  }

  predicate AllWanted(f: Feed, archive: set<string>, ds: seq<Delivery>) {
    forall i :: 0 <= i < |ds| ==> Wanted(f, archive, ds[i])
  }

  lemma MatchingWanted(f: Feed, archive: set<string>, name: string)
    requires name in archive
    ensures AllWanted(f, archive, AllMatching(f, name))
  {
    var ds := AllMatching(f, name);
    MatchingExactly(f, name, |f.contents(name)|);
    assert forall i :: 0 <= i < |ds| ==> ds[i] in ds;
  }

  lemma VisitWanted(f: Feed, archive: set<string>, w: Walker, name: string, fate: Fate)
    requires name in archive && AllWanted(f, archive, w.handed) && AllWanted(f, archive, w.out)
    ensures var r := Visit(f, w, name, fate); AllWanted(f, archive, r.handed) && AllWanted(f, archive, r.out)
  {
    MatchingWanted(f, archive, name);
  }

  /** A poll hands over and returns only wanted lines of archived objects, and returns all it handed over. */
  lemma {:induction false} WalkWanted(f: Feed, archive: set<string>, w: Walker, names: seq<string>, fates: nat -> Fate,
                                      k: nat)
    requires k <= |names| && (forall i :: 0 <= i < |names| ==> names[i] in archive)
    requires AllWanted(f, archive, w.handed) && AllWanted(f, archive, w.out)
    ensures var r := Walk(f, w, names, fates, k); AllWanted(f, archive, r.handed) && AllWanted(f, archive, r.out)
  {
    if k > 0 {
      WalkWanted(f, archive, w, names, fates, k - 1);
      VisitWanted(f, archive, Walk(f, w, names, fates, k - 1), names[k - 1], fates(k - 1));
    }
  }

  /** In every legal run only wanted lines of archived objects are handed over, whatever fails. */
  lemma {:induction false} OnlyWanted(f: Feed, es: seq<Event>)
    requires LegalRun(f, es)
    ensures AllWanted(f, Run(f, es).archive, Run(f, es).handed)
  {
    if es != [] {
      OnlyWanted(f, es[..|es| - 1]);
      var w, e := Run(f, es[..|es| - 1]), es[|es| - 1];
      if e.Polled? {
        assert forall i :: 0 <= i < |e.names| ==> e.names[i] in e.names;
        WalkWanted(f, w.archive, Begun(w, e.loaded), e.names, e.fates, |e.names|);
      }
    }
  }

  /** A callback that would raise only past an object's last wanted line does not raise: the object is processed and its
      cursor saved. */
  lemma LateFailure(f: Feed, w: Walker, name: string, at: nat)
    requires |AllMatching(f, name)| <= at
    ensures Visit(f, w, name, CallbackFails(at)) == Visit(f, w, name, Processed(true))
  {
  }

  /** What one poll returns: the deliveries it handed over, and after them the one its callback raised on, if any. */
  predicate Returned(before: seq<Delivery>, handed: seq<Delivery>, out: seq<Delivery>) {
    |before| <= |handed| && (out == handed[|before|..] || (out != [] && out[..|out| - 1] == handed[|before|..]))
  }

  lemma {:induction false} PollReturns(f: Feed, w: Walker, names: seq<string>, fates: nat -> Fate, k: nat)
    requires k <= |names| && w.out == [] && !w.stopped
    ensures var r := Walk(f, w, names, fates, k);
            Returned(w.handed, r.handed, r.out) && (!r.stopped ==> r.out == r.handed[|w.handed|..])
  {
    if k > 0 {
      PollReturns(f, w, names, fates, k - 1);
      var r := Walk(f, w, names, fates, k - 1);
      if !r.stopped { VisitReturns(f, w.handed, r, names[k - 1], fates(k - 1)); }
    }
  }

  lemma VisitReturns(f: Feed, before: seq<Delivery>, w: Walker, name: string, fate: Fate)
    requires |before| <= |w.handed| && w.out == w.handed[|before|..]
    ensures var r := Visit(f, w, name, fate);
            Returned(before, r.handed, r.out) && (!r.stopped ==> r.out == r.handed[|before|..])
  {
    var due := AllMatching(f, name);
    DroppedConcat(w.handed, due, |before|);
    if fate.CallbackFails? && fate.at < |due| {
      DroppedConcat(w.handed, due[..fate.at], |before|);
      assert (w.out + due[..fate.at + 1])[..|w.out| + fate.at] == w.out + due[..fate.at];
    }
  }

  lemma DroppedConcat<T>(a: seq<T>, b: seq<T>, n: nat)
    requires n <= |a|
    ensures (a + b)[n..] == a[n..] + b
  {
  }

  lemma QuietListing(f: Feed, w: World, names: seq<string>)
    requires AllOnce(w) && w.archive == w.listed && ListingOf(f, w.archive, w.stored, names)
    ensures names == []
  {
    HasMember(names);
  }

  /** In every failure-free run that ends in a poll, the next listing is empty. */
  lemma UnchangedArchiveIsQuiet(f: Feed, es: seq<Event>, names: seq<string>)
    requires '/' !in f.worker && LegalRun(f, es) && CleanRun(f, es) && es != [] && es[|es| - 1].Polled?
    requires ListingOf(f, Run(f, es).archive, Run(f, es).stored, names)
    ensures names == []
  {
    ExactlyOnce(f, es);
    QuietListing(f, Run(f, es), names);
  }

  lemma HasMember(names: seq<string>)
    ensures names == [] || exists n :: n in names
  {
    if names != [] { assert names[0] in names; }
  }

  lemma UniqueConcat(a: seq<string>, b: seq<string>)
    requires Unique(a) && Sorted(b) && forall x :: x in b ==> x !in a
    ensures Unique(a + b)
  {
    forall i, j | 0 <= i < j < |a + b| ensures (a + b)[i] != (a + b)[j] {
      if i >= |a| { LessTrichotomy(b[i - |a|], b[j - |a|]); } else if j >= |a| { assert b[j - |a|] in b; }
    }
  }
}
