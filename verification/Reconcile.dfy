/** Fitting the model's decisions to the asks of an envelope: verbatim labels first, then position. */
module Reconcile {
  import opened PyText
  import opened Handoff

  /** A field of a decoded JSON object. */
  datatype Field = Absent | Str(s: string) | Other

  /** One entry of the model's decision list; anything but an object matches nothing. */
  datatype Item = NotObject | Object(ask: Field, decision: Field, redirect: Field, reason: Field)

  predicate Labelled(item: Item, ask: string) { item.Object? && item.ask == Str(ask) }

  // ----- counting -----

  function CountAsks(asks: seq<string>, t: string, n: nat): nat
    requires n <= |asks|
  {
    if n == 0 then 0 else CountAsks(asks, t, n - 1) + if asks[n - 1] == t then 1 else 0
  }

  /** Items labelled `t` among the first `n`, restricted to the indices in `within`. */
  function CountItems(items: seq<Item>, t: string, within: set<nat>, n: nat): nat
    requires n <= |items|
  {
    if n == 0 then 0
    else CountItems(items, t, within, n - 1) + if n - 1 in within && Labelled(items[n - 1], t) then 1 else 0
  }

  function CountLabelled(items: seq<Item>, t: string, n: nat): nat
    requires n <= |items|
  {
    if n == 0 then 0 else CountLabelled(items, t, n - 1) + if Labelled(items[n - 1], t) then 1 else 0
  }

  /** Ask `i` holds an item the model labelled with that ask's own text. */
  predicate Own(asks: seq<string>, items: seq<Item>, matched: seq<Option<nat>>, i: nat)
    requires i < |asks| && i < |matched|
  {
    matched[i].Some? && matched[i].value < |items| && Labelled(items[matched[i].value], asks[i])
  }

  function CountOwn(asks: seq<string>, items: seq<Item>, matched: seq<Option<nat>>, t: string, n: nat): nat
    requires n <= |asks| && n <= |matched|
  {
    if n == 0 then 0
    else
      CountOwn(asks, items, matched, t, n - 1) +
      if asks[n - 1] == t && Own(asks, items, matched, n - 1) then 1 else 0
  }

  lemma {:induction false} CountAdd(items: seq<Item>, t: string, within: set<nat>, j: nat, n: nat)
    requires n <= |items| && j < |items| && j !in within
    ensures CountItems(items, t, within + {j}, n) ==
            CountItems(items, t, within, n) + if j < n && Labelled(items[j], t) then 1 else 0
  {
    if n > 0 { CountAdd(items, t, within, j, n - 1); }
  }

  lemma {:induction false} CountFull(items: seq<Item>, t: string, within: set<nat>, n: nat)
    requires n <= |items|
    ensures CountItems(items, t, within, n) <= CountLabelled(items, t, n)
    ensures (CountItems(items, t, within, n) == CountLabelled(items, t, n)) <==>
            forall j: nat :: j < n && Labelled(items[j], t) ==> j in within
  {
    if n > 0 { CountFull(items, t, within, n - 1); }
  }

  lemma {:induction false} OwnPrefix(asks: seq<string>, items: seq<Item>, a: seq<Option<nat>>, b: seq<Option<nat>>,
                                     t: string, n: nat)
    requires n <= |asks| && n <= |a| && n <= |b| && a[..n] == b[..n]
    ensures CountOwn(asks, items, a, t, n) == CountOwn(asks, items, b, t, n)
  {
    if n > 0 {
      assert a[n - 1] == a[..n][n - 1] && b[n - 1] == b[..n][n - 1];
      assert a[..n - 1] == a[..n][..n - 1] && b[..n - 1] == b[..n][..n - 1];
      OwnPrefix(asks, items, a, b, t, n - 1);
    }
  }

  lemma {:induction false} OwnBound(asks: seq<string>, items: seq<Item>, m: seq<Option<nat>>, t: string, n: nat, i: nat)
    requires n <= |asks| && n <= |m|
    ensures CountOwn(asks, items, m, t, n) <= CountAsks(asks, t, n)
    ensures i < n && asks[i] == t && !Own(asks, items, m, i) ==> CountOwn(asks, items, m, t, n) < CountAsks(asks, t, n)
  {
    if n > 0 { OwnBound(asks, items, m, t, n - 1, i); }
  }

  /** Rematching asks that no own-labelled item can reach leaves the count alone. */
  lemma {:induction false} OwnSame(asks: seq<string>, items: seq<Item>, a: seq<Option<nat>>, b: seq<Option<nat>>,
                                   t: string, n: nat)
    requires n <= |asks| && n <= |a| && n <= |b|
    requires forall i: nat :: i < n ==> (Own(asks, items, a, i) <==> Own(asks, items, b, i))
    ensures CountOwn(asks, items, a, t, n) == CountOwn(asks, items, b, t, n)
  {
    if n > 0 { OwnSame(asks, items, a, b, t, n - 1); }
  }

  // ----- the two passes -----

  ghost predicate Injective(m: seq<Option<nat>>) {
    forall i, k :: 0 <= i < k < |m| && m[i].Some? && m[k].Some? ==> m[i].value != m[k].value
  }

  ghost predicate Into(m: seq<Option<nat>>, items: seq<Item>) {
    forall i :: 0 <= i < |m| && m[i].Some? ==> m[i].value < |items| && items[m[i].value].Object?
  }

  function Used(m: seq<Option<nat>>): set<nat> {
    if m == [] then {}
    else Used(m[..|m| - 1]) + match m[|m| - 1] case Some(j) => {j} case None => {}
  }

  lemma {:induction false} UsedIff(m: seq<Option<nat>>, j: nat)
    ensures j in Used(m) <==> exists i :: 0 <= i < |m| && m[i] == Some(j)
  {
    if m != [] {
      UsedIff(m[..|m| - 1], j);
      assert forall i :: 0 <= i < |m| - 1 ==> m[..|m| - 1][i] == m[i];
      if m[|m| - 1] == Some(j) { assert m[|m| - 1] == Some(j); }
    }
  }

  lemma {:induction false} CountNone(items: seq<Item>, t: string, n: nat)
    requires n <= |items|
    ensures CountItems(items, t, {}, n) == 0
  {
    if n > 0 { CountNone(items, t, n - 1); }
  }

  /** Each ask text has as many own-labelled items as there are asks and items to go round. */
  ghost predicate Labels(asks: seq<string>, items: seq<Item>, m: seq<Option<nat>>, n: nat)
    requires n <= |asks| && n <= |m|
  {
    forall t :: CountOwn(asks, items, m, t, n) == Min(CountAsks(asks, t, n), CountLabelled(items, t, |items|))
  }

  ghost predicate GivenBefore(m: seq<Option<nat>>, i: nat, j: nat) {
    exists l :: 0 <= l < i && l < |m| && m[l] == Some(j)
  }

  /** An own-labelled item was the first not given to an earlier ask. */
  ghost predicate OwnFirst(asks: seq<string>, items: seq<Item>, m: seq<Option<nat>>)
    requires |m| <= |asks|
  {
    forall i: nat, j: nat ::
      i < |m| && Own(asks, items, m, i) && j < m[i].value && Labelled(items[j], asks[i]) ==> GivenBefore(m, i, j)
  }

  /** The claims for the first `|m|` asks: honest, and as many per text as there are asks and items for it. */
  ghost predicate Claims(asks: seq<string>, items: seq<Item>, m: seq<Option<nat>>, used: set<nat>)
    requires |m| <= |asks|
  {
    && Injective(m) && Into(m, items) && used == Used(m) && Labels(asks, items, m, |m|) && OwnFirst(asks, items, m)
    && (forall i: nat :: i < |m| && m[i].Some? ==> Own(asks, items, m, i))
    && forall t :: CountItems(items, t, used, |items|) == CountOwn(asks, items, m, t, |m|)
  }

  function Using(used: set<nat>, claim: Option<nat>): set<nat> {
    match claim case Some(j) => used + {j} case None => used
  }

  /** The first unclaimed item labelled with the ask, or none is left. */
  predicate FirstFree(items: seq<Item>, used: set<nat>, ask: string, claim: Option<nat>) {
    match claim
    case Some(j) =>
      j < |items| && j !in used && Labelled(items[j], ask) &&
      forall k: nat :: k < j && Labelled(items[k], ask) ==> k in used
    case None => forall k: nat :: k < |items| && Labelled(items[k], ask) ==> k in used
  }

  method FindFree(items: seq<Item>, used: set<nat>, ask: string) returns (claim: Option<nat>)
    ensures FirstFree(items, used, ask, claim)
  {
    var j := 0;
    while j < |items| && (j in used || !Labelled(items[j], ask))
      invariant j <= |items| && forall k: nat :: k < j && Labelled(items[k], ask) ==> k in used
    {
      j := j + 1;
    }
    claim := if j < |items| then Some(j) else None;
  }

  /** Pass 1: every ask claims the first unclaimed item labelled with its text. */
  method ClaimLabels(asks: seq<string>, items: seq<Item>) returns (m: seq<Option<nat>>, used: set<nat>)
    ensures |m| == |asks| && Claims(asks, items, m, used)
  {
    m, used := [], {};
    forall t ensures CountItems(items, t, {}, |items|) == 0 { CountNone(items, t, |items|); }
    for n := 0 to |asks|
      invariant |m| == n && Claims(asks, items, m, used)
    {
      var claim := FindFree(items, used, asks[n]);
      ClaimStep(asks, items, m, used, claim);
      m, used := m + [claim], Using(used, claim);
    }
  }

  lemma ClaimInjective(m: seq<Option<nat>>, claim: Option<nat>)
    requires Injective(m) && (claim.Some? ==> claim.value !in Used(m))
    ensures Injective(m + [claim])
  {
    if claim.Some? { UsedIff(m, claim.value); }
  }

  lemma ClaimInto(items: seq<Item>, m: seq<Option<nat>>, used: set<nat>, ask: string, claim: Option<nat>)
    requires Into(m, items) && used == Used(m) && FirstFree(items, used, ask, claim)
    ensures Into(m + [claim], items) && Using(used, claim) == Used(m + [claim])
  {
    Snoc(m, claim);
  }

  lemma GivenBeforeStill(m: seq<Option<nat>>, claim: Option<nat>, i: nat, j: nat)
    requires GivenBefore(m, i, j)
    ensures GivenBefore(m + [claim], i, j)
  {
    var l :| 0 <= l < i && l < |m| && m[l] == Some(j);
    assert (m + [claim])[l] == Some(j);
  }

  lemma ClaimFirst(asks: seq<string>, items: seq<Item>, m: seq<Option<nat>>, used: set<nat>, claim: Option<nat>)
    requires |m| < |asks| && OwnFirst(asks, items, m) && used == Used(m) && FirstFree(items, used, asks[|m|], claim)
    ensures OwnFirst(asks, items, m + [claim])
  {
    var m' := m + [claim];
    forall i: nat, j: nat | i < |m'| && Own(asks, items, m', i) && j < m'[i].value && Labelled(items[j], asks[i])
      ensures GivenBefore(m', i, j)
    {
      if i < |m| {
        assert Own(asks, items, m, i);
        GivenBeforeStill(m, claim, i, j);
      } else {
        UsedIff(m, j);
        var l :| 0 <= l < |m| && m[l] == Some(j);
        assert m'[l] == Some(j);
      }
    }
  }

  lemma ClaimStep(asks: seq<string>, items: seq<Item>, m: seq<Option<nat>>, used: set<nat>, claim: Option<nat>)
    requires |m| < |asks| && Claims(asks, items, m, used) && FirstFree(items, used, asks[|m|], claim)
    ensures Claims(asks, items, m + [claim], Using(used, claim))
  {
    Claimed(asks, items, m, used, |m|, claim);
    ClaimFirst(asks, items, m, used, claim);
    ClaimInjective(m, claim);
    ClaimInto(items, m, used, asks[|m|], claim);
  }

  lemma Claimed(asks: seq<string>, items: seq<Item>, m: seq<Option<nat>>, used: set<nat>, n: nat, claim: Option<nat>)
    requires n < |asks| && |m| == n && Labels(asks, items, m, n)
    requires forall t :: CountItems(items, t, used, |items|) == CountOwn(asks, items, m, t, n)
    requires FirstFree(items, used, asks[n], claim)
    ensures var m', used' := m + [claim], Using(used, claim);
            && Labels(asks, items, m', n + 1)
            && forall t :: CountItems(items, t, used', |items|) == CountOwn(asks, items, m', t, n + 1)
  {
    var m', used' := m + [claim], Using(used, claim);
    forall t
      ensures CountItems(items, t, used', |items|) == CountOwn(asks, items, m', t, n + 1)
      ensures CountOwn(asks, items, m', t, n + 1) == Min(CountAsks(asks, t, n + 1), CountLabelled(items, t, |items|))
    {
      assert m'[..n] == m[..n];
      OwnPrefix(asks, items, m, m', t, n);
      CountFull(items, t, used, |items|);
      if claim.Some? { CountAdd(items, t, used, claim.value, |items|); }
      CountFull(items, t, used', |items|);
      OwnBound(asks, items, m, t, n, 0);
    }
  }

  predicate Spare(items: seq<Item>, used: set<nat>, j: nat) { j < |items| && j !in used && items[j].Object? }

  /** The unclaimed objects, in order. */
  method Leftovers(items: seq<Item>, used: set<nat>) returns (spare: seq<nat>)
    ensures forall j: nat :: j in spare <==> Spare(items, used, j)
    ensures forall a, b :: 0 <= a < b < |spare| ==> spare[a] < spare[b]
  {
    spare := [];
    for n := 0 to |items|
      invariant forall j: nat :: j in spare <==> j < n && Spare(items, used, j)
      invariant forall a, b :: 0 <= a < b < |spare| ==> spare[a] < spare[b]
    {
      if n !in used && items[n].Object? {
        assert forall a :: 0 <= a < |spare| ==> spare[a] in spare;
        spare := spare + [n];
      }
    }
  }

  /** After pass 1 no unclaimed item carries the label of an ask left unmatched. */
  lemma SpareIsForeign(asks: seq<string>, items: seq<Item>, m: seq<Option<nat>>, used: set<nat>, i: nat, j: nat)
    requires |m| == |asks| && i < |asks| && m[i].None? && Spare(items, used, j)
    requires Labels(asks, items, m, |asks|)
    requires forall t :: CountItems(items, t, used, |items|) == CountOwn(asks, items, m, t, |asks|)
    ensures !Labelled(items[j], asks[i])
  {
    var t := asks[i];
    OwnBound(asks, items, m, t, |asks|, i);
    CountFull(items, t, used, |items|);
    assert CountOwn(asks, items, m, t, |asks|) == CountLabelled(items, t, |items|);
  }

  ghost predicate GivenOut(m: seq<Option<nat>>, j: nat) { exists i :: 0 <= i < |m| && m[i] == Some(j) }

  /** Pairs matched by position alone keep the order of asks and items. */
  ghost predicate InOrder(asks: seq<string>, items: seq<Item>, m: seq<Option<nat>>)
    requires |m| == |asks|
  {
    forall i: nat, k: nat ::
      i < k < |asks| && m[i].Some? && m[k].Some? && !Own(asks, items, m, i) && !Own(asks, items, m, k) ==>
        m[i].value < m[k].value
  }

  /** Position serves the first unmatched asks with the first objects left. */
  ghost predicate InTurn(asks: seq<string>, items: seq<Item>, m: seq<Option<nat>>)
    requires |m| == |asks|
  {
    && (forall i: nat, j: nat ::
          i < |m| && m[i].Some? && !Own(asks, items, m, i) && j < m[i].value && j < |items| && items[j].Object? ==>
            GivenOut(m, j))
    && (forall i: nat, k: nat :: i < k < |m| && m[i].None? && m[k].Some? ==> Own(asks, items, m, k))
  }

  /** No item is used twice; every label is honoured as far as it goes, first item first; the rest pair up in order, the
      first asks with the first objects; and no ask goes without while an object is left. */
  ghost predicate WellMatched(asks: seq<string>, items: seq<Item>, m: seq<Option<nat>>)
    requires |m| == |asks|
  {
    && Injective(m) && Into(m, items) && Labels(asks, items, m, |asks|) && OwnFirst(asks, items, m)
    && InOrder(asks, items, m) && InTurn(asks, items, m)
    && ((exists i :: 0 <= i < |m| && m[i].None?) ==>
          forall j :: 0 <= j < |items| && items[j].Object? ==> GivenOut(m, j))
  }

  lemma GivenOutStill(m: seq<Option<nat>>, next: Option<nat>, j: nat)
    requires GivenOut(m, j) || next == Some(j)
    ensures GivenOut(m + [next], j)
  {
    if GivenOut(m, j) {
      var i :| 0 <= i < |m| && m[i] == Some(j);
      assert (m + [next])[i] == Some(j);
    } else {
      assert (m + [next])[|m|] == Some(j);
    }
  }

  /** Pass 2 so far: claims kept, the first `k` spare items handed out in order (`pos` says which), none held back. */
  ghost predicate Filling(claimed: seq<Option<nat>>, spare: seq<nat>, m: seq<Option<nat>>, pos: seq<nat>, k: nat) {
    && |m| == |pos| <= |claimed| && k <= |spare|
    && (forall i :: 0 <= i < |m| && claimed[i].Some? ==> m[i] == claimed[i])
    && (forall i :: 0 <= i < |m| && claimed[i].None? && m[i].Some? ==> pos[i] < k && m[i].value == spare[pos[i]])
    && (forall i :: 0 <= i < |m| ==> pos[i] <= k)
    && (forall i :: 0 <= i < |m| && claimed[i].None? && m[i].None? ==> k == |spare| == pos[i])
    && (forall i, l :: 0 <= i < l < |m| ==> pos[i] <= pos[l])
    && (forall i, l :: 0 <= i < l < |m| && claimed[i].None? && claimed[l].None? && m[i].Some? && m[l].Some? ==>
        pos[i] < pos[l])
    && (forall r :: 0 <= r < k ==> GivenOut(m, spare[r]))
  }

  /** What is handed out for ask `n`, the next spare item or nothing, and how many are then handed out. */
  ghost predicate Hands(claimed: seq<Option<nat>>, spare: seq<nat>, n: nat, k: nat, next: Option<nat>, k': nat) {
    && n < |claimed| && k <= |spare|
    && if claimed[n].Some? then next == claimed[n] && k' == k
       else if k < |spare| then next == Some(spare[k]) && k' == k + 1
       else next == None && k' == k
  }

  lemma FillPlaces(claimed: seq<Option<nat>>, spare: seq<nat>, m: seq<Option<nat>>, pos: seq<nat>, k: nat,
                   next: Option<nat>, k': nat)
    requires Filling(claimed, spare, m, pos, k) && Hands(claimed, spare, |m|, k, next, k')
    ensures forall r :: 0 <= r < k' ==> GivenOut(m + [next], spare[r])
  {
    forall r | 0 <= r < k'
      ensures GivenOut(m + [next], spare[r])
    {
      GivenOutStill(m, next, spare[r]);
    }
  }

  lemma FillStep(claimed: seq<Option<nat>>, spare: seq<nat>, m: seq<Option<nat>>, pos: seq<nat>, k: nat,
                 next: Option<nat>, k': nat)
    requires Filling(claimed, spare, m, pos, k) && Hands(claimed, spare, |m|, k, next, k')
    ensures Filling(claimed, spare, m + [next], pos + [k], k')
  {
    var n, m', pos' := |m|, m + [next], pos + [k];
    FillPlaces(claimed, spare, m, pos, k, next, k');
    forall i | 0 <= i <= n
      ensures m'[i] == (if i < n then m[i] else next) && pos'[i] == (if i < n then pos[i] else k)
    {
    }
    if claimed[n].Some? {
      assert Filling(claimed, spare, m', pos', k');
    } else if k < |spare| {
      assert Filling(claimed, spare, m', pos', k');
    } else {
      assert Filling(claimed, spare, m', pos', k');
    }
  }

  /** Both passes. */
  method MatchItems(asks: seq<string>, items: seq<Item>) returns (m: seq<Option<nat>>)
    ensures |m| == |asks| && WellMatched(asks, items, m)
  {
    var claimed, used := ClaimLabels(asks, items);
    var spare := Leftovers(items, used);
    m := [];
    var k := 0;
    ghost var pos: seq<nat> := [];
    for n := 0 to |asks|
      invariant |m| == n && Filling(claimed, spare, m, pos, k)
    {
      ghost var before, handed := m, k;
      if claimed[n].Some? {
        m := m + [claimed[n]];
      } else if k < |spare| {
        m := m + [Some(spare[k])];
        k := k + 1;
      } else {
        m := m + [None];
      }
      FillStep(claimed, spare, before, pos, handed, m[n], k);
      pos := pos + [handed];
    }
    MatchedWell(asks, items, claimed, used, spare, m, pos, k);
  }

  /** The spare items handed out are new, and not the asks' own. */
  lemma SparesFit(asks: seq<string>, items: seq<Item>, claimed: seq<Option<nat>>, used: set<nat>, spare: seq<nat>,
                  m: seq<Option<nat>>, pos: seq<nat>, k: nat)
    requires |claimed| == |asks| == |m| == |pos| && k <= |spare| && Labels(asks, items, claimed, |asks|)
    requires forall t :: CountItems(items, t, used, |items|) == CountOwn(asks, items, claimed, t, |asks|)
    requires forall j: nat :: j in spare <==> Spare(items, used, j)
    requires forall i :: 0 <= i < |m| && claimed[i].None? && m[i].Some? ==> pos[i] < k && m[i].value == spare[pos[i]]
    ensures forall i :: 0 <= i < |m| && claimed[i].None? && m[i].Some? ==>
            Spare(items, used, m[i].value) && !Own(asks, items, m, i)
  {
    forall i | 0 <= i < |m| && claimed[i].None? && m[i].Some?
      ensures Spare(items, used, m[i].value) && !Own(asks, items, m, i)
    {
      assert spare[pos[i]] in spare;
      SpareIsForeign(asks, items, claimed, used, i, m[i].value);
    }
  }

  /** A claimed item is used; a spare one is not. */
  lemma FilledFrom(claimed: seq<Option<nat>>, items: seq<Item>, used: set<nat>, spare: seq<nat>, m: seq<Option<nat>>,
                   pos: seq<nat>, k: nat, i: nat)
    requires Filling(claimed, spare, m, pos, k) && used == Used(claimed) && i < |m| && m[i].Some?
    requires forall j: nat :: j in spare <==> Spare(items, used, j)
    ensures if claimed[i].Some? then m[i].value in used else Spare(items, used, m[i].value)
  {
    if claimed[i].Some? { UsedIff(claimed, m[i].value); } else { assert spare[pos[i]] in spare; }
  }

  lemma FilledOnce(claimed: seq<Option<nat>>, items: seq<Item>, used: set<nat>, spare: seq<nat>, m: seq<Option<nat>>,
                   pos: seq<nat>, k: nat)
    requires Filling(claimed, spare, m, pos, k) && |m| == |claimed| && Injective(claimed) && Into(claimed, items) &&
             used == Used(claimed)
    requires forall j: nat :: j in spare <==> Spare(items, used, j)
    requires forall a, b :: 0 <= a < b < |spare| ==> spare[a] < spare[b]
    ensures Injective(m) && Into(m, items)
  {
    forall i | 0 <= i < |m| && m[i].Some?
      ensures m[i].value < |items| && items[m[i].value].Object?
    {
      FilledFrom(claimed, items, used, spare, m, pos, k, i);
    }
    forall i, l | 0 <= i < l < |m| && m[i].Some? && m[l].Some?
      ensures m[i].value != m[l].value
    {
      FilledFrom(claimed, items, used, spare, m, pos, k, i);
      FilledFrom(claimed, items, used, spare, m, pos, k, l);
    }
  }

  lemma MatchedWell(asks: seq<string>, items: seq<Item>, claimed: seq<Option<nat>>, used: set<nat>, spare: seq<nat>,
                    m: seq<Option<nat>>, pos: seq<nat>, k: nat)
    requires |claimed| == |asks| == |m| && Filling(claimed, spare, m, pos, k) && used == Used(claimed)
    requires Injective(claimed) && Into(claimed, items) && Labels(asks, items, claimed, |asks|)
    requires OwnFirst(asks, items, claimed)
    requires forall i: nat :: i < |asks| && claimed[i].Some? ==> Own(asks, items, claimed, i)
    requires forall t :: CountItems(items, t, used, |items|) == CountOwn(asks, items, claimed, t, |asks|)
    requires forall j: nat :: j in spare <==> Spare(items, used, j)
    requires forall a, b :: 0 <= a < b < |spare| ==> spare[a] < spare[b]
    ensures WellMatched(asks, items, m)
  {
    FilledOnce(claimed, items, used, spare, m, pos, k);
    SparesFit(asks, items, claimed, used, spare, m, pos, k);
    forall t ensures CountOwn(asks, items, m, t, |asks|) == CountOwn(asks, items, claimed, t, |asks|) {
      OwnSame(asks, items, claimed, m, t, |asks|);
    }
    if exists i :: 0 <= i < |m| && m[i].None? { AllServed(items, claimed, used, spare, m); }
    OwnsFirst(asks, items, claimed, m);
    InTurns(asks, items, claimed, used, spare, m, pos, k);
  }

  lemma OwnsFirst(asks: seq<string>, items: seq<Item>, claimed: seq<Option<nat>>, m: seq<Option<nat>>)
    requires |claimed| == |asks| == |m| && OwnFirst(asks, items, claimed)
    requires forall i :: 0 <= i < |m| && claimed[i].Some? ==> m[i] == claimed[i]
    requires forall i: nat :: i < |m| && Own(asks, items, m, i) ==> claimed[i].Some?
    ensures OwnFirst(asks, items, m)
  {
    forall i: nat, j: nat | i < |m| && Own(asks, items, m, i) && j < m[i].value && Labelled(items[j], asks[i])
      ensures GivenBefore(m, i, j)
    {
      assert Own(asks, items, claimed, i);
      assert GivenBefore(claimed, i, j);
      var l :| 0 <= l < i && l < |claimed| && claimed[l] == Some(j);
      assert m[l] == Some(j);
    }
  }

  lemma ServedBefore(items: seq<Item>, claimed: seq<Option<nat>>, used: set<nat>, spare: seq<nat>,
                     m: seq<Option<nat>>, pos: seq<nat>, k: nat, i: nat, j: nat)
    requires Filling(claimed, spare, m, pos, k) && used == Used(claimed) && |m| == |claimed|
    requires i < |m| && m[i].Some? && claimed[i].None? && j < m[i].value && j < |items| && items[j].Object?
    requires forall j: nat :: j in spare <==> Spare(items, used, j)
    requires forall a, b :: 0 <= a < b < |spare| ==> spare[a] < spare[b]
    ensures GivenOut(m, j)
  {
    UsedIff(claimed, j);
    if j in used {
      var l :| 0 <= l < |claimed| && claimed[l] == Some(j);
      assert m[l] == Some(j);
    } else {
      assert Spare(items, used, j) && j in spare;
      var r :| 0 <= r < |spare| && spare[r] == j;
      assert m[i].value == spare[pos[i]] && r < pos[i];
      assert GivenOut(m, spare[r]);
    }
  }

  lemma InTurns(asks: seq<string>, items: seq<Item>, claimed: seq<Option<nat>>, used: set<nat>, spare: seq<nat>,
                m: seq<Option<nat>>, pos: seq<nat>, k: nat)
    requires |claimed| == |asks| == |m| && Filling(claimed, spare, m, pos, k) && used == Used(claimed)
    requires forall i: nat :: i < |m| ==> (Own(asks, items, m, i) <==> claimed[i].Some?)
    requires forall j: nat :: j in spare <==> Spare(items, used, j)
    requires forall a, b :: 0 <= a < b < |spare| ==> spare[a] < spare[b]
    ensures InTurn(asks, items, m)
  {
    forall i: nat, j: nat |
      i < |m| && m[i].Some? && !Own(asks, items, m, i) && j < m[i].value && j < |items| && items[j].Object?
      ensures GivenOut(m, j)
    {
      ServedBefore(items, claimed, used, spare, m, pos, k, i, j);
    }
    forall i: nat, l: nat | i < l < |m| && m[i].None? && m[l].Some?
      ensures Own(asks, items, m, l)
    {
      NoneThenOwn(claimed, spare, m, pos, k, i, l);
    }
  }

  /** Once an ask went without, only claims are served. */
  lemma NoneThenOwn(claimed: seq<Option<nat>>, spare: seq<nat>, m: seq<Option<nat>>, pos: seq<nat>, k: nat, i: nat,
                    l: nat)
    requires Filling(claimed, spare, m, pos, k) && i < l < |m| && m[i].None? && m[l].Some?
    ensures claimed[l].Some?
  {
    assert claimed[i].None? && pos[i] == |spare| && pos[i] <= pos[l];
  }

  /** Once a spare item was missing, every object was used. */
  lemma AllServed(items: seq<Item>, claimed: seq<Option<nat>>, used: set<nat>, spare: seq<nat>, m: seq<Option<nat>>)
    requires |m| == |claimed| && used == Used(claimed) && forall j: nat :: j in spare <==> Spare(items, used, j)
    requires forall i :: 0 <= i < |m| && claimed[i].Some? ==> m[i] == claimed[i]
    requires forall r :: 0 <= r < |spare| ==> GivenOut(m, spare[r])
    ensures forall j :: 0 <= j < |items| && items[j].Object? ==> GivenOut(m, j)
  {
    forall j | 0 <= j < |items| && items[j].Object?
      ensures GivenOut(m, j)
    {
      UsedIff(claimed, j);
      if j in used {
        var i :| 0 <= i < |claimed| && claimed[i] == Some(j);
        assert m[i] == Some(j);
      } else {
        assert Spare(items, used, j) && j in spare;
      }
    }
  }

  // ----- the decisions -----

  function DecisionOf(f: Field): Option<Verdict> {
    match f
    case Str(s) =>
      if s == "accept" then Some(Accept)
      else if s == "decline" then Some(Decline)
      else if s == "defer" then Some(Defer)
      else None
    case _ => None
  }

  /** The decision composed for `ask`; `verdict` is None where no usable answer was matched. */
  function Compose(ask: string, verdict: Option<Verdict>, wanted: Field, reason: Field, known: set<string>,
                   me: string): Decision {
    if verdict.None? then Decision(ask, Defer, "", "unanswered", "", false)
    else
      var redirect :=
        if wanted.Str? && verdict.value == Decline && wanted.s != me && wanted.s in known then wanted.s else "";
      Decision(ask, verdict.value, redirect, if reason.Str? then SingleLine(reason.s, MAX_LINE) else "", "", false)
  }

  function VerdictOf(item: Item): Option<Verdict> {
    match item case Object(_, f, _, _) => DecisionOf(f) case NotObject => None
  }

  function Wanted(item: Item): Field { match item case Object(_, _, w, _) => w case NotObject => Absent }

  function ReasonOf(item: Item): Field { match item case Object(_, _, _, r) => r case NotObject => Absent }

  /** `_reconcile`: one decision per remaining ask, in order and with its own text. Redirects appear only on
      declines, to a known handle other than the responder. */
  method Reconcile(remaining: seq<string>, items: seq<Item>, known: set<string>, me: string)
    returns (out: seq<Decision>, m: seq<Option<nat>>)
    requires forall h :: h in known ==> SafeSlug(h)
    requires forall a :: a in remaining ==> RequiredLine(a, MAX_LINE)
    ensures |out| == |m| == |remaining| && WellMatched(remaining, items, m)
    ensures forall i :: 0 <= i < |out| ==> Fits(out[i], remaining[i], items, m[i], known, me)
  {
    m := MatchItems(remaining, items);
    out := Decisions(remaining, items, m, known, me);
  }

  method Decisions(remaining: seq<string>, items: seq<Item>, m: seq<Option<nat>>, known: set<string>, me: string)
    returns (out: seq<Decision>)
    requires |m| == |remaining| && Into(m, items) && forall h :: h in known ==> SafeSlug(h)
    requires forall a :: a in remaining ==> RequiredLine(a, MAX_LINE)
    ensures |out| == |remaining|
    ensures forall i :: 0 <= i < |out| ==> Fits(out[i], remaining[i], items, m[i], known, me)
  {
    out := [];
    for n := 0 to |remaining|
      invariant |out| == n && AllFit(out, remaining, items, m, known, me)
    {
      assert remaining[n] in remaining;
      var d := Decide(remaining[n], items, m[n], known, me);
      FitsToo(out, d, remaining, items, m, known, me);
      out := out + [d];
    }
  }

  predicate AllFit(out: seq<Decision>, remaining: seq<string>, items: seq<Item>, m: seq<Option<nat>>,
                   known: set<string>, me: string)
    requires |out| <= |remaining| == |m|
  {
    forall i :: 0 <= i < |out| ==> Fits(out[i], remaining[i], items, m[i], known, me)
  }

  lemma FitsToo(out: seq<Decision>, d: Decision, remaining: seq<string>, items: seq<Item>, m: seq<Option<nat>>,
                known: set<string>, me: string)
    requires |out| < |remaining| == |m| && AllFit(out, remaining, items, m, known, me)
    requires Fits(d, remaining[|out|], items, m[|out|], known, me)
    ensures AllFit(out + [d], remaining, items, m, known, me)
  {
    forall i | 0 <= i < |out| + 1 ensures Fits((out + [d])[i], remaining[i], items, m[i], known, me) {
      if i < |out| {
        AppendedAt(out, d, i);
        FitsAt(out, remaining, items, m, known, me, i);
      } else {
        Appended(out, d);
      }
    }
  }

  lemma FitsAt(out: seq<Decision>, remaining: seq<string>, items: seq<Item>, m: seq<Option<nat>>, known: set<string>,
               me: string, i: nat)
    requires i < |out| <= |remaining| == |m| && AllFit(out, remaining, items, m, known, me)
    ensures Fits(out[i], remaining[i], items, m[i], known, me)
  {
  }

  lemma AppendedAt<T>(s: seq<T>, x: T, i: nat)
    requires i < |s|
    ensures (s + [x])[i] == s[i]
  {
  }

  lemma Appended<T>(s: seq<T>, x: T)
    ensures (s + [x])[|s|] == x
  {
  }

  /** The decision for one ask, by its matched item if any. */
  method Decide(ask: string, items: seq<Item>, j: Option<nat>, known: set<string>, me: string) returns (d: Decision)
    requires RequiredLine(ask, MAX_LINE) && (j.Some? ==> j.value < |items|) && forall h :: h in known ==> SafeSlug(h)
    ensures Fits(d, ask, items, j, known, me)
  {
    var item := if j.Some? then items[j.value] else NotObject;
    d := Compose(ask, VerdictOf(item), Wanted(item), ReasonOf(item), known, me);
    ComposeHeeds(ask, item, known, me);
  }

  predicate Unanswered(d: Decision) { d.verdict == Defer && d.redirect == "" && d.note == "unanswered" }

  predicate Reasoned(d: Decision, reason: Field) {
    d.note == if reason.Str? then SingleLine(reason.s, MAX_LINE) else ""
  }

  /** `d` says what `item` says: its verdict and reason, and on a decline its redirect where that is a known handle
      other than the responder; an item without a usable verdict defers. */
  predicate Heeds(d: Decision, item: Item, known: set<string>, me: string) {
    match item
    case NotObject => Unanswered(d)
    case Object(_, decision, wanted, reason) =>
      if decision == Str("accept") then d.verdict == Accept && d.redirect == "" && Reasoned(d, reason)
      else if decision == Str("defer") then d.verdict == Defer && d.redirect == "" && Reasoned(d, reason)
      else if decision == Str("decline") then
        && d.verdict == Decline && Reasoned(d, reason)
        && d.redirect == if wanted.Str? && wanted.s in known && wanted.s != me then wanted.s else ""
      else Unanswered(d)
  }

  /** `d` answers `ask` by the item matched with it, or defers where none is. */
  predicate Fits(d: Decision, ask: string, items: seq<Item>, j: Option<nat>, known: set<string>, me: string) {
    && d.ask == ask && d.Valid()
    && match j case None => Unanswered(d) case Some(k) => k < |items| && Heeds(d, items[k], known, me)
  }

  lemma UnansweredClean()
    ensures CleanLine("unanswered", MAX_LINE)
  {
    var s := "unanswered";
    assert s[0] == 'u' && s[9] == 'd';
    assert forall i :: 0 <= i < |s| ==> s[i] != '\n' && s[i] != '\r';
  }

  lemma AnswerValid(ask: string, verdict: Verdict, redirect: string, note: string)
    requires RequiredLine(ask, MAX_LINE) && verdict != Reflexed && CleanLine(note, MAX_LINE)
    requires redirect != "" ==> verdict == Decline && SafeSlug(redirect)
    ensures Decision(ask, verdict, redirect, note, "", false).Valid()
  {
  }

  lemma ComposeHeeds(ask: string, item: Item, known: set<string>, me: string)
    requires RequiredLine(ask, MAX_LINE) && forall h :: h in known ==> SafeSlug(h)
    ensures var d := Compose(ask, VerdictOf(item), Wanted(item), ReasonOf(item), known, me);
            d.ask == ask && d.Valid() && Heeds(d, item, known, me)
  {
    var verdict, reason := VerdictOf(item), ReasonOf(item);
    var d := Compose(ask, verdict, Wanted(item), reason, known, me);
    if verdict.None? { UnansweredClean(); } else if reason.Str? { SingleLineClean(reason.s, MAX_LINE); }
    AnswerValid(ask, d.verdict, d.redirect, d.note);
  }

  /** A model that labels every ask exactly once is heard ask by ask, in whatever order it answers. */
  lemma LabelledOnceIsHeard(asks: seq<string>, items: seq<Item>, m: seq<Option<nat>>, i: nat)
    requires |m| == |asks| && i < |asks| && Labels(asks, items, m, |asks|)
    requires CountAsks(asks, asks[i], |asks|) <= CountLabelled(items, asks[i], |items|)
    ensures m[i].Some? && m[i].value < |items| && Labelled(items[m[i].value], asks[i])
  {
    OwnBound(asks, items, m, asks[i], |asks|, i);
    assert CountOwn(asks, items, m, asks[i], |asks|) == CountAsks(asks, asks[i], |asks|);
  }

  lemma {:induction false} CountSole(asks: seq<string>, t: string, i: nat, n: nat)
    requires n <= |asks| && i < |asks| && asks[i] == t && forall k :: 0 <= k < |asks| && k != i ==> asks[k] != t
    ensures CountAsks(asks, t, n) == if i < n then 1 else 0
  {
    if n > 0 { CountSole(asks, t, i, n - 1); }
  }

  lemma {:induction false} CountSome(items: seq<Item>, t: string, j: nat, n: nat)
    requires j < n <= |items| && items[j].Object? && items[j].ask == Str(t)
    ensures CountLabelled(items, t, n) >= 1
  {
    if j < n - 1 { CountSome(items, t, j, n - 1); }
  }

  /** An ask of its own text that some item names gets an item that names it. */
  lemma NamedIsHeard(asks: seq<string>, items: seq<Item>, m: seq<Option<nat>>, i: nat, j: nat)
    requires |m| == |asks| && i < |asks| && WellMatched(asks, items, m)
    requires forall k :: 0 <= k < |asks| && k != i ==> asks[k] != asks[i]
    requires j < |items| && items[j].Object? && items[j].ask == Str(asks[i])
    ensures m[i].Some? && m[i].value < |items| && items[m[i].value].Object? && items[m[i].value].ask == Str(asks[i])
  {
    CountSole(asks, asks[i], i, |asks|);
    CountSome(items, asks[i], j, |items|);
    LabelledOnceIsHeard(asks, items, m, i);
  }
}
