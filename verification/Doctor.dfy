/** Doctor's pairing of remedies with probes: the one decision its rows, its dispatch and its receipts read. */
module Doctor {
  import opened PyText

  /** A fix's fields, compared by value. `run` stands for the callback object. */
  datatype FixValue = FixValue(title: string, cmd: string, note: string, run: Option<nat>, confirm: bool,
                               remedyId: string, probeId: string, capability: Option<string>, focus: Option<string>)

  /** A fix object: `ref` is its identity. */
  datatype Fix = Fix(ref: nat, value: FixValue)

  datatype Level = Ok | Warn | Error

  datatype Probe = Probe(ref: nat, name: string, level: Level, detail: string, fix: Option<Fix>, probeId: string,
                         revision: string)

  datatype Kind = DisplayOnly | Callback | OpenCapability

  datatype Row = Row(fix: Fix, probeIndex: Option<nat>, rowId: string, kind: Kind, runIndex: Option<nat>)

  /** `action_kind`. */
  function KindOf(f: Fix): Kind {
    if f.value.capability.Some? then OpenCapability else if f.value.run.Some? then Callback else DisplayOnly
  }

  // ----- one fix -----

  /** The positions of the probes with this id. */
  function Claimants(probes: seq<Probe>, id: string, n: nat): seq<nat>
    requires n <= |probes|
  {
    if n == 0 then []
    else if probes[n - 1].probeId == id then Claimants(probes, id, n - 1) + [n - 1]
    else Claimants(probes, id, n - 1)
  }

  predicate Carries(probes: seq<Probe>, k: nat, f: Fix, same: bool) {
    k < |probes| && probes[k].fix.Some? &&
    if same then probes[k].fix.value.ref == f.ref else probes[k].fix.value.value == f.value
  }

  /** The first position in the pool whose probe carries `f` itself (`same`), or an equal fix. */
  function FirstIn(probes: seq<Probe>, pool: seq<nat>, f: Fix, same: bool): (at: Option<nat>)
    ensures at.Some? ==> at.value < |pool| && Carries(probes, pool[at.value], f, same)
    ensures at.Some? ==> forall k :: 0 <= k < at.value ==> !Carries(probes, pool[k], f, same)
    ensures at.None? ==> forall k :: 0 <= k < |pool| ==> !Carries(probes, pool[k], f, same)
  {
    if pool == [] then None
    else
      var before := FirstIn(probes, pool[..|pool| - 1], f, same);
      if before.Some? then before else if Carries(probes, pool[|pool| - 1], f, same) then Some(|pool| - 1) else None
  }

  /** Where the pool gives up a probe to a fix without an explicit id: object identity first, then equality. */
  function PoolMatch(probes: seq<Probe>, pool: seq<nat>, f: Fix): (at: Option<nat>)
    ensures at.Some? ==> at.value < |pool|
  {
    var same := FirstIn(probes, pool, f, true);
    if same.Some? then same else FirstIn(probes, pool, f, false)
  }

  function Without(pool: seq<nat>, at: nat): seq<nat>
    requires at < |pool|
  {
    pool[..at] + pool[at + 1..]
  }

  /** The rows so far, the probes not yet taken, and the number of runnable rows. */
  datatype Pairing = Pairing(rows: seq<Row>, pool: seq<nat>, runs: nat)

  function RowFor(f: Fix, probe: Option<nat>, index: nat, runs: nat): Row {
    if KindOf(f) == DisplayOnly then Row(f, probe, "fix:display:" + Decimal(index), DisplayOnly, None)
    else Row(f, probe, "fix:" + Decimal(runs), KindOf(f), Some(runs))
  }

  /** One step of `pair_remedies`. */
  function Paired1(probes: seq<Probe>, p: Pairing, f: Fix): Pairing {
    var claims := Claimants(probes, f.value.probeId, |probes|);
    var at := PoolMatch(probes, p.pool, f);
    var probe :=
      if f.value.probeId != "" then (if |claims| == 1 then Some(claims[0]) else None)
      else if at.Some? then Some(p.pool[at.value]) else None;
    Pairing(p.rows + [RowFor(f, probe, |p.rows|, p.runs)],
            if f.value.probeId == "" && at.Some? then Without(p.pool, at.value) else p.pool,
            if KindOf(f) == DisplayOnly then p.runs else p.runs + 1)
  }

  function Upto(n: nat): (s: seq<nat>)
    ensures |s| == n && forall k :: 0 <= k < n ==> s[k] == k
  {
    if n == 0 then [] else Upto(n - 1) + [n - 1]
  }

  function PairedFirst(probes: seq<Probe>, fixes: seq<Fix>, n: nat): (p: Pairing)
    requires n <= |fixes|
    ensures |p.rows| == n
  {
    if n == 0 then Pairing([], Upto(|probes|), 0) else Paired1(probes, PairedFirst(probes, fixes, n - 1), fixes[n - 1])
  }

  /** `pair_remedies`. */
  function Paired(probes: seq<Probe>, fixes: seq<Fix>): seq<Row> { PairedFirst(probes, fixes, |fixes|).rows }

  lemma {:induction false} ClaimantsAre(probes: seq<Probe>, id: string, n: nat)
    requires n <= |probes|
    ensures forall k: nat :: k in Claimants(probes, id, n) <==> k < n && probes[k].probeId == id
    ensures Unique(Claimants(probes, id, n))
  {
    if n > 0 { ClaimantsAre(probes, id, n - 1); }
  }

  method FindInPool(probes: seq<Probe>, pool: seq<nat>, f: Fix) returns (at: Option<nat>)
    ensures at == PoolMatch(probes, pool, f)
  {
    for k := 0 to |pool|
      invariant FirstIn(probes, pool[..k], f, true).None?
    {
      assert pool[..k + 1][..k] == pool[..k];
      if Carries(probes, pool[k], f, true) {
        FirstIs(probes, pool, f, true, k);
        return Some(k);
      }
    }
    assert pool[..|pool|] == pool;
    for k := 0 to |pool|
      invariant FirstIn(probes, pool[..k], f, false).None?
    {
      assert pool[..k + 1][..k] == pool[..k];
      if Carries(probes, pool[k], f, false) {
        FirstIs(probes, pool, f, false, k);
        return Some(k);
      }
    }
    at := None;
  }

  lemma FirstIs(probes: seq<Probe>, pool: seq<nat>, f: Fix, same: bool, k: nat)
    requires k < |pool| && FirstIn(probes, pool[..k], f, same).None? && Carries(probes, pool[k], f, same)
    ensures FirstIn(probes, pool, f, same) == Some(k)
  {
    assert forall j :: 0 <= j < k ==> pool[..k][j] == pool[j];
  }

  method ProbesNamed(probes: seq<Probe>, id: string) returns (claims: seq<nat>)
    ensures claims == Claimants(probes, id, |probes|)
  {
    claims := [];
    for k := 0 to |probes|
      invariant claims == Claimants(probes, id, k)
    {
      if probes[k].probeId == id { claims := claims + [k]; }
    }
  }

  method PairRemedies(probes: seq<Probe>, fixes: seq<Fix>) returns (rows: seq<Row>)
    ensures rows == Paired(probes, fixes)
  {
    var available, runs := Upto(|probes|), 0;
    rows := [];
    for index := 0 to |fixes|
      invariant Pairing(rows, available, runs) == PairedFirst(probes, fixes, index)
    {
      var f := fixes[index];
      var matched: Option<nat> := None;
      if f.value.probeId != "" {
        var claims := ProbesNamed(probes, f.value.probeId);
        if |claims| == 1 { matched := Some(claims[0]); }
      } else {
        var at := FindInPool(probes, available, f);
        if at.Some? {
          matched, available := Some(available[at.value]), available[..at.value] + available[at.value + 1..];
        }
      }
      rows := rows + [RowFor(f, matched, index, runs)];
      if KindOf(f) != DisplayOnly { runs := runs + 1; }
    }
  }

  // ----- what the pairing guarantees -----

  /** Nothing of a probe left in the pool was given away: the pool is distinct, in range, and disjoint from
      legacy rows. */
  ghost predicate PoolOk(probes: seq<Probe>, p: Pairing) {
    && Unique(p.pool) && (forall k :: 0 <= k < |p.pool| ==> p.pool[k] < |probes|)
    && (forall i :: 0 <= i < |p.rows| && Legacy(p.rows[i]) ==> p.rows[i].probeIndex.value !in p.pool)
  }

  /** A paired row whose fix declares no probe. */
  predicate Legacy(r: Row) { r.fix.value.probeId == "" && r.probeIndex.Some? }

  lemma WithoutUnique(pool: seq<nat>, at: nat)
    requires Unique(pool) && at < |pool|
    ensures Unique(Without(pool, at)) && pool[at] !in Without(pool, at)
    ensures forall x :: x in Without(pool, at) ==> x in pool
  {
    var rest := Without(pool, at);
    assert forall k :: 0 <= k < |rest| ==> rest[k] == pool[if k < at then k else k + 1];
  }

  lemma PoolStep(probes: seq<Probe>, p: Pairing, f: Fix)
    requires PoolOk(probes, p)
    ensures PoolOk(probes, Paired1(probes, p, f))
  {
    var at := PoolMatch(probes, p.pool, f);
    if f.value.probeId == "" && at.Some? {
      WithoutUnique(p.pool, at.value);
      var rest := Without(p.pool, at.value);
      assert forall k :: 0 <= k < |rest| ==> rest[k] in rest;
    }
  }

  lemma {:induction false} PoolHolds(probes: seq<Probe>, fixes: seq<Fix>, n: nat)
    requires n <= |fixes|
    ensures PoolOk(probes, PairedFirst(probes, fixes, n))
  {
    if n > 0 {
      PoolHolds(probes, fixes, n - 1);
      PoolStep(probes, PairedFirst(probes, fixes, n - 1), fixes[n - 1]);
    }
  }

  lemma {:induction false} RowStays(probes: seq<Probe>, fixes: seq<Fix>, i: nat, n: nat)
    requires i < n <= |fixes|
    ensures PairedFirst(probes, fixes, n).rows[i] == PairedFirst(probes, fixes, i + 1).rows[i]
    ensures PairedFirst(probes, fixes, n).rows[i].fix == fixes[i]
  {
    if i + 1 < n { RowStays(probes, fixes, i, n - 1); }
  }

  /** No two fixes without a declared probe are paired with the same probe. */
  lemma LegacyDistinct(probes: seq<Probe>, fixes: seq<Fix>, i: nat, j: nat)
    requires i < j < |fixes| && Legacy(Paired(probes, fixes)[i]) && Legacy(Paired(probes, fixes)[j])
    ensures Paired(probes, fixes)[i].probeIndex != Paired(probes, fixes)[j].probeIndex
  {
    RowStays(probes, fixes, i, |fixes|);
    RowStays(probes, fixes, j, |fixes|);
    RowStays(probes, fixes, i, j);
    PoolHolds(probes, fixes, j);
    var p := PairedFirst(probes, fixes, j);
    assert Legacy(p.rows[i]);
    var at := PoolMatch(probes, p.pool, fixes[j]);
    assert p.pool[at.value] in p.pool;
  }

  /** A fix that declares its probe is paired with it exactly when that one probe, and no other, has the id. */
  lemma ExplicitUnique(probes: seq<Probe>, fixes: seq<Fix>, i: nat, k: nat)
    requires i < |fixes| && fixes[i].value.probeId != "" && k < |probes|
    ensures Paired(probes, fixes)[i].probeIndex == Some(k) <==>
            probes[k].probeId == fixes[i].value.probeId &&
            forall j :: 0 <= j < |probes| && probes[j].probeId == fixes[i].value.probeId ==> j == k
  {
    RowStays(probes, fixes, i, |fixes|);
    var id := fixes[i].value.probeId;
    var claims := Claimants(probes, id, |probes|);
    ClaimantsAre(probes, id, |probes|);
    if |claims| == 1 { assert claims[0] in claims; }
    if probes[k].probeId == id && forall j :: 0 <= j < |probes| && probes[j].probeId == id ==> j == k {
      OnlyClaim(probes, id, k, |probes|);
    }
  }

  lemma {:induction false} OnlyClaim(probes: seq<Probe>, id: string, k: nat, n: nat)
    requires n <= |probes| && forall j :: 0 <= j < n ==> (probes[j].probeId == id <==> j == k)
    ensures Claimants(probes, id, n) == if k < n then [k] else []
  {
    if n > 0 { OnlyClaim(probes, id, k, n - 1); }
  }

  /** How many of the first `n` fixes are runnable. */
  function Runs(fixes: seq<Fix>, n: nat): nat
    requires n <= |fixes|
  {
    if n == 0 then 0 else Runs(fixes, n - 1) + if KindOf(fixes[n - 1]) == DisplayOnly then 0 else 1
  }

  lemma {:induction false} RunsCounted(probes: seq<Probe>, fixes: seq<Fix>, n: nat)
    requires n <= |fixes|
    ensures PairedFirst(probes, fixes, n).runs == Runs(fixes, n)
  {
    if n > 0 { RunsCounted(probes, fixes, n - 1); }
  }

  /** No fix is dropped or moved; the runnable rows are numbered 0, 1, 2 … in order, and the others not at all. */
  lemma RowsNumbered(probes: seq<Probe>, fixes: seq<Fix>, i: nat)
    requires i < |fixes|
    ensures var r := Paired(probes, fixes)[i];
            && |Paired(probes, fixes)| == |fixes| && r.fix == fixes[i] && r.kind == KindOf(fixes[i])
            && r.runIndex == (if KindOf(fixes[i]) == DisplayOnly then None else Some(Runs(fixes, i)))
            && r.rowId == (if KindOf(fixes[i]) == DisplayOnly then "fix:display:" + Decimal(i)
                           else "fix:" + Decimal(Runs(fixes, i)))
  {
    RowStays(probes, fixes, i, |fixes|);
    RunsCounted(probes, fixes, i);
  }

  /** What a fix does: it opens its capability, else runs its callback, else is only shown. */
  lemma KindsAre(f: Fix)
    ensures KindOf(f) == OpenCapability <==> f.value.capability.Some?
    ensures KindOf(f) == Callback <==> f.value.capability.None? && f.value.run.Some?
    ensures KindOf(f) == DisplayOnly <==> f.value.capability.None? && f.value.run.None?
  {
  }

  /** Probe `k` is not yet taken by one of the first `i` fixes, that is by one that declares no probe. */
  predicate Free(probes: seq<Probe>, fixes: seq<Fix>, rows: seq<Row>, i: nat, k: nat)
    requires i <= |fixes| && i <= |rows|
  {
    k < |probes| && forall j :: 0 <= j < i ==> fixes[j].value.probeId != "" || rows[j].probeIndex != Some(k)
  }

  lemma FreeStep(probes: seq<Probe>, fixes: seq<Fix>, rows: seq<Row>, row: Row, k: nat)
    requires |rows| < |fixes|
    ensures Free(probes, fixes, rows + [row], |rows| + 1, k) <==>
            Free(probes, fixes, rows, |rows|, k) && (fixes[|rows|].value.probeId != "" || row.probeIndex != Some(k))
  {
    var longer := rows + [row];
    assert longer[|rows|] == row && forall j :: 0 <= j < |rows| ==> longer[j] == rows[j];
  }

  lemma PoolKeeps(probes: seq<Probe>, fixes: seq<Fix>, p: Pairing, q: Pairing, n: nat)
    requires 0 < n <= |fixes| && |p.rows| == n - 1 && q == Paired1(probes, p, fixes[n - 1])
    requires Ascending(p.pool) && forall k: nat :: k in p.pool <==> Free(probes, fixes, p.rows, n - 1, k)
    ensures Ascending(q.pool) && forall k: nat :: k in q.pool <==> Free(probes, fixes, q.rows, n, k)
  {
    var f, at := fixes[n - 1], PoolMatch(probes, p.pool, fixes[n - 1]);
    forall k: nat
      ensures Free(probes, fixes, q.rows, n, k) <==>
              Free(probes, fixes, p.rows, n - 1, k) &&
              (f.value.probeId != "" || at.None? || p.pool[at.value] != k)
    {
      FreeStep(probes, fixes, p.rows, q.rows[n - 1], k);
    }
    if f.value.probeId == "" && at.Some? { WithoutAscending(p.pool, at.value); }
  }

  lemma {:induction false} PoolIs(probes: seq<Probe>, fixes: seq<Fix>, n: nat)
    requires n <= |fixes|
    ensures var p := PairedFirst(probes, fixes, n);
            Ascending(p.pool) && forall k: nat :: k in p.pool <==> Free(probes, fixes, p.rows, n, k)
  {
    if n == 0 {
      UptoIs(|probes|);
    } else {
      var p, q := PairedFirst(probes, fixes, n - 1), PairedFirst(probes, fixes, n);
      PoolIs(probes, fixes, n - 1);
      PoolKeeps(probes, fixes, p, q, n);
    }
  }

  /** The probe's fix is this very object. */
  predicate SameFix(p: Probe, f: Fix) { match p.fix case None => false case Some(g) => g.ref == f.ref }

  predicate EqualFix(p: Probe, f: Fix) { match p.fix case None => false case Some(g) => g.value == f.value }

  /** `k` is the first free probe that passes. */
  ghost predicate FirstFree(probes: seq<Probe>, fixes: seq<Fix>, rows: seq<Row>, i: nat, k: nat, passes: Probe -> bool)
    requires i <= |fixes| && i <= |rows|
  {
    && Free(probes, fixes, rows, i, k) && passes(probes[k])
    && forall j: nat :: j < k && Free(probes, fixes, rows, i, j) ==> !passes(probes[j])
  }

  lemma FirstInPool(probes: seq<Probe>, fixes: seq<Fix>, n: nat, f: Fix, same: bool)
    requires n <= |fixes|
    ensures var p := PairedFirst(probes, fixes, n);
            var at := FirstIn(probes, p.pool, f, same);
            var passes := (q: Probe) => if same then SameFix(q, f) else EqualFix(q, f);
            match at
            case Some(a) => a < |p.pool| && FirstFree(probes, fixes, p.rows, n, p.pool[a], passes)
            case None => forall k: nat :: Free(probes, fixes, p.rows, n, k) ==> !passes(probes[k])
  {
    var p := PairedFirst(probes, fixes, n);
    PoolIs(probes, fixes, n);
    match FirstIn(probes, p.pool, f, same)
    case Some(a) => FoundFirst(probes, fixes, p, n, f, same, a);
    case None =>
      forall k: nat | Free(probes, fixes, p.rows, n, k)
        ensures !Carries(probes, k, f, same)
      {
        assert k in p.pool;
      }
  }

  lemma FoundFirst(probes: seq<Probe>, fixes: seq<Fix>, p: Pairing, n: nat, f: Fix, same: bool, a: nat)
    requires n <= |fixes| && n <= |p.rows| && Ascending(p.pool) && a < |p.pool|
    requires forall k: nat :: k in p.pool <==> Free(probes, fixes, p.rows, n, k)
    requires Carries(probes, p.pool[a], f, same) && forall k :: 0 <= k < a ==> !Carries(probes, p.pool[k], f, same)
    ensures Free(probes, fixes, p.rows, n, p.pool[a])
    ensures forall j: nat :: j < p.pool[a] && Free(probes, fixes, p.rows, n, j) ==> !Carries(probes, j, f, same)
  {
    assert p.pool[a] in p.pool;
    forall j: nat | j < p.pool[a] && Free(probes, fixes, p.rows, n, j)
      ensures !Carries(probes, j, f, same)
    {
      assert j in p.pool;
      var x :| 0 <= x < |p.pool| && p.pool[x] == j;
      assert x < a;
    }
  }

  lemma FreeSame(probes: seq<Probe>, fixes: seq<Fix>, rows: seq<Row>, before: seq<Row>, i: nat)
    requires i <= |fixes| && i <= |rows| && i <= |before| && forall j :: 0 <= j < i ==> rows[j] == before[j]
    ensures forall k: nat :: Free(probes, fixes, rows, i, k) <==> Free(probes, fixes, before, i, k)
  {
  }

  lemma RowsSame(probes: seq<Probe>, fixes: seq<Fix>, i: nat)
    requires i < |fixes|
    ensures var rows, p := Paired(probes, fixes), PairedFirst(probes, fixes, i);
            && |rows| == |fixes| && (forall j :: 0 <= j < i ==> rows[j] == p.rows[j])
            && rows[i] == Paired1(probes, p, fixes[i]).rows[i]
  {
    var p, rows := PairedFirst(probes, fixes, i), Paired(probes, fixes);
    forall j | 0 <= j < i
      ensures rows[j] == p.rows[j]
    {
      RowStays(probes, fixes, j, |fixes|);
      RowStays(probes, fixes, j, i);
    }
    RowStays(probes, fixes, i, |fixes|);
  }

  /** A fix that declares no probe is paired with the first probe not yet taken that carries this very fix, else with
      the first that carries an equal one, else with none. */
  lemma LegacyExactly(probes: seq<Probe>, fixes: seq<Fix>, i: nat)
    requires i < |fixes| && fixes[i].value.probeId == ""
    ensures |Paired(probes, fixes)| == |fixes|
    ensures var rows, f := Paired(probes, fixes), fixes[i];
            var same, equal := (q: Probe) => SameFix(q, f), (q: Probe) => EqualFix(q, f);
            match rows[i].probeIndex
            case Some(k) =>
              || FirstFree(probes, fixes, rows, i, k, same)
              || (FirstFree(probes, fixes, rows, i, k, equal) &&
                  forall j: nat :: Free(probes, fixes, rows, i, j) ==> !SameFix(probes[j], f))
            case None =>
              forall j: nat :: Free(probes, fixes, rows, i, j) ==> !SameFix(probes[j], f) && !EqualFix(probes[j], f)
  {
    var p, rows, f := PairedFirst(probes, fixes, i), Paired(probes, fixes), fixes[i];
    RowsSame(probes, fixes, i);
    FreeSame(probes, fixes, rows, p.rows, i);
    FirstInPool(probes, fixes, i, f, true);
    FirstInPool(probes, fixes, i, f, false);
  }

  // ----- the fixes the probes themselves carry -----

  /** The fixes of the first `m` probes. */
  function FixesFirst(probes: seq<Probe>, m: nat): (fixes: seq<Fix>)
    requires m <= |probes|
  {
    if m == 0 then []
    else
      var front, fix := FixesFirst(probes, m - 1), probes[m - 1].fix;
      if fix.Some? then front + [fix.value] else front
  }

  /** `fixes_for`. */
  function FixesFor(probes: seq<Probe>): seq<Fix> { FixesFirst(probes, |probes|) }

  lemma {:induction false} FixAt(probes: seq<Probe>, m: nat, n: nat)
    requires m < n <= |probes| && probes[m].fix.Some?
    ensures |FixesFirst(probes, m)| < |FixesFirst(probes, n)| &&
            FixesFirst(probes, n)[|FixesFirst(probes, m)|] == probes[m].fix.value
    ensures |FixesFirst(probes, m + 1)| == |FixesFirst(probes, m)| + 1
  {
    if m + 1 < n { FixAt(probes, m, n - 1); }
  }

  /** One object, one value. */
  predicate Consistent(probes: seq<Probe>) {
    forall i, j :: 0 <= i < |probes| && 0 <= j < |probes| && probes[i].fix.Some? && probes[j].fix.Some? ==>
      probes[i].fix.value.ref == probes[j].fix.value.ref ==> probes[i].fix.value == probes[j].fix.value
  }

  predicate LegacyProbe(p: Probe) { p.fix.Some? && p.fix.value.value.probeId == "" }

  /** Once the first `m` probes' fixes are paired, the pool has lost exactly their legacy probes. */
  ghost predicate PoolAfter(probes: seq<Probe>, pool: seq<nat>, m: nat) {
    Ascending(pool) && forall k: nat :: k in pool <==> k < |probes| && (k < m ==> !LegacyProbe(probes[k]))
  }

  lemma WithoutAscending(pool: seq<nat>, at: nat)
    requires Ascending(pool) && at < |pool|
    ensures Ascending(Without(pool, at)) && forall x: nat :: x in Without(pool, at) <==> x in pool && x != pool[at]
  {
    var rest := Without(pool, at);
    assert forall k :: 0 <= k < |rest| ==> rest[k] == pool[if k < at then k else k + 1];
    forall x: nat | x in pool && x != pool[at]
      ensures x in rest
    {
      var k :| 0 <= k < |pool| && pool[k] == x;
      assert rest[if k < at then k else k - 1] == x;
    }
  }

  /** The pool gives a legacy fix its own probe. */
  lemma OwnMatch(probes: seq<Probe>, pool: seq<nat>, m: nat)
    requires Consistent(probes) && m < |probes| && LegacyProbe(probes[m]) && PoolAfter(probes, pool, m)
    ensures var at := PoolMatch(probes, pool, probes[m].fix.value); at.Some? && pool[at.value] == m
  {
    var f := probes[m].fix.value;
    assert m in pool;
    var k :| 0 <= k < |pool| && pool[k] == m;
    assert Carries(probes, pool[k], f, true);
    forall j | 0 <= j < k
      ensures !Carries(probes, pool[j], f, true)
    {
      assert pool[j] in pool && pool[j] < m;
    }
  }

  lemma {:induction false} OwnPool(probes: seq<Probe>, m: nat)
    requires Consistent(probes) && m <= |probes| && |FixesFirst(probes, m)| <= |FixesFor(probes)|
    ensures PoolAfter(probes, PairedFirst(probes, FixesFor(probes), |FixesFirst(probes, m)|).pool, m)
  {
    if m == 0 {
      assert forall k: nat :: k in Upto(|probes|) <==> k < |probes| by { UptoIs(|probes|); }
    } else {
      var n := |FixesFirst(probes, m - 1)|;
      OwnPool(probes, m - 1);
      var p := PairedFirst(probes, FixesFor(probes), n);
      if probes[m - 1].fix.Some? {
        FixAt(probes, m - 1, |probes|);
        if LegacyProbe(probes[m - 1]) {
          OwnMatch(probes, p.pool, m - 1);
          WithoutAscending(p.pool, PoolMatch(probes, p.pool, probes[m - 1].fix.value).value);
        }
      }
    }
  }

  lemma UptoIs(n: nat)
    ensures forall k: nat :: k in Upto(n) <==> k < n
  {
    forall k: nat | k < n
      ensures k in Upto(n)
    {
      assert Upto(n)[k] == k;
    }
  }

  /** Pairing the fixes the probes carry gives each legacy fix back to its own probe, shared and equal fixes
      included. */
  lemma OwnProbe(probes: seq<Probe>, m: nat)
    requires Consistent(probes) && m < |probes| && LegacyProbe(probes[m])
    ensures var i := |FixesFirst(probes, m)|;
            && i < |FixesFor(probes)| && FixesFor(probes)[i] == probes[m].fix.value
            && Paired(probes, FixesFor(probes))[i].probeIndex == Some(m)
  {
    var i := |FixesFirst(probes, m)|;
    FixAt(probes, m, |probes|);
    OwnPool(probes, m);
    OwnMatch(probes, PairedFirst(probes, FixesFor(probes), i).pool, m);
    RowStays(probes, FixesFor(probes), i, |FixesFor(probes)|);
  }

  // ----- links -----

  /** `probe_fix_links`: each paired probe, linked to its first row. */
  function Links(rows: seq<Row>): map<nat, string> {
    if rows == [] then map[]
    else
      var front, r := Links(rows[..|rows| - 1]), rows[|rows| - 1];
      if r.probeIndex.Some? && r.probeIndex.value !in front then front[r.probeIndex.value := r.rowId] else front
  }

  method ProbeFixLinks(rows: seq<Row>) returns (links: map<nat, string>)
    ensures links == Links(rows)
  {
    links := map[];
    for k := 0 to |rows|
      invariant links == Links(rows[..k])
    {
      assert rows[..k + 1][..k] == rows[..k];
      var at := rows[k].probeIndex;
      if at.Some? && at.value !in links { links := links[at.value := rows[k].rowId]; }
    }
    assert rows[..|rows|] == rows;
  }

  lemma {:induction false} LinkedFirst(rows: seq<Row>, k: nat, i: nat)
    requires i < |rows| && rows[i].probeIndex == Some(k) && forall j :: 0 <= j < i ==> rows[j].probeIndex != Some(k)
    ensures k in Links(rows) && Links(rows)[k] == rows[i].rowId
  {
    if i < |rows| - 1 {
      LinkedFirst(rows[..|rows| - 1], k, i);
    } else {
      Unlinked(rows[..|rows| - 1], k);
    }
  }

  /** A probe no row is paired with has no link. */
  lemma {:induction false} Unlinked(rows: seq<Row>, k: nat)
    requires forall j :: 0 <= j < |rows| ==> rows[j].probeIndex != Some(k)
    ensures k !in Links(rows)
  {
    if rows != [] { Unlinked(rows[..|rows| - 1], k); }
  }
}
