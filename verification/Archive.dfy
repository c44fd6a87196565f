/** The dated signal archive: object names, their order, and the cursor-anchored listing. */
module Archive {
  import opened PyText

  const SUFFIX := ".jsonl"
  const DATE_LENGTH := 10

  /** Python's (and the bucket's) order on names. */
  predicate Less(a: string, b: string) {
    b != "" && (a == "" || a[0] < b[0] || (a[0] == b[0] && Less(a[1..], b[1..])))
  }

  lemma {:induction false} LessTrichotomy(a: string, b: string)
    ensures Less(a, b) || Less(b, a) || a == b
    ensures !(Less(a, b) && Less(b, a)) && !(Less(a, b) && a == b)
  {
    if a != "" && b != "" && a[0] == b[0] {
      LessTrichotomy(a[1..], b[1..]);
      if a[1..] == b[1..] { assert a == [a[0]] + a[1..] == b; }
    }
    if a == b && a != "" { LessTrichotomy(a[1..], b[1..]); }
  }

  lemma {:induction false} LessTransitive(a: string, b: string, c: string)
    requires Less(a, b) && Less(b, c)
    ensures Less(a, c)
  {
    if a != "" && a[0] == b[0] && b[0] == c[0] { LessTransitive(a[1..], b[1..], c[1..]); }
  }

  /** Heads of one length decide first, tails only between equal heads. */
  lemma {:induction false} LessByHead(a: string, x: string, b: string, y: string)
    requires |a| == |b|
    ensures Less(a + x, b + y) <==> Less(a, b) || (a == b && Less(x, y))
  {
    if a == "" {
      assert a + x == x && b + y == y;
    } else {
      assert (a + x)[1..] == a[1..] + x && (b + y)[1..] == b[1..] + y;
      LessByHead(a[1..], x, b[1..], y);
      if a[0] == b[0] && a[1..] == b[1..] { assert a == [a[0]] + a[1..] == b; }
    }
  }

  /** `a` and `b` agree up to `n`, where `a` ends or has the smaller character. */
  predicate SplitsAt(a: string, b: string, n: nat) {
    n <= |a| && n < |b| && a[..n] == b[..n] && (n == |a| || a[n] < b[n])
  }

  lemma HeadsAgree(a: string, b: string, n: nat)
    requires n > 0 && SplitsAt(a, b, n)
    ensures a[0] == b[0]
  {
    assert a[..n][0] == b[..n][0];
  }

  /** The order is the lexicographic one. */
  lemma {:induction false} LessExactly(a: string, b: string)
    ensures Less(a, b) <==> exists n: nat :: SplitsAt(a, b, n)
  {
    if a == "" && b != "" {
      assert SplitsAt(a, b, 0);
    } else if a != "" && b != "" && a[0] != b[0] {
      if a[0] < b[0] { assert SplitsAt(a, b, 0); }
      forall n: nat | SplitsAt(a, b, n) ensures n == 0 { if n > 0 { HeadsAgree(a, b, n); } }
    } else if a != "" && b != "" {
      LessExactly(a[1..], b[1..]);
      if Less(a, b) {
        var n: nat :| SplitsAt(a[1..], b[1..], n);
        assert a[..n + 1] == [a[0]] + a[1..][..n] && b[..n + 1] == [b[0]] + b[1..][..n];
        assert SplitsAt(a, b, n + 1);
      }
      if exists n: nat :: SplitsAt(a, b, n) {
        var n: nat :| SplitsAt(a, b, n);
        assert a[1..][..n - 1] == a[..n][1..] && b[1..][..n - 1] == b[..n][1..];
        assert SplitsAt(a[1..], b[1..], n - 1);
      }
    }
  }

  // ----- names -----

  /** `s.split("/")`. */
  function Split(s: string): (r: seq<string>)
    ensures r != [] && '/' !in r[0]
  {
    if s == "" then [""]
    else
      var rest := Split(s[1..]);
      if s[0] == '/' then [""] + rest else [[s[0]] + rest[0]] + rest[1..]
  }

  lemma {:induction false} SplitAt(a: string, b: string)
    requires '/' !in a
    ensures Split(a + "/" + b) == [a] + Split(b)
  {
    var s := a + "/" + b;
    if a == "" {
      assert s[0] == '/' && s[1..] == b;
    } else {
      assert s[1..] == a[1..] + "/" + b;
      SplitAt(a[1..], b);
      assert [a[0]] + a[1..] == a;
    }
  }

  lemma {:induction false} SplitNone(s: string)
    requires '/' !in s
    ensures Split(s) == [s]
  {
    if s != "" {
      SplitNone(s[1..]);
      assert [s[0]] + s[1..] == s;
    }
  }

  lemma {:induction false} FirstSlash(s: string) returns (k: nat)
    requires '/' in s
    ensures k < |s| && s[k] == '/' && '/' !in s[..k]
  {
    k := 0;
    while s[k] != '/'
      invariant k < |s| && '/' !in s[..k] && '/' in s[k..]
      decreases |s| - k
    {
      assert s[..k + 1] == s[..k] + [s[k]] && s[k..] == [s[k]] + s[k + 1..];
      k := k + 1;
    }
  }

  /** A split of several parts peels off what precedes the first slash. */
  lemma Peel(s: string) returns (head: string, tail: string)
    requires |Split(s)| != 1
    ensures s == head + ("/" + tail) && Split(s) == [head] + Split(tail)
  {
    if '/' !in s { SplitNone(s); }
    var k := FirstSlash(s);
    head, tail := s[..k], s[k + 1..];
    assert s == head + "/" + tail;
    SplitAt(head, tail);
  }

  lemma SlashParts(s: string)
    requires '/' in s
    ensures |Split(s)| > 1
  {
    var k := FirstSlash(s);
    assert s == s[..k] + "/" + s[k + 1..];
    SplitAt(s[..k], s[k + 1..]);
  }

  lemma OnePart(s: string)
    requires |Split(s)| == 1
    ensures Split(s) == [s]
  {
    if '/' in s { SlashParts(s); } else { SplitNone(s); }
  }

  /** Two parts put together again. */
  lemma TwoParts(rest: string)
    requires |Split(rest)| == 2
    ensures rest == Split(rest)[0] + ("/" + Split(rest)[1])
  {
    var head, tail := Peel(rest);
    assert |Split(tail)| == 1;
    OnePart(tail);
  }

  function Prefix(worker: string): string { "signals/" + worker + "/" }

  /** The part of an archive name after the worker's prefix. */
  function Name(worker: string, date: string, run: string): string { Prefix(worker) + (date + ("/" + (run + SUFFIX))) }

  /** `_date_from_path`, `_run_id_from_path`. */
  function DateOf(name: string): string {
    var parts := Split(name);
    if |parts| < 2 then "" else parts[|parts| - 2]
  }

  function RunOf(name: string): string {
    var parts := Split(name);
    var stem := parts[|parts| - 1];
    if EndsWith(stem, SUFFIX) then stem[..|stem| - |SUFFIX|] else stem
  }

  predicate EndsWith(s: string, t: string) { |t| <= |s| && s[|s| - |t|..] == t }

  /** The names the listing keeps for a worker. */
  predicate Archived(worker: string, name: string) {
    Prefix(worker) <= name && EndsWith(name, SUFFIX) && |Split(name)| == 4
  }

  lemma SplitPrefix(worker: string, rest: string)
    requires '/' !in worker
    ensures Split(Prefix(worker) + rest) == ["signals", worker] + Split(rest)
  {
    assert Prefix(worker) + rest == "signals" + "/" + (worker + "/" + rest);
    assert '/' !in "signals";
    SplitAt("signals", worker + "/" + rest);
    SplitAt(worker, rest);
  }

  /** An archive name is its date and run id, and nothing else. */
  lemma ArchivedName(worker: string, name: string)
    requires '/' !in worker && Archived(worker, name)
    ensures name == Name(worker, DateOf(name), RunOf(name))
  {
    var prefix := Prefix(worker);
    var rest := name[|prefix|..];
    assert name == prefix + rest;
    SplitPrefix(worker, rest);
    TwoParts(rest);
    PartsNamed(prefix, Split(rest)[0], Split(rest)[1], name);
    assert DateOf(name) == Split(rest)[0];
  }

  lemma NamePlain(worker: string, name: string)
    requires '/' !in worker && Archived(worker, name)
    ensures '/' !in DateOf(name) && '/' !in RunOf(name)
  {
    var prefix := Prefix(worker);
    var rest := name[|prefix|..];
    assert name == prefix + rest;
    SplitPrefix(worker, rest);
    SplitPlain(rest);
    assert DateOf(name) == Split(rest)[0];
    var stem := Split(rest)[1];
    assert '/' !in stem && EndsWith(stem, SUFFIX) ==> '/' !in stem[..|stem| - |SUFFIX|];
  }

  lemma {:induction false} SplitPlain(s: string)
    ensures forall i :: 0 <= i < |Split(s)| ==> '/' !in Split(s)[i]
  {
    if s != "" { SplitPlain(s[1..]); }
  }

  lemma StemPlain(run: string)
    requires '/' !in run
    ensures '/' !in run + SUFFIX && EndsWith(run + SUFFIX, SUFFIX) && (run + SUFFIX)[..|run|] == run
  {
    var suffix := SUFFIX;
    assert suffix == ['.', 'j', 's', 'o', 'n', 'l'] && '/' !in suffix;
  }

  lemma NameParts(worker: string, date: string, stem: string)
    requires '/' !in worker && '/' !in date && '/' !in stem
    ensures Split(Prefix(worker) + (date + ("/" + stem))) == ["signals", worker] + ([date] + [stem])
  {
    assert date + ("/" + stem) == date + "/" + stem;
    SplitPrefix(worker, date + ("/" + stem));
    SplitAt(date, stem);
    SplitNone(stem);
  }

  lemma FourOf<T>(a: T, b: T, c: T, d: T)
    ensures var s := [a, b] + ([c] + [d]); |s| == 4 && s[2] == c && s[3] == d
  {
  }

  /** A name made of a date and a run id gives both back. */
  lemma NameRead(worker: string, date: string, run: string)
    requires '/' !in worker && '/' !in date && '/' !in run
    ensures var name := Name(worker, date, run);
            Archived(worker, name) && DateOf(name) == date && RunOf(name) == run
  {
    var stem := run + SUFFIX;
    StemPlain(run);
    NameParts(worker, date, stem);
    FourOf("signals", worker, date, stem);
    NameEnds(Prefix(worker) + date, stem);
    Assoc(Prefix(worker), date, "/" + stem);
  }

  lemma NameEnds(head: string, stem: string)
    requires EndsWith(stem, SUFFIX)
    ensures EndsWith(head + ("/" + stem), SUFFIX)
  {
    var name := head + ("/" + stem);
    assert name[|name| - |SUFFIX|..] == stem[|stem| - |SUFFIX|..];
  }

  lemma PartsNamed(prefix: string, date: string, stem: string, name: string)
    requires name == prefix + (date + ("/" + stem)) && EndsWith(name, SUFFIX)
    ensures EndsWith(stem, SUFFIX) && name == prefix + (date + ("/" + (stem[..|stem| - |SUFFIX|] + SUFFIX)))
  {
    assert name == (prefix + date) + ("/" + stem);
    SuffixWithin(prefix + date, stem);
    assert stem == stem[..|stem| - |SUFFIX|] + stem[|stem| - |SUFFIX|..];
  }

  /** The suffix has no slash, so it lies in the last part. */
  lemma SuffixWithin(head: string, stem: string)
    requires EndsWith(head + ("/" + stem), SUFFIX)
    ensures EndsWith(stem, SUFFIX)
  {
    var name := head + ("/" + stem);
    var from := |name| - |SUFFIX|;
    assert SUFFIX == ['.', 'j', 's', 'o', 'n', 'l'];
    forall i | from <= i < |name| ensures name[i] != '/' { assert name[i] == name[from..][i - from]; }
    assert name[|head|] == '/';
    assert stem[|stem| - |SUFFIX|..] == name[from..];
  }

  /** Archive names with dates of one length compare by date first. */
  lemma NameOrder(worker: string, a: string, b: string)
    requires '/' !in worker && Archived(worker, a) && Archived(worker, b) && |DateOf(a)| == |DateOf(b)|
    ensures Less(DateOf(a), DateOf(b)) ==> Less(a, b)
    ensures Less(a, b) ==> !Less(DateOf(b), DateOf(a))
    ensures DateOf(a) == DateOf(b) && RunOf(a) == RunOf(b) ==> a == b
  {
    ArchivedName(worker, a);
    ArchivedName(worker, b);
    LessByHead(Prefix(worker), DateOf(a) + ("/" + (RunOf(a) + SUFFIX)), Prefix(worker),
               DateOf(b) + ("/" + (RunOf(b) + SUFFIX)));
    LessTrichotomy(Prefix(worker), Prefix(worker));
    LessByHead(DateOf(a), "/" + (RunOf(a) + SUFFIX), DateOf(b), "/" + (RunOf(b) + SUFFIX));
    LessTrichotomy(DateOf(a), DateOf(b));
  }

  /** Starting the listing at the cursor's date prefix drops exactly the names of earlier dates. */
  lemma StartOffset(worker: string, name: string, active: string)
    requires '/' !in worker && Archived(worker, name) && |DateOf(name)| == |active|
    ensures Less(name, Prefix(worker) + (active + "/")) <==> Less(DateOf(name), active)
  {
    ArchivedName(worker, name);
    var tail := "/" + (RunOf(name) + SUFFIX);
    LessByHead(Prefix(worker), DateOf(name) + tail, Prefix(worker), active + "/");
    LessTrichotomy(Prefix(worker), Prefix(worker));
    LessByHead(DateOf(name), tail, active, "/");
    assert tail[0] == '/' && tail[1..] == RunOf(name) + SUFFIX && "/"[1..] == "";
  }

  // ----- sorting -----

  function Insert(x: string, s: seq<string>): seq<string> {
    if s == [] then [x] else if Less(x, s[0]) then [x] + s else [s[0]] + Insert(x, s[1..])
  }

  function Sort(s: seq<string>): seq<string> { if s == [] then [] else Insert(s[0], Sort(s[1..])) }

  predicate Sorted(s: seq<string>) {
    forall i, j :: 0 <= i < j < |s| ==> Less(s[i], s[j])
  }

  lemma {:induction false} InsertMembers(x: string, s: seq<string>)
    ensures forall y :: y in Insert(x, s) <==> y == x || y in s
  {
    if s != [] && !Less(x, s[0]) {
      InsertMembers(x, s[1..]);
      assert s == [s[0]] + s[1..];
    }
  }

  lemma {:induction false} InsertAscending(x: string, s: seq<string>)
    requires Sorted(s) && x !in s
    ensures Sorted(Insert(x, s))
  {
    if s == [] {
    } else if Less(x, s[0]) {
      forall j | 0 <= j < |s| ensures Less(x, s[j]) { if j > 0 { LessTransitive(x, s[0], s[j]); } }
    } else {
      LessTrichotomy(x, s[0]);
      assert s[0] in s;
      InsertAscending(x, s[1..]);
      InsertMembers(x, s[1..]);
      var t := Insert(x, s[1..]);
      forall j | 0 <= j < |t| ensures Less(s[0], t[j]) {
        assert t[j] in t;
        if t[j] != x { var i :| 0 <= i < |s[1..]| && s[1..][i] == t[j]; assert s[i + 1] == t[j]; }
      }
    }
  }

  lemma {:induction false} SortAscending(s: seq<string>)
    requires Unique(s)
    ensures Sorted(Sort(s)) && forall y :: y in Sort(s) <==> y in s
  {
    if s != [] {
      SortAscending(s[1..]);
      InsertMembers(s[0], Sort(s[1..]));
      assert s == [s[0]] + s[1..] && s[0] !in s[1..];
      InsertAscending(s[0], Sort(s[1..]));
    }
  }

  // ----- the listing -----

  /** The decoded cursor: the latest date reached and the run ids processed within it. */
  datatype Cursor = Cursor(date: string, runs: set<string>)

  /** What the cursor says is already done. */
  predicate Covers(c: Option<Cursor>, name: string) {
    c.Some? && (Less(DateOf(name), c.value.date) || (DateOf(name) == c.value.date && RunOf(name) in c.value.runs))
  }

  /** A full scan of the bucket: the worker's archive objects the cursor does not cover. */
  predicate Due(worker: string, c: Option<Cursor>, name: string) { Archived(worker, name) && !Covers(c, name) }

  /** A name written out. */
  predicate Written(worker: string, date: string, run: string, name: string) {
    '/' !in date && '/' !in run && name == "signals/" + worker + "/" + (date + ("/" + (run + ".jsonl")))
  }

  /** The archive names of a worker are exactly those of that form, and what is due of them is exactly what is dated
      after the cursor, or on its date with a run id it does not hold. */
  lemma DueExactly(worker: string, c: Option<Cursor>, name: string)
    requires '/' !in worker
    ensures Archived(worker, name) <==> exists date, run :: Written(worker, date, run, name)
    ensures forall date, run :: Written(worker, date, run, name) ==>
              (Due(worker, c, name) <==>
               match c
               case None => true
               case Some(k) => Less(k.date, date) || (date == k.date && run !in k.runs))
  {
    if Archived(worker, name) {
      ArchivedName(worker, name);
      NamePlain(worker, name);
      assert Written(worker, DateOf(name), RunOf(name), name);
    }
    forall date, run | Written(worker, date, run, name)
      ensures Archived(worker, name) && DateOf(name) == date && RunOf(name) == run
    {
      NameRead(worker, date, run);
    }
    if c.Some? {
      forall date | true
        ensures Less(date, c.value.date) || date == c.value.date <==> !Less(c.value.date, date)
      {
        LessTrichotomy(date, c.value.date);
      }
    }
  }

  /** `_archive_objects_after`: the listing anchored at the cursor's date selects what a full scan would, in name
      order. */
  method ArchiveObjectsAfter(blobs: seq<string>, worker: string, c: Option<Cursor>) returns (out: seq<string>)
    requires Unique(blobs) && '/' !in worker
    requires forall b :: b in blobs && Archived(worker, b) ==> |DateOf(b)| == DATE_LENGTH
    requires c.Some? ==> |c.value.date| == DATE_LENGTH
    ensures Sorted(out)
    ensures forall n :: n in out <==> n in blobs && Due(worker, c, n)
  {
    var start := if c.Some? then Prefix(worker) + (c.value.date + "/") else Prefix(worker);
    var listed := [];
    for i := 0 to |blobs|
      invariant Unique(listed)
      invariant forall n :: n in listed <==> n in blobs[..i] && Archived(worker, n) && !Less(n, start)
    {
      assert blobs[..i + 1] == blobs[..i] + [blobs[i]];
      if Prefix(worker) <= blobs[i] && !Less(blobs[i], start) && EndsWith(blobs[i], SUFFIX) && |Split(blobs[i])| == 4 {
        assert blobs[i] !in blobs[..i];
        listed := listed + [blobs[i]];
      }
    }
    assert blobs[..|blobs|] == blobs;
    var names := Sort(listed);
    SortAscending(listed);
    out := [];
    for i := 0 to |names|
      invariant Sorted(out)
      invariant forall n :: n in out <==> n in names[..i] && !Covers(c, n)
    {
      assert names[..i + 1] == names[..i] + [names[i]];
      if c.Some? && (Less(DateOf(names[i]), c.value.date) ||
                     (DateOf(names[i]) == c.value.date && RunOf(names[i]) in c.value.runs)) {
        continue;
      }
      AppendAscending(names, i, out);
      out := out + [names[i]];
    }
    assert names[..|names|] == names;
    forall n | n in blobs && Due(worker, c, n) ensures n in names {
      if c.Some? { StartOffset(worker, n, c.value.date); } else { NotBelowPrefix(worker, n); }
    }
  }

  lemma AppendAscending(names: seq<string>, i: nat, out: seq<string>)
    requires i < |names| && Sorted(names) && Sorted(out) && forall n :: n in out ==> n in names[..i]
    ensures Sorted(out + [names[i]])
  {
    forall k | 0 <= k < |out| ensures Less(out[k], names[i]) {
      assert out[k] in out;
      var j :| 0 <= j < i && names[..i][j] == out[k];
      assert Less(names[j], names[i]);
    }
  }

  lemma NotBelowPrefix(worker: string, name: string)
    requires Prefix(worker) <= name
    ensures !Less(name, Prefix(worker))
  {
    var p := Prefix(worker);
    assert name == p + name[|p|..] && p + "" == p;
    LessByHead(p, name[|p|..], p, "");
    LessTrichotomy(p, p);
  }
}
