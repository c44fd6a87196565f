/** The autonomous authorisation policy of the write gate. */
module Approval {
  import opened PyText

  /** `money_movement` as a proposal carries it: absent, a bool, or something else. */
  datatype Money = Absent | Flag(moves: bool) | Malformed

  datatype Proposal = Proposal(capability: string, money: Money)

  /** `cap` is `max_applies`. */
  datatype Policy = Policy(allowlist: set<string>, cap: Option<int>, applied: nat)

  predicate Eligible(p: Policy, q: Proposal) {
    (q.money == Absent || q.money == Flag(false)) && q.capability != "" && q.capability in p.allowlist
  }

  predicate Accepts(p: Policy, q: Proposal) { Eligible(p, q) && (p.cap.Some? ==> p.applied < p.cap.value) }

  function Asked(p: Policy, q: Proposal): Policy { if Accepts(p, q) then p.(applied := p.applied + 1) else p }

  function Policed(p: Policy, qs: seq<Proposal>): Policy {
    if qs == [] then p else Asked(Policed(p, qs[..|qs| - 1]), qs[|qs| - 1])
  }

  /** The proposals of a session it accepted. */
  function Accepted(p: Policy, qs: seq<Proposal>): seq<Proposal> {
    if qs == [] then []
    else
      var front, last := qs[..|qs| - 1], qs[|qs| - 1];
      if Accepts(Policed(p, front), last) then Accepted(p, front) + [last] else Accepted(p, front)
  }

  class AllowlistPolicy {
    const allowlist: set<string>
    const maxApplies: Option<int>
    var applied: nat

    ghost function Value(): Policy
      reads this
    {
      Policy(allowlist, maxApplies, applied)
    }

    constructor (keys: set<string>, cap: Option<int>)
      ensures Value() == Policy(keys, cap, 0)
    {
      allowlist, maxApplies, applied := keys, cap, 0;
    }

    method Decide(q: Proposal) returns (ok: bool)
      modifies this
      ensures ok == Accepts(old(Value()), q) && Value() == Asked(old(Value()), q)
    {
      if q.money == Flag(true) || q.money == Malformed { return false; }
      if q.capability == "" || q.capability !in allowlist { return false; }
      if maxApplies.Some? && applied >= maxApplies.value { return false; }
      applied := applied + 1;
      ok := true;
    }
  }

  lemma {:induction false} PolicedCounts(p: Policy, qs: seq<Proposal>)
    ensures var r := Policed(p, qs);
            r.allowlist == p.allowlist && r.cap == p.cap && r.applied == p.applied + |Accepted(p, qs)|
  {
    if qs != [] { PolicedCounts(p, qs[..|qs| - 1]); }
  }

  /** Over a whole session: never a money-moving, malformed, untagged or unlisted proposal, and never more than
      the cap. */
  lemma {:induction false} PolicySafe(keys: set<string>, cap: Option<int>, qs: seq<Proposal>)
    ensures var ok := Accepted(Policy(keys, cap, 0), qs);
            && (forall q :: q in ok ==> q.capability in keys && q.capability != "" && q.money in {Absent, Flag(false)})
            && (cap.Some? ==> |ok| <= if cap.value > 0 then cap.value else 0)
  {
    if qs != [] {
      var p := Policy(keys, cap, 0);
      PolicySafe(keys, cap, qs[..|qs| - 1]);
      PolicedCounts(p, qs[..|qs| - 1]);
    }
  }

  /** Short of the cap, every eligible proposal is accepted. */
  lemma {:induction false} PolicyLive(keys: set<string>, cap: Option<int>, qs: seq<Proposal>, k: nat)
    requires k < |qs| && Eligible(Policy(keys, cap, 0), qs[k])
    requires cap.Some? ==> |Accepted(Policy(keys, cap, 0), qs)| < cap.value
    ensures qs[k] in Accepted(Policy(keys, cap, 0), qs)
  {
    var p := Policy(keys, cap, 0);
    var front := qs[..|qs| - 1];
    PolicedCounts(p, front);
    if k < |front| { PolicyLive(keys, cap, front, k); }
  }
}
