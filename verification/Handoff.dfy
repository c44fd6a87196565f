/** The envelope workers negotiate with: its validity rules and its JSON payload. */
module Handoff {
  import opened PyText

  const MAX_TASK_ID := 64
  const MAX_LINE := 500
  const MAX_SUMMARY := 200
  const MAX_ITEMS := 16
  const MAX_STEPS := 24
  const SCHEMA_VERSION := 1

  datatype Kind = Notice | Response | Plan
  datatype Verdict = Reflexed | Accept | Decline | Defer
  datatype StepStatus = StepDone | NeedsApproval | Unassigned

  /** `_check_line`: the text that passes it unchanged. */
  predicate CleanLine(s: string, limit: nat) {
    Stripped(s) && '\n' !in s && '\r' !in s && |s| <= limit
  }

  predicate RequiredLine(s: string, limit: nat) { s != "" && CleanLine(s, limit) }

  predicate Handle(s: string, allowEmpty: bool) { (allowEmpty && s == "") || SafeSlug(s) }

  datatype Fact = Fact(text: string, claimant: string, provenance: string) {
    predicate Valid() {
      RequiredLine(text, MAX_LINE) && Handle(claimant, false) && CleanLine(provenance, MAX_SUMMARY)
    }
  }

  datatype Decision = Decision(ask: string, verdict: Verdict, redirect: string, note: string,
                               capability: string, applied: bool) {
    predicate Valid() {
      RequiredLine(ask, MAX_LINE) && Handle(redirect, true) && CleanLine(note, MAX_LINE) &&
      (redirect != "" ==> verdict == Decline) &&
      if verdict == Reflexed then RequiredLine(capability, MAX_SUMMARY) else capability == "" && !applied
    }
  }

  datatype Step = Step(owner: string, action: string, status: StepStatus) {
    predicate Valid() { Handle(owner, true) && RequiredLine(action, MAX_LINE) }
  }

  datatype Envelope = Envelope(kind: Kind, taskId: string, origin: string, summary: string, recipient: string,
                               facts: seq<Fact>, asks: seq<string>, decisions: seq<Decision>, steps: seq<Step>) {
    /** What `__post_init__` lets through; composing anything else raises. */
    predicate Valid() {
      && SafeSlug(taskId) && |taskId| <= MAX_TASK_ID && SafeSlug(origin) && RequiredLine(summary, MAX_SUMMARY)
      && (forall f :: f in facts ==> f.Valid())
      && (forall a :: a in asks ==> RequiredLine(a, MAX_LINE))
      && (forall d :: d in decisions ==> d.Valid())
      && (forall s :: s in steps ==> s.Valid())
      && |facts| <= MAX_ITEMS && |asks| <= MAX_ITEMS && |decisions| <= MAX_ITEMS && |steps| <= MAX_STEPS
      && match kind {
           case Notice => SafeSlug(recipient) && decisions == [] && steps == []
           case Response => SafeSlug(recipient) && facts == [] && asks == [] && steps == [] && decisions != []
           case Plan => recipient == "" && facts == [] && asks == [] && decisions == [] && steps != []
         }
    }
  }

  // ----- payload -----

  /** A decoded JSON value. `JInt(1)` and `JFloat(1.0)` differ, as `type(v) is int` makes them differ. */
  datatype Json =
    | JNull | JBool(b: bool) | JInt(i: int) | JFloat(r: real) | JStr(s: string)
    | JArr(items: seq<Json>) | JObj(fields: map<string, Json>)

  function KindName(k: Kind): string {
    match k case Notice => "notice" case Response => "response" case Plan => "plan"
  }

  function KindNamed(s: string): (r: Option<Kind>) {
    if s == "notice" then Some(Notice) else if s == "response" then Some(Response)
    else if s == "plan" then Some(Plan) else None
  }

  function VerdictName(v: Verdict): string {
    match v
    case Reflexed => "reflexed" case Accept => "accept" case Decline => "decline" case Defer => "defer"
  }

  function VerdictNamed(s: string): Option<Verdict> {
    if s == "reflexed" then Some(Reflexed) else if s == "accept" then Some(Accept)
    else if s == "decline" then Some(Decline) else if s == "defer" then Some(Defer) else None
  }

  function StatusName(s: StepStatus): string {
    match s case StepDone => "done" case NeedsApproval => "needs-approval" case Unassigned => "unassigned"
  }

  function StatusNamed(s: string): Option<StepStatus> {
    if s == "done" then Some(StepDone) else if s == "needs-approval" then Some(NeedsApproval)
    else if s == "unassigned" then Some(Unassigned) else None
  }

  function FactPayload(f: Fact): Json {
    JObj(map["text" := JStr(f.text), "claimant" := JStr(f.claimant), "provenance" := JStr(f.provenance)])
  }

  function DecisionPayload(d: Decision): Json {
    JObj(map["ask" := JStr(d.ask), "decision" := JStr(VerdictName(d.verdict)), "redirect" := JStr(d.redirect),
             "note" := JStr(d.note), "capability" := JStr(d.capability), "applied" := JBool(d.applied)])
  }

  function StepPayload(s: Step): Json {
    JObj(map["owner" := JStr(s.owner), "action" := JStr(s.action), "status" := JStr(StatusName(s.status))])
  }

  function AskPayload(a: string): Json { JStr(a) }

  function WriteAll<T>(items: seq<T>, write: T -> Json): seq<Json> {
    seq(|items|, i requires 0 <= i < |items| => write(items[i]))
  }

  function ToPayload(e: Envelope): Json {
    JObj(map["kind" := JStr(KindName(e.kind)), "task_id" := JStr(e.taskId), "origin" := JStr(e.origin),
             "recipient" := JStr(e.recipient), "summary" := JStr(e.summary), "schema_version" := JInt(SCHEMA_VERSION),
             "facts" := JArr(WriteAll(e.facts, FactPayload)), "asks" := JArr(WriteAll(e.asks, AskPayload)),
             "decisions" := JArr(WriteAll(e.decisions, DecisionPayload)),
             "steps" := JArr(WriteAll(e.steps, StepPayload))])
  }

  /** `_str_field`: an absent key reads as "", anything but a string is an error. */
  function StrField(m: map<string, Json>, key: string): Option<string> {
    if key !in m then Some("") else if m[key].JStr? then Some(m[key].s) else None
  }

  function ListField(m: map<string, Json>, key: string): Option<seq<Json>> {
    if key !in m then Some([]) else if m[key].JArr? then Some(m[key].items) else None
  }

  function ReadFact(j: Json): Option<Fact> {
    if !j.JObj? then None else
    match (StrField(j.fields, "text"), StrField(j.fields, "claimant"), StrField(j.fields, "provenance"))
    case (Some(t), Some(c), Some(p)) => Some(Fact(t, c, p))
    case _ => None
  }

  function ReadAsk(j: Json): Option<string> { if j.JStr? then Some(j.s) else None }

  function ReadDecision(j: Json): Option<Decision> {
    if !j.JObj? then None else
    var m := j.fields;
    if "applied" in m && !m["applied"].JBool? then None else
    match (StrField(m, "ask"), StrField(m, "decision"), StrField(m, "redirect"), StrField(m, "note"),
           StrField(m, "capability"))
    case (Some(a), Some(v), Some(r), Some(n), Some(c)) =>
      (match VerdictNamed(v)
       case Some(verdict) => Some(Decision(a, verdict, r, n, c, "applied" in m && m["applied"].b))
       case None => None)
    case _ => None
  }

  function ReadStep(j: Json): Option<Step> {
    if !j.JObj? then None else
    match (StrField(j.fields, "owner"), StrField(j.fields, "action"), StrField(j.fields, "status"))
    case (Some(o), Some(a), Some(s)) =>
      (match StatusNamed(s) case Some(status) => Some(Step(o, a, status)) case None => None)
    case _ => None
  }

  /** Read every item of a list field, or fail if one of them fails. */
  function ReadAll<T(!new)>(items: Option<seq<Json>>, read: Json -> Option<T>): (r: Option<seq<T>>)
    ensures r.Some? <==> items.Some? && forall j :: j in items.value ==> read(j).Some?
    ensures r.Some? ==> |r.value| == |items.value| &&
                        forall i :: 0 <= i < |r.value| ==> r.value[i] == read(items.value[i]).value
  {
    if items.None? || exists j :: j in items.value && read(j).None? then None
    else Some(seq(|items.value|, i requires 0 <= i < |items.value| => read(items.value[i]).value))
  }

  /** `from_payload`; `None` stands for the HandoffError it raises on anything invalid. */
  function FromPayload(data: Json): (r: Option<Envelope>)
    ensures r.Some? ==> r.value.Valid() && data.JObj? && "schema_version" in data.fields &&
                        data.fields["schema_version"] == JInt(SCHEMA_VERSION)
  {
    if !data.JObj? || "schema_version" !in data.fields then None
    else if data.fields["schema_version"] != JInt(SCHEMA_VERSION) then None
    else
      var m := data.fields;
      match (StrField(m, "kind"), StrField(m, "task_id"), StrField(m, "origin"), StrField(m, "recipient"),
             StrField(m, "summary"))
      case (Some(k), Some(task), Some(origin), Some(recipient), Some(summary)) =>
        (match (KindNamed(k), ReadAll(ListField(m, "facts"), ReadFact), ReadAll(ListField(m, "asks"), ReadAsk),
                ReadAll(ListField(m, "decisions"), ReadDecision), ReadAll(ListField(m, "steps"), ReadStep))
         case (Some(kind), Some(facts), Some(asks), Some(decisions), Some(steps)) =>
           var e := Envelope(kind, task, origin, summary, recipient, facts, asks, decisions, steps);
           if e.Valid() then Some(e) else None
         case _ => None)
      case _ => None
  }

  lemma ReadWritten<T(!new)>(items: seq<T>, write: T -> Json, read: Json -> Option<T>)
    requires forall x :: x in items ==> read(write(x)) == Some(x)
    ensures ReadAll(Some(WriteAll(items, write)), read) == Some(items)
  {
    var written := WriteAll(items, write);
    forall j | j in written ensures read(j).Some? {
      var i :| 0 <= i < |written| && written[i] == j;
      assert items[i] in items;
    }
    assert ReadAll(Some(written), read).value == items;
  }

  lemma PayloadStrings(e: Envelope)
    ensures var m := ToPayload(e).fields;
            && StrField(m, "kind") == Some(KindName(e.kind)) && StrField(m, "task_id") == Some(e.taskId)
            && StrField(m, "origin") == Some(e.origin) && StrField(m, "recipient") == Some(e.recipient)
            && StrField(m, "summary") == Some(e.summary)
            && "schema_version" in m && m["schema_version"] == JInt(SCHEMA_VERSION)
  {
  }

  lemma PayloadLists(e: Envelope)
    ensures var m := ToPayload(e).fields;
            && ListField(m, "facts") == Some(WriteAll(e.facts, FactPayload))
            && ListField(m, "asks") == Some(WriteAll(e.asks, AskPayload))
            && ListField(m, "decisions") == Some(WriteAll(e.decisions, DecisionPayload))
            && ListField(m, "steps") == Some(WriteAll(e.steps, StepPayload))
  {
  }

  lemma DecisionRoundTrip(d: Decision)
    ensures ReadDecision(DecisionPayload(d)) == Some(d)
  {
    var m := DecisionPayload(d).fields;
    assert StrField(m, "ask") == Some(d.ask) && StrField(m, "decision") == Some(VerdictName(d.verdict));
    assert VerdictNamed(VerdictName(d.verdict)) == Some(d.verdict);
  }

  lemma StepRoundTrip(s: Step)
    ensures ReadStep(StepPayload(s)) == Some(s)
  {
    assert StatusNamed(StatusName(s.status)) == Some(s.status);
  }

  lemma ListsRead(e: Envelope)
    ensures var m := ToPayload(e).fields;
            && ReadAll(ListField(m, "facts"), ReadFact) == Some(e.facts)
            && ReadAll(ListField(m, "asks"), ReadAsk) == Some(e.asks)
            && ReadAll(ListField(m, "decisions"), ReadDecision) == Some(e.decisions)
            && ReadAll(ListField(m, "steps"), ReadStep) == Some(e.steps)
  {
    PayloadLists(e);
    forall d | d in e.decisions ensures ReadDecision(DecisionPayload(d)) == Some(d) { DecisionRoundTrip(d); }
    forall s | s in e.steps ensures ReadStep(StepPayload(s)) == Some(s) { StepRoundTrip(s); }
    ReadWritten(e.facts, FactPayload, ReadFact);
    ReadWritten(e.asks, AskPayload, ReadAsk);
    ReadWritten(e.decisions, DecisionPayload, ReadDecision);
    ReadWritten(e.steps, StepPayload, ReadStep);
  }

  /** Decoding inverts encoding, for every envelope that can be composed. */
  lemma PayloadRoundTrip(e: Envelope)
    requires e.Valid()
    ensures FromPayload(ToPayload(e)) == Some(e)
  {
    PayloadStrings(e);
    ListsRead(e);
    assert KindNamed(KindName(e.kind)) == Some(e.kind);
  }

  // ----- what a payload must say -----

  /** The string under `key`; an absent one is empty. */
  predicate Says(m: map<string, Json>, key: string, s: string) { if key in m then m[key] == JStr(s) else s == "" }

  /** The list under `key`, item by item; an absent one is empty. */
  ghost predicate Lists<T>(m: map<string, Json>, key: string, items: seq<T>, says: (Json, T) -> bool) {
    if key !in m then items == []
    else m[key].JArr? && |m[key].items| == |items| && forall i :: 0 <= i < |items| ==> says(m[key].items[i], items[i])
  }

  predicate FactSays(j: Json, f: Fact) {
    j.JObj? && Says(j.fields, "text", f.text) && Says(j.fields, "claimant", f.claimant) &&
    Says(j.fields, "provenance", f.provenance)
  }

  predicate AskSays(j: Json, a: string) { j == JStr(a) }

  predicate DecisionSays(j: Json, d: Decision) {
    && j.JObj? && Says(j.fields, "ask", d.ask) && Says(j.fields, "redirect", d.redirect)
    && Says(j.fields, "note", d.note) && Says(j.fields, "capability", d.capability)
    && Says(j.fields, "decision", match d.verdict case Reflexed => "reflexed" case Accept => "accept"
                                                  case Decline => "decline" case Defer => "defer")
    && (if "applied" in j.fields then j.fields["applied"] == JBool(d.applied) else !d.applied)
  }

  predicate StepSays(j: Json, s: Step) {
    && j.JObj? && Says(j.fields, "owner", s.owner) && Says(j.fields, "action", s.action)
    && Says(j.fields, "status", match s.status case StepDone => "done" case NeedsApproval => "needs-approval"
                                               case Unassigned => "unassigned")
  }

  predicate StringsSay(m: map<string, Json>, e: Envelope) {
    && Says(m, "kind", match e.kind case Notice => "notice" case Response => "response" case Plan => "plan")
    && Says(m, "task_id", e.taskId) && Says(m, "origin", e.origin) && Says(m, "recipient", e.recipient)
    && Says(m, "summary", e.summary)
  }

  ghost predicate ListsSay(m: map<string, Json>, e: Envelope) {
    && Lists(m, "facts", e.facts, FactSays) && Lists(m, "asks", e.asks, AskSays)
    && Lists(m, "decisions", e.decisions, DecisionSays) && Lists(m, "steps", e.steps, StepSays)
  }

  /** The fields of `e` under their keys; other keys are not looked at. */
  ghost predicate EnvelopeSays(m: map<string, Json>, e: Envelope) {
    "schema_version" in m && m["schema_version"] == JInt(1) && StringsSay(m, e) && ListsSay(m, e)
  }

  lemma ListReads<T(!new)>(m: map<string, Json>, key: string, read: Json -> Option<T>, says: (Json, T) -> bool,
                           items: seq<T>)
    requires forall j, x :: says(j, x) <==> read(j) == Some(x)
    ensures ReadAll(ListField(m, key), read) == Some(items) <==> Lists(m, key, items, says)
  {
    var r := ReadAll(ListField(m, key), read);
    if Lists(m, key, items, says) && key in m {
      assert forall i :: 0 <= i < |items| ==> says(m[key].items[i], items[i]);
      assert r.Some? && r.value == items;
    }
  }

  lemma DecisionReads(j: Json, d: Decision)
    ensures DecisionSays(j, d) <==> ReadDecision(j) == Some(d)
  {
  }

  lemma StepReads(j: Json, s: Step)
    ensures StepSays(j, s) <==> ReadStep(j) == Some(s)
  {
  }

  lemma FactReads(j: Json, f: Fact)
    ensures FactSays(j, f) <==> ReadFact(j) == Some(f)
  {
  }

  predicate StringsRead(m: map<string, Json>, e: Envelope) {
    && (match StrField(m, "kind") case Some(k) => KindNamed(k) == Some(e.kind) case None => false)
    && StrField(m, "task_id") == Some(e.taskId) && StrField(m, "origin") == Some(e.origin)
    && StrField(m, "recipient") == Some(e.recipient) && StrField(m, "summary") == Some(e.summary)
  }

  ghost predicate AllRead(m: map<string, Json>, e: Envelope) {
    && ReadAll(ListField(m, "facts"), ReadFact) == Some(e.facts)
    && ReadAll(ListField(m, "asks"), ReadAsk) == Some(e.asks)
    && ReadAll(ListField(m, "decisions"), ReadDecision) == Some(e.decisions)
    && ReadAll(ListField(m, "steps"), ReadStep) == Some(e.steps)
  }

  lemma PayloadReads(m: map<string, Json>, e: Envelope)
    ensures FromPayload(JObj(m)) == Some(e) <==>
            e.Valid() && "schema_version" in m && m["schema_version"] == JInt(SCHEMA_VERSION) && StringsRead(m, e) &&
            AllRead(m, e)
  {
  }

  lemma StringsReadIs(m: map<string, Json>, e: Envelope)
    ensures StringsRead(m, e) <==> StringsSay(m, e)
  {
  }

  lemma AllReadIs(m: map<string, Json>, e: Envelope)
    ensures AllRead(m, e) <==> ListsSay(m, e)
  {
    forall j, f ensures FactSays(j, f) <==> ReadFact(j) == Some(f) { FactReads(j, f); }
    forall j, d ensures DecisionSays(j, d) <==> ReadDecision(j) == Some(d) { DecisionReads(j, d); }
    forall j, s ensures StepSays(j, s) <==> ReadStep(j) == Some(s) { StepReads(j, s); }
    ListReads(m, "facts", ReadFact, FactSays, e.facts);
    ListReads(m, "asks", ReadAsk, AskSays, e.asks);
    ListReads(m, "decisions", ReadDecision, DecisionSays, e.decisions);
    ListReads(m, "steps", ReadStep, StepSays, e.steps);
  }

  /** Exactly what is decoded, of any payload: a valid envelope whose fields are under their keys, an absent key reading
      as empty, a wrong type or name as an error, and an unknown key as nothing. */
  lemma PayloadExactly(data: Json, e: Envelope)
    ensures FromPayload(data) == Some(e) <==> e.Valid() && data.JObj? && EnvelopeSays(data.fields, e)
  {
    if data.JObj? {
      PayloadReads(data.fields, e);
      StringsReadIs(data.fields, e);
      AllReadIs(data.fields, e);
    }
  }
}
