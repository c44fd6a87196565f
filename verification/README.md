# Clonway cockpit: verified models

A Dafny 4.11 project that models the protocols at the centre of `clonway_cockpit` and proves what they promise over
whole runs. `dafny verify dfyconfig.toml` checks all of it. Each protocol is a pair: the code, as methods over the same
mutable state with the same loops, proved against a specification function; and lemmas that prove the promise about
that function, for every input, run or interleaving.

| files | what they model |
|---|---|
| `Handoff`, `HandoffText`, `HandoffWording`, `HandoffMentions`, `MentionScan` | the negotiation envelope: validity, payload, wording, rendering, fail-closed parsing, and whom it @-mentions and wakes |
| `Ledger`, `LedgerSafety`, `Sweep`, `SweepSafety` | the task ledger, its failure records, and the sweep that posts plans and escalations |
| `Reflex`, `ReflexSafety`, `ReflexNotes`, `NoteLines`, `ReflexNames` | the reflex kit, its log and its notes: what fires, and when the promises survive a raising mark and a restart |
| `Reconcile`, `Responder`, `ReplyKeys`, `Settlement` | a worker's answer to a notice: reflexes first, then the reconciled model output, when a reply follows, and what the ledger hears of it |
| `GroupChat` | the turn-capped chat round |
| `Archive`, `SignalPoll`, `SignalSafety` | the at-least-once consumer of the signal archive |
| `HomeRefresh`, `HomeLive` | the Home loop and its background capture: what may be shown and run, and what every key and pass brings |
| `Transcript`, `TranscriptSafety`, `TranscriptStore`, `TranscriptReplay` | the conversation store with compaction, crashes and rollback, and what it replays |
| `Doctor`, `DoctorLoop`, `DoctorKeys` | remedy pairing, focus resolution, the interactive Doctor and its keys |
| `Viewport` | the scrolling window |
| `Keys` | the terminal key reader |
| `WriteGate`, `GateSafety`, `Approval` | the agent session, the guarded write gate and the allowlist policy |
| `Lines`, `FactFormat` | `str.splitlines` and the fact file format |
| `PyText` | shared text and sequence helpers |

Assumptions about the world are arguments or hypotheses, never axioms. Responders, matchers, models, executors, the
directory order, the outcome of every file operation, read, callback and save, and the order of events are arbitrary.
The two that carry weight: `SignalSafety.Legal` says an archive object never arrives with a date earlier than one
already listed (dates are strings of one fixed length), and Doctor's probes are a function of its report, one value to
an object (`DoctorLoop.Objects`, `Doctor.Consistent`).

## Where the code keeps less than it says

Each of these is stated exactly, for all inputs, by the lemma named.

- An envelope with a triple backtick in a field may not be read back: the text round trip holds exactly when no line of
  the human section opens a fence (`HandoffText.TextRoundTrip`, `HandoffText.OpenFenceAskUnread`).
- A reply with such a field, or whose block outgrows the size limit, is prose to the ledger, and its task stays open:
  a posted answer settles exactly when it is readable (`Settlement.AnswerSettles`, `Settlement.FencedKeyUnheard`,
  `Settlement.LongReasonsUnheard`).
- A reflex mark that raises does so after the reflex ran and before it is counted, so `max_applies` can be exceeded and
  the run repeated after a restart. A key with a line break inside raises on every mark, a store that refuses a write on
  that one (`ReflexSafety.SuccessesAccounted`, `ReflexNotes.CapExactly`, `ReflexNotes.AtMostOnceExactly`,
  `ReflexNotes.LineBreakKeyFails`).
- A key with another line separator and a name line inside leaves a note under another name: the run repeats after a
  restart although nothing failed. Which keys do is told by their lines (`NoteLines.DurableExactly`,
  `ReflexNames.InjectingKeyFails`).
- A reflex persisted for one task and key can make another report "previously applied", because dashes make note names
  ambiguous (`ReflexSafety.FalseReport`, `ReflexNames.FalseReportLife`, `ReflexNames.DashesReportFalsely`).
- A reply does not always follow a fired reflex, although `negotiation.py:363` says so. A rule may be registered under a
  key that is not stripped, not on one line or over 200 characters; composing the response then raises after the reflex
  ran. With records that can be written a reply follows exactly when no key is of that kind (`ReplyKeys.ReplyExactly`,
  `ReplyKeys.CleanExactly`, `ReplyKeys.UncarriedKeyRaises`, `ReplyKeys.SpacedKey`); the other exceptions are the outcomes
  of `Responder.Negotiate`.
- A redirected ask does go through the reflex rules; nothing executes because its notice carries no facts
  (`Responder.FactlessNeverRuns`), not because the path is skipped.
- The persisted signal cursor can go backwards after a load that failed and was read as "no cursor"
  (`SignalSafety.FailedLoadShrinks`, and `SignalSafety.CursorGoesBack` for a run in which it does). No signal is lost by
  it (`SignalSafety.NoLoss`).
- A key the worker claims after a failed Home refresh is followed by a live Home still marked as failed
  (`HomeRefresh.ClaimAfterFailureStaysMarked`, `HomeRefresh.MarkedSession`).
- An explicit refresh joins a capture already in flight, so what it is followed by may have been captured before it
  (`HomeLive.ReloadBrings`).
- Without act-during-refresh the worker's code may still run beside a capture: its hook before the help page, and its key
  handler on cursor moves, refresh and help (`HomeRefresh.SessionSafe`, `HomeRefresh.HookBesideCapture`).
- A sweep post that raises leaves its task unmarked and the rest of the sweep undone; the next completed sweep covers it
  (`SweepSafety.SpaceLifetime`).
- A frame that could not be written counts as drawn and is not made up for (`GateSafety.ResentExactly`,
  `GateSafety.FramesReachExactly`, `GateSafety.LostFrame`).
- The turn pair of an exchange is rolled back whole only when the reply's own file was not yet written; a later failure
  leaves the reply's turn without its message (`TranscriptSafety.PairRollback`, and
  `TranscriptSafety.ReplyWithoutMessage` for a run in which it does).
- On a one-row terminal paging shows no body line at all (`Viewport.PagingCovers`).
- A fact value may hold a line separator other than CR or LF, such as a vertical tab, and is then never recovered
  (`FactFormat.FactRoundTrip`, `FactFormat.SeparatorAccepted`).

## Model

| member | source | states |
|---|---|---|
| `LedgerSafety.FeedKeeps` | src/clonway_cockpit/negotiation.py:455-525 | one message: the first notice fixes a task's asks; an answered ask never changes; an open one changes only on the task's own authentic response, a redirected one only on its current target's |
| `LedgerSafety.NoticeOpens` | src/clonway_cockpit/negotiation.py:481-486 | a notice under a new id adds its task, last, with every ask pending; under a known id it is only counted as a duplicate |
| `LedgerSafety.PlanMarks` | src/clonway_cockpit/negotiation.py:487-489 | a plan marks its task planned and does nothing else |
| `LedgerSafety.OthersAreInert` | src/clonway_cockpit/negotiation.py:455-493 | prose, the owner's messages and responses to unknown tasks change nothing; a forged response to a known task leaves one record naming the task, its initiator and the real author |
| `LedgerSafety.AnswersAreFinal` | src/clonway_cockpit/negotiation.py:455-525 | the same along any feed sequence |
| `LedgerSafety.AtMostOneRecordPerAsk` | src/clonway_cockpit/negotiation.py:506-525 | over any feed sequence each ask leaves at most one declined or reflex-refused record |
| `LedgerSafety.RecordsConserved` | src/clonway_cockpit/negotiation.py:589-592 | over any mix of feeds and drains, what was drained followed by what still waits is what was generated, in order |
| `LedgerSafety.RecordsReportAnswer` | src/clonway_cockpit/negotiation.py:500-525 | a decline handed to nobody leaves one record, declined, and a reflex that did not apply one, reflex-refused, each naming task, initiator and responder; no other answer leaves any |
| `LedgerSafety.MissingExactly` | src/clonway_cockpit/negotiation.py:527-533 | the asks an escalation names are exactly those pending or handed on, each once, in the notice's order |
| `Ledger.FeedWellFormed` | src/clonway_cockpit/negotiation.py:477-525 | every feed keeps each task's ask states keyed by exactly the notice's asks |
| `Ledger.PlanValid` | src/clonway_cockpit/negotiation.py:550-575 | a plan always composes into a valid envelope with one step per notice ask, in order |
| `LedgerSafety.PlanReportsAnswer` | src/clonway_cockpit/negotiation.py:490-575 | an open ask answered once reaches the plan as what was answered: done or accepted under the responder, handed on under the new target, anything else unassigned |
| `Sweep.TaskLedger.Feed` | src/clonway_cockpit/negotiation.py:455-489 | the ledger's code meets the feed function on every message, the forged frame's record included |
| `Sweep.TaskLedger.Answer` | src/clonway_cockpit/negotiation.py:489-525 | the in-place decision loop yields the ask states and failure records of the specification |
| `Sweep.TaskLedger.ComposePlan` | src/clonway_cockpit/negotiation.py:550-575 | the loop over the notice's asks composes the plan of the specification, or nothing |
| `Sweep.TaskLedger.PlanWorthy` | src/clonway_cockpit/negotiation.py:535-548 | the loop over the tasks yields the worthy ids of the specification |
| `Sweep.WorthyExactly` | src/clonway_cockpit/negotiation.py:535-548 | an id is worthy exactly when its task is known, not planned, has no ask pending or redirected, and has one accepted or left to the owner; in dictionary order |
| `Sweep.NegotiatedSpace.Sweep` | src/clonway_cockpit/negotiation.py:670-718 | one sweep: feeds, plan posts, stall posts, failure reports and the new ledger, exactly, a post that raises ending it where it stands; it completes exactly when every post is made |
| `Sweep.NegotiatedSpace.PostPlans` | src/clonway_cockpit/negotiation.py:678-683 | each plan-worthy task is posted once and marked planned, up to the post that raises, whose task stays unmarked |
| `Sweep.NegotiatedSpace.Escalate` | src/clonway_cockpit/negotiation.py:684-718 | each open task not yet stalled is posted, marked and reported once, up to the post that raises; the failure buffer is drained exactly when none did |
| `SweepSafety.SweepCovers` | src/clonway_cockpit/negotiation.py:670-700 | after a sweep whose posts were all made every task is planned, stalled, or has every ask done, whatever was fed |
| `SweepSafety.SweepPostsExactly` | src/clonway_cockpit/negotiation.py:670-718 | a completed sweep posts a plan for a task exactly when it is worth one, reporting each ask by its status, and a stall post exactly when asks are waited for and none was posted before, naming what is missing |
| `SweepSafety.SweptPosts` | src/clonway_cockpit/negotiation.py:678-718 | a completed sweep makes its plan posts, then its stall posts, hands the callback a report for each stall post and then one for each failure record, in order, and leaves the failure buffer empty |
| `Sweep.ReportsSay` | src/clonway_cockpit/negotiation.py:684-718 | a stall report names the task, its initiator, how many asks are missing and the first of them; a failure report passes the record on |
| `SweepSafety.SpaceLifetime` | src/clonway_cockpit/negotiation.py:670-718 | over a space's lifetime, posts that raise included: at most one plan and one stall post per task, plans only where some ask was accepted or left to the owner and none is waited for, each step telling its ask's status, no stall after a plan by the sweep; and coverage after every completed sweep |
| `Reconcile.ClaimLabels` | src/clonway_cockpit/negotiation.py:220-226 | pass 1: for every ask text exactly min(asks with it, items labelled with it) asks get an own-labelled item, no item twice |
| `Reconcile.MatchItems` | src/clonway_cockpit/negotiation.py:218-236 | both passes: the one matching in which an item goes to the first ask with its label still without one, labels before anything positional, the spare items in order to the asks left |
| `Reconcile.Reconcile` | src/clonway_cockpit/negotiation.py:201-252 | one decision per remaining ask, in order: what its item says, field by field (verdict, redirect only on a decline and to a known handle other than the responder, note), or deferred as unanswered |
| `Reconcile.LabelledOnceIsHeard` | src/clonway_cockpit/negotiation.py:208-226 | a model that labels every ask exactly once is heard ask by ask, whatever order it answers in |
| `Reconcile.NamedIsHeard` | src/clonway_cockpit/negotiation.py:208-226 | an ask of its own text that some item names is answered by an item that names it |
| `PyText.SingleLineWords` | src/clonway_cockpit/negotiation.py:166-169 | a model-supplied or composed line is the words of its text with one space between them, cut at the limit and stripped |
| `Responder.Negotiate` | src/clonway_cockpit/negotiation.py:312-364 | for any firings, model outcome and failing record, the reply or the exception that escapes: from a mark, the decision on the remaining asks, the gateway among them, composing the response, the task note or the transcript; a reply reports each firing field by field, then answers the remaining asks in order with the model's own decisions, or each deferred, model unavailable |
| `Responder.Decide` | src/clonway_cockpit/negotiation.py:273-310 | the decisions on the remaining asks: the model's items reconciled, or all deferred when the gateway is down and that is kept quiet or a reflex fired; otherwise the exception that escapes |
| `Responder.RemainingIs` | src/clonway_cockpit/negotiation.py:330-331 | the remaining asks are exactly those no firing took, in order |
| `ReplyKeys.ReplyExactly` | src/clonway_cockpit/negotiation.py:329-364 | a reply follows whenever a reflex fired, in every kit with these keys whose note writes land, whatever is handed to it, the gateway up or down, exactly when every key is stripped, on one line and at most 200 characters |
| `ReplyKeys.CleanExactly` | src/clonway_cockpit/handoff.py:125-126 | every firing of every kit with these keys can be reported in a decision exactly then |
| `ReplyKeys.NoMarkRaisesUnder` | src/clonway_cockpit/reflex.py:279-283 | under such keys no mark raises where the writes land |
| `ReplyKeys.UncarriedKeyRaises` | src/clonway_cockpit/negotiation.py:341-342 | under any other key a kit of one rule runs its reflex once, it applies, and every outcome of the negotiation is the exception from composing the response |
| `ReplyKeys.SpacedKey` | src/clonway_cockpit/reflex.py:58-60 | a space before a letter is such a key, and a rule may be registered under it |
| `Responder.Respond` | src/clonway_cockpit/negotiation.py:366-411 | envelope messages never reach the inner responder; forged frames draw nothing, plans and responses to this persona at most a note; notices to it and redirects to it are negotiated with the same promise on what the reply says, the latter without executing anything |
| `Responder.HeardHere` | src/clonway_cockpit/negotiation.py:366-411 | whom a message concerns: the notice's recipient, a persona some ask is declined to, and those who only note it, each in terms of the frame's own fields |
| `Responder.RedirectedIs` | src/clonway_cockpit/negotiation.py:385-389 | the asks taken from a response are exactly those declined to this persona, in order |
| `Responder.SyntheticIs` | src/clonway_cockpit/negotiation.py:392-408 | a redirect of a response to a notice comes as that notice's task, origin and summary, without facts |
| `Responder.ComposedComplete` | src/clonway_cockpit/negotiation.py:329-350 | a composed response is valid and names exactly the notice's set of asks, firings and model answers together |
| `Settlement.AnswerSettles` | src/clonway_cockpit/negotiation.py:455-505 | posted as text with any voice line and parsed by the ledger, a complete answer leaves no ask of the task pending exactly when none was pending before, or no line of its human section opens a fence and its block fits |
| `Settlement.FencedKeyUnheard` | src/clonway_cockpit/negotiation.py:670-677 | an applied firing under a key that ends in an opening fence makes the reply prose to the ledger, wherever it stands in the reply |
| `Settlement.FencedKeyClean` | src/clonway_cockpit/handoff.py:60-74 | such a key passes the checks on a decision's capability |
| `Settlement.LongReasonsUnheard` | src/clonway_cockpit/handoff.py:360-368 | sixteen asks of 400 three-byte characters answered with reasons of 500 make a valid reply the ledger hears as prose |
| `Settlement.LongReasonsExist` | src/clonway_cockpit/negotiation.py:329-350 | such a notice and a complete answer to it exist |
| `Responder.FactlessNeverRuns` | src/clonway_cockpit/negotiation.py:392-408 | a redirected ask arrives in a notice without facts, so no reflex executes on it |
| `Reflex.ReflexKit.FireReflexes` | src/clonway_cockpit/reflex.py:233-289 | the rule loop yields the firings, log, note files and counters of the specification, and ends where a mark raises, before the counter |
| `ReflexSafety.RuleTurn` | src/clonway_cockpit/reflex.py:110-289 | rule by rule: a match on an ask not yet taken is reported previously applied if the log knows the pair, else runs once if its key is listed, the cap not reached and the origin vouches for it, with the proposal, firing, log and counter its outcome leaves; otherwise it is passed over |
| `Reflex.ReflexLog.Mark` | src/clonway_cockpit/reflex.py:104-111 | a mark adds this pair in memory; with memory it then writes exactly its note, or raises where the summary line or the write is refused |
| `ReflexSafety.AtMostOnce` | src/clonway_cockpit/reflex.py:97-111 | within a process an execution succeeds at most once per task and capability key, whatever the note store does, marks that raise included |
| `ReflexNotes.AtMostOnceExactly` | src/clonway_cockpit/reflex.py:97-111 | across restarts too, in every life of every kit with these keys and a persistent store, exactly when the store is sound and every key is durable: each of its notes is written and loads under its own name |
| `ReflexNotes.OneLineKeyDurable` | src/clonway_cockpit/private_memory.py:93-137 | a key on one line, by every line separator there is, is durable |
| `NoteLines.DurableExactly` | src/clonway_cockpit/shared_memory.py:41-64 | a key is durable exactly when it is markable and its own lines after the first, up to one that is a fence, give no name and blank neither kind nor summary |
| `NoteLines.KeptExactly` | src/clonway_cockpit/private_memory.py:93-137 | a note is written and loads under its own name exactly when the key is markable and the entries its later lines hold leave kind and summary filled and the name blank or the same |
| `ReflexNotes.MarkExactly` | src/clonway_cockpit/shared_memory.py:179-187 | on a store that takes the write a mark goes through exactly when no CR or LF stands from the key's first visible character on |
| `ReflexNotes.NoteNameExactly` | src/clonway_cockpit/reflex.py:34-43 | a note is named after its task and the key's characters slugged one by one, without dashes at the ends, cut at 48, and "key" if none are left |
| `ReflexSafety.EveryRunJustified` | src/clonway_cockpit/reflex.py:133-176 | every execution was on a blocking, non-money proposal with provenance claimed by the envelope's origin and an allowed key |
| `ReflexSafety.SuccessesAccounted` | src/clonway_cockpit/reflex.py:279-283 | over any life, the successes since the last restart are those the policy counted plus those whose mark raised, and what it counted stays within max_applies |
| `ReflexNotes.CapKept` | src/clonway_cockpit/reflex.py:150-155 | the successes of a process never exceed max_applies in memory, or with notes whose writes land under markable keys |
| `ReflexNotes.CapExactly` | src/clonway_cockpit/reflex.py:150-155 | with notes, the cap is kept in every life of every kit with these keys exactly when it allows nothing, or the writes land and every key is markable |
| `ReflexNotes.LineBreakKeyFails` | src/clonway_cockpit/reflex.py:104-111 | key "a, LF, b": with a cap of one two tasks succeed, and after a restart the first succeeds again |
| `ReflexNames.InjectingKeyFails` | src/clonway_cockpit/shared_memory.py:51-63 | a key holding another line separator before a name line keeps the cap and not the log: its note loads under another name and its task succeeds again after a restart |
| `ReflexSafety.OneFiringPerAsk` | src/clonway_cockpit/reflex.py:240-289 | each envelope yields at most one firing per ask, each on an ask it carries |
| `ReflexSafety.FalseReport` | src/clonway_cockpit/reflex.py:92-102 | "previously applied" is reported of a pair that was not applied exactly when the notes persist, can be read, and another success's note loads under its note name |
| `ReflexSafety.LogHasNothingElse` | src/clonway_cockpit/reflex.py:104-111 | over any life the log and its notes hold only what a successful execution put there |
| `ReflexNames.FalseReportLife` | src/clonway_cockpit/reflex.py:249-260 | two pairs with one note name: in a life of valid envelopes, after the first was applied the next envelope reports the second as applied |
| `ReflexNames.DashesReportFalsely` | src/clonway_cockpit/reflex.py:39-43 | such a life: task "a-b" with key "c", then task "a" with key "b-c" |
| `Handoff.PayloadRoundTrip` | src/clonway_cockpit/handoff.py:205-298 | decoding a payload inverts encoding it, for every envelope that can be composed |
| `Handoff.PayloadExactly` | src/clonway_cockpit/handoff.py:247-298 | exactly what any payload decodes to: a valid envelope with schema version 1 whose fields are under their keys, an absent key reading as empty, a wrong type or name as an error, an unknown key as nothing |
| `HandoffText.TextRoundTrip` | src/clonway_cockpit/handoff.py:340-375 | parsing inverts rendering, for any voice line, exactly when no line of the human section opens a fence and the block fits the limit |
| `HandoffText.FenceFreeFieldsRead` | src/clonway_cockpit/handoff.py:301-375 | fields without a triple backtick never open a fence, so such an envelope within the limit is read back |
| `HandoffText.VoiceNeverFences` | src/clonway_cockpit/handoff.py:345-349 | for every envelope, the voice line never changes which fenced blocks are found |
| `HandoffWording.RenderReads` | src/clonway_cockpit/handoff.py:340-353 | a message is the voice line stripped, if it is not blank, then the human section, then the payload in its fence |
| `HandoffWording.DefangReads` | src/clonway_cockpit/handoff.py:347-347 | each run of three backticks in the voice line, from the left, becomes three quotes, and everything else is kept |
| `HandoffWording.NoticeReads` | src/clonway_cockpit/handoff.py:306-314 | a notice shows task, origin, recipient and summary, then each fact with claimant and provenance, then each ask |
| `HandoffWording.ResponseReads` | src/clonway_cockpit/handoff.py:315-331 | a response shows each decision on a line that tells its verdict, what fired or to whom it is handed on, and its note |
| `HandoffWording.PlanReads` | src/clonway_cockpit/handoff.py:332-337 | a plan shows its steps numbered from one, each with status, owner and action, and closes with the line that it authorizes nothing |
| `HandoffText.OpenFenceAskUnread` | src/clonway_cockpit/handoff.py:313-314 | a notice whose last ask ends in an opening fence is never read back |
| `HandoffText.TwoBlocksUnread` | src/clonway_cockpit/handoff.py:356-364 | a message with two blocks reads as prose, whatever envelopes they hold and whatever stands around them |
| `HandoffText.OneBlockRead` | src/clonway_cockpit/handoff.py:356-375 | a message with one block is read, whatever prose stands around it, to the envelope its payload decodes to, if it is JSON of one within the size limit, and is otherwise prose |
| `HandoffMentions.RenderMentions` | src/clonway_cockpit/handoff.py:301-353 | with any voice line the rendered envelope mentions its recipient, and every redirect target, as whole handles |
| `MentionScan.FoundExactly` | src/clonway_cockpit/group_chat.py:112-114 | the mention scan finds exactly the handles standing in the lower-cased text whole and outside a word |
| `MentionScan.RenderWakes` | src/clonway_cockpit/group_chat.py:136-151 | posted in a room, an envelope is offered to its recipient and to every persona it redirects an ask to, but for its author |
| `MentionScan.RedirectTakenUp` | src/clonway_cockpit/group_chat.py:167-193 | posted within a round, an envelope is taken up in it: its recipient and every persona it redirects an ask to are answered for, or the cap is reached first |
| `GroupChat.RunRound` | src/clonway_cockpit/group_chat.py:167-193 | the queue loop terminates for every responder and posts exactly the answers owed: of every message of the round, inbound or posted in it, and every persona |
| `GroupChat.RoundAnswered` | src/clonway_cockpit/group_chat.py:136-193 | of every message and persona: an answer is posted only if the message mentions it, or is the owner's and its matter, and is not its own, and short of the owner's messages only while fewer than cap replies followed the last of those; and then it is posted, if there is one |
| `GroupChat.PersonaHeard` | src/clonway_cockpit/group_chat.py:167-193 | a persona that any message of the round mentions, another persona's included, is answered for, or cap replies were posted since the last owner message |
| `GroupChat.RoundBounded` | src/clonway_cockpit/group_chat.py:167-193 | a round posts at most cap + owner messages * max(personas, cap) replies |
| `GroupChat.RepliesEntitled` | src/clonway_cockpit/group_chat.py:136-151 | no persona answers its own message; a reply to anyone but the owner is by a persona that message mentions; every reply answers an inbound message or an earlier reply |
| `GroupChat.OwnerHeard` | src/clonway_cockpit/group_chat.py:167-193 | the cap never silences an answer to the owner: a persona an owner message mentions, or whose matter it is, has its answer posted |
| `Archive.ArchiveObjectsAfter` | src/clonway_cockpit/signals/subscribe.py:299-336 | the listing anchored at the cursor's date prefix is exactly the full scan's unprocessed objects, in name order |
| `Archive.DueExactly` | src/clonway_cockpit/signals/subscribe.py:299-336 | the archive objects of a worker are exactly those named signals, worker, date and run id, and what is due of them exactly what is dated after the cursor, or on its date with a run id it does not hold |
| `Archive.NameOrder` | src/clonway_cockpit/signals/subscribe.py:260-262 | names with dates of one length compare by date first, run ids in any order |
| `Archive.LessExactly` | src/clonway_cockpit/signals/subscribe.py:260-262 | names are listed in lexicographic order, character by character |
| `SignalPoll.Consumer.Poll` | src/clonway_cockpit/signals/subscribe.py:438-493 | the object loop yields the deliveries, handed signals and stored cursor of the specification, up to the first failure |
| `SignalPoll.Consumer.Deliver` | src/clonway_cockpit/signals/subscribe.py:449-468 | every wanted signal of an object is handed over in line order, up to the first the callback raises on |
| `SignalPoll.MatchingExactly` | src/clonway_cockpit/signals/subscribe.py:449-468 | the deliveries of an object are exactly its lines of a wanted kind at or above the floor, in line order |
| `SignalPoll.MatchesExactly` | src/clonway_cockpit/signals/subscribe.py:358-366 | a signal matches exactly when its kind is wanted, any where none are given, and its urgency is at or above the floor on the ladder info, soon, due, overdue, an unknown one counting as info |
| `SignalSafety.NoLoss` | src/clonway_cockpit/signals/subscribe.py:438-491 | over every interleaving of arrivals, polls and failures, an object the persisted cursor covers had taken every line of a wanted kind at or above the floor |
| `SignalSafety.CoverageGrows` | src/clonway_cockpit/signals/subscribe.py:476-491 | a poll that loaded the stored cursor never shrinks its coverage, whatever then fails |
| `SignalSafety.FailedLoadShrinks` | src/clonway_cockpit/signals/subscribe.py:145-148 | after a load that failed and read as no cursor, coverage survives every outcome exactly when the first listed object alone covers what was stored |
| `SignalSafety.CursorGoesBack` | src/clonway_cockpit/signals/subscribe.py:145-148 | it does shrink: in a legal run that polls the objects of two days, then again after a failed load, a second read that fails stores a cursor that no longer covers the later object |
| `Archive.NameRead` | src/clonway_cockpit/signals/subscribe.py:299-336 | a name made of a worker, a date and a run id is an archive name, and gives date and run id back |
| `SignalSafety.ExactlyOnce` | src/clonway_cockpit/signals/subscribe.py:326-336 | over failure-free polls each object is processed exactly once |
| `SignalSafety.HandedExactly` | src/clonway_cockpit/signals/subscribe.py:438-491 | over failure-free polls what was handed over is exactly the wanted lines of the objects processed, object by object and line by line |
| `SignalSafety.OnlyWanted` | src/clonway_cockpit/signals/subscribe.py:449-468 | in every legal run only wanted lines of archived objects are handed over, whatever fails |
| `SignalSafety.PollReturns` | src/clonway_cockpit/signals/subscribe.py:435-493 | a poll returns the deliveries it handed over, and after them the one its callback raised on, if any |
| `SignalSafety.UnchangedArchiveIsQuiet` | src/clonway_cockpit/signals/subscribe.py:326-336 | in every legal failure-free run that ends in a poll the next listing is empty |
| `HomeRefresh.SessionSafe` | src/clonway_cockpit/shell.py:531-780 | in every session a home model reaches the observer only from a capture begun after the last acting key; at most one background capture; the back stack is empty at every key and holds one frame in a nested view; without act-during-refresh nothing runs beside a capture but the hook on the help key and the key handler on keys that do not wait |
| `HomeRefresh.SettledTruthful` | src/clonway_cockpit/shell.py:933-947 | settling leaves an unmarked fresh Home, a marked one, or one follow-up that is not superseded |
| `HomeLive.PassDelivers` | src/clonway_cockpit/shell.py:569-606 | from every open state with a capture in flight, a pass in which it finished and succeeded shows what it captured; unless superseded nothing is then in flight or marked and, no input queued, the observer is handed it; superseded, exactly one capture begun after it is in flight |
| `HomeLive.PassFails` | src/clonway_cockpit/shell.py:933-947 | one that failed leaves the Home shown, marked unless a follow-up is begun |
| `HomeLive.PassPaints` | src/clonway_cockpit/shell.py:589-606 | any other pass changes nothing but what is painted |
| `HomeLive.ActingBrings` | src/clonway_cockpit/shell.py:684-780 | every acting key is followed by a capture begun after it, in flight or made at once |
| `HomeLive.ClaimMarks` | src/clonway_cockpit/shell.py:684-698 | a key that does not wait, claimed without act-during-refresh, drops the capture in flight and with it the mark of an earlier failure, which otherwise stays |
| `HomeLive.ReloadBrings` | src/clonway_cockpit/shell.py:700-780 | an explicit refresh is followed by a capture begun after it exactly when none was in flight before; otherwise it joins that one |
| `HomeLive.MovesChangeNothing` | src/clonway_cockpit/shell.py:610-683 | cursor moves leave the capture in flight, and what it will be shown as, alone |
| `HomeLive.KeyRuns` | src/clonway_cockpit/shell.py:647-700 | a key that reaches the worker runs its hook, its handler and, unless claimed, its action, in that order, beside a capture exactly when one is in flight and the key does not wait for it; no other key runs anything |
| `HomeLive.LeavingKeys` | src/clonway_cockpit/shell.py:610-646 | quitting asks first, but not of an agent; Esc quits an agent's session only; Backspace has nowhere to go |
| `HomeLive.SessionSettles` | src/clonway_cockpit/shell.py:569-606 | after every session still open, unless a refresh failed and none is in flight: once the capture in flight and its follow-up have succeeded, the observer was last shown the Home on screen, live, captured after the last acting key |
| `HomeRefresh.AtMostOneFollowUp` | src/clonway_cockpit/shell.py:959-980 | waiting for a capture starts one more exactly when it was superseded, and the last one decides what is shown and whether it is marked |
| `HomeRefresh.ClaimAfterFailureStaysMarked` | src/clonway_cockpit/shell.py:684-698 | after a failed refresh, a key the worker claims is followed by a live Home that still reads as failed |
| `HomeRefresh.MarkedSession` | src/clonway_cockpit/shell.py:684-698 | such a session, in which the live Home never reaches the observer |
| `HomeRefresh.BackIsInert` | src/clonway_cockpit/shell.py:626-646 | in every session Backspace changes nothing: every dive pops the frame it pushed |
| `HomeRefresh.HookBesideCapture` | src/clonway_cockpit/shell.py:647-670 | the worker's hook and key handler do run beside a capture, on the help key |
| `HomeRefresh.HomeLoop.Press` | src/clonway_cockpit/shell.py:610-780 | one key, branch by branch, meets the specification of the loop body: agent-mode quits, the back stack, the hook, the worker's refusal and the actions |
| `HomeRefresh.HomeLoop.LoopTop` | src/clonway_cockpit/shell.py:568-606 | the loop top settles a finished capture and emits only an unmarked Home |
| `HomeRefresh.HomeLoop.Finish` | src/clonway_cockpit/shell.py:959-980 | the waiting loop ends with nothing in flight, as specified |
| `Transcript.ThreadTranscript.Record` | src/clonway_cockpit/chat_memory.py:156-170 | a record performs its planned file operations in order, as many as succeed, and reports whether all did; a turn's file is held as it reads back |
| `Transcript.ThreadTranscript.CompactIfNeeded` | src/clonway_cockpit/chat_memory.py:247-266 | compaction performs the fold and the deletions planned for the disk it finds |
| `Transcript.ThreadTranscript.RecordPair` | src/clonway_cockpit/chat_memory.py:351-360 | the exchange's two records and its rollback leave exactly the specified disk |
| `Transcript.ThreadTranscript.Recent` | src/clonway_cockpit/chat_memory.py:182-195 | the newest unfolded turns, oldest first, with their roles and their texts as read back |
| `Transcript.TruncateSummary` | src/clonway_cockpit/chat_memory.py:268-278 | the truncation loop yields the specified summary, within the limit and unchanged when it fits |
| `Transcript.TruncationDropsOldest` | src/clonway_cockpit/chat_memory.py:271-278 | what is kept is the longest run of newest lines that fits, or the last line alone |
| `TranscriptSafety.TranscriptConserved` | src/clonway_cockpit/chat_memory.py:211-277 | over any run of records, crashes between file operations, failed writes and rollbacks: each live turn is replayed as its file reads back or was folded once, never both, and replay shows nothing else, in order |
| `TranscriptStore.TurnReadsBack` | src/clonway_cockpit/chat_memory.py:156-170 | every text a record takes is accepted by the store and read back stripped, with each line separator a newline and its preview stripped |
| `TranscriptStore.RunStored` | src/clonway_cockpit/chat_memory.py:211-277 | in every run the files hold only one-line previews and a summary of role lines parted by newlines |
| `TranscriptStore.SummaryReadsBack` | src/clonway_cockpit/chat_memory.py:247-266 | the summary a fold writes is accepted by the store and read back unchanged |
| `TranscriptSafety.FoldTextLines` | src/clonway_cockpit/chat_memory.py:251-255 | a fold takes in each folded turn as one line of its own, in order |
| `TranscriptSafety.PreviewIsOneLine` | src/clonway_cockpit/chat_memory.py:103-107 | the preview a record stores is one line |
| `TranscriptSafety.CompletedRecord` | src/clonway_cockpit/chat_memory.py:156-170 | a completed record's index is new and above the watermark, its turn stays unfolded, at most max_turns are left, and a summary it writes is within its limit |
| `TranscriptReplay.RecordReplays` | src/clonway_cockpit/chat_memory.py:156-266 | a completed record adds its turn to what is replayed, and past max_turns exactly the newest keep_turns stay |
| `TranscriptReplay.RecentShows` | src/clonway_cockpit/chat_memory.py:182-195 | the messages are the newest limit unfolded turns, all for a limit of zero, oldest first, a persona's as the assistant's, in full or by preview |
| `TranscriptReplay.GrownLines` | src/clonway_cockpit/chat_memory.py:247-278 | a fold adds one line per folded turn below the lines of the summary so far, the newest kept where they do not fit |
| `TranscriptReplay.PreviewShows` | src/clonway_cockpit/chat_memory.py:103-107 | a preview is the first line that is not blank, stripped and cut at 120 characters |
| `TranscriptSafety.PairRollback` | src/clonway_cockpit/chat_memory.py:352-359 | a rolled-back exchange leaves the turns as they were exactly when nothing of the reply's turn reached the disk |
| `TranscriptSafety.ReplyWithoutMessage` | src/clonway_cockpit/chat_memory.py:352-359 | the other case occurs under every configuration, with any texts: one turn short of max_turns, a reply whose record fails at the fold after it stays, live and on disk, without its message |
| `Doctor.PairRemedies` | src/clonway_cockpit/doctor.py:222-276 | the loop with the shrinking pool yields the specified pairing |
| `Doctor.LegacyDistinct` | src/clonway_cockpit/doctor.py:251-260 | no two fixes without a declared probe are paired with the same probe |
| `Doctor.LegacyExactly` | src/clonway_cockpit/doctor.py:251-260 | a fix that declares no probe is paired with the first probe not yet taken that carries this very fix, else with the first that carries an equal one, else with none |
| `Doctor.ExplicitUnique` | src/clonway_cockpit/doctor.py:246-250 | a declared probe id pairs exactly when one probe, and no other, has it |
| `Doctor.OwnProbe` | src/clonway_cockpit/doctor.py:303-305 | pairing the fixes the probes carry returns each legacy fix to its own probe |
| `Doctor.RowsNumbered` | src/clonway_cockpit/doctor.py:261-276 | no fix is dropped or moved, and runnable rows are numbered consecutively |
| `Doctor.LinkedFirst` | src/clonway_cockpit/doctor.py:279-293 | a paired probe links to its first row |
| `Doctor.Unlinked` | src/clonway_cockpit/doctor.py:289-293 | an unpaired probe has no link |
| `Doctor.ProbeFixLinks` | src/clonway_cockpit/doctor.py:289-293 | the loop builds that link table |
| `DoctorLoop.FocusCarries` | src/clonway_cockpit/shell.py:1404-1454 | a focus is matched only with a runnable row that carries it |
| `DoctorKeys.FocusResolves` | src/clonway_cockpit/shell.py:1404-1454 | exactly which row a focus resolves to: the first runnable row about its probe, else with its remedy id; shared ids are ambiguous, a rendered target nothing runnable carries is present, the rest unknown |
| `DoctorLoop.UnknownExactly` | src/clonway_cockpit/shell.py:1449-1454 | "unknown" exactly when nothing rendered claims the identity |
| `DoctorLoop.AmbiguityFailsClosed` | src/clonway_cockpit/shell.py:1434-1448 | an identity two probes claim, or only several remedies claim, selects none |
| `DoctorLoop.PreservedIsTheSame` | src/clonway_cockpit/shell.py:1457-1498 | a selection survives a rebuild only as the sole row with its remedy id, else its probe id, its objects or its values; twins select neither |
| `DoctorKeys.PreservedExactly` | src/clonway_cockpit/shell.py:1457-1498 | exactly which row a rebuild selects: the sole one with the remedy id, else the probe id, else the same objects, else equal ones |
| `DoctorLoop.DoctorRunsWhatItPaints` | src/clonway_cockpit/shell.py:1568-1692 | in every session Enter runs exactly the row painted under the cursor, a number its row, and a frame that claimed the focus had it under the cursor |
| `DoctorKeys.OpensOn` | src/clonway_cockpit/shell.py:1568-1600 | Doctor opens on the row the focus resolves to, else on the first |
| `DoctorKeys.UpKey` | src/clonway_cockpit/shell.py:1648-1680 | Up moves the cursor up one row, round the end, and runs nothing |
| `DoctorKeys.DownKey` | src/clonway_cockpit/shell.py:1648-1680 | Down moves it down one |
| `DoctorKeys.RunKeys` | src/clonway_cockpit/shell.py:1648-1766 | Enter runs the row under the cursor once, a number the row of that number, and what follows is as the run ended |
| `DoctorKeys.RebuildKey` | src/clonway_cockpit/shell.py:1648-1766 | with nothing to run any key but quit rebuilds the report, and ends the session where that fails |
| `DoctorLoop.DoctorScreen.Top` | src/clonway_cockpit/shell.py:1568-1647 | the loop top places the cursor, decides whether it shows, and paints, as specified |
| `DoctorLoop.DoctorScreen.Press` | src/clonway_cockpit/shell.py:1648-1766 | one key meets the specification of the loop body |
| `Viewport.Pin` | src/clonway_cockpit/viewport.py:240-250 | the pin loop terminates with the specified pins |
| `Viewport.PinsFit` | src/clonway_cockpit/viewport.py:240-250 | the pins give up exactly what body and note need, down to the footer's last line |
| `Viewport.PinsBalance` | src/clonway_cockpit/viewport.py:240-250 | the larger pin gives up lines first, and from three rows on there is a note |
| `Viewport.FrameFills` | src/clonway_cockpit/viewport.py:286-308 | a frame of a taller page has exactly height rows with exactly the stated contents; above + rows + below is the body |
| `Viewport.ShortPageWhole` | src/clonway_cockpit/viewport.py:286-290 | a page that fits is shown whole |
| `Viewport.CursorShown` | src/clonway_cockpit/viewport.py:252-256 | an unscrolled frame shows the cursor line on any terminal of two rows or more |
| `Viewport.DrawFollows` | src/clonway_cockpit/viewport.py:252-308 | a page whose first lines changed starts at its top, and it, like a page whose cursor moved, is followed again; anything else keeps a manual scroll; a followed window goes to the nearest place that shows the first cursor line with a line to spare, a scrolled one stays, both within the body |
| `Viewport.PagingCovers` | src/clonway_cockpit/viewport.py:154-162 | PgDn from the start shows every body line exactly when the terminal has two rows |
| `Viewport.PageEnds` | src/clonway_cockpit/viewport.py:211-214 | PgDn reaches the end and stops there |
| `Viewport.KeysMove` | src/clonway_cockpit/viewport.py:154-183 | PgDn and PgUp move by the window less one row, at least one, within the body; Home and End go to its ends |
| `Viewport.PgUpUndoesPgDn` | src/clonway_cockpit/viewport.py:154-156 | away from the last page, PgUp after PgDn shows the frame before |
| `Viewport.Viewport.DrawOnce` | src/clonway_cockpit/viewport.py:258-308 | one draw updates offset, counters and frame as specified |
| `Viewport.Viewport.Update` | src/clonway_cockpit/viewport.py:134-137 | a new page is drawn as one: cursor-follow resumes when the page or its cursor changed |
| `Viewport.Viewport.Handle` | src/clonway_cockpit/viewport.py:164-183 | the scrolling keys are handled, every other key passed on |
| `Keys.DecodeEncode` | src/clonway_cockpit/keys.py:237-241 | decoding inverts UTF-8 encoding, and an encoded character says its own length (section 3 of RFC 3629) |
| `Keys.OnlyEncodingsDecode` | src/clonway_cockpit/keys.py:237-241 | nothing but the encoding of a character decodes to it |
| `Keys.TypedIsRead` | src/clonway_cockpit/keys.py:230-289 | whole characters, whole sequences, Enter, Backspace, interrupts and Esc, alone or before another byte, are read as exactly those, in order, however long between them; unmapped sequences are skipped whole |
| `Keys.TableIsWhole` | src/clonway_cockpit/keys.py:42-61 | every mapped sequence is completed by its last byte alone |
| `Keys.TableExactly` | src/clonway_cockpit/keys.py:42-61 | for each named key, exactly the sequences that are read as it |
| `Keys.PlainExactly` | src/clonway_cockpit/keys.py:236-247 | exactly which bytes are an interrupt, Enter or Backspace, text of their own, or dropped |
| `Keys.CompleteExactly` | src/clonway_cockpit/keys.py:269-289 | an escape sequence is complete with the second byte after O, and with the first byte from 0x40 to 0x7E after a bracket |
| `Keys.InterruptedKept` | src/clonway_cockpit/keys.py:250-266 | in any arrival rhythm a byte that interrupts a character is kept and is the next byte read |
| `Keys.TokenTakesPrefix` | src/clonway_cockpit/keys.py:230-289 | every token takes bytes off the front of what is pending and nothing else |
| `Keys.KeyByKey` | src/clonway_cockpit/keys.py:328-332 | reading one key at a time reads them all |
| `Keys.KeyReader.ReadContinuation` | src/clonway_cockpit/keys.py:250-266 | the continuation loop takes and pushes back what is specified |
| `Keys.KeyReader.ReadEscape` | src/clonway_cockpit/keys.py:269-289 | the escape loop resolves and consumes what is specified |
| `Keys.KeyReader.Token` | src/clonway_cockpit/keys.py:230-247 | one token, or nothing while no byte is left |
| `Keys.KeyReader.Next` | src/clonway_cockpit/keys.py:328-332 | the next token that is not skipped |
| `GateSafety.AppliesAreJustified` | src/clonway_cockpit/walk.py:540-600 | in every agent session a gate applies only by its policy's yes or by the line read right after its own frame, carrying apply and its token; a dry run applies nothing |
| `GateSafety.AppliesExactlyWhen` | src/clonway_cockpit/agent.py:169-197 | and it applies then: in any session, the gate ends applied exactly on the policy's yes or when the very next line carries apply and the token about to be issued |
| `GateSafety.OneLineOneGate` | src/clonway_cockpit/walk.py:46-49 | a line authorises at most one gate, and no other gate's line would have |
| `GateSafety.FramePerKey` | src/clonway_cockpit/agent.py:122-158 | once a screen exists a frame is written for every key handed over before the next key read begins |
| `GateSafety.LineReads` | src/clonway_cockpit/agent.py:122-167 | what each line does to the key reader: a string under key is the key; without one, snapshot writes the screen again and quit, like the end of input, reads as q; blanks are passed over and the rest answered with an error |
| `GateSafety.RefusedExactly` | src/clonway_cockpit/agent.py:208-240 | a line that asks for a field is refused exactly when it holds no string of that name; a yes or no never is |
| `GateSafety.FrameReaches` | src/clonway_cockpit/agent.py:110-115 | when those writes do not fail, a frame reaches the agent |
| `GateSafety.FramesReachExactly` | src/clonway_cockpit/agent.py:110-131 | in every session a frame reaches the agent for every key read after a screen exists exactly when no write from the session's fourth entry on fails |
| `GateSafety.ResentExactly` | src/clonway_cockpit/agent.py:122-131 | the reader writes the screen again exactly when the counters saw no draw since the key |
| `GateSafety.LostFrame` | src/clonway_cockpit/agent.py:117-120 | a key whose one frame fails to be written gets none: the frame counted as drawn |
| `WriteGate.AgentSession.ConfirmApply` | src/clonway_cockpit/walk.py:522-625 | the gate in agent mode: token, frames, decision and state as specified |
| `WriteGate.AgentSession.NextKey` | src/clonway_cockpit/agent.py:122-167 | the key reader's loop over the message stream, as specified |
| `WriteGate.AgentSession.AuthorizeApply` | src/clonway_cockpit/agent.py:169-197 | exactly one line is read and anything but this gate's apply declines |
| `Approval.AllowlistPolicy.Decide` | src/clonway_cockpit/approval.py:63-77 | one decision, and the counter bumped exactly on acceptance |
| `Approval.PolicySafe` | src/clonway_cockpit/approval.py:63-77 | over any session never a money-moving, malformed, untagged or unlisted proposal, and never more than max_applies |
| `Approval.PolicyLive` | src/clonway_cockpit/approval.py:63-77 | short of the cap every eligible proposal is accepted |
| `FactFormat.FactRoundTrip` | src/clonway_cockpit/shared_memory.py:190-212 | a note the writers accept is recovered whole, its body up to CR normalisation, exactly when its fields hold no line separator at all and its body none but CR and LF |
| `FactFormat.LoadedPlain` | src/clonway_cockpit/shared_memory.py:51-63 | no text loads as a note with a line separator in its fields |
| `FactFormat.SeparatorAccepted` | src/clonway_cockpit/shared_memory.py:179-187 | single_line accepts such a value |
| `FactFormat.FieldRead` | src/clonway_cockpit/shared_memory.py:58-62 | a rendered field is read back whole, colons included, and never closes the frontmatter |
| `FactFormat.FencedCloses` | src/clonway_cockpit/shared_memory.py:51-55 | the first closing line of a rendered note is its own |
| `FactFormat.NormalKeepsLines` | src/clonway_cockpit/shared_memory.py:201-201 | normalising line ends changes no line of a body |
| `FactFormat.ParseFrontmatter` | src/clonway_cockpit/shared_memory.py:41-64 | the two scanning loops yield the specified frontmatter and body |

## Left out

- JSON text: payloads are values, and the text between the fences is written and read by any codec with the laws stated in `HandoffText.Codec`; likewise the cursor's JSON token and its sorted run ids.
- Regular expressions: the fence and mention scans are modelled character by character, lower-casing and `\w` beyond ASCII staying arbitrary; domain keywords and digit masking are arbitrary functions.
- Non-ASCII case folding in `_slug_key`: only ASCII letters are lower-cased.
- A post that is delivered and then raises, posts that raise inside a chat round, and the contents of the notes and turns a negotiating responder records besides its reply.
- Sweep.TaskLedger.Feed: in the forged-frame record every character beyond ASCII counts as printable, where Python escapes some in a `repr`.
- Matchers that raise, notes of the persona other than its reflex notes, and one note file unreadable among readable ones.
- `ReflexPolicy` wired to a log other than its kit's own.
- `poll` over several workers, worker discovery and client errors: the model is one worker's part of the loop.
- Threads, termios, signals and redraws arriving mid-draw: captures, key readiness and resizes are events between steps.
- The loading page's own keys, and Home painting that reaches only the terminal.
- `forget_thread`, unreadable turn files, and two processes writing one transcript; the scope hash of a space id.
- Doctor's identity validation (printable, no whitespace), its receipts' wording and delivery, and the verdict counts.
- Raw and cooked terminal modes, end of input on a raw terminal, and the width and borders of the scroll note.
- The write gate outside agent mode, its audit events and `on_apply` hook; the agent's client side.
- `SharedMemory.recall` and its scoring, and unreadable fact files.
- Rendering, mail, calendar, sheets, menus, ranking, telemetry and configuration: no deep invariant.
- SignalSafety.NoLoss: promises a signal was taken at least once, as the source does; it says nothing of duplicates after failures.
- ReflexSafety.AtMostOnce: speaks of one process; across restarts it holds under the condition of `ReflexNotes.AtMostOnceExactly`.
