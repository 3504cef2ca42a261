# Verified model of the darknetra evidence service

Dafny models of the parts of darknetra that carry state, money or offsets, with proofs of what
they keep. Database transactions are atomic steps over plain sequences and maps; a row's id is
its position in its table. Row locks, advisory locks, unique indexes and append-only triggers
are the guards of those steps. Clocks, provider replies, regular expressions, Unicode
composition and similarity tests are parameters: the theorems hold for all of them. Clock
readings may come in any order, except in `MonitorRecency.NewerResultKept` and
`Alerts.PromptHistory`, whose rows say so.

- **Run log and private chats** (`RunLog`, `Money`, `NimPricing`, `PrivateChat`, `ChatExecution`,
  `ChatService`, `CaseRunLog`): the numbered event log, its polling reader, and the
  state machine of runs with reservation and charging; what one execution leaves behind; which histories of a case thread's unguarded writers keep the same log.
- **Human review** (`Decisions`, `LinkCandidates`, `Rescoring`, `CaseReview`, `ReviewOutcomes`,
  `ReviewInvariants`, `CaseStore`, `ClaimChecker`, `Escalations`, `CaseGraph`): supersession chains,
  rescoring, what each request writes and when it is refused, graph confirmation up to the view a reader gets, findings, claims and escalated alerts.
- **Monitoring** (`Alerts`, `Monitor`, `MonitorInvariants`, `MonitorRecency`, `MonitorRunner`):
  attempts under an item lock, atomic publishing, crash recovery, which attempt an item shows,
  and the hourly alert cap.
- **Agent spend** (`ToolBudget`, `Delegation`, `NimHarness`): nested tool counters, the split
  of a run's budget, and reservation before spend.
- **Text anchoring** (`Normalize`, `Lines`, `Chunker`, `Documents`, `Messages`, `MessageTexts`): offsets between
  raw text, normalised text, lines, pages, chunks and messages.
- **Bounded structures** (`RateLimit`, `Pagination`, `JobRunner`, `JobOutcomes`, `GraphSearch`,
  `Blocking`).

Code that updates objects is modelled by classes (`PrivateChats`, `Case`, `CaseAlerts`,
`CaseMonitor`, `ExecutionBudget`, `DelegationState`, `Budget`, `Counters`, `InProcessRunner`)
whose methods are proved against functions on the abstract state. About those functions are
proved the invariants over all runs, and what each operation leaves behind and when it is
refused, told without them.

`dafny verify dfyconfig.toml` checks everything.

## Where the code differs from its documentation, or from a first reading

- The documented cap of 20 alerts per case and hour (docs/implementation-plan.md:606) does not
  hold of the code for every transaction. An alert's `at` defaults to the database's `now()`,
  the start of the surrounding transaction, while the hour counted comes from the wall clock at
  the call. `Alerts.CapKeptIff` gives the exact condition, `Alerts.LateTransactionPassesCap`
  the failing family, and `Alerts.PromptHistory` the full claim where stamp and clock share the
  hour, no stamp is after its clock, and the clock readings never run backwards. A monitoring attempt that collects across the turn of an hour is such a transaction.
- An escalated OVERFLOW alert goes on collecting signals of its hour, so its evidence can come to
  exceed that of the finding made from it (`Escalations.SameEvidenceIff`,
  `Escalations.OverflowOutgrowsFinding`).
- The writers of a case thread's log check the run's status on an earlier read or not at all, so
  run.finished can be written twice (`CaseRunLog.CancelledTwice`). `CaseRunLog.WellFormedIffClean`
  says for which histories the log keeps its promise; a private chat's log always does. The
  reader can return before such late events (`CaseRunLog.ReturnedHasAllIff`), but never skips one.
- Whether an interrupted attempt leaves a newer completed one's result alone, as it is meant to
  (monitor/recovery.py:42), is decided by wall-clock readings. When the clock was set back, or stood still, interrupting an
  older attempt displaces a newer published result: `MonitorRecency.NewerResultKeptIff` says
  exactly when, `MonitorRecency.OlderDisplacesNewer` gives the failing family, and
  `MonitorRecency.NewerResultKept` the claim for a clock that never runs backwards.
- A WhatsApp context is meant to span its own message. Every later header line moves the end of
  the last context, so a system notice falls into the previous sender's span as soon as another
  message follows (`Messages.NoticeOwnedIff`). Spans stay ordered and disjoint regardless.
- The hourly request limiter needs no monotone clock: `RateLimit.EveryWindowWithinLimit` holds
  for every order of clock readings.
- Shutdown leaves a job QUEUED for good exactly when its task had not taken its first step and no
  cancel call for it completes (`JobRunner.LeftUnfinishedIff`).

## Model

| member | source | states |
|---|---|---|
| Money.CeilAtGridBound | backend/darknetra/chats/service.py:218-222 | rounding a cost up to the four-decimal grid passes a bound on the grid exactly when the exact cost does |
| Money.CeilKeepsPositive | backend/darknetra/chats/service.py:218-222 | a positive cost is never rounded away |
| RunLog.AppendAllNumbered | backend/darknetra/chats/service.py:56-67 | appends extend the log by exactly the given kinds and keep the numbers 1, 2, 3, … |
| RunLog.ApplyKeeps | backend/darknetra/chats/service.py:111-138 | a committed transaction only extends the log, keeps it well formed (one run.finished, last, iff terminal) and leaves a terminal run alone |
| RunLog.AtGrows | backend/darknetra/chats/service.py:111-138 | every later snapshot extends every earlier one; a terminal snapshot is the last one |
| RunLog.PageDelivers | backend/darknetra/chats/service.py:291-301 | one page after the reader's position continues its output without gap or repetition |
| RunLog.Stream | backend/darknetra/chats/service.py:282-306 | for every history and every schedule of status-then-rows snapshots the reader delivers start+1, start+2, …, at every poll what it finds up to a full page; when it returns the run is terminal and the rest of its log was delivered; once terminal, enough polls end the stream |
| RunLog.Follow | backend/darknetra/agent/events.py:51-83 | the polling loop over any growing numbered log, whoever writes it: start+1, start+2, … without gap or repetition, from every poll its row snapshot up to a full page, and a return at the first poll that saw a terminal status and no full page, with the whole of that snapshot |
| RunLog.ReturnedStreamEndsInFinished | backend/darknetra/chats/service.py:282-306 | a reader that returned has delivered the single run.finished event, and delivered it last |
| CaseRunLog.AlwaysNumbered | backend/darknetra/agent/events.py:18-48 | the case thread's log, whose writers act on an earlier read of the status or on none: in every history events are numbered 1, 2, 3, … and the log only grows |
| CaseRunLog.WritesAs | backend/darknetra/agent/events.py:18-48 | what each transaction that acts writes, status and events |
| CaseRunLog.WellFormedIffClean | backend/darknetra/agent/events.py:18-48 | every committed state has run.finished once, last and only when terminal, iff no transaction writes after one that ended the run |
| CaseRunLog.CleanIsGuarded | backend/darknetra/agent/events.py:51-83 | such a history is one of the guarded log's, commit by commit, so the stronger results about its reader hold for it |
| CaseRunLog.CleanIffLate | backend/darknetra/agent/events.py:18-48 | that condition transaction by transaction: after the first that ends the run none writes progress and every other one has read the status after that end |
| CaseRunLog.CaseStream | backend/darknetra/agent/events.py:51-83 | the reader of a case thread's run, in every history of its writers and every schedule: no gap, no repetition, and on return all of its last row snapshot |
| CaseRunLog.ReturnedHasAllIff | backend/darknetra/agent/events.py:51-83 | a returned reader has everything beyond its Last-Event-ID iff no transaction writes after that snapshot |
| CaseRunLog.CancelledTwice | backend/darknetra/api/v1/routes/threads.py:285-302 | a history that is not: two cancellations of a queued run that both read its status first write run.finished twice |
| NimPricing.ReservedReplyFitsBudget | backend/darknetra/chats/providers.py:121-135 | a reply within its reservation never costs more than the budget the reservation was made from |
| NimPricing.RefusedIff | backend/darknetra/chats/providers.py:121-135 | no request is sent exactly without usable rates, or when what the input reservation leaves pays for no output token, or the configured limit is below one |
| NimPricing.OneTokenOverPassesBudget | backend/darknetra/chats/providers.py:121-135 | the limit is exact: one output token more, on a full input reservation, passes the budget |
| PrivateChat.StepKeepsConsistent | backend/darknetra/chats/service.py:70-138 | every transaction keeps spent_usd equal to the sum of the runs' cost_usd, one active run a chat, three an owner, and every log well formed |
| PrivateChat.ReachableConsistent | backend/darknetra/chats/service.py:70-279 | the same in every reachable state, crashes, cancellations and recoveries included |
| PrivateChat.TerminalRunIsFinal | backend/darknetra/chats/service.py:111-138 | no transaction changes a terminal run |
| PrivateChat.RunHistory | backend/darknetra/chats/service.py:141-256 | each run's row and log, through any interleaving of all transactions, are a history of the log above, so the reader's theorem applies to it |
| PrivateChat.HonestUsageWithinBudget | backend/darknetra/chats/service.py:213-234 | charging one honest usage report keeps every chat within budget |
| PrivateChat.NeverOverBudget | backend/darknetra/chats/service.py:141-256 | with honest usage reports no reachable state of any chat has spent more than its budget, budget edits included |
| PrivateChat.NimUsageIsHonest | backend/darknetra/chats/providers.py:173-187 | NIM replies within their reservation are honest, so the bound covers every such run |
| PrivateChat.NimChatsWithinBudget | backend/darknetra/chats/service.py:141-256 | if every usage event reports a NIM reply within its reservation, every reachable chat is within budget and has spent exactly what its runs cost |
| PrivateChat.ChargeWithinBudgetIff | backend/darknetra/chats/service.py:218-234 | for any provider: a charge keeps the chat within budget iff the exact cost is at most what is left, and ends the run as BUDGET iff it is more than what is left minus one grid unit |
| ChatExecution.ExecutionLeaves | backend/darknetra/chats/service.py:141-256 | the same of the transactions themselves: status, log, cost, tokens and completeness of the run, and its chat's spend |
| ChatExecution.PostAdmitsIff | backend/darknetra/chats/service.py:70-108 | every refusal of a message with its exact condition: open chat, no active run, fewer than three active runs of the owner, at least one grid unit left |
| ChatExecution.CancelCloses | backend/darknetra/api/v1/routes/chats.py:213-219 | cancelling ends an active run as CANCELLED with its two events, and changes nothing else |
| ChatExecution.RecoverCloses | backend/darknetra/chats/service.py:259-279 | a restart ends every unfinished run as ERROR with its two events, and leaves every other run alone |
| ChatExecution.PatchAdmitsIff | backend/darknetra/api/v1/routes/chats.py:84-105 | every refusal of an edit with its exact condition |
| ChatService.PrivateChats.PostMessage | backend/darknetra/chats/service.py:70-108 | admission: the refusals, and otherwise one queued run with an empty log |
| ChatService.PrivateChats.FinishRun | backend/darknetra/chats/service.py:111-131 | appends the error event, then run.finished, and freezes the run; nothing else changes |
| ChatService.PrivateChats.OnUsage | backend/darknetra/chats/service.py:213-234 | cost, chat total and a BUDGET end are one transaction; a cancelled run is not charged |
| ChatService.PrivateChats.ExecuteRun | backend/darknetra/chats/service.py:141-256 | an execution that received any events and left its loop normally, cancelled or by an error is the run of its transactions; for a run its executor takes up: recorded replies and charges up to the report that uses up what is left, then BUDGET, or else DONE, CANCELLED, BUDGET or ERROR by the ending, each with its last events; nothing else changes |
| ChatService.PrivateChats.RecoverInterrupted | backend/darknetra/chats/service.py:259-279 | restart recovery ends every unfinished run with an error and a finished event |
| Decisions.LatestIsHead | backend/darknetra/decisions/service.py:43-59 | the unsuperseded decision the query finds is the last one inserted for the target |
| Decisions.InsertKeepsChains | backend/darknetra/decisions/service.py:239-266 | inserting a decision that supersedes the latest keeps every target's decisions chained |
| Decisions.OneChainPerTarget | backend/darknetra/decisions/models.py:50-88 | walking back from the query's answer visits every decision of the target once, newest first, down to the one root |
| Decisions.SupersededIffNotHead | backend/darknetra/decisions/service.py:43-59 | a decision is superseded exactly when it is not its target's head |
| Decisions.SupersededOnce | backend/darknetra/decisions/models.py:50-88 | no decision is superseded twice |
| Decisions.RootIsFirst | backend/darknetra/decisions/service.py:239-266 | the one decision without a predecessor is the target's first |
| LinkCandidates.LatestLinkIsNewest | backend/darknetra/analytics/graph.py:20-32 | latest_links selects exactly the last inserted version of each pair |
| LinkCandidates.VersionsCount | backend/darknetra/analytics/correlate.py:87-119 | a pair's newest version is the number of its versions |
| LinkCandidates.RescoreKeepsVersions | backend/darknetra/analytics/correlate.py:87-119 | rescoring adds the next version of its pair and disturbs no other pair |
| ReviewInvariants.StepKeeps | backend/darknetra/decisions/service.py:212-477 | every decision, draft, promotion, replacement, alert, late signal, alert action and correlation run keeps chains, versions, candidates, edges, findings and alerts in agreement |
| ReviewInvariants.ReachableInv | backend/darknetra/decisions/service.py:212-477 | the agreement holds in every reachable state |
| ReviewInvariants.ConfirmedEdgeIsAccepted | backend/darknetra/analytics/graph.py:208-217 | an edge any query returns as CONFIRMED is of its pair's latest candidate version, and its decision is that version's unsuperseded one, an ACCEPT |
| ReviewInvariants.AcceptedCandidateIsConfirmed | backend/darknetra/analytics/graph.py:125-155 | and conversely: a current candidate is accepted iff the filter selects both its edges as CONFIRMED |
| CaseGraph.Show | backend/darknetra/analytics/graph.py:188-242 | the selected rows and the evidence edges go through the bounded view; refused for depth or an unknown focus only |
| CaseGraph.ShownConfirmedIsAccepted | backend/darknetra/analytics/graph.py:188-242 | in every reachable state an edge of any returned view, cut or not, that is CONFIRMED stands on the ACCEPT for its pair's latest version |
| CaseGraph.AcceptedIsShownIff | backend/darknetra/analytics/graph.py:188-242 | in a view that is not truncated, both edges of a current candidate's pair are shown as CONFIRMED iff it is accepted and both subjects are shown |
| ReviewInvariants.RescoreWithdrawsConfirmation | backend/darknetra/analytics/correlate.py:87-147 | after a rescore no query returns the pair as CONFIRMED until the new version is decided |
| ReviewInvariants.ConfirmedFindingIsAccepted | backend/darknetra/decisions/service.py:278-282 | a finding is CONFIRMED iff the head decision of its own version is ACCEPT, decision_id is that head, and only CONFIRMED findings are PROMOTED |
| ReviewInvariants.DecideLinkKeeps | backend/darknetra/decisions/service.py:141-209 | the edge updates of one link decision leave candidate, both edges and chain head in agreement |
| ReviewInvariants.MaterialiseKeeps | backend/darknetra/analytics/graph.py:51-157 | rebuilding the edge table keeps every confirmation on the current version and hides obsolete edges |
| ReviewInvariants.HandleKeeps | backend/darknetra/monitor/alerts.py:151-227 | alert actions keep alert status, decision chain and escalation finding in agreement; the finding's evidence is among the alert's |
| ReviewInvariants.AttachKeeps | backend/darknetra/monitor/alerts.py:95-118 | a surplus signal that joins an OVERFLOW row, whatever the row's status, keeps the agreement |
| Escalations.EscalationEvidence | backend/darknetra/monitor/alerts.py:188-210 | in every history an escalated alert's evidence is its finding's and what joined after the escalation, nothing else |
| Escalations.SameEvidenceIff | backend/darknetra/monitor/alerts.py:95-108 | alert and finding carry the same evidence iff no signal that joined later brought evidence the finding lacks; the alert never has less |
| Escalations.OverflowOutgrowsFinding | backend/darknetra/monitor/alerts.py:95-108 | the failing family: an OVERFLOW alert is escalated and then joined by a signal with other evidence |
| CaseStore.Case.LatestDecision | backend/darknetra/decisions/service.py:43-59 | the query loop returns the head of the chain |
| CaseStore.Case.DecideTarget | backend/darknetra/decisions/service.py:212-309 | one decision either is refused with nothing changed or changes row, target and edges as the transaction specified above; the agreement is kept |
| CaseStore.Case.PromoteFinding | backend/darknetra/decisions/service.py:425-447 | promotion only on the accepted current decision; otherwise refused with nothing changed; the agreement is kept |
| CaseStore.Case.SupersedeFinding | backend/darknetra/decisions/service.py:450-477 | the original is retired and its replacement carries the next version and no decision; the agreement is kept |
| CaseStore.Case.HandleAlert | backend/darknetra/monitor/alerts.py:151-227 | one decision and, when escalating, one draft finding, or everything rolled back whichever step refuses; the agreement is kept |
| CaseStore.Case.AttachSignal | backend/darknetra/monitor/alerts.py:95-118 | the OVERFLOW row gains the evidence and nothing else changes; the agreement is kept |
| CaseStore.Case.RunCorrelation | backend/darknetra/analytics/correlate.py:60-147 | the scoring loop, with its counters of new and rescored pairs, performs the specified run and keeps the agreement; each scored pair's newest version carries its last digest, a row is added only for a pair without a version or with another digest, pending and with the scored values; the counters are the first and the later versions added |
| Rescoring.RescoreAllLeaves | backend/darknetra/analytics/correlate.py:84-126 | the same of the table, for every list of scores, with the counters |
| Rescoring.RescoreAddsIff | backend/darknetra/analytics/correlate.py:99-118 | a pair gets a new version exactly when it has none or its newest was scored from other features |
| Rescoring.RunCounts | backend/darknetra/analytics/correlate.py:120-121 | in a run that scores each pair once, created counts the pairs without a version and rescored those whose digest changed |
| ReviewOutcomes.DecisionRefusedIff | backend/darknetra/decisions/service.py:212-309 | every refusal of a decision with its exact condition |
| ReviewOutcomes.LinkDecided | backend/darknetra/decisions/service.py:141-209 | what a decision on a link writes: the row, the candidate's status and the pair's two edges by the verdict, and nothing else |
| ReviewOutcomes.FindingDecided | backend/darknetra/decisions/service.py:212-309 | what a decision on a finding writes |
| ReviewOutcomes.AlertDecided | backend/darknetra/decisions/service.py:212-309 | what a decision on an alert writes |
| ReviewOutcomes.HandleRefusedIff | backend/darknetra/monitor/alerts.py:151-227 | every refusal of an action on an alert with its exact condition |
| ReviewOutcomes.AlertHandled | backend/darknetra/monitor/alerts.py:151-227 | what acknowledging, dismissing and escalating write |
| ReviewOutcomes.SignalTaken | backend/darknetra/monitor/alerts.py:95-148 | a signal opens an alert of its own or joins an OVERFLOW row |
| ReviewOutcomes.DraftAdmittedIff | backend/darknetra/decisions/service.py:320-393 | every refusal of a draft with its exact condition, and the row of an admitted one |
| ReviewOutcomes.PromotionAdmittedIff | backend/darknetra/decisions/service.py:425-447 | promotion takes the standing ACCEPT of exactly the finding's version |
| ReviewOutcomes.ReplacementAdmittedIff | backend/darknetra/decisions/service.py:450-477 | replacing a finding retires it and drafts the next version, which names it |
| ReviewOutcomes.GraphRebuilt | backend/darknetra/analytics/graph.py:51-157 | the rebuilt edge table key by key: current candidates' edges follow the standing decision, derived edges are shown, obsolete ones hidden, others kept |
| CaseStore.Case.MaterialiseGraph | backend/darknetra/analytics/graph.py:51-157 | the three passes over the edge table together give the specified table |
| CaseStore.OverlayIsMaterialised | backend/darknetra/analytics/graph.py:125-155 | laying current candidates over the derived edges one by one is independent of their order |
| ClaimChecker.Verify | backend/darknetra/agent/claim_checker.py:78-151 | each claim gets its first failing reason or none; the count is that of the claims with a reason, zero iff all are verified |
| ClaimChecker.ReasonIs | backend/darknetra/agent/claim_checker.py:78-151 | each reason with its exact condition, in the order in which they are looked for |
| ClaimChecker.VerifiedIff | backend/darknetra/agent/claim_checker.py:78-151 | in every reachable state a claim goes through iff it says something, cites known evidence only and, if confirmed, rests on a promoted finding |
| ClaimChecker.ConfirmedClaimIff | backend/darknetra/agent/claim_checker.py:119-145 | a confirmed claim is accepted exactly when a promoted finding has its text and covers its evidence: the decision rows also looked up always agree |
| Alerts.RaisesAs | backend/darknetra/monitor/alerts.py:86-148 | what one signal does: an ordinary alert while fewer than twenty count, then an OVERFLOW row, then one more signal on the earliest such row |
| Alerts.NothingLost | backend/darknetra/monitor/alerts.py:86-148 | whatever the clocks do, ordinary alerts plus overflow_count equal the signals raised, and alert evidence is exactly the submitted evidence |
| Alerts.CapKeptIff | backend/darknetra/monitor/alerts.py:88-94 | a call is sure to keep at most 20 ordinary and one OVERFLOW alert in every hour iff its transaction did not begin in an hour before the one it counts, whichever clock is ahead |
| Alerts.LateTransactionPassesCap | backend/darknetra/monitor/models.py:210-212 | the failing family: transactions begun in an earlier hour stamp any number of ordinary alerts into it |
| Alerts.PromptHistory | backend/darknetra/monitor/alerts.py:86-148 | if every call falls in its transaction's hour, is stamped no later than its clock reading, and the readings never run backwards: min(20, n) ordinary alerts and one OVERFLOW iff n > 20, standing for exactly the n signals of the hour |
| Alerts.CaseAlerts.RaiseAlert | backend/darknetra/monitor/alerts.py:67-148 | refusals change nothing; otherwise the returned row stands for the signal and carries its evidence |
| Monitor.FinalStatus | backend/darknetra/monitor/runner.py:337-346 | which terminal status is published: DONE, PARTIAL, RATE_LIMITED or ERROR, each with its exact condition |
| MonitorRunner.StatusOfSources | backend/darknetra/monitor/runner.py:183-346 | the same read off the sources: no error; some error but some results; all turned away for their rate; no results and another failure |
| MonitorInvariants.StepKeeps | backend/darknetra/monitor/runner.py:72-121 | every step of every attempt, crash, failure, interruption and recovery keeps counters, content uniqueness, lock ownership and item records, for all clock readings in any order |
| MonitorInvariants.ReachableInv | backend/darknetra/monitor/runner.py:72-121 | the same in every reachable state, for all clock readings in any order |
| MonitorInvariants.OnlyCommitPublishes | backend/darknetra/monitor/runner.py:118-121 | no step but an attempt's commit shows a hit or an attempt's alert, wherever it crashes; a signal from outside every attempt changes the alert rows by that signal only |
| MonitorInvariants.CommitPublishesAll | backend/darknetra/monitor/runner.py:183-376 | the commit shows all collected hits at once, new_hits of them, with the final status, and changes no other attempt |
| MonitorInvariants.AllOrNothing | backend/darknetra/monitor/runner.py:41-69 | in every reachable state new_hits is the number of hits with the run's id, and an unfinished or interrupted attempt has none |
| MonitorInvariants.FinishedIsFinal | backend/darknetra/monitor/recovery.py:85-97 | no later step changes a terminal row or its hits |
| MonitorInvariants.RecoverExactly | backend/darknetra/monitor/recovery.py:65-100 | recovery, in any order of its rows and with any clock readings, makes ERROR exactly the RUNNING rows started by the given time whose item is not locked |
| MonitorInvariants.StartupClosesAll | backend/darknetra/monitor/recovery.py:65-100 | after a crash, recovery leaves no RUNNING row that was started by the given time |
| MonitorRecency.DisplacedIff | backend/darknetra/monitor/recovery.py:42-54 | in every reachable state, interrupting an attempt displaces the published result its item shows iff that result's finished_at is not after the attempt's start |
| MonitorRecency.OlderDisplacesNewer | backend/darknetra/monitor/recovery.py:42-54 | the failing family: an attempt started and orphaned, a second one published, the first then interrupted; the item shows the first iff the second's commit reads a time no later than the first's start |
| MonitorRecency.NewerResultKeptIff | backend/darknetra/monitor/recovery.py:42-54 | a history never lets an older attempt displace a newer published result iff every interruption of an attempt with a newer published one finds last_run_at after the attempt's start, for all clock readings in any order |
| MonitorRecency.SpelledIsSame | backend/darknetra/monitor/recovery.py:65-100 | every history ends like one with each recovery replaced by its interruptions, so that condition covers recoveries |
| MonitorRecency.NewerResultKept | backend/darknetra/monitor/runner.py:93 | with clock readings that never run backwards, the attempt an item shows was started no earlier than any of its published attempts |
| MonitorRecency.ShowsFinished | backend/darknetra/monitor/recovery.py:42-54 | for all clock readings in any order, an item with a published attempt shows a finished attempt of its own |
| MonitorInvariants.HitsAreDistinct | backend/darknetra/monitor/runner.py:273-334 | no content is stored twice for an item, a hit has an alert iff triage called for one, its evidence is on it, and the alerts stand for alerting hits, source alarms and outside signals (promoted trends, refused authority), one each |
| MonitorRunner.StoresEveryResult | backend/darknetra/monitor/runner.py:247-334 | after publishing, an item's contents are the old ones and every allowed result, whatever repeats there were |
| MonitorRunner.SourcesStore | backend/darknetra/monitor/runner.py:183-334 | the same of the tables, from any view of them |
| MonitorRunner.CountsClosed | backend/darknetra/monitor/recovery.py:65-100 | recovery counts exactly the RUNNING rows it has closed |
| MonitorInvariants.BeginsIff | backend/darknetra/monitor/runner.py:72-111 | an attempt starts exactly for a known, allowed item that nobody works on while nobody publishes, with an empty RUNNING row |
| MonitorInvariants.OutsideRaises | backend/darknetra/monitor/alerts.py:86-148 | a signal from outside every attempt is one more signal, with its evidence on some alert |
| MonitorRunner.PublishKeeps | backend/darknetra/monitor/runner.py:183-376 | the whole publishing loop with its commit keeps the invariant |
| MonitorRunner.CaseMonitor.Publish | backend/darknetra/monitor/runner.py:183-376 | the nested loops over sources and results end in the specified commit, which stores one hit for the first allowed result of each new content, in order, with its verdict; raises one signal for each that triage calls an alert for, with all its evidence on the alert, and one for each alarm; and sets status, time and the item's record |
| MonitorRunner.CaseMonitor.InterruptRun | backend/darknetra/monitor/recovery.py:21-62 | closes the row and touches the item only when its last_run_at is absent or not after the attempt's start |
| MonitorRunner.CaseMonitor.Recover | backend/darknetra/monitor/recovery.py:65-100 | the recovery loop does the specified interruptions and counts them |
| ToolBudget.ExecutionBudget.ConsumeTool | backend/darknetra/agent/delegation.py:50-69 | a tool call is granted iff every counter up the chain has room, and then counted on all of them, else on none |
| ToolBudget.RunBudget.SpecialistTool | backend/darknetra/agent/delegation.py:50-84 | every call is counted once at the lead, whoever made it, and nobody passes a limit |
| Delegation.Meter | backend/darknetra/agent/delegation.py:189-204 | a metered stream stops at the first report that is invalid or passes the cap |
| Delegation.MeteredBound | backend/darknetra/agent/delegation.py:189-204 | a metered total passes its cap by at most one report |
| Delegation.DelegationState.RunSpecialist | backend/darknetra/agent/delegation.py:87-258 | admission, child count and shared spend of one specialist |
| Delegation.PoolBound | backend/darknetra/agent/delegation.py:93-103 | however many specialists are asked for, together they spend at most the pool plus one report |
| Delegation.LeadBound | backend/darknetra/agent/service.py:569-588 | both lead passes together spend at most their half plus one report |
| Delegation.RunChargeBound | backend/darknetra/agent/service.py:622-645 | a run charges its thread less than the remaining budget plus two reports plus one rounding unit |
| Delegation.BoundIsReached | backend/darknetra/agent/service.py:510-527 | the bound is not slack: however small the largest report may be, some run costs exactly the remaining budget plus two of them |
| Delegation.FittingRunStaysWithinBudget | backend/darknetra/agent/service.py:510-588 | if every provider keeps to its share, the charge never exceeds what was left, rounding included |
| Delegation.ExecuteRun | backend/darknetra/agent/service.py:510-645 | below the admission minimum nothing is spent; otherwise the thread is charged once, for everything, unless the run was ended by another path: the ceiling of exactly the reports that counted, first pass, revision and the specialists taken on; with the lead's failure |
| Delegation.MeteredCounts | backend/darknetra/agent/service.py:558-579 | which reports of a stream count: all valid ones up to and including the first that passes the cap |
| Delegation.CountsOnce | backend/darknetra/agent/service.py:558-579 | no other number of reports can count |
| Delegation.FittingRunIsPaid | backend/darknetra/agent/service.py:622-645 | providers that keep to their shares are paid in full: the charge is the ceiling of everything both passes and at most three specialists report |
| NimHarness.Run | backend/darknetra/agent/harness_nim.py:111-206 | every request is covered by its reservation, every report is what its usage costs, and the loop stops only for a stated reason; with honest replies the reports never pass the budget, with any replies all but the last fit it |
| NimHarness.RunThread | backend/darknetra/agent/harness_nim.py:111-206 | lead passes and specialists of honest NIM replies never take the thread over its budget; the charge is what their turn loops reported, of at most sixteen and eight turns |
| Normalize.NormalizeText | backend/darknetra/extract/normalize.py:14-54 | the three-list scan computes the recursive specification, and its result is the cut of the text into clusters with what each becomes: nothing, a newline, one blank, or the composition of its characters up to the first that does not compose |
| Normalize.ScanDescribed | backend/darknetra/extract/normalize.py:14-54 | the same of the specification |
| Normalize.DescribedOnce | backend/darknetra/extract/normalize.py:14-54 | no other characters or offsets meet that description |
| Normalize.CompositionOfSlice | backend/darknetra/extract/normalize.py:32-42 | if composing twice is composing once, an ordinary cluster becomes the composition of its raw slice |
| Normalize.OnlyZeroWidthVanishes | backend/darknetra/extract/normalize.py:20-23 | if composition never empties a text, only zero-width characters disappear |
| Normalize.PlainTextUnchanged | backend/darknetra/extract/normalize.py:14-54 | text without zero-width characters, carriage returns, tabs and double blanks, already composed, comes back unchanged |
| Normalize.CutsPartition | backend/darknetra/extract/normalize.py:14-54 | clusters cut the raw text from end to end without gap or overlap |
| Normalize.RemovedCounted | backend/darknetra/extract/normalize.py:20-22 | the removed count is the number of clusters at zero-width characters |
| Normalize.CharacterInCut | backend/darknetra/extract/normalize.py:14-54 | every normalised character's raw span is one cluster of the partition, and not a removed one |
| Normalize.RawSpanInBounds | backend/darknetra/extract/normalize.py:57-60 | every valid normalised span maps to a non-empty span inside the raw text |
| Normalize.RawSliceNormalises | backend/darknetra/extract/normalize.py:57-60 | normalising the raw slice of any span gives the span widened to whole clusters |
| Normalize.RoundTripIff | backend/darknetra/extract/normalize.py:57-60 | it gives back exactly the span iff the span lies on cluster boundaries |
| Chunker.ChunkText | backend/darknetra/rag/chunker.py:17-52 | refusal iff the window is invalid; every chunk the exact slice it claims, at most the limit, on its line; cut after the last break of the window, or at the limit; each chunk of a paragraph repeats the overlap (or all but one character) of the one before, and together they cover it; nothing but newlines is lost |
| Lines.LineOffsets | backend/darknetra/ingest/dispatch.py:20-26 | line_offsets are 0 and the positions after the newlines |
| Lines.OffsetsAre | backend/darknetra/ingest/dispatch.py:20-26 | the offsets are 0 and the positions after newlines, each once and in order |
| Lines.LineOfHolds | backend/darknetra/extract/pipeline.py:188 | the line number of a position is that of the line whose start and end enclose it |
| Lines.RangeReadsBack | backend/darknetra/ingest/office.py:132-153 | a part joined between line separators is read back exactly from its line range |
| Lines.JoinedIsAnchored | backend/darknetra/ingest/dispatch.py:88-103 | the line ranges of all parts read back exactly and are ordered and disjoint |
| Documents.Budget.Add | backend/darknetra/ingest/office.py:24-32 | counts first, refuses iff the cap is passed |
| Documents.Docx | backend/darknetra/ingest/office.py:156-173 | a Word file is accepted iff its text fits the cap, and the budget is then the text's length |
| Documents.ParagraphText | backend/darknetra/ingest/office.py:156-173 | a paragraph's text, node by node |
| Documents.ParagraphsKept | backend/darknetra/ingest/office.py:156-173 | no paragraph with text is lost or repeated, and their order stays |
| Documents.SheetSays | backend/darknetra/ingest/office.py:176-216 | no row with cells is lost or repeated, and each is its cells' texts with a tab between any two |
| Documents.JoinUnits | backend/darknetra/ingest/office.py:132-153 | joined units are read back exactly by their ranges, in order and disjoint; refused iff the separators pass the cap |
| Documents.Xlsx | backend/darknetra/ingest/office.py:176-216 | accepted iff every shared reference exists and text plus string table fit the cap; ranges read the sheets back |
| Documents.Pptx | backend/darknetra/ingest/office.py:219-243 | accepted iff the text fits the cap, the budget is its length; ranges read the slides back |
| Documents.PdfText | backend/darknetra/ingest/dispatch.py:84-103 | unless the text is blank, each page without its trailing newlines is read back exactly by its range |
| Messages.Telegram | backend/darknetra/ingest/dispatch.py:150-174 | one context per signed message, its slice the sender and its span exactly that message's line |
| Messages.TelegramAttributable | backend/darknetra/ingest/dispatch.py:152-172 | context slices are the senders and message spans are ordered and disjoint |
| Messages.WhatsApp | backend/darknetra/ingest/dispatch.py:204-265 | messages with their continuation lines, and the contexts with the span ends the loop leaves them |
| Messages.WhatsAppAttributable | backend/darknetra/ingest/dispatch.py:204-265 | context slices are the senders and message spans are ordered and disjoint |
| MessageTexts.MessageSays | backend/darknetra/ingest/dispatch.py:204-265 | each message has the sender and text its header parses into and every line up to the next header, on a line of its own |
| MessageTexts.OpensIff | backend/darknetra/ingest/dispatch.py:212-265 | a line opens a signed message iff it is a header with a non-empty sender that stands in the line itself |
| MessageTexts.ParsedIs | backend/darknetra/ingest/dispatch.py:215-240 | sender and text are what stands before and after the first colon-space |
| Messages.OwnerIff | backend/darknetra/extract/pipeline.py:127-146 | at most one context holds a non-empty span, and the owner is that context |
| Messages.SenderOwnsItself | backend/darknetra/extract/pipeline.py:99-124 | the observation of a sender's name is attributed to that very message |
| Messages.Attribute | backend/darknetra/extract/pipeline.py:127-146 | the owner is the one context holding the span, if exactly one does |
| Messages.OwnerOfLine | backend/darknetra/ingest/dispatch.py:211-214 | who owns a span in any line: the nearest signed message at or before it, nobody once the last span was closed |
| Messages.NoticeOwnedIff | backend/darknetra/ingest/dispatch.py:211-214 | a system notice is nobody's text, except that it goes to the previous signed message iff some later line opens a message |
| RateLimit.EveryWindowWithinLimit | backend/darknetra/policy/engine.py:69-91 | every closed hour of any history, however the clock moves and limits change, holds at most the limit in force at its last admission |
| RateLimit.FixedLimit | backend/darknetra/policy/engine.py:69-91 | with one limit no closed hour holds more admitted requests than it |
| RateLimit.RefusedOnlyWhenFull | backend/darknetra/policy/engine.py:69-91 | a request is refused for its rate exactly when the hour up to it and any rows stamped later hold the limit; no clock order is assumed |
| RateLimit.AdmittedIff | backend/darknetra/policy/engine.py:69-91 | what one check does, with its exact conditions: the requests since an hour ago reach the limit, or the instant is taken |
| RateLimit.Counters.Consume | backend/darknetra/policy/engine.py:69-91 | admits and counts, or refuses and changes nothing |
| Pagination.PageRows | backend/darknetra/api/pagination.py:12-51 | refused iff limit or cursor is invalid; at most limit rows, all past the cursor, with the table's size |
| Pagination.PageSplits | backend/darknetra/api/pagination.py:35-51 | a page and what its cursor leaves are together all that was left, in order |
| Pagination.FollowFromStart | backend/darknetra/api/pagination.py:12-51 | following the cursor over an unchanging table ends and yields the sorted table, in both orders |
| Pagination.OrderedIsUnique | backend/darknetra/api/pagination.py:35-38 | there is only one sorted result |
| Pagination.NeverTwice | backend/darknetra/api/pagination.py:25-38 | with any insertions and deletions between pages the rows come in strict order, so none twice, and each was in a table |
| Pagination.ExactlyOnce | backend/darknetra/api/pagination.py:25-51 | a finished walk returns every row present throughout exactly once |
| JobRunner.StepKeeps | backend/darknetra/jobs/runner.py:41-106 | every step keeps statuses, tasks, permits and keys in agreement |
| JobRunner.NeverTooMany | backend/darknetra/jobs/runner.py:41-106 | in every interleaving at most max_workers jobs are RUNNING, keys name QUEUED or RUNNING jobs, no two unfinished jobs share a key |
| JobRunner.TerminalIsFinal | backend/darknetra/jobs/runner.py:41-106 | a terminal status never changes again |
| JobRunner.AfterShutdown | backend/darknetra/jobs/runner.py:101-106 | after shutdown nothing runs, and a job left unfinished is QUEUED |
| JobRunner.LeftUnfinishedIff | backend/darknetra/jobs/runner.py:84-106 | from any consistent state and for everything that happens during shutdown: a job ends unfinished iff it was QUEUED with no task, a task without its first step or an ended one when shutdown began, and no cancel call for it got to its end; every other job is final |
| JobRunner.QueuedForever | backend/darknetra/jobs/runner.py:53-76 | such a job exists |
| JobOutcomes.StartsIff | backend/darknetra/jobs/runner.py:53-57 | a job starts with its first step iff it is not cancelled, nobody queues before it and fewer than max_workers run |
| JobOutcomes.WakesTo | backend/darknetra/jobs/runner.py:53-57 | what becomes of a waiting job whose turn comes |
| JobOutcomes.ReturnsAs | backend/darknetra/jobs/runner.py:57-76 | what a job's body returns is what the job ends as, and its key is free |
| JobOutcomes.Submitted | backend/darknetra/jobs/runner.py:41-79 | what a submission changes |
| JobOutcomes.CancelCompleted | backend/darknetra/jobs/runner.py:84-95 | what a cancel call that gets to its end leaves |
| JobOutcomes.EndedBy | backend/darknetra/jobs/runner.py:41-106 | in every history a final status is the outcome of the job's body, or CANCELLED by a wait that was cancelled or a cancel call |
| JobRunner.InProcessRunner.SubmitJob | backend/darknetra/jobs/runner.py:41-79 | refused iff closing; a used key yields the unfinished job that holds it |
| JobRunner.InProcessRunner.Settle | backend/darknetra/jobs/runner.py:53-74 | the final status and the release of key and permit are one step |
| JobRunner.InProcessRunner.FinishCancel | backend/darknetra/jobs/runner.py:84-95 | afterwards the job is final and no key names it |
| GraphSearch.Search | backend/darknetra/analytics/graph.py:222-233 | the frontier loop selects exactly the nodes joined to the focus by a path of at most depth edges |
| GraphSearch.Query | backend/darknetra/analytics/graph.py:188-242 | refusals; otherwise wanted nodes, the cut to 500 with the focus and the smallest ids, the cut to 2000 edges, and truncation marked iff something was cut |
| GraphSearch.FilterKeeps | backend/darknetra/analytics/graph.py:216-242 | exactly the edges between the nodes are kept, in order, as often as they came |
| GraphSearch.ViewIsSound | backend/darknetra/analytics/graph.py:234-242 | at most 500 nodes and 2000 edges, every edge between shown nodes, degrees summing to twice the edges, and nothing missing without truncation |
| GraphSearch.DegreesSumToTwice | backend/darknetra/analytics/graph.py:242 | over nodes that hold both ends of every edge, degrees sum to twice the edges |
| Blocking.CandidatePairs | backend/darknetra/analytics/blocking.py:13-56 | every pair is justified, the limit is kept, an untruncated result holds every qualifying pair, and truncation is marked iff a limit was hit |

## Left out

- Permissions, owner checks, audit records, HTTP routes and schemas: single-branch guards or plumbing.
- Decimal's 28-digit context and float conversions: costs are exact reals, stored money is whole units of 0.0001 USD.
- Wall-clock timing inside a transaction: one reading per step, except that each raised alert has its own.
- Deadlock and blocking: a step whose lock is held elsewhere leaves the state unchanged and may be tried again later.
- Case-thread routes: of cancellation only the effect on the run's log is modelled (`CaseRunLog`), of a run's execution its log and its spend (`Delegation`).
- Decisions on activity scores: they follow the link branch without edges.
- Graph provenance and the content of derived edges: the derived key set is an input of the correlation run.
- Monitoring schedules, source backoff and retry_delay, seen URLs and triage scores: they do not touch the attempt protocol; verdicts of triage are inputs. The alerts of refused executions and of trends are signals from outside.
- Run rows of refused executions (monitor/principal.py:76-98): an ERROR row and the item's last_run_at and last_run_id are written there without the item's lock; these writes are outside the scope of the monitoring steps, so of `MonitorInvariants.ReachableInv` and of the results of `MonitorRecency`.
- Delegation.Meter: a report is its amount. Invalid token counts, which fail a stream after its amount has counted, and time limits, which end one early, are not told apart from the end of the reports.
- Collection of sources: only its results enter the model; a source error is its code and whether it raises an alert.
- Claim extraction, blank-text tests and text normalisation of claims: parameters of `ClaimChecker`.
- Regular expressions, Unicode composition, XML and ZIP reading, PDF text extraction, splitting into lines: parameters or inputs already parsed.
- Chunk language and script tags: a scan of each chunk without consequence for the spans.
- Message dates, media and reply references: stored, not used for offsets.
- Blocking's image, name and activity comparison: one uninterpreted test of two profiles, the earlier first; the order in which shared keys are visited is left open, so the result holds for every order.
- Cursor encoding: a cursor is its key, or malformed; the filter of the underlying query is the table.
- Node labels and the making of virtual evidence edges: those edges are an input, ids are numbers.
- Factories that raise outside `Exception` in the job runner: the event loop stops then.
- Session rotation, ledger import, evidence containers, activity clustering and activity projection: not modelled.
- RunLog.Stream: the polling delay and the client's disconnect are a bound on the number of polls.
- Documents.Xlsx: a shared-string reference is a number or not; Unicode digits that Python refuses to convert are not modelled.
- Messages.WhatsApp: the header pattern is a parameter, and lines are those the platform splits, with their ends.
- Pagination.PageRows: rows are sets with a unique id; the query text is not modelled.
