# ParcelPilot, verified

A Dafny model of the parts of ParcelPilot that carry its promises: quotes are verbatim,
effects happen at most once, scope never slips, money is computed, and nothing is lost on
the wire or in chunking. `dafny verify dfyconfig.toml` checks it all.

Each module follows one source file or one of its operations. Loops and objects of the
source are methods and classes here, proved equal to functions; what the source promises
is proved about those functions, or about the state machine they drive.

| file | models |
|---|---|
| `Text.dfy`, `Types.dfy`, `Principals.dfy` | whitespace, stripping, searching and joining; the shared entities; who is asking |
| `Spans.dfy`, `Highlight.dfy` | span location on the server, and the client's second implementation of it |
| `Validator.dfy`, `Quotes.dfy`, `Markers.dfy` | the citation gate, what it lets pass told in words, and the numbering of the markers |
| `Ledger.dfy`, `LedgerRuns.dfy`, `LedgerOutcomes.dfy`, `LedgerService.dfy` | the action ledger: interleaved transactions, safety of every run, what each event settles for good, and the operations on a store updated in place |
| `LedgerCaps.dfy`, `LedgerCapExact.dfy` | the monthly cap on credits: when serial runs respect it, and exactly how much overlapping ones can issue |
| `Router.dfy`, `RunLoop.dfy`, `RunOutcomes.dfy` | one question from plan to outcome, on a ledger shared with other transactions; and what every run comes to, told by its replies and its tools |
| `EventStream.dfy`, `Wire.dfy`, `StreamCursor.dfy` | the incremental event-stream parser against an encoder, and the resumable cursor over a step log that is still being written |
| `Wording.dfy`, `Chunker.dfy` | the words of a text, and cutting a document into chunks |
| `Fusion.dfy`, `Channels.dfy` | rank fusion, the eligibility gate and the merging of searches |
| `PolicyPack.dfy`, `PolicyRules.dfy`, `Decisions.dfy` | two-layer policy parameters, verdicts and amounts, and the policy that one run's decisions carry on |
| `Breaker.dfy`, `Crowd.dfy` | retries behind a circuit breaker, by one caller and by many, and the token budget |
| `ScopedPool.dfy` | transaction-local scope on pooled sessions |

## Reading the results

What the model takes as given:

- Database transactions are atomic steps with row locks; which steps interleave, and in
  which order, is arbitrary. `now()` is the start of a transaction.
- A digest is a free constructor: distinct effects have distinct digests.
- The language model, the tools, the clock, the upstream provider, the network's cuts and
  the client's reconnections are arbitrary inputs.
- Scores, amounts and times are exact numbers. Amounts in the ledger are whole hundredths.

Where the code is narrower than its own comments, the code is modelled, a concrete input
shows the gap, and the exact condition is proved:

| the comments say | the code does | exact condition, and a case |
|---|---|---|
| validated claims are settled | a quote's length is measured before its whitespace is collapsed, so a kept quote can be too short for a second pass | `Validator.RevalidationIsFixpointIff`, `Validator.WideGapIsNotFixpoint` |
| the UI can open the exact span behind a marker | markers are numbered by chunk and start alone | `Markers.ValidatedExactIff`, `Markers.SharedStartIsInexact` |
| an executed action is final | the failure write is unconditional and comes after a rollback | `LedgerRuns.RelabelledIff`, `LedgerRuns.ExecutedCanBeRelabelled` |
| the monthly cap is enforced | the check reads committed credits only, so overlapping confirmations do not see each other | `LedgerCapExact.CapBreaksIff`, `LedgerCaps.OverlapBreaksCap` |
| any refusal withdraws what the run proposed | only the latest proposal is withdrawn, and only by a refusal | `RunLoop.PendingAfterIff`, `RunLoop.TwoProposalsLeaveOne` |
| the document search always runs | the step limit can cut it off the end of the plan | `Router.SearchSurvivesIff`, `Router.FullPlanLosesItsSearch` |
| every named record is looked up, and one that cannot be seen stops the run | only the first three are looked up, as far as the step limit reaches; a fourth, if it is an order, is read by the rules without that guard | `Router.LookedUpIff`, `RunLoop.PlannedLookupRefusesIff`, `RunLoop.FourthUnseenIsAnswered` |
| the step sequence is gapless | the counter moves before the insert | `StreamCursor.GaplessIff`, `StreamCursor.FailedInsertLeavesGap` |
| `done` comes last | steps and status are read by two statements, and a crash after the final status adds a step | `StreamCursor.DoneIsCompleteIff`, `StreamCursor.LastStepMissed`, `StreamCursor.FailureAfterDone` |
| half-open lets exactly one request through | it lets through everyone who asks before an outcome is recorded | `Crowd.OneProbeIff`, `Crowd.TwoProbesOverlap` |
| no single large request blows the token budget | what is reserved is an estimate; what is recorded is what was used | `Breaker.CeilingBreaksIff`, `Breaker.OneRequestBlowsIt` |
| a chunk found by both rankers beats one found by either | true as long as the two candidate limits are small enough for the constant, for one common limit up to `k + 1` | `Fusion.BothBeatOneIff`, `Fusion.BoundIsTight` |
| an order is judged by its own account's agreement | a run resolves the policy once, for the first order it can see, and decides every later order by it | `Decisions.OwnDecisionIff`, `RunLoop.SecondOrderFollowsFirst` |
| merged channels are free of duplicates | the candidate list is not, after admission | `Channels.CandidatesRepeatIff` |
| CRLF, LF and CR end lines alike | some mixed pairs are not seen as a blank line; a CR inside data arrives as LF | `Wire.FrameIffRecognised`, `Wire.DataSurvivesIff` |

One line is modelled as intended rather than as written: `agentcore/orchestrator/engine.py:860`
reads the lead claim's text with `.get("text")`, which a `Claim` does not have.

## Model

| member | source | states |
|---|---|---|
| Spans.CollapseWithMap | agentcore/trust/spans.py:45-67 | the one-pass loop computes the collapsed text and the offset of each of its characters |
| Spans.OffsetsMap | agentcore/trust/spans.py:45-67 | the offset map is strictly increasing, as long as the collapsed text, and points at the characters that survive |
| Spans.CollapseConcat | agentcore/trust/spans.py:45-67 | collapsing distributes over a cut that splits no whitespace run, offsets included |
| Spans.CollapseSlice | agentcore/trust/spans.py:45-67 | collapsing a slice that begins on ink is slicing the collapsed text |
| Spans.NeedleOfStrip | agentcore/trust/spans.py:78-84 | the needle is the same whether stripped before or after collapsing, and is empty or bounded by ink |
| Spans.FindSpan | agentcore/trust/spans.py:70-96 | the search by collapsed text and map computes `SpanOf` |
| Spans.SpanIsLeftmostOccurrence | agentcore/trust/spans.py:70-96 | a span is found iff some ink-bounded slice reads as the needle; it is the leftmost such slice, unique at its start, and its text is the haystack's own |
| Spans.SuffixSearch | agentcore/trust/spans.py:110-125 | searching a suffix that begins after a hit is searching the whole collapsed text from there |
| Spans.FindAllSpans | agentcore/trust/spans.py:103-125 | the loop over re-collapsed suffixes terminates with the greedy left-to-right occurrences |
| Spans.AllSpansAreOccurrences | agentcore/trust/spans.py:103-125 | every span returned is an occurrence with its verbatim text, and they are disjoint in increasing order |
| Spans.AllSpansCover | agentcore/trust/spans.py:103-125 | every occurrence overlaps, or is, a span that was returned |
| Highlight.OriginalIndex | frontend/src/components/CitationInspector.jsx:152-170 | the client's loop finds the least original offset with that many collapsed characters before it |
| Highlight.Highlighted | frontend/src/components/CitationInspector.jsx:143-185 | the client marks iff the server finds a span; the mark ends where the span ends and starts at the span, or earlier by whitespace only, exactly when two spaces stand before it |
| Validator.SpanOfStrip | agentcore/trust/validator.py:147-148 | the check searches for the stripped quote and the caller for the quote itself, with one answer |
| Validator.VerbatimLocatable | agentcore/trust/validator.py:144-148 | in verbatim mode the assertion after the check cannot fail |
| Validator.CheckIsSound | agentcore/trust/validator.py:170-196 | a citation passes iff its stripped quote has 12 characters, its chunk was retrieved and is groundable, and the quote occurs in it |
| Quotes.CollapseIsSpaced | agentcore/trust/spans.py:45-67 | a text that begins with ink collapses to its words with single spaces between them |
| Quotes.NeedleIsSpaced | agentcore/trust/spans.py:78-84 | so what is searched for is the quote's words with single spaces between them |
| Quotes.SpanHasTheWords | agentcore/trust/spans.py:70-96 | a span is found iff the text has the quote's words somewhere, in order and with nothing but whitespace between them; it is the first such slice |
| Quotes.PassesIffWordsOccur | agentcore/trust/validator.py:170-196 | a citation passes iff its quote has 12 characters and a retrieved, groundable chunk has its words |
| Validator.RejectionTells | agentcore/trust/validator.py:170-196 | which reason a rejected citation is given: the first that holds of an empty quote, a short one, a chunk not retrieved, one that may not be cited, and a quote that occurs nowhere in it |
| Validator.ByIdIs | agentcore/trust/validator.py:127-127 | an identifier retrieved more than once stands for the last chunk that has it |
| Validator.ValidateClaims | agentcore/trust/validator.py:114-167 | the nested loops return an outcome iff every passed citation can be located, and then the outcome that `Validated` describes |
| Validator.CitationsSifted | agentcore/trust/validator.py:131-157 | each citation of a claim goes, in order, to exactly one of surviving (resolved) and rejected (with its reason) |
| Validator.CitationsConserved | agentcore/trust/validator.py:114-167 | surviving and rejected citations together are as many as were given |
| Validator.ClaimsSplit | agentcore/trust/validator.py:159-164 | each claim goes, in order, to exactly one of kept and unsupported |
| Validator.OkIff | agentcore/trust/validator.py:91-99 | the outcome is clean iff there are claims and every citation is sound |
| Validator.KeptHasEvidence | agentcore/trust/validator.py:146-161 | no claim is kept without citations, and each is the exact text of a groundable chunk at its true offsets and document |
| Validator.RevalidationIsFixpointIff | agentcore/trust/validator.py:114-196 | validating the kept claims again changes nothing iff every kept quote has 12 characters |
| Validator.KeptLong | agentcore/trust/validator.py:176-181 | they do whenever every passing quote has 12 characters after collapsing |
| Validator.WideGapIsNotFixpoint | agentcore/trust/validator.py:176-181 | two words and a wide gap pass once and are rejected the second time |
| Markers.RenderMarkers | agentcore/trust/validator.py:211-224 | the loop numbers each citation with an entry of the same chunk and start |
| Markers.NumberedByFirstUse | agentcore/trust/validator.py:217-222 | entries are the first citations with their keys, in order of first use, no key twice |
| Markers.ExactIff | agentcore/trust/validator.py:199-236 | every marker opens the very citation it was written for iff no two citations share a chunk and start and differ |
| Markers.ValidatedExactIff | agentcore/trust/validator.py:199-236 | after validation that is: iff no two kept spans share a chunk and start with different ends |
| Markers.SharedStartIsInexact | agentcore/trust/validator.py:217-222 | whenever a shorter and a longer quote open one chunk, validation keeps both claims and both get marker 1, which opens the shorter |
| Markers.NoFeeWithin | agentcore/trust/validator.py:114-236 | validating and rendering "no fee within" and "no fee within 30 minutes" gives that outcome |
| Ledger.RowStep | agentcore/tools/actions.py:203-252 | no event loses a row, changes its digest, key or deadline, or makes a settled row pending |
| Ledger.InvariantStep | agentcore/tools/actions.py:271-447 | each event of each session keeps locks, counts, sessions, digests, executions and expiry consistent |
| Ledger.RunInvariant | agentcore/tools/actions.py:271-447 | so every reachable state is consistent |
| Ledger.AtMostOnce | agentcore/tools/actions.py:271-368 | over every interleaving an action executes at most once, a pending one never, each execution has one audit entry, and is exactly what was prepared, by an entitled role, begun before the deadline |
| Ledger.TablesStep | agentcore/tools/actions.py:271-447 | only a commit adds an execution or a credit, and only a commit or a rejection adds an audit entry |
| Ledger.CommitExecutes | agentcore/tools/actions.py:346-364 | a commit executes exactly what its session applied, and the session was entitled to it |
| LedgerRuns.RowsMoveByProtocol | agentcore/tools/actions.py:298-447 | a row's status changes only by the event and session entitled to change it, from the right status, and its payload only by tampering |
| LedgerRuns.SettledForever | agentcore/tools/actions.py:371-447 | once settled, no continuation of a run makes a row pending or executes it again |
| LedgerRuns.ExecutedLeftOnlyByFail | agentcore/tools/actions.py:595-601 | an executed row changes its label exactly when a rolled-back confirmation writes its failure |
| LedgerRuns.RelabelledIff | agentcore/tools/actions.py:325-344 | over whole runs: some continuation relabels an executed row iff a session that rolled back still owes it the failure write |
| LedgerRuns.ExecutedCanBeRelabelled | agentcore/tools/actions.py:325-344 | a run in which that happens |
| LedgerRuns.EffectOncePerOrigin | agentcore/tools/actions.py:203-237 | one effect proposed again and again by one run executes at most once, over every run in which nobody edits a row's tenant |
| LedgerOutcomes.RejectSettles | agentcore/tools/actions.py:371-406 | a rejection of a pending row that no confirmation holds makes it rejected, changes no other row, and is audited; any other rejection does nothing |
| LedgerOutcomes.RejectedNeverExecutes | agentcore/tools/actions.py:371-406 | from any reachable state: no continuation of the run ever executes an action the operator declined |
| LedgerOutcomes.WithdrawSettles | agentcore/orchestrator/engine.py:1674-1696 | a withdrawal does the same without an audit entry |
| LedgerOutcomes.WithdrawnNeverExecutes | agentcore/orchestrator/engine.py:1674-1696 | nor is a withdrawn proposal ever executed |
| LedgerOutcomes.SweepSettles | agentcore/tools/actions.py:430-447 | a sweep expires every overdue pending row, leaves every other row and everything else, and waits if a confirmation holds an overdue one |
| LedgerOutcomes.SweptNeverExecutes | agentcore/tools/actions.py:430-447 | nothing a sweep found overdue is ever executed |
| LedgerOutcomes.PrepareStores | agentcore/tools/actions.py:167-263 | preparing stores one pending row, of the caller's tenant and for the account, payload and deadline named, iff the role allows it and nothing stands under the same key |
| LedgerOutcomes.RolesExecute | agentcore/tools/actions.py:59-90 | over every run: credits and order updates are executed by operations admins alone, and nothing ever by a customer |
| LedgerOutcomes.ConfirmableBy | agentcore/tools/actions.py:59-90 | an operations admin may confirm anything, a support agent escalations and follow-ups, a customer nothing |
| LedgerCaps.CapRespected | agentcore/tools/actions.py:496-550 | serial credits with one cap are sufficient: every month's credits stay within it, and the table is exactly what was executed |
| LedgerCaps.OverlapBreaksCap | agentcore/tools/actions.py:506-522 | two overlapping confirmations issue 120 under a cap of 100 |
| LedgerCapExact.CapBreaksIff | agentcore/tools/actions.py:496-550 | from any quiet state, within the month, some interleaving exceeds the cap iff what is issued and all pending credits that each fit alone sum to more; that sum is reached, and never exceeded |
| LedgerCapExact.NeverMore | agentcore/tools/actions.py:271-368 | no interleaving of confirmations, rejections, failures, crashes and sweeps issues more than that sum |
| LedgerCapExact.AllAtOnce | agentcore/tools/actions.py:506-522 | the tenant's own staff confirming them all before any commits issues the whole sum |
| LedgerCapExact.RunIsPositive | agentcore/tools/actions.py:496-550 | every run whose credits carry one cap leads to states that satisfy what the exact condition asks of a quiet one |
| LedgerCapExact.ConfirmableListed | agentcore/tools/actions.py:496-550 | the credits that fit alone can be listed in every state |
| LedgerService.ScriptEffect | agentcore/tools/actions.py:271-368 | an uninterrupted confirmation comes to the branch the row, role, clock, digest and executor decide |
| LedgerService.ActionStore.PrepareAction | agentcore/tools/actions.py:167-263 | prepares as the machine does, and returns the row that stands for the effect, new or already there |
| LedgerService.ReportTells | agentcore/tools/actions.py:271-368 | each report tells what became of the row: done iff it was executed by this caller, expired iff it expired, a failure iff it failed, and otherwise nothing changed |
| LedgerService.ReportNames | agentcore/tools/actions.py:284-344 | and which refusal it is: no such row, a role not entitled, a status already settled, a digest that no longer fits, or the executor |
| LedgerService.ConfirmExecutesIff | agentcore/tools/actions.py:271-368 | an uninterrupted confirmation executes iff the row is pending, in time and untampered, the role is entitled, and the executor succeeds; it then settles that row, audits it, and pays a credit once, in the amount and to the account that were approved |
| LedgerService.ActionStore.ConfirmAction | agentcore/tools/actions.py:271-368 | leaves the tables its events leave in the machine, and gives exactly that report |
| LedgerService.ActionStore.RunExecutor | agentcore/tools/actions.py:496-550 | accepts a credit iff it is well formed, positive and within its cap |
| LedgerService.ActionStore.RejectAction | agentcore/tools/actions.py:371-406 | finds no action iff the row is missing, finds it settled iff it is, and else makes it rejected with one audit entry; no other row changes |
| LedgerService.ActionStore.WithdrawAction | agentcore/orchestrator/engine.py:1674-1696 | makes the row rejected iff it is pending; no other row changes |
| LedgerService.ActionStore.ExpireStale | agentcore/tools/actions.py:430-447 | expires exactly the pending rows past their deadline; no other row changes |
| RunLoop.Run.UseTools | agentcore/orchestrator/engine.py:474-560 | the tool loop, with its limit, deduplication of whole calls, carried policy and failures, gathers what `GatherUpTo` says |
| RunLoop.Run.Synthesise | agentcore/orchestrator/engine.py:693-981 | the attempt loop ends as `Synthesis` says, whose meaning is told by `RunOutcomes.RunEndsAtFirst` in terms of the replies |
| RunLoop.Run.Execute | agentcore/orchestrator/engine.py:361-981 | the whole pipeline ends as `Execution` says, and leaves the shared ledger, others' events included, as it says |
| RunLoop.Run.DiscardPrepared | agentcore/orchestrator/engine.py:1674-1696 | withdraws the latest proposal if it is still pending |
| RunLoop.Run.Refuse | agentcore/orchestrator/engine.py:1698-1735 | every refusal withdraws the latest proposal |
| RunLoop.Run.Recover | agentcore/orchestrator/engine.py:299-330 | budget and provider errors refuse; anything else fails the run and withdraws nothing |
| RunLoop.EveryRunIsSane | agentcore/orchestrator/engine.py:361-981 | every run has one outcome after at most `max_regenerations + 1` syntheses; its claims are what validation kept of the last reply, all of them, or on the last attempt a strict majority led by the lead claim; tables are shown only if there are any |
| RunOutcomes.ReachesSynthesisIff | agentcore/orchestrator/engine.py:361-690 | a run reaches synthesis iff it is in scope, nothing raised, no named record was invisible, and there is a groundable chunk, a decision or a finding to write about |
| RunOutcomes.EvidenceIs | agentcore/orchestrator/engine.py:612-690 | what claims may rest on is the clauses the decisions rest on, and then what the searches selected |
| RunOutcomes.EarlyAnswer | agentcore/orchestrator/engine.py:299-330 | and this is what it answers when it does not |
| RunOutcomes.RunEndsAtFirst | agentcore/orchestrator/engine.py:693-981 | it ends at the first attempt whose reply raises, cannot be located, validates cleanly, or is empty with evidence said to be insufficient, or else at the last attempt; and what it shows is decided by that reply |
| RunOutcomes.CitationsFailedLast | agentcore/orchestrator/engine.py:921-981 | a citation failure is reported only after every attempt was made, and none of them validated cleanly |
| RunOutcomes.FirstCleanReplyWins | agentcore/orchestrator/engine.py:696-922 | if reply n is clean and no earlier one ended the run, the answer is all of reply n's claims, after n syntheses |
| RunOutcomes.RetrievalIsFolded | agentcore/orchestrator/engine.py:474-560 | a run's evidence is the merge of its searches, each made once, in order |
| RunOutcomes.FindingsAreSummed | agentcore/orchestrator/engine.py:474-560 | and its findings are those of all its scans |
| RunOutcomes.CallsAre | agentcore/orchestrator/engine.py:435-474 | an empty plan searches for the question, a proposal no search accompanies gets one for its justification, any other plan is run as it is, up to the step limit |
| RunOutcomes.RaisedIs | agentcore/orchestrator/engine.py:474-560 | the gathering ends early iff a call raises, or a new decision cannot be made |
| RunOutcomes.ProposesIff | agentcore/orchestrator/engine.py:520-560 | a new preparing call holds the row it is given back as the latest proposal iff its caller may propose it and the row stands for it; no other call proposes |
| RunOutcomes.FootprintIs | agentcore/orchestrator/engine.py:1674-1735 | what a whole run leaves on the shared ledger is what its preparing calls store, others' events, and, iff it refuses, the withdrawal of its latest proposal |
| RunLoop.JudgeSane | agentcore/types.py:280-289 | each attempt's answer carries content or a refusal, never both, and never claims beside table-only |
| RunLoop.ReturnedClaimsAreGrounded | agentcore/orchestrator/engine.py:801-809 | every returned claim rests, word for word, on groundable text of the run |
| RunLoop.InvisibleRecordRefusesIff | agentcore/orchestrator/engine.py:591-610 | a run is refused as record-not-found, with no synthesis, iff the first lookup of some named record found nothing |
| RunLoop.PlannedLookupRefusesIff | agentcore/orchestrator/engine.py:591-610 | on the planner's plan that is: iff one of the first three named records, within the step limit, was not found |
| RunLoop.FourthUnseenIsAnswered | agentcore/orchestrator/engine.py:494-520 | three visible tickets and a fourth record, an order that cannot be read: the run goes on to synthesis |
| RunLoop.RunDecides | agentcore/orchestrator/engine.py:495-510 | a run's decisions are those of its first-time `policy_decide` calls, in order, one carrying the policy to the next |
| RunLoop.RunFollowsFirstOrder | agentcore/orchestrator/engine.py:495-510 | so the policy a run holds is that of its first visible order's account |
| RunLoop.SecondOrderFollowsFirst | agentcore/orchestrator/router.py:309-325 | a run on the planner's own plan for two orders of accounts A and B: two packs that agree on B free B's order and charge it |
| RunLoop.PendingAfterIff | agentcore/orchestrator/engine.py:1698-1710 | after a run a proposal is pending iff nobody else settled it and it is not the latest one of a refused run |
| RunLoop.OneProposalIsWithdrawn | agentcore/orchestrator/engine.py:1707-1710 | with at most one proposal, a refusal leaves none pending, and no later event makes it so |
| RunLoop.PlannedRefusalWithdraws | agentcore/orchestrator/router.py:331-340 | so a refusal on the planner's own plan leaves none pending |
| RunLoop.TwoProposalsLeaveOne | agentcore/orchestrator/engine.py:1698-1710 | a plan with two proposals leaves the first one pending |
| Router.NearestWord | agentcore/orchestrator/router.py:105-114 | the record word that wins is the one whose last occurrence is rightmost, the earlier listed on a tie |
| Router.FindRecordIds | agentcore/orchestrator/router.py:88-122 | no identifier is invented or repeated, they come in the order in which the text first names them, and no digits with a record word before them are passed over |
| Router.Plan | agentcore/orchestrator/router.py:282-424 | the loops build the plan `PlanOf` describes |
| Router.PlanHasLength | agentcore/orchestrator/router.py:299-405 | a plan has at most ten calls, counted exactly from the signals |
| Router.PlanEnds | agentcore/orchestrator/router.py:297-405 | the first three named records are looked up first, and the last call searches the documents |
| Router.PlanInOrder | agentcore/orchestrator/router.py:295-405 | lookups come before rules, rules before the proposal, that before the tables, and the documents last: the step limit cuts from that end |
| Router.AtMostOneProposal | agentcore/orchestrator/router.py:331-340 | a plan proposes at most one action, and one iff the question requests it |
| Router.PlanAsksIff | agentcore/orchestrator/router.py:327-405 | the proposal is the requested action on the first record named, with the start of the question; tickets are listed, issues scanned and documents searched exactly when the wording asks |
| Router.RulesAskedIff | agentcore/orchestrator/router.py:302-325 | a rule is asked about an order iff it is one of the first two named and the wording calls for that rule, the cancellation rule by default |
| Router.OrdersAre | agentcore/orchestrator/router.py:305-309 | the orders are the named records that read as one, in the order of the text |
| Router.ScanNamesTicket | agentcore/orchestrator/router.py:388-395 | a scan is for the first ticket among the records named |
| Router.SearchSurvivesIff | agentcore/orchestrator/engine.py:474-474 | the document search runs iff the whole plan fits into the step limit |
| Router.FullPlanLosesItsSearch | agentcore/orchestrator/engine.py:474-474 | a plan of nine calls loses it to the limit of eight |
| Router.LookedUpIff | agentcore/orchestrator/router.py:295-300 | the plan, cut at the step limit, looks up the k-th named record iff k is below three and below the limit |
| Router.FourthRecordIsDecided | agentcore/orchestrator/router.py:302-325 | a fourth named record that is an order is not looked up, but the rules still read it |
| EventStream.SplitFrames | frontend/src/lib/api.js:147-168 | the scan computes the frames and the remainder |
| EventStream.SplitAppend | frontend/src/lib/api.js:147-168 | the frames of `a + b` are the frames of `a`, then the frames of what `a` left over followed by `b` |
| EventStream.BoundaryStable | frontend/src/lib/api.js:151-165 | text that arrives later never moves a boundary already found |
| EventStream.ParseFrame | frontend/src/lib/api.js:176-201 | the line loop computes the event, or none |
| EventStream.OtherLinesIgnored | frontend/src/lib/api.js:181-197 | a comment, a line that names nothing and any other field change nothing |
| EventStream.StreamRun | frontend/src/lib/api.js:231-268 | for any chunks the read loop tells the page what the uncut text says, and reports a loss iff no terminal event came; `Wire.Hear` says what the page is told in terms of what was sent |
| EventStream.EventTells | frontend/src/lib/api.js:252-259 | a step is told with its number and data, a done as done, an error or a timeout as an error, anything else not at all |
| Wire.Hear | frontend/src/lib/api.js:231-268 | sent by any encoder with recognised line endings and cut anywhere: the page is told it is done iff a readable done message was sent, of an error iff a readable error or timeout was, and of a loss iff none of them was |
| Wire.HearRun | frontend/src/lib/api.js:231-268 | step messages followed by one done message are told as those steps in order, numbers and data unchanged, and then as done with its data |
| EventStream.Deliver | frontend/src/lib/api.js:247-260 | frames arriving in one chunk add exactly their callbacks, each the one `EventTells` names |
| Wire.RoundTrip | frontend/src/lib/api.js:147-261 | any list of events, encoded with recognised line endings and cut anywhere, is heard exactly, in order |
| Wire.StreamSplits | frontend/src/lib/api.js:147-168 | an encoded stream splits into one frame per item |
| Wire.FrameSays | frontend/src/lib/api.js:176-201 | a frame says what its item says, whatever terminators are left around it |
| Wire.FrameIffRecognised | frontend/src/lib/api.js:155-158 | an item by itself is a frame iff its pair of line endings is one the client recognises |
| Wire.EarlyEndIsPrefix | frontend/src/lib/api.js:231-261 | a connection that dies has delivered a prefix of the events |
| Wire.DataSurvivesIff | frontend/src/lib/api.js:181-197 | data arrives unchanged iff it holds no carriage return |
| StreamCursor.RunLog.Append | agentcore/orchestrator/engine.py:1524-1558 | the counter moves by one and the row is added under it, unless the insert failed; so the log in place follows its history of writes |
| StreamCursor.RunLog.Finish | agentcore/orchestrator/engine.py:1616-1657 | sets the final status and nothing else, in the same history |
| StreamCursor.GaplessIff | agentcore/orchestrator/engine.py:1540-1558 | the rows of any history are numbered 1, 2, 3, ... iff no insert succeeded after a failed one |
| StreamCursor.FailedInsertLeavesGap | agentcore/orchestrator/engine.py:346-353 | a failed insert and the error step after it leave rows 1 and 3 |
| StreamCursor.Events | app/routers/chat.py:256-340 | the polling generator sends the frames `StreamFrom` describes |
| StreamCursor.StreamIsSlice | app/routers/chat.py:270-335 | a stream sends a contiguous piece of the log that begins after its cursor |
| StreamCursor.EndsAt | app/routers/chat.py:310-333 | a stream ends at every status but queued and running |
| StreamCursor.EndPollIs | app/routers/chat.py:270-335 | the poll that ends it is the first to report such a status, if the client stays that long |
| StreamCursor.DoneIsLast | app/routers/chat.py:310-333 | done is then sent with that status, last and once |
| StreamCursor.NoEndNoDone | app/routers/chat.py:310-340 | otherwise done is never sent, and the stream times out iff the client stays |
| StreamCursor.ClientHoldsPrefix | app/routers/chat.py:251-340 | over any polls, cuts and reconnections the client holds a prefix of the log: no gap, no repeat |
| StreamCursor.ClientCountsUp | app/routers/chat.py:276-310 | unless an insert succeeded after a failed one, the numbers received are 1 to m |
| StreamCursor.DoneIsCompleteIff | app/routers/chat.py:274-333 | at `done` the client holds the run's whole log iff no row was written between the last poll's two statements and none after them |
| StreamCursor.CleanDoneIff | app/routers/chat.py:274-333 | for a run that writes nothing after its final status, iff none was written between the two statements |
| StreamCursor.LastStepMissed | app/routers/chat.py:277-294 | the last step and the final status land between the statements, and `done` goes out one step early |
| StreamCursor.FailureAfterDone | agentcore/orchestrator/engine.py:332-353 | a crash after the final status adds a step that `done` came before |
| Chunker.ChunkPages | agentcore/ingestion/documents.py:153-199 | the chunks hold the words of the pages in order, are numbered from 0, and name pages that never go back nor run ahead of their text; a section begins at every heading and nowhere else, every section big enough takes the small ones before it and no others, and the chunks are the parts of those, whole or cut at paragraphs and lines |
| Wording.BlocksAreCut | agentcore/ingestion/documents.py:248-248 | a text is its paragraphs with the blank lines between them: cuts are made at blank lines alone |
| Wording.BlocksAreWhole | agentcore/ingestion/documents.py:248-248 | and at every one: no paragraph holds a blank line |
| Wording.SameWordsSameInk | agentcore/ingestion/documents.py:153-270 | conserving the words conserves the non-whitespace characters |
| Wording.WordsAcross | agentcore/ingestion/documents.py:237-270 | words never run across a gap of whitespace |
| Chunker.SectionsOf | agentcore/ingestion/documents.py:155-183 | the two loops conserve words, keep pages in order, open a section at every heading and nowhere else, and site each on the page it begins on |
| Chunker.MergeSmall | agentcore/ingestion/documents.py:202-234 | each section that reaches the minimum takes the small ones before it, the last one also those behind it; merged sections keep the first one's page and heading, and all words, order and sites |
| Chunker.SplitOversized | agentcore/ingestion/documents.py:237-270 | a text within the limit stays whole; a longer one is cut between paragraphs, and no two neighbours would fit together, unless a paragraph is itself over the limit; then between its lines; words are conserved |
| Chunker.SplitLong | agentcore/ingestion/documents.py:257-267 | the fallback cuts between lines alone, no two neighbours of what it cuts would fit together, and words are conserved |
| Wording.WordsOfBlocks | agentcore/ingestion/documents.py:248-248 | cutting at blank lines loses no word |
| Chunker.BodyGrows | agentcore/ingestion/documents.py:218-234 | adding lines around a section never makes its stripped text shorter |
| Fusion.ReciprocalRankFusion | agentcore/retrieval/hybrid.py:231-262 | the two loops give every chunk of either ranking, and no other, the sum of its shares and its ranks |
| Fusion.ShareOfRank | agentcore/retrieval/hybrid.py:247-260 | in a duplicate-free ranking a chunk's share is 1 / (k + rank) |
| Fusion.BothBeatOneIff | agentcore/retrieval/hybrid.py:237-245 | for candidate limits a and b: in all duplicate-free rankings within them a chunk both found outscores every chunk only one found, iff `(a - 1) * (b - 1) < (k + 1) * (k + 1)` or a limit is 0 |
| Fusion.BothBeatOne | agentcore/retrieval/hybrid.py:237-245 | so it does with at most k + 1 rows in each |
| Fusion.BoundIsTight | agentcore/retrieval/hybrid.py:237-245 | for every k there are rankings of k + 2 rows where it only ties |
| Fusion.FoldOrderIrrelevant | agentcore/retrieval/hybrid.py:247-260 | which ranking is folded first changes no chunk and no score |
| Fusion.FusedBelowOne | agentcore/orchestrator/engine.py:1404-1406 | no fused score exceeds 1.0, the score of an admitted clause |
| Channels.BestGroundable | agentcore/retrieval/hybrid.py:369-383 | a search selects the best `final_k` groundable candidates, whatever else outranks them |
| Channels.BestOfChannel | agentcore/retrieval/hybrid.py:369-383 | every channel selects its best candidates up to its limit: what is left out is outranked by all of a full selection |
| Channels.GateIgnoresOrder | agentcore/retrieval/hybrid.py:369-383 | the order in which rows were found changes nothing: ties go by identifier |
| Channels.CandidatesAreFound | agentcore/retrieval/hybrid.py:369-383 | everything found stays a candidate, in order |
| Channels.AdmittedAreGroundable | agentcore/orchestrator/engine.py:1388-1460 | every decision clause the database answers with becomes groundable and a candidate, in front, at score 1.0; nothing is dropped |
| Channels.GateEligible | agentcore/retrieval/hybrid.py:373-383 | what is in a channel was found and has its eligibility, and a channel other than the groundable one holds at most two |
| Channels.SortHolds | agentcore/retrieval/hybrid.py:369-369 | sorting orders, keeps the elements, and repeats no identifier |
| Channels.Merge | agentcore/orchestrator/engine.py:1468-1474 | the loop over both lists keeps the best entry per chunk and sorts by score |
| Channels.TopsOfTops | agentcore/orchestrator/engine.py:1462-1484 | merging a merged list is merging all it came from |
| Channels.FoldTops | agentcore/orchestrator/engine.py:1462-1484 | after any searches a channel holds each chunk they put there once, at its best score, sorted |
| Channels.BestIsEarliest | agentcore/orchestrator/engine.py:1468-1474 | of equal scores for one chunk the earliest stands |
| Channels.FoldCandidates | agentcore/orchestrator/engine.py:1462-1484 | so does the list of candidates |
| Channels.ChannelsStayApart | agentcore/orchestrator/engine.py:1388-1484 | after any searches and after admission the channels are disjoint, duplicate-free, eligible and sorted |
| Channels.CandidatesRepeatIff | agentcore/orchestrator/engine.py:1443-1449 | the candidate list repeats a chunk iff an admitted clause was already a candidate |
| PolicyPack.CheckScopes | agentcore/policy/pack.py:217-227 | the scope-by-scope count accepts iff no scope declares a parameter twice |
| PolicyPack.ResolveForAccount | agentcore/policy/pack.py:407-448 | the loop computes the merge, or fails its assertion exactly when the merge says so |
| PolicyPack.ResolutionIs | agentcore/policy/pack.py:419-431 | a parameter in force is the account's entry if there is one, else the default |
| PolicyPack.NotesAre | agentcore/policy/pack.py:433-444 | notes exist exactly for values that differ from a displaced default, and name both |
| PolicyPack.AssertedIff | agentcore/policy/pack.py:433-434 | the assertion holds iff every override has a located clause |
| PolicyPack.NonInterference | agentcore/policy/pack.py:407-448 | no reordering and no change to other accounts' entries changes a resolution |
| PolicyRules.FeeFlipsOnce | agentcore/policy/rules.py:240-280 | as the request moves later the verdict goes from undecided to free to charged and never back |
| PolicyRules.EligibilityOnlyGrows | agentcore/policy/rules.py:356-375 | once eligible, the later decision is the same decision; for a picked-up order time changes nothing |
| PolicyRules.LowerOfIsExactToACent | agentcore/policy/rules.py:446-476 | the credit never exceeds the cap, is the exact minimum to half a cent, and cites the parameter that gave it |
| PolicyRules.VerdictsDoNotInterfere | agentcore/policy/rules.py:111-478 | under the policy of the order's own account, other accounts' entries change no verdict, amount, clause or reported override |
| Decisions.DecideRecord | agentcore/orchestrator/engine.py:1142-1170 | one decision: nothing without a visible order, else by the policy carried so far, resolved for this order's account if there is none yet |
| Decisions.LedBy | agentcore/orchestrator/engine.py:495-510 | every decision of a run is made by the policy of the account its first visible order belongs to |
| Decisions.DecisionsAre | agentcore/orchestrator/engine.py:1142-1170 | there is one decision for each call whose order can be seen, in order, by the rule the call names and under that account's policy |
| Decisions.DecideRaisesIff | agentcore/orchestrator/engine.py:1142-1170 | without a record that can be read nothing happens; otherwise a call raises iff its policy cannot be resolved or its rule meets a value that is no number |
| Decisions.FirstVisibleIs | agentcore/orchestrator/engine.py:1151-1160 | and no order before that one was visible |
| Decisions.RunFollowsLeader | agentcore/orchestrator/engine.py:1163-1170 | nothing but the defaults and that account's entries changes any decision of a run |
| Decisions.OwnDecisionIff | agentcore/orchestrator/engine.py:1163-1170 | whatever the policy pack, an order is decided as its own account's policy decides it, iff the first visible order belongs to that account or the order's own fields leave nothing to decide |
| Decisions.OtherAccountDecides | agentcore/orchestrator/engine.py:1163-1165 | two packs that agree on the defaults and on account B free and charge the same order of B, decided after one of A |
| PolicyRules.CreditMonotoneInFee | agentcore/policy/rules.py:457-462 | a larger fee never yields a smaller credit |
| PolicyRules.RoundsToNearest | agentcore/policy/rules.py:457-459 | rounding moves an amount by at most half a cent |
| PolicyRules.TiesGoAway | agentcore/policy/rules.py:457-459 | ties round away from zero, on both sides |
| PolicyRules.WaiverNeverCharged | agentcore/policy/rules.py:218-238 | under a waiver no request is charged |
| PolicyRules.FeeChargedIff | agentcore/policy/rules.py:193-280 | a booked order is charged iff nothing waives the fee and the window has passed |
| PolicyRules.FreeIff | agentcore/policy/rules.py:193-258 | it is free iff it is waived or the request falls into the window |
| PolicyRules.DecidedIsCited | agentcore/policy/rules.py:90-103 | a verdict lacks a clause iff it is indeterminate |
| PolicyRules.EligibleIff | agentcore/policy/rules.py:288-430 | a credit is due iff the delay exceeds the threshold, the carrier alone is at fault and the amount can be computed |
| PolicyRules.NotEligibleIff | agentcore/policy/rules.py:288-375 | it is refused iff the customer is at fault, the carrier is not, or the delay is within the threshold |
| PolicyRules.LowerOfPromise | agentcore/policy/rules.py:379-430 | the amount a lower_of decision promises never exceeds the cap, is the lower of the cap and the percentage of the fee to within half a cent, and cites the one that gave it |
| PolicyRules.PromiseGrowsWithFee | agentcore/policy/rules.py:446-476 | a larger fee never promises less |
| PolicyRules.FixedPromise | agentcore/policy/rules.py:379-445 | a fixed decision promises the fixed amount, whatever the fee, and cites it |
| PolicyRules.OtherModesPromiseNothing | agentcore/policy/rules.py:433-478 | no other mode promises anything |
| PolicyRules.ApprovalIff | agentcore/policy/rules.py:399-412 | a manager must approve exactly what exceeds the limit; without a limit nothing is said |
| PolicyRules.CreditReports | agentcore/policy/rules.py:335-430 | a decided credit reports the overrides of the credit parameters, and a refusal cites the threshold |
| PolicyRules.FixedVerdicts | agentcore/policy/rules.py:136-191 | a delivered or picked-up order is denied and a draft is free, each by its own clause; any status but these and booked is undecided |
| PolicyRules.BookedCites | agentcore/policy/rules.py:193-280 | a charge cites the fee, a free cancellation the waiver or else the window; both report the overrides of the cancellation parameters |
| Breaker.CircuitBreaker.Check | agentcore/llm/base.py:156-173 | sheds iff open within the cooldown, and half-opens after it |
| Breaker.CircuitBreaker.RecordFailure | agentcore/llm/base.py:181-190 | opens at the threshold, and keeps the time it first opened |
| Breaker.CircuitBreaker.WithRetries | agentcore/llm/base.py:203-251 | the attempt loop makes the attempts and leaves the breaker that `Called` describes, open iff at the threshold throughout; an answer leaves it closed with no failure counted |
| Breaker.CallResultIs | agentcore/llm/base.py:203-251 | a call is shed iff it makes no attempt; it stops at the first success or lasting failure; it is answered iff its last attempt succeeded, and that leaves the breaker closed with no failure counted |
| Breaker.CountsStreak | agentcore/llm/base.py:175-190 | whatever the outcomes, until it first opens the breaker counts the failures since the last success |
| Breaker.FirstOpeningIff | agentcore/llm/base.py:181-190 | it first opens iff the last `threshold` outcomes recorded were all failures |
| Breaker.ProbeDecides | agentcore/llm/base.py:140-190 | after the cooldown the first failure opens it again at once, and an answer closes it |
| Breaker.DownCall | agentcore/llm/base.py:219-238 | a failing call counts each attempt and opens the breaker at the end of the one that reaches the threshold |
| Breaker.CallKeeps | agentcore/llm/base.py:140-251 | each call of an outage keeps the account of attempts and openings |
| Breaker.OutageBound | agentcore/llm/base.py:140-251 | calls made within T of the first opening attempt at most `threshold + attempts - 1 + attempts * floor(T / cooldown)` times |
| Breaker.BeforeOpening | agentcore/llm/base.py:181-190 | before the first opening fewer attempts than the threshold are made |
| Crowd.HalfOpenAdmitsAll | agentcore/llm/base.py:157-166 | once the cooldown is over every caller who asks before an outcome is recorded is let through |
| Crowd.FailureShedsIff | agentcore/llm/base.py:157-190 | after the failure that re-opens the breaker an asker is let through iff the cooldown has passed since that failure |
| Crowd.OneProbeIff | agentcore/llm/base.py:157-190 | until the next cooldown ends as many are let through as asked before the first outcome, so exactly one iff it was recorded before the second ask |
| Crowd.SuccessClosesFor | agentcore/llm/base.py:175-190 | after a success everyone is let through until the failures recorded since, by whomever, reach the threshold |
| Crowd.TwoProbesOverlap | agentcore/llm/base.py:157-166 | two callers probe at once |
| Crowd.CrowdBound | agentcore/llm/base.py:140-251 | with at most `crowd` calls in flight, in any interleaving, an outage sees at most `threshold + attempts * crowd - 1 + attempts * crowd * floor(T / cooldown)` attempts within T of the first opening |
| Breaker.Serve | agentcore/llm/base.py:110-132 | requests are served as long as each estimate fits into what is left, and what is spent is what they used |
| Breaker.CeilingBreaksIff | agentcore/llm/base.py:102-132 | the ceiling is broken iff the last request served uses more beyond its estimate than its reservation left free; no earlier request breaks it, and the overrun is at most that excess |
| Breaker.OneRequestBlowsIt | agentcore/llm/base.py:105-107 | one request estimated at 10 uses 500 of a budget of 100 |
| ScopedPool.Enter | agentcore/db/engine.py:191-216 | a session taken from the pool is bound and verified; for a superuser or no tenant it is returned unbound, and otherwise leased |
| ScopedPool.OnlyVerifiedLeased | agentcore/db/engine.py:191-216 | over every interleaving in a pool that verifies its leases, whoever holds a session was leased it under a named tenant and not as a superuser |
| ScopedPool.LeaseLasts | agentcore/db/engine.py:191-216 | over every interleaving, a session stays its leaser's until it is released |
| ScopedPool.ScopedConnection.Commit | agentcore/db/engine.py:176-179 | a commit through the proxy keeps the scope |
| ScopedPool.ScopedConnection.Rollback | agentcore/db/engine.py:181-183 | so does a rollback |
| ScopedPool.Session.VerifyScope | agentcore/db/engine.py:111-147 | accepts iff the database agrees on tenant and account and the role is no superuser |
| ScopedPool.VerifiedIff | agentcore/db/engine.py:111-147 | which is iff the tenant is named and the role is no superuser |
| ScopedPool.VerifiedSeesOwn | agentcore/db/migrations/001_init.sql:34-58 | whatever its settings, a session that passes under its role sees exactly the rows its principal is entitled to |
| ScopedPool.ScopeNeverSlips | agentcore/db/engine.py:80-221 | over every interleaving each statement runs under its leaser's scope and idle sessions carry none; with bare commits a statement may lose its scope but never gains another's |
| ScopedPool.StatementsSeeOwnRows | agentcore/db/migrations/001_init.sql:34-58 | a statement sees exactly the rows its leaser is entitled to |
| ScopedPool.BareCommitBlinds | agentcore/db/engine.py:151-168 | without the proxy, the first commit makes the database look empty |

## Left out

- Unicode: one whitespace predicate (Python's) serves both languages; JavaScript's differs on a few characters and counts UTF-16 units.
- Case-insensitive span search, `normalise`, and the parsing of the model's JSON.
- Markers.RenderMarkers: numbers only; placing the markers inside the sentence's full stop is not modelled.
- LedgerService.ActionStore.ConfirmAction: the report is that of an uninterrupted confirmation; under interleaving a loser's report comes from a stale read.
- LedgerCaps.CapRespected: serial credits are sufficient, not necessary; `LedgerCapExact.CapBreaksIff` is exact. Amounts are whole hundredths, and the month is that of the transaction's start.
- LedgerRuns.EffectOncePerOrigin: runs in which someone edits a row's tenant are excluded.
- The ledger's idempotency key keeps half of the digest; keys are compared with the whole of it here.
- Executors other than the service credit act on business tables that are not modelled; they succeed or fail arbitrarily.
- RunLoop.PendingAfterIff: the withdrawal waits for a confirmation that holds the row; the wait is part of what others do before it.
- RunLoop.EveryRunIsSane: a database error between the last tool and the first synthesis, which fails the run as any other; and conflicts, prose, tables' contents, token usage and step records are not part of an outcome here.
- Router.FindRecordIds: where the digits stand is given; the pattern that finds them, with its veto on units, is not modelled.
- Router.Plan: which words raise which signal.
- StreamCursor.Events: the text of a frame; `Wire.RoundTrip` covers its encoding.
- Chunker.ChunkPages: which lines are headings is an arbitrary function of the stripped line.
- Channels.ChannelsStayApart: the searches and the admitted clauses of a run are drawn from one corpus, with scores up to 1.0, as `Fusion.FusedBelowOne` gives for duplicate-free rankings.
- Ranking inside the database, embeddings, `authority_order` and `detect_superseded`.
- PolicyRules.FeeFlipsOnce: parameters are taken to be validated, so citing one cannot raise; explanations and recorded inputs are not modelled.
- Decisions.OwnDecisionIff: over the packs in which the order's own account resolves; where it does not, its own decision would be an error. The pack does not change during a run.
- Validation of the policy file against the corpus.
- Breaker.OutageBound: calls are made one after another; `Crowd.CrowdBound` is the bound for calls in flight together.
- Crowd.OneProbeIff: the outcome that comes first is a failure, and only asks within a cooldown of it are counted; after a success the breaker is closed.
- ScopedPool.ScopeNeverSlips: read-only mode, which is not restored after a commit.
- Index activation, classification, dashboards, HTTP, tokens, logging and rendering.
