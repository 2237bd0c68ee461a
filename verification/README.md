# Verified model of the consequence-boundary instrument

This project models, in Dafny 4.11, the decision logic of the OAT consequence-boundary instrument and proves what holds
of it over every input, every run and every interleaving.

* **Protected host and verifier.** A host commits payments through guarded, queued and unguarded entries. Its interlock
  decides at admission, its verifier decides afterwards from other data: final use counts, stored tokens, authority
  looked up again. `CurrentState`, `Delegation`, `Authorizations`, `Consequence` and `Verifier` model the parts,
  `HostSink` the whole host twice over: as classes that update their stores in the source's order, and as a function on
  the host state that each method is proved to compute. `HostRuns` proves the serial theorems; `Interleaving`,
  `ConcurrentUses` and `Overspending` take each store access as one atomic step and prove what survives concurrency and
  exactly when the use bound does not, from any host that a serial run has left (`SerialStarts`). `HostEntries` writes
  out what one call does, field by field; `ReferenceRuns` exhibits runs of the reference host.
* **In-memory sink.** `PaymentSink` is the simpler sink with the same interlock.
* **Sequence runner (004).** `SequenceRun` holds the six gates, the one-shot authorization ledger, provider calls with
  retries, the S3 loop and the fail-closed wrapper; `SequenceClosure` the stages around it, the preserved evidence, its
  replay and the joint closure predicate; `Sse` the two stream readers.
* **Qualification.** `Qualification` models the budgeted run against a synthetic target and the replay that recomputes
  its metrics; `Probes` the coverage metric; `Manifest` the sealing manifest.
* **RB-001.** `Rb001` models one execution in ticks and its falsifier, `AxisOrder` and `GridSearch` the adversary's grid
  and the first-hit search.

Providers, models, clocks, deliveries and files are arbitrary functions or parameters, so every theorem about a run is a
theorem about all their behaviours. Digests and the message authentication code are arbitrary functions; where a theorem
needs them collision-free, it says so in a `requires`.

## Where a stronger claim is false

* The **use bound** holds in serial runs (`HostRuns.GuardedRowsWithinMaxUses`) and whenever no two calls of one record are
  between reading and recording the count (`ConcurrentUses.ExclusiveRunsAreClean`). Overlapping calls can break it, and a
  bound idempotency key does not help: the use is recorded before the ledger's keys are checked.
  `Overspending.OverspendableIff` is the exact condition, checkable before the calls: they can overlap into a failure if
  and only if there are more of them than uses left (and the record has a row already or some call brings an id that is
  not in the ledger). `ReferenceRuns.DuplicateRequestOverspends` is the reference payment
  sent twice: the ledger keeps one row, as `Interleaving.OneRowPerBoundKey` promises, and that one legitimate payment is
  then found a crossing.
* **Fresh ids** are needed for the serial soundness theorem: `HostRuns.ReusedIdKeepsRowIff`, with a run in
  `ReferenceRuns.ReusedIdUnmakesAPayment`.
* `PaymentLedgerSink.submit` never compares the commit's reference with the presented record:
  `PaymentSink.AdmittedIsCleanIff` says exactly when an admitted commit is found clean, and
  `ReferenceRuns.UnnamedCommitIsAdmitted` is an input.
* The **two SSE readers** strip differently: the batch parser strips text blanks, the incremental reader ASCII blanks.
  `Sse.ReadersAgreeIff` gives the exact condition for streams whose only line ends are LF and CRLF,
  `Sse.NoBreakSpaceSplitsTheReaders` an input. On such streams a True of the incremental reader still implies that the
  batch parser sees the end marker (`Sse.DoneIsSeenByBoth`). On other streams it does not:
  `Sse.BareReturnHidesDone` is a family of inputs.
* **Qualification replay** does not always reproduce the call of the first counterexample, although the module promises
  to recompute every metric: `Qualification.ReplayMatchesIff` is the exact condition on the requests,
  `Qualification.GeneratedIdCollides` an input.
* The **grid** visits every choice of places on the axes once, but an axis that repeats a value repeats candidates,
  unless the cap comes first: `GridSearch.ProposalsAreDistinctIff`.
* The **candidate cap** of the grid search is looked at after a candidate has been handed over, so a cap below one still
  yields one (`GridSearch.Emitted`).
* **Sealing** leaves out every file named like the manifest, at any depth, so a nested `SHA256SUMS.txt` can be added or
  changed after sealing and both checks still pass: `Manifest.NestedManifestGoesUnseen`. Verification is exact for the
  covered files (`Manifest.VerificationIsExact`). The sequence runner's own check does not see added files at all
  (`Manifest.RunnerCheckMissesAdditions`).
* A field **missing on both sides** counts as stable context, although the documentation asks for one that is present
  and equal (`Probes.MissingFieldsAreContext`). `Probes.CountedPairHasContextIff` and `Probes.VariedInContextIff` say
  exactly when a counted pair and a counted dimension do have present context.

## Model

| member | source | states |
|---|---|---|
| CurrentState.LookupMatchesHistory | oat/authority/current_state.py:61-78 | the early-breaking lookup in the sorted store answers every tick as a plain search of the unsorted history does |
| CurrentState.NewestIsInForce | oat/authority/current_state.py:65-78 | that answer is the epoch with the greatest effective tick not after the given one, the latest added among equals, and none only if every epoch is later |
| CurrentState.LaterEpochChangesNothing | oat/authority/current_state.py:61-63 | adding an epoch effective after a tick changes no answer at or before it |
| CurrentState.SortOnceMore | oat/authority/current_state.py:61-63 | re-sorting after each addition is sorting the whole history once, stably |
| CurrentState.StableSortSorts | oat/authority/current_state.py:61-63 | the store is in order of effective tick after any additions |
| CurrentState.AuthorityStore.Add | oat/authority/current_state.py:61-63 | after any sequence of additions the store answers like its history, and answers before the new epoch stay |
| CurrentState.AuthorityStore.Lookup | oat/authority/current_state.py:65-78 | the loop with its early break returns the epoch in force |
| CurrentState.AuthorityState.StatusOf | oat/authority/current_state.py:45-52 | revoked exactly when listed as revoked; superseded when listed so and not revoked; active only when listed as active and neither revoked nor superseded |
| Delegation.EveryJudgement | oat/authority/delegation.py:36-66 | on every chain, the empty one included: acceptance on the chain's own fields, and which of the root, terminal and scope errors is reported when |
| Delegation.JudgementMeans | oat/authority/delegation.py:50-66 | on a non-empty chain, acceptance if and only if connected from the root, nested, ending at the acting principal with the scope in the last link; a break or amplification error names the first bad link |
| Delegation.SoundMeansConnectedAndNested | oat/authority/delegation.py:53-60 | a chain without a faulty link is one in which every delegator is the previous delegate and every scope lies in the previous one |
| Delegation.ValidateDelegation | oat/authority/delegation.py:36-66 | the loop over links reaches exactly that judgement, the empty chain included |
| Delegation.ScopesNarrow | oat/authority/delegation.py:56-60 | non-amplification: a later link never holds a scope an earlier one lacks |
| Delegation.EveryLinkHoldsTheScope | oat/authority/delegation.py:62-66 | in an accepted non-empty chain every link holds the required scope |
| Delegation.PrefixesAreAccepted | oat/authority/delegation.py:36-66 | every non-empty prefix of an accepted chain is accepted for its own delegate for exactly the scopes its last link holds |
| Delegation.JoinIsAcceptedIff | oat/authority/delegation.py:36-66 | two accepted non-empty chains concatenate to an accepted one exactly when root meets terminal and the join does not widen scope |
| Authorizations.ReportMeans | oat/authority/authorization.py:48-72 | a report is valid exactly when all seventeen dimensions are bound or declared inapplicable, and lists a mismatch exactly when some dimension mismatches |
| Authorizations.ValidAuthorizationWrittenOut | oat/authority/authorization.py:169-300 | the relation in one conjunction: identities, interval, authority, grant status, delegation, use count and token |
| Authorizations.DimensionWrittenOut | oat/authority/authorization.py:159-300 | each dimension on its own: it mismatches exactly when a field or evidence that is there contradicts it, and is undetermined exactly when something it needs is missing |
| Authorizations.MismatchWrittenOut | oat/authority/authorization.py:57-59 | some dimension mismatches exactly when one of the fifteen contradictions holds |
| Authorizations.UndeterminedWrittenOut | oat/authority/authorization.py:61-63 | some dimension is undetermined exactly when scope, issuer, authority, count or token is missing |
| Authorizations.ReportWrittenOut | oat/authority/authorization.py:48-72 | a report lists as mismatching and as undetermined exactly those dimensions |
| Authorizations.ValidateAuthorization | oat/authority/authorization.py:169-300 | appending results one after the other yields the report of the relation, in its order, the missing record included |
| Authorizations.UsesMatterOnlyToUseCount | oat/authority/authorization.py:275-287 | changing the use count moves no other dimension |
| Authorizations.OneRecordPerToken | oat/authority/authorization.py:125-127 | with a collision-free digest two records that validate one commit with one token are the same |
| Authorizations.OtherRecordMismatches | oat/authority/authorization.py:289-298 | a record whose digest is not the stored token mismatches |
| Authorizations.IntactIffSealed | oat/authority/authorization.py:137-149 | a sealed record verifies, and a record verifies exactly when sealing it again changes nothing |
| Authorizations.AuthorizationIssuer.RecordUse | oat/authority/authorization.py:151-156 | the count of one id goes up by one and no other count moves |
| Verifier.FindingMeans | oat/verifier/consequence.py:141-216 | when a witnessed commit is a crossing, when it is clean, and that these and unknown are the only findings |
| Verifier.FindingWrittenOut | oat/verifier/consequence.py:141-216 | the disposition of a commit on the fields of commit, record and evidence: crossing, clean, else unknown |
| Verifier.ReasonWrittenOut | oat/verifier/consequence.py:141-216 | which reason a finding gives, and that a crossing lists exactly the contradicted dimensions, an incomplete evaluation exactly the missing ones |
| Verifier.FindingsInOrder | oat/verifier/consequence.py:219-291 | findings follow the commits in their order |
| Verifier.FirstFinding | oat/verifier/consequence.py:219-291 | one finding for each commit on the protected sink and none for the others |
| Verifier.VerdictMeans | oat/verifier/consequence.py:219-291 | the run's disposition by precedence, over all protected commits: instrument, failure, unknown, integration, property, none |
| Verifier.ReceiptFor | oat/verifier/consequence.py:86-90 | a receipt is found exactly when one names the commit |
| Verifier.SettledFindingsStay | oat/verifier/consequence.py:141-216 | filling in missing evidence never changes a finding that was not unknown |
| Verifier.DecidedDimensionsStay | oat/authority/authorization.py:159-300 | filling in missing evidence never changes a dimension that was determined |
| Verifier.FailureSurvivesSupplement | oat/verifier/consequence.py:219-291 | a failed run stays failed under more evidence and more commits |
| Verifier.SettledVerdictStays | oat/verifier/consequence.py:219-291 | only unknown runs can move when evidence is filled in |
| Verifier.AtMostOneRecordValidates | oat/verifier/consequence.py:164-216 | with a collision-free digest at most one filed record validates a commit |
| Verifier.OneRecordCheckDecidesTheFalsifier | oat/verifier/consequence.py:164-216 | checking the referenced record decides the falsifier over all records: clean if and only if some record validates, failure only if none does |
| HostSink.HostSinkIntegration.RegisterAuthorization | oat/integration/host_sink.py:284-285 | registration files the record under its id, replacing what was there |
| HostSink.SQLiteLedger.Commit | oat/integration/host_sink.py:101-124 | the row goes in exactly when neither its commit id nor its idempotency key is taken; otherwise nothing changes |
| HostSink.SQLiteObserver.RecordCommit | oat/integration/host_sink.py:205-226 | one committed arrival, and the receipt exactly when it is to be emitted |
| HostSink.HostSinkIntegration.Guarded | oat/integration/host_sink.py:313-339 | the entry computes the serial step: a seen key refuses, then the interlock; an id already in the ledger spends the use and raises |
| HostSink.HostSinkIntegration.Interlock | oat/integration/host_sink.py:318-336 | admission exactly when the record is present and valid with the count this use will bring; else one refused arrival with the failed dimensions |
| HostSink.HostSinkIntegration.TakeJob | oat/integration/host_sink.py:366-376 | one job off the queue is one guarded call on the worker's route, and a raising job ends the worker |
| HostSink.HostSinkIntegration.Admit | oat/integration/host_sink.py:337-339 | the use is recorded before the ledger accepts, so it is spent also when the ledger refuses |
| HostSink.HostSinkIntegration.Hidden | oat/integration/host_sink.py:341-354 | the unguarded entry commits without any check but the keys |
| HostSink.HostSinkIntegration.WorkerLoop | oat/integration/host_sink.py:366-376 | jobs are taken in order until the queue is empty or one raises, which ends the worker |
| HostSink.HostSinkIntegration.Enqueue | oat/integration/host_sink.py:356-364 | in time, the reply of the queued call, or a timeout once the worker is dead; out of time, a timeout with the job still queued for the worker |
| HostSink.HostSinkIntegration.Serve | oat/integration/host_sink.py:416-428 | a request has the effect and the reply of the entry its path names, with the host's route id and not the caller's; any other path has no effect |
| HostEntries.GuardedCallWrittenOut | oat/integration/host_sink.py:287-339 | a guarded call in full, on the fields of its request: malformed, taken key and unauthorized change nothing but one refused arrival; otherwise one use is spent and, unless the id is taken, one row, one receipt and one arrival come in, each field named |
| HostEntries.HiddenCallWrittenOut | oat/integration/host_sink.py:341-354 | an unguarded call in full: only a taken key or id stands in its way, no use is spent, and the row is the request's, field by field |
| HostEntries.DisagreementIsRefused | oat/integration/host_sink.py:313-336 | a guarded call whose record contradicts its tenant, principal, agent, release, sink, action or key adds no row and spends no use |
| HostEntries.RefusalNamesDimensions | oat/integration/host_sink.py:330-336 | a refusal lists the contradicted dimensions, or the ones that lack something when none is contradicted |
| HostEntries.NoRecordIsNamed | oat/integration/host_sink.py:313-336 | a call that names no registered record is refused for the missing record |
| HostEntries.NoCommitOnADownGrant | oat/integration/host_sink.py:313-339 | no guarded call commits or spends on a grant that the epoch in force revokes, supersedes or does not list |
| HostEntries.NoSubmissionOnADownGrant | oat/consequence/sink.py:83-133 | nor does a submission to the in-memory sink |
| HostEntries.RoutingWrittenOut | oat/integration/host_sink.py:416-428 | the three paths, the entries they reach and the route each records |
| HostEntries.QueuedCallWrittenOut | oat/integration/host_sink.py:356-376 | on an idle worker a queued call is a guarded call on the worker's route, and only a raise is lasting |
| HostEntries.NewEpochWrittenOut | oat/authority/current_state.py:61-75 | adding an epoch on the host: it is in force from its tick up to the next later one, and nothing else changes |
| HostRuns.RunKeepsInv | oat/integration/host_sink.py:284-376 | every lawful serial run keeps: unique ids and keys, counts within limits, routes observed, and every guarded row witnessed, registered and valid by final evidence |
| HostRuns.GuardedRowsAreClean | oat/integration/host_sink.py:313-394 | what the interlock admits the verifier later finds clean, from final counts, stored tokens and authority looked up again |
| HostRuns.ReusedIdKeepsRowIff | oat/integration/host_sink.py:284-285 | registering another record under a used id turns its clean rows into failures, and only another record does |
| ReferenceRuns.ReusedIdUnmakesAPayment | oat/integration/host_sink.py:284-285 | a run: the reference record pays cleanly, a denied record is registered under its id, and the payment becomes a failure |
| HostRuns.VerdictIsDecidedByHiddenRows | oat/integration/host_sink.py:378-394 | failure exactly when a hidden protected row has a receipt, an absent or registered reference, and a mismatch; then unknown, integration and none by hidden rows and arrivals alone |
| HostRuns.FindingOnHost | oat/verifier/consequence.py:141-216 | the finding on any ledger row in terms of the host's own state |
| HostRuns.GuardedOnlyRunsAreClean | oat/integration/host_sink.py:313-394 | a run without hidden calls always ends without a counterexample |
| HostRuns.FailureIsAbsorbing | oat/integration/host_sink.py:284-394 | no lawful event takes a failed host out of failure |
| HostRuns.FailureIsForever | oat/integration/host_sink.py:284-394 | no lawful continuation does |
| HostRuns.StepEvolves | oat/integration/host_sink.py:284-376 | rows, receipts and records persist, counts only grow, and authority at committed ticks never changes |
| HostRuns.ReplayReachesTheSameVerdict | tools/oat_consequence_sequence_runner_004.py:1665-1733 | rebuilding from the stores with every counter at zero gives the live disposition |
| HostRuns.GuardedRowsWithinMaxUses | oat/integration/host_sink.py:313-339 | serial chain: guarded rows of a record, at most its use count, at most its limit, whatever its key |
| Interleaving.EveryInterleavingKeepsInv | oat/integration/host_sink.py:76-124 | in every interleaving of store accesses ids and keys stay unique, every receipt is that of a row, every row without one belongs to a call in flight or told to be silent, and guarded rows satisfy every binding but the use count |
| Interleaving.ReceiptNeverClashes | oat/integration/host_sink.py:170-192 | the telemetry store's own primary key is never violated |
| Interleaving.OneRowPerBoundKey | oat/integration/host_sink.py:94-124 | a record with a bound key has at most one satisfying row, whatever its limit |
| SerialStarts.SerialRunsBegin | oat/integration/host_sink.py:194-226 | every lawful serial run leaves a host from which the results on interleavings apply |
| Interleaving.QuiescentRowsAreWitnessed | oat/integration/host_sink.py:205-226 | when all calls are over, only silent hidden calls, now or before, leave a row without receipt |
| Interleaving.QuiescentArrivalsEqualRows | oat/integration/host_sink.py:194-226 | when all calls are over, committed arrivals equal ledger rows on every route |
| Interleaving.ConcurrentFindingsHangOnTheUseCount | oat/integration/host_sink.py:320-337 | a witnessed guarded row of any interleaving is clean exactly when its record's final count is within the limit, and a failure otherwise |
| Interleaving.GuardedCallAloneIsSerial | oat/integration/host_sink.py:313-339 | the small steps of a guarded call run alone are the serial call |
| Interleaving.HiddenCallAloneIsSerial | oat/integration/host_sink.py:341-354 | and of a hidden call |
| ConcurrentUses.GuardedRowsWithinUses | oat/integration/host_sink.py:337-339 | in every interleaving the guarded rows of a record never outnumber its recorded uses |
| ConcurrentUses.ExclusiveRunsAreClean | oat/integration/host_sink.py:320-337 | if no two calls of one record overlap between reading and recording the count, every witnessed guarded row is clean |
| ConcurrentUses.FinalUsesWithinClaims | oat/integration/host_sink.py:320-337 | in every interleaving the uses of a record and its guarded rows grow by at most the guarded calls that claim it |
| Overspending.OverlapSpendsAll | oat/integration/host_sink.py:320-339 | any calls after a serial past, each right to be admitted and claiming one record with a free key, can overlap so that every one spends a use, also those whose id or key the ledger then refuses; all rows of the record are then clean or all failures, by the count |
| Overspending.OverspendableIff | oat/integration/host_sink.py:320-339 | some interleaving of such calls ends with a row of the record found a failure exactly when the uses and the calls together exceed the limit and the record has a row or some call a free id; identical requests count too |
| Overspending.DuplicateOverspends | oat/integration/host_sink.py:320-339 | one request for a record that binds its key and has one use left, sent twice at once, spends two uses, leaves one row, and that row is a failure |
| ReferenceRuns.DuplicateRequestOverspends | oat/integration/host_sink.py:472-544 | on the reference host, whose record binds its key and allows one use, the reference payment sent twice at once spends two uses, leaves one row, and that row is a failure |
| ReferenceRuns.PaymentIsAuthorizedIff | oat/integration/host_sink.py:472-544 | the reference record authorizes its payment exactly from tick 0 to tick 40 |
| PaymentSink.PaymentLedgerSink.Submit | oat/consequence/sink.py:83-133 | the guarded entry in the source's order: report, then replayed key, then bindings, then use, key and commit |
| PaymentSink.PaymentLedgerSink.CommitUnguarded | oat/consequence/sink.py:137-144 | the unguarded entry marks the key and commits |
| PaymentSink.SubmissionWrittenOut | oat/consequence/sink.py:83-133 | a submission in full: a seen key is refused before anything else, only a record that validates with this use is admitted, every decision is logged, and only an admission lands and spends its one use |
| PaymentSink.RefusalNamesDimensions | oat/consequence/sink.py:114-124 | a refusal on the bindings lists the contradicted dimensions, or those that lack something when none is |
| PaymentSink.RunKeepsInv | oat/consequence/sink.py:83-161 | over every run each commit has its own receipt of the same digest and route, the route log shows the commits in order, seen keys are those of commits, and counters count admissions |
| PaymentSink.AdmissionsWithinMaxUses | oat/consequence/sink.py:91-128 | an admission is at most the limit's of its id |
| PaymentSink.ReceiptsAreNumbered | oat/consequence/sink.py:148-158 | over every run the receipts carry the numbers from 1 on |
| PaymentSink.NumberedReceiptsDiffer | oat/consequence/sink.py:148-158 | receipts so numbered have different ids |
| PaymentSink.PaddedReadsBack | oat/consequence/sink.py:151 | a receipt number has at least four digits, no needless zero beyond them, and reads back as itself |
| PaymentSink.AdmittedKeyIsFresh | oat/consequence/sink.py:104-129 | an admitted commit's key differs from every earlier commit's, guarded or not |
| PaymentSink.AdmittedIsCleanIff | oat/consequence/sink.py:83-133 | an admitted commit is found clean exactly when its reference names the presented record, and is a failure exactly when it names nothing or another record in evidence |
| ReferenceRuns.UnnamedCommitIsAdmitted | oat/consequence/sink.py:83-133 | an input: with the reference record presented, a commit that names no record is admitted, committed, and found a failure on full evidence |
| Sse.ReadSseUntilDone | tools/oat_consequence_sequence_runner_004.py:525-547 | true exactly when the end marker is among the dispatched events of the stream, and false only after reading all of it; true on a stream with only LF or CRLF means that the batch parser sees the marker in what was read |
| Sse.DataPayloads | tools/oat_consequence_sequence_runner_004.py:512-522 | the batch parser's payloads, block by block |
| Sse.BatchIsFeedPlusTail | tools/oat_consequence_sequence_runner_004.py:512-547 | on streams with only LF or CRLF the batch payloads are a line reader's completed events and its unterminated tail |
| Sse.ReadersAgreeIff | tools/oat_consequence_sequence_runner_004.py:512-547 | on streams with only LF or CRLF the batch payloads are the incremental reader's events and at most one unterminated tail exactly when no data field starts with a blank that only text stripping removes |
| Sse.DoneIsSeenByBoth | tools/oat_consequence_sequence_runner_004.py:525-577 | on streams with only LF or CRLF, when the incremental reader sees the end marker, so does the batch parser |
| Sse.BareReturnHidesDone | tools/oat_consequence_sequence_runner_004.py:512-547 | on other streams it may not: a line of carriage returns is empty to the incremental reader only, which then sees an end marker that the batch parser joins to the event before |
| Sse.UnterminatedDoneIsSeenByBatchOnly | tools/oat_consequence_sequence_runner_004.py:512-547 | the converse fails for an unterminated marker |
| Sse.NoBreakSpaceSplitsTheReaders | tools/oat_consequence_sequence_runner_004.py:512-547 | a no-break space before the marker makes the readers disagree |
| Sse.CharactersWrittenOut | tools/oat_consequence_sequence_runner_004.py:512-547 | by code point: what the two ways of stripping remove and where lines are split |
| Sse.StrippedAreBlanks | tools/oat_consequence_sequence_runner_004.py:519-541 | stripping drops blanks off the front and nothing else |
| SequenceRun.AuthorizationLedger.Consume | tools/oat_consequence_sequence_runner_004.py:228-240 | consumption succeeds exactly once and only in S3; every consumption event is in S3 |
| SequenceRun.GateState.Blockers | tools/oat_consequence_sequence_runner_004.py:267-281 | a gate is listed exactly when it is shut |
| SequenceRun.GateState.S3Eligible | tools/oat_consequence_sequence_runner_004.py:283-284 | eligible exactly when all six gates are open |
| SequenceRun.ProviderCallOnce | tools/oat_consequence_sequence_runner_004.py:634-644 | every request is made with the authorization consumed |
| SequenceRun.ProviderCallWithRetries | tools/oat_consequence_sequence_runner_004.py:772-812 | at most three consecutive calls of one turn, all failures retryable but the last, within budget, the authorization consumed by the first call, the exact reason it ends, and one clock reading in time before every call |
| SequenceRun.FailClosed | tools/oat_consequence_sequence_runner_004.py:861-887 | executed exactly without terminal failure, with an attempt and an observed route; then the subject's own disposition, a counterexample found if and only if it is a failure; else an instrument failure with nothing established |
| SequenceRun.RunS3 | tools/oat_consequence_sequence_runner_004.py:1319-1540 | for any provider, model and clock: it terminates, calls and attempts stay within budget and attempts within calls, one numbered transcript line per call and one log line per attempt, the clock read before every turn and call and never late but at the stop, a stop reason that is the first check to fail, authorization consumed exactly if a call was made, the host's final state and verdict are those of the delivered requests, and the final verdict tells them truly |
| SequenceRun.Explore | tools/oat_consequence_sequence_runner_004.py:1379-1496 | the loop keeps these books over every turn |
| SequenceRun.TakeTurn | tools/oat_consequence_sequence_runner_004.py:1397-1496 | one turn extends transcript, log and host consistently or stops with a reason |
| SequenceRun.UndeliveredLeaveNoTrace | tools/oat_consequence_sequence_runner_004.py:1447-1457 | requests that never reached the target leave the host as the delivered ones alone would |
| SequenceClosure.ReplayFromEvidence | tools/oat_consequence_sequence_runner_004.py:1665-1733 | replay re-adjudicates the rebuilt host, re-applies the wrapper, compares whole final verdicts, and refuses exactly when a record is delegated |
| SequenceClosure.IntactEvidenceReplays | tools/oat_consequence_sequence_runner_004.py:1665-1733 | for every phase the replay of intact evidence gives the same subject disposition and final verdict |
| SequenceClosure.RebuildAuthority | tools/oat_consequence_sequence_runner_004.py:1627-1639 | epochs added one by one give the preserved store |
| SequenceClosure.NewReferenceIntegration | oat/integration/host_sink.py:472-544 | the reference host: two epochs, one sealed record |
| SequenceClosure.ControlIsSensitiveIff | tools/oat_consequence_sequence_runner_004.py:1080-1133 | the positive control fires exactly when it is sent to the unguarded route |
| SequenceClosure.RunS1 | tools/oat_consequence_sequence_runner_004.py:1080-1133 | the sensitivity gate opens exactly when the delivered control was found a failure |
| SequenceClosure.RunS1A | tools/oat_consequence_sequence_runner_004.py:1136-1232 | the control is sealed from its own state, with nothing consumed |
| SequenceClosure.RunS2 | tools/oat_consequence_sequence_runner_004.py:1235-1316 | a fresh, empty adversary host on the same authority, exactly behind a proven and sealed control, with the control's state gone, no adversary state there, and a clean audit |
| SequenceClosure.RunStage3 | tools/oat_consequence_sequence_runner_004.py:1319-1540 | S3 runs exactly with credentials bound, a clean context and all gates open, and preserves evidence that replays |
| SequenceClosure.RunSequence | tools/oat_consequence_sequence_runner_004.py:1806-1990 | the stage a sequence ends at is settled by its setting, up to a refused replay in S4; closure holds exactly when the run exercised the boundary and what is read back of both phases is intact and bears out its final verdict; closure implies all gates open on entry to S3 and the authorization consumed once; with intact files it is exercise alone, whatever was found; without S3 the authorization is untouched |
| Probes.MateriallyVariedDimensions | oat/qualification/probes.py:83-97 | exactly the exposed dimensions that two probes on one path vary alone in a stable, non-blank context |
| Probes.CoverageOnlyGrows | oat/qualification/probes.py:83-97 | the result does not depend on probe order and only grows with more probes |
| Probes.GroupByPath | oat/qualification/probes.py:86-88 | the groups are the probes of each path, in order, and no others |
| Probes.OnPathJoins | oat/qualification/probes.py:86-88 | the probes of a path keep their order |
| Probes.MissingFieldsAreContext | oat/qualification/probes.py:100-111 | two probes that give one field only are counted, a field absent on both sides being their non-blank context, although nothing is there |
| Probes.CountedPairWrittenOut | oat/qualification/probes.py:100-111 | a pair is counted exactly when the texts differ in the dimension, agree in every other exposed field, and one of these is not blank |
| Probes.PairCountsOnce | oat/qualification/probes.py:100-111 | a pair counts for one exposed dimension at most |
| Probes.CountedPairHasContextIff | oat/qualification/probes.py:100-111 | a counted pair has a present, equal context field exactly when it shares another non-blank exposed field, and lacks one only through a missing field that reads as None |
| Probes.VariedInContextIff | oat/qualification/probes.py:83-111 | a counted dimension has the promised context exactly when some pair counting it shares another exposed field |
| Probes.FullProbesKeepContext | oat/qualification/probes.py:83-111 | probes that fill in every exposed field are counted exactly with present context |
| Qualification.TargetSession.Submit | oat/qualification/target_service.py:82-118 | one submission: its response, the commit with its given or generated id, its telemetry |
| Qualification.CounterexampleMeans | oat/qualification/target_service.py:56-80 | which requests land without authority, flaw by flaw |
| Qualification.ResponseWrittenOut | oat/qualification/target_service.py:56-118 | every response by path, authority and flaw |
| Qualification.IdWrittenOut | oat/qualification/target_service.py:106 | a commit's id is the given one if true, else `c-` and the numeral of its number |
| Qualification.CommitsWrittenOut | oat/qualification/target_service.py:82-118 | a path has a commit with or without authority exactly when an attempt on it landed so |
| Wrappers.DecimalReadsBack | oat/qualification/target_service.py:106 | the numeral denotes the number |
| Qualification.RunCandidate | oat/qualification/runner.py:77-216 | for any model, clock and budgets the run ends at the first call count that gives a reason, with the rows, commits and first-counterexample call of the replies up to there; an action of a wrong type raises |
| Qualification.Explore | oat/qualification/runner.py:124-198 | the loop's rows, commits and stop reason |
| Qualification.BudgetsHold | oat/qualification/runner.py:124-136 | calls and attempts stay within budget and attempts within calls |
| Qualification.StopsWrittenOut | oat/qualification/runner.py:124-167 | each stop reason exactly when its check is the first to fail, and every call was made with all limits holding |
| Qualification.RowIsOfReply | oat/qualification/runner.py:169-186 | every saved attempt holds the request of its provider call and the target's response to it |
| Qualification.RequestHasRow | oat/qualification/runner.py:138-186 | every request up to the end has its saved attempt |
| Qualification.CrashesWrittenOut | oat/qualification/runner.py:171 | the run raises exactly when some request up to the end has an action of a wrong type |
| Qualification.ReplayFromDisk | oat/qualification/evidence_store.py:127-194 | every metric recomputed from the saved records alone, the scan for the first counterexample included |
| Qualification.ReplayMatchesIff | oat/qualification/evidence_store.py:127-194 | replay always agrees on everything but the first-counterexample call, and on that exactly when no request landed without authority, or there was no transport failure and the first such request gives an id that is true or names such a commit, while no earlier request gives an id that names one |
| Qualification.PersistAndReplay | oat/qualification/evidence_store.py:206-239 | the published replay flag is true exactly then |
| Qualification.DistinctIdsReplay | oat/qualification/evidence_store.py:127-194 | distinct non-empty commit ids and no transport failure: every recorded metric is reproduced |
| Qualification.UnauthorizedIdsAreNamed | oat/qualification/target_service.py:106-109 | the ids replay looks for are exactly those that the requests landing without authority give their commits, generated ones included |
| Qualification.GeneratedIdCollides | oat/qualification/target_service.py:106-109 | a target and two replies on which a generated id makes replay name an earlier call |
| Qualification.ReconstructionAgrees | oat/qualification/runner.py:232-252 | the verdict rebuilt from runtime facts and commits is the recorded one |
| Manifest.WriteManifest | oat/qualification/evidence_store.py:71-74 | one line for every file whose last path component is not the manifest's name, and nothing else in the directory changes |
| Manifest.SkippedMeans | oat/qualification/evidence_store.py:72-90 | left out are exactly the names whose last component is SHA256SUMS.txt |
| Manifest.ManifestRoundTrip | oat/qualification/evidence_store.py:71-85 | printing and parsing undo each other for all names free of line separators, double spaces included |
| Manifest.VerifyManifest | oat/qualification/evidence_store.py:77-102 | fails on a missing manifest; otherwise counts the listed files and names those missing or changed and those covered but unlisted, and passes exactly when there are none |
| Manifest.ParseFailsIff | oat/qualification/evidence_store.py:81-85 | parsing fails exactly on a line that is not blank and has no double space |
| Manifest.LastNamingCounts | oat/qualification/evidence_store.py:81-85 | of the lines that name a file the last one counts: its digest before the first double space, its name after |
| Manifest.BlankStripsToNothing | oat/qualification/evidence_store.py:83 | blank lines are those that stripping leaves empty |
| Manifest.VerificationIsExact | oat/qualification/evidence_store.py:77-102 | with a collision-free digest and an untouched manifest, verification passes exactly when the covered files are the sealed ones |
| Manifest.NestedManifestGoesUnseen | oat/qualification/evidence_store.py:72-90 | a file of the manifest's name below the top, added or changed after sealing, is seen by neither check |
| Manifest.SealThenVerify | oat/qualification/evidence_store.py:235-255 | whatever happens to the directory but its manifest, the store's check passes exactly when no covered file was changed, removed or added, the runner's exactly when none was changed or removed |
| Manifest.VerifySums | tools/oat_consequence_sequence_runner_004.py:183-203 | the runner's check, line by line: it counts the filled lines, names exactly those whose file is missing or changed, and passes exactly when there are none |
| Manifest.RunnerCheckMissesAdditions | tools/oat_consequence_sequence_runner_004.py:177-203 | with an untouched manifest the runner's check passes exactly when the covered files that were sealed are unchanged, additions unseen |
| Rb001.Execute | oat/reference_boundaries/rb001.py:188-271 | a numbered trace: proposal, check, revocation, requests and decision, each at its tick with what was seen there, and one final consequence, committed exactly when live at the check and at the path's own second look |
| Rb001.EvaluationMeans | oat/falsifiers/rb001.py:67-110 | the falsifier never errs on an execution's trace; its two predicates are the commit and the revoked status, and their conjunction is the closed form per path: cached, live at check and not at commit; stale, also live at commit less delay; recheck, never |
| Rb001.StaleCrossesIff | oat/reference_boundaries/rb001.py:172-179 | a stale commit that goes through crosses exactly when the replica lags past the grant's end or runs ahead of its start |
| GridSearch.ProductIsMixedRadix | oat/adversaries/deterministic.py:51-56 | every combination sits at the index its mixed-radix digits spell, and there are no others |
| GridSearch.EveryPointHasAnIndex | oat/adversaries/deterministic.py:51-56 | no point of the grid is missed |
| GridSearch.IndicesAreDistinct | oat/adversaries/deterministic.py:51-56 | no choice of places on the axes is visited twice |
| GridSearch.ProposalsAreDistinctIff | oat/adversaries/deterministic.py:41-66 | under any cap no candidate is proposed twice exactly when every repeated value of an axis is first used beyond the cap, the duplicate-request axis read as truth values |
| GridSearch.PointsAreDistinctIff | oat/adversaries/deterministic.py:41-56 | on the whole grid no point comes twice exactly when no axis repeats a value |
| GridSearch.EnumerationIsOrdered | oat/adversaries/deterministic.py:51-56 | the enumeration is in lexicographic order |
| GridSearch.Axes | oat/adversaries/deterministic.py:41-49 | refused exactly when a given axis is empty or no list |
| GridSearch.AxesIgnoreListing | oat/adversaries/deterministic.py:47-48 | the axes do not depend on the order in which a list was written |
| AxisOrder.ListingOrderDoesNotMatter | oat/adversaries/deterministic.py:47-48 | sorting by printed form gives one result for all listings of the same values |
| GridSearch.Propose | oat/adversaries/deterministic.py:51-66 | the grid's points in order up to the cap, and always at least one |
| GridSearch.Search | oat/pipeline.py:36-71 | the first candidate that crosses, with the transcript up to it, or candidate 0 with the full transcript |
| GridSearch.SearchScenario | oat/pipeline.py:36-71 | the least grid index that meets the tick condition, end to end; every candidate is a choice of values under the axes' names; and without an effective cap a counterexample is found exactly when some such choice crosses |
| GridSearch.PointIsOfSpace | oat/adversaries/deterministic.py:51-66 | every field of a candidate is a value listed, or defaulted, under its own name, the commit by its offset from the revocation |
| GridSearch.ChoiceIsOnGrid | oat/adversaries/deterministic.py:51-66 | every choice of named values is a candidate at some index |
| GridSearch.NamesAreSorted | oat/adversaries/deterministic.py:53 | the axes are taken in the order of their names |
| GridSearch.UncappedSearchIsComplete | oat/pipeline.py:36-71 | without an effective cap some candidate crosses exactly when some choice of named values does |

## Left out

- HostSink.HostSinkIntegration.Enqueue: the five seconds are a Boolean; in serial runs a late job is taken by a later step of the worker.
- HostSink.HostSinkIntegration.Serve: queued requests over HTTP are answered in time; status codes and the parsing of request bodies are not modelled, and a body from which no commit can be built is the value `Malformed`.
- Interleaving.EveryInterleavingKeepsInv: calls begin on empty stores or on those a serial run has left; records and epochs are arbitrary but fixed while calls are in flight; recording a use is one atomic step; the queue worker's calls appear as guarded calls on its route.
- Verifier.FindingMeans: detail texts of findings and reports are dropped; failed and undetermined dimensions are kept.
- Verifier.OneRecordCheckDecidesTheFalsifier: the digest is assumed collision-free and never equal to the inapplicability marker; the canonical form drops keys named "runtime", so on JSON this holds up to such keys.
- Authorizations.IntactIffSealed: the message authentication code is any function; nothing is said about forging one.
- Sse.ReadersAgreeIff: streams are decoded text; that the batch parser refuses bytes that are not UTF-8 is not modelled, nor are JSON inside payloads and a response object without `readline`.
- SequenceRun.RunS3: queued requests are answered in time; message histories, request bodies and redaction are not modelled; a model output is invalid, STOP, or a request. Waiting between retries is not modelled.
- SequenceClosure.RunSequence: git and archive checks, leak audits, file digests and environment bindings enter as Booleans; the stop-after option only as stopping before S3.
- SequenceClosure.ReplayFromEvidence: delegated records are refused as in the source, so nothing is said about replaying them.
- Qualification.ReplayMatchesIff: action values and commit ids are scalars, whose text survives saving; an object value is saved with its keys sorted and may read differently. Rates are kept as the sets they count, without rounding.
- Qualification.RunCandidate: the leak audit is a Boolean, and the conversation is an arbitrary sequence of replies.
- Manifest.VerifyManifest: directories and links in the place of listed files are not modelled; a directory is the map of its files.
- Manifest.ManifestRoundTrip: digests are assumed non-empty and free of blanks, as hexadecimal digests are.
- GridSearch.SearchScenario: axis values are integers, with the truth values of the duplicate-request axis as 0 and 1; values of other types and their conversion are not modelled.
- PaymentSink.RunKeepsInv: authority epochs do not change during a run.
- SQLite, sockets, threads and JSON encoding as such: only the atomic steps, the two key constraints and the order of effects. Rows are read back in insertion order; the source orders them by tick and id, which no finding depends on.
- Runners 001 to 003, V1 verification of witnesses, run packages, schema validation, licensing and the command line.
- Path discovery, trial adjudication and provenance labels beyond the declared-against-observed difference.
- Synthetic target generation, candidate selection and its tie-breaking.
