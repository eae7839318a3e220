# TrustLink attestation contract: a verified model

TrustLink is a Soroban contract that keeps attestations (an issuer's claims about a subject) together
with several redundant indexes, audit logs and counters, and runs a few protocols on top of them: M-of-N
proposals, pull-based requests, rate limits, delegation. An off-chain indexer folds the contract's events
into database tables. This project models that state and every call that changes it, and proves what every
run keeps and what every query then means.

## How it is organised

- `Types`, `Sequences`, `Decimal`, `ChunkedIndex`, `Pagination`: records, list algebra and the building blocks.
- `Ledger`, `Multisig`, `Requests`, `Delegations`: what each entry point does, as a function of the state.
  `Worlds` is the whole state; `Runs` applies any sequence of calls to it, each call in its own environment
  `Env` (ledger time, registries, limits, the id functions), a rejected call changing nothing.
- `Contract`: the entry points as methods of a class over the stored entries, with the fifty-entry chunks
  really written and removed by loops. Each is proved to end as its step function says. `Executions` closes
  the loop: any sequence of calls on the object is a run of the model.
- `Coherence`, `Evolution`, `Batches`, `Runs`: the invariants and their preservation by every call.
- `Effects`, `Calls`, `Rejections`: what each call adds and changes, field by field, who may make it, when it
  succeeds, and what its error codes mean. `Histories`: the same over whole runs.
- `Guarantees`, `Queries`, `Cursor`, `Proposals`, `RateLimits`, `IssuerIndexes`: what a user of the contract gets
  from them.
- `Indexer`: the event fold, as tables updated by a handler. `Rows`: what the tables then hold,
  column by column. `Replay`: what redelivered events do to them.

The invariant `Coherent` relates the records to everything derived from them. Two history variables, never
read by any operation, make it a statement about sequences: `order`, the ids in order of first storage, and
`stale`, the ids revoked in a batch. A subject's flat list is `order` restricted to its unrevoked undeleted
records; its valid list is `order` restricted to those plus the undeleted stale ones; its chunked list is its
valid list. `Evolves` says how records and logs may change: flags go up, logs are extended, everything a
record was created with stays, and expiration is frozen by revocation.

## Where the code and the expected law part

- The two storing paths of src/multisig.rs do not check that the id is unused. Whole-run theorems about the
  ledger therefore carry the hypothesis `FreshRun`; `Runs.ApplyKeepsLedger` shows that a call keeps the ledger
  coherent if and only if it stores no id in use, and `Guarantees.CollisionBreaksIndexes` gives the run of two
  calls that breaks it. The protocol invariants hold over all runs.
- The flat and the chunked issuer index disagree after some calls. `IssuerIndexes.AgreementKeptIff` says after
  exactly which: a transfer to another issuer and a non-empty batch revocation.
- Proposal ids are not checked either: proposing again within one second of ledger time overwrites the stored
  proposal, signatures and finalization included, although no attestation id is reused.
  `Proposals.ApplyEvolvesProposals` and `Proposals.ProposalKeptIff` say exactly which calls do so,
  `Proposals.ReproposalResets` is a run that resets a finalized proposal, and the whole-run theorems about how
  proposals change carry the hypothesis `NoOverwrites`. What every single proposal satisfies needs no hypothesis.
- Cursor pagination recovers from a cursor that has left the list by looking for the first record that sorts after
  it by timestamp and id, but lists are in order of creation, which need not be that order: an import carries an
  older timestamp, a finalized proposal stores the time it was created, up to seven days before, and records of
  one second sort by their hashes. `Cursor.ResumesIff` is the exact condition for the next page to continue where
  the client stopped after the cursor's record was deleted, `Cursor.RevokedResumesIff` the same after a
  revocation, and `Guarantees.ResumeSkips` a run in which a record that is there all along is never returned.
  Whole walks are proved on any ranges, sorted or not, whose pages continue in that sense; sorted ranges always do.
- A proposal's threshold is compared with the length of the signer list, repetitions and the proposer
  included, so a proposal can be impossible to finalize: `Multisig.SelfSignedStuck` is one, and
  `Multisig.FinalizableIff` says when it is not.
- A threshold of one still needs two signatures, since the proposer's own signature never finalizes.
- Event replay is not safe for every order of events. `Replay.ReplaySafeIff` says exactly when replaying a stream
  changes nothing: when every row already shows what the stream says about it. Causal order is sufficient, in the
  weak form that no row is created after an update of it came too early; updates of rows that are never created,
  such as a tier update that throws or the revocation of a bridged record whose own event did not decode, are
  allowed. `Replay.RevocationReplayIff` reads the condition off the stream for attestations, and
  `Replay.OutOfOrderReplay` is the shortest stream that violates it.

src/storage.rs holds several definitions of the same operations. The model follows the flat lists at 276-360,
the counters at 527-575, requests at 784-826, delegations at 851-874 and 1032-1064, the valid list at 990-1018,
`paginate` at 1209-1222 and the chunked index at 3144-3350.

## Model

| member | source | states |
|---|---|---|
| Runs.ApplyKeepsLedger | src/attestation.rs:182-776 | whatever is called, the ledger stays coherent if and only if the call stores no id already in use, and then evolves lawfully |
| Runs.ApplyKeepsProtocols | src/multisig.rs:12-141 | whatever is called, proposals, requests and delegations keep their invariants and requests only move forward |
| Runs.RunKeepsLedger | src/attestation.rs:543-776 | over every collision-free run: all indexes, logs and counters agree with the records, flags are monotone, created fields never change, expiration is frozen once revoked, logs only grow at the end |
| Runs.RunKeepsProtocols | src/request.rs:12-182 | over every run, with no hypothesis: protocol invariants hold, and a request that left Pending never changes again |
| Runs.ReachableOk | src/attestation.rs:182-776 | both, for every state reachable from an empty contract |
| Calls.SucceedsIff | src/attestation.rs:221-907 | any call succeeds iff the conditions on its arguments, its caller and the state hold, all written out, with the literal bounds |
| Calls.RecordStep | src/attestation.rs:543-776 | a successful call that reuses no id does to a stored record and its log exactly what its name says: who revokes, re-dates, moves or deletes it is entitled to, and every other field stays |
| Calls.RequestStep | src/request.rs:49-182 | a successful call does to a stored request exactly what its name says, made by the issuer asked in time or the subject who asked |
| Rejections.ErrorsAreTrue | src/attestation.rs:221-907 | whatever is called, the error code returned is true of the call and of the state it met |
| Effects.CreateAdds | src/attestation.rs:263-300 | a creation adds one record with the caller's fields under an unused id, last in both flat lists, logged by its issuer; all else as before |
| Effects.ImportAdds | src/attestation.rs:360-396 | the same for an import, with its historical timestamp and the administrator in the log |
| Effects.BridgeAdds | src/attestation.rs:412-447 | the same for a bridged attestation, with its source and no expiration |
| Effects.DelegateAdds | src/attestation.rs:845-905 | the same for a delegate: the record is the delegator's, the delegate is in the log, and the delegation has not expired |
| Effects.CreateBatchAdds | src/attestation.rs:472-525 | a batch adds exactly one such record per subject, each logged |
| Effects.SetExpirationChanges | src/attestation.rs:582-709 | a renewal or update sets the expiration to the one given and nothing else; the last log entry of a renewal parses back to it |
| Effects.RevokeChanges | src/attestation.rs:543-580 | a revocation sets the flag and the reason of one record of the caller's and logs it |
| Effects.RevokeBatchChanges | src/attestation.rs:614-678 | a batch does so for exactly the ids named, at most fifty distinct ones |
| Effects.TransferChanges | src/attestation.rs:711-751 | a transfer changes the issuer and moves the id to the end of the new issuer's list |
| Effects.DeleteChanges | src/attestation.rs:753-776 | a deletion sets the flag of one record of the caller's and logs it |
| Histories.DeletedIff | src/attestation.rs:753-776 | over any run a record is deleted iff it was, or its own subject asked for it |
| Histories.RevokedIff | src/attestation.rs:543-678 | it is revoked iff it was, or a revocation named it |
| Histories.ExpirationIsLastSet | src/attestation.rs:582-709 | it expires when the last renewal or update said, or as created |
| Histories.Untouched | src/attestation.rs:543-776 | nothing but its issuer changes in a record that no call revokes, deletes or re-dates |
| Histories.HeldWhileInForce | src/query.rs:19-43 | after a creation and any calls that do not touch it, the query says yes at every time from its start up to its expiration |
| Histories.NotHeldOnceExpired | src/query.rs:19-43 | once all of the subject's attestations of the type have expired the query says no |
| Histories.EndsAs | src/request.rs:49-182 | how a request ended says who ended it: cancelled by its subject, fulfilled or rejected by the issuer asked, waiting iff nobody did |
| Histories.ProtocolsBacked | src/multisig.rs:107-137 | over any run without id reuse every finalized proposal and every fulfilled request has its attestation: of its claim type, about its subject, dated right, issued by its proposer or the issuer asked but for the transfers in its log |
| Histories.ReachableBacked | src/request.rs:86-113 | so in every state reachable from an empty contract |
| Executions.Invoke | src/attestation.rs:221-907 | any call on the contract object is exactly one step of the run model |
| Executions.Execute | src/attestation.rs:221-907 | any sequence of calls on the object ends in the state of the run |
| Executions.DeployAndExecute | src/storage.rs:3185-3216 | after any calls on a new contract the protocols are sound and, without id reuse, the ledger is coherent and every subject's stored chunks are exactly those of its valid list |
| Guarantees.SubjectListsMean | src/attestation.rs:182-195 | a flat list is duplicate-free and holds exactly the unrevoked undeleted ids; the valid list minus revoked ids is the same sequence and never holds a deleted id; the chunked list is the valid list |
| Guarantees.CountersConserved | src/attestation.rs:191-194 | below the u64 bound: total_attestations counts the records, total_revocations the revoked ones, total_issued those an issuer owns, and the per-issuer counts sum to the total |
| Guarantees.TransferNeverClips | src/attestation.rs:731-740 | the saturating decrement of a transfer never meets zero |
| Guarantees.ListedOnce | src/storage.rs:301-360 | across all flat issuer lists an id occurs at most once, and only under its record's current issuer |
| Guarantees.LogCountsRevocation | src/storage.rs:667-674 | a log has exactly one Revoked entry if the record is revoked, none otherwise, and only transfers and deletions follow it |
| Guarantees.CollisionBreaksIndexes | src/multisig.rs:24-53 | proposing the same bypassing claim twice at one time lists the id twice and counts one record as two |
| Guarantees.FulfilledStep | src/request.rs:49-119 | only a fulfil call makes a request Fulfilled, from Pending and before it expires |
| Guarantees.FulfilledAtMostOnce | src/request.rs:49-182 | over any run a request is fulfilled at most once, and exactly once iff its status became Fulfilled |
| Guarantees.CursorWalkOverRuns | src/query.rs:213-282 | with arbitrary calls between the pages, on ranges that need not be sorted: as long as each page continues after its cursor, a walk returns no record twice and, once finished, every record that stayed in range |
| Guarantees.SortedWalkOverRuns | src/query.rs:213-282 | ranges sorted by timestamp and id in every ledger met always continue, whatever is deleted, revoked or appended, the cursor included |
| Guarantees.ResumeSkips | src/query.rs:255-271 | create, import of an older attestation, first page, deletion of the cursor: the walk ends without ever returning the imported record |
| Coherence.StoreCoherent | src/attestation.rs:182-195 | storing an unused id keeps all indexes and counters in agreement with the records |
| Coherence.StoreCoherentIff | src/attestation.rs:182-195 | it does so only for an unused id |
| Coherence.RevokeOneCoherent | src/attestation.rs:543-580 | so does a single revocation, which leaves all lists at once |
| Coherence.RevokeSnapshotCoherent | src/attestation.rs:653-672 | so does one round of a batch revocation, which leaves the valid and chunked lists stale |
| Coherence.SetExpirationCoherent | src/attestation.rs:582-612 | so do renewal and expiration updates |
| Coherence.MoveCoherent | src/attestation.rs:711-751 | so does a transfer, of revoked and deleted records too |
| Coherence.MoveIssued | src/attestation.rs:731-740 | after a transfer each issuer's counter is again the number of records it owns |
| Coherence.EraseCoherent | src/attestation.rs:753-776 | so does a deletion, repeated deletions included |
| Evolution.EvolvesTransitive | src/attestation.rs:543-776 | lawful change composes: what no step may change no run changes |
| Batches.CreateBatchIsStoreEach | src/attestation.rs:472-537 | a successful batch reads, through every getter, like storing the records one by one, counters included below the u64 bound |
| Batches.CreateBatchSucceedsIff | src/attestation.rs:451-541 | a batch succeeds iff the guards pass, the generated ids are unused and pairwise distinct and every subject has room, all judged before the call |
| Batches.CreateBatchKeeps | src/attestation.rs:451-541 | a batch creation keeps coherence and evolves lawfully |
| Batches.RevokeBatchIsRevokeEach | src/attestation.rs:614-678 | a batch revocation succeeds iff revoking one by one would, and gives the same records, flat lists, logs and revocation count although it works on snapshots |
| Batches.RevokeBatchKeeps | src/attestation.rs:614-678 | a batch revocation keeps coherence and evolves lawfully |
| IssuerIndexes.AgreementKeptIff | src/attestation.rs:711-751 | a call keeps the flat and chunked issuer indexes equal iff it is not an effective transfer or a non-empty batch revocation |
| IssuerIndexes.TransferDisagrees | src/attestation.rs:728-729 | an effective transfer always sets them apart |
| IssuerIndexes.RevokeBatchDisagrees | src/attestation.rs:653-672 | so does a non-empty batch revocation |
| Multisig.ProposeKeepsProposals | src/multisig.rs:12-82 | every proposal has distinct signers that begin with the proposer and otherwise are required ones, and the signature count fits its state |
| Multisig.CosignKeepsProposals | src/multisig.rs:84-141 | cosigning keeps that; a finalized proposal has exactly max(threshold, 2) signatures |
| Multisig.CosignersFinalize | src/multisig.rs:84-141 | a row of cosign calls by distinct eligible issuers, in any order: call max(threshold, 2) - 1 finalizes and stores the attestation, the resulting ledger is that one store, later calls change nothing |
| Multisig.ProposeWrites | src/multisig.rs:28-79 | a proposal is stored on the proposer's terms with its signature for seven days; the bypass stores the attestation of that subject, claim type and issuer instead |
| Multisig.CosignWrites | src/multisig.rs:102-137 | a cosignature adds one signature; at the threshold it stores the attestation proposed: the proposer's, about the proposed subject, dated when proposed, without expiration, last in the subject's list |
| Multisig.FinalizableIff | src/multisig.rs:55-81 | some sequence of cosign calls finalizes a proposal iff it names max(threshold, 2) - 1 distinct signers other than the proposer |
| Multisig.SelfSignedStuck | src/multisig.rs:55-81 | a proposal naming only its proposer is accepted and no sequence of cosign calls finalizes it |
| Proposals.ProposalKeptIff | src/multisig.rs:64-79 | under any call a proposal keeps its terms, only gains signers and stays finalized, iff the call is not a proposal under the same id that differs from the stored one |
| Proposals.ApplyEvolvesProposals | src/multisig.rs:64-79 | the same for all proposals at once |
| Proposals.RunEvolvesProposals | src/multisig.rs:12-141 | over every run that overwrites no proposal: terms stay, signers only grow at the end, finalization sticks |
| Proposals.FinalizedAtMostOnce | src/multisig.rs:107-137 | over every such run a proposal stores at most one attestation, and exactly one iff it became finalized |
| Proposals.CosignersFinalizeInRuns | src/multisig.rs:84-141 | over every such run, any other calls in between: distinct eligible cosigners in any order sign until max(threshold, 2) signatures are reached, the one that reaches it finalizes, later ones change nothing |
| Proposals.ReproposalResets | src/multisig.rs:64-79 | propose, cosign, propose again at one time: the finalized proposal is reset without any attestation id being reused, and the next cosignature stores the attestation again |
| Requests.SubmitKeepsRequests | src/request.rs:12-47 | each issuer's pending list stays duplicate-free and equal to the requests addressed to it that are Pending |
| Requests.CloseKeepsRequests | src/storage.rs:814-826 | so it does when a request is fulfilled, rejected or cancelled |
| Requests.FulfillFacts | src/request.rs:49-119 | fulfilment happens to a Pending request before its expiry and adds exactly one record: the claim asked for, from the issuer asked, about the subject who asked, dated now, with the expiration given; every other record and request stays |
| Requests.SubmitAdds | src/request.rs:12-47 | a request is stored with the caller's fields for seven days under an unused id, last in the issuer's pending list |
| Requests.OpenForIssuer | src/request.rs:184-194 | what an issuer can list is exactly the open requests addressed to it |
| Requests.OpenInOrder | src/request.rs:184-194 | they are listed in the order of the pending list |
| Requests.GetPendingRequests | src/request.rs:184-209 | the filter-then-page loops return the slice of the open requests |
| Delegations.GrantKeepsDelegations | src/storage.rs:851-874 | the delegator index stays duplicate-free and lists a pair iff its delegation exists, for new and repeated grants |
| Delegations.WithdrawKeepsDelegations | src/storage.rs:1032-1057 | so it does when a delegation is revoked |
| Delegations.GrantStores | src/admin.rs:415-437 | a grant stores the delegation with the expiration given and changes no other |
| Delegations.WithdrawRemoves | src/admin.rs:439-453 | a withdrawal removes exactly that delegation |
| Delegations.ActiveForDelegator | src/admin.rs:455-483 | what a delegator can list is exactly its stored delegations without expiration or with a later one |
| Delegations.ActiveInOrder | src/admin.rs:455-483 | they are listed in the order of the index |
| Delegations.List | src/admin.rs:455-483 | the fused skip, filter and take loop is the slice of the unexpired delegations in index order |
| RateLimits.IssuanceStep | src/attestation.rs:145-166 | a successful single or batch creation came after the claim type's own interval, else the global one, had passed, and set the issuer's clock |
| RateLimits.IntervalIs | src/attestation.rs:147-153 | the claim type's own limit comes before the global one |
| RateLimits.RateLimitTelescopes | src/attestation.rs:145-166 | over any run in which time does not go back, first to last issuance of an issuer takes at least the sum of the intervals of all but the first |
| RateLimits.SingleInterval | src/attestation.rs:145-166 | with one interval d, n issuances take at least (n - 1) * d |
| RateLimits.ConfiguredSpacing | src/attestation.rs:145-166 | the same stated by the configuration: the claim type's limit is d, or it has none and the global one is d |
| Cursor.WalkIncreases | src/query.rs:213-282 | a walk whose pages continue after their cursors returns records in strictly increasing order of creation, whatever changes between pages |
| Cursor.WalkFindsSurvivors | src/query.rs:213-282 | once finished it has returned every record in range all along that was created after the cursor |
| Cursor.WalkReturnsSurvivorsOnce | src/query.rs:213-282 | from the start, it returns no id twice and every survivor |
| Cursor.SortedWalkResumes | src/query.rs:213-282 | on ranges sorted in every ledger met, every page continues after its cursor |
| Cursor.RangeInOrder | src/query.rs:224-234 | a filtered list is in order of creation, whatever the timestamps |
| Cursor.RangeMember | src/query.rs:224-234 | it lists exactly the subject's unrevoked undeleted records with a timestamp in the range |
| Cursor.NoPage | src/query.rs:221-253 | an inverted range or a cursor never stored gives an empty page |
| Cursor.ResumesIff | src/query.rs:255-271 | after the record at the cursor was deleted, the next page is the next block of the list iff nothing listed before it sorts after it and the next record does |
| Cursor.RevokedResumesIff | src/query.rs:255-271 | the same after its revocation |
| Cursor.ContinuesIsResumes | src/query.rs:255-271 | that condition is the one whole walks need |
| Queries.ValidListAnswers | src/query.rs:19-43 | the valid list answers for a scan of all records, stale batch-revoked ids notwithstanding |
| Queries.FlatListAnswers | src/query.rs:45-72 | the flat list answers for a scan of all records, for any issuer |
| Queries.HoldsFromSomeIssuer | src/query.rs:19-72 | the query over the valid list, blind to deletion, says yes iff the query over the flat list does for some issuer |
| Queries.StatusMeans | src/types.rs:356-371 | the four statuses by the fields: pending before its start even if revoked, revoked even if expired, expired from its expiration on, valid otherwise |
| Queries.GetAttestationStatus | src/query.rs:143-153 | a deleted or unknown record has no status; valid iff in force now |
| Queries.HasValidClaim | src/query.rs:19-43 | true iff some record of the subject and claim type, wherever listed, is unrevoked, undeleted, already in effect and not yet expired |
| Queries.HasValidClaimFromIssuer | src/query.rs:45-72 | the same, from the given issuer |
| Queries.HasAnyClaim | src/query.rs:74-100 | the disjunction of the single queries |
| Queries.HasAllClaims | src/query.rs:102-120 | the conjunction of the single queries |
| Queries.GetValidClaims | src/query.rs:343-363 | duplicate-free, and lists exactly the claims the subject holds |
| Queries.LastHitIsNewest | src/query.rs:365-383 | the last valid match in the flat list is the last created one in the whole ledger |
| Queries.GetAttestationByType | src/query.rs:365-383 | some record iff the subject holds the claim, and then the last created valid match |
| Queries.GetValidClaimCount | src/query.rs:389-400 | the number of the subject's valid undeleted records |
| Queries.GetSubjectAttestations | src/query.rs:155-167 | a page of the chunked index, from which the deleted filter drops nothing |
| Queries.PublicPagesTile | src/query.rs:155-167 | the public pages concatenate to the index, with exactly ceil(n / l) non-empty ones |
| Queries.FindStart | src/query.rs:240-271 | the two searches find the position after the cursor, else the first record that sorts after it |
| Queries.GetAttestationsInRangeAfter | src/query.rs:213-282 | the query loops return the page the walk theorems are about |
| ChunkedIndex.StoredShape | src/storage.rs:3185-3216 | chunk keys are contiguous from 0, all but the last hold fifty ids, none is empty, and they concatenate to the list |
| ChunkedIndex.StoredUnique | src/storage.rs:3251-3265 | one layout stands for one list |
| ChunkedIndex.NextChunk | src/storage.rs:3190-3199 | the inner loop takes the next fifty ids, fewer at the end |
| ChunkedIndex.RemoveTail | src/storage.rs:3207-3215 | the unbounded loop ends, removes every stale chunk and nothing else |
| ChunkedIndex.Write | src/storage.rs:3185-3216 | afterwards the owner's chunks are those of the new list, stale tail gone, other owners untouched |
| ChunkedIndex.ReadAll | src/storage.rs:3251-3265 | the unbounded loop ends and returns the whole list |
| ChunkedIndex.WriteThenRead | src/storage.rs:3185-3265 | write then read is the identity, and other owners read as before |
| ChunkedIndex.Add | src/storage.rs:3283-3293 | the list grows by the id at its end |
| ChunkedIndex.AddBulk | src/storage.rs:3295-3301 | the list grows by all ids in order |
| ChunkedIndex.Remove | src/storage.rs:3303-3323 | the list loses every occurrence of the id, the rest is rechunked in order |
| Contract.ChunksRefineValid | src/storage.rs:3185-3216 | in every coherent state the stored chunks of a subject are contiguous, full but for the last, and join to its valid list |
| Contract.RemoveEntry | src/storage.rs:289-299 | the rebuilt list lacks the id and keeps the rest in order; other lists read as before |
| Contract.StoreAttestation | src/attestation.rs:182-195 | all nine structures are updated as one store, or the overflow of the issuer counter aborts |
| Contract.CheckRateLimit | src/attestation.rs:145-166 | passes iff no interval is in force, the issuer never issued, or the interval has elapsed |
| Contract.BatchLoop | src/attestation.rs:472-527 | the loop over subjects does the per-subject writes only, and stops with the first error |
| Contract.FinishBatch | src/attestation.rs:527-539 | one deferred write per issuer-side structure |
| Contract.GatherBatch | src/attestation.rs:632-651 | snapshots of all ids in order, or the first error |
| Contract.RevokeGathered | src/attestation.rs:653-672 | the second loop revokes every snapshot and counts them |
| Contract.Contract.CreateAttestation | src/attestation.rs:221-306 | ends as the creation step says, with that id, or leaves the storage unchanged with that error |
| Contract.Contract.ImportAttestation | src/attestation.rs:346-398 | the same for an import with its historical timestamp |
| Contract.Contract.BridgeAttestation | src/attestation.rs:400-449 | the same for a bridged attestation |
| Contract.Contract.CreateAttestationAsDelegate | src/attestation.rs:831-907 | the same for a delegate acting under an unexpired delegation |
| Contract.Contract.CreateAttestationsBatch | src/attestation.rs:451-541 | the same for a batch, returning the ids in subject order |
| Contract.Contract.RevokeAttestation | src/attestation.rs:543-580 | the same for a revocation |
| Contract.Contract.RevokeAttestationsBatch | src/attestation.rs:614-678 | the same for a batch revocation, returning the number of ids |
| Contract.Contract.RenewAttestation | src/attestation.rs:582-612 | the same for a renewal, whose log entry is the decimal expiration |
| Contract.Contract.UpdateExpiration | src/attestation.rs:680-709 | the same for an expiration update |
| Contract.Contract.TransferAttestation | src/attestation.rs:711-751 | the same for a transfer; one to the current issuer changes nothing |
| Contract.Contract.RequestDeletion | src/attestation.rs:753-776 | the same for a deletion by the subject |
| Contract.Contract.ProposeAttestation | src/multisig.rs:12-82 | the same for a proposal, with the bypass of a premium issuer |
| Contract.Contract.CosignAttestation | src/multisig.rs:84-141 | the same for a cosignature |
| Contract.Contract.RequestAttestation | src/request.rs:12-47 | the same for a request |
| Contract.Contract.FulfillRequest | src/request.rs:49-119 | the same for a fulfilment |
| Contract.Contract.RejectRequest | src/request.rs:121-156 | the same for a rejection |
| Contract.Contract.CancelRequest | src/request.rs:158-182 | the same for a cancellation |
| Contract.Contract.DelegateClaimType | src/admin.rs:415-437 | the same for a grant, which lists a pair once |
| Contract.Contract.RevokeDelegation | src/admin.rs:439-453 | the same for the withdrawal of a delegation |
| Sequences.RemoveFromList | src/storage.rs:289-299 | the rebuild loop keeps every other element in order |
| Pagination.Paginate | src/storage.rs:1209-1222 | the loop returns the slice [start, start + limit) cut off at the end |
| Pagination.PagesTile | src/storage.rs:1209-1222 | for every list and page size the pages concatenate to the list, exactly ceil(n / l) of them non-empty |
| Decimal.NumeralRoundTrip | src/attestation.rs:15-28 | numerals are canonical and parse back to their number |
| Decimal.ParseRoundTrip | src/attestation.rs:15-28 | and are the only canonical strings that do |
| Decimal.Fill | src/attestation.rs:15-28 | filling the 20-byte buffer from the right never underflows its index and leaves the numeral |
| Decimal.FromU64 | src/attestation.rs:15-28 | for every u64 the result is canonical, at most 20 digits, and parses back |
| Replay.RowReplayIff | indexer/src/indexer.ts:155-391 | replaying a stream leaves a row as it is iff the row already shows every event: whatever sticks, and the last value written to each column |
| Replay.ReplaySafeIff | indexer/src/indexer.ts:155-391 | any stream, in any order: replaying it leaves all four tables unchanged iff every row does |
| Replay.ReplaySafe | indexer/src/indexer.ts:155-391 | replaying any suffix of a stream in which no row is created after a premature update, at any later clock readings, leaves all four tables unchanged; updates that find no row at all, throwing or not, are no-ops |
| Replay.RestartsSafe | indexer/src/indexer.ts:91-135 | at-least-once is as good as exactly-once: a reader that goes back to any earlier position any number of times, in the middle of a replay too, ends with the tables of one pass |
| Replay.RevocationReplayIff | indexer/src/indexer.ts:273-283 | for a record not yet indexed and any stream: replay leaves its row as it is iff it is never created, never revoked, or revoked after a creation |
| Replay.OutOfOrderReplay | indexer/src/indexer.ts:273-283 | a revocation delivered before its creation is lost once and takes effect on replay |
| Rows.AttestationRowIs | indexer/src/indexer.ts:340-370 | after any stream a new attestation row has issuer, claim type and timestamp of the event that created it, is imported or bridged as that event was, and revoked iff a revocation came after |
| Rows.ProposalRowIs | indexer/src/indexer.ts:168-229 | a new proposal row has the creating event's subject, proposer and threshold, expires seven days after its first delivery, lists the proposer and then exactly those who signed since, once each, and is finalized iff activated since |
| Rows.RequestRowIs | indexer/src/indexer.ts:232-270 | a new request row is the request as made, decided by the first decision since |
| Rows.ColumnsShow | indexer/src/indexer.ts:297-370 | every overwritable column shows the last value written since the row was created, or its default |
| Rows.PresentIff | indexer/src/indexer.ts:155-391 | a row that was not there is there afterwards iff the stream creates it |
| Indexer.Tables.HandleMultisig | indexer/src/indexer.ts:168-229 | the upsert, signer append and finalization branches change the proposal row as the fold says and no other |
| Indexer.Tables.HandleRequest | indexer/src/indexer.ts:232-270 | a request is inserted once and decided only while pending |
| Indexer.Tables.HandleIssuer | indexer/src/indexer.ts:297-338 | registration upserts; a tier update of an unknown issuer throws and changes nothing |
| Indexer.Tables.HandleAttestation | indexer/src/indexer.ts:273-370 | creation events upsert, a revocation updates at most the row of its id |
| Indexer.Tables.HandleEvent | indexer/src/indexer.ts:155-391 | the handler over the four tables is one step of the fold |
| Indexer.Tables.ProcessEvents | indexer/src/indexer.ts:91-109 | the loop over delivered events, which goes on after one that throws, is the fold |

## Left out

- Claim-type, metadata, jurisdiction and tag validators, whitelist and fee checks: each can only reject a call, and a rejected call is already part of every run theorem.
- Registries, pause, limits, rate-limit configuration and the admin council: they come with each call in `Env`, which may differ from call to call, so no property depends on how they are administered.
- `require_auth`, TTL and archival, event publication, the expiration-hook callback, token transfers: matters of the host.
- SHA-256 and XDR behind the generated ids: the id functions are parameters of each call, and `Id` is the number a 64-digit hexadecimal id denotes, which compares like the string.
- The `jurisdiction` and `tags` fields, the queries over them, `get_attestations_in_range`, endorsements, confidence scores, templates, council proposals and the entry-point wrappers of src/lib.rs.
- The counter `total_issuers` and the storage limits as global bounds: registration counts even when nothing changes, and several creation paths do not check limits; limits are modelled as the guards they are.
- Order of the individual storage writes inside one call: a call works on a copy of the storage that is committed on success, so its writes are grouped; nothing can observe the states in between.
- Queries are methods over the ledger value rather than over the contract object, since they change nothing.
- Pagination.Paginate: the checked u32 addition of start and limit is a precondition, as the source aborts the call there.
- Queries.GetSubjectAttestations: the same precondition for its page.
- Queries.GetAttestationsInRangeAfter: the same precondition for its page.
- Requests.GetPendingRequests: the same precondition for its page.
- Contract.Contract.RenewAttestation: requires the expiration to be a u64, since it is written out in decimal; other u64 arguments are unbounded here because only additions that can overflow matter, and those end in the error `Trap`.
- Indexer: ledger paging, webhooks, GraphQL publication, metrics, the createdAt and updatedAt columns and the decoding of events; an event that does not decode, such as a published bridged event that has no timestamp in its fourth position, is `Malformed` and changes nothing.
