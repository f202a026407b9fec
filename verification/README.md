# A verified model of PactAgent's settlement protocol

PactAgent holds money in escrow for agreements and their milestones and pays it
out when work is approved. This project models, in Dafny, what its server keeps
in its database while any number of requests run at once, the lock script that
guards an escrow on the CKB chain together with the TypeScript code that must
agree with it, the durable job queue, webhook delivery, and three small
algorithms. `dafny verify dfyconfig.toml` checks all of it.

How the files fit together:

- `Ledger`, `Sums`, `StateMachines`, `Lifecycle`: the shared rows, sums over them,
  the three transition tables, and the status paths that requests walk.
- `Requests`: what each database transaction does, as a function from the
  ledger before it to the ledger after it or to the error it throws.
- `Service`: the same transactions as the service runs them, methods of a class
  that compare, swap and write rows one after the other; each is proved equal to
  its `Requests` function and to keep the ledger invariant. The proofs also show
  that none of these transactions writes anything before it throws.
- `Invariants`: what every transaction keeps.
- `Outcomes`, `Refusals`, `Courses`: for each transaction when it is accepted and
  what it leaves, in statuses; what each error says; and whole courses of work.
- `World`: any interleaving of requests. Each database transaction is one step;
  the adapter call lies between two of them and may answer, throw or never come
  back; a request may stop for good between any two steps, and may finalize its
  settlement more than once; the reconciler observes the chain at any time.
- `Payouts`, `Calls`, `Guarantees`, `Limits`: what holds in every reachable
  state, and reachable states that show where those guarantees end.
- `Reconciliation`: sequences of chain observations for one transaction.
- `Idempotency` and `IdempotencyStore`: one idempotency key under any number of
  requests and a clock, and the table of keys with the wrapper around a request.
- `Bytes`, `Amounts`, `EscrowLock`, `EscrowCodec`, `CkbSettlement`, `CkbSigner`:
  bytes, hexadecimal and decimal text; the Rust lock script; the TypeScript
  codec; the verifier; the builder and signer.
- `JobQueue`/`JobStore`, `Webhooks`/`WebhookStore`/`WebhookDrain`: the protocols
  over all runs, and the classes that update the rows.
- `RequestHash`, `AuditGate`, `RateLimit`.

What is assumed rather than modelled: database transactions are atomic,
conditional updates report whether a row matched, and the unique constraints of
the schema hold (transaction operation ids per app, dedupe keys, idempotency keys
per app). There is one clock, and it does not run backwards. No hash is assumed
to be free of collisions: the results that compare hashes assume only that the
locks of the parties and of the transaction at hand, or the two requests at hand,
do not collide. Digests, the fee estimate and the occupied size of a cell are
arbitrary; preparing a transaction adds no cells, and the indexer returns
finitely many pages. Absolute block-number `since` values are those below 2^56
(Nervos CKB RFC 0017, Specification section), which is what the script's shift by
56 bits tests.

Where a tempting claim does not hold of the code, the exact condition is proved:
release and refund exclude each other on a rail exactly when it is not `ckb`
(`Limits.ExclusionIsOffChain`). The run that shows it on the chain needs a signer
that authorizes as the client and later as the worker: the local signer with one
configured key refuses the other party's settlements, and then one of the two
calls is never carried out, without which there is no such run
(`Limits.BothEndsTakeBothCalls`). The escrows of an agreement fit in its amount
exactly when they are not for the whole agreement and for milestones at once
(`Limits.FitUnlessBoth`); even then twice the amount is the bound, which every
amount attains. An agreement whose funds are held takes no other milestone,
exactly unless a proof of it stands rejected (`Courses.HeldTermsAreImmutable`). A
key commits once per retention period exactly when no body completes a row that
still stores an unexpired response (`Idempotency.OnceUnlessClobbered`), which the
lease rules out (`Idempotency.ExactlyOnce`) and a slow request breaks
(`Idempotency.LateBodyCommitsTwice`). Encoding decoded cell data gives it back
exactly when the reserved bytes, which the TypeScript decoder ignores, are zero
(`EscrowCodec.CellDataRoundTripBack`). The script accepts what the signer builds
exactly when the parties' locks differ and the change is not the settled amount
(`CkbSigner.ScriptAcceptsSettlement`). The retention of an idempotency key may be
configured shorter than its processing lease; a reservation therefore protects
its request only until the earlier of the two ends.

## Model

| member | source | states |
|---|---|---|
| Guarantees.OnePayoutPerEscrow | server/src/modules/escrows/escrow.service.ts:736-1085 | over every interleaving with crashes and retried finalizations: off the chain at most one settlement call per escrow is carried out, and it is the one its status names; released and refunded each prove their call |
| Guarantees.PayoutsAreFinal | server/src/modules/escrows/escrow.service.ts:495-1085 | an escrow settled off the chain keeps its row and its one call in every continuation of the run |
| Guarantees.NeverReleasedAndRefunded | server/src/modules/escrows/escrow.service.ts:736-1085 | at two moments of one run a settled escrow off the chain has the same row, so it is never released at one and refunded at the other |
| Guarantees.SettledUntilReorg | server/src/modules/escrows/escrow.service.ts:1103-1285 | on every rail a released or refunded escrow keeps its row through every continuation of the run, until, if ever, a look at one of its own transactions reports a reorganisation |
| Guarantees.SettledStep | server/src/modules/escrows/escrow.service.ts:1123-1285 | one step leaves a settled escrow alone unless it is such a look, and that look always sends the escrow to reconciliation |
| Limits.ExclusionIsOffChain | server/src/modules/escrows/escrow.service.ts:1103-1285 | release and refund of one escrow exclude each other over all runs if and only if its rail is not ckb |
| Limits.ReleasedThenRefunded | server/src/modules/escrows/escrow.state-machine.ts:18-31 | a reachable run on the ckb rail in which an escrow is released, a reorganisation loses sight of its lock transaction and finds it again, and the escrow is refunded; it takes a signer that can act for both parties |
| Limits.BothEndsTakeBothCalls | server/src/rails/ckb/signer-provider.ts:159-163 | whenever one run shows an escrow released and later refunded, the adapter carried out both its release and its refund; a signer with the key of one party only rules that out |
| Calls.NoSettlementTwice | server/src/modules/escrows/escrow.service.ts:736-821 | on every rail, chain included, the same settlement of an escrow is carried out at most once, since its transaction row is unique and never deleted |
| Calls.SettledWasCalled | server/src/modules/escrows/escrow.service.ts:901-1285 | on every rail, in every reachable state, a released escrow has had its release carried out by the adapter, and a refunded one its refund |
| Calls.NoCallWithoutApproval | server/src/modules/escrows/escrow.service.ts:626-666 | every release call, on any rail, has an accepted proof or a release-resolved dispute in the scope of its escrow |
| Guarantees.NoPayoutWithoutApproval | server/src/modules/escrows/escrow.service.ts:626-666 | in every reachable ledger an escrow that is release_pending or released, reconciliation included, has such a sanction in its own scope |
| Guarantees.MilestonesFit | server/src/modules/milestones/milestone.service.ts:40-119 | in every reachable ledger the milestone amounts of an agreement sum to at most its amount |
| Guarantees.MilestoneEscrowsFit | server/src/common/amounts/financial-invariants.ts:46-68 | in every reachable ledger the amounts of all milestone escrows of an agreement, live or settled, sum to at most its amount |
| Guarantees.EscrowsFitTwice | server/src/modules/escrows/escrow.service.ts:200-327 | counting an escrow on the whole agreement as well, all its escrows hold at most twice its amount |
| Limits.TwiceTheAmountIsReachable | server/src/modules/escrows/escrow.service.ts:279-327 | whatever its amount, an agreement and its only milestone may each have an escrow for all of it, so that bound is met |
| Guarantees.EscrowsFitOnce | server/src/modules/escrows/escrow.service.ts:200-327 | in every reachable ledger, an agreement with escrows on the whole only, or on milestones only, has them hold at most its amount |
| Limits.FitUnlessBoth | server/src/modules/escrows/escrow.service.ts:200-327 | for each set of scope kinds: over all runs the escrows of an agreement that has escrows of these kinds only fit in its amount, if and only if the kinds are not both |
| Guarantees.OneEscrowRowPerScope | server/src/modules/escrows/escrow.repository.ts:85-150 | in every reachable ledger a settlement scope has at most one escrow row |
| Invariants.LookupsCoverScope | server/src/modules/escrows/escrow.repository.ts:85-150 | the active and the terminal lookup together find every escrow of a scope, whatever its status |
| Guarantees.SplitsShareTheEscrow | server/src/common/amounts/financial-invariants.ts:70-93 | in every reachable ledger the two shares of a split resolution add up to the escrow of the disputed milestone |
| Guarantees.OneProofWaits | server/src/modules/proofs/proof.service.ts:119-312 | in every reachable ledger at most one proof of an agreement waits; in proof_submitted exactly one, on the only submitted milestone; in funded, in_progress and rejected none |
| Guarantees.OneVerdictEach | server/src/modules/proofs/proof.service.ts:202-312 | a proof has at most one review, has none exactly while it is submitted, and is accepted, rejected or in need of changes as its verdict says |
| Courses.ApprovedWorkIsPaid | server/src/modules/escrows/escrow.service.ts:80-165 | from any ledger with a funded escrow off the chain: handing work in, approving it and releasing the escrow is refused nowhere, and ends with escrow and milestone released, the proof accepted, and the agreement released with its payout confirmed if this was its last escrow, approved otherwise |
| Courses.RejectedWorkComesBack | server/src/modules/proofs/proof.service.ts:202-312 | work that is rejected or sent back leaves its escrow funded, cannot be paid, and can be handed in again |
| Courses.DisputedWorkIsRefunded | server/src/modules/disputes/dispute.service.ts:204-277 | disputing work, resolving for the client and refunding is refused nowhere, and ends with escrow and milestone refunded, and the agreement refunded if this was its last escrow, disputed otherwise |
| Courses.ResolutionDecidesRelease | server/src/modules/escrows/escrow.service.ts:626-666 | the escrow of a dispute can be released after its resolution if and only if it was resolved to release |
| Courses.SettlementColumnFits | server/src/modules/agreements/agreement.repository.ts:78-118 | in every reachable ledger the settlement column of an agreement says the phase its status is in |
| Courses.HeldTermsAreImmutable | server/src/modules/milestones/milestone.service.ts:60-67 | in every reachable ledger, an agreement whose funds are held refuses another milestone as immutable if and only if it is not rejected |
| Outcomes.AgreementOutcome | server/src/modules/agreements/agreement.service.ts:119-208 | from which statuses an agreement is accepted, asks for funding and is cancelled, and what it becomes |
| Outcomes.MilestoneOutcome | server/src/modules/milestones/milestone.service.ts:52-97 | exactly when a milestone is added, in statuses, sums and uniqueness |
| Outcomes.SubmissionOutcome | server/src/modules/proofs/proof.service.ts:119-177 | exactly when work is handed in, and what agreement, milestone and proof become |
| Outcomes.ReviewOutcome | server/src/modules/proofs/proof.service.ts:202-312 | exactly when a verdict is taken, and what each verdict makes of agreement, milestone and proof |
| Outcomes.DisputeOutcome | server/src/modules/disputes/dispute.service.ts:114-179 | exactly when work is disputed, and what becomes disputed |
| Outcomes.ResolutionOutcome | server/src/modules/disputes/dispute.service.ts:204-277 | exactly when a dispute is resolved, a split only if its shares add up to the funded escrow; only a release approves the work |
| Outcomes.ReservationOutcome | server/src/modules/escrows/escrow.service.ts:200-327 | exactly when an escrow is reserved: for a scope without any, within its amount, and on the chain for a milestone's exact amount |
| Outcomes.CreationOutcome | server/src/modules/escrows/escrow.service.ts:343-412 | what the adapter's answer makes of the escrow and its lock transaction, by rail |
| Outcomes.DiscardOutcome | server/src/modules/escrows/escrow.service.ts:329-341 | taking a reservation back right away restores the ledger, and an escrow that moved on stays |
| Outcomes.FundingOutcome | server/src/modules/escrows/escrow.service.ts:544-624 | from which statuses an escrow is funded or detected, and that agreement and milestone follow a funding |
| Outcomes.ReleaseOutcome | server/src/modules/escrows/escrow.service.ts:626-666 | exactly when a release is reserved: funded, and approved or resolved to release in the scope, and not reserved before |
| Outcomes.RefundOutcome | server/src/modules/escrows/escrow.service.ts:668-680 | exactly when a refund is reserved: funded, the agreement not released, and not reserved before |
| Outcomes.SettlementOutcome | server/src/modules/escrows/escrow.service.ts:901-1015 | what finishing a settlement makes of escrow and transaction; when it ends the escrow the milestone follows, and the agreement ends released or refunded, settlement column included, if and only if all its escrows ended so and it was approved, release pending or disputed, or funded or disputed |
| Outcomes.FailureOutcome | server/src/modules/escrows/escrow.service.ts:823-899 | a failed settlement marks escrow and transaction and nothing else |
| Outcomes.LookOutcome | server/src/modules/escrows/escrow.service.ts:1123-1285 | an escrow that a look makes funded, released or refunded takes milestone and agreement along in the same way, and no other look touches them |
| Refusals.MilestoneRefusal | server/src/modules/milestones/milestone.service.ts:52-97 | each error of adding a milestone says what is true of the ledger |
| Refusals.SubmissionRefusal | server/src/modules/proofs/proof.lifecycle.ts:20-75 | each error of handing work in says what is true |
| Refusals.ReviewRefusal | server/src/modules/proofs/proof.lifecycle.ts:95-140 | each error of a review says what is true |
| Refusals.DisputeRefusal | server/src/modules/disputes/dispute.service.ts:114-179 | each error of opening a dispute says what is true |
| Refusals.ResolutionRefusal | server/src/modules/disputes/dispute.service.ts:204-277 | each error of resolving a dispute says what is true |
| Refusals.ReservationRefusal | server/src/modules/escrows/escrow.service.ts:200-327 | each error of reserving an escrow says what is true |
| Refusals.CreationRefusal | server/src/modules/escrows/escrow.service.ts:343-412 | an answer that cannot come after a creation is told apart from an escrow that has moved on |
| Refusals.FundingRefusal | server/src/modules/escrows/escrow.service.ts:544-624 | each error of a funding says what is true |
| Refusals.FinishRefusal | server/src/modules/escrows/escrow.service.ts:823-1015 | finishing a settlement is refused for a missing escrow or one whose settlement is not pending, and says which |
| Refusals.SettlementRefusal | server/src/modules/escrows/escrow.service.ts:626-821 | each error of reserving a settlement says what is true |
| Refusals.LookRefusal | server/src/modules/escrows/escrow.service.ts:1123-1180 | each error of a look says what is true |
| World.ReachableLedger | server/src/modules/escrows/escrow.service.ts:279-1285 | every interleaving of all requests, adapter answers, crashes and chain observations keeps the whole ledger invariant |
| World.NextKeepsLedger | server/src/modules/escrows/escrow.service.ts:279-1285 | each single step keeps it |
| World.CreationRunsThrough | server/src/modules/escrows/escrow.service.ts:279-412 | a creation alone is among the runs: it ends with what the adapter said, or takes its reservation back |
| World.FundingRunsThrough | server/src/modules/escrows/escrow.service.ts:495-624 | a funding alone ends with what the adapter said |
| World.SettlementRunsThrough | server/src/modules/escrows/escrow.service.ts:736-1085 | a settlement alone is carried out once and ends with what the adapter said, or failed |
| Payouts.NextKeepsPayouts | server/src/modules/escrows/escrow.service.ts:736-1085 | each single step keeps what an escrow row says about the calls made for it and the requests working on it |
| Calls.NextLeavesRows | server/src/modules/escrows/escrow.service.ts:329-341 | no step deletes the transaction row of a release or refund |
| Invariants.ReserveCreationKeeps | server/src/modules/escrows/escrow.service.ts:279-327 | reserving a creation keeps the ledger invariant, one escrow per scope included |
| Invariants.DiscardCreationKeeps | server/src/modules/escrows/escrow.service.ts:329-341 | taking a reservation back keeps it |
| Invariants.FinalizeFundingKeeps | server/src/modules/escrows/escrow.service.ts:544-624 | funding keeps it |
| Invariants.ReserveSettlementKeeps | server/src/modules/escrows/escrow.service.ts:736-821 | reserving a settlement keeps it; a release needs its sanction |
| Invariants.FinalizeSettlementKeeps | server/src/modules/escrows/escrow.service.ts:901-1015 | a finished settlement, with its milestone and agreement roll-up, keeps it |
| Invariants.FinalizeFailureKeeps | server/src/modules/escrows/escrow.service.ts:823-899 | a failed settlement keeps it |
| Invariants.ReconcileKeeps | server/src/modules/escrows/escrow.service.ts:1123-1285 | a chain observation keeps it |
| Invariants.CreateMilestoneKeeps | server/src/modules/milestones/milestone.service.ts:52-89 | a new milestone keeps it, the sum of the allocations included |
| Invariants.SubmitProofKeeps | server/src/modules/proofs/proof.service.ts:119-177 | a submission keeps it, one waiting proof included |
| Invariants.ReviewProofKeeps | server/src/modules/proofs/proof.service.ts:202-312 | a review keeps it, one verdict per proof included |
| Invariants.OpenDisputeKeeps | server/src/modules/disputes/dispute.service.ts:114-179 | opening a dispute keeps it |
| Invariants.ResolveDisputeKeeps | server/src/modules/disputes/dispute.service.ts:204-277 | resolving a dispute keeps it, exact splits included |
| Reconciliation.RepeatsAreInvisible | server/src/modules/escrows/escrow.service.ts:1103-1264 | a sequence of observations gives the statuses and events of the sequence with consecutive repeats collapsed |
| Reconciliation.SettlementEventsAlternate | server/src/modules/escrows/escrow.service.ts:1103-1264 | for a lone settlement, terminal and reorg events strictly alternate, and one more confirmation reaches the terminal status if and only if no plain rejection came before |
| Reconciliation.SecondLookIsSilent | server/src/modules/escrows/escrow.service.ts:1103-1264 | observing the same thing again changes nothing and emits nothing |
| Reconciliation.FundedWhileConfirmed | server/src/modules/escrows/escrow.service.ts:1103-1264 | whatever the node answers about a lock transaction, the escrow is funded exactly while the last confirmation stands, and its funding is announced exactly once for each new confirmation, never before the first |
| Reconciliation.LockLook | server/src/modules/escrows/escrow.service.ts:1103-1121 | one look at a lock transaction, observation by observation: status, transaction status and event |
| Reconciliation.SettlementLook | server/src/modules/escrows/escrow.service.ts:1103-1121 | one look at a release or refund, observation by observation |
| Reconciliation.TakenBackLook | server/src/modules/escrows/escrow.service.ts:1103-1121 | a confirmation that is gone sends the escrow to reconciliation and is announced once |
| Lifecycle.AgreementPathsFollowTable | server/src/modules/agreements/agreement.state-machine.ts:24-41 | every hop of every submission, review, dispute and resolution path is an edge of the agreement table |
| Lifecycle.MilestonePathsFollowTable | server/src/modules/milestones/milestone.state-machine.ts:21-35 | the same for milestones |
| Service.AgreementWalkEnds | server/src/modules/proofs/proof.service.ts:57-74 | a walk along the table that moves no money is one jump to its last status; no compare-and-swap on the way fails |
| Service.MilestoneWalkEnds | server/src/modules/proofs/proof.service.ts:76-93 | the same for milestones |
| Service.Database.TransitionAgreementStatus | server/src/modules/agreements/agreement.repository.ts:78-118 | updates status and settlement column if and only if the expected status is still there, else throws |
| Service.Database.TransitionMilestoneStatus | server/src/modules/milestones/milestone.repository.ts:66-93 | the compare-and-swap of a milestone |
| Service.Database.TransitionEscrowStatus | server/src/modules/escrows/escrow.repository.ts:41-56 | the compare-and-swap of an escrow |
| Service.Database.AdvanceAgreement | server/src/modules/proofs/proof.service.ts:57-74 | the loop over a path is the specified walk, error included |
| Service.Database.AdvanceMilestone | server/src/modules/proofs/proof.service.ts:76-93 | the loop over a path is the specified walk, error included |
| Service.Database.AcceptAgreement | server/src/modules/agreements/agreement.service.ts:164-208 | two hops are one acceptance; keeps the ledger invariant |
| Service.Database.MoveAgreement | server/src/modules/agreements/agreement.service.ts:119-162 | cancelling and asking for funding; keeps the ledger invariant |
| Service.Database.SumMilestones | server/src/common/amounts/integer-amount.ts:22-24 | adding up the milestones in any order gives the allocated amount |
| Service.Database.CreateMilestone | server/src/modules/milestones/milestone.service.ts:40-119 | does exactly the specified request, every refusal in order, a taken order or external reference included; keeps the ledger invariant |
| Requests.DefaultOrderIsFree | server/src/modules/milestones/milestone.service.ts:78-97 | a milestone that is given no order collides with another one only over its external reference |
| Service.Database.SubmitProof | server/src/modules/proofs/proof.service.ts:119-177 | does exactly the specified request, every refusal with its own code; keeps the ledger invariant |
| Service.Database.ReviewProof | server/src/modules/proofs/proof.service.ts:202-312 | the step-by-step review ends where the specification says, every refusal with its own code; keeps the ledger invariant |
| Service.Database.TransitionProofStatus | server/src/modules/proofs/proof.repository.ts:59-83 | the compare-and-swap of a proof |
| Service.Database.OpenDispute | server/src/modules/disputes/dispute.service.ts:114-179 | does exactly the specified request, every refusal with its own code; keeps the ledger invariant |
| Service.Database.ResolveDispute | server/src/modules/disputes/dispute.service.ts:204-277 | does exactly the specified request, every refusal with its own code; keeps the ledger invariant |
| Service.Database.CheckResolution | server/src/modules/disputes/dispute.service.ts:224-243 | a split is allowed only against the one funded escrow of the milestone and must share out exactly its amount |
| Service.Database.ReserveCreation | server/src/modules/escrows/escrow.service.ts:279-327 | does exactly the specified transaction, every refusal included; keeps the ledger invariant |
| Service.Database.DiscardCreation | server/src/modules/escrows/escrow.service.ts:329-341 | deletes the lock transaction, and the escrow only while it is not created |
| Service.Database.FinalizeCreation | server/src/modules/escrows/escrow.service.ts:343-412 | does exactly the specified transaction; keeps the ledger invariant |
| Service.Database.FinalizeFunding | server/src/modules/escrows/escrow.service.ts:544-624 | does exactly the specified transaction; keeps the ledger invariant |
| Service.Database.TransitionFundingScope | server/src/modules/escrows/escrow.service.ts:167-198 | a funded escrow moves its agreement and milestone along |
| Service.Database.CheckSettlement | server/src/modules/escrows/escrow.service.ts:626-680 | refuses in the order of the guards; what passes is funded, and a release that passes has its sanction |
| Service.Database.ReserveSettlement | server/src/modules/escrows/escrow.service.ts:736-821 | does exactly the specified transaction; keeps the ledger invariant |
| Service.Database.FinalizeFailure | server/src/modules/escrows/escrow.service.ts:823-899 | does exactly the specified transaction; keeps the ledger invariant |
| Service.Database.FinalizeSettlement | server/src/modules/escrows/escrow.service.ts:901-1015 | does exactly the specified transaction; keeps the ledger invariant |
| Service.Database.TransitionMilestoneIfAllowed | server/src/modules/escrows/escrow.service.ts:80-116 | a milestone follows its escrow when its table allows |
| Service.Database.TransitionAgreementWhenAllEscrowsTerminal | server/src/modules/escrows/escrow.service.ts:118-165 | an agreement follows once all its escrows ended the same way |
| Service.Database.Reconcile | server/src/modules/escrows/escrow.service.ts:1123-1285 | the step-by-step reconciliation transaction is the specified one; keeps the ledger invariant |
| Idempotency.ExactlyOnce | server/src/common/idempotency/idempotency.service.ts:32-184 | while no request outlives its lease, bodies commit at most once per retention period and every answer is the commit of its moment, made for the same request hash |
| Idempotency.OnceUnlessClobbered | server/src/common/idempotency/idempotency.repository.ts:33-57 | without any assumption: at most once per retention period if and only if no body completes a row that already stores an unexpired response |
| Idempotency.AnswersRepeatTheirCommit | server/src/common/idempotency/idempotency.service.ts:32-184 | over all runs nobody is answered with the result of another request hash |
| Idempotency.LateBodyCommitsTwice | server/src/common/idempotency/idempotency.repository.ts:33-57 | a reachable run in which a request outlives its lease and two bodies commit within one retention period |
| Idempotency.NextKeepsExclusive | server/src/common/idempotency/idempotency.repository.ts:16-31 | whoever still holds a reservation is alone and the pending row is its own |
| Idempotency.NextKeepsStored | server/src/common/idempotency/idempotency.repository.ts:33-57 | a completed row always stores the last commit, and an unexpired commit is always still stored |
| IdempotencyStore.Keys.Reserve | server/src/common/idempotency/idempotency.repository.ts:16-31 | creates the row, or reports the unique violation and changes nothing |
| IdempotencyStore.Keys.Complete | server/src/common/idempotency/idempotency.repository.ts:33-57 | completes whatever row is there, or throws when it is gone |
| IdempotencyStore.Keys.DeleteExpired | server/src/common/idempotency/idempotency.repository.ts:59-70 | deletes the row exactly when it is expired or its lease is over |
| IdempotencyStore.Keys.CleanupExpired | server/src/common/idempotency/idempotency.repository.ts:72-81 | the sweep treats every key as a lookup of it would |
| IdempotencyStore.Keys.DeletePending | server/src/common/idempotency/idempotency.repository.ts:83-96 | deletes the row exactly when it is pending for this hash |
| IdempotencyStore.Keys.GetReplay | server/src/common/idempotency/idempotency.service.ts:32-87 | a missing or overlong header is refused; else free, replay, mismatch or in progress, after dropping a row that was stale when it was looked at |
| IdempotencyStore.Keys.RunIdempotent | server/src/common/idempotency/idempotency.service.ts:139-184 | the whole wrapper, with a time for each of its steps and a rival between lookup and reservation: a stored response is repeated without running the body, a free key runs it and keeps its response or forgets its failure, a rival's row decides, and a body that violates a unique constraint leaves its own reservation pending |
| IdempotencyStore.StoredResponseIsReplayed | server/src/common/idempotency/idempotency.service.ts:32-87 | until it expires a stored response is what every retry with the same hash gets, and a conflict for every other |
| IdempotencyStore.ReservationHolds | server/src/common/idempotency/idempotency.service.ts:32-87 | until its lease or the key is over a reservation answers its own request with in progress and any other with a conflict, and then the key is free |
| IdempotencyStore.TrimCutsBlanks | server/src/common/idempotency/idempotency.service.ts:32-45 | blanks around a key are cut off, and nothing else |
| Idempotency.FreeKeyRuns | server/src/common/idempotency/idempotency.service.ts:139-184 | a request that finds the key free reserves it, and its body commits once, answers and is stored with the right ends |
| Idempotency.TakenKeyAnswers | server/src/common/idempotency/idempotency.service.ts:32-87 | a request that finds the key taken is answered with the stored response of the same request, or not at all |
| Idempotency.LoserLooksAgain | server/src/common/idempotency/idempotency.service.ts:139-184 | who loses the race for a key is answered like anybody who finds it taken |
| Idempotency.OwnReservationIsLeft | server/src/common/idempotency/idempotency.service.ts:139-184 | a body that violates a unique constraint finds its own reservation in progress and leaves it pending |
| Idempotency.FailedBodyFreesTheKey | server/src/common/idempotency/idempotency.repository.ts:83-96 | a body that fails frees its key |
| RequestHash.CanonicalMeansSame | server/src/common/idempotency/request-hash.ts:3-17 | two bodies have the same canonical form if and only if they are equal up to key order at every depth |
| RequestHash.CanonicalIsIdempotent | server/src/common/idempotency/request-hash.ts:3-17 | the canonical form of a canonical form is itself |
| RequestHash.UpperForgetsCase | server/src/common/idempotency/request-hash.ts:19-31 | verbs are compared without regard to the case of their letters, and to nothing else |
| RequestHash.EmptyBodies | server/src/common/idempotency/request-hash.ts:19-31 | no body, a null body and an empty object are the same request, and nothing else is |
| RequestHash.SameHashSameRequest | server/src/common/idempotency/request-hash.ts:19-31 | unless the two canonical requests at hand collide, hashes agree if and only if verbs agree up to case, paths agree, and bodies agree up to key order, a missing or null body counting as an empty object |
| Amounts.AmountsAreCanonical | server/src/common/amounts/integer-amount.ts:3-20 | a string parses to an amount if and only if it is the canonical decimal of it, within one and the largest unsigned 64-bit number |
| Amounts.RefusedAmounts | server/src/common/amounts/integer-amount.ts:3-20 | a decimal beyond the largest amount is out of range, anything else that is refused is invalid |
| Amounts.FirstBadAmountTells | server/src/common/amounts/integer-amount.ts:22-24 | a list with a string that is no amount has no sum, and the first such string says why |
| Amounts.SumOfPrinted | server/src/common/amounts/integer-amount.ts:22-24 | adding up the strings of amounts gives the sum of the amounts |
| EscrowLock.SerializedTermsParse | contracts/pact-escrow-lock/src/lib.rs:79-122 | parsing serialized terms gives them back if and only if the version is 1 and the timeout is below 2^56 |
| EscrowLock.ParsedTermsSerialize | contracts/pact-escrow-lock/src/lib.rs:79-122 | accepted cell data has one form: serializing what was parsed gives it back |
| EscrowLock.PartyHashesRoundTrip | contracts/pact-escrow-lock/src/lib.rs:63-77 | lock arguments and party hashes round-trip both ways |
| EscrowLock.SerializeTerms | contracts/pact-escrow-lock/src/lib.rs:113-122 | filling the buffer field by field gives the bytes of the terms |
| EscrowLock.EachPathPaysOneParty | contracts/pact-escrow-lock/src/lib.rs:124-180 | for every transaction, exactly which payments, signers and since values give each way out, and when the outputs are ambiguous |
| EscrowLock.OrderDoesNotMatter | contracts/pact-escrow-lock/src/lib.rs:124-180 | the verdict is the same for permuted outputs and reordered signers |
| CkbSettlement.PathsAreVerified | server/src/rails/ckb/reconciliation.ts:49-97 | once the funding of the cell was verified, and as long as the hash tells apart the locks of the parties and of the outputs: of the accepted spends of that cell, the payouts are exactly those verified as a release and the refunds exactly those verified as a refund, never both |
| CkbSettlement.FundingIsTheCell | server/src/rails/ckb/reconciliation.ts:49-69 | the funding is verified if and only if the output is the escrow cell with exactly its lock, data and amount; a cell that differs in its amount only is answered with the amount mismatch |
| CkbSettlement.SettlementPaysOnce | server/src/rails/ckb/reconciliation.ts:71-97 | a settlement is verified if and only if it spends the escrow cell once and pays the amount to the destination once |
| CkbSettlement.ScriptRefuses | contracts/pact-escrow-lock/src/main.rs:38-66 | the script runs for one cell at a time with arguments and data it can parse, and says which is missing |
| CkbSettlement.DistinguishingHashExists | server/src/rails/ckb/reconciliation.ts:71-97 | the assumption can be met: for any 2^256 scripts or fewer there is a hash that tells them all apart |
| CkbSettlement.SpendOrderDoesNotMatter | contracts/pact-escrow-lock/src/main.rs:38-66 | an accepted spend is accepted for the same reason in whatever order it lists inputs and outputs |
| EscrowCodec.EncodeEscrowCellData | server/src/rails/ckb/escrow-codec.ts:61-74 | the buffer writes give the specified bytes, every rejected input included |
| EscrowCodec.CellDataRoundTrip | server/src/rails/ckb/escrow-codec.ts:61-91 | decoding encoded cell data gives it back, up to letter case of the digests |
| EscrowCodec.CellDataRoundTripBack | server/src/rails/ckb/escrow-codec.ts:61-91 | encoding decoded cell data gives it back if and only if the reserved bytes are zero |
| EscrowCodec.LockArgsRoundTrip | server/src/rails/ckb/escrow-codec.ts:37-52 | decoding encoded lock arguments gives them back, up to letter case |
| EscrowCodec.LockArgsRoundTripBack | server/src/rails/ckb/escrow-codec.ts:37-52 | encoding decoded lock arguments gives them back |
| EscrowCodec.CaseDoesNotMatter | server/src/rails/ckb/escrow-codec.ts:5-16 | hexadecimal values that differ in the case of their letters denote the same bytes |
| EscrowCodec.SameCellData | server/src/rails/ckb/escrow-codec.ts:76-91 | the script accepts cell data if and only if the decoder does, its reserved bytes are zero and its timeout is a block number; both then read the same terms |
| EscrowCodec.EncodedCellDataParses | server/src/rails/ckb/escrow-codec.ts:61-74 | the script reads encoded cell data as the very terms it was made of |
| EscrowCodec.EncodedLockArgsParse | server/src/rails/ckb/escrow-codec.ts:37-43 | the script finds in encoded lock arguments the very hashes they were made of |
| CkbSigner.CommitmentIsReadable | server/src/rails/ckb/transaction-builder.ts:50-96 | every commitment the builder makes is read by the script with the parties, index, timeout and digests of its terms, the timeout being the number their text denotes, and covers its occupied capacity |
| CkbSigner.CommitmentIsMade | server/src/rails/ckb/transaction-builder.ts:50-96 | terms with canonical texts in range give exactly the commitment with their lock and cell data, unless the amount does not pay for the cell |
| CkbSigner.TimeoutsAreCanonical | server/src/rails/ckb/transaction-builder.ts:25-34 | a timeout text is accepted as a number if and only if it is the canonical decimal of it, below 2^56 |
| CkbSigner.TimeoutWaits | server/src/rails/ckb/transaction-builder.ts:50-96 | the script lets the client alone take a committed cell back if and only if the output pays the client alone, the worker did not sign and the input waits for the block that the terms name |
| CkbSigner.CollectCapacity | server/src/rails/ckb/signer-provider.ts:94-110 | selects a shortest prefix of the plain cells that reaches the required capacity, or fails because no prefix does |
| CkbSigner.SignSettlement | server/src/rails/ckb/signer-provider.ts:159-184 | signs only for the authorizer, with such a prefix, and the change that is left after the fee pays for its own cell; too little capacity is the answer exactly when the stream is short or the change is |
| CkbSigner.SettlementBalances | server/src/rails/ckb/signer-provider.ts:112-137 | inputs equal outputs plus fee |
| CkbSigner.ScriptAcceptsSettlement | server/src/rails/ckb/signer-provider.ts:159-184 | the script accepts a built settlement the way it was meant if and only if the parties have different locks and the change differs from the settled amount; otherwise it finds the outputs ambiguous |
| CkbSigner.SettlementIsVerified | server/src/rails/ckb/reconciliation.ts:71-97 | a built settlement whose change differs from the settled amount is verified for its destination and for nobody else |
| CkbSigner.CommittedEscrowSettles | server/src/rails/ckb/transaction-builder.ts:98-124 | from commitment to settlement: the script takes the built release as a payout and the built refund as the worker's refund, and the verifier confirms each for its destination and not for the other party, under that same condition |
| CkbSigner.LockIsVerified | server/src/rails/ckb/signer-provider.ts:139-157 | a built lock transaction balances, is verified as the funding of its commitment, and returns the change to the signer |
| JobQueue.DedupeKeysAreExclusive | server/src/services/jobQueueService.ts:32-107 | over every run no two jobs share a dedupe key and only live jobs hold one |
| JobQueue.FinishedStays | server/src/services/jobQueueService.ts:156-220 | a completed or dead-lettered job never changes |
| JobQueue.FencedUntilClaimed | server/src/services/jobQueueService.ts:156-230 | a worker without the lock can neither complete, defer, fail nor renew the job until it claims it again |
| JobQueue.ReleasedIsNotOwned | server/src/services/jobQueueService.ts:257-276 | completing, deferring, failing and releasing a stale lock take the lock away |
| JobQueue.StaleJobsComeBack | server/src/services/jobQueueService.ts:257-276 | releasing stale locks gives back exactly the running jobs whose lease ended before now, or that have none and were locked too long ago, unlocked and available at once |
| JobQueue.LockIsLost | server/src/services/jobQueueService.ts:156-276 | one step takes the lock from its worker if and only if the worker gives the job back, or locks are released after its lease |
| JobQueue.KeptWhileRenewed | server/src/services/jobQueueService.ts:222-276 | over every run, a worker whose lease lasts whenever locks are released keeps its job until it gives it back itself |
| JobQueue.CrashedJobIsTakenOver | server/src/services/jobQueueService.ts:109-142 | the job of a crashed worker can be claimed by any other once its lease is over and locks were released |
| JobQueue.ClaimTakes | server/src/services/jobQueueService.ts:109-142 | exactly when a waiting job is claimed, and what its row and the worker's lease become |
| JobQueue.OldestFirst | server/src/services/jobQueueService.ts:109-142 | a claim leaves a claimable job out only when it has as many as it may take, none of them available later |
| JobQueue.WaitsItsTurn | server/src/services/jobQueueService.ts:109-188 | over every run, nothing happens to a waiting job before its time |
| JobQueue.DeferredJobWaits | server/src/services/jobQueueService.ts:173-188 | a deferred job is not run before its delay is over, which is bounded by a second and a quarter of an hour |
| JobQueue.FailedJobWaits | server/src/services/jobQueueService.ts:190-220 | a failed job is over when its attempts are used up, and else not run before its retry delay is over |
| JobQueue.CompletedAndReplayed | server/src/services/jobQueueService.ts:156-255 | a completed job is over and its key free; replaying it makes the same job anew |
| JobQueue.BackoffDoubles | server/src/services/jobQueueService.ts:23-26 | the delay starts at five seconds and doubles with every attempt up to a quarter of an hour |
| JobQueue.FailureRequeuesAreBounded | server/src/services/jobQueueService.ts:190-220 | over every run, failures re-queue a job at most one time less than its maximum attempts, however often it was deferred or its lease lost |
| JobQueue.RetryDelayBounds | server/src/services/jobQueueService.ts:23-26 | a retry waits the exponential delay times a half to one and a half, rounded to the millisecond and at most a quarter of an hour; never less than two and a half seconds, and later attempts wait no less |
| JobStore.JobTable.EnqueueJob | server/src/services/jobQueueService.ts:32-107 | returns the live holder of the key, or the new job; afterwards the key has exactly that holder |
| JobStore.JobTable.ClaimAvailableJobs | server/src/services/jobQueueService.ts:109-142 | claims the oldest claimable jobs up to the bounded limit and locks exactly those |
| JobStore.JobTable.CompleteJob | server/src/services/jobQueueService.ts:156-171 | throws exactly without the lock; finishes the job and frees its key |
| JobStore.JobTable.DeferJob | server/src/services/jobQueueService.ts:173-188 | throws exactly without the lock; puts the job back after the bounded delay |
| JobStore.JobTable.FailJob | server/src/services/jobQueueService.ts:190-220 | throws exactly without the lock; dead-letters by the attempts seen at the claim |
| JobStore.JobTable.RenewJobLease | server/src/services/jobQueueService.ts:222-230 | throws exactly without the lock |
| JobStore.JobTable.ReplayJob | server/src/services/jobQueueService.ts:232-255 | only a finished job starts over, as a new job without key |
| JobStore.JobTable.ReleaseStaleLocks | server/src/services/jobQueueService.ts:257-276 | puts back exactly the jobs whose lease is over |
| JobStore.ChooseOldest | server/src/services/jobQueueService.ts:118-128 | the query's selection: no chosen job is younger than one left out |
| Webhooks.OneResultPerAttempt | server/src/modules/webhooks/webhook.repository.ts:276-313 | under any duplicate, late or crashed executors and manual retries, each attempt number has exactly one recorded result, with exactly that result's retry job or failure event |
| Webhooks.DeliveredStays | server/src/modules/webhooks/webhook.service.ts:314-408 | a delivered delivery is never left |
| Webhooks.OneAttempt | server/src/modules/webhooks/webhook.service.ts:282-408 | what each outcome of an attempt leaves: status, attempt number, record, retry job or announcement |
| Webhooks.RetriedDeliveryArrives | server/src/modules/webhooks/webhook.repository.ts:238-257 | a failed delivery that is retried by hand gets one job, and is delivered when that attempt succeeds |
| Webhooks.FanoutReachesEach | server/src/modules/webhooks/webhook.repository.ts:149-200 | an event makes exactly one new pending delivery for each subscribed endpoint and none for any other |
| Webhooks.FanoutInOrder | server/src/modules/webhooks/webhook.repository.ts:149-200 | the new deliveries stand in the order of the endpoints they are for |
| Webhooks.FanoutQueuesEach | server/src/modules/webhooks/webhook.repository.ts:149-200 | and exactly one first job for each of them |
| Webhooks.ScheduleIsBounded | server/src/modules/webhooks/webhook.retry.ts:1-15 | retries after one, five and fifteen minutes, one hour and six, and then none |
| WebhookDrain.DeliveryDrains | server/src/modules/webhooks/webhook.service.ts:262-408 | with no lost lease and no manual retry every run started by one event is finite, with at most six recorded attempts per delivery |
| WebhookDrain.ExecutionProgresses | server/src/modules/webhooks/webhook.service.ts:282-408 | each execution keeps one open job per undecided delivery and lowers the lexicographic measure: work for ordinary deliveries, then work for deliveries about failures |
| WebhookDrain.DrainedIsSettled | server/src/modules/webhooks/webhook.service.ts:314-408 | when nothing is left to execute every delivery is delivered or failed for good, unless its job threw |
| WebhookStore.Outbox.CreateDeliveriesForEvent | server/src/modules/webhooks/webhook.repository.ts:149-200 | the loop over the endpoints is the specified fan-out |
| WebhookStore.Outbox.UpdateResult | server/src/modules/webhooks/webhook.repository.ts:276-313 | applies exactly when status and attempts are as read, and counts the attempt |
| WebhookStore.Outbox.RecordFinalFailure | server/src/modules/webhooks/webhook.service.ts:262-280 | a delivery about a failure causes no further event |
| WebhookStore.Outbox.RecordDeliveryResult | server/src/modules/webhooks/webhook.service.ts:282-312 | writes everything or, when it was overtaken, nothing |
| WebhookStore.Outbox.FinishDelivery | server/src/modules/webhooks/webhook.service.ts:341-407 | what follows an attempt is the specified result |
| WebhookStore.Outbox.RetryByHand | server/src/modules/webhooks/webhook.repository.ts:238-257 | only failed or retrying deliveries go back to pending |
| AuditGate.Accept | scripts/audit-dependencies.mjs:57-77 | accepts a package if and only if a finite chain of exceptions covers it, within one round more than there are records |
| AuditGate.DerivableIsLeast | scripts/audit-dependencies.mjs:57-77 | the accepted set is inside every set that contains whatever it covers |
| AuditGate.AcceptedIsExcused | scripts/audit-dependencies.mjs:53-77 | a package is accepted if and only if it has a record all of whose causes are excused: an advisory by an exception that names package and advisory, a package by not blocking or being accepted too |
| AuditGate.CyclesAreRefused | scripts/audit-dependencies.mjs:57-77 | packages excused only by each other are refused |
| AuditGate.OrderDoesNotMatter | scripts/audit-dependencies.mjs:57-77 | the order of the records does not matter |
| RateLimit.TwiceTheMaximum | server/src/common/rate-limit/infrastructure-rate-limit.ts:42-55 | with a non-decreasing clock, any half-open interval of one window's length admits at most twice the maximum per key, on the sweeping store |
| RateLimit.SweepIsInvisible | server/src/common/rate-limit/infrastructure-rate-limit.ts:49-53 | the sweep never changes a decision compared with a store that never evicts |
| RateLimit.RequestsAreCounted | server/src/common/rate-limit/infrastructure-rate-limit.ts:42-55 | every request is judged by the exact number of requests of its key since its window began, and lies in that window |
| RateLimit.RefusedOnlyWhenFull | server/src/common/rate-limit/infrastructure-rate-limit.ts:42-55 | nobody is refused who made fewer than the maximum of requests within one window's length before |
| RateLimit.MemoryBuckets.Consume | server/src/common/rate-limit/infrastructure-rate-limit.ts:42-55 | counts on in an open window, starts over in a closed one, and sweeps exactly the closed windows of a large store |

## Left out

- Tenants: the ledger holds the rows of one app; every query of the source carries the app id.
- Networks: a check constraint ties the network to the rail, so immediate confirmation depends on the rail alone.
- Idempotency inside the settlement runs: the keys can only refuse steps that the runs here allow, so everything proved of all runs holds with them.
- The database trigger that guards proofs and disputes by funded escrows only refuses more requests than the model does.
- Titles, external references of agreements, evidence, audit rows, and events other than those of reconciliation and failed deliveries: nothing here depends on them.
- Confirmation counts, block hashes and the polling of a transaction until it is buried: the observed status is a parameter of each look.
- Lock hash and output index of the escrow row: the hash is kept on its lock transaction row only.
- Error codes that differ only by the kind of scope or of settlement in the request (`escrow_amount_exceeds_agreement` and `escrow_amount_exceeds_milestone`, say) are one error here; the request tells which.
- Rows are held in maps of values that the service class reassigns, not in separate mutable objects, so aliasing of row objects is not modelled.
- Transient database failures other than a transaction that does not commit: a step that does not happen.
- Requests.SplitError: when a scope had several active escrows it would look at any of them, where the source takes the newest; no reachable ledger has two.
- JobQueue: a claim locks rows that other claims are selecting at the same moment; those are given as a set of busy ids.
- Retention jobs that delete finished jobs, old deliveries and old events.
- Webhook signing, egress checks, redirects and response bodies: an attempt succeeds, fails, or finds its endpoint unusable.
- WebhookDrain: the queue's rows are reduced to the set of open jobs, each executed once, which is what no lost lease and a maximum of one attempt mean.
- The Redis limiter, and the fail-open or fail-closed choice when it is unreachable.
- AuditGate: the list of exceptions that were used is printed only, and the threshold and expiry checks before the loop are single comparisons.
- RequestHash: `localeCompare` is replaced by an arbitrary total order on keys, which also covers the order in which JavaScript lists integer-like keys; locales in which different keys compare equal are not covered.
- Routes, validation schemas, serializers, pagination, metrics, tracing, the web console and deployment scripts.
- The bounded provider concurrency of server/src/common/resilience/provider.ts.
