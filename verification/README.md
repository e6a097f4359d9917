# Education-savings engine: model and proofs

A Dafny model of a Rust service in which parents save for school fees in vaults, contributors pay into
them, an administrator pays schools out of them, donors fund scholarship pools, and students collect
achievement credentials. The model follows the PostgreSQL repositories and the services above them branch by
branch; tables are maps, a transaction is one atomic step that commits or rolls back, and the CHECK, UNIQUE,
foreign-key and currency-parsing failures of the schema are branches of the transaction functions.
`dafny verify dfyconfig.toml` checks everything.

## How the pieces fit

*Vaults.* `VaultModel` splits a service call as the code does: `Begin` reads and validates a snapshot and
prepares a ticket, `Commit` runs the transaction on whatever the tables hold by then. A run is any sequence of
started, committed and abandoned calls and of contributors joining. `Effects` says in exact arithmetic what a
commit changes, and all invariants are proved on those effects: totals and version (`VaultBooks`), audit replay
(`AuditTrail`), ledger (`Ledger`), keys (`Idempotency`), origin and currency of rows (`Provenance`), and the
combination over runs (`VaultRuns`). `Solvency` is about the funds of a vault, `SequentialRuns` embeds calls run
one after the other into overlapping ones, and `Races` holds overlapping calls that the code accepts and that
break the books, with runs from the start that reach them. `VaultStore` is the same system as mutable state,
statement by statement: each method is proved equal to the model's function, and the store is always where its
history of calls leads, so all books agree after each of them.

Three regimes are kept apart, because different things are true in them:

- every interleaving: the ledger explains the contributed total, nothing goes negative, history is only
  appended to, keys stay unique, rows are in their vault's currency;
- interleavings in which no two calls in flight update the same row: totals, version, audit replay and
  credit-once hold, and the defensive branches of the transactions are unreachable;
- sequential runs: commitments stay covered by what was ever confirmed.

What each call decides and stores is said once more without the model's own rules: `VaultDecisions`,
`ScholarshipDecisions` and `Logins` give, for every service call, who may make it, from which status it leads to which,
each refusal, and the whole state it leaves, on roles, statuses, amounts and columns alone. On these stand laws over
every interleaving: `Mandates` and `ScholarshipMandates` trace each row of the log and of the tables, each posting and
each link back to a call by somebody entitled to it, and show the way every payout has come.

*Scholarships.* `Scholarships` splits calls in the same two halves, `ScholarshipEffects` says what a commit
changes, `ScholarshipBalances` and `ScholarshipAwards` hold the invariants. Here too there are regimes:
`ScholarshipOverlaps` is about every interleaving (restrictions, currencies, keys, links), `ScholarshipRuns` about
interleavings in which, while a call that will overwrite a balance is in flight, no other one changes that balance,
its application or its award (balances, award pairing; rejections and disbursements may share a pool), and
`ScholarshipRaces` about exactly when an overtaken decision or award move keeps the books. `ScholarshipStore` is the
mutable state.

*Smaller machines.* `Reconciliation` (chain records with crashes and retries) and `RecordRuns` (the same with reading,
settling and writing back as separate steps among halves of other calls), `Sessions` and `SessionOverlaps` (the same
with the statements of a refresh interleaved), `RateLimiter`, `Credentials`, `Pagination`, `AuditSanitizer`.

Machine integers: `i64` arithmetic wraps as in a release build (`Int64.Wrap`), the limiter's `u32` counter
wraps, `usize` saturates where the code says so.

## Where the code does less than it seems

Each of these is proved, with the exact condition under which the expected behaviour returns.

- Contributed minus locked minus disbursed can go negative: a Reverse is checked against the gross total only
  (`Solvency.CallKeepsFundsIff`; `Races.OverdrawHappens` is a run that gets there).
- A commit compares the row with its target and nothing else, so overlapping calls on one row can break the
  books. A commit that changes anything keeps all of them if and only if its row still has the status that was read
  (`VaultRuns.RacedCommitKeepsBooksIff`), and the totals under the wider condition of
  `VaultRuns.CommitKeepsTotalsIff` (`Races.ConfirmAndFailRace`, `Races.ConfirmAndFailHappens`).
- Two approvals checked against the same snapshot can lock more than there is (`Races.TwoApprovalsOverdraw`); which
  commits keep a vault funded is `Solvency.CommitKeepsFundsIff`, and without a Reverse and without two approvals of
  one vault in flight all vaults stay funded (`Solvency.RunsWithoutRivalApprovalsStayFunded`).
- `docs/persistence.md:25` says that balance writes check the version; the workflow transactions do not
  (`crates/infrastructure/src/persistence/repos.rs:2538-2581`): no commit depends on a version
  (`Races.VersionsDoNotMatter`), so of two approvals that read one vault row the second is accepted although it finds
  another version (`Races.StaleVersionStillCommits`). The model follows the code.
- As the services' signatures go, `Fiat("USDC")` is stored and read back as `Usdc`, so replaying such a request
  would be a conflict (`Idempotency.ContributionReplayIff`, `Idempotency.PayoutReplayIff`). Every route parses its
  currency from text, which never yields that value, so replays through the API are always answered
  (`Idempotency.ParsedContributionReplays`, `Idempotency.ParsedPayoutReplays`).
- Revoking a revoked award is accepted and adds its amount again (`ScholarshipRuns.RevokedAgainPays`); it is the one
  call that breaks the conservation of a pool (`ScholarshipRuns.CallKeepsConservedIff`).
- A scholarship decision or award move writes a pool balance computed before its transaction. A decision keeps the
  balances explained if and only if the balance has not moved since it was read, and one award per application if and
  only if the application is still open (`ScholarshipRaces.RacedDecisionIff`). An award move always keeps awards
  paired; it keeps all books if and only if the balance has not moved and it is not a Disburse that overtakes a
  revocation of its award (`ScholarshipRaces.RacedMoveIff`). In that last case the balance can be explained while the
  log records the revocation of an award that is now Disbursed (`ScholarshipRaces.DisburseOvertakesRevocation`).
- Two refreshes of one token that both pass their checks leave two live sessions; a rotation keeps one if and only
  if no other session of the chain is live by then (`Sessions.RotationKeepsChainsIff`), and the INSERT of a refreshed
  session on its own if and only if none is (`Sessions.InsertKeepsChainsIff`).
- A chain record is written back as it was read, plus the answer, so a slow reconciliation can put a Confirmed record
  back to Submitted (`RecordRuns.LateWriteReopens`), though never to Failed while no two calls in flight update one
  row (`RecordRuns.OutcomesNeverFlip`). A commit parts records and contributions if and only if it contradicts the
  record of its row (`RecordRuns.CommitKeepsRecordsIff`), as an overlapping manual Fail does
  (`RecordRuns.OverlappingFailContradicts`).
- The audit flag `external_payout_reference_present` is always redacted, since its key contains
  "payout_reference" (`AuditSanitizer.ReferenceFlagIsHidden`).
- The limiter lets requests through again after its counter wraps at 2^32: a window passes at most twenty if and
  only if it holds fewer (`RateLimiter.TwentyPerWindowIff`).

## Model

| member | source | states |
|---|---|---|
| Money.RoundTripIffCanonical | crates/shared/src/currency.rs:11-36 | a stored currency reads back as itself exactly when it is USDC or a 3-byte code; only `Fiat("USDC")` changes |
| Money.ParsedIsCanonical | crates/infrastructure/src/persistence/repos.rs:2389-2393 | whatever the column yields is canonical and keeps its text |
| Money.AsciiCurrencies | crates/infrastructure/src/persistence/repos.rs:2389-2393 | of the ASCII texts exactly "USDC" and those of three characters are currencies |
| Text.TrimCuts | crates/application/src/scholarships.rs:587-592 | trimming cuts white space off both ends and nothing else |
| Payouts.FundsCheckExactIff | crates/domain/src/payouts.rs:133-145 | exactly when the wrapping funds check agrees with exact arithmetic |
| Effects.SettleIsExact | crates/infrastructure/src/persistence/repos.rs:875-966 | a settlement is a no-op, a failure that changes nothing, or exactly one row, total, ledger entry and audit row, with no wrapped value stored |
| Effects.ReviewIsExact | crates/infrastructure/src/persistence/repos.rs:1274-1368 | the same for payout reviews and the three totals |
| Effects.InsertContributionIsExact | crates/infrastructure/src/persistence/repos.rs:842-873 | a create adds one positive row of an existing vault under an unused id and key, or nothing |
| Effects.InsertPayoutIsExact | crates/infrastructure/src/persistence/repos.rs:1239-1272 | the same for payout requests |
| Effects.CommitIsAtomic | crates/infrastructure/src/persistence/repos.rs:842-966 | every transaction is all or nothing and keeps what the CHECKs demand |
| VaultStore.Store.WriteVault | crates/infrastructure/src/persistence/repos.rs:2538-2581 | the vault row gets the new totals and the next version, or nothing changes |
| VaultStore.Store.SettleWithAudit | crates/infrastructure/src/persistence/repos.rs:875-966 | the statements in order, with rollback, do what the transaction function says |
| VaultStore.Store.ApplySettlement | crates/infrastructure/src/persistence/repos.rs:916-959 | the total and the ledger entry of each target status, or the refusal or failure that rolls back |
| VaultStore.Store.TransitionWithAudit | crates/infrastructure/src/persistence/repos.rs:1274-1368 | likewise for payout reviews |
| VaultStore.Store.ApplyReview | crates/infrastructure/src/persistence/repos.rs:1321-1363 | the balance writes of each target status, or the refusal or failure that rolls back |
| VaultStore.Store.CreateIntentWithAudit | crates/infrastructure/src/persistence/repos.rs:842-873 | likewise for contribution inserts |
| VaultStore.Store.CreateRequestWithAudit | crates/infrastructure/src/persistence/repos.rs:1239-1272 | likewise for payout inserts |
| VaultStore.Store.ValidKeepsBooks | crates/infrastructure/src/persistence/repos.rs:842-1368 | the mutable tables satisfy all books after any history of service calls |
| VaultStore.Store.ValidKeepsKeys | crates/infrastructure/src/persistence/repos.rs:842-873 | and keep legal rows and unique keys |
| VaultStore.SettleContribution | crates/application/src/contributions.rs:226-270 | the service on mutable tables is the model's call and extends the store's history, so it keeps all books |
| VaultStore.RecordContributionIntent | crates/application/src/contributions.rs:74-136 | likewise, guards in source order before the key lookup |
| VaultStore.CreatePayoutRequest | crates/application/src/payouts.rs:77-162 | likewise, key lookup before vault, milestone, school and funds |
| VaultStore.ReviewTransition | crates/application/src/payouts.rs:380-464 | likewise for the six payout transitions |
| VaultDecisions.SettlementsBeginIff | crates/domain/src/contributions.rs:140-161 | only a platform administrator settles, Confirm and Fail exactly from Pending, Reverse exactly from Confirmed; at the target the row is the answer, and each refusal has its error |
| VaultDecisions.OthersSettleNothing | crates/application/src/contributions.rs:238 | anybody else is forbidden and changes nothing |
| VaultDecisions.ConfirmStores | crates/infrastructure/src/persistence/repos.rs:875-966 | the whole state a confirmation leaves: row with the given or old reference, total, posting with the stored reference, audit row; or the error when there is no room |
| VaultDecisions.ReverseStores | crates/infrastructure/src/persistence/repos.rs:875-966 | the same for a reversal, refused above the total |
| VaultDecisions.FailStores | crates/infrastructure/src/persistence/repos.rs:875-966 | the same for a failure, which touches no vault and no ledger |
| VaultDecisions.ReviewsBeginIff | crates/application/src/payouts.rs:402-430 | only a platform administrator reviews, exactly along the seven pairs, with an open milestone of the vault, a verified school where that is asked, and funds for an approval; each refusal has its error |
| VaultDecisions.OthersReviewNothing | crates/application/src/payouts.rs:398 | anybody else is forbidden and changes nothing |
| VaultDecisions.ReviewStores | crates/infrastructure/src/persistence/repos.rs:1274-1368 | the whole state each review leaves: row with given or old notes and reference and `reviewed_by`, balances, audit row naming the pair; or the error |
| VaultDecisions.IntentsAreRefused | crates/application/src/contributions.rs:87-103 | who may not record what, and with which error |
| VaultDecisions.IntentStores | crates/infrastructure/src/persistence/repos.rs:842-873 | the row a new intent leaves, column by column |
| VaultDecisions.UsedKeyAnswersIff | crates/application/src/contributions.rs:272-289 | a used key is answered exactly when vault, user, amount, currency and source are the same |
| VaultDecisions.RequestsBeginIff | crates/application/src/payouts.rs:93-133 | a request under a new key goes ahead exactly for the owner, with an open milestone of the vault, its currency, a verified school and enough funds; each refusal has its error |
| VaultDecisions.RequestStores | crates/infrastructure/src/persistence/repos.rs:1239-1272 | the row a new request leaves, column by column |
| VaultDecisions.UsedPayoutKeyAnswersIff | crates/application/src/payouts.rs:96-110 | a used payout key is answered exactly when the six compared fields are the same |
| Mandates.EveryRowWasCalledFor | crates/application/src/payouts.rs:380-464 | in every interleaving each audit row goes back to a call by somebody entitled, along a valid pair, with the school verified where that is asked |
| Mandates.NoStatusIsSkipped | crates/domain/src/payouts.rs:147-164 | in every interleaving an approval is logged from UnderReview only, a completion from Processing only, and so on for each status |
| Mandates.EveryPostingWasCalledFor | crates/infrastructure/src/persistence/repos.rs:907-956 | in every interleaving each ledger entry goes back to an administrator's Confirm or Reverse of that contribution |
| Mandates.EveryPayoutCameItsWay | crates/domain/src/payouts.rs:147-164 | without two calls on one row in flight, each payout has come to its status the one way there is, each step on record in order |
| VaultBooks.SettlementKeepsTotalsIff | crates/infrastructure/src/persistence/repos.rs:890-959 | an effective settlement keeps the totals right if and only if target and current status are compatible |
| VaultBooks.ReviewKeepsTotalsIff | crates/infrastructure/src/persistence/repos.rs:1289-1363 | the same for reviews, depending on whether a Fail found its lock |
| VaultBooks.ReverseIsCovered | crates/infrastructure/src/persistence/repos.rs:935-940 | while the totals are right, a Confirmed row is within the contributed total |
| VaultBooks.LockIsCovered | crates/infrastructure/src/persistence/repos.rs:1331-1358 | while the totals are right, a held payout is within the locked total |
| VaultBooks.SettlementKeepsVersions | crates/infrastructure/src/persistence/repos.rs:2538-2556 | a valid settlement keeps the closed form of `version` |
| VaultBooks.ReviewKeepsVersions | crates/infrastructure/src/persistence/repos.rs:2558-2581 | a valid review keeps the closed form of `version` |
| AuditTrail.EffectKeepsTrails | crates/application/src/contributions.rs:246-257 | the audit rows of each row stay a chained path of valid edges that ends at its status |
| AuditTrail.RankedChangesBounded | crates/domain/src/payouts.rs:147-164 | at most two status changes per contribution and four per payout |
| Ledger.CommitKeepsLedger | crates/infrastructure/src/persistence/repos.rs:898-959 | no transaction, raced or not, parts the ledger from the contributed total |
| Ledger.EveryRunKeepsLedger | crates/infrastructure/src/persistence/repos.rs:2617-2648 | in every interleaving contributed is its start plus confirmed minus reversed, and each `balance_after` is the non-negative running total |
| Ledger.RunsOnlyAdd | crates/infrastructure/src/persistence/repos.rs:1321-1363 | in every interleaving disbursed never falls, and ledger and audit log only grow |
| Ledger.SettlementKeepsCredits | crates/infrastructure/src/persistence/repos.rs:907-956 | along valid edges a contribution is credited once and debited at most once |
| VaultRuns.CommitKeepsBooks | crates/infrastructure/src/persistence/repos.rs:875-966 | a commit whose row did not move since its call began keeps every invariant at once |
| VaultRuns.ExclusiveRunsKeepBooks | crates/application/src/payouts.rs:380-464 | in every interleaving without two calls on one row, all books agree after every step |
| VaultRuns.ExclusiveRunsBalance | crates/infrastructure/src/persistence/repos.rs:1274-1368 | in those runs the three totals and the version are closed forms of the rows |
| VaultRuns.ExclusiveRunsReplay | crates/application/src/payouts.rs:402-450 | in those runs the audit log replays to the status of every row |
| VaultRuns.DefensiveBranchesUnreachable | crates/infrastructure/src/persistence/repos.rs:1331-1358 | in those runs no Reverse and no Complete is refused for its balance and a Fail releases exactly its lock |
| VaultRuns.CommitKeepsTotalsIff | crates/infrastructure/src/persistence/repos.rs:1289-1295 | with no assumption on overlap, which effective commits keep the totals |
| VaultRuns.CommitKeepsBooksIff | crates/infrastructure/src/persistence/repos.rs:890-966 | with no assumption on overlap, an effective commit keeps all books if and only if its row still has the status its call read |
| VaultRuns.RacedCommitKeepsBooksIff | crates/application/src/contributions.rs:226-270 | at any point of any run where the books agree, the same for the next commit, and the condition for the totals alone |
| SequentialRuns.PlayIsAnExclusiveRun | crates/application/src/contributions.rs:226-270 | calls run to their end one by one are an exclusive interleaving with the same result |
| Solvency.PlayKeepsBooks | crates/application/src/payouts.rs:380-464 | every sequential run keeps all books |
| Solvency.CallsLeaveOneTrace | crates/application/src/contributions.rs:240-269 | a call accepted through its transaction adds exactly its one audit row; any other changes nothing |
| Solvency.SequentialRunsStayCovered | crates/application/src/payouts.rs:422-429 | from vaults that start covered, locked plus disbursed stays within everything ever confirmed, and the funds subtraction within i64 |
| Solvency.SequentialUpdatesFit | crates/infrastructure/src/persistence/repos.rs:916-946 | in every sequential run no balance update leaves i64 while everything ever confirmed into the vault fits in it |
| Solvency.CallKeepsFundsIff | crates/infrastructure/src/persistence/repos.rs:935-946 | a call keeps every vault's available funds non-negative if and only if it is not a too-large Reverse |
| Solvency.CommitKeepsFundsIff | crates/infrastructure/src/persistence/repos.rs:1322-1330 | with no assumption on overlap, a commit keeps every vault funded if and only if it neither reverses nor approves more than is available by then |
| Solvency.RunsWithoutReverseStayFunded | crates/domain/src/payouts.rs:133-145 | runs without a Reverse never commit more than a vault holds |
| Solvency.RunsWithoutRivalApprovalsStayFunded | crates/application/src/payouts.rs:422-429 | interleavings without a Reverse and without two approvals of one vault in flight never commit more than a vault holds |
| Races.OverlapIsTwoCommits | crates/infrastructure/src/persistence/repos.rs:890-896 | two overlapping calls are two commits on the same snapshot's tickets |
| Races.ConfirmAndFailRace | crates/infrastructure/src/persistence/repos.rs:890-896 | overlapping Confirm and Fail leave a Failed row whose amount stays in the total |
| Races.ConfirmAndFailHappens | crates/infrastructure/src/persistence/repos.rs:890-896 | a run from tables without contributions that ends with wrong totals |
| Races.TwoApprovalsOverdraw | crates/application/src/payouts.rs:422-429 | overlapping approvals of two payouts lock more than is available |
| Races.VersionsDoNotMatter | crates/infrastructure/src/persistence/repos.rs:2538-2581 | with any other version numbers below the maximum a commit answers the same and leaves the same tables but for versions |
| Races.StaleVersionStillCommits | crates/application/src/payouts.rs:380-464 | of two affordable approvals that read one version of a vault row, the second commits against another version, and the totals stay right |
| Races.OverdrawHappens | crates/infrastructure/src/persistence/repos.rs:935-946 | a sequential run from tables without contributions that ends with a vault overdrawn |
| Provenance.EveryRunIsFair | crates/domain/src/contributions.rs:112-138 | in every interleaving each row was made by the owner or a listed contributor, and each payout by the owner, in the vault's currency |
| Idempotency.RunsKeepKeys | crates/infrastructure/src/persistence/repos.rs:842-873 | in every interleaving a key has at most one row and one creation record, and rows keep what they were created with |
| Idempotency.KeyIsSpent | crates/application/src/contributions.rs:105-108 | a used key is answered from its row or refused, and nothing changes |
| Idempotency.GuardStaysPassed | crates/domain/src/contributions.rs:123-138 | the checks before the lookup pass again after any run |
| Idempotency.ContributionReplayIff | crates/application/src/contributions.rs:272-289 | after any later run, whatever was in flight, replaying a create changes nothing and returns the same row if and only if its currency is canonical |
| Idempotency.ParsedContributionReplays | apps/api/src/routes/contributions.rs:105-114 | with a currency parsed from text the replay always returns the same row and changes nothing |
| Idempotency.ContributionKeyConflicts | crates/application/src/contributions.rs:272-289 | a different intent under the key is a conflict and changes nothing |
| Idempotency.PayoutReplayIff | crates/application/src/payouts.rs:96-110 | the same for payouts, whatever became of vault, milestone and school |
| Idempotency.ParsedPayoutReplays | apps/api/src/routes/payouts.rs:104-113 | the same for payouts |
| Idempotency.PayoutKeyIsSpent | crates/application/src/payouts.rs:96-110 | a used payout key is answered from its row or refused |
| Idempotency.PayoutKeyConflicts | crates/application/src/payouts.rs:96-110 | a payout request that differs from the key's row is a conflict and changes nothing, after any run |
| Reconciliation.CallKeepsOutcomes | crates/domain/src/contributions.rs:148-161 | no call undoes a settled outcome a chain record relies on |
| Reconciliation.RunsAgree | crates/application/src/blockchain.rs:287-370 | with crashes and manual settlements, record Confirmed means contribution Confirmed or Reversed, record Failed means Failed, and nothing is credited twice |
| Reconciliation.SettleTwice | crates/application/src/contributions.rs:240-269 | repeating a settlement changes nothing and answers the same |
| Reconciliation.RetryAfterCrash | crates/application/src/blockchain.rs:313-369 | a crash between settlement and record update is repaired by the retry |
| Reconciliation.SuccessIsRecordedIff | crates/application/src/blockchain.rs:323-337 | a success is recorded and settled as an administrator's confirmation exactly when the contribution is Pending (with room in its vault) or Confirmed, and changes nothing otherwise |
| Reconciliation.FailureIsRecordedIff | crates/application/src/blockchain.rs:338-358 | a final failure fails record (with its error code, no retry due) and contribution exactly when the contribution is Pending or Failed, and changes nothing otherwise |
| Reconciliation.OpenAnswersSettleNothing | crates/application/src/blockchain.rs:338-364 | retryable failures, pending and unknown answers move no money; a retryable failure leaves its code and a retry due, the others put the record back to Submitted |
| Reconciliation.SubmissionStores | crates/application/src/blockchain.rs:195-262 | a submission adds one Submitted record under a new key for a contribution without one, or changes nothing |
| RecordRuns.LateWritesAgree | crates/application/src/blockchain.rs:287-370 | in every interleaving of reading, settling and writing back records with halves of other calls, without two calls on one row: records agree with contributions, all books agree, nothing is credited twice |
| RecordRuns.OutcomesNeverFlip | crates/application/src/blockchain.rs:323-367 | in those runs a record once Confirmed is never Failed and one once Failed never Confirmed, however late it is written |
| RecordRuns.CommitKeepsRecordsIff | crates/infrastructure/src/persistence/repos.rs:890-966 | with no assumption on overlap, an effective commit keeps records and contributions in agreement if and only if it does not contradict the record of its row |
| RecordRuns.LateWriteReopens | crates/application/src/blockchain.rs:360-367 | a late "pending" puts a Confirmed record back to Submitted, the contribution stays Confirmed and the next success restores the record |
| RecordRuns.OverlappingFailContradicts | crates/application/src/contributions.rs:240-269 | a manual Fail begun before a reconciliation and committed after it leaves a Confirmed record of a Failed contribution |
| RecordRuns.StepsAreReconcile | crates/application/src/blockchain.rs:313-369 | with nothing in between, the steps are the reconciliation of the sequential model, whatever else is in flight |
| RecordRuns.FailureIsWrittenIff | crates/application/src/blockchain.rs:338-367 | the same for a final failure whatever else is in flight |
| Reconciliation.ReconcileContributionTransaction | crates/application/src/blockchain.rs:287-370 | the record changed field by field and written back last is the model's step, with the answer of each case; an error leaves all as it was |
| RateLimiter.Limiter.Check | apps/api/src/middleware/rate_limit.rs:53-69 | one request updates the store as the trace says and is limited when its count passes 20 |
| RateLimiter.KeysAreIndependent | apps/api/src/middleware/rate_limit.rs:59-69 | a key's stored window is the replay of its own requests alone |
| RateLimiter.ReplayCounts | apps/api/src/middleware/rate_limit.rs:61-68 | the window is that of its opening request, and the counter is the place in it modulo 2^32 |
| RateLimiter.AdmittedIff | apps/api/src/middleware/rate_limit.rs:67-68 | a request is let through exactly when its place modulo 2^32 is at most 20 |
| RateLimiter.DecisionIsOwn | apps/api/src/middleware/rate_limit.rs:53-69 | the answer in the shared store is the one the key's own history gives |
| RateLimiter.WindowPassesExactly | apps/api/src/middleware/rate_limit.rs:61-68 | exactly how many requests of a stretch of one window pass, wraps of the counter included |
| RateLimiter.QuotaClosedForm | apps/api/src/middleware/rate_limit.rs:67-68 | of the first n requests of a window 20 pass, and 21 more per wrap |
| RateLimiter.TwentyPerWindowIff | apps/api/src/middleware/rate_limit.rs:24-25 | a window passes at most 20 requests if and only if it holds fewer than 2^32 |
| RateLimiter.MinutePassesExactly | apps/api/src/middleware/rate_limit.rs:53-69 | exactly how many pass of any stretch of a key's requests that lies within 60 seconds, whether or not its instants are in order |
| RateLimiter.FortyPerMinute | apps/api/src/middleware/rate_limit.rs:24-25 | at most 40 of such a stretch, unless one of the windows it meets holds 2^32 requests |
| RateLimiter.FortyPerOrderedMinute | apps/api/src/middleware/rate_limit.rs:53-69 | when the instants are in order, the same for every 60-second interval |
| RateLimiter.SixtySeconds | apps/api/src/middleware/rate_limit.rs:60-65 | a new window opens exactly for a request more than 60 seconds after the opener of the last |
| RateLimiter.TwentyOfAWindow | apps/api/src/middleware/rate_limit.rs:53-69 | in the shared store the first 20 requests of a window are let through and the 21st and later are not, before the counter wraps |
| RateLimiter.FortyInNumbers | apps/api/src/middleware/rate_limit.rs:24-25 | at most 40 requests of a stretch within 60 seconds pass, in numbers |
| Sessions.StepKeepsChains | crates/application/src/auth.rs:93-195 | every call keeps at most one live session per rotation chain |
| Sessions.OneLiveSessionPerChain | crates/application/src/auth.rs:151-185 | in every sequential run from empty tables, two live sessions of one chain are the same |
| Sessions.RunsContinue | crates/infrastructure/src/auth/repo.rs:105-157 | sessions are never removed or rewritten and a revocation is never undone |
| Sessions.StaysRevoked | crates/infrastructure/src/auth/repo.rs:143-157 | a revoked session keeps its revocation through every run |
| Sessions.TokenWorksOnce | crates/application/src/auth.rs:162-185 | once a refresh has got past its checks the token is refused for ever |
| Sessions.RefreshHandsOn | crates/application/src/auth.rs:151-185 | a successful refresh leaves the new session as the only live one of the chain, for the same user |
| Sessions.RotationKeepsChainsIff | crates/application/src/auth.rs:179-184 | a rotation that comes any time after its checks, its statements back to back, keeps one live session per chain if and only if no other session of the chain is live by then |
| Sessions.InsertKeepsChainsIff | crates/infrastructure/src/auth/repo.rs:105-122 | the INSERT of a refreshed session, whatever came before it, does if and only if the chain has no live session |
| SessionOverlaps.EveryRunContinues | crates/infrastructure/src/auth/repo.rs:105-157 | in every interleaving of the statements of refreshes and of other calls, sessions are never removed or rewritten and revocations stand |
| SessionOverlaps.ExclusiveRunsKeepChains | crates/application/src/auth.rs:151-185 | in every interleaving without two refreshes of one chain in flight, chains stay single, and a chain whose refresh has revoked has no live session until its insert |
| SessionOverlaps.OneLiveSessionPerChain | crates/application/src/auth.rs:151-185 | from empty tables, two live sessions of one chain are the same in all those interleavings |
| SessionOverlaps.StatementsAreRefresh | crates/application/src/auth.rs:162-185 | the four statements with nothing in between are the refresh of the sequential model |
| Logins.RegistrationIff | crates/application/src/auth.rs:93-124 | who is registered and the whole state that leaves, or each refusal |
| Logins.LoginIff | crates/application/src/auth.rs:126-149 | a login succeeds exactly for a known address of an active user with that user's password, and the session is that user's; each refusal has its error |
| Logins.RefreshIff | crates/application/src/auth.rs:151-185 | a refresh succeeds exactly for the stored token of an open session of an active user; past the checks the old session ends in any case |
| Logins.LogoutEnds | crates/application/src/auth.rs:187-195 | a logout ends the named session and nothing else |
| Logins.RegisteredPasswordIsNeeded | crates/application/src/auth.rs:126-149 | after a registration and any later run the address logs in exactly with the registered password, to the registered user |
| Logins.EverySessionWasEarned | crates/application/src/auth.rs:93-185 | every session a run adds was handed out to its user by a registration, the right password or the stored token |
| Logins.AddressSpellings | crates/application/src/auth.rs:80-82 | all spellings of an address are one account |
| Sessions.OverlappingRefreshesFork | crates/application/src/auth.rs:162-184 | two refreshes of one token that both pass their checks are both answered and leave two live sessions |
| Sessions.AuthStore.StoreRefreshSession | crates/infrastructure/src/auth/repo.rs:105-122 | inserts one live session or fails on a used id |
| Sessions.AuthStore.RevokeRefreshSession | crates/infrastructure/src/auth/repo.rs:143-157 | sets `revoked_at` of an unrevoked session and nothing else |
| Sessions.AuthStore.RegisterUser | crates/application/src/auth.rs:93-124 | the model's step on mutable tables, keeping the chains |
| Sessions.AuthStore.LoginUser | crates/application/src/auth.rs:126-149 | likewise |
| Sessions.AuthStore.RefreshToken | crates/application/src/auth.rs:151-185 | likewise, revoking before the user is looked up |
| Sessions.AuthStore.LogoutToken | crates/application/src/auth.rs:187-195 | likewise |
| ScholarshipEffects.BegunIsCurrent | crates/application/src/scholarships.rs:115-550 | a validated call's ticket says of its rows what they are: open application, sufficient balance, valid edge, matching currency and restrictions |
| ScholarshipEffects.CommitIsExact | crates/infrastructure/src/persistence/repos.rs:1754-1980 | the transaction of a current ticket changes nothing or has exactly its effect in exact arithmetic |
| ScholarshipEffects.EffectKeepsLegal | migrations/0008_scholarship_backend.sql:30-45 | balances stay non-negative and rows refer to rows |
| ScholarshipDecisions.PoolStores | crates/application/src/scholarships.rs:115-162 | who creates a pool and the row it leaves, or each refusal |
| ScholarshipDecisions.DonationStores | crates/application/src/scholarships.rs:164-207 | the same for a donation: the balance grows by the amount, a key is used once |
| ScholarshipDecisions.ApplicationStores | crates/application/src/scholarships.rs:230-293 | the same for an application: a parent for its own child, a student for any, with every restriction met |
| ScholarshipDecisions.DecisionStores | crates/application/src/scholarships.rs:333-449 | the same for approvals and rejections, balance and award included |
| ScholarshipDecisions.DisburseStores | crates/application/src/scholarships.rs:451-500 | a Disburse stores the given payout as linked payout and the given vault as linked vault, leaves a missing one and the balance, or is refused |
| ScholarshipDecisions.RevokeStores | crates/application/src/scholarships.rs:502-550 | a Revoke keeps both links and puts the amount back, or is refused |
| ScholarshipMandates.EveryRowWasMandated | crates/application/src/scholarships.rs:115-550 | in every interleaving each pool, donation, application and award, each link in its place and each disbursal or revocation goes back to a call by somebody entitled who asked for just that |
| ScholarshipBalances.EffectKeepsBalances | crates/application/src/scholarships.rs:333-550 | every effect keeps each pool at donations minus live awards plus repeated revocations |
| ScholarshipBalances.RepeatsZeroIff | crates/domain/src/scholarships.rs:178-197 | repeated revocations add nothing exactly when there are none |
| ScholarshipRuns.ExclusiveRunsKeepBooks | crates/infrastructure/src/persistence/repos.rs:1787-1980 | all books agree after every step of every interleaving in which, while a call that will overwrite a balance is in flight, no other changes that balance, its application or its award |
| ScholarshipRuns.PlayIsAnExclusiveRun | crates/application/src/scholarships.rs:115-550 | calls run to their end one by one are such an interleaving with the same result |
| ScholarshipRuns.CallsLeaveOneTrace | crates/application/src/scholarships.rs:565-585 | an error changes nothing, an accepted call adds exactly one audit row |
| ScholarshipRuns.PoolConservedIff | crates/application/src/scholarships.rs:502-550 | in those runs a pool equals donations minus Approved and Disbursed awards if and only if no award was revoked again; it is never less and never negative |
| ScholarshipRuns.RevokedAgainPays | crates/application/src/scholarships.rs:527-547 | a second revocation is accepted and adds the award's amount to the pool once more |
| ScholarshipRuns.CallKeepsConservedIff | crates/domain/src/scholarships.rs:178-197 | a call keeps a conserved pool conserved if and only if it does not revoke an already Revoked award of it |
| ScholarshipRuns.AwardsPairWithDecisions | crates/application/src/scholarships.rs:333-449 | in those runs at most one award per application, one exactly when it is decided, with matching outcome |
| ScholarshipAwards.CheckMatchesStoredIff | crates/domain/src/scholarships.rs:144-176 | the check on trimmed raw answers agrees with equality on the stored fields |
| ScholarshipAwards.DecisionKeepsPairsIff | crates/domain/src/scholarships.rs:199-210 | writing a decision keeps awards and applications paired if and only if the application is still open to review |
| ScholarshipOverlaps.CommitIsWritten | crates/infrastructure/src/persistence/repos.rs:1865-1980 | raced or not, a transaction changes nothing or writes its balance, rows and audit row |
| ScholarshipOverlaps.RunsAreSound | crates/infrastructure/src/persistence/repos.rs:1754-1980 | from any sound state every interleaving keeps rows, their links and the four facts below |
| ScholarshipOverlaps.EveryRunIsSound | crates/application/src/scholarships.rs:115-550 | in every interleaving applications match their pools, currencies agree, donation keys are unique and Disbursed awards are linked |
| ScholarshipOverlaps.ApplicationsMatchTheirPools | crates/application/src/scholarships.rs:230-293 | every stored application equals its pool's restrictions field by field, in every interleaving |
| ScholarshipOverlaps.DisbursedStaysLinked | crates/infrastructure/src/persistence/repos.rs:1936-1952 | every Disbursed award has a payout or vault linked, also after repeated or overlapping calls |
| ScholarshipOverlaps.PoolsHoldOneCurrency | crates/domain/src/scholarships.rs:90-99 | donations and granted awards are in their pool's currency and no key was donated under twice, in every interleaving |
| ScholarshipRaces.RacedDecisionIff | crates/application/src/scholarships.rs:353-390 | a decision that commits at any later point keeps all balances explained if and only if the balance it read has not moved, awards paired if and only if the application is still open, and all books if and only if both |
| ScholarshipRaces.RacedMoveIff | crates/application/src/scholarships.rs:451-550 | a Disburse or Revoke that commits at any later point keeps awards paired, and all books if and only if the balance has not moved and it is not a Disburse that overtakes a revocation |
| ScholarshipRaces.DisburseOvertakesRevocation | crates/infrastructure/src/persistence/repos.rs:1926-1980 | a Disburse committed after a Revoke of its award leaves the pool's balance explained and the log at odds with the award |
| ScholarshipRaces.OverlappingDecisionsLoseTheFirst | crates/infrastructure/src/persistence/repos.rs:1865-1924 | of two overlapping decisions on one pool the first deduction is lost: the books survive if and only if it was a rejection |
| ScholarshipRaces.SameApplicationDecidedTwice | crates/infrastructure/src/persistence/repos.rs:1874-1885 | two overlapping decisions of one application are both accepted and leave two awards |
| ScholarshipRaces.OverlappingDonationIsLost | crates/infrastructure/src/persistence/repos.rs:1887-1898 | a donation committed between a decision's halves leaves the pool short by exactly its amount |
| ScholarshipStore.Store.CreatePoolWithAudit | crates/infrastructure/src/persistence/repos.rs:1754-1785 | the statements in order, with the foreign key on the school, do what the transaction function says |
| ScholarshipStore.Store.CreateApplicationWithAudit | crates/infrastructure/src/persistence/repos.rs:1833-1863 | likewise |
| ScholarshipStore.Store.FundPoolWithAudit | crates/infrastructure/src/persistence/repos.rs:1787-1831 | the statements in order, with rollback, do what the transaction function says |
| ScholarshipStore.Store.DecideApplicationWithAudit | crates/infrastructure/src/persistence/repos.rs:1865-1924 | likewise |
| ScholarshipStore.Store.TransitionAwardWithAudit | crates/infrastructure/src/persistence/repos.rs:1926-1980 | likewise |
| ScholarshipStore.Store.ValidKeepsBooks | crates/infrastructure/src/persistence/repos.rs:1754-1980 | the mutable tables satisfy all scholarship books after any history of service calls |
| ScholarshipStore.CreateScholarshipPool | crates/application/src/scholarships.rs:115-162 | the service on mutable tables is the model's call and extends the store's history, so it keeps all books |
| ScholarshipStore.FundScholarshipPool | crates/application/src/scholarships.rs:164-207 | likewise |
| ScholarshipStore.CreateScholarshipApplication | crates/application/src/scholarships.rs:230-293 | likewise |
| ScholarshipStore.ApproveApplication | crates/application/src/scholarships.rs:333-393 | likewise |
| ScholarshipStore.RejectApplication | crates/application/src/scholarships.rs:395-449 | likewise |
| ScholarshipStore.DisburseAward | crates/application/src/scholarships.rs:451-500 | likewise |
| ScholarshipStore.RevokeAward | crates/application/src/scholarships.rs:502-550 | likewise |
| Credentials.Sort | crates/application/src/credentials.rs:171-176 | the same rows, in non-increasing key order |
| Credentials.SortIsStable | crates/application/src/credentials.rs:171-176 | rows with equal keys keep their order |
| Credentials.DedupIdentityIff | crates/application/src/credentials.rs:177 | deduplication changes a list if and only if two neighbours share an id |
| Credentials.MergeByChild | crates/application/src/credentials.rs:139-145 | the loop collects each credential of the given children once |
| Credentials.RecentAreNewest | crates/infrastructure/src/persistence/repos.rs:1688-1706 | the capped list holds distinct rows, none older than an unlisted one |
| Credentials.FetchCredentials | crates/application/src/credentials.rs:127-169 | the rows by role and filter, and which filters are refused with what |
| Credentials.ListCredentials | crates/application/src/credentials.rs:117-180 | newest achievement first, each once, and exactly the rows the user may see and asked for, which are those `get_credential` returns; for an unfiltered administrator the newest 200 |
| Credentials.GetCredentialIff | crates/application/src/credentials.rs:182-214 | a credential is handed out exactly to an administrator, its recipient, its issuing school or the parent of its child; the others get NotFound or Forbidden |
| Credentials.RefusalIff | crates/application/src/credentials.rs:127-169 | exactly which lists are refused, and with what |
| Credentials.AgreesIff | crates/application/src/credentials.rs:127-169 | agreement with `get_credential` is the same as being the visible rows the filter asks for |
| Pagination.NormalizeAcceptsIff | apps/api/src/api.rs:56-71 | accepted exactly for page >= 1 and 1..100 per page, and given numbers are never rewritten |
| Pagination.NormalizeDefaults | apps/api/src/api.rs:56-71 | page 1 and 20 per page where no number is given, and the field a fault names |
| Pagination.PageHolds | apps/api/src/api.rs:93-117 | item by item what a page holds, and the numbers beside it |
| Pagination.SaturationIsInvisible | apps/api/src/api.rs:100-101 | the saturating start gives the same page as unbounded arithmetic |
| Pagination.TotalPagesIsLeast | apps/api/src/api.rs:99 | `total_pages` is the least number of pages that holds every item |
| Pagination.PagesGiveBackTheList | apps/api/src/api.rs:93-117 | pages 1 to `total_pages` joined are the list |
| Pagination.EmptyIffPastTheEnd | apps/api/src/api.rs:93-117 | a page is empty exactly when its number is past `total_pages` |
| Pagination.EarlierPagesAreFull | apps/api/src/api.rs:93-117 | every page before the last is full |
| AuditSanitizer.SanitizedPlaces | crates/infrastructure/src/persistence/repos.rs:2435-2454 | at every path: the redaction mark at a first sensitive key, nothing below it, the sanitised original elsewhere |
| AuditSanitizer.SanitizedShape | crates/infrastructure/src/persistence/repos.rs:2435-2454 | keys, array lengths and plain values outside secrets are kept |
| AuditSanitizer.SanitizedIsClean | crates/infrastructure/src/persistence/repos.rs:2435-2467 | no sensitive key stays unredacted at any depth |
| AuditSanitizer.IdentityIffClean | crates/infrastructure/src/persistence/repos.rs:2435-2467 | sanitising changes a value exactly when some sensitive key is unredacted |
| AuditSanitizer.SanitizeIsIdempotent | crates/infrastructure/src/persistence/repos.rs:2435-2467 | sanitising twice is sanitising once |
| AuditSanitizer.IdentityWithoutSensitiveKeys | crates/infrastructure/src/persistence/repos.rs:2456-2467 | values without sensitive keys are untouched |
| AuditSanitizer.SensitiveIff | crates/infrastructure/src/persistence/repos.rs:2456-2467 | a key is sensitive exactly when it has one of the six words in it or is one of the three names, in any letter case |
| AuditSanitizer.FieldIsRedactedIff | crates/infrastructure/src/persistence/repos.rs:2435-2454 | the value under such a key becomes "[REDACTED]", that of any other field is sanitised in turn |
| AuditSanitizer.HidesExactlySecrets | crates/infrastructure/src/persistence/repos.rs:2435-2467 | two values are logged alike if and only if they differ only below sensitive keys |
| AuditSanitizer.ReferenceFlagIsHidden | crates/application/src/payouts.rs:441-450 | the review flag about the payout reference never reaches the log |
| AuditSanitizer.StatusesAreKept | crates/application/src/payouts.rs:441-450 | the two statuses of a review are logged as they are |

## Left out

- HTTP routes, extractors, DTOs, header parsing, configuration, telemetry: plumbing. The limiter's key and the pages' query numbers arrive as values.
- SQL text and row mapping: tables are maps; a transaction holding its row locks is one step. Deadlocks, lost connections and failed reads are not modelled; a call can be abandoned before its transaction.
- Argon2, JWT and SHA-256: tokens are signed records, a stored hash matches exactly the token it was made from, and decoding (with its clock leeway) is the `decodes` flag. Passwords are compared as text.
- Email verification, MFA hooks and wallet provisioning: single-row updates that no proved property depends on.
- The Stellar and Soroban adapter: what a status lookup and a submission answer is an input of the reconciliation steps; the contract reference lookup and the stored hash reference of a submission are not modelled.
- Milestones, schools, child profiles, savings plans, KYC, notifications: single-step CRUD. What the milestone, school and child tables answer is an input of the calls that ask them; existence of a school (`schoolExists`) or of a linked payout and vault (`linksExist`) is an input of the statements whose foreign keys need it.
- `update_balances` and the bare status updates of the repositories: no service calls them.
- Audit rows carry the fields that the proofs use (row, actor, the two statuses, key, amount); action text and other metadata appear only in `AuditSanitizer`.
- Award decision notes, descriptions and time stamps: stored as given and never read by a rule. Closing a pool is an action of the environment, since no service does it.
- UUIDs are arbitrary ids and a clash is the primary-key failure.
- The limiter's clock: an instant is taken before the map is locked (`apps/api/src/middleware/rate_limit.rs:53-56`), so the order in which requests are stored can differ from the order of their instants, and the requests of a real-time minute need not be one stretch of the stored order. `TwentyPerWindowIff` bounds every window and `FortyPerMinute` every stretch within 60 seconds without an order; only `FortyPerOrderedMinute` assumes one.
- `issue_credential`: one insert behind simple guards.
- Credentials.ListCredentials: the queries of one call see one snapshot of the tables; ties of ORDER BY fall in table order, which is arbitrary.
