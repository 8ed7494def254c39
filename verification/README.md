# Verified model of the payments and compliance backend

A Dafny model of the parts of the backend where money, documents and permissions change hands, with proofs of what
they keep. Everything is checked by `dafny verify dfyconfig.toml`; nothing here runs the original services.

Tables are maps or sequences, money is integer cents, rates and percentages are exact reals. External failures
(Storage, Bridge, the identity provider, single row updates), clocks and random tokens are parameters. Each service
call is one atomic step, except the acceptance of an invitation, which is split into its read and its update, and the
identity verification of an application, which is split into its start and its end. Services that change rows are
classes whose methods are proved equal to a specification function of the state; the properties are lemmas about
those functions and about whole runs of them.

| files | what they model |
|---|---|
| `Wrappers`, `Text`, `Sequences`, `Rounding` | options and results, trimming and case, filtering, JavaScript's rounding |
| `FixedOutput`, `FeeRules` | quoting a fixed delivered amount: fee formula, closed-form seed, two bounded searches, inverse quote |
| `FeeOverrides` | client fee overrides, fee resolution, previews |
| `ExchangeRates`, `RateArithmetic` | the rate synchronisation cycle with its snapshot cache, spreads, truncation, conversions |
| `StableJson`, `OnboardingDraft` | the canonical JSON printer, sanitising and saving of onboarding drafts |
| `Documents`, `UboConsolidation`, `DocumentStore` | onboarding documents and their storage objects, beneficial-owner rows and their merge |
| `AssociatedPersons`, `PersonSync` | the submission gate, the list of associated persons, its synchronisation with Bridge |
| `InvitationThrottle`, `Invitations` | the mail limiter and the life of an invitation |
| `DiditChecks`, `DiditRuns`, `DiditService` | identity checks, fingerprints, reuse of earlier results, verdicts |
| `Payouts`, `Ledger`, `Reconciliation` | payout reservations, the ledger and its balance trigger, the reconciliation report |

## Where the code and its description differ

These are results: the code is modelled as it is, a concrete input shows the difference, and the exact condition under
which the described behaviour holds is proved.

- The step caps of the Fixed Outputs search are real: a minimum fee far above the nominal fee leaves the quote short
  (`StepCapCanUnderDeliver`, exact condition `StepCapExact`), and without limits the closed form already covers
  except on an exact half-cent tie (`HalfCentSeedFallsShort`, exact condition `SeedCoversIff`).
- `exchange-rates.service.ts:310-315` says compared rates are always truncated alike. The anchor averages are raw, and
  the rate column holds six decimals, so a cycle can announce what it did not store and store other cross rates
  (`UnroundedAnchorDiverges`; exact conditions, over whole cycles: `CycleCoherentIff` for the cache and the
  notifications, `CycleRefinesPlainIff` for the table).
- The spread is said to work against the client always; the two-decimal truncation of the anchor can undo it
  (`AnchorCanFavourClient`, exact condition `SpreadAgainstClientIff`).
- A reopened invitation is said to retire the old link. The update of an acceptance only asks for a pending row, so an
  acceptance that read before the reopening still succeeds (`OldLinkAccepted`, exact condition
  `TokenCurrentIffNotReopened`).
- An access is meant to end when the owner revokes it. An acceptance that found the invitation expired marks the row
  so whatever became of it, and can end an access granted since (`LateExpiryEndsAccess`, `LateExpiryWithoutReopening`;
  exact condition `AccessLastsIff`, and when such an acceptance meets an active row `LateMeetsActiveIff`).
- Equal fingerprints are said to mean that the provider would receive exactly the same. Letter case and surrounding
  blanks are dropped from the fingerprint but sent (`CaseIsNotFingerprinted`, `BlanksAreNotFingerprinted`); up to
  letter case the exact condition, check by check, is `SameCallIff`.
- The reservation of a payout is not checked for errors (`CreateKeepsInvIff`), and a settled debit spends reserved
  money whoever reserved it (`ManualDebitFreesMoneyTwice`, exact condition `LedgerKeepsInvIff`).
- A confirmed transfer is said to settle the payout's pending entry. The entry is written with Bridge's transfer id
  (`bridge.service.ts:1206`) and looked for under the id of the local transfer row (`webhooks.service.ts:3126`). As the
  code is written these two ids never coincide: the payout is completed and its money stays reserved
  (`UnfoundDebitStaysReserved`). Whether the entry is found is a parameter of the model, so that the intended case is
  covered too; the exact condition is `CompleteKeepsInvIff`.
- A failed transfer is guarded against a release after completion, not against a second failure report, which releases
  the money of another payout (`FailedTwiceReleasesTwice`, exact condition `FailKeepsInvIff`).
- The balance trigger writes a first debit of an account without reducing what is available
  (`FirstDebitOverstatesAvailable`, exact condition `PostKeepsSplitIff`).
- The reconciliation compares one wallet with a balance that sums all wallets of the user (`ReportedIff`).
- The submission gate skips a beneficial owner linked to a director, also when that director belongs to another
  business, which nothing prevents (`ForeignLinkExample`, exact condition of the abort `ForeignLinkAborts`).
- A person without a stored Bridge id can adopt the remote person whose id a later row stores. Within one table the
  unique index refuses the second row and the call aborts (`SameTableNeverShare`); a director and an owner end up
  sharing it (`StoredIdCanBeTaken`, exact condition, decided before the call, `OwnRemoteIff`).

## Model

| member | source | states |
|---|---|---|
| FeeRules.ComputeFee | src/application/payment-orders/fiat-us-fixed-output.ts:64-81 | the fee is the clamped, rounded fee of the rule on whole cents, zero without a rule |
| FeeRules.FeeIs | src/application/payment-orders/fiat-us-fixed-output.ts:64-81 | the fee is the rounded percentage, the rounded fixed part, or both by type, unless a positive minimum is above it or a positive maximum below; the maximum wins |
| FeeRules.FeeGrowth | src/application/fees/fees.service.ts:723-743 | for percentages of 0 to 100 the fee never decreases and grows at most one cent per cent of amount |
| FeeRules.FeeNonNegative | src/application/payment-orders/fiat-us-fixed-output.ts:64-81 | the fee of a non-negative amount is not negative |
| FixedOutput.CalculateFixedOutputAmounts | src/application/payment-orders/fiat-us-fixed-output.ts:116-162 | the two bounded searches end at the globally least covering debit, or at the step cap on its side of the closed form; the other amounts follow from that debit; invalid input is an error |
| FixedOutput.CoversIffAtLeast | src/application/payment-orders/fiat-us-fixed-output.ts:131-145 | every debit from the least covering one on covers, none below does |
| FixedOutput.SeedAtLeastRequired | src/application/payment-orders/fiat-us-fixed-output.ts:124-130 | the closed form is never below the net amount required |
| FixedOutput.SeedCoversIff | src/application/payment-orders/fiat-us-fixed-output.ts:127-136 | without minimum or maximum fee the closed form covers exactly when there is no half-cent tie |
| FixedOutput.AboveSeedCovers | src/application/payment-orders/fiat-us-fixed-output.ts:127-136 | one cent above the closed form always covers when no limit applies |
| FixedOutput.DownwardStepBound | src/application/payment-orders/fiat-us-fixed-output.ts:137-145 | without limits the downward search takes fewer than 1 + 1/(1 - p) steps, within the cap up to 99.998 % |
| FixedOutput.LeastWithLimits | src/application/payment-orders/fiat-us-fixed-output.ts:76-80 | the least covering debit with minimum and maximum fee, from the one without |
| FixedOutput.CoverableIff | src/application/payment-orders/fiat-us-fixed-output.ts:131-145 | some debit covers exactly when the fee takes less than everything or is capped |
| FixedOutput.StepCapExact | src/application/payment-orders/fiat-us-fixed-output.ts:131-145 | up to 99.998 % the cap is enough exactly when neither limit is too far from the nominal fee |
| FixedOutput.StepCapCanUnderDeliver | src/application/payment-orders/fiat-us-fixed-output.ts:131-136 | a minimum fee of 2000.00 on a one-cent target exhausts the cap |
| FixedOutput.HalfCentSeedFallsShort | src/application/payment-orders/fiat-us-fixed-output.ts:127-130 | a half-cent tie where the closed form falls short |
| FixedOutput.Adjoint | src/application/payment-orders/fiat-us-fixed-output.ts:93-100 | a debit guarantees at least D exactly when it is at least the least debit covering D |
| FixedOutput.BackwardThenForward | src/application/payment-orders/fiat-us-fixed-output.ts:93-162 | quoting what a debit guarantees never asks for a larger debit and delivers the same |
| FixedOutput.DestinationMonotone | src/application/payment-orders/fiat-us-fixed-output.ts:93-100 | a larger debit never guarantees less |
| FixedOutput.FxBufferNonNegative | src/application/payment-orders/fiat-us-fixed-output.ts:84-90 | a covering quote at a rate no better than Bridge's never asks for less than Bridge's minimum |
| FixedOutput.BridgeMinIsLeast | src/application/payment-orders/fiat-us-fixed-output.ts:84-90 | Bridge's minimum is the least number of cents that covers the target at its rate and the fee |
| FeeOverrides.RunKeepsInv | src/application/fees/fees.service.ts:233-269 | no run of create, update, delete and init gives a client two active overrides of one operation, rail and currency |
| FeeOverrides.ResolutionIs | src/application/fees/fees.service.ts:690-720 | in every reachable state the override in force applies, else the active global rule; free of charge only when there is neither |
| FeeOverrides.CreatedApplies | src/application/fees/fees.service.ts:233-269 | a created override applies from its first to its last day, however rail and currency are written |
| FeeOverrides.CreateEffect | src/application/fees/fees.service.ts:215-288 | a creation is refused exactly when an active override of the client, operation, rail and currency is there; otherwise one active row is added, from today when no first day is given |
| FeeOverrides.DuplicateGlobalsChargeNothing | src/application/fees/fees.service.ts:705-720 | two active global rules of one key would hide each other, so their uniqueness is needed |
| FeeOverrides.InitTwice | src/application/fees/fees.service.ts:756-852 | afterwards every configured rail and currency has an override, earlier ones are untouched, a second call creates none |
| FeeOverrides.NewOverrideIs | src/application/fees/fees.service.ts:756-852 | an added override is inactive and blank and stands for a global rule of the operation whose rail and currency had no override of the client |
| FeeOverrides.DuplicateGlobalsGiveTwo | src/application/fees/fees.service.ts:756-852 | two global rules of one key give a client two inactive overrides of it |
| FeeOverrides.FeePlusNetIff | src/application/fees/fees.service.ts:718-748 | fee and net add up to the amount exactly when no rule applies or the amount is whole cents |
| FeeOverrides.ChargedIs | src/application/fees/fees.service.ts:718-748 | without a rule nothing is charged; with one, its fee on the nearest whole cents |
| FeeOverrides.FeeOfGrowth | src/application/fees/fees.service.ts:723-748 | neither fee nor net decreases when the amount grows |
| FeeOverrides.FeesService.CreateOverride | src/application/fees/fees.service.ts:215-288 | conflict on an active override of the normalised key, otherwise one new active row |
| FeeOverrides.FeesService.UpdateOverride | src/application/fees/fees.service.ts:295-365 | the row with this id is patched and every other is unchanged; refused exactly when there is none, or when it would activate a second override of its key |
| FeeOverrides.FeesService.DeleteOverride | src/application/fees/fees.service.ts:373-395 | the row with this id is gone and every other still there, in order; refused exactly when there is none |
| FeeOverrides.FeesService.InitOperationOverrides | src/application/fees/fees.service.ts:756-852 | earlier overrides stay; what is added are inactive blank overrides of configured keys that had none, one per such global rule, and their number is returned |
| FeeOverrides.FeesService.CalculateFee | src/application/fees/fees.service.ts:679-749 | fee and net of the rule that applies |
| FeeOverrides.FeesService.PreviewFee | src/application/fees/fees.service.ts:420-510 | the preview shows what would be charged and whether a client override applies |
| FeeOverrides.FeesService.AssertFeeConfigured | src/application/fees/fees.service.ts:631-672 | passes exactly when a calculation would not take the silent zero-fee path |
| ExchangeRates.RateSync.UpdateRateInternal | src/application/exchange-rates/exchange-rates.service.ts:295-404 | one pair: read from the cache, skip or write, refresh the cache, add a notification |
| ExchangeRates.RateSync.SyncBridgeCrossRates | src/application/exchange-rates/exchange-rates.service.ts:235-290 | the cross rates of every quoted currency, from the anchors |
| ExchangeRates.RateSync.SyncExternalRates | src/application/exchange-rates/exchange-rates.service.ts:160-228 | the whole cycle, and nothing at all when the averages are missing |
| ExchangeRates.StoredFixpoints | src/application/exchange-rates/exchange-rates.service.ts:78-82 | truncated cross rates fit the six-decimal rate column |
| ExchangeRates.UpdateCoherentIff | src/application/exchange-rates/exchange-rates.service.ts:303-383 | an update leaves the table as an unconditional write would, and keeps the cache true exactly when nothing was written or the rate fits the column |
| ExchangeRates.CycleCoherentIff | src/application/exchange-rates/exchange-rates.service.ts:182-383 | after a whole cycle the cache, and equally every notification, matches the table exactly when each anchor has no row, is not written, or averages to a value the column holds |
| ExchangeRates.CycleRefinesPlain | src/application/exchange-rates/exchange-rates.service.ts:182-383 | with averages that fit the column, or anchors that are absent or fail to be written, the cached cycle leaves the table of the cycle that re-reads and always writes; cache and every notification match it, whatever fails |
| ExchangeRates.CycleRefinesPlainIff | src/application/exchange-rates/exchange-rates.service.ts:182-383 | the two cycles leave the same table exactly when, for each quoted currency whose rows are written, the raw and the stored anchors truncate to the same cross rates |
| ExchangeRates.UnroundedAnchorDiverges | src/application/exchange-rates/exchange-rates.service.ts:182-205 | with an average of 20/3 the two cycles differ |
| RateArithmetic.TruncateBounds | src/application/exchange-rates/exchange-rates.service.ts:78-82 | truncation never raises a non-negative value nor makes it negative |
| RateArithmetic.EntriesArePriced | src/application/exchange-rates/exchange-rates.service.ts:434-441 | the effective rate is the greatest whole number of steps, hundredths for the anchors and millionths otherwise, up to the base times (100 + spread) hundredths out of BOB, (100 - spread) otherwise |
| RateArithmetic.UpdateIsPriced | src/application/exchange-rates/exchange-rates.service.ts:119-132 | a notification carries the new rate under the pair's own spread, and the effective rate that follows from them |
| RateArithmetic.CycleIsPriced | src/application/exchange-rates/exchange-rates.service.ts:182-383 | so is every rate a whole cycle caches or announces |
| RateArithmetic.LiveRateIs | src/application/exchange-rates/exchange-rates.service.ts:466-495 | the live rate is Bridge's sell rate cut to the pair's precision, the client's is that rate times (100 - spread) hundredths, cut again |
| RateArithmetic.LiveRateAtMostBridge | src/application/exchange-rates/exchange-rates.service.ts:466-495 | the live rate is at most Bridge's sell rate |
| RateArithmetic.LiveQuoteBuffer | src/application/exchange-rates/exchange-rates.service.ts:466-495 | a covering quote at the live rate is at least Bridge's minimum |
| RateArithmetic.ConvertIs | src/application/exchange-rates/exchange-rates.service.ts:554-585 | an amount out of BOB is divided by the effective rate, any other multiplied, to the nearest cent; it fails exactly on a rate of zero |
| RateArithmetic.SpreadAgainstClientIff | src/application/exchange-rates/exchange-rates.service.ts:434-441 | buying, the rate with spread is no better than the base exactly when a whole precision step lies between them |
| RateArithmetic.SellSpreadAgainstClient | src/application/exchange-rates/exchange-rates.service.ts:434-441 | selling, the rate with spread is never better than the base |
| RateArithmetic.AnchorCanFavourClient | src/application/exchange-rates/exchange-rates.service.ts:78-82 | a base of 6.999 without spread is quoted at less |
| RateArithmetic.CrossRatesOrdered | src/application/exchange-rates/exchange-rates.service.ts:264-276 | the rate back into BOB is at most the rate out of it |
| RateArithmetic.BoundedRoundTrip | src/application/exchange-rates/exchange-rates.service.ts:554-585 | changing BOB into a currency and back gains at most the two roundings |
| RateArithmetic.CycleDerivesCross | src/application/exchange-rates/exchange-rates.service.ts:235-282 | after a cycle the rows of a quoted currency carry its quote, and the cross rates in the table derive from the anchor values it used, and the table holds these rounded to its column |
| RateArithmetic.CycleRoundTrip | src/application/exchange-rates/exchange-rates.service.ts:554-585 | the round-trip bound holds for the rates any cycle leaves, also with averages the column rounds |
| StableJson.CanonicalPrinter | src/application/onboarding/onboarding-draft.service.ts:449-457 | two JSON values print alike exactly when they are equal up to the order of object keys |
| StableJson.StringifyInjective | src/application/onboarding/onboarding-draft.service.ts:449-457 | a printed text determines the value |
| StableJson.UndefinedElementIsLost | src/application/onboarding/onboarding-draft.service.ts:449-457 | outside JSON, an undefined array element prints like an empty array |
| OnboardingDraft.SanitizeValue | src/application/onboarding/onboarding-draft.service.ts:419-447 | the loop over entries computes the sanitised value |
| OnboardingDraft.SanitizeFits | src/application/onboarding/onboarding-draft.service.ts:419-447 | a sanitised value keeps all limits on depth, size, keys and lengths |
| OnboardingDraft.SanitizedIs | src/application/onboarding/onboarding-draft.service.ts:419-447 | texts keep their first 5000 characters, lists their first 50 items, objects their first 200 entries with a safe key and a defined value, nothing below four levels |
| OnboardingDraft.SanitizeFixpoints | src/application/onboarding/onboarding-draft.service.ts:419-447 | sanitising changes nothing exactly on values within the limits, so twice is once |
| OnboardingDraft.SanitizeIsJson | src/application/onboarding/onboarding-draft.service.ts:419-447 | what is stored is a JSON value |
| OnboardingDraft.MissingRoundTrip | src/application/onboarding/onboarding-draft.service.ts:373-388 | a cleaned missing-field entry written out and cleaned again is itself |
| OnboardingDraft.CleanMissingIs | src/application/onboarding/onboarding-draft.service.ts:373-388 | an entry is kept exactly when its key is proper; its other parts are cut, or fall back when they are of another type |
| OnboardingDraft.DraftTable.SaveDraft | src/application/onboarding/onboarding-draft.service.ts:117-173 | saving says unchanged exactly when the cleaned request equals the stored draft up to key order, and then writes nothing; errors write nothing |
| OnboardingDraft.ResavingChangesNothing | src/application/onboarding/onboarding-draft.service.ts:134-148 | sending a stored draft back, keys in any order, is accepted and unchanged |
| Documents.ReplaceEffect | src/application/onboarding/onboarding.service.ts:1367-1395 | whatever fails, replaced documents stop being pending and others are untouched; without failures replaced drafts are gone with their objects |
| Documents.ReplaceExactly | src/application/onboarding/onboarding.service.ts:1367-1395 | a replaced draft loses its row exactly when neither removal fails, and is superseded otherwise, as a submitted document is |
| Documents.HardDeleteKeeps | src/application/onboarding/onboarding-draft.service.ts:278-297 | deleting drafts, even half-way, leaves no object without a row and no submitted document harmed |
| Documents.UploadKeepsInv | src/application/onboarding/onboarding.service.ts:1236-1360 | an upload makes its document the one pending document of its slot; every failure keeps the table and the bucket sound |
| Documents.UploadEffect | src/application/onboarding/onboarding.service.ts:1236-1360 | refused exactly for a draft key of somebody without a row who is no beneficial owner; otherwise the new draft takes the place of the pending document of the same person, key and type, and every other document is as it was |
| Documents.ClaimKeepsInv | src/application/onboarding/onboarding.service.ts:1403-1454 | claimed documents become the one pending document of their type for the person, previous ones are replaced |
| Documents.ClaimEffect | src/application/onboarding/onboarding.service.ts:1403-1454 | a claim takes exactly the user's pending documents without a person under the draft key, supersedes or deletes those of the same types the person had, and touches no other |
| Documents.DeletesKeepInv | src/application/onboarding/onboarding.service.ts:1460-1479 | deleting a draft document or a whole draft keeps the invariant and every submitted document |
| Documents.DeletesTake | src/application/onboarding/onboarding.service.ts:1460-1479 | deleting one document takes a pending draft of that user alone; deleting the draft takes all drafts of the user; a failing removal leaves every row |
| Documents.MarkSubmittedKeepsInv | src/application/onboarding/onboarding-draft.service.ts:246-271 | exactly the user's documents become submitted, nothing else changes |
| UboConsolidation.ConsolidateLossless | src/application/onboarding/onboarding.service.ts:750-792 | however far the merge gets no document type is lost; a complete merge leaves all of them, once, with the kept row |
| UboConsolidation.ConsolidateTouches | src/application/onboarding/onboarding.service.ts:750-792 | a merge supersedes or moves only pending documents the user uploaded for a removed owner, and leaves every other document and object |
| UboConsolidation.KnownRowsStay | src/application/onboarding/onboarding.service.ts:659-684 | a row Bridge knows is never removed, wherever the call breaks off |
| UboConsolidation.UpsertLossless | src/application/onboarding/onboarding.service.ts:637-686 | the kept row ends with a pending document of every type it or a removed row had, before any row is removed |
| UboConsolidation.UpsertStores | src/application/onboarding/onboarding.service.ts:637-686 | the kept row holds the submitted data and no other row that stays changes |
| UboConsolidation.KeptAndRemoved | src/application/onboarding/onboarding.service.ts:637-742 | of the rows about the person the oldest one known to Bridge is kept, or the oldest of all; the others Bridge does not know are removed, unless the call breaks off before; success overwrites the kept row |
| UboConsolidation.OthersStay | src/application/onboarding/onboarding.service.ts:695-742 | a row of another business, or with neither the id number nor both email and full name in common with the request, stays as it was wherever the call breaks off |
| UboConsolidation.KnownPersonIsNotInserted | src/application/onboarding/onboarding.service.ts:695-742 | when a row of the business has the id number, or email and full name, in common with the request, no row is inserted and a successful call answers with such a row |
| UboConsolidation.NewPersonIsInserted | src/application/onboarding/onboarding.service.ts:637-686 | without such a row a successful call adds one row with the submitted data, and a failing one changes nothing |
| UboConsolidation.KeeperAgain | src/application/onboarding/onboarding.service.ts:695-742 | the same call picks the same row again and finds nothing to remove |
| UboConsolidation.UpsertTwice | src/application/onboarding/onboarding.service.ts:637-742 | repeating a call changes nothing exactly when the person has an id number, or an email and a name; otherwise each call adds a row |
| DocumentStore.RunSafe | src/application/onboarding/onboarding.service.ts:1293-1479 | along every run of uploads, claims, deletions, submissions and merges with failures: one pending document per slot, no object without a row, submitted documents stay |
| DocumentStore.OnboardingStore.HardDeleteDocuments | src/application/onboarding/onboarding-draft.service.ts:278-297 | objects first, rows after, and whether both went |
| DocumentStore.OnboardingStore.ReplacePreviousDocuments | src/application/onboarding/onboarding.service.ts:1367-1395 | drafts deleted or, failing that, superseded; submitted ones superseded |
| DocumentStore.OnboardingStore.UploadDocument | src/application/onboarding/onboarding.service.ts:1278-1360 | the upload with its three failures, and the rule for draft keys |
| DocumentStore.OnboardingStore.ClaimDraftDocuments | src/application/onboarding/onboarding.service.ts:1403-1454 | the claim, type by type |
| DocumentStore.OnboardingStore.DeleteDraftDocument | src/application/onboarding/onboarding.service.ts:1460-1479 | which error each request gets; success removes row and object |
| DocumentStore.OnboardingStore.DeleteDraft | src/application/onboarding/onboarding-draft.service.ts:215-226 | success leaves the user no draft document |
| DocumentStore.OnboardingStore.MarkSubmitted | src/application/onboarding/onboarding-draft.service.ts:246-253 | the submission of the user's documents |
| DocumentStore.OnboardingStore.ConsolidateUboDocuments | src/application/onboarding/onboarding.service.ts:750-792 | the loop with its growing set of covered types, stopping at the first failed update |
| DocumentStore.OnboardingStore.UpsertUboRow | src/application/onboarding/onboarding.service.ts:637-686 | rows and documents after the call, with each point of failure |
| AssociatedPersons.AssertIdentityDocumentsComplete | src/application/onboarding/onboarding.service.ts:905-967 | passes exactly when every director and every unlinked owner has a pending document of each required type |
| AssociatedPersons.GateIff | src/application/onboarding/document-requirements.ts:26-33 | the gate passes exactly when every director and unlinked owner has pending a passport, both sides of a national id or driving licence, or a document of any other declared type |
| AssociatedPersons.BuildAssociatedPersons | src/application/onboarding/bridge-customer.service.ts:1592-1849 | the list, or the first error in order |
| AssociatedPersons.BuildFaithful | src/application/onboarding/bridge-customer.service.ts:1647-1848 | one entry per director and per owner not linked to a listed director, with the row's Bridge id; ownership exactly when some owner is linked |
| AssociatedPersons.BuildOkIff | src/application/onboarding/bridge-customer.service.ts:1592-1849 | the list is built exactly when every director has an address and no missing document, and every owner can be added after the ones before; its entries carry the names, email, title, control and identification of director and linked owners |
| AssociatedPersons.BuildAbortsIff | src/application/onboarding/bridge-customer.service.ts:1272-1363 | exactly who makes the list abort for want of an identity document |
| AssociatedPersons.UnidentifiedIff | src/application/onboarding/bridge-customer.service.ts:1272-1363 | a person is refused exactly for a declared document of which the newest front cannot be downloaded, the types that show a front written out |
| AssociatedPersons.GateSuffices | src/application/onboarding/onboarding.service.ts:905-967 | after the gate passes the list does not abort for want of an identity document, given working downloads, known id types, id numbers and existing links |
| AssociatedPersons.ForeignLinkAborts | src/application/onboarding/onboarding.service.ts:934-938 | an owner linked to no director of the business, wherever it stands in the list, never influences the gate, and the list aborts exactly when it would without that owner or the front of the document cannot be produced |
| AssociatedPersons.ForeignLinkExample | src/application/onboarding/dto/create-director-ubo.dto.ts:370-373 | a director with complete documents, and an owner without any whose link names another director: the gate passes, the list aborts |
| PersonSync.BridgeCustomerService.SyncBusinessAssociatedPersons | src/application/onboarding/bridge-customer.service.ts:1499-1590 | requests sent, rows updated and error of a synchronisation, person by person, with a failing listing, request or row update |
| PersonSync.BridgeCustomerService.SyncPersons | src/application/onboarding/bridge-customer.service.ts:1519-1589 | the loop over the list, up to the first error |
| PersonSync.BridgeCustomerService.SyncPerson | src/application/onboarding/bridge-customer.service.ts:1521-1588 | one person: stored id, unique match, or creation; then the row, unless the request, the update or its unique index refuses |
| PersonSync.ChosenIff | src/application/onboarding/bridge-customer.service.ts:1521-1552 | a stored id is used; otherwise two free remote persons with the same email and names are an error, one is adopted, none means creation |
| PersonSync.SyncOneEffect | src/application/onboarding/bridge-customer.service.ts:1521-1588 | exactly one request; which error comes when; success writes the id into the row of the person and no other |
| PersonSync.SyncAllSynced | src/application/onboarding/bridge-customer.service.ts:1554-1588 | after success every person's row holds the id it was given and nothing else of the rows changed |
| PersonSync.UnstoredNeverShare | src/application/onboarding/bridge-customer.service.ts:1519-1552 | two persons without a stored id never get the same remote person |
| PersonSync.SameTableNeverShare | migrations/20260729_add_bridge_associated_person_ids.sql:10-16 | a successful synchronisation never gives two directors, or two owners, the same remote person |
| PersonSync.OwnRemoteIff | src/application/onboarding/bridge-customer.service.ts:1519-1578 | of a successful synchronisation all remote persons are distinct exactly when, before the call, nobody claims the id stored by a later row of the other table: by storing it too, or by storing none and matching that remote person |
| PersonSync.StoredIdCanBeTaken | src/application/onboarding/bridge-customer.service.ts:1521-1552 | of the list built from a director without an id and an owner with one, the director adopts the remote person of the owner, and the call succeeds |
| PersonSync.SecondSyncOnlyPuts | src/application/onboarding/bridge-customer.service.ts:1499-1590 | after a successful synchronisation the next one only updates, the same remote persons, and changes no row, whatever fails |
| InvitationThrottle.Throttle.ConsumeBucket | src/application/account-members/invitation-throttle.service.ts:106-202 | the counter row after an attempt, admission, and admission or refusal without record when the table cannot be read or written |
| InvitationThrottle.Throttle.Consume | src/application/account-members/invitation-throttle.service.ts:91-104 | owner's bucket first, then the recipient's |
| InvitationThrottle.RunKeepsInv | src/application/account-members/invitation-throttle.service.ts:106-202 | along every run with a forward clock each counter row describes the mails charged to its bucket |
| InvitationThrottle.SlidingWindowBound | src/application/account-members/invitation-throttle.service.ts:60-104 | in any closed hour at most 19 mails of an owner and 5 to a recipient, counting those whose bucket could be read and written |
| InvitationThrottle.BlockHolds | src/application/account-members/invitation-throttle.service.ts:151-153 | along every run nothing is charged to a blocked bucket until its block ends |
| InvitationThrottle.RecipientBoundIsReached | src/application/account-members/invitation-throttle.service.ts:70-73 | a run that reaches the recipient's bound |
| InvitationThrottle.OwnerBoundIsReached | src/application/account-members/invitation-throttle.service.ts:60-64 | a run to any twenty addresses that reaches the bound of the owner |
| Invitations.RunSafe | src/application/account-members/account-members.service.ts:195-677 | in every reachable state at most twenty live rows per owner, one per address, one active row per person and owner; issued tokens are never lost |
| Invitations.ExpiredIff | src/application/account-members/account-members.service.ts:144-151 | listing expires exactly the owner's pending invitations whose time is over |
| Invitations.AccessIsEarned | src/application/account-members/account-members.service.ts:567-677 | behind every active row stands an acceptance from the invited address with the token then current, pending and unexpired |
| Invitations.InviteIs | src/application/account-members/account-members.service.ts:195-265 | an invitation needs another address, permission, no throttling, fewer than twenty live rows and no live row of that address; it runs for seven days |
| Invitations.ReopenIs | src/application/account-members/account-members.service.ts:429-510 | an owner reopens a row that is not active under the same limits, itself aside; a new token runs for seven days |
| Invitations.ReadIs | src/application/account-members/account-members.service.ts:567-640 | what presenting a current token gives, by status, expiry, address and membership |
| Invitations.WriteIs | src/application/account-members/account-members.service.ts:614-665 | the row is activated exactly when it is still pending, not the actor's own and the actor no member; one found expired is marked so whatever became of it |
| Invitations.SupersededTokenRefused | src/application/account-members/account-members.service.ts:481-496 | an acceptance that starts with a replaced token is refused, along every later run |
| Invitations.TokenCurrentIffNotReopened | src/application/account-members/account-members.service.ts:639-654 | when an acceptance writes, its token is still current exactly when the row was not reopened since it read |
| Invitations.OldLinkAccepted | src/application/account-members/account-members.service.ts:639-654 | a run in which a replaced link is accepted |
| Invitations.LateExpiryEndsAccess | src/application/account-members/account-members.service.ts:614-622 | an acceptance that read an expired invitation marks the row expired even after it was reopened and accepted |
| Invitations.LateExpiryWithoutReopening | src/application/account-members/account-members.service.ts:614-622 | the same without a reopening, by one acceptance just before the expiry and one just after |
| Invitations.AccessLastsIff | src/application/account-members/account-members.service.ts:374-410 | along every run an access lasts exactly as long as neither the owner revokes it nor an acceptance that found it expired writes |
| Invitations.LateMeetsActiveIff | src/application/account-members/account-members.service.ts:614-654 | an acceptance that read an expired invitation meets an active row exactly when another succeeded since and nothing ended that access |
| Invitations.LateMeetsActive | src/application/account-members/account-members.service.ts:614-654 | behind an active row that such an acceptance meets stands another that read earlier, or after a reopening, or with a clock set back |
| Invitations.LiveAgainOnlyByReopen | src/application/account-members/account-members.service.ts:374-420 | a revoked or expired row is live again only after a reopening |
| Invitations.OneAcceptancePerIssue | src/application/account-members/account-members.service.ts:639-665 | between two successful acceptances of a row lies a reopening, however requests interleave |
| Invitations.AccountMembers.InviteMember | src/application/account-members/account-members.service.ts:195-265 | the row inserted, or the first error in order |
| Invitations.AccountMembers.RevokeAccess | src/application/account-members/account-members.service.ts:374-410 | the row revoked, whatever its status |
| Invitations.AccountMembers.ReopenInvitation | src/application/account-members/account-members.service.ts:429-510 | the row pending again with a new token and expiry, or the first error in order |
| Invitations.AccountMembers.Activate | src/application/account-members/account-members.service.ts:598-665 | the conditional update of an acceptance |
| Invitations.AccountMembers.Accept | src/application/account-members/account-members.service.ts:567-677 | an acceptance nothing interrupts |
| DiditChecks.FingerprintDecidesCall | src/application/didit/didit-verification.service.ts:585-672 | where the fields that reach the provider are stored without blanks, equal fingerprints mean it is asked the same, up to letter case |
| DiditChecks.SameCallIff | src/application/didit/didit-verification.service.ts:585-672 | with equal fingerprints the requests are the same up to letter case exactly when the blanks of the fields each check sends are (for a joined name, those between its words), or neither is sent; for checks of images always |
| DiditChecks.CaseIsNotFingerprinted | src/application/didit/didit-verification.service.ts:600-672 | a name in capitals and in small letters: one fingerprint, two requests |
| DiditChecks.BlanksAreNotFingerprinted | src/application/didit/didit-verification.service.ts:600-631 | an id number of blanks has the fingerprint of none, yet one is sent and the other skipped |
| DiditChecks.FingerprintsEqualIff | src/application/didit/didit-verification.service.ts:585-672 | two subjects have one fingerprint exactly when the documents and texts that check depends on are the same, case and blanks around aside |
| DiditChecks.IdVerificationSends | src/application/didit/didit-verification.service.ts:377-396 | a national id goes before a passport, a passport before a driving licence; the front of at most ten megabytes is sent with the back of the same card |
| DiditChecks.FaceMatchSends | src/application/didit/didit-verification.service.ts:398-430 | the selfie is compared with the front of a card that is an image, both of at most five megabytes |
| DiditChecks.OneDocumentSends | src/application/didit/didit-verification.service.ts:534-583 | the checks of one document, skipped exactly when it is missing, too large or cannot be downloaded |
| DiditChecks.RegistrySends | src/application/didit/didit-verification.service.ts:501-532 | the registry is asked exactly about Bolivians with an id number and a birth date |
| DiditChecks.ScreeningSends | src/application/didit/didit-verification.service.ts:432-458 | a full name of two characters or more is screened with birth date, nationality and id number |
| DiditChecks.CompanyScreeningSends | src/application/didit/didit-verification.service.ts:460-499 | a company is screened under its legal name, tax number and country, or their substitutes |
| DiditChecks.RunCheckIs | src/application/didit/didit-verification.service.ts:679-826 | a result is reused exactly when it is an approval on the same inputs at most thirty days old; otherwise the check is skipped, fails, or is sealed with its inputs and the time |
| DiditChecks.OverallIs | src/application/didit/didit-verification.service.ts:1004-1014 | declined as soon as one result is, approved exactly when all are, an error exactly when errors are all there is |
| DiditRuns.VerdictIsVerified | src/application/didit/didit-verification.service.ts:679-826 | every approval of a run comes from a real call on the current inputs at most thirty days old; a shared owner's on the director's inputs |
| DiditRuns.ApplicantIsChecked | src/application/didit/didit-verification.service.ts:199-282 | an applicant gets six checks, each beside the earlier result of its place |
| DiditRuns.CompanyIsChecked | src/application/didit/didit-verification.service.ts:1114-1249 | a company gets two checks of its own, each beside the earlier result of its place |
| DiditRuns.DirectorIsChecked | src/application/didit/didit-verification.service.ts:1114-1249 | the main director gets the five checks of a person, each beside the earlier result of that director |
| DiditRuns.OwnerIsChecked | src/application/didit/didit-verification.service.ts:1195-1222 | an owner who is not the main director gets the same five on its own data, beside its own earlier results |
| DiditRuns.CallMadeIff | src/application/didit/didit-verification.service.ts:679-740 | the provider is asked exactly where no earlier approval is still good and there is something to send |
| DiditRuns.OwnerSharesIff | src/application/didit/didit-verification.service.ts:780-796 | an owner shares the main director's checks exactly when both id numbers have something beside blanks, dots and hyphens and agree in it, case aside, without contradicting nationalities, or a number is missing and first name, last name and birth date are filled and agree; any other owner gets checks of its own data |
| DiditRuns.PrimaryDirectorIs | src/application/didit/didit-verification.service.ts:1182 | the main director is the first signer, or the first of all when nobody signs |
| DiditRuns.NoDirectorNoApproval | src/application/didit/didit-verification.service.ts:1169-1181 | a company without a director is never approved |
| DiditRuns.ApprovedCompanyIsVerified | src/application/didit/didit-verification.service.ts:1251-1365 | an approved company has a director, and every check of company, director and owners is approved and verified; an owner who is not that director, as one with another id number, on the owner's own inputs |
| DiditRuns.CompanyErrorIff | src/application/didit/didit-verification.service.ts:1004-1012 | the verdict is an error exactly when nothing could be evaluated |
| DiditService.RunIsFresh | src/application/didit/didit-verification.service.ts:700-740 | with a provider that depends only on its inputs, up to letter case, and fields sent without blanks around them, a run with reuse gives the statuses and overall of a run without |
| DiditService.ReuseIsSound | src/application/didit/didit-verification.service.ts:1114-1214 | along every interleaving of runs, failing stores included, each run builds on the verdict stored right then and its approvals are verified |
| DiditService.ReuseChangesNothing | src/application/didit/didit-verification.service.ts:679-740 | in every sequence of runs under the same assumptions and unchanged stored objects reuse never changes a verdict |
| DiditService.DiditVerificationService.BuildOwnerEntries | src/application/didit/didit-verification.service.ts:1309-1339 | one entry per owner, shared checks and their errors counted once |
| DiditService.DiditVerificationService.BuildKybVerdict | src/application/didit/didit-verification.service.ts:1251-1365 | the company verdict |
| DiditService.DiditVerificationService.RunForReview | src/application/didit/didit-verification.service.ts:199-280 | one run at a time per application, an existing verdict unless forced, otherwise the new verdict, stored or not |
| Payouts.StepKeepsInvIff | src/application/bridge/bridge.service.ts:1034-1319 | a call, or a report about a transfer, keeps reserved money equal to the open payouts, balances whole and entries linked, exactly when it is safe; unless it spends it moves money only between available and reserved |
| Payouts.RunKeepsInv | src/application/bridge/bridge.service.ts:1034-1319 | the same along every safe run, from request to completed or failed transfer |
| Payouts.CreateKeepsInvIff | src/application/bridge/bridge.service.ts:1067-1111 | creating a payout keeps the books exactly when its unchecked reservation succeeds or the request is refused |
| Payouts.CreatedForReview | src/application/bridge/bridge.service.ts:1034-1107 | a request for review adds one waiting payout and reserves its amount and fee out of what is available |
| Payouts.CreateRefused | src/application/bridge/bridge.service.ts:1034-1066 | a request beyond what is available, or beyond the limits, leaves the books as they are |
| Payouts.SubmittedEffect | src/application/bridge/bridge.service.ts:1182-1218 | a submitted payout is under way whatever ids are stored, and exactly one pending debit of amount and fee on its wallet is added |
| Payouts.BrokenOffEffect | src/application/bridge/bridge.service.ts:1182-1218 | a call that breaks off after the transfer only marks that money was sent; the payout still waits |
| Payouts.RefusedEffect | src/application/bridge/bridge.service.ts:1160-1179 | a transfer Bridge refuses fails the payout and makes its amount and fee available again |
| Payouts.RejectEffect | src/application/bridge/bridge.service.ts:1282-1319 | a rejection marks a waiting payout rejected and moves exactly its amount and fee back to available, and leaves any other alone |
| Payouts.ReleaseIs | src/application/bridge/bridge.service.ts:1981-2019 | however it is made, a release moves the amount to available and leaves no negative reservation |
| Payouts.SubmittedOnce | src/application/bridge/bridge.service.ts:1254-1319 | along every run, once the money of a payout was sent no approval or rejection of it changes anything |
| Payouts.LedgerKeepsInvIff | migrations/20260620_fix_update_balance_on_ledger_entry_debit_reservation.sql:44-66 | any other ledger call keeps them exactly when it is no debit, is refused, or nothing is reserved, and it leaves the entries of payouts under way alone |
| Payouts.SettledDebitSpendsReservation | migrations/20260620_fix_update_balance_on_ledger_entry_debit_reservation.sql:44-66 | settling the debit of an open payout spends exactly its reservation |
| Payouts.CompleteKeepsInvIff | src/application/webhooks/webhooks.service.ts:2700-2709 | a completed transfer keeps the books exactly when the payout was closed, or its entry is found and debits its user; then it spends the reservation and nothing available |
| Payouts.UnfoundDebitStaysReserved | src/application/webhooks/webhooks.service.ts:3119-3127 | an entry with another id: the payout is completed, 40 stay reserved |
| Payouts.FailKeepsInvIff | src/application/webhooks/webhooks.service.ts:3205-3342 | a failed transfer keeps the books exactly when it releases an open payout or releases nothing |
| Payouts.FailedTwiceReleasesTwice | src/application/webhooks/webhooks.service.ts:3219-3342 | the failure of one payout reported twice releases the money of another that is under way |
| Payouts.ManualDebitFreesMoneyTwice | src/application/bridge/bridge.service.ts:1981-2019 | a manual debit, then a rejection: more available than the account holds |
| Payouts.FallbackIsRpc | src/application/bridge/bridge.service.ts:1981-2019 | in a balanced state the manual release does what the database function does and never clamps |
| Payouts.ReleasedOnce | src/application/bridge/bridge.service.ts:1167-1179 | once a reservation was released only a failure report can release for that payout again, exactly when so much is reserved |
| Payouts.SafeRunReleasesOnce | src/application/bridge/bridge.service.ts:1167-1179 | along every safe run no reservation is released twice |
| Payouts.PayoutService.ReleaseReservedBalance | src/application/bridge/bridge.service.ts:1981-2019 | the release, by database function or by hand |
| Payouts.PayoutService.CreatePayout | src/application/bridge/bridge.service.ts:1034-1111 | the books after the call in every circumstance |
| Payouts.PayoutService.ExecutePayout | src/application/bridge/bridge.service.ts:1114-1225 | transfer, pending debit and status, or release and failure, with the errors that are not looked at |
| Payouts.PayoutService.ApprovePayout | src/application/bridge/bridge.service.ts:1254-1279 | execution of a pending payout only |
| Payouts.PayoutService.RejectPayout | src/application/bridge/bridge.service.ts:1282-1319 | release and rejection of a pending payout only |
| Payouts.PayoutService.HandleTransferComplete | src/application/webhooks/webhooks.service.ts:2675-3132 | payout completed and its pending entry settled; the balances refuse that only of a payout that cannot be completed |
| Payouts.PayoutService.HandleTransferFailed | src/application/webhooks/webhooks.service.ts:3205-3342 | payout and entry failed, money released by the database function alone, nothing after a completion |
| Ledger.RunAgrees | src/application/ledger/ledger.service.ts:154-210 | in every reachable state a balance is the settled credits less the settled debits of its account |
| Ledger.PostIs | migrations/20260620_fix_update_balance_on_ledger_entry_debit_reservation.sql:44-66 | a credit becomes available; a debit takes what is reserved first and is refused exactly when reserved and available together are not enough |
| Ledger.PostKeepsSplitIff | migrations/20260620_fix_update_balance_on_ledger_entry_debit_reservation.sql:44-66 | a posting keeps balance = available + reserved exactly when it is no first debit of an account |
| Ledger.FirstDebitOverstatesAvailable | migrations/20260620_fix_update_balance_on_ledger_entry_debit_reservation.sql:44-48 | a first debit and a credit leave more available than the account holds |
| Ledger.LedgerService.CreateEntry | src/application/ledger/ledger.service.ts:158-187 | the entry with its currency in upper case and its posting, or neither |
| Ledger.LedgerService.SettleEntry | src/application/ledger/ledger.service.ts:193-210 | a pending entry moves and posts, any other stays |
| Ledger.LedgerService.CreateAdjustment | src/application/ledger/ledger.service.ts:217-250 | a settled entry of the absolute amount |
| Reconciliation.RunReconciliation | src/application/admin/reconciliation.service.ts:34-92 | reports exactly the pairs of an active wallet and a balance of its user more than a cent apart |
| Reconciliation.ReportedIff | src/application/admin/reconciliation.service.ts:41-92 | after any run of the ledger a pair is reported exactly when the user's other wallets hold more than a cent of settled entries in that currency |
| Reconciliation.OneWalletPerUserIsClean | src/application/admin/reconciliation.service.ts:41-92 | with one wallet per user nothing is reported |

## Left out

- Authentication, sessions, HTTP controllers, gateways, email, PDF export, audit logs, notifications and the throttling of staff notices.
- Floating point: cents and exact reals; the slack of 1e-9 in the rounding helpers stands for exact ceiling and floor. Fixed Outputs amounts are whole cents.
- Letter case and blanks beyond ASCII; JSON strings with lone surrogates; the order JavaScript gives integer-like keys.
- Hashes and random tokens are injective and fresh; country tables and document bytes are opaque.
- Read-then-write gaps other than the acceptance of an invitation and the verification of an application; several server processes sharing one in-flight set.
- Payment orders, refunds and other writers of balances; of the webhooks only a completed and a failed transfer of a payout.
- The ids of transfers: whether the entry of a payout is found under the id of its transfer row is a parameter. A payout has one transfer, since repeated requests carry its idempotency key.
- The database functions reserving and releasing a balance are not part of the repository: they are taken to move the stated amount, and a negative reservation to be refused.
- Rows without a storage path, failing updates inside replacements other than deletions, and failing clean-up of a refused upload.
- Review decisions on documents, which would add further statuses beside pending and superseded.
- Checks on file type, size, path and draft-key format before an upload: single-branch refusals.
- Addresses, phone numbers, transliterations, tax-id types and the documents array of an associated person: field copying.
- The time between a call to the identity provider and the stamp on its result: a run has one time. Mismatch lists of a document check do not influence a status.
- Exchange-rate history, manual rate changes and aliases of pairs.
- DiditService.RunIsFresh: assumes a provider that does not tell upper from lower case, because `CaseIsNotFingerprinted` shows it false without, and fields without blanks around them as in `Trimmed`, because `SameCallIff` shows it false without.
- DiditService.ReuseChangesNothing: assumes the same of provider and fields, and that stored objects stay as they are, because reuse does not look at a download that would fail now.
- Reconciliation.RunReconciliation: does not model a failing read of balances or ledger entries.
