# Contracts, payments and energy series of a solar sales back end: a Dafny model

The repository is a NestJS service that sells solar systems. It prepares contracts, sends them through
DocuSign, receives the signing events, computes customer payments, and prepares hourly energy data for
tariff calculations. This project models the parts of it that hold state or arithmetic worth proving, and
proves what they keep over every run.

Each module follows one part of the program.

| module | what it models |
|---|---|
| `Contracts` | the stored contract record and its vocabulary |
| `SignerStatus` | what a batch of DocuSign events means: every field comes from the last event that concerns it |
| `ContractLifecycle` | the ordinary contract as a state machine: rename, preview, send, wet signature, resend, void, callback |
| `GspLifecycle` | the grid-service contract as a state machine: generate, send, void |
| `ContractRecord` | the contract as an object whose methods assign its fields, proved against the three modules above |
| `RecipientRouting` | who signs which template of an envelope, who gets a copy, and with which recipient id |
| `CustomerPayments` | one customer payment: credit, milestone, split, keys carried over |
| `PaymentLedger` | payments carried forward along the contracts of an opportunity |
| `CopiedPayments` | which earlier record the next contract copies, and which recorded amounts it therefore shows |
| `CarriedPayments` | exactly when a recorded amount is carried by every later record in every run |
| `ContractSystem` | saving and voiding contracts together with the figures of their opportunity and the installed products |
| `InstalledProducts` | the rows of installed products of every opportunity |
| `MonthlyUsage` | the hour-to-month loop |
| `EnergySeries` | rotating a year of hours and splitting it into import and export |
| `TariffPaging` | fetching a list page by page |
| `PanelVariants` | the system variants offered online, interpolation and total cost |
| `ContractNames` | download names and their percent-encoded length (ECMA-262 section 19.2.6) |
| `TokenStore` | stored DocuSign integrations, their tokens and the API client's cache of them |
| `Common` | sequences, sums, options and results |

A service call is one step. A call that throws keeps what it stored before: nothing for most calls, but
`saveContract` keeps the stored contract when its payment cannot be computed, and `voidContract` keeps the
voided status and the zeroed figures when restoring the products throws. Answers of DocuSign, the tariff API
and the services outside this model are parameters, so each theorem holds for every answer. The runs of
DocuSign calls are recorded as effects (`EnvelopeCreated`, `DraftSent`, …), so theorems can speak of what
was sent and not only of what was stored.

## What the code does that one might not expect

Where code and intention differ, the code is modelled, unless stated otherwise here.

- `updateContractByDocusign` filters on `contractSystemReferenceId` (src/contracts/contract.service.ts:569),
  the schema names the field `contracting_system_reference_id` (src/contracts/contract.schema.ts:135). The
  model starts after the lookup that was intended, by envelope id.
- The same method reads `quoteFinanceProduct.financialProductSnapshot` (src/contracts/contract.service.ts:594),
  which the schema of that part of a quote does not declare (src/quotes/quote.schema.ts:327-337; it is declared
  one level down, in the finance product, line 218). A quote read back normally has none, so throwing is the usual
  outcome when a primary owner signs, and nothing of the batch is stored (`SignerStatus.CallbackFailsExactly`).
- `getLatestCustomerPayment` selects only `_id` and then tests the status
  (src/customer-payments/customer-payment.service.ts:50, 55), so no earlier contract ever reads as completed.
  The theorems about runs hold for both selections: `IdOnly` as written, `WithStatus` as meant.
  `AsWrittenIsAsMeantExactly` says when they agree, `CopiedPayments.PaymentOnOlderContractIsNotSeen` what is lost
  when they do not, and `CarriedPayments.CarriedEverAfterExactly` when nothing can be lost at all.
- VOIDED is left by a wet signature and by a completion callback, and by nothing else
  (`ContractLifecycle.VoidedIsLeftExactly`). COMPLETED is not guarded against sending at all;
  `CompletedIsLeftExactly` lists every step that leaves it.
- `saveChangeOrder` in update mode makes every contract it touches a change order, a no-cost one included.
- The download names pass the first name where the slicer expects the last
  (src/contracts/contract.service.ts:803-810, 1351-1368). The slicer compares the encoded length with 100, but the name it then
  builds can still encode to 100 characters or more, or not at all when the cut runs through a surrogate pair
  (`SlicedNameEncodesShortExactly` has the exact condition).
- With cents rounding, payment 1 can exceed what is left after the deposit by less than a cent;
  `FirstPaymentBounds` gives the exact condition.
- A signer without an email whose role a template asks for is in neither list of that template, and of several
  signers with such a role all but the first are. Saving an ordinary or grid-service contract rejects or drops signers
  without an email (src/contracts/pipes/signer-validation.pipe.ts:10-21); the change-order route does not
  (src/contracts/contract.controller.ts:161-168), and nothing rules out a shared role. `NobodyLostNobodyTwice` has
  the exact condition.
- Refreshing a token uses the cached credentials, so replacing the credentials of a cached type leads to a
  token of the old credentials beside the new ones (`ReplacedCredentialsGetOldToken`).

## Model

| member | source | states |
|---|---|---|
| `ContractRecord.Record.UpdateByDocusign` | src/contracts/contract.service.ts:564-611 | writes back what the loop computed and the contract status, or throws and stores nothing; signers stay the same people, nothing recorded is erased, and a consistent record stays so |
| `ContractRecord.Record.ApplyEvents` | src/contracts/contract.service.ts:578-599 | the loop over the events refines the last-event-wins specification of statuses, dates and completion date, and gives up exactly when the offset is missing and a primary owner signs |
| `ContractRecord.Record.AssignEvent` | src/contracts/contract.service.ts:578-588 | one event assigns only the first signer with its email, and by its status the sent or the signed pair of fields |
| `SignerStatus.OneMoreEvent` | src/contracts/contract.service.ts:578-588 | assigning one more event to the signers of a prefix gives what the specification says of the longer batch, roles, emails and all other signers untouched |
| `SignerStatus.LastOnIsLast` | src/contracts/contract.service.ts:578-599 | the event the specification looks up concerns the field and no later one does |
| `SignerStatus.CallbacksCompose` | src/contracts/contract.service.ts:564-611 | whatever the quote and the two completion flags, delivering one batch after another results in what one batch of all the events, completed if either was, results in, and if the first fails so does the whole |
| `SignerStatus.CallbackIsIdempotent` | src/contracts/contract.service.ts:564-611 | delivering a batch again changes nothing: signers, completion date and contract status |
| `SignerStatus.UnroutedSignerIsUntouched` | src/contracts/contract.service.ts:578-588 | a signer no event names, or whose email an earlier signer shares, is left as it was |
| `SignerStatus.CallbackFailsExactly` | src/contracts/contract.service.ts:589-599 | the callback throws if and only if the quote has no snapshot and some event of the batch signs a primary owner |
| `SignerStatus.LastEventWins` | src/contracts/contract.service.ts:578-588 | the last SENT event to reach the first signer with its email gives the sent date, the last SIGNED one the signed date, the last of both the status |
| `SignerStatus.OtherFieldsStay` | src/contracts/contract.service.ts:578-588 | each of the three fields without such an event, and all others always, are as they were |
| `SignerStatus.WithoutOwnerDateStays` | src/contracts/contract.service.ts:589-599 | when no first signer with the email of a SIGNED event has the role Primary Owner, the callback succeeds and the completion date stays |
| `SignerStatus.OwnerSetsDate` | src/contracts/contract.service.ts:589-599 | otherwise the date is that of the last such event plus the quote's days, or 90 without a quote or with 0, in milliseconds; without a snapshot the callback fails |
| `SignerStatus.CallbackStores` | src/contracts/contract.service.ts:600-606 | besides signers and date only the status changes, to COMPLETED exactly when DocuSign says so |
| `ContractRecord.Record.CanGenerateContract` | src/contracts/contract.service.ts:353-378 | the collected list of required qualification types is approved exactly when every type the product requires is |
| `ContractRecord.Record.SendContract` | src/contracts/contract.service.ts:314-510 | the assignments of every branch of preview and send give the reply, the record and the DocuSign effects of the state machine's step, and keep people, recorded dates and consistency |
| `ContractRecord.Record.StoreResponse` | src/contracts/contract.service.ts:475-505 | what is stored for each answer of DocuSign to a new envelope, as preview and as send; keeps people, recorded dates and consistency |
| `ContractRecord.Record.SendContractByWetSigned` | src/contracts/contract.service.ts:901-958 | refusals, the new envelope and the record in progress as the state machine has them; keeps people, recorded dates and consistency |
| `ContractRecord.Record.SendToFinancier` | src/contracts/contract.service.ts:901-958 | the loop over the signers leaves the first financier SENT, further financiers untouched and everyone else WET_SIGNED |
| `ContractRecord.Record.ResendContract` | src/contracts/contract.service.ts:767-792 | refused without an envelope or when voided; changes no field; what is resent is the stored envelope of a contract that is not voided |
| `ContractRecord.Record.VoidContract` | src/contracts/contract.service.ts:960-984 | VOIDED whether or not DocuSign accepts; the envelope is voided only if it does; people, recorded dates and consistency are kept |
| `ContractRecord.Record.SaveContractUpdate` | src/contracts/contract.service.ts:212-234 | renames INITIATED contracts only and keeps the name when the new one is empty |
| `ContractRecord.Record.SaveChangeOrderUpdate` | src/contracts/contract.service.ts:512-532 | touches INITIATED contracts only and turns them into change orders |
| `ContractLifecycle.EveryRunIsConsistent` | src/contracts/contract.service.ts:314-510 | in every state any run of all seven steps reaches, DRAFT has a non-empty envelope id, and IN_PROGRESS has a first signer that is SENT, SIGNED or WET_SIGNED with a sent date |
| `ContractLifecycle.EveryRunKeepsPeople` | src/contracts/contract.service.ts:564-611 | no run of the seven steps swaps, drops or renames a signer, changes an email or role, or takes back a sign status or a recorded date |
| `ContractLifecycle.EnvelopeHistory` | src/contracts/contract.service.ts:325-378 | in any run the stored envelope id is the one given to the last step that assigned one; DRAFT or IN_PROGRESS means that step passed the credit gate, or was a wet signature, although the draft shortcut never rechecks it; DRAFT means it was a preview |
| `ContractLifecycle.LastAssignmentIsLast` | src/contracts/contract.service.ts:475-500 | the step the history points at did assign an envelope and no later step of the run did |
| `ContractLifecycle.DraftSendUsesLatestPreview` | src/contracts/contract.service.ts:325-340 | whatever run leads there, the envelope a draft send releases is the one the latest successful preview created, past the credit gate, and the contract has been a draft of it ever since |
| `ContractLifecycle.StaysDraftSince` | src/contracts/contract.service.ts:325-340 | between that preview and now the contract was a draft with the same envelope id at every step |
| `ContractLifecycle.VoidedIsLeftExactly` | src/contracts/contract.service.ts:321-323 | a step leaves VOIDED if and only if it is a successful wet signature or a completion callback that does not throw |
| `ContractLifecycle.RunKeepsVoided` | src/contracts/contract.service.ts:960-984 | a voided contract stays voided through every run without such a step |
| `ContractLifecycle.OrdinaryCallsKeepVoided` | src/contracts/contract.service.ts:767-792 | no run of preview, send, resend, rename, change-order update and void changes a voided contract in any field |
| `ContractLifecycle.CompletedIsLeftExactly` | src/contracts/contract.service.ts:314-510 | a step leaves COMPLETED if and only if it is a void, a successful wet signature, or a preview or send that is not refused and gets an answer, except an accepted send of a contract without signers |
| `ContractLifecycle.RunKeepsCompleted` | src/contracts/contract.service.ts:314-510 | a completed contract stays completed through every run without such a step |
| `ContractLifecycle.CompletedIsNotFinal` | src/contracts/contract.service.ts:314-323 | an instance: a preview DocuSign accepts turns a completed contract back into a draft, its signatures kept |
| `ContractLifecycle.EnvelopeIsCreatedExactly` | src/contracts/contract.service.ts:341-474 | a preview or send creates an envelope if and only if the contract is neither voided nor a draft and has a name, opportunity, quote, HIS number, every approval its product requires and, unless primary, a primary contract are there, and DocuSign answers with that id |
| `ContractLifecycle.DraftIsSentExactly` | src/contracts/contract.service.ts:325-340 | a draft is released if and only if it is one, the call is a send and DocuSign accepts, and it is the stored envelope |
| `ContractLifecycle.SendIsRefusedExactly` | src/contracts/contract.service.ts:314-420 | for each refusal, exactly when it is the reply, in the order they are made |
| `ContractLifecycle.SendStores` | src/contracts/contract.service.ts:475-505 | what each answer stores, on the fields: ERROR after a failure, DRAFT and its id after a preview, IN_PROGRESS with the first signer SENT now and nobody else touched after a send, nothing when something throws |
| `ContractLifecycle.WetSignDoes` | src/contracts/contract.service.ts:901-958 | when a wet signature succeeds, and what becomes of the first financier, of other financiers and of everyone else |
| `ContractLifecycle.OtherCallsDo` | src/contracts/contract.service.ts:767-792 | resend, void, rename and change-order update: the one field each may change and the envelope each has resent or voided |
| `ContractLifecycle.CallbackStepDoes` | src/contracts/contract.service.ts:564-611 | a callback replies as it ends, asks nothing of DocuSign, and stores nothing when it fails |
| `ContractRecord.Record.SendGspContract` | src/contracts/contract.service.ts:1224-1330 | every branch of the grid-service send gives the reply, the record and the effects of the state machine's step, and keeps people, recorded dates and the grid-service consistency |
| `GspLifecycle.EveryRunIsConsistent` | src/contracts/contract.service.ts:1190-1330 | in every run, failed retries included: AGREEMENT_GENERATED has an envelope id and is IN_PROGRESS or VOIDED, SENT_TO_PRIMARY_OWNER has a first signer SENT with a date, IN_PROGRESS is one of the two |
| `GspLifecycle.SendReleasesLastGenerated` | src/contracts/contract.service.ts:1243-1265 | the agreement a send releases is the one the last successful generation of the run produced |
| `GspLifecycle.VoidedIsFinal` | src/contracts/contract.service.ts:1054-1073 | no run of the grid-service steps changes a voided contract |
| `GspLifecycle.DisagreementArisesExactly` | src/contracts/contract.service.ts:1290-1330 | a step leaves ERROR beside a status that says the agreement was sent if and only if it is a retry DocuSign does not carry out |
| `GspLifecycle.DisagreementComesFromRetry` | src/contracts/contract.service.ts:1224-1330 | in any run the two status fields disagree only after such a retry |
| `GspLifecycle.GspEnvelopesExactly` | src/contracts/contract.service.ts:1224-1292 | when a grid-service envelope is created, when the generated one is released, and when the call is refused and how |
| `GspLifecycle.GspSendStores` | src/contracts/contract.service.ts:1243-1330 | what each answer stores, on the fields, envelope id and both statuses included |
| `RecipientRouting.GetMaxSignerRoutingOrders` | src/docusign-communications/docusign-communication.service.ts:399-413 | the roles of the first template with the most roles; fails exactly when there is no template |
| `RecipientRouting.FirstWidestIsUnique` | src/docusign-communications/docusign-communication.service.ts:399-413 | there is only one such template, so that statement determines the result |
| `RecipientRouting.GetCompositeTemplatePayloadData` | src/docusign-communications/docusign-communication.service.ts:231-302 | the pushes of the role loop and the filter build the payload of the specification: sequences 1 and 2, signers in role order, copies in signer order |
| `RecipientRouting.BuildCompositeTemplates` | src/docusign-communications/docusign-communication.service.ts:141-150 | one payload per template in order, all with the routing orders of the widest template |
| `RecipientRouting.SigningAndCopied` | src/docusign-communications/docusign-communication.service.ts:268-297 | for any signer list, a person signs a template exactly if it asks for their role, they are the first with it and their email is known, and gets a copy exactly if it does not ask for it |
| `RecipientRouting.SigningCount` | src/docusign-communications/docusign-communication.service.ts:268-287 | how often a person is among the signers of a template: once or not at all, and when, shared roles included |
| `RecipientRouting.NobodyLostNobodyTwice` | src/docusign-communications/docusign-communication.service.ts:268-297 | for any signer list, signers and copies together are a permutation of it if and only if everyone the template asks for has an email and nobody shares a role it asks for |
| `RecipientRouting.SecondSignerOfARoleIsLost` | src/docusign-communications/docusign-communication.service.ts:268-297 | who gets nothing at all: someone with a role the template asks for, if and only if their email is missing or another signer is the first with that role |
| `RecipientRouting.IdsCollideExactly` | src/docusign-communications/docusign-communication.service.ts:268-297 | two roles get one recipient id if and only if they are one role or the widest template has neither; an id is in 1..n exactly when it has the role |
| `RecipientRouting.OneIdPerPerson` | src/docusign-communications/docusign-communication.service.ts:231-302 | for any signer list, if the widest template covers all signer roles, every entry of every composite template carries the one id of its person, as signer or as copy, ids lie in 1..n, and two people share one if and only if they share a role |
| `RecipientRouting.IdIsPosition` | src/docusign-communications/docusign-communication.service.ts:268-296 | a recipient id and routing order is one more than the first position of the role in the widest template, 0 if it has none |
| `RecipientRouting.PayloadExactly` | src/docusign-communications/docusign-communication.service.ts:231-302 | the whole payload: the template it names, one signer for each role whose first signer has an email, in the order of the roles, one copy for each signer with another role, in their order, each with email, name or role, and place |
| `CustomerPayments.CalculateContractCustomPayment` | src/customer-payments/customer-payment.service.ts:65-161 | the field-by-field filling, with copied keys, gives the specified record, and an amount that is not a number fails it |
| `CustomerPayments.CopyKeys` | src/customer-payments/customer-payment.service.ts:81-87 | the loop over the keys, in whatever order, copies the document |
| `CustomerPayments.FillFigures` | src/customer-payments/customer-payment.service.ts:89-120 | the figures every product has, and the failure of an amount that is not a number |
| `CustomerPayments.FillBilling` | src/customer-payments/customer-payment.service.ts:122-158 | the cash and the other branch set exactly the billing fields and leave all others |
| `CustomerPayments.CreditIsPercentPlusFixed` | src/customer-payments/customer-payment.service.ts:98-109 | the fold is the sum of the percentages over 100 times the project net cost plus the sum of the fixed amounts |
| `CustomerPayments.CreditIgnoresOrder` | src/customer-payments/customer-payment.service.ts:98-109 | permuting the discounts does not change the credit |
| `CustomerPayments.RoundingFacts` | src/utils/transformNumber.ts:6-9 | rounding to cents moves a value by less than half a cent down or at most half a cent up, gives whole cents, and fixes exactly the whole cents |
| `CustomerPayments.SplitConservesNetAmount` | src/customer-payments/customer-payment.service.ts:122-158 | deposit and both payments differ from the net amount by at most half a cent, and not at all if and only if the product is not cash or payment 2 has to cover whole cents |
| `CustomerPayments.WholeCentsSplitExactly` | src/customer-payments/customer-payment.service.ts:122-158 | with whole cents in, the split is exact |
| `CustomerPayments.RecordCarriesSplit` | src/customer-payments/customer-payment.service.ts:65-161 | the record carries the split, and amount minus credit minus program incentive is the net amount |
| `CustomerPayments.RecordIsComputedExactly` | src/customer-payments/customer-payment.service.ts:96-113 | the call fails if and only if a rebate or promotion is not a number |
| `CustomerPayments.SumByIs` | src/utils/big-number.ts:21-27 | the sum is that of the numbers and fails exactly on something that is none |
| `CustomerPayments.RecordFigures` | src/customer-payments/customer-payment.service.ts:94-120 | every figure of the record from the quote: rebate and promotions as their sums, credit as percentages of the project cost, fixed amounts and cash discount, amount as net plus credit plus promotions |
| `CustomerPayments.RecordIdentity` | src/customer-payments/customer-payment.service.ts:76-92 | a new document of its contract and opportunity, dated now |
| `CustomerPayments.BillingIs` | src/customer-payments/customer-payment.service.ts:122-158 | the deposit is the quote's; a product that is not cash is billed whole as payment 2 |
| `CustomerPayments.FirstPaymentIs` | src/customer-payments/customer-payment.service.ts:134-146 | with nothing paid, payment 1 is the smaller of rest and milestone in cents, a milestone in percent being that share of the net amount |
| `CustomerPayments.FirstPaymentBounds` | src/customer-payments/customer-payment.service.ts:134-153 | with nothing paid, a deposit within the net amount and a non-negative milestone, neither payment is negative, and payment 1 stays within the rest after the deposit exactly when rounding cannot lift it past |
| `CustomerPayments.FirstPaymentMayExceedRest` | src/customer-payments/customer-payment.service.ts:134-153 | an input where it does not: of a net amount of 0.006 payment 1 takes 0.01 |
| `CustomerPayments.PaidPaymentIsBilled` | src/customer-payments/customer-payment.service.ts:134-153 | an actual payment 1 is billed as made, payment 2 absorbs the difference to half a cent |
| `CustomerPayments.OtherKeysAreCopied` | src/customer-payments/customer-payment.service.ts:81-87 | every key the service does not recompute, actual amounts included, is the latest payment's |
| `PaymentLedger.AsWrittenTakesNewest` | src/customer-payments/customer-payment.service.ts:48-56 | as written the previous contract is the newest earlier one that is not grid services, completed or not |
| `PaymentLedger.AsWrittenIsAsMeantExactly` | src/customer-payments/customer-payment.service.ts:48-56 | that is the newest completed one, else the newest, if and only if the newest earlier contract is completed or no earlier one is |
| `PaymentLedger.RecordsPersist` | src/customer-payments/customer-payment.service.ts:163-173 | in any run a record keeps every field, save that recording an actual amount changes that amount |
| `PaymentLedger.LatestCarries` | src/customer-payments/customer-payment.service.ts:38-63 | once an actual deposit or payment is carried, the record the next contract copies is one that carries it, for both selections: with statuses it is enough that no older completed contract is preferred |
| `PaymentLedger.NewRecordOf` | src/customer-payments/customer-payment.service.ts:65-173 | creating appends one record, of its contract and opportunity, with the copied actual amounts and the split of the quote |
| `PaymentLedger.EveryRunIsLinked` | src/customer-payments/customer-payment.service.ts:163-173 | from an empty ledger, in every run with new contract ids, each payment has its contract and payments come in the order of their contracts |
| `PaymentLedger.RecordingStartsIt` | src/customer-payments/customer-payment.service.ts:38-63 | recording a deposit or payment on the newest record of an opportunity, completed or not, is enough for it to be carried from then on |
| `PaymentLedger.PaidForever` | src/customer-payments/customer-payment.service.ts:38-87 | whatever contracts, change orders, their updates, voids, completions and payments follow, every later record of the opportunity carries the actual deposit, payment 1 or payment 2, unless a status makes an older contract preferred |
| `PaymentLedger.LaterCashRecordBillsIt` | src/customer-payments/customer-payment.service.ts:134-153 | and every later cash record bills exactly an actual payment 1, payment 2 making up the rest to half a cent |
| `PaymentLedger.FirstContractLeads` | src/customer-payments/customer-payment.service.ts:163-173 | for both selections, the record of the very first contract that is not grid services is one such an amount can be recorded on before anyone has signed |
| `PaymentLedger.PaidOnceCarriedEverAfter` | src/customer-payments/customer-payment.service.ts:38-173 | the whole chain from an empty ledger: any events, a deposit or payment on the newest record, any events, and every record since carries it |
| `PaymentLedger.PaidOnceBilledEverAfter` | src/customer-payments/customer-payment.service.ts:38-161 | and if it was payment 1, the next cash record bills it |
| `CopiedPayments.CopiedExactly` | src/customer-payments/customer-payment.service.ts:54-63 | in any ledger a run leaves, the next contract copies a record if and only if it is that of the previous contract or, if that has none, the newest of the opportunity |
| `CopiedPayments.PreviousIs` | src/customer-payments/customer-payment.service.ts:38-56 | on the fields of the contracts: the previous one is the newest completed of the opportunity that is neither grid services nor the new one, where statuses are selected, else the newest such |
| `CopiedPayments.NoPreviousExactly` | src/customer-payments/customer-payment.service.ts:38-56 | there is none exactly when no contract of the opportunity qualifies |
| `CopiedPayments.RecordingIsSeenExactly` | src/customer-payments/customer-payment.service.ts:38-87 | an amount recorded on a record shows in the next contract's record if and only if that record is the one copied |
| `CopiedPayments.PaymentOnOlderContractIsNotSeen` | src/customer-payments/customer-payment.service.ts:48-63 | in any such ledger whose newest earlier contract is not the newest completed one, the record as written has the amounts of the former and misses those of the latter, which it would have with the status selected |
| `CopiedPayments.OlderPaymentHappens` | src/customer-payments/customer-payment.service.ts:48-63 | a run where it happens: two contracts, the first completed and then paid on; as written the next record shows nothing of the amount, with the status selected it shows it |
| `CarriedPayments.CarriedEverAfterExactly` | src/customer-payments/customer-payment.service.ts:38-87 | in any ledger a run leaves, whatever amount is recorded on a record, every later record carries it in every run with new ids that does not overwrite it, if and only if the record is the newest of its opportunity and no older one can be copied again: for the selection as written the contract of each older record is overtaken by a later one that is not grid services, with statuses there is no older record |
| `CarriedPayments.SettledForever` | src/customer-payments/customer-payment.service.ts:38-87 | the run form of the sufficient half, with the invariant that keeps it |
| `CarriedPayments.NotNewestIsLost` | src/customer-payments/customer-payment.service.ts:61-63 | the run that loses an amount not on the newest record: a contract whose payment cannot be computed makes the service fall back to the newest |
| `CarriedPayments.UnsettledIsLost` | src/customer-payments/customer-payment.service.ts:38-63 | the run that loses an amount while an older record can be copied again: statuses and a change-order update make its contract the previous one |
| `MonthlyUsage.CalculateMonthlyUsage` | src/external-services/external-service.service.ts:68-112 | the loop with its table of totals pushes what the fold of its body pushes, for data in any order and any table |
| `MonthlyUsage.LoopIsSlicing` | src/external-services/external-service.service.ts:87-112 | for consecutive hours and any increasing table, after any prefix exactly the completed months were pushed, each the sum of its slice, and the running total is the rest |
| `MonthlyUsage.CompletedMonthsIs` | src/external-services/external-service.service.ts:87-112 | the number of completed months is the only position that splits the table at the hour |
| `MonthlyUsage.FullYear` | src/external-services/external-service.service.ts:68-112 | a full year gives one numbered entry per month whose totals add up to the year |
| `MonthlyUsage.SourceTable` | src/external-services/external-service.service.ts:87-112 | the table in the code is such a table: 8760 hours give 12 entries with the total of the year |
| `EnergySeries.RotationIsPermutation` | src/external-services/external-service.service.ts:181-186 | rotating keeps every hour once if and only if the series is no longer than a year |
| `EnergySeries.RotationIsUndone` | src/external-services/external-service.service.ts:181-186 | rotating by the rest of the year undoes it, and hour k of the result is hour k + from of the year |
| `EnergySeries.CostSeriesConserves` | src/external-services/external-service.service.ts:179-206 | both series are non-negative, import minus export is the rotated net load at every hour, export totals 1.068 times the raw export, and total import minus total export is the total of the year |
| `EnergySeries.SumOfPositives` | src/external-services/external-service.service.ts:196-201 | filtering the positive values before adding loses nothing of the export |
| `EnergySeries.EveryHourIs` | src/external-services/external-service.service.ts:181-206 | each hour of both series from the rotated load, with the same share of the correction on every hour |
| `TariffPaging.FetchIsComplete` | src/external-services/external-service.service.ts:132-166 | the answers to the requests, appended in order, are the whole list; the requests start at the multiples of the page size and there are ceil(total / page) of them, or one when the list fits a page |
| `TariffPaging.BatchesAreSlice` | src/external-services/external-service.service.ts:146-160 | requests a page apart, none past the end, fetch a beginning of the list without gap or repeat |
| `InstalledProducts.Store.UpdateLatestProductData` | src/installed-products/installed-product.service.ts:61-117 | the four loops, one nested, then delete and insert replace the opportunity's rows by the flattened payload; a negative battery count throws and stores nothing |
| `InstalledProducts.Store.RemoveManyByOppId` | src/installed-products/installed-product.service.ts:57-59 | removes exactly the rows of the opportunity and keeps the order of the others |
| `InstalledProducts.RowsAreLastPayload` | src/installed-products/installed-product.service.ts:61-117 | after any updates of any opportunities, the rows of an opportunity are its last payload flattened, or what they were if it had none |
| `InstalledProducts.FlatteningPreservesQuantities` | src/installed-products/installed-product.service.ts:66-113 | every product's total quantity over the rows is its total over the four lists |
| `InstalledProducts.StorageRowsFacts` | src/installed-products/installed-product.service.ts:92-102 | batteries become rows of quantity one without an array index |
| `InstalledProducts.PanelRowsAreNumbered` | src/installed-products/installed-product.service.ts:104-113 | the rows with an array index are the panel arrays, numbered from 0 in order, after all other rows |
| `InstalledProducts.RowsAreAsListed` | src/installed-products/installed-product.service.ts:72-90 | ancillary equipment and inverters stand first as listed, and every row is by the user and for the opportunity |
| `ContractSystem.Service.SaveContractAdd` | src/contracts/contract.service.ts:236-307 | contract, payment and figures after each way the call ends, failures that leave the contract stored included |
| `ContractSystem.Service.VoidContractAt` | src/contracts/contract.service.ts:960-1052 | status, figures and products after voiding, failures after the figures were zeroed included |
| `ContractSystem.Service.VoidEndpoint` | src/contracts/interceptors/void-contracts.interceptor.ts:19-37 | voiding the related contracts one by one in an unspecified order is voiding them all at once |
| `ContractSystem.CascadeIgnoresOrder` | src/contracts/interceptors/void-contracts.interceptor.ts:24-26 | whatever the order and however often contracts are voided, statuses and figures come out alike |
| `ContractSystem.VoidOneMore` | src/contracts/contract.service.ts:979-1028 | voiding one contract after a set of them is voiding the larger set, zeroed opportunities included |
| `ContractSystem.FiguresAreZeroedExactly` | src/contracts/contract.service.ts:986-1028 | after any sequence of voids the amount, project amount and attributes are zeroed if and only if a contract of the opportunity was voided and no completed one but grid services remains at the end |
| `ContractSystem.VoidedChangeOrderRestoresProducts` | src/contracts/contract.service.ts:1030-1051 | voiding a change order with a user and a known design leaves the rows of the primary contract's design, other opportunities untouched |
| `ContractSystem.AmountsAreExplained` | src/contracts/contract.service.ts:279-287 | in any run of saves, change orders and their updates, voids, completions and payments an opportunity's amount is the initial one, zero, or that of the payment created by a step of the run that saved a primary contract of it, a record still in the ledger |
| `ContractSystem.SaveExplainsAmount` | src/contracts/contract.service.ts:1130-1137 | a step that gives an opportunity a new amount other than zero is a save of a primary contract of it, and the amount is that of the payment just created |
| `ContractSystem.SaveDoes` | src/contracts/contract.service.ts:236-307 | every way a save ends, on the fields: when the contract and a payment are stored, when it succeeds, and when and to what amount and attributes are set |
| `ContractSystem.SavedAmountIs` | src/contracts/contract.service.ts:1130-1137 | the amount a primary contract sets, from its quote alone |
| `ContractSystem.SaveChangeOrderDoes` | src/contracts/contract.service.ts:534-558 | a new change order is stored INITIATED with a payment if one can be computed, and changes no figure and no product |
| `ContractSystem.EndpointVoidsExactly` | src/contracts/interceptors/void-contracts.interceptor.ts:19-37 | which contracts the endpoint voids: the one named and, unless restoring products fails, exactly those that name it as primary and are not grid services |
| `ContractSystem.EndpointZeroesExactly` | src/contracts/contract.service.ts:979-1028 | it zeroes amount, project amount and attributes of exactly the opportunities it voids a contract of and leaves without a completed one but grid services |
| `ContractSystem.EndpointProducts` | src/contracts/contract.service.ts:1030-1051 | when it replaces the installed products and by what, and when it fails over them |
| `PanelVariants.GenerateVariants` | src/e-commerces/e-commerce.service.ts:71-156 | ends and loop offer every offset from -5 to 5 exactly once if its quote is valid and never otherwise, each with its panels and generation |
| `PanelVariants.DefaultIsOfferedExactly` | src/e-commerces/e-commerce.service.ts:139-155 | a default is among them if and only if the quote of offset 0 is valid |
| `PanelVariants.DefaultCoversUsage` | src/e-commerces/e-commerce.service.ts:312-329 | a number of panels covers the usage if and only if it is at least the computed one: the default system is the smallest that does |
| `PanelVariants.InterpolationIsExact` | src/e-commerces/e-commerce.service.ts:132-141 | if generation is affine in capacity, interpolating between the measured ends is evaluating at the offset |
| `PanelVariants.InterpolationStaysBetween` | src/e-commerces/e-commerce.service.ts:731-733 | otherwise it stays between the ends |
| `PanelVariants.OffersAreExact` | src/e-commerces/e-commerce.service.ts:80-155 | for affine generation every offer from -5 to 5, ends included, has its panels, its default mark and exactly what they generate |
| `PanelVariants.EndsAreMeasured` | src/e-commerces/e-commerce.service.ts:88-121 | the low end is offered with the low measurement and the high end with the high one |
| `PanelVariants.TotalCostIsMonotone` | src/e-commerces/e-commerce.service.ts:735-757 | with non-negative rates a larger system or another battery never costs less |
| `PanelVariants.TotalCostIs` | src/e-commerces/e-commerce.service.ts:735-757 | the price in closed form: materials and labor per watt and batteries with one base cost, each with its mark-up |
| `ContractNames.EncodingNeverShortens` | src/contracts/contract.service.ts:1360-1368 | percent-encoding never shortens a string |
| `ContractNames.NamesAreShort` | src/contracts/contract.service.ts:1351-1368 | for all names and the suffixes the callers pass, the result is shorter than 100 characters and ends with suffix and extension |
| `ContractNames.GspNamesAreShort` | src/contracts/contract.service.ts:1370-1386 | the same for grid-service names |
| `ContractNames.DownloadNamesStartWithFirstName` | src/contracts/contract.service.ts:794-860 | a download name starts with the first name, cut to 20 characters, where the last was meant |
| `ContractNames.EncodedName` | src/contracts/contract.service.ts:1351-1358 | the encoded length of a built name is that of its parts and the fixed ones in between, and it cannot be encoded if and only if one of the parts cannot |
| `ContractNames.SlicedNameEncodesShortExactly` | src/contracts/contract.service.ts:1360-1368 | for all names, lone surrogates included: the slicer throws exactly when a part cannot be encoded, and its answer encodes under 100 if and only if the parts or their cuts do |
| `ContractNames.SlicedGspNameEncodesShortExactly` | src/contracts/contract.service.ts:1378-1386 | the same for grid-service names |
| `ContractNames.UnreservedNamesEncodeShort` | src/contracts/contract.service.ts:1360-1368 | an instance: names of unreserved characters always do |
| `ContractNames.SlicedNamesMayEncodeLong` | src/contracts/contract.service.ts:1360-1368 | inputs where it does not: long names of spaces, with any suffix and extension |
| `ContractNames.CutThroughPairCannotBeEncoded` | src/contracts/contract.service.ts:1360-1368 | and inputs whose sliced name cannot be encoded at all: the cut at 20 runs through a surrogate pair |
| `ContractNames.NamesAre` | src/contracts/contract.service.ts:1351-1368 | the characters of the name: the parts in full when they encode under 100, else cut at 20, 1 and 25 |
| `ContractNames.GspNamesAre` | src/contracts/contract.service.ts:1370-1386 | the same for grid-service names, cut at 20 and 40 |
| `ContractNames.EncodedCharacter` | src/contracts/contract.service.ts:1364 | the encoded length of every single character and surrogate pair |
| `ContractNames.DownloadSuffixes` | src/contracts/contract.service.ts:794-860 | the suffix of each kind of contract, completed or not |
| `TokenStore.Service.AddDocusignIntegration` | src/docusign-integration/docusign-integration.service.ts:76-100 | creates the record of a type or replaces its credentials and drops its token, leaving the cache |
| `TokenStore.Service.UpdateAccessToken` | src/docusign-integration/docusign-integration.service.ts:57-74 | the cache takes the token first, the record only if logging in works |
| `TokenStore.EveryRunHasOnePerType` | src/docusign-integration/docusign-integration.service.ts:57-132 | in every run there is at most one record per type and the cache points at it |
| `TokenStore.UseKeepsMatchExactly` | src/shared/docusign/docusign-api.service.ts:127-157 | using the API keeps each stored token with the credentials stored beside it if and only if it does not refresh or the cached credentials are the stored ones |
| `TokenStore.TokensMatchThroughoutExactly` | src/shared/docusign/docusign-api.service.ts:127-157 | throughout any run each stored token belongs to the credentials stored beside it if and only if every refresh of the run asked with the credentials stored at that time |
| `TokenStore.TokensMatchInRun` | src/docusign-integration/docusign-integration.service.ts:57-132 | so it is in every run that leaves cached credentials alone |
| `TokenStore.ReplacedCredentialsGetOldToken` | src/shared/docusign/docusign-api.service.ts:127-157 | replacing them does break it: the next refresh stores a token of the old credentials |
| `TokenStore.AddDoes` | src/docusign-integration/docusign-integration.service.ts:76-100 | adding an integration, on the fields of the records |
| `TokenStore.ConsentDoes` | src/docusign-integration/docusign-integration.service.ts:102-132 | when consent succeeds, and the token it caches and stores |
| `TokenStore.UpdateDoes` | src/docusign-integration/docusign-integration.service.ts:57-74 | storing a token: nothing without the record, the cache always, the record only if logging in works |
| `TokenStore.UseOfCachedDoes` | src/shared/docusign/docusign-api.service.ts:127-157 | a cached token is used until it expires, then one is asked for with the cached credentials |
| `TokenStore.UseOfUncachedDoes` | src/shared/docusign/docusign-api.service.ts:292-312 | a type that is not cached is cached first, if its record has a token |

## Left out

- PaymentLedger.RecordingStartsIt: sufficient for every later record; `CopiedPayments.RecordingIsSeenExactly` has the exact condition for the next record and `CarriedPayments.CarriedEverAfterExactly` that for all runs.
- PaymentLedger.PaidForever: the recorded amount is not overwritten later, contract ids are new, and with the status selected no older completed contract comes to be preferred; `CarriedEverAfterExactly` says when that last condition is not needed.
- TokenStore.TokensMatchInRun: a sufficient condition on the calls; `TokensMatchThroughoutExactly` has the exact one.
- RecipientRouting.OneIdPerPerson: asks for a widest template that covers all signer roles; `IdsCollideExactly` says when ids collide without it.
- SignerStatus.CallbackIsIdempotent: the completion date is moved by whole days of 24 hours; daylight saving in the server's time zone is not modelled.
- EnergySeries.CostSeriesConserves: over real numbers; the rounding of binary floating point is not modelled, here and for payments, interpolation and totals.
- Lookups of contracts, quotes, opportunities and contacts by id, and the envelope id mismatch in the callback's filter: the answers are parameters.
- DocuSign, the tariff API, PVWatts, storage, mail and the database: their answers are parameters; interleavings of two calls are not modelled, except that related contracts are voided in any order.
- Grid-service contracts pushed through `sendContract`, which does not look at the type; templates copied by `saveGSPContract`; the figures after voiding a grid-service contract through its own endpoint.
- `saveContract`'s last update (utility program, rebate program, electronic payment settings) and the grid-service terms it writes first; both touch no figure modelled here.
- The conditions under which a change order may be created (src/contracts/pipes/change-order-validation.pipe.ts): the model allows more runs.
- Recipient ids and routing orders are numbers here and decimal strings in the payload; template lookup and document merging are not modelled.
- Two records with the same creation time: order of creation is the order of the sequence.
- A design factor of zero, which makes the panel count infinite, and the quotes and payment options of a variant; whether a quote is valid is a parameter.
- Lease-configuration lookup, discount and promotion dates, typical usage, annual bill, energy profile, health checks: easy or data only.
- Controllers, modules, other pipes and interceptors, data-transfer classes, infrastructure: wiring.
- `GetDocusignIntegrationInstance`: reflection on parameter names.
