# A model of the platform's invoicing, billing and Mercado Pago core

This project models four parts of the platform backend and proves what they promise.

1. **ARCA invoice issuing** (`Invoice*.dfy`). A durable table of invoice rows, workers that claim a
   row, look up, number, submit and record it, and a remote tax authority whose calls may be lost
   or arrive late. `InvoiceMachine` is the protocol as a step machine over every interleaving of
   workers, requests, profile changes, validations, deliveries, refusals and crashes;
   `InvoiceSafety`, `InvoiceNumbering`, `InvoiceProgress`, `InvoiceLifecycle`, `InvoiceOutcomes` and
   `InvoiceProfiles` are theorems about all its runs, and `InvoiceWitness` exhibits runs.
   `InvoicePath` says which acts a worker does on its row within a run; `InvoiceService`, `InvoiceWorker` and `InvoiceRequests` are the service in its own imperative
   form, proved to do exactly the acts of the machine that their contracts name, whatever others
   do between its commits. Which commits are lost and which calls fail is fixed by the environment
   (`outage`, `trouble`), so that a recorded error always has a cause there.
2. **VAT amounts** (`Rounding.dfy`, `Vat.dfy`). Decimal division at 28 significant digits followed by
   quantization to cents, proved equal to exact half-up rounding, and the balance of every invoice.
3. **The usage ledger** (`Billing*.dfy`). Counters, events and reservations; `BillingRules` says what each
   operation decides, `BillingMachine` interleaves the read and write steps of transactions under
   the subscription lock, `BillingQuota` and `BillingAgreement` are the quota and the agreement of the
   four answers, `BillingOutcomes` says from the columns what each operation comes to, and
   `BillingService` is the code in its own form.
4. **Credentials and OAuth** (`Keyring.dfy`, `CredentialVault.dfy`, `MercadoPago*.dfy`). An ideal keyed
   cipher, the rotation of ARCA credentials, and the life of authorization states and tokens.

`Traces.dfy` has runs of a step relation and induction over them; `Common.dfy` the optional value.

## What is assumed

The theorems hold under these hypotheses, which the code relies on without enforcing them.

- The authority issues number n of a sequence only right after n - 1, and a lookup of n finds it exactly
  when it was issued. Vouchers above the starting number come only from this table.
- The authority acts on each call once, at any later time, by issuing the number or refusing it. Any answer
  other than a time-out or an unavailability arrives only after it acted; until then a call whose
  worker timed out or died stays outstanding.
- One worker works on a row at a time: the lease of `app/arca/service.py:625-626` outlasts the attempt. The row
  lock of the worker's query ends with the first commit, so nothing else ensures it. In the model
  `SelectDue` skips rows somebody is working on.
- The profile check of an attempt and its claim are one step, and so are the reads and the write of a
  completed receiver. The identification threshold is fixed.
- SHA-256 is injective (a hash is represented by what is hashed) and the cipher is ideal.
- A commit that reports a failure has not taken effect, the commit that quarantines a row is not lost, and
  nothing raises after the last commit of an attempt. After a lost commit the session refuses to commit
  until it is rolled back, which only `app/arca/service.py:679-681` does: so any other lost commit makes
  the attempt raise, also where `app/arca/service.py:707-708` handles the exception.
- A tenant's billing transactions are serialised by its one subscription row, and `consume_usage`, which
  takes no lock, runs between them as one step. Usage keys of clients do not start with
  `reservation:`, and the identifier of a new reservation is new.
- No key is retired from a keyring, and no request spans a change of keys.
- `start_authorization` is one step per tenant.

## What was found

- **Progress fails.** From any reachable state a sequence can advance if and only if no finished row holds its
  next number without an outstanding call for it. A row that the authority refused, or an explicit request
  rejected for being ahead of its turn once the sequence arrives there, blocks it for ever: the query at
  `app/arca/service.py:656-666` skips rejected rows but the unique constraint does not
  (`AdvancesUnlessBlocked`, `RefusedRowBlocks`, `ProgressFails`).
- **A late call conflicts with itself.** An automatic row ends in `correlative_conflict` exactly when its own voucher
  had been issued by the time it asked for the last number, after a lookup that still missed it
  (`ConflictMeansIssued`, `AutomaticConflict`). If no call outlives its worker's wait it never happens
  (`PromptRunsNeverConflict`).
- **A foreign voucher can be adopted.** An approved row's voucher is its own if and only if its number is above
  the sequence's starting number (`ExactlyOnce`, `ForeignVoucherAdopted`).
- **Completing a receiver.** `docs/arca_invoicing_service.txt:688` says that dates and items must be repeated exactly;
  the code compares only `external_id` and `sale_id`, stores the original dates and items, and refuses
  the same completion as a conflict when it is repeated (`ResumeThenReplay`, `CompletionRefusedWhenRepeated`).
- **The month boundary.** `check_and_consume_usage` checks one clock reading and records another; the quota is guaranteed if
  and only if both fall in the same month (`QuotaNeedsOneMonth`).
- **Letter case.** The tenant status compares the stored subscription status as it is, the check lowers it first
  (`StatusAgreesIffLowerCase`).
- **Unlinking does not stop an exchange in flight.** After an unlink the tenant stays unlinked until it starts a new
  authorization if and only if each of its exchanges had ended or been answered with a blank secret
  (`UnlinkHoldsUnlessInFlight`, `UnlinkIsOvertaken`).
- **A validation lands on the profile as it is by then.** It is recorded without a lock, so it stands for the
  profile that was tried if and only if that was neither saved over nor deleted in between
  (`ValidatedAsRead`). A deleted profile stays deleted until it is saved again if and only if no
  validation that read it before the deletion has yet to record its outcome
  (`DeletedUnlessInFlight`, `DeletedProfileRevived`).
- **A duplicate that loses the race is compared by its hash only.** A request that repeats one committed at the same
  moment changes nothing and is answered by hash, even while the row waits for its receiver
  (`RacedReplayIsIdempotent`).

## Model

| member | source | states |
|---|---|---|
| InvoiceSafety.ExactlyOnce | app/arca/service.py:613-721 | In every reachable state, under crashes, lost answers and late calls, at most one voucher per row; an approved row holds the CAE issued under its number, which no other row has, and the voucher is its own if and only if the number is above the starting number |
| InvoiceSafety.IssuedOnce | app/arca/service.py:635-708 | In a whole run the authority acts on the calls of one row at most once |
| InvoiceSafety.ResendGuard | app/arca/service.py:635-698 | Between two submissions of a row there is a lookup of that very number answering that it does not exist, and both carry the number committed before the first |
| InvoiceSafety.SentStays | app/arca/service.py:676-698 | A submitted number stays the committed number of its row for ever |
| InvoiceInvariant.StepKeepsInv | app/arca/models.py:71-81 | The invariant joining rows, unique constraints, jobs, submissions and the authority's sequence survives every step |
| InvoiceInvariant.OthersKeepRow | app/arca/service.py:613-708 | Steps of others change neither a row being worked on nor its worker's position |
| InvoiceNumbering.GapFree | app/arca/service.py:651-697 | Every automatically reserved number is issued or exactly the next one, and a sequence has at most one automatic reservation outstanding; the advisory lock is not used |
| InvoiceNumbering.ConflictMeansIssued | app/arca/service.py:651-697 | An automatic row ends in a correlative conflict exactly when its own voucher had been issued when it asked for the last number |
| InvoiceNumbering.PromptRunsNeverConflict | app/arca/service.py:690-697 | Without calls that outlive their worker's wait no automatic row ends in a correlative conflict |
| InvoiceProgress.AdvancesUnlessBlocked | app/arca/service.py:651-697 | From any reachable state a sequence can advance if and only if no finished row holds its next number without a call for it that the authority has yet to act on |
| InvoiceProgress.IssuedRowsRecover | app/arca/service.py:635-645 | Wherever its worker is or died, an active row whose number was issued to it can still be approved with that CAE without submitting again |
| InvoicePath.ResubmissionLooksUp | app/arca/service.py:635-698 | An attempt that submits a row again has first been told that its number does not exist |
| InvoiceWitness.ProgressFails | app/arca/service.py:656-689 | A reachable state whose sequence can never advance again |
| InvoiceWitness.RefusedRowBlocks | app/arca/service.py:698-708 | A reachable automatic row that the authority refused, nobody working, whose sequence can never advance again |
| InvoiceWitness.AutomaticConflict | app/arca/service.py:690-697 | A reachable automatic row rejected for its own voucher |
| InvoiceWitness.ForeignVoucherAdopted | app/arca/service.py:635-645 | A reachable approved row holding a voucher issued to somebody else |
| InvoiceWitness.CompletionRefusedWhenRepeated | app/arca/service.py:504-548 | A completion that also changes the lines is accepted and then refused as a conflict when repeated |
| InvoiceWitness.DeletedProfileRevived | app/arca/service.py:273-292 | A run in which a validation begins, its profile is deleted, and the outcome brings the profile back |
| InvoiceLifecycle.RetryMachine | app/arca/service.py:732-743 | A retry time is set exactly while a row is active, a retrying row has made one to four attempts, exactly approved rows hold a CAE |
| InvoiceLifecycle.TerminalIsForever | app/arca/service.py:613-615 | A finished row never changes again |
| InvoiceLifecycle.WorkIsBounded | app/arca/service.py:43-47 | A row is attempted at most five times plus once per crash, and workers take a bounded number of steps on it |
| InvoiceLifecycle.ProfileFreeze | app/arca/service.py:187-246 | While an invoice is not finished its profile exists, is not deleted or unvalidated, and still has the configuration the invoice copied |
| InvoiceProfiles.ValidatedAsRead | app/arca/service.py:273-292 | An outcome lands on the profile that was read and tried if and only if nobody saved over or deleted it in between, which an open invoice rules out |
| InvoiceProfiles.DeletedUnlessInFlight | app/arca/service.py:223-292 | In every state a deleted profile stays deleted until its tenant saves it again if and only if no validation of it is in flight |
| InvoiceProfiles.ValidWasTried | app/arca/service.py:187-292 | In any run a valid profile has passed a validation that ended since it was last saved over or deleted |
| InvoiceLifecycle.IdentificationGate | app/arca/service.py:414-419 | A row waits for its receiver exactly while its total reaches the threshold and its receiver is anonymous; no such row is ever active or approved |
| InvoiceLifecycle.RequestCoherence | app/arca/service.py:421-456 | Hash, receiver, identifiers and amounts of every row are those of its stored request, with the number in the hash only when explicit |
| InvoiceLifecycle.ReplayIsIdempotent | app/arca/service.py:372-387 | Resubmitting changes nothing and is answered from the stored row exactly when environment, number and content are those stored |
| InvoiceLifecycle.RacedReplayIsIdempotent | app/arca/service.py:473-483 | A duplicate that only meets the unique constraint changes nothing and, unless its concept refuses it, is answered by comparing hashes |
| InvoiceLifecycle.ReplayBeforeResume | app/arca/service.py:374-380 | Repeating the creating request of a row that waits for its receiver changes nothing |
| InvoiceLifecycle.ResumeEffect | app/arca/service.py:521-538 | Completing the receiver changes only receiver, number and retry columns of that one row |
| InvoiceLifecycle.ResumeThenReplay | app/arca/service.py:497-548 | The same completion again is answered from the row if and only if it differed from the stored request only in the receiver |
| InvoiceOutcomes.ErrorsAreHandled | app/arca/service.py:732-743 | In a run, whatever reports an error ends the attempt and leaves that error on the row: a time-out, an unavailable authority or a busy sequence is retried 1, 10, 30 or 60 minutes later after the first four attempts and fails the row from the fifth on; any other error rejects it at once |
| InvoiceOutcomes.ActsDo | app/arca/service.py:613-730 | What every other act does to the columns of its row and to its worker: claimed and leased, finished for its profile, numbered or found busy, conflicting, approved with the CAE, rejected, set aside, or untouched |
| InvoiceOutcomes.StatusTellsWhy | app/arca/service.py:613-743 | In every reachable state the status, the error and the attempts of a row explain each other |
| InvoiceOutcomes.NewRequestAnswer | app/arca/service.py:361-495 | A request under a new external id is accepted exactly when entitlement, profile, concept, dates, sale and number permit it; otherwise the first obstacle is its refusal, and a lost race only moves the sale behind concept and dates |
| InvoiceOutcomes.NewRow | app/arca/service.py:411-456 | Every column of an accepted request: it is due at once, or waits for its receiver without a retry time |
| InvoiceOutcomes.CompletionAnswer | app/arca/service.py:497-548 | A row that waits for its receiver is completed exactly by the same sale, an identified receiver and a number no other row of the sequence has |
| InvoiceOutcomes.CompletedRow | app/arca/service.py:521-540 | The completed row has the receiver and the number, no error, and is due at once; no other row changes |
| Invoice.ChangeKeepsOk | app/arca/service.py:497-743 | Retry bookkeeping, request coherence and the identification gate survive every change of a row |
| Invoice.ChangeKeepsNumber | app/arca/service.py:613-743 | Finished rows do not change and a number once held is kept |
| Invoice.HandlingWaits | app/arca/service.py:43-47 | The schedule of retries by attempt and error, and what ends them |
| InvoiceService.Platform.Process | app/arca/service.py:613-708 | One call does on its row the acts of one whole attempt of the machine, from the claim to a recorded outcome, each error with its cause; it raises exactly when one of its commits was lost |
| InvoiceService.Platform.Attempt | app/arca/service.py:629-708 | After the claim: client, lookup, sequence, submission; the attempt ends in a recorded outcome that has its cause, or raises, exactly when a commit was lost |
| InvoiceService.Platform.LookUp | app/arca/service.py:635-649 | A first attempt skips the lookup; a later one goes on exactly when its number is reported missing, and otherwise records approval, rejection or the error |
| InvoiceService.Platform.AskForLast | app/arca/service.py:651-654 | The next number is the authority's last plus one, unless the question fails, which is handled |
| InvoiceService.Platform.QueryHolder | app/arca/service.py:655-666 | The number is free exactly when no other row of the sequence that is not rejected holds it |
| InvoiceService.Platform.TakeNumber | app/arca/service.py:655-689 | The row gets the next number, or is retried as busy because another row held it, or a failed query is handled; it raises exactly when a commit was lost |
| InvoiceService.Platform.Reserve | app/arca/service.py:676-689 | The number is committed unless another row holds it, which rolls it back, or the commit is lost |
| InvoiceService.Platform.CompareNumber | app/arca/service.py:690-697 | The attempt ends in a correlative conflict exactly when the number is not the next one |
| InvoiceService.Platform.Emit | app/arca/service.py:698-708 | The row is submitted and approved with the CAE exactly when the authority answers with one, rejected without one, handled when the call fails |
| InvoiceService.Platform.Approve | app/arca/service.py:710-721 | The whole new row of an approval, or nothing |
| InvoiceService.Platform.FinishError | app/arca/service.py:723-730 | The whole new row of a final error, or nothing |
| InvoiceService.Platform.HandleError | app/arca/service.py:732-743 | The whole new row of a retried or final error, with the delay in range, or nothing |
| InvoiceService.Platform.Begin | app/arca/service.py:622-627 | One commit counts the attempt and leases the row until now plus the lease; a lost one changes nothing |
| InvoiceService.Platform.Quarantine | app/arca/worker.py:46-54 | Only the quarantine columns of that row change |
| InvoiceWorker.ArcaInvoiceWorker.SelectDue | app/arca/worker.py:27-40 | The due row with the least retry time and id not yet seen, or none exactly when there is none |
| InvoiceWorker.ArcaInvoiceWorker.RunOnce | app/arca/worker.py:22-57 | Each row handled was the first due one not yet handled at its selection and is handled whole; at most batch size rows, none twice; the batch stops early only when at its last reading none is left |
| InvoiceWorker.ArcaInvoiceWorker.HandleOne | app/arca/worker.py:44-54 | The row is processed whole, or set aside exactly when a commit of it was lost |
| InvoiceRequests.InvoiceRequestService.Enqueue | app/arca/service.py:361-495 | Verdict and new table are those of the machine's submission; only a request that found neither its external id nor its sale is left to the constraints |
| InvoiceRequests.InvoiceRequestService.Existing | app/arca/service.py:497-520 | What a stored row answers to a repeated request |
| InvoiceRequests.InvoiceRequestService.Constrain | app/arca/service.py:470-495 | Which constraint violation is reported |
| InvoiceRequests.InvoiceRequestService.Complete | app/arca/service.py:521-548 | The completed row |
| InvoiceRequests.FiscalProfileService.Upsert | app/arca/service.py:187-221 | A profile is saved exactly when the plan grants the feature, its credentials are accepted and encrypted, and no open invoice uses it; it then awaits validation; otherwise the first obstacle is answered and nothing changes |
| InvoiceRequests.FiscalProfileService.Delete | app/arca/service.py:223-246 | A profile is deleted exactly when it exists, is not deleted and has no open invoice |
| InvoiceRequests.FiscalProfileService.Validate | app/arca/service.py:273-292 | The live profile of an entitled tenant is tried, without a lock and whatever others do meanwhile, and the outcome of the call is recorded on it as it is by then; otherwise nothing changes and the obstacle is answered |
| Rounding.DivideIsNearest | app/arca/service.py:800-800 | The decimal quotient has 28 digits and is within half a unit of its last one |
| Rounding.TwoStageDivision | app/arca/service.py:63-64 | Dividing at 28 digits half-even and quantizing half-up to cents is exact half-up rounding |
| Vat.NetIsExact | app/arca/service.py:799-800 | For every quantity, price and rate of the columns the net amount is the exact half-up quotient |
| Vat.LineSplit | app/arca/service.py:798-802 | Each final amount is the nearest cent of quantity times price; the row balances, 0 <= net <= final, and its tax is the nearest cent |
| Vat.HeaderSplit | app/arca/service.py:803-806 | The header is the sum of its lines, balances, and its tax is within half a cent per line of the exact tax |
| Vat.SplitInvertsGrossUp | app/arca/service.py:800-801 | Splitting the rounded gross price of a net amount gives that net amount back |
| Vat.CalculateAmounts | app/arca/service.py:791-806 | The accumulating loop computes the specified rows and sums |
| BillingMachine.BooksBalance | app/billing/service.py:381-427 | In every state of every interleaving each counter is the sum of its events, and committed reservations match their events one to one in key, amount and month |
| BillingMachine.WriteRespectsQuota | app/billing/service.py:234-281 | Each write of a transaction leaves every feature and month no more loaded, or within the limit it read |
| BillingMachine.FixedLimitHolds | app/billing/service.py:303-379 | With a fixed limit, consumed plus reserved never exceeds it in any run |
| BillingMachine.WritesTakeEffect | app/billing/service.py:368-378 | What a transaction decided under the lock still applies when it writes, no unique constraint refuses it, and all of it takes effect |
| BillingMachine.ReservedCapacity | app/billing/service.py:349-427 | After any run of other steps an active reservation can be committed, adding its amount to its own month and leaving consumed plus reserved unchanged |
| BillingMachine.ReservedIsReleasable | app/billing/service.py:429-443 | After any run of other steps an active reservation can also be released, which frees exactly its amount in its own month |
| BillingOutcomes.CommitSucceeds | app/billing/service.py:381-427 | Committing an active reservation is granted whatever the plan says, records one event and its amount in its own month under its own limit, and leaves consumed plus reserved unchanged |
| BillingOutcomes.ReleaseSucceeds | app/billing/service.py:429-443 | Releasing an active reservation is granted, marks it released, writes no event or counter, and lowers the load of its month by its amount and no other |
| BillingOutcomes.ReleaseUndoesReserve | app/billing/service.py:303-443 | After a granted reservation is released the loads and the log are as before, and the same request is granted again |
| BillingOutcomes.ActionReplies | app/billing/service.py:381-443 | The status of the reservation decides what a commit and a release answer; a refusal writes nothing |
| BillingOutcomes.ReserveSucceeds | app/billing/service.py:349-379 | A granted reservation adds its amount to what is reserved of the current month and to nothing else, in a new row or the released one of the same request |
| BillingOutcomes.ReserveReplies | app/billing/service.py:303-347 | A reservation conflicts, is answered again, or is granted exactly in the stated cases; nothing is written otherwise |
| BillingOutcomes.NumbersTell | app/billing/service.py:333-379 | The numbers answered are the consumed and reserved amounts of the month and limit concerned, and what is left of it |
| BillingOutcomes.ReserveSeesSubscription | app/billing/service.py:319-322 | A reservation is denied for its subscription exactly when that is missing, ended or not paying, with the reason its end date and status text give |
| BillingOutcomes.CheckSeesSubscription | app/billing/service.py:746-757 | So is a check: ended means an end before now, and the status is compared in any letter case |
| BillingOutcomes.CheckAllowsExactly | app/billing/service.py:99-211 | A check allows exactly what a subscription in force, the plan and the room under the limit allow, for every type of feature, and each refusal has its reason |
| BillingOutcomes.CheckNumbers | app/billing/service.py:133-205 | The limit, used and remaining numbers of each type of feature |
| BillingOutcomes.RefusalNumbers | app/billing/service.py:99-141 | A refusal that comes before any limit carries no numbers, but for the plan's limit of a feature switched off |
| BillingOutcomes.StatusNumbers | app/billing/service.py:52-81 | The tenant status shows the features of the plan, enabled exactly while the subscription is in force with its status stored in lower case, with the numbers of the check |
| BillingOutcomes.ConsumeRecords | app/billing/service.py:229-301 | A granted check-and-consume records exactly the amount asked for, as one event and in one counter, in the month of the occurrence or of the later reading; otherwise nothing is written |
| BillingOutcomes.UncheckedRecords | app/billing/service.py:591-634 | So does an unchecked consumption whose key is new |
| BillingMachine.CommittedIsForever | app/billing/service.py:388-389 | A committed reservation never changes |
| BillingMachine.LogOnlyGrows | app/billing/models.py:140-162 | Events are never removed or rewritten |
| BillingQuota.TransactionRespectsQuota | app/billing/service.py:234-379 | One transaction never raises a load beyond the limit of the plan it read |
| BillingQuota.QuotaNeedsOneMonth | app/billing/service.py:252-279 | The quota is guaranteed for every ledger and plan if and only if both clock readings fall in one month |
| BillingQuota.LoadAfter | app/billing/service.py:349-443 | How much each write adds to consumed and to reserved; committing moves it from one to the other, a refused write moves nothing |
| BillingRules.EffectKeepsLedger | app/billing/service.py:591-634 | Every decided write keeps conservation, uniqueness and the settlement of reservations |
| BillingAgreement.DecisionsAgree | app/billing/service.py:52-81 | Check, reservation, check-and-consume and tenant status give the same answer |
| BillingAgreement.ReserveAgreesWithCheck | app/billing/service.py:319-347 | A reservation is granted or denied, with the same reason, as the check allows or denies |
| BillingAgreement.ConsumeAgreesWithCheck | app/billing/service.py:252-263 | Check-and-consume in the current month answers as the check, for every feature type |
| BillingAgreement.StatusAgreesWithCheck | app/billing/service.py:57-81 | The status offers an amount exactly when the check allows it and the status is stored as an active one |
| BillingAgreement.CheckedRemainingIsExact | app/billing/service.py:143-170 | An amount would be allowed exactly when it is at most the number reported to remain |
| BillingAgreement.ReservedRemainingIsExact | app/billing/service.py:333-379 | After a reservation is granted or denied for its quota, another is granted exactly when its amount is at most the number reported to remain |
| BillingAgreement.StatusAgreesIffLowerCase | app/billing/service.py:743-757 | Status and check agree for every ledger if and only if the plan sells nothing, the subscription is denied or its status is stored in lower case |
| BillingAgreement.UpperCaseIsShownDisabled | app/billing/service.py:743-744 | A subscription on which they disagree |
| BillingService.UsageBooks.Check | app/billing/service.py:99-211 | The reason is that of the first failing test, with the limit, used and remaining numbers of that answer |
| BillingService.UsageBooks.Reserve | app/billing/service.py:303-379 | Reply, numbers and new tables are those decided; the books balance and the quota is respected |
| BillingService.UsageBooks.Respond | app/billing/service.py:524-553 | The numbers reported are those of the reservation's own month and limit |
| BillingService.UsageBooks.Commit | app/billing/service.py:381-427 | The same for a commit |
| BillingService.UsageBooks.Release | app/billing/service.py:429-443 | The same for a release; an active reservation is released and its amount freed, anything else writes nothing |
| BillingService.UsageBooks.Record | app/billing/service.py:591-634 | One counter and one event change together |
| BillingService.UsageBooks.Consume | app/billing/service.py:213-227 | Exactly the amount asked for is recorded, once per key |
| BillingService.UsageBooks.CheckAndConsume | app/billing/service.py:229-301 | Reply and new tables are those decided; a grant records exactly the amount asked for, anything else writes nothing; within quota in one month |
| Keyring.StripIsClean | app/arca/crypto.py:72-75 | Stripping removes the blanks at both ends and nothing else |
| Keyring.EncryptRoundTrip | app/mercado_pago/crypto.py:69-88 | What is encrypted reads back stripped under this ring and every later one |
| Keyring.ReencryptKeepsPlaintext | app/arca/crypto.py:72-84 | Moving a ciphertext to the active key never fails and keeps its plaintext |
| CredentialVault.RotationAlwaysSucceeds | app/arca/service.py:330-344 | In every run each profile's ciphertexts open under its key identifier, so a rotation succeeds and leaves every row on the active key |
| CredentialVault.StaleCounts | app/arca/service.py:333-344 | The number reported by a rotation is the number of rows that were not on the active key |
| CredentialVault.SecretsSurvive | app/arca/service.py:330-344 | The three secrets survive rotations and key changes until they are replaced |
| CredentialVault.RotationIsIdempotent | app/arca/service.py:333-335 | A second rotation finds nothing and changes nothing |
| CredentialVault.FiscalProfiles.RotateAllToActiveKey | app/arca/service.py:330-344 | The loop rotates every row or none and counts the rows that were not on the active key |
| MercadoPago.TokenApplied | app/mercado_pago/service.py:314-331 | Applying a token succeeds exactly when its secrets are not blank; the old refresh token is kept in clear when the answer omits it, and expiry and collector are those of the answer |
| MercadoPago.AccessIsCoherent | app/mercado_pago/service.py:260-297 | Using a connection keeps it coherent, and fails in the cipher exactly when a refresh answers a blank secret |
| MercadoPago.AccessSucceeds | app/mercado_pago/service.py:260-297 | An active connection yields its stored token exactly while that does not expire within the margin; otherwise the refresh decides: the new token, the noted refusal, or a connection marked as failed for want of a refresh token |
| MercadoPago.AnsweredTokenIsLive | app/mercado_pago/service.py:270-297 | A token answered is good beyond the margin or was granted just now; a connection whose token is not expiring is never changed |
| MercadoPago.LinkedIsCoherent | app/mercado_pago/service.py:299-312 | Saving a token leaves a coherent active row |
| MercadoPagoMachine.TokensAlwaysOpen | app/mercado_pago/service.py:139-158 | In every run every stored ciphertext opens under the key identifier beside it, and an unlinked row holds no secret |
| MercadoPagoMachine.RefreshTokenSurvives | app/mercado_pago/service.py:314-332 | The refresh token survives refreshes that omit it, failures and key changes |
| MercadoPagoMachine.SingleUse | app/mercado_pago/service.py:57-120 | Each state triggers at most one exchange, in time; consumption is permanent; a tenant has at most one open state |
| MercadoPagoMachine.RedeemExactly | app/mercado_pago/service.py:99-120 | An exchange starts exactly for a known, open, unexpired state; an unknown, a used and an expired one are told apart, and an expired one is consumed |
| MercadoPagoMachine.OpenUntilUsed | app/mercado_pago/service.py:57-120 | An open state is untouched by everybody until its own tenant starts again or unlinks, or it is redeemed; until it expires it can be redeemed |
| MercadoPagoMachine.StartOpens | app/mercado_pago/service.py:57-83 | A start leaves its own state open for exactly its time to live, closes the earlier ones of the tenant and touches no other |
| MercadoPagoMachine.ConnectionIsOwn | app/mercado_pago/service.py:139-158 | Only steps of the tenant change its connection |
| MercadoPagoMachine.UnlinkClears | app/mercado_pago/service.py:139-158 | An unlink leaves no secret, no open state, and the collector as it was |
| MercadoPagoMachine.VerifierIsItsOwn | app/mercado_pago/service.py:71-82 | Each exchange sends the verifier of the start that created its state, for the tenant that started it |
| MercadoPagoMachine.UnlinkHoldsUnlessInFlight | app/mercado_pago/service.py:119-158 | After an unlink the tenant stays unlinked until it starts a new authorization if and only if each of its exchanges had ended, its request done or dead, or been answered with a blank secret |
| MercadoPagoMachine.UnlinkIsOvertaken | app/mercado_pago/service.py:119-158 | A run in which that happens |
| MercadoPagoService.Service.StartAuthorization | app/mercado_pago/service.py:57-83 | Is the machine's start |
| MercadoPagoService.Service.ConsumeOpen | app/mercado_pago/service.py:61-67 | The loop consumes exactly the open states of the tenant |
| MercadoPagoService.Service.RedeemAuthorization | app/mercado_pago/service.py:99-119 | Is the machine's redemption |
| MercadoPagoService.Service.CompleteAuthorization | app/mercado_pago/service.py:99-129 | Whatever others do while the provider answers, is a run of the machine that ends with its exchange closed, and its reply says what became of the answer and of the save |
| MercadoPagoService.Service.SaveConnection | app/mercado_pago/service.py:299-312 | The saved row and nothing else; the tenant is then connected with the new token |
| MercadoPagoService.Service.ApplyTokenTo | app/mercado_pago/service.py:314-331 | The columns assigned in place are those specified |
| MercadoPagoService.Service.GetAccessToken | app/mercado_pago/service.py:260-297 | Is the machine's use of the token, asking the provider exactly when the token expires within the margin and a refresh token is stored |
| MercadoPagoService.Service.UnlinkConnection | app/mercado_pago/service.py:139-158 | Is the machine's unlink; no secret and no open state remain |

## Left out

- HTTP, the Afip SDK, TLS, routers, request parsing, migrations and settings: plumbing around the operations modelled; numeric bounds and unique constraints are taken as premises.
- Fernet, X.509 checks, SHA-256 and the PKCE S256 challenge (section 4.2 of RFC 7636): abstracted as an ideal cipher, premises and an injective hash.
- `_classify_error`, `_sanitize`, `_normalize_response` and `_normalize_sales_points`: text matching over library shapes; a remote answer arrives already classified, with any classification possible.
- `_arca_payload` and the descriptive columns of an invoice (observations, CAE expiry, raw responses): copied, never decided upon.
- Exceptions after the last commit of an attempt, such as one in building the response, which could quarantine a finished row: excluded by hypothesis.
- Commits whose outcome is unknown to the session, and a lost commit of a quarantine: excluded by hypothesis.
- Two workers on one row, and `consume_usage` against itself or against a transaction of its tenant: the code does not protect these; excluded by hypothesis.
- Commits and checks of a tenant without a subscription row, or across the insertion of a newer one, which lock different rows: excluded by hypothesis.
- The recovery from a violated constraint inside `reserve_usage` and `check_and_consume_usage`: by `WritesTakeEffect` it cannot happen under the lock.
- BillingService.UsageBooks.Reserve: the tables of one tenant only, since every query and constraint names the tenant.
- BillingService.UsageBooks.Commit: the numbers in its response, and in those of a release and of consumption, are not modelled.
- Letter case beyond ASCII in a subscription status: no other letter becomes one of the letters of these texts.
- InvoiceService.Platform.Emit: the text of errors and the raw response stored with the outcome are not modelled.
- InvoiceRequests.FiscalProfileService.Upsert: the credential columns are in `CredentialVault`; whether the certificate is acceptable is an input, and so is the plan's entitlement, which `BillingService.UsageBooks.Check` decides.
- CredentialVault.FiscalProfiles.RotateAllToActiveKey: the rows are a sequence of values whose new versions are committed at the end, so aliasing of row objects is not captured.
- MercadoPago.TokenApplied: scopes, live mode, application and integration identifiers of a connection are not modelled, only the collector.
- MercadoPagoService.Service.CompleteAuthorization: the authorization code itself is passed through and not modelled.
- Document extraction, AI providers, image download, plan seeds, orders, terminals and the list queries: input and output, or easy upserts.
