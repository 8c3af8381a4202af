# Vendor dashboard: a verified model of its client-side protocols

This project models the parts of the vendor dashboard whose correctness depends on order, staleness
or exact data, and proves properties of them for every input and every run. Requests, effects,
promise continuations, timers, other browser tabs and the server are modelled as events that may
come in any order the browser allows; a reply may arrive late, after a reload, or never.

Each protocol is a module with a state, handler functions, a `Step` function and an invariant, and theorems
about all runs. Beside them a class holds the same state in fields: each handler keeps the object valid, that is
within the invariant, performs its step of the runs, and promises its caller what that means.

| module | what it models |
|---|---|
| `SessionRestore`, `RouteGuard` | the route guard's session restore: attempts, abort controllers, one retry, timers, effect re-runs, cross-tab invalidation |
| `RequestFencing` | the API client: requests that capture a session owner, the shared CSRF cache, clearing the session on a 401 |
| `PaymentActions` | the payment preparation page: queue, frozen confirmation dialog, payment mutations |
| `Text`, `Doubles`, `EftAmount` | the EFT amount parser over rounded doubles (round to nearest, ties to even: section 4.3.1 of IEEE 754-2019) |
| `SettlementReplacement` | replacing a cancelled settlement with one request id per target |
| `PasswordReset` | the admin password reset with its stored pending operation |
| `VendorNavigation` | waiting for a verified vendor before opening a record |
| `Sanitizer` | the scrubbing of error reports |
| `ShippingConfig` | reading and writing a vendor's Kargonomi shipping configuration |
| `OrderStory`, `CommunicationFeed` | the order story and the communication feed built from it |
| `ActivityGroups` | provider activity by day and by consecutive timestamp |
| `CursorPaging`, `OffsetPaging` | the three paginations |

`dafny verify dfyconfig.toml` checks everything.

## Findings

Some statements one might expect do not hold of the code. Each is settled by the condition under which it does
hold and by a run or input that fails.

- Signing out during a session restore does not end the restore: the aborted call's failure starts the retry.
  Until the guard unmounts, which the redirect of the unauthenticated gate brings about, the retry's answer can
  sign the user back in. `SessionRestore.SignOutIsUndoneExactlyWhen` says exactly in which states that can
  happen, `SessionRestore.SignOutDuringRestore` is a run, and `SessionRestore.NothingSignsInAfterUnmount` says
  that the unmount ends it.
- A sign-out can go unheard: while a restore waits for its retry, the guard takes the next reset for its own and swallows
  it, and the outlet stays although nobody is signed in (`SessionRestore.SignOutDuringRetryIsLost`). While a session is
  being confirmed, a removal of the user is heard if and only if no such swallowing is due
  (`SessionRestore.RemovalIsHeardExactlyWhen`); in every run whose removals are heard, nothing is shown without a user
  (`SessionRestore.NothingIsShownToNobody`).
- A late answer to a reset or a status check can wipe the stored record of the next password reset, either after
  the section was left and opened again or after overlapping checks (`PasswordReset.RemountLosesTrack`,
  `PasswordReset.OverlappingChecksLoseTrack`). The record is exact throughout a run if and only if every answer
  that clears it finds it empty or its own (`PasswordReset.RunStaysExactExactlyWhen`).
- Blanking a return-receiver field does not always blank it: it stays blank if and only if no other alias
  holds text and the chosen warehouse supplies none (`ShippingConfig.BlankReceiverStaysBlankExactlyWhen`,
  `ShippingConfig.BlankNameComesBack`). The integration provider survives a save if and only if the vendor's own
  integration is chosen or no provider was picked (`ShippingConfig.IntegrationReadsBackExactlyWhen`,
  `ShippingConfig.IntegrationIsDropped`).
- Two submissions for one settlement carry different request ids if and only if another settlement was put under
  review in between (`SettlementReplacement.NewIdExactlyWhenLeft`), even while the first is unsettled at the server
  (`SettlementReplacement.LeavingSendsTwoIds`). No second replacement comes of it: the server records one per
  settlement, and a submission under another id is then neither recorded nor reported
  (`SettlementReplacement.AtMostOneReplacementRecorded`, `SettlementReplacement.FirstRecordedWins`).
- The support queue and the two vendor-blocked queues have no clamp effect: an empty page beyond the end recovers
  by itself if and only if its queue is one of the other five (`OffsetPaging.StrandedPagesRecoverExactlyWhen`,
  `OffsetPaging.SupportQueueStrands`).

As the code stands, any CSRF answer that is not a success counts as unauthorized and may clear the session;
`RequestFencing.ClearsExactlyWhen` follows the code.

## Model

| member | source | states |
|---|---|---|
| SessionRestore.AtMostOneCallInFlight | src/lib/RequireAuth.tsx:249-307 | in every reachable state a call is in flight and not aborted exactly when the shared controller ref holds it, and then it belongs to the latest attempt of the live effect |
| SessionRestore.SupersededStaysInert | src/lib/RequireAuth.tsx:364-508 | an attempt that is not the latest live one never becomes it again, and when its call settles its code changes nothing but its own record |
| SessionRestore.OnlyTheLatestAttemptSignsIn | src/lib/RequireAuth.tsx:364-448 | installing a user, confirming authentication or lifting the external block happens only when the latest live attempt resumes with a user reply, and installs that user |
| SessionRestore.ResumeEffects | src/lib/RequireAuth.tsx:363-509 | a resuming attempt either makes its one retry, touching neither session nor gate, or ends in exactly one of: superseded without effect, signed in and confirmed, cleared and unauthenticated, restore error with the user kept |
| SessionRestore.AttemptsAreBounded | src/lib/RequireAuth.tsx:128-159 | an attempt makes at most two calls and has ended once twice the ten-second time-out has passed |
| SessionRestore.ClockIsNeverStuck | src/lib/RequireAuth.tsx:128-159 | from every such state calls can settle and attempts resume until any later time, so the bound is not met by a stuck clock |
| SessionRestore.BlockedUntilConfirmed | src/lib/RequireAuth.tsx:548-605 | after an external transition is taken nothing protected is rendered until an attempt started after it has signed a user in |
| SessionRestore.OutletIsShownExactlyWhen | src/lib/RequireAuth.tsx:596-655 | gate by gate, when the outlet is shown: never while restoring or signed out; while confirming or after a failed restore with a cached user unless a transition is pending; and when confirmed, in real mode only for the stored user under the current transition |
| SessionRestore.FirstRenderShowsExactlyWhen | src/lib/RequireAuth.tsx:596-655 | on the first render the outlet is shown if and only if a user is stored |
| SessionRestore.EffectKeepsTheInitialGate | src/lib/RequireAuth.tsx:37-50 | the gate of the very first render, by mode, stored user and confirmation, and that the first effect sets the same |
| SessionRestore.ShowsToNobodyExactlyWhen | src/lib/RequireAuth.tsx:596-655 | in real mode the outlet is shown without a stored user if and only if the gate is confirming a session and no transition is pending |
| SessionRestore.RemovalIsHeardExactlyWhen | src/lib/RequireAuth.tsx:523-546 | removing the user while a session is being confirmed hides the outlet if and only if the guard has not been left waiting to swallow the next reset |
| SessionRestore.SwallowingIsDueExactly | src/lib/RequireAuth.tsx:398-509 | an attempt's code leaves a reset to be swallowed if and only if its retry is awaited or it has given up with a user cached |
| SessionRestore.NothingIsShownToNobody | src/lib/RequireAuth.tsx:596-655 | in every real-mode run whose removals are followed by a reset that is heard, nothing protected is shown without a user |
| SessionRestore.SignOutDuringRetryIsLost | src/lib/RequireAuth.tsx:398-530 | a concrete run: after a failed first call the reset of a sign-out is swallowed, and the outlet stays although nobody is signed in |
| SessionRestore.ConfirmationIsCurrentExactlyWhen | src/lib/RequireAuth.tsx:596-599 | a confirmation counts exactly for the stored user and transition it was given under |
| SessionRestore.RestoreBeginsExactlyWhen | src/lib/RequireAuth.tsx:309-362 | a restore starts an attempt exactly in real mode without a current confirmation, aborts what was in flight and sets the gate by the cached user; otherwise the gate opens exactly for a stored user |
| SessionRestore.VerdictExactly | src/lib/RequireAuth.tsx:364-509 | which verdict each reply brings to the latest attempt, and that a reply without a user or a failure is retried exactly once |
| SessionRestore.CallsTimeOutExactly | src/lib/RequireAuth.tsx:128-159 | time passes exactly up to ten seconds after the start of every unsettled call |
| SessionRestore.ResetExactly | src/lib/RequireAuth.tsx:523-546 | a reset is swallowed once when the guard expects its own; otherwise it closes the gate without a user and restores with one |
| SessionRestore.RerunExactly | src/lib/RequireAuth.tsx:513-594 | a retry request aborts, ages every attempt, forgets what the old closure saw, and restores exactly without a current confirmation |
| SessionRestore.UserChangeIsTakenExactlyWhen | src/lib/RequireAuth.tsx:567-575 | a change of the stored user is taken if and only if it is the value now stored, not the one last seen and not confirmed |
| SessionRestore.TransitionIsTakenExactlyWhen | src/lib/RequireAuth.tsx:577-581 | a published transition is taken if and only if it is the stored one and new |
| SessionRestore.TakenChangeBlocks | src/lib/RequireAuth.tsx:548-565 | taking one aborts what is in flight, leaves no latest attempt and no confirmation, raises the block, and with a user arms the timer of the next restore |
| SessionRestore.RunKeepsInv | src/lib/RequireAuth.tsx:231-594 | every step of every run keeps the invariant over attempts, calls, controllers and clock |
| SessionRestore.RunIsLater | src/lib/RequireAuth.tsx:239-240 | over a run attempt ids only grow, no earlier attempt becomes latest again, and an ended attempt never changes |
| SessionRestore.SignOutIsUndoneExactlyWhen | src/lib/RequireAuth.tsx:364-546 | after a reset without a user, and while the guard stays mounted, a restore can sign a user back in if and only if the latest live attempt waits for its first call, waits for a retry the reset does not abort, holds a user, or has failed once without a 401 |
| SessionRestore.NothingSignsInAfterUnmount | src/lib/RequireAuth.tsx:583-653 | once the guard has unmounted, as the redirect of the unauthenticated gate makes it, nothing it started touches the session |
| SessionRestore.SignOutDuringRestore | src/lib/RequireAuth.tsx:523-546 | a concrete run: sign-out during a restore, aborted call, retry, and an answer before the unmount signs the user back in |
| RouteGuard.Guard.SettleCall | src/lib/RequireAuth.tsx:302-306 | a settled call is no longer in flight, session and gate are untouched, and at most one call is in flight |
| RouteGuard.Guard.ResumeAttempt | src/lib/RequireAuth.tsx:364-509 | a stale attempt touches neither session nor gate, an ending one delivers its verdict, and at most one call is in flight |
| RouteGuard.Guard.SessionReset | src/lib/RequireAuth.tsx:523-546 | a reset keeps the guard valid, is swallowed exactly when the guard expects its own, without a user closes the gate and leaves the latest live attempt what it was, and restores exactly with an unconfirmed one |
| RouteGuard.Guard.OnStoredUserChange | src/lib/RequireAuth.tsx:548-575 | takes a change if and only if it is the stored value, new, and not confirmed; then nothing is in flight or latest and the outlet is hidden |
| RouteGuard.Guard.OnSessionTransition | src/lib/RequireAuth.tsx:548-581 | takes a transition if and only if it is the stored one and new, with the same block |
| RouteGuard.Guard.FireExternalTimer | src/lib/RequireAuth.tsx:562-565 | the timer starts a restore, exactly without a current confirmation an attempt, and keeps the guard valid |
| RouteGuard.Guard.RetryRequest | src/lib/RequireAuth.tsx:513-594 | clean-up of the old effect, a new closure and, exactly without a current confirmation, a new attempt, with at most one call in flight |
| RouteGuard.Guard.Unmount | src/lib/RequireAuth.tsx:583-593 | nothing is in flight any more |
| RouteGuard.Guard.ClearSessionAndNavigateToLogin | src/lib/RequireAuth.tsx:206-229 | leaves no user and a hidden outlet |
| RouteGuard.Guard.ShowsOutlet | src/lib/RequireAuth.tsx:596-655 | by gate, user, pending transition and confirmation: when the outlet is shown and when it is hidden |
| RequestFencing.EffectsOnlyUnderOwner | src/lib/api-client.ts:226-300 | a continuing request writes or clears the CSRF cache, clears the session, sends or returns its payload only while its captured owner is current |
| RequestFencing.ClearsExactlyWhen | src/lib/api-client.ts:526-546 | a signed-in session is cleared exactly by a CSRF answer that is no success or a 401, at any endpoint but the own-user and logout ones, while the owner is still current; the published transition is what remains, and the cache is cleared with it |
| RequestFencing.ReturnsExactlyWhen | src/lib/api-client.ts:459-505 | a request returns if and only if the body of a 2xx response has parsed under its own owner, and returns that body |
| RequestFencing.BodiesAreRejectedExactly | src/lib/api-client.ts:369-393 | every other body rejects it: malformed JSON as invalid response with the status, a changed owner as invalid response without one, 401 as unauthorized, any other status as server error |
| RequestFencing.EarlierArrivalsExactly | src/lib/api-client.ts:226-318 | what a CSRF answer, its body, a resumption, a response and a network failure make of a request, and which errors they end it with |
| RequestFencing.CacheAfterExactly | src/lib/api-client.ts:246-300 | the CSRF cache after every continuation: a token brought, nothing after an answer without one or a 401 that clears, else unchanged |
| RequestFencing.FetchesTokenExactlyWhen | src/lib/api-client.ts:217-318 | a token is fetched if and only if the request writes in real mode, to neither login nor logout, was given none and finds none cached |
| RequestFencing.StepExactly | src/lib/api-client.ts:395-505 | an event changes exactly its own request, the session and the cache as its continuation leaves them, and a token set by other code is trimmed |
| RequestFencing.ReturnedWasAnswered | src/lib/api-client.ts:459-505 | over every run a returned payload is the body some event brought of a 2xx response to this request while its owner was current |
| RequestFencing.LateRepliesAreInvisible | src/lib/api-client.ts:395-560 | for an owner, signed out or not, that is current at no point of a run, erasing all continuations of its requests changes neither session, nor CSRF cache, nor any other request |
| RequestFencing.LateRequestsNeverReturn | src/lib/api-client.ts:459-481 | a request of a session that is over never returns a payload any more |
| RequestFencing.SentRequestsCarryTokens | src/lib/api-client.ts:217-318 | in every run a request that needs a CSRF token carries one from the moment it may be sent, and the cached token is trimmed and not blank |
| RequestFencing.ApiClient.StartRequest | src/lib/api-client.ts:302-318 | the owner is captured first; a CSRF token is fetched if and only if the request writes in real mode, to neither login nor logout, was given none and finds none cached |
| RequestFencing.ApiClient.Continue | src/lib/api-client.ts:395-505 | under another owner it can only end its request; it returns if and only if a 2xx body has parsed under the request's owner, rejects every other body with kind and status as answered, and what is sent carries the token it needs |
| EftAmount.AcceptsExactly | src/pages/AdminPaymentPreparationPage.tsx:151-157 | a padded decimal text is accepted exactly when a hundred times the whole part plus the padded cents lies in 1 to 2^53 - 1, and the result is that integer although every step is a rounded double |
| EftAmount.RejectsExactly | src/pages/AdminPaymentPreparationPage.tsx:151-153 | the malformed verdict goes exactly to texts that are no padded decimal amount |
| EftAmount.ParsesExactly | src/pages/AdminPaymentPreparationPage.tsx:151-157 | the parser returns an amount if and only if the text denotes it: padded digits with at most two places, between 1 and 2^53 - 1 minor units |
| EftAmount.CentsByPlace | src/pages/AdminPaymentPreparationPage.tsx:154 | one digit after the point counts tenths, two count hundredths |
| EftAmount.TenthsForExample | src/pages/AdminPaymentPreparationPage.tsx:151-157 | a padded text with one decimal place, worked out |
| EftAmount.ParseInvertsPrint | src/pages/AdminPaymentPreparationPage.tsx:151-157 | parsing inverts the two-decimal printing of every amount the parser can return |
| EftAmount.ParsedIsSafe | src/pages/AdminPaymentPreparationPage.tsx:155-156 | every result is a positive safe integer |
| EftAmount.EnteredMinorIsExact | src/pages/AdminPaymentPreparationPage.tsx:154-155 | the rounded conversion, product and sum equal the exact amount below 2^53 and never fall back under it |
| Doubles.RoundIsNearest | src/pages/AdminPaymentPreparationPage.tsx:154-155 | the rounding used is to a nearest 53-bit number, ties to an even significand |
| Doubles.ToDoubleThreshold | src/pages/AdminPaymentPreparationPage.tsx:154-156 | integers below 2^53 convert exactly, all others stay at or above it |
| PaymentActions.BuildQueueItems | src/pages/AdminPaymentPreparationPage.tsx:393-413 | the queue is the ready row, when offered, followed by one row per batch in order |
| PaymentActions.QueueIdsDistinct | src/pages/AdminPaymentPreparationPage.tsx:393-413 | row ids are distinct when batch ids are |
| PaymentActions.AnnouncedActionIsSupported | src/pages/AdminPaymentPreparationPage.tsx:317-343 | a row announces an action exactly when it supports one, supports the one it announces, and never announces a cancellation; paid and cashless exclude each other |
| PaymentActions.ActionIsSupportedExactlyWhen | src/pages/AdminPaymentPreparationPage.tsx:330-343 | which rows support each action, by source, status and amounts |
| PaymentActions.ReadyIsOfferedExactlyWhen | src/pages/AdminPaymentPreparationPage.tsx:393-403 | the ready row is offered if and only if a vendor is chosen with eligible credits, or eligible rows and no batch yet |
| PaymentActions.SelectedExactly | src/pages/AdminPaymentPreparationPage.tsx:687-688 | the selected row is the first shown one with the chosen id, else the first shown one, else none |
| PaymentActions.BusyExactlyWhen | src/pages/AdminPaymentPreparationPage.tsx:640-692 | the queue is loading or in error exactly when a query is, or a batch is not the filtered vendor's, and then it shows no rows |
| PaymentActions.OpensExactlyWhen | src/pages/AdminPaymentPreparationPage.tsx:705-706 | a dialog opens if and only if a row is selected that supports the action, the queue is settled and nothing is being submitted |
| PaymentActions.OpenedDialogExactly | src/pages/AdminPaymentPreparationPage.tsx:707-728 | every field of the dialog is the selected row's, with a fresh request id to prepare only |
| PaymentActions.RevalidatesExactlyWhen | src/pages/AdminPaymentPreparationPage.tsx:735-745 | the re-validation passes if and only if id, source, vendor, batch and filter are the frozen ones and the action is still supported |
| PaymentActions.BuildsExactlyWhatIsAsked | src/pages/AdminPaymentPreparationPage.tsx:751-785 | a mutation is built if and only if the dialog asks for it with this form: frozen target, exact amount typed, declared time, trimmed texts, every tick needed |
| PaymentActions.RefusedExactlyWhen | src/pages/AdminPaymentPreparationPage.tsx:757-783 | which forms are refused, action by action |
| PaymentActions.MissingTargetsAreRefused | src/pages/AdminPaymentPreparationPage.tsx:751-785 | no dialog without its batch or request id is accepted, and a prepare dialog with one never refused |
| PaymentActions.SendsExactlyWhatIsAsked | src/pages/AdminPaymentPreparationPage.tsx:731-785 | a step sends if and only if it confirms an open dialog, nothing is being submitted, the re-validation passes and the form asks for a mutation, and it sends that one |
| PaymentActions.RefusalsExactly | src/pages/AdminPaymentPreparationPage.tsx:731-795 | what a confirmation that sends nothing does: nothing, closing a dialog whose selection moved, or keeping it with a message |
| PaymentActions.SubmissionsSayWhatWasTyped | src/pages/AdminPaymentPreparationPage.tsx:731-785 | every submission of a run was sent by one of its confirmations, with the amount, texts and ticks of that confirmation's form |
| PaymentActions.RowsAreUnderOneTab | src/pages/AdminPaymentPreparationPage.tsx:345-362 | which rows are under each workflow tab: besides the tab for all, a row is under its status's, and a placeholder payment under none |
| PaymentActions.AtMostOneFrozenMutation | src/pages/AdminPaymentPreparationPage.tsx:731-799 | over every run at most one mutation is in flight, and each names the vendor, batch and request id its dialog froze |
| PaymentActions.MutationsUseTheOpenedTarget | src/pages/AdminPaymentPreparationPage.tsx:705-785 | every mutation of a run names vendor, batch and request id of a dialog that an earlier event of the run opened on the row selected then |
| PaymentActions.RetriesReuseTheRequestId | src/pages/AdminPaymentPreparationPage.tsx:718-728 | two prepare mutations share a request id exactly when one dialog sent both, and then they are the same mutation |
| PaymentActions.SendsOnlyToTheSelectedRow | src/pages/AdminPaymentPreparationPage.tsx:731-745 | a mutation is sent only by a confirmation while the selected row still matches the frozen target and supports its action |
| PaymentActions.OldContextsAreInert | src/pages/AdminPaymentPreparationPage.tsx:786-795 | once a submission's context is over, neither its reply nor a failed refetch changes message or dialog, however late |
| PaymentActions.RepliesCloseTheirOwnDialog | src/pages/AdminPaymentPreparationPage.tsx:786-790 | a reply in its own context finds its own dialog open and closes it exactly on success |
| PaymentActions.ItemsBelongToVendor | src/pages/AdminPaymentPreparationPage.tsx:688-703 | with a vendor filter in force the selected row is that vendor's |
| PaymentActions.RunKeepsInv | src/pages/AdminPaymentPreparationPage.tsx:705-916 | every run keeps the invariant over dialog, context and submissions |
| PaymentActions.PaymentPage.OpenAction | src/pages/AdminPaymentPreparationPage.tsx:705-729 | a dialog opens if and only if the selected row of a settled queue supports the action, and freezes that row |
| PaymentActions.PaymentPage.HandleConfirmAction | src/pages/AdminPaymentPreparationPage.tsx:731-785 | sends if and only if the re-validation passes, nothing is being submitted and the form asks for a mutation; it sends that mutation, and at most one is in flight |
| PaymentActions.PaymentPage.HandleReply | src/pages/AdminPaymentPreparationPage.tsx:786-799 | a reply of an old context changes nothing on screen; in its own a success closes the dialog with a message, a failure keeps it with another |
| PaymentActions.PaymentPage.HandleRefetched | src/pages/AdminPaymentPreparationPage.tsx:789-799 | nor does the end of an old refetch; in its own context a failure shows its message, and submitting ends |
| PaymentActions.PaymentPage.SelectRow | src/pages/AdminPaymentPreparationPage.tsx:910-916 | another row closes the dialog and makes every submission old; the same row changes nothing |
| PaymentActions.PaymentPage.ChangeVendorFilter | src/pages/AdminPaymentPreparationPage.tsx:836-843 | closes the dialog, makes every submission old and drops selection and messages |
| SettlementReplacement.SameIdSameSubmission | src/pages/AdminScheduledSettlementsPage.tsx:438-454 | over every run two submissions with one request id carry the same settlement, vendor and reason |
| SettlementReplacement.AssessmentMatchesTarget | src/pages/AdminScheduledSettlementsPage.tsx:417-436 | the assessment held is always about the current target, and at most one submission is unsettled, for that target |
| SettlementReplacement.ReportedIsTheReplacement | src/pages/AdminScheduledSettlementsPage.tsx:455-477 | whatever is reported as done is the one replacement of its settlement on record at the server, exactly as an attempt of this page sent it |
| SettlementReplacement.AtMostOneReplacementRecorded | backend/src/modules/finance/settlement-replacement-writer.service.ts:45-82 | over every run, other administrators included, the server holds at most one replacement of a settlement |
| SettlementReplacement.FirstRecordedWins | backend/src/modules/finance/settlement-replacement-writer.service.ts:57-71 | once one is on record, a submission for the settlement under another id is at no later point recorded or reported as done |
| SettlementReplacement.SendsOnlyWhatWasAssessed | src/pages/AdminScheduledSettlementsPage.tsx:438-450 | in every run a submission goes out only for the assessed, allowed, unreplaced settlement on screen, confirmed by the administrator, with the typed reason and any id already drawn |
| SettlementReplacement.SendsExactlyWhen | src/pages/AdminScheduledSettlementsPage.tsx:438-444 | a step adds an attempt if and only if it submits, a settlement is under review, the confirmation is ticked, the trimmed reason is not empty, the assessment allows it on all four counts and shows no replacement, no result is held and nothing is being submitted |
| SettlementReplacement.SentExactly | src/pages/AdminScheduledSettlementsPage.tsx:445-454 | the attempt carries the settlement under review, the trimmed reason and the id held, or else a new one that is held from then on |
| SettlementReplacement.ReportsExactlyWhen | src/pages/AdminScheduledSettlementsPage.tsx:455-477 | an id is newly reported if and only if its creation call succeeded or the durable state shows it |
| SettlementReplacement.IdSurvivesExactlyWhileStaying | src/pages/AdminScheduledSettlementsPage.tsx:418-424 | a drawn id stays the one in use if and only if no other settlement was reviewed in between |
| SettlementReplacement.NewIdExactlyWhenLeft | src/pages/AdminScheduledSettlementsPage.tsx:418-447 | a later submission for the settlement carries another id if and only if another settlement was reviewed in between, settled at the server or not |
| SettlementReplacement.LeavingSendsTwoIds | src/pages/AdminScheduledSettlementsPage.tsx:417-454 | a concrete run that sends two submissions of one settlement under different ids while the first is unsettled; whichever the server takes first is the only one recorded |
| SettlementReplacement.RunKeepsInv | src/pages/AdminScheduledSettlementsPage.tsx:417-477 | every run keeps the page's and the server's invariant |
| SettlementReplacement.ReplacementPanel.ReviewReplacement | src/pages/AdminScheduledSettlementsPage.tsx:417-428 | the same target keeps its request id, reason, confirmation and result, another one drops them; the assessment is always dropped and ids keep one meaning |
| SettlementReplacement.ReplacementPanel.ReviewReplied | src/pages/AdminScheduledSettlementsPage.tsx:429-435 | the answer becomes the assessment; a failure leaves none |
| SettlementReplacement.ReplacementPanel.SubmitReplacement | src/pages/AdminScheduledSettlementsPage.tsx:438-454 | sends if and only if a settlement is under review, the confirmation is ticked, the trimmed reason is not empty, the assessment allows it on all four counts and nothing is being submitted; about that settlement with that reason under the id held or a new one |
| SettlementReplacement.ReplacementPanel.CreationReplied | src/pages/AdminScheduledSettlementsPage.tsx:451-459 | a recorded creation becomes the result and is reported; a failure reports nothing and goes to the durable check |
| SettlementReplacement.ReplacementPanel.CreationReassessed | src/pages/AdminScheduledSettlementsPage.tsx:458-460 | the assessment after a creation, or the durable check when it fails |
| SettlementReplacement.ReplacementPanel.DurableStateChecked | src/pages/AdminScheduledSettlementsPage.tsx:459-477 | the outcome is reported only when the durable state shows this request id |
| PasswordReset.RunStaysExactExactlyWhen | src/components/AdminVendorPasswordResetSection.tsx:11-99 | over every run, remounts and page loads included, the stored record is exact throughout if and only if every answer that clears it finds it empty or its own |
| PasswordReset.StepStaysExactExactlyWhen | src/components/AdminVendorPasswordResetSection.tsx:55-99 | the same of one step: the test is one neither continuation makes |
| PasswordReset.AtMostOneUnknown | src/components/AdminVendorPasswordResetSection.tsx:68-99 | in such runs the resets of unknown outcome are exactly the stored pending one, and what is believed known is what the server did |
| PasswordReset.SendsOnlyWhenAllKnown | src/components/AdminVendorPasswordResetSection.tsx:68-73 | and a new reset is sent only when every earlier one is known committed or refused |
| PasswordReset.SendsExactlyWhen | src/components/AdminVendorPasswordResetSection.tsx:68-73 | a reset is sent if and only if it is confirmed for a selected user with no operation pending and nothing being submitted; it is recorded before it is sent |
| PasswordReset.ChecksExactlyWhen | src/components/AdminVendorPasswordResetSection.tsx:55-58 | a check starts if and only if an operation is pending and nothing is being submitted, and is about that operation |
| PasswordReset.SelectionExactly | src/components/AdminVendorPasswordResetSection.tsx:108-127 | when a user is selected and when the selection is dropped |
| PasswordReset.ResetAnswersExactly | src/components/AdminVendorPasswordResetSection.tsx:74-98 | what each answer to a reset clears and teaches, in its own mount and in another |
| PasswordReset.CheckAnswersExactly | src/components/AdminVendorPasswordResetSection.tsx:57-65 | what each answer to a check clears and teaches |
| PasswordReset.SendingAloneIsSafe | src/components/AdminVendorPasswordResetSection.tsx:55-99 | waiting with a new reset until every earlier request of the page load is answered is enough, whatever is remounted |
| PasswordReset.NonOverlappingChecksAreSafe | src/components/AdminVendorPasswordResetSection.tsx:11-99 | so are status checks that do not overlap in a section that stays mounted between page loads |
| PasswordReset.RemountLosesTrack | src/components/AdminVendorPasswordResetSection.tsx:42-83 | a concrete run without overlapping checks: after a remount a late success wipes the record of the next reset, and a third is sent while that one is unknown |
| PasswordReset.OverlappingChecksLoseTrack | src/components/AdminVendorPasswordResetSection.tsx:55-66 | a concrete run in which overlapping checks leave an unknown outcome unrecorded |
| PasswordReset.ResetSection.ExecuteReset | src/components/AdminVendorPasswordResetSection.tsx:68-78 | sends if and only if a user is selected, none is pending and nothing is being submitted; with an exact record only when every earlier reset is known, and the record stays exact |
| PasswordReset.ResetSection.FinishReset | src/components/AdminVendorPasswordResetSection.tsx:79-98 | what the reply clears in storage and in its own mount; an exact record stays exact if and only if it clears nothing or its own |
| PasswordReset.ResetSection.CheckOperation | src/components/AdminVendorPasswordResetSection.tsx:55-58 | a check is for the operation pending when it starts and keeps the record exact |
| PasswordReset.ResetSection.FinishCheck | src/components/AdminVendorPasswordResetSection.tsx:58-65 | likewise for a check, exact if and only if it clears nothing or its own |
| PasswordReset.ResetSection.MountSection | src/components/AdminVendorPasswordResetSection.tsx:11-53 | component state is rebuilt from storage, which keeps an exact record exact; only a page load ends what is unanswered |
| VendorNavigation.WaitsLetGoOnResolving | src/pages/AdminOperationsQueuePage.tsx:122-152 | in every reachable state a wait has resolved at most once and holds listener, abort handler and timer exactly until then; only the latest click's wait is open |
| VendorNavigation.WaitsResolveInTime | src/pages/AdminOperationsQueuePage.tsx:147-151 | every wait has resolved exactly once when its twenty seconds are over |
| VendorNavigation.ClockIsNeverStuck | src/pages/AdminOperationsQueuePage.tsx:147 | and from every such state some run reaches any later time |
| VendorNavigation.LateAnswersAreInert | src/pages/AdminOperationsQueuePage.tsx:374-380 | an answer never changes, and after another click or an unmount it changes neither page, message nor pending navigation |
| VendorNavigation.TrueOnlyWhenVerified | src/pages/AdminOperationsQueuePage.tsx:135-146 | a wait resolves true only while session, confirmation, token, role and selection stand, its vendor is verified and current, and it was not aborted |
| VendorNavigation.CheckDecidesExactly | src/pages/AdminOperationsQueuePage.tsx:135-146 | a check resolves an open wait to true, to false, or leaves it open: the exact condition of each |
| VendorNavigation.GivingUpExactly | src/pages/AdminOperationsQueuePage.tsx:125-149 | time-out and abort resolve an open wait to false and let go of its hooks |
| VendorNavigation.TimersFireExactly | src/pages/AdminOperationsQueuePage.tsx:147 | a wait's timer fires exactly twenty seconds after it started |
| VendorNavigation.PathsExactly | src/pages/AdminOperationsQueuePage.tsx:339-341 | which links are guarded and which of them lead to a record |
| VendorNavigation.ClickDecidesExactly | src/pages/AdminOperationsQueuePage.tsx:331-370 | when a click navigates at once, starts a wait, shows a message or does neither |
| VendorNavigation.StartedWaitExactly | src/pages/AdminOperationsQueuePage.tsx:366-369 | the wait started is for the record's path and vendor under the token of that moment |
| VendorNavigation.DeliveryDecidesExactly | src/pages/AdminOperationsQueuePage.tsx:374-380 | an answer navigates if and only if its wait is the pending one, not aborted and resolved true, and shows a message if and only if it resolved false |
| VendorNavigation.OnlyTheLatestClickNavigates | src/pages/AdminOperationsQueuePage.tsx:331-381 | every navigation belongs to the latest click, and a deferred one to that click's own record, vendor and wait that resolved true |
| VendorNavigation.NavigationsFollowClicks | src/pages/AdminOperationsQueuePage.tsx:331-381 | navigations follow the order of the clicks, at most one for each |
| VendorNavigation.RunKeepsInv | src/pages/AdminOperationsQueuePage.tsx:326-381 | every run keeps the invariant over waits, pending navigation and clicks |
| VendorNavigation.VerifiedVendorWait.constructor | src/pages/AdminOperationsQueuePage.tsx:122-151 | registers all three hooks and checks at once; it resolves true if and only if the vendor is verified and current under the token |
| VendorNavigation.VerifiedVendorWait.Finalize | src/pages/AdminOperationsQueuePage.tsx:126-133 | the first call resolves and lets go of all hooks, later ones do nothing |
| VendorNavigation.VerifiedVendorWait.OnVendorChange | src/pages/AdminOperationsQueuePage.tsx:135-146 | an answer never changes, and turns true if and only if the vendor is verified and current under the captured token |
| VendorNavigation.VerifiedVendorWait.AbortSignal | src/pages/AdminOperationsQueuePage.tsx:134-149 | an open wait resolves to false, a resolved one keeps its answer |
| VendorNavigation.OperationsPage.HandleOperationsNavigation | src/pages/AdminOperationsQueuePage.tsx:331-370 | a click ends what was pending, navigates at once if and only if it is admitted and its vendor ready, starts a wait if and only if it is admitted and not ready, and leaves at most that wait open |
| VendorNavigation.OperationsPage.WaitSettled | src/pages/AdminOperationsQueuePage.tsx:374-380 | an old click's answer changes nothing, and the page navigates if and only if the pending wait resolved true without an abort |
| Sanitizer.GreedyIsLongest | src/lib/sentry-sanitize.ts:5-6 | greedy matching with backtracking finds a match exactly when the pattern's language has one at this point, and the longest one |
| Sanitizer.ReplaceFrees | src/lib/sentry-sanitize.ts:8-12 | replacing a pattern leaves no match of it and creates none of the other |
| Sanitizer.RedactionFixpoints | src/lib/sentry-sanitize.ts:8-12 | a string survives redaction unchanged exactly when it holds neither pattern, and every result is such a string |
| Sanitizer.RedactStringIdempotent | src/lib/sentry-sanitize.ts:8-12 | redacting twice is redacting once |
| Sanitizer.WholeMatchBecomesMarker | src/lib/sentry-sanitize.ts:8-12 | a whole match becomes exactly one marker |
| Sanitizer.LongestMatchIsReplaced | src/lib/sentry-sanitize.ts:8-12 | from the left, the longest match becomes one marker and the scan goes on behind it |
| Sanitizer.UnmatchedIsKept | src/lib/sentry-sanitize.ts:8-12 | a character at which no match starts is kept; the two determine the replacement |
| Sanitizer.WholeMatchIsRedacted | src/lib/sentry-sanitize.ts:8-12 | a whole address and a whole phone number are redacted to the marker, the address before phone numbers are looked for in it |
| Sanitizer.EmailsExactly | src/lib/sentry-sanitize.ts:5 | the addresses: a local part, an at sign, a domain, a dot and two or more letters |
| Sanitizer.PhonesExactly | src/lib/sentry-sanitize.ts:6 | the phone numbers: an optional plus, a digit, seven or more body characters and a digit |
| Sanitizer.ClassesExactly | src/lib/sentry-sanitize.ts:5-6 | the characters of each class |
| Sanitizer.OneLevelExactly | src/lib/sentry-sanitize.ts:14-43 | what one level of sanitizing does to texts, arrays, objects, sensitive entries and everything else |
| Sanitizer.FalsyExactly | src/lib/sentry-sanitize.ts:35 | which values count as falsy under a sensitive key |
| Sanitizer.RedactionSplitsAtBrackets | src/lib/sentry-sanitize.ts:8-12 | brackets split a text into parts that are redacted independently and in place |
| Sanitizer.SensitiveKeysExactly | src/lib/sentry-sanitize.ts:3-4 | the key pattern accepts exactly the keys that mention one of twelve words, named; its other alternatives add nothing |
| Sanitizer.MentionsExactly | src/lib/sentry-sanitize.ts:3-34 | a key mentions a word if and only if it holds it somewhere, whole, each letter in either case |
| Sanitizer.SensitiveInAnyContext | src/lib/sentry-sanitize.ts:3-34 | a key stays sensitive inside a longer one and in any case |
| Sanitizer.FixpointsAreClean | src/lib/sentry-sanitize.ts:14-43 | at every depth a value survives sanitizing unchanged exactly when it is clean |
| Sanitizer.SanitizedIsClean | src/lib/sentry-sanitize.ts:14-43 | every result is clean |
| Sanitizer.SanitizeIdempotent | src/lib/sentry-sanitize.ts:14-47 | sanitizing twice is sanitizing once, on every tree and at every depth |
| Sanitizer.HeightIsCapped | src/lib/sentry-sanitize.ts:2-17 | the result nests no deeper than the cap leaves room for, whatever the input's height |
| Sanitizer.HeightNeverGrows | src/lib/sentry-sanitize.ts:14-43 | nor deeper than the input |
| Sanitizer.PositionsAreKept | src/lib/sentry-sanitize.ts:27-39 | off the sensitive keys every position within the cap holds the sanitized form of what it held under the same keys, and positions at the cap the truncation marker |
| Sanitizer.NoSecretSurvives | src/lib/sentry-sanitize.ts:34-36 | under a sensitive key, wherever it stands, the result holds the marker or a falsy value |
| ShippingConfig.BuildShippingConfigUpdate | src/components/VendorShippingConfigEditor.tsx:357-448 | owned keys end up holding exactly the non-blank trimmed fields, all other keys are untouched, and the one warehouse stored takes name and address, by position, from the first chosen, default or first one |
| ShippingConfig.SavedIsUnique | src/components/VendorShippingConfigEditor.tsx:357-448 | that determines the stored configuration completely |
| ShippingConfig.SavedWarehouseExactly | src/components/VendorShippingConfigEditor.tsx:387-443 | by position: name and address stored are those of the first Kargonomi warehouse with the trimmed id, else of the first default one, else of the first one, else a fixed name and no address |
| ShippingConfig.WarehousesAreReadExactly | src/components/VendorShippingConfigEditor.tsx:221-245 | what a draft takes from the warehouses: the first default one's id, name and address, or the first one's name and address |
| ShippingConfig.PlainFieldsAreReadExactly | src/components/VendorShippingConfigEditor.tsx:212-245 | which stored field each field of the draft is read from |
| ShippingConfig.IdsAreReadInOrder | src/components/VendorShippingConfigEditor.tsx:114-134 | buyer state and city are read from the form's own key, else its aliases in order |
| ShippingConfig.CarrierIsReadInOrder | src/components/VendorShippingConfigEditor.tsx:120-128 | so is the carrier, which may be a number |
| ShippingConfig.NameIsReadInOrder | src/components/VendorShippingConfigEditor.tsx:146-155 | the receiver name is the first text that is not blank, else the fallback |
| ShippingConfig.PhoneIsReadInOrder | src/components/VendorShippingConfigEditor.tsx:234-240 | so is the phone, over five keys |
| ShippingConfig.AddressIsReadInOrder | src/components/VendorShippingConfigEditor.tsx:241-245 | and the address, over three |
| ShippingConfig.IdsReadBack | src/components/VendorShippingConfigEditor.tsx:114-134 | carrier, buyer-state, buyer-city, warehouse and location ids read back trimmed, blank included, whatever aliases the old metadata held |
| ShippingConfig.ReceiverReadsBack | src/components/VendorShippingConfigEditor.tsx:146-155 | a non-blank return-receiver field reads back trimmed, a blank one as what aliases and chosen warehouse leave |
| ShippingConfig.BlankReceiverStaysBlankExactlyWhen | src/components/VendorShippingConfigEditor.tsx:146-155 | a blanked field stays blank if and only if no other alias holds text and the chosen warehouse supplies none |
| ShippingConfig.BlankNameComesBack | src/components/VendorShippingConfigEditor.tsx:212-240 | a concrete draft whose blank receiver name comes back as text |
| ShippingConfig.IntegrationReadsBackExactlyWhen | src/components/VendorShippingConfigEditor.tsx:363-372 | the integration provider reads back if and only if it applies or none was picked |
| ShippingConfig.IntegrationIsDropped | src/components/VendorShippingConfigEditor.tsx:363-372 | a concrete draft whose integration provider does not survive a save |
| ShippingConfig.OtherKeysSurvive | src/components/VendorShippingConfigEditor.tsx:394-416 | keys the form does not own survive a save, and so does whatever is read from them |
| ShippingConfig.PackageTypeReadsAsBefore | src/components/VendorShippingConfigEditor.tsx:96-100 | a Kargonomi save leaves the package type as it was, whatever the draft carries |
| ShippingConfig.ResaveChangesNothingExactlyWhen | src/components/VendorShippingConfigEditor.tsx:212-448 | reopening and saving unchanged stores the same configuration if and only if no blanked receiver field had anything to fall back to |
| ShippingConfig.SavingSettles | src/components/VendorShippingConfigEditor.tsx:212-448 | from the second save on, reopening and saving changes nothing |
| ShippingConfig.ValidateShippingConfigDraft | src/components/VendorShippingConfigEditor.tsx:277-355 | the problems the draft has, in the order of the checks |
| ShippingConfig.ReportsExactlyTheProblems | src/components/VendorShippingConfigEditor.tsx:277-355 | that is every problem the draft has, once, no other, and in a fixed order |
| ShippingConfig.ProblemIsReportedExactlyWhen | src/components/VendorShippingConfigEditor.tsx:277-355 | each problem is reported if and only if its field is missing or is no number, signed number or location id |
| ShippingConfig.ProblemsSurviveASave | src/components/VendorShippingConfigEditor.tsx:277-448 | a save neither cures nor causes a validation problem |
| OrderStory.NormalizeTokenIdempotent | src/lib/orderOperationalStory.ts:77-79 | normalizing yields a token of lower-case letters, digits and single underscores, and is idempotent |
| OrderStory.CollapseExactly | src/lib/orderOperationalStory.ts:77-79 | words of lower-case letters and digits are kept, every gap becomes one underscore, and parts that do not split a gap are normalized apart |
| OrderStory.LowerExactly | src/lib/orderOperationalStory.ts:78 | lower case is taken character by character |
| OrderStory.NormalizedForExample | src/lib/orderOperationalStory.ts:77-79 | a padded status of two words, worked out |
| OrderStory.RefundEvidenceExactlyWhen | src/lib/orderOperationalStory.ts:89-104 | what counts as evidence of a refund |
| OrderStory.ConflictExactlyWhen | src/lib/orderOperationalStory.ts:111-124 | when a cancellation conflicts with what is on record |
| OrderStory.StoryExactly | src/lib/orderOperationalStory.ts:107-285 | which of the five states an order is in, and what each state offers |
| OrderStory.ShipmentAllowedExactlyWhen | src/lib/orderOperationalStory.ts:107-285 | a shipment may be created exactly for an order neither refunded for good, cancelled nor vendor-blocked; conflict flags make no difference; admin and vendor actions exclude each other |
| CommunicationFeed.BuildVendorCommunicationFeed | src/lib/communicationCenter.ts:97-217 | the feed is the stable newest-first order of the pushed events and a permutation of them |
| CommunicationFeed.FeedIsDetermined | src/lib/communicationCenter.ts:216 | that determines the feed completely |
| CommunicationFeed.StableOrderIsUnique | src/lib/communicationCenter.ts:216 | there is only one stable newest-first order of a list of events |
| CommunicationFeed.FeedHoldsExactly | src/lib/communicationCenter.ts:104-214 | one event per ticket, per return, per order that lacks tracking and may ship, per refund or payout, and no others |
| CommunicationFeed.RecordsExactly | src/lib/communicationCenter.ts:98-101 | entries that are no records are left out, the others keep their order |
| CommunicationFeed.TicketEventExactly | src/lib/communicationCenter.ts:104-126 | timestamp, kind, priority and flags of a ticket's event, by the ticket |
| CommunicationFeed.ReturnEventExactly | src/lib/communicationCenter.ts:128-153 | the same of a return, by its lower-case status and pending refund |
| CommunicationFeed.NeedsTrackingExactlyWhen | src/lib/communicationCenter.ts:155-165 | when an order needs tracking information |
| CommunicationFeed.TrackingEventExactly | src/lib/communicationCenter.ts:166-184 | the event of such an order |
| CommunicationFeed.FinanceEventExactly | src/lib/communicationCenter.ts:188-214 | which finance records are reported, and that a failed one counts as pending |
| CommunicationFeed.FiltersExactly | src/lib/communicationCenter.ts:219-231 | what the unread, action, resolved and unfiltered views show |
| CommunicationFeed.FeedIsConsistent | src/lib/communicationCenter.ts:105-208 | no event both requires action and is resolved, the priority says which require action, and order events are the tracking events |
| CommunicationFeed.TrackingEventsAreOpen | src/lib/communicationCenter.ts:155-165 | a tracking event stands for an order that is open, in the vendor's hands and without tracking |
| CommunicationFeed.FeedIdsDistinct | src/lib/communicationCenter.ts:110-195 | event ids are distinct when the ids of each kind of record are |
| CommunicationFeed.SubjectFiltersPartition | src/lib/communicationCenter.ts:219-245 | the four subject filters split every feed without loss or overlap |
| CommunicationFeed.SubjectFilterMatchesLoop | src/lib/communicationCenter.ts:232-243 | each subject filter shows exactly what one loop pushed |
| CommunicationFeed.SummaryCounts | src/lib/communicationCenter.ts:247-254 | the summary's total and support count are the numbers of events and tickets, and action and resolved never exceed the total together |
| ActivityGroups.GroupConsecutiveActivityByTimestamp | src/pages/AdminProviderManagementPage.tsx:100-119 | the groups concatenate to the input, each is non-empty with one timestamp and knows where it starts, and neighbours differ |
| ActivityGroups.ConsecutiveIsUnique | src/pages/AdminProviderManagementPage.tsx:100-119 | there is only one such grouping |
| ActivityGroups.GroupRecentActivity | src/pages/AdminProviderManagementPage.tsx:79-98 | one group per day in order of first occurrence, each the exact subsequence of its day |
| ActivityGroups.DaysAreDistinct | src/pages/AdminProviderManagementPage.tsx:84-88 | the day keys are distinct |
| ActivityGroups.OnDayExactly | src/pages/AdminProviderManagementPage.tsx:79-98 | a day's logs are picked out of any two parts of the list in their order |
| ActivityGroups.DaysHaveLogs | src/pages/AdminProviderManagementPage.tsx:83-94 | a day key occurs exactly when a log has it |
| ActivityGroups.DaysAreNotEmpty | src/pages/AdminProviderManagementPage.tsx:90-94 | and exactly the days that occur have a non-empty group |
| ActivityGroups.DaysInFirstOccurrenceOrder | src/pages/AdminProviderManagementPage.tsx:90-94 | an earlier group's day occurs before any log of a later one |
| ActivityGroups.NestedGroupingConserves | src/pages/AdminProviderManagementPage.tsx:455-465 | grouping by day and then by timestamp neither loses nor repeats a log |
| CursorPaging.ShownPageIsTheIndexedOne | src/pages/AdminSupportTicketsPage.tsx:218-242 | in every reachable state the index is in range and entry i is the i-th iterate of the server from the first page, under the current filters |
| CursorPaging.StackRefinesList | src/components/AppShell.tsx:400-408 | for every sequence of Next and Previous the selector's stack is the ticket page's list up to its index |
| CursorPaging.SelectorShowsTheCurrentPage | src/components/AppShell.tsx:346-376 | however late answers arrive, the page shown answers today's search and cursor, the stack is a chain for the search, and at most one request can store |
| CursorPaging.ReplacedRequestsAreInert | src/components/AppShell.tsx:361-375 | a replaced request never changes the stored answer again |
| CursorPaging.AsksAnewExactlyWhen | src/components/AppShell.tsx:346-408 | when a new directory request goes out, what it asks, and that it retires the others |
| CursorPaging.StoresExactlyWhen | src/components/AppShell.tsx:361-375 | an answer is stored if and only if it succeeds for the current request |
| CursorPaging.TicketPager.GoNext | src/pages/AdminSupportTicketsPage.tsx:236-239 | shows the following page of the current filters, or stays when there is none |
| CursorPaging.TicketPager.GoPrevious | src/pages/AdminSupportTicketsPage.tsx:240-242 | shows the page before, or still the first |
| CursorPaging.TicketPager.ChangeFilters | src/pages/AdminSupportTicketsPage.tsx:218-227 | new filters show their first page at once, before the effect has run |
| CursorPaging.VendorSelector.ChangeSearch | src/components/AppShell.tsx:359-382 | starts from the first page, and what is shown answers the new search |
| CursorPaging.VendorSelector.OnNext | src/components/AppShell.tsx:359-408 | pushes the search's following cursor, only when today's answer brought it |
| CursorPaging.VendorSelector.OnPrevious | src/components/AppShell.tsx:359-404 | goes back one page, and what is shown answers it |
| CursorPaging.VendorSelector.RequestSettled | src/components/AppShell.tsx:368-375 | the current request's answer is shown, a replaced one's changes nothing |
| OffsetPaging.NextVisitsEveryRowOnce | src/pages/AdminOperationsQueuePage.tsx:658-663 | the windows visited by Next from the first page hold every row exactly once, in order |
| OffsetPaging.OffsetsAreAligned | src/pages/AdminOperationsQueuePage.tsx:658-761 | offsets stay non-negative multiples of the page size whatever totals arrive |
| OffsetPaging.ClampReachesTheLastPage | src/pages/AdminOperationsQueuePage.tsx:697-707 | one clamp reaches the start of the last page, where Next is disabled and no further clamp fires |
| OffsetPaging.StrandedPagesRecoverExactlyWhen | src/pages/AdminOperationsQueuePage.tsx:697-761 | from a page beyond the end effects and Next reach rows again if and only if the queue is shipment, return review, finance review, finance integrity or customer cancellation |
| OffsetPaging.SupportQueueStrands | src/pages/AdminOperationsQueuePage.tsx:632-635 | a concrete run that leaves the support queue on an empty page |
| OffsetPaging.PageIsEmptyExactlyWhen | src/pages/AdminOperationsQueuePage.tsx:658-661 | a page shows no rows exactly at or beyond the total |
| OffsetPaging.WindowExactly | src/pages/AdminOperationsQueuePage.tsx:658-661 | a page shows ten rows, or what is left, from its offset on |
| OffsetPaging.StepsExactly | src/pages/AdminOperationsQueuePage.tsx:697-761 | where Next, Back, an arriving total and the effect move the offset of each queue |
| OffsetPaging.Paging.ClampEffect | src/pages/AdminOperationsQueuePage.tsx:697-707 | those five queues are not left on an empty page while there are rows; the other three are left where they are |
| OffsetPaging.Paging.PressNext | src/pages/AdminOperationsQueuePage.tsx:871 | moves if and only if rows follow a loaded page, and to the rows that follow it |
| OffsetPaging.Paging.PressBack | src/pages/AdminOperationsQueuePage.tsx:863 | Back moves one page, never below zero |

## Left out

- Auth diagnostics, console logging, messages other than those the dialogs and pages act on, and the delayed-UI timer of the restore: they do not influence the modelled state.
- Real time: `SessionRestore` lets a call's timer fire on its deadline and continuations run before timers; slow timers are not modelled.
- React: a handler, effect or render is one step; a click sees the state of the last render. Class components are not built on hooks; each class holds the state the hooks hold.
- The backend: it may commit, refuse or lose any reply; `SettlementReplacement` and `PasswordReset` let it answer truthfully when it answers. Of the replacement writer only the request-id replay and the one-replacement check under its lock are modelled; its eligibility and actor checks may refuse more.
- Storage failures in `PasswordReset`: working session storage is assumed, and one vendor per section.
- PasswordReset.AtMostOneUnknown: stated for the runs in which every answer clears an empty record or its own; it fails in all others, by PasswordReset.RunStaysExactExactlyWhen.
- ShippingConfig.ValidateShippingConfigDraft: the desi text's conversion to a number is a boolean input.
- The page of `PaymentActions` keeps the tabs, search and other filters as a set of hidden rows, and the two tests on batch amount texts as booleans.
- The freedom ECMAScript gives to approximate digits after the twentieth of a numeric text: the whole part is rounded correctly at every length.
- Order tokens: lower-casing outside ASCII is modelled only where the result can be ASCII; `parseAmount` is a boolean input.
- Labels, titles, summaries, links and timeline entries of feed events and stories; timestamps are read by an arbitrary function, days by an arbitrary function of the timestamp.
- The Try OTO and Navlungo branches of the shipping editor, its desi and VAT numbers and the flag that enables shipping: the draft is always a Kargonomi one.
- Cyclic values and getters in the sanitizer; an object is its list of own enumerable entries, whatever its class. Greedy matching is modelled for the two patterns, not for regular expressions at large.
- `CursorPaging` assumes a server whose next cursor depends on filters and cursor only; the selector's loading and error flags, and its pause while no admin is signed in, are not modelled. Its Next control also needs `hasMore`; the model lets Next act on the cursor alone, which only adds runs.
- A wait inside `OperationsPage` is a value; `VerifiedVendorWait` is the same wait as an object. Sharing one wait object between page and listener is not modelled.
- Refund adjustment corrections, allocation split previews, workflow guidance and support stories: single-branch checks or outside what the client decides.
- The backend application, seed files and canary scripts.
