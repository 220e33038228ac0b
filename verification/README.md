# Verified models of the purchase ledger, question statistics and bulk import

This project models four stateful cores of the learning platform in Dafny and proves what they
promise over whole histories. Run `dafny verify dfyconfig.toml` to check it.

**Purchases and entitlements.** `BillingTypes`, `Entitlements` and `Payments` give the rows of the
billing tables as values and every transition of the payment service as a function on them;
`PaymentService` is the service itself, a class whose methods update the tables in place and are
proved equal to those functions. `EntitlementInvariants`, `ProvideProofs`, `WithdrawProofs`,
`PaymentInvariants` and `PaymentHistories` carry the invariants through every transition and history,
`ConservationProofs` the paid time of any one row; `LedgerTheorems`, `PaymentTheorems`, `RefundTheorems`,
`RefundOrder` and `PurchaseLifecycle` state the results, `RefundShortfalls` and `CourseRefunds` say exactly
where refunds take more than their own, on histories built with `Scenarios`. `Decisions` fixes, column by column,
when each decision is accepted and what it writes (`SubmitIff`, `ActivateIff`, `RejectIff`, `ExpireIff`, `CancelIff`, `RefundIff`
and so on), `AccessWrites` what a purchase writes into the access tables, and `CourseEnds` what a refund leaves
of a course. `CouponRace` interleaves
approvals and every other decision at the purchase and coupon row locks; `Overlaps` says what approvals do
that overlap on an access row, which has no lock.

**Question statistics.** `Votes` is the one-vote-per-student bookkeeping on values, `StatsService`
the same as methods with loops and retries. `VoteProofs` shows how far stored counters plus pending
deltas equal the votes in the attempt rows, `AnswerRecords` what each step records, `VoteShares` that the percentages add up, and
`StatsLocks` that the writers never deadlock, with the row locks explicit, and `LockPairs` when exactly two
transactions can.

**Duplicate check and import.** `DedupProtocol` is the generation-scoped protocol as interleaved
reads and writes of admins and workers; `DedupProofs` and `DedupTheorems` prove it as long as no request is
overtaken between its read and its writes, `DedupShortfalls` shows what fails otherwise, and `DedupLiveness`
says which deliveries start a run and that a run left alone completes. `RunDedup` is its
row loop, `DuplicateFinder` the search, `LengthFilter` the filter in front of it with the `Doubles` it computes in, `TextNormalizer` the normalization before it. `ImportRun` is the
resumable import as runs that can die anywhere, `ImportService` the same as a class, `ImportProofs`
the results about counts and claims, `ImportCounts` what each counter, status and note says,
`ImportReferences` which questions rows refer to, `ImportOutcomes` what becomes of any one row and any one question, and
`ImportAgain` what a new check on a partly imported batch leads to.

**Identifiers.** `Allocators` treats public ids, slugs and the counter lock, `QuestionTable` the save of
a new question.

## How the source is read

- A transaction is one step. Finer interleaving is used where a row lock is what a result depends on:
  the coupon row, the statistics rows, the id counter; and in the duplicate check, which has none.
- Tables are sequences and a primary key is an index. Instants and durations are whole microseconds,
  the clock never goes back, and one approval or refund reads it once.
- A file, a Subject's bank of questions, the answer of the sequence matcher, database errors, crashes and
  deliveries are parameters over which the results quantify.
- Scores are exact rationals and 0.85 is 17/20; for texts and option sets that are not too long they compare as
  the doubles of the source do (`Doubles.FractionsKeepTheirOrder`). The length filter is modelled in double
  precision, because there it makes a difference.
- A percentage is any nearest integer of the exact share: dividing and rounding doubles decides ties either way,
  and nothing but ties for counters below 2^40.
- The defaults of the settings are used: 30 minutes for both stale windows, 100 for the referral reward.

## Where code and comments differ

The models follow the code. What it does instead of what its comments say is proved:

- A refund is documented never to touch another purchase's access, but it closes a Grand Test that another
  purchase also paid for, ends time that an administrator added, and can cut a later course purchase
  (`RefundTheorems.RefundClosesGrandTest`, `RefundShortfalls.RefundEndsTimeGrantedByHand`,
  `CourseRefunds.RefundOfFirstCutsLaterIff`).
- A refund is documented to reverse exactly what its purchase granted; a course that was refunded, bought again and refunded
  again stays open until its first end (`CourseEnds.RenewalRoundTrip`, `CourseEnds.RefundedCourseStaysOpen`).
- The referral reward is documented to be paid on a student's first approved purchase; it is paid again after
  all of them were refunded (`PurchaseLifecycle.ApprovalPaysOnceIff`).
- A stale duplicate check is documented never to overwrite newer results; it can, in up to five rows
  (`DedupTheorems.LatenessIsBounded`, `DedupShortfalls.LateRunOverwritesNewerVerdict`).
- The confirm gate is documented to hold for the current Subject; it does between requests, not while one
  is half saved or after one was overtaken (`DedupShortfalls`).
- The in-file comparison is documented to look at earlier rows; it looks at all other rows
  (`RunDedup.FlaggedIff`, `RunDedup.FirstRowFlaggedByTheSecond`).
- The comment on the submission's Test row lock calls that lock deadlock-safe and says nothing of the rows of
  the student's answers, locked before it; on those, two submissions of one student can wait for each other
  (`LockPairs.HoldingSubmissionsMayDeadlockIff`).
- The length filter is documented as an exact restatement of the matcher's own bound that never drops a
  duplicate; computed in doubles it drops pairs of lengths 17 and 23 and most others in that ratio
  (`LengthFilter.LengthCouldMatchIff`, `DuplicateFinder.FilterLosesIff`, `DuplicateFinder.FilterLosesADuplicate`).
- The aggregates are documented as one vote per student; an answer without an option from a student who was
  right leaves the stored right votes one too high (`VoteProofs.PassAgreesIff`, `VoteProofs.ExcessIsExact`).
- The generation is documented as the version token that a superseded run is checked against; a request that is
  overtaken can move it back, and a superseded run then completes (`DedupTheorems.BumpGoesAboveIff`,
  `DedupShortfalls.GenerationGoesBack`).
- Public ids are unique under prefixes without digits; a Subject whose name has a word starting with a digit
  can break this (`Allocators.PrefixesClashIff`).
- A run is documented never to reprocess a row that succeeded; after a new duplicate check it can
  (`ImportAgain.ImportedAgainIff`). A replaced question can be lost (`ImportOutcomes.LostIff`,
  `ImportOutcomes.LossIsFinalIff`), and not only the one it was decided to replace
  (`ImportAgain.CheckedRunRemovesIff`).

## Model

| member | source | states |
|---|---|---|
| LedgerTheorems.LedgerAndAccessAgree | billing/payment_service.py:571-670 | In every state reachable from a new deployment an unrevoked grant belongs to an approved purchase (so a refunded purchase has none left), and every Grand Test that can be entered is backed by an unrevoked grant |
| LedgerTheorems.PaidTimeAddsUp | billing/payment_service.py:57-121 | In every history, whatever happened to other rows: a subscription that is no scholarship, that no administrator gave time by hand and that never got time without an end is, while active, at its start plus the contributions of its unrevoked grants, each of them the duration of a plan bought; once deactivated it has no unrevoked grant |
| LedgerTheorems.ContributionIsPlan | billing/payment_service.py:520-531 | In every history a grant's contribution to a subscription is the duration of a plan that its purchase bought for that course and product, unless the grant gave time without an end or extended such time |
| LedgerTheorems.StepKeepsOrder | billing/payment_service.py:57-676 | Every step keeps any one row adding up and any one grant worth its plan, unless it gives time on that row by hand |
| LedgerTheorems.CouponsAreCounted | billing/payment_service.py:417-441 | A coupon's usage count is exactly the number of its purchases that were ever approved (refunds give nothing back); the total cap and the cap per student are never exceeded |
| LedgerTheorems.ReferencesAreDistinct | billing/payment_service.py:359-401 | Over serial histories two pending or approved purchases never share a non-empty payment reference |
| LedgerTheorems.AuditTellsTheStatus | billing/payment_service.py:379-676 | The audit entries of a purchase chain from unpaid along allowed edges and end at its present status |
| PaymentHistories.ReachableSound | billing/payment_service.py:348-676 | All ledger invariants together hold in every reachable state |
| PaymentHistories.StepSound | billing/payment_service.py:348-676 | Each single transition keeps the ledger invariants |
| PaymentHistories.StatusStepSound | billing/payment_service.py:348-517 | Submitting a payment, rejecting, asking for a new proof, expiring and cancelling keep every ledger invariant, refused or not |
| PaymentHistories.ActivateSound | billing/payment_service.py:387-448 | An approval keeps every ledger invariant, or changes nothing |
| PaymentHistories.RefundSound | billing/payment_service.py:610-676 | A refund keeps every ledger invariant |
| PaymentHistories.GrantAccessSound | billing/payment_service.py:57-121 | A grant by an administrator keeps the ledger invariants |
| PaymentHistories.RevokeScholarshipSound | billing/views.py:279-287 | Revoking a scholarship keeps every ledger invariant |
| Decisions.ActivateIff | billing/payment_service.py:387-431 | An approval is accepted if and only if the payment is pending, or unpaid where that is allowed, no other approved purchase carries the reference, and the coupon exists with room under both caps, counted as the set of the student's other approved purchases with it; otherwise nothing changes |
| Decisions.ApprovedWasPaidOrWaived | billing/payment_service.py:387-397 | In every history an approved or refunded purchase has a submitted proof of payment on its audit trail, or was approved while unpaid by a step that allows that |
| Decisions.ApprovedWasPaid | billing/payment_service.py:387-397 | In every history without such a step every approved or refunded purchase has a submitted proof of payment |
| Decisions.StripIsMiddle | billing/payment_service.py:362-364 | What is kept of a reference or a reason is the text between its leading and its trailing blanks |
| PaymentInvariants.CouponRefusalIff | billing/payment_service.py:417-431 | Under the coupon's lock an undecided purchase is refused if and only if approving it would break the total cap or the cap per student |
| ProvideProofs.ProvideSound | billing/payment_service.py:223-327 | What one approval grants, for each of the five kinds of purchase, keeps the access invariants |
| ProvideProofs.ExtendSound | billing/payment_service.py:87-121 | Extending or creating one subscription row keeps the access invariants |
| ConservationProofs.HitRowKept | billing/payment_service.py:94-121 | The row that a plan renews or opens adds up afterwards: it holds exactly the plan's duration more than its grants did before |
| ConservationProofs.ProvideKeeps | billing/payment_service.py:223-327 | What an approval of any kind grants leaves every row adding up that did, and every grant worth its plan |
| ConservationProofs.HandGrantKeeps | billing/payment_service.py:57-121 | A grant without a purchase matters only to the row that it extends or opens, and to no paid row if it is a scholarship |
| ProvideProofs.ComboSound | billing/payment_service.py:250-261 | Providing every plan of a combo in turn, each on a row of its own, keeps the invariants |
| ProvideProofs.PackageSound | billing/payment_service.py:263-303 | Providing a package of Grand Tests keeps one access row per student and test, each open one backed by a grant |
| ConservationProofs.RevokeKeepsPaid | billing/payment_service.py:534-568 | Undoing one live grant takes exactly its contribution off its row, or deactivates a row that nothing else pays for |
| ConservationProofs.WithdrawKeepsPaid | billing/payment_service.py:641-664 | The whole refund loop keeps a paid row adding up |
| WithdrawProofs.WithdrawUnfold | billing/payment_service.py:654-664 | Although a refund works on copies of the rows loaded before its first write, each reversal sees up-to-date values |
| WithdrawProofs.WithdrawSound | billing/payment_service.py:641-664 | The refund loop keeps every access invariant |
| WithdrawProofs.WithdrawTouchesOwnRows | billing/payment_service.py:571-605 | The refund loop writes no row on which the purchase has no unrevoked grant |
| WithdrawProofs.WithdrawNeverGrants | billing/payment_service.py:534-568 | No subscription covers an instant after a refund that it did not cover before |
| PaymentTheorems.AtMostOneCurrent | billing/payment_service.py:87-121 | At every clock reading of every history two current rows of the same student, course, product and origin are the same row |
| PaymentTheorems.NeverCurrentAgain | billing/payment_service.py:88-97 | A row that has expired or been deactivated never becomes current again, whatever happens |
| Overlaps.UntouchedSeriesIsSerial | billing/payment_service.py:87-121 | An approval whose rows nobody writes between its unlocked read and its write does what it would do alone, whatever happens to other rows meanwhile |
| Overlaps.OverlapIsSerialIff | billing/payment_service.py:87-121 | Two approvals of which the second reads before the first writes come to the same as one after the other if and only if they are for different students, courses, products or origins |
| Overlaps.OverlapOpensTwoRows | billing/payment_service.py:110-121 | Two overlapping approvals of one kind without a row to extend leave the student two current rows |
| Overlaps.OverlapLosesTime | billing/payment_service.py:97-109 | Two overlapping approvals on one row leave only the time of the second, though both grants are recorded |
| PaymentTheorems.ApprovalGivesWhatWasBought | billing/payment_service.py:223-325 | An approval leaves the buyer with a live grant and full coverage for every plan ordered, every Grand Test ordered open, and a teacher's course enrolled until the end of the time bought with a live grant |
| PaymentTheorems.ApprovalKeepsRowIff | billing/models.py:69-78 | Approving a plan leaves its row adding up if and only if the duration value is positive or its unit unknown: a plan of duration zero gives a row without an end |
| RefundTheorems.RefundIsIdempotent | billing/payment_service.py:644-645 | A second refund of the same purchase is accepted and changes nothing at all |
| RefundTheorems.RefundSettlesItsGrants | billing/payment_service.py:654-670 | A refund revokes all grants of its purchase and no other, and moves no other purchase, no coupon, no wallet and no course membership |
| RefundTheorems.RefundLeavesOtherRows | billing/payment_service.py:614-623 | A refund leaves every access row unchanged on which its purchase holds no live grant |
| RefundTheorems.RefundTakesExactlyItsPlan | billing/payment_service.py:545-568 | On a paid row that another purchase still pays for, a refund takes exactly the duration of the plan that it bought, and the row stays active |
| RefundOrder.RefundAllSettles | billing/payment_service.py:610-670 | After any sequence of refunds, each some time after the one before, the statuses, live grants and open Grand Tests are determined by the set of refunded purchases alone |
| RefundOrder.RefundAllDecidesRow | billing/payment_service.py:534-568 | After any such sequence a paid row is active with the sum of the surviving grants, or covers nothing after its start when none survives, whatever the state of other rows |
| RefundOrder.RefundOrderIrrelevant | billing/payment_service.py:534-670 | Refunding the same purchases in two orders and at any instants leaves the same statuses, live grants and open Grand Tests and, while a grant survives on a paid row, the same row; without one the row covers nothing after its start either way, also when the creating grant went first |
| RefundTheorems.RefundClosesGrandTest | billing/payment_service.py:593-597 | A Grand Test stays open after a refund if and only if the refunded purchase holds no live grant on it; grants of other purchases do not protect it |
| RefundShortfalls.OtherPurchaseLosesGrandTest | billing/payment_service.py:593-597 | A history of two paid orders of one Grand Test, both submitted and approved, in which the refund of the first locks the student out while the second stays approved with a live grant |
| RefundShortfalls.RefundDeactivatesExactly | billing/payment_service.py:545-555 | A row with a live grant of the refunded purchase stays active if and only if another live grant is left on it or the refunded one did not create it |
| RefundShortfalls.RefundEndsTimeGrantedByHand | billing/payment_service.py:552-555 | A history in which the refund of one day also ends thirty days that an administrator had added to the row |
| CourseRefunds.RefundOfFirstCutsLaterIff | billing/payment_service.py:305-325 | In every reachable state in which the purchase that opened an enrollment and another hold live grants on it, the other is the later one; refunding the first keeps the expiry if and only if it bought access without an end or the row has no end now, and otherwise cuts the first purchase's whole length off it |
| CourseEnds.RefundUndoesCourse | billing/payment_service.py:545-605 | In every sound ledger a refund leaves an enrollment that its purchase holds active if and only if it was active and another live grant is on it or the refunded one did not create it; the time from the end before the refunded grant to the end that it gave is taken off, unless the row is closed or one of the ends is missing |
| CourseEnds.RenewalRoundTrip | billing/payment_service.py:305-325 | Approving a purchase of a course whose enrollment is there and refunding it gives the enrollment the end it had, if both have one, and leaves it open, whether it was open or closed before |
| CourseEnds.RefundedCourseStaysOpen | billing/payment_service.py:305-325 | A history in which a course is bought and refunded twice and stays open until the end of the first purchase |
| RefundShortfalls.RefundCutsLaterCourse | billing/payment_service.py:310-320 | A history in which the refund of a used-up course purchase cuts thirty days off a later purchase of the same course |
| PurchaseLifecycle.DecisionsLast | billing/payment_service.py:456-517 | Rejected, expired, cancelled and refunded purchases are never touched again, an approved one can only be refunded, and none becomes unpaid again or changes buyer or content |
| PurchaseLifecycle.ResubmissionRestores | billing/payment_service.py:348-488 | Sending a pending purchase back and handing in the same reference again is accepted and restores it, with two audit entries more |
| PurchaseLifecycle.ApprovalPaysOnceIff | billing/payment_service.py:330-345 | If each referrer holds one reward for each student brought in who ever had an approved purchase, an approval keeps that if and only if its buyer was not referred, has another approved purchase, or never had a refunded one |
| PurchaseLifecycle.CreditIsExact | billing/payment_service.py:330-345 | Over any history a referrer gains one reward for each student newly brought in and one more for every approval of a student whose approved purchases were all refunded; so the promise holds at the end if and only if there was no such approval |
| PurchaseLifecycle.ReferrersPaidOnce | billing/payment_service.py:330-345 | In histories without refunds every referrer holds exactly one reward for each referred student with an approved purchase |
| PurchaseLifecycle.RefundedBuyerIsPaidForAgain | billing/payment_service.py:338-340 | A history in which a referred student buys, is refunded and buys again, and the referrer holds two rewards for one student |
| CouponRace.CapsHoldUnderRaces | billing/payment_service.py:414-441 | However approvals of pending and of unpaid free orders, refunds, submissions, rejections, resubmission requests, expiries, cancellations and orders interleave at the purchase and coupon row locks, no approval past its checks loses its reservation and every coupon stays counted and under both caps |
| CouponRace.CapsHold | billing/payment_service.py:417-441 | For each coupon and every interleaving: usage count equals its approved or refunded purchases and neither cap is exceeded |
| CouponRace.ApprovalUnrivalled | billing/payment_service.py:387-444 | An approval that meets no other on its purchase and coupon goes through if and only if the purchase may be approved and its coupon has room; then purchase and coupon are written once and all locks are given up, and otherwise nothing has changed |
| CouponRace.AbortGivesUp | billing/payment_service.py:387-441 | An approval that breaks off after any of its checks has written nothing, and its purchase and coupon are free again |
| CouponRace.WithoutLockCapBreaks | billing/payment_service.py:414-418 | Without the lock on the coupon row two free orders, each approved by the request that creates it, redeem a one-use coupon twice |
| PaymentService.Service.ExtendOrCreateSubscription | billing/payment_service.py:57-121 | The tables become those of the transition on values: the current row of the same origin is extended from its end, or a new row is opened, with one ledger line |
| PaymentService.Service.ActivateTest | billing/payment_service.py:236-248 | The one access row of student and test is created or re-stamped and reopened, and the grant recorded |
| PaymentService.Service.ActivatePackageTest | billing/payment_service.py:280-300 | Only a new or revoked access is opened and recorded; a valid one is left as it is |
| PaymentService.Service.ActivateCourse | billing/payment_service.py:305-325 | The enrollment's expiry is replaced and its previous expiry recorded |
| PaymentService.Service.ActivateProduct | billing/payment_service.py:223-327 | The tables become those of the transition on values for the kind of the purchase, looping over combo and package items in place |
| PaymentService.Service.Approve | billing/payment_service.py:433-444 | Access, status, coupon, referral credit and audit entry of an approval, all as in the transition on values |
| PaymentService.Service.ApprovePurchase | billing/payment_service.py:387-448 | The checks in their order, or all effects of the approve transition; a sound ledger stays sound, an accepted approval delivers everything ordered, and every row that added up still does |
| PaymentService.Service.ReverseOne | billing/payment_service.py:571-607 | One grant is undone on the copy of its row that was loaded with the grants |
| PaymentService.Service.WithdrawGrants | billing/payment_service.py:654-664 | The loop over the purchase's grants leaves the tables that the transition on values gives |
| PaymentService.Service.RefundPurchase | billing/payment_service.py:610-676 | The guards in their order, or all effects of the refund transition; a sound ledger stays sound, an accepted refund leaves its purchase no live grant, and every paid row still adds up |
| VoteProofs.ExcessIsExact | academics/services.py:174-234 | Under any mix of practice answers with and without an option, submitted tests, bookmarks and successful, failed or repeated deliveries: stored total attempts and pick counts plus the deltas still pending equal the votes in the attempt rows, and correct attempts exceed those who are right by the right rows that an answer without an option blanked, less those that the same option set right again |
| VoteProofs.RightVotesAgreeIff | academics/services.py:209-228 | The right votes of a question agree after a history if and only if every row blanked in it was set right again |
| VoteProofs.StepAgreesIff | academics/services.py:174-234 | From full agreement a step keeps it if and only if it does not blank a right row |
| VoteProofs.PassAgreesIff | smart_practice/services.py:267-283 | An answer without an option keeps agreement if and only if the student had chosen no option or was not right |
| VoteProofs.VotesAlwaysAgree | academics/services.py:174-234 | As long as no answer without an option comes from a student who was right, each stored counter plus the deltas still pending equals the votes counted from the attempt rows after any history, and each row counts its events |
| VoteProofs.BlankedAnswerStaysCounted | smart_practice/services.py:267-283 | A student answers right, answers without an option and answers wrong: nobody is right, nothing is pending, and one correct attempt is stored |
| VoteProofs.CountersCatchUp | academics/services.py:42-60 | From an empty bank, once every task is delivered, total attempts and each pick count equal the counts of the attempt rows, and correct attempts exceed them by the rows blanked and not set right again |
| VoteProofs.AttemptsAreEvents | academics/services.py:187-207 | From an empty bank and over any history, answers without an option included, each attempt row's attempts are its correct plus its incorrect ones, and these are the right and wrong events of that student and question |
| VoteProofs.DeltaIsVoteDifference | academics/services.py:209-228 | The delta of an answer, with an option or without, changes each counter by what the student's own vote moved, up to rows that stay with their option and are no longer right, or right again |
| VoteProofs.SortedBatchAddsSum | academics/services.py:262-263 | Applying the sorted batch adds exactly the sum of the batch as collected to every counter |
| VoteProofs.OrderIrrelevant | academics/services.py:237-263 | A batch leaves the same questions, percentages included, in whatever order its deltas are applied and however ties are rounded |
| Votes.SortedIsPermutation | academics/services.py:262-262 | The sorted batch is ascending in question id and has the same deltas |
| VoteShares.SharesAlwaysSound | academics/services.py:52-77 | From a blank bank, in every reachable state: the pick counts of a question add up to its total attempts, each percentage is within one half of the share, and with a positive total the k percentages add up to 100 within k/2 |
| VoteShares.SharesSumTo100 | academics/services.py:65-65 | For one question and any rounding to a nearest integer, ties either way: the shares miss 100 by at most half a point for each option |
| VoteShares.NearestDecidesButTies | academics/services.py:65-65 | A rounding that is off by at most one half is decided by the rest of the division for everything but ties, and may give either neighbour for a tie such as 23 of 40 |
| VoteShares.PercentageIs | academics/services.py:64-65 | A stored percentage is within one half of a hundred picks over the total, also when a total is below zero for a while, and zero without a total |
| StatsService.Service.AddPicks | academics/services.py:58-60 | Each option's pick count moves by its change, one option at a time |
| StatsService.Service.Reprice | academics/services.py:62-77 | Every percentage is recomputed from the present total by the platform's rounding, whatever that does with ties, and only changed ones are written |
| StatsService.Service.ApplyQuestionStatDelta | academics/services.py:42-77 | The question's aggregates move by the delta; false and no change when the question is gone |
| StatsService.Service.ApplyOneDeltaWithRetry | academics/services.py:266-282 | A delta is applied exactly once or not at all; it is applied if and only if the question exists and a try without a database error is reached within three tries through retryable errors |
| StatsService.Service.ApplyQuestionStatsDeltas | academics/services.py:237-263 | On return every delta is applied once, as in any order, and each question was locked for it in ascending order; an error leaves exactly a proper prefix of the sorted batch applied |
| StatsService.Service.RecordQuestionResult | academics/services.py:151-234 | The attempt row and the event are written; the delta is applied at once or handed back, never both; the question is locked after the attempt row, and only if its statistics move at once |
| StatsService.Service.Answer | academics/views.py:804-814 | A practice answer to an existing option is recorded, has the effect of the step on values, keeps counters and votes in agreement and the percentages sound |
| StatsService.Service.AnswerWithoutOption | smart_practice/services.py:255-285 | An answer without an option has the effect of the step on values, and keeps agreement if and only if the student had chosen no option or was not right |
| StatsService.Service.LogAnswers | tests_app/lifecycle.py:377-399 | The answers to existing options are recorded in order, one attempt row locked for each, and exactly the deltas of the transition on values are collected |
| StatsService.Service.Finalize | tests_app/lifecycle.py:377-399 | A submission records every answer to an existing option in order, whether or not the student met the question before, and leaves the collected deltas to one task, with counters plus pending deltas still in agreement with the votes; it locks the rows of a submission's program in their order |
| StatsService.Service.ProcessQuestionStats | tests_app/stats_tasks.py:69-110 | One delivery applies the whole batch and marks it, or changes nothing; a delivery of a marked batch is a no-op that succeeds; it locks the rows of a stats worker's program in their order; agreement and sound percentages are kept |
| AnswerRecords.SubmissionRecords | tests_app/lifecycle.py:377-399 | A submitted test adds one event for each answer to an existing option, in order and with that option's flag; each question answered has the option given last, its flag and the right and wrong answers counted in the student's row, which is made if need be; no other row, no counter and no earlier task changes |
| AnswerRecords.PracticeRecords | academics/views.py:804-814 | A practice answer to an existing option is recorded in the same way and changes no other question; any other answer changes nothing |
| AnswerRecords.DeliveryMovesCounters | tests_app/stats_tasks.py:69-110 | A successful delivery of deltas not yet applied moves every counter by their sum, leaves questions alone that none of them is about and marks them applied; any other delivery does nothing |
| StatsLocks.JobsNeverDeadlock | academics/services.py:237-263 | Any number of stats workers with overlapping batches, practice answers and submissions whose answers agree on one order per student: with locks released at any time or held to the end, no reachable state has a circle of waiting workers, and unless all are done some worker can go on |
| StatsLocks.OneSubmissionPerStudent | tests_app/lifecycle.py:377-425 | The same for answers in any order, as long as no student submits two tests at once |
| StatsLocks.NoWaitingCycle | academics/services.py:249-250 | For programs that lock rows in one order no reachable state has a wait-for cycle |
| StatsLocks.SomeoneCanMove | academics/services.py:249-250 | For such programs, whenever work is left some worker can lock its next row or commit |
| StatsLocks.RestartGetsThrough | academics/services.py:266-282 | A worker that is rolled back gives up all its locks; started again it locks the rows of its program one after the other as long as nobody else holds one, and nothing happens to the locks of others |
| LockPairs.MayDeadlockIff | academics/services.py:249-250 | Where locks may be given up at any time, two transactions can come to wait for each other if and only if they lock two shared rows in opposite orders |
| LockPairs.MayDeadlockHoldingIff | academics/services.py:249-250 | Where locks are held to the end, two transactions can come to wait for each other if and only if the first row that each shares with the other is not the same |
| LockPairs.SubmissionsMayDeadlockIff | tests_app/lifecycle.py:377-425 | Two tests of one student submitted at once, with locks given up at any time, can wait for each other if and only if two shared questions were answered in opposite orders |
| LockPairs.HoldingSubmissionsMayDeadlockIff | tests_app/lifecycle.py:377-425 | The same with locks held to the end, as the source holds them: if and only if the first shared question answered is not the same in both |
| StatsLocks.UnsortedBatchesMayDeadlock | academics/services.py:243-248 | Without the sort two stats workers that share two questions can wait for each other |
| DedupTheorems.CompletionIsSound | academics/import_dedup_tasks.py:158-183 | Whenever the check is completed for a Subject and no request that could still bump the generation is between its two writes, some run of the current generation worked for that Subject, met no newer generation, went through every row and passed every check, and each row carries the finder's verdict for that Subject or was last written by a superseded run |
| DedupTheorems.LatenessIsBounded | academics/import_views.py:235-275 | A superseded run goes through at most five more rows after the generation moved, and at most that many rows carry what it wrote then |
| DedupTheorems.GenerationsGrow | academics/import_views.py:347-353 | As long as no request is overtaken between reading and writing, the generation never goes back |
| DedupTheorems.StaleRunNeverCompletes | academics/import_dedup_tasks.py:104-111 | A run that ever saw a newer generation can never mark the check completed |
| DedupTheorems.ClaimsAreSpaced | academics/import_dedup_tasks.py:86-101 | Two successful claims of one generation are more than the stale window apart, and none succeeds after that generation was completed |
| DedupTheorems.ConfirmIsBacked | academics/import_views.py:594-599 | As long as no request is overtaken, and between requests: a batch with a Subject passes the confirm gate if and only if its check is completed, and then a run of the current generation for that Subject went through every row |
| DedupLiveness.TakeoverIff | academics/import_dedup_tasks.py:86-101 | A pending check is claimed and its run dies anywhere or hangs: whatever runs and requests do in between short of a bump, a delivery or a completion, the next delivery starts a run if and only if more than thirty minutes have passed since the claim |
| DedupLiveness.CrashEndsRun | academics/import_dedup_tasks.py:145-183 | A crash writes nothing, and whatever happens after it the run neither goes on nor writes anything |
| DedupLiveness.WholeRunCompletes | academics/import_dedup_tasks.py:145-183 | A claimed run that is left alone completes the check, and every row carries the finder's verdict for the batch's Subject |
| DedupLiveness.TakeoverCompletes | academics/import_dedup_tasks.py:145-183 | From any pending check: a run is claimed, loads and crashes, the check is delivered again after thirty-one minutes and that run completes the check with every row right |
| DedupLiveness.RequestChangesSubject | academics/import_views.py:323-354 | A taxonomy request that is left alone stores the Subject chosen; for another Subject, and for no other request, the generation moves by one, the check is pending and the claim is cleared |
| DedupLiveness.SubjectIsChecked | academics/import_views.py:323-354 | Choosing another Subject, delivering its check and leaving the run alone completes the check for that Subject with every row right |
| DedupProofs.RowsStaySound | academics/import_views.py:273-288 | At every interleaving point the rows behind a current run are right, and a flagged row ahead of it is one it knows of |
| DedupProofs.SubjectsStayAgreed | academics/import_dedup_tasks.py:165-173 | Between requests every run of the current generation works for the current Subject |
| DedupProofs.CompletionStaysSound | academics/import_dedup_tasks.py:175-183 | Every step keeps a clean run behind a completed status |
| DedupProofs.ClaimsStaySound | academics/import_dedup_tasks.py:96-101 | Every step keeps the claims of a generation spaced and bounded by the stored claim time |
| DedupProofs.OneAtATimeIsUndisturbed | academics/import_views.py:297-353 | Histories in which requests do not overlap at all are among those that the results cover |
| DedupShortfalls.HalfSavedRequestOpensTheGate | academics/import_views.py:323-353 | Between the two writes of a taxonomy request confirming passes, and it is backed by a run for the saved Subject if and only if the Subject did not change |
| DedupShortfalls.LateRunOverwritesNewerVerdict | academics/import_views.py:249-254 | A history without overlapping requests in which the check is completed for the second Subject while a row carries the verdict for the first |
| DedupShortfalls.OverlappingRequestsShareAGeneration | academics/import_views.py:347-353 | A history with overlapping requests that ends completed for a Subject no run ever worked for |
| DedupTheorems.BumpGoesAboveIff | academics/import_views.py:347-353 | Whatever requests overlap, the bump of a changed Subject leaves the generation above every earlier one if and only if its request had read the highest of them |
| DedupShortfalls.GenerationGoesBack | academics/import_views.py:347-353 | A history in which the generation goes back from 2 to 1, and the run that had seen itself superseded completes the check for a third Subject without having gone through a row |
| RunDedup.DedupBatch.MarkRows | academics/import_views.py:238-288 | The rows before the first failed check are marked with the finder's verdicts on the rows as loaded, the others are untouched; without a Subject nothing is |
| RunDedup.DedupBatch.RunTask | academics/import_dedup_tasks.py:114-183 | An uninterrupted task does all the work of a generation that is current and pending or under a claim of more than thirty minutes, and nothing of any other, and leaves nothing to claim |
| RunDedup.DedupBatch.SetSubject | academics/import_views.py:323-354 | An uninterrupted request moves the generation exactly when the Subject changes, and then every row is checked against the new Subject |
| RunDedup.StopAt | academics/import_views.py:273-275 | The loop stops before the first row, among every fifth, whose check sees a newer generation |
| RunDedup.RestartsConverge | academics/import_views.py:263-288 | After any earlier runs for whatever Subjects, cut off anywhere, one full run says of every row without errors exactly what a single full run says |
| RunDedup.FlaggedIff | academics/import_views.py:263-288 | A row is flagged if and only if it has a text and a question of the bank or any other row of the file, earlier or later, passes the filter and qualifies |
| RunDedup.FirstRowFlaggedByTheSecond | academics/import_dedup.py:88-139 | With an empty bank the first of two equal rows is a duplicate because of the second |
| DuplicateFinder.FindDuplicate | academics/import_dedup.py:88-139 | The search, with the filter in front of each comparison, returns the first entry with the highest score among those that pass the filter and reach the threshold on matched characters and on shared options; the method's own ensures say so on those quantities |
| DuplicateFinder.FilterKeepsResultIff | academics/import_dedup.py:88-139 | The search finds what comparing every entry in full would find if and only if the winner of the full comparison passes the filter |
| DuplicateFinder.FilterCostsThresholdOnly | academics/import_dedup.py:88-139 | Whenever the two differ, the duplicate that the full comparison finds has a score of exactly 17/20 |
| DuplicateFinder.FilterLosesADuplicate | academics/import_dedup.py:55-63 | A text of 17 characters, another of 23 that contains it and the same options: compared in full they are a duplicate of score 17/20, and the search finds nothing |
| DuplicateFinder.Consider | academics/import_dedup.py:105-126 | One entry takes the lead if and only if it passes the filter, reaches the threshold on both counts and scores strictly higher than the leader |
| DuplicateFinder.ScoreIff | academics/import_dedup.py:82-124 | A pair has a score if and only if the other text is not empty, forty times the matched characters are at least seventeen times the characters of both texts, both have options, and twenty times the shared options are at least seventeen times all options; the score is the smaller of the two quotients |
| DuplicateFinder.FoundIsRight | academics/import_dedup.py:88-139 | The search returns the question with the highest score so defined, the first of them, unless a row scores strictly higher, and then the first such row; and nothing exactly if nothing has a score |
| DuplicateFinder.DisjointOptionsFindNothing | academics/import_dedup.py:82-85 | A candidate that shares no option with any question or row has no duplicate, however alike the texts are |
| DuplicateFinder.WithoutIs | academics/import_dedup.py:132-135 | The rows that a candidate is compared with are all rows but its own, in file order |
| DuplicateFinder.BestIsFirstBest | academics/import_dedup.py:120-139 | The result is the first entry in visit order with the highest score among those that qualify, and there is none if and only if none qualifies |
| DuplicateFinder.FilterLosesIff | academics/import_dedup.py:27-63 | The filter drops a pair of texts whose ratio reaches the threshold if and only if the lengths are on the bound 17 : 23 with a product that is not rounded up and every character of the shorter text is matched; no dropped pair has a higher ratio than the threshold |
| DuplicateFinder.QualifiesIff | academics/import_dedup.py:105-126 | A pair that reaches the threshold on text and options is taken up by the search if and only if its lengths are not lost on the bound |
| DuplicateFinder.FilterPassesIff | academics/import_dedup.py:38-63 | The filter passes the lengths whose bound 2 min / (a + b) exceeds the threshold, and of those whose bound is the threshold only the ones whose product in doubles is rounded up |
| LengthFilter.LengthCouldMatchIff | academics/import_dedup.py:52-63 | With the constant and the product as doubles, the filter passes if and only if 17 times the longer length is below 23 times the shorter, or they are equal and a power of two lies above 22/23 of the longer length and not above it |
| LengthFilter.SomeLengthsOnTheBound | academics/import_dedup.py:52-63 | The lengths 17 and 23 are dropped, while 391 and 529 in the same ratio pass |
| Doubles.AtMostRounded | academics/import_dedup.py:63-63 | A whole number of units is at most a product rounded to 53 bits if and only if it is at most the exact product, or less than half a unit above it, or half a unit above it and even |
| Doubles.FractionsKeepTheirOrder | academics/import_dedup.py:105-126 | Of two scores whose denominators multiply to at most 2^48 the smaller one also has the smaller double, so that comparing them and the threshold exactly is comparing them as the code does |
| DuplicateFinder.MatchedFits | academics/import_dedup.py:27-33 | Blocks that come in order without overlapping in either text match at most as many characters as the shorter text has |
| TextNormalizer.NormalizedIsNormal | academics/import_dedup.py:66-69 | A normalized text has no tags, no upper case, only single spaces and none at its ends |
| TextNormalizer.NormalIffUnchanged | academics/import_dedup.py:66-69 | Normalizing leaves a text unchanged if and only if it has that form |
| TextNormalizer.NormalizingTwice | academics/import_dedup.py:66-69 | Normalizing twice is normalizing once |
| TextNormalizer.NormalizedIsItsWords | academics/import_dedup.py:66-69 | A text is normalized to its longest parts without white space, in order, in lower case and with one space between them |
| TextNormalizer.FirstTagBecomesSpace | academics/import_dedup.py:67-67 | The first tag, brackets around at least one character and the nearest closing bracket, becomes one space; what is before it stays and the search goes on behind it |
| ImportProofs.RunsKeepFinishedRows | academics/import_engine.py:147-164 | Over any sequence of runs cut off anywhere, finished rows keep their status and warnings, and stored created plus failed plus skipped falls short of the rows finished by at most twenty for each interruption, and never exceeds them |
| ImportProofs.UncutRunFinishesAll | academics/import_engine.py:177-230 | A claimed run that is not cut off leaves every row finished, the batch completed and everything it did counted |
| ImportProofs.FinishedBatchStaysAsItIs | academics/import_engine.py:177-177 | Once every row is finished, further runs change no row, count or question |
| ImportProofs.RetryWorksOnlyAfterWindow | academics/import_engine.py:139-168 | After a run, cut off or not, the next delivery can claim the batch if and only if the stale window has passed; before that it succeeds without doing anything |
| ImportProofs.OneQuestionPerRow | academics/import_engine.py:209-220 | Over any sequence of runs the questions made exceed the rows imported by exactly those that an exception left without a row and one for each run that was cut off between making a row's question and saving the row: no row is imported twice |
| ImportProofs.ReferencedQuestionsSurvive | academics/import_engine.py:200-207 | A question that a test uses survives every sequence of runs |
| ImportOutcomes.RunEndsRow | academics/import_engine.py:177-220 | One run, cut off anywhere or not, ends every unfinished row that it goes through, and no other, with the status that its decision and the exceptions call for |
| ImportOutcomes.RunsImportRow | academics/import_engine.py:177-220 | A row comes out of any sequence of runs imported if and only if it was before or some run imports it; its decision stays and it never becomes unfinished |
| ImportOutcomes.RunRemovesIff | academics/import_engine.py:200-207 | One run takes a question out of the bank if and only if no test uses it and the run gets to an unfinished row that is to replace it, with no exception in looking it up |
| ImportOutcomes.LostIff | academics/import_engine.py:200-220 | Over any sequence of runs a question is gone without an imported successor if and only if no test uses it, some run removes it and none imports a row that was to replace it |
| ImportOutcomes.ReplaceLosesIff | academics/import_engine.py:200-220 | With one row to replace it, one run loses an unused question if and only if the run is killed between deleting it and saving the row, or an exception hits in between |
| ImportOutcomes.CanBeImportedIff | academics/import_engine.py:177-177 | Some sequence of later runs imports a row if and only if the row is unfinished and not to be skipped |
| ImportOutcomes.LossIsFinalIff | academics/import_engine.py:177-220 | A loss stays, whatever runs follow, if and only if every row that was to replace the question has failed: what a kill lost a later run makes good, what an exception lost stays lost |
| ImportAgain.ImportedAgainIff | academics/import_views.py:263-288 | On a partly imported batch, over a new check and any sequence of runs, an imported row gets a second question if and only if the check matches it with anything, it was not decided to skip it, and a run goes through it without an exception |
| ImportAgain.ImportedRowMatchesItself | academics/import_dedup.py:128-139 | A row whose own question is in the Subject's bank always matches |
| ImportAgain.CheckedRunRemovesIff | academics/import_views.py:277-288 | After a new check a run removes a question if and only if no test uses it and the run gets to a row whose earlier decision was to replace, whatever it was to replace then, and which now matches that question best |
| ImportAgain.RowIsImportedTwice | academics/import_views.py:594-605 | A history in which a row is imported, the batch fails, a new check finds the row's own question, the old decision passes the confirm gate, and the next run makes a second question of the row |
| ImportAgain.DecisionHitsAnotherQuestion | academics/import_views.py:277-288 | A decision to replace one question deletes another that a later check matched instead |
| ImportAgain.KilledReplaceIsRepaired | academics/import_engine.py:200-220 | One history of each: a kill between delete and create, made good by a later run, and an exception at the same place, never made good |
| ImportProofs.HandledFinishesRow | academics/import_engine.py:188-225 | Handling a row finishes it, counts it once, and changes the status of no other row |
| ImportCounts.UncutRunCounts | academics/import_engine.py:177-234 | A claimed run that is not cut off stores created, failed and skipped larger by exactly the rows that became imported, failed and skipped, and duplicates larger by the duplicates of a question that got one of their own |
| ImportCounts.KilledRunLag | academics/import_engine.py:177-225 | A run that dies leaves its stored counts short of the rows finished by what came after the last twentieth row, and by one more if it dies right after a row |
| ImportCounts.RunNotes | academics/import_engine.py:200-220 | An uncut run adds a note to a row if and only if it imports it as the successor of a question that a test uses; texts and all other notes stay |
| ImportReferences.RunsKeepReferences | academics/models.py:638-656 | Over any sequence of runs cut off anywhere, a row's reference to a question is cleared if and only if the question is gone; only a row that one of them imports gets another one, to a question made by these runs that is still there |
| ImportService.Importer.DeleteQuestion | academics/models.py:638-656 | Deleting a question clears every reference of a row to it and nothing else |
| ImportService.Importer.HandleRow | academics/import_engine.py:188-225 | Rows, questions and counters after one row are those of the function on values, for an exception at any of its stages |
| ImportService.Importer.RunImport | academics/import_engine.py:147-240 | A delivery that is not cut off leaves the batch that the run on values gives: finished rows untouched, referenced questions kept and, with the claim, every row finished and everything counted |
| Allocators.PrefixesClashIff | academics/models.py:301-303 | Two different prefixes can spell the same public id if and only if one is the other followed by a number without a leading zero |
| Allocators.PublicIdsAreUnique | academics/models.py:302-303 | Under prefixes without digits a public id determines its prefix and number, also above 9999 |
| Allocators.ConcurrentIdsAreDistinct | academics/models.py:129-145 | However saves interleave at the counter lock, commit or roll back, no two of them get the same public id under prefixes without digits |
| Allocators.SaveAlone | academics/models.py:129-145 | A save that finds its counter row free gets the next number of its prefix, and moves no other counter |
| Allocators.RollbackGivesUp | academics/models.py:129-145 | A save that is rolled back leaves its counter as it was and its row free |
| Allocators.PublicIdSpells | academics/models.py:302-303 | A public id is the prefix followed by the number in at least four digits, with zeros in front up to four digits and none beyond |
| Allocators.GenerateSlug | academics/models.py:308-317 | The search ends and returns the base if it is free, and otherwise the base with the least number from 2 on with which it is |
| QuestionTable.PrefixOf | academics/models.py:302-302 | The prefix is the first letters, in upper case, of the first two words of the Subject's name, or of its one word, or MD without any; it has no digit unless a word starts with one |
| QuestionTable.SlugBase | academics/models.py:311-311 | The base of a slug is the first 180 characters of the text, all of it if it is shorter, or a fixed word if it is empty |
| QuestionTable.Questions.NextNumber | academics/models.py:129-145 | The counter of the prefix goes up by one, from zero if it is new, and its new value is returned |
| QuestionTable.Questions.Save | academics/models.py:300-306 | A blank id becomes the next id of the Subject's prefix, new as long as no prefix has digits; a blank slug becomes the base if that is free, and else the base with the least number that makes it free; given ones are kept |

## Left out

- PaymentService.Service.ApprovePurchase: takes one clock reading, where the source reads the clock several times in one approval; the same holds for refunds.
- PaymentHistories.StatusStepSound: leaves out the payment method and the stored screenshot; the reference check is proved for serial steps only, because the source locks only the purchase itself.
- LedgerTheorems.PaidTimeAddsUp: says nothing of a row that an administrator extended without a scholarship, since such time has no ledger line; RefundShortfalls shows what a refund does to it. Like every result about access rows it takes one approval or refund after another, because the source reads those rows without a lock; Overlaps says when that makes no difference, and WithdrawProofs.FreshCopy the same for a refund.
- PaymentTheorems.AtMostOneCurrent: one approval after another, in the same way.
- LedgerTheorems.CouponsAreCounted: the caps of a coupon do not change, while an administrator can lower a cap below the count that it has.
- LedgerTheorems.AuditTellsTheStatus: the audit entry is one step with the transition, while the source writes it after the commit.
- CouponRace.CapsHoldUnderRaces: an approval past its checks commits or aborts as one step; what it grants is the subject of the other payment modules.
- DedupTheorems.CompletionIsSound: holds as long as no taxonomy request is overtaken by another between its read and its writes; DedupShortfalls has runs outside that.
- DedupTheorems.LatenessIsBounded: under the same condition.
- DedupTheorems.GenerationsGrow: under the same condition; BumpGoesAboveIff says without it when a generation is new.
- DedupTheorems.StaleRunNeverCompletes: under the same condition; GenerationGoesBack shows that it needs one.
- DedupTheorems.ClaimsAreSpaced: under the same condition.
- DedupProtocol: the bank of a Subject and the parsed rows do not change while checks run, and the batch stays open for taxonomy requests.
- DuplicateFinder.FindDuplicate: uses only the matching-block contract of the sequence matcher, not its algorithm, and returns the score before it is rounded to three decimals.
- LengthFilter.LengthCouldMatchIff: concerns texts below 2^48 characters.
- RunDedup.DedupBatch.MarkRows: the percentage in a note is rounded exactly; at a tie of the third decimal the doubles of the source may give one percent less.
- TextNormalizer.NormalizedIsNormal: ASCII white space and letters only; Unicode spaces and case mapping are not modelled.
- TextNormalizer.NormalIffUnchanged: ASCII only, in the same way.
- TextNormalizer.NormalizingTwice: ASCII only, in the same way.
- TextNormalizer.NormalizedIsItsWords: ASCII only, in the same way.
- DedupLiveness.WholeRunCompletes: is about a run that nobody disturbs; what holds when others interfere is DedupTheorems.
- CouponRace.ApprovalUnrivalled: the row locks of the model are given up on an abort; waiting for a lock is a step that does nothing yet.
- QuestionTable.PrefixOf: upper-cases ASCII letters only; a letter whose upper case is two letters is not modelled.
- QuestionTable.SlugBase: takes the slugified text as given.
- StatsService.Service.ProcessQuestionStats: a database that discards the whole transaction on a deadlock, instead of the savepoint, is not modelled.
- VoteProofs.ExcessIsExact: an answer's correctness is the flag of its option; deleting options or questions and editing flags are not modelled, and counters are integers that the database would refuse below zero.
- ImportProofs.OneQuestionPerRow: is about runs on their own; a new duplicate check between them opens imported rows again, which is ImportAgain.
- ImportProofs.ReferencedQuestionsSurvive: which questions tests use is fixed while the runs go on, and deliveries do not overlap.
- Allocators.GenerateSlug: a slug taken between the search and the insert by another save is left to the database's unique constraint.
- QuestionTable.Questions.Save: ids that an administrator sets by hand are not tracked.
- Mock test quota and its use, auto-renewal, prices, discounts and coupon eligibility: single-branch arithmetic beside the ledger.
- Conservation of time on teachers' course enrollments: their expiry is replaced, not extended; CourseRefunds states what a refund cuts.
- Plans edited after an order: an order carries its plans.
- Orders that the order view refuses because access to the Grand Test or course exists: the model accepts them, so its histories include more than those that the view lets through.
- Decisions changed between a duplicate check and the run: ImportAgain takes the decisions as the check left them.
- Mastery, revision dates and confidence: thresholds of one row.
- Implicit locks of the database and query planning: not visible in the code; explicit row locks only.
- HTTP views, permissions, mail, notifications, task clients, storage and images: calls without visible effect on this state; delivery is a step that may happen any number of times.
- The import that also builds a test in one transaction, and rollback of a batch: all-or-nothing variants of the import modelled here.
