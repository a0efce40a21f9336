# Verified model of the AI shopping assistant module

A Dafny model of the parts of the Magento module whose correctness rests on state, time or order, with proofs
of what they keep over every run. `dafny verify dfyconfig.toml` checks the whole project.

- **Attachment uploads and storage quota** (`Attachment*.dfy`, `Sums.dfy`). A ticket reserves bytes, an upload
  claims and stages the file, and finalisation settles the reservation, the attachment row and two levels of
  quota counters in one transaction, under a thirty-second lease, beside disk-guarded writes and a reconciler.
  `AttachmentTables` has one function per statement or transaction; `AttachmentServices` and
  `AttachmentReconciler` have the classes and loops of the source, each method proved to do what its function
  says; `AttachmentProtocol` is the state machine in which any number of requests interleave statement by
  statement, with lease takeovers and crashes. `AttachmentLinks`, `AttachmentLedger` and `AttachmentLifecycle`
  are its invariants; `AttachmentTheorems`, `AttachmentMoves` and `AttachmentCeiling` are what follows for every run,
  `AttachmentPasses` what one reconciler pass leaves of each row, `AttachmentAccounts` the laws of the counter calls,
  `AttachmentOverrun` the run that passes the storage limits, and `AttachmentLimits` the exact configurations in
  which some run can.
- **Throttling** (`ActionRateLimiter.dfy`): the fixed-window limiter and its sliding-window bound.
- **Guest order access** (`GuestOrderVerification.dfy`, `GuestOrderCodes.dfy`, `GuestOrderBudget.dfy`,
  `GuestOrderLosses.dfy`, `GuestOrderServices.dfy`): one-time codes by email, with the cleaner running between the
  statements of a request: the use of each code and the access it grants, the code that wins, the send budget, and the
  runs that show what the budget loses.
- **Message paging** (`MessagePaging.dfy`): cursor pages while the conversation is appended to, edited and
  truncated.
- **Product payloads** (`FirstOccurrences.dfy`, `ProductPages.dfy`, `ProductMerges.dfy`, `PageFolding.dfy`,
  `ProductParts.dfy`, `ProductNormalizer.dfy`, `ProductForms.dfy`): the page merge, its fold over the parts of a
  message, and normalisation; `ProductMerges` and `ProductForms` say what each field of their results is.
- **Catalogue identity** (`EditDistance.dfy`, `CatalogIdentityMatcher.dfy`, `CatalogScores.dfy`): the edit distance as
  the least number of edits, the two scores and the close match.
- **Support takeover** (`SupportTakeover.dfy`, `SupportCases.dfy`): the lease and the closed state across the services
  and the mass action that write an existing case, and the unread counts.
- **Sale quantities** (`SaleQuantityPolicy.dfy`): minimum, increment and maximum, alone and in a cart.

## What the proofs found

- The atomic commit does not compare the file with its reservation, and a ticket admits files up to the image
  limit whatever was declared, so storage can pass its limits by exactly what committed files exceed their
  reservations (`StorageCeiling`); without such a file the limits hold. Some run passes a limit exactly when both
  limits admit one byte and an image may have two (`LimitsCanBePassed`), which the default configuration satisfies.
- The reconciler's recovery of a finalisation whose file was already moved is never reached, because a final path
  is recorded only together with `committed`; such an attachment is failed and its counters keep the reserved
  bytes (`RecoveryNeverCommits`). The comment at `Model/Maintenance/AttachmentQuotaReconciler.php:95` promises
  otherwise; the model follows the code.
- The commit's branch for an attachment committed by a concurrent call is never reached: the reservation check
  before it throws (`LateFinaliserRefused`).
- The send budget of three codes in 900 seconds is exceeded by at most what the rows lose (`SendBudget`): the sends
  that a deletion after a refused mail makes them forget, and the codes mailed although the cleaner, which takes no
  lock, deleted the stale row between the request's read and its update. Refused mails leave only the cooldown, sixteen
  codes in the window (`RefusedMailsForget`); one vanished row gives four codes, two of them in the same second
  (`VanishedRowForgets`).
- The limiter admits up to twice its limit less one in one window's length, and no more (`BoundIsTight`).
- Normalising a payload twice can change its totals, pagination or scope name (`NormalizeTwice` says exactly when).
- A default quantity can fail the validation it is offered for (`DefaultPasses`, `FractionalIncrementFails`).
- A disk-guarded write without a global limit, which the parameter allows and neither caller uses, settles on the
  global row what it never reserved there, so it takes from the reserved bytes of others (`UnlimitedWritesDrain`).
- A reply takes over another administrator's live lease (`ReplyTakesTheLease`), and so does the mass action
  (`MassStatusTakesTheLease`), which alone reopens a closed case (`StepKeepsShut`).

## Model

| member | source | states |
|---|---|---|
| AttachmentTheorems.LeavesOnce | Model/Attachment/AttachmentRepository.php:238-274 | In every interleaving of finalisers, uploads, disk-guarded writes and reconciler rows, a reservation leaves `active` at most once |
| AttachmentTheorems.EndAccountedInRuns | Model/Attachment/AttachmentRepository.php:305-341 | The one step that takes a reservation out of `active` refunds its bytes at most once and charges the file at most once, on the owner and global rows alike; a commit does both, an expiry refunds, the lost-file branch does neither |
| AttachmentTheorems.CommittedIffSettled | Model/Attachment/AttachmentRepository.php:243-303 | In every reachable state an attachment is committed iff its reservation is committed, and a final path is recorded only on committed rows |
| AttachmentTheorems.LapsedNeverCommitted | Model/Maintenance/AttachmentQuotaReconciler.php:194-245 | No attachment whose reservation was expired or released is committed, before or after |
| AttachmentTheorems.LifecycleMonotone | Model/Attachment/AttachmentRepository.php:54-136 | The rank {issued, uploading} < {staged, finalizing} < {committed, failed, expired} never falls, and rows of the last group never change |
| AttachmentTheorems.StagedOnce | Controller/Chat/Upload.php:234-277 | Bytes are staged at most once per attachment, and the staging statement never meets a row that is not `uploading` |
| AttachmentTheorems.ClaimIsExclusive | Model/Attachment/AttachmentRepository.php:54-76 | At most one upload holds the claim on an attachment at any time, and its row is `uploading` while it does |
| AttachmentTheorems.LateFinaliserRefused | Model/Attachment/AttachmentRepository.php:293-303 | A finaliser that reaches the transaction after the commit always gets an exception, never the idempotent return |
| AttachmentTheorems.RecoveryNeverCommits | Model/Maintenance/AttachmentQuotaReconciler.php:110-191 | For every reachable finalizing row and every set of files, the reconciler returns the row to staged or fails it, and never commits it |
| AttachmentMoves.LeasesAreApart | Model/Attachment/AttachmentRepository.php:112-136 | In every run, two finalisers win the lease of one attachment more than thirty seconds apart, unless the reconciler put the row back to staged in between |
| AttachmentMoves.MarkTakesFreeRows | Model/Attachment/AttachmentRepository.php:112-136 | A finaliser takes its row, and stamps it, exactly when the row is issued, staged, or finalising with a stamp more than thirty seconds old; otherwise its request ends and no row changes |
| AttachmentMoves.EndMovesItsRow | Model/Maintenance/AttachmentQuotaReconciler.php:210-244 | In every run, the step that takes a reservation out of `active` moves its own attachment and no other row: a commit commits it, an expiry, more than ten minutes past the deadline, expires it if it is issued or staged and leaves it otherwise, a lost file fails it |
| AttachmentMoves.CommitsExactlyWhen | Model/Attachment/AttachmentRepository.php:219-349 | The commit takes place iff the row is finalising and its reservation active and not past its deadline; it records the file's path and size, or changes no table |
| AttachmentMoves.CommitGoesThrough | Model/Attachment/AttachmentRepository.php:219-349 | In any tables, the commit goes through iff the reservation it names is its own, active and not past its deadline, and the row is committed already or finalising under the owner it names |
| AttachmentMoves.ClaimTakesIssuedRows | Model/Attachment/AttachmentRepository.php:54-76 | A claim is won only with the ticket's owner and nonce, on an issued row, until it expires, and changes that row alone |
| AttachmentMoves.IssuedRowsCanBeClaimed | Model/Attachment/AttachmentRepository.php:54-76 | Such a row can always be claimed |
| AttachmentMoves.StagingRecordsTheFile | Controller/Chat/Upload.php:263-277 | Staging records the owner's staging path and the received size on an uploading row, and keeps the file |
| AttachmentMoves.RenameMovesTheFile | Controller/Chat/Upload.php:246-261 | A rename puts the file in place without touching a table; a failed one gives the claim back |
| AttachmentMoves.TicketsHoldTheirBytes | Model/AttachmentUploadManagement.php:67-86 | A ticket holds the declared bytes, or the image limit when none are declared, on both levels, and none is issued for more than that limit |
| AttachmentMoves.TicketsLastFiveMinutes | Model/AttachmentUploadManagement.php:88-104 | The new row is its owner's, issued, with the held bytes and nonce, for 300 seconds |
| AttachmentMoves.TicketsAreBound | Model/AttachmentUploadManagement.php:105-125 | Reservation and ticket carry the same bytes, owner, nonce and deadline |
| AttachmentMoves.FinalisersNeedALiveTicket | Model/AttachmentUploadManagement.php:142-153 | A finalisation starts only until its ticket's deadline |
| AttachmentMoves.FinalisersFindTheFile | Model/AttachmentUploadManagement.php:182-212 | The final file is preferred to the staged one, its size is read, and without either the request ends |
| AttachmentMoves.MovesKeepTheFile | Model/AttachmentUploadManagement.php:196-208 | The move takes the staged file to its final path; a failed one leaves it staged and commits it there |
| AttachmentPasses.PassOutcome | Model/Maintenance/AttachmentQuotaReconciler.php:103-245 | A whole pass, from any linked state and over any files: a finalisation silent for more than a minute goes back to staged or, without its file, fails and releases; then an active reservation overdue by more than ten minutes lapses unless its attachment is finalising, and expires what is issued or staged; nothing else of either row changes |
| AttachmentPasses.RecoversFinalFile | Model/Maintenance/AttachmentQuotaReconciler.php:119-170 | With a final file, the reservation is revived for five minutes if active or expired, and the file is committed iff the reservation is the row's own on the rebuilt path |
| AttachmentTheorems.CountersConserved | Model/Maintenance/AttachmentQuotaCounter.php:31-157 | In every reachable state the global row is the sum of the owner rows for used and reserved; an owner's used is its committed files plus net disk-guarded bytes; its reserved is its unexpired reservations (active, or released by the lost-file branch), plus unfinished initiations, plus disk-guard holds |
| AttachmentTheorems.ClampsNeverAct | Model/Maintenance/AttachmentQuotaReconciler.php:216-234 | Every active reservation and every hold is covered on both levels, so no clamp at zero ever changes a subtraction |
| AttachmentTheorems.Reachable | Model/Attachment/AttachmentRepository.php:54-349 | The row links and the ledger hold in every state of every run |
| AttachmentLinks.StepKeepsLinked | Model/Attachment/AttachmentRepository.php:54-349 | Every step keeps the links between attachment rows, reservation rows, tickets and requests in flight |
| AttachmentLedger.StepKeepsLedger | Model/Maintenance/AttachmentQuotaCounter.php:31-157 | Every step keeps the counters equal to what rows and requests stand for |
| AttachmentLifecycle.StepAdvances | Model/Maintenance/AttachmentQuotaReconciler.php:103-192 | No step lowers a rank, changes a terminal row, or alters a reservation that is no longer active |
| AttachmentLifecycle.EndIsAccounted | Model/Attachment/AttachmentRepository.php:276-341 | Whatever step takes a reservation out of `active`, the counter changes on both levels are exactly the refund and charge of its new state |
| AttachmentCeiling.StorageCeiling | Model/Maintenance/AttachmentQuotaCounter.php:31-78 | In every reachable state used plus reserved is within the owner and the global limit, up to what committed files exceed their reservations |
| AttachmentCeiling.LimitsHoldWhenFilesFit | Model/Maintenance/AttachmentDiskGuard.php:35-77 | While no committed file is larger than its reservation both limits hold outright, disk-guarded writes included |
| AttachmentCeiling.CommitMovesSums | Model/Attachment/AttachmentRepository.php:305-341 | A commit changes both sums by the file less the reservation, so it raises them iff the file is larger |
| AttachmentOverrun.DeclaredBytesDoNotBound | Model/AttachmentUploadManagement.php:67-119 | On top of any stock that leaves room for the declared bytes, a ticket stores a file of any size up to the image limit, whatever the storage limits |
| AttachmentLimits.LimitsCanBePassed | Model/Attachment/AttachmentRepository.php:261-341 | Some run of the protocol passes an owner or the global limit iff both limits admit at least one byte and the image limit at least two |
| AttachmentLimits.PassingRun | Model/Attachment/AttachmentRepository.php:261-341 | In every such configuration a named run passes: a stock to the last byte, a ticket for that byte, a file of two |
| AttachmentLimits.OthersHold | Model/Maintenance/AttachmentQuotaCounter.php:31-78 | In every other configuration no state of any run passes either limit |
| AttachmentTables.SettlementsAgree | Model/AttachmentUploadManagement.php:234-252 | The three-case fallback changes owner and global counters exactly as the atomic transaction does, and fails iff the extra bytes find no room |
| AttachmentAccounts.HoldsBalance | Model/Maintenance/AttachmentQuotaCounter.php:31-157 | A hold that is released leaves the counters as they were, one that is committed leaves exactly its bytes used on both levels, and giving these back undoes it |
| AttachmentAccounts.HoldsCount | Model/Maintenance/AttachmentQuotaCounter.php:31-78 | While it lasts a hold adds its bytes to the reserved bytes of both levels, creating missing rows, and changes nothing else |
| AttachmentAccounts.AdmittedExactly | Model/Maintenance/AttachmentQuotaCounter.php:31-78 | A hold is admitted iff with it no level that has a limit exceeds that limit |
| AttachmentAccounts.ReleasesStopAtZero | Model/Maintenance/AttachmentQuotaCounter.php:90-157 | Releasing more than there is stops at zero on each level by itself |
| AttachmentAccounts.FirstUseCounts | Model/Maintenance/AttachmentDiskGuard.php:50-56 | A scope's first use counts the scan as used and nothing as reserved; later uses change nothing |
| AttachmentAccounts.UnlimitedWritesDrain | Model/Maintenance/AttachmentQuotaCounter.php:124-157 | A write held without a global limit leaves the global row as a limited one does iff nothing is reserved on it |
| AttachmentServices.AttachmentQuotaCounter.Reserve | Model/Maintenance/AttachmentQuotaCounter.php:31-78 | Succeeds iff both levels have room; a refusal rolls back even the rows it created |
| AttachmentServices.AttachmentQuotaCounter.MoveReserved | Model/Maintenance/AttachmentQuotaCounter.php:124-157 | Moves reserved bytes on both levels, clamped at zero, only when the owner row exists |
| AttachmentServices.AttachmentQuotaCounter.ReleaseUsed | Model/Maintenance/AttachmentQuotaCounter.php:90-122 | Gives back used bytes on both levels, clamped at zero |
| AttachmentServices.AttachmentDiskGuard.ReserveAndWrite | Model/Maintenance/AttachmentDiskGuard.php:35-77 | Initialise from the scan, hold, write, then commit or release: whole new state for every outcome |
| AttachmentServices.AttachmentRepository.ClaimForUpload | Model/Attachment/AttachmentRepository.php:54-76 | Claims iff owner, nonce, state and expiry match |
| AttachmentServices.AttachmentRepository.ReleaseUploadClaim | Model/Attachment/AttachmentRepository.php:78-89 | Returns only an `uploading` row to `issued` |
| AttachmentServices.AttachmentRepository.RecordStaged | Model/Attachment/AttachmentRepository.php:91-110 | Stages only an `uploading` row, and says whether it did |
| AttachmentServices.AttachmentRepository.TryMarkFinalizing | Model/Attachment/AttachmentRepository.php:112-136 | Takes issued and staged rows, and a finalizing row only past its lease |
| AttachmentServices.AttachmentRepository.CommitFinalAttachmentAtomic | Model/Attachment/AttachmentRepository.php:219-349 | Settles reservation, row and both counters together, or leaves every table as it was |
| AttachmentServices.AttachmentUploadManagement.SettleByCounter | Model/AttachmentUploadManagement.php:234-252 | The fallback settlement, equal to its specification in all three cases |
| AttachmentReconciler.AttachmentQuotaReconciler.Execute | Model/Maintenance/AttachmentQuotaReconciler.php:103-245 | Recovers exactly the stale finalizing rows, then expires exactly the reservations still expirable; when no finalizing row records a final path, it reports one correction for each |
| AttachmentReconciler.AttachmentQuotaReconciler.Recover | Model/Maintenance/AttachmentQuotaReconciler.php:110-191 | One stale row: revive and commit, return to staged, or fail and release |
| AttachmentReconciler.AttachmentQuotaReconciler.Expire | Model/Maintenance/AttachmentQuotaReconciler.php:210-244 | One reservation: the conditional transition and, only if it took place, the refunds and the expired row |
| AttachmentReconciler.PassIsARun | Model/Maintenance/AttachmentQuotaReconciler.php:103-245 | A whole pass from a linked state, whatever files it sees, is a run of the protocol's row steps |
| ActionRateLimiter.FewerThanTwiceTheLimit | Model/Security/ActionRateLimiter.php:19-48 | Over every history of calls and evictions, any interval of one window's length admits at most twice the limit less one |
| ActionRateLimiter.BoundIsTight | Model/Security/ActionRateLimiter.php:19-48 | For every limit and window some history admits exactly that many |
| ActionRateLimiter.RefusalsDoNotExtend | Model/Security/ActionRateLimiter.php:32-47 | A refused call leaves the window's end alone, and a call after the advised wait is admitted |
| ActionRateLimiter.WindowAdmitsExactlyTheLimit | Model/Security/ActionRateLimiter.php:32-47 | Within one open window exactly the first `limit` calls are admitted |
| ActionRateLimiter.UsualLimitsAreKept | Model/Security/ActionRateLimiter.php:19-31 | Limits of 1 to 100 and windows of 10 seconds to a day are taken as they are, and bound the admissions as such; other limits count as the nearest of these |
| ActionRateLimiter.EvictionChangesNothing | Model/Security/ActionRateLimiter.php:32-47 | A cache that drops a record whose window is over makes no difference to the next call |
| Sums.ClampsToTheNearest | Model/Security/ActionRateLimiter.php:23-24 | Clamping goes to the nearest number of its range |
| ActionRateLimiter.Limiter.Consume | Model/Security/ActionRateLimiter.php:19-48 | Clamps, lock refusal, counting and the wait reported, against the history's step function |
| GuestOrderBudget.SendBudget | Model/Order/GuestOrderVerification.php:117-161 | Over every run, whatever sessions ask, whenever the cleaner runs and wherever a request dies, any closed stretch of 900 seconds contains at most three codes sent to an email, plus those whose row the cleaner deleted under the request, plus those that a row deleted after a refused mail still counted in its window |
| GuestOrderBudget.ThreeInTheWindow | Model/Order/GuestOrderVerification.php:128-130 | At most three when no row vanished under a sent code and no refused mail deleted a row that still counted; deletions of rows that count nothing are allowed |
| GuestOrderBudget.SendsAreSpaced | Model/Order/GuestOrderVerification.php:131-133 | Over every run a code sent to an email follows each earlier one by at least 60 seconds, except one whose row vanished |
| GuestOrderBudget.SendsEvenWithRefusals | Model/Order/GuestOrderVerification.php:154-158 | Over every run, refused mails included, at most sixteen codes reach an email in 900 seconds, plus those whose row vanished |
| GuestOrderBudget.BalanceByKey | Model/Order/GuestOrderAccessRepository.php:30-47 | What an email's codes weigh is bounded by the sum over its sessions of what each row answers for |
| GuestOrderCodes.LastCodeWins | Model/Order/GuestOrderVerification.php:138-145 | In every run, every comparison is against the code of the challenge issued last under its email and session, and is won iff it brings that code |
| GuestOrderCodes.SentCodeWins | Model/Order/GuestOrderVerification.php:164-195 | After a code that was sent with its row written, a trial within 600 seconds, with fewer than five comparisons made and none won, is won by that code and lost by any other; any other trial compares nothing |
| GuestOrderCodes.MailedCodeWins | Model/Order/GuestOrderVerification.php:138-160 | The code that a request mails is the one that then wins, whatever code there was before |
| GuestOrderCodes.WonTrialOpens | Model/Order/GuestOrderVerification.php:180-195 | A won trial opens the email's orders to its token until 24 hours after the grant, and no longer |
| GuestOrderCodes.RequestsEnd | Model/Order/GuestOrderVerification.php:135-160 | The rows and the log after each way a request can end: the challenge it writes, its send count, and what a refused mail forgets |
| GuestOrderCodes.CleanerTakesOldRows | Model/Order/GuestOrderAccessRepository.php:105-114 | The cleaner takes exactly the rows whose code, and access if any, ran out more than a day ago |
| GuestOrderCodes.QuietEmailIsServed | Model/Order/GuestOrderVerification.php:126-133 | In every run an email that was issued no code in the last 900 seconds is served |
| GuestOrderCodes.ServedAgainAfterAMinute | Model/Order/GuestOrderVerification.php:131-133 | With one recent session and fewer than three sends counted, an email is served iff its last challenge is at least 60 seconds old |
| GuestOrderCodes.ThreeSendsRefuse | Model/Order/GuestOrderVerification.php:128-130 | Three recent sends in any sessions refuse the next |
| GuestOrderLosses.RefusedMailsForget | Model/Order/GuestOrderVerification.php:154-158 | A run of one session whose every second mail is refused reaches those sixteen with no row vanished |
| GuestOrderLosses.VanishedRowForgets | Model/Maintenance/ExpiredDataCleaner.php:33-38 | A run in which the cleaner deletes a stale row between a request's read and its update sends two codes in one second and four in the window |
| GuestOrderVerification.CleanSlidesPastTrial | Model/Order/GuestOrderVerification.php:164-195 | A pass of the cleaner between a trial's read and its write has the effect of one after the write, so a trial is one step |
| GuestOrderVerification.CleanSlidesPastStatistics | Model/Order/GuestOrderAccessRepository.php:30-47 | A pass between a request's two reads leaves the send statistics as they were, so the reads are one step |
| GuestOrderVerification.ChallengeUse | Model/Order/GuestOrderVerification.php:164-195 | At every moment of every run the code last issued under an email and session has undergone at most five comparisons and won at most one |
| GuestOrderVerification.WonCodeIsSpent | Model/Order/GuestOrderVerification.php:168-188 | A code that has won is never compared again |
| GuestOrderVerification.AccessMeansRecentGrant | Model/Order/GuestOrderVerification.php:75-90 | A token opens an email's orders iff it was granted to that email and session within the last 24 hours and no newer challenge was issued for them since |
| GuestOrderVerification.AccessIsFresh | Model/Order/GuestOrderVerification.php:62-72 | `hasAccess` and `hasFreshAccess` agree at any one instant |
| GuestOrderServices.GuestOrderAccessRepository.GetEmailSendStats | Model/Order/GuestOrderAccessRepository.php:30-52 | SUM and MAX over the email's rows since the cutoff, computed row by row |
| GuestOrderServices.GuestOrderAccessRepository.FindAccess | Model/Order/GuestOrderAccessRepository.php:89-101 | Some row of the token and session, or none when there is none |
| GuestOrderServices.GuestOrderVerification.RequestOtp | Model/Order/GuestOrderVerification.php:29-161 | Every refusal in its order, and the whole new state: the request's two steps, with any pass of the cleaner between them |
| GuestOrderServices.GuestOrderVerification.CheckBudget | Model/Order/GuestOrderVerification.php:124-133 | Lets a request go on iff both checks pass, and names the answer of the one that stops it |
| GuestOrderServices.GuestOrderVerification.SendChallenge | Model/Order/GuestOrderVerification.php:135-160 | The write, the mail and the deletion when it is refused, as the second step of the run |
| GuestOrderServices.GuestOrderAccessRepository.SaveChallenge | Model/Order/GuestOrderAccessRepository.php:50-59 | The update of the row that was read does nothing when that row is gone; otherwise the row is written |
| GuestOrderServices.GuestOrderVerification.VerifyOtp | Model/Order/GuestOrderVerification.php:45-195 | Succeeds iff the row is unexpired, under five attempts and the code matches; whole new state as one step |
| GuestOrderServices.GuestOrderVerification.FindValidAccess | Model/Order/GuestOrderVerification.php:75-90 | Finds a row iff the access holds, though the query may return any row of the token and session |
| GuestOrderServices.GuestOrderVerification.CheckFreshAccess | Model/Order/GuestOrderVerification.php:67-72 | Implies access, and equals the freshness predicate when both clock readings agree |
| MessagePaging.WalkIsComplete | Model/Conversation/MessagePageLoader.php:76-132 | Following the cursor with any page sizes, through appends, edits and truncations, a finished walk has read in order and exactly once every message present at the first request and surviving, nothing else, in at most as many requests as there were messages |
| MessagePaging.CursorDecreases | Model/Conversation/MessagePageLoader.php:126-132 | The cursor strictly decreases, and an unfinished walk always has requests to spare |
| MessagePaging.PagesHoldWhatWasAsked | Model/Conversation/MessagePageLoader.php:161-190 | A page holds as many messages as asked for, counted as 1 to 100, or all under the cursor, and says whether there are more and where |
| MessagePaging.PagesShowTheText | Model/Conversation/MessagePageLoader.php:192-226 | A shown message has its stored number, role and deletion, and its text unless it is deleted |
| MessagePaging.GuestTokensAreHexadecimal | Model/Conversation/MessagePageLoader.php:136-158 | A guest token is sixty-four characters, each a lower-case hexadecimal digit |
| MessagePaging.ChangesOfTheTable | Model/ResourceModel/Conversation.php:47-77 | Between requests the table gains a message under the next number, has one's text or deletion changed, or is truncated; a request changes nothing |
| MessagePaging.MessagePageLoader.LoadRows | Model/Conversation/MessagePageLoader.php:161-234 | The newest messages under the cursor in ascending order, at most a clamped page of them, more and cursor exactly when older ones exist |
| MessagePaging.MessagePageLoader.Load | Model/Conversation/MessagePageLoader.php:38-132 | A page iff the conversation is the customer's own and in scope |
| MessagePaging.MessagePageLoader.LoadGuest | Model/Conversation/MessagePageLoader.php:136-158 | A page iff the token is well formed and the conversation is that guest's and in scope |
| MessagePaging.ConversationResource.TruncateMessagesFrom | Model/ResourceModel/Conversation.php:47-77 | Deletes the branch iff the anchor is a user message of the conversation |
| MessagePaging.TruncationIsASuffix | Model/ResourceModel/Conversation.php:65-71 | What a truncation removes is a suffix of that conversation from one of its user messages on, and nothing else changes |
| ProductPages.MergeIsAssociative | Model/Payload/ProductPayloadNormalizer.php:198-259 | Merging three payloads in either grouping gives the same payload: ids and their order, first item per key, totals, page, returned, has_more, next_page, query and scope |
| ProductPages.MergeKeepsFirstItems | Model/Payload/ProductPayloadNormalizer.php:210-222 | For every item key the merged page keeps exactly the item met first |
| ProductPages.MergedCounts | Model/Payload/ProductPayloadNormalizer.php:233-256 | The merged total covers the items and both claimed totals, the page is the later one, and there is a next page, one further on, iff the total exceeds the items |
| ProductPages.MergeNamesBoth | Model/Payload/ProductPayloadNormalizer.php:203-227 | The merged page names exactly the products of both, each id and each item key once |
| ProductMerges.MergedIdsInOrder | Model/Payload/ProductPayloadNormalizer.php:203-235 | The merged ids are the positive ones of both pages, each once, in the order in which ids and items first write them |
| ProductMerges.FirstItemsStay | Model/Payload/ProductPayloadNormalizer.php:210-222 | An item stays iff no earlier one of either page has its product id, or, without one, its content |
| ProductMerges.MergedTotalIsLeast | Model/Payload/ProductPayloadNormalizer.php:236-242 | The merged total is the least number covering the kept items and every total that either page claims |
| ProductMerges.MergedPaginationCounts | Model/Payload/ProductPayloadNormalizer.php:244-257 | The merged pagination is on the later page, counts what was merged, and has the page after iff there is more |
| ProductMerges.MergedPaginationIsThere | Model/Payload/ProductPayloadNormalizer.php:244-248 | There is a merged pagination iff either page has one, and an empty one iff neither has a field |
| ProductMerges.OtherFieldsAreTheLater | Model/Payload/ProductPayloadNormalizer.php:232-247 | Version, page size, card limit, truncation and the scope's fields are the later page's where it has them, and else the earlier's |
| ProductMerges.QueryIsTheLater | Model/Payload/ProductPayloadNormalizer.php:233 | The query is the later page's without the blanks around it, or the earlier's when that leaves nothing or a zero |
| ProductPages.MergeProductPayloadPages | Model/Payload/ProductPayloadNormalizer.php:198-259 | The loops of the source compute the merge |
| FirstOccurrences.GatherKeepsFirsts | Model/Payload/ProductPayloadNormalizer.php:219-222 | What is collected is exactly the first value of each key |
| FirstOccurrences.GatherGathered | Model/Payload/ProductPayloadNormalizer.php:203-227 | Collecting first occurrences of what was already collected is collecting everything at once |
| ProductParts.PartsFold | Model/Payload/ProductPayloadNormalizer.php:34-67 | Plain parts stay in order and unchanged, opening parts keep their places, and each output product payload is the left fold of the merge over a run of input payloads |
| ProductParts.TwoPartsFold | Model/Payload/ProductPayloadNormalizer.php:34-67 | Two product parts, with nothing or a plain part between them, become one that holds their merge, in place and with its markup, when the second is a later page of the same positive category or of the same non-blank query up to case and blanks; otherwise they stay as they are |
| ProductParts.NextPagesFollow | Model/Payload/ProductPayloadNormalizer.php:178-196 | A page continues another iff its number is greater and they share a positive category, or a non-blank query up to case and blanks |
| ProductParts.RunsOfParts | Model/Payload/ProductPayloadNormalizer.php:48-63 | The runs are contiguous and maximal: together the product payloads in order, each later page a later page of the same category or query as the fold before it, no first page one of the run before |
| ProductParts.FoldNamesTheSame | Model/Payload/ProductPayloadNormalizer.php:34-67 | The set of positive product ids is neither enlarged nor reduced |
| ProductParts.MergeSequentialProductParts | Model/Payload/ProductPayloadNormalizer.php:34-67 | The loop of the source computes the fold, text parts leaving the open part open |
| PageFolding.RunsAreMaximal | Model/Payload/ProductPayloadNormalizer.php:48-63 | For any continuation test and merge, the fold's runs are the greedy ones |
| ProductNormalizer.NormalizeTwice | Model/Payload/ProductPayloadNormalizer.php:261-398 | Ids and items never change again; the whole payload is unchanged iff its counts and its scope name settle, a condition on the input payload alone |
| ProductNormalizer.LegacyTotalDrifts | Model/Payload/ProductPayloadNormalizer.php:276-340 | A version 1 payload of two products cut to a page of one has total two after one normalisation and one after the second |
| ProductNormalizer.ShortTotalDrifts | Model/Payload/ProductPayloadNormalizer.php:363-364 | A version 2 pagination that claims nothing and shows one item has total zero after one normalisation and one after the second |
| ProductNormalizer.CutNameDrifts | Model/Payload/ProductPayloadNormalizer.php:393 | A scope name cut to 255 characters just after a blank is 254 characters after the second normalisation |
| ProductNormalizer.NormalIdsForm | Model/Payload/ProductPayloadNormalizer.php:267-316 | At most the visible limit of distinct non-zero ids, every shown item's among them unless the list is full |
| ProductNormalizer.NormalPaginationForm | Model/Payload/ProductPayloadNormalizer.php:332-377 | A next page iff there is more, past the current page, and the count of shown items |
| ProductForms.NormalFormIs | Model/Payload/ProductPayloadNormalizer.php:261-352 | Every field of a normalised payload from the fields given: version, query, total, the visible items, the pagination by version, and the scope |
| ProductForms.PaginationIsFrom | Model/Payload/ProductPayloadNormalizer.php:332-377 | Page, page size and card limit are nearest in their ranges with the defaults 1, 5 and 20; version 1 counts anew, version 2 keeps what it was told, with a next page past this one iff there is more |
| ProductForms.LimitIsVisible | Model/Payload/ProductPayloadNormalizer.php:277-283 | Twenty are visible without a pagination, otherwise what its pages so far hold up to its card limit |
| ProductForms.ScopeIsFrom | Model/Payload/ProductPayloadNormalizer.php:380-398 | The category unless zero, the stripped name cut at 255 characters, the stripped address iff it is a link, and the flags |
| ProductForms.OptionsAreFrom | Model/Payload/ProductPayloadNormalizer.php:403-431 | Options stay in order iff some value says something, each with its different stripped values |
| ProductForms.IdsFrom | Model/Payload/ProductPayloadNormalizer.php:267-316 | The ids come from the payload's own or from shown items; own ids come first in their order, and none is left out while there is room |
| ProductForms.LegacyTotalCounts | Model/Payload/ProductPayloadNormalizer.php:267-276 | Version 1's total is the number of different non-zero ids or of items, whichever is more |
| ProductForms.NothingToShow | Model/Payload/ProductPayloadNormalizer.php:317-319 | There is no normal form iff there is no item and no non-zero id |
| ProductNormalizer.NormalizeProductPayload | Model/Payload/ProductPayloadNormalizer.php:261-352 | The steps of the source compute the normal form |
| EditDistance.LevZero | Model/Product/CatalogIdentityMatcher.php:142 | The edit distance is zero only between equal words |
| EditDistance.LevAtLeastGap | Model/Product/CatalogIdentityMatcher.php:139-142 | The edit distance is at least the difference in length |
| EditDistance.LevSymmetric | Model/Product/CatalogIdentityMatcher.php:67 | The edit distance is symmetric |
| EditDistance.NoScriptIsShorter | Model/Product/CatalogIdentityMatcher.php:142 | No script of kept, exchanged, dropped and added letters that turns one word into another has fewer edits than their distance |
| EditDistance.SomeScriptIsExact | Model/Product/CatalogIdentityMatcher.php:142 | Some such script has exactly as many |
| CatalogIdentityMatcher.ScoreZero | Model/Product/CatalogIdentityMatcher.php:111-158 | The identity score is zero iff the guards pass, the word sets are equal and the candidate repeats no word |
| CatalogIdentityMatcher.ScoreWithheld | Model/Product/CatalogIdentityMatcher.php:121-150 | The identity score is null iff a guard fails or some query word has no candidate within tolerance |
| CatalogScores.ScoreIs | Model/Product/CatalogIdentityMatcher.php:111-158 | Past the guards, with the first of the nearest candidate words for each query word, the score is three for every candidate word that is nobody's plus the distances |
| CatalogScores.LeftOutWordsCostThree | Model/Product/CatalogIdentityMatcher.php:152-157 | A query of different candidate words scores three for every word it leaves out |
| CatalogScores.OneWordScores | Model/Product/CatalogIdentityMatcher.php:152-157 | One long word scores its distance from the nearest candidate word, and three for every other |
| CatalogScores.FarWordCostsThree | Model/Product/CatalogIdentityMatcher.php:152-157 | One more candidate word that is near no query word costs exactly three |
| CatalogScores.WithinMeans | Model/Product/CatalogIdentityMatcher.php:138-144 | Words match iff their lengths differ by at most two and their distance is at most one or a fifth of the longer, rounded up |
| CatalogScores.CloseMeans | Model/Product/CatalogIdentityMatcher.php:60-70 | The close match allows one edit, or eighteen for every hundred letters of the longer word |
| CatalogScores.OneShortWordIsNotEnough | Model/Product/CatalogIdentityMatcher.php:121-131 | One word identifies a product only from eight letters on |
| CatalogScores.ShortWordsTakeNoPart | Model/Product/CatalogIdentityMatcher.php:113-120 | Words under three letters take no part, and the others keep their order |
| CatalogIdentityMatcher.BestIsFirstNearest | Model/Product/CatalogIdentityMatcher.php:135-147 | The inner loop finds the first of the nearest candidates within tolerance |
| CatalogIdentityMatcher.IdentityDistance | Model/Product/CatalogIdentityMatcher.php:111-158 | The loops of the source compute the identity score, leaving early as it does |
| CatalogIdentityMatcher.EmbeddedZero | Model/Product/CatalogIdentityMatcher.php:173-219 | The embedded score is zero iff the guards pass and the candidate is a contiguous block of the query |
| CatalogIdentityMatcher.EmbeddedIdentityDistance | Model/Product/CatalogIdentityMatcher.php:173-219 | The exact least summed distance over all windows within tolerance, null iff there is none or a guard fails |
| CatalogScores.EmbeddedIsLeast | Model/Product/CatalogIdentityMatcher.php:173-219 | Past its guards the embedded score is the edits, word by word, of the stretch of the query that needs fewest, and null iff no stretch matches word for word |
| CatalogIdentityMatcher.PruningBound | Model/Product/CatalogIdentityMatcher.php:138-143 | The length test changes no comparison for words up to a length iff that length is at most ten |
| CatalogIdentityMatcher.ClosePruningBound | Model/Product/CatalogIdentityMatcher.php:62-70 | The same for the close match, at sixteen |
| CatalogIdentityMatcher.ScoresUnpruned | Model/Product/CatalogIdentityMatcher.php:194-218 | For words of up to ten letters both scores equal those without the length test |
| CatalogIdentityMatcher.IsCloseMatch | Model/Product/CatalogIdentityMatcher.php:49-75 | True iff some query word of five letters or more is close to some candidate word |
| SupportTakeover.LeasePassesOnlyAtItsEnd | Model/Support/SupportTakeoverService.php:35-66 | Under the operations modelled, a live lease passes to somebody else only after its deadline, its holder's release, the close of its conversation, another administrator's reply or mass action, or the listing that closes a case without a conversation |
| SupportTakeover.LiveLeaseIsExclusive | Model/Support/SupportTakeoverService.php:142-149 | Until its deadline a live lease is still held and every other claim or release is refused |
| SupportTakeover.ClaimLeases | Model/Support/SupportTakeoverService.php:151-160 | A successful claim holds the case for the lease's full length |
| SupportTakeover.ReplyTakesTheLease | Model/Support/SupportReplyService.php:84-93 | A reply by another administrator takes a live lease, its holder can no longer keep it alive, and a reply starts no lease of its own |
| SupportTakeover.MassStatusTakesTheLease | Controller/Adminhtml/Supportcase/MassStatus.php:40-57 | The mass action that sets a case in progress takes a live lease, and its holder is refused |
| SupportTakeover.ClosedForGood | Model/Support/SupportTakeoverService.php:51-66 | A case closed by its conversation stays closed, inactive and without a deadline under every later claim, release, heartbeat, reply, customer message, reading, listing, erasure and close, until the mass action reopens it |
| SupportTakeover.StepKeepsShut | Controller/Adminhtml/Supportcase/MassStatus.php:40-57 | A step leaves a closed case closed iff it is not the mass action to an open status |
| SupportCases.AdminUnreadIsWritten | Model/Support/SupportInboxService.php:64-91 | Over every run, the administrators' unread count is the number of messages the customer wrote since the last answer or reading |
| SupportCases.CustomerUnreadIsAnswered | Model/Support/SupportReplyService.php:84-95 | Over every run, the customer's unread count is the number of answers since they last wrote |
| SupportCases.RefusalReasons | Model/Support/SupportTakeoverService.php:124-149 | A claim or release is refused iff the case is settled, has no conversation, or has somebody else's running lease, in that order |
| SupportCases.ClaimStartsOrRenews | Model/Support/SupportTakeoverService.php:151-160 | A claim leases the case for 300 seconds; a running lease keeps the time it started, any other starts anew |
| SupportCases.ReleaseEnds | Model/Support/SupportTakeoverService.php:161-166 | A release waits for the customer and ends the lease |
| SupportCases.HeartbeatExtends | Model/Support/SupportTakeoverService.php:35-49 | A heartbeat moves the deadline of its holder's running lease, and nothing else |
| SupportCases.AnswerTakesOver | Model/Support/SupportReplyService.php:84-95 | A reply waits for the customer under its administrator and withdraws a resolution; the lease's times stay |
| SupportCases.ReplyReasons | Model/Support/SupportReplyService.php:26-82 | Why a reply is refused, in order |
| SupportCases.MessageOpens | Model/Support/SupportInboxService.php:73-91 | A customer's message opens a case that is not settled and leaves its lease alone |
| SupportCases.ListingCloses | Model/Support/SupportCaseService.php:221-243 | A verified listing closes a case that lost its conversation, unless it is settled |
| SupportCases.MassActionOpens | Controller/Adminhtml/Supportcase/MassStatus.php:40-57 | The mass action to an open status withdraws a resolution and takes the case over iff it puts it in progress |
| SupportTakeover.SupportDesk.ChangeState | Model/Support/SupportTakeoverService.php:124-171 | The refusals in their order, and the whole table after a claim or a release |
| SupportTakeover.SupportDesk.HeartbeatCase | Model/Support/SupportTakeoverService.php:35-49 | Extends the deadline iff the administrator holds a live lease |
| SupportTakeover.SupportDesk.CloseByConversationId | Model/Support/SupportTakeoverService.php:51-66 | Closes every case of the conversation, and says whether there was one |
| SupportTakeover.SupportDesk.ReplyToCase | Model/Support/SupportReplyService.php:26-95 | The refusals of a reply, and the row it writes |
| SupportTakeover.SupportDesk.RecordCustomerMessage | Model/Support/SupportInboxService.php:73-91 | Reopens to `open` only cases that are not closed |
| SupportTakeover.SupportDesk.MarkAdminRead | Model/Support/SupportInboxService.php:64-71 | Clears the unread count and nothing else |
| SupportTakeover.SupportDesk.SetStatuses | Controller/Adminhtml/Supportcase/MassStatus.php:31-61 | The loop sets every selected case and no other, or nothing for an unknown status, and counts them |
| SaleQuantityPolicy.DefaultPasses | Model/Product/SaleQuantityPolicy.php:46-106 | A non-null default quantity passes validation iff its product's settings fit together |
| SaleQuantityPolicy.WholeIncrementFits | Model/Product/SaleQuantityPolicy.php:57-66 | An enabled whole increment always fits |
| SaleQuantityPolicy.FractionalIncrementFails | Model/Product/SaleQuantityPolicy.php:61-63 | A non-decimal product in steps of one and a half is offered a default that fails |
| SaleQuantityPolicy.MinimumIsLeast | Model/Product/SaleQuantityPolicy.php:54-66 | For decimal products and whole increments the minimum is the least quantity the shop's own settings allow |
| SaleQuantityPolicy.ValidIsAllowed | Model/Product/SaleQuantityPolicy.php:46-106 | For decimal products and for whole steps, a quantity is valid iff it is at least one, the minimum and the step, at most a positive maximum, whole unless decimal, and in steps |
| SaleQuantityPolicy.DefaultIsLeastValid | Model/Product/SaleQuantityPolicy.php:69-70 | No valid quantity is below the default, and there is no default iff the minimum exceeds the maximum |
| SaleQuantityPolicy.MinimumOfSettings | Model/Product/SaleQuantityPolicy.php:54-67 | Without steps the minimum is the product's own or one, rounded up unless decimal, in ones; with steps a decimal product goes in its own |
| SaleQuantityPolicy.RoundedUp | Model/Product/SaleQuantityPolicy.php:57-66 | For other products step and minimum are rounded up to whole numbers, and by less than one |
| SaleQuantityPolicy.UnknownStockSellsWhole | Model/Product/SaleQuantityPolicy.php:109-119 | Without a stock item whole quantities from one on are valid |
| SaleQuantityPolicy.CombinedQuantities | Model/Product/SaleQuantityPolicy.php:88-129 | Any number of valid quantities add up to one that is valid iff the maximum allows it |
| SaleQuantityPolicy.CartFailsOnTheMaximumAlone | Model/Tool/CartTool.php:145-164 | A valid quantity joins a cart of valid lines iff the maximum allows the total |
| SaleQuantityPolicy.DefaultJoinsTheCart | Model/Tool/CartTool.php:124-136 | The truncated default joins an empty cart iff the settings fit and the default is whole |
| SaleQuantityPolicy.GetExistingProductQty | Model/Tool/CartTool.php:272-283 | The loop sums the lines of the product or of its parent |
| SaleQuantityPolicy.LinesAddUp | Model/Tool/CartTool.php:272-283 | A cart line counts once, for its own product and for its parent |
| SaleQuantityPolicy.MayAdd | Model/Tool/CartTool.php:145-164 | The quantity alone, then with what the cart holds |
| SaleQuantityPolicy.SaleQuantityPolicies.GetPolicy | Model/Product/SaleQuantityPolicy.php:35-83 | The fallback, the cached answer, or the policy of the stock item, which is then cached |
| SaleQuantityPolicy.SaleQuantityPolicies.Validate | Model/Product/SaleQuantityPolicy.php:88-106 | Validity against the policy the cache gives |

## Left out

- GuestOrderBudget.SendBudget: a bound, not the exact number; each of the two losses can be used in full (`RefusedMailsForget`, `VanishedRowForgets`), but a lost row or a deleted row that still counted need not lead to a further code in every run.
- GuestOrderVerification.CleanSlidesPastTrial: the cleaner runs between a request's reads and its write; its pass between the two reads, or inside a trial, is folded into a neighbouring step, for a pass whose clock is less than 24 hours past the request's.
- AttachmentServices.AttachmentRepository.TryMarkFinalizing: follows the predicate that the comment at `Model/Attachment/AttachmentRepository.php:118` states; how the database adapter quotes the nested values is not modelled.
- AttachmentReconciler.AttachmentQuotaReconciler.Execute: without the rewriting of `used_bytes` from a file scan and without the branch for a missing repository; a nested transaction that rolls back in the recovery branch is not modelled, and no reachable state enters that branch.
- AttachmentServices.AttachmentDiskGuard.ReserveAndWrite: a commit of the counters that itself throws is not modelled, and neither is the guard without a counter.
- AttachmentTheorems.CountersConserved: from an empty start, where the scans that initialise a counter find nothing, and for `releaseUsed` of no more than the owner's used bytes.
- The protocol's reconciler steps take any finalizing row and any overdue reservation, which allows more runs than the source; the class has the exact selections, and `PassIsARun` connects the two.
- An attachment has one staged and one final path: the probe over three file extensions, the metadata file, the image checks and the streaming loop are not modelled, nor are `recordCommitted` and the repository's `releaseReservation`, which nothing calls.
- Ticket signatures, hashes, nonces, identifiers and access tokens are fresh or injective; a random code may repeat.
- An UPDATE is taken to report each row its conditions match, and auto-increment ids are taken never to be reused.
- The limiter's cache keeps a record until its time to live has run out; the lock and the serialiser are a parameter or nothing.
- The send budget and the access proofs use one clock that never runs backwards from one operation to the next; the later clock readings inside one operation are separate.
- GuestOrderServices.GuestOrderVerification.RequestOtp: email and session arrive already normalised, with None for a rejected one; email delivery is a parameter, a code counts as sent at the clock reading of its checks, and a request that dies half-way is a step of the runs but not of the method.
- MessagePaging.MessagePageLoader.LoadRows: decoding of content, attachments and feedback is not modelled; a message is its id, role, text and deletion. The customer and guest loaders share one loop here.
- ProductPages.MergeProductPayloadPages: a field that is present but null reads as missing, keys the merge does not look at are not modelled, and equal serialised items are equal items.
- ProductParts.MergeSequentialProductParts: lower-casing is ASCII only, and rendering is a parameter.
- Idempotence of the part fold is not claimed: a later page can make an emitted part the continuation of the one before.
- CatalogIdentityMatcher.IdentityDistance: words arrive already transliterated and split; the tolerances are computed exactly rather than in floating point. `searchPrefix` and `hasLexicalOverlap` would add only easy members.
- SupportTakeover.LiveLeaseIsExclusive: later operations read the clock no earlier than the reading that set the deadline. Each case of a mass action is read and written in one step, and the retention that deletes old closed cases is not modelled.
- SaleQuantityPolicy.DefaultPasses: quantities are exact numbers; the tolerance of 0.000001 is not modelled.
- Controllers, the WebSocket gateway, email, publishing, templates, administration forms, configuration readers, address formatting, telemetry and dependency injection are plumbing around these parts.
