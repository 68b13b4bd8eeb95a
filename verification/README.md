# Wi-Fi pass ledger: a verified model

A cafe sells drinks and gives Wi-Fi time for them. Every order issues or extends the customer's pass for the store's
business day, adds to the day's spending, and may earn rewards; a refund takes proportionate minutes, spending and unused
rewards back. This project models that ledger as it is written in the FastAPI back end, the deferred actions of the Django
back end, and the parts around them with rules of their own (event delivery, one-time codes, business days, tier selection,
sales summaries, suggested time sales), and proves what they keep over every run.

How the modules fit together:

- `LedgerModel` holds the tables, `LedgerSteps` says what each request does to their values, and a run is any sequence of
  requests, at any times, with any arguments, any of which may be aborted before its commit. `Conservation`, `Rewards`,
  `Choices`, `Answers`, `PassLifecycle`, `Sessions`, `Idempotency`, `PolicyVersions` and `ExpiryAccount` prove properties of
  all runs; `OrderCut` and `RefundUndone` compare a run with the same run from which one order was cut out.
- `LedgerService` is the imperative form: pass rows and tables that are updated in place, loop by loop as in the source. Each
  of its methods is proved to move the tables exactly as its `LedgerSteps` function moves their values, so everything proved
  about runs holds of it.
- `PassSchedule`, with `Batches` for the worker's batches, and `ScheduleWorkers` are the same pair for the Django passes and
  their version-stamped actions.
- `OrderEffects`, `RewardEffects`, `PassEffects` and `ScheduleEffects` say of each request when it is accepted and what it
  leaves behind, in terms of rows, sums, maxima and instants and apart from the functions that compute it; `ScheduleAccount`
  is for Django passes what `ExpiryAccount` is for the others.
- `EventFeed` has the history pages and the subscribers, `EventQueue` one subscriber's queue operation by operation,
  `EventStream` one live stream from its query to its frames, and `Reconnect` a client with several.
- `OtpWindow`, `Sales` and `TimeSale` keep specification, loops and theorems in one module each.
- `Counterexamples` has small runs from an empty ledger on which a promise fails.

What the proofs show about the code that its comments and names do not say:

- An expiry loop that fails at the controller after it revoked a session leaves the pass holding a session that is gone, and
  the next loop revokes it again. A request that fails after its call, because publishing its event raises or its commit
  fails, does the same, or leaves a session open that no pass holds, and its retry opens another. These are the only ways
  sessions and passes come apart (`Sessions.SessionsMatchIff`, `Counterexamples.HalfwayFailure`,
  `Counterexamples.AbortedActivation`).
- The Django worker stops a batch at the first revocation the controller refuses. While it stays refused, and nothing moves
  the version of its pass, it stays due, and no scheduled revocation with a later deadline is carried out, however often the
  worker runs and whatever else happens that leaves the version of the later pass alone (`Batches.NothingGetsBeyond`,
  `Batches.RefusalHoldsUpOthers`).
- The expiry of a pass is exactly accounted for by orders, refunds and extensions if and only if every step found the pass
  alive (`ExpiryAccount.ExpiryAccounted`); in every other case the pass has time to spare, never less. The same holds of the
  Django pass, where quiet hours can add to what was paid for and a day pass can take time away
  (`ScheduleAccount.ExpiryAccounted`).
- A pass is only ever closed by hand: a FastAPI pass is blocked or cancelled if and only if its administrator did that
  (`PassEffects.ClosedIff`), a Django pass if and only if it was blocked and not unblocked since
  (`ScheduleEffects.ClosedIff`). Everything else leaves it to be extended by the next order of the day.
- A fully refunded order leaves no trace in the account's spending, in any other account, or in the expiry of its pass, when
  the order extended the pass. An order that issued the pass does leave a trace (`RefundUndone.FullRefundRestoresExpiry`,
  `Counterexamples.IssuingOrderLeavesTrace`).
- An expiring notice can be sent after the expiry, when the worker is ten minutes late or more
  (`PassSchedule.NoticeInTimeIff`, `PassSchedule.NoticeCanComeLate`).
- A Django pass whose version was last moved by an administrator or a day pass has no scheduled end
  (`PassSchedule.EndScheduledIff`). Blocking an active Django pass forgets its network session, and a transaction that fails
  after its call leaves a session open or revokes one again; these are the only ways (`PassSchedule.SessionsAccounted`).
- The Django activation marks an overdue pass as expired and then raises inside the same transaction, so the mark is rolled
  back; the model leaves the pass as it was.
- The publication check accepts policies on which the two back ends grant different minutes; they agree for every amount
  exactly when minutes never fall from tier to tier (`WifiPolicy.SelectorsAgreeIff`).
- The send limit for one-time codes holds over all runs exactly when challenges are kept for at least the window
  (`OtpWindow.SpacingIff`).
- Stored hourly rows outlive refunded orders: a row is true exactly when its hour still has an order that is not fully
  refunded, or had none at any earlier summary (`Sales.StoredRowTrueIff`, `Counterexamples.RowOutlivesRefund`). And two
  business days share a row exactly when the store's cutoff lies inside an hour (`Sales.DaysShareNoRowIff`).
- A broadcast into a full queue is three operations without a lock. When broadcasts do not overlap the queue is always the
  suffix of what was broadcast, and the newest payload is given up exactly when the reader takes a hundred in between
  (`EventQueue.SerialQueueIsSuffix`, `EventQueue.SerialLostIff`). When they overlap, a later payload can overtake an earlier
  one, and the queue-full error escapes into a request exactly when a thread is outrun between its get and its second put
  (`EventQueue.SecondCanOvertake`, `EventQueue.RaisedIffOutrun`).
- A client that reconnects with its last identifier can miss an event for good, when a live event moves that identifier past
  it: one that committed late, and also one committed long before the visit that stood behind a full page of a hundred
  (`Reconnect.NeverSeenIff`, `Reconnect.LateCommitNeverSeen`, `Reconnect.LongBacklogNeverSeen`). And a client whose last
  identifier belongs to an event that never committed is shown the history from the beginning again
  (`Reconnect.AbortedEventStartsOver`).
- The fallback time sale is never validated; it is valid exactly when the configuration allows two hours and a non-negative
  discount and the title fits, which it does for product names within the column's 120 characters
  (`TimeSale.EveryOutcomeSafeIff`).

Times are integers in microseconds, money is unbounded integers, identifiers are numbers of which only equality (and, for
events, order) matters. Run the proofs with `dafny verify dfyconfig.toml`.

## Model

| member | source | states |
|---|---|---|
| Proration.ProratedIsCeiling | app/services/wifi.py:17-27 | the reclaimed minutes are the exact share of the refund rounded up to a minute, and the clamp to the order's minutes never cuts |
| Proration.SplitsTelescope | app/routers/pos.py:374-388 | however a refund is split, no part gives minutes back, the parts add up to the share of the whole refund, and a full refund takes exactly the order's minutes |
| Conservation.BalanceCovers | app/routers/pos.py:342-363 | a balance is never below what is left of any of the account's orders, so the clamp at zero in a refund never changes a value |
| Conservation.StepKeepsMoney | app/services/rewards.py:20-29 | every request keeps each balance equal to the sum of the account's net orders and each store day equal to the sum of its balances |
| Conservation.MoneyConserved | app/routers/pos.py:342-363 | the same in every state any run reaches from the start, with refunds between zero and the order's total and statuses that tell how much was refunded |
| Rewards.EvaluateGrantsMeaning | app/services/rewards.py:31-59 | the loop grants exactly the store's tiers the balance reaches that had no grant, reports each of them once, and changes no other grant |
| Rewards.EarnsInOrder | app/services/rewards.py:31-59 | new grants are reported in the order of the tiers |
| Rewards.UnusedRewardsCovered | app/routers/pos.py:390-412 | in every reachable state each grant awaiting a choice and each available coupon belongs to a tier the current balance reaches |
| Rewards.TiersEarnedOnce | app/services/rewards.py:31-59 | after any run the granted tiers are exactly those the account's highest balance ever reached, each reported by exactly one order, so refunding and ordering again earns nothing twice |
| Choices.ConsumeOldestMeaning | app/routers/pos.py:218-242 | an order consumes the oldest waiting immediate reward of its account and no other, and none only if none waits |
| Choices.ChoicesSettled | app/routers/public.py:549-601 | in every reachable state each fulfilled grant became a coupon or an immediate reward, never both or two, and a reward is attached only to an order of its customer in its store |
| Choices.ConsumedStays | app/routers/pos.py:218-242 | once consumed by an order a reward stays with that order through any later run, refunds of the order included |
| Choices.CouponUsedOnce | app/routers/public.py:689-720 | over any run a coupon is used at most once, and it shows as redeemed exactly when it was |
| Choices.CouponUsedInTime | app/routers/public.py:689-720 | whenever a coupon is accepted, its own customer presents it before its expiry and the balance still reaches its tier |
| Answers.OrderAnswersTruly | app/routers/pos.py:260-280 | an accepted order answers the sum of the account's net orders, the stored pass, exactly the new grants, and the oldest waiting immediate reward, the only one that changed |
| Answers.RefundAnswersTruly | app/routers/pos.py:390-425 | a refund answers the new sums and pass, revokes exactly the waiting grants now out of reach, and reports the minutes the expiry moved by, rounded up |
| OrderEffects.MayOrderIff | app/routers/pos.py:112-171 | an order is carried out if and only if it is well formed, its store known, its key and external number new, its items sold there and their prices add up to its total, its customer given and its pass not closed |
| OrderEffects.OrderEffect | app/routers/pos.py:172-225 | an accepted order is written with the base and the best of the store's first-order tiers when its account has no pass, and else the best of the additional-order tiers, built-in lists standing in for missing ones; its pass is issued for or extended by exactly that, its balance grows by its total, and no other order, pass or balance changes |
| OrderEffects.OrderRefused | app/routers/pos.py:112-171 | any other order changes nothing and is answered with the recorded answer of its key or with the error its fault calls for |
| OrderEffects.MayRefundIff | app/routers/pos.py:316-347 | a refund is carried out if and only if its order is the store's, its key new, its amount within what is left, and the controller answers when it takes the last of a running pass's time |
| OrderEffects.RefundEffect | app/routers/pos.py:348-388 | an accepted refund books its amount on order and balance, and takes from a running pass the difference of the rounded-up shares, down to the present, which ends it and revokes the session it holds |
| OrderEffects.RefundRefused | app/routers/pos.py:316-347 | any other refund changes nothing and is answered with the recorded answer of its key or with the error its fault calls for |
| OrderEffects.RefundTakesRewardsIff | app/routers/pos.py:390-412 | after any run a refund takes back a waiting grant and revokes an unused coupon if and only if it is the account's and its tier asks for more than the account's orders are then worth; every other grant and coupon stays as it was |
| RewardEffects.ChoiceAcceptedIff | app/routers/public.py:513-567 | after any run a choice is accepted if and only if the customer's own grant waits, the benefit is of the grant's tier, the order is the customer's in the store, and a day pass finds a live pass; otherwise nothing changes |
| RewardEffects.ChoiceEffect | app/services/rewards.py:62-90 | an accepted choice fulfils that grant alone and brings the chosen benefit as a coupon for a week or as a reward for the order named; a day pass lasts to the close of the business day or longer |
| RewardEffects.BenefitsOfOwnTier | app/services/rewards.py:67-68 | in every reachable state every coupon and every immediate reward brings a benefit of its grant's own tier |
| RewardEffects.RedeemIff | app/routers/public.py:689-720 | a coupon is used if and only if it is the customer's, available and not past its date; past its date it is marked so, and otherwise nothing changes |
| RewardEffects.ListEffect | app/routers/public.py:636-668 | exactly the customer's available coupons past their date are marked, and nothing else changes |
| PassEffects.ActivateEffect | app/routers/public.py:310-349 | the customer's own unused pass goes online if and only if it has time left and the controller opens the session it then holds; too late it is marked expired without a call, and otherwise nothing changes |
| PassEffects.ExtendEffect | app/routers/admin.py:933-986 | a pass is extended if and only if its own administrator adds at least a minute and it is not closed; nothing else changes |
| PassEffects.ExpireEffect | app/routers/admin.py:989-1042 | a pass that is not over is cancelled, its session revoked, when the controller answers; one that is over is shown as it is |
| PassEffects.BlockEffect | app/routers/admin.py:1045-1110 | a live pass is blocked, its session revoked, when the controller answers; a blocked one is shown as it is, and one over in another way is refused |
| PassEffects.DueEffect | app/services/wifi.py:78-108 | the loop expires, revokes once and counts exactly the passes in use that ran out, or changes no pass when a call fails |
| PassEffects.PublishIff | app/routers/admin.py:539-560 | a policy is published if and only if it is within its bounds, both lists rise strictly and the version named is the current one |
| PassEffects.ClosedIff | app/routers/admin.py:989-1110 | after any run a pass is blocked, or cancelled, if and only if its administrator did that while it was live and the controller answered |
| PassLifecycle.ProperMeaning | app/services/wifi.py:48-53 | in an allowed controller history without a call nothing is open; with one session opened, it is open until it is revoked, and it is the one the pass holds |
| PassLifecycle.StepMoves | app/routers/admin.py:933-1045 | every request moves every pass by an allowed transition: issue time fixed, version never back, one expiry per version, blocked and cancelled final, issued never re-entered |
| PassLifecycle.PassesSound | app/routers/public.py:326-338 | in every reachable state, failed loops and aborted requests included, only active passes hold a session, and the controller was only ever asked to open sessions for a fresh pass and to revoke the one a pass held |
| PassLifecycle.PassHistory | app/routers/admin.py:1066-1078 | between any two points of a run a blocked or cancelled pass is unchanged and equal versions mean equal expiries |
| Sessions.UnnoticedCounts | app/services/wifi.py:78-108 | over any run the sessions opened or closed without a pass taking notice are counted exactly by the failed expiry loops and aborted requests that opened or closed one |
| PassLifecycle.AbortMoves | app/routers/public.py:336-347 | a request that fails after its call to the controller leaves every pass as it was, with one session opened or closed behind its back when the call did so |
| Sessions.SessionsMatchIff | app/services/wifi.py:78-108 | after any run the controller has exactly the sessions active passes hold, and opened and closed none twice for a pass, if and only if no expiry loop failed and no request was aborted after opening or closing a session |
| Counterexamples.AbortedActivation | app/routers/public.py:336-347 | a run in which the activation opens a session and fails before its commit: the pass holds none, and the retry opens a second one |
| Counterexamples.HalfwayFailure | app/services/wifi.py:86-94 | a run in which the controller closes the first of two due sessions and fails on the second: the pass keeps a session that is gone, and the next loop revokes it again |
| PassLifecycle.ExpiryLoopSettles | app/services/wifi.py:78-108 | after a successful expiry loop no pass is due and a second loop at the same time does nothing and counts zero |
| Idempotency.RepeatsAreAnswered | app/routers/pos.py:74-90 | an accepted keyed request sent again after any further run changes nothing and gets the first answer; another body under its key is refused without effect |
| Idempotency.RepeatsCanBeDeleted | app/routers/pos.py:123-138 | deleting every repeat of an accepted keyed request from a run leaves its final state and the answer to every remaining request the same |
| ExpiryAccount.StepSlack | app/routers/pos.py:176-198 | no request leaves a pass less time than orders, refunds and extensions account for, and it leaves exactly that if and only if it finds the pass alive |
| ExpiryAccount.ExpiryAccounted | app/services/wifi.py:30-54 | after any run a pass expires no earlier than issue time plus unrefunded order minutes plus extensions, and exactly then if and only if every step was punctual |
| RefundUndone.OwnRequestOnly | app/routers/pos.py:130-138 | of all requests that could place an order under its number or external number, a run accepts only the one that did |
| OrderCut.BothMove | app/routers/pos.py:112-313 | a request not about the order that does not share its keys, spend a reward on it, close its pass by hand or meet a failing controller (`Clear`) keeps two ledgers in lockstep, and orders, refunds, extensions and the choices of other accounts take effect in both or in neither |
| OrderCut.OneSideMoves | app/routers/pos.py:316-472 | placing the order under its own keys and number when its account has a pass (`Clear`, `Own`), or refunding it, moves nothing outside its own account |
| RefundUndone.RunsInLockstep | app/routers/pos.py:176-198 | when the order extended a pass, its keys are not shared, no reward is spent on it, its pass is not closed by hand and the controller answers, the run without the order agrees on all other orders, on policies, on which passes exist and since when, and on every pass, balance and grant of every other account |
| RefundUndone.FullRefundRestoresExpiry | app/routers/pos.py:374-388 | under the same conditions an order refunded in full, in any parts, leaves the spending as if it had never been placed; the expiries differ by what the two passes have to spare, so they are equal when both runs find the pass alive at every step |
| Counterexamples.IssuingOrderLeavesTrace | app/routers/pos.py:162-185 | a run meeting every other condition in which the refunded order issued the pass, and the expiries differ by forty minutes |
| WifiPolicy.OrderMinutesNonNegative | app/services/policy.py:24-46 | under a valid policy no order carries negative minutes |
| WifiPolicy.PublishableIsAscending | app/routers/admin.py:499-511 | comparing neighbours, as the publication check does, is the same as the whole list being strictly ascending |
| WifiPolicy.BonusMinutesIsBest | app/services/policy.py:19-21 | the FastAPI selector is the least upper bound of the reached tiers' minutes, and zero when none is reached |
| WifiPolicy.HighestReachedIsHighest | wifi/services.py:32-38 | the Django selector is the reached tier with the highest minimum amount, and none exactly when none is reached |
| WifiPolicy.BonusMinutesMonotone | app/services/policy.py:19-21 | with tiers that take no minutes away, paying more never brings fewer FastAPI minutes |
| WifiPolicy.MonotoneIff | app/services/policy.py:19-21 | for any tiers at all, paying more never brings fewer FastAPI minutes if and only if there are none or one with the least minimum takes no minutes away |
| WifiPolicy.SelectorsAgreeIff | wifi/services.py:32-38 | on a publishable list the two selectors agree for every amount if and only if minutes never fall from one tier to the next |
| WifiPolicy.SelectorsCanDisagree | app/routers/admin.py:499-511 | a list the publication check accepts on which the two back ends grant different minutes |
| BusinessDay.BusinessDatePartition | app/time.py:21-61 | an instant has business date d if and only if it lies from the close of d - 1, inclusive, to the close of d, exclusive |
| BusinessDay.ClosesAtCutoff | app/time.py:44-61 | on the store's own clock a day closes on the next date at the cutoff, with Seoul and midnight standing in for what does not parse |
| BusinessDay.CloseOpensNextDay | app/time.py:44-61 | the close of a day is the first instant of the next business day |
| LedgerService.PassRow.Reclaim | app/services/wifi.py:30-54 | updating the row in place has exactly the effect, the removed minutes and the revocation of the specification |
| LedgerService.Ledger.EvaluateGrants | app/services/rewards.py:10-59 | the loop over the tiers deposits the amount and grants and reports what the specification says |
| LedgerService.Ledger.CreateOrder | app/routers/pos.py:112-313 | the endpoint, updating rows in place, leaves all tables and gives the answer the order specification prescribes, errors included |
| LedgerService.Ledger.WithdrawRewards | app/routers/pos.py:390-412 | the loop over the account's grants revokes exactly the waiting grants and unused coupons out of reach |
| LedgerService.Ledger.RefundOrder | app/routers/pos.py:316-472 | the endpoint leaves all tables and gives the answer the refund specification prescribes; when the controller fails half-way, what was already written is rolled back |
| LedgerService.Ledger.ChooseReward | app/routers/public.py:513-633 | the endpoint leaves all tables and gives the answer the specification of a choice prescribes |
| LedgerService.Ledger.ListCoupons | app/routers/public.py:636-668 | the loop expires exactly the customer's own available coupons that are past their date |
| LedgerService.Ledger.ActivatePass | app/routers/public.py:310-349 | the endpoint activates, expires or refuses the pass as specified; a controller failure leaves every table as it was |
| LedgerService.Ledger.ExtendPass | app/routers/admin.py:933-986 | the endpoint leaves all tables as the specification of an extension prescribes |
| LedgerService.Ledger.ExpirePass | app/routers/admin.py:989-1042 | the endpoint leaves all tables as the specification of a forced end prescribes |
| LedgerService.Ledger.BlockPass | app/routers/admin.py:1045-1110 | the endpoint leaves all tables as the specification of a block prescribes |
| LedgerService.Ledger.ExpireDuePasses | app/services/wifi.py:78-108 | the loop ends exactly the due passes, revokes each one's session and counts them; when a call fails it restores every row but not the sessions revoked before |
| LedgerService.Ledger.Rollback | app/db.py:29-38 | rows and tables return to what was committed, rows that were not committed disappear, and the calls made to the controller stay |
| LedgerService.Ledger.Apply | app/db.py:21-38 | any request, carried out in place and committed, or aborted after its calls, leaves the tables and gives the answer of a step of a run |
| PolicyVersions.VersionCounts | app/routers/admin.py:539-560 | after any run a store has risen by one version per accepted publication, and its policy is the last one accepted |
| PolicyVersions.VersionPublishedOnce | app/routers/admin.py:546-549 | in any run a later accepted publication names a higher version, so of two that name the same version at most one is accepted |
| PassSchedule.StampsSound | wifi/services.py:61-186 | in every reachable state an action stamped with its pass's current version carries the deadline of the current expiry, and no two actions are the same job |
| PassSchedule.ActionsRunOnTime | wifi/workers.py:11-60 | whatever the run, an action that is carried out runs no earlier than its deadline for the pass as it is now: no scheduled revocation precedes the expiry, no notice comes more than ten minutes before it |
| PassSchedule.NoticeInTimeIff | wifi/workers.py:43-50 | a notice is sent within the last ten minutes if and only if the worker is less than ten minutes late |
| PassSchedule.NoticeCanComeLate | wifi/workers.py:43-50 | a concrete run in which the notice is sent after the expiry |
| PassSchedule.StaleActionsAreInert | wifi/workers.py:24-30 | once a pass has moved to a later version its earlier actions never again touch a pass or the outside world |
| PassSchedule.JobsRunOnce | wifi/workers.py:20-60 | however often actions are executed, each kind of action of each version of a pass is completed at most once in a run |
| PassSchedule.EndScheduledIff | api/extended_views.py:730-749 | after any run a pass has a scheduled end if and only if the last step that set its version was an order |
| PassSchedule.SessionsAccounted | api/extended_views.py:736-739 | over any run, transactions that fail after their call included, a pass takes at most one session and every opening and revocation is accounted for; at most one was opened, and it was revoked once or is held, if and only if no aborted transaction opened one and the pass was blocked while holding it as often as an aborted transaction had revoked it |
| PassSchedule.FirstOpenFinds | wifi/services.py:63-78 | the lookup finds a pass whenever the owner has one that is not closed |
| ScheduleEffects.OrderEffect | wifi/services.py:60-186 | an order is accepted if and only if a policy is published; it prolongs the owner's first usable pass by the highest additional tier it reaches, or issues one for the base and the highest first tier; quiet hours of that local date extend what was paid for and never cut it; exactly the jobs of the new version are added |
| ScheduleEffects.LastsOnce | wifi/services.py:126-136 | the time paid for and the quiet hours determine one expiry, which is never before the time paid for |
| ScheduleEffects.ActivateEffect | wifi/services.py:189-218 | an activation takes the session opened for an unused pass with time left; otherwise nothing remains of it |
| ScheduleEffects.DayPassEffect | wifi/services.py:221-233 | a day pass sets the expiry to the close of the business day |
| ScheduleEffects.ExtendEffect | api/extended_views.py:730-801 | both views add minutes to what is left, and only the dedicated one brings an expired pass back |
| ScheduleEffects.BlockEffect | api/extended_views.py:736-749 | blocking drops the session without a call, and unblocking needs time left |
| ScheduleEffects.ExpireEffect | api/extended_views.py:840-860 | the view expires any pass that is not over and the loop any in use that ran out, revoking what it holds and announcing it |
| ScheduleEffects.ExecuteIff | wifi/workers.py:11-33 | in every sound state an action is completed, skipped as stale, too early or done already exactly by its version, its deadline and its completion |
| ScheduleEffects.CompletedEffect | wifi/workers.py:29-60 | in every reachable state a completed expiry action makes exactly its pass expired and announces it once unless the pass was over, a notice tells the pass's expiry and changes none, and a revocation asks for the session held and drops it |
| ScheduleEffects.ClosedIff | wifi/workers.py:29-36 | after any run a pass is closed if and only if it was blocked and not unblocked since; no worker ever closes one |
| ScheduleAccount.ExpiryAccounted | wifi/services.py:60-186 | after any run a pass expires no earlier than issue time plus minutes bought and added and what day passes moved it by, and exactly then if and only if nothing found it run out and quiet hours added nothing |
| Batches.BatchStops | wifi/workers.py:111-118 | a batch carries out exactly what precedes the first revocation the controller refuses |
| Batches.BatchCompletesIff | wifi/workers.py:111-118 | a batch is carried out to its end, and is then the plain sequence of its actions, if and only if none of its actions asks for a revocation that is refused |
| Batches.BatchSettlesIff | wifi/workers.py:111-118 | a batch the limit did not cut leaves nothing due if and only if none of its actions asks for a revocation that is refused |
| Batches.NothingGetsBeyond | wifi/workers.py:111-118 | while the controller keeps refusing a revocation, through any batches and any other steps that do not move the two passes' versions or execute the two actions, it stays pending and no batch gets beyond it: a revocation with a later deadline stays pending, the controller is never asked to revoke a session of its pass, and the pass holds the same session unless it is blocked or activated |
| Batches.RefusalHoldsUpOthers | wifi/workers.py:111-118 | a run with two due revocations of which the first is refused: the second stays due and its pass keeps its session |
| Batches.ScheduledEndHappensIff | wifi/workers.py:51-60 | the session of a pass whose revocation is pending and due is revoked by its batch if and only if neither that revocation nor one before it in the batch is refused |
| ScheduleWorkers.Worker.IssueOrExtendPass | wifi/services.py:60-186 | issuing or extending, keeping through quiet hours and stamping actions, in place, equals the specification |
| ScheduleWorkers.Worker.ProcessDueActions | wifi/workers.py:111-118 | the loop executes the batch up to the first refused revocation, and raises exactly when there is one; an uncut batch raises exactly when it leaves something due |
| ScheduleWorkers.Worker.ExpireDuePasses | wifi/workers.py:92-108 | the loop raises exactly when an overdue pass of the list has its revocation refused; up to there it ends exactly the passes that are still overdue, revokes and announces each once in the order of the list, and counts them |
| EventFeed.OrderedMeaning | app/services/events.py:110-133 | the query's list is increasing by creation time then identifier and holds exactly the selected rows |
| EventFeed.PageHoldsIff | app/services/events.py:110-133 | an event is on a page if and only if it is after the cursor and fewer of the events in between than the clamped limit |
| EventFeed.PageIs | app/services/events.py:110-133 | a page holds, by creation time then identifier, the store's rows after a cursor of that store with fewer others before them than the limit clamped to one to five hundred |
| EventFeed.PagingIsExact | app/services/events.py:110-133 | reading page by page from the last identifier, with any limits and while events are published, yields in order and once each exactly the store's events up to the cursor, save those published behind it |
| EventFeed.PagingEnds | app/services/events.py:110-133 | every page brings what is left nearer to nothing, whatever the limit |
| EventFeed.Hub.Subscribe | app/services/events.py:39-43 | the store gains one new empty queue and no other store changes |
| EventFeed.Hub.Unsubscribe | app/services/events.py:46-53 | the store loses that queue and no other store changes |
| EventFeed.Hub.Broadcast | app/services/events.py:56-68 | uninterrupted, every queue of the store takes the payload, dropping its oldest when full, stays within a hundred, and other queues are untouched |
| EventQueue.UninterruptedIsPush | app/services/events.py:59-68 | the put, get and put of one broadcast, with nothing in between, are the push the subscribers are specified by |
| EventQueue.QueueIsFifo | app/services/events.py:56-68 | whatever threads broadcast and however their operations interleave, the queue holds at most a hundred and is the contiguous suffix of what entered it, the rest having been taken or dropped in order |
| EventQueue.NothingDisappears | app/services/events.py:56-68 | under any interleaving each payload whose broadcast began is under way, has entered, or was given up, and only one of these |
| EventQueue.RaisedIff | app/services/events.py:62-66 | the queue-full error escapes if and only if some second put finds the queue full again |
| EventQueue.RetryMeetsFullIff | app/services/events.py:62-66 | a second put finds the queue full if and only if, since the thread's get, more payloads entered than were dropped or read by exactly what the get left free; after a get from a full queue, if they were more at all |
| EventQueue.RaisedIffOutrun | app/services/events.py:62-66 | over any interleaving the error escapes if and only if some thread was outrun in that way between its get and its second put |
| EventQueue.LostIff | app/services/events.py:62-68 | a payload is given up if and only if some get finds the queue empty or some second put finds it full |
| EventQueue.NothingMissingIff | app/services/events.py:56-68 | once no broadcast is under way, nothing was dropped or given up if and only if every put found room, and then the reader has all that does not wait, in order |
| EventQueue.SerialQueueIsSuffix | app/services/events.py:56-68 | when broadcasts do not overlap, however the reader interleaves, the error never escapes and the queue is the contiguous suffix of the payloads in broadcast order |
| EventQueue.SerialLostIff | app/services/events.py:62-68 | then a payload is given up if and only if the reader takes a hundred between a failed put and its get |
| EventQueue.OneThreadIsSerial | app/services/events.py:56-68 | a single broadcasting thread never overlaps with itself |
| EventQueue.TwoBroadcastersCanRaise | app/services/events.py:62-68 | a run of two threads in which the queue-full error escapes |
| EventQueue.SecondCanOvertake | app/services/events.py:62-68 | a run of two threads in which the later broadcast enters the queue first |
| EventQueue.DrainedQueueLosesNewest | app/services/events.py:62-68 | a run of one thread in which the reader empties the queue before the get and the newest payload is given up |
| EventStream.StreamEvents | app/services/events.py:145-188 | the frames are the history followed by every polled payload not seen before |
| EventStream.StreamEmitsOnce | app/services/events.py:145-188 | no identifier is emitted twice, every polled payload is among the frames, and nothing else is added |
| EventStream.TakenIff | app/services/events.py:166-178 | the reader took exactly the payloads whose broadcast ended, that were neither given up nor dropped, and that do not wait |
| EventStream.StreamShowsIff | app/services/events.py:145-188 | through any run of commits, query, subscription, broadcasts and reads, a stream shows an event once, and shows it if and only if it was on the history page or was delivered by the queue |
| EventStream.OnlyLaterOnesMissed | app/services/events.py:110-152 | when the page was not cut by its limit, an event committed before the query is never missed |
| EventStream.StreamKeepsOrder | app/services/events.py:152-188 | live frames are a subsequence of what entered the queue, and of the broadcast order when broadcasts do not overlap |
| Reconnect.NeverSeenIff | app/services/events.py:110-188 | through any connections, with any page limits, a client that reconnects with its last identifier never sees an event if and only if each connection that subscribed found it not committed, not after the cursor or behind a full page, and its queue did not deliver it |
| Reconnect.SeenOnceIff | app/services/events.py:110-188 | the client is shown no event twice if and only if each connection passes over, in that sense, everything the ones before it showed |
| Reconnect.BehindLiveNeverSeen | app/routers/admin.py:438-466 | whatever the table and the limit, an event off the first page is never shown once a live event that stands after it became the last identifier |
| Reconnect.LateCommitNeverSeen | app/services/events.py:110-188 | so any event created before the live one that was broadcast before the subscription and committed after the query is never shown |
| Reconnect.LongBacklogNeverSeen | app/routers/admin.py:450-454 | a run over 101 committed events with the endpoint's limit of a hundred in which the last of them is never shown |
| Reconnect.AbortedEventStartsOver | app/services/events.py:121-132 | a client that was shown a live event whose request never commits, and reconnects with it, is shown its whole first page again |
| OtpWindow.Challenges.SendOtp | app/routers/public.py:210-244 | a code is created if and only if the window has room and delivery works; otherwise nothing is stored |
| OtpWindow.Challenges.Purge | app/services/privacy.py:24-29 | the purge removes exactly the challenges older than the retention |
| OtpWindow.SendsIff | app/routers/public.py:210-219 | a code is sent if and only if it is delivered and fewer than the allowed number of the order's challenges lie in the window |
| OtpWindow.PurgeKeepsIff | app/services/privacy.py:24-29 | a challenge survives a purge, as often as it is stored, if and only if it is not older than the cutoff |
| OtpWindow.SendsAreSpaced | app/routers/public.py:210-219 | in any run with purges, the (i+K)th challenge of an order is created strictly more than a window after the ith |
| OtpWindow.SpacingIff | app/routers/public.py:210-219 | that limit holds over all runs if and only if challenges are kept for at least the window |
| Sales.BucketHolds | app/services/analytics.py:27-29 | an instant lies in its bucket's hour, which begins on a whole hour of the store's clock |
| Sales.SelectionSuffices | app/services/analytics.py:33-39 | leaving unselected orders out changes nothing of a summary |
| Sales.FilterLosesNothing | app/services/analytics.py:33-58 | leaving fully refunded orders out and cutting at zero changes no total of sound orders |
| Sales.HourlyRows.SalesSummary | app/services/analytics.py:32-105 | in whatever order the orders come, the buckets are the true per-hour counts and sums, the day's totals are their sums, and the rows of just those hours are overwritten |
| Sales.DayAddsUp | app/services/analytics.py:52-85 | in every reachable state the day's total sales are the sum of its hours and of all its customers' balances |
| Sales.HoursShown | app/services/analytics.py:52-75 | a summary shows an hour if and only if some order in it is not fully refunded |
| Sales.RowIsLastSeen | app/services/analytics.py:86-105 | after any series of summaries of a store, of whichever days, a row holds what the last summary that saw orders in its hour found there |
| Sales.StoredRowTrueIff | app/services/analytics.py:86-105 | the row is what the last summary found for its own day if and only if it found an order not fully refunded there or no earlier summary of any day did |
| Counterexamples.RowOutlivesRefund | app/services/analytics.py:86-105 | a run of an order, a summary, its refund and a summary after which the stored row still shows the sale |
| Sales.DaysShareNoRowIff | app/services/analytics.py:27-29 | two business days of a store never share an hourly row if and only if the cutoff is a whole hour |
| TimeSale.QuietBucketIsFirstMinimum | app/services/recommendations.py:148-154 | the quiet hour is the first with the fewest orders, ties by sales |
| TimeSale.FallbackWindow | app/services/recommendations.py:157-173 | the step-by-step computation gives the specified start and a two-hour window |
| TimeSale.FallbackStartMeaning | app/services/recommendations.py:157-173 | the fallback starts strictly in the future on a whole UTC hour, in the quiet hour today or tomorrow whenever that is ahead |
| TimeSale.LocalHourKeptIff | app/services/recommendations.py:170-191 | cutting the start to a whole UTC hour keeps its local hour if and only if the zone is whole hours from UTC |
| TimeSale.SafeIffPasses | app/services/recommendations.py:336-380 | the sales the validator passes unchanged are exactly those that meet the stated limits |
| TimeSale.ValidatedIsSafe | app/services/recommendations.py:336-380 | whatever the validator returns meets the limits, says what the payload said, and passes again unchanged |
| TimeSale.StripMeans | app/services/recommendations.py:341-343 | stripping a title removes the white space at both ends and nothing else |
| TimeSale.UsedIff | app/services/recommendations.py:336-426 | a payload is used, with its title stripped, if and only if nothing is missing and what it says is safe; otherwise the rule's sale takes its place |
| TimeSale.FallbackSays | app/services/recommendations.py:176-207 | the rule offers fifteen per cent or the cap, on the first menu of the catalog alone, for two hours, and names the local hour it starts in |
| TimeSale.FallbackSafeIff | app/services/recommendations.py:176-207 | the unvalidated fallback meets the limits if and only if the cap is non-negative, two hours are allowed and the title fits |
| TimeSale.EveryOutcomeSafeIff | app/services/recommendations.py:397-426 | every provider outcome, an exception or any payload, becomes a sale within the limits if and only if the fallback is one |

## Left out

- HTTP routing, schemas beyond the bounds a request must meet, authentication, claims, cookies, audit rows and published events of the ledger: plumbing around the modelled transactions.
- Rows that only record what happened: order items, order claims, policy snapshots, pass extensions and breakdowns, remaining seconds in responses.
- External providers: a call to the network controller or a message provider returns a value or fails. A request, and in the Django passes any step, may also fail after a call that took effect; a Django batch or loop stopped that way is one refused at that action, followed by the action as an aborted step.
- Transactions are serial; races between transactions and recovery from a uniqueness error at commit appear only as a refused request.
- Request hashes are taken to be injective, so records keep the request itself.
- Identifiers: the database picks fresh ones; here a run may propose a used one and is refused.
- Rows other than passes are values in table maps, so aliasing between rows is captured for passes only; grants, orders and due passes are visited in an arbitrary order where the query gives none.
- Ties in the creation time of immediate rewards: the model takes the order of insertion.
- Tier edits during a run: raising a threshold would break the coverage of grants and coupons, so tiers are fixed.
- The statuses for activating, expiring-soon and failed passes are handled where the code tests them, but no modelled FastAPI step produces them.
- Daylight-saving zones: a store has a fixed distance from UTC.
- BusinessDay.BusinessDatePartition: for zones with a fixed distance from UTC; when the distance changes, a cutoff can fall into a gap or occur twice.
- BusinessDay.CloseOpensNextDay: for zones with a fixed distance from UTC, for the same reason.
- OrderCut.BothMove: for requests that keep clear of the order, as its row says; the others can take effect in one ledger only.
- OrderCut.OneSideMoves: for an order placed under its own keys and number after its account got a pass; an order that issues the pass moves more.
- Reconnect.NeverSeenIff: a connection that breaks off while its page is sent is taken as one with a smaller limit.
- RefundUndone.RunsInLockstep: one way, under the conditions of the next line.
- RefundUndone.FullRefundRestoresExpiry: one way, under conditions on the requests of the run (the order's keys are not shared, no reward is spent on the order, nobody closes its pass by hand, the controller answers); without them the runs take different branches, but may still end alike.
- EventFeed.Hub.Broadcast: as a method it runs uninterrupted; its interleavings are the subject of `EventQueue`.
- EventStream.StreamShowsIff: leaves out Redis fan-out, heartbeats and the stream's deadline.
- OtpWindow.SendsAreSpaced: is about sending only; confirming a code is not modelled.
- Sales.DayAddsUp: top items, repeat customers and active Wi-Fi minutes of the summary are not modelled, since each is one filter.
- TimeSale.EveryOutcomeSafeIff: reasons, evidence and confidence of a suggestion, and the reuse of a pending suggestion, are not modelled.
- The Django order and reward ledger, which repeats the FastAPI one without taking minutes back.
- Inventory scores, menu trends, text summaries, team management and the other purges: their properties follow from one branch or one filter.
- A few payload types that fail late in the Python code (an unhashable menu id, a malformed phone number) are not distinguished from other invalid values.
