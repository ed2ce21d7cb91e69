# Agahiram: verified models of the marketplace core

A Dafny model of the parts of Agahiram where a mistake costs money, loses data or strands a user: the
wallet and payment protocol, ad billing and serving, the reels feed, the category graph, search alerts,
video calls, media URLs, story stickers and archive, and shop trust. `dafny verify dfyconfig.toml`
checks all of it.

## What is modelled

**Wallet, payments, payouts, ads** (`Wallet`, `WalletSafety`, `WalletTheorems`, `WalletRules`, `PaymentsService`,
`RejectedPayouts`, `PaidPayouts`, `AdBilling`, `AdCampaigns`, `CampaignTheorems`, `PausedCampaigns`). Every Prisma
call or `$transaction` of `payments.service.ts`, and of the wallet methods of `admin.service.ts`, is one atomic
step; a request is a frame that remembers where it stands between two steps. `Wallet.Next` performs one step of
one request, and a run is any sequence of such steps, so replayed callbacks, racing payouts, refunds, admin
adjustments, campaign edits and ad charges interleave freely. The invariant keeps a term for money that a payout
has taken and not yet settled and one for top-ups claimed and not yet credited. `PaymentsService` is the
service as a class: its methods go through the same steps with other requests running in every gap, and
each is proved to be a run of the machine.

**Ad serving** (`AdServing`): filter, frequency counters, stable ranking, cut. **Reels** (`ReelFeed`,
`ReelWalk`): the batched page loop against "flatten, drop up to the cursor, take the limit", and the walk
along `nextCursor`. **Categories** (`Categories`): the depth-first search and the tree builder on any
table, cycles included. **Search alerts** (`SearchAlerts`): the cursor-batched loop against one filter.
**Calls** (`Calls`): handlers, webhooks and ring timeouts as steps on calls, timers and chat, and once more with
creation in two steps.
**Media URLs** (`Text`, `MediaUrl`): percent-encoding (section 2.1 of RFC 3986) over UTF-8 (RFC 3629), keys printed
and read back.
**Stories** (`StickerVotes`, `StoryArchive`) and **shop trust** (`ShopTrust`): runs of whole handlers, and again
with checks and writes apart. `Optional`, `Sums`, `Sorting` and `JsonValues` are shared helpers.

Beside its theorems each module says what its steps and checks compute in terms of columns and amounts, apart
from the functions that compute it: `AdBilling.ChargeIsConfined`, `Calls.CreateAnswersExactly` and the like.

## Where the code does not do what one would expect

For each of these there is a lemma at a concrete input or run where the property fails, and an
if-and-only-if that says for all inputs when it holds.

- Two payouts of one user can be open at once, because the count of open payouts and the write are two
  round trips (`WalletTheorems.TwoPayoutsCanBeOpen`, `OneOpenPayoutExactly`).
- A rejected payout never gives the money back (`RejectedPayouts.RejectedMoneyStaysOut`,
  `RejectionKeepsTheMoneyExactly`). `packages/database/prisma/schema.prisma:1189-1191` says the balance is
  debited when an admin approves; the code debits it when the payout is created, and no admin action credits
  it. The model follows the code.
- A payout that an admin marks paid before its balance check is deleted when that check fails, and the money
  comes back (`PaidPayouts.PaidRowIsDeleted`, `PaidRowsStayExactly`).
- A charge that a limit refuses pauses the campaign with all its approved ads. From then on its owner cannot
  activate it, whatever is topped up or raised, until an ad is newly approved
  (`PausedCampaigns.ActivationWaitsForApproval`, `StuckUntilApprovalExactly`).
- A budget edit can leave a campaign over budget when charges land between its check and its write
  (`CampaignTheorems.BudgetCanBeUndercut`, `BudgetHoldsExactly`).
- An ad that was clicked before its review can be deleted by its owner, and the campaign's ads then no longer
  add up to its spend (`CampaignTheorems.DeletedAdLosesItsSpend`, `AdCampaigns.DeletingAdKeepsLedgersExactly`).
- An empty session id is never frequency capped (`AdServing.KeylessNeverCapped`, `CapHoldsExactly`).
- Two users who call each other at once end up in two live calls each, if the handlers interleave
  (`Calls.CrossedCallsBreakExclusion`, `ExclusionHoldsExactly`).
- Votes on a poll without an options list are stored and never counted
  (`StickerVotes.VoteWithoutOptionsIsLost`, `TotalIsVotersExactly`).
- A story with stickers and no overlay comes back from the archive with an overlay
  (`StoryArchive.BareStoryGainsLayers`, `ExtractUndoesEmbedExactly`).
- Two overlapping requests to highlight one story leave it with two archive rows, because looking for the row and
  creating it are two round trips (`StoryArchive.OverlappingHighlightsLeaveTwoRows`, `OneEachHoldsExactly`).
- Highlighting or removing a close-friends story archives it for everyone
  (`StoryArchive.HighlightWidensTheAudience`, `SourcesAreRightExactly`).
- Two approvals of one verification request at once count it twice, and a grant on a stale score sets a tier
  back (`ShopTrust.DoubleApprovalCountsTwice`, `ScoreMatchesExactly`, `StaleGrantSetsTierBack`,
  `TiersMatchExactly`).
- A rejected verification request can be approved beside its successor, so that one kind counts twice although
  no two handlers overlap (`ShopTrust.RejectedRequestCountsBeside`, `OneStandingExactly`).

Three conditions in the theorems are met by the rest of the system. A cursor of the reels feed needs post ids
without a colon (`ReelFeed.ParseUndoesBuild`, `ReelWalk.ColonInPostIdRestarts`), and post ids are UUIDs. An
overlay must not use the field `_stickers` (`StoryArchive.ExtractUndoesEmbedExactly`), and the schema that
overlays are parsed with drops unknown fields. A media key must not hold escapes or look like a proxy URL
(`MediaUrl.ServedRoundTripExactly`, `EscapedKeyIsLost`, `LookalikeIsLost`), and the keys of uploads are a folder,
a user id and a UUID with a safe extension.

## Model

| member | source | states |
|---|---|---|
| WalletTheorems.NeverOverdrawn | apps/api/src/payments/payments.service.ts:164-209 | in every interleaving a balance plus the amounts of that user's payouts still awaiting their balance check is never negative |
| WalletTheorems.SettledBalanceIsCovered | apps/api/src/payments/payments.service.ts:182-197 | with none of that user's payouts in flight the balance is not negative |
| WalletTheorems.BalanceIsExplained | apps/api/src/payments/payments.service.ts:117-197 | at every reachable state a balance is opening balance, plus top-ups in status success, minus those claimed but not yet credited, plus admin adjustments, minus all payout rows, minus ad payments |
| WalletTheorems.SpendingIsCovered | apps/api/src/admin/admin.service.ts:539-577 | with no payout in flight, withdrawals plus ad spend never exceed what was paid in |
| WalletTheorems.BalanceCanDip | apps/api/src/payments/payments.service.ts:173-197 | the in-flight term is needed: one payout drives a concrete balance to -40 000 before it is restored |
| WalletTheorems.EffectRunsOnce | apps/api/src/payments/payments.service.ts:83-151 | for any number of concurrent and replayed callbacks the effect of a payment runs at most once, and when no request owes it, exactly once if and only if the status is success or refunded |
| WalletTheorems.StatusMovesForward | apps/api/src/payments/payments.service.ts:77-132 | one step moves a payment only pending to failed, pending to success, or success to refunded, and never changes its user, amount or purpose |
| WalletTheorems.StatusNeverReturns | apps/api/src/admin/admin.service.ts:929-969 | over every run a status only moves forward along those edges |
| WalletTheorems.ResumeLowersRank | apps/api/src/payments/payments.service.ts:70-209 | every step brings its request strictly closer to its reply and touches no other request |
| WalletTheorems.FourSteps | apps/api/src/payments/payments.service.ts:70-209 | four more steps finish any request from any point |
| WalletTheorems.RankFalls | apps/api/src/payments/payments.service.ts:70-209 | over any resumptions a request comes one step nearer to its reply for each of its own, until it is done |
| WalletTheorems.EveryRunRecovers | apps/api/src/payments/payments.service.ts:164-209 | after any run, any continuation that resumes each open request four times, in any order and each time with its own gateway answer and clock, leaves all requests done, no balance negative, and each payment's effect applied exactly if it is paid |
| WalletTheorems.StepOpensSecond | apps/api/src/payments/payments.service.ts:168-182 | one step breaks "one open payout per user" exactly if it opens a row while another of that user is open at that moment |
| WalletTheorems.OneOpenPayoutExactly | apps/api/src/payments/payments.service.ts:168-182 | over a run the promise holds throughout if and only if the guard read before each opening write still holds at the write |
| WalletTheorems.TwoPayoutsCanBeOpen | apps/api/src/payments/payments.service.ts:168-182 | a run exists after which one user has two open payouts |
| WalletSafety.ResumeKeepsInv | apps/api/src/payments/payments.service.ts:70-209 | every continuation of every request keeps the inductive invariant (rows, once-only effects, accounting) |
| WalletSafety.NextKeepsInv | apps/api/src/admin/admin.service.ts:539-577 | every event of the machine, arrivals and admin actions included, keeps the invariant |
| WalletSafety.ExecKeepsInv | apps/api/src/payments/payments.service.ts:26-209 | every run keeps the invariant |
| WalletSafety.PayoutStatusKeepsInv | apps/api/src/admin/admin.service.ts:1435-1465 | approving, rejecting and marking paid keep the invariant and move no balance |
| WalletSafety.AdjustKeepsInv | apps/api/src/admin/admin.service.ts:539-577 | a guarded admin credit or debit keeps the invariant |
| WalletSafety.AdsKeepInv | apps/api/src/ads/billing.service.ts:102-189 | ad charges and campaign actions keep the wallet invariant |
| Wallet.ExecConcat | apps/api/src/payments/payments.service.ts:26-209 | running one sequence of events after another is running both, so runs of single requests compose |
| PaymentsService.PaymentsService.Verify | apps/api/src/payments/payments.service.ts:70-154 | with any other requests in every gap, a callback is a run of the machine and keeps the invariant; it answers not found exactly when no payment has that authority; on a pending payment it answers cancelled exactly if the status was not OK, refused exactly if it was and the gateway does not confirm; it answers done only when the effect has run exactly once and then the post or the account is open until the right time; already processed with a success flag that is true exactly if the payment is in status success; and no answer leaves it pending |
| PaymentsService.PaymentsService.CreatePayout | apps/api/src/payments/payments.service.ts:164-209 | with any other requests in every gap, a payout is a run of the machine and keeps the invariant; it is turned away as under review exactly if a payout of the user is open when it counts; if granted its row is in the table and the balance is not negative, if refused for funds no row is left |
| PaymentsService.PaymentsService.MarkRefunded | apps/api/src/admin/admin.service.ts:929-969 | a refund is a run of the machine and keeps the invariant; every reply fixes what it did to the payments and balances its transaction found: a top-up is taken back in full if the balance covers it, anything else refunds without touching the wallet, and every refusal changes no payment and no balance |
| PaymentsService.PaymentsService.RefundTransaction | apps/api/src/admin/admin.service.ts:943-965 | both guarded writes or neither, after the gap |
| PaymentsService.RefundMoney | apps/api/src/admin/admin.service.ts:943-965 | what the transaction replies and writes, by the payment it finds |
| PaymentsService.PaymentsService.FindByAuthority | apps/api/src/payments/payments.service.ts:71-75 | finds the first payment with the authority, or the table's length exactly if there is none |
| PaymentsService.PaymentsService.ReservePayout | apps/api/src/payments/payments.service.ts:173-182 | decrements the balance and creates the payout row in one transaction |
| PaymentsService.PaymentsService.CheckPayout | apps/api/src/payments/payments.service.ts:184-188 | reads the balance after the decrement and settles or goes on to restore |
| PaymentsService.PaymentsService.RestorePayout | apps/api/src/payments/payments.service.ts:188-197 | gives the amount back and deletes the payout row in one transaction |
| PaymentsService.RestoreUndoesReserve | apps/api/src/payments/payments.service.ts:173-197 | a payout above the balance, reserved and restored, leaves every balance and every payout as it was |
| PaymentsService.UndisturbedPayoutGranted | apps/api/src/payments/payments.service.ts:164-209 | alone, a covered payout is granted and takes exactly its amount |
| PaymentsService.UndisturbedPayoutRefused | apps/api/src/payments/payments.service.ts:164-209 | alone, a payout above the balance is refused and changes no balance |
| PaymentsService.AppliedExactlyOnce | apps/api/src/payments/payments.service.ts:134-151 | a payment whose effect was just applied had it applied exactly once and is paid |
| PaymentsService.UndisturbedCallbackPays | apps/api/src/payments/payments.service.ts:114-153 | alone, with status OK and the gateway's confirmation, the payment succeeds with the gateway's reference and has exactly the effect it was for: a boost promotes its post for the plan's hours, an account is business for thirty days, a top-up adds its amount to its user's wallet |
| PaymentsService.UndisturbedCallbackFails | apps/api/src/payments/payments.service.ts:96-112 | alone, with another status than OK or without the gateway's confirmation, the payment fails and no balance, promotion or account moves |
| WalletRules.InitiateExactly | apps/api/src/payments/payments.service.ts:26-68 | a payment is created exactly for a known user with a boost plan and an own post, a top-up of at least 10 000, or a business account; it is pending, at the plan's price, the asked amount or 300 000 |
| WalletRules.ReplayChangesNothing | apps/api/src/payments/payments.service.ts:83-94 | a callback on a payment that is no longer pending is answered from its status and changes nothing |
| WalletRules.AdjustExactly | apps/api/src/admin/admin.service.ts:539-577 | a credit or debit of at least one moves exactly that and leaves its audit row; a debit above the balance, or any other adjustment, changes nothing |
| WalletRules.OpenPayoutExactly | apps/api/src/payments/payments.service.ts:168-171 | what counts as open: a payout of the user that is pending or approved |
| WalletRules.PayoutIsTurnedAway | apps/api/src/payments/payments.service.ts:164-171 | alone, a payout of nothing is refused at once and one beside an open payout after its count, and neither changes anything |
| WalletRules.DecidePayoutExactly | apps/api/src/admin/admin.service.ts:1449-1465 | rejecting and marking paid set the status of the named row, whatever it was, and nothing else |
| WalletRules.UndisturbedApproval | apps/api/src/admin/admin.service.ts:1435-1447 | alone, an approval approves exactly a pending payout, and is refused for any other |
| WalletRules.ApprovalOfGoneRow | apps/api/src/admin/admin.service.ts:1435-1447 | an approval whose row was deleted after it was read changes nothing |
| RejectedPayouts.RejectionKeepsTheMoneyExactly | apps/api/src/admin/admin.service.ts:1449-1456 | over every run a balance equals the ledger with rejected payouts left out if and only if no payout of that user is rejected, and otherwise falls short of it by their sum |
| RejectedPayouts.PayoutsArePositive | apps/api/src/payments/payments.service.ts:164-209 | in every reachable state every payout row has a positive amount |
| RejectedPayouts.RejectedMoneyStaysOut | apps/api/src/admin/admin.service.ts:1449-1456 | a concrete payout of 60 000 out of 100 000 is made and then rejected, and the balance stays at 40 000 |
| PaidPayouts.PaidRowsStayExactly | apps/api/src/payments/payments.service.ts:188-197 | along every run each payout row that was ever marked paid is still there if and only if no compensating transaction is for such a row |
| PaidPayouts.OnlyRestoringRemoves | apps/api/src/payments/payments.service.ts:188-197 | a payout row goes with the compensating transaction that names it and with no other event, and never comes back |
| PaidPayouts.PaidRowIsDeleted | apps/api/src/admin/admin.service.ts:1458-1465 | a concrete payout above the balance is marked paid before its balance check, and then loses its row while the money comes back |
| AdBilling.CpmRounding | apps/api/src/ads/billing.service.ts:14-16 | rounding the cost of an impression down leaves less than 1000 bid units per impression unbilled, over any number of impressions |
| AdBilling.ChargeKeepsSound | apps/api/src/ads/billing.service.ts:102-189 | a charge attempt keeps all four ledgers of every campaign equal and every payment at its unit price |
| AdBilling.ChargeStaysWithinLimits | apps/api/src/ads/billing.service.ts:102-189 | a charge happens if and only if wallet, budget and any non-zero daily limit can carry it; then exactly one unit cost moves and the limits still hold, otherwise no money moves |
| AdBilling.ChargeConservesWallet | apps/api/src/ads/billing.service.ts:150-179 | what leaves a wallet is what that user's ads were charged |
| AdBilling.SpendIsCostTimesCount | apps/api/src/ads/billing.service.ts:14-20 | a campaign's spend is its unit cost times the number of its payments |
| AdBilling.PausedKeepsAmounts | apps/api/src/ads/billing.service.ts:49-64 | pausing a campaign moves no amount and keeps the ledgers |
| AdBilling.DebitedKeepsLedgers | apps/api/src/ads/billing.service.ts:150-179 | a debit moves the four ledgers of its campaign together and no others |
| AdBilling.SpentTodayAfterUpsert | apps/api/src/ads/billing.service.ts:165-169 | the daily row's upsert adds the cost to that day and keeps one row per campaign and day |
| AdBilling.BillingService.PauseCampaign | apps/api/src/ads/billing.service.ts:49-64 | pauses the campaign with its reason, and with it exactly its own approved ads |
| AdBilling.BillingService.Debit | apps/api/src/ads/billing.service.ts:102-189 | stops at the first limit that the cost exceeds, named by the amounts, and pauses this campaign and its approved ads only; otherwise writes one payment and adds the cost to this ad and this campaign only |
| AdBilling.BillingService.ChargeForImpression | apps/api/src/ads/billing.service.ts:66-82 | performs one impression charge and reports its cost exactly if it charged |
| AdBilling.BillingService.ChargeForClick | apps/api/src/ads/billing.service.ts:84-100 | performs one click charge and reports its cost exactly if it charged |
| AdBilling.ChargeIsConfined | apps/api/src/ads/billing.service.ts:66-189 | a charge attempt changes no row of another campaign and no other wallet; if it charges, one payment, one ad and one campaign move by the cost; if a limit refuses it, the campaign is paused for that limit and exactly its approved ads with it; an event the campaign does not pay for changes nothing |
| AdBilling.UnitCostExactly | apps/api/src/ads/billing.service.ts:14-20 | an impression costs a thousandth of the bid, rounded down, and a click the whole bid |
| AdBilling.UpsertKeepsOthers | apps/api/src/ads/billing.service.ts:165-169 | the daily upsert leaves the rows of other campaigns and days alone and adds a row only if there is none |
| AdCampaigns.ActKeepsSound | apps/api/src/ads/ads.service.ts:132-163 | every campaign action keeps the ledgers equal |
| AdCampaigns.ActKeepsTerms | apps/api/src/ads/ads.service.ts:275-286 | no action changes a campaign's owner or unit price, lowers its spend, or raises it above the budget in force |
| AdCampaigns.OthersAreUntouched | apps/api/src/ads/ads.service.ts:275-286 | an action leaves every campaign it is not about, and all ads of that campaign, as they are |
| AdCampaigns.AdActionsExactly | apps/api/src/ads/ads.service.ts:444-470 | a review decides exactly a pending ad, resubmission reopens exactly a rejected one, an admin sets any status; each touches one ad |
| AdCampaigns.CreationsExactly | apps/api/src/ads/ads.service.ts:399-422 | which campaigns and ads are created, and that they start as drafts and unreviewed with nothing spent |
| AdCampaigns.CheckExactly | apps/api/src/ads/ads.service.ts:191-224 | an edit passes its checks exactly if it is the owner's, its amounts are valid, it activates only with money and an approved ad, and its budget is not below the spend |
| AdCampaigns.WriteExactly | apps/api/src/ads/ads.service.ts:132-163 | the write sets what is given and keeps the rest; pausing by hand says so and activating clears the reason |
| AdCampaigns.ActConservesWallet | apps/api/src/ads/ads.service.ts:275-286 | for every action, wallet plus ad spend of a user is unchanged, and a wallet that moved is not negative |
| AdCampaigns.BudgetHoldsUnlessUndercut | apps/api/src/ads/ads.service.ts:215-224 | an action leaves spend within budget if and only if it is not an edit whose write undercuts what was spent since its check |
| AdCampaigns.PromptWriteIsSafe | apps/api/src/ads/ads.service.ts:275-286 | an edit written straight after its check keeps spend within budget |
| AdCampaigns.DeletingAdKeepsLedgersExactly | apps/api/src/ads/ads.service.ts:380-390 | deleting an ad keeps a campaign's ledgers equal if and only if nothing was charged to the ad |
| CampaignTheorems.CampaignLedgersAgree | apps/api/src/ads/billing.service.ts:150-179 | over every run `totalSpent`, ad payments, daily rows and ads' spend of a campaign are one number, unit cost times payments |
| CampaignTheorems.SpendBelowPeak | apps/api/src/ads/billing.service.ts:129-148 | over every run a campaign's spend never exceeds the largest budget it had |
| CampaignTheorems.ChargesBounded | apps/api/src/ads/billing.service.ts:129-179 | a campaign is charged at most largest budget divided by unit cost times |
| CampaignTheorems.BudgetHoldsExactly | apps/api/src/ads/ads.service.ts:215-224 | spend stays within the current budget throughout a run if and only if no late edit undercuts it |
| CampaignTheorems.BudgetCanBeUndercut | apps/api/src/ads/ads.service.ts:275-286 | a run of actions exists that leaves a campaign over budget |
| CampaignTheorems.DeletedAdLosesItsSpend | apps/api/src/ads/ads.service.ts:380-390 | an ad clicked before its review may be deleted, and the ads' ledger then disagrees |
| PausedCampaigns.ActivationWaitsForApproval | apps/api/src/ads/billing.service.ts:49-64 | after a charge that a limit refused, and any run of the whole system without a new approval of an ad of the campaign, every request of the owner to activate it is refused |
| PausedCampaigns.StuckUntilApprovalExactly | apps/api/src/ads/ads.service.ts:444-470 | along every run a campaign without an approved ad stays so if and only if no review approves a pending ad of it and no admin sets one to approved |
| PausedCampaigns.OnlyApprovalFreesExactly | apps/api/src/ads/ads.service.ts:444-470 | of all actions only an approval, in a review or by an admin's edit, gives such a campaign an approved ad again, and it always does |
| PausedCampaigns.RefusedChargeLeavesNone | apps/api/src/ads/billing.service.ts:49-64 | a charge that a limit refuses leaves the campaign paused and none of its ads approved |
| PausedCampaigns.ActivationAllowedExactly | apps/api/src/ads/ads.service.ts:191-213 | the owner's request to activate passes its checks if and only if the wallet covers one event and some ad is approved |
| AdServing.ServedAreTheBest | apps/api/src/ads/ads.service.ts:607-671 | the ads served compete for the request and are under the cap, by falling eCPM, then fewer impressions, then newest; a competing candidate that is left out found no room and is outranked by every one served |
| AdServing.CandidatesAreTheFreshest | apps/api/src/ads/ads.service.ts:617-643 | the query returns at most fifty ads on air, fewest impressions first and then newest; one it leaves out is no fresher than any of fifty it returns |
| AdServing.EcpmExactly | apps/api/src/ads/billing.service.ts:22-25 | a CPM ad is ranked by its bid, a CPC ad by a thousand times bid and click rate, or by twenty bids without a rate |
| AdServing.EligibleExactly | apps/api/src/ads/ads.service.ts:646-659 | an ad passes the loop's checks exactly if money is left, the targeting reaches the request and fewer than three counts stand for the session |
| AdServing.BumpExactly | apps/api/src/ads/ads.service.ts:599-605 | a counter starts at one and goes up by one |
| AdServing.OnAirExactly | apps/api/src/ads/ads.service.ts:617-628 | the query's filter column by column: approved, in the slot, inside both date ranges of an active campaign |
| AdServing.ConsideredCounts | apps/api/src/ads/ads.service.ts:599-605 | every considered ad of a keyed session moves its own counter by exactly one, served or not |
| AdServing.CountersOnlyGrow | apps/api/src/ads/ads.service.ts:599-605 | no counter falls in a call, and only counters of listed ads move |
| AdServing.ServedMovesCounter | apps/api/src/ads/ads.service.ts:607-671 | a served ad had room under the cap and its counter moved by one |
| AdServing.ServedWithinCount | apps/api/src/ads/ads.service.ts:599-671 | over every sequence of calls and expiries, the times an ad was served to a keyed session since the counter's last expiry are at most its counter and at most the cap |
| AdServing.CapHoldsExactly | apps/api/src/ads/ads.service.ts:599-605 | the cap holds over all sequences of calls if and only if the session key is not empty |
| AdServing.KeylessNeverCapped | apps/api/src/ads/ads.service.ts:599-605 | with an empty session id, any number of calls serves the same ad every time |
| AdServing.AdServer.IsFrequencyCapped | apps/api/src/ads/ads.service.ts:599-605 | moves one counter and compares it with the cap; an empty session is never capped and moves nothing |
| AdServing.AdServer.ServeAds | apps/api/src/ads/ads.service.ts:607-671 | every ad served is on air for the slot, has budget and wallet money, is reached by its city, category and exclusion lists and is under the cap; they come by falling eCPM, then impressions; no competing candidate left out outranks one served; counters move as specified |
| Sorting.SortIsStable | apps/api/src/ads/ads.service.ts:661-661 | the sort orders, keeps the elements and keeps the order of ties |
| Sorting.StableSortIsUnique | packages/shared/src/reel-feed.ts:23-27 | any sorted list with the same ties in the same order is that sort's result |
| Sorting.BestAreKept | apps/api/src/ads/ads.service.ts:661-663 | cutting a sorted list keeps the highest ranked and leaves nothing better out |
| Sorting.TiesKeepFirstOrder | apps/api/src/ads/ads.service.ts:642-661 | sorting a list that was already in one order keeps that order among ties of the second |
| ReelFeed.ParseUndoesBuild | packages/shared/src/reel-feed.ts:4-21 | parsing gives back both ids if and only if both are non-empty and the post id has no colon |
| ReelFeed.VideosAreTheStableOrder | packages/shared/src/reel-feed.ts:23-27 | a post's slides are its videos, ordered, ties as stored, and the only such list |
| ReelFeed.PendingFromCursor | apps/api/src/posts/posts.service.ts:606-676 | starting the loop at the cursor's row emits exactly the entries after the cursor, legacy cursors and vanished slides included |
| ReelFeed.CursorAdvances | apps/api/src/posts/posts.service.ts:637-691 | after a batch the id of its last post leads to exactly the posts after it |
| ReelFeed.EmitPost | apps/api/src/posts/posts.service.ts:657-687 | the slide loop appends what is pending of one post, or stops over-full with a prefix of it |
| ReelFeed.EmitBatch | apps/api/src/posts/posts.service.ts:656-689 | the post loop appends what is pending of a batch, or stops over-full with a prefix of it |
| ReelFeed.NextBatch | apps/api/src/posts/posts.service.ts:638-652 | fetches the next posts after the loop's cursor and says exactly whether more follow |
| ReelFeed.BuildReelFeedPage | apps/api/src/posts/posts.service.ts:600-703 | for every table, limit and cursor the loop ends with the next `limit` entries after the cursor, and `hasMore` exactly when more than `limit` remain; each entry names a shown post, one of its videos, their joint key and that video's duration |
| ReelFeed.FeedPointsAtVideos | packages/shared/src/reel-feed.ts:29-56 | every entry points at a video of a shown post with their two ids, key and duration, and every such video has an entry |
| ReelWalk.CursorResumesExactly | packages/shared/src/reel-feed.ts:4-56 | the key of any entry is a cursor to exactly the entries after it |
| ReelWalk.LegacyCursorSkipsOne | apps/api/src/posts/posts.service.ts:606-676 | a cursor that names a post only resumes after that post's first entry |
| ReelWalk.GoneSlideKeepsThePost | apps/api/src/posts/posts.service.ts:661-671 | a cursor whose slide is gone resumes at its post's first entry |
| ReelWalk.StrayCursorStartsOver | apps/api/src/posts/posts.service.ts:617-631 | a malformed cursor, or one of a post that is gone, starts the feed over |
| ReelWalk.FeedFollowsTheTable | apps/api/src/posts/posts.service.ts:637-689 | entries follow the order of the posts |
| ReelWalk.FeedKeysAreDistinct | packages/shared/src/reel-feed.ts:49-56 | no two entries of the feed share a key |
| ReelWalk.WalkPosition | apps/api/src/posts/posts.service.ts:600-703 | page k of a walk starts where k full pages end, and everything before it was received in order |
| ReelWalk.WalkVisitsEverySlideOnce | apps/api/src/posts/posts.service.ts:600-703 | following `nextCursor` receives the whole feed once, in order, in max(1, ceil(n/limit)) pages, of which only the last has no cursor |
| ReelWalk.ColonInPostIdRestarts | packages/shared/src/reel-feed.ts:8-21 | why the walk needs post ids without a colon: with one, the first page's cursor starts the feed over |
| Categories.GroupByParent | apps/api/src/categories/categories.service.ts:104-108 | the map built by the loop holds under each parent its rows in table order |
| Categories.DescendantSearch.Visit | apps/api/src/categories/categories.service.ts:109-117 | one visit adds only ids reachable from its start, leaves them closed under children, and keeps the list free of duplicates, on any table |
| Categories.GetDescendantIds | apps/api/src/categories/categories.service.ts:100-119 | returns without duplicates exactly the given id and every id reachable from it, cycles or not, and terminates |
| Categories.PathNeverRepeats | apps/api/src/categories/categories.service.ts:75-98 | with unique ids no path from the top repeats a category, which is why the recursion ends |
| Categories.PathIsUnique | apps/api/src/categories/categories.service.ts:75-98 | with unique ids a category hangs from the top by one path only |
| Categories.ForestHoldsRootedOnce | apps/api/src/categories/categories.service.ts:75-98 | the tree holds each category whose parent chain ends at the top exactly once, and no other |
| Categories.EveryNodeIsRight | apps/api/src/categories/categories.service.ts:75-119 | at every node the subtree's ids are exactly the ids reachable from it, and the children are in `order` |
| Categories.RootsAreInOrder | apps/api/src/categories/categories.service.ts:75-98 | the top-level categories are in `order` |
| Categories.BuildLevel | apps/api/src/categories/categories.service.ts:86-96 | the recursive builder over the grouped map makes the specified forest and terminates |
| Categories.GetTree | apps/api/src/categories/categories.service.ts:75-98 | returns the specified forest for every table with unique ids, cycles included |
| SearchAlerts.QueryMatchesAllWords | apps/api/src/search/post-search.helpers.ts:166-173 | a query matches if and only if every one of its words occurs in the text, for any text normalisation |
| SearchAlerts.WantsExactly | apps/api/src/search/search-alert.service.ts:130-190 | the checks of the loop come down to what the alert asks for: active, any city or the post's, and every filter that is set holds of the post's columns |
| SearchAlerts.LastValueExactly | apps/api/src/search/post-search.helpers.ts:175-182 | of several attributes with one key the last one counts |
| SearchAlerts.WordsExactly | apps/api/src/search/post-search.helpers.ts:166-173 | the words of a query are its maximal runs without white space |
| SearchAlerts.SpaceExactly | apps/api/src/search/post-search.helpers.ts:168-170 | what counts as white space, by code point |
| SearchAlerts.HaystackHoldsExactly | apps/api/src/search/search-alert.service.ts:133-145 | a word occurs in the searched text exactly if it occurs in the title, the description, one of the six names, or an attribute's key or value |
| SearchAlerts.SearchAlertService.Accepts | apps/api/src/search/search-alert.service.ts:158-190 | the filter chain accepts a candidate exactly if the alert asks for the post, field by field: words, category, province, neighbourhood, price type, both price limits, promotion, image, video and attributes |
| SearchAlerts.SearchAlertService.FitsCategory | apps/api/src/search/search-alert.service.ts:162-165 | the category closure holds the post's category exactly if it is the wanted one or below it |
| SearchAlerts.SearchAlertService.FitsPlainFilters | apps/api/src/search/search-alert.service.ts:166-183 | the chain accepts exactly if every filter that is set holds of the post's own column: the price is at least the lower and at most the upper limit, and so on |
| SearchAlerts.SearchAlertService.NotifyBatch | apps/api/src/search/search-alert.service.ts:158-207 | one batch adds a row and sends a notice for each wanted alert without a row |
| SearchAlerts.SearchAlertService.NotifyMatchingAlerts | apps/api/src/search/search-alert.service.ts:104-212 | for every batch size exactly the alerts that ask for the post and had no row have one now, and each of those got one notice, to its owner and with the post's title; nothing else is recorded or sent |
| SearchAlerts.SearchAlertService.ProcessAlertMatches | apps/api/src/search/search-alert.service.ts:76-102 | an approved post of type post is announced to exactly the alerts that ask for it; otherwise nothing changes |
| SearchAlerts.HitsAreCandidates | apps/api/src/search/search-alert.service.ts:150-158 | filtering the fetched candidates finds the same hits as one filter over the whole table |
| SearchAlerts.SecondPassSendsNothing | apps/api/src/search/search-alert.service.ts:192-199 | after a pass every wanted alert has its row and a second pass finds nothing to send |
| Calls.OneLiveCallPerUser | apps/api/src/calls/calls.service.ts:78-96 | over every run of handlers a user is in at most one ringing or active call |
| Calls.CalleeCanAccept | apps/api/src/calls/calls.service.ts:235-295 | in every reachable state the callee of a ringing call can accept it: the active-call check never turns them away |
| Calls.EveryCallIsSettled | apps/api/src/calls/calls.service.ts:297-520 | in every reachable state `endedAt` is set exactly when finished, the duration exactly when also answered and then rounded to the second, a timer pends exactly while ringing, and the chat holds one event exactly for a rejected, missed or ended-from-active call |
| Calls.FinishedForGood | apps/api/src/calls/calls.service.ts:297-520 | ended, rejected and missed are final: neither the row nor its chat events change in any future |
| Calls.RunMovesForward | apps/api/src/calls/calls.service.ts:235-520 | over every run a status never moves back |
| Calls.OnlyItsPartiesMoveIt | apps/api/src/calls/calls.service.ts:235-489 | a call's row changes only by its callee's accept or reject, its initiator's cancel, a participant's end, its room's webhook or its own timer |
| Calls.ClosingFreesBoth | apps/api/src/calls/calls.service.ts:88-96 | whatever closes a call leaves both parties free for the next |
| Calls.LiveCallsCanEnd | apps/api/src/calls/calls.service.ts:415-489 | no live call is stuck: its pending timer makes a ringing one missed, a participant leaving ends an active one |
| Calls.StepKeepsInv | apps/api/src/calls/calls.service.ts:165-520 | every handler, webhook and timeout keeps the invariant behind these theorems |
| Calls.CreateAnswersExactly | apps/api/src/calls/calls.service.ts:165-233 | a call rings exactly if the video service is up, the caller is in the conversation with someone else, neither is in a call and neither blocked the other; each refusal has its own reason; the new row and timer column by column |
| Calls.AcceptAnswersExactly | apps/api/src/calls/calls.service.ts:235-295 | who may accept when, the reason of each refusal, and the row that is left |
| Calls.RejectAndCancelAnswerExactly | apps/api/src/calls/calls.service.ts:297-331 | the callee rejects and the caller cancels, only while it rings; the row's end, reason and ender, and the one message of a rejection |
| Calls.EndAnswersExactly | apps/api/src/calls/calls.service.ts:333-355 | a participant ends a live call, and the chat hears of it exactly if it was active |
| Calls.WebhookWritesExactly | apps/api/src/calls/calls.service.ts:415-459 | a finished room ends its live call, someone leaving an active one, and no other event does anything |
| Calls.TimeoutWritesExactly | apps/api/src/calls/calls.service.ts:461-489 | a ring timeout makes exactly a call that still rings missed and tells the chat |
| Calls.RungKeepsExclusiveExactly | apps/api/src/calls/calls.service.ts:185-202 | a new row keeps "one live call per user" if and only if neither party is busy when it is written |
| Calls.NextKeepsExclusiveExactly | apps/api/src/calls/calls.service.ts:165-204 | with creation in two steps, an event keeps exclusion if and only if it does not write a call of someone who has become busy |
| Calls.ExclusionHoldsExactly | apps/api/src/calls/calls.service.ts:165-204 | over every run of such events exclusion holds at every state if and only if both parties are still free at each write |
| Calls.PromptWriteIsCreate | apps/api/src/calls/calls.service.ts:165-204 | a check written at once is the one-step creation |
| Calls.CrossedCallsBreakExclusion | apps/api/src/calls/calls.service.ts:165-204 | a run of two checks and two writes, two people calling each other, leaves both in two live calls |
| Calls.CallsService.CreateCall | apps/api/src/calls/calls.service.ts:165-233 | checks in the source's order; if done, a ringing row between two people who were both free and its timer, else nothing changed; the invariant is kept |
| Calls.CallsService.AcceptCall | apps/api/src/calls/calls.service.ts:235-295 | if done the call is active, answered now and without a timer, else nothing changed; the invariant is kept |
| Calls.CallsService.RejectCall | apps/api/src/calls/calls.service.ts:297-317 | if done the call is rejected, without a timer and with one more chat event, else nothing changed; the invariant is kept |
| Calls.CallsService.CancelCall | apps/api/src/calls/calls.service.ts:319-331 | if done the call is ended, without a timer and with the chat as it was, else nothing changed; the invariant is kept |
| Calls.CallsService.EndCall | apps/api/src/calls/calls.service.ts:333-355 | if done the call is not live, and one that was finished is unchanged, else nothing changed; the invariant is kept |
| Calls.CallsService.EndCallRecord | apps/api/src/calls/calls.service.ts:491-520 | closes the row with status, time, reason and duration |
| Calls.CallsService.FinalizeAbandonedCall | apps/api/src/calls/calls.service.ts:432-459 | closes a live call for its room, and leaves any other alone |
| Calls.CallsService.HandleLivekitWebhook | apps/api/src/calls/calls.service.ts:415-430 | the webhook step by room name; a finished room leaves its call not live; the invariant is kept |
| Calls.CallsService.MarkMissed | apps/api/src/calls/calls.service.ts:461-489 | marks a ringing call missed and tells the chat, and leaves any other alone |
| Calls.CallsService.RingTimer | apps/api/src/calls/call-timeout.processor.ts:12-14 | the timeout job leaves its call not ringing and its timer gone; the invariant is kept |
| MediaUrl.ServedUrlGivesTheKeyBack | packages/shared/src/media-url.ts:16-101 | every key of non-empty segments over letters, digits, dash, underscore and dot that starts with neither bucket nor prefix reads back from its served URL, in both shapes, and serving is idempotent |
| MediaUrl.ServedRoundTripExactly | packages/shared/src/media-url.ts:47-101 | a key reads back from its served URL if and only if it is stable: a public key without percent signs or empty segments whose URL is not read as a proxy URL, a private key without percent signs or with escapes that do not decode |
| MediaUrl.ProxyRoundTripExactly | packages/shared/src/media-url.ts:34-44 | the proxy shape gives a key back if and only if it holds no percent sign or `decodeURIComponent` rejects it, and always gives some key |
| MediaUrl.DirectRoundTripExactly | packages/shared/src/media-url.ts:16-85 | for every key the direct shape gives it back if and only if it has no percent sign and no empty segment, and its URL is not read as a proxy URL |
| MediaUrl.ServingIsIdempotentExactly | packages/shared/src/media-url.ts:91-101 | mapping any stored reference twice equals mapping it once if and only if its key is stable |
| MediaUrl.ServedIsInjective | packages/shared/src/media-url.ts:80-101 | two keys are never served under one URL, whichever shapes they take |
| MediaUrl.BareKeyExactly | packages/shared/src/media-url.ts:16-57 | a bare key reads as itself if and only if it is not read as a proxy URL, has no percent sign and starts with no slash, prefix or bucket |
| MediaUrl.LegacyUrlIsTheSameKey | packages/shared/src/media-url.ts:59-72 | a legacy absolute URL yields its key and the same served URL as the bare key, for every good key without dot segments and on any authority with which the URL parser accepts the URL: a name, an address, a port, credentials |
| MediaUrl.EscapedKeyIsLost | packages/shared/src/media-url.ts:34-44 | the private keys `messages/%41` and `messages/%C3%A9` do not come back |
| MediaUrl.LookalikeIsLost | packages/shared/src/media-url.ts:34-57 | the public key `posts/media/object?key=z` is read as `z` |
| MediaUrl.FromObjectIsShorter | packages/shared/src/media-url.ts:34-44 | what a query or the fallback match yields is shorter than the key it is found in, so such a key never comes back |
| MediaUrl.DefaultShapes | packages/shared/src/media-url.ts:80-101 | with the default settings a public key is served under `/storage/agahiram/` and any other through the proxy with its encoded key |
| MediaUrl.PublicFoldersExactly | packages/shared/src/media-url.ts:9-78 | the four public folders, in any case |
| MediaUrl.PrefixSlashes | packages/shared/src/media-url.ts:16-85 | a slash at the front of the prefix setting is optional, and one at its end when printing |
| MediaUrl.NothingToServe | packages/shared/src/media-url.ts:48-57 | no reference, an empty one and the bare prefix hold no key and are served as they are |
| MediaUrl.MalformedReference | packages/shared/src/media-url.ts:59-73 | a path with escapes that do not decode throws; an absolute URL with such escapes, or one that the parser rejects, is served as it is |
| MediaUrl.ProxyThrowsExactly | packages/shared/src/media-url.ts:34-45 | a proxy URL throws exactly if neither its query nor its `key=` match decodes |
| MediaUrl.FirstPairCounts | packages/shared/src/media-url.ts:36-39 | a query is read by decoded names, and the first pair with the name counts |
| MediaUrl.MatchEndsAtAmpersand | packages/shared/src/media-url.ts:41-43 | the fallback takes what follows `key=` up to the next `&` |
| MediaUrl.AbsoluteExactly | packages/shared/src/media-url.ts:59-59 | an absolute URL starts with either scheme, in any case |
| MediaUrl.PathEndsEarly | packages/shared/src/media-url.ts:64-66 | query, fragment and a trailing blank are no part of an absolute URL's path |
| MediaUrl.BackslashPath | packages/shared/src/media-url.ts:64-66 | backslashes in an absolute URL do as slashes |
| MediaUrl.DotsExactly | packages/shared/src/media-url.ts:66-66 | which path segments the URL parser takes as one or two dots |
| MediaUrl.DotsAreRemoved | packages/shared/src/media-url.ts:66-66 | what the URL parser does with them |
| Text.DecodeUndoesEncode | packages/shared/src/media-url.ts:100-100 | both decoders, the throwing one and the query string's, undo the encoder on every text, over UTF-8 |
| Text.OctetsRoundTrip | packages/shared/src/media-url.ts:100-100 | the UTF-8 octets of every character form one valid sequence that reads as that character, whatever follows |
| Text.CompleteExactly | packages/shared/src/media-url.ts:17-17 | octets are taken as a valid sequence exactly if they start with the octets of some character |
| Text.UnreservedExactly | packages/shared/src/media-url.ts:100-100 | the characters that `encodeURIComponent` leaves alone |
| Text.HexExactly | packages/shared/src/media-url.ts:17-17 | hexadecimal digits, in either case |
| Text.PlusIsSpace | packages/shared/src/media-url.ts:38-38 | a plus in a query is a space |
| Text.BrokenIsReplaced | packages/shared/src/media-url.ts:38-38 | in a query an octet that starts no sequence, or whose sequence breaks off at once, becomes one replacement character |
| Text.DecodesToItselfExactly | packages/shared/src/media-url.ts:17-17 | decoding changes nothing if and only if there is no percent sign |
| Text.DropsNothingExactly | packages/shared/src/media-url.ts:26-29 | splitting, dropping empty parts and joining changes nothing if and only if there are none |
| StickerVotes.RowsAreLastVotes | apps/api/src/stories/story-stickers.service.ts:74-82 | after any run of ballots the table holds exactly each voter's last accepted vote |
| StickerVotes.CountsAreLastVotes | apps/api/src/stories/story-stickers.service.ts:226-233 | each option's count is the number of users whose last accepted vote names it |
| StickerVotes.TotalIsVotersExactly | apps/api/src/stories/story-stickers.service.ts:219-237 | the total is the number of distinct voters if and only if there is an options list or nobody voted |
| StickerVotes.VoteWithoutOptionsIsLost | apps/api/src/stories/story-stickers.service.ts:66-72 | one vote on a sticker without an options list has one voter and a total of zero |
| StickerVotes.PercentsSumToHundred | apps/api/src/stories/story-stickers.service.ts:234-235 | when the total is positive the rounded percentages add up to 100 within half the number of options |
| StickerVotes.PercentExactly | apps/api/src/stories/story-stickers.service.ts:235-235 | a percentage is the nearest whole one, halves up, and zero when nobody voted |
| StickerVotes.BoundIsReached | apps/api/src/stories/story-stickers.service.ts:235-235 | eight equal shares reach that bound |
| StickerVotes.StickerBox.CastVote | apps/api/src/stories/story-stickers.service.ts:45-91 | accepts exactly an index on the list and upserts the voter's row |
| StickerVotes.CountVotes | apps/api/src/stories/story-stickers.service.ts:226-233 | the loop counts the rows that name each option |
| StickerVotes.ComputeSummary | apps/api/src/stories/story-stickers.service.ts:219-237 | counts, total and percentages are as specified |
| StoryArchive.ExtractUndoesEmbedExactly | apps/api/src/stories/story-archive.service.ts:83-153 | extracting gives back overlay and all stickers if and only if the overlay is an object without the reserved field, or is no object and there are no stickers |
| StoryArchive.BareStoryGainsLayers | apps/api/src/stories/story-archive.service.ts:96-99 | a story with a sticker and no overlay comes back with an overlay of empty layers |
| StoryArchive.EmbeddedStickersSay | apps/api/src/stories/story-archive.service.ts:100-112 | every sticker is stored under the reserved field with its seven columns |
| StoryArchive.ExtractExactly | apps/api/src/stories/story-archive.service.ts:114-153 | of any overlay, reading keeps all other fields, and of the reserved list exactly the objects with a text id and a type |
| StoryArchive.HandlersArchiveExactly | apps/api/src/stories/story-archive.service.ts:13-43 | highlighting and removing give a live story its row unless it has one: its owner, columns, overlay with stickers, id, and the public audience |
| StoryArchive.PublishExactly | apps/api/src/stories/stories.service.ts:149-165 | a published story is added under a new id |
| StoryArchive.RunsInOrder | apps/api/src/stories/stories.service.ts:1277-1281 | a run performs its commands one after the other, and an expiry command is one pass |
| StoryArchive.PassArchivesTheExpired | apps/api/src/stories/story-archive.service.ts:45-66 | after a pass no expired story is live, every other one is, no archive row is lost, and each expired story whose owner archives has its row |
| StoryArchive.OneRowOverEveryRun | apps/api/src/stories/story-archive.service.ts:13-66 | over every run of whole handlers, publishing, highlighting, removing and expiring, there is at most one archive row per original and none is ever lost |
| StoryArchive.OneEachHoldsExactly | apps/api/src/stories/story-archive.service.ts:13-43 | over every interleaving of checks and writes there is at most one archive row per original all along if and only if each story is still without a row when its row is written |
| StoryArchive.NextKeepsOneEachExactly | apps/api/src/stories/story-archive.service.ts:13-43 | the same for one step |
| StoryArchive.RowKeepsOneEachExactly | packages/database/prisma/schema.prisma:531-555 | no constraint guards the table: a new row keeps one row per original if and only if its original has none |
| StoryArchive.PromptWriteIsArchived | apps/api/src/stories/story-archive.service.ts:13-43 | a check written at once is the one-step archiving of the whole handlers |
| StoryArchive.OverlappingHighlightsLeaveTwoRows | apps/api/src/stories/highlights.service.ts:18-24 | a run of two checks and two writes, for every story, leaves it with two archive rows |
| StoryArchive.SourcesAreRightExactly | apps/api/src/stories/highlights.service.ts:22-22 | over every interleaving each archive row names its story's audience if and only if no highlight and no removal writes the row of a close-friends story |
| StoryArchive.NextKeepsSourcesExactly | apps/api/src/stories/stories.service.ts:1012-1013 | the same for one step |
| StoryArchive.HighlightWidensTheAudience | apps/api/src/stories/highlights.service.ts:136-139 | every close-friends story that is highlighted before it expires ends with a public archive row, the pass included |
| StoryArchive.StoryArchiveService.ArchiveFromStory | apps/api/src/stories/story-archive.service.ts:13-43 | afterwards the story has a row, no row is lost, and there is still at most one per original |
| StoryArchive.StoryArchiveService.ArchiveExpiredStories | apps/api/src/stories/story-archive.service.ts:45-66 | the copy-and-delete loop equals the one-line pass and counts what it removed: exactly the expired stories are gone, those whose owner archives have a row, no row is lost and there is still at most one per original |
| ShopTrust.UninterruptedRunsMatch | apps/api/src/verifications/verifications.service.ts:43-210 | over every run of whole handlers a shop's score is the sum granted to its approved requests and its tier is that score's tier |
| ShopTrust.ScoreMatchesExactly | apps/api/src/verifications/verifications.service.ts:160-210 | over every interleaving the score stays that sum if and only if no decision is written on a request that is already approved |
| ShopTrust.StepMatchesExactly | apps/api/src/verifications/verifications.service.ts:160-210 | the same for one step |
| ShopTrust.StepKeepsTiersExactly | apps/api/src/verifications/verifications.service.ts:168-188 | a step keeps tiers right if and only if it does not grant on a stale score across a threshold |
| ShopTrust.TiersMatchExactly | apps/api/src/verifications/verifications.service.ts:168-188 | over every interleaving the tiers are right all along if and only if no grant is written on a score that moved across a threshold since it was read |
| ShopTrust.StaleGrantSetsTierBack | apps/api/src/verifications/verifications.service.ts:70-95 | a concrete run sets a tier back: a phone granted on the score read before a licence was approved |
| ShopTrust.OneStandingExactly | apps/api/src/verifications/verifications.service.ts:57-71 | over every interleaving a shop has at most one open or approved request of a kind all along if and only if no write opens a request, or approves a rejected one, while another stands |
| ShopTrust.StepKeepsOneStandingExactly | apps/api/src/verifications/verifications.service.ts:160-193 | the same for one step |
| ShopTrust.HandledKeepsOneStandingExactly | apps/api/src/verifications/verifications.service.ts:160-193 | a whole handler keeps that promise if and only if it does not approve a rejected request beside a standing one |
| ShopTrust.RejectedRequestCountsBeside | apps/api/src/verifications/verifications.service.ts:166-188 | five whole handlers, none overlapping, leave two approved requests of one kind and a score of 400 |
| ShopTrust.SameTierExactly | apps/api/src/verifications/verifications.service.ts:21-28 | two scores have one tier if and only if no threshold lies between them |
| ShopTrust.TiersExactly | apps/api/src/verifications/verifications.service.ts:21-28 | each tier is an interval of scores |
| ShopTrust.ScoresExactly | packages/shared/src/constants/app.ts:128-136 | what each kind of verification is worth |
| ShopTrust.SubmitAnswersExactly | apps/api/src/verifications/verifications.service.ts:43-71 | a submission is taken up exactly if the shop exists and nothing of its kind is open or approved |
| ShopTrust.DecisionAnswersExactly | apps/api/src/verifications/verifications.service.ts:160-210 | a decision is taken up exactly if the request exists and is not approved |
| ShopTrust.WriteExactly | apps/api/src/verifications/verifications.service.ts:70-210 | what each write leaves of requests and scores, and that one shop's score moves at most |
| ShopTrust.DoubleApprovalCountsTwice | apps/api/src/verifications/verifications.service.ts:160-190 | a concrete run counts one request twice |
| ShopTrust.VerificationsService.SubmitVerification | apps/api/src/verifications/verifications.service.ts:43-104 | grants a phone at once with its score, files anything else without touching the shop, refuses a second open or approved request; scores and tiers stay right |
| ShopTrust.VerificationsService.ApproveVerification | apps/api/src/verifications/verifications.service.ts:160-193 | approves exactly a request not yet approved and adds its score once; scores and tiers stay right |
| ShopTrust.VerificationsService.RejectVerification | apps/api/src/verifications/verifications.service.ts:195-210 | rejects exactly a request not yet approved and never touches a shop; scores and tiers stay right |

## Left out

- Database anomalies inside a `$transaction`, crashes between steps, and lost connections: a step happens or does not.
- Registration: the users of a run and their opening balances are given.
- `initiate` is one step that creates the payment row; its call to the gateway, and the gateway itself, are an arbitrary answer.
- `findFirst` by authority is the first matching row of the table.
- An ad charge is one step, reads included: the columns it reads outside the transaction never change.
- A campaign edit is two steps, all its checks and its write; the admin's `updateCampaign` and the budget cron, which pauses and resumes campaigns but no ads, are not modelled. A review of an ad is one step.
- AdCampaigns.ActKeepsSound: deleting an ad, by its owner or an admin, is no action of a run, because it may remove spend from the ads' ledger; its effect is stated by `DeletingAdKeepsLedgersExactly`. The same holds for `CampaignTheorems.CampaignLedgersAgree`.
- Bids, budgets and amounts are integers in the exact range of a JavaScript number; click-through rates and eCPM are reals.
- Serving reads one table of ads joined with campaign and wallet; tokens, impression rows and the response's shape are not modelled.
- Cursor pagination of the database resumes at the cursor's row in a fixed total order, and the table does not change during one page or one alert pass.
- The viewer state and summary fields of reel entries.
- An alert pass reads the clock once; the text normalisation is an arbitrary function; delivery of a notice always succeeds.
- Call handlers other than creation are one step; rooms and tokens of the video service, push notifications and gateway events are not modelled, and `refreshToken`, `getCall`, `getActiveForUser` only read.
- Texts are sequences of Unicode characters, without lone surrogates. Which texts the URL parser accepts is a parameter; it is taken to accept every path that starts with one slash and a plain character.
- Media settings are a bucket name and a prefix that is empty or one segment; the MIME-type predicates and thumbnail pickers are not modelled.
- Slider, question and countdown stickers; the story's own expiry check before a vote.
- With checks and writes apart, the expiry pass is its checks, writes and deletions, one story at a time; media deletion, the highlights themselves and the archive listing are not modelled.
- Shop badges, and the documents, notes and deciding admin of a verification request.
- OTP, sessions, roles, raw SQL and Meili search, the web client, controllers and queues are outside the model.
