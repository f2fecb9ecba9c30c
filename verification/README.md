# A verified model of the betting bot's core

The repository is a Telegram bot and mini-app for a prediction market. Users place bets, keep
daily streaks, refer each other and are paid points; a news pipeline posts articles with bet
buttons to a channel; orders are confirmed by a tap before they are placed. This project models
the parts of it that carry whole-run guarantees and proves those guarantees for every input and
every run. Money is `real`, counts and points are integers, tables are maps and sequences, and
everything that comes from the clock, the network or a random source is a parameter.

| file | component |
|---|---|
| `Wrappers.dfy`, `Text.dfy` | optional values, arithmetic, case folding and stripping |
| `Economy.dfy`, `EconomyStore.dfy` | points, referrals, streaks, bets and settlement: the state each repository call leaves, and the calls themselves changing the session's tables in place |
| `Propagation.dfy` | the upward referral walk, said of paths in the referral graph |
| `Streaks.dfy`, `StreakRuns.dfy` | streak columns and streak rows, said of sets of days |
| `SettlementOrder.dfy`, `SettlementRepeats.dfy` | settlement in any order, batching, with retries, and run again |
| `EconomyTables.dfy` | what joining, referring, placing and settling do to each table, in plain numbers and rows |
| `EconomyRuns.dfy`, `ReferralRuns.dfy` | invariants of every reachable state of the economy |
| `Publishing.dfy`, `PublishingSafety.dfy`, `NewsStore.dfy` | the claim, send, finalize protocol as a step relation, its safety, and the jobs that run it |
| `DeepLink.dfy`, `PostedOffers.dfy` | the links behind posted bet buttons, what tapping one opens, and where the offers come from |
| `Outcomes.dfy`, `Markets.dfy` | the outcomes offered for an event, the YES side of a market, and who won |
| `CappedBuy.dfy` | the price-capped order, the recorded entry, the advertised and the settled payout |
| `Markup.dfy`, `Caption.dfy`, `CaptionLayout.dfy` | escaping and its inverse, the budgeted cut, the caption within its cap |
| `ClientCache.dfy`, `ClientCacheHistory.dfy` | the cache of signing clients against the history of its calls |
| `RateLimiter.dfy`, `UsageBudget.dfy` | sliding windows against full histories |
| `MarketButtons.dfy`, `OrderConfirmation.dfy` | stale market buttons and the confirmation desk of one session |

What the source promises and the code does not quite keep is stated as exactly as the code keeps it:

- A caption is documented as never longer than its cap. The tail (link and footer) is never
  trimmed, and the title's budget leaves no room for the market question.
  `CaptionLayout.GuaranteeHoldsExactly` gives the condition under which the promise does hold.
- A news bet is documented as always price-capped. A quote of zero makes the cap zero, which the
  dispatch reads as no cap; `CappedBuy.CappedExactlyWhenQuoted` says when the order is capped.
- At-most-once delivery holds if a send that reports failure delivered nothing. Otherwise each
  such send can add one message; `PublishingSafety.AtMostOncePerSlot` counts them and
  `NewsStore.UnreportedSendsDuplicate` reaches that bound for every number of such sends.
- The weekly image budget holds for whole weeks when a ledger row is stamped no earlier than its
  gate read the ledger; `UsageBudget.EarlyStampBreaksTheWeek` shows that any lag breaks it.
- A confirmation button acts on another intent when the short random id of a prompt repeats.
  `OrderConfirmation.OwnButtonExactly` is what a request can check beforehand: no earlier button
  will ever act on the new intent exactly when no earlier prompt has the id just drawn.
- Running settlement again on the same data is harmless only while one run reaches far enough.
  `SettlementRepeats.RepeatChangesNothing` says exactly when the second run changes nothing, and
  `SettlementRepeats.FullQueueKeepsSettling` is an input on which it settles one bet more.
- Which leg a market's YES side is does not depend on the upstream order exactly when one label
  alone says yes (`Markets.OrderIsImmaterial`).

## Model

| member | source | states |
|---|---|---|
| `EconomyStore.Store.AttributeReferral` | db/repositories/rewards.py:68-82 | on the tables: true exactly for an existing, unreferred invitee and another existing user; then the invitee gets that referrer, a missing edge becomes a pending one, an existing edge stays, and nothing else changes; otherwise nothing changes |
| `EconomyStore.Store.Award` | db/repositories/rewards.py:85-88 | a zero award leaves no row, any other appends exactly one |
| `EconomyStore.Store.RecordBet` | db/repositories/stats.py:39-62 | the branchy in-place update of streak, totals and volume leaves exactly the specified stats row and nothing else |
| `EconomyStore.Store.RewardForStreak` | db/repositories/rewards.py:124-137 | the search for a duplicate (user, day) key and the guarded insert add at most one streak row, exactly when the day has none and the bonus is positive |
| `EconomyStore.Store.TryUnlock` | db/repositories/rewards.py:140-152 | a pending edge is unlocked, with both bonuses, exactly when the invitee's stats show enough bets |
| `EconomyStore.Store.PropagateUp` | db/repositories/rewards.py:155-169 | the loop up the chain appends exactly the shares owed along the unlocked edges, each the floor of 10, 5, 3, 2 and 1 percent of the base in turn, stopping at the first that is below a point, and changes nothing else |
| `EconomyStore.Store.RewardForBet` | db/repositories/rewards.py:100-108 | bet points, streak, unlock and walk in that order, so that a bet that unlocks an edge already pays across it |
| `EconomyStore.Store.RewardForWin` | db/repositories/rewards.py:119-121 | the win bonus and its walk |
| `EconomyStore.Store.CreateBet` | db/repositories/bets.py:18-41 | one open bet row is appended, with shares only at a positive entry price |
| `EconomyStore.Store.RecordSettlement` | db/repositories/stats.py:65-82 | wins, losses, settled, profit and Brier sum move together, and only for decided bets |
| `EconomyStore.Store.SettleBet` | bot/jobs.py:101-115 | a savepoint that fails after any of its writes restores every table it touched; one that survives leaves bet, stats and ledger settled together |
| `EconomyStore.Store.SelectOpen` | db/repositories/bets.py:44-49 | the selection is the oldest open bets, as many as the limit allows |
| `EconomyStore.Store.SettlementJob` | bot/jobs.py:76-122 | the whole batch, with any set of bets failing at any of their writes, equals the specified pass |
| `EconomyTables.ReferralIsMade` | db/repositories/rewards.py:68-82 | a referral is made exactly for an unreferred user by another existing one, and sets the referrer and a pending edge |
| `EconomyTables.ReferralLeavesAnEdge` | db/repositories/rewards.py:68-82 | in every reachable state a made referral leaves the one pending edge of an invitee that had none |
| `EconomyTables.PlaceCounts` | db/repositories/stats.py:39-62 | a placed bet adds one to the bettor's counter and the stake, if positive, to their volume, and sets their last day |
| `EconomyTables.PlaceUnlocks` | db/repositories/rewards.py:140-152 | it unlocks the bettor's pending edge exactly from the third bet on, and no other edge |
| `EconomyTables.PlaceWrites` | db/repositories/rewards.py:100-169 | it writes ten points and one for each whole dollar, at most one streak row, 500 points to each end of an edge it unlocked, and the shares of the walk over the edges as they then are, in that order and nothing else |
| `EconomyTables.SettlementMeans` | db/repositories/bets.py:59-80 | a decided market makes a bet void without a winner, won exactly on the winning token and otherwise lost, with payout and profit in terms of stake and entry price |
| `EconomyTables.SettleWrites` | bot/jobs.py:101-115 | settling a won bet writes 25 points and the shares of their walk, and settling any other writes no row |
| `EconomyTables.WindowIsReach` | db/repositories/bets.py:44-49 | a bet is selected exactly when it is open and fewer than 500 older ones are |
| `EconomyTables.PassSettlesExactly` | bot/jobs.py:76-122 | one pass settles exactly the selected bets whose market is resolved and whose writes do not fail, and leaves every other bet as it is |
| `Propagation.WalkFollowsPath` | db/repositories/rewards.py:155-169 | the k-th row goes to the ancestor behind k+1 unlocked edges, is worth its layer, and the rows stop exactly at the first layer that pays nothing; cycles allowed |
| `Propagation.WalkPaysShares` | db/repositories/rewards.py:28-169 | in plain percents: row k is the whole number of points p with 100 p at most base times 10, 5, 3, 2 or 1 and 100 (p + 1) above it, paid to the k-th ancestor; the rows stop at the first share below a point or where no ancestor is left |
| `Propagation.WalkBound` | db/repositories/rewards.py:28-28 | one reward pays at most five rows and at most the floor of 21% of its base |
| `SettlementOrder.StepsCommute` | bot/jobs.py:91-117 | settling two bets in either order gives the same tables and the same multiset of ledger rows |
| `SettlementOrder.OrderDoesNotMatter` | bot/jobs.py:91-117 | so does settling any collection of bets in any order |
| `SettlementOrder.SettledOnce` | db/repositories/bets.py:59-80 | over any schedule of passes a bet leaves OPEN at most once, and one that has left keeps its row |
| `SettlementOrder.SettlementConfluent` | bot/jobs.py:84-119 | any two schedules, with lagging market data, any batches and any failures, that leave the same bets open leave equivalent books |
| `SettlementOrder.ScheduleSettlesAll` | bot/jobs.py:84-119 | a schedule that got every resolved bet settled ends where settling all the open bets at once does, however many there are |
| `SettlementRepeats.WindowAfterPass` | bot/jobs.py:84-119 | the bets a run selects next are those the last one left of its own and then the next in line, one for each it settled |
| `SettlementRepeats.RepeatChangesNothing` | bot/jobs.py:84-119 | running the job again changes nothing exactly when no open bet among those next in line has a resolved market |
| `SettlementRepeats.FullQueueKeepsSettling` | db/repositories/bets.py:44-49 | with one open bet more than a run selects, all on one resolved market, the second run settles one more |
| `EconomyRuns.PassIsARun` | bot/jobs.py:91-117 | every pass, whatever fails in it, is a run of single settlements, so the invariants below hold inside and after it |
| `EconomyRuns.PlaceBetShape` | bot/handlers/confirm.py:317-319 | one placed bet writes exactly one stats row, at most one unlock and the listed ledger rows |
| `EconomyRuns.StatsAgreeInEveryRun` | db/repositories/stats.py:65-82 | in every reachable state each user's wins, losses, settled count, profit and Brier sum are those of their decided bets, and they hold one win row per win |
| `EconomyRuns.BooksAreSoundInEveryRun` | db/repositories/bets.py:59-80 | in every reachable state a bet's profit is its payout less its stake once settled, a win pays the shares bought, a void refunds, a loss pays nothing, and the Brier score is the squared miss of the entry price |
| `EconomyRuns.AccuracyInRange` | db/repositories/stats.py:85-89 | with entry prices in [0,1] the win rate stays in 0-100 and the average Brier score in 0-1, and both exist exactly when a bet was decided |
| `ReferralRuns.EdgesMatchInEveryRun` | db/repositories/rewards.py:68-80 | `referred_by` is set exactly when an edge to that same inviter exists, nobody refers themselves, and no edge is unlocked before the third bet |
| `ReferralRuns.RunsPersist` | db/repositories/rewards.py:68-80 | over any run the ledger only grows, referrers and unlocks are never taken back, and settled bets keep their rows |
| `ReferralRuns.BetDecidesUnlock` | db/repositories/rewards.py:140-152 | right after any bet of the invitee the edge is unlocked exactly when they have three bets |
| `ReferralRuns.TotalBetsCountsPlacements` | db/repositories/stats.py:59-59 | the bet counter is the number of bets the run placed for the user |
| `ReferralRuns.BonusesMatchInEveryRun` | db/repositories/rewards.py:140-152 | the ledger holds exactly one inviter bonus and one invitee bonus per unlocked edge, and no bonus row for anything else |
| `ReferralRuns.ReferralPointsBounded` | db/repositories/rewards.py:155-169 | over any run, with any graph it builds, all referral points are at most 21% of all bet and win points |
| `Streaks.BetKeepsStreak` | db/repositories/stats.py:50-58 | a bet on the last bet day or later keeps the columns equal to the last and the longest block of consecutive bet days |
| `StreakRuns.StreakColumnsInEveryRun` | db/repositories/stats.py:50-58 | so they are in every reachable state of a run with non-decreasing days |
| `StreakRuns.StreakRowsInEveryRun` | db/repositories/rewards.py:124-137 | each bet day has exactly one streak row worth five points per day of its run, seven at most, and there is no other streak row |
| `StreakRuns.StreakRowWorth` | db/repositories/rewards.py:124-137 | the row of a day that is the n-th of its block is worth 5 n points, and 35 from the seventh day on |
| `StreakRuns.StreakPointsInEveryRun` | db/repositories/rewards.py:111-137 | so a user's streak points are the sum over their bet days of what each day is owed, however many bets a day had |
| `Streaks.OwedIsASum` | db/repositories/rewards.py:124-137 | that sum takes every day once, in any order |
| `PublishingSafety.SlotInvariantInEveryRun` | bot/news/jobs.py:154-193 | deliveries, claim row and owner of each (item, chat, language) agree after every step of every interleaving |
| `PublishingSafety.AtMostOncePerSlot` | bot/news/jobs.py:154-193 | a slot receives at most one message more than its sends that failed after being delivered |
| `PublishingSafety.AtMostOnce` | bot/news/jobs.py:154-193 | when a failed send delivered nothing, no slot ever receives two messages: any publishers, crashes, re-renders and admin actions |
| `PublishingSafety.ClaimsMirrorDeliveries` | db/repositories/news_items.py:91-116 | between attempts a row exists exactly when one send was confirmed and carries that message's id; a failed send has left no row |
| `PublishingSafety.MissedSlotsWereAbandoned` | bot/news/jobs.py:154-193 | a slot claimed for ever without a message is one whose owner died |
| `PublishingSafety.SentHasClaim` | bot/news/jobs.py:160-193 | with one publisher at a time, crashes included, a sent item has a claim row nobody is about to release |
| `PublishingSafety.SentMeansDelivered` | bot/news/jobs.py:160-193 | if moreover nobody crashed, a sent item was delivered exactly once in that slot and its row carries that message's id |
| `NewsStore.AttemptShape` | bot/news/jobs.py:154-193 | an attempt nothing interleaves with: a failed send leaves the world as it was, an accepted one leaves a sent item and its row |
| `NewsStore.AttemptSendsOnlyFreeSlots` | bot/news/jobs.py:160-187 | nothing is sent for an item that is not ready or a slot that is claimed, and a refused send leaves no trace |
| `NewsStore.EachIsPublished` | bot/news/jobs.py:196-222 | in a run of attempts over distinct items each slot is published as its own send came out, whatever the others came to |
| `NewsStore.Store.Claim` | bot/news/jobs.py:160-179 | the first transaction reconciles a claimed slot, claims a free one of a ready item and snapshots its outcomes, or does nothing |
| `NewsStore.Store.Finalize` | bot/news/jobs.py:185-193 | the last transaction releases the claim without a message id, and otherwise marks item and row |
| `NewsStore.Store.PublishOne` | bot/news/jobs.py:154-193 | the job's claim, send and finalize is that run of protocol steps, and publishes the slot as the next row says |
| `NewsStore.Store.PublishJob` | bot/news/jobs.py:196-222 | on the tables: over distinct ids, a ready item with a free slot whose send was accepted is sent, its row carries the message, and one more post shows its stored outcomes; a refused send leaves item, row and posts; a claimed slot is only reconciled; an item that is not ready or not listed is untouched |
| `NewsStore.Store.RenderItem` | bot/news/render.py:60-119 | rendering makes the item ready, keeps a call to action once resolved, and otherwise stores the market and outcomes of the one found; it is one protocol step |
| `NewsStore.Store.CurateNewsItem` | dashboard/repo.py:586-612 | rejecting rejects, unapproving returns to the backlog, and the three other actions approve; false exactly for a missing item or an unknown action, which change nothing; each is one protocol step |
| `NewsStore.Store.ApproveIds` | db/repositories/news_items.py:76-88 | exactly the listed backlog items are approved, nothing else changes, and the count is theirs; it is a run of protocol steps |
| `NewsStore.TwoPublishersCanLoseAnItem` | bot/news/jobs.py:163-187 | with two publishers, and no crash, an item can end up sent with no row and no message |
| `NewsStore.UnreportedSendsDuplicate` | bot/news/jobs.py:181-187 | for every n, n unreported deliveries lead to n + 1 messages with one publisher and no crash |
| `DeepLink.DecimalReadsBack` | bot/news/cta.py:279-288 | a printed number reads back to itself |
| `DeepLink.BetLinkRoundTrip` | bot/handlers/start.py:234-254 | a posted link parses back to exactly its item and index |
| `DeepLink.LegacyLinkRoundTrip` | bot/handlers/start.py:241-254 | links of older posts read back as outcome 0 for y and 1 for n, marked legacy |
| `DeepLink.OnlyBetLinksBet` | bot/handlers/start.py:241-254 | an argument opens an indexed bet exactly when it is `nb-<digits>-<digits>`, and then that one |
| `DeepLink.OtherArgumentsRead` | bot/handlers/start.py:241-254 | what follows `r-` is a referral code, whatever it is, and what follows `n-` is an item exactly when it is a number |
| `DeepLink.PayloadFits` | bot/news/cta.py:279-288 | payloads fit the 64 characters a start link may carry |
| `DeepLink.ResolvedOnce` | bot/news/render.py:91-108 | no step of any kind changes the outcomes of a resolved item |
| `DeepLink.PostedButtonsKeepMeaning` | bot/handlers/start.py:175-206 | at every moment after posting, the link of a posted button opens the market and side that stood at its index in the posted snapshot; yes and no open as yes and no |
| `DeepLink.NoUnofferedBet` | bot/handlers/start.py:175-254 | whatever text is tapped, it opens a bet exactly when it is a bet link that names an outcome its item offers, or an old y/n link on an item with one market and no stored outcomes, and then that very bet |
| `PostedOffers.PostedOffersOpen` | bot/news/publisher.py:202-215 | when renders store what the resolver builds, every button of every post opens, at every later moment, its outcome's market and side |
| `PostedOffers.BinaryPostOpensItsSides` | bot/news/cta.py:133-138 | a posted plain binary shows Yes and No, and opens the YES side behind the first and the NO side behind the second, on the first of the likeliest live markets |
| `PostedOffers.ChoicePostOpensYes` | bot/news/cta.py:122-132 | every button of a posted multi-outcome event opens the YES side of the market whose first choice it shows |
| `Outcomes.BuildOutcomes` | bot/news/cta.py:113-138 | the loop with its seen-set, the sort and the cut return the specified offers |
| `Outcomes.ChoicesAreFirstOfTheirMarket` | bot/news/cta.py:122-129 | every named and priced live market is a choice once, by its first such listing: YES on it at that listing's price, under the first 48 characters of its name |
| `Outcomes.SortOrders` | bot/news/cta.py:131-131 | the sort puts the likeliest first and keeps the offers |
| `Outcomes.SortIsStable` | bot/news/cta.py:131-131 | equally likely offers stay in the order they were listed |
| `Outcomes.OffersAreTheLikeliest` | bot/news/cta.py:130-132 | a multi-outcome event offers YES on its choices, four at most, on distinct markets, likeliest first, and leaves out none that is likelier |
| `Outcomes.OffersAreTwoSides` | bot/news/cta.py:133-138 | any other event offers nothing exactly when no market is live, and else two buttons on the first of the likeliest: Yes with side yes and its YES price, No with side no and its NO price |
| `Outcomes.LiveMarketsMean` | bot/news/cta.py:120-121 | the live markets are exactly the sub-markets with an id that normalise, with their trimmed name and the prices of their two sides |
| `Outcomes.LiveMarketsInOrder` | bot/news/cta.py:120-121 | they stand in the order the event lists them |
| `Outcomes.OffersAreBettable` | bot/news/cta.py:113-138 | every offer names a market and one of its two sides |
| `Markets.ParseResolution` | polymarket/markets.py:351-373 | the loop over the prices returns the specified resolution |
| `Markets.ResolutionMeans` | polymarket/markets.py:351-373 | a market is resolved exactly when closed and final, has a winner exactly when one leg alone is at 0.99 or more and has a token, and is void otherwise |
| `Markets.SidesFollowLabels` | polymarket/markets.py:142-158 | a market is read exactly when it is open, active and has two labels and two tokens; its YES side is the second leg when that alone says yes and the first otherwise, with that leg's own token and price, and its NO side is the other leg |
| `Markets.SaysYesMeans` | polymarket/markets.py:141-145 | a label says yes exactly when it is that word, in any case, between blanks |
| `Markets.OrderIsImmaterial` | polymarket/markets.py:125-158 | permuting the arrays changes nothing about a market exactly when one label alone says yes |
| `Markets.ResolutionIgnoresOrder` | polymarket/markets.py:351-373 | permuting the arrays never changes who won |
| `Markets.YesWinsByLabel` | db/repositories/bets.py:59-72 | a YES bet is won exactly when the leg labelled yes is the only sure one, whatever the order at bet time and at the end |
| `Markets.NoWinsByLabel` | db/repositories/bets.py:59-72 | a NO bet is won exactly when the other leg is |
| `Markets.ExactlyOneSideWins` | db/repositories/bets.py:59-72 | one of two opposite bets wins and the other loses, unless the market is void and both stakes come back |
| `CappedBuy.OneClamp` | bot/handlers/discover.py:419-429 | capping the quote at intent time and clamping at order time is the one clamp the post used |
| `CappedBuy.CappedBuySpends` | polymarket/client.py:270-290 | an order is refused exactly when the stake is below a tick's worth; an accepted one is for a whole number of hundredths at the clamped price, costs at most the stake, and leaves less than a tick's worth unspent |
| `CappedBuy.LargestAffordableSize` | polymarket/client.py:281-286 | no larger whole number of ticks is affordable at the cap |
| `CappedBuy.CappedExactlyWhenQuoted` | bot/handlers/confirm.py:216-223 | a news order goes out without a price cap exactly when its allowed price is zero, whatever the stake, and is refused exactly when capped and below a tick's worth |
| `CappedBuy.ZeroQuoteIsUncapped` | bot/handlers/confirm.py:216-223 | a quote of zero is sent without a cap, although it is recorded at the price floor |
| `CappedBuy.RecordedAsOrdered` | bot/handlers/confirm.py:324-351 | for every accepted capped order the recorded entry is the order's price, a win credits the shares bought to within a tick, and exactly what the post advertised |
| `CappedBuy.WinningPays` | db/repositories/bets.py:66-70 | a won news bet returns more than its positive stake |
| `Markup.UnescapeInvertsEscape` | bot/news/publisher.py:35-40 | unescaping inverts escaping in front of any text |
| `Markup.EscapeSpells` | bot/news/publisher.py:35-36 | five characters are spelled as their entities wherever they stand, and no other |
| `Markup.UnescapeReads` | bot/news/publisher.py:39-40 | each of the five entities reads back as its character, and a character that begins none as itself |
| `Markup.StrippingInvertsPrinting` | bot/news/publisher.py:39-40 | stripping the tags of any printed message and unescaping gives back its plain text |
| `Caption.Fit` | bot/news/publisher.py:115-129 | the chopping loop ends and prints the escape of the specified plain text |
| `Caption.FitWithinBudget` | bot/news/publisher.py:115-129 | the printed text is within its budget, for every budget |
| `Caption.FitKeepsOrCuts` | bot/news/publisher.py:115-129 | a text is left whole exactly when its escape fits; otherwise it is nothing, or a proper prefix at least sixteen characters shorter with an ellipsis |
| `Caption.ChopStepsBySixteen` | bot/news/publisher.py:122-124 | the chopped text is empty, or a multiple of sixteen shorter and within the budget with room for the ellipsis |
| `Caption.ChopIsLongest` | bot/news/publisher.py:122-124 | no longer such cut would have fitted |
| `Caption.CutsAtAWordBoundary` | bot/news/publisher.py:125-128 | the cut falls before a blank or cut mark, unless what is kept has no blank past its first character |
| `Caption.WholeWordsMean` | bot/news/publisher.py:125-128 | to the character: without the blanks at its end the chopped text keeps what stands before its last blank, less the cut marks there, or all of it when it has no blank past its first character |
| `CaptionLayout.BuildCaption` | bot/news/publisher.py:132-165 | the assembly from printed parts prints the specified layout |
| `CaptionLayout.CaptionSays` | bot/news/publisher.py:132-165 | the caption to the character: bold title, question, summary, linked source and footer, each after a blank line; without the summary when that is over the cap |
| `CaptionLayout.TitleGetsTheRoom` | bot/news/publisher.py:139-142 | under a footer the title is whole exactly when it is within 40 characters, or within 220 and what link and footer leave of the cap |
| `CaptionLayout.SummaryGetsTheRoom` | bot/news/publisher.py:149-152 | the summary is cut to the room all other parts leave, and left out when that is 24 characters or less |
| `CaptionLayout.CaptionFits` | bot/news/publisher.py:161-165 | a caption is within the cap exactly when title, question, link and footer are |
| `CaptionLayout.GuaranteeHoldsExactly` | bot/news/publisher.py:132-165 | "never longer than the cap" holds for all titles, questions and summaries exactly when the tail leaves a stated number of characters |
| `CaptionLayout.SummaryNeverOverflows` | bot/news/publisher.py:149-165 | under a footer the summary never makes a post too long: a caption within the cap is the full one |
| `CaptionLayout.CaptionReadsBack` | bot/news/publisher.py:39-40 | the plain-text fallback of a caption is exactly its plain title, question, summary, link words and footer |
| `CaptionLayout.AnyCaptionReadsBack` | bot/news/publisher.py:39-40 | and for an over-long one the plain text of its short layout |
| `ClientCache.AccountManager.Pop` | polymarket/account_manager.py:98-102 | one key leaves the cache and its client is disposed |
| `ClientCache.AccountManager.PutClient` | polymarket/account_manager.py:129-134 | insertion at the recent end, then eviction from the old end, disposing each evicted client |
| `ClientCache.AccountManager.GetTradingClient` | polymarket/account_manager.py:61-78 | hit, expiry, failed load and build each leave exactly the specified cache and disposal log and return the specified client |
| `ClientCache.AccountManager.Invalidate` | polymarket/account_manager.py:96-106 | exactly the slot of the given key, or all slots of the user, are dropped and exactly their clients disposed |
| `ClientCache.AccountManager.Clear` | polymarket/account_manager.py:108-114 | everything is dropped and disposed |
| `ClientCacheHistory.CacheIsMostRecentLive` | polymarket/account_manager.py:129-134 | after any calls the cached keys are the most recently served live keys, in order, at most as many as the maximum |
| `ClientCacheHistory.LiveIsOrdered` | polymarket/account_manager.py:61-78 | the live keys are exactly those served since they were last dropped, in the order of those serves |
| `ClientCacheHistory.CachedIffNeverOutranked` | polymarket/account_manager.py:129-134 | a key is cached exactly when it is live and was never outranked by as many more recent live keys as the maximum |
| `ClientCacheHistory.HitReturnsTheSameClient` | polymarket/account_manager.py:67-71 | a hit returns the client the key was last served, still open and no older than the time to live |
| `ClientCacheHistory.GetHitsExactlyFreshSlots` | polymarket/account_manager.py:61-78 | a get returns the cached client exactly when it is no older than the time to live; an older one is disposed, and a client is built unless the credentials do not load |
| `ClientCacheHistory.EveryClientAccountedFor` | polymarket/account_manager.py:96-114 | every client ever built is in the cache once, or was disposed exactly once |
| `ClientCacheHistory.BuiltClientIsOpen` | polymarket/account_manager.py:75-78 | a client just built comes back open exactly when the cache may hold one at all |
| `RateLimiter.Limiter.constructor` | core/ratelimit.py:17-20 | a new limiter has accepted nothing |
| `RateLimiter.Limiter.Allow` | core/ratelimit.py:22-31 | the answer is the one that counting the key's whole accepted history in the closed window would give, and other keys are untouched |
| `RateLimiter.Limiter.Clear` | core/ratelimit.py:33-35 | every history starts again |
| `RateLimiter.Limiter.NoWindowOverflows` | core/ratelimit.py:22-31 | at every moment, no window of the limiter's length, wherever it starts, holds more than the limit for any key |
| `RateLimiter.EveryWindowIsBounded` | core/ratelimit.py:22-31 | checking only windows that end at an accepted event bounds every window |
| `UsageBudget.Ledger.Record` | db/repositories/gemini_usage.py:47-49 | one row is appended |
| `UsageBudget.Ledger.GenerateImage` | core/gemini.py:101-129 | an image is charged for exactly when the provider is set up and the week's image spend and its cost are within the budget; it is made exactly when the call then succeeds, and a failed call is recorded at no cost |
| `UsageBudget.Ledger.GenerateGeminiText` | core/gemini.py:228-256 | the same for text, with a text budget of zero or less meaning none |
| `UsageBudget.Ledger.GenerateClaudeText` | core/claude_text.py:108-133 | a call is made exactly when there is a client and the week's text spend is below the budget, if any; the reported cost is charged whether or not the call succeeded |
| `UsageBudget.ImageSpendWithinBudget` | core/gemini.py:112-127 | over any run of serialized calls every window's image spend is within the budget; the window is a week less the largest lag between a row's stamp and its gate |
| `UsageBudget.TextOvershootsByOneCall` | core/claude_text.py:119-129 | with a budget set, either provider's text passes it in any window by less than the last charge |
| `UsageBudget.EarlyStampBreaksTheWeek` | db/repositories/gemini_usage.py:17-49 | any positive lag lets a whole week exceed the budget |
| `UsageBudget.KindsAreSeparate` | db/repositories/gemini_usage.py:28-44 | text never eats into the image budget, nor images into the text budget |
| `UsageBudget.SpendAddsUp` | db/repositories/gemini_usage.py:28-44 | the spend of a window takes the cost of each of its rows once, however the ledger is split |
| `UsageBudget.GateSumsTheWindow` | db/repositories/gemini_usage.py:17-44 | what a gate sums is the spend of the window up to any moment no row is stamped after |
| `UsageBudget.NothingChargedAfter` | core/claude_text.py:119-129 | the last charge of a window, by which text may pass its budget, is the last |
| `MarketButtons.StashLookup` | bot/handlers/common.py:163-173 | a stashed market is found again under its index |
| `MarketButtons.Browser.Stash` | bot/handlers/common.py:163-168 | the stash becomes exactly the listed markets by index |
| `MarketButtons.Browser.ShowMarkets` | bot/handlers/discover.py:80-94 | a list starts a new generation, replaces the stash and shows one button per market |
| `MarketButtons.Browser.ShowMarketForBet` | bot/handlers/discover.py:302-340 | a market that is not open changes nothing; an open one starts a one-market list marked with the link's side and drops a pending amount; with at most one wallet it bets once, on that market and side, exactly when the side is quoted, and with more wallets not yet |
| `MarketButtons.Browser.OnBetAccount` | bot/handlers/discover.py:343-372 | a picked wallet bets on the list's market and the side its link named, exactly when it is still owned, the news list is showing and that side is quoted |
| `MarketButtons.Browser.ShowPanel` | bot/handlers/discover.py:184-192 | a panel repeats the tapped button for the market it resolves to, or nothing |
| `MarketButtons.Browser.OnBuyCustom` | bot/handlers/discover.py:456-468 | an amount is awaited only for a button that resolves, and for the side that was tapped |
| `MarketButtons.Browser.PlaceBetAmount` | bot/handlers/discover.py:392-442 | a bet is passed on exactly when the button resolves and, on the news list, its market is still open and quoted on that side |
| `MarketButtons.Browser.OnCustomAmount` | bot/handlers/discover.py:471-491 | an awaited amount is consumed once, and places only from the button and on the side it was armed for |
| `MarketButtons.StaleButtonsAreInert` | bot/handlers/discover.py:154-159 | a button shown at any moment acts at every later moment on its own market or on none, on its own exactly while no newer list was shown |
| `MarketButtons.PlacedBetsAreFaithful` | bot/handlers/discover.py:392-442 | a tapped or typed bet goes on exactly while its list is showing and, if the news funnel opened that list, the market is still open and quoted; always on its button's market and side |
| `MarketButtons.EveryBetWasShown` | bot/handlers/discover.py:302-442 | over every run and every way of placing, each bet is on a market some button with its generation and index showed, and is a news bet exactly when the funnel opened that generation |
| `MarketButtons.OpenedLinkBets` | bot/handlers/discover.py:302-340 | over the steps of a session: opening a link on an open market shows one button and, with at most one wallet, bets once on its market and side when quoted |
| `MarketButtons.PickedWalletBets` | bot/handlers/discover.py:343-372 | in every run, while the list a link opened is showing, an owned wallet picked for it bets once on that link's market and side exactly when quoted |
| `MarketButtons.OtherWalletPicksAreInert` | bot/handlers/discover.py:343-372 | a wallet picked for any other list changes nothing |
| `MarketButtons.UntappedBetsFollowTheirLink` | bot/handlers/discover.py:302-372 | over every run, a bet placed without a tapped side is on the market and the side of the link that opened its list |
| `MarketButtons.ArmedByItsButton` | bot/handlers/discover.py:456-468 | asking for an amount arms exactly the tapped button and side while its list is showing, and nothing after |
| `OrderConfirmation.Session.RequestOrder` | bot/handlers/confirm.py:64-97 | an intent is executed at once exactly when the user is known and opted out and it is no cancel-all, close, market sell or news bet; any other of a known user is stashed under its prompt's id, which replaces what that id stood for |
| `OrderConfirmation.Session.OnConfirm` | bot/handlers/confirm.py:102-111 | a tap takes the intent off the desk, and executes it exactly when it is no more than 120 seconds old |
| `OrderConfirmation.Session.OnDecline` | bot/handlers/confirm.py:114-119 | a decline takes it off the desk |
| `OrderConfirmation.ExecutesAtMostOnce` | bot/handlers/confirm.py:102-111 | no intent is executed twice in any run, even when ids repeat |
| `OrderConfirmation.ConfirmedByItsPrompt` | bot/handlers/confirm.py:81-111 | closes, market sells, cancel-all and news bets are executed only by a tap in time on a prompt shown for that intent |
| `OrderConfirmation.TimelyTapExecutes` | bot/handlers/confirm.py:92-111 | from any state, the first tap on a prompt executes its intent, whatever happens elsewhere meanwhile, exactly when it comes within 120 seconds |
| `OrderConfirmation.TapActsOnLatestPrompt` | bot/handlers/confirm.py:92-111 | in every reachable state a button acts on its own intent or on nothing, unless a later prompt drew its id |
| `OrderConfirmation.OwnButtonExactly` | bot/handlers/confirm.py:92-94 | no button of an earlier prompt will ever act on a new intent exactly when no earlier prompt has the id just drawn |
| `OrderConfirmation.RepeatedIdConfirmsAnother` | bot/handlers/confirm.py:92-111 | in every run, a request that draws the id of an earlier prompt lets that prompt's button execute the new intent |
| `OrderConfirmation.GoneStaysGone` | bot/handlers/confirm.py:102-119 | an intent that left the desk unexecuted is never executed later |
| `OrderConfirmation.DeclinedOrExpiredIsGone` | bot/handlers/confirm.py:102-119 | declining, or tapping too late, makes it such an intent |

## Left out

- Telegram, the market and model providers, HTTP routes, pages and the front end: their answers are parameters.
- SQL, the object mapper and migrations: tables are maps and sequences, unique keys are insert guards, savepoints are snapshot and restore. Deleting users or items, and the cascades, are not modelled.
- Floating point and column rounding: amounts, prices and rates are exact; the referral rates are whole percents.
- A clock that crosses midnight inside one bet: each placement has one day. Streak results assume days that do not go back.
- EconomyStore.Store.AttributeReferral: the lookup of a code is its parameter, the user the code belongs to if any.
- EconomyStore.Store.SettlementJob: the user's notification, and the commit of the whole batch failing, are not modelled. That every resolved bet is reached in time is not claimed: a pass asks about the first 100 markets and takes the 500 oldest open bets.
- EconomyRuns.AccuracyInRange: the rounding of the two figures for display is not modelled.
- The mini-app's separate recording of a bet and of its rewards after the order, one transaction failing without the other.
- Per-user delivery of news, which records after sending, and the digest text.
- Publishing order, the ten-item limit and the bet-relevance filter of the publish job; a rejected item can still be published by an attempt already under way, and nothing is claimed about it.
- NewsStore.Store.PublishJob: an attempt that raises midway is the crash step of the protocol, not of this method.
- NewsStore.Store.CurateNewsItem: the approval time, the image flags and the exclusion from automatic publishing are not modelled.
- NewsStore.Store.RenderItem: translations, image status and the deep link set on the row; the call to action is its parameter.
- The relevance scoring that matches an article to an event, and the language model that picks among candidates.
- DeepLink.OnlyBetLinksBet: digits are ASCII; other decimal digits the language accepts are not modelled.
- Markup.UnescapeInvertsEscape: unescaping is modelled for the five entities the printer writes; other entities cannot occur in printed text.
- CaptionLayout.BuildCaption: the choice of translation and the removal of a repeated headline from the summary happen before it.
- Markets.ParseResolution: prices that are not numbers are absent; the decoding of the upstream arrays is not modelled, and lower case is that of ASCII letters.
- CappedBuy.RecordedAsOrdered: how the exchange fills an order is not modelled; an accepted order is taken as bought at its size.
- ClientCache.AccountManager.GetTradingClient: each call is atomic. The per-key locks, their reclamation and builds that overlap are not modelled, nor the read-only client.
- UsageBudget.ImageSpendWithinBudget: calls do not overlap and the budget does not change between them.
- MarketButtons.Browser.PlaceBetAmount: market data answers are taken to be about the market asked for; which wallet was picked, and the amount, are not modelled.
- MarketButtons.StaleButtonsAreInert: one process lifetime; the generation counter starts again with the process.
- OrderConfirmation.ExecutesAtMostOnce: the exchange's answer to an execution, and a retry by the exchange, are not modelled.
- Stored pending bets of users who have not connected yet, including which of several taps is resumed.
- Encryption, signing, request validation and redaction; translations, configuration, keyboards and leaderboard queries: none of them carries state that the parts above depend on.
