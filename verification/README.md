# Gate Trade: a verified model

This project models the trading core of Gate Trade, a spot accumulation and market-making bot, in
Dafny and proves what its components keep over every run. It covers one orchestrator, `Bot`, and the
stateful components that it drives. Each of these keeps a fast, incremental structure (a bucket, a
trimmed deque, a sorted list beside a price map, a pair of dictionaries, a ratchet) that should agree
with a simple function of everything that has happened. That agreement, and what the simple function
then guarantees, is what is proved.

`dafny verify dfyconfig.toml` checks everything.

## How it is laid out

One file follows one source file or a small group of them. In most files a first module holds the
specification (values, step and run functions, and the lemmas about all runs), and a second one the
class whose methods update fields in place, as the source does. The classes carry ghost fields with
the full history, and every method's contract ties the new fields to the run of that history, so the
lemmas about runs hold of every sequence of calls.

| file | source | subject |
|---|---|---|
| Clocks.dfy | `time.monotonic`, `asyncio.sleep` | readings that never go back |
| RateLimiter.dfy | guardrails/rate_limiter.py | the token bucket |
| ConfigPaths.dfy | config/schema.py | nested configurations and dotted overrides |
| MarketData.dfy | market/market_data.py | the order book, depth, VWAP, mids, signals |
| Rounding.dfy | tick alignment, `round`, `int` | half-to-even rounding and whole milliseconds |
| OrderEngine.dfy | order/order_engine.py, the end of bot.py | open orders, tags, reconciliation, shutdown |
| Markout.dfy | markout/recorder.py | markout records |
| Replay.dfy | replay/engine.py, replay/metrics.py, markout/toxic.py | replay, metrics, toxicity |
| ReplayState.dfy, ReplayMarks.dfy | replay/engine.py | simulated fills and what waits between runs; where fills and their marks come from |
| ReplayShare.dfy, ReplayOvershoot.dfy | replay/engine.py | when the toxic ratio is a share |
| Accumulator.dfy | strategy/accum.py | the ratchet ladder and its suspension |
| Averages.dfy, Windows.dfy | shared | means; trimmed deques against full histories |
| RefPrice.dfy | price/ref_price_engine.py | reference price, spike protection, TWAP |
| Trickle.dfy, Verify.dfy, Probe.dfy, Iceberg.dfy | smasher/ | order splitting, Welch test, probe and iceberg windows |
| StateMachine.dfy, Cooldown.dfy, Risk.dfy | state/, risk/ | lifecycle, timers, limits |
| Bot.dfy, BotRuns.dfy, BotRisk.dfy | bot.py | the control loop over all of these; what its runs guarantee; what it knows and when that stops it |
| BotOrders.dfy, BotLoop.dfy, BotWitness.dfy | bot.py | the orders that a run tracks; the loop with its order engine; concrete runs |

Prices, sizes and times are exact reals, and rounding is modelled where the code rounds. The clock is
an input: a reading is never before the previous one. The exchange is an object that answers, refuses,
breaks or trades as it likes, within what an exchange can do to its own list of orders. Exceptions are
result values. A dictionary's iteration order is left open. Random draws, square roots, type
conversions and the strategies' wishes during a tick are inputs. `Times(x, y)` is the product of x and y,
which proofs treat as a whole.

## What the proofs found

Where the code falls short of its documentation or of a natural reading, the model follows the code, the
exact condition is proved, and a lemma shows an input on which it falls short.

- `apply_snapshot` does not merge repeated prices. The sorted list and the price map agree from then on
  exactly when the last snapshot repeats no price (`BookSides.SnapshotLists`, `LiveBook.DeltaHolds`,
  `BookSides.RepeatedPriceSplits`).
- The flash-crash check of the book is documented as a drop. It is set exactly by a drop or by a rise, so
  it means a drop if and only if a rise comes with one, as when no recent rise reaches the threshold
  (`BookSides.FlashCrashSplits`, `BookSides.FlagMeansDropWhen`, `BookSides.RiseIsFlagged`).
- With a rung spacing of one tick, half-to-even rounding makes two neighbouring rungs coincide exactly at
  an even number of ticks and a half (`Ladders.OneTickRungsCoincide`, `Ladders.EqualRungs`).
- A price is checked before it is aligned: a positive price is submitted as zero exactly when it is half
  a tick or less (`Rounding.AlignStaysPositive`), and an accepted one can be submitted up to half a tick outside
  of the band of 20 percent. All are submitted within it exactly when its two ends are, when aligned
  (`OrderEngines.BandWithinHalfTick`, `OrderEngines.BandIsKeptWhen`, `OrderEngines.AcceptedButChanged`).
- Sizes are documented as truncated but are rounded. They are as documented exactly when the seventh and
  later digits round down; a size is submitted as zero exactly when it is at most 0.0000005
  (`Rounding.SizeIsTruncatedWhen`, `Rounding.SizeStaysPositive`, `OrderEngines.AcceptedButChanged`).
- `cancel_all` asks the exchange exactly when an order of the pair is tracked, so after a restart it
  cancels nothing until a reconciliation (`CancelAll`, `OrderEngines.RestartedCancelAll`, `Shutdown`).
- An override raises exactly when it runs through a leaf, as far as conversions only raise what the code
  suppresses (`ConfigPaths.MergeLaw`, `ConfigPaths.OverrideThroughLeaf`). The flatten and override round
  trip holds exactly for configurations without empty sections, dotted keys or an unnamed section
  (`ConfigPaths.RoundTripExactly`, `ConfigPaths.LostOnTheWay`).
- Starting a cooldown replaces the deadline, so a shorter start ends a longer cooldown early. All starts
  count exactly when the latest ends last (`Cooldowns.EveryStartCountsWhen`,
  `Cooldowns.ShorterStartEndsEarly`).
- `int` truncates the remaining milliseconds twice, so a spike cooldown can end before the protection, by
  less than 2 ms and by every gap below that (`BotSteps.LadderNeeds`, `BotSteps.LadderEndsEarly`,
  `BotWitnesses.LadderUnderProtection`).
- The spike flag only expires when it is read, after the check for spikes, and a spike seen while it is set
  neither renews nor extends the protection. So a spike is protected for the whole cooldown if and only if no
  protection was flagged, or one with that very end; seen with an expired one still flagged, it does not even
  stop the ladder of its own tick (`BotRuns.ProtectsForCooldownWhen`, `BotRuns.SpikeUnprotected`,
  `BotWitnesses.SpikeUnseen`).
- An own best price is documented to be replaced by the next best level; it is replaced by nothing. The mid is
  the documented one exactly when on neither side another price lies behind an own best one
  (`RefPricing.MidIsDocumentedWhen`, `RefPricing.OwnBidIsNotReplaced`).
- A spike raises in the tick, and ends the run, exactly in the live states other than RUNNING and
  COOLDOWN_PRICE_SPIKE (`BotSteps.RaisesWhen`, `BotSteps.SpikeDuringFillCooldown`). From INIT no run gets
  there (`BotRuns.NeverRaises`).
- The crash check of the risk manager is documented against the recent high, and is against the highest mid
  ever. The two come out the same exactly when the mid is not between what crashes against the one and against
  the other (`Risks.HighIsRecentWhen`, `Risks.OldHighCounts`).
- The risk manager resumes by itself (`Risks.HaltClearsAlone`), as documented. Under the bot it cannot:
  EMERGENCY ticks return before the evaluation, so a halt never clears and the cap cooldown never starts
  (`BotRuns.CapCooldownNeverStarts`).
- The loop hands over the whole ladder again in every tick, and the engine's list of open orders, which the
  risk check counts, only ever grows while the loop runs: a trade takes nothing off it. So with nothing else
  in the way and every order confirmed, the bot is in EMERGENCY, for good, exactly from the first tick on
  that finds the limit on open orders reached (`BotOrders.HaltsExactly`, `BotOrders.HaltsInTick`, for the
  objects `BotLoops.Loop`). With the default settings that is the third tick
  (`BotWitnesses.ThirdTickHalts`, `BotWitnesses.DefaultLadder`).
- A suspended accumulator is documented to resume when the price recovers. It does so exactly when it is
  asked for orders then (`Ladders.SuspensionEndsWhen`); but the bot calls only active strategies, so under
  it a suspension lasts until a reset (`Ladders.SuspendedForGood`, `Accumulation.ServeTick`,
  `Ladders.NeverBack`).
  A halt suspends without setting the trigger, so if the strategy is asked, that suspension lasts exactly
  below the recovery level of the latest collapse, and not at all without one (`Ladders.HaltLastsWhen`).
- Compliance orders are documented to keep a quote on each side. They are one order for each strategy, and
  quote a side exactly when some active strategy's first desired order is on it
  (`BotSteps.ComplianceQuotesWhen`, `BotSteps.OneSidedCompliance`).
- `ReplayEngine.run` resets only the metrics, so verdicts on fills of an earlier run count against the
  fills of the next. With nothing waiting the toxic ratio is always a share of the fills. Otherwise it is
  one for every later feed in order of time with positive mids if and only if none of the waiting records
  could still turn out toxic: none is large in its window, not excluded by the marks it has, and, if it is
  a sell, adverse at any positive mid
  (`ReplayShares.NothingWaitsShares`, `Overshoots.ShareExactly`, `Replays.ReplayEngine.NextRatioIsShare`).
  Two runs of which the second reports a ratio above 1 are `Overshoots.SecondRunExceeds` and
  `Replays.SecondRun`.
- A trickle can produce empty chunks for ever exactly when the minimum chunk is at most one unit and its
  full downward jitter leaves at most half a unit, or less than half if the jitter is negative
  (`Trickle.StopsExactlyWhen`, `Trickle.EmptyForEver`). Its chunks sum to the total exactly when that is a
  whole number of 1e-8 units (`Trickle.ExactOnlyForWhole`, `Trickle.OneAndAHalfUnits`).
- A Welch comparison divides by zero exactly when a sample is empty, or one is single and there is some
  variance (`Welch.DividesByZeroWhen`, `Welch.SingleSampleDividesByZero`).
- The probe detector is documented to use a rolling window of sizes; only the probes expire, the mean is
  over all fills since the last reset. The verdicts agree while no fill is older than the window, and on
  every size of the next fill exactly when both readings flag none or have the same least size
  (`Probing.ReadingsAgree`, `Probing.ReadingsAgreeWhen`, `Probing.ReadingsDiffer`).
- An iceberg is documented as a size that is consumed and refilled several times; every rise of the size counts.
  The count is that of the refills exactly when the size was consumed before every rise, and the first and last
  size in the window guarantee a drop exactly when the last is no larger
  (`Icebergs.RisesCountRefillsWhen`, `Icebergs.RisesImplyDropWhen`, `Icebergs.GrowthSignals`).
- A fast reversal is documented as a move against us; a move in our favour counts as well. It means the
  documented one exactly when no move in our favour does it alone
  (`Toxicity.ReversalIsAgainstUsWhen`, `Toxicity.FavourableReversal`).

## Hypotheses

- Exchange order ids are fresh and keep their pair and tag. Exactness of the tag index also needs tags
  that are distinct and not empty, because generated tags restart with every process, and `place`
  indexes an empty tag that `cancel` never removes (`Tracking.RepeatedTagLost`, `Tracking.EmptyTagStays`).
- Ladder lemmas take a positive tick of whole 1e-8 units and a spacing that is not negative.
- VWAP lemmas take positive prices and sizes; the comparison of the documented mid takes positive prices and a
  book that is not crossed.
- The spike window is not negative, and where a tick compares deadlines, clock readings are positive, as
  the code's use of 0.0 for "no deadline" supposes.
- The exact conditions for the toxic ratio and the probe verdict take positive fill sizes, and the former
  fills and feeds in order of time and positive mids. The probe thresholds are as usual: the
  small quantile is not negative and below the large multiple.
- A conversion `type(old)(value)` is arbitrary, but either succeeds or raises a suppressed TypeError or
  ValueError. The round trip's "only if" supposes that a section made of a value has only parts of it, as
  `dict` of a string or a list has.
- One exchange call of the engine is awaited before the next is made, as the bot does.

## Model

| member | source | states |
|---|---|---|
| TokenBucket.SlidingWindow | src/gate_trade/guardrails/rate_limiter.py:32-57 | in every run without a reset, between any two clock readings s <= t at most burst + rate * (t - s) tokens are granted |
| TokenBucket.TokensInRange | src/gate_trade/guardrails/rate_limiter.py:77-81 | after any calls the bucket holds between 0 and its capacity, and its time stamp is the last reading |
| TokenBucket.TokensAreLeastRoom | src/gate_trade/guardrails/rate_limiter.py:77-81 | the token count is the least room that any window since the start leaves, so the bucket enforces the window bounds and nothing more |
| TokenBucket.GrantRule | src/gate_trade/guardrails/rate_limiter.py:51-57 | a take is granted if and only if, counting it, every window back to an earlier call and to the start stays within capacity + rate * its length |
| TokenBucket.RefillComposes | src/gate_trade/guardrails/rate_limiter.py:77-81 | refilling at s and then at t is refilling once at t |
| TokenBucket.PollingIsInvisible | src/gate_trade/guardrails/rate_limiter.py:51-63 | an extra read, or an extra attempt that gets no token, changes no later grant and no later token count |
| TokenBucket.OnlyGrantsMatter | src/gate_trade/guardrails/rate_limiter.py:51-63 | replaying only the granted calls of a run grants all of them and leaves the same bucket |
| RateLimiting.RateLimiter.Create | src/gate_trade/guardrails/rate_limiter.py:19-28 | the limiter is created exactly for burst >= 0, rate > 0 and max_wait >= 0, full of tokens |
| RateLimiting.RateLimiter.TryAcquire | src/gate_trade/guardrails/rate_limiter.py:51-57 | records one take at the reading, granted if and only if capacity and the tokens with rate * the time since the last reading are at least 1; that is the grant rule of the whole history |
| RateLimiting.RateLimiter.Available | src/gate_trade/guardrails/rate_limiter.py:59-63 | a read that takes nothing and reports a count within 0 and the capacity |
| RateLimiting.RateLimiter.Reset | src/gate_trade/guardrails/rate_limiter.py:70-73 | a new run starts here with a full bucket |
| RateLimiting.RateLimiter.Acquire | src/gate_trade/guardrails/rate_limiter.py:32-49 | terminates after a bounded number of 50 ms polls; all but the last attempt fail; giving up means the whole wait was served and less than a token came in, so with burst >= 1, rate * max_wait >= 1 and one clock value per turn it returns True |
| ConfigPaths.SplitJoin | src/gate_trade/config/schema.py:133 | splitting a joined dot-free path gives the path back |
| ConfigPaths.JoinSplit | src/gate_trade/config/schema.py:133 | joining a split key gives the key back |
| ConfigPaths.SameLeavesSameConfig | src/gate_trade/config/schema.py:118-127 | without empty sections a nested configuration is determined by its leaves |
| ConfigPaths.Flatten | src/gate_trade/config/schema.py:118-127 | the recursive loop gives exactly one entry for each flat key of a leaf, with the value of such a leaf |
| ConfigPaths.FlatForm | src/gate_trade/config/schema.py:118-127 | for a configuration without empty sections, dotted keys or unnamed sections, flat keys and leaf paths correspond one to one |
| ConfigPaths.FlatEntry | src/gate_trade/config/schema.py:118-127 | looking up a flat key is looking up the leaf at the split path |
| ConfigPaths.PutNodes | src/gate_trade/config/schema.py:133-144 | one override succeeds exactly when no leaf lies strictly above its path; it then leaves at its path the value, or what the conversion to the replaced type makes of it, sections included, and everything that is not above or below stays |
| ConfigPaths.WrittenMeans | src/gate_trade/config/schema.py:133-144 | an override leaves at its path what the conversion to the value or section that was there makes of it; a null, or an override of nothing, is left as it is |
| ConfigPaths.ApplyOverrides | src/gate_trade/config/schema.py:130-145 | the loop applies every override once, in some iteration order |
| ConfigPaths.MergeLaw | src/gate_trade/config/schema.py:82-90 | for any base, the overrides of a flattened configuration apply in any order exactly when none runs through a leaf of the base; the result has at each overriding path the value, converted to the type of the leaf or section it replaces, and elsewhere what the base has |
| ConfigPaths.MergeLocal | src/gate_trade/config/schema.py:82-90 | loading a local file over any base applies the entries of its flat form, in some order; for a flattenable one that gives that merge, and fails exactly in that case |
| ConfigPaths.OverrideThroughLeaf | src/gate_trade/config/schema.py:135-139 | the override of a.b into a configuration with a value at a raises |
| ConfigPaths.MergeFlattens | src/gate_trade/config/schema.py:117-145 | for any conversion, a merge has a faithful flat form if and only if no override leaves an empty section or a dotted key; it is then the flat form of the base, overlaid at and below each overriding key by the leaves of what is left there |
| ConfigPaths.MergeOfValues | src/gate_trade/config/schema.py:117-145 | when a value that replaces a section stays a value, the keys of the merge are those of the overrides and the keys of the base that none of them shadows, with the values of the overrides, converted |
| ConfigPaths.RoundTrip | src/gate_trade/config/schema.py:117-145 | writing a flattened configuration into an empty one gives it back, in any iteration order |
| ConfigPaths.RoundTripExactly | src/gate_trade/config/schema.py:117-145 | the round trip holds if and only if the configuration has no empty section, no dotted key and no unnamed section, also when conversions such as dict of an empty string succeed |
| ConfigPaths.NoConversions | src/gate_trade/config/schema.py:140-143 | in a round trip no override ever turns a section into another one |
| ConfigPaths.LostOnTheWay | src/gate_trade/config/schema.py:117-145 | an empty section and a dotted key do not survive the round trip |
| BookSides.ListingIsUnique | src/gate_trade/market/market_data.py:129-132 | a price map has only one sorted listing |
| BookSides.SortLevelsSorts | src/gate_trade/market/market_data.py:129-130 | sorting a snapshot side is a sorted permutation of it, strictly sorted when no price repeats |
| BookSides.SortKeepsPriceMap | src/gate_trade/market/market_data.py:129-132 | the price map read off the sorted side is the one read off the snapshot: the last of equal prices wins |
| BookSides.SnapshotLists | src/gate_trade/market/market_data.py:127-135 | after a snapshot list and price map agree if and only if the snapshot repeats no price |
| BookSides.RepeatedPriceSplits | src/gate_trade/market/market_data.py:127-135 | a snapshot with a price given twice leaves the sorted list longer than the price map |
| BookSides.ListsByCount | src/gate_trade/market/market_data.py:137-162 | a list that covers a map agrees with it exactly when it is no longer than the map |
| BookSides.RemovalCovers | src/gate_trade/market/market_data.py:148-150 | removing the mapped level from the list and its price from the map keeps the list covering the map |
| BookSides.InsertionCovers | src/gate_trade/market/market_data.py:152-159 | inserting at the bisection point keeps the list sorted and covering the map |
| LiveBook.SnapshotHolds | src/gate_trade/market/market_data.py:127-135 | a snapshot establishes, for every earlier run, that the map is the content of the run and the list covers it |
| LiveBook.DeltaHolds | src/gate_trade/market/market_data.py:137-162 | a delta keeps the map equal to the plain content of the run, and list and map equal if the last snapshot repeated no price |
| BookSides.DeltaMeans | src/gate_trade/market/market_data.py:137-162 | a delta sets the size of its price on its side, or removes the price if the size is not positive; other prices and the other side stay |
| BookSides.SnapshotMeans | src/gate_trade/market/market_data.py:127-135 | a snapshot leaves at each price the size of its last level there, and nothing else |
| LiveBook.BisectLeft | src/gate_trade/market/market_data.py:156-158 | the binary search finds the first place where the key can go |
| LiveBook.LiveMarketData.ApplySnapshot | src/gate_trade/market/market_data.py:127-135 | replaces both sides by their sorted levels, keeps the book invariant, and records one more mid, halfway between the best prices, exactly when both are there and positive |
| LiveBook.LiveMarketData.UpdateSide | src/gate_trade/market/market_data.py:147-159 | on any covered side the removal never fails, and the map changes like a plain map that is set or cleared at the price |
| LiveBook.LiveMarketData.ApplyDelta | src/gate_trade/market/market_data.py:137-162 | updates one side, leaves the other alone, keeps the book invariant, and records such a mid |
| BookSides.NothingDeeper | src/gate_trade/market/market_data.py:96-103 | past the first level worse than the price a sorted side adds nothing |
| BookSides.DepthAdds | src/gate_trade/market/market_data.py:86-104 | depth adds up over the levels, and a level counts with its size exactly when its price is no worse than the given one |
| LiveBook.LiveMarketData.DepthAtPrice | src/gate_trade/market/market_data.py:86-104 | the early-exit scan returns the full filtered sum that the mock computes |
| BookSides.CostIsCapped | src/gate_trade/market/market_data.py:114-122 | the execution walk spends the notional, or all there is |
| BookSides.BoughtIsCapped | src/gate_trade/market/market_data.py:114-122 | once the side is exhausted nothing more is bought |
| BookSides.BoughtIsLipschitz | src/gate_trade/market/market_data.py:114-122 | between two notionals the amount bought grows by no more than the best price allows |
| BookSides.BoughtPerNotional | src/gate_trade/market/market_data.py:114-123 | the amount bought per unit of notional never improves with the notional |
| BookSides.VwapIsMonotone | src/gate_trade/market/market_data.py:106-123 | VWAP never moves towards the best price as the notional grows: non-decreasing on the asks, non-increasing on the bids |
| BookSides.VwapIsCapped | src/gate_trade/market/market_data.py:106-123 | VWAP is constant once the side is exhausted |
| BookSides.VwapIsBetween | src/gate_trade/market/market_data.py:106-123 | VWAP lies between the best price and the price of the last level touched |
| BookSides.WalkMeans | src/gate_trade/market/market_data.py:106-123 | the walk takes the levels before the last touched one whole, for less than the notional, and of that one as much as the rest of the notional buys at its price, or all of it if the side ends there |
| BookSides.VwapMeans | src/gate_trade/market/market_data.py:106-123 | the VWAP times what is bought is what it costs |
| LiveBook.LiveMarketData.VwapFor | src/gate_trade/market/market_data.py:106-123 | the accumulator loop computes that VWAP, and 0 for no notional or an empty side |
| LiveBook.RingRecords | src/gate_trade/market/market_data.py:218-228 | recording a mid keeps the ring holding the last mids of the history, also across wrap-around |
| LiveBook.LiveMarketData.RecentMids | src/gate_trade/market/market_data.py:205-216 | the ring yields exactly the last min(count, 128) mids, newest first |
| BookSides.FlashCrashMeans | src/gate_trade/market/market_data.py:192-203 | a flash crash is flagged if and only if two of the recent mids, in either order of time, lie the threshold apart |
| BookSides.FlashCrashSplits | src/gate_trade/market/market_data.py:192-203 | the flag is set if and only if among the recent mids one dropped by the threshold below an earlier one, or rose so that the earlier one is the threshold below it |
| BookSides.FlagMeansDropWhen | src/gate_trade/market/market_data.py:192-203 | the flag is the documented drop if and only if a rise of that size comes with a drop; so whenever no recent rise reaches the threshold |
| BookSides.RiseIsFlagged | src/gate_trade/market/market_data.py:192-203 | a rise from 100 to 106 without any drop is flagged at 0.05 |
| LiveBook.LiveMarketData.DetectFlashCrash | src/gate_trade/market/market_data.py:192-203 | the flag is that of the full history of mids |
| BookSides.ImbalanceInRange | src/gate_trade/market/market_data.py:246-257 | the imbalance lies between -1 and 1 for books without negative sizes |
| BookSides.MidMeans | src/gate_trade/market/market_data.py:77-84 | the mid is as far above the best bid as below the best ask, and 0 unless both are positive |
| BookSides.SpreadMeans | src/gate_trade/market/market_data.py:70-75 | the spread in basis points times the midpoint is 10000 times the difference of the best prices, and 0 for a crossed or one-sided book |
| BookSides.DepthWallMeans | src/gate_trade/market/market_data.py:232-244 | a side shows a wall if and only if it has five levels, some size among the ten best, and one of these has five times their mean size |
| BookSides.ImbalanceMeans | src/gate_trade/market/market_data.py:246-254 | the imbalance times the size of the ten best levels of both sides is that of the bids less that of the asks |
| BookSides.RecentMeans | src/gate_trade/market/market_data.py:205-216 | the recent mids are the last 128 or all, from the newest back |
| LiveBook.LiveMarketData.ComputeSignals | src/gate_trade/market/market_data.py:166-180 | the cached answer always equals a fresh computation from the current book and history, and says what it should of the drop or rise, the walls, the spread and the imbalance |
| Rounding.RoundsToNearest | src/gate_trade/order/order_engine.py:244-246 | the rounding takes a nearest integer, the even one of two |
| Rounding.NearestIsUnique | src/gate_trade/order/order_engine.py:244-246 | no other integer satisfies that |
| Rounding.TruncatesTowardsZero | src/gate_trade/state/state_machine.py:112-117 | int cuts the digits off towards zero |
| Rounding.AlignIsMultiple | src/gate_trade/order/order_engine.py:244-246 | for a tick of whole 1e-8 units the aligned price is a multiple of the tick |
| Rounding.AlignIsNear | src/gate_trade/order/order_engine.py:244-246 | alignment moves a price by at most half a tick |
| Rounding.AlignIsRounded | src/gate_trade/order/order_engine.py:244-246 | for any tick an aligned price has at most eight digits and is, up to half a unit of the eighth, a multiple of the tick that is nearest to the price |
| Rounding.AlignIdempotent | src/gate_trade/order/order_engine.py:244-246 | aligning twice is aligning once |
| Rounding.AlignMonotone | src/gate_trade/order/order_engine.py:244-246 | alignment keeps the order of prices |
| Rounding.AlignStaysPositive | src/gate_trade/order/order_engine.py:244-255 | an accepted positive price is submitted as a positive price if and only if it is more than half a tick |
| Rounding.SizeIsTruncatedWhen | src/gate_trade/order/order_engine.py:248-250 | a submitted size is the documented truncation, and no more than what was asked for, if and only if what lies beyond the sixth digit is below one half, or one half above an even digit; otherwise it is one unit more |
| Rounding.SizeIsRounded | src/gate_trade/order/order_engine.py:248-250 | a submitted size has at most six digits and is within half a unit of the sixth of the size |
| Rounding.SizeStaysPositive | src/gate_trade/order/order_engine.py:248-255 | an accepted size is submitted as a positive size if and only if it is more than 0.0000005 |
| Tracking.LookupIsSound | src/gate_trade/order/order_engine.py:184-187 | looking up a tag only ever finds an open order with that tag; with an exact index it finds one whenever there is one |
| Tracking.TrackKeeps | src/gate_trade/order/order_engine.py:117-120 | a confirmed order keeps the index sound, and exact under distinct non-empty tags |
| Tracking.UntrackKeeps | src/gate_trade/order/order_engine.py:137-140 | dropping orders keeps the index sound, and exact under distinct tags |
| Tracking.ReconciledKeeps | src/gate_trade/order/order_engine.py:205-222 | reconciliation keeps the index sound, and exact under distinct tags |
| Tracking.ExactIndexIsUnique | src/gate_trade/order/order_engine.py:184-187 | there is only one exact index for the open orders |
| Tracking.EmptyTagStays | src/gate_trade/order/order_engine.py:117-140 | an order confirmed with an empty tag leaves an index entry behind when it is dropped |
| Tracking.RepeatedTagLost | src/gate_trade/order/order_engine.py:117-140 | of two orders with one tag, once the later is dropped, the other is open but not found by its tag |
| Tracking.ReconcileConverges | src/gate_trade/order/order_engine.py:191-222 | after a reconciliation the local orders of the pair are the exchange's, and those of other pairs are untouched |
| Tracking.ReconcileTwice | src/gate_trade/order/order_engine.py:191-234 | a second reconciliation reports no orphan and changes no order |
| Tags.TagsAreDistinct | src/gate_trade/order/order_engine.py:278-280 | generated tags are non-empty, and equal only for the same pair and nonce |
| Tags.TagReads | src/gate_trade/order/order_engine.py:278-280 | a generated tag is gt, the pair and the nonce in decimal without leading zeros, with colons between |
| Exchanges.Exchange.FetchOpenOrders | src/gate_trade/order/order_engine.py:199-203 | the remote side lists its open orders of the pair in any order, or fails |
| OrderEngines.LiveOrderEngine.Place | src/gate_trade/order/order_engine.py:71-123 | rejects exactly the non-positive or out-of-band requests and those without a token, before anyone is asked; otherwise submits the request once, at its aligned price and rounded size, under its own tag or a new one, and the answer decides: accepted, the order is tracked and indexed and its tag no longer pending; refused, neither; broken off, its tag stays pending |
| OrderEngines.PlaceAll | src/gate_trade/bot.py:346-358 | placing the orders of a tick one after another, while the exchange trades as it likes, submits exactly those that pass the checks and have a token, in turn, and makes the list of tracked orders longer by exactly the accepted ones: at most one for each request, of its pair and side, at its aligned price and rounded size; none leaves the list or changes |
| OrderEngines.LiveOrderEngine.Cancel | src/gate_trade/order/order_engine.py:125-142 | asks the exchange exactly for a tracked order; a success removes it on both sides, any other answer leaves the local state alone, though a broken call may have cancelled remotely; the index stays exact under distinct tags |
| OrderEngines.LiveOrderEngine.CancelByTag | src/gate_trade/order/order_engine.py:144-149 | cancels the order that the tag finds; without one it asks nobody and changes nothing |
| OrderEngines.LiveOrderEngine.CancelAll | src/gate_trade/order/order_engine.py:151-169 | asks the exchange, once, exactly when an order of the pair is tracked; a success empties both sides of the pair, a failure leaves the local state alone and may have cancelled some orders of the pair |
| OrderEngines.RestartedCancelAll | src/gate_trade/order/order_engine.py:151-169 | a restarted engine that tracks nothing cancels nothing, and the order stays open at the exchange |
| OrderEngines.AcceptedButChanged | src/gate_trade/order/order_engine.py:71-104 | requests that pass the checks and are submitted at price zero, with size zero, larger than asked for, or more than 20 percent above the reference |
| OrderEngines.BandWithinHalfTick | src/gate_trade/order/order_engine.py:244-272 | with a tick of whole 1e-8 units an accepted price is submitted at most half a tick outside of the band of 20 percent around the reference |
| OrderEngines.BandIsKeptWhen | src/gate_trade/order/order_engine.py:244-272 | every accepted price is submitted within the band if and only if the two ends of the band are, when aligned |
| OrderEngines.LiveOrderEngine.OpenOrderByTag | src/gate_trade/order/order_engine.py:184-187 | a found order is open and has the tag |
| OrderEngines.LiveOrderEngine.Reconcile | src/gate_trade/order/order_engine.py:191-234 | asks once for the open orders; with an answer the pair's orders become the exchange's, other pairs stay, and the tags of the exchange's unknown orders are returned; without one nothing changes |
| OrderEngines.LiveOrderEngine.Shutdown | src/gate_trade/bot.py:447-452 | asks for the open orders, and then for their cancellation exactly if the pair has any, as the answer tells or as tracked; when both get through, no open order of the pair is left on either side, even with orphans, stale entries and trades in between |
| MarkoutLog.MarksAreFirst | src/gate_trade/markout/recorder.py:71-94 | over any later events a record's mid for 1, 5 or 30 seconds is the mid of the first update that is late enough |
| MarkoutLog.ApplyKeepsPrefix | src/gate_trade/markout/recorder.py:80-91 | the marked intervals stay a prefix of 1, 5, 30; a complete record changes no more; a flush completes every record |
| MarkoutLog.EvolvedAt | src/gate_trade/markout/recorder.py:71-94 | each fill of the log is one of the records, and the later events made it so |
| MarkoutLog.ApplyTouchesOpen | src/gate_trade/markout/recorder.py:71-94 | an update of all fills is the same as an update of the pending ones only |
| MarkoutLog.EvolvedStaggered | src/gate_trade/markout/recorder.py:71-94 | with fills in time order an earlier fill has every mark that a later one has |
| MarkoutLog.DoneFirst | src/gate_trade/markout/recorder.py:71-94 | then the complete records come before the pending ones |
| MarkoutRecording.MarkoutRecorder.OnFill | src/gate_trade/markout/recorder.py:53-69 | adds one pending record, and nothing else changes |
| MarkoutRecording.MarkoutRecorder.UpdateMid | src/gate_trade/markout/recorder.py:71-94 | the in-place loop keeps every fill exactly once among drained, completed and pending |
| MarkoutRecording.MarkoutRecorder.Completed | src/gate_trade/markout/recorder.py:96-100 | hands out the completed records once |
| MarkoutRecording.MarkoutRecorder.Flush | src/gate_trade/markout/recorder.py:125-140 | completes everything pending with the last known mid |
| MarkoutRecording.MarkoutRecorder.EveryFillIsMarked | src/gate_trade/markout/recorder.py:53-100 | at any time every fill logged is among the records, each mark the mid of the first update late enough |
| MarkoutRecording.MarkoutRecorder.Conserved | src/gate_trade/markout/recorder.py:53-140 | no fill is lost or counted twice; with fills in time order drained ++ completed ++ pending is the fill sequence |
| MarkoutRecording.BpsMeans | src/gate_trade/markout/recorder.py:107-123 | a markout times the mid at the fill is 10000 times what the mid fell after a buy, or rose after a sell, from the fill price to its 30 second mark |
| Toxicity.WindowSlides | src/gate_trade/markout/toxic.py:43 | the bounded deque of sizes is the last window of the history |
| Toxicity.ToxicAtMostAll | src/gate_trade/markout/toxic.py:63-85 | no more fills are toxic than were judged |
| Toxicity.FewFillsAreNotToxic | src/gate_trade/markout/toxic.py:93-99 | below four fills in the window nothing is toxic |
| Toxicity.ToxicMeans | src/gate_trade/markout/toxic.py:63-106 | a verdict is toxic if and only if the markout is at most the threshold, the size times the number of the last sizes, itself included and four or more, is the multiple of their total, and the first mid lies the reversal threshold away |
| Toxicity.ReversalIsAgainstUsWhen | src/gate_trade/markout/toxic.py:101-106 | a fast reversal is a move of the first mid against us or in our favour, as the markout has it; it means the documented one against us if and only if no move in our favour does it alone |
| Toxicity.FavourableReversal | src/gate_trade/markout/toxic.py:101-106 | a buy that is an adverse fast reversal although the first mid moved in its favour |
| Toxicity.ToxicDetector.Evaluate | src/gate_trade/markout/toxic.py:63-85 | the verdict and the counter are those of the full history: adverse, large against the window mean, and reversing, all three |
| Metrics.NetIsBuysMinusSells | src/gate_trade/replay/metrics.py:64-71 | net inventory is total bought minus total sold |
| Metrics.PeakIsMaximum | src/gate_trade/replay/metrics.py:64-71 | the peak bounds |inventory| after every prefix of the fills, and is attained |
| Metrics.TotalsAdd | src/gate_trade/replay/metrics.py:78-85 | money, size and the size of a side add up over the fills, and one fill is worth its price times its size |
| Metrics.AverageMeans | src/gate_trade/replay/metrics.py:83-84 | the average price times the size is the money |
| Metrics.SidesPartition | src/gate_trade/replay/metrics.py:78-82 | the fills of the two sides are all the fills, each once |
| Metrics.AverageIsWithin | src/gate_trade/replay/metrics.py:81-84 | for positive sizes a side's average price exists and lies within the range of its fill prices |
| Metrics.RatioIsShare | src/gate_trade/replay/metrics.py:43-47 | the toxic ratio times the fills is the number of toxic verdicts, so it is at most 1 if and only if no more verdicts are toxic than there are fills |
| Metrics.MetricsCollector.RecordFill | src/gate_trade/replay/metrics.py:64-71 | keeps inventory and peak those of the fills |
| Metrics.MetricsCollector.RecordMarkout | src/gate_trade/replay/metrics.py:73-76 | adds one sample, and counts it if it is toxic; the count stays at most the number of samples |
| Metrics.MetricsCollector.Summarize | src/gate_trade/replay/metrics.py:78-103 | describes the collected fills and samples, with averages that times the sizes give the money and times the number of samples their sum, and fails exactly when a side has fills without any size |
| ReplayStates.FillsRespectLimits | src/gate_trade/replay/engine.py:90-101 | an order fills exactly when the other side has a price no worse than its limit, and then at the best price there |
| ReplayMarks.CrossingsAreAll | src/gate_trade/replay/engine.py:78-81 | the places of a feed, in its order, are those of all orders that cross, each once |
| ReplayMarks.FillsOfFeed | src/gate_trade/replay/engine.py:78-117 | fill i of a feed is that of the i-th order that crosses: all of its size, its side, the best price of the other side, the time of its snapshot |
| ReplayMarks.RecordsOfFeed | src/gate_trade/replay/engine.py:66-117 | so is record i, with the mid of its snapshot; it has a mark for 1, 5 or 30 seconds exactly if a later snapshot is that late, and then the mid of the first one |
| ReplayStates.MidMeans | src/gate_trade/replay/feeder.py:24-28 | the mid of a snapshot is halfway between positive best prices, and else the last price |
| ReplayStates.FedBalances | src/gate_trade/replay/engine.py:52-88 | after any feed the records judged and those waiting are the earlier ones and one for every fill, and what was judged stays judged |
| ReplayShares.NothingWaitsShares | src/gate_trade/replay/engine.py:52-64 | when nothing waits, no feed makes more toxic verdicts than it makes fills |
| ReplayShares.NoneTurnsToxic | src/gate_trade/replay/engine.py:52-88 | when none of the waiting records can still turn out toxic, no feed in order of time with positive mids makes more toxic verdicts than it makes fills |
| Overshoots.ExcessExceeds | src/gate_trade/replay/engine.py:52-88 | a waiting record that could turn out toxic yields a feed in order of time, with positive mids, with one fill and two toxic verdicts |
| Overshoots.ShareExactly | src/gate_trade/replay/engine.py:52-88 | the toxic ratio of the next replay is a share of its fills for every feed in order of time with positive mids if and only if none of the waiting records is large in its window, not excluded by its marks, and, if a sell, adverse at some positive mid |
| Overshoots.SecondRunExceeds | src/gate_trade/replay/engine.py:52-64 | with the default thresholds, a run of five fills is followed by a run of one fill with two toxic verdicts |
| Replays.ReplayEngine.ProcessSnapshot | src/gate_trade/replay/engine.py:66-88 | counts the snapshot, marks, fills what crosses, judges what is complete: what waits and was judged becomes the next state of the specification, and the log grows by the snapshot and its fills |
| Replays.ReplayEngine.Drive | src/gate_trade/replay/engine.py:52-57 | for any engine, fills plus what was waiting equal samples plus what waits after, the metrics are those of the feed, and the toxic count is what the detector counted meanwhile |
| Replays.ReplayEngine.Run | src/gate_trade/replay/engine.py:52-64 | the same for a whole run, whose summary describes the collected metrics; a fresh engine conserves its fills, and in time order its samples are the markouts, 30 seconds later, of the orders that cross, in turn, for as long as there is a late enough snapshot; the reported toxic ratio is at most 1 exactly when the feed makes no more toxic verdicts than fills, and always when nothing was waiting |
| Replays.ReplayEngine.NextRatioIsShare | src/gate_trade/replay/engine.py:52-64 | for an engine whose fills came in order of time with positive sizes, the ratio of the next run is at most 1 for every later feed with positive mids exactly when no waiting record could turn out toxic |
| Replays.SecondRun | src/gate_trade/replay/engine.py:52-64 | two runs of one engine, the second of which reports a toxic ratio above 1 |
| Replays.ReplayEngine.Reset | src/gate_trade/replay/engine.py:119-123 | nothing waits, nothing was judged and nothing is collected afterwards |
| Ladders.LadderIsPrefix | src/gate_trade/strategy/accum.py:154-166 | the ladder is the rungs above zero, from the top, without gaps |
| Ladders.RungIsNear | src/gate_trade/strategy/accum.py:154-170 | rung i lies i spacings below the ratchet, up to half a tick |
| Ladders.DesireMeans | src/gate_trade/strategy/accum.py:81-104 | a call of any state: what the gates for a missing reference, a suspension below its recovery level and a spike let through, how the ratchet is set, and that it suspends if and only if no suspension was or has just ended and the reference is below (1 - threshold) times the lowest rung; otherwise it returns its ladder |
| Ladders.FarBelowEveryRung | src/gate_trade/strategy/accum.py:172-182 | for a threshold of at most 1 that is below (1 - threshold) times every rung of a ladder that has one |
| Ladders.FilledTotals | src/gate_trade/strategy/accum.py:106-114 | a fill adds its size and its cost, the entry price times the size is the cost, and the ratchet is the lower of itself, if set, and the fill price |
| Ladders.LowerRatchetLowerLadder | src/gate_trade/strategy/accum.py:154-170 | a lower ratchet gives a ladder that is rung by rung no higher and no longer |
| Ladders.NonEmptyNeedsRatchet | src/gate_trade/strategy/accum.py:154-166 | a ladder with any rung comes from a positive ratchet |
| Ladders.PricesAreTickMultiples | src/gate_trade/strategy/accum.py:154-170 | every price is a positive multiple of the tick |
| Ladders.RungsStrictlyDescend | src/gate_trade/strategy/accum.py:154-170 | with rungs at least two ticks apart prices strictly descend |
| Ladders.OneTickRungsCoincide | src/gate_trade/strategy/accum.py:154-170 | with rungs one tick apart two neighbours coincide if and only if the upper one is asked for at an even number of ticks and a half |
| Ladders.EqualRungs | src/gate_trade/strategy/accum.py:154-170 | a ladder of two rungs one tick apart with both at the same price |
| Ladders.RatchetOnlyFalls | src/gate_trade/strategy/accum.py:106-114 | once positive, the ratchet never rises over any run with fills at positive prices, and stays positive |
| Ladders.NeverChases | src/gate_trade/strategy/accum.py:81-114 | of any two calls of a run the later ladder is rung by rung no higher and no longer than an earlier non-empty one |
| Ladders.StaysSuspended | src/gate_trade/strategy/accum.py:172-189 | suspended at a trigger, every call returns nothing until a reference price reaches trigger * (1 + recovery) |
| Ladders.SuspensionEndsWhen | src/gate_trade/strategy/accum.py:81-89 | in any run a suspension ends if and only if some call for orders is made while suspended, at a positive reference price that has reached the recovery level |
| Ladders.SuspendedForGood | src/gate_trade/bot.py:250-333 | in any run in which only an active strategy is shown the market and asked for orders, as the bot does, a strategy that is suspended once is never called again and stays suspended |
| Ladders.NeverBack | src/gate_trade/strategy/accum.py:172-189 | a market that falls by ten percent and comes back: a strategy that is called on resumes, under the bot it stays suspended |
| Ladders.HaltLastsWhen | src/gate_trade/strategy/accum.py:116-118 | the suspension that a halt causes survives the next call exactly when the reference price is below the recovery level of the latest collapse; without one it ends at any positive price |
| Ladders.OneExemptionPerRecovery | src/gate_trade/strategy/accum.py:81-104 | over any run ladders returned below (1 - threshold) times their lowest rung are at most one for each recovery |
| Ladders.EntryIsAverage | src/gate_trade/strategy/accum.py:106-109 | the entry price lies within the range of the fill prices |
| Accumulation.Accumulator.DesiredOrders | src/gate_trade/strategy/accum.py:81-104 | the fields follow the run of calls, and the returned prices are those of the specification |
| Accumulation.Accumulator.OnFill | src/gate_trade/strategy/accum.py:106-114 | the fields follow the run of calls; the average divides by zero exactly when the total filled size is zero |
| Accumulation.Accumulator.ComputeLadder | src/gate_trade/strategy/accum.py:154-166 | the loop gives the ladder's rungs above zero |
| Accumulation.Accumulator.UpdateMarket | src/gate_trade/strategy/accum.py:125-127 | the call extends the run that the fields stand for |
| Accumulation.Accumulator.OnStateChange | src/gate_trade/strategy/accum.py:116-118 | the call extends the run that the fields stand for; a halt suspends |
| Accumulation.ServeTick | src/gate_trade/bot.py:250-333 | what a tick asks of a strategy keeps its run one in which only an active strategy is called; a suspended one is left alone |
| Windows.Trim | src/gate_trade/price/ref_price_engine.py:162-164 | popping old entries from the front gives exactly the entries of the history that are young enough |
| Windows.InWindowMembers | src/gate_trade/price/ref_price_engine.py:161-164 | an entry is in the window if and only if it is in the history and not older than the cutoff |
| Windows.InWindowTwice | src/gate_trade/price/ref_price_engine.py:180-183 | cutting twice is cutting at the later cutoff |
| Windows.WindowStartsWithOldest | src/gate_trade/price/ref_price_engine.py:169 | the first entry of a window is the oldest one in it |
| Averages.MeanWithin | src/gate_trade/price/ref_price_engine.py:186-192 | a mean lies between any bounds of its items |
| Averages.MeanTimesCount | src/gate_trade/price/ref_price_engine.py:186-192 | a mean times the number of items is their sum |
| Averages.SumAdds | src/gate_trade/price/ref_price_engine.py:186-192 | a sum adds up over its parts |
| RefPricing.SpikeRule | src/gate_trade/price/ref_price_engine.py:156-178 | a spike is seen when an earlier mid is in the window and the current one differs from the oldest such mid by the threshold in basis points of it; with the flag not set it starts a protection for the cooldown, a set flag keeps its deadline, and nothing else changes either |
| RefPricing.ReferenceMeans | src/gate_trade/price/ref_price_engine.py:95-128 | the reference is halfway between the best prices that are positive and not own ones, or the one that is, and is recorded in both histories; with neither nothing changes |
| RefPricing.MidIsDocumentedWhen | src/gate_trade/price/ref_price_engine.py:25-29 | the documented mid, of the next best prices that are not own ones, is the computed one if and only if on neither side another price lies behind an own best one |
| RefPricing.OwnBidIsNotReplaced | src/gate_trade/price/ref_price_engine.py:95-118 | with an own best bid at 99 before another at 98 and an ask at 101 the reference is 101, not 99.5 |
| RefPricing.TwapWithin | src/gate_trade/price/ref_price_engine.py:185-192 | the TWAP lies between any bounds of the mids of the last 30 seconds |
| RefPricing.TwapMeans | src/gate_trade/price/ref_price_engine.py:185-192 | the TWAP times the number of mids of the last 30 seconds is their total, and without any it is the reference |
| RefPriceEngine.LiveRefPriceEngine.UpdatePrice | src/gate_trade/price/ref_price_engine.py:81-128 | keeping the trimmed deques amounts to keeping the full history of mids |
| RefPriceEngine.LiveRefPriceEngine.SpikeProtectionActive | src/gate_trade/price/ref_price_engine.py:132-136 | the flag expires when it is read after its deadline |
| RefPricing.RemainingMsMeans | src/gate_trade/price/ref_price_engine.py:138-143 | the reported milliseconds are 0 exactly when no protection is on or less than 1 ms of it is left, and otherwise the protection ends after them and before one more; the flag, once read, is set exactly before the deadline |
| RefPriceEngine.LiveRefPriceEngine.TwapPrice | src/gate_trade/price/ref_price_engine.py:185-192 | the mean of the in-window mids of the full history, or the reference price without any |
| Trickle.ChunkBounds | src/gate_trade/smasher/trickle.py:68-82 | with a whole number of units left a chunk takes between the least size and all of it, and the rest is exactly what is left |
| Trickle.ChunkMeans | src/gate_trade/smasher/trickle.py:68-82 | a chunk is, up to half a unit, what remains if that is no more than the drawn size or half the minimum chunk, and else the drawn size but no less than that half |
| Trickle.JitteredMeans | src/gate_trade/smasher/trickle.py:68-74 | the drawn size runs from (1 - jitter) to (1 + jitter) times the raw one as the spread does from 0 to 1 |
| Trickle.LeastIsHalf | src/gate_trade/smasher/trickle.py:74-77 | the least size is at least floor(min_chunk / 2), hence at least one unit for a minimum chunk of two units |
| Trickle.LeastIsDrawn | src/gate_trade/smasher/trickle.py:67-77 | for any jitter, also a negative one, the least size is attained by a draw, whatever remains |
| Trickle.Conserves | src/gate_trade/smasher/trickle.py:59-82 | for a whole total, chunks plus remainder equal the total after any draws, and the remainder is never negative |
| Trickle.Stops | src/gate_trade/smasher/trickle.py:59-82 | after n draws with n * least >= total nothing is left and the chunks sum to the total |
| Trickle.ChunkCount | src/gate_trade/smasher/trickle.py:59-82 | at most ceil(total / least) chunks are produced |
| Trickle.StallsWithoutProgress | src/gate_trade/smasher/trickle.py:74-82 | when the least size rounds to zero there are draws that never make progress |
| Trickle.LeastIsZeroWhen | src/gate_trade/smasher/trickle.py:74-77 | the least size is zero if and only if the minimum chunk is at most one unit and its full downward jitter leaves at most half a unit, or less than half if the jitter is negative |
| Trickle.StopsExactlyWhen | src/gate_trade/smasher/trickle.py:59-82 | for any jitter some number of draws always exhausts a whole total if and only if the parameters do not make the least size zero |
| Trickle.EmptyForEver | src/gate_trade/smasher/trickle.py:59-82 | chunks of one unit with a jitter of one half can be empty for any number of draws |
| Trickle.OneAndAHalfUnits | src/gate_trade/smasher/trickle.py:77-82 | a total of one and a half units is given out as one chunk of two |
| Trickle.ExactOnlyForWhole | src/gate_trade/smasher/trickle.py:77-82 | once finished the chunks sum to the total if and only if the total is a whole number of 1e-8 units |
| Trickle.TrickleExecutor.Create | src/gate_trade/smasher/trickle.py:34-37 | created exactly for a positive total and a valid chunk range |
| Trickle.TrickleExecutor.NextChunk | src/gate_trade/smasher/trickle.py:59-90 | gives the next chunk of the specification, and nothing once everything is allocated |
| Trickle.TrickleExecutor.Reset | src/gate_trade/smasher/trickle.py:92-93 | starts over with the total |
| Welch.CauchySchwarz | src/gate_trade/smasher/verify.py:86-88 | (x + y)^2 <= (p + q) * (x^2 / p + y^2 / q) |
| Welch.SquaresAdd | src/gate_trade/smasher/verify.py:110-114 | the squares around the mean add up over the samples |
| Welch.MeanVarianceMeans | src/gate_trade/smasher/verify.py:110-114 | the variance of the mean of n samples times n (n - 1) is the sum of their squares around it |
| Welch.CriticalMeans | src/gate_trade/smasher/verify.py:116-134 | the critical value exceeds the quantile z of its level by (z^3 + z) / 4 df, up to a hundred degrees of freedom, is z beyond and 10 without any |
| Welch.DegreesMean | src/gate_trade/smasher/verify.py:56-104 | the degrees of freedom satisfy the Welch-Satterthwaite equation, and are 1 without variance |
| Welch.VerdictMeans | src/gate_trade/smasher/verify.py:56-104 | a verdict reports both means, their difference and the numbers of samples; without any variance it is an improvement exactly if the mean is higher |
| Welch.DegreesBounds | src/gate_trade/smasher/verify.py:86-88 | with some positive variance min(n_b, n_a) - 1 <= df <= n_b + n_a - 2 |
| Welch.CriticalDecreases | src/gate_trade/smasher/verify.py:117-134 | the critical value is positive and does not grow with the degrees of freedom |
| Welch.ImprovedMeansHigher | src/gate_trade/smasher/verify.py:56-104 | an improvement is only reported for a higher mean after |
| Welch.NeverBothImproved | src/gate_trade/smasher/verify.py:56-104 | swapping the two samples never gives an improvement both ways |
| Welch.ImprovedWithoutRoot | src/gate_trade/smasher/verify.py:74-92 | an improvement is a positive difference whose square exceeds the squared critical value times its variance |
| Welch.DividesByZeroWhen | src/gate_trade/smasher/verify.py:62-88 | a comparison of enough samples divides by zero if and only if a sample is empty, or the variance is positive and a sample is single |
| Welch.SingleSampleDividesByZero | src/gate_trade/smasher/verify.py:62-88 | one sample before and two different ones after divide by zero |
| Welch.SmasherVerifier.CompareSamples | src/gate_trade/smasher/verify.py:56-104 | too few samples give no verdict; an improvement implies a higher mean |
| Probing.ProbesAreProbes | src/gate_trade/smasher/probe.py:58-75 | the recorded probes hold one of a side and age exactly when the full sequence of fills does |
| Probing.ProbeMeans | src/gate_trade/smasher/probe.py:50-85 | a fill is a probe if and only if there are enough fills of positive total, and its size times their number is at most the small quantile of the total |
| Probing.AttackMeans | src/gate_trade/smasher/probe.py:50-85 | it is an attack if and only if there are, it is no probe, its size times their number is at least the large multiple of the total, and an in-window probe on its side came before |
| Probing.ProbeDetector.OnFill | src/gate_trade/smasher/probe.py:50-85 | a fill is flagged if and only if, among all fills, it is large against their mean and an in-window probe on its side came before |
| Probing.AttackIsSize | src/gate_trade/smasher/probe.py:50-85 | under either reading of the mean a next fill is an attack if and only if some size would be, and its size is at least the least such |
| Probing.ReadingsAgree | src/gate_trade/smasher/probe.py:50-85 | while no fill since the reset is older than the window, the verdict is the one with the documented rolling mean |
| Probing.ReadingsAgreeWhen | src/gate_trade/smasher/probe.py:50-85 | for the next fill of a side at a time the two verdicts agree on every size if and only if both flag no size or both flag the same least size |
| Probing.ReadingsDiffer | src/gate_trade/smasher/probe.py:50-85 | four fills on the last of which the code and the rolling mean disagree |
| Icebergs.RecordedMeans | src/gate_trade/smasher/iceberg.py:84-95 | what is kept of a price is exactly what the snapshots show since one last left it out |
| Icebergs.SignalsAreFires | src/gate_trade/smasher/iceberg.py:79-110 | there is a signal for exactly the levels whose size rises and whose in-window rises reach the threshold |
| Icebergs.FiresMeans | src/gate_trade/smasher/iceberg.py:79-110 | a level fires if and only if it is above the least size, larger than at its last in-window sighting, and the in-window sizes with it rise at as many places as the threshold says |
| Icebergs.SignalMeans | src/gate_trade/smasher/iceberg.py:104-110 | a signal tells the price, the number of these places, and the mean of these sizes |
| Icebergs.SignalNeedsSightings | src/gate_trade/smasher/iceberg.py:97-103 | a signal needs at least as many earlier in-window sightings as the threshold |
| Icebergs.FlatNeverRises | src/gate_trade/smasher/iceberg.py:99-102 | sizes that never grow count no replenishment |
| Icebergs.CountRises | src/gate_trade/smasher/iceberg.py:99-102 | the count over neighbouring entries is the number of rises of the sequence |
| Icebergs.RisesCountRefillsWhen | src/gate_trade/smasher/iceberg.py:30-31 | the documented refills are at most the counted rises, and as many if and only if the size was consumed before every rise |
| Icebergs.RisesImplyDropWhen | src/gate_trade/smasher/iceberg.py:97-103 | from the first and the last size in the window, and any positive number of rises between them, it follows that the size dropped if and only if the last is no larger than the first |
| Icebergs.GrowthSignals | src/gate_trade/smasher/iceberg.py:97-110 | sizes 1, 2, 3, 4 signal at the threshold of three without any drop |
| Icebergs.DropUnseen | src/gate_trade/smasher/iceberg.py:112-115 | the deletion loop keeps exactly the prices of the snapshot |
| Icebergs.IcebergDetector.ProcessSide | src/gate_trade/smasher/iceberg.py:68-117 | the trimmed deques of one side signal exactly like the full sequence of snapshots |
| Icebergs.IcebergDetector.Update | src/gate_trade/smasher/iceberg.py:48-66 | the signals of a snapshot are those of its bids, then of its asks, each against the full sequence of snapshots |
| Lifecycle.StaysTidy | src/gate_trade/state/state_machine.py:67-97 | in every run from INIT only a running machine has a sub-state and only a cooldown state has a deadline |
| Lifecycle.StoppedStates | src/gate_trade/state/state_machine.py:67-97 | nothing leaves SHUTDOWN, and only a request for IDLE or SHUTDOWN leaves EMERGENCY |
| Lifecycle.MovesAre | src/gate_trade/state/state_machine.py:16-30 | from where each state can be entered, and that a move keeps the sub-state only into RUNNING and the deadline only into a cooldown |
| Lifecycle.CooldownIsLegalWhen | src/gate_trade/state/state_machine.py:140-149 | a cooldown starts from RUNNING or its own state, to end after its milliseconds; it is ignored in EMERGENCY and SHUTDOWN and illegal elsewhere |
| Lifecycle.PlacingStates | src/gate_trade/state/state_machine.py:121-129 | outside of the cooldowns placing is for IDLE and RUNNING, and a cooldown without a deadline is over |
| Lifecycle.CooldownGate | src/gate_trade/state/state_machine.py:113-129 | a cooldown state may place if and only if less than 1 ms of the cooldown is left |
| Lifecycle.LiveStateMachine.Transition | src/gate_trade/state/state_machine.py:67-89 | an illegal move raises and changes nothing; a legal one clears sub-state and deadline as the target demands |
| Lifecycle.LiveStateMachine.EnterCooldown | src/gate_trade/state/state_machine.py:140-149 | an illegal cooldown raises and changes nothing; a legal one moves to its state and sets the deadline; a stopped machine ignores it |
| Lifecycle.LiveStateMachine.MayPlace | src/gate_trade/state/state_machine.py:121-129 | in a cooldown with a deadline true exactly when less than 1 ms is left, and then at every later time as well; in other states true exactly in IDLE and RUNNING |
| Lifecycle.SubStateMeans | src/gate_trade/state/state_machine.py:67-97 | in every run the machine has a sub-state exactly when one was set since RUNNING was last entered, the state never left since; it is then the one set last |
| Cooldowns.LatestDecides | src/gate_trade/state/cooldown.py:41-51 | over any sequence of starts a timer is over exactly when the latest start of its kind has run out, whatever was started of the other kinds |
| Cooldowns.EveryStartCountsWhen | src/gate_trade/state/cooldown.py:41-51 | a timer is over exactly when all its starts have run out, at all times, if and only if the latest start ends no earlier than any other |
| Cooldowns.ShorterStartEndsEarly | src/gate_trade/state/cooldown.py:45-47 | a fill cooldown of ten seconds is over after three when one of a second starts meanwhile |
| Cooldowns.CooldownManager.MayPlace | src/gate_trade/state/cooldown.py:69-76 | true if and only if the latest price cooldown and the latest fill cooldown have run out, each at its own reading |
| Cooldowns.CooldownManager.ComplianceDepthRequired | src/gate_trade/state/cooldown.py:78-85 | true exactly until the latest compliance timer has run out |
| Risks.HaltedExactlyOnBreach | src/gate_trade/risk/risk_manager.py:67-84 | over every run of evaluations halted means that the last one broke a limit, and the peak is the highest mid so far |
| Risks.FlashMeans | src/gate_trade/risk/risk_manager.py:168-178 | a flash crash is a mid at or below (1 - threshold) times the highest mid ever |
| Risks.EvaluationHalts | src/gate_trade/risk/risk_manager.py:67-84 | at a positive mid an evaluation halts if and only if base currency and open buys are worth more than the limit, or the orders reach theirs, or the mid lies the threshold below the peak with it |
| Risks.HeldAdds | src/gate_trade/risk/risk_manager.py:134-153 | what is held adds up over the balances: the totals in the base currency, or all positive ones when it is not known |
| Risks.PendingAdds | src/gate_trade/risk/risk_manager.py:154-157 | what is pending adds up over the orders: of each buy what is not filled |
| Risks.HighIsRecentWhen | src/gate_trade/risk/risk_manager.py:168-178 | measured against the high of the last n evaluations the crash check comes out the same if and only if the mid is not between what crashes against that high and against the highest ever, so whenever the two are equal |
| Risks.OldHighCounts | src/gate_trade/risk/risk_manager.py:168-178 | a mid that drifts from 100 over 96 to 95 is a crash at five percent, though it is not one against the high of the last two |
| Risks.CapFlagMeans | src/gate_trade/risk/risk_manager.py:162-163 | the cap flag is set exactly during a halt in which the position limit was broken |
| Risks.CapCooldownStarts | src/gate_trade/risk/risk_manager.py:199-204 | the cap cooldown is set exactly by the evaluation that ends such a halt |
| Risks.HaltClearsAlone | src/gate_trade/risk/risk_manager.py:199-204 | evaluated by itself, the risk manager resumes when the position is gone and starts the cap cooldown |
| Risks.BaseOfJoined | src/gate_trade/risk/risk_manager.py:46 | the base currency of a joined pair is its first part, whatever the quote currency |
| Risks.LiveRiskManager.CheckPosition | src/gate_trade/risk/risk_manager.py:134-163 | the flag is set if and only if the mid is positive and (held base currency + unfilled buys) * mid exceeds the limit; the cap flag remembers it |
| Risks.LiveRiskManager.CheckFlashCrash | src/gate_trade/risk/risk_manager.py:168-178 | the peak becomes the larger of peak and positive mid, and the flag is set if and only if the relative drop from it reaches the threshold |
| Risks.LiveRiskManager.Evaluate | src/gate_trade/risk/risk_manager.py:67-84 | sets each flag if and only if its limit is broken, the peak to the highest positive mid, and is halted afterwards if and only if some flag is set |
| BotSteps.RaisesWhen | src/gate_trade/bot.py:195-283 | a tick raises IllegalTransition if and only if a spike hits in a state that may not start its cooldown, or a breach hits in INIT |
| BotSteps.SpikeDuringFillCooldown | src/gate_trade/bot.py:212-229 | a spike protection that is on in a bot in COOLDOWN_FILL raises |
| BotSteps.BreachStops | src/gate_trade/bot.py:236-248 | a tick whose evaluation breaks a limit ends in EMERGENCY and submits nothing; no other tick enters EMERGENCY; EMERGENCY ticks do nothing |
| BotSteps.LadderNeeds | src/gate_trade/bot.py:257-283 | a ladder needs a valid mid, no breach, both blocking timers expired, less than 1 ms of the cooldown and less than 2 ms of the spike protection left |
| BotSteps.LadderEndsEarly | src/gate_trade/bot.py:257-283 | for every gap below 2 ms there are clock readings with which everything desired is submitted that much before the protection ends, so the bound is tight |
| BotWitnesses.LadderUnderProtection | src/gate_trade/bot.py:195-283 | a live run from the start with a spike of one percent, in which a tick submits an order one millisecond before the protection ends |
| BotSteps.LadderExactly | src/gate_trade/bot.py:236-283 | a running or spike-cooled bot submits its ladder if and only if the mid is valid, no limit is broken, the cooldown it faces is over up to 1 ms and both blocking timers have expired; it then submits everything desired, nothing in a dry run, and its sub-state tells whether there are orders |
| BotSteps.AllDesiredMembers | src/gate_trade/bot.py:329-333 | a ladder consists of the desired orders of the active strategies |
| BotSteps.DesiredAdds | src/gate_trade/bot.py:325-375 | everything desired, and the first desired orders, add up over the strategies in their order, and only active ones count |
| BotSteps.ResumesWhen | src/gate_trade/bot.py:257-270 | out of COOLDOWN_PRICE_SPIKE an unhalted tick with a valid mid resumes if and only if less than 1 ms is left of the cooldown, renewed by a protection that still lasts; otherwise it stays |
| BotRuns.NoLadderWhileProtected | src/gate_trade/bot.py:212-283 | from the tick that finds a protection on, no tick of a run submits a ladder while 2 ms or more of the protection are left |
| BotRuns.SpikeSuppresses | src/gate_trade/bot.py:212-229 | a spike of the mids in some tick against the oldest mid in the window is followed by no ladder, in that tick or any later one of the run, until the last 2 ms of the protection then in force; that is one for the whole spike cooldown if none was flagged, and else the flagged one, with its old end |
| BotRuns.ProtectsForCooldownWhen | src/gate_trade/price/ref_price_engine.py:169-178 | a tick that sees a spike has a protection for the whole cooldown in force after pricing if and only if none was flagged before, or one with that very end; otherwise the flagged one keeps its end |
| BotRuns.SpikeUnprotected | src/gate_trade/bot.py:212-283 | a spike seen while an expired protection is still flagged, out of a spike cooldown that is over up to 1 ms, suppresses nothing: with nothing else in the way everything desired is submitted in that tick |
| BotWitnesses.SpikeUnseen | src/gate_trade/bot.py:195-283 | such a run of four ticks from the start, with the default settings: its last tick sees a spike of two percent and submits its ladder |
| BotSteps.ComplianceOrders | src/gate_trade/bot.py:363-375 | otherwise at most one order for each active strategy is submitted, its first desired one, only while the compliance timer runs, and none in a dry run |
| BotSteps.ComplianceIsKept | src/gate_trade/bot.py:266-281 | while the compliance timer runs a live tick that is suppressed does submit the first desired order of every active strategy |
| BotSteps.ComplianceQuotesWhen | src/gate_trade/bot.py:363-375 | the compliance orders quote a side if and only if the first desired order of some active strategy is on it |
| BotSteps.OneSidedCompliance | src/gate_trade/bot.py:363-375 | a suppressed tick with one strategy that wants to buy quotes a buy and no sell |
| BotRuns.NeverRaises | src/gate_trade/bot.py:149-187 | every run from INIT through IDLE to RUNNING never raises IllegalTransition and can always be shut down |
| BotRuns.EveryLadderIsSafe | src/gate_trade/bot.py:195-283 | in every run from INIT every ladder is submitted under the conditions of LadderNeeds |
| BotRuns.EmergencyIsFinal | src/gate_trade/bot.py:198-248 | in every run the bot is in EMERGENCY if and only if some tick broke a limit |
| BotRisks.TicksAreCounted | src/gate_trade/bot.py:195-196 | every tick of a run is counted |
| BotRisks.BalancesAreLatest | src/gate_trade/bot.py:231-233 | after any run the balances are the answer of the last tick that was awake, live, a tenth one and answered, and none before one |
| BotRisks.PeakIsHighest | src/gate_trade/bot.py:236-240 | after any run the peak of the risk manager is the highest mid of a tick that was awake |
| BotRisks.EmergencyMeans | src/gate_trade/bot.py:236-248 | an awake tick of a run ends in EMERGENCY if and only if what those balances hold of the base currency and the open buys are worth more than the limit, or the orders reach theirs, or the mid lies the threshold below that peak |
| BotRisks.FetchedPositionStops | src/gate_trade/bot.py:231-248 | a tick that fetches balances worth more than the limit ends in EMERGENCY |
| BotRisks.ReferenceOfTick | src/gate_trade/bot.py:212-219 | an awake tick takes its reference halfway between the best bid and ask, or from the one that is there and not the price of an own open order of its side, and records it |
| BotRuns.ShownExpires | src/gate_trade/bot.py:250-255 | showing the flag to the strategies ends a protection if and only if it is over when an active one is shown it |
| BotRuns.NothingAfterBreach | src/gate_trade/bot.py:198-248 | after a breach no later tick of the run submits anything |
| BotRuns.CapCooldownNeverStarts | src/gate_trade/bot.py:198-248 | under the bot a halt never clears, so the cap cooldown of the risk manager never starts |
| BotRuns.CooldownOutlastsSpike | src/gate_trade/bot.py:221-225 | between ticks of any run the spike cooldown lasts as long as the protection, up to 1 ms |
| BotOrders.LaddersAreFew | src/gate_trade/bot.py:325-361 | while every order is confirmed and the strategies desire at least n orders in every tick, n * (ladders - 1) stays below the limit of open orders |
| BotOrders.HaltsExactly | src/gate_trade/bot.py:195-361 | with nothing else in the way and every order confirmed, whatever trades, a live bot is in EMERGENCY after a run if and only if the orders tracked at first and all those desired before the last tick reach the limit |
| BotOrders.HaltsInTick | src/gate_trade/bot.py:195-361 | a bot that starts without orders and whose strategies desire n in every tick is in EMERGENCY exactly from tick 1 + ceil(limit / n) on |
| BotOrders.HaltsItself | src/gate_trade/bot.py:195-361 | with n orders or more desired in every tick it is in EMERGENCY by that tick, whatever other limit breaks |
| BotWitnesses.ThirdTickHalts | src/gate_trade/bot.py:195-361 | with the default limit of ten and the default ladder of five rungs, such a run still places in its second tick and is in EMERGENCY after its third |
| BotWitnesses.DefaultLadder | src/gate_trade/strategy/accum.py:81-104 | those five orders are what an accumulator with its default settings wants at a reference price of 100 |
| BotLoops.Loop | src/gate_trade/bot.py:149-187 | the loop of the bot object with the order engine, on an exchange that trades as it likes, is a run of the step relation: every tick sees exactly the orders tracked by then, each once, and what it submits is placed as PlaceAll says, at the reference price of that tick; the orders of all ticks were confirmed exactly if the result says so, and then the bot is in EMERGENCY at its end exactly under that condition |
| Bots.Bot.Start | src/gate_trade/bot.py:149-159 | a fresh bot starts through IDLE into RUNNING without an illegal transition |
| Bots.Bot.HandlePrice | src/gate_trade/bot.py:212-229 | updating the price objects in place and entering the spike cooldown gives the priced and guarded state of the step relation, or its illegal transition |
| Bots.Bot.EvaluateRisk | src/gate_trade/bot.py:231-240 | every tenth tick outside a dry run the balances become what the exchange answers, and the risk state becomes that of the evaluation |
| Bots.Bot.UpdateStrategies | src/gate_trade/bot.py:250-255 | showing the spike flag to the active strategies may end an expired protection and nothing else |
| Bots.Bot.RefreshOrders | src/gate_trade/bot.py:325-361 | submits everything that the active strategies desire, and nothing in a dry run |
| Bots.Bot.PlaceCompliance | src/gate_trade/bot.py:363-375 | submits the first desired order of every active strategy |
| Bots.Bot.Act | src/gate_trade/bot.py:257-283 | from the cooldown check to the placing the component calls have the outcome of the step relation: kind, orders and state |
| Bots.Bot.Tick | src/gate_trade/bot.py:195-314 | one tick of the loop over the component objects is one step of the relation |

## Left out

- The REST and WebSocket clients, persistence, the web panel, alerts, logging and scripts: input and output.
- `config/guard.py` and `config/watcher.py`: tokens, file times and a diff.
- `strategy/depth.py`, `markout/response.py`, `persistence/event_log.py`, `replay/feeder.py`: simpler than the parts modelled.
- `SmasherGuard.inspect` detects nothing (smasher/__init__.py:63-72), so the smasher branch of a tick is not modelled; nor are the markout and toxicity steps at its end, which place no orders.
- Floating-point error and NaN: arithmetic is exact.
- Environment overlays and file loading of configurations; nested dictionaries are values, so aliasing inside them is not captured; keys are strings.
- ConfigPaths.ApplyOverrides: `type(old)(new)` is a parameter of the model, and a list is a leaf that no path enters. Errors that the code does not suppress, as the OverflowError of `int` at an infinity, are not modelled.
- LiveBook.LiveMarketData.RecentMids: list objects are not shared with callers, so a caller changing a returned list is not captured.
- Exchanges.Exchange.FetchOpenOrders: says which lists the exchange may return; partial lists and pages are not modelled.
- OrderEngines.LiveOrderEngine.Cancel: does not say that a cancel which was refused or broke off left the exchange unchanged, because the exchange may have carried it out.
- OrderEngines.LiveOrderEngine.CancelAll: nor does a failed `cancel_all`, which may have cancelled some of the pair's orders.
- OrderEngines.LiveOrderEngine.Place: the wait for a token is reduced to the limiter's answer, which RateLimiter.dfy models; order status and timestamps are not modelled.
- MarkoutRecording.MarkoutRecorder.OnFill: the deadline stored with a record is never read and not modelled; nor is `recent_completed`.
- Replays.ReplayEngine.ProcessSnapshot: the strategy is reduced to what it desires at each snapshot; order ids, which nothing reads, and the toxic response level are not modelled.
- Overshoots.ShareExactly: says nothing of feeds out of order of time while records wait; then completed records can overtake pending ones.
- Accumulation.Accumulator.DesiredOrders: returns the prices; pair, side and size of the orders are constant. `reset`, which keeps the last market price and a pending exemption, and the unused list of active orders are not modelled.
- RefPriceEngine.LiveRefPriceEngine.UpdatePrice: the prices are those before the rounding to six decimals that the properties apply when read.
- Trickle.TrickleExecutor.NextChunk: the random delay between chunks is not modelled.
- Welch.SmasherVerifier.CompareSamples: takes the non-negative root that `math.sqrt` returns as a parameter, exact.
- Risks.LiveRiskManager.Evaluate: the halt reason and halt time, which nothing else reads, are not modelled.
- Lifecycle.LiveStateMachine.EnterCooldown: the cooldown type, which nothing reads, is not modelled.
- Bots.Bot.Tick: order placement is reduced to the list handed to the order engine, whose failures the bot ignores; the strategies' wishes and the own orders are inputs; exceptions other than an illegal transition are not modelled.
- Order types other than limit orders.
