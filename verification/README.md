# Verification of russ

russ runs Redis 6 and Redis 8 clusters under Redis Sentinel to rehearse an upgrade, and drives them
with a synthetic orders workload whose analytics live in Redis. This project models its two stateful
parts in Dafny and proves what holds over every run.

**The orders-analytics engine.** `Store.dfy` holds every structure the order script maintains as
fields of one object, together with the history of applied orders. Its invariant says of each
structure which function of the *whole* history it equals, although the program keeps only lossy or
incremental state: leaderboards trimmed after every order, a capped pair table, buckets that expire,
metadata where the first writer wins. `ApplyOrder` follows the script command by command.

| file | content |
|---|---|
| `Collections.dfy` | facts about sequences and sets |
| `Lex.dfy`, `SortedSets.dfy` | string order; Redis sorted sets, rank trimming, descending listings |
| `Tallies.dfy` | what a list of increments leaves behind, whatever its order |
| `Orders.dfy` | orders, labels, and what one order contributes to each structure |
| `Leaderboards.dfy`, `Hours.dfy`, `PairTable.dfy`, `Customers.dfy` | the four structures that forget |
| `Store.dfy` | the store and the script |
| `OrderIndependence.dfy`, `PairOrder.dfy`, `Conservation.dfy` | permutation and re-delivery; sums that agree everywhere |
| `Catalog.dfy`, `Writer.dfy`, `CatalogFacts.dfy` | the order generator and what its orders guarantee |
| `Concentration.dfy`, `ReadPaths.dfy` | the Pareto curve and the other API read paths |
| `Labels.dfy`, `GroupBys.dfy` | what the histogram labels say, and every table as a group-by over the orders |

**The upgrade lifecycle.** `Walk.dfy` is the breadth-first walk over an arbitrary finite state
machine; `Lifecycle.dfy` has the eight-state lifecycle, its state file and `Fire` with a failure
possible at every point. `Upgrade.dfy` is the transition system of a cluster under upgrade:
instances with version, priority, replication pointer and whether they ever synced, the sentinel fleet,
each sentinel's own view of the replicas, and the state file. `Elections.dfy` proves who wins a failover
over every run, and `Scenarios.dfy` has runs from `cluster create` that show what can go wrong, and one
that goes all the way. `Cluster.dfy` has the commands as loops over what Docker lists, each shown to be a
step of that system. `Quorums.dfy` is the fleet's quorums and `Ports.dfy` the port planning.

## Conventions

Money is integer cents and time integer milliseconds in UTC. A random draw, a listing's outcome, a
reply, a failure or a poll is an argument. The text encoding of a leaderboard snapshot is a parameter
of the store that only has to give snapshots with different scores different texts. A read of a
missing sorted-set member or hash field is zero.

Assumed of Redis and Sentinel: a script is atomic; scores stay exact (below 2^53) and counters within
64 bits; a key is gone once the clock is past its expiry. A sentinel that monitors the cluster sees the
direct replicas of the master and no others, each at the priority it had when that sentinel last polled
it, and not at all before it polled it or after it was reset. The leader of an election promotes some
eligible replica of least priority in its own view; who among the direct replicas that have ever synced
is eligible is left open, since Redis keeps one whose link went down for a while. The winner's siblings
and the old master follow it, or some of them do not. Redis 6 cannot replicate from Redis 8.
`SENTINEL FAILOVER` is refused when no replica is eligible. The sentinels that answer a command name the
same master, except that `instance rm` is modelled for any answers. Quorums decide who can declare a
master down; the vote for a leader among all known sentinels, which Sentinel holds after that, is not
modelled. A trigger that the lifecycle permits does fire; only guard, action and save fail.

## Where the code does not do what it says

Each is a lemma below; where a condition decides, it is proved in both directions.

- The timeseries can lose an hour when a writer's clock runs ahead. A row is exact if and only if
  consecutive orders of its hour arrived within the expiry of each other and the last of them within the
  expiry of the read (`Timeseries`, `ExactIffUnbroken`). All reads that the window still allows are exact
  if and only if those orders arrived within the expiry of each other and the last no earlier than a
  millisecond before the hour began (`AlwaysExactIff`). Orders created no later than they are processed
  meet this (`CreatedEarlierIsPunctual`, `PunctualIsUnbroken`).
- Pair keys are ambiguous when SKUs contain `|`. An order adds count·count to a key exactly when no other
  pair of its SKUs shares it, and more otherwise (`PairCountIff`, `BarsCollide`); two pairs share a key
  exactly when a SKU of one runs on across a bar (`SharedKeyIff`); a row shows its pair exactly when the
  smaller SKU has no bar (`RowShowsPairIff`). The writer's own SKUs have none.
- `NewWriter` leaves `MaxLineItems` below `MinLineItems`, so that the first order panics, exactly when
  the minimum exceeds both 5 and the requested maximum (`Normalise`, `NewOrder`).
- The README of the repository says that failovers from MixedVersions stay on v6. A leader can elect a v8
  over an eligible v6, after no more than polls and syncs, exactly when some sentinel monitors the
  cluster, some v6 is a fit direct replica and some fit direct v8 replica is at priority 1
  (`V8CanWinIff`). A v8 is at priority 1 exactly when, since it joined, a promote-v8 reached it, or when
  it joined while the file was past MixedVersions or unreadable (`AheadBecause`). So it breaks with a
  promote-v8 that reached a v8 replica, even if it then failed, or with a v8 joining under such a file,
  and with no other step (`BreaksWithThisStepIff`); a run from creation shows each
  (`FailedPromotionLetsV8Win`, `TornFileLetsV8Win`).
- It also says promote-v8 sets priority 1 on every v8 instance; the code skips the master. All v8 end at
  1 exactly when the master is not a v8 at another priority (`PromotionReachesAllV8`). And the code waits
  for the first sentinel alone, while each sentinel elects by its own last polls. The promise that v8 wins
  from then on fails for elections led by a sentinel exactly when a v8 master was left behind or that
  sentinel still has a v8 replica from before its update, as long as a v6 with data is left
  (`PromotionHoldsIff`); the awaited sentinel has none (`AwaitedIsFresh`). A run from creation shows each
  failure (`PromotionUnderV8MasterCanElectV6`, `OtherSentinelElectsV6`).
- FailoverComplete is said to mean a v8 master. The step into it leaves one exactly when a v8 was eligible,
  with the two exceptions above (`FailoverCompletesUnderV8Iff`); with only a v6 eligible it leaves a v6
  master (`FailoverCompleteUnderV6`).
- V6Destroyed does not rule out v6 instances, since adding one is always allowed; under a v8 master it
  never syncs (`V6CanComeBack`).
- `instance rm` refuses a master that some sentinel names. Over every run the master is lost exactly to a
  removal for which no responding sentinel named it, as when none answers (`MasterIsKeptIff`).
- Removing a v6 sentinel while the fleet cannot be listed marks the upgrade Done with v6 sentinels
  left (`WhenSentinelRemovalIsDone`).
- A save that is complete but reported as failed leaves the file ahead of the reported successes
  (`FileLeadsByUnconfirmed`).
- Adding sentinels passes through states in which two disjoint groups can each declare the master down,
  unless one is added to an even number or to a single one; the documented step from three to six does
  (`AdditionIsSafeIff`).
- The quorum after an addition comes from a second listing whose error is dropped. It is a strict
  majority exactly when that listing showed enough of the fleet; when it failed, every sentinel gets
  quorum 1 and the fleet is unsafe (`RegisteredFleetIsSafeIff`, `FailedListingIsUnsafe`).
- The README says quorums are recalculated whenever the fleet changes; adding v6 sentinels changes none
  (`AfterAddition`). The quorum kept is a strict majority of the larger fleet exactly when n/2 does not
  change (`KeptQuorumIsMajorityIff`).
- The push after a removal is said to cover every cluster any sentinel monitors. It covers those of the
  first sentinel, so all of them exactly when the first monitors all (`PushCoversAllIff`). The pushed
  quorum counts sentinels that do not monitor the cluster; those that do can reach it exactly when they
  outnumber the rest (`PushedQuorumIsReachableIff`).

## Model

| member | source | states |
|---|---|---|
| SortedSets.TopIsGreatest | internal/client/orders/store.go:188-191 | the kept entries are the limit-many greatest by (score, member), and no other set is |
| SortedSets.TrimIsTop | internal/client/orders/store.go:191-193 | ZREMRANGEBYRANK 0 -(limit+1), with negative indices counted from the end, keeps exactly the top |
| SortedSets.AddThenTrim | internal/client/orders/store.go:192-197 | adding to a table that already forgot its tail and trimming again gives the top of the full history, evicted members included |
| SortedSets.RevRangeIsDescending | internal/client/orders/store.go:592-593 | a reverse range lists every member once, strictly descending in rank |
| Lex.LessIff | internal/client/orders/store.go:236-238 | ties are broken by the lexicographic order: at the first difference the smaller character, or the shorter text, comes first |
| Leaderboards.LeaderboardStep | internal/client/orders/store.go:188-197 | one script step turns the ten best of a history into the ten best of the longer history |
| Leaderboards.BoardOfSameOrders | internal/client/orders/store.go:188-197 | the untrimmed board depends only on which orders occurred, not on order or repetition |
| Hours.HoursKeptByTick | internal/client/orders/types.go:117-120 | passing time leaves what the whole history left behind, less exactly what has expired |
| Hours.HoursKeptByApply | internal/client/orders/store.go:180-183 | an order turns the buckets of a history into those of the longer one, even next to long-expired hours |
| Hours.BucketAfter | internal/client/orders/store.go:180-183 | over any history a bucket is there until one expiry after its last order, and complete exactly when no gap lost it before |
| Hours.ExactIffUnbroken | internal/client/orders/store.go:543-575 | a read of an hour is exact if and only if its bucket was never lost between its first order and now |
| Hours.AlwaysExactIff | internal/client/orders/types.go:117-120 | every later read within the window is exact if and only if arrivals of that hour are at most the expiry apart and the last is no earlier than a millisecond before the hour |
| Hours.PunctualIsUnbroken | internal/client/orders/types.go:117-120 | punctual orders never lose an hour that can still be asked for |
| Hours.CreatedEarlierIsPunctual | internal/client/orders/types.go:178 | orders created no later than processed are punctual |
| PairTable.TableIsBounded | internal/client/orders/types.go:111-115 | never more than 200 pairs are stored |
| PairTable.StoredCountsASuffix | internal/client/orders/types.go:111-115 | every stored score is the exact count over some final stretch of the history |
| PairTable.StoredNeverOvercounts | internal/client/orders/store.go:229-243 | no stored score exceeds the true cumulative count |
| PairTable.ExactWhileFewPairs | internal/client/orders/store.go:229-243 | while at most 200 distinct pairs were seen the table is the exact tally |
| PairTable.PairAmount | internal/client/orders/store.go:229-243 | for every order and key: the sum of count(a) times count(b) over all unordered pairs of distinct SKUs with that key |
| PairTable.PairCountIff | internal/client/orders/store.go:233-242 | an order adds count(a) times count(b) to the key of a and b if and only if no other pair of its SKUs shares that key, and more otherwise |
| PairTable.SharedKeyIff | internal/client/orders/store.go:238-239 | two different pairs have one key exactly when a SKU of one continues across a bar into the other |
| PairTable.KeysOfOrder | internal/client/orders/store.go:233-242 | every counted key is that of two distinct non-empty SKUs of the order |
| PairTable.SplitRecoversPair | internal/client/orders/store.go:930-934 | splitting a key at its first bar recovers the pair exactly when the smaller SKU has no bar |
| PairTable.BarsCollide | internal/client/orders/store.go:238-239 | an order with SKUs a, b-bar-c, a-bar-b and c counts the pair of the first two twice |
| PairTable.BarFreeNeverShares | internal/client/orders/store.go:238-239 | no two pairs of an order share a key when its SKUs have no bar |
| Orders.MaxItemIsMaximum | internal/client/orders/store.go:298-307 | the snapshot's maximum is the greatest unit price, named after the earliest item that has it |
| Labels.ValueTexts | internal/client/orders/types.go:371-388 | the rows of the value histogram name consecutive ranges of whole dollars, the last open |
| Labels.ValueIsInRange | internal/client/orders/types.go:371-388 | an order is filed under a range of dollars if and only if its cents lie in it |
| Labels.CartTexts | internal/client/orders/types.go:399 | the rows of the cart-size histogram name consecutive ranges of units, the last open |
| Labels.CartSizeIsInRange | internal/client/orders/types.go:402-417 | an order is filed under a range of units if and only if its units lie in it |
| Labels.HourLabelIsTrue | internal/client/orders/types.go:429-431 | the two digits of the label are the hour since midnight UTC in which the instant lies |
| Labels.HourRowsAreNumbered | internal/client/orders/types.go:420-426 | row i of the 24 carries the number i in two digits |
| Labels.FirstWeek | internal/client/orders/types.go:434-439 | the epoch is a Thursday, and the days after it have their names in order |
| Labels.SameDaySameLabel | internal/client/orders/types.go:437-439 | the weekday lasts from one midnight UTC to the next |
| Labels.WeeksRepeat | internal/client/orders/types.go:437-439 | of the days up to a week later exactly the seventh has the same weekday |
| Labels.DayLabelIsTrue | internal/client/orders/types.go:437-439 | every instant has the weekday that its place in the week has in the first week |
| Store.Store.constructor | internal/client/orders/store.go:267-269 | an empty store matches the empty history |
| Store.Store.Tick | internal/client/orders/types.go:117-120 | time passing and buckets expiring keep every structure equal to its function of the history |
| Store.Store.ApplyOrder | internal/client/orders/store.go:282-358 | after applying an order every structure equals its function of the history with that order appended |
| Store.Store.RunScript | internal/client/orders/store.go:81-258 | the script turns a match with a history into a match with the longer history and touches nothing else |
| Store.Store.Summarise | internal/client/orders/store.go:298-307 | the loop computes total quantity, greatest unit price and its first product name |
| Store.Store.CountOrder | internal/client/orders/store.go:139-144 | the five counters are sums over the history |
| Store.Store.CountPlace | internal/client/orders/store.go:146-150 | state and zip tables are tallies over the history, zip metadata the first sighting |
| Store.Store.CountItems | internal/client/orders/store.go:152-173 | product and category tables are tallies over all line items, product metadata the first sighting |
| Store.Store.CountHour | internal/client/orders/store.go:180-183 | the hour bucket is bumped and its expiry renewed, keeping all reachable hours exact |
| Store.Store.CountHistograms | internal/client/orders/store.go:185-206 | value, cart-size, hour-of-day and weekday histograms are tallies over the history |
| Store.Store.RankSnapshot | internal/client/orders/store.go:188-197 | the three leaderboards are the ten best of the history |
| Store.Store.CountCustomer | internal/client/orders/store.go:208-217 | customer tables are tallies over the history, customer metadata the first sighting |
| Store.Store.CountPairs | internal/client/orders/store.go:229-243 | the nested loop counts every pair of the order and trims the table once |
| Store.Store.SplitNewAndReturning | internal/client/orders/store.go:245-255 | new orders are the distinct customers, new revenue what their first orders cost |
| GroupBys.CountersAreSums | internal/client/orders/store.go:139-144 | the counters are the number of orders and the sums of their totals, taxes, shippings and units |
| GroupBys.PlacesAreGrouped | internal/client/orders/store.go:146-150 | a row of the state and zip tables counts and sums exactly the orders shipped there, and exists exactly if there is one |
| GroupBys.CustomersAreGrouped | internal/client/orders/store.go:208-217 | a customer's row counts and sums exactly that customer's orders |
| GroupBys.ProductsAreGrouped | internal/client/orders/store.go:152-173 | a row of the product and category tables sums quantity and subtotal of exactly its line items |
| GroupBys.ZipKeepsFirstCity | internal/client/orders/store.go:146-150 | a zip code keeps city and state of the first order shipped there that names a city |
| GroupBys.CustomerKeepsFirstName | internal/client/orders/store.go:208-217 | a customer keeps name and address of the first order that names the customer |
| GroupBys.ProductKeepsFirstName | internal/client/orders/store.go:152-173 | a product keeps name and category of the first line item that sold it |
| GroupBys.NewRevenueIsFirstOrders | internal/client/orders/store.go:245-255 | new revenue is what the first order of each customer cost |
| GroupBys.HourIsGrouped | internal/client/orders/store.go:180-183 | the orders of an hour are those created in its 3,600,000 ms |
| GroupBys.ExpiryIsThreeDays | internal/client/orders/types.go:117-120 | a touched bucket expires 72 hours later |
| OrderIndependence.SameTables | internal/client/orders/store.go:139-206 | two stores that applied the same multiset of orders agree on all counters, tables and histograms |
| OrderIndependence.SameCustomers | internal/client/orders/store.go:245-255 | they agree on the seen set and on new and returning order counts |
| OrderIndependence.SamePairs | internal/client/orders/store.go:229-243 | they agree on the pair table while at most 200 distinct pairs were ever seen |
| PairOrder.TableDependsOnOrder | internal/client/orders/types.go:111-115 | with 200 rivals, a pair survives if its second order comes before the rivals and is gone if it comes after |
| PairOrder.WitnessOfOrder | internal/client/orders/types.go:111-115 | three concrete orders whose pair table depends on their order |
| OrderIndependence.SameLeaderboards | internal/client/orders/store.go:188-197 | the same set of orders gives the same leaderboards, whatever the order and however often delivered |
| OrderIndependence.SameTimeseries | internal/client/orders/store.go:543-575 | they agree on every hour that neither ever lost |
| OrderIndependence.RevenueSplitDependsOnOrder | internal/client/orders/store.go:245-255 | the revenue split between new and returning does depend on the order |
| OrderIndependence.MetadataDependsOnOrder | internal/client/orders/store.go:213-216 | first-wins metadata does depend on the order |
| Conservation.HistogramsConserve | internal/client/orders/store.go:185-206 | every histogram sums to the order count and every heatmap to the revenue |
| Conservation.CustomersConserve | internal/client/orders/store.go:208-255 | new orders equal the seen customers and the members of both customer tables; new and returning add up to their totals |
| Conservation.ProductsConserve | internal/client/orders/store.go:139-173 | revenue is product revenue plus tax plus shipping; line items are product units; categories sum to the same |
| Catalog.Catalog.constructor | internal/client/orders/catalog.go:25-51 | the pool has the requested size, numbered SKUs, the ten categories in rotation and the drawn names and prices |
| Catalog.Catalog.Pick | internal/client/orders/catalog.go:54-57 | the product and the price come from the same position |
| Catalog.SkuNames | internal/client/orders/catalog.go:41 | formatted SKUs are distinct, non-empty and free of the pair separator |
| Catalog.SkuNameIs | internal/client/orders/catalog.go:41 | a SKU is the prefix and its number in decimal, padded to six digits |
| Writer.Normalise | internal/client/orders/writer.go:68-79 | the defaults; orders can be drawn exactly when the minimum is at most 5 or at most the requested maximum |
| Writer.NewOrder | internal/client/orders/writer.go:231-272 | panics exactly when the item range is empty; otherwise the order has the given ID and one item per draw, the product and price at the drawn position in the drawn quantity, and its amounts add up |
| Writer.EveryOrderIsPossible | internal/client/orders/writer.go:231-272 | every order of an allowed length, priced from the pool with one to three of each item, is what some draws give |
| Writer.DrawsDecide | internal/client/orders/writer.go:238-266 | the drawn items decide all amounts: two generated orders that agree on them are equal |
| Writer.WriterOrdersAddUp | internal/client/orders/writer.go:238-252 | a generated order's subtotal is the sum of its items and its total adds tax and shipping |
| Writer.AccumulatedTax | internal/client/orders/writer.go:250-252 | over n orders truncated tax loses between 0 and 96n hundredths of a cent, and shipping is 499 each |
| CatalogFacts.RevenueIsPriceTimesUnits | internal/client/orders/catalog.go:17-20 | in every reachable state a product's revenue is its price times its units |
| CatalogFacts.OnlyPoolProducts | internal/client/orders/store.go:153-168 | only products of the pool ever get a row |
| CatalogFacts.CategoriesGroupProducts | internal/client/orders/store.go:169-172 | a category row is the sum of the product rows of that category, in units and cents |
| CatalogFacts.MetadataIsTheCatalogs | internal/client/orders/store.go:162-167 | stored product metadata is the catalog entry and exists exactly for products sold |
| CatalogFacts.WriterRevenueIsNonNegative | internal/client/orders/catalog.go:47-48 | no product shows negative revenue |
| CatalogFacts.WriterOrdersAreBarFree | internal/client/orders/catalog.go:41 | generated orders never make pair keys ambiguous |
| Concentration.TopSumIsBest | internal/client/orders/store.go:899-902 | no choice of k products earns more than the first k in rank |
| Concentration.ShareIsAtLeastUniform | internal/client/orders/store.go:903 | the first k of n products hold at least the share k/n |
| Concentration.TopSumIsMonotone | internal/client/orders/store.go:890-902 | with no negative revenue the curve rises |
| ReadPaths.RevenueConcentration | internal/client/orders/store.go:873-911 | the total is the sum of all product revenue; the curve has seven exact points, each for its percentage of the products rounded down to at least one, or none when there is nothing to share |
| ReadPaths.CurveIsPareto | internal/client/orders/store.go:870-911 | each point is the maximum over all choices of that many products, points rise, and the last is everything |
| ReadPaths.ValueDistribution | internal/client/orders/store.go:619-630 | seven rows; the row of a dollar range counts exactly the orders whose total lies in it, and together they count all orders |
| ReadPaths.CartSizeDistribution | internal/client/orders/store.go:634-644 | six rows; each counts exactly the orders whose units lie in its range, and together they count all orders |
| ReadPaths.HourOfDay | internal/client/orders/store.go:647-666 | 24 rows, numbered in two digits; row i has the orders and revenue of those created in the i-th hour after midnight UTC, and together all of both |
| ReadPaths.DayOfWeek | internal/client/orders/store.go:669-688 | seven rows from Sunday on; each has the orders and revenue of that day of a calendar that began on a Thursday, and together all of both |
| ReadPaths.Timeseries | internal/client/orders/store.go:543-575 | contiguous hours up to now; a row is the exact count and revenue of its hour if and only if the hour was never lost, and all are for punctual orders |
| ReadPaths.TopOrders | internal/client/orders/store.go:584-614 | at most ten texts, each that of an applied order with every field of its snapshot, in descending order of what is ranked, ties by text; an order not shown ranks below all ten |
| ReadPaths.TopPairs | internal/client/orders/store.go:915-974 | the rows of the best stored keys, 20 by default, from the best on: every stored key without a row has a smaller count, or the same and the smaller text |
| ReadPaths.RowOfIff | internal/client/orders/store.go:930-970 | a stored key has a row exactly when something stands before its first bar: the two parts, the names on record and the stored count |
| ReadPaths.RowNamesProducts | internal/client/orders/store.go:958-970 | when all orders come from one writer every stored pair has a row, of two catalog products with the catalog's names |
| ReadPaths.RowShowsPairIff | internal/client/orders/store.go:930-934 | behind every stored key are two SKUs of one order, and its row shows them exactly when the smaller one has no bar |
| ReadPaths.CleanRows | internal/client/orders/store.go:958-970 | without bars no row is missing and every row shows its pair |
| Walk.NothingSkipped | internal/state/machine.go:92-131 | whatever is n steps away is listed or something nearer still waits |
| Walk.HeadIsNearest | internal/state/machine.go:94-100 | a state leaves the queue unvisited only at its shortest distance |
| Walk.WalkFrom | internal/state/machine.go:87-134 | terminates; lists exactly the reachable states, each once, in order of distance, with exactly their edges; fails exactly when a reachable probe fails |
| Lifecycle.WalkLifecycle | internal/state/machine.go:30-53 | on the configured machine the walk gives the eight states in upgrade order and the seven edges, each named |
| Lifecycle.StateStore.Save | internal/state/store.go:76-87 | a write replaces the file, leaves it, tears it, or replaces it and still reports an error; no other cluster is touched |
| Lifecycle.StateStore.Delete | internal/state/store.go:112-122 | removes one cluster's file only |
| Lifecycle.Machine.constructor | internal/state/machine.go:57-66 | a machine starts in the saved state, and in AllV6 when there is no file |
| Lifecycle.Machine.Fire | internal/state/machine.go:138-163 | only the i-th trigger in the i-th state fires; memory and file after each way action and save can end |
| Lifecycle.TryCommand | internal/state/machine.go:57-163 | load and fire as one command; a torn file stops it, and without a file AddV8Instance alone is permitted |
| Lifecycle.DiskFollowsMemory | internal/state/machine.go:136-163 | fires exactly when trigger, action and save fit; the file never leads memory and lags by at most the failed save |
| Lifecycle.LoadedIff | internal/state/store.go:56-73 | a cluster stands where its file says, at AllV6 without one, and nowhere with a torn one |
| Lifecycle.PersistedPrefix | internal/state/machine.go:136-163 | over any run of a created cluster, its first save included, with any failures the triggers that reached the file are a prefix of the seven and a readable file says how many |
| Lifecycle.NextTriggerIff | internal/state/machine.go:57-66 | after any run of a created cluster with a readable file the one permitted trigger is the one after those recorded; AddV8Instance when none was, also without a file |
| Lifecycle.FileLeadsByUnconfirmed | internal/state/store.go:76-87 | the file is ahead of the reported successes by exactly the saves that landed but were reported as failed |
| Lifecycle.DoneMeansAllFired | internal/state/machine.go:30-53 | Done is on file only after all seven were recorded in order, and all were reported as fired exactly when no landed save was reported as failed |
| Lifecycle.AdvanceClustersInState | cmd/sentinel.go:342-366 | exactly the listed clusters found in the state fire; all others keep their file |
| Lifecycle.AdvanceWrites | internal/state/machine.go:136-163 | what the file holds after the i-th trigger was tried, for each way the write ends |
| Elections.BeforePromotionV6Wins | cmd/instance.go:340-355 | in every run and under every leader, while no v8 replica is at the promoted priority, a failover elects a v6 exactly when one is eligible; before any promote-v8 attempt under a readable file none is |
| Elections.V8CanWinIff | internal/state/store.go:18-22 | over every run with any failures, polls and syncs can lead to a v8 winning over an eligible v6 if and only if some sentinel monitors the cluster, some v6 is a fit direct replica, and some fit direct v8 replica is at the promoted priority |
| Elections.AheadBecause | cmd/cluster.go:785-805 | over every run a v8 is at the promoted priority if and only if since it joined a promote-v8 reached it, or it joined under a late or unreadable file |
| Elections.BreaksWithThisStepIff | cmd/cluster.go:785-805 | the step after which a v8 can first win is exactly a promote-v8 that reached a v8 that is a fit replica, or an add of one under a late or unreadable file |
| Scenarios.FailedPromotionLetsV8Win | cmd/cluster.go:785-805 | a run from creation: promote-v8 fails after one v8, the file reads MixedVersions, and the v8 wins over an eligible v6 |
| Scenarios.TornFileLetsV8Win | cmd/instance.go:344-354 | a run from creation: a v8 added under an unreadable file wins over an eligible v6 with no promote-v8 tried |
| Elections.AfterPromotionV8Wins | cmd/cluster.go:747-818 | in every run after a promotion that left no v8 master behind, a failover led by a sentinel that is not stale elects a v8 exactly when one is eligible |
| Elections.PromotionHoldsIff | cmd/cluster.go:785-818 | after every successful promotion, some continuation has sentinel s elect a v6 over an eligible v8 if and only if a v8 master was left behind or s has a v8 from before its update, and a v6 with data is left |
| Elections.AwaitedIsFresh | cmd/cluster.go:814-816 | the sentinel promote-v8 waited for has no such outdated entry |
| Scenarios.OtherSentinelElectsV6 | cmd/cluster.go:814-816 | a run from creation: promote-v8 succeeds, the awaited sentinel is removed, and the next failover elects a v6 over an eligible v8 |
| Upgrade.RunKeepsInv | cmd/instance.go:340-355 | the priority regimes before and after promotion, and what each sentinel's view can hold, in every state of every run |
| Upgrade.PromotionSetsRegime | cmd/cluster.go:785-805 | a promotion that leaves no v8 master behind puts every instance under the new regime |
| Elections.PromotionStands | cmd/cluster.go:819-823 | promotion is never undone, and a sentinel that is not stale after it never gets stale |
| Upgrade.PromotionReachesAllV8 | cmd/cluster.go:786-795 | all v8 end at priority 1 exactly when the master is not a v8 at another priority |
| Scenarios.PromotionUnderV8MasterCanElectV6 | cmd/cluster.go:786-789 | a run from creation: promote-v8 succeeds under a v8 master, which is demoted by the next failover and loses to an eligible v6 in the one after |
| Upgrade.FileStep | cmd/cluster.go:709-715 | every command leaves the file, tears it, or takes its own edge of the chain |
| Upgrade.AddFile | cmd/instance.go:232-246 | exactly a v8 that joined a cluster at AllV6, or without a file, moves it to MixedVersions |
| Upgrade.FailoverFile | cmd/cluster.go:709-715 | exactly a completed failover at V8Prioritized moves it to FailoverComplete |
| Upgrade.IsolateFile | cmd/cluster.go:537-598 | exactly an isolation that went through at FailoverComplete moves it to ReplicationBroken |
| Upgrade.RemoveFile | cmd/instance.go:306-328 | exactly a removal at ReplicationBroken after which a listing shows no v6 moves it to V6Destroyed |
| Upgrade.SentinelsFile | cmd/sentinel.go:153-159 | exactly a complete addition of v8 sentinels at V6Destroyed moves it to V8SentinelsAdded |
| Upgrade.SentinelFile | cmd/sentinel.go:400-416 | exactly the removal of a v6 sentinel at V8SentinelsAdded after which none is listed moves it to Done |
| Upgrade.RemovalLeaves | cmd/instance.go:286-304 | what a removal takes away or only disconnects, and which sentinels start over |
| Upgrade.StartsWithV8 | cmd/instance.go:232-250 | over every run the file stays what creation left, and v8 instances boot at 200, until a v8 instance has joined |
| Upgrade.DestroyedMeansNoV6 | cmd/instance.go:306-328 | V6Destroyed is entered only by removing an instance, with no v6 left |
| Upgrade.NoV6IsKept | cmd/instance.go:301-328 | every step but adding a v6 instance keeps a cluster free of v6 |
| Scenarios.V6CanComeBack | cmd/instance.go:70-105 | a run from creation through V6Destroyed after which a v6 instance is added, which never syncs |
| Scenarios.UpgradeGetsDone | internal/state/machine.go:30-53 | a run from creation through all seven transitions to Done, without v6 instances and sentinels |
| Upgrade.DoneMeansNoV6Sentinel | cmd/sentinel.go:400-416 | Done is entered only by removing a v6 sentinel, and if the fleet was listed none is left |
| Upgrade.WhenSentinelRemovalIsDone | cmd/sentinel.go:400-416 | the removal ends in Done exactly when the listing failed or no v6 sentinel is left |
| Upgrade.MasterIsKeptIff | cmd/instance.go:275-301 | over every run the master stays among the instances if and only if no removal took it while no responding sentinel named it |
| Upgrade.NamedInstanceStays | cmd/instance.go:275-284 | instance rm never removes an instance that any responding sentinel names as master, and nothing else removes one |
| Elections.FailoverCompletesUnderV8Iff | internal/state/store.go:27-28 | the step into FailoverComplete leaves a v8 master exactly when a v8 was eligible, unless a v8 master had been left behind or the first sentinel was stale |
| Scenarios.FailoverCompleteUnderV6 | cmd/cluster.go:704-715 | a run from creation into FailoverComplete under a v6 master, only a v6 having been eligible |
| Cluster.FirstNamed | cmd/cluster.go:755-764 | the port named by the first sentinel that answers |
| Cluster.ReachedIff | cmd/cluster.go:785-805 | a command that walks a list reaches a port, or stops there, exactly when everything wanted before it accepted |
| Cluster.Cluster.AddInstance | cmd/instance.go:70-250 | how far an add gets for each failure, the boot priority (100 for v6, 200 or 1 for v8 by the file), and the resulting step |
| Cluster.Cluster.RemoveInstance | cmd/instance.go:252-332 | refused when any responding sentinel names the instance, also when they disagree; otherwise it goes and the last v6 ends the phase |
| Cluster.Cluster.AnyV6 | cmd/instance.go:311-317 | finds a v6 instance if and only if there is one |
| Cluster.Cluster.PromoteV8 | cmd/cluster.go:725-824 | succeeds exactly when the file waits for it, a master is named, a v8 exists, every replica accepts and the first sentinel shows 1 for v8 and 100 for v6; and which priorities it has set when it does not |
| Cluster.Cluster.PromotionAction | cmd/cluster.go:747-818 | v8 replicas first, then v6, stopping at the first refusal, then waiting for sentinel's view |
| Cluster.Cluster.SetPriorities | cmd/cluster.go:785-805 | sets exactly the non-masters listed before the first refusal |
| Cluster.PromotedBeforeIff | cmd/cluster.go:785-805 | a replica is updated exactly when it accepts, those of its version listed before it did, and, if it is v6, every v8 replica did |
| Cluster.Cluster.WaitForPriorities | internal/redis/client.go:295-328 | succeeds exactly when there is nothing to expect, or the sentinel monitors the cluster and shows every replica at 100 or 1 by its version |
| Cluster.Cluster.IsolateV6Replicas | cmd/cluster.go:537-598 | disconnects v6 instances, the master spared if a sentinel names it, up to the first refusal; succeeds exactly when none refuses and the save lands |
| Cluster.Cluster.ReconcileReplication | cmd/sentinel.go:272-339 | rewires exactly the readable strays up to the first that refuses or does not sync; succeeds exactly when a master is named and there, all strays obey and, if there was any, the sentinel then sees every replica; then every readable replica follows the master |
| Cluster.RewiredIff | cmd/sentinel.go:296-318 | an instance is rewired exactly when it is a stray that accepts and every stray listed before it accepted and synced |
| Cluster.ReconciledHasNoStrays | cmd/sentinel.go:264-310 | from any replication graph no stray is left, nothing else changes, and a second run finds nothing to rewire |
| Cluster.Cluster.DoFailover | cmd/cluster.go:622-702 | a vote is cast exactly when the reconciliation succeeds and one of six tries is accepted after nothing but not-yet answers; who wins it in the first sentinel's view, and when the wait succeeds |
| Cluster.Cluster.Failover | cmd/cluster.go:600-723 | success means another instance is master; a vote after a rewiring means all replicas were visible; the lifecycle moves only from V8Prioritized |
| Cluster.Cluster.RemoveSentinel | cmd/sentinel.go:368-418 | the sentinel forgets the cluster and goes, with its view; the upgrade ends when the listing shows no v6 sentinel |
| Cluster.Cluster.AddSentinels | cmd/sentinel.go:131-159 | starts sentinels up to the first failure; after all v8 started, makes those reached monitor a waiting cluster whose master is known, and advances it |
| Quorums.Fleet.SetQuorum | internal/redis/client.go:136-143 | changes one quorum, and only where the cluster is monitored |
| Quorums.Fleet.UpdateQuorumAcrossSentinels | cmd/sentinel.go:247-262 | exactly the listed sentinels' quorums of the listed clusters whose calls succeed become n/2 + 1, and no other |
| Quorums.Fleet.RegisterClusters | cmd/sentinel.go:182-242 | exactly the new sentinels that take the call monitor the ready clusters with a known master, and there and on the old ones the quorum is n/2 + 1 of the listed fleet |
| Quorums.Fleet.AfterAddition | cmd/sentinel.go:153-159 | an addition of v6 sentinels changes no quorum |
| Quorums.KeptQuorumIsMajorityIff | README.md:702-714 | the quorum kept is a strict majority of the larger fleet exactly when that needs no larger one |
| Quorums.RemovalIsSafeThroughout | cmd/sentinel.go:247-262 | after a removal, in every intermediate state of the push, two groups that can declare the master down share a sentinel |
| Quorums.PushedQuorumIsMajority | cmd/sentinel.go:247-262 | a push that arrives sets a strict majority within the fleet |
| Quorums.PushCoversAllIff | cmd/sentinel.go:244-262 | every monitored cluster ends at the majority exactly when the first sentinel monitors all that were not there already |
| Quorums.RegisteredQuorumIsMajorityIff | cmd/sentinel.go:195-239 | after an addition, on old and new sentinels, the quorum is a strict majority exactly when the re-listing showed enough of the fleet |
| Quorums.RegisteredFleetIsSafeIff | cmd/sentinel.go:153-158 | with every call through, the fleet is safe exactly when the re-listing showed enough of it |
| Quorums.FailedListingIsUnsafe | cmd/sentinel.go:153-158 | a failed re-listing always lets two disjoint groups declare the master down |
| Quorums.MidwayIsSafeIff | cmd/sentinel.go:225-239 | in any state of the calls the fleet is safe exactly when no old sentinel is late or the two least quorums do not fit into it |
| Quorums.AdditionIsSafeIff | cmd/sentinel.go:225-239 | safe whichever calls have been made exactly when one sentinel is added to an even number or to a single one |
| Quorums.PushedQuorumIsReachableIff | cmd/sentinel.go:247-262 | the monitoring sentinels can reach the pushed quorum exactly when they outnumber the others |
| Ports.UsedPorts | internal/docker/manager.go:250-262 | the positive ports of the listed containers |
| Ports.AllocatePort | internal/docker/manager.go:237-248 | the least free port of the range, found whenever there is one |
| Ports.PlanPorts | cmd/cluster.go:205-217 | each port is the least of the range that is neither used nor planned before; fails exactly when fewer than count are free |
| Ports.PlanIsMarkedFirstFit | cmd/cluster.go:213-216 | moving the start of the range is the same as marking each port as used |

## Left out

- Docker, images, volumes, networks, Grafana, Prometheus, the CLI, HTTP routing and logging: plumbing without state of its own.
- The unique-customer HyperLogLog: its cardinality is approximate.
- USD conversion, average order values and rounding: floating-point presentation of the exact cents modelled here.
- JSON encoding and decoding: snapshots are encoded by a parameter, so `TopOrders` returns the encoded members and not the decoded rows.
- `TopProducts`, `TopCategories`, `ByState`, `TopCustomers`, `TopZips`, `AOVByState`, `Summary` and `NewVsReturningSplit`: they read single entries of tables whose contents are proved.
- Store.Store.constructor: starts from an empty Redis, where the program attaches to whatever an earlier run left there.
- Polling deadlines and retries: only what a successful wait guarantees is kept.
- The enqueuer pool, its cosine wave and the random generator; redelivery is covered for the leaderboards only, since every other structure counts each delivery.
- Two commands at work on one cluster at the same time: each command is one step.
- Sentinel rewiring replicas later on by itself: an election moves any of them or none.
- Elections.PromotionHoldsIff: says nothing about a promotion whose master has been removed, which takes a removal that no sentinel objected to.
- Cluster.Cluster.RemoveSentinel: the SENTINEL REMOVE calls and the quorum push of the same command are modelled in `Quorums`, not here.
- `cluster create` beyond its port planning, `cluster rm` and `destroy`: runs start from what create leaves and end before rm.
- Port-range parsing: a checked parse of two integers.
