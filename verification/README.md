# WEETH balance reports: a verified model

The service scans a chain for events, keeps a table of everyone who ever received a pool share
token, and on request splits a pool's WEETH between traders (their margin cash) and liquidity
providers (pro rata to their share tokens). This project models the code that does so and proves what
it promises: in particular that a report over all holders hands out the whole pool, but for less than
one unit per holder, after any history of scans, failures and restarts.

`dafny verify dfyconfig.toml` checks the whole project.

| file | what it models |
|---|---|
| `Wrappers.dfy`, `Sums.dfy` | options and addresses; sums over sequences and maps and their independence of order |
| `Traders.dfy` | trader cash gathered over perpetuals and grouped per address |
| `Reassignment.dfy` | strategy balances moved in place from an account to its delegate |
| `Attribution.dfy` | retried queries; pro-rata Euclidean division of the pool |
| `Merge.dfy` | LP and trader balances merged into report lines while the shared map is zeroed |
| `Chain.dfy`, `Token.dfy` | blocks of events and range queries; the share token as a fold over Transfer events |
| `Filterer.dfy` | the scanner: inclusive ranges, open-ended last query, retries with halved ranges |
| `Horizon.dfy` | one event table with its scan horizon as a state machine over scans, failures, restarts, growth |
| `Store.dfy` | the service's side of that machine: start block, row-by-row inserts, the periodic scan |
| `Recovery.dfy` | which events missing from a table the service can still store |
| `Delegates.dfy` | when the delegates table is complete in spite of its primary key |
| `Holders.dfy` | the SELECT DISTINCT queries, and why the holder list misses nobody |
| `Report.dfy` | the report as a whole; conservation end to end; agreement of the two query modes |
| `Join.dfy` | the two worker goroutines and the two-iteration select, as a state machine |
| `TokenBucket.dfy`, `RpcHandler.dfy`, `Paging.dfy` | rate limiter, round robin, batched queries |

## How the outside world is modelled

- An RPC client (`Filterer.Node`) has a view of the chain that grows between any two calls, and any
  call may fail; it keeps a record of the log queries made. All clients share one view: none lags behind
  what another has reported. A database statement may fail at any time
  (`Store.Database` counts the failures, so that contracts can say what happens when none occurs).
  Answers used by one report are a value of `Report.World`: for each query, what every retry returns,
  or for a paged query what the contract holds at the block and which calls fail in each trial. An
  error while a multicall is set up is one of its first batch, which every list has.
- The chain has no reorganisations. The share token follows EIP-20: tokens are minted by a transfer
  from the zero address, burned by one to it, and nobody sends more than they have (`Token.Funded`).
- Amounts are unbounded integers in pool-token units, as `big.Int` is; trader cash may be negative.
  `big.Int.Div` is Euclidean division, Dafny's `/`. Block numbers do not overflow 64 bits.
- A Go map shared between functions is the class `Traders.Ledger`. A nil map behaves as an empty one
  in every place the code uses it. Map iteration and SELECT DISTINCT happen in any order.
- Instants are exact reals; the bucket's `float64` product is exact and then truncated.

## Findings about the code

Stated as lemmas, with the condition under which the code does what is expected.

- A delegation of an account to itself destroys the balance, unless an earlier row has emptied the
  account and none has refilled it since (`ConservationExactly`, `ReassignmentAccounting`).
- The final ledger depends on the order of the unordered query exactly when two different rows share
  their source, or one moves to the source of the other (`OrderIrrelevantExactly`).
- A perpetual without contract empties the trader balances and one that cannot be queried is an error;
  with both, the order of the perpetuals decides which (`PerpOrderExactly`).
- With a share supply of zero the merge indexes an empty slice unless the address list is empty
  (`Balances`, `Compose`).
- LastBlockTo moves whether or not the insert succeeded, so after a failed insert the service works
  with blocks whose events are missing, and the conservation result does not apply there
  (`CoveredAfterScan`). When the insert failed on its first row a restart repairs this
  (`CoveredAfterRestart`). When some rows went in it does not: rows carry the final block of their scan
  from the first insert on, so a restarted service skips the missing ones for good
  (`InterruptedScanLoses`, `LossIsPermanent`).
- If the table cannot be read when the start block is looked up, the scan starts over from block 1. That
  would recover every missing transfer (`TransfersRecoverable`), but not delegations: the scan meets the
  keys stored before. `RecoverableExactly` gives the condition for both tables.
- The last log query is open-ended, so events beyond the reported block can be stored early and
  fetched again. For transfers this is harmless (`HolderSetExactly`). For delegations the second
  insert violates the primary key and drops all later delegations of the batch
  (`EarlyDelegationDropsLater`), which no later scan can store (`StoredDelegationBlocksLater`); a block
  mined during a scan is enough (`OverlapHidesDelegation`).
- An account that delegates twice in one block violates the same key, and the later delegations of the
  scan are dropped; a run from the empty table loses one for good (`TwiceInABlockHides`). `DelegateScanExactly` has the exact condition for a
  complete scan: no fetched key is stored, and no account delegates twice in a fetched block.
- Requested addresses are not freed of repetitions: a repeated one is attributed its share each time,
  so the report can exceed the pool (`RepeatedAddressCountsTwice`).
- Whenever the handler returns a worker's error, that worker never finishes (`ErrorLeaksWorker`).
- The comment on ranges of 32768 blocks (internal/filterer/filterer.go:135) is outdated: the code starts at 10000.
- The repository's README says that without addresses all token holders are returned; the code adds
  the traders, and the conservation result needs them.

## Model

| member | source | states |
|---|---|---|
| Traders.QueryTraderBalances | internal/etherfi/evm.go:98-146 | through both paged queries with their retries: the map holds every listed account but the proxy, with its converted cash once for each listing in any perpetual; the total is the sum of the map; a missing contract gives an empty map, any other failed query an error |
| Traders.GatheredCash | internal/etherfi/evm.go:109-127 | what is gathered for an address is its converted cash, summed over its listings in all perpetuals |
| Traders.AnswerMeaning | internal/etherfi/evm.go:109-126 | a perpetual answers with each account and its converted cash if both queries are answered, has no contract if the third account trial says so, and otherwise fails |
| Traders.AccountTrials | internal/etherfi/evm.go:213-230 | the account query is answered if and only if one of three trials gets the count and every chunk of 100 |
| Traders.CashTrials | internal/etherfi/evm.go:150-164 | the cash query is answered if and only if one of three trials gets every multicall of 500 |
| Traders.FirstFailureDecides | internal/etherfi/evm.go:109-127 | the first perpetual that does not answer decides how the gathering ends |
| Traders.QueryActiveAddr | internal/etherfi/evm.go:213-230 | the contract's whole account list if some trial goes through; otherwise the last trial's error tells a missing contract from a failure |
| Traders.QueryAvailCash | internal/etherfi/evm.go:150-164 | each account paired with its own converted cash, in order; fails exactly if no trial goes through |
| Traders.Organize | internal/etherfi/evm.go:128-145 | the re-organising loop yields the per-address sums and their total |
| Traders.AccountOrderIrrelevant | internal/etherfi/evm.go:128-145 | permuting the accounts, within or across perpetuals, changes neither the map nor the total |
| Traders.PerpOrderExactly | internal/etherfi/evm.go:109-127 | every permutation of the perpetuals fails alike or gathers the same accounts, if and only if there is not both a perpetual without contract and one that cannot be queried |
| Traders.PerpOrderIrrelevant | internal/etherfi/evm.go:109-145 | when the gathering goes through, it does so in every order of the perpetuals, with the same map and total |
| Reassignment.ReassignTraderBalances | internal/etherfi/etherfi.go:188-199 | the shared map ends as the fold of the moves in list order |
| Reassignment.ReassignmentAccounting | internal/etherfi/etherfi.go:188-199 | for every pair list, with chains, cycles and repeated sources, the sum falls by exactly what self-delegations burn, and by nothing without them |
| Reassignment.ConservationExactly | internal/etherfi/etherfi.go:190-196 | for every pair list, the sum of every ledger is kept if and only if no account delegates to itself at a point where it may hold something |
| Reassignment.ReassignmentFrame | internal/etherfi/etherfi.go:188-199 | no key disappears and unnamed addresses keep their entry |
| Reassignment.StarResult | internal/etherfi/etherfi.go:177-199 | each delegate ends with its own balance plus those of all its sources, each source with zero, whatever the order |
| Reassignment.ReassignmentOrderIrrelevant | internal/etherfi/db.go:119-135 | every permutation of distinct independent rows gives the same final map |
| Reassignment.OrderIrrelevantExactly | internal/etherfi/db.go:119-135 | for the distinct rows the query returns, every order gives the same final map for every ledger if and only if no two different rows share their source and none moves to the source of another |
| Attribution.RetryQuery | internal/etherfi/etherfi.go:236-252 | the first trial that is not an RPC error decides; a missing contract reads as zero |
| Attribution.SettledMeaning | internal/etherfi/etherfi.go:236-252 | a retried query fails exactly when all trials fail, and otherwise reports the earliest that did not |
| Attribution.AttributeLpBalances | internal/etherfi/etherfi.go:285-310 | each holder gets its share of pool balance minus trader total; nothing is asked or attributed at zero supply |
| Attribution.AttributionBounds | internal/etherfi/etherfi.go:297-308 | supply times the attributed sum is within the division dust below remainder times balances, for any balances and either sign |
| Attribution.FullAttribution | internal/etherfi/etherfi.go:283-310 | when the balances make up the supply, the attributed sum lies between R-(m-1) and R, for m nonzero balances |
| Attribution.PartialAttribution | internal/etherfi/etherfi.go:283-310 | for balances below the supply and a nonnegative remainder, never more than the remainder is attributed |
| Attribution.LowerBoundAttained | internal/etherfi/etherfi.go:304-305 | the lower bound is reached for every number of holders |
| Merge.CombineBalances | internal/etherfi/etherfi.go:204-234 | exact mode gives the requested lines, universe mode those followed by the remaining traders in some order; the map is left zeroed at the listed addresses |
| Merge.AddTraders | internal/etherfi/etherfi.go:227-232 | for every iteration order, each nonzero entry of the map becomes one line and nothing else does |
| Merge.ExactReport | internal/etherfi/etherfi.go:207-223 | one line per requested address in request order; a repeated address gets its trader balance only once |
| Merge.UniverseIsPointwiseSum | internal/etherfi/etherfi.go:203-234 | no address twice, no zero, and a line is present exactly if it is the nonzero sum of LP and trader balance |
| Merge.UniverseConserves | internal/etherfi/etherfi.go:203-234 | the lines add up to all LP and trader balances, for any address list and any map order |
| Chain.LogsUpTo | internal/filterer/filterer.go:155-159 | cutting an overlong range at a block gives exactly the shorter range |
| Chain.LogsSplit | internal/filterer/filterer.go:145-181 | adjacent inclusive ranges join without gap or overlap |
| Chain.LogsOfBlock | internal/filterer/filterer.go:48-74 | the logs of one block are the records of its events, one for each, field by field and in their order |
| Chain.LogAt | internal/filterer/filterer.go:144-183 | in a range, the i-th event of block n is found after all events of the blocks before, and nothing else is in the list |
| Chain.TransferCount | internal/filterer/filterer.go:64-74 | a transfer is fetched exactly as often as its block emits it |
| Filterer.FilterEvents | internal/filterer/filterer.go:103-195 | for every pattern of failures, the block reported was the head when the header was read, and success means the logs up to it are the chain's events from the start block, in order and each once; a scan fails exactly without header, with a head before the start block, or after seven failed queries; the queries made follow the plan of halved ranges |
| Filterer.ReadRanges | internal/filterer/filterer.go:144-183 | a trial ends with everything read through the open-ended query, or with one failure that leaves position and logs at the last answered range |
| Filterer.AfterQuery | internal/filterer/filterer.go:160-182 | a failed query neither repeats nor skips, an answered one extends the logs by exactly its range |
| Filterer.PlanMeaning | internal/filterer/filterer.go:136-189 | the queries one by one: an answered range is followed by the block after it, a failed one is repeated from its start; the lengths are 10000, 5000, 2500, 1250, 625, 312 and 156 by the number of failures, and a range that would reach the head is left open |
| Filterer.PlanAdvances | internal/filterer/filterer.go:136-189 | every answered query but the last moves on by at least 157 blocks and never beyond the reported block |
| Filterer.ScanWorkBound | internal/filterer/filterer.go:136-189 | at most (now - start) / 157 + 7 log queries are made |
| Horizon.CoverageOverRuns | internal/etherfi/runfilter.go:10-51 | over every run of scans, failures, crashes, restarts and growth whose inserts complete, every event after Genesis up to the furthest horizon is stored |
| Horizon.GroundedOverRuns | internal/etherfi/runfilter.go:10-51 | in every run at all, rows are events of the chain and no horizon lies beyond Genesis and the head |
| Horizon.PersistedIsLeast | internal/etherfi/db.go:39-54 | the rebuilt horizon is the larger of Genesis and every row's to_block, and is one of them |
| Horizon.HorizonMoves | internal/etherfi/db.go:37-73 | a finished scan moves LastBlockTo strictly forward, also when it had to start over, and then loses no ground once the chain has passed Genesis; growth and cache filling leave the horizon alone, a restart falls back to what the table supports |
| Horizon.ScanCatchesUp | internal/etherfi/runfilter.go:10-51 | from a covered state, a complete scan stores every event after Genesis that was on the chain when it began |
| Horizon.CatchUpOverRuns | internal/etherfi/runfilter.go:10-51 | so does each scan of every run whose inserts complete |
| Horizon.CoveredAfterScan | internal/etherfi/runfilter.go:33-45 | a scan leaves the table covering the horizon in use if and only if the process died before inserting anything or no event up to the reported block was dropped |
| Horizon.CoveredAfterRestart | internal/etherfi/db.go:57-73 | after a restart the table covers the rebuilt horizon if and only if nothing was lost |
| Horizon.InterruptedScanLoses | internal/etherfi/db.go:86-92 | with respect to the horizon in the table, a scan loses events if and only if some rows went in and a dropped one at or below the reported block is not stored anyway |
| Horizon.LossIsPermanent | internal/etherfi/runfilter.go:33-45 | a lost event stays lost in every continuation that can read the table |
| Recovery.RecoverableExactly | internal/etherfi/runfilter.go:10-51 | for both tables: some continuation in which scans reach the head and inserts stop at key clashes stores an event of the chain if and only if it is stored, or a scan from the rebuilt horizon, from the one in memory or, after a failed read, from block 1 meets no taken or repeated key up to it |
| Recovery.TransfersRecoverable | internal/etherfi/db.go:39-54 | a transfer can still reach the table if and only if it is there or lies above the horizon rebuilt from max(to_block); after a failed read of the start block every transfer can |
| Recovery.StoredDelegationBlocksLater | internal/db/migrations/0002_create_delegates.up.sql:10 | once an earlier delegation is stored that every scan reaching a missing one fetches too, the missing one is never stored, not even by scans that start over from block 1 |
| Store.EventStore.GetStartBlock | internal/etherfi/db.go:37-73 | the cached horizon, filled on first use with the least block that neither Genesis nor any to_block exceeds; 0 and unfilled if the table cannot be read |
| Store.EventStore.Insert | internal/etherfi/db.go:75-115 | a prefix of the batch is appended; no error is reported exactly when it is the whole batch and every statement, the prepare included, went through; with a working database the prefix ends only at a key clash |
| Store.EventStore.RunFilter | internal/etherfi/runfilter.go:10-51 | one pass fills the cached horizon and then scans, or changes nothing exactly without header, with a head already covered, or after seven failed queries; a scan moves the horizon to the head at its beginning or beyond; a reported success means the pass is complete, a reported error that it is not or that a statement failed; with a working database the horizon strictly advances and rows go in up to a key clash |
| Store.InsertableExactly | internal/db/migrations/0002_create_delegates.up.sql:10 | a batch of delegations goes in whole if and only if its keys are new and pairwise different |
| Store.InsertsPrefixExactly | internal/etherfi/db.go:97-115 | the first n rows of a batch go in if and only if their keys are new and pairwise different |
| Store.EarlyDelegationDropsLater | internal/filterer/filterer.go:151-154 | a delegation stored ahead of the horizon makes the next scan drop every later one while the horizon passes it |
| Delegates.TransferScansComplete | internal/db/migrations/0001_create_sh_tkn_transfer.up.sql:10 | with a working database, transfer scans always complete |
| Delegates.DelegateScanExactly | internal/etherfi/db.go:97-115 | with a working database, a scan is complete if and only if no key it fetches is in the table and no account delegates twice in a fetched block; without such blocks, if and only if no event it fetches is in the table |
| Delegates.DelegateScansComplete | internal/etherfi/db.go:97-115 | delegate scans complete over every run in which nobody delegates twice in a block and no delegation is made during a scan |
| Delegates.OverlapHidesDelegation | internal/filterer/filterer.go:151-194 | from the empty table, with a working database, a block mined during a scan is enough to lose the next delegation for good |
| Delegates.TwiceInABlockHides | internal/db/migrations/0002_create_delegates.up.sql:10 | from the empty table, with a working database, an account delegating twice in a block is enough to lose the delegation that follows for good |
| Holders.DbGetShareTokenHolders | internal/etherfi/db.go:12-29 | the distinct receivers up to the block, in any order |
| Holders.DbFindStrategyDelegates | internal/etherfi/db.go:117-135 | two aligned lists without repeated pairs, in any order: account k and delegate k come from one row with index 2 up to the block, and every such row is there |
| Holders.DBGetLatestBlock | internal/etherfi/db.go:31-35 | never beyond what either table covers; when both can be read, at most both horizons and one of them |
| Holders.HolderSetExactly | internal/etherfi/db.go:12-29 | the holder query returns exactly the addresses that received the token up to the block, early and duplicate rows notwithstanding |
| Holders.StrategySetExactly | internal/etherfi/db.go:117-135 | for a covered delegates table the query returns a pair if and only if the account declared that delegate for index 2 on the chain up to the block |
| Holders.HoldersComplete | internal/etherfi/db.go:12-29 | every address with a balance is listed, and the listed balances add up to the total supply |
| Report.QueryLpBalances | internal/etherfi/etherfi.go:254-281 | balances aligned with the addresses and the supply; an error exactly if the supply cannot be read or all three multicalls fail |
| Report.TraderWorker | internal/etherfi/etherfi.go:126-137 | the per-trader cash, queried with retries and re-assigned in place, with its total; an error exactly if a query failed |
| Report.Compose | internal/etherfi/etherfi.go:162-174 | attribution and merge; a panic exactly at zero supply with a nonempty address list |
| Report.Balances | internal/etherfi/etherfi.go:99-175 | the report for the requested addresses or for all holders; errors exactly when a query failed |
| Report.FailureCauses | internal/etherfi/etherfi.go:254-295 | the LP query fails if and only if all four supply trials do or, with a nonzero supply, all three multicalls; the attribution after it if and only if, with a nonzero supply, all four pool trials do |
| Report.ReportWithoutSupply | internal/etherfi/etherfi.go:227-232 | without share supply the report lists every nonzero re-assigned trader balance once and nothing else |
| Report.ReportConserves | internal/etherfi/etherfi.go:99-175 | after any run whose inserts complete, at any block both tables have reached with positive supply, the all-holders report sums to between P-(n-1) and P, less what self-delegations of live accounts burn |
| Report.ReportUsesChainDelegations | internal/etherfi/etherfi.go:177-199 | after any run of the delegates table whose inserts complete, and up to any block both tables have reached, the re-assignment uses exactly the strategy delegations made on the chain, each once |
| Report.ReportUsesConvertedCash | internal/etherfi/etherfi.go:126-137 | the trader balances of a report are the converted cash of the perpetuals |
| Report.ReportConservesWithWorkingDatabase | internal/etherfi/etherfi.go:99-175 | over every run in which no insert fails, and when no live account delegates to itself, the all-holders report sums to between P-(n-1) and P |
| Report.ReportConservesAt | internal/etherfi/etherfi.go:162-174 | the same in any state whose table covers its horizon |
| Report.ExactStaysWithinPool | internal/etherfi/etherfi.go:162-174 | for any distinct requested addresses, at most the pool balance minus the trader total is attributed, and all reported lines stay within the pool by what self-delegations burn and by what unlisted traders hold |
| Report.RepeatedAddressCountsTwice | internal/etherfi/etherfi.go:101-113 | requested twice, the only holder is attributed the remainder twice |
| Report.ModesAgree | internal/etherfi/etherfi.go:101-113 | exact mode answers in request order with the amounts of the all-holders report, and zero where that has no line, in any database order when the delegations are independent |
| Join.AttributionHasBoth | internal/etherfi/etherfi.go:123-161 | in every interleaving, attribution starts only with one good result from each worker and only if neither failed |
| Join.FinalOutcome | internal/etherfi/etherfi.go:147-161 | a run that cannot go on has both results or an error, and an error exactly when some worker failed |
| Join.NeverStuck | internal/etherfi/etherfi.go:149-161 | while the select waits some step is possible, and every step uses up a bounded rank |
| Join.ErrorLeaksWorker | internal/etherfi/etherfi.go:128-136 | after an error return the two workers never both finish |
| TokenBucket.TokenBucket.Take | internal/utils/token_bucket.go:52-63 | the bucket after the refill and one take, and whether it was granted |
| TokenBucket.TokenBucket.WaitForToken | internal/utils/token_bucket.go:37-50 | the wait ends at the first granted attempt, at the latest when the next token is due |
| TokenBucket.FailedTake | internal/utils/token_bucket.go:27-35 | a take fails exactly when the bucket is empty and less than one token time has passed since the last refill |
| TokenBucket.Burst | internal/utils/token_bucket.go:27-35 | of n takes at one instant, as many are granted as tokens are left plus whole ones accrued since the last refill, up to the capacity; the bucket keeps the rest |
| TokenBucket.IdleBurst | internal/utils/token_bucket.go:27-63 | the same in seconds: min(n, capacity, tokens + floor(rate * idle)) grants |
| TokenBucket.AfterIsValid | internal/utils/token_bucket.go:27-63 | 0 <= tokens <= capacity after every history of takes |
| TokenBucket.GrantsSinceCreation | internal/utils/token_bucket.go:18-63 | at most capacity + rate * elapsed grants since creation |
| TokenBucket.WindowBound | internal/utils/token_bucket.go:27-63 | fewer than capacity + 1 + rate * T grants in any window of length T that starts with a take |
| TokenBucket.Throughput | internal/utils/token_bucket.go:27-63 | from any take on, takes at most g apart see at least floor(T / (1/rate + g)) grants in T, wherever between takes the span ends |
| RpcHandler.RpcHandler.Init | internal/utils/rpchandler.go:18-37 | the reachable clients in order, each with a full bucket of its own at the given capacity and rate; an error exactly if there is none |
| RpcHandler.ReachedMeaning | internal/utils/rpchandler.go:20-27 | a list of urls is dialled url by url, in order, and an unreachable one is skipped |
| RpcHandler.RpcHandler.GetNextRpc | internal/utils/rpchandler.go:47-52 | the next client in turn, which has a bucket; the index stays the one that the fairness results assign to the number of calls |
| RpcHandler.EachClientOncePerRound | internal/utils/rpchandler.go:47-52 | any n consecutive calls return each of the n clients exactly once |
| RpcHandler.Fairness | internal/utils/rpchandler.go:47-52 | after any number of calls the usage counts of two clients differ by at most one |
| Paging.CallInBatches | internal/etherfi/evm.go:57-81 | the concatenated batches are the unbatched answers in order; an error exactly if some batch fails, after which nothing more is asked |
| Paging.BatchesAreConsecutive | internal/etherfi/evm.go:58-79 | batches are consecutive, at most inc long, and end at the last index |
| Paging.EachIndexOnce | internal/etherfi/evm.go:58-79 | every index is in exactly one batch |
| Paging.BatchCount | internal/etherfi/evm.go:58-79 | the number of calls is the least possible, and one for an empty list |
| Paging.CallCounts | internal/etherfi/evm.go:58-79 | n addresses take ceil(n / 500) multicalls and n accounts ceil(n / 100) chunks |
| Paging.QueryMultiTokenBalance | internal/etherfi/evm.go:40-82 | one balance per address, in order |
| Paging.TryQueryAvailCash | internal/etherfi/evm.go:168-211 | one converted amount per trader, in order |
| Paging.TryQueryActiveAddr | internal/etherfi/evm.go:233-257 | the contract's whole account list |

## Left out

- FilterEvents: called as the service calls it, with end block 0; the end block argument only affects an early check because it is shadowed in the loop.
- WaitForToken: one waiter, waking at given instants; sleeping, its random length, and which of several waiters is served first are not modelled.
- Balances: the two workers run one after the other, justified by the Join module; a panic or error is an outcome value.
- DBGetLatestBlock: the race between a handler and a scan that both fill LastBlockTo is not modelled.
- Pool balance: an input. The code reads it at the latest block although a block number is passed (internal/etherfi/evm.go:29-38), so the conservation result is about the balance fetched.
- HTTP handlers, JSON and the APY endpoint: presentation. The POST guard that the block is at most DBGetLatestBlock (internal/api/handlers.go:197-202) is a precondition of the end-to-end result.
- The share token contract: not in the repository, whose binding (internal/contracts/erc20.go) only forwards calls. `Token.dfy` proves what EIP-20 bookkeeping implies (`BalanceIsInLessOut`, `SupplyIsSumOfBalances`, `HoldersReceived`, `SomeOwnAtMostTheSupply`), and the end-to-end results rest on it.
- Contract bindings, multicall and the SDK: external; they answer for exactly the items asked or fail. Event iterators deliver every log, since their error state is not checked.
- Conversion of amounts to floating point: sums are stated in integer units before it. `ABDKToDecN` is an arbitrary function.
- Postgres connections and migrations: tables are row sequences; one chain id and one share token, as the queries filter by chain only.
- Go integer widths: block numbers and counts are unbounded.
