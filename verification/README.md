# AetherTrader in Dafny

AetherTrader is a Bitcoin/Euro trading bot. Once a minute it measures how
far the price moved over the last hour and files that as a `MarketState`
in a bounded history. From the history it predicts a `Trend`. A state
machine over `TradingState` (HOLD_IN → LONG → HOLD_OUT → SHORT) then
places limit and instant orders on a simulated `TestWallet`. Prices and
account data come from the Bitstamp REST API through
`BitstampAPIConnection`, which signs private calls with HMAC-SHA256 and
retries bad responses.

This project models that core in six modules:

- `Wrappers` (`wrappers.dfy`) holds `Option`.
- `History` (`circular_list.dfy`) is `CircularList`. It is a class over a `seq` whose `Push` drops the oldest element at capacity.
- `Market` (`market.dfy`) holds:
  - the `MarketState` and `Trend` enumerations;
  - `getMarketState`;
  - `predictMarket`, as a loop method proved against a function of the history.
- `Wallet` (`wallet.dfy`) is `TestWallet`.
  - It is a class whose methods change its balances and order list.
  - Each method is proved equal to a specification function on a `Ledger` value.
  - Lemmas state the invariants those functions keep: order ids, reserved amounts and value.
- `Trader` (`trader.dfy`) holds:
  - `doAction` as a step function on `TradingState`, and `getTradingState`;
  - `getOrder`'s search loop;
  - an `AutoTrader` class whose `DoNextAutoTrade` and `DoAction` update the trader, its history and its wallet.
- `Bitstamp` (`bitstamp.dfy`) holds:
  - the query and payload builders;
  - the signature string and the HMAC chain the retry loop computes;
  - the check of the server's signature;
  - the retry rule shared by the four `send…Request` methods.

Money is modelled as `real`. `BigDecimal` and `double` arithmetic, including
the `HALF_DOWN` divisions, is taken as exact. The `int` score in
`predictMarket` is an unbounded `int`. Its `*= 1.25` and `*= 0.75`
truncate toward zero, and the model does that explicitly. HMAC-SHA256 is a
function parameter. The network is a sequence of scripted replies, one for
each attempt the retry loop may make.

## Model

| member | source | states |
|---|---|---|
| History.Pushed | CircularList.java:17-24 | the pushed element becomes the head; below capacity the old list follows whole, at capacity the last element is dropped |
| History.PushAllWindow | CircularList.java:4-24 | after any pushes onto an empty list it holds min(pushes, maxSize) elements, the newest first, so the size bound is never exceeded |
| History.CircularList.constructor | CircularList.java:11-15 | a new list is empty and remembers its capacity |
| History.CircularList.Push | CircularList.java:17-24 | the list becomes `Pushed(old list, maxSize, e)` and stays within capacity |
| Market.Classify | AetherTrader.java:1001-1040 | each of the seven states holds exactly on its percentage band (FLAT on the open interval (-0.20, 0.20), UP on [0.20, 1.5), UUP on [1.5, 5), VOLATILE_UP from 5, mirrored downwards); UNKNOWN is never produced |
| Market.ClassifyMonotone | AetherTrader.java:42-67 | a larger percentage never yields a state of smaller weight |
| Market.FiveQuarters | AetherTrader.java:807-809 | `overall *= 1.25` on an int is 5x/4 truncated toward zero, for negative scores too |
| Market.ThreeQuarters | AetherTrader.java:816-818 | `overall *= 0.75` on an int is 3x/4 truncated toward zero |
| Market.IndexOf | AetherTrader.java:789-791 | `indexOf` gives the first position of an equal element, or -1 when none exists |
| Market.Decider | AetherTrader.java:834 | the sign of `decider` is the sign of 2·overall + 3·(allUp − allDw), the weights 1.0 and 1.5 doubled |
| Market.PredictTrend | AetherTrader.java:836-852 | an UNKNOWN anywhere in the history, or an empty history, predicts FLAT |
| Market.PredictMarket | AetherTrader.java:782-853 | the loop over the history computes exactly `PredictTrend` of the history |
| Market.AllUpMeaning | AetherTrader.java:788-801 | `allUp` holds iff no compared element is lighter than its predecessor, where every element equal to the head is skipped |
| Market.AllDwMeaning | AetherTrader.java:788-801 | `allDw` holds iff no compared element is heavier than its predecessor, with the same skipping |
| Market.IndexOfQuirk | AetherTrader.java:789-801 | [UP, DW, UP] is scored as falling, because the third element equals the head and escapes the monotonicity test |
| Market.SteadyRise | AetherTrader.java:782-853 | five UP states score 5 with both flags set and predict UP |
| Market.ScoreOrderMatters | AetherTrader.java:805-830 | the same states in a different order give a different score, since FLAT scales what came before it |
| Market.TruncatesTowardZero | AetherTrader.java:805-830 | concrete scores: −1·1.25 stays −1, −2·0.75 becomes −1, 3·1.25 becomes 3 |
| Market.RisingScoreNonNegative | AetherTrader.java:805-830 | a history of non-negative states never scores below zero |
| Market.FallingScoreNonPositive | AetherTrader.java:805-830 | a history of non-positive states never scores above zero |
| Wallet.IndexOfId | TestWallet.java:184-201 | the first pending order with the id, or −1 when none has it |
| Wallet.ScanIndexes | TestWallet.java:232-253 | the first pass collects, in increasing order, exactly the indexes of the orders the price reaches |
| Wallet.RemoveEach | TestWallet.java:254-259 | the second pass removes at most one order per collected index |
| Wallet.Match | TestWallet.java:229-260 | executing orders changes only balances, orders and the executed count; available amounts, ids, placed and cancelled counts are untouched |
| Wallet.TestWallet.constructor | TestWallet.java:31-39 | a new wallet has available equal to balance in both currencies, no orders, id 0 and zero counters |
| Wallet.TestWallet.PlaceSellInstantOrder | TestWallet.java:72-101 | the wallet becomes `SellInstant` of its old state: refused above the available BTC, otherwise both BTC figures drop by amt and both EUR figures rise by amt·last |
| Wallet.TestWallet.PlaceBuyInstantOrder | TestWallet.java:103-132 | the wallet becomes `BuyInstant` of its old state: refused above the available EUR, otherwise EUR drops by amt and BTC rises by amt/last |
| Wallet.TestWallet.PlaceSellLimitOrder | TestWallet.java:134-156 | the wallet becomes `SellLimit` of its old state: the order is appended with the next id and its BTC is reserved |
| Wallet.TestWallet.PlaceBuyLimitOrder | TestWallet.java:158-180 | the wallet becomes `BuyLimit` of its old state: guarded by available BTC, it appends the order and reserves amount·price EUR |
| Wallet.TestWallet.CancelOrder | TestWallet.java:182-218 | the wallet becomes `Cancel` of its old state: the first order with the id is removed and its reservation released, or nothing changes and nothing is returned |
| Wallet.TestWallet.GetOpenOrders | TestWallet.java:220-227 | returns the pending orders and changes nothing |
| Wallet.TestWallet.Run | TestWallet.java:229-260 | the wallet becomes `Match` of its old state at the price `last`, including the index-shifting removal |
| Wallet.TestWallet.ScanPass | TestWallet.java:231-253 | the first loop leaves the balances and indexes `ScanOrders` gives for the whole order list, and changes nothing else |
| Wallet.TestWallet.RemovePass | TestWallet.java:254-259 | the second loop leaves the orders and executed count `RemoveEach` gives, and reports whether it ran past the end |
| Wallet.ReservedNonNegative | TestWallet.java:134-180 | orders with non-negative amounts and prices reserve non-negative BTC and EUR |
| Wallet.ReservedBtcPositive | TestWallet.java:134-156 | BTC is reserved iff some pending sell has a positive amount |
| Wallet.ReservedEurPositive | TestWallet.java:158-180 | EUR is reserved iff some pending buy has a positive amount·price |
| Wallet.AppendWellFormed | TestWallet.java:139-144 | appending an order with the next id keeps ids increasing and below the next id |
| Wallet.RemoveWellFormed | TestWallet.java:198-207 | removing any order keeps the ids well formed |
| Wallet.AvailableWithinBalance | TestWallet.java:134-218 | when the reservations are covered, available never exceeds balance in either currency |
| Wallet.BuyLimitBalanced | TestWallet.java:158-180 | a buy limit keeps balance = available + reserved |
| Wallet.SellLimitBalanced | TestWallet.java:134-156 | a sell limit keeps balance = available + reserved |
| Wallet.LimitOrdersKeepInvariant | TestWallet.java:134-180 | both limit placements keep the ledger well formed and balanced |
| Wallet.InstantOrdersKeepInvariant | TestWallet.java:72-132 | both instant orders keep the ledger well formed and balanced |
| Wallet.InstantOrdersConserveValue | TestWallet.java:57-132 | an instant order at the market price leaves the value (EUR + BTC·last) unchanged |
| Wallet.CancelShape | TestWallet.java:182-218 | cancelling a present order removes exactly it, returns its reservation to `available` and counts the cancellation |
| Wallet.CancelReleases | TestWallet.java:182-218 | cancelling a present order lowers the reserved total by exactly what it adds to `available`, keeps the balances and keeps the ledger well formed |
| Wallet.CancelKeepsInvariant | TestWallet.java:182-218 | cancelling keeps the ledger well formed and balanced |
| Wallet.LimitOrdersKeepCover | TestWallet.java:134-180 | both limit placements keep the ledger well formed and its reservations covered |
| Wallet.InstantOrdersKeepCover | TestWallet.java:72-132 | both instant orders keep the ledger well formed and its reservations covered |
| Wallet.CancelKeepsCover | TestWallet.java:182-218 | cancelling keeps the ledger well formed and its reservations covered |
| Wallet.SellLimitThenCancel | TestWallet.java:134-218 | a sell limit followed by cancelling its id restores every balance, leaving only the id and counters advanced |
| Wallet.BuyLimitThenCancel | TestWallet.java:158-218 | the same round trip for a buy limit |
| Wallet.ScanAtMostOne | TestWallet.java:232-253 | a pass that executes nothing keeps the balances; one that executes one order applies just that order's effect |
| Wallet.ExecutionKeepsCover | TestWallet.java:235-251 | executing one covered order and removing it keeps the remaining reservations covered |
| Wallet.MatchOneExecution | TestWallet.java:229-260 | with at most one execution, the pass completes, removes exactly that order and keeps the ledger well formed and covered |
| Wallet.SellProceedsStayReserved | TestWallet.java:244-251 | an executed sell credits EUR to the balance only, so available EUR stays 0 and balance ≠ available + reserved |
| Wallet.TwoExecutionsMisremove | TestWallet.java:254-259 | on three sells where the first two execute, removal by shifted index drops the third and keeps the second; on two sells it runs past the end |
| Wallet.RemovalsAboveKeep | TestWallet.java:254-259 | removals at indexes past a position leave the order at that position in place |
| Wallet.SecondExecutionStaysPending | TestWallet.java:229-260 | whenever two or more orders execute, the second executed order is still pending after the pass, so the result is never the intended one |
| Wallet.ThreeSellsBalanced | TestWallet.java:134-156 | three sells reserving all 4 BTC form a well-formed, balanced ledger |
| Wallet.ThreeSellsMatch | TestWallet.java:229-260 | at 50 the two sells at 10 execute, the balances move by both, and the 2-BTC sell is the one left pending |
| Wallet.MisremovalBreaksCover | TestWallet.java:182-260 | after that pass the pending sell exceeds balance minus available, and cancelling it makes 2 BTC available out of a 1-BTC balance |
| Wallet.KeepUnexecuted | TestWallet.java:229-260 | the intended result keeps at most the original orders |
| Wallet.KeepUnexecutedExact | TestWallet.java:229-260 | it keeps exactly the orders the price does not reach |
| Wallet.KeepAllWhenNoneExecutes | TestWallet.java:229-260 | with no execution, all orders are kept |
| Wallet.RemovalAgreesForOneExecution | TestWallet.java:254-259 | with at most one execution, the as-written removal agrees with the intended filter |
| Wallet.BuyLimitOverdraws | TestWallet.java:158-172 | a buy limit with no EUR at all is accepted and drives available EUR negative |
| Wallet.FundedBuyLimit | TestWallet.java:158-180 | the intended buy limit is accepted iff amount·price ≤ available EUR, so available EUR never goes negative |
| Trader.StepDecides | AetherTrader.java:619-765 | a step goes to UNKNOWN iff already there or an open-orders read fails in a position; it cancels iff in a position with orders, against the trend, past the margin; it covers where a cancel leads, that an empty order list closes the position, that only HOLD_IN sells and only HOLD_OUT buys, the amounts and limit prices placed, that a flat trend holds, and the entry price left |
| Trader.StepFollowsProgression | AetherTrader.java:21-37 | a step stays, moves to UNKNOWN, advances along HOLD_IN → LONG → HOLD_OUT → SHORT (two steps for an instant order), or steps back after a cancel; LONG never becomes SHORT or back |
| Trader.GetTradingState | AetherTrader.java:1047-1089 | UNKNOWN iff the BTC and EUR shares differ by at most 0.9; HOLD_IN/LONG iff more BTC than EUR; LONG and SHORT imply a reservation on their side, HOLD_IN and HOLD_OUT its absence |
| Trader.SharesSplit | AetherTrader.java:1056-1063 | the shares differ by at most 0.9 iff BTC holds between 5% and 95% of the value |
| Trader.UnknownMeansEvenSplit | AetherTrader.java:1047-1063 | the wallet reads UNKNOWN iff its BTC is worth between 5% and 95% of its value |
| Trader.PositionMeansPendingOrder | AetherTrader.java:1066-1089 | on a balanced wallet, LONG iff a positive sell is pending (BTC side), SHORT iff a positive buy is pending (EUR side) |
| Trader.GetOrder | AetherTrader.java:924-947 | a failed read is passed on; otherwise the first open order with the id is found, or an error when none has it |
| Trader.ActInLong | AetherTrader.java:663-697 | in LONG with a known entry: no open order moves to HOLD_OUT; a fall past the margin cancels the order and moves to HOLD_IN only if the cancel succeeds; otherwise nothing changes |
| Trader.ActInShort | AetherTrader.java:725-759 | in SHORT with a known entry: no open order moves to HOLD_IN; a rise past the margin cancels the order and moves to HOLD_OUT only if the cancel succeeds; otherwise nothing changes |
| Trader.ActResolvesEntry | AetherTrader.java:625-628 | the −1 sentinel for the entry price behaves as the current price |
| Trader.Tick | AetherTrader.java:582-597 | a −999 sample changes nothing; otherwise the market state is the classification and it is pushed onto the 20-element history |
| Trader.PlacementsAreAccepted | AetherTrader.java:637-724 | every order `doAction` places on the wallet is accepted, and its id becomes `lastOrderID` |
| Trader.AllInReadsHoldIn | AetherTrader.java:1066-1089 | a wallet with only unreserved BTC reads HOLD_IN |
| Trader.AllOutReadsHoldOut | AetherTrader.java:1066-1089 | a wallet with only unreserved EUR reads HOLD_OUT |
| Trader.EnteringLongMatchesWallet | AetherTrader.java:638-648 | HOLD_IN with an up trend enters LONG at the current price with one sell of all BTC at price·1.015, and the wallet then reads LONG |
| Trader.SellingOutMatchesWallet | AetherTrader.java:649-657 | HOLD_IN with a down trend sells everything instantly, and trader and wallet agree on HOLD_OUT |
| Trader.BuyingInMatchesWallet | AetherTrader.java:711-719 | HOLD_OUT with an up trend buys with all EUR instantly, and trader and wallet agree on HOLD_IN |
| Trader.ClosingLongMatchesWallet | AetherTrader.java:663-686 | closing a LONG by cancelling its sell returns all BTC to available, and trader and wallet agree on HOLD_IN |
| Trader.ShortBuysNothing | AetherTrader.java:700-710 | HOLD_OUT with a down trend on an all-EUR wallet places a buy of 0 BTC, reserves nothing, and leaves the wallet reading HOLD_OUT while the trader says SHORT |
| Trader.FundedShortMatchesWallet | AetherTrader.java:700-710 | sizing the buy by available EUR is accepted, reserves all EUR, and the wallet then reads SHORT |
| Trader.ExecutedLongStrandsProceeds | AetherTrader.java:692-696 | once a LONG sell executes, the trader moves to HOLD_OUT but the wallet, whose EUR stays reserved, reads SHORT |
| Trader.StartLedger | AetherTrader.java:569 | the starting test wallet holds only unreserved BTC |
| Trader.AutoTrader.constructor | AetherTrader.java:567-577 | a new trader starts with a fresh wallet of 0.00338066 BTC and no EUR, the trading state `getTradingState` reads from that wallet (HOLD_IN), UNKNOWN market, the −1 entry sentinel and an empty 20-element history |
| Trader.AutoTrader.DoNextAutoTrade | AetherTrader.java:582-597 | the trader, history and wallet become `Tick` of their old values |
| Trader.AutoTrader.DoAction | AetherTrader.java:619-775 | the returned state, entry price, order id and wallet are those `Act` gives for the trend predicted from the history |
| Trader.AutoTrader.HoldInArm | AetherTrader.java:637-662 | the HOLD_IN case agrees with `Act` |
| Trader.AutoTrader.LongArm | AetherTrader.java:663-698 | the LONG case, with its open-orders read and cancellation, agrees with `Act` |
| Trader.AutoTrader.HoldOutArm | AetherTrader.java:699-724 | the HOLD_OUT case agrees with `Act` |
| Trader.AutoTrader.ShortArm | AetherTrader.java:725-761 | the SHORT case agrees with `Act` |
| Bitstamp.Hex | BitstampAPIConnection.java:234-236 | a digest becomes twice as many lower-case hex digits |
| Bitstamp.HexRoundTrip | BitstampAPIConnection.java:234-236 | decoding the hex gives the digest back, so the comparison with the server's signature compares digests |
| Bitstamp.Upper | BitstampAPIConnection.java:209-210 | upper-casing keeps the length and maps each letter to upper case |
| Bitstamp.UpperHexHasNoSpace | BitstampAPIConnection.java:209-210 | the signature header holds only the digits 0-9 and A-F |
| Bitstamp.BuildPayload | BitstampAPIConnection.java:296-300 | the loop builds `offset=1` followed by `&param` for each parameter |
| Bitstamp.BuildQueryPath | BitstampAPIConnection.java:128-134 | the loop builds the end point, `?`, then `&param` for each parameter |
| Bitstamp.FieldsOfJoin | BitstampAPIConnection.java:296-300 | splitting a joined string at `&` gives back the first field and the parameters, provided none holds an `&` |
| Bitstamp.PayloadFields | BitstampAPIConnection.java:296-300 | the private payload reads as `offset=1` followed by exactly the parameters |
| Bitstamp.QueryFields | BitstampAPIConnection.java:128-134 | the query reads as an empty field followed by the parameters (the `?&` form) |
| Bitstamp.StringToSign | BitstampAPIConnection.java:188-199 | the string signed starts with the `BITSTAMP ` header, which has a space at position 8 |
| Bitstamp.RetrySignsDigest | BitstampAPIConnection.java:199-210 | the first attempt signs the canonical string, but every later one signs the previous digest, which never equals it |
| Bitstamp.CheckPublic | BitstampAPIConnection.java:94-100 | a public attempt fails only as a bad response or an unexpected error |
| Bitstamp.CheckPrivate | BitstampAPIConnection.java:225-241 | a private attempt passes iff status 200, both headers present and the lower-case hex HMAC of nonce, timestamp, content type and body equals the server's signature; it is a bad response iff the status is not 200 |
| Bitstamp.Settle | BitstampAPIConnection.java:201-266 | a call makes between one and four attempts |
| Bitstamp.SettleMeans | BitstampAPIConnection.java:243-266 | every attempt before the last failed retryably, the call ends as its last attempt, and it stops before the fourth only on a success or a non-retryable error |
| Bitstamp.Gets | BitstampAPIConnection.java:85-92 | every public attempt is the same GET |
| Bitstamp.PostsShareNonce | BitstampAPIConnection.java:194-221 | every attempt of a call sends the same URL, payload, key, nonce and timestamp; only the signature moves along the chain |
| Bitstamp.FixedPosts | BitstampAPIConnection.java:199-221 | in the intended requests, every attempt carries the HMAC of the canonical string |
| Bitstamp.RetriesDeviateFromFixed | BitstampAPIConnection.java:199-221 | the first request is the intended one; every later one signs something other than the canonical string |
| Bitstamp.RetryPublic | BitstampAPIConnection.java:81-116 | the loop's outcome and requests are those of the retry rule on the public checks |
| Bitstamp.RetryPrivate | BitstampAPIConnection.java:201-267 | the loop's outcome and requests are those of the retry rule on the private checks, with the signature chain |
| Bitstamp.BitstampAPIConnection.constructor | BitstampAPIConnection.java:44-68 | the connection keeps the key and secret, either of which may be absent |
| Bitstamp.BitstampAPIConnection.SendPublicRequest | BitstampAPIConnection.java:76-117 | a GET of `https://www.bitstamp.net` + end point, settled by the retry rule |
| Bitstamp.BitstampAPIConnection.SendPublicRequestWithParams | BitstampAPIConnection.java:126-172 | the same GET with the query path |
| Bitstamp.BitstampAPIConnection.SendPrivateRequest | BitstampAPIConnection.java:180-268 | without a key or a secret it fails at once and sends nothing; with an empty secret the HMAC key cannot be built and it fails with an unexpected error before sending; otherwise a signed POST of `offset=1`, settled by the retry rule |
| Bitstamp.BitstampAPIConnection.SendPrivateRequestWithParams | BitstampAPIConnection.java:277-371 | the same three outcomes, with the parameters appended to the payload |
| Bitstamp.PublicRetriesBadResponsesOnly | BitstampAPIConnection.java:102-115 | a public call never ends in a signature mismatch, and every attempt before its last got a non-200 status |
| Bitstamp.PrivateCallEnds | BitstampAPIConnection.java:243-266 | a private call that ends in a retryable error has made all four attempts; a successful one returns the body of a reply whose signature checked out |

## Left out

- Timers, threads and `AutoTraderTask` are left out. A tick is one call of `DoNextAutoTrade`.
- `calculatePercentChange` and the OHLC and ticker reads are left out because they are network I/O.
  - The percentage and the prices `last` and `recheck` are parameters.
  - The −999 result is kept as `NoSample`.
- `setUpMarketHistory` is left out because its samples come from the network. `History.PushAllWindow` states what any sequence of pushes leaves.
- The interactive menu, the GUI, `formatJSON` and every `user…` wrapper around the wallet are left out because they are I/O.
- The trader's own order wrappers and their sentinel resets are left out: `cancelOrder`, the `place…Order` methods and `getOpenOrders` of `AetherTrader`. `DoAction` calls the `TestWallet` directly, as `doAction` does.
- The wallet's ticker reads are taken equal to the `last` price of the tick.
- JSON shapes are left out. Results are datatypes. This includes the misspelt `stauts` key of a buy limit. The `type` 1 of an instant buy is kept: `Wallet.BuyInstant` returns an order of kind `Sell`.
- `BigDecimal` rounding (`HALF_DOWN`) and `double`/`float` rounding are left out; prices and amounts are exact reals.
- A zero price where the code divides by it is not modelled. An accepted `placeBuyInstantOrder` and `getTradingState` on a zero-valued wallet would throw `ArithmeticException`. So `Wallet.BuyInstant` and `Wallet.TestWallet.PlaceBuyInstantOrder` require a non-zero price only when the buy is funded, and `Trader.ReadTradingState` requires a non-zero value. `Trader.Tick` and `Trader.AutoTrader.DoNextAutoTrade` require a positive price only when there is a sample. `Trader.Perform`, `Trader.Act`, the other `Trader.AutoTrader` members and the lemmas about them take the market price as positive.
- `CircularList` models only `push`. The other inherited `LinkedList` operations are not part of this model.
- Rejected placements are not modelled on the trader's side. Reading the id of a rejected placement throws. `Trader.PlacementsAreAccepted` shows the trader never places an order the wallet refuses.
- The open-orders read of the `TestWallet` always succeeds. The failure branch is kept in `Trader.Step` and in `Trader.GetOrder`.
- `loadKeys` is left out because it reads files. The key and secret are `Option`s given to the constructor.
- URI construction, the HTTP client, `getBytes` character encoding and HMAC-SHA256 are left out.
  - HMAC-SHA256 is a function parameter.
  - Any exception `client.send` throws is a `SendFailed` reply.
  - The timestamp and nonce are parameters.
- The status code stored by `BadResponseException` is left out because nothing reads it.
- Bitstamp.RetryPublic and Bitstamp.RetryPrivate require a scripted reply for each of the four attempts the loop may make.
- Several places where the code and its documentation disagree follow the code:
  - The enum comments give 2.5% band edges where the code uses 1.5%.
  - The comments describe price guards in HOLD_IN and HOLD_OUT that the code has commented out.
  - `getTradingState` compares raw BTC and EUR amounts, not their values.

## Findings

The classes and methods follow the code as written. Each corrected member is stated and proved beside them.

| source | as written | input that shows it | evidently intended | confidence | as-written member | corrected member |
|---|---|---|---|---|---|---|
| TestWallet.java:254-259 | executed orders are removed by their original indexes from a list that shrinks with each removal | orders a, b, c where a and b execute: index 0 removes a, then index 1 removes c instead of b; with sells of 1 and 2 BTC at 10 and 1 BTC at 90 at a price of 50, the 2-BTC sell stays pending against 1 BTC, and cancelling it makes 2 BTC available | remove exactly the executed orders | not executed; high | Wallet.SecondExecutionStaysPending | Wallet.KeepUnexecutedExact |
| TestWallet.java:158-172 | a buy limit is guarded by the available BTC | a wallet with 1 BTC and 0 EUR accepts a buy of 1 BTC at 100 and goes to −100 EUR available | guard on amount·price ≤ available EUR | not executed; high | Wallet.BuyLimitOverdraws | Wallet.FundedBuyLimit |
| AetherTrader.java:700-710 | a short is entered with a buy of `btc_available` BTC | an all-EUR wallet in HOLD_OUT with a down trend buys 0 BTC and the wallet reads HOLD_OUT while the trader says SHORT | size the buy by available EUR over the limit price | not executed; high | Trader.ShortBuysNothing | Trader.FundedShortMatchesWallet |
| BitstampAPIConnection.java:199-210 | each retry signs the previous attempt's digest instead of the canonical string | any private call whose first reply is a non-200 status: the second request's signature is the HMAC of a hex digest | sign the canonical string on every attempt | not executed; high | Bitstamp.RetrySignsDigest | Bitstamp.FixedPosts |
