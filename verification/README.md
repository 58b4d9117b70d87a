# Copy-trading replication engine, in Dafny

This project models the core of a copy-trading bot for a prediction-market
exchange. The bot watches one user's activity and copies a proportional part
of each of their trades into the operator's own account. Two parts are modelled.

- **The replication engine** (`postOrder`, module `PostOrder` in
  `post_order.dfy`). It dispatches on the strategy tag: `merge`, `buy`, `sell`,
  or anything else, which is unsupported. It sizes the order:
  - merge: the whole own position;
  - buy: the observed notional times `my_balance / (user_balance + usdcSize)`,
    capped at `my_balance`;
  - sell: the own position times `trade.size / (user_position.size + trade.size)`,
    or all of it when the counterparty holds nothing.

  It then walks the order book in a retry loop. Each pass takes a fresh
  snapshot and selects the best level: the highest bid, or the lowest ask for
  buy, with the first such level kept on ties. It applies the 0.05 slippage
  guard (buy and sell only) and posts `min(remaining, level capacity)`. A
  success subtracts the amount and resets `retry`; a failure adds one to
  `retry`. Afterwards the trade record is marked `bot`, and `botExcutedTime`
  records `retry` once the budget `RETRY_LIMIT` is reached.
- **The trade monitor's discovery step** (`fetchTradeData`, module
  `TradeMonitor` in `trade_monitor.dfy`). One poll keeps the `TRADE` activities
  that are recent and whose transaction hash has not been seen. It appends a
  normalised copy of each to the `pendingTrades` queue and adds each hash to
  the `processedTrades` set.

Shared records (`Activity`, `Position`, `Option`) are in `activities.dfy`.

The exchange is an oracle. The walk consumes one `Reply` per pass: the
order-book snapshot fetched in that pass, and whether the fill-or-kill order
posted in that pass succeeded. `Run` is the recursive specification of the
walk. `WalkBook` is the `while` loop, proved equal to `Run`. The lemmas about
`Run` carry the loop's properties. `RETRY_LIMIT`, `TOO_OLD_TIMESTAMP` and
`USER_ADDRESS` are parameters. So are the HTTP response and the current time.

Points where the code's behaviour is easy to misread:
- The sell slippage guard is skipped when the observed price is 0, because
  the code tests `trade.price` for truthiness.
- A sell with no own position is not an early return. The code sets `bot`,
  skips the loop and then runs the common marking. So with a retry limit of
  0 it also records `botExcutedTime = 0`.
- Merge posts its orders under the token of the own position. The book it
  reads, however, is fetched for the observed trade's asset.
- The trade record is marked `bot` on every path of a supported condition
  that returns normally, including the early stops. The retry count is
  recorded in `botExcutedTime` only when the budget is reached. An
  unsupported condition leaves the record as it was.
- Deduplication runs against the set as it was before the poll. Two records
  with the same hash in one response are both queued
  (`SameHashTwiceInOneBatch`). So the poller does not guarantee "at most
  once per transaction identifier" within a single response.

## Model

| member | source | states |
|---|---|---|
| `PostOrder.ParseCondition` | src/utils/postOrder.ts:17-252 | the tags `merge`, `buy` and `sell` select the three strategies; any other tag selects none (the unsupported branch) |
| `PostOrder.BestFrom` | src/utils/postOrder.ts:34-36 | the `reduce` fold keeps a level that no level strictly beats and that strictly beats every level before it |
| `PostOrder.BestIndex` | src/utils/postOrder.ts:116-118 | the selected index is in range; no level has a better price; on ties it is the first level with the extreme price |
| `PostOrder.BestLevel` | src/utils/postOrder.ts:192-194 | no level exactly when the walked side is empty; otherwise a level of that side, highest-priced for bids and lowest-priced for asks, and on ties the first such level (the one `BestIndex` selects) |
| `PostOrder.FirstBidKeptOnTie` | src/utils/postOrder.ts:192-194 | of the bids (0.5, 10) and (0.5, 2), the first is selected, so its size of 10 bounds the order |
| `PostOrder.OrderFor` | src/utils/postOrder.ts:127-141 | the amount is at most `remaining` and at most the level's capacity (size, or size times price for buy), and equals one of them; the order is at the level's price with side BUY for buy and SELL otherwise |
| `PostOrder.BuyPriceOk` | src/utils/postOrder.ts:121-125 | a buy passes the guard exactly when the ask is at most the trade price + 0.05 |
| `PostOrder.SellPriceOk` | src/utils/postOrder.ts:198-204 | a sell passes the guard exactly when the trade price is 0 or the bid is at least the trade price - 0.05 |
| `PostOrder.WithinSlippage` | src/utils/postOrder.ts:26-64 | merge has no guard (its loop posts at the best bid whatever its price); buy and sell pass exactly when their own guard does |
| `PostOrder.Step` | src/utils/postOrder.ts:185-227 | one pass: it stops with EmptyBook exactly when the side is empty, and with PriceMoved exactly when the best level fails the slippage guard; it posts an order exactly when the side is non-empty, the best level passes the guard and the amount `min(remaining, capacity)` is positive; a posted order is at the best level, for a positive amount no larger than `remaining` |
| `PostOrder.Run` | src/utils/postOrder.ts:184-243 | the walk makes at most one attempt per reply, and its final retry count never exceeds `RETRY_LIMIT` |
| `PostOrder.RunAttemptsAreSound` | src/utils/postOrder.ts:26-75 | each attempt of a walk is the pass decision on the reply at the same position; it is taken while `remaining > 0` and `retry < RETRY_LIMIT`; a walk makes at most one attempt per reply |
| `PostOrder.RunOrdersWithinLimits` | src/utils/postOrder.ts:198-227 | every posted amount is positive, at most `remaining` and at most the level's capacity; a buy never trades above trade price + 0.05; a sell never trades below trade price - 0.05 unless the trade price is 0 |
| `PostOrder.RunThreadsState` | src/utils/postOrder.ts:231-242 | the loop state is threaded: the first attempt starts from the initial state; a success subtracts exactly the amount and resets `retry` to 0; a failure adds 1 to `retry` and keeps `remaining`; the walk ends in the state the last attempt left |
| `PostOrder.RunAccounting` | src/utils/postOrder.ts:151-156 | the final `remaining` is the initial one minus the successful amounts; it never rises; it never goes negative when it started non-negative |
| `PostOrder.RunExit` | src/utils/postOrder.ts:108-163 | `retry <= RETRY_LIMIT` at the end; the walk ends with Done exactly when `remaining <= 0`, and with RetriesExhausted exactly when `remaining > 0` and `retry == RETRY_LIMIT`; an exit for running out of replies comes after one attempt per reply; any other exit is a break taken while the loop condition held: the pass on the next unused reply, from the state the walk ended in, halted with that very exit, so the walk never stops while it should go on |
| `PostOrder.ThreeFailuresExhaustRetries` | src/utils/postOrder.ts:157-162 | with a limit of 3, three failed posts make three attempts and end with RetriesExhausted, `retry = 3` and `remaining` unchanged |
| `PostOrder.WalkBook` | src/utils/postOrder.ts:184-243 | the `while` loop over `remaining`, `retry` and one reply per pass computes exactly the walk `Run` specifies |
| `PostOrder.BuyRemaining` | src/utils/postOrder.ts:101-106 | the buy target is `min(usdcSize * my_balance / denominator, my_balance)`: at most each of the two and equal to one of them; it is positive exactly when the notional is positive |
| `PostOrder.SellRemaining` | src/utils/postOrder.ts:172-182 | nothing without an own position; the whole own position when the counterparty has none; otherwise the own position in the proportion `trade.size / (user_position.size + trade.size)` (0 when that denominator is 0) |
| `PostOrder.SellWithinPosition` | src/utils/postOrder.ts:172-182 | with non-negative sizes the sell target lies between 0 and the own position |
| `PostOrder.SellAllWhenCounterpartyFlat` | src/utils/postOrder.ts:176-181 | the full own position is sold when the counterparty has no position, or a position of 0 and the trade size is non-zero |
| `PostOrder.Launch` | src/utils/postOrder.ts:17-182 | unsupported tags stop at once; merge stops, with NoPosition, exactly when there is no own position, and otherwise targets the whole position under its token; buy stops exactly when `user_balance + usdcSize <= 0` (BadDenominator) or else `my_balance <= 0` (NoBalance), and otherwise targets exactly `BuyRemaining` of the notional, the balance and that denominator; sell always walks from its sizing rule |
| `PostOrder.BuyCappedAtBalance` | src/utils/postOrder.ts:87-106 | balance 100, counterparty balance 0 and notional 50 give a target of 100 |
| `PostOrder.Finish` | src/utils/postOrder.ts:77-82 | after a walk the record is marked `bot`; `botExcutedTime` becomes the retry count when the budget was reached and is otherwise kept; no other field changes |
| `PostOrder.PostOrder` | src/utils/postOrder.ts:7-253 | an unsupported tag leaves the trade untouched and posts nothing; every supported tag returns it with `bot` set; only `bot` and `botExcutedTime` change; `botExcutedTime` changes only to `retry == RETRY_LIMIT`, and it is recorded whenever the retries ran out; early stops post nothing, and walks are exactly `Run`; a sell without an own position posts nothing and ends its walk at once |
| `TradeMonitor.Cutoff` | src/services/tradeMonitor.ts:45 | the cutoff lies exactly `TOO_OLD_TIMESTAMP` hours, in milliseconds, before the current time |
| `TradeMonitor.Filter` | src/services/tradeMonitor.ts:42 | the result is no longer than the input; it holds exactly the input elements the predicate keeps |
| `TradeMonitor.FilterAppend` | src/services/tradeMonitor.ts:48-52 | filtering distributes over concatenation, so it keeps the input's order |
| `TradeMonitor.NewTrades` | src/services/tradeMonitor.ts:42-52 | a record is selected exactly when it is in the response, has type `TRADE`, has a hash not seen before, and has `timestamp >= now - TOO_OLD_TIMESTAMP * 3600000` |
| `TradeMonitor.Stamp` | src/services/tradeMonitor.ts:59-64 | the queued copy has `proxyWallet = USER_ADDRESS`, `bot = false` and `botExcutedTime = 0`, and every other field of the trade |
| `TradeMonitor.Queued` | src/services/tradeMonitor.ts:58-64 | one queued record per selected trade, in order; each has `proxyWallet = USER_ADDRESS`, `bot = false` and `botExcutedTime = 0`, and all other fields equal the trade's |
| `TradeMonitor.QueuedAreUnseen` | src/services/tradeMonitor.ts:48-52 | no queued record carries a hash already in the seen set, and each is a recent `TRADE` |
| `TradeMonitor.SameHashTwiceInOneBatch` | src/services/tradeMonitor.ts:48-66 | a qualifying record that occurs twice in one response is selected twice |
| `TradeMonitor.AppendUnseen` | src/services/tradeMonitor.ts:58-66 | appending the stamped copies of unseen trades and adding their hashes keeps every queued hash in the seen set; each new entry's hash is new to the set and differs from every earlier entry's hash |
| `TradeMonitor.Monitor.Enqueue` | src/services/tradeMonitor.ts:58-68 | the `for` loop appends exactly the stamped batch, in order, at the tail of the queue and adds exactly the batch's hashes to the seen set; it keeps every queued hash in the seen set (`Valid`) |
| `TradeMonitor.Monitor.constructor` | src/services/tradeMonitor.ts:9-16 | startup needs a user address; the queue and the seen set start empty |
| `TradeMonitor.Monitor.FetchTradeData` | src/services/tradeMonitor.ts:18-73 | a missing, non-array or empty response changes nothing; otherwise the queue gains the stamped selected trades at its tail and the seen set gains their hashes; earlier entries are unchanged; the set only grows; each newly queued hash was unseen before the poll and is now seen; no new entry shares a hash with an earlier entry; every queued hash is in the set (`Valid`) |

## Left out

- I/O is not part of this model: console output, the 500 ms and 2000 ms delays, the HTTP request
  (`fetchData`), `Date.now()` and the `ENV` loading. They become parameters or are dropped.
- The exchange calls `getOrderBook`, `createMarketOrder` and `postOrder` are not part of this model.
  They are the `Reply` oracle. Order signing and fill-or-kill matching happen outside the model.
- `PostOrder.WalkBook`: when the oracle runs out of replies the walk stops with `NoReply`. The
  source has no such exit: it waits for each exchange call. This bound is what makes the loop
  terminate, since `retry` resets on every success.
- `PostOrder.PostOrder`: an exchange call that fails (a rejected `getOrderBook`,
  `createMarketOrder` or `postOrder` promise) is not modelled. The source catches none of them, so
  such a failure leaves postOrder before the marking and the trade stays without `bot`. The
  promise that every supported condition marks `bot` holds only for calls that return normally.
- `PostOrder.PostOrder`: the source mutates the caller's trade object in place. The model returns
  the updated record instead. So the aliasing between that object and the queue entry the
  dispatcher handed over is not modelled.
- Floating point: prices, sizes and balances are `real`, and `parseFloat` of the book's decimal
  strings is taken as exact. NaN and Infinity are not modelled. An exchange field that is missing
  (`!orderBook.bids`) is an empty side.
- `PostOrder.SellRemaining`: a zero ratio denominator (`user_position.size + trade.size == 0`)
  gives a target of 0. In the source, 0/0 is NaN, which also posts nothing. A non-zero trade size
  over 0 gives ±Infinity. That needs the counterparty position to be the negated trade size, so
  one of the two is negative.
- `PostOrder.SellWithinPosition`: it assumes non-negative sizes. The source never checks position
  or trade sizes.
- `TradeMonitor.Monitor.FetchTradeData`: timestamps are integers and `TOO_OLD_TIMESTAMP` is a whole
  number of hours. Fractional hours are not modelled. A fetch that throws is a `Missing` response,
  as the `catch` swallows it.
- `Activity` keeps only the fields the two modules read or write. The other fields of the activity
  record are copied unchanged by the source and play no part in the logic.
- The endless `tradeMonitor` polling loop is scheduling, not logic. So is the concurrent start of
  the monitor and the executor in `src/index.ts` (wallet validation, client creation,
  `process.exit`). Neither is modelled.
- The dispatcher that dequeues `pendingTrades`, fetches balances and positions and chooses the
  strategy tag: src/services/tradeExecutor.ts is not part of this model.
