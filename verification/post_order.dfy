/** The replication engine of the copy-trading bot (src/utils/postOrder.ts).
    Given one observed trade of the watched user, the balances and positions
    of both accounts and a strategy tag, it sizes an own order and walks the
    order book in a bounded retry loop, then marks the trade as handled.

    The exchange is an oracle: `replies` lists, pass by pass, the order-book
    snapshot the engine fetches and whether the fill-or-kill order it posts in
    that pass succeeds.  Prices and sizes are `real`. */
module PostOrder {
  import opened Activities

  /** The price tolerance against the observed trade price. */
  const SLIPPAGE: real := 0.05

  /** One price level of a book. */
  datatype Level = Level(price: real, size: real)

  /** An order-book snapshot; a side the exchange omits is empty. */
  datatype Book = Book(bids: seq<Level>, asks: seq<Level>)

  /** What the exchange answers in one pass: the snapshot, and whether the
      order posted in that pass (if any) succeeded. */
  datatype Reply = Reply(book: Book, success: bool)

  datatype Strategy = Merge | Buy | Sell

  datatype OrderSide = BUY | SELL

  /** The arguments of a market order. */
  datatype Order = Order(side: OrderSide, tokenID: string, amount: real, price: real)

  /** One submission: the order, the level it was sized against, the loop
      state (`remaining`, `retry`) just before it, and its outcome. */
  datatype Attempt = Attempt(order: Order, level: Level, remainingBefore: real, retryBefore: nat, success: bool)

  /** Why the engine stopped.  The first six end the book walk; the last four
      end the call before any walk. `NoReply` means the oracle ran out. */
  datatype Exit =
    | Done | RetriesExhausted | NoReply | EmptyBook | PriceMoved | NonPositiveAmount
    | NoPosition | BadDenominator | NoBalance | Unsupported

  /** The trace of one book walk and the loop state it ends in. */
  datatype Walk = Walk(attempts: seq<Attempt>, remaining: real, retry: nat, exit: Exit)

  /** What stays fixed during one walk. */
  datatype Setup = Setup(strategy: Strategy, tokenID: string, tradePrice: real, retryLimit: nat)

  /** The outcome of sizing: stop at once, or walk the book from `remaining`. */
  datatype Plan = Stop(reason: Exit) | Start(setup: Setup, remaining: real)

  /** The strategy tags the engine dispatches on; any other tag is unsupported. */
  function ParseCondition(condition: string): (r: Option<Strategy>)
    ensures r == Some(Merge) <==> condition == "merge"
    ensures r == Some(Buy) <==> condition == "buy"
    ensures r == Some(Sell) <==> condition == "sell"
  {
    if condition == "merge" then Some(Merge)
    else if condition == "buy" then Some(Buy)
    else if condition == "sell" then Some(Sell)
    else None
  }

  /** Buying walks the asks; merging and selling walk the bids. */
  function BookSide(s: Strategy, book: Book): seq<Level>
  {
    if s == Buy then book.asks else book.bids
  }

  /** The strict comparison of the selection fold: higher price for bids,
      lower price for asks. */
  predicate Beats(high: bool, x: real, y: real)
  {
    if high then x > y else x < y
  }

  /** The fold `levels.reduce((acc, l) => l beats acc ? l : acc, levels[0])`,
      from position `k` on with accumulator index `best`. */
  function BestFrom(levels: seq<Level>, high: bool, best: nat, k: nat): (r: nat)
    requires best < |levels| && best <= k <= |levels|
    requires forall j :: 0 <= j < k ==> !Beats(high, levels[j].price, levels[best].price)
    requires forall j :: 0 <= j < best ==> Beats(high, levels[best].price, levels[j].price)
    ensures r < |levels|
    ensures forall j :: 0 <= j < |levels| ==> !Beats(high, levels[j].price, levels[r].price)
    ensures forall j :: 0 <= j < r ==> Beats(high, levels[r].price, levels[j].price)
    decreases |levels| - k
  {
    if k == |levels| then best
    else
      var next := if Beats(high, levels[k].price, levels[best].price) then k else best;
      assert forall j :: 0 <= j < k + 1 ==> !Beats(high, levels[j].price, levels[next].price) by {
        forall j | 0 <= j < k + 1 ensures !Beats(high, levels[j].price, levels[next].price) {
          if j < k && next == k {
            assert !Beats(high, levels[j].price, levels[best].price);
          }
        }
      }
      BestFrom(levels, high, next, k + 1)
  }

  /** The selected level: no level beats it, and it beats every level before
      it, so on a tie the earliest extreme level is kept. */
  function BestIndex(levels: seq<Level>, high: bool): (r: nat)
    requires levels != []
    ensures r < |levels|
    ensures forall j :: 0 <= j < |levels| ==> !Beats(high, levels[j].price, levels[r].price)
    ensures forall j :: 0 <= j < r ==> Beats(high, levels[r].price, levels[j].price)
  {
    BestFrom(levels, high, 0, 0)
  }

  /** The level a pass trades against: the highest bid for merge and sell,
      the lowest ask for buy; none when that side is empty. */
  function BestLevel(s: Strategy, book: Book): (r: Option<Level>)
    ensures r.None? <==> BookSide(s, book) == []
    ensures r.Some? ==> r.value in BookSide(s, book)
    ensures r.Some? && s == Buy ==> forall l :: l in BookSide(s, book) ==> r.value.price <= l.price
    ensures r.Some? && s != Buy ==> forall l :: l in BookSide(s, book) ==> l.price <= r.value.price
    ensures r.Some? ==> r.value == BookSide(s, book)[BestIndex(BookSide(s, book), s != Buy)]
  {
    var levels := BookSide(s, book);
    if levels == [] then None else Some(levels[BestIndex(levels, s != Buy)])
  }

  /** Of two bids at the same best price, the first one listed is traded
      against, so its size bounds the order. */
  lemma FirstBidKeptOnTie()
    ensures BestLevel(Sell, Book([Level(0.5, 10.0), Level(0.5, 2.0)], [])) == Some(Level(0.5, 10.0))
  {
  }

  /** What a level can absorb, in the unit of `remaining`: shares for merge
      and sell, quote currency (size times price) for buy. */
  function Capacity(s: Strategy, level: Level): real
  {
    if s == Buy then level.size * level.price else level.size
  }

  /** The order of one pass: the smaller of `remaining` and the level's
      capacity, at the level's price. */
  function OrderFor(setup: Setup, remaining: real, level: Level): (o: Order)
    ensures o.amount <= remaining && o.amount <= Capacity(setup.strategy, level)
    ensures o.amount == remaining || o.amount == Capacity(setup.strategy, level)
    ensures o.price == level.price && o.tokenID == setup.tokenID
    ensures o.side == (if setup.strategy == Buy then BUY else SELL)
  {
    var cap := Capacity(setup.strategy, level);
    Order(if setup.strategy == Buy then BUY else SELL, setup.tokenID,
          if remaining <= cap then remaining else cap, level.price)
  }

  /** The buy guard: an ask more than SLIPPAGE above the observed price is
      refused. */
  function BuyPriceOk(tradePrice: real, ask: real): (ok: bool)
    ensures ok <==> ask <= tradePrice + SLIPPAGE
  {
    !(ask - SLIPPAGE > tradePrice)
  }

  /** The sell guard: a bid more than SLIPPAGE below the observed price is
      refused, unless that price is 0 (falsy), which skips the check. */
  function SellPriceOk(tradePrice: real, bid: real): (ok: bool)
    ensures ok <==> tradePrice == 0.0 || bid >= tradePrice - SLIPPAGE
  {
    !(tradePrice != 0.0 && bid + SLIPPAGE < tradePrice)
  }

  /** The slippage guard of each strategy; merge has none. */
  function WithinSlippage(s: Strategy, tradePrice: real, price: real): (ok: bool)
    ensures s == Merge ==> ok
    ensures s == Buy ==> (ok <==> price <= tradePrice + SLIPPAGE)
    ensures s == Sell ==> (ok <==> tradePrice == 0.0 || price >= tradePrice - SLIPPAGE)
  {
    match s
    case Merge => true
    case Buy => BuyPriceOk(tradePrice, price)
    case Sell => SellPriceOk(tradePrice, price)
  }

  /** The loop state after an attempt: success subtracts the amount and
      resets the retry count, failure counts one more retry. */
  function RemainingAfter(a: Attempt): real
  {
    if a.success then a.remainingBefore - a.order.amount else a.remainingBefore
  }

  function RetryAfter(a: Attempt): nat
  {
    if a.success then 0 else a.retryBefore + 1
  }

  /** The decision of one pass of the loop: trade against the best level of
      the fresh snapshot, or stop. */
  datatype Pass = Halt(exit: Exit) | Go(attempt: Attempt)

  /** One pass of the loop, given that its condition held: an empty side, a
      price outside the slippage guard or a non-positive amount stops the
      walk; otherwise one order is posted and the reply says how it went. */
  function Step(setup: Setup, reply: Reply, remaining: real, retry: nat): (p: Pass)
    requires remaining > 0.0
    ensures p.Halt? ==> p.exit in {EmptyBook, PriceMoved, NonPositiveAmount}
    ensures p.Halt? && p.exit == EmptyBook <==> BookSide(setup.strategy, reply.book) == []
    ensures p.Halt? && p.exit == PriceMoved <==>
      && BestLevel(setup.strategy, reply.book).Some?
      && !WithinSlippage(setup.strategy, setup.tradePrice, BestLevel(setup.strategy, reply.book).value.price)
    ensures p.Go? <==>
      && BestLevel(setup.strategy, reply.book).Some?
      && WithinSlippage(setup.strategy, setup.tradePrice, BestLevel(setup.strategy, reply.book).value.price)
      && OrderFor(setup, remaining, BestLevel(setup.strategy, reply.book).value).amount > 0.0
    ensures p.Go? ==>
      && BestLevel(setup.strategy, reply.book) == Some(p.attempt.level)
      && WithinSlippage(setup.strategy, setup.tradePrice, p.attempt.level.price)
      && p.attempt.order == OrderFor(setup, remaining, p.attempt.level)
      && 0.0 < p.attempt.order.amount <= remaining
      && p.attempt.remainingBefore == remaining && p.attempt.retryBefore == retry
      && p.attempt.success == reply.success
  {
    match BestLevel(setup.strategy, reply.book)
    case None => Halt(EmptyBook)
    case Some(level) =>
      if !WithinSlippage(setup.strategy, setup.tradePrice, level.price) then Halt(PriceMoved)
      else
        var order := OrderFor(setup, remaining, level);
        if order.amount <= 0.0 then Halt(NonPositiveAmount)
        else Go(Attempt(order, level, remaining, retry, reply.success))
  }

  /** The book walk as a recursive specification: one call per loop pass,
      consuming one reply each. */
  function Run(setup: Setup, replies: seq<Reply>, remaining: real, retry: nat): (w: Walk)
    requires retry <= setup.retryLimit
    ensures |w.attempts| <= |replies|
    ensures w.retry <= setup.retryLimit
    decreases |replies|
  {
    if !(remaining > 0.0 && retry < setup.retryLimit) then
      Walk([], remaining, retry, if remaining > 0.0 then RetriesExhausted else Done)
    else if replies == [] then
      Walk([], remaining, retry, NoReply)
    else
      match Step(setup, replies[0], remaining, retry)
      case Halt(exit) => Walk([], remaining, retry, exit)
      case Go(a) => Prepend([a], Run(setup, replies[1..], RemainingAfter(a), RetryAfter(a)))
  }

  function Prepend(attempts: seq<Attempt>, w: Walk): Walk
  {
    Walk(attempts + w.attempts, w.remaining, w.retry, w.exit)
  }

  /** Total amount of the successful attempts. */
  function FilledTotal(attempts: seq<Attempt>): real
  {
    if attempts == [] then 0.0
    else (if attempts[0].success then attempts[0].order.amount else 0.0) + FilledTotal(attempts[1..])
  }

  /** Every attempt of a walk is the decision of the pass that consumed the
      reply at the same position, taken while the loop condition held. */
  lemma {:induction false} RunAttemptsAreSound(setup: Setup, replies: seq<Reply>, remaining: real, retry: nat)
    requires retry <= setup.retryLimit
    ensures var w := Run(setup, replies, remaining, retry);
      && |w.attempts| <= |replies|
      && forall i :: 0 <= i < |w.attempts| ==>
        && w.attempts[i].remainingBefore > 0.0
        && w.attempts[i].retryBefore < setup.retryLimit
        && Step(setup, replies[i], w.attempts[i].remainingBefore, w.attempts[i].retryBefore) == Go(w.attempts[i])
    decreases |replies|
  {
    if remaining > 0.0 && retry < setup.retryLimit && replies != [] {
      var p := Step(setup, replies[0], remaining, retry);
      if p.Go? {
        var a := p.attempt;
        RunAttemptsAreSound(setup, replies[1..], RemainingAfter(a), RetryAfter(a));
        var rest := Run(setup, replies[1..], RemainingAfter(a), RetryAfter(a));
        var w := Run(setup, replies, remaining, retry);
        assert w.attempts == [a] + rest.attempts;
        forall i | 1 <= i < |w.attempts|
          ensures Step(setup, replies[i], w.attempts[i].remainingBefore, w.attempts[i].retryBefore) == Go(w.attempts[i])
        {
          assert w.attempts[i] == rest.attempts[i - 1];
          assert replies[i] == replies[1..][i - 1];
        }
      }
    }
  }

  /** The slippage cutoff: a buy never trades an ask more than SLIPPAGE above
      the observed price, a sell never trades a bid more than SLIPPAGE below
      it unless that price is 0; and every order is positive and no larger
      than what was left. */
  lemma {:induction false} RunOrdersWithinLimits(setup: Setup, replies: seq<Reply>, remaining: real, retry: nat)
    requires retry <= setup.retryLimit
    ensures forall a :: a in Run(setup, replies, remaining, retry).attempts ==>
      && 0.0 < a.order.amount <= a.remainingBefore
      && a.order.amount <= Capacity(setup.strategy, a.level)
      && (setup.strategy == Buy ==> a.order.price <= setup.tradePrice + SLIPPAGE)
      && (setup.strategy == Sell && setup.tradePrice != 0.0 ==> a.order.price >= setup.tradePrice - SLIPPAGE)
  {
    RunAttemptsAreSound(setup, replies, remaining, retry);
  }

  /** The loop state is threaded through the attempts: the first attempt
      starts from the initial state, each later one from the state the
      previous one left, and the walk ends in the state the last one left. */
  lemma {:induction false} RunThreadsState(setup: Setup, replies: seq<Reply>, remaining: real, retry: nat)
    requires retry <= setup.retryLimit
    ensures var w := Run(setup, replies, remaining, retry);
      && (w.attempts == [] ==> w.remaining == remaining && w.retry == retry)
      && (w.attempts != [] ==>
            && w.attempts[0].remainingBefore == remaining
            && w.attempts[0].retryBefore == retry
            && w.remaining == RemainingAfter(w.attempts[|w.attempts| - 1])
            && w.retry == RetryAfter(w.attempts[|w.attempts| - 1]))
      && forall i :: 0 < i < |w.attempts| ==>
            && w.attempts[i].remainingBefore == RemainingAfter(w.attempts[i - 1])
            && w.attempts[i].retryBefore == RetryAfter(w.attempts[i - 1])
    decreases |replies|
  {
    if remaining > 0.0 && retry < setup.retryLimit && replies != [] {
      var p := Step(setup, replies[0], remaining, retry);
      if p.Go? {
        var a := p.attempt;
        RunThreadsState(setup, replies[1..], RemainingAfter(a), RetryAfter(a));
        var rest := Run(setup, replies[1..], RemainingAfter(a), RetryAfter(a));
        var w := Run(setup, replies, remaining, retry);
        assert w.attempts == [a] + rest.attempts;
        forall i | 1 < i < |w.attempts|
          ensures w.attempts[i].remainingBefore == RemainingAfter(w.attempts[i - 1])
          ensures w.attempts[i].retryBefore == RetryAfter(w.attempts[i - 1])
        {
          assert w.attempts[i] == rest.attempts[i - 1];
          assert w.attempts[i - 1] == rest.attempts[i - 2];
        }
      }
    }
  }

  /** `remaining` only falls, by exactly the amounts of the successful
      attempts, and never below zero once it started at or above zero. */
  lemma {:induction false} RunAccounting(setup: Setup, replies: seq<Reply>, remaining: real, retry: nat)
    requires retry <= setup.retryLimit
    ensures var w := Run(setup, replies, remaining, retry);
      && w.remaining == remaining - FilledTotal(w.attempts)
      && w.remaining <= remaining
      && (remaining >= 0.0 ==> w.remaining >= 0.0)
    decreases |replies|
  {
    if remaining > 0.0 && retry < setup.retryLimit && replies != [] {
      var p := Step(setup, replies[0], remaining, retry);
      if p.Go? {
        var a := p.attempt;
        RunAccounting(setup, replies[1..], RemainingAfter(a), RetryAfter(a));
        var rest := Run(setup, replies[1..], RemainingAfter(a), RetryAfter(a));
        assert ([a] + rest.attempts)[1..] == rest.attempts;
      }
    }
  }

  /** The retry count never exceeds the limit, and the walk ends on its own
      loop condition exactly when `remaining` is used up (Done) or the retry
      budget is spent (RetriesExhausted); every other exit is a break taken
      while the loop condition still held. */
  lemma {:induction false} RunExit(setup: Setup, replies: seq<Reply>, remaining: real, retry: nat)
    requires retry <= setup.retryLimit
    ensures var w := Run(setup, replies, remaining, retry);
      && w.retry <= setup.retryLimit
      && (w.exit == Done <==> w.remaining <= 0.0)
      && (w.exit == RetriesExhausted <==> w.remaining > 0.0 && w.retry == setup.retryLimit)
      && w.exit !in {NoPosition, BadDenominator, NoBalance, Unsupported}
      && (w.exit == NoReply ==> |w.attempts| == |replies|)
      && (w.exit in {EmptyBook, PriceMoved, NonPositiveAmount} ==>
            && |w.attempts| < |replies| && w.remaining > 0.0
            && Step(setup, replies[|w.attempts|], w.remaining, w.retry) == Halt(w.exit))
    decreases |replies|
  {
    if remaining > 0.0 && retry < setup.retryLimit && replies != [] {
      var p := Step(setup, replies[0], remaining, retry);
      if p.Go? {
        var a := p.attempt;
        RunExit(setup, replies[1..], RemainingAfter(a), RetryAfter(a));
        var rest := Run(setup, replies[1..], RemainingAfter(a), RetryAfter(a));
        assert Run(setup, replies, remaining, retry).attempts == [a] + rest.attempts;
        if |rest.attempts| < |replies[1..]| {
          assert replies[1 + |rest.attempts|] == replies[1..][|rest.attempts|];
        }
      }
    }
  }

  /** Three failed submissions in a row with a retry limit of 3 exhaust the
      budget and leave `remaining` where it was. */
  lemma ThreeFailuresExhaustRetries(tokenID: string, remaining: real)
    requires remaining > 0.0
    ensures var r := Reply(Book([Level(0.5, remaining)], []), false);
      var w := Run(Setup(Sell, tokenID, 0.5, 3), [r, r, r], remaining, 0);
      && |w.attempts| == 3
      && w.exit == RetriesExhausted && w.retry == 3 && w.remaining == remaining
  {
    var setup := Setup(Sell, tokenID, 0.5, 3);
    var r := Reply(Book([Level(0.5, remaining)], []), false);
    assert BestLevel(Sell, r.book) == Some(Level(0.5, remaining));
    var a0 := Attempt(Order(SELL, tokenID, remaining, 0.5), Level(0.5, remaining), remaining, 0, false);
    assert Step(setup, r, remaining, 0) == Go(a0);
    assert Step(setup, r, remaining, 1) == Go(a0.(retryBefore := 1));
    assert Step(setup, r, remaining, 2) == Go(a0.(retryBefore := 2));
    assert [r, r, r][1..] == [r, r] && [r, r][1..] == [r] && [r][1..] == [];
    assert Run(setup, [], remaining, 3) == Walk([], remaining, 3, RetriesExhausted);
    assert |Run(setup, [r], remaining, 2).attempts| == 1;
    assert |Run(setup, [r, r], remaining, 1).attempts| == 2;
  }

  /** `Run` on the replies from position `k` on, unfolded once. */
  lemma RunFrom(setup: Setup, replies: seq<Reply>, k: nat, remaining: real, retry: nat)
    requires k <= |replies| && retry <= setup.retryLimit
    ensures Run(setup, replies[k..], remaining, retry) ==
      if !(remaining > 0.0 && retry < setup.retryLimit) then
        Walk([], remaining, retry, if remaining > 0.0 then RetriesExhausted else Done)
      else if k == |replies| then
        Walk([], remaining, retry, NoReply)
      else
        var p := Step(setup, replies[k], remaining, retry);
        if p.Halt? then Walk([], remaining, retry, p.exit)
        else Prepend([p.attempt], Run(setup, replies[k + 1..], RemainingAfter(p.attempt), RetryAfter(p.attempt)))
  {
  }

  lemma PrependTwice(xs: seq<Attempt>, ys: seq<Attempt>, w: Walk)
    ensures Prepend(xs, Prepend(ys, w)) == Prepend(xs + ys, w)
  {
  }

  /** The book walk: the three `while` loops of the source, which differ only
      in the side walked, the guard and the unit of `remaining`. */
  method WalkBook(setup: Setup, replies: seq<Reply>, start: real) returns (w: Walk)
    ensures w == Run(setup, replies, start, 0)
  {
    var remaining, retry, k := start, 0, 0;
    var attempts: seq<Attempt> := [];
    var exit := Done;
    assert replies[0..] == replies;
    while remaining > 0.0 && retry < setup.retryLimit
      invariant k <= |replies|
      invariant retry <= setup.retryLimit
      invariant Run(setup, replies, start, 0) == Prepend(attempts, Run(setup, replies[k..], remaining, retry))
      decreases |replies| - k
    {
      RunFrom(setup, replies, k, remaining, retry);
      if k == |replies| {
        exit := NoReply;
        break;
      }
      var pass := Step(setup, replies[k], remaining, retry);
      if pass.Halt? {
        exit := pass.exit;
        break;
      }
      var a := pass.attempt;
      PrependTwice(attempts, [a], Run(setup, replies[k + 1..], RemainingAfter(a), RetryAfter(a)));
      attempts := attempts + [a];
      if a.success {
        retry := 0;
        remaining := remaining - a.order.amount;
      } else {
        retry := retry + 1;
      }
      k := k + 1;
    }
    if !(remaining > 0.0 && retry < setup.retryLimit) {
      RunFrom(setup, replies, k, remaining, retry);
      exit := if remaining > 0.0 then RetriesExhausted else Done;
    }
    w := Walk(attempts, remaining, retry, exit);
    assert attempts + [] == attempts;
  }

  /** Buy sizing: the observed notional scaled by the ratio of own balance to
      the counterparty's balance plus that notional, capped at own balance. */
  function BuyRemaining(usdcSize: real, myBalance: real, denominator: real): (r: real)
    requires denominator > 0.0 && myBalance > 0.0
    ensures r <= myBalance
    ensures r <= usdcSize * (myBalance / denominator)
    ensures r == myBalance || r == usdcSize * (myBalance / denominator)
    ensures r > 0.0 <==> usdcSize > 0.0
  {
    var ratio := myBalance / denominator;
    assert ratio > 0.0;
    var scaled := usdcSize * ratio;
    assert scaled > 0.0 <==> usdcSize > 0.0;
    if scaled < myBalance then scaled else myBalance
  }

  /** Sell sizing: nothing without an own position, the whole own position
      when the counterparty holds none, otherwise the own position scaled by
      the share of the counterparty's holding the trade represents. */
  function SellRemaining(myPosition: Option<Position>, userPosition: Option<Position>, tradeSize: real): (r: real)
    ensures myPosition.None? ==> r == 0.0
    ensures myPosition.Some? && userPosition.None? ==> r == myPosition.value.size
    ensures myPosition.Some? && userPosition.Some? && userPosition.value.size + tradeSize == 0.0 ==> r == 0.0
    ensures myPosition.Some? && userPosition.Some? && userPosition.value.size + tradeSize != 0.0 ==>
      r * (userPosition.value.size + tradeSize) == myPosition.value.size * tradeSize
  {
    match myPosition
    case None => 0.0
    case Some(mine) =>
      match userPosition
      case None => mine.size
      case Some(theirs) =>
        var denominator := theirs.size + tradeSize;
        if denominator == 0.0 then 0.0 else mine.size * (tradeSize / denominator)
  }

  /** With non-negative sizes, a sell never exceeds the own position. */
  lemma SellWithinPosition(myPosition: Option<Position>, userPosition: Option<Position>, tradeSize: real)
    requires myPosition.Some? && myPosition.value.size >= 0.0
    requires userPosition.Some? ==> userPosition.value.size >= 0.0
    requires tradeSize >= 0.0
    ensures 0.0 <= SellRemaining(myPosition, userPosition, tradeSize) <= myPosition.value.size
  {
    if userPosition.Some? {
      var mine, d := myPosition.value.size, userPosition.value.size + tradeSize;
      if d != 0.0 {
        var ratio := tradeSize / d;
        assert 0.0 <= ratio <= 1.0;
        assert SellRemaining(myPosition, userPosition, tradeSize) == mine * ratio;
        assert 0.0 <= mine * ratio <= mine * 1.0;
      }
    }
  }

  /** A counterparty left with nothing means the own position is sold in
      full, whether its position is absent or reported as 0. */
  lemma SellAllWhenCounterpartyFlat(mine: Position, userPosition: Option<Position>, tradeSize: real)
    requires userPosition.None? || (userPosition.value.size == 0.0 && tradeSize != 0.0)
    ensures SellRemaining(Some(mine), userPosition, tradeSize) == mine.size
  {
  }

  /** Strategy dispatch and sizing, before the book is touched. */
  function Launch(condition: string, myPosition: Option<Position>, userPosition: Option<Position>,
                  trade: Activity, myBalance: real, userBalance: real, retryLimit: nat): (p: Plan)
    ensures p == Stop(Unsupported) <==> ParseCondition(condition).None?
    ensures p.Start? ==> p.setup.retryLimit == retryLimit && p.setup.tradePrice == trade.price
                         && Some(p.setup.strategy) == ParseCondition(condition)
    ensures condition == "merge" ==>
              && (p.Stop? <==> myPosition.None?)
              && (p.Stop? ==> p.reason == NoPosition)
              && (p.Start? ==> p.remaining == myPosition.value.size && p.setup.tokenID == myPosition.value.asset)
    ensures condition == "buy" ==>
              && (p.Stop? <==> userBalance + trade.usdcSize <= 0.0 || myBalance <= 0.0)
              && (p.Stop? && userBalance + trade.usdcSize <= 0.0 ==> p.reason == BadDenominator)
              && (p.Stop? && userBalance + trade.usdcSize > 0.0 ==> p.reason == NoBalance)
              && (p.Start? ==> p.remaining == BuyRemaining(trade.usdcSize, myBalance, userBalance + trade.usdcSize))
              && (p.Start? ==> p.remaining <= myBalance && (p.remaining > 0.0 <==> trade.usdcSize > 0.0))
    ensures condition == "sell" ==> p.Start? && p.remaining == SellRemaining(myPosition, userPosition, trade.size)
    ensures p.Start? && condition != "merge" ==> p.setup.tokenID == trade.asset
  {
    match ParseCondition(condition)
    case None => Stop(Unsupported)
    case Some(Merge) =>
      (match myPosition
       case None => Stop(NoPosition)
       case Some(mine) => Start(Setup(Merge, mine.asset, trade.price, retryLimit), mine.size))
    case Some(Buy) =>
      var denominator := userBalance + trade.usdcSize;
      if denominator <= 0.0 then Stop(BadDenominator)
      else if myBalance <= 0.0 then Stop(NoBalance)
      else Start(Setup(Buy, trade.asset, trade.price, retryLimit), BuyRemaining(trade.usdcSize, myBalance, denominator))
    case Some(Sell) =>
      Start(Setup(Sell, trade.asset, trade.price, retryLimit), SellRemaining(myPosition, userPosition, trade.size))
  }

  /** A balance of 100 against a counterparty balance of 0 and a notional of
      50 gives a ratio of 2, capped to a target of 100. */
  lemma BuyCappedAtBalance(trade: Activity, retryLimit: nat)
    requires trade.usdcSize == 50.0
    ensures Launch("buy", None, None, trade, 100.0, 0.0, retryLimit)
            == Start(Setup(Buy, trade.asset, trade.price, retryLimit), 100.0)
  {
  }

  /** The marking after the walk: always `bot`, and the retry count recorded
      when the budget was reached. */
  function Finish(trade: Activity, retry: nat, retryLimit: nat): (r: Activity)
    ensures r.bot
    ensures r == trade.(bot := true, botExcutedTime := r.botExcutedTime)
    ensures retry >= retryLimit ==> r.botExcutedTime == retry
    ensures retry < retryLimit ==> r.botExcutedTime == trade.botExcutedTime
  {
    if retry >= retryLimit then trade.(bot := true, botExcutedTime := retry) else trade.(bot := true)
  }

  /** The record of a call that stopped before walking the book: no
      attempts, and `remaining` and `retry` as they stood before any loop. */
  function Unwalked(reason: Exit): Walk
  {
    Walk([], 0.0, 0, reason)
  }

  /** postOrder: the caller's trade record comes back marked, with the walk
      that was made. */
  method PostOrder(condition: string, myPosition: Option<Position>, userPosition: Option<Position>,
                   trade: Activity, myBalance: real, userBalance: real, retryLimit: nat, replies: seq<Reply>)
    returns (marked: Activity, w: Walk)
    ensures var plan := Launch(condition, myPosition, userPosition, trade, myBalance, userBalance, retryLimit);
      && (plan.Stop? ==>
            && w == Unwalked(plan.reason)
            && marked == (if plan.reason == Unsupported then trade else trade.(bot := true)))
      && (plan.Start? ==>
            && w == Run(plan.setup, replies, plan.remaining, 0)
            && marked == Finish(trade, w.retry, retryLimit))
    ensures ParseCondition(condition).None? ==> marked == trade && w.attempts == []
    ensures ParseCondition(condition).Some? ==> marked.bot
    ensures marked == trade.(bot := marked.bot, botExcutedTime := marked.botExcutedTime)
    ensures marked.botExcutedTime != trade.botExcutedTime ==> marked.botExcutedTime == w.retry == retryLimit
    ensures w.exit == RetriesExhausted ==> marked.botExcutedTime == retryLimit
    ensures condition == "sell" && myPosition.None? ==>
      && w.attempts == [] && w.remaining == 0.0 && w.retry == 0 && w.exit == Done && marked.bot
  {
    var plan := Launch(condition, myPosition, userPosition, trade, myBalance, userBalance, retryLimit);
    match plan
    case Stop(reason) =>
      w := Unwalked(reason);
      marked := if reason == Unsupported then trade else trade.(bot := true);
    case Start(setup, remaining) =>
      w := WalkBook(setup, replies, remaining);
      RunExit(setup, replies, remaining, 0);
      marked := Finish(trade, w.retry, retryLimit);
  }
}
