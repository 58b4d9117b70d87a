/** The trade monitor's discovery step (src/services/tradeMonitor.ts): one
    poll of the watched user's activities is filtered down to recent trades
    not seen before, and each is queued for the replication engine and its
    transaction hash remembered.

    The HTTP response and the current time (epoch milliseconds) are
    parameters; the monitor's two module-level collections are the fields of
    a `Monitor` object. */
module TradeMonitor {
  import opened Activities

  /** What the activity endpoint gave back: nothing (null or undefined), a
      value that is not an array, or a list of activities. */
  datatype Response = Missing | NotAnArray | Items(activities: seq<Activity>)

  const HOUR_MS: int := 60 * 60 * 1000

  /** The oldest timestamp still considered recent. */
  function Cutoff(now: int, tooOldHours: int): (r: int)
    ensures now - r == tooOldHours * 3600000
    ensures tooOldHours >= 0 ==> r <= now
  {
    now - tooOldHours * HOUR_MS
  }

  /** `Array.prototype.filter`: the elements kept, in their order. */
  function Filter<T(!new)>(s: seq<T>, keep: T -> bool): (r: seq<T>)
    ensures |r| <= |s|
    ensures forall x :: x in r <==> x in s && keep(x)
  {
    if s == [] then []
    else (if keep(s[0]) then [s[0]] else []) + Filter(s[1..], keep)
  }

  /** Filtering keeps the order of the input: it distributes over
      concatenation. */
  lemma {:induction false} FilterAppend<T(!new)>(s: seq<T>, t: seq<T>, keep: T -> bool)
    ensures Filter(s + t, keep) == Filter(s, keep) + Filter(t, keep)
  {
    if s == [] {
      assert s + t == t;
    } else {
      assert (s + t)[0] == s[0] && (s + t)[1..] == s[1..] + t;
      FilterAppend(s[1..], t, keep);
    }
  }

  predicate IsTrade(a: Activity)
  {
    a.activityType == "TRADE"
  }

  predicate IsNewAndRecent(seen: set<string>, cutoff: int, a: Activity)
  {
    a.transactionHash !in seen && a.timestamp >= cutoff
  }

  /** The two filters of one poll: trades only, then those whose hash was not
      seen and whose timestamp is not before the cutoff. */
  function NewTrades(activities: seq<Activity>, seen: set<string>, cutoff: int): (r: seq<Activity>)
    ensures |r| <= |activities|
    ensures forall a :: a in r <==>
      a in activities && a.activityType == "TRADE" && a.transactionHash !in seen && a.timestamp >= cutoff
  {
    Filter(Filter(activities, IsTrade), a => IsNewAndRecent(seen, cutoff, a))
  }

  /** The record queued for a trade: a copy attributed to the watched user,
      not yet handled, with no retry count. */
  function Stamp(a: Activity, userAddress: string): (r: Activity)
    ensures r.proxyWallet == userAddress && !r.bot && r.botExcutedTime == 0
    ensures r.(proxyWallet := a.proxyWallet, bot := a.bot, botExcutedTime := a.botExcutedTime) == a
  {
    a.(proxyWallet := userAddress, bot := false, botExcutedTime := 0)
  }

  /** The queued copies of a batch, one per trade and in batch order; each
      keeps every field of its trade but the three it resets. */
  function Queued(trades: seq<Activity>, userAddress: string): (r: seq<Activity>)
    ensures |r| == |trades|
    ensures forall i :: 0 <= i < |trades| ==>
      && r[i].proxyWallet == userAddress && !r[i].bot && r[i].botExcutedTime == 0
      && r[i].(proxyWallet := trades[i].proxyWallet, bot := trades[i].bot,
               botExcutedTime := trades[i].botExcutedTime) == trades[i]
  {
    seq(|trades|, i requires 0 <= i < |trades| => Stamp(trades[i], userAddress))
  }

  function Hashes(trades: seq<Activity>): set<string>
  {
    set a | a in trades :: a.transactionHash
  }

  /** No record whose hash was already seen before a poll is queued by it. */
  lemma QueuedAreUnseen(activities: seq<Activity>, seen: set<string>, cutoff: int, userAddress: string)
    ensures forall q :: q in Queued(NewTrades(activities, seen, cutoff), userAddress) ==>
      q.transactionHash !in seen && q.activityType == "TRADE" && q.timestamp >= cutoff
  {
  }

  /** The seen set is consulted before it is updated, so a hash that occurs
      twice in one response is queued twice. */
  lemma SameHashTwiceInOneBatch(a: Activity, seen: set<string>, cutoff: int)
    requires a.activityType == "TRADE" && a.transactionHash !in seen && a.timestamp >= cutoff
    ensures NewTrades([a, a], seen, cutoff) == [a, a]
  {
  }

  /** Appending the stamped copies of a batch of unseen trades, and adding
      their hashes, keeps every queued hash remembered; the new entries'
      hashes are new to the set and shared with no earlier entry. */
  lemma AppendUnseen(pending: seq<Activity>, seen: set<string>, batch: seq<Activity>, userAddress: string)
    requires forall q :: q in pending ==> q.transactionHash in seen
    requires forall b :: b in batch ==> b.transactionHash !in seen
    ensures var pending', seen' := pending + Queued(batch, userAddress), seen + Hashes(batch);
      && (forall q :: q in pending' ==> q.transactionHash in seen')
      && (forall i :: |pending| <= i < |pending'| ==> pending'[i].transactionHash in seen' - seen)
      && (forall i, j :: 0 <= i < |pending| <= j < |pending'| ==>
            pending'[i].transactionHash != pending'[j].transactionHash)
  {
  }

  class Monitor {
    const userAddress: string
    const tooOldHours: int
    /** The FIFO of trades waiting for the replication engine. */
    var pendingTrades: seq<Activity>
    /** Every transaction hash ever queued. */
    var processedTrades: set<string>

    /** Every trade waiting in the queue has its hash remembered. */
    ghost predicate Valid()
      reads this
    {
      forall q :: q in pendingTrades ==> q.transactionHash in processedTrades
    }

    /** Startup: the module refuses to load without a user address. */
    constructor (userAddress: string, tooOldHours: int)
      requires userAddress != ""
      ensures Valid()
      ensures this.userAddress == userAddress && this.tooOldHours == tooOldHours
      ensures pendingTrades == [] && processedTrades == {}
    {
      this.userAddress := userAddress;
      this.tooOldHours := tooOldHours;
      pendingTrades := [];
      processedTrades := {};
    }

    /** One poll: queue the new recent trades of `response` and remember
        their hashes; a missing, non-array or empty response changes
        nothing. */
    method FetchTradeData(response: Response, now: int)
      requires Valid()
      modifies this
      ensures Valid()
      ensures !(response.Items? && response.activities != []) ==>
        pendingTrades == old(pendingTrades) && processedTrades == old(processedTrades)
      ensures response.Items? && response.activities != [] ==>
        var batch := NewTrades(response.activities, old(processedTrades), Cutoff(now, tooOldHours));
        && pendingTrades == old(pendingTrades) + Queued(batch, userAddress)
        && processedTrades == old(processedTrades) + Hashes(batch)
      ensures |old(pendingTrades)| <= |pendingTrades| && pendingTrades[..|old(pendingTrades)|] == old(pendingTrades)
      ensures old(processedTrades) <= processedTrades
      ensures forall i :: |old(pendingTrades)| <= i < |pendingTrades| ==>
        pendingTrades[i].transactionHash in processedTrades - old(processedTrades)
      ensures forall i, j :: 0 <= i < |old(pendingTrades)| <= j < |pendingTrades| ==>
        pendingTrades[i].transactionHash != pendingTrades[j].transactionHash
    {
      if response.Missing? || response.NotAnArray? {
        return;
      }
      if |response.activities| == 0 {
        return;
      }
      var cutoff := Cutoff(now, tooOldHours);
      var newTrades := NewTrades(response.activities, processedTrades, cutoff);
      AppendUnseen(pendingTrades, processedTrades, newTrades, userAddress);
      if |newTrades| > 0 {
        Enqueue(newTrades);
      } else {
        assert Queued(newTrades, userAddress) == [] && Hashes(newTrades) == {};
      }
    }

    /** The loop that queues a batch: each trade's stamped copy goes to the
        tail of the queue and its hash into the seen set. */
    method Enqueue(newTrades: seq<Activity>)
      requires Valid()
      modifies this
      ensures Valid()
      ensures pendingTrades == old(pendingTrades) + Queued(newTrades, userAddress)
      ensures processedTrades == old(processedTrades) + Hashes(newTrades)
    {
      for i := 0 to |newTrades|
        invariant pendingTrades == old(pendingTrades) + Queued(newTrades[..i], userAddress)
        invariant processedTrades == old(processedTrades) + Hashes(newTrades[..i])
        invariant Valid()
      {
        var trade := newTrades[i];
        assert newTrades[..i + 1] == newTrades[..i] + [trade];
        pendingTrades := pendingTrades + [Stamp(trade, userAddress)];
        processedTrades := processedTrades + {trade.transactionHash};
      }
      assert newTrades[..|newTrades|] == newTrades;
    }
  }
}
