/** Records shared by the trade monitor and the replication engine: the
    activity record the data API returns for the watched user, and the
    position record the exchange reports for an account. */
module Activities {

  datatype Option<+T> = None | Some(value: T)

  /** One activity of the watched user, as queued by the trade monitor and
      consumed by the replication engine.  Only the fields the two modules
      read or write are kept.  `bot` marks the trade as handled, and
      `botExcutedTime` records the retry count when the retry budget ran out
      (the misspelling is the source's field name). */
  datatype Activity = Activity(
    transactionHash: string,
    activityType: string,
    asset: string,
    timestamp: int,
    size: real,
    usdcSize: real,
    price: real,
    proxyWallet: string,
    bot: bool,
    botExcutedTime: int)

  /** A holding of one asset by one account. */
  datatype Position = Position(asset: string, size: real)
}
