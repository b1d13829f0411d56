/** The view-model's entities, as the front end's type declarations define them. */
module MarketTypes {
  import opened Wrappers

  datatype Status = Open | Resolved

  datatype Outcome = Undecided | Yes | No | Void

  /** One market as the front end holds it. `deadline` is the JavaScript `Date` as milliseconds
      since the epoch; `id`, the pools and the bettor count are non-negative big integers. */
  datatype Market = Market(
    id: nat,
    title: string,
    description: string,
    metadataURI: string,
    deadline: int,
    status: Status,
    outcome: Outcome,
    yesPool: nat,
    noPool: nat,
    bettorCount: nat)

  /** One bettor's accumulated stake on one market. */
  datatype Wager = Wager(yesAmount: nat, noAmount: nat, paid: bool)

  /** A market annotated with the connected bettor's wager; `None` is the absent `userWager`. */
  datatype MarketWithWager = MarketWithWager(market: Market, userWager: Option<Wager>)
}
