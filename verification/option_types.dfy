/** The option contract record the payoff engine consumes, as loaded from the
    data source. Prices are modelled as exact reals. */
module OptionTypes {

  /** Whether the contract is a right to buy (call) or to sell (put). */
  datatype OptionKind = Call | Put

  /** Whether the contract was bought (long) or sold (short). */
  datatype Position = Long | Short

  /** One option contract. The expiration date is carried along but no
      computation of the engine reads it. */
  datatype OptionContract = OptionContract(
    strike: real,
    kind: OptionKind,
    bid: real,
    ask: real,
    position: Position,
    expiration: string
  )
}
