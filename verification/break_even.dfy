/** Break-even prices of single contracts, as listed by `breakEvenPoints` in
    react-solution/src/components/RiskRewardGraph.tsx, together with the
    zero-crossing price that the listing is meant to report. */
module BreakEven {
  import opened OptionTypes
  import opened PayoffEngine

  function Abs(x: real): (r: real)
    ensures r >= 0.0 && (r == x || r == -x)
  {
    if x < 0.0 then -x else x
  }

  /** The four-case table of the source: strike plus premium for a long call
      and a short put, strike minus premium for a short call and a long put.
      The point always lies one premium away from the strike. */
  function BreakEvenPoint(c: OptionContract): (b: real)
    ensures Abs(b - c.strike) == Abs(Premium(c))
    ensures c.position == Long ==> b == IntendedBreakEvenPoint(c)
  {
    var premium := Premium(c);
    match (c.kind, c.position)
    case (Call, Long) => c.strike + premium
    case (Call, Short) => c.strike - premium
    case (Put, Long) => c.strike - premium
    case (Put, Short) => c.strike + premium
  }

  /** For a bought contract the listed point is where its payoff crosses
      zero: there the intrinsic value exactly repays the premium. */
  lemma BreakEvenLong(c: OptionContract)
    requires c.position == Long && Premium(c) >= 0.0
    ensures Intrinsic(c, BreakEvenPoint(c)) == Premium(c)
    ensures PayOffAt([c], BreakEvenPoint(c)) == 0.0
  {
  }

  /** For a sold contract the listed point lies on the side where the option
      expires worthless, so the writer keeps the whole premium there: the
      payoff is +premium, not zero. */
  lemma BreakEvenShort(c: OptionContract)
    requires c.position == Short && Premium(c) >= 0.0
    ensures Intrinsic(c, BreakEvenPoint(c)) == 0.0
    ensures PayOffAt([c], BreakEvenPoint(c)) == Premium(c)
  {
  }

  /** The price at which one contract's net payoff is zero whichever side it
      is held on: one premium above the strike for a call, one premium below
      for a put. */
  function IntendedBreakEvenPoint(c: OptionContract): (b: real)
    ensures Premium(c) >= 0.0 ==> Intrinsic(c, b) == Premium(c)
    ensures Premium(c) >= 0.0 ==> NetPayoff(c, b) == 0.0
  {
    match c.kind
    case Call => c.strike + Premium(c)
    case Put => c.strike - Premium(c)
  }

  /** With a positive premium the intended point is the only zero of the
      contract's payoff. */
  lemma IntendedBreakEvenUnique(c: OptionContract, price: real)
    requires Premium(c) > 0.0
    ensures NetPayoff(c, price) == 0.0 <==> price == IntendedBreakEvenPoint(c)
  {
  }

  /** The listed point and the zero-crossing agree exactly for bought
      contracts and for contracts with no premium. */
  lemma BreakEvenMatchesIntended(c: OptionContract)
    ensures BreakEvenPoint(c) == IntendedBreakEvenPoint(c) <==> c.position == Long || Premium(c) == 0.0
  {
  }

  /** A sold call, strike 100, bid 2, ask 4: the listing shows 97, where the
      writer still holds +3; the payoff is zero at 103. */
  lemma ShortCallBreakEvenMisses()
    ensures var c := OptionContract(100.0, Call, 2.0, 4.0, Short, "2025-12-19");
      && BreakEvenPoint(c) == 97.0
      && PayOffAt([c], 97.0) == 3.0
      && IntendedBreakEvenPoint(c) == 103.0
      && PayOffAt([c], 103.0) == 0.0
  {
  }

  /** A bought call, strike 100, bid 2, ask 4: break-even 103, payoff 7 at
      110 and -3 at 90. */
  lemma LongCallExample()
    ensures var c := OptionContract(100.0, Call, 2.0, 4.0, Long, "2025-12-19");
      && BreakEvenPoint(c) == 103.0
      && PayOffAt([c], 110.0) == 7.0
      && PayOffAt([c], 90.0) == -3.0
  {
  }
}
