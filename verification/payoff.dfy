/** The payoff engine: the net payoff of a list of option contracts at one
    underlying price, as computed by `calculatePayOff` in
    react-solution/src/components/RiskRewardGraph.tsx. */
module PayoffEngine {
  import opened OptionTypes

  /** What the contract cost (or brought in): the midpoint of bid and ask. */
  function Premium(c: OptionContract): (p: real)
    ensures c.bid >= 0.0 && c.ask >= 0.0 ==> p >= 0.0
    ensures c.bid <= c.ask ==> c.bid <= p <= c.ask
    ensures p - c.bid == c.ask - p
  {
    (c.bid + c.ask) / 2.0
  }

  /** +1 for a bought contract, -1 for a sold one. */
  function PositionSign(p: Position): (s: real)
    ensures s == 1.0 || s == -1.0
    ensures s == 1.0 <==> p == Long
  {
    if p == Long then 1.0 else -1.0
  }

  /** `Math.max(x, 0)`. */
  function ClampAtZero(x: real): (r: real)
    ensures r >= 0.0 && r >= x
    ensures r == x || r == 0.0
  {
    if x > 0.0 then x else 0.0
  }

  /** The value of exercising the contract at `price`, never negative: how far
      the price is above the strike for a call, below it for a put. */
  function Intrinsic(c: OptionContract, price: real): (v: real)
    ensures v >= 0.0
    ensures c.kind == Call ==> v >= price - c.strike
    ensures c.kind == Put ==> v >= c.strike - price
    ensures v == 0.0 || (c.kind == Call && v == price - c.strike) || (c.kind == Put && v == c.strike - price)
  {
    match c.kind
    case Call => ClampAtZero(price - c.strike)
    case Put => ClampAtZero(c.strike - price)
  }

  /** The signed net payoff of one contract at `price`: intrinsic value minus
      premium for the holder, its negation for the writer. A holder never
      loses more than the premium; a writer never gains more than it. */
  function NetPayoff(c: OptionContract, price: real): (r: real)
    ensures c.position == Long ==> r == Intrinsic(c, price) - Premium(c)
    ensures c.position == Long ==> r >= -Premium(c)
    ensures c.position == Short ==> r <= Premium(c)
    ensures c.position == Short ==> r == Premium(c) - Intrinsic(c, price)
  {
    PositionSign(c.position) * (Intrinsic(c, price) - Premium(c))
  }

  /** The aggregate payoff at `price`: the contracts' net payoffs accumulated
      from the first contract to the last, starting from 0. A list of bought
      contracts never loses more than the premiums paid, and a list of sold
      contracts never gains more than the premiums received. */
  function PayOffAt(cs: seq<OptionContract>, price: real): (r: real)
    ensures (forall i :: 0 <= i < |cs| ==> cs[i].position == Long) ==> r >= -TotalPremium(cs)
    ensures (forall i :: 0 <= i < |cs| ==> cs[i].position == Short) ==> r <= TotalPremium(cs)
  {
    if |cs| == 0 then 0.0
    else PayOffAt(cs[..|cs| - 1], price) + NetPayoff(cs[|cs| - 1], price)
  }

  /** The accumulation loop of the source, one contract per iteration. */
  method CalculatePayOff(cs: seq<OptionContract>, price: real) returns (payoff: real)
    ensures payoff == PayOffAt(cs, price)
  {
    payoff := 0.0;
    var i := 0;
    while i < |cs|
      invariant 0 <= i <= |cs|
      invariant payoff == PayOffAt(cs[..i], price)
    {
      var c := cs[i];
      var premium := (c.bid + c.ask) / 2.0;
      var position := if c.position == Long then 1.0 else -1.0;
      if c.kind == Call {
        payoff := payoff + position * (ClampAtZero(price - c.strike) - premium);
      } else {
        payoff := payoff + position * (ClampAtZero(c.strike - price) - premium);
      }
      assert cs[..i + 1][..i] == cs[..i];
      i := i + 1;
    }
    assert cs[..|cs|] == cs;
  }

  /** No contracts pay nothing; one contract pays its own net payoff. */
  lemma PayOffAtBasics(c: OptionContract, price: real)
    ensures PayOffAt([], price) == 0.0
    ensures PayOffAt([c], price) == NetPayoff(c, price)
  {
  }

  /** Additivity: the payoff of two lists side by side is the sum of their
      payoffs at the same price. */
  lemma {:induction false} PayOffAtAppend(a: seq<OptionContract>, b: seq<OptionContract>, price: real)
    ensures PayOffAt(a + b, price) == PayOffAt(a, price) + PayOffAt(b, price)
    decreases |b|
  {
    if |b| == 0 {
      assert a + b == a;
    } else {
      var b' := b[..|b| - 1];
      assert (a + b)[..|a + b| - 1] == a + b';
      assert (a + b)[|a + b| - 1] == b[|b| - 1];
      PayOffAtAppend(a, b', price);
    }
  }

  /** The order in which two groups of contracts are listed does not change
      the aggregate payoff. */
  lemma PayOffAtSwap(a: seq<OptionContract>, b: seq<OptionContract>, price: real)
    ensures PayOffAt(a + b, price) == PayOffAt(b + a, price)
  {
    PayOffAtAppend(a, b, price);
    PayOffAtAppend(b, a, price);
  }

  /** The same contract taken on the opposite side. */
  function Flip(c: OptionContract): (f: OptionContract)
    ensures f.position != c.position
    ensures f.(position := c.position) == c
  {
    c.(position := if c.position == Long then Short else Long)
  }

  /** Every contract of `cs` taken on the opposite side, in the same order. */
  function Mirror(cs: seq<OptionContract>): (m: seq<OptionContract>)
    ensures |m| == |cs|
    ensures forall i :: 0 <= i < |cs| ==> m[i] == Flip(cs[i])
  {
    if |cs| == 0 then [] else Mirror(cs[..|cs| - 1]) + [Flip(cs[|cs| - 1])]
  }

  /** Flipping one contract negates its net payoff at every price. */
  lemma FlipNegates(c: OptionContract, price: real)
    ensures NetPayoff(Flip(c), price) == -NetPayoff(c, price)
  {
  }

  /** Flipping every contract negates the aggregate payoff at every price. */
  lemma {:induction false} MirrorNegates(cs: seq<OptionContract>, price: real)
    ensures PayOffAt(Mirror(cs), price) == -PayOffAt(cs, price)
    decreases |cs|
  {
    if |cs| > 0 {
      var init := cs[..|cs| - 1];
      var m := Mirror(cs);
      assert m[..|m| - 1] == Mirror(init);
      MirrorNegates(init, price);
      FlipNegates(cs[|cs| - 1], price);
    }
  }

  /** A position together with its mirror image pays exactly 0 at every price. */
  lemma MirrorCancels(cs: seq<OptionContract>, price: real)
    ensures PayOffAt(cs + Mirror(cs), price) == 0.0
  {
    PayOffAtAppend(cs, Mirror(cs), price);
    MirrorNegates(cs, price);
  }

  /** A long contract and an otherwise identical short contract cancel. */
  lemma LongShortCancel(c: OptionContract, price: real)
    ensures PayOffAt([c.(position := Long), c.(position := Short)], price) == 0.0
  {
    var long := c.(position := Long);
    assert Mirror([long]) == [c.(position := Short)];
    assert [long] + Mirror([long]) == [long, c.(position := Short)];
    MirrorCancels([long], price);
  }

  /** Sum of the premiums of all contracts. */
  function TotalPremium(cs: seq<OptionContract>): real
  {
    if |cs| == 0 then 0.0 else TotalPremium(cs[..|cs| - 1]) + Premium(cs[|cs| - 1])
  }
}
