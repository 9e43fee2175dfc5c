/** The figures the component derives from its samples: max profit, max loss,
    whether max profit is styled as a loss, and the axis domains of the
    chart. All of them are taken over the strike samples only. */
module Metrics {
  import opened OptionTypes
  import opened PayoffEngine
  import opened Extrema
  import opened GraphData

  /** Space kept below the smallest value on each axis. */
  const GRAPH_LINE_OFFSET: real := 0.5

  /** The payoff column of the samples. */
  function Payoffs(samples: seq<Sample>): (ys: seq<real>)
    ensures |ys| == |samples|
    ensures forall i :: 0 <= i < |samples| ==> ys[i] == samples[i].payOff
  {
    seq(|samples|, i requires 0 <= i < |samples| => samples[i].payOff)
  }

  /** The largest sampled payoff, before rounding. */
  function MaxPayoff(samples: seq<Sample>): (m: real)
    requires |samples| > 0
    ensures exists i :: 0 <= i < |samples| && samples[i].payOff == m
    ensures forall i :: 0 <= i < |samples| ==> samples[i].payOff <= m
  {
    var ys := Payoffs(samples);
    var m := SeqMax(ys);
    var i :| 0 <= i < |ys| && ys[i] == m;
    assert samples[i].payOff == m;
    m
  }

  /** Max profit as displayed: the largest sampled payoff rounded to cents. */
  function MaxProfit(samples: seq<Sample>): (p: real)
    requires |samples| > 0
    ensures IsCents(p)
    ensures forall i :: 0 <= i < |samples| ==> samples[i].payOff <= p + 1.0 / 200.0
    ensures exists i :: 0 <= i < |samples| && -1.0 / 200.0 <= p - samples[i].payOff <= 1.0 / 200.0
  {
    Round2(MaxPayoff(samples))
  }

  /** Max loss: the smallest sampled payoff, itself one of the samples. */
  function MaxLoss(samples: seq<Sample>): (m: real)
    requires |samples| > 0
    ensures exists i :: 0 <= i < |samples| && samples[i].payOff == m
    ensures forall i :: 0 <= i < |samples| ==> m <= samples[i].payOff
  {
    var ys := Payoffs(samples);
    var m := SeqMin(ys);
    var i :| 0 <= i < |ys| && ys[i] == m;
    assert samples[i].payOff == m;
    m
  }

  /** Max loss never exceeds the unrounded max profit, and every sample lies
      between the two. */
  lemma MetricsBracketSamples(samples: seq<Sample>, i: nat)
    requires i < |samples|
    ensures MaxLoss(samples) <= samples[i].payOff <= MaxPayoff(samples)
    ensures MaxLoss(samples) <= MaxPayoff(samples)
  {
  }

  /** The max-profit figure is styled as a loss only when every sample is a
      loss. */
  lemma ProfitStyledAsLossMeansAllLosses(samples: seq<Sample>)
    requires |samples| > 0 && MaxProfit(samples) < 0.0
    ensures forall i :: 0 <= i < |samples| ==> samples[i].payOff < 0.0
  {
  }

  /** An axis range. */
  datatype Domain = Domain(lo: real, hi: real)

  /** The strike column of the contracts. */
  function Strikes(cs: seq<OptionContract>): (xs: seq<real>)
    ensures |xs| == |cs|
    ensures forall i :: 0 <= i < |cs| ==> xs[i] == cs[i].strike
  {
    seq(|cs|, i requires 0 <= i < |cs| => cs[i].strike)
  }

  /** Price axis: from the smallest strike less the offset to the largest
      strike. Every strike lies strictly above the low end and at most at the
      high end, and both ends come from actual strikes. */
  function XDomain(cs: seq<OptionContract>): (d: Domain)
    requires |cs| > 0
    ensures forall i :: 0 <= i < |cs| ==> d.lo < cs[i].strike <= d.hi
    ensures exists i :: 0 <= i < |cs| && cs[i].strike == d.lo + GRAPH_LINE_OFFSET
    ensures exists i :: 0 <= i < |cs| && cs[i].strike == d.hi
  {
    var xs := Strikes(cs);
    var lo := SeqMin(xs);
    var hi := SeqMax(xs);
    var i :| 0 <= i < |xs| && xs[i] == lo;
    var j :| 0 <= j < |xs| && xs[j] == hi;
    assert cs[i].strike == lo && cs[j].strike == hi;
    Domain(lo - GRAPH_LINE_OFFSET, hi)
  }

  /** Payoff axis: from the smallest sampled payoff less the offset to the
      largest (unrounded) one. Every sample payoff lies strictly above the
      low end and at most at the high end, and both ends come from actual
      samples. */
  function YDomain(samples: seq<Sample>): (d: Domain)
    requires |samples| > 0
    ensures forall i :: 0 <= i < |samples| ==> d.lo < samples[i].payOff <= d.hi
    ensures exists i :: 0 <= i < |samples| && samples[i].payOff == d.lo + GRAPH_LINE_OFFSET
    ensures exists i :: 0 <= i < |samples| && samples[i].payOff == d.hi
  {
    Domain(MaxLoss(samples) - GRAPH_LINE_OFFSET, MaxPayoff(samples))
  }

  /** Every sample of an accepted, non-empty list is drawn inside both axis
      domains. */
  lemma SamplesInsideDomains(cs: seq<OptionContract>)
    requires 0 < |cs| <= MAX_OPTIONS
    ensures var samples := Validate(cs).value;
      forall i :: 0 <= i < |samples| ==>
        XDomain(cs).lo < samples[i].price <= XDomain(cs).hi
        && YDomain(samples).lo < samples[i].payOff <= YDomain(samples).hi
  {
  }
}
