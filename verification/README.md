# Risk/reward payoff engine — Dafny model

This project models the payoff engine of the RiskRewardGraph component of
the options risk/reward chart (`react-solution`). Given up to four option
contracts (call or put, long or short, with a strike, a bid and an ask), the
component does the following:

- it computes the aggregate net payoff of the position at an underlying price;
- it samples that payoff once per contract, at the contract's strike;
- it rejects lists longer than four contracts with a validation message;
- it reports max profit (rounded to cents) and max loss over the samples;
- it lists one break-even price per contract;
- it prints values as signed currency.

Prices are exact `real`s. Floating-point rounding in sums is not modelled.

Modules, one per concern of the component:

- `OptionTypes` (option_types.dfy): the contract record and its two enums.
- `PayoffEngine` (payoff.dfy): premium, intrinsic value, per-contract net
  payoff, the accumulated payoff `PayOffAt` and the source's accumulation
  loop `CalculatePayOff`. Lemmas cover additivity, order independence and
  long/short cancellation.
- `BreakEven` (break_even.dfy): the four-case break-even table as written,
  the payoff at those points, and the zero-crossing point (see Findings).
- `GraphData` (graph_data.dfy): `MAX_OPTIONS`, validation and sampling, and
  the component's two state slots (samples, error). It also models how the
  state evolves over a history of contract lists and what is rendered.
- `Extrema` (extrema.dfy): max/min of a non-empty list, and `toFixed(2)`
  rounding.
- `Metrics` (metrics.dfy): max profit, max loss, the loss styling of max
  profit, and the axis domains of the chart.
- `Format` (format.dfy): `split`, `join`, signed currency and the
  break-even line of the metrics panel.
- `Wrappers` (wrappers.dfy): `Option` and `Result`.

Behaviour of the component worth knowing before reading the proofs:

- The break-even listed for a short contract does not make its payoff zero
  (see Findings).
- Samples are taken one per contract, so duplicate strikes are kept.
- Max profit is rounded to two decimals; max loss is not.
- A rejected list keeps the previous samples. The error slot is never
  cleared, so once a list has been rejected the component shows only the
  message.

JavaScript's number-to-string conversion is a parameter `show` of type
`real -> string`, used for non-negative values. The currency and break-even
contracts assume that `show` never yields an empty string, a '-' or a ','
(`PlainRenderer`). A negative number prints as '-' followed by `show` of its
magnitude.

## Model

| member | source | states |
|---|---|---|
| `PayoffEngine.Premium` | react-solution/src/components/RiskRewardGraph.tsx:44 | the premium is the midpoint of bid and ask: equally far from both, between them when bid ≤ ask, and non-negative when both are |
| `PayoffEngine.PositionSign` | react-solution/src/components/RiskRewardGraph.tsx:46 | the position factor is +1 exactly for LONG and -1 otherwise |
| `PayoffEngine.Intrinsic` | react-solution/src/components/RiskRewardGraph.tsx:47-53 | the intrinsic value is never negative, is at least price−strike for a CALL and strike−price for a PUT, and is either 0 or exactly that difference |
| `PayoffEngine.NetPayoff` | react-solution/src/components/RiskRewardGraph.tsx:43-53 | a LONG contract pays intrinsic value minus premium, so never less than −premium; a SHORT contract pays premium minus intrinsic value, so never more than +premium |
| `PayoffEngine.PayOffAt` | react-solution/src/components/RiskRewardGraph.tsx:40-57 | the aggregate payoff of a list of LONG contracts is never below minus the sum of their premiums, and that of a list of SHORT contracts never above the sum of their premiums |
| `PayoffEngine.CalculatePayOff` | react-solution/src/components/RiskRewardGraph.tsx:40-57 | the accumulation loop (start at 0, add each contract's signed net payoff in list order) returns the aggregate payoff `PayOffAt` of the whole list |
| `PayoffEngine.PayOffAtBasics` | react-solution/src/components/RiskRewardGraph.tsx:41-56 | the payoff of no contracts is 0, and that of a single contract is its own net payoff |
| `PayoffEngine.PayOffAtAppend` | react-solution/src/components/RiskRewardGraph.tsx:40-57 | additivity: the payoff of a concatenated list is the sum of the parts' payoffs at the same price |
| `PayoffEngine.PayOffAtSwap` | react-solution/src/components/RiskRewardGraph.tsx:42-55 | listing two groups of contracts in either order gives the same payoff |
| `PayoffEngine.MirrorNegates` | react-solution/src/components/RiskRewardGraph.tsx:46-53 | switching every contract to the opposite side negates the aggregate payoff at every price |
| `PayoffEngine.MirrorCancels` | react-solution/src/components/RiskRewardGraph.tsx:46-53 | a position together with its opposite-side copy pays 0 at every price |
| `PayoffEngine.LongShortCancel` | react-solution/src/components/RiskRewardGraph.tsx:46-53 | a LONG contract and an otherwise identical SHORT contract together pay 0 at every price |
| `BreakEven.BreakEvenPoint` | react-solution/src/components/RiskRewardGraph.tsx:68-86 | each listed break-even lies exactly one premium away from the strike; for LONG contracts it equals the zero-crossing point |
| `BreakEven.BreakEvenLong` | react-solution/src/components/RiskRewardGraph.tsx:73-81 | for a LONG contract with non-negative premium, the intrinsic value at the listed point repays the premium and the payoff there is 0 |
| `BreakEven.BreakEvenShort` | react-solution/src/components/RiskRewardGraph.tsx:76-83 | for a SHORT contract with non-negative premium, the option is worthless at the listed point and the payoff there is +premium, not 0 |
| `BreakEven.IntendedBreakEvenPoint` | react-solution/src/components/RiskRewardGraph.tsx:68-86 | with non-negative premium, strike+premium for a CALL and strike−premium for a PUT gives zero payoff on either side |
| `BreakEven.IntendedBreakEvenUnique` | react-solution/src/components/RiskRewardGraph.tsx:68-86 | with a positive premium, the payoff is zero at exactly that one price |
| `BreakEven.BreakEvenMatchesIntended` | react-solution/src/components/RiskRewardGraph.tsx:73-85 | the listed point equals the zero-crossing exactly when the contract is LONG or its premium is 0 |
| `BreakEven.ShortCallBreakEvenMisses` | react-solution/src/components/RiskRewardGraph.tsx:76-77 | short CALL, strike 100, bid 2, ask 4: the listed point is 97, where the payoff is +3; the payoff is zero at 103 |
| `BreakEven.LongCallExample` | react-solution/src/components/RiskRewardGraph.tsx:40-86 | long CALL, strike 100, bid 2, ask 4: break-even 103, payoff 7 at 110 and −3 at 90 |
| `GraphData.Sampled` | react-solution/src/components/RiskRewardGraph.tsx:23-26 | one sample per contract, in order, priced at that contract's strike and lying on the payoff curve of the whole list |
| `GraphData.Validate` | react-solution/src/components/RiskRewardGraph.tsx:10-30 | a list is accepted exactly when it has at most 4 contracts; accepted lists give one sample (strike, payoff at strike) per contract; rejected ones give only the message naming the limit |
| `GraphData.OnOptionsChanged` | react-solution/src/components/RiskRewardGraph.tsx:21-32 | an accepted list replaces the samples and leaves the error slot alone; a rejected list sets the message and keeps the previous samples; only the validation message can ever be held |
| `GraphData.Render` | react-solution/src/components/RiskRewardGraph.tsx:155-167 | the error text replaces the chart exactly when an error is set; otherwise the chart shows the current samples |
| `GraphData.RejectionIsPermanent` | react-solution/src/components/RiskRewardGraph.tsx:19-32 | after one rejection, every later state renders the validation message, whatever lists follow |
| `GraphData.AcceptedHistoryShowsLast` | react-solution/src/components/RiskRewardGraph.tsx:18-32 | if every list so far was accepted, the chart shows the samples of the latest list |
| `Extrema.SeqMax` | react-solution/src/components/RiskRewardGraph.tsx:59 | the maximum of a non-empty list is one of its elements and bounds all of them |
| `Extrema.SeqMin` | react-solution/src/components/RiskRewardGraph.tsx:60 | the minimum of a non-empty list is one of its elements and is below all of them |
| `Extrema.Round2` | react-solution/src/components/RiskRewardGraph.tsx:59 | rounding to two decimals gives a whole number of cents within half a cent of the input; a tie goes away from zero (0.005 becomes 0.01, −0.005 becomes −0.01); a non-negative input never rounds to a negative value |
| `Metrics.MaxPayoff` | react-solution/src/components/RiskRewardGraph.tsx:59 | the unrounded max profit is one of the sample payoffs and bounds every sample payoff |
| `Metrics.MaxProfit` | react-solution/src/components/RiskRewardGraph.tsx:59 | the displayed max profit is a whole number of cents; no sample exceeds it by more than half a cent, and it lies within half a cent of some sample |
| `Metrics.MaxLoss` | react-solution/src/components/RiskRewardGraph.tsx:60 | max loss is one of the sample payoffs and is below every sample payoff |
| `Metrics.MetricsBracketSamples` | react-solution/src/components/RiskRewardGraph.tsx:59-60 | max loss ≤ every sample payoff ≤ unrounded max profit |
| `Metrics.ProfitStyledAsLossMeansAllLosses` | react-solution/src/components/RiskRewardGraph.tsx:162 | max profit is styled as a loss only when every sample is a loss |
| `Metrics.XDomain` | react-solution/src/components/RiskRewardGraph.tsx:91-104 | the price axis runs from the smallest strike minus 0.5 to the largest strike; every strike lies inside it and both ends come from actual strikes |
| `Metrics.YDomain` | react-solution/src/components/RiskRewardGraph.tsx:106-108 | the payoff axis runs from the smallest sample payoff minus 0.5 to the largest; every sample payoff lies inside it and both ends come from actual samples |
| `Metrics.SamplesInsideDomains` | react-solution/src/components/RiskRewardGraph.tsx:21-26 | every sample of an accepted non-empty list lies inside both axis domains |
| `Format.SplitJoin` | react-solution/src/components/RiskRewardGraph.tsx:87 | joining pieces that do not contain the separator and splitting the result again gives back the pieces |
| `Format.ConvertedValue` | react-solution/src/components/RiskRewardGraph.tsx:62-65 | the currency text is "-$" plus the magnitude for a negative value and "$" plus the value otherwise; it starts with "-$" exactly for negative values |
| `Format.BreakEvenDisplayNone` | react-solution/src/components/RiskRewardGraph.tsx:165 | the joined break-even list is empty, and "none" is shown, exactly when there are no contracts |
| `Format.BreakEvenDisplay` | react-solution/src/components/RiskRewardGraph.tsx:68-87 | with no contracts the line is "none"; otherwise it splits at the commas into exactly one printed break-even point per contract, in contract order |

## Findings

| source | as written | input that shows it | evidently intended | confidence | as-written member | corrected member |
|---|---|---|---|---|---|---|
| react-solution/src/components/RiskRewardGraph.tsx:76-83 | a short CALL breaks even at strike − premium and a short PUT at strike + premium | short CALL, strike 100, bid 2, ask 4: listed 97, payoff there +3, payoff zero at 103 | a break-even depends only on CALL/PUT: strike + premium for a call, strike − premium for a put, where the payoff is zero on either side | high; not executed | `BreakEven.ShortCallBreakEvenMisses` (about `BreakEven.BreakEvenPoint`) | `BreakEven.IntendedBreakEvenPoint` |

`BreakEven.BreakEvenShort` proves the general case: at the listed point a
short contract pays +premium. `BreakEven.BreakEvenMatchesIntended` proves
that the two definitions differ exactly for short contracts with a non-zero
premium. The break-even line (`Format.BreakEvenDisplay`) models the text the
component prints, so it keeps the as-written points.

## Left out

- Loading contracts (react-solution/src/data/FetchData.ts, with its "Error loading JSON" fallback) and the application shell (react-solution/src/App.tsx): network I/O and asynchronous React state, outside the payoff engine.
- Drawing (`renderGraph` apart from its axis domains): the SVG surface, scales, Catmull-Rom curve, axes and colours are calls into the d3 library.
- Tooltip mouseover/mouseout handlers: DOM side effects and pixel positioning.
- The `!options` guard of the first effect: a Dafny sequence cannot be null, and for a null list the source would fail at `options.map` anyway.
- Floating point: sums are exact reals. `toFixed(2)` is rounding half away from zero on exact reals. Binary representation effects are not modelled.
- Exponent notation in JavaScript's number printing (for example "1e-7"): `show` is assumed to print plain decimals, so the '-' split in currency formatting always yields the magnitude.
- Empty sample lists: max profit, max loss and the axis domains require a non-empty list. In the source, an empty list gives −Infinity / +Infinity (or undefined domains), which exact reals cannot represent.
- The contract's expiration date is carried in the record but read by no computation.
