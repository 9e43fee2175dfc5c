/** The first effect of the RiskRewardGraph component: whenever the contract
    list changes, either the list is accepted and one (price, payoff) sample
    is produced per contract, or it is too long and a validation message is
    stored instead. */
module GraphData {
  import opened OptionTypes
  import opened Wrappers
  import opened PayoffEngine

  /** The largest number of contracts the graph accepts. */
  const MAX_OPTIONS: nat := 4

  /** One point of the payoff diagram. */
  datatype Sample = Sample(price: real, payOff: real)

  /** Decimal digits of a natural number. */
  function NatToString(n: nat): string
    decreases n
  {
    var digit := ['0' + (n % 10) as char];
    if n < 10 then digit else NatToString(n / 10) + digit
  }

  /** The message shown when the list is too long; it names the limit. */
  const ErrorMessage: string :=
    "Please enter a valid array with up to " + NatToString(MAX_OPTIONS) + " options contracts."

  /** The samples of `cs`, priced on the payoff curve of the whole list
      `all`: one per contract, in order, at that contract's strike. */
  function Sampled(cs: seq<OptionContract>, all: seq<OptionContract>): (r: seq<Sample>)
    ensures |r| == |cs|
    ensures forall i :: 0 <= i < |cs| ==> r[i].price == cs[i].strike
    ensures forall i :: 0 <= i < |r| ==> r[i].payOff == PayOffAt(all, r[i].price)
  {
    if |cs| == 0 then []
    else [Sample(cs[0].strike, PayOffAt(all, cs[0].strike))] + Sampled(cs[1..], all)
  }

  /** Validation and sampling: a list of at most MAX_OPTIONS contracts yields
      its samples, a longer one the validation message and nothing else. */
  function Validate(cs: seq<OptionContract>): (r: Result<seq<Sample>, string>)
    ensures r.Ok? <==> |cs| <= MAX_OPTIONS
    ensures r.Err? ==> r.error == ErrorMessage
    ensures r.Ok? ==> |r.value| == |cs|
    ensures r.Ok? ==> forall i :: 0 <= i < |cs| ==> r.value[i] == Sample(cs[i].strike, PayOffAt(cs, cs[i].strike))
  {
    if |cs| <= MAX_OPTIONS then Ok(Sampled(cs, cs)) else Err(ErrorMessage)
  }

  /** The two state slots of the component. */
  datatype GraphState = GraphState(graphData: seq<Sample>, error: Option<string>)

  /** The state before any contract list has been seen. */
  const InitialState: GraphState := GraphState([], None)

  /** The only errors the component can hold are the validation message. */
  predicate ValidState(st: GraphState) {
    st.error == None || st.error == Some(ErrorMessage)
  }

  /** The effect run when the contract list changes. An accepted list replaces
      the samples and leaves the error slot alone (it is never cleared); a
      rejected list sets the error and keeps the previous samples. */
  function OnOptionsChanged(st: GraphState, cs: seq<OptionContract>): (st': GraphState)
    ensures |cs| <= MAX_OPTIONS ==> st'.error == st.error && st'.graphData == Validate(cs).value
    ensures |cs| > MAX_OPTIONS ==> st'.graphData == st.graphData && st'.error == Some(ErrorMessage)
    ensures ValidState(st) ==> ValidState(st')
  {
    match Validate(cs)
    case Ok(samples) => st.(graphData := samples)
    case Err(message) => st.(error := Some(message))
  }

  /** What the component shows: the error text in place of the chart when an
      error is set, the chart of the samples otherwise. */
  datatype View = ErrorText(text: string) | Chart(samples: seq<Sample>)

  function Render(st: GraphState): (v: View)
    requires ValidState(st)
    ensures v.ErrorText? <==> st.error.Some?
    ensures v.ErrorText? ==> v.text == ErrorMessage
    ensures v.Chart? ==> v.samples == st.graphData
  {
    match st.error
    case Some(e) => if e != "" then ErrorText(e) else Chart(st.graphData)
    case None => Chart(st.graphData)
  }

  /** Replays a history of contract lists, one effect run per list. */
  function Replay(st: GraphState, history: seq<seq<OptionContract>>): GraphState
    decreases |history|
  {
    if |history| == 0 then st else Replay(OnOptionsChanged(st, history[0]), history[1..])
  }

  /** Once a list has been rejected the chart never comes back: every later
      state renders the validation message. */
  lemma {:induction false} RejectionIsPermanent(st: GraphState, history: seq<seq<OptionContract>>)
    requires ValidState(st) && st.error.Some?
    ensures ValidState(Replay(st, history))
    ensures Render(Replay(st, history)) == ErrorText(ErrorMessage)
    decreases |history|
  {
    if |history| > 0 {
      RejectionIsPermanent(OnOptionsChanged(st, history[0]), history[1..]);
    }
  }

  /** The state after a history of lists that were all accepted shows the
      samples of the last list. */
  lemma {:induction false} AcceptedHistoryShowsLast(history: seq<seq<OptionContract>>)
    requires |history| > 0
    requires forall k :: 0 <= k < |history| ==> |history[k]| <= MAX_OPTIONS
    ensures Replay(InitialState, history).error == None
    ensures Render(Replay(InitialState, history)) == Chart(Validate(history[|history| - 1]).value)
  {
    AcceptedReplay(InitialState, history);
  }

  lemma {:induction false} AcceptedReplay(st: GraphState, history: seq<seq<OptionContract>>)
    requires |history| > 0
    requires forall k :: 0 <= k < |history| ==> |history[k]| <= MAX_OPTIONS
    ensures Replay(st, history) == GraphState(Validate(history[|history| - 1]).value, st.error)
    decreases |history|
  {
    if |history| > 1 {
      AcceptedReplay(OnOptionsChanged(st, history[0]), history[1..]);
    }
  }
}
