/** The counter demo: a reducer over an integer and the store's dispatches as a fold. */
module Counter {
  import opened Wrappers
  import TodoReducers

  datatype CounterAction = Increment | Decrement | OtherAction(tag: string)

  const IncrementType: string := "INCREMENT"
  const DecrementType: string := "DECREMENT"

  /** An `OtherAction` carries a tag that none of the reducer's cases matches. */
  predicate WellFormed(a: CounterAction) {
    a.OtherAction? ==> a.tag != IncrementType && a.tag != DecrementType
  }

  /** The `counter` reducer; an `undefined` state defaults to 0. */
  function Counter(state: Option<int>, action: CounterAction): (r: int)
    ensures var s := state.GetOr(0);
            && -1 <= r - s <= 1
            && (r > s <==> action.Increment?)
            && (r < s <==> action.Decrement?)
  {
    var s := state.GetOr(0);
    match action
    case Increment => s + 1
    case Decrement => s - 1
    case OtherAction(_) => s
  }

  /**
   * The state after dispatching the actions in order, starting from `s`; each
   * dispatch moves the state by at most one (RunIsNetCount gives the exact value).
   */
  function Run(s: int, actions: seq<CounterAction>): (r: int)
    ensures -|actions| <= r - s <= |actions|
    decreases |actions|
  {
    if actions == [] then s else Run(Counter(Some(s), actions[0]), actions[1..])
  }

  /** The store's initial state: the reducer applied to `undefined` and an unrecognised action. */
  lemma InitialCounterIsZero(tag: string)
    requires WellFormed(OtherAction(tag))
    ensures Counter(None, OtherAction(tag)) == 0
  {
  }

  lemma IncrementDecrementCancel(s: int)
    ensures Counter(Some(Counter(Some(s), Increment)), Decrement) == s
    ensures Counter(Some(Counter(Some(s), Decrement)), Increment) == s
  {
  }

  /** Any sequence of dispatches ends at the start plus the increments minus the decrements. */
  lemma {:induction false} RunIsNetCount(s: int, actions: seq<CounterAction>)
    ensures Run(s, actions) == s + multiset(actions)[Increment] - multiset(actions)[Decrement]
    decreases |actions|
  {
    if actions != [] {
      RunIsNetCount(Counter(Some(s), actions[0]), actions[1..]);
      assert actions == [actions[0]] + actions[1..];
      assert multiset(actions) == multiset{actions[0]} + multiset(actions[1..]);
    }
  }

  /** The demo's dispatches INCREMENT, DECREMENT, INCREMENT from the initial state end at 1. */
  lemma DemoDispatchEndsAtOne()
    ensures Run(Counter(None, OtherAction(TodoReducers.InitType)), [Increment, Decrement, Increment]) == 1
  {
  }
}
