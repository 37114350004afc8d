/**
 * The todo-list reducers of the console demo: `todo` builds or toggles one
 * todo, `todos` maintains the list, `visibilityFilter` holds the current
 * filter, and `todoApp` applies each of them to its own field of the state.
 * Every reducer is a pure function of the previous state and an action;
 * JavaScript's default parameters (`state = []`, `state = 'SHOW_ALL'`,
 * `state = {}`) are modelled by an `Option` state whose `None` stands for
 * `undefined`.
 */
module TodoReducers {
  import opened Wrappers

  datatype Todo = Todo(id: int, text: string, completed: bool)

  /** The action objects, discriminated by their `type` string (see ActionType). */
  datatype Action =
    | AddTodo(id: int, text: string)
    | ToggleTodo(id: int)
    | SetFilter(filter: string)
    | Other(tag: string)

  datatype State = State(todos: seq<Todo>, visibilityFilter: string)

  const AddTodoType: string := "ADD_TODO"
  const ToggleTodoType: string := "TOGGLE_TODO"
  /** The filter action's tag, spelt as the reducer and the UI both spell it. */
  const SetFilterType: string := "SET_VISIBLITY_FILTER"
  /** A tag no reducer recognises, such as the store's initialising action. */
  const InitType: string := "@@INIT"

  /** The default of `visibilityFilter`'s state parameter. */
  const ShowAll: string := "SHOW_ALL"

  /** The state the root reducer produces from `undefined`. */
  const DefaultState: State := State([], ShowAll)

  /** The `type` field of an action object. */
  function ActionType(a: Action): string {
    match a
    case AddTodo(_, _) => AddTodoType
    case ToggleTodo(_) => ToggleTodoType
    case SetFilter(_) => SetFilterType
    case Other(tag) => tag
  }

  /** An `Other` action carries a tag that none of the reducers' cases matches. */
  predicate WellFormed(a: Action) {
    a.Other? ==> a.tag != AddTodoType && a.tag != ToggleTodoType && a.tag != SetFilterType
  }

  /**
   * Reads an action object `{type, id, text, filter}` the way the reducers'
   * `switch (action.type)` does: the three recognised tags select their case,
   * every other string falls to the default branch.
   */
  function ParseAction(typ: string, id: int, text: string, filter: string): (r: Action)
    ensures WellFormed(r)
    ensures ActionType(r) == typ
    ensures r.AddTodo? ==> r.id == id && r.text == text
    ensures r.ToggleTodo? ==> r.id == id
    ensures r.SetFilter? ==> r.filter == filter
  {
    if typ == AddTodoType then AddTodo(id, text)
    else if typ == ToggleTodoType then ToggleTodo(id)
    else if typ == SetFilterType then SetFilter(filter)
    else Other(typ)
  }

  /** Two todos that can differ at most in `completed`. */
  predicate SameExceptCompleted(t: Todo, u: Todo) {
    t.id == u.id && t.text == u.text
  }

  /**
   * The `todo` reducer. `ADD_TODO` ignores the incoming state; `TOGGLE_TODO`
   * reads `state.id`, so JavaScript throws on an `undefined` state there and
   * callers must supply one.
   */
  function ReduceTodo(state: Option<Todo>, action: Action): (r: Option<Todo>)
    requires action.ToggleTodo? ==> state.Some?
    ensures action.AddTodo? ==> r == Some(Todo(action.id, action.text, false))
    ensures action.ToggleTodo? ==>
              && r.Some?
              && SameExceptCompleted(r.value, state.value)
              && (r.value.completed != state.value.completed <==> state.value.id == action.id)
    ensures !action.AddTodo? && !action.ToggleTodo? ==> r == state
  {
    match action
    case AddTodo(id, text) => Some(Todo(id, text, false))
    case ToggleTodo(id) =>
      if state.value.id != id then state
      else Some(state.value.(completed := !state.value.completed))
    case _ => state
  }

  /** The `todos` reducer: append on `ADD_TODO`, map `todo` over the list on `TOGGLE_TODO`. */
  function ReduceTodos(state: Option<seq<Todo>>, action: Action): (r: seq<Todo>)
    ensures var ts := state.GetOr([]);
            action.AddTodo? ==>
              && |r| == |ts| + 1
              && r[..|ts|] == ts
              && r[|ts|] == Todo(action.id, action.text, false)
    ensures var ts := state.GetOr([]);
            action.ToggleTodo? ==>
              && |r| == |ts|
              && forall i :: 0 <= i < |ts| ==>
                   && SameExceptCompleted(r[i], ts[i])
                   && (r[i].completed != ts[i].completed <==> ts[i].id == action.id)
    ensures !action.AddTodo? && !action.ToggleTodo? ==> r == state.GetOr([])
  {
    var ts := state.GetOr([]);
    match action
    case AddTodo(_, _) => ts + [ReduceTodo(None, action).value]
    case ToggleTodo(_) =>
      seq(|ts|, i requires 0 <= i < |ts| => ReduceTodo(Some(ts[i]), action).value)
    case _ => ts
  }

  /** The `visibilityFilter` reducer; the new filter is taken verbatim, unvalidated. */
  function ReduceVisibilityFilter(state: Option<string>, action: Action): (r: string)
    ensures action.SetFilter? ==> r == action.filter
    ensures !action.SetFilter? ==> r == state.GetOr(ShowAll)
  {
    match action
    case SetFilter(filter) => filter
    case _ => state.GetOr(ShowAll)
  }

  /**
   * The root reducer, in the hand-written form of `combineReducers`: both
   * sub-reducers see every action, each applied to its own field of the old
   * state (both fields `undefined` when the state itself is).
   */
  function TodoApp(state: Option<State>, action: Action): (r: State)
    ensures var s := state.GetOr(DefaultState);
            && (action.SetFilter? ==> r.visibilityFilter == action.filter)
            && (!action.SetFilter? ==> r.visibilityFilter == s.visibilityFilter)
            && (action.AddTodo? ==> r.todos == s.todos + [Todo(action.id, action.text, false)])
            && (action.ToggleTodo? ==> r.todos == ReduceTodos(Some(s.todos), action))
            && (action.SetFilter? || action.Other? ==> r.todos == s.todos)
  {
    var todos := if state.Some? then Some(state.value.todos) else None;
    var filter := if state.Some? then Some(state.value.visibilityFilter) else None;
    var r := State(ReduceTodos(todos, action), ReduceVisibilityFilter(filter, action));
    assert action.AddTodo? ==> r.todos == state.GetOr(DefaultState).todos + [Todo(action.id, action.text, false)];
    r
  }

  /** Toggling the same id twice gives back the original list. */
  lemma ToggleTwiceIsIdentity(ts: seq<Todo>, id: int)
    ensures ReduceTodos(Some(ReduceTodos(Some(ts), ToggleTodo(id))), ToggleTodo(id)) == ts
  {
  }

  /** An action no reducer recognises leaves the whole state unchanged, however often dispatched. */
  lemma OtherActionLeavesStateUnchanged(s: State, tag: string)
    requires WellFormed(Other(tag))
    ensures TodoApp(Some(s), Other(tag)) == s
    ensures TodoApp(Some(TodoApp(Some(s), Other(tag))), Other(tag)) == s
  {
  }

  /** Setting the filter replaces it verbatim, whatever the string, and keeps the todos. */
  lemma SetFilterReplacesOnlyTheFilter(s: State, filter: string)
    ensures TodoApp(Some(s), SetFilter(filter)) == State(s.todos, filter)
  {
  }

  /** The correctly spelt tag `SET_VISIBILITY_FILTER` is not the reducer's tag and changes nothing. */
  lemma CorrectlySpeltFilterTagIsIgnored(s: State, id: int, text: string, filter: string)
    ensures ParseAction("SET_VISIBILITY_FILTER", id, text, filter) == Other("SET_VISIBILITY_FILTER")
    ensures TodoApp(Some(s), ParseAction("SET_VISIBILITY_FILTER", id, text, filter)) == s
  {
  }

  /** The state the store seeds itself with, from `undefined` and its initialising action. */
  lemma InitialState()
    ensures TodoApp(None, Other(InitType)) == State([], "SHOW_ALL")
  {
  }

  /** The reducer test for `ADD_TODO` on an empty list. */
  lemma AddTodoTestExample()
    ensures ReduceTodos(Some([]), AddTodo(0, "Learn Redux")) == [Todo(0, "Learn Redux", false)]
  {
  }

  /** The reducer test for `TOGGLE_TODO` on a list of two todos. */
  lemma ToggleTodoTestExample()
    ensures ReduceTodos(Some([Todo(0, "Learn Redux", false), Todo(1, "sell dog", false)]), ToggleTodo(1))
         == [Todo(0, "Learn Redux", false), Todo(1, "sell dog", true)]
  {
  }
}
