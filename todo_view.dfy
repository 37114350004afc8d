/**
 * The todo UI's pure core: `getVisibleTodos`, which selects the todos the
 * current filter shows, and the id allocation of the `ADD_TODO` handler,
 * which takes `nextTodoId++` as the new todo's id. The module-level counter
 * becomes an argument threaded through a fold over the user's clicks.
 */
module TodoView {
  import opened Wrappers
  import opened TodoReducers

  const ShowActive: string := "SHOW_ACTIVE"
  const ShowCompleted: string := "SHOW_COMPLETED"

  /** `xs` is `ys` with some elements dropped and the rest kept in order. */
  ghost predicate IsSubsequence(xs: seq<Todo>, ys: seq<Todo>)
    decreases |ys|
  {
    if xs == [] then true
    else if ys == [] then false
    else (xs[0] == ys[0] && IsSubsequence(xs[1..], ys[1..])) || IsSubsequence(xs, ys[1..])
  }

  /** `Array.prototype.filter` with the predicate `t => t.completed == completed`. */
  function Filter(ts: seq<Todo>, completed: bool): (r: seq<Todo>)
    ensures |r| <= |ts|
    ensures forall i :: 0 <= i < |r| ==> r[i].completed == completed
    ensures forall t: Todo :: t.completed == completed ==> multiset(r)[t] == multiset(ts)[t]
    decreases |ts|
  {
    if ts == [] then []
    else
      var rest := Filter(ts[1..], completed);
      assert ts == [ts[0]] + ts[1..];
      if ts[0].completed == completed then [ts[0]] + rest else rest
  }

  lemma {:induction false} FilterIsSubsequence(ts: seq<Todo>, completed: bool)
    ensures IsSubsequence(Filter(ts, completed), ts)
    decreases |ts|
  {
    if ts != [] {
      FilterIsSubsequence(ts[1..], completed);
      var rest := Filter(ts[1..], completed);
      if ts[0].completed == completed {
        assert ([ts[0]] + rest)[1..] == rest;
      }
    }
  }

  lemma {:induction false} SubsequenceReflexive(ts: seq<Todo>)
    ensures IsSubsequence(ts, ts)
    decreases |ts|
  {
    if ts != [] {
      SubsequenceReflexive(ts[1..]);
    }
  }

  /**
   * The `getVisibleTodos` selector. SHOW_ACTIVE and SHOW_COMPLETED keep, in
   * order and with their multiplicity, exactly the todos whose `completed`
   * flag matches; SHOW_ALL and every unrecognised filter string give the list
   * back unchanged.
   */
  function GetVisibleTodos(ts: seq<Todo>, filter: string): (r: seq<Todo>)
    ensures IsSubsequence(r, ts)
    ensures filter == ShowActive ==>
              && (forall i :: 0 <= i < |r| ==> !r[i].completed)
              && (forall t: Todo :: !t.completed ==> multiset(r)[t] == multiset(ts)[t])
    ensures filter == ShowCompleted ==>
              && (forall i :: 0 <= i < |r| ==> r[i].completed)
              && (forall t: Todo :: t.completed ==> multiset(r)[t] == multiset(ts)[t])
    ensures filter != ShowActive && filter != ShowCompleted ==> r == ts
  {
    if filter == ShowAll then SubsequenceReflexive(ts); ts
    else if filter == ShowActive then FilterIsSubsequence(ts, false); Filter(ts, false)
    else if filter == ShowCompleted then FilterIsSubsequence(ts, true); Filter(ts, true)
    else SubsequenceReflexive(ts); ts
  }

  /** The active and the completed views split the list between them. */
  lemma ActiveAndCompletedPartition(ts: seq<Todo>)
    ensures |GetVisibleTodos(ts, ShowActive)| + |GetVisibleTodos(ts, ShowCompleted)| == |ts|
    ensures multiset(GetVisibleTodos(ts, ShowActive)) + multiset(GetVisibleTodos(ts, ShowCompleted)) == multiset(ts)
  {
  }

  /** A user interaction that dispatches an action. */
  datatype UiEvent =
    | AddClick(text: string)     // the "add todo" button, with the input's text
    | TodoClick(id: int)         // a click on the todo with this id
    | FilterClick(filter: string) // a click on a filter link

  /**
   * The action an event dispatches, and the value of `nextTodoId` after it:
   * `ADD_TODO` takes the counter's current value as id and increments it.
   */
  function EventAction(e: UiEvent, nextTodoId: int): (r: (Action, int))
    ensures WellFormed(r.0)
    ensures e.AddClick? ==> r.0 == AddTodo(nextTodoId, e.text) && r.1 == nextTodoId + 1
    ensures e.TodoClick? ==> r.0 == ToggleTodo(e.id) && r.1 == nextTodoId
    ensures e.FilterClick? ==> r.0 == SetFilter(e.filter) && r.1 == nextTodoId
  {
    match e
    case AddClick(text) => (AddTodo(nextTodoId, text), nextTodoId + 1)
    case TodoClick(id) => (ToggleTodo(id), nextTodoId)
    case FilterClick(filter) => (SetFilter(filter), nextTodoId)
  }

  /** The number of "add todo" clicks among the events. */
  function AddClicks(es: seq<UiEvent>): nat {
    if es == [] then 0 else (if es[0].AddClick? then 1 else 0) + AddClicks(es[1..])
  }

  /**
   * Dispatches the events in order to the root reducer, threading `nextTodoId`.
   * Every "add todo" click adds exactly one todo and consumes exactly one id.
   */
  function RunEvents(s: State, nextTodoId: int, es: seq<UiEvent>): (r: (State, int))
    ensures r.1 == nextTodoId + AddClicks(es)
    ensures |r.0.todos| == |s.todos| + AddClicks(es)
    decreases |es|
  {
    if es == [] then (s, nextTodoId)
    else
      var (a, next) := EventAction(es[0], nextTodoId);
      RunEvents(TodoApp(Some(s), a), next, es[1..])
  }

  ghost predicate IdsIncreasing(ts: seq<Todo>) {
    forall i, j :: 0 <= i < j < |ts| ==> ts[i].id < ts[j].id
  }

  ghost predicate IdsBelow(ts: seq<Todo>, bound: int) {
    forall i :: 0 <= i < |ts| ==> ts[i].id < bound
  }

  /** One dispatched event keeps the ids increasing and below the counter. */
  lemma DispatchKeepsIds(s: State, nextTodoId: int, e: UiEvent)
    requires IdsIncreasing(s.todos) && IdsBelow(s.todos, nextTodoId)
    ensures var (a, next) := EventAction(e, nextTodoId);
            var t := TodoApp(Some(s), a).todos;
            IdsIncreasing(t) && IdsBelow(t, next) && next >= nextTodoId
  {
  }

  /**
   * When every new id comes from a counter above all existing ids, the ids in
   * the list stay strictly increasing (hence distinct) and below the counter.
   */
  lemma {:induction false} RunEventsKeepsIdsIncreasing(s: State, nextTodoId: int, es: seq<UiEvent>)
    requires IdsIncreasing(s.todos) && IdsBelow(s.todos, nextTodoId)
    ensures var r := RunEvents(s, nextTodoId, es);
            IdsIncreasing(r.0.todos) && IdsBelow(r.0.todos, r.1) && r.1 >= nextTodoId
    decreases |es|
  {
    if es != [] {
      DispatchKeepsIds(s, nextTodoId, es[0]);
      var (a, next) := EventAction(es[0], nextTodoId);
      RunEventsKeepsIdsIncreasing(TodoApp(Some(s), a), next, es[1..]);
    }
  }

  /** From the store's initial state and `nextTodoId = 0`, no two todos ever share an id. */
  lemma UiIdsAreDistinct(es: seq<UiEvent>)
    ensures var ts := RunEvents(TodoApp(None, Other(InitType)), 0, es).0.todos;
            forall i, j :: 0 <= i < |ts| && 0 <= j < |ts| && i != j ==> ts[i].id != ts[j].id
  {
    RunEventsKeepsIdsIncreasing(TodoApp(None, Other(InitType)), 0, es);
    var ts := RunEvents(TodoApp(None, Other(InitType)), 0, es).0.todos;
    forall i, j | 0 <= i < |ts| && 0 <= j < |ts| && i != j
      ensures ts[i].id != ts[j].id
    {
      if i < j { assert ts[i].id < ts[j].id; } else { assert ts[j].id < ts[i].id; }
    }
  }

  /** The first "add todo" click on a fresh store yields the todo of the `ADD_TODO` test, id 0. */
  lemma FirstAddFromFreshStore()
    ensures RunEvents(TodoApp(None, Other(InitType)), 0, [AddClick("Learn Redux")])
         == (State([Todo(0, "Learn Redux", false)], ShowAll), 1)
  {
  }
}
