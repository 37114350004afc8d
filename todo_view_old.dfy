/**
 * The earlier todo UI. Its `todo`, `todos` and `visibilityFilter` reducers and
 * its `getVisibleTodos` selector are, line for line, those of the later UI, so
 * this module reuses TodoReducers and TodoView and states the properties that
 * the earlier file's code and tests rely on.
 */
module TodoViewOld {
  import opened Wrappers
  import opened TodoReducers
  import opened TodoView

  /**
   * `todos` works element by element: toggling a concatenation toggles each
   * part on its own (a map), and adding to a concatenation leaves the front
   * part alone (an append at the end).
   */
  lemma TodosWorkElementByElement(front: seq<Todo>, back: seq<Todo>, action: Action)
    ensures action.ToggleTodo? ==>
              ReduceTodos(Some(front + back), action)
              == ReduceTodos(Some(front), action) + ReduceTodos(Some(back), action)
    ensures action.AddTodo? ==>
              ReduceTodos(Some(front + back), action) == front + ReduceTodos(Some(back), action)
  {
  }

  /** Whatever the filter, the visible todos are an in-order selection of the list, never longer. */
  lemma VisibleIsBoundedSubsequence(ts: seq<Todo>, filter: string)
    ensures IsSubsequence(GetVisibleTodos(ts, filter), ts)
    ensures |GetVisibleTodos(ts, filter)| <= |ts|
    ensures filter != ShowActive && filter != ShowCompleted ==> GetVisibleTodos(ts, filter) == ts
  {
  }

  /**
   * Clicking a todo moves it between the views: the toggled todo is shown as
   * completed exactly when the original was shown as active, and vice versa.
   */
  lemma ToggleMovesBetweenViews(ts: seq<Todo>, i: int)
    requires 0 <= i < |ts|
    ensures var after := ReduceTodos(Some(ts), ToggleTodo(ts[i].id));
            && after[i].completed == !ts[i].completed
            && (after[i] in GetVisibleTodos(after, ShowCompleted) <==> ts[i] in GetVisibleTodos(ts, ShowActive))
            && (after[i] in GetVisibleTodos(after, ShowActive) <==> ts[i] in GetVisibleTodos(ts, ShowCompleted))
  {
  }

  /** An element of the list is in the active (completed) view exactly when it is active (completed). */
  lemma InViewIff(ts: seq<Todo>, i: int, filter: string)
    requires 0 <= i < |ts|
    requires filter == ShowActive || filter == ShowCompleted
    ensures ts[i] in GetVisibleTodos(ts, filter) <==> ts[i].completed == (filter == ShowCompleted)
  {
  }

  /** The toggle test's lists, seen through the two views after todo 1 is toggled. */
  lemma ToggleTestViews()
    ensures var after := ReduceTodos(Some([Todo(0, "Learn Redux", false), Todo(1, "sell dog", false)]), ToggleTodo(1));
            && after == [Todo(0, "Learn Redux", false), Todo(1, "sell dog", true)]
            && GetVisibleTodos(after, ShowActive) == [Todo(0, "Learn Redux", false)]
            && GetVisibleTodos(after, ShowCompleted) == [Todo(1, "sell dog", true)]
  {
    var after := ReduceTodos(Some([Todo(0, "Learn Redux", false), Todo(1, "sell dog", false)]), ToggleTodo(1));
    assert after == [Todo(0, "Learn Redux", false), Todo(1, "sell dog", true)];
    assert after[1..][1..] == [];
  }
}
