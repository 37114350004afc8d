/** The `toggleTodo` demo: a todo copied with its `completed` flag flipped. */
module ToggleTodoDemo {
  import opened Wrappers
  import R = TodoReducers

  /** `Object.assign({}, todo, {completed: !todo.completed})`. */
  function ToggleTodo(t: R.Todo): (r: R.Todo)
    ensures r.completed == !t.completed
    ensures r.id == t.id && r.text == t.text
  {
    t.(completed := !t.completed)
  }

  lemma ToggleTodoIsInvolution(t: R.Todo)
    ensures ToggleTodo(ToggleTodo(t)) == t
  {
  }

  /** The stand-alone helper agrees with the `todo` reducer's toggle of the todo's own id. */
  lemma ToggleTodoAgreesWithReducer(t: R.Todo)
    ensures R.ReduceTodo(Some(t), R.ToggleTodo(t.id)) == Some(ToggleTodo(t))
  {
  }

  lemma ToggleTodoTestExample()
    ensures ToggleTodo(R.Todo(0, "Learn Redux", false)) == R.Todo(0, "Learn Redux", true)
  {
  }
}
