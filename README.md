# Redux todo tutorial: reducers and selector, in Dafny

This project models the pure core of a Redux tutorial repository:

- the todo-list reducers: `todo`, `todos`, `visibilityFilter`, and the root reducer `todoApp`;
- the `getVisibleTodos` selector;
- the id allocation that the "add todo" handler performs with `nextTodoId++`;
- the `counter` reducer and the demo's dispatch sequence;
- the stand-alone `toggleTodo` helper.

Everything here is pure, so the model is made of datatypes, functions and lemmas.

Modules:

- `Wrappers`: an `Option` type. `None` stands for JavaScript's `undefined`, and `GetOr` applies a default parameter (`state = []`, `state = 'SHOW_ALL'`, `state = 0`).
- `TodoReducers` (`console-demo/todo-reducers.js`): `Todo`, the `Action` sum type, the `State` tree, the three reducers and the root reducer. The root reducer is written as the hand-made expansion that the file gives for `combineReducers`: each sub-reducer is applied to its own field, and when the state is `undefined` both fields are too. `ActionType` and `ParseAction` connect the sum type to the actions' `type` strings. The filter tag keeps the source's spelling, `SET_VISIBLITY_FILTER`.
- `TodoView` (`src/index.js`): `getVisibleTodos`, with `Array.prototype.filter` modelled as `Filter`. The module-level `nextTodoId` counter becomes an argument threaded through `RunEvents`, a fold over the user's clicks.
- `TodoViewOld` (`src/index-old.js`): lemmas only. This file's reducers (lines 10-52) and `getVisibleTodos` (lines 87-101) are the same text as those in `src/index.js`, so they are not defined a second time.
- `Counter` (`console-demo/counter.js`): the reducer, and `Run`, which models the store's dispatches as a fold.
- `ToggleTodoDemo` (`console-demo/toggle-todo.js`): `toggleTodo`.

The reducers in `src/index.js:10-52` and `src/index-old.js:10-52` match `console-demo/todo-reducers.js:7-49` line for line. One definition (`TodoReducers`) stands for all three copies.

## Model

| member | source | states |
|---|---|---|
| `TodoReducers.ParseAction` | console-demo/todo-reducers.js:7-49 | reading an action object by its `type` string gives an action whose type is that string. `ADD_TODO`, `TOGGLE_TODO` and `SET_VISIBLITY_FILTER` carry the object's payload fields; any other string becomes the default case |
| `TodoReducers.ReduceTodo` | console-demo/todo-reducers.js:7-26 | on ADD_TODO, a new todo with the action's id and text and `completed = false`, whatever the old state. On TOGGLE_TODO, id and text are kept, and `completed` flips exactly when the ids match. Any other action gives back the state |
| `TodoReducers.ReduceTodos` | console-demo/todo-reducers.js:28-40 | on ADD_TODO, the old list is an unchanged prefix and exactly one new todo is appended. On TOGGLE_TODO, length and order are kept: every element keeps id and text, and only those whose id matches flip `completed`. Any other action gives back the list (`[]` when undefined). Id collisions are not checked |
| `TodoReducers.ReduceVisibilityFilter` | console-demo/todo-reducers.js:42-49 | SET_VISIBLITY_FILTER gives `action.filter` verbatim, without validation. Any other action gives back the state (`"SHOW_ALL"` when undefined) |
| `TodoReducers.TodoApp` | console-demo/todo-reducers.js:57-62 | for each action kind, the new state's two fields: the filter changes only on SET_VISIBLITY_FILTER; the todos grow by one on ADD_TODO, are `todos(state.todos, a)` on TOGGLE_TODO, and are unchanged otherwise |
| `TodoReducers.ToggleTwiceIsIdentity` | console-demo/todo-reducers.js:15-36 | dispatching TOGGLE_TODO twice with the same id gives back the original list, duplicate ids included |
| `TodoReducers.OtherActionLeavesStateUnchanged` | console-demo/todo-reducers.js:23-47 | an action whose tag is none of the three recognised ones, dispatched once or twice, leaves the whole state equal to the old one |
| `TodoReducers.SetFilterReplacesOnlyTheFilter` | console-demo/todo-reducers.js:42-49 | SET_VISIBLITY_FILTER sets the filter to any string given and leaves the todos unchanged |
| `TodoReducers.CorrectlySpeltFilterTagIsIgnored` | console-demo/todo-reducers.js:44-47 | an action tagged `SET_VISIBILITY_FILTER` (correct spelling) is not the reducer's filter action and leaves the state unchanged |
| `TodoReducers.InitialState` | console-demo/todo-reducers.js:57-62 | the root reducer applied to `undefined` and the initialising action gives `todos = []` and `visibilityFilter = "SHOW_ALL"` |
| `TodoReducers.AddTodoTestExample` | console-demo/todo-reducers.js:64-84 | ADD_TODO with id 0 and "Learn Redux" on `[]` yields `[Todo(0, "Learn Redux", false)]` |
| `TodoReducers.ToggleTodoTestExample` | console-demo/todo-reducers.js:86-117 | TOGGLE_TODO with id 1 on the two-todo list leaves todo 0 alone and marks todo 1 completed |
| `TodoView.Filter` | src/index.js:184-187 | `todos.filter(...)` is never longer than its input. Every kept todo has the requested `completed` value, and every such todo of the input is kept with its full multiplicity |
| `TodoView.FilterIsSubsequence` | src/index.js:184-187 | the filtered list keeps the input's order (it is a subsequence) |
| `TodoView.GetVisibleTodos` | src/index.js:177-191 | SHOW_ACTIVE gives the in-order subsequence of exactly the active todos, and SHOW_COMPLETED that of exactly the completed ones. SHOW_ALL and any unrecognised filter string give the list back unchanged |
| `TodoView.ActiveAndCompletedPartition` | src/index.js:184-187 | the active and completed views partition the list: their lengths sum to its length, and their multisets sum to its multiset |
| `TodoView.EventAction` | src/index.js:200-227 | an "add todo" click dispatches ADD_TODO whose id is the counter's value and increments the counter. Other clicks dispatch TOGGLE_TODO or SET_VISIBLITY_FILTER and leave the counter alone |
| `TodoView.RunEvents` | src/index.js:193-205 | after a series of clicks, the counter has advanced by the number of "add todo" clicks, and the list has grown by the same number |
| `TodoView.DispatchKeepsIds` | src/index.js:33-39 | one dispatch keeps the ids strictly increasing and below the counter, given that they were before |
| `TodoView.RunEventsKeepsIdsIncreasing` | src/index.js:193-205 | when every ADD_TODO takes its id from an incrementing counter above all existing ids, the ids stay strictly increasing and below the counter |
| `TodoView.UiIdsAreDistinct` | src/index.js:193-205 | starting from the store's initial state with `nextTodoId = 0`, no two todos ever share an id |
| `TodoView.FirstAddFromFreshStore` | src/index.js:244-264 | the first "add todo" click on a fresh store produces `[Todo(0, "Learn Redux", false)]` and moves the counter to 1 |
| `TodoViewOld.TodosWorkElementByElement` | src/index-old.js:31-43 | `todos` works element by element. TOGGLE_TODO on a concatenation is the concatenation of the two parts' results, as a map is. ADD_TODO on a concatenation leaves the front part untouched, as an append at the end does |
| `TodoViewOld.VisibleIsBoundedSubsequence` | src/index-old.js:87-101 | for every filter, the visible list is an in-order subsequence of the list and never longer. For SHOW_ALL and the default branch it is the list itself |
| `TodoViewOld.InViewIff` | src/index-old.js:94-97 | a todo of the list is in the active (or completed) view exactly when it is active (or completed) |
| `TodoViewOld.ToggleMovesBetweenViews` | src/index-old.js:18-25 | toggling a todo flips its `completed`. The toggled todo is in the completed view exactly when the original was in the active view, and the other way round |
| `TodoViewOld.ToggleTestViews` | src/index-old.js:212-243 | the toggle test's result is the expected list. Its active view is todo 0 alone, and its completed view is todo 1 alone |
| `Counter.Counter` | console-demo/counter.js:7-16 | the counter moves by at most one: up exactly on INCREMENT, down exactly on DECREMENT, unchanged otherwise. An undefined state counts as 0 |
| `Counter.InitialCounterIsZero` | console-demo/counter.js:7 | the counter applied to `undefined` and any unrecognised action, such as the store's initialising one, is 0 |
| `Counter.Run` | console-demo/counter.js:29-37 | dispatching a sequence of actions moves the state by at most the sequence's length. `Counter.RunIsNetCount` gives the exact value |
| `Counter.IncrementDecrementCancel` | console-demo/counter.js:9-12 | INCREMENT then DECREMENT, in either order, gives back the original state |
| `Counter.RunIsNetCount` | console-demo/counter.js:29-37 | any sequence of dispatches ends at the start value plus the number of INCREMENTs minus the number of DECREMENTs |
| `Counter.DemoDispatchEndsAtOne` | console-demo/counter.js:19-37 | the demo's dispatches INCREMENT, DECREMENT, INCREMENT from the initial state end at 1 |
| `ToggleTodoDemo.ToggleTodo` | console-demo/toggle-todo.js:4-15 | the copy has `completed` negated and the same id and text |
| `ToggleTodoDemo.ToggleTodoIsInvolution` | console-demo/toggle-todo.js:12-14 | toggling twice gives back the original todo |
| `ToggleTodoDemo.ToggleTodoAgreesWithReducer` | console-demo/toggle-todo.js:12-14 | `toggleTodo(t)` equals `todo(t, {type: TOGGLE_TODO, id: t.id})` from the reducer |
| `ToggleTodoDemo.ToggleTodoTestExample` | console-demo/toggle-todo.js:17-32 | the test's todo 0 toggles to completed, with the same id and text |

## Left out

- The redux store is not modelled. `createStore`, `getState`, `subscribe`, `dispatch` and subscriber notification belong to the redux library, which is not part of this model. Dispatch sequences are modelled as folds (`TodoView.RunEvents`, `Counter.Run`), and the store's seed state as the root reducer applied to `undefined` and an unrecognised initialising tag (`InitType`).
- `combineReducers` itself is not modelled; the root reducer follows the file's hand-written expansion. In particular, the library's check that a sub-reducer never returns `undefined` is left out, and so is its reuse of the old state object when nothing changed. In a value model, equality replaces object identity.
- The React components, `ReactDOM.render`, DOM input handling and `webpack.config.js` are left out, because they are UI rendering and build tooling. Clicks enter the model only as the `UiEvent` values they dispatch.
- `expect`, `deepFreeze`, `console.log` and `colors` are left out, because they are test harness and output. The test assertions are lemmas instead. Values in Dafny cannot be mutated, so `deepFreeze`'s guarantee, and `toggleTodo`'s building a fresh record instead of changing its argument, hold by construction and are not stated separately.
- Malformed actions are not modelled: missing fields would produce `undefined` values. The typed `Action` replaces them.
- `Other("ADD_TODO")` (and the like) and `OtherAction("INCREMENT")` are values of the datatypes that correspond to no JavaScript action: an object with that `type` would take the recognised branch. The reducers accept these values and treat them as unrecognised. `ParseAction` never produces one, and the lemmas about unrecognised actions (`TodoReducers.OtherActionLeavesStateUnchanged`, `Counter.InitialCounterIsZero`) require `WellFormed`, which excludes them.
- `todo(undefined, TOGGLE_TODO)` throws in JavaScript, because it reads `state.id`. `ReduceTodo` therefore requires a state for TOGGLE_TODO. `ReduceTodos` never calls it without one.
- JavaScript numbers are not modelled. Ids and counter values are unbounded `int`s, so float precision loss is ignored.
