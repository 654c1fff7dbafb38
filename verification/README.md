# redux-rs store, modelled in Dafny

redux-rs is a small single-threaded Redux-style store for Rust. A `Store`
holds a state value, a `Reducer` (`reduce(state, action) -> state` and
`init() -> state`) and a list of subscription callbacks. `dispatch(action)`
reduces a copy of the state, writes the result back, calls every
subscriber in registration order and returns the action. A subscriber
receives the store, so it can read the state and dispatch again (nested
dispatch); the `is_dispatching` guard that would forbid this is never set.

The model is functional:

- `redux.dfy` (module `Redux`, from `src/lib.rs`): the store as an immutable
  value, the reducer as a pair of a transition function and an initial
  state, each subscriber as a function from the state it reads to an
  optional nested action. `Dispatch` returns the new store and a trace of
  `Call`s, one per subscriber invocation, with the calls of any nested
  dispatch inside. `Faithful` is an independent description of what such a
  trace must be, and `Dispatch` is proved to produce one. Nesting depth is
  bounded by a `fuel` argument.
- `todo_test.dfy` (module `TodoTest`, from `tests/lib.rs`): the ticketed
  `TodoStore` reducer, its invariant, and the `todo_list` and
  `dispatch_from_a_listener` scenarios.
- `simple_example.dfy` (module `SimpleExample`, from `examples/simple.rs`):
  the append-only `TodoState` reducer and the one-dispatch program.

The tests and the example build stores with `Store::new(reducer, vec![])`,
two arguments, while `src/lib.rs` defines a one-argument `Store::new`. The
second argument is read as an empty middleware list, and those calls are
modelled as the one-argument `Redux.New`.

tests/lib.rs imports a `Middleware` trait and calls `cancel()` on the
handle `subscribe` returns, but src/lib.rs defines neither: `subscribe`
returns nothing and `Store` has no middleware list. Its `is_dispatching`
guard is never raised, so a dispatch from inside a subscriber runs
normally, and `dispatch_from_a_listener` relies on that. The model follows
src/lib.rs.

## Model

| member | source | states |
|---|---|---|
| Redux.New | src/lib.rs:29-37 | a new store holds the reducer's initial state, no subscriptions, and the guard down |
| Redux.GetState | src/lib.rs:61-63 | reading gives the current state and leaves the store as it is |
| Redux.Subscribe | src/lib.rs:65-67 | the callback is appended last; earlier subscriptions, state, reducer and guard are unchanged |
| Redux.Dispatch | src/lib.rs:40-59 | panics exactly when the guard is up; otherwise returns the given action, keeps reducer, subscriptions and guard, runs subscribers as the `Faithful` pass from `reduce(old state, action)`, ends in that pass's final state, and nests no deeper than the fuel |
| Redux.Notify | src/lib.rs:54-56 | the subscriber loop from index `i` never panics, keeps the subscriptions, calls subscribers `i`.. in order, each once, on the state the previous one left, ends in the last call's state, and nests no deeper than the fuel |
| Redux.DispatchComplete | src/lib.rs:40-59 | conversely, when the faithful pass from the reduced state nests no deeper than the fuel, the dispatch completes with exactly that pass, returns the action and holds that pass's final state |
| Redux.FaithfulUnique | src/lib.rs:45-56 | with each subscriber deciding from the state it reads alone, the reducer, the subscriber list and the starting state determine the whole notification trace |
| Redux.DispatchDeterministic | src/lib.rs:40-59 | two completed dispatches of the same action on the same store give the same result, whatever the fuel |
| Redux.DispatchMoreFuel | src/lib.rs:40-59 | allowing deeper nesting never changes a dispatch that already completes |
| Redux.QuietDispatch | src/lib.rs:45-56 | with subscribers that never dispatch, the new state is `reduce(old state, action)`, each subscriber runs once and reads that state |
| Redux.Run | src/lib.rs:25-43 | a series of subscribe and dispatch calls on a store whose guard is down never panics and leaves the guard down |
| Redux.GuardNeverRaised | src/lib.rs:36-43 | every store built from `new` has the guard down, so no dispatch on it panics, nested ones included |
| Redux.QuietRunReplays | src/lib.rs:45-52 | with subscribers that never dispatch, dispatching a list of actions leaves the reducer folded over them, and nothing else changes |
| Redux.DispatchPreserves | src/lib.rs:45-56 | the state changes only through the reducer: an invariant the reducer keeps holds of the final state and of every state a subscriber reads, at every nesting depth |
| Redux.FaithfulAllSeen | src/lib.rs:45-56 | in a faithful pass that starts from a state satisfying an invariant the reducer keeps, every state any call reads, nested calls included, satisfies it |
| TodoTest.NewTodoStore | tests/lib.rs:28-34 | a new todo store has no todos, no ids and ticket 0 |
| TodoTest.Ticket | tests/lib.rs:36-39 | the counter goes up by one and the new value is returned, so it is never 0 and above every earlier ticket; todos and ids unchanged |
| TodoTest.Len | tests/lib.rs:47-49 | the length counts the ids pushed; in a valid store it also equals the number of todos and the last ticket |
| TodoTest.Push | tests/lib.rs:41-45 | the todo is stored under its id, other entries kept, the id appended after the earlier ids, the length up by one |
| TodoTest.Reduce | tests/lib.rs:59-69 | `NewTodo(name)` adds one todo, with id one past the old ticket and the given name, and keeps the rest |
| TodoTest.Init | tests/lib.rs:71-73 | the reducer starts from the empty todo store |
| TodoTest.TodoReducer | tests/lib.rs:55-74 | the test reducer starts from the empty store, which is valid, reduces with `Reduce`, and every action keeps a valid state valid |
| TodoTest.ValidIdsOrdered | tests/lib.rs:36-49 | in a valid state, length = ticket = number of todos, ids in `vec` strictly increase, each is a key holding that id, and every key is listed |
| TodoTest.InitValid | tests/lib.rs:71-73 | the initial state is valid |
| TodoTest.ReduceValid | tests/lib.rs:59-69 | `reduce` keeps the state valid |
| TodoTest.ReduceKeepsValid | tests/lib.rs:59-69 | `reduce` keeps every valid state valid, whatever the action |
| TodoTest.ReplayValid | tests/lib.rs:59-73 | a series of `NewTodo` actions keeps the state valid and adds one todo each |
| TodoTest.DispatchKeepsValid | tests/lib.rs:59-69 | any completed dispatch through the todo reducer keeps the state valid, whatever the subscribers dispatch |
| TodoTest.Counter | tests/lib.rs:86-89 | the `todo_list` subscriber never dispatches, whatever state it reads; its count is the number of calls in the trace (`Redux.Invocations`) |
| TodoTest.CountedDispatches | tests/lib.rs:76-95 | a fresh store with a counting subscriber ends valid with one todo per dispatched action |
| TodoTest.TodoList | tests/lib.rs:76-95 | one dispatch on a fresh store with a counting subscriber leaves one todo and fires the subscriber once |
| TodoTest.Listen | tests/lib.rs:101-106 | the `dispatch_from_a_listener` subscriber dispatches exactly when it reads fewer than two todos, and then always `NewTodo("Finish that new todo")` |
| TodoTest.ListenerSilent | tests/lib.rs:101-106 | a dispatch that leaves two todos or more completes without a nested dispatch, in the reduced store |
| TodoTest.ListenerRedispatches | tests/lib.rs:101-106 | a notification pass over one todo makes the listener dispatch a second, and the pass ends in the store that nested dispatch left |
| TodoTest.ListenerFires | tests/lib.rs:97-110 | a dispatch that leaves fewer than two todos completes after exactly one nested dispatch of the listener's todo |
| TodoTest.ListenerDispatch | tests/lib.rs:97-111 | with the listener that dispatches while there are fewer than two todos, a dispatch ends with two todos if it started below two, else with one more, and returns its action |
| TodoTest.DispatchFromAListener | tests/lib.rs:97-111 | from a fresh store with that listener, one dispatch leaves exactly two todos |
| SimpleExample.NewTodoState | examples/simple.rs:15-19 | a new state has no todos |
| SimpleExample.Push | examples/simple.rs:21-23 | the todo is appended at the end and the earlier todos stay in order |
| SimpleExample.Reduce | examples/simple.rs:36-45 | `Insert(name)` gives the input state with one more todo at the end, named `name` |
| SimpleExample.Init | examples/simple.rs:47-49 | the reducer starts from the empty state |
| SimpleExample.TodoReducer | examples/simple.rs:32-50 | the example reducer starts with no todos, reduces with `Reduce`, and every action adds exactly one todo |
| SimpleExample.ReplayAppends | examples/simple.rs:36-45 | replaying insertions appends their names, in order, after the existing todos |
| SimpleExample.ReplayFromInit | examples/simple.rs:36-49 | replaying insertions from `init` yields exactly their names, in order |
| SimpleExample.DispatchedInOrder | examples/simple.rs:36-49 | a fresh store fed a list of insertions holds exactly their names in dispatch order |
| SimpleExample.MainDispatch | examples/simple.rs:52-58 | one `Insert("Clean the bathroom")` on a fresh store returns that action and leaves exactly that one todo |

## Left out

- A subscriber is modelled as reading the state once and dispatching at most one action. A Rust callback could dispatch several times or read the state again afterwards. A subscriber's choice also depends only on the state it reads: state captured by the closure (such as the `Mutex` counter of the `todo_list` test, tests/lib.rs:86-89) cannot influence it, so a closure that dispatches on one call and not on a later call seeing the same state is not modelled. `Redux.FaithfulUnique` relies on this restriction. The tests only use the modelled shape.
- Redux.Dispatch: unbounded nesting is cut off by `fuel` and reported as `OutOfFuel`. In the source, a subscriber that dispatches on every state recurses until the stack overflows. A completed dispatch nests no deeper than the fuel, and `Redux.DispatchComplete` shows that `OutOfFuel` happens only when the subscribers nest deeper than that. `Redux.DispatchMoreFuel` shows that more fuel never changes a result.
- `Rc<RefCell<_>>` sharing and borrow tracking: the state is a plain value. The borrows at src/lib.rs:46 and :50 end before any callback runs, so they cannot fail.
- `Clone` of the state before `reduce` is implicit: Dafny values are immutable.
- TodoTest.Ticket: the `usize` counter is an unbounded `nat`. An overflow after 2^64 − 1 tickets (a panic in debug builds, wrap-around in release) is not modelled.
- `HashMap` hashing is replaced by a Dafny `map`.
- The `Mutex`-guarded counter of the `todo_list` test becomes the number of calls in the dispatch trace (`Redux.Invocations`).
- Threads, `Arc`, `thread::spawn` and `sleep`, and the `multi_threaded_use` test (tests/lib.rs:113-135): these are not part of a sequential model.
- Middleware and subscription cancellation (tests/lib.rs:137-200): no `Middleware` trait, `cancel` or middleware list exists in src/lib.rs, so the tests `cancel_subscription` and `middleware` have no code to model.
- `println!` and `Debug` output in examples/simple.rs:58.
