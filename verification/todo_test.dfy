/**
 The ticketed todo list the integration tests of redux-rs run through the
 store (tests/lib.rs): a reducer whose state hands out increasing ids,
 keeps every todo under its id and remembers the order the ids were
 issued in; and the `todo_list` and `dispatch_from_a_listener` scenarios.
 */
module TodoTest {
  import Redux

  datatype TodoAction = NewTodo(name: string)

  datatype Todo = Todo(name: string, id: nat)

  /** `todos` maps an id to its todo, `vec` lists the ids in the order they
      were pushed, `ticket` is the last id handed out. */
  datatype TodoStore = TodoStore(todos: map<nat, Todo>, vec: seq<nat>, ticket: nat)

  /** `TodoStore::new`: no todos and no ticket issued yet. */
  function NewTodoStore(): (s: TodoStore)
    ensures s.todos == map[] && s.vec == [] && s.ticket == 0
    ensures Len(s) == 0
  {
    TodoStore(map[], [], 0)
  }

  /** `TodoStore::ticket`: bumps the counter and returns its new value, so
      an issued ticket is never 0 and is larger than every earlier one. */
  function Ticket(s: TodoStore): (r: (TodoStore, nat))
    ensures r.1 == s.ticket + 1
    ensures r.1 > s.ticket && r.1 != 0
    ensures r.0.ticket == r.1
    ensures r.0.todos == s.todos && r.0.vec == s.vec
  {
    var issued := s.ticket + 1;
    (s.(ticket := issued), issued)
  }

  /** `TodoStore::push`: files the todo under its id and appends the id. */
  function Push(s: TodoStore, todo: Todo): (r: TodoStore)
    ensures todo.id in r.todos && r.todos[todo.id] == todo
    ensures forall id :: id in s.todos && id != todo.id ==> id in r.todos && r.todos[id] == s.todos[id]
    ensures r.todos.Keys == s.todos.Keys + {todo.id}
    ensures Len(r) == Len(s) + 1
    ensures |r.vec| == |s.vec| + 1 && r.vec[..|s.vec|] == s.vec && r.vec[|s.vec|] == todo.id
    ensures r.ticket == s.ticket
  {
    s.(todos := s.todos[todo.id := todo], vec := s.vec + [todo.id])
  }

  /** `TodoStore::len`: the number of ids pushed, which in a store built
      by the reducer is also the number of todos and the last ticket. */
  function Len(s: TodoStore): (n: nat)
    ensures n == |s.vec|
    ensures Valid(s) ==> n == |s.todos| == s.ticket
  {
    |s.vec|
  }

  /** `TodoReducer::reduce`: a `NewTodo` takes the next ticket as its id and
      is pushed; one more todo, under an id one past the old ticket. */
  function Reduce(data: TodoStore, action: TodoAction): (r: TodoStore)
    ensures Len(r) == Len(data) + 1
    ensures r.ticket == data.ticket + 1
    ensures r.vec[..|data.vec|] == data.vec && r.vec[|data.vec|] == data.ticket + 1
    ensures data.ticket + 1 in r.todos && r.todos[data.ticket + 1] == Todo(action.name, data.ticket + 1)
    ensures forall id :: id in data.todos && id != data.ticket + 1 ==> id in r.todos && r.todos[id] == data.todos[id]
    ensures r.todos.Keys == data.todos.Keys + {data.ticket + 1}
  {
    match action
    case NewTodo(name) =>
      var (issued, id) := Ticket(data);
      Push(issued, Todo(name, id))
  }

  /** `TodoReducer::init`. */
  function Init(): (s: TodoStore)
    ensures s.todos == map[] && s.vec == [] && s.ticket == 0
  {
    NewTodoStore()
  }

  /** The `TodoReducer` the tests hand to the store: it starts from a
      valid state and every action keeps a valid state valid. */
  function TodoReducer(): (r: Redux.Reducer<TodoStore, TodoAction>)
    ensures r.init == Init() && Valid(r.init)
    ensures forall s, a :: r.reduce(s, a) == Reduce(s, a)
    ensures Redux.Preserves(r, (s: TodoStore) => Valid(s))
  {
    ReduceKeepsValid();
    Redux.Reducer((s, a) => Reduce(s, a), Init())
  }

  /**
   What every state built by the reducer looks like: the ids handed out
   are 1, 2, ..., `ticket`, in that order in `vec`, each the key of exactly
   one todo carrying that id, and `todos` has no other keys.
   */
  ghost predicate Valid(s: TodoStore)
  {
    && |s.vec| == s.ticket
    && |s.todos| == s.ticket
    && (forall k :: 0 <= k < |s.vec| ==> s.vec[k] == k + 1)
    && (forall id :: id in s.todos <==> 1 <= id <= s.ticket)
    && (forall id :: id in s.todos ==> s.todos[id].id == id)
  }

  /** In a valid state the number of todos equals the ticket, the ids in
      `vec` are strictly increasing (so distinct) and each is a key of
      `todos`, and every key of `todos` is listed in `vec`. */
  lemma ValidIdsOrdered(s: TodoStore)
    requires Valid(s)
    ensures Len(s) == s.ticket == |s.todos|
    ensures forall j, k :: 0 <= j < k < |s.vec| ==> s.vec[j] < s.vec[k]
    ensures forall k :: 0 <= k < |s.vec| ==> s.vec[k] in s.todos && s.todos[s.vec[k]].id == s.vec[k]
    ensures forall id :: id in s.todos ==> id in s.vec
  {
    forall id | id in s.todos
      ensures id in s.vec
    {
      assert s.vec[id - 1] == id;
    }
  }

  lemma InitValid()
    ensures Valid(Init())
  {
  }

  /** `reduce` keeps the state valid. */
  lemma ReduceValid(s: TodoStore, action: TodoAction)
    requires Valid(s)
    ensures Valid(Reduce(s, action))
  {
    var id := s.ticket + 1;
    var r := Reduce(s, action);
    assert r == TodoStore(s.todos[id := Todo(action.name, id)], s.vec + [id], id);
    assert id !in s.todos;
    forall k | 0 <= k < |r.vec|
      ensures r.vec[k] == k + 1
    {
      if k < |s.vec| {
        assert r.vec[k] == s.vec[k];
      }
    }
  }

  /** `ReduceValid` for every state and action at once. */
  lemma ReduceKeepsValid()
    ensures forall s, a :: Valid(s) ==> Valid(Reduce(s, a))
  {
    forall s, a | Valid(s)
      ensures Valid(Reduce(s, a))
    {
      ReduceValid(s, a);
    }
  }

  /** Replaying actions adds one todo per action and keeps the state valid. */
  lemma {:induction false} ReplayValid(s: TodoStore, actions: seq<TodoAction>)
    requires Valid(s)
    ensures Valid(Redux.Replay(TodoReducer(), s, actions))
    ensures Len(Redux.Replay(TodoReducer(), s, actions)) == Len(s) + |actions|
    decreases |actions|
  {
    if |actions| > 0 {
      ReduceValid(s, actions[0]);
      ReplayValid(Reduce(s, actions[0]), actions[1..]);
    }
  }

  /** Whatever the subscribers do, nested dispatches included, a dispatch on
      a store whose state is valid leaves it valid. */
  lemma DispatchKeepsValid(st: Redux.Store<TodoStore, TodoAction>, action: TodoAction, fuel: nat)
    requires st.reducer == TodoReducer()
    requires Valid(st.state)
    ensures Redux.Dispatch(st, action, fuel).Done? ==> Valid(Redux.Dispatch(st, action, fuel).value.store.state)
  {
    Redux.DispatchPreserves(st, action, fuel, (s: TodoStore) => Valid(s));
  }

  /** A fresh store whose one subscriber only counts, fed any list of
      actions, ends valid with one todo per action. */
  lemma CountedDispatches(actions: seq<TodoAction>, fuel: nat)
    ensures
      var st := Redux.Subscribe(Redux.New(TodoReducer()), Counter());
      var r := Redux.Run(st, Redux.DispatchAll(actions), fuel);
      && r.Done?
      && Valid(r.value.state)
      && Len(r.value.state) == |actions|
  {
    var st := Redux.Subscribe(Redux.New(TodoReducer()), Counter());
    assert Redux.Quiet(st.subscriptions);
    Redux.QuietRunReplays(st, actions, fuel);
    ReplayValid(Init(), actions);
  }

  /** The `todo_list` test's subscriber: bumps a counter and never
      dispatches. The counter is the number of calls in the trace
      (`Redux.Invocations`). */
  function Counter(): (c: Redux.Subscriber<TodoStore, TodoAction>)
    ensures forall s :: c(s) == Redux.None
  {
    s => Redux.None
  }

  /** `todo_list`: one dispatch on a fresh store with one counting
      subscriber leaves one todo, and the subscriber fired exactly once. */
  lemma TodoList(fuel: nat)
    ensures
      var st := Redux.Subscribe(Redux.New(TodoReducer()), Counter());
      var r := Redux.Dispatch(st, NewTodo("Grocery Shopping"), fuel);
      && r.Done?
      && Len(Redux.GetState(r.value.store)) == 1
      && Redux.Invocations(r.value.calls) == 1
  {
    var st := Redux.Subscribe(Redux.New(TodoReducer()), Counter());
    assert Redux.Quiet(st.subscriptions);
    Redux.QuietDispatch(st, NewTodo("Grocery Shopping"), fuel);
  }

  /** The `dispatch_from_a_listener` test's subscriber: while there are fewer
      than two todos it dispatches one more. */
  function Listener(): Redux.Subscriber<TodoStore, TodoAction>
  {
    s => Listen(s)
  }

  /** What `Listener` does on reading `s`: it dispatches exactly when `s`
      holds fewer than two todos, and what it dispatches is always the same
      `NewTodo`. */
  function Listen(s: TodoStore): (request: Redux.Option<TodoAction>)
    ensures request.Some? <==> Len(s) < 2
    ensures request.Some? ==> request.value == NewTodo("Finish that new todo")
  {
    if Len(s) < 2 then Redux.Some(NewTodo("Finish that new todo")) else Redux.None
  }

  /** A store holding `data` whose one subscriber is `Listener`. */
  function ListenedStore(data: TodoStore): (st: Redux.Store<TodoStore, TodoAction>)
  {
    Redux.Store(TodoReducer(), data, [Listener()], false)
  }

  /**
   A dispatch on a store watched by `Listener` that starts below two todos
   ends with exactly two, the listener's nested dispatch having added the
   second; from two or more it adds just the one todo. One level of nesting
   is all it needs.
   */
  lemma ListenerDispatch(data: TodoStore, action: TodoAction, fuel: nat)
    requires fuel >= 1
    ensures
      var r := Redux.Dispatch(ListenedStore(data), action, fuel);
      && r.Done?
      && r.value.action == action
      && Len(r.value.store.state) == if Len(data) < 2 then 2 else Len(data) + 1
  {
    var reduced := Reduce(data, action);
    if Len(reduced) < 2 {
      ListenerFires(data, action, fuel);
    } else {
      ListenerSilent(data, action, fuel);
    }
  }

  /** The dispatch leaves fewer than two todos, so the listener dispatches
      once more, and that nested dispatch leaves it silent. */
  lemma ListenerFires(data: TodoStore, action: TodoAction, fuel: nat)
    requires fuel >= 1
    requires Len(Reduce(data, action)) < 2
    ensures
      var r := Redux.Dispatch(ListenedStore(data), action, fuel);
      var twice := Reduce(Reduce(data, action), NewTodo("Finish that new todo"));
      r.Done? && r.value.action == action && r.value.store == ListenedStore(twice)
  {
    ListenerRedispatches(Reduce(data, action), fuel);
  }

  /** The notification pass over a store holding one todo: the listener
      dispatches a second todo, and the pass ends in the store that nested
      dispatch left. */
  lemma ListenerRedispatches(reduced: TodoStore, fuel: nat)
    requires fuel >= 1
    requires Len(reduced) == 1
    ensures
      var n := Redux.Notify(ListenedStore(reduced), 0, fuel);
      n.Done? && n.value.store == ListenedStore(Reduce(reduced, NewTodo("Finish that new todo")))
  {
    var b := NewTodo("Finish that new todo");
    var st := ListenedStore(reduced);
    var st2 := ListenedStore(Reduce(reduced, b));
    assert st.subscriptions[0](st.state) == Redux.Some(b);
    ListenerSilent(reduced, b, fuel - 1);
    assert Redux.Notify(st2, 1, fuel) == Redux.Done(Redux.Round(st2, []));
  }

  /** The dispatch leaves two todos or more, so the listener stays silent. */
  lemma ListenerSilent(data: TodoStore, action: TodoAction, fuel: nat)
    requires Len(Reduce(data, action)) >= 2
    ensures
      var r := Redux.Dispatch(ListenedStore(data), action, fuel);
      r.Done? && r.value.action == action && r.value.store == ListenedStore(Reduce(data, action))
  {
    var st1 := ListenedStore(Reduce(data, action));
    assert Listener()(st1.state) == Redux.None;
    assert Redux.Notify(st1, 1, fuel) == Redux.Done(Redux.Round(st1, []));
    var n := Redux.Notify(st1, 0, fuel);
    assert n.Done? && n.value.store == st1;
  }

  /** `dispatch_from_a_listener`: from a fresh store with the listener
      subscribed, one dispatch leaves exactly two todos. */
  lemma DispatchFromAListener(fuel: nat)
    requires fuel >= 1
    ensures
      var st := Redux.Subscribe(Redux.New(TodoReducer()), Listener());
      var r := Redux.Dispatch(st, NewTodo("Grocery Shopping"), fuel);
      r.Done? && Len(Redux.GetState(r.value.store)) == 2
  {
    ListenerDispatch(Init(), NewTodo("Grocery Shopping"), fuel);
    assert Redux.Subscribe(Redux.New(TodoReducer()), Listener()) == ListenedStore(Init());
  }
}
