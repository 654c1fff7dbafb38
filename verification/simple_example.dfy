/**
 The append-only todo list of the redux-rs example program
 (examples/simple.rs): every `Insert` adds one todo at the end, and the
 program dispatches a single insertion on a fresh store.
 */
module SimpleExample {
  import Redux

  datatype Todo = Todo(name: string)

  datatype TodoState = TodoState(todos: seq<Todo>)

  datatype TodoAction = Insert(name: string)

  /** `TodoState::new`: no todos. */
  function NewTodoState(): (s: TodoState)
    ensures |s.todos| == 0
  {
    TodoState([])
  }

  /** `TodoState::push`: `todo` goes at the end, the earlier todos stay in order. */
  function Push(s: TodoState, todo: Todo): (r: TodoState)
    ensures |r.todos| == |s.todos| + 1
    ensures r.todos[..|s.todos|] == s.todos
    ensures r.todos[|s.todos|] == todo
  {
    TodoState(s.todos + [todo])
  }

  /** `TodoReducer::reduce`: the input state with one more todo, named by the action. */
  function Reduce(data: TodoState, action: TodoAction): (r: TodoState)
    ensures |r.todos| == |data.todos| + 1
    ensures r.todos[..|data.todos|] == data.todos
    ensures r.todos[|data.todos|].name == action.name
  {
    match action
    case Insert(name) => Push(data, Todo(name))
  }

  /** `TodoReducer::init`: the empty state. */
  function Init(): (s: TodoState)
    ensures s.todos == []
  {
    NewTodoState()
  }

  /** The `TodoReducer` the example hands to the store: it starts with no
      todos and each action adds one at the end. */
  function TodoReducer(): (r: Redux.Reducer<TodoState, TodoAction>)
    ensures r.init.todos == []
    ensures forall s, a :: r.reduce(s, a) == Reduce(s, a)
    ensures forall s, a :: |r.reduce(s, a).todos| == |s.todos| + 1
  {
    Redux.Reducer((s, a) => Reduce(s, a), Init())
  }

  /** The names of a list of todos, in order. */
  function Names(todos: seq<Todo>): (names: seq<string>)
    ensures |names| == |todos|
    ensures forall k :: 0 <= k < |todos| ==> names[k] == todos[k].name
  {
    seq(|todos|, k requires 0 <= k < |todos| => todos[k].name)
  }

  /** The names a list of insertions carries, in order. */
  function Inserted(actions: seq<TodoAction>): (names: seq<string>)
    ensures |names| == |actions|
    ensures forall k :: 0 <= k < |actions| ==> names[k] == actions[k].name
  {
    seq(|actions|, k requires 0 <= k < |actions| => actions[k].name)
  }

  /** Replaying insertions appends their names, in dispatch order, after
      the todos already there. */
  lemma {:induction false} ReplayAppends(s: TodoState, actions: seq<TodoAction>)
    ensures Names(Redux.Replay(TodoReducer(), s, actions).todos) == Names(s.todos) + Inserted(actions)
    decreases |actions|
  {
    if |actions| > 0 {
      var next := Reduce(s, actions[0]);
      ReplayAppends(next, actions[1..]);
      assert Names(next.todos) == Names(s.todos) + [actions[0].name];
      assert Inserted(actions) == [actions[0].name] + Inserted(actions[1..]);
    }
  }

  /** A store without subscribers, fed a list of insertions from its
      initial state, holds exactly the inserted names in order. */
  lemma DispatchedInOrder(actions: seq<TodoAction>, fuel: nat)
    ensures
      var r := Redux.Run(Redux.New(TodoReducer()), Redux.DispatchAll(actions), fuel);
      r.Done? && Names(Redux.GetState(r.value).todos) == Inserted(actions)
  {
    var st := Redux.New(TodoReducer());
    assert Redux.Quiet(st.subscriptions);
    Redux.QuietRunReplays(st, actions, fuel);
    ReplayFromInit(actions);
  }

  /** From the initial state, replaying insertions yields exactly their names. */
  lemma ReplayFromInit(actions: seq<TodoAction>)
    ensures Names(Redux.Replay(TodoReducer(), Init(), actions).todos) == Inserted(actions)
  {
    ReplayAppends(Init(), actions);
    assert Names(Init().todos) == [];
  }

  /** `main`: one `Insert("Clean the bathroom")` on a fresh store leaves
      exactly that one todo, and with no subscribers nothing is notified. */
  lemma MainDispatch(fuel: nat)
    ensures
      var r := Redux.Dispatch(Redux.New(TodoReducer()), Insert("Clean the bathroom"), fuel);
      && r.Done?
      && r.value.action == Insert("Clean the bathroom")
      && Redux.GetState(r.value.store).todos == [Todo("Clean the bathroom")]
      && r.value.calls == []
  {
    var st := Redux.New(TodoReducer());
    assert Redux.Quiet(st.subscriptions);
    Redux.QuietDispatch(st, Insert("Clean the bathroom"), fuel);
  }
}
