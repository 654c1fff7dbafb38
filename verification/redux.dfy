/**
 A model of the single-threaded store of redux-rs (src/lib.rs).

 The store owns a state value, a reducer and an ordered list of
 subscription callbacks. `Dispatch` runs the reducer on a copy of the
 state, replaces the state with the result, then calls every subscriber
 in registration order and hands back the action it was given. A
 subscriber is passed the store, so it may read the state and dispatch
 again on the same store: nested dispatch is allowed because the
 `isDispatching` guard is never raised.

 Everything is a value here: a dispatch returns the new store together
 with a trace of the subscriber calls it made. Nested dispatch is bounded
 by a `fuel` argument; running out of it (`OutOfFuel`) stands for the
 source's unbounded recursion when subscribers keep dispatching.
 */
module Redux {

  datatype Option<+T> = None | Some(value: T)

  /** The `Reducer` trait: `reduce` turns the current state and an action
      into the next state, `init` is the state a new store starts from. */
  datatype Reducer<!S, !A> = Reducer(reduce: (S, A) -> S, init: S)

  /** A subscription callback. It is called with the store, so it can read
      the current state and may dispatch one nested action (`Some`) or
      none (`None`). */
  type Subscriber<!S, A> = S -> Option<A>

  datatype Store<!S, !A> = Store(
    reducer: Reducer<S, A>,
    state: S,
    subscriptions: seq<Subscriber<S, A>>,
    isDispatching: bool)

  /** One invocation of a subscriber during a dispatch: which subscriber
      ran, the state it read, the action it dispatched (if any), the
      subscriber calls of that nested dispatch, and the state once the
      callback returned. */
  datatype Call<S, A> = Call(
    index: nat,
    seen: S,
    request: Option<A>,
    nested: seq<Call<S, A>>,
    after: S)

  /** A dispatch either completes, hits the panic of the guard, or needs
      more nesting depth than `fuel` allows. */
  datatype Outcome<T> = Done(value: T) | Panicked | OutOfFuel

  /** What the notification loop leaves behind: the store and the calls it made. */
  datatype Round<!S, !A> = Round(store: Store<S, A>, calls: seq<Call<S, A>>)

  /** What a completed dispatch leaves behind: the action handed back to
      the caller, the new store and the subscriber calls. */
  datatype Dispatched<!S, !A> = Dispatched(action: A, store: Store<S, A>, calls: seq<Call<S, A>>)

  /** Two stores that differ at most in their state. */
  ghost predicate SameStore<S, A>(st: Store<S, A>, st': Store<S, A>)
  {
    && st'.reducer == st.reducer
    && st'.subscriptions == st.subscriptions
    && st'.isDispatching == st.isDispatching
  }

  /** The state after a sequence of calls that started from `start`. */
  function Final<S, A>(start: S, calls: seq<Call<S, A>>): S
  {
    if |calls| == 0 then start else calls[|calls| - 1].after
  }

  /**
   The reference description of a notification pass: `calls` is what
   running subscribers `from`, `from + 1`, ..., `|subs| - 1` of `subs`
   does, one call each and in that order, when the state is `start` as the
   first one runs. Each call reads the state the previous call left; a
   subscriber that dispatches `b` sees that nested dispatch reduce the
   state it read with `b` and then run a full pass of its own.
   */
  ghost predicate Faithful<S, A>(red: Reducer<S, A>, subs: seq<Subscriber<S, A>>, from: nat, start: S, calls: seq<Call<S, A>>)
    decreases calls
  {
    && from + |calls| == |subs|
    && (|calls| > 0 ==> calls[0].seen == start)
    && (forall k :: 1 <= k < |calls| ==> calls[k].seen == calls[k - 1].after)
    && forall k :: 0 <= k < |calls| ==> FaithfulCall(red, subs, from + k, calls[k])
  }

  /** One entry of a `Faithful` trace: subscriber `index` was called. */
  ghost predicate FaithfulCall<S, A>(red: Reducer<S, A>, subs: seq<Subscriber<S, A>>, index: nat, call: Call<S, A>)
    decreases call
  {
    && call.index == index < |subs|
    && call.request == subs[index](call.seen)
    && match call.request
       case None => call.nested == [] && call.after == call.seen
       case Some(b) =>
         var reduced := red.reduce(call.seen, b);
         && Faithful(red, subs, 0, reduced, call.nested)
         && call.after == Final(reduced, call.nested)
  }

  /** How many subscriber invocations a trace holds, nested ones included. */
  function Invocations<S, A>(calls: seq<Call<S, A>>): nat
    decreases calls
  {
    if |calls| == 0 then 0
    else 1 + Invocations(calls[0].nested) + Invocations(calls[1..])
  }

  /** How deeply the dispatches of a trace nest: 0 when no subscriber
      dispatches, one more than the deepest nested trace otherwise. */
  function Depth<S, A>(calls: seq<Call<S, A>>): nat
    decreases calls, 1
  {
    if |calls| == 0 then 0
    else
      var rest := Depth(calls[1..]);
      var here := CallDepth(calls[0]);
      if here < rest then rest else here
  }

  /** The nesting depth one subscriber call needs. */
  function CallDepth<S, A>(call: Call<S, A>): nat
    decreases call, 0
  {
    if call.request.Some? then 1 + Depth(call.nested) else 0
  }

  /** `Store::new`: the state is the reducer's initial state, there are no
      subscriptions and the guard is down. */
  function New<S, A>(reducer: Reducer<S, A>): (st: Store<S, A>)
    ensures st.reducer == reducer
    ensures st.state == reducer.init
    ensures st.subscriptions == []
    ensures !st.isDispatching
  {
    Store(reducer, reducer.init, [], false)
  }

  /** `get_state`: a copy of the current state; the store is not changed. */
  function GetState<S, A>(st: Store<S, A>): (s: S)
    ensures s == st.state
  {
    st.state
  }

  /** `subscribe`: the callback goes at the end; the earlier subscriptions,
      the state and the guard stay as they were. */
  function Subscribe<S, A>(st: Store<S, A>, callback: Subscriber<S, A>): (st': Store<S, A>)
    ensures |st'.subscriptions| == |st.subscriptions| + 1
    ensures st'.subscriptions[..|st.subscriptions|] == st.subscriptions
    ensures st'.subscriptions[|st.subscriptions|] == callback
    ensures st'.state == st.state
    ensures st'.reducer == st.reducer && st'.isDispatching == st.isDispatching
  {
    st.(subscriptions := st.subscriptions + [callback])
  }

  /**
   `dispatch`: panics if the guard is up; otherwise reduces a copy of the
   state with `action`, stores the result, notifies every subscriber and
   returns `action`. The subscriptions, reducer and guard are unchanged,
   and the subscriber calls are exactly the `Faithful` pass that starts
   from the reduced state.
   */
  function Dispatch<S, A>(st: Store<S, A>, action: A, fuel: nat): (r: Outcome<Dispatched<S, A>>)
    decreases fuel, 1, 0
    ensures r.Panicked? <==> st.isDispatching
    ensures r.Done? ==> r.value.action == action
    ensures r.Done? ==> SameStore(st, r.value.store)
    ensures r.Done? ==> Faithful(st.reducer, st.subscriptions, 0, st.reducer.reduce(st.state, action), r.value.calls)
    ensures r.Done? ==> r.value.store.state == Final(st.reducer.reduce(st.state, action), r.value.calls)
    ensures r.Done? ==> Depth(r.value.calls) <= fuel
  {
    if st.isDispatching then Panicked
    else
      var reduced := st.(state := st.reducer.reduce(st.state, action));
      var round := Notify(reduced, 0, fuel);
      if round.Done? then Done(Dispatched(action, round.value.store, round.value.calls))
      else OutOfFuel
  }

  /** The loop over `&self.subscriptions`, from subscriber `i` on. */
  function Notify<S, A>(st: Store<S, A>, i: nat, fuel: nat): (r: Outcome<Round<S, A>>)
    requires !st.isDispatching
    requires i <= |st.subscriptions|
    decreases fuel, 0, |st.subscriptions| - i
    ensures !r.Panicked?
    ensures r.Done? ==> SameStore(st, r.value.store)
    ensures r.Done? ==> Faithful(st.reducer, st.subscriptions, i, st.state, r.value.calls)
    ensures r.Done? ==> r.value.store.state == Final(st.state, r.value.calls)
    ensures r.Done? ==> Depth(r.value.calls) <= fuel
  {
    if i == |st.subscriptions| then Done(Round(st, []))
    else
      var seen := st.state;
      match st.subscriptions[i](seen)
      case None =>
        var rest := Notify(st, i + 1, fuel);
        if rest.Done? then
          var call := Call(i, seen, None, [], seen);
          FaithfulPrepend(st.reducer, st.subscriptions, i, call, rest.value.calls);
          DepthPrepend(call, rest.value.calls);
          Done(Round(rest.value.store, [call] + rest.value.calls))
        else OutOfFuel
      case Some(b) =>
        if fuel == 0 then OutOfFuel
        else
          var inner := Dispatch(st, b, fuel - 1);
          if inner.Done? then
            var next := inner.value.store;
            var rest := Notify(next, i + 1, fuel);
            if rest.Done? then
              var call := Call(i, seen, Some(b), inner.value.calls, next.state);
              FaithfulPrepend(st.reducer, st.subscriptions, i, call, rest.value.calls);
              DepthPrepend(call, rest.value.calls);
              Done(Round(rest.value.store, [call] + rest.value.calls))
            else OutOfFuel
          else OutOfFuel
  }

  /** A faithful call of subscriber `i` followed by a faithful pass from
      `i + 1` that starts where the call left off is a faithful pass from `i`. */
  lemma FaithfulPrepend<S, A>(red: Reducer<S, A>, subs: seq<Subscriber<S, A>>, i: nat, call: Call<S, A>, rest: seq<Call<S, A>>)
    requires FaithfulCall(red, subs, i, call)
    requires Faithful(red, subs, i + 1, call.after, rest)
    ensures Faithful(red, subs, i, call.seen, [call] + rest)
    ensures Final(call.seen, [call] + rest) == Final(call.after, rest)
  {
    var calls := [call] + rest;
    forall k | 0 <= k < |calls|
      ensures FaithfulCall(red, subs, i + k, calls[k])
    {
      if k > 0 {
        assert calls[k] == rest[k - 1];
      }
    }
  }

  /** The depth of a trace with one more call in front. */
  lemma DepthPrepend<S, A>(call: Call<S, A>, rest: seq<Call<S, A>>)
    ensures Depth([call] + rest) == if CallDepth(call) < Depth(rest) then Depth(rest) else CallDepth(call)
  {
    assert ([call] + rest)[1..] == rest;
  }

  /** Removing the first call of a faithful pass from `from` leaves a
      faithful pass from `from + 1` that starts where that call left off. */
  lemma FaithfulTail<S, A>(red: Reducer<S, A>, subs: seq<Subscriber<S, A>>, from: nat, start: S, calls: seq<Call<S, A>>)
    requires Faithful(red, subs, from, start, calls)
    requires |calls| > 0
    ensures FaithfulCall(red, subs, from, calls[0])
    ensures Faithful(red, subs, from + 1, calls[0].after, calls[1..])
    ensures Final(start, calls) == Final(calls[0].after, calls[1..])
  {
    var rest := calls[1..];
    forall k | 0 <= k < |rest|
      ensures FaithfulCall(red, subs, from + 1 + k, rest[k])
    {
      assert rest[k] == calls[k + 1];
    }
    forall k | 1 <= k < |rest|
      ensures rest[k].seen == rest[k - 1].after
    {
      assert rest[k] == calls[k + 1] && rest[k - 1] == calls[k];
    }
  }

  /** A faithful pass is determined by the reducer, the subscribers, where
      it starts and the state it starts from: `Faithful` is a complete
      description of what a notification pass does. */
  lemma {:induction false} FaithfulUnique<S, A>(red: Reducer<S, A>, subs: seq<Subscriber<S, A>>, from: nat, start: S, calls: seq<Call<S, A>>, calls': seq<Call<S, A>>)
    requires Faithful(red, subs, from, start, calls)
    requires Faithful(red, subs, from, start, calls')
    ensures calls == calls'
    decreases calls
  {
    if |calls| > 0 {
      FaithfulTail(red, subs, from, start, calls);
      FaithfulTail(red, subs, from, start, calls');
      FaithfulCallUnique(red, subs, from, calls[0], calls'[0]);
      FaithfulUnique(red, subs, from + 1, calls[0].after, calls[1..], calls'[1..]);
      assert calls == [calls[0]] + calls[1..];
      assert calls' == [calls'[0]] + calls'[1..];
    }
  }

  /** Two faithful calls of the same subscriber on the same state are equal. */
  lemma {:induction false} FaithfulCallUnique<S, A>(red: Reducer<S, A>, subs: seq<Subscriber<S, A>>, index: nat, call: Call<S, A>, call': Call<S, A>)
    requires FaithfulCall(red, subs, index, call)
    requires FaithfulCall(red, subs, index, call')
    requires call.seen == call'.seen
    ensures call == call'
    decreases call
  {
    match call.request
    case None =>
    case Some(b) =>
      FaithfulUnique(red, subs, 0, red.reduce(call.seen, b), call.nested, call'.nested);
  }

  /** Whatever the fuel, a dispatch that completes does what `Faithful`
      describes, so every completed dispatch of the same action on the same
      store is the same. */
  lemma DispatchDeterministic<S, A>(st: Store<S, A>, action: A, fuel: nat, fuel': nat)
    requires Dispatch(st, action, fuel).Done?
    requires Dispatch(st, action, fuel').Done?
    ensures Dispatch(st, action, fuel) == Dispatch(st, action, fuel')
  {
    var r, r' := Dispatch(st, action, fuel).value, Dispatch(st, action, fuel').value;
    FaithfulUnique(st.reducer, st.subscriptions, 0, st.reducer.reduce(st.state, action), r.calls, r'.calls);
  }

  /**
   The converse of `Dispatch`'s contract: when the faithful pass from the
   reduced state exists and nests no deeper than `fuel`, the dispatch
   completes with exactly that pass. So `OutOfFuel` means only that the
   subscribers nest dispatches deeper than `fuel`.
   */
  lemma {:induction false} DispatchComplete<S, A>(st: Store<S, A>, action: A, fuel: nat, calls: seq<Call<S, A>>)
    requires !st.isDispatching
    requires Faithful(st.reducer, st.subscriptions, 0, st.reducer.reduce(st.state, action), calls)
    requires Depth(calls) <= fuel
    ensures Dispatch(st, action, fuel) ==
              Done(Dispatched(action, st.(state := Final(st.reducer.reduce(st.state, action), calls)), calls))
    decreases calls, 2
  {
    var reduced := st.(state := st.reducer.reduce(st.state, action));
    NotifyComplete(reduced, 0, fuel, calls);
  }

  /** The notification-loop form of `DispatchComplete`. */
  lemma {:induction false} NotifyComplete<S, A>(st: Store<S, A>, i: nat, fuel: nat, calls: seq<Call<S, A>>)
    requires !st.isDispatching
    requires i <= |st.subscriptions|
    requires Faithful(st.reducer, st.subscriptions, i, st.state, calls)
    requires Depth(calls) <= fuel
    ensures Notify(st, i, fuel) == Done(Round(st.(state := Final(st.state, calls)), calls))
    decreases calls, 1
  {
    if |calls| > 0 {
      FaithfulTail(st.reducer, st.subscriptions, i, st.state, calls);
      DepthPrepend(calls[0], calls[1..]);
      assert [calls[0]] + calls[1..] == calls;
      CallComplete(st, i, fuel, calls[0]);
      var next := st.(state := calls[0].after);
      NotifyComplete(next, i + 1, fuel, calls[1..]);
    }
  }

  /** One step of `NotifyComplete`: a faithful call of subscriber `i` within
      the fuel is what the loop does for that subscriber. */
  lemma {:induction false} CallComplete<S, A>(st: Store<S, A>, i: nat, fuel: nat, call: Call<S, A>)
    requires !st.isDispatching
    requires i < |st.subscriptions|
    requires FaithfulCall(st.reducer, st.subscriptions, i, call)
    requires call.seen == st.state
    requires CallDepth(call) <= fuel
    ensures call.request.Some? ==>
              fuel > 0 && Dispatch(st, call.request.value, fuel - 1) == Done(Dispatched(call.request.value, st.(state := call.after), call.nested))
    ensures call.request.None? ==> call == Call(i, st.state, None, [], st.state)
    decreases call, 0
  {
    match call.request
    case None =>
    case Some(b) =>
      DispatchComplete(st, b, fuel - 1, call.nested);
  }

  /** More fuel never changes a dispatch that already completes. */
  lemma DispatchMoreFuel<S, A>(st: Store<S, A>, action: A, fuel: nat, more: nat)
    requires fuel <= more
    requires Dispatch(st, action, fuel).Done?
    ensures Dispatch(st, action, more) == Dispatch(st, action, fuel)
  {
    var calls := Dispatch(st, action, fuel).value.calls;
    DispatchComplete(st, action, fuel, calls);
    DispatchComplete(st, action, more, calls);
  }

  /** No subscriber ever dispatches, whatever state it reads. */
  ghost predicate Quiet<S(!new), A>(subs: seq<Subscriber<S, A>>)
  {
    forall j, s :: 0 <= j < |subs| ==> subs[j](s).None?
  }

  /** With subscribers that never dispatch, a dispatch needs no fuel: the
      state becomes `reduce(state, action)`, every subscriber runs exactly
      once and reads that state. */
  lemma QuietDispatch<S(!new), A>(st: Store<S, A>, action: A, fuel: nat)
    requires !st.isDispatching
    requires Quiet(st.subscriptions)
    ensures Dispatch(st, action, fuel).Done?
    ensures Dispatch(st, action, fuel).value.store == st.(state := st.reducer.reduce(st.state, action))
    ensures Invocations(Dispatch(st, action, fuel).value.calls) == |st.subscriptions|
    ensures forall k :: 0 <= k < |Dispatch(st, action, fuel).value.calls| ==>
              Dispatch(st, action, fuel).value.calls[k].seen == st.reducer.reduce(st.state, action)
  {
    var reduced := st.(state := st.reducer.reduce(st.state, action));
    QuietNotify(reduced, 0, fuel);
  }

  /** The notification pass behind `QuietDispatch`. */
  lemma {:induction false} QuietNotify<S(!new), A>(st: Store<S, A>, i: nat, fuel: nat)
    requires !st.isDispatching
    requires i <= |st.subscriptions|
    requires Quiet(st.subscriptions)
    ensures Notify(st, i, fuel).Done?
    ensures Notify(st, i, fuel).value.store == st
    ensures Invocations(Notify(st, i, fuel).value.calls) == |st.subscriptions| - i
    ensures forall k :: 0 <= k < |Notify(st, i, fuel).value.calls| ==> Notify(st, i, fuel).value.calls[k].seen == st.state
    decreases |st.subscriptions| - i
  {
    if i < |st.subscriptions| {
      assert st.subscriptions[i](st.state).None?;
      QuietNotify(st, i + 1, fuel);
      var calls := Notify(st, i, fuel).value.calls;
      assert calls[1..] == Notify(st, i + 1, fuel).value.calls;
    }
  }

  /** The operations a program performs on one store, in order. */
  datatype Op<!S, A> = SubscribeOp(callback: Subscriber<S, A>) | DispatchOp(action: A) | GetStateOp

  /** Performs `ops` on `st`, each dispatch with nesting depth `fuel`. As
      the guard is never raised, none of these operations can panic on a
      store whose guard is down, and the guard stays down. */
  function Run<S, A>(st: Store<S, A>, ops: seq<Op<S, A>>, fuel: nat): (r: Outcome<Store<S, A>>)
    decreases |ops|
    ensures !st.isDispatching ==> !r.Panicked?
    ensures !st.isDispatching && r.Done? ==> !r.value.isDispatching
    ensures r.Done? ==> r.value.reducer == st.reducer
  {
    if |ops| == 0 then Done(st)
    else
      match ops[0]
      case SubscribeOp(callback) => Run(Subscribe(st, callback), ops[1..], fuel)
      case GetStateOp => Run(st, ops[1..], fuel)
      case DispatchOp(action) =>
        var d := Dispatch(st, action, fuel);
        if d.Done? then Run(d.value.store, ops[1..], fuel)
        else if d.Panicked? then Panicked
        else OutOfFuel
  }

  /** The guard of every store a program builds from `New` is down, so the
      panic branch of `dispatch` is never taken, not even by a dispatch
      made from inside a subscriber. */
  lemma GuardNeverRaised<S, A>(reducer: Reducer<S, A>, ops: seq<Op<S, A>>, fuel: nat, action: A)
    ensures !Run(New(reducer), ops, fuel).Panicked?
    ensures Run(New(reducer), ops, fuel).Done? ==>
              var st := Run(New(reducer), ops, fuel).value;
              !st.isDispatching && !Dispatch(st, action, fuel).Panicked?
  {
  }

  /** Reducing `s` with each of `actions` in turn. */
  function Replay<S, A>(reducer: Reducer<S, A>, s: S, actions: seq<A>): S
    decreases |actions|
  {
    if |actions| == 0 then s else Replay(reducer, reducer.reduce(s, actions[0]), actions[1..])
  }

  /** One dispatch per action, in order. */
  function DispatchAll<S, A>(actions: seq<A>): (ops: seq<Op<S, A>>)
    ensures |ops| == |actions|
    ensures forall k :: 0 <= k < |ops| ==> ops[k] == DispatchOp(actions[k])
  {
    seq(|actions|, k requires 0 <= k < |actions| => DispatchOp(actions[k]))
  }

  /** With subscribers that never dispatch, dispatching a list of actions
      leaves the store holding the reducer folded over those actions, and
      nothing else about the store changes. */
  lemma {:induction false} QuietRunReplays<S(!new), A>(st: Store<S, A>, actions: seq<A>, fuel: nat)
    requires !st.isDispatching
    requires Quiet(st.subscriptions)
    ensures Run(st, DispatchAll(actions), fuel) == Done(st.(state := Replay(st.reducer, st.state, actions)))
    decreases |actions|
  {
    if |actions| > 0 {
      var ops: seq<Op<S, A>> := DispatchAll(actions);
      QuietDispatch(st, actions[0], fuel);
      var next := Dispatch(st, actions[0], fuel).value.store;
      assert ops[1..] == DispatchAll(actions[1..]);
      QuietRunReplays(next, actions[1..], fuel);
    }
  }

  /** `inv` holds of every state the reducer produces from a state where it holds. */
  ghost predicate Preserves<S(!new), A(!new)>(reducer: Reducer<S, A>, inv: S -> bool)
  {
    forall s, a :: inv(s) ==> inv(reducer.reduce(s, a))
  }

  /** `inv` holds of the state every call of the trace reads, at every
      nesting depth. */
  ghost predicate AllSeen<S, A>(inv: S -> bool, calls: seq<Call<S, A>>)
    decreases calls
  {
    forall k :: 0 <= k < |calls| ==> inv(calls[k].seen) && AllSeen(inv, calls[k].nested)
  }

  /**
   The state only ever changes through the reducer: an invariant the
   reducer preserves holds of the state a completed dispatch leaves and of
   the state every subscriber reads, at every nesting depth.
   */
  lemma DispatchPreserves<S(!new), A(!new)>(st: Store<S, A>, action: A, fuel: nat, inv: S -> bool)
    requires Preserves(st.reducer, inv)
    requires inv(st.state)
    ensures Dispatch(st, action, fuel).Done? ==>
              var r := Dispatch(st, action, fuel).value;
              && inv(r.store.state)
              && AllSeen(inv, r.calls)
  {
    if Dispatch(st, action, fuel).Done? {
      var r := Dispatch(st, action, fuel).value;
      FaithfulPreserves(st.reducer, st.subscriptions, 0, st.reducer.reduce(st.state, action), r.calls, inv);
      FaithfulAllSeen(st.reducer, st.subscriptions, 0, st.reducer.reduce(st.state, action), r.calls, inv);
    }
  }

  /** The nested form of `FaithfulPreserves`: the invariant holds of every
      state read anywhere in a faithful trace. */
  lemma {:induction false} FaithfulAllSeen<S(!new), A(!new)>(red: Reducer<S, A>, subs: seq<Subscriber<S, A>>, from: nat, start: S, calls: seq<Call<S, A>>, inv: S -> bool)
    requires Faithful(red, subs, from, start, calls)
    requires Preserves(red, inv)
    requires inv(start)
    ensures AllSeen(inv, calls)
    decreases calls
  {
    FaithfulPreserves(red, subs, from, start, calls, inv);
    forall k | 0 <= k < |calls|
      ensures AllSeen(inv, calls[k].nested)
    {
      assert FaithfulCall(red, subs, from + k, calls[k]);
      match calls[k].request
      case None =>
      case Some(b) =>
        FaithfulAllSeen(red, subs, 0, red.reduce(calls[k].seen, b), calls[k].nested, inv);
    }
  }

  /** The trace form of `DispatchPreserves`. */
  lemma {:induction false} FaithfulPreserves<S(!new), A(!new)>(red: Reducer<S, A>, subs: seq<Subscriber<S, A>>, from: nat, start: S, calls: seq<Call<S, A>>, inv: S -> bool)
    requires Faithful(red, subs, from, start, calls)
    requires Preserves(red, inv)
    requires inv(start)
    ensures inv(Final(start, calls))
    ensures forall k :: 0 <= k < |calls| ==> inv(calls[k].seen)
    decreases calls
  {
    if |calls| > 0 {
      FaithfulTail(red, subs, from, start, calls);
      FaithfulCallPreserves(red, subs, from, calls[0], inv);
      FaithfulPreserves(red, subs, from + 1, calls[0].after, calls[1..], inv);
      forall k | 1 <= k < |calls|
        ensures inv(calls[k].seen)
      {
        assert calls[k] == calls[1..][k - 1];
      }
    }
  }

  /** The single-call form of `DispatchPreserves`. */
  lemma {:induction false} FaithfulCallPreserves<S(!new), A(!new)>(red: Reducer<S, A>, subs: seq<Subscriber<S, A>>, index: nat, call: Call<S, A>, inv: S -> bool)
    requires FaithfulCall(red, subs, index, call)
    requires Preserves(red, inv)
    requires inv(call.seen)
    ensures inv(call.after)
    decreases call
  {
    match call.request
    case None =>
    case Some(b) =>
      FaithfulPreserves(red, subs, 0, red.reduce(call.seen, b), call.nested, inv);
  }
}
