/** Background refresh coordination: a queue of tasks, the event that wakes the worker and
    the lock that ties them, with the drain loop that dispatches every queued task. */
module RefreshScheduler {

  /** A task as submitted; only its kind matters here, the rest is the handler's. */
  datatype Task = Task(kind: string, fxType: string, fxId: string)

  /** The tasks of consecutive batches, one after the other. */
  function Flatten(batches: seq<seq<Task>>): seq<Task> {
    if batches == [] then [] else Flatten(batches[..|batches| - 1]) + batches[|batches| - 1]
  }

  /** The tasks some handler takes. */
  function WithHandler(tasks: seq<Task>, handlers: set<string>): seq<Task> {
    if tasks == [] then []
    else
      var last := tasks[|tasks| - 1];
      WithHandler(tasks[..|tasks| - 1], handlers) + if last.kind in handlers then [last] else []
  }

  function Min(a: nat, b: nat): nat {
    if a < b then a else b
  }

  /** What was done, then what waits, is what the pass began with and what arrived: this
      moves on by one task and by what arrived during its dispatch. */
  lemma NextTurn(arrivals: seq<seq<Task>>, passed: nat, began: seq<Task>, done: seq<Task>, waiting: seq<Task>, arrived: seq<Task>)
    requires waiting != [] && arrived == if passed < |arrivals| then arrivals[passed] else []
    requires done + waiting == began + Flatten(arrivals[..Min(passed, |arrivals|)])
    ensures done + [waiting[0]] + (waiting[1..] + arrived) == began + Flatten(arrivals[..Min(passed + 1, |arrivals|)])
  {
    assert done + [waiting[0]] + (waiting[1..] + arrived) == (done + waiting) + arrived;
    if passed < |arrivals| {
      assert arrivals[..passed + 1][..passed] == arrivals[..passed];
      assert (began + Flatten(arrivals[..passed])) + arrived == began + (Flatten(arrivals[..passed]) + arrived);
    }
  }

  lemma WithHandlerOneMore(tasks: seq<Task>, task: Task, handlers: set<string>)
    ensures WithHandler(tasks + [task], handlers)
         == WithHandler(tasks, handlers) + if task.kind in handlers then [task] else []
  {
    assert (tasks + [task])[..|tasks|] == tasks;
  }

  class RefreshScheduler {
    var queue: seq<Task>
    var event: bool
    var stopped: bool
    // The kinds with a registered handler, and the calls made to handlers.
    var handlers: set<string>
    var handled: seq<Task>
    // Every task taken off the queue, in the order it was dispatched.
    ghost var dispatched: seq<Task>

    constructor ()
      ensures queue == [] && !event && !stopped && handlers == {} && handled == [] && dispatched == []
    {
      queue, event, stopped := [], false, false;
      handlers, handled, dispatched := {}, [], [];
    }

    method Register(kind: string)
      modifies this`handlers
      ensures handlers == old(handlers) + {kind}
    {
      handlers := handlers + {kind};
    }

    method Submit(task: Task)
      modifies this`queue, this`event
      ensures queue == old(queue) + [task] && event
    {
      queue := queue + [task];
      event := true;
    }

    method SubmitAll(tasks: seq<Task>)
      modifies this`queue, this`event
      ensures queue == old(queue) + tasks && event == (old(event) || tasks != [])
    {
      for i := 0 to |tasks|
        invariant queue == old(queue) + tasks[..i] && event == (old(event) || i > 0)
      {
        Submit(tasks[i]);
      }
    }

    method Pending() returns (tasks: seq<Task>)
      ensures tasks == queue
    {
      tasks := queue;
    }

    method Stop()
      modifies this`stopped, this`event
      ensures stopped && event
    {
      stopped := true;
      event := true;
    }

    /** A task without a handler is logged and skipped; it holds nothing up. `arrived` are the
        tasks submitted meanwhile, by the handler or by other threads. */
    method Dispatch(task: Task, arrived: seq<Task>)
      modifies this`queue, this`event, this`handled, this`dispatched
      ensures queue == old(queue) + arrived
      ensures dispatched == old(dispatched) + [task]
      ensures handled == old(handled) + if task.kind in handlers then [task] else []
    {
      dispatched := dispatched + [task];
      if task.kind in handlers {
        handled := handled + [task];
      }
      SubmitAll(arrived);
    }

    /** Dispatches until the queue is found empty. `arrivals[k]` are the tasks submitted
        while the k-th task is being dispatched. The pass ends with the queue empty and the
        event clear, having dispatched what was queued and what arrived, each once and in
        submission order. */
    method Drain(arrivals: seq<seq<Task>>) returns (passed: nat)
      modifies this`queue, this`event, this`handled, this`dispatched
      ensures queue == [] && !event
      ensures var arrived := Flatten(arrivals[..Min(passed, |arrivals|)]);
              && dispatched == old(dispatched) + (old(queue) + arrived)
              && handled == old(handled) + WithHandler(old(queue) + arrived, handlers)
              && passed == |old(queue) + arrived|
    {
      passed := 0;
      ghost var done, queue0, dispatched0, handled0 := [], queue, dispatched, handled;
      while true
        invariant done + queue == queue0 + Flatten(arrivals[..Min(passed, |arrivals|)])
        invariant dispatched == dispatched0 + done && |done| == passed
        invariant handled == handled0 + WithHandler(done, handlers)
        decreases |arrivals| - Min(passed, |arrivals|), |queue|
      {
        if queue == [] {
          event := false;
          assert done + [] == done;
          return;
        }
        ghost var waiting := queue;
        var task := queue[0];
        queue := queue[1..];
        var arrived := if passed < |arrivals| then arrivals[passed] else [];
        Dispatch(task, arrived);
        NextTurn(arrivals, passed, queue0, done, waiting, arrived);
        WithHandlerOneMore(done, task, handlers);
        done := done + [task];
        passed := passed + 1;
      }
    }
  }
}
