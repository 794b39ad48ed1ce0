/**
 The `OpRuntime` and `Runtime` of src/task, with the source's fields and loops, proved to take
 the steps of `TaskRuns`, so that the results of `TaskTheorems` hold of every program.
 */
module TaskRuntime {
  import opened Wrappers
  import opened TaskRuns
  import opened TaskTheorems

  /** The slab of registered operations. */
  class OpRuntime {
    var ops: map<nat, Slot>

    constructor ()
      ensures ops == map[]
    {
      ops := map[];
    }

    /** `insert`: the slab picks a vacant key. */
    method Insert(op: Op) returns (key: nat)
      modifies this
      ensures key !in old(ops) && ops == old(ops)[key := Slot(op, None, None, false)]
    {
      ghost var vacant := AboveAll(ops.Keys);
      assert vacant !in ops.Keys;
      key :| key !in ops;
      ops := ops[key := Slot(op, None, None, false)];
    }

    method UpdateWaker(key: nat, waker: nat)
      modifies this
      ensures ops == WithWaker(old(ops), key, waker)
    {
      if key in ops {
        ops := ops[key := ops[key].(waker := Some(waker))];
      }
    }

    /** `update_result`: the waker taken out is returned for the caller to wake. */
    method UpdateResult(key: nat, result: IoResult) returns (waker: Option<nat>)
      modifies this
      ensures ops == WithResult(old(ops), key, result)
      ensures waker == if key in old(ops) then old(ops)[key].waker else None
    {
      waker := None;
      if key in ops {
        waker := ops[key].waker;
        ops := ops[key := ops[key].(waker := None, result := Some(result))];
        if ops[key].cancelled {
          var _ := Remove(key);
        }
      }
    }

    method Cancel(key: nat)
      modifies this
      ensures ops == WithFlag(old(ops), key)
    {
      if key in ops {
        ops := ops[key := ops[key].(cancelled := true)];
      }
    }

    /** `remove`: the slab panics on a vacant key. */
    method Remove(key: nat) returns (slot: Slot)
      requires key in ops
      modifies this
      ensures slot == old(ops)[key] && ops == old(ops) - {key}
    {
      slot := ops[key];
      ops := ops - {key};
    }
  }

  lemma AboveAll(keys: set<nat>) returns (bound: nat)
    ensures forall k :: k in keys ==> k < bound
  {
    bound := 0;
    if keys != {} {
      var k :| k in keys;
      var others := AboveAll(keys - {k});
      bound := if others <= k then k + 1 else others;
      assert forall i :: i in keys ==> i == k || i in keys - {k};
    }
  }

  /** What the runtime asks of its driver, and what it was answered. */
  datatype Call =
    | AskedPush(q: Queued, accepted: bool)
    | AskedCancel(key: nat, accepted: bool)
    | AskedPushQueue(queue: seq<Queued>, pushes: nat)
    | AskedSubmit(timeout: Option<nat>, entries: seq<Entry>)

  /** Whatever driver: it holds what it took, and reports only that. */
  class Driver {
    var inflight: map<nat, nat>
    // every call so far
    ghost var calls: seq<Call>

    constructor ()
      ensures inflight == map[] && calls == []
    {
      inflight, calls := map[], [];
    }

    /** `try_push_dyn`, which demands unused user data. */
    method TryPush(q: Queued) returns (accepted: bool)
      requires q.key !in inflight
      modifies this
      ensures inflight == if accepted then old(inflight)[q.key := q.op.id] else old(inflight)
      ensures calls == old(calls) + [AskedPush(q, accepted)]
    {
      accepted := *;
      calls := calls + [AskedPush(q, accepted)];
      if accepted {
        inflight := inflight[q.key := q.op.id];
      }
    }

    method TryCancel(key: nat) returns (accepted: bool)
      modifies `calls
      ensures calls == old(calls) + [AskedCancel(key, accepted)]
    {
      accepted := *;
      calls := calls + [AskedCancel(key, accepted)];
    }

    /** `push_queue`: takes what it has room for from the front of the queue. */
    method PushQueue(queue: seq<Queued>) returns (rest: seq<Queued>, ghost pushes: nat)
      requires forall i :: 0 <= i < |queue| ==> queue[i].key !in inflight
      requires forall i, j :: 0 <= i < j < |queue| ==> queue[i].key != queue[j].key
      modifies this
      ensures pushes <= |queue| && rest == queue[pushes..]
      ensures inflight == Holding(old(inflight), queue[..pushes])
      ensures calls == old(calls) + [AskedPushQueue(queue, pushes)]
    {
      var n: int :| 0 <= n <= |queue|;
      inflight := Holding(inflight, queue[..n]);
      rest, pushes := queue[n..], n;
      calls := calls + [AskedPushQueue(queue, n)];
    }

    /** `submit`: reports, each about an operation held; `None` is to block for the first. */
    method Submit(timeout: Option<nat>) returns (entries: seq<Entry>)
      modifies this
      ensures Honest(old(inflight), entries) && inflight == Left(old(inflight), entries)
      ensures calls == old(calls) + [AskedSubmit(timeout, entries)]
    {
      assert Honest(inflight, []);
      entries :| Honest(inflight, entries);
      inflight := Left(inflight, entries);
      calls := calls + [AskedSubmit(timeout, entries)];
    }
  }

  /** What the driver holds once it took `ops`, first to last. */
  function Holding(inflight: map<nat, nat>, ops: seq<Queued>): map<nat, nat>
    decreases |ops|
  {
    if ops == [] then inflight else Holding(inflight[ops[0].key := ops[0].op.id], ops[1..])
  }

  lemma {:induction false} PushedManyHolds(s: State, n: nat)
    requires n <= |s.unqueuedOps|
    ensures PushedMany(s, n).inflight == Holding(s.inflight, s.unqueuedOps[..n])
    decreases n
  {
    if n > 0 {
      PushedManyHolds(Pushed(s), n - 1);
      assert s.unqueuedOps[..n][1..] == Pushed(s).unqueuedOps[..n - 1];
    }
  }

  /** What the driver holds once it reported `entries`. */
  function Left(inflight: map<nat, nat>, entries: seq<Entry>): map<nat, nat>
    decreases |entries|
  {
    if entries == [] then inflight else Left(inflight - {entries[0].key}, entries[1..])
  }

  lemma {:induction false} DeliveredAllLeaves(s: State, entries: seq<Entry>)
    requires Honest(s.inflight, entries)
    ensures DeliveredAll(s, entries).inflight == Left(s.inflight, entries)
    decreases |entries|
  {
    if entries != [] {
      DeliveredAllLeaves(Delivered(s, entries[0]), entries[1..]);
    }
  }

  /** An entry of the run queue: an operation's task, or one of the program's own. */
  datatype Runnable = OpTask(id: nat) | Other

  function OpTasks(runnables: seq<Runnable>): seq<nat> {
    if runnables == [] then []
    else (if runnables[0].OpTask? then [runnables[0].id] else []) + OpTasks(runnables[1..])
  }

  lemma {:induction false} OpTasksConcat(a: seq<Runnable>, b: seq<Runnable>)
    ensures OpTasks(a + b) == OpTasks(a) + OpTasks(b)
  {
    if a == [] {
      assert a + b == b;
    } else {
      var first := if a[0].OpTask? then [a[0].id] else [];
      OpTasksConcat(a[1..], b);
      assert (a + b)[1..] == a[1..] + b;
      assert OpTasks(a + b) == first + (OpTasks(a[1..]) + OpTasks(b));
    }
  }

  lemma {:induction false} QueuedIff(runnables: seq<Runnable>, id: nat)
    ensures OpTask(id) in runnables <==> id in OpTasks(runnables)
  {
    if runnables != [] {
      assert runnables == [runnables[0]] + runnables[1..];
      QueuedIff(runnables[1..], id);
    }
  }

  function Keys(cancels: seq<Cancel>): seq<nat> {
    seq(|cancels|, i requires 0 <= i < |cancels| => cancels[i].key)
  }

  /** How many of the steps poll the driver, and how many run an operation's task. */
  function Polls(steps: seq<Step>): nat {
    if steps == [] then 0 else Polls(steps[..|steps| - 1]) + if steps[|steps| - 1].Poll? then 1 else 0
  }

  function Runs(steps: seq<Step>): nat {
    if steps == [] then 0 else Runs(steps[..|steps| - 1]) + if steps[|steps| - 1].RunNext? then 1 else 0
  }

  lemma CountedSnoc(steps: seq<Step>, step: Step)
    ensures Polls(steps + [step]) == Polls(steps) + if step.Poll? then 1 else 0
    ensures Runs(steps + [step]) == Runs(steps) + if step.RunNext? then 1 else 0
  {
    assert (steps + [step])[..|steps|] == steps;
  }

  /** The calls that offer `keys` to the driver when it takes the first `n` of them. */
  function CancelCalls(keys: seq<nat>, n: nat): seq<Call>
    requires n <= |keys|
  {
    seq(n, i requires 0 <= i < n => AskedCancel(keys[i], true)) +
    if n < |keys| then [AskedCancel(keys[n], false)] else []
  }

  /** A runtime that has done nothing yet. */
  function Empty(): State {
    State(map[], [], [], [], [], map[], map[], [])
  }

  class Runtime {
    const driver: Driver
    const opRuntime: OpRuntime
    // the state async_task keeps for each operation's task
    var tasks: seq<Task>
    var runnables: seq<Runnable>
    var unqueuedOperations: seq<Queued>
    var unqueuedCancels: seq<nat>
    // the operations' tasks whose handle one of the program's tasks waits on
    var awaited: set<nat>
    // every step taken so far, and the state they lead to
    ghost var trace: seq<Step>
    ghost var model: State
    // how often one of the program's own tasks ran, and how often its future was found finished
    ghost var programRuns: nat
    ghost var finishes: nat

    ghost predicate Valid()
      reads this, driver, opRuntime
    {
      && opRuntime.ops == model.slab && driver.inflight == model.inflight
      && tasks == model.tasks && OpTasks(runnables) == model.runnables
      && unqueuedOperations == model.unqueuedOps && unqueuedCancels == Keys(model.unqueuedCancels)
      && AllEnabled(Empty(), trace) && model == Run(Empty(), trace)
    }

    /** No future that may still be awaited has its result left in the slab. */
    ghost predicate NothingUndelivered()
      reads this, opRuntime
    {
      forall id :: 0 <= id < |tasks| && tasks[id].phase.Live? ==> !HasResult(opRuntime.ops, tasks[id].key)
    }

    constructor ()
      ensures Valid() && trace == [] && driver.calls == [] && runnables == [] && fresh(driver) && fresh(opRuntime)
    {
      driver := new Driver();
      opRuntime := new OpRuntime();
      tasks, runnables, unqueuedOperations, unqueuedCancels, awaited := [], [], [], [], {};
      trace, model, programRuns, finishes := [], Empty(), 0, 0;
    }

    /** `Runtime::submit`, with the spawning of the operation's future. */
    method Submit(what: nat) returns (id: nat, ghost step: Step)
      requires Valid()
      modifies `tasks, `runnables, `unqueuedOperations, `trace, `model, driver, opRuntime
      ensures Valid() && trace == old(trace) + [step]
      ensures step.Submit? && step.what == what && id == old(|tasks|)
      ensures runnables == old(runnables) + [OpTask(id)]
      ensures driver.calls == old(driver.calls) + [AskedPush(Queued(step.key, Op(id, what)), step.accepted)]
    {
      ghost var s := model;
      id := |tasks|;
      var op := Op(id, what);
      var key := opRuntime.Insert(op);
      DriverKeysAreUnique(Empty(), trace, key);
      var accepted := driver.TryPush(Queued(key, op));
      if !accepted {
        unqueuedOperations := unqueuedOperations + [Queued(key, op)];
      }
      tasks := tasks + [Task(key, op, Live)];
      OpTasksConcat(runnables, [OpTask(id)]);
      runnables := runnables + [OpTask(id)];
      step := TaskRuns.Submit(what, key, accepted);
      Snoc(Empty(), trace, step);
      trace, model := trace + [step], Next(s, step);
    }

    method Schedule(id: nat)
      modifies `runnables
      ensures OpTasks(runnables) == TaskRuns.Schedule(old(OpTasks(runnables)), id)
      ensures old(runnables) <= runnables && OpTask(id) in runnables
    {
      QueuedIff(runnables, id);
      if OpTask(id) !in runnables {
        OpTasksConcat(runnables, [OpTask(id)]);
        runnables := runnables + [OpTask(id)];
      }
    }

    /** The handle of an operation's task is dropped: the task is closed and run once more. */
    method DropHandle(id: nat)
      requires Valid() && id < |tasks|
      modifies `tasks, `runnables, `trace, `model
      ensures Valid() && trace == old(trace) + [TaskRuns.DropHandle(id)]
      ensures old(runnables) <= runnables && (old(tasks[id]).phase.Live? ==> OpTask(id) in runnables)
    {
      ghost var s, step := model, TaskRuns.DropHandle(id);
      if tasks[id].phase.Live? {
        tasks := tasks[id := tasks[id].(phase := Closed)];
        Schedule(id);
      }
      Snoc(Empty(), trace, step);
      trace, model := trace + [step], Next(s, step);
    }

    // -------------------------------------------------------------- running a task

    /** `poll_task` */
    method PollTask(id: nat, key: nat) returns (ready: Option<Phase>)
      modifies opRuntime
      ensures var was := old(opRuntime.ops);
              if HasResult(was, key) then
                ready == Some(Resolved(was[key].result.value, was[key].op)) && opRuntime.ops == was - {key}
              else
                ready == None && opRuntime.ops == WithWaker(was, key, id)
    {
      if HasResult(opRuntime.ops, key) {
        var slot := opRuntime.Remove(key);
        ready := Some(Resolved(slot.result.value, slot.op));
      } else {
        opRuntime.UpdateWaker(key, id);
        ready := None;
      }
    }

    /** `cancel_op` */
    method CancelOp(key: nat) returns (accepted: bool)
      modifies opRuntime, `unqueuedCancels, driver`calls
      ensures driver.calls == old(driver.calls) + [AskedCancel(key, accepted)]
      ensures accepted ==>
                opRuntime.ops == WithFlag(old(opRuntime.ops), key) && unqueuedCancels == old(unqueuedCancels)
      ensures !accepted ==>
                opRuntime.ops == old(opRuntime.ops) && unqueuedCancels == old(unqueuedCancels) + [key]
    {
      accepted := driver.TryCancel(key);
      if !accepted {
        unqueuedCancels := unqueuedCancels + [key];
      } else {
        opRuntime.Cancel(key);
      }
    }

    /** The task that awaits a resolved operation, if there is one, is woken, unless it is queued. */
    method WakeAwaiting(id: nat)
      modifies `runnables, `awaited
      ensures OpTasks(runnables) == old(OpTasks(runnables)) && old(runnables) <= runnables
      ensures awaited == old(awaited) - {id}
      ensures if id in old(awaited) then Other in runnables else runnables == old(runnables)
    {
      var again: bool := *;
      if id in awaited && (again || Other !in runnables) {
        OpTasksConcat(runnables, [Other]);
        runnables := runnables + [Other];
      }
      awaited := awaited - {id};
    }

    /** An operation's task runs: its future is polled, or dropped if the handle is gone. */
    method RunOperation(id: nat, ghost s: State) returns (ghost accepted: bool)
      requires s.runnables != [] && s.runnables[0] == id < |tasks| && OpTasks(runnables) == s.runnables[1..]
      requires opRuntime.ops == s.slab && driver.inflight == s.inflight && tasks == s.tasks
      requires unqueuedOperations == s.unqueuedOps && unqueuedCancels == Keys(s.unqueuedCancels)
      modifies `tasks, `runnables, `unqueuedCancels, `awaited, opRuntime, driver`calls
      ensures old(runnables) <= runnables
      ensures awaited ==
              old(awaited) - if s.tasks[id].phase.Live? && HasResult(s.slab, s.tasks[id].key) then {id} else {}
      ensures if id in old(awaited) && id !in awaited then Other in runnables else runnables == old(runnables)
      ensures driver.calls == old(driver.calls) +
              if s.tasks[id].phase.Closed? then [AskedCancel(s.tasks[id].key, accepted)] else []
      ensures var t := Ran(s, accepted);
              && opRuntime.ops == t.slab && driver.inflight == t.inflight
              && tasks == t.tasks && OpTasks(runnables) == t.runnables
              && unqueuedOperations == t.unqueuedOps && unqueuedCancels == Keys(t.unqueuedCancels)
    {
      var task := tasks[id];
      accepted := true;
      if task.phase.Live? {
        var ready := PollTask(id, task.key);
        if ready.Some? {
          tasks := tasks[id := task.(phase := ready.value)];
          WakeAwaiting(id);
        }
      } else if task.phase.Closed? {
        var late := HasResult(opRuntime.ops, task.key);
        var taken := CancelOp(task.key);
        accepted := taken;
        tasks := tasks[id := task.(phase := Dropped(taken, late))];
      }
    }

    /** One of the program's own tasks runs: it submits, drops handles and spawns at will. */
    method RunOther() returns (finished: bool)
      requires Valid()
      modifies this, driver, opRuntime
      ensures Valid() && old(trace) <= trace && old(runnables) <= runnables
      ensures Polls(trace) == Polls(old(trace)) && Runs(trace) == Runs(old(trace))
      ensures programRuns == old(programRuns) + 1 && finishes == old(finishes) + if finished then 1 else 0
    {
      var n: int :| 0 <= n;
      for i := 0 to n
        invariant Valid() && old(trace) <= trace && old(runnables) <= runnables
        invariant Polls(trace) == Polls(old(trace)) && Runs(trace) == Runs(old(trace))
        invariant programRuns == old(programRuns) && finishes == old(finishes)
      {
        ghost var before := trace;
        if
        case true =>
          var what: int :| 0 <= what;
          var id, step := Submit(what);
          CountedSnoc(before, step);
        case |tasks| > 0 =>
          var id: int :| 0 <= id < |tasks|;
          DropHandle(id);
          CountedSnoc(before, TaskRuns.DropHandle(id));
        case |tasks| > 0 =>
          var id: int :| 0 <= id < |tasks|;
          awaited := awaited + {id};
        case true =>
          OpTasksConcat(runnables, [Other]);
          runnables := runnables + [Other];
      }
      finished := *;
      programRuns, finishes := programRuns + 1, finishes + if finished then 1 else 0;
    }

    /** The body of the inner loop of `block_on`. */
    method RunFirst() returns (finished: bool)
      requires Valid() && runnables != []
      modifies this, driver, opRuntime
      ensures Valid() && old(runnables)[1..] <= runnables
      ensures old(runnables)[0].OpTask? ==>
                && |trace| == |old(trace)| + 1 && old(trace) <= trace && trace[|old(trace)|].RunNext?
                && programRuns == old(programRuns) && finishes == old(finishes) && !finished
      ensures old(runnables)[0].OpTask? ==>
                var id, were := old(runnables)[0].id, old(tasks);
                && id < |were|
                && (id in old(awaited) && were[id].phase.Live? && HasResult(old(opRuntime.ops), were[id].key)
                    ==> Other in runnables)
      ensures old(runnables)[0].Other? ==>
                && old(trace) <= trace && Polls(trace) == Polls(old(trace)) && Runs(trace) == Runs(old(trace))
                && programRuns == old(programRuns) + 1 && finishes == old(finishes) + if finished then 1 else 0
    {
      var first := runnables[0];
      runnables := runnables[1..];
      match first {
        case Other => finished := RunOther();
        case OpTask(id) =>
          ghost var s := model;
          FrontIsATask(trace);
          var accepted := RunOperation(id, s);
          ghost var step := RunNext(accepted);
          Snoc(Empty(), trace, step);
          trace, model := trace + [step], Next(s, step);
          finished := false;
      }
    }

    // -------------------------------------------------------------- poll

    /** Deferred cancels go to the driver, first to last, until it refuses one. */
    method OfferCancels() returns (ghost cancels: nat)
      modifies `unqueuedCancels, driver`calls
      ensures cancels <= old(|unqueuedCancels|) && unqueuedCancels == old(unqueuedCancels)[cancels..]
      ensures driver.calls == old(driver.calls) + CancelCalls(old(unqueuedCancels), cancels)
    {
      cancels := 0;
      ghost var keys := unqueuedCancels;
      while unqueuedCancels != []
        invariant cancels <= |keys| && unqueuedCancels == keys[cancels..]
        invariant driver.calls ==
                  old(driver.calls) + seq(cancels, i requires 0 <= i < cancels => AskedCancel(keys[i], true))
        decreases |unqueuedCancels|
      {
        var key := unqueuedCancels[0];
        unqueuedCancels := unqueuedCancels[1..];
        var accepted := driver.TryCancel(key);
        if !accepted {
          unqueuedCancels := [key] + unqueuedCancels;
          return;
        }
        cancels := cancels + 1;
      }
    }

    /** The first half of `poll`: the overflow queues are offered to the driver. */
    method Offer() returns (ghost cancels: nat, ghost pushes: nat)
      requires Valid()
      modifies `unqueuedCancels, `unqueuedOperations, driver
      ensures cancels <= |model.unqueuedCancels| && pushes <= |model.unqueuedOps|
      ensures driver.calls == old(driver.calls) + CancelCalls(old(unqueuedCancels), cancels)
                              + [AskedPushQueue(old(unqueuedOperations), pushes)]
      ensures var t := Offered(model, cancels, pushes);
              && driver.inflight == t.inflight
              && unqueuedOperations == t.unqueuedOps && unqueuedCancels == Keys(t.unqueuedCancels)
    {
      DriverKeysAreUnique(Empty(), trace, 0);
      cancels := OfferCancels();
      unqueuedOperations, pushes := driver.PushQueue(unqueuedOperations);
      PushedManyHolds(HandedOverMany(model, cancels), pushes);
    }

    /** `extend`: every entry reaches `update_result`, which wakes the task waiting for it. */
    method Extend(entries: seq<Entry>, ghost s: State)
      requires opRuntime.ops == s.slab && tasks == s.tasks && OpTasks(runnables) == s.runnables
      modifies opRuntime, `runnables
      ensures var t := DeliveredAll(s, entries);
              opRuntime.ops == t.slab && tasks == t.tasks && OpTasks(runnables) == t.runnables
    {
      ghost var t := s;
      for k := 0 to |entries|
        invariant opRuntime.ops == t.slab && tasks == t.tasks && OpTasks(runnables) == t.runnables
        invariant DeliveredAll(t, entries[k..]) == DeliveredAll(s, entries)
      {
        var e := entries[k];
        assert entries[k..][1..] == entries[k + 1..];
        var waker := opRuntime.UpdateResult(e.key, e.result);
        if waker.Some? && waker.value < |tasks| && tasks[waker.value].phase.Live? {
          Schedule(waker.value);
        }
        t := Delivered(t, e);
      }
    }

    /** `poll`, called when there is nothing to run. */
    method Poll() returns (timeout: Option<nat>, ghost step: Step)
      requires Valid() && runnables == []
      modifies `runnables, `unqueuedOperations, `unqueuedCancels, `trace, `model, driver, opRuntime
      ensures Valid() && step.Poll? && trace == old(trace) + [step]
      ensures step.cancels <= old(|unqueuedCancels|)
      ensures driver.calls == old(driver.calls) + CancelCalls(old(unqueuedCancels), step.cancels)
                              + [AskedPushQueue(old(unqueuedOperations), step.pushes)]
                              + [AskedSubmit(timeout, step.entries)]
      ensures timeout == if step.pushes == old(|unqueuedOperations|) then None else Some(0)
      ensures old(NothingUndelivered())
    {
      ghost var s := model;
      QuietMeansDelivered(trace);
      var cancels, pushes := Offer();
      ghost var offered := Offered(s, cancels, pushes);
      timeout := if |unqueuedOperations| > 0 then Some(0) else None;
      var entries := driver.Submit(timeout);
      Extend(entries, offered);
      DeliveredAllLeaves(offered, entries);
      DeliverAllKeepsQueues(offered, entries);
      step := TaskRuns.Poll(cancels, pushes, entries);
      Snoc(Empty(), trace, step);
      trace, model := trace + [step], Next(s, step);
    }

    /** What has been done so far: operations' tasks run, program's tasks run, polls of the driver. */
    ghost function Work(): nat
      reads this
    {
      Polls(trace) + Runs(trace) + programRuns
    }

    /** One turn of `block_on`: the first runnable runs, or the driver is polled when there is none. */
    method Turn() returns (finished: bool)
      requires Valid()
      modifies this, driver, opRuntime
      ensures Valid() && old(trace) <= trace && Work() == old(Work()) + 1
      ensures old(runnables) == [] ==> Polls(trace) == Polls(old(trace)) + 1 && programRuns == old(programRuns)
      ensures old(runnables) != [] ==>
                && Polls(trace) == Polls(old(trace)) && old(runnables)[1..] <= runnables
                && programRuns == old(programRuns) + if old(runnables)[0].Other? then 1 else 0
      ensures finishes == old(finishes) + if finished then 1 else 0
      ensures finished ==> programRuns > old(programRuns)
    {
      ghost var before := trace;
      if runnables != [] {
        ghost var first := runnables[0];
        finished := RunFirst();
        if first.OpTask? {
          assert trace == before + [trace[|before|]];
          CountedSnoc(before, trace[|before|]);
        }
      } else {
        var timeout, step := Poll();
        CountedSnoc(before, step);
        finished := false;
      }
    }

    /**
     `block_on`, observed for so many turns: every turn runs the first runnable, or polls the driver
     when there is none, and the future's result is handed out only once it is there and nothing is
     left to run.  The future itself runs once what was queued before it has run.
     */
    method BlockOn(turns: nat) returns (finished: bool)
      requires Valid()
      modifies this, driver, opRuntime
      ensures Valid() && old(trace) <= trace
      ensures finished ==> runnables == [] && NothingUndelivered() && finishes > old(finishes)
      ensures !finished ==>
                Polls(trace) + Runs(trace) + programRuns
                == Polls(old(trace)) + Runs(old(trace)) + old(programRuns) + turns
      ensures finished || turns > old(|runnables|) ==> programRuns > old(programRuns)
    {
      OpTasksConcat(runnables, [Other]);
      runnables := runnables + [Other];
      ghost var queue, base := runnables, Work();
      var ready, left := false, turns;
      while left > 0
        invariant Valid() && old(trace) <= trace && 0 <= left <= turns
        invariant Work() == base + (turns - left)
        invariant programRuns >= old(programRuns) && finishes >= old(finishes)
        invariant ready ==> programRuns > old(programRuns) && finishes > old(finishes)
        invariant programRuns == old(programRuns) ==> turns - left < |queue| && queue[turns - left..] <= runnables
      {
        if runnables == [] && ready {
          QuietMeansDelivered(trace);
          return true;
        }
        ghost var before := runnables;
        var now := Turn();
        ready := ready || now;
        if before != [] {
          FrontOfQueue(queue, before, runnables, turns - left);
        }
        left := left - 1;
      }
      finished := false;
    }
  }

  /** What was queued moves up by one when the first has run, unless that was the last of it. */
  lemma FrontOfQueue(queue: seq<Runnable>, before: seq<Runnable>, after: seq<Runnable>, made: nat)
    requires before != [] && before[1..] <= after && queue != [] && queue[|queue| - 1] == Other
    ensures made < |queue| && queue[made..] <= before && before[0].OpTask? ==>
              made + 1 < |queue| && queue[made + 1..] <= after
  {
    if made < |queue| && queue[made..] <= before && before[0].OpTask? {
      assert queue[made] == before[0];
      assert queue[made + 1..] == queue[made..][1..] <= before[1..];
    }
  }

  lemma {:induction false} DeliverAllKeepsQueues(s: State, entries: seq<Entry>)
    ensures var t := DeliveredAll(s, entries);
            t.unqueuedOps == s.unqueuedOps && t.unqueuedCancels == s.unqueuedCancels
    decreases |entries|
  {
    if entries != [] {
      DeliverAllKeepsQueues(Delivered(s, entries[0]), entries[1..]);
    }
  }

  lemma QuietMeansDelivered(trace: seq<Step>)
    requires AllEnabled(Empty(), trace)
    ensures var s := Run(Empty(), trace);
            s.runnables == [] ==>
              forall id :: 0 <= id < |s.tasks| && s.tasks[id].phase.Live? ==> !HasResult(s.slab, s.tasks[id].key)
  {
    var s := Run(Empty(), trace);
    forall id | 0 <= id < |s.tasks| && s.tasks[id].phase.Live? && s.runnables == []
      ensures !HasResult(s.slab, s.tasks[id].key)
    {
      NoWakeUpIsLost(Empty(), trace, id);
    }
  }

  lemma FrontIsATask(trace: seq<Step>)
    requires AllEnabled(Empty(), trace)
    ensures var s := Run(Empty(), trace); s.runnables != [] ==> s.runnables[0] < |s.tasks|
  {
    RunKeepsInv(Empty(), trace);
  }
}
