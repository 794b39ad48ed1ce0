/**
 The kqueue `Driver` itself (src/driver/kqueue/mod.rs).  Its methods, with the source's loops
 and fields, are proved to take the steps of `KqueueRuns` and keep a trace of them, so that the
 results of `KqueueTheorems` hold of every sequence of calls.
 */
module KqueueDriver {
  import opened Wrappers
  import opened Kqueue
  import opened KqueueRuns
  import opened KqueueTheorems
  import Timers
  import Intervals

  datatype Status = Completed | KernelError | Panicked

  /** What the driver asks of the world: that an operation be tried, and that the kernel be waited for. */
  datatype Call = Operated(op: Op, answer: Answer) | Waited(wait: nat, ok: bool)

  /** The calls that try a drained batch, in order. */
  function DrainCalls(ops: seq<Op>, answers: seq<Answer>): (calls: seq<Call>)
    requires |ops| == |answers|
    ensures |calls| == |ops|
  {
    seq(|ops|, i requires 0 <= i < |ops| => Operated(ops[i], answers[i]))
  }

  /** The calls that try the operations of the ready events; an event with an error tries none. */
  function ReadyCalls(pending: seq<Op>, ready: seq<Ready>, replies: seq<Answer>): seq<Call>
    requires |ready| == |replies| && InRange(pending, ready)
  {
    if ready == [] then []
    else
      var n := |ready| - 1;
      ReadyCalls(pending, ready[..n], replies[..n]) +
      if ready[n].error.Some? then [] else [Operated(pending[ready[n].index], replies[n])]
  }

  function SoundFlags(ready: seq<Ready>): (flags: seq<bool>)
    ensures |flags| == |ready|
  {
    seq(|ready|, k requires 0 <= k < |ready| => ready[k].error.None?)
  }

  lemma {:induction false} ReadyCallsLength(pending: seq<Op>, ready: seq<Ready>, replies: seq<Answer>)
    requires |ready| == |replies| && InRange(pending, ready)
    ensures |ReadyCalls(pending, ready, replies)| == |Where(SoundFlags(ready))|
  {
    if ready != [] {
      var n := |ready| - 1;
      ReadyCallsLength(pending, ready[..n], replies[..n]);
      assert SoundFlags(ready)[..n] == SoundFlags(ready[..n]);
    }
  }

  /** Of the ready events exactly those without an error try their operation, in order, and get its reply. */
  lemma {:induction false} ReadyCallsInOrder(pending: seq<Op>, ready: seq<Ready>, replies: seq<Answer>, j: nat)
    requires |ready| == |replies| && InRange(pending, ready) && j < |ReadyCalls(pending, ready, replies)|
    ensures var at := Where(SoundFlags(ready));
            && |at| == |ReadyCalls(pending, ready, replies)|
            && ReadyCalls(pending, ready, replies)[j] == Operated(pending[ready[at[j]].index], replies[at[j]])
  {
    ReadyCallsLength(pending, ready, replies);
    var n := |ready| - 1;
    ReadyCallsLength(pending, ready[..n], replies[..n]);
    assert SoundFlags(ready)[..n] == SoundFlags(ready[..n]);
    if j < |ReadyCalls(pending, ready[..n], replies[..n])| {
      ReadyCallsInOrder(pending, ready[..n], replies[..n], j);
    }
  }

  /** The clock as read for a timer was read in between. */
  ghost predicate ReadBetween(answers: seq<Answer>, readings: seq<nat>, from: nat, to: nat) {
    |answers| == |readings| && forall i :: 0 <= i < |answers| && WantsTimer(answers[i]) ==> from <= readings[i] <= to
  }

  /** Where a drain starts from. */
  datatype Before = Before(pending: seq<Op>, heap: seq<Timers.Timer>, calls: seq<Call>, time: nat)

  class Driver {
    // the kernel's filters behind the kqueue descriptor
    var kqueue: map<Filter, nat>
    var squeue: seq<Op>
    var squeueDrainedTill: nat
    var ioPending: seq<Op>
    var eventsToChange: seq<Change>
    var readyEvents: seq<Ready>
    var completedEventsIndices: set<nat>
    var toChangeFdReads: set<nat>
    var toChangeFdWrites: set<nat>
    const timers: Timers.TimerWheel
    const clock: Intervals.Clock
    // allocations
    const squeueCapacity: nat
    const changeCapacity: nat
    // every step taken since `start`, and the state they led to, with its histories
    ghost const start: State
    ghost var trace: seq<Step>
    ghost var model: State
    // every operation tried and every wait so far
    ghost var calls: seq<Call>

    /** The fields are those of the step system's state. */
    ghost predicate Tied()
      reads this, timers
    {
      && squeue == model.squeue
      && ioPending == model.pending
      && timers.heap == model.timers
      && kqueue == model.table
      && squeueDrainedTill == model.limit
      && squeueCapacity == model.room
      && changeCapacity == model.cap
      && model.end.StoredIndex?
    }

    /** The wheel's log is in order, and its latest reading is not ahead of the clock. */
    ghost predicate Timely()
      reads timers, clock
    {
      timers.Valid() && timers.LastReading() <= clock.time
    }

    /** The state is where a run of the step system ends. */
    ghost predicate Traced()
      reads this
    {
      Initial(start) && AllEnabled(start, trace) && model == Run(start, trace)
    }

    ghost predicate Valid()
      reads this, timers, clock
    {
      Tied() && Timely() && Traced()
    }

    constructor (entries: nat, squeueCapacity: nat, changeCapacity: nat)
      requires entries <= squeueCapacity
      ensures Valid() && trace == [] && calls == [] && fresh(timers) && fresh(clock)
      ensures model.limit == entries && model.room == squeueCapacity && model.cap == changeCapacity
    {
      kqueue := map[];
      squeue, ioPending, eventsToChange, readyEvents := [], [], [], [];
      squeueDrainedTill := entries;
      completedEventsIndices, toChangeFdReads, toChangeFdWrites := {}, {}, {};
      this.squeueCapacity := squeueCapacity;
      this.changeCapacity := changeCapacity;
      timers := new Timers.TimerWheel();
      clock := new Intervals.Clock(0);
      start := State([], [], [], map[], entries, squeueCapacity, changeCapacity, StoredIndex, [], [], [], [], []);
      trace, calls := [], [];
      model := State([], [], [], map[], entries, squeueCapacity, changeCapacity, StoredIndex, [], [], [], [], []);
    }

    /** `capacity_left` */
    function CapacityLeft(): nat
      reads this
    {
      if |squeue| <= squeueDrainedTill then squeueDrainedTill - |squeue| else 0
    }

    /** `try_push` and `try_push_dyn` */
    method TryPush(op: Op) returns (pushed: bool)
      requires Valid()
      modifies this
      ensures Valid() && calls == old(calls)
      ensures pushed <==> old(|squeue| < squeueDrainedTill)
      ensures trace == if pushed then old(trace) + [Push([op])] else old(trace)
    {
      pushed := CapacityLeft() > 0;
      if pushed {
        squeue := squeue + [op];
        Take(Push([op]));
      }
    }

    /** `push_queue`: pushes what fits from the front of the caller's queue. */
    method PushQueue(opsQueue: seq<Op>) returns (rest: seq<Op>)
      requires Valid()
      modifies this
      ensures Valid() && calls == old(calls)
      ensures var till := |opsQueue| - |rest|;
              && 0 <= till && rest == opsQueue[till..]
              && trace == old(trace) + (if till == 0 then [] else [Push(opsQueue[..till])])
              && (till > 0 ==> |squeue| <= squeueDrainedTill)
              && (rest != [] ==> |squeue| >= squeueDrainedTill)
    {
      var till := Min(CapacityLeft(), |opsQueue|);
      if till == 0 {
        return opsQueue;
      }
      squeue := squeue + opsQueue[..till];
      Take(Push(opsQueue[..till]));
      rest := opsQueue[till..];
    }

    /** `try_cancel`: always succeeds; timers are out of its reach. */
    method TryCancel(userData: nat)
      requires Valid()
      modifies this
      ensures Valid() && trace == old(trace) + [Cancel(userData)] && calls == old(calls)
    {
      var p := Position(squeue, userData);
      var q := Position(ioPending, userData);
      if p.Some? {
        squeue := Without(squeue, p.value);
      }
      if q.Some? {
        ioPending := Without(ioPending, q.value);
      }
      Take(Cancel(userData));
    }

    /** Records a step. */
    ghost method Take(step: Step)
      requires Traced() && Enabled(model, step)
      modifies `trace, `model
      ensures Traced() && trace == old(trace) + [step] && model == Next(old(model), step)
    {
      OneMoreStep(start, trace, step);
      trace, model := trace + [step], Next(model, step);
    }

    // -------------------------------------------------------------- operate_squeue

    /** `operate`: anything an operation may answer. */
    method Operate(op: Op) returns (answer: Answer)
      modifies `calls
      ensures calls == old(calls) + [Operated(op, answer)]
    {
      answer := *;
      calls := calls + [Operated(op, answer)];
    }

    /** Operates one drained operation; the wheel reads the clock for a timer. */
    method OperateOne(op: Op) returns (answer: Answer, done: seq<Entry>, ghost now: nat)
      requires Timely()
      modifies `ioPending, `calls, timers, clock
      ensures Timely() && old(clock.time) <= clock.time
      ensures calls == old(calls) + [Operated(op, answer)]
      ensures ioPending == old(ioPending) + if answer.None? then [op] else []
      ensures timers.heap ==
              old(timers.heap) + if WantsTimer(answer) then [Timers.Timer(op.userData, now + op.delay)] else []
      ensures WantsTimer(answer) ==> old(clock.time) <= now <= clock.time
      ensures done == if answer.None? || WantsTimer(answer) then [] else [Entry(op.userData, answer.value)]
    {
      answer := Operate(op);
      done, now := [], 0;
      if answer.None? {
        ioPending := ioPending + [op];
      } else if WantsTimer(answer) {
        var reading := clock.Now();
        now := reading;
        timers.Insert(op.userData, op.delay, reading);
      } else {
        done := [Entry(op.userData, answer.value)];
      }
    }

    /** Where the operations seen so far went. */
    ghost predicate Sorted(start: Before, seen: seq<Op>, answers: seq<Answer>, readings: seq<nat>, entries: seq<Entry>)
      reads this, timers, clock
    {
      && |answers| == |readings| == |seen|
      && ioPending == start.pending + Blocked(seen, answers)
      && timers.heap == start.heap + Started(seen, answers, readings)
      && entries == DoneAtOnce(seen, answers)
      && calls == start.calls + DrainCalls(seen, answers)
      && start.time <= clock.time && ReadBetween(answers, readings, start.time, clock.time)
    }

    /** The body of the loop. */
    method OperateNext(op: Op, idx: nat, entries: seq<Entry>, ghost start: Before,
                       ghost seen: seq<Op>, ghost answers: seq<Answer>, ghost readings: seq<nat>)
      returns (longer: seq<Entry>, ghost answer: Answer, ghost now: nat)
      requires Timely() && Sorted(start, seen, answers, readings, entries)
      modifies `ioPending, `squeueDrainedTill, `calls, timers, clock
      ensures Timely() && Sorted(start, seen + [op], answers + [answer], readings + [now], longer)
    {
      var reply, done, reading := OperateOne(op);
      answer, now, longer := reply, reading, entries + done;
      OperatedOneMore(seen, answers, readings, op, answer, now);
      Append3(start.calls, DrainCalls(seen, answers), [Operated(op, answer)]);
      if done != [] {
        squeueDrainedTill := idx + 1;
      }
    }

    /** Operates what was drained, in order. */
    method OperateAll(ops: seq<Op>) returns (entries: seq<Entry>, ghost answers: seq<Answer>, ghost readings: seq<nat>)
      requires Timely()
      modifies `ioPending, `squeueDrainedTill, `calls, timers, clock
      ensures Timely()
      ensures Sorted(Before(old(ioPending), old(timers.heap), old(calls), old(clock.time)),
                     ops, answers, readings, entries)
    {
      entries, answers, readings := [], [], [];
      ghost var start := Before(ioPending, timers.heap, calls, clock.time);
      for idx := 0 to |ops|
        invariant Timely() && Sorted(start, ops[..idx], answers, readings, entries)
      {
        ghost var answer, now;
        entries, answer, now := OperateNext(ops[idx], idx, entries, start, ops[..idx], answers, readings);
        answers, readings := answers + [answer], readings + [now];
        TakeOneMore(ops, idx);
      }
      assert ops[..|ops|] == ops;
    }

    method OperateSqueue() returns (entries: seq<Entry>, ghost drain: Step)
      requires Tied() && Timely()
      modifies this, timers, clock
      ensures Tied() && Timely() && trace == old(trace) && squeue == [] && squeueDrainedTill == squeueCapacity
      ensures drain.Drain? && Enabled(old(model), drain) && model == Next(old(model), drain)
      ensures model.delivered == old(model.delivered) + entries
      ensures calls == old(calls) + DrainCalls(old(squeue), drain.answers)
      ensures old(clock.time) <= clock.time
      ensures ReadBetween(drain.answers, drain.clock, old(clock.time), clock.time)
    {
      var ops := squeue;
      squeue := [];
      ghost var answers, readings;
      entries, answers, readings := OperateAll(ops);
      squeueDrainedTill := squeueCapacity;
      drain := Drain(answers, readings);
      model := Next(model, drain);
    }

    // -------------------------------------------------------------- check_readiness

    /** Notes the filter of the next operation in the bit set for its direction. */
    method Note(op: Op, ghost seen: seq<Op>) returns (absent: bool)
      requires SeenExactly(toChangeFdReads, toChangeFdWrites, seen)
      modifies `toChangeFdReads, `toChangeFdWrites
      ensures SeenExactly(toChangeFdReads, toChangeFdWrites, seen + [op])
      ensures absent <==> !Occurs(seen, op.filter)
    {
      SeenOneMore(toChangeFdReads, toChangeFdWrites, seen, op);
      match op.filter {
        case Read(fd) =>
          absent := fd !in toChangeFdReads;
          toChangeFdReads := toChangeFdReads + {fd};
        case Write(fd) =>
          absent := fd !in toChangeFdWrites;
          toChangeFdWrites := toChangeFdWrites + {fd};
      }
    }

    /** The scan: fills the change list and stores the index it stopped at. */
    method FillChangeList() returns (scannedTill: nat)
      modifies `eventsToChange, `toChangeFdReads, `toChangeFdWrites
      ensures eventsToChange == Changes(ioPending[..Visited(ioPending, changeCapacity)])
      ensures scannedTill == ScannedTill(ioPending, changeCapacity)
    {
      eventsToChange, toChangeFdReads, toChangeFdWrites := [], {}, {};
      scannedTill := 0;
      var queue, index, changes := ioPending, 0, 0;
      while index < |queue|
        invariant 0 <= index <= |queue|
        invariant changes == |eventsToChange|
        invariant eventsToChange == Changes(queue[..index])
        invariant SeenExactly(toChangeFdReads, toChangeFdWrites, queue[..index])
        invariant Visited(queue, changeCapacity) == VisitFrom(queue, changeCapacity, index)
        invariant scannedTill == if index == 0 then 0 else index - 1
      {
        scannedTill := index;
        if changes >= changeCapacity {
          return;
        }
        TakeOneMore(queue, index);
        var op := queue[index];
        var absent := Note(op, queue[..index]);
        if absent {
          eventsToChange := eventsToChange + [Change(op.filter, index)];
          changes := changes + 1;
        }
        index := index + 1;
      }
      assert queue[..index] == queue;
    }

    /** `kevent`: registers the change list and returns any of the filters that may be ready. */
    method Kevent(wait: nat) returns (ok: bool, ghost applied: nat)
      modifies `kqueue, `readyEvents, `calls, clock
      ensures old(clock.time) <= clock.time && calls == old(calls) + [Waited(wait, ok)]
      ensures ok ==>
                && KernelMayReturn(Merged(old(kqueue), eventsToChange), readyEvents)
                && kqueue == Merged(old(kqueue), eventsToChange) - FiltersOf(readyEvents)
      ensures !ok ==>
                && applied <= |eventsToChange| && readyEvents == []
                && kqueue == Merged(old(kqueue), eventsToChange[..applied])
    {
      var _ := clock.Now();
      if * {
        var part: int :| 0 <= part <= |eventsToChange|;
        kqueue, readyEvents := Merged(kqueue, eventsToChange[..part]), [];
        calls := calls + [Waited(wait, false)];
        return false, part;
      }
      var merged := Merged(kqueue, eventsToChange);
      assert KernelMayReturn(merged, []);
      var ready: seq<Ready> :| KernelMayReturn(merged, ready);
      kqueue, readyEvents := merged - FiltersOf(ready), ready;
      calls := calls + [Waited(wait, true)];
      ok, applied := true, 0;
    }

    /** `expire_timers`, with the entries it reports: every timer due by now fires, and no other. */
    method ExpireTimers() returns (entries: seq<Entry>, ghost now: nat, ghost fired: seq<Timers.Timer>)
      requires Timely()
      modifies timers, clock
      ensures Timely() && old(clock.time) <= now <= clock.time
      ensures entries == TimerEntries(fired)
      ensures Timers.Expired(multiset(old(timers.heap)), now, fired, multiset(timers.heap))
      ensures forall t :: t in timers.heap ==> old(clock.time) < t.deadline
      ensures forall t :: t in fired ==> t.deadline <= clock.time
    {
      var reading := clock.Now();
      now := reading;
      var expired := timers.ExpireTimers(reading);
      entries, fired := TimerEntries(expired), expired;
      assert forall t :: t in timers.heap ==> t in multiset(timers.heap);
    }

    /**
     `check_readiness`: the kernel is asked to wait for the least of the caller's timeout and the
     time to every deadline, so never past one still ahead; without either, not to wait.
     */
    method CheckReadiness(timeout: Option<nat>)
      returns (ok: bool, scannedTill: nat, entries: seq<Entry>, ghost applied: nat, ghost expire: Step,
               ghost asked: nat, ghost wait: nat)
      requires Timely()
      modifies `eventsToChange, `toChangeFdReads, `toChangeFdWrites, `kqueue, `readyEvents, `calls, timers, clock
      ensures Timely()
      ensures scannedTill == ScannedTill(ioPending, changeCapacity)
      ensures expire.Expire? && expire.left == timers.heap && entries == TimerEntries(expire.fired)
      ensures Timers.Expired(multiset(old(timers.heap)), expire.now, expire.fired, multiset(timers.heap))
      ensures var list := Changes(ioPending[..Visited(ioPending, changeCapacity)]);
              if ok then
                && KernelMayReturn(Merged(old(kqueue), list), readyEvents)
                && kqueue == Merged(old(kqueue), list) - FiltersOf(readyEvents)
              else
                && applied <= |list| && readyEvents == []
                && kqueue == Merged(old(kqueue), list[..applied])
      ensures calls == old(calls) + [Waited(wait, ok)]
      ensures old(clock.time) <= asked <= expire.now <= clock.time
      ensures if timeout.None? && old(timers.heap) == [] then wait == 0
              else Timers.LeastWait(old(timers.heap), timeout, asked, wait)
      ensures forall t :: t in old(timers.heap) && asked <= t.deadline ==> asked + wait <= t.deadline
    {
      scannedTill := FillChangeList();
      var now := clock.Now();
      asked := now;
      var till := timers.TillNextTimerOrTimeout(timeout, now);
      var duration := if till.Some? then till.value else 0;
      wait := duration;
      ok, applied := Kevent(duration);
      ghost var pass, fired;
      entries, pass, fired := ExpireTimers();
      expire := Expire(pass, fired, timers.heap);
    }

    // -------------------------------------------------------------- operate_completed_and_requeue

    /** What the ready events seen so far have come to. */
    ghost predicate Tried(calls0: seq<Call>, events: seq<Ready>, replies: seq<Answer>, entries: seq<Entry>)
      reads this
    {
      && |replies| == |events| && InRange(ioPending, events)
      && entries == Finished(ioPending, events, replies)
      && completedEventsIndices == Indices(CompletedAt(events, replies))
      && calls == calls0 + ReadyCalls(ioPending, events, replies)
    }

    /** One ready event whose index is in range. */
    method OperateEvent(event: Ready, entries: seq<Entry>, ghost calls0: seq<Call>, ghost seen: seq<Ready>,
                        ghost replies: seq<Answer>)
      returns (longer: seq<Entry>, ghost reply: Answer)
      requires Tried(calls0, seen, replies, entries) && event.index < |ioPending|
      modifies `completedEventsIndices, `calls
      ensures Tried(calls0, seen + [event], replies + [reply], longer)
    {
      var answer := None;
      if event.error.None? {
        answer := Operate(ioPending[event.index]);
      }
      longer, reply := entries, answer;
      if event.error.Some? {
        completedEventsIndices := completedEventsIndices + {event.index};
        longer := entries + [Entry(ioPending[event.index].userData, Err(event.error.value))];
      } else if answer.Some? {
        completedEventsIndices := completedEventsIndices + {event.index};
        longer := entries + [Entry(ioPending[event.index].userData, answer.value)];
      }
      EventSnoc(ioPending, calls0, seen, replies, event, reply);
    }

    /** The ready events, in order: `panicked` is the failed `expect("in range")`. */
    method OperateReady() returns (panicked: bool, entries: seq<Entry>, ghost replies: seq<Answer>)
      modifies `completedEventsIndices, `readyEvents, `calls
      ensures panicked <==> !InRange(ioPending, old(readyEvents))
      ensures !panicked ==> Tried(old(calls), old(readyEvents), replies, entries)
      ensures old(calls) <= calls
    {
      completedEventsIndices := {};
      var events := readyEvents;
      readyEvents := [];
      entries, replies := [], [];
      ghost var calls0 := calls;
      for k := 0 to |events|
        invariant Tried(calls0, events[..k], replies, entries)
      {
        TakeOneMore(events, k);
        var event := events[k];
        if event.index >= |ioPending| {
          return true, entries, replies;
        }
        ghost var reply;
        entries, reply := OperateEvent(event, entries, calls0, events[..k], replies);
        replies := replies + [reply];
      }
      assert events[..|events|] == events;
      panicked := false;
    }

    /** The first `scannedTill` operations go to the back, except those completed. */
    method Requeue(scannedTill: nat)
      requires scannedTill <= |ioPending|
      modifies `ioPending
      ensures ioPending == Requeued(old(ioPending), scannedTill, completedEventsIndices)
    {
      ghost var ops := ioPending;
      for index := 0 to scannedTill
        invariant ioPending == ops[index..] + Kept(ops[..index], completedEventsIndices)
      {
        assert ops[..index + 1][..index] == ops[..index];
        PopFront(ops, index, Kept(ops[..index], completedEventsIndices));
        var op := ioPending[0];
        ioPending := ioPending[1..];
        if index !in completedEventsIndices {
          ioPending := ioPending + [op];
        }
      }
    }

    method OperateCompletedAndRequeue(scannedTill: nat)
      returns (panicked: bool, entries: seq<Entry>, ghost replies: seq<Answer>)
      requires scannedTill <= |ioPending|
      modifies `completedEventsIndices, `ioPending, `readyEvents, `calls
      ensures panicked <==> !InRange(old(ioPending), old(readyEvents))
      ensures old(calls) <= calls
      ensures !panicked ==>
                && |replies| == old(|readyEvents|)
                && calls == old(calls) + ReadyCalls(old(ioPending), old(readyEvents), replies)
                && entries == Finished(old(ioPending), old(readyEvents), replies)
                && ioPending == Requeued(old(ioPending), scannedTill, Indices(CompletedAt(old(readyEvents), replies)))
    {
      panicked, entries, replies := OperateReady();
      if !panicked {
        Requeue(scannedTill);
      }
    }

    // -------------------------------------------------------------- submit

    /** The part of `submit` after the kernel has answered: it completes the steps begun. */
    method Rotate(scannedTill: nat, expired: seq<Entry>, ghost expire: Step, ghost wait: nat, ghost calls0: seq<Call>)
      returns (status: Status, entries: seq<Entry>, ghost steps: seq<Step>)
      requires scannedTill == Till(model) && expire.Expire? && expired == TimerEntries(expire.fired)
      requires Enabled(model, expire) && KernelMayReturn(Registered(model), readyEvents)
      requires squeue == model.squeue && ioPending == model.pending && timers.heap == expire.left
      requires squeueDrainedTill == model.limit && squeueCapacity == model.room && changeCapacity == model.cap
      requires model.end.StoredIndex?
      requires kqueue == Registered(model) - FiltersOf(readyEvents)
      requires calls == calls0 + [Waited(wait, true)]
      modifies `completedEventsIndices, `ioPending, `readyEvents, `model, `calls
      ensures AskingSteps(old(model), steps, status) && steps[0] == expire
      ensures status.Completed? || status.Panicked?
      ensures status.Panicked? <==> !InRange(old(ioPending), old(readyEvents))
      ensures AskingCalls(old(model), steps, status, wait, calls0, calls)
      ensures !status.Panicked? ==>
                && Tied()
                && AllEnabled(old(model), steps) && model == Run(old(model), steps)
                && model.delivered == old(model.delivered) + entries
    {
      ghost var s0, ready := model, readyEvents;
      var panicked, finished, replies := OperateCompletedAndRequeue(scannedTill);
      ghost var check := Check(ready, replies);
      entries, steps := expired + finished, [expire, check];
      if panicked {
        return Panicked, entries, steps;
      }
      ExpireThenCheck(s0, expire, ready, replies);
      TwoSteps(s0, expire, check);
      model := Run(s0, steps);
      status := Completed;
    }

    /** The half of `submit` that asks the kernel. */
    method WaitAndRequeue(timeout: Option<nat>)
      returns (status: Status, entries: seq<Entry>, ghost steps: seq<Step>, ghost asked: nat, ghost wait: nat)
      requires Tied() && Timely()
      modifies `eventsToChange, `toChangeFdReads, `toChangeFdWrites, `kqueue, `readyEvents, timers, clock
      modifies `completedEventsIndices, `ioPending, `model, `calls
      ensures Timely()
      ensures AskingSteps(old(model), steps, status)
      ensures old(clock.time) <= asked <= steps[0].now <= clock.time && timers.heap == steps[0].left
      ensures Enabled(old(model), steps[0]) && WaitIs(old(timers.heap), timeout, asked, wait)
      ensures AskingCalls(old(model), steps, status, wait, old(calls), calls)
      ensures !status.Panicked? ==>
                && Tied()
                && AllEnabled(old(model), steps) && model == Run(old(model), steps)
                && model.delivered == old(model.delivered) + entries
    {
      var ok, scannedTill, expired;
      ghost var applied, expire;
      ok, scannedTill, expired, applied, expire, asked, wait := CheckReadiness(timeout);
      if ok {
        status, entries, steps := Rotate(scannedTill, expired, expire, wait, old(calls));
      } else {
        status, entries, steps := KernelError, expired, [expire, CheckFailed(applied)];
        Refuse(expire, applied);
      }
    }

    /** Records that timers expired and the kernel refused. */
    ghost method Refuse(expire: Step, applied: nat)
      requires expire.Expire? && Enabled(model, expire) && applied <= |ChangeList(model)|
      requires squeue == model.squeue && ioPending == model.pending && timers.heap == expire.left
      requires squeueDrainedTill == model.limit && squeueCapacity == model.room && changeCapacity == model.cap
      requires model.end.StoredIndex?
      requires kqueue == Merged(model.table, ChangeList(model)[..applied])
      modifies `model
      ensures var steps := [expire, CheckFailed(applied)];
              && Tied()
              && AllEnabled(old(model), steps) && model == Run(old(model), steps)
              && model.delivered == old(model.delivered) + TimerEntries(expire.fired)
    {
      ExpireThenFail(model, expire, applied);
      model := Run(model, [expire, CheckFailed(applied)]);
    }

    /** The half of `submit` taken when nothing is left pending. */
    method OnlyExpire() returns (entries: seq<Entry>, ghost steps: seq<Step>)
      requires Tied() && Timely()
      modifies `model, timers, clock
      ensures Tied() && Timely()
      ensures |steps| == 1 && steps[0].Expire?
      ensures old(clock.time) <= steps[0].now <= clock.time && timers.heap == steps[0].left
      ensures AllEnabled(old(model), steps) && model == Run(old(model), steps)
      ensures model.delivered == old(model.delivered) + entries
    {
      ghost var now, fired;
      entries, now, fired := ExpireTimers();
      ghost var expire := Expire(now, fired, timers.heap);
      steps := [expire];
      Unfold(model, expire, []);
      model := Run(model, steps);
    }

    /** The part of `submit` after the drain. */
    method Finish(timeout: Option<nat>, opsPushed: bool)
      returns (status: Status, entries: seq<Entry>, ghost steps: seq<Step>, ghost asked: nat, ghost wait: nat)
      requires Tied() && Timely()
      modifies this, timers, clock
      ensures Timely() && trace == old(trace)
      ensures squeue == old(squeue) && squeueDrainedTill == old(squeueDrainedTill)
      ensures steps != [] && steps[0].Expire? && Enabled(old(model), steps[0]) && timers.heap == steps[0].left
      ensures old(clock.time) <= steps[0].now <= clock.time
      ensures if opsPushed && old(ioPending) == [] then
                |steps| == 1 && status.Completed? && calls == old(calls)
              else
                && AskingSteps(old(model), steps, status)
                && WaitIs(old(timers.heap), timeout, asked, wait) && old(clock.time) <= asked <= clock.time
                && AskingCalls(old(model), steps, status, wait, old(calls), calls)
      ensures !status.Panicked? ==>
                && Tied()
                && AllEnabled(old(model), steps) && model == Run(old(model), steps)
                && model.delivered == old(model.delivered) + entries
    {
      asked, wait := 0, 0;
      if opsPushed && ioPending == [] {
        status := Completed;
        entries, steps := OnlyExpire();
      } else {
        status, entries, steps, asked, wait := WaitAndRequeue(timeout);
      }
    }

    /** `submit` up to the recording of its steps. */
    method Advance(timeout: Option<nat>)
      returns (status: Status, entries: seq<Entry>, ghost steps: seq<Step>, ghost asked: nat, ghost wait: nat)
      requires Tied() && Timely()
      modifies this, timers, clock
      ensures Timely() && trace == old(trace) && squeue == [] && squeueDrainedTill == squeueCapacity
      ensures SubmitSteps(old(model), steps, status)
      ensures SubmitTimes(old(model), steps, old(clock.time), clock.time) && timers.heap == steps[1].left
      ensures |steps| == 3 ==> WaitIs(Next(old(model), steps[0]).timers, timeout, asked, wait)
                               && old(clock.time) <= asked <= clock.time
      ensures SubmitCalls(old(model), steps, status, wait, old(calls), calls)
      ensures !status.Panicked? ==>
                && Tied()
                && AllEnabled(old(model), steps) && model == Run(old(model), steps)
                && model.delivered == old(model.delivered) + entries
    {
      var opsPushed := |squeue| > 0;
      ghost var s0 := model;
      var first, drain := OperateSqueue();
      var more;
      ghost var rest;
      status, more, rest, asked, wait := Finish(timeout, opsPushed);
      entries, steps := first + more, [drain] + rest;
      assert steps[0] == drain && steps[1..] == rest && steps[1] == rest[0];
      if !status.Panicked? {
        Unfold(s0, drain, rest);
        Append3(s0.delivered, first, more);
      }
    }

    /**
     `submit` takes the steps it lists: the submission queue is drained, then, unless something
     was pushed and nothing is pending, the kernel is asked and the queue rotated; timers expire
     either way, all that are due and no other.  What it reports is what the steps deliver, in
     order.  It panics exactly when the kernel returns an index out of range, which the filters
     left over from before allow or not (`NoAnswerPanicsIff`); they do not while all of them are
     pending operations' and fit the change list.
     */
    method Submit(timeout: Option<nat>)
      returns (status: Status, entries: seq<Entry>, ghost steps: seq<Step>, ghost asked: nat, ghost wait: nat)
      requires Valid()
      modifies this, timers, clock
      ensures SubmitSteps(old(model), steps, status)
      ensures LeftoversInRange(Next(old(model), steps[0])) ==> !status.Panicked?
      ensures Fresh(old(model)) && Fits(Next(old(model), steps[0])) ==> !status.Panicked?
      // the kernel is left alone exactly when all that was pushed is done and nothing was pending
      ensures |steps| == 2 <==>
              && old(squeue) != [] && old(ioPending) == []
              && forall i :: 0 <= i < |old(squeue)| ==> steps[0].answers[i].Some?
      // timers fire when they are due, and not before
      ensures forall t :: t in timers.heap ==> old(clock.time) < t.deadline
      ensures forall t :: t in steps[1].fired ==> t.deadline <= clock.time
      ensures SubmitTimes(old(model), steps, old(clock.time), clock.time)
      // what is tried, and for how long the kernel is asked to wait
      ensures |steps| == 3 ==> WaitIs(Next(old(model), steps[0]).timers, timeout, asked, wait)
                               && old(clock.time) <= asked <= clock.time
      ensures SubmitCalls(old(model), steps, status, wait, old(calls), calls)
      ensures forall i :: 0 <= i < |old(squeue)| ==>
                            |old(calls)| + i < |calls|
                            && calls[|old(calls)| + i] == Operated(old(squeue)[i], steps[0].answers[i])
      ensures !status.Panicked? ==>
                && Valid() && trace == old(trace) + steps && model.delivered == old(model.delivered) + entries
                && CapacityLeft() == squeueCapacity
    {
      status, entries, steps, asked, wait := Advance(timeout);
      SubmitPanicsOnLeftoversOnly(old(model), steps, status);
      SubmitMeans(old(model), steps, status, wait, old(calls), calls, old(clock.time), clock.time);
      if !status.Panicked? {
        RunConcat(start, trace, steps);
        trace := trace + steps;
      }
    }
  }

  /** What the shape of the steps, their times and the calls come to. */
  lemma {:induction false} SubmitMeans(s: State, steps: seq<Step>, status: Status, wait: nat,
                                       before: seq<Call>, after: seq<Call>, from: nat, to: nat)
    requires SubmitSteps(s, steps, status) && SubmitTimes(s, steps, from, to)
    requires SubmitCalls(s, steps, status, wait, before, after)
    ensures |steps| == 2 <==>
            s.squeue != [] && s.pending == [] && forall i :: 0 <= i < |s.squeue| ==> steps[0].answers[i].Some?
    ensures forall t :: t in steps[1].left ==> from < t.deadline
    ensures forall t :: t in steps[1].fired ==> t.deadline <= to
    ensures forall i :: 0 <= i < |s.squeue| ==>
                          |before| + i < |after| && after[|before| + i] == Operated(s.squeue[i], steps[0].answers[i])
  {
    NothingBlockedIff(s.squeue, steps[0].answers);
    assert forall t :: t in steps[1].left ==> t in multiset(steps[1].left);
  }

  lemma {:induction false} NothingBlockedIff(ops: seq<Op>, answers: seq<Answer>)
    requires |ops| == |answers|
    ensures Blocked(ops, answers) == [] <==> forall i :: 0 <= i < |answers| ==> answers[i].Some?
  {
    BlockedInOrder(ops, answers);
    var flags := BlockedFlags(answers);
    if Blocked(ops, answers) == [] {
      forall i | 0 <= i < |answers| ensures answers[i].Some? {
        assert flags[i] ==> i in Where(flags);
      }
    } else {
      assert flags[Where(flags)[0]];
    }
  }

  /** The least of the timeout and the times to the deadlines, and zero with neither. */
  ghost predicate WaitIs(heap: seq<Timers.Timer>, timeout: Option<nat>, asked: nat, wait: nat) {
    if timeout.None? && heap == [] then wait == 0 else Timers.LeastWait(heap, timeout, asked, wait)
  }

  /** Clock readings are taken during the call, and exactly the timers due at the last of them fire. */
  ghost predicate SubmitTimes(s: State, steps: seq<Step>, from: nat, to: nat) {
    && |steps| >= 2 && steps[0].Drain? && steps[1].Expire? && Enabled(s, steps[0])
    && ReadBetween(steps[0].answers, steps[0].clock, from, to)
    && from <= steps[1].now <= to
    && Timers.Expired(multiset(Next(s, steps[0]).timers), steps[1].now, steps[1].fired, multiset(steps[1].left))
  }

  /** The kernel is waited for once, and then the ready operations are tried. */
  ghost predicate AskingCalls(s: State, steps: seq<Step>, status: Status, wait: nat,
                              before: seq<Call>, after: seq<Call>)
  {
    && |steps| == 2
    && match status
       case Completed =>
         && steps[1].Check? && |steps[1].ready| == |steps[1].replies| && InRange(s.pending, steps[1].ready)
         && after == before + [Waited(wait, true)] + ReadyCalls(s.pending, steps[1].ready, steps[1].replies)
       case KernelError => after == before + [Waited(wait, false)]
       case Panicked => before + [Waited(wait, true)] <= after
  }

  /** Every drained operation is tried, in order, before that. */
  ghost predicate SubmitCalls(s: State, steps: seq<Step>, status: Status, wait: nat,
                              before: seq<Call>, after: seq<Call>)
  {
    && steps != [] && steps[0].Drain? && Enabled(s, steps[0])
    && var tried := before + DrainCalls(s.squeue, steps[0].answers);
    if |steps| == 2 then after == tried
    else AskingCalls(Next(s, steps[0]), steps[1..], status, wait, tried, after)
  }

  /** The steps of the half of `submit` that asks the kernel, panicking exactly on an index out of range. */
  ghost predicate AskingSteps(s: State, steps: seq<Step>, status: Status) {
    && |steps| == 2 && steps[0].Expire?
    && match status
       case Completed => steps[1].Check? && InRange(s.pending, steps[1].ready)
       case KernelError => steps[1].CheckFailed?
       case Panicked =>
         && steps[1].Check? && KernelMayReturn(Registered(s), steps[1].ready)
         && !InRange(s.pending, steps[1].ready)
  }

  ghost predicate SubmitSteps(s: State, steps: seq<Step>, status: Status) {
    && steps != [] && steps[0].Drain? && Enabled(s, steps[0])
    && if s.squeue != [] && Next(s, steps[0]).pending == [] then
         |steps| == 2 && steps[1].Expire? && status.Completed?
       else
         AskingSteps(Next(s, steps[0]), steps[1..], status)
  }

  lemma SubmitPanicsOnLeftoversOnly(s: State, steps: seq<Step>, status: Status)
    requires SubmitSteps(s, steps, status)
    ensures LeftoversInRange(Next(s, steps[0])) ==> !status.Panicked?
    ensures Fresh(s) && Fits(Next(s, steps[0])) ==> !status.Panicked?
  {
    var t := Next(s, steps[0]);
    NoAnswerPanicsIff(t);
    if Fresh(s) && Fits(t) {
      StepKeepsFresh(s, steps[0]);
      FreshLeftoversAreInRange(t);
    }
  }

  method Position(ops: seq<Op>, key: nat) returns (pos: Option<nat>)
    ensures pos == Find(ops, key)
  {
    var i := 0;
    while i < |ops|
      invariant 0 <= i <= |ops|
      invariant Find(ops, key) == FindFrom(ops, key, i)
    {
      if ops[i].userData == key {
        return Some(i);
      }
      i := i + 1;
    }
    pos := None;
  }

  /** The two bit sets hold exactly the descriptors seen in each direction. */
  ghost predicate SeenExactly(readFds: set<nat>, writeFds: set<nat>, seen: seq<Op>) {
    forall fd: nat :: (fd in readFds <==> Occurs(seen, Read(fd))) && (fd in writeFds <==> Occurs(seen, Write(fd)))
  }

  lemma SeenOneMore(readFds: set<nat>, writeFds: set<nat>, seen: seq<Op>, op: Op)
    requires SeenExactly(readFds, writeFds, seen)
    ensures Occurs(seen, op.filter) <==> if op.filter.Read? then op.filter.fd in readFds else op.filter.fd in writeFds
    ensures SeenExactly(if op.filter.Read? then readFds + {op.filter.fd} else readFds,
                        if op.filter.Write? then writeFds + {op.filter.fd} else writeFds, seen + [op])
  {
    forall f: Filter
      ensures Occurs(seen + [op], f) <==> Occurs(seen, f) || f == op.filter
    {
      if Occurs(seen, f) {
        var i :| 0 <= i < |seen| && seen[i].filter == f;
        assert (seen + [op])[i].filter == f;
      }
      assert (seen + [op])[|seen|] == op;
    }
  }

  lemma OperatedOneMore(ops: seq<Op>, answers: seq<Answer>, readings: seq<nat>, op: Op, answer: Answer, now: nat)
    requires |ops| == |answers| == |readings|
    ensures Blocked(ops + [op], answers + [answer]) == Blocked(ops, answers) + if answer.None? then [op] else []
    ensures Started(ops + [op], answers + [answer], readings + [now])
            == Started(ops, answers, readings)
               + if WantsTimer(answer) then [Timers.Timer(op.userData, now + op.delay)] else []
    ensures DoneAtOnce(ops + [op], answers + [answer])
            == DoneAtOnce(ops, answers)
               + if answer.None? || WantsTimer(answer) then [] else [Entry(op.userData, answer.value)]
    ensures DrainCalls(ops + [op], answers + [answer]) == DrainCalls(ops, answers) + [Operated(op, answer)]
  {
    var n := |ops|;
    assert (ops + [op])[..n] == ops && (answers + [answer])[..n] == answers && (readings + [now])[..n] == readings;
  }

  lemma PopFront(ops: seq<Op>, index: nat, kept: seq<Op>)
    requires index < |ops|
    ensures var queue := ops[index..] + kept;
            queue[0] == ops[index] && queue[1..] == ops[index + 1..] + kept
            && queue[1..] + [ops[index]] == ops[index + 1..] + (kept + [ops[index]])
  {
    assert (ops[index..] + kept)[1..] == ops[index + 1..] + kept;
  }

  lemma {:induction false} EventSnoc(pending: seq<Op>, calls0: seq<Call>, seen: seq<Ready>, replies: seq<Answer>,
                                     event: Ready, reply: Answer)
    requires |seen| == |replies| && InRange(pending, seen) && event.index < |pending|
    ensures var events, answers := seen + [event], replies + [reply];
            && InRange(pending, events)
            && Finished(pending, events, answers) == Finished(pending, seen, replies) +
               (if event.error.Some? || reply.Some?
                then [Entry(pending[event.index].userData, Outcome(event, reply))] else [])
            && Indices(CompletedAt(events, answers)) == Indices(CompletedAt(seen, replies)) +
               (if event.error.Some? || reply.Some? then {event.index} else {})
            && calls0 + ReadyCalls(pending, events, answers) == calls0 + ReadyCalls(pending, seen, replies) +
               (if event.error.Some? then [] else [Operated(pending[event.index], reply)])
  {
    var events, answers := seen + [event], replies + [reply];
    assert events[..|seen|] == seen && answers[..|seen|] == replies;
    CompletedSnoc(events, answers);
    Append3(calls0, ReadyCalls(pending, seen, replies),
            if event.error.Some? then [] else [Operated(pending[event.index], reply)]);
  }

  lemma CompletedSnoc(events: seq<Ready>, replies: seq<Answer>)
    requires |events| == |replies| > 0
    ensures var n := |events| - 1;
            Indices(CompletedAt(events, replies)) ==
            Indices(CompletedAt(events[..n], replies[..n])) +
            if events[n].error.Some? || replies[n].Some? then {events[n].index} else {}
  {
    var n := |events| - 1;
    var at := CompletedAt(events[..n], replies[..n]);
    forall x
      ensures x in Indices(at + [events[n].index]) <==> x in Indices(at) || x == events[n].index
    {
      var longer := at + [events[n].index];
      assert longer[|at|] == events[n].index;
      assert forall i :: 0 <= i < |at| ==> longer[i] == at[i];
    }
    assert at + [] == at;
  }
}
