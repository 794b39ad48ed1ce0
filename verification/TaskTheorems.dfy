/**
 What holds over every run of the task runtime whose driver reports only what it holds.
 */
module TaskTheorems {
  import opened Wrappers
  import opened TaskRuns

  // ---------------------------------------------------------------- frames

  /** A task is none the worse for a step that left it, its slot and its report alone. */
  lemma TaskFrame(s: State, t: State, id: nat)
    requires id < |s.tasks| && id < |t.tasks| && t.tasks[id] == s.tasks[id] && TaskOk(s, id)
    requires Owns(s, id) <==> Owns(t, id)
    requires Owns(s, id) ==> t.slab[s.tasks[id].key] == s.slab[s.tasks[id].key]
    requires id in s.runnables ==> id in t.runnables
    requires id in s.reported <==> id in t.reported
    requires id in s.reported ==> t.reported[id] == s.reported[id]
    ensures TaskOk(t, id)
  {
  }

  lemma SlotFrame(s: State, t: State, key: nat)
    requires key in s.slab && key in t.slab && t.slab[key] == s.slab[key] && SlotOk(s, key)
    requires var id := s.slab[key].op.id;
             && id < |t.tasks| && t.tasks[id].key == s.tasks[id].key && t.tasks[id].op == s.tasks[id].op
             && (id in s.reported <==> id in t.reported)
             && (id in s.reported ==> t.reported[id] == s.reported[id])
    requires (key in s.inflight || Waiting(s, key)) <==> (key in t.inflight || Waiting(t, key))
    ensures SlotOk(t, key)
  {
  }

  // ---------------------------------------------------------------- every step keeps the invariant

  lemma SubmitKeepsTasks(s: State, what: nat, key: nat, accepted: bool)
    requires Inv(s) && key !in s.slab
    ensures TasksOk(Submitted(s, what, key, accepted))
  {
    var t := Submitted(s, what, key, accepted);
    forall id | 0 <= id < |t.tasks| ensures TaskOk(t, id) {
      if id < |s.tasks| {
        assert TaskOk(s, id);
        TaskFrame(s, t, id);
      } else {
        assert t.runnables[|s.runnables|] == id;
      }
    }
  }

  lemma SubmitKeepsSlots(s: State, what: nat, key: nat, accepted: bool)
    requires Inv(s) && key !in s.slab
    ensures SlotsOk(Submitted(s, what, key, accepted))
  {
    var t := Submitted(s, what, key, accepted);
    forall k | k in t.slab ensures SlotOk(t, k) {
      if k != key {
        assert SlotOk(s, k);
        assert Waiting(t, k) <==> Waiting(s, k) by {
          assert forall i :: 0 <= i < |s.unqueuedOps| ==> t.unqueuedOps[i] == s.unqueuedOps[i];
        }
        SlotFrame(s, t, k);
      } else {
        assert !accepted ==> t.unqueuedOps[|s.unqueuedOps|].key == key;
      }
    }
  }

  lemma SubmitKeepsInv(s: State, what: nat, key: nat, accepted: bool)
    requires Inv(s) && key !in s.slab
    ensures Inv(Submitted(s, what, key, accepted))
  {
    SubmitKeepsTasks(s, what, key, accepted);
    SubmitKeepsSlots(s, what, key, accepted);
    SubmitKeepsQueues(s, what, key, accepted);
    SubmitKeepsDriver(s, what, key, accepted);
  }

  lemma SubmitKeepsQueues(s: State, what: nat, key: nat, accepted: bool)
    requires QueueOk(s) && CancelsOk(s)
    ensures var t := Submitted(s, what, key, accepted); QueueOk(t) && CancelsOk(t)
  {
  }

  lemma SubmitKeepsDriver(s: State, what: nat, key: nat, accepted: bool)
    requires DriverOk(s) && key !in s.slab
    ensures DriverOk(Submitted(s, what, key, accepted))
  {
  }

  lemma CloseKeepsTasks(s: State, id: nat)
    requires Inv(s) && id < |s.tasks| && s.tasks[id].phase.Live?
    ensures TasksOk(Closing(s, id))
  {
    var t := Closing(s, id);
    assert id in t.runnables by {
      assert id !in s.runnables ==> t.runnables[|s.runnables|] == id;
    }
    forall i | 0 <= i < |t.tasks| ensures TaskOk(t, i) {
      assert TaskOk(s, i);
      if i != id { TaskFrame(s, t, i); }
    }
  }

  lemma CloseKeepsInv(s: State, id: nat)
    requires Inv(s) && id < |s.tasks|
    ensures Inv(Closing(s, id))
  {
    var t := Closing(s, id);
    if s.tasks[id].phase.Live? {
      CloseKeepsTasks(s, id);
      forall k | k in t.slab ensures SlotOk(t, k) {
        assert SlotOk(s, k);
        assert Waiting(t, k) <==> Waiting(s, k);
        SlotFrame(s, t, k);
      }
      assert QueueOk(t);
      assert DriverOk(t);
      assert CancelsOk(t);
    }
  }

  /** The task at the front of the run queue, popped, is no other task's concern. */
  lemma PollKeepsTasks(s: State)
    requires Inv(s) && s.runnables != [] && s.tasks[s.runnables[0]].phase.Live?
    ensures TasksOk(Ran(s, true))
  {
    var t, id := Ran(s, true), s.runnables[0];
    assert TaskOk(s, id) && SlotOk(s, s.tasks[id].key);
    forall i | 0 <= i < |t.tasks| ensures TaskOk(t, i) {
      assert TaskOk(s, i);
      if i != id {
        assert i in s.runnables ==> i in t.runnables;
        TaskFrame(s, t, i);
      }
    }
  }

  lemma PollKeepsSlots(s: State)
    requires Inv(s) && s.runnables != [] && s.tasks[s.runnables[0]].phase.Live?
    ensures SlotsOk(Ran(s, true))
  {
    var t, id := Ran(s, true), s.runnables[0];
    assert TaskOk(s, id);
    forall k | k in t.slab ensures SlotOk(t, k) {
      assert SlotOk(s, k);
      assert Waiting(t, k) <==> Waiting(s, k);
      if k != s.tasks[id].key { SlotFrame(s, t, k); }
    }
  }

  lemma PollKeepsInv(s: State)
    requires Inv(s) && s.runnables != [] && s.tasks[s.runnables[0]].phase.Live?
    ensures Inv(Ran(s, true))
  {
    PollKeepsTasks(s);
    PollKeepsSlots(s);
    PollKeepsQueues(s);
    PollKeepsDriver(s);
  }

  lemma PollKeepsQueues(s: State)
    requires QueueOk(s) && CancelsOk(s) && s.runnables != [] && s.tasks[s.runnables[0]].phase.Live?
    ensures QueueOk(Ran(s, true)) && CancelsOk(Ran(s, true))
  {
  }

  /** A slot with a result is no longer the driver's business, so its key can be given back. */
  lemma PollKeepsDriver(s: State)
    requires SlotsOk(s) && DriverOk(s) && s.runnables != []
    requires s.runnables[0] < |s.tasks| && s.tasks[s.runnables[0]].phase.Live?
    ensures DriverOk(Ran(s, true))
  {
    var key := s.tasks[s.runnables[0]].key;
    assert key in s.slab ==> SlotOk(s, key);
  }

  lemma CancelKeepsTasks(s: State, accepted: bool)
    requires Inv(s) && s.runnables != [] && s.tasks[s.runnables[0]].phase.Closed?
    ensures TasksOk(Ran(s, accepted))
  {
    var t, id := Ran(s, accepted), s.runnables[0];
    assert TaskOk(s, id) && SlotOk(s, s.tasks[id].key);
    forall i | 0 <= i < |t.tasks| ensures TaskOk(t, i) {
      assert TaskOk(s, i);
      if i != id {
        assert i in s.runnables ==> i in t.runnables;
        TaskFrame(s, t, i);
      }
    }
  }

  lemma CancelKeepsSlots(s: State, accepted: bool)
    requires Inv(s) && s.runnables != [] && s.tasks[s.runnables[0]].phase.Closed?
    ensures SlotsOk(Ran(s, accepted))
  {
    var t, id := Ran(s, accepted), s.runnables[0];
    assert TaskOk(s, id);
    forall k | k in t.slab ensures SlotOk(t, k) {
      assert SlotOk(s, k);
      assert Waiting(t, k) <==> Waiting(s, k);
      if k != s.tasks[id].key { SlotFrame(s, t, k); }
    }
  }

  lemma CancelKeepsQueues(s: State, accepted: bool)
    requires QueueOk(s) && DriverOk(s) && s.runnables != [] && s.tasks[s.runnables[0]].phase.Closed?
    ensures QueueOk(Ran(s, accepted)) && DriverOk(Ran(s, accepted))
  {
  }

  /** A cancel is logged, or deferred, under the key of the slot its own future still owns. */
  lemma CancelKeepsCancels(s: State, id: nat, accepted: bool)
    requires CancelsOk(s) && id < |s.tasks| && s.tasks[id].phase.Closed? && TaskOk(s, id)
    requires DriverOk(s) && SlotOk(s, s.tasks[id].key)
    ensures CancelsOk(Cancelled(s, id, accepted))
  {
    HandingReachesIff(s, id);
  }

  /** An operation that owns its slot is with the driver, in overflow, or reported: exactly one of these. */
  lemma HandingReachesIff(s: State, id: nat)
    requires DriverOk(s) && id < |s.tasks| && s.tasks[id].op.id == id && Owns(s, id) && SlotOk(s, s.tasks[id].key)
    ensures var h := Handing(s, s.tasks[id].key, id);
            h.owner == Some(id) && (h.held <==> !h.overflown && !h.reported)
  {
  }

  lemma CancelKeepsInv(s: State, accepted: bool)
    requires Inv(s) && s.runnables != [] && s.tasks[s.runnables[0]].phase.Closed?
    ensures Inv(Ran(s, accepted))
  {
    CancelKeepsTasks(s, accepted);
    CancelKeepsSlots(s, accepted);
    CancelKeepsQueues(s, accepted);
    var t, id := Ran(s, accepted), s.runnables[0];
    assert TaskOk(s, id);
    assert CancelsOk(t) by {
      assert SlotOk(s, s.tasks[id].key);
      CancelKeepsCancels(s, id, accepted);
      assert t == Cancelled(s, id, accepted).(runnables := t.runnables);
    }
  }

  lemma HandOverKeepsInv(s: State)
    requires Inv(s) && s.unqueuedCancels != []
    ensures Inv(HandedOver(s))
  {
    var t, c := HandedOver(s), s.unqueuedCancels[0];
    assert TaskOk(s, c.id) && SlotOk(s, c.key);
    HandingReachesIff(s, c.id);
    forall i | 0 <= i < |t.tasks| ensures TaskOk(t, i) {
      assert TaskOk(s, i);
      TaskFrame(s, t, i);
    }
    forall k | k in t.slab ensures SlotOk(t, k) {
      assert SlotOk(s, k);
      assert Waiting(t, k) <==> Waiting(s, k);
      SlotFrame(s, t, k);
    }
    assert CancelsOk(t);
  }

  lemma PushKeepsInv(s: State)
    requires Inv(s) && s.unqueuedOps != []
    ensures Inv(Pushed(s))
    ensures s.unqueuedOps[0].key !in s.inflight
  {
    var t := Pushed(s);
    forall i | 0 <= i < |t.tasks| ensures TaskOk(t, i) {
      assert TaskOk(s, i);
      TaskFrame(s, t, i);
    }
    PushKeepsSlots(s);
    assert DriverOk(t);
  }

  lemma PushKeepsSlots(s: State)
    requires SlotsOk(s) && DriverOk(s) && s.unqueuedOps != []
    ensures SlotsOk(Pushed(s))
  {
    var t, q := Pushed(s), s.unqueuedOps[0];
    forall k | k in t.slab ensures SlotOk(t, k) {
      assert SlotOk(s, k);
      assert Waiting(s, k) <==> Waiting(t, k) || k == q.key by {
        assert forall i :: 0 <= i < |t.unqueuedOps| ==> t.unqueuedOps[i] == s.unqueuedOps[i + 1];
        if Waiting(s, k) && k != q.key {
          var i :| 0 <= i < |s.unqueuedOps| && s.unqueuedOps[i].key == k;
          assert t.unqueuedOps[i - 1].key == k;
        }
      }
      SlotFrame(s, t, k);
    }
  }

  lemma DeliverKeepsTasks(s: State, e: Entry)
    requires Inv(s) && e.key in s.inflight && s.inflight[e.key] == e.origin
    ensures TasksOk(Delivered(s, e))
  {
    var t := Delivered(s, e);
    assert SlotOk(s, e.key);
    forall i | 0 <= i < |t.tasks| ensures TaskOk(t, i) {
      assert TaskOk(s, i);
      if i != e.origin { TaskFrame(s, t, i); }
      else {
        assert i !in s.runnables && s.tasks[i].phase.Live? ==> t.runnables[|s.runnables|] == i;
      }
    }
  }

  lemma DeliverKeepsSlots(s: State, e: Entry)
    requires Inv(s) && e.key in s.inflight && s.inflight[e.key] == e.origin
    ensures SlotsOk(Delivered(s, e))
  {
    var t := Delivered(s, e);
    assert SlotOk(s, e.key);
    forall k | k in t.slab ensures SlotOk(t, k) {
      assert SlotOk(s, k);
      assert Waiting(t, k) <==> Waiting(s, k);
      if k != e.key { SlotFrame(s, t, k); }
    }
  }

  lemma DeliverKeepsInv(s: State, e: Entry)
    requires Inv(s) && e.key in s.inflight && s.inflight[e.key] == e.origin
    ensures Inv(Delivered(s, e))
  {
    DeliverKeepsTasks(s, e);
    DeliverKeepsSlots(s, e);
    var t := Delivered(s, e);
    assert SlotOk(s, e.key);
    assert QueueOk(t);
    assert DriverOk(t);
    assert CancelsOk(t);
  }

  lemma {:induction false} HandOverManyKeepsInv(s: State, n: nat)
    requires Inv(s) && n <= |s.unqueuedCancels|
    ensures Inv(HandedOverMany(s, n))
    decreases n
  {
    if n > 0 {
      HandOverKeepsInv(s);
      HandOverManyKeepsInv(HandedOver(s), n - 1);
    }
  }

  lemma {:induction false} PushManyKeepsInv(s: State, n: nat) returns (t: State)
    requires Inv(s) && n <= |s.unqueuedOps|
    ensures t == PushedMany(s, n) && Inv(t)
    decreases n
  {
    if n == 0 {
      return s;
    }
    PushOneOfMany(s, n);
    t := PushManyKeepsInv(Pushed(s), n - 1);
  }

  lemma PushOneOfMany(s: State, n: nat)
    requires Inv(s) && 0 < n <= |s.unqueuedOps|
    ensures Inv(Pushed(s)) && PushedMany(s, n) == PushedMany(Pushed(s), n - 1)
  {
    PushKeepsInv(s);
  }

  lemma OfferKeepsInv(s: State, cancels: nat, pushes: nat)
    requires Inv(s) && cancels <= |s.unqueuedCancels| && pushes <= |s.unqueuedOps|
    ensures Inv(Offered(s, cancels, pushes))
  {
    HandOverManyKeepsInv(s, cancels);
    var _ := PushManyKeepsInv(HandedOverMany(s, cancels), pushes);
  }

  lemma HonestStep(s: State, entries: seq<Entry>)
    requires Inv(s) && Honest(s.inflight, entries) && entries != []
    ensures Inv(Delivered(s, entries[0])) && Honest(Delivered(s, entries[0]).inflight, entries[1..])
  {
    DeliverKeepsInv(s, entries[0]);
  }

  lemma {:induction false} DeliverAllKeepsInv(s: State, entries: seq<Entry>)
    requires Inv(s) && Honest(s.inflight, entries)
    ensures Inv(DeliveredAll(s, entries))
    decreases |entries|
  {
    if entries != [] {
      HonestStep(s, entries);
      DeliverAllKeepsInv(Delivered(s, entries[0]), entries[1..]);
    }
  }

  lemma StepKeepsInv(s: State, step: Step)
    requires Inv(s) && Enabled(s, step)
    ensures Inv(Next(s, step))
  {
    match step
    case Submit(what, key, accepted) => SubmitKeepsInv(s, what, key, accepted);
    case DropHandle(id) => CloseKeepsInv(s, id);
    case RunNext(accepted) =>
      if s.tasks[s.runnables[0]].phase.Live? {
        PollKeepsInv(s);
      } else {
        CancelKeepsInv(s, accepted);
      }
    case Poll(cancels, pushes, entries) =>
      OfferKeepsInv(s, cancels, pushes);
      DeliverAllKeepsInv(Offered(s, cancels, pushes), entries);
  }

  lemma {:induction false} RunKeepsInv(s: State, steps: seq<Step>)
    requires Inv(s) && AllEnabled(s, steps)
    ensures Inv(Run(s, steps))
    decreases |steps|
  {
    if steps != [] {
      StepKeepsInv(s, steps[0]);
      RunKeepsInv(Next(s, steps[0]), steps[1..]);
    }
  }

  // ---------------------------------------------------------------- what the trace says

  /** The operations submitted, in order. */
  function Whats(steps: seq<Step>): seq<nat> {
    if steps == [] then []
    else (if steps[0].Submit? then [steps[0].what] else []) + Whats(steps[1..])
  }

  /** The driver's reports, in order. */
  function Reports(steps: seq<Step>): seq<Entry> {
    if steps == [] then []
    else (if steps[0].Poll? then steps[0].entries else []) + Reports(steps[1..])
  }

  predicate SameSubmissions(a: seq<Task>, b: seq<Task>) {
    |a| <= |b| && forall i :: 0 <= i < |a| ==> b[i].key == a[i].key && b[i].op == a[i].op
  }

  lemma {:induction false} DeliverAllKeepsTasks(s: State, entries: seq<Entry>)
    ensures DeliveredAll(s, entries).tasks == s.tasks
    decreases |entries|
  {
    if entries != [] {
      DeliverAllKeepsTasks(Delivered(s, entries[0]), entries[1..]);
    }
  }

  lemma StepKeepsSubmissions(s: State, step: Step)
    requires Enabled(s, step)
    ensures SameSubmissions(s.tasks, Next(s, step).tasks) && Holds(Next(s, step).tasks, |s.tasks|, Whats([step]))
  {
    if step.Poll? {
      DeliverAllKeepsTasks(Offered(s, step.cancels, step.pushes), step.entries);
    }
  }

  /** The tasks from the `n`-th on hold these operations, in order. */
  predicate Holds(tasks: seq<Task>, n: nat, whats: seq<nat>) {
    |tasks| == n + |whats| && forall i :: n <= i < |tasks| ==> tasks[i].op == Op(i, whats[i - n])
  }

  lemma HoldsInTwo(u: seq<Task>, t: seq<Task>, n: nat, a: seq<nat>, b: seq<nat>)
    requires Holds(u, n, a) && Holds(t, |u|, b) && SameSubmissions(u, t)
    ensures Holds(t, n, a + b)
  {
  }

  /** The n-th task holds the n-th operation submitted, whatever happened since. */
  lemma {:induction false} TasksAreSubmissions(s: State, steps: seq<Step>)
    requires AllEnabled(s, steps)
    ensures SameSubmissions(s.tasks, Run(s, steps).tasks)
    ensures Holds(Run(s, steps).tasks, |s.tasks|, Whats(steps))
    decreases |steps|
  {
    if steps != [] {
      var u := Next(s, steps[0]);
      StepKeepsSubmissions(s, steps[0]);
      TasksAreSubmissions(u, steps[1..]);
      HoldsInTwo(u.tasks, Run(s, steps).tasks, |s.tasks|, Whats([steps[0]]), Whats(steps[1..]));
      assert Whats(steps) == Whats([steps[0]]) + Whats(steps[1..]);
    }
  }

  /** How many of the reports are about submission `id`. */
  function About(entries: seq<Entry>, id: nat): nat {
    if entries == [] then 0
    else (if entries[0].origin == id then 1 else 0) + About(entries[1..], id)
  }

  lemma {:induction false} AboutConcat(a: seq<Entry>, b: seq<Entry>, id: nat)
    ensures About(a + b, id) == About(a, id) + About(b, id)
  {
    if a == [] {
      assert a + b == b;
    } else {
      assert (a + b)[1..] == a[1..] + b;
      AboutConcat(a[1..], b, id);
    }
  }

  lemma {:induction false} AboutFound(entries: seq<Entry>, id: nat) returns (e: Entry)
    requires About(entries, id) > 0
    ensures e in entries && e.origin == id
  {
    if entries[0].origin == id {
      e := entries[0];
    } else {
      e := AboutFound(entries[1..], id);
    }
  }

  function Once(reported: map<nat, IoResult>, id: nat): nat {
    if id in reported then 1 else 0
  }

  /** Reports about `id` agree with what is recorded for it, and are made under its key. */
  predicate Consistent(t: State, entries: seq<Entry>, id: nat) {
    forall e :: e in entries && e.origin == id ==>
                  && id < |t.tasks| && e.key == t.tasks[id].key
                  && id in t.reported && t.reported[id] == e.result
  }

  predicate Recorded(s: State, t: State, entries: seq<Entry>, id: nat) {
    && Once(t.reported, id) == Once(s.reported, id) + About(entries, id)
    && (id in s.reported ==> id in t.reported && t.reported[id] == s.reported[id])
    && Consistent(t, entries, id)
  }

  lemma DeliverRecords(s: State, e: Entry, id: nat)
    requires Inv(s) && e.key in s.inflight && s.inflight[e.key] == e.origin
    ensures Recorded(s, Delivered(s, e), [e], id)
  {
    assert SlotOk(s, e.key);
  }

  /** Two stretches of reports, one after the other. */
  lemma RecordedInTwo(s: State, u: State, t: State, a: seq<Entry>, b: seq<Entry>, id: nat)
    requires Recorded(s, u, a, id) && Recorded(u, t, b, id) && SameSubmissions(u.tasks, t.tasks)
    ensures Recorded(s, t, a + b, id)
  {
    AboutConcat(a, b, id);
  }

  lemma {:induction false} DeliverAllRecords(s: State, entries: seq<Entry>, id: nat)
    requires Inv(s) && Honest(s.inflight, entries)
    ensures Recorded(s, DeliveredAll(s, entries), entries, id)
    decreases |entries|
  {
    if entries != [] {
      var e, rest := entries[0], entries[1..];
      var u := Delivered(s, e);
      HonestStep(s, entries);
      DeliverRecords(s, e, id);
      DeliverAllRecords(u, rest, id);
      DeliverOneMore(s, e, rest, id);
      assert [e] + rest == entries;
    }
  }

  lemma DeliverOneMore(s: State, e: Entry, rest: seq<Entry>, id: nat)
    requires Recorded(s, Delivered(s, e), [e], id)
    requires Recorded(Delivered(s, e), DeliveredAll(Delivered(s, e), rest), rest, id)
    ensures Recorded(s, DeliveredAll(Delivered(s, e), rest), [e] + rest, id)
  {
    var u := Delivered(s, e);
    DeliverAllKeepsTasks(u, rest);
    RecordedInTwo(s, u, DeliveredAll(u, rest), [e], rest, id);
  }

  lemma StepRecords(s: State, step: Step, id: nat)
    requires Inv(s) && Enabled(s, step)
    ensures Recorded(s, Next(s, step), Reports([step]), id)
  {
    assert Reports([step]) == if step.Poll? then step.entries else [];
    if step.Poll? {
      OfferKeepsInv(s, step.cancels, step.pushes);
      DeliverAllRecords(Offered(s, step.cancels, step.pushes), step.entries, id);
    }
  }

  /** Over a whole run, each submission is reported at most once, and what is recorded is that. */
  lemma {:induction false} RunRecords(s: State, steps: seq<Step>, id: nat)
    requires Inv(s) && AllEnabled(s, steps)
    ensures Recorded(s, Run(s, steps), Reports(steps), id)
    decreases |steps|
  {
    if steps != [] {
      var u := Next(s, steps[0]);
      StepKeepsInv(s, steps[0]);
      StepRecords(s, steps[0], id);
      RunRecords(u, steps[1..], id);
      StepAndRunRecord(s, steps, id);
    }
  }

  lemma StepAndRunRecord(s: State, steps: seq<Step>, id: nat)
    requires steps != [] && AllEnabled(s, steps)
    requires Recorded(s, Next(s, steps[0]), Reports([steps[0]]), id)
    requires Recorded(Next(s, steps[0]), Run(Next(s, steps[0]), steps[1..]), Reports(steps[1..]), id)
    ensures Recorded(s, Run(s, steps), Reports(steps), id)
  {
    var u := Next(s, steps[0]);
    TasksAreSubmissions(u, steps[1..]);
    RecordedInTwo(s, u, Run(u, steps[1..]), Reports([steps[0]]), Reports(steps[1..]), id);
    assert Reports(steps) == Reports([steps[0]]) + Reports(steps[1..]);
  }

  // ---------------------------------------------------------------- the theorems

  /**
   Every future that resolves yields the operation of its own submission and the one result the
   driver reported for that submission, however often slab keys were reused in between.
   */
  lemma FuturesResolveToTheirOwn(s: State, steps: seq<Step>, id: nat)
    requires Initial(s) && AllEnabled(s, steps) && id < |Run(s, steps).tasks|
    ensures var t := Run(s, steps);
            && |Whats(steps)| == |t.tasks|
            && About(Reports(steps), id) <= 1
            && (t.tasks[id].phase.Resolved? ==>
                  && t.tasks[id].phase.op == Op(id, Whats(steps)[id])
                  && Entry(t.tasks[id].key, id, t.tasks[id].phase.result) in Reports(steps))
  {
    var t := Run(s, steps);
    RunKeepsInv(s, steps);
    TasksAreSubmissions(s, steps);
    RunRecords(s, steps, id);
    assert TaskOk(t, id);
    if t.tasks[id].phase.Resolved? {
      var e := AboutFound(Reports(steps), id);
    }
  }

  /**
   No wake-up is lost: an unresolved future whose handle exists owns its slot, and its task is in
   the run queue or its waker is in the slot, awaiting a result.  When the run queue is empty, so
   that the driver is polled next, none of them has an undelivered result, and each of their
   operations is with the driver or in line for it.
   */
  lemma NoWakeUpIsLost(s: State, steps: seq<Step>, id: nat)
    requires Initial(s) && AllEnabled(s, steps)
    requires id < |Run(s, steps).tasks| && Run(s, steps).tasks[id].phase.Live?
    ensures var t := Run(s, steps);
            && Owns(t, id) && Awake(t, id)
            && (t.runnables == [] ==>
                  && About(Reports(steps), id) == 0
                  && (Waiting(t, t.tasks[id].key) ||
                      (t.tasks[id].key in t.inflight && t.inflight[t.tasks[id].key] == id)))
  {
    var t := Run(s, steps);
    RunKeepsInv(s, steps);
    RunRecords(s, steps, id);
    assert TaskOk(t, id);
    assert SlotOk(t, t.tasks[id].key);
  }

  /**
   The driver is asked to block only when it took everything there was to push, and then it
   holds the operation of every future that may still be awaited.
   */
  lemma BlocksOnlyOnHeldOperations(s: State, steps: seq<Step>, cancels: nat, id: nat)
    requires Initial(s) && AllEnabled(s, steps)
    requires var t := Run(s, steps);
             && t.runnables == [] && cancels <= |t.unqueuedCancels|
             && id < |t.tasks| && t.tasks[id].phase.Live?
    ensures var t := Run(s, steps);
            var u := Offered(t, cancels, |t.unqueuedOps|);
            t.tasks[id].key in u.inflight && u.inflight[t.tasks[id].key] == id
  {
    var t := Run(s, steps);
    RunKeepsInv(s, steps);
    HeldOnceOffered(t, cancels, id);
  }

  lemma HeldOnceOffered(t: State, cancels: nat, id: nat)
    requires Inv(t) && t.runnables == [] && cancels <= |t.unqueuedCancels|
    requires id < |t.tasks| && t.tasks[id].phase.Live?
    ensures var u := Offered(t, cancels, |t.unqueuedOps|);
            t.tasks[id].key in u.inflight && u.inflight[t.tasks[id].key] == id
  {
    var u := Offered(t, cancels, |t.unqueuedOps|);
    OfferKeepsInv(t, cancels, |t.unqueuedOps|);
    assert u.tasks == t.tasks && u.runnables == [] && u.unqueuedOps == [];
    assert TaskOk(u, id);
    assert SlotOk(u, t.tasks[id].key);
  }

  /**
   Every cancel the driver took, at once or deferred, named the slot of the very future that was
   dropped, and never a later submission under the same key.
   */
  lemma CancelsNameTheirOwn(s: State, steps: seq<Step>)
    requires Initial(s) && AllEnabled(s, steps)
    ensures var t := Run(s, steps);
            && (forall i :: 0 <= i < |t.handed| ==>
                              var h := t.handed[i];
                              && h.owner == Some(h.id) && h.id < |t.tasks|
                              && t.tasks[h.id].key == h.key && t.tasks[h.id].phase.Dropped?)
            && (forall i :: 0 <= i < |t.unqueuedCancels| ==>
                              Owner(t.slab, t.unqueuedCancels[i].key) == Some(t.unqueuedCancels[i].id))
  {
    var t := Run(s, steps);
    RunKeepsInv(s, steps);
    forall i | 0 <= i < |t.unqueuedCancels|
      ensures Owner(t.slab, t.unqueuedCancels[i].key) == Some(t.unqueuedCancels[i].id)
    {
      assert TaskOk(t, t.unqueuedCancels[i].id);
    }
  }

  /**
   A cancel the driver takes finds the operation there if and only if the operation was neither
   still in overflow nor already reported; `poll` offers cancels before operations.
   */
  lemma CancelsReachTheirOperationIff(s: State, steps: seq<Step>)
    requires Initial(s) && AllEnabled(s, steps)
    ensures var t := Run(s, steps);
            forall i :: 0 <= i < |t.handed| ==>
                          (t.handed[i].held <==> !t.handed[i].overflown && !t.handed[i].reported)
  {
    RunKeepsInv(s, steps);
  }

  /**
   Exactly which slots are in use: one each for the futures that exist, and one each for the
   dropped ones, except where the driver took the cancel at once and reported afterwards.
   */
  lemma SlotsAreAccountedFor(s: State, steps: seq<Step>)
    requires Initial(s) && AllEnabled(s, steps)
    ensures var t := Run(s, steps);
            && (forall id :: 0 <= id < |t.tasks| ==>
                               (Owns(t, id) <==>
                                !t.tasks[id].phase.Resolved?
                                && !(t.tasks[id].phase == Dropped(true, false) && About(Reports(steps), id) == 1)))
            && (forall key :: key in t.slab ==>
                                t.slab[key].op.id < |t.tasks|
                                && t.tasks[t.slab[key].op.id].key == key && Owns(t, t.slab[key].op.id))
  {
    var t := Run(s, steps);
    RunKeepsInv(s, steps);
    forall id | 0 <= id < |t.tasks|
      ensures Owns(t, id) <==>
              !t.tasks[id].phase.Resolved?
              && !(t.tasks[id].phase == Dropped(true, false) && About(Reports(steps), id) == 1)
    {
      assert TaskOk(t, id);
      RunRecords(s, steps, id);
    }
    forall key | key in t.slab
      ensures t.slab[key].op.id < |t.tasks| && t.tasks[t.slab[key].op.id].key == key && Owns(t, t.slab[key].op.id)
    {
      assert SlotOk(t, key);
    }
  }

  /** The driver never holds two operations under one key, as its `try_push` demands. */
  lemma DriverKeysAreUnique(s: State, steps: seq<Step>, key: nat)
    requires Initial(s) && AllEnabled(s, steps)
    ensures var t := Run(s, steps);
            && (key !in t.slab ==> key !in t.inflight)
            && (forall i :: 0 <= i < |t.unqueuedOps| ==> t.unqueuedOps[i].key !in t.inflight)
            && (forall i, j :: 0 <= i < j < |t.unqueuedOps| ==> t.unqueuedOps[i].key != t.unqueuedOps[j].key)
  {
    RunKeepsInv(s, steps);
  }

  predicate Leaked(s: State, id: nat) {
    id < |s.tasks| && s.tasks[id].phase.Dropped? && (!s.tasks[id].phase.accepted || s.tasks[id].phase.late)
  }

  lemma LeakedStays(s: State, step: Step, id: nat)
    requires Enabled(s, step) && Leaked(s, id)
    ensures Leaked(Next(s, step), id)
  {
    if step.Poll? {
      DeliverAllKeepsTasks(Offered(s, step.cancels, step.pushes), step.entries);
    }
  }

  lemma LeakedOwns(s: State, id: nat)
    requires TasksOk(s) && Leaked(s, id)
    ensures Owns(s, id)
  {
    assert TaskOk(s, id);
  }

  /**
   A future dropped when the driver refused its cancel, or when its result was already there,
   keeps its slot for ever: no later report or cancel gives the slot back.
   */
  lemma {:induction false} LeaksAreForever(s: State, steps: seq<Step>, id: nat)
    requires Inv(s) && AllEnabled(s, steps) && Leaked(s, id)
    ensures Leaked(Run(s, steps), id) && Owns(Run(s, steps), id)
    decreases |steps|
  {
    LeakedOwns(s, id);
    if steps != [] {
      StepKeepsInv(s, steps[0]);
      LeakedStays(s, steps[0], id);
      LeaksAreForever(Next(s, steps[0]), steps[1..], id);
    }
  }

  // ---------------------------------------------------------------- queues and cancels over runs

  /** The overflow queue holds operations in the order they were submitted. */
  predicate InSubmissionOrder(s: State) {
    && (forall i :: 0 <= i < |s.unqueuedOps| ==> s.unqueuedOps[i].op.id < |s.tasks|)
    && (forall i, j :: 0 <= i < j < |s.unqueuedOps| ==> s.unqueuedOps[i].op.id < s.unqueuedOps[j].op.id)
  }

  lemma {:induction false} DeliverAllKeepsOverflow(s: State, entries: seq<Entry>)
    ensures DeliveredAll(s, entries).unqueuedOps == s.unqueuedOps
    decreases |entries|
  {
    if entries != [] {
      DeliverAllKeepsOverflow(Delivered(s, entries[0]), entries[1..]);
    }
  }

  lemma {:induction false} StepKeepsOverflowOrder(s: State, step: Step)
    requires InSubmissionOrder(s) && Enabled(s, step)
    ensures InSubmissionOrder(Next(s, step))
  {
    match step
    case Submit(what, key, accepted) => SubmitKeepsOverflowOrder(s, what, key, accepted);
    case Poll(cancels, pushes, entries) =>
      var u := Offered(s, cancels, pushes);
      DeliverAllKeepsOverflow(u, entries);
      DeliverAllKeepsTasks(u, entries);
      DropsKeepOrder(s, Next(s, step), pushes);
    case _ => DropsKeepOrder(s, Next(s, step), 0);
  }

  lemma SubmitKeepsOverflowOrder(s: State, what: nat, key: nat, accepted: bool)
    requires InSubmissionOrder(s)
    ensures InSubmissionOrder(Submitted(s, what, key, accepted))
  {
  }

  lemma DropsKeepOrder(s: State, t: State, n: nat)
    requires InSubmissionOrder(s) && |t.tasks| == |s.tasks|
    requires n <= |s.unqueuedOps| && t.unqueuedOps == s.unqueuedOps[n..]
    ensures InSubmissionOrder(t)
  {
    assert forall i :: 0 <= i < |t.unqueuedOps| ==> t.unqueuedOps[i] == s.unqueuedOps[n + i];
  }

  /** In every run the overflow queue is in submission order, so the driver is given the oldest first. */
  lemma {:induction false} OverflowStaysInOrder(s: State, steps: seq<Step>)
    requires InSubmissionOrder(s) && AllEnabled(s, steps)
    ensures InSubmissionOrder(Run(s, steps))
    decreases |steps|
  {
    if steps != [] {
      StepKeepsOverflowOrder(s, steps[0]);
      OverflowStaysInOrder(Next(s, steps[0]), steps[1..]);
    }
  }

  /** How often a cancel for the submission was handed over, and how often one is deferred. */
  function HandedFor(handed: seq<Handed>, id: nat): nat {
    if handed == [] then 0
    else HandedFor(handed[..|handed| - 1], id) + if handed[|handed| - 1].id == id then 1 else 0
  }

  function DeferredFor(cancels: seq<Cancel>, id: nat): nat {
    if cancels == [] then 0 else (if cancels[0].id == id then 1 else 0) + DeferredFor(cancels[1..], id)
  }

  lemma {:induction false} DeferredForConcat(cancels: seq<Cancel>, c: Cancel, id: nat)
    ensures DeferredFor(cancels + [c], id) == DeferredFor(cancels, id) + if c.id == id then 1 else 0
  {
    if cancels == [] {
      assert cancels + [c] == [c];
    } else {
      assert (cancels + [c])[1..] == cancels[1..] + [c];
      DeferredForConcat(cancels[1..], c, id);
    }
  }

  predicate IsDropped(s: State, id: nat) {
    id < |s.tasks| && s.tasks[id].phase.Dropped?
  }

  /** A cancel for each dropped future, taken or deferred, and none for any other. */
  predicate CancelledOnce(s: State, id: nat) {
    HandedFor(s.handed, id) + DeferredFor(s.unqueuedCancels, id) == if IsDropped(s, id) then 1 else 0
  }

  lemma {:induction false} HandOverManyKeepsCount(s: State, n: nat, id: nat)
    requires n <= |s.unqueuedCancels|
    ensures var t := HandedOverMany(s, n);
            HandedFor(t.handed, id) + DeferredFor(t.unqueuedCancels, id)
            == HandedFor(s.handed, id) + DeferredFor(s.unqueuedCancels, id)
    decreases n
  {
    if n > 0 {
      var u := HandedOver(s);
      assert u.handed[..|u.handed| - 1] == s.handed;
      HandOverManyKeepsCount(u, n - 1, id);
    }
  }

  lemma {:induction false} DeliverAllKeepsCancels(s: State, entries: seq<Entry>)
    ensures var t := DeliveredAll(s, entries); t.handed == s.handed && t.unqueuedCancels == s.unqueuedCancels
    decreases |entries|
  {
    if entries != [] {
      DeliverAllKeepsCancels(Delivered(s, entries[0]), entries[1..]);
    }
  }

  lemma {:induction false} CancelCounts(s: State, front: nat, accepted: bool, id: nat)
    requires front < |s.tasks| && s.tasks[front].phase.Closed? && CancelledOnce(s, id)
    ensures CancelledOnce(Cancelled(s, front, accepted), id)
  {
    var t := Cancelled(s, front, accepted);
    if accepted {
      assert t.handed[..|t.handed| - 1] == s.handed;
    } else {
      DeferredForConcat(s.unqueuedCancels, Cancel(s.tasks[front].key, front), id);
    }
  }

  lemma {:induction false} RanKeepsCount(s: State, accepted: bool, id: nat)
    requires s.runnables != [] && CancelledOnce(s, id)
    ensures CancelledOnce(Ran(s, accepted), id)
  {
    var front, popped := s.runnables[0], s.(runnables := s.runnables[1..]);
    if front < |s.tasks| && s.tasks[front].phase.Closed? {
      CancelCounts(popped, front, accepted, id);
    }
  }

  lemma {:induction false} StepKeepsCount(s: State, step: Step, id: nat)
    requires CancelledOnce(s, id) && Enabled(s, step)
    ensures CancelledOnce(Next(s, step), id)
  {
    match step
    case RunNext(accepted) => RanKeepsCount(s, accepted, id);
    case Poll(cancels, pushes, entries) =>
      HandOverManyKeepsCount(s, cancels, id);
      var u := Offered(s, cancels, pushes);
      DeliverAllKeepsCancels(u, entries);
      DeliverAllKeepsTasks(u, entries);
    case _ =>
  }

  /**
   Over every run, a cancel is handed to the driver or deferred exactly once for each future that
   was dropped unresolved, and never for another.
   */
  lemma {:induction false} EveryDropIsCancelledOnce(s: State, steps: seq<Step>, id: nat)
    requires CancelledOnce(s, id) && AllEnabled(s, steps)
    ensures CancelledOnce(Run(s, steps), id)
    decreases |steps|
  {
    if steps != [] {
      StepKeepsCount(s, steps[0], id);
      EveryDropIsCancelledOnce(Next(s, steps[0]), steps[1..], id);
    }
  }

  // ---------------------------------------------------------------- a driver that does not answer cancels

  /** No report is about a submission whose cancel the driver took while it held the operation. */
  predicate Silent(s: State, step: Step) {
    step.Poll? ==>
      forall e :: e in step.entries ==> !(e.origin < |s.tasks| && s.tasks[e.origin].phase == Dropped(true, false))
  }

  predicate AllSilent(s: State, steps: seq<Step>)
    requires AllEnabled(s, steps)
    decreases |steps|
  {
    steps == [] || (Silent(s, steps[0]) && AllSilent(Next(s, steps[0]), steps[1..]))
  }

  predicate NoneGivenBack(s: State) {
    forall id :: 0 <= id < |s.tasks| ==> !GivenBack(s, id)
  }

  predicate OnlyResolvedGaveBack(s: State) {
    forall id :: 0 <= id < |s.tasks| ==> (Owns(s, id) <==> !s.tasks[id].phase.Resolved?)
  }

  lemma {:induction false} DeliverAllGivesNoneBack(s: State, entries: seq<Entry>)
    requires NoneGivenBack(s)
    requires forall e :: e in entries ==> !(e.origin < |s.tasks| && s.tasks[e.origin].phase == Dropped(true, false))
    ensures NoneGivenBack(DeliveredAll(s, entries))
    decreases |entries|
  {
    if entries != [] {
      assert entries[0] in entries;
      var t := Delivered(s, entries[0]);
      forall id | 0 <= id < |t.tasks| ensures !GivenBack(t, id) {
        assert !GivenBack(s, id);
      }
      DeliverAllGivesNoneBack(t, entries[1..]);
    }
  }

  lemma {:induction false} StepGivesNoneBack(s: State, step: Step)
    requires Inv(s) && NoneGivenBack(s) && Enabled(s, step) && Silent(s, step)
    ensures NoneGivenBack(Next(s, step))
  {
    var t := Next(s, step);
    if step.Poll? {
      var u := Offered(s, step.cancels, step.pushes);
      assert u.tasks == s.tasks && u.reported == s.reported;
      assert NoneGivenBack(u) by {
        forall id | 0 <= id < |u.tasks| ensures !GivenBack(u, id) { assert !GivenBack(s, id); }
      }
      DeliverAllGivesNoneBack(u, step.entries);
    } else {
      forall id | 0 <= id < |t.tasks| ensures !GivenBack(t, id) {
        assert id < |s.tasks| ==> !GivenBack(s, id) && TaskOk(s, id);
        assert id < |s.tasks| && s.tasks[id].key in s.slab ==> SlotOk(s, s.tasks[id].key);
      }
    }
  }

  /**
   With a driver that takes cancels and never reports what was cancelled, a slot is given back
   only by a future that resolves: every dropped one keeps its own.
   */
  lemma {:induction false} SilentCancelsLeak(s: State, steps: seq<Step>)
    requires Inv(s) && NoneGivenBack(s) && AllEnabled(s, steps) && AllSilent(s, steps)
    ensures OnlyResolvedGaveBack(Run(s, steps))
    decreases |steps|
  {
    if steps == [] {
      forall id | 0 <= id < |s.tasks| ensures Owns(s, id) <==> !s.tasks[id].phase.Resolved? {
        assert TaskOk(s, id) && !GivenBack(s, id);
      }
    } else {
      StepKeepsInv(s, steps[0]);
      StepGivesNoneBack(s, steps[0]);
      SilentCancelsLeak(Next(s, steps[0]), steps[1..]);
    }
  }

  /**
   A future dropped while its operation is in overflow: the driver takes the cancel, finds nothing,
   is given the operation afterwards and reports it, which gives the slot back.
   */
  lemma OverflownCancelMisses(s: State) returns (steps: seq<Step>)
    requires Initial(s)
    ensures AllEnabled(s, steps)
    ensures var t := Run(s, steps);
            && |t.tasks| == 1 && GivenBack(t, 0) && t.slab == map[]
            && t.handed == [Handed(0, 0, Some(0), false, true, false)]
  {
    var a, b, c := Submit(7, 0, false), DropHandle(0), RunNext(true);
    var e := Entry(0, 0, Ok(0));
    var d := Poll(0, 1, [e]);
    Snoc(s, [], a);
    var s1 := Next(s, a);
    assert s1.unqueuedOps[0].key == 0;
    Snoc(s, [a], b);
    var s2 := Next(s1, b);
    Snoc(s, [a, b], c);
    var s3 := Next(s2, c);
    assert [a, b] + [c] == [a, b, c];
    OverflownPush(s3, e);
    Snoc(s, [a, b, c], d);
    steps := [a, b, c] + [d];
  }

  lemma OverflownPush(s: State, e: Entry)
    requires s.unqueuedOps == [Queued(e.key, Op(e.origin, 7))] && s.runnables == [] && s.inflight == map[]
    ensures Enabled(s, Poll(0, 1, [e])) && Next(s, Poll(0, 1, [e])) == Delivered(Pushed(s), e)
  {
    var u := Offered(s, 0, 1);
    assert u == PushedMany(Pushed(s), 0) == Pushed(s);
    assert DeliveredAll(Delivered(u, e), []) == Delivered(u, e) && [e][1..] == [];
    assert Honest(u.inflight, [e]);
  }

  // ---------------------------------------------------------------- a driver that reports twice

  /** The report leaves the slot of every other submission as it was. */
  predicate TouchesOnlyItsOwn(s: State, e: Entry) {
    forall id :: 0 <= id < |s.tasks| && id != e.origin && Owns(s, id) ==>
                   && Owns(Delivered(s, e), id)
                   && Delivered(s, e).slab[s.tasks[id].key] == s.slab[s.tasks[id].key]
  }

  /**
   For a report about anything, held by the driver or not: it is harmless to the others exactly
   when its key is vacant or still belongs to the submission it is about, or when it repeats, to
   the letter, what an unflagged slot already holds.
   */
  lemma ReportIsHarmlessIff(s: State, e: Entry)
    requires TasksOk(s) && SlotsOk(s)
    ensures TouchesOnlyItsOwn(s, e) <==>
            (e.key in s.slab ==>
               || s.slab[e.key].op.id == e.origin
               || (!s.slab[e.key].cancelled && s.slab[e.key].result == Some(e.result)))
  {
    forall id | 0 <= id < |s.tasks| && id != e.origin && Owns(s, id)
      ensures s.tasks[id].key == e.key ==> s.slab[e.key].op.id != e.origin
    {
      assert TaskOk(s, id);
    }
    if e.key in s.slab && s.slab[e.key].op.id != e.origin {
      var id := s.slab[e.key].op.id;
      assert SlotOk(s, e.key);
      assert 0 <= id < |s.tasks| && Owns(s, id);
    }
  }

  /** A driver that reports only what it holds meets that condition. */
  lemma HonestReportsAreHarmless(s: State, e: Entry)
    requires Inv(s) && e.key in s.inflight && s.inflight[e.key] == e.origin
    ensures TouchesOnlyItsOwn(s, e)
  {
    ReportIsHarmlessIff(s, e);
  }

  lemma Snoc(s: State, steps: seq<Step>, step: Step)
    requires AllEnabled(s, steps) && Enabled(Run(s, steps), step)
    ensures AllEnabled(s, steps + [step]) && Run(s, steps + [step]) == Next(Run(s, steps), step)
    decreases |steps|
  {
    if steps == [] {
      assert steps + [step] == [step];
    } else {
      assert (steps + [step])[1..] == steps[1..] + [step];
      Snoc(Next(s, steps[0]), steps[1..], step);
    }
  }

  /** Submit, drop, cancel, report: the key is vacant again. */
  lemma KeyIsGivenBack(s: State) returns (steps: seq<Step>)
    requires Initial(s)
    ensures AllEnabled(s, steps)
    ensures var t := Run(s, steps);
            && t.slab == map[] && t.runnables == [] && t.unqueuedOps == [] && t.unqueuedCancels == []
            && t.tasks == [Task(0, Op(0, 7), Dropped(true, false))] && t.inflight == map[]
  {
    var a, b, c, d := Submit(7, 0, true), DropHandle(0), RunNext(true), Poll(0, 0, [Entry(0, 0, Ok(0))]);
    Snoc(s, [], a);
    var s1 := Next(s, a);
    Snoc(s, [a], b);
    var s2 := Next(s1, b);
    Snoc(s, [a, b], c);
    var s3 := Next(s2, c);
    assert [a, b] + [c] == [a, b, c];
    assert Next(s3, d) == Delivered(s3, Entry(0, 0, Ok(0)));
    Snoc(s, [a, b, c], d);
    steps := [a, b, c] + [d];
  }

  /**
   A cancelled operation reported twice, as io_uring does when the cancel succeeds: the first
   report gives the key back, and the second, coming in a later poll, resolves the submission
   that reuses the key while the driver still holds it.
   */
  lemma SecondReportMisroutes(s: State) returns (steps: seq<Step>, t: State)
    requires Initial(s)
    ensures AllEnabled(s, steps) && Run(s, steps).runnables == []
    ensures var u := Delivered(Run(s, steps), Entry(0, 0, Err(125))); u.runnables != [] && t == Ran(u, true)
    ensures |t.tasks| == 2 && t.tasks[1] == Task(0, Op(1, 8), Resolved(Err(125), Op(1, 8)))
    ensures t.inflight == map[0 := 1]
  {
    steps := KeyIsGivenBack(s);
    var s4, e, f := Run(s, steps), Submit(8, 0, true), RunNext(true);
    Snoc(s, steps, e);
    steps := steps + [e];
    var s5 := Next(s4, e);
    Snoc(s, steps, f);
    steps := steps + [f];
    t := Ran(Delivered(Next(s5, f), Entry(0, 0, Err(125))), true);
  }
}
