/**
 The task runtime (src/task/runtime.rs, src/task/op.rs) as a step system: operation futures,
 their wakers, slab slots whose keys are reused, the run queue, the overflow queues and the
 driver's side of the bargain.

 A submission is numbered; the number stands for the identity of the operation's allocation, of
 its future and of the task the future was spawned as.  Waking a task appends it to the run
 queue unless it is there already or its handle was dropped.
 */
module TaskRuns {
  import opened Wrappers

  datatype Op = Op(id: nat, what: nat)

  /** `RegisteredOp`: the waker is named by the task it wakes. */
  datatype Slot = Slot(op: Op, waker: Option<nat>, result: Option<IoResult>, cancelled: bool)

  /** `OpObject`: an operation with its user data. */
  datatype Queued = Queued(key: nat, op: Op)

  /** A completion the driver reports: the key it names and the submission it is about. */
  datatype Entry = Entry(key: nat, origin: nat, result: IoResult)

  datatype Phase =
    | Live                                     // future and handle exist
    | Closed                                   // handle dropped, future not yet
    | Dropped(accepted: bool, late: bool)      // future dropped: cancel taken at once? result already there?
    | Resolved(result: IoResult, op: Op)

  datatype Task = Task(key: nat, op: Op, phase: Phase)

  datatype Cancel = Cancel(key: nat, id: nat)

  /**
   A cancel the driver took: for whom it was, whose slot the key named at that moment, and whether
   the driver held an operation under the key, the operation was still in overflow, or it had been
   reported already.
   */
  datatype Handed = Handed(key: nat, id: nat, owner: Option<nat>, held: bool, overflown: bool, reported: bool)

  /** `inflight` is what the driver holds; `reported` and `handed` are histories. */
  datatype State = State(
    slab: map<nat, Slot>, tasks: seq<Task>, runnables: seq<nat>,
    unqueuedOps: seq<Queued>, unqueuedCancels: seq<Cancel>,
    inflight: map<nat, nat>, reported: map<nat, IoResult>, handed: seq<Handed>)

  datatype Step =
    | Submit(what: nat, key: nat, accepted: bool)               // Runtime::submit
    | DropHandle(id: nat)                                       // the Task of a submission is dropped
    | RunNext(accepted: bool)                                   // block_on runs the first runnable
    | Poll(cancels: nat, pushes: nat, entries: seq<Entry>)      // Runtime::poll

  predicate Initial(s: State) {
    && s.slab == map[] && s.tasks == [] && s.runnables == []
    && s.unqueuedOps == [] && s.unqueuedCancels == []
    && s.inflight == map[] && s.reported == map[] && s.handed == []
  }

  // ---------------------------------------------------------------- the slab

  function Owner(slab: map<nat, Slot>, key: nat): Option<nat> {
    if key in slab then Some(slab[key].op.id) else None
  }

  /** `update_waker` */
  function WithWaker(slab: map<nat, Slot>, key: nat, id: nat): map<nat, Slot> {
    if key in slab then slab[key := slab[key].(waker := Some(id))] else slab
  }

  /** `cancel` */
  function WithFlag(slab: map<nat, Slot>, key: nat): map<nat, Slot> {
    if key in slab then slab[key := slab[key].(cancelled := true)] else slab
  }

  /** `update_result` */
  function WithResult(slab: map<nat, Slot>, key: nat, result: IoResult): map<nat, Slot> {
    if key !in slab then slab
    else if slab[key].cancelled then slab - {key}
    else slab[key := slab[key].(waker := None, result := Some(result))]
  }

  predicate HasResult(slab: map<nat, Slot>, key: nat) {
    key in slab && slab[key].result.Some?
  }

  // ---------------------------------------------------------------- steps

  function Schedule(runnables: seq<nat>, id: nat): seq<nat> {
    if id in runnables then runnables else runnables + [id]
  }

  /** The task a report wakes joins the run queue, unless its handle or future is gone. */
  function Woken(s: State, key: nat): seq<nat> {
    if key in s.slab && s.slab[key].waker.Some? then Wake(s.tasks, s.runnables, s.slab[key].waker.value)
    else s.runnables
  }

  function Wake(tasks: seq<Task>, runnables: seq<nat>, id: nat): seq<nat> {
    if id < |tasks| && tasks[id].phase.Live? then Schedule(runnables, id) else runnables
  }

  function Submitted(s: State, what: nat, key: nat, accepted: bool): State {
    var id := |s.tasks|;
    var op := Op(id, what);
    s.(slab := s.slab[key := Slot(op, None, None, false)],
       tasks := s.tasks + [Task(key, op, Live)],
       runnables := s.runnables + [id],
       inflight := if accepted then s.inflight[key := id] else s.inflight,
       unqueuedOps := if accepted then s.unqueuedOps else s.unqueuedOps + [Queued(key, op)])
  }

  function Closing(s: State, id: nat): State
    requires id < |s.tasks|
  {
    if s.tasks[id].phase.Live? then
      s.(tasks := s.tasks[id := s.tasks[id].(phase := Closed)], runnables := Schedule(s.runnables, id))
    else s
  }

  /** `poll_task`, from the future's poll: take the result and the operation, or leave a waker. */
  function Polled(s: State, id: nat): State
    requires id < |s.tasks|
  {
    var key := s.tasks[id].key;
    if HasResult(s.slab, key) then
      var done := Resolved(s.slab[key].result.value, s.slab[key].op);
      s.(slab := s.slab - {key}, tasks := s.tasks[id := s.tasks[id].(phase := done)])
    else
      s.(slab := WithWaker(s.slab, key, id))
  }

  predicate Waiting(s: State, key: nat) {
    exists i :: 0 <= i < |s.unqueuedOps| && s.unqueuedOps[i].key == key
  }

  function Handing(s: State, key: nat, id: nat): Handed {
    Handed(key, id, Owner(s.slab, key), key in s.inflight, Waiting(s, key), id in s.reported)
  }

  /** `cancel_op`, from the drop of the future. */
  function Cancelled(s: State, id: nat, accepted: bool): State
    requires id < |s.tasks|
  {
    var key := s.tasks[id].key;
    var gone := s.tasks[id := s.tasks[id].(phase := Dropped(accepted, HasResult(s.slab, key)))];
    if accepted then
      s.(tasks := gone, slab := WithFlag(s.slab, key), handed := s.handed + [Handing(s, key, id)])
    else
      s.(tasks := gone, unqueuedCancels := s.unqueuedCancels + [Cancel(key, id)])
  }

  function Ran(s: State, accepted: bool): State
    requires s.runnables != []
  {
    var id, popped := s.runnables[0], s.(runnables := s.runnables[1..]);
    if id < |s.tasks| && s.tasks[id].phase.Live? then Polled(popped, id)
    else if id < |s.tasks| && s.tasks[id].phase.Closed? then Cancelled(popped, id, accepted)
    else popped
  }

  /** The first deferred cancel is taken by the driver. */
  function HandedOver(s: State): State
    requires s.unqueuedCancels != []
  {
    var c := s.unqueuedCancels[0];
    s.(unqueuedCancels := s.unqueuedCancels[1..],
       handed := s.handed + [Handing(s, c.key, c.id)])
  }

  function HandedOverMany(s: State, n: nat): (t: State)
    requires n <= |s.unqueuedCancels|
    ensures t == s.(unqueuedCancels := t.unqueuedCancels, handed := t.handed)
    ensures t.unqueuedCancels == s.unqueuedCancels[n..]
    decreases n
  {
    if n == 0 then s else HandedOverMany(HandedOver(s), n - 1)
  }

  /** The first overflown operation goes to the driver. */
  function Pushed(s: State): State
    requires s.unqueuedOps != []
  {
    var q := s.unqueuedOps[0];
    s.(unqueuedOps := s.unqueuedOps[1..], inflight := s.inflight[q.key := q.op.id])
  }

  function PushedMany(s: State, n: nat): (t: State)
    requires n <= |s.unqueuedOps|
    ensures t == s.(unqueuedOps := t.unqueuedOps, inflight := t.inflight)
    ensures t.unqueuedOps == s.unqueuedOps[n..]
    decreases n
  {
    if n == 0 then s else PushedMany(Pushed(s), n - 1)
  }

  /** One completion reaches `update_result`. */
  function Delivered(s: State, e: Entry): State {
    s.(slab := WithResult(s.slab, e.key, e.result),
       runnables := Woken(s, e.key),
       inflight := if e.key in s.inflight && s.inflight[e.key] == e.origin then s.inflight - {e.key} else s.inflight,
       reported := s.reported[e.origin := e.result])
  }

  function DeliveredAll(s: State, entries: seq<Entry>): State
    decreases |entries|
  {
    if entries == [] then s else DeliveredAll(Delivered(s, entries[0]), entries[1..])
  }

  /** The driver's contract: each entry is about the submission it holds under that key. */
  predicate Honest(inflight: map<nat, nat>, entries: seq<Entry>)
    decreases |entries|
  {
    entries == [] ||
    (&& entries[0].key in inflight && inflight[entries[0].key] == entries[0].origin
     && Honest(inflight - {entries[0].key}, entries[1..]))
  }

  /** The state once the overflow queues were offered to the driver. */
  function Offered(s: State, cancels: nat, pushes: nat): State
    requires cancels <= |s.unqueuedCancels| && pushes <= |s.unqueuedOps|
  {
    PushedMany(HandedOverMany(s, cancels), pushes)
  }

  /** The slab gives out a vacant key; `poll` is called when nothing is left to run. */
  predicate Enabled(s: State, step: Step) {
    match step
    case Submit(_, key, _) => key !in s.slab
    case DropHandle(id) => id < |s.tasks|
    case RunNext(_) => s.runnables != []
    case Poll(cancels, pushes, entries) =>
      && s.runnables == []
      && cancels <= |s.unqueuedCancels| && pushes <= |s.unqueuedOps|
      && Honest(Offered(s, cancels, pushes).inflight, entries)
  }

  function Next(s: State, step: Step): State
    requires Enabled(s, step)
  {
    match step
    case Submit(what, key, accepted) => Submitted(s, what, key, accepted)
    case DropHandle(id) => Closing(s, id)
    case RunNext(accepted) => Ran(s, accepted)
    case Poll(cancels, pushes, entries) => DeliveredAll(Offered(s, cancels, pushes), entries)
  }

  predicate AllEnabled(s: State, steps: seq<Step>)
    decreases |steps|
  {
    steps == [] || (Enabled(s, steps[0]) && AllEnabled(Next(s, steps[0]), steps[1..]))
  }

  function Run(s: State, steps: seq<Step>): State
    requires AllEnabled(s, steps)
    decreases |steps|
  {
    if steps == [] then s else Run(Next(s, steps[0]), steps[1..])
  }

  // ---------------------------------------------------------------- the invariant

  predicate Owns(s: State, id: nat)
    requires id < |s.tasks|
  {
    s.tasks[id].key in s.slab && s.slab[s.tasks[id].key].op == s.tasks[id].op
  }

  /** No wake-up is lost: the task will run, or its waker is in its slot and no result yet is. */
  predicate Awake(s: State, id: nat)
    requires id < |s.tasks| && Owns(s, id)
  {
    var slot := s.slab[s.tasks[id].key];
    id in s.runnables || (slot.waker == Some(id) && slot.result.None?)
  }

  /** The slots a report gives back: the cancel was taken at once, and before the report. */
  predicate GivenBack(s: State, id: nat)
    requires id < |s.tasks|
  {
    s.tasks[id].phase == Dropped(true, false) && id in s.reported
  }

  predicate TaskOk(s: State, id: nat)
    requires id < |s.tasks|
  {
    var t := s.tasks[id];
    && t.op.id == id
    && (Owns(s, id) <==> !t.phase.Resolved? && !GivenBack(s, id))
    && match t.phase
       case Live => !s.slab[t.key].cancelled && Awake(s, id)
       case Closed => !s.slab[t.key].cancelled && id in s.runnables
       case Dropped(accepted, late) =>
         && (late ==> id in s.reported)
         && (Owns(s, id) ==> s.slab[t.key].cancelled == accepted)
       case Resolved(result, op) => id in s.reported && result == s.reported[id] && op == t.op
  }

  predicate SlotOk(s: State, key: nat)
    requires key in s.slab
  {
    var slot := s.slab[key];
    var id := slot.op.id;
    && id < |s.tasks| && s.tasks[id].key == key && s.tasks[id].op == slot.op
    && (slot.waker.Some? ==> slot.waker.value == id && slot.result.None?)
    && (slot.result.Some? <==> id in s.reported)
    && (slot.result.Some? ==> slot.result.value == s.reported[id])
    && (slot.result.None? <==> key in s.inflight || Waiting(s, key))
  }

  predicate TasksOk(s: State) {
    && (forall id :: 0 <= id < |s.tasks| ==> TaskOk(s, id))
    && (forall id :: id in s.reported ==> id < |s.tasks|)
  }

  predicate SlotsOk(s: State) {
    forall key :: key in s.slab ==> SlotOk(s, key)
  }

  predicate QueueOk(s: State) {
    && (forall i, j :: 0 <= i < j < |s.runnables| ==> s.runnables[i] != s.runnables[j])
    && (forall i :: 0 <= i < |s.runnables| ==>
                      var id := s.runnables[i];
                      id < |s.tasks| && (s.tasks[id].phase.Live? || s.tasks[id].phase.Closed?))
  }

  /** What the driver holds or is about to be given: keys in use, all different. */
  predicate DriverOk(s: State) {
    && (forall key :: key in s.inflight ==> key in s.slab && s.slab[key].op.id == s.inflight[key])
    && (forall i :: 0 <= i < |s.unqueuedOps| ==>
                      var q := s.unqueuedOps[i];
                      q.key in s.slab && s.slab[q.key].op == q.op && q.key !in s.inflight)
    && (forall i, j :: 0 <= i < j < |s.unqueuedOps| ==> s.unqueuedOps[i].key != s.unqueuedOps[j].key)
  }

  predicate CancelsOk(s: State) {
    && (forall i :: 0 <= i < |s.unqueuedCancels| ==>
                      var c := s.unqueuedCancels[i];
                      c.id < |s.tasks| && s.tasks[c.id].key == c.key
                      && s.tasks[c.id].phase.Dropped? && !s.tasks[c.id].phase.accepted)
    && (forall i :: 0 <= i < |s.handed| ==>
                      var h := s.handed[i];
                      && h.id < |s.tasks| && s.tasks[h.id].key == h.key && h.owner == Some(h.id)
                      && s.tasks[h.id].phase.Dropped?
                      && (h.held <==> !h.overflown && !h.reported))
  }

  predicate Inv(s: State) {
    TasksOk(s) && SlotsOk(s) && QueueOk(s) && DriverOk(s) && CancelsOk(s)
  }
}
