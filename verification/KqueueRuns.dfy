/**
 Whole runs of the kqueue driver: what happens to every accepted operation, where the kernel's
 filters point, and how long a pending operation waits for its turn.
 */
module KqueueRuns {
  import opened Wrappers
  import opened Kqueue
  import Timers

  // ---------------------------------------------------------------- completing and requeueing

  /** Indices completed by the ready events, in order: failed filters and finished operations. */
  function CompletedAt(ready: seq<Ready>, answers: seq<Answer>): seq<nat>
    requires |ready| == |answers|
  {
    if ready == [] then []
    else
      var n := |ready| - 1;
      CompletedAt(ready[..n], answers[..n]) +
      if ready[n].error.Some? || answers[n].Some? then [ready[n].index] else []
  }

  function Outcome(r: Ready, answer: Answer): IoResult
    requires r.error.Some? || answer.Some?
  {
    if r.error.Some? then Err(r.error.value) else answer.value
  }

  predicate InRange(pending: seq<Op>, ready: seq<Ready>) {
    forall i :: 0 <= i < |ready| ==> ready[i].index < |pending|
  }

  /** The entries reported for the ready events. */
  function Finished(pending: seq<Op>, ready: seq<Ready>, answers: seq<Answer>): seq<Entry>
    requires |ready| == |answers| && InRange(pending, ready)
  {
    if ready == [] then []
    else
      var n := |ready| - 1;
      Finished(pending, ready[..n], answers[..n]) +
      if ready[n].error.Some? || answers[n].Some?
      then [Entry(pending[ready[n].index].userData, Outcome(ready[n], answers[n]))]
      else []
  }

  function CompletingFlags(ready: seq<Ready>, answers: seq<Answer>): (flags: seq<bool>)
    requires |ready| == |answers|
    ensures |flags| == |ready|
  {
    seq(|ready|, k requires 0 <= k < |ready| => ready[k].error.Some? || answers[k].Some?)
  }

  lemma {:induction false} FinishedLength(pending: seq<Op>, ready: seq<Ready>, answers: seq<Answer>)
    requires |ready| == |answers| && InRange(pending, ready)
    ensures |Finished(pending, ready, answers)| == |CompletedAt(ready, answers)|
            == |Where(CompletingFlags(ready, answers))|
  {
    if ready != [] {
      var n := |ready| - 1;
      FinishedLength(pending, ready[..n], answers[..n]);
      assert CompletingFlags(ready, answers)[..n] == CompletingFlags(ready[..n], answers[..n]);
    }
  }

  /**
   The completing events, in order: each names its index, and is reported under the key of the
   operation there, with the event's error if it has one and else with the operation's answer.
   */
  lemma {:induction false} FinishedInOrder(pending: seq<Op>, ready: seq<Ready>, answers: seq<Answer>, j: nat)
    requires |ready| == |answers| && InRange(pending, ready) && j < |Finished(pending, ready, answers)|
    ensures var at := Where(CompletingFlags(ready, answers));
            && |CompletedAt(ready, answers)| == |at| == |Finished(pending, ready, answers)|
            && var k, e := at[j], Finished(pending, ready, answers)[j];
            && CompletedAt(ready, answers)[j] == ready[k].index
            && e.userData == pending[ready[k].index].userData
            && (ready[k].error.Some? ==> e.result == Err(ready[k].error.value))
            && (ready[k].error.None? ==> answers[k] == Some(e.result))
  {
    FinishedLength(pending, ready, answers);
    var n := |ready| - 1;
    FinishedLength(pending, ready[..n], answers[..n]);
    assert CompletingFlags(ready, answers)[..n] == CompletingFlags(ready[..n], answers[..n]);
    if j < |Finished(pending, ready[..n], answers[..n])| {
      FinishedInOrder(pending, ready[..n], answers[..n], j);
    }
  }

  predicate AllBelow(at: seq<nat>, bound: nat) {
    forall i :: 0 <= i < |at| ==> at[i] < bound
  }

  /** The operations completed, in order and with repetitions. */
  function OpsAt(pending: seq<Op>, at: seq<nat>): seq<Op>
    requires AllBelow(at, |pending|)
  {
    if at == [] then [] else OpsAt(pending, at[..|at| - 1]) + [pending[at[|at| - 1]]]
  }

  lemma {:induction false} CompletedAreInRange(pending: seq<Op>, ready: seq<Ready>, answers: seq<Answer>)
    requires |ready| == |answers| && InRange(pending, ready)
    ensures AllBelow(CompletedAt(ready, answers), |pending|)
  {
    if ready != [] {
      CompletedAreInRange(pending, ready[..|ready| - 1], answers[..|ready| - 1]);
    }
  }

  lemma {:induction false} FinishedCount(pending: seq<Op>, ready: seq<Ready>, answers: seq<Answer>, key: nat)
    requires |ready| == |answers| && InRange(pending, ready)
    requires AllBelow(CompletedAt(ready, answers), |pending|)
    ensures EntryCount(Finished(pending, ready, answers), key)
            == Count(OpsAt(pending, CompletedAt(ready, answers)), key)
  {
    if ready != [] {
      var n := |ready| - 1;
      CompletedAreInRange(pending, ready[..n], answers[..n]);
      FinishedCount(pending, ready[..n], answers[..n], key);
      var at := CompletedAt(ready[..n], answers[..n]);
      if ready[n].error.Some? || answers[n].Some? {
        assert (at + [ready[n].index])[..|at|] == at;
      } else {
        assert CompletedAt(ready, answers) == at;
        assert Finished(pending, ready, answers) == Finished(pending, ready[..n], answers[..n]);
      }
    }
  }

  /** The operations of a prefix that have not completed, in order. */
  function Kept(prefix: seq<Op>, done: set<nat>): seq<Op> {
    if prefix == [] then []
    else
      var n := |prefix| - 1;
      Kept(prefix[..n], done) + if n in done then [] else [prefix[n]]
  }

  function KeptFlags(n: nat, done: set<nat>): (flags: seq<bool>)
    ensures |flags| == n
  {
    seq(n, i => i !in done)
  }

  /** What is kept of a prefix are the operations not done, in order. */
  lemma {:induction false} KeptInOrder(prefix: seq<Op>, done: set<nat>)
    ensures var at, kept := Where(KeptFlags(|prefix|, done)), Kept(prefix, done);
            |kept| == |at| && forall j :: 0 <= j < |at| ==> kept[j] == prefix[at[j]]
  {
    if prefix != [] {
      var n := |prefix| - 1;
      KeptInOrder(prefix[..n], done);
      assert KeptFlags(|prefix|, done)[..n] == KeptFlags(n, done);
    }
  }

  /** The queue after the first `till` operations went to the back, those done left out. */
  function Requeued(pending: seq<Op>, till: nat, done: set<nat>): seq<Op>
    requires till <= |pending|
  {
    pending[till..] + Kept(pending[..till], done)
  }

  function Indices(at: seq<nat>): set<nat> {
    set i | 0 <= i < |at| :: at[i]
  }

  /** Completions that do not take their operation off the queue: past `till`, or repeated. */
  function Leaks(pending: seq<Op>, till: nat, at: seq<nat>): seq<Op>
    requires AllBelow(at, |pending|)
  {
    if at == [] then []
    else
      var n := |at| - 1;
      Leaks(pending, till, at[..n]) +
      if at[n] >= till || at[n] in at[..n] then [pending[at[n]]] else []
  }

  lemma {:induction false} KeptNothingDone(prefix: seq<Op>, done: set<nat>)
    requires forall i :: i in done ==> i >= |prefix|
    ensures Kept(prefix, done) == prefix
  {
    if prefix != [] {
      KeptNothingDone(prefix[..|prefix| - 1], done);
    }
  }

  lemma {:induction false} KeptOneMoreDone(prefix: seq<Op>, done: set<nat>, i: nat, key: nat)
    ensures Count(Kept(prefix, done), key) ==
            Count(Kept(prefix, done + {i}), key)
            + if i < |prefix| && i !in done && prefix[i].userData == key then 1 else 0
  {
    if prefix != [] {
      var n := |prefix| - 1;
      KeptOneMoreDone(prefix[..n], done, i, key);
      CountConcat(Kept(prefix[..n], done), if n in done then [] else [prefix[n]], key);
      CountConcat(Kept(prefix[..n], done + {i}), if n in done + {i} then [] else [prefix[n]], key);
    }
  }

  /** Delivered plus still queued is what was queued, plus the leaks. */
  lemma {:induction false} RequeueBalances(pending: seq<Op>, till: nat, at: seq<nat>, key: nat)
    requires till <= |pending| && AllBelow(at, |pending|)
    ensures Count(OpsAt(pending, at), key) + Count(Requeued(pending, till, Indices(at)), key)
            == Count(pending, key) + Count(Leaks(pending, till, at), key)
  {
    var tail, front := pending[till..], pending[..till];
    CountConcat(tail, Kept(front, Indices(at)), key);
    if at == [] {
      CountSplit(pending, till, key);
      KeptNothingDone(front, Indices(at));
    } else {
      var n := |at| - 1;
      var before, i := at[..n], at[n];
      RequeueBalances(pending, till, before, key);
      CountConcat(tail, Kept(front, Indices(before)), key);
      assert Indices(at) == Indices(before) + {i} by {
        assert at == before + [i];
      }
      KeptOneMoreDone(front, Indices(before), i, key);
      CountConcat(OpsAt(pending, before), [pending[i]], key);
      CountConcat(Leaks(pending, till, before), if i >= till || i in before then [pending[i]] else [], key);
    }
  }

  // ---------------------------------------------------------------- steps

  /**
   Where a rotation ends: at the index the driver stores, which is that of the last operation when
   the scan ran to the end, or at the number of operations visited.  The driver does the first.
   */
  datatype End = StoredIndex | NumberVisited

  /**
   `limit` is `squeue_drained_till`, `room` the allocation of the submission queue and `cap`
   that of the change list.  The last five are histories: `drained` lists what was taken off the
   submission queue to be operated, `leaked` what was delivered without leaving the pending queue.
   */
  datatype State = State(
    squeue: seq<Op>, pending: seq<Op>, timers: seq<Timers.Timer>, table: map<Filter, nat>,
    limit: nat, room: nat, cap: nat, end: End,
    accepted: seq<Op>, drained: seq<Op>, cancelled: seq<Op>, delivered: seq<Entry>, leaked: seq<Op>)

  datatype Step =
    | Push(ops: seq<Op>)                                       // try_push, push_queue
    | Cancel(key: nat)                                         // try_cancel
    | Drain(answers: seq<Answer>, clock: seq<nat>)             // operate_squeue
    | Expire(now: nat, fired: seq<Timers.Timer>, left: seq<Timers.Timer>)  // expire_timers
    | Check(ready: seq<Ready>, replies: seq<Answer>)           // check_readiness and the requeueing
    | CheckFailed(applied: nat)                                // kevent fails after some changes

  predicate Initial(s: State) {
    && s.squeue == s.pending == s.accepted == s.drained == s.cancelled == s.leaked == []
    && s.timers == [] && s.delivered == [] && s.table == map[] && s.limit <= s.room
  }

  function ChangeList(s: State): seq<Change> {
    Changes(s.pending[..Visited(s.pending, s.cap)])
  }

  /** The kernel's filters once the change list has been registered. */
  function Registered(s: State): map<Filter, nat> {
    Merged(s.table, ChangeList(s))
  }

  predicate Enabled(s: State, step: Step) {
    match step
    case Push(ops) => |s.squeue| + |ops| <= s.limit
    case Cancel(_) => true
    case Drain(answers, clock) => |answers| == |clock| == |s.squeue|
    case Expire(now, fired, left) => Timers.Expired(multiset(s.timers), now, fired, multiset(left))
    case Check(ready, replies) =>
      |replies| == |ready| && KernelMayReturn(Registered(s), ready) && InRange(s.pending, ready)
    case CheckFailed(applied) => applied <= |ChangeList(s)|
  }

  function FindFrom(ops: seq<Op>, key: nat, from: nat): (pos: Option<nat>)
    requires from <= |ops|
    ensures pos.Some? ==> from <= pos.value < |ops| && ops[pos.value].userData == key
    ensures pos.Some? ==> forall i :: from <= i < pos.value ==> ops[i].userData != key
    ensures pos.None? ==> forall i :: from <= i < |ops| ==> ops[i].userData != key
    decreases |ops| - from
  {
    if from == |ops| then None
    else if ops[from].userData == key then Some(from)
    else FindFrom(ops, key, from + 1)
  }

  function Find(ops: seq<Op>, key: nat): (pos: Option<nat>)
    ensures pos.Some? ==> pos.value < |ops| && ops[pos.value].userData == key
    ensures pos.Some? ==> forall i :: 0 <= i < pos.value ==> ops[i].userData != key
    ensures pos.None? ==> forall i :: 0 <= i < |ops| ==> ops[i].userData != key
  {
    FindFrom(ops, key, 0)
  }

  function Removed(ops: seq<Op>, pos: Option<nat>): seq<Op>
    requires pos.Some? ==> pos.value < |ops|
  {
    if pos.Some? then Without(ops, pos.value) else ops
  }

  function At(ops: seq<Op>, pos: Option<nat>): seq<Op>
    requires pos.Some? ==> pos.value < |ops|
  {
    if pos.Some? then [ops[pos.value]] else []
  }

  function Till(s: State): (r: nat)
    ensures r <= |s.pending|
  {
    match s.end
    case StoredIndex => ScannedTill(s.pending, s.cap)
    case NumberVisited => Visited(s.pending, s.cap)
  }

  function Next(s: State, step: Step): State
    requires Enabled(s, step)
  {
    match step
    case Push(ops) =>
      s.(squeue := s.squeue + ops, accepted := s.accepted + ops)
    case Cancel(key) =>
      var p, q := Find(s.squeue, key), Find(s.pending, key);
      s.(squeue := Removed(s.squeue, p), pending := Removed(s.pending, q),
         cancelled := s.cancelled + At(s.squeue, p) + At(s.pending, q))
    case Drain(answers, clock) =>
      s.(squeue := [], limit := s.room, drained := s.drained + s.squeue,
         pending := s.pending + Blocked(s.squeue, answers),
         timers := s.timers + Started(s.squeue, answers, clock),
         delivered := s.delivered + DoneAtOnce(s.squeue, answers))
    case Expire(_, fired, left) =>
      s.(timers := left, delivered := s.delivered + TimerEntries(fired))
    case Check(ready, replies) =>
      CompletedAreInRange(s.pending, ready, replies);
      var at := CompletedAt(ready, replies);
      s.(pending := Requeued(s.pending, Till(s), Indices(at)),
         table := Registered(s) - FiltersOf(ready),
         delivered := s.delivered + Finished(s.pending, ready, replies),
         leaked := s.leaked + Leaks(s.pending, Till(s), at))
    case CheckFailed(applied) =>
      s.(table := Merged(s.table, ChangeList(s)[..applied]))
  }

  predicate AllEnabled(s: State, steps: seq<Step>)
    decreases |steps|
  {
    steps == [] || (Enabled(s, steps[0]) && AllEnabled(Next(s, steps[0]), steps[1..]))
  }

  function Run(s: State, steps: seq<Step>): State
    requires AllEnabled(s, steps)
    decreases |steps|
  {
    if steps == [] then s else Run(Next(s, steps[0]), steps[1..])
  }

  lemma {:induction false} Unfold(s: State, step: Step, rest: seq<Step>)
    requires Enabled(s, step) && AllEnabled(Next(s, step), rest)
    ensures AllEnabled(s, [step] + rest) && Run(s, [step] + rest) == Run(Next(s, step), rest)
  {
    assert ([step] + rest)[1..] == rest;
  }

  lemma {:induction false} TwoSteps(s: State, a: Step, b: Step)
    requires Enabled(s, a) && Enabled(Next(s, a), b)
    ensures AllEnabled(s, [a, b]) && Run(s, [a, b]) == Next(Next(s, a), b)
  {
    Unfold(Next(s, a), b, []);
    Unfold(s, a, [b]);
    assert [b] + [] == [b] && [a] + [b] == [a, b];
  }

  lemma {:induction false} RunConcat(s: State, a: seq<Step>, b: seq<Step>)
    requires AllEnabled(s, a) && AllEnabled(Run(s, a), b)
    ensures AllEnabled(s, a + b) && Run(s, a + b) == Run(Run(s, a), b)
    decreases |a|
  {
    if a == [] {
      assert a + b == b;
    } else {
      RunConcat(Next(s, a[0]), a[1..], b);
      ConsConcat(a, b);
      Unfold(s, a[0], a[1..] + b);
    }
  }

  lemma ConsConcat(a: seq<Step>, b: seq<Step>)
    requires a != []
    ensures [a[0]] + (a[1..] + b) == a + b
  {
  }

  lemma {:induction false} OneMoreStep(s: State, steps: seq<Step>, step: Step)
    requires AllEnabled(s, steps) && Enabled(Run(s, steps), step)
    ensures AllEnabled(s, steps + [step]) && Run(s, steps + [step]) == Next(Run(s, steps), step)
  {
    Unfold(Run(s, steps), step, []);
    RunConcat(s, steps, [step]);
  }

  /** Timers expire, then the queue rotates: the state that results, field by field. */
  lemma {:induction false} ExpireThenCheck(s: State, expire: Step, ready: seq<Ready>, replies: seq<Answer>)
    requires expire.Expire? && Enabled(s, expire) && Enabled(s, Check(ready, replies))
    ensures Enabled(Next(s, expire), Check(ready, replies))
    ensures var t := Next(Next(s, expire), Check(ready, replies));
            && t.squeue == s.squeue && t.limit == s.limit && t.room == s.room && t.cap == s.cap && t.end == s.end
            && t.pending == Requeued(s.pending, Till(s), Indices(CompletedAt(ready, replies)))
            && t.timers == expire.left
            && t.table == Registered(s) - FiltersOf(ready)
            && t.delivered == s.delivered + (TimerEntries(expire.fired) + Finished(s.pending, ready, replies))
  {
    assert Registered(Next(s, expire)) == Registered(s);
  }

  /** Timers expire, then the kernel refuses: only the registered filters change besides. */
  lemma {:induction false} ExpireThenFail(s: State, expire: Step, applied: nat)
    requires expire.Expire? && Enabled(s, expire) && applied <= |ChangeList(s)|
    ensures AllEnabled(s, [expire, CheckFailed(applied)])
    ensures Run(s, [expire, CheckFailed(applied)]) ==
            s.(timers := expire.left, delivered := s.delivered + TimerEntries(expire.fired),
               table := Merged(s.table, ChangeList(s)[..applied]))
  {
    TwoSteps(s, expire, CheckFailed(applied));
  }

  // ---------------------------------------------------------------- conservation

  /** How often a key is found anywhere an operation can be. */
  function Places(s: State, key: nat): nat {
    Count(s.squeue, key) + Count(s.pending, key) + TimerCount(s.timers, key)
    + EntryCount(s.delivered, key) + Count(s.cancelled, key)
  }

  predicate Balanced(s: State, key: nat) {
    Places(s, key) == Count(s.accepted, key) + Count(s.leaked, key)
  }

  predicate WithinAllocation(s: State) {
    |s.squeue| <= s.limit <= s.room
  }

  lemma {:induction false} StepBalances(s: State, step: Step, key: nat)
    requires Balanced(s, key) && Enabled(s, step)
    ensures Balanced(Next(s, step), key)
  {
    match step
    case Push(ops) =>
      CountConcat(s.squeue, ops, key);
      CountConcat(s.accepted, ops, key);
    case Cancel(k) => CancelBalances(s, k, key);
    case Drain(answers, clock) =>
      DrainBalances(s.squeue, answers, clock, key);
      CountConcat(s.pending, Blocked(s.squeue, answers), key);
      TimerCountConcat(s.timers, Started(s.squeue, answers, clock), key);
      EntryCountConcat(s.delivered, DoneAtOnce(s.squeue, answers), key);
    case Expire(_, fired, left) =>
      SameTimersSameCount(s.timers, left + fired, key);
      TimerCountConcat(left, fired, key);
      TimerEntriesCount(fired, key);
      EntryCountConcat(s.delivered, TimerEntries(fired), key);
    case Check(ready, replies) => CheckBalances(s, ready, replies, key);
    case CheckFailed(_) =>
  }

  lemma {:induction false} CancelBalances(s: State, k: nat, key: nat)
    requires Balanced(s, key)
    ensures Balanced(Next(s, Cancel(k)), key)
  {
    var p, q := Find(s.squeue, k), Find(s.pending, k);
    if p.Some? { CountWithout(s.squeue, p.value, key); }
    if q.Some? { CountWithout(s.pending, q.value, key); }
    CountConcat(s.cancelled, At(s.squeue, p), key);
    CountConcat(s.cancelled + At(s.squeue, p), At(s.pending, q), key);
  }

  lemma {:induction false} CheckBalances(s: State, ready: seq<Ready>, replies: seq<Answer>, key: nat)
    requires Balanced(s, key) && Enabled(s, Check(ready, replies))
    ensures Balanced(Next(s, Check(ready, replies)), key)
  {
    CompletedAreInRange(s.pending, ready, replies);
    var at := CompletedAt(ready, replies);
    FinishedCount(s.pending, ready, replies, key);
    RequeueBalances(s.pending, Till(s), at, key);
    EntryCountConcat(s.delivered, Finished(s.pending, ready, replies), key);
    CountConcat(s.leaked, Leaks(s.pending, Till(s), at), key);
  }

  /**
   Conservation over any run: a key is queued, pending, waiting on a timer, delivered and
   cancelled as often, taken together, as it was accepted plus as often as it leaked.
   */
  lemma {:induction false} RunBalances(s: State, steps: seq<Step>, key: nat)
    requires Balanced(s, key) && AllEnabled(s, steps)
    ensures Balanced(Run(s, steps), key)
    decreases |steps|
  {
    if steps != [] {
      StepBalances(s, steps[0], key);
      RunBalances(Next(s, steps[0]), steps[1..], key);
    }
  }

  /** The submission queue never outgrows its allocation. */
  lemma {:induction false} RunStaysWithinAllocation(s: State, steps: seq<Step>)
    requires WithinAllocation(s) && AllEnabled(s, steps)
    ensures WithinAllocation(Run(s, steps))
    decreases |steps|
  {
    if steps != [] {
      RunStaysWithinAllocation(Next(s, steps[0]), steps[1..]);
    }
  }

  // ---------------------------------------------------------------- order

  /** The first sequence is the second with some elements left out. */
  predicate LeavesOut(a: seq<Op>, b: seq<Op>) {
    if a == [] then true
    else if b == [] then false
    else
      || (a[|a| - 1] == b[|b| - 1] && LeavesOut(a[..|a| - 1], b[..|b| - 1]))
      || LeavesOut(a, b[..|b| - 1])
  }

  lemma {:induction false} LeavesOutSame(a: seq<Op>, b: seq<Op>, more: seq<Op>)
    requires LeavesOut(a, b)
    ensures LeavesOut(a + more, b + more)
    decreases |more|
  {
    if more == [] {
      assert a + more == a && b + more == b;
    } else {
      var n := |more| - 1;
      LeavesOutSame(a, b, more[..n]);
      assert (a + more)[..|a + more| - 1] == a + more[..n];
      assert (b + more)[..|b + more| - 1] == b + more[..n];
    }
  }

  lemma {:induction false} LeavesOutOne(a: seq<Op>, b: seq<Op>, i: nat)
    requires LeavesOut(a, b) && i < |a|
    ensures LeavesOut(Without(a, i), b)
    decreases |b|
  {
    var n, m := |a| - 1, |b| - 1;
    if a[n] == b[m] && LeavesOut(a[..n], b[..m]) {
      if i == n {
        assert Without(a, i) == a[..n];
      } else {
        LeavesOutOne(a[..n], b[..m], i);
        assert Without(a, i)[..n - 1] == Without(a[..n], i);
      }
    } else {
      LeavesOutOne(a, b[..m], i);
    }
  }

  lemma {:induction false} StepKeepsOrder(s: State, step: Step)
    requires LeavesOut(s.drained + s.squeue, s.accepted) && Enabled(s, step)
    ensures var t := Next(s, step);
            && LeavesOut(t.drained + t.squeue, t.accepted)
            && (s.drained + s.squeue == s.accepted && !step.Cancel? ==> t.drained + t.squeue == t.accepted)
            && s.drained <= t.drained
  {
    match step
    case Push(ops) =>
      LeavesOutSame(s.drained + s.squeue, s.accepted, ops);
      Append3(s.drained, s.squeue, ops);
    case Cancel(key) => CancelKeepsOrder(s, key);
    case Drain(_, _) => assert s.drained + s.squeue + [] == s.drained + s.squeue;
    case _ =>
  }

  lemma {:induction false} CancelKeepsOrder(s: State, key: nat)
    requires LeavesOut(s.drained + s.squeue, s.accepted)
    ensures var t := Next(s, Cancel(key)); LeavesOut(t.drained + t.squeue, t.accepted)
  {
    var p := Find(s.squeue, key);
    if p.Some? {
      LeavesOutOne(s.drained + s.squeue, s.accepted, |s.drained| + p.value);
      assert Without(s.drained + s.squeue, |s.drained| + p.value) == s.drained + Without(s.squeue, p.value);
    }
  }

  predicate NoCancel(steps: seq<Step>) {
    forall i :: 0 <= i < |steps| ==> !steps[i].Cancel?
  }

  /**
   Operations are operated in the order they were accepted, across all calls: what was drained and
   what is queued behind it is what was accepted, in order, without those cancelled; all of it if
   nothing was.  What was drained once stays drained.
   */
  lemma {:induction false} OperatedInOrder(s: State, steps: seq<Step>)
    requires LeavesOut(s.drained + s.squeue, s.accepted) && AllEnabled(s, steps)
    ensures var t := Run(s, steps);
            && LeavesOut(t.drained + t.squeue, t.accepted)
            && (s.drained + s.squeue == s.accepted && NoCancel(steps) ==> t.drained + t.squeue == t.accepted)
            && s.drained <= t.drained
    decreases |steps|
  {
    if steps != [] {
      StepKeepsOrder(s, steps[0]);
      OperatedInOrder(Next(s, steps[0]), steps[1..]);
    }
  }
}
