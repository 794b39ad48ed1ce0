/**
 The main results about runs of the kqueue driver: where the kernel's one-shot filters point,
 exactly when every operation is delivered once, and how long a pending operation can wait.
 */
module KqueueTheorems {
  import opened Wrappers
  import opened Kqueue
  import opened KqueueRuns
  import Timers

  // ---------------------------------------------------------------- leaks of one check

  predicate Distinct(at: seq<nat>) {
    forall i, j :: 0 <= i < j < |at| ==> at[i] != at[j]
  }

  lemma {:induction false} LeaksNothingIff(pending: seq<Op>, till: nat, at: seq<nat>)
    requires AllBelow(at, |pending|)
    ensures Leaks(pending, till, at) == [] <==> AllBelow(at, till) && Distinct(at)
  {
    if at != [] {
      var n := |at| - 1;
      LeaksNothingIff(pending, till, at[..n]);
      assert at == at[..n] + [at[n]];
      assert AllBelow(at, till) <==> AllBelow(at[..n], till) && at[n] < till;
      assert Distinct(at) <==> Distinct(at[..n]) && at[n] !in at[..n];
    }
  }

  /** Completions come from ready events, one each, in order. */
  lemma {:induction false} CompletedComeFromReady(ready: seq<Ready>, answers: seq<Answer>,
                                                  table: map<Filter, nat>, ops: seq<Op>, visited: nat)
    requires |ready| == |answers|
    requires KernelMayReturn(table, ready) && WellAimed(table, ops, visited)
    ensures AllBelow(CompletedAt(ready, answers), visited)
    ensures Distinct(CompletedAt(ready, answers))
    ensures forall i :: i in CompletedAt(ready, answers) ==> i < |ops| && ops[i].filter in FiltersOf(ready)
    ensures InRange(ops, ready)
  {
    if ready != [] {
      var n := |ready| - 1;
      var at := CompletedAt(ready[..n], answers[..n]);
      CompletedComeFromReady(ready[..n], answers[..n], table, ops, visited);
      assert ready[n].filter !in FiltersOf(ready[..n]);
      assert FiltersOf(ready) == FiltersOf(ready[..n]) + {ready[n].filter};
      assert ops[ready[n].index].filter == ready[n].filter;
      assert ready[n].index !in at;
    }
  }

  // ---------------------------------------------------------------- the kernel's filters over runs

  /** Every filter left in the kernel belongs to an operation that is still pending. */
  ghost predicate Fresh(s: State) {
    forall f :: f in s.table ==> Occurs(s.pending, f)
  }

  /** The distinct filters of the pending queue fit the change list. */
  predicate Fits(s: State) {
    |Changes(s.pending)| <= s.cap
  }

  lemma {:induction false} ChangesGrow(ops: seq<Op>, n: nat)
    requires n <= |ops|
    ensures Changes(ops[..n]) <= Changes(ops)
    decreases |ops| - n
  {
    if n < |ops| {
      assert ops[..n + 1][..n] == ops[..n];
      ChangesGrow(ops, n + 1);
    } else {
      assert ops[..n] == ops;
    }
  }

  /** A change list that fits names every filter, so the scan re-registers all of them. */
  lemma FittingScanVisitsAllFilters(s: State, f: Filter)
    requires Fits(s) && Occurs(s.pending, f)
    ensures Occurs(s.pending[..Visited(s.pending, s.cap)], f)
  {
    var ops, v := s.pending, Visited(s.pending, s.cap);
    ScanIsExact(ops, s.cap);
    ChangesGrow(ops, v);
    if v < |ops| {
      var c := FirstOccurrence(ops, f);
      ChangesAreFirsts(ops);
      assert Changes(ops) == Changes(ops[..v]);
      ChangesAreFirsts(ops[..v]);
      assert c in Changes(ops[..v]) && FirstOf(ops[..v], c);
    } else {
      assert ops[..v] == ops;
    }
  }

  lemma FreshAndFittingIsAimed(s: State)
    requires Fresh(s) && Fits(s)
    ensures WellAimed(Registered(s), s.pending, Visited(s.pending, s.cap))
  {
    forall f | f in s.table
      ensures Occurs(s.pending[..Visited(s.pending, s.cap)], f)
    {
      FittingScanVisitsAllFilters(s, f);
    }
    WellAimedIff(s.table, s.pending, s.cap);
  }

  /** Cancelling a pending operation leaves no orphaned filter in the kernel. */
  predicate TidyCancel(s: State, key: nat) {
    var q := Find(s.pending, key);
    q.Some? ==> s.pending[q.value].filter !in s.table || Occurs(Removed(s.pending, q), s.pending[q.value].filter)
  }

  predicate TidyStep(s: State, step: Step) {
    match step
    case Cancel(key) => TidyCancel(s, key)
    case Check(_, _) => Fits(s)
    case _ => true
  }

  lemma CancelIsFreshIff(s: State, key: nat)
    requires Fresh(s)
    ensures Fresh(Next(s, Cancel(key))) <==> TidyCancel(s, key)
  {
    var q := Find(s.pending, key);
    if q.Some? {
      var p, left := q.value, Removed(s.pending, q);
      forall f | Occurs(s.pending, f) && f != s.pending[p].filter
        ensures Occurs(left, f)
      {
        var i :| 0 <= i < |s.pending| && s.pending[i].filter == f;
        assert left[if i < p then i else i - 1].filter == f;
      }
    }
  }

  lemma {:induction false} KeptOps(prefix: seq<Op>, done: set<nat>, i: nat)
    requires i < |prefix| && i !in done
    ensures prefix[i] in Kept(prefix, done)
  {
    var n := |prefix| - 1;
    if i < n {
      KeptOps(prefix[..n], done, i);
    }
  }

  lemma RequeuedOps(pending: seq<Op>, till: nat, done: set<nat>, i: nat)
    requires till <= |pending| && i < |pending| && (i >= till || i !in done)
    ensures pending[i] in Requeued(pending, till, done)
  {
    if i >= till {
      assert pending[till..][i - till] == pending[i];
    } else {
      KeptOps(pending[..till], done, i);
    }
  }

  lemma CheckKeepsFresh(s: State, ready: seq<Ready>, replies: seq<Answer>)
    requires Fresh(s) && Fits(s) && Enabled(s, Check(ready, replies))
    ensures Fresh(Next(s, Check(ready, replies)))
  {
    var t := Next(s, Check(ready, replies));
    var at := CompletedAt(ready, replies);
    FreshAndFittingIsAimed(s);
    CompletedComeFromReady(ready, replies, Registered(s), s.pending, Visited(s.pending, s.cap));
    forall f | f in t.table
      ensures Occurs(t.pending, f)
    {
      var i := Registered(s)[f];
      assert i !in Indices(at);
      RequeuedOps(s.pending, Till(s), Indices(at), i);
      var k :| 0 <= k < |t.pending| && t.pending[k] == s.pending[i];
      assert t.pending[k].filter == f;
    }
  }

  lemma FailedCheckKeepsFresh(s: State, applied: nat)
    requires Fresh(s) && Enabled(s, CheckFailed(applied))
    ensures Fresh(Next(s, CheckFailed(applied)))
  {
    var v := Visited(s.pending, s.cap);
    var list := ChangeList(s)[..applied];
    ChangesAreFirsts(s.pending[..v]);
    ChangesHaveDistinctFilters(s.pending[..v]);
    forall f | f in Next(s, CheckFailed(applied)).table
      ensures Occurs(s.pending, f)
    {
      MergedIs(s.table, list, f);
      if f !in s.table {
        var c :| c in list && c.filter == f;
        assert c in ChangeList(s) && FirstOf(s.pending[..v], c);
        assert s.pending[c.index].filter == f;
      }
    }
  }

  lemma StepKeepsFresh(s: State, step: Step)
    requires Fresh(s) && Enabled(s, step) && TidyStep(s, step)
    ensures Fresh(Next(s, step))
  {
    match step
    case Cancel(key) => CancelIsFreshIff(s, key);
    case Drain(answers, _) =>
      forall f | Occurs(s.pending, f)
        ensures Occurs(s.pending + Blocked(s.squeue, answers), f)
      {
        var i :| 0 <= i < |s.pending| && s.pending[i].filter == f;
        assert (s.pending + Blocked(s.squeue, answers))[i].filter == f;
      }
    case Check(ready, replies) => CheckKeepsFresh(s, ready, replies);
    case CheckFailed(applied) => FailedCheckKeepsFresh(s, applied);
    case _ =>
  }

  ghost predicate Tidy(s: State, steps: seq<Step>)
    requires AllEnabled(s, steps)
    decreases |steps|
  {
    steps == [] || (TidyStep(s, steps[0]) && Tidy(Next(s, steps[0]), steps[1..]))
  }

  lemma {:induction false} TidyRunIsFresh(s: State, steps: seq<Step>)
    requires Fresh(s) && AllEnabled(s, steps) && Tidy(s, steps)
    ensures Fresh(Run(s, steps))
    decreases |steps|
  {
    if steps != [] {
      StepKeepsFresh(s, steps[0]);
      TidyRunIsFresh(Next(s, steps[0]), steps[1..]);
    }
  }

  /**
   In every tidy run the kernel only ever points at pending operations by their current
   index: whatever a further check may be told is in range, at distinct operations that the
   scan visited, each with the event's own descriptor and direction.
   */
  lemma {:induction false} EventsAimAtTheirOperations(s: State, steps: seq<Step>, ready: seq<Ready>)
    requires Fresh(s) && AllEnabled(s, steps) && Tidy(s, steps)
    requires Fits(Run(s, steps)) && KernelMayReturn(Registered(Run(s, steps)), ready)
    ensures var t := Run(s, steps);
            && (forall i :: 0 <= i < |ready| ==>
                  && ready[i].index < Visited(t.pending, t.cap)
                  && t.pending[ready[i].index].filter == ready[i].filter)
            && (forall i, j :: 0 <= i < j < |ready| ==> ready[i].index != ready[j].index)
  {
    TidyRunIsFresh(s, steps);
    FreshAndFittingIsAimed(Run(s, steps));
  }

  // ---------------------------------------------------------------- indices out of range

  /** Whatever the kernel returns names a pending operation, so that the `expect` holds. */
  ghost predicate NoAnswerPanics(s: State) {
    forall ready :: KernelMayReturn(Registered(s), ready) ==> InRange(s.pending, ready)
  }

  /** The filters the scan does not register anew carry indices that are still in the queue. */
  ghost predicate LeftoversInRange(s: State) {
    forall f :: f in s.table && !Occurs(s.pending[..Visited(s.pending, s.cap)], f) ==> s.table[f] < |s.pending|
  }

  /** Where the filters of a state point once its scan has been registered. */
  lemma {:induction false} RegisteredIs(s: State, f: Filter)
    ensures var v := Visited(s.pending, s.cap);
            && (f in Registered(s) <==> f in s.table || Occurs(s.pending[..v], f))
            && (Occurs(s.pending[..v], f) ==> Registered(s)[f] < v)
            && (f in s.table && !Occurs(s.pending[..v], f) ==> Registered(s)[f] == s.table[f])
  {
    var prefix := s.pending[..Visited(s.pending, s.cap)];
    AimOf(s.table, s.pending, s.cap, f);
    ChangesAreFirsts(prefix);
    ChangesHaveDistinctFilters(prefix);
    MergedIs(s.table, Changes(prefix), f);
    assert forall c :: c in Changes(prefix) ==> FirstOf(prefix, c);
    assert (exists c :: c in Changes(prefix) && c.filter == f) ==> Occurs(prefix, f);
  }

  /**
   A check can be told an index out of range, and `submit` then panics, if and only if a filter
   that the scan does not register anew was left over with one.
   */
  lemma {:induction false} NoAnswerPanicsIff(s: State)
    ensures NoAnswerPanics(s) <==> LeftoversInRange(s)
  {
    var v, table := Visited(s.pending, s.cap), Registered(s);
    if LeftoversInRange(s) {
      forall ready: seq<Ready> | KernelMayReturn(table, ready)
        ensures InRange(s.pending, ready)
      {
        forall i | 0 <= i < |ready| ensures ready[i].index < |s.pending| {
          RegisteredIs(s, ready[i].filter);
        }
      }
    }
    if NoAnswerPanics(s) {
      forall f | f in s.table && !Occurs(s.pending[..v], f)
        ensures s.table[f] < |s.pending|
      {
        RegisteredIs(s, f);
        var ready := [Ready(f, table[f], None)];
        assert KernelMayReturn(table, ready);
        assert ready[0].index < |s.pending|;
      }
    }
  }

  lemma {:induction false} FreshLeftoversAreInRange(s: State)
    requires Fresh(s) && Fits(s)
    ensures LeftoversInRange(s)
  {
    forall f | f in s.table ensures Occurs(s.pending[..Visited(s.pending, s.cap)], f) {
      FittingScanVisitsAllFilters(s, f);
    }
  }

  // ---------------------------------------------------------------- exactly once

  /** The completed operations are different ones, and the rotation reaches all of them. */
  predicate Clean(s: State, step: Step) {
    step.Check? && |step.ready| == |step.replies| ==>
      AllBelow(CompletedAt(step.ready, step.replies), Till(s)) && Distinct(CompletedAt(step.ready, step.replies))
  }

  predicate AllClean(s: State, steps: seq<Step>)
    requires AllEnabled(s, steps)
    decreases |steps|
  {
    steps == [] || (Clean(s, steps[0]) && AllClean(Next(s, steps[0]), steps[1..]))
  }

  lemma StepLeaksIff(s: State, step: Step)
    requires Enabled(s, step)
    ensures s.leaked <= Next(s, step).leaked
    ensures Next(s, step).leaked == s.leaked <==> Clean(s, step)
  {
    if step.Check? {
      CompletedAreInRange(s.pending, step.ready, step.replies);
      LeaksNothingIff(s.pending, Till(s), CompletedAt(step.ready, step.replies));
    }
  }

  lemma {:induction false} RunLeaksIff(s: State, steps: seq<Step>)
    requires AllEnabled(s, steps)
    ensures s.leaked <= Run(s, steps).leaked
    ensures Run(s, steps).leaked == s.leaked <==> AllClean(s, steps)
    decreases |steps|
  {
    if steps != [] {
      StepLeaksIff(s, steps[0]);
      RunLeaksIff(Next(s, steps[0]), steps[1..]);
    }
  }

  /**
   In every run every key is found, over the queues, the timers, the deliveries and the
   cancellations, exactly as often as it was accepted (so a key accepted once is in exactly one
   place and delivered at most once) if and only if every check completed different operations,
   all of them before the end of its rotation.
   */
  lemma {:induction false} DeliveredOnceIff(s: State, steps: seq<Step>)
    requires Initial(s) && AllEnabled(s, steps)
    ensures (forall key :: Places(Run(s, steps), key) == Count(Run(s, steps).accepted, key))
            <==> AllClean(s, steps)
  {
    var t := Run(s, steps);
    RunLeaksIff(s, steps);
    forall key
      ensures Places(t, key) == Count(t.accepted, key) + Count(t.leaked, key)
    {
      RunBalances(s, steps, key);
    }
    if t.leaked != [] {
      var key := t.leaked[|t.leaked| - 1].userData;
      assert Count(t.leaked, key) > 0;
      assert Places(t, key) != Count(t.accepted, key);
    }
  }

  /**
   In such a run, and so at every point of it, no key has been reported or cancelled more often
   than it was accepted: a key is reported only while the driver holds it.
   */
  lemma {:induction false} ReportsAreHeld(s: State, steps: seq<Step>, key: nat)
    requires Initial(s) && AllEnabled(s, steps) && AllClean(s, steps)
    ensures var t := Run(s, steps);
            EntryCount(t.delivered, key) + Count(t.cancelled, key) <= Count(t.accepted, key)
  {
    RunLeaksIff(s, steps);
    RunBalances(s, steps, key);
  }

  // ---------------------------------------------------------------- before the kernel answers

  /** Of the filters registered, those in range name different operations, all before `end`. */
  ghost predicate Separate(table: map<Filter, nat>, n: nat, end: nat) {
    && (forall f :: f in table && table[f] < n ==> table[f] < end)
    && (forall f, g :: f in table && g in table && f != g && table[f] < n ==> table[f] != table[g])
  }

  /** Whatever the kernel and the operations answer, a rotation that ends at `end` leaks nothing. */
  ghost predicate NoAnswerLeaks(s: State, end: nat) {
    forall ready, replies :: Enabled(s, Check(ready, replies)) ==>
      var at := CompletedAt(ready, replies);
      AllBelow(at, |s.pending|) && Leaks(s.pending, end, at) == []
  }

  lemma {:induction false} SeparateCompletions(table: map<Filter, nat>, n: nat, end: nat,
                                               ready: seq<Ready>, replies: seq<Answer>)
    requires Separate(table, n, end) && |ready| == |replies| && KernelMayReturn(table, ready)
    requires forall i :: 0 <= i < |ready| ==> ready[i].index < n
    ensures AllBelow(CompletedAt(ready, replies), end) && Distinct(CompletedAt(ready, replies))
    ensures forall x :: x in CompletedAt(ready, replies) ==>
                          exists k :: 0 <= k < |ready| && ready[k].index == x
  {
    if ready != [] {
      var m := |ready| - 1;
      var at := CompletedAt(ready[..m], replies[..m]);
      SeparateCompletions(table, n, end, ready[..m], replies[..m]);
      forall x | x in at
        ensures exists k :: 0 <= k < m && ready[k].index == x
      {
        var k :| 0 <= k < m && ready[..m][k].index == x;
        assert ready[k].index == x;
      }
      assert ready[m].index !in at;
    }
  }

  lemma {:induction false} OneAnswer(r: Ready)
    ensures CompletedAt([r], [Some(Ok(0))]) == [r.index]
  {
    assert [r][..0] == [];
  }

  lemma {:induction false} TwoAnswers(q: Ready, r: Ready)
    ensures CompletedAt([q, r], [Some(Ok(0)), Some(Ok(0))]) == [q.index, r.index]
  {
    var answers: seq<Answer> := [Some(Ok(0)), Some(Ok(0))];
    OneAnswer(q);
    assert [q, r][..1] == [q] && answers[..1] == [Some(Ok(0))];
  }

  /**
   A check can leak if and only if two registered filters carry the same index, or one an index
   the rotation does not reach: what the driver could tell before it asks the kernel.
   */
  lemma {:induction false} NoAnswerLeaksIff(s: State, end: nat)
    ensures NoAnswerLeaks(s, end) <==> Separate(Registered(s), |s.pending|, end)
  {
    var table, n := Registered(s), |s.pending|;
    if Separate(table, n, end) {
      forall ready, replies | Enabled(s, Check(ready, replies))
        ensures AllBelow(CompletedAt(ready, replies), n) && Leaks(s.pending, end, CompletedAt(ready, replies)) == []
      {
        CompletedAreInRange(s.pending, ready, replies);
        SeparateCompletions(table, n, end, ready, replies);
        LeaksNothingIff(s.pending, end, CompletedAt(ready, replies));
      }
    }
    if NoAnswerLeaks(s, end) {
      forall f | f in table && table[f] < n
        ensures table[f] < end
      {
        if table[f] >= end {
          UnreachedIndexLeaks(s, end, f);
        }
      }
      forall f, g | f in table && g in table && f != g && table[f] < n
        ensures table[f] != table[g]
      {
        if table[f] == table[g] {
          SharedIndexLeaks(s, end, f, g);
        }
      }
    }
  }

  lemma {:induction false} UnreachedIndexLeaks(s: State, end: nat, f: Filter)
    requires f in Registered(s) && end <= Registered(s)[f] < |s.pending|
    ensures !NoAnswerLeaks(s, end)
  {
    var r := Ready(f, Registered(s)[f], None);
    OneAnswer(r);
    assert Enabled(s, Check([r], [Some(Ok(0))]));
    LeaksNothingIff(s.pending, end, [r.index]);
    assert [r.index][0] == r.index;
  }

  lemma {:induction false} SharedIndexLeaks(s: State, end: nat, f: Filter, g: Filter)
    requires f in Registered(s) && g in Registered(s) && f != g
    requires Registered(s)[f] == Registered(s)[g] < |s.pending|
    ensures !NoAnswerLeaks(s, end)
  {
    var i := Registered(s)[f];
    var q, r := Ready(f, i, None), Ready(g, i, None);
    TwoAnswers(q, r);
    assert Enabled(s, Check([q, r], [Some(Ok(0)), Some(Ok(0))]));
    LeaksNothingIff(s.pending, end, [i, i]);
    assert [i, i][0] == [i, i][1];
  }

  // ---------------------------------------------------------------- tidy runs

  /** The check scans the whole queue and its last operation completes. */
  predicate CompletesLast(s: State, step: Step) {
    && step.Check? && |step.ready| == |step.replies|
    && s.pending != [] && Visited(s.pending, s.cap) == |s.pending|
    && |s.pending| - 1 in CompletedAt(step.ready, step.replies)
  }

  lemma {:induction false} TidyCheckIsCleanIff(s: State, step: Step)
    requires step.Check? && Enabled(s, step) && Fresh(s) && Fits(s)
    ensures Clean(s, step) <==> s.end.NumberVisited? || !CompletesLast(s, step)
  {
    var at, v := CompletedAt(step.ready, step.replies), Visited(s.pending, s.cap);
    FreshAndFittingIsAimed(s);
    CompletedComeFromReady(step.ready, step.replies, Registered(s), s.pending, v);
    TillCoversIff(s, at);
  }

  lemma {:induction false} TillCoversIff(s: State, at: seq<nat>)
    requires AllBelow(at, Visited(s.pending, s.cap))
    ensures AllBelow(at, Till(s)) <==>
            s.end.NumberVisited? ||
            !(s.pending != [] && Visited(s.pending, s.cap) == |s.pending| && |s.pending| - 1 in at)
  {
  }

  predicate SomeCheckCompletesLast(s: State, steps: seq<Step>)
    requires AllEnabled(s, steps)
    decreases |steps|
  {
    steps != [] && (CompletesLast(s, steps[0]) || SomeCheckCompletesLast(Next(s, steps[0]), steps[1..]))
  }

  /**
   In a tidy run the only thing that can go wrong is a full scan completing the last operation, and
   not even that if rotations ended at the number of operations visited.
   */
  lemma {:induction false} TidyRunIsCleanIff(s: State, steps: seq<Step>)
    requires Fresh(s) && AllEnabled(s, steps) && Tidy(s, steps)
    ensures AllClean(s, steps) <==> s.end.NumberVisited? || !SomeCheckCompletesLast(s, steps)
    decreases |steps|
  {
    if steps != [] {
      StepKeepsFresh(s, steps[0]);
      if steps[0].Check? {
        TidyCheckIsCleanIff(s, steps[0]);
      }
      TidyRunIsCleanIff(Next(s, steps[0]), steps[1..]);
    }
  }

  /** With the number of operations visited as the end, every tidy run conserves every key. */
  lemma {:induction false} VisitedEndDeliversOnce(s: State, steps: seq<Step>, key: nat)
    requires Initial(s) && s.end.NumberVisited? && AllEnabled(s, steps) && Tidy(s, steps)
    ensures Places(Run(s, steps), key) == Count(Run(s, steps).accepted, key)
  {
    TidyRunIsCleanIff(s, steps);
    RunLeaksIff(s, steps);
    RunBalances(s, steps, key);
  }

  // ---------------------------------------------------------------- runs that go wrong

  /**
   The smallest case: one pending operation becomes ready.  It is delivered, stays in the
   queue, and is delivered again by the next check that finds it ready.
   */
  lemma LoneOperationIsDeliveredTwice(s: State, op: Op) returns (steps: seq<Step>)
    requires Initial(s) && s.limit > 0 && s.cap > 0 && s.end.StoredIndex?
    ensures AllEnabled(s, steps)
    ensures Run(s, steps).accepted == Run(s, steps).pending == [op]
    ensures Run(s, steps).delivered == [Entry(op.userData, Ok(1)), Entry(op.userData, Ok(1))]
  {
    var push, drain := Push([op]), Drain([None], [0]);
    var s1 := Next(s, push);
    LoneDrain(s1, op);
    var s2 := Next(s1, drain);
    var rest := LoneChecks(s2, op);
    Unfold(s1, drain, rest);
    Unfold(s, push, [drain] + rest);
    steps := [push] + ([drain] + rest);
  }

  lemma LoneChecks(s: State, op: Op) returns (steps: seq<Step>)
    requires s.pending == [op] && s.cap > 0 && s.end.StoredIndex? && s.delivered == []
    ensures AllEnabled(s, steps)
    ensures Run(s, steps).accepted == s.accepted && Run(s, steps).pending == [op]
    ensures Run(s, steps).delivered == [Entry(op.userData, Ok(1)), Entry(op.userData, Ok(1))]
  {
    var ready, reply := [Ready(op.filter, 0, None)], [Some(Ok(1))];
    LoneCheck(s, op, ready, reply);
    var t := Next(s, Check(ready, reply));
    LoneCheck(t, op, ready, reply);
    TwoSteps(s, Check(ready, reply), Check(ready, reply));
    steps := [Check(ready, reply), Check(ready, reply)];
  }

  lemma LoneDrain(s: State, op: Op)
    requires s.squeue == [op] && s.pending == [] && s.delivered == []
    ensures var t := Next(s, Drain([None], [0]));
            && t.pending == [op] && t.delivered == [] && t.table == s.table && t.squeue == []
            && t.cap == s.cap && t.end == s.end && t.accepted == s.accepted
  {
    var ops, answers: seq<Answer> := [op], [None];
    assert ops[..0] == [] && answers[..0] == [];
    assert Blocked(ops, answers) == Blocked(ops[..0], answers[..0]) + [op];
    assert DoneAtOnce(ops, answers) == DoneAtOnce(ops[..0], answers[..0]);
  }

  lemma LoneScan(op: Op, cap: nat)
    requires cap > 0
    ensures Visited([op], cap) == 1 && Changes([op][..1]) == [Change(op.filter, 0)]
  {
    assert [op][..0] == [] && [op][..1] == [op];
    assert VisitFrom([op], cap, 1) == 1;
  }

  lemma LoneCheck(s: State, op: Op, ready: seq<Ready>, reply: seq<Answer>)
    requires s.pending == [op] && s.cap > 0 && s.end.StoredIndex?
    requires ready == [Ready(op.filter, 0, None)] && reply == [Some(Ok(1))]
    ensures Enabled(s, Check(ready, reply))
    ensures var t := Next(s, Check(ready, reply));
            && t.pending == [op] && t.cap == s.cap && t.end == s.end && t.accepted == s.accepted
            && t.delivered == s.delivered + [Entry(op.userData, Ok(1))]
  {
    LoneScan(op, s.cap);
    var list := ChangeList(s);
    assert list == [Change(op.filter, 0)] && list[..0] == [];
    assert Registered(s) == Merged(s.table, list[..0])[op.filter := 0];
    LoneFinish(op, ready, reply);
  }

  lemma LoneFinish(op: Op, ready: seq<Ready>, reply: seq<Answer>)
    requires ready == [Ready(op.filter, 0, None)] && reply == [Some(Ok(1))]
    ensures CompletedAt(ready, reply) == [0] && Requeued([op], 0, {0}) == [op]
    ensures Finished([op], ready, reply) == [Entry(op.userData, Ok(1))]
  {
    assert ready[..0] == [] && reply[..0] == [];
    assert Finished([op], ready, reply) == Finished([op], ready[..0], reply[..0]) + [Entry(op.userData, Ok(1))];
  }

  lemma {:induction false} NarrowScan(a: Op, b: Op)
    ensures Visited([a, b], 1) == 1 && ScannedTill([a, b], 1) == 1
    ensures Changes([a, b][..1]) == [Change(a.filter, 0)]
  {
    var ops := [a, b];
    assert ops[..0] == [] && ops[..1] == [a] && [a][..0] == [];
    assert Changes([a]) == Changes([]) + [Change(a.filter, 0)];
    assert VisitFrom(ops, 1, 0) == VisitFrom(ops, 1, 1) == 1;
  }

  lemma {:induction false} NarrowDrain(s: State, a: Op, b: Op)
    requires s.squeue == [a, b] && s.pending == [] && s.delivered == []
    ensures var t := Next(s, Drain([None, None], [0, 0]));
            && t.pending == [a, b] && t.delivered == [] && t.table == s.table
            && t.cap == s.cap && t.accepted == s.accepted
  {
    var ops, answers: seq<Answer> := [a, b], [None, None];
    assert ops[..1] == [a] && answers[..1] == [None] && [a][..0] == [] && answers[..1][..0] == [];
    assert Blocked([a], [None]) == Blocked([], []) + [a];
    assert Blocked(ops, answers) == Blocked([a], [None]) + [b];
    assert DoneAtOnce(ops, answers) == DoneAtOnce([a], [None]) == DoneAtOnce([], []);
  }

  /** With room for one change, a check that finds nothing ready rotates one operation away. */
  lemma {:induction false} NarrowCheck(s: State, a: Op, b: Op)
    requires s.pending == [a, b] && s.cap == 1
    ensures Enabled(s, Check([], []))
    ensures var t := Next(s, Check([], []));
            && t.pending == [b, a] && t.table == s.table[a.filter := 0] && t.delivered == s.delivered
            && t.cap == 1 && t.accepted == s.accepted
  {
    NarrowScan(a, b);
    var list := ChangeList(s);
    assert list == [Change(a.filter, 0)] && list[..0] == [];
    assert Registered(s) == Merged(s.table, list[..0])[a.filter := 0];
    assert s.pending[..1] == [a] && s.pending[1..] == [b] && [a][..0] == [];
    assert Kept([a], Indices([])) == Kept([], Indices([])) + [a];
    assert FiltersOf([]) == {};
  }

  /** Both filters now carry index 0, where `b` is. */
  lemma {:induction false} NarrowDoubleCheck(s: State, a: Op, b: Op, ready: seq<Ready>, replies: seq<Answer>)
    requires s.pending == [b, a] && s.cap == 1 && s.delivered == [] && s.table == map[a.filter := 0]
    requires a.filter != b.filter
    requires ready == [Ready(a.filter, 0, None), Ready(b.filter, 0, None)] && replies == [Some(Ok(0)), Some(Ok(0))]
    ensures Enabled(s, Check(ready, replies)) && !CompletesLast(s, Check(ready, replies))
    ensures var t := Next(s, Check(ready, replies));
            && t.pending == [a] && t.accepted == s.accepted
            && t.delivered == [Entry(b.userData, Ok(0)), Entry(b.userData, Ok(0))]
  {
    NarrowScan(b, a);
    var list := ChangeList(s);
    assert list == [Change(b.filter, 0)] && list[..0] == [];
    assert Registered(s) == Merged(s.table, list[..0])[b.filter := 0];
    TwoAnswers(ready[0], ready[1]);
    assert ready[..1] == [ready[0]] && replies[..1] == [replies[0]] && [ready[0]][..0] == [];
    assert Finished(s.pending, [ready[0]], [replies[0]]) == Finished(s.pending, [], []) + [Entry(b.userData, Ok(0))];
    assert Finished(s.pending, ready, replies)
        == Finished(s.pending, [ready[0]], [replies[0]]) + [Entry(b.userData, Ok(0))];
    assert s.pending[..1] == [b] && s.pending[1..] == [a] && [b][..0] == [];
    assert Indices([0, 0]) == {0} by {
      assert [0, 0][0] == 0;
    }
    assert Kept([b], {0}) == Kept([], {0});
  }

  lemma {:induction false} NeverLastUnfolds(s: State, step: Step, rest: seq<Step>)
    requires Enabled(s, step) && AllEnabled(Next(s, step), rest)
    requires !CompletesLast(s, step) && !SomeCheckCompletesLast(Next(s, step), rest)
    ensures AllEnabled(s, [step] + rest) && Run(s, [step] + rest) == Run(Next(s, step), rest)
    ensures !SomeCheckCompletesLast(s, [step] + rest)
  {
    assert ([step] + rest)[1..] == rest;
  }

  lemma {:induction false} NarrowChecks(s: State, a: Op, b: Op) returns (steps: seq<Step>)
    requires s.pending == [a, b] && s.cap == 1 && s.delivered == [] && s.table == map[] && a.filter != b.filter
    ensures AllEnabled(s, steps) && !SomeCheckCompletesLast(s, steps)
    ensures Run(s, steps).accepted == s.accepted && Run(s, steps).pending == [a]
    ensures Run(s, steps).delivered == [Entry(b.userData, Ok(0)), Entry(b.userData, Ok(0))]
  {
    var ready, replies := [Ready(a.filter, 0, None), Ready(b.filter, 0, None)], [Some(Ok(0)), Some(Ok(0))];
    var idle, busy := Check([], []), Check(ready, replies);
    NarrowScan(a, b);
    NarrowCheck(s, a, b);
    var t := Next(s, idle);
    assert t.table == map[a.filter := 0];
    NarrowDoubleCheck(t, a, b, ready, replies);
    NeverLastUnfolds(t, busy, []);
    NeverLastUnfolds(s, idle, [busy] + []);
    steps := [idle] + ([busy] + []);
  }

  /**
   A change list with room for one filter, two operations waiting for different ones: the stale
   filter of the first comes to carry the index of the second, which one check delivers twice,
   without ever scanning to the end of the queue.
   */
  lemma {:induction false} NarrowScanDeliversTwice(s: State, a: Op, b: Op) returns (steps: seq<Step>)
    requires Initial(s) && s.limit >= 2 && s.cap == 1 && a.filter != b.filter
    ensures AllEnabled(s, steps) && !SomeCheckCompletesLast(s, steps)
    ensures Run(s, steps).accepted == [a, b] && Run(s, steps).pending == [a]
    ensures Run(s, steps).delivered == [Entry(b.userData, Ok(0)), Entry(b.userData, Ok(0))]
  {
    var push, drain := Push([a, b]), Drain([None, None], [0, 0]);
    var s1 := Next(s, push);
    NarrowDrain(s1, a, b);
    var s2 := Next(s1, drain);
    var rest := NarrowChecks(s2, a, b);
    NeverLastUnfolds(s1, drain, rest);
    NeverLastUnfolds(s, push, [drain] + rest);
    steps := [push] + ([drain] + rest);
  }

  lemma {:induction false} CleanUnfolds(s: State, step: Step, rest: seq<Step>)
    requires Enabled(s, step) && AllEnabled(Next(s, step), rest)
    requires Clean(s, step) && AllClean(Next(s, step), rest) && !step.Cancel? && NoCancel(rest)
    ensures AllEnabled(s, [step] + rest) && Run(s, [step] + rest) == Run(Next(s, step), rest)
    ensures AllClean(s, [step] + rest) && NoCancel([step] + rest)
  {
    assert ([step] + rest)[1..] == rest;
  }

  predicate ThreeFilters(w: Op, x: Op, y: Op) {
    w.filter != x.filter && x.filter != y.filter && w.filter != y.filter
  }

  lemma {:induction false} WideScan(a: Op, b: Op, c: Op)
    requires a.filter != b.filter
    ensures Visited([a, b, c], 2) == 2 && ScannedTill([a, b, c], 2) == 2
    ensures Changes([a, b, c][..2]) == [Change(a.filter, 0), Change(b.filter, 1)]
  {
    var ops := [a, b, c];
    assert ops[..0] == [] && ops[..1] == [a] && ops[..2] == [a, b] && [a, b][..1] == [a] && [a][..0] == [];
    assert Changes([a]) == Changes([]) + [Change(a.filter, 0)];
    assert !Occurs([a], b.filter);
    assert Changes([a, b]) == Changes([a]) + [Change(b.filter, 1)];
    assert VisitFrom(ops, 2, 0) == VisitFrom(ops, 2, 1) == VisitFrom(ops, 2, 2) == 2;
  }

  lemma {:induction false} WideRegistered(s: State, a: Op, b: Op, c: Op)
    requires s.pending == [a, b, c] && s.cap == 2 && a.filter != b.filter
    ensures Registered(s) == s.table[a.filter := 0][b.filter := 1] && Till(s) == 2
  {
    WideScan(a, b, c);
    var list := ChangeList(s);
    assert list == [Change(a.filter, 0), Change(b.filter, 1)] && list[..1] == [list[0]] && [list[0]][..0] == [];
    assert Merged(s.table, [list[0]]) == Merged(s.table, [])[a.filter := 0];
    assert Merged(s.table, list) == Merged(s.table, [list[0]])[b.filter := 1];
  }

  lemma {:induction false} WideDrain(s: State, w: Op, x: Op, y: Op)
    requires s.squeue == [w, x, y] && s.pending == []
    ensures var t := Next(s, Drain([None, None, None], [0, 0, 0]));
            t.pending == [w, x, y] && t.table == s.table && t.cap == s.cap
  {
    var ops, answers: seq<Answer> := [w, x, y], [None, None, None];
    assert ops[..2] == [w, x] && answers[..2] == [None, None];
    assert [w, x][..1] == [w] && answers[..2][..1] == [None] && [w][..0] == [];
    assert Blocked([w], [None]) == Blocked([], []) + [w];
    assert Blocked([w, x], [None, None]) == Blocked([w], [None]) + [x];
    assert Blocked(ops, answers) == Blocked([w, x], [None, None]) + [y];
  }

  /** With room for two changes, a check that finds nothing ready rotates two operations away. */
  lemma {:induction false} WideIdleCheck(s: State, w: Op, x: Op, y: Op)
    requires s.pending == [w, x, y] && s.cap == 2 && s.table == map[] && ThreeFilters(w, x, y)
    ensures Enabled(s, Check([], [])) && Clean(s, Check([], []))
    ensures var t := Next(s, Check([], []));
            t.pending == [y, w, x] && t.table == map[w.filter := 0, x.filter := 1] && t.cap == 2
  {
    WideRegistered(s, w, x, y);
    assert s.pending[..2] == [w, x] && s.pending[2..] == [y] && [w, x][..1] == [w] && [w][..0] == [];
    assert Kept([w], Indices([])) == Kept([], Indices([])) + [w];
    assert Kept([w, x], Indices([])) == Kept([w], Indices([])) + [x];
    assert FiltersOf([]) == {};
  }

  /** The stale filter of `x` names `w`, which leaves the queue while its own filter stays. */
  lemma {:induction false} WideBusyCheck(s: State, w: Op, x: Op, y: Op, ready: seq<Ready>, replies: seq<Answer>)
    requires s.pending == [y, w, x] && s.cap == 2 && s.table == map[w.filter := 0, x.filter := 1]
    requires ThreeFilters(w, x, y)
    requires ready == [Ready(x.filter, 1, None), Ready(y.filter, 0, None)] && replies == [Some(Ok(0)), Some(Ok(0))]
    ensures Enabled(s, Check(ready, replies)) && Clean(s, Check(ready, replies))
    ensures var t := Next(s, Check(ready, replies)); t.pending == [x] && t.table == map[w.filter := 1] && t.cap == 2
  {
    WideRegistered(s, y, w, x);
    TwoAnswers(ready[0], ready[1]);
    assert s.pending[..2] == [y, w] && s.pending[2..] == [x] && [y, w][..1] == [y] && [y][..0] == [];
    assert Indices([1, 0]) == {0, 1} by {
      assert [1, 0][0] == 1 && [1, 0][1] == 0;
    }
    assert Kept([y], {0, 1}) == Kept([], {0, 1});
    assert Kept([y, w], {0, 1}) == Kept([y], {0, 1});
    assert FiltersOf(ready) == {x.filter, y.filter} by {
      assert ready[0].filter == x.filter && ready[1].filter == y.filter;
    }
  }

  lemma {:induction false} WideChecks(s: State, w: Op, x: Op, y: Op) returns (steps: seq<Step>)
    requires s.pending == [w, x, y] && s.cap == 2 && s.table == map[] && ThreeFilters(w, x, y)
    ensures AllEnabled(s, steps) && AllClean(s, steps) && NoCancel(steps)
    ensures var t := Run(s, steps); t.pending == [x] && t.table == map[w.filter := 1] && t.cap == 2
  {
    var events, replies := [Ready(x.filter, 1, None), Ready(y.filter, 0, None)], [Some(Ok(0)), Some(Ok(0))];
    var idle, busy := Check([], []), Check(events, replies);
    WideIdleCheck(s, w, x, y);
    var t := Next(s, idle);
    WideBusyCheck(t, w, x, y, events, replies);
    CleanUnfolds(t, busy, []);
    CleanUnfolds(s, idle, [busy] + []);
    steps := [idle] + ([busy] + []);
  }

  /**
   Three operations with different filters, room for two changes, and no cancel: every check
   completes different operations, each once and before the end of its rotation, and yet the
   kernel is left with a filter whose index is out of range.
   */
  lemma {:induction false} FullListLeavesAStaleFilter(s: State, w: Op, x: Op, y: Op)
    returns (steps: seq<Step>, ready: seq<Ready>)
    requires Initial(s) && s.limit >= 3 && s.cap == 2 && ThreeFilters(w, x, y)
    ensures AllEnabled(s, steps) && AllClean(s, steps) && NoCancel(steps)
    ensures KernelMayReturn(Registered(Run(s, steps)), ready) && !InRange(Run(s, steps).pending, ready)
  {
    var push, drain := Push([w, x, y]), Drain([None, None, None], [0, 0, 0]);
    var s1 := Next(s, push);
    WideDrain(s1, w, x, y);
    var s2 := Next(s1, drain);
    var rest := WideChecks(s2, w, x, y);
    ready := StaleAnswer(Run(s2, rest), w, x);
    CleanUnfolds(s1, drain, rest);
    CleanUnfolds(s, push, [drain] + rest);
    steps := [push] + ([drain] + rest);
  }

  lemma {:induction false} StaleAnswer(s: State, w: Op, x: Op) returns (ready: seq<Ready>)
    requires s.pending == [x] && s.table == map[w.filter := 1] && s.cap == 2 && w.filter != x.filter
    ensures KernelMayReturn(Registered(s), ready) && !InRange(s.pending, ready)
  {
    LoneScan(x, 2);
    RegisteredIs(s, w.filter);
    ready := [Ready(w.filter, 1, None)];
    assert ready[0].index >= |s.pending|;
  }

  /** After a first check its filter is registered; the cancel does not take it back. */
  lemma {:induction false} CancelAfterCheck(s: State, op: Op)
    requires s.pending == [op] && s.squeue == [] && s.cap > 0 && s.end.StoredIndex? && s.table == map[]
    ensures Enabled(s, Check([], []))
    ensures var t := Next(Next(s, Check([], [])), Cancel(op.userData));
            !TidyCancel(Next(s, Check([], [])), op.userData) && t.pending == [] && t.table == map[op.filter := 0]
  {
    LoneScan(op, s.cap);
    var list := ChangeList(s);
    assert list == [Change(op.filter, 0)] && list[..0] == [];
    assert Registered(s) == Merged(s.table, list[..0])[op.filter := 0];
    assert FiltersOf([]) == {};
    var t := Next(s, Check([], []));
    assert s.pending[..0] == [] && t.pending == [op] && t.table == map[op.filter := 0];
    assert Find(t.pending, op.userData) == Some(0);
    assert Removed(t.pending, Some(0)) == [];
  }

  /**
   Cancelling the only pending operation after it was registered: its filter may still fire, with
   an index out of range, and the next `submit` panics.
   */
  lemma CancelLeavesAStaleFilter(s: State, op: Op) returns (steps: seq<Step>, ready: seq<Ready>)
    requires Initial(s) && s.limit > 0 && s.cap > 0 && s.end.StoredIndex?
    ensures AllEnabled(s, steps)
    ensures KernelMayReturn(Registered(Run(s, steps)), ready) && !InRange(Run(s, steps).pending, ready)
  {
    var push, drain, idle, cancel := Push([op]), Drain([None], [0]), Check([], []), Cancel(op.userData);
    var s1 := Next(s, push);
    LoneDrain(s1, op);
    var s2 := Next(s1, drain);
    CancelAfterCheck(s2, op);
    TwoSteps(s2, idle, cancel);
    Unfold(s1, drain, [idle, cancel]);
    Unfold(s, push, [drain] + [idle, cancel]);
    steps := [push] + ([drain] + [idle, cancel]);
    ready := [Ready(op.filter, 0, None)];
    var t := Run(s, steps);
    assert ChangeList(t) == [] && Registered(t) == map[op.filter := 0];
    assert ready[0].index >= |t.pending|;
  }

  // ---------------------------------------------------------------- cancelled operations

  /** Neither queue holds an operation under the key; a timer may. */
  predicate Unqueued(s: State, key: nat) {
    Count(s.squeue, key) == 0 && Count(s.pending, key) == 0
  }

  predicate NeverPushed(steps: seq<Step>, key: nat) {
    forall i :: 0 <= i < |steps| && steps[i].Push? ==> Count(steps[i].ops, key) == 0
  }

  /** What was reported under a key and what its timers will report. */
  function ReportedOrArmed(s: State, key: nat): nat {
    EntryCount(s.delivered, key) + TimerCount(s.timers, key)
  }

  lemma {:induction false} NoneAt(pending: seq<Op>, at: seq<nat>, key: nat)
    requires AllBelow(at, |pending|) && Count(pending, key) == 0
    ensures Count(OpsAt(pending, at), key) == 0
  {
    if at != [] {
      var n := |at| - 1;
      NoneAt(pending, at[..n], key);
      CountConcat(OpsAt(pending, at[..n]), [pending[at[n]]], key);
      CountWithout(pending, at[n], key);
    }
  }

  lemma {:induction false} StepReportsTimersOnly(s: State, step: Step, key: nat)
    requires Enabled(s, step) && Unqueued(s, key) && NeverPushed([step], key)
    ensures Unqueued(Next(s, step), key) && ReportedOrArmed(Next(s, step), key) == ReportedOrArmed(s, key)
  {
    match step
    case Push(ops) =>
      assert [step][0] == step;
      CountConcat(s.squeue, ops, key);
    case Cancel(k) =>
      var p, q := Find(s.squeue, k), Find(s.pending, k);
      if p.Some? { CountWithout(s.squeue, p.value, key); }
      if q.Some? { CountWithout(s.pending, q.value, key); }
    case Drain(answers, clock) => DrainReportsTimersOnly(s, answers, clock, key);
    case Expire(now, fired, left) => ExpireReportsTimersOnly(s, now, fired, left, key);
    case Check(ready, replies) => CheckReportsTimersOnly(s, ready, replies, key);
    case CheckFailed(_) =>
  }

  lemma {:induction false} DrainReportsTimersOnly(s: State, answers: seq<Answer>, clock: seq<nat>, key: nat)
    requires Enabled(s, Drain(answers, clock)) && Unqueued(s, key)
    ensures var t := Next(s, Drain(answers, clock));
            Unqueued(t, key) && ReportedOrArmed(t, key) == ReportedOrArmed(s, key)
  {
    DrainBalances(s.squeue, answers, clock, key);
    CountConcat(s.pending, Blocked(s.squeue, answers), key);
    TimerCountConcat(s.timers, Started(s.squeue, answers, clock), key);
    EntryCountConcat(s.delivered, DoneAtOnce(s.squeue, answers), key);
  }

  lemma {:induction false} ExpireReportsTimersOnly(s: State, now: nat, fired: seq<Timers.Timer>,
                                                   left: seq<Timers.Timer>, key: nat)
    requires Enabled(s, Expire(now, fired, left)) && Unqueued(s, key)
    ensures var t := Next(s, Expire(now, fired, left));
            Unqueued(t, key) && ReportedOrArmed(t, key) == ReportedOrArmed(s, key)
  {
    SameTimersSameCount(s.timers, left + fired, key);
    TimerCountConcat(left, fired, key);
    TimerEntriesCount(fired, key);
    EntryCountConcat(s.delivered, TimerEntries(fired), key);
  }

  lemma {:induction false} CheckReportsTimersOnly(s: State, ready: seq<Ready>, replies: seq<Answer>, key: nat)
    requires Enabled(s, Check(ready, replies)) && Unqueued(s, key)
    ensures var t := Next(s, Check(ready, replies));
            Unqueued(t, key) && ReportedOrArmed(t, key) == ReportedOrArmed(s, key)
  {
    var at := CompletedAt(ready, replies);
    CompletedAreInRange(s.pending, ready, replies);
    FinishedCount(s.pending, ready, replies, key);
    NoneAt(s.pending, at, key);
    EntryCountConcat(s.delivered, Finished(s.pending, ready, replies), key);
    RequeueBalances(s.pending, Till(s), at, key);
    NoneLeaked(s.pending, Till(s), at, key);
  }

  lemma {:induction false} NoneLeaked(pending: seq<Op>, till: nat, at: seq<nat>, key: nat)
    requires AllBelow(at, |pending|) && Count(pending, key) == 0
    ensures Count(Leaks(pending, till, at), key) == 0
  {
    if at != [] {
      var n := |at| - 1;
      NoneLeaked(pending, till, at[..n], key);
      CountWithout(pending, at[n], key);
      CountConcat(Leaks(pending, till, at[..n]),
                  if at[n] >= till || at[n] in at[..n] then [pending[at[n]]] else [], key);
    }
  }

  lemma {:induction false} RunReportsTimersOnly(s: State, steps: seq<Step>, key: nat)
    requires AllEnabled(s, steps) && Unqueued(s, key) && NeverPushed(steps, key)
    ensures ReportedOrArmed(Run(s, steps), key) == ReportedOrArmed(s, key)
    decreases |steps|
  {
    if steps != [] {
      assert [steps[0]][0] == steps[0];
      StepReportsTimersOnly(s, steps[0], key);
      RunReportsTimersOnly(Next(s, steps[0]), steps[1..], key);
    }
  }

  lemma {:induction false} NoneFound(ops: seq<Op>, key: nat)
    requires forall i :: 0 <= i < |ops| ==> ops[i].userData != key
    ensures Count(ops, key) == 0
  {
    if ops != [] {
      NoneFound(ops[..|ops| - 1], key);
    }
  }

  /**
   After a cancel, and whatever happens next until the key is pushed again, what is reported under
   the key is exactly what its timers, which the cancel leaves armed, report as they expire: an
   operation found queued or pending is never reported, a cancelled timer is.
   */
  lemma {:induction false} CancelReportsTimersOnly(s: State, key: nat, steps: seq<Step>)
    requires Count(s.squeue, key) <= 1 && Count(s.pending, key) <= 1
    requires AllEnabled(Next(s, Cancel(key)), steps) && NeverPushed(steps, key)
    ensures ReportedOrArmed(Run(Next(s, Cancel(key)), steps), key) == ReportedOrArmed(s, key)
  {
    var t := Next(s, Cancel(key));
    var p, q := Find(s.squeue, key), Find(s.pending, key);
    if p.Some? { CountWithout(s.squeue, p.value, key); } else { NoneFound(s.squeue, key); }
    if q.Some? { CountWithout(s.pending, q.value, key); } else { NoneFound(s.pending, key); }
    RunReportsTimersOnly(t, steps, key);
  }

  /** So something is reported after a cancel if and only if a timer of the key has expired since. */
  lemma {:induction false} CancelIsReportedIff(s: State, key: nat, steps: seq<Step>)
    requires Count(s.squeue, key) <= 1 && Count(s.pending, key) <= 1
    requires AllEnabled(Next(s, Cancel(key)), steps) && NeverPushed(steps, key)
    ensures var t := Run(Next(s, Cancel(key)), steps);
            EntryCount(t.delivered, key) > EntryCount(s.delivered, key)
            <==> TimerCount(t.timers, key) < TimerCount(s.timers, key)
  {
    CancelReportsTimersOnly(s, key, steps);
  }

  lemma {:induction false} StepOnlyAddsReports(s: State, step: Step, key: nat)
    requires Enabled(s, step)
    ensures EntryCount(s.delivered, key) <= EntryCount(Next(s, step).delivered, key)
  {
    match step
    case Drain(answers, _) => EntryCountConcat(s.delivered, DoneAtOnce(s.squeue, answers), key);
    case Expire(_, fired, _) => EntryCountConcat(s.delivered, TimerEntries(fired), key);
    case Check(ready, replies) => EntryCountConcat(s.delivered, Finished(s.pending, ready, replies), key);
    case _ =>
  }

  lemma {:induction false} RunOnlyAddsReports(s: State, steps: seq<Step>, key: nat)
    requires AllEnabled(s, steps)
    ensures EntryCount(s.delivered, key) <= EntryCount(Run(s, steps).delivered, key)
    decreases |steps|
  {
    if steps != [] {
      StepOnlyAddsReports(s, steps[0], key);
      RunOnlyAddsReports(Next(s, steps[0]), steps[1..], key);
    }
  }

  /** In particular, of an operation without a timer nothing is ever heard again. */
  lemma {:induction false} CancelIsNeverReported(s: State, key: nat, steps: seq<Step>)
    requires Count(s.squeue, key) <= 1 && Count(s.pending, key) <= 1 && TimerCount(s.timers, key) == 0
    requires AllEnabled(Next(s, Cancel(key)), steps) && NeverPushed(steps, key)
    ensures EntryCount(Run(Next(s, Cancel(key)), steps).delivered, key) == EntryCount(s.delivered, key)
  {
    CancelReportsTimersOnly(s, key, steps);
    RunOnlyAddsReports(Next(s, Cancel(key)), steps, key);
  }

  lemma {:induction false} TimerDrain(s: State, op: Op, answers: seq<Answer>)
    requires s.squeue == [op] && s.pending == [] && s.timers == [] && s.delivered == []
    requires answers == [Some(Ok(TIMER_PENDING))]
    ensures var t := Next(s, Drain(answers, [0]));
            && t.squeue == [] && t.pending == [] && t.delivered == []
            && t.timers == [Timers.Timer(op.userData, op.delay)]
  {
    assert [op][..0] == [] && answers[..0] == [] && [0][..0] == [];
    assert Started([op], answers, [0]) == Started([], [], []) + [Timers.Timer(op.userData, op.delay)];
    assert Blocked([op], answers) == Blocked([], []) && DoneAtOnce([op], answers) == DoneAtOnce([], []);
  }

  lemma {:induction false} TimerOutlivesCancel(s: State, key: nat, timer: Timers.Timer)
    requires s.squeue == [] && s.pending == [] && s.delivered == [] && s.timers == [timer]
    ensures Enabled(Next(s, Cancel(key)), Expire(timer.deadline, [timer], []))
    ensures Next(Next(s, Cancel(key)), Expire(timer.deadline, [timer], [])).delivered == [Entry(timer.key, Ok(0))]
  {
    assert [timer][..0] == [];
    assert TimerEntries([timer]) == TimerEntries([]) + [Entry(timer.key, Ok(0))];
  }

  /** A timer cancelled and then due: the cancel was taken, and the timer is reported all the same. */
  lemma {:induction false} CancelledTimerIsReported(s: State, op: Op) returns (steps: seq<Step>)
    requires Initial(s) && s.limit > 0
    ensures AllEnabled(s, steps) && |steps| == 4 && steps[2] == Cancel(op.userData)
    ensures Run(s, steps).delivered == [Entry(op.userData, Ok(0))]
  {
    var answers: seq<Answer> := [Some(Ok(TIMER_PENDING))];
    var timer := Timers.Timer(op.userData, op.delay);
    var push, drain, cancel := Push([op]), Drain(answers, [0]), Cancel(op.userData);
    var expire := Expire(timer.deadline, [timer], []);
    var s1 := Next(s, push);
    TimerDrain(s1, op, answers);
    var s2 := Next(s1, drain);
    TimerOutlivesCancel(s2, op.userData, timer);
    TwoSteps(s2, cancel, expire);
    Unfold(s1, drain, [cancel, expire]);
    Unfold(s, push, [drain] + [cancel, expire]);
    steps := [push] + ([drain] + [cancel, expire]);
  }

  // ---------------------------------------------------------------- waiting

  /** Where an operation at index `i` goes when a step neither visits nor removes it. */
  function Moved(s: State, step: Step, i: nat): int {
    match step
    case Cancel(key) =>
      var q := Find(s.pending, key);
      if q.Some? && q.value < i then i - 1 else i
    case Check(_, _) => i - Visited(s.pending, s.cap)
    case _ => i
  }

  predicate Misses(s: State, step: Step, i: nat) {
    match step
    case Cancel(key) => Find(s.pending, key) != Some(i)
    case Check(_, _) => Visited(s.pending, s.cap) <= i
    case _ => true
  }

  lemma MovedIsTheSameOperation(s: State, step: Step, i: nat)
    requires Enabled(s, step) && i < |s.pending| && Misses(s, step, i)
    ensures var t, j := Next(s, step), Moved(s, step, i);
            0 <= j < |t.pending| && t.pending[j] == s.pending[i] && t.cap == s.cap
  {
  }

  /** Throughout the steps the operation at index `i` is neither visited by a check nor cancelled. */
  predicate Overlooked(s: State, steps: seq<Step>, i: nat)
    requires AllEnabled(s, steps) && i < |s.pending|
    decreases |steps|
  {
    steps == [] ||
    (Misses(s, steps[0], i) &&
     (MovedIsTheSameOperation(s, steps[0], i);
      Overlooked(Next(s, steps[0]), steps[1..], Moved(s, steps[0], i))))
  }

  function Checks(steps: seq<Step>): nat {
    if steps == [] then 0 else (if steps[0].Check? then 1 else 0) + Checks(steps[1..])
  }

  lemma OneMoreCheck(checks: nat, cap: nat, i: nat, visited: nat)
    requires checks * cap <= i - visited && cap <= visited
    ensures (1 + checks) * cap <= i
  {
  }

  lemma EnoughChecks(checks: nat, cap: nat, i: nat)
    requires cap > 0 && checks >= i / cap + 1
    ensures checks * cap > i
  {
    assert checks * cap >= (i / cap + 1) * cap;
  }

  lemma {:induction false} MissingStepCounts(s: State, step: Step, checks: nat, i: nat)
    requires i < |s.pending| && Misses(s, step, i) && checks * s.cap <= Moved(s, step, i)
    ensures ((if step.Check? then 1 else 0) + checks) * s.cap <= i
  {
    if step.Check? {
      ScanIsExact(s.pending, s.cap);
      OneMoreCheck(checks, s.cap, i, Visited(s.pending, s.cap));
    }
  }

  lemma {:induction false} OverlookedMeansFewChecks(s: State, steps: seq<Step>, i: nat)
    requires AllEnabled(s, steps) && i < |s.pending| && Overlooked(s, steps, i)
    ensures Checks(steps) * s.cap <= i
    decreases |steps|
  {
    if steps != [] {
      MovedIsTheSameOperation(s, steps[0], i);
      OverlookedMeansFewChecks(Next(s, steps[0]), steps[1..], Moved(s, steps[0], i));
      MissingStepCounts(s, steps[0], Checks(steps[1..]), i);
    }
  }

  /**
   Bounded waiting: an operation at index `i` of the pending queue is visited, or cancelled,
   within `i / cap + 1` checks that succeed, whatever else happens in between.
   */
  lemma WaitingIsBounded(s: State, steps: seq<Step>, i: nat)
    requires AllEnabled(s, steps) && i < |s.pending| && s.cap > 0
    requires Checks(steps) >= i / s.cap + 1
    ensures !Overlooked(s, steps, i)
  {
    if Overlooked(s, steps, i) {
      OverlookedMeansFewChecks(s, steps, i);
      EnoughChecks(Checks(steps), s.cap, i);
    }
  }
}
