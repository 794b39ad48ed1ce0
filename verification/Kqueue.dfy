/**
 The kqueue driver (src/driver/kqueue/mod.rs) as a step system.

 Operations move from a bounded submission queue to a rotating pending queue or to the timers,
 and from there to the caller.  The kernel's one-shot filters name pending operations by their
 index in the queue at the time of registration.  `KqueueDriver` proves that the driver's
 methods take these steps; here the steps are followed over whole runs.
 */
module Kqueue {
  import opened Wrappers
  import Timers

  datatype Filter = Read(fd: nat) | Write(fd: nat)

  /** An operation as the driver sees it. */
  datatype Op = Op(userData: nat, filter: Filter, delay: nat)

  /** A filter to register, or one that is ready, with the index it carries. */
  datatype Change = Change(filter: Filter, index: nat)

  datatype Ready = Ready(filter: Filter, index: nat, error: Option<int>)

  /** What an operation answers when operated: `None` when it would block. */
  type Answer = Option<IoResult>

  /** `Ok(TIMER_PENDING)` asks for a timer. */
  const TIMER_PENDING: nat := 0xFFFF_FFFF_FFFF_FFFD

  datatype Entry = Entry(userData: nat, result: IoResult)

  // ---------------------------------------------------------------- occurrences of a key

  /** How many operations of a queue carry a key. */
  function Count(ops: seq<Op>, key: nat): nat {
    if ops == [] then 0
    else Count(ops[..|ops| - 1], key) + if ops[|ops| - 1].userData == key then 1 else 0
  }

  function TimerCount(timers: seq<Timers.Timer>, key: nat): nat {
    if timers == [] then 0
    else TimerCount(timers[..|timers| - 1], key) + if timers[|timers| - 1].key == key then 1 else 0
  }

  function EntryCount(entries: seq<Entry>, key: nat): nat {
    if entries == [] then 0
    else EntryCount(entries[..|entries| - 1], key) + if entries[|entries| - 1].userData == key then 1 else 0
  }

  lemma {:induction false} CountConcat(a: seq<Op>, b: seq<Op>, key: nat)
    ensures Count(a + b, key) == Count(a, key) + Count(b, key)
  {
    if b == [] {
      assert a + b == a;
    } else {
      CountConcat(a, b[..|b| - 1], key);
      assert (a + b)[..|a + b| - 1] == a + b[..|b| - 1];
    }
  }

  lemma {:induction false} TimerCountConcat(a: seq<Timers.Timer>, b: seq<Timers.Timer>, key: nat)
    ensures TimerCount(a + b, key) == TimerCount(a, key) + TimerCount(b, key)
  {
    if b == [] {
      assert a + b == a;
    } else {
      TimerCountConcat(a, b[..|b| - 1], key);
      assert (a + b)[..|a + b| - 1] == a + b[..|b| - 1];
    }
  }

  lemma {:induction false} EntryCountConcat(a: seq<Entry>, b: seq<Entry>, key: nat)
    ensures EntryCount(a + b, key) == EntryCount(a, key) + EntryCount(b, key)
  {
    if b == [] {
      assert a + b == a;
    } else {
      EntryCountConcat(a, b[..|b| - 1], key);
      assert (a + b)[..|a + b| - 1] == a + b[..|b| - 1];
    }
  }

  lemma CountSplit(ops: seq<Op>, n: nat, key: nat)
    requires n <= |ops|
    ensures Count(ops, key) == Count(ops[..n], key) + Count(ops[n..], key)
  {
    assert ops == ops[..n] + ops[n..];
    CountConcat(ops[..n], ops[n..], key);
  }

  lemma CountWithout(ops: seq<Op>, pos: nat, key: nat)
    requires pos < |ops|
    ensures Count(ops, key) == Count(Without(ops, pos), key) + if ops[pos].userData == key then 1 else 0
  {
    CountSplit(ops, pos + 1, key);
    assert ops[..pos + 1][..pos] == ops[..pos];
    CountConcat(ops[..pos], ops[pos + 1..], key);
  }

  lemma TimerCountWithout(heap: seq<Timers.Timer>, i: nat, key: nat)
    requires i < |heap|
    ensures TimerCount(heap, key) == TimerCount(Without(heap, i), key) + if heap[i].key == key then 1 else 0
  {
    assert heap == heap[..i + 1] + heap[i + 1..];
    TimerCountConcat(heap[..i + 1], heap[i + 1..], key);
    assert heap[..i + 1][..i] == heap[..i];
    TimerCountConcat(heap[..i], heap[i + 1..], key);
  }

  /** Counting does not depend on how the heap arranges its timers. */
  lemma {:induction false} SameTimersSameCount(a: seq<Timers.Timer>, b: seq<Timers.Timer>, key: nat)
    requires multiset(a) == multiset(b)
    ensures TimerCount(a, key) == TimerCount(b, key)
  {
    if a == [] {
      assert |multiset(b)| == |b|;
    } else {
      assert a[0] in multiset(b);
      var i :| 0 <= i < |b| && b[i] == a[0];
      Timers.TimersWithout(a, 0);
      Timers.TimersWithout(b, i);
      TimerCountWithout(a, 0, key);
      TimerCountWithout(b, i, key);
      assert multiset(Without(a, 0)) == multiset(a) - multiset{a[0]};
      SameTimersSameCount(Without(a, 0), Without(b, i), key);
    }
  }

  // ---------------------------------------------------------------- operating the submission queue

  /** Operations that would block. */
  function Blocked(ops: seq<Op>, answers: seq<Answer>): seq<Op>
    requires |ops| == |answers|
  {
    if ops == [] then []
    else
      var n := |ops| - 1;
      Blocked(ops[..n], answers[..n]) + if answers[n].None? then [ops[n]] else []
  }

  predicate WantsTimer(answer: Answer) {
    answer == Some(Ok(TIMER_PENDING))
  }

  /** The timers to start, with the clock as read for each. */
  function Started(ops: seq<Op>, answers: seq<Answer>, clock: seq<nat>): seq<Timers.Timer>
    requires |ops| == |answers| == |clock|
  {
    if ops == [] then []
    else
      var n := |ops| - 1;
      Started(ops[..n], answers[..n], clock[..n]) +
      if WantsTimer(answers[n]) then [Timers.Timer(ops[n].userData, clock[n] + ops[n].delay)] else []
  }

  /** Entries for the operations done at once. */
  function DoneAtOnce(ops: seq<Op>, answers: seq<Answer>): seq<Entry>
    requires |ops| == |answers|
  {
    if ops == [] then []
    else
      var n := |ops| - 1;
      DoneAtOnce(ops[..n], answers[..n]) +
      if answers[n].None? || WantsTimer(answers[n]) then [] else [Entry(ops[n].userData, answers[n].value)]
  }

  /** What each operation drained turned out to be. */
  function BlockedFlags(answers: seq<Answer>): (flags: seq<bool>)
    ensures |flags| == |answers|
  {
    seq(|answers|, i requires 0 <= i < |answers| => answers[i].None?)
  }

  function TimerFlags(answers: seq<Answer>): (flags: seq<bool>)
    ensures |flags| == |answers|
  {
    seq(|answers|, i requires 0 <= i < |answers| => answers[i] == Some(Ok(0xFFFF_FFFF_FFFF_FFFD)))
  }

  function DoneFlags(answers: seq<Answer>): (flags: seq<bool>)
    ensures |flags| == |answers|
  {
    seq(|answers|, i requires 0 <= i < |answers| => answers[i].Some? && answers[i] != Some(Ok(0xFFFF_FFFF_FFFF_FFFD)))
  }

  /** The operations that would block are kept in order. */
  lemma {:induction false} BlockedInOrder(ops: seq<Op>, answers: seq<Answer>)
    requires |ops| == |answers|
    ensures var at := Where(BlockedFlags(answers));
            |Blocked(ops, answers)| == |at| && forall j :: 0 <= j < |at| ==> Blocked(ops, answers)[j] == ops[at[j]]
  {
    if ops != [] {
      var n := |ops| - 1;
      BlockedInOrder(ops[..n], answers[..n]);
      assert BlockedFlags(answers)[..n] == BlockedFlags(answers[..n]);
    }
  }

  /** Every operation that asks for a timer gets one under its key, due its delay after its reading. */
  lemma {:induction false} StartedInOrder(ops: seq<Op>, answers: seq<Answer>, clock: seq<nat>)
    requires |ops| == |answers| == |clock|
    ensures var at, started := Where(TimerFlags(answers)), Started(ops, answers, clock);
            && |started| == |at|
            && forall j :: 0 <= j < |at| ==>
                             && started[j].key == ops[at[j]].userData
                             && started[j].deadline == clock[at[j]] + ops[at[j]].delay
  {
    if ops != [] {
      var n := |ops| - 1;
      StartedInOrder(ops[..n], answers[..n], clock[..n]);
      assert TimerFlags(answers)[..n] == TimerFlags(answers[..n]);
    }
  }

  lemma {:induction false} DoneLength(ops: seq<Op>, answers: seq<Answer>)
    requires |ops| == |answers|
    ensures |DoneAtOnce(ops, answers)| == |Where(DoneFlags(answers))|
  {
    if ops != [] {
      var n := |ops| - 1;
      DoneLength(ops[..n], answers[..n]);
      assert DoneFlags(answers)[..n] == DoneFlags(answers[..n]);
    }
  }

  /** Every operation done at once is reported under its key with its own answer, in order. */
  lemma {:induction false} DoneInOrder(ops: seq<Op>, answers: seq<Answer>, j: nat)
    requires |ops| == |answers| && j < |DoneAtOnce(ops, answers)|
    ensures var at := Where(DoneFlags(answers));
            && |at| == |DoneAtOnce(ops, answers)|
            && DoneAtOnce(ops, answers)[j].userData == ops[at[j]].userData
            && answers[at[j]] == Some(DoneAtOnce(ops, answers)[j].result)
  {
    DoneLength(ops, answers);
    var n := |ops| - 1;
    DoneLength(ops[..n], answers[..n]);
    assert DoneFlags(answers)[..n] == DoneFlags(answers[..n]);
    if j < |DoneAtOnce(ops[..n], answers[..n])| {
      DoneInOrder(ops[..n], answers[..n], j);
    }
  }

  /** Every drained operation ends up in exactly one of the three. */
  lemma {:induction false} DrainBalances(ops: seq<Op>, answers: seq<Answer>, clock: seq<nat>, key: nat)
    requires |ops| == |answers| == |clock|
    ensures Count(ops, key) ==
            Count(Blocked(ops, answers), key)
            + TimerCount(Started(ops, answers, clock), key)
            + EntryCount(DoneAtOnce(ops, answers), key)
  {
    if ops != [] {
      var n := |ops| - 1;
      DrainBalances(ops[..n], answers[..n], clock[..n], key);
      var op, answer := ops[n], answers[n];
      CountConcat(Blocked(ops[..n], answers[..n]), if answer.None? then [op] else [], key);
      TimerCountConcat(Started(ops[..n], answers[..n], clock[..n]),
                       if WantsTimer(answer) then [Timers.Timer(op.userData, clock[n] + op.delay)] else [], key);
      EntryCountConcat(DoneAtOnce(ops[..n], answers[..n]),
                       if answer.None? || WantsTimer(answer) then [] else [Entry(op.userData, answer.value)], key);
    }
  }

  /** Every expired timer is reported as `Ok(0)`. */
  function TimerEntries(fired: seq<Timers.Timer>): seq<Entry> {
    if fired == [] then [] else TimerEntries(fired[..|fired| - 1]) + [Entry(fired[|fired| - 1].key, Ok(0))]
  }

  lemma {:induction false} TimerEntriesInOrder(fired: seq<Timers.Timer>)
    ensures |TimerEntries(fired)| == |fired|
    ensures forall i :: 0 <= i < |fired| ==>
                          TimerEntries(fired)[i].userData == fired[i].key && TimerEntries(fired)[i].result == Ok(0)
  {
    if fired != [] {
      TimerEntriesInOrder(fired[..|fired| - 1]);
    }
  }

  lemma {:induction false} TimerEntriesCount(fired: seq<Timers.Timer>, key: nat)
    ensures EntryCount(TimerEntries(fired), key) == TimerCount(fired, key)
  {
    if fired != [] {
      TimerEntriesCount(fired[..|fired| - 1], key);
    }
  }

  // ---------------------------------------------------------------- scanning the pending queue

  predicate Occurs(ops: seq<Op>, filter: Filter) {
    exists i :: 0 <= i < |ops| && ops[i].filter == filter
  }

  /** The change list for a prefix: one change per filter, at its first occurrence. */
  function Changes(prefix: seq<Op>): seq<Change> {
    if prefix == [] then []
    else
      var n := |prefix| - 1;
      Changes(prefix[..n]) + if Occurs(prefix[..n], prefix[n].filter) then [] else [Change(prefix[n].filter, n)]
  }

  /** How many operations the scan visits, starting at `n`, before the change list is full. */
  function VisitFrom(ops: seq<Op>, cap: nat, n: nat): (r: nat)
    requires n <= |ops|
    ensures n <= r <= |ops|
    decreases |ops| - n
  {
    if n < |ops| && |Changes(ops[..n])| < cap then VisitFrom(ops, cap, n + 1) else n
  }

  function Visited(ops: seq<Op>, cap: nat): (r: nat)
    ensures r <= |ops|
  {
    VisitFrom(ops, cap, 0)
  }

  /**
   The index the driver stores: that of the operation where the scan stopped, and when the
   scan ran to the end that of the last operation.
   */
  function ScannedTill(ops: seq<Op>, cap: nat): (r: nat)
    ensures r <= |ops|
  {
    var visited := Visited(ops, cap);
    if visited < |ops| || ops == [] then visited else |ops| - 1
  }

  ghost predicate FirstOf(ops: seq<Op>, c: Change) {
    && c.index < |ops| && ops[c.index].filter == c.filter
    && forall i :: 0 <= i < c.index ==> ops[i].filter != c.filter
  }

  /** The change list names each distinct filter of the prefix once, by its first operation. */
  lemma {:induction false} ChangesAreFirsts(prefix: seq<Op>)
    ensures forall c :: c in Changes(prefix) <==> FirstOf(prefix, c)
    ensures forall i, j :: 0 <= i < j < |Changes(prefix)| ==> Changes(prefix)[i].index < Changes(prefix)[j].index
    ensures |Changes(prefix)| <= |prefix|
  {
    if prefix != [] {
      var n := |prefix| - 1;
      ChangesAreFirsts(prefix[..n]);
      assert forall c :: c in Changes(prefix[..n]) ==> FirstOf(prefix[..n], c) && c.index < n;
      forall c
        ensures c in Changes(prefix) <==> FirstOf(prefix, c)
      {
        assert c.index < n ==> (FirstOf(prefix, c) <==> FirstOf(prefix[..n], c));
        assert c == Change(prefix[n].filter, n) ==> (FirstOf(prefix, c) <==> !Occurs(prefix[..n], c.filter));
      }
    }
  }

  lemma {:induction false} VisitStopsWhenFull(ops: seq<Op>, cap: nat, n: nat)
    requires n <= |ops| && |Changes(ops[..n])| <= cap
    ensures var v := VisitFrom(ops, cap, n);
            |Changes(ops[..v])| <= cap && (v < |ops| ==> |Changes(ops[..v])| == cap)
    decreases |ops| - n
  {
    if n < |ops| && |Changes(ops[..n])| < cap {
      assert ops[..n + 1][..n] == ops[..n];
      VisitStopsWhenFull(ops, cap, n + 1);
    }
  }

  lemma {:induction false} VisitsWhileRoom(ops: seq<Op>, cap: nat, n: nat, u: nat)
    requires n <= |ops| && n <= u < VisitFrom(ops, cap, n)
    ensures |Changes(ops[..u])| < cap
    decreases u - n
  {
    if n < u {
      VisitsWhileRoom(ops, cap, n + 1, u);
    }
  }

  lemma {:induction false} FirstOccurrence(ops: seq<Op>, filter: Filter) returns (c: Change)
    requires Occurs(ops, filter)
    ensures FirstOf(ops, c) && c.filter == filter
  {
    var n := |ops| - 1;
    if Occurs(ops[..n], filter) {
      c := FirstOccurrence(ops[..n], filter);
    } else {
      c := Change(filter, n);
      assert forall i :: 0 <= i < n ==> ops[i] == ops[..n][i];
    }
  }

  /**
   The scan: the list never outgrows its capacity, stops short only when full, and holds
   exactly one change per distinct filter visited, carrying the first index with that filter.
   */
  lemma ScanIsExact(ops: seq<Op>, cap: nat)
    ensures var v := Visited(ops, cap);
            var list := Changes(ops[..v]);
            && |list| <= cap
            && (v < |ops| ==> |list| == cap && cap <= v)
            && (forall u :: 0 <= u < v ==> |Changes(ops[..u])| < cap)
            && (forall c :: c in list <==> FirstOf(ops[..v], c))
            && (forall i, j :: 0 <= i < j < |list| ==> list[i].index < list[j].index)
  {
    assert ops[..0] == [];
    VisitStopsWhenFull(ops, cap, 0);
    forall u | 0 <= u < Visited(ops, cap) ensures |Changes(ops[..u])| < cap {
      VisitsWhileRoom(ops, cap, 0, u);
    }
    ChangesAreFirsts(ops[..Visited(ops, cap)]);
  }

  // ---------------------------------------------------------------- the kernel's filters

  /** Registering a change list: a filter that is already there gets the new index. */
  function Merged(table: map<Filter, nat>, changes: seq<Change>): map<Filter, nat> {
    if changes == [] then table
    else
      var n := |changes| - 1;
      Merged(table, changes[..n])[changes[n].filter := changes[n].index]
  }

  lemma {:induction false} MergedIs(table: map<Filter, nat>, changes: seq<Change>, filter: Filter)
    requires forall i, j :: 0 <= i < j < |changes| ==> changes[i].filter != changes[j].filter
    ensures filter in Merged(table, changes) <==> filter in table || exists c :: c in changes && c.filter == filter
    ensures forall c :: c in changes && c.filter == filter ==> Merged(table, changes)[filter] == c.index
    ensures filter in table && (forall c :: c in changes ==> c.filter != filter) ==>
              Merged(table, changes)[filter] == table[filter]
  {
    if changes != [] {
      var n := |changes| - 1;
      MergedIs(table, changes[..n], filter);
      assert changes == changes[..n] + [changes[n]];
    }
  }

  /** What `kevent` may return: some of the registered filters, each at most once. */
  predicate KernelMayReturn(table: map<Filter, nat>, ready: seq<Ready>) {
    && (forall i :: 0 <= i < |ready| ==> ready[i].filter in table && table[ready[i].filter] == ready[i].index)
    && (forall i, j :: 0 <= i < j < |ready| ==> ready[i].filter != ready[j].filter)
  }

  function FiltersOf(ready: seq<Ready>): set<Filter> {
    set i | 0 <= i < |ready| :: ready[i].filter
  }

  /** Every registered filter points into the visited prefix, at an operation with that filter. */
  ghost predicate WellAimed(table: map<Filter, nat>, ops: seq<Op>, visited: nat) {
    forall f :: f in table ==> table[f] < visited <= |ops| && ops[table[f]].filter == f
  }

  /** Where one filter points once a scan has been registered. */
  lemma {:induction false} AimOf(table: map<Filter, nat>, ops: seq<Op>, cap: nat, f: Filter)
    ensures var v := Visited(ops, cap);
            var after := Merged(table, Changes(ops[..v]));
            && (f in after <==> f in table || Occurs(ops[..v], f))
            && (f in after ==> (after[f] < v && ops[after[f]].filter == f <==> Occurs(ops[..v], f)))
  {
    var v := Visited(ops, cap);
    var changes := Changes(ops[..v]);
    ChangesAreFirsts(ops[..v]);
    ChangesHaveDistinctFilters(ops[..v]);
    MergedIs(table, changes, f);
    if Occurs(ops[..v], f) {
      var c := FirstOccurrence(ops[..v], f);
      assert c in changes;
    } else {
      assert forall c :: c in changes ==> FirstOf(ops[..v], c) && c.filter != f;
      assert forall i :: 0 <= i < v ==> ops[..v][i].filter == ops[i].filter;
    }
  }

  /**
   After a scan has been registered, every event the kernel can return is in range, visited
   and at an operation with the event's own filter exactly when no filter was left over from
   before outside the visited prefix.
   */
  lemma {:induction false} WellAimedIff(table: map<Filter, nat>, ops: seq<Op>, cap: nat)
    ensures var v := Visited(ops, cap);
            WellAimed(Merged(table, Changes(ops[..v])), ops, v)
            <==> forall f :: f in table ==> Occurs(ops[..v], f)
  {
    var v := Visited(ops, cap);
    var after := Merged(table, Changes(ops[..v]));
    forall f
      ensures f in after <==> f in table || Occurs(ops[..v], f)
      ensures f in after ==> (after[f] < v && ops[after[f]].filter == f <==> Occurs(ops[..v], f))
    {
      AimOf(table, ops, cap, f);
    }
  }

  lemma ChangesHaveDistinctFilters(prefix: seq<Op>)
    ensures var list := Changes(prefix);
            forall i, j :: 0 <= i < j < |list| ==> list[i].filter != list[j].filter
  {
    ChangesAreFirsts(prefix);
    var list := Changes(prefix);
    forall i, j | 0 <= i < j < |list|
      ensures list[i].filter != list[j].filter
    {
      assert FirstOf(prefix, list[i]) && FirstOf(prefix, list[j]);
    }
  }
}
