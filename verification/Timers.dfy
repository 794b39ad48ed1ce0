/**
 The timer wheel of the drivers that have no kernel timers (src/driver/time.rs).

 Instants and durations are natural numbers of nanoseconds.  How the heap arranges its timers
 and which of several equally early ones it yields first is left open.  The log of a wheel lists
 what was armed and what fired; the wheel's methods keep it, and the theorems are about every log
 that can arise.
 */
module Timers {
  import opened Wrappers

  datatype Timer = Timer(key: nat, deadline: nat)

  /** `Ord` on timers is reversed: the later deadline is the smaller timer. */
  predicate AtMost(a: Timer, b: Timer) {
    b.deadline <= a.deadline
  }

  /** What `peek` may point at: a timer no other one exceeds. */
  predicate IsTop(heap: seq<Timer>, top: nat) {
    top < |heap| && forall i :: 0 <= i < |heap| ==> AtMost(heap[i], heap[top])
  }

  lemma {:induction false} TopExists(heap: seq<Timer>)
    requires heap != []
    ensures exists top: nat :: IsTop(heap, top)
  {
    var n := |heap| - 1;
    if n == 0 {
      assert IsTop(heap, 0);
    } else {
      TopExists(heap[..n]);
      var top: nat :| IsTop(heap[..n], top);
      assert IsTop(heap, if AtMost(heap[n], heap[top]) then top else n);
    }
  }

  lemma TimersWithout(heap: seq<Timer>, i: nat)
    requires i < |heap|
    ensures multiset(heap) == multiset(Without(heap, i)) + multiset{heap[i]}
    ensures forall t :: t in Without(heap, i) ==> t in heap
  {
    assert heap == heap[..i] + [heap[i]] + heap[i + 1..];
  }

  // ---------------------------------------------------------------- logs

  /**
   A wheel's history, latest entry outermost: a timer armed at `now`, or an expiry pass at `now`
   with what fired, and the heap each of them left behind.
   */
  datatype Log =
    | Start
    | Arm(before: Log, now: nat, key: nat, delay: nat, heap: seq<Timer>)
    | Pass(before: Log, now: nat, fired: seq<Timer>, heap: seq<Timer>)

  function HeapAfter(log: Log): seq<Timer> {
    if log.Start? then [] else log.heap
  }

  /** The latest clock reading of the log. */
  function Clock(log: Log): nat {
    if log.Start? then 0 else log.now
  }

  function Armed(log: Log): multiset<Timer> {
    match log
    case Start => multiset{}
    case Arm(before, now, key, delay, _) => Armed(before) + multiset{Timer(key, now + delay)}
    case Pass(before, _, _, _) => Armed(before)
  }

  function Fired(log: Log): seq<Timer> {
    match log
    case Start => []
    case Arm(before, _, _, _, _) => Fired(before)
    case Pass(before, _, fired, _) => Fired(before) + fired
  }

  /** What is still waiting after the log. */
  function Waiting(log: Log): multiset<Timer> {
    multiset(HeapAfter(log))
  }

  /** The instant of the latest expiry pass. */
  function LastPass(log: Log): nat {
    match log
    case Start => 0
    case Arm(before, _, _, _, _) => LastPass(before)
    case Pass(_, now, _, _) => now
  }

  /** Timers armed before the latest expiry pass. */
  function ArmedBeforeLastPass(log: Log): multiset<Timer> {
    match log
    case Start => multiset{}
    case Arm(before, _, _, _, _) => ArmedBeforeLastPass(before)
    case Pass(_, _, _, _) => Armed(log)
  }

  predicate EarliestFirst(ts: seq<Timer>) {
    forall i, j :: 0 <= i < j < |ts| ==> ts[i].deadline <= ts[j].deadline
  }

  /** An expiry pass at `now` splits the heap into the due timers, in order, and the rest. */
  predicate Expired(before: multiset<Timer>, now: nat, fired: seq<Timer>, after: multiset<Timer>) {
    && before == after + multiset(fired)
    && (forall t :: t in fired ==> t.deadline <= now)
    && (forall t :: t in after ==> now < t.deadline)
    && EarliestFirst(fired)
  }

  /** Logs under a clock that never runs backwards. */
  predicate Legal(log: Log) {
    match log
    case Start => true
    case Arm(before, now, key, delay, heap) =>
      && Legal(before) && Clock(before) <= now
      && heap == HeapAfter(before) + [Timer(key, now + delay)]
    case Pass(before, now, fired, heap) =>
      && Legal(before) && Clock(before) <= now
      && Expired(Waiting(before), now, fired, multiset(heap))
  }

  lemma {:induction false} NothingLost(log: Log)
    requires Legal(log)
    ensures Armed(log) == Waiting(log) + multiset(Fired(log))
  {
    if !log.Start? {
      NothingLost(log.before);
    }
  }

  /** The latest pass separates the deadlines that have fired from those that wait. */
  lemma {:induction false} PassSeparates(log: Log)
    requires Legal(log)
    ensures LastPass(log) <= Clock(log)
    ensures forall t :: t in Waiting(log) ==> LastPass(log) <= t.deadline
    ensures forall t :: t in Fired(log) ==> t.deadline <= LastPass(log)
  {
    if !log.Start? {
      PassSeparates(log.before);
    }
  }

  lemma {:induction false} FiredInOrder(log: Log)
    requires Legal(log)
    ensures EarliestFirst(Fired(log))
  {
    if !log.Start? {
      FiredInOrder(log.before);
      PassSeparates(log.before);
      if log.Pass? {
        assert forall t :: t in log.fired ==> t in Waiting(log.before);
      }
    }
  }

  lemma {:induction false} FiredExactly(log: Log, t: Timer)
    requires Legal(log)
    ensures multiset(Fired(log))[t] ==
            if t.deadline <= LastPass(log) then ArmedBeforeLastPass(log)[t] else 0
  {
    match log
    case Start =>
    case Arm(before, _, _, _, _) => FiredExactly(before, t);
    case Pass(_, _, _, _) =>
      NothingLost(log);
      PassSeparates(log);
      assert t in multiset(Fired(log)) ==> t in Fired(log);
  }

  /**
   Over a whole run nothing is lost or invented, the deadlines fire in nondecreasing order
   even with timers armed between passes, nothing fires before its deadline, and a timer has
   fired exactly when an expiry pass took place at or after its deadline.
   */
  lemma {:induction false} WholeRun(log: Log)
    requires Legal(log)
    ensures Armed(log) == Waiting(log) + multiset(Fired(log))
    ensures EarliestFirst(Fired(log))
    ensures forall t :: multiset(Fired(log))[t] ==
                        if t.deadline <= LastPass(log) then ArmedBeforeLastPass(log)[t] else 0
  {
    NothingLost(log);
    FiredInOrder(log);
    forall t
      ensures multiset(Fired(log))[t] ==
              if t.deadline <= LastPass(log) then ArmedBeforeLastPass(log)[t] else 0
    {
      FiredExactly(log, t);
    }
  }

  // ---------------------------------------------------------------- the wheel

  /** Progress of an expiry pass: what fired is due, in order, and no later than what is left. */
  ghost predicate PassSoFar(before: multiset<Timer>, now: nat, fired: seq<Timer>, heap: seq<Timer>) {
    && before == multiset(heap) + multiset(fired)
    && (forall t :: t in fired ==> t.deadline <= now)
    && EarliestFirst(fired)
    && (forall t, u :: t in fired && u in heap ==> t.deadline <= u.deadline)
  }

  lemma FireTop(before: multiset<Timer>, now: nat, fired: seq<Timer>, heap: seq<Timer>, top: nat)
    requires PassSoFar(before, now, fired, heap)
    requires IsTop(heap, top) && heap[top].deadline <= now
    ensures PassSoFar(before, now, fired + [heap[top]], Without(heap, top))
  {
    TimersWithout(heap, top);
    assert multiset(fired + [heap[top]]) == multiset(fired) + multiset{heap[top]};
  }

  /** No longer than the timeout nor the time to any deadline, and one of them. */
  ghost predicate LeastWait(heap: seq<Timer>, timeout: Option<nat>, now: nat, wait: nat) {
    && (timeout.Some? ==> wait <= timeout.value)
    && (forall t :: t in heap ==> wait <= Since(t.deadline, now))
    && (timeout == Some(wait) || exists t :: t in heap && wait == Since(t.deadline, now))
  }

  class TimerWheel {
    var heap: seq<Timer>
    // every insertion and every expiry pass so far
    ghost var log: Log

    /** The log is legal and ends in the heap there is, so `WholeRun` holds of the wheel. */
    ghost predicate Valid()
      reads this
    {
      Legal(log) && HeapAfter(log) == heap
    }

    /** The latest clock reading the wheel was given. */
    ghost function LastReading(): nat
      reads this
    {
      Clock(log)
    }

    constructor ()
      ensures Valid() && heap == [] && log == Start
    {
      heap, log := [], Start;
    }

    method Insert(key: nat, delay: nat, now: nat)
      requires Valid() && LastReading() <= now
      modifies this
      ensures Valid() && LastReading() == now && log == Arm(old(log), now, key, delay, heap)
      ensures heap == old(heap) + [Timer(key, now + delay)]
    {
      var longer := heap + [Timer(key, now + delay)];
      ghost var next := Arm(log, now, key, delay, longer);
      assert Legal(next);
      heap, log := longer, next;
    }

    /** `peek`: the position of some timer that no other one exceeds. */
    method Peek() returns (top: Option<nat>)
      ensures top.None? <==> heap == []
      ensures top.Some? ==> IsTop(heap, top.value)
    {
      if heap == [] {
        return None;
      }
      TopExists(heap);
      var i: nat :| i < |heap| && IsTop(heap, i);
      top := Some(i);
    }

    /**
     The time to block for: the least of the caller's timeout and the time to every deadline
     in the heap, so that waiting exactly this long oversleeps no deadline still ahead.
     */
    method TillNextTimerOrTimeout(timeout: Option<nat>, now: nat) returns (wait: Option<nat>)
      ensures heap == [] ==> wait == timeout
      ensures heap != [] ==> wait.Some?
      ensures wait.Some? ==> LeastWait(heap, timeout, now, wait.value)
      ensures wait.Some? ==>
                forall t :: t in heap && now <= t.deadline ==> now + wait.value <= t.deadline
    {
      var top := Peek();
      if top.Some? {
        var delay := Since(heap[top.value].deadline, now);
        wait := Some(if timeout.Some? then Min(timeout.value, delay) else delay);
      } else {
        wait := timeout;
      }
    }

    /** `expire_timers` at the clock reading `now`: exactly the due timers fire, in order. */
    method ExpireTimers(now: nat) returns (fired: seq<Timer>)
      requires Valid() && LastReading() <= now
      modifies this
      ensures Valid() && LastReading() == now && log == Pass(old(log), now, fired, heap)
      ensures Expired(multiset(old(heap)), now, fired, multiset(heap))
    {
      fired := PopDue(now);
      log := Pass(log, now, fired, heap);
    }

    /** The loop of `expire_timers`. */
    method PopDue(now: nat) returns (fired: seq<Timer>)
      modifies `heap
      ensures Expired(multiset(old(heap)), now, fired, multiset(heap))
    {
      fired := [];
      var top := Peek();
      while top.Some? && Since(heap[top.value].deadline, now) == 0
        invariant PassSoFar(multiset(old(heap)), now, fired, heap)
        invariant top.None? <==> heap == []
        invariant top.Some? ==> IsTop(heap, top.value)
        decreases |heap|
      {
        FireTop(multiset(old(heap)), now, fired, heap, top.value);
        fired := fired + [heap[top.value]];
        heap := Without(heap, top.value);
        top := Peek();
      }
    }
  }
}
