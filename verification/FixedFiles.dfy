/**
 Fixed-file registration of the io_uring driver (src/driver/iour/mod.rs).

 Registrations are collected in one shared buffer and applied by a single asynchronous update,
 with a synchronous call as the fallback.  Part one is the protocol as a step system over the
 driver and the kernel, part two the driver's methods proved to take those steps, part three
 the translation of completion entries.
 */
module FixedFiles {
  import opened Wrappers

  const SKIP: int := -2

  datatype UpdateState = NoUpdateInProgress | Pushed | Submitted

  /**
   `fds` is the shared buffer.  The kernel holds the registered file `table` and the
   asynchronous updates by stage: `queued` in the submission ring, `running` taken but not yet
   executed, `posted` executed with the completion not yet reaped.
   */
  datatype State = State(
    update: UpdateState, fds: seq<int>, table: seq<int>,
    queued: nat, running: nat, posted: nat)

  datatype Event =
    | Register(id: nat, fd: int, full: bool, syncOk: bool)  // `full`, `syncOk`: the kernel's answers
    | Submit(taken: nat)                                    // entries of ours the kernel accepts
    | Execute(upto: nat)                                    // the kernel applies the first entries
    | Reap                                                  // the driver sees the completion

  predicate Inv(s: State) {
    && |s.fds| == |s.table|
    && s.queued + s.running + s.posted == (if s.update.NoUpdateInProgress? then 0 else 1)
    && (s.update.Pushed? ==> s.queued == 1)
    && (s.update.NoUpdateInProgress? ==> forall i :: 0 <= i < |s.fds| ==> s.fds[i] == SKIP)
  }

  predicate Initial(s: State) {
    && |s.fds| == |s.table|
    && s.update.NoUpdateInProgress? && s.queued == s.running == s.posted == 0
    && forall i :: 0 <= i < |s.fds| ==> s.fds[i] == SKIP
  }

  predicate Enabled(s: State, e: Event) {
    match e
    case Register(id, fd, _, _) => id < |s.fds| && fd != SKIP
    case Submit(taken) => taken <= s.queued
    case Execute(upto) => s.running > 0 && upto <= |s.fds|
    case Reap => s.posted > 0
  }

  /** The synchronous path: the ring is full or an update is on its way. */
  predicate TakesSyncPath(s: State, full: bool) {
    full || s.update.Submitted?
  }

  /** The table after an update stopped after `upto` entries. */
  function Applied(table: seq<int>, fds: seq<int>, upto: nat): (r: seq<int>)
    requires |fds| == |table| && upto <= |fds|
    ensures |r| == |table|
  {
    seq(|table|, i requires 0 <= i < |table| => if i < upto && fds[i] != SKIP then fds[i] else table[i])
  }

  function Skips(n: nat): (r: seq<int>)
    ensures |r| == n && forall i :: 0 <= i < n ==> r[i] == SKIP
  {
    seq(n, _ => SKIP)
  }

  function Next(s: State, e: Event): State
    requires |s.fds| == |s.table| && Enabled(s, e)
  {
    match e
    case Register(id, fd, full, syncOk) =>
      if TakesSyncPath(s, full) then
        if syncOk then s.(table := s.table[id := fd]) else s
      else if s.update.Pushed? then s.(fds := s.fds[id := fd])
      else s.(fds := s.fds[id := fd], queued := s.queued + 1, update := Pushed)
    case Submit(taken) =>
      s.(update := if s.update.Pushed? then Submitted else s.update,
         queued := s.queued - taken, running := s.running + taken)
    case Execute(upto) =>
      s.(table := Applied(s.table, s.fds, upto), running := s.running - 1, posted := s.posted + 1)
    case Reap =>
      s.(fds := Skips(|s.fds|), update := NoUpdateInProgress, posted := s.posted - 1)
  }

  /** Registration returns `Ok`. */
  predicate Succeeds(s: State, e: Event) {
    e.Register? && (e.full || s.update.Submitted? ==> e.syncOk)
  }

  // ---------------------------------------------------------------- the protocol

  /**
   Every step keeps exactly one asynchronous update per non-idle state, leaves the buffer
   alone from submission to completion, and leaves it all skip markers when idle.
   */
  lemma StepKeepsProtocol(s: State, e: Event)
    requires Inv(s) && Enabled(s, e)
    ensures Inv(Next(s, e))
    ensures s.update.Submitted? && !e.Reap? ==> Next(s, e).fds == s.fds && Next(s, e).update.Submitted?
    ensures s.running + s.posted > 0 ==> s.update.Submitted?
  {
  }

  /** From submission to completion the kernel reads a buffer nobody writes. */
  lemma {:induction false} BufferIsFrozen(s: State, events: seq<Event>)
    requires Inv(s) && s.update.Submitted? && AllEnabled(s, events) && Reap !in events
    ensures Run(s, events).update.Submitted? && Run(s, events).fds == s.fds
    decreases |events|
  {
    if events != [] {
      StepKeepsProtocol(s, events[0]);
      BufferIsFrozen(Next(s, events[0]), events[1..]);
    }
  }

  /**
   While no update is on its way and the ring has room, a registration joins the batch: the table
   is left alone, and the update to come will put the new value there.
   */
  lemma BatchedRegistration(s: State, e: Event)
    requires Inv(s) && Enabled(s, e) && e.Register? && !e.full && !s.update.Submitted?
    ensures Succeeds(s, e) && Next(s, e).update.Pushed? && Next(s, e).queued == 1
    ensures Next(s, e).table == s.table && Next(s, e).fds == s.fds[e.id := e.fd]
    ensures View(Next(s, e)) == View(s)[e.id := e.fd]
  {
    var t := Next(s, e);
    assert forall i :: 0 <= i < |s.table| && i != e.id ==> View(t)[i] == View(s)[i];
  }

  /** Otherwise the table is changed at once, or the registration fails; the batch is left alone. */
  lemma SynchronousRegistration(s: State, e: Event)
    requires Inv(s) && Enabled(s, e) && e.Register? && (e.full || s.update.Submitted?)
    ensures Succeeds(s, e) <==> e.syncOk
    ensures Next(s, e) == s.(table := if e.syncOk then s.table[e.id := e.fd] else s.table)
  {
  }

  /** What the table will be once the update under way, if any, has been executed. */
  function View(s: State): (r: seq<int>)
    requires |s.fds| == |s.table|
    ensures |r| == |s.table|
  {
    if s.queued + s.running > 0 then Applied(s.table, s.fds, |s.fds|) else s.table
  }

  predicate AllEnabled(s: State, events: seq<Event>)
    requires |s.fds| == |s.table|
    decreases |events|
  {
    events == [] || (Enabled(s, events[0]) && AllEnabled(Next(s, events[0]), events[1..]))
  }

  function Run(s: State, events: seq<Event>): (r: State)
    requires |s.fds| == |s.table| && AllEnabled(s, events)
    ensures |r.fds| == |r.table| == |s.table|
    decreases |events|
  {
    if events == [] then s else Run(Next(s, events[0]), events[1..])
  }

  /** The plain map the driver stands for: the last successful registration of an id wins. */
  function Wanted(s: State, want: seq<int>, events: seq<Event>): (r: seq<int>)
    requires |s.fds| == |s.table| == |want| && AllEnabled(s, events)
    ensures |r| == |want|
    decreases |events|
  {
    if events == [] then want
    else
      var e := events[0];
      Wanted(Next(s, e), if Succeeds(s, e) then want[e.id := e.fd] else want, events[1..])
  }

  /**
   A synchronous registration of an id whose own batched value is still to be executed: the
   older value will overwrite the newer one.
   */
  predicate Overtaken(s: State, e: Event)
    requires Enabled(s, e)
  {
    && e.Register? && TakesSyncPath(s, e.full) && e.syncOk
    && s.queued + s.running > 0 && s.fds[e.id] != SKIP && s.fds[e.id] != e.fd
  }

  /**
   What became of the latest successful registration of an id: it went into the batch rather than
   straight to the table, and the eventual table disagrees with it.
   */
  datatype Fate = Fate(batched: bool, wrong: bool)

  /**
   The fate of an id after an event.  A registration decides it anew.  An update that stops before
   the id leaves the table as it is: a batched value is then missing, unless the table happens to
   hold it, and a value that was to be overwritten by its own older batch is not.
   */
  function Track(s: State, e: Event, id: nat, fate: Fate): Fate
    requires |s.fds| == |s.table| && Enabled(s, e) && id < |s.table|
  {
    if Succeeds(s, e) && e.id == id then Fate(!TakesSyncPath(s, e.full), Overtaken(s, e))
    else if e.Execute? && e.upto <= id && s.fds[id] != SKIP then
      Fate(fate.batched, fate.batched && s.table[id] != s.fds[id])
    else fate
  }

  function Tracked(s: State, events: seq<Event>, id: nat, fate: Fate): Fate
    requires |s.fds| == |s.table| && AllEnabled(s, events) && id < |s.table|
    decreases |events|
  {
    if events == [] then fate
    else Tracked(Next(s, events[0]), events[1..], id, Track(s, events[0], id, fate))
  }

  /** An event changes the eventual table only where it registers, or stops short of a batched value. */
  lemma StepMovesView(s: State, e: Event, id: nat)
    requires Inv(s) && Enabled(s, e) && id < |s.table|
    ensures View(Next(s, e))[id] ==
            if Succeeds(s, e) && e.id == id && !Overtaken(s, e) then e.fd
            else if e.Execute? && e.upto <= id then s.table[id]
            else View(s)[id]
  {
  }

  /** While a batch is to be executed, one of the two places holds what is wanted of the id. */
  predicate Agrees(s: State, want: int, id: nat, fate: Fate)
    requires |s.fds| == |s.table| && id < |s.table|
  {
    && (fate.wrong <==> View(s)[id] != want)
    && (s.queued + s.running > 0 && s.fds[id] != SKIP ==> (if fate.batched then s.fds[id] else s.table[id]) == want)
  }

  lemma StepKeepsAgreement(s: State, e: Event, want: int, id: nat, fate: Fate)
    requires Inv(s) && Enabled(s, e) && id < |s.table| && Agrees(s, want, id, fate)
    ensures Agrees(Next(s, e), if Succeeds(s, e) && e.id == id then e.fd else want, id, Track(s, e, id, fate))
  {
    StepMovesView(s, e, id);
  }

  lemma {:induction false} IdIsRightIff(s: State, want: seq<int>, events: seq<Event>, id: nat, fate: Fate)
    requires Inv(s) && |want| == |s.table| && id < |want| && AllEnabled(s, events)
    requires Agrees(s, want[id], id, fate)
    ensures View(Run(s, events))[id] == Wanted(s, want, events)[id] <==> !Tracked(s, events, id, fate).wrong
    decreases |events|
  {
    if events != [] {
      var e := events[0];
      StepKeepsProtocol(s, e);
      StepKeepsAgreement(s, e, want[id], id, fate);
      var want' := if Succeeds(s, e) then want[e.id := e.fd] else want;
      IdIsRightIff(Next(s, e), want', events[1..], id, Track(s, e, id, fate));
    }
  }

  /**
   Batched registration refines the plain map.  From a fresh driver and after any run of events,
   updates that fail or stop early included, the table with the outstanding batch laid over it,
   and the table alone once idle, agrees with "last registration wins" exactly on the ids whose
   fate is not to be wrong.
   */
  lemma RegistrationRefinesMap(s: State, events: seq<Event>)
    requires Initial(s) && AllEnabled(s, events)
    ensures Inv(Run(s, events))
    ensures forall id: nat :: id < |s.table| ==>
              (View(Run(s, events))[id] == Wanted(s, s.table, events)[id]
               <==> !Tracked(s, events, id, Fate(false, false)).wrong)
    ensures Run(s, events).update.NoUpdateInProgress? ==> View(Run(s, events)) == Run(s, events).table
  {
    RunKeepsProtocol(s, events);
    forall id: nat | id < |s.table|
      ensures View(Run(s, events))[id] == Wanted(s, s.table, events)[id]
              <==> !Tracked(s, events, id, Fate(false, false)).wrong
    {
      IdIsRightIff(s, s.table, events, id, Fate(false, false));
    }
  }

  /** Whether the latest successful registration of `id`, if there is one, was overtaken. */
  predicate LatestOvertaken(s: State, events: seq<Event>, id: nat, sofar: bool)
    requires |s.fds| == |s.table| && AllEnabled(s, events)
    decreases |events|
  {
    if events == [] then sofar
    else
      var e := events[0];
      LatestOvertaken(Next(s, e), events[1..], id,
                      if Succeeds(s, e) && e.id == id then Overtaken(s, e) else sofar)
  }

  /** The kernel carries out every update in full. */
  predicate UpdatesSucceed(s: State, events: seq<Event>) {
    forall e :: e in events && e.Execute? ==> e.upto == |s.fds|
  }

  /** While updates succeed, being overtaken is the only way to end up wrong. */
  lemma {:induction false} WrongMeansOvertaken(s: State, events: seq<Event>, id: nat, fate: Fate)
    requires |s.fds| == |s.table| && AllEnabled(s, events) && id < |s.table| && UpdatesSucceed(s, events)
    ensures Tracked(s, events, id, fate).wrong <==> LatestOvertaken(s, events, id, fate.wrong)
    decreases |events|
  {
    if events != [] {
      assert events[0] in events;
      WrongMeansOvertaken(Next(s, events[0]), events[1..], id, Track(s, events[0], id, fate));
    }
  }

  /** Every successful registration of the id finds the ring with room and no update on its way. */
  predicate OnlyBatched(s: State, events: seq<Event>, id: nat)
    requires |s.fds| == |s.table| && AllEnabled(s, events)
    decreases |events|
  {
    events == [] ||
    var e := events[0];
    && (e.Register? && e.id == id && e.syncOk ==> !e.full && !s.update.Submitted?)
    && OnlyBatched(Next(s, e), events[1..], id)
  }

  lemma {:induction false} BatchedIdsAreRight(s: State, want: seq<int>, events: seq<Event>, id: nat)
    requires Inv(s) && |want| == |s.table| && id < |want| && AllEnabled(s, events)
    requires View(s)[id] == want[id] && UpdatesSucceed(s, events) && OnlyBatched(s, events, id)
    ensures View(Run(s, events))[id] == Wanted(s, want, events)[id]
    decreases |events|
  {
    if events != [] {
      var e := events[0];
      assert e in events;
      StepKeepsProtocol(s, e);
      StepMovesView(s, e, id);
      if e.Register? {
        if e.full || s.update.Submitted? { SynchronousRegistration(s, e); } else { BatchedRegistration(s, e); }
      }
      BatchedIdsAreRight(Next(s, e), if Succeeds(s, e) then want[e.id := e.fd] else want, events[1..], id);
    }
  }

  /**
   The batch by itself is right: in any run whose updates succeed, an id that never had to be
   registered synchronously ends up with its last registration.
   */
  lemma {:induction false} BatchedRegistrationsWin(s: State, events: seq<Event>, id: nat)
    requires Initial(s) && AllEnabled(s, events) && id < |s.table|
    requires UpdatesSucceed(s, events) && OnlyBatched(s, events, id)
    ensures View(Run(s, events))[id] == Wanted(s, s.table, events)[id]
  {
    BatchedIdsAreRight(s, s.table, events, id);
  }

  lemma {:induction false} RunKeepsProtocol(s: State, events: seq<Event>)
    requires Inv(s) && AllEnabled(s, events)
    ensures Inv(Run(s, events))
    decreases |events|
  {
    if events != [] {
      StepKeepsProtocol(s, events[0]);
      RunKeepsProtocol(Next(s, events[0]), events[1..]);
    }
  }

  lemma Unfold(s: State, want: seq<int>, e: Event, rest: seq<Event>)
    requires |s.fds| == |s.table| == |want| && Enabled(s, e) && AllEnabled(Next(s, e), rest)
    ensures AllEnabled(s, [e] + rest)
    ensures Run(s, [e] + rest) == Run(Next(s, e), rest)
    ensures Wanted(s, want, [e] + rest)
            == Wanted(Next(s, e), if Succeeds(s, e) then want[e.id := e.fd] else want, rest)
  {
    assert ([e] + rest)[1..] == rest;
  }

  /** Two registrations of one id, the second after submission: the first one survives. */
  lemma OlderBatchWins(first: int, second: int)
    requires first != SKIP && second != SKIP && first != second
    ensures var s := State(NoUpdateInProgress, [SKIP], [-1], 0, 0, 0);
            var events := [Register(0, first, false, true), Submit(1), Register(0, second, false, true),
                           Execute(1), Reap];
            && Initial(s) && AllEnabled(s, events)
            && Wanted(s, [-1], events) == [second]
            && Run(s, events).table == [first]
  {
    var s0 := State(NoUpdateInProgress, [SKIP], [-1], 0, 0, 0);
    var batched, again := Register(0, first, false, true), Register(0, second, false, true);
    var s1 := Next(s0, batched);
    var s2 := Next(s1, Submit(1));
    var s3 := Next(s2, again);
    var s4 := Next(s3, Execute(1));
    assert [-1][0 := first] == [first] && [first][0 := second] == [second];
    assert s3.table == [second] && s4.table == [first];
    Unfold(s4, [second], Reap, []);
    Unfold(s3, [second], Execute(1), [Reap]);
    Unfold(s2, [first], again, [Execute(1), Reap]);
    Unfold(s1, [first], Submit(1), [again, Execute(1), Reap]);
    Unfold(s0, [-1], batched, [Submit(1), again, Execute(1), Reap]);
  }

  /** An asynchronous update that fails in the kernel is dropped without a word. */
  lemma FailedUpdateIsSilent(fd: int)
    requires fd != SKIP && fd != -1
    ensures var s := State(NoUpdateInProgress, [SKIP], [-1], 0, 0, 0);
            var events := [Register(0, fd, false, true), Submit(1), Execute(0), Reap];
            && Initial(s) && AllEnabled(s, events)
            && Wanted(s, [-1], events) == [fd]
            && Run(s, events) == s
  {
    var s0 := State(NoUpdateInProgress, [SKIP], [-1], 0, 0, 0);
    var batched := Register(0, fd, false, true);
    var s1 := Next(s0, batched);
    var s2 := Next(s1, Submit(1));
    var s3 := Next(s2, Execute(0));
    assert [-1][0 := fd] == [fd];
    assert s3.table == [-1] && Skips(1) == [SKIP];
    Unfold(s3, [fd], Reap, []);
    Unfold(s2, [fd], Execute(0), [Reap]);
    Unfold(s1, [fd], Submit(1), [Execute(0), Reap]);
    Unfold(s0, [-1], batched, [Submit(1), Execute(0), Reap]);
  }

  // ---------------------------------------------------------------- completion entries

  const FILES_UPDATE_KEY: nat := 0xFFFF_FFFF_FFFF_FFFF
  const ENOENT: int := 2
  const EALREADY: int := 114
  const ETIME: int := 62

  datatype Cqe = Cqe(userData: nat, result: int)

  datatype Entry = Entry(userData: nat, result: IoResult)

  /** A completion the driver keeps to itself. */
  predicate Dropped(c: Cqe) {
    c.userData == FILES_UPDATE_KEY || c.result == -ENOENT || c.result == -EALREADY
  }

  function ToEntry(c: Cqe): Entry {
    Entry(c.userData,
          if c.result == -ETIME then Ok(0)
          else if c.result < 0 then Err(-c.result)
          else Ok(c.result))
  }

  function ReportOf(c: Cqe): seq<Entry> {
    if Dropped(c) then [] else [ToEntry(c)]
  }

  function Reported(cqes: seq<Cqe>): seq<Entry> {
    if cqes == [] then [] else Reported(cqes[..|cqes| - 1]) + ReportOf(cqes[|cqes| - 1])
  }

  /** All but the file update's own completions and those with ENOENT or EALREADY. */
  function VisibleFlags(cqes: seq<Cqe>): (flags: seq<bool>)
    ensures |flags| == |cqes|
  {
    seq(|cqes|, k requires 0 <= k < |cqes| =>
      cqes[k].userData != 0xFFFF_FFFF_FFFF_FFFF && cqes[k].result != -2 && cqes[k].result != -114)
  }

  /** What a raw kernel result means: a count, a timer that expired, or an error code. */
  predicate Carries(result: IoResult, raw: int) {
    match result
    case Ok(n) => raw == n || (n == 0 && raw == -62)
    case Err(code) => raw == -code && code > 0 && code != 62
  }

  lemma {:induction false} ReportedLength(cqes: seq<Cqe>)
    ensures |Reported(cqes)| == |Where(VisibleFlags(cqes))|
  {
    if cqes != [] {
      var n := |cqes| - 1;
      ReportedLength(cqes[..n]);
      assert VisibleFlags(cqes)[..n] == VisibleFlags(cqes[..n]);
    }
  }

  /** The visible completions are reported in order, each under its own key with its own result. */
  lemma {:induction false} ReportedInOrder(cqes: seq<Cqe>, j: nat)
    requires j < |Reported(cqes)|
    ensures var at := Where(VisibleFlags(cqes));
            && |at| == |Reported(cqes)|
            && Reported(cqes)[j].userData == cqes[at[j]].userData
            && Carries(Reported(cqes)[j].result, cqes[at[j]].result)
  {
    ReportedLength(cqes);
    var n := |cqes| - 1;
    ReportedLength(cqes[..n]);
    assert VisibleFlags(cqes)[..n] == VisibleFlags(cqes[..n]);
    if j < |Reported(cqes[..n])| {
      ReportedInOrder(cqes[..n], j);
    }
  }

  lemma {:induction false} NoUpdateCompletionIff(cqes: seq<Cqe>)
    ensures UpdateCompletions(cqes) == 0 <==> forall k :: 0 <= k < |cqes| ==> cqes[k].userData != 0xFFFF_FFFF_FFFF_FFFF
  {
    if cqes != [] {
      NoUpdateCompletionIff(cqes[..|cqes| - 1]);
    }
  }

  function UpdateCompletions(cqes: seq<Cqe>): nat {
    if cqes == [] then 0
    else UpdateCompletions(cqes[..|cqes| - 1]) + if cqes[|cqes| - 1].userData == FILES_UPDATE_KEY then 1 else 0
  }

  /** The completions under one key, and the entries under it. */
  function OfKey(cqes: seq<Cqe>, key: nat): seq<Cqe> {
    if cqes == [] then []
    else
      var last := cqes[|cqes| - 1];
      OfKey(cqes[..|cqes| - 1], key) + if last.userData == key then [last] else []
  }

  function EntriesOf(entries: seq<Entry>, key: nat): seq<Entry> {
    if entries == [] then []
    else
      var last := entries[|entries| - 1];
      EntriesOf(entries[..|entries| - 1], key) + if last.userData == key then [last] else []
  }

  /** What is reported under a key depends on the completions under that key alone. */
  lemma {:induction false} KeysDoNotMix(cqes: seq<Cqe>, key: nat)
    ensures EntriesOf(Reported(cqes), key) == Reported(OfKey(cqes, key))
  {
    if cqes != [] {
      var n := |cqes| - 1;
      var last, before, own := cqes[n], Reported(cqes[..n]), OfKey(cqes[..n], key);
      KeysDoNotMix(cqes[..n], key);
      assert (before + [ToEntry(last)])[..|before|] == before;
      assert (own + [last])[..|own|] == own;
      if Dropped(last) {
        assert Reported(cqes) == before;
      }
      if last.userData != key {
        assert OfKey(cqes, key) == own;
      }
    }
  }

  /** Nothing depends on how completions are spread over calls. */
  lemma {:induction false} ReportedConcat(a: seq<Cqe>, b: seq<Cqe>)
    ensures Reported(a + b) == Reported(a) + Reported(b)
  {
    if b == [] {
      assert a + b == a;
    } else {
      var n := |b| - 1;
      assert (a + b)[..|a + b| - 1] == a + b[..n];
      ReportedConcat(a, b[..n]);
      Append3(Reported(a), Reported(b[..n]), ReportOf(b[n]));
    }
  }

  /** All completions of a series of calls, and all their entries, in order. */
  function Joined(calls: seq<seq<Cqe>>): seq<Cqe> {
    if calls == [] then [] else Joined(calls[..|calls| - 1]) + calls[|calls| - 1]
  }

  function ReportedOver(calls: seq<seq<Cqe>>): seq<Entry> {
    if calls == [] then [] else ReportedOver(calls[..|calls| - 1]) + Reported(calls[|calls| - 1])
  }

  lemma {:induction false} CallsJoin(calls: seq<seq<Cqe>>)
    ensures ReportedOver(calls) == Reported(Joined(calls))
  {
    if calls != [] {
      var n := |calls| - 1;
      CallsJoin(calls[..n]);
      ReportedConcat(Joined(calls[..n]), calls[n]);
    }
  }

  lemma {:induction false} ReportedTwo(a: Cqe, b: Cqe)
    ensures Reported([a]) == ReportOf(a) && Reported([a, b]) == ReportOf(a) + ReportOf(b)
  {
    assert [a, b][..1] == [a] && [a][..0] == [];
    assert Reported([a]) == Reported([]) + ReportOf(a);
  }

  predicate OnceOwn(entries: seq<Entry>, own: Cqe) {
    |entries| == 1 && entries[0].userData == own.userData && Carries(entries[0].result, own.result)
  }

  /** A dropped completion is not mistaken for another one that is reported. */
  lemma OneOfTwoIff(own: Cqe, c: Cqe)
    requires own.userData == c.userData
    ensures OnceOwn(ReportOf(own) + ReportOf(c), own) <==> !Dropped(own) && Dropped(c)
    ensures OnceOwn(ReportOf(c) + ReportOf(own), own) <==> !Dropped(own) && Dropped(c)
  {
    if Dropped(own) {
      assert ReportOf(own) + ReportOf(c) == ReportOf(c) + ReportOf(own) == ReportOf(c);
    }
  }

  /** The completions of one operation: its own, and that of the request to cancel it, in either order. */
  predicate Completions(cqes: seq<Cqe>, own: Cqe, cancel: Option<Cqe>) {
    match cancel
    case None => cqes == [own]
    case Some(c) => cqes == [own, c] || cqes == [c, own]
  }

  /**
   An operation and the request to cancel it complete under the same key, in one call or in two,
   amid completions under any other keys.  The caller hears of the operation, once and with its own result, exactly when
   that result is not one of the two that are dropped and the cancellation came too late.
   */
  lemma {:induction false} ReportedOnceIff(calls: seq<seq<Cqe>>, key: nat, own: Cqe, cancel: Option<Cqe>)
    requires key != FILES_UPDATE_KEY && Completions(OfKey(Joined(calls), key), own, cancel)
    requires own.userData == key && (cancel.Some? ==> cancel.value.userData == key)
    ensures var entries := EntriesOf(ReportedOver(calls), key);
            |entries| == 1 && entries[0].userData == key && Carries(entries[0].result, own.result)
            <==> (&& own.result != -2 && own.result != -114
                  && (cancel.Some? ==> cancel.value.result == -2 || cancel.value.result == -114))
  {
    CallsJoin(calls);
    KeysDoNotMix(Joined(calls), key);
    if cancel.Some? {
      ReportedTwo(own, cancel.value);
      ReportedTwo(cancel.value, own);
      OneOfTwoIff(own, cancel.value);
    } else {
      ReportedTwo(own, own);
    }
  }

  // ---------------------------------------------------------------- the source's object

  class Driver {
    const filesUpdateFds: array<int>
    var filesUpdateState: UpdateState
    // the kernel's side
    var table: seq<int>
    var queued: nat
    var running: nat
    var posted: nat

    ghost function Model(): State
      reads this, filesUpdateFds
    {
      State(filesUpdateState, filesUpdateFds[..], table, queued, running, posted)
    }

    constructor (filesToRegister: nat)
      ensures Initial(Model()) && fresh(filesUpdateFds) && filesUpdateFds.Length == filesToRegister
      ensures forall i :: 0 <= i < filesToRegister ==> table[i] == -1
    {
      filesUpdateFds := new int[filesToRegister](_ => SKIP);
      filesUpdateState := NoUpdateInProgress;
      table := seq(filesToRegister, _ => -1);
      queued, running, posted := 0, 0, 0;
    }

    /** `register_fd_impl`; unregistering is registering -1. */
    method RegisterFd(fd: int, id: nat, full: bool, syncOk: bool) returns (ok: bool)
      requires Inv(Model()) && Enabled(Model(), Register(id, fd, full, syncOk))
      modifies this, filesUpdateFds
      ensures Inv(Model())
      ensures Model() == Next(old(Model()), Register(id, fd, full, syncOk))
      ensures full || old(filesUpdateState).Submitted? ==>
                && ok == syncOk && table == (if syncOk then old(table)[id := fd] else old(table))
                && filesUpdateFds[..] == old(filesUpdateFds[..]) && filesUpdateState == old(filesUpdateState)
      ensures !full && !old(filesUpdateState).Submitted? ==>
                && ok && table == old(table)
                && filesUpdateFds[..] == old(filesUpdateFds[..])[id := fd] && filesUpdateState.Pushed?
                && queued == old(queued) + (if old(filesUpdateState).Pushed? then 0 else 1)
    {
      StepKeepsProtocol(Model(), Register(id, fd, full, syncOk));
      match (full, filesUpdateState) {
        case (true, _) =>
          if syncOk { table := table[id := fd]; }
          ok := syncOk;
        case (false, Submitted) =>
          if syncOk { table := table[id := fd]; }
          ok := syncOk;
        case (false, NoUpdateInProgress) =>
          filesUpdateFds[id] := fd;
          queued := queued + 1;
          filesUpdateState := Pushed;
          ok := true;
        case (false, Pushed) =>
          filesUpdateFds[id] := fd;
          ok := true;
      }
      assert filesUpdateFds[..] == Next(old(Model()), Register(id, fd, full, syncOk)).fds;
    }

    /** The first half of `submit`: the state moves on whether or not the kernel takes the entry. */
    method EnterKernel(taken: nat)
      requires Inv(Model()) && Enabled(Model(), Submit(taken))
      modifies this
      ensures Inv(Model()) && Model() == Next(old(Model()), Submit(taken))
      ensures old(filesUpdateState).Pushed? ==> filesUpdateState.Submitted?
      ensures !old(filesUpdateState).Pushed? ==> filesUpdateState == old(filesUpdateState)
      ensures queued == old(queued) - taken && running == old(running) + taken && posted == old(posted)
      ensures table == old(table) && filesUpdateFds[..] == old(filesUpdateFds[..])
    {
      if filesUpdateState.Pushed? {
        filesUpdateState := Submitted;
      }
      queued, running := queued - taken, running + taken;
    }

    /** `complete_entries`: the second half of `submit`. */
    method CompleteEntries(cqes: seq<Cqe>) returns (entries: seq<Entry>)
      requires Inv(Model()) && UpdateCompletions(cqes) <= posted
      modifies this, filesUpdateFds
      ensures Inv(Model())
      ensures entries == Reported(cqes)
      ensures var at := Where(VisibleFlags(cqes));
              && |entries| == |at|
              && forall j :: 0 <= j < |at| ==>
                               && entries[j].userData == cqes[at[j]].userData
                               && Carries(entries[j].result, cqes[at[j]].result)
      ensures Model() ==
              if forall k :: 0 <= k < |cqes| ==> cqes[k].userData != 0xFFFF_FFFF_FFFF_FFFF then old(Model())
              else old(Model()).(fds := Skips(filesUpdateFds.Length), update := NoUpdateInProgress, posted := 0)
    {
      entries := [];
      ghost var reaped: nat := 0;
      for k := 0 to |cqes|
        invariant entries == Reported(cqes[..k])
        invariant reaped == UpdateCompletions(cqes[..k]) <= old(posted) <= 1
        invariant posted == old(posted) - reaped
        invariant Model() == if reaped == 0 then old(Model()) else Next(old(Model()), Reap)
      {
        TakeOneMore(cqes, k);
        CountIsMonotone(cqes, k + 1);
        if cqes[k].userData == FILES_UPDATE_KEY {
          FinishUpdate();
          reaped := reaped + 1;
        } else if !Dropped(cqes[k]) {
          entries := entries + [ToEntry(cqes[k])];
        }
      }
      assert cqes[..|cqes|] == cqes;
      NoUpdateCompletionIff(cqes);
      ReportedLength(cqes);
      forall j | 0 <= j < |entries|
        ensures entries[j].userData == cqes[Where(VisibleFlags(cqes))[j]].userData
        ensures Carries(entries[j].result, cqes[Where(VisibleFlags(cqes))[j]].result)
      {
        ReportedInOrder(cqes, j);
      }
    }

    /** The completion of the asynchronous update: the buffer is free for the next batch. */
    method FinishUpdate()
      requires posted > 0
      modifies this, filesUpdateFds
      ensures posted == old(posted) - 1
      ensures Model() == old(Model()).(fds := Skips(filesUpdateFds.Length), update := NoUpdateInProgress,
                                       posted := old(posted) - 1)
    {
      ResetFds();
      filesUpdateState := NoUpdateInProgress;
      posted := posted - 1;
    }

    method ResetFds()
      modifies filesUpdateFds
      ensures filesUpdateFds[..] == Skips(filesUpdateFds.Length)
    {
      for i := 0 to filesUpdateFds.Length
        invariant forall j :: 0 <= j < i ==> filesUpdateFds[j] == SKIP
      {
        filesUpdateFds[i] := SKIP;
      }
    }
  }

  lemma {:induction false} CountIsMonotone(cqes: seq<Cqe>, k: nat)
    requires k <= |cqes|
    ensures UpdateCompletions(cqes[..k]) <= UpdateCompletions(cqes)
    decreases |cqes| - k
  {
    if k < |cqes| {
      assert cqes[..k + 1][..k] == cqes[..k];
      CountIsMonotone(cqes, k + 1);
    } else {
      assert cqes[..k] == cqes;
    }
  }
}
