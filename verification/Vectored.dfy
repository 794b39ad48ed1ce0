/**
 Vectored receive (src/buf/buf_wrapper.rs): the kernel scatters a byte string over the spare
 room of a list of buffers, then `set_init` spreads the byte count over their lengths.
 */
module Vectored {
  import opened Wrappers
  import opened Buffers

  /** A vector: its whole allocation and the number of initialised bytes. */
  datatype Vec = Vec(mem: seq<byte>, len: nat) {
    predicate Valid() { len <= |mem| }

    function Contents(): seq<byte>
      requires Valid()
    {
      mem[..len]
    }

    function Room(): nat
      requires Valid()
    {
      |mem| - len
    }
  }

  predicate AllValid(bufs: seq<Vec>) {
    forall b :: b in bufs ==> b.Valid()
  }

  function Concat(chunks: seq<seq<byte>>): seq<byte> {
    if chunks == [] then [] else chunks[0] + Concat(chunks[1..])
  }

  function ContentsOf(bufs: seq<Vec>): seq<seq<byte>>
    requires AllValid(bufs)
  {
    seq(|bufs|, i requires 0 <= i < |bufs| => bufs[i].Contents())
  }

  function TotalRoom(bufs: seq<Vec>): nat
    requires AllValid(bufs)
  {
    if bufs == [] then 0 else bufs[0].Room() + TotalRoom(bufs[1..])
  }

  // ---------------------------------------------------------------- the kernel

  /** The number of bytes that land in each buffer: each spare slice is filled before the next. */
  function Landed(bufs: seq<Vec>, count: nat): (counts: seq<nat>)
    requires AllValid(bufs)
    ensures |counts| == |bufs|
    ensures forall i :: 0 <= i < |bufs| ==> counts[i] <= bufs[i].Room()
  {
    if bufs == [] then []
    else
      var n := Min(count, bufs[0].Room());
      [n] + Landed(bufs[1..], count - n)
  }

  /** The bytes that land in each buffer. */
  function Chunks(bufs: seq<Vec>, data: seq<byte>): (chunks: seq<seq<byte>>)
    requires AllValid(bufs)
    ensures |chunks| == |bufs|
    ensures forall i :: 0 <= i < |bufs| ==> |chunks[i]| == Landed(bufs, |data|)[i]
    ensures |data| <= TotalRoom(bufs) ==> Concat(chunks) == data
  {
    if bufs == [] then []
    else
      var n := Min(|data|, bufs[0].Room());
      assert data == data[..n] + data[n..];
      [data[..n]] + Chunks(bufs[1..], data[n..])
  }

  /** A buffer after the kernel wrote `chunk` at the start of its spare slice. */
  function Written(b: Vec, chunk: seq<byte>): Vec
    requires b.Valid() && |chunk| <= b.Room()
  {
    Vec(b.mem[..b.len] + chunk + b.mem[b.len + |chunk|..], b.len)
  }

  function Scattered(bufs: seq<Vec>, data: seq<byte>): (r: seq<Vec>)
    requires AllValid(bufs)
    ensures |r| == |bufs|
    ensures forall i :: 0 <= i < |r| ==> |r[i].mem| == |bufs[i].mem| && r[i].len == bufs[i].len
  {
    var chunks := Chunks(bufs, data);
    seq(|bufs|, i requires 0 <= i < |bufs| => Written(bufs[i], chunks[i]))
  }

  // ---------------------------------------------------------------- the accounting

  /** What `set_init` adds to each length: it splits the count by full capacity. */
  function Grants(bufs: seq<Vec>, count: nat): (grants: seq<nat>)
    ensures |grants| == |bufs|
  {
    if bufs == [] then []
    else
      var n := Min(count, |bufs[0].mem|);
      [n] + Grants(bufs[1..], count - n)
  }

  /** The buffers after `set_init`. */
  function Accounted(bufs: seq<Vec>, count: nat): (r: seq<Vec>)
    ensures |r| == |bufs|
  {
    var grants := Grants(bufs, count);
    seq(|bufs|, i requires 0 <= i < |bufs| => bufs[i].(len := bufs[i].len + grants[i]))
  }

  /** Every buffer the data flows past was empty. */
  predicate OverflownBuffersWereEmpty(bufs: seq<Vec>, count: nat)
    requires AllValid(bufs)
  {
    bufs == [] ||
    ((count > bufs[0].Room() ==> bufs[0].len == 0)
     && OverflownBuffersWereEmpty(bufs[1..], count - Min(count, bufs[0].Room())))
  }

  /** The accounting agrees with the kernel exactly when no partly filled buffer overflowed. */
  lemma {:induction false} AccountingIsRightIff(bufs: seq<Vec>, count: nat)
    requires AllValid(bufs)
    ensures Grants(bufs, count) == Landed(bufs, count) <==> OverflownBuffersWereEmpty(bufs, count)
  {
    if bufs != [] {
      var n, m := Min(count, bufs[0].Room()), Min(count, |bufs[0].mem|);
      var grants, landed := Grants(bufs, count), Landed(bufs, count);
      AccountingIsRightIff(bufs[1..], count - n);
      assert grants[0] == m && landed[0] == n;
      assert grants[1..] == Grants(bufs[1..], count - m);
      assert landed[1..] == Landed(bufs[1..], count - n);
      if m == n {
        assert grants == landed <==> grants[1..] == landed[1..] by {
          assert grants == [m] + grants[1..] && landed == [n] + landed[1..];
        }
      }
    }
  }

  /** A buffer holding one byte of a two-byte vector hides the second received byte. */
  lemma PartlyFilledBufferIsOvercounted()
    ensures var bufs := [Vec([0, 0], 1), Vec([0, 0], 0)];
            Grants(bufs, 2) == [2, 0] && Landed(bufs, 2) == [1, 1]
  {
    var bufs := [Vec([0, 0], 1), Vec([0, 0], 0)];
    var rest := bufs[1..];
    assert rest == [Vec([0, 0], 0)] && rest[1..] == [];
    assert Landed(rest, 1) == [1] + Landed(rest[1..], 0);
    assert Grants(rest, 0) == [0] + Grants(rest[1..], 0);
  }

  /** Every buffer holds what it held before, followed by its own chunk. */
  ghost predicate EachGained(before: seq<Vec>, after: seq<Vec>, chunks: seq<seq<byte>>)
    requires AllValid(before) && |before| == |after| == |chunks|
  {
    forall i :: 0 <= i < |before| ==> after[i].Valid() && after[i].Contents() == before[i].Contents() + chunks[i]
  }

  lemma GainedIff(b: Vec, chunk: seq<byte>, grant: nat)
    requires b.Valid() && |chunk| <= b.Room()
    ensures var after := Written(b, chunk).(len := b.len + grant);
            after.Valid() && after.Contents() == b.Contents() + chunk <==> grant == |chunk|
  {
    var after := Written(b, chunk).(len := b.len + grant);
    if after.Valid() {
      assert |after.Contents()| == b.len + grant;
      assert grant == |chunk| ==> after.Contents() == b.Contents() + chunk;
    }
  }

  /**
   A vectored receive appends to every buffer its own chunk exactly when no partly filled
   buffer overflowed.
   */
  lemma ReceiveIsRightIff(bufs: seq<Vec>, data: seq<byte>)
    requires AllValid(bufs)
    ensures EachGained(bufs, Accounted(Scattered(bufs, data), |data|), Chunks(bufs, data))
            <==> OverflownBuffersWereEmpty(bufs, |data|)
  {
    var chunks, grants := Chunks(bufs, data), Grants(bufs, |data|);
    var after := Accounted(Scattered(bufs, data), |data|);
    GrantsDependOnCapacity(bufs, Scattered(bufs, data), |data|);
    forall i | 0 <= i < |bufs|
      ensures after[i].Valid() && after[i].Contents() == bufs[i].Contents() + chunks[i]
              <==> grants[i] == Landed(bufs, |data|)[i]
    {
      GainedIff(bufs[i], chunks[i], grants[i]);
    }
    assert grants == Landed(bufs, |data|) <==> forall i :: 0 <= i < |bufs| ==> grants[i] == Landed(bufs, |data|)[i];
    AccountingIsRightIff(bufs, |data|);
  }

  lemma {:induction false} GrantsDependOnCapacity(a: seq<Vec>, b: seq<Vec>, count: nat)
    requires |a| == |b| && forall i :: 0 <= i < |a| ==> |a[i].mem| == |b[i].mem|
    ensures Grants(a, count) == Grants(b, count)
  {
    if a != [] {
      GrantsDependOnCapacity(a[1..], b[1..], count - Min(count, |a[0].mem|));
    }
  }

  lemma {:induction false} EmptyBuffersAreRight(bufs: seq<Vec>, count: nat)
    requires AllValid(bufs) && forall b :: b in bufs ==> b.len == 0
    ensures OverflownBuffersWereEmpty(bufs, count)
  {
    if bufs != [] {
      EmptyBuffersAreRight(bufs[1..], count - Min(count, bufs[0].Room()));
    }
  }

  /** Buffers that start empty end up holding, together and in order, exactly the received bytes. */
  lemma EmptyBuffersHoldTheData(bufs: seq<Vec>, data: seq<byte>)
    requires AllValid(bufs) && forall b :: b in bufs ==> b.len == 0
    requires |data| <= TotalRoom(bufs)
    ensures var after := Accounted(Scattered(bufs, data), |data|);
            && AllValid(after)
            && Concat(ContentsOf(after)) == data
  {
    EmptyBuffersAreRight(bufs, |data|);
    ReceiveIsRightIff(bufs, data);
    var after := Accounted(Scattered(bufs, data), |data|);
    assert AllValid(after);
    forall i | 0 <= i < |after|
      ensures ContentsOf(after)[i] == Chunks(bufs, data)[i]
    {
      assert after[i].Contents() == bufs[i].Contents() + Chunks(bufs, data)[i];
      assert bufs[i] in bufs;
    }
    assert ContentsOf(after) == Chunks(bufs, data);
  }

  // ---------------------------------------------------------------- the source's object

  class VectoredBufWrapper {
    var buffers: seq<Vec>

    constructor (buffers: seq<Vec>)
      ensures this.buffers == buffers
    {
      this.buffers := buffers;
    }

    /** `set_init`, for any buffers and any count. */
    method SetInit(count: nat)
      modifies this
      ensures buffers == Accounted(old(buffers), count)
    {
      var left: nat := count;
      ghost var start, goal := buffers, Accounted(buffers, count);
      for k := 0 to |buffers|
        invariant |buffers| == |start|
        invariant buffers[k..] == start[k..]
        invariant Grants(start, count)[k..] == Grants(start[k..], left)
        invariant buffers[..k] == goal[..k]
      {
        ghost var done := buffers[..k];
        var capacity := |buffers[k].mem|;
        assert buffers[k] == buffers[k..][0] == start[k];
        assert start[k..][1..] == start[k + 1..];
        assert Grants(start, count)[k] == Grants(start, count)[k..][0] == Min(left, capacity);
        assert Grants(start, count)[k + 1..] == Grants(start, count)[k..][1..];
        if left >= capacity {
          buffers := buffers[k := buffers[k].(len := buffers[k].len + capacity)];
          left := left - capacity;
        } else {
          buffers := buffers[k := buffers[k].(len := buffers[k].len + left)];
          left := 0;
        }
        TakeOneMore(buffers, k);
        TakeOneMore(goal, k);
        assert buffers[..k] == done && buffers[k] == goal[k];
      }
    }

    /** A completed vectored receive. */
    method Receive(data: seq<byte>)
      requires AllValid(buffers) && |data| <= TotalRoom(buffers)
      modifies this
      ensures |buffers| == old(|buffers|)
      ensures Concat(Chunks(old(buffers), data)) == data
      ensures EachGained(old(buffers), buffers, Chunks(old(buffers), data))
              <==> OverflownBuffersWereEmpty(old(buffers), |data|)
    {
      ReceiveIsRightIff(buffers, data);
      buffers := Scattered(buffers, data);
      SetInit(|data|);
    }
  }
}
