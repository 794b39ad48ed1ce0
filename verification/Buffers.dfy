/**
 Owned buffers and slices of them (src/buf/io_buf.rs, src/buf/slice.rs).

 A buffer is a vector seen through a stack of slices.  The vector is `mem`, its whole
 allocation, of which the first `len` bytes are initialised; the stack is a `View`.
 */
module Buffers {
  import opened Wrappers

  newtype byte = x: int | 0 <= x < 256

  /** The layers of `Slice<Slice<.. Vec<u8> ..>>`, the outermost first. */
  datatype View = Whole | Slice(inner: View, begin: nat, end: nat)

  /** The layers of `v`, including `v` itself and the vector. */
  predicate IsLayer(u: View, v: View) {
    u == v || (v.Slice? && IsLayer(u, v.inner))
  }

  /** `buf_capacity` */
  function Capacity(v: View, cap: nat): int {
    match v
    case Whole => cap
    case Slice(_, begin, end) => end - begin
  }

  /** `buf_len`: the length of what a slice dereferences to. */
  function Length(v: View, len: nat): int {
    match v
    case Whole => len
    case Slice(inner, begin, end) => (if end <= Length(inner, len) then end else Length(inner, len)) - begin
  }

  /** Distance of `as_buf_ptr` from the start of the vector. */
  function Offset(v: View): nat {
    match v
    case Whole => 0
    case Slice(inner, begin, _) => Offset(inner) + begin
  }

  /** Room left in the view: the length of `as_uninit_slice`. */
  function Spare(v: View, len: nat, cap: nat): int {
    Capacity(v, cap) - Length(v, len)
  }

  /** Views whose accessors do not panic. */
  predicate Usable(v: View, len: nat, cap: nat) {
    match v
    case Whole => len <= cap
    case Slice(inner, begin, end) =>
      && Usable(inner, len, cap)
      && begin <= end <= Capacity(inner, cap)
      && begin <= Length(inner, len)
  }

  /** `deref`: take the inner bytes, then cut the range out of them. */
  function Bytes(v: View, mem: seq<byte>, len: nat): (r: seq<byte>)
    requires Usable(v, len, |mem|)
    ensures |r| == Length(v, len)
  {
    match v
    case Whole => mem[..len]
    case Slice(inner, begin, end) =>
      var bytes := Bytes(inner, mem, len);
      bytes[begin..if end <= |bytes| then end else |bytes|]
  }

  // ---------------------------------------------------------------- slicing

  datatype Bound = Included(n: nat) | Excluded(n: nat) | Unbounded

  /** What the two ends of a range say of an index. */
  predicate Above(lo: Bound, i: nat) {
    match lo
    case Included(n) => n <= i
    case Excluded(n) => n < i
    case Unbounded => true
  }

  predicate Below(hi: Bound, i: nat) {
    match hi
    case Included(n) => i <= n
    case Excluded(n) => i < n
    case Unbounded => true
  }

  function RangeBegin(bound: Bound): nat {
    match bound
    case Included(n) => n
    case Excluded(n) => n + 1
    case Unbounded => 0
  }

  function RangeEnd(bound: Bound, capacity: nat): nat {
    match bound
    case Included(n) => n + 1
    case Excluded(n) => n
    case Unbounded => capacity
  }

  /** `IoBuf::slice`; `None` is a failed assertion. */
  function MakeSlice(v: View, len: nat, cap: nat, lo: Bound, hi: Bound): Option<View>
    requires Usable(v, len, cap)
  {
    var begin := RangeBegin(lo);
    CapacityCoversLength(v, len, cap);
    var end := RangeEnd(hi, Capacity(v, cap));
    if begin < Capacity(v, cap) && end <= Capacity(v, cap) && begin <= Length(v, len)
    then Some(Slice(v, begin, end))
    else None
  }

  /** `deref` as computed, layer by layer: `None` is a range out of order or out of bounds. */
  function Deref(v: View, mem: seq<byte>, len: nat): Option<seq<byte>>
    requires len <= |mem|
  {
    match v
    case Whole => Some(mem[..len])
    case Slice(inner, begin, end) =>
      var bytes := Deref(inner, mem, len);
      if bytes.None? then None
      else
        var stop := Min(end, |bytes.value|);
        if begin <= stop then Some(bytes.value[begin..stop]) else None
  }

  /** `buf_capacity` as computed: `None` is a subtraction that underflows. */
  function DerivedCapacity(v: View, cap: nat): Option<nat> {
    match v
    case Whole => Some(cap)
    case Slice(_, begin, end) => if begin <= end then Some(end - begin) else None
  }

  /** On a usable view, nested to any depth, no accessor panics. */
  lemma {:induction false} UsableViewsDoNotPanic(v: View, mem: seq<byte>, len: nat)
    requires Usable(v, len, |mem|)
    ensures len <= |mem| && Deref(v, mem, len) == Some(Bytes(v, mem, len))
    ensures DerivedCapacity(v, |mem|) == Some(Capacity(v, |mem|))
  {
    if v.Slice? {
      UsableViewsDoNotPanic(v.inner, mem, len);
    }
  }

  /** The range is not inverted: no index is before its start and past its end. */
  ghost predicate Ordered(lo: Bound, hi: Bound) {
    forall i: nat :: Above(lo, i) || Below(hi, i)
  }

  lemma OrderedIff(lo: Bound, hi: Bound, capacity: nat)
    requires RangeBegin(lo) < capacity
    ensures Ordered(lo, hi) <==> RangeBegin(lo) <= RangeEnd(hi, capacity)
  {
    if Ordered(lo, hi) && RangeBegin(lo) > 0 {
      assert Above(lo, RangeBegin(lo) - 1) || Below(hi, RangeBegin(lo) - 1);
    }
  }

  /**
   What `slice` asserts: some index within the capacity is in the range's lower part, an explicit
   end stays within the capacity, and only initialised bytes are skipped.
   */
  lemma SliceIsMadeIff(v: View, len: nat, cap: nat, lo: Bound, hi: Bound)
    requires Usable(v, len, cap)
    ensures MakeSlice(v, len, cap, lo, hi).Some? <==>
            && (exists i: nat :: i < Capacity(v, cap) && Above(lo, i))
            && (hi.Unbounded? || forall i: nat :: Below(hi, i) ==> i < Capacity(v, cap))
            && (forall i: nat :: !Above(lo, i) ==> i < Length(v, len))
  {
    CapacityCoversLength(v, len, cap);
    var begin, end := RangeBegin(lo), RangeEnd(hi, Capacity(v, cap));
    assert (exists i: nat :: i < Capacity(v, cap) && Above(lo, i)) <==> begin < Capacity(v, cap) by {
      assert Above(lo, begin);
    }
    assert (hi.Unbounded? || forall i: nat :: Below(hi, i) ==> i < Capacity(v, cap)) <==> end <= Capacity(v, cap) by {
      if !hi.Unbounded? && end > 0 { assert Below(hi, end - 1); }
    }
    assert (forall i: nat :: !Above(lo, i) ==> i < Length(v, len)) <==> begin <= Length(v, len) by {
      if begin > 0 { assert !Above(lo, begin - 1); }
    }
  }

  function SelectedFlags(n: nat, lo: Bound, hi: Bound): (flags: seq<bool>)
    ensures |flags| == n
  {
    seq(n, i requires 0 <= i => Above(lo, i) && Below(hi, i))
  }

  lemma {:induction false} SelectedIsRange(n: nat, lo: Bound, hi: Bound, capacity: nat)
    requires n <= capacity
    ensures SelectedFlags(n, lo, hi) == RangeFlags(n, RangeBegin(lo), RangeEnd(hi, capacity))
  {
  }

  lemma {:induction false} SelectedPositions(n: nat, lo: Bound, hi: Bound, capacity: nat)
    requires n <= capacity && RangeBegin(lo) <= n && RangeBegin(lo) <= RangeEnd(hi, capacity)
    ensures var at := Where(SelectedFlags(n, lo, hi));
            && |at| == Min(RangeEnd(hi, capacity), n) - RangeBegin(lo)
            && forall j :: 0 <= j < |at| ==> at[j] == RangeBegin(lo) + j
  {
    SelectedIsRange(n, lo, hi, capacity);
    WhereRange(n, RangeBegin(lo), RangeEnd(hi, capacity));
  }

  /** A slice has room for exactly the indices of the range within the buffer's capacity. */
  lemma {:induction false} SliceCapacityIsItsRange(v: View, len: nat, cap: nat, lo: Bound, hi: Bound)
    requires Usable(v, len, cap) && MakeSlice(v, len, cap, lo, hi).Some? && Ordered(lo, hi)
    ensures 0 <= Capacity(v, cap)
    ensures Capacity(MakeSlice(v, len, cap, lo, hi).value, cap) == |Where(SelectedFlags(Capacity(v, cap), lo, hi))|
  {
    CapacityCoversLength(v, len, cap);
    OrderedIff(lo, hi, Capacity(v, cap));
    SelectedPositions(Capacity(v, cap), lo, hi, Capacity(v, cap));
  }

  /** What is read are the bytes at the selected indices, in order. */
  ghost predicate Picks(read: seq<byte>, bytes: seq<byte>, lo: Bound, hi: Bound) {
    var at := Where(SelectedFlags(|bytes|, lo, hi));
    |read| == |at| && forall j :: 0 <= j < |at| ==> read[j] == bytes[at[j]]
  }

  lemma {:induction false} RangePicks(bytes: seq<byte>, lo: Bound, hi: Bound, capacity: nat)
    requires |bytes| <= capacity && RangeBegin(lo) <= |bytes| && RangeBegin(lo) <= RangeEnd(hi, capacity)
    ensures Picks(bytes[RangeBegin(lo)..Min(RangeEnd(hi, capacity), |bytes|)], bytes, lo, hi)
  {
    SelectedPositions(|bytes|, lo, hi, capacity);
  }

  /** A slice reads, in order, exactly the bytes of its buffer whose index is in the range. */
  lemma {:induction false} SliceReadsItsRange(v: View, mem: seq<byte>, len: nat, lo: Bound, hi: Bound)
    requires Usable(v, len, |mem|) && MakeSlice(v, len, |mem|, lo, hi).Some? && Ordered(lo, hi)
    ensures var w := MakeSlice(v, len, |mem|, lo, hi).value;
            Usable(w, len, |mem|) && Picks(Bytes(w, mem, len), Bytes(v, mem, len), lo, hi)
  {
    CapacityCoversLength(v, len, |mem|);
    OrderedIff(lo, hi, Capacity(v, |mem|));
    RangePicks(Bytes(v, mem, len), lo, hi, Capacity(v, |mem|));
  }

  /**
   The assertions of `slice` do not compare the two ends of the range.  A slice they let through
   can be read, asked for its capacity, and used further, exactly when the range is not inverted.
   */
  lemma {:induction false} SliceUsableIff(v: View, mem: seq<byte>, len: nat, lo: Bound, hi: Bound)
    requires Usable(v, len, |mem|) && MakeSlice(v, len, |mem|, lo, hi).Some?
    ensures len <= |mem|
    ensures var w := MakeSlice(v, len, |mem|, lo, hi).value;
            && (Deref(w, mem, len).Some? <==> Ordered(lo, hi))
            && (DerivedCapacity(w, |mem|).Some? <==> Ordered(lo, hi))
            && (Usable(w, len, |mem|) <==> Ordered(lo, hi))
  {
    CapacityCoversLength(v, len, |mem|);
    UsableViewsDoNotPanic(v, mem, len);
    OrderedIff(lo, hi, Capacity(v, |mem|));
  }

  /** A range that passes every assertion and panics on first use. */
  lemma {:induction false} InvertedRangeIsAccepted(mem: seq<byte>)
    requires |mem| == 8
    ensures var bad := MakeSlice(Whole, 8, 8, Included(5), Excluded(3));
            bad.Some? && Deref(bad.value, mem, 8).None? && DerivedCapacity(bad.value, 8).None?
  {
    assert !Above(Included(5), 4) && !Below(Excluded(3), 4);
    SliceUsableIff(Whole, mem, 8, Included(5), Excluded(3));
  }

  lemma {:induction false} CapacityCoversLength(v: View, len: nat, cap: nat)
    requires Usable(v, len, cap)
    ensures 0 <= Length(v, len) <= Capacity(v, cap)
    ensures Offset(v) + Length(v, len) <= len
    ensures Offset(v) + Capacity(v, cap) <= cap
  {
    if v.Slice? {
      CapacityCoversLength(v.inner, len, cap);
    }
  }

  /**
   A view nested to any depth is one range of the vector, and if it has any room that room
   starts exactly where the vector's initialised bytes end.
   */
  lemma {:induction false} NestedViewIsOneRange(v: View, mem: seq<byte>, len: nat)
    requires Usable(v, len, |mem|)
    ensures 0 <= Length(v, len) <= Capacity(v, |mem|)
    ensures Offset(v) + Length(v, len) <= len <= |mem|
    ensures Offset(v) + Capacity(v, |mem|) <= |mem|
    ensures Bytes(v, mem, len) == mem[Offset(v)..Offset(v) + Length(v, len)]
    ensures Spare(v, len, |mem|) > 0 ==> Offset(v) + Length(v, len) == len
  {
    if v.Slice? {
      NestedViewIsOneRange(v.inner, mem, len);
      var o, n := Offset(v.inner), Length(v.inner, len);
      var stop := if v.end <= n then v.end else n;
      SliceOfSlice(mem, o, o + n, v.begin, stop);
    }
  }

  /**
   Initialising `n` more bytes of the vector lengthens a view by `n` exactly when `n` fits
   its room.
   */
  lemma {:induction false} GrowsByIff(v: View, len: nat, cap: nat, n: nat)
    requires Usable(v, len, cap) && len + n <= cap
    ensures Length(v, len + n) == Length(v, len) + n <==> n <= Spare(v, len, cap)
    ensures Usable(v, len + n, cap)
  {
    CapacityCoversLength(v, len, cap);
    if v.Slice? {
      GrowsByIff(v.inner, len, cap, n);
      CapacityCoversLength(v.inner, len, cap);
      CapacityCoversLength(v.inner, len + n, cap);
      LengthIsMonotone(v.inner, len, len + n);
    }
  }

  lemma {:induction false} LengthIsMonotone(v: View, a: nat, b: nat)
    requires a <= b
    ensures Length(v, a) <= Length(v, b)
  {
    if v.Slice? {
      LengthIsMonotone(v.inner, a, b);
    }
  }

  lemma {:induction false} InnerLayersHaveMoreRoom(u: View, v: View, len: nat, cap: nat)
    requires Usable(v, len, cap) && IsLayer(u, v)
    ensures Usable(u, len, cap)
    ensures Spare(v, len, cap) <= Spare(u, len, cap) || Spare(v, len, cap) == 0
  {
    if u != v {
      InnerLayersHaveMoreRoom(u, v.inner, len, cap);
      CapacityCoversLength(v.inner, len, cap);
    }
  }

  /** The initialised bytes are as they were, and `data` follows them. */
  ghost predicate Continues(mem: seq<byte>, len: nat, mem': seq<byte>, data: seq<byte>) {
    && len + |data| <= |mem| == |mem'|
    && (forall i :: 0 <= i < len ==> mem'[i] == mem[i])
    && (forall i :: 0 <= i < |data| ==> mem'[len + i] == data[i])
  }

  /** The vector after the kernel put `data` at the start of a view's room. */
  function Filled(v: View, mem: seq<byte>, len: nat, data: seq<byte>): (r: seq<byte>)
    requires Usable(v, len, |mem|) && |data| <= Spare(v, len, |mem|)
    ensures Continues(mem, len, r, data)
  {
    NestedViewIsOneRange(v, mem, len);
    var at := Offset(v) + Length(v, len);
    mem[..at] + data + mem[at + |data|..]
  }

  lemma AppendedRange(mem: seq<byte>, mem': seq<byte>, o: nat, n: nat, len: nat, data: seq<byte>)
    requires Continues(mem, len, mem', data)
    requires o + n <= len && (data != [] ==> o + n == len)
    ensures mem'[o..o + n + |data|] == mem[o..o + n] + data
  {
  }

  /** Seen through `u`, the vector reads what it read before, followed by `data`. */
  ghost predicate Gained(u: View, mem: seq<byte>, len: nat, mem': seq<byte>, len': nat, data: seq<byte>) {
    && Usable(u, len, |mem|) && Usable(u, len', |mem'|)
    && Bytes(u, mem', len') == Bytes(u, mem, len) + data
  }

  lemma {:induction false} ViewGrows(u: View, mem: seq<byte>, len: nat, n: nat)
    requires Usable(u, len, |mem|) && n <= Spare(u, len, |mem|) && len + n <= |mem|
    ensures Usable(u, len + n, |mem|) && Length(u, len + n) == Length(u, len) + n
    ensures 0 <= Length(u, len) && Offset(u) + Length(u, len) <= len && (n > 0 ==> Offset(u) + Length(u, len) == len)
  {
    GrowsByIff(u, len, |mem|, n);
    NestedViewIsOneRange(u, mem, len);
  }

  lemma {:induction false} GainedByRanges(u: View, mem: seq<byte>, len: nat,
                                          mem': seq<byte>, len': nat, data: seq<byte>)
    requires Usable(u, len, |mem|) && Usable(u, len', |mem'|)
    requires 0 <= Length(u, len) && 0 <= Length(u, len')
    requires Offset(u) + Length(u, len) <= |mem| && Offset(u) + Length(u, len') <= |mem'|
    requires mem'[Offset(u)..Offset(u) + Length(u, len')] == mem[Offset(u)..Offset(u) + Length(u, len)] + data
    ensures Gained(u, mem, len, mem', len', data)
  {
    NestedViewIsOneRange(u, mem, len);
    NestedViewIsOneRange(u, mem', len');
  }

  /** A view with room for `data` gains exactly `data` when `data` follows the initialised bytes. */
  lemma {:induction false} AppendsTo(u: View, mem: seq<byte>, mem': seq<byte>, len: nat, data: seq<byte>)
    requires Usable(u, len, |mem|) && |data| <= Spare(u, len, |mem|)
    requires Continues(mem, len, mem', data)
    ensures Gained(u, mem, len, mem', len + |data|, data)
  {
    ViewGrows(u, mem, len, |data|);
    AppendedRange(mem, mem', Offset(u), Length(u, len), len, data);
    GainedByRanges(u, mem, len, mem', len + |data|, data);
  }

  /** Reading `data` into the room of a view appends exactly `data` to every layer under it. */
  lemma {:induction false} FillAppendsToEveryLayer(u: View, v: View, mem: seq<byte>, len: nat, data: seq<byte>)
    requires Usable(v, len, |mem|) && |data| <= Spare(v, len, |mem|)
    requires IsLayer(u, v)
    ensures Gained(u, mem, len, Filled(v, mem, len, data), len + |data|, data)
  {
    InnerLayersHaveMoreRoom(u, v, len, |mem|);
    CapacityCoversLength(u, len, |mem|);
    AppendsTo(u, mem, Filled(v, mem, len, data), len, data);
  }

  /** Every layer of `v` reads what it read before, followed by `data`. */
  ghost predicate EveryLayerGained(v: View, mem: seq<byte>, len: nat, mem': seq<byte>, len': nat, data: seq<byte>) {
    forall u :: IsLayer(u, v) ==> Gained(u, mem, len, mem', len', data)
  }

  lemma {:induction false} FillAppends(v: View, mem: seq<byte>, len: nat, data: seq<byte>)
    requires Usable(v, len, |mem|) && |data| <= Spare(v, len, |mem|)
    ensures EveryLayerGained(v, mem, len, Filled(v, mem, len, data), len + |data|, data)
  {
    forall u | IsLayer(u, v)
      ensures Gained(u, mem, len, Filled(v, mem, len, data), len + |data|, data)
    {
      FillAppendsToEveryLayer(u, v, mem, len, data);
    }
  }

  // ---------------------------------------------------------------- the source's objects

  /** An owned buffer: a vector and the slices it is wrapped in. */
  class IoBuffer {
    var mem: seq<byte>
    var len: nat
    const view: View

    ghost predicate Valid()
      reads this
    {
      Usable(view, len, |mem|)
    }

    ghost function Contents(): seq<byte>
      reads this
      requires Valid()
    {
      Bytes(view, mem, len)
    }

    ghost function Room(): int
      reads this
    {
      Spare(view, len, |mem|)
    }

    constructor (mem: seq<byte>, len: nat, view: View)
      requires Usable(view, len, |mem|)
      ensures Valid() && this.mem == mem && this.len == len && this.view == view
    {
      this.mem := mem;
      this.len := len;
      this.view := view;
    }

    /** `set_buf_init`: every slice hands it down to the vector, which sets its length. */
    method SetBufInit(n: nat)
      requires Valid() && n <= Room()
      modifies `len
      ensures Valid() && len == old(len) + n
      ensures forall u :: IsLayer(u, view) ==> Length(u, len) == Length(u, old(len)) + n
    {
      assert len + n <= |mem| by {
        NestedViewIsOneRange(view, mem, len);
      }
      forall u | IsLayer(u, view)
        ensures Length(u, len + n) == Length(u, len) + n
      {
        InnerLayersHaveMoreRoom(u, view, len, |mem|);
        NestedViewIsOneRange(u, mem, len);
        GrowsByIff(u, len, |mem|, n);
      }
      GrowsByIff(view, len, |mem|, n);
      len := len + n;
    }

    /** A completed read: the kernel fills the room from its start, then the length is updated. */
    method Receive(data: seq<byte>)
      requires Valid() && |data| <= Room()
      modifies this
      ensures Valid() && |mem| == old(|mem|) && len == old(len) + |data| && Room() == old(Room()) - |data|
      ensures Contents() == old(Contents()) + data
      ensures old(len) <= |mem| && mem[..old(len)] == old(mem[..len])
      ensures EveryLayerGained(view, old(mem), old(len), mem, len, data)
    {
      FillAppends(view, mem, len, data);
      assert IsLayer(view, view);
      mem := Filled(view, mem, len, data);
      SetBufInit(|data|);
    }
  }
}
