/** Result and option types shared by the modules of the model. */
module Wrappers {

  datatype Option<+T> = None | Some(value: T)

  /** The outcome of an io operation: a byte count or an operating system error code. */
  datatype IoResult = Ok(count: nat) | Err(code: int)

  function Min(a: nat, b: nat): nat {
    if a <= b then a else b
  }

  /** Subtraction of instants saturates at zero. */
  function Since(later: nat, earlier: nat): nat {
    if later <= earlier then 0 else later - earlier
  }

  /** A sequence with one element taken out. */
  function Without<T>(s: seq<T>, i: nat): (r: seq<T>)
    requires i < |s|
    ensures |r| == |s| - 1
  {
    s[..i] + s[i + 1..]
  }

  /** The positions of the flags that are set, in order: what a filter keeps. */
  function Where(flags: seq<bool>): (at: seq<nat>)
    ensures forall j :: 0 <= j < |at| ==> at[j] < |flags| && flags[at[j]]
    ensures forall i, j :: 0 <= i < j < |at| ==> at[i] < at[j]
    ensures forall k :: 0 <= k < |flags| && flags[k] ==> k in at
  {
    if flags == [] then []
    else
      var n := |flags| - 1;
      Where(flags[..n]) + if flags[n] then [n] else []
  }

  function RangeFlags(n: nat, from: nat, to: nat): (flags: seq<bool>)
    ensures |flags| == n
  {
    seq(n, i requires 0 <= i => from <= i < to)
  }

  function Span(from: nat, to: nat): (at: seq<nat>)
    requires from <= to
    ensures |at| == to - from && forall j :: 0 <= j < |at| ==> at[j] == from + j
  {
    seq(to - from, j requires 0 <= j => from + j)
  }

  lemma SpanSnoc(from: nat, to: nat)
    requires from < to
    ensures Span(from, to) == Span(from, to - 1) + [to - 1]
  {
  }

  lemma RangeFlagsPrefix(n: nat, from: nat, to: nat)
    requires n > 0
    ensures RangeFlags(n, from, to)[..n - 1] == RangeFlags(n - 1, from, to)
  {
  }

  /** The positions of a range are consecutive. */
  lemma {:induction false} WhereRange(n: nat, from: nat, to: nat)
    requires from <= to && from <= n
    ensures from <= Min(to, n) && Where(RangeFlags(n, from, to)) == Span(from, Min(to, n))
    decreases n
  {
    if n == from {
      NoneSet(RangeFlags(n, from, to));
    } else {
      WhereRange(n - 1, from, to);
      RangeFlagsPrefix(n, from, to);
      if n <= to {
        SpanSnoc(from, n);
      }
    }
  }

  lemma {:induction false} NoneSet(flags: seq<bool>)
    requires forall i :: 0 <= i < |flags| ==> !flags[i]
    ensures Where(flags) == []
  {
    if flags != [] {
      NoneSet(flags[..|flags| - 1]);
    }
  }

  lemma Append3<T>(a: seq<T>, b: seq<T>, c: seq<T>)
    ensures (a + b) + c == a + (b + c)
  {
  }

  lemma TakeOneMore<T>(s: seq<T>, i: nat)
    requires i < |s|
    ensures s[..i + 1] == s[..i] + [s[i]] && s[..i + 1][..i] == s[..i]
  {
  }

  lemma SliceOfSlice<T>(s: seq<T>, a: nat, b: nat, c: nat, d: nat)
    requires a <= b <= |s| && c <= d <= b - a
    ensures s[a..b][c..d] == s[a + c..a + d]
  {
    var left, right := s[a..b][c..d], s[a + c..a + d];
    assert forall i :: 0 <= i < d - c ==> left[i] == right[i];
  }
}
