/**
 The loops that turn short transfers into whole ones: `read_exact_at`, `read_to_end_at` and
 `write_all_at` (src/fs/file.rs), `recv_exact` and `send_all` (src/net/socket.rs).

 The kernel may transfer any amount it is allowed to, or fail.  `write_all_at`, `send_all` and
 `recv_exact` have no way out when the kernel makes no progress, so they are observed for a
 given number of kernel calls and may still be running at the end; nothing else bounds them.
 */
module Transfers {
  import opened Wrappers
  import opened Buffers

  datatype Outcome =
    | Done(count: nat)
    | UnexpectedEof
    | IoError(code: int)
    | StillRunning

  /** The bytes of a file from `pos` to its end. */
  function Tail(content: seq<byte>, pos: nat): (tail: seq<byte>)
    ensures |tail| == Since(|content|, pos)
    ensures forall i :: 0 <= i < |tail| ==> tail[i] == content[pos + i]
  {
    if pos <= |content| then content[pos..] else []
  }

  lemma {:induction false} NextPiece(before: seq<byte>, start: seq<byte>, content: seq<byte>,
                                     pos: nat, total: nat, n: nat)
    requires total <= |Tail(content, pos)| && n <= |Tail(content, pos + total)|
    requires before == start + Tail(content, pos)[..total]
    ensures |Tail(content, pos + total)| == |Tail(content, pos)| - total
    ensures before + Tail(content, pos + total)[..n] == start + Tail(content, pos)[..total + n]
  {
    var all := Tail(content, pos);
    assert Tail(content, pos + total) == all[total..];
    assert all[..total] + all[total..][..n] == all[..total + n];
    Append3(start, all[..total], all[total..][..n]);
  }

  function Zeros(n: nat): seq<byte> {
    seq(n, _ => 0)
  }

  /**
   A file after `pwrite`: the data on its range, the old bytes elsewhere, zeros in a gap.  An
   empty write changes nothing.
   */
  function Overwrite(content: seq<byte>, pos: nat, data: seq<byte>): seq<byte> {
    if data == [] then content
    else
      seq(if |content| <= pos + |data| then pos + |data| else |content|,
          i requires 0 <= i =>
            if pos <= i < pos + |data| then data[i - pos] else if i < |content| then content[i] else 0)
  }

  /** Byte by byte: the data on its range, elsewhere what was there, and zeros in a gap. */
  ghost predicate IsOverwritten(before: seq<byte>, pos: nat, data: seq<byte>, after: seq<byte>) {
    && |after| == (if data == [] || pos + |data| <= |before| then |before| else pos + |data|)
    && (forall i :: 0 <= i < |data| ==> after[pos + i] == data[i])
    && (forall i :: 0 <= i < |before| && !(pos <= i < pos + |data|) ==> after[i] == before[i])
    && (forall i :: |before| <= i < |after| && i < pos ==> after[i] == 0)
  }

  lemma OverwriteIs(content: seq<byte>, pos: nat, data: seq<byte>)
    ensures IsOverwritten(content, pos, data, Overwrite(content, pos, data))
  {
  }

  lemma OverwriteInTwoSteps(content: seq<byte>, pos: nat, a: seq<byte>, b: seq<byte>)
    ensures Overwrite(Overwrite(content, pos, a), pos + |a|, b) == Overwrite(content, pos, a + b)
  {
    var two, one := Overwrite(Overwrite(content, pos, a), pos + |a|, b), Overwrite(content, pos, a + b);
    if a == [] {
      assert a + b == b;
    } else if b == [] {
      assert a + b == a;
    } else {
      assert |two| == |one|;
      assert forall i :: 0 <= i < |one| ==> two[i] == one[i];
    }
  }

  // ---------------------------------------------------------------- files

  class File {
    var content: seq<byte>
    // how often the kernel was called, and the errors it answered with
    ghost var kernelCalls: nat
    ghost var faults: seq<int>

    constructor (content: seq<byte>)
      ensures this.content == content && kernelCalls == 0 && faults == []
    {
      this.content := content;
      kernelCalls, faults := 0, [];
    }

    /** `read_at`: some bytes from `pos`, none only at the end of the file or without room. */
    method ReadAt(buffer: IoBuffer, pos: nat) returns (res: IoResult)
      requires buffer.Valid()
      modifies buffer, `kernelCalls, `faults
      ensures kernelCalls == old(kernelCalls) + 1
      ensures faults == old(faults) + if res.Err? then [res.code] else []
      ensures buffer.Valid() && |buffer.mem| == old(|buffer.mem|)
      ensures res.Ok? ==>
                && res.count <= |Tail(content, pos)| && res.count <= old(buffer.Room())
                && (res.count == 0 ==> Tail(content, pos) == [] || old(buffer.Room()) == 0)
                && buffer.len == old(buffer.len) + res.count
                && buffer.Room() == old(buffer.Room()) - res.count
                && buffer.Contents() == old(buffer.Contents()) + Tail(content, pos)[..res.count]
      ensures res.Err? ==> buffer.Room() == old(buffer.Room()) && buffer.Contents() == old(buffer.Contents())
    {
      kernelCalls := kernelCalls + 1;
      if * {
        var code: int := *;
        faults := faults + [code];
        return Err(code);
      }
      NestedViewIsOneRange(buffer.view, buffer.mem, buffer.len);
      var room := Spare(buffer.view, buffer.len, |buffer.mem|);
      var tail := Tail(content, pos);
      var most := Min(|tail|, room);
      var n: int :| 0 <= n <= most && (n == 0 ==> most == 0);
      buffer.Receive(tail[..n]);
      res := Ok(n);
    }

    /** One call of the loops: read what follows the `total` bytes read so far. */
    method ReadOn(buffer: IoBuffer, pos: nat, total: nat, ghost start: seq<byte>) returns (res: IoResult)
      requires buffer.Valid() && total <= |Tail(content, pos)|
      requires buffer.Contents() == start + Tail(content, pos)[..total]
      modifies buffer, `kernelCalls, `faults
      ensures kernelCalls == old(kernelCalls) + 1
      ensures faults == old(faults) + if res.Err? then [res.code] else []
      ensures buffer.Valid() && |buffer.mem| == old(|buffer.mem|)
      ensures res.Ok? ==>
                && total + res.count <= |Tail(content, pos)| && res.count <= old(buffer.Room())
                && (res.count == 0 ==> total == |Tail(content, pos)| || old(buffer.Room()) == 0)
                && buffer.len == old(buffer.len) + res.count
                && buffer.Room() == old(buffer.Room()) - res.count
                && buffer.Contents() == start + Tail(content, pos)[..total + res.count]
      ensures res.Err? ==> buffer.Room() == old(buffer.Room()) && buffer.Contents() == old(buffer.Contents())
    {
      ghost var before := buffer.Contents();
      res := ReadAt(buffer, pos + total);
      if res.Ok? {
        NextPiece(before, start, content, pos, total, res.count);
      }
    }

    /**
     `read_exact_at`: barring kernel errors it fails exactly when the file is too short; it
     appends the bytes from `pos` and never more than the room there was.
     */
    method ReadExactAt(buffer: IoBuffer, pos: nat) returns (res: Outcome, ghost moved: nat)
      requires buffer.Valid()
      modifies buffer, `kernelCalls, `faults
      ensures buffer.Valid()
      ensures faults == old(faults) + if res.IoError? then [res.code] else []
      ensures moved <= |Tail(content, pos)| && moved <= old(buffer.Room())
      ensures buffer.Contents() == old(buffer.Contents()) + Tail(content, pos)[..moved]
      ensures match res
              case Done(count) => count == moved == old(buffer.Room())
              case UnexpectedEof => moved == |Tail(content, pos)| < old(buffer.Room())
              case IoError(_) => true
              case StillRunning => false
    {
      NestedViewIsOneRange(buffer.view, buffer.mem, buffer.len);
      var need := Spare(buffer.view, buffer.len, |buffer.mem|);
      var total := 0;
      ghost var start := buffer.Contents();
      ghost var all := Tail(content, pos);
      while total < need
        invariant 0 <= total <= need && total <= |all|
        invariant faults == old(faults)
        invariant buffer.Valid() && buffer.Room() == need - total
        invariant buffer.Contents() == start + all[..total]
        decreases need - total
      {
        var read := ReadOn(buffer, pos, total, start);
        if read.Err? {
          return IoError(read.code), total;
        }
        if read.count == 0 {
          break;
        }
        total := total + read.count;
      }
      moved := total;
      res := if total < need then UnexpectedEof else Done(total);
    }

    /**
     `read_to_end_at`: it appends the rest of the file exactly when the buffer had room to
     begin with or nothing was left to read; without room it stops at once.
     */
    method ReadToEndAt(buffer: IoBuffer, pos: nat) returns (res: Outcome, ghost moved: nat)
      requires buffer.Valid() && buffer.view == Whole
      modifies buffer, `kernelCalls, `faults
      ensures buffer.Valid()
      ensures faults == old(faults) + if res.IoError? then [res.code] else []
      ensures moved <= |Tail(content, pos)|
      ensures buffer.Contents() == old(buffer.Contents()) + Tail(content, pos)[..moved]
      ensures match res
              case Done(count) => count == moved == if old(buffer.Room()) > 0 then |Tail(content, pos)| else 0
              case IoError(_) => true
              case UnexpectedEof | StillRunning => false
    {
      var total := 0;
      ghost var start := buffer.Contents();
      ghost var all := Tail(content, pos);
      while true
        invariant 0 <= total <= |all|
        invariant faults == old(faults)
        invariant buffer.Valid()
        invariant buffer.Contents() == start + all[..total]
        invariant buffer.Room() == 0 ==> total == 0 && old(buffer.Room()) == 0
        invariant if total == 0 then buffer.Room() == old(buffer.Room()) else old(buffer.Room()) > 0
        decreases |all| - total
      {
        var read := ReadOn(buffer, pos, total, start);
        if read.Err? {
          return IoError(read.code), total;
        }
        if read.count == 0 {
          break;
        }
        total := total + read.count;
        if buffer.len == |buffer.mem| {
          Reserve(buffer, 32);
        }
      }
      moved := total;
      res := Done(total);
    }

    /** `write_at`: any prefix of the bytes, possibly none. */
    method WriteAt(bytes: seq<byte>, pos: nat) returns (res: IoResult)
      modifies this
      ensures kernelCalls == old(kernelCalls) + 1
      ensures faults == old(faults) + if res.Err? then [res.code] else []
      ensures res.Ok? ==> res.count <= |bytes| && content == Overwrite(old(content), pos, bytes[..res.count])
      ensures res.Err? ==> content == old(content)
    {
      kernelCalls := kernelCalls + 1;
      if * {
        var code: int := *;
        faults := faults + [code];
        return Err(code);
      }
      var n: int :| 0 <= n <= |bytes|;
      content := Overwrite(content, pos, bytes[..n]);
      res := Ok(n);
    }

    /** One call of the loop: write what follows the first `total` of the buffer's `bytes`. */
    method WriteRest(buffer: IoBuffer, pos: nat, total: nat, ghost bytes: seq<byte>, ghost was: seq<byte>)
      returns (res: IoResult)
      requires buffer.Valid() && bytes == buffer.Contents() && total < |bytes|
      requires content == Overwrite(was, pos, bytes[..total])
      modifies this
      ensures kernelCalls == old(kernelCalls) + 1
      ensures faults == old(faults) + if res.Err? then [res.code] else []
      ensures res.Ok? ==>
                total + res.count <= |bytes| && content == Overwrite(was, pos, bytes[..total + res.count])
      ensures res.Err? ==> content == old(content)
    {
      var rest := SliceFrom(buffer, total);
      res := WriteAt(rest, pos + total);
      if res.Ok? {
        assert bytes[..total] + bytes[total..][..res.count] == bytes[..total + res.count];
        OverwriteInTwoSteps(was, pos, bytes[..total], rest[..res.count]);
      }
    }

    /**
     `write_all_at`, observed for `calls` kernel calls.  At any point the file is the old one
     overwritten with a prefix of the buffer; success means the whole buffer; and it can only
     be still running because that many calls wrote nothing.
     */
    method WriteAllAt(buffer: IoBuffer, pos: nat, calls: nat) returns (res: Outcome, idle: nat, ghost upto: nat)
      requires buffer.Valid()
      modifies this
      ensures upto <= |buffer.Contents()| && content == Overwrite(old(content), pos, buffer.Contents()[..upto])
      ensures IsOverwritten(old(content), pos, buffer.Contents()[..upto], content)
      ensures idle <= kernelCalls - old(kernelCalls) <= calls
      ensures buffer.Contents() == [] ==> kernelCalls == old(kernelCalls)
      ensures faults == old(faults) + if res.IoError? then [res.code] else []
      ensures match res
              case Done(count) => count == upto == |buffer.Contents()|
              case StillRunning =>
                upto < |buffer.Contents()| && calls <= idle + upto && kernelCalls == old(kernelCalls) + calls
              case IoError(_) => true
              case UnexpectedEof => false
    {
      NestedViewIsOneRange(buffer.view, buffer.mem, buffer.len);
      var bytes := Bytes(buffer.view, buffer.mem, buffer.len);
      var total, made := 0, 0;
      idle := 0;
      ghost var was := content;
      assert bytes[..0] == [];
      while total < |bytes| && made < calls
        invariant 0 <= total <= |bytes| && idle <= made <= calls
        invariant made <= idle + total
        invariant kernelCalls == old(kernelCalls) + made && faults == old(faults)
        invariant bytes == [] ==> made == 0
        invariant content == Overwrite(was, pos, bytes[..total])
        decreases calls - made
      {
        var step := WriteRest(buffer, pos, total, bytes, was);
        if step.Err? {
          OverwriteIs(was, pos, bytes[..total]);
          return IoError(step.code), idle, total;
        }
        total := total + step.count;
        made := made + 1;
        if step.count == 0 {
          idle := idle + 1;
        }
      }
      upto := total;
      OverwriteIs(was, pos, bytes[..total]);
      res := if total < |bytes| then StillRunning else Done(total);
    }
  }

  /** `Vec::reserve`: room for at least `additional` more bytes, contents kept. */
  method Reserve(buffer: IoBuffer, additional: nat)
    requires buffer.Valid() && buffer.view == Whole
    modifies buffer
    ensures buffer.Valid() && buffer.len == old(buffer.len)
    ensures buffer.Contents() == old(buffer.Contents())
    ensures additional <= buffer.Room()
  {
    var extra: int :| additional <= extra;
    ghost var before := buffer.mem;
    buffer.mem := buffer.mem + Zeros(extra);
    assert buffer.mem[..buffer.len] == before[..buffer.len];
  }

  /** `buffer.slice(total..)` inside the loops, and what it views; `None` is a failed assertion. */
  function Rest(view: View, mem: seq<byte>, len: nat, total: nat): Option<seq<byte>>
    requires Usable(view, len, |mem|)
  {
    UsableViewsDoNotPanic(view, mem, len);
    var slice := MakeSlice(view, len, |mem|, Included(total), Unbounded);
    if slice.None? then None else Deref(slice.value, mem, len)
  }

  /** While the loop runs the slice is made, and it views the bytes not yet written. */
  lemma {:induction false} RestIsUnwritten(view: View, mem: seq<byte>, len: nat, total: nat)
    requires Usable(view, len, |mem|) && total < |Bytes(view, mem, len)|
    ensures Rest(view, mem, len, total) == Some(Bytes(view, mem, len)[total..])
  {
    var bytes := Bytes(view, mem, len);
    CapacityCoversLength(view, len, |mem|);
    UsableViewsDoNotPanic(view, mem, len);
    assert bytes[total..|bytes|] == bytes[total..];
  }

  method SliceFrom(buffer: IoBuffer, total: nat) returns (rest: seq<byte>)
    requires buffer.Valid() && total < |buffer.Contents()|
    ensures rest == buffer.Contents()[total..]
  {
    RestIsUnwritten(buffer.view, buffer.mem, buffer.len, total);
    rest := Rest(buffer.view, buffer.mem, buffer.len, total).value;
  }

  // ---------------------------------------------------------------- sockets

  /**
   One direction of a connection.  `wire` is what was accepted from the sender and not yet
   handed to the receiver; the other end acts at any time.
   */
  class ByteStream {
    var wire: seq<byte>
    ghost var sent: seq<byte>
    ghost var received: seq<byte>
    // how often the kernel was called, and the errors it answered with
    ghost var kernelCalls: nat
    ghost var faults: seq<int>

    ghost predicate Valid()
      reads this
    {
      sent == received + wire
    }

    constructor ()
      ensures Valid() && sent == [] && received == [] && wire == [] && kernelCalls == 0 && faults == []
    {
      wire, sent, received, kernelCalls, faults := [], [], [], 0, [];
    }

    /** `send`: a prefix is accepted, possibly none; meanwhile the receiver may take bytes. */
    method Send(bytes: seq<byte>) returns (res: IoResult)
      requires Valid()
      modifies this
      ensures kernelCalls == old(kernelCalls) + 1
      ensures faults == old(faults) + if res.Err? then [res.code] else []
      ensures Valid() && old(received) <= received
      ensures res.Ok? ==> res.count <= |bytes| && sent == old(sent) + bytes[..res.count]
      ensures res.Err? ==> sent == old(sent)
    {
      var taken: int :| 0 <= taken <= |wire|;
      received := received + wire[..taken];
      wire := wire[taken..];
      kernelCalls := kernelCalls + 1;
      if * {
        var code: int := *;
        faults := faults + [code];
        return Err(code);
      }
      var n: int :| 0 <= n <= |bytes|;
      wire := wire + bytes[..n];
      sent := sent + bytes[..n];
      res := Ok(n);
    }

    /** The other end sends anything, or nothing. */
    method PeerSends()
      requires Valid()
      modifies `wire, `sent
      ensures Valid() && old(sent) <= sent
    {
      var more: seq<byte> := *;
      wire, sent := wire + more, sent + more;
    }

    /** `recv`: some bytes of the wire; meanwhile the sender may add more. */
    method Recv(buffer: IoBuffer) returns (res: IoResult)
      requires Valid() && buffer.Valid()
      modifies this, buffer
      ensures kernelCalls == old(kernelCalls) + 1
      ensures faults == old(faults) + if res.Err? then [res.code] else []
      ensures Valid() && buffer.Valid() && |buffer.mem| == old(|buffer.mem|)
      ensures old(sent) <= sent
      ensures res.Ok? ==>
                && |received| == old(|received|) + res.count <= |sent|
                && received == sent[..|received|]
                && buffer.Room() == old(buffer.Room()) - res.count
                && buffer.Contents() == old(buffer.Contents()) + received[old(|received|)..]
      ensures res.Err? ==> received == old(received) && buffer.Room() == old(buffer.Room())
                           && buffer.Contents() == old(buffer.Contents())
    {
      PeerSends();
      kernelCalls := kernelCalls + 1;
      if * {
        var code: int := *;
        faults := faults + [code];
        return Err(code);
      }
      NestedViewIsOneRange(buffer.view, buffer.mem, buffer.len);
      var room := Spare(buffer.view, buffer.len, |buffer.mem|);
      var most := Min(|wire|, room);
      var n: int :| 0 <= n <= most;
      buffer.Receive(wire[..n]);
      received := received + wire[..n];
      wire := wire[n..];
      res := Ok(n);
    }

    /** `send_all`, observed for `calls` kernel calls. */
    method SendAll(buffer: IoBuffer, calls: nat) returns (res: Outcome, idle: nat, ghost upto: nat)
      requires Valid() && buffer.Valid()
      modifies this
      ensures Valid() && old(received) <= received
      ensures upto <= |buffer.Contents()| && sent == old(sent) + buffer.Contents()[..upto]
      ensures idle <= kernelCalls - old(kernelCalls) <= calls
      ensures faults == old(faults) + if res.IoError? then [res.code] else []
      ensures match res
              case Done(count) => count == upto == |buffer.Contents()|
              case StillRunning =>
                upto < |buffer.Contents()| && calls <= idle + upto && kernelCalls == old(kernelCalls) + calls
              case IoError(_) => true
              case UnexpectedEof => false
    {
      NestedViewIsOneRange(buffer.view, buffer.mem, buffer.len);
      var bytes := Bytes(buffer.view, buffer.mem, buffer.len);
      var total, made := 0, 0;
      idle := 0;
      assert bytes[..0] == [];
      while total < |bytes| && made < calls
        invariant 0 <= total <= |bytes| && idle <= made <= calls
        invariant made <= idle + total
        invariant kernelCalls == old(kernelCalls) + made && faults == old(faults)
        invariant Valid() && old(received) <= received
        invariant sent == old(sent) + bytes[..total]
        decreases calls - made
      {
        var rest := SliceFrom(buffer, total);
        var written := Send(rest);
        if written.Err? {
          return IoError(written.code), idle, total;
        }
        assert bytes[..total] + bytes[total..][..written.count] == bytes[..total + written.count];
        total := total + written.count;
        made := made + 1;
        if written.count == 0 {
          idle := idle + 1;
        }
      }
      upto := total;
      res := if total < |bytes| then StillRunning else Done(total);
    }

    /**
     `recv_exact`, observed for `calls` kernel calls.  It fills the room with the next bytes of
     the stream; it never reports an early end of the stream, but goes on calling the kernel.
     */
    method RecvExact(buffer: IoBuffer, calls: nat) returns (res: Outcome, idle: nat)
      requires Valid() && buffer.Valid()
      modifies this, buffer
      ensures Valid() && buffer.Valid() && old(sent) <= sent
      ensures old(|received|) <= |received| <= |sent| && received == sent[..|received|]
      ensures buffer.Contents() == old(buffer.Contents()) + sent[old(|received|)..|received|]
      ensures |received| <= old(|received|) + old(buffer.Room())
      ensures idle <= kernelCalls - old(kernelCalls) <= calls
      ensures faults == old(faults) + if res.IoError? then [res.code] else []
      ensures match res
              case Done(count) => count == old(buffer.Room()) == |received| - old(|received|)
              case StillRunning =>
                && |received| - old(|received|) < old(buffer.Room())
                && calls <= idle + |received| - old(|received|) && kernelCalls == old(kernelCalls) + calls
              case IoError(_) => true
              case UnexpectedEof => false
    {
      NestedViewIsOneRange(buffer.view, buffer.mem, buffer.len);
      var need := Spare(buffer.view, buffer.len, |buffer.mem|);
      var total, made := 0, 0;
      idle := 0;
      ghost var start, from := buffer.Contents(), |received|;
      while total < need && made < calls
        invariant 0 <= total <= need && idle <= made <= calls
        invariant made <= idle + total
        invariant kernelCalls == old(kernelCalls) + made && faults == old(faults)
        invariant Valid() && old(sent) <= sent
        invariant |received| == from + total <= |sent| && received == sent[..|received|]
        invariant buffer.Valid() && buffer.Room() == need - total
        invariant buffer.Contents() == start + sent[from..|received|]
        decreases calls - made
      {
        ghost var sentBefore, receivedBefore := sent, received;
        var read := Recv(buffer);
        if read.Err? {
          assert sent[from..|received|] == sentBefore[from..|received|];
          return IoError(read.code), idle;
        }
        assert sent[from..|received|] == sentBefore[from..|receivedBefore|] + received[|receivedBefore|..];
        total := total + read.count;
        made := made + 1;
        if read.count == 0 {
          idle := idle + 1;
        }
      }
      res := if total < need then StillRunning else Done(total);
    }
  }

  // ---------------------------------------------------------------- both ends at once

  /** A buffer as a value. */
  datatype Buf = Buf(view: View, mem: seq<byte>, len: nat) {
    predicate Valid() { Usable(view, len, |mem|) }

    function Contents(): seq<byte>
      requires Valid()
    {
      Bytes(view, mem, len)
    }

    function Room(): int { Spare(view, len, |mem|) }
  }

  /** One iteration of either loop, the kernel moving the given number of bytes. */
  datatype Move = Sent(n: nat) | Received(n: nat)

  /**
   `send_all` of one buffer and `recv_exact` into another, running at the same time: the variables
   of both loops and what is on the wire.
   */
  datatype Pipe = Pipe(totalWritten: nat, wire: seq<byte>, totalRead: nat, buffer: Buf)

  /** The loops' conditions, and what the kernel may do: send some of the slice, receive what fits. */
  predicate Possible(out: Buf, need: nat, p: Pipe, m: Move)
    requires out.Valid()
  {
    match m
    case Sent(n) =>
      && p.totalWritten < |out.Contents()|
      && var rest := Rest(out.view, out.mem, out.len, p.totalWritten);
      rest.Some? && n <= |rest.value|
    case Received(n) => p.totalRead < need && p.buffer.Valid() && n <= |p.wire| && n <= p.buffer.Room()
  }

  function After(out: Buf, need: nat, p: Pipe, m: Move): Pipe
    requires out.Valid() && Possible(out, need, p, m)
  {
    match m
    case Sent(n) =>
      var rest := Rest(out.view, out.mem, out.len, p.totalWritten).value;
      p.(wire := p.wire + rest[..n], totalWritten := p.totalWritten + n)
    case Received(n) =>
      var b := p.buffer;
      var mem := Filled(b.view, b.mem, b.len, p.wire[..n]);
      p.(wire := p.wire[n..], totalRead := p.totalRead + n, buffer := Buf(b.view, mem, b.len + n))
  }

  predicate AllPossible(out: Buf, need: nat, p: Pipe, moves: seq<Move>)
    requires out.Valid()
    decreases |moves|
  {
    moves == [] ||
    (Possible(out, need, p, moves[0]) && AllPossible(out, need, After(out, need, p, moves[0]), moves[1..]))
  }

  function Run(out: Buf, need: nat, p: Pipe, moves: seq<Move>): Pipe
    requires out.Valid() && AllPossible(out, need, p, moves)
    decreases |moves|
  {
    if moves == [] then p else Run(out, need, After(out, need, p, moves[0]), moves[1..])
  }

  /** What was read is the leading part of the message, appended to what the buffer held. */
  ghost predicate InOrder(message: seq<byte>, start: seq<byte>, need: nat, p: Pipe) {
    && p.totalWritten <= |message| && p.totalRead <= p.totalWritten
    && p.wire == message[p.totalRead..p.totalWritten]
    && p.buffer.Valid() && p.buffer.Room() == need - p.totalRead
    && p.buffer.Contents() == start + message[..p.totalRead]
  }

  lemma {:induction false} SendKeepsOrder(out: Buf, start: seq<byte>, need: nat, p: Pipe, n: nat)
    requires out.Valid() && InOrder(out.Contents(), start, need, p) && Possible(out, need, p, Sent(n))
    ensures InOrder(out.Contents(), start, need, After(out, need, p, Sent(n)))
  {
    var message := out.Contents();
    RestIsUnwritten(out.view, out.mem, out.len, p.totalWritten);
    assert message[p.totalWritten..][..n] == message[p.totalWritten..p.totalWritten + n];
    assert message[p.totalRead..p.totalWritten] + message[p.totalWritten..p.totalWritten + n]
        == message[p.totalRead..p.totalWritten + n];
  }

  lemma {:induction false} ReceiveKeepsOrder(out: Buf, start: seq<byte>, need: nat, p: Pipe, n: nat)
    requires out.Valid() && InOrder(out.Contents(), start, need, p) && Possible(out, need, p, Received(n))
    ensures InOrder(out.Contents(), start, need, After(out, need, p, Received(n)))
  {
    var message, b, q := out.Contents(), p.buffer, After(out, need, p, Received(n));
    var r := p.totalRead;
    FillAppendsToEveryLayer(b.view, b.view, b.mem, b.len, p.wire[..n]);
    GrowsByIff(b.view, b.len, |b.mem|, n);
    SliceOfSlice(message, r, p.totalWritten, 0, n);
    SliceOfSlice(message, r, p.totalWritten, n, |p.wire|);
    assert message[..r] + message[r..r + n] == message[..r + n];
    Append3(start, message[..r], message[r..r + n]);
  }

  lemma {:induction false} RunKeepsOrder(out: Buf, start: seq<byte>, need: nat, p: Pipe, moves: seq<Move>)
    requires out.Valid() && InOrder(out.Contents(), start, need, p) && AllPossible(out, need, p, moves)
    ensures InOrder(out.Contents(), start, need, Run(out, need, p, moves))
    decreases |moves|
  {
    if moves != [] {
      match moves[0] {
        case Sent(n) => SendKeepsOrder(out, start, need, p, n);
        case Received(n) => ReceiveKeepsOrder(out, start, need, p, n);
      }
      RunKeepsOrder(out, start, need, After(out, need, p, moves[0]), moves[1..]);
    }
  }

  /**
   For every interleaving of the two loops and every pattern of short transfers, the receiving
   buffer, a slice nested to any depth, gains a leading part of the message; when its loop ends
   it is full of exactly the leading bytes, and when both ends are done with equal amounts the
   wire is empty.
   */
  lemma {:induction false} DeliversLeadingBytes(out: Buf, into: Buf, moves: seq<Move>)
    requires out.Valid() && into.Valid() && AllPossible(out, into.Room(), Pipe(0, [], 0, into), moves)
    ensures var p := Run(out, into.Room(), Pipe(0, [], 0, into), moves);
            var message := out.Contents();
            && p.totalRead <= p.totalWritten <= |message| && p.totalRead <= into.Room()
            && p.buffer.Valid() && p.buffer.Contents() == into.Contents() + message[..p.totalRead]
            && p.wire == message[p.totalRead..p.totalWritten]
            && (p.totalRead == into.Room() <==> p.buffer.Room() == 0)
  {
    CapacityCoversLength(into.view, into.len, |into.mem|);
    var need := into.Room();
    RunKeepsOrder(out, into.Contents(), need, Pipe(0, [], 0, into), moves);
    var p := Run(out, need, Pipe(0, [], 0, into), moves);
    CapacityCoversLength(p.buffer.view, p.buffer.len, |p.buffer.mem|);
  }
}
