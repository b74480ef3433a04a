/** Reassembling length-prefixed packages from a TCP stream that arrives in pieces. */
module Stream {
  import opened Wire

  const WORD: nat := 0x1_0000_0000_0000_0000

  /** Unsigned subtraction in a machine word. */
  function Minus(a: nat, b: nat): nat { (a - b) % WORD }

  function Min(a: nat, b: nat): nat { if a <= b then a else b }

  /** The receiving end: the bytes still on their way and, for each call at each position, how
      many of them have arrived; none means a timeout, an error or the end of the connection. */
  class Socket {
    const stream: seq<byte>
    const arrived: (nat, nat) -> nat
    var offset: nat
    var calls: nat

    ghost predicate Valid()
      reads this
    {
      offset <= |stream|
    }

    constructor (stream: seq<byte>, arrived: (nat, nat) -> nat)
      ensures Valid() && this.stream == stream && this.arrived == arrived && offset == 0 && calls == 0
    {
      this.stream, this.arrived, offset, calls := stream, arrived, 0, 0;
    }

    ghost predicate AlwaysArrives() { forall c, o :: arrived(c, o) > 0 }

    ghost function Next(most: nat): nat
      reads this
      requires Valid()
    {
      Min(most, Min(arrived(calls, offset), |stream| - offset))
    }

    /** `TCPSocket::read`. */
    method Recv(most: nat) returns (bytes: seq<byte>)
      requires Valid()
      modifies this
      ensures Valid() && |bytes| == old(Next(most))
      ensures offset == old(offset) + |bytes| && bytes == stream[old(offset)..offset]
    {
      var n := Min(most, Min(arrived(calls, offset), |stream| - offset));
      bytes := stream[offset..offset + n];
      offset, calls := offset + n, calls + 1;
    }
  }

  /** How `URStream::read` ends; `Overrun` is a write past the end of the buffer. */
  datatype Result = Full | Failed | TooLarge | Overrun

  /** The length field after a first piece of `first` bytes, stale buffer content included. */
  function LengthSeen(stream: seq<byte>, from: nat, first: nat, buffer: seq<byte>, width: nat): nat
    requires from + first <= |stream| && first <= width <= |buffer|
  {
    ValueOf(stream[from..from + first] + buffer[first..width])
  }

  /** `URStream::read`. */
  method Read(socket: Socket, buffer: array<byte>, width: nat, total: nat)
    returns (r: Result, newTotal: nat, ghost first: nat)
    requires socket.Valid() && 0 < width <= buffer.Length < WORD - width
    modifies socket, buffer
    ensures socket.Valid()
    ensures first == old(socket.Next(width))
    ensures first == 0 ==> r == Failed && newTotal == total && socket.offset == old(socket.offset)
    ensures first > 0 ==>
              var start := old(socket.offset);
              var length := LengthSeen(socket.stream, start, first, old(buffer[..]), width);
              var got := socket.offset - start;
              if length >= buffer.Length - width then r == TooLarge && got == first && newTotal == total
              else if length < first then
                && (if got > buffer.Length then r == Overrun
                    else r == Failed && first <= got && buffer[..got] == socket.stream[start..socket.offset]
                         && newTotal == total + got)
                && (socket.AlwaysArrives() ==> (r == Overrun <==> |socket.stream| - start > buffer.Length))
              else
                && (r == Full || r == Failed) && first <= got <= length
                && (r == Full <==> got == length)
                && buffer[..got] == socket.stream[start..socket.offset]
                && newTotal == total + got
                && (start + length <= |socket.stream| && socket.AlwaysArrives() ==> r == Full)
  {
    hide ValueOf;
    ghost var start := socket.offset;
    var bytes := socket.Recv(width);
    first := |bytes|;
    if bytes == [] {
      return Failed, total, first;
    }
    Copy(buffer, 0, bytes);
    var length := ValueOf(buffer[..width]);
    assert buffer[..width] == bytes + old(buffer[..])[first..width];
    assert length == LengthSeen(socket.stream, start, first, old(buffer[..]), width);
    assert buffer[..first] == bytes;
    hide LengthSeen;
    if length >= buffer.Length - width {
      return TooLarge, total, first;
    }
    Wraps(length, first);
    r, newTotal := ReadMore(socket, buffer, |bytes|, Minus(length, |bytes|), total + |bytes|, start);
  }

  lemma Wraps(a: nat, b: nat)
    requires a < WORD && b < WORD
    ensures Minus(a, b) == if b <= a then a - b else WORD + a - b
  {
  }

  /** The rounds of the loop after the first one. */
  method ReadMore(socket: Socket, buffer: array<byte>, from: nat, ask: nat, total: nat, ghost start: nat)
    returns (r: Result, newTotal: nat)
    requires socket.Valid() && socket.offset == start + from && from <= buffer.Length && ask < WORD
    requires buffer[..from] == socket.stream[start..socket.offset]
    modifies socket, buffer
    ensures socket.Valid() && r != TooLarge
    ensures r == Overrun <==> start + buffer.Length < socket.offset
    ensures socket.offset <= start + from + ask
    ensures r == Full <==> socket.offset == start + from + ask && r != Overrun
    ensures r != Overrun ==>
              && start + from <= socket.offset
              && buffer[..socket.offset - start] == socket.stream[start..socket.offset]
              && newTotal == total + (socket.offset - start - from)
    ensures socket.AlwaysArrives() && r == Failed ==> socket.offset == |socket.stream|
  {
    hide Patched;
    var at, remainder := from, ask;
    newTotal := total;
    while remainder > 0
      invariant socket.Valid() && 0 <= remainder < WORD && at + remainder == from + ask && at <= buffer.Length
      invariant socket.offset == start + at && at >= from
      invariant buffer[..at] == socket.stream[start..socket.offset]
      invariant newTotal == total + (at - from)
      decreases remainder
    {
      var more := socket.Recv(remainder);
      if more == [] {
        return Failed, newTotal;
      }
      if at + |more| > buffer.Length {
        return Overrun, newTotal;
      }
      ghost var was := buffer[..];
      assert was[..at] == buffer[..at];
      Copy(buffer, at, more);
      PatchedParts(was, at, more);
      Extended(buffer[..], socket.stream, start, at, more);
      newTotal := newTotal + |more|;
      at := at + |more|;
      Wraps(remainder, |more|);
      remainder := Minus(remainder, |more|);
    }
    return Full, newTotal;
  }

  lemma Extended(b: seq<byte>, stream: seq<byte>, start: nat, at: nat, more: seq<byte>)
    requires at + |more| <= |b| && start + at + |more| <= |stream|
    requires b[..at] == stream[start..start + at]
    requires b[at..at + |more|] == more == stream[start + at..start + at + |more|]
    ensures b[..at + |more|] == stream[start..start + at + |more|]
  {
    assert b[..at + |more|] == b[..at] + b[at..at + |more|];
    assert stream[start..start + at + |more|] == stream[start..start + at] + stream[start + at..start + at + |more|];
  }

  // ---------------------------------------------------------------------
  // Consecutive packages
  // ---------------------------------------------------------------------

  function Concat(packages: seq<seq<byte>>): seq<byte> {
    if packages == [] then [] else Concat(packages[..|packages| - 1]) + packages[|packages| - 1]
  }

  /** A package that announces its own length and fits the buffer. */
  predicate Framed(p: seq<byte>, width: nat, room: nat) {
    width <= |p| < room - width && ValueOf(p[..width]) == |p|
  }

  lemma {:induction false} ConcatPrefix(packages: seq<seq<byte>>, k: nat)
    requires k < |packages|
    ensures Concat(packages[..k]) + packages[k] <= Concat(packages)
    decreases |packages|
  {
    var n := |packages| - 1;
    if k < n {
      ConcatPrefix(packages[..n], k);
      assert packages[..n][..k] == packages[..k];
    }
  }

  /** The length field is seen right exactly if what has not arrived of it is what the buffer held. */
  lemma LengthSeenIff(stream: seq<byte>, from: nat, first: nat, buffer: seq<byte>, width: nat, p: seq<byte>)
    requires first <= width <= |buffer| && width <= |p| && ValueOf(p[..width]) == |p|
    requires from <= |stream| && p <= stream[from..]
    ensures LengthSeen(stream, from, first, buffer, width) == |p| <==> buffer[first..width] == p[first..width]
  {
    var seen := stream[from..from + first] + buffer[first..width];
    assert stream[from..from + first] == p[..first];
    assert p[..width] == p[..first] + p[first..width];
    BigEndianOfValue(seen);
    BigEndianOfValue(p[..width]);
    if seen == p[..width] {
      assert buffer[first..width] == seen[first..] == p[..width][first..] == p[first..width];
    }
  }

  /** The package came through: returned whole, with its length. */
  ghost predicate Returned(r: Result, total: nat, buffer: seq<byte>, p: seq<byte>) {
    r == Full && total == |p| <= |buffer| && buffer[..total] == p
  }

  /** One call at the start of a package that arrives in pieces: the package is returned exactly
      if its length field was seen right, which is the case exactly if the part of the field
      that was not in the first piece is what the buffer held. */
  method ReadOne(socket: Socket, buffer: array<byte>, width: nat, ghost p: seq<byte>)
    returns (r: Result, total: nat, ghost first: nat)
    requires socket.Valid() && 0 < width <= buffer.Length < WORD - width
    requires Framed(p, width, buffer.Length) && p <= socket.stream[socket.offset..]
    requires socket.AlwaysArrives()
    modifies socket, buffer
    ensures socket.Valid() && first == old(Min(width, socket.arrived(socket.calls, socket.offset)))
    ensures Returned(r, total, buffer[..], p)
            <==> LengthSeen(socket.stream, old(socket.offset), first, old(buffer[..]), width) == |p|
    ensures Returned(r, total, buffer[..], p) <==> old(buffer[..])[first..width] == p[first..width]
    ensures Returned(r, total, buffer[..], p) ==> socket.offset == old(socket.offset) + |p|
  {
    r, total, first := ReadNext(socket, buffer, width, p, true);
  }

  /** The same call made wherever the stream is; `at` says whether a package starts there. */
  method ReadNext(socket: Socket, buffer: array<byte>, width: nat, ghost p: seq<byte>, ghost at: bool)
    returns (r: Result, total: nat, ghost first: nat)
    requires socket.Valid() && 0 < width <= buffer.Length < WORD - width
    requires at ==> Framed(p, width, buffer.Length) && p <= socket.stream[socket.offset..] && socket.AlwaysArrives()
    modifies socket, buffer
    ensures socket.Valid() && (r == Full ==> total <= buffer.Length)
    ensures at ==>
              && first == old(Min(width, socket.arrived(socket.calls, socket.offset)))
              && (Returned(r, total, buffer[..], p)
                  <==> LengthSeen(socket.stream, old(socket.offset), first, old(buffer[..]), width) == |p|)
              && (Returned(r, total, buffer[..], p) <==> old(buffer[..])[first..width] == p[first..width])
              && (Returned(r, total, buffer[..], p) ==> socket.offset == old(socket.offset) + |p|)
  {
    hide ValueOf;
    ghost var start, stale := socket.offset, buffer[..];
    if at {
      assert socket.stream[start..start + |p|] == p;
    }
    r, total, first := Read(socket, buffer, width, 0);
    if at {
      LengthSeenIff(socket.stream, start, first, stale, width, p);
    }
  }

  // ---------------------------------------------------------------------
  // Whole streams
  // ---------------------------------------------------------------------

  /** What the buffer's length field holds before package `k` is read. */
  function Stale(packages: seq<seq<byte>>, before: seq<byte>, k: nat): seq<byte>
    requires k <= |packages|
  {
    if k == 0 then before else packages[k - 1]
  }

  /** The length field of package `k` is in its first piece, or the rest of it happens to be what
      the package before had there. */
  predicate InTime(arrived: nat -> nat, packages: seq<seq<byte>>, before: seq<byte>, width: nat, k: nat) {
    && k < |packages| && width <= |packages[k]| && width <= |Stale(packages, before, k)|
    && var first := Min(width, arrived(|Concat(packages[..k])|));
       Stale(packages, before, k)[first..width] == packages[k][first..width]
  }

  /** Reading as many packages as were sent returns exactly them, however they were cut up, if and
      only if the length field of each is in time.  Each position is read from once, so that what
      has arrived there is a function of the position. */
  method ReadAll(socket: Socket, buffer: array<byte>, width: nat, ghost packages: seq<seq<byte>>, count: nat,
                 ghost arrived: nat -> nat)
    returns (received: seq<seq<byte>>)
    requires socket.Valid() && socket.offset == 0 && 0 < width <= buffer.Length < WORD - width
    requires count == |packages| && socket.stream == Concat(packages)
    requires forall k :: 0 <= k < |packages| ==> Framed(packages[k], width, buffer.Length)
    requires socket.AlwaysArrives() && forall c, o :: socket.arrived(c, o) == arrived(o)
    modifies socket, buffer
    ensures received == packages
            <==> forall k :: 0 <= k < |packages| ==> InTime(arrived, packages, old(buffer[..]), width, k)
    ensures received == packages ==> socket.offset == |socket.stream|
  {
    hide InTime, Framed, Concat, LengthSeen;
    received := [];
    ConcatNone(packages);
    ghost var before, good, wrong := buffer[..], true, 0;
    for k := 0 to count
      invariant socket.Valid() && |received| == k
      invariant good ==>
                  && received == packages[..k] && socket.offset == |Concat(packages[..k])|
                  && width <= |Stale(packages, before, k)| && buffer[..width] == Stale(packages, before, k)[..width]
                  && forall j :: 0 <= j < k ==> InTime(arrived, packages, before, width, j)
      invariant !good ==>
                  0 <= wrong < k && received[wrong] != packages[wrong]
                  && !InTime(arrived, packages, before, width, wrong)
    {
      ghost var stale := buffer[..];
      if good {
        ConcatPrefix(packages, k);
        assert packages[k] <= socket.stream[socket.offset..];
        assert Framed(packages[k], width, buffer.Length);
      }
      var r, total, first := ReadNext(socket, buffer, width, packages[k], good);
      if good {
        InTimeIff(arrived, packages, before, width, k, first, stale, buffer.Length);
      }
      if r != Full {
        return;
      }
      received := received + [buffer[..total]];
      if good && buffer[..total] != packages[k] {
        good, wrong := false, k;
      } else if good {
        ConcatNext(packages, k);
        Headed(buffer[..], packages[k], width, buffer.Length);
      }
    }
    assert good ==> packages[..count] == packages;
  }

  lemma ConcatNone(packages: seq<seq<byte>>)
    ensures Concat(packages[..0]) == []
  {
  }

  lemma ConcatNext(packages: seq<seq<byte>>, k: nat)
    requires k < |packages|
    ensures |Concat(packages[..k + 1])| == |Concat(packages[..k])| + |packages[k]|
  {
    assert packages[..k + 1][..k] == packages[..k];
  }

  lemma InTimeIff(arrived: nat -> nat, packages: seq<seq<byte>>, before: seq<byte>, width: nat, k: nat, first: nat,
                  buffer: seq<byte>, room: nat)
    requires k < |packages| && Framed(packages[k], width, room)
             && width <= |Stale(packages, before, k)| && width <= |buffer|
    requires first == Min(width, arrived(|Concat(packages[..k])|))
    requires buffer[..width] == Stale(packages, before, k)[..width]
    ensures InTime(arrived, packages, before, width, k) <==> buffer[first..width] == packages[k][first..width]
  {
    assert buffer[first..width] == buffer[..width][first..] == Stale(packages, before, k)[..width][first..]
        == Stale(packages, before, k)[first..width];
  }

  lemma Headed(buffer: seq<byte>, p: seq<byte>, width: nat, room: nat)
    requires Framed(p, width, room) && |p| <= |buffer| && buffer[..|p|] == p
    ensures width <= |p| && buffer[..width] == p[..width]
  {
    assert buffer[..width] == buffer[..|p|][..width];
  }

  // ---------------------------------------------------------------------
  // Streams that mislead the reader
  // ---------------------------------------------------------------------

  /** A package of three bytes that arrives byte by byte: half of the length field is taken for
      the whole, and the call fails although everything has arrived. */
  method SplitLengthField() returns (r: Result)
    ensures r == Failed
  {
    var p: seq<byte> := [0, 3, 7];
    var socket := new Socket(p, (_, _) => 1);
    var buffer := new byte[8](_ => 0);
    assert p[0..1] + buffer[..][1..2] == [0, 0];
    assert ValueOf([0, 0]) == 0 by {
      ValueOfTwo(0, 0);
    }
    var outcome, _, _ := Read(socket, buffer, 2, 0);
    return outcome;
  }

  /** A length field of one, less than its own two bytes: the remainder wraps around and the
      call writes past the end of the buffer as soon as the stream holds more than it. */
  method SmallLengthField() returns (r: Result)
    ensures r == Overrun
  {
    var p: seq<byte> := [0, 1] + seq(20, _ => 7);
    var socket := new Socket(p, (_, _) => 100);
    var buffer := new byte[8](_ => 0);
    assert p[0..2] + buffer[..][2..2] == [0, 1];
    ValueOfTwo(0, 1);
    var outcome, _, _ := Read(socket, buffer, 2, 0);
    return outcome;
  }

  lemma ValueOfTwo(a: byte, b: byte)
    ensures ValueOf([a, b]) == 256 * a + b
  {
    assert [a, b][..1] == [a] && [a][..0] == [] && ValueOf([]) == 0;
    assert ValueOf([a]) == a;
  }
}
