/** Big-endian scalars on the wire, whatever the byte order of the host. */
module Wire {

  type byte = x: nat | x < 256

  function Pow256(width: nat): (n: nat)
    ensures n > 0
  {
    if width == 0 then 1 else 256 * Pow256(width - 1)
  }

  /** The bytes of a number, most significant first. */
  function BigEndian(width: nat, v: nat): (bytes: seq<byte>)
    requires v < Pow256(width)
    ensures |bytes| == width
  {
    if width == 0 then [] else BigEndian(width - 1, v / 256) + [v % 256]
  }

  function ValueOf(bytes: seq<byte>): (v: nat)
    ensures v < Pow256(|bytes|)
  {
    if bytes == [] then 0 else ValueOf(bytes[..|bytes| - 1]) * 256 + bytes[|bytes| - 1]
  }

  lemma {:induction false} ValueOfBigEndian(width: nat, v: nat)
    requires v < Pow256(width)
    ensures ValueOf(BigEndian(width, v)) == v
  {
    if width > 0 {
      var front := BigEndian(width - 1, v / 256);
      ValueOfBigEndian(width - 1, v / 256);
      assert BigEndian(width, v)[..width - 1] == front;
    }
  }

  lemma {:induction false} BigEndianOfValue(bytes: seq<byte>)
    ensures BigEndian(|bytes|, ValueOf(bytes)) == bytes
  {
    if bytes != [] {
      var front, last := bytes[..|bytes| - 1], bytes[|bytes| - 1];
      BigEndianOfValue(front);
      assert ValueOf(bytes) / 256 == ValueOf(front) && ValueOf(bytes) % 256 == last;
      assert front + [last] == bytes;
    }
  }

  lemma SingleByte(b: byte)
    ensures b < Pow256(1) && BigEndian(1, b) == [b] && ValueOf([b]) == b
  {
    assert Pow256(1) == 256 * Pow256(0);
    assert BigEndian(0, 0) == [] && [b][..0] == [] && ValueOf([]) == 0;
  }

  // ---------------------------------------------------------------------
  // Host byte order
  // ---------------------------------------------------------------------

  function Reversed(s: seq<byte>): (r: seq<byte>)
    ensures |r| == |s|
    ensures forall i :: 0 <= i < |s| ==> r[i] == s[|s| - 1 - i]
  {
    seq(|s|, i requires 0 <= i < |s| => s[|s| - 1 - i])
  }

  function HostOrder(little: bool, s: seq<byte>): (r: seq<byte>)
    ensures |r| == |s|
  {
    if little then Reversed(s) else s
  }

  /** The bytes a number occupies in the memory of the host. */
  function Image(little: bool, width: nat, v: nat): (bytes: seq<byte>)
    requires v < Pow256(width)
    ensures |bytes| == width
  {
    HostOrder(little, BigEndian(width, v))
  }

  /** The number a host reads from bytes of its memory. */
  function FromImage(little: bool, bytes: seq<byte>): (v: nat)
    ensures v < Pow256(|bytes|)
  {
    ValueOf(HostOrder(little, bytes))
  }

  /** `htobe` and `betoh`, which are the same swap. */
  function Swapped(little: bool, width: nat, v: nat): (r: nat)
    requires v < Pow256(width)
    ensures r < Pow256(width)
  {
    ValueOf(HostOrder(little, BigEndian(width, v)))
  }

  lemma HostOrderTwice(little: bool, s: seq<byte>)
    ensures HostOrder(little, HostOrder(little, s)) == s
  {
    if little {
      var t := Reversed(Reversed(s));
      assert forall i :: 0 <= i < |s| ==> t[i] == Reversed(s)[|s| - 1 - i] == s[i];
    }
  }

  /** A swapped number is laid out most significant byte first on either kind of host. */
  lemma EncodedIsBigEndian(little: bool, width: nat, v: nat)
    requires v < Pow256(width)
    ensures Image(little, width, Swapped(little, width, v)) == BigEndian(width, v)
  {
    var bytes := BigEndian(width, v);
    BigEndianOfValue(HostOrder(little, bytes));
    HostOrderTwice(little, bytes);
  }

  lemma DecodedIsValue(little: bool, bytes: seq<byte>)
    ensures Swapped(little, |bytes|, FromImage(little, bytes)) == ValueOf(bytes)
  {
    BigEndianOfValue(HostOrder(little, bytes));
    HostOrderTwice(little, bytes);
  }

  /** An element of a vector goes out in host order and is read back most significant byte
      first: it survives exactly on a big-endian host or when its bytes read the same both ways. */
  lemma VectorElementRestoredIff(little: bool, width: nat, v: nat)
    requires v < Pow256(width)
    ensures ValueOf(Image(little, width, v)) == v <==> !little || Reversed(BigEndian(width, v)) == BigEndian(width, v)
  {
    ValueOfBigEndian(width, v);
    var image := Image(little, width, v);
    BigEndianOfValue(image);
  }

  /** The number one in a vector of two-byte elements comes back as 256 from a little-endian host. */
  lemma VectorElementSwapped()
    ensures 1 < Pow256(2) && ValueOf(Image(true, 2, 1)) == 256
  {
    assert Pow256(2) == 256 * Pow256(1) && Pow256(1) == 256 * Pow256(0);
    assert BigEndian(1, 0) == [0] && BigEndian(2, 1) == [0, 1];
    assert Image(true, 2, 1) == [1, 0];
    assert [1, 0][..1] == [1] && [1][..0] == [];
    assert ValueOf([1]) == 1;
  }

  // ---------------------------------------------------------------------
  // Writing and reading
  // ---------------------------------------------------------------------

  function Patched(s: seq<byte>, at: nat, bytes: seq<byte>): (r: seq<byte>)
    requires at + |bytes| <= |s|
    ensures |r| == |s|
  {
    s[..at] + bytes + s[at + |bytes|..]
  }

  lemma PatchedParts(s: seq<byte>, at: nat, bytes: seq<byte>)
    requires at + |bytes| <= |s|
    ensures Patched(s, at, bytes)[..at] == s[..at]
    ensures Patched(s, at, bytes)[at..at + |bytes|] == bytes
  {
  }

  /** `memcpy` into a buffer. */
  method Copy(buffer: array<byte>, at: nat, bytes: seq<byte>)
    requires at + |bytes| <= buffer.Length
    modifies buffer
    ensures buffer[..] == Patched(old(buffer[..]), at, bytes)
  {
    for i := 0 to |bytes|
      invariant forall k :: 0 <= k < i ==> buffer[at + k] == bytes[k]
      invariant forall k :: 0 <= k < at || at + i <= k < buffer.Length ==> buffer[k] == old(buffer[k])
    {
      buffer[at + i] := bytes[i];
    }
    assert buffer[at..at + |bytes|] == bytes;
    assert buffer[..] == buffer[..at] + buffer[at..at + |bytes|] + buffer[at + |bytes|..];
  }

  /** `PackageSerializer::serialize` for the integral types and doubles. */
  method Serialize(little: bool, buffer: array<byte>, at: nat, width: nat, v: nat) returns (size: nat)
    requires v < Pow256(width) && at + width <= buffer.Length
    modifies buffer
    ensures size == width
    ensures buffer[..] == Patched(old(buffer[..]), at, BigEndian(width, v))
  {
    var encoded := Swapped(little, width, v);
    EncodedIsBigEndian(little, width, v);
    Copy(buffer, at, Image(little, width, encoded));
    size := width;
  }

  /** `BinParser`: a cursor over a buffer. */
  class BinParser {
    const little: bool
    const buffer: array<byte>
    const end: nat
    var pos: nat

    ghost predicate Sound() { end <= buffer.Length }

    /** The cursor is inside its frame. */
    ghost predicate Valid()
      reads this
    {
      Sound() && pos <= end
    }

    ghost function Rest(): seq<byte>
      requires Valid()
      reads this, buffer
    {
      buffer[pos..end]
    }

    constructor (little: bool, buffer: array<byte>, len: nat)
      requires len <= buffer.Length
      ensures Valid() && this.buffer == buffer && pos == 0 && end == len && this.little == little
    {
      this.little, this.buffer, this.end, this.pos := little, buffer, len, 0;
    }

    /** A child over the next `len` bytes; its final position becomes the parent's. */
    constructor Child(parent: BinParser, len: nat)
      requires parent.Valid() && len <= |parent.Rest()|
      ensures Valid() && buffer == parent.buffer && pos == parent.pos
              && end == parent.pos + len && little == parent.little
    {
      this.little, this.buffer, this.end, this.pos := parent.little, parent.buffer, parent.pos + len, parent.pos;
    }

    /** `peek`: throws when fewer than `width` bytes are left, also if the cursor is past its frame. */
    method Peek(width: nat) returns (ok: bool, v: nat)
      requires Sound() && width > 0
      ensures ok <==> Valid() && width <= |Rest()|
      ensures ok ==> v == ValueOf(Rest()[..width])
    {
      if pos + width > end {
        return false, 0;
      }
      var bytes := buffer[pos..pos + width];
      assert bytes == Rest()[..width];
      DecodedIsValue(little, bytes);
      return true, Swapped(little, width, FromImage(little, bytes));
    }

    /** `parse`: as `peek`, then moves past the bytes. */
    method Parse(width: nat) returns (ok: bool, v: nat)
      requires Sound() && width > 0
      modifies this`pos
      ensures ok <==> old(Valid()) && width <= old(|Rest()|)
      ensures old(Valid()) ==> Valid()
      ensures ok ==> v == ValueOf(old(Rest()[..width])) && Rest() == old(Rest()[width..])
      ensures !ok ==> pos == old(pos)
    {
      ok, v := Peek(width);
      if ok {
        pos := pos + width;
      }
    }

    /** `consume(bytes)`, unchecked. */
    method Consume(bytes: nat)
      modifies this`pos
      ensures pos == old(pos) + bytes
    {
      pos := pos + bytes;
    }

    /** `rawData` and `parseRemainder`: the rest of the frame as it is. */
    method TakeRest() returns (bytes: seq<byte>)
      requires Valid()
      modifies this`pos
      ensures Valid() && bytes == old(Rest()) && Rest() == []
    {
      bytes := buffer[pos..end];
      pos := end;
    }

    method CheckSize(bytes: nat) returns (enough: bool)
      requires Valid()
      ensures enough <==> bytes <= |Rest()|
    {
      return bytes <= end - pos;
    }

    method Empty() returns (empty: bool)
      requires Valid()
      ensures empty <==> Rest() == []
    {
      return pos == end;
    }
  }
}
