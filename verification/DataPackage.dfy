/** RTDE data packages: fields named by a recipe, typed by a table, written to
    and read from a byte buffer. */
module DataPackage {
  import opened SeqFacts
  import opened Wrappers
  import opened Wire

  datatype Kind = Boolean | UInt8 | UInt32 | UInt64 | Int32 | Double

  function Width(kind: Kind): nat {
    match kind
    case Boolean | UInt8 => 1
    case UInt32 | Int32 => 4
    case UInt64 | Double => 8
  }

  /** A scalar value; a double is its 64-bit pattern. */
  datatype Value = Value(kind: Kind, n: int)

  predicate InRange(v: Value) {
    match v.kind
    case Boolean => 0 <= v.n <= 1
    case Int32 => -0x8000_0000 <= v.n < 0x8000_0000
    case _ => 0 <= v.n < Pow256(Width(v.kind))
  }

  type Scalar = v: Value | InRange(v) witness Value(Boolean, 0)

  type Types = map<string, Kind>
  type Fields = map<string, Scalar>

  lemma Widths()
    ensures Pow256(1) == 0x100 && Pow256(2) == 0x1_0000 && Pow256(4) == 0x1_0000_0000
  {
    assert Pow256(1) == 256 * Pow256(0);
    assert Pow256(2) == 256 * Pow256(1);
    assert Pow256(3) == 256 * Pow256(2);
    assert Pow256(4) == 256 * Pow256(3);
  }

  /** The unsigned number that goes on the wire. */
  function Bits(v: Scalar): (bits: nat)
    ensures bits < Pow256(Width(v.kind))
  {
    Widths();
    if v.n < 0 then v.n + 0x1_0000_0000 else v.n
  }

  function FromBits(kind: Kind, bits: nat): Scalar
    requires bits < Pow256(Width(kind))
  {
    Widths();
    match kind
    case Boolean => Value(kind, if bits != 0 then 1 else 0)
    case Int32 => Value(kind, if bits >= 0x8000_0000 then bits - 0x1_0000_0000 else bits)
    case _ => Value(kind, bits)
  }

  function Encoded(v: Scalar): (bytes: seq<byte>)
    ensures |bytes| == Width(v.kind)
  {
    BigEndian(Width(v.kind), Bits(v))
  }

  function Decoded(kind: Kind, bytes: seq<byte>): Scalar
    requires |bytes| == Width(kind)
  {
    FromBits(kind, ValueOf(bytes))
  }

  lemma ScalarRoundTrip(v: Scalar)
    ensures Decoded(v.kind, Encoded(v)) == v
  {
    Widths();
    ValueOfBigEndian(Width(v.kind), Bits(v));
  }

  // ---------------------------------------------------------------------
  // What is written and what is read
  // ---------------------------------------------------------------------

  /** `data_[name]`: a name not present counts as a false boolean. */
  function Lookup(data: Fields, name: string): Scalar {
    if name in data then data[name] else Value(Boolean, 0)
  }

  function Payload(recipe: seq<string>, data: Fields): (bytes: seq<byte>)
    ensures |bytes| == Total(recipe, data)
  {
    if recipe == [] then []
    else Payload(recipe[..|recipe| - 1], data) + Encoded(Lookup(data, recipe[|recipe| - 1]))
  }

  /** The bytes that a list of names takes. */
  function Total(names: seq<string>, data: Fields): (n: nat)
    ensures n >= |names|
  {
    if names == [] then 0
    else Total(names[..|names| - 1], data) + Width(Lookup(data, names[|names| - 1]).kind)
  }

  const DATA_PACKAGE: byte := 85

  /** The whole package, with the length the header announces. */
  function Serialized(length: nat, recipeId: byte, recipe: seq<string>, data: Fields): (bytes: seq<byte>)
    requires length < 0x1_0000
    ensures |bytes| == 4 + Total(recipe, data)
  {
    Widths();
    BigEndian(2, length) + [DATA_PACKAGE, recipeId] + Payload(recipe, data)
  }

  /** How `parseWith` ends: true, false at an unknown name, or the cursor's exception. */
  datatype Ending = Complete | UnknownName | TooShort

  datatype Read = Read(ending: Ending, data: Fields, rest: seq<byte>)

  function ReadFields(types: Types, recipe: seq<string>, bytes: seq<byte>, data: Fields): Read {
    if recipe == [] then Read(Complete, data, bytes)
    else if recipe[0] !in types then Read(UnknownName, data, bytes)
    else
      var kind := types[recipe[0]];
      if |bytes| < Width(kind) then Read(TooShort, data, bytes)
      else
        ReadFields(types, recipe[1..], bytes[Width(kind)..], data[recipe[0] := Decoded(kind, bytes[..Width(kind)])])
  }

  lemma NothingRead(types: Types, bytes: seq<byte>, data: Fields)
    ensures ReadFields(types, [], bytes, data) == Read(Complete, data, bytes)
  {
  }

  /** One field, the recipe being read from position `i`. */
  lemma NextRead(types: Types, recipe: seq<string>, i: nat, bytes: seq<byte>, data: Fields)
    requires i < |recipe|
    ensures ReadFields(types, recipe[i..], bytes, data) ==
              if recipe[i] !in types then Read(UnknownName, data, bytes)
              else
                var kind := types[recipe[i]];
                if |bytes| < Width(kind) then Read(TooShort, data, bytes)
                else
                  var v := Decoded(kind, bytes[..Width(kind)]);
                  ReadFields(types, recipe[i + 1..], bytes[Width(kind)..], data[recipe[i] := v])
  {
    hide Decoded;
    assert recipe[i..][0] == recipe[i] && recipe[i..][1..] == recipe[i + 1..];
  }

  /** What the parser makes of a buffer. */
  datatype Received = Package(recipeId: Option<byte>, data: Fields) | Refused | Throws | NotData(packageType: byte)

  function Receive(types: Types, recipe: seq<string>, version: nat, bytes: seq<byte>): Received {
    if |bytes| < 3 then Throws
    else
      var length := ValueOf(bytes[..2]);
      var payload := bytes[3..];
      if length < 3 || |payload| < length - 3 then Refused
      else if bytes[2] != DATA_PACKAGE then NotData(bytes[2])
      else if version == 2 && payload == [] then Throws
      else
        var id := if version == 2 then Some(payload[0]) else None;
        var read := ReadFields(types, recipe, if version == 2 then payload[1..] else payload, map[]);
        match read.ending
        case TooShort => Throws
        case UnknownName => Refused
        case Complete => if read.rest == [] then Package(id, read.data) else Refused
  }

  // ---------------------------------------------------------------------
  // Round trip
  // ---------------------------------------------------------------------

  /** Every name of the recipe is known to the table and holds a value of its type. */
  predicate WellTyped(types: Types, recipe: seq<string>, data: Fields) {
    forall i :: 0 <= i < |recipe| ==>
      recipe[i] in types && recipe[i] in data && data[recipe[i]].kind == types[recipe[i]]
  }

  lemma {:induction false} PayloadFront(recipe: seq<string>, data: Fields)
    requires recipe != []
    ensures Payload(recipe, data) == Encoded(Lookup(data, recipe[0])) + Payload(recipe[1..], data)
  {
    hide Encoded, Lookup;
    var n := |recipe| - 1;
    if n == 0 {
      assert recipe[..0] == [] && recipe[1..] == [];
    } else {
      PayloadFront(recipe[..n], data);
      assert recipe[..n][1..] == recipe[1..][..n - 1];
      assert recipe[1..][n - 1] == recipe[n];
      assert recipe[..n][1..] == recipe[1..n];
      SeqAssoc(Encoded(Lookup(data, recipe[0])), Payload(recipe[1..n], data), Encoded(Lookup(data, recipe[n])));
    }
  }

  lemma {:induction false} PayloadIsRead(types: Types, recipe: seq<string>, data: Fields, tail: seq<byte>, into: Fields)
    requires WellTyped(types, recipe, data)
    ensures var read := ReadFields(types, recipe, Payload(recipe, data) + tail, into);
            && read.ending == Complete && read.rest == tail
            && (forall name :: name in read.data <==> name in into || name in recipe)
            && (forall name :: name in read.data ==>
                   read.data[name] == if name in recipe then data[name] else into[name])
    decreases |recipe|
  {
    hide Payload, Encoded, Decoded;
    if recipe == [] {
      NoFields(recipe, data);
      assert recipe[..0] == [] && [] + tail == tail;
    } else {
      var name, rest := recipe[0], recipe[1..];
      var field, more := Encoded(data[name]), Payload(rest, data) + tail;
      PayloadFront(recipe, data);
      SeqAssoc(field, Payload(rest, data), tail);
      assert (field + more)[..|field|] == field && (field + more)[|field|..] == more;
      ScalarRoundTrip(data[name]);
      PayloadIsRead(types, rest, data, tail, into[name := data[name]]);
      assert forall x :: x in recipe <==> x == name || x in rest;
    }
  }

  /** Reading back what was written restores the recipe id and every field, and nothing is left over. */
  lemma RoundTrip(types: Types, recipe: seq<string>, data: Fields, recipeId: byte, length: nat)
    requires WellTyped(types, recipe, data)
    requires forall name :: name in data ==> name in recipe
    requires 3 <= length < 0x1_0000 && length <= 4 + Total(recipe, data)
    ensures Receive(types, recipe, 2, Serialized(length, recipeId, recipe, data)) == Package(Some(recipeId), data)
  {
    hide ReadFields, Payload, BigEndian, ValueOf;
    var bytes := Serialized(length, recipeId, recipe, data);
    Widths();
    var field, payload := BigEndian(2, length), Payload(recipe, data);
    assert bytes[..2] == field;
    ValueOfBigEndian(2, length);
    assert bytes[2] == DATA_PACKAGE;
    assert bytes[3..] == [recipeId] + payload;
    assert bytes[3..][1..] == payload == payload + [];
    PayloadIsRead(types, recipe, data, [], map[]);
    var read := ReadFields(types, recipe, payload, map[]);
    assert read.data == data;
  }

  // ---------------------------------------------------------------------
  // The announced length
  // ---------------------------------------------------------------------

  predicate Distinct(names: seq<string>) { forall i, j :: 0 <= i < j < |names| ==> names[i] != names[j] }

  /** An order in which an unordered map may be walked. */
  ghost predicate Enumerates(order: seq<string>, data: Fields) {
    Distinct(order) && forall name :: name in data <==> name in order
  }

  /** A number kept in sixteen bits. */
  function U16(n: nat): (r: nat)
    ensures r < 0x1_0000
  {
    n % 0x1_0000
  }

  function Announced(order: seq<string>, data: Fields): (length: nat)
    ensures length < 0x1_0000
  {
    U16(3 + U16(1 + Total(order, data)))
  }

  function Without(names: seq<string>, i: nat): seq<string>
    requires i < |names|
  {
    names[..i] + names[i + 1..]
  }

  lemma {:induction false} TotalWithout(names: seq<string>, i: nat, data: Fields)
    requires i < |names|
    ensures Total(names, data) == Total(Without(names, i), data) + Width(Lookup(data, names[i]).kind)
  {
    var n := |names| - 1;
    if i == n {
      assert Without(names, i) == names[..n];
    } else {
      TotalWithout(names[..n], i, data);
      assert Without(names, i)[..n - 1] == Without(names[..n], i);
      assert Without(names, i)[n - 1] == names[n];
    }
  }

  lemma WithoutDrops(names: seq<string>, i: nat)
    requires i < |names| && Distinct(names)
    ensures Distinct(Without(names, i))
    ensures forall x :: x in Without(names, i) <==> x in names && x != names[i]
  {
    var w := Without(names, i);
    forall x | x in names && x != names[i] ensures x in w {
      var k :| 0 <= k < |names| && names[k] == x;
      assert w[if k < i then k else k - 1] == x;
    }
  }

  /** Fewer names take fewer bytes, in whatever order they come; as many only if they are the same. */
  lemma {:induction false} TotalsCompare(some: seq<string>, all: seq<string>, data: Fields)
    requires Distinct(some) && Distinct(all)
    requires forall x :: x in some ==> x in all
    ensures Total(some, data) <= Total(all, data)
    ensures Total(some, data) == Total(all, data) <==> forall x :: x in all ==> x in some
    decreases |some|
  {
    hide Lookup, Width, Distinct, Without;
    if some == [] {
      assert all != [] ==> all[0] in all;
    } else {
      var n := |some| - 1;
      var x, fewer := some[n], some[..n];
      assert x in all;
      var i :| 0 <= i < |all| && all[i] == x;
      TotalWithout(all, i, data);
      WithoutDrops(all, i);
      LastDrops(some);
      TotalsCompare(fewer, Without(all, i), data);
      assert Total(some, data) == Total(fewer, data) + Width(Lookup(data, x).kind);
      assert (forall y :: y in all ==> y in some) <==> forall y :: y in Without(all, i) ==> y in fewer;
    }
  }

  lemma LastDrops(names: seq<string>)
    requires names != [] && Distinct(names)
    ensures var n := |names| - 1;
            Distinct(names[..n]) && forall y :: y in names[..n] <==> y in names && y != names[n]
  {
    var n := |names| - 1;
    assert Without(names, n) == names[..n];
    WithoutDrops(names, n);
  }

  /** A name listed twice is written twice and counted once. */
  lemma {:induction false} RepeatsTakeMore(order: seq<string>, recipe: seq<string>, data: Fields)
    requires Distinct(order) && !Distinct(recipe)
    requires forall x :: x in order ==> x in recipe
    ensures Total(order, data) < Total(recipe, data)
    decreases |recipe|
  {
    hide Total, Lookup;
    var i, j :| 0 <= i < j < |recipe| && recipe[i] == recipe[j];
    var rest := Without(recipe, j);
    TotalWithout(recipe, j, data);
    RepeatDrops(recipe, i, j);
    if Distinct(rest) {
      TotalsCompare(order, rest, data);
    } else {
      RepeatsTakeMore(order, rest, data);
    }
  }

  lemma RepeatDrops(names: seq<string>, i: nat, j: nat)
    requires i < j < |names| && names[i] == names[j]
    ensures forall x :: x in names ==> x in Without(names, j)
  {
    var w := Without(names, j);
    forall x | x in names ensures x in w {
      var k :| 0 <= k < |names| && names[k] == x;
      assert w[if k < j then k else if k == j then i else k - 1] == x;
    }
  }

  /** The header announces the number of bytes written exactly when the recipe lists no name twice,
      every name of it has a value, and the package stays below 65536 bytes. */
  lemma AnnouncedIsWrittenIff(recipe: seq<string>, order: seq<string>, data: Fields)
    requires Enumerates(order, data)
    requires forall name :: name in data ==> name in recipe
    ensures Announced(order, data) == 4 + Total(recipe, data)
            <==> && Distinct(recipe)
                 && (forall name :: name in recipe ==> name in data)
                 && 4 + Total(recipe, data) < 0x1_0000
  {
    hide Total;
    if Distinct(recipe) {
      TotalsCompare(order, recipe, data);
    } else {
      RepeatsTakeMore(order, recipe, data);
    }
    Wraps(Total(order, data));
  }

  /** A recipe that lists a flag twice: five bytes announced, six written. */
  lemma RepeatedName()
    ensures var data: Fields := map["flag" := Value(Boolean, 0)];
            Announced(["flag"], data) == 5 && 4 + Total(["flag", "flag"], data) == 6
  {
    var data: Fields := map["flag" := Value(Boolean, 0)];
    OneName("flag", data);
    assert ["flag", "flag"][..1] == ["flag"];
  }

  /** A recipe whose only name has no value: four bytes announced, five written. */
  lemma MissingValue()
    ensures Announced([], map[]) == 4 && 4 + Total(["flag"], map[]) == 5
  {
    OneName("flag", map[]);
  }

  lemma OneName(name: string, data: Fields)
    ensures Total([name], data) == Width(Lookup(data, name).kind)
  {
    assert [name][..0] == [];
  }

  lemma Wraps(n: nat)
    ensures var length := U16(3 + U16(1 + n));
            length <= 4 + n && (length == 4 + n <==> 4 + n < 0x1_0000)
  {
  }

  /** Under 65536 bytes the whole claim holds together. */
  lemma PackageRoundTrip(types: Types, recipe: seq<string>, order: seq<string>, data: Fields, recipeId: byte)
    requires Distinct(recipe) && WellTyped(types, recipe, data) && Enumerates(order, data)
    requires forall name :: name in data ==> name in recipe
    requires 4 + Total(recipe, data) < 0x1_0000
    ensures var bytes := Serialized(Announced(order, data), recipeId, recipe, data);
            && |bytes| == Announced(order, data) == ValueOf(bytes[..2])
            && Receive(types, recipe, 2, bytes) == Package(Some(recipeId), data)
  {
    AnnouncedIsWrittenIff(recipe, order, data);
    RoundTrip(types, recipe, data, recipeId, Announced(order, data));
    Widths();
    ValueOfBigEndian(2, Announced(order, data));
    assert Serialized(Announced(order, data), recipeId, recipe, data)[..2] == BigEndian(2, Announced(order, data));
  }

  // ---------------------------------------------------------------------
  // At concrete bytes
  // ---------------------------------------------------------------------

  lemma Eight()
    ensures Pow256(3) == 0x100_0000 && Pow256(8) == 0x1_0000_0000_0000_0000
  {
    Widths();
    assert Pow256(3) == 256 * Pow256(2);
    assert Pow256(5) == 256 * Pow256(4);
    assert Pow256(6) == 256 * Pow256(5);
    assert Pow256(7) == 256 * Pow256(6);
    assert Pow256(8) == 256 * Pow256(7);
  }

  lemma OneWord(a: byte, b: byte, c: byte, d: byte)
    ensures ValueOf([a, b, c, d]) == ((a * 256 + b) * 256 + c) * 256 + d
  {
    assert [a, b, c, d][..3] == [a, b, c] && [a, b, c][..2] == [a, b] && [a, b][..1] == [a] && [a][..0] == [];
    assert ValueOf([a]) == a;
    assert ValueOf([a, b]) == a * 256 + b;
    assert ValueOf([a, b, c]) == (a * 256 + b) * 256 + c;
  }

  lemma LongWord(high: seq<byte>, low: seq<byte>)
    requires |high| == 4 && |low| == 4
    ensures ValueOf(high + low) == ValueOf(high) * 0x1_0000_0000 + ValueOf(low)
  {
    var v := high + low;
    assert low == [low[0], low[1], low[2], low[3]];
    OneWord(low[0], low[1], low[2], low[3]);
    assert v[..7] == high + [low[0], low[1], low[2]] && v[7] == low[3];
    assert v[..7][..6] == v[..6] && v[..6][..5] == v[..5] && v[..5][..4] == high;
    assert ValueOf(v[..5]) == ValueOf(high) * 256 + low[0];
    assert ValueOf(v[..6]) == ValueOf(v[..5]) * 256 + low[1];
    assert ValueOf(v[..7]) == ValueOf(v[..6]) * 256 + low[2];
    assert ValueOf(v) == ValueOf(v[..7]) * 256 + low[3];
  }

  /** One value of each kind and the bytes it travels as, most significant first. */
  lemma KindsOnTheWire()
    ensures Width(Boolean) == 1 && Decoded(Boolean, [1]) == Value(Boolean, 1)
    ensures Width(UInt8) == 1 && Decoded(UInt8, [200]) == Value(UInt8, 200)
    ensures Width(UInt32) == 4 && Decoded(UInt32, [0, 0, 1, 2]) == Value(UInt32, 258)
    ensures Width(Int32) == 4 && Decoded(Int32, [255, 255, 255, 254]) == Value(Int32, -2)
    ensures Width(UInt64) == 8 && Decoded(UInt64, [0, 0, 0, 1] + [0, 0, 0, 2]) == Value(UInt64, 0x1_0000_0002)
    ensures Width(Double) == 8 && Decoded(Double, [64, 69, 0, 0] + [0, 0, 0, 0]) == Value(Double, 0x4045_0000_0000_0000)
  {
    hide ValueOf, Pow256;
    Widths();
    Eight();
    SingleByte(1);
    SingleByte(200);
    OneWord(0, 0, 1, 2);
    OneWord(255, 255, 255, 254);
    LongWord([0, 0, 0, 1], [0, 0, 0, 2]);
    OneWord(0, 0, 0, 1);
    OneWord(0, 0, 0, 2);
    LongWord([64, 69, 0, 0], [0, 0, 0, 0]);
    OneWord(64, 69, 0, 0);
    OneWord(0, 0, 0, 0);
  }

  /** A package as a robot sends it for a recipe of a robot mode and a flag: nine bytes, type 'U',
      recipe 7. */
  lemma PackageOnTheWire()
    ensures Receive(map["mode" := Int32, "flag" := Boolean], ["mode", "flag"], 2, [0, 9, 85, 7] + [0, 0, 0, 5] + [1])
         == Package(Some(7), map["mode" := Value(Int32, 5), "flag" := Value(Boolean, 1)])
  {
    hide ReadFields, ValueOf;
    var types, bytes := map["mode" := Int32, "flag" := Boolean], [0, 9, 85, 7] + [0, 0, 0, 5] + [1];
    NineBytes();
    assert bytes[..2] == [0, 9];
    assert bytes[3..][1..] == [0, 0, 0, 5] + [1] && bytes[3..][0] == 7 && |bytes[3..]| == 6;
    FieldsOnTheWire(types);
  }

  lemma NineBytes()
    ensures ValueOf([0, 9]) == 9
  {
    assert [0, 9][..1] == [0] && [0][..0] == [];
    assert ValueOf([0]) == 0;
  }

  lemma FieldsOnTheWire(types: Types)
    requires types == map["mode" := Int32, "flag" := Boolean]
    ensures ReadFields(types, ["mode", "flag"], [0, 0, 0, 5] + [1], map[])
         == Read(Complete, map["mode" := Value(Int32, 5), "flag" := Value(Boolean, 1)], [])
  {
    hide ReadFields, ValueOf;
    var names, bytes := ["mode", "flag"], [0, 0, 0, 5] + [1];
    var none: Fields := map[];
    assert bytes[..4] == [0, 0, 0, 5] && bytes[4..] == [1] && [1][..1] == [1] && [1][1..] == [];
    OneWord(0, 0, 0, 5);
    SingleByte(1);
    assert names[0..] == names && names[2..] == [];
    NextRead(types, names, 0, bytes, none);
    var one := none["mode" := Value(Int32, 5)];
    NextRead(types, names, 1, [1], one);
    NothingRead(types, [], one["flag" := Value(Boolean, 1)]);
    assert one["flag" := Value(Boolean, 1)] == map["mode" := Value(Int32, 5), "flag" := Value(Boolean, 1)];
  }

  // ---------------------------------------------------------------------
  // The objects
  // ---------------------------------------------------------------------

  /** What `data_[name]` leaves behind for every name of a list. */
  function Touched(data: Fields, names: seq<string>): (r: Fields)
    ensures forall x :: x in r <==> x in data || x in names
    ensures forall x :: Lookup(r, x) == Lookup(data, x)
  {
    if names == [] then data
    else
      var n := |names| - 1;
      var d := Touched(data, names[..n]);
      d[names[n] := Lookup(d, names[n])]
  }

  function Zero(kind: Kind): Scalar { Value(kind, 0) }

  lemma Small(n: nat)
    requires n < 0x1_0000
    ensures U16(n) == n
  {
  }

  lemma Enumerated(order: seq<string>, data: Fields, i: nat)
    requires Enumerates(order, data) && i < |order|
    ensures order[i] in data
  {
  }

  lemma Carry(a: nat, b: nat)
    ensures U16(U16(a) + b) == U16(a + b)
  {
  }

  lemma PatchedFurther(s: seq<byte>, written: seq<byte>, bytes: seq<byte>)
    requires |written| + |bytes| <= |s|
    ensures Patched(Patched(s, 0, written), |written|, bytes) == Patched(s, 0, written + bytes)
  {
  }

  lemma {:induction false} Prefix(names: seq<string>, i: nat, data: Fields)
    requires i < |names|
    ensures Total(names[..i], data) + Width(Lookup(data, names[i]).kind) <= Total(names, data)
    decreases |names|
  {
    var n := |names| - 1;
    if i < n {
      Prefix(names[..n], i, data);
      assert names[..n][..i] == names[..i];
    }
  }

  lemma NoFields(names: seq<string>, data: Fields)
    ensures Payload(names[..0], data) == [] && Total(names[..0], data) == 0 && Touched(data, names[..0]) == data
  {
  }

  lemma NextField(names: seq<string>, i: nat, data: Fields)
    requires i < |names|
    ensures Total(names[..i + 1], data) == Total(names[..i], data) + Width(Lookup(data, names[i]).kind)
            <= Total(names, data)
    ensures Payload(names[..i + 1], data) == Payload(names[..i], data) + Encoded(Lookup(data, names[i]))
    ensures Touched(data, names[..i + 1]) == Touched(data, names[..i])[names[i] := Lookup(data, names[i])]
  {
    hide Encoded, Lookup, Width;
    Prefix(names, i, data);
    var shorter := names[..i + 1];
    assert shorter[..i] == names[..i] && shorter[i] == names[i];
  }

  /** `PackageHeader::serializeHeader`. */
  method SerializeHeader(little: bool, buffer: array<byte>, packageType: byte, payload: nat) returns (size: nat)
    requires payload < 0x1_0000 && 3 <= buffer.Length
    modifies buffer
    ensures size == 3
    ensures U16(3 + payload) < Pow256(2)
    ensures buffer[..] == Patched(old(buffer[..]), 0, BigEndian(2, U16(3 + payload)) + [packageType])
  {
    Widths();
    var length := U16(3 + payload);
    SingleByte(packageType);
    var at := Serialize(little, buffer, 0, 2, length);
    var more := Serialize(little, buffer, at, 1, packageType);
    PatchedFurther(old(buffer[..]), BigEndian(2, length), [packageType]);
    size := at + more;
  }

  class DataPackage {
    const types: Types
    const recipe: seq<string>
    var protocolVersion: nat
    var recipeId: byte
    var data: Fields

    constructor (types: Types, recipe: seq<string>, protocolVersion: nat)
      ensures this.types == types && this.recipe == recipe && this.protocolVersion == protocolVersion && data == map[]
    {
      this.types, this.recipe, this.protocolVersion, data, recipeId := types, recipe, protocolVersion, map[], 0;
    }

    /** `initEmpty`. */
    method InitEmpty()
      modifies this`data
      ensures forall x :: x in data <==> x in old(data) || (x in recipe && x in types)
      ensures forall x :: x in data ==>
                data[x] == if x in recipe && x in types then Value(types[x], 0) else old(data)[x]
    {
      for i := 0 to |recipe|
        invariant forall x :: x in data <==> x in old(data) || (x in recipe[..i] && x in types)
        invariant forall x :: x in data ==>
                    data[x] == if x in recipe[..i] && x in types then Value(types[x], 0) else old(data)[x]
      {
        var item := recipe[i];
        assert recipe[..i + 1] == recipe[..i] + [item];
        if item in types {
          Widths();
          var entry: Scalar := Zero(types[item]);
          data := data[item := entry];
        }
      }
      assert recipe[..|recipe|] == recipe;
    }

    /** `getData`: absent, of another type, or the value. */
    method GetData(name: string, kind: Kind) returns (r: Option<Scalar>, threw: bool)
      ensures threw <==> name in data && data[name].kind != kind
      ensures r == if name in data && data[name].kind == kind then Some(data[name]) else None
    {
      if name !in data {
        return None, false;
      }
      if data[name].kind != kind {
        return None, true;
      }
      return Some(data[name]), false;
    }

    /** `setData`: only fields already present. */
    method SetData(name: string, v: Scalar) returns (found: bool)
      modifies this`data
      ensures found <==> name in old(data)
      ensures data == if found then old(data)[name := v] else old(data)
    {
      if name in data {
        data := data[name := v];
        return true;
      }
      return false;
    }

    /** `parseWith`. */
    method ParseWith(bp: BinParser) returns (ending: Ending)
      requires bp.Valid()
      modifies this`data, this`recipeId, bp`pos
      ensures bp.Valid()
      ensures var bytes := old(bp.Rest());
              if protocolVersion == 2 && bytes == [] then ending == TooShort && data == old(data)
              else
                && (protocolVersion == 2 ==> recipeId == bytes[0])
                && Read(ending, data, bp.Rest())
                   == ReadFields(types, recipe, if protocolVersion == 2 then bytes[1..] else bytes, old(data))
    {
      hide ValueOf, InRange, ReadFields;
      if protocolVersion == 2 {
        var ok, id := bp.Parse(1);
        if !ok {
          return TooShort;
        }
        SingleByte(old(bp.Rest())[0]);
        assert old(bp.Rest())[..1] == [old(bp.Rest())[0]];
        recipeId := id;
      }
      ghost var start := bp.Rest();
      assert recipe[0..] == recipe;
      var i := 0;
      while i < |recipe|
        invariant i <= |recipe| && bp.Valid()
        invariant protocolVersion == 2 ==> old(bp.Rest()) != [] && recipeId == old(bp.Rest())[0]
        invariant ReadFields(types, recipe, start, old(data)) == ReadFields(types, recipe[i..], bp.Rest(), data)
      {
        NextRead(types, recipe, i, bp.Rest(), data);
        if recipe[i] !in types {
          return UnknownName;
        }
        var kind := types[recipe[i]];
        var ok, bits := bp.Parse(Width(kind));
        if !ok {
          return TooShort;
        }
        data := data[recipe[i] := FromBits(kind, bits)];
        i := i + 1;
      }
      assert recipe[i..] == [];
      NothingRead(types, bp.Rest(), data);
      return Complete;
    }

    /** `serializePackage`; `order` is the order in which the map is walked. */
    method SerializePackage(little: bool, buffer: array<byte>, order: seq<string>) returns (size: nat)
      requires Enumerates(order, data)
      requires 4 + Total(recipe, data) <= buffer.Length
      modifies this`data, buffer
      ensures size == 4 + Total(recipe, old(data))
      ensures buffer[..] ==
                Patched(old(buffer[..]), 0, Serialized(Announced(order, old(data)), recipeId, recipe, old(data)))
      ensures data == Touched(old(data), recipe)
    {
      var payloadSize := PayloadSize(order);
      ghost var start, before := buffer[..], data;
      size := SerializeHeader(little, buffer, DATA_PACKAGE, payloadSize);
      Widths();
      ghost var length := BigEndian(2, Announced(order, before));
      SingleByte(recipeId);
      var written := Serialize(little, buffer, size, 1, recipeId);
      PatchedFurther(start, length + [DATA_PACKAGE], [recipeId]);
      assert length + [DATA_PACKAGE] + [recipeId] == length + [DATA_PACKAGE, recipeId];
      size := size + written;
      size := SerializeFields(little, buffer, size, start, length + [DATA_PACKAGE, recipeId]);
    }

    /** The second loop of `serializePackage`. */
    method SerializeFields(little: bool, buffer: array<byte>, at: nat, ghost start: seq<byte>, ghost front: seq<byte>)
      returns (size: nat)
      requires |front| == at && |start| == buffer.Length && at + Total(recipe, data) <= buffer.Length
      requires buffer[..] == Patched(start, 0, front)
      modifies this`data, buffer
      ensures size == at + Total(recipe, old(data))
      ensures buffer[..] == Patched(start, 0, front + Payload(recipe, old(data)))
      ensures data == Touched(old(data), recipe)
    {
      hide Patched, BigEndian, Payload, Total, Touched;
      ghost var before := data;
      size := at;
      NoFields(recipe, before);
      assert front + Payload(recipe[..0], before) == front;
      for i := 0 to |recipe|
        invariant data == Touched(before, recipe[..i])
        invariant size == at + Total(recipe[..i], before)
        invariant size <= at + Total(recipe, before) <= buffer.Length
        invariant buffer[..] == Patched(start, 0, front + Payload(recipe[..i], before))
      {
        ghost var payload := Payload(recipe[..i], before);
        NextField(recipe, i, before);
        data := data[recipe[i] := Lookup(data, recipe[i])];
        var v := data[recipe[i]];
        var written := Serialize(little, buffer, size, Width(v.kind), Bits(v));
        PatchedFurther(start, front + payload, Encoded(v));
        SeqAssoc(front, payload, Encoded(v));
        size := size + written;
      }
      assert recipe[..|recipe|] == recipe;
    }

    /** The first loop of `serializePackage`, in 16-bit arithmetic. */
    method PayloadSize(order: seq<string>) returns (size: nat)
      requires Enumerates(order, data)
      ensures size == U16(1 + Total(order, data))
    {
      hide Total, Payload, Touched, U16, Enumerates;
      size := 1;
      Small(1);
      NoFields(order, data);
      for i := 0 to |order|
        invariant size == U16(1 + Total(order[..i], data))
      {
        NextField(order, i, data);
        Enumerated(order, data, i);
        var width := Width(data[order[i]].kind);
        size := U16(size + width);
        Carry(1 + Total(order[..i], data), width);
      }
      assert order[..|order|] == order;
    }
  }

  /** `RTDEParser`, for buffers that hold a data package. */
  class RtdeParser {
    const types: Types
    var recipe: seq<string>
    var protocolVersion: nat

    constructor (types: Types, recipe: seq<string>)
      ensures this.types == types && this.recipe == recipe && protocolVersion == 1
    {
      this.types, this.recipe, protocolVersion := types, recipe, 1;
    }

    method SetProtocolVersion(version: nat)
      modifies this`protocolVersion
      ensures protocolVersion == version
    {
      protocolVersion := version;
    }

    /** `parse`. */
    method Parse(bp: BinParser) returns (r: Received)
      requires bp.Valid()
      modifies bp`pos
      ensures bp.Valid()
      ensures r == Receive(types, recipe, protocolVersion, old(bp.Rest()))
      ensures r.Package? ==> bp.Rest() == []
    {
      hide ReadFields, BigEndian;
      ghost var bytes := bp.Rest();
      var ok, length := bp.Parse(2);
      if !ok {
        return Throws;
      }
      var typed, packageType := bp.Parse(1);
      if !typed {
        return Throws;
      }
      assert bytes[2..][..1] == [bytes[2]] && bytes[2..][1..] == bytes[3..];
      SingleByte(bytes[2]);
      if length < 3 {
        return Refused;          // the remaining length wraps to a huge unsigned number
      }
      var enough := bp.CheckSize(length - 3);
      if !enough {
        return Refused;
      }
      if packageType != DATA_PACKAGE {
        return NotData(packageType);
      }
      var package := new DataPackage(types, recipe, protocolVersion);
      var ending := package.ParseWith(bp);
      if ending == TooShort {
        return Throws;
      }
      if ending == UnknownName {
        return Refused;
      }
      var empty := bp.Empty();
      if !empty {
        return Refused;
      }
      return Package(if protocolVersion == 2 then Some(package.recipeId) else None, package.data);
    }
  }
}
