/** Robot-state packages of the primary interface: a payload of sub-packages,
    each decoded from its own frame by a child cursor. */
module PrimaryParser {
  import opened Wire

  const ROBOT_MODE_DATA: byte := 0
  const KINEMATICS_INFO: byte := 5
  const CONFIGURATION_DATA: byte := 6

  function Doubles(n: nat): (widths: seq<nat>)
    ensures forall i :: 0 <= i < |widths| ==> widths[i] > 0
  {
    seq(n, _ => 8)
  }

  function Words(n: nat): (widths: seq<nat>)
    ensures forall i :: 0 <= i < |widths| ==> widths[i] > 0
  {
    seq(n, _ => 4)
  }

  /** The scalars `parseWith` reads for a sub-package type, in bytes. */
  function Scalars(stateType: byte): (widths: seq<nat>)
    ensures forall i :: 0 <= i < |widths| ==> widths[i] > 0
  {
    if stateType == ROBOT_MODE_DATA then [8, 1, 1, 1, 1, 1, 1, 1, 1, 1, 8, 8, 8]
    else if stateType == KINEMATICS_INFO then Words(6) + Doubles(24) + Words(1)
    else if stateType == CONFIGURATION_DATA then Doubles(53) + Words(4)
    else []
  }

  /** Whether the rest of the frame is then taken as raw bytes. */
  predicate TakesRest(stateType: byte) { stateType != KINEMATICS_INFO && stateType != CONFIGURATION_DATA }

  /** A decoded sub-package: its scalars as bit patterns, and the raw remainder. */
  datatype SubPackage = SubPackage(stateType: byte, values: seq<nat>, raw: seq<byte>)

  // ---------------------------------------------------------------------
  // What a payload means
  // ---------------------------------------------------------------------

  datatype Scan = Short | Scan(values: seq<nat>, rest: seq<byte>)

  function ReadScalars(widths: seq<nat>, bytes: seq<byte>): Scan {
    if widths == [] then Scan([], bytes)
    else
      var n := |widths| - 1;
      match ReadScalars(widths[..n], bytes)
      case Short => Short
      case Scan(values, rest) =>
        if |rest| < widths[n] then Short else Scan(values + [ValueOf(rest[..widths[n]])], rest[widths[n]..])
  }

  datatype Body = BodyShort | Body(package: SubPackage, rest: seq<byte>)

  function DecodeBody(stateType: byte, bytes: seq<byte>): Body {
    match ReadScalars(Scalars(stateType), bytes)
    case Short => BodyShort
    case Scan(values, rest) =>
      if TakesRest(stateType) then Body(SubPackage(stateType, values, rest), [])
      else Body(SubPackage(stateType, values, []), rest)
  }

  datatype Verdict = Accepted | Rejected | Thrown

  datatype Parsed = Parsed(verdict: Verdict, results: seq<SubPackage>)

  /** The loop over sub-packages. */
  function ParseStates(bytes: seq<byte>): Parsed
    decreases |bytes|
  {
    if bytes == [] then Parsed(Accepted, [])
    else if |bytes| < 4 then Parsed(Rejected, [])
    else
      var n := ValueOf(bytes[..4]);
      if n > |bytes| then Parsed(Rejected, [])
      else if n < 5 then Parsed(Thrown, [])
      else
        match DecodeBody(bytes[4], bytes[5..n])
        case BodyShort => Parsed(Thrown, [])
        case Body(package, rest) =>
          if rest != [] then Parsed(Rejected, [package])
          else
            var more := ParseStates(bytes[n..]);
            Parsed(more.verdict, [package] + more.results)
  }

  // ---------------------------------------------------------------------
  // Which bytes a value is
  // ---------------------------------------------------------------------

  /** Where the scalar with this number begins. */
  function Offset(widths: seq<nat>, i: nat): nat
    requires i <= |widths|
  {
    if i == 0 then 0 else Offset(widths, i - 1) + widths[i - 1]
  }

  lemma {:induction false} OffsetPrefix(widths: seq<nat>, n: nat, i: nat)
    requires i <= n <= |widths|
    ensures Offset(widths[..n], i) == Offset(widths, i)
  {
    if i > 0 {
      OffsetPrefix(widths, n, i - 1);
    }
  }

  predicate ValueAt(bytes: seq<byte>, at: nat, width: nat, v: nat) {
    at + width <= |bytes| && v == ValueOf(bytes[at..at + width])
  }

  predicate ValuesAt(bytes: seq<byte>, widths: seq<nat>, values: seq<nat>) {
    |values| == |widths| && forall i :: 0 <= i < |widths| ==> ValueAt(bytes, Offset(widths, i), widths[i], values[i])
  }

  /** Reading takes as many bytes as the scalars are wide, if they are there. */
  lemma {:induction false} ScalarsTake(widths: seq<nat>, bytes: seq<byte>)
    ensures var size := Offset(widths, |widths|);
            match ReadScalars(widths, bytes)
            case Short => |bytes| < size
            case Scan(_, rest) => size <= |bytes| && rest == bytes[size..]
  {
    hide ValueOf;
    if widths != [] {
      var n := |widths| - 1;
      ScalarsTake(widths[..n], bytes);
      OffsetPrefix(widths, n, n);
      if ReadScalars(widths, bytes).Scan? {
        Tail(bytes, Offset(widths, n), widths[n]);
      }
    }
  }

  lemma Tail(bytes: seq<byte>, at: nat, width: nat)
    requires at + width <= |bytes|
    ensures bytes[at..][..width] == bytes[at..at + width] && bytes[at..][width..] == bytes[at + width..]
  {
  }

  lemma OneScalar(widths: seq<nat>, bytes: seq<byte>)
    requires widths != [] && ReadScalars(widths, bytes).Scan?
    ensures var n := |widths| - 1;
            var earlier := ReadScalars(widths[..n], bytes);
            && earlier.Scan? && widths[n] <= |earlier.rest|
            && ReadScalars(widths, bytes).values == earlier.values + [ValueOf(earlier.rest[..widths[n]])]
  {
    hide ValueOf;
  }

  /** Each value is read from the bytes at its own offset. */
  lemma {:induction false} ScalarsAreSlices(widths: seq<nat>, bytes: seq<byte>)
    requires ReadScalars(widths, bytes).Scan?
    ensures ValuesAt(bytes, widths, ReadScalars(widths, bytes).values)
  {
    if widths == [] {
      assert ReadScalars(widths, bytes).values == [];
    } else {
      LastScalar(widths, bytes);
      hide ReadScalars, ValueOf, ValuesAt;
      var n := |widths| - 1;
      ScalarsAreSlices(widths[..n], bytes);
      OneValueMore(bytes, widths, ReadScalars(widths[..n], bytes).values, ReadScalars(widths, bytes).values[n]);
    }
  }

  lemma LastScalar(widths: seq<nat>, bytes: seq<byte>)
    requires widths != [] && ReadScalars(widths, bytes).Scan?
    ensures var n := |widths| - 1;
            var earlier, all := ReadScalars(widths[..n], bytes), ReadScalars(widths, bytes).values;
            && earlier.Scan? && |all| == |earlier.values| + 1 && |earlier.values| == n
            && ValueAt(bytes, Offset(widths, n), widths[n], all[n]) && all == earlier.values + [all[n]]
  {
    hide ReadScalars, ValueOf;
    var n := |widths| - 1;
    OneScalar(widths, bytes);
    CountScalars(widths[..n], bytes);
    ScalarsTake(widths[..n], bytes);
    OffsetPrefix(widths, n, n);
    Tail(bytes, Offset(widths, n), widths[n]);
  }

  lemma {:induction false} CountScalars(widths: seq<nat>, bytes: seq<byte>)
    requires ReadScalars(widths, bytes).Scan?
    ensures |ReadScalars(widths, bytes).values| == |widths|
  {
    hide ValueOf;
    if widths != [] {
      CountScalars(widths[..|widths| - 1], bytes);
    }
  }

  lemma OneValueMore(bytes: seq<byte>, widths: seq<nat>, values: seq<nat>, v: nat)
    requires widths != [] && ValuesAt(bytes, widths[..|widths| - 1], values)
    requires ValueAt(bytes, Offset(widths, |widths| - 1), widths[|widths| - 1], v)
    ensures ValuesAt(bytes, widths, values + [v])
  {
    hide ValueAt;
    var n := |widths| - 1;
    forall i | 0 <= i < |widths| ensures ValueAt(bytes, Offset(widths, i), widths[i], (values + [v])[i]) {
      if i < n {
        OffsetPrefix(widths, n, i);
        assert ValueAt(bytes, Offset(widths[..n], i), widths[..n][i], values[i]);
      }
    }
  }

  /** A run of scalars of one width, from scalar `from` on. */
  lemma {:induction false} OffsetRun(widths: seq<nat>, from: nat, n: nat, width: nat)
    requires from + n <= |widths| && forall i :: from <= i < from + n ==> widths[i] == width
    ensures Offset(widths, from + n) == Offset(widths, from) + n * width
  {
    if n > 0 {
      OffsetRun(widths, from, n - 1, width);
    }
  }

  lemma RobotModeOffsets(i: nat)
    requires i <= 13
    ensures var w := Scalars(ROBOT_MODE_DATA);
            && |w| == 13 && Offset(w, i) == (if i == 0 then 0 else if i <= 10 then 7 + i else 17 + 8 * (i - 10))
            && (i < 13 ==> w[i] == if i == 0 || i >= 10 then 8 else 1)
  {
    var w := Scalars(ROBOT_MODE_DATA);
    OffsetRun(w, 0, 1, 8);
    OffsetRun(w, 1, if i < 1 then 0 else if i <= 10 then i - 1 else 9, 1);
    if i > 10 {
      OffsetRun(w, 10, i - 10, 8);
    }
  }

  lemma KinematicsOffsets(i: nat)
    requires i <= 31
    ensures var w := Scalars(KINEMATICS_INFO);
            && |w| == 31 && Offset(w, i) == (if i <= 6 then 4 * i else if i <= 30 then 24 + 8 * (i - 6) else 220)
            && (i < 31 ==> w[i] == if i < 6 || i == 30 then 4 else 8)
  {
    var w := Scalars(KINEMATICS_INFO);
    OffsetRun(w, 0, if i <= 6 then i else 6, 4);
    if i > 6 {
      OffsetRun(w, 6, if i <= 30 then i - 6 else 24, 8);
    }
    if i > 30 {
      OffsetRun(w, 30, 1, 4);
    }
  }

  lemma ConfigurationOffsets(i: nat)
    requires i <= 57
    ensures var w := Scalars(CONFIGURATION_DATA);
            && |w| == 57 && Offset(w, i) == (if i <= 53 then 8 * i else 424 + 4 * (i - 53))
            && (i < 57 ==> w[i] == if i < 53 then 8 else 4)
  {
    var w := Scalars(CONFIGURATION_DATA);
    OffsetRun(w, 0, if i <= 53 then i else 53, 8);
    if i > 53 {
      OffsetRun(w, 53, i - 53, 4);
    }
  }

  lemma BodyIsSlices(stateType: byte, body: seq<byte>)
    ensures var w := Scalars(stateType);
            match DecodeBody(stateType, body)
            case BodyShort => |body| < Offset(w, |w|)
            case Body(p, rest) =>
              && ValuesAt(body, w, p.values) && Offset(w, |w|) <= |body|
              && (if TakesRest(stateType) then p.raw == body[Offset(w, |w|)..] && rest == []
                  else p.raw == [] && rest == body[Offset(w, |w|)..])
  {
    hide ValuesAt, Scalars;
    if ReadScalars(Scalars(stateType), body).Scan? {
      ScalarsAreSlices(Scalars(stateType), body);
    }
    ScalarsTake(Scalars(stateType), body);
  }

  lemma RobotModeValue(body: seq<byte>, values: seq<nat>, i: nat)
    requires ValuesAt(body, Scalars(ROBOT_MODE_DATA), values) && i < 13
    ensures |values| == 13 && ValueAt(body, if i == 0 then 0 else if i < 10 then 7 + i else 17 + 8 * (i - 10),
                                      if i == 0 || i >= 10 then 8 else 1, values[i])
  {
    hide ValueAt, Scalars, Offset;
    RobotModeOffsets(i);
  }

  /** Robot mode: a timestamp, seven flags, two modes and three doubles in 41 bytes, then the rest. */
  lemma RobotModeLayout(body: seq<byte>)
    ensures match DecodeBody(ROBOT_MODE_DATA, body)
            case BodyShort => |body| < 41
            case Body(p, rest) =>
              && 41 <= |body| && rest == [] && p.raw == body[41..] && |p.values| == 13
              && ValueAt(body, 0, 8, p.values[0])
              && (forall i :: 1 <= i < 10 ==> ValueAt(body, 7 + i, 1, p.values[i]))
              && (forall i :: 10 <= i < 13 ==> ValueAt(body, 17 + 8 * (i - 10), 8, p.values[i]))
  {
    hide ValueAt, ValuesAt, DecodeBody, Scalars, Offset;
    BodyIsSlices(ROBOT_MODE_DATA, body);
    RobotModeOffsets(13);
    var decoded := DecodeBody(ROBOT_MODE_DATA, body);
    if decoded.Body? {
      var values := decoded.package.values;
      RobotModeValue(body, values, 0);
      forall i | 1 <= i < 10 ensures ValueAt(body, 7 + i, 1, values[i]) {
        RobotModeValue(body, values, i);
      }
      forall i | 10 <= i < 13 ensures ValueAt(body, 17 + 8 * (i - 10), 8, values[i]) {
        RobotModeValue(body, values, i);
      }
    }
  }

  lemma KinematicsValue(body: seq<byte>, values: seq<nat>, i: nat)
    requires ValuesAt(body, Scalars(KINEMATICS_INFO), values) && i < 31
    ensures |values| == 31 && ValueAt(body, if i < 6 then 4 * i else 24 + 8 * (i - 6),
                                      if i < 6 || i == 30 then 4 else 8, values[i])
  {
    hide ValueAt, Scalars, Offset;
    KinematicsOffsets(i);
  }

  /** Kinematics: six checksums, 24 doubles and a status, 220 bytes and no more. */
  lemma KinematicsLayout(body: seq<byte>)
    ensures match DecodeBody(KINEMATICS_INFO, body)
            case BodyShort => |body| < 220
            case Body(p, rest) =>
              && 220 <= |body| && rest == body[220..] && p.raw == [] && |p.values| == 31
              && (forall i :: 0 <= i < 6 ==> ValueAt(body, 4 * i, 4, p.values[i]))
              && (forall i :: 6 <= i < 30 ==> ValueAt(body, 24 + 8 * (i - 6), 8, p.values[i]))
              && ValueAt(body, 216, 4, p.values[30])
  {
    hide ValueAt, ValuesAt, DecodeBody, Scalars, Offset;
    BodyIsSlices(KINEMATICS_INFO, body);
    KinematicsOffsets(31);
    var decoded := DecodeBody(KINEMATICS_INFO, body);
    if decoded.Body? {
      var values := decoded.package.values;
      KinematicsValue(body, values, 0);
      forall i | 0 <= i < 6 ensures ValueAt(body, 4 * i, 4, values[i]) {
        KinematicsValue(body, values, i);
      }
      forall i | 6 <= i < 30 ensures ValueAt(body, 24 + 8 * (i - 6), 8, values[i]) {
        KinematicsValue(body, values, i);
      }
      KinematicsValue(body, values, 30);
    }
  }

  lemma ConfigurationValue(body: seq<byte>, values: seq<nat>, i: nat)
    requires ValuesAt(body, Scalars(CONFIGURATION_DATA), values) && i < 57
    ensures |values| == 57 && ValueAt(body, if i < 53 then 8 * i else 424 + 4 * (i - 53),
                                      if i < 53 then 8 else 4, values[i])
  {
    hide ValueAt, Scalars, Offset;
    ConfigurationOffsets(i);
  }

  /** Configuration: 53 doubles and four words, 440 bytes and no more. */
  lemma ConfigurationLayout(body: seq<byte>)
    ensures match DecodeBody(CONFIGURATION_DATA, body)
            case BodyShort => |body| < 440
            case Body(p, rest) =>
              && 440 <= |body| && rest == body[440..] && p.raw == [] && |p.values| == 57
              && (forall i :: 0 <= i < 53 ==> ValueAt(body, 8 * i, 8, p.values[i]))
              && (forall i :: 53 <= i < 57 ==> ValueAt(body, 424 + 4 * (i - 53), 4, p.values[i]))
  {
    hide ValueAt, ValuesAt, DecodeBody, Scalars, Offset;
    BodyIsSlices(CONFIGURATION_DATA, body);
    ConfigurationOffsets(57);
    var decoded := DecodeBody(CONFIGURATION_DATA, body);
    if decoded.Body? {
      var values := decoded.package.values;
      ConfigurationValue(body, values, 0);
      forall i | 0 <= i < 53 ensures ValueAt(body, 8 * i, 8, values[i]) {
        ConfigurationValue(body, values, i);
      }
      forall i | 53 <= i < 57 ensures ValueAt(body, 424 + 4 * (i - 53), 4, values[i]) {
        ConfigurationValue(body, values, i);
      }
    }
  }

  /** Every other type is kept raw. */
  lemma OtherLayout(stateType: byte, body: seq<byte>)
    requires stateType != 0 && stateType != 5 && stateType != 6
    ensures DecodeBody(stateType, body) == Body(SubPackage(stateType, [], body), [])
  {
  }

  // ---------------------------------------------------------------------
  // Frames
  // ---------------------------------------------------------------------

  datatype Frame = Frame(stateType: byte, body: seq<byte>)

  /** A frame whose body is exactly what its type asks for. */
  predicate WellFormed(f: Frame) {
    5 + |f.body| < Pow256(4) && DecodeBody(f.stateType, f.body).Body? && DecodeBody(f.stateType, f.body).rest == []
  }

  function FrameBytes(f: Frame): (bytes: seq<byte>)
    requires WellFormed(f)
    ensures |bytes| == 5 + |f.body|
  {
    BigEndian(4, 5 + |f.body|) + [f.stateType] + f.body
  }

  function Flatten(frames: seq<Frame>): seq<byte>
    requires forall i :: 0 <= i < |frames| ==> WellFormed(frames[i])
  {
    if frames == [] then [] else FrameBytes(frames[0]) + Flatten(frames[1..])
  }

  function Decoded(f: Frame): SubPackage
    requires WellFormed(f)
  {
    DecodeBody(f.stateType, f.body).package
  }

  function DecodeAll(frames: seq<Frame>): (packages: seq<SubPackage>)
    requires forall i :: 0 <= i < |frames| ==> WellFormed(frames[i])
    ensures |packages| == |frames|
    ensures forall i :: 0 <= i < |frames| ==> packages[i] == Decoded(frames[i])
  {
    if frames == [] then [] else [Decoded(frames[0])] + DecodeAll(frames[1..])
  }

  /** The frames of an accepted payload. */
  function FramesOf(bytes: seq<byte>): (frames: seq<Frame>)
    requires ParseStates(bytes).verdict == Accepted
    decreases |bytes|
  {
    if bytes == [] then []
    else
      var n := ValueOf(bytes[..4]);
      [Frame(bytes[4], bytes[5..n])] + FramesOf(bytes[n..])
  }

  /** An accepted payload is nothing but its frames, one after the other, and the results are
      those frames decoded, in order and each from its own bytes. */
  lemma {:induction false} AcceptedIsPartition(bytes: seq<byte>)
    requires ParseStates(bytes).verdict == Accepted
    ensures var frames := FramesOf(bytes);
            && (forall i :: 0 <= i < |frames| ==> WellFormed(frames[i]))
            && bytes == Flatten(frames)
            && ParseStates(bytes).results == DecodeAll(frames)
    decreases |bytes|
  {
    hide DecodeBody;
    if bytes != [] {
      var n := ValueOf(bytes[..4]);
      AcceptedIsPartition(bytes[n..]);
      var first, rest := Frame(bytes[4], bytes[5..n]), FramesOf(bytes[n..]);
      var frames := FramesOf(bytes);
      assert frames[0] == first && frames[1..] == rest;
      assert forall i :: 1 <= i < |frames| ==> frames[i] == rest[i - 1];
      HeadBytes(bytes, n);
    }
  }

  lemma HeadBytes(bytes: seq<byte>, n: nat)
    requires 5 <= n <= |bytes| && n == ValueOf(bytes[..4])
    ensures n < Pow256(4)
    ensures BigEndian(4, n) + [bytes[4]] + bytes[5..n] + bytes[n..] == bytes
  {
    BigEndianOfValue(bytes[..4]);
    assert bytes == bytes[..4] + [bytes[4]] + bytes[5..n] + bytes[n..];
  }

  /** Every sequence of well-formed frames is accepted and decoded. */
  lemma {:induction false} FramesAreAccepted(frames: seq<Frame>)
    requires forall i :: 0 <= i < |frames| ==> WellFormed(frames[i])
    ensures ParseStates(Flatten(frames)) == Parsed(Accepted, DecodeAll(frames))
  {
    hide DecodeBody;
    if frames != [] {
      var f, more := frames[0], Flatten(frames[1..]);
      FramesAreAccepted(frames[1..]);
      var n := 5 + |f.body|;
      var bytes := FrameBytes(f) + more;
      ValueOfBigEndian(4, n);
      assert bytes[..4] == BigEndian(4, n);
      assert bytes[4] == f.stateType && bytes[5..n] == f.body && bytes[n..] == more;
    }
  }

  /** A payload of one sub-package of six bytes: its length, type 3 and one byte of content. */
  lemma PayloadOnTheWire()
    ensures ParseStates([0, 0, 0, 6] + [3] + [42]) == Parsed(Accepted, [SubPackage(3, [], [42])])
  {
    hide DecodeBody, ValueOf;
    var bytes := [0, 0, 0, 6] + [3] + [42];
    assert bytes[..4] == [0, 0, 0, 6] && bytes[4] == 3 && bytes[5..6] == [42] && bytes[6..] == [];
    Six();
    OtherLayout(3, [42]);
    assert ParseStates(bytes[6..]) == Parsed(Accepted, []);
  }

  lemma Six()
    ensures ValueOf([0, 0, 0, 6]) == 6
  {
    assert [0, 0, 0, 6][..3] == [0, 0, 0] && [0, 0, 0][..2] == [0, 0] && [0, 0][..1] == [0] && [0][..0] == [];
    assert ValueOf([0]) == 0 && ValueOf([0, 0]) == 0 && ValueOf([0, 0, 0]) == 0;
  }

  // ---------------------------------------------------------------------
  // The parser
  // ---------------------------------------------------------------------

  /** `parseWith` of the sub-package chosen by `stateFromType`. */
  method ParseSubPackage(sbp: BinParser, stateType: byte) returns (threw: bool, package: SubPackage)
    requires sbp.Valid()
    modifies sbp`pos
    ensures sbp.Valid()
    ensures match DecodeBody(stateType, old(sbp.Rest()))
            case BodyShort => threw
            case Body(decoded, rest) => !threw && package == decoded && sbp.Rest() == rest
  {
    hide Scalars, ValueOf;
    var widths := Scalars(stateType);
    ghost var body := sbp.Rest();
    var values: seq<nat> := [];
    package := SubPackage(stateType, [], []);
    for i := 0 to |widths|
      invariant sbp.Valid() && ReadScalars(widths[..i], body) == Scan(values, sbp.Rest())
    {
      assert widths[..i + 1][..i] == widths[..i];
      var ok, v := sbp.Parse(widths[i]);
      if !ok {
        ShortStays(widths, i + 1, body);
        return true, package;
      }
      values := values + [v];
    }
    assert widths[..|widths|] == widths;
    var raw := [];
    if TakesRest(stateType) {
      raw := sbp.TakeRest();
    }
    return false, SubPackage(stateType, values, raw);
  }

  lemma {:induction false} ShortStays(widths: seq<nat>, i: nat, bytes: seq<byte>)
    requires i <= |widths| && ReadScalars(widths[..i], bytes).Short?
    ensures ReadScalars(widths, bytes).Short?
    decreases |widths|
  {
    if i < |widths| {
      var n := |widths| - 1;
      assert widths[..n][..i] == widths[..i];
      ShortStays(widths[..n], i, bytes);
    } else {
      assert widths[..i] == widths;
    }
  }

  /** The ROBOT_STATE case of `PrimaryParser::parse`. */
  method ParseRobotState(bp: BinParser) returns (r: Parsed)
    requires bp.Valid()
    modifies bp`pos
    ensures r == ParseStates(old(bp.Rest()))
    ensures r.verdict == Accepted ==> bp.Valid() && bp.Rest() == []
  {
    hide DecodeBody, ValueOf;
    ghost var all := bp.Rest();
    var results: seq<SubPackage> := [];
    assert Combined(results, ParseStates(all)) == ParseStates(all);
    while true
      invariant bp.Valid() && Combined(results, ParseStates(bp.Rest())) == ParseStates(all)
      decreases bp.end - bp.pos
    {
      ghost var rest := bp.Rest();
      var empty := bp.Empty();
      if empty {
        return Parsed(Accepted, results);
      }
      var holds := bp.CheckSize(4);
      if !holds {
        return Parsed(Rejected, results);
      }
      var _, size := bp.Peek(4);
      holds := bp.CheckSize(size);
      if !holds {
        return Parsed(Rejected, results);
      }
      var step, package := ParseFrame(bp, size);
      if step == Thrown {
        return Parsed(Thrown, results);
      }
      CombinedAgain(results, package, ParseStates(rest[size..]));
      results := results + [package];
      if step == Rejected {
        return Parsed(Rejected, results);
      }
    }
  }

  /** One round of the loop: a child cursor over the frame, closed on every way out. */
  method ParseFrame(bp: BinParser, size: nat) returns (step: Verdict, package: SubPackage)
    requires bp.Valid() && 4 <= |bp.Rest()| && size <= |bp.Rest()|
    modifies bp`pos
    ensures var rest := old(bp.Rest());
            if size < 5 then step == Thrown
            else
              match DecodeBody(rest[4], rest[5..size])
              case BodyShort => step == Thrown
              case Body(decoded, left) =>
                && package == decoded
                && (left != [] ==> step == Rejected)
                && (left == [] ==> step == Accepted && bp.Valid() && bp.Rest() == rest[size..])
  {
    hide DecodeBody, ValueOf, Scalars;
    ghost var rest, whole, from := bp.Rest(), bp.buffer[..], bp.pos;
    package := SubPackage(0, [], []);
    var sbp := new BinParser.Child(bp, size);
    sbp.Consume(4);
    if size >= 5 {
      FrameParts(whole, from, bp.end, size);
    }
    var ok, stateType := sbp.Parse(1);
    if !ok {
      bp.pos := sbp.pos;
      return Thrown, package;
    }
    var threw;
    threw, package := ParseSubPackage(sbp, stateType);
    bp.pos := sbp.pos;
    if threw {
      return Thrown, package;
    }
    var empty := sbp.Empty();
    return if empty then Accepted else Rejected, package;
  }

  lemma FrameParts(s: seq<byte>, from: nat, end: nat, size: nat)
    requires 5 <= size && from + size <= end <= |s|
    ensures var rest, child := s[from..end], s[from + 4..from + size];
            && ValueOf(child[..1]) == rest[4] && child[1..] == rest[5..size] && s[from + size..end] == rest[size..]
  {
    var rest := s[from..end];
    SingleByte(rest[4]);
    Slice(s, from, end, 5, size);
    Slice(s, from, end, size, |rest|);
    TypeFirst(s, from + 4, from + size);
  }

  lemma TypeFirst(s: seq<byte>, lo: nat, hi: nat)
    requires lo < hi <= |s|
    ensures s[lo..hi][..1] == [s[lo]] && s[lo..hi][1..] == s[lo + 1..hi]
  {
  }

  lemma Slice(s: seq<byte>, lo: nat, hi: nat, i: nat, j: nat)
    requires lo <= hi <= |s| && i <= j <= hi - lo
    ensures s[lo..hi][i..j] == s[lo + i..lo + j]
  {
    assert |s[lo..hi][i..j]| == j - i == |s[lo + i..lo + j]|;
    assert forall k :: 0 <= k < j - i ==> s[lo..hi][i..j][k] == s[lo + i..lo + j][k];
  }

  function Combined(before: seq<SubPackage>, rest: Parsed): Parsed { rest.(results := before + rest.results) }

  lemma CombinedAgain(before: seq<SubPackage>, package: SubPackage, rest: Parsed)
    ensures Combined(before, Parsed(rest.verdict, [package] + rest.results)) == Combined(before + [package], rest)
  {
    assert before + ([package] + rest.results) == before + [package] + rest.results;
  }
}
