/** The writer side of RTDE: one package whose masks select what the robot
    applies, changed by each `send*` call and copied into the queue. */
module RtdeWriter {

  /** IEEE doubles as far as the range checks can tell them apart. */
  datatype Double = NaN | Num(r: real)

  predicate Greater(a: Double, r: real) { a.Num? && a.r > r }

  predicate Less(a: Double, r: real) { a.Num? && a.r < r }

  datatype Value = Bool(b: bool) | U8(u8: bv8) | U32(u32: nat) | I32(i32: int) | F64(f64: Double)

  /** The digital output groups; the tool has two pins, the others eight. */
  datatype Group = Standard | Configurable | Tool

  function LastPin(g: Group): nat { if g.Tool? then 1 else 7 }

  datatype AnalogOutputType = SetOnTeachPendant | Current | Voltage

  /** The input variables a recipe may list. */
  datatype Field =
    | SliderMask | SliderFraction
    | DigitalMask(g: Group) | DigitalValue(g: Group)
    | AnalogMask | AnalogDomain | AnalogLevel(pin: nat)
    | BitRegister(id: nat) | IntRegister(id: nat) | DoubleRegister(id: nat)
    | OtherField(name: string)

  type Package = map<Field, Value>

  predicate IsRegister(f: Field) { f.BitRegister? || f.IntRegister? || f.DoubleRegister? }

  predicate IsMask(f: Field) { f.SliderMask? || f.DigitalMask? || f.AnalogMask? }

  function ZeroMask(f: Field): Value { if f.SliderMask? then U32(0) else U8(0) }

  /** `pinToMask`. */
  function PinToMask(pin: nat): bv8 { if pin > 7 then 0 else 1 << pin }

  function DomainBits(pin: nat, domain: AnalogOutputType): bv8 {
    if domain.Voltage? then PinToMask(pin) else 0
  }

  function AllPins(value: bool): bv8 { if value then 255 else 0 }

  datatype Call =
    | Slider(fraction: Double)
    | Digital(g: Group, pin: nat, on: bool)
    | Analog(out: nat, level: Double, domain: AnalogOutputType)
    | Register(f: Field, v: Value)

  /** Arguments the call itself accepts. */
  predicate InRange(call: Call) {
    match call
    case Slider(x) => !(Greater(x, 1.0) || Less(x, 0.0))
    case Digital(g, pin, _) => pin <= LastPin(g)
    case Analog(out, x, _) => out <= 1 && !(Greater(x, 1.0) || Less(x, 0.0))
    case Register(f, _) =>
      match f
      case BitRegister(id) => 64 <= id <= 127
      case IntRegister(id) => 24 <= id <= 47
      case DoubleRegister(id) => 24 <= id <= 47
      case _ => false
  }

  function MaskOf(call: Call): Field
    requires !call.Register?
  {
    match call
    case Slider(_) => SliderMask
    case Digital(g, _, _) => DigitalMask(g)
    case Analog(_, _, _) => AnalogMask
  }

  /** The assignments a call makes to the package, in order. */
  function Settings(call: Call): seq<(Field, Value)> {
    match call
    case Slider(x) => [(SliderMask, U32(1)), (SliderFraction, F64(x))]
    case Digital(g, pin, on) => [(DigitalMask(g), U8(PinToMask(pin))), (DigitalValue(g), U8(AllPins(on)))]
    case Analog(out, x, domain) =>
      [(AnalogMask, U8(PinToMask(out)))]
      + (if domain.SetOnTeachPendant? then [] else [(AnalogDomain, U8(DomainBits(out, domain)))])
      + [(AnalogLevel(0), F64(x)), (AnalogLevel(1), F64(x))]
    case Register(f, v) => [(f, v)]
  }

  /** Assignments in order, stopping at the first field the recipe does not list. */
  function SetAll(p: Package, settings: seq<(Field, Value)>): (r: (Package, bool))
    ensures r.0.Keys == p.Keys
    ensures r.1 <==> forall k :: 0 <= k < |settings| ==> settings[k].0 in p
  {
    if settings == [] then (p, true)
    else
      var last := |settings| - 1;
      var (q, complete) := SetAll(p, settings[..last]);
      if complete && settings[last].0 in q then
        assert q[settings[last].0 := settings[last].1].Keys == q.Keys;
        (q[settings[last].0 := settings[last].1], true)
      else (q, false)
  }

  lemma SetFirst(p: Package, f: Field, v: Value)
    ensures SetAll(p, [(f, v)]) == if f in p then (p[f := v], true) else (p, false)
  {
    assert [(f, v)][..0] == [];
  }

  lemma SetOne(p: Package, settings: seq<(Field, Value)>, f: Field, v: Value)
    ensures var (q, complete) := SetAll(p, settings);
            SetAll(p, settings + [(f, v)]) == if complete && f in q then (q[f := v], true) else (q, false)
  {
    assert (settings + [(f, v)])[..|settings|] == settings;
  }

  /** Effect of a call: the package after it, what it enqueued, what it returned. */
  datatype Effect = Effect(package: Package, sent: seq<Package>, ok: bool)

  function Perform(p: Package, call: Call, room: bool): Effect {
    if !InRange(call) then Effect(p, [], false)
    else
      var (p1, complete) := SetAll(p, Settings(call));
      if complete && !room then Effect(p1, [], false)
      else
        var sent := if complete then [p1] else [];
        if call.Register? then Effect(p1, sent, complete)
        else if MaskOf(call) in p1 then Effect(p1[MaskOf(call) := ZeroMask(MaskOf(call))], sent, true)
        else Effect(p1, sent, false)
  }

  class Writer {
    var package: Package
    var queue: seq<Package>   // what has been handed to the writer thread, oldest first

    constructor (initial: Package)
      ensures package == initial && queue == []
    {
      package, queue := initial, [];
    }

    /** `setData`. */
    method SetData(f: Field, v: Value) returns (found: bool)
      modifies this`package
      ensures found <==> f in old(package)
      ensures package == if found then old(package)[f := v] else old(package)
    {
      if f in package {
        package := package[f := v];
        return true;
      }
      return false;
    }

    /** `success = success && setData(f, v)`, as one more assignment of a call. */
    method AndSet(success: bool, f: Field, v: Value, ghost before: Package, ghost settings: seq<(Field, Value)>)
      returns (complete: bool)
      requires (package, success) == SetAll(before, settings)
      modifies this`package
      ensures (package, complete) == SetAll(before, settings + [(f, v)])
    {
      SetOne(before, settings, f, v);
      complete := success;
      if success {
        complete := SetData(f, v);
      }
    }

    /** `sendSpeedSlider`; `room` says whether the queue takes the package. */
    method SendSpeedSlider(fraction: Double, room: bool) returns (ok: bool)
      modifies this
      ensures var e := Perform(old(package), Slider(fraction), room);
              package == e.package && queue == old(queue) + e.sent && ok == e.ok
    {
      hide SetAll, PinToMask, DomainBits;
      if Greater(fraction, 1.0) || Less(fraction, 0.0) {
        return false;
      }
      SetFirst(package, SliderMask, U32(1));
      var success := SetData(SliderMask, U32(1));
      success := AndSet(success, SliderFraction, F64(fraction), old(package), [(SliderMask, U32(1))]);
      assert [(SliderMask, U32(1))] + [(SliderFraction, F64(fraction))] == Settings(Slider(fraction));
      if success {
        if !room {
          return false;
        }
        queue := queue + [package];
      }
      ok := SetData(SliderMask, U32(0));
    }

    /** `sendStandardDigitalOutput`, `sendConfigurableDigitalOutput`, `sendToolDigitalOutput`. */
    method SendDigitalOutput(g: Group, pin: nat, value: bool, room: bool) returns (ok: bool)
      modifies this
      ensures var e := Perform(old(package), Digital(g, pin, value), room);
              package == e.package && queue == old(queue) + e.sent && ok == e.ok
    {
      hide SetAll, PinToMask, DomainBits;
      if pin > LastPin(g) {
        return false;
      }
      var mask := PinToMask(pin);
      var output := if value then 255 else 0;
      SetFirst(package, DigitalMask(g), U8(mask));
      var success := SetData(DigitalMask(g), U8(mask));
      success := AndSet(success, DigitalValue(g), U8(output), old(package), [(DigitalMask(g), U8(mask))]);
      assert [(DigitalMask(g), U8(mask))] + [(DigitalValue(g), U8(output))] == Settings(Digital(g, pin, value));
      if success {
        if !room {
          return false;
        }
        queue := queue + [package];
      }
      ok := SetData(DigitalMask(g), U8(0));
    }

    /** `sendStandardAnalogOutput`. */
    method SendAnalogOutput(out: nat, level: Double, domain: AnalogOutputType, room: bool) returns (ok: bool)
      modifies this
      ensures var e := Perform(old(package), Analog(out, level, domain), room);
              package == e.package && queue == old(queue) + e.sent && ok == e.ok
    {
      hide SetAll, PinToMask, DomainBits;
      if out > 1 {
        return false;
      }
      if Greater(level, 1.0) || Less(level, 0.0) {
        return false;
      }
      ghost var settings := [(AnalogMask, U8(PinToMask(out)))];
      SetFirst(package, AnalogMask, U8(PinToMask(out)));
      var success := SetData(AnalogMask, U8(PinToMask(out)));
      if !domain.SetOnTeachPendant? {
        success := AndSet(success, AnalogDomain, U8(DomainBits(out, domain)), old(package), settings);
        settings := settings + [(AnalogDomain, U8(DomainBits(out, domain)))];
      }
      success := AndSet(success, AnalogLevel(0), F64(level), old(package), settings);
      settings := settings + [(AnalogLevel(0), F64(level))];
      success := AndSet(success, AnalogLevel(1), F64(level), old(package), settings);
      assert settings + [(AnalogLevel(1), F64(level))] == Settings(Analog(out, level, domain));
      if success {
        if !room {
          return false;
        }
        queue := queue + [package];
      }
      ok := SetData(AnalogMask, U8(0));
    }

    /** `sendInputBitRegister`, `sendInputIntRegister`, `sendInputDoubleRegister`. */
    method SendInputRegister(f: Field, v: Value, room: bool) returns (ok: bool)
      requires IsRegister(f)
      modifies this
      ensures var e := Perform(old(package), Register(f, v), room);
              package == e.package && queue == old(queue) + e.sent && ok == e.ok
    {
      hide SetAll, PinToMask, DomainBits;
      if f.BitRegister? && (f.id < 64 || f.id > 127) {
        return false;
      }
      if !f.BitRegister? && (f.id < 24 || f.id > 47) {
        return false;
      }
      SetFirst(package, f, v);
      ok := SetData(f, v);
      if ok {
        if !room {
          return false;
        }
        queue := queue + [package];
      }
    }

    /** Any call of the writer's interface. */
    method Send(call: Call, room: bool) returns (ok: bool)
      requires call.Register? ==> IsRegister(call.f)
      modifies this
      ensures var e := Perform(old(package), call, room);
              package == e.package && queue == old(queue) + e.sent && ok == e.ok
    {
      match call
      case Slider(x) => ok := SendSpeedSlider(x, room);
      case Digital(g, pin, on) => ok := SendDigitalOutput(g, pin, on, room);
      case Analog(out, x, domain) => ok := SendAnalogOutput(out, x, domain, room);
      case Register(f, v) => ok := SendInputRegister(f, v, room);
    }
  }

  // ---------------------------------------------------------------------
  // The controller that receives the packages
  // ---------------------------------------------------------------------

  /** What the calls are meant to change on the robot. */
  datatype Controller = Controller(
    standard: bv8, configurable: bv8, tool: bv8,
    level0: Value, level1: Value, slider: Value, registers: Package)

  function Output(c: Controller, g: Group): bv8 {
    match g
    case Standard => c.standard
    case Configurable => c.configurable
    case Tool => c.tool
  }

  function Byte(p: Package, f: Field): bv8 { if f in p && p[f].U8? then p[f].u8 else 0 }

  predicate SliderSelected(p: Package) {
    SliderMask in p && p[SliderMask] != U32(0) && SliderFraction in p
  }

  predicate Overlap(m: bv8, n: bv8) { m & n != 0 }

  predicate LevelSelected(p: Package, out: nat) {
    out <= 1 && AnalogLevel(out) in p && Overlap(Byte(p, AnalogMask), PinToMask(out))
  }

  function Masked(was: bv8, value: bv8, mask: bv8): bv8 { (was & !mask) | (value & mask) }

  /** A package applied: masked outputs only, every listed register overwritten. */
  function Apply(c: Controller, p: Package): Controller {
    Controller(
      OutputApplied(c, p, Standard), OutputApplied(c, p, Configurable), OutputApplied(c, p, Tool),
      LevelApplied(c.level0, p, 0), LevelApplied(c.level1, p, 1),
      SliderApplied(c.slider, p),
      c.registers + Registers(p))
  }

  function OutputApplied(c: Controller, p: Package, g: Group): bv8 {
    Masked(Output(c, g), Byte(p, DigitalValue(g)), Byte(p, DigitalMask(g)))
  }

  function LevelApplied(level: Value, p: Package, out: nat): Value {
    if LevelSelected(p, out) then p[AnalogLevel(out)] else level
  }

  function SliderApplied(slider: Value, p: Package): Value {
    if SliderSelected(p) then p[SliderFraction] else slider
  }

  function Registers(p: Package): Package { map f | f in p && IsRegister(f) :: p[f] }

  function Replay(c: Controller, packages: seq<Package>): Controller {
    if packages == [] then c
    else Apply(Replay(c, packages[..|packages| - 1]), packages[|packages| - 1])
  }

  function SetBit(was: bv8, pin: nat, on: bool): bv8 {
    if on then was | PinToMask(pin) else was & !PinToMask(pin)
  }

  /** What a call asks for, with no package in between. */
  function Direct(c: Controller, call: Call): Controller {
    match call
    case Slider(x) => c.(slider := F64(x))
    case Digital(Standard, pin, on) => c.(standard := SetBit(c.standard, pin, on))
    case Digital(Configurable, pin, on) => c.(configurable := SetBit(c.configurable, pin, on))
    case Digital(Tool, pin, on) => c.(tool := SetBit(c.tool, pin, on))
    case Analog(out, x, _) => if out == 0 then c.(level0 := F64(x)) else c.(level1 := F64(x))
    case Register(f, v) => c.(registers := c.registers[f := v])
  }

  // ---------------------------------------------------------------------
  // Whole runs
  // ---------------------------------------------------------------------

  datatype Attempt = Attempt(call: Call, room: bool)

  /** A run of the writer: its package, what it queued, and the calls that queued it. */
  datatype History = History(package: Package, queue: seq<Package>, sending: seq<Call>)

  function Play(initial: Package, run: seq<Attempt>): History {
    if run == [] then History(initial, [], [])
    else
      var h := Play(initial, run[..|run| - 1]);
      var a := run[|run| - 1];
      var e := Perform(h.package, a.call, a.room);
      History(e.package, h.queue + e.sent, if e.sent == [] then h.sending else h.sending + [a.call])
  }

  function DirectAll(c: Controller, calls: seq<Call>): Controller {
    if calls == [] then c
    else Direct(DirectAll(c, calls[..|calls| - 1]), calls[|calls| - 1])
  }

  predicate Refused(p: Package, call: Call, room: bool) {
    !room && InRange(call) && SetAll(p, Settings(call)).1
  }

  predicate NeverRefused(initial: Package, run: seq<Attempt>) {
    forall k :: 0 <= k < |run| ==> !Refused(Play(initial, run[..k]).package, run[k].call, run[k].room)
  }

  predicate MasksZero(p: Package) { forall f :: f in p && IsMask(f) ==> p[f] == ZeroMask(f) }

  /** The robot already holds every register of the recipe. */
  predicate Synced(p: Package, c: Controller) {
    forall f :: f in p && IsRegister(f) ==> f in c.registers && c.registers[f] == p[f]
  }

  // What the assignments of one call leave in the package.

  predicate Lists(settings: seq<(Field, Value)>, f: Field) {
    exists k :: 0 <= k < |settings| && settings[k].0 == f
  }

  lemma {:induction false} SetAllFrame(p: Package, settings: seq<(Field, Value)>)
    ensures forall f :: f in p && !Lists(settings, f) ==> SetAll(p, settings).0[f] == p[f]
  {
    if settings != [] {
      var rest := settings[..|settings| - 1];
      SetAllFrame(p, rest);
      forall f | f in p && !Lists(settings, f) ensures SetAll(p, settings).0[f] == p[f] {
        assert forall k :: 0 <= k < |rest| ==> rest[k] == settings[k];
      }
    }
  }

  predicate DistinctFields(settings: seq<(Field, Value)>) {
    forall i, j :: 0 <= i < j < |settings| ==> settings[i].0 != settings[j].0
  }

  lemma {:induction false} SetAllAssigns(p: Package, settings: seq<(Field, Value)>)
    requires DistinctFields(settings)
    requires SetAll(p, settings).1
    ensures forall k :: 0 <= k < |settings| ==> SetAll(p, settings).0[settings[k].0] == settings[k].1
  {
    if settings != [] {
      var rest := settings[..|settings| - 1];
      SetAllAssigns(p, rest);
      forall k | 0 <= k < |settings| ensures SetAll(p, settings).0[settings[k].0] == settings[k].1 {
        if k < |rest| {
          assert rest[k] == settings[k];
        }
      }
    }
  }

  /** The fields of a call as it hands them over. */
  predicate Carries(q: Package, call: Call) {
    match call
    case Slider(x) => SliderMask in q && SliderFraction in q && q[SliderMask] == U32(1) && q[SliderFraction] == F64(x)
    case Digital(g, pin, on) =>
      && DigitalMask(g) in q && DigitalValue(g) in q
      && q[DigitalMask(g)] == U8(PinToMask(pin)) && q[DigitalValue(g)] == U8(AllPins(on))
    case Analog(out, x, _) =>
      && AnalogMask in q && AnalogLevel(0) in q && AnalogLevel(1) in q
      && q[AnalogMask] == U8(PinToMask(out)) && q[AnalogLevel(0)] == F64(x) && q[AnalogLevel(1)] == F64(x)
    case Register(f, v) => f in q && q[f] == v
  }

  /** Fields a call may touch. */
  predicate Touches(call: Call, f: Field) {
    match call
    case Slider(_) => f.SliderMask? || f.SliderFraction?
    case Digital(g, _, _) => f == DigitalMask(g) || f == DigitalValue(g)
    case Analog(_, _, _) => f.AnalogMask? || f.AnalogDomain? || f.AnalogLevel?
    case Register(r, _) => f == r
  }

  lemma SettingsShape(call: Call)
    ensures DistinctFields(Settings(call))
    ensures forall f :: Lists(Settings(call), f) ==> Touches(call, f)
    ensures var s := Settings(call);
            match call
            case Analog(out, x, _) =>
              var n := |s|;
              n >= 3 && s[0] == (AnalogMask, U8(PinToMask(out)))
              && s[n - 2] == (AnalogLevel(0), F64(x)) && s[n - 1] == (AnalogLevel(1), F64(x))
            case _ => true
  {
  }

  lemma Filled(p: Package, call: Call)
    ensures var (q, complete) := SetAll(p, Settings(call));
            && q.Keys == p.Keys
            && (forall f :: f in p && !Touches(call, f) ==> q[f] == p[f])
            && (complete ==> Carries(q, call))
            && (!complete && call.Register? ==> q == p)
            && (!complete && !call.Register? && MaskOf(call) !in p ==> q == p)
  {
    hide PinToMask, DomainBits;
    var s := Settings(call);
    SettingsShape(call);
    SetAllFrame(p, s);
    if SetAll(p, s).1 {
      SetAllAssigns(p, s);
      match call
      case Slider(x) => assert s[0].1 == U32(1) && s[1].1 == F64(x);
      case Digital(g, pin, on) => assert s[0].0 == DigitalMask(g) && s[1].0 == DigitalValue(g);
      case Analog(out, x, _) => assert s[0].0 == AnalogMask;
      case Register(f, v) => assert s[0] == (f, v);
    } else {
      NothingSet(p, s);
      assert call.Register? ==> s[0].0 !in p;
    }
  }

  lemma {:induction false} NothingSet(p: Package, settings: seq<(Field, Value)>)
    ensures settings != [] && settings[0].0 !in p ==> SetAll(p, settings).0 == p
  {
    if |settings| > 1 {
      NothingSet(p, settings[..|settings| - 1]);
    }
  }

  lemma OneBit(was: bv8, pin: nat, on: bool)
    ensures Masked(was, AllPins(on), PinToMask(pin)) == SetBit(was, pin, on)
  {
    hide PinToMask;
    Selected(was, PinToMask(pin));
  }

  lemma Selected(was: bv8, mask: bv8)
    ensures Masked(was, 255, mask) == was | mask
    ensures Masked(was, 0, mask) == was & !mask
  {
  }

  lemma NoBit(was: bv8, value: bv8)
    ensures Masked(was, value, 0) == was
  {
  }

  /** The package with the mask of a call lowered. */
  function Cleared(p: Package, call: Call): Package {
    if !call.Register? && MaskOf(call) in p then p[MaskOf(call) := ZeroMask(MaskOf(call))] else p
  }

  /** `r` is `p` with the fields of `call` set. */
  predicate Loaded(p: Package, r: Package, call: Call) {
    && InRange(call) && r.Keys == p.Keys && Carries(r, call)
    && forall f :: f in p && !Touches(call, f) ==> r[f] == p[f]
  }

  /** Whatever the masks were before, a package loaded with a call does what the call asks
      on top of what the other masks select. */
  lemma LoadedIsApplied(p: Package, r: Package, call: Call, c: Controller)
    requires Loaded(p, r, call)
    ensures Apply(c, r) == Direct(Apply(c, Cleared(p, call)), call)
  {
    hide Cleared, OutputApplied, LevelApplied, SliderApplied, Registers, SetBit;
    assert InRange(call);
    hide Loaded;
    OutputLoaded(p, r, call, c, Standard);
    OutputLoaded(p, r, call, c, Configurable);
    OutputLoaded(p, r, call, c, Tool);
    LevelLoaded(p, r, call, c.level0, 0);
    LevelLoaded(p, r, call, c.level1, 1);
    SliderLoaded(p, r, call, c.slider);
    RegistersLoaded(p, r, call, c.registers);
  }

  lemma Untouched(p: Package, r: Package, call: Call, f: Field)
    requires Loaded(p, r, call) && !Touches(call, f)
    ensures f in r <==> f in Cleared(p, call)
    ensures f in r ==> r[f] == Cleared(p, call)[f]
  {
    hide PinToMask;
  }

  lemma OutputLoaded(p: Package, r: Package, call: Call, c: Controller, g: Group)
    requires Loaded(p, r, call)
    ensures OutputApplied(c, r, g) ==
              var before := OutputApplied(c, Cleared(p, call), g);
              if call.Digital? && call.g == g then SetBit(before, call.pin, call.on) else before
  {
    hide PinToMask, Masked, SetBit, Output;
    var q := Cleared(p, call);
    if call.Digital? && call.g == g {
      OneBit(Output(c, g), call.pin, call.on);
      NoBit(Output(c, g), Byte(q, DigitalValue(g)));
    } else {
      hide Cleared, Carries;
      assert InRange(call);
      Untouched(p, r, call, DigitalMask(g));
      Untouched(p, r, call, DigitalValue(g));
    }
  }

  lemma PinBits(i: nat, j: nat)
    requires i <= 1 && j <= 1
    ensures Overlap(PinToMask(i), PinToMask(j)) <==> i == j
  {
    assert PinToMask(0) == 1 && PinToMask(1) == 2;
  }

  lemma LevelLoaded(p: Package, r: Package, call: Call, level: Value, i: nat)
    requires Loaded(p, r, call) && i <= 1
    ensures LevelApplied(level, r, i) ==
              if call.Analog? && call.out == i then F64(call.level) else LevelApplied(level, Cleared(p, call), i)
  {
    hide PinToMask, Overlap;
    if call.Analog? {
      assert Byte(Cleared(p, call), AnalogMask) == 0;
      assert Byte(r, AnalogMask) == PinToMask(call.out);
      assert AnalogLevel(i) in r && r[AnalogLevel(i)] == F64(call.level) by {
        assert i == 0 || i == 1;
      }
      hide Cleared, Loaded, Carries;
      NoSelection(Cleared(p, call), i);
      PinBits(call.out, i);
    } else {
      assert !Touches(call, AnalogMask) && !Touches(call, AnalogLevel(i));
      hide Cleared, Carries;
      Untouched(p, r, call, AnalogMask);
      Untouched(p, r, call, AnalogLevel(i));
    }
  }

  lemma NoSelection(p: Package, i: nat)
    requires Byte(p, AnalogMask) == 0
    ensures !LevelSelected(p, i)
  {
    hide PinToMask;
  }

  lemma SliderLoaded(p: Package, r: Package, call: Call, slider: Value)
    requires Loaded(p, r, call)
    ensures SliderApplied(slider, r) ==
              if call.Slider? then F64(call.fraction) else SliderApplied(slider, Cleared(p, call))
  {
    hide PinToMask;
    if !call.Slider? {
      assert !Touches(call, SliderMask) && !Touches(call, SliderFraction);
    }
  }

  lemma RegistersLoaded(p: Package, r: Package, call: Call, registers: Package)
    requires Loaded(p, r, call)
    ensures registers + Registers(r) ==
              var before := registers + Registers(Cleared(p, call));
              if call.Register? then before[call.f := call.v] else before
  {
    var q := Cleared(p, call);
    forall f | IsRegister(f) && f in p
      ensures f in r && f in q && r[f] == if call.Register? && f == call.f then call.v else q[f]
    {
      RegisterLoaded(p, r, call, f);
    }
    assert q.Keys == p.Keys == r.Keys;
    hide Cleared, Loaded, Carries;
  }

  lemma RegisterLoaded(p: Package, r: Package, call: Call, f: Field)
    requires Loaded(p, r, call) && IsRegister(f) && f in p
    ensures f in r && f in Cleared(p, call)
    ensures r[f] == if call.Register? && f == call.f then call.v else Cleared(p, call)[f]
  {
    hide PinToMask;
    assert Touches(call, f) ==> call.Register? && f == call.f;
  }

  /** A package without masks, in step with the registers, changes nothing. */
  lemma IdleIsApplied(p: Package, c: Controller)
    requires MasksZero(p) && Synced(p, c)
    ensures Apply(c, p) == c
  {
    hide OutputApplied, LevelSelected;
    OutputIdle(p, c, Standard);
    OutputIdle(p, c, Configurable);
    OutputIdle(p, c, Tool);
    assert IsMask(AnalogMask) && IsMask(SliderMask);
    NoSelection(p, 0);
    NoSelection(p, 1);
    assert c.registers + Registers(p) == c.registers;
  }

  lemma OutputIdle(p: Package, c: Controller, g: Group)
    requires MasksZero(p)
    ensures OutputApplied(c, p, g) == Output(c, g)
  {
    assert IsMask(DigitalMask(g));
    NoBit(Output(c, g), Byte(p, DigitalValue(g)));
  }

  /** Every package sent, whatever earlier calls left behind: it does what its call asks
      on top of what the masks of the other kinds still select. */
  lemma SentExactly(p: Package, call: Call, room: bool, c: Controller)
    ensures var e := Perform(p, call, room);
            e.sent != [] ==> |e.sent| == 1 && Apply(c, e.sent[0]) == Direct(Apply(c, Cleared(p, call)), call)
  {
    hide SetAll, PinToMask, Apply, Direct;
    Filled(p, call);
    if InRange(call) && SetAll(p, Settings(call)).1 {
      LoadedIsApplied(p, SetAll(p, Settings(call)).0, call, c);
    }
  }

  /** The masks survive a call exactly when a full queue refused it. */
  lemma MasksZeroIff(p: Package, call: Call, room: bool)
    requires MasksZero(p)
    ensures MasksZero(Perform(p, call, room).package) <==> call.Register? || !Refused(p, call, room)
  {
    hide SetAll, PinToMask;
    Filled(p, call);
    var after := Perform(p, call, room).package;
    forall f | f in p && IsMask(f) && (call.Register? || f != MaskOf(call)) ensures after[f] == ZeroMask(f) {
      assert InRange(call) ==> !Touches(call, f);
    }
    if !call.Register? {
      assert IsMask(MaskOf(call));
      if Refused(p, call, room) {
        MaskRaised(after, call);
      }
    }
  }

  lemma MaskRaised(q: Package, call: Call)
    requires InRange(call) && !call.Register? && Carries(q, call)
    ensures MaskOf(call) in q && q[MaskOf(call)] != ZeroMask(MaskOf(call))
  {
    if call.Digital? {
      PinRaised(call.pin);
    } else if call.Analog? {
      PinRaised(call.out);
    }
  }

  lemma PinRaised(pin: nat)
    requires pin <= 7
    ensures PinToMask(pin) != 0
  {
  }

  /** One call that is not refused: the masks are zero again, and a package that
      went out does exactly what the call asks. */
  lemma CallKeeps(p: Package, call: Call, room: bool, c: Controller)
    requires MasksZero(p) && Synced(p, c)
    requires !Refused(p, call, room)
    ensures var e := Perform(p, call, room);
            && MasksZero(e.package)
            && (e.sent == [] ==> Synced(e.package, c))
            && (e.sent != [] ==>
                   |e.sent| == 1 && Apply(c, e.sent[0]) == Direct(c, call) && Synced(e.package, Direct(c, call)))
  {
    hide Perform, Apply, Direct, MasksZero, Synced;
    SentExactly(p, call, room, c);
    ClearedIdle(p, call);
    IdleIsApplied(p, c);
    MasksZeroIff(p, call, room);
    RegistersAfter(p, call, room, c);
  }

  lemma RegistersAfter(p: Package, call: Call, room: bool, c: Controller)
    requires Synced(p, c)
    requires !Refused(p, call, room)
    ensures var e := Perform(p, call, room);
            Synced(e.package, if e.sent == [] then c else Direct(c, call))
  {
    hide SetAll, PinToMask, SetBit;
    Filled(p, call);
    var e := Perform(p, call, room);
    forall f | f in p && IsRegister(f)
      ensures e.package[f] == if e.sent != [] && call.Register? && f == call.f then call.v else p[f]
    {
      assert InRange(call) && Touches(call, f) ==> call.Register? && f == call.f;
    }
  }

  lemma ClearedIdle(p: Package, call: Call)
    requires MasksZero(p)
    ensures Cleared(p, call) == p
  {
    if !call.Register? {
      assert IsMask(MaskOf(call));
    }
  }

  lemma EarlierNotRefused(initial: Package, run: seq<Attempt>)
    requires NeverRefused(initial, run) && run != []
    ensures var shorter, a := run[..|run| - 1], run[|run| - 1];
            NeverRefused(initial, shorter) && !Refused(Play(initial, shorter).package, a.call, a.room)
  {
    hide Refused, Play;
    var shorter := run[..|run| - 1];
    assert forall k :: 0 <= k < |shorter| ==> shorter[..k] == run[..k];
  }

  /** Every run without a refused enqueue, on any recipe: replaying the queue gives what
      the sending calls ask for, and the masks are zero between calls. */
  lemma {:induction false} ReplayIsDirect(initial: Package, run: seq<Attempt>, c: Controller)
    requires MasksZero(initial) && Synced(initial, c)
    requires NeverRefused(initial, run)
    ensures var h := Play(initial, run);
            && Replay(c, h.queue) == DirectAll(c, h.sending)
            && |h.queue| == |h.sending|
            && MasksZero(h.package)
            && Synced(h.package, Replay(c, h.queue))
  {
    hide Perform, Apply, Direct, MasksZero, Synced, Refused;
    if run != [] {
      var shorter, a := run[..|run| - 1], run[|run| - 1];
      EarlierNotRefused(initial, run);
      hide NeverRefused;
      ReplayIsDirect(initial, shorter, c);
      var h := Play(initial, shorter);
      CallKeeps(h.package, a.call, a.room, Replay(c, h.queue));
      var e := Perform(h.package, a.call, a.room);
      if e.sent == [] {
        assert h.queue + e.sent == h.queue;
      } else {
        assert (h.queue + e.sent)[..|h.queue|] == h.queue;
        assert (h.sending + [a.call])[..|h.sending|] == h.sending;
      }
    }
  }

  /** A refused call is not undone: it takes effect with the next package that is sent,
      unless that package's own call uses the same mask. */
  lemma RefusedRidesAlong(p: Package, c: Controller, a: Call, b: Call)
    requires MasksZero(p) && Synced(p, c)
    requires Refused(p, a, false)
    requires Perform(Perform(p, a, false).package, b, true).sent != []
    ensures Apply(c, Perform(Perform(p, a, false).package, b, true).sent[0])
         == if !a.Register? && !b.Register? && MaskOf(a) == MaskOf(b) then Direct(c, b) else Direct(Direct(c, a), b)
  {
    hide Apply, Direct, PinToMask, Synced;
    var q := SetAll(p, Settings(a)).0;
    assert q == Perform(p, a, false).package;
    SentExactly(q, b, true, c);
    hide SetAll, Settings, Perform;
    Filled(p, a);
    IdleIsApplied(p, c);
    ClearedIdle(p, a);
    LoadedIsApplied(p, q, a, c);
    if !a.Register? && !b.Register? && MaskOf(a) == MaskOf(b) {
      LoweredAgain(p, q, a, b, c);
      IdleIsApplied(Cleared(q, b), c);
    } else if !b.Register? && MaskOf(b) in q {
      assert IsMask(MaskOf(b)) && !Touches(a, MaskOf(b));
      assert Cleared(q, b) == q;
    }
  }

  lemma LoweredAgain(p: Package, q: Package, a: Call, b: Call, c: Controller)
    requires MasksZero(p) && Synced(p, c) && Loaded(p, q, a)
    requires !a.Register? && !b.Register? && MaskOf(a) == MaskOf(b)
    ensures MasksZero(Cleared(q, b)) && Synced(Cleared(q, b), c)
  {
    hide PinToMask;
    var r := Cleared(q, b);
    forall f | f in p && IsMask(f) ensures r[f] == ZeroMask(f) {
      assert Touches(a, f) ==> f == MaskOf(a);
    }
    forall f | f in p && IsRegister(f) ensures r[f] == p[f] {
      assert !Touches(a, f);
    }
  }

  /** What a returned `true` is worth: nothing went out exactly when the recipe lists
      the mask of the call but not all of its other fields. */
  lemma TrueWithoutSending(p: Package, call: Call, room: bool)
    ensures var e := Perform(p, call, room);
            && (e.ok && e.sent == [] <==>
                  InRange(call) && !call.Register? && MaskOf(call) in p
                  && exists k :: 0 <= k < |Settings(call)| && Settings(call)[k].0 !in p)
            && (!e.ok ==> e.sent == [])
  {
    hide PinToMask, DomainBits;
    var first := Settings(call)[0].0;
    assert first == if call.Register? then call.f else MaskOf(call);
  }

  /** A recipe with the slider's mask and without its fraction: true, and nothing sent. */
  lemma SliderWithoutFraction()
    ensures var e := Perform(map[SliderMask := U32(0)], Slider(Num(0.5)), true);
            e.ok && e.sent == [] && e.package == map[SliderMask := U32(0)]
  {
    var p: Package := map[SliderMask := U32(0)];
    var call := Slider(Num(0.5));
    assert Settings(call)[1].0 !in p;
    TrueWithoutSending(p, call, true);
    Filled(p, call);
    assert Perform(p, call, true).package == p;
  }

  // ---------------------------------------------------------------------
  // Pins in numbers
  // ---------------------------------------------------------------------

  function Power(k: nat): (n: nat)
    ensures n > 0
  {
    if k == 0 then 1 else 2 * Power(k - 1)
  }

  /** Output `k` is on: digit `k` of the byte in binary. */
  predicate Lit(b: bv8, k: nat) { (b as nat / Power(k)) % 2 == 1 }

  lemma Powers()
    ensures Power(0) == 1 && Power(1) == 2 && Power(2) == 4 && Power(3) == 8
    ensures Power(4) == 16 && Power(5) == 32 && Power(6) == 64 && Power(7) == 128
  {
  }

  /** The mask of a pin is the power of two with its number, and there is none beyond the eighth. */
  lemma MaskIsPower(pin: nat)
    ensures PinToMask(pin) as nat == if pin <= 7 then Power(pin) else 0
  {
    Powers();
  }

  lemma Bit0(b: bv8)
    ensures (b as nat / 1) % 2 == 1 <==> b & 1 != 0
  {
  }

  lemma Bit1(b: bv8)
    ensures (b as nat / 2) % 2 == 1 <==> b & 2 != 0
  {
  }

  lemma Bit2(b: bv8)
    ensures (b as nat / 4) % 2 == 1 <==> b & 4 != 0
  {
  }

  lemma Bit3(b: bv8)
    ensures (b as nat / 8) % 2 == 1 <==> b & 8 != 0
  {
  }

  lemma Bit4(b: bv8)
    ensures (b as nat / 16) % 2 == 1 <==> b & 16 != 0
  {
  }

  lemma Bit5(b: bv8)
    ensures (b as nat / 32) % 2 == 1 <==> b & 32 != 0
  {
  }

  lemma Bit6(b: bv8)
    ensures (b as nat / 64) % 2 == 1 <==> b & 64 != 0
  {
  }

  lemma Bit7(b: bv8)
    ensures (b as nat / 128) % 2 == 1 <==> b & 128 != 0
  {
  }

  lemma LitIsMasked(b: bv8, k: nat)
    requires k <= 7
    ensures Lit(b, k) <==> b & PinToMask(k) != 0
  {
    Powers();
    hide Power;
    match k {
      case 0 => Bit0(b);
      case 1 => Bit1(b);
      case 2 => Bit2(b);
      case 3 => Bit3(b);
      case 4 => Bit4(b);
      case 5 => Bit5(b);
      case 6 => Bit6(b);
      case 7 => Bit7(b);
    }
  }

  lemma PinsApart(i: nat, j: nat)
    requires i <= 7 && j <= 7
    ensures PinToMask(i) != 0
    ensures i != j ==> PinToMask(i) & PinToMask(j) == 0
  {
    assert PinToMask(0) == 1 && PinToMask(1) == 2 && PinToMask(2) == 4 && PinToMask(3) == 8;
    assert PinToMask(4) == 16 && PinToMask(5) == 32 && PinToMask(6) == 64 && PinToMask(7) == 128;
  }

  lemma OtherBitsStay(was: bv8, m: bv8, n: bv8)
    ensures m & n == 0 ==> (was | m) & n == was & n && (was & !m) & n == was & n
    ensures m != 0 ==> (was | m) & m != 0
    ensures (was & !m) & m == 0
  {
  }

  lemma SetBitLights(was: bv8, pin: nat, on: bool, k: nat)
    requires pin <= 7 && k <= 7
    ensures Lit(SetBit(was, pin, on), k) == if k == pin then on else Lit(was, k)
  {
    hide Lit, PinToMask;
    LitIsMasked(was, k);
    LitIsMasked(SetBit(was, pin, on), k);
    PinsApart(pin, k);
    OtherBitsStay(was, PinToMask(pin), PinToMask(k));
  }

  /** What a digital call asks for: exactly the output with the pin's number in exactly its group. */
  lemma DirectLights(c: Controller, g: Group, pin: nat, on: bool, h: Group, k: nat)
    requires pin <= 7 && k <= 7
    ensures Lit(Output(Direct(c, Digital(g, pin, on)), h), k)
         == if h == g && k == pin then on else Lit(Output(c, h), k)
  {
    hide Lit, SetBit;
    SetBitLights(Output(c, g), pin, on, k);
  }

  /** The same of the package that a call sends, whatever else is in it: in the group of the call
      the controller switches that one output and no other. */
  lemma SentLights(p: Package, g: Group, pin: nat, on: bool, room: bool, c: Controller, k: nat)
    requires k <= 7
    ensures var e := Perform(p, Digital(g, pin, on), room);
            e.sent != [] ==>
              pin <= 7 && |e.sent| == 1
              && Lit(Output(Apply(c, e.sent[0]), g), k) == if k == pin then on else Lit(Output(c, g), k)
  {
    var call := Digital(g, pin, on);
    var e := Perform(p, call, room);
    if e.sent != [] {
      assert InRange(call) && pin <= 7;
      SentExactly(p, call, room, c);
      hide Perform, Lit;
      DirectLights(Apply(c, Cleared(p, call)), g, pin, on, g, k);
      ClearedOutput(p, call, c);
    }
  }

  lemma ClearedOutput(p: Package, call: Call, c: Controller)
    requires call.Digital?
    ensures Output(Apply(c, Cleared(p, call)), call.g) == Output(c, call.g)
  {
    hide Masked;
    var q := Cleared(p, call);
    assert Byte(q, DigitalMask(call.g)) == 0;
    NoBit(Output(c, call.g), Byte(q, DigitalValue(call.g)));
  }

  /** The analog domain that a call leaves in the package: the bit of its output for a voltage, none
      for a current, and what was there if the teach pendant decides. */
  lemma DomainLeft(p: Package, out: nat, level: Double, domain: AnalogOutputType)
    requires InRange(Analog(out, level, domain)) && AnalogDomain in p
    ensures var (q, complete) := SetAll(p, Settings(Analog(out, level, domain)));
            && AnalogDomain in q
            && (complete && domain.SetOnTeachPendant? ==> q[AnalogDomain] == p[AnalogDomain])
            && (complete && domain.Current? ==> q[AnalogDomain] == U8(0))
            && (complete && domain.Voltage? ==> q[AnalogDomain] == U8(if out == 0 then 1 else 2))
  {
    var s := Settings(Analog(out, level, domain));
    SettingsShape(Analog(out, level, domain));
    SetAllFrame(p, s);
    if SetAll(p, s).1 && !domain.SetOnTeachPendant? {
      SetAllAssigns(p, s);
      assert s[1] == (AnalogDomain, U8(DomainBits(out, domain)));
      assert PinToMask(0) == 1 && PinToMask(1) == 2;
    }
  }

  /** The arguments that calls accept, in numbers. */
  lemma AcceptedArguments(id: nat, x: real, on: bool, v: Value)
    ensures InRange(Digital(Standard, id, on)) <==> id < 8
    ensures InRange(Digital(Configurable, id, on)) <==> id < 8
    ensures InRange(Digital(Tool, id, on)) <==> id < 2
    ensures InRange(Slider(Num(x))) <==> 0.0 <= x <= 1.0
    ensures InRange(Slider(NaN)) && InRange(Analog(0, NaN, Voltage))
    ensures InRange(Analog(id, Num(x), Voltage)) <==> id < 2 && 0.0 <= x <= 1.0
    ensures InRange(Register(BitRegister(id), v)) <==> 64 <= id < 128
    ensures InRange(Register(IntRegister(id), v)) <==> 24 <= id < 48
    ensures InRange(Register(DoubleRegister(id), v)) <==> 24 <= id < 48
  {
  }
}
