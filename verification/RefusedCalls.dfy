/** Runs of the RTDE writer in which the queue may refuse any number of packages: what refused
    calls leave in the package, and when it reaches the robot. */
module RefusedCalls {
  import opened RtdeWriter

  /** The refused calls that still sit in the package: the latest for each mask, and registers. */
  datatype Waiting = Waiting(outputs: map<Field, Call>, registers: Package)

  datatype Journey = Journey(c: Controller, waiting: Waiting)

  predicate Listed(recipe: set<Field>, call: Call) {
    forall k :: 0 <= k < |Settings(call)| ==> Settings(call)[k].0 in recipe
  }

  function Board(w: Waiting, call: Call): Waiting {
    if call.Register? then w.(registers := w.registers[call.f := call.v])
    else w.(outputs := w.outputs[MaskOf(call) := call])
  }

  function Alight(w: Waiting, call: Call): Waiting {
    if call.Register? then w else w.(outputs := w.outputs - {MaskOf(call)})
  }

  function Ride(c: Controller, outputs: map<Field, Call>, mask: Field): Controller {
    if mask in outputs then Direct(c, outputs[mask]) else c
  }

  /** All that is waiting, carried out. */
  function Arrived(c: Controller, w: Waiting): Controller {
    var c0 := c.(registers := c.registers + w.registers);
    var c1 := Ride(c0, w.outputs, DigitalMask(Standard));
    var c2 := Ride(c1, w.outputs, DigitalMask(Configurable));
    var c3 := Ride(c2, w.outputs, DigitalMask(Tool));
    Ride(Ride(c3, w.outputs, AnalogMask), w.outputs, SliderMask)
  }

  /** What a run amounts to, without packages: a refused call waits, replacing one with its mask;
      a call that is sent takes everything that waits along, and the outputs among it go on
      waiting, to be carried out again; a call with a field missing only lowers its mask. */
  function Travel(recipe: set<Field>, c: Controller, run: seq<Attempt>): Journey {
    if run == [] then Journey(c, Waiting(map[], map[]))
    else
      var j := Travel(recipe, c, run[..|run| - 1]);
      Leg(recipe, j, run[|run| - 1])
  }

  function Leg(recipe: set<Field>, j: Journey, a: Attempt): Journey {
    if !InRange(a.call) then j
    else if !Listed(recipe, a.call) then
      if !a.call.Register? && MaskOf(a.call) in recipe then j.(waiting := Alight(j.waiting, a.call)) else j
    else
      var boarded := Board(j.waiting, a.call);
      if !a.room then j.(waiting := boarded)
      else Journey(Arrived(j.c, boarded), Alight(boarded, a.call).(registers := map[]))
  }

  // ---------------------------------------------------------------------
  // What the package holds
  // ---------------------------------------------------------------------

  /** Waiting outputs, each under its mask and still in the package. */
  ghost predicate OutputsWait(p: Package, outputs: map<Field, Call>) {
    forall m :: m in outputs ==>
      && IsMask(m) && m in p && InRange(outputs[m]) && !outputs[m].Register? && MaskOf(outputs[m]) == m
      && Carries(p, outputs[m])
  }

  ghost predicate OtherMasksZero(p: Package, outputs: map<Field, Call>) {
    forall m :: m in p && IsMask(m) && m !in outputs ==> p[m] == ZeroMask(m)
  }

  /** The robot holds every register of the recipe that is not waiting. */
  ghost predicate RegistersWait(p: Package, registers: Package, c: Controller) {
    && (forall f :: f in registers ==> IsRegister(f) && f in p)
    && (forall f :: f in p && IsRegister(f) ==>
          if f in registers then p[f] == registers[f] else f in c.registers && c.registers[f] == p[f])
  }

  ghost predicate Tidy(p: Package, w: Waiting, c: Controller) {
    OutputsWait(p, w.outputs) && OtherMasksZero(p, w.outputs) && RegistersWait(p, w.registers, c)
  }

  // A tidy package does to the robot what is waiting.

  lemma OutputArrives(p: Package, outputs: map<Field, Call>, c: Controller, g: Group)
    requires OutputsWait(p, outputs) && OtherMasksZero(p, outputs)
    ensures OutputApplied(c, p, g) ==
              var m := DigitalMask(g);
              if m in outputs then SetBit(Output(c, g), outputs[m].pin, outputs[m].on) else Output(c, g)
  {
    hide PinToMask, Masked, SetBit, Output;
    var m := DigitalMask(g);
    assert IsMask(m);
    if m in outputs {
      assert outputs[m].Digital? && outputs[m].g == g;
      OneBit(Output(c, g), outputs[m].pin, outputs[m].on);
    } else {
      NoBit(Output(c, g), Byte(p, DigitalValue(g)));
    }
  }

  lemma LevelArrives(p: Package, outputs: map<Field, Call>, level: Value, i: nat)
    requires OutputsWait(p, outputs) && OtherMasksZero(p, outputs) && i <= 1
    ensures LevelApplied(level, p, i) ==
              if AnalogMask in outputs && outputs[AnalogMask].out == i then F64(outputs[AnalogMask].level) else level
  {
    hide PinToMask, Overlap;
    assert IsMask(AnalogMask);
    if AnalogMask in outputs {
      var call := outputs[AnalogMask];
      assert call.Analog? && call.out <= 1;
      assert Byte(p, AnalogMask) == PinToMask(call.out);
      assert AnalogLevel(i) in p && p[AnalogLevel(i)] == F64(call.level) by {
        assert i == 0 || i == 1;
      }
      hide OutputsWait, Carries;
      PinBits(call.out, i);
    } else {
      NoSelection(p, i);
    }
  }

  lemma SliderArrives(p: Package, outputs: map<Field, Call>, slider: Value)
    requires OutputsWait(p, outputs) && OtherMasksZero(p, outputs)
    ensures SliderApplied(slider, p) == if SliderMask in outputs then F64(outputs[SliderMask].fraction) else slider
  {
    hide PinToMask;
    assert IsMask(SliderMask);
  }

  lemma RegistersArrive(p: Package, registers: Package, c: Controller)
    requires RegistersWait(p, registers, c)
    ensures c.registers + Registers(p) == c.registers + registers
  {
  }

  /** The calls' kinds, read off their masks. */
  ghost predicate Keyed(outputs: map<Field, Call>) {
    forall m :: m in outputs ==> !outputs[m].Register? && MaskOf(outputs[m]) == m && InRange(outputs[m])
  }

  lemma RideOutputs(c: Controller, outputs: map<Field, Call>)
    requires Keyed(outputs)
    ensures var c1 := Ride(c, outputs, DigitalMask(Standard));
            var c2 := Ride(c1, outputs, DigitalMask(Configurable));
            var c3 := Ride(c2, outputs, DigitalMask(Tool));
            && c3.level0 == c.level0 && c3.level1 == c.level1 && c3.slider == c.slider && c3.registers == c.registers
            && forall g: Group :: Output(c3, g) ==
                 var m := DigitalMask(g);
                 if m in outputs then SetBit(Output(c, g), outputs[m].pin, outputs[m].on) else Output(c, g)
  {
    hide SetBit, Ride, Keyed, Output;
    RideOne(c, outputs, Standard);
    var c1 := Ride(c, outputs, DigitalMask(Standard));
    RideOne(c1, outputs, Configurable);
    RideOne(Ride(c1, outputs, DigitalMask(Configurable)), outputs, Tool);
  }

  lemma RideOne(c: Controller, outputs: map<Field, Call>, g: Group)
    requires Keyed(outputs)
    ensures var m, c' := DigitalMask(g), Ride(c, outputs, DigitalMask(g));
            && c'.level0 == c.level0 && c'.level1 == c.level1 && c'.slider == c.slider && c'.registers == c.registers
            && (forall h: Group :: h != g ==> Output(c', h) == Output(c, h))
            && Output(c', g) ==
                 if m in outputs then SetBit(Output(c, g), outputs[m].pin, outputs[m].on) else Output(c, g)
  {
    hide SetBit, InRange;
    var m := DigitalMask(g);
    if m in outputs {
      assert outputs[m].Digital? && outputs[m].g == g;
      match g {
        case Standard =>
        case Configurable =>
        case Tool =>
      }
    }
  }

  lemma RideRest(c: Controller, outputs: map<Field, Call>)
    requires Keyed(outputs)
    ensures var c2 := Ride(Ride(c, outputs, AnalogMask), outputs, SliderMask);
            && (forall g: Group :: Output(c2, g) == Output(c, g)) && c2.registers == c.registers
            && c2.slider == (if SliderMask in outputs then F64(outputs[SliderMask].fraction) else c.slider)
            && c2.level0 ==
                 (if AnalogMask in outputs && outputs[AnalogMask].out == 0 then F64(outputs[AnalogMask].level)
                  else c.level0)
            && c2.level1 ==
                 (if AnalogMask in outputs && outputs[AnalogMask].out == 1 then F64(outputs[AnalogMask].level)
                  else c.level1)
  {
    hide SetBit;
  }

  lemma TidyArrives(p: Package, w: Waiting, c: Controller)
    requires Tidy(p, w, c)
    ensures Apply(c, p) == Arrived(c, w)
  {
    assert Keyed(w.outputs);
    var outputs := w.outputs;
    OutputArrives(p, outputs, c, Standard);
    OutputArrives(p, outputs, c, Configurable);
    OutputArrives(p, outputs, c, Tool);
    LevelArrives(p, outputs, c.level0, 0);
    LevelArrives(p, outputs, c.level1, 1);
    SliderArrives(p, outputs, c.slider);
    RegistersArrive(p, w.registers, c);
    var c0 := c.(registers := c.registers + w.registers);
    RideOutputs(c0, outputs);
    var c3 := Ride(Ride(Ride(c0, outputs, DigitalMask(Standard)), outputs, DigitalMask(Configurable)),
                   outputs, DigitalMask(Tool));
    RideRest(c3, outputs);
    var a := Arrived(c, w);
    assert a == Ride(Ride(c3, outputs, AnalogMask), outputs, SliderMask);
    hide Tidy, Keyed, Ride, OutputApplied, LevelApplied, SliderApplied, Registers, SetBit, Arrived;
    assert Output(a, Standard) == a.standard && Output(a, Configurable) == a.configurable && Output(a, Tool) == a.tool;
    assert Output(c0, Standard) == c.standard && Output(c0, Configurable) == c.configurable
        && Output(c0, Tool) == c.tool;
  }

  // ---------------------------------------------------------------------
  // Every call keeps the package tidy
  // ---------------------------------------------------------------------

  lemma LoadedKeepsOutputs(p: Package, r: Package, call: Call, w: Waiting)
    requires Loaded(p, r, call) && OutputsWait(p, w.outputs)
    ensures OutputsWait(r, Board(w, call).outputs)
  {
    hide PinToMask;
    var outputs := Board(w, call).outputs;
    LoadedCarries(p, r, call);
    hide Loaded, Carries, InRange;
    forall m | m in outputs ensures m in r && Carries(r, outputs[m]) && IsMask(m) {
      if call.Register? || m != MaskOf(call) {
        StillCarries(p, r, call, outputs[m]);
      } else {
        assert IsMask(MaskOf(call));
      }
    }
  }

  lemma LoadedCarries(p: Package, r: Package, call: Call)
    requires Loaded(p, r, call)
    ensures Carries(r, call) && InRange(call) && r.Keys == p.Keys && (!call.Register? ==> MaskOf(call) in r)
  {
    hide PinToMask;
  }

  lemma LoadedKeepsMasks(p: Package, r: Package, call: Call, w: Waiting)
    requires Loaded(p, r, call) && OtherMasksZero(p, w.outputs)
    ensures OtherMasksZero(r, Board(w, call).outputs)
  {
    hide PinToMask, Carries;
    forall m | m in r && IsMask(m) && m !in Board(w, call).outputs ensures r[m] == ZeroMask(m) {
      MaskUntouched(call, m);
    }
  }

  lemma MaskUntouched(call: Call, m: Field)
    requires IsMask(m) && InRange(call) && (call.Register? || m != MaskOf(call))
    ensures !Touches(call, m)
  {
  }

  lemma StillCarries(p: Package, r: Package, call: Call, other: Call)
    requires Loaded(p, r, call) && InRange(other) && !other.Register? && Carries(p, other)
    requires call.Register? || MaskOf(call) != MaskOf(other)
    ensures Carries(r, other)
  {
    hide PinToMask;
    match other
    case Slider(_) => assert !Touches(call, SliderMask) && !Touches(call, SliderFraction);
    case Digital(g, _, _) => assert !Touches(call, DigitalMask(g)) && !Touches(call, DigitalValue(g));
    case Analog(_, _, _) =>
      assert !Touches(call, AnalogMask) && !Touches(call, AnalogLevel(0)) && !Touches(call, AnalogLevel(1));
  }

  lemma LoadedKeepsRegisters(p: Package, r: Package, call: Call, w: Waiting, c: Controller)
    requires Loaded(p, r, call) && RegistersWait(p, w.registers, c)
    ensures RegistersWait(r, Board(w, call).registers, c)
  {
    hide PinToMask;
    forall f | f in r && IsRegister(f)
      ensures r[f] == if call.Register? && f == call.f then call.v else p[f]
    {
      assert Touches(call, f) ==> call.Register? && f == call.f;
    }
  }

  lemma ClearedKeeps(p: Package, w: Waiting, c: Controller, call: Call)
    requires Tidy(p, w, c)
    ensures Tidy(Cleared(p, call), Alight(w, call), c)
  {
    if !call.Register? {
      var q, outputs := Cleared(p, call), Alight(w, call).outputs;
      assert IsMask(MaskOf(call));
      forall m | m in outputs ensures m in q && Carries(q, outputs[m]) {
        MaskOnly(p, call, outputs[m]);
      }
      forall m | m in q && IsMask(m) && m !in outputs ensures q[m] == ZeroMask(m) {
      }
    }
  }

  lemma MaskOnly(p: Package, call: Call, other: Call)
    requires !call.Register? && !other.Register? && MaskOf(call) != MaskOf(other) && Carries(p, other)
    ensures Carries(Cleared(p, call), other)
  {
    hide PinToMask;
  }

  /** The registers that went out are no longer waiting. */
  lemma Landed(p: Package, w: Waiting, c: Controller)
    requires Tidy(p, w, c)
    ensures Tidy(p, w.(registers := map[]), Arrived(c, w))
  {
    hide Carries, Direct;
    assert Arrived(c, w).registers == c.registers + w.registers by {
      ArrivedRegisters(c, w);
    }
  }

  lemma ArrivedRegisters(c: Controller, w: Waiting)
    requires Keyed(w.outputs)
    ensures Arrived(c, w).registers == c.registers + w.registers
  {
    var c0 := c.(registers := c.registers + w.registers);
    RideOutputs(c0, w.outputs);
    RideRest(Ride(Ride(Ride(c0, w.outputs, DigitalMask(Standard)), w.outputs, DigitalMask(Configurable)),
                  w.outputs, DigitalMask(Tool)), w.outputs);
    hide Ride;
  }

  /** One call, whatever became of it. */
  lemma LegKeeps(p: Package, j: Journey, a: Attempt)
    requires Tidy(p, j.waiting, j.c)
    ensures var e, j' := Perform(p, a.call, a.room), Leg(p.Keys, j, a);
            && e.package.Keys == p.Keys && Tidy(e.package, j'.waiting, j'.c)
            && (if e.sent == [] then j'.c == j.c else |e.sent| == 1 && Apply(j.c, e.sent[0]) == j'.c)
  {
    hide Tidy, Arrived, Apply, Carries, PinToMask;
    var call := a.call;
    if InRange(call) {
      Filled(p, call);
      var (r, complete) := SetAll(p, Settings(call));
      assert complete <==> Listed(p.Keys, call);
      hide SetAll, Settings;
      if complete {
        var w := Board(j.waiting, call);
        LoadedKeeps(p, r, call, j);
        if a.room {
          TidyArrives(r, w, j.c);
          Landed(r, w, j.c);
          ClearedKeeps(r, w.(registers := map[]), Arrived(j.c, w), call);
        }
      } else if !call.Register? && MaskOf(call) in p {
        PartlyLoadedKeeps(p, r, call, j);
      }
    }
  }

  lemma LoadedKeeps(p: Package, r: Package, call: Call, j: Journey)
    requires Loaded(p, r, call) && Tidy(p, j.waiting, j.c)
    ensures Tidy(r, Board(j.waiting, call), j.c)
  {
    hide Loaded, OutputsWait, OtherMasksZero, RegistersWait;
    LoadedKeepsOutputs(p, r, call, j.waiting);
    LoadedKeepsMasks(p, r, call, j.waiting);
    LoadedKeepsRegisters(p, r, call, j.waiting, j.c);
  }

  /** `r` is `p` with some of the fields of `call` set. */
  ghost predicate Partly(p: Package, r: Package, call: Call) {
    && InRange(call) && !call.Register? && r.Keys == p.Keys
    && forall f :: f in p && !Touches(call, f) ==> r[f] == p[f]
  }

  lemma PartlyLoadedKeeps(p: Package, r: Package, call: Call, j: Journey)
    requires Partly(p, r, call) && MaskOf(call) in p && Tidy(p, j.waiting, j.c)
    ensures Tidy(Cleared(r, call), Alight(j.waiting, call), j.c)
  {
    hide Partly, OutputsWait, OtherMasksZero, RegistersWait, Cleared;
    PartlyKeepsOutputs(p, r, call, j.waiting);
    PartlyKeepsMasks(p, r, call, j.waiting);
    PartlyKeepsRegisters(p, r, call, j.waiting, j.c);
  }

  lemma PartlyKeepsOutputs(p: Package, r: Package, call: Call, w: Waiting)
    requires Partly(p, r, call) && OutputsWait(p, w.outputs)
    ensures OutputsWait(Cleared(r, call), Alight(w, call).outputs)
  {
    hide PinToMask;
    var q, outputs := Cleared(r, call), Alight(w, call).outputs;
    assert q.Keys == p.Keys;
    hide Cleared, Carries, InRange;
    forall m | m in outputs ensures Carries(q, outputs[m]) {
      PartlyCarries(p, r, call, outputs[m]);
    }
  }

  lemma PartlyKeepsMasks(p: Package, r: Package, call: Call, w: Waiting)
    requires Partly(p, r, call) && OtherMasksZero(p, w.outputs) && MaskOf(call) in p
    ensures OtherMasksZero(Cleared(r, call), Alight(w, call).outputs)
  {
    var q, outputs := Cleared(r, call), Alight(w, call).outputs;
    forall m | m in q && IsMask(m) && m !in outputs ensures q[m] == ZeroMask(m) {
      if m != MaskOf(call) {
        MaskUntouched(call, m);
      }
    }
  }

  lemma PartlyKeepsRegisters(p: Package, r: Package, call: Call, w: Waiting, c: Controller)
    requires Partly(p, r, call) && RegistersWait(p, w.registers, c)
    ensures RegistersWait(Cleared(r, call), Alight(w, call).registers, c)
  {
    var q := Cleared(r, call);
    assert q.Keys == p.Keys;
    forall f | f in p && IsRegister(f) ensures q[f] == p[f] {
      assert !Touches(call, f);
    }
  }

  lemma PartlyCarries(p: Package, r: Package, call: Call, other: Call)
    requires Partly(p, r, call)
    requires InRange(other) && !other.Register? && MaskOf(call) != MaskOf(other) && Carries(p, other)
    ensures Carries(Cleared(r, call), other)
  {
    hide PinToMask;
    match other {
      case Slider(_) => assert !Touches(call, SliderMask) && !Touches(call, SliderFraction);
      case Digital(g, _, _) => assert !Touches(call, DigitalMask(g)) && !Touches(call, DigitalValue(g));
      case Analog(_, _, _) =>
        assert !Touches(call, AnalogMask) && !Touches(call, AnalogLevel(0)) && !Touches(call, AnalogLevel(1));
    }
    MaskOnly(r, call, other);
  }

  /** Every run, with any pattern of refused packages: replaying the queue gives what the run
      amounts to when the latest refused call of each mask and all refused registers ride along
      with whatever is sent next. */
  lemma {:induction false} ReplayIsJourney(initial: Package, run: seq<Attempt>, c: Controller)
    requires MasksZero(initial) && Synced(initial, c)
    ensures var h, j := Play(initial, run), Travel(initial.Keys, c, run);
            Replay(c, h.queue) == j.c && h.package.Keys == initial.Keys && Tidy(h.package, j.waiting, j.c)
  {
    if run != [] {
      hide Tidy, Perform, Leg, Apply, MasksZero, Synced;
      var shorter, a := run[..|run| - 1], run[|run| - 1];
      ReplayIsJourney(initial, shorter, c);
      var h, j := Play(initial, shorter), Travel(initial.Keys, c, shorter);
      LegKeeps(h.package, j, a);
      var e := Perform(h.package, a.call, a.room);
      if e.sent == [] {
        assert h.queue + e.sent == h.queue;
      } else {
        assert (h.queue + e.sent)[..|h.queue|] == h.queue;
      }
    }
  }

  /** With nothing waiting a call that is sent arrives alone. */
  lemma ArrivesAlone(c: Controller, call: Call)
    requires InRange(call)
    ensures Arrived(c, Board(Waiting(map[], map[]), call)) == Direct(c, call)
  {
    hide SetBit;
    assert c.registers + map[] == c.registers;
  }

  /** A run of the writer object is a run of the model. */
  method SendAll(writer: Writer, run: seq<Attempt>)
    requires forall k :: 0 <= k < |run| && run[k].call.Register? ==> IsRegister(run[k].call.f)
    modifies writer
    ensures var h := Play(old(writer.package), run);
            writer.package == h.package && writer.queue == old(writer.queue) + h.queue
  {
    hide Perform;
    ghost var initial, before := writer.package, writer.queue;
    for k := 0 to |run|
      invariant var h := Play(initial, run[..k]); writer.package == h.package && writer.queue == before + h.queue
    {
      ghost var h := Play(initial, run[..k]);
      assert run[..k + 1][..k] == run[..k];
      var _ := writer.Send(run[k].call, run[k].room);
      assert before + h.queue + Perform(h.package, run[k].call, run[k].room).sent
          == before + (h.queue + Perform(h.package, run[k].call, run[k].room).sent);
    }
    assert run[..|run|] == run;
  }
}
