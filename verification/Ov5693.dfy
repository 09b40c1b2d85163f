// The OV5693 driver's device state (dkms/ov5693-surface/ov5693.c): pads,
// controls, runtime power and the sensor's registers, step by step.
module Ov5693 {
  import opened Numbers
  import opened Wrappers
  import opened Ov5693Format
  import opened Ov5693Registers
  import C = Controls

  const MARGIN: int := 8
  const MAX_VTS: int := 0xffff
  const MIN_VTS: int := 0x04

  // ----------------------------------------------------------- the control values

  // The ranges that never change; HBLANK is the driver's own and read-only.
  ghost predicate Ranges(c: Ctrls) {
    && Complete(c)
    && (forall id: Id :: id != HBlank ==> C.Valid(c[id]))
    && c[Exposure].min == 1
    && c[AnalogueGain].min == 1 && c[AnalogueGain].max == 127
    && c[DigitalGain].min == 1 && c[DigitalGain].max == 4095
    && c[HFlip].min == 0 && c[HFlip].max == 1
    && c[VFlip].min == 0 && c[VFlip].max == 1
    && c[VBlank].min == MIN_VTS
    && c[TestPattern].min == 0 && c[TestPattern].max == 3
  }

  // What a blanking leaves for the exposure, while it leaves a line at all.
  ghost predicate Ceiling(c: Ctrls, height: int)
    requires Complete(c)
  {
    && c[VBlank].max == MAX_VTS - height
    && c[Exposure].max <= MAX_VTS - MARGIN
    && (height + c[VBlank].val >= MARGIN + 1 ==> c[Exposure].max == height + c[VBlank].val - MARGIN)
  }

  // A range change as the framework makes it, the value committed.
  function Ranged(c: Ctrls, id: Id, min: int, max: int, def: int): Ctrls
    requires id in c
  {
    match C.ModifyRange(c[id], min, max, def)
    case None => c
    case Some(x) => c[id := x]
  }

  // s_ctrl on VBLANK adjusts the exposure range first.
  function Stepped(c: Ctrls, height: int, id: Id, v: int): Ctrls
    requires Exposure in c
  {
    if id != VBlank then c
    else
      var max := height + v - MARGIN;
      Ranged(c, Exposure, c[Exposure].min, max, Min(c[Exposure].val, max))
  }

  // The registers after s_ctrl in use: the exposure's only if its value moved.
  function Wrote(r: Regs, m: Mode, before: Ctrls, after: Ctrls, id: Id, v: int): Regs
    requires Exposure in before && Exposure in after
  {
    var q := if before[Exposure].val == after[Exposure].val then r else Put(r, m, Exposure, after[Exposure].val);
    Put(q, m, id, v)
  }

  // A control given a new range and, within it, perhaps a new value: the value
  // of HBLANK stays behind when s_ctrl refuses it.
  function Moved(c: Ctrls, height: int, id: Id, x: C.Control, inUse: bool): Ctrls
    requires Exposure in c && id in c
  {
    var wide := c[id := C.Control(x.min, x.max, c[id].val)];
    if x.val == c[id].val || (inUse && id == HBlank) then wide
    else Stepped(wide, height, id, x.val)[id := x]
  }

  function MovedRegs(r: Regs, m: Mode, c: Ctrls, id: Id, x: C.Control): Regs
    requires Exposure in c && id in c
  {
    var wide := c[id := C.Control(x.min, x.max, c[id].val)];
    if x.val == c[id].val then r
    else Wrote(r, m, wide, Stepped(wide, m.size.height, id, x.val), id, x.val)
  }

  lemma StepFrame(c: Ctrls, height: int, id: Id, v: int)
    requires Complete(c)
    ensures Complete(Stepped(c, height, id, v))
    ensures forall k: Id :: k != Exposure ==> Stepped(c, height, id, v)[k] == c[k]
    ensures id != VBlank ==> Stepped(c, height, id, v) == c
  {
  }

  // A committed s_ctrl keeps ranges, ceiling and agreement.
  lemma StepKeepsRanges(c: Ctrls, height: int, id: Id, v: int)
    requires Ranges(c) && id != HBlank && c[id].min <= v <= c[id].max
    ensures var after := Stepped(c, height, id, v);
            && Ranges(after) && Ranges(after[id := after[id].(val := v)])
            && (Ceiling(c, height) ==> Ceiling(after[id := after[id].(val := v)], height))
  {
    StepFrame(c, height, id, v);
  }

  lemma AcceptedInRange(c: Ctrls, id: Id, v: int)
    requires Ranges(c) && id != HBlank
    ensures Complete(c) && c[id].min <= C.Accepted(c[id], v) <= c[id].max
    ensures id == TestPattern ==> 0 <= C.Accepted(c[id], v) <= 3
  {
  }

  lemma StepKeepsAgreement(r: Regs, m: Mode, c: Ctrls, id: Id, v: int, yOffset: int)
    requires Complete(c) && Bits(r, m, yOffset)
    ensures Complete(Stepped(c, m.size.height, id, v))
    ensures var after := Stepped(c, m.size.height, id, v);
            var q := Wrote(r, m, c, after, id, v);
            && Bits(q, m, yOffset) && Agrees(q, m, id, v)
            && forall k: Id :: k != id && Agrees(r, m, k, c[k].val) ==> Agrees(q, m, k, after[k].val)
  {
    hide Put, Agrees, Bits;
    StepFrame(c, m.size.height, id, v);
    var after := Stepped(c, m.size.height, id, v);
    hide Stepped;
    var e := after[Exposure].val;
    var mid := if c[Exposure].val == e then r else Put(r, m, Exposure, e);
    PutAgrees(r, m, Exposure, e, yOffset);
    PutAgrees(mid, m, id, v, yOffset);
    forall k: Id | k != id && Agrees(r, m, k, c[k].val)
      ensures Agrees(Put(mid, m, id, v), m, k, after[k].val)
    {
      if k != Exposure {
        PutKeepsOthers(r, m, Exposure, e, k, c[k].val);
      }
      PutKeepsOthers(mid, m, id, v, k, after[k].val);
    }
  }

  // Committing a value makes every control agree again.
  lemma CommitAgrees(r: Regs, m: Mode, c: Ctrls, id: Id, x: C.Control, yOffset: int)
    requires Complete(c) && Bits(r, m, yOffset) && AllAgree(r, m, c)
    ensures Complete(Stepped(c, m.size.height, id, x.val))
    ensures var after := Stepped(c, m.size.height, id, x.val);
            var q := Wrote(r, m, c, after, id, x.val);
            Bits(q, m, yOffset) && AllAgree(q, m, after[id := x])
  {
    hide Stepped, Wrote, Agrees, Bits;
    StepKeepsAgreement(r, m, c, id, x.val, yOffset);
  }

  // So does a range change, whether its value is taken or refused.
  lemma MoveAgrees(r: Regs, m: Mode, c: Ctrls, id: Id, x: C.Control, yOffset: int)
    requires Complete(c) && Bits(r, m, yOffset) && AllAgree(r, m, c)
    ensures Complete(Moved(c, m.size.height, id, x, true))
    ensures Bits(MovedRegs(r, m, c, id, x), m, yOffset)
    ensures AllAgree(MovedRegs(r, m, c, id, x), m, Moved(c, m.size.height, id, x, true))
  {
    hide Bits, Wrote, Stepped;
    var wide := c[id := C.Control(x.min, x.max, c[id].val)];
    hide Agrees;
    assert AllAgree(r, m, wide) by {
      assert forall k: Id :: wide[k].val == c[k].val;
    }
    CommitAgrees(r, m, wide, id, x, yOffset);
    StepFrame(wide, m.size.height, id, x.val);
    if id == HBlank {
      RefusedAgrees(r, m, wide, x.val);
    }
  }

  lemma RefusedAgrees(r: Regs, m: Mode, c: Ctrls, v: int)
    requires Complete(c)
    ensures Wrote(r, m, c, Stepped(c, m.size.height, HBlank, v), HBlank, v) == r
  {
  }

  // One control of the set-up: its own value again.
  lemma SetupStep(r: Regs, m: Mode, c: Ctrls, id: Id, kept: bool, done: seq<Id>, yOffset: int)
    requires Ranges(c) && id != HBlank
    requires kept ==> Bits(r, m, yOffset) && forall k: Id :: k in done ==> Agrees(r, m, k, c[k].val)
    ensures var after := Stepped(c, m.size.height, id, c[id].val);
            var q := Wrote(r, m, c, after, id, c[id].val);
            && Ranges(after) && (Ceiling(c, m.size.height) ==> Ceiling(after, m.size.height))
            && (kept ==> Bits(q, m, yOffset) && forall k: Id :: k in done + [id] ==> Agrees(q, m, k, after[k].val))
  {
    hide Stepped, Wrote, Bits, Agrees, Ranges, Ceiling;
    InItsRange(c, id);
    StepKeepsRanges(c, m.size.height, id, c[id].val);
    StepFrame(c, m.size.height, id, c[id].val);
    var after := Stepped(c, m.size.height, id, c[id].val);
    assert after[id].val == c[id].val;
    assert after[id := after[id].(val := c[id].val)] == after;
    if kept {
      StepKeepsAgreement(r, m, c, id, c[id].val, yOffset);
    }
  }

  lemma InItsRange(c: Ctrls, id: Id)
    requires Ranges(c) && id != HBlank
    ensures Complete(c) && c[id].min <= c[id].val <= c[id].max && (id == TestPattern ==> 0 <= c[id].val <= 3)
  {
  }

  lemma BinningBits(m: Mode)
    ensures UpdateBits(0x00, 0x01, if m.binY then 0x01 else 0) & !0x42 == if m.binY then 0x01 else 0x00
    ensures UpdateBits(0x1e, 0x01, if m.binX then 0x01 else 0) & !0x06 == if m.binX then 0x19 else 0x18
  {
  }

  // The default timing of a size. HBLANK has the one value of its range, unless
  // the device is in use: then it keeps the old one.
  ghost predicate Timed(c: Ctrls, d: Ctrls, size: Size, inUse: bool)
    requires Complete(c) && Complete(d)
  {
    var hblank := FIXED_PPL - size.width;
    && d[VBlank] == C.Control(MIN_VTS, MAX_VTS - size.height, VTS - size.height)
    && d[Exposure] == C.Control(1, VTS - MARGIN, Min(c[Exposure].val, VTS - MARGIN))
    && d[HBlank] == C.Control(hblank, hblank, if inUse then c[HBlank].val else hblank)
    && forall k: Id :: k !in {VBlank, Exposure, HBlank} ==> d[k] == c[k]
  }

  // A second set_fmt of the same size moves no control.
  lemma TimingIsIdempotent(c: Ctrls, d: Ctrls, e: Ctrls, size: Size, inUse: bool)
    requires Complete(c) && Complete(d) && Complete(e)
    requires Timed(c, d, size, inUse) && Timed(d, e, size, inUse)
    ensures d == e
  {
    forall k: Id
      ensures d[k] == e[k]
    {
      assert k !in {VBlank, Exposure, HBlank} ==> e[k] == d[k];
    }
  }

  // On the way to the default timing: the exposure is where it was, or on its
  // way down to the default ceiling; only the timing controls move.
  ghost predicate Retiming(c: Ctrls, d: Ctrls) {
    && Complete(c) && Complete(d) && Ranges(d)
    && Min(d[Exposure].val, VTS - MARGIN) == Min(c[Exposure].val, VTS - MARGIN)
    && forall k: Id :: k !in {VBlank, Exposure, HBlank} ==> d[k] == c[k]
  }

  lemma RetimedRange(c: Ctrls, h: int, inUse: bool)
    requires Ranges(c) && 0 < h <= NATIVE_HEIGHT
    ensures Complete(c) && C.ModifyRange(c[VBlank], MIN_VTS, MAX_VTS - h, VTS - h).Some?
    ensures var d := Moved(c, h, VBlank, C.ModifyRange(c[VBlank], MIN_VTS, MAX_VTS - h, VTS - h).value, inUse);
            Retiming(c, d) && d[VBlank].max == MAX_VTS - h && d[HBlank] == c[HBlank]
  {
  }

  lemma RetimedValue(c: Ctrls, d: Ctrls, h: int)
    requires Retiming(c, d) && 0 < h <= NATIVE_HEIGHT && d[VBlank].max == MAX_VTS - h
    ensures Ranges(d) && C.Accepted(d[VBlank], VTS - h) == VTS - h
    ensures var x := d[VBlank].(val := VTS - h);
            var e := if x == d[VBlank] then d else Stepped(d, h, VBlank, VTS - h)[VBlank := x];
            Retiming(c, e) && e[VBlank] == C.Control(MIN_VTS, MAX_VTS - h, VTS - h) && e[HBlank] == d[HBlank]
  {
  }

  lemma RetimedLine(c: Ctrls, d: Ctrls, h: int, hblank: int, inUse: bool)
    requires Retiming(c, d)
    ensures C.ModifyRange(d[HBlank], hblank, hblank, hblank).Some?
    ensures var e := Moved(d, h, HBlank, C.ModifyRange(d[HBlank], hblank, hblank, hblank).value, inUse);
            Retiming(c, e) && e == d[HBlank := C.Control(hblank, hblank, if inUse then d[HBlank].val else hblank)]
  {
  }

  lemma RetimedExposure(c: Ctrls, d: Ctrls, size: Size, inUse: bool)
    requires Retiming(c, d) && size.height > 0
    requires d[VBlank] == C.Control(MIN_VTS, MAX_VTS - size.height, VTS - size.height)
    requires var hblank := FIXED_PPL - size.width;
             d[HBlank] == C.Control(hblank, hblank, if inUse then c[HBlank].val else hblank)
    ensures d[Exposure].min == 1
    ensures C.ModifyRange(d[Exposure], 1, VTS - MARGIN, Min(d[Exposure].val, VTS - MARGIN)).Some?
    ensures var x := C.ModifyRange(d[Exposure], 1, VTS - MARGIN, Min(d[Exposure].val, VTS - MARGIN)).value;
            var e := Moved(d, size.height, Exposure, x, inUse);
            Complete(e) && Ranges(e) && Timed(c, e, size, inUse) && Ceiling(e, size.height)
  {
  }

  lemma ScaledSizes(crop: Rect, width: int, height: int)
    requires Sane(crop) && 0 <= width < 0x1_0000_0000 && 0 <= height < 0x1_0000_0000
    requires Ratios(crop, width, height).Some?
    ensures var r := Ratios(crop, width, height).value;
            && r.0 in {1, 2} && r.1 in {1, 2}
            && var s := Scaled(crop, r);
            && 0 < s.width <= NATIVE_WIDTH && 0 < s.height <= NATIVE_HEIGHT
            && (r.0 > 1 <==> s.width < crop.width) && (r.1 > 1 <==> s.height < crop.height)
  {
    FaultsExactlyOnEmptyCrop(crop, width, height);
    CropOrHalf(crop.width, width);
    CropOrHalf(crop.height, height);
    hide Ratio;
  }

  // The exposure ceiling is exactly height + vblank - 8 where that leaves a line
  // at all; below nine lines the range change fails and the old ceiling stays.
  lemma CeilingIsExact(c: Ctrls, height: int)
    requires Ranges(c) && Ceiling(c, height)
    ensures c[Exposure].max == height + c[VBlank].val - MARGIN <==> height + c[VBlank].val >= MARGIN + 1
    ensures 1 <= c[Exposure].val <= c[Exposure].max
    ensures height + MIN_VTS <= height + c[VBlank].val <= MAX_VTS
  {
  }

  // A height of five lines or more never meets that failure; two to four do at
  // the shortest blanking.
  lemma CeilingNeverFailsFromFiveLines(c: Ctrls, height: int)
    requires Ranges(c) && Ceiling(c, height)
    ensures height >= 5 ==> c[Exposure].max == height + c[VBlank].val - MARGIN
    ensures height < 5 && c[VBlank].val == MIN_VTS ==> c[Exposure].max != height + c[VBlank].val - MARGIN
  {
  }

  // ------------------------------------------------------------------ the device

  // A pad after set_selection.
  ghost predicate Reselected(was: Pad, rect: Rect, now: Pad) {
    && now.crop == rect
    && now.size == if (rect.width, rect.height) == (was.crop.width, was.crop.height) then was.size
                   else Size(rect.width, rect.height)
  }

  lemma OneShotReadsBack(m: Mode, c: Ctrls, yOffset: int)
    requires Ranges(c) && Ceiling(c, m.size.height) && 0 <= m.size.height
    ensures var r := OneShot(m, c, yOffset);
            && r.vts == m.size.height + c[VBlank].val && r.exposure / 16 == c[Exposure].val
            && r.gain / 16 == c[AnalogueGain].val && r.red == r.green == r.blue == c[DigitalGain].val
  {
    CeilingIsExact(c, m.size.height);
    assert C.Valid(c[AnalogueGain]) && C.Valid(c[DigitalGain]) && C.Valid(c[Exposure]);
    ReadsBack(m, c, yOffset);
  }

  // What user space and runtime PM do to the driver.
  datatype Op =
    | Fmt(active: bool, width: int, height: int)
    | Select(active: bool, sel: Rect)
    | SetTo(id: Id, v: int)
    | On
    | Off
    | Idle

  ghost predicate OpOk(op: Op) {
    match op
    case Fmt(_, w, h) => 0 <= w < 0x1_0000_0000 && 0 <= h < 0x1_0000_0000
    case Select(_, sel) => InTypes(sel)
    case SetTo(id, _) => id != HBlank
    case _ => true
  }

  ghost predicate ChangesActive(op: Op) {
    (op.Fmt? || op.Select?) && op.active
  }

  // The i-th is an active set_fmt with no active crop behind it.
  ghost predicate FormatLast(ops: seq<Op>, i: int) {
    0 <= i < |ops| && ops[i].Fmt? && ops[i].active && forall j :: i < j < |ops| ==> !(ops[j].Select? && ops[j].active)
  }

  ghost predicate Formatted(ops: seq<Op>) {
    exists i :: FormatLast(ops, i)
  }

  lemma LastGrows(ops: seq<Op>, i: nat)
    requires i < |ops|
    ensures Formatted(ops[..i + 1]) ==>
              (ops[i].Fmt? && ops[i].active) || (Formatted(ops[..i]) && !(ops[i].Select? && ops[i].active))
  {
    if Formatted(ops[..i + 1]) {
      var j :| FormatLast(ops[..i + 1], j);
      assert j < i ==> FormatLast(ops[..i], j);
    }
  }

  datatype Pad = Pad(crop: Rect, size: Size)

  // The order the controls were created in, without the read-only one.
  function SetupOrder(): (order: seq<Id>)
    ensures HBlank !in order
  {
    [Exposure, AnalogueGain, DigitalGain, HFlip, VFlip, VBlank, TestPattern]
  }

  lemma HBlankAgrees(r: Regs, m: Mode, v: int)
    ensures Agrees(r, m, HBlank, v)
  {
  }

  lemma SetupCoversAll()
    ensures forall k: Id :: k == HBlank || k in SetupOrder()
  {
    forall k: Id
      ensures k == HBlank || k in SetupOrder()
    {
      var o := SetupOrder();
      assert o[0] == Exposure && o[1] == AnalogueGain && o[2] == DigitalGain && o[3] == HFlip;
      assert o[4] == VFlip && o[5] == VBlank && o[6] == TestPattern;
      match k {
        case Exposure =>
        case AnalogueGain =>
        case DigitalGain =>
        case HFlip =>
        case VFlip =>
        case VBlank =>
        case TestPattern =>
        case HBlank =>
      }
    }
  }

  function InitialCtrls(width: int, height: int, vts: int): Ctrls {
    map[
      Exposure := C.Control(1, vts - MARGIN, vts - MARGIN), AnalogueGain := C.Control(1, 127, 8),
      DigitalGain := C.Control(1, 4095, 1024), HFlip := C.Control(0, 1, 0), VFlip := C.Control(0, 1, 0),
      HBlank := C.Control(FIXED_PPL - width, FIXED_PPL - width, FIXED_PPL - width),
      VBlank := C.Control(MIN_VTS, MAX_VTS - height, vts - height), TestPattern := C.Control(0, 3, 0)]
  }

  lemma InitialRanges()
    ensures Ranges(InitialCtrls(2592, 1944, VTS)) && Ceiling(InitialCtrls(2592, 1944, VTS), 1944)
  {
    var c := InitialCtrls(2592, 1944, VTS);
    forall id: Id
      ensures id in c && C.Valid(c[id])
    {
      match id {
        case Exposure =>
        case AnalogueGain =>
        case DigitalGain =>
        case HFlip =>
        case VFlip =>
        case VBlank =>
        case TestPattern =>
        case HBlank =>
      }
    }
  }

  class Sensor {
    const yOffset: int      // module parameter binned_y_offset
    var mode: Mode
    var tryPad: Pad
    var ctrls: Ctrls
    var powered: bool
    var inUse: bool         // runtime PM: a user holds the device
    var regs: Regs

    // The active mode is what it was when the sensor was last initialised.
    ghost var kept: bool
    // No crop of another height was selected since the last active set_fmt.
    ghost var synced: bool
    // The active mode is what an active set_fmt left.
    ghost var fitted: bool

    ghost predicate ModeOk()
      reads this`mode
    {
      Sane(mode.crop) && 0 <= mode.size.width <= NATIVE_WIDTH && 0 <= mode.size.height <= NATIVE_HEIGHT
    }

    // Binning and increments are those of the two sizes.
    ghost predicate Fits()
      reads this`mode
    {
      && mode.binX == (mode.size.width < mode.crop.width) && mode.binY == (mode.size.height < mode.crop.height)
      && mode.incX == (if mode.size.width < mode.crop.width then 3 else 1)
      && mode.incY == (if mode.size.height < mode.crop.height then 3 else 1)
    }

    ghost predicate Programmed()
      reads this`mode, this`regs, this`powered, this`kept, this`inUse, this`ctrls
      requires Complete(ctrls)
    {
      && (inUse ==> powered)
      && (powered && kept ==> Bits(regs, mode, yOffset))
      && (inUse && kept ==> AllAgree(regs, mode, ctrls))
    }

    ghost predicate Valid()
      reads this
    {
      && ModeOk() && Ranges(ctrls) && Sane(tryPad.crop)
      && (synced ==> Ceiling(ctrls, mode.size.height))
      && (fitted ==> Fits())
      && Programmed()
    }

    // probe: the default mode, the first control ranges, powered and not yet
    // initialised.
    constructor (yOffset: int)
      ensures Valid() && synced && !inUse
      ensures mode.vts == VTS && mode.size == Size(2592, 1944) && mode.crop == Rect(16, 6, 2592, 1944)
      ensures ctrls[Exposure].val == ctrls[Exposure].max == 2070 && ctrls[VBlank].val == 134
      ensures ctrls[AnalogueGain].val == 8 && ctrls[DigitalGain].val == 1024
      ensures ctrls[HFlip].val == ctrls[VFlip].val == ctrls[TestPattern].val == 0
    {
      this.yOffset := yOffset;
      VtsIsConstant(1944);
      var vts := CalcVts(1944).value;
      mode := Mode(Rect(16, 6, 2592, 1944), Size(2592, 1944), false, false, 0, 0, vts);
      tryPad := Pad(Rect(16, 6, 2592, 1944), Size(2592, 1944));
      ctrls := InitialCtrls(2592, 1944, vts);
      InitialRanges();
      powered, inUse, kept, synced, fitted := true, false, false, true, false;
      regs := *;
    }

    // ------------------------------------------------------------ controls

    method FlipVertConfigure(enable: bool)
      modifies this`regs
      ensures regs == Put(old(regs), mode, VFlip, if enable then 1 else 0)
    {
      regs := regs.(format1 := UpdateBits(regs.format1, 0x42, if enable then VertBits(mode) else 0));
    }

    method FlipHorzConfigure(enable: bool)
      modifies this`regs
      ensures regs == Put(old(regs), mode, HFlip, if enable then 1 else 0)
    {
      regs := regs.(format2 := UpdateBits(regs.format2, 0x06, if enable then 0 else 0x06));
      regs := regs.(offsetX := OffsetX(mode, enable));
    }

    method DigitalGainConfigure(gain: int)
      modifies this`regs
      ensures regs == Put(old(regs), mode, DigitalGain, gain)
    {
      var g := gain % 0x1000;
      regs := regs.(red := g);
      regs := regs.(green := g);
      regs := regs.(blue := g);
    }

    // s_ctrl: the control still has its old value. HBLANK has no case of its
    // own and is refused while the device is in use.
    method SCtrl(id: Id, v: int) returns (ok: bool)
      requires Complete(ctrls) && (id == TestPattern ==> 0 <= v <= 3)
      modifies this`ctrls, this`regs
      ensures ok == !(inUse && id == HBlank)
      ensures ctrls == Stepped(old(ctrls), mode.size.height, id, v)
      ensures regs == if inUse then Wrote(old(regs), mode, old(ctrls), ctrls, id, v) else old(regs)
      decreases if id == VBlank then 1 else 0, 0
    {
      if id == VBlank {
        var max := mode.size.height + v - MARGIN;
        ModifyRange(Exposure, ctrls[Exposure].min, max, Min(ctrls[Exposure].val, max));
      }
      if !inUse {
        return true;
      }
      match id {
        case Exposure => regs := regs.(exposure := v * 16 % 0x10_0000);
        case AnalogueGain => regs := regs.(gain := v * 16 % 0x800);
        case DigitalGain => DigitalGainConfigure(v);
        case HFlip => FlipHorzConfigure(v != 0);
        case VFlip => FlipVertConfigure(v != 0);
        case VBlank => regs := regs.(vts := (mode.size.height + v) % 0x1_0000);
        case TestPattern => regs := regs.(pattern := PatternBits(v));
        case HBlank => return false;
      }
      ok := true;
    }

    // __v4l2_ctrl_modify_range: a bad range changes nothing; a value outside the
    // new range is clamped into it, which takes s_ctrl to accept.
    method ModifyRange(id: Id, min: int, max: int, def: int)
      requires Complete(ctrls) && id != TestPattern
      modifies this`ctrls, this`regs
      ensures var r := C.ModifyRange(old(ctrls)[id], min, max, def);
              && ctrls == (if r.None? then old(ctrls) else Moved(old(ctrls), mode.size.height, id, r.value, inUse))
              && regs == (if r.None? || !inUse then old(regs) else MovedRegs(old(regs), mode, old(ctrls), id, r.value))
      ensures Complete(ctrls) && (old(Programmed()) ==> Programmed())
      decreases if id == VBlank then 1 else 0, 1
    {
      hide Stepped, Wrote, Bits, Agrees;
      var r := C.ModifyRange(ctrls[id], min, max, def);
      if r.Some? {
        var was := ctrls[id].val;
        ctrls := ctrls[id := C.Control(min, max, was)];
        if r.value.val != was {
          var ok := SCtrl(id, r.value.val);
          if ok {
            ctrls := ctrls[id := r.value];
          }
        }
        StepFrame(old(ctrls)[id := C.Control(min, max, was)], mode.size.height, id, r.value.val);
        if old(Programmed()) && inUse && kept {
          assert Bits(old(regs), mode, yOffset) && AllAgree(old(regs), mode, old(ctrls));
          MoveAgrees(old(regs), mode, old(ctrls), id, r.value, yOffset);
        }
      }
    }

    // __v4l2_ctrl_s_ctrl: s_ctrl runs only for a new value.
    method SetCtrl(id: Id, v: int)
      requires Ranges(ctrls) && Programmed() && id != HBlank
      modifies this`ctrls, this`regs
      ensures var x := old(ctrls)[id].(val := C.Accepted(old(ctrls)[id], v));
              ctrls == (if x == old(ctrls)[id] then old(ctrls)
                        else Stepped(old(ctrls), mode.size.height, id, x.val)[id := x])
      ensures !inUse ==> regs == old(regs)
      ensures Ranges(ctrls) && Programmed()
      ensures old(Ceiling(ctrls, mode.size.height)) ==> Ceiling(ctrls, mode.size.height)
    {
      hide Stepped, Wrote, Bits, Agrees, Ranges, Ceiling;
      AcceptedInRange(ctrls, id, v);
      var val := C.Accepted(ctrls[id], v);
      if val != ctrls[id].val {
        var x := ctrls[id].(val := val);
        var ok := SCtrl(id, val);
        ctrls := ctrls[id := x];
        StepKeepsRanges(old(ctrls), mode.size.height, id, val);
        StepFrame(old(ctrls), mode.size.height, id, val);
        if inUse && kept {
          CommitAgrees(old(regs), mode, old(ctrls), id, x, yOffset);
        }
      }
    }

    // ------------------------------------------------------------ power

    // mode_configure: the geometry, then the binning bits, then the flip bits
    // that depend on them.
    method ModeConfigure()
      requires Complete(ctrls)
      requires regs.format1 == 0x00 && regs.format2 == 0x1e
      modifies this`regs
      ensures Bits(regs, mode, yOffset)
    {
      hide UpdateBits;
      var binned := mode.Binned();
      BinningBits(mode);
      UpdateSplits(UpdateBits(0x00, 0x01, if mode.binY then 0x01 else 0), 0x42, VertBits(mode));
      regs := regs.(offsetX := OffsetX(mode, ctrls[HFlip].val != 0));
      regs := regs.(geometry := Geometry(
        if binned then 0 else mode.crop.left, mode.size.width,
        if binned then NATIVE_WIDTH - 1 else mode.crop.left + mode.crop.width, FIXED_PPL,
        if binned then 0 else mode.crop.top, if binned then yOffset else 0, mode.size.height,
        if binned then NATIVE_HEIGHT - 1 else mode.crop.top + mode.crop.height,
        mode.incX * 16 % 0x100 + 1, mode.incY * 16 % 0x100 + 1, binned));
      regs := regs.(format1 := UpdateBits(regs.format1, 0x01, if mode.binY then 0x01 else 0));
      regs := regs.(format2 := UpdateBits(regs.format2, 0x01, if mode.binX then 0x01 else 0));
      if ctrls[VFlip].val != 0 {
        regs := regs.(format1 := UpdateBits(regs.format1, 0x42, VertBits(mode)));
      }
    }

    // Runtime resume: power up, reset, load the register table, configure the
    // mode. What the table does not fix is arbitrary.
    method Resume()
      requires Valid() && !powered && !inUse
      modifies this`regs, this`powered, this`kept
      ensures Valid() && powered && kept
    {
      powered := true;
      var r: Regs := *;
      regs := r.(format1 := 0x00, format2 := 0x1e);
      ModeConfigure();
      kept := true;
    }

    // Every other pair of columns or lines is skipped where the picture is smaller
    // than the crop, and none elsewhere.
    ghost predicate Increments()
      reads this`mode, this`regs
    {
      && regs.geometry.subX == (if mode.size.width < mode.crop.width then 0x31 else 0x11)
      && regs.geometry.subY == (if mode.size.height < mode.crop.height then 0x31 else 0x11)
    }

    // s_stream(1): resume unless still powered, then every control is set up.
    method StreamOn()
      requires Valid() && !inUse
      modifies this`regs, this`powered, this`kept, this`inUse, this`ctrls
      ensures Valid() && inUse && synced == old(synced)
      ensures kept == (old(kept) || !old(powered))
      ensures kept ==> regs == OneShot(mode, ctrls, yOffset)
      ensures kept && fitted ==> Increments()
    {
      hide Bits, Agrees, OneShot, Ceiling, Fits, Increments;
      if !powered {
        Resume();
      }
      inUse := true;
      HandlerSetup();
      AgreementIsOneShot(regs, mode, ctrls, yOffset);
      if kept && fitted {
        FitIncrements();
      }
    }

    method HandlerSetup()
      requires Ranges(ctrls) && inUse
      requires kept ==> Bits(regs, mode, yOffset)
      modifies this`regs, this`ctrls
      ensures Ranges(ctrls) && (old(Ceiling(ctrls, mode.size.height)) ==> Ceiling(ctrls, mode.size.height))
      ensures kept ==> Bits(regs, mode, yOffset) && AllAgree(regs, mode, ctrls)
    {
      hide SetupOrder, Stepped, Wrote, Bits, Agrees, Ceiling;
      var order := SetupOrder();
      for i := 0 to |order|
        invariant Ranges(ctrls) && (old(Ceiling(ctrls, mode.size.height)) ==> Ceiling(ctrls, mode.size.height))
        invariant kept ==> Bits(regs, mode, yOffset)
        invariant kept ==> forall k: Id :: k in order[..i] ==> Agrees(regs, mode, k, ctrls[k].val)
      {
        ghost var c, r := ctrls, regs;
        var id := order[i];
        InItsRange(ctrls, id);
        var ok := SCtrl(id, ctrls[id].val);
        SetupStep(r, mode, c, id, kept, order[..i], yOffset);
        assert order[..i + 1] == order[..i] + [id];
      }
      assert order[..|order|] == order;
      SetupCoversAll();
      HBlankAgrees(regs, mode, ctrls[HBlank].val);
    }

    // s_stream(0).
    method StreamOff()
      requires Valid()
      modifies this`inUse
      ensures Valid() && !inUse
    {
      inUse := false;
    }

    // Runtime suspend, once idle: the registers are gone.
    method Suspend()
      requires Valid() && !inUse
      modifies this`powered, this`regs
      ensures Valid() && !powered
    {
      powered := false;
      regs := *;
    }

    // --------------------------------------------------------- pads and formats

    // set_fmt; None is a division by zero, which leaves everything alone. The
    // active one then puts blanking and exposure where the new height wants them.
    method SetFmt(active: bool, width: int, height: int) returns (size: Option<Size>)
      requires Valid() && 0 <= width < 0x1_0000_0000 && 0 <= height < 0x1_0000_0000
      modifies this`mode, this`tryPad, this`ctrls, this`regs, this`kept, this`synced, this`fitted
      ensures Valid()
      ensures size.Some? <==> NonEmpty(if active then mode.crop else tryPad.crop)
      ensures size.None? || !active ==>
                mode == old(mode) && ctrls == old(ctrls) && regs == old(regs) && kept == old(kept) && synced == old(synced)
                && fitted == old(fitted)
      ensures tryPad == old(tryPad).(size := if size.Some? && !active then size.value else old(tryPad).size)
      ensures size.Some? ==>
                var crop := if active then old(mode).crop else old(tryPad).crop;
                Ratios(crop, width, height).Some? && size.value == Scaled(crop, Ratios(crop, width, height).value)
      ensures size.Some? && active ==> Negotiated(old(mode), old(ctrls), size.value)
      ensures size.Some? && active ==> synced && fitted && kept == (old(kept) && mode == old(mode))
    {
      hide Ratios, CalcVts, Ranges, Ceiling, Bits, Agrees;
      var crop := if active then mode.crop else tryPad.crop;
      FaultsExactlyOnEmptyCrop(crop, width, height);
      var ratios := Ratios(crop, width, height);
      if ratios.None? {
        return None;
      }
      ScaledSizes(crop, width, height);
      var s := Scaled(crop, ratios.value);
      size := Some(s);
      if !active {
        tryPad := tryPad.(size := s);
        return;
      }
      VtsIsConstant(s.height);
      var binX, binY := ratios.value.0 > 1, ratios.value.1 > 1;
      ghost var before := mode;
      mode := Mode(crop, s, binX, binY, if binX then 3 else 1, if binY then 3 else 1, CalcVts(s.height).value);
      kept := kept && mode == before;
      ApplyTiming();
      synced, fitted := true, true;
    }

    // What an active set_fmt leaves.
    ghost predicate Negotiated(was: Mode, c: Ctrls, size: Size)
      reads this`mode, this`ctrls, this`inUse
      requires Complete(c) && Complete(ctrls)
    {
      && mode.crop == was.crop && mode.size == size && mode.vts == VTS
      && Fits()
      && Timed(c, ctrls, size, inUse)
    }

    method ApplyTiming()
      requires Ranges(ctrls) && Programmed() && mode.vts == VTS
      requires 0 < mode.size.height <= NATIVE_HEIGHT && 0 < mode.size.width <= NATIVE_WIDTH
      modifies this`ctrls, this`regs
      ensures Ranges(ctrls) && Programmed() && Ceiling(ctrls, mode.size.height)
      ensures Timed(old(ctrls), ctrls, mode.size, inUse)
      ensures !inUse ==> regs == old(regs)
    {
      hide Moved, Stepped, Ranges, Bits, Agrees, Ceiling, Retiming, Timed;
      ghost var c := ctrls;
      ApplyBlanking();
      var hblank := FIXED_PPL - mode.size.width;
      RetimedLine(c, ctrls, mode.size.height, hblank, inUse);
      ModifyRange(HBlank, hblank, hblank, hblank);
      var max := mode.vts - MARGIN;
      RetimedExposure(c, ctrls, mode.size, inUse);
      ModifyRange(Exposure, ctrls[Exposure].min, max, Min(ctrls[Exposure].val, max));
    }

    method ApplyBlanking()
      requires Ranges(ctrls) && Programmed() && mode.vts == VTS
      requires 0 < mode.size.height <= NATIVE_HEIGHT
      modifies this`ctrls, this`regs
      ensures Complete(ctrls) && Programmed() && Retiming(old(ctrls), ctrls)
      ensures ctrls[VBlank] == C.Control(MIN_VTS, MAX_VTS - mode.size.height, VTS - mode.size.height)
      ensures ctrls[HBlank] == old(ctrls)[HBlank]
      ensures !inUse ==> regs == old(regs)
    {
      hide Moved, Stepped, Ranges, Bits, Agrees, Ceiling, Retiming;
      var h := mode.size.height;
      RetimedRange(ctrls, h, inUse);
      ModifyRange(VBlank, MIN_VTS, MAX_VTS - h, mode.vts - h);
      RetimedValue(old(ctrls), ctrls, h);
      SetCtrl(VBlank, mode.vts - h);
    }

    // set_selection on the crop target: the output size follows a resized crop,
    // binning and blanking wait for the next set_fmt.
    method SetSelection(active: bool, sel: Rect) returns (rect: Rect)
      requires Valid() && InTypes(sel)
      modifies this`mode, this`tryPad, this`kept, this`synced, this`fitted
      ensures Valid() && rect == SelectedCrop(sel)
      ensures active ==> tryPad == old(tryPad) && Reselected(Pad(old(mode).crop, old(mode).size), rect, Pad(mode.crop, mode.size))
      ensures active ==> mode == old(mode).(crop := mode.crop, size := mode.size)
      ensures !active ==> mode == old(mode) && Reselected(old(tryPad), rect, tryPad)
      ensures kept == (old(kept) && mode == old(mode))
      ensures synced == (old(synced) && mode.size.height == old(mode).size.height)
      ensures fitted == (old(fitted) && mode == old(mode))
    {
      hide SelectedCrop, Ranges, Bits, Agrees, GeometryOf, Fits, Ceiling, Reselected;
      SelectedCropIsSane(sel);
      rect := SelectedCrop(sel);
      if active {
        SelectActive(rect);
      } else {
        var pad := Reselect(tryPad, rect);
        tryPad := pad;
      }
    }

    method SelectActive(rect: Rect)
      requires Valid() && Sane(rect)
      modifies this`mode, this`kept, this`synced, this`fitted
      ensures Valid() && Reselected(Pad(old(mode).crop, old(mode).size), rect, Pad(mode.crop, mode.size))
      ensures mode == old(mode).(crop := mode.crop, size := mode.size)
      ensures kept == (old(kept) && mode == old(mode))
      ensures synced == (old(synced) && mode.size.height == old(mode).size.height)
      ensures fitted == (old(fitted) && mode == old(mode))
    {
      hide Ranges, Bits, Agrees, GeometryOf, Fits, Ceiling, Increments;
      var pad := Reselect(Pad(mode.crop, mode.size), rect);
      ghost var before := mode;
      mode := mode.(crop := pad.crop, size := pad.size);
      kept := kept && mode == before;
      synced := synced && mode.size.height == before.size.height;
      fitted := fitted && mode == before;
    }

    // The output size follows a crop of another size.
    method Reselect(was: Pad, rect: Rect) returns (now: Pad)
      ensures Reselected(was, rect, now)
    {
      now := was;
      if rect.width != was.crop.width || rect.height != was.crop.height {
        now := now.(size := Size(rect.width, rect.height));
      }
      now := now.(crop := rect);
    }

    lemma FitIncrements()
      requires Complete(ctrls) && Fits() && regs == OneShot(mode, ctrls, yOffset)
      ensures Increments()
    {
    }

    // Any sequence of operations, in any order.
    method Run(ops: seq<Op>)
      requires Valid() && forall i :: 0 <= i < |ops| ==> OpOk(ops[i])
      modifies this
      ensures Valid()
      ensures inUse && kept ==> regs == OneShot(mode, ctrls, yOffset)
      ensures synced ==> (ctrls[Exposure].max == mode.size.height + ctrls[VBlank].val - MARGIN
                          <==> mode.size.height + ctrls[VBlank].val >= MARGIN + 1)
      ensures synced && inUse && kept ==> regs.vts == mode.size.height + ctrls[VBlank].val
                                          && regs.exposure / 16 == ctrls[Exposure].val
      ensures fitted && inUse && kept ==> Increments()
      ensures Formatted(ops) && NonEmpty(mode.crop) ==> fitted
      ensures (forall i :: 0 <= i < |ops| ==> !(ops[i].Select? && ops[i].active)) && old(synced) ==> synced
      ensures (forall i :: 0 <= i < |ops| ==> !ChangesActive(ops[i])) && old(kept) ==> kept && mode == old(mode)
    {
      hide Ranges, Ceiling, Bits, Agrees, OneShot, Fits;
      for i := 0 to |ops|
        invariant Valid()
        invariant Formatted(ops[..i]) && NonEmpty(mode.crop) ==> fitted
        invariant (forall j :: 0 <= j < i ==> !(ops[j].Select? && ops[j].active)) && old(synced) ==> synced
        invariant (forall j :: 0 <= j < i ==> !ChangesActive(ops[j])) && old(kept) ==> kept && mode == old(mode)
      {
        Do(ops[i]);
        LastGrows(ops, i);
      }
      assert ops[..|ops|] == ops;
      InItsRange(ctrls, Exposure);
      if synced {
        CeilingIsExact(ctrls, mode.size.height);
      }
      if inUse && kept {
        AgreementIsOneShot(regs, mode, ctrls, yOffset);
        if fitted {
          FitIncrements();
        }
        if synced {
          OneShotReadsBack(mode, ctrls, yOffset);
        }
      }
    }

    method Do(op: Op)
      requires Valid() && OpOk(op)
      modifies this
      ensures Valid()
      ensures old(synced) && !(op.Select? && op.active) ==> synced
      ensures old(kept) && !ChangesActive(op) ==> kept && mode == old(mode)
      ensures op.Fmt? && op.active && NonEmpty(mode.crop) ==> fitted
      ensures !(op.Select? && op.active) ==> mode.crop == old(mode).crop && (old(fitted) ==> fitted)
    {
      hide Ranges, Ceiling, Bits, Agrees, OneShot;
      match op {
        case Fmt(active, width, height) =>
          var size := SetFmt(active, width, height);
        case Select(active, sel) =>
          var rect := SetSelection(active, sel);
        case SetTo(id, v) =>
          SetCtrl(id, v);
        case On =>
          if !inUse {
            StreamOn();
          }
        case Off =>
          StreamOff();
        case Idle =>
          if !inUse {
            Suspend();
          }
      }
    }
  }
}
