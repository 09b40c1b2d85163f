// What the OV5693 driver keeps in the sensor: the registers a control writes
// (dkms/ov5693-surface/ov5693.c: the configure functions, s_ctrl,
// mode_configure), against the register file the final values ask for.
module Ov5693Registers {
  import opened Ov5693Format
  import C = Controls

  datatype Id = Exposure | AnalogueGain | DigitalGain | HFlip | VFlip | VBlank | TestPattern | HBlank

  type Ctrls = map<Id, C.Control>

  datatype Mode = Mode(crop: Rect, size: Size, binX: bool, binY: bool, incX: int, incY: int, vts: int) {
    predicate Binned() {
      binX || binY
    }
  }

  // The registers only mode_configure writes.
  datatype Geometry = Geometry(
    startX: int, outX: int, endX: int, hts: int, startY: int, offsetY: int, outY: int, endY: int,
    subX: int, subY: int, binnedTable: bool)

  datatype Regs = Regs(
    format1: bv8, format2: bv8, offsetX: int, vts: int, exposure: int, gain: int,
    red: int, green: int, blue: int, pattern: int, geometry: Geometry)

  ghost predicate Complete(c: Ctrls) {
    forall id: Id :: id in c
  }

  // ------------------------------------------------------- writing one control

  function VertBits(m: Mode): bv8 {
    if m.binY then 0x02 else 0x42
  }

  function OffsetX(m: Mode, hflip: bool): int {
    if m.Binned() then 8 else if hflip then 1 else 0
  }

  // Mirroring moves the colours by a column at full resolution, which the window
  // follows, and not in a binned readout; the un-mirrored full-resolution one needs
  // a window without offset, a binned one its base.
  lemma WindowKeepsThePhase(m: Mode, hflip: bool)
    ensures (OffsetX(m, hflip) + (if hflip && !m.binX && !m.binY then 1 else 0)) % 2 == 0
    ensures !hflip && !m.binX && !m.binY ==> OffsetX(m, hflip) == 0
    ensures m.binX || m.binY ==> OffsetX(m, hflip) == 8
    ensures OffsetX(m, hflip) <= 1 || m.binX || m.binY
  {
  }

  function UpdateBits(old_: bv8, mask: bv8, bits: bv8): bv8 {
    (old_ & !mask) | (bits & mask)
  }

  function PatternBits(v: int): int {
    match v
    case 0 => 0
    case 1 => 0x81
    case 2 => 0x80
    case _ => 0xc0
  }

  // Bit 7 turns the pattern on, bit 0 of the low field is the random one, and bit
  // 6 makes the bars roll.
  lemma PatternBitsTell(v: int)
    requires 0 <= v <= 3
    ensures PatternBits(v) >= 0x80 <==> v != 0
    ensures PatternBits(v) % 2 == 1 <==> v == 1
    ensures PatternBits(v) / 0x40 % 2 == 1 <==> v == 3
    ensures PatternBits(v) % 0x40 / 2 == 0
  {
  }

  // The registers after the value v of one control is written.
  function Put(r: Regs, m: Mode, id: Id, v: int): Regs {
    match id
    case Exposure => r.(exposure := v * 16 % 0x10_0000)
    case AnalogueGain => r.(gain := v * 16 % 0x800)
    case DigitalGain => r.(red := v % 0x1000, green := v % 0x1000, blue := v % 0x1000)
    case HFlip =>
      r.(format2 := UpdateBits(r.format2, 0x06, if v != 0 then 0 else 0x06), offsetX := OffsetX(m, v != 0))
    case VFlip => r.(format1 := UpdateBits(r.format1, 0x42, if v != 0 then VertBits(m) else 0))
    case VBlank => r.(vts := (m.size.height + v) % 0x1_0000)
    case TestPattern => r.(pattern := PatternBits(v))
    case HBlank => r
  }

  // --------------------------------------------------------- the one-shot form

  // The whole register file as a function of the mode and the final values.
  function OneShot(m: Mode, c: Ctrls, yOffset: int): Regs
    requires forall id: Id :: id in c
  {
    Regs(Format1(m.binY, c[VFlip].val != 0), Format2(m.binX, c[HFlip].val != 0),
         OffsetX(m, c[HFlip].val != 0), (m.size.height + c[VBlank].val) % 0x1_0000,
         c[Exposure].val * 16 % 0x10_0000, c[AnalogueGain].val * 16 % 0x800,
         c[DigitalGain].val % 0x1000, c[DigitalGain].val % 0x1000, c[DigitalGain].val % 0x1000,
         PatternBits(c[TestPattern].val), GeometryOf(m, yOffset))
  }

  function Format1(binY: bool, vflip: bool): bv8 {
    match (binY, vflip)
    case (false, false) => 0x00
    case (false, true) => 0x42
    case (true, false) => 0x01
    case (true, true) => 0x03
  }

  function Format2(binX: bool, hflip: bool): bv8 {
    match (binX, hflip)
    case (false, false) => 0x1e
    case (false, true) => 0x18
    case (true, false) => 0x1f
    case (true, true) => 0x19
  }

  // Bit by bit: the sensor's own flip always, that of the ISP at full resolution
  // only; the mirror bits are set when the picture is not mirrored; bit 0 bins.
  lemma FormatBitsTell(bin: bool, flip: bool)
    ensures Format1(bin, flip) & 0x02 != 0 <==> flip
    ensures Format1(bin, flip) & 0x40 != 0 <==> flip && !bin
    ensures Format1(bin, flip) & 0x01 != 0 <==> bin
    ensures Format1(bin, flip) & 0xbc == 0
    ensures Format2(bin, flip) & 0x06 == if flip then 0x00 else 0x06
    ensures Format2(bin, flip) & 0x01 != 0 <==> bin
    ensures Format2(bin, flip) & 0xf8 == 0x18
  {
  }

  function GeometryOf(m: Mode, yOffset: int): Geometry {
    if m.Binned() then
      Geometry(0, m.size.width, NATIVE_WIDTH - 1, FIXED_PPL, 0, yOffset, m.size.height, NATIVE_HEIGHT - 1,
               m.incX * 16 % 0x100 + 1, m.incY * 16 % 0x100 + 1, true)
    else
      Geometry(m.crop.left, m.size.width, m.crop.left + m.crop.width, FIXED_PPL,
               m.crop.top, 0, m.size.height, m.crop.top + m.crop.height,
               m.incX * 16 % 0x100 + 1, m.incY * 16 % 0x100 + 1, false)
  }

  // ------------------------------------------------------------------ agreement

  // All but the flip bits: the binning bits and those of the initial table.
  function Masked(x: bv8, mask: bv8): bv8 {
    x & mask
  }

  ghost predicate Bits(r: Regs, m: Mode, yOffset: int) {
    && Masked(r.format1, !0x42) == (if m.binY then 0x01 else 0x00)
    && Masked(r.format2, !0x06) == (if m.binX then 0x19 else 0x18)
    && r.geometry == GeometryOf(m, yOffset)
  }

  // The registers of one control hold its value.
  ghost predicate Agrees(r: Regs, m: Mode, id: Id, v: int) {
    match id
    case Exposure => r.exposure == v * 16 % 0x10_0000
    case AnalogueGain => r.gain == v * 16 % 0x800
    case DigitalGain => r.red == r.green == r.blue == v % 0x1000
    case HFlip => Masked(r.format2, 0x06) == (if v != 0 then 0 else 0x06) && r.offsetX == OffsetX(m, v != 0)
    case VFlip => Masked(r.format1, 0x42) == (if v != 0 then VertBits(m) else 0)
    case VBlank => r.vts == (m.size.height + v) % 0x1_0000
    case TestPattern => r.pattern == PatternBits(v)
    case HBlank => true
  }

  ghost predicate AllAgree(r: Regs, m: Mode, c: Ctrls)
    requires Complete(c)
  {
    forall id: Id :: Agrees(r, m, id, c[id].val)
  }

  lemma UpdateSplits(x: bv8, mask: bv8, b: bv8)
    ensures Masked(UpdateBits(x, mask, b), mask) == Masked(b, mask)
    ensures Masked(UpdateBits(x, mask, b), !mask) == Masked(x, !mask)
  {
  }

  // Writing a control makes its registers agree, leaves those of every other
  // control as they were, and never touches the binning bits.
  lemma PutAgrees(r: Regs, m: Mode, id: Id, v: int, yOffset: int)
    ensures Agrees(Put(r, m, id, v), m, id, v)
    ensures Bits(r, m, yOffset) ==> Bits(Put(r, m, id, v), m, yOffset)
  {
    hide UpdateBits, Masked, GeometryOf, PatternBits, VertBits;
    FlipBitsInMask(m);
    if id == VFlip {
      UpdateSplits(r.format1, 0x42, if v != 0 then VertBits(m) else 0);
    } else if id == HFlip {
      UpdateSplits(r.format2, 0x06, if v != 0 then 0 else 0x06);
    }
  }

  lemma PutKeepsOthers(r: Regs, m: Mode, id: Id, v: int, other: Id, w: int)
    requires id != other
    ensures Agrees(r, m, other, w) <==> Agrees(Put(r, m, id, v), m, other, w)
  {
    hide UpdateBits, Masked, PatternBits, VertBits, OffsetX;
  }

  lemma FlipBitsInMask(m: Mode)
    ensures Masked(VertBits(m), 0x42) == VertBits(m) && Masked(0, 0x42) == 0
    ensures Masked(0x06, 0x06) == 0x06 && Masked(0, 0x06) == 0
  {
  }

  // Registers with the right fixed bits that agree with every control are the
  // one-shot register file, and conversely.
  lemma AgreementIsOneShot(r: Regs, m: Mode, c: Ctrls, yOffset: int)
    requires Complete(c)
    ensures Bits(r, m, yOffset) && AllAgree(r, m, c) <==> r == OneShot(m, c, yOffset)
  {
    hide Format1, Format2, Masked, GeometryOf, PatternBits;
    Format1Is(r.format1, m, c[VFlip].val);
    Format2Is(r.format2, m, c[HFlip].val);
    if Bits(r, m, yOffset) && AllAgree(r, m, c) {
      assert Agrees(r, m, VFlip, c[VFlip].val) && Agrees(r, m, HFlip, c[HFlip].val);
      assert Agrees(r, m, VBlank, c[VBlank].val) && Agrees(r, m, Exposure, c[Exposure].val);
      assert Agrees(r, m, AnalogueGain, c[AnalogueGain].val) && Agrees(r, m, DigitalGain, c[DigitalGain].val);
      assert Agrees(r, m, TestPattern, c[TestPattern].val);
    }
  }

  lemma Format1Is(x: bv8, m: Mode, v: int)
    ensures x == Format1(m.binY, v != 0) <==>
              && Masked(x, !0x42) == (if m.binY then 0x01 else 0x00)
              && Masked(x, 0x42) == (if v != 0 then VertBits(m) else 0)
  {
    Recombined(x, 0x42);
  }

  lemma Format2Is(x: bv8, m: Mode, v: int)
    ensures x == Format2(m.binX, v != 0) <==>
              && Masked(x, !0x06) == (if m.binX then 0x19 else 0x18)
              && Masked(x, 0x06) == (if v != 0 then 0 else 0x06)
  {
    Recombined(x, 0x06);
  }

  lemma Recombined(x: bv8, mask: bv8)
    ensures x == (x & !mask) | (x & mask)
  {
  }

  // Changing one control turns the one-shot register file of the old values into
  // that of the new ones.
  lemma OneChangeIsOneShot(m: Mode, c: Ctrls, id: Id, v: int, yOffset: int)
    requires Complete(c)
    ensures Put(OneShot(m, c, yOffset), m, id, v) == OneShot(m, c[id := c[id].(val := v)], yOffset)
  {
    hide OneShot, Put, Bits, Agrees;
    var r, d := OneShot(m, c, yOffset), c[id := c[id].(val := v)];
    AgreementIsOneShot(r, m, c, yOffset);
    PutAgrees(r, m, id, v, yOffset);
    forall other: Id
      ensures Agrees(Put(r, m, id, v), m, other, d[other].val)
    {
      if other != id {
        PutKeepsOthers(r, m, id, v, other, c[other].val);
      }
    }
    AgreementIsOneShot(Put(r, m, id, v), m, d, yOffset);
  }

  // Writing controls one after the other, in any order and any number of times.
  function PutAll(r: Regs, m: Mode, ids: seq<Id>, c: Ctrls): Regs
    requires forall id: Id :: id in c
    decreases |ids|
  {
    if ids == [] then r
    else PutAll(Put(r, m, ids[0], c[ids[0]].val), m, ids[1..], c)
  }

  // Once every control was written, whatever the order and whatever the
  // registers held, they are the one-shot register file.
  lemma OrderDoesNotMatter(r: Regs, m: Mode, ids: seq<Id>, c: Ctrls, yOffset: int)
    requires Complete(c) && Bits(r, m, yOffset)
    requires forall id: Id :: id == HBlank || id in ids
    ensures PutAll(r, m, ids, c) == OneShot(m, c, yOffset)
  {
    forall id: Id
      ensures Agrees(PutAll(r, m, ids, c), m, id, c[id].val)
    {
      WrittenAgrees(r, m, ids, c, id, yOffset);
    }
    WrittenAgrees(r, m, ids, c, HBlank, yOffset);
    AgreementIsOneShot(PutAll(r, m, ids, c), m, c, yOffset);
  }

  lemma {:induction false} WrittenAgrees(r: Regs, m: Mode, ids: seq<Id>, c: Ctrls, id: Id, yOffset: int)
    requires Complete(c) && Bits(r, m, yOffset)
    requires id in ids || Agrees(r, m, id, c[id].val)
    ensures Bits(PutAll(r, m, ids, c), m, yOffset)
    ensures Agrees(PutAll(r, m, ids, c), m, id, c[id].val)
    decreases |ids|
  {
    if ids != [] {
      PutAgrees(r, m, ids[0], c[ids[0]].val, yOffset);
      if id != ids[0] {
        PutKeepsOthers(r, m, ids[0], c[ids[0]].val, id, c[id].val);
      }
      WrittenAgrees(Put(r, m, ids[0], c[ids[0]].val), m, ids[1..], c, id, yOffset);
    }
  }

  // Nothing is lost in the registers while the values are in range.
  lemma ReadsBack(m: Mode, c: Ctrls, yOffset: int)
    requires Complete(c)
    requires 0 <= c[Exposure].val <= 0xffff && 0 <= c[AnalogueGain].val <= 127 && 0 <= c[DigitalGain].val <= 4095
    requires 0 <= m.size.height + c[VBlank].val <= 0xffff
    ensures var r := OneShot(m, c, yOffset);
            && r.exposure / 16 == c[Exposure].val && r.gain / 16 == c[AnalogueGain].val
            && r.red == r.green == r.blue == c[DigitalGain].val
            && r.vts == m.size.height + c[VBlank].val
  {
  }

  // ------------------------------------------------------------ the ISP window

  // The output window lies within the columns and lines that are read out.
  ghost predicate WindowFits(m: Mode, hflip: bool, yOffset: int) {
    var g := GeometryOf(m, yOffset);
    && OffsetX(m, hflip) + g.outX <= (g.endX - g.startX + 1) / (if m.binX then 2 else 1)
    && g.offsetY + g.outY <= (g.endY - g.startY + 1) / (if m.binY then 2 else 1)
  }

  // At full resolution it always does, in both flip states. A binned axis
  // needs 16 spare columns or 2 * yOffset spare lines; an axis read out whole
  // in a binned mode needs 8 and yOffset.
  lemma WindowFitsExactly(m: Mode, hflip: bool, yOffset: int)
    requires Sane(m.crop) && NonEmpty(m.crop)
    requires m.size == Size(m.crop.width / (if m.binX then 2 else 1), m.crop.height / (if m.binY then 2 else 1))
    ensures WindowFits(m, hflip, yOffset) <==>
              || !m.Binned()
              || (&& m.crop.width <= NATIVE_WIDTH - (if m.binX then 16 else 8)
                  && m.crop.height <= NATIVE_HEIGHT - (if m.binY then 2 * yOffset else yOffset))
  {
  }

  // The last column read at full resolution is one past the crop, so on the
  // array only while the crop stops short of its edge.
  lemma ReadoutOnTheArray(m: Mode, yOffset: int)
    requires Sane(m.crop)
    ensures var g := GeometryOf(m, yOffset);
            && (if m.Binned() then g.startX == 0 == g.startY && g.endX == NATIVE_WIDTH - 1 && g.endY == NATIVE_HEIGHT - 1
                else (g.startX, g.startY, g.endX - g.startX, g.endY - g.startY)
                     == (m.crop.left, m.crop.top, m.crop.width, m.crop.height))
            && (g.outX, g.outY) == (m.size.width, m.size.height)
            && (g.endX < NATIVE_WIDTH <==> m.Binned() || m.crop.left + m.crop.width < NATIVE_WIDTH)
            && (g.endY < NATIVE_HEIGHT <==> m.Binned() || m.crop.top + m.crop.height < NATIVE_HEIGHT)
  {
  }
}
