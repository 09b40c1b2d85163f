// tools/patch_aiqb_blc.py: divide the OEM black levels by four, in place, and
// repair both checksums.
module BlackLevelPatch {
  import opened Wrappers
  import opened Bytes
  import opened Floats
  import Containers
  import Checksums
  import Records

  const FIRST_RECORD: nat := 0x50
  const AIQB: nat := 0x38
  const BLACK_LEVEL: nat := 3
  const BLACK_LEVEL_GLOBAL: nat := 31
  const U16_CELLS: nat := 100
  const FLOAT_CELLS: nat := 400

  datatype Fault = StructError | RangeGuard

  // ----------------------------------------------------------- single cells

  // The j-th u16 of a black_level record at off: four per 16-byte LUT.
  function HalfAt(off: nat, j: nat): nat {
    off + 20 + 16 * (j / 4) + 2 * (j % 4)
  }

  // The LUT the j-th float of a black_level_global record is in: sixteen floats
  // behind exposure and gain, 72 bytes in all.
  function LutAt(off: nat, j: nat): nat {
    off + 24 + 72 * (j / 16)
  }

  function FloatAt(off: nat, j: nat): nat {
    LutAt(off, j) + 8 + 4 * (j % 16)
  }

  function Quarter16(v: nat): (q: nat)
    requires v < 0x1_0000
    ensures q <= 0x4000
  {
    Round(v as real / 4.0)
  }

  // struct.pack('<f', v / 4.0) for a zero or a number in the guarded range: two
  // off the exponent.
  function Quarter32(w: Word): Word
    requires InFloatRange(w)
  {
    if Decode(w) == Fin(0.0) then w
    else
      GuardedExponent(w);
      w - 0x100_0000
  }

  predicate InHalfRange(v: nat) {
    12000 < v < 20000
  }

  predicate InFloatRange(w: Word) {
    Decode(w) == Fin(0.0) || (Above(Decode(w), 50.0) && Below(Decode(w), 80.0))
  }

  predicate LutGuard(e: Word, g: Word) {
    0 < e < 200000 && Above(Decode(g), 0.0) && Below(Decode(g), 200.0)
  }

  lemma {:induction false} Pow2Positive(e: int)
    ensures Pow2(e) > 0.0
    decreases if e < 0 then -e else e
  {
    if e > 0 {
      Pow2Positive(e - 1);
    } else if e < 0 {
      Pow2Positive(e + 1);
    }
  }

  // From 2^-24 on down, powers of two are at most 2^-24.
  lemma {:induction false} Pow2Small(e: int)
    requires e <= -24
    ensures 0x100_0000 as real * Pow2(e) <= 1.0
    decreases -e
  {
    if e == -24 {
      Pow2Step(-24); Pow2Step(-23); Pow2Step(-22); Pow2Step(-21); Pow2Step(-20); Pow2Step(-19);
      Pow2Step(-18); Pow2Step(-17); Pow2Step(-16); Pow2Step(-15); Pow2Step(-14); Pow2Step(-13);
      Pow2Step(-12); Pow2Step(-11); Pow2Step(-10); Pow2Step(-9); Pow2Step(-8); Pow2Step(-7);
      Pow2Step(-6); Pow2Step(-5); Pow2Step(-4); Pow2Step(-3); Pow2Step(-2); Pow2Step(-1);
    } else {
      Pow2Small(e + 1);
      Pow2Step(e);
      Pow2Positive(e);
    }
  }

  // A float above 50 is positive with a large exponent.
  lemma GuardedExponent(w: Word)
    requires Above(Decode(w), 50.0) && Below(Decode(w), 80.0)
    ensures w < 0x8000_0000 && w / 0x80_0000 % 0x100 >= 3 && w >= 0x100_0000
  {
    var exponent, mantissa := w / 0x80_0000 % 0x100, w % 0x80_0000;
    var scale := if exponent == 0 then Pow2(-149) else Pow2(exponent - 150);
    var digits := if exponent == 0 then mantissa else 0x80_0000 + mantissa;
    Pow2Positive(-149);
    Pow2Positive(exponent - 150);
    ScaleOrder(digits as real, 0x100_0000 as real, scale);
    if exponent < 3 {
      Pow2Small(-149);
      Pow2Small(exponent - 150);
    }
  }

  lemma ScaleOrder(a: real, b: real, s: real)
    requires 0.0 <= a <= b && s > 0.0
    ensures 0.0 <= a * s <= b * s
  {
  }

  // The rewritten float is exactly a quarter of the old one.
  lemma Quarter32IsExact(w: Word)
    requires InFloatRange(w)
    ensures Decode(w).Fin? && Decode(Quarter32(w)) == Fin(Decode(w).r / 4.0)
  {
    hide Pow2;
    if Decode(w) != Fin(0.0) {
      GuardedExponent(w);
      var exponent, mantissa := w / 0x80_0000, w % 0x80_0000;
      NotSpecial(w);
      ExactQuarter(exponent, mantissa);
    }
  }

  lemma NotSpecial(w: Word)
    requires Above(Decode(w), 50.0) && Below(Decode(w), 80.0) && w < 0x8000_0000
    ensures w / 0x80_0000 < 0xff
  {
  }

  lemma ExactQuarter(exponent: nat, mantissa: nat)
    requires 3 <= exponent < 0xff && mantissa < 0x80_0000
    ensures var w := exponent * 0x80_0000 + mantissa;
            && 0x100_0000 <= w < 0x8000_0000 && Decode(w).Fin?
            && Decode(w - 0x100_0000) == Fin(Decode(w).r / 4.0)
  {
    hide Decode;
    DecodeNormal(exponent, mantissa);
    DecodeNormal(exponent - 2, mantissa);
    Pow2Step(exponent - 151);
    Pow2Step(exponent - 152);
    QuarterScale((0x80_0000 + mantissa) as real, Pow2(exponent - 150), Pow2(exponent - 152));
  }

  lemma QuarterScale(digits: real, scale: real, quarter: real)
    requires scale == 4.0 * quarter
    ensures digits * quarter == digits * scale / 4.0
  {
  }

  // ---------------------------------------------------------------- the plan

  // The edits of the cells j to n - 1 of a black_level record.
  function HalvesPlan(d: seq<Byte>, off: nat, j: nat, n: nat): (r: Result<seq<Edit>, Fault>)
    ensures r.Success? ==> InBounds(r.value, |d|) && |r.value| == if j < n then n - j else 0
    decreases n - j
  {
    if j >= n then Success([])
    else if HalfAt(off, j) + 2 > |d| then Failure(StructError)
    else
      var v := U16(d, HalfAt(off, j));
      if !InHalfRange(v) then Failure(RangeGuard)
      else
        var rest :- HalvesPlan(d, off, j + 1, n);
        Success([Edit(HalfAt(off, j), Pack16(Quarter16(v)))] + rest)
  }

  // The checks made at the start of the LUT of the j-th float.
  function LutFault(d: seq<Byte>, lut: nat): Option<Fault> {
    if lut + 4 > |d| || lut + 8 > |d| then Some(StructError)
    else if !LutGuard(U32(d, lut), U32(d, lut + 4)) then Some(RangeGuard)
    else None
  }

  // The edits of the cells j to n - 1 of a black_level_global record.
  function FloatsPlan(d: seq<Byte>, off: nat, j: nat, n: nat): (r: Result<seq<Edit>, Fault>)
    ensures r.Success? ==> InBounds(r.value, |d|) && |r.value| == if j < n then n - j else 0
    decreases n - j
  {
    if j >= n then Success([])
    else if j % 16 == 0 && LutFault(d, LutAt(off, j)).Some? then Failure(LutFault(d, LutAt(off, j)).value)
    else if FloatAt(off, j) + 4 > |d| then Failure(StructError)
    else
      var w := U32(d, FloatAt(off, j));
      if !InFloatRange(w) then Failure(RangeGuard)
      else
        var rest :- FloatsPlan(d, off, j + 1, n);
        Success([Edit(FloatAt(off, j), Pack32(Quarter32(w)))] + rest)
  }

  ghost predicate InBounds(es: seq<Edit>, size: nat) {
    forall e :: e in es ==> e.at + |e.bytes| <= size
  }

  function RecordPlan(d: seq<Byte>, off: nat, nid: nat): (r: Result<seq<Edit>, Fault>)
    ensures r.Success? ==> InBounds(r.value, |d|)
  {
    if nid != BLACK_LEVEL && nid != BLACK_LEVEL_GLOBAL then Success([])
    else if off + 12 > |d| then Failure(StructError)
    else if nid == BLACK_LEVEL then HalvesPlan(d, off, 0, 4 * U32(d, off + 8))
    else FloatsPlan(d, off, 0, 16 * U32(d, off + 8))
  }

  // What the record loop rewrites and counts.
  datatype Tally = Tally(n3: nat, n31: nat, edits: seq<Edit>)

  function Count(t: Tally, nid: nat, here: seq<Edit>): Tally {
    Tally(t.n3 + (if nid == BLACK_LEVEL then |here| else 0),
          t.n31 + (if nid == BLACK_LEVEL_GLOBAL then |here| else 0),
          t.edits + here)
  }

  function FollowedBy(a: Tally, b: Result<Tally, Fault>): Result<Tally, Fault> {
    match b
    case Success(t) => Success(Tally(a.n3 + t.n3, a.n31 + t.n31, a.edits + t.edits))
    case Failure(f) => Failure(f)
  }

  const NOTHING: Tally := Tally(0, 0, [])

  function ChainPlan(d: seq<Byte>, off: nat): (r: Result<Tally, Fault>)
    ensures r.Success? ==> InBounds(r.value.edits, |d|)
    decreases |d| - off
  {
    if off + 8 > |d| then Success(NOTHING)
    else
      var size, nid := U32(d, off), U16(d, off + 6);
      if size < 8 || off + size > |d| || nid > Records.CMC_NID then Success(NOTHING)
      else
        var here :- RecordPlan(d, off, nid);
        FollowedBy(Count(NOTHING, nid, here), ChainPlan(d, off + size))
  }

  // How a run ends: one of the assertions, struct.error, or an output file.
  datatype Outcome = NotCpff | GuardFailed | OutOfBounds | WrongCount | Written(bytes: seq<Byte>)

  function FaultOutcome(f: Fault): Outcome {
    if f == RangeGuard then GuardFailed else OutOfBounds
  }

  function PatchResult(d: seq<Byte>): Outcome {
    if |d| < 4 || Containers.TagAt(d, 0) != "CPFF" then NotCpff
    else
      match ChainPlan(d, FIRST_RECORD)
      case Failure(f) => FaultOutcome(f)
      case Success(t) =>
        if t.n3 != U16_CELLS || t.n31 != FLOAT_CELLS then WrongCount
        else if 0x40 > |d| then OutOfBounds
        else
          match Checksums.Repaired(Apply(d, t.edits), AIQB, AIQB + U32(d, 0x3c))
          case None => OutOfBounds
          case Some(r) => Written(r)
  }

  // The tables of the rewritten records end where the records do.
  ghost predicate TableFits(d: seq<Byte>, rec: Records.Record) {
    && (rec.nid == BLACK_LEVEL ==>
          12 <= rec.size && rec.off + 12 <= |d| && 12 + 16 * U32(d, rec.off + 8) <= rec.size)
    && (rec.nid == BLACK_LEVEL_GLOBAL ==>
          12 <= rec.size && rec.off + 12 <= |d| && 24 + 72 * U32(d, rec.off + 8) <= rec.size)
  }

  ghost predicate Fits(d: seq<Byte>, off: nat) {
    forall rec :: rec in Records.Chain(d, off, |d|, Records.CMC_NID) ==> TableFits(d, rec)
  }

  // ------------------------------------------------------------- cells in order

  // Where the j-th cell starts, or the table ends.
  function HalfStart(off: nat, j: nat, num: nat): nat {
    if j < 4 * num then HalfAt(off, j) else off + 12 + 16 * num
  }

  function FloatStart(off: nat, j: nat, num: nat): nat {
    if j < 16 * num then FloatAt(off, j) else off + 24 + 72 * num
  }

  lemma HalvesHead(d: seq<Byte>, off: nat, j: nat, n: nat)
    requires j < n && HalvesPlan(d, off, j, n).Success?
    ensures HalvesPlan(d, off, j + 1, n).Success?
    ensures var es := HalvesPlan(d, off, j, n).value;
            es != [] && es[0].at == HalfAt(off, j) && |es[0].bytes| == 2
            && es[1..] == HalvesPlan(d, off, j + 1, n).value
  {
    hide U16, Pack16, Quarter16, InHalfRange;
  }

  lemma {:induction false} HalvesOrdered(d: seq<Byte>, off: nat, j: nat, num: nat)
    requires j <= 4 * num && HalvesPlan(d, off, j, 4 * num).Success?
    ensures Ordered(HalvesPlan(d, off, j, 4 * num).value,
                    HalfStart(off, j, num), off + 12 + 16 * num)
    decreases 4 * num - j
  {
    hide HalvesPlan, HalfAt, HalfStart;
    if j < 4 * num {
      HalvesHead(d, off, j, 4 * num);
      HalvesOrdered(d, off, j + 1, num);
      HalfNext(off, j, num);
      var rest := HalvesPlan(d, off, j + 1, 4 * num).value;
      OrderedWiden(rest, HalfStart(off, j + 1, num), off + 12 + 16 * num, HalfAt(off, j) + 2, off + 12 + 16 * num);
    } else {
      HalfEnd(off, num);
    }
  }

  lemma HalfEnd(off: nat, num: nat)
    ensures HalfStart(off, 4 * num, num) == off + 12 + 16 * num
  {
  }

  lemma HalfNext(off: nat, j: nat, num: nat)
    requires j < 4 * num
    ensures off + 12 < HalfAt(off, j)
    ensures HalfStart(off, j, num) == HalfAt(off, j) && HalfAt(off, j) + 2 <= HalfStart(off, j + 1, num)
  {
  }

  lemma FloatsHead(d: seq<Byte>, off: nat, j: nat, n: nat)
    requires j < n && FloatsPlan(d, off, j, n).Success?
    ensures FloatsPlan(d, off, j + 1, n).Success?
    ensures var es := FloatsPlan(d, off, j, n).value;
            es != [] && es[0].at == FloatAt(off, j) && |es[0].bytes| == 4
            && es[1..] == FloatsPlan(d, off, j + 1, n).value
  {
    hide U32, Pack32, Quarter32, InFloatRange, LutFault;
  }

  lemma {:induction false} FloatsOrdered(d: seq<Byte>, off: nat, j: nat, num: nat)
    requires j <= 16 * num && FloatsPlan(d, off, j, 16 * num).Success?
    ensures Ordered(FloatsPlan(d, off, j, 16 * num).value,
                    FloatStart(off, j, num), off + 24 + 72 * num)
    decreases 16 * num - j
  {
    hide FloatsPlan, FloatAt, FloatStart;
    if j < 16 * num {
      FloatsHead(d, off, j, 16 * num);
      FloatsOrdered(d, off, j + 1, num);
      FloatNext(off, j, num);
      var rest := FloatsPlan(d, off, j + 1, 16 * num).value;
      OrderedWiden(rest, FloatStart(off, j + 1, num), off + 24 + 72 * num, FloatAt(off, j) + 4, off + 24 + 72 * num);
    } else {
      FloatEnd(off, num);
    }
  }

  lemma FloatEnd(off: nat, num: nat)
    ensures FloatStart(off, 16 * num, num) == off + 24 + 72 * num
  {
  }

  lemma FloatNext(off: nat, j: nat, num: nat)
    requires j < 16 * num
    ensures LutAt(off, j) + 8 <= FloatAt(off, j) && off + 24 <= LutAt(off, j)
    ensures FloatStart(off, j, num) == FloatAt(off, j) && FloatAt(off, j) + 4 <= FloatStart(off, j + 1, num)
    ensures (j + 1) % 16 == 0 && j + 1 < 16 * num ==> FloatAt(off, j) + 4 <= LutAt(off, j + 1)
  {
  }

  lemma RecordOrdered(d: seq<Byte>, rec: Records.Record)
    requires rec.size >= 8 && TableFits(d, rec) && RecordPlan(d, rec.off, rec.nid).Success?
    ensures Ordered(RecordPlan(d, rec.off, rec.nid).value, rec.off + 8, rec.off + rec.size)
    ensures rec.nid == BLACK_LEVEL || rec.nid == BLACK_LEVEL_GLOBAL ==>
              12 <= rec.size && Ordered(RecordPlan(d, rec.off, rec.nid).value, rec.off + 12, rec.off + rec.size)
  {
    hide U32, HalvesPlan, FloatsPlan;
    if rec.nid == BLACK_LEVEL {
      var num: nat := U32(d, rec.off + 8);
      HalvesOrdered(d, rec.off, 0, num);
      OrderedWiden(HalvesPlan(d, rec.off, 0, 4 * num).value,
                   HalfStart(rec.off, 0, num), rec.off + 12 + 16 * num, rec.off + 12, rec.off + rec.size);
      OrderedWiden(HalvesPlan(d, rec.off, 0, 4 * num).value, rec.off + 12, rec.off + rec.size, rec.off + 8, rec.off + rec.size);
    } else if rec.nid == BLACK_LEVEL_GLOBAL {
      var num: nat := U32(d, rec.off + 8);
      FloatsOrdered(d, rec.off, 0, num);
      OrderedWiden(FloatsPlan(d, rec.off, 0, 16 * num).value,
                   FloatStart(rec.off, 0, num), rec.off + 24 + 72 * num, rec.off + 12, rec.off + rec.size);
      OrderedWiden(FloatsPlan(d, rec.off, 0, 16 * num).value, rec.off + 12, rec.off + rec.size, rec.off + 8, rec.off + rec.size);
    }
  }

  lemma {:induction false} ChainOrdered(d: seq<Byte>, off: nat)
    requires off <= |d| && Fits(d, off) && ChainPlan(d, off).Success?
    ensures Ordered(ChainPlan(d, off).value.edits, off, |d|)
    decreases |d| - off
  {
    hide U32, U16, RecordPlan, TableFits;
    if off + 8 <= |d| {
      var size, nid := U32(d, off), U16(d, off + 6);
      if 8 <= size && off + size <= |d| && nid <= Records.CMC_NID {
        var rec := Records.Record(off, size, d[off + 4], d[off + 5], nid);
        assert rec in Records.Chain(d, off, |d|, Records.CMC_NID);
        RecordOrdered(d, rec);
        ChainOrdered(d, off + size);
        var here, rest := RecordPlan(d, off, nid).value, ChainPlan(d, off + size).value.edits;
        OrderedWiden(here, off + 8, off + size, off, off + size);
        OrderedConcat(here, rest, off, off + size, |d|);
        assert [] + here == here;
      }
    }
  }

  // ------------------------------------------------------------- the tool itself

  function After(done: seq<Edit>, r: Result<seq<Edit>, Fault>): Result<seq<Edit>, Fault> {
    match r
    case Success(es) => Success(done + es)
    case Failure(f) => Failure(f)
  }

  // Where a rewriting loop stands: the edits done so far made d of d0, and from
  // q on nothing moved yet.
  ghost predicate Standing(d0: seq<Byte>, d: seq<Byte>, done: seq<Edit>, q: nat) {
    InBounds(done, |d0|) && d == Apply(d0, done) && SameFrom(d0, d, q)
  }

  lemma StandingAfter(d0: seq<Byte>, d1: seq<Byte>, done: seq<Edit>, e: Edit, p: nat, q: nat)
    requires Standing(d0, d1, done, p) && p <= e.at && e.at + |e.bytes| <= q && e.at + |e.bytes| <= |d0|
    ensures Standing(d0, Splice(d1, e.at, e.bytes), done + [e], q)
  {
    ApplyConcat(d0, done, [e]);
    ApplyOne(d1, e);
  }

  method StoreHalf(d: array<Byte>, at: nat, w: nat)
    requires at + 2 <= d.Length && w < 0x1_0000
    modifies d
    ensures d[..] == Splice(old(d[..]), at, Pack16(w))
  {
    var b := Pack16(w);
    d[at], d[at + 1] := b[0], b[1];
  }

  // One more cell of either table: the plan and the edits done move on together.
  lemma AfterTwice(done: seq<Edit>, e: Edit, rest: Result<seq<Edit>, Fault>)
    ensures After(done, After([e], rest)) == After(done + [e], rest)
  {
    if rest.Success? {
      assert done + ([e] + rest.value) == (done + [e]) + rest.value;
    }
  }

  lemma HalvesStep(d: seq<Byte>, off: nat, j: nat, n: nat)
    requires j < n && HalfAt(off, j) + 2 <= |d|
    ensures var v := U16(d, HalfAt(off, j));
            HalvesPlan(d, off, j, n) == if !InHalfRange(v) then Failure(RangeGuard)
                                        else After([Edit(HalfAt(off, j), Pack16(Quarter16(v)))], HalvesPlan(d, off, j + 1, n))
  {
  }

  lemma FloatsStep(d: seq<Byte>, off: nat, j: nat, n: nat)
    requires j < n && FloatAt(off, j) + 4 <= |d| && (j % 16 == 0 ==> LutFault(d, LutAt(off, j)).None?)
    ensures var w := U32(d, FloatAt(off, j));
            FloatsPlan(d, off, j, n) == if !InFloatRange(w) then Failure(RangeGuard)
                                        else After([Edit(FloatAt(off, j), Pack32(Quarter32(w)))], FloatsPlan(d, off, j + 1, n))
  {
  }

  // The black_level branch: num LUTs of four u16 each.
  method PatchHalves(d: array<Byte>, off: nat, num: nat) returns (r: Result<nat, Fault>, ghost done: seq<Edit>)
    modifies d
    ensures After(done, if r.Success? then Success([]) else Failure(r.error)) == HalvesPlan(old(d[..]), off, 0, 4 * num)
    ensures r.Success? ==> r.value == |done| && Standing(old(d[..]), d[..], done, off + 12 + 16 * num)
  {
    hide HalvesPlan, HalfAt, HalfStart, Standing, Pack16, U16, Quarter16, Splice;
    ghost var d0 := d[..];
    var i, n3 := 0, 0;
    done := [];
    NothingDone(d0, HalfStart(off, 0, num), HalvesPlan(d0, off, 0, 4 * num));
    while i < num
      invariant i <= num && n3 == |done| == 4 * i
      invariant HalvesPlan(d0, off, 0, 4 * num) == After(done, HalvesPlan(d0, off, 4 * i, 4 * num))
      invariant Standing(d0, d[..], done, HalfStart(off, 4 * i, num))
    {
      var c := 0;
      while c < 4
        invariant c <= 4 && n3 == |done| == 4 * i + c
        invariant HalvesPlan(d0, off, 0, 4 * num) == After(done, HalvesPlan(d0, off, 4 * i + c, 4 * num))
        invariant Standing(d0, d[..], done, HalfStart(off, 4 * i + c, num))
      {
        ghost var j := 4 * i + c;
        var at := off + 20 + 16 * i + 2 * c;
        HalfIndex(off, i, c);
        HalfNext(off, j, num);
        if at + 2 > d.Length {
          HalvesShort(d0, off, j, 4 * num, d[..], done);
          return Failure(StructError), done;
        }
        var v := U16(d[..], at);
        StandingHalf(d0, d[..], done, at);
        HalvesStep(d0, off, j, 4 * num);
        if !InHalfRange(v) {
          return Failure(RangeGuard), done;
        }
        ghost var d1, e := d[..], Edit(at, Pack16(Quarter16(v)));
        StoreHalf(d, at, Quarter16(v));
        StandingAfter(d0, d1, done, e, at, HalfStart(off, j + 1, num));
        AfterTwice(done, e, HalvesPlan(d0, off, j + 1, 4 * num));
        done := done + [e];
        n3 := n3 + 1;
        c := c + 1;
      }
      i := i + 1;
    }
    HalvesOver(d0, off, 4 * num);
    HalfEnd(off, num);
    r := Success(n3);
  }

  lemma NothingDone(d: seq<Byte>, q: nat, plan: Result<seq<Edit>, Fault>)
    ensures Standing(d, d, [], q) && After([], plan) == plan
  {
    if plan.Success? {
      assert [] + plan.value == plan.value;
    }
  }

  lemma HalvesOver(d: seq<Byte>, off: nat, n: nat)
    ensures HalvesPlan(d, off, n, n) == Success([])
  {
  }

  lemma HalvesShort(d: seq<Byte>, off: nat, j: nat, n: nat, now: seq<Byte>, done: seq<Edit>)
    requires j < n && HalfAt(off, j) + 2 > |now| && Standing(d, now, done, HalfAt(off, j))
    ensures HalvesPlan(d, off, j, n) == Failure(StructError)
  {
  }

  lemma HalfIndex(off: nat, i: nat, c: nat)
    requires c < 4
    ensures HalfAt(off, 4 * i + c) == off + 20 + 16 * i + 2 * c
  {
  }

  lemma StandingHalf(d0: seq<Byte>, d: seq<Byte>, done: seq<Edit>, at: nat)
    requires Standing(d0, d, done, at) && at + 2 <= |d|
    ensures |d0| == |d| && U16(d, at) == U16(d0, at)
  {
  }

  lemma StandingWord(d0: seq<Byte>, d: seq<Byte>, done: seq<Edit>, q: nat, at: nat)
    requires Standing(d0, d, done, q) && q <= at && at + 4 <= |d|
    ensures |d0| == |d| && U32(d, at) == U32(d0, at)
  {
  }

  // The black_level_global branch: num LUTs of exposure, gain and 16 floats.
  method PatchFloats(d: array<Byte>, off: nat, num: nat) returns (r: Result<nat, Fault>, ghost done: seq<Edit>)
    modifies d
    ensures After(done, if r.Success? then Success([]) else Failure(r.error)) == FloatsPlan(old(d[..]), off, 0, 16 * num)
    ensures r.Success? ==> r.value == |done| && Standing(old(d[..]), d[..], done, off + 24 + 72 * num)
  {
    hide FloatsPlan, FloatAt, LutAt, Standing, Pack32, U32, Quarter32, Splice, InFloatRange, LutGuard, LutFault;
    ghost var d0 := d[..];
    var i, p, n31 := 0, off + 24, 0;
    done := [];
    NothingDone(d0, p, FloatsPlan(d0, off, 0, 16 * num));
    while i < num
      invariant i <= num && n31 == |done| == 16 * i && p == off + 24 + 72 * i
      invariant FloatsPlan(d0, off, 0, 16 * num) == After(done, FloatsPlan(d0, off, 16 * i, 16 * num))
      invariant Standing(d0, d[..], done, p)
    {
      FloatIndex(off, i, 0);
      StandingSize(d0, d[..], done, p);
      if p + 8 > d.Length {
        LutFaults(d0, p, off, 16 * i, 16 * num);
        return Failure(StructError), done;
      }
      var e, g := U32(d[..], p), U32(d[..], p + 4);
      StandingWord(d0, d[..], done, p, p);
      StandingWord(d0, d[..], done, p, p + 4);
      LutFaults(d0, p, off, 16 * i, 16 * num);
      if !LutGuard(e, g) {
        return Failure(RangeGuard), done;
      }
      var c := 0;
      while c < 16
        invariant c <= 16 && n31 == |done| == 16 * i + c
        invariant FloatsPlan(d0, off, 0, 16 * num) == After(done, FloatsPlan(d0, off, 16 * i + c, 16 * num))
        invariant Standing(d0, d[..], done, if c == 0 then p else p + 8 + 4 * c)
      {
        ghost var j := 16 * i + c;
        var at := p + 8 + 4 * c;
        FloatIndex(off, i, c);
        StandingSize(d0, d[..], done, if c == 0 then p else at);
        if at + 4 > d.Length {
          FloatsShort(d0, off, j, 16 * num);
          return Failure(StructError), done;
        }
        var w := U32(d[..], at);
        StandingWord(d0, d[..], done, if c == 0 then p else at, at);
        FloatsStep(d0, off, j, 16 * num);
        if !InFloatRange(w) {
          return Failure(RangeGuard), done;
        }
        ghost var d1, edit := d[..], Edit(at, Pack32(Quarter32(w)));
        Checksums.StoreWord(d, at, Quarter32(w));
        StandingAfter(d0, d1, done, edit, if c == 0 then p else at, at + 4);
        AfterTwice(done, edit, FloatsPlan(d0, off, j + 1, 16 * num));
        done := done + [edit];
        n31 := n31 + 1;
        c := c + 1;
      }
      p := p + 72;
      i := i + 1;
    }
    FloatsOver(d0, off, 16 * num);
    r := Success(n31);
  }

  lemma StandingSize(d0: seq<Byte>, d: seq<Byte>, done: seq<Edit>, q: nat)
    requires Standing(d0, d, done, q)
    ensures |d0| == |d|
  {
  }

  lemma FloatIndex(off: nat, i: nat, c: nat)
    requires c < 16
    ensures (16 * i + c) % 16 == c && LutAt(off, 16 * i + c) == off + 24 + 72 * i
    ensures FloatAt(off, 16 * i + c) == off + 24 + 72 * i + 8 + 4 * c
  {
  }

  // The fault, or none, at the start of a LUT.
  lemma LutFaults(d: seq<Byte>, lut: nat, off: nat, j: nat, n: nat)
    requires j < n && j % 16 == 0 && lut == LutAt(off, j)
    ensures lut + 8 > |d| ==> FloatsPlan(d, off, j, n) == Failure(StructError)
    ensures lut + 8 <= |d| && LutGuard(U32(d, lut), U32(d, lut + 4)) ==> LutFault(d, lut).None?
    ensures lut + 8 <= |d| && !LutGuard(U32(d, lut), U32(d, lut + 4)) ==> FloatsPlan(d, off, j, n) == Failure(RangeGuard)
  {
    hide LutGuard, U32;
  }

  lemma FloatsShort(d: seq<Byte>, off: nat, j: nat, n: nat)
    requires j < n && FloatAt(off, j) + 4 > |d| && (j % 16 == 0 ==> LutFault(d, LutAt(off, j)).None?)
    ensures FloatsPlan(d, off, j, n) == Failure(StructError)
  {
    hide LutGuard, U32;
  }

  lemma FloatsOver(d: seq<Byte>, off: nat, n: nat)
    ensures FloatsPlan(d, off, n, n) == Success([])
  {
  }

  method PatchRecord(d: array<Byte>, off: nat, nid: nat) returns (r: Result<nat, Fault>, ghost done: seq<Edit>)
    modifies d
    ensures After(done, if r.Success? then Success([]) else Failure(r.error)) == RecordPlan(old(d[..]), off, nid)
    ensures r.Success? ==> r.value == |done| && InBounds(done, d.Length) && d[..] == Apply(old(d[..]), done)
    ensures r.Success? && nid != BLACK_LEVEL && nid != BLACK_LEVEL_GLOBAL ==> done == [] && d[..] == old(d[..])
    ensures r.Success? && nid == BLACK_LEVEL ==>
              && off + 12 <= d.Length
              && Standing(old(d[..]), d[..], done, off + 12 + 16 * U32(old(d[..]), off + 8))
    ensures r.Success? && nid == BLACK_LEVEL_GLOBAL ==>
              && off + 12 <= d.Length
              && Standing(old(d[..]), d[..], done, off + 24 + 72 * U32(old(d[..]), off + 8))
  {
    hide HalvesPlan, FloatsPlan, U32;
    done := [];
    if nid == BLACK_LEVEL || nid == BLACK_LEVEL_GLOBAL {
      if off + 12 > d.Length {
        return Failure(StructError), [];
      }
      var num: nat := U32(d[..], off + 8);
      if nid == BLACK_LEVEL {
        r, done := PatchHalves(d, off, num);
      } else {
        r, done := PatchFloats(d, off, num);
      }
    } else {
      NothingDone(d[..], 0, Success([]));
      r := Success(0);
    }
  }

  // Where the record loop stands; only files whose tables fit are followed.
  ghost predicate Follows(d0: seq<Byte>, d: seq<Byte>, off: nat, t: Tally) {
    && off <= |d0| && Fits(d0, off)
    && FollowedBy(t, ChainPlan(d0, off)) == ChainPlan(d0, FIRST_RECORD)
    && Standing(d0, d, t.edits, off)
  }

  // What the record loop makes of any buffer, reading each record from what the
  // records before it left; t is the tally so far.
  function RunChain(d: seq<Byte>, off: nat, t: Tally): (r: Result<(seq<Byte>, Tally), Fault>)
    ensures r.Success? ==> |r.value.0| == |d|
    decreases |d| - off
  {
    if off + 8 > |d| then Success((d, t))
    else
      var size, nid := U32(d, off), U16(d, off + 6);
      if size < 8 || off + size > |d| || nid > Records.CMC_NID then Success((d, t))
      else
        var here :- RecordPlan(d, off, nid);
        RunChain(Apply(d, here), off + size, Count(t, nid, here))
  }

  // The record loop of patch(), on any file.
  method PatchRecords(d: array<Byte>) returns (r: Result<(nat, nat), Fault>, ghost t: Tally)
    modifies d
    ensures match r
            case Failure(f) => RunChain(old(d[..]), FIRST_RECORD, NOTHING) == Failure(f)
            case Success(counts) =>
              RunChain(old(d[..]), FIRST_RECORD, NOTHING) == Success((d[..], t)) && counts == (t.n3, t.n31)
  {
    hide RecordPlan, U32, U16;
    var n3, n31, off := 0, 0, FIRST_RECORD;
    t := NOTHING;
    while off + 8 <= d.Length
      invariant RunChain(old(d[..]), FIRST_RECORD, NOTHING) == RunChain(d[..], off, t)
      invariant n3 == t.n3 && n31 == t.n31
      decreases d.Length - off
    {
      var size, nid := U32(d[..], off), U16(d[..], off + 6);
      if size < 8 || off + size > d.Length || nid > Records.CMC_NID {
        break;
      }
      var n, done := PatchRecord(d, off, nid);
      if n.Failure? {
        return Failure(n.error), t;
      }
      assert done + [] == done;
      t := Count(t, nid, done);
      if nid == BLACK_LEVEL {
        n3 := n3 + n.value;
      }
      if nid == BLACK_LEVEL_GLOBAL {
        n31 := n31 + n.value;
      }
      off := off + size;
    }
    r := Success((n3, n31));
  }

  // Where the tables fit their records, that is the plan of the untouched file.
  lemma {:induction false} RunIsPlanned(d0: seq<Byte>, d: seq<Byte>, off: nat, t: Tally)
    requires Follows(d0, d, off, t)
    ensures |d| == |d0| && RunChain(d, off, t) == Planned(d0)
    decreases |d| - off
  {
    hide U32, U16, Fits, ChainPlan, RecordPlan, Count, FollowedBy;
    assert |d| == |d0|;
    if off + 8 <= |d| {
      FollowsReads(d0, d, off, t);
      var size, nid := U32(d, off), U16(d, off + 6);
      if size >= 8 && off + size <= |d| && nid <= Records.CMC_NID {
        var here := RecordPlan(d, off, nid);
        if here.Failure? {
          NothingDone(d, 0, here);
          FollowsOne(d0, d, d, off, size, nid, t, Failure(here.error), []);
        } else {
          RecordStands(d, off, nid);
          assert here.value + [] == here.value;
          var d2 := Apply(d, here.value);
          FollowsOne(d0, d, d2, off, size, nid, t, Success(|here.value|), here.value);
          RunIsPlanned(d0, d2, off + size, Count(t, nid, here.value));
        }
      } else {
        FollowsEnd(d0, d, off, t);
      }
    } else {
      FollowsEnd(d0, d, off, t);
    }
  }

  function Planned(d: seq<Byte>): Result<(seq<Byte>, Tally), Fault> {
    match ChainPlan(d, FIRST_RECORD)
    case Failure(f) => Failure(f)
    case Success(t) => Success((Apply(d, t.edits), t))
  }

  // Nothing behind its table moves when a record is rewritten.
  lemma RecordStands(d: seq<Byte>, off: nat, nid: nat)
    requires RecordPlan(d, off, nid).Success?
    ensures var es := RecordPlan(d, off, nid).value;
            && (nid != BLACK_LEVEL && nid != BLACK_LEVEL_GLOBAL ==> es == [] && Apply(d, es) == d)
            && (nid == BLACK_LEVEL ==>
                  off + 12 <= |d| && Standing(d, Apply(d, es), es, off + 12 + 16 * U32(d, off + 8)))
            && (nid == BLACK_LEVEL_GLOBAL ==>
                  off + 12 <= |d| && Standing(d, Apply(d, es), es, off + 24 + 72 * U32(d, off + 8)))
  {
    hide U32, HalvesPlan, FloatsPlan, HalfStart, FloatStart, Apply;
    if nid == BLACK_LEVEL {
      var num: nat := U32(d, off + 8);
      HalvesOrdered(d, off, 0, num);
      StandsBehind(d, HalvesPlan(d, off, 0, 4 * num).value, HalfStart(off, 0, num), off + 12 + 16 * num);
    } else if nid == BLACK_LEVEL_GLOBAL {
      var num: nat := U32(d, off + 8);
      FloatsOrdered(d, off, 0, num);
      StandsBehind(d, FloatsPlan(d, off, 0, 16 * num).value, FloatStart(off, 0, num), off + 24 + 72 * num);
    } else {
      NothingDone(d, 0, Success([]));
    }
  }

  lemma StandsBehind(d: seq<Byte>, es: seq<Edit>, lo: nat, hi: nat)
    requires InBounds(es, |d|) && Ordered(es, lo, hi)
    ensures Standing(d, Apply(d, es), es, hi)
  {
    hide Apply;
    OrderedBounds(es, lo, hi);
    forall k | hi <= k < |d|
      ensures d[k] == Apply(d, es)[k]
    {
      ApplyElsewhere(d, es, k);
    }
  }

  lemma JoinNothing(t: Tally, r: Result<Tally, Fault>)
    ensures FollowedBy(NOTHING, r) == r && FollowedBy(t, Success(NOTHING)) == Success(t)
  {
    assert t.edits + [] == t.edits;
    if r.Success? {
      assert [] + r.value.edits == r.value.edits;
    }
  }

  lemma FollowsAtStart(d: seq<Byte>)
    requires FIRST_RECORD <= |d|
    ensures Fits(d, FIRST_RECORD) ==> Follows(d, d, FIRST_RECORD, NOTHING)
  {
    JoinNothing(NOTHING, ChainPlan(d, FIRST_RECORD));
    NothingDone(d, FIRST_RECORD, Success([]));
  }

  lemma FollowsReads(d0: seq<Byte>, d: seq<Byte>, off: nat, t: Tally)
    requires Follows(d0, d, off, t) && off + 8 <= |d|
    ensures |d0| == |d| && U32(d, off) == U32(d0, off) && U16(d, off + 6) == U16(d0, off + 6)
  {
    hide Fits, ChainPlan;
    WordKept(d, d0, off);
    HalfKept(d, d0, off + 6);
  }

  lemma FollowsEnd(d0: seq<Byte>, d: seq<Byte>, off: nat, t: Tally)
    requires Follows(d0, d, off, t)
    requires off + 8 > |d0| || U32(d0, off) < 8 || off + U32(d0, off) > |d0| || U16(d0, off + 6) > Records.CMC_NID
    ensures ChainPlan(d0, FIRST_RECORD) == Success(t) && d == Apply(d0, t.edits)
  {
    hide U32, U16, Fits, ChainPlan, RecordPlan, Apply, FollowedBy, InBounds, SameFrom, Count;
    ChainStep(d0, off);
    JoinNothing(t, Success(NOTHING));
  }

  // The chain's plan, one record further.
  lemma ChainStep(d: seq<Byte>, off: nat)
    ensures ChainPlan(d, off) ==
            if off + 8 > |d| || U32(d, off) < 8 || off + U32(d, off) > |d| || U16(d, off + 6) > Records.CMC_NID
            then Success(NOTHING)
            else
              var here := RecordPlan(d, off, U16(d, off + 6));
              if here.Failure? then Failure(here.error)
              else FollowedBy(Count(NOTHING, U16(d, off + 6), here.value), ChainPlan(d, off + U32(d, off)))
  {
    hide U32, U16, RecordPlan;
  }

  lemma FitsNext(d: seq<Byte>, off: nat)
    requires Fits(d, off) && off + 8 <= |d|
    requires U32(d, off) >= 8 && off + U32(d, off) <= |d| && U16(d, off + 6) <= Records.CMC_NID
    ensures TableFits(d, Records.Record(off, U32(d, off), d[off + 4], d[off + 5], U16(d, off + 6)))
    ensures Fits(d, off + U32(d, off))
  {
    hide U32, U16, TableFits;
    var rec := Records.Record(off, U32(d, off), d[off + 4], d[off + 5], U16(d, off + 6));
    var rest := Records.Chain(d, off + U32(d, off), |d|, Records.CMC_NID);
    assert Records.Chain(d, off, |d|, Records.CMC_NID) == [rec] + rest;
    assert forall r :: r in rest ==> r in [rec] + rest;
    assert rec in [rec] + rest;
  }

  lemma StandingJoin(d0: seq<Byte>, d1: seq<Byte>, d2: seq<Byte>, a: seq<Edit>, b: seq<Edit>, p: nat, q: nat, end: nat)
    requires Standing(d0, d1, a, p) && Standing(d1, d2, b, q) && p <= end && q <= end
    ensures Standing(d0, d2, a + b, end)
  {
    ApplyConcat(d0, a, b);
  }

  // One record: what was read from the buffer as it now is, was planned on the
  // file as it was, and nothing behind the record moved.
  lemma FollowsOne(d0: seq<Byte>, d1: seq<Byte>, d2: seq<Byte>, off: nat, size: nat, nid: nat, t: Tally,
                   n: Result<nat, Fault>, done: seq<Edit>)
    requires Follows(d0, d1, off, t) && off + 8 <= |d0| && 8 <= size && off + size <= |d0| == |d2|
    requires size == U32(d0, off) && nid == U16(d0, off + 6) <= Records.CMC_NID
    requires After(done, if n.Success? then Success([]) else Failure(n.error)) == RecordPlan(d1, off, nid)
    requires n.Success? && nid != BLACK_LEVEL && nid != BLACK_LEVEL_GLOBAL ==> done == [] && d2 == d1
    requires n.Success? && nid == BLACK_LEVEL ==>
               off + 12 <= |d1| && Standing(d1, d2, done, off + 12 + 16 * U32(d1, off + 8))
    requires n.Success? && nid == BLACK_LEVEL_GLOBAL ==>
               off + 12 <= |d1| && Standing(d1, d2, done, off + 24 + 72 * U32(d1, off + 8))
    ensures n.Failure? ==> ChainPlan(d0, FIRST_RECORD) == Failure(n.error)
    ensures n.Success? ==> Follows(d0, d2, off + size, Count(t, nid, done))
  {
    hide U32, U16, RecordPlan, ChainPlan, Fits, Apply, FollowedBy, Count;
    RecordPlanOnwards(d0, d1, off, nid);
    ChainStep(d0, off);
    FitsNext(d0, off);
    if n.Failure? {
      JoinFailure(t, n.error);
    } else {
      assert done + [] == done;
      if nid == BLACK_LEVEL {
        WordKept(d0, d1, off + 8);
        StandingJoin(d0, d1, d2, t.edits, done, off, off + 12 + 16 * U32(d0, off + 8), off + size);
      } else if nid == BLACK_LEVEL_GLOBAL {
        WordKept(d0, d1, off + 8);
        StandingJoin(d0, d1, d2, t.edits, done, off, off + 24 + 72 * U32(d0, off + 8), off + size);
      } else {
        assert t.edits + done == t.edits;
      }
      CountEdits(t, nid, done);
      JoinTwice(t, nid, done, ChainPlan(d0, off + size));
    }
  }

  lemma JoinFailure(t: Tally, f: Fault)
    ensures FollowedBy(t, Failure(f)) == Failure(f)
  {
  }

  lemma CountEdits(t: Tally, nid: nat, done: seq<Edit>)
    ensures Count(t, nid, done).edits == t.edits + done
  {
  }

  lemma JoinTwice(t: Tally, nid: nat, done: seq<Edit>, rest: Result<Tally, Fault>)
    ensures FollowedBy(t, FollowedBy(Count(NOTHING, nid, done), rest)) == FollowedBy(Count(t, nid, done), rest)
  {
    if rest.Success? {
      assert t.edits + (([] + done) + rest.value.edits) == (t.edits + done) + rest.value.edits;
    }
  }

  lemma RecordPlanOnwards(a: seq<Byte>, b: seq<Byte>, off: nat, nid: nat)
    requires SameFrom(a, b, off)
    ensures RecordPlan(a, off, nid) == RecordPlan(b, off, nid)
  {
    hide U32, HalvesPlan, FloatsPlan;
    if off + 12 <= |a| && (nid == BLACK_LEVEL || nid == BLACK_LEVEL_GLOBAL) {
      WordKept(a, b, off + 8);
      var num: nat := U32(a, off + 8);
      HalvesPlanOnwards(a, b, off, 0, 4 * num);
      FloatsPlanOnwards(a, b, off, 0, 16 * num);
    }
  }

  lemma {:induction false} HalvesPlanOnwards(a: seq<Byte>, b: seq<Byte>, off: nat, j: nat, n: nat)
    requires SameFrom(a, b, off)
    ensures HalvesPlan(a, off, j, n) == HalvesPlan(b, off, j, n)
    decreases n - j
  {
    hide U16;
    if j < n && HalfAt(off, j) + 2 <= |a| {
      HalfKept(a, b, HalfAt(off, j));
      HalvesPlanOnwards(a, b, off, j + 1, n);
    }
  }

  lemma {:induction false} FloatsPlanOnwards(a: seq<Byte>, b: seq<Byte>, off: nat, j: nat, n: nat)
    requires SameFrom(a, b, off)
    ensures FloatsPlan(a, off, j, n) == FloatsPlan(b, off, j, n)
    decreases n - j
  {
    hide U32, InFloatRange, LutGuard;
    if j < n {
      if LutAt(off, j) + 8 <= |a| {
        WordKept(a, b, LutAt(off, j));
        WordKept(a, b, LutAt(off, j) + 4);
      }
      if FloatAt(off, j) + 4 <= |a| {
        WordKept(a, b, FloatAt(off, j));
        FloatsPlanOnwards(a, b, off, j + 1, n);
      }
    }
  }

  // What the tool makes of any file.
  function RunResult(d: seq<Byte>): Outcome {
    if |d| < 4 || Containers.TagAt(d, 0) != "CPFF" then NotCpff
    else
      match RunChain(d, FIRST_RECORD, NOTHING)
      case Failure(f) => FaultOutcome(f)
      case Success((e, t)) =>
        if t.n3 != U16_CELLS || t.n31 != FLOAT_CELLS then WrongCount
        else if 0x40 > |e| then OutOfBounds
        else
          match Checksums.Repaired(e, AIQB, AIQB + U32(e, 0x3c))
          case None => OutOfBounds
          case Some(r) => Written(r)
  }

  // The tool itself.
  method Patch(d: array<Byte>) returns (outcome: Outcome)
    modifies d
    ensures outcome == RunResult(old(d[..]))
    ensures outcome.Written? ==> d[..] == outcome.bytes
  {
    hide RunChain, Checksums.Repaired, U32;
    if d.Length < 4 || Containers.TagAt(d[..], 0) != "CPFF" {
      return NotCpff;
    }
    var counts, t := PatchRecords(d);
    if counts.Failure? {
      return FaultOutcome(counts.error);
    }
    if counts.value.0 != U16_CELLS || counts.value.1 != FLOAT_CELLS {
      return WrongCount;
    }
    if d.Length < 0x40 {
      return OutOfBounds;
    }
    var size: nat := U32(d[..], 0x3c);
    var ok := Checksums.Repair(d, AIQB, AIQB + size);
    outcome := if ok then Written(d[..]) else OutOfBounds;
  }

  // Any output file satisfies both checksum equations, fitting tables or not.
  lemma OutputHolds(d: seq<Byte>)
    requires RunResult(d).Written?
    ensures var r := RunResult(d).bytes;
            && 0x40 <= |r| == |d| && Checksums.FileHolds(r)
            && Checksums.SectionHolds(r, AIQB, AIQB + U32(r, 0x3c))
  {
    hide RunChain, U32, Checksums.Repaired, Checksums.FileHolds, Checksums.SectionHolds;
    var e := RunChain(d, FIRST_RECORD, NOTHING).value.0;
    Checksums.RepairedHolds(e, AIQB, AIQB + U32(e, 0x3c));
    WordKept(e, RunResult(d).bytes, 0x3c);
  }

  // On a file whose tables fit their records, running is planning on the
  // untouched input, rewriting, and repairing.
  lemma FittingFilesArePlanned(d: seq<Byte>)
    requires Fits(d, FIRST_RECORD)
    ensures RunResult(d) == PatchResult(d)
  {
    hide Fits, U32, ChainPlan, RunChain, Checksums.Repaired, Follows;
    if |d| < FIRST_RECORD {
      NoRecords(d);
    } else {
      FollowsAtStart(d);
      RunIsPlanned(d, d, FIRST_RECORD, NOTHING);
      if ChainPlan(d, FIRST_RECORD).Success? {
        SizeStays(d, ChainPlan(d, FIRST_RECORD).value);
      }
    }
  }

  lemma NoRecords(d: seq<Byte>)
    requires |d| < FIRST_RECORD
    ensures ChainPlan(d, FIRST_RECORD) == Success(NOTHING) && RunChain(d, FIRST_RECORD, NOTHING) == Success((d, NOTHING))
  {
  }

  // The section size is read after the rewriting; it does not move.
  lemma SizeStays(d: seq<Byte>, t: Tally)
    requires FIRST_RECORD <= |d| && Fits(d, FIRST_RECORD) && ChainPlan(d, FIRST_RECORD) == Success(t)
    ensures U32(Apply(d, t.edits), 0x3c) == U32(d, 0x3c)
  {
    hide Fits, U32, ChainPlan;
    ChainOrdered(d, FIRST_RECORD);
    OrderedBounds(t.edits, FIRST_RECORD, |d|);
    forall k | 0x3c <= k < 0x40
      ensures Apply(d, t.edits)[k] == d[k]
    {
      ApplyElsewhere(d, t.edits, k);
    }
    WordKept(Apply(d, t.edits), d, 0x3c);
  }
}
