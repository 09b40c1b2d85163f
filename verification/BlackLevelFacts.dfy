// What a finished run of the black-level patcher did to the file, and why the
// tool refuses its own output.
module BlackLevelFacts {
  import opened Wrappers
  import opened Bytes
  import opened Floats
  import opened BlackLevelPatch
  import Containers
  import Checksums
  import Records

  // A run on d, whose tables fit their records, that wrote r after the edits t.
  ghost predicate Ran(d: seq<Byte>, t: Tally, r: seq<Byte>) {
    RunResult(d) == Written(r) && Fits(d, FIRST_RECORD) && ChainPlan(d, FIRST_RECORD) == Success(t)
  }

  ghost predicate InSums(k: nat) {
    Checksums.FILE_SUM <= k < Checksums.FILE_SUM + 4
    || AIQB + Checksums.SECTION_SUM <= k < AIQB + Checksums.SECTION_SUM + 4
  }

  // Both checksums hold, every edit is there, and nothing else moved.
  lemma RanParts(d: seq<Byte>, t: Tally, r: seq<Byte>)
    requires Ran(d, t, r)
    ensures FIRST_RECORD <= |d| == |r| && t.n3 == U16_CELLS && t.n31 == FLOAT_CELLS
    ensures Checksums.SectionHolds(r, AIQB, AIQB + U32(d, 0x3c)) && Checksums.FileHolds(r)
    ensures Stored(r, t.edits) && OnlyEdits(d, r, t.edits, FIRST_RECORD, |d|)
    ensures forall k :: 0 <= k < |d| && r[k] != d[k] && !InSums(k) ==> exists e :: e in t.edits && Bytes.Covers(e, k)
  {
    hide ChainPlan, Fits, U32, Apply, RunResult, Checksums.Repaired, Checksums.SectionHolds, Checksums.FileHolds;
    FittingFilesArePlanned(d);
    if |d| < FIRST_RECORD {
      NoRecords(d);
      assert false;
    }
    var a := Apply(d, t.edits);
    ChainOrdered(d, FIRST_RECORD);
    OrderedBounds(t.edits, FIRST_RECORD, |d|);
    ApplyStores(d, t.edits, FIRST_RECORD, |d|);
    Checksums.RepairedHolds(a, AIQB, AIQB + U32(d, 0x3c));
    StoredStays(a, r, t.edits, FIRST_RECORD, |d|);
  }

  lemma StoredStays(a: seq<Byte>, r: seq<Byte>, es: seq<Edit>, lo: nat, hi: nat)
    requires Stored(a, es) && |a| == |r| && (forall e :: e in es ==> lo <= e.at && e.at + |e.bytes| <= hi)
    requires hi <= |a| && forall k :: lo <= k < hi ==> a[k] == r[k]
    ensures Stored(r, es)
  {
    forall e | e in es
      ensures r[e.at..e.at + |e.bytes|] == e.bytes
    {
      assert a[e.at..e.at + |e.bytes|] == r[e.at..e.at + |e.bytes|];
    }
  }

  // ---------------------------------------------------------------- cell values

  lemma {:induction false} HalfPlanned(d: seq<Byte>, off: nat, j: nat, n: nat, i: nat)
    requires j <= i < n && HalvesPlan(d, off, j, n).Success?
    ensures HalfAt(off, i) + 2 <= |d| && InHalfRange(U16(d, HalfAt(off, i)))
    ensures Edit(HalfAt(off, i), Pack16(Quarter16(U16(d, HalfAt(off, i))))) in HalvesPlan(d, off, j, n).value
    decreases n - j
  {
    hide U16, HalfAt, Quarter16, Pack16, InHalfRange;
    if j < i {
      HalfPlanned(d, off, j + 1, n, i);
    }
  }

  lemma {:induction false} FloatPlanned(d: seq<Byte>, off: nat, j: nat, n: nat, i: nat)
    requires j <= i < n && FloatsPlan(d, off, j, n).Success?
    ensures FloatAt(off, i) + 4 <= |d| && InFloatRange(U32(d, FloatAt(off, i)))
    ensures Edit(FloatAt(off, i), Pack32(Quarter32(U32(d, FloatAt(off, i))))) in FloatsPlan(d, off, j, n).value
    decreases n - j
  {
    hide U32, FloatAt, LutAt, LutFault, Quarter32, Pack32, InFloatRange;
    if j < i {
      FloatPlanned(d, off, j + 1, n, i);
    }
  }

  lemma {:induction false} RecordPlanned(d: seq<Byte>, off: nat, rec: Records.Record)
    requires ChainPlan(d, off).Success? && rec in Records.Chain(d, off, |d|, Records.CMC_NID)
    ensures RecordPlan(d, rec.off, rec.nid).Success?
    ensures forall e :: e in RecordPlan(d, rec.off, rec.nid).value ==> e in ChainPlan(d, off).value.edits
    decreases |d| - off
  {
    hide U32, U16, RecordPlan;
    var size := U32(d, off);
    if rec != Records.Record(off, size, d[off + 4], d[off + 5], U16(d, off + 6)) {
      RecordPlanned(d, off + size, rec);
    }
  }

  // Every u16 of every black_level record was in the guarded range and is now
  // its quarter, rounded to within half a unit, ties to even.
  lemma HalvesAreQuartered(d: seq<Byte>, t: Tally, r: seq<Byte>, rec: Records.Record, i: nat)
    requires Ran(d, t, r)
    requires rec in Records.Chain(d, FIRST_RECORD, |d|, Records.CMC_NID) && rec.nid == BLACK_LEVEL
    ensures rec.off + 12 <= |d|
    ensures i < 4 * U32(d, rec.off + 8) ==>
              && HalfAt(rec.off, i) + 2 <= |d| == |r|
              && var v, q := U16(d, HalfAt(rec.off, i)), U16(r, HalfAt(rec.off, i));
                 12000 < v < 20000 && -2 <= 4 * q - v <= 2 && (v % 4 == 2 ==> q % 2 == 0)
  {
    hide ChainPlan, Fits, U32, U16, HalvesPlan, HalfAt, RunResult, Stored, OnlyEdits, Records.Chain, Pack16, Quarter16;
    RanParts(d, t, r);
    RecordPlanned(d, FIRST_RECORD, rec);
    if i < 4 * U32(d, rec.off + 8) {
      HalfPlanned(d, rec.off, 0, 4 * U32(d, rec.off + 8), i);
      StoredHalf(d, r, t.edits, HalfAt(rec.off, i));
    }
  }

  lemma StoredHalf(d: seq<Byte>, r: seq<Byte>, es: seq<Edit>, at: nat)
    requires at + 2 <= |d| == |r| && Stored(r, es) && Edit(at, Pack16(Quarter16(U16(d, at)))) in es
    ensures var v, q := U16(d, at), U16(r, at); -2 <= 4 * q - v <= 2 && (v % 4 == 2 ==> q % 2 == 0)
  {
    hide Pack16, Quarter16;
    var b := Pack16(Quarter16(U16(d, at)));
    assert r[at..at + 2] == b;
    assert r[at] == r[at..at + 2][0] && r[at + 1] == r[at..at + 2][1];
    QuarterIsNearest(U16(d, at));
  }

  lemma QuarterIsNearest(v: nat)
    requires v < 0x1_0000
    ensures -2 <= 4 * Quarter16(v) - v <= 2 && (v % 4 == 2 ==> Quarter16(v) % 2 == 0)
  {
    var q := Quarter16(v);
    assert 4.0 * (q as real - v as real / 4.0) == (4 * q - v) as real;
    if v % 4 == 2 {
      assert 4 * q - v == 2 || 4 * q - v == -2;
    }
  }

  // Every float of every black_level_global record is exactly a quarter of what
  // it was.
  lemma FloatsAreQuartered(d: seq<Byte>, t: Tally, r: seq<Byte>, rec: Records.Record, i: nat)
    requires Ran(d, t, r)
    requires rec in Records.Chain(d, FIRST_RECORD, |d|, Records.CMC_NID) && rec.nid == BLACK_LEVEL_GLOBAL
    ensures rec.off + 12 <= |d|
    ensures i < 16 * U32(d, rec.off + 8) ==>
              && FloatAt(rec.off, i) + 4 <= |d| == |r|
              && Decode(U32(d, FloatAt(rec.off, i))).Fin?
              && Decode(U32(r, FloatAt(rec.off, i))) == Fin(Decode(U32(d, FloatAt(rec.off, i))).r / 4.0)
  {
    hide ChainPlan, Fits, U32, FloatsPlan, FloatAt, RunResult, Stored, OnlyEdits, Records.Chain, Pack32, Decode, InFloatRange,
         Quarter32;
    RanParts(d, t, r);
    RecordPlanned(d, FIRST_RECORD, rec);
    if i < 16 * U32(d, rec.off + 8) {
      FloatPlanned(d, rec.off, 0, 16 * U32(d, rec.off + 8), i);
      StoredQuarter(d, r, t.edits, FloatAt(rec.off, i));
    }
  }

  lemma StoredQuarter(d: seq<Byte>, r: seq<Byte>, es: seq<Edit>, at: nat)
    requires at + 4 <= |d| == |r| && InFloatRange(U32(d, at)) && Stored(r, es)
    requires Edit(at, Pack32(Quarter32(U32(d, at)))) in es
    ensures Decode(U32(d, at)).Fin?
    ensures Decode(U32(r, at)) == Fin(Decode(U32(d, at)).r / 4.0)
  {
    hide U32, Pack32, Decode, InFloatRange, Quarter32;
    var b := Pack32(Quarter32(U32(d, at)));
    assert r[at..at + 4] == Edit(at, b).bytes;
    SameWord(r, b, at, 0);
    Quarter32IsExact(U32(d, at));
  }

  // ------------------------------------------------- the structure, and a rerun

  // A rerun of the record: its table is where it was, every read in bounds, and
  // any u16 cell is refused by the range guard.
  lemma RecordAgain(d: seq<Byte>, r: seq<Byte>, rec: Records.Record)
    requires rec.size >= 8 && TableFits(d, rec) && RecordPlan(d, rec.off, rec.nid).Success?
    requires rec.off + rec.size <= |d|
    requires OnlyEdits(d, r, RecordPlan(d, rec.off, rec.nid).value, rec.off, rec.off + rec.size)
    requires Stored(r, RecordPlan(d, rec.off, rec.nid).value)
    ensures TableFits(r, rec)
    ensures var again := RecordPlan(r, rec.off, rec.nid);
            || again == Failure(RangeGuard)
            || (again.Success? && (rec.nid == BLACK_LEVEL ==> RecordPlan(d, rec.off, rec.nid).value == []))
  {
    hide U32, FloatsPlan, HalvesPlan;
    RecordOrdered(d, rec);
    if rec.nid == BLACK_LEVEL || rec.nid == BLACK_LEVEL_GLOBAL {
      var here := RecordPlan(d, rec.off, rec.nid).value;
      OrderedBounds(here, rec.off + 12, rec.off + rec.size);
      WordKept(d, r, rec.off + 8);
      var num: nat := U32(d, rec.off + 8);
      if rec.nid == BLACK_LEVEL {
        HalvesAgain(d, r, rec.off, 4 * num);
      } else {
        FloatsAgain(d, r, rec.off, 0, num);
      }
    }
  }

  lemma HalvesAgain(d: seq<Byte>, r: seq<Byte>, off: nat, n: nat)
    requires |d| == |r| && HalvesPlan(d, off, 0, n).Success? && Stored(r, HalvesPlan(d, off, 0, n).value)
    ensures HalvesPlan(r, off, 0, n) == if n == 0 then Success([]) else Failure(RangeGuard)
    ensures n == 0 ==> HalvesPlan(d, off, 0, n).value == []
  {
    if n > 0 {
      HalfPlanned(d, off, 0, n, 0);
      var at := HalfAt(off, 0);
      var e := Edit(at, Pack16(Quarter16(U16(d, at))));
      assert r[at..at + 2] == e.bytes;
      assert r[at] == r[at..at + 2][0] && r[at + 1] == r[at..at + 2][1];
      assert U16(r, at) == U16(e.bytes, 0) == Quarter16(U16(d, at));
    }
  }

  lemma {:induction false} FloatsAgain(d: seq<Byte>, r: seq<Byte>, off: nat, j: nat, num: nat)
    requires j <= 16 * num && FloatsPlan(d, off, j, 16 * num).Success?
    requires OnlyEdits(d, r, FloatsPlan(d, off, j, 16 * num).value, if j % 16 == 0 then LutAt(off, j) else FloatAt(off, j),
                       off + 24 + 72 * num)
    ensures FloatsPlan(r, off, j, 16 * num).Success? || FloatsPlan(r, off, j, 16 * num) == Failure(RangeGuard)
    decreases 16 * num - j
  {
    hide U32, Quarter32, InFloatRange, LutFault, Pack32, FloatAt, LutAt, FloatsPlan, OnlyEdits;
    if j < 16 * num {
      CellsStart(d, off, j, num);
      LutStays(d, r, off, j, num);
      RestStays(d, r, off, j, num);
      FloatsAgain(d, r, off, j + 1, num);
      OnlyEditsSize(d, r, FloatsPlan(d, off, j + 1, 16 * num).value,
                    if (j + 1) % 16 == 0 then LutAt(off, j + 1) else FloatAt(off, j + 1), off + 24 + 72 * num);
      FloatsStep(r, off, j, 16 * num);
    } else {
      FloatsOver(r, off, 16 * num);
    }
  }

  lemma CellsStart(d: seq<Byte>, off: nat, j: nat, num: nat)
    requires j < 16 * num && FloatsPlan(d, off, j, 16 * num).Success?
    ensures FloatsPlan(d, off, j + 1, 16 * num).Success? && FloatAt(off, j) + 4 <= |d|
    ensures forall e :: e in FloatsPlan(d, off, j, 16 * num).value ==> FloatAt(off, j) <= e.at
  {
    hide U32, Quarter32, InFloatRange, LutGuard, Pack32, FloatAt, LutAt;
    FloatsHead(d, off, j, 16 * num);
    FloatNext(off, j, num);
    FloatsOrdered(d, off, j, num);
    OrderedBounds(FloatsPlan(d, off, j, 16 * num).value, FloatAt(off, j), off + 24 + 72 * num);
  }

  // Exposure and gain of a LUT are not cells.
  lemma LutStays(d: seq<Byte>, r: seq<Byte>, off: nat, j: nat, num: nat)
    requires j < 16 * num && FloatsPlan(d, off, j, 16 * num).Success?
    requires OnlyEdits(d, r, FloatsPlan(d, off, j, 16 * num).value, if j % 16 == 0 then LutAt(off, j) else FloatAt(off, j),
                       off + 24 + 72 * num)
    requires forall e :: e in FloatsPlan(d, off, j, 16 * num).value ==> FloatAt(off, j) <= e.at
    ensures j % 16 == 0 ==> LutFault(r, LutAt(off, j)).None?
  {
    hide U32, Quarter32, InFloatRange, LutGuard, Pack32;
    if j % 16 == 0 {
      WordKept(d, r, LutAt(off, j));
      WordKept(d, r, LutAt(off, j) + 4);
    }
  }

  lemma RestStays(d: seq<Byte>, r: seq<Byte>, off: nat, j: nat, num: nat)
    requires j < 16 * num && FloatsPlan(d, off, j, 16 * num).Success? && FloatsPlan(d, off, j + 1, 16 * num).Success?
    requires OnlyEdits(d, r, FloatsPlan(d, off, j, 16 * num).value, if j % 16 == 0 then LutAt(off, j) else FloatAt(off, j),
                       off + 24 + 72 * num)
    ensures OnlyEdits(d, r, FloatsPlan(d, off, j + 1, 16 * num).value,
                      if (j + 1) % 16 == 0 then LutAt(off, j + 1) else FloatAt(off, j + 1), off + 24 + 72 * num)
  {
    hide FloatsPlan;
    FloatsHead(d, off, j, 16 * num);
    var es, rest := FloatsPlan(d, off, j, 16 * num).value, FloatsPlan(d, off, j + 1, 16 * num).value;
    assert es == [es[0]] + rest;
    StartsGrow(off, j, num);
  }

  lemma StartsGrow(off: nat, j: nat, num: nat)
    requires j < 16 * num
    ensures FloatAt(off, j) + 4 <= if (j + 1) % 16 == 0 then LutAt(off, j + 1) else FloatAt(off, j + 1)
    ensures LutAt(off, j) <= FloatAt(off, j)
  {
  }

  // The rest of the file reads the same chain of records; unless it holds no u16
  // cell, a rerun fails on the range guard and on nothing else.
  lemma {:induction false} ChainAgain(d: seq<Byte>, r: seq<Byte>, off: nat)
    requires off <= |d| && Fits(d, off) && ChainPlan(d, off).Success?
    requires OnlyEdits(d, r, ChainPlan(d, off).value.edits, off, |d|) && Stored(r, ChainPlan(d, off).value.edits)
    ensures Records.Chain(r, off, |d|, Records.CMC_NID) == Records.Chain(d, off, |d|, Records.CMC_NID)
    ensures Fits(r, off)
    ensures ChainPlan(r, off) == Failure(RangeGuard) || (ChainPlan(r, off).Success? && ChainPlan(d, off).value.n3 == 0)
    decreases |d| - off
  {
    hide U32, U16, RecordPlan, TableFits, ChainPlan, Fits, Count, FollowedBy, OnlyEdits, Stored;
    ChainStep(d, off);
    ChainStep(r, off);
    OnlyEditsSize(d, r, ChainPlan(d, off).value.edits, off, |d|);
    if off + 8 <= |d| {
      HeaderAgain(d, r, off);
      var size, nid := U32(d, off), U16(d, off + 6);
      if 8 <= size && off + size <= |d| && nid <= Records.CMC_NID {
        var rec := Records.Record(off, size, d[off + 4], d[off + 5], nid);
        var here := RecordPlan(d, off, nid).value;
        FitsNext(d, off);
        JoinParts(nid, here, ChainPlan(d, off + size));
        var rest := ChainPlan(d, off + size).value;
        ChainOrdered(d, off + size);
        RecordOrdered(d, rec);
        OrderedWiden(here, off + 8, off + size, off, off + size);
        SplitEdits(d, r, here, rest.edits, off, off + size, |d|);
        RecordAgain(d, r, rec);
        ChainAgain(d, r, off + size);
        FitsCons(r, off);
        var again := RecordPlan(r, off, nid);
        if again.Success? {
          JoinParts(nid, again.value, ChainPlan(r, off + size));
        }
      } else {
        FitsNone(r, off);
      }
    } else {
      FitsNone(r, off);
    }
  }

  lemma FitsCons(d: seq<Byte>, off: nat)
    requires off + 8 <= |d| && U32(d, off) >= 8 && off + U32(d, off) <= |d| && U16(d, off + 6) <= Records.CMC_NID
    requires TableFits(d, Records.Record(off, U32(d, off), d[off + 4], d[off + 5], U16(d, off + 6)))
    requires Fits(d, off + U32(d, off))
    ensures Fits(d, off)
  {
    hide U32, U16, TableFits;
  }

  lemma FitsNone(d: seq<Byte>, off: nat)
    requires off + 8 > |d| || U32(d, off) < 8 || off + U32(d, off) > |d| || U16(d, off + 6) > Records.CMC_NID
    ensures Fits(d, off) && NOTHING.n3 == 0
  {
    hide U32, U16;
  }

  lemma OnlyEditsSize(d: seq<Byte>, r: seq<Byte>, es: seq<Edit>, lo: nat, hi: nat)
    requires OnlyEdits(d, r, es, lo, hi)
    ensures |d| == |r|
  {
  }

  lemma JoinParts(nid: nat, here: seq<Edit>, rest: Result<Tally, Fault>)
    ensures var all := FollowedBy(Count(NOTHING, nid, here), rest);
            && all.Success? == rest.Success?
            && (rest.Failure? ==> all == rest)
            && (rest.Success? ==> all.value.edits == here + rest.value.edits)
            && (rest.Success? ==> all.value.n3 == rest.value.n3 + if nid == BLACK_LEVEL then |here| else 0)
  {
    assert [] + here == here;
  }

  // No cell lies in the header of the record the chain starts with.
  lemma HeaderAgain(d: seq<Byte>, r: seq<Byte>, off: nat)
    requires off + 8 <= |d| && Fits(d, off) && ChainPlan(d, off).Success?
    requires OnlyEdits(d, r, ChainPlan(d, off).value.edits, off, |d|)
    ensures |d| == |r| && U32(r, off) == U32(d, off) && U16(r, off + 6) == U16(d, off + 6)
    ensures r[off + 4] == d[off + 4] && r[off + 5] == d[off + 5]
  {
    hide U32, U16, RecordPlan, TableFits, ChainPlan, Fits, Count, FollowedBy;
    ChainStep(d, off);
    var all := ChainPlan(d, off).value.edits;
    var size, nid := U32(d, off), U16(d, off + 6);
    if 8 <= size && off + size <= |d| && nid <= Records.CMC_NID {
      var rec := Records.Record(off, size, d[off + 4], d[off + 5], nid);
      var here, rest := RecordPlan(d, off, nid).value, ChainPlan(d, off + size);
      FitsNext(d, off);
      JoinParts(nid, here, rest);
      RecordOrdered(d, rec);
      ChainOrdered(d, off + size);
      OrderedBounds(here, off + 8, off + size);
      OrderedBounds(rest.value.edits, off + size, |d|);
    }
    assert forall k :: off <= k < off + 8 ==> d[k] == r[k];
    WordKept(d, r, off);
    HalfKept(d, r, off + 6);
  }

  lemma WrittenIsCpff(d: seq<Byte>)
    requires RunResult(d).Written?
    ensures |d| >= 4 && Containers.TagAt(d, 0) == "CPFF"
  {
    hide RunChain, Checksums.Repaired;
  }

  // The record walk of the output is that of the input, and the tool run on its
  // own output is always refused by the range guard.
  lemma RerunIsRefused(d: seq<Byte>, t: Tally, r: seq<Byte>)
    requires Ran(d, t, r)
    ensures Records.Chain(r, FIRST_RECORD, |r|, Records.CMC_NID) == Records.Chain(d, FIRST_RECORD, |d|, Records.CMC_NID)
    ensures RunResult(r) == GuardFailed
  {
    hide ChainPlan, Fits, RunResult, Checksums.Repaired, Records.Chain, U32, Checksums.SectionHolds, Checksums.FileHolds;
    RanParts(d, t, r);
    ChainAgain(d, r, FIRST_RECORD);
    WrittenIsCpff(d);
    FittingFilesArePlanned(r);
    ChainOrdered(d, FIRST_RECORD);
    OrderedBounds(t.edits, FIRST_RECORD, |d|);
    assert forall k :: 0 <= k < 4 ==> r[k] == d[k];
    assert Containers.TagAt(r, 0) == Containers.TagAt(d, 0);
  }

  // --------------------------------------------------- which files are patched

  // The cells and tables of the two records, and what the guards ask of them.
  ghost predicate HalfOk(d: seq<Byte>, at: nat) {
    at + 2 <= |d| && 12000 < U16(d, at) < 20000
  }

  ghost predicate FloatOk(d: seq<Byte>, at: nat) {
    && at + 4 <= |d| && Decode(U32(d, at)).Fin?
    && (Decode(U32(d, at)).r == 0.0 || 50.0 < Decode(U32(d, at)).r < 80.0)
  }

  ghost predicate LutOk(d: seq<Byte>, at: nat) {
    && at + 8 <= |d| && 0 < U32(d, at) < 200000
    && Decode(U32(d, at + 4)).Fin? && 0.0 < Decode(U32(d, at + 4)).r < 200.0
  }

  // Four u16 behind the exposure and gain words of each LUT of 16 bytes.
  ghost predicate HalfLutOk(d: seq<Byte>, off: nat, i: nat) {
    forall c: nat :: c < 4 ==> HalfOk(d, off + 12 + 16 * i + 8 + 2 * c)
  }

  // Sixteen floats behind the exposure and gain of each LUT of 72 bytes.
  ghost predicate FloatLutOk(d: seq<Byte>, off: nat, i: nat) {
    LutOk(d, off + 24 + 72 * i) && forall c: nat :: c < 16 ==> FloatOk(d, off + 24 + 72 * i + 8 + 4 * c)
  }

  ghost predicate RecordOk(d: seq<Byte>, off: nat, nid: nat) {
    && (nid in {3, 31} ==> off + 12 <= |d|)
    && (nid == 3 ==> forall i: nat :: i < U32(d, off + 8) ==> HalfLutOk(d, off, i))
    && (nid == 31 ==> forall i: nat :: i < U32(d, off + 8) ==> FloatLutOk(d, off, i))
  }

  lemma {:induction false} HalvesAccepted(d: seq<Byte>, off: nat, j: nat, n: nat)
    ensures HalvesPlan(d, off, j, n).Success? <==> forall k: nat :: j <= k < n ==> HalfOk(d, HalfAt(off, k))
    decreases n - j
  {
    hide U16, HalfAt, Pack16, Quarter16;
    if j < n {
      HalvesAccepted(d, off, j + 1, n);
    }
  }

  lemma {:induction false} FloatsAccepted(d: seq<Byte>, off: nat, j: nat, n: nat)
    ensures FloatsPlan(d, off, j, n).Success? <==>
              forall k: nat :: j <= k < n ==> FloatOk(d, FloatAt(off, k)) && (k % 16 == 0 ==> LutOk(d, LutAt(off, k)))
    decreases n - j
  {
    hide U32, FloatAt, LutAt, Pack32, Quarter32, Decode;
    if j < n {
      FloatsAccepted(d, off, j + 1, n);
    }
  }

  lemma HalvesByLut(d: seq<Byte>, off: nat, num: nat)
    ensures (forall k: nat :: k < 4 * num ==> HalfOk(d, HalfAt(off, k))) <==> forall i: nat :: i < num ==> HalfLutOk(d, off, i)
  {
    hide HalfOk;
    if forall k: nat :: k < 4 * num ==> HalfOk(d, HalfAt(off, k)) {
      forall i: nat, c: nat | i < num && c < 4
        ensures HalfOk(d, off + 12 + 16 * i + 8 + 2 * c)
      {
        assert HalfOk(d, HalfAt(off, 4 * i + c));
      }
    }
    if forall i: nat :: i < num ==> HalfLutOk(d, off, i) {
      forall k: nat | k < 4 * num
        ensures HalfOk(d, HalfAt(off, k))
      {
        assert HalfLutOk(d, off, k / 4);
        var c: nat := k % 4;
        assert HalfOk(d, off + 12 + 16 * (k / 4) + 8 + 2 * c);
      }
    }
  }

  lemma FloatsByLut(d: seq<Byte>, off: nat, num: nat)
    ensures (forall k: nat :: k < 16 * num ==> FloatOk(d, FloatAt(off, k)) && (k % 16 == 0 ==> LutOk(d, LutAt(off, k))))
            <==> forall i: nat :: i < num ==> FloatLutOk(d, off, i)
  {
    hide FloatOk, LutOk;
    if forall k: nat :: k < 16 * num ==> FloatOk(d, FloatAt(off, k)) && (k % 16 == 0 ==> LutOk(d, LutAt(off, k))) {
      forall i: nat | i < num
        ensures FloatLutOk(d, off, i)
      {
        assert FloatOk(d, FloatAt(off, 16 * i)) && LutOk(d, LutAt(off, 16 * i));
        forall c: nat | c < 16
          ensures FloatOk(d, off + 24 + 72 * i + 8 + 4 * c)
        {
          assert FloatOk(d, FloatAt(off, 16 * i + c));
        }
      }
    }
    if forall i: nat :: i < num ==> FloatLutOk(d, off, i) {
      forall k: nat | k < 16 * num
        ensures FloatOk(d, FloatAt(off, k)) && (k % 16 == 0 ==> LutOk(d, LutAt(off, k)))
      {
        assert FloatLutOk(d, off, k / 16);
        var c: nat := k % 16;
        assert FloatOk(d, off + 24 + 72 * (k / 16) + 8 + 4 * c);
      }
    }
  }

  lemma RecordAccepted(d: seq<Byte>, off: nat, nid: nat)
    ensures RecordPlan(d, off, nid).Success? <==> RecordOk(d, off, nid)
  {
    hide U32, HalvesPlan, FloatsPlan, HalfLutOk, FloatLutOk;
    if off + 12 <= |d| {
      var num: nat := U32(d, off + 8);
      HalvesAccepted(d, off, 0, 4 * num);
      HalvesByLut(d, off, num);
      FloatsAccepted(d, off, 0, 16 * num);
      FloatsByLut(d, off, num);
    }
  }

  // The LUTs of the records with this name id.
  ghost function Luts(d: seq<Byte>, recs: seq<Records.Record>, nid: nat): nat {
    if recs == [] then 0
    else (if recs[0].nid == nid && recs[0].off + 12 <= |d| then U32(d, recs[0].off + 8) else 0) + Luts(d, recs[1..], nid)
  }

  lemma {:induction false} ChainAccepted(d: seq<Byte>, off: nat)
    ensures var recs, r := Records.Chain(d, off, |d|, 200), ChainPlan(d, off);
            && (r.Success? <==> forall rec :: rec in recs ==> RecordOk(d, rec.off, rec.nid))
            && (r.Success? ==> r.value.n3 == 4 * Luts(d, recs, 3) && r.value.n31 == 16 * Luts(d, recs, 31))
    decreases |d| - off
  {
    hide U32, U16, RecordPlan, RecordOk;
    if off + 8 <= |d| {
      var size, nid := U32(d, off), U16(d, off + 6);
      if size >= 8 && off + size <= |d| && nid <= 200 {
        var first := Records.Record(off, size, d[off + 4], d[off + 5], nid);
        var rest := Records.Chain(d, off + size, |d|, 200);
        assert Records.Chain(d, off, |d|, 200) == [first] + rest;
        assert ([first] + rest)[1..] == rest;
        ChainAccepted(d, off + size);
        RecordAccepted(d, off, nid);
        if RecordPlan(d, off, nid).Success? {
          CellsCounted(d, off, nid);
        }
      }
    }
  }

  lemma CellsCounted(d: seq<Byte>, off: nat, nid: nat)
    requires RecordPlan(d, off, nid).Success?
    ensures var n := |RecordPlan(d, off, nid).value|;
            nid in {3, 31} ==> off + 12 <= |d| && n == (if nid == 3 then 4 else 16) * U32(d, off + 8)
  {
  }

  // The tool writes a file exactly when it starts with CPFF, is a multiple of four
  // bytes long, passes every guard, has 25 LUTs of either kind, and its AIQB
  // section can be summed.
  lemma WrittenExactly(d: seq<Byte>)
    requires Fits(d, FIRST_RECORD)
    ensures var recs := Records.Chain(d, 0x50, |d|, 200);
            RunResult(d).Written? <==>
              && 0x50 <= |d| && |d| % 4 == 0 && d[..4] == Containers.Ascii("CPFF")
              && (forall rec :: rec in recs ==> RecordOk(d, rec.off, rec.nid))
              && Luts(d, recs, 3) == 25 && Luts(d, recs, 31) == 25
              && Checksums.AllReadable(d, 0x38, 0x38 + U32(d, 0x3c), 0x4c)
  {
    hide ChainPlan, RunResult, RecordOk, U32, Luts, Checksums.Repaired, Checksums.AllReadable, Records.Chain, Fits;
    FittingFilesArePlanned(d);
    ChainAccepted(d, FIRST_RECORD);
    if |d| < 0x50 {
      NoRecords(d);
    } else {
      Containers.MagicIs(d, "CPFF");
      if ChainPlan(d, FIRST_RECORD).Success? {
        var a := Apply(d, ChainPlan(d, FIRST_RECORD).value.edits);
        Checksums.RepairedExactly(a, AIQB, AIQB + U32(d, 0x3c));
        Checksums.ReadableByLength(a, d, 0x38, 0x38 + U32(d, 0x3c), 0x4c);
      }
    }
  }
}
