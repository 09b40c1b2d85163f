// What a finished run of the noise patcher did to the file: which bytes moved,
// and that every container, record and sub-record boundary stayed.
module NoisePatchFacts {
  import opened Wrappers
  import opened Bytes
  import opened Containers
  import opened Floats
  import opened NoisePatch
  import Checksums
  import Records

  // ------------------------------------------------------ sections in order

  ghost predicate InOrder(ss: seq<Section>, lo: nat) {
    if ss == [] then true
    else
      && lo <= ss[0].hdr && ss[0].start == ss[0].hdr + AIQB_HEADER && ss[0].hdr <= ss[0].end
      && InOrder(ss[1..], ss[0].end)
  }

  lemma {:induction false} WalkInOrder(tags: set<string>, d: seq<Byte>, p: nat, path: seq<Frame>, lo: nat)
    requires lo <= p
    ensures InOrder(Walk(tags, d, p, path).sections, lo)
    decreases |d| - p
  {
    hide U32, TagAt, PopEnded, BoxName, Join;
    if p + 16 <= |d| && TagAt(d, p) in tags {
      var end := p + U32(d, p + 4);
      var live := PopEnded(path, p);
      if TagAt(d, p) != "AIQB" {
        WalkInOrder(tags, d, p + BOX_HEADER, live + [Frame(BoxName(TagAt(d, p), U32(d, p + 8)), end)], lo);
      } else if end > p {
        WalkInOrder(tags, d, end, live, end);
        var rest := Walk(tags, d, end, live).sections;
        var s := Section(Join(Names(live)), p, p + AIQB_HEADER, end);
        assert ([s] + rest)[1..] == rest;
      }
    }
  }

  lemma {:induction false} InOrderAt(ss: seq<Section>, lo: nat, i: nat, j: nat)
    requires InOrder(ss, lo) && i < |ss| && j < |ss|
    ensures lo <= ss[i].hdr <= ss[i].end && ss[i].start == ss[i].hdr + AIQB_HEADER
    ensures i < j ==> ss[i].end <= ss[j].hdr
  {
    if i > 0 && j > 0 {
      InOrderAt(ss[1..], ss[0].end, i - 1, j - 1);
    } else if i > 0 {
      InOrderAt(ss[1..], ss[0].end, i - 1, i - 1);
    } else if j > 0 {
      InOrderAt(ss[1..], ss[0].end, j - 1, j - 1);
    }
  }

  // The last target really is the last: no target comes after it.
  lemma {:induction false} LastTargetAt(ss: seq<Section>) returns (t: nat)
    requires LastTarget(ss).Some?
    ensures t < |ss| && ss[t] == LastTarget(ss).value
    ensures forall i :: t < i < |ss| ==> ss[i].path != TARGET_PATH
  {
    if ss[|ss| - 1].path == TARGET_PATH {
      t := |ss| - 1;
    } else {
      t := LastTargetAt(ss[..|ss| - 1]);
    }
  }

  // -------------------------------------------------------- where cells lie

  ghost predicate Holds(x: Param, k: int) {
    x.vo <= k < x.vo + 4 * |x.after|
  }

  // Every parameter of the plan comes from a target section and lies in it.
  lemma {:induction false} PlanPick(d: seq<Byte>, ss: seq<Section>, lo: nat, factor: real, x: Param) returns (i: nat)
    requires InOrder(ss, lo) && Plan(d, ss, factor).Some? && x in Plan(d, ss, factor).value
    ensures i < |ss| && ss[i].path == TARGET_PATH
    ensures RecordsPlan(d, ss[i].start, ss[i].end, factor).Some?
    ensures x in RecordsPlan(d, ss[i].start, ss[i].end, factor).value
    ensures ss[i].start <= x.vo && x.vo + 4 * |x.after| <= ss[i].end
  {
    var here := SectionPlan(d, ss[0], factor).value;
    if x in here {
      i := 0;
      CellsInside(d, ss[0].start, ss[0].end, factor, x);
    } else {
      var j := PlanPick(d, ss[1..], ss[0].end, factor, x);
      i := j + 1;
    }
  }

  lemma CellsInside(d: seq<Byte>, off: nat, end: nat, factor: real, x: Param)
    requires RecordsPlan(d, off, end, factor).Some? && x in RecordsPlan(d, off, end, factor).value
    ensures off <= x.vo && x.vo + 4 * |x.after| <= end
  {
    hide SubsPlan;
    var ps := RecordsPlan(d, off, end, factor).value;
    RecordsOrdered(d, off, end, factor);
    OrderedBounds(Edits(ps), off, end);
    EditOf(ps, x);
  }

  lemma EditOf(ps: seq<Param>, x: Param)
    requires x in ps
    ensures Edit(x.vo, PackInts(x.after)) in Edits(ps)
  {
    var i :| 0 <= i < |ps| && ps[i] == x;
    assert Edits(ps)[i] == Edit(x.vo, PackInts(x.after));
  }

  lemma {:induction false} PlanOrdered(d: seq<Byte>, ss: seq<Section>, lo: nat, hi: nat, factor: real)
    requires InOrder(ss, lo) && lo <= hi && (forall s :: s in ss ==> s.end <= hi)
    requires Plan(d, ss, factor).Some?
    ensures Ordered(Edits(Plan(d, ss, factor).value), lo, hi)
  {
    if ss != [] {
      var s := ss[0];
      var here, rest := SectionPlan(d, s, factor).value, Plan(d, ss[1..], factor).value;
      PlanOrdered(d, ss[1..], s.end, hi, factor);
      if s.path == TARGET_PATH && s.start <= s.end {
        RecordsOrdered(d, s.start, s.end, factor);
        OrderedWiden(Edits(here), s.start, s.end, lo, s.end);
      } else {
        assert here == [] && Ordered(Edits(here), lo, s.end);
      }
      EditsConcat(here, rest);
      OrderedConcat(Edits(here), Edits(rest), lo, s.end, hi);
    }
  }

  // ------------------------------------------------------ the cells' contents

  lemma {:induction false} PackedWord(vs: seq<Int32>, i: nat)
    requires i < |vs|
    ensures PackInts(vs)[4 * i..4 * i + 4] == Pack32(Unsigned(vs[i]))
  {
    if i < |vs| - 1 {
      PackedWord(vs[..|vs| - 1], i);
      assert PackInts(vs)[4 * i..4 * i + 4] == PackInts(vs[..|vs| - 1])[4 * i..4 * i + 4];
    }
  }

  // A rewritten buffer holds each parameter's new values.
  lemma RewrittenCell(d: seq<Byte>, ps: seq<Param>, hi: nat, x: Param, i: nat)
    requires CellsInBounds(ps, |d|) && Ordered(Edits(ps), 0, hi) && x in ps && i < |x.after|
    ensures x.vo + 4 * |x.after| <= |d|
    ensures Signed(U32(Rewritten(d, ps), x.vo + 4 * i)) == x.after[i]
  {
    hide U32, Pack32;
    EditOf(ps, x);
    EditsInBounds(ps, |d|);
    ApplyHits(d, Edits(ps), 0, hi, Edit(x.vo, PackInts(x.after)));
    PackedWord(x.after, i);
    SameWord(PackInts(x.after), Pack32(Unsigned(x.after[i])), 4 * i, 0);
    WordInside(Rewritten(d, ps), x.vo, PackInts(x.after), 4 * i);
  }

  // ---------------------------------------------- nothing else of the plan moves

  // r differs from d, from lo up to hi, only in cells of ps.
  ghost predicate OnlyCells(d: seq<Byte>, r: seq<Byte>, ps: seq<Param>, lo: int, hi: int) {
    |d| == |r| && forall k :: 0 <= lo <= k < hi && k < |d| && d[k] != r[k] ==> exists x :: x in ps && Holds(x, k)
  }

  // The sub-records of a record, as (offset, size).
  function SubChain(d: seq<Byte>, p: nat, lim: nat): seq<(nat, nat)>
    decreases lim - p
  {
    if p + SUB_HEADER > lim || p + SUB_HEADER > |d| then []
    else
      var ssz := U32(d, p);
      if ssz < 16 || p + ssz > lim then [] else [(p, ssz as nat)] + SubChain(d, p + ssz, lim)
  }

  lemma {:induction false} SubsStay(d: seq<Byte>, r: seq<Byte>, p: nat, lim: nat, factor: real)
    requires SubsPlan(d, p, lim, factor).Some?
    requires OnlyCells(d, r, SubsPlan(d, p, lim, factor).value, p, lim)
    ensures SubChain(r, p, lim) == SubChain(d, p, lim)
    decreases lim - p
  {
    hide U32, SubPlan;
    if p + SUB_HEADER <= lim && p + SUB_HEADER <= |d| {
      SubsStart(d, p, lim, factor);
      WordKept(d, r, p);
      var ssz := U32(d, p);
      if 16 <= ssz && p + ssz <= lim {
        var here, rest := SubPlan(d, p, ssz, factor).value, SubsPlan(d, p + ssz, lim, factor).value;
        assert forall x, k :: x in here && Holds(x, k) ==> k < p + ssz;
        SubsStay(d, r, p + ssz, lim, factor);
      }
    }
  }

  // No cell of a chain of sub-records lies in its first header.
  lemma SubsStart(d: seq<Byte>, p: nat, lim: nat, factor: real)
    requires p + SUB_HEADER <= lim && p + 16 <= |d| && SubsPlan(d, p, lim, factor).Some?
    ensures forall x :: x in SubsPlan(d, p, lim, factor).value ==> p + 4 <= x.vo
  {
    hide U32, SubPlan;
    var ssz := U32(d, p);
    if 16 <= ssz && p + ssz <= lim {
      var rest := SubsPlan(d, p + ssz, lim, factor).value;
      SubsOrdered(d, p + ssz, lim, factor);
      OrderedBounds(Edits(rest), p + ssz, lim);
      forall x | x in rest
        ensures p + ssz <= x.vo
      {
        EditOf(rest, x);
      }
    }
  }

  lemma {:induction false} RecordsStay(d: seq<Byte>, r: seq<Byte>, off: nat, end: nat, factor: real)
    requires RecordsPlan(d, off, end, factor).Some?
    requires OnlyCells(d, r, RecordsPlan(d, off, end, factor).value, off, end)
    ensures Records.Chain(r, off, end, Records.ANY_NID) == Records.Chain(d, off, end, Records.ANY_NID)
    ensures forall rec :: rec in Records.Chain(d, off, end, Records.ANY_NID) && rec.nid == STREAM ==>
              SubChain(r, rec.off + Records.HEADER, rec.off + rec.size)
              == SubChain(d, rec.off + Records.HEADER, rec.off + rec.size)
    decreases end - off
  {
    hide U32, U16, SubsPlan, SubChain;
    if off + Records.HEADER <= end && off + Records.HEADER <= |d| {
      RecordsStart(d, off, end, factor);
      WordKept(d, r, off);
      HalfKept(d, r, off + 6);
      var size, nid := U32(d, off), U16(d, off + 6);
      if 8 <= size && off + size <= end {
        var next := off + size;
        var rest := RecordsPlan(d, next, end, factor).value;
        if nid == STREAM {
          var here := SubsPlan(d, off + Records.HEADER, next, factor).value;
          SubsOrdered(d, off + Records.HEADER, next, factor);
          OrderedBounds(Edits(here), off + Records.HEADER, next);
          forall x | x in here
            ensures off + Records.HEADER <= x.vo && x.vo + 4 * |x.after| <= next
          {
            EditOf(here, x);
          }
          forall x | x in rest
            ensures next <= x.vo
          {
            CellsInside(d, next, end, factor, x);
          }
          assert OnlyCells(d, r, here, off + Records.HEADER, next);
          SubsStay(d, r, off + Records.HEADER, next, factor);
        }
        RecordsStay(d, r, next, end, factor);
      }
    }
  }

  lemma RecordsStart(d: seq<Byte>, off: nat, end: nat, factor: real)
    requires off + Records.HEADER <= end && off + Records.HEADER <= |d| && RecordsPlan(d, off, end, factor).Some?
    ensures forall x :: x in RecordsPlan(d, off, end, factor).value ==> off + Records.HEADER <= x.vo
  {
    hide U32, U16, SubsPlan;
    var size := U32(d, off);
    if 8 <= size && off + size <= end {
      var rest := RecordsPlan(d, off + size, end, factor).value;
      forall x | x in rest
        ensures off + size <= x.vo
      {
        CellsInside(d, off + size, end, factor, x);
      }
      if U16(d, off + 6) == STREAM {
        var here := SubsPlan(d, off + Records.HEADER, off + size, factor).value;
        SubsOrdered(d, off + Records.HEADER, off + size, factor);
        OrderedBounds(Edits(here), off + Records.HEADER, off + size);
        forall x | x in here
          ensures off + Records.HEADER <= x.vo
        {
          EditOf(here, x);
        }
      }
    }
  }

  // From p on, r differs from d only behind the header fields of these sections.
  ghost predicate OnlyBodies(d: seq<Byte>, r: seq<Byte>, ss: seq<Section>, p: nat) {
    && |d| == |r|
    && forall k :: p <= k < |d| && d[k] != r[k] ==> exists s :: s in ss && Body(s, k)
  }

  ghost predicate Body(s: Section, k: int) {
    s.hdr + 12 <= k < s.end
  }

  lemma HeaderStays(d: seq<Byte>, r: seq<Byte>, ss: seq<Section>, p: nat)
    requires OnlyBodies(d, r, ss, p) && InOrder(ss, p)
    ensures |d| == |r| && forall k :: p <= k < p + 12 && k < |d| ==> d[k] == r[k]
  {
    forall k | p <= k < p + 12 && k < |d|
      ensures d[k] == r[k]
    {
      if d[k] != r[k] {
        var s :| s in ss && Body(s, k);
        var i :| 0 <= i < |ss| && ss[i] == s;
        InOrderAt(ss, p, i, i);
      }
    }
  }

  lemma PastTheSection(d: seq<Byte>, r: seq<Byte>, here: Section, rest: seq<Section>, p: nat)
    requires OnlyBodies(d, r, [here] + rest, p) && p <= here.end
    ensures OnlyBodies(d, r, rest, here.end)
  {
    assert forall s, k :: s in [here] + rest && Body(s, k) && here.end <= k ==> s in rest;
  }

  lemma FurtherOn(d: seq<Byte>, r: seq<Byte>, ss: seq<Section>, p: nat, q: nat)
    requires OnlyBodies(d, r, ss, p) && p <= q
    ensures OnlyBodies(d, r, ss, q)
  {
  }

  // Then the walk visits the same sections in both.
  lemma {:induction false} WalkStays(tags: set<string>, d: seq<Byte>, r: seq<Byte>, p: nat, path: seq<Frame>)
    requires OnlyBodies(d, r, Walk(tags, d, p, path).sections, p)
    ensures Walk(tags, r, p, path) == Walk(tags, d, p, path)
    decreases |d| - p
  {
    hide U32, PopEnded, BoxName, Join, Names, InOrder, OnlyBodies;
    WalkInOrder(tags, d, p, path, p);
    HeaderStays(d, r, Walk(tags, d, p, path).sections, p);
    if p + 16 <= |d| && TagAt(d, p) in tags {
      WordKept(d, r, p + 4);
      WordKept(d, r, p + 8);
      var end := p + U32(d, p + 4);
      var live := PopEnded(path, p);
      if TagAt(d, p) != "AIQB" {
        var inside := live + [Frame(BoxName(TagAt(d, p), U32(d, p + 8)), end)];
        FurtherOn(d, r, Walk(tags, d, p + BOX_HEADER, inside).sections, p, p + BOX_HEADER);
        WalkStays(tags, d, r, p + BOX_HEADER, inside);
      } else if end > p {
        PastTheSection(d, r, Section(Join(Names(live)), p, p + AIQB_HEADER, end), Walk(tags, d, end, live).sections, p);
        WalkStays(tags, d, r, end, live);
      }
    }
  }

  // ------------------------------------------------------------ a finished run

  ghost predicate InSum(at: nat, k: nat) {
    at <= k < at + 4
  }

  // A run on d that wrote r: the sections it walked, the parameters it planned,
  // and the target whose checksum it repaired.
  ghost predicate Ran(d: seq<Byte>, factor: real, ss: seq<Section>, ps: seq<Param>, last: Section, r: seq<Byte>) {
    && PatchResult(d, factor) == Written(r)
    && Walk(PATCHER_TAGS, d, FIRST_SECTION, []) == Ends(ss)
    && Plan(d, ss, factor) == Some(ps)
    && LastTarget(ss) == Some(last)
  }

  lemma RanExists(d: seq<Byte>, factor: real) returns (ss: seq<Section>, ps: seq<Param>, last: Section)
    requires PatchResult(d, factor).Written?
    ensures Ran(d, factor, ss, ps, last, PatchResult(d, factor).bytes)
  {
    ss := Walk(PATCHER_TAGS, d, FIRST_SECTION, []).sections;
    ps, last := Plan(d, ss, factor).value, LastTarget(ss).value;
  }

  // Plan, rewrite, repair: what holds of every run.
  lemma RanParts(d: seq<Byte>, factor: real, ss: seq<Section>, ps: seq<Param>, last: Section, r: seq<Byte>)
    requires Ran(d, factor, ss, ps, last, r)
    ensures InOrder(ss, FIRST_SECTION) && FIRST_SECTION <= last.hdr && last.start == last.hdr + AIQB_HEADER
    ensures CellsInBounds(ps, |d|) && AllPlanned(d, ps, factor)
    ensures |r| == |d| && Checksums.SectionHolds(r, last.hdr, last.end) && Checksums.FileHolds(r)
    ensures forall k :: 0 <= k < |d| && !InSum(Checksums.FILE_SUM, k) && !InSum(last.hdr + Checksums.SECTION_SUM, k) ==>
              r[k] == Rewritten(d, ps)[k]
  {
    hide Walk, Plan, Rewritten, Checksums.Repaired, Checksums.SectionHolds, Checksums.FileHolds, Planned;
    WalkInOrder(PATCHER_TAGS, d, FIRST_SECTION, [], FIRST_SECTION);
    var t := LastTargetAt(ss);
    InOrderAt(ss, FIRST_SECTION, t, t);
    EverythingPlanned(d, ss, factor);
    Checksums.RepairedHolds(Rewritten(d, ps), last.hdr, last.end);
  }

  // A planned parameter's cells lie in a target section, and clear of the last
  // target's header.
  lemma CellPlace(d: seq<Byte>, factor: real, ss: seq<Section>, ps: seq<Param>, x: Param) returns (i: nat)
    requires InOrder(ss, FIRST_SECTION) && Plan(d, ss, factor) == Some(ps) && x in ps && LastTarget(ss).Some?
    ensures i < |ss| && ss[i].path == TARGET_PATH
    ensures RecordsPlan(d, ss[i].start, ss[i].end, factor).Some?
    ensures x in RecordsPlan(d, ss[i].start, ss[i].end, factor).value
    ensures FIRST_SECTION <= ss[i].start <= x.vo && x.vo + 4 * |x.after| <= ss[i].end
    ensures var last := LastTarget(ss).value;
            x.vo + 4 * |x.after| <= last.hdr || last.hdr + AIQB_HEADER <= x.vo
  {
    hide RecordsPlan, InOrder;
    i := PlanPick(d, ss, FIRST_SECTION, factor, x);
    var t := LastTargetAt(ss);
    InOrderAt(ss, FIRST_SECTION, i, t);
  }

  lemma {:induction false} EndsBelow(ss: seq<Section>) returns (hi: nat)
    ensures forall s :: s in ss ==> s.end <= hi
  {
    hi := 0;
    if ss != [] {
      var rest := EndsBelow(ss[1..]);
      hi := if rest < ss[0].end then ss[0].end else rest;
      assert ss == [ss[0]] + ss[1..];
    }
  }

  lemma PlannedValue(d: seq<Byte>, factor: real, x: Param, i: nat)
    requires Planned(d, x, factor) && i < |x.before|
    ensures |x.axis| == |x.before| == |x.after| && x.vo + 4 * |x.before| <= |d|
    ensures x.p + 28 + 4 * i + 4 <= |d| && Decode(U32(d, x.p + 28 + 4 * i)) == x.axis[i]
    ensures Signed(U32(d, x.vo + 4 * i)) == x.before[i] && x.after[i] == NodeValue(x.axis[i], x.before[i], factor)
  {
    hide U32, Eligible, Near, Above, NodeValue, Values, Axis, Rescaled, Signed, Decode;
    ValuesAt(d, x.vo, |x.before|, i);
    AxisAt(d, x.p + SUB_HEADER, |x.before|, i);
    RescaledAt(x.axis, x.before, factor, i);
  }

  lemma ValuesAt(d: seq<Byte>, at: nat, n: nat, i: nat)
    requires at + 4 * n <= |d| && i < n
    ensures Values(d, at, n)[i] == Signed(U32(d, at + 4 * i))
  {
  }

  lemma AxisAt(d: seq<Byte>, at: nat, n: nat, i: nat)
    requires at + 4 * n <= |d| && i < n
    ensures Axis(d, at, n)[i] == Decode(U32(d, at + 4 * i))
  {
  }

  lemma RescaledAt(axis: seq<Float>, vals: seq<Int32>, factor: real, i: nat)
    requires |axis| == |vals| && i < |vals|
    ensures Rescaled(axis, vals, factor)[i] == NodeValue(axis[i], vals[i], factor)
  {
  }

  // n is the integer nearest to x, the even one of two.
  ghost predicate Nearest(n: int, x: real) {
    && -0.5 <= n as real - x <= 0.5
    && (n as real - x in {-0.5, 0.5} ==> n % 2 == 0)
  }

  // What becomes of the value at a node of this gain.
  ghost predicate Rescales(gain: Float, was: int, now: int, factor: real) {
    if gain == Inf(false) || (gain.Fin? && gain.r >= 4.0) then Nearest(now, was as real * factor) else now == was
  }

  lemma NodeValueRescales(gain: Float, v: Int32, factor: real)
    ensures Rescales(gain, v, NodeValue(gain, v, factor), factor)
  {
  }

  // Every planned parameter is an eligible one of the input, and the output
  // holds its values times the factor, to the nearest integer, where the gain is
  // 4 or more, and as they were elsewhere.
  lemma WrittenValues(d: seq<Byte>, factor: real, ss: seq<Section>, ps: seq<Param>, last: Section, r: seq<Byte>,
                      x: Param, i: nat)
    requires Ran(d, factor, ss, ps, last, r) && x in ps
    ensures Planned(d, x, factor) && |r| == |d|
    ensures i < |x.before| ==>
              && |x.axis| == |x.before| && x.vo + 4 * |x.before| <= |d|
              && Signed(U32(d, x.vo + 4 * i)) == x.before[i]
              && Signed(U32(r, x.vo + 4 * i)) == NodeValue(x.axis[i], x.before[i], factor)
    ensures i < |x.before| ==>
              && x.p + 28 + 4 * i + 4 <= |d| && x.vo + 4 * i + 4 <= |d|
              && Rescales(Decode(U32(d, x.p + 28 + 4 * i)), Signed(U32(d, x.vo + 4 * i)), Signed(U32(r, x.vo + 4 * i)), factor)
  {
    hide PatchResult, Walk, Plan, Planned, Rewritten, U32, Pack32, RecordsPlan, InOrder, LastTarget, Ordered, NodeValue, Decode, Rescales;
    RanParts(d, factor, ss, ps, last, r);
    if i < |x.before| {
      PlannedValue(d, factor, x, i);
      NodeValueRescales(x.axis[i], x.before[i], factor);
      var hi := EndsBelow(ss);
      PlanOrdered(d, ss, FIRST_SECTION, FIRST_SECTION + hi, factor);
      OrderedWiden(Edits(ps), FIRST_SECTION, FIRST_SECTION + hi, 0, FIRST_SECTION + hi);
      RewrittenCell(d, ps, FIRST_SECTION + hi, x, i);
      var place := CellPlace(d, factor, ss, ps, x);
      WordKept(Rewritten(d, ps), r, x.vo + 4 * i);
    }
  }

  ghost predicate HighGainCell(x: Param, i: nat, k: nat) {
    i < |x.axis| && AtLeast(x.axis[i], GAIN_MIN) && x.vo + 4 * i <= k < x.vo + 4 * i + 4
  }

  // A byte of the output differs from the input only in the file's checksum,
  // the last target's checksum, or the cell for a node of gain 4 or more of an
  // eligible sub-record, which it lies in; and both checksums hold.
  lemma WrittenBytes(d: seq<Byte>, factor: real, ss: seq<Section>, ps: seq<Param>, last: Section, r: seq<Byte>, k: nat)
    requires Ran(d, factor, ss, ps, last, r)
    ensures |r| == |d| && Checksums.SectionHolds(r, last.hdr, last.end) && Checksums.FileHolds(r)
    ensures k < |d| && r[k] != d[k] ==>
              || InSum(Checksums.FILE_SUM, k)
              || InSum(last.hdr + Checksums.SECTION_SUM, k)
              || exists x, i :: x in ps && HighGainCell(x, i, k) && Planned(d, x, factor) && InPlace(d, ss, x)
  {
    hide Ran, InOrder, Planned, InPlace, Rewritten, U32, Checksums.SectionHolds, Checksums.FileHolds;
    RanParts(d, factor, ss, ps, last, r);
    if k < |d| && r[k] != d[k] && !InSum(Checksums.FILE_SUM, k) && !InSum(last.hdr + Checksums.SECTION_SUM, k) {
      var x, i := ChangedCell(d, factor, ss, ps, last, r, k);
      assert x in ps && HighGainCell(x, i, k) && Planned(d, x, factor) && InPlace(d, ss, x);
    }
  }

  lemma ChangedCell(d: seq<Byte>, factor: real, ss: seq<Section>, ps: seq<Param>, last: Section, r: seq<Byte>, k: nat)
    returns (x: Param, i: nat)
    requires Ran(d, factor, ss, ps, last, r) && CellsInBounds(ps, |d|)
    requires k < |d| == |r| && r[k] != d[k] && r[k] == Rewritten(d, ps)[k]
    ensures x in ps && HighGainCell(x, i, k) && Planned(d, x, factor) && InPlace(d, ss, x)
  {
    hide InPlace, InOrder, Plan, Walk, PatchResult, LastTarget, Rewritten, U32, Eligible, Near, Above, Axis, Values;
    if !exists y :: y in ps && Holds(y, k) {
      CellsOnly(d, ps, k);
    }
    x :| x in ps && Holds(x, k);
    i := (k - x.vo) / 4;
    WrittenValues(d, factor, ss, ps, last, r, x, i);
    if !AtLeast(x.axis[i], GAIN_MIN) {
      SameValueSameBytes(d, r, x.vo + 4 * i, k);
    }
    RanParts(d, factor, ss, ps, last, r);
    PlannedInPlace(d, ss, FIRST_SECTION, factor, x);
  }

  lemma SameValueSameBytes(a: seq<Byte>, b: seq<Byte>, o: nat, k: nat)
    requires o + 4 <= |a| && o + 4 <= |b| && o <= k < o + 4
    requires Signed(U32(a, o)) == Signed(U32(b, o))
    ensures a[k] == b[k]
  {
    hide U32, Pack32;
    Repacked(a, o);
    Repacked(b, o);
    assert a[k] == a[o..o + 4][k - o] && b[k] == b[o..o + 4][k - o];
  }

  lemma CellsOnly(d: seq<Byte>, ps: seq<Param>, k: nat)
    requires CellsInBounds(ps, |d|) && k < |d| && !exists x :: x in ps && Holds(x, k)
    ensures Rewritten(d, ps)[k] == d[k]
  {
    EditsInBounds(ps, |d|);
    forall e | e in Edits(ps)
      ensures !(e.at <= k < e.at + |e.bytes|)
    {
      var i :| 0 <= i < |ps| && Edits(ps)[i] == e;
      assert !Holds(ps[i], k);
    }
    ApplyElsewhere(d, Edits(ps), k);
  }

  // ------------------------------------------------------ the structure stays

  // A byte that moved inside the i-th section's records is a planned cell of it.
  lemma MovedInSection(d: seq<Byte>, factor: real, ss: seq<Section>, ps: seq<Param>, last: Section, r: seq<Byte>,
                       i: nat, k: nat) returns (x: Param)
    requires Ran(d, factor, ss, ps, last, r) && last.start <= last.end
    requires i < |ss| && ss[i].start <= k < ss[i].end && k < |d| == |r| && r[k] != d[k]
    ensures ss[i].path == TARGET_PATH && RecordsPlan(d, ss[i].start, ss[i].end, factor).Some?
    ensures x in RecordsPlan(d, ss[i].start, ss[i].end, factor).value && Holds(x, k)
  {
    hide Walk, Plan, PatchResult, RecordsPlan, InOrder, LastTarget, Rewritten, Planned;
    RanParts(d, factor, ss, ps, last, r);
    var t := LastTargetAt(ss);
    InOrderAt(ss, FIRST_SECTION, i, t);
    InOrderAt(ss, FIRST_SECTION, t, i);
    if !exists y :: y in ps && Holds(y, k) {
      CellsOnly(d, ps, k);
    }
    x :| x in ps && Holds(x, k);
    var j := CellPlace(d, factor, ss, ps, x);
    InOrderAt(ss, FIRST_SECTION, i, j);
    InOrderAt(ss, FIRST_SECTION, j, i);
  }

  // d and r show the same records in s, and, in a target's stream records, the
  // same sub-records.
  ghost predicate SameRecords(d: seq<Byte>, r: seq<Byte>, s: Section) {
    var records := Records.Chain(d, s.start, s.end, Records.ANY_NID);
    && Records.Chain(r, s.start, s.end, Records.ANY_NID) == records
    && (s.path == TARGET_PATH ==> forall rec :: rec in records && rec.nid == STREAM ==>
          SubChain(r, rec.off + Records.HEADER, rec.off + rec.size)
          == SubChain(d, rec.off + Records.HEADER, rec.off + rec.size))
  }

  // When the last target has a whole header, as any section with a record chain
  // does, the output holds the same sections, and every section the same
  // records and sub-records: what the tool walked while it was writing is what
  // the output still shows.
  lemma StructureStays(d: seq<Byte>, factor: real, ss: seq<Section>, ps: seq<Param>, last: Section, r: seq<Byte>)
    requires Ran(d, factor, ss, ps, last, r) && last.start <= last.end
    ensures Walk(PATCHER_TAGS, r, FIRST_SECTION, []) == Walk(PATCHER_TAGS, d, FIRST_SECTION, [])
    ensures forall s :: s in ss ==> SameRecords(d, r, s)
  {
    hide Walk, Plan, PatchResult, RecordsPlan, Rewritten, SameRecords;
    MovedInBodies(d, factor, ss, ps, last, r);
    WalkStays(PATCHER_TAGS, d, r, FIRST_SECTION, []);
    forall s | s in ss
      ensures SameRecords(d, r, s)
    {
      var i :| 0 <= i < |ss| && ss[i] == s;
      SectionStays(d, factor, ss, ps, last, r, i);
    }
  }

  lemma MovedInBodies(d: seq<Byte>, factor: real, ss: seq<Section>, ps: seq<Param>, last: Section, r: seq<Byte>)
    requires Ran(d, factor, ss, ps, last, r) && last.start <= last.end
    ensures OnlyBodies(d, r, ss, FIRST_SECTION)
  {
    hide Walk, Plan, PatchResult, RecordsPlan, InOrder, Rewritten, Planned;
    RanParts(d, factor, ss, ps, last, r);
    forall k | FIRST_SECTION <= k < |d| && d[k] != r[k]
      ensures exists s :: s in ss && Body(s, k)
    {
      if InSum(last.hdr + Checksums.SECTION_SUM, k) {
        assert last in ss && Body(last, k);
      } else {
        if !exists y :: y in ps && Holds(y, k) {
          CellsOnly(d, ps, k);
        }
        var x :| x in ps && Holds(x, k);
        var j := CellPlace(d, factor, ss, ps, x);
        InOrderAt(ss, FIRST_SECTION, j, j);
        assert ss[j] in ss && Body(ss[j], k);
      }
    }
  }

  lemma SectionStays(d: seq<Byte>, factor: real, ss: seq<Section>, ps: seq<Param>, last: Section, r: seq<Byte>, i: nat)
    requires Ran(d, factor, ss, ps, last, r) && last.start <= last.end && i < |ss|
    ensures SameRecords(d, r, ss[i])
  {
    hide Walk, PatchResult, RecordsPlan, Rewritten, SubChain, Records.Chain, Plan;
    RanParts(d, factor, ss, ps, last, r);
    var s := ss[i];
    if s.path == TARGET_PATH {
      TargetPlanned(d, ss, factor, i);
      var here := RecordsPlan(d, s.start, s.end, factor).value;
      forall k | s.start <= k < s.end && k < |d| && d[k] != r[k]
        ensures exists x :: x in here && Holds(x, k)
      {
        var x := MovedInSection(d, factor, ss, ps, last, r, i, k);
      }
      RecordsStay(d, r, s.start, s.end, factor);
    } else {
      forall k | s.start <= k < s.end && k < |d|
        ensures r[k] == d[k]
      {
        if r[k] != d[k] {
          var x := MovedInSection(d, factor, ss, ps, last, r, i, k);
        }
      }
      Records.ChainKept(r, d, s.start, s.end, Records.ANY_NID);
    }
  }

  lemma {:induction false} TargetPlanned(d: seq<Byte>, ss: seq<Section>, factor: real, i: nat)
    requires Plan(d, ss, factor).Some? && i < |ss| && ss[i].path == TARGET_PATH
    ensures RecordsPlan(d, ss[i].start, ss[i].end, factor).Some?
  {
    hide RecordsPlan;
    if i > 0 {
      TargetPlanned(d, ss[1..], factor, i - 1);
    }
  }

  // With a single target section, its header is whole: it held the parameters.
  lemma SoleTargetIsWhole(d: seq<Byte>, factor: real, ss: seq<Section>, ps: seq<Param>, last: Section, r: seq<Byte>)
    requires Ran(d, factor, ss, ps, last, r)
    requires forall i, j :: 0 <= i < |ss| && 0 <= j < |ss| && ss[i].path == TARGET_PATH == ss[j].path ==> i == j
    ensures last.start <= last.end
  {
    hide Walk, Plan, RecordsPlan, Rewritten, Checksums.Repaired;
    RanParts(d, factor, ss, ps, last, r);
    var place := CellPlace(d, factor, ss, ps, ps[0]);
    var t := LastTargetAt(ss);
  }

  // --------------------------------------- the plan is the thresholds of the file

  // The sub-record of ssz bytes at p is a noise-reduction threshold over gain.
  ghost predicate Threshold(d: seq<Byte>, p: nat, ssz: nat) {
    && p + SUB_HEADER <= |d|
    && U32(d, p + 8) == TARGET_UUID && U32(d, p + 16) >= 4 && U32(d, p + 20) == 1 && U32(d, p + 24) == 1
    && var n := U32(d, p + 16);
       var vo := p + SUB_HEADER + 4 * n + 4;
       && vo + 4 * n <= p + ssz && vo + 4 * n <= |d|
       && Near(Axis(d, p + SUB_HEADER, n)[0], 1.0, 0.01) && Above(Axis(d, p + SUB_HEADER, n)[n - 1], 10.0)
       && Eligible(Axis(d, p + SUB_HEADER, n), Values(d, vo, n))
  }

  // The same in plain terms: the i-th gain and the i-th of n values of the
  // sub-record at p, values that never fall, from 2 or more to 64 or more, one of
  // them further than 1 from its gain, over gains from 1 to above 10.
  function Gain(d: seq<Byte>, p: nat, i: nat): Float
    requires p + 32 + 4 * i <= |d|
  {
    Decode(U32(d, p + 28 + 4 * i))
  }

  function Node(d: seq<Byte>, p: nat, n: nat, i: nat): int
    requires p + 36 + 4 * n + 4 * i <= |d|
  {
    Signed(U32(d, p + 32 + 4 * n + 4 * i))
  }

  ghost predicate CurveOverGain(d: seq<Byte>, p: nat, n: nat)
    requires n >= 4 && p + 32 + 8 * n <= |d|
  {
    && Gain(d, p, 0).Fin? && 0.99 < Gain(d, p, 0).r < 1.01
    && (Gain(d, p, n - 1) == Inf(false) || (Gain(d, p, n - 1).Fin? && Gain(d, p, n - 1).r > 10.0))
    && (forall i: nat, j: nat :: i <= j < n ==> Node(d, p, n, i) <= Node(d, p, n, j))
    && 2 <= Node(d, p, n, 0) < Node(d, p, n, n - 1) && 64 <= Node(d, p, n, n - 1)
    && exists i: nat :: i < n && FarFrom(Gain(d, p, i), Node(d, p, n, i))
  }

  ghost predicate FarFrom(gain: Float, v: int) {
    gain.Fin? ==> v as real - gain.r > 1.0 || gain.r - v as real > 1.0
  }

  lemma ThresholdExactly(d: seq<Byte>, p: nat, ssz: nat)
    ensures Threshold(d, p, ssz) <==>
              && p + 28 <= |d| && U32(d, p + 8) == 28866 && U32(d, p + 20) == 1 && U32(d, p + 24) == 1
              && U32(d, p + 16) >= 4 && 32 + 8 * U32(d, p + 16) <= ssz && p + 32 + 8 * U32(d, p + 16) <= |d|
              && CurveOverGain(d, p, U32(d, p + 16))
  {
    hide U32, Eligible, Near, Above, CurveOverGain, Axis, Values;
    if p + 28 <= |d| && U32(d, p + 16) >= 4 && p + 32 + 8 * U32(d, p + 16) <= |d| {
      CurveIsEligible(d, p, U32(d, p + 16));
    }
  }

  lemma CurveIsEligible(d: seq<Byte>, p: nat, n: nat)
    requires n >= 4 && p + 32 + 8 * n <= |d|
    ensures var axis, vals := Axis(d, p + 28, n), Values(d, p + 32 + 4 * n, n);
            CurveOverGain(d, p, n) <==> Near(axis[0], 1.0, 0.01) && Above(axis[n - 1], 10.0) && Eligible(axis, vals)
  {
    hide U32, Decode, Signed, Axis, Values, Eligible;
    var axis, vals := Axis(d, p + 28, n), Values(d, p + 32 + 4 * n, n);
    forall i: nat | i < n
      ensures axis[i] == Gain(d, p, i) && vals[i] == Node(d, p, n, i)
    {
      AxisAt(d, p + 28, n, i);
      ValuesAt(d, p + 32 + 4 * n, n, i);
    }
    EligibleExactly(axis, vals);
    if CurveOverGain(d, p, n) {
      var i: nat :| i < n && FarFrom(Gain(d, p, i), Node(d, p, n, i));
      assert FarFrom(axis[i], vals[i]);
    }
    if exists i :: 0 <= i < n && FarFrom(axis[i], vals[i]) {
      var i :| 0 <= i < n && FarFrom(axis[i], vals[i]);
      assert FarFrom(Gain(d, p, i), Node(d, p, n, i));
    }
  }

  lemma EligibleExactly(axis: seq<Float>, vals: seq<Int32>)
    requires |axis| == |vals| > 0
    ensures Eligible(axis, vals) <==>
              && (forall i, j :: 0 <= i <= j < |vals| ==> vals[i] <= vals[j])
              && 2 <= vals[0] < vals[|vals| - 1] && 64 <= vals[|vals| - 1]
              && exists i :: 0 <= i < |vals| && FarFrom(axis[i], vals[i])
  {
    if forall i :: 0 <= i < |vals| - 1 ==> vals[i] <= vals[i + 1] {
      NeverFalls(vals);
    }
    if !(forall i :: 0 <= i < |vals| ==> WithinOne(axis[i], vals[i])) {
      var i :| 0 <= i < |vals| && !WithinOne(axis[i], vals[i]);
      assert FarFrom(axis[i], vals[i]);
    }
  }

  lemma {:induction false} NeverFalls(vals: seq<Int32>)
    requires forall i :: 0 <= i < |vals| - 1 ==> vals[i] <= vals[i + 1]
    ensures forall i, j :: 0 <= i <= j < |vals| ==> vals[i] <= vals[j]
  {
    if |vals| > 1 {
      var n := |vals| - 1;
      NeverFalls(vals[..n]);
      assert forall i :: 0 <= i < n ==> vals[i] <= vals[..n][n - 1] <= vals[n];
    }
  }

  // One of a section's thresholds: in a stream record of its chain.
  ghost predicate ThresholdIn(d: seq<Byte>, off: nat, end: nat, rec: Records.Record, sub: (nat, nat)) {
    && rec in Records.Chain(d, off, end, Records.ANY_NID) && rec.nid == 60001
    && sub in SubChain(d, rec.off + 8, rec.off + rec.size) && Threshold(d, sub.0, sub.1)
  }

  // x is the parameter of this sub-record, and its cells lie inside it.
  ghost predicate CellsIn(x: Param, sub: (nat, nat)) {
    sub.0 == x.p && x.p + SUB_HEADER <= x.vo && x.vo + 4 * |x.after| <= sub.0 + sub.1
  }

  // x is the parameter of a threshold of a target section, and its cells lie in it.
  ghost predicate InPlace(d: seq<Byte>, ss: seq<Section>, x: Param) {
    exists s, rec, sub :: s in ss && s.path == "LISP/DFLT" && ThresholdIn(d, s.start, s.end, rec, sub) && CellsIn(x, sub)
  }

  ghost predicate Rewrites(ps: seq<Param>, p: nat) {
    exists x :: x in ps && x.p == p
  }

  lemma SubComplete(d: seq<Byte>, p: nat, ssz: nat, factor: real)
    requires Threshold(d, p, ssz) && SubPlan(d, p, ssz, factor).Some?
    ensures Rewrites(SubPlan(d, p, ssz, factor).value, p)
  {
    hide U32, Axis, Values, Eligible, Near, Above, Rescaled, Fits32;
    assert SubPlan(d, p, ssz, factor).value[0].p == p;
  }

  lemma {:induction false} SubsComplete(d: seq<Byte>, p: nat, lim: nat, factor: real, sub: (nat, nat))
    requires SubsPlan(d, p, lim, factor).Some? && sub in SubChain(d, p, lim) && Threshold(d, sub.0, sub.1)
    ensures Rewrites(SubsPlan(d, p, lim, factor).value, sub.0)
    decreases lim - p
  {
    hide U32, SubPlan, Threshold;
    var ssz := U32(d, p);
    if sub == (p, ssz as nat) {
      SubComplete(d, p, ssz, factor);
    } else {
      SubsComplete(d, p + ssz, lim, factor, sub);
    }
  }

  lemma {:induction false} RecordsComplete(d: seq<Byte>, off: nat, end: nat, factor: real, rec: Records.Record, sub: (nat, nat))
    requires RecordsPlan(d, off, end, factor).Some? && ThresholdIn(d, off, end, rec, sub)
    ensures Rewrites(RecordsPlan(d, off, end, factor).value, sub.0)
    decreases end - off
  {
    hide U32, U16, SubsPlan, SubChain, Threshold;
    var size := U32(d, off);
    if rec.off == off && rec.size == size && U16(d, off + 6) == STREAM {
      SubsComplete(d, off + Records.HEADER, off + size, factor, sub);
    } else {
      RecordsComplete(d, off + size, end, factor, rec, sub);
    }
  }

  // Every threshold in a stream record of a target section is planned, and so
  // rewritten.
  lemma {:induction false} ThresholdsArePlanned(d: seq<Byte>, factor: real, ss: seq<Section>, s: Section,
                                                rec: Records.Record, sub: (nat, nat))
    requires Plan(d, ss, factor).Some? && s in ss && s.path == TARGET_PATH && ThresholdIn(d, s.start, s.end, rec, sub)
    ensures Rewrites(Plan(d, ss, factor).value, sub.0)
  {
    hide RecordsPlan, ThresholdIn;
    if s == ss[0] {
      RecordsComplete(d, s.start, s.end, factor, rec, sub);
    } else {
      ThresholdsArePlanned(d, factor, ss[1..], s, rec, sub);
    }
  }

  lemma SubSound(d: seq<Byte>, p: nat, ssz: nat, factor: real, x: Param)
    requires p + SUB_HEADER <= |d| && SubPlan(d, p, ssz, factor).Some? && x in SubPlan(d, p, ssz, factor).value
    ensures Threshold(d, p, ssz) && CellsIn(x, (p, ssz))
  {
    hide U32, Axis, Values, Eligible, Near, Above, Rescaled, Fits32;
  }

  lemma {:induction false} SubsSound(d: seq<Byte>, p: nat, lim: nat, factor: real, x: Param) returns (sub: (nat, nat))
    requires SubsPlan(d, p, lim, factor).Some? && x in SubsPlan(d, p, lim, factor).value
    ensures sub in SubChain(d, p, lim) && Threshold(d, sub.0, sub.1) && CellsIn(x, sub)
    decreases lim - p
  {
    hide U32, SubPlan, Threshold, CellsIn;
    var ssz := U32(d, p);
    if x in SubPlan(d, p, ssz, factor).value {
      sub := (p, ssz);
      SubSound(d, p, ssz, factor, x);
    } else {
      sub := SubsSound(d, p + ssz, lim, factor, x);
    }
  }

  lemma {:induction false} RecordsSound(d: seq<Byte>, off: nat, end: nat, factor: real, x: Param)
    returns (rec: Records.Record, sub: (nat, nat))
    requires RecordsPlan(d, off, end, factor).Some? && x in RecordsPlan(d, off, end, factor).value
    ensures ThresholdIn(d, off, end, rec, sub) && CellsIn(x, sub)
    decreases end - off
  {
    hide U32, SubsPlan, SubChain, Threshold, CellsIn;
    var size, nid := U32(d, off), U16(d, off + 6);
    if nid == STREAM && x in SubsPlan(d, off + Records.HEADER, off + size, factor).value {
      rec := Records.Record(off, size, d[off + 4], d[off + 5], nid);
      sub := SubsSound(d, off + Records.HEADER, off + size, factor, x);
      assert Records.Chain(d, off, end, Records.ANY_NID)[0] == rec;
    } else {
      rec, sub := RecordsSound(d, off + size, end, factor, x);
    }
  }

  // Every planned parameter is that of a threshold in a stream record of a target
  // section, as found in the input, and its cells lie in that sub-record.
  lemma PlannedInPlace(d: seq<Byte>, ss: seq<Section>, lo: nat, factor: real, x: Param)
    requires InOrder(ss, lo) && Plan(d, ss, factor).Some? && x in Plan(d, ss, factor).value
    ensures Planned(d, x, factor) && InPlace(d, ss, x)
  {
    hide RecordsPlan, ThresholdIn, CellsIn, Planned, InOrder;
    EverythingPlanned(d, ss, factor);
    var i := PlanPick(d, ss, lo, factor, x);
    var rec, sub := RecordsSound(d, ss[i].start, ss[i].end, factor, x);
    assert ss[i] in ss;
  }

  ghost predicate HasThreshold(d: seq<Byte>, ss: seq<Section>, p: nat) {
    exists s, rec, sub :: s in ss && s.path == "LISP/DFLT" && ThresholdIn(d, s.start, s.end, rec, sub) && sub.0 == p
  }

  // What is rewritten is exactly the thresholds of the file.
  lemma PlanIsThresholds(d: seq<Byte>, ss: seq<Section>, lo: nat, factor: real, p: nat)
    requires InOrder(ss, lo) && Plan(d, ss, factor).Some?
    ensures Rewrites(Plan(d, ss, factor).value, p) <==> HasThreshold(d, ss, p)
  {
    hide Plan, ThresholdIn, Planned, InOrder;
    if Rewrites(Plan(d, ss, factor).value, p) {
      var x :| x in Plan(d, ss, factor).value && x.p == p;
      PlannedInPlace(d, ss, lo, factor, x);
      var s, rec, sub :| s in ss && s.path == TARGET_PATH && ThresholdIn(d, s.start, s.end, rec, sub) && CellsIn(x, sub);
      assert ThresholdIn(d, s.start, s.end, rec, sub) && sub.0 == p;
    }
    if HasThreshold(d, ss, p) {
      var s, rec, sub :| s in ss && s.path == TARGET_PATH && ThresholdIn(d, s.start, s.end, rec, sub) && sub.0 == p;
      ThresholdsArePlanned(d, factor, ss, s, rec, sub);
    }
  }

  // A path is LISP/DFLT exactly when its components are these two.
  lemma TargetIsLispDefault(names: seq<string>)
    requires Slashless(names) && "" !in names
    ensures Join(names) == TARGET_PATH <==> names == ["LISP", "DFLT"]
  {
    if names == ["LISP", "DFLT"] {
      assert names[..1] == ["LISP"];
    }
    if Join(names) == TARGET_PATH {
      EmptyPath(names);
      JoinReadsBack(names);
      assert names == Split(TARGET_PATH);
    }
    SplitTarget();
  }

  lemma SplitTarget()
    ensures Split("LISP/DFLT") == ["LISP", "DFLT"]
  {
    SplitSlashless("LISP");
    SplitAppend("LISP", "DFLT");
    assert "LISP" + "/" + "DFLT" == "LISP/DFLT";
  }

  // Sub-records of 16 bytes or more laid out one behind the other, each with its
  // size in front and room for a header, are read back with their places and sizes.
  ghost predicate SubsLaidOut(d: seq<Byte>, p: nat, bodies: seq<seq<Byte>>, lim: nat)
    decreases |bodies|
  {
    if bodies == [] then p <= lim < p + 28
    else
      var size := 4 + |bodies[0]|;
      && 16 <= size && p + 28 <= lim && p + 28 <= |d| && p + size <= |d|
      && U32(d, p) == size && d[p + 4..p + size] == bodies[0]
      && SubsLaidOut(d, p + size, bodies[1..], lim)
  }

  lemma {:induction false} SubsReadBack(d: seq<Byte>, p: nat, bodies: seq<seq<Byte>>, lim: nat)
    requires SubsLaidOut(d, p, bodies, lim)
    ensures p <= lim && |SubChain(d, p, lim)| == |bodies|
    ensures forall i :: 0 <= i < |bodies| ==>
              var sub := SubChain(d, p, lim)[i];
              sub.1 == 4 + |bodies[i]| && sub.0 + sub.1 <= lim && sub.0 + sub.1 <= |d|
              && d[sub.0 + 4..sub.0 + sub.1] == bodies[i]
    decreases |bodies|
  {
    hide U32;
    if bodies != [] {
      SubsReadBack(d, p + 4 + |bodies[0]|, bodies[1..], lim);
    }
  }

  // ------------------------------------------------------ which files are patched

  // What can be read of a sub-record, and stored in it: gains that the reads reach,
  // and scaled thresholds of 32 bits.
  ghost predicate SubOk(d: seq<Byte>, p: nat, ssz: nat, factor: real) {
    p + 28 <= |d| ==>
      && (U32(d, p + 8) == 28866 && U32(d, p + 16) >= 4 && U32(d, p + 20) == 1 && U32(d, p + 24) == 1 ==>
            p + 28 + 4 * U32(d, p + 16) <= |d|)
      && (Threshold(d, p, ssz) ==> AllStayInt32(d, p, U32(d, p + 16), factor))
  }

  ghost predicate AllStayInt32(d: seq<Byte>, p: nat, n: nat, factor: real)
    requires p + 32 + 8 * n <= |d|
  {
    forall i: nat :: i < n ==> StaysInt32(d, p, n, i, factor)
  }

  ghost predicate StaysInt32(d: seq<Byte>, p: nat, n: nat, i: nat, factor: real)
    requires i < n && p + 32 + 8 * n <= |d|
  {
    -0x8000_0000 <= NodeValue(Gain(d, p, i), Node(d, p, n, i), factor) < 0x8000_0000
  }

  lemma SubPlanExists(d: seq<Byte>, p: nat, ssz: nat, factor: real)
    requires p + 28 <= |d| && p + ssz <= |d|
    ensures SubPlan(d, p, ssz, factor).Some? <==> SubOk(d, p, ssz, factor)
  {
    hide U32, Axis, Values, Eligible, Near, Above, Rescaled, Fits32, AllStayInt32;
    var n := U32(d, p + 16);
    if Threshold(d, p, ssz) {
      FitsIsInt32(d, p, n, factor);
    }
  }

  lemma FitsIsInt32(d: seq<Byte>, p: nat, n: nat, factor: real)
    requires p + 32 + 8 * n <= |d|
    ensures Fits32(Rescaled(Axis(d, p + 28, n), Values(d, p + 32 + 4 * n, n), factor))
            <==> AllStayInt32(d, p, n, factor)
  {
    hide U32, Decode, Signed, NodeValue;
    var axis, vals := Axis(d, p + 28, n), Values(d, p + 32 + 4 * n, n);
    forall i: nat | i < n
      ensures Rescaled(axis, vals, factor)[i] == NodeValue(Gain(d, p, i), Node(d, p, n, i), factor)
    {
      AxisAt(d, p + 28, n, i);
      ValuesAt(d, p + 32 + 4 * n, n, i);
    }
    if Fits32(Rescaled(axis, vals, factor)) {
      forall i: nat | i < n
        ensures StaysInt32(d, p, n, i, factor)
      {
        assert Rescaled(axis, vals, factor)[i] == NodeValue(Gain(d, p, i), Node(d, p, n, i), factor);
      }
    }
    if AllStayInt32(d, p, n, factor) {
      forall i | 0 <= i < n
        ensures -0x8000_0000 <= Rescaled(axis, vals, factor)[i] < 0x8000_0000
      {
        assert StaysInt32(d, p, n, i, factor);
      }
    }
  }

  lemma {:induction false} SubsPlanExists(d: seq<Byte>, p: nat, lim: nat, factor: real)
    requires lim <= |d|
    ensures SubsPlan(d, p, lim, factor).Some? <==> forall sub :: sub in SubChain(d, p, lim) ==> SubOk(d, sub.0, sub.1, factor)
    decreases lim - p
  {
    hide U32, SubPlan, SubOk;
    if p + SUB_HEADER <= lim {
      var ssz := U32(d, p);
      if 16 <= ssz && p + ssz <= lim {
        SubPlanExists(d, p, ssz, factor);
        SubsPlanExists(d, p + ssz, lim, factor);
        var rest := SubChain(d, p + ssz, lim);
        assert SubChain(d, p, lim) == [(p, ssz as nat)] + rest;
      }
    }
  }

  // Every sub-record of every stream record can be.
  ghost predicate RecordsOk(d: seq<Byte>, off: nat, end: nat, factor: real) {
    forall rec, sub ::
      (rec in Records.Chain(d, off, end, Records.ANY_NID) && rec.nid == 60001
       && sub in SubChain(d, rec.off + 8, rec.off + rec.size)) ==> SubOk(d, sub.0, sub.1, factor)
  }

  lemma {:induction false} RecordsPlanExists(d: seq<Byte>, off: nat, end: nat, factor: real)
    requires end <= |d|
    ensures RecordsPlan(d, off, end, factor).Some? <==> RecordsOk(d, off, end, factor)
    decreases end - off
  {
    hide U32, SubsPlan, SubChain, SubOk;
    if off + Records.HEADER <= end {
      var size, nid := U32(d, off), U16(d, off + 6);
      if 8 <= size && off + size <= end {
        SubsPlanExists(d, off + Records.HEADER, off + size, factor);
        RecordsPlanExists(d, off + size, end, factor);
        var first := Records.Record(off, size, d[off + 4], d[off + 5], nid);
        assert Records.Chain(d, off, end, Records.ANY_NID) == [first] + Records.Chain(d, off + size, end, Records.ANY_NID);
      }
    }
  }

  ghost predicate SectionOk(d: seq<Byte>, s: Section, factor: real) {
    s.path == "LISP/DFLT" ==> RecordsOk(d, s.start, s.end, factor)
  }

  lemma {:induction false} PlanExists(d: seq<Byte>, ss: seq<Section>, factor: real)
    requires forall s :: s in ss && s.path == TARGET_PATH ==> s.end <= |d|
    ensures Plan(d, ss, factor).Some? <==> forall s :: s in ss ==> SectionOk(d, s, factor)
  {
    hide RecordsPlan, RecordsOk;
    if ss != [] {
      PlanExists(d, ss[1..], factor);
      assert ss == [ss[0]] + ss[1..];
      if ss[0].path == TARGET_PATH {
        RecordsPlanExists(d, ss[0].start, ss[0].end, factor);
      }
    }
  }

  // On a file whose LISP/DFLT sections end inside it, the tool writes an output
  // exactly when the file starts with CPFF, is a multiple of four bytes long, its
  // walk ends, every stream sub-record can be read and rescaled, there is a
  // threshold, and the last LISP/DFLT section can be summed.
  lemma WrittenExactly(d: seq<Byte>, factor: real)
    requires var ss := Walk(PATCHER_TAGS, d, FIRST_SECTION, []).sections;
             forall s :: s in ss && s.path == TARGET_PATH ==> s.end <= |d|
    ensures var w := Walk(PATCHER_TAGS, d, FIRST_SECTION, []);
            PatchResult(d, factor).Written? <==>
              && 4 <= |d| && d[..4] == Ascii("CPFF") && |d| % 4 == 0 && w.Ends?
              && (forall s :: s in w.sections ==> SectionOk(d, s, factor))
              && (exists p :: HasThreshold(d, w.sections, p))
              && LastTarget(w.sections).Some?
              && var last := LastTarget(w.sections).value;
                 last.hdr + 0x18 <= |d| && Checksums.AllReadable(d, last.hdr, last.end, last.hdr + 0x14)
  {
    hide Walk, Plan, SectionOk, HasThreshold, LastTarget, Checksums.AllReadable, InOrder, PatchResult, Repairable, Ascii;
    var w := Walk(PATCHER_TAGS, d, FIRST_SECTION, []);
    WalkInOrder(PATCHER_TAGS, d, FIRST_SECTION, [], FIRST_SECTION);
    PlanExists(d, w.sections, factor);
    WrittenWhen(d, factor);
    if Plan(d, w.sections, factor).Some? {
      SomethingPlanned(d, w.sections, factor);
      if LastTarget(w.sections).Some? {
        RepairableExactly(d, w.sections, factor);
      }
    }
  }

  ghost predicate Repairable(d: seq<Byte>, ss: seq<Section>, factor: real)
    requires Plan(d, ss, factor).Some? && LastTarget(ss).Some?
  {
    var last := LastTarget(ss).value;
    Checksums.Repaired(Rewritten(d, Plan(d, ss, factor).value), last.hdr, last.end).Some?
  }

  lemma WrittenWhen(d: seq<Byte>, factor: real)
    ensures var w := Walk(PATCHER_TAGS, d, FIRST_SECTION, []);
            PatchResult(d, factor).Written? <==>
              && 4 <= |d| && d[..4] == Ascii("CPFF") && w.Ends? && Plan(d, w.sections, factor).Some?
              && Plan(d, w.sections, factor).value != [] && LastTarget(w.sections).Some? && Repairable(d, w.sections, factor)
  {
    hide Walk, Plan, LastTarget, Checksums.Repaired, Rewritten, Ascii, TagAt;
    if 4 <= |d| {
      MagicIs(d, "CPFF");
    }
  }

  lemma RepairableExactly(d: seq<Byte>, ss: seq<Section>, factor: real)
    requires InOrder(ss, FIRST_SECTION) && Plan(d, ss, factor).Some? && LastTarget(ss).Some?
    ensures var last := LastTarget(ss).value;
            Repairable(d, ss, factor) <==>
              |d| % 4 == 0 && last.hdr + 0x18 <= |d| && Checksums.AllReadable(d, last.hdr, last.end, last.hdr + 0x14)
  {
    hide Plan, LastTarget, Checksums.Repaired, Checksums.AllReadable, Rewritten, InOrder;
    var last, r := LastTarget(ss).value, Rewritten(d, Plan(d, ss, factor).value);
    var t := LastTargetAt(ss);
    InOrderAt(ss, FIRST_SECTION, t, t);
    Checksums.RepairedExactly(r, last.hdr, last.end);
    Checksums.ReadableByLength(r, d, last.hdr, last.end, last.hdr + 0x14);
  }

  lemma SomethingPlanned(d: seq<Byte>, ss: seq<Section>, factor: real)
    requires InOrder(ss, FIRST_SECTION) && Plan(d, ss, factor).Some?
    ensures Plan(d, ss, factor).value != [] <==> exists p :: HasThreshold(d, ss, p)
  {
    hide Plan, HasThreshold, InOrder;
    var ps := Plan(d, ss, factor).value;
    if ps != [] {
      assert ps[0] in ps;
      PlanIsThresholds(d, ss, FIRST_SECTION, factor, ps[0].p);
      assert HasThreshold(d, ss, ps[0].p);
    }
    if p :| HasThreshold(d, ss, p) {
      PlanIsThresholds(d, ss, FIRST_SECTION, factor, p);
    }
  }
}
