// tools/patch_aiqb_nr.py: scale the bayer noise-reduction thresholds at the
// high-gain nodes, inside the buffer the section walker is still reading.
module NoisePatch {
  import opened Wrappers
  import opened Bytes
  import opened Containers
  import opened Floats
  import Checksums
  import Records

  const TARGET_UUID: Word := 28866
  const STREAM: nat := 60001
  const GAIN_MIN: real := 4.0
  const SUB_HEADER: nat := 28
  const TARGET_PATH: string := "LISP/DFLT"

  type Int32 = v: int | -0x8000_0000 <= v < 0x8000_0000

  // One rewritten parameter: its sub-record, where its values start, its gain
  // axis, and its values before and after.
  datatype Param = Param(p: nat, vo: nat, axis: seq<Float>, before: seq<Int32>, after: seq<Int32>)

  // ------------------------------------------------ what a sub-record asks for

  function Axis(d: seq<Byte>, at: nat, n: nat): (r: seq<Float>)
    requires at + 4 * n <= |d|
    ensures |r| == n
  {
    seq(n, i requires 0 <= i < n => Decode(U32(d, at + 4 * i)))
  }

  function Values(d: seq<Byte>, at: nat, n: nat): (r: seq<Int32>)
    requires at + 4 * n <= |d|
    ensures |r| == n
  {
    seq<Int32>(n, i requires 0 <= i < n => Signed(U32(d, at + 4 * i)))
  }

  // The thresholds: growing with gain, starting at 2 or more, reaching 64, and
  // not simply the gain axis itself.
  predicate Eligible(axis: seq<Float>, vals: seq<Int32>)
    requires |axis| == |vals| > 0
  {
    && (forall i :: 0 <= i < |vals| - 1 ==> vals[i] <= vals[i + 1])
    && vals[0] < vals[|vals| - 1]
    && vals[0] >= 2
    && !(forall i :: 0 <= i < |vals| ==> WithinOne(axis[i], vals[i]))
    && (exists i :: 0 <= i < |vals| && vals[i] >= 64)
  }

  function Rescaled(axis: seq<Float>, vals: seq<Int32>, factor: real): (r: seq<int>)
    requires |axis| == |vals|
    ensures |r| == |vals|
  {
    seq(|vals|, i requires 0 <= i < |vals| => NodeValue(axis[i], vals[i], factor))
  }

  // A node's new value: scaled and rounded at gain 4 and above, kept below.
  function NodeValue(gain: Float, v: Int32, factor: real): int {
    if AtLeast(gain, GAIN_MIN) then Round(v as real * factor) else v
  }

  predicate Fits32(vs: seq<int>) {
    forall i :: 0 <= i < |vs| ==> -0x8000_0000 <= vs[i] < 0x8000_0000
  }

  // The parameter of the sub-record at p that is to be rewritten, if any; None
  // is struct.error.
  function SubPlan(d: seq<Byte>, p: nat, ssz: nat, factor: real): (r: Option<seq<Param>>)
    requires p + SUB_HEADER <= |d|
    ensures r.Some? ==> |r.value| <= 1 && forall x :: x in r.value ==> Within(x, p, p + ssz, |d|)
  {
    var n1, n2, npts := U32(d, p + 16), U32(d, p + 20), U32(d, p + 24);
    if !(U32(d, p + 8) == TARGET_UUID && n1 >= 4 && n2 == 1 && npts == 1) then Some([])
    else if p + SUB_HEADER + 4 * n1 > |d| then None
    else
      var axis := Axis(d, p + SUB_HEADER, n1);
      var vo := p + SUB_HEADER + 4 * n1 + 4 * n2;
      if !(Near(axis[0], 1.0, 0.01) && Above(axis[n1 - 1], 10.0) && vo + 4 * n1 <= p + ssz) then Some([])
      else if vo + 4 * n1 > |d| then None
      else
        var vals := Values(d, vo, n1);
        if !Eligible(axis, vals) then Some([])
        else
          var scaled := Rescaled(axis, vals, factor);
          if Fits32(scaled) then Some([Param(p, vo, axis, vals, scaled)]) else None
  }

  // The value cells lie behind the sub-record's header and inside it.
  ghost predicate Within(x: Param, p: nat, end: nat, size: nat) {
    && x.p == p
    && p + SUB_HEADER <= x.vo
    && x.vo + 4 * |x.after| <= end
    && x.vo + 4 * |x.after| <= size
    && |x.axis| == |x.before| == |x.after|
  }

  // x is one of the thresholds the tool is after, as found in d.
  ghost predicate Planned(d: seq<Byte>, x: Param, factor: real) {
    && x.p + SUB_HEADER <= |d|
    && U32(d, x.p + 8) == TARGET_UUID && U32(d, x.p + 16) == |x.before| >= 4
    && U32(d, x.p + 20) == 1 && U32(d, x.p + 24) == 1
    && x.vo == x.p + SUB_HEADER + 4 * |x.before| + 4 && x.vo + 4 * |x.before| <= |d|
    && x.axis == Axis(d, x.p + SUB_HEADER, |x.before|) && x.before == Values(d, x.vo, |x.before|)
    && Near(x.axis[0], 1.0, 0.01) && Above(x.axis[|x.before| - 1], 10.0)
    && Eligible(x.axis, x.before)
    && x.after == Rescaled(x.axis, x.before, factor)
  }

  ghost predicate AllPlanned(d: seq<Byte>, ps: seq<Param>, factor: real) {
    forall x :: x in ps ==> Planned(d, x, factor)
  }

  // Every cell of x lies inside a buffer of this size.
  ghost predicate CellsInBounds(ps: seq<Param>, size: nat) {
    forall x :: x in ps ==> x.vo + 4 * |x.after| <= size
  }

  // The sub-records from p up to lim.
  function SubsPlan(d: seq<Byte>, p: nat, lim: nat, factor: real): (r: Option<seq<Param>>)
    ensures r.Some? ==> CellsInBounds(r.value, |d|)
    decreases lim - p
  {
    if p + SUB_HEADER > lim then Some([])
    else if p + 16 > |d| then None
    else
      var ssz := U32(d, p);
      if ssz < 16 || p + ssz > lim then Some([])
      else if p + SUB_HEADER > |d| then None
      else
        var here :- SubPlan(d, p, ssz, factor);
        var rest :- SubsPlan(d, p + ssz, lim, factor);
        Some(here + rest)
  }

  // The records from off up to end; only those of STREAM hold sub-records.
  function RecordsPlan(d: seq<Byte>, off: nat, end: nat, factor: real): (r: Option<seq<Param>>)
    ensures r.Some? ==> CellsInBounds(r.value, |d|)
    decreases end - off
  {
    if off + Records.HEADER > end then Some([])
    else if off + Records.HEADER > |d| then None
    else
      var size := U32(d, off);
      if size < 8 || off + size > end then Some([])
      else
        var here :- if U16(d, off + 6) == STREAM then SubsPlan(d, off + Records.HEADER, off + size, factor) else Some([]);
        var rest :- RecordsPlan(d, off + size, end, factor);
        Some(here + rest)
  }

  function SectionPlan(d: seq<Byte>, s: Section, factor: real): (r: Option<seq<Param>>)
    ensures r.Some? ==> CellsInBounds(r.value, |d|)
  {
    if s.path == TARGET_PATH then RecordsPlan(d, s.start, s.end, factor) else Some([])
  }

  function Plan(d: seq<Byte>, ss: seq<Section>, factor: real): (r: Option<seq<Param>>)
    ensures r.Some? ==> CellsInBounds(r.value, |d|)
  {
    if ss == [] then Some([])
    else
      var here :- SectionPlan(d, ss[0], factor);
      var rest :- Plan(d, ss[1..], factor);
      Some(here + rest)
  }

  function Then(a: seq<Param>, b: Option<seq<Param>>): Option<seq<Param>> {
    if b.None? then None else Some(a + b.value)
  }

  // The last section that was patched, whose checksum is repaired.
  function LastTarget(ss: seq<Section>): (r: Option<Section>)
    ensures r.Some? ==> r.value in ss && r.value.path == TARGET_PATH
  {
    if ss == [] then None
    else if ss[|ss| - 1].path == TARGET_PATH then Some(ss[|ss| - 1])
    else LastTarget(ss[..|ss| - 1])
  }

  // -------------------------------------------------------- parameters as edits

  function PackInts(vs: seq<Int32>): (b: seq<Byte>)
    ensures |b| == 4 * |vs|
  {
    if vs == [] then [] else PackInts(vs[..|vs| - 1]) + Pack32(Unsigned(vs[|vs| - 1]))
  }

  function Edits(ps: seq<Param>): (es: seq<Edit>)
    ensures |es| == |ps|
  {
    seq(|ps|, i requires 0 <= i < |ps| => Edit(ps[i].vo, PackInts(ps[i].after)))
  }

  lemma EditsConcat(a: seq<Param>, b: seq<Param>)
    ensures Edits(a + b) == Edits(a) + Edits(b)
  {
  }

  // The buffer with every planned parameter rewritten.
  function Rewritten(d: seq<Byte>, ps: seq<Param>): (r: seq<Byte>)
    requires CellsInBounds(ps, |d|)
    ensures |r| == |d|
  {
    EditsInBounds(ps, |d|);
    Apply(d, Edits(ps))
  }

  lemma EditsInBounds(ps: seq<Param>, size: nat)
    requires CellsInBounds(ps, size)
    ensures forall e :: e in Edits(ps) ==> e.at + |e.bytes| <= size
  {
    forall e | e in Edits(ps)
      ensures e.at + |e.bytes| <= size
    {
      var i :| 0 <= i < |ps| && Edits(ps)[i] == e;
      assert ps[i] in ps;
    }
  }

  lemma RewrittenConcat(d: seq<Byte>, a: seq<Param>, b: seq<Param>)
    requires CellsInBounds(a, |d|) && CellsInBounds(b, |d|)
    ensures CellsInBounds(a + b, |d|)
    ensures Rewritten(d, a + b) == Rewritten(Rewritten(d, a), b)
  {
    EditsConcat(a, b);
    EditsInBounds(a + b, |d|);
    EditsInBounds(a, |d|);
    EditsInBounds(b, |d|);
    ApplyConcat(d, Edits(a), Edits(b));
  }

  // ------------------------------------------------ the plan reads onwards only

  lemma SubPlanOnwards(a: seq<Byte>, b: seq<Byte>, p: nat, ssz: nat, factor: real)
    requires SameFrom(a, b, p) && p + SUB_HEADER <= |a|
    ensures SubPlan(a, p, ssz, factor) == SubPlan(b, p, ssz, factor)
  {
    hide U32, Decode, Eligible, Rescaled, Fits32, Near, Above;
    WordKept(a, b, p + 8);
    WordKept(a, b, p + 16);
    WordKept(a, b, p + 20);
    WordKept(a, b, p + 24);
    var n1, vo := U32(a, p + 16), p + SUB_HEADER + 4 * U32(a, p + 16) + 4;
    if p + SUB_HEADER + 4 * n1 <= |a| {
      CellsOnwards(a, b, p + SUB_HEADER, n1);
    }
    if vo + 4 * n1 <= |a| {
      CellsOnwards(a, b, vo, n1);
    }
  }

  lemma CellsOnwards(a: seq<Byte>, b: seq<Byte>, at: nat, n: nat)
    requires SameFrom(a, b, at) && at + 4 * n <= |a|
    ensures Axis(a, at, n) == Axis(b, at, n) && Values(a, at, n) == Values(b, at, n)
  {
    hide U32, Decode, Signed;
    forall i | 0 <= i < n
      ensures U32(a, at + 4 * i) == U32(b, at + 4 * i)
    {
      WordKept(a, b, at + 4 * i);
    }
  }

  lemma {:induction false} SubsPlanOnwards(a: seq<Byte>, b: seq<Byte>, p: nat, lim: nat, factor: real)
    requires SameFrom(a, b, p)
    ensures SubsPlan(a, p, lim, factor) == SubsPlan(b, p, lim, factor)
    decreases lim - p
  {
    hide U32, SubPlan;
    if p + SUB_HEADER <= lim && p + 16 <= |a| {
      WordKept(a, b, p);
      var ssz := U32(a, p);
      if 16 <= ssz && p + ssz <= lim && p + SUB_HEADER <= |a| {
        SubPlanOnwards(a, b, p, ssz, factor);
        SubsPlanOnwards(a, b, p + ssz, lim, factor);
      }
    }
  }

  lemma {:induction false} RecordsPlanOnwards(a: seq<Byte>, b: seq<Byte>, off: nat, end: nat, factor: real)
    requires SameFrom(a, b, off)
    ensures RecordsPlan(a, off, end, factor) == RecordsPlan(b, off, end, factor)
    decreases end - off
  {
    hide U32, U16, SubsPlan;
    if off + Records.HEADER <= end && off + Records.HEADER <= |a| {
      WordKept(a, b, off);
      HalfKept(a, b, off + 6);
      var size := U32(a, off);
      if 8 <= size && off + size <= end {
        SubsPlanOnwards(a, b, off + Records.HEADER, off + size, factor);
        RecordsPlanOnwards(a, b, off + size, end, factor);
      }
    }
  }

  // -------------------------------------------------- what gets into the plan

  lemma SubPlanned(d: seq<Byte>, p: nat, ssz: nat, factor: real)
    requires p + SUB_HEADER <= |d| && SubPlan(d, p, ssz, factor).Some?
    ensures AllPlanned(d, SubPlan(d, p, ssz, factor).value, factor)
  {
    hide U32, Axis, Values, Eligible, Rescaled, Near, Above, Fits32;
  }

  lemma {:induction false} SubsPlanned(d: seq<Byte>, p: nat, lim: nat, factor: real)
    requires SubsPlan(d, p, lim, factor).Some?
    ensures AllPlanned(d, SubsPlan(d, p, lim, factor).value, factor)
    decreases lim - p
  {
    hide SubPlan, Planned, U32;
    if p + SUB_HEADER <= lim && 16 <= U32(d, p) && p + U32(d, p) <= lim {
      SubPlanned(d, p, U32(d, p), factor);
      SubsPlanned(d, p + U32(d, p), lim, factor);
    }
  }

  lemma {:induction false} RecordsPlanned(d: seq<Byte>, off: nat, end: nat, factor: real)
    requires RecordsPlan(d, off, end, factor).Some?
    ensures AllPlanned(d, RecordsPlan(d, off, end, factor).value, factor)
    decreases end - off
  {
    hide SubsPlan, Planned, U32, U16;
    if off + Records.HEADER <= end && 8 <= U32(d, off) && off + U32(d, off) <= end {
      if U16(d, off + 6) == STREAM {
        SubsPlanned(d, off + Records.HEADER, off + U32(d, off), factor);
      }
      RecordsPlanned(d, off + U32(d, off), end, factor);
    }
  }

  lemma {:induction false} EverythingPlanned(d: seq<Byte>, ss: seq<Section>, factor: real)
    requires Plan(d, ss, factor).Some?
    ensures AllPlanned(d, Plan(d, ss, factor).value, factor)
  {
    hide RecordsPlan, Planned;
    if ss != [] {
      if ss[0].path == TARGET_PATH {
        RecordsPlanned(d, ss[0].start, ss[0].end, factor);
      }
      EverythingPlanned(d, ss[1..], factor);
    }
  }

  // ---------------------------------------- the planned cells never overlap

  lemma OneOrdered(ps: seq<Param>, p: nat, end: nat, size: nat)
    requires |ps| <= 1 && (forall x :: x in ps ==> Within(x, p, end, size)) && p <= end
    ensures Ordered(Edits(ps), p, end)
  {
    if ps != [] {
      assert ps[0] in ps && Edits(ps)[1..] == [];
    }
  }

  lemma {:induction false} SubsOrdered(d: seq<Byte>, p: nat, lim: nat, factor: real)
    requires p <= lim && SubsPlan(d, p, lim, factor).Some?
    ensures Ordered(Edits(SubsPlan(d, p, lim, factor).value), p, lim)
    decreases lim - p
  {
    hide U32, SubPlan;
    if p + SUB_HEADER <= lim && 16 <= U32(d, p) && p + U32(d, p) <= lim {
      var ssz := U32(d, p);
      var here, rest := SubPlan(d, p, ssz, factor).value, SubsPlan(d, p + ssz, lim, factor).value;
      SubsOrdered(d, p + ssz, lim, factor);
      OneOrdered(here, p, p + ssz, |d|);
      EditsConcat(here, rest);
      OrderedConcat(Edits(here), Edits(rest), p, p + ssz, lim);
    }
  }

  lemma {:induction false} RecordsOrdered(d: seq<Byte>, off: nat, end: nat, factor: real)
    requires off <= end && RecordsPlan(d, off, end, factor).Some?
    ensures Ordered(Edits(RecordsPlan(d, off, end, factor).value), off, end)
    decreases end - off
  {
    if off + Records.HEADER <= end && 8 <= U32(d, off) && off + U32(d, off) <= end {
      var next := off + U32(d, off);
      var rest := RecordsPlan(d, next, end, factor).value;
      var here := [];
      RecordsOrdered(d, next, end, factor);
      if U16(d, off + 6) == STREAM {
        here := SubsPlan(d, off + Records.HEADER, next, factor).value;
        SubsOrdered(d, off + Records.HEADER, next, factor);
        OrderedWiden(Edits(here), off + Records.HEADER, next, off, next);
      }
      EditsConcat(here, rest);
      OrderedConcat(Edits(here), Edits(rest), off, next, end);
    }
  }

  // ------------------------------------------------------------- the tool itself

  // struct.pack_into('<{n}i', d, vo, *vs)
  method StoreInts(d: array<Byte>, vo: nat, vs: seq<Int32>)
    requires vo + 4 * |vs| <= d.Length
    modifies d
    ensures d[..] == Splice(old(d[..]), vo, PackInts(vs))
  {
    ghost var d0 := d[..];
    for i := 0 to |vs|
      invariant d[..] == Splice(d0, vo, PackInts(vs[..i]))
    {
      assert vs[..i + 1][..i] == vs[..i];
      Checksums.StoreWord(d, vo + 4 * i, Unsigned(vs[i]));
    }
    assert vs[..|vs|] == vs;
  }

  lemma RewrittenOnwards(d: seq<Byte>, ps: seq<Param>, q: nat)
    requires CellsInBounds(ps, |d|) && forall x :: x in ps ==> x.vo + 4 * |x.after| <= q
    ensures SameFrom(d, Rewritten(d, ps), q)
  {
    EditsInBounds(ps, |d|);
    EditsInBounds(ps, q);
    forall k | q <= k < |d|
      ensures d[k] == Rewritten(d, ps)[k]
    {
      ApplyElsewhere(d, Edits(ps), k);
    }
  }

  method PatchSub(d: array<Byte>, p: nat, ssz: nat, factor: real) returns (r: Option<seq<Param>>)
    requires p + SUB_HEADER <= d.Length
    modifies d
    ensures r == SubPlan(old(d[..]), p, ssz, factor)
    ensures r.Some? ==> d[..] == Rewritten(old(d[..]), r.value)
  {
    hide U32, Rewritten, Eligible, Rescaled, Near, Above, PackInts, Splice;
    NothingRewritten(d[..]);
    var n1, n2, npts := U32(d[..], p + 16), U32(d[..], p + 20), U32(d[..], p + 24);
    if !(U32(d[..], p + 8) == TARGET_UUID && n1 >= 4 && n2 == 1 && npts == 1) {
      return Some([]);
    }
    if p + SUB_HEADER + 4 * n1 > d.Length {
      return None;
    }
    var axis := Axis(d[..], p + SUB_HEADER, n1);
    var vo := p + SUB_HEADER + 4 * n1 + 4 * n2;
    if !(Near(axis[0], 1.0, 0.01) && Above(axis[n1 - 1], 10.0) && vo + 4 * n1 <= p + ssz) {
      return Some([]);
    }
    if vo + 4 * n1 > d.Length {
      return None;
    }
    var vals := Values(d[..], vo, n1);
    if !Eligible(axis, vals) {
      return Some([]);
    }
    var scaled := Rescaled(axis, vals, factor);
    if !Fits32(scaled) {
      return None;
    }
    OneParam(d[..], Param(p, vo, axis, vals, scaled));
    StoreInts(d, vo, scaled);
    r := Some([Param(p, vo, axis, vals, scaled)]);
  }

  lemma OneParam(d: seq<Byte>, x: Param)
    requires CellsInBounds([x], |d|)
    ensures x.vo + 4 * |x.after| <= |d|
    ensures Rewritten(d, [x]) == Splice(d, x.vo, PackInts(x.after))
  {
    assert x in [x];
    var es := [Edit(x.vo, PackInts(x.after))];
    assert Edits([x]) == es;
    EditsInBounds([x], |d|);
    ApplyOne(d, es[0]);
  }

  // The tail of the plan, seen from where the loop stands.
  lemma ThenTwice(a: seq<Param>, b: seq<Param>, c: Option<seq<Param>>)
    ensures Then(a, Then(b, c)) == Then(a + b, c)
    ensures Then([], c) == c
  {
    if c.Some? {
      assert a + (b + c.value) == (a + b) + c.value;
      assert [] + c.value == c.value;
    }
  }

  // One loop step: `here` was planned at p and written, nothing from q on moved.
  lemma OneMore(d0: seq<Byte>, d1: seq<Byte>, d2: seq<Byte>, done: seq<Param>, here: seq<Param>, p: nat, q: nat)
    requires CellsInBounds(done, |d0|) && CellsInBounds(here, |d0|) && p <= q
    requires d1 == Rewritten(d0, done) && SameFrom(d0, d1, p)
    requires d2 == Rewritten(d1, here) && SameFrom(d1, d2, q)
    ensures CellsInBounds(done + here, |d0|)
    ensures d2 == Rewritten(d0, done + here) && SameFrom(d0, d2, q)
  {
    RewrittenConcat(d0, done, here);
  }

  method PatchSubs(d: array<Byte>, start: nat, lim: nat, factor: real) returns (r: Option<seq<Param>>)
    requires start <= lim
    modifies d
    ensures r == SubsPlan(old(d[..]), start, lim, factor)
    ensures r.Some? ==> d[..] == Rewritten(old(d[..]), r.value) && SameFrom(old(d[..]), d[..], lim)
  {
    hide SubPlan, U32, Rewritten;
    var p, patched: seq<Param> := start, [];
    ghost var d0 := d[..];
    ThenTwice([], [], SubsPlan(d0, start, lim, factor));
    NothingRewritten(d0);
    while p + SUB_HEADER <= lim
      invariant start <= p <= lim && CellsInBounds(patched, |d0|)
      invariant SubsPlan(d0, start, lim, factor) == Then(patched, SubsPlan(d0, p, lim, factor))
      invariant d[..] == Rewritten(d0, patched) && SameFrom(d0, d[..], p)
      decreases lim - p
    {
      if p + 16 > d.Length {
        return None;
      }
      var ssz := U32(d[..], p);
      WordKept(d0, d[..], p);
      if ssz < 16 || p + ssz > lim {
        break;
      }
      if p + SUB_HEADER > d.Length {
        return None;
      }
      ghost var d1 := d[..];
      SubPlanOnwards(d0, d1, p, ssz, factor);
      var here := PatchSub(d, p, ssz, factor);
      if here.None? {
        return None;
      }
      RewrittenOnwards(d1, here.value, p + ssz);
      OneMore(d0, d1, d[..], patched, here.value, p, p + ssz);
      ThenTwice(patched, here.value, SubsPlan(d0, p + ssz, lim, factor));
      patched := patched + here.value;
      p := p + ssz;
    }
    assert patched + [] == patched;
    r := Some(patched);
  }

  lemma NothingRewritten(d: seq<Byte>)
    ensures Rewritten(d, []) == d
  {
    assert Edits([]) == [];
  }

  method PatchRecords(d: array<Byte>, start: nat, end: nat, factor: real) returns (r: Option<seq<Param>>)
    modifies d
    ensures r == RecordsPlan(old(d[..]), start, end, factor)
    ensures r.Some? ==> d[..] == Rewritten(old(d[..]), r.value) && SameFrom(old(d[..]), d[..], end)
  {
    hide SubsPlan, U32, U16, Rewritten;
    var off, patched: seq<Param> := start, [];
    ghost var d0 := d[..];
    ThenTwice([], [], RecordsPlan(d0, start, end, factor));
    NothingRewritten(d0);
    while off + Records.HEADER <= end
      invariant start <= off && (start <= end ==> off <= end) && CellsInBounds(patched, |d0|)
      invariant RecordsPlan(d0, start, end, factor) == Then(patched, RecordsPlan(d0, off, end, factor))
      invariant d[..] == Rewritten(d0, patched) && SameFrom(d0, d[..], if start <= end then off else end)
      decreases end - off
    {
      if off + Records.HEADER > d.Length {
        return None;
      }
      var rsize, nid := U32(d[..], off), U16(d[..], off + 6);
      WordKept(d0, d[..], off);
      HalfKept(d0, d[..], off + 6);
      if rsize < 8 || off + rsize > end {
        break;
      }
      ghost var d1 := d[..];
      var here := Some([]);
      if nid == STREAM {
        SubsPlanOnwards(d0, d1, off + Records.HEADER, off + rsize, factor);
        here := PatchSubs(d, off + Records.HEADER, off + rsize, factor);
        if here.None? {
          return None;
        }
      } else {
        NothingRewritten(d1);
      }
      OneMore(d0, d1, d[..], patched, here.value, off, off + rsize);
      ThenTwice(patched, here.value, RecordsPlan(d0, off + rsize, end, factor));
      patched := patched + here.value;
      off := off + rsize;
    }
    assert patched + [] == patched;
    r := Some(patched);
  }

  // How a run ends: the assertion on the magic, struct.error, a walker that
  // never returns, the assertion that something was patched, or an output file.
  datatype Outcome = NotCpff | StructError | Hangs | NothingEligible | Written(bytes: seq<Byte>)

  // The two-phase reading of the tool: plan everything on the untouched input,
  // rewrite it, repair the checksums.
  function PatchResult(d: seq<Byte>, factor: real): Outcome {
    if |d| < 4 || TagAt(d, 0) != "CPFF" then NotCpff
    else
      var walked := Walk(PATCHER_TAGS, d, FIRST_SECTION, []);
      var plan := Plan(d, walked.sections, factor);
      var target := LastTarget(walked.sections);
      if plan.None? then StructError
      else if walked.Loops? then Hangs
      else if plan.value == [] || target.None? then NothingEligible
      else
        match Checksums.Repaired(Rewritten(d, plan.value), target.value.hdr, target.value.end)
        case None => StructError
        case Some(r) => Written(r)
  }

  lemma {:induction false} PlanSnoc(d: seq<Byte>, ss: seq<Section>, s: Section, factor: real)
    ensures Plan(d, ss, factor).None? ==> Plan(d, ss + [s], factor).None?
    ensures Plan(d, ss, factor).Some? ==>
              Plan(d, ss + [s], factor)
              == Then(Plan(d, ss, factor).value, SectionPlan(d, s, factor))
  {
    if ss == [] {
      assert ss + [s] == [s] && [s][1..] == [];
      var here := SectionPlan(d, s, factor);
      assert here.Some? ==> here.value + [] == here.value;
      ThenTwice([], [], here);
    } else {
      assert (ss + [s])[1..] == ss[1..] + [s] && (ss + [s])[0] == ss[0];
      PlanSnoc(d, ss[1..], s, factor);
      var here := SectionPlan(d, ss[0], factor);
      if here.Some? && Plan(d, ss[1..], factor).Some? {
        ThenTwice(here.value, Plan(d, ss[1..], factor).value, SectionPlan(d, s, factor));
      }
    }
  }

  lemma {:induction false} PlanPrefix(d: seq<Byte>, ss: seq<Section>, more: seq<Section>, factor: real)
    requires Plan(d, ss, factor).None?
    ensures Plan(d, ss + more, factor).None?
  {
    if ss != [] {
      assert (ss + more)[1..] == ss[1..] + more && (ss + more)[0] == ss[0];
      if Plan(d, ss[1..], factor).None? {
        PlanPrefix(d, ss[1..], more, factor);
      }
    }
  }

  // A section seen by the running tool: found in the buffer as it now is,
  // planned on the file as it was.
  method PatchSection(d: array<Byte>, s: Section, factor: real) returns (r: Option<seq<Param>>)
    modifies d
    ensures r == SectionPlan(old(d[..]), s, factor)
    ensures r.Some? ==> d[..] == Rewritten(old(d[..]), r.value) && SameFrom(old(d[..]), d[..], s.end)
  {
    if s.path != TARGET_PATH {
      NothingRewritten(d[..]);
      return Some([]);
    }
    r := PatchRecords(d, s.start, s.end, factor);
  }

  // The tool: walk and rewrite in one pass over one buffer. What it writes is
  // what the two-phase reading says.
  method Patch(d: array<Byte>, factor: real) returns (outcome: Outcome)
    modifies d
    ensures outcome == PatchResult(old(d[..]), factor)
    ensures outcome.Written? ==> d[..] == outcome.bytes
  {
    hide Walk, SectionPlan, Plan, LastTarget, U32, Rewritten, Checksums.Repaired, Join, BoxName;
    if d.Length < 4 || TagAt(d[..], 0) != "CPFF" {
      return NotCpff;
    }
    ghost var d0 := d[..];
    var p, path, patched: seq<Param> := FIRST_SECTION, [], [];
    var target: Option<Section> := None;
    ghost var seen := [];
    ghost var whole := Walk(PATCHER_TAGS, d0, FIRST_SECTION, []);
    NothingRewritten(d0);
    NothingSeen(d0, factor);
    YieldTwice([], [], whole);
    while p + 16 <= d.Length
      invariant whole == Yield(seen, Walk(PATCHER_TAGS, d0, p, path))
      invariant Plan(d0, seen, factor) == Some(patched) && target == LastTarget(seen)
      invariant FIRST_SECTION <= p && (target.Some? ==> FIRST_SECTION <= target.value.hdr)
      invariant d[..] == Rewritten(d0, patched) && SameFrom(d0, d[..], p)
      decreases d.Length - p
    {
      var tag := TagAt(d[..], p);
      assert tag == TagAt(d0, p);
      if tag !in PATCHER_TAGS {
        break;
      }
      var size, ver := U32(d[..], p + 4), U32(d[..], p + 8);
      WordKept(d0, d[..], p + 4);
      WordKept(d0, d[..], p + 8);
      ghost var before := path;
      path := DropEnded(path, p);
      if tag == "AIQB" {
        StepOver(PATCHER_TAGS, d0, p, before);
        var s := Section(Join(Names(path)), p, p + AIQB_HEADER, p + size);
        ghost var d1 := d[..];
        SectionOnwards(d0, d1, s, factor);
        var here := PatchSection(d, s, factor);
        SectionSeen(d0, seen, s, Walk(PATCHER_TAGS, d0, s.end, path), patched, here, factor);
        if here.None? {
          return StructError;
        }
        OneMore(d0, d1, d[..], patched, here.value, p, s.end);
        patched := patched + here.value;
        seen := seen + [s];
        if s.path == TARGET_PATH {
          target := Some(s);
        }
        if size == 0 {
          return Hangs;
        }
        p := s.end;
      } else {
        StepInto(PATCHER_TAGS, d0, p, before);
        path := path + [Frame(BoxName(tag, ver), p + size)];
        p := p + BOX_HEADER;
      }
    }
    StepEnd(PATCHER_TAGS, d0, p, path);
    assert seen + [] == seen;
    if patched == [] || target.None? {
      return NothingEligible;
    }
    ghost var rewritten := d[..];
    var ok := Checksums.Repair(d, target.value.hdr, target.value.end);
    outcome := if ok then Written(d[..]) else StructError;
  }

  lemma NothingSeen(d: seq<Byte>, factor: real)
    ensures Plan(d, [], factor) == Some([]) && LastTarget([]) == None
  {
  }

  lemma SectionOnwards(a: seq<Byte>, b: seq<Byte>, s: Section, factor: real)
    requires SameFrom(a, b, s.hdr) && s.hdr <= s.start
    ensures SectionPlan(a, s, factor) == SectionPlan(b, s, factor)
  {
    RecordsPlanOnwards(a, b, s.start, s.end, factor);
  }

  // One more section seen: what the whole plan becomes.
  lemma SectionSeen(d: seq<Byte>, seen: seq<Section>, s: Section, more: Walked, patched: seq<Param>,
                    here: Option<seq<Param>>, factor: real)
    requires Plan(d, seen, factor) == Some(patched) && SectionPlan(d, s, factor) == here
    ensures Yield(seen, Yield([s], more)) == Yield(seen + [s], more)
    ensures Yield(seen, Loops([s])) == Loops(seen + [s])
    ensures here.Some? ==> Plan(d, seen + [s], factor) == Some(patched + here.value)
    ensures here.None? ==> Plan(d, seen + [s], factor).None?
    ensures here.None? ==> Plan(d, (seen + [s]) + more.sections, factor).None?
    ensures LastTarget(seen + [s]) == if s.path == TARGET_PATH then Some(s) else LastTarget(seen)
  {
    YieldTwice(seen, [s], more);
    PlanSnoc(d, seen, s, factor);
    assert (seen + [s])[..|seen|] == seen;
    if here.None? {
      PlanPrefix(d, seen + [s], more.sections, factor);
    }
  }
}
