// Bringing the IR camera up: start_capture, wedge_probe and the forwarding loop
// of bridges/surface-ir-bridge, over the blanking and exposure controls of
// dkms/ov7251-surface/ov7251.c.
module IrCapture {
  import opened Numbers
  import opened Wrappers
  import opened Controls
  import AutoExposure
  import SessionBridge

  // --------------------------------------------------------------- the sensor

  const HEIGHT: int := 480
  const MAX_VTS: int := 0xffff
  const MARGIN: int := 20
  const BOOST_MARGIN: int := 256
  const STOCK_VTS: int := 1724

  const STOCK_EXPOSURE_MAX: int := 1704
  const EXPOSURE_DEF: int := 504

  // The mode table entry of the default mode, rewritten for a boost in range.
  predicate Boosted(boost: int) {
    522 < boost <= MAX_VTS
  }

  // A boost above the stock timing, which the bridge may fall back to.
  predicate AboveStock(boost: int) {
    Boosted(boost) && boost > STOCK_VTS
  }

  // The default exposure is above the mode's maximum: set_format fails.
  predicate TooShort(boost: int) {
    522 < boost < EXPOSURE_DEF + BOOST_MARGIN
  }

  function VtsOf(boost: int): int {
    if Boosted(boost) then boost else STOCK_VTS
  }

  function ExposureMaxOf(boost: int): int {
    if Boosted(boost) then boost - BOOST_MARGIN else STOCK_EXPOSURE_MAX
  }

  // The driver's exposure maximum for a blanking: any vts_boost but 0 has the
  // wider margin.
  function CeilingOf(vblank: int, boost: int): int {
    HEIGHT + vblank - if boost != 0 then BOOST_MARGIN else MARGIN
  }

  class Ov7251 {
    const boost: int         // module parameter vts_boost; win_timing is 0
    var vts: int             // of mode 0, the one every 640x480 request selects
    var exposureMax: int
    var exposure: Control
    var vblank: Control

    ghost predicate Valid()
      reads this
    {
      && vts == VtsOf(boost) && exposureMax == ExposureMaxOf(boost)
      && Controls.Valid(exposure) && exposure.min == 1
      && Controls.Valid(vblank) && vblank.min == 1 && vblank.max == MAX_VTS - HEIGHT
    }

    // As a fresh driver is, or as any number of daemons leave it.
    ghost predicate Served()
      reads this
    {
      && Valid()
      && if AboveStock(boost) then exposure.max <= exposureMax
         else vblank.val == vts - HEIGHT && (exposure.max == exposureMax || TooShort(boost))
    }

    // probe: the mode table entry is rewritten for a boost in range, the controls
    // get their first ranges, and the default format is applied.
    constructor (boost: int)
      ensures Served() && this.boost == boost && vblank.val == VtsOf(boost) - HEIGHT
      ensures exposure == if EXPOSURE_DEF <= ExposureMaxOf(boost) then Control(1, ExposureMaxOf(boost), EXPOSURE_DEF)
                          else Control(1, 32, 32)
    {
      this.boost := boost;
      vts, exposureMax := STOCK_VTS, STOCK_EXPOSURE_MAX;
      if boost > 522 && boost <= MAX_VTS {
        vts, exposureMax := boost, boost - BOOST_MARGIN;
      }
      exposure := Control(1, 32, 32);
      vblank := Control(1, MAX_VTS - HEIGHT, VtsOf(boost) - HEIGHT);
      new;
      var ok := SetFormat();
    }

    // ov7251_set_format on the active 640x480 format, as media-ctl issues it
    // before every session: exposure and gain go back to the mode's defaults,
    // the blanking keeps its value. It fails, with nothing changed, when the
    // default exposure is above the mode's maximum: for a boost below 760.
    method SetFormat() returns (ok: bool)
      requires Valid()
      modifies this`exposure, this`vblank
      ensures Valid() && vblank == old(vblank)
      ensures ok <==> !TooShort(boost)
      ensures exposure == if ok then Control(1, exposureMax, EXPOSURE_DEF) else old(exposure)
    {
      var ranged := ModifyRange(exposure, 1, exposureMax, EXPOSURE_DEF);
      if ranged.None? {
        return false;
      }
      exposure := ranged.value.(val := Accepted(ranged.value, EXPOSURE_DEF));
      vblank := ModifyRange(vblank, 1, MAX_VTS - HEIGHT, vts - HEIGHT).value;
      ok := true;
    }

    // Setting VBLANK: s_ctrl only runs when the value changes, and then adjusts
    // the exposure range.
    method SetVblank(v: int)
      requires Valid()
      modifies this`exposure, this`vblank
      ensures Valid() && vblank.val == Clamp(v, 1, MAX_VTS - HEIGHT)
      ensures exposure.max == if vblank.val == old(vblank).val then old(exposure).max
                              else 480 + vblank.val - if boost == 0 then 20 else 256
    {
      var val := Accepted(vblank, v);
      if val != vblank.val {
        var max := CeilingOf(val, boost);
        exposure := ModifyRange(exposure, exposure.min, max, Min(exposure.val, max)).value;
        vblank := vblank.(val := val);
      }
    }

    method SetExposure(v: int)
      requires Valid()
      modifies this`exposure
      ensures Valid() && exposure == old(exposure).(val := Clamp(v, 1, exposure.max))
    {
      exposure := exposure.(val := Accepted(exposure, v));
    }
  }

  // -------------------------------------------------------------- wedged frames

  const ROWS: nat := 480
  const WEDGE_ROW_LEVEL: int := 1020
  const WEDGE_PROBE_FRAMES: nat := 3
  const WEDGE_FAST_DT: real := 0.4

  type Row = r: seq<int> | |r| > 0 witness [0]
  const BLANK: Row := [0]
  type Image = i: seq<Row> | |i| == ROWS witness seq(ROWS, _ => BLANK)

  predicate Pinned(r: Row) {
    forall x :: 0 <= x < |r| ==> r[x] >= WEDGE_ROW_LEVEL
  }

  function PinnedRows(rows: seq<Row>): nat {
    if rows == [] then 0 else PinnedRows(rows[1..]) + if Pinned(rows[0]) then 1 else 0
  }

  // (rowmin >= LEVEL).mean() > 0.5
  predicate FrameIsWedged(img: Image) {
    2 * PinnedRows(img) > ROWS
  }

  ghost predicate HasDark(r: Row) {
    exists x :: 0 <= x < |r| && r[x] < 1020
  }

  // The rows with a pixel below the level.
  ghost function DarkRows(rows: seq<Row>): set<nat> {
    set y: nat | y < |rows| && HasDark(rows[y])
  }

  lemma PinnedHasNone()
    ensures forall r: Row :: Pinned(r) <==> !HasDark(r)
  {
  }

  lemma {:induction false} PinnedRowsAre(rows: seq<Row>)
    ensures PinnedRows(rows) + |DarkRows(rows)| == |rows|
  {
    hide Pinned, HasDark;
    PinnedHasNone();
    if rows != [] {
      var rest, dark := DarkRows(rows[1..]), DarkRows(rows);
      PinnedRowsAre(rows[1..]);
      var shifted := set y | y in rest :: y + 1;
      SameSize(rest, shifted);
      forall y: nat
        ensures y in dark <==> y in shifted || (y == 0 && HasDark(rows[0]))
      {
        assert y > 0 && y < |rows| ==> rows[1..][y - 1] == rows[y];
        assert y > 0 ==> (y in shifted <==> y - 1 in rest);
      }
      assert dark == shifted + (if HasDark(rows[0]) then {0} else {});
    }
  }

  lemma {:induction false} SameSize(s: set<nat>, t: set<nat>)
    requires forall y: nat :: y in t <==> y > 0 && y - 1 in s
    ensures |t| == |s|
    decreases s
  {
    if s != {} {
      var x :| x in s;
      assert x + 1 in t;
      SameSize(s - {x}, t - {x + 1});
    } else {
      assert t == {};
    }
  }

  // A frame is wedged exactly when fewer than half of its rows have a dark
  // pixel: brightness alone, with one dark pixel a row, never counts.
  lemma WedgedExactly(img: Image)
    ensures FrameIsWedged(img) <==> 2 * |DarkRows(img)| < ROWS
  {
    PinnedRowsAre(img);
  }

  // ---------------------------------------------------------------- the capture

  // Its frames and their kernel timestamps come from the environment.
  class Capture {
    var open: bool
    ghost var dequeued: seq<Image>
    ghost var stamped: seq<real>

    constructor ()
      ensures open && dequeued == [] && stamped == []
    {
      open, dequeued, stamped := true, [], [];
    }

    // The verdict of wedge_probe on what was dequeued so far.
    ghost predicate LooksWedged(nominal: real)
      reads this`dequeued, this`stamped
    {
      Wedges(dequeued) >= 2 || FastGaps(stamped, nominal * WEDGE_FAST_DT) >= 2
    }

    method Frame() returns (img: Option<Image>, stamp: real)
      requires open
      modifies this`dequeued, this`stamped
      ensures dequeued == old(dequeued) + if img.Some? then [img.value] else []
      ensures stamped == old(stamped) + if img.Some? then [stamp] else []
    {
      var arrived: bool := *;
      stamp := *;
      if !arrived {
        return None, stamp;
      }
      var got: Image := *;
      img := Some(got);
      dequeued, stamped := dequeued + [got], stamped + [stamp];
    }

    method Close()
      modifies this`open
      ensures !open
    {
      open := false;
    }
  }

  function Wedges(frames: seq<Image>): nat {
    if frames == [] then 0 else Wedges(frames[..|frames| - 1]) + if FrameIsWedged(frames[|frames| - 1]) then 1 else 0
  }

  // Gaps between successive stamps shorter than `limit`.
  function FastGaps(stamps: seq<real>, limit: real): nat {
    if |stamps| < 2 then 0
    else
      var n := |stamps| - 1;
      FastGaps(stamps[..n], limit) + if stamps[n] - stamps[n - 1] < limit then 1 else 0
  }

  // On what a probe can see: two of three frames are wedged, or both gaps are
  // shorter than two fifths of the frame period.
  lemma VerdictExactly(cap: Capture, nominal: real)
    requires |cap.dequeued| == |cap.stamped| <= 3
    ensures cap.LooksWedged(nominal) <==>
              || (exists i, j :: 0 <= i < j < |cap.dequeued| && FrameIsWedged(cap.dequeued[i]) && FrameIsWedged(cap.dequeued[j]))
              || (|cap.stamped| == 3 && cap.stamped[1] - cap.stamped[0] < 0.4 * nominal
                  && cap.stamped[2] - cap.stamped[1] < 0.4 * nominal)
  {
    hide FrameIsWedged, Wedges, FastGaps;
    WedgesAre(cap.dequeued);
    GapsAre(cap.stamped, nominal * WEDGE_FAST_DT);
  }

  lemma WedgesAre(f: seq<Image>)
    requires |f| <= 3
    ensures Wedges(f) >= 2 <==> exists i, j :: 0 <= i < j < |f| && FrameIsWedged(f[i]) && FrameIsWedged(f[j])
  {
    hide FrameIsWedged, Wedges;
    WedgesOnTop(f);
    if |f| > 1 {
      WedgesOnTop(f[..|f| - 1]);
    }
    if |f| > 2 {
      WedgesOnTop(f[..2][..1]);
    }
  }

  lemma WedgesOnTop(f: seq<Image>)
    ensures f == [] ==> Wedges(f) == 0
    ensures |f| == 1 ==> Wedges(f) == if FrameIsWedged(f[0]) then 1 else 0
    ensures f != [] ==> Wedges(f) == Wedges(f[..|f| - 1]) + if FrameIsWedged(f[|f| - 1]) then 1 else 0
  {
    hide FrameIsWedged;
  }

  lemma GapsAre(s: seq<real>, limit: real)
    requires |s| <= 3
    ensures FastGaps(s, limit) >= 2 <==> |s| == 3 && s[1] - s[0] < limit && s[2] - s[1] < limit
  {
    if |s| == 3 {
      var t := s[..2];
      assert t[0] == s[0] && t[1] == s[1] && FastGaps(t[..1], limit) == 0;
      assert FastGaps(t, limit) == if s[1] - s[0] < limit then 1 else 0;
    } else if |s| == 2 {
      assert FastGaps(s[..1], limit) == 0;
    }
  }

  // wedge_probe: the frames are kept for forwarding; the session is wedged when
  // two of them are, or two gaps are absurdly short.
  method WedgeProbe(cap: Capture, nominal: real) returns (frames: seq<Image>, wedged: bool)
    requires cap.open && cap.dequeued == [] && cap.stamped == []
    modifies cap`dequeued, cap`stamped
    ensures cap.dequeued == frames && |frames| <= WEDGE_PROBE_FRAMES
    ensures |cap.stamped| == |frames|
    ensures wedged <==> cap.LooksWedged(nominal)
  {
    var stamps: seq<real> := [];
    frames := [];
    var pinned, fast := 0, 0;
    while |frames| < WEDGE_PROBE_FRAMES
      invariant |stamps| == |frames| <= WEDGE_PROBE_FRAMES
      invariant cap.dequeued == frames && cap.stamped == stamps
      invariant pinned == Wedges(frames) && fast == FastGaps(stamps, nominal * WEDGE_FAST_DT)
      decreases WEDGE_PROBE_FRAMES - |frames|
    {
      var img, stamp := cap.Frame();
      if img.None? {
        break;
      }
      assert (frames + [img.value])[..|frames|] == frames && (stamps + [stamp])[..|stamps|] == stamps;
      if |stamps| > 0 && stamp - stamps[|stamps| - 1] < nominal * WEDGE_FAST_DT {
        fast := fast + 1;
      }
      pinned := pinned + if FrameIsWedged(img.value) then 1 else 0;
      frames := frames + [img.value];
      stamps := stamps + [stamp];
    }
    wedged := pinned >= 2 || fast >= 2;
  }

  // ------------------------------------------------------------------ start-up

  const WEDGE_RETRIES: nat := 8
  const FALLBACK_RETRIES: nat := 3
  const VBLANK_STOCK: int := 1244

  // What main read off the driver when the daemon started.
  datatype Timing = Timing(exposureMin: int, exposureMax: int, vblankDef: int, frameDt: real)

  function Repeat(x: (int, int), n: nat): (r: seq<(int, int)>)
    ensures |r| == n && forall i :: 0 <= i < n ==> r[i] == x
  {
    if n == 0 then [] else [x] + Repeat(x, n - 1)
  }

  // The attempts in order: blanking and exposure ceiling of each.
  function Attempts(t: Timing): seq<(int, int)> {
    Repeat((t.vblankDef, t.exposureMax), WEDGE_RETRIES)
    + if VBLANK_STOCK < t.vblankDef
      then Repeat((VBLANK_STOCK, Max(t.exposureMax - (t.vblankDef - VBLANK_STOCK), t.exposureMin + 1)), FALLBACK_RETRIES)
      else []
  }

  // Eight attempts, and three at the stock blanking where that is shorter. Every
  // attempt's ceiling is the driver's exposure maximum for its blanking exactly
  // when the range read at start-up was that of the default blanking (a daemon
  // restarted over a leftover fallback blanking reads another one).
  lemma CeilingsMatchExactly(t: Timing, boost: int)
    requires t.vblankDef == VtsOf(boost) - HEIGHT && t.exposureMin == 1
    ensures |Attempts(t)| == if boost > STOCK_VTS && Boosted(boost) then 11 else 8
    ensures (forall i :: 0 <= i < |Attempts(t)| ==> Attempts(t)[i].1 == CeilingOf(Attempts(t)[i].0, boost))
            <==> t.exposureMax == CeilingOf(t.vblankDef, boost)
    ensures forall i :: 0 <= i < |Attempts(t)| ==> Attempts(t)[i].0 == if i < 8 then t.vblankDef else VBLANK_STOCK
    ensures forall i :: 0 <= i < 8 ==> Attempts(t)[i].1 == t.exposureMax
  {
    if t.exposureMax != CeilingOf(t.vblankDef, boost) {
      assert Attempts(t)[0] == (t.vblankDef, t.exposureMax);
    }
  }

  const FIRST_EXPOSURE: int := 800
  const CLIENT_GRACE: real := 2.0

  // How a session ends.
  datatype IrEnd = TimedOut | BrokenPipe | ClientsGone(at: real) | NotFollowed

  class IrBridge {
    const timing: Timing
    const driver: Ov7251
    ghost var captures: seq<Capture>

    // The daemon starts over a driver that may still be at the fallback blanking
    // of an earlier one.
    constructor (driver: Ov7251, frameDt: real)
      requires driver.Served()
      ensures Valid() && this.driver == driver && captures == [] && timing.frameDt == frameDt
      ensures timing.exposureMax == driver.exposure.max
    {
      this.driver := driver;
      timing := Timing(driver.exposure.min, driver.exposure.max, driver.vts - HEIGHT, frameDt);
      captures := [];
    }

    // There are attempts at the stock blanking.
    ghost predicate Fallback() {
      AboveStock(driver.boost)
    }

    // What was read at start-up; without fallback the driver never leaves it.
    ghost predicate Valid()
      reads this, driver
    {
      && driver.Served()
      && timing.exposureMin == 1 && timing.vblankDef == VtsOf(driver.boost) - HEIGHT
      && 1 <= timing.exposureMax && (Fallback() ==> timing.exposureMax <= driver.exposureMax)
      && (!Fallback() ==> driver.exposure.max == timing.exposureMax)
    }

    // The driver's exposure maximum once the blanking is set: it only follows a
    // blanking that changes.
    ghost function MaxAfter(vblank: int, before: int): int
      reads driver`exposureMax
    {
      if !Fallback() then timing.exposureMax
      else if vblank != before then CeilingOf(vblank, driver.boost)
      else driver.exposureMax
    }

    // How far the ceiling is below the driver's maximum, given whether the first
    // eight captures looked wedged, and the first nine: what the range was short
    // of the boosted one when the daemon started, cut down to what keeps the
    // fallback ceiling at two lines, and the boost itself where the blanking does
    // not change from one fallback attempt to the next.
    ghost function Shortfall(eight: bool, nine: bool): int
      reads driver`exposureMax
    {
      var short := driver.exposureMax - timing.exposureMax;
      (if eight then Min(short, CeilingOf(VBLANK_STOCK, driver.boost) - 2) else short)
      + if nine then driver.boost - STOCK_VTS else 0
    }

    // The frame period to expect at this blanking.
    function Nominal(vblank: int): real
      requires timing.vblankDef > 0
    {
      timing.frameDt * (HEIGHT + vblank) as real / (HEIGHT + timing.vblankDef) as real
    }

    // A line takes the same time at every blanking, and the period at the default
    // blanking is the one read at start-up.
    lemma LinesTakeEqualTime(vblank: int)
      requires timing.vblankDef > 0 && vblank > 0
      ensures Nominal(timing.vblankDef) == timing.frameDt
      ensures Nominal(vblank) * (480 + timing.vblankDef) as real == timing.frameDt * (480 + vblank) as real
    {
      var here, default := (480 + vblank) as real, (480 + timing.vblankDef) as real;
      assert timing.frameDt * here / default * default == timing.frameDt * here;
      assert timing.frameDt * default / default == timing.frameDt;
    }

    // Captures `from` to `to` of this start: closed, and given up for a reason.
    ghost predicate GivenUp(from: nat, to: nat)
      requires from <= to <= |captures| && to <= from + |Attempts(timing)| && timing.vblankDef > 0
      reads this`captures, captures
    {
      forall i :: from <= i < to ==> !captures[i].open && WedgedAt(from, i)
    }

    // What capture i of a start that began with capture `from` showed.
    ghost predicate WedgedAt(from: nat, i: nat)
      requires from <= i < |captures| && i < from + |Attempts(timing)| && timing.vblankDef > 0
      reads this`captures, captures
    {
      captures[i].LooksWedged(Nominal(Attempts(timing)[i - from].0))
    }

    // The first n captures of this start all looked wedged.
    ghost predicate FirstWedged(from: nat, n: nat)
      requires from <= |captures| <= from + |Attempts(timing)| && timing.vblankDef > 0
      reads this`captures, captures
    {
      |captures| >= from + n && forall i :: from <= i < from + n ==> WedgedAt(from, i)
    }

    // setup_graph, set_vblank and set_ctrls of one attempt.
    method Configure(vblank: int, emax: int, exposure: int)
      requires Valid() && 1 <= vblank <= MAX_VTS - HEIGHT
      requires if Fallback() then vblank <= timing.vblankDef else vblank == timing.vblankDef
      modifies driver
      ensures Valid() && driver.vblank.val == vblank
      ensures driver.exposure.max == MaxAfter(vblank, old(driver.vblank.val))
      ensures driver.exposure.val == Clamp(Min(exposure, emax), 1, driver.exposure.max)
    {
      var ok := driver.SetFormat();
      driver.SetVblank(vblank);
      driver.SetExposure(Min(exposure, emax));
    }

    // One attempt: bring the sensor up, open the capture and, unless it is the
    // last attempt, probe it; a wedged one is closed again.
    method Attempt(vblank: int, emax: int, exposure: int, last: bool)
      returns (cap: Capture, frames: seq<Image>, wedged: bool)
      requires Valid() && 1 <= vblank <= MAX_VTS - HEIGHT
      requires if Fallback() then vblank <= timing.vblankDef else vblank == timing.vblankDef
      requires timing.vblankDef > 0
      modifies driver, this`captures
      ensures Valid() && driver.vblank.val == vblank
      ensures driver.exposure.max == MaxAfter(vblank, old(driver.vblank.val))
      ensures driver.exposure.val == Clamp(Min(exposure, emax), 1, driver.exposure.max)
      ensures fresh(cap) && captures == old(captures) + [cap]
      ensures cap.open == !wedged && frames == cap.dequeued && |frames| <= WEDGE_PROBE_FRAMES
      ensures if last then !wedged && frames == [] else wedged == cap.LooksWedged(Nominal(vblank))
    {
      hide Wedges, FastGaps, FrameIsWedged, Clamp;
      Configure(vblank, emax, exposure);
      cap := new Capture();
      captures := captures + [cap];
      frames, wedged := [], false;
      if !last {
        frames, wedged := WedgeProbe(cap, Nominal(vblank));
        if wedged {
          cap.Close();
        }
      }
    }

    // start_capture, when it returns: the last attempt is served whatever it
    // shows, any other only if it is not wedged.
    method StartCapture(exposure: int) returns (cap: Capture, pending: seq<Image>, ceiling: int)
      requires Valid()
      modifies driver, this`captures
      ensures Valid() && old(captures) <= captures && timing.vblankDef > 0
      ensures forall i :: |old(captures)| <= i < |captures| ==> fresh(captures[i])
      ensures |Attempts(timing)| == if Fallback() then 11 else 8
      ensures |old(captures)| < |captures| <= |old(captures)| + |Attempts(timing)|
      ensures cap == captures[|captures| - 1] && cap.open && fresh(cap) && GivenUp(|old(captures)|, |captures| - 1)
      ensures if |captures| == |old(captures)| + |Attempts(timing)| then pending == []
              else !WedgedAt(|old(captures)|, |captures| - 1)
      ensures (driver.vblank.val, ceiling) == Attempts(timing)[|captures| - |old(captures)| - 1]
      ensures 1 <= ceiling <= driver.exposure.max
      ensures driver.exposure.max - ceiling ==
              if Fallback() then Shortfall(FirstWedged(|old(captures)|, 8), FirstWedged(|old(captures)|, 9)) else 0
      ensures Fallback() ==>
                (ceiling == CeilingOf(driver.vblank.val, driver.boost) <==> timing.exposureMax == driver.exposureMax)
      ensures driver.exposure.val == Clamp(Min(exposure, ceiling), 1, driver.exposure.max)
      ensures pending == cap.dequeued && |pending| <= WEDGE_PROBE_FRAMES
    {
      CeilingsMatchExactly(timing, driver.boost);
      hide Attempts, Wedges, FastGaps, FrameIsWedged, Clamp;
      var attempts := Attempts(timing);
      var i := 0;
      ghost var before := |captures|;
      while true
        invariant 0 <= i < |attempts| && |captures| == before + i && old(captures) <= captures
        invariant Valid() && GivenUp(before, before + i)
        invariant forall j :: before <= j < before + i ==> fresh(captures[j])
        invariant i > 0 ==> driver.vblank.val == attempts[i - 1].0
        decreases |attempts| - i
      {
        var vblank, emax := attempts[i].0, attempts[i].1;
        var wedged;
        cap, pending, wedged := Attempt(vblank, emax, exposure, i == |attempts| - 1);
        if !wedged {
          return cap, pending, emax;
        }
        i := i + 1;
      }
    }

    // run_session: pending frames first, then fresh ones, each written before
    // the exposure loop looks at it and before the next is fetched; whatever ends
    // it, the capture is closed. `lost` failed to be written, `rest` are probed
    // frames an early end dropped. `rounds` bounds how much of it is followed.
    method RunSession(rounds: nat)
      returns (forwarded: seq<Image>, lost: seq<Image>, rest: seq<Image>, cap: Capture, exposure: int, end: IrEnd,
               ghost last: Option<(nat, real)>)
      requires Valid()
      modifies driver, this`captures
      ensures Valid() && fresh(cap) && !cap.open
      ensures old(captures) < captures && cap == captures[|captures| - 1]
      ensures forall i :: |old(captures)| <= i < |captures| ==> !captures[i].open
      ensures forwarded + lost + rest == cap.dequeued && |lost| == if end.BrokenPipe? then 1 else 0
      ensures rest == [] || (|cap.dequeued| <= WEDGE_PROBE_FRAMES && !end.TimedOut?)
      ensures driver.exposure.val == exposure
      ensures end.ClientsGone? ==> last.Some? && last.value.0 == 0 && end.at - last.value.1 > CLIENT_GRACE
    {
      hide Attempts, Clamp, Fallback, FirstWedged, Shortfall, WedgedAt, CeilingOf, Nominal, AutoExposure.Valid;
      var pending, ceiling;
      cap, pending, ceiling := StartCapture(FIRST_EXPOSURE);
      var ae := new AutoExposure.Controller(AutoExposure.Range(timing.exposureMin, ceiling));
      AtTheStart(ceiling, driver.exposure);
      ghost var seen, looks;
      forwarded, lost, rest, end, last, seen, looks := Pump(cap, pending, ae, ceiling, rounds);
      exposure := ae.exposure;
      cap.Close();
    }

    // Its loop.
    method Pump(cap: Capture, probed: seq<Image>, ae: AutoExposure.Controller, ceiling: int, rounds: nat)
      returns (forwarded: seq<Image>, lost: seq<Image>, rest: seq<Image>, end: IrEnd, ghost last: Option<(nat, real)>,
               ghost seen: seq<(real, real)>, ghost looks: seq<(Option<(nat, real)>, real)>)
      requires Valid() && InStep(ae, ceiling)
      requires cap.open && probed == cap.dequeued
      modifies driver, ae, cap`dequeued, cap`stamped
      ensures Valid() && InStep(ae, ceiling)
      ensures forwarded + lost + rest == cap.dequeued && |lost| == if end.BrokenPipe? then 1 else 0
      ensures rest == [] || (cap.dequeued == probed && !end.TimedOut?)
      ensures |seen| == |forwarded| == |looks|
      ensures forall i :: 0 <= i < |looks| ==> (Deserted(looks[i]) <==> end.ClientsGone? && i == |looks| - 1)
      ensures (ae.Knobs(), ae.lastAe) == AutoExposure.Corrected(old(ae.Knobs()), old(ae.lastAe), seen, ae.range)
      ensures end.ClientsGone? ==> last.Some? && last.value.0 == 0 && end.at - last.value.1 > CLIENT_GRACE
    {
      hide Valid, AutoExposure.Valid, AutoExposure.Next, AutoExposure.Corrected;
      NoFrames(ae);
      rest, seen, looks := probed, [], [];
      forwarded, lost, end, last := [], [], NotFollowed, None;
      var n, goneSince: Option<real> := 0, None;
      while n < rounds
        invariant forwarded + rest == cap.dequeued && lost == []
        invariant rest == [] || cap.dequeued == probed
        invariant Valid() && InStep(ae, ceiling) && end == NotFollowed
        invariant goneSince == Since(last)
        invariant |seen| == |forwarded| == |looks| && forall i :: 0 <= i < |looks| ==> !Deserted(looks[i])
        invariant (ae.Knobs(), ae.lastAe) == AutoExposure.Corrected(old(ae.Knobs()), old(ae.lastAe), seen, ae.range)
      {
        n := n + 1;
        var img;
        img, rest := Fetch(cap, forwarded, rest);
        if img.None? {
          end := TimedOut;
          break;
        }
        var written: bool := *;
        if !written {
          lost, end := [img.value], BrokenPipe;
          break;
        }
        forwarded := forwarded + [img.value];
        ghost var shot, looked;
        shot := Adjust(ae, ceiling);
        AutoExposure.OneMoreFrame(old(ae.Knobs()), old(ae.lastAe), seen, shot, ae.range);
        seen := seen + [shot];
        goneSince, end, last, looked := WatchClients(goneSince, last);
        looks := looks + [(last, looked)];
        if end.ClientsGone? {
          break;
        }
      }
    }

    lemma NoFrames(ae: AutoExposure.Controller)
      ensures AutoExposure.Corrected(ae.Knobs(), ae.lastAe, [], ae.range) == (ae.Knobs(), ae.lastAe)
    {
    }

    // The next image: a probed one while there are any, then a fresh one.
    method Fetch(cap: Capture, ghost forwarded: seq<Image>, pending: seq<Image>)
      returns (img: Option<Image>, rest: seq<Image>)
      requires cap.open && forwarded + pending == cap.dequeued
      modifies cap`dequeued, cap`stamped
      ensures img.Some? ==> (forwarded + [img.value]) + rest == cap.dequeued
      ensures img.None? ==> pending == rest == [] && forwarded == cap.dequeued
      ensures rest == if pending == [] then [] else pending[1..]
      ensures pending != [] ==> cap.dequeued == old(cap.dequeued)
    {
      if pending != [] {
        img, rest := Some(pending[0]), pending[1..];
        assert forwarded + pending == (forwarded + [pending[0]]) + pending[1..];
      } else {
        var stamp;
        img, stamp := cap.Frame();
        rest := [];
      }
    }

    // The exposure loop and the driver agree: what the loop believes the exposure
    // to be is what the driver has, the ceiling being within the driver's range.
    ghost predicate InStep(ae: AutoExposure.Controller, ceiling: int)
      reads this, driver, ae
    {
      && ae.range == AutoExposure.Range(1, ceiling) && AutoExposure.ValidRange(ae.range)
      && AutoExposure.Valid(ae.Knobs(), ae.range)
      && ceiling <= driver.exposure.max && driver.exposure.val == ae.exposure
    }

    lemma AtTheStart(ceiling: int, exposure: Control)
      requires 1 <= ceiling <= exposure.max && exposure.val == Clamp(Min(FIRST_EXPOSURE, ceiling), 1, exposure.max)
      ensures exposure.val == Min(FIRST_EXPOSURE, ceiling)
    {
    }

    // One frame's correction, and the set_ctrls call it takes.
    method Adjust(ae: AutoExposure.Controller, ceiling: int) returns (ghost shot: (real, real))
      requires Valid() && InStep(ae, ceiling)
      modifies driver, ae
      ensures Valid() && InStep(ae, ceiling) && driver.vblank == old(driver.vblank)
      ensures if shot.1 - old(ae.lastAe) > AutoExposure.PERIOD
              then ae.Knobs() == AutoExposure.Next(old(ae.Knobs()), shot.0, ae.range) && ae.lastAe == shot.1
              else ae.Knobs() == old(ae.Knobs()) && ae.lastAe == old(ae.lastAe)
    {
      hide AutoExposure.Next;
      var mean: real, now: real := *, *;
      if mean < 0.0 {
        mean := 0.0; // a mean of 8-bit pixels
      }
      shot := (mean, now);
      var writes := ae.written;
      ae.Frame(mean, now);
      if ae.written > writes {
        driver.SetExposure(ae.exposure);
      }
    }

    // gone_since: the time of the latest report, when that was of no client.
    ghost predicate Zero(report: Option<(nat, real)>) {
      report.Some? && report.value.0 == 0
    }

    // On a look at this time, everyone had been gone for longer than the grace period.
    ghost predicate Deserted(look: (Option<(nat, real)>, real)) {
      Zero(look.0) && look.1 - look.0.value.1 > 2.0
    }

    ghost function Since(report: Option<(nat, real)>): Option<real> {
      if Zero(report) then Some(report.value.1) else None
    }

    // The newest client count, and the grace period since it was zero: the session
    // ends exactly when the clock was read behind it.
    method WatchClients(gone: Option<real>, ghost before: Option<(nat, real)>)
      returns (goneSince: Option<real>, end: IrEnd, ghost last: Option<(nat, real)>, ghost looked: real)
      requires gone == Since(before)
      ensures goneSince == Since(last)
      ensures if Zero(last) && looked - last.value.1 > CLIENT_GRACE then end == ClientsGone(looked) else end == NotFollowed
    {
      goneSince, end, last := gone, NotFollowed, before;
      var q: seq<SessionBridge.Event> := *;
      var failAt: Option<nat> := *;
      var count, taken := SessionBridge.PollClientCount(q, failAt);
      var at: real, now: real := *, *;
      looked := now;
      if count.Some? {
        goneSince := if count.value > 0 then None else Some(at);
        last := Some((count.value, at));
      }
      if goneSince.Some? && now - goneSince.value > CLIENT_GRACE {
        end := ClientsGone(now);
      }
    }
  }
}
