// Crop and format negotiation of the OV5693
// (dkms/ov5693-surface/ov5693.c: set_selection, set_fmt, __ov5693_calc_vts).
module Ov5693Format {
  import opened Numbers
  import opened Wrappers

  const NATIVE_WIDTH: int := 2624
  const NATIVE_HEIGHT: int := 1956
  const MIN_CROP: int := 2
  const PIXEL_RATE: int := 167680000
  const FIXED_PPL: int := 2688
  const VTS: int := 2078

  datatype Rect = Rect(left: int, top: int, width: int, height: int)
  datatype Size = Size(width: int, height: int)

  // ALIGN(x, 2) on u32 and on s32, which wrap around.
  function AlignU32(x: int): int {
    (x + 1) % 0x1_0000_0000 / 2 * 2
  }

  function AlignS32(x: int): int {
    if x == 0x7fff_ffff then -0x8000_0000 else (x + 1) / 2 * 2
  }

  // clamp and clamp_t: an upper bound below the lower one wins.
  function KernelClamp(v: int, lo: int, hi: int): int {
    if v >= hi then hi else if v <= lo then lo else v
  }

  // The selection the driver takes, in u32 and s32.
  ghost predicate InTypes(r: Rect) {
    && -0x8000_0000 <= r.left < 0x8000_0000 && -0x8000_0000 <= r.top < 0x8000_0000
    && 0 <= r.width < 0x1_0000_0000 && 0 <= r.height < 0x1_0000_0000
  }

  // The crop rectangle set_selection makes of a request.
  function SelectedCrop(sel: Rect): Rect {
    var left := KernelClamp(AlignS32(sel.left), 0, NATIVE_WIDTH);
    var top := KernelClamp(AlignS32(sel.top), 0, NATIVE_HEIGHT);
    var width := KernelClamp(AlignU32(sel.width), MIN_CROP, NATIVE_WIDTH);
    var height := KernelClamp(AlignU32(sel.height), MIN_CROP, NATIVE_HEIGHT);
    Rect(left, top, Min(width, NATIVE_WIDTH - left), Min(height, NATIVE_HEIGHT - top))
  }

  // Crops lie on the array, on even lines and columns; an empty axis is one
  // that starts at the far edge.
  ghost predicate Sane(c: Rect) {
    && c.left % 2 == 0 && c.top % 2 == 0 && c.width % 2 == 0 && c.height % 2 == 0
    && 0 <= c.left && 0 <= c.width && c.left + c.width <= NATIVE_WIDTH
    && 0 <= c.top && 0 <= c.height && c.top + c.height <= NATIVE_HEIGHT
  }

  ghost predicate NonEmpty(c: Rect) {
    c.width > 0 && c.height > 0
  }

  lemma SelectedCropIsSane(sel: Rect)
    requires InTypes(sel)
    ensures Sane(SelectedCrop(sel))
  {
    hide AlignS32, AlignU32, KernelClamp;
    AxisIsSane(sel.left, sel.width, NATIVE_WIDTH);
    AxisIsSane(sel.top, sel.height, NATIVE_HEIGHT);
  }

  lemma AxisIsSane(start: int, length: int, native: int)
    requires native % 2 == 0 && native >= MIN_CROP
    ensures var s := KernelClamp(AlignS32(start), 0, native);
            var l := Min(KernelClamp(AlignU32(length), MIN_CROP, native), native - s);
            s % 2 == 0 && l % 2 == 0 && 0 <= s && 0 <= l && s + l <= native
  {
  }

  // A crop is empty exactly when the request starts at the last column or line,
  // or beyond (but not at the largest s32, which wraps to the first).
  lemma EmptyExactlyAtTheEdge(sel: Rect)
    requires InTypes(sel)
    ensures NonEmpty(SelectedCrop(sel)) <==>
              && (sel.left < NATIVE_WIDTH - 1 || sel.left == 0x7fff_ffff)
              && (sel.top < NATIVE_HEIGHT - 1 || sel.top == 0x7fff_ffff)
  {
  }

  // Selecting a non-empty rectangle on even lines of the array selects just it.
  lemma SelectsWhatItCan(c: Rect)
    requires Sane(c) && NonEmpty(c)
    ensures SelectedCrop(c) == c
  {
    hide AlignS32, AlignU32, KernelClamp;
    AxisIsKept(c.left, c.width, NATIVE_WIDTH);
    AxisIsKept(c.top, c.height, NATIVE_HEIGHT);
  }

  lemma AxisIsKept(start: int, length: int, native: int)
    requires 0 <= start && 0 < length && start + length <= native < 0x1000 && start % 2 == 0 && length % 2 == 0
    ensures KernelClamp(AlignS32(start), 0, native) == start && KernelClamp(AlignU32(length), MIN_CROP, native) == length
  {
  }

  // DIV_ROUND_CLOSEST on unsigned; None is a division by zero.
  function DivRoundClosest(x: int, d: int): Option<int> {
    if d == 0 then None else Some((x + d / 2) / d)
  }

  // The scaling of one axis: 1, or 2 for binned.
  function Ratio(crop: int, request: int): Option<int> {
    var q :- DivRoundClosest(crop, KernelClamp(AlignU32(request), MIN_CROP, crop));
    Some(KernelClamp(q, 1, 2))
  }

  // The ratios of set_fmt on both axes.
  function Ratios(crop: Rect, width: int, height: int): Option<(int, int)> {
    var h :- Ratio(crop.width, width);
    var v :- Ratio(crop.height, height);
    Some((h, v))
  }

  function Scaled(crop: Rect, ratios: (int, int)): Size
    requires ratios.0 != 0 && ratios.1 != 0
  {
    Size(crop.width / ratios.0, crop.height / ratios.1)
  }

  // set_fmt divides by zero exactly on an empty crop.
  lemma FaultsExactlyOnEmptyCrop(crop: Rect, width: int, height: int)
    requires Sane(crop) && 0 <= width < 0x1_0000_0000 && 0 <= height < 0x1_0000_0000
    ensures Ratios(crop, width, height).Some? <==> NonEmpty(crop)
  {
  }

  lemma ClampedEven(crop: int, request: int)
    requires 0 < crop <= NATIVE_WIDTH && crop % 2 == 0 && 0 <= request < 0x1_0000_0000
    ensures var w := KernelClamp(AlignU32(request), MIN_CROP, crop); w % 2 == 0 && 2 <= w <= crop
  {
  }

  lemma ClampRatio(q: int)
    ensures KernelClamp(q, 1, 2) == if q >= 2 then 2 else 1
  {
  }

  // Each axis is the crop, or exactly its half: the half when the request,
  // made even and clamped, is at most two thirds of the crop.
  lemma CropOrHalf(crop: int, request: int)
    requires 0 < crop <= NATIVE_WIDTH && crop % 2 == 0 && 0 <= request < 0x1_0000_0000
    ensures Ratio(crop, request).Some?
    ensures Ratio(crop, request).value == if 3 * KernelClamp(AlignU32(request), MIN_CROP, crop) <= 2 * crop then 2 else 1
    ensures crop == 2 ==> Ratio(crop, request).value == 1
  {
    var w := KernelClamp(AlignU32(request), MIN_CROP, crop);
    ClampedEven(crop, request);
    hide AlignU32, KernelClamp;
    QuotientAtLeast(crop + w / 2, w, 2);
    QuotientAtLeast(crop + w / 2, w, 1);
    ClampRatio((crop + w / 2) / w);
  }

  lemma {:induction false} QuotientAtLeast(x: int, d: int, k: int)
    requires d > 0
    ensures x / d >= k <==> x >= k * d
  {
    var q := x / d;
    assert x == q * d + x % d;
    if q >= k {
      ProductLe(k, q, d);
    } else {
      ProductLe(q + 1, k, d);
      assert (q + 1) * d == q * d + d;
    }
  }

  lemma ProductLe(a: int, b: int, d: int)
    requires a <= b && d > 0
    ensures a * d <= b * d
  {
  }

  // Asking for the negotiated length of an axis gives the same ratio again.
  lemma SetFmtIsIdempotent(crop: int, request: int)
    requires 0 < crop <= NATIVE_WIDTH && crop % 2 == 0 && 0 <= request < 0x1_0000_0000
    ensures Ratio(crop, request).Some? && Ratio(crop, request).value in {1, 2}
    ensures Ratio(crop, crop / Ratio(crop, request).value) == Ratio(crop, request)
  {
    hide Ratio, AlignU32;
    CropOrHalf(crop, request);
    var again := crop / Ratio(crop, request).value;
    CropOrHalf(crop, again);
    Aligned(again);
  }

  // Both axes: the negotiated size is the crop or exactly its half on each, and
  // negotiating it again gives it again.
  lemma NegotiationIsIdempotent(crop: Rect, width: int, height: int)
    requires Sane(crop) && NonEmpty(crop) && 0 <= width < 0x1_0000_0000 && 0 <= height < 0x1_0000_0000
    ensures Ratios(crop, width, height).Some?
    ensures Ratios(crop, width, height).value.0 in {1, 2} && Ratios(crop, width, height).value.1 in {1, 2}
    ensures var s := Scaled(crop, Ratios(crop, width, height).value);
            Ratios(crop, s.width, s.height) == Ratios(crop, width, height)
  {
    hide Ratio;
    SetFmtIsIdempotent(crop.width, width);
    SetFmtIsIdempotent(crop.height, height);
  }

  lemma Aligned(x: int)
    requires 0 <= x < 0x1_0000_0000 - 1
    ensures AlignU32(x) == if x % 2 == 0 then x else x + 1
  {
  }

  // __ov5693_calc_vts; None is a division by zero.
  function CalcVts(height: int): Option<int> {
    if height == 0 then None
    else
      var fps := Min(PIXEL_RATE / FIXED_PPL / height / 30 * 30, 30);
      if fps == 0 then None else Some(PIXEL_RATE / FIXED_PPL / fps / 2 * 2)
  }

  // Every height up to 2079 lines, so every crop or half of one, gets the same
  // 30 fps VTS; taller ones would divide by zero.
  lemma VtsIsConstant(height: int)
    requires height > 0
    ensures CalcVts(height) == if height <= 2079 then Some(VTS) else None
  {
    var lines := PIXEL_RATE / FIXED_PPL;
    assert lines == 62380;
    QuotientAtLeast(lines, height, 30);
    assert lines / height >= 0;
  }
}
