// The byte buffer every .aiqb tool works on: little-endian words, in-place
// stores, and lists of non-overlapping edits.
module Bytes {
  type Byte = x: int | 0 <= x < 0x100
  type Word = x: int | 0 <= x < 0x1_0000_0000

  // struct.unpack_from('<H', d, o)
  function U16(d: seq<Byte>, o: nat): nat
    requires o + 2 <= |d|
  {
    d[o] as int + 0x100 * d[o + 1] as int
  }

  // struct.unpack_from('<I', d, o)
  function U32(d: seq<Byte>, o: nat): Word
    requires o + 4 <= |d|
  {
    d[o] as int + 0x100 * d[o + 1] as int + 0x1_0000 * d[o + 2] as int + 0x100_0000 * d[o + 3] as int
  }

  // struct.pack('<H', w)
  function Pack16(w: nat): (b: seq<Byte>)
    requires w < 0x1_0000
    ensures |b| == 2 && U16(b, 0) == w
  {
    [w % 0x100, w / 0x100]
  }

  // struct.pack('<I', w)
  function Pack32(w: Word): (b: seq<Byte>)
    ensures |b| == 4 && U32(b, 0) == w
  {
    var w1 := w / 0x100;
    var w2 := w1 / 0x100;
    [w % 0x100, w1 % 0x100, w2 % 0x100, w2 / 0x100]
  }

  // The low byte comes first: byte k holds the k-th digit to base 256.
  lemma LowByteFirst(d: seq<Byte>, o: nat)
    requires o + 4 <= |d|
    ensures U32(d, o) % 0x100 == d[o] && U32(d, o) / 0x100 % 0x100 == d[o + 1]
    ensures U32(d, o) / 0x1_0000 % 0x100 == d[o + 2] && U32(d, o) / 0x100_0000 == d[o + 3]
    ensures U16(d, o) % 0x100 == d[o] && U16(d, o) / 0x100 == d[o + 1]
  {
    var w, b3: int := U32(d, o), d[o + 3];
    var w2 := d[o + 2] as int + 0x100 * b3;
    var w1 := d[o + 1] as int + 0x100 * w2;
    LowDigit(w, d[o], w1);
    LowDigit(w1, d[o + 1], w2);
    LowDigit(w2, d[o + 2], b3);
    assert w / 0x1_0000 == w / 0x100 / 0x100 && w / 0x100_0000 == w / 0x100 / 0x100 / 0x100;
    LowDigit(U16(d, o), d[o], d[o + 1]);
  }

  lemma LowDigit(w: int, low: Byte, rest: int)
    requires w == low as int + 0x100 * rest
    ensures w % 0x100 == low && w / 0x100 == rest
  {
  }

  lemma Repacked(d: seq<Byte>, o: nat)
    requires o + 4 <= |d|
    ensures Pack32(U32(d, o)) == d[o..o + 4]
  {
    var b0: int, b1: int, b2: int, b3: int := d[o], d[o + 1], d[o + 2], d[o + 3];
    var w := U32(d, o);
    assert w == b0 + 0x100 * (b1 + 0x100 * (b2 + 0x100 * b3));
    assert w / 0x100 == b1 + 0x100 * (b2 + 0x100 * b3);
    assert w / 0x100 / 0x100 == b2 + 0x100 * b3;
  }

  // Two's complement, as '<i' reads and writes it.
  function Signed(w: Word): (v: int)
    ensures -0x8000_0000 <= v < 0x8000_0000 && (w - v) % 0x1_0000_0000 == 0
  {
    if w < 0x8000_0000 then w else w - 0x1_0000_0000
  }

  function Unsigned(v: int): (w: Word)
    requires -0x8000_0000 <= v < 0x8000_0000
    ensures Signed(w) == v
  {
    if v < 0 then v + 0x1_0000_0000 else v
  }

  ghost predicate SameFrom(a: seq<Byte>, b: seq<Byte>, p: nat) {
    |a| == |b| && forall k :: p <= k < |a| ==> a[k] == b[k]
  }

  // d with the bytes b stored at offset `at`.
  function Splice(d: seq<Byte>, at: nat, b: seq<Byte>): (r: seq<Byte>)
    requires at + |b| <= |d|
    ensures |r| == |d|
    ensures forall k :: 0 <= k < |d| ==> r[k] == if at <= k < at + |b| then b[k - at] else d[k]
  {
    d[..at] + b + d[at + |b|..]
  }

  // Equal bytes read as equal words.
  lemma SameWord(a: seq<Byte>, b: seq<Byte>, o: nat, q: nat)
    requires o + 4 <= |a| && q + 4 <= |b|
    requires a[o..o + 4] == b[q..q + 4]
    ensures U32(a, o) == U32(b, q)
  {
    assert a[o + 0] == a[o..o + 4][0] == b[q + 0];
    assert a[o + 1] == a[o..o + 4][1] == b[q + 1];
    assert a[o + 2] == a[o..o + 4][2] == b[q + 2];
    assert a[o + 3] == a[o..o + 4][3] == b[q + 3];
  }

  lemma WordKept(a: seq<Byte>, b: seq<Byte>, o: nat)
    requires o + 4 <= |a| && o + 4 <= |b|
    requires forall k :: o <= k < o + 4 ==> a[k] == b[k]
    ensures U32(a, o) == U32(b, o)
  {
  }

  lemma HalfKept(a: seq<Byte>, b: seq<Byte>, o: nat)
    requires o + 2 <= |a| && o + 2 <= |b|
    requires forall k :: o <= k < o + 2 ==> a[k] == b[k]
    ensures U16(a, o) == U16(b, o)
  {
  }

  lemma WordInside(d: seq<Byte>, at: nat, b: seq<Byte>, j: nat)
    requires at + |b| <= |d| && j + 4 <= |b| && d[at..at + |b|] == b
    ensures U32(d, at + j) == U32(b, j)
  {
    assert forall k :: 0 <= k < |b| ==> d[at + k] == d[at..at + |b|][k] == b[k];
    assert d[at + j..at + j + 4] == b[j..j + 4];
    SameWord(d, b, at + j, j);
  }

  lemma StoredWord(d: seq<Byte>, at: nat, w: Word)
    requires at + 4 <= |d|
    ensures U32(Splice(d, at, Pack32(w)), at) == w
  {
    SameWord(Splice(d, at, Pack32(w)), Pack32(w), at, 0);
  }

  // Where three consecutive pieces of the buffer lie.
  lemma Pieces(d: seq<Byte>, p: nat, a: seq<Byte>, b: seq<Byte>, c: seq<Byte>)
    requires p + |a| + |b| + |c| <= |d| && d[p..p + |a| + |b| + |c|] == a + b + c
    ensures d[p..p + |a|] == a
    ensures d[p + |a|..p + |a| + |b|] == b
    ensures d[p + |a| + |b|..p + |a| + |b| + |c|] == c
  {
    var all := a + b + c;
    assert forall k :: 0 <= k < |all| ==> d[p + k] == d[p..p + |all|][k] == all[k];
    assert forall k :: 0 <= k < |b| ==> all[|a| + k] == b[k];
    assert forall k :: 0 <= k < |c| ==> all[|a| + |b| + k] == c[k];
    assert d[p..p + |a|] == all[..|a|] == a;
    assert d[p + |a|..p + |a| + |b|] == all[|a|..|a| + |b|] == b;
    assert d[p + |a| + |b|..p + |all|] == all[|a| + |b|..] == c;
  }

  // ---------------------------------------------------------------- edits

  datatype Edit = Edit(at: nat, bytes: seq<Byte>)

  // The edits lie in [lo, hi), in increasing order, without overlap.
  predicate Ordered(es: seq<Edit>, lo: int, hi: int) {
    if es == [] then lo <= hi
    else lo <= es[0].at && Ordered(es[1..], es[0].at + |es[0].bytes|, hi)
  }

  lemma {:induction false} OrderedBounds(es: seq<Edit>, lo: int, hi: int)
    requires Ordered(es, lo, hi)
    ensures lo <= hi
    ensures forall e :: e in es ==> lo <= e.at && e.at + |e.bytes| <= hi
  {
    if es != [] {
      OrderedBounds(es[1..], es[0].at + |es[0].bytes|, hi);
      assert es == [es[0]] + es[1..];
    }
  }

  lemma {:induction false} OrderedWiden(es: seq<Edit>, lo: int, hi: int, lo': int, hi': int)
    requires Ordered(es, lo, hi) && lo' <= lo && hi <= hi'
    ensures Ordered(es, lo', hi')
  {
    if es != [] {
      OrderedWiden(es[1..], es[0].at + |es[0].bytes|, hi, es[0].at + |es[0].bytes|, hi');
    }
  }

  lemma {:induction false} OrderedConcat(a: seq<Edit>, b: seq<Edit>, lo: int, mid: int, hi: int)
    requires Ordered(a, lo, mid) && Ordered(b, mid, hi)
    ensures Ordered(a + b, lo, hi)
  {
    if a == [] {
      assert a + b == b;
      OrderedBounds(b, mid, hi);
      OrderedWiden(b, mid, hi, lo, hi);
    } else {
      OrderedConcat(a[1..], b, a[0].at + |a[0].bytes|, mid, hi);
      assert (a + b)[1..] == a[1..] + b;
    }
  }

  // The edits performed one after the other.
  function Apply(d: seq<Byte>, es: seq<Edit>): (r: seq<Byte>)
    requires forall e :: e in es ==> e.at + |e.bytes| <= |d|
    ensures |r| == |d|
    decreases |es|
  {
    if es == [] then d
    else Apply(Splice(d, es[0].at, es[0].bytes), es[1..])
  }

  lemma {:induction false} ApplyConcat(d: seq<Byte>, a: seq<Edit>, b: seq<Edit>)
    requires forall e :: e in a + b ==> e.at + |e.bytes| <= |d|
    ensures forall e :: e in a ==> e in a + b
    ensures forall e :: e in b ==> e in a + b
    ensures Apply(d, a + b) == Apply(Apply(d, a), b)
    decreases |a|
  {
    assert forall e :: e in a ==> e in a + b;
    assert forall e :: e in b ==> e in a + b;
    if a == [] {
      assert a + b == b;
    } else {
      assert (a + b)[1..] == a[1..] + b;
      ApplyConcat(Splice(d, a[0].at, a[0].bytes), a[1..], b);
    }
  }

  lemma ApplyOne(d: seq<Byte>, e: Edit)
    requires e.at + |e.bytes| <= |d|
    ensures Apply(d, [e]) == Splice(d, e.at, e.bytes)
  {
    var stored := Splice(d, e.at, e.bytes);
    assert [e][1..] == [];
    assert Apply(d, [e]) == Apply(stored, []) == stored;
  }

  // A byte outside every edit keeps its value.
  lemma {:induction false} ApplyElsewhere(d: seq<Byte>, es: seq<Edit>, k: nat)
    requires forall e :: e in es ==> e.at + |e.bytes| <= |d|
    requires k < |d|
    requires forall e :: e in es ==> !(e.at <= k < e.at + |e.bytes|)
    ensures Apply(d, es)[k] == d[k]
    decreases |es|
  {
    if es != [] {
      ApplyElsewhere(Splice(d, es[0].at, es[0].bytes), es[1..], k);
    }
  }

  // Without overlap, each edit's bytes are what the buffer ends up holding.
  lemma {:induction false} ApplyHits(d: seq<Byte>, es: seq<Edit>, lo: int, hi: int, e: Edit)
    requires Ordered(es, lo, hi) && e in es
    requires forall x :: x in es ==> x.at + |x.bytes| <= |d|
    ensures Apply(d, es)[e.at..e.at + |e.bytes|] == e.bytes
    decreases |es|
  {
    hide Splice;
    OrderedBounds(es, lo, hi);
    var first, rest := es[0], es[1..];
    assert es == [first] + rest;
    OrderedBounds(rest, first.at + |first.bytes|, hi);
    if e == first {
      SpliceHolds(d, first.at, first.bytes);
      Lasting(Splice(d, first.at, first.bytes), rest, first.at, first.bytes);
    } else {
      ApplyHits(Splice(d, first.at, first.bytes), rest, first.at + |first.bytes|, hi, e);
    }
  }

  lemma SpliceHolds(d: seq<Byte>, at: nat, b: seq<Byte>)
    requires at + |b| <= |d|
    ensures Splice(d, at, b)[at..at + |b|] == b
  {
  }

  // Bytes no later edit touches are there in the end.
  lemma Lasting(d: seq<Byte>, es: seq<Edit>, at: nat, b: seq<Byte>)
    requires (forall e :: e in es ==> e.at + |e.bytes| <= |d|) && at + |b| <= |d|
    requires (forall e :: e in es ==> at + |b| <= e.at) && d[at..at + |b|] == b
    ensures Apply(d, es)[at..at + |b|] == b
  {
    hide Apply;
    var r := Apply(d, es);
    forall k | 0 <= k < |b|
      ensures r[at..at + |b|][k] == b[k]
    {
      ApplyElsewhere(d, es, at + k);
      assert d[at + k] == d[at..at + |b|][k];
    }
  }

  // Between lo and hi, r differs from d only where es edits.
  ghost predicate OnlyEdits(d: seq<Byte>, r: seq<Byte>, es: seq<Edit>, lo: int, hi: int) {
    |d| == |r| && forall k :: 0 <= lo <= k < hi && k < |d| && d[k] != r[k] ==> exists e :: e in es && Covers(e, k)
  }

  ghost predicate Covers(e: Edit, k: int) {
    e.at <= k < e.at + |e.bytes|
  }

  // r holds the bytes of every edit.
  ghost predicate Stored(r: seq<Byte>, es: seq<Edit>) {
    forall e :: e in es ==> e.at + |e.bytes| <= |r| && r[e.at..e.at + |e.bytes|] == e.bytes
  }

  // What applying non-overlapping edits leaves behind.
  lemma ApplyStores(d: seq<Byte>, es: seq<Edit>, lo: int, hi: int)
    requires Ordered(es, lo, hi) && forall e :: e in es ==> e.at + |e.bytes| <= |d|
    ensures Stored(Apply(d, es), es) && OnlyEdits(d, Apply(d, es), es, 0, |d|)
  {
    forall e | e in es
      ensures Apply(d, es)[e.at..e.at + |e.bytes|] == e.bytes
    {
      ApplyHits(d, es, lo, hi, e);
    }
    forall k | 0 <= k < |d| && d[k] != Apply(d, es)[k]
      ensures exists e :: e in es && Covers(e, k)
    {
      if !exists e :: e in es && Covers(e, k) {
        ApplyElsewhere(d, es, k);
      }
    }
  }

  // The front and the back of a list of edits account for the front and the
  // back of the buffer.
  lemma SplitEdits(d: seq<Byte>, r: seq<Byte>, a: seq<Edit>, b: seq<Edit>, lo: nat, mid: nat, hi: nat)
    requires OnlyEdits(d, r, a + b, lo, hi) && Stored(r, a + b)
    requires Ordered(a, lo, mid) && Ordered(b, mid, hi)
    ensures OnlyEdits(d, r, a, lo, mid) && OnlyEdits(d, r, b, mid, hi) && Stored(r, a) && Stored(r, b)
  {
    OrderedBounds(a, lo, mid);
    OrderedBounds(b, mid, hi);
    assert forall e :: e in a ==> e in a + b;
    assert forall e :: e in b ==> e in a + b;
  }
}
