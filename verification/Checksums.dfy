// The two self-excluding checksums of a .aiqb file, as both patchers repair
// them: one over a section, one over the whole file, overlapping.
module Checksums {
  import opened Wrappers
  import opened Bytes

  const MODULUS: nat := 0x1_0000_0000
  const FILE_SUM: nat := 0x14
  const SECTION_SUM: nat := 0x14  // relative to the section header

  // The sum of the words at lo, lo + 4, .. below hi, leaving out the one at
  // pos; None when the last of them is not all inside the buffer.
  function Sum(d: seq<Byte>, lo: nat, hi: nat, pos: nat): Option<nat>
    decreases hi - lo
  {
    if lo >= hi then Some(0)
    else if lo + 4 > |d| && lo != pos then None
    else
      var rest :- Sum(d, lo + 4, hi, pos);
      Some((if lo == pos then 0 else U32(d, lo)) + rest)
  }

  function SelfSum(d: seq<Byte>, lo: nat, hi: nat, pos: nat): Option<Word> {
    var total :- Sum(d, lo, hi, pos);
    Some(total % MODULUS)
  }

  // selfsum(lo, hi, pos), adding up modulo 2^32 as it goes; None is struct.error.
  method ComputeSelfSum(d: array<Byte>, lo: nat, hi: nat, pos: nat) returns (sum: Option<Word>)
    ensures sum == SelfSum(d[..], lo, hi, pos)
  {
    var t: Word := 0;
    var o := lo;
    ghost var rest := Sum(d[..], lo, hi, pos);
    while o < hi
      invariant rest == Sum(d[..], o, hi, pos)
      invariant rest.None? <==> Sum(d[..], lo, hi, pos).None?
      invariant rest.Some? ==> (t + rest.value) % MODULUS == Sum(d[..], lo, hi, pos).value % MODULUS
    {
      if o != pos {
        if o + 4 > d.Length {
          return None;
        }
        var w := U32(d[..], o);
        var after := Sum(d[..], o + 4, hi, pos);
        if after.Some? {
          WrapAdd(t, w, after.value);
        }
        t := (t + w) % MODULUS;
      }
      o := o + 4;
      rest := Sum(d[..], o, hi, pos);
    }
    sum := Some(t);
  }

  lemma WrapAdd(t: nat, w: nat, rest: nat)
    ensures ((t + w) % MODULUS + rest) % MODULUS == (t + (w + rest)) % MODULUS
  {
  }

  // d with the words x and y in the two checksum fields.
  function WithSums(d: seq<Byte>, hdr: nat, x: Word, y: Word): (r: seq<Byte>)
    requires hdr + SECTION_SUM + 4 <= |d| && FILE_SUM + 4 <= |d|
  {
    Splice(Splice(d, hdr + SECTION_SUM, Pack32(x)), FILE_SUM, Pack32(y))
  }

  // The tail of both patchers: the section's sum first, then the file's, which
  // covers the section's.
  function Repaired(d: seq<Byte>, hdr: nat, end: nat): Option<seq<Byte>> {
    var x :- SelfSum(d, hdr, end, hdr + SECTION_SUM);
    if hdr + SECTION_SUM + 4 > |d| || FILE_SUM + 4 > |d| then None
    else
      var y :- SelfSum(Splice(d, hdr + SECTION_SUM, Pack32(x)), 0, |d|, FILE_SUM);
      Some(WithSums(d, hdr, x, y))
  }

  method StoreWord(d: array<Byte>, at: nat, w: Word)
    requires at + 4 <= d.Length
    modifies d
    ensures d[..] == Splice(old(d[..]), at, Pack32(w))
  {
    var b := Pack32(w);
    d[at], d[at + 1], d[at + 2], d[at + 3] := b[0], b[1], b[2], b[3];
  }

  method Repair(d: array<Byte>, hdr: nat, end: nat) returns (ok: bool)
    requires FIRST <= hdr
    modifies d
    ensures ok == Repaired(old(d[..]), hdr, end).Some?
    ensures ok ==> d[..] == Repaired(old(d[..]), hdr, end).value
  {
    hide Sum, U32, SelfSum;
    ghost var d0 := d[..];
    var x := ComputeSelfSum(d, hdr, end, hdr + SECTION_SUM);
    if x.None? || hdr + SECTION_SUM + 4 > d.Length {
      return false;
    }
    StoreWord(d, hdr + SECTION_SUM, x.value);
    var y := ComputeSelfSum(d, 0, d.Length, FILE_SUM);
    if y.None? {
      return false;
    }
    StoreWord(d, FILE_SUM, y.value);
    ok := true;
  }

  // Sections start after the file header, past the file's own checksum.
  const FIRST: nat := 0x18

  ghost predicate SectionHolds(d: seq<Byte>, hdr: nat, end: nat) {
    hdr + SECTION_SUM + 4 <= |d| && SelfSum(d, hdr, end, hdr + SECTION_SUM) == Some(U32(d, hdr + SECTION_SUM))
  }

  ghost predicate FileHolds(d: seq<Byte>) {
    FILE_SUM + 4 <= |d| && SelfSum(d, 0, |d|, FILE_SUM) == Some(U32(d, FILE_SUM))
  }

  // A sum does not see bytes before its range, nor those of the word it leaves out.
  lemma {:induction false} SumIgnores(a: seq<Byte>, b: seq<Byte>, lo: nat, hi: nat, pos: nat)
    requires |a| == |b| && (pos + 4 <= lo || (lo <= pos && (pos - lo) % 4 == 0))
    requires forall k :: lo <= k < |a| && !(pos <= k < pos + 4) ==> a[k] == b[k]
    ensures Sum(a, lo, hi, pos) == Sum(b, lo, hi, pos)
    decreases hi - lo
  {
    if lo < hi && (lo == pos || lo + 4 <= |a|) {
      SumIgnores(a, b, lo + 4, hi, pos);
    }
  }

  // Replacing one summed word by w moves the sum by the difference.
  lemma {:induction false} SumSees(d: seq<Byte>, lo: nat, hi: nat, pos: nat, at: nat, w: Word)
    requires at + 4 <= |d| && lo <= at < hi && (at - lo) % 4 == 0 && at != pos
    ensures var moved := Sum(Splice(d, at, Pack32(w)), lo, hi, pos);
            && moved.Some? == Sum(d, lo, hi, pos).Some?
            && (moved.Some? ==> moved.value == Sum(d, lo, hi, pos).value - U32(d, at) + w)
    decreases hi - lo
  {
    var d1 := Splice(d, at, Pack32(w));
    if lo == at {
      StoredWord(d, at, w);
      SumTail(d, d1, lo + 4, hi, pos);
    } else {
      SumSees(d, lo + 4, hi, pos, at, w);
      assert U32(d1, lo) == U32(d, lo);
    }
  }

  lemma {:induction false} SumTail(a: seq<Byte>, b: seq<Byte>, lo: nat, hi: nat, pos: nat)
    requires |a| == |b| && forall k :: lo <= k < |a| ==> a[k] == b[k]
    ensures Sum(a, lo, hi, pos) == Sum(b, lo, hi, pos)
    decreases hi - lo
  {
    if lo < hi && lo + 4 <= |a| {
      SumTail(a, b, lo + 4, hi, pos);
    } else if lo < hi && lo == pos {
      SumTail(a, b, lo + 4, hi, pos);
    }
  }

  // What the two sums and the two fields read once x and y are stored.
  lemma SumsSeen(d: seq<Byte>, hdr: nat, end: nat, x: Word, y: Word)
    requires FIRST <= hdr && hdr + SECTION_SUM + 4 <= |d|
    ensures var at, r := hdr + SECTION_SUM, WithSums(d, hdr, x, y);
            && U32(r, at) == x && U32(r, FILE_SUM) == y
            && SelfSum(r, hdr, end, at) == SelfSum(d, hdr, end, at)
            && SelfSum(r, 0, |d|, FILE_SUM) == SelfSum(Splice(d, at, Pack32(x)), 0, |d|, FILE_SUM)
  {
    hide Pack32, Splice, Sum, U32;
    var at := hdr + SECTION_SUM;
    var d1 := Splice(d, at, Pack32(x));
    var r := Splice(d1, FILE_SUM, Pack32(y));
    StoredWord(d1, FILE_SUM, y);
    SumIgnores(d1, r, 0, |d|, FILE_SUM);
    StoredWord(d, at, x);
    WordKept(d1, r, at);
    SumIgnores(d, r, hdr, end, at);
  }

  // Repaired files satisfy both equations at once, although the file's sum
  // covers the section's checksum word; nothing else of the file changes.
  lemma RepairedHolds(d: seq<Byte>, hdr: nat, end: nat)
    requires FIRST <= hdr && Repaired(d, hdr, end).Some?
    ensures var r := Repaired(d, hdr, end).value;
            && |r| == |d|
            && SectionHolds(r, hdr, end) && FileHolds(r)
            && (forall k ::
                  (0 <= k < |d| && !(FILE_SUM <= k < FILE_SUM + 4)
                   && !(hdr + SECTION_SUM <= k < hdr + SECTION_SUM + 4)) ==> r[k] == d[k])
  {
    hide Pack32, Sum, U32;
    var x := SelfSum(d, hdr, end, hdr + SECTION_SUM).value;
    var y := SelfSum(Splice(d, hdr + SECTION_SUM, Pack32(x)), 0, |d|, FILE_SUM).value;
    SumsSeen(d, hdr, end, x, y);
  }

  // They are the only pair of words that does.
  lemma RepairIsUnique(d: seq<Byte>, hdr: nat, end: nat, x: Word, y: Word)
    requires FIRST <= hdr && hdr + SECTION_SUM + 4 <= |d|
    requires SectionHolds(WithSums(d, hdr, x, y), hdr, end) && FileHolds(WithSums(d, hdr, x, y))
    ensures Repaired(d, hdr, end) == Some(WithSums(d, hdr, x, y))
  {
    hide Pack32, Sum, U32;
    SumsSeen(d, hdr, end, x, y);
  }

  // ------------------------------------------------- what the sums add up to

  function Total(ws: seq<Word>): (t: nat)
    ensures |ws| == 1 ==> t == ws[0]
  {
    if ws == [] then 0 else ws[0] + Total(ws[1..])
  }

  lemma {:induction false} TotalSplits(a: seq<Word>, b: seq<Word>)
    ensures Total(a + b) == Total(a) + Total(b)
  {
    if a == [] {
      assert a + b == b;
    } else {
      assert (a + b)[1..] == a[1..] + b;
      TotalSplits(a[1..], b);
    }
  }

  ghost predicate Readable(d: seq<Byte>, at: nat, pos: nat) {
    at == pos || at + 4 <= |d|
  }

  ghost predicate AllReadable(d: seq<Byte>, lo: nat, hi: nat, pos: nat) {
    forall i: nat :: lo + 4 * i < hi ==> Readable(d, lo + 4 * i, pos)
  }

  ghost function Term(d: seq<Byte>, at: nat, pos: nat): Word
    requires Readable(d, at, pos)
  {
    if at == pos then 0 else U32(d, at)
  }

  // The words from lo on, four bytes apart and below hi, with 0 for that at pos.
  ghost function Terms(d: seq<Byte>, lo: nat, hi: nat, pos: nat): (ws: seq<Word>)
    requires AllReadable(d, lo, hi, pos)
  {
    var n := if lo < hi then (hi - lo + 3) / 4 else 0;
    seq<Word>(n, i requires 0 <= i < n => Term(d, lo + 4 * i, pos))
  }

  lemma TermsHead(d: seq<Byte>, lo: nat, hi: nat, pos: nat)
    requires lo < hi
    ensures AllReadable(d, lo, hi, pos) <==> Readable(d, lo, pos) && AllReadable(d, lo + 4, hi, pos)
    ensures AllReadable(d, lo, hi, pos) ==>
              Terms(d, lo, hi, pos) == [Term(d, lo, pos)] + Terms(d, lo + 4, hi, pos)
  {
    hide Term, Readable;
    if AllReadable(d, lo, hi, pos) {
      assert Readable(d, lo + 4 * 0, pos);
      forall i: nat | lo + 4 + 4 * i < hi
        ensures Readable(d, lo + 4 + 4 * i, pos)
      {
        assert Readable(d, lo + 4 * (i + 1), pos);
      }
      var all, rest := Terms(d, lo, hi, pos), Terms(d, lo + 4, hi, pos);
      forall i | 0 <= i < |rest|
        ensures all[i + 1] == rest[i]
      {
        assert lo + 4 * (i + 1) == lo + 4 + 4 * i;
      }
    }
    if Readable(d, lo, pos) && AllReadable(d, lo + 4, hi, pos) {
      forall i: nat | lo + 4 * i < hi
        ensures Readable(d, lo + 4 * i, pos)
      {
        if i > 0 {
          assert Readable(d, lo + 4 + 4 * (i - 1), pos);
        }
      }
    }
  }

  // The sum exists exactly when every word is there to be read, and is their total.
  lemma {:induction false} SumIsTotal(d: seq<Byte>, lo: nat, hi: nat, pos: nat)
    ensures Sum(d, lo, hi, pos).Some? <==> AllReadable(d, lo, hi, pos)
    ensures AllReadable(d, lo, hi, pos) ==> Sum(d, lo, hi, pos) == Some(Total(Terms(d, lo, hi, pos)))
    decreases hi - lo
  {
    hide AllReadable;
    if lo < hi {
      SumIsTotal(d, lo + 4, hi, pos);
      TermsHead(d, lo, hi, pos);
    } else {
      NoTerms(d, lo, hi, pos);
    }
  }

  lemma NoTerms(d: seq<Byte>, lo: nat, hi: nat, pos: nat)
    requires lo >= hi
    ensures AllReadable(d, lo, hi, pos) && Terms(d, lo, hi, pos) == []
  {
  }

  lemma ReadableByLength(a: seq<Byte>, b: seq<Byte>, lo: nat, hi: nat, pos: nat)
    requires |a| == |b|
    ensures AllReadable(a, lo, hi, pos) <==> AllReadable(b, lo, hi, pos)
  {
  }

  // A file can be repaired exactly when its section can be summed, and it is all
  // whole words, the section's checksum among them.
  lemma RepairedExactly(d: seq<Byte>, hdr: nat, end: nat)
    requires FIRST <= hdr
    ensures Repaired(d, hdr, end).Some? <==>
              hdr + 0x18 <= |d| && |d| % 4 == 0 && AllReadable(d, hdr, end, hdr + 0x14)
  {
    hide U32, Sum, Total, Terms, AllReadable;
    SumIsTotal(d, hdr, end, hdr + 0x14);
    if hdr + 0x18 <= |d| && AllReadable(d, hdr, end, hdr + 0x14) {
      var d1 := Splice(d, hdr + SECTION_SUM, Pack32(SelfSum(d, hdr, end, hdr + SECTION_SUM).value));
      SumIsTotal(d1, 0, |d1|, 0x14);
      WholeWords(d1);
    }
  }

  lemma WholeWords(d: seq<Byte>)
    requires |d| >= 0x18
    ensures AllReadable(d, 0, |d|, 0x14) <==> |d| % 4 == 0
  {
    if |d| % 4 != 0 {
      assert !Readable(d, 0 + 4 * (|d| / 4), 0x14);
    }
  }

  // In plain terms: the word at 0x14 of the section is the total of the others of
  // the section, and the word at 0x14 of the file that of the others of the file,
  // modulo 2^32.
  lemma RepairedTotals(d: seq<Byte>, hdr: nat, end: nat)
    requires FIRST <= hdr && Repaired(d, hdr, end).Some?
    ensures var r := Repaired(d, hdr, end).value;
            && hdr + 0x18 <= |r| && AllReadable(r, hdr, end, hdr + 0x14) && AllReadable(r, 0, |r|, 0x14)
            && U32(r, hdr + 0x14) == Total(Terms(r, hdr, end, hdr + 0x14)) % 0x1_0000_0000
            && U32(r, 0x14) == Total(Terms(r, 0, |r|, 0x14)) % 0x1_0000_0000
  {
    hide Repaired, U32, Sum, Total, Terms, AllReadable;
    var r := Repaired(d, hdr, end).value;
    RepairedHolds(d, hdr, end);
    SumIsTotal(r, hdr, end, hdr + 0x14);
    SumIsTotal(r, 0, |r|, 0x14);
  }

  // The other order: the file's sum, then the section's.
  function RepairedBackwards(d: seq<Byte>, hdr: nat, end: nat): Option<seq<Byte>> {
    if hdr + SECTION_SUM + 4 > |d| || FILE_SUM + 4 > |d| then None
    else
      var y :- SelfSum(d, 0, |d|, FILE_SUM);
      var d1 := Splice(d, FILE_SUM, Pack32(y));
      var x :- SelfSum(d1, hdr, end, hdr + SECTION_SUM);
      Some(Splice(d1, hdr + SECTION_SUM, Pack32(x)))
  }

  // It breaks the file's equation exactly when the section's checksum changes.
  lemma BackwardsHoldsOnlyIfUnchanged(d: seq<Byte>, hdr: nat, end: nat)
    requires FIRST <= hdr && hdr % 4 == 0 && RepairedBackwards(d, hdr, end).Some?
    ensures var r := RepairedBackwards(d, hdr, end).value;
            && SectionHolds(r, hdr, end)
            && (FileHolds(r) <==> Some(U32(d, hdr + SECTION_SUM)) == SelfSum(d, hdr, end, hdr + SECTION_SUM))
  {
    hide Pack32, Splice, Sum, U32;
    var at := hdr + SECTION_SUM;
    var y := SelfSum(d, 0, |d|, FILE_SUM).value;
    var d1 := Splice(d, FILE_SUM, Pack32(y));
    var x := SelfSum(d1, hdr, end, at).value;
    var r := Splice(d1, at, Pack32(x));
    StoredWord(d1, at, x);
    SumIgnores(d1, r, hdr, end, at);
    SumTail(d, d1, hdr, end, at);
    SumSees(d1, 0, |d|, FILE_SUM, at, x);
    SumIgnores(d, d1, 0, |d|, FILE_SUM);
    StoredWord(d, FILE_SUM, y);
    WordKept(d1, r, FILE_SUM);
    WordKept(d, d1, at);
    MovedModulo(Sum(d1, 0, |d|, FILE_SUM).value, U32(d, at), x);
  }

  lemma MovedModulo(total: int, before: Word, after: Word)
    ensures (total - before + after) % MODULUS == total % MODULUS <==> before == after
  {
    if (total - before + after) % MODULUS == total % MODULUS {
      var a, b := (total - before + after) / MODULUS, total / MODULUS;
      assert after - before == (a - b) * MODULUS;
    }
  }
}
