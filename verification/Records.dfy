// Record chains inside a section: walk_chain and walk_records of
// tools/decode_aiqb.py (the record loops of both patchers read the same way).
module Records {
  import opened Bytes

  const HEADER: nat := 8
  const ANY_NID: nat := 0xffff
  const CMC_NID: nat := 200  // walk_records stops at a greater name id

  datatype Record = Record(off: nat, size: nat, fmt: Byte, key: Byte, nid: nat)

  // The records from off up to end. Where the source would read past the
  // buffer and raise, the chain is what it had yielded by then.
  function Chain(d: seq<Byte>, off: nat, end: nat, maxNid: nat): seq<Record>
    decreases end - off
  {
    if off + HEADER > end || off + HEADER > |d| then []
    else
      var size, nid := U32(d, off), U16(d, off + 6);
      if size < HEADER || off + size > end || nid > maxNid then []
      else [Record(off, size, d[off + 4], d[off + 5], nid)] + Chain(d, off + size, end, maxNid)
  }

  // Where that chain stops.
  function StopsAt(d: seq<Byte>, off: nat, end: nat, maxNid: nat): (at: nat)
    ensures at >= off
    decreases end - off
  {
    if off + HEADER > end || off + HEADER > |d| then off
    else
      var size, nid := U32(d, off), U16(d, off + 6);
      if size < HEADER || off + size > end || nid > maxNid then off else StopsAt(d, off + size, end, maxNid)
  }

  // The walk raises exactly when the header it stops at should still be read but
  // is not all inside the buffer.
  method WalkChain(d: seq<Byte>, start: nat, end: nat, maxNid: nat) returns (records: seq<Record>, raised: bool)
    ensures records == Chain(d, start, end, maxNid)
    ensures raised <==> |d| < StopsAt(d, start, end, maxNid) + HEADER <= end
  {
    var off := start;
    records, raised := [], false;
    while off + HEADER <= end
      invariant Chain(d, start, end, maxNid) == records + Chain(d, off, end, maxNid)
      invariant StopsAt(d, start, end, maxNid) == StopsAt(d, off, end, maxNid) && !raised
      decreases end - off
    {
      if off + HEADER > |d| {
        raised := true;
        return;
      }
      var size, nid := U32(d, off), U16(d, off + 6);
      if size < HEADER || off + size > end || nid > maxNid {
        return;
      }
      records := records + [Record(off, size, d[off + 4], d[off + 5], nid)];
      off := off + size;
    }
  }

  // ------------------------------------------------------------- round trip

  datatype Entry = Entry(fmt: Byte, key: Byte, nid: nat, body: seq<Byte>)

  ghost predicate Encodable(es: seq<Entry>, maxNid: nat) {
    forall e :: e in es ==> e.nid <= maxNid && e.nid < 0x1_0000 && HEADER + |e.body| < 0x1_0000_0000
  }

  ghost function Encode(es: seq<Entry>): (b: seq<Byte>)
    requires Encodable(es, ANY_NID)
    decreases |es|
  {
    if es == [] then []
    else EncodeHead(es[0]) + es[0].body + Encode(es[1..])
  }

  function EncodeHead(e: Entry): (b: seq<Byte>)
    requires e.nid < 0x1_0000 && HEADER + |e.body| < 0x1_0000_0000
    ensures |b| == HEADER
  {
    Pack32(HEADER + |e.body|) + [e.fmt, e.key] + Pack16(e.nid)
  }

  // The records rs are these entries: header fields and bodies, back to back.
  ghost predicate Reads(d: seq<Byte>, rs: seq<Record>, es: seq<Entry>, off: nat, end: nat) {
    if es == [] then rs == [] && off == end
    else
      && rs != []
      && rs[0] == Record(off, HEADER + |es[0].body|, es[0].fmt, es[0].key, es[0].nid)
      && off + rs[0].size <= |d|
      && d[off + HEADER..off + rs[0].size] == es[0].body
      && Reads(d, rs[1..], es[1..], off + rs[0].size, end)
  }

  lemma ReadHead(d: seq<Byte>, off: nat, e: Entry)
    requires e.nid < 0x1_0000 && HEADER + |e.body| < 0x1_0000_0000
    requires off + HEADER <= |d| && d[off..off + HEADER] == EncodeHead(e)
    ensures U32(d, off) == HEADER + |e.body| && U16(d, off + 6) == e.nid
    ensures d[off + 4] == e.fmt && d[off + 5] == e.key
  {
    hide U32, Pack32, Pack16;
    var h := EncodeHead(e);
    assert forall k :: 0 <= k < HEADER ==> d[off + k] == d[off..off + HEADER][k] == h[k];
    assert d[off..off + 4] == h[..4] == Pack32(HEADER + |e.body|);
    SameWord(d, Pack32(HEADER + |e.body|), off, 0);
    assert d[off + 6] == h[6] == Pack16(e.nid)[0] && d[off + 7] == h[7] == Pack16(e.nid)[1];
  }

  lemma ChainFirst(d: seq<Byte>, off: nat, end: nat, e: Entry, rest: seq<Byte>, maxNid: nat)
    requires e.nid <= maxNid <= ANY_NID && HEADER + |e.body| < 0x1_0000_0000
    requires off <= end <= |d| && d[off..end] == EncodeHead(e) + e.body + rest
    ensures var next := off + HEADER + |e.body|;
            && next <= end && d[next..end] == rest && d[off + HEADER..next] == e.body
            && Chain(d, off, end, maxNid)
               == [Record(off, HEADER + |e.body|, e.fmt, e.key, e.nid)] + Chain(d, next, end, maxNid)
  {
    hide U32, U16, EncodeHead;
    assert |d[off..end]| == HEADER + |e.body| + |rest|;
    Pieces(d, off, EncodeHead(e), e.body, rest);
    ReadHead(d, off, e);
  }

  lemma ChainOfNothing(d: seq<Byte>, off: nat, maxNid: nat)
    ensures Chain(d, off, off, maxNid) == []
  {
  }

  // Encoding entries into a section and walking it gives them back, in order
  // and complete.
  lemma {:induction false} ChainReadsBack(d: seq<Byte>, off: nat, end: nat, es: seq<Entry>, maxNid: nat)
    requires maxNid <= ANY_NID && Encodable(es, maxNid)
    requires off <= end <= |d| && d[off..end] == Encode(es)
    ensures Reads(d, Chain(d, off, end, maxNid), es, off, end)
    decreases |es|
  {
    hide EncodeHead, Chain;
    if es == [] {
      ChainOfNothing(d, off, maxNid);
    } else {
      var next := off + HEADER + |es[0].body|;
      ChainFirst(d, off, end, es[0], Encode(es[1..]), maxNid);
      ChainReadsBack(d, next, end, es[1..], maxNid);
      assert Chain(d, off, end, maxNid)[1..] == Chain(d, next, end, maxNid);
    }
  }

  // A chain whose bytes did not move is the same chain.
  lemma {:induction false} ChainKept(a: seq<Byte>, b: seq<Byte>, off: nat, end: nat, maxNid: nat)
    requires |a| == |b| && forall k :: off <= k < end && k < |a| ==> a[k] == b[k]
    ensures Chain(a, off, end, maxNid) == Chain(b, off, end, maxNid)
    decreases end - off
  {
    hide U32;
    if off + HEADER <= end && off + HEADER <= |a| {
      WordKept(a, b, off);
      var size := U32(a, off);
      if HEADER <= size && off + size <= end {
        ChainKept(a, b, off + size, end, maxNid);
      }
    }
  }
}
