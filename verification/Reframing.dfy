// Cutting the producer's byte stream into frames: the buffer of the psys and
// rear bridges.
module Reframing {
  import opened Bytes

  const FRAME_SIZE: nat := 1280 * 720 * 2

  // The whole frames of a byte string, and what is left over.
  function Frames(s: seq<Byte>, size: nat): seq<seq<Byte>>
    requires size > 0
    decreases |s|
  {
    if |s| < size then [] else [s[..size]] + Frames(s[size..], size)
  }

  function Left(s: seq<Byte>, size: nat): (r: seq<Byte>)
    requires size > 0
    ensures |r| < size
    decreases |s|
  {
    if |s| < size then s else Left(s[size..], size)
  }

  function Concat(ss: seq<seq<Byte>>): seq<Byte> {
    if ss == [] then [] else ss[0] + Concat(ss[1..])
  }

  // Reading chunk after chunk, draining whole frames each time.
  function Feed(buf: seq<Byte>, chunks: seq<seq<Byte>>, size: nat): (r: (seq<seq<Byte>>, seq<Byte>))
    requires size > 0
    decreases |chunks|
  {
    if chunks == [] then ([], buf)
    else
      var rest := Feed(Left(buf + chunks[0], size), chunks[1..], size);
      (Frames(buf + chunks[0], size) + rest.0, rest.1)
  }

  // Frames and leftover account for every byte, and frames are whole.
  lemma {:induction false} NothingLost(s: seq<Byte>, size: nat)
    requires size > 0
    ensures Concat(Frames(s, size)) + Left(s, size) == s
    ensures forall f :: f in Frames(s, size) ==> |f| == size
    decreases |s|
  {
    if |s| >= size {
      var rest := s[size..];
      NothingLost(rest, size);
      ConcatCons(s[..size], Frames(rest, size));
      Regroup(s, s[..size], Concat(Frames(rest, size)), Left(rest, size));
    }
  }

  lemma ConcatCons(first: seq<Byte>, rest: seq<seq<Byte>>)
    ensures Concat([first] + rest) == first + Concat(rest)
  {
    assert ([first] + rest)[1..] == rest;
  }

  lemma Regroup(s: seq<Byte>, a: seq<Byte>, b: seq<Byte>, c: seq<Byte>)
    requires |a| <= |s| && a == s[..|a|] && s[|a|..] == b + c
    ensures (a + b) + c == s
  {
    assert s == s[..|a|] + s[|a|..];
  }

  // Draining early changes nothing: the rest of the stream is cut as if the
  // whole had been there from the start.
  lemma {:induction false} DrainThenRead(s: seq<Byte>, t: seq<Byte>, size: nat)
    requires size > 0
    ensures Frames(s + t, size) == Frames(s, size) + Frames(Left(s, size) + t, size)
    ensures Left(s + t, size) == Left(Left(s, size) + t, size)
    decreases |s|
  {
    if |s| >= size {
      assert (s + t)[..size] == s[..size] && (s + t)[size..] == s[size..] + t;
      DrainThenRead(s[size..], t, size);
    }
  }

  // The frames delivered, and the leftover, depend on the bytes only, not on how
  // the pipe split them.
  lemma {:induction false} ChunkingDoesNotMatter(buf: seq<Byte>, chunks: seq<seq<Byte>>, size: nat)
    requires size > 0 && |buf| < size
    ensures Feed(buf, chunks, size) == (Frames(buf + Concat(chunks), size), Left(buf + Concat(chunks), size))
    decreases |chunks|
  {
    if chunks == [] {
      assert buf + [] == buf;
    } else {
      var first, rest := buf + chunks[0], Concat(chunks[1..]);
      ChunkingDoesNotMatter(Left(first, size), chunks[1..], size);
      DrainThenRead(first, rest, size);
      assert buf + Concat(chunks) == first + rest;
    }
  }
}
