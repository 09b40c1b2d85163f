// The nested containers of a CPFF/.aiqb file: walk_sections of
// tools/decode_aiqb.py and tools/patch_aiqb_nr.py (one walker, two tag sets).
module Containers {
  import opened Bytes

  const FIRST_SECTION: nat := 0x18
  const BOX_HEADER: nat := 0x10
  const AIQB_HEADER: nat := 0x18

  // SECTION_TAGS of the decoder and of the noise-reduction patcher.
  const DECODER_TAGS: set<string> := {"LCMC", "DFLT", "AIQB", "LAIQ", "LISP", "LMOD", "LTHR", "ULL3"}
  const PATCHER_TAGS: set<string> := DECODER_TAGS + {"CPFF"}

  // One container the walker is inside of: its name and where it ends.
  datatype Frame = Frame(name: string, end: nat)

  // One AIQB section: the joined names of its containers, its header offset,
  // and the range of its record chain.
  datatype Section = Section(path: string, hdr: nat, start: nat, end: nat)

  // Every section of a walk that ends, or the sections up to one whose size is
  // zero, which the walker then yields again for ever.
  datatype Walked = Ends(sections: seq<Section>) | Loops(sections: seq<Section>)

  function Yield(ss: seq<Section>, w: Walked): Walked {
    match w
    case Ends(rest) => Ends(ss + rest)
    case Loops(rest) => Loops(ss + rest)
  }

  // ------------------------------------------------------------- the walk

  function TagAt(d: seq<Byte>, p: nat): string
    requires p + 4 <= |d|
  {
    [d[p] as int as char, d[p + 1] as int as char, d[p + 2] as int as char, d[p + 3] as int as char]
  }

  function Decimal(n: nat): string {
    if n < 10 then [(n + '0' as int) as char] else Decimal(n / 10) + [(n % 10 + '0' as int) as char]
  }

  function BoxName(tag: string, ver: nat): string {
    if tag == "LMOD" then tag + Decimal(ver) else tag
  }

  // '/'.join(names)
  function Join(names: seq<string>): string {
    if names == [] then ""
    else if |names| == 1 then names[0]
    else Join(names[..|names| - 1]) + "/" + names[|names| - 1]
  }

  function Names(path: seq<Frame>): seq<string> {
    seq(|path|, i requires 0 <= i < |path| => path[i].name)
  }

  function PopEnded(path: seq<Frame>, p: nat): seq<Frame>
    decreases |path|
  {
    if path != [] && path[|path| - 1].end <= p then PopEnded(path[..|path| - 1], p) else path
  }

  // What walk_sections yields from offset p on, with `path` as its stack.
  function Walk(tags: set<string>, d: seq<Byte>, p: nat, path: seq<Frame>): Walked
    decreases |d| - p
  {
    if p + 16 > |d| || TagAt(d, p) !in tags then Ends([])
    else
      var end := p + U32(d, p + 4);
      var live := PopEnded(path, p);
      if TagAt(d, p) == "AIQB" then
        var here := [Section(Join(Names(live)), p, p + AIQB_HEADER, end)];
        if end == p then Loops(here) else Yield(here, Walk(tags, d, end, live))
      else
        Walk(tags, d, p + BOX_HEADER, live + [Frame(BoxName(TagAt(d, p), U32(d, p + 8)), end)])
  }

  // walk_sections, run to its end; `loops` when the generator never ends.
  method WalkSections(tags: set<string>, d: seq<Byte>) returns (sections: seq<Section>, loops: bool)
    ensures Walk(tags, d, FIRST_SECTION, []) == if loops then Loops(sections) else Ends(sections)
  {
    hide U32, TagAt, BoxName, Join, Names, PopEnded, Yield;
    var p, path := FIRST_SECTION, [];
    sections, loops := [], false;
    YieldTwice([], [], Walk(tags, d, FIRST_SECTION, []));
    ghost var whole := Walk(tags, d, FIRST_SECTION, []);
    while p + 16 <= |d|
      invariant whole == Yield(sections, Walk(tags, d, p, path))
      decreases |d| - p
    {
      var tag := TagAt(d, p);
      if tag !in tags {
        break;
      }
      var size, ver := U32(d, p + 4), U32(d, p + 8);
      var end := p + size;
      path := DropEnded(path, p);
      if tag == "AIQB" {
        var s := Section(Join(Names(path)), p, p + AIQB_HEADER, end);
        YieldTwice(sections, [s], Walk(tags, d, end, path));
        YieldLast(sections, [s]);
        sections := sections + [s];
        if size == 0 {
          loops := true;
          return;
        }
        p := end;
      } else {
        path := path + [Frame(BoxName(tag, ver), end)];
        p := p + BOX_HEADER;
      }
    }
    YieldLast(sections, []);
  }

  method DropEnded(path: seq<Frame>, p: nat) returns (live: seq<Frame>)
    ensures live == PopEnded(path, p)
    ensures live <= path
  {
    live := path;
    while live != [] && live[|live| - 1].end <= p
      invariant live <= path && PopEnded(live, p) == PopEnded(path, p)
    {
      live := live[..|live| - 1];
    }
  }

  lemma YieldLast(a: seq<Section>, b: seq<Section>)
    ensures Yield(a, Ends([])) == Ends(a) && Yield(a, Loops(b)) == Loops(a + b)
  {
  }

  lemma YieldTwice(a: seq<Section>, b: seq<Section>, w: Walked)
    ensures Yield(a, Yield(b, w)) == Yield(a + b, w)
    ensures Yield([], w) == w
  {
    assert a + (b + w.sections) == (a + b) + w.sections;
    assert [] + w.sections == w.sections;
  }

  // ------------------------------------------- the tree the file stands for

  // A row of sections (each with the 12 header bytes the walker skips) and of
  // containers (with the 4 it skips), every container holding another row.
  datatype Forest =
    | Nil
    | Aiqb(ver: Word, extra: seq<Byte>, payload: seq<Byte>, next: Forest)
    | Box(tag: string, ver: Word, pad: seq<Byte>, kids: Forest, next: Forest)

  // A section of a forest: the names of its containers, outermost first, and its
  // payload.
  datatype Item = Item(names: seq<string>, payload: seq<Byte>)

  function Ascii(s: string): (b: seq<Byte>)
    requires forall c :: c in s ==> c as int < 0x100
    ensures |b| == |s|
  {
    seq<Byte>(|s|, i requires 0 <= i < |s| && s[i] in s => s[i] as int as Byte)
  }

  // The 12 header bytes the walker reads.
  function Header(tag: string, size: Word, ver: Word): (b: seq<Byte>)
    requires |tag| == 4 && forall c :: c in tag ==> c as int < 0x100
    ensures |b| == 12
  {
    Ascii(tag) + Pack32(size) + Pack32(ver)
  }

  function Size(f: Forest): nat {
    match f
    case Nil => 0
    case Aiqb(_, _, payload, next) => AIQB_HEADER + |payload| + Size(next)
    case Box(_, _, _, kids, next) => BOX_HEADER + Size(kids) + Size(next)
  }

  ghost predicate WellFormed(tags: set<string>, f: Forest) {
    match f
    case Nil => true
    case Aiqb(_, extra, payload, next) =>
      |extra| == 12 && AIQB_HEADER + |payload| < 0x1_0000_0000 && WellFormed(tags, next)
    case Box(tag, _, pad, kids, next) =>
      && tag in tags && tag != "AIQB" && |tag| == 4 && (forall c :: c in tag ==> c as int < 0x100)
      && |pad| == 4 && BOX_HEADER + Size(kids) < 0x1_0000_0000
      && WellFormed(tags, kids) && WellFormed(tags, next)
  }

  // The file layout: headers in front, children inside, siblings in a row.
  ghost function Layout(tags: set<string>, f: Forest): (b: seq<Byte>)
    requires WellFormed(tags, f)
    ensures |b| == Size(f)
  {
    match f
    case Nil => []
    case Aiqb(ver, extra, payload, next) =>
      Header("AIQB", AIQB_HEADER + |payload|, ver) + extra + payload + Layout(tags, next)
    case Box(tag, ver, pad, kids, next) =>
      Header(tag, BOX_HEADER + Size(kids), ver) + pad + Layout(tags, kids) + Layout(tags, next)
  }

  // The sections of a forest in file order, each under its containers' names.
  ghost function Items(f: Forest, names: seq<string>): seq<Item> {
    match f
    case Nil => []
    case Aiqb(_, _, payload, next) => [Item(names, payload)] + Items(next, names)
    case Box(tag, ver, _, kids, next) => Items(kids, names + [BoxName(tag, ver)]) + Items(next, names)
  }

  // The sections ss, in order and disjoint within [lo, hi), are these items:
  // the paths spell their names, and they hold exactly their payload bytes.
  ghost predicate Shows(d: seq<Byte>, ss: seq<Section>, items: seq<Item>, lo: nat, hi: nat) {
    if ss == [] then items == [] && lo <= hi
    else
      && items != []
      && lo <= ss[0].hdr
      && ss[0].start == ss[0].hdr + AIQB_HEADER <= ss[0].end <= |d|
      && ss[0].path == Join(items[0].names)
      && d[ss[0].start..ss[0].end] == items[0].payload
      && Shows(d, ss[1..], items[1..], ss[0].end, hi)
  }

  lemma {:induction false} ShowsConcat(d: seq<Byte>, a: seq<Section>, x: seq<Item>, b: seq<Section>, y: seq<Item>,
                                       lo: nat, mid: nat, hi: nat)
    requires Shows(d, a, x, lo, mid) && Shows(d, b, y, mid, hi)
    ensures Shows(d, a + b, x + y, lo, hi)
  {
    if a == [] {
      assert a + b == b && x + y == y;
    } else {
      ShowsConcat(d, a[1..], x[1..], b, y, a[0].end, mid, hi);
      assert (a + b)[1..] == a[1..] + b && (x + y)[1..] == x[1..] + y;
    }
  }

  lemma ShowsNothing(d: seq<Byte>, p: nat)
    ensures Shows(d, [], [], p, p)
  {
  }

  lemma ShowsFrom(d: seq<Byte>, ss: seq<Section>, items: seq<Item>, lo: nat, hi: nat, earlier: nat)
    requires Shows(d, ss, items, lo, hi) && earlier <= lo
    ensures Shows(d, ss, items, earlier, hi)
  {
  }

  lemma ShowsCons(d: seq<Byte>, s: Section, item: Item, ss: seq<Section>, items: seq<Item>, hi: nat)
    requires s.start == s.hdr + AIQB_HEADER <= s.end <= |d|
    requires s.path == Join(item.names) && d[s.start..s.end] == item.payload
    requires Shows(d, ss, items, s.end, hi)
    ensures Shows(d, [s] + ss, [item] + items, s.hdr, hi)
  {
    assert ([s] + ss)[1..] == ss && ([item] + items)[1..] == items;
  }

  // The walk only depends on the frames that have not ended.
  lemma {:induction false} EndedFramesDoNotMatter(tags: set<string>, d: seq<Byte>, p: nat, path: seq<Frame>, f: Frame)
    requires f.end <= p
    ensures Walk(tags, d, p, path + [f]) == Walk(tags, d, p, path)
  {
    assert (path + [f])[..|path|] == path;
  }

  ghost predicate Encloses(path: seq<Frame>, q: nat) {
    forall f :: f in path ==> q <= f.end
  }

  lemma MagicIs(d: seq<Byte>, magic: string)
    requires |d| >= 4 && |magic| == 4 && forall c :: c in magic ==> c as int < 0x100
    ensures TagAt(d, 0) == magic <==> d[..4] == Ascii(magic)
  {
    var tag, b := TagAt(d, 0), Ascii(magic);
    assert forall k :: 0 <= k < 4 ==> b[k] == magic[k] as int;
    assert tag == [tag[0], tag[1], tag[2], tag[3]] && magic == [magic[0], magic[1], magic[2], magic[3]];
    assert d[..4] == [d[0], d[1], d[2], d[3]] && b == [b[0], b[1], b[2], b[3]];
  }

  lemma ReadHeader(d: seq<Byte>, p: nat, tag: string, size: Word, ver: Word)
    requires |tag| == 4 && forall c :: c in tag ==> c as int < 0x100
    requires p + 12 <= |d| && d[p..p + 12] == Header(tag, size, ver)
    ensures TagAt(d, p) == tag && U32(d, p + 4) == size && U32(d, p + 8) == ver
  {
    var b := Header(tag, size, ver);
    assert forall k :: 0 <= k < 12 ==> d[p + k] == d[p..p + 12][k] == b[k];
    assert forall k :: 0 <= k < 4 ==> b[k] == Ascii(tag)[k];
    assert forall k :: 0 <= k < 4 ==> TagAt(d, p)[k] == tag[k];
    assert d[p + 4..p + 8] == b[4..8] == Pack32(size);
    SameWord(d, Pack32(size), p + 4, 0);
    assert d[p + 8..p + 12] == b[8..12] == Pack32(ver);
    SameWord(d, Pack32(ver), p + 8, 0);
  }

  // The forest can be read off the bytes of d from p on.
  ghost predicate Placed(tags: set<string>, f: Forest, d: seq<Byte>, p: nat) {
    && p + Size(f) <= |d|
    && match f
       case Nil => true
       case Aiqb(ver, _, payload, next) =>
         var q := p + AIQB_HEADER + |payload|;
         && TagAt(d, p) == "AIQB" && "AIQB" in tags && U32(d, p + 4) == q - p
         && d[p + AIQB_HEADER..q] == payload
         && Placed(tags, next, d, q)
       case Box(tag, ver, _, kids, next) =>
         var q := p + BOX_HEADER + Size(kids);
         && TagAt(d, p) == tag && tag in tags && tag != "AIQB" && U32(d, p + 4) == q - p && U32(d, p + 8) == ver
         && Placed(tags, kids, d, p + BOX_HEADER)
         && Placed(tags, next, d, q)
  }

  lemma AiqbIsPlaced(tags: set<string>, f: Forest, d: seq<Byte>, p: nat)
    requires "AIQB" in tags && WellFormed(tags, f) && f.Aiqb?
    requires p + Size(f) <= |d| && d[p..p + Size(f)] == Layout(tags, f)
    ensures var q := p + AIQB_HEADER + |f.payload|;
            && d[q..q + Size(f.next)] == Layout(tags, f.next)
            && (Placed(tags, f.next, d, q) ==> Placed(tags, f, d, p))
  {
    hide Header, Pack32, Ascii, U32, TagAt;
    var header := Header("AIQB", AIQB_HEADER + |f.payload|, f.ver);
    Pieces(d, p, header + f.extra, f.payload, Layout(tags, f.next));
    assert header + f.extra + [] == header + f.extra;
    Pieces(d, p, header, f.extra, []);
    ReadHeader(d, p, "AIQB", AIQB_HEADER + |f.payload|, f.ver);
  }

  lemma BoxIsPlaced(tags: set<string>, f: Forest, d: seq<Byte>, p: nat)
    requires WellFormed(tags, f) && f.Box?
    requires p + Size(f) <= |d| && d[p..p + Size(f)] == Layout(tags, f)
    ensures var kids, q := p + BOX_HEADER, p + BOX_HEADER + Size(f.kids);
            && d[kids..q] == Layout(tags, f.kids)
            && d[q..q + Size(f.next)] == Layout(tags, f.next)
            && (Placed(tags, f.kids, d, kids) && Placed(tags, f.next, d, q) ==> Placed(tags, f, d, p))
  {
    hide Header, Pack32, Ascii, U32, TagAt;
    var header := Header(f.tag, BOX_HEADER + Size(f.kids), f.ver);
    Pieces(d, p, header + f.pad, Layout(tags, f.kids), Layout(tags, f.next));
    assert header + f.pad + [] == header + f.pad;
    Pieces(d, p, header, f.pad, []);
    ReadHeader(d, p, f.tag, BOX_HEADER + Size(f.kids), f.ver);
  }

  lemma {:induction false} LayoutIsPlaced(tags: set<string>, f: Forest, d: seq<Byte>, p: nat)
    requires "AIQB" in tags && WellFormed(tags, f)
    requires p + Size(f) <= |d| && d[p..p + Size(f)] == Layout(tags, f)
    ensures Placed(tags, f, d, p)
  {
    hide Layout, U32, TagAt;
    match f {
      case Nil =>
      case Aiqb(_, _, payload, next) =>
        AiqbIsPlaced(tags, f, d, p);
        LayoutIsPlaced(tags, next, d, p + AIQB_HEADER + |payload|);
      case Box(_, _, _, kids, next) =>
        BoxIsPlaced(tags, f, d, p);
        LayoutIsPlaced(tags, kids, d, p + BOX_HEADER);
        LayoutIsPlaced(tags, next, d, p + BOX_HEADER + Size(kids));
    }
  }

  // One step of the walk: over a section, into a container, or the end.
  lemma StepOver(tags: set<string>, d: seq<Byte>, p: nat, path: seq<Frame>)
    requires p + 16 <= |d| && TagAt(d, p) in tags && TagAt(d, p) == "AIQB"
    ensures var q, live := p + U32(d, p + 4), PopEnded(path, p);
            var here := [Section(Join(Names(live)), p, p + AIQB_HEADER, q)];
            Walk(tags, d, p, path) == if q == p then Loops(here) else Yield(here, Walk(tags, d, q, live))
  {
  }

  lemma StepInto(tags: set<string>, d: seq<Byte>, p: nat, path: seq<Frame>)
    requires p + 16 <= |d| && TagAt(d, p) in tags && TagAt(d, p) != "AIQB"
    ensures var frame := Frame(BoxName(TagAt(d, p), U32(d, p + 8)), p + U32(d, p + 4));
            Walk(tags, d, p, path) == Walk(tags, d, p + BOX_HEADER, PopEnded(path, p) + [frame])
  {
  }

  lemma StepEnd(tags: set<string>, d: seq<Byte>, p: nat, path: seq<Frame>)
    requires p + 16 > |d| || TagAt(d, p) !in tags
    ensures Walk(tags, d, p, path) == Ends([])
  {
  }

  lemma NothingEnded(path: seq<Frame>, p: nat, q: nat)
    requires Encloses(path, q) && p < q
    ensures PopEnded(path, p) == path
  {
  }

  lemma {:induction false} WalkForest(tags: set<string>, f: Forest, d: seq<Byte>, p: nat, path: seq<Frame>)
    returns (ss: seq<Section>)
    requires Placed(tags, f, d, p) && Encloses(path, p + Size(f))
    ensures Walk(tags, d, p, path) == Yield(ss, Walk(tags, d, p + Size(f), path))
    ensures Shows(d, ss, Items(f, Names(path)), p, p + Size(f))
  {
    hide Walk, U32, TagAt, BoxName, Join, PopEnded, Shows, Yield;
    var r := p + Size(f);
    match f {
      case Nil =>
        ss := [];
        ShowsNothing(d, p);
        YieldTwice([], [], Walk(tags, d, p, path));
      case Aiqb(_, _, payload, next) =>
        var q := p + AIQB_HEADER + |payload|;
        var here := Section(Join(Names(path)), p, p + AIQB_HEADER, q);
        NothingEnded(path, p, q);
        StepOver(tags, d, p, path);
        var after := WalkForest(tags, next, d, q, path);
        ss := [here] + after;
        YieldTwice([here], after, Walk(tags, d, r, path));
        ShowsCons(d, here, Item(Names(path), payload), after, Items(next, Names(path)), r);
      case Box(tag, ver, _, kids, next) =>
        var q := p + BOX_HEADER + Size(kids);
        var frame := Frame(BoxName(tag, ver), q);
        NothingEnded(path, p, q);
        StepInto(tags, d, p, path);
        assert Names(path + [frame]) == Names(path) + [frame.name];
        var inside := WalkForest(tags, kids, d, p + BOX_HEADER, path + [frame]);
        EndedFramesDoNotMatter(tags, d, q, path, frame);
        var after := WalkForest(tags, next, d, q, path);
        ss := inside + after;
        YieldTwice(inside, after, Walk(tags, d, r, path));
        ShowsFrom(d, inside, Items(kids, Names(path + [frame])), p + BOX_HEADER, q, p);
        ShowsConcat(d, inside, Items(kids, Names(path + [frame])), after, Items(next, Names(path)), p, q, r);
    }
  }

  // The walk stops at the end of the file or at bytes that are no section tag.
  ghost predicate Stops(tags: set<string>, tail: seq<Byte>) {
    |tail| < 16 || TagAt(tail, 0) !in tags
  }

  // On a file holding a forest of containers the walk ends, and its sections
  // are the forest's: each once, in file order, with the right path and bytes.
  lemma WalkRecoversTheTree(tags: set<string>, head: seq<Byte>, f: Forest, tail: seq<Byte>)
    returns (ss: seq<Section>)
    requires "AIQB" in tags && WellFormed(tags, f)
    requires |head| == 0x18 && Stops(tags, tail)
    ensures Walk(tags, head + Layout(tags, f) + tail, FIRST_SECTION, []) == Ends(ss)
    ensures Shows(head + Layout(tags, f) + tail, ss, Items(f, []), 0x18, 0x18 + Size(f))
  {
    hide Layout, Shows, Items, Size, WellFormed, Placed, Walk, Yield, Names;
    var d := head + Layout(tags, f) + tail;
    var q := FIRST_SECTION + Size(f);
    assert d[FIRST_SECTION..q] == Layout(tags, f);
    LayoutIsPlaced(tags, f, d, FIRST_SECTION);
    ss := WalkForest(tags, f, d, FIRST_SECTION, []);
    TailStops(tags, d, q, tail);
    YieldLast(ss, []);
    assert Names([]) == [] by {
      NoNames();
    }
  }

  lemma NoNames()
    ensures Names([]) == []
  {
  }

  lemma TailStops(tags: set<string>, d: seq<Byte>, q: nat, tail: seq<Byte>)
    requires Stops(tags, tail) && q <= |d| && d[q..] == tail
    ensures Walk(tags, d, q, []) == Ends([])
  {
    if |tail| >= 16 {
      assert forall k :: 0 <= k < 4 ==> d[q + k] == tail[k];
    }
  }

  // Shows, read off index by index.
  lemma {:induction false} ShowsAt(d: seq<Byte>, ss: seq<Section>, items: seq<Item>, lo: nat, hi: nat, i: nat)
    requires Shows(d, ss, items, lo, hi) && i < |items|
    ensures |ss| == |items|
    ensures lo <= ss[i].hdr && ss[i].start == ss[i].hdr + AIQB_HEADER <= ss[i].end <= |d| && ss[i].end <= hi
    ensures ss[i].path == Join(items[i].names) && d[ss[i].start..ss[i].end] == items[i].payload
    ensures i + 1 < |ss| ==> ss[i].end <= ss[i + 1].hdr
  {
    ShowsLength(d, ss, items, lo, hi);
    if i > 0 {
      ShowsAt(d, ss[1..], items[1..], ss[0].end, hi, i - 1);
    } else {
      ShowsLength(d, ss[1..], items[1..], ss[0].end, hi);
    }
  }

  lemma {:induction false} ShowsLength(d: seq<Byte>, ss: seq<Section>, items: seq<Item>, lo: nat, hi: nat)
    requires Shows(d, ss, items, lo, hi)
    ensures |ss| == |items| && lo <= hi
  {
    if ss != [] {
      ShowsLength(d, ss[1..], items[1..], ss[0].end, hi);
    }
  }

  // ------------------------------------------------------- what a path spells

  // The components of a path, cut from the left.
  function Split(s: string): (r: seq<string>)
    ensures |r| > 0
  {
    if s == "" then [""]
    else
      var rest := Split(s[1..]);
      if s[0] == '/' then [""] + rest else [[s[0]] + rest[0]] + rest[1..]
  }

  ghost predicate Slashless(names: seq<string>) {
    forall n :: n in names ==> '/' !in n
  }

  // Only no name at all, or the empty one, is joined to the empty path.
  lemma EmptyPath(names: seq<string>)
    requires "" !in names
    ensures Join(names) == "" <==> names == []
  {
  }

  lemma {:induction false} SplitSlashless(s: string)
    requires '/' !in s
    ensures Split(s) == [s]
  {
    if s != "" {
      SplitSlashless(s[1..]);
      assert [s[0]] + s[1..] == s;
    }
  }

  lemma {:induction false} SplitAppend(a: string, b: string)
    requires '/' !in b
    ensures Split(a + "/" + b) == Split(a) + [b]
  {
    if a == "" {
      assert a + "/" + b == "/" + b && ("/" + b)[1..] == b;
      SplitSlashless(b);
    } else {
      assert (a + "/" + b)[1..] == a[1..] + "/" + b;
      SplitAppend(a[1..], b);
    }
  }

  // A path is cut back into the names it was joined from, the outermost first.
  lemma {:induction false} JoinReadsBack(names: seq<string>)
    requires names != [] && Slashless(names)
    ensures Split(Join(names)) == names
  {
    var n := |names| - 1;
    if n == 0 {
      SplitSlashless(names[0]);
    } else {
      JoinReadsBack(names[..n]);
      SplitAppend(Join(names[..n]), names[n]);
      assert names == names[..n] + [names[n]];
    }
  }

  predicate Digit(c: char) {
    '0' <= c <= '9'
  }

  // int(s)
  function Number(s: string): nat
    requires forall c :: c in s ==> Digit(c)
  {
    if s == "" then 0
    else
      var n := |s| - 1;
      assert Digit(s[n]);
      10 * Number(s[..n]) + (s[n] as int - '0' as int)
  }

  // n written without leading zeros.
  ghost predicate Writes(s: string, n: nat) {
    (forall c :: c in s ==> Digit(c)) && s != "" && (|s| > 1 ==> s[0] != '0') && Number(s) == n
  }

  lemma {:induction false} DecimalReadsBack(n: nat)
    ensures Writes(Decimal(n), n) && (n > 0 ==> Decimal(n)[0] != '0')
  {
    var s := Decimal(n);
    if n < 10 {
      assert s[..0] == "";
    } else {
      DecimalReadsBack(n / 10);
      assert s[..|s| - 1] == Decimal(n / 10);
    }
  }

  // The name of a container: its tag, and for an LMOD its version behind it.
  ghost predicate Spells(name: string, tag: string, ver: nat) {
    if tag == "LMOD" then "LMOD" <= name && Writes(name[4..], ver) else name == tag
  }

  lemma BoxNameSpells(tag: string, ver: nat)
    ensures Spells(BoxName(tag, ver), tag, ver)
    ensures '/' !in tag ==> '/' !in BoxName(tag, ver)
    ensures |BoxName(tag, ver)| >= |tag|
  {
    hide Decimal;
    DecimalReadsBack(ver);
    if tag == "LMOD" {
      var digits := Decimal(ver);
      assert (tag + digits)[4..] == digits;
      assert '/' !in digits by {
        assert !Digit('/');
      }
    }
  }

  // Going into f, through containers spelt by these names in this order, one
  // comes to a section with this payload.
  ghost predicate Reaches(f: Forest, names: seq<string>, payload: seq<Byte>) {
    match f
    case Nil => false
    case Aiqb(_, _, here, next) => (names == [] && payload == here) || Reaches(next, names, payload)
    case Box(tag, ver, _, kids, next) =>
      || (names != [] && Spells(names[0], tag, ver) && Reaches(kids, names[1..], payload))
      || Reaches(next, names, payload)
  }

  lemma {:induction false} ItemsAreReached(tags: set<string>, f: Forest, above: seq<string>, item: Item)
    requires WellFormed(tags, f) && (forall t :: t in tags ==> '/' !in t)
    requires item in Items(f, above) && Slashless(above)
    ensures above <= item.names && Reaches(f, item.names[|above|..], item.payload)
    ensures Slashless(item.names) && ("" !in above ==> "" !in item.names)
  {
    hide Spells, BoxName;
    match f {
      case Nil =>
      case Aiqb(_, _, payload, next) =>
        if item != Item(above, payload) {
          ItemsAreReached(tags, next, above, item);
        }
      case Box(tag, ver, _, kids, next) =>
        var name := BoxName(tag, ver);
        BoxNameSpells(tag, ver);
        if item in Items(kids, above + [name]) {
          ItemsAreReached(tags, kids, above + [name], item);
          var below := item.names[|above|..];
          assert below[0] == name && below[1..] == item.names[|above + [name]|..];
        } else {
          ItemsAreReached(tags, next, above, item);
        }
    }
  }

  // The i-th section of a file holding a forest lies in the containers its path
  // spells, from the outermost component on.
  lemma PathsLeadThere(tags: set<string>, f: Forest, d: seq<Byte>, ss: seq<Section>, lo: nat, hi: nat, i: nat)
    requires tags <= PATCHER_TAGS && WellFormed(tags, f) && Shows(d, ss, Items(f, []), lo, hi) && i < |Items(f, [])|
    ensures |ss| == |Items(f, [])| && ss[i].start <= ss[i].end <= |d|
    ensures Reaches(f, if ss[i].path == "" then [] else Split(ss[i].path), d[ss[i].start..ss[i].end])
  {
    hide Shows, Items, Reaches, WellFormed, Join;
    var items := Items(f, []);
    ShowsAt(d, ss, items, lo, hi, i);
    assert forall t :: t in PATCHER_TAGS ==> '/' !in t;
    assert items[i] in items;
    ItemsAreReached(tags, f, [], items[i]);
    var names := items[i].names;
    assert names[0..] == names;
    EmptyPath(names);
    if names != [] {
      JoinReadsBack(names);
    }
  }

  // The walk fails to end exactly when it meets a section of size zero, and
  // that section is the one it repeats.
  ghost predicate ZeroOnlyAtTheLoop(w: Walked) {
    var n := |w.sections|;
    && (w.Loops? ==> n > 0 && w.sections[n - 1].end == w.sections[n - 1].hdr)
    && forall i :: 0 <= i < (if w.Loops? then n - 1 else n) ==> w.sections[i].hdr < w.sections[i].end
  }

  lemma {:induction false} LoopsOnSizeZero(tags: set<string>, d: seq<Byte>, p: nat, path: seq<Frame>)
    ensures ZeroOnlyAtTheLoop(Walk(tags, d, p, path))
    decreases |d| - p
  {
    hide U32, TagAt, PopEnded, BoxName, Join, ZeroOnlyAtTheLoop;
    if p + 16 > |d| || TagAt(d, p) !in tags {
      ZeroAlone([]);
    } else {
      var end := p + U32(d, p + 4);
      var live := PopEnded(path, p);
      if TagAt(d, p) != "AIQB" {
        LoopsOnSizeZero(tags, d, p + BOX_HEADER, live + [Frame(BoxName(TagAt(d, p), U32(d, p + 8)), end)]);
      } else {
        var here := Section(Join(Names(live)), p, p + AIQB_HEADER, end);
        if end == p {
          ZeroAlone([here]);
        } else {
          LoopsOnSizeZero(tags, d, end, live);
          ZeroBehind(here, Walk(tags, d, end, live));
        }
      }
    }
  }

  lemma ZeroAlone(ss: seq<Section>)
    requires |ss| <= 1 && forall s :: s in ss ==> s.end == s.hdr
    ensures ss == [] ==> ZeroOnlyAtTheLoop(Ends(ss))
    ensures ss != [] ==> ZeroOnlyAtTheLoop(Loops(ss))
  {
  }

  lemma ZeroBehind(s: Section, w: Walked)
    requires s.hdr < s.end && ZeroOnlyAtTheLoop(w)
    ensures ZeroOnlyAtTheLoop(Yield([s], w))
  {
    var all := [s] + w.sections;
    assert forall i :: 0 < i < |all| ==> all[i] == w.sections[i - 1];
  }
}
