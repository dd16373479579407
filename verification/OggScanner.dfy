/**
 Duration of an Ogg/Opus file: scan the pages of the container (section 6 of RFC 3533) and take
 the largest granule position, a sample count at 48 kHz (section 4 of RFC 7845).  Between pages
 the scanner resynchronises byte by byte.
 */
module OggScanner {

  type Byte = b: int | 0 <= b < 256

  const HEADER := 27
  const SAMPLE_RATE := 48000.0
  const OGGS: seq<Byte> := [0x4f, 0x67, 0x67, 0x53]
  const TWO_63 := 0x8000_0000_0000_0000
  const TWO_64 := 0x1_0000_0000_0000_0000

  /** Little-endian value of a byte string. */
  function Unsigned(bytes: seq<Byte>): nat {
    if bytes == [] then 0 else bytes[0] + 256 * Unsigned(bytes[1..])
  }

  /** `int64(binary.LittleEndian.Uint64(bytes))`. */
  function Signed(bytes: seq<Byte>): int {
    var u := Unsigned(bytes);
    if u < TWO_63 then u else u - TWO_64
  }

  function Sum(bytes: seq<Byte>): nat {
    if bytes == [] then 0 else Sum(bytes[..|bytes| - 1]) + bytes[|bytes| - 1]
  }

  function Max(a: int, b: int): int {
    if a > b then a else b
  }

  lemma TailValue(b: seq<Byte>, i: nat)
    requires i < |b|
    ensures Unsigned(b[i..]) == b[i] + 256 * Unsigned(b[i + 1..])
  {
    assert b[i..][1..] == b[i + 1..];
  }

  /** Eight bytes, least significant first, as a two's complement number. */
  lemma EightBytes(b: seq<Byte>)
    requires |b| == 8
    ensures var v: seq<int> := b;
            Signed(b) == v[0] + 0x100 * v[1] + 0x1_0000 * v[2] + 0x100_0000 * v[3] + 0x1_0000_0000 * v[4]
                         + 0x100_0000_0000 * v[5] + 0x1_0000_0000_0000 * v[6]
                         + 0x100_0000_0000_0000 * (if v[7] < 128 then v[7] else v[7] - 256)
  {
    assert b[0..] == b && Unsigned(b[8..]) == 0;
    forall i | 0 <= i < 8
      ensures Unsigned(b[i..]) == b[i] + 256 * Unsigned(b[i + 1..])
    {
      TailValue(b, i);
    }
  }

  // ---------------------------------------------------------------- the scanner

  /** The capture pattern "OggS" occurs at `pos`. */
  predicate CaptureAt(data: seq<Byte>, pos: nat) {
    pos + 4 <= |data| && data[pos] == OGGS[0] && data[pos + 1] == OGGS[1] && data[pos + 2] == OGGS[2]
        && data[pos + 3] == OGGS[3]
  }

  /** A page header starts at `pos`. */
  predicate HeaderAt(data: seq<Byte>, pos: nat) {
    pos + HEADER <= |data| && CaptureAt(data, pos)
  }

  function GranuleAt(data: seq<Byte>, pos: nat): int
    requires HeaderAt(data, pos)
  {
    Signed(data[pos + 6..pos + 14])
  }

  /** Where the page starting at `pos` ends, if its segment table is complete. */
  predicate TableComplete(data: seq<Byte>, pos: nat)
    requires HeaderAt(data, pos)
  {
    pos + HEADER + data[pos + 26] <= |data|
  }

  function PageEnd(data: seq<Byte>, pos: nat): nat
    requires HeaderAt(data, pos) && TableComplete(data, pos)
  {
    var table := pos + HEADER;
    table + data[pos + 26] + Sum(data[table..table + data[pos + 26]])
  }

  /** Offsets of the page headers the scanner stops at, from `pos` on. */
  function Visits(data: seq<Byte>, pos: nat): seq<nat>
    decreases |data| - pos
  {
    if pos + HEADER > |data| then []
    else if !HeaderAt(data, pos) then Visits(data, pos + 1)
    else if !TableComplete(data, pos) then [pos]
    else [pos] + Visits(data, PageEnd(data, pos))
  }

  /** Largest granule position among the headers at `offsets`, at least `best`. */
  function Largest(data: seq<Byte>, offsets: seq<nat>, best: int): int {
    if offsets == [] then best
    else if !HeaderAt(data, offsets[0]) then Largest(data, offsets[1..], best)
    else Largest(data, offsets[1..], Max(best, GranuleAt(data, offsets[0])))
  }

  /** The largest granule position found from `pos` on, at least `best`. */
  function Best(data: seq<Byte>, pos: nat, best: int): int {
    Largest(data, Visits(data, pos), best)
  }

  lemma BestSkips(data: seq<Byte>, pos: nat, best: int)
    ensures pos + HEADER > |data| ==> Best(data, pos, best) == best
    ensures pos + HEADER <= |data| && !HeaderAt(data, pos) ==> Best(data, pos, best) == Best(data, pos + 1, best)
  {
  }

  lemma BestPage(data: seq<Byte>, pos: nat, best: int)
    requires HeaderAt(data, pos)
    ensures TableComplete(data, pos) ==>
              Best(data, pos, best) == Best(data, PageEnd(data, pos), Max(best, GranuleAt(data, pos)))
    ensures !TableComplete(data, pos) ==> Best(data, pos, best) == Max(best, GranuleAt(data, pos))
  {
    if TableComplete(data, pos) {
      var rest := Visits(data, PageEnd(data, pos));
      assert ([pos] + rest)[1..] == rest;
    } else {
      assert [pos][1..] == [];
      assert Largest(data, [pos], best) == Largest(data, [pos][1..], Max(best, GranuleAt(data, pos)));
    }
  }

  /** An `io.ReadSeeker` over bytes. */
  class Reader {
    const data: seq<Byte>
    var pos: nat

    constructor (data: seq<Byte>)
      ensures this.data == data && pos == 0
    {
      this.data := data;
      pos := 0;
    }

    /** Reads up to `k` bytes; an empty result is end of file. */
    method Read(k: nat) returns (buf: seq<Byte>)
      modifies this
      ensures |buf| == (if old(pos) + k <= |data| then k else if old(pos) >= |data| then 0 else |data| - old(pos))
      ensures pos == old(pos) + |buf|
      ensures buf != [] ==> pos <= |data| && buf == data[old(pos)..pos]
    {
      if pos >= |data| {
        return [];
      }
      var end := if pos + k <= |data| then pos + k else |data|;
      buf := data[pos..end];
      pos := end;
    }

    method SeekStart()
      modifies this
      ensures pos == 0
    {
      pos := 0;
    }

    method Seek(offset: int)
      requires pos + offset >= 0
      modifies this
      ensures pos == old(pos) + offset
    {
      pos := pos + offset;
    }
  }

  lemma SameCapture(data: seq<Byte>, pos: nat, buf: seq<Byte>)
    requires pos + HEADER <= |data| && buf == data[pos..pos + HEADER]
    ensures CaptureAt(buf, 0) <==> CaptureAt(data, pos)
  {
    assert forall i :: 0 <= i < 4 ==> buf[i] == data[pos + i];
  }

  lemma SumEmpty()
    ensures Sum([]) == 0
  {
  }

  lemma SumStep(table: seq<Byte>, i: nat)
    requires i < |table|
    ensures Sum(table[..i + 1]) == Sum(table[..i]) + table[i]
  {
    assert table[..i + 1][..i] == table[..i];
  }

  /** `getOpusDuration`: the loop as written, reading 27 bytes, resynchronising 26 bytes back, or
      skipping the page. */
  method GetOpusDuration(r: Reader) returns (duration: real)
    modifies r
    ensures duration == Best(r.data, 0, 0) as real / 48000.0
  {
    hide Best, Signed, CaptureAt, Sum;
    r.SeekStart();
    var total := 0;
    while true
      invariant Best(r.data, 0, 0) == Best(r.data, r.pos, total)
      decreases |r.data| - r.pos
    {
      ghost var start := r.pos;
      BestSkips(r.data, start, total);
      var buf := r.Read(HEADER);
      if |buf| < HEADER {
        break;
      }
      assert buf == r.data[start..start + HEADER];
      SameCapture(r.data, start, buf);
      if !CaptureAt(buf, 0) {
        r.Seek(-26);
        continue;
      }
      assert HeaderAt(r.data, start);
      assert buf[6..14] == r.data[start + 6..start + 14] by { assert forall i :: 6 <= i < 14 ==>
            buf[i] == r.data[start + i]; }
      BestPage(r.data, start, total);
      var granule := Signed(buf[6..14]);
      if granule > total {
        total := granule;
      }
      var segments := buf[26];
      var table: seq<Byte> := [];
      if segments > 0 {
        table := r.Read(segments);
      }
      if |table| < segments {
        break;
      }
      var size: nat := 0;
      SumEmpty();
      for i := 0 to |table|
        invariant size == Sum(table[..i])
        invariant r.pos == start + HEADER + segments
      {
        SumStep(table, i);
        size := size + table[i];
      }
      assert table[..|table|] == table;
      assert table == r.data[start + HEADER..start + HEADER + segments];
      r.Seek(size);
    }
    duration := total as real / SAMPLE_RATE;
  }

  // ---------------------------------------------------------------- well-formed streams

  datatype Page = Page(version: Byte, flags: Byte, granule: int, serialSequenceCrc: seq<Byte>, table: seq<Byte>,
      payload: seq<Byte>)

  predicate WellFormed(p: Page) {
    && -TWO_63 <= p.granule < TWO_63 && |p.serialSequenceCrc| == 12
    && |p.table| < 256 && |p.payload| == Sum(p.table)
  }

  function LittleEndian(u: nat, k: nat): (bytes: seq<Byte>)
    ensures |bytes| == k
  {
    if k == 0 then [] else [u % 256] + LittleEndian(u / 256, k - 1)
  }

  function Header(p: Page): (h: seq<Byte>)
    requires WellFormed(p)
    ensures |h| == HEADER
  {
    OGGS + [p.version, p.flags] + LittleEndian(if p.granule >= 0 then p.granule else TWO_64 + p.granule, 8)
    + p.serialSequenceCrc + [|p.table|]
  }

  function Encode(p: Page): seq<Byte>
    requires WellFormed(p)
  {
    Header(p) + p.table + p.payload
  }

  /** Bytes in which the capture pattern does not occur. */
  ghost predicate Garbage(g: seq<Byte>) {
    forall i: nat :: !CaptureAt(g, i)
  }

  datatype Chunk = Chunk(garbage: seq<Byte>, page: Page)

  /** Well-formed pages with garbage before each of them. */
  ghost predicate Stream(chunks: seq<Chunk>) {
    forall i :: 0 <= i < |chunks| ==> Garbage(chunks[i].garbage) && WellFormed(chunks[i].page)
  }

  ghost function Bytes(chunks: seq<Chunk>, tail: seq<Byte>): (bytes: seq<Byte>)
    requires Stream(chunks)
    ensures |bytes| >= |tail|
  {
    if chunks == [] then tail
    else chunks[0].garbage + Encode(chunks[0].page) + Bytes(chunks[1..], tail)
  }

  /** Where the pages of the stream start, if it begins at offset `at`. */
  ghost function Starts(chunks: seq<Chunk>, at: nat): seq<nat>
    requires forall i :: 0 <= i < |chunks| ==> WellFormed(chunks[i].page)
  {
    if chunks == [] then []
    else
      var start := at + |chunks[0].garbage|;
      [start] + Starts(chunks[1..], start + |Encode(chunks[0].page)|)
  }

  function Granules(chunks: seq<Chunk>, best: int): int {
    if chunks == [] then best else Granules(chunks[1..], Max(best, chunks[0].page.granule))
  }

  function Pow256(k: nat): nat {
    if k == 0 then 1 else 256 * Pow256(k - 1)
  }

  lemma {:induction false} LittleEndianRoundTrip(u: nat, k: nat)
    requires u < Pow256(k)
    ensures Unsigned(LittleEndian(u, k)) == u
  {
    if k > 0 {
      LittleEndianRoundTrip(u / 256, k - 1);
      var b := LittleEndian(u, k);
      assert b[1..] == LittleEndian(u / 256, k - 1);
    }
  }

  lemma Pow256Eight()
    ensures Pow256(8) == TWO_64
  {
    assert Pow256(4) == 0x1_0000_0000;
    assert Pow256(8) == 256 * (256 * (256 * (256 * Pow256(4))));
  }

  /** A signed granule position survives being written and read back. */
  lemma GranuleRoundTrip(p: Page)
    requires WellFormed(p)
    ensures Signed(Header(p)[6..14]) == p.granule
  {
    var u := if p.granule >= 0 then p.granule else TWO_64 + p.granule;
    Pow256Eight();
    LittleEndianRoundTrip(u, 8);
    assert Header(p)[6..14] == LittleEndian(u, 8);
  }

  /** What the scanner sees where the first `k` bytes of a page lie, its header being among them. */
  lemma PageFrontAt(data: seq<Byte>, pos: nat, p: Page, k: nat)
    requires WellFormed(p) && 27 <= k <= |Encode(p)|
    requires pos + k <= |data| && data[pos..pos + k] == Encode(p)[..k]
    ensures data[pos..pos + 4] == [0x4f, 0x67, 0x67, 0x53] && HeaderAt(data, pos)
    ensures GranuleAt(data, pos) == p.granule && data[pos + 26] == |p.table|
    ensures k >= 27 + |p.table| ==> TableComplete(data, pos) && PageEnd(data, pos) == pos + |Encode(p)|
  {
    var e, h, c := Encode(p), Header(p), Encode(p)[..k];
    assert e == h + (p.table + p.payload);
    SliceOf(data, pos, c, 0, 4);
    SliceOf(data, pos, c, 6, 14);
    SliceOf(data, pos, c, 26, 27);
    assert c[0..4] == OGGS;
    assert data[pos] == c[0..4][0] && data[pos + 1] == c[0..4][1] && data[pos + 2] == c[0..4][2]
        && data[pos + 3] == c[0..4][3];
    assert c[..27] == h;
    assert c[6..14] == c[..27][6..14];
    GranuleRoundTrip(p);
    assert h[26] == |p.table| && e[26] == h[26] && c[26] == e[26];
    assert data[pos + 26] == c[26..27][0];
    if k >= HEADER + |p.table| {
      SliceOf(data, pos, c, HEADER, HEADER + |p.table|);
      CutTable(h, p.table, p.payload, k);
    }
  }

  lemma CutTable(h: seq<Byte>, table: seq<Byte>, payload: seq<Byte>, k: nat)
    requires |h| + |table| <= k <= |h| + |table| + |payload|
    ensures (h + (table + payload))[..k][|h|..|h| + |table|] == table
  {
    var all := h + (table + payload);
    assert all == (h + table) + payload;
    assert all[..|h| + |table|] == h + table;
    assert all[..k][|h|..|h| + |table|] == all[|h|..|h| + |table|] == all[..|h| + |table|][|h|..];
  }

  /** What it sees at a whole page. */
  lemma PageAt(data: seq<Byte>, pos: nat, p: Page)
    requires WellFormed(p) && pos + |Encode(p)| <= |data| && data[pos..pos + |Encode(p)|] == Encode(p)
    ensures HeaderAt(data, pos) && GranuleAt(data, pos) == p.granule
    ensures TableComplete(data, pos) && PageEnd(data, pos) == pos + |Encode(p)|
  {
    assert Encode(p)[..|Encode(p)|] == Encode(p);
    PageFrontAt(data, pos, p, |Encode(p)|);
  }

  lemma SliceOf(data: seq<Byte>, pos: nat, e: seq<Byte>, i: nat, j: nat)
    requires pos + |e| <= |data| && data[pos..pos + |e|] == e && i <= j <= |e|
    ensures data[pos + i..pos + j] == e[i..j]
  {
    var w := data[pos..pos + |e|];
    assert forall k :: 0 <= k < j - i ==> data[pos + i..pos + j][k] == data[pos + (i + k)] == w[i + k] == e[i..j][k];
  }

  /** Resynchronising cannot lock on falsely, even across the boundary from garbage to a page:
      the capture pattern does not overlap itself. */
  lemma NoFalseLock(data: seq<Byte>, pos: nat, g: seq<Byte>, i: nat)
    requires Garbage(g) && pos + |g| <= |data| && data[pos..pos + |g|] == g && i < |g|
    requires pos + |g| == |data| || data[pos + |g|] == OGGS[0]
    ensures !HeaderAt(data, pos + i)
  {
    assert forall j :: 0 <= j < |g| ==> data[pos + j] == g[j];
    assert !CaptureAt(g, i);
  }

  lemma {:induction false} SkipGarbage(data: seq<Byte>, pos: nat, end: nat)
    requires pos <= end <= |data| && forall i :: pos <= i < end ==> !HeaderAt(data, i)
    ensures end + HEADER <= |data| ==> Visits(data, pos) == Visits(data, end)
    ensures end + HEADER > |data| ==> Visits(data, pos) == []
    decreases end - pos
  {
    if pos < end {
      SkipGarbage(data, pos + 1, end);
    }
  }

  lemma BytesSplit(data: seq<Byte>, pos: nat, chunks: seq<Chunk>, tail: seq<Byte>)
    requires Stream(chunks) && chunks != [] && pos <= |data| && data[pos..] == Bytes(chunks, tail)
    ensures var g, e := chunks[0].garbage, Encode(chunks[0].page);
            var end := pos + |g| + |e|;
            && Garbage(g) && WellFormed(chunks[0].page) && Stream(chunks[1..])
            && end <= |data| && data[end..] == Bytes(chunks[1..], tail)
            && data[pos..pos + |g|] == g && data[pos + |g|..end] == e
  {
    hide Encode, WellFormed, Garbage;
    var g, e, rest := chunks[0].garbage, Encode(chunks[0].page), Bytes(chunks[1..], tail);
    var all := g + e + rest;
    assert data[pos..] == all;
    assert all[..|g|] == g && all[|g|..|g| + |e|] == e && all[|g| + |e|..] == rest;
    SliceOf(data, pos, all, 0, |g|);
    SliceOf(data, pos, all, |g|, |g| + |e|);
    SliceOf(data, pos, all, |g| + |e|, |all|);
  }

  lemma EndOf(front: seq<Byte>, rest: seq<Byte>, k: nat)
    requires k <= |rest|
    ensures var data := front + rest; data[|data| - k..] == rest[|rest| - k..]
  {
  }

  lemma FirstChunk(chunks: seq<Chunk>, tail: seq<Byte>)
    requires Stream(chunks) && chunks != []
    ensures WellFormed(chunks[0].page) && Stream(chunks[1..])
    ensures Bytes(chunks, tail) == chunks[0].garbage + Encode(chunks[0].page) + Bytes(chunks[1..], tail)
  {
  }

  lemma {:induction false} BytesEnd(chunks: seq<Chunk>, tail: seq<Byte>)
    requires Stream(chunks)
    ensures var data := Bytes(chunks, tail); data[|data| - |tail|..] == tail
  {
    if chunks != [] {
      hide *;
      FirstChunk(chunks, tail);
      BytesEnd(chunks[1..], tail);
      EndOf(chunks[0].garbage + Encode(chunks[0].page), Bytes(chunks[1..], tail), |tail|);
    }
  }

  lemma PageStart(data: seq<Byte>, pos: nat)
    requires HeaderAt(data, pos)
    ensures data[pos] == OGGS[0]
  {
  }

  lemma VisitsPage(data: seq<Byte>, pos: nat)
    requires HeaderAt(data, pos) && TableComplete(data, pos)
    ensures Visits(data, pos) == [pos] + Visits(data, PageEnd(data, pos))
  {
  }

  lemma TailVisits(data: seq<Byte>, pos: nat)
    requires pos <= |data| && Garbage(data[pos..])
    ensures Visits(data, pos) == []
  {
    forall i | pos <= i < |data|
      ensures !HeaderAt(data, i)
    {
      NoFalseLock(data, pos, data[pos..], i - pos);
    }
    SkipGarbage(data, pos, |data|);
  }

  /** Garbage, then a page: the scanner's next stop is the page, and it goes on right behind it. */
  lemma ChunkVisits(data: seq<Byte>, pos: nat, g: seq<Byte>, p: Page)
    requires Garbage(g) && WellFormed(p) && pos + |g| + |Encode(p)| <= |data|
    requires data[pos..pos + |g|] == g && data[pos + |g|..pos + |g| + |Encode(p)|] == Encode(p)
    ensures Visits(data, pos) == [pos + |g|] + Visits(data, pos + |g| + |Encode(p)|)
  {
    hide Visits, Encode, CaptureAt, WellFormed, Garbage, PageEnd;
    var start := pos + |g|;
    PageAt(data, start, p);
    VisitsPage(data, start);
    PageStart(data, start);
    forall i | pos <= i < start
      ensures !HeaderAt(data, i)
    {
      NoFalseLock(data, pos, g, i - pos);
    }
    SkipGarbage(data, pos, start);
  }

  /** From any point between pages the scanner visits exactly the remaining page starts, then goes on
      at the tail. */
  lemma {:induction false} VisitsFrom(data: seq<Byte>, pos: nat, chunks: seq<Chunk>, tail: seq<Byte>)
    requires Stream(chunks) && pos <= |data| && data[pos..] == Bytes(chunks, tail)
    ensures Visits(data, pos) == Starts(chunks, pos) + Visits(data, |data| - |tail|)
    decreases |chunks|
  {
    hide Visits, Encode, WellFormed, Garbage;
    if chunks == [] {
      assert pos == |data| - |tail|;
    } else {
      var g, p := chunks[0].garbage, chunks[0].page;
      BytesSplit(data, pos, chunks, tail);
      ChunkVisits(data, pos, g, p);
      VisitsFrom(data, pos + |g| + |Encode(p)|, chunks[1..], tail);
    }
  }

  lemma LargestNone(data: seq<Byte>, best: int)
    ensures Largest(data, [], best) == best
  {
  }

  lemma LargestPage(data: seq<Byte>, pos: nat, rest: seq<nat>, best: int)
    requires HeaderAt(data, pos)
    ensures Largest(data, [pos] + rest, best) == Largest(data, rest, Max(best, GranuleAt(data, pos)))
  {
    assert ([pos] + rest)[1..] == rest;
  }

  lemma {:induction false} LargestFrom(data: seq<Byte>, pos: nat, chunks: seq<Chunk>, tail: seq<Byte>,
                                       more: seq<nat>, best: int)
    requires Stream(chunks) && pos <= |data| && data[pos..] == Bytes(chunks, tail)
    ensures Largest(data, Starts(chunks, pos) + more, best) == Largest(data, more, Granules(chunks, best))
    decreases |chunks|
  {
    hide Encode, WellFormed, Garbage, PageEnd, HeaderAt, GranuleAt, Max, Bytes, Largest, TableComplete, CaptureAt;
    hide Sum, Signed;
    if chunks == [] {
      assert Starts(chunks, pos) + more == more;
    } else {
      var g, p := chunks[0].garbage, chunks[0].page;
      var start := pos + |g|;
      var end := start + |Encode(p)|;
      var rest := Starts(chunks[1..], end);
      BytesSplit(data, pos, chunks, tail);
      PageAt(data, start, p);
      LargestFrom(data, end, chunks[1..], tail, more, Max(best, p.granule));
      LargestPage(data, start, rest + more, best);
      assert Starts(chunks, pos) + more == [start] + (rest + more);
    }
  }

  /** For every stream of well-formed pages separated by garbage, whatever the payloads contain, the
      scanner visits exactly the pages and finds the maximum of 0 and their granule positions. */
  lemma ScansExactlyThePages(chunks: seq<Chunk>, tail: seq<Byte>)
    requires Stream(chunks) && Garbage(tail)
    ensures Visits(Bytes(chunks, tail), 0) == Starts(chunks, 0)
    ensures Best(Bytes(chunks, tail), 0, 0) == Granules(chunks, 0)
  {
    hide *;
    var data := Bytes(chunks, tail);
    FromTheStart(data, chunks, tail, []) by {
      BytesEnd(chunks, tail);
      TailVisits(data, |data| - |tail|);
    }
    LargestNone(data, Granules(chunks, 0));
  }

  lemma FromTheStart(data: seq<Byte>, chunks: seq<Chunk>, tail: seq<Byte>, more: seq<nat>)
    requires Stream(chunks) && data == Bytes(chunks, tail) && more == Visits(data, |data| - |tail|)
    ensures Visits(data, 0) == Starts(chunks, 0) + more
    ensures Best(data, 0, 0) == Largest(data, more, Granules(chunks, 0))
  {
    hide Bytes, Starts, Visits, Largest, Granules, Stream;
    assert data[0..] == data;
    VisitsFrom(data, 0, chunks, tail);
    LargestFrom(data, 0, chunks, tail, more, 0);
  }

  /** Garbage and the first bytes of a page that the file breaks off in. */
  lemma CutVisits(data: seq<Byte>, pos: nat, g: seq<Byte>, p: Page, k: nat)
    requires Garbage(g) && WellFormed(p) && k < |Encode(p)|
    requires pos <= |data| && data[pos..] == g + Encode(p)[..k]
    ensures k >= 27 ==> Visits(data, pos) == [pos + |g|]
    ensures k >= 27 ==> HeaderAt(data, pos + |g|) && GranuleAt(data, pos + |g|) == p.granule
    ensures k < 27 ==> Visits(data, pos) == []
  {
    hide Visits, Encode, CaptureAt, WellFormed, Garbage, PageEnd;
    var start, c := pos + |g|, Encode(p)[..k];
    SliceOf(data, pos, data[pos..], 0, |g|);
    CutBytes(data, pos, g, c);
    if k > 0 {
      FirstByte(p);
      assert data[start] == data[start..start + k][0];
    }
    forall i | pos <= i < start
      ensures !HeaderAt(data, i)
    {
      NoFalseLock(data, pos, g, i - pos);
    }
    if k < 27 {
      SkipGarbage(data, pos, |data|);
    } else {
      SkipGarbage(data, pos, start);
      PageFrontAt(data, start, p, k);
      CutVisit(data, start, p);
    }
  }

  lemma CutBytes(data: seq<Byte>, pos: nat, g: seq<Byte>, c: seq<Byte>)
    requires pos <= |data| && data[pos..] == g + c
    ensures |data| == pos + |g| + |c|
    ensures data[pos..pos + |g|] == g && data[pos + |g|..pos + |g| + |c|] == c
  {
    assert |data[pos..]| == |g| + |c|;
    SliceOf(data, pos, g + c, 0, |g|);
    SliceOf(data, pos, g + c, |g|, |g| + |c|);
  }

  lemma FirstByte(p: Page)
    requires WellFormed(p)
    ensures Encode(p)[0] == OGGS[0]
  {
  }

  /** At a page that reaches beyond the end of the file the scan stops. */
  lemma CutVisit(data: seq<Byte>, pos: nat, p: Page)
    requires HeaderAt(data, pos) && WellFormed(p)
    requires TableComplete(data, pos) ==> PageEnd(data, pos) > |data|
    ensures Visits(data, pos) == [pos]
  {
  }

  /** A recording that breaks off inside a page: the page still counts if and only if its 27 header
      bytes are there, however much of its segment table and payload is missing. */
  lemma CutShort(chunks: seq<Chunk>, g: seq<Byte>, p: Page, k: nat)
    requires Stream(chunks) && Garbage(g) && WellFormed(p) && k < |Encode(p)|
    ensures var data := Bytes(chunks, g + Encode(p)[..k]);
            Best(data, 0, 0) == if k >= 27 then Max(Granules(chunks, 0), p.granule) else Granules(chunks, 0)
  {
    hide *;
    var tail := g + Encode(p)[..k];
    var data := Bytes(chunks, tail);
    var at := |data| - |tail|;
    BytesEnd(chunks, tail);
    CutVisits(data, at, g, p, k);
    FromTheStart(data, chunks, tail, Visits(data, at));
    if k >= 27 {
      LargestPage(data, at + |g|, [], Granules(chunks, 0));
      assert [at + |g|] + [] == [at + |g|];
      LargestNone(data, Max(Granules(chunks, 0), p.granule));
    } else {
      LargestNone(data, Granules(chunks, 0));
    }
  }

  /** `Granules` is the maximum: an upper bound of `best` and every granule, and one of them. */
  lemma {:induction false} GranulesIsMaximum(chunks: seq<Chunk>, best: int)
    ensures Granules(chunks, best) >= best
    ensures forall i :: 0 <= i < |chunks| ==> Granules(chunks, best) >= chunks[i].page.granule
    ensures Granules(chunks, best) == best || exists i ::
          0 <= i < |chunks| && Granules(chunks, best) == chunks[i].page.granule
  {
    if chunks != [] {
      var best', rest := Max(best, chunks[0].page.granule), chunks[1..];
      GranulesIsMaximum(rest, best');
      forall i | 0 <= i < |chunks|
        ensures Granules(chunks, best) >= chunks[i].page.granule
      {
        if i > 0 {
          assert chunks[i] == rest[i - 1];
        }
      }
      if i :| 0 <= i < |rest| && Granules(rest, best') == rest[i].page.granule {
        assert chunks[i + 1] == rest[i];
      } else if best' != best {
        assert Granules(chunks, best) == chunks[0].page.granule;
      }
    }
  }
}
