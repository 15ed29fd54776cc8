/** The PNG container check: what the loop accepts is exactly a signature followed by a full
    partition into chunks that obey a grammar stated without the loop. */
module Png {
  import opened Wrappers
  import opened BigEndian
  import Utf8

  type byte = Utf8.byte
  type Word = n: nat | n < 0x1_0000_0000
  /** The checksum of a chunk's kind and body. */
  type Checksum = seq<byte> -> Word

  const SIGNATURE: seq<byte> := [0x89, 0x50, 0x4E, 0x47, 0x0D, 0x0A, 0x1A, 0x0A]
  const IHDR: seq<byte> := [73, 72, 68, 82]
  const PLTE: seq<byte> := [80, 76, 84, 69]
  const IDAT: seq<byte> := [73, 68, 65, 84]
  const IEND: seq<byte> := [73, 69, 78, 68]
  const ANIMATION: set<seq<byte>> := {[97, 99, 84, 76], [102, 99, 84, 76], [102, 100, 65, 84]}
  const MAX_CHUNKS := 4096
  const MAX_SIDE := 8192
  const MAX_PIXELS := 16 * 1024 * 1024
  const MIN_BYTES := 57

  datatype Chunk = Chunk(kind: seq<byte>, body: seq<byte>)

  datatype Header = Header(width: nat, height: nat, depth: nat, color: nat)

  // ---------- the bytes of a chunk list

  function ChunkBytes(crc: Checksum, c: Chunk): seq<byte>
    requires |c.body| < 0x1_0000_0000
  {
    Put32(|c.body|) + c.kind + c.body + Put32(crc(c.kind + c.body))
  }

  function Bytes(crc: Checksum, cs: seq<Chunk>): seq<byte>
    requires AllNamed(cs)
  {
    if cs == [] then [] else ChunkBytes(crc, cs[0]) + Bytes(crc, cs[1..])
  }

  // ---------- the grammar

  predicate Upper(b: byte) { 65 <= b <= 90 }

  predicate Lower(b: byte) { 97 <= b <= 122 }

  /** Four letters, the third a capital. */
  predicate Named(c: Chunk) {
    && |c.kind| == 4 && |c.body| < 0x1_0000_0000
    && (forall i :: 0 <= i < 4 ==> Upper(c.kind[i]) || Lower(c.kind[i]))
    && Upper(c.kind[2])
  }

  predicate AllNamed(cs: seq<Chunk>) {
    forall i :: 0 <= i < |cs| ==> Named(cs[i])
  }

  /** The bit depths each colour type allows. */
  function Depths(color: nat): set<nat> {
    if color == 0 then {1, 2, 4, 8, 16}
    else if color == 2 then {8, 16}
    else if color == 3 then {1, 2, 4, 8}
    else if color == 4 then {8, 16}
    else if color == 6 then {8, 16}
    else {}
  }

  function ReadHeader(body: seq<byte>): Option<Header> {
    if |body| != 13 then None
    else
      var width, height := Get32(body[..4]), Get32(body[4..8]);
      var depth, color := body[8] as nat, body[9] as nat;
      if 1 <= width <= MAX_SIDE && 1 <= height <= MAX_SIDE && width * height <= MAX_PIXELS
         && depth in Depths(color) && body[10] == 0 && body[11] == 0 && body[12] <= 1
      then Some(Header(width, height, depth, color))
      else None
  }

  /** What the thirteen bytes of a header say: width and height, most significant byte first, one of
      the listed pairs of colour and depth, two zeros, and whether the image is interlaced. */
  lemma HeaderBytes(b: seq<byte>)
    ensures ReadHeader(b).Some? <==>
            && |b| == 13
            && var width, height := b[0] as int * 16777216 + b[1] as int * 65536 + b[2] as int * 256 + b[3] as int, b[4] as int * 16777216 + b[5] as int * 65536 + b[6] as int * 256 + b[7] as int;
            && 1 <= width <= 8192 && 1 <= height <= 8192 && width * height <= 16777216
            && ((b[9] == 0 && (b[8] == 1 || b[8] == 2 || b[8] == 4 || b[8] == 8 || b[8] == 16))
                || (b[9] == 3 && (b[8] == 1 || b[8] == 2 || b[8] == 4 || b[8] == 8))
                || ((b[9] == 2 || b[9] == 4 || b[9] == 6) && (b[8] == 8 || b[8] == 16)))
            && b[10] == b[11] == 0 && (b[12] == 0 || b[12] == 1)
    ensures ReadHeader(b).Some? ==>
            && ReadHeader(b).value.width == b[0] as int * 16777216 + b[1] as int * 65536 + b[2] as int * 256 + b[3] as int
            && ReadHeader(b).value.height == b[4] as int * 16777216 + b[5] as int * 65536 + b[6] as int * 256 + b[7] as int
            && ReadHeader(b).value.depth == b[8] as int && ReadHeader(b).value.color == b[9] as int
  {
  }

  predicate Has(cs: seq<Chunk>, kind: seq<byte>) {
    exists i :: 0 <= i < |cs| && cs[i].kind == kind
  }

  /** A header comes first and only there. */
  predicate HeaderFirst(cs: seq<Chunk>) {
    && (forall i :: 0 <= i < |cs| ==> (cs[i].kind == IHDR <==> i == 0))
    && (cs != [] ==> ReadHeader(cs[0].body).Some?)
  }

  function HeaderOf(cs: seq<Chunk>): Header
    requires cs != [] && HeaderFirst(cs)
  {
    ReadHeader(cs[0].body).value
  }

  function Power2(n: nat): nat { if n == 0 then 1 else 2 * Power2(n - 1) }

  /** A palette is for colour types that use one, in whole entries, within the bit depth. */
  predicate PaletteFits(h: Header, size: nat) {
    && h.color !in {0, 4} && 0 < size <= 768 && size % 3 == 0
    && (h.color == 3 ==> size / 3 <= Power2(h.depth))
  }

  /** At most one palette, before all image data. */
  predicate OnePalette(cs: seq<Chunk>)
    requires HeaderFirst(cs)
  {
    && (forall i :: 0 <= i < |cs| && cs[i].kind == PLTE ==> PaletteFits(HeaderOf(cs), |cs[i].body|))
    && (forall i, j :: 0 <= i < j < |cs| && cs[j].kind == PLTE ==> cs[i].kind != PLTE && cs[i].kind != IDAT)
  }

  /** Image data is one unbroken run. */
  predicate OneDataRun(cs: seq<Chunk>) {
    forall i, j, k :: 0 <= i < j < k < |cs| && cs[i].kind == IDAT && cs[k].kind == IDAT ==> cs[j].kind == IDAT
  }

  /** Indexed colours need their palette before any image data. */
  predicate PaletteInTime(cs: seq<Chunk>)
    requires HeaderFirst(cs)
  {
    forall i :: 0 <= i < |cs| && cs[i].kind == IDAT && HeaderOf(cs).color == 3 ==> Has(cs[..i], PLTE)
  }

  /** What is not critical is ancillary, and not an animation. */
  predicate Optional(kind: seq<byte>) {
    kind in {IHDR, PLTE, IDAT, IEND} || (|kind| > 0 && Lower(kind[0]) && kind !in ANIMATION)
  }

  predicate OnlyOptional(cs: seq<Chunk>) {
    forall i :: 0 <= i < |cs| ==> Optional(cs[i].kind)
  }

  /** A list that has not ended yet. */
  predicate Open(cs: seq<Chunk>) {
    |cs| <= MAX_CHUNKS && AllNamed(cs) && HeaderFirst(cs) && OnePalette(cs) && OneDataRun(cs)
    && PaletteInTime(cs) && OnlyOptional(cs) && !Has(cs, IEND)
  }

  predicate HasPixels(cs: seq<Chunk>) {
    exists i :: 0 <= i < |cs| && cs[i].kind == IDAT && cs[i].body != []
  }

  /** A list that ends, exactly once, at its last chunk, after some image data. */
  predicate Complete(cs: seq<Chunk>) {
    && 0 < |cs| <= MAX_CHUNKS
    && Open(cs[..|cs| - 1]) && HasPixels(cs[..|cs| - 1])
    && cs[|cs| - 1] == Chunk(IEND, [])
  }

  predicate IsPng(crc: Checksum, data: seq<byte>, cs: seq<Chunk>) {
    Complete(cs) && AllNamed(cs) && data == SIGNATURE + Bytes(crc, cs)
  }

  /** The dimensions a reading declares. */
  function Size(cs: seq<Chunk>): (nat, nat)
    requires Complete(cs)
  {
    var h := HeaderOf(cs[..|cs| - 1]);
    (h.width, h.height)
  }

  ghost predicate Reads(crc: Checksum, data: seq<byte>, size: (nat, nat)) {
    exists cs :: IsPng(crc, data, cs) && Size(cs) == size
  }

  // ---------- one reading at most

  lemma {:induction false} BytesMore(crc: Checksum, cs: seq<Chunk>, c: Chunk)
    requires AllNamed(cs) && Named(c)
    ensures Bytes(crc, cs + [c]) == Bytes(crc, cs) + ChunkBytes(crc, c)
  {
    if cs == [] {
      assert Bytes(crc, [c]) == ChunkBytes(crc, c) + Bytes(crc, [c][1..]);
    } else {
      assert (cs + [c])[1..] == cs[1..] + [c];
      BytesMore(crc, cs[1..], c);
    }
  }

  /** The four fields of a chunk stand at fixed places. */
  lemma Fields(crc: Checksum, c: Chunk, all: seq<byte>)
    requires Named(c) && ChunkBytes(crc, c) <= all
    ensures |all| >= 12 + |c.body|
    ensures all[..4] == Put32(|c.body|) && all[4..8] == c.kind && all[8..8 + |c.body|] == c.body
    ensures all[8 + |c.body|..12 + |c.body|] == Put32(crc(c.kind + c.body))
  {
    var n, bytes := |c.body|, ChunkBytes(crc, c);
    assert |bytes| == 12 + n;
    assert bytes == all[..12 + n];
    assert bytes[..4] == Put32(n) && bytes[4..8] == c.kind;
    assert bytes[8..8 + n] == c.body && bytes[8 + n..12 + n] == Put32(crc(c.kind + c.body));
  }

  lemma SameChunk(crc: Checksum, a: Chunk, b: Chunk, all: seq<byte>)
    requires Named(a) && Named(b) && ChunkBytes(crc, a) <= all && ChunkBytes(crc, b) <= all
    ensures a == b
  {
    Fields(crc, a, all);
    Fields(crc, b, all);
    GetPut(|a.body|);
    GetPut(|b.body|);
  }

  /** Equal strings with equal starts have equal ends. */
  lemma DropFront(a: seq<byte>, b: seq<byte>, c: seq<byte>)
    requires a + b == a + c
    ensures b == c
  {
    assert (a + b)[|a|..] == b && (a + c)[|a|..] == c;
  }

  lemma Front(a: seq<byte>, b: seq<byte>, c: seq<byte>)
    ensures a + b + c == a + (b + c) && a <= a + (b + c)
  {
  }

  lemma Uncons(a: seq<Chunk>, b: seq<Chunk>)
    requires a != [] && b != [] && a[0] == b[0]
    requires |a[1..]| < |b[1..]| && a[1..] == b[1..][..|a| - 1]
    ensures |a| < |b| && a == b[..|a|] && b[|a|..] == b[1..][|a| - 1..]
  {
    assert a == [a[0]] + a[1..] && b[..|a|] == [b[0]] + b[1..][..|a| - 1];
  }

  /** A list that has not ended is a proper start of any ended list with the same first bytes. */
  lemma {:induction false} Continues(crc: Checksum, a: seq<Chunk>, rest: seq<byte>, b: seq<Chunk>)
    requires AllNamed(a) && AllNamed(b) && b != [] && b[|b| - 1].kind == IEND && !Has(a, IEND)
    requires Bytes(crc, a) + rest == Bytes(crc, b)
    ensures |a| < |b| && a == b[..|a|] && rest == Bytes(crc, b[|a|..])
    decreases |a|
  {
    if a == [] {
      assert b[0..] == b;
    } else {
      var first, more := ChunkBytes(crc, a[0]), Bytes(crc, a[1..]);
      Front(first, more, rest);
      SameChunk(crc, a[0], b[0], Bytes(crc, b));
      DropFront(first, more + rest, Bytes(crc, b[1..]));
      assert a[0].kind != IEND;
      Continues(crc, a[1..], rest, b[1..]);
      Uncons(a, b);
    }
  }

  /** Only the last chunk ends a list. */
  lemma EndsOnce(cs: seq<Chunk>, i: nat)
    requires Complete(cs) && i < |cs| && cs[i].kind == IEND
    ensures i == |cs| - 1
  {
    var init := cs[..|cs| - 1];
    assert forall k :: 0 <= k < |init| ==> init[k] == cs[k];
  }

  lemma FirstBytes(crc: Checksum, cs: seq<Chunk>, rest: seq<byte>, c: Chunk)
    requires AllNamed(cs) && cs != [] && rest == Bytes(crc, cs) && c == cs[0]
    ensures ChunkBytes(crc, c) <= rest
    ensures |cs| == 1 ==> rest == ChunkBytes(crc, c)
  {
    assert |cs| == 1 ==> cs[1..] == [];
  }

  lemma Tail(b: seq<Chunk>, n: nat, more: seq<Chunk>)
    requires n < |b| && more == b[n..] && AllNamed(b)
    ensures AllNamed(more) && more[0] == b[n] && |more| == |b| - n
  {
    assert forall i :: 0 <= i < |more| ==> more[i] == b[n + i];
  }

  /** The chunk that a reading has next. */
  lemma {:induction false} NextChunk(crc: Checksum, a: seq<Chunk>, rest: seq<byte>, b: seq<Chunk>)
    requires AllNamed(a) && AllNamed(b) && b != [] && b[|b| - 1].kind == IEND && !Has(a, IEND)
    requires Bytes(crc, a) + rest == Bytes(crc, b)
    ensures |a| < |b| && a == b[..|a|] && ChunkBytes(crc, b[|a|]) <= rest
    ensures |b| == |a| + 1 ==> rest == ChunkBytes(crc, b[|a|])
  {
    Continues(crc, a, rest, b);
    Tail(b, |a|, b[|a|..]);
    FirstBytes(crc, b[|a|..], rest, b[|a|]);
  }

  /** A byte string has at most one reading as a PNG. */
  lemma {:induction false} OneReading(crc: Checksum, data: seq<byte>, a: seq<Chunk>, b: seq<Chunk>)
    requires IsPng(crc, data, a) && IsPng(crc, data, b)
    ensures a == b
  {
    var n := |a| - 1;
    var rest := ChunkBytes(crc, a[n]);
    SplitLast(a);
    BytesMore(crc, a[..n], a[n]);
    DropFront(SIGNATURE, Bytes(crc, a), Bytes(crc, b));
    NextChunk(crc, a[..n], rest, b);
    SameChunk(crc, a[n], b[n], rest);
    EndsOnce(b, n);
    SplitLast(b);
  }

  lemma SplitLast(cs: seq<Chunk>)
    requires cs != []
    ensures cs == cs[..|cs| - 1] + [cs[|cs| - 1]]
  {
  }

  // ---------- the grammar, one chunk at a time

  /** What may follow an open list and leave it open. */
  predicate Fits(cs: seq<Chunk>, c: Chunk)
    requires HeaderFirst(cs)
  {
    && c.kind != IEND && Optional(c.kind)
    && (c.kind == IHDR <==> cs == [])
    && (c.kind == IHDR ==> ReadHeader(c.body).Some?)
    && (c.kind == PLTE ==> !Has(cs, PLTE) && !Has(cs, IDAT) && PaletteFits(HeaderOf(cs), |c.body|))
    && (c.kind == IDAT ==>
          && (Has(cs, IDAT) ==> cs[|cs| - 1].kind == IDAT)
          && (HeaderOf(cs).color == 3 ==> Has(cs, PLTE)))
  }

  lemma HasMore(cs: seq<Chunk>, c: Chunk, kind: seq<byte>)
    ensures Has(cs + [c], kind) <==> Has(cs, kind) || c.kind == kind
  {
    var all := cs + [c];
    assert all[|cs|] == c;
    if Has(cs, kind) {
      var i :| 0 <= i < |cs| && cs[i].kind == kind;
      assert all[i].kind == kind;
    }
  }

  lemma HeaderMore(cs: seq<Chunk>, c: Chunk)
    requires HeaderFirst(cs)
    ensures HeaderFirst(cs + [c]) <==> (c.kind == IHDR <==> cs == []) && (cs == [] ==> ReadHeader(c.body).Some?)
    ensures cs != [] && HeaderFirst(cs + [c]) ==> HeaderOf(cs + [c]) == HeaderOf(cs)
  {
    var all := cs + [c];
    assert all[|cs|] == c;
    assert forall i :: 0 <= i < |cs| ==> all[i] == cs[i];
  }

  lemma PaletteMore(cs: seq<Chunk>, c: Chunk)
    requires cs != [] && HeaderFirst(cs) && HeaderFirst(cs + [c]) && OnePalette(cs)
    ensures OnePalette(cs + [c]) <==>
            (c.kind == PLTE ==> !Has(cs, PLTE) && !Has(cs, IDAT) && PaletteFits(HeaderOf(cs), |c.body|))
  {
    var all := cs + [c];
    assert all[|cs|] == c;
    assert forall i :: 0 <= i < |cs| ==> all[i] == cs[i];
  }

  lemma DataMore(cs: seq<Chunk>, c: Chunk)
    requires OneDataRun(cs)
    ensures OneDataRun(cs + [c]) <==> (c.kind == IDAT && Has(cs, IDAT) ==> cs[|cs| - 1].kind == IDAT)
  {
    var all, n := cs + [c], |cs|;
    assert all[n] == c;
    assert forall i :: 0 <= i < n ==> all[i] == cs[i];
    if c.kind == IDAT && Has(cs, IDAT) && OneDataRun(all) {
      var i :| 0 <= i < n && cs[i].kind == IDAT;
      assert i < n - 1 ==> all[n - 1].kind == IDAT;
    }
  }

  lemma IndexedMore(cs: seq<Chunk>, c: Chunk)
    requires cs != [] && HeaderFirst(cs) && HeaderFirst(cs + [c]) && PaletteInTime(cs)
    ensures PaletteInTime(cs + [c]) <==> (c.kind == IDAT && HeaderOf(cs).color == 3 ==> Has(cs, PLTE))
  {
    var all, n := cs + [c], |cs|;
    assert all[n] == c && all[..n] == cs;
    assert forall i :: 0 <= i < n ==> all[i] == cs[i] && all[..i] == cs[..i];
  }

  /** The rules, chunk by chunk, are the rules of the whole list. */
  lemma OpenMore(cs: seq<Chunk>, c: Chunk)
    requires Open(cs) && |cs| < MAX_CHUNKS && Named(c)
    ensures Open(cs + [c]) <==> Fits(cs, c)
  {
    var all := cs + [c];
    assert all[|cs|] == c;
    assert forall i :: 0 <= i < |cs| ==> all[i] == cs[i];
    HasMore(cs, c, IEND);
    HeaderMore(cs, c);
    if cs != [] && HeaderFirst(all) {
      PaletteMore(cs, c);
      DataMore(cs, c);
      IndexedMore(cs, c);
    }
  }

  lemma IndexedPrefix(cs: seq<Chunk>, n: nat)
    requires n <= |cs| && HeaderFirst(cs) && HeaderFirst(cs[..n]) && PaletteInTime(cs)
    ensures PaletteInTime(cs[..n])
  {
    assert forall i :: 0 <= i < n ==> cs[..n][..i] == cs[..i];
  }

  lemma RunPrefix(cs: seq<Chunk>, n: nat)
    requires n <= |cs| && OneDataRun(cs)
    ensures OneDataRun(cs[..n])
  {
    var a := cs[..n];
    assert forall i :: 0 <= i < n ==> a[i] == cs[i];
  }

  /** Any start of an open list is open. */
  lemma OpenPrefix(cs: seq<Chunk>, a: seq<Chunk>)
    requires Open(cs) && a <= cs
    ensures Open(a)
  {
    var n := |a|;
    assert a == cs[..n];
    RunPrefix(cs, n);
    assert HeaderFirst(a);
    IndexedPrefix(cs, n);
  }

  lemma PixelsMore(cs: seq<Chunk>, c: Chunk)
    ensures HasPixels(cs + [c]) <==> HasPixels(cs) || (c.kind == IDAT && c.body != [])
  {
    var all := cs + [c];
    assert all[|cs|] == c;
    if HasPixels(cs) {
      var i :| 0 <= i < |cs| && cs[i].kind == IDAT && cs[i].body != [];
      assert all[i] == cs[i];
    }
  }

  /** The header of a reading is bytes 16 to 28 of the data. */
  lemma HeaderStands(crc: Checksum, data: seq<byte>, cs: seq<Chunk>)
    requires IsPng(crc, data, cs)
    ensures |data| >= 57 && ReadHeader(data[16..29]).Some?
    ensures Size(cs) == (ReadHeader(data[16..29]).value.width, ReadHeader(data[16..29]).value.height)
  {
    LongEnough(crc, data, cs);
    var open := cs[..|cs| - 1];
    assert open[0] == cs[0] && |cs[0].body| == 13;
    DropTwice(data, 0, 8);
    assert data[8..] == Bytes(crc, cs);
    FirstBytes(crc, cs, data[8..], cs[0]);
    Fields(crc, cs[0], data[8..]);
    assert data[8..][8..21] == data[16..29];
  }

  lemma {:induction false} Declares(crc: Checksum, data: seq<byte>, size: (nat, nat))
    requires Reads(crc, data, size)
    ensures |data| >= 57 && data[..8] == [137, 80, 78, 71, 13, 10, 26, 10]
    ensures size.0 == data[16] as int * 16777216 + data[17] as int * 65536 + data[18] as int * 256 + data[19] as int
    ensures size.1 == data[20] as int * 16777216 + data[21] as int * 65536 + data[22] as int * 256 + data[23] as int
    ensures 1 <= size.0 <= 8192 && 1 <= size.1 <= 8192 && size.0 * size.1 <= 16777216
    ensures (data[25] == 0 && (data[24] == 1 || data[24] == 2 || data[24] == 4 || data[24] == 8 || data[24] == 16))
            || (data[25] == 3 && (data[24] == 1 || data[24] == 2 || data[24] == 4 || data[24] == 8))
            || ((data[25] == 2 || data[25] == 4 || data[25] == 6) && (data[24] == 8 || data[24] == 16))
    ensures data[26] == data[27] == 0 && (data[28] == 0 || data[28] == 1)
  {
    hide Size, ReadHeader, Bytes;
    var cs :| IsPng(crc, data, cs) && Size(cs) == size;
    LongEnough(crc, data, cs);
    HeaderStands(crc, data, cs);
    HeaderBytes(data[16..29]);
  }

  // ---------- the loop

  /** A complete list goes on from any of its starts: openly, or with its end. */
  lemma GoesOn(cs: seq<Chunk>, b: seq<Chunk>)
    requires Complete(b) && |cs| < |b| && cs == b[..|cs|]
    ensures b[..|cs| + 1] == cs + [b[|cs|]]
    ensures |b| > |cs| + 1 ==> Open(b[..|cs| + 1])
    ensures |b| == |cs| + 1 ==> b[|cs|] == Chunk(IEND, []) && HasPixels(cs)
  {
    if |b| > |cs| + 1 {
      OpenPrefix(b[..|b| - 1], b[..|cs| + 1]);
    }
  }

  /** Any reading that goes on as far as this one did agrees with it. */
  lemma {:induction false} Agree(crc: Checksum, data: seq<byte>, cs: seq<Chunk>, rest: seq<byte>, b: seq<Chunk>)
    requires AllNamed(cs) && !Has(cs, IEND) && data == SIGNATURE + (Bytes(crc, cs) + rest) && IsPng(crc, data, b)
    ensures |cs| < |b| && cs == b[..|cs|] && ChunkBytes(crc, b[|cs|]) <= rest
    ensures |b| == |cs| + 1 ==> rest == ChunkBytes(crc, b[|cs|])
  {
    DropFront(SIGNATURE, Bytes(crc, cs) + rest, Bytes(crc, b));
    NextChunk(crc, cs, rest, b);
  }

  /** Once a chunk may not follow, no reading exists. */
  lemma {:induction false} Stuck(crc: Checksum, data: seq<byte>, cs: seq<Chunk>, rest: seq<byte>, next: Chunk)
    requires Open(cs) && data == SIGNATURE + (Bytes(crc, cs) + rest)
    requires Named(next) && ChunkBytes(crc, next) <= rest
    requires !Open(cs + [next])
    requires next == Chunk(IEND, []) ==> !HasPixels(cs) || rest != ChunkBytes(crc, next)
    ensures forall size :: !Reads(crc, data, size)
  {
    forall b | IsPng(crc, data, b) ensures false {
      Agree(crc, data, cs, rest, b);
      GoesOn(cs, b);
      SameChunk(crc, b[|cs|], next, rest);
    }
  }

  /** Nor does one when no chunk stands at the offset. */
  lemma {:induction false} NoChunk(crc: Checksum, data: seq<byte>, cs: seq<Chunk>, rest: seq<byte>)
    requires Open(cs) && data == SIGNATURE + (Bytes(crc, cs) + rest)
    requires forall c :: Named(c) ==> !(ChunkBytes(crc, c) <= rest)
    ensures forall size :: !Reads(crc, data, size)
  {
    forall b | IsPng(crc, data, b) ensures false {
      Agree(crc, data, cs, rest, b);
    }
  }

  /** Nor when the bytes have run out. */
  lemma {:induction false} NothingLeft(crc: Checksum, data: seq<byte>, cs: seq<Chunk>)
    requires Open(cs) && data == SIGNATURE + (Bytes(crc, cs) + [])
    ensures forall size :: !Reads(crc, data, size)
  {
    NoChunk(crc, data, cs, []);
  }

  lemma Signed(crc: Checksum, data: seq<byte>)
    requires |data| >= 8 && data[..8] == SIGNATURE
    ensures data == SIGNATURE + (Bytes(crc, []) + data[8..])
  {
  }

  /** A list as long as is allowed cannot go on. */
  lemma {:induction false} Full(crc: Checksum, data: seq<byte>, cs: seq<Chunk>, rest: seq<byte>)
    requires Open(cs) && |cs| == MAX_CHUNKS && data == SIGNATURE + (Bytes(crc, cs) + rest)
    ensures forall size :: !Reads(crc, data, size)
  {
    forall b | IsPng(crc, data, b) ensures false {
      Agree(crc, data, cs, rest, b);
    }
  }

  lemma {:induction false} BytesAtLeast(crc: Checksum, cs: seq<Chunk>)
    requires AllNamed(cs)
    ensures |Bytes(crc, cs)| >= 12 * |cs|
  {
    if cs != [] {
      BytesAtLeast(crc, cs[1..]);
    }
  }

  /** Nothing shorter than a header, one data chunk and an end is a PNG. */
  lemma ShortestPng(crc: Checksum, data: seq<byte>)
    ensures forall size :: Reads(crc, data, size) ==> |data| >= MIN_BYTES && data[..8] == SIGNATURE
  {
    forall cs | IsPng(crc, data, cs) ensures |data| >= MIN_BYTES && data[..8] == SIGNATURE {
      LongEnough(crc, data, cs);
    }
  }

  lemma LongEnough(crc: Checksum, data: seq<byte>, cs: seq<Chunk>)
    requires IsPng(crc, data, cs)
    ensures |data| >= MIN_BYTES && data[..8] == SIGNATURE
  {
    var open := cs[..|cs| - 1];
    var i :| 0 <= i < |open| && open[i].kind == IDAT && open[i].body != [];
    assert open[0].kind == IHDR && open[0] == cs[0];
    assert |cs| >= 3 && |cs[0].body| == 13;
    BytesAtLeast(crc, cs[1..]);
  }

  /** One chunk at an offset: its length, its name and its checksum. */
  method ReadChunk(crc: Checksum, data: seq<byte>, offset: nat) returns (c: Option<Chunk>)
    requires offset <= |data|
    ensures c.None? ==> forall x :: Named(x) ==> !(ChunkBytes(crc, x) <= data[offset..])
    ensures c.Some? ==> Named(c.value) && ChunkBytes(crc, c.value) <= data[offset..]
  {
    var rest := data[offset..];
    forall x | Named(x) && ChunkBytes(crc, x) <= rest
      ensures |rest| >= 12 + |x.body| && Get32(rest[..4]) == |x.body| && x.kind == rest[4..8]
      ensures x.body == rest[8..8 + |x.body|] && rest[8 + |x.body|..12 + |x.body|] == Put32(crc(x.kind + x.body))
    {
      Fields(crc, x, rest);
      GetPut(|x.body|);
    }
    if |data| - offset < 12 { return None; }
    var length := Get32(rest[..4]);
    if length > |rest| - 12 { return None; }
    var kind, body := rest[4..8], rest[8..8 + length];
    if !(forall i :: 0 <= i < 4 ==> Upper(kind[i]) || Lower(kind[i])) || !Upper(kind[2]) { return None; }
    if crc(kind + body) != Get32(rest[8 + length..12 + length]) {
      GetPut(crc(kind + body));
      return None;
    }
    Reassemble(rest, length);
    c := Some(Chunk(kind, body));
    PutGet(rest[8 + length..12 + length]);
  }

  lemma {:induction false} Reassemble(rest: seq<byte>, length: nat)
    requires |rest| >= 12 + length && length < 0x1_0000_0000 && Get32(rest[..4]) == length
    ensures Put32(length) + rest[4..8] + rest[8..8 + length] + rest[8 + length..12 + length] == rest[..12 + length]
  {
    PutGet(rest[..4]);
  }

  /** What the loop remembers of the chunks it has passed. */
  datatype Memory = Memory(header: Header, palette: bool, sawData: bool, endedData: bool, dataBytes: nat)

  ghost predicate Remembers(m: Memory, cs: seq<Chunk>) {
    && Open(cs)
    && (cs != [] ==> m.header == HeaderOf(cs))
    && m.palette == Has(cs, PLTE)
    && m.sawData == Has(cs, IDAT)
    && m.endedData == (m.sawData && cs[|cs| - 1].kind != IDAT)
    && (m.dataBytes > 0 <==> HasPixels(cs))
  }

  lemma NothingYet(m: Memory)
    requires !m.palette && !m.sawData && !m.endedData && m.dataBytes == 0
    ensures Remembers(m, [])
  {
  }

  /** The checks on one chunk that does not end the list. */
  method Pass(m: Memory, first: bool, c: Chunk, ghost cs: seq<Chunk>) returns (next: Option<Memory>)
    requires Remembers(m, cs) && |cs| < MAX_CHUNKS && Named(c) && first == (cs == [])
    ensures next.Some? <==> Open(cs + [c])
    ensures next.Some? ==> Remembers(next.value, cs + [c])
  {
    OpenMore(cs, c);
    HasMore(cs, c, PLTE);
    HasMore(cs, c, IDAT);
    PixelsMore(cs, c);
    HeaderMore(cs, c);
    if first != (c.kind == IHDR) { return None; }
    var header, palette, sawData, endedData, dataBytes := m.header, m.palette, m.sawData, m.endedData, m.dataBytes;
    if c.kind == IHDR {
      var read := ReadHeader(c.body);
      if read.None? { return None; }
      header := read.value;
    } else if c.kind == PLTE {
      if palette || sawData || !PaletteFits(header, |c.body|) { return None; }
      palette := true;
    } else if c.kind == IDAT {
      if endedData || (header.color == 3 && !palette) { return None; }
      sawData, dataBytes := true, dataBytes + |c.body|;
    } else if c.kind == IEND || !Optional(c.kind) {
      return None;
    }
    if sawData && c.kind != IDAT { endedData := true; }
    next := Some(Memory(header, palette, sawData, endedData, dataBytes));
  }

  lemma Regroup(signature: seq<byte>, before: seq<byte>, chunk: seq<byte>, rest: seq<byte>, n: nat)
    requires chunk <= rest && n == |chunk|
    ensures signature + (before + rest) == signature + (before + chunk + rest[n..])
    ensures n == |rest| ==> rest == chunk
  {
    assert rest == chunk + rest[n..];
    assert before + rest == before + chunk + rest[n..];
  }

  /** Read past one chunk. */
  lemma Advance(crc: Checksum, data: seq<byte>, cs: seq<Chunk>, c: Chunk, rest: seq<byte>)
    requires AllNamed(cs) && Named(c) && ChunkBytes(crc, c) <= rest
    requires data == SIGNATURE + (Bytes(crc, cs) + rest)
    ensures |rest| >= 12 + |c.body|
    ensures data == SIGNATURE + (Bytes(crc, cs + [c]) + rest[12 + |c.body|..])
    ensures |rest| == 12 + |c.body| ==> rest == ChunkBytes(crc, c) && data == SIGNATURE + Bytes(crc, cs + [c])
  {
    BytesMore(crc, cs, c);
    Regroup(SIGNATURE, Bytes(crc, cs), ChunkBytes(crc, c), rest, 12 + |c.body|);
    assert |rest| == 12 + |c.body| ==> rest[12 + |c.body|..] == [];
    NothingAfter(Bytes(crc, cs + [c]));
  }

  lemma DropTwice(data: seq<byte>, a: nat, b: nat)
    requires a <= b <= |data|
    ensures data[a..][b - a..] == data[b..]
  {
  }

  lemma NothingAfter(a: seq<byte>)
    ensures a + [] == a
  {
  }

  /** The end has been reached: this is the reading, and it is the only one. */
  lemma {:induction false} Finished(crc: Checksum, data: seq<byte>, cs: seq<Chunk>, all: seq<Chunk>)
    requires Open(cs) && |cs| < MAX_CHUNKS && HasPixels(cs) && all == cs + [Chunk(IEND, [])] && AllNamed(all)
    requires data == SIGNATURE + Bytes(crc, all)
    ensures forall size :: Reads(crc, data, size) <==> size == (HeaderOf(cs).width, HeaderOf(cs).height)
  {
    assert all[..|all| - 1] == cs;
    assert IsPng(crc, data, all);
    forall b | IsPng(crc, data, b) ensures b == all { OneReading(crc, data, b, all); }
  }

  /** One chunk: it ends the list, or may follow it, or nothing can be read. */
  method Judge(crc: Checksum, data: seq<byte>, m: Memory, first: bool, atEnd: bool, c: Chunk,
               ghost cs: seq<Chunk>, ghost rest: seq<byte>)
    returns (done: bool, r: Option<(nat, nat)>, next: Memory)
    requires Remembers(m, cs) && |cs| < MAX_CHUNKS && first == (cs == [])
    requires Named(c) && ChunkBytes(crc, c) <= rest && atEnd == (|rest| == 12 + |c.body|)
    requires data == SIGNATURE + (Bytes(crc, cs) + rest)
    ensures done ==> forall size :: r == Some(size) <==> Reads(crc, data, size)
    ensures !done ==> Remembers(next, cs + [c])
  {
    if c.kind == IEND && c.body == [] && m.sawData && m.dataBytes > 0 && atEnd {
      Advance(crc, data, cs, c, rest);
      Finished(crc, data, cs, cs + [c]);
      return true, Some((m.header.width, m.header.height)), m;
    }
    var passed := Pass(m, first, c, cs);
    if passed.None? {
      Stuck(crc, data, cs, rest, c);
      return true, None, m;
    }
    return false, None, passed.value;
  }

  /** Accepts a byte string iff it has a reading as a PNG, and returns that reading's dimensions: the two
      numbers in bytes 16 to 23. */
  method Dimensions(crc: Checksum, data: seq<byte>) returns (r: Option<(nat, nat)>)
    ensures forall size :: r == Some(size) <==> Reads(crc, data, size)
    ensures r.Some? ==>
              && |data| >= 57 && data[..8] == [137, 80, 78, 71, 13, 10, 26, 10]
              && r.value.0 == data[16] as int * 16777216 + data[17] as int * 65536 + data[18] as int * 256 + data[19] as int
              && r.value.1 == data[20] as int * 16777216 + data[21] as int * 65536 + data[22] as int * 256 + data[23] as int
              && 1 <= r.value.0 <= 8192 && 1 <= r.value.1 <= 8192 && r.value.0 * r.value.1 <= 16777216
  {
    hide Reads;
    r := Scan(crc, data);
    if r.Some? { Declares(crc, data, r.value); }
  }

  /** The loop over the chunks. */
  method Scan(crc: Checksum, data: seq<byte>) returns (r: Option<(nat, nat)>)
    ensures forall size :: r == Some(size) <==> Reads(crc, data, size)
  {
    hide Reads, ReadHeader, HeaderFirst, OnePalette, OneDataRun, PaletteInTime, OnlyOptional, HasPixels, Named, Has, HeaderOf, ChunkBytes, Bytes;
    ShortestPng(crc, data);
    if |data| < MIN_BYTES || data[..8] != SIGNATURE { return None; }
    var offset, count, m := 8, 0, Memory(Header(0, 0, 0, 0), false, false, false, 0);
    ghost var cs: seq<Chunk>, rest := [], data[8..];
    Signed(crc, data);
    NothingYet(m);
    while offset < |data|
      invariant 8 <= offset <= |data| && count == |cs|
      invariant Remembers(m, cs)
      invariant rest == data[offset..] && data == SIGNATURE + (Bytes(crc, cs) + rest)
    {
      count := count + 1;
      if count > MAX_CHUNKS {
        Full(crc, data, cs, rest);
        return None;
      }
      var chunk := ReadChunk(crc, data, offset);
      if chunk.None? {
        NoChunk(crc, data, cs, rest);
        return None;
      }
      var c := chunk.value;
      Advance(crc, data, cs, c, rest);
      var end := offset + 12 + |c.body|;
      var done, answer, next := Judge(crc, data, m, count == 1, end == |data|, c, cs, rest);
      if done { return answer; }
      DropTwice(data, offset, end);
      m, cs, rest, offset := next, cs + [c], rest[12 + |c.body|..], end;
    }
    NothingLeft(crc, data, cs);
    r := None;
  }
}
