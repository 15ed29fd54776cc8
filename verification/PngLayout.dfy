/** The PNG grammar seen from above: which chunk stands where in a complete list. */
module PngLayout {
  import opened Wrappers
  import opened BigEndian
  import opened Png

  /** A palette of whole entries, for colour types that take one; indexed colours need no more entries
      than their depth can name. */
  predicate Palette(h: Header, size: nat) {
    && (h.color == 2 || h.color == 3 || h.color == 6) && 3 <= size <= 768 && size % 3 == 0
    && (h.color == 3 ==>
          && (h.depth == 1 ==> size <= 6)
          && (h.depth == 2 ==> size <= 12)
          && (h.depth == 4 ==> size <= 48))
  }

  /** A chunk a reader may skip: its name begins with a small letter and is not acTL, fcTL or fdAT. */
  predicate Skippable(kind: seq<byte>) {
    && |kind| == 4 && 97 <= kind[0] <= 122
    && kind != [97, 99, 84, 76] && kind != [102, 99, 84, 76] && kind != [102, 100, 65, 84]
  }

  /** Image data are chunks d to e - 1 and no others, and some of it is not empty. */
  predicate DataAt(cs: seq<Chunk>, d: nat, e: nat) {
    && 1 <= d < e < |cs|
    && (forall i :: 0 <= i < |cs| ==> (cs[i].kind == [73, 68, 65, 84] <==> d <= i < e))
    && (exists i :: d <= i < e && cs[i].body != [])
  }

  /** Between header and end stand image data, at most one palette, before them, and chunks to skip. */
  predicate Between(cs: seq<Chunk>, h: Header, d: nat, e: nat) {
    && (forall i :: 1 <= i < |cs| - 1 && !(d <= i < e) ==>
          || Skippable(cs[i].kind)
          || (cs[i].kind == [80, 76, 84, 69] && i < d && Palette(h, |cs[i].body|)))
    && (forall i, j :: 0 <= i < j < |cs| ==> !(cs[i].kind == cs[j].kind == [80, 76, 84, 69]))
    && (h.color == 3 ==> exists i :: 0 <= i < |cs| && cs[i].kind == [80, 76, 84, 69])
  }

  predicate Letters(kind: seq<byte>) {
    && |kind| == 4 && (forall i :: 0 <= i < 4 ==> 65 <= kind[i] <= 90 || 97 <= kind[i] <= 122)
    && 65 <= kind[2] <= 90
  }

  /** Header, anything skippable and perhaps a palette, one run of image data, anything skippable, end. */
  ghost predicate LaidOut(cs: seq<Chunk>) {
    && 3 <= |cs| <= 4096 && (forall i :: 0 <= i < |cs| ==> Letters(cs[i].kind) && |cs[i].body| < 4294967296)
    && cs[0].kind == [73, 72, 68, 82] && ReadHeader(cs[0].body).Some?
    && cs[|cs| - 1] == Chunk([73, 69, 78, 68], [])
    && exists d, e :: DataAt(cs, d, e) && Between(cs, ReadHeader(cs[0].body).value, d, e)
  }

  lemma PaletteIff(h: Header, size: nat)
    requires h.color in {0, 2, 3, 4, 6} && (h.color == 3 ==> h.depth in {1, 2, 4, 8})
    ensures PaletteFits(h, size) <==> Palette(h, size)
  {
    assert Power2(1) == 2;
    assert Power2(2) == 4;
    assert Power2(4) == 16;
    assert Power2(8) == 256 by { assert Power2(6) == 64; }
  }

  lemma HeaderColors(body: seq<byte>)
    requires ReadHeader(body).Some?
    ensures var h := ReadHeader(body).value; h.color in {0, 2, 3, 4, 6} && (h.color == 3 ==> h.depth in {1, 2, 4, 8})
  {
  }

  lemma OptionalIff(kind: seq<byte>)
    requires |kind| == 4
    ensures Optional(kind) <==> kind == IHDR || kind == PLTE || kind == IDAT || kind == IEND || Skippable(kind)
  {
  }

  /** Where image data begin, given some. */
  lemma {:induction false} FirstData(cs: seq<Chunk>, i: nat) returns (d: nat)
    requires i < |cs| && cs[i].kind == IDAT
    ensures d <= i && cs[d].kind == IDAT && forall k :: 0 <= k < d ==> cs[k].kind != IDAT
  {
    d := 0;
    while cs[d].kind != IDAT
      invariant d <= i && forall k :: 0 <= k < d ==> cs[k].kind != IDAT
      decreases i - d
    {
      d := d + 1;
    }
  }

  lemma {:induction false} LastData(cs: seq<Chunk>, i: nat) returns (e: nat)
    requires i < |cs| && cs[i].kind == IDAT
    ensures i < e <= |cs| && cs[e - 1].kind == IDAT && forall k :: e <= k < |cs| ==> cs[k].kind != IDAT
  {
    e := |cs|;
    while cs[e - 1].kind != IDAT
      invariant i < e <= |cs| && forall k :: e <= k < |cs| ==> cs[k].kind != IDAT
      decreases e
    {
      e := e - 1;
    }
  }

  /** A list is complete exactly when it is laid out like this. */
  lemma {:induction false} CompleteIff(cs: seq<Chunk>)
    ensures Complete(cs) && AllNamed(cs) <==> LaidOut(cs)
  {
    if Complete(cs) && AllNamed(cs) { CompleteIsLaidOut(cs); }
    if LaidOut(cs) { LaidOutIsComplete(cs); }
  }

  lemma CompleteIsLaidOut(cs: seq<Chunk>)
    requires Complete(cs) && AllNamed(cs)
    ensures LaidOut(cs)
  {
    hide ReadHeader, Between, DataAt, OnePalette, OneDataRun, PaletteInTime, OnlyOptional;
    var open := cs[..|cs| - 1];
    assert forall i :: 0 <= i < |open| ==> open[i] == cs[i];
    assert |open| >= 2 by { assert open[0].kind == IHDR; }
    var i :| 0 <= i < |open| && open[i].kind == IDAT && open[i].body != [];
    var d := FirstData(open, i);
    var e := LastData(open, i);
    DataRun(cs, d, e, i);
    HeaderColors(cs[0].body);
    InBetween(cs, d, e);
  }

  lemma DataRun(cs: seq<Chunk>, d: nat, e: nat, i: nat)
    requires Complete(cs) && d <= i < e <= |cs| - 1 && cs[i].body != []
    requires cs[d].kind == cs[e - 1].kind == IDAT
    requires (forall k :: 0 <= k < d ==> cs[k].kind != IDAT) && forall k :: e <= k < |cs| - 1 ==> cs[k].kind != IDAT
    ensures DataAt(cs, d, e)
  {
    hide PaletteFits, ReadHeader, PaletteInTime, OnePalette, OnlyOptional;
    var open := cs[..|cs| - 1];
    assert forall k :: 0 <= k < |open| ==> open[k] == cs[k];
    forall k | d <= k < e ensures cs[k].kind == IDAT {
      if d < k < e - 1 { assert open[d].kind == IDAT && open[e - 1].kind == IDAT; }
    }
  }

  lemma InBetween(cs: seq<Chunk>, d: nat, e: nat)
    requires Complete(cs) && AllNamed(cs) && DataAt(cs, d, e) && ReadHeader(cs[0].body).Some?
    requires var h := ReadHeader(cs[0].body).value; h.color in {0, 2, 3, 4, 6} && (h.color == 3 ==> h.depth in {1, 2, 4, 8})
    ensures Between(cs, ReadHeader(cs[0].body).value, d, e)
  {
    hide PaletteFits, ReadHeader, Skippable, Palette, Optional;
    var h := ReadHeader(cs[0].body).value;
    var open := cs[..|cs| - 1];
    assert forall k :: 0 <= k < |open| ==> open[k] == cs[k];
    assert HeaderOf(open) == h;
    forall i | 1 <= i < |cs| - 1 && !(d <= i < e)
      ensures Skippable(cs[i].kind) || (cs[i].kind == PLTE && i < d && Palette(h, |cs[i].body|))
    {
      assert Named(open[i]) && open[i].kind != IHDR && open[i].kind != IEND;
      OptionalIff(open[i].kind);
      if open[i].kind == PLTE {
        PaletteIff(h, |open[i].body|);
        assert forall k :: 0 <= k < i ==> open[k].kind != IDAT;
        assert open[d].kind == IDAT;
      }
    }
    if h.color == 3 {
      assert open[d].kind == IDAT;
      var j :| 0 <= j < d && open[..d][j].kind == PLTE;
      assert cs[j].kind == PLTE;
    }
  }

  lemma LaidOutIsComplete(cs: seq<Chunk>)
    requires LaidOut(cs)
    ensures Complete(cs) && AllNamed(cs)
  {
    var h := ReadHeader(cs[0].body).value;
    HeaderColors(cs[0].body);
    var d, e :| DataAt(cs, d, e) && Between(cs, h, d, e);
    var open := cs[..|cs| - 1];
    assert forall k :: 0 <= k < |open| ==> open[k] == cs[k];
    hide ReadHeader;
    Kinds(cs, h, d, e);
    OpenHeader(cs, h);
    OpenPalette(cs, h, d, e);
    OpenData(cs, d, e);
    var i :| d <= i < e && cs[i].body != [];
    assert open[i].kind == IDAT;
  }

  /** Only the first chunk is a header, only the last an end, and what is between is optional. */
  lemma Kinds(cs: seq<Chunk>, h: Header, d: nat, e: nat)
    requires LaidOut(cs) && DataAt(cs, d, e) && Between(cs, h, d, e)
    ensures forall i :: 1 <= i < |cs| - 1 ==> cs[i].kind != IHDR && cs[i].kind != IEND && Optional(cs[i].kind)
    ensures AllNamed(cs)
  {
    hide ReadHeader, Palette;
  }

  lemma OpenHeader(cs: seq<Chunk>, h: Header)
    requires |cs| >= 3 && cs[0].kind == IHDR && ReadHeader(cs[0].body) == Some(h) && forall i :: 1 <= i < |cs| - 1 ==> cs[i].kind != IHDR
    ensures HeaderFirst(cs[..|cs| - 1]) && HeaderOf(cs[..|cs| - 1]) == h
  {
    hide ReadHeader;
  }

  lemma OpenPalette(cs: seq<Chunk>, h: Header, d: nat, e: nat)
    requires LaidOut(cs) && DataAt(cs, d, e) && Between(cs, h, d, e) && HeaderFirst(cs[..|cs| - 1]) && HeaderOf(cs[..|cs| - 1]) == h
    requires h.color in {0, 2, 3, 4, 6} && (h.color == 3 ==> h.depth in {1, 2, 4, 8})
    ensures OnePalette(cs[..|cs| - 1]) && PaletteInTime(cs[..|cs| - 1])
  {
    hide ReadHeader, PaletteFits, Palette;
    var open := cs[..|cs| - 1];
    forall i | 0 <= i < |open| && open[i].kind == PLTE ensures PaletteFits(h, |open[i].body|) && i < d {
      assert cs[i].kind == PLTE && !Skippable(cs[i].kind);
      PaletteIff(h, |cs[i].body|);
    }
    forall i | 0 <= i < |open| && open[i].kind == IDAT && h.color == 3 ensures Has(open[..i], PLTE) {
      assert cs[i].kind == IDAT && d <= i;
      var j :| 0 <= j < |cs| && cs[j].kind == PLTE;
      assert j < d && open[..i][j].kind == PLTE;
    }
    forall i, j | 0 <= i < j < |open| && open[j].kind == PLTE ensures open[i].kind != PLTE && open[i].kind != IDAT {
      assert cs[i] == open[i] && cs[j] == open[j];
    }
  }

  lemma OpenData(cs: seq<Chunk>, d: nat, e: nat)
    requires DataAt(cs, d, e)
    ensures OneDataRun(cs[..|cs| - 1])
  {
  }

  /** Where the parts of a chunk stand: the length of its body and the checksum of name and body, most
      significant byte first, around name and body. */
  lemma ChunkStands(crc: Checksum, c: Chunk, all: seq<byte>)
    requires Named(c) && ChunkBytes(crc, c) <= all
    ensures var n := |c.body|;
            && |all| >= n + 12 && n == all[0] as int * 16777216 + all[1] as int * 65536 + all[2] as int * 256 + all[3] as int
            && c == Chunk(all[4..8], all[8..n + 8])
            && crc(all[4..n + 8]) == all[n + 8] as int * 16777216 + all[n + 9] as int * 65536 + all[n + 10] as int * 256 + all[n + 11] as int
  {
    var n := |c.body|;
    Fields(crc, c, all);
    assert all[4..n + 8] == c.kind + c.body;
    WordStands(all, 0, n);
    WordStands(all, n + 8, crc(c.kind + c.body));
  }

  lemma WordStands(all: seq<byte>, i: nat, w: Word)
    requires |all| >= i + 4 && all[i..i + 4] == Put32(w)
    ensures w == all[i] as int * 16777216 + all[i + 1] as int * 65536 + all[i + 2] as int * 256 + all[i + 3] as int
  {
    GetPut(w);
    assert all[i..i + 4] == [all[i], all[i + 1], all[i + 2], all[i + 3]];
  }
}
