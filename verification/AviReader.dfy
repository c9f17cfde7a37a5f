/** A reader of the numbers in an AVI header: every field at its place in the file. */
module AviReader {
  import opened Bytes
  import opened Riff
  import opened Avi

  // ---- cutting pieces out of a file -----------------------------------------

  lemma Middle(a: seq<Byte>, b: seq<Byte>, c: seq<Byte>)
    ensures (a + b + c)[|a|..|a| + |b|] == b
  {
  }

  lemma Within(s: seq<Byte>, i: nat, j: nat, k: nat, l: nat)
    requires i <= j <= |s| && k <= l <= j - i
    ensures s[i..j][k..l] == s[i + k..i + l]
  {
    var a, b := s[i..j][k..l], s[i + k..i + l];
    forall m | 0 <= m < |a| ensures a[m] == b[m] {
    }
  }

  /** The data of a chunk that stands at an offset. */
  lemma DataOfChunk(s: seq<Byte>, at: nat, c: Chunk)
    requires |c.tag| == 4 && at + 8 + |c.data| <= |s| && s[at..at + 8 + |c.data|] == ChunkBytes(c)
    ensures s[at + 8..at + 8 + |c.data|] == c.data
  {
    Within(s, at, at + 8 + |c.data|, 8, 8 + |c.data|);
    assert ChunkBytes(c)[8..8 + |c.data|] == c.data;
  }

  /** The members of a list that stands at an offset. */
  lemma BodyOfList(s: seq<Byte>, at: nat, kind: seq<Byte>, body: seq<Byte>)
    requires |kind| == 4 && at + 12 + |body| <= |s| && s[at..at + 12 + |body|] == ChunkBytes(ListOf(kind, body))
    ensures s[at + 12..at + 12 + |body|] == body
  {
    DataOfChunk(s, at, ListOf(kind, body));
    Within(s, at + 8, at + 12 + |body|, 4, 4 + |body|);
  }

  lemma TwoChunks(s: seq<Byte>, at: nat, a: Chunk, b: Chunk)
    requires var n := |Stream([a, b])|; at + n <= |s| && s[at..at + n] == Stream([a, b])
    requires |a.tag| == |b.tag| == 4
    ensures var m := 8 + |a.data|;
            && at + m + 8 + |b.data| <= |s|
            && s[at..at + m] == ChunkBytes(a) && s[at + m..at + m + 8 + |b.data|] == ChunkBytes(b)
  {
    StreamLength2(a, b);
    var t := ChunkBytes(a) + ChunkBytes(b);
    var m := |ChunkBytes(a)|;
    Within(s, at, at + |t|, 0, m);
    Within(s, at, at + |t|, m, |t|);
    assert t[0..m] == ChunkBytes(a) && t[m..|t|] == ChunkBytes(b);
  }

  lemma ThreeChunks(s: seq<Byte>, at: nat, a: seq<Byte>, b: seq<Byte>, c: seq<Byte>)
    requires at + |a| + |b| + |c| <= |s| && s[at..at + |a| + |b| + |c|] == a + b + c
    ensures s[at..at + |a|] == a && s[at + |a|..at + |a| + |b|] == b
    ensures s[at + |a| + |b|..at + |a| + |b| + |c|] == c
  {
    var t, m, n := a + b + c, |a|, |a| + |b|;
    Within(s, at, at + |t|, 0, m);
    Within(s, at, at + |t|, m, n);
    Within(s, at, at + |t|, n, |t|);
    assert t[0..m] == a && t[m..n] == b && t[n..|t|] == c;
  }

  // ---- where the header chunks are ------------------------------------------

  ghost predicate At(f: seq<Byte>, at: nat, data: seq<Byte>) {
    at + |data| <= |f| && f[at..at + |data|] == data
  }

  lemma HeaderAt(l: Leaves, junk: seq<Byte>, es: seq<Entry>)
    requires LeavesOk(l) && EntriesOk(es) && |junk| == JUNK_SIZE
    ensures var f := FileBytes(HeaderList(l), junk, es);
            |f| >= AVI_HEADER_SIZE && f[12..312] == ChunkBytes(HeaderList(l))
  {
    var h := HeaderList(l);
    Layout(h, junk, es);
    var a := T_RIFF + LE(FileLength(es) - 8, 4) + T_AVI;
    var c := T_JUNK + LE(|junk|, 4) + junk + T_LIST + LE(4 + |Movi(es)|, 4) + T_MOVI + Movi(es) + Index(es);
    Gather(a + ChunkBytes(h), T_JUNK, LE(|junk|, 4), junk, T_LIST, LE(4 + |Movi(es)|, 4), T_MOVI, Movi(es), Index(es));
    Middle(a, ChunkBytes(h), c);
  }

  lemma Gather(x: seq<Byte>, a: seq<Byte>, b: seq<Byte>, c: seq<Byte>, d: seq<Byte>, e: seq<Byte>, f: seq<Byte>,
               g: seq<Byte>, h: seq<Byte>)
    ensures x + a + b + c + d + e + f + g + h == x + (a + b + c + d + e + f + g + h)
  {
  }

  /** The five chunks that hold numbers, in any file that starts with the header list. */
  lemma LeavesAt(f: seq<Byte>, l: Leaves)
    requires LeavesOk(l) && |f| >= AVI_HEADER_SIZE && f[12..312] == ChunkBytes(HeaderList(l))
    ensures At(f, 32, l.main.data) && At(f, 108, l.videoHeader.data) && At(f, 172, l.videoFormat.data)
    ensures At(f, 232, l.audioHeader.data) && At(f, 296, l.audioFormat.data)
  {
    var v, a := VideoStream(l), AudioStream(l);
    Stream3(l.main, v, a);
    BodyOfList(f, 12, T_HDRL, Stream([l.main, v, a]));
    ThreeChunks(f, 24, ChunkBytes(l.main), ChunkBytes(v), ChunkBytes(a));
    DataOfChunk(f, 24, l.main);
    StreamAt(f, 88, l.videoHeader, l.videoFormat);
    StreamAt(f, 212, l.audioHeader, l.audioFormat);
  }

  lemma StreamAt(f: seq<Byte>, at: nat, header: Chunk, format: Chunk)
    requires |header.tag| == |format.tag| == 4 && |header.data| == 56
    requires var c := ListOf(T_STRL, Stream([header, format]));
             at + 8 + |c.data| <= |f| && f[at..at + 8 + |c.data|] == ChunkBytes(c)
    ensures At(f, at + 20, header.data) && At(f, at + 84, format.data)
  {
    BodyOfList(f, at, T_STRL, Stream([header, format]));
    TwoChunks(f, at + 12, header, format);
    DataOfChunk(f, at + 12, header);
    DataOfChunk(f, at + 76, format);
  }

  // ---- numbers --------------------------------------------------------------

  /** The numbers stand in the file one after the other. */
  ghost predicate NumbersAt(f: seq<Byte>, at: nat, ns: seq<nat>) {
    forall i: nat {:trigger ns[i]} :: i < |ns| && ns[i] < TWO32 ==>
      at + 4 * i + 4 <= |f| && U32(f, at + 4 * i) == ns[i]
  }

  lemma NumberAt(f: seq<Byte>, at: nat, n: nat, rest: seq<Byte>)
    requires At(f, at, LE(n, 4) + rest)
    ensures n < TWO32 ==> U32(f, at) == n
    ensures At(f, at + 4, rest)
  {
    PieceAt(f, at, [], LE(n, 4), rest);
    assert [] + LE(n, 4) + rest == LE(n, 4) + rest;
    PieceAt(f, at, LE(n, 4), rest, []);
    assert LE(n, 4) + rest + [] == LE(n, 4) + rest;
    if n < TWO32 {
      Pow256Of4();
      LERoundTrip(n, 4);
    }
  }

  lemma {:induction false} DWordsAt(f: seq<Byte>, at: nat, ns: seq<nat>)
    requires At(f, at, DWords(ns))
    ensures NumbersAt(f, at, ns)
    decreases |ns|
  {
    if ns != [] {
      NumberAt(f, at, ns[0], DWords(ns[1..]));
      DWordsAt(f, at + 4, ns[1..]);
      forall i: nat | i < |ns| && ns[i] < TWO32 ensures at + 4 * i + 4 <= |f| && U32(f, at + 4 * i) == ns[i] {
        if i > 0 {
          assert ns[1..][i - 1] == ns[i];
        }
      }
    }
  }

  lemma PieceAt(f: seq<Byte>, at: nat, lead: seq<Byte>, mid: seq<Byte>, tail: seq<Byte>)
    requires At(f, at, lead + mid + tail)
    ensures At(f, at + |lead|, mid)
  {
    var data := lead + mid + tail;
    Within(f, at, at + |data|, |lead|, |lead| + |mid|);
    Middle(lead, mid, tail);
  }

  // ---- the reader -----------------------------------------------------------

  /** The numbers of a capture, each from its place in `avih`, `strh` and `strf`. */
  function ReadInfo(f: seq<Byte>): Info
    requires |f| >= AVI_HEADER_SIZE
  {
    Info(U32(f, 32), U32(f, 132), U32(f, 48), U32(f, 64), U32(f, 68), U32(f, 256) / 4, U32(f, 264))
  }

  /** The other fields, which repeat or follow from these. */
  predicate Consistent(f: seq<Byte>, v: Info)
    requires |f| >= AVI_HEADER_SIZE
  {
    && U32(f, 44) == 0x110 && U32(f, 56) == 2                                  // flags, streams
    && U32(f, 128) == 1000000 && U32(f, 140) == v.frames                       // scale and length of the video
    && U32(f, 172) == 40 && U32(f, 176) == v.width && U32(f, 180) == v.height
    && (v.width * v.height * 4 < TWO32 ==> U32(f, 192) == v.width * v.height * 4)
    && U32(f, 252) == 4 && U32(f, 256) == 4 * v.audioRate && U32(f, 276) == 4  // scale, rate, size of the sound
    && U32(f, 300) == (if v.audioRate == 0 then 1 else v.audioRate) && U32(f, 304) == 4 * U32(f, 300)
    && U16(f, 296) == 1 && U16(f, 298) == 2 && U16(f, 308) == 4 && U16(f, 310) == 16  // PCM, stereo, 4 bytes, 16 bits
    && f[108..112] == T_VIDS && f[112..116] == f[188..192] == T_ZMBV && f[232..236] == T_AUDS
  }

  predicate InfoFits(v: Info) {
    && v.usPerFrame < TWO32 && v.rate < TWO32 && v.frames < TWO32 && v.width < TWO32 && v.height < TWO32
    && 4 * v.audioRate < TWO32 && v.audioLength < TWO32
  }

  lemma MainFields(f: seq<Byte>, v: Info)
    requires At(f, 32, MainHeader(v).data) && InfoFits(v) && |f| >= AVI_HEADER_SIZE
    ensures U32(f, 32) == v.usPerFrame && U32(f, 44) == 0x110 && U32(f, 48) == v.frames
    ensures U32(f, 56) == 2 && U32(f, 64) == v.width && U32(f, 68) == v.height
  {
    var ns := [v.usPerFrame, 0, 0, 0x110, v.frames, 0, 2, 0, v.width, v.height, 0, 0, 0, 0];
    DWordsAt(f, 32, ns);
    assert ns[0] == v.usPerFrame && ns[3] == 0x110 && ns[4] == v.frames;
    assert ns[6] == 2 && ns[8] == v.width && ns[9] == v.height;
  }

  lemma VideoFields(f: seq<Byte>, v: Info)
    requires At(f, 108, VideoHeader(v).data) && InfoFits(v) && |f| >= AVI_HEADER_SIZE
    ensures f[108..112] == T_VIDS && f[112..116] == T_ZMBV
    ensures U32(f, 128) == 1000000 && U32(f, 132) == v.rate && U32(f, 140) == v.frames
  {
    var ns := [0, 0, 0, 1000000, v.rate, 0, v.frames, 0, 0xffff_ffff, 0, 0, 0];
    CodeBlock(f, 108, T_VIDS, T_ZMBV, ns);
    assert ns[3] == 1000000 && ns[4] == v.rate && ns[6] == v.frames;
  }

  /** Two pieces and a block of numbers. */
  lemma CodeBlock(f: seq<Byte>, at: nat, a: seq<Byte>, b: seq<Byte>, ns: seq<nat>)
    requires At(f, at, a + b + DWords(ns))
    ensures At(f, at, a) && At(f, at + |a|, b) && NumbersAt(f, at + |a| + |b|, ns)
  {
    ThreeChunks(f, at, a, b, DWords(ns));
    DWordsAt(f, at + |a| + |b|, ns);
  }

  lemma FormatFields(f: seq<Byte>, v: Info)
    requires At(f, 172, VideoFormat(v).data) && InfoFits(v) && |f| >= AVI_HEADER_SIZE
    ensures f[188..192] == T_ZMBV && U32(f, 172) == 40 && U32(f, 176) == v.width && U32(f, 180) == v.height
    ensures v.width * v.height * 4 < TWO32 ==> U32(f, 192) == v.width * v.height * 4
  {
    var size := [40, v.width, v.height, 0];
    var image := [v.width * v.height * 4, 0, 0, 0, 0];
    ImageBlocks(f, size, image);
    assert size[0] == 40 && size[1] == v.width && size[2] == v.height;
    assert image[0] == v.width * v.height * 4;
  }

  lemma ImageBlocks(f: seq<Byte>, size: seq<nat>, image: seq<nat>)
    requires At(f, 172, DWords(size) + T_ZMBV + DWords(image)) && |size| == 4
    ensures NumbersAt(f, 172, size) && At(f, 188, T_ZMBV) && NumbersAt(f, 192, image)
  {
    ThreeChunks(f, 172, DWords(size), T_ZMBV, DWords(image));
    DWordsAt(f, 172, size);
    DWordsAt(f, 192, image);
  }

  lemma SoundFields(f: seq<Byte>, v: Info)
    requires At(f, 232, AudioHeader(v).data) && InfoFits(v) && |f| >= AVI_HEADER_SIZE
    ensures f[232..236] == T_AUDS
    ensures U32(f, 252) == 4 && U32(f, 256) == 4 * v.audioRate && U32(f, 264) == v.audioLength && U32(f, 276) == 4
  {
    var ns := [0, 0, 0, 0, 4, v.audioRate * 4, 0, v.audioLength, 0, 0xffff_ffff, 4, 0, 0];
    assert T_AUDS + [] == T_AUDS;
    CodeBlock(f, 232, T_AUDS, [], ns);
    assert ns[4] == 4 && ns[5] == v.audioRate * 4 && ns[7] == v.audioLength && ns[10] == 4;
  }

  lemma SampleFields(f: seq<Byte>, v: Info)
    requires At(f, 296, AudioFormat(v).data) && InfoFits(v) && |f| >= AVI_HEADER_SIZE
    ensures U32(f, 300) == (if v.audioRate == 0 then 1 else v.audioRate) && U32(f, 304) == 4 * U32(f, 300)
    ensures U16(f, 296) == 1 && U16(f, 298) == 2 && U16(f, 308) == 4 && U16(f, 310) == 16
  {
    var rate := if v.audioRate == 0 then 1 else v.audioRate;
    var ns := [rate, rate * 4];
    SampleBlock(f, ns, LE(1, 2), LE(2, 2), LE(4, 2), LE(16, 2));
    assert ns[0] == rate && ns[1] == rate * 4;
    SmallNumbers();
  }

  lemma SmallNumbers()
    ensures FromLE(LE(1, 2)) == 1 && FromLE(LE(2, 2)) == 2 && FromLE(LE(4, 2)) == 4 && FromLE(LE(16, 2)) == 16
  {
    assert Pow256(1) == 256 && Pow256(2) == 65536;
    LERoundTrip(1, 2);
    LERoundTrip(2, 2);
    LERoundTrip(4, 2);
    LERoundTrip(16, 2);
  }

  lemma SampleBlock(f: seq<Byte>, ns: seq<nat>, a: seq<Byte>, b: seq<Byte>, c: seq<Byte>, d: seq<Byte>)
    requires |a| == |b| == |c| == |d| == 2 && |ns| == 2 && At(f, 296, a + b + DWords(ns) + c + d)
    ensures At(f, 296, a) && At(f, 298, b) && NumbersAt(f, 300, ns) && At(f, 308, c) && At(f, 310, d)
  {
    ThreeChunks(f, 296, a + b + DWords(ns), c, d);
    CodeBlock(f, 296, a, b, ns);
  }

  /** The header of a finished file says what was captured: every number reads back from its own place. */
  lemma InfoReadsBack(v: Info, junk: seq<Byte>, es: seq<Entry>)
    requires InfoFits(v) && EntriesOk(es) && |junk| == JUNK_SIZE
    ensures var f := FileBytes(HeaderList(LeavesOf(v)), junk, es);
            |f| >= AVI_HEADER_SIZE && ReadInfo(f) == v && Consistent(f, v)
  {
    var f, l := FileBytes(HeaderList(LeavesOf(v)), junk, es), LeavesOf(v);
    HeaderAt(l, junk, es);
    LeavesAt(f, l);
    MainFields(f, v);
    VideoFields(f, v);
    FormatFields(f, v);
    SoundFields(f, v);
    SampleFields(f, v);
  }

  // ---- tags -----------------------------------------------------------------

  /** The four-letter codes by their letters. */
  lemma Tags()
    ensures T_RIFF == Ascii("RIFF") && T_AVI == Ascii("AVI ") && T_LIST == Ascii("LIST") && T_HDRL == Ascii("hdrl")
    ensures T_AVIH == Ascii("avih") && T_STRL == Ascii("strl") && T_STRH == Ascii("strh") && T_STRF == Ascii("strf")
    ensures T_VIDS == Ascii("vids") && T_AUDS == Ascii("auds") && T_ZMBV == Ascii("ZMBV") && T_JUNK == Ascii("JUNK")
    ensures T_MOVI == Ascii("movi") && T_IDX1 == Ascii("idx1") && T_VIDEO == Ascii("00dc") && T_AUDIO == Ascii("01wb")
  {
  }
}
