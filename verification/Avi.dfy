/** The AVI capture writer: a stream of data chunks, an index that grows beside it, and a 500-byte
    header put in front once the capture ends. */
module Avi {
  import opened Bytes
  import opened Riff

  const AVI_HEADER_SIZE := 500
  const JUNK_SIZE := 168

  const T_AVI: seq<Byte> := [0x41, 0x56, 0x49, 0x20]
  const T_LIST: seq<Byte> := [0x4c, 0x49, 0x53, 0x54]
  const T_HDRL: seq<Byte> := [0x68, 0x64, 0x72, 0x6c]
  const T_AVIH: seq<Byte> := [0x61, 0x76, 0x69, 0x68]
  const T_STRL: seq<Byte> := [0x73, 0x74, 0x72, 0x6c]
  const T_STRH: seq<Byte> := [0x73, 0x74, 0x72, 0x68]
  const T_STRF: seq<Byte> := [0x73, 0x74, 0x72, 0x66]
  const T_VIDS: seq<Byte> := [0x76, 0x69, 0x64, 0x73]
  const T_AUDS: seq<Byte> := [0x61, 0x75, 0x64, 0x73]
  const T_ZMBV: seq<Byte> := [0x5a, 0x4d, 0x42, 0x56]
  const T_JUNK: seq<Byte> := [0x4a, 0x55, 0x4e, 0x4b]
  const T_MOVI: seq<Byte> := [0x6d, 0x6f, 0x76, 0x69]
  const T_IDX1: seq<Byte> := [0x69, 0x64, 0x78, 0x31]
  const T_VIDEO: seq<Byte> := [0x30, 0x30, 0x64, 0x63]
  const T_AUDIO: seq<Byte> := [0x30, 0x31, 0x77, 0x62]

  // ---- data chunks and index ------------------------------------------------

  /** One call of `add_avi_chunk`. */
  datatype Entry = Entry(chunk: Chunk, flags: nat)

  predicate EntryOk(e: Entry) {
    ChunkOk(e.chunk) && e.flags < TWO32
  }

  predicate EntriesOk(es: seq<Entry>) {
    forall i :: 0 <= i < |es| ==> EntryOk(es[i])
  }

  function Chunks(es: seq<Entry>): (cs: seq<Chunk>)
    ensures |cs| == |es| && forall i :: 0 <= i < |es| ==> cs[i] == es[i].chunk
  {
    seq(|es|, i requires 0 <= i < |es| => es[i].chunk)
  }

  function Movi(es: seq<Entry>): seq<Byte> {
    Stream(Chunks(es))
  }

  /** One 16-byte index entry; `pos` counts from the "movi" tag. */
  function EntryBytes(e: Entry, pos: nat): (s: seq<Byte>)
    ensures |e.chunk.tag| == 4 ==> |s| == 16
  {
    e.chunk.tag + LE(e.flags, 4) + LE(pos, 4) + LE(e.chunk.size, 4)
  }

  function IndexBytes(es: seq<Entry>): (s: seq<Byte>)
    requires EntriesOk(es)
    ensures |s| == 16 * |es|
  {
    if es == [] then []
    else
      var k := |es| - 1;
      IndexBytes(es[..k]) + EntryBytes(es[k], Position(es, k))
  }

  /** Where chunk `k` starts, counted from the "movi" tag. */
  function Position(es: seq<Entry>, k: nat): (p: nat)
    requires k <= |es|
  {
    4 + |Movi(es[..k])|
  }

  lemma MoviAppend(es: seq<Entry>, e: Entry)
    ensures Movi(es + [e]) == Movi(es) + ChunkBytes(e.chunk)
  {
    assert Chunks(es + [e]) == Chunks(es) + [e.chunk];
    StreamAppend(Chunks(es), e.chunk);
  }

  lemma IndexAppend(es: seq<Entry>, e: Entry)
    requires EntriesOk(es) && EntryOk(e)
    ensures IndexBytes(es + [e]) == IndexBytes(es) + EntryBytes(e, 4 + |Movi(es)|)
  {
    assert (es + [e])[..|es|] == es;
  }

  lemma {:induction false} IndexEntryAt(es: seq<Entry>, k: nat)
    requires EntriesOk(es) && k < |es|
    ensures IndexBytes(es)[16 * k..16 * k + 16] == EntryBytes(es[k], Position(es, k))
    decreases |es|
  {
    var n := |es| - 1;
    SliceOfJoin(IndexBytes(es[..n]), EntryBytes(es[n], Position(es, n)), 16 * k, 16 * k + 16);
    if k < n {
      IndexEntryAt(es[..n], k);
      assert es[..n][..k] == es[..k];
    }
  }

  /** A slice that lies in the first part, or is the whole second part. */
  lemma SliceOfJoin(s: seq<Byte>, t: seq<Byte>, i: nat, j: nat)
    requires i <= j <= |s| + |t|
    ensures j <= |s| ==> (s + t)[i..j] == s[i..j]
    ensures i == |s| && j == |s| + |t| ==> (s + t)[i..j] == t
  {
  }

  // ---- the finished file ----------------------------------------------------

  /** The numbers the header takes from the capture. */
  datatype Info = Info(usPerFrame: nat, rate: nat, frames: nat, width: nat, height: nat,
                       audioRate: nat, audioLength: nat)

  function DWords(ns: seq<nat>): (s: seq<Byte>)
    ensures |s| == 4 * |ns|
  {
    if ns == [] then [] else LE(ns[0], 4) + DWords(ns[1..])
  }

  function MainHeader(v: Info): (c: Chunk)
    ensures ChunkOk(c) && |c.data| == 56
  {
    Chunk(T_AVIH, 56, DWords([v.usPerFrame, 0, 0, 0x110, v.frames, 0, 2, 0, v.width, v.height, 0, 0, 0, 0]))
  }

  function VideoHeader(v: Info): (c: Chunk)
    ensures ChunkOk(c) && |c.data| == 56
  {
    Chunk(T_STRH, 56, T_VIDS + T_ZMBV
                      + DWords([0, 0, 0, 1000000, v.rate, 0, v.frames, 0, 0xffff_ffff, 0, 0, 0]))
  }

  function VideoFormat(v: Info): (c: Chunk)
    ensures ChunkOk(c) && |c.data| == 40
  {
    Chunk(T_STRF, 40, DWords([40, v.width, v.height, 0]) + T_ZMBV
                      + DWords([v.width * v.height * 4, 0, 0, 0, 0]))
  }

  function AudioHeader(v: Info): (c: Chunk)
    ensures ChunkOk(c) && |c.data| == 56
  {
    Chunk(T_STRH, 56, T_AUDS + DWords([0, 0, 0, 0, 4, v.audioRate * 4, 0, v.audioLength, 0, 0xffff_ffff, 4, 0, 0]))
  }

  /** A rate of zero is written as one here, though not in the stream header. */
  function AudioFormat(v: Info): (c: Chunk)
    ensures ChunkOk(c) && |c.data| == 16
  {
    var rate := if v.audioRate == 0 then 1 else v.audioRate;
    Chunk(T_STRF, 16, LE(1, 2) + LE(2, 2) + DWords([rate, rate * 4]) + LE(4, 2) + LE(16, 2))
  }

  /** A list chunk around its members. */
  function ListOf(kind: seq<Byte>, body: seq<Byte>): (c: Chunk) {
    Chunk(T_LIST, |kind| + |body|, kind + body)
  }

  lemma StreamLength2(a: Chunk, b: Chunk)
    ensures Stream([a, b]) == ChunkBytes(a) + ChunkBytes(b)
  {
    assert [a, b] == [a] + [b];
    assert Stream([]) == [];
    StreamAppend([], a);
    assert [] + [a] == [a];
    StreamAppend([a], b);
  }

  /** The five chunks of the header that hold fields. */
  datatype Leaves = Leaves(main: Chunk, videoHeader: Chunk, videoFormat: Chunk, audioHeader: Chunk, audioFormat: Chunk)

  predicate LeavesOk(l: Leaves) {
    && ChunkOk(l.main) && ChunkOk(l.videoHeader) && ChunkOk(l.videoFormat)
    && ChunkOk(l.audioHeader) && ChunkOk(l.audioFormat)
    && |l.main.data| == 56 && |l.videoHeader.data| == 56 && |l.videoFormat.data| == 40
    && |l.audioHeader.data| == 56 && |l.audioFormat.data| == 16
  }

  function LeavesOf(v: Info): (l: Leaves)
    ensures LeavesOk(l)
  {
    Leaves(MainHeader(v), VideoHeader(v), VideoFormat(v), AudioHeader(v), AudioFormat(v))
  }

  function VideoStream(l: Leaves): (c: Chunk)
    requires LeavesOk(l)
    ensures ChunkOk(c) && |c.data| == 116
  {
    StreamLength2(l.videoHeader, l.videoFormat);
    ListOf(T_STRL, Stream([l.videoHeader, l.videoFormat]))
  }

  function AudioStream(l: Leaves): (c: Chunk)
    requires LeavesOk(l)
    ensures ChunkOk(c) && |c.data| == 92
  {
    StreamLength2(l.audioHeader, l.audioFormat);
    ListOf(T_STRL, Stream([l.audioHeader, l.audioFormat]))
  }

  function HeaderList(l: Leaves): (c: Chunk)
    requires LeavesOk(l)
    ensures IsHeaderList(c)
  {
    Stream3(l.main, VideoStream(l), AudioStream(l));
    ListOf(T_HDRL, Stream([l.main, VideoStream(l), AudioStream(l)]))
  }

  lemma Stream3(a: Chunk, b: Chunk, c: Chunk)
    ensures Stream([a, b, c]) == ChunkBytes(a) + ChunkBytes(b) + ChunkBytes(c)
  {
    assert [a, b] + [c] == [a, b, c];
    StreamLength2(a, b);
    StreamAppend([a, b], c);
  }

  /** A header list of the size that fills the 500 bytes. */
  predicate IsHeaderList(h: Chunk) {
    ChunkOk(h) && h.tag == T_LIST && |h.data| == 292
  }

  /** The members of the RIFF chunk: header list, padding, data list and index. */
  function Members(h: Chunk, junk: seq<Byte>, es: seq<Entry>): (cs: seq<Chunk>)
    requires EntriesOk(es)
    ensures |cs| == 4
  {
    [h, Chunk(T_JUNK, |junk|, junk), ListOf(T_MOVI, Movi(es)), Chunk(T_IDX1, 16 * |es|, IndexBytes(es))]
  }

  function RiffOf(body: seq<Byte>): (c: Chunk) {
    Chunk(T_RIFF, 4 + |body|, T_AVI + body)
  }

  function FileBytes(h: Chunk, junk: seq<Byte>, es: seq<Entry>): seq<Byte>
    requires EntriesOk(es)
  {
    ChunkBytes(RiffOf(Stream(Members(h, junk, es))))
  }

  /** The first 500 bytes of the file. */
  function Front(h: Chunk, junk: seq<Byte>, riffSize: nat, moviSize: nat): (s: seq<Byte>)
    requires IsHeaderList(h)
    ensures |s| == 332 + |junk|
  {
    T_RIFF + LE(riffSize, 4) + T_AVI + ChunkBytes(h) + T_JUNK + LE(|junk|, 4) + junk
    + T_LIST + LE(moviSize, 4) + T_MOVI
  }

  function Index(es: seq<Entry>): (s: seq<Byte>)
    requires EntriesOk(es)
    ensures |s| == 8 + 16 * |es|
  {
    T_IDX1 + LE(16 * |es|, 4) + IndexBytes(es)
  }

  lemma Stream4(cs: seq<Chunk>)
    requires |cs| == 4
    ensures Stream(cs) == ChunkBytes(cs[0]) + ChunkBytes(cs[1]) + ChunkBytes(cs[2]) + ChunkBytes(cs[3])
  {
    assert [cs[0], cs[1]] + [cs[2], cs[3]] == cs;
    StreamConcat([cs[0], cs[1]], [cs[2], cs[3]]);
    StreamLength2(cs[0], cs[1]);
    StreamLength2(cs[2], cs[3]);
  }

  function FileLength(es: seq<Entry>): nat {
    AVI_HEADER_SIZE + |Movi(es)| + 8 + 16 * |es|
  }

  lemma MembersStream(h: Chunk, junk: seq<Byte>, es: seq<Entry>)
    requires EntriesOk(es) && IsHeaderList(h) && |junk| == JUNK_SIZE
    ensures Stream(Members(h, junk, es))
            == ChunkBytes(h) + (T_JUNK + LE(|junk|, 4) + junk)
               + (T_LIST + LE(4 + |Movi(es)|, 4) + (T_MOVI + Movi(es))) + Index(es)
    ensures |Stream(Members(h, junk, es))| == FileLength(es) - 12
  {
    Stream4(Members(h, junk, es));
  }

  /** The nested chunks lie in the file as header, data and index. */
  lemma Layout(h: Chunk, junk: seq<Byte>, es: seq<Entry>)
    requires EntriesOk(es) && IsHeaderList(h) && |junk| == JUNK_SIZE
    ensures |Stream(Members(h, junk, es))| == FileLength(es) - 12
    ensures FileBytes(h, junk, es) == Front(h, junk, FileLength(es) - 8, 4 + |Movi(es)|) + Movi(es) + Index(es)
  {
    MembersStream(h, junk, es);
    Assemble(T_RIFF + LE(FileLength(es) - 8, 4), T_AVI, ChunkBytes(h), T_JUNK, LE(|junk|, 4), junk,
             T_LIST, LE(4 + |Movi(es)|, 4), T_MOVI, Movi(es), Index(es));
  }

  lemma Assemble(a: seq<Byte>, b: seq<Byte>, c: seq<Byte>, d: seq<Byte>, e: seq<Byte>, f: seq<Byte>,
                 g: seq<Byte>, h: seq<Byte>, i: seq<Byte>, j: seq<Byte>, k: seq<Byte>)
    ensures a + (b + (c + (d + e + f) + (g + h + (i + j)) + k)) == a + b + c + d + e + f + g + h + i + j + k
  {
  }

  // ---- what a reader finds --------------------------------------------------

  lemma MembersOk(h: Chunk, junk: seq<Byte>, es: seq<Entry>)
    requires EntriesOk(es) && IsHeaderList(h) && |junk| == JUNK_SIZE && FileLength(es) < TWO32
    ensures forall i :: 0 <= i < 4 ==> ChunkOk(Members(h, junk, es)[i])
  {
    var half := StreamEven(Chunks(es));
    EvenOfDouble(half + 2);
    EvenOfDouble(8 * |es|);
  }

  /** Walking a finished file by the declared, even-padded sizes visits the header list, the padding,
      the data list and the index, and ends at the end of the file; the RIFF size is the file length
      minus 8; and inside the data list the walk visits every data chunk that was added. */
  lemma SizesTile(h: Chunk, junk: seq<Byte>, es: seq<Entry>)
    requires EntriesOk(es) && IsHeaderList(h) && |junk| == JUNK_SIZE && FileLength(es) < TWO32
    ensures var f := FileBytes(h, junk, es);
            var r := RiffOf(Stream(Members(h, junk, es)));
            && r.size == |f| - 8 && Walk(f) == Walked([r])
            && f[8..12] == T_AVI && Walk(f[12..]) == Walked(Members(h, junk, es))
    ensures Members(h, junk, es)[2].data[..4] == T_MOVI
    ensures Walk(Members(h, junk, es)[2].data[4..]) == Walked(Chunks(es))
  {
    Layout(h, junk, es);
    MembersOk(h, junk, es);
    WalkStream(Members(h, junk, es));
    var half := StreamEven(Members(h, junk, es));
    TopTile(Stream(Members(h, junk, es)), half);
    WalkStream(Chunks(es));
    ListBody(T_MOVI, Movi(es));
  }

  lemma ListBody(kind: seq<Byte>, body: seq<Byte>)
    requires |kind| == 4
    ensures ListOf(kind, body).data[..4] == kind && ListOf(kind, body).data[4..] == body
  {
  }

  lemma TopTile(body: seq<Byte>, half: nat)
    requires |body| + 4 < TWO32 && |body| == 2 * half
    ensures var f := ChunkBytes(RiffOf(body));
            |f| == |body| + 12 && Walk(f) == Walked([RiffOf(body)]) && f[8..12] == T_AVI && f[12..] == body
  {
    var r := RiffOf(body);
    EvenOfDouble(half + 2);
    SingleStream(r);
    WalkStream([r]);
    Prefixes(T_RIFF, LE(r.size, 4), T_AVI, body);
  }

  lemma SingleStream(c: Chunk)
    ensures Stream([c]) == ChunkBytes(c)
  {
    StreamAppend([], c);
    assert [] + [c] == [c] && Stream([]) == [];
  }

  lemma Prefixes(a: seq<Byte>, b: seq<Byte>, c: seq<Byte>, d: seq<Byte>)
    requires |a| == |b| == |c| == 4
    ensures var s := a + b + (c + d); s[8..12] == c && s[12..] == d
  {
  }

  /** The three levels of the header list tile in the same way. */
  lemma HeaderTiles(l: Leaves)
    requires LeavesOk(l)
    ensures HeaderList(l).data[..4] == T_HDRL
    ensures Walk(HeaderList(l).data[4..]) == Walked([l.main, VideoStream(l), AudioStream(l)])
    ensures Walk(VideoStream(l).data[4..]) == Walked([l.videoHeader, l.videoFormat])
    ensures Walk(AudioStream(l).data[4..]) == Walked([l.audioHeader, l.audioFormat])
  {
    ListTiles(T_HDRL, [l.main, VideoStream(l), AudioStream(l)]);
    ListTiles(T_STRL, [l.videoHeader, l.videoFormat]);
    ListTiles(T_STRL, [l.audioHeader, l.audioFormat]);
  }

  lemma ListTiles(kind: seq<Byte>, cs: seq<Chunk>)
    requires |kind| == 4 && forall i :: 0 <= i < |cs| ==> ChunkOk(cs[i])
    ensures ListOf(kind, Stream(cs)).data[..4] == kind
    ensures Walk(ListOf(kind, Stream(cs)).data[4..]) == Walked(cs)
  {
    ListBody(kind, Stream(cs));
    WalkStream(cs);
  }

  lemma MoviSplit(es: seq<Entry>, k: nat)
    requires EntriesOk(es) && k < |es|
    ensures Position(es, k) + 8 + |es[k].chunk.data| <= 4 + |Movi(es)|
    ensures Movi(es)[Position(es, k) - 4..][..8 + |es[k].chunk.data|] == ChunkBytes(es[k].chunk)
    ensures Position(es, k + 1) == Position(es, k) + 8 + |es[k].chunk.data|
  {
    var cs := Chunks(es);
    ChunkAt(cs, k);
    assert Chunks(es[..k]) == cs[..k];
    assert es[..k + 1] == es[..k] + [es[k]];
    MoviAppend(es[..k], es[k]);
  }

  /** Entry `k` of the index at the end of a file. */
  function EntryAt(f: seq<Byte>, n: nat, k: nat): (s: seq<Byte>)
    requires k < n && 16 * n <= |f|
    ensures |s| == 16
  {
    f[|f| - 16 * (n - k)..][..16]
  }

  /** Every index entry leads, counted from the "movi" tag, to the header of its chunk, and carries
      the same tag and size; chunk ranges follow one another, so no two overlap. */
  lemma IndexAgreement(h: Chunk, junk: seq<Byte>, es: seq<Entry>, k: nat)
    requires EntriesOk(es) && IsHeaderList(h) && |junk| == JUNK_SIZE && FileLength(es) < TWO32 && k < |es|
    ensures var f := FileBytes(h, junk, es);
            && |f| == FileLength(es) && f[AVI_HEADER_SIZE - 4..][..4] == T_MOVI
            && Leads(f, EntryAt(f, |es|, k), es[k])
    ensures U32(EntryAt(FileBytes(h, junk, es), |es|, k), 8) == Position(es, k)
    ensures Position(es, k + 1) == Position(es, k) + 8 + Even(es[k].chunk.size) <= 4 + |Movi(es)|
  {
    Layout(h, junk, es);
    FrontEnds(h, junk, FileLength(es) - 8, 4 + |Movi(es)|);
    MoviSplit(es, k);
    AgreesIn(Front(h, junk, FileLength(es) - 8, 4 + |Movi(es)|), es, k);
  }

  /** An index entry names a chunk of the file. */
  predicate Leads(f: seq<Byte>, e: seq<Byte>, c: Entry)
    requires |e| == 16
  {
    var at := AVI_HEADER_SIZE - 4 + U32(e, 8);
    && e[..4] == c.chunk.tag && U32(e, 4) == c.flags && U32(e, 12) == c.chunk.size
    && at + 8 + |c.chunk.data| <= |f| && f[at..][..8 + |c.chunk.data|] == ChunkBytes(c.chunk)
  }

  lemma AgreesIn(front: seq<Byte>, es: seq<Entry>, k: nat)
    requires |front| == AVI_HEADER_SIZE && EntriesOk(es) && FileLength(es) < TWO32 && k < |es|
    ensures var f := front + Movi(es) + Index(es);
            && f[AVI_HEADER_SIZE - 4..][..4] == front[AVI_HEADER_SIZE - 4..]
            && Leads(f, EntryAt(f, |es|, k), es[k])
            && U32(EntryAt(f, |es|, k), 8) == Position(es, k)
  {
    var f, pos := front + Movi(es) + Index(es), Position(es, k);
    MoviSplit(es, k);
    IndexEntryAt(es, k);
    EntryFields(es[k], pos);
    IndexBody(T_IDX1 + LE(16 * |es|, 4), IndexBytes(es), k);
    Locate(front, Movi(es), Index(es), 8 + 16 * k, pos - 4, 8 + |es[k].chunk.data|);
    assert EntryAt(f, |es|, k) == EntryBytes(es[k], pos);
  }

  lemma FrontEnds(h: Chunk, junk: seq<Byte>, riffSize: nat, moviSize: nat)
    requires IsHeaderList(h) && |junk| == JUNK_SIZE
    ensures Front(h, junk, riffSize, moviSize)[AVI_HEADER_SIZE - 4..] == T_MOVI
  {
  }

  lemma IndexBody(head: seq<Byte>, body: seq<Byte>, k: nat)
    requires |head| == 8 && 16 * k + 16 <= |body|
    ensures (head + body)[8 + 16 * k..][..16] == body[16 * k..16 * k + 16]
  {
  }

  lemma EntryFields(e: Entry, pos: nat)
    requires EntryOk(e) && pos < TWO32
    ensures var s := EntryBytes(e, pos);
            s[..4] == e.chunk.tag && U32(s, 4) == e.flags && U32(s, 8) == pos && U32(s, 12) == e.chunk.size
  {
    var s := EntryBytes(e, pos);
    assert s[4..8] == LE(e.flags, 4) && s[8..12] == LE(pos, 4) && s[12..16] == LE(e.chunk.size, 4);
    Pow256Of4();
    LERoundTrip(e.flags, 4);
    LERoundTrip(pos, 4);
    LERoundTrip(e.chunk.size, 4);
  }

  /** Slices of a file that is a front, a middle and a tail. */
  lemma Locate(front: seq<Byte>, mid: seq<Byte>, tail: seq<Byte>, i: nat, m: nat, n: nat)
    requires |front| == AVI_HEADER_SIZE && i + 16 <= |tail| && m + n <= |mid|
    ensures var f := front + mid + tail;
            && f[AVI_HEADER_SIZE - 4..][..4] == front[AVI_HEADER_SIZE - 4..]
            && f[|front| + |mid| + i..][..16] == tail[i..][..16]
            && f[AVI_HEADER_SIZE + m..][..n] == mid[m..][..n]
  {
  }

  /** The sizes tile the file: one RIFF chunk, in it the header list, padding, the data list with every
      chunk of `es`, and the index. */
  ghost predicate Tiles(f: seq<Byte>, h: Chunk, es: seq<Entry>)
    requires EntriesOk(es)
  {
    && |f| == FileLength(es) && Walk(f) == Walked([Chunk(T_RIFF, |f| - 8, f[8..])]) && f[8..12] == T_AVI
    && (exists junk: seq<Byte> :: |junk| == JUNK_SIZE && Walk(f[12..]) == Walked(Members(h, junk, es)))
    && Walk(ListOf(T_MOVI, Movi(es)).data[4..]) == Walked(Chunks(es))
  }

  /** Every index entry leads to its chunk. */
  ghost predicate IndexLeads(f: seq<Byte>, es: seq<Entry>) {
    && |f| >= AVI_HEADER_SIZE + 16 * |es| && f[AVI_HEADER_SIZE - 4..][..4] == T_MOVI
    && forall k: nat :: k < |es| ==> Leads(f, EntryAt(f, |es|, k), es[k])
  }

  /** What a reader finds in a file with the header chunks `l` and the data chunks of `es`. */
  ghost predicate Reads(f: seq<Byte>, l: Leaves, es: seq<Entry>)
    requires LeavesOk(l) && EntriesOk(es)
  {
    && Tiles(f, HeaderList(l), es) && IndexLeads(f, es)
    && Walk(HeaderList(l).data[4..]) == Walked([l.main, VideoStream(l), AudioStream(l)])
    && Walk(VideoStream(l).data[4..]) == Walked([l.videoHeader, l.videoFormat])
    && Walk(AudioStream(l).data[4..]) == Walked([l.audioHeader, l.audioFormat])
  }

  lemma FileTiles(h: Chunk, junk: seq<Byte>, es: seq<Entry>)
    requires EntriesOk(es) && IsHeaderList(h) && |junk| == JUNK_SIZE && FileLength(es) < TWO32
    ensures Tiles(FileBytes(h, junk, es), h, es)
  {
    SizesTile(h, junk, es);
    Layout(h, junk, es);
  }

  lemma FileIndexLeads(h: Chunk, junk: seq<Byte>, es: seq<Entry>)
    requires EntriesOk(es) && IsHeaderList(h) && |junk| == JUNK_SIZE && FileLength(es) < TWO32
    ensures IndexLeads(FileBytes(h, junk, es), es)
  {
    var f := FileBytes(h, junk, es);
    Layout(h, junk, es);
    FrontEnds(h, junk, FileLength(es) - 8, 4 + |Movi(es)|);
    forall k: nat | k < |es| ensures Leads(f, EntryAt(f, |es|, k), es[k]) {
      IndexAgreement(h, junk, es, k);
    }
  }

  lemma ReadsBack(l: Leaves, junk: seq<Byte>, es: seq<Entry>)
    requires LeavesOk(l) && EntriesOk(es) && |junk| == JUNK_SIZE && FileLength(es) < TWO32
    ensures Reads(FileBytes(HeaderList(l), junk, es), l, es)
  {
    FileTiles(HeaderList(l), junk, es);
    FileIndexLeads(HeaderList(l), junk, es);
    HeaderTiles(l);
  }
}
