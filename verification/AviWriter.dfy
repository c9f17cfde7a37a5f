/** The state of a running AVI capture and the steps that change it. */
module AviWriter {
  import opened Bytes
  import opened Riff
  import opened Avi
  import opened AviReader
  import opened Wav

  const INDEX_STEP := 65536     // 16 * 4096

  // ---- audio accounting -----------------------------------------------------

  predicate IsAudio(e: Entry) {
    e.chunk.tag == T_AUDIO
  }

  /** Size of the last audio chunk, or zero: what the source keeps. */
  function LastAudio(es: seq<Entry>): nat {
    if es == [] then 0
    else if IsAudio(es[|es| - 1]) then es[|es| - 1].chunk.size
    else LastAudio(es[..|es| - 1])
  }

  /** Size of all audio chunks together: what the length field should count. */
  function TotalAudio(es: seq<Entry>): nat {
    if es == [] then 0
    else (if IsAudio(es[|es| - 1]) then es[|es| - 1].chunk.size else 0) + TotalAudio(es[..|es| - 1])
  }

  function AudioChunks(es: seq<Entry>): nat {
    if es == [] then 0
    else (if IsAudio(es[|es| - 1]) then 1 else 0) + AudioChunks(es[..|es| - 1])
  }

  predicate AudioNonEmpty(es: seq<Entry>) {
    forall i :: 0 <= i < |es| && IsAudio(es[i]) ==> es[i].chunk.size > 0
  }

  lemma AudioAppend(es: seq<Entry>, e: Entry)
    requires AudioNonEmpty(es) && (IsAudio(e) ==> e.chunk.size > 0)
    ensures AudioNonEmpty(es + [e])
    ensures LastAudio(es + [e]) == if IsAudio(e) then e.chunk.size else LastAudio(es)
  {
    assert (es + [e])[..|es|] == es;
  }

  lemma {:induction false} TotalCovers(es: seq<Entry>)
    requires AudioNonEmpty(es)
    ensures AudioChunks(es) == 0 <==> TotalAudio(es) == 0
    ensures LastAudio(es) <= TotalAudio(es)
    decreases |es|
  {
    if es != [] {
      TotalCovers(es[..|es| - 1]);
    }
  }

  /** The audio length is assigned, not accumulated: it counts the audio of the whole file exactly
      when no more than one audio chunk was written. */
  lemma {:induction false} AudioLengthIff(es: seq<Entry>)
    requires AudioNonEmpty(es)
    ensures LastAudio(es) == TotalAudio(es) <==> AudioChunks(es) <= 1
    decreases |es|
  {
    if es != [] {
      TotalCovers(es[..|es| - 1]);
      AudioLengthIff(es[..|es| - 1]);
    }
  }

  // ---- what a sequence of calls records -------------------------------------

  /** A frame rate and the two numbers that the header takes from it. */
  datatype Fps = Fps(id: nat, usPerFrame: nat, rate: nat)

  /** A file holds pictures of one format only. */
  datatype Format = Format(width: nat, height: nat, pixels: nat, fps: Fps)

  /** One call of the capture; `canOpen` says whether a file can be created if the picture needs one. */
  datatype Call =
    | Sound(rate: nat, samples: seq<Frame>)
    | Picture(format: Format, canOpen: bool, size: nat, data: seq<Byte>)

  predicate CallOk(c: Call) {
    c.Picture? ==> c.size < TWO32 && |c.data| == Even(c.size)
  }

  predicate CallsOk(calls: seq<Call>) {
    forall i :: 0 <= i < |calls| ==> CallOk(calls[i])
  }

  /** A finished file: the numbers in its header and its chunks. */
  datatype Recording = Recording(info: Info, entries: seq<Entry>)

  /** The chunks of the open file, the sound waiting for its next picture, its pictures, and the files
      finished so far. */
  datatype Progress = Progress(open: bool, format: Format, entries: seq<Entry>, pending: seq<Frame>, frames: nat,
                               audioRate: nat, done: seq<Recording>)

  predicate ProgressOk(p: Progress) {
    |p.pending| <= NUM_FRAMES_IN_BUFFER
  }

  /** Sound that no longer fits the buffer is dropped. */
  function Fitting(pending: nat, data: seq<Frame>): (r: seq<Frame>)
    requires pending <= NUM_FRAMES_IN_BUFFER
    ensures |r| <= |data| && pending + |r| <= NUM_FRAMES_IN_BUFFER
    ensures r == data <==> pending + |data| <= NUM_FRAMES_IN_BUFFER
    ensures |r| == |data| <==> pending + |data| <= NUM_FRAMES_IN_BUFFER
  {
    if |data| <= NUM_FRAMES_IN_BUFFER - pending then data else data[..NUM_FRAMES_IN_BUFFER - pending]
  }

  function VideoEntry(size: nat, data: seq<Byte>, frame: nat): (e: Entry)
    ensures !IsAudio(e)
  {
    assert T_VIDEO[1] != T_AUDIO[1];
    Entry(Chunk(T_VIDEO, size, data), if frame % 300 == 0 then 0x10 else 0)
  }

  function SoundEntry(frames: seq<Frame>): Entry {
    Entry(Chunk(T_AUDIO, 4 * |frames|, SampleBytes(frames)), 0)
  }

  /** The audio chunk that follows a picture, if sound has waited. */
  function Sounds(pending: seq<Frame>): seq<Entry> {
    if pending == [] then [] else [SoundEntry(pending)]
  }

  /** The header of a file with these chunks; the audio length is that of the last audio chunk. */
  function InfoOf(f: Format, frames: nat, audioRate: nat, es: seq<Entry>): Info {
    Info(f.fps.usPerFrame, f.fps.rate, frames, f.width, f.height, audioRate, LastAudio(es) / 4)
  }

  /** Closing the open file; sound that still waits is not written. */
  function Finish(p: Progress): (r: Progress)
    ensures ProgressOk(p) ==> ProgressOk(r)
  {
    if !p.open then p
    else p.(open := false, audioRate := if p.audioRate == 0 then 1 else p.audioRate,
            done := p.done + [Recording(InfoOf(p.format, p.frames, p.audioRate, p.entries), p.entries)])
  }

  /** The file that takes a picture: a change of format closes the open one, and without an open one a new
      one is created, if it can be. */
  function Ready(p: Progress, f: Format, canOpen: bool): (r: Progress)
    ensures ProgressOk(p) ==> ProgressOk(r)
  {
    var q := if p.open && p.format != f then Finish(p) else p;
    if q.open || !canOpen then q
    else q.(open := true, format := f, entries := [], pending := [], frames := 0)
  }

  function Feed(p: Progress, c: Call): (r: Progress)
    requires ProgressOk(p)
    ensures ProgressOk(r)
  {
    match c
    case Sound(rate, data) =>
      if p.open then p.(pending := p.pending + Fitting(|p.pending|, data), audioRate := rate) else p
    case Picture(f, canOpen, size, data) =>
      var q := Ready(p, f, canOpen);
      if q.open then Shown(q, size, data) else q
  }

  /** A picture in the open file, and behind it the sound that has waited. */
  function Shown(q: Progress, size: nat, data: seq<Byte>): (r: Progress)
    ensures ProgressOk(r)
  {
    q.(entries := q.entries + [VideoEntry(size, data, q.frames)] + Sounds(q.pending),
       pending := [], frames := q.frames + 1)
  }

  const IDLE := Progress(false, Format(0, 0, 0, Fps(0, 0, 0)), [], [], 0, 0, [])

  function FeedAll(calls: seq<Call>): (r: Progress)
    ensures ProgressOk(r)
  {
    if calls == [] then IDLE else Feed(FeedAll(calls[..|calls| - 1]), calls[|calls| - 1])
  }

  /** The files of a whole capture, the last one closed at its end. */
  function Files(calls: seq<Call>): seq<Recording> {
    Finish(FeedAll(calls)).done
  }

  // ---- which sound reaches the files ----------------------------------------

  /** The data of the audio chunks, in file order. */
  function SoundBytes(es: seq<Entry>): seq<Byte> {
    if es == [] then []
    else SoundBytes(es[..|es| - 1]) + (if IsAudio(es[|es| - 1]) then es[|es| - 1].chunk.data else [])
  }

  function FilesSound(done: seq<Recording>): seq<Byte> {
    if done == [] then [] else FilesSound(done[..|done| - 1]) + SoundBytes(done[|done| - 1].entries)
  }

  function SoundOf(c: Call): seq<Frame> {
    if c.Sound? then c.samples else []
  }

  function AllSound(calls: seq<Call>): seq<Frame> {
    if calls == [] then [] else AllSound(calls[..|calls| - 1]) + SoundOf(calls[|calls| - 1])
  }

  /** Sound in finished files, in the open one, or waiting for its next picture. */
  function Kept(p: Progress): seq<Byte> {
    FilesSound(p.done) + (if p.open then SoundBytes(p.entries) + SampleBytes(p.pending) else [])
  }

  /** Closing the file now would throw no sound away. */
  predicate Settled(p: Progress) {
    p.open ==> p.pending == []
  }

  /** A call drops nothing: sound needs an open file and room in the buffer, and a picture of another
      format must not find sound waiting. */
  predicate Lossless(p: Progress, c: Call) {
    match c
    case Sound(_, data) => data == [] || (p.open && |p.pending| + |data| <= NUM_FRAMES_IN_BUFFER)
    case Picture(f, _, _, _) => p.format == f || Settled(p)
  }

  predicate AllLossless(calls: seq<Call>) {
    calls == [] ||
    (AllLossless(calls[..|calls| - 1]) && Lossless(FeedAll(calls[..|calls| - 1]), calls[|calls| - 1]))
  }

  lemma SoundBytesAppend(es: seq<Entry>, e: Entry)
    ensures SoundBytes(es + [e]) == SoundBytes(es) + (if IsAudio(e) then e.chunk.data else [])
  {
    assert (es + [e])[..|es|] == es;
  }

  lemma SoundBytesSounds(es: seq<Entry>, pending: seq<Frame>)
    ensures SoundBytes(es + Sounds(pending)) == SoundBytes(es) + SampleBytes(pending)
  {
    if pending == [] {
      assert es + Sounds(pending) == es;
    } else {
      SoundBytesAppend(es, SoundEntry(pending));
    }
  }

  lemma SoundBytesPicture(es: seq<Entry>, v: Entry, pending: seq<Frame>)
    requires !IsAudio(v)
    ensures SoundBytes(es + [v] + Sounds(pending)) == SoundBytes(es) + SampleBytes(pending)
  {
    SoundBytesAppend(es, v);
    assert SoundBytes(es + [v]) == SoundBytes(es);
    SoundBytesSounds(es + [v], pending);
  }

  /** Closing a file keeps what is in it and loses what waits. */
  lemma FinishKeeps(p: Progress)
    ensures Settled(p) ==> Kept(Finish(p)) == Kept(p)
    ensures !Settled(p) ==> |Kept(Finish(p))| < |Kept(p)|
  {
    if p.open {
      var last := Recording(InfoOf(p.format, p.frames, p.audioRate, p.entries), p.entries);
      assert (p.done + [last])[..|p.done|] == p.done;
      assert Kept(Finish(p)) == FilesSound(p.done) + SoundBytes(p.entries);
    }
  }

  lemma ReadyKeeps(p: Progress, f: Format, canOpen: bool)
    ensures p.format == f || Settled(p) ==> Kept(Ready(p, f, canOpen)) == Kept(p)
    ensures !(p.format == f || Settled(p)) ==> |Kept(Ready(p, f, canOpen))| < |Kept(p)|
  {
    FinishKeeps(p);
  }

  lemma PictureKeeps(q: Progress, size: nat, data: seq<Byte>)
    requires q.open
    ensures Kept(Shown(q, size, data)) == Kept(q)
  {
    SoundBytesPicture(q.entries, VideoEntry(size, data, q.frames), q.pending);
  }

  lemma SoundKeeps(p: Progress, c: Call)
    requires ProgressOk(p) && c.Sound?
    ensures Lossless(p, c) ==> Kept(Feed(p, c)) == Kept(p) + SampleBytes(c.samples)
    ensures !Lossless(p, c) ==> |Kept(Feed(p, c))| < |Kept(p)| + 4 * |c.samples|
  {
    if p.open {
      SampleBytesConcat(p.pending, Fitting(|p.pending|, c.samples));
    }
  }

  lemma FeedKeeps(p: Progress, c: Call)
    requires ProgressOk(p)
    ensures Lossless(p, c) ==> Kept(Feed(p, c)) == Kept(p) + SampleBytes(SoundOf(c))
    ensures !Lossless(p, c) ==> |Kept(Feed(p, c))| < |Kept(p)| + 4 * |SoundOf(c)|
  {
    if c.Sound? {
      SoundKeeps(p, c);
    } else {
      ReadyKeeps(p, c.format, c.canOpen);
      if Ready(p, c.format, c.canOpen).open {
        PictureKeeps(Ready(p, c.format, c.canOpen), c.size, c.data);
      }
    }
  }

  lemma {:induction false} KeptLength(calls: seq<Call>)
    ensures |Kept(FeedAll(calls))| <= 4 * |AllSound(calls)|
    ensures AllLossless(calls) ==> Kept(FeedAll(calls)) == SampleBytes(AllSound(calls))
    ensures !AllLossless(calls) ==> |Kept(FeedAll(calls))| < 4 * |AllSound(calls)|
    decreases |calls|
  {
    if calls != [] {
      var init, last := calls[..|calls| - 1], calls[|calls| - 1];
      KeptLength(init);
      FeedKeeps(FeedAll(init), last);
      SampleBytesConcat(AllSound(init), SoundOf(last));
    }
  }

  lemma {:induction false} FirstLossless(calls: seq<Call>)
    requires calls != [] && AllLossless(calls)
    ensures Lossless(IDLE, calls[0])
    decreases |calls|
  {
    if |calls| > 1 {
      FirstLossless(calls[..|calls| - 1]);
    }
  }

  /** The sound in the files is all the sound that came in, if and only if every sound call found an open
      file and room in the buffer, no change of format found sound waiting, and none waits at the end. */
  lemma {:induction false} SoundKeptIff(calls: seq<Call>)
    ensures FilesSound(Files(calls)) == SampleBytes(AllSound(calls))
            <==> AllLossless(calls) && Settled(FeedAll(calls))
  {
    KeptLength(calls);
    FinishKeeps(FeedAll(calls));
  }

  /** A capture that starts with sound loses sound, for there is no file before the first picture... */
  lemma {:induction false} EarlySoundLost(calls: seq<Call>)
    requires calls != [] && SoundOf(calls[0]) != []
    ensures FilesSound(Files(calls)) != SampleBytes(AllSound(calls))
  {
    SoundKeptIff(calls);
    if AllLossless(calls) {
      FirstLossless(calls);
    }
  }

  /** ...and so does one that ends with sound, for only a picture writes what waits. */
  lemma {:induction false} LateSoundLost(calls: seq<Call>)
    requires calls != [] && SoundOf(calls[|calls| - 1]) != []
    ensures FilesSound(Files(calls)) != SampleBytes(AllSound(calls))
  {
    SoundKeptIff(calls);
  }

  // ---- the audio length in the header ---------------------------------------

  /** Audio chunks are nonempty and hold whole sample frames. */
  predicate WholeFrames(es: seq<Entry>) {
    AudioNonEmpty(es) && forall i :: 0 <= i < |es| && IsAudio(es[i]) ==> es[i].chunk.size % 4 == 0
  }

  /** The total is the amount of sound that a reader of the data chunks finds. */
  lemma {:induction false} TotalIsSound(es: seq<Entry>)
    requires WholeFrames(es) && EntriesOk(es)
    ensures TotalAudio(es) == |SoundBytes(es)|
    decreases |es|
  {
    if es != [] {
      TotalIsSound(es[..|es| - 1]);
    }
  }

  lemma {:induction false} TotalWhole(es: seq<Entry>)
    requires WholeFrames(es)
    ensures LastAudio(es) % 4 == 0 && TotalAudio(es) % 4 == 0
    decreases |es|
  {
    if es != [] {
      TotalWhole(es[..|es| - 1]);
    }
  }

  predicate RecordingOk(r: Recording) {
    WholeFrames(r.entries) && r.info.audioLength == LastAudio(r.entries) / 4
  }

  predicate SoundOk(p: Progress) {
    WholeFrames(p.entries) && forall i :: 0 <= i < |p.done| ==> RecordingOk(p.done[i])
  }

  lemma ShownSoundOk(q: Progress, size: nat, data: seq<Byte>)
    requires SoundOk(q)
    ensures SoundOk(Shown(q, size, data))
  {
    assert !IsAudio(VideoEntry(size, data, q.frames));
  }

  lemma {:induction false} FedSoundOk(calls: seq<Call>)
    ensures SoundOk(FeedAll(calls))
    decreases |calls|
  {
    if calls != [] {
      var p, c := FeedAll(calls[..|calls| - 1]), calls[|calls| - 1];
      FedSoundOk(calls[..|calls| - 1]);
      if c.Picture? {
        ShownSoundOk(Ready(p, c.format, c.canOpen), c.size, c.data);
      }
    }
  }

  /** In every file of every capture, the audio length in the header, as a reader finds it at its place, is the
      number of sample frames in the data chunks if and only if the file holds at most one audio chunk. */
  lemma {:induction false} HeaderAudioLengthIff(calls: seq<Call>, i: nat, f: seq<Byte>)
    requires i < |Files(calls)| && IsFile(Files(calls)[i], f) && InfoFits(Files(calls)[i].info)
    ensures |f| >= AVI_HEADER_SIZE
    ensures var es := Files(calls)[i].entries;
            4 * ReadInfo(f).audioLength == |SoundBytes(es)| <==> AudioChunks(es) <= 1
  {
    CountedIff(calls, i);
    FedSoundOk(calls);
    TotalIsSound(Files(calls)[i].entries);
    InfoReads(Files(calls)[i], f);
  }

  lemma {:induction false} CountedIff(calls: seq<Call>, i: nat)
    requires i < |Files(calls)|
    ensures var r := Files(calls)[i];
            4 * r.info.audioLength == TotalAudio(r.entries) <==> AudioChunks(r.entries) <= 1
    ensures RecordingOk(Files(calls)[i])
  {
    FedSoundOk(calls);
    var r := Files(calls)[i];
    assert RecordingOk(r);
    TotalWhole(r.entries);
    AudioLengthIff(r.entries);
  }

  lemma InfoReads(r: Recording, f: seq<Byte>)
    requires IsFile(r, f) && InfoFits(r.info)
    ensures |f| >= AVI_HEADER_SIZE && ReadInfo(f) == r.info && Consistent(f, r.info)
  {
    var junk: seq<Byte> :| |junk| == JUNK_SIZE && f == FileBytes(HeaderList(LeavesOf(r.info)), junk, r.entries);
    InfoReadsBack(r.info, junk, r.entries);
  }

  /** Two stretches of sound in one file are already too many. */
  lemma TwoSoundsMiscounted(p: Call, s: Call)
    requires p.Picture? && p.canOpen && s.Sound? && |s.samples| == 1
    ensures var files := Files([p, s, p, s, p]);
            && |files| == 1 && AudioChunks(files[0].entries) == 2
            && 4 * files[0].info.audioLength != TotalAudio(files[0].entries)
  {
    var v1, v2, v3 := VideoEntry(p.size, p.data, 0), VideoEntry(p.size, p.data, 1), VideoEntry(p.size, p.data, 2);
    var a := SoundEntry(s.samples);
    FiveFed(p, s, v1, v2, v3, a);
    FiveEntries(v1, v2, v3, a);
    CountedIff([p, s, p, s, p], 0);
  }

  lemma FiveFed(p: Call, s: Call, v1: Entry, v2: Entry, v3: Entry, a: Entry)
    requires p.Picture? && p.canOpen && s.Sound? && |s.samples| == 1 && a == SoundEntry(s.samples)
    requires v1 == VideoEntry(p.size, p.data, 0) && v2 == VideoEntry(p.size, p.data, 1)
    requires v3 == VideoEntry(p.size, p.data, 2)
    ensures var q := FeedAll([p, s, p, s, p]); q.open && q.done == [] && q.entries == [v1, v2, a, v3, a]
  {
    FiveCalls(p, s);
    PictureAndSound(IDLE, p, s);
    var p2 := Feed(Feed(IDLE, p), s);
    PictureAndSound(p2, p, s);
    var p4 := Feed(Feed(p2, p), s);
    PictureAndSound(p4, p, s);
    ThreeShown(v1, v2, v3, a);
  }

  lemma ThreeShown(v1: Entry, v2: Entry, v3: Entry, a: Entry)
    ensures [] + [v1] + [] == [v1] && [v1] + [v2] + [a] == [v1, v2, a]
    ensures [v1, v2, a] + [v3] + [a] == [v1, v2, a, v3, a]
  {
  }

  /** A picture and a sound, at the start or in a file of the same format. */
  lemma PictureAndSound(q: Progress, p: Call, s: Call)
    requires p.Picture? && p.canOpen && s.Sound? && |s.samples| == 1
    requires ProgressOk(q) && (q == IDLE || (q.open && q.format == p.format))
    ensures var shown := Feed(q, p);
            var r := Feed(shown, s);
            && shown.entries == q.entries + [VideoEntry(p.size, p.data, q.frames)] + Sounds(q.pending)
            && shown.open && shown.done == q.done
            && r.open && r.format == p.format && r.entries == shown.entries && r.pending == s.samples
            && r.frames == q.frames + 1 && r.done == q.done
  {
  }

  lemma FiveCalls(p: Call, s: Call)
    ensures FeedAll([p, s, p, s, p]) == Feed(Feed(Feed(Feed(Feed(IDLE, p), s), p), s), p)
  {
    assert [p, s, p, s, p][..4] == [p, s, p, s] && [p, s, p, s][..3] == [p, s, p];
    assert [p, s, p][..2] == [p, s] && [p, s][..1] == [p] && [p][..0] == [];
    assert FeedAll([p]) == Feed(IDLE, p);
    assert FeedAll([p, s]) == Feed(Feed(IDLE, p), s);
    assert FeedAll([p, s, p]) == Feed(Feed(Feed(IDLE, p), s), p);
  }

  lemma FiveEntries(v1: Entry, v2: Entry, v3: Entry, a: Entry)
    requires !IsAudio(v1) && !IsAudio(v2) && !IsAudio(v3) && IsAudio(a)
    ensures AudioChunks([v1, v2, a, v3, a]) == 2
  {
    var es := [v1, v2, a, v3, a];
    assert es[..4] == [v1, v2, a, v3] && [v1, v2, a, v3][..3] == [v1, v2, a];
    assert [v1, v2, a][..2] == [v1, v2] && [v1, v2][..1] == [v1] && [v1][..0] == [];
    assert AudioChunks([]) == 0 && AudioChunks([v1]) == 0 && AudioChunks([v1, v2]) == 0;
    assert AudioChunks([v1, v2, a]) == 1;
  }

  // ---- the header, field by field -------------------------------------------

  method PutChunk(h: seq<Byte>, c: Chunk) returns (r: seq<Byte>)
    ensures r == h + ChunkBytes(c)
  {
    r := h + c.tag + LE(c.size, 4) + c.data;
    Regroup(h, c.tag, LE(c.size, 4), c.data);
  }

  method PutStream(h: seq<Byte>, listSize: nat, header: Chunk, format: Chunk) returns (r: seq<Byte>)
    requires |header.tag| == |format.tag| == 4
    requires listSize == 4 + 8 + |header.data| + 8 + |format.data|
    ensures r == h + ChunkBytes(ListOf(T_STRL, Stream([header, format])))
  {
    StreamLength2(header, format);
    r := h + T_LIST + LE(listSize, 4) + T_STRL;
    r := r + header.tag + LE(header.size, 4) + header.data;
    r := r + format.tag + LE(format.size, 4) + format.data;
    Join9(h, T_LIST, LE(listSize, 4), T_STRL, header.tag, LE(header.size, 4), header.data,
          format.tag, LE(format.size, 4), format.data);
  }

  lemma Join9(h: seq<Byte>, a: seq<Byte>, b: seq<Byte>, c: seq<Byte>, d: seq<Byte>, e: seq<Byte>,
              f: seq<Byte>, g: seq<Byte>, i: seq<Byte>, j: seq<Byte>)
    ensures h + a + b + c + d + e + f + g + i + j == h + (a + b + (c + (d + e + f + (g + i + j))))
  {
  }

  /** The three chunks of the header list, with the list sizes as the source writes them. */
  method PutStreams(h: seq<Byte>, l: Leaves) returns (r: seq<Byte>)
    requires LeavesOk(l)
    ensures r == h + Stream([l.main, VideoStream(l), AudioStream(l)])
  {
    r := PutChunk(h, l.main);
    r := PutStream(r, 4 + 8 + 56 + 8 + 40, l.videoHeader, l.videoFormat);
    r := PutStream(r, 4 + 8 + 56 + 8 + 16, l.audioHeader, l.audioFormat);
    Stream3(l.main, VideoStream(l), AudioStream(l));
    Regroup(h, ChunkBytes(l.main), ChunkBytes(VideoStream(l)), ChunkBytes(AudioStream(l)));
  }

  lemma HeaderData(before: seq<Byte>, l: Leaves)
    requires LeavesOk(l)
    ensures before + T_HDRL + Stream([l.main, VideoStream(l), AudioStream(l)]) == before + HeaderList(l).data
    ensures |HeaderList(l).data| == 292
  {
    Assoc(before, T_HDRL, Stream([l.main, VideoStream(l), AudioStream(l)]));
  }

  method BuildHeader(l: Leaves, junk: seq<Byte>, written: nat, indexUsed: nat) returns (h: seq<Byte>)
    requires LeavesOk(l) && |junk| == JUNK_SIZE
    ensures h == Front(HeaderList(l), junk, AVI_HEADER_SIZE + written - 8 + indexUsed, written + 4)
  {
    var start := T_RIFF + LE(AVI_HEADER_SIZE + written - 8 + indexUsed, 4) + T_AVI + T_LIST;
    h := PutStreams(start + LE(0, 4) + T_HDRL, l);
    ghost var data := HeaderList(l).data;
    HeaderData(start + LE(0, 4), l);
    h := FinishHeader(h, |start|, junk, written, start, data);
    Regroup(T_RIFF + LE(AVI_HEADER_SIZE + written - 8 + indexUsed, 4) + T_AVI, T_LIST, LE(292, 4), data);
  }

  /** The list and padding sizes come from the running header position; the list size is patched in
      at its place. `junk` is what the uninitialised part of the buffer holds. */
  method FinishHeader(h: seq<Byte>, mainList: nat, junk: seq<Byte>, written: nat,
                      ghost start: seq<Byte>, ghost data: seq<Byte>)
    returns (r: seq<Byte>)
    requires h == start + LE(0, 4) + data && mainList == |start| == 16 && |data| == 292 && |junk| == JUNK_SIZE
    ensures r == start + LE(292, 4) + data + T_JUNK + LE(|junk|, 4) + junk + T_LIST + LE(written + 4, 4) + T_MOVI
  {
    var nmain := |h| - mainList - 4;
    var njunk := AVI_HEADER_SIZE - 8 - 12 - |h|;
    r := Overwrite(h, mainList, LE(nmain, 4), start, LE(0, 4), data);
    r := r + T_JUNK + LE(njunk, 4) + junk + T_LIST + LE(written + 4, 4) + T_MOVI;
  }

  /** Replace the field at a position. */
  method Overwrite(h: seq<Byte>, pos: nat, field: seq<Byte>,
                   ghost before: seq<Byte>, ghost was: seq<Byte>, ghost after: seq<Byte>)
    returns (r: seq<Byte>)
    requires h == before + was + after && pos == |before| && |field| == |was|
    ensures r == before + field + after
  {
    r := h[..pos] + field + h[pos + |field|..];
  }

  lemma Appended(file: seq<Byte>, c: Chunk)
    requires AVI_HEADER_SIZE <= |file|
    ensures (file + c.tag + LE(c.size, 4) + c.data)[AVI_HEADER_SIZE..] == file[AVI_HEADER_SIZE..] + ChunkBytes(c)
  {
  }

  lemma Spliced(head: seq<Byte>, index: seq<Byte>, used: nat, file: seq<Byte>, header: seq<Byte>, whole: seq<Byte>)
    requires |head| == 8 <= used <= |index| && AVI_HEADER_SIZE <= |file| && whole == head + index[8..used]
    ensures (head + index[8..])[..used] == whole
    ensures header + (file + whole)[AVI_HEADER_SIZE..] == header + file[AVI_HEADER_SIZE..] + whole
  {
  }

  // ---- the running capture --------------------------------------------------

  class Writer {
    const audio: array<Frame>
    var isOpen: bool
    var file: seq<Byte>
    var frames: nat
    var written: nat
    var index: seq<Byte>
    var indexUsed: nat
    var audioUsed: nat
    var audioRate: nat
    var audioBytes: nat
    var format: Format
    var finished: seq<seq<Byte>>
    ghost var entries: seq<Entry>   // every chunk added since the file was opened

    /** The file holds the chunks, and the index describes each of them. */
    ghost predicate Indexed()
      reads this
    {
      && EntriesOk(entries)
      && |file| >= AVI_HEADER_SIZE && file[AVI_HEADER_SIZE..] == Movi(entries)
      && written == |Movi(entries)|
      && indexUsed == 8 + 16 * |entries| <= |index| && index[8..indexUsed] == IndexBytes(entries)
    }

    ghost predicate Valid()
      reads this
    {
      && audio.Length == NUM_FRAMES_IN_BUFFER && audioUsed <= NUM_FRAMES_IN_BUFFER
      && (isOpen ==> Indexed() && AudioNonEmpty(entries) && audioBytes == LastAudio(entries))
    }

    constructor ()
      ensures Valid() && !isOpen && finished == [] && fresh(audio) && audioRate == 0
    {
      audio := new Frame[NUM_FRAMES_IN_BUFFER](_ => Frame(0, 0, 0, 0));
      isOpen, file, frames, written, index, indexUsed := false, [], 0, 0, [], 0;
      audioUsed, audioRate, audioBytes, finished, entries, format := 0, 0, 0, [], [], IDLE.format;
    }

    /** `create_avi_file`; without a file nothing changes. */
    method Create(f: Format, canOpen: bool)
      requires Valid() && !isOpen
      modifies `isOpen, `file, `frames, `written, `index, `indexUsed, `audioUsed, `audioBytes, `entries, `format
      ensures Valid() && isOpen == canOpen
      ensures canOpen ==> format == f && frames == 0 && audioUsed == 0 && entries == []
    {
      if !canOpen {
        return;
      }
      StartFile();
      isOpen, format, frames, audioUsed, audioBytes := true, f, 0, 0, 0;
    }

    method StartFile()
      modifies `file, `written, `index, `indexUsed, `entries
      ensures Indexed() && entries == []
    {
      entries := [];
      index, indexUsed := seq(INDEX_STEP, _ => 0), 8;
      file, written := seq(AVI_HEADER_SIZE, _ => 0), 0;
      assert Chunks([]) == [] && file[AVI_HEADER_SIZE..] == [];
    }

    /** Append one index entry, growing the vector when no further entry would fit after it. */
    method AddIndex(entry: seq<Byte>)
      requires |entry| == 16 && 8 <= indexUsed <= |index|
      modifies `index, `indexUsed
      ensures indexUsed == old(indexUsed) + 16 < |index|
      ensures index[8..indexUsed] == old(index[8..indexUsed]) + entry
    {
      if indexUsed + 16 >= |index| {
        index := index + seq(INDEX_STEP, _ => 0);
      }
      index := index[..indexUsed] + entry + index[indexUsed + 16..];
      indexUsed := indexUsed + 16;
    }

    /** `add_avi_chunk`: `c.data` is what `fwrite` takes from the buffer, padding byte included. */
    method AddChunk(c: Chunk, flags: nat)
      requires Indexed() && ChunkOk(c) && flags < TWO32
      modifies `file, `written, `index, `indexUsed, `entries
      ensures Indexed() && entries == old(entries) + [Entry(c, flags)]
    {
      ghost var e := Entry(c, flags);
      MoviAppend(entries, e);
      IndexAppend(entries, e);
      Appended(file, c);
      file := file + c.tag + LE(c.size, 4) + c.data;
      var pos := written + 4;
      written := written + |c.data| + 8;
      AddIndex(c.tag + LE(flags, 4) + LE(pos, 4) + LE(c.size, 4));
      entries := entries + [e];
    }

    /** Audio waits in a fixed buffer for the next frame; what does not fit is dropped. */
    method AddAudio(rate: nat, data: seq<Frame>)
      requires Valid()
      modifies audio, `audioUsed, `audioRate
      ensures Valid() && (!isOpen ==> audioUsed == old(audioUsed) && audioRate == old(audioRate))
      ensures isOpen ==> audioRate == rate
      ensures isOpen ==> audio[..audioUsed] == old(audio[..audioUsed]) + Fitting(old(audioUsed), data)
    {
      if !isOpen {
        return;
      }
      var left := NUM_FRAMES_IN_BUFFER - audioUsed;
      if left > |data| {
        left := |data|;
      }
      CopyIn(data[..left]);
      audioUsed := audioUsed + left;
      audioRate := rate;
    }

    method CopyIn(data: seq<Frame>)
      requires audioUsed + |data| <= audio.Length
      modifies audio
      ensures audio[..audioUsed + |data|] == old(audio[..audioUsed]) + data
    {
      forall i | 0 <= i < |data| {
        audio[audioUsed + i] := data[i];
      }
    }

    /** A compressed frame, marked as a key frame every 300 frames, then the audio that has waited. */
    method AddPicture(size: nat, data: seq<Byte>)
      requires Valid() && isOpen && size < TWO32 && |data| == Even(size)
      modifies `file, `written, `index, `indexUsed, `entries, `frames, `audioUsed, `audioBytes
      ensures Valid() && frames == old(frames) + 1 && audioUsed == 0
      ensures entries == old(entries) + [VideoEntry(size, data, old(frames))] + Sounds(audio[..old(audioUsed)])
    {
      var flags := if frames % 300 == 0 then 0x10 else 0;
      AddVideo(size, data, flags);
      frames := frames + 1;
      AddPending();
    }

    method AddPending()
      requires Valid() && isOpen
      modifies `file, `written, `index, `indexUsed, `entries, `audioUsed, `audioBytes
      ensures Valid() && audioUsed == 0 && entries == old(entries) + Sounds(audio[..old(audioUsed)])
    {
      if audioUsed > 0 {
        AddSound();
      }
    }

    method AddVideo(size: nat, data: seq<Byte>, flags: nat)
      requires Valid() && isOpen && size < TWO32 && |data| == Even(size) && flags < TWO32
      modifies `file, `written, `index, `indexUsed, `entries
      ensures Valid() && entries == old(entries) + [Entry(Chunk(T_VIDEO, size, data), flags)]
    {
      AudioAppend(entries, Entry(Chunk(T_VIDEO, size, data), flags));
      AddChunk(Chunk(T_VIDEO, size, data), flags);
    }

    method AddSound()
      requires Valid() && isOpen && audioUsed > 0
      modifies `file, `written, `index, `indexUsed, `entries, `audioUsed, `audioBytes
      ensures Valid() && audioUsed == 0
      ensures entries == old(entries) + [SoundEntry(audio[..old(audioUsed)])]
    {
      var c := Chunk(T_AUDIO, 4 * audioUsed, SampleBytes(audio[..audioUsed]));
      assert Entry(c, 0) == SoundEntry(audio[..audioUsed]);
      EvenOfDouble(2 * audioUsed);
      AudioAppend(entries, Entry(c, 0));
      AddChunk(c, 0);
      audioBytes := audioUsed * 4;
      audioUsed := 0;
    }

    /** The open file and its waiting sound are those of `p`. */
    ghost predicate Matches(p: Progress)
      reads this, audio
    {
      && isOpen == p.open && audioRate == p.audioRate && audioUsed <= audio.Length
      && (isOpen ==> entries == p.entries && audio[..audioUsed] == p.pending && frames == p.frames
                     && format == p.format)
    }

    /** Before a picture: a file of another format is closed, and a file is created if none is open. */
    method Prepare(f: Format, canOpen: bool, junk: seq<Byte>, ghost p: Progress)
      requires Valid() && Matches(p) && |junk| == JUNK_SIZE && Finished(p.done, finished)
      modifies this
      ensures Valid() && Matches(Ready(p, f, canOpen)) && Finished(Ready(p, f, canOpen).done, finished)
    {
      if isOpen && format != f {
        Finalise(junk, p);
      }
      if !isOpen {
        Create(f, canOpen);
      }
    }

    method Show(size: nat, data: seq<Byte>, ghost q: Progress)
      requires Valid() && isOpen && Matches(q) && size < TWO32 && |data| == Even(size)
      modifies `file, `written, `index, `indexUsed, `entries, `frames, `audioUsed, `audioBytes
      ensures Valid() && Matches(Shown(q, size, data))
    {
      AddPicture(size, data);
      assert audio[..0] == [];
    }

    /** `capture_video_add_frame` */
    method AddFrame(f: Format, canOpen: bool, size: nat, data: seq<Byte>, junk: seq<Byte>, ghost p: Progress)
      requires Valid() && Matches(p) && ProgressOk(p) && size < TWO32 && |data| == Even(size)
      requires |junk| == JUNK_SIZE && Finished(p.done, finished)
      modifies this
      ensures var q := Feed(p, Picture(f, canOpen, size, data));
              Valid() && Matches(q) && Finished(q.done, finished)
    {
      Prepare(f, canOpen, junk, p);
      if isOpen {
        Show(size, data, Ready(p, f, canOpen));
      }
    }

    /** `capture_video_finalise`: the index takes its tag and size, the header goes to the front. */
    method Finalise(junk: seq<Byte>, ghost p: Progress)
      requires Valid() && Matches(p) && |junk| == JUNK_SIZE && Finished(p.done, finished)
      modifies `isOpen, `file, `index, `audioRate, `finished
      ensures Valid() && !isOpen && Matches(Finish(p)) && Finished(Finish(p).done, finished)
    {
      if !isOpen {
        return;
      }
      var v := Info(format.fps.usPerFrame, format.fps.rate, frames, format.width, format.height, audioRate,
                    audioBytes / 4);
      assert v == InfoOf(p.format, p.frames, p.audioRate, p.entries);
      ghost var was := finished;
      CloseWith(LeavesOf(v), junk);
      FinishedAppend(p.done, was, Recording(v, entries), junk);
      if audioRate == 0 {
        audioRate := 1;
      }
    }

    method Consume(c: Call, junk: seq<Byte>, ghost p: Progress)
      requires Valid() && Matches(p) && ProgressOk(p) && CallOk(c) && |junk| == JUNK_SIZE && Finished(p.done, finished)
      modifies this, audio
      ensures Valid() && Matches(Feed(p, c)) && Finished(Feed(p, c).done, finished)
    {
      match c
      case Sound(rate, samples) => AddAudio(rate, samples);
      case Picture(f, canOpen, size, data) => AddFrame(f, canOpen, size, data, junk, p);
    }

    method CloseWith(l: Leaves, junk: seq<Byte>)
      requires Indexed() && LeavesOk(l) && |junk| == JUNK_SIZE
      modifies `file, `index, `isOpen, `finished
      ensures !isOpen && finished == old(finished) + [FileBytes(HeaderList(l), junk, entries)]
    {
      var header := BuildHeader(l, junk, written, indexUsed);
      Close(header);
      Layout(HeaderList(l), junk, entries);
      finished := finished + [file];
      isOpen := false;
    }

    /** Index to the end of the file, header over its first 500 bytes. */
    method Close(header: seq<Byte>)
      requires Indexed()
      modifies `file, `index
      ensures file == header + Movi(entries) + Index(entries)
    {
      var head := T_IDX1 + LE(indexUsed - 8, 4);
      Spliced(head, index, indexUsed, file, header, Index(entries));
      index := head + index[8..];
      file := file + index[..indexUsed];
      file := header + file[AVI_HEADER_SIZE..];
    }
  }

  /** File `f` is made of exactly the chunks and header numbers of `r`, around some padding. */
  ghost predicate IsFile(r: Recording, f: seq<Byte>) {
    && EntriesOk(r.entries)
    && exists junk: seq<Byte> :: |junk| == JUNK_SIZE && f == FileBytes(HeaderList(LeavesOf(r.info)), junk, r.entries)
  }

  ghost predicate Finished(done: seq<Recording>, files: seq<seq<Byte>>) {
    |files| == |done| && forall i :: 0 <= i < |files| ==> IsFile(done[i], files[i])
  }

  lemma FinishedAppend(done: seq<Recording>, files: seq<seq<Byte>>, r: Recording, junk: seq<Byte>)
    requires Finished(done, files) && EntriesOk(r.entries) && |junk| == JUNK_SIZE
    ensures Finished(done + [r], files + [FileBytes(HeaderList(LeavesOf(r.info)), junk, r.entries)])
  {
  }

  /** A whole capture: over any calls, the files are exactly those that the calls describe, and a reader
      finds in each of them below 2^32 bytes every chunk, by the sizes and by the index, and in each header
      every number of the capture that fits in 32 bits. */
  method Record(calls: seq<Call>, junk: nat -> seq<Byte>) returns (files: seq<seq<Byte>>)
    requires CallsOk(calls) && forall i :: |junk(i)| == JUNK_SIZE
    ensures Finished(Files(calls), files)
    ensures forall i :: 0 <= i < |files| && FileLength(Files(calls)[i].entries) < TWO32 ==>
              Reads(files[i], LeavesOf(Files(calls)[i].info), Files(calls)[i].entries)
    ensures forall i :: 0 <= i < |files| && InfoFits(Files(calls)[i].info) ==>
              |files[i]| >= AVI_HEADER_SIZE && ReadInfo(files[i]) == Files(calls)[i].info
              && Consistent(files[i], Files(calls)[i].info)
  {
    var w := new Writer();
    for i := 0 to |calls|
      invariant w.Valid() && fresh(w) && fresh(w.audio)
      invariant w.Matches(FeedAll(calls[..i])) && Finished(FeedAll(calls[..i]).done, w.finished)
    {
      assert calls[..i + 1][..i] == calls[..i];
      w.Consume(calls[i], junk(i), FeedAll(calls[..i]));
    }
    assert calls[..|calls|] == calls;
    w.Finalise(junk(|calls|), FeedAll(calls));
    files := w.finished;
    FilesRead(Files(calls), files);
    HeadersRead(Files(calls), files);
  }

  lemma HeadersRead(done: seq<Recording>, files: seq<seq<Byte>>)
    requires Finished(done, files)
    ensures forall i :: 0 <= i < |files| && InfoFits(done[i].info) ==>
              |files[i]| >= AVI_HEADER_SIZE && ReadInfo(files[i]) == done[i].info && Consistent(files[i], done[i].info)
  {
    forall i | 0 <= i < |files| && InfoFits(done[i].info)
      ensures |files[i]| >= AVI_HEADER_SIZE && ReadInfo(files[i]) == done[i].info && Consistent(files[i], done[i].info)
    {
      InfoReads(done[i], files[i]);
    }
  }

  lemma FilesRead(done: seq<Recording>, files: seq<seq<Byte>>)
    requires Finished(done, files)
    ensures forall i :: 0 <= i < |files| && FileLength(done[i].entries) < TWO32 ==>
              Reads(files[i], LeavesOf(done[i].info), done[i].entries)
  {
    forall i | 0 <= i < |files| && FileLength(done[i].entries) < TWO32
      ensures Reads(files[i], LeavesOf(done[i].info), done[i].entries)
    {
      FileReads(done[i], files[i]);
    }
  }

  lemma FileReads(r: Recording, f: seq<Byte>)
    requires IsFile(r, f) && FileLength(r.entries) < TWO32
    ensures Reads(f, LeavesOf(r.info), r.entries)
  {
    var junk: seq<Byte> :| |junk| == JUNK_SIZE && f == FileBytes(HeaderList(LeavesOf(r.info)), junk, r.entries);
    ReadsBack(LeavesOf(r.info), junk, r.entries);
  }
}
