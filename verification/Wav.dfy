/** The WAV capture writer: a frame buffer in front of the file, and sizes patched in at the end. */
module Wav {
  import opened Bytes
  import opened Riff

  const NUM_FRAMES_IN_BUFFER := 16384
  const HEADER_SIZE := 44

  /** One stereo sample frame: the four bytes of two 16-bit values. */
  datatype Frame = Frame(l0: Byte, l1: Byte, r0: Byte, r1: Byte)

  function FrameBytes(f: Frame): (s: seq<Byte>)
    ensures |s| == 4
  {
    [f.l0, f.l1, f.r0, f.r1]
  }

  /** The bytes that `fwrite` copies out of a frame array. */
  function SampleBytes(fs: seq<Frame>): (s: seq<Byte>)
    ensures |s| == 4 * |fs|
  {
    if fs == [] then [] else FrameBytes(fs[0]) + SampleBytes(fs[1..])
  }

  lemma {:induction false} SampleBytesConcat(a: seq<Frame>, b: seq<Frame>)
    ensures SampleBytes(a + b) == SampleBytes(a) + SampleBytes(b)
    decreases |a|
  {
    if a == [] {
      assert a + b == b;
    } else {
      SampleBytesConcat(a[1..], b);
      assert (a + b)[1..] == a[1..] + b;
      Assoc(FrameBytes(a[0]), SampleBytes(a[1..]), SampleBytes(b));
    }
  }

  // ---- header ---------------------------------------------------------------

  const WAVE_FMT: seq<Byte> := [0x57, 0x41, 0x56, 0x45, 0x66, 0x6d, 0x74, 0x20, 0x10, 0, 0, 0, 1, 0, 2, 0]
  const ALIGN_DATA: seq<Byte> := [4, 0, 0x10, 0, 0x64, 0x61, 0x74, 0x61]

  /** The parts of the static header that are never patched. */
  predicate HeaderShape(h: seq<Byte>) {
    |h| == HEADER_SIZE && h[..4] == T_RIFF && h[8..24] == WAVE_FMT && h[32..40] == ALIGN_DATA
  }

  /** The header byte for byte: `riff`, `rate`, `byteRate` and `size` are its four number fields. */
  predicate HeaderIs(h: seq<Byte>, riff: seq<Byte>, rate: seq<Byte>, byteRate: seq<Byte>, size: seq<Byte>) {
    HeaderShape(h) && h[4..8] == riff && h[24..28] == rate && h[28..32] == byteRate && h[40..44] == size
  }

  /** `host_writed` of four bytes at an offset. */
  function Patch(h: seq<Byte>, offset: nat, n: seq<Byte>): (r: seq<Byte>)
    requires offset + 4 <= |h| && |n| == 4
    ensures |r| == |h| && r[offset..offset + 4] == n
    ensures forall i :: 0 <= i < |h| && !(offset <= i < offset + 4) ==> r[i] == h[i]
  {
    h[..offset] + n + h[offset + 4..]
  }

  lemma PatchFields(h: seq<Byte>, riff: seq<Byte>, rate: seq<Byte>, byteRate: seq<Byte>, size: seq<Byte>)
    requires HeaderShape(h) && |riff| == |rate| == |byteRate| == |size| == 4
    ensures HeaderIs(Patch(Patch(Patch(Patch(h, 0x04, riff), 0x18, rate), 0x1c, byteRate), 0x28, size),
                     riff, rate, byteRate, size)
  {
    var h1 := Patch(h, 0x04, riff);
    assert h1[..4] == h[..4] && h1[8..24] == h[8..24] && h1[32..40] == h[32..40];
    var h2 := Patch(h1, 0x18, rate);
    assert h2[..4] == h1[..4] && h2[4..8] == h1[4..8] && h2[8..24] == h1[8..24] && h2[32..40] == h1[32..40];
    var h3 := Patch(h2, 0x1c, byteRate);
    assert h3[..4] == h2[..4] && h3[4..8] == h2[4..8] && h3[8..24] == h2[8..24] && h3[24..28] == h2[24..28]
        && h3[32..40] == h2[32..40];
    var h4 := Patch(h3, 0x28, size);
    assert h4[..4] == h3[..4] && h4[4..8] == h3[4..8] && h4[8..24] == h3[8..24] && h4[24..28] == h3[24..28]
        && h4[28..32] == h3[28..32] && h4[32..40] == h3[32..40];
  }

  // ---- the file and its reader ----------------------------------------------

  /** `f` is the file a finished capture of these frames leaves; size fields are 32 bits wide. */
  predicate IsCapture(f: seq<Byte>, rate: nat, frames: seq<Frame>) {
    && HEADER_SIZE <= |f| && f[HEADER_SIZE..] == SampleBytes(frames)
    && HeaderIs(f[..HEADER_SIZE], LE(Low32(4 * |frames| + 36), 4), LE(rate, 4),
                LE(Low32(4 * rate), 4), LE(Low32(4 * |frames|), 4))
  }

  /** What a reader gets from a file. */
  datatype Clip = Unreadable | Clip(rate: nat, frames: seq<Frame>)

  function ReadFrames(s: seq<Byte>): seq<Frame> {
    if |s| < 4 then [] else [Frame(s[0], s[1], s[2], s[3])] + ReadFrames(s[4..])
  }

  /** Reads a file of two channels of 16-bit PCM whose sizes and rates must agree with one another. */
  function Read(f: seq<Byte>): Clip {
    if |f| < HEADER_SIZE || f[..4] != Ascii("RIFF") || U32(f, 4) != |f| - 8 then Unreadable
    else if f[8..16] != Ascii("WAVEfmt ") then Unreadable
    else if U32(f, 16) != 16 || U16(f, 20) != 1 || U16(f, 22) != 2 || U32(f, 28) != 4 * U32(f, 24) then Unreadable
    else if U16(f, 32) != 4 || U16(f, 34) != 16 || f[36..40] != Ascii("data") || U32(f, 40) != |f| - HEADER_SIZE
    then Unreadable
    else Clip(U32(f, 24), ReadFrames(f[HEADER_SIZE..]))
  }

  /** The parts of the header that are never patched: the tags, 16 bytes of format, PCM, two channels, four
      bytes to a frame, 16 bits to a sample. */
  lemma ShapeFields(f: seq<Byte>)
    requires |f| >= HEADER_SIZE && HeaderShape(f[..HEADER_SIZE])
    ensures f[..4] == Ascii("RIFF") && f[8..16] == Ascii("WAVEfmt ") && f[36..40] == Ascii("data")
    ensures U32(f, 16) == 16 && U16(f, 20) == 1 && U16(f, 22) == 2 && U16(f, 32) == 4 && U16(f, 34) == 16
  {
    var h := f[..HEADER_SIZE];
    assert h[..4] == f[..4] && h[8..24] == f[8..24] && h[32..40] == f[32..40];
    assert T_RIFF == Ascii("RIFF");
    FormatFields(f);
    DataFields(f);
  }

  lemma FormatFields(f: seq<Byte>)
    requires |f| >= HEADER_SIZE && f[8..24] == WAVE_FMT
    ensures f[8..16] == Ascii("WAVEfmt ") && U32(f, 16) == 16 && U16(f, 20) == 1 && U16(f, 22) == 2
  {
    forall i | 8 <= i < 24 ensures f[i] == WAVE_FMT[i - 8] {
      assert f[8..24][i - 8] == WAVE_FMT[i - 8];
    }
    assert f[8..16] == Ascii("WAVEfmt ");
    assert f[16..20] == [0x10, 0, 0, 0] && f[20..22] == [1, 0] && f[22..24] == [2, 0];
    FromLE4(f[16..20]);
    FromLE2(f[20..22]);
    FromLE2(f[22..24]);
  }

  lemma DataFields(f: seq<Byte>)
    requires |f| >= HEADER_SIZE && f[32..40] == ALIGN_DATA
    ensures U16(f, 32) == 4 && U16(f, 34) == 16 && f[36..40] == Ascii("data")
  {
    forall i | 32 <= i < 40 ensures f[i] == ALIGN_DATA[i - 32] {
      assert f[32..40][i - 32] == ALIGN_DATA[i - 32];
    }
    assert f[32..34] == [4, 0] && f[34..36] == [0x10, 0] && f[36..40] == Ascii("data");
    FromLE2(f[32..34]);
    FromLE2(f[34..36]);
  }

  /** Frame `i` is the four bytes from `4 * i` on, left sample first. */
  lemma {:induction false} SampleBytesAt(fs: seq<Frame>, i: nat)
    requires i < |fs|
    ensures SampleBytes(fs)[4 * i..4 * i + 4] == [fs[i].l0, fs[i].l1, fs[i].r0, fs[i].r1]
    decreases i
  {
    if i == 0 {
      assert SampleBytes(fs)[0..4] == FrameBytes(fs[0]);
    } else {
      SampleBytesAt(fs[1..], i - 1);
      assert SampleBytes(fs)[4 * i..4 * i + 4] == SampleBytes(fs[1..])[4 * (i - 1)..4 * (i - 1) + 4];
    }
  }

  lemma {:induction false} SamplesRoundTrip(fs: seq<Frame>)
    ensures ReadFrames(SampleBytes(fs)) == fs
    decreases |fs|
  {
    if fs != [] {
      SamplesRoundTrip(fs[1..]);
      assert SampleBytes(fs)[4..] == SampleBytes(fs[1..]);
      assert fs == [fs[0]] + fs[1..];
    }
  }

  /** While the totals stay below 2^32, the file reads back as the same frames at the same rate. */
  lemma CaptureRoundTrip(f: seq<Byte>, rate: nat, frames: seq<Frame>)
    requires IsCapture(f, rate, frames) && 4 * |frames| + 36 < TWO32 && 4 * rate < TWO32
    ensures Read(f) == Clip(rate, frames)
  {
    Numbers(f, rate, frames);
    ReadsAs(f, rate, frames);
  }

  lemma ReadsAs(f: seq<Byte>, rate: nat, frames: seq<Frame>)
    requires HEADER_SIZE <= |f| && HeaderShape(f[..HEADER_SIZE]) && f[HEADER_SIZE..] == SampleBytes(frames)
    requires FromLE(f[4..8]) == 4 * |frames| + 36 && FromLE(f[40..44]) == 4 * |frames|
    requires FromLE(f[24..28]) == rate && FromLE(f[28..32]) == 4 * rate
    ensures Read(f) == Clip(rate, frames)
  {
    ShapeFields(f);
    SamplesRoundTrip(frames);
  }

  lemma Numbers(f: seq<Byte>, rate: nat, frames: seq<Frame>)
    requires IsCapture(f, rate, frames) && 4 * |frames| + 36 < TWO32 && 4 * rate < TWO32
    ensures FromLE(f[4..8]) == 4 * |frames| + 36 && FromLE(f[40..44]) == 4 * |frames|
    ensures FromLE(f[24..28]) == rate && FromLE(f[28..32]) == 4 * rate
  {
    var h := f[..HEADER_SIZE];
    assert f[4..8] == h[4..8] && f[24..28] == h[24..28] && f[28..32] == h[28..32] && f[40..44] == h[40..44];
    Pow256Of4();
    LERoundTrip(4 * |frames| + 36, 4);
    LERoundTrip(rate, 4);
    LERoundTrip(4 * rate, 4);
    LERoundTrip(4 * |frames|, 4);
  }

  // ---- the writer -----------------------------------------------------------

  lemma DropAppend(file: seq<Byte>, chunk: seq<Byte>)
    requires HEADER_SIZE <= |file|
    ensures (file + chunk)[HEADER_SIZE..] == file[HEADER_SIZE..] + chunk
  {
  }

  class Writer {
    const buf: array<Frame>
    var header: seq<Byte>         // static, so a new capture starts with the last one's fields
    var isOpen: bool
    var file: seq<Byte>
    var sampleRate: nat
    var framesUsed: nat
    var dataBytesWritten: nat
    var finished: seq<seq<Byte>>
    ghost var frames: seq<Frame>  // every frame added since the file was opened
    ghost var spilled: seq<Frame> // those already in the file

    /** Nothing is lost between the file and the buffer, and the counter follows the file. */
    ghost predicate Streaming()
      reads this, buf
    {
      && buf.Length == NUM_FRAMES_IN_BUFFER && framesUsed <= NUM_FRAMES_IN_BUFFER && |header| == HEADER_SIZE
      && (isOpen ==>
            && HEADER_SIZE <= |file|
            && file[HEADER_SIZE..] == SampleBytes(spilled) && frames == spilled + buf[..framesUsed]
            && dataBytesWritten == Low32(|file| - HEADER_SIZE))
      && (!isOpen ==> framesUsed == 0 && frames == [] && spilled == [])
    }

    ghost predicate Valid()
      reads this, buf
    {
      Streaming() && HeaderShape(header)
    }

    constructor ()
      ensures Valid() && !isOpen && finished == [] && fresh(buf)
    {
      buf := new Frame[NUM_FRAMES_IN_BUFFER](_ => Frame(0, 0, 0, 0));
      header := T_RIFF + [0, 0, 0, 0] + WAVE_FMT + [0, 0, 0, 0, 0, 0, 0, 0] + ALIGN_DATA + [0, 0, 0, 0];
      isOpen, file, sampleRate, framesUsed, dataBytesWritten, finished := false, [], 0, 0, 0, [];
      frames, spilled := [], [];
    }

    method Create(rate: nat, canOpen: bool)
      requires Streaming() && !isOpen
      modifies `isOpen, `file, `sampleRate, `framesUsed, `dataBytesWritten
      ensures Streaming() && isOpen == canOpen && (canOpen ==> sampleRate == rate)
    {
      if canOpen {
        isOpen, sampleRate, framesUsed, dataBytesWritten := true, rate, 0, 0;
        file := header;
        assert file[HEADER_SIZE..] == [] && buf[..0] == [];
      }
    }

    /** Write the buffered frames out. */
    method Spill()
      requires Streaming() && isOpen
      modifies `file, `dataBytesWritten, `framesUsed, `spilled
      ensures Streaming() && framesUsed == 0 && spilled == frames
    {
      var chunk := SampleBytes(buf[..framesUsed]);
      SampleBytesConcat(spilled, buf[..framesUsed]);
      Low32Add(|file| - HEADER_SIZE, |chunk|);
      DropAppend(file, chunk);
      file := file + chunk;
      dataBytesWritten := Low32(dataBytesWritten + |chunk|);
      spilled, framesUsed := frames, 0;
      assert spilled + buf[..0] == spilled;
    }

    /** The memcpy of one round of the loop. */
    method Copy(data: seq<Frame>)
      requires Streaming() && isOpen && framesUsed + |data| <= NUM_FRAMES_IN_BUFFER
      modifies buf, `framesUsed, `frames
      ensures Streaming() && frames == old(frames) + data
    {
      ghost var used := buf[..framesUsed];
      forall i | 0 <= i < |data| {
        buf[framesUsed + i] := data[i];
      }
      framesUsed := framesUsed + |data|;
      assert buf[..framesUsed] == used + data;
      frames := frames + data;
    }

    /** One round of the loop takes as many frames as fit after making room. */
    method Round(data: seq<Frame>) returns (taken: nat)
      requires Streaming() && isOpen && data != []
      modifies `file, `framesUsed, `dataBytesWritten, `frames, `spilled, buf
      ensures Streaming() && 0 < taken <= |data| && frames == old(frames) + data[..taken]
    {
      var left := NUM_FRAMES_IN_BUFFER - framesUsed;
      if left == 0 {
        Spill();
        left := NUM_FRAMES_IN_BUFFER;
      }
      if left > |data| {
        left := |data|;
      }
      Copy(data[..left]);
      taken := left;
    }

    /** However the input is split into calls, every frame ends up in the stream once, in order. */
    method AddData(rate: nat, data: seq<Frame>, canOpen: bool)
      requires Streaming()
      modifies `isOpen, `file, `sampleRate, `framesUsed, `dataBytesWritten, `frames, `spilled, buf
      ensures Streaming() && isOpen == (old(isOpen) || canOpen)
      ensures isOpen ==> frames == old(frames) + data
      ensures isOpen ==> sampleRate == if old(isOpen) then old(sampleRate) else rate
    {
      if !isOpen {
        Create(rate, canOpen);
      }
      if !isOpen {
        return;
      }
      var at := 0;
      ghost var kept := sampleRate;
      while at < |data|
        invariant 0 <= at <= |data| && Streaming() && isOpen && sampleRate == kept
        invariant frames == old(frames) + data[..at]
        decreases |data| - at
      {
        var taken := Round(data[at..]);
        assert data[..at + taken] == data[..at] + data[at..][..taken];
        at := at + taken;
      }
      assert data[..|data|] == data;
    }

    /** The closed file, if one was open. */
    method Finalise() returns (f: seq<Byte>)
      requires Valid()
      modifies this
      ensures Valid() && !isOpen
      ensures old(isOpen) ==> finished == old(finished) + [f] && IsCapture(f, old(sampleRate), old(frames))
      ensures !old(isOpen) ==> finished == old(finished)
    {
      if !isOpen {
        return [];
      }
      Spill();
      Rewrite();
      f := file;
      finished := finished + [f];
      isOpen, framesUsed, dataBytesWritten, sampleRate := false, 0, 0, 0;
      frames, spilled := [], [];
    }

    method Rewrite()
      requires Streaming() && isOpen && HeaderShape(header) && spilled == frames
      modifies `header, `file
      ensures HeaderShape(header) && IsCapture(file, sampleRate, frames)
    {
      UpdateHeader();
      Overwrite();
    }

    /** Seek to the start and write the header over the first one. */
    method Overwrite()
      requires HEADER_SIZE <= |file| && file[HEADER_SIZE..] == SampleBytes(frames)
      requires dataBytesWritten == Low32(4 * |frames|)
      requires HeaderIs(header, LE(Low32(dataBytesWritten + 36), 4), LE(sampleRate, 4),
                        LE(Low32(4 * sampleRate), 4), LE(dataBytesWritten, 4))
      modifies `file
      ensures IsCapture(file, sampleRate, frames)
    {
      Low32Add(4 * |frames|, 36);
      file := header + file[HEADER_SIZE..];
      assert file[..HEADER_SIZE] == header && file[HEADER_SIZE..] == SampleBytes(frames);
    }

    method UpdateHeader()
      requires HeaderShape(header)
      modifies `header
      ensures HeaderIs(header, LE(Low32(dataBytesWritten + 36), 4), LE(sampleRate, 4),
                       LE(Low32(4 * sampleRate), 4), LE(dataBytesWritten, 4))
    {
      var riff, rate := LE(Low32(dataBytesWritten + 36), 4), LE(sampleRate, 4);
      var byteRate, size := LE(Low32(4 * sampleRate), 4), LE(dataBytesWritten, 4);
      PatchFields(header, riff, rate, byteRate, size);
      header := Patch(header, 0x04, riff);
      header := Patch(header, 0x18, rate);
      header := Patch(header, 0x1c, byteRate);
      header := Patch(header, 0x28, size);
    }
  }

  /** Calls of `capture_audio_add_data`: a sample rate and a block of frames. */
  type Calls = seq<(nat, seq<Frame>)>

  function AllFrames(calls: Calls): seq<Frame> {
    if calls == [] then [] else AllFrames(calls[..|calls| - 1]) + calls[|calls| - 1].1
  }

  /** A whole capture, from the first block to the finished file. */
  method Capture(calls: Calls) returns (f: seq<Byte>)
    requires calls != []
    ensures IsCapture(f, calls[0].0, AllFrames(calls))
    ensures 4 * |AllFrames(calls)| + 36 < TWO32 && 4 * calls[0].0 < TWO32 ==>
              Read(f) == Clip(calls[0].0, AllFrames(calls))
  {
    var w := new Writer();
    for i := 0 to |calls|
      invariant w.Valid() && fresh(w) && fresh(w.buf)
      invariant w.isOpen == (i > 0) && (i > 0 ==> w.sampleRate == calls[0].0)
      invariant w.frames == AllFrames(calls[..i])
    {
      w.AddData(calls[i].0, calls[i].1, true);
      assert calls[..i + 1][..i] == calls[..i];
    }
    assert calls[..|calls|] == calls;
    f := w.Finalise();
    if 4 * |AllFrames(calls)| + 36 < TWO32 && 4 * calls[0].0 < TWO32 {
      CaptureRoundTrip(f, calls[0].0, AllFrames(calls));
    }
  }
}
