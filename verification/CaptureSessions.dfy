/** What the captures record: the files that are left after any run of the capture keys and data calls,
    against the sessions that a user sees, from switching a capture on to switching it off. */
module CaptureSessions {
  import opened Bytes
  import Wav
  import Midi
  import Avi
  import AviWriter
  import opened CaptureControl

  // ---- one kind of capture --------------------------------------------------

  /** What can happen to one kind of capture. */
  datatype Op<C> = Press | TurnOn | TurnOff | Data(call: C) | Shut | Nothing

  /** The state that the keys change, and the writer of the files. */
  datatype Control<S> = Control(state: CaptureState, writer: S)

  function Halt<S>(c: Control<S>, finish: S -> S): Control<S> {
    Control(Off, if c.state == InProgress then finish(c.writer) else c.writer)
  }

  /** The source: data starts a pending capture, and only a capture in progress is finished. */
  function Do<S, C>(c: Control<S>, op: Op<C>, feed: (S, C) -> S, finish: S -> S): Control<S> {
    match op
    case Press => if c.state == Off then c.(state := Pending) else Halt(c, finish)
    case TurnOn => if c.state == Off then c.(state := Pending) else c
    case TurnOff => if c.state == Off then c else Halt(c, finish)
    case Data(call) => if c.state == Off then c else Control(InProgress, feed(c.writer, call))
    case Shut => Halt(c, finish)
    case Nothing => c
  }

  function DoAll<S, C>(c: Control<S>, ops: seq<Op<C>>, feed: (S, C) -> S, finish: S -> S): Control<S> {
    if |ops| == 0 then c else Do(DoAll(c, ops[..|ops| - 1], feed, finish), ops[|ops| - 1], feed, finish)
  }

  /** The user's view: sessions that are over, and the calls of the one that is on. */
  datatype History<C> = History(on: bool, calls: seq<C>, over: seq<seq<C>>)

  function Close<C>(h: History<C>): History<C> {
    if h.on then History(false, [], h.over + [h.calls]) else h
  }

  function See<C>(h: History<C>, op: Op<C>): History<C> {
    match op
    case Press => if h.on then Close(h) else h.(on := true)
    case TurnOn => h.(on := true)
    case TurnOff => Close(h)
    case Data(call) => if h.on then h.(calls := h.calls + [call]) else h
    case Shut => Close(h)
    case Nothing => h
  }

  function SeeAll<C>(ops: seq<Op<C>>): History<C> {
    if |ops| == 0 then History(false, [], []) else See(SeeAll(ops[..|ops| - 1]), ops[|ops| - 1])
  }

  function FeedAll<S, C>(s: S, calls: seq<C>, feed: (S, C) -> S): S {
    if |calls| == 0 then s else feed(FeedAll(s, calls[..|calls| - 1], feed), calls[|calls| - 1])
  }

  /** Writing the sessions one after the other, each finished at its end. */
  function Replay<S, C>(s: S, sessions: seq<seq<C>>, feed: (S, C) -> S, finish: S -> S): S {
    if |sessions| == 0 then s
    else
      var k := |sessions| - 1;
      finish(FeedAll(Replay(s, sessions[..k], feed, finish), sessions[k], feed))
  }

  /** Finishing what is finished changes nothing. */
  ghost predicate Idempotent<S(!new)>(start: S, finish: S -> S) {
    finish(start) == start && forall s {:trigger finish(finish(s))} :: finish(finish(s)) == finish(s)
  }

  ghost predicate Agrees<S(!new), C>(c: Control<S>, h: History<C>, start: S, feed: (S, C) -> S, finish: S -> S) {
    && (c.state == Off <==> !h.on) && (c.state != InProgress ==> |h.calls| == 0)
    && c.writer == FeedAll(Replay(start, h.over, feed, finish), h.calls, feed)
  }

  lemma FinishedReplay<S(!new), C>(start: S, sessions: seq<seq<C>>, feed: (S, C) -> S, finish: S -> S)
    requires Idempotent(start, finish)
    ensures finish(Replay(start, sessions, feed, finish)) == Replay(start, sessions, feed, finish)
  {
    if |sessions| > 0 {
      var k := |sessions| - 1;
      var s := FeedAll(Replay(start, sessions[..k], feed, finish), sessions[k], feed);
      assert finish(finish(s)) == finish(s);
    }
  }

  /** Whether or not the source calls the writer's finish, the end of a session leaves it finished. */
  lemma HaltCloses<S(!new), C>(c: Control<S>, h: History<C>, start: S, feed: (S, C) -> S, finish: S -> S)
    requires Idempotent(start, finish) && Agrees(c, h, start, feed, finish)
    ensures Agrees(Halt(c, finish), Close(h), start, feed, finish)
  {
    var r := Replay(start, h.over, feed, finish);
    FinishedReplay(start, h.over, feed, finish);
    if h.on {
      assert (h.over + [h.calls])[..|h.over|] == h.over;
      assert Replay(start, h.over + [h.calls], feed, finish) == finish(FeedAll(r, h.calls, feed));
    }
  }

  lemma DoAgrees<S(!new), C>(c: Control<S>, h: History<C>, op: Op<C>, start: S, feed: (S, C) -> S, finish: S -> S)
    requires Idempotent(start, finish) && Agrees(c, h, start, feed, finish)
    ensures Agrees(Do(c, op, feed, finish), See(h, op), start, feed, finish)
  {
    HaltCloses(c, h, start, feed, finish);
    if op.Data? && h.on {
      assert (h.calls + [op.call])[..|h.calls|] == h.calls;
    }
  }

  /** For every order of keys and data the writer has done what the sessions ask for. */
  lemma {:induction false} ControlFollowsSessions<S(!new), C>(ops: seq<Op<C>>, start: S,
                                                              feed: (S, C) -> S, finish: S -> S)
    requires Idempotent(start, finish)
    ensures Agrees(DoAll(Control(Off, start), ops, feed, finish), SeeAll(ops), start, feed, finish)
    decreases |ops|
  {
    if |ops| > 0 {
      var init, op := ops[..|ops| - 1], ops[|ops| - 1];
      ControlFollowsSessions(init, start, feed, finish);
      DoAgrees(DoAll(Control(Off, start), init, feed, finish), SeeAll(init), op, start, feed, finish);
    }
  }

  /** The calls of a session from the first one at which the file could be created. */
  function Heard<C>(calls: seq<C>, opens: C -> bool): (r: seq<C>)
    ensures |r| <= |calls|
  {
    if |calls| == 0 then []
    else
      var k := |calls| - 1;
      if |Heard(calls[..k], opens)| > 0 || opens(calls[k]) then Heard(calls[..k], opens) + [calls[k]] else []
  }

  // ---- audio ----------------------------------------------------------------

  datatype AudioCall = AudioCall(rate: nat, frames: seq<Wav.Frame>, canOpen: bool)

  /** A finished WAV file; `Wav.IsCapture` says which bytes it has. */
  datatype Take = Take(rate: nat, frames: seq<Wav.Frame>)

  datatype AudioWriter = AudioWriter(open: bool, take: Take, done: seq<Take>)

  const SILENT := AudioWriter(false, Take(0, []), [])

  /** What `Wav.Writer.AddData` does to the stream. */
  function FeedAudio(w: AudioWriter, c: AudioCall): AudioWriter {
    if w.open then w.(take := w.take.(frames := w.take.frames + c.frames))
    else if c.canOpen then w.(open := true, take := Take(c.rate, c.frames))
    else w
  }

  function FinishAudio(w: AudioWriter): AudioWriter {
    if w.open then AudioWriter(false, SILENT.take, w.done + [w.take]) else w
  }

  function AudioOpens(c: AudioCall): bool {
    c.canOpen
  }

  function Blocks(calls: seq<AudioCall>): Wav.Calls {
    if calls == [] then [] else Blocks(calls[..|calls| - 1]) + [(calls[|calls| - 1].rate, calls[|calls| - 1].frames)]
  }

  /** The file of one session: the rate of its first block, and all frames. */
  function TakeOf(calls: seq<AudioCall>): Take
    requires calls != []
  {
    Take(calls[0].rate, Wav.AllFrames(Blocks(calls)))
  }

  function Takes(sessions: seq<seq<AudioCall>>): seq<Take> {
    if sessions == [] then []
    else
      var k := |sessions| - 1;
      var heard := Heard(sessions[k], AudioOpens);
      Takes(sessions[..k]) + (if heard == [] then [] else [TakeOf(heard)])
  }

  lemma TakeGrows(calls: seq<AudioCall>, c: AudioCall)
    requires calls != []
    ensures TakeOf(calls + [c]) == Take(TakeOf(calls).rate, TakeOf(calls).frames + c.frames)
  {
    assert (calls + [c])[..|calls|] == calls;
    var b := Blocks(calls);
    assert Blocks(calls + [c]) == b + [(c.rate, c.frames)] && (b + [(c.rate, c.frames)])[..|b|] == b;
  }

  lemma TakeStarts(c: AudioCall)
    ensures TakeOf([c]) == Take(c.rate, c.frames)
  {
    assert Blocks([c]) == [(c.rate, c.frames)] && [(c.rate, c.frames)][..0] == [] && Wav.AllFrames([]) == [];
    assert Wav.AllFrames(Blocks([c])) == [] + c.frames;
  }

  lemma {:induction false} SessionTake(w: AudioWriter, calls: seq<AudioCall>)
    requires !w.open
    ensures var r, heard := FeedAll(w, calls, FeedAudio), Heard(calls, AudioOpens);
            && r.done == w.done && r.open == (heard != []) && (!r.open ==> r == w)
            && (r.open ==> r.take == TakeOf(heard))
    decreases |calls|
  {
    if |calls| > 0 {
      var k := |calls| - 1;
      SessionTake(w, calls[..k]);
      if Heard(calls[..k], AudioOpens) != [] {
        TakeGrows(Heard(calls[..k], AudioOpens), calls[k]);
      } else {
        TakeStarts(calls[k]);
      }
    }
  }

  lemma {:induction false} ReplayTakes(sessions: seq<seq<AudioCall>>)
    ensures var r := Replay(SILENT, sessions, FeedAudio, FinishAudio); !r.open && r.done == Takes(sessions)
    decreases |sessions|
  {
    if |sessions| > 0 {
      var k := |sessions| - 1;
      ReplayTakes(sessions[..k]);
      SessionTake(Replay(SILENT, sessions[..k], FeedAudio, FinishAudio), sessions[k]);
    }
  }

  // ---- MIDI -----------------------------------------------------------------

  type Ticks = t: int | 0 <= t < TWO32

  datatype MidiCall = MidiCall(now: Ticks, message: Midi.Message, canOpen: bool)

  /** `done` are the logs of the finished files; `Midi.FileBytes` gives their bytes. */
  datatype MidiWriter = MidiWriter(open: bool, last: Ticks, log: Midi.Log, done: seq<Midi.Log>)

  const QUIET := MidiWriter(false, 0, [], [])

  function MidiOpens(c: MidiCall): bool {
    c.canOpen
  }

  /** What `Midi.Writer.AddData` adds to the track. */
  function FeedMidi(w: MidiWriter, c: MidiCall): MidiWriter {
    if w.open then w.(last := c.now, log := w.log + [(Midi.TicksSince(c.now, w.last), c.message)])
    else if c.canOpen then w.(open := true, last := c.now, log := [(0, c.message)])
    else w
  }

  function FinishMidi(w: MidiWriter): MidiWriter {
    if w.open then MidiWriter(false, 0, [], w.done + [w.log]) else w
  }

  function Messages(calls: seq<MidiCall>): (r: Midi.Calls)
    ensures |r| == |calls| && Midi.CallsOk(r)
    ensures forall i :: 0 <= i < |calls| ==> r[i] == (calls[i].now, calls[i].message)
  {
    seq(|calls|, i requires 0 <= i < |calls| => (calls[i].now as nat, calls[i].message))
  }

  /** The log of one session: its messages with the distances between them. */
  function LogOf(calls: seq<MidiCall>): Midi.Log {
    Midi.Events(Messages(calls))
  }

  function Logs(sessions: seq<seq<MidiCall>>): seq<Midi.Log> {
    if sessions == [] then []
    else
      var k := |sessions| - 1;
      var heard := Heard(sessions[k], MidiOpens);
      Logs(sessions[..k]) + (if heard == [] then [] else [LogOf(heard)])
  }

  lemma LogGrows(calls: seq<MidiCall>, c: MidiCall)
    ensures calls != [] ==>
              LogOf(calls + [c]) == LogOf(calls) + [(Midi.TicksSince(c.now, calls[|calls| - 1].now), c.message)]
    ensures calls == [] ==> LogOf([c]) == [(0, c.message)]
  {
    var all := Messages(calls + [c]);
    assert all[..|calls|] == Messages(calls);
    if calls == [] {
      assert calls + [c] == [c];
    }
  }

  lemma {:induction false} SessionLog(w: MidiWriter, calls: seq<MidiCall>)
    requires !w.open
    ensures var r, heard := FeedAll(w, calls, FeedMidi), Heard(calls, MidiOpens);
            && r.done == w.done && r.open == (heard != []) && (!r.open ==> r == w)
            && (r.open ==> r.log == LogOf(heard) && r.last == heard[|heard| - 1].now)
    decreases |calls|
  {
    if |calls| > 0 {
      var k := |calls| - 1;
      SessionLog(w, calls[..k]);
      LogGrows(Heard(calls[..k], MidiOpens), calls[k]);
    }
  }

  lemma {:induction false} ReplayLogs(sessions: seq<seq<MidiCall>>)
    ensures var r := Replay(QUIET, sessions, FeedMidi, FinishMidi); !r.open && r.done == Logs(sessions)
    decreases |sessions|
  {
    if |sessions| > 0 {
      var k := |sessions| - 1;
      ReplayLogs(sessions[..k]);
      SessionLog(Replay(QUIET, sessions[..k], FeedMidi, FinishMidi), sessions[k]);
    }
  }

  // ---- video ----------------------------------------------------------------

  function FeedVideo(p: AviWriter.Progress, c: AviWriter.Call): AviWriter.Progress {
    if AviWriter.ProgressOk(p) then AviWriter.Feed(p, c) else p
  }

  function FinishVideo(p: AviWriter.Progress): AviWriter.Progress {
    AviWriter.Finish(p)
  }

  /** The sample rate of a file that gets no sound is that of the file before it, so it is left aside. */
  function Rateless(r: AviWriter.Recording): AviWriter.Recording {
    r.(info := r.info.(audioRate := 0))
  }

  function RatelessAll(rs: seq<AviWriter.Recording>): (s: seq<AviWriter.Recording>)
    ensures |s| == |rs| && forall i :: 0 <= i < |rs| ==> s[i] == Rateless(rs[i])
  {
    seq(|rs|, i requires 0 <= i < |rs| => Rateless(rs[i]))
  }

  /** The files of all sessions, each recorded by itself. */
  function VideoFiles(sessions: seq<seq<AviWriter.Call>>): seq<AviWriter.Recording> {
    if sessions == [] then []
    else VideoFiles(sessions[..|sessions| - 1]) + AviWriter.Files(sessions[|sessions| - 1])
  }

  lemma RatelessConcat(a: seq<AviWriter.Recording>, b: seq<AviWriter.Recording>)
    ensures RatelessAll(a + b) == RatelessAll(a) + RatelessAll(b)
  {
  }

  /** `p` is where `q` is, with the files `before` finished earlier. */
  ghost predicate Continues(p: AviWriter.Progress, q: AviWriter.Progress, before: seq<AviWriter.Recording>) {
    && AviWriter.ProgressOk(p) && AviWriter.ProgressOk(q) && p.open == q.open
    && RatelessAll(p.done) == RatelessAll(before + q.done)
    && (p.open ==> p.format == q.format && p.entries == q.entries && p.pending == q.pending && p.frames == q.frames)
  }

  lemma FinishContinues(p: AviWriter.Progress, q: AviWriter.Progress, before: seq<AviWriter.Recording>)
    requires Continues(p, q, before)
    ensures Continues(AviWriter.Finish(p), AviWriter.Finish(q), before)
  {
    if p.open {
      var rp := AviWriter.Recording(AviWriter.InfoOf(p.format, p.frames, p.audioRate, p.entries), p.entries);
      var rq := AviWriter.Recording(AviWriter.InfoOf(q.format, q.frames, q.audioRate, q.entries), q.entries);
      assert Rateless(rp) == Rateless(rq);
      RatelessConcat(p.done, [rp]);
      RatelessConcat(before + q.done, [rq]);
      assert before + (q.done + [rq]) == before + q.done + [rq];
      assert RatelessAll([rp]) == RatelessAll([rq]);
    }
  }

  lemma ReadyContinues(p: AviWriter.Progress, q: AviWriter.Progress, before: seq<AviWriter.Recording>,
                       f: AviWriter.Format, canOpen: bool)
    requires Continues(p, q, before)
    ensures Continues(AviWriter.Ready(p, f, canOpen), AviWriter.Ready(q, f, canOpen), before)
  {
    FinishContinues(p, q, before);
  }

  lemma FeedContinues(p: AviWriter.Progress, q: AviWriter.Progress, before: seq<AviWriter.Recording>, c: AviWriter.Call)
    requires Continues(p, q, before)
    ensures Continues(AviWriter.Feed(p, c), AviWriter.Feed(q, c), before)
  {
    if c.Picture? {
      ReadyContinues(p, q, before, c.format, c.canOpen);
    }
  }

  lemma {:induction false} SessionFiles(p: AviWriter.Progress, calls: seq<AviWriter.Call>)
    requires !p.open && AviWriter.ProgressOk(p)
    ensures Continues(FeedAll(p, calls, FeedVideo), AviWriter.FeedAll(calls), p.done)
    decreases |calls|
  {
    if |calls| == 0 {
      assert p.done + [] == p.done;
    } else {
      var k := |calls| - 1;
      SessionFiles(p, calls[..k]);
      FeedContinues(FeedAll(p, calls[..k], FeedVideo), AviWriter.FeedAll(calls[..k]), p.done, calls[k]);
    }
  }

  lemma {:induction false} ReplayFiles(sessions: seq<seq<AviWriter.Call>>)
    ensures var r := Replay(AviWriter.IDLE, sessions, FeedVideo, FinishVideo);
            !r.open && AviWriter.ProgressOk(r) && RatelessAll(r.done) == RatelessAll(VideoFiles(sessions))
    decreases |sessions|
  {
    if |sessions| > 0 {
      var k := |sessions| - 1;
      ReplayFiles(sessions[..k]);
      var p := Replay(AviWriter.IDLE, sessions[..k], FeedVideo, FinishVideo);
      SessionFiles(p, sessions[k]);
      FinishContinues(FeedAll(p, sessions[k], FeedVideo), AviWriter.FeedAll(sessions[k]), p.done);
      RatelessConcat(p.done, AviWriter.Files(sessions[k]));
      RatelessConcat(VideoFiles(sessions[..k]), AviWriter.Files(sessions[k]));
    }
  }

  // ---- the three together ---------------------------------------------------

  datatype System = System(audio: Control<AudioWriter>, midi: Control<MidiWriter>, video: Control<AviWriter.Progress>)

  const AT_START := System(Control(Off, SILENT), Control(Off, QUIET), Control(Off, AviWriter.IDLE))

  /** The capture keys, the video calls of the emulator's menu, and the data that the emulator offers. */
  datatype Action =
    | AudioKey | MidiKey | VideoKey | BeginVideo | EndVideo
    | Show(format: AviWriter.Format, canOpen: bool, size: nat, data: seq<Byte>)
    | Block(block: AudioCall)
    | Note(note: MidiCall)
    | Exit

  function AudioOp(a: Action): Op<AudioCall> {
    match a
    case AudioKey => Press
    case Block(c) => Data(c)
    case Exit => Shut
    case _ => Nothing
  }

  function MidiOp(a: Action): Op<MidiCall> {
    match a
    case MidiKey => Press
    case Note(c) => Data(c)
    case Exit => Shut
    case _ => Nothing
  }

  /** Audio data goes to a video capture, too. */
  function VideoOp(a: Action): Op<AviWriter.Call> {
    match a
    case VideoKey => Press
    case BeginVideo => TurnOn
    case EndVideo => TurnOff
    case Show(f, canOpen, size, data) => Data(AviWriter.Picture(f, canOpen, size, data))
    case Block(c) => Data(AviWriter.Sound(c.rate, c.frames))
    case Exit => Shut
    case _ => Nothing
  }

  function Act(s: System, a: Action): System {
    System(Do(s.audio, AudioOp(a), FeedAudio, FinishAudio), Do(s.midi, MidiOp(a), FeedMidi, FinishMidi),
           Do(s.video, VideoOp(a), FeedVideo, FinishVideo))
  }

  function ActAll(acts: seq<Action>): System {
    if acts == [] then AT_START else Act(ActAll(acts[..|acts| - 1]), acts[|acts| - 1])
  }

  function Ops<C>(acts: seq<Action>, op: Action -> Op<C>): (ops: seq<Op<C>>)
    ensures |ops| == |acts| && forall i :: 0 <= i < |acts| ==> ops[i] == op(acts[i])
  {
    seq(|acts|, i requires 0 <= i < |acts| => op(acts[i]))
  }

  /** The sessions that are over after the actions and the final exit. */
  function Sessions<C>(acts: seq<Action>, op: Action -> Op<C>): seq<seq<C>> {
    SeeAll(Ops(acts + [Exit], op)).over
  }

  lemma OpsPrefix<C>(acts: seq<Action>, op: Action -> Op<C>)
    requires acts != []
    ensures Ops(acts, op)[..|acts| - 1] == Ops(acts[..|acts| - 1], op)
  {
  }

  lemma {:induction false} ActsAreOps(acts: seq<Action>)
    ensures ActAll(acts).audio == DoAll(AT_START.audio, Ops(acts, AudioOp), FeedAudio, FinishAudio)
    ensures ActAll(acts).midi == DoAll(AT_START.midi, Ops(acts, MidiOp), FeedMidi, FinishMidi)
    ensures ActAll(acts).video == DoAll(AT_START.video, Ops(acts, VideoOp), FeedVideo, FinishVideo)
    decreases |acts|
  {
    if acts != [] {
      ActsAreOps(acts[..|acts| - 1]);
      OpsPrefix(acts, AudioOp);
      OpsPrefix(acts, MidiOp);
      OpsPrefix(acts, VideoOp);
    }
  }

  /** After any run of keys, calls and data, and the final exit, the finished files are exactly those of the
      sessions: one WAV file for each audio session, with the rate of its first block and all its frames;
      one MIDI file for each MIDI session, with its messages at their distances; and for each video session
      the files of its calls, each recorded as if by itself. No session sees another one's data, none is
      lost or finished twice, and no file is left open. */
  lemma FilesAreSessions(acts: seq<Action>)
    ensures var s := ActAll(acts + [Exit]);
            && !s.audio.writer.open && s.audio.writer.done == Takes(Sessions(acts, AudioOp))
            && !s.midi.writer.open && s.midi.writer.done == Logs(Sessions(acts, MidiOp))
            && !s.video.writer.open
            && RatelessAll(s.video.writer.done) == RatelessAll(VideoFiles(Sessions(acts, VideoOp)))
  {
    ActsAreOps(acts + [Exit]);
    AudioAtExit(acts);
    MidiAtExit(acts);
    VideoAtExit(acts);
  }

  // ---- what the sessions consist of -----------------------------------------

  /** Whether a capture is on after some actions. */
  function AudioOn(acts: seq<Action>): bool {
    acts != [] &&
    var on, a := AudioOn(acts[..|acts| - 1]), acts[|acts| - 1];
    if a.AudioKey? then !on else on && !a.Exit?
  }

  function MidiOn(acts: seq<Action>): bool {
    acts != [] &&
    var on, a := MidiOn(acts[..|acts| - 1]), acts[|acts| - 1];
    if a.MidiKey? then !on else on && !a.Exit?
  }

  function VideoOn(acts: seq<Action>): bool {
    acts != [] &&
    var on, a := VideoOn(acts[..|acts| - 1]), acts[|acts| - 1];
    if a.VideoKey? then !on else a.BeginVideo? || (on && !a.EndVideo? && !a.Exit?)
  }

  /** The data that came while it was on. */
  function AudioData(acts: seq<Action>): seq<AudioCall> {
    if acts == [] then []
    else
      var init, a := acts[..|acts| - 1], acts[|acts| - 1];
      AudioData(init) + (if a.Block? && AudioOn(init) then [a.block] else [])
  }

  function MidiData(acts: seq<Action>): seq<MidiCall> {
    if acts == [] then []
    else
      var init, a := acts[..|acts| - 1], acts[|acts| - 1];
      MidiData(init) + (if a.Note? && MidiOn(init) then [a.note] else [])
  }

  function VideoData(acts: seq<Action>): seq<AviWriter.Call> {
    if acts == [] then []
    else
      var init, a := acts[..|acts| - 1], acts[|acts| - 1];
      VideoData(init)
      + (if !VideoOn(init) then []
         else if a.Block? then [AviWriter.Sound(a.block.rate, a.block.frames)]
         else if a.Show? then [AviWriter.Picture(a.format, a.canOpen, a.size, a.data)]
         else [])
  }

  function Joined<C>(sessions: seq<seq<C>>): seq<C> {
    if |sessions| == 0 then [] else Joined(sessions[..|sessions| - 1]) + sessions[|sessions| - 1]
  }

  function AllCalls<C>(h: History<C>): seq<C> {
    Joined(h.over) + h.calls
  }

  predicate Tidy<C>(h: History<C>) {
    h.on || |h.calls| == 0
  }

  /** Nothing but data adds to the calls, and only while the capture is on. */
  lemma SeeAdds<C>(h: History<C>, op: Op<C>)
    requires Tidy(h)
    ensures Tidy(See(h, op))
    ensures AllCalls(See(h, op)) == AllCalls(h) + (if op.Data? && h.on then [op.call] else [])
  {
    assert (h.over + [h.calls])[..|h.over|] == h.over;
    assert Joined(h.over + [h.calls]) == Joined(h.over) + h.calls;
  }

  lemma {:induction false} AudioSessionsHold(acts: seq<Action>)
    ensures var h := SeeAll(Ops(acts, AudioOp)); Tidy(h) && h.on == AudioOn(acts) && AllCalls(h) == AudioData(acts)
    decreases |acts|
  {
    if acts != [] {
      AudioSessionsHold(acts[..|acts| - 1]);
      OpsPrefix(acts, AudioOp);
      SeeAdds(SeeAll(Ops(acts[..|acts| - 1], AudioOp)), AudioOp(acts[|acts| - 1]));
    }
  }

  lemma {:induction false} MidiSessionsHold(acts: seq<Action>)
    ensures var h := SeeAll(Ops(acts, MidiOp)); Tidy(h) && h.on == MidiOn(acts) && AllCalls(h) == MidiData(acts)
    decreases |acts|
  {
    if acts != [] {
      MidiSessionsHold(acts[..|acts| - 1]);
      OpsPrefix(acts, MidiOp);
      SeeAdds(SeeAll(Ops(acts[..|acts| - 1], MidiOp)), MidiOp(acts[|acts| - 1]));
    }
  }

  lemma {:induction false} VideoSessionsHold(acts: seq<Action>)
    ensures var h := SeeAll(Ops(acts, VideoOp)); Tidy(h) && h.on == VideoOn(acts) && AllCalls(h) == VideoData(acts)
    decreases |acts|
  {
    if acts != [] {
      VideoSessionsHold(acts[..|acts| - 1]);
      OpsPrefix(acts, VideoOp);
      SeeAdds(SeeAll(Ops(acts[..|acts| - 1], VideoOp)), VideoOp(acts[|acts| - 1]));
    }
  }

  /** The sessions together are exactly the data that came while the captures were on, in order; audio blocks
      are part of the video sessions, too. */
  lemma SessionsAreData(acts: seq<Action>)
    ensures Joined(Sessions(acts, AudioOp)) == AudioData(acts)
    ensures Joined(Sessions(acts, MidiOp)) == MidiData(acts)
    ensures Joined(Sessions(acts, VideoOp)) == VideoData(acts)
  {
    var all := acts + [Exit];
    assert all[..|acts|] == acts && all[|all| - 1] == Exit;
    assert !AudioOn(all) && !MidiOn(all) && !VideoOn(all);
    assert AudioData(all) == AudioData(acts) && MidiData(all) == MidiData(acts) && VideoData(all) == VideoData(acts);
    AudioSessionsHold(all);
    MidiSessionsHold(all);
    VideoSessionsHold(all);
  }

  lemma AtExit<S(!new), C>(acts: seq<Action>, op: Action -> Op<C>, start: S, feed: (S, C) -> S, finish: S -> S)
    requires op(Exit) == Shut && Idempotent(start, finish)
    ensures DoAll(Control(Off, start), Ops(acts + [Exit], op), feed, finish).writer
            == Replay(start, Sessions(acts, op), feed, finish)
  {
    ControlFollowsSessions(Ops(acts + [Exit], op), start, feed, finish);
    var ops := Ops(acts + [Exit], op);
    assert ops[|ops| - 1] == Shut;
  }

  lemma AudioAtExit(acts: seq<Action>)
    ensures var w := DoAll(AT_START.audio, Ops(acts + [Exit], AudioOp), FeedAudio, FinishAudio).writer;
            !w.open && w.done == Takes(Sessions(acts, AudioOp))
  {
    AtExit(acts, AudioOp, SILENT, FeedAudio, FinishAudio);
    ReplayTakes(Sessions(acts, AudioOp));
  }

  lemma MidiAtExit(acts: seq<Action>)
    ensures var w := DoAll(AT_START.midi, Ops(acts + [Exit], MidiOp), FeedMidi, FinishMidi).writer;
            !w.open && w.done == Logs(Sessions(acts, MidiOp))
  {
    AtExit(acts, MidiOp, QUIET, FeedMidi, FinishMidi);
    ReplayLogs(Sessions(acts, MidiOp));
  }

  lemma VideoAtExit(acts: seq<Action>)
    ensures var w := DoAll(AT_START.video, Ops(acts + [Exit], VideoOp), FeedVideo, FinishVideo).writer;
            !w.open && RatelessAll(w.done) == RatelessAll(VideoFiles(Sessions(acts, VideoOp)))
  {
    AtExit(acts, VideoOp, AviWriter.IDLE, FeedVideo, FinishVideo);
    ReplayFiles(Sessions(acts, VideoOp));
  }

  // ---- the handlers of the capture module -----------------------------------

  /** The files of a writer as the capture module counts them. */
  function Counted(state: CaptureState, open: bool, done: nat): Stream {
    Stream(state, open, done + (if open then 1 else 0), done)
  }

  function Erased(s: System): Capture {
    Capture(Counted(s.audio.state, s.audio.writer.open, |s.audio.writer.done|),
            Counted(s.midi.state, s.midi.writer.open, |s.midi.writer.done|),
            Counted(s.video.state, s.video.writer.open, |s.video.writer.done|))
  }

  function EventOf(s: System, a: Action): Event {
    match a
    case AudioKey => ToggleAudio
    case MidiKey => ToggleMidi
    case VideoKey => ToggleVideo
    case BeginVideo => StartVideo
    case EndVideo => StopVideo
    case Show(f, canOpen, _, _) => AddFrame(s.video.writer.format != f, canOpen)
    case Block(c) => AddAudio(c.canOpen)
    case Note(c) => AddMidi(c.canOpen)
    case Exit => Destroy
  }

  /** An action does to states and handles what the handlers of the capture module do, as long as MIDI data
      comes only while it is wanted. */
  lemma ActRefinesControl(s: System, a: Action)
    requires AviWriter.ProgressOk(s.video.writer) && Guarded(Erased(s), EventOf(s, a))
    ensures Erased(Act(s, a)) == Step(Erased(s), EventOf(s, a))
  {
  }
}
