/** Which captures are wanted, pending or running, and the files that running captures own. */
module CaptureControl {

  datatype CaptureState = Off | Pending | InProgress

  /** One kind of capture: its state, whether its file handle is open, and how many files it has created
      and finalised so far. */
  datatype Stream = Stream(state: CaptureState, open: bool, created: nat, finalised: nat)

  datatype Capture = Capture(audio: Stream, midi: Stream, video: Stream)

  const IDLE := Stream(Off, false, 0, 0)

  // ---- the parts ------------------------------------------------------------

  /** The writers create their file on the first data they get, if that succeeds. */
  function Ensure(s: Stream, canOpen: bool): Stream {
    if s.open || !canOpen then s else s.(open := true, created := s.created + 1)
  }

  /** The writers finalise only an open file. */
  function Finalise(s: Stream): Stream {
    if s.open then s.(open := false, finalised := s.finalised + 1) else s
  }

  /** Data arrives while a capture is wanted. */
  function Started(s: Stream): Stream {
    if s.state == Pending then s.(state := InProgress) else s
  }

  /** The toggle keys of audio and MIDI, and start or stop of video. */
  function Toggle(s: Stream): Stream {
    match s.state
    case Off => s.(state := Pending)
    case Pending => s.(state := Off)
    case InProgress => Finalise(s).(state := Off)
  }

  function Shutdown(s: Stream): Stream {
    if s.state == InProgress then Finalise(s).(state := Off) else s.(state := Off)
  }

  // ---- steps ----------------------------------------------------------------

  datatype Event =
    | ToggleAudio
    | ToggleMidi
    | ToggleVideo
    | StartVideo
    | StopVideo
    | AddFrame(formatChanged: bool, canOpen: bool)
    | AddAudio(canOpen: bool)
    | AddMidi(canOpen: bool)
    | Destroy

  function Step(c: Capture, e: Event): Capture {
    match e
    case ToggleAudio => c.(audio := Toggle(c.audio))
    case ToggleMidi => c.(midi := Toggle(c.midi))
    case ToggleVideo => c.(video := Toggle(c.video))
    case StartVideo => if c.video.state == Off then c.(video := Toggle(c.video)) else c
    case StopVideo => if c.video.state == Off then c else c.(video := Toggle(c.video))
    case AddFrame(changed, canOpen) =>
      if c.video.state == Off then c
      else c.(video := Ensure(if changed then Finalise(Started(c.video)) else Started(c.video), canOpen))
    case AddAudio(canOpen) =>
      Capture(if c.audio.state == Off then c.audio else Ensure(Started(c.audio), canOpen), c.midi, Started(c.video))
    case AddMidi(canOpen) => c.(midi := Ensure(Started(c.midi), canOpen))
    case Destroy => Capture(Shutdown(c.audio), Shutdown(c.midi), Shutdown(c.video))
  }

  // ---- files never leak -----------------------------------------------------

  /** A handle is open only while the capture is in progress, and every file that was created is either
      the open one or was finalised, once. */
  predicate StreamOk(s: Stream) {
    (s.open ==> s.state == InProgress) && s.created == s.finalised + (if s.open then 1 else 0)
  }

  predicate Inv(c: Capture) {
    StreamOk(c.audio) && StreamOk(c.midi) && StreamOk(c.video)
  }

  /** The MIDI code asks first whether a capture is wanted. */
  predicate Guarded(c: Capture, e: Event) {
    e.AddMidi? ==> c.midi.state != Off
  }

  /** `CAPTURE_AddMidiData` itself does not look at the state: of all steps, only MIDI data that opens a
      file while MIDI capture is off breaks the rule. */
  lemma StepKeepsInvIff(c: Capture, e: Event)
    requires Inv(c)
    ensures Inv(Step(c, e)) <==> !(e.AddMidi? && c.midi.state == Off && e.canOpen)
  {
  }

  ghost predicate GuardedRun(c: Capture, es: seq<Event>)
    decreases |es|
  {
    es == [] || (Guarded(c, es[0]) && GuardedRun(Step(c, es[0]), es[1..]))
  }

  function Run(c: Capture, es: seq<Event>): Capture
    decreases |es|
  {
    if es == [] then c else Run(Step(c, es[0]), es[1..])
  }

  lemma {:induction false} RunKeepsInv(c: Capture, es: seq<Event>)
    requires Inv(c) && GuardedRun(c, es)
    ensures Inv(Run(c, es))
    decreases |es|
  {
    if es != [] {
      StepKeepsInvIff(c, es[0]);
      RunKeepsInv(Step(c, es[0]), es[1..]);
    }
  }

  /** After any run, shutting down leaves no file open and every file finalised exactly once. */
  lemma NothingLeaks(es: seq<Event>)
    requires GuardedRun(Capture(IDLE, IDLE, IDLE), es)
    ensures var c := Step(Run(Capture(IDLE, IDLE, IDLE), es), Destroy);
            && !c.audio.open && !c.midi.open && !c.video.open
            && c.audio.created == c.audio.finalised && c.midi.created == c.midi.finalised
            && c.video.created == c.video.finalised
  {
    RunKeepsInv(Capture(IDLE, IDLE, IDLE), es);
  }

  /** Without the guard a file does leak: MIDI data while off, then shutdown. */
  lemma UnguardedMidiLeaks()
    ensures Step(Step(Capture(IDLE, IDLE, IDLE), AddMidi(true)), Destroy).midi.open
  {
  }

  // ---- the module -----------------------------------------------------------

  class Module {
    var audio: Stream
    var midi: Stream
    var video: Stream

    ghost function View(): Capture
      reads this
    {
      Capture(audio, midi, video)
    }

    constructor ()
      ensures View() == Capture(IDLE, IDLE, IDLE)
    {
      audio, midi, video := IDLE, IDLE, IDLE;
    }

    method StartVideoCapture()
      modifies `video
      ensures View() == Step(old(View()), StartVideo)
    {
      match video.state
      case Off => video := video.(state := Pending);
      case Pending =>
      case InProgress =>
    }

    method StopVideoCapture()
      modifies `video
      ensures View() == Step(old(View()), StopVideo)
    {
      match video.state
      case Off =>
      case Pending => video := video.(state := Off);
      case InProgress =>
        video := Finalise(video);
        video := video.(state := Off);
    }

    method HandleVideoEvent(pressed: bool)
      modifies `video
      ensures View() == if pressed then Step(old(View()), ToggleVideo) else old(View())
    {
      if !pressed {
        return;
      }
      if video.state != Off {
        StopVideoCapture();
      } else {
        StartVideoCapture();
      }
    }

    method AddVideoFrame(formatChanged: bool, canOpen: bool)
      modifies `video
      ensures View() == Step(old(View()), AddFrame(formatChanged, canOpen))
    {
      if video.state == Off {
        return;
      }
      if video.state == Pending {
        video := video.(state := InProgress);
      }
      if video.open && formatChanged {
        video := Finalise(video);
      }
      if !video.open {
        video := Ensure(video, canOpen);
      }
    }

    method AddAudioData(canOpen: bool)
      modifies `audio, `video
      ensures View() == Step(old(View()), AddAudio(canOpen))
    {
      if video.state == Pending {
        video := video.(state := InProgress);
      }
      if audio.state != Off {
        if audio.state == Pending {
          audio := audio.(state := InProgress);
        }
        audio := Ensure(audio, canOpen);
      }
    }

    method AddMidiData(canOpen: bool)
      modifies `midi
      ensures View() == Step(old(View()), AddMidi(canOpen))
    {
      if midi.state == Pending {
        midi := midi.(state := InProgress);
      }
      midi := Ensure(midi, canOpen);
    }

    method HandleAudioEvent(pressed: bool)
      modifies `audio
      ensures View() == if pressed then Step(old(View()), ToggleAudio) else old(View())
    {
      if !pressed {
        return;
      }
      match audio.state
      case Off => audio := audio.(state := Pending);
      case Pending => audio := audio.(state := Off);
      case InProgress =>
        audio := Finalise(audio);
        audio := audio.(state := Off);
    }

    method HandleMidiEvent(pressed: bool)
      modifies `midi
      ensures View() == if pressed then Step(old(View()), ToggleMidi) else old(View())
    {
      if !pressed {
        return;
      }
      match midi.state
      case Off => midi := midi.(state := Pending);
      case Pending => midi := midi.(state := Off);
      case InProgress =>
        midi := Finalise(midi);
        midi := midi.(state := Off);
    }

    method DestroyAll()
      modifies this
      ensures View() == Step(old(View()), Destroy)
    {
      if audio.state == InProgress {
        audio := Finalise(audio);
        audio := audio.(state := Off);
      }
      if midi.state == InProgress {
        midi := Finalise(midi);
        midi := midi.(state := Off);
      }
      if video.state == InProgress {
        video := Finalise(video);
        video := video.(state := Off);
      }
      audio, midi, video := audio.(state := Off), midi.(state := Off), video.(state := Off);
    }
  }
}
