/** The MIDI capture writer and an independent reader of the Standard MIDI File it produces. */
module Midi {
  import opened Bytes

  datatype Option<+T> = None | Some(value: T)

  // ---- variable-length numbers ----------------------------------------------

  const TWO28 := 0x1000_0000

  /** The base-128 digits of `v`, modulo 2^28, most significant first. */
  function Digits7(v: nat): (d: (nat, nat, nat, nat))
    ensures d.0 < 128 && d.1 < 128 && d.2 < 128 && d.3 < 128
  {
    (v / 0x20_0000 % 128, v / 0x4000 % 128, v / 128 % 128, v % 128)
  }

  /** Leading zero digits are left out; all bytes but the last carry the high bit. */
  function EncodeDigits(d: (nat, nat, nat, nat)): (s: seq<Byte>)
    requires d.0 < 128 && d.1 < 128 && d.2 < 128 && d.3 < 128
    ensures 1 <= |s| <= 4
  {
    (if d.0 != 0 then [128 + d.0] else [])
    + (if d.0 != 0 || d.1 != 0 then [128 + d.1] else [])
    + (if d.0 != 0 || d.1 != 0 || d.2 != 0 then [128 + d.2] else [])
    + [d.3]
  }

  /** What `raw_midi_add_number` emits. */
  function EncodeNumber(v: nat): (s: seq<Byte>)
    ensures 1 <= |s| <= 4
  {
    EncodeDigits(Digits7(v))
  }

  /** The reader: seven bits per byte, most significant first, high bit on all but the last. */
  function DecodeNumber(s: seq<Byte>, acc: nat): (r: Option<(nat, seq<Byte>)>)
    ensures r.Some? ==> |r.value.1| < |s|
    decreases |s|
  {
    if s == [] then None
    else if s[0] < 128 then Some((acc * 128 + s[0], s[1..]))
    else DecodeNumber(s[1..], acc * 128 + s[0] - 128)
  }

  function Value(d: (nat, nat, nat, nat)): nat {
    ((d.0 * 128 + d.1) * 128 + d.2) * 128 + d.3
  }

  /** The digits make up the number, and the tests `val & 0xfffc000` and `val & 0xfffff80` see
      whether the digits from position 2 and 1 upward are all zero. */
  lemma SevenBitDigits(v: nat)
    ensures Value(Digits7(v)) == v % 0x1000_0000
    ensures v / 0x4000 % 0x4000 == Digits7(v).0 * 128 + Digits7(v).1
    ensures v / 128 % 0x20_0000 == (Digits7(v).0 * 128 + Digits7(v).1) * 128 + Digits7(v).2
  {
    var a := v / 128;
    var b := a / 128;
    var c := b / 128;
    var e := c / 128;
    assert b == v / 0x4000 && c == v / 0x20_0000;
    assert v == 128 * a + v % 128 && a == 128 * b + a % 128 && b == 128 * c + b % 128 && c == 128 * e + c % 128;
    var low2 := c % 128 * 128 + b % 128;
    Remainder(b, 0x4000, e, low2);
    Remainder(a, 0x20_0000, e, low2 * 128 + a % 128);
    Remainder(v, 0x1000_0000, e, (low2 * 128 + a % 128) * 128 + v % 128);
  }

  lemma Remainder(x: nat, m: nat, q: nat, r: nat)
    requires x == m * q + r && r < m
    ensures x % m == r
  {
    assert x / m == q by {
      var k := x / m;
      assert m * k <= x < m * k + m;
      assert k >= q + 1 ==> m * k >= m * (q + 1);
      assert q >= k + 1 ==> m * q >= m * (k + 1);
    }
  }

  lemma DecodeStep(x: Byte, rest: seq<Byte>, acc: nat)
    ensures x >= 128 ==> DecodeNumber([x] + rest, acc) == DecodeNumber(rest, acc * 128 + x - 128)
    ensures x < 128 ==> DecodeNumber([x] + rest, acc) == Some((acc * 128 + x, rest))
  {
    assert ([x] + rest)[1..] == rest;
  }

  /** The reader on the examples of the Standard MIDI Files specification, section "Sequences, Tracks, Chunks:
      File Block Structure". */
  lemma NumberExamples()
    ensures DecodeNumber([0x40], 0) == Some((0x40, [])) && DecodeNumber([0x7f], 0) == Some((0x7f, []))
    ensures DecodeNumber([0x81, 0x00], 0) == Some((0x80, [])) && DecodeNumber([0xc0, 0x00], 0) == Some((0x2000, []))
    ensures DecodeNumber([0xff, 0x7f], 0) == Some((0x3fff, []))
    ensures DecodeNumber([0x81, 0x80, 0x00], 0) == Some((0x4000, []))
    ensures DecodeNumber([0xff, 0xff, 0xff, 0x7f], 0) == Some((0xfff_ffff, []))
  {
    assert [0x81, 0x00][1..] == [0x00] && [0xc0, 0x00][1..] == [0x00] && [0xff, 0x7f][1..] == [0x7f];
    assert [0x81, 0x80, 0x00][1..] == [0x80, 0x00] && [0x80, 0x00][1..] == [0x00];
    assert [0xff, 0xff, 0xff, 0x7f][1..] == [0xff, 0xff, 0x7f] && [0xff, 0xff, 0x7f][1..] == [0xff, 0x7f];
    assert DecodeNumber([0x7f], 0x1f_ffff) == Some((0xfff_ffff, []));
    assert DecodeNumber([0xff, 0x7f], 0x3fff) == DecodeNumber([0x7f], 0x1f_ffff);
    assert DecodeNumber([0xff, 0xff, 0x7f], 0x7f) == DecodeNumber([0xff, 0x7f], 0x3fff);
  }

  /** Every 32-bit number reads back modulo 2^28, whatever follows it. */
  lemma NumberRoundTrip(v: nat, rest: seq<Byte>)
    ensures DecodeNumber(EncodeNumber(v) + rest, 0) == Some((v % 0x1000_0000, rest))
  {
    SevenBitDigits(v);
    DigitsRoundTrip(Digits7(v), rest);
  }

  /** The bytes of the four digits, each followed by the later ones. */
  function Chain(d: (nat, nat, nat, nat), i: nat, rest: seq<Byte>): (s: seq<Byte>)
    requires d.0 < 128 && d.1 < 128 && d.2 < 128 && d.3 < 128
    decreases 4 - i
  {
    if i >= 4 then rest
    else [if i == 0 then 128 + d.0 else if i == 1 then 128 + d.1 else if i == 2 then 128 + d.2 else d.3]
         + Chain(d, i + 1, rest)
  }

  lemma ChainDecodes(d: (nat, nat, nat, nat), rest: seq<Byte>)
    requires d.0 < 128 && d.1 < 128 && d.2 < 128 && d.3 < 128
    ensures DecodeNumber(Chain(d, 3, rest), (d.0 * 128 + d.1) * 128 + d.2) == Some((Value(d), rest))
    ensures DecodeNumber(Chain(d, 2, rest), d.0 * 128 + d.1) == Some((Value(d), rest))
    ensures DecodeNumber(Chain(d, 1, rest), d.0) == Some((Value(d), rest))
    ensures DecodeNumber(Chain(d, 0, rest), 0) == Some((Value(d), rest))
  {
    DecodeStep(d.3, rest, (d.0 * 128 + d.1) * 128 + d.2);
    DecodeStep(128 + d.2, Chain(d, 3, rest), d.0 * 128 + d.1);
    DecodeStep(128 + d.1, Chain(d, 2, rest), d.0);
    DecodeStep(128 + d.0, Chain(d, 1, rest), 0);
  }

  lemma DigitsRoundTrip(d: (nat, nat, nat, nat), rest: seq<Byte>)
    requires d.0 < 128 && d.1 < 128 && d.2 < 128 && d.3 < 128
    ensures DecodeNumber(EncodeDigits(d) + rest, 0) == Some((Value(d), rest))
  {
    ChainDecodes(d, rest);
    EncodedChain(d, rest);
  }

  lemma EncodedChain(d: (nat, nat, nat, nat), rest: seq<Byte>)
    requires d.0 < 128 && d.1 < 128 && d.2 < 128 && d.3 < 128
    ensures EncodeDigits(d) + rest
            == Chain(d, if d.0 != 0 then 0 else if d.1 != 0 then 1 else if d.2 != 0 then 2 else 3, rest)
  {
    var t3 := [d.3] + rest;
    var t2 := [128 + d.2] + t3;
    var t1 := [128 + d.1] + t2;
    assert Chain(d, 3, rest) == t3;
    assert Chain(d, 2, rest) == t2;
    assert Chain(d, 1, rest) == t1;
  }

  /** Up to three bytes reach no further than 128 to that power. */
  lemma NumberBound(s: seq<Byte>, acc: nat)
    requires DecodeNumber(s, acc).Some? && DecodeNumber(s, acc).value.1 == []
    ensures s != []
    ensures |s| == 1 ==> DecodeNumber(s, acc).value.0 < (acc + 1) * 128
    ensures |s| == 2 ==> DecodeNumber(s, acc).value.0 < (acc + 1) * 0x4000
    ensures |s| == 3 ==> DecodeNumber(s, acc).value.0 < (acc + 1) * 0x20_0000
    decreases |s|
  {
    if s[0] >= 128 {
      NumberBound(s[1..], acc * 128 + s[0] - 128);
    } else {
      assert |s[1..]| == 0;
    }
  }

  lemma DigitsLength(d: (nat, nat, nat, nat))
    requires d.0 < 128 && d.1 < 128 && d.2 < 128 && d.3 < 128
    ensures |EncodeDigits(d)| > 1 ==> Value(d) >= 128
    ensures |EncodeDigits(d)| > 2 ==> Value(d) >= 0x4000
    ensures |EncodeDigits(d)| > 3 ==> Value(d) >= 0x20_0000
  {
  }

  lemma DigitsMinimal(n: nat, k: nat, s: seq<Byte>)
    requires k <= 4 && DecodeNumber(s, 0) == Some((n, []))
    requires (k > 1 ==> n >= 128) && (k > 2 ==> n >= 0x4000) && (k > 3 ==> n >= 0x20_0000)
    ensures k <= |s|
  {
    NumberBound(s, 0);
  }

  /** The encoding is minimal: no shorter byte string reads as the same number. */
  lemma NumberMinimal(v: nat, s: seq<Byte>)
    requires DecodeNumber(s, 0) == Some((v % 0x1000_0000, []))
    ensures |EncodeNumber(v)| <= |s|
  {
    SevenBitDigits(v);
    DigitsLength(Digits7(v));
    DigitsMinimal(v % 0x1000_0000, |EncodeNumber(v)|, s);
  }

  // ---- events and tracks ----------------------------------------------------

  /** One call of `capture_midi_add_data`: channel data starts with its status byte, system
      exclusive data starts after it. */
  datatype Message = Message(sysex: bool, data: seq<Byte>)

  /** Number of data bytes that follow a channel status byte. */
  function DataBytes(status: Byte): nat {
    if 0xc0 <= status < 0xe0 then 1 else 2
  }

  /** Lengths of the channel messages, status byte included, as the emulator's table of message lengths has
      them: eight rows of sixteen channels, without the last row. */
  const MESSAGE_LENGTHS: seq<nat> := [3, 3, 3, 3, 2, 2, 3]

  lemma DataBytesAreTable(status: Byte)
    requires 0x80 <= status < 0xf0
    ensures 1 + DataBytes(status) == MESSAGE_LENGTHS[(status - 0x80) / 16]
  {
  }

  predicate WellFormed(m: Message) {
    if m.sysex then |m.data| < TWO28
    else m.data != [] && 0x80 <= m.data[0] < 0xf0 && |m.data| == 1 + DataBytes(m.data[0])
  }

  /** Events with the tick distance to their predecessor. */
  type Log = seq<(nat, Message)>

  function EventPrefix(delta: nat, sysex: bool, len: nat): seq<Byte> {
    EncodeNumber(delta) + (if sysex then [0xf0] + EncodeNumber(Low32(len)) else [])
  }

  function EventBytes(delta: nat, m: Message): seq<Byte> {
    EventPrefix(delta, m.sysex, |m.data|) + m.data
  }

  function TrackBytes(log: Log): seq<Byte> {
    if log == [] then [] else EventBytes(log[0].0, log[0].1) + TrackBytes(log[1..])
  }

  const END_OF_TRACK: seq<Byte> := [0x00, 0xff, 0x2f, 0x00]

  /** Reader of one event after its delta time; the end-of-track meta event must come last. */
  function ParseTrack(s: seq<Byte>): (r: Option<Log>)
    decreases |s|, 0
  {
    match DecodeNumber(s, 0)
    case None => None
    case Some((delta, body)) =>
      if body == [] then None
      else if body[0] == 0xff then (if body == [0xff, 0x2f, 0x00] then Some([]) else None)
      else if body[0] == 0xf0 then
        match DecodeNumber(body[1..], 0)
        case None => None
        case Some((len, tail)) => ParseRest(delta, true, len, tail)
      else if 0x80 <= body[0] < 0xf0 then ParseRest(delta, false, 1 + DataBytes(body[0]), body)
      else None
  }

  /** Take `len` bytes as the message and go on with the rest. */
  function ParseRest(delta: nat, sysex: bool, len: nat, s: seq<Byte>): (r: Option<Log>)
    decreases |s|, 1
  {
    if |s| < len then None
    else
      match ParseTrack(s[len..])
      case None => None
      case Some(log) => Some([(delta, Message(sysex, s[..len]))] + log)
  }

  // ---- round trip -----------------------------------------------------------

  /** What a reader can see of a log: delta times survive modulo 2^28. */
  function Readable(log: Log): (r: Log)
    ensures |r| == |log|
  {
    if log == [] then [] else [(log[0].0 % 0x1000_0000, log[0].1)] + Readable(log[1..])
  }

  predicate AllWellFormed(log: Log) {
    forall i :: 0 <= i < |log| ==> WellFormed(log[i].1)
  }

  function Prefixed(delta: nat, m: Message, r: Option<Log>): Option<Log> {
    match r
    case None => None
    case Some(log) => Some([(delta, m)] + log)
  }

  lemma ParseChannel(num: seq<Byte>, delta: nat, m: Message, rest: seq<Byte>)
    requires WellFormed(m) && !m.sysex
    requires DecodeNumber(num + (m.data + rest), 0) == Some((delta, m.data + rest))
    ensures ParseTrack(num + (m.data + rest)) == Prefixed(delta, m, ParseTrack(rest))
  {
    var body := m.data + rest;
    assert body[..|m.data|] == m.data && body[|m.data|..] == rest && body[0] == m.data[0];
    assert ParseTrack(num + body) == ParseRest(delta, false, |m.data|, body);
  }

  lemma ParseSysex(num: seq<Byte>, delta: nat, len: seq<Byte>, m: Message, rest: seq<Byte>)
    requires m.sysex
    requires var body := [0xf0] + len + m.data + rest; DecodeNumber(num + body, 0) == Some((delta, body))
    requires DecodeNumber(len + (m.data + rest), 0) == Some((|m.data|, m.data + rest))
    ensures ParseTrack(num + ([0xf0] + len + m.data + rest)) == Prefixed(delta, m, ParseTrack(rest))
  {
    var body, tail := [0xf0] + len + m.data + rest, m.data + rest;
    assert body[1..] == len + tail;
    assert tail[..|m.data|] == m.data && tail[|m.data|..] == rest;
    assert ParseTrack(num + body) == ParseRest(delta, true, |m.data|, tail);
  }

  lemma ParseSysexEvent(delta: nat, m: Message, rest: seq<Byte>)
    requires WellFormed(m) && m.sysex
    ensures ParseTrack(EventBytes(delta, m) + rest) == Prefixed(delta % 0x1000_0000, m, ParseTrack(rest))
  {
    var num, len := EncodeNumber(delta), EncodeNumber(Low32(|m.data|));
    NumberRoundTrip(delta, [0xf0] + len + m.data + rest);
    NumberRoundTrip(Low32(|m.data|), m.data + rest);
    ParseSysex(num, delta % 0x1000_0000, len, m, rest);
    Regroup(num, [0xf0] + len, m.data, rest);
  }

  lemma ParseEvent(delta: nat, m: Message, rest: seq<Byte>)
    requires WellFormed(m)
    ensures ParseTrack(EventBytes(delta, m) + rest) == Prefixed(delta % 0x1000_0000, m, ParseTrack(rest))
  {
    if m.sysex {
      ParseSysexEvent(delta, m, rest);
    } else {
      var num := EncodeNumber(delta);
      NumberRoundTrip(delta, m.data + rest);
      ParseChannel(num, delta % 0x1000_0000, m, rest);
      assert EventBytes(delta, m) == num + m.data;
      Assoc(num, m.data, rest);
    }
  }

  lemma {:induction false} TrackRoundTrip(log: Log)
    requires AllWellFormed(log)
    ensures ParseTrack(TrackBytes(log) + END_OF_TRACK) == Some(Readable(log))
    decreases |log|
  {
    if log == [] {
      assert TrackBytes(log) + END_OF_TRACK == END_OF_TRACK;
      assert DecodeNumber(END_OF_TRACK, 0) == Some((0, END_OF_TRACK[1..]));
    } else {
      TrackRoundTrip(log[1..]);
      ParseEvent(log[0].0, log[0].1, TrackBytes(log[1..]) + END_OF_TRACK);
      assert TrackBytes(log) + END_OF_TRACK
          == EventBytes(log[0].0, log[0].1) + (TrackBytes(log[1..]) + END_OF_TRACK);
    }
  }

  /** The reader only ever returns channel and system exclusive messages... */
  lemma {:induction false} ParsedIsChannelOrSysex(s: seq<Byte>)
    requires ParseTrack(s).Some?
    ensures forall i :: 0 <= i < |ParseTrack(s).value| ==>
                          var m := ParseTrack(s).value[i].1;
                          m.sysex || WellFormed(m)
    decreases |s|
  {
    var body := DecodeNumber(s, 0).value.1;
    if body[0] == 0xf0 {
      var (len, tail) := DecodeNumber(body[1..], 0).value;
      ParsedIsChannelOrSysex(tail[len..]);
    } else if 0x80 <= body[0] < 0xf0 {
      var len := 1 + DataBytes(body[0]);
      ParsedIsChannelOrSysex(body[len..]);
    }
  }

  lemma {:induction false} ReadableAt(log: Log, i: nat)
    requires i < |log|
    ensures Readable(log)[i] == (log[i].0 % 0x1000_0000, log[i].1)
    decreases |log|
  {
    if i > 0 {
      ReadableAt(log[1..], i - 1);
    }
  }

  /** ...and a system exclusive message of 2^28 bytes or more comes back with a shorter length... */
  lemma LongSysexDiffers(delta: nat, m: Message, rest: seq<Byte>)
    requires m.sysex && !WellFormed(m)
    ensures var r := ParseTrack(EventBytes(delta, m) + rest);
            r.Some? ==> r.value != [] && r.value[0].1 != m
  {
    var num, len := EncodeNumber(delta), EncodeNumber(Low32(|m.data|));
    NumberRoundTrip(delta, [0xf0] + len + m.data + rest);
    NumberRoundTrip(Low32(|m.data|), m.data + rest);
    Regroup(num, [0xf0] + len, m.data, rest);
    TakenShort(num, delta % 0x1000_0000, len, Low32(|m.data|) % 0x1000_0000, m, rest);
  }

  lemma TakenShort(num: seq<Byte>, delta: nat, len: seq<Byte>, n: nat, m: Message, rest: seq<Byte>)
    requires var body := [0xf0] + len + m.data + rest; DecodeNumber(num + body, 0) == Some((delta, body))
    requires DecodeNumber(len + (m.data + rest), 0) == Some((n, m.data + rest)) && n < |m.data|
    ensures var r := ParseTrack(num + ([0xf0] + len + m.data + rest));
            r.Some? ==> r.value != [] && r.value[0].1 != m
  {
    var body, tail := [0xf0] + len + m.data + rest, m.data + rest;
    assert body[1..] == len + tail;
    ShortTake(num, delta, body, n, tail);
  }

  lemma ShortTake(num: seq<Byte>, delta: nat, body: seq<Byte>, len: nat, tail: seq<Byte>)
    requires DecodeNumber(num + body, 0) == Some((delta, body)) && body != [] && body[0] == 0xf0
    requires DecodeNumber(body[1..], 0) == Some((len, tail))
    ensures var r := ParseTrack(num + body);
            r.Some? ==> r.value != [] && |r.value[0].1.data| == len
  {
    assert ParseTrack(num + body) == ParseRest(delta, true, len, tail);
  }

  /** ...so a log that comes back with its messages is well formed. */
  lemma {:induction false} ReturnedIsWellFormed(log: Log, back: Log)
    requires ParseTrack(TrackBytes(log) + END_OF_TRACK) == Some(back) && SameMessages(log, back)
    requires forall i :: 0 <= i < |log| && !log[i].1.sysex ==> WellFormed(log[i].1)
    ensures AllWellFormed(log)
    decreases |log|
  {
    if log != [] {
      var rest := TrackBytes(log[1..]) + END_OF_TRACK;
      assert TrackBytes(log) + END_OF_TRACK == EventBytes(log[0].0, log[0].1) + rest;
      if !WellFormed(log[0].1) {
        LongSysexDiffers(log[0].0, log[0].1, rest);
      } else {
        ParseEvent(log[0].0, log[0].1, rest);
        PrefixedTail(log[0].0 % 0x1000_0000, log[0].1, ParseTrack(rest), back);
        ReturnedIsWellFormed(log[1..], back[1..]);
      }
    }
  }

  predicate SameMessages(log: Log, back: Log) {
    |back| == |log| && forall i :: 0 <= i < |log| ==> back[i].1 == log[i].1
  }

  lemma PrefixedTail(delta: nat, m: Message, r: Option<Log>, back: Log)
    requires Prefixed(delta, m, r) == Some(back)
    ensures back != [] && r == Some(back[1..])
  {
    assert ([(delta, m)] + r.value)[1..] == r.value;
  }

  lemma MessagesReturned(log: Log, back: Log)
    requires ParseTrack(TrackBytes(log) + END_OF_TRACK) == Some(back) && SameMessages(log, back)
    ensures AllWellFormed(log)
  {
    ParsedIsChannelOrSysex(TrackBytes(log) + END_OF_TRACK);
    forall i | 0 <= i < |log| && !log[i].1.sysex ensures WellFormed(log[i].1) {
      assert back[i].1 == log[i].1;
    }
    ReturnedIsWellFormed(log, back);
  }

  /** The tick distances that the encoder keeps whole. */
  predicate ShortDistances(log: Log) {
    forall i :: 0 <= i < |log| ==> log[i].0 < TWO28
  }

  lemma ReadableIsSame(log: Log)
    ensures Readable(log) == log <==> ShortDistances(log)
    ensures SameMessages(log, Readable(log))
  {
    var back := Readable(log);
    forall i | 0 <= i < |log| ensures back[i].1 == log[i].1 && (back[i] == log[i] <==> log[i].0 < TWO28) {
      ReadableAt(log, i);
    }
  }

  /** The messages of a captured track read back, with tick distances modulo 2^28, exactly when every one
      was a complete channel message or a system exclusive message below 2^28 bytes. The track reads back
      as it was captured exactly when moreover every tick distance is below 2^28. */
  lemma RoundTripIff(log: Log)
    ensures ParseTrack(TrackBytes(log) + END_OF_TRACK) == Some(Readable(log)) <==> AllWellFormed(log)
    ensures ParseTrack(TrackBytes(log) + END_OF_TRACK) == Some(log) <==> AllWellFormed(log) && ShortDistances(log)
  {
    var r := ParseTrack(TrackBytes(log) + END_OF_TRACK);
    ReadableIsSame(log);
    if AllWellFormed(log) {
      TrackRoundTrip(log);
    } else if r == Some(log) {
      MessagesReturned(log, log);
    } else if r == Some(Readable(log)) {
      MessagesReturned(log, Readable(log));
    }
  }

  /** A message that starts with a system common status, such as a tune request: the MIDI output code does
      capture these. */
  predicate SystemCommon(m: Message) {
    !m.sysex && m.data != [] && 0xf1 <= m.data[0] < 0xf8
  }

  lemma CommonStopsReader(delta: nat, m: Message, rest: seq<Byte>)
    requires SystemCommon(m)
    ensures ParseTrack(EventBytes(delta, m) + rest) == None
  {
    var num, body := EncodeNumber(delta), m.data + rest;
    NumberRoundTrip(delta, body);
    assert body[0] == m.data[0];
    assert EventBytes(delta, m) == num + m.data;
    Assoc(num, m.data, rest);
  }

  /** One such message makes the whole track unreadable, whatever was captured before and after it. */
  lemma {:induction false} SystemCommonUnreadable(log: Log, k: nat)
    requires k < |log| && AllWellFormed(log[..k]) && SystemCommon(log[k].1)
    ensures ParseTrack(TrackBytes(log) + END_OF_TRACK) == None
    decreases k
  {
    var rest := TrackBytes(log[1..]) + END_OF_TRACK;
    assert TrackBytes(log) + END_OF_TRACK == EventBytes(log[0].0, log[0].1) + rest;
    if k == 0 {
      CommonStopsReader(log[0].0, log[0].1, rest);
    } else {
      assert log[..k][0] == log[0] && log[..k][1..] == log[1..][..k - 1];
      SystemCommonUnreadable(log[1..], k - 1);
      ParseEvent(log[0].0, log[0].1, rest);
    }
  }

  lemma {:induction false} TrackAppend(log: Log, delta: nat, m: Message)
    ensures TrackBytes(log + [(delta, m)]) == TrackBytes(log) + EventBytes(delta, m)
    decreases |log|
  {
    if log == [] {
      assert (log + [(delta, m)])[1..] == [];
    } else {
      TrackAppend(log[1..], delta, m);
      assert (log + [(delta, m)])[1..] == log[1..] + [(delta, m)];
    }
  }

  // ---- the file -------------------------------------------------------------

  const LENGTH_OFFSET := 18
  const HEADER_SIZE := 22

  /** `midi_header`: one track, format 0, 500 ticks per beat, length still zero. */
  const HEADER: seq<Byte> :=
    [0x4d, 0x54, 0x68, 0x64, 0, 0, 0, 6, 0, 0, 0, 1, 0x01, 0xf4, 0x4d, 0x54, 0x72, 0x6b, 0, 0, 0, 0]

  /** The file a finished capture leaves. */
  function Closed(track: seq<Byte>): seq<Byte> {
    HEADER[..LENGTH_OFFSET] + BE(|track|, 4) + track
  }

  function FileBytes(log: Log): seq<Byte> {
    Closed(TrackBytes(log) + END_OF_TRACK)
  }

  /** Reader of a file with one track of format 0, at 500 ticks per quarter note. */
  function ParseFile(f: seq<Byte>): Option<Log> {
    if |f| < 22 || f[..4] != Ascii("MThd") || FromBE(f[4..8]) != 6 then None
    else if FromBE(f[8..10]) != 0 || FromBE(f[10..12]) != 1 || FromBE(f[12..14]) != 500 then None
    else if f[14..18] != Ascii("MTrk") || FromBE(f[18..22]) != |f| - 22 then None
    else ParseTrack(f[22..])
  }

  /** The fixed part of the header: a chunk of six bytes with format 0, one track and 500 ticks per quarter
      note, and the tag of the track chunk. */
  lemma HeaderFields(f: seq<Byte>)
    requires |f| >= LENGTH_OFFSET && f[..LENGTH_OFFSET] == HEADER[..LENGTH_OFFSET]
    ensures f[..4] == Ascii("MThd") && FromBE(f[4..8]) == 6 && FromBE(f[8..10]) == 0 && FromBE(f[10..12]) == 1
    ensures FromBE(f[12..14]) == 500 && f[14..18] == Ascii("MTrk")
  {
    forall i | 0 <= i < LENGTH_OFFSET ensures f[i] == HEADER[i] {
      assert f[..LENGTH_OFFSET][i] == HEADER[..LENGTH_OFFSET][i];
    }
    assert f[..4] == [0x4d, 0x54, 0x68, 0x64] == Ascii("MThd");
    assert f[14..18] == [0x4d, 0x54, 0x72, 0x6b] == Ascii("MTrk");
    FromBE4(f[4..8]);
    FromBE2(f[8..10]);
    FromBE2(f[10..12]);
    FromBE2(f[12..14]);
  }

  lemma ParseBody(len: seq<Byte>, track: seq<Byte>)
    requires |len| == 4 && FromBE(len) == |track|
    ensures ParseFile(HEADER[..LENGTH_OFFSET] + len + track) == ParseTrack(track)
  {
    var f := HEADER[..LENGTH_OFFSET] + len + track;
    assert f[..LENGTH_OFFSET] == HEADER[..LENGTH_OFFSET];
    HeaderFields(f);
    assert f[LENGTH_OFFSET..HEADER_SIZE] == len;
    assert f[HEADER_SIZE..] == track;
  }

  lemma ParseClosed(track: seq<Byte>)
    requires |track| < TWO32
    ensures ParseFile(Closed(track)) == ParseTrack(track)
  {
    Pow256Of4();
    BERoundTrip(|track|, 4);
    ParseBody(BE(|track|, 4), track);
  }

  /** The whole file reads back, length field included, while the track stays below 2^32 bytes. */
  lemma FileRoundTrip(log: Log)
    requires AllWellFormed(log) && |TrackBytes(log)| + 4 < TWO32
    ensures ParseFile(FileBytes(log)) == Some(Readable(log))
  {
    ParseClosed(TrackBytes(log) + END_OF_TRACK);
    TrackRoundTrip(log);
  }

  // ---- the writer -----------------------------------------------------------

  const BUFFER_SIZE := 4096

  lemma Chained(s: seq<Byte>, a: seq<Byte>, b: seq<Byte>, c: seq<Byte>, d: seq<Byte>)
    ensures s + a + b + c + d == s + (a + b + c + d)
  {
  }

  class Writer {
    const buffer: array<Byte>
    var isOpen: bool
    var file: seq<Byte>           // what has gone to the open file
    var bytesUsed: nat
    var bytesWritten: nat
    var lastTick: nat
    var finished: seq<seq<Byte>>  // the files closed so far
    ghost var track: seq<Byte>    // every byte added since the file was opened

    /** Nothing is lost between the file and the buffer, and the counter follows the file. */
    ghost predicate Valid()
      reads this, buffer
    {
      && buffer.Length == BUFFER_SIZE && bytesUsed < BUFFER_SIZE && lastTick < TWO32
      && (isOpen ==>
            && HEADER_SIZE <= |file| && file[..HEADER_SIZE] == HEADER
            && file[HEADER_SIZE..] + buffer[..bytesUsed] == track
            && bytesWritten == Low32(|file| - HEADER_SIZE))
      && (!isOpen ==> bytesUsed == 0 && bytesWritten == 0 && track == [])
    }

    constructor ()
      ensures Valid() && !isOpen && finished == [] && fresh(buffer)
    {
      buffer := new Byte[BUFFER_SIZE](_ => 0);
      isOpen, file, bytesUsed, bytesWritten, lastTick, finished := false, [], 0, 0, 0, [];
      track := [];
    }

    method RawAdd(data: Byte)
      requires Valid() && isOpen
      modifies `file, `bytesUsed, `bytesWritten, `track, buffer
      ensures Valid() && track == old(track) + [data]
    {
      buffer[bytesUsed] := data;
      bytesUsed := bytesUsed + 1;
      track := track + [data];
      assert file[HEADER_SIZE..] + buffer[..bytesUsed] == track;
      if bytesUsed >= BUFFER_SIZE {
        Low32Add(|file| - HEADER_SIZE, bytesUsed);
        bytesWritten := Low32(bytesWritten + bytesUsed);
        file := file + buffer[..];
        assert buffer[..] == buffer[..bytesUsed];
        assert file[HEADER_SIZE..] == old(file)[HEADER_SIZE..] + buffer[..bytesUsed];
        bytesUsed := 0;
      }
    }

    method RawAddNumber(val: nat)
      requires Valid() && isOpen
      modifies `file, `bytesUsed, `bytesWritten, `track, buffer
      ensures Valid() && track == old(track) + EncodeNumber(val)
    {
      SevenBitDigits(val);
      var third, second, first := val / 0x20_0000 % 128 != 0, val / 0x4000 % 0x4000 != 0, val / 128 % 0x20_0000 != 0;
      RawAddDigits(third, second, first, Digits7(val));
    }

    /** The conditional writes, with the outcome of the three mask tests. */
    method RawAddDigits(third: bool, second: bool, first: bool, d: (nat, nat, nat, nat))
      requires Valid() && isOpen && d.0 < 128 && d.1 < 128 && d.2 < 128 && d.3 < 128
      requires third == (d.0 != 0) && second == (third || d.1 != 0) && first == (second || d.2 != 0)
      modifies `file, `bytesUsed, `bytesWritten, `track, buffer
      ensures Valid() && track == old(track) + EncodeDigits(d)
    {
      ghost var start := track;
      ghost var a: seq<Byte> := if third then [128 + d.0] else [];
      ghost var b: seq<Byte> := if second then [128 + d.1] else [];
      ghost var c: seq<Byte> := if first then [128 + d.2] else [];
      RawAddDigit(third, d.0);
      RawAddDigit(second, d.1);
      RawAddDigit(first, d.2);
      RawAdd(d.3);
      assert EncodeDigits(d) == a + b + c + [d.3];
      Chained(start, a, b, c, [d.3]);
    }

    method RawAddDigit(test: bool, d: nat)
      requires Valid() && isOpen && d < 128
      modifies `file, `bytesUsed, `bytesWritten, `track, buffer
      ensures Valid() && track == old(track) + (if test then [128 + d] else [])
    {
      if test {
        RawAdd(128 + d);
      }
    }

    method Create(now: nat, canOpen: bool)
      requires Valid() && !isOpen && now < TWO32
      modifies `isOpen, `file, `lastTick
      ensures Valid() && isOpen == canOpen && (canOpen ==> lastTick == now)
    {
      if canOpen {
        isOpen, file, lastTick := true, HEADER, now;
        assert file[HEADER_SIZE..] + buffer[..bytesUsed] == [];
      }
    }

    method AddBytes(data: seq<Byte>)
      requires Valid() && isOpen
      modifies `file, `bytesUsed, `bytesWritten, `track, buffer
      ensures Valid() && track == old(track) + data
    {
      for i := 0 to |data|
        invariant Valid() && track == old(track) + data[..i]
      {
        RawAdd(data[i]);
        assert data[..i + 1] == data[..i] + [data[i]];
      }
      assert data[..|data|] == data;
    }

    /** Delta time, and for a system exclusive message its status byte and length. */
    method AddPrefix(delta: nat, sysex: bool, len: nat)
      requires Valid() && isOpen
      modifies `file, `bytesUsed, `bytesWritten, `track, buffer
      ensures Valid() && track == old(track) + EventPrefix(delta, sysex, len)
    {
      RawAddNumber(delta);
      if sysex {
        RawAdd(0xf0);
        RawAddNumber(Low32(len));
      }
    }

    /** One message; `now` is the tick counter and `canOpen` whether the file can be created. */
    method AddData(sysex: bool, data: seq<Byte>, now: nat, canOpen: bool)
      requires Valid() && now < TWO32
      modifies `isOpen, `file, `bytesUsed, `bytesWritten, `lastTick, `track, buffer
      ensures Valid() && isOpen == (old(isOpen) || canOpen)
      ensures isOpen ==> lastTick == now
      ensures isOpen ==> track == old(track) + EventBytes(if old(isOpen) then TicksSince(now, old(lastTick)) else 0,
                                                          Message(sysex, data))
      ensures !isOpen ==> track == old(track)
    {
      if !isOpen {
        Create(now, canOpen);
      }
      if !isOpen {
        return;
      }
      var delta := TicksSince(now, lastTick);
      lastTick := now;
      AddPrefix(delta, sysex, |data|);
      AddBytes(data);
    }

    method Finalise()
      requires Valid()
      modifies this, buffer
      ensures Valid() && !isOpen
      ensures old(isOpen) ==> finished == old(finished) + [Closed(old(track) + END_OF_TRACK)]
      ensures !old(isOpen) ==> finished == old(finished)
    {
      if !isOpen {
        return;
      }
      AddEndOfTrack();
      Flush();
      Patch();
      finished := finished + [file];
      isOpen, bytesUsed, bytesWritten, lastTick, track := false, 0, 0, 0, [];
    }

    method AddEndOfTrack()
      requires Valid() && isOpen
      modifies `file, `bytesUsed, `bytesWritten, `track, buffer
      ensures Valid() && track == old(track) + END_OF_TRACK
    {
      RawAdd(0x00);
      RawAdd(0xff);
      RawAdd(0x2f);
      RawAdd(0x00);
    }

    /** Seek back and write the big-endian track length over the zero in the header. */
    method Patch()
      requires HEADER_SIZE <= |file| && file[HEADER_SIZE..] == track
      requires file[..LENGTH_OFFSET] == HEADER[..LENGTH_OFFSET] && bytesWritten == Low32(|track|)
      modifies `file
      ensures file == Closed(track)
    {
      BELow32(|track|);
      var size := BE(bytesWritten, 4);
      file := file[..LENGTH_OFFSET] + size + file[HEADER_SIZE..];
    }

    /** The last, partial write of the buffer. */
    method Flush()
      requires Valid() && isOpen
      modifies `file, `bytesWritten
      ensures HEADER_SIZE <= |file| && file[HEADER_SIZE..] == track
      ensures file[..LENGTH_OFFSET] == HEADER[..LENGTH_OFFSET]
      ensures bytesWritten == Low32(|track|)
    {
      Low32Add(|file| - HEADER_SIZE, bytesUsed);
      ghost var before := file;
      assert before[..HEADER_SIZE][..LENGTH_OFFSET] == before[..LENGTH_OFFSET];
      file := file + buffer[..bytesUsed];
      bytesWritten := Low32(bytesWritten + bytesUsed);
      assert file[HEADER_SIZE..] == before[HEADER_SIZE..] + buffer[..bytesUsed];
      assert file[..LENGTH_OFFSET] == before[..LENGTH_OFFSET];
    }
  }

  /** The unsigned 32-bit difference of two tick counts. */
  function TicksSince(now: nat, last: nat): (d: nat)
    requires now < TWO32 && last < TWO32
    ensures d < TWO32 && (last + d) % 0x1_0000_0000 == now
    ensures last <= now ==> last + d == now
  {
    if last <= now then now - last else now + TWO32 - last
  }

  /** Calls as the emulator makes them: the tick counter at the call, and the message. */
  type Calls = seq<(nat, Message)>

  predicate CallsOk(calls: Calls) {
    forall i :: 0 <= i < |calls| ==> calls[i].0 < TWO32
  }

  /** The events of a capture, each with the 32-bit tick distance to its predecessor. */
  function Events(calls: Calls): (log: Log)
    requires CallsOk(calls)
    ensures |log| == |calls|
  {
    if calls == [] then []
    else
      var k := |calls| - 1;
      var delta := if k == 0 then 0 else TicksSince(calls[k].0, calls[k - 1].0);
      Events(calls[..k]) + [(delta, calls[k].1)]
  }

  lemma {:induction false} EventAt(calls: Calls, k: nat)
    requires CallsOk(calls) && k < |calls|
    ensures Events(calls)[k] == (if k == 0 then 0 else TicksSince(calls[k].0, calls[k - 1].0), calls[k].1)
    decreases |calls|
  {
    if k < |calls| - 1 {
      EventAt(calls[..|calls| - 1], k);
    }
  }

  /** The ticks that pass in the first `k` events of a log. */
  function Elapsed(log: Log, k: nat): nat
    requires k <= |log|
  {
    if k == 0 then 0 else Elapsed(log, k - 1) + log[k - 1].0
  }

  lemma ModStep(a: nat, last: nat, d: nat, now: nat)
    requires a % 0x1_0000_0000 == last && (last + d) % 0x1_0000_0000 == now
    ensures (a + d) % 0x1_0000_0000 == now
  {
  }

  /** The distances of a capture lead from call to call: added up from the first tick they give every tick
      counter again, modulo 2^32 as the counter itself wraps. */
  lemma {:induction false} TicksFromDistances(calls: Calls, k: nat)
    requires CallsOk(calls) && k < |calls|
    ensures (calls[0].0 + Elapsed(Events(calls), k + 1)) % 0x1_0000_0000 == calls[k].0
    decreases k
  {
    EventAt(calls, k);
    if k > 0 {
      TicksFromDistances(calls, k - 1);
      ModStep(calls[0].0 + Elapsed(Events(calls), k), calls[k - 1].0,
              TicksSince(calls[k].0, calls[k - 1].0), calls[k].0);
    }
  }

  /** The tick counter does not go back, and not on by 2^28 or more. */
  predicate Steady(calls: Calls) {
    forall k {:trigger calls[k]} :: 0 < k < |calls| ==> calls[k - 1].0 <= calls[k].0 < calls[k - 1].0 + TWO28
  }

  lemma {:induction false} SteadyTicks(calls: Calls, k: nat)
    requires CallsOk(calls) && Steady(calls) && k < |calls|
    ensures calls[0].0 + Elapsed(Events(calls), k + 1) == calls[k].0
    decreases k
  {
    EventAt(calls, k);
    if k > 0 {
      SteadyTicks(calls, k - 1);
    }
  }

  lemma SteadyIsShort(calls: Calls)
    requires CallsOk(calls) && Steady(calls)
    ensures ShortDistances(Events(calls))
  {
    forall k | 0 <= k < |calls| ensures Events(calls)[k].0 < TWO28 {
      EventAt(calls, k);
    }
  }

  /** Message `k` was captured at tick `calls[k].0`, and a reader that adds up the distances of `log` finds it
      there. */
  ghost predicate OnTime(calls: Calls, log: Log) {
    |log| == |calls| && forall k: nat {:trigger calls[k]} :: k < |calls| ==>
      log[k].1 == calls[k].1 && calls[0].0 + Elapsed(log, k + 1) == calls[k].0
  }

  lemma SteadyOnTime(calls: Calls)
    requires CallsOk(calls) && Steady(calls)
    ensures Readable(Events(calls)) == Events(calls) && OnTime(calls, Events(calls))
  {
    SteadyIsShort(calls);
    ReadableIsSame(Events(calls));
    forall k: nat | k < |calls|
      ensures Events(calls)[k].1 == calls[k].1 && calls[0].0 + Elapsed(Events(calls), k + 1) == calls[k].0
    {
      EventAt(calls, k);
      SteadyTicks(calls, k);
    }
  }

  /** A whole capture, from the first message to the finished file: buffered in any number of
      flushes, the file is exactly the one that the events describe. */
  method Capture(calls: Calls) returns (f: seq<Byte>)
    requires calls != [] && CallsOk(calls)
    ensures f == FileBytes(Events(calls))
    ensures |TrackBytes(Events(calls))| + 4 < TWO32 && AllWellFormed(Events(calls)) ==>
              ParseFile(f) == Some(Readable(Events(calls)))
    ensures |TrackBytes(Events(calls))| + 4 < TWO32 && AllWellFormed(Events(calls)) && Steady(calls) ==>
              ParseFile(f).Some? && OnTime(calls, ParseFile(f).value)
  {
    var w := new Writer();
    for i := 0 to |calls|
      invariant w.Valid() && fresh(w) && fresh(w.buffer) && w.finished == []
      invariant w.isOpen == (i > 0) && (i > 0 ==> w.lastTick == calls[i - 1].0)
      invariant w.track == TrackBytes(Events(calls[..i]))
    {
      w.AddData(calls[i].1.sysex, calls[i].1.data, calls[i].0, true);
      assert calls[..i + 1][..i] == calls[..i];
      var delta := if i == 0 then 0 else TicksSince(calls[i].0, calls[i - 1].0);
      TrackAppend(Events(calls[..i]), delta, calls[i].1);
    }
    assert calls[..|calls|] == calls;
    w.Finalise();
    f := w.finished[0];
    if |TrackBytes(Events(calls))| + 4 < TWO32 && AllWellFormed(Events(calls)) {
      FileRoundTrip(Events(calls));
      if Steady(calls) {
        SteadyOnTime(calls);
      }
    }
  }
}
