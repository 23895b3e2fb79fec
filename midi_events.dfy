/** The pure rules behind getTrackEvent (midi.c:194-524): how many data bytes
    each status consumes, what a Note On/Off does to a (pitch, channel) slot,
    what a sustain-pedal change does to a channel's pedal interval, and how
    meta events are sized. The stateful decoder in MidiParser is proved to
    follow these rules. */
module MidiEvents {
  import opened MidiTypes

  /** Number of data bytes after a channel voice status (midi.c:232-333);
      0 for the system status 0xF0 (sized separately) and for the initial
      status 0, which matches no case. */
  function ChannelDataBytes(status: Byte): nat
  {
    if status == NoteOff || status == NoteOn || status == PolyKeyPressure
       || status == ControlChange || status == PitchBend then 2
    else if status == ProgramChange || status == ChannelPressure then 1
    else 0
  }

  /** Number of data bytes after a system common or real-time byte other than
      0xF0 and 0xFF (midi.c:450-516): one for 0xF1 and 0xF3, two for 0xF2,
      none otherwise. A running-status data byte under status 0xF0 also
      lands here and consumes nothing. */
  function SystemDataBytes(b: Byte): nat
  {
    if b == 0xF1 || b == 0xF3 then 1 else if b == 0xF2 then 2 else 0
  }

  /** Running status (midi.c:213-228): a byte with the high bit set becomes
      the new status (its upper nibble) and, unless that status is 0xF0, sets
      the channel; a data byte leaves status and channel as they were. */
  function NextRunningStatus(status: Byte, channel: nat, b: Byte): (r: (Byte, nat))
    ensures HighBit(b) ==> r.0 == StatusOf(b) && r.1 == (if r.0 == SystemMsg then channel else ChannelOf(b))
    ensures !HighBit(b) ==> r == (status, channel)
  {
    if HighBit(b) then
      var s := StatusOf(b);
      (s, if s != SystemMsg then ChannelOf(b) else channel)
    else (status, channel)
  }

  /** Status and channel after the first bytes of successive events, each
      applied by NextRunningStatus in turn. */
  function StatusAfter(status: Byte, channel: nat, firsts: seq<Byte>): (Byte, nat)
    decreases |firsts|
  {
    if |firsts| == 0 then (status, channel)
    else
      var r := NextRunningStatus(status, channel, firsts[0]);
      StatusAfter(r.0, r.1, firsts[1..])
  }

  /** Events that start with a data byte reuse the running status: a run of
      them leaves status and channel as they were. */
  lemma {:induction false} DataRunKeepsStatus(status: Byte, channel: nat, run: seq<Byte>)
    requires forall i :: 0 <= i < |run| ==> !HighBit(run[i])
    ensures StatusAfter(status, channel, run) == (status, channel)
    decreases |run|
  {
    if |run| > 0 {
      DataRunKeepsStatus(status, channel, run[1..]);
    }
  }

  /** An event with status byte `b` followed by any number of events under
      running status all decode with the status and channel `b` set. */
  lemma RunningStatusPersists(status: Byte, channel: nat, b: Byte, run: seq<Byte>)
    requires HighBit(b) && forall i :: 0 <= i < |run| ==> !HighBit(run[i])
    ensures StatusAfter(status, channel, [b] + run) == NextRunningStatus(status, channel, b)
    ensures StatusAfter(status, channel, [b] + run).0 == StatusOf(b)
  {
    var r := NextRunningStatus(status, channel, b);
    assert ([b] + run)[1..] == run;
    DataRunKeepsStatus(r.0, r.1, run);
  }

  /** Where the data of an event whose first byte is `data[i]` begins: after
      that byte when it is a status byte, at it under running status. */
  function EventData(data: seq<Byte>, i: nat): (d: nat)
    requires i < |data|
    ensures d == i + 1 <==> HighBit(data[i])
    ensures d == i || d == i + 1
  {
    if HighBit(data[i]) then i + 1 else i
  }

  /** Meta-event types whose payload the decoder skips by a fixed count
      (midi.c:344-347, 398-405, 418-429). */
  predicate FixedMeta(kind: Byte)
  {
    kind == 0x00 || kind == 0x20 || kind == 0x2F || kind == 0x54 || kind == 0x58 || kind == 0x59
  }

  /** Bytes skipped after the type byte of a fixed-size meta event; the length
      byte is counted in, not read. */
  function MetaSkip(kind: Byte): nat
    requires FixedMeta(kind)
  {
    match kind
    case 0x00 => 3
    case 0x20 => 2
    case 0x2F => 1
    case 0x54 => 6
    case 0x58 => 5
    case 0x59 => 3
  }

  /** Meta-event types whose payload is copied into a text field of the track
      (midi.c:348-397). */
  predicate TextMeta(kind: Byte)
  {
    0x01 <= kind <= 0x07 || kind == 0x7F
  }

  /** The bytes of the name "Transport". */
  const TransportName: seq<Byte> := [0x54, 0x72, 0x61, 0x6E, 0x73, 0x70, 0x6F, 0x72, 0x74]

  /** The C string held by a zero-terminated copy of `s`: the bytes before
      the first zero byte. */
  function CString(s: seq<Byte>): (r: seq<Byte>)
    ensures r <= s && 0 !in r
    ensures |r| < |s| ==> s[|r|] == 0
  {
    if s == [] || s[0] == 0 then [] else [s[0]] + CString(s[1..])
  }

  /** The new state of a slot and, if the event closes an interval, the note
      to commit. */
  datatype SlotStep = SlotStep(slot: Note, committed: Option<Note>)

  /** A Note On (`on`) or Note Off on the slot of (`pitch`, `ch`) at `tick`
      (midi.c:232-263): a Note On with non-zero velocity on an idle slot opens
      it; any other note event on a sounding slot closes it and commits a
      note; anything else leaves it idle. */
  function NoteStep(slot: Note, on: bool, pitch: nat, velocity: Byte, ch: nat, tick: nat, delta: nat): (r: SlotStep)
    ensures r.committed.Some? <==> slot.playing
    ensures r.slot.playing <==> !slot.playing && on && velocity > 0
    ensures r.slot.channel == ch
    ensures r.slot.playing ==> r.slot.startTick == tick && r.slot.speed == velocity
    ensures slot.playing ==> r.slot.startTick == 0 && r.slot.stopTick == 0
    ensures r.committed.Some? ==>
      var n := r.committed.value;
      && n.note == pitch && n.channel == ch && !n.playing
      && n.startTick == slot.startTick && n.stopTick == tick && n.speed == slot.speed
      && n.isPedal == slot.isPedal && n.isTempo == slot.isTempo
  {
    var s := slot.(channel := ch);
    if on && velocity > 0 && !s.playing then
      SlotStep(s.(playing := true, startDeltaTick := delta, startTick := tick, speed := velocity), None)
    else if s.playing then
      var closed := s.(playing := false, stopDeltaTick := delta, stopTick := tick);
      SlotStep(closed.(startTick := 0, stopTick := 0), Some(closed.(note := pitch)))
    else
      SlotStep(s, None)
  }

  /** The slot as a failed addNote leaves it: closed, with the stop tick set,
      but the ticks not yet cleared (midi.c:251-256). */
  function NoteClosedOnly(slot: Note, ch: nat, tick: nat, delta: nat): Note
  {
    slot.(channel := ch, playing := false, stopDeltaTick := delta, stopTick := tick)
  }

  /** A sustain-pedal change (controller 0x40) with `value` on a channel's
      pedal at `tick` (midi.c:285-311): an idle pedal opens whatever the
      value; a held pedal commits the interval so far as a pedal note
      carrying the new value, restarts the interval at `tick`, and stays held
      unless the value is exactly 0. */
  function PedalStep(p: Note, value: Byte, tick: nat, delta: nat): (r: SlotStep)
    ensures r.committed.Some? <==> p.playing
    ensures r.slot.playing <==> !p.playing || value != 0
    ensures r.slot.startTick == tick
    ensures !p.playing ==> r.slot.speed == value
    ensures r.committed.Some? ==>
      var n := r.committed.value;
      && n.isPedal && n.startTick == p.startTick && n.stopTick == tick
      && n.speed == value && n.channel == p.channel && n.note == p.note
  {
    if !p.playing then
      SlotStep(p.(playing := true, startDeltaTick := delta, startTick := tick, speed := value), None)
    else
      var closed := p.(playing := value != 0, stopDeltaTick := delta, stopTick := tick);
      SlotStep(closed.(startDeltaTick := delta, startTick := tick), Some(closed.(isPedal := true, speed := value)))
  }

  /** The pedal as a failed addNote leaves it (midi.c:295-304). */
  function PedalClosedOnly(p: Note, value: Byte, tick: nat, delta: nat): Note
  {
    p.(playing := value != 0, stopDeltaTick := delta, stopTick := tick)
  }

  /** The note a Set Tempo event commits into a zeroed slot (midi.c:412-415). */
  function TempoNote(tick: nat, tempo: nat): (n: Note)
    ensures n.isTempo && !n.isPedal && n.startTick == tick && n.tempo == tempo && n.stopTick == 0
  {
    ZeroNote.(isTempo := true, startTick := tick, tempo := tempo)
  }

  /** A repeated Note On for a pitch that is already sounding closes it: the
      glitch guard of the decoder ends the first note instead of ignoring the
      second (midi.c:237-261). */
  lemma RepeatedNoteOnCloses(slot: Note, pitch: nat, v1: Byte, v2: Byte, ch: nat, t1: nat, t2: nat, d1: nat, d2: nat)
    requires !slot.playing && v1 > 0
    ensures var first := NoteStep(slot, true, pitch, v1, ch, t1, d1);
      var second := NoteStep(first.slot, true, pitch, v2, ch, t2, d2);
      && first.committed.None?
      && second.committed == Some(first.slot.(playing := false, stopDeltaTick := d2, stopTick := t2, note := pitch))
      && !second.slot.playing
  {
  }

  /** Opening and then closing a slot commits exactly the interval between
      the two events, with the opening velocity. */
  lemma {:induction false} NoteOnThenOff(slot: Note, pitch: nat, v: Byte, ch: nat, t1: nat, t2: nat, d1: nat, d2: nat, on2: bool, v2: Byte)
    requires !slot.playing && v > 0
    ensures var first := NoteStep(slot, true, pitch, v, ch, t1, d1);
      var second := NoteStep(first.slot, on2, pitch, v2, ch, t2, d2);
      && second.committed.Some?
      && second.committed.value.startTick == t1 && second.committed.value.stopTick == t2
      && second.committed.value.speed == v && second.committed.value.note == pitch
      && second.committed.value.channel == ch
  {
    var first := NoteStep(slot, true, pitch, v, ch, t1, d1);
    assert first.slot.playing && first.slot.startTick == t1 && first.slot.speed == v;
  }

  /** A pedal released with value 0 and pressed again never commits a note at
      the press: the press reopens the interval. Two successive non-zero
      values commit one pedal note each, back to back. */
  lemma PedalIntervalsAreContiguous(p: Note, v1: Byte, v2: Byte, t1: nat, t2: nat, d1: nat, d2: nat)
    requires p.playing && v1 != 0
    ensures var first := PedalStep(p, v1, t1, d1);
      var second := PedalStep(first.slot, v2, t2, d2);
      && first.committed.Some? && second.committed.Some?
      && first.committed.value.stopTick == second.committed.value.startTick == t1
      && second.committed.value.stopTick == t2
  {
  }
}
