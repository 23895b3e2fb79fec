/** A reference decoder for the track chunks of a Standard MIDI File, on
    values: the statics of midi.c as a `Decoder` state, one event of a chunk
    decoded as a function of that state and the bytes (getTrackEvent,
    midi.c:194-524), and a whole chunk decoded event by event (the event loop
    of readMidi, midi.c:95-119). The decoder in MidiParser and MidiReader,
    which works on arrays and track records in place, is proved to compute
    exactly this whenever it succeeds. */
module MidiDecoder {
  import opened MidiTypes
  import opened MidiBytes
  import opened MidiSong
  import opened MidiEvents

  /** The decoder state: the slot of each (pitch, channel) pair, the pedal of
      each channel, the running status and its channel, and the channel
      nibble of the last 0xFn status byte (midi.c:7-12). */
  datatype Decoder = Decoder(slots: seq<seq<Note>>, pedal: seq<Note>, status: Byte, channel: nat, sysChannel: nat)

  /** A decoder state of the shape of midi.c's arrays, with a status nibble
      and channels in range. */
  predicate Shaped(d: Decoder)
  {
    && |d.slots| == MidiNoteRange && (forall p :: 0 <= p < MidiNoteRange ==> |d.slots[p]| == MidiChannels)
    && |d.pedal| == MidiChannels
    && d.status % 16 == 0 && d.channel < MidiChannels && d.sysChannel < MidiChannels
  }

  /** The zero-initialised statics a program starts with. */
  function FreshDecoder(): (d: Decoder)
    ensures Shaped(d)
    ensures forall p, c :: 0 <= p < MidiNoteRange && 0 <= c < MidiChannels ==> d.slots[p][c] == ZeroNote
    ensures forall c :: 0 <= c < MidiChannels ==> d.pedal[c] == ZeroNote
  {
    Decoder(seq(MidiNoteRange, _ => seq(MidiChannels, _ => ZeroNote)), seq(MidiChannels, _ => ZeroNote), 0, 0, 0)
  }

  /** The decoder state, what the track holds, and the tick reached. */
  datatype Progress = Progress(dec: Decoder, track: TrackData, tick: nat)

  /** The notes after a slot step: one more when the step commits one. */
  function Commit(notes: seq<Note>, r: SlotStep): (s: seq<Note>)
    ensures notes <= s && |s| == |notes| + (if r.committed.Some? then 1 else 0)
    ensures r.committed.Some? ==> s == notes + [r.committed.value]
    ensures r.committed.None? ==> s == notes
  {
    if r.committed.Some? then notes + [r.committed.value] else notes
  }

  /** The text fields after a text meta event of type `kind` carrying
      `payload` (midi.c:361-395). Type 0x07 falls through to 0x7F, so a cue
      point is also stored as sequencer data; a track name whose C string is
      "Transport" marks the track as the transport track, and nothing clears
      that mark. */
  function StoreText(info: TrackInfo, kind: Byte, payload: seq<Byte>): (r: TrackInfo)
    requires TextMeta(kind)
  {
    match kind
    case 0x01 => info.(text := Some(payload))
    case 0x02 => info.(copyright := Some(payload))
    case 0x03 =>
      info.(trackName := Some(payload),
            transportTrack := info.transportTrack || CString(payload) == TransportName)
    case 0x04 => info.(instrumentName := Some(payload))
    case 0x05 => info.(lyric := Some(payload))
    case 0x06 => info.(marker := Some(payload))
    case 0x07 => info.(cuePoint := Some(payload), sequencerMetaData := Some(payload))
    case 0x7F => info.(sequencerMetaData := Some(payload))
  }

  /** A later text event of the same type replaces the earlier payload, and
      the transport mark, once set, stays set. */
  lemma StoreTextLaterWins(info: TrackInfo, kind: Byte, first: seq<Byte>, second: seq<Byte>)
    requires TextMeta(kind)
    ensures var twice := StoreText(StoreText(info, kind, first), kind, second);
      && twice.(transportTrack := false) == StoreText(info, kind, second).(transportTrack := false)
      && twice.transportTrack == (StoreText(info, kind, first).transportTrack || StoreText(info, kind, second).transportTrack)
  {
  }

  /** A text event changes only the field of its type (and, for a cue
      point, the sequencer data), and never clears the transport mark. */
  lemma StoreTextFrame(info: TrackInfo, kind: Byte, payload: seq<Byte>)
    requires TextMeta(kind)
    ensures var r := StoreText(info, kind, payload);
      && (info.transportTrack ==> r.transportTrack)
      && (r.transportTrack != info.transportTrack ==> kind == 0x03 && CString(payload) == TransportName)
      && (kind != 0x01 ==> r.text == info.text)
      && (kind != 0x02 ==> r.copyright == info.copyright)
      && (kind != 0x03 ==> r.trackName == info.trackName)
      && (kind != 0x04 ==> r.instrumentName == info.instrumentName)
      && (kind != 0x05 ==> r.lyric == info.lyric)
      && (kind != 0x06 ==> r.marker == info.marker)
      && (kind != 0x07 ==> r.cuePoint == info.cuePoint)
      && (kind != 0x07 && kind != 0x7F ==> r.sequencerMetaData == info.sequencerMetaData)
  {
  }

  /** Where the System Exclusive scan from `pos` stops (midi.c:437-442): just
      past the first 0xF7; None when the data ends first. */
  function SysExEnd(data: seq<Byte>, pos: nat): (r: Option<nat>)
    decreases |data| - pos
  {
    if pos >= |data| then None
    else if data[pos] == 0xF7 then Some(pos + 1)
    else SysExEnd(data, pos + 1)
  }

  /** The scan ends exactly past the first 0xF7 at or after `pos`, and finds
      none only when there is none. */
  lemma {:induction false} SysExEndIsFirst(data: seq<Byte>, pos: nat)
    ensures var r := SysExEnd(data, pos);
      && (r.Some? ==> pos < r.value <= |data| && data[r.value - 1] == 0xF7
                      && forall k :: pos <= k < r.value - 1 ==> data[k] != 0xF7)
      && (r.None? <==> forall k :: pos <= k < |data| ==> data[k] != 0xF7)
    decreases |data| - pos
  {
    if pos < |data| && data[pos] != 0xF7 {
      SysExEndIsFirst(data, pos + 1);
    }
  }

  /** The meta event whose type byte is `data[pos]` (midi.c:337-434): what the
      track holds after it and where the next event starts. Fixed-size types
      are skipped, text types store their payload, Set Tempo commits a tempo
      note and marks the tempo track, and other types are skipped by their
      declared length. None where the C code reads past the data. */
  function MetaStep(t: TrackData, data: seq<Byte>, pos: nat, tick: nat): (r: Option<(TrackData, nat)>)
  {
    if pos >= |data| then None
    else
      var kind := data[pos];
      if FixedMeta(kind) then Some((t, pos + 1 + MetaSkip(kind)))
      else if TextMeta(kind) then
        match VlqAt(data, pos + 1, 0)
        case None => None
        case Some(len) =>
          if len.next + len.value > |data| then None
          else Some((t.(info := StoreText(t.info, kind, data[len.next..len.next + len.value])), len.next + len.value))
      else if kind == 0x51 then
        if pos + 5 > |data| then None
        else Some((TrackData(t.notes + [TempoNote(tick, BigEndian(data[pos + 2..pos + 5]))],
                             t.info.(tempoTrack := true)), pos + 5))
      else
        match VlqAt(data, pos + 1, 0)
        case None => None
        case Some(len) => Some((t, len.next + len.value))
  }

  /** A meta event moves the cursor past its type byte and only adds notes. */
  lemma MetaStepAdvances(t: TrackData, data: seq<Byte>, pos: nat, tick: nat)
    requires MetaStep(t, data, pos, tick).Some?
    ensures var r := MetaStep(t, data, pos, tick).value;
      pos < r.1 && t.notes <= r.0.notes
  {
  }

  /** The data of a channel message whose data starts at `data[first]`,
      under the running status of `d` (midi.c:230-333): a Note On or Off with
      a pitch inside the table steps its slot, controller 0x40 steps the
      channel's pedal, and the other messages are skipped by their data byte
      count. None where the C code reads or writes outside a buffer. */
  function ChannelStep(d: Decoder, t: TrackData, data: seq<Byte>, first: nat, tick: nat, delta: nat)
    : (r: Option<(Decoder, TrackData, nat)>)
    requires Shaped(d)
  {
    var n := ChannelDataBytes(d.status);
    if first + n > |data| then None
    else if d.status == NoteOn || d.status == NoteOff then
      var pitch := data[first];
      if pitch >= MidiNoteRange then None
      else
        var r := NoteStep(d.slots[pitch][d.channel], d.status == NoteOn, pitch, data[first + 1], d.channel, tick, delta);
        Some((d.(slots := d.slots[pitch := d.slots[pitch][d.channel := r.slot]]), t.(notes := Commit(t.notes, r)), first + 2))
    else if d.status == ControlChange && data[first] == 0x40 then
      var r := PedalStep(d.pedal[d.channel], data[first + 1], tick, delta);
      Some((d.(pedal := d.pedal[d.channel := r.slot]), t.(notes := Commit(t.notes, r)), first + 2))
    else Some((d, t, first + n))
  }

  /** The data of a system message whose first byte is `b` and whose data
      starts at `data[first]` (midi.c:334-520): 0xFF is a meta event, 0xF0
      runs to the next 0xF7, and any other byte is skipped with its data byte
      count. None where the C code reads past the data. */
  function SystemStep(t: TrackData, b: Byte, data: seq<Byte>, first: nat, tick: nat): (r: Option<(TrackData, nat)>)
  {
    if b == 0xFF then MetaStep(t, data, first, tick)
    else if b == 0xF0 then
      match SysExEnd(data, first)
      case None => None
      case Some(next) => Some((t, next))
    else if first + SystemDataBytes(b) > |data| then None
    else Some((t, first + SystemDataBytes(b)))
  }

  /** The data part of an event whose first byte is `data[start]`, under the
      running status of `d` (midi.c:230-523): a system message when the
      status is 0xF0, a channel message otherwise. */
  function BodyStep(d: Decoder, t: TrackData, data: seq<Byte>, start: nat, tick: nat, delta: nat)
    : (r: Option<(Decoder, TrackData, nat)>)
    requires Shaped(d) && start < |data|
  {
    var first := EventData(data, start);
    if d.status == SystemMsg then
      match SystemStep(t, data[start], data, first, tick)
      case None => None
      case Some(m) => Some((d, m.0, m.1))
    else ChannelStep(d, t, data, first, tick, delta)
  }

  /** An event body keeps the decoder's shape and running status, does not
      move the cursor back, and only adds notes. */
  lemma BodyStepKeeps(d: Decoder, t: TrackData, data: seq<Byte>, start: nat, tick: nat, delta: nat)
    requires Shaped(d) && start < |data| && BodyStep(d, t, data, start, tick, delta).Some?
    ensures var r := BodyStep(d, t, data, start, tick, delta).value;
      && Shaped(r.0) && r.0.status == d.status && r.0.channel == d.channel && r.0.sysChannel == d.sysChannel
      && start <= r.2 && t.notes <= r.1.notes
  {
    var first := EventData(data, start);
    if d.status == SystemMsg && data[start] == 0xFF {
      MetaStepAdvances(t, data, first, tick);
    } else if d.status == SystemMsg && data[start] == 0xF0 {
      SysExEndIsFirst(data, first);
    }
  }

  /** The running status after the byte `b` that follows an event's
      delta-time (midi.c:212-228). */
  function StatusStep(d: Decoder, b: Byte): (r: Decoder)
  {
    var (status, channel) := NextRunningStatus(d.status, d.channel, b);
    d.(status := status, channel := channel,
       sysChannel := if HighBit(b) && StatusOf(b) == SystemMsg then ChannelOf(b) else d.sysChannel)
  }

  /** One event of a track chunk from `pos` (getTrackEvent, midi.c:194-524):
      the delta-time, the status byte or a running-status data byte, and the
      event's data. Gives the new state, the track contents and tick after
      the event, and where the next event starts; None where the C code
      reads or writes outside a buffer. */
  function EventStep(d: Decoder, t: TrackData, data: seq<Byte>, pos: nat, tick: nat): (r: Option<(Progress, nat)>)
    requires Shaped(d)
  {
    if pos >= |data| then None
    else match VlqAt(data, pos, 0)
      case None => None
      case Some(delta) =>
        if delta.next >= |data| then None
        else
          var now := tick + delta.value;
          match BodyStep(StatusStep(d, data[delta.next]), t, data, delta.next, now, delta.value)
          case None => None
          case Some(e) => Some((Progress(e.0, e.1, now), e.2))
  }

  /** An event keeps the decoder's shape, moves the cursor forward, does not
      move the tick back, and only adds notes. */
  lemma EventStepKeeps(d: Decoder, t: TrackData, data: seq<Byte>, pos: nat, tick: nat)
    requires Shaped(d) && EventStep(d, t, data, pos, tick).Some?
    ensures var r := EventStep(d, t, data, pos, tick).value;
      && Shaped(r.0.dec) && pos < r.1 && tick <= r.0.tick && t.notes <= r.0.track.notes
  {
    var delta := VlqAt(data, pos, 0).value;
    BodyStepKeeps(StatusStep(d, data[delta.next]), t, data, delta.next, tick + delta.value, delta.value);
  }

  /** The events of a track chunk from `pos` to its end, each decoded from
      the state the previous one left (midi.c:95-119). None when an event
      reads or writes outside a buffer. */
  function DecodeFrom(d: Decoder, t: TrackData, data: seq<Byte>, pos: nat, tick: nat): (r: Option<Progress>)
    requires Shaped(d)
    decreases |data| - pos
  {
    if pos >= |data| then Some(Progress(d, t, tick))
    else match EventStep(d, t, data, pos, tick)
      case None => None
      case Some(e) =>
        EventStepKeeps(d, t, data, pos, tick);
        DecodeFrom(e.0.dec, e.0.track, data, e.1, e.0.tick)
  }

  /** Decoding a chunk keeps the decoder's shape, never moves the tick back,
      and only appends notes: what a track held before its chunk is a prefix
      of what it holds after. */
  lemma {:induction false} DecodeKeeps(d: Decoder, t: TrackData, data: seq<Byte>, pos: nat, tick: nat)
    requires Shaped(d) && DecodeFrom(d, t, data, pos, tick).Some?
    ensures var r := DecodeFrom(d, t, data, pos, tick).value;
      Shaped(r.dec) && tick <= r.tick && t.notes <= r.track.notes
    decreases |data| - pos
  {
    if pos < |data| {
      var e := EventStep(d, t, data, pos, tick).value;
      EventStepKeeps(d, t, data, pos, tick);
      DecodeKeeps(e.0.dec, e.0.track, data, e.1, e.0.tick);
    }
  }

  // ---------------------------------------------------------------------
  // Ordering: the ticks the decoder records never run ahead of the clock

  /** Every note lies at or before `tick` and, unless it is a tempo change,
      does not stop before it starts. */
  predicate NotesBy(notes: seq<Note>, tick: nat)
  {
    forall k :: 0 <= k < |notes| ==>
      && notes[k].startTick <= tick && notes[k].stopTick <= tick
      && (notes[k].isTempo || notes[k].startTick <= notes[k].stopTick)
  }

  /** Every sounding note and every held pedal was opened at or before `tick`. */
  predicate SlotsBy(d: Decoder, tick: nat)
    requires Shaped(d)
  {
    && (forall p, c :: 0 <= p < MidiNoteRange && 0 <= c < MidiChannels && d.slots[p][c].playing ==>
          d.slots[p][c].startTick <= tick)
    && (forall c :: 0 <= c < MidiChannels && d.pedal[c].playing ==> d.pedal[c].startTick <= tick)
  }

  /** The decoder state and the track are consistent with the tick reached. */
  predicate Ordered(p: Progress)
    requires Shaped(p.dec)
  {
    SlotsBy(p.dec, p.tick) && NotesBy(p.track.notes, p.tick)
  }

  /** A program's first track starts consistent: the zeroed statics hold no
      sounding note or held pedal, and an empty track at tick 0 has nothing
      to order, so DecodeOrdered applies to it. */
  lemma FreshStartOrdered()
    ensures Shaped(FreshDecoder()) && Ordered(Progress(FreshDecoder(), TrackData([], EmptyInfo), 0))
  {
  }

  /** Notes recorded by an earlier tick are recorded by a later one. */
  lemma NotesByLater(notes: seq<Note>, t1: nat, t2: nat)
    requires NotesBy(notes, t1) && t1 <= t2
    ensures NotesBy(notes, t2)
  {
  }

  /** An event body at `tick` keeps a state consistent with `tick`: a note
      or pedal it commits was opened no later and stops at `tick`, and a
      slot it opens starts at `tick`. */
  lemma BodyStepOrdered(d: Decoder, t: TrackData, data: seq<Byte>, start: nat, tick: nat, delta: nat)
    requires Shaped(d) && start < |data| && BodyStep(d, t, data, start, tick, delta).Some?
    requires Ordered(Progress(d, t, tick))
    ensures var r := BodyStep(d, t, data, start, tick, delta).value;
      Shaped(r.0) && Ordered(Progress(r.0, r.1, tick))
  {
    BodyStepKeeps(d, t, data, start, tick, delta);
    var r := BodyStep(d, t, data, start, tick, delta).value;
    var first := EventData(data, start);
    if d.status == NoteOn || d.status == NoteOff {
      var pitch := data[first];
      var slot := d.slots[pitch][d.channel];
      var step := NoteStep(slot, d.status == NoteOn, pitch, data[first + 1], d.channel, tick, delta);
      assert slot.playing ==> slot.startTick <= tick;
      assert r.1.notes == Commit(t.notes, step);
    } else if d.status == ControlChange && data[first] == 0x40 {
      var step := PedalStep(d.pedal[d.channel], data[first + 1], tick, delta);
      assert r.1.notes == Commit(t.notes, step);
    }
  }

  /** An event keeps a state consistent with the clock: the delta only moves
      the clock forward. */
  lemma EventStepOrdered(d: Decoder, t: TrackData, data: seq<Byte>, pos: nat, tick: nat)
    requires Shaped(d) && EventStep(d, t, data, pos, tick).Some?
    requires Ordered(Progress(d, t, tick))
    ensures var r := EventStep(d, t, data, pos, tick).value;
      Shaped(r.0.dec) && Ordered(r.0)
  {
    var delta := VlqAt(data, pos, 0).value;
    var now := tick + delta.value;
    var s := StatusStep(d, data[delta.next]);
    NotesByLater(t.notes, tick, now);
    assert s.slots == d.slots && s.pedal == d.pedal;
    BodyStepOrdered(s, t, data, delta.next, now, delta.value);
    var b := BodyStep(s, t, data, delta.next, now, delta.value).value;
    assert EventStep(d, t, data, pos, tick).value.0 == Progress(b.0, b.1, now);
  }

  /** A track decoded from a state consistent with its starting tick ends
      consistent with the tick reached: no committed note stops before it
      starts (tempo changes aside) or lies past the end of the track. */
  lemma {:induction false} DecodeOrdered(d: Decoder, t: TrackData, data: seq<Byte>, pos: nat, tick: nat)
    requires Shaped(d) && DecodeFrom(d, t, data, pos, tick).Some?
    requires Ordered(Progress(d, t, tick))
    ensures var r := DecodeFrom(d, t, data, pos, tick).value;
      Shaped(r.dec) && Ordered(r)
    decreases |data| - pos
  {
    if pos < |data| {
      var e := EventStep(d, t, data, pos, tick).value;
      EventStepKeeps(d, t, data, pos, tick);
      EventStepOrdered(d, t, data, pos, tick);
      DecodeOrdered(e.0.dec, e.0.track, data, e.1, e.0.tick);
    } else {
      DecodeKeeps(d, t, data, pos, tick);
    }
  }

  /** A two-event track read by a fresh decoder: a Note On for pitch 60
      with velocity 64 at tick 0, then, under running status, a Note On with
      velocity 0 ninety-six ticks later. The second event closes the note, so
      the track holds one note from tick 0 to tick 96, and the slot is idle
      again. */
  lemma NoteOnNoteOffExample()
    ensures var r := DecodeFrom(FreshDecoder(), TrackData([], EmptyInfo), [0x00, 0x90, 60, 64, 0x60, 60, 0], 0, 0);
      && r.Some? && r.value.tick == 96 && |r.value.track.notes| == 1
      && r.value.track.notes[0].note == 60 && r.value.track.notes[0].speed == 64
      && r.value.track.notes[0].startTick == 0 && r.value.track.notes[0].stopTick == 96
      && Shaped(r.value.dec) && !r.value.dec.slots[60][0].playing
  {
    var data: seq<Byte> := [0x00, 0x90, 60, 64, 0x60, 60, 0];
    var d0, t0 := FreshDecoder(), TrackData([], EmptyInfo);
    assert VlqAt(data, 0, 0) == Some(VlqRead(0, 1));
    var d1 := StatusStep(d0, 0x90);
    assert d1.status == NoteOn && d1.channel == 0;
    var on := NoteStep(d1.slots[60][0], true, 60, 64, 0, 0, 0);
    assert on.committed.None? && on.slot.playing;
    var e1 := EventStep(d0, t0, data, 0, 0);
    assert e1 == Some((Progress(d1.(slots := d1.slots[60 := d1.slots[60][0 := on.slot]]), t0, 0), 4));
    var p1 := e1.value.0;
    assert p1.dec.slots[60][0] == on.slot && p1.dec.status == NoteOn && p1.dec.channel == 0;
    assert VlqAt(data, 4, 0) == Some(VlqRead(96, 5));
    assert StatusStep(p1.dec, 60) == p1.dec;
    assert EventData(data, 5) == 5;
    var off := NoteStep(on.slot, true, 60, 0, 0, 96, 96);
    assert off.committed.Some? && !off.slot.playing;
    assert p1.track == t0 && p1.tick == 0;
    var d2 := p1.dec.(slots := p1.dec.slots[60 := p1.dec.slots[60][0 := off.slot]]);
    assert ChannelDataBytes(NoteOn) == 2;
    assert data[5] == 60 && data[6] == 0 && |data| == 7;
    assert p1.dec.slots[data[5]][p1.dec.channel] == on.slot;
    assert NoteStep(p1.dec.slots[data[5]][p1.dec.channel], p1.dec.status == NoteOn, data[5], data[6], p1.dec.channel, 96, 96) == off;
    assert Commit(t0.notes, off) == [off.committed.value];
    assert ChannelStep(p1.dec, t0, data, 5, 96, 96) == Some((d2, t0.(notes := [off.committed.value]), 7));
    var e2 := EventStep(p1.dec, p1.track, data, 4, 0);
    assert e2 == Some((Progress(p1.dec.(slots := p1.dec.slots[60 := p1.dec.slots[60][0 := off.slot]]),
                                t0.(notes := [off.committed.value]), 96), 7));
  }
}
