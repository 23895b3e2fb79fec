/** The event decoder of the MIDI reader (midi.c). Its state is the static
    data of midi.c: the table of sounding notes per (pitch, channel), the
    pedal of each channel and the running status. None of it is reset between
    tracks or between files. */
module MidiParser {
  import opened MidiTypes
  import opened MidiBytes
  import opened MidiSong
  import opened MidiEvents
  import opened MidiDecoder

  /** The System Exclusive scan (midi.c:437-442): the bytes from `pos` on are
      read up to and including the first 0xF7. `found` is false when the data
      ends first, where the C loop would read past the buffer. */
  method ScanSysEx(data: seq<Byte>, pos: nat) returns (found: bool, next: nat)
    ensures found ==> pos < next <= |data| && data[next - 1] == 0xF7
    ensures found ==> forall k :: pos <= k < next - 1 ==> data[k] != 0xF7
    ensures !found ==> forall k :: pos <= k < |data| ==> data[k] != 0xF7
    ensures SysExEnd(data, pos) == if found then Some(next) else None
  {
    next := pos;
    if pos > |data| {
      return false, next;
    }
    var b: Byte := 0;
    while b != 0xF7
      invariant pos <= next <= |data|
      invariant b == 0xF7 ==> pos < next <= |data| && data[next - 1] == 0xF7
      invariant forall k :: pos <= k < next && (b != 0xF7 || k < next - 1) ==> data[k] != 0xF7
      invariant SysExEnd(data, pos) == if b == 0xF7 then Some(next) else SysExEnd(data, next)
      decreases |data| - next, if b == 0xF7 then 0 else 1
    {
      if next >= |data| {
        return false, next;
      }
      b := data[next];
      next := next + 1;
    }
    found := true;
  }

  /** A grid that agrees with `a` on every cell but (`p0`, `c0`), where it
      holds `x`, is `a` with that one cell replaced. */
  lemma GridUpdate(a: seq<seq<Note>>, b: seq<seq<Note>>, p0: nat, c0: nat, x: Note)
    requires |a| == |b| && p0 < |a| && c0 < |a[p0]|
    requires forall p :: 0 <= p < |a| ==> |b[p]| == |a[p]|
    requires forall p, c :: 0 <= p < |a| && 0 <= c < |a[p]| ==> b[p][c] == (if p == p0 && c == c0 then x else a[p][c])
    ensures b == a[p0 := a[p0][c0 := x]]
  {
    var u := a[p0 := a[p0][c0 := x]];
    forall p | 0 <= p < |a|
      ensures b[p] == u[p]
    {
      assert forall c :: 0 <= c < |a[p]| ==> b[p][c] == u[p][c];
    }
  }

  class MidiParser {
    /** storageNotes[MIDI_NOTE_RANGE][MIDI_CHANNELS] (midi.c:7). */
    const storageNotes: array2<Note>
    /** pedal[MIDI_CHANNELS] (midi.c:8). */
    const pedal: array<Note>
    /** Running status, masked to its upper nibble (midi.c:9). */
    var currentStatusByte: Byte
    /** Channel of the last channel status byte (midi.c:10). */
    var currentChannel: nat
    /** Channel nibble of the last 0xFn status byte (midi.c:12). */
    var currentSystemChannel: nat

    ghost predicate Valid()
      reads this
    {
      && storageNotes.Length0 == MidiNoteRange && storageNotes.Length1 == MidiChannels
      && pedal.Length == MidiChannels
      && currentStatusByte % 16 == 0
      && currentChannel < MidiChannels && currentSystemChannel < MidiChannels
    }

    /** The slot table as a grid of values, indexed by pitch, then channel. */
    ghost function Slots(): (g: seq<seq<Note>>)
      reads storageNotes
      requires storageNotes.Length0 == MidiNoteRange && storageNotes.Length1 == MidiChannels
      ensures |g| == MidiNoteRange && forall p :: 0 <= p < MidiNoteRange ==> |g[p]| == MidiChannels
      ensures forall p, c :: 0 <= p < MidiNoteRange && 0 <= c < MidiChannels ==> g[p][c] == storageNotes[p, c]
    {
      seq(MidiNoteRange, p requires 0 <= p < MidiNoteRange reads storageNotes =>
        seq(MidiChannels, c requires 0 <= c < MidiChannels reads storageNotes => storageNotes[p, c]))
    }

    /** The decoder state the statics hold. */
    ghost function State(): (d: Decoder)
      reads this, storageNotes, pedal
      requires Valid()
      ensures Shaped(d)
    {
      Decoder(Slots(), pedal[..], currentStatusByte, currentChannel, currentSystemChannel)
    }

    /** The zero-initialised statics of midi.c. */
    constructor ()
      ensures Valid() && fresh(storageNotes) && fresh(pedal)
      ensures currentStatusByte == 0 && currentChannel == 0 && currentSystemChannel == 0
      ensures forall p, c :: 0 <= p < MidiNoteRange && 0 <= c < MidiChannels ==> storageNotes[p, c] == ZeroNote
      ensures forall c :: 0 <= c < MidiChannels ==> pedal[c] == ZeroNote
      ensures State() == FreshDecoder()
    {
      storageNotes := new Note[MidiNoteRange, MidiChannels]((_, _) => ZeroNote);
      pedal := new Note[MidiChannels](_ => ZeroNote);
      currentStatusByte, currentChannel, currentSystemChannel := 0, 0, 0;
      new;
      forall p | 0 <= p < MidiNoteRange
        ensures Slots()[p] == FreshDecoder().slots[p]
      {
      }
    }

    /** A Note On or Note Off for `pitch` on the current channel
        (midi.c:232-263), following NoteStep. If the slot closes and addNote
        fails, the slot stays closed without its ticks cleared and nothing is
        committed. */
    method NoteEvent(track: Track, pitch: Byte, velocity: Byte, tick: nat, delta: nat, memOk: bool)
      returns (status: Status)
      ensures status == MidiOk || status == MidiMemory || status == Undefined
      requires Valid() && track.Valid()
      requires pitch < MidiNoteRange
      modifies storageNotes, track
      ensures track.Allocated() && track.Info() == old(track.Info())
      ensures var ch := currentChannel;
        var step := NoteStep(old(storageNotes[pitch, ch]), currentStatusByte == NoteOn, pitch, velocity, ch, tick, delta);
        && (status == MidiOk || status == MidiMemory)
        && (status == MidiMemory ==>
              && step.committed.Some? && track.nNotes == old(track.nNotes) + 1
              && storageNotes[pitch, ch] == NoteClosedOnly(old(storageNotes[pitch, ch]), ch, tick, delta))
        && (status == MidiOk ==>
              && storageNotes[pitch, ch] == step.slot && track.Valid()
              && track.Notes() == old(track.Notes()) + (if step.committed.Some? then [step.committed.value] else []))
      ensures status == MidiOk ==>
        Slots() == old(Slots())[pitch := old(Slots())[pitch][currentChannel := storageNotes[pitch, currentChannel]]]
      ensures memOk ==> status == MidiOk
    {
      var ch := currentChannel;
      var slot := storageNotes[pitch, ch].(channel := ch);
      status := MidiOk;
      if currentStatusByte == NoteOn && velocity > 0 && !slot.playing {
        storageNotes[pitch, ch] := slot.(playing := true, startDeltaTick := delta, startTick := tick, speed := velocity);
      } else if slot.playing {
        var closed := slot.(playing := false, stopDeltaTick := delta, stopTick := tick);
        storageNotes[pitch, ch] := closed;
        status := track.AddNote(memOk);
        if status != MidiOk {
          return;
        }
        track.notes := track.notes[track.nNotes - 1 := closed.(note := pitch)];
        storageNotes[pitch, ch] := closed.(startTick := 0, stopTick := 0);
      } else {
        storageNotes[pitch, ch] := slot;
      }
      GridUpdate(old(Slots()), Slots(), pitch, ch, storageNotes[pitch, ch]);
    }

    /** A sustain-pedal change on the current channel (midi.c:285-311),
        following PedalStep. If addNote fails, the pedal keeps its new
        playing flag and stop tick and nothing is committed. */
    method PedalEvent(track: Track, value: Byte, tick: nat, delta: nat, memOk: bool)
      returns (status: Status)
      ensures status == MidiOk || status == MidiMemory || status == Undefined
      requires Valid() && track.Valid()
      modifies pedal, track
      ensures track.Allocated() && track.Info() == old(track.Info())
      ensures var ch := currentChannel;
        var step := PedalStep(old(pedal[ch]), value, tick, delta);
        && (status == MidiOk || status == MidiMemory)
        && (status == MidiMemory ==>
              && step.committed.Some? && track.nNotes == old(track.nNotes) + 1
              && pedal[ch] == PedalClosedOnly(old(pedal[ch]), value, tick, delta))
        && (status == MidiOk ==>
              && pedal[ch] == step.slot && track.Valid()
              && track.Notes() == old(track.Notes()) + (if step.committed.Some? then [step.committed.value] else []))
      ensures forall c :: 0 <= c < MidiChannels && c != currentChannel ==> pedal[c] == old(pedal[c])
      ensures pedal[..] == old(pedal[..])[currentChannel := pedal[currentChannel]]
      ensures memOk ==> status == MidiOk
    {
      var ch := currentChannel;
      var p := pedal[ch];
      status := MidiOk;
      if !p.playing {
        pedal[ch] := p.(playing := true, startDeltaTick := delta, startTick := tick, speed := value);
      } else {
        var closed := p.(playing := value != 0, stopDeltaTick := delta, stopTick := tick);
        pedal[ch] := closed;
        status := track.AddNote(memOk);
        if status != MidiOk {
          return;
        }
        track.notes := track.notes[track.nNotes - 1 := closed.(isPedal := true, speed := value)];
        pedal[ch] := closed.(startDeltaTick := delta, startTick := tick);
      }
    }

    /** A meta event whose type byte is `data[pos]` (midi.c:337-434). Text
        types store their payload; Set Tempo commits a tempo note and marks
        the tempo track; End of Track (0x2F) is skipped like any fixed-size
        type and does not stop decoding; unknown types are skipped by their
        declared length. `memOk` says whether an allocation succeeds. */
    method MetaEvent(track: Track, data: seq<Byte>, pos: nat, tick: nat, memOk: bool)
      returns (status: Status, next: nat)
      ensures status == MidiOk || status == MidiMemory || status == Undefined
      ensures memOk ==> status != MidiMemory
      requires track.Valid()
      modifies track
      ensures track.Allocated()
      ensures status == MidiOk ==> track.Valid()
      ensures pos >= |data| ==> status == Undefined
      ensures pos < |data| && FixedMeta(data[pos]) ==>
        status == MidiOk && next == pos + 1 + MetaSkip(data[pos]) && unchanged(track)
      ensures pos < |data| && TextMeta(data[pos]) ==>
        var len := VlqAt(data, pos + 1, 0);
        && (len.None? ==> status == Undefined)
        && (len.Some? ==> (status == MidiOk <==> memOk && len.value.next + len.value.value <= |data|))
        && (status == MidiOk ==>
              && len.Some? && next == len.value.next + len.value.value
              && track.notes == old(track.notes) && track.nNotes == old(track.nNotes)
              && track.allocatedNotes == old(track.allocatedNotes)
              && track.Info() == StoreText(old(track.Info()), data[pos], data[len.value.next..next]))
      ensures pos < |data| && data[pos] == 0x51 ==>
        && (status == MidiOk <==> (memOk || old(track.nNotes) < old(track.allocatedNotes)) && pos + 5 <= |data|)
        && (status == MidiOk ==>
              && next == pos + 5 && track.Info() == old(track.Info()).(tempoTrack := true)
              && track.Notes() == old(track.Notes()) + [TempoNote(tick, BigEndian(data[pos + 2..pos + 5]))])
      ensures pos < |data| && !FixedMeta(data[pos]) && !TextMeta(data[pos]) && data[pos] != 0x51 ==>
        var len := VlqAt(data, pos + 1, 0);
        && (len.None? ==> status == Undefined)
        && (len.Some? ==> status == MidiOk && next == len.value.next + len.value.value && unchanged(track))
      ensures status == MidiOk ==> MetaStep(old(track.Content()), data, pos, tick) == Some((track.Content(), next))
      ensures memOk ==> (status == MidiOk <==> MetaStep(old(track.Content()), data, pos, tick).Some?)
    {
      if pos >= |data| {
        return Undefined, pos;
      }
      var kind := data[pos];
      next := pos + 1;
      status := MidiOk;
      if FixedMeta(kind) {
        next := next + MetaSkip(kind);
      } else if TextMeta(kind) {
        status, next := TextEvent(track, kind, data, next, memOk);
      } else if kind == 0x51 {
        status, next := TempoEvent(track, data, next, tick, memOk);
      } else {
        var len := ReadVariableLengthQuantity(data, next);
        if len.None? {
          return Undefined, next;
        }
        next := len.value.next + len.value.value;
      }
    }

    /** A text meta event of type `kind` whose length starts at `data[pos]`
        (midi.c:348-397): the payload is copied into the field for `kind`. */
    method TextEvent(track: Track, kind: Byte, data: seq<Byte>, pos: nat, memOk: bool)
      returns (status: Status, next: nat)
      ensures status == MidiOk || status == MidiMemory || status == Undefined
      ensures memOk ==> status != MidiMemory
      requires TextMeta(kind)
      modifies track
      ensures track.notes == old(track.notes) && track.nNotes == old(track.nNotes)
      ensures track.allocatedNotes == old(track.allocatedNotes)
      ensures var len := VlqAt(data, pos, 0);
        && (len.None? ==> status == Undefined && track.Info() == old(track.Info()))
        && (len.Some? ==> (status == MidiOk <==> memOk && len.value.next + len.value.value <= |data|))
        && (status != MidiOk ==> track.Info() == old(track.Info()))
        && (status == MidiOk ==>
              && len.Some? && next == len.value.next + len.value.value
              && track.Info() == StoreText(old(track.Info()), kind, data[len.value.next..next]))
    {
      var len := ReadVariableLengthQuantity(data, pos);
      if len.None? {
        return Undefined, pos;
      }
      var nDataBytes := len.value.value;
      next := len.value.next;
      if !memOk {
        return MidiMemory, next;
      }
      if next + nDataBytes > |data| {
        return Undefined, next;
      }
      var mem := data[next..next + nDataBytes];
      match kind {
        case 0x01 => track.text := Some(mem);
        case 0x02 => track.copyright := Some(mem);
        case 0x03 =>
          track.trackName := Some(mem);
          if CString(mem) == TransportName {
            track.transportTrack := true;
          }
        case 0x04 => track.instrumentName := Some(mem);
        case 0x05 => track.lyric := Some(mem);
        case 0x06 => track.marker := Some(mem);
        case 0x07 =>
          track.cuePoint := Some(mem);
          track.sequencerMetaData := Some(mem);
        case 0x7F => track.sequencerMetaData := Some(mem);
      }
      next := next + nDataBytes;
      status := MidiOk;
    }

    /** A Set Tempo meta event whose length byte is `data[pos]`
        (midi.c:406-417): the length byte is skipped unread, a tempo note
        carrying the next three bytes as a big-endian number is committed at
        `tick`, and the track becomes a tempo track. */
    method TempoEvent(track: Track, data: seq<Byte>, pos: nat, tick: nat, memOk: bool)
      returns (status: Status, next: nat)
      ensures status == MidiOk || status == MidiMemory || status == Undefined
      ensures memOk ==> status != MidiMemory
      requires track.Valid()
      modifies track
      ensures track.Allocated()
      ensures status == MidiOk <==> (memOk || old(track.nNotes) < old(track.allocatedNotes)) && pos + 4 <= |data|
      ensures status == MidiOk ==>
        && track.Valid() && next == pos + 4
        && track.Info() == old(track.Info()).(tempoTrack := true)
        && track.Notes() == old(track.Notes()) + [TempoNote(tick, BigEndian(data[pos + 1..pos + 4]))]
    {
      next := pos + 1;
      status := track.AddNote(memOk);
      if status != MidiOk {
        return;
      }
      if next + 3 > |data| {
        return Undefined, next;
      }
      track.tempoTrack := true;
      var tempo := data[next] as int * 256 * 256 + data[next + 1] as int * 256 + data[next + 2] as int;
      U24Expression(data[next..next + 3]);
      track.notes := track.notes[track.nNotes - 1 := track.notes[track.nNotes - 1].(isTempo := true, startTick := tick, tempo := tempo)];
      next := next + 3;
    }

    /** The status part of getTrackEvent (midi.c:212-228) for the byte
        `data[pos]`: a status byte is consumed and updates the running status;
        a data byte is left in place. Returns where the event's data begins. */
    method ReadStatus(data: seq<Byte>, pos: nat) returns (dataStart: nat)
      requires Valid() && pos < |data|
      modifies this
      ensures Valid()
      ensures (currentStatusByte, currentChannel) == NextRunningStatus(old(currentStatusByte), old(currentChannel), data[pos])
      ensures currentSystemChannel ==
        (if HighBit(data[pos]) && StatusOf(data[pos]) == SystemMsg then ChannelOf(data[pos]) else old(currentSystemChannel))
      ensures dataStart == EventData(data, pos)
    {
      var midiByte := data[pos];
      dataStart := pos + 1;
      if HighBit(midiByte) {
        currentStatusByte := StatusOf(midiByte);
        if currentStatusByte != SystemMsg {
          currentChannel := ChannelOf(midiByte);
        } else {
          currentSystemChannel := ChannelOf(midiByte);
        }
      } else {
        // running status: back up one byte, the byte is data
        dataStart := dataStart - 1;
      }
    }

    /** The data of a channel message starting at `data[first]`, under the
        current running status (midi.c:230-333): Note On and Note Off go to
        NoteEvent, controller 0x40 to PedalEvent, and every other message is
        read and ignored. */
    method ChannelEvent(track: Track, data: seq<Byte>, first: nat, tick: nat, delta: nat, memOk: bool)
      returns (status: Status, nextByte: nat)
      ensures status == MidiOk || status == MidiMemory || status == Undefined
      ensures memOk ==> status != MidiMemory
      requires Valid() && track.Valid()
      modifies storageNotes, pedal, track
      ensures track.Allocated()
      ensures status == MidiOk ==>
        && track.Valid() && old(track.Notes()) <= track.Notes()
        && nextByte == first + ChannelDataBytes(currentStatusByte)
      ensures status == MidiOk ==>
        ChannelStep(old(State()), old(track.Content()), data, first, tick, delta) == Some((State(), track.Content(), nextByte))
      ensures memOk ==> (status == MidiOk <==> ChannelStep(old(State()), old(track.Content()), data, first, tick, delta).Some?)
    {
      nextByte := first;
      status := MidiOk;
      var n := ChannelDataBytes(currentStatusByte);
      if nextByte + n > |data| {
        return Undefined, nextByte;
      }
      if currentStatusByte == NoteOn || currentStatusByte == NoteOff {
        var byte1, byte2 := data[nextByte], data[nextByte + 1];
        nextByte := nextByte + 2;
        if byte1 >= MidiNoteRange {
          return Undefined, nextByte;
        }
        status := NoteEvent(track, byte1, byte2, tick, delta, memOk);
        ghost var step := NoteStep(old(Slots())[byte1][currentChannel], currentStatusByte == NoteOn, byte1, byte2, currentChannel, tick, delta);
        assert status == MidiOk ==> track.Content() == old(track.Content()).(notes := Commit(old(track.Notes()), step));
      } else if currentStatusByte == ControlChange {
        var byte1, byte2 := data[nextByte], data[nextByte + 1];
        nextByte := nextByte + 2;
        if !(121 <= byte1 <= 127) && byte1 == 0x40 {
          status := PedalEvent(track, byte2, tick, delta, memOk);
          ghost var step := PedalStep(old(pedal[..])[currentChannel], byte2, tick, delta);
          assert status == MidiOk ==> track.Content() == old(track.Content()).(notes := Commit(old(track.Notes()), step));
        }
      } else {
        // polyphonic key pressure, program change, channel pressure and
        // pitch bend are read and ignored; the initial status 0 reads nothing
        nextByte := nextByte + n;
      }
    }

    /** The data of a system message whose first byte is `b`, starting at
        `data[first]` (midi.c:334-520): 0xFF goes to MetaEvent, 0xF0 is
        scanned to its 0xF7, and any other byte skips its data bytes. */
    method SystemEvent(track: Track, b: Byte, data: seq<Byte>, first: nat, tick: nat, memOk: bool)
      returns (status: Status, nextByte: nat)
      ensures status == MidiOk || status == MidiMemory || status == Undefined
      ensures memOk ==> status != MidiMemory
      requires track.Valid()
      modifies track
      ensures track.Allocated()
      ensures status == MidiOk ==> track.Valid() && old(track.Notes()) <= track.Notes()
      ensures status == MidiOk && b != 0xFF && b != 0xF0 ==> nextByte == first + SystemDataBytes(b)
      ensures status == MidiOk && b == 0xF0 ==>
        && first < nextByte <= |data| && data[nextByte - 1] == 0xF7
        && forall k :: first <= k < nextByte - 1 ==> data[k] != 0xF7
      ensures status == MidiOk ==> SystemStep(old(track.Content()), b, data, first, tick) == Some((track.Content(), nextByte))
      ensures memOk ==> (status == MidiOk <==> SystemStep(old(track.Content()), b, data, first, tick).Some?)
    {
      nextByte := first;
      status := MidiOk;
      if b == 0xFF {
        status, nextByte := MetaEvent(track, data, nextByte, tick, memOk);
      } else if b == 0xF0 {
        var found;
        found, nextByte := ScanSysEx(data, nextByte);
        if !found {
          return Undefined, nextByte;
        }
      } else {
        var k := SystemDataBytes(b);
        if nextByte + k > |data| {
          return Undefined, nextByte;
        }
        nextByte := nextByte + k;
      }
    }

    /** The data part of getTrackEvent (midi.c:230-523) for the event whose
        first byte is `data[start]`, under the current running status: a
        system message when the status is 0xF0, a channel message otherwise. */
    method EventBody(track: Track, data: seq<Byte>, start: nat, tick: nat, delta: nat, memOk: bool)
      returns (status: Status, nextByte: nat)
      ensures status == MidiOk || status == MidiMemory || status == Undefined
      ensures memOk ==> status != MidiMemory
      requires Valid() && track.Valid() && start < |data|
      modifies storageNotes, pedal, track
      ensures track.Allocated()
      ensures status == MidiOk ==> track.Valid() && old(track.Notes()) <= track.Notes() && start <= nextByte
      ensures status == MidiOk ==>
        BodyStep(old(State()), old(track.Content()), data, start, tick, delta) == Some((State(), track.Content(), nextByte))
      ensures memOk ==> (status == MidiOk <==> BodyStep(old(State()), old(track.Content()), data, start, tick, delta).Some?)
    {
      nextByte := EventData(data, start);
      if currentStatusByte == SystemMsg {
        status, nextByte := SystemEvent(track, data[start], data, nextByte, tick, memOk);
      } else {
        status, nextByte := ChannelEvent(track, data, nextByte, tick, delta, memOk);
      }
    }

    /** getTrackEvent (midi.c:194-524): decodes one event of a track chunk
        starting at `trackByte`: a delta-time, then a status byte or, under
        running status, the first data byte, then the data the status calls
        for. Returns the status, the cursor after the event and the tick
        advanced by the delta. `memOk` says whether an allocation made while
        handling the event succeeds. */
    method GetTrackEvent(track: Track, data: seq<Byte>, trackByte: nat, currentTick: nat, memOk: bool)
      returns (status: Status, nextByte: nat, tick: nat)
      ensures status == MidiOk || status == MidiMemory || status == Undefined
      ensures memOk && trackByte < |data| ==> status != MidiMemory
      requires Valid() && track.Valid()
      modifies this, storageNotes, pedal, track
      ensures Valid() && track.Allocated()
      ensures status == MidiOk ==> track.Valid() && old(track.Notes()) <= track.Notes()
      ensures trackByte >= |data| ==> status == MidiMemory && nextByte == trackByte && tick == currentTick
      ensures trackByte < |data| && VlqAt(data, trackByte, 0).None? ==> status == Undefined
      ensures status == MidiOk ==>
        && VlqAt(data, trackByte, 0).Some?
        && var d := VlqAt(data, trackByte, 0).value;
        && tick == currentTick + d.value
        && d.next < |data| && trackByte < nextByte
        && (currentStatusByte, currentChannel) == NextRunningStatus(old(currentStatusByte), old(currentChannel), data[d.next])
        && (currentStatusByte != SystemMsg ==>
              nextByte == EventData(data, d.next) + ChannelDataBytes(currentStatusByte))
        && (currentStatusByte == SystemMsg && data[d.next] != 0xFF && data[d.next] != 0xF0 ==>
              nextByte == EventData(data, d.next) + SystemDataBytes(data[d.next]))
      ensures status == MidiOk ==>
        EventStep(old(State()), old(track.Content()), data, trackByte, currentTick)
          == Some((Progress(State(), track.Content(), tick), nextByte))
      ensures memOk && trackByte < |data| ==>
        (status == MidiOk <==> EventStep(old(State()), old(track.Content()), data, trackByte, currentTick).Some?)
    {
      if trackByte >= |data| {
        return MidiMemory, trackByte, currentTick;
      }
      var vlq := ReadVariableLengthQuantity(data, trackByte);
      if vlq.None? {
        return Undefined, trackByte, currentTick;
      }
      var deltaTime := vlq.value.value;
      tick := currentTick + deltaTime;
      var pos := vlq.value.next;
      if pos >= |data| {
        return Undefined, pos, tick;
      }
      ghost var before := State();
      var _ := ReadStatus(data, pos);
      assert State() == StatusStep(before, data[pos]);
      status, nextByte := EventBody(track, data, pos, tick, deltaTime, memOk);
    }
  }
}
