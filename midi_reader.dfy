/** readMidi (midi.c:14-132): the header chunk, the choice of tracks to keep,
    the decoding of every kept track chunk event by event, the pedal closed
    when decoding fails, and the timing pass once every track is in. */
module MidiReader {
  import opened MidiTypes
  import opened MidiChunk
  import opened MidiSong
  import opened MidiParser
  import opened MidiDecoder
  import opened TempoMap

  /** Whether track chunk `tr` is decoded (midi.c:97): every chunk when
      `trackToDisplay` is -1, otherwise the first (tempo) track and the
      requested one. */
  predicate Selected(trackToDisplay: int, tr: nat)
  {
    trackToDisplay == -1 || trackToDisplay == tr || tr == 0
  }

  /** The size of the song's track table (midi.c:60-68): the header's count
      when every track is kept, one when only track 0 is asked for, and two
      (the tempo track and the requested one) otherwise. */
  function SelectedCount(trackToDisplay: int, nTracks: nat): (n: nat)
    ensures trackToDisplay != -1 ==> 1 <= n <= 2
  {
    if trackToDisplay != -1 then (if trackToDisplay == 0 then 1 else 2) else nTracks
  }

  /** The table slot of track chunk `tr`: how many chunks before it are
      decoded (trackInd in readMidi). */
  function SlotOf(trackToDisplay: int, tr: nat): nat
  {
    if tr == 0 then 0
    else SlotOf(trackToDisplay, tr - 1) + (if Selected(trackToDisplay, tr - 1) then 1 else 0)
  }

  /** The slot of a chunk in closed form: its own number when every track is
      kept; otherwise the tempo track's slot is 0 and everything after it
      lands in slot 1, or 2 once past the requested track. */
  lemma {:induction false} SlotClosedForm(trackToDisplay: int, tr: nat)
    ensures SlotOf(trackToDisplay, tr) ==
      if trackToDisplay == -1 then tr
      else if tr == 0 then 0
      else if 0 < trackToDisplay < tr then 2
      else 1
  {
    if tr > 0 {
      SlotClosedForm(trackToDisplay, tr - 1);
    }
  }

  /** Every decoded chunk of the header's count has a slot inside the track
      table, so the table is never written past its end; when one track is
      requested, it goes to slot 1, behind the tempo track in slot 0. */
  lemma SlotInTable(trackToDisplay: int, nTracks: nat, tr: nat)
    requires tr < nTracks && Selected(trackToDisplay, tr)
    ensures SlotOf(trackToDisplay, tr) < SelectedCount(trackToDisplay, nTracks)
    ensures trackToDisplay == -1 ==> SlotOf(trackToDisplay, tr) == tr
    ensures trackToDisplay != -1 ==> SlotOf(trackToDisplay, tr) == (if tr == 0 then 0 else 1)
  {
    SlotClosedForm(trackToDisplay, tr);
  }

  /** Whether the `n` chunks from `pos` all frame whole and carry the MTrk
      tag, and where the last of them ends. */
  function TrackChunksFrom(bytes: seq<Byte>, pos: nat, n: nat): (r: Option<nat>)
    ensures r.Some? ==> pos + 8 * n <= r.value && (n > 0 ==> r.value <= |bytes|)
    decreases n
  {
    if n == 0 then Some(pos)
    else match ChunkAt(bytes, pos)
      case None => None
      case Some(c) => if c.chunk.hdr != TrackTag then None else TrackChunksFrom(bytes, c.next, n - 1)
  }

  /** Reading track chunks in two runs is reading them in one: after `n`
      good chunks, the next `m` start where those end. */
  lemma {:induction false} TrackChunksSplit(bytes: seq<Byte>, pos: nat, n: nat, m: nat)
    requires TrackChunksFrom(bytes, pos, n).Some?
    ensures TrackChunksFrom(bytes, pos, n + m) == TrackChunksFrom(bytes, TrackChunksFrom(bytes, pos, n).value, m)
    decreases n
  {
    if n > 0 {
      var c := ChunkAt(bytes, pos).value;
      TrackChunksSplit(bytes, c.next, n - 1, m);
    }
  }

  /** After `tr` good chunks ending at `here`, one more good chunk makes
      `tr + 1`, and a chunk that does not frame or has another tag means the
      first `n` chunks are not all good. */
  lemma TrackChunksNext(bytes: seq<Byte>, pos: nat, tr: nat, n: nat, here: nat)
    requires TrackChunksFrom(bytes, pos, tr) == Some(here) && tr < n
    ensures var c := ChunkAt(bytes, here);
      && (c.Some? && c.value.chunk.hdr == TrackTag ==> TrackChunksFrom(bytes, pos, tr + 1) == Some(c.value.next))
      && (c.None? || c.value.chunk.hdr != TrackTag ==> TrackChunksFrom(bytes, pos, n).None?)
  {
    TrackChunksSplit(bytes, pos, tr, 1);
    TrackChunksSplit(bytes, pos, tr, n - tr);
  }

  /** What the track table holds before any chunk is read: `n` tracks with
      no notes and no flags or text, as calloc leaves them. */
  function Blank(n: nat): (tracks: seq<TrackData>)
    ensures |tracks| == n && forall i :: 0 <= i < n ==> tracks[i] == TrackData([], EmptyInfo)
  {
    seq(n, _ => TrackData([], EmptyInfo))
  }

  /** One pass of the track loop of readMidi on values (midi.c:87-119): the
      chunk at `pos` must frame and carry the MTrk tag; a kept chunk is
      decoded into its table slot from the decoder state the earlier chunks
      left, and a skipped one changes nothing. Gives the new state, the
      table, and where the next chunk starts; None when the read stops. */
  function ChunkStep(d: Decoder, tracks: seq<TrackData>, bytes: seq<Byte>, pos: nat, tr: nat, trackToDisplay: int)
    : (r: Option<(Decoder, seq<TrackData>, nat)>)
    requires Shaped(d)
  {
    match ChunkAt(bytes, pos)
    case None => None
    case Some(c) =>
      if c.chunk.hdr != TrackTag then None
      else if !Selected(trackToDisplay, tr) then Some((d, tracks, c.next))
      else
        var slot := SlotOf(trackToDisplay, tr);
        if slot >= |tracks| then None
        else match DecodeFrom(d, tracks[slot], c.chunk.data, 0, 0)
          case None => None
          case Some(p) => Some((p.dec, tracks[slot := p.track], c.next))
  }

  /** A pass keeps the decoder's shape and the size of the table, and leaves
      every slot but the chunk's own as it was. */
  lemma ChunkStepKeeps(d: Decoder, tracks: seq<TrackData>, bytes: seq<Byte>, pos: nat, tr: nat, trackToDisplay: int)
    requires Shaped(d) && ChunkStep(d, tracks, bytes, pos, tr, trackToDisplay).Some?
    ensures var r := ChunkStep(d, tracks, bytes, pos, tr, trackToDisplay).value;
      && Shaped(r.0) && |r.1| == |tracks| && ChunkAt(bytes, pos).Some? && r.2 == ChunkAt(bytes, pos).value.next
      && forall i :: 0 <= i < |tracks| && (i != SlotOf(trackToDisplay, tr) || !Selected(trackToDisplay, tr)) ==>
           r.1[i] == tracks[i]
  {
    var c := ChunkAt(bytes, pos).value;
    if Selected(trackToDisplay, tr) {
      DecodeKeeps(d, tracks[SlotOf(trackToDisplay, tr)], c.chunk.data, 0, 0);
    }
  }

  /** The track loop of readMidi on values (midi.c:86-124): chunks `tr` to
      `nTracks - 1`, each read by ChunkStep from the state the one before
      left. None when the loop stops early. */
  function ReadChunks(d: Decoder, tracks: seq<TrackData>, bytes: seq<Byte>, pos: nat, tr: nat, nTracks: nat,
                      trackToDisplay: int): (r: Option<(Decoder, seq<TrackData>)>)
    requires Shaped(d)
    decreases nTracks - tr
  {
    if tr >= nTracks then Some((d, tracks))
    else match ChunkStep(d, tracks, bytes, pos, tr, trackToDisplay)
      case None => None
      case Some(s) =>
        ChunkStepKeeps(d, tracks, bytes, pos, tr, trackToDisplay);
        ReadChunks(s.0, s.1, bytes, s.2, tr + 1, nTracks, trackToDisplay)
  }

  /** The loop from chunk `tr` is one pass and then the loop from `tr + 1`;
      a pass that stops the read makes the whole loop stop. */
  lemma ReadChunksNext(d: Decoder, tracks: seq<TrackData>, bytes: seq<Byte>, pos: nat, tr: nat, nTracks: nat,
                       trackToDisplay: int)
    requires Shaped(d) && tr < nTracks
    ensures var s := ChunkStep(d, tracks, bytes, pos, tr, trackToDisplay);
      && (s.None? ==> ReadChunks(d, tracks, bytes, pos, tr, nTracks, trackToDisplay).None?)
      && (s.Some? ==> Shaped(s.value.0))
      && (s.Some? ==> ReadChunks(d, tracks, bytes, pos, tr, nTracks, trackToDisplay)
                      == ReadChunks(s.value.0, s.value.1, bytes, s.value.2, tr + 1, nTracks, trackToDisplay))
  {
    if ChunkStep(d, tracks, bytes, pos, tr, trackToDisplay).Some? {
      ChunkStepKeeps(d, tracks, bytes, pos, tr, trackToDisplay);
    }
  }

  /** A loop that runs to its end has read `nTracks - tr` well-framed MTrk
      chunks and keeps the table's size; with one track requested, nothing
      but slots 0 and 1 ever changes. */
  lemma {:induction false} ReadChunksFramed(d: Decoder, tracks: seq<TrackData>, bytes: seq<Byte>, pos: nat, tr: nat,
                                            nTracks: nat, trackToDisplay: int)
    requires Shaped(d) && tr <= nTracks && ReadChunks(d, tracks, bytes, pos, tr, nTracks, trackToDisplay).Some?
    ensures var r := ReadChunks(d, tracks, bytes, pos, tr, nTracks, trackToDisplay).value;
      && TrackChunksFrom(bytes, pos, nTracks - tr).Some? && |r.1| == |tracks|
      && (trackToDisplay != -1 ==> forall i :: 2 <= i < |tracks| ==> r.1[i] == tracks[i])
    decreases nTracks - tr
  {
    if tr < nTracks {
      var s := ChunkStep(d, tracks, bytes, pos, tr, trackToDisplay).value;
      ChunkStepKeeps(d, tracks, bytes, pos, tr, trackToDisplay);
      SlotClosedForm(trackToDisplay, tr);
      ReadChunksFramed(s.0, s.1, bytes, s.2, tr + 1, nTracks, trackToDisplay);
    }
  }

  /** The error path of the track loop (midi.c:103-114): if the pedal of the
      current channel is held, its stop tick becomes the tick reached and it
      is committed to the track as a pedal note, which turns the failure
      into MIDI_OK; if committing it needs memory that is not there, the
      status is MIDI_MEMORY. With no pedal held the failure is returned as
      it was. Writing the note into a buffer that an earlier failed growth
      left shorter than the count is undefined behaviour. */
  method CloseHeldPedal(parser: MidiParser, track: Track, tick: nat, memOk: bool, failure: Status)
    returns (status: Status)
    requires parser.Valid() && track.Allocated()
    modifies parser.pedal, track
    ensures track.Allocated()
    ensures var ch := parser.currentChannel; var held := old(parser.pedal[ch]);
      if !held.playing then
        && status == failure
        && parser.pedal[..] == old(parser.pedal[..])
        && track.notes == old(track.notes) && track.nNotes == old(track.nNotes)
      else
        && parser.pedal[..] == old(parser.pedal[..])[ch := held.(stopTick := tick)]
        && track.nNotes == old(track.nNotes) + 1
        && (status == MidiOk || status == MidiMemory || status == Undefined)
        && (status == MidiMemory <==> old(track.nNotes) == old(track.allocatedNotes) && !memOk)
        && (status == Undefined <==>
              old(track.nNotes) < old(track.allocatedNotes) && |old(track.notes)| <= old(track.nNotes))
        && (old(track.Valid()) ==> status != Undefined)
        && (status == MidiOk ==> track.nNotes <= |track.notes| && track.notes[track.nNotes - 1] == held.(stopTick := tick, isPedal := true))
        && (old(track.Valid()) && status == MidiOk ==>
              track.Valid() && track.Notes() == old(track.Notes()) + [held.(stopTick := tick, isPedal := true)])
    ensures track.Info() == old(track.Info())
  {
    var ch := parser.currentChannel;
    if !parser.pedal[ch].playing {
      return failure;
    }
    parser.pedal[ch] := parser.pedal[ch].(stopTick := tick);
    status := track.AddNote(memOk);
    if status != MidiOk {
      return;
    }
    if track.nNotes > |track.notes| {
      return Undefined;
    }
    track.notes := track.notes[track.nNotes - 1 := parser.pedal[ch].(isPedal := true)];
  }

  /** The decoding of one kept track chunk (midi.c:95-119): events are
      decoded from the start of the payload, with the tick starting at 0,
      until the cursor passes its end. The decoder's slot tables and running
      status carry over from earlier tracks. `memOk(e)` says whether the
      allocation made while handling the `e`-th event of the file succeeds.
      A complete decoding leaves the track's buffer invariant, only adds
      notes, and keeps the decoder consistent with the ticks reached. An
      event the C code reads or writes out of bounds for stops the decoding
      with Undefined; any other failure goes through CloseHeldPedal and
      stops the read. */
  method DecodeTrack(parser: MidiParser, track: Track, data: seq<Byte>, memOk: nat -> bool, events: nat)
    returns (status: Status, complete: bool, tick: nat, eventsAfter: nat)
    requires parser.Valid() && track.Valid()
    modifies parser, parser.storageNotes, parser.pedal, track
    ensures parser.Valid() && track.Allocated()
    ensures complete ==> status == MidiOk && track.Valid() && old(track.Notes()) <= track.Notes()
    ensures complete ==>
      DecodeFrom(old(parser.State()), old(track.Content()), data, 0, 0) == Some(Progress(parser.State(), track.Content(), tick))
    ensures (forall e :: events <= e ==> memOk(e)) && DecodeFrom(old(parser.State()), old(track.Content()), data, 0, 0).Some? ==>
      complete
    ensures complete && Ordered(Progress(old(parser.State()), old(track.Content()), 0)) ==>
      Ordered(Progress(parser.State(), track.Content(), tick))
    ensures |data| == 0 ==> complete && track.notes == old(track.notes) && track.nNotes == old(track.nNotes)
    ensures !complete && status == MidiOk ==>
      0 < track.nNotes <= |track.notes| && track.notes[track.nNotes - 1].isPedal
    ensures status == MidiOk || status == MidiMemory || status == Undefined
    ensures (forall e :: events <= e ==> memOk(e)) && DecodeFrom(old(parser.State()), old(track.Content()), data, 0, 0).None? ==>
      status == Undefined
    ensures status == Undefined ==> !complete
    ensures events <= eventsAfter
  {
    var trackByte := 0;
    tick := 0;
    eventsAfter := events;
    while trackByte < |data|
      invariant parser.Valid() && track.Valid()
      invariant old(track.Notes()) <= track.Notes()
      invariant DecodeFrom(old(parser.State()), old(track.Content()), data, 0, 0)
        == DecodeFrom(parser.State(), track.Content(), data, trackByte, tick)
      invariant |data| == 0 ==> trackByte == 0
      invariant trackByte == 0 ==> track.notes == old(track.notes) && track.nNotes == old(track.nNotes)
      invariant events <= eventsAfter
      decreases |data| - trackByte
    {
      var failure;
      failure, trackByte, tick := parser.GetTrackEvent(track, data, trackByte, tick, memOk(eventsAfter));
      eventsAfter := eventsAfter + 1;
      if failure == Undefined {
        return Undefined, false, tick, eventsAfter;
      }
      if failure != MidiOk {
        status := CloseHeldPedal(parser, track, tick, memOk(eventsAfter), failure);
        eventsAfter := eventsAfter + 1;
        return status, false, tick, eventsAfter;
      }
    }
    if Ordered(Progress(old(parser.State()), old(track.Content()), 0)) {
      DecodeOrdered(old(parser.State()), old(track.Content()), data, 0, 0);
    }
    return MidiOk, true, tick, eventsAfter;
  }

  /** One pass of the track loop (midi.c:87-124): the next chunk is read;
      one that does not frame stops the read with MIDI_READ and one with
      another tag stops it with MIDI_OK; a kept chunk is decoded into table
      slot `trackInd`, and a failure there stops the read too. */
  method ReadTrack(parser: MidiParser, f: MidiFile, song: Song, trackToDisplay: int, nTracks: nat, tr: nat,
                   trackInd: nat, memOk: nat -> bool, events: nat)
    returns (status: Status, stop: bool, eventsAfter: nat)
    requires parser.Valid() && f.Valid() && song.Valid()
    requires tr < nTracks && song.nTracks == SelectedCount(trackToDisplay, nTracks)
    requires trackInd == SlotOf(trackToDisplay, tr)
    modifies parser, parser.storageNotes, parser.pedal, f, song.tracks
    ensures parser.Valid() && f.Valid()
    ensures var r := ChunkAt(f.bytes, old(f.pos));
      && (r.None? || r.value.chunk.hdr != TrackTag ==> stop && status == (if r.None? then MidiRead else MidiOk))
      && (!stop ==> status == MidiOk && song.Valid() && r.Some? && r.value.chunk.hdr == TrackTag && f.pos == r.value.next)
      && (stop && r.Some? && r.value.chunk.hdr == TrackTag ==>
            status == MidiOk || status == MidiMemory || status == Undefined)
    ensures forall i :: 0 <= i < |song.tracks| && (i != trackInd || !Selected(trackToDisplay, tr)) ==>
      unchanged(song.tracks[i])
    ensures !stop ==>
      ChunkStep(old(parser.State()), old(Contents(song.tracks)), f.bytes, old(f.pos), tr, trackToDisplay)
        == Some((parser.State(), Contents(song.tracks), f.pos))
    ensures
      && (forall e :: events <= e ==> memOk(e))
      && ChunkStep(old(parser.State()), old(Contents(song.tracks)), f.bytes, old(f.pos), tr, trackToDisplay).Some?
      ==> !stop
    ensures events <= eventsAfter
  {
    eventsAfter := events;
    var c;
    status, c := ReadMidiChunk(f);
    if status != MidiOk || c.hdr != TrackTag {
      return status, true, eventsAfter;
    }
    if Selected(trackToDisplay, tr) {
      SlotInTable(trackToDisplay, nTracks, tr);
      var complete;
      status, complete, eventsAfter := DecodeIntoSlot(parser, song, trackInd, c.data, memOk, events);
      if !complete {
        return status, true, eventsAfter;
      }
    }
    stop := false;
  }

  /** The decoding of a kept chunk into the track in table slot `trackInd`
      (midi.c:95-119): the decoder and that track change as DecodeFrom says,
      and no other track changes. */
  method DecodeIntoSlot(parser: MidiParser, song: Song, trackInd: nat, data: seq<Byte>, memOk: nat -> bool, events: nat)
    returns (status: Status, complete: bool, eventsAfter: nat)
    requires parser.Valid() && song.Valid() && trackInd < |song.tracks|
    modifies parser, parser.storageNotes, parser.pedal, song.tracks[trackInd]
    ensures parser.Valid()
    ensures forall i :: 0 <= i < |song.tracks| && i != trackInd ==> unchanged(song.tracks[i])
    ensures var p := DecodeFrom(old(parser.State()), old(song.tracks[trackInd].Content()), data, 0, 0);
      && (complete ==>
            && status == MidiOk && song.Valid() && p.Some? && p.value.dec == parser.State()
            && Contents(song.tracks) == old(Contents(song.tracks))[trackInd := p.value.track])
      && ((forall e :: events <= e ==> memOk(e)) && p.Some? ==> complete)
      && ((forall e :: events <= e ==> memOk(e)) && p.None? ==> status == Undefined)
    ensures status == MidiOk || status == MidiMemory || status == Undefined
    ensures events <= eventsAfter
  {
    var track := song.tracks[trackInd];
    var tick;
    status, complete, tick, eventsAfter := DecodeTrack(parser, track, data, memOk, events);
    assert forall i :: 0 <= i < |song.tracks| && i != trackInd ==> song.tracks[i] != track;
    if complete {
      assert Contents(song.tracks) == old(Contents(song.tracks))[trackInd := track.Content()];
    }
  }

  /** The track loop of readMidi (midi.c:86-124): one chunk per track the
      header counts, each decoded into the next table slot when it is kept
      and skipped otherwise. `complete` says the loop ran to its end, every
      chunk framed and tagged MTrk and every kept one decoded, which is when
      readMidi goes on to setNoteTimes. */
  method ReadTracks(parser: MidiParser, f: MidiFile, song: Song, trackToDisplay: int, nTracks: nat, memOk: nat -> bool)
    returns (status: Status, complete: bool)
    requires parser.Valid() && f.Valid() && song.Valid()
    requires song.nTracks == SelectedCount(trackToDisplay, nTracks)
    modifies parser, parser.storageNotes, parser.pedal, f, song.tracks
    ensures parser.Valid() && f.Valid()
    ensures complete ==> status == MidiOk && TrackChunksFrom(f.bytes, old(f.pos), nTracks).Some? && song.Valid()
    ensures TrackChunksFrom(f.bytes, old(f.pos), nTracks).None? ==> !complete
    ensures status == MidiRead ==> TrackChunksFrom(f.bytes, old(f.pos), nTracks).None?
    ensures status == MidiOk || status == MidiRead || status == MidiMemory || status == Undefined
    ensures complete ==>
      ReadChunks(old(parser.State()), old(Contents(song.tracks)), f.bytes, old(f.pos), 0, nTracks, trackToDisplay)
        == Some((parser.State(), Contents(song.tracks)))
    ensures
      && (forall e :: memOk(e))
      && ReadChunks(old(parser.State()), old(Contents(song.tracks)), f.bytes, old(f.pos), 0, nTracks, trackToDisplay).Some?
      ==> complete
  {
    ghost var start := f.pos;
    var trackInd := 0;
    var tr := 0;
    var events := 0;
    while tr < nTracks
      invariant parser.Valid() && f.Valid() && song.Valid()
      invariant tr <= nTracks && trackInd == SlotOf(trackToDisplay, tr)
      invariant TrackChunksFrom(f.bytes, start, tr) == Some(f.pos)
      invariant ReadChunks(old(parser.State()), old(Contents(song.tracks)), f.bytes, start, 0, nTracks, trackToDisplay)
        == ReadChunks(parser.State(), Contents(song.tracks), f.bytes, f.pos, tr, nTracks, trackToDisplay)
    {
      ghost var here, d, tracks := f.pos, parser.State(), Contents(song.tracks);
      TrackChunksNext(f.bytes, start, tr, nTracks, here);
      ReadChunksNext(d, tracks, f.bytes, here, tr, nTracks, trackToDisplay);
      var stop;
      status, stop, events := ReadTrack(parser, f, song, trackToDisplay, nTracks, tr, trackInd, memOk, events);
      if stop {
        return status, false;
      }
      trackInd := trackInd + if Selected(trackToDisplay, tr) then 1 else 0;
      tr := tr + 1;
    }
    return MidiOk, true;
  }

  /** The track table setNoteTimes leaves behind (midi.c:125-127): every
      decoded note stamped with its times on the timeline the first track
      defines under the default tempo of 500000 microseconds per quarter. */
  function TimedTable(division: int, decoded: seq<TrackData>): (r: seq<TrackData>)
    ensures |r| == |decoded|
    ensures forall i :: 0 <= i < |r| ==> r[i].info == decoded[i].info && |r[i].notes| == |decoded[i].notes|
  {
    StampedContents(decoded, ViewsTimeline(500000, division, decoded))
  }

  /** The header chunk a file starts with, when it frames whole and carries
      the MThd tag. */
  function HeaderChunk(file: Option<seq<Byte>>): Option<ChunkRead>
  {
    if file.None? then None
    else match ChunkAt(file.value, 0)
      case None => None
      case Some(r) => if r.chunk.hdr == HeaderTag then Some(r) else None
  }

  /** The part of readMidi after the header of a format 0 or 1 file
      (midi.c:32-37, 45-70, 86-127): a song with the header's format and
      division, the default tempo and time signature, and a table of
      SelectedCount tracks, which ReadTracks fills in; setNoteTimes runs
      only when every track chunk is in (`timed`). */
  method ReadSong(parser: MidiParser, f: MidiFile, h: Header, trackToDisplay: int, memOk: nat -> bool)
    returns (status: Status, song: Song, ghost timed: bool)
    requires parser.Valid() && f.Valid() && h.format != 2
    modifies parser, parser.storageNotes, parser.pedal, f
    ensures parser.Valid() && fresh(song)
    ensures song.format == h.format && song.division == h.division
    ensures song.tempo == 500000 && song.timeSignatureTop == 4 && song.timeSignatureBottom == 4
    ensures song.nTracks == |song.tracks| == SelectedCount(trackToDisplay, h.nTracks)
    ensures timed ==>
      && status == MidiOk
      && TrackChunksFrom(f.bytes, old(f.pos), h.nTracks).Some?
      && TracksValid(song.tracks)
      && Aggregates(song.maxTime, song.minNote, song.maxNote) == AggregateSong(Initial, Contents(song.tracks))
    ensures TrackChunksFrom(f.bytes, old(f.pos), h.nTracks).None? ==> !timed
    ensures status == MidiRead ==> TrackChunksFrom(f.bytes, old(f.pos), h.nTracks).None?
    ensures status == MidiOk || status == MidiRead || status == MidiMemory || status == Undefined
    ensures var decoded := ReadChunks(old(parser.State()), Blank(SelectedCount(trackToDisplay, h.nTracks)),
                                      f.bytes, old(f.pos), 0, h.nTracks, trackToDisplay);
      && (timed ==> decoded.Some? && parser.State() == decoded.value.0)
      && (timed ==> Contents(song.tracks) == TimedTable(h.division, decoded.value.1))
      && ((forall e :: memOk(e)) && decoded.Some? ==> timed)
  {
    song := new Song(h.format, h.division, SelectedCount(trackToDisplay, h.nTracks));
    assert fresh(set t | t in song.tracks);
    assert Contents(song.tracks) == Blank(SelectedCount(trackToDisplay, h.nTracks));
    var complete;
    status, complete := ReadTracks(parser, f, song, trackToDisplay, h.nTracks, memOk);
    if complete {
      SongTimelineOfContents(song);
      SetNoteTimes(song);
    }
    timed := complete;
  }

  /** readMidi (midi.c:14-132) on the contents of the file (None when it
      cannot be opened), with the decoder state it inherits from earlier
      reads. A missing file is MIDI_FILE; a header chunk that does not frame
      is MIDI_READ, and one with another tag is MIDI_OK without a song. A
      header payload shorter than six bytes is read past its end. Otherwise
      the song gets the header's format and division and the default tempo
      and time signature; format 2 stops there with MIDI_FILE and no tracks,
      and any other format goes on to ReadSong. */
  method ReadMidi(parser: MidiParser, file: Option<seq<Byte>>, trackToDisplay: int, memOk: nat -> bool)
    returns (status: Status, song: Option<Song>, ghost timed: bool)
    requires parser.Valid()
    modifies parser, parser.storageNotes, parser.pedal
    ensures parser.Valid()
    ensures HeaderChunk(file).None? ==>
      && song.None? && !timed
      && status == (if file.None? then MidiFile else if ChunkAt(file.value, 0).None? then MidiRead else MidiOk)
    ensures HeaderChunk(file).Some? ==>
      var header := HeaderOf(HeaderChunk(file).value.chunk.data);
      && (header.None? ==> status == Undefined && song.None? && !timed)
      && (header.Some? ==>
            var h := header.value;
            && song.Some? && fresh(song.value)
            && song.value.format == h.format && song.value.division == h.division
            && song.value.tempo == 500000 && song.value.timeSignatureTop == 4 && song.value.timeSignatureBottom == 4
            && song.value.nTracks == |song.value.tracks|
            && (h.format == 2 ==> status == MidiFile && song.value.nTracks == 0 && !timed)
            && (h.format != 2 ==> song.value.nTracks == SelectedCount(trackToDisplay, h.nTracks))
            && (timed ==>
                  && status == MidiOk
                  && TrackChunksFrom(file.value, HeaderChunk(file).value.next, h.nTracks).Some?
                  && TracksValid(song.value.tracks)
                  && Aggregates(song.value.maxTime, song.value.minNote, song.value.maxNote)
                     == AggregateSong(Initial, Contents(song.value.tracks)))
            && (status == MidiRead ==> TrackChunksFrom(file.value, HeaderChunk(file).value.next, h.nTracks).None?)
            && (h.format != 2 ==>
                  var decoded := ReadChunks(old(parser.State()), Blank(SelectedCount(trackToDisplay, h.nTracks)),
                                            file.value, HeaderChunk(file).value.next, 0, h.nTracks, trackToDisplay);
                  && (timed ==> decoded.Some? && parser.State() == decoded.value.0)
                  && (timed ==> TracksValid(song.value.tracks) &&
                                Contents(song.value.tracks) == TimedTable(h.division, decoded.value.1))
                  && ((forall e :: memOk(e)) && decoded.Some? ==> timed)))
  {
    song, timed := None, false;
    if file.None? {
      return MidiFile, None, false;
    }
    var f := new MidiFile(file.value);
    var c;
    status, c := ReadMidiChunk(f);
    if status != MidiOk || c.hdr != HeaderTag {
      return;
    }
    var header := HeaderOf(c.data);
    if header.None? {
      return Undefined, None, false;
    }
    var h := header.value;
    if h.format == 2 {
      var s := new Song(h.format, h.division, 0);
      return MidiFile, Some(s), false;
    }
    var s;
    status, s, timed := ReadSong(parser, f, h, trackToDisplay, memOk);
    song := Some(s);
  }
}
