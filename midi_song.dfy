/** The song and track records the reader fills in (MidiTrack and MidiSong of
    midi.h), with the growable note array of a track (addNote in midi.c). */
module MidiSong {
  import opened MidiTypes

  /** The flags and text fields of a track (everything but its notes). */
  datatype TrackInfo = TrackInfo(
    tempoTrack: bool, transportTrack: bool,
    trackName: Option<seq<Byte>>, copyright: Option<seq<Byte>>, text: Option<seq<Byte>>,
    instrumentName: Option<seq<Byte>>, lyric: Option<seq<Byte>>, marker: Option<seq<Byte>>,
    cuePoint: Option<seq<Byte>>, sequencerMetaData: Option<seq<Byte>>)

  /** What a track holds once read: its committed notes and its flags and
      text fields. */
  datatype TrackData = TrackData(notes: seq<Note>, info: TrackInfo)

  /** A track: `notes` is its note buffer, of which the first `nNotes`
      entries are committed; the buffer has `allocatedNotes` entries, the
      unused ones zeroed. `index` is the track's place in its song's table. */
  class Track {
    ghost const index: nat
    var notes: seq<Note>
    var nNotes: nat
    var allocatedNotes: nat
    var tempoTrack: bool
    var transportTrack: bool
    var trackName: Option<seq<Byte>>
    var copyright: Option<seq<Byte>>
    var text: Option<seq<Byte>>
    var instrumentName: Option<seq<Byte>>
    var lyric: Option<seq<Byte>>
    var marker: Option<seq<Byte>>
    var cuePoint: Option<seq<Byte>>
    var sequencerMetaData: Option<seq<Byte>>

    /** The buffer invariant addNote keeps: the count never exceeds the
        capacity, the capacity is the buffer's size, and every entry past the
        count is still zero. */
    ghost predicate Valid()
      reads this
    {
      && allocatedNotes == |notes|
      && nNotes <= allocatedNotes
      && (forall k :: nNotes <= k < |notes| ==> notes[k] == ZeroNote)
    }

    /** What addNote needs: the count and the buffer both within the
        capacity. It survives a failed growth, when `Valid` does not. */
    ghost predicate Allocated()
      reads this
    {
      nNotes <= allocatedNotes && |notes| <= allocatedNotes
    }

    /** The flags and text fields of the track. */
    ghost function Info(): TrackInfo
      reads this
    {
      TrackInfo(tempoTrack, transportTrack, trackName, copyright, text,
                instrumentName, lyric, marker, cuePoint, sequencerMetaData)
    }

    /** The committed notes, in insertion order. */
    ghost function Notes(): seq<Note>
      reads this
      requires nNotes <= |notes|
    {
      notes[..nNotes]
    }

    /** The committed notes and the flags and text fields. */
    ghost function Content(): TrackData
      reads this
      requires nNotes <= |notes|
    {
      TrackData(Notes(), Info())
    }

    /** A zero-filled track, as calloc leaves it, at place `index`. */
    constructor (ghost index: nat)
      ensures this.index == index && Valid()
      ensures Notes() == [] && allocatedNotes == 0
      ensures Info() == EmptyInfo
    {
      this.index := index;
      notes := [];
      nNotes, allocatedNotes := 0, 0;
      tempoTrack, transportTrack := false, false;
      trackName, copyright, text, instrumentName := None, None, None, None;
      lyric, marker, cuePoint, sequencerMetaData := None, None, None, None;
    }

    /** addNote (midi.c:556-575): always counts one more note; when the count
        passes the capacity, the capacity grows by exactly 1024 and, if the
        allocation succeeds (`memOk`), the buffer is extended to the new
        capacity with zeroed entries, the existing ones kept. On allocation
        failure the status is MIDI_MEMORY and the count and capacity are
        already raised while the buffer is unchanged. */
    method AddNote(memOk: bool) returns (status: Status)
      requires nNotes <= allocatedNotes && |notes| <= allocatedNotes
      modifies this
      ensures nNotes == old(nNotes) + 1
      ensures var grew := old(nNotes) + 1 > old(allocatedNotes);
        && allocatedNotes == old(allocatedNotes) + (if grew then ChunkAllocationIncrement else 0)
        && status == (if grew && !memOk then MidiMemory else MidiOk)
        && (if grew && memOk then
              && |notes| == allocatedNotes && notes[..old(|notes|)] == old(notes)
              && (forall k :: old(|notes|) <= k < |notes| ==> notes[k] == ZeroNote)
            else notes == old(notes))
      ensures old(Valid()) && status == MidiOk ==> Valid() && Notes() == old(Notes()) + [ZeroNote]
      ensures old(Valid()) && status != MidiOk ==> nNotes == allocatedNotes - ChunkAllocationIncrement + 1
      ensures Allocated() && Info() == old(Info())
    {
      status := MidiOk;
      nNotes := nNotes + 1;
      if nNotes > allocatedNotes {
        allocatedNotes := allocatedNotes + ChunkAllocationIncrement;
        if !memOk {
          return MidiMemory;
        }
        notes := notes + seq(allocatedNotes - |notes|, _ => ZeroNote);
      }
    }
  }

  /** The flags and text fields of a zero-filled track. */
  const EmptyInfo := TrackInfo(false, false, None, None, None, None, None, None, None, None)

  /** A track table whose entries are distinct records (each knows its own
      place), each keeping the buffer invariant. */
  ghost predicate TracksValid(tracks: seq<Track>)
    reads tracks
  {
    forall i :: 0 <= i < |tracks| ==> tracks[i].index == i && tracks[i].Valid()
  }

  /** What every track of a table holds. */
  ghost function Contents(tracks: seq<Track>): (r: seq<TrackData>)
    reads tracks
    requires forall i :: 0 <= i < |tracks| ==> tracks[i].nNotes <= |tracks[i].notes|
    ensures |r| == |tracks|
    ensures forall i :: 0 <= i < |tracks| ==> r[i] == tracks[i].Content()
  {
    seq(|tracks|, i requires 0 <= i < |tracks| && tracks[i].nNotes <= |tracks[i].notes| reads tracks => tracks[i].Content())
  }

  /** A song (MidiSong). The header fields and the track table are written
      once, when readMidi sets the song up (midi.c:32-37, 45-49, 60-70); only
      the aggregates are filled in later, by setNoteTimes. */
  class Song {
    const format: int
    const division: int
    const tempo: nat
    const timeSignatureTop: int
    const timeSignatureBottom: int
    const nTracks: nat
    const tracks: seq<Track>
    var maxTime: real
    var minNote: int
    var maxNote: int

    /** The track count matches the table, whose entries are distinct
        records keeping the buffer invariant. */
    ghost predicate Valid()
      reads tracks
    {
      nTracks == |tracks| && TracksValid(tracks)
    }

    /** A song as readMidi sets it up: the header's format and division,
        500000 microseconds per quarter note, 4/4 time, and a table of
        `nTracks` zero-filled tracks, as calloc leaves them. */
    constructor (format: int, division: int, nTracks: nat)
      ensures this.format == format && this.division == division && this.nTracks == nTracks
      ensures tempo == 500000 && timeSignatureTop == 4 && timeSignatureBottom == 4
      ensures Valid()
      ensures forall t :: t in tracks ==> fresh(t)
      ensures forall i :: 0 <= i < |tracks| ==> tracks[i].Notes() == [] && tracks[i].allocatedNotes == 0
      ensures forall i :: 0 <= i < |tracks| ==> tracks[i].Info() == EmptyInfo
      ensures maxTime == 0.0 && minNote == 0 && maxNote == 0
    {
      var table := NewTracks(nTracks);
      this.format := format;
      this.division := division;
      this.nTracks := nTracks;
      tracks := table;
      tempo := 500000;
      timeSignatureTop, timeSignatureBottom := 4, 4;
      maxTime, minNote, maxNote := 0.0, 0, 0;
    }
  }

  /** The zero-filled track table calloc gives readMidi (midi.c:60-70): `n`
      distinct fresh tracks with empty buffers. */
  method NewTracks(n: nat) returns (table: seq<Track>)
    ensures |table| == n && TracksValid(table)
    ensures forall t :: t in table ==> fresh(t)
    ensures forall i :: 0 <= i < |table| ==> table[i].Notes() == [] && table[i].allocatedNotes == 0
    ensures forall i :: 0 <= i < |table| ==> table[i].Info() == EmptyInfo
  {
    table := [];
    while |table| < n
      invariant |table| <= n && TracksValid(table)
      invariant forall t :: t in table ==> fresh(t)
      invariant forall i :: 0 <= i < |table| ==> table[i].Notes() == [] && table[i].allocatedNotes == 0
      invariant forall i :: 0 <= i < |table| ==> table[i].Info() == EmptyInfo
    {
      var t := new Track(|table|);
      table := table + [t];
    }
  }
}
