# A verified model of the MIDI reader and the RGBA to YUV converter

This project models two parts of a MIDI visualiser in Dafny.

The first is the Standard MIDI File reader of `midi.c`:
- chunk framing (`readMidiChunk`, `readMidiU32`, `readMidiU16`);
- the header and the choice of tracks to keep (`readMidi`);
- the event decoder (`getTrackEvent`), with its variable-length quantities (`readVariableLengthQuantity`), its running status, its note and sustain-pedal slot tables, and its meta, SysEx and system events;
- the growable note buffer of a track (`addNote`);
- the tick-to-seconds conversion (`songTime`);
- the pass that stamps every note with its times and gathers the song's length and pitch range (`setNoteTimes`).

The second is the colour-space converter `rgba2Yuv420p` of `video.c`. It writes the luma plane and the two subsampled chroma planes of an RGBA frame.

Modules follow the C code:
- `MidiTypes`: midi.h types and constants.
- `MidiBytes`: big-endian numbers and variable-length quantities.
- `MidiSong`: `MidiTrack` and `MidiSong` as classes; the track's note buffer is a `seq` that `addNote` reassigns.
- `MidiChunk`: the file as bytes plus an fread position; chunk framing.
- `MidiEvents`: the pure rules of the decoder (data sizes, running status, slot and pedal transitions).
- `MidiDecoder`: a reference decoder on values. Its `Decoder` state holds the slot and pedal tables and the running status. `EventStep` decodes one event and `DecodeFrom` a whole track chunk. `ChunkStep` and `ReadChunks` (in `MidiReader`) run the track loop of `readMidi`.
- `MidiParser`: the decoder as a class. Its fields are the statics of `midi.c`: the `storageNotes` and `pedal` tables and the running status.
- `MidiReader`: `readMidi`.
- `TempoMap`: `songTime` and `setNoteTimes`.
- `Yuv`: `rgba2Yuv420p` over arrays.

Every state-changing C function is a method over arrays and class fields. Each method is proved against a function on values:
- the byte readers against `VlqAt`, `BigEndian` and `ChunkAt`;
- the decoder methods against `MetaStep`, `ChannelStep`, `SystemStep`, `BodyStep` and `EventStep`: when a method returns MIDI_OK, its new slot table, pedals, running status, track notes and track texts are what the function gives, and when allocation succeeds it returns MIDI_OK exactly when the function is defined;
- the track loop of `readMidi` against `DecodeFrom`, `ChunkStep` and `ReadChunks`;
- `songTime` and `setNoteTimes` against `TimeAt`, `Stamp` and `AggregateSong`;
- `rgba2Yuv420p` against `LumaPlane` and `ChromaPlane`.

The lemmas state what those functions promise.

In the C code some inputs make it read or write outside a buffer: a truncated event, a pitch of 127 indexing the 127-row slot table, a header payload shorter than six bytes, or a note written after a failed growth. There the model returns the extra status `Undefined` instead of picking a behaviour. The return codes C defines (`MIDI_OK`, `MIDI_READ`, `MIDI_MEMORY`, ...) are kept as they are.

Whether an allocation succeeds is a parameter: `memOk` for one event, or `memOk(e)` for the `e`-th event of a file.

## Model

| member | source | states |
|---|---|---|
| MidiTypes.StatusOf | midi.c:217 | the status nibble is a multiple of 16 and the byte lies in the 16 values from it |
| MidiTypes.ChannelOf | midi.c:219 | the channel is below 16 and status nibble plus channel is the byte |
| MidiBytes.BigEndianBound | midi.c:173 | an n-byte big-endian number is below 256^n |
| MidiBytes.BigEndianRoundTrip | midi.c:162-176 | decoding the n-byte big-endian encoding of any v below 256^n gives v |
| MidiBytes.BigEndianCanonical | midi.c:162-176 | encoding a decoded n-byte number gives back the bytes |
| MidiBytes.U16Expression | midi.c:189 | the two-byte shift-and-add expression of readMidiU16 is the big-endian value, below 2^16 |
| MidiBytes.U32Expression | midi.c:173 | the four-byte expression of readMidiU32 is the big-endian value, below 2^32 |
| MidiBytes.U24Expression | midi.c:415 | the three-byte tempo expression is the big-endian value, below 2^24 |
| MidiBytes.VlqAt | midi.c:531-539 | a quantity ends at the first byte with the high bit clear; every byte before it has the high bit set; it ends inside the data |
| MidiBytes.VlqEncode | midi.c:526-542 | the canonical encoding is non-empty and its last byte has the high bit clear |
| MidiBytes.VlqRoundTrip | midi.c:526-542 | decoding the canonical encoding of any v, wherever it sits, gives v and moves the offset exactly past it |
| MidiBytes.ReadVariableLengthQuantity | midi.c:526-542 | the C loop (add the low seven bits, multiply by 128, add the last byte) computes VlqAt, and the offset moves forward |
| MidiSong.Track.constructor | midi.h:87-103 | a calloc'd track: no notes, no capacity, flags false and no texts |
| MidiSong.Track.AddNote | midi.c:556-575 | the count always grows by one. Past capacity, the capacity grows by exactly 1024: on success the buffer is extended with zeroed entries and old ones are kept; on failure the status is MIDI_MEMORY and the buffer is unchanged. On success, notes are the old ones plus one zero note |
| MidiSong.Song.constructor | midi.c:32-37 | format and division from the header, tempo 500000, 4/4 time, zero aggregates, a table of nTracks distinct empty tracks |
| MidiSong.NewTracks | midi.c:70 | n distinct fresh zero-filled tracks, each at its own place in the table |
| MidiChunk.MidiFile.Read | midi.c:142 | fread returns exactly n bytes iff n are left, otherwise the rest; the position moves past what was read |
| MidiChunk.ChunkAt | midi.c:134-160 | a chunk read has a four-byte tag and exactly length payload bytes, and ends 8 + length bytes on, inside the file |
| MidiChunk.ChunkRoundTrip | midi.c:134-160 | reading a framed chunk anywhere in a file gives its tag, length and payload and ends just past it |
| MidiChunk.ChunkFramed | midi.c:134-160 | every chunk read is the framing of its own tag and payload; its length is below 2^32 |
| MidiChunk.ReadMidiU32 | midi.c:162-176 | MIDI_OK iff four bytes are left: the value is their big-endian number; otherwise MIDI_READ at end of file |
| MidiChunk.ReadMidiU16 | midi.c:178-192 | MIDI_OK iff two bytes are left: the value is their big-endian number; otherwise MIDI_READ at end of file |
| MidiChunk.ReadMidiChunk | midi.c:134-160 | MIDI_OK iff a whole chunk is framed at the position, and then the chunk is ChunkAt's and the position is past it; otherwise MIDI_READ |
| MidiChunk.HeaderOf | midi.c:45-49 | format, track count and division are the big-endian 16-bit numbers at payload bytes 0-1, 2-3 and 4-5, present iff the payload has six bytes |
| MidiEvents.CString | midi.c:372-375 | the string seen by strcmp is the prefix before the first zero byte |
| MidiEvents.DataRunKeepsStatus | midi.c:212-228 | events that start with a data byte leave the running status and channel as they were |
| MidiEvents.RunningStatusPersists | midi.c:212-228 | after a status byte and any run of events under running status, the status is that byte's nibble and the channel the one it set |
| MidiEvents.NoteStep | midi.c:232-263 | a note commits iff its slot was sounding. The slot is sounding afterwards iff it was idle and the event is a Note On with non-zero velocity. The committed note spans from the opening tick to this tick with the opening velocity, and the closed slot's ticks are cleared |
| MidiEvents.PedalStep | midi.c:285-311 | a pedal note commits iff the pedal was held. The pedal is held afterwards iff it was idle or the value is non-zero. The new interval starts at this tick, and the committed note is a pedal note from the old start to this tick carrying the new value |
| MidiEvents.RepeatedNoteOnCloses | midi.c:237-261 | a second Note On for a sounding pitch closes the first note instead of being ignored, and leaves the slot idle |
| MidiEvents.NoteOnThenOff | midi.c:232-263 | opening a slot and then any note event on it commits the interval between the two ticks with the opening velocity, pitch and channel |
| MidiEvents.PedalIntervalsAreContiguous | midi.c:285-311 | two successive non-zero values on a held pedal commit back-to-back pedal notes that meet at the first tick |
| MidiDecoder.FreshStartOrdered | midi.c:7-12 | the zeroed statics with an empty track at tick 0 are consistent: no sounding slot or held pedal, no note to order, so DecodeOrdered applies from the start |
| MidiDecoder.Commit | midi.c:556-575 | a slot step that commits a note appends exactly that note after the old ones; one that commits nothing leaves the notes as they were |
| MidiDecoder.StoreTextLaterWins | midi.c:348-397 | a later text event of the same type replaces the earlier payload, and the transport mark is set iff either event set it |
| MidiDecoder.StoreTextFrame | midi.c:348-397 | a text event changes only the field of its type (a cue point also the sequencer data, as the C fall-through does); the transport mark is never cleared and is set only by a track name whose C string is "Transport" |
| MidiDecoder.SysExEndIsFirst | midi.c:437-442 | the SysEx scan ends just past the first 0xF7 at or after its start, and finds none iff there is none |
| MidiDecoder.MetaStepAdvances | midi.c:337-434 | a meta event moves the cursor past its type byte and only appends notes |
| MidiDecoder.BodyStepKeeps | midi.c:230-523 | an event body keeps the table shapes and the running status, does not move the cursor back and only appends notes |
| MidiDecoder.EventStepKeeps | midi.c:194-524 | an event moves the cursor forward, does not move the tick back and only appends notes |
| MidiDecoder.DecodeKeeps | midi.c:95-119 | decoding a chunk keeps the table shapes, never moves the tick back, and leaves what the track held as a prefix of what it holds |
| MidiDecoder.NotesByLater | midi.c:194-209 | a track consistent with a tick stays consistent with any later tick |
| MidiDecoder.BodyStepOrdered | midi.c:232-311 | an event body keeps the decoder consistent with the tick: a committed note or pedal was opened no later and stops at the tick |
| MidiDecoder.EventStepOrdered | midi.c:194-524 | an event keeps the decoder consistent with the clock, which the delta only moves forward |
| MidiDecoder.DecodeOrdered | midi.c:95-119 | from a consistent start, no committed note lies past the tick reached or (tempo changes aside) stops before it starts, and no sounding slot or held pedal was opened after it |
| MidiDecoder.NoteOnNoteOffExample | midi.c:194-263 | a fresh decoder reading a Note On for pitch 60 at tick 0 and a running-status Note On with velocity 0 at tick 96 holds one note from tick 0 to 96 with velocity 64, and the slot is idle |
| MidiParser.ScanSysEx | midi.c:437-442 | the scan stops just past the first 0xF7; without one, no byte from the start on is 0xF7 |
| MidiParser.MidiParser.constructor | midi.c:7-12 | the decoder statics start zeroed: every slot and pedal is a zero note, status and channels 0; the state is FreshDecoder |
| MidiParser.MidiParser.NoteEvent | midi.c:232-263 | the slot of (pitch, channel) takes NoteStep's new state and the committed note is appended to the track, and the slot table is the old one with only that cell replaced; a failed growth gives MIDI_MEMORY with the slot as the C code leaves it; with memory it is MIDI_OK |
| MidiParser.MidiParser.PedalEvent | midi.c:285-311 | the channel's pedal takes PedalStep's new state and the committed pedal note is appended; the pedal table is the old one with only that channel replaced; with memory it is MIDI_OK |
| MidiParser.MidiParser.MetaEvent | midi.c:337-434 | fixed meta events skip their fixed count; text events store their payload; Set Tempo commits a tempo note; other types skip their length; a type byte past the data is undefined. On MIDI_OK the track and cursor are MetaStep's; with memory, MIDI_OK iff MetaStep is defined |
| MidiParser.MidiParser.TextEvent | midi.c:348-397 | notes are untouched, the text fields become StoreText's (the field of the event's type takes the payload), and the cursor moves past the declared length |
| MidiParser.MidiParser.TempoEvent | midi.c:406-417 | MIDI_OK iff the three tempo bytes are in the data and the growth succeeds; then the track is a tempo track and its notes are the old ones plus a tempo note (TempoNote) at the tick carrying the big-endian tempo and stop tick 0 |
| MidiParser.MidiParser.ReadStatus | midi.c:212-228 | status and channel follow NextRunningStatus (a status byte sets the nibble, and the channel unless it is 0xF0; a data byte keeps both), the system channel is set by 0xFn bytes, and the data starts at EventData: one byte on iff the first byte is a status byte |
| MidiParser.MidiParser.ChannelEvent | midi.c:230-333 | Note On and Note Off go to NoteEvent, controller 0x40 to PedalEvent, and other channel messages skip their data bytes; on MIDI_OK the decoder state, the track and the cursor are ChannelStep's, and with memory MIDI_OK iff ChannelStep is defined |
| MidiParser.MidiParser.SystemEvent | midi.c:334-520 | 0xFF goes to MetaEvent, SysEx runs to the 0xF7, other system messages skip SystemDataBytes; on MIDI_OK the track and the cursor are SystemStep's, and with memory MIDI_OK iff SystemStep is defined |
| MidiParser.MidiParser.EventBody | midi.c:230-520 | the running status 0xF0 goes to SystemEvent and any other to ChannelEvent; on MIDI_OK the decoder state, the track and the cursor are BodyStep's, and with memory MIDI_OK iff BodyStep is defined |
| MidiParser.MidiParser.GetTrackEvent | midi.c:194-524 | a cursor at or past the end is MIDI_MEMORY with nothing read; a delta that runs off the data is undefined. On MIDI_OK the decoder state, the track, the tick and the cursor are EventStep's; with memory and a cursor inside the data, MIDI_OK iff EventStep is defined |
| MidiReader.SelectedCount | midi.c:60-68 | when a single track is requested, the table holds one or two tracks |
| MidiReader.SlotClosedForm | midi.c:86-124 | chunk tr lands in slot tr when all are kept; otherwise slot 0 for the tempo track, then 1, or 2 once past the requested track |
| MidiReader.SlotInTable | midi.c:97-119 | every decoded chunk of the header's count lands inside the track table; a requested track lands in slot 1, behind the tempo track |
| MidiReader.TrackChunksFrom | midi.c:87-92 | n well-framed track chunks take at least 8n bytes and end inside the file |
| MidiReader.TrackChunksNext | midi.c:87-92 | after tr good chunks, one more MTrk chunk that frames makes tr + 1, and one that does not frame or has another tag means the first n are not all good |
| MidiReader.ChunkStepKeeps | midi.c:87-124 | a pass keeps the table shapes and the table size, moves past the chunk, and leaves every slot but the chunk's own as it was |
| MidiReader.ReadChunksNext | midi.c:86-124 | the loop from chunk tr is one ChunkStep and then the loop from tr + 1; a pass that stops the read stops the loop |
| MidiReader.ReadChunksFramed | midi.c:86-124 | a loop that runs to its end has read nTracks well-framed chunks and keeps the table size; when one track is requested, only slots 0 and 1 change |
| MidiReader.CloseHeldPedal | midi.c:103-114 | with a held pedal, its stop tick becomes the tick reached and it is committed as a pedal note, turning the failure into MIDI_OK (or MIDI_MEMORY when growth fails); with none held, the failure is returned |
| MidiReader.DecodeTrack | midi.c:95-119 | a complete decoding leaves the decoder state, the track and the tick that DecodeFrom gives from the old state and track at tick 0; when every allocation succeeds, the decoding completes iff DecodeFrom is defined, and otherwise the status is Undefined (an event read or written out of bounds is never turned into MIDI_OK by the pedal close); a consistent start state gives a consistent end state |
| MidiReader.ReadTrack | midi.c:87-124 | a chunk that does not frame stops the read with MIDI_READ and one without the MTrk tag stops it with MIDI_OK; when the read goes on, the decoder state and the track table are ChunkStep's (a kept chunk decoded into its own slot) and the position is past the chunk; every other track is unchanged |
| MidiReader.DecodeIntoSlot | midi.c:95-119 | the kept chunk is decoded into table slot trackInd and no other track changes; a complete decoding leaves the decoder state and that slot as DecodeFrom gives them; with every allocation succeeding, an undefined DecodeFrom gives Undefined |
| MidiReader.ReadTracks | midi.c:86-124 | a complete read leaves the decoder state and track table that ReadChunks gives, and means nTracks well-framed MTrk chunks follow the header; MIDI_READ means they do not; when every allocation succeeds and ReadChunks is defined, the read completes |
| MidiReader.ReadSong | midi.c:32-127 | the song's header fields, default tempo and 4/4 time, a table of SelectedCount tracks; when times are stamped, the decoder state is the one ReadChunks gives from a blank table and every track holds TimedTable of the decoded tracks, with maxTime, minNote and maxNote as AggregateSong; when every allocation succeeds and ReadChunks is defined, times are stamped |
| MidiReader.TimedTable | midi.c:125-127 | stamping keeps the table size, every track's flags and texts, and the number of its notes |
| MidiReader.ReadMidi | midi.c:14-132 | no file is MIDI_FILE; a header chunk that does not frame is MIDI_READ, and one without the MThd tag is MIDI_OK with no song; a header payload under six bytes is undefined; otherwise the song has the header's format and division, the default tempo and 4/4 time, and format 2 is MIDI_FILE with no tracks read; for other formats the track table is as ReadSong states, from the bytes after the header |
| TempoMap.RateBounds | midi.c:585 | with a positive division the rate is never negative, and it is zero iff the tempo is zero |
| TempoMap.SongTime | midi.c:577-619 | the C loop computes TimeAt of the song's timeline |
| TempoMap.ConstantRateBetweenChanges | midi.c:593-615 | between two tempo changes time advances linearly at the rate of the earlier change, or the default rate before the first |
| TempoMap.NoteWithoutTempoStopsClock | midi.c:600-609 | an ordinary note on the tempo track carries tempo 0 and stops the clock until the next point |
| TempoMap.ConstantTempoWithoutTempoTrack | midi.c:582-588 | without a tempo track, the time of tick t is tempo * t / division / 10^6, the time between two ticks is tempo * (t2 - t1) / division / 10^6, and it grows with the tick |
| TempoMap.TimeAtMonotone | midi.c:577-619 | with a positive division and the first track in tick order, later ticks never map to earlier times |
| TempoMap.StampKeepsPoints | midi.c:636-643 | stamping leaves every tick and tempo, hence the timeline, unchanged |
| TempoMap.StampIdempotent | midi.c:640-643 | stamping a note twice on the same timeline is stamping it once |
| TempoMap.AggregateTrackBounds | midi.c:645-655 | after a track, every counted note lies inside the pitch range and ends no later than maxTime; each aggregate is its starting value or is attained by a counted note |
| TempoMap.AggregateSongBounds | midi.c:629-661 | the same over all tracks: the song's pitch range and length bound every counted note and are attained or initial |
| TempoMap.StampNote | midi.c:640-643 | the two conversions give Stamp of the note: only the times change, a non-zero tick gets its time on the timeline, and a zero tick leaves its time as it was |
| TempoMap.IncludeNote | midi.c:647-654 | the three comparisons give Include |
| TempoMap.StampTrack | midi.c:636-656 | the track's notes become the stamped ones, and the aggregates are folded over them in order |
| TempoMap.StampTracks | midi.c:633-658 | every track carries its stamped notes and the aggregates are AggregateSong over them |
| TempoMap.SetNoteTimes | midi.c:621-664 | every note is stamped on the song's timeline from before the pass; maxTime, minNote and maxNote are AggregateSong from 0.0, 255, 0 |
| TempoMap.StampingKeepsTimeline | midi.c:633-643 | stamping every track leaves the timeline they define unchanged, so the order of stamping does not matter |
| Yuv.Luma | video.c:242 | luma is (66r + 129g + 25b) >> 8 + 16 and lies in 16..235 |
| Yuv.ChromaSample | video.c:231-232 | U is (-38r - 74g + 112b) >> 8 + 128 and V is (112r - 94g - 18b) >> 8 + 128, both in 16..239 |
| Yuv.RowStartIs | video.c:224-236 | row pair r starts r strides into the frame |
| Yuv.RowStartMonotone | video.c:224-236 | later row pairs start further into the frame |
| Yuv.PlaneLenIs | video.c:224-236 | the chroma loops write ChromaHeight * ChromaWidth entries, that is ceil(h/2) * ceil(w/2), one per column pair of each row pair |
| Yuv.PlaneEntry | video.c:224-236 | entry k of row pair r of a chroma plane follows the r row pairs before it, at PlaneLen(width, r) + k, and is the chroma of the pixel the cursor is at, inside the frame |
| Yuv.EvenWidthSamplesBlock | video.c:224-236 | with an even width, column pair k of row pair r samples the top-left pixel of its 2x2 block, inside the frame |
| Yuv.EvenWidthReadable | video.c:224-236 | with an even width, a frame of 4 * width * height bytes is enough for the chroma loops |
| Yuv.EvenWidthEntry | video.c:224-236 | with an even width and a 4 * width * height byte frame, chroma entry row * (width/2) + k is computed from pixel (2 * row) * width + 2 * k, inside the frame |
| Yuv.OddWidthDrifts | video.c:233-235 | with an odd width the cursor gains one pixel per row pair, so chroma is not sampled from 2x2 blocks |
| Yuv.OddWidthOverreads | video.c:224-236 | a frame one pixel wide and eight lines high, 32 bytes, is read past its end: the last row pair samples pixel 9 |
| Yuv.LumaAlphaIgnored | video.c:237-243 | the luma plane does not depend on the alpha bytes |
| Yuv.LumaPlaneInRange | video.c:237-243 | every entry of the luma plane lies in 16..235 |
| Yuv.ChromaAlphaIgnored | video.c:224-236 | the chroma planes do not depend on the alpha bytes |
| Yuv.ChromaRowPass | video.c:226-234 | one row pair writes exactly ChromaRow into U and V at the current positions, and the cursor moves two pixels per entry |
| Yuv.LumaPass | video.c:237-243 | the first imageSize luma entries become LumaPlane, entry p being the luma of pixel p; the rest are unchanged |
| Yuv.ChromaPass | video.c:224-236 | the first PlaneLen(width, ChromaHeight) entries of U and V become the chroma planes, the rest are unchanged |
| Yuv.Rgba2Yuv420p | video.c:214-246 | the Y prefix is the luma plane and the U and V prefixes are the chroma planes; everything past them is unchanged |

## Left out

- Files are byte sequences: `fopen`, `fread` and `fclose` become `MidiFile`, and a file that cannot be opened is `None` (MIDI_FILE).
- The NULL argument guards are not modelled, because the model has no null references: readVariableLengthQuantity's return of 0, getTrackEvent's MIDI_MEMORY for a null argument, songTime's MIDI_ARG returned as a time, and setNoteTimes' early return.
- The callocs of the chunk payload, the song record and the track table are assumed to succeed. Two allocations can fail, through `memOk`: the note buffer growth of addNote (midi.c:556-575) and the calloc of a text meta event's payload (midi.c:358-360), which gives MIDI_MEMORY.
- Reads and writes that C leaves undefined (past the track data, pitch 127, a header payload shorter than six bytes, a note written after a failed growth) give `Undefined` rather than a value.
- MidiParser.ScanSysEx: the first test of the SysEx loop reads `byte1` before assigning it; the model takes that value as not 0xF7, so the scan starts at the first data byte.
- The branch for statuses 0xF8-0xFF at midi.c:444-449 is dead, because `currentStatusByte` is masked to its upper nibble. It is not modelled as a separate path.
- Doubles are exact reals. A zero division, which gives an infinity or NaN in C, gives rate 0.0.
- Integer widths are unbounded: `uint64_t` ticks, the `long long` quantity and `int` cursors do not wrap.
- The file-scope static `currentChannelMode` (midi.c:11) and the `static` local `called` carry no state read by the core and are not modelled.
- MidiNote fields other than those in `MidiTypes.Note` are not modelled: dynamics, message, referenceMidiNote, length, screenTime and channelMode. They are not set by the reader.
- Verbose printing and timing output are not modelled.
- Yuv.Rgba2Yuv420p: the frame must hold every pixel the loops read (ChromaReadable), and the planes must be large enough. The C code does not check this, and reading past the buffers is undefined behaviour. With an even width a frame of 4 * width * height bytes is enough (EvenWidthReadable). With an odd width it may not be (OddWidthOverreads); YUV 4:2:0 frames normally have even dimensions.
- TempoMap.TimeAtMonotone: proved only when the first track's notes are in start-tick order; a decoded first track that holds ordinary notes can violate it, because ordinary notes are committed when they stop.
- physics.c, flow.c, audio.c, options.c and the rest of video.c (encoder setup, frame output) are not part of this model.

