/** Types and constants shared by the Standard MIDI File reader (midi.h). */
module MidiTypes {

  /** An unsigned 8-bit value (uint8_t). */
  type Byte = x: int | 0 <= x < 256

  datatype Option<T> = None | Some(value: T)

  /** Return codes of the reader (enum MidiStatus). `Undefined` is not a C
      status: it marks the places where the C code would read or write
      outside a buffer, which C leaves undefined. */
  datatype Status = MidiOk | MidiFile | MidiRead | MidiMemory | MidiArg | Undefined

  /** Growth step of a track's note array (MIDI_CHUNK_ALLOCATION_INCREMENT). */
  const ChunkAllocationIncrement: nat := 1024
  /** Size of the channel dimension of the slot tables (MIDI_CHANNELS). */
  const MidiChannels: nat := 16
  /** Size of the pitch dimension of the slot tables (MIDI_NOTE_RANGE). */
  const MidiNoteRange: nat := 127

  /** Channel voice status nibbles (enum MidiChannelMessages). */
  const NoteOff: Byte := 0x80
  const NoteOn: Byte := 0x90
  const PolyKeyPressure: Byte := 0xA0
  const ControlChange: Byte := 0xB0
  const ProgramChange: Byte := 0xC0
  const ChannelPressure: Byte := 0xD0
  const PitchBend: Byte := 0xE0
  const SystemMsg: Byte := 0xF0

  /** The parser-visible part of a MidiNote. Times are exact reals. */
  datatype Note = Note(
    note: int,
    startDeltaTick: nat,
    stopDeltaTick: nat,
    startTick: nat,
    stopTick: nat,
    startTime: real,
    stopTime: real,
    speed: int,
    playing: bool,
    channel: int,
    isTempo: bool,
    isPedal: bool,
    tempo: nat)

  /** A note whose bytes are all zero (calloc / bzero). */
  const ZeroNote: Note := Note(0, 0, 0, 0, 0, 0.0, 0.0, 0, false, 0, false, false, 0)

  /** The high bit of a byte (b & 0x80). */
  predicate HighBit(b: Byte) { b >= 0x80 }

  /** The upper nibble of a byte (b & CONTROLMASK). */
  function StatusOf(b: Byte): (s: Byte)
    ensures s % 16 == 0 && s <= b < s + 16
  {
    b / 16 * 16
  }

  /** The lower nibble of a byte (b & CHANNELMASK). */
  function ChannelOf(b: Byte): (c: nat)
    ensures c < MidiChannels && StatusOf(b) + c == b
  {
    b % 16
  }
}
