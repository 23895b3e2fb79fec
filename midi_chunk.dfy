/** Chunk framing of a Standard MIDI File (readMidiChunk, readMidiU32 and
    readMidiU16 in midi.c). The file is its bytes plus the read position that
    fread advances; a chunk is a four-byte tag, a big-endian 32-bit length and
    exactly that many payload bytes. */
module MidiChunk {
  import opened MidiTypes
  import opened MidiBytes

  /** An open file: its contents and the position of the next fread. */
  class MidiFile {
    const bytes: seq<Byte>
    var pos: nat

    ghost predicate Valid()
      reads this
    {
      pos <= |bytes|
    }

    /** A file opened at its first byte. */
    constructor (bytes: seq<Byte>)
      ensures this.bytes == bytes && pos == 0 && Valid()
    {
      this.bytes := bytes;
      pos := 0;
    }

    /** fread of up to `n` bytes: whatever is left of them is returned and
        the position moves past it, so a short read ends at the end of the
        file. */
    method Read(n: nat) returns (got: seq<Byte>)
      requires Valid()
      modifies this
      ensures Valid()
      ensures pos == if old(pos) + n <= |bytes| then old(pos) + n else |bytes|
      ensures got == bytes[old(pos)..pos]
      ensures |got| == n <==> old(pos) + n <= |bytes|
    {
      var end := if pos + n <= |bytes| then pos + n else |bytes|;
      got := bytes[pos..end];
      pos := end;
    }
  }

  /** A chunk as readMidiChunk fills it in (MidiChunk of midi.h). */
  datatype Chunk = Chunk(hdr: seq<Byte>, length: nat, data: seq<Byte>)

  /** A chunk and the position just past it. */
  datatype ChunkRead = ChunkRead(chunk: Chunk, next: nat)

  /** The chunk framed at `pos`, if the bytes hold a whole one: a four-byte
      tag, a big-endian length and that many payload bytes. */
  function ChunkAt(bytes: seq<Byte>, pos: nat): (r: Option<ChunkRead>)
    ensures r.Some? ==> |r.value.chunk.hdr| == 4 && |r.value.chunk.data| == r.value.chunk.length
    ensures r.Some? ==> r.value.next == pos + 8 + r.value.chunk.length <= |bytes|
  {
    if pos + 8 > |bytes| then None
    else
      var length := BigEndian(bytes[pos + 4..pos + 8]);
      if pos + 8 + length > |bytes| then None
      else Some(ChunkRead(Chunk(bytes[pos..pos + 4], length, bytes[pos + 8..pos + 8 + length]), pos + 8 + length))
  }

  /** The bytes of a chunk with tag `hdr` and payload `data`. */
  function EncodeChunk(hdr: seq<Byte>, data: seq<Byte>): (s: seq<Byte>)
    requires |hdr| == 4 && |data| < 0x1_0000_0000
    ensures |s| == 8 + |data|
  {
    hdr + ToBigEndian(|data|, 4) + data
  }

  /** Framing a chunk and reading it back, wherever it sits in the file,
      gives the tag, the payload and its length, and ends just past it. */
  lemma ChunkRoundTrip(prefix: seq<Byte>, hdr: seq<Byte>, data: seq<Byte>, suffix: seq<Byte>)
    requires |hdr| == 4 && |data| < 0x1_0000_0000
    ensures var bytes := prefix + EncodeChunk(hdr, data) + suffix;
      ChunkAt(bytes, |prefix|) == Some(ChunkRead(Chunk(hdr, |data|, data), |prefix| + 8 + |data|))
  {
    var bytes := prefix + EncodeChunk(hdr, data) + suffix;
    var p := |prefix|;
    assert bytes[p + 4..p + 8] == ToBigEndian(|data|, 4);
    BigEndianRoundTrip(|data|, 4);
    assert bytes[p..p + 4] == hdr;
    assert bytes[p + 8..p + 8 + |data|] == data;
  }

  /** Conversely, every chunk read is the framing of its own tag and payload. */
  lemma ChunkFramed(bytes: seq<Byte>, pos: nat)
    requires ChunkAt(bytes, pos).Some?
    ensures var r := ChunkAt(bytes, pos).value;
      r.chunk.length < 0x1_0000_0000 && bytes[pos..r.next] == EncodeChunk(r.chunk.hdr, r.chunk.data)
  {
    var r := ChunkAt(bytes, pos).value;
    BigEndianBound(bytes[pos + 4..pos + 8]);
    BigEndianCanonical(bytes[pos + 4..pos + 8]);
    assert bytes[pos..r.next] == bytes[pos..pos + 4] + bytes[pos + 4..pos + 8] + bytes[pos + 8..r.next];
  }

  /** readMidiU32 (midi.c:162-176): four bytes read as a big-endian number,
      or MIDI_READ when fewer than four are left. */
  method ReadMidiU32(f: MidiFile) returns (status: Status, value: nat)
    requires f.Valid()
    modifies f
    ensures f.Valid()
    ensures status == MidiOk <==> old(f.pos) + 4 <= |f.bytes|
    ensures status != MidiOk ==> status == MidiRead && f.pos == |f.bytes|
    ensures status == MidiOk ==>
      && value == BigEndian(f.bytes[old(f.pos)..old(f.pos) + 4]) && value < 0x1_0000_0000
      && f.pos == old(f.pos) + 4
  {
    var b := f.Read(4);
    if |b| != 4 {
      return MidiRead, 0;
    }
    value := b[3] as int + b[2] as int * 256 + b[1] as int * 256 * 256 + b[0] as int * 256 * 256 * 256;
    U32Expression(b);
    status := MidiOk;
  }

  /** readMidiU16 (midi.c:178-192): two bytes read as a big-endian number,
      or MIDI_READ when fewer than two are left. */
  method ReadMidiU16(f: MidiFile) returns (status: Status, value: nat)
    requires f.Valid()
    modifies f
    ensures f.Valid()
    ensures status == MidiOk <==> old(f.pos) + 2 <= |f.bytes|
    ensures status != MidiOk ==> status == MidiRead && f.pos == |f.bytes|
    ensures status == MidiOk ==>
      && value == BigEndian(f.bytes[old(f.pos)..old(f.pos) + 2]) && value < 0x1_0000
      && f.pos == old(f.pos) + 2
  {
    var b := f.Read(2);
    if |b| != 2 {
      return MidiRead, 0;
    }
    value := b[1] as int + b[0] as int * 256;
    U16Expression(b);
    status := MidiOk;
  }

  /** readMidiChunk (midi.c:134-160): the tag, the length and then exactly
      `length` payload bytes; any short read is MIDI_READ. */
  method ReadMidiChunk(f: MidiFile) returns (status: Status, c: Chunk)
    requires f.Valid()
    modifies f
    ensures f.Valid()
    ensures var r := ChunkAt(f.bytes, old(f.pos));
      && (status == MidiOk <==> r.Some?)
      && (status == MidiOk ==> c == r.value.chunk && f.pos == r.value.next)
      && (status != MidiOk ==> status == MidiRead && f.pos == |f.bytes|)
  {
    var hdr := f.Read(4);
    if |hdr| != 4 {
      return MidiRead, Chunk(hdr, 0, []);
    }
    var length;
    status, length := ReadMidiU32(f);
    if status != MidiOk {
      return status, Chunk(hdr, 0, []);
    }
    var data := f.Read(length);
    if |data| != length {
      return MidiRead, Chunk(hdr, length, data);
    }
    c := Chunk(hdr, length, data);
  }

  /** "MThd", the tag of the header chunk. */
  const HeaderTag: seq<Byte> := [0x4D, 0x54, 0x68, 0x64]

  /** "MTrk", the tag of a track chunk. */
  const TrackTag: seq<Byte> := [0x4D, 0x54, 0x72, 0x6B]

  /** The header fields readMidi takes from the header payload
      (midi.c:45-49). */
  datatype Header = Header(format: nat, nTracks: nat, division: nat)

  /** The format, track count and division: the big-endian 16-bit numbers
      at payload bytes 0-1, 2-3 and 4-5. A payload shorter than six bytes
      has none (readMidi would read past it). */
  function HeaderOf(data: seq<Byte>): (h: Option<Header>)
    ensures h.Some? <==> |data| >= 6
    ensures h.Some? ==> h.value == Header(BigEndian(data[0..2]), BigEndian(data[2..4]), BigEndian(data[4..6]))
    ensures h.Some? ==> h.value.format < 0x1_0000 && h.value.nTracks < 0x1_0000 && h.value.division < 0x1_0000
  {
    if |data| < 6 then None
    else
      U16Expression(data[0..2]);
      U16Expression(data[2..4]);
      U16Expression(data[4..6]);
      Some(Header(data[0] as int * 256 + data[1] as int, data[2] as int * 256 + data[3] as int,
                  data[4] as int * 256 + data[5] as int))
  }
}
