/** Byte-level decoding used by the MIDI reader: big-endian unsigned integers
    (the chunk length and header fields, the tempo of a Set Tempo event) and
    variable-length quantities (delta-times and meta-event lengths), as laid
    down in the "Conventions" section of Standard MIDI Files 1.0. */
module MidiBytes {
  import opened MidiTypes

  function Pow256(n: nat): (p: nat)
    ensures p >= 1
  {
    if n == 0 then 1 else 256 * Pow256(n - 1)
  }

  /** The unsigned integer whose base-256 digits, most significant first, are `s`. */
  function BigEndian(s: seq<Byte>): nat
  {
    if s == [] then 0 else BigEndian(s[..|s| - 1]) * 256 + s[|s| - 1]
  }

  /** The `n`-byte big-endian encoding of `v` (the layout a writer produces). */
  function ToBigEndian(v: nat, n: nat): (s: seq<Byte>)
    ensures |s| == n
  {
    if n == 0 then [] else ToBigEndian(v / 256, n - 1) + [v % 256]
  }

  /** An n-byte big-endian number is below 256^n. */
  lemma {:induction false} BigEndianBound(s: seq<Byte>)
    ensures BigEndian(s) < Pow256(|s|)
  {
    if s != [] {
      var init := s[..|s| - 1];
      BigEndianBound(init);
      assert BigEndian(s) == BigEndian(init) * 256 + s[|s| - 1];
      assert BigEndian(init) + 1 <= Pow256(|init|);
      assert (BigEndian(init) + 1) * 256 <= Pow256(|init|) * 256;
    }
  }

  /** Decoding a big-endian encoding gives back the value. */
  lemma {:induction false} BigEndianRoundTrip(v: nat, n: nat)
    requires v < Pow256(n)
    ensures BigEndian(ToBigEndian(v, n)) == v
  {
    if n > 0 {
      var s := ToBigEndian(v, n);
      assert s[..|s| - 1] == ToBigEndian(v / 256, n - 1);
      assert v / 256 < Pow256(n - 1);
      BigEndianRoundTrip(v / 256, n - 1);
    }
  }

  /** Encoding a decoded big-endian number gives back the bytes. */
  lemma {:induction false} BigEndianCanonical(s: seq<Byte>)
    ensures ToBigEndian(BigEndian(s), |s|) == s
  {
    if s != [] {
      var init := s[..|s| - 1];
      BigEndianCanonical(init);
      var v := BigEndian(s);
      assert v / 256 == BigEndian(init) && v % 256 == s[|s| - 1];
      assert s == init + [s[|s| - 1]];
    }
  }

  /** The two-byte expression of readMidiU16 (midi.c:189) is the big-endian value. */
  lemma U16Expression(b: seq<Byte>)
    requires |b| == 2
    ensures BigEndian(b) == b[1] as int + b[0] as int * 256
    ensures BigEndian(b) < 0x1_0000
  {
    assert b[..1][..0] == [];
    assert BigEndian(b[..1]) == b[0];
  }

  /** The four-byte expression of readMidiU32 (midi.c:173) is the big-endian value. */
  lemma U32Expression(b: seq<Byte>)
    requires |b| == 4
    ensures BigEndian(b) == b[3] as int + b[2] as int * 256 + b[1] as int * 256 * 256 + b[0] as int * 256 * 256 * 256
    ensures BigEndian(b) < 0x1_0000_0000
  {
    U24Expression(b[..3]);
    assert b[..3][2] == b[2];
  }

  /** The three-byte expression of the Set Tempo event (midi.c:415) is the big-endian value. */
  lemma U24Expression(b: seq<Byte>)
    requires |b| == 3
    ensures BigEndian(b) == b[0] as int * 256 * 256 + b[1] as int * 256 + b[2] as int
    ensures BigEndian(b) < 0x100_0000
  {
    U16Expression(b[..2]);
    assert b[..2][0] == b[0] && b[..2][1] == b[1];
  }

  // ---------------------------------------------------------------------
  // Variable-length quantities

  /** A decoded quantity and the offset just past its last byte. */
  datatype VlqRead = VlqRead(value: nat, next: nat)

  /** The quantity that starts at `data[i]`, given the value `acc` of the 7-bit
      groups already read: each byte contributes its low seven bits, most
      significant group first, and the first byte with the high bit clear is
      the last one. `None` when the data ends before that byte. */
  function VlqAt(data: seq<Byte>, i: nat, acc: nat): (r: Option<VlqRead>)
    ensures r.Some? ==> i < r.value.next <= |data| && !HighBit(data[r.value.next - 1])
    ensures r.Some? ==> forall k :: i <= k < r.value.next - 1 ==> HighBit(data[k])
    decreases |data| - i
  {
    if i >= |data| then None
    else if HighBit(data[i]) then VlqAt(data, i + 1, acc * 128 + data[i] % 128)
    else Some(VlqRead(acc * 128 + data[i], i + 1))
  }

  /** The leading groups of the canonical encoding of `w`, high bit set on each. */
  function VlqHighGroups(w: nat): (s: seq<Byte>)
    ensures forall k :: 0 <= k < |s| ==> HighBit(s[k])
  {
    if w == 0 then [] else VlqHighGroups(w / 128) + [w % 128 + 128]
  }

  /** The canonical (shortest) variable-length encoding of `v`. */
  function VlqEncode(v: nat): (s: seq<Byte>)
    ensures |s| >= 1 && !HighBit(s[|s| - 1])
  {
    VlqHighGroups(v / 128) + [v % 128]
  }

  lemma {:induction false} HighGroupsDecode(data: seq<Byte>, i: nat, w: nat)
    requires i + |VlqHighGroups(w)| <= |data|
    requires data[i..i + |VlqHighGroups(w)|] == VlqHighGroups(w)
    ensures VlqAt(data, i, 0) == VlqAt(data, i + |VlqHighGroups(w)|, w)
  {
    if w != 0 {
      var init := VlqHighGroups(w / 128);
      var j := i + |init|;
      assert data[i..j] == data[i..i + |VlqHighGroups(w)|][..|init|];
      HighGroupsDecode(data, i, w / 128);
      assert data[j] == VlqHighGroups(w)[|init|] == w % 128 + 128;
      assert VlqAt(data, j, w / 128) == VlqAt(data, j + 1, (w / 128) * 128 + w % 128);
    }
  }

  /** Decoding the canonical encoding of `v`, wherever it sits in the data,
      yields `v` and moves the offset exactly past the encoding. */
  lemma VlqRoundTrip(data: seq<Byte>, i: nat, v: nat)
    requires i + |VlqEncode(v)| <= |data|
    requires data[i..i + |VlqEncode(v)|] == VlqEncode(v)
    ensures VlqAt(data, i, 0) == Some(VlqRead(v, i + |VlqEncode(v)|))
  {
    var high := VlqHighGroups(v / 128);
    assert data[i..i + |high|] == data[i..i + |VlqEncode(v)|][..|high|];
    HighGroupsDecode(data, i, v / 128);
    assert data[i + |high|] == v % 128;
  }

  /** readVariableLengthQuantity (midi.c:526-542): reads bytes while the high
      bit is set, accumulating seven bits per byte as the C loop does
      (add the low bits, then multiply by 128), and adds the final byte.
      Reading past the end of `data` is undefined in C and yields `None`. */
  method ReadVariableLengthQuantity(data: seq<Byte>, offset: nat) returns (r: Option<VlqRead>)
    ensures r == VlqAt(data, offset, 0)
    ensures r.Some? ==> offset < r.value.next <= |data|
  {
    if offset >= |data| {
      return None;
    }
    var i := offset;
    var vlqByte := data[i];
    i := i + 1;
    var vlq: nat := 0;
    ghost var acc: nat := 0;
    while HighBit(vlqByte)
      invariant offset < i <= |data| && vlqByte == data[i - 1]
      invariant vlq == acc * 128
      invariant VlqAt(data, offset, 0) == VlqAt(data, i - 1, acc)
      decreases |data| - i
    {
      vlq := vlq + vlqByte % 128;
      vlq := vlq * 128;
      acc := acc * 128 + vlqByte % 128;
      if i >= |data| {
        return None;
      }
      vlqByte := data[i];
      i := i + 1;
    }
    vlq := vlq + vlqByte;
    r := Some(VlqRead(vlq, i));
  }
}
