/** The integer RGBA to YUV 4:2:0 planar converter (rgba2Yuv420p in
    video.c). The frame is `width * height` pixels of four bytes, red,
    green, blue and alpha; the luma plane gets one sample per pixel and the
    two chroma planes one per 2x2 block, taken from a single pixel that a
    cursor walks to. */
module Yuv {
  import opened MidiTypes

  /** The conversion of an int to uint8_t on assignment: the value modulo
      256. */
  function Store(x: int): (b: Byte)
    ensures 0 <= x < 256 ==> b == x
  {
    x % 256
  }

  /** The luma of a pixel (video.c:242); `/ 256` is the arithmetic shift
      right by 8, as both round toward minus infinity. The value always
      lies in the studio range [16, 235], so the store never wraps. */
  function Luma(r: Byte, g: Byte, b: Byte): (y: Byte)
    ensures 16 <= y <= 235
    ensures y == (66 * r + 129 * g + 25 * b) / 256 + 16
  {
    Store((66 * r + 129 * g + 25 * b) / 256 + 16)
  }

  /** The two chroma planes, destination[1] and destination[2]. */
  datatype Chroma = U | V

  /** The chroma of a pixel (video.c:231-232), in [16, 239] for every
      input, so the store never wraps. */
  function ChromaSample(c: Chroma, r: Byte, g: Byte, b: Byte): (s: Byte)
    ensures 16 <= s <= 239
    ensures c == U ==> s == (-38 * r + -74 * g + 112 * b) / 256 + 128
    ensures c == V ==> s == (112 * r + -94 * g + -18 * b) / 256 + 128
  {
    match c
    case U => Store((-38 * r + -74 * g + 112 * b) / 256 + 128)
    case V => Store((112 * r + -94 * g + -18 * b) / 256 + 128)
  }

  /** The red, green and blue bytes of pixel `p` of an RGBA frame: bytes
      4p, 4p+1 and 4p+2. Its alpha byte, 4p+3, is never read. */
  function Colour(rgb: seq<Byte>, p: nat): (Byte, Byte, Byte)
    requires 4 * p + 2 < |rgb|
  {
    (rgb[4 * p], rgb[4 * p + 1], rgb[4 * p + 2])
  }

  /** The luma of pixel `p` of an RGBA frame. */
  function LumaOf(rgb: seq<Byte>, p: nat): Byte
    requires 4 * p + 2 < |rgb|
  {
    var (r, g, b) := Colour(rgb, p);
    Luma(r, g, b)
  }

  /** The chroma of pixel `p` of an RGBA frame. */
  function ChromaOf(c: Chroma, rgb: seq<Byte>, p: nat): Byte
    requires 4 * p + 2 < |rgb|
  {
    var (r, g, b) := Colour(rgb, p);
    ChromaSample(c, r, g, b)
  }

  /** The luma plane of the first `n` pixels. */
  function LumaPlane(rgb: seq<Byte>, n: nat): (plane: seq<Byte>)
    requires 4 * n <= |rgb|
    ensures |plane| == n && forall p :: 0 <= p < n ==> plane[p] == LumaOf(rgb, p)
  {
    seq(n, p requires 0 <= p < n => LumaOf(rgb, p))
  }

  /** Every entry of the luma plane lies in the studio range 16..235. */
  lemma LumaPlaneInRange(rgb: seq<Byte>, n: nat)
    requires 4 * n <= |rgb|
    ensures forall p :: 0 <= p < n ==> 16 <= LumaPlane(rgb, n)[p] <= 235
  {
  }

  /** Chroma entries per row pair: one per column pair, the last one alone
      when the width is odd. */
  function ChromaWidth(width: nat): nat
  {
    (width + 1) / 2
  }

  /** Row pairs: one per two lines, the last one alone when the height is
      odd. */
  function ChromaHeight(height: nat): nat
  {
    (height + 1) / 2
  }

  /** How far the cursor `i` moves per row pair (video.c:228-235): two
      pixels per column pair, then one more line. */
  function Stride(width: nat): nat
  {
    2 * ChromaWidth(width) + width
  }

  /** The cursor at the start of row pair `row`: one stride per row pair
      before it. */
  function RowStart(width: nat, row: nat): nat
  {
    if row == 0 then 0 else RowStart(width, row - 1) + Stride(width)
  }

  /** The pixel the cursor is at for column pair `k` of row pair `row`. */
  function Cursor(width: nat, row: nat, k: nat): nat
  {
    RowStart(width, row) + 2 * k
  }

  /** Row pair `row` starts `row` strides into the frame. */
  lemma {:induction false} RowStartIs(width: nat, row: nat)
    ensures RowStart(width, row) == row * Stride(width)
  {
    if row > 0 {
      RowStartIs(width, row - 1);
      MulSucc(row - 1, Stride(width));
    }
  }

  /** Later row pairs start further on. */
  lemma {:induction false} RowStartMonotone(width: nat, a: nat, b: nat)
    requires a <= b
    ensures RowStart(width, a) <= RowStart(width, b)
    decreases b
  {
    if a < b {
      RowStartMonotone(width, a, b - 1);
    }
  }

  /** Whether every pixel row pair `row` visits is inside a frame of `len`
      bytes. */
  predicate RowInFrame(len: nat, width: nat, row: nat)
  {
    forall k :: 0 <= k < ChromaWidth(width) ==> 4 * Cursor(width, row, k) + 2 < len
  }

  /** Whether every pixel the chroma loops visit is inside a frame of
      `len` bytes: the last one visited is. */
  predicate ChromaReadable(len: nat, width: nat, height: nat)
  {
    width == 0 || height == 0 || 4 * Cursor(width, ChromaHeight(height) - 1, ChromaWidth(width) - 1) + 2 < len
  }

  /** The pixels of every row pair of a readable frame are inside it. */
  lemma RowReadable(len: nat, width: nat, height: nat, row: nat)
    requires row < ChromaHeight(height) && ChromaReadable(len, width, height)
    ensures RowInFrame(len, width, row)
  {
    RowStartMonotone(width, row, ChromaHeight(height) - 1);
  }

  lemma MulMonotone(a: nat, b: nat, c: nat)
    requires a <= b
    ensures a * c <= b * c
  {
  }

  lemma MulSucc(a: nat, c: nat)
    ensures (a + 1) * c == a * c + c
  {
  }

  /** One row pair of a chroma plane: the chroma of the pixel the cursor is
      at, for each column pair. */
  function ChromaRow(c: Chroma, rgb: seq<Byte>, width: nat, row: nat): (r: seq<Byte>)
    requires RowInFrame(|rgb|, width, row)
    ensures |r| == ChromaWidth(width)
  {
    seq(ChromaWidth(width), k requires 0 <= k < ChromaWidth(width) => ChromaOf(c, rgb, Cursor(width, row, k)))
  }

  /** The number of chroma entries in `rows` row pairs. */
  function PlaneLen(width: nat, rows: nat): nat
  {
    if rows == 0 then 0 else PlaneLen(width, rows - 1) + ChromaWidth(width)
  }

  /** Each row pair holds ChromaWidth entries. */
  lemma {:induction false} PlaneLenIs(width: nat, rows: nat)
    ensures PlaneLen(width, rows) == rows * ChromaWidth(width)
  {
    if rows > 0 {
      PlaneLenIs(width, rows - 1);
      MulSucc(rows - 1, ChromaWidth(width));
    }
  }

  /** More row pairs hold more entries. */
  lemma {:induction false} PlaneLenMonotone(width: nat, a: nat, b: nat)
    requires a <= b
    ensures PlaneLen(width, a) <= PlaneLen(width, b)
    decreases b
  {
    if a < b {
      PlaneLenMonotone(width, a, b - 1);
    }
  }

  /** The first `rows` row pairs of a chroma plane, row after row. */
  function ChromaPlane(c: Chroma, rgb: seq<Byte>, width: nat, height: nat, rows: nat): (plane: seq<Byte>)
    requires rows <= ChromaHeight(height) && ChromaReadable(|rgb|, width, height)
    ensures |plane| == PlaneLen(width, rows)
  {
    if rows == 0 then []
    else
      RowReadable(|rgb|, width, height, rows - 1);
      ChromaPlane(c, rgb, width, height, rows - 1) + ChromaRow(c, rgb, width, rows - 1)
  }

  /** Entry `k` of row pair `row` of a chroma plane follows the entries of
      the row pairs before it, at PlaneLen(width, row) + k, that is
      row * ChromaWidth + k (PlaneLenIs), and holds the chroma of the pixel
      the cursor is at there. */
  lemma {:induction false} PlaneEntry(c: Chroma, rgb: seq<Byte>, width: nat, height: nat, rows: nat, row: nat, k: nat)
    requires rows <= ChromaHeight(height) && ChromaReadable(|rgb|, width, height)
    requires row < rows && k < ChromaWidth(width)
    ensures PlaneLen(width, row) + k < |ChromaPlane(c, rgb, width, height, rows)|
    ensures 4 * Cursor(width, row, k) + 2 < |rgb|
    ensures ChromaPlane(c, rgb, width, height, rows)[PlaneLen(width, row) + k] == ChromaOf(c, rgb, Cursor(width, row, k))
  {
    RowReadable(|rgb|, width, height, row);
    RowReadable(|rgb|, width, height, rows - 1);
    var prefix := ChromaPlane(c, rgb, width, height, rows - 1);
    assert ChromaPlane(c, rgb, width, height, rows) == prefix + ChromaRow(c, rgb, width, rows - 1);
    if row < rows - 1 {
      PlaneEntry(c, rgb, width, height, rows - 1, row, k);
      PlaneLenMonotone(width, row + 1, rows - 1);
    }
  }

  /** With an even width the cursor of column pair `k` of row pair `row` is
      the top-left pixel of its 2x2 block, at line 2 * row and column 2 * k,
      so every visited pixel is inside the frame. */
  lemma EvenWidthSamplesBlock(width: nat, height: nat, row: nat, k: nat)
    requires width % 2 == 0 && row < ChromaHeight(height) && k < ChromaWidth(width)
    ensures Cursor(width, row, k) == (2 * row) * width + 2 * k
    ensures Cursor(width, row, k) < width * height
  {
    RowStartIs(width, row);
    assert Stride(width) == 2 * width;
    assert row * (2 * width) == (2 * row) * width;
    MulMonotone(2 * row + 1, height, width);
    MulSucc(2 * row, width);
  }

  /** A frame of even width with its `4 * width * height` bytes is readable
      by the chroma loops. */
  lemma EvenWidthReadable(width: nat, height: nat, len: nat)
    requires width % 2 == 0 && 4 * (width * height) <= len
    ensures ChromaReadable(len, width, height)
  {
    if width > 0 && height > 0 {
      EvenWidthSamplesBlock(width, height, ChromaHeight(height) - 1, ChromaWidth(width) - 1);
    }
  }

  /** With an even width and a frame of `4 * width * height` bytes, chroma
      entry row * (width / 2) + k is computed from pixel
      (2 * row) * width + 2 * k, the top-left pixel of its 2x2 block. */
  lemma EvenWidthEntry(c: Chroma, rgb: seq<Byte>, width: nat, height: nat, row: nat, k: nat)
    requires width % 2 == 0 && 4 * (width * height) <= |rgb|
    requires row < ChromaHeight(height) && k < width / 2
    ensures ChromaReadable(|rgb|, width, height)
    ensures var plane := ChromaPlane(c, rgb, width, height, ChromaHeight(height));
      var j := PlaneLen(width, row) + k;
      var p := (2 * row) * width + 2 * k;
      && j == row * (width / 2) + k && j < |plane|
      && p < width * height
      && plane[j] == ChromaOf(c, rgb, p)
  {
    assert ChromaWidth(width) == width / 2;
    EvenWidthReadable(width, height, |rgb|);
    PlaneLenIs(width, row);
    EvenWidthSamplesBlock(width, height, row, k);
    PlaneEntry(c, rgb, width, height, ChromaHeight(height), row, k);
  }

  /** With an odd width the cursor gains one pixel per row pair: row pair
      `row` starts at column `row` of line 2 * row rather than at its first
      pixel. */
  lemma OddWidthDrifts(width: nat, row: nat)
    requires width % 2 == 1
    ensures Cursor(width, row, 0) == (2 * row) * width + row
  {
    RowStartIs(width, row);
    assert Stride(width) == 2 * width + 1;
    assert row * (2 * width + 1) == (2 * row) * width + row;
  }

  /** The drift can carry the cursor out of a frame of `4 * width * height`
      bytes: in a frame one pixel wide and eight lines high, the last row
      pair samples pixel 9 of the 8 pixels. */
  lemma OddWidthOverreads()
    ensures Cursor(1, ChromaHeight(8) - 1, ChromaWidth(1) - 1) == 9
    ensures !ChromaReadable(4 * (1 * 8), 1, 8)
  {
    OddWidthDrifts(1, 3);
  }

  /** The luma plane depends on the red, green and blue bytes only. */
  lemma LumaAlphaIgnored(rgb: seq<Byte>, rgb': seq<Byte>, n: nat)
    requires |rgb| == |rgb'| && 4 * n <= |rgb|
    requires forall p: nat :: 4 * p + 2 < |rgb| ==> Colour(rgb, p) == Colour(rgb', p)
    ensures LumaPlane(rgb, n) == LumaPlane(rgb', n)
  {
    assert forall p :: 0 <= p < n ==> LumaPlane(rgb, n)[p] == LumaPlane(rgb', n)[p];
  }

  /** The chroma planes depend on the red, green and blue bytes only. */
  lemma {:induction false} ChromaAlphaIgnored(rgb: seq<Byte>, rgb': seq<Byte>, width: nat, height: nat, rows: nat, c: Chroma)
    requires |rgb| == |rgb'|
    requires forall p: nat :: 4 * p + 2 < |rgb| ==> Colour(rgb, p) == Colour(rgb', p)
    requires rows <= ChromaHeight(height) && ChromaReadable(|rgb|, width, height)
    ensures ChromaPlane(c, rgb, width, height, rows) == ChromaPlane(c, rgb', width, height, rows)
  {
    if rows > 0 {
      ChromaAlphaIgnored(rgb, rgb', width, height, rows - 1, c);
      RowReadable(|rgb|, width, height, rows - 1);
      assert ChromaRow(c, rgb, width, rows - 1) == ChromaRow(c, rgb', width, rows - 1);
    }
  }

  /** `s` with the entries from `at` on replaced by `t`. */
  function Splice(s: seq<Byte>, at: nat, t: seq<Byte>): (r: seq<Byte>)
    requires at + |t| <= |s|
    ensures |r| == |s|
  {
    s[..at] + t + s[at + |t|..]
  }

  /** Writing the entry just past a splice extends it by that entry. */
  lemma SpliceStep(s: seq<Byte>, at: nat, t: seq<Byte>, x: Byte)
    requires at + |t| < |s|
    ensures Splice(s, at, t)[at + |t| := x] == Splice(s, at, t + [x])
  {
    assert Splice(s, at, t)[at + |t| := x] == s[..at] + (t + [x]) + s[at + |t| + 1..];
  }

  /** Writing entry `k` of `row` just past a splice of its first `k`
      entries extends the splice by one entry of `row`. */
  lemma SpliceRowStep(s: seq<Byte>, at: nat, row: seq<Byte>, k: nat)
    requires at + |row| <= |s| && k < |row|
    ensures Splice(s, at, row[..k])[at + k := row[k]] == Splice(s, at, row[..k + 1])
  {
    assert row[..k + 1] == row[..k] + [row[k]];
    SpliceStep(s, at, row[..k], row[k]);
  }

  /** A splice after a splice at 0 is one longer splice at 0. */
  lemma SpliceJoin(s: seq<Byte>, t1: seq<Byte>, t2: seq<Byte>)
    requires |t1| + |t2| <= |s|
    ensures Splice(Splice(s, 0, t1), |t1|, t2) == Splice(s, 0, t1 + t2)
  {
    var s1 := Splice(s, 0, t1);
    assert s1[..|t1|] == t1;
    assert s1[|t1| + |t2|..] == s[|t1| + |t2|..];
  }

  /** Splicing row pair `row` just past the first `row` row pairs of a
      plane spliced at 0 gives the first `row + 1` row pairs spliced at 0. */
  lemma PlaneStep(s: seq<Byte>, c: Chroma, rgb: seq<Byte>, width: nat, height: nat, row: nat)
    requires row < ChromaHeight(height) && ChromaReadable(|rgb|, width, height)
    requires PlaneLen(width, row + 1) <= |s|
    ensures RowInFrame(|rgb|, width, row)
    ensures Splice(Splice(s, 0, ChromaPlane(c, rgb, width, height, row)), PlaneLen(width, row), ChromaRow(c, rgb, width, row))
         == Splice(s, 0, ChromaPlane(c, rgb, width, height, row + 1))
  {
    RowReadable(|rgb|, width, height, row);
    SpliceJoin(s, ChromaPlane(c, rgb, width, height, row), ChromaRow(c, rgb, width, row));
  }

  /** What a splice at 0 holds: the spliced entries, then the old ones. */
  lemma SpliceParts(s: seq<Byte>, t: seq<Byte>)
    requires |t| <= |s|
    ensures Splice(s, 0, t)[..|t|] == t && Splice(s, 0, t)[|t|..] == s[|t|..]
  {
  }

  /** One row pair of the chroma loops (video.c:226-234): from the
      cursor at the row pair's first pixel, one U entry at `upos` on and one
      V entry at `vpos` on per column pair, the cursor moving two pixels each
      time. */
  method ChromaRowPass(u: array<Byte>, v: array<Byte>, rgb: array<Byte>, width: nat, ghost row: nat,
                       i0: nat, upos0: nat, vpos0: nat)
    returns (i: nat, upos: nat, vpos: nat)
    requires rgb != u && rgb != v && u != v
    requires RowInFrame(rgb.Length, width, row) && i0 == RowStart(width, row)
    requires upos0 + ChromaWidth(width) <= u.Length && vpos0 + ChromaWidth(width) <= v.Length
    modifies u, v
    ensures i == i0 + 2 * ChromaWidth(width)
    ensures upos == upos0 + ChromaWidth(width) && vpos == vpos0 + ChromaWidth(width)
    ensures u[..] == Splice(old(u[..]), upos0, ChromaRow(U, rgb[..], width, row))
    ensures v[..] == Splice(old(v[..]), vpos0, ChromaRow(V, rgb[..], width, row))
  {
    ghost var frame := rgb[..];
    ghost var cw := ChromaWidth(width);
    assert 2 * cw == width || 2 * cw == width + 1;
    i, upos, vpos := i0, upos0, vpos0;
    var x := 0;
    ghost var k := 0;
    ghost var rowU := ChromaRow(U, frame, width, row);
    ghost var rowV := ChromaRow(V, frame, width, row);
    while x < width
      invariant x == 2 * k && k <= cw
      invariant i == Cursor(width, row, k) && upos == upos0 + k && vpos == vpos0 + k
      invariant u[..] == Splice(old(u[..]), upos0, rowU[..k])
      invariant v[..] == Splice(old(v[..]), vpos0, rowV[..k])
    {
      var r := rgb[4 * i];
      var g := rgb[4 * i + 1];
      var b := rgb[4 * i + 2];
      SpliceRowStep(old(u[..]), upos0, rowU, k);
      SpliceRowStep(old(v[..]), vpos0, rowV, k);
      assert Colour(frame, i) == (r, g, b);
      u[upos] := ChromaSample(U, r, g, b);
      v[vpos] := ChromaSample(V, r, g, b);
      upos, vpos := upos + 1, vpos + 1;
      i := i + 2;
      x := x + 2;
      k := k + 1;
    }
    assert rowU[..k] == rowU && rowV[..k] == rowV;
  }

  /** The luma loop (video.c:237-243): every pixel of the frame gets its
      luma, at its own index. */
  method LumaPass(y: array<Byte>, rgb: array<Byte>, imageSize: nat)
    requires rgb != y && 4 * imageSize <= rgb.Length && imageSize <= y.Length
    modifies y
    ensures y[..imageSize] == LumaPlane(rgb[..], imageSize) && y[imageSize..] == old(y[imageSize..])
  {
    var p := 0;
    while p < imageSize
      invariant p <= imageSize
      invariant forall q :: 0 <= q < p ==> y[q] == LumaOf(rgb[..], q)
      invariant forall q :: p <= q < y.Length ==> y[q] == old(y[q])
    {
      var r := rgb[4 * p];
      var g := rgb[4 * p + 1];
      var b := rgb[4 * p + 2];
      y[p] := Luma(r, g, b);
      p := p + 1;
    }
  }

  /** The chroma loops (video.c:224-236): the row pairs are walked in
      order, one U and one V entry per column pair written one after the
      other from index 0, the cursor moving one more line after each row
      pair. Exactly PlaneLen(width, ChromaHeight(height)) entries of each
      plane are written, that is ChromaHeight * ChromaWidth (PlaneLenIs). */
  method ChromaPass(u: array<Byte>, v: array<Byte>, rgb: array<Byte>, width: nat, height: nat)
    requires rgb != u && rgb != v && u != v
    requires ChromaReadable(rgb.Length, width, height)
    requires PlaneLen(width, ChromaHeight(height)) <= u.Length
    requires PlaneLen(width, ChromaHeight(height)) <= v.Length
    modifies u, v
    ensures var n := PlaneLen(width, ChromaHeight(height));
      && u[..n] == ChromaPlane(U, rgb[..], width, height, ChromaHeight(height)) && u[n..] == old(u[n..])
      && v[..n] == ChromaPlane(V, rgb[..], width, height, ChromaHeight(height)) && v[n..] == old(v[n..])
  {
    ghost var frame := rgb[..];
    ghost var cw, ch := ChromaWidth(width), ChromaHeight(height);
    ghost var n := PlaneLen(width, ch);
    assert 2 * ch == height || 2 * ch == height + 1;
    var i := 0;
    var upos := 0;
    var vpos := 0;
    var line := 0;
    ghost var row := 0;
    while line < height
      invariant line == 2 * row && row <= ch
      invariant i == RowStart(width, row) && upos == vpos == PlaneLen(width, row) <= n
      invariant u[..] == Splice(old(u[..]), 0, ChromaPlane(U, frame, width, height, row))
      invariant v[..] == Splice(old(v[..]), 0, ChromaPlane(V, frame, width, height, row))
    {
      RowReadable(rgb.Length, width, height, row);
      PlaneLenMonotone(width, row + 1, ch);
      PlaneStep(old(u[..]), U, frame, width, height, row);
      PlaneStep(old(v[..]), V, frame, width, height, row);
      i, upos, vpos := ChromaRowPass(u, v, rgb, width, row, i, upos, vpos);
      i := i + width;
      line := line + 2;
      row := row + 1;
    }
    assert row == ch && rgb[..] == frame;
    SpliceParts(old(u[..]), ChromaPlane(U, frame, width, height, ch));
    SpliceParts(old(v[..]), ChromaPlane(V, frame, width, height, ch));
  }

  /** rgba2Yuv420p (video.c:214-246): the chroma loops, then the luma loop.
      Only the first width * height luma entries and the first
      PlaneLen(width, ChromaHeight(height)) entries of each chroma plane
      are written, and the frame is only read. */
  method Rgba2Yuv420p(y: array<Byte>, u: array<Byte>, v: array<Byte>, rgb: array<Byte>, width: nat, height: nat)
    requires rgb != y && rgb != u && rgb != v && y != u && y != v && u != v
    requires 4 * (width * height) <= rgb.Length && ChromaReadable(rgb.Length, width, height)
    requires width * height <= y.Length
    requires PlaneLen(width, ChromaHeight(height)) <= u.Length
    requires PlaneLen(width, ChromaHeight(height)) <= v.Length
    modifies y, u, v
    ensures y[..width * height] == LumaPlane(rgb[..], width * height)
    ensures y[width * height..] == old(y[width * height..])
    ensures var n := PlaneLen(width, ChromaHeight(height));
      && u[..n] == ChromaPlane(U, rgb[..], width, height, ChromaHeight(height)) && u[n..] == old(u[n..])
      && v[..n] == ChromaPlane(V, rgb[..], width, height, ChromaHeight(height)) && v[n..] == old(v[n..])
  {
    var imageSize := width * height;
    ChromaPass(u, v, rgb, width, height);
    ghost var chroma := (u[..], v[..], rgb[..]);
    LumaPass(y, rgb, imageSize);
    assert (u[..], v[..], rgb[..]) == chroma;
  }
}
