/** The ICO and BMP writers of the icon script, with the readers that undo them. */
module Icons {
  import opened Prelude

  // ---------- parts of a buffer ----------

  /** `part` stands in `b` at offset `at`. */
  predicate Holds(b: Bytes, at: nat, part: Bytes) {
    at + |part| <= |b| && forall k :: 0 <= k < |part| ==> b[at + k] == part[k]
  }

  lemma HoldsLeft(a: Bytes, b: Bytes, at: nat, part: Bytes)
    requires Holds(a, at, part)
    ensures Holds(a + b, at, part)
  {
  }

  lemma HoldsRight(a: Bytes, b: Bytes, at: nat, part: Bytes)
    requires Holds(b, at, part)
    ensures Holds(a + b, |a| + at, part)
  {
  }

  lemma HoldsWithin(b: Bytes, at: nat, whole: Bytes, inner: nat, part: Bytes)
    requires Holds(b, at, whole) && Holds(whole, inner, part)
    ensures Holds(b, at + inner, part)
  {
  }

  lemma HoldsSlice(b: Bytes, at: nat, part: Bytes)
    requires Holds(b, at, part)
    ensures b[at..at + |part|] == part
  {
  }

  // ---------- little-endian numbers ----------

  function U16(v: nat): (b: Bytes)
    requires v < 0x1_0000
    ensures |b| == 2
  {
    [v % 256, v / 256]
  }

  function U32(v: nat): (b: Bytes)
    requires v < 0x1_0000_0000
    ensures |b| == 4
  {
    [v % 256, v / 256 % 256, v / 65536 % 256, v / 16777216]
  }

  function Read16(b: Bytes, at: nat): nat
    requires at + 2 <= |b|
  {
    b[at] as int + 256 * b[at + 1] as int
  }

  function Read32(b: Bytes, at: nat): nat
    requires at + 4 <= |b|
  {
    b[at] as int + 256 * b[at + 1] as int + 65536 * b[at + 2] as int + 16777216 * b[at + 3] as int
  }

  lemma Read16At(b: Bytes, at: nat, v: nat)
    requires v < 0x1_0000 && Holds(b, at, U16(v))
    ensures Read16(b, at) == v
  {
    var u := U16(v);
    assert b[at + 0] == u[0] && b[at + 1] == u[1];
  }

  lemma Digits(v: nat)
    requires v < 0x1_0000_0000
    ensures v % 256 + 256 * (v / 256 % 256) + 65536 * (v / 65536 % 256) + 16777216 * (v / 16777216) == v
  {
    var a := v / 256;
    var b := a / 256;
    var c := b / 256;
    assert v == 256 * a + v % 256 && a == 256 * b + a % 256 && b == 256 * c + b % 256;
    assert v / 65536 == b && v / 16777216 == c;
  }

  lemma Read32At(b: Bytes, at: nat, v: nat)
    requires v < 0x1_0000_0000 && Holds(b, at, U32(v))
    ensures Read32(b, at) == v
  {
    var u := U32(v);
    assert b[at + 0] == u[0] && b[at + 1] == u[1] && b[at + 2] == u[2] && b[at + 3] == u[3];
    Digits(v);
  }

  // ---------- ICO ----------

  datatype Frame = Frame(size: int, data: Bytes)

  function DataOf(frames: seq<Frame>, n: nat): Bytes
    requires n <= |frames|
  {
    if n == 0 then [] else DataOf(frames, n - 1) + frames[n - 1].data
  }

  /** Where a frame's data starts. */
  function OffsetOf(frames: seq<Frame>, i: nat): nat
    requires i <= |frames|
  {
    6 + 16 * |frames| + |DataOf(frames, i)|
  }

  function StoredSize(size: int): int {
    if size < 256 then size else 0
  }

  /** The fields of a frame's entry hold its size, its length and where it starts. */
  predicate FrameWritable(frames: seq<Frame>, i: nat)
    requires i < |frames|
  {
    0 <= frames[i].size && |frames[i].data| < 0x1_0000_0000 && OffsetOf(frames, i) < 0x1_0000_0000
  }

  /** What the fixed-width fields can hold; outside it a write fails. The end of the last frame is
      written nowhere. */
  predicate Writable(frames: seq<Frame>) {
    |frames| < 0x1_0000 && forall i :: 0 <= i < |frames| ==> FrameWritable(frames, i)
  }

  /** The bytes of the frames before the `i`th. */
  function LengthBefore(frames: seq<Frame>, i: nat): nat
    requires i <= |frames|
  {
    if i == 0 then 0 else LengthBefore(frames, i - 1) + |frames[i - 1].data|
  }

  lemma {:induction false} LengthIs(frames: seq<Frame>, i: nat)
    requires i <= |frames|
    ensures |DataOf(frames, i)| == LengthBefore(frames, i)
  {
    if i > 0 {
      LengthIs(frames, i - 1);
    }
  }

  /** A frame's size is not negative, and its length and that of all that comes before it, with the 6 bytes
      of the header and 16 for each entry, are below 4 GiB. */
  predicate Representable(frames: seq<Frame>, i: nat)
    requires i < |frames|
  {
    && frames[i].size >= 0 && |frames[i].data| < 4294967296
    && 6 + 16 * |frames| + LengthBefore(frames, i) < 4294967296
  }

  /** The file can be written exactly if every frame is so, and there are fewer than 65536. */
  lemma WritableIff(frames: seq<Frame>)
    ensures Writable(frames) <==> |frames| < 65536 && forall i :: 0 <= i < |frames| ==> Representable(frames, i)
  {
    forall i | 0 <= i < |frames| ensures FrameWritable(frames, i) <==> Representable(frames, i) {
      LengthIs(frames, i);
    }
  }

  function Entry(size: nat, length: nat, offset: nat): (e: Bytes)
    requires length < 0x1_0000_0000 && offset < 0x1_0000_0000
    ensures |e| == 16
  {
    [StoredSize(size), StoredSize(size), 0, 0] + U16(1) + U16(32) + U32(length) + U32(offset)
  }

  function EntryOf(frames: seq<Frame>, i: nat): (e: Bytes)
    requires Writable(frames) && i < |frames|
    ensures |e| == 16
  {
    assert FrameWritable(frames, i);
    Entry(frames[i].size, |frames[i].data|, OffsetOf(frames, i))
  }

  function Directory(frames: seq<Frame>, n: nat): (d: Bytes)
    requires Writable(frames) && n <= |frames|
    ensures |d| == 16 * n
  {
    if n == 0 then [] else Directory(frames, n - 1) + EntryOf(frames, n - 1)
  }

  function IcoHead(n: nat): (h: Bytes)
    requires n < 0x1_0000
    ensures |h| == 6
  {
    U16(0) + U16(1) + U16(n)
  }

  function Ico(frames: seq<Frame>): Bytes
    requires Writable(frames)
  {
    IcoHead(|frames|) + Directory(frames, |frames|) + DataOf(frames, |frames|)
  }

  /** The size a directory entry stands for: 0 is read as 256. */
  function ReadSize(b: Byte): nat {
    if b == 0 then 256 else b
  }

  /** Frame `i` as a reader finds it: the entry's width, and the bytes its offset and length select. */
  function ReadFrame(ico: Bytes, i: nat): Option<Frame> {
    var at := 6 + 16 * i;
    if at + 16 > |ico| then None
    else
      var length, offset := Read32(ico, at + 8), Read32(ico, at + 12);
      if offset + length > |ico| then None else Some(Frame(ReadSize(ico[at]), ico[offset..offset + length]))
  }

  lemma {:induction false} EntryHeld(frames: seq<Frame>, n: nat, i: nat)
    requires Writable(frames) && i < n <= |frames|
    ensures Holds(Directory(frames, n), 16 * i, EntryOf(frames, i))
  {
    var before, last, e := Directory(frames, n - 1), EntryOf(frames, n - 1), EntryOf(frames, i);
    assert Directory(frames, n) == before + last;
    if i < n - 1 {
      EntryHeld(frames, n - 1, i);
      HoldsLeft(before, last, 16 * i, e);
    } else {
      assert Holds(last, 0, e);
      HoldsRight(before, last, 0, e);
    }
  }

  lemma {:induction false} DataHeld(frames: seq<Frame>, n: nat, i: nat)
    requires i < n <= |frames|
    ensures Holds(DataOf(frames, n), |DataOf(frames, i)|, frames[i].data)
  {
    if i < n - 1 {
      DataHeld(frames, n - 1, i);
      HoldsLeft(DataOf(frames, n - 1), frames[n - 1].data, |DataOf(frames, i)|, frames[i].data);
    } else {
      HoldsRight(DataOf(frames, i), frames[i].data, 0, frames[i].data);
    }
  }

  lemma EntryInIco(frames: seq<Frame>, i: nat)
    requires Writable(frames) && i < |frames|
    ensures Holds(Ico(frames), 6 + 16 * i, EntryOf(frames, i))
  {
    var head, dir := IcoHead(|frames|), Directory(frames, |frames|);
    EntryHeld(frames, |frames|, i);
    HoldsRight(head, dir, 16 * i, EntryOf(frames, i));
    HoldsLeft(head + dir, DataOf(frames, |frames|), 6 + 16 * i, EntryOf(frames, i));
  }

  lemma DataInIco(frames: seq<Frame>, i: nat)
    requires Writable(frames) && i < |frames|
    ensures Holds(Ico(frames), OffsetOf(frames, i), frames[i].data)
  {
    var front, data := IcoHead(|frames|) + Directory(frames, |frames|), DataOf(frames, |frames|);
    DataHeld(frames, |frames|, i);
    HoldsRight(front, data, |DataOf(frames, i)|, frames[i].data);
  }

  lemma EntryFields(size: nat, length: nat, offset: nat)
    requires length < 0x1_0000_0000 && offset < 0x1_0000_0000
    ensures var e := Entry(size, length, offset);
      && e[0] == StoredSize(size) && e[1] == StoredSize(size) && e[2] == e[3] == 0
      && Holds(e, 4, U16(1)) && Holds(e, 6, U16(32)) && Holds(e, 8, U32(length)) && Holds(e, 12, U32(offset))
  {
  }

  lemma ReadEntry(ico: Bytes, at: nat, size: nat, length: nat, offset: nat)
    requires length < 0x1_0000_0000 && offset < 0x1_0000_0000 && Holds(ico, at, Entry(size, length, offset))
    ensures ico[at] == StoredSize(size) && ico[at + 1] == StoredSize(size) && ico[at + 2] == ico[at + 3] == 0
    ensures Read16(ico, at + 4) == 1 && Read16(ico, at + 6) == 32
    ensures Read32(ico, at + 8) == length && Read32(ico, at + 12) == offset
  {
    var e := Entry(size, length, offset);
    EntryFields(size, length, offset);
    assert ico[at + 0] == e[0] && ico[at + 1] == e[1] && ico[at + 2] == e[2] && ico[at + 3] == e[3];
    HoldsWithin(ico, at, e, 4, U16(1));
    HoldsWithin(ico, at, e, 6, U16(32));
    HoldsWithin(ico, at, e, 8, U32(length));
    HoldsWithin(ico, at, e, 12, U32(offset));
    Read16At(ico, at + 4, 1);
    Read16At(ico, at + 6, 32);
    Read32At(ico, at + 8, length);
    Read32At(ico, at + 12, offset);
  }

  lemma ReadFrameIs(ico: Bytes, i: nat, size: nat, offset: nat, data: Bytes)
    requires 6 + 16 * i + 16 <= |ico| && ico[6 + 16 * i] == StoredSize(size)
    requires Read32(ico, 6 + 16 * i + 8) == |data| && Read32(ico, 6 + 16 * i + 12) == offset
    requires Holds(ico, offset, data)
    ensures ReadFrame(ico, i) == Some(Frame(ReadSize(StoredSize(size)), data))
  {
    HoldsSlice(ico, offset, data);
  }

  /** A reader gets every frame's bytes back, and its size exactly when that is between 1 and 256. */
  lemma IcoRoundTrip(frames: seq<Frame>, i: nat)
    requires Writable(frames) && i < |frames|
    ensures ReadFrame(Ico(frames), i).Some? && ReadFrame(Ico(frames), i).value.data == frames[i].data
    ensures ReadFrame(Ico(frames), i) == Some(frames[i]) <==> 1 <= frames[i].size <= 256
    ensures var at := 6 + 16 * i;
      && at + 16 <= |Ico(frames)| && Ico(frames)[at + 1] == Ico(frames)[at]
      && Ico(frames)[at + 2] == Ico(frames)[at + 3] == 0
      && Read16(Ico(frames), at + 4) == 1 && Read16(Ico(frames), at + 6) == 32
  {
    assert FrameWritable(frames, i);
    EntryInIco(frames, i);
    DataInIco(frames, i);
    ReadEntry(Ico(frames), 6 + 16 * i, frames[i].size, |frames[i].data|, OffsetOf(frames, i));
    ReadFrameIs(Ico(frames), i, frames[i].size, OffsetOf(frames, i), frames[i].data);
  }

  lemma IcoHeader(frames: seq<Frame>)
    requires Writable(frames)
    ensures |Ico(frames)| >= 6
    ensures Read16(Ico(frames), 0) == 0 && Read16(Ico(frames), 2) == 1 && Read16(Ico(frames), 4) == |frames|
  {
  }

  /** The frames follow the directory and each other without gap or overlap, to the end of the file,
      and there are as many as the header says. */
  lemma FramesTile(frames: seq<Frame>, i: nat)
    requires Writable(frames) && i < |frames|
    ensures Read16(Ico(frames), 0) == 0 && Read16(Ico(frames), 2) == 1 && Read16(Ico(frames), 4) == |frames|
    ensures OffsetOf(frames, 0) == 6 + 16 * |frames|
    ensures OffsetOf(frames, i) + |frames[i].data| == OffsetOf(frames, i + 1)
    ensures OffsetOf(frames, |frames|) == |Ico(frames)|
  {
    IcoHeader(frames);
  }

  /** A buffer filled up to a point and zero from there on. */
  predicate FilledTo(buffer: array<Byte>, bytes: Bytes)
    reads buffer
  {
    |bytes| <= buffer.Length && buffer[..] == bytes + Zeros(buffer.Length - |bytes|)
  }

  function Zeros(n: nat): (z: Bytes)
    ensures |z| == n
  {
    if n == 0 then [] else Zeros(n - 1) + [0]
  }

  lemma {:induction false} ZerosSplit(n: nat, k: nat)
    requires k <= n
    ensures Zeros(n) == Zeros(k) + Zeros(n - k)
  {
    if k < n {
      ZerosSplit(n - 1, k);
      assert Zeros(k) + Zeros(n - 1 - k) + [0] == Zeros(k) + (Zeros(n - 1 - k) + [0]);
    }
  }

  lemma {:induction false} ZerosAre(z: Bytes)
    requires forall k :: 0 <= k < |z| ==> z[k] == 0
    ensures z == Zeros(|z|)
  {
    if z != [] {
      ZerosAre(z[..|z| - 1]);
      assert z == z[..|z| - 1] + [0];
    }
  }

  method Alloc(n: nat) returns (buffer: array<Byte>)
    ensures fresh(buffer) && buffer.Length == n && FilledTo(buffer, [])
  {
    buffer := new Byte[n](_ => 0);
    ZerosAre(buffer[..]);
    assert buffer[..] == [] + Zeros(n);
  }

  /** The next byte of a buffer filled so far with `bytes`. */
  method PutByte(buffer: array<Byte>, ghost bytes: Bytes, at: nat, b: Byte)
    requires FilledTo(buffer, bytes) && |bytes| == at < buffer.Length
    modifies buffer
    ensures FilledTo(buffer, bytes + [b])
  {
    ZerosSplit(buffer.Length - at, 1);
    ghost var rest := Zeros(buffer.Length - at - 1);
    assert Zeros(1) == Zeros(0) + [0] == [0];
    assert buffer[..] == bytes + [0] + rest;
    buffer[at] := b;
    assert buffer[..] == bytes + [b] + rest;
  }

  method PutAll(buffer: array<Byte>, ghost bytes: Bytes, at: nat, more: Bytes)
    requires FilledTo(buffer, bytes) && |bytes| == at && at + |more| <= buffer.Length
    modifies buffer
    ensures FilledTo(buffer, bytes + more)
  {
    assert bytes + more[..0] == bytes;
    for i := 0 to |more|
      invariant FilledTo(buffer, bytes + more[..i])
    {
      PutByte(buffer, bytes + more[..i], at + i, more[i]);
      assert bytes + more[..i + 1] == bytes + more[..i] + [more[i]];
    }
    assert more[..|more|] == more;
  }

  method BuildIco(frames: seq<Frame>) returns (ico: Option<Bytes>)
    ensures ico == if Writable(frames) then Some(Ico(frames)) else None
  {
    if !Writable(frames) {
      return None;
    }
    var n := |frames|;
    var directory := Alloc(16 * n);
    var dataOffset, data := 6 + 16 * n, [];
    for i := 0 to n
      invariant dataOffset == OffsetOf(frames, i) && data == DataOf(frames, i)
      invariant FilledTo(directory, Directory(frames, i))
    {
      var f := frames[i];
      assert FrameWritable(frames, i);
      PutAll(directory, Directory(frames, i), 16 * i, Entry(f.size, |f.data|, dataOffset));
      dataOffset := dataOffset + |f.data|;
      data := data + f.data;
    }
    assert directory[..] == Directory(frames, n) + [] == Directory(frames, n);
    ico := Some(IcoHead(n) + directory[..] + data);
  }

  // ---------- BMP ----------

  function Stride(size: nat): nat {
    size * 3 + (4 - size * 3 % 4) % 4
  }

  /** `n * k`, by addition. */
  function Times(n: nat, k: nat): nat {
    if n == 0 then 0 else Times(n - 1, k) + k
  }

  lemma {:induction false} TimesIs(n: nat, k: nat)
    ensures Times(n, k) == n * k
  {
    if n > 0 {
      TimesIs(n - 1, k);
      assert n * k == (n - 1) * k + k;
    }
  }

  lemma {:induction false} TimesBefore(i: nat, n: nat, k: nat)
    requires i < n
    ensures Times(i, k) + k <= Times(n, k)
  {
    if i < n - 1 {
      TimesBefore(i, n - 1, k);
    }
  }

  /** A square of pixels, three bytes each. */
  predicate Raster(size: nat, data: Bytes) {
    |data| == 3 * Times(size, size)
  }

  /** Where the source has the pixel of column `x` in row `y` from the top. */
  function SourceAt(size: nat, data: Bytes, y: nat, x: nat): (s: nat)
    requires Raster(size, data) && x < size && y < size
    ensures s + 3 <= |data|
  {
    TimesBefore(y, size, size);
    3 * Times(y, size) + 3 * x
  }

  /** A pixel's bytes, blue first. */
  function Bgr(data: Bytes, s: nat): (p: Bytes)
    requires s + 3 <= |data|
    ensures |p| == 3
  {
    [data[s + 2], data[s + 1], data[s]]
  }

  /** The first `x` pixels of row `y`. */
  function Pixels(size: nat, data: Bytes, y: nat, x: nat): (r: Bytes)
    requires Raster(size, data) && y < size && x <= size
    ensures |r| == 3 * x
  {
    if x == 0 then [] else Pixels(size, data, y, x - 1) + Bgr(data, SourceAt(size, data, y, x - 1))
  }

  /** A row of the file, filled with zeros to the stride. */
  function Row(size: nat, stride: nat, data: Bytes, y: nat): (r: Bytes)
    requires Raster(size, data) && y < size && 3 * size <= stride
    ensures |r| == stride
  {
    Pixels(size, data, y, size) + Zeros(stride - 3 * size)
  }

  /** The first `n` rows of the file: the source's last rows, last row first. */
  function Rows(size: nat, stride: nat, data: Bytes, n: nat): (r: Bytes)
    requires Raster(size, data) && 3 * size <= stride && n <= size
    ensures |r| == Times(n, stride)
  {
    if n == 0 then [] else Rows(size, stride, data, n - 1) + Row(size, stride, data, size - n)
  }

  function FileHeader(pixelBytes: nat): (h: Bytes)
    requires 54 + pixelBytes < 0x1_0000_0000
    ensures |h| == 14
  {
    ['B' as nat, 'M' as nat] + U32(54 + pixelBytes) + U32(0) + U32(54)
  }

  function Dimensions(size: nat): (h: Bytes)
    requires size < 0x8000_0000
    ensures |h| == 12
  {
    U32(40) + U32(size) + U32(size)
  }

  function Encoding(pixelBytes: nat): (h: Bytes)
    requires pixelBytes < 0x1_0000_0000
    ensures |h| == 12
  {
    U16(1) + U16(24) + U32(0) + U32(pixelBytes)
  }

  function Resolution(): (h: Bytes)
    ensures |h| == 16
  {
    U32(2835) + U32(2835) + U32(0) + U32(0)
  }

  function Header(size: nat, pixelBytes: nat): (h: Bytes)
    requires 54 + pixelBytes < 0x1_0000_0000 && size < 0x8000_0000
    ensures |h| == 54
  {
    FileHeader(pixelBytes) + (Dimensions(size) + (Encoding(pixelBytes) + Resolution()))
  }

  /** What the header's fields can hold; outside it a write fails. */
  predicate Fits(size: nat) {
    54 + size * Stride(size) < 0x1_0000_0000 && size < 0x8000_0000
  }

  function Bmp(size: nat, data: Bytes): Bytes
    requires Raster(size, data) && Fits(size)
  {
    StrideFits(size);
    Header(size, size * Stride(size)) + Rows(size, Stride(size), data, size)
  }

  /** A reader's view of a 24-bit bottom-up bitmap: the pixel of column `x` in row `y` from the top,
      as red, green and blue. */
  function ReadPixel(bmp: Bytes, x: nat, y: nat): Option<Bytes> {
    if |bmp| < 54 then None
    else
      var start, width, height := Read32(bmp, 10), Read32(bmp, 18), Read32(bmp, 22);
      if x >= width || y >= height then None
      else
        var at := start + (height - 1 - y) * Stride(width) + 3 * x;
        if at < 0 || at + 3 > |bmp| then None else Some([bmp[at + 2], bmp[at + 1], bmp[at]])
  }

  lemma StrideFits(size: nat)
    ensures 3 * size <= Stride(size) < 3 * size + 4 && Stride(size) % 4 == 0
  {
  }

  /** The constant fields: the signature, the header's length, one plane of 24 bits, no compression, and 2835
      pixels to the metre. */
  lemma HeaderConstants(size: nat, pixelBytes: nat, rest: Bytes)
    requires 54 + pixelBytes < 0x1_0000_0000 && size < 0x8000_0000
    ensures var bmp := Header(size, pixelBytes) + rest;
      && bmp[0] == 'B' as int && bmp[1] == 'M' as int
      && Read32(bmp, 14) == 40 && Read16(bmp, 26) == 1 && Read16(bmp, 28) == 24 && Read32(bmp, 30) == 0
      && Read32(bmp, 6) == Read32(bmp, 46) == Read32(bmp, 50) == 0 && Read32(bmp, 38) == Read32(bmp, 42) == 2835
  {
    var h := Header(size, pixelBytes);
    assert Holds(h, 14, U32(40)) && Holds(h, 26, U16(1)) && Holds(h, 28, U16(24)) && Holds(h, 30, U32(0));
    ConstantAt(h, rest, 6, 0);
    ConstantAt(h, rest, 38, 2835);
    ConstantAt(h, rest, 42, 2835);
    ConstantAt(h, rest, 46, 0);
    ConstantAt(h, rest, 50, 0);
    HoldsLeft(h, rest, 14, U32(40));
    HoldsLeft(h, rest, 26, U16(1));
    HoldsLeft(h, rest, 28, U16(24));
    HoldsLeft(h, rest, 30, U32(0));
    Read32At(h + rest, 14, 40);
    Read16At(h + rest, 26, 1);
    Read16At(h + rest, 28, 24);
    Read32At(h + rest, 30, 0);
  }

  lemma ConstantAt(h: Bytes, rest: Bytes, at: nat, v: nat)
    requires v < 0x1_0000_0000 && Holds(h, at, U32(v))
    ensures at + 4 <= |h| && Read32(h + rest, at) == v
  {
    HoldsLeft(h, rest, at, U32(v));
    Read32At(h + rest, at, v);
  }

  lemma HeaderFields(size: nat, pixelBytes: nat)
    requires 54 + pixelBytes < 0x1_0000_0000 && size < 0x8000_0000
    ensures var h := Header(size, pixelBytes);
      && Holds(h, 2, U32(54 + pixelBytes)) && Holds(h, 10, U32(54))
      && Holds(h, 18, U32(size)) && Holds(h, 22, U32(size)) && Holds(h, 34, U32(pixelBytes))
  {
  }

  lemma HeaderRead(size: nat, pixelBytes: nat, rest: Bytes)
    requires 54 + pixelBytes < 0x1_0000_0000 && size < 0x8000_0000
    ensures var bmp := Header(size, pixelBytes) + rest;
      && Read32(bmp, 2) == 54 + pixelBytes && Read32(bmp, 10) == 54
      && Read32(bmp, 18) == size && Read32(bmp, 22) == size && Read32(bmp, 34) == pixelBytes
  {
    var h := Header(size, pixelBytes);
    HeaderFields(size, pixelBytes);
    HoldsLeft(h, rest, 2, U32(54 + pixelBytes));
    HoldsLeft(h, rest, 10, U32(54));
    HoldsLeft(h, rest, 18, U32(size));
    HoldsLeft(h, rest, 22, U32(size));
    HoldsLeft(h, rest, 34, U32(pixelBytes));
    Read32At(h + rest, 2, 54 + pixelBytes);
    Read32At(h + rest, 10, 54);
    Read32At(h + rest, 18, size);
    Read32At(h + rest, 22, size);
    Read32At(h + rest, 34, pixelBytes);
  }

  lemma {:induction false} PixelHeld(size: nat, data: Bytes, y: nat, n: nat, x: nat)
    requires Raster(size, data) && y < size && x < n <= size
    ensures Holds(Pixels(size, data, y, n), 3 * x, Bgr(data, SourceAt(size, data, y, x)))
  {
    var before, last := Pixels(size, data, y, n - 1), Bgr(data, SourceAt(size, data, y, n - 1));
    if x < n - 1 {
      PixelHeld(size, data, y, n - 1, x);
      HoldsLeft(before, last, 3 * x, Bgr(data, SourceAt(size, data, y, x)));
    } else {
      HoldsRight(before, last, 0, last);
    }
  }

  /** Row `y` from the top is row `size - 1 - y` of the file. */
  lemma {:induction false} RowHeld(size: nat, stride: nat, data: Bytes, n: nat, y: nat)
    requires Raster(size, data) && 3 * size <= stride && y < size && size - y <= n <= size
    ensures Holds(Rows(size, stride, data, n), Times(size - 1 - y, stride), Row(size, stride, data, y))
  {
    var before, last := Rows(size, stride, data, n - 1), Row(size, stride, data, size - n);
    var row := Row(size, stride, data, y);
    assert Rows(size, stride, data, n) == before + last;
    if size - y < n {
      RowHeld(size, stride, data, n - 1, y);
      HoldsLeft(before, last, Times(size - 1 - y, stride), row);
    } else {
      assert |before| == Times(size - 1 - y, stride) && last == row;
      HoldsRight(before, last, 0, row);
    }
  }

  lemma PixelInRows(size: nat, stride: nat, data: Bytes, x: nat, y: nat)
    requires Raster(size, data) && 3 * size <= stride && x < size && y < size
    ensures var at := Times(size - 1 - y, stride) + 3 * x;
      Holds(Rows(size, stride, data, size), at, Bgr(data, SourceAt(size, data, y, x)))
  {
    var pixel := Bgr(data, SourceAt(size, data, y, x));
    PixelHeld(size, data, y, size, x);
    HoldsLeft(Pixels(size, data, y, size), Zeros(stride - 3 * size), 3 * x, pixel);
    RowHeld(size, stride, data, size, y);
    HoldsWithin(Rows(size, stride, data, size), Times(size - 1 - y, stride), Row(size, stride, data, y), 3 * x, pixel);
  }

  /** The sizes in the header are the real ones, and rows start on multiples of four. */
  lemma BmpSizes(size: nat, data: Bytes)
    requires Raster(size, data) && Fits(size)
    ensures |Bmp(size, data)| == 54 + size * Stride(size)
    ensures Read32(Bmp(size, data), 2) == |Bmp(size, data)| && Read32(Bmp(size, data), 34) == |Bmp(size, data)| - 54
    ensures Read32(Bmp(size, data), 18) == size && Read32(Bmp(size, data), 22) == size
    ensures Read32(Bmp(size, data), 10) == 54
    ensures Bmp(size, data)[0] == 'B' as int && Bmp(size, data)[1] == 'M' as int && Read32(Bmp(size, data), 14) == 40
    ensures Read16(Bmp(size, data), 26) == 1 && Read16(Bmp(size, data), 28) == 24 && Read32(Bmp(size, data), 30) == 0
    ensures Read32(Bmp(size, data), 6) == Read32(Bmp(size, data), 46) == Read32(Bmp(size, data), 50) == 0
    ensures Read32(Bmp(size, data), 38) == Read32(Bmp(size, data), 42) == 2835
    ensures Stride(size) % 4 == 0 && 3 * size <= Stride(size) < 3 * size + 4
  {
    StrideFits(size);
    TimesIs(size, Stride(size));
    HeaderRead(size, size * Stride(size), Rows(size, Stride(size), data, size));
    HeaderConstants(size, size * Stride(size), Rows(size, Stride(size), data, size));
  }

  lemma PixelRead(bmp: Bytes, size: nat, x: nat, y: nat, d: nat, data: Bytes, s: nat)
    requires |bmp| >= 54 && Read32(bmp, 10) == 54 && Read32(bmp, 18) == size && Read32(bmp, 22) == size
    requires x < size && y < size && d == Times(size - 1 - y, Stride(size)) + 3 * x
    requires s + 3 <= |data| && Holds(bmp, 54 + d, Bgr(data, s))
    ensures ReadPixel(bmp, x, y) == Some(data[s..s + 3])
  {
    TimesIs(size - 1 - y, Stride(size));
    var p, at := Bgr(data, s), 54 + d;
    assert bmp[at + 0] == p[0] && bmp[at + 1] == p[1] && bmp[at + 2] == p[2];
    assert data[s..s + 3] == [data[s], data[s + 1], data[s + 2]];
  }

  lemma MulGrows(a: nat, b: nat, x: nat, y: nat)
    requires a <= b && x <= y
    ensures a * x <= b * y
  {
    assert a * x <= a * y && a * y <= b * y;
  }

  lemma StrideGrows(a: nat, b: nat)
    requires a <= b
    ensures Stride(a) <= Stride(b)
  {
    StrideFits(a);
    StrideFits(b);
  }

  /** A bitmap can be written exactly up to this size. */
  lemma FitsIff(size: nat)
    ensures Fits(size) <==> size <= 37837
  {
    assert Stride(37837) == 113512 && Stride(37838) == 113516;
    if size <= 37837 {
      StrideGrows(size, 37837);
      MulGrows(size, 37837, Stride(size), 113512);
    } else {
      StrideGrows(37838, size);
      MulGrows(37838, size, 113516, Stride(size));
    }
  }

  /** Every pixel is read back from where the source has it: rows from the top, three bytes a pixel. */
  lemma BmpRoundTrip(size: nat, data: Bytes, x: nat, y: nat, s: nat)
    requires |data| == size * size * 3 && Fits(size) && x < size && y < size && s == 3 * (y * size + x)
    ensures Raster(size, data) && s + 3 <= |data|
    ensures ReadPixel(Bmp(size, data), x, y) == Some(data[s..s + 3])
  {
    TimesIs(size, size);
    TimesIs(y, size);
    PixelRoundTrip(size, data, x, y, s);
  }

  lemma PixelInBmp(size: nat, data: Bytes, x: nat, y: nat)
    requires Raster(size, data) && Fits(size) && x < size && y < size
    ensures var d := Times(size - 1 - y, Stride(size)) + 3 * x;
      Holds(Bmp(size, data), 54 + d, Bgr(data, SourceAt(size, data, y, x)))
  {
    var stride, pixelBytes := Stride(size), size * Stride(size);
    var rows, pixel := Rows(size, stride, data, size), Bgr(data, SourceAt(size, data, y, x));
    PixelInRows(size, stride, data, x, y);
    HoldsRight(Header(size, pixelBytes), rows, Times(size - 1 - y, stride) + 3 * x, pixel);
  }

  lemma PixelRoundTrip(size: nat, data: Bytes, x: nat, y: nat, s: nat)
    requires Raster(size, data) && Fits(size) && x < size && y < size && s == SourceAt(size, data, y, x)
    ensures ReadPixel(Bmp(size, data), x, y) == Some(data[s..s + 3])
  {
    BmpSizes(size, data);
    PixelInBmp(size, data, x, y);
    PixelRead(Bmp(size, data), size, x, y, Times(size - 1 - y, Stride(size)) + 3 * x, data, s);
  }

  method FillPixels(body: array<Byte>, ghost before: Bytes, size: nat, data: Bytes, y: nat, dstRow: nat)
    requires Raster(size, data) && y < size
    requires FilledTo(body, before) && |before| == dstRow && dstRow + 3 * size <= body.Length
    modifies body
    ensures FilledTo(body, before + Pixels(size, data, y, size))
  {
    var srcRow := y * size * 3;
    TimesIs(y, size);
    assert before + [] == before;
    for x := 0 to size
      invariant FilledTo(body, before + Pixels(size, data, y, x))
    {
      var s, d := srcRow + x * 3, dstRow + x * 3;
      assert s == SourceAt(size, data, y, x);
      PutAll(body, before + Pixels(size, data, y, x), d, Bgr(data, s));
      assert before + Pixels(size, data, y, x + 1) == before + Pixels(size, data, y, x) + Bgr(data, s);
    }
  }

  lemma PadZeros(all: Bytes, row: Bytes, pad: nat)
    requires |row| + pad <= |all| && all == row + Zeros(|all| - |row|)
    ensures all == row + Zeros(pad) + Zeros(|all| - |row| - pad)
  {
    ZerosSplit(|all| - |row|, pad);
  }

  lemma RowFits(size: nat, stride: nat, y: nat)
    requires y < size
    ensures y * stride == Times(y, stride) && y * stride + stride <= Times(size, stride)
  {
  }

  lemma RowAdds(size: nat, stride: nat, data: Bytes, y: nat)
    requires Raster(size, data) && 3 * size <= stride && y < size
    ensures Rows(size, stride, data, y + 1) == Rows(size, stride, data, y) + Row(size, stride, data, size - 1 - y)
  {
  }

  /** After its pixels, a row is complete: the zeros of the fresh buffer are its padding. */
  lemma RowDone(all: Bytes, before: Bytes, pixels: Bytes, pad: nat)
    requires |before| + |pixels| + pad <= |all| && all == before + pixels + Zeros(|all| - |before| - |pixels|)
    ensures all == before + (pixels + Zeros(pad)) + Zeros(|all| - |before| - |pixels| - pad)
  {
    PadZeros(all, before + pixels, pad);
    assert before + pixels + Zeros(pad) == before + (pixels + Zeros(pad));
  }

  /** One turn of the loop over file rows, which take the source rows from the bottom up. */
  method FillRow(body: array<Byte>, ghost before: Bytes, size: nat, stride: nat, data: Bytes, y: nat, dstRow: nat)
    requires Raster(size, data) && 3 * size <= stride && y < size
    requires FilledTo(body, before) && |before| == dstRow && dstRow + stride <= body.Length
    modifies body
    ensures FilledTo(body, before + Row(size, stride, data, y))
  {
    FillPixels(body, before, size, data, y, dstRow);
    RowDone(body[..], before, Pixels(size, data, y, size), stride - 3 * size);
  }

  method FillRows(size: nat, stride: nat, data: Bytes) returns (body: array<Byte>)
    requires Raster(size, data) && 3 * size <= stride
    ensures body[..] == Rows(size, stride, data, size)
  {
    TimesIs(size, stride);
    body := Alloc(stride * size);
    for y := 0 to size
      invariant fresh(body) && body.Length == Times(size, stride)
      invariant FilledTo(body, Rows(size, stride, data, y))
    {
      RowFits(size, stride, y);
      RowAdds(size, stride, data, y);
      FillRow(body, Rows(size, stride, data, y), size, stride, data, size - 1 - y, y * stride);
    }
    assert body[..] == Rows(size, stride, data, size) + [];
  }

  method BuildBmp(size: nat, data: Bytes) returns (bmp: Option<Bytes>)
    requires |data| == size * size * 3
    ensures Raster(size, data)
    ensures bmp == if Fits(size) then Some(Bmp(size, data)) else None
    ensures bmp.Some? <==> size <= 37837
  {
    FitsIff(size);
    TimesIs(size, size);
    StrideFits(size);
    if Fits(size) {
      var body := FillRows(size, Stride(size), data);
      bmp := Some(Header(size, size * Stride(size)) + body[..]);
    } else {
      bmp := None;
    }
  }
}
