/** The PNG encoder of the Teams manifest, proved against a reference decoder
    that follows sections 3.2, 3.4, 4.1.1 and 6.2 of RFC 2083. */
module Png {
  import opened Bytes
  import opened Crc32
  import opened Wrappers

  const SIGNATURE: seq<Byte> := [0x89, 0x50, 0x4e, 0x47, 0x0d, 0x0a, 0x1a, 0x0a]
  const IHDR: seq<Byte> := [0x49, 0x48, 0x44, 0x52]
  const IDAT: seq<Byte> := [0x49, 0x44, 0x41, 0x54]
  const IEND: seq<Byte> := [0x49, 0x45, 0x4e, 0x44]

  datatype EncodeError = RangeError

  // ---------- The CRC field ----------

  /** The register that a four-byte CRC field stands for. */
  function FieldRegister(field: seq<Byte>): Register
    requires |field| == 4
  {
    BitsOf(field[3]) + BitsOf(field[2]) + BitsOf(field[1]) + BitsOf(field[0])
  }

  function LowByte(c: bv32): Byte {
    (c & 0xff) as bv8
  }

  function WordBytes(c: bv32): (bytes: seq<Byte>)
    ensures |bytes| == 4
  {
    var c8 := c >> 8;
    var c16 := c8 >> 8;
    var c24 := c16 >> 8;
    [LowByte(c24), LowByte(c16), LowByte(c8), LowByte(c)]
  }

  lemma LowByteBits(c: bv32)
    ensures BitsOf(LowByte(c)) == Unpack(c)[..8]
  {
    BitsOfIndex(c, 0);
    ZeroByte(c);
    assert forall i :: 0 <= i < 8 ==> !BitsOf(0)[i];
  }

  lemma ZeroByte(c: bv32)
    ensures Index(c, 0) == LowByte(c)
  {
  }

  lemma FieldFromQuarters(r: Register, field: seq<Byte>)
    requires |field| == 4
    requires BitsOf(field[3]) == r[..8] && BitsOf(field[2]) == r[8..16]
    requires BitsOf(field[1]) == r[16..24] && BitsOf(field[0]) == r[24..]
    ensures FieldRegister(field) == r
  {
  }

  lemma QuartersOfWord(c: bv32, c8: bv32, c16: bv32, c24: bv32)
    requires c8 == c >> 8 && c16 == c8 >> 8 && c24 == c16 >> 8
    ensures BitsOf(LowByte(c)) == Unpack(c)[..8]
    ensures BitsOf(LowByte(c8)) == Unpack(c)[8..16]
    ensures BitsOf(LowByte(c16)) == Unpack(c)[16..24]
    ensures BitsOf(LowByte(c24)) == Unpack(c)[24..]
  {
    LowByteBits(c);
    LowByteBits(c8);
    LowByteBits(c16);
    LowByteBits(c24);
    UnpackHigh(c, c8);
    UnpackHigh(c8, c16);
    UnpackHigh(c16, c24);
    QuartersOfShifts(Unpack(c), Unpack(c8), Unpack(c16), Unpack(c24), Repeat(false, 8));
  }

  lemma QuartersOfShifts(r: Register, r8: Register, r16: Register, r24: Register, zeros: seq<bool>)
    requires |zeros| == 8 && r8 == r[8..] + zeros && r16 == r8[8..] + zeros && r24 == r16[8..] + zeros
    ensures r8[..8] == r[8..16] && r16[..8] == r[16..24] && r24[..8] == r[24..]
  {
    assert forall i :: 0 <= i < 24 ==> r8[i] == r[i + 8];
    assert forall i :: 0 <= i < 16 ==> r16[i] == r8[i + 8];
    assert forall i :: 0 <= i < 8 ==> r24[i] == r16[i + 8];
  }

  lemma WordFieldRoundTrip(c: bv32)
    ensures FieldRegister(WordBytes(c)) == Unpack(c)
  {
    var c8 := c >> 8;
    var c16 := c8 >> 8;
    var c24 := c16 >> 8;
    QuartersOfWord(c, c8, c16, c24);
    FieldFromQuarters(Unpack(c), [LowByte(c24), LowByte(c16), LowByte(c8), LowByte(c)]);
  }

  // ---------- Chunks ----------

  datatype Chunk = Chunk(kind: seq<Byte>, data: seq<Byte>)

  predicate CrcMatches(field: seq<Byte>, covered: seq<Byte>)
    requires |field| == 4
  {
    FieldRegister(field) == SerialCrc(covered)
  }

  /** The bytes are one chunk of section 3.2: length, type, data, and the CRC
      over type and data. */
  predicate IsChunk(bytes: seq<Byte>, kind: seq<Byte>, data: seq<Byte>) {
    && |kind| == 4 && |data| < UINT32_LIMIT
    && |bytes| == 12 + |data|
    && bytes[..8 + |data|] == UInt32Bytes(|data|) + kind + data
    && CrcMatches(bytes[8 + |data|..], kind + data)
  }

  /** Frame a chunk. A length that does not fit in 32 bits is a range error. */
  method EncodeChunk(table: array<bv32>, kind: seq<Byte>, data: seq<Byte>) returns (r: Result<seq<Byte>, EncodeError>)
    requires IsCrcTable(table[..]) && |kind| == 4
    ensures r.Ok? <==> |data| < UINT32_LIMIT
    ensures r.Ok? ==> IsChunk(r.value, kind, data)
  {
    if |data| >= UINT32_LIMIT {
      return Err(RangeError);
    }
    var crc := Compute(table, kind + data);
    WordFieldRoundTrip(crc);
    var framed := UInt32Bytes(|data|) + kind + data;
    var bytes := framed + WordBytes(crc);
    assert bytes[..8 + |data|] == framed && bytes[8 + |data|..] == WordBytes(crc);
    r := Ok(bytes);
  }

  datatype Taken = Taken(chunk: Chunk, rest: seq<Byte>)

  /** The first chunk of a stream, with n bytes of data: its CRC must match. */
  function TakeSized(bytes: seq<Byte>, n: nat): (r: Option<Taken>)
    ensures r.Some? ==> |r.value.rest| < |bytes|
  {
    if |bytes| < 12 + n || !CrcMatches(bytes[8 + n..12 + n], bytes[4..8 + n]) then None
    else Some(Taken(Chunk(bytes[4..8], bytes[8..8 + n]), bytes[12 + n..]))
  }

  function TakeChunk(bytes: seq<Byte>): (r: Option<Taken>)
    ensures r.Some? ==> |r.value.rest| < |bytes|
  {
    if |bytes| < 12 then None else TakeSized(bytes, ReadUInt32(bytes[..4]))
  }

  /** A reader of chunk streams. */
  function ParseChunks(bytes: seq<Byte>): Option<seq<Chunk>>
    decreases |bytes|
  {
    if bytes == [] then Some([])
    else match TakeChunk(bytes)
      case None => None
      case Some(taken) =>
        match ParseChunks(taken.rest)
        case None => None
        case Some(rest) => Some([taken.chunk] + rest)
  }

  lemma ChunkFields(bytes: seq<Byte>, kind: seq<Byte>, data: seq<Byte>, rest: seq<Byte>)
    requires IsChunk(bytes, kind, data)
    ensures var n, all := |data|, bytes + rest;
      && all[..4] == UInt32Bytes(n)
      && all[4..8 + n] == kind + data && all[4..8] == kind && all[8..8 + n] == data
      && all[8 + n..12 + n] == bytes[8 + n..] && all[12 + n..] == rest
  {
    var n, all := |data|, bytes + rest;
    var framed := bytes[..8 + n];
    assert all[..4] == framed[..4] == UInt32Bytes(n);
    assert all[4..8 + n] == framed[4..] == kind + data;
    assert all[4..8] == (kind + data)[..4] == kind;
    assert all[8..8 + n] == (kind + data)[4..] == data;
  }

  lemma TakeFramed(bytes: seq<Byte>, kind: seq<Byte>, data: seq<Byte>, rest: seq<Byte>)
    requires IsChunk(bytes, kind, data)
    ensures TakeChunk(bytes + rest) == Some(Taken(Chunk(kind, data), rest))
  {
    var n, all := |data|, bytes + rest;
    ChunkFields(bytes, kind, data, rest);
    UInt32RoundTrip(n);
    assert CrcMatches(all[8 + n..12 + n], all[4..8 + n]);
    assert TakeSized(all, n) == Some(Taken(Chunk(kind, data), rest));
  }

  /** A chunk in front of a readable stream is read back, and then the stream. */
  lemma ParseOneChunk(bytes: seq<Byte>, kind: seq<Byte>, data: seq<Byte>, rest: seq<Byte>, chunks: seq<Chunk>)
    requires IsChunk(bytes, kind, data) && ParseChunks(rest) == Some(chunks)
    ensures ParseChunks(bytes + rest) == Some([Chunk(kind, data)] + chunks)
  {
    TakeFramed(bytes, kind, data, rest);
  }

  predicate Frames(bytes: seq<Byte>, chunk: Chunk) {
    IsChunk(bytes, chunk.kind, chunk.data)
  }

  function Concat(pieces: seq<seq<Byte>>): seq<Byte> {
    if pieces == [] then [] else pieces[0] + Concat(pieces[1..])
  }

  predicate AllFrame(pieces: seq<seq<Byte>>, chunks: seq<Chunk>) {
    |pieces| == |chunks| && forall i :: 0 <= i < |pieces| ==> Frames(pieces[i], chunks[i])
  }

  lemma FramesTail(pieces: seq<seq<Byte>>, chunks: seq<Chunk>)
    requires AllFrame(pieces, chunks) && pieces != []
    ensures Frames(pieces[0], chunks[0]) && AllFrame(pieces[1..], chunks[1..])
    ensures chunks == [chunks[0]] + chunks[1..]
  {
  }

  /** The reader inverts the framing of any list of chunks. */
  lemma {:induction false} ParseInvertsFraming(pieces: seq<seq<Byte>>, chunks: seq<Chunk>)
    requires AllFrame(pieces, chunks)
    ensures ParseChunks(Concat(pieces)) == Some(chunks)
  {
    if pieces != [] {
      FramesTail(pieces, chunks);
      ParseInvertsFraming(pieces[1..], chunks[1..]);
      ParseOneChunk(pieces[0], chunks[0].kind, chunks[0].data, Concat(pieces[1..]), chunks[1..]);
    }
  }

  // ---------- Scanlines ----------

  /** A pixel byte; reading past the end of the buffer writes a zero. */
  function PixelByte(pixels: seq<Byte>, i: nat): Byte {
    if i < |pixels| then pixels[i] else 0
  }

  /** The first n bytes of the image that are actually encoded. */
  function ImageBytes(pixels: seq<Byte>, n: nat): (image: seq<Byte>)
    ensures |image| == n && forall i :: 0 <= i < n ==> image[i] == PixelByte(pixels, i)
    ensures |pixels| == n ==> image == pixels
  {
    seq(n, i requires 0 <= i => PixelByte(pixels, i))
  }

  /** Row y of the image: byte x of it is pixel byte y * rowBytes + x. */
  function Row(pixels: seq<Byte>, rowBytes: nat, y: nat): (row: seq<Byte>)
    ensures |row| == rowBytes
  {
    Product(y, rowBytes);
    seq(rowBytes, x requires 0 <= x => PixelByte(pixels, y * rowBytes + x))
  }

  function Rows(pixels: seq<Byte>, rowBytes: nat, height: nat): (rows: seq<seq<Byte>>)
    ensures |rows| == height && forall y :: 0 <= y < height ==> |rows[y]| == rowBytes
  {
    seq(height, y requires 0 <= y => Row(pixels, rowBytes, y))
  }

  function Flatten(rows: seq<seq<Byte>>): seq<Byte> {
    if rows == [] then [] else rows[0] + Flatten(rows[1..])
  }

  /** The rows with filter byte 0 before each of them. */
  function Filtered(rows: seq<seq<Byte>>): seq<Byte> {
    if rows == [] then [] else [0] + rows[0] + Filtered(rows[1..])
  }

  /** Undo filter type 0 (section 6.2): each scanline is a zero byte and then
      rowBytes bytes as they are. */
  function Unfilter(raw: seq<Byte>, rowBytes: nat, height: nat): Option<seq<Byte>>
    decreases height
  {
    if height == 0 then if raw == [] then Some([]) else None
    else if |raw| < rowBytes + 1 || raw[0] != 0 then None
    else match Unfilter(raw[rowBytes + 1..], rowBytes, height - 1)
      case None => None
      case Some(below) => Some(raw[1..rowBytes + 1] + below)
  }

  lemma {:induction false} UnfilterFiltered(rows: seq<seq<Byte>>, rowBytes: nat)
    requires forall y :: 0 <= y < |rows| ==> |rows[y]| == rowBytes
    ensures Unfilter(Filtered(rows), rowBytes, |rows|) == Some(Flatten(rows))
  {
    if rows != [] {
      var raw := Filtered(rows);
      assert raw[1..rowBytes + 1] == rows[0];
      assert raw[rowBytes + 1..] == Filtered(rows[1..]);
      UnfilterFiltered(rows[1..], rowBytes);
    }
  }

  lemma {:induction false} AppendFiltered(rows: seq<seq<Byte>>, row: seq<Byte>)
    ensures Filtered(rows + [row]) == Filtered(rows) + [0] + row
  {
    var all := rows + [row];
    if rows == [] {
      assert all[1..] == [];
      assert Filtered(all) == [0] + row + [];
    } else {
      assert all[1..] == rows[1..] + [row];
      AppendFiltered(rows[1..], row);
      Regroup([0] + rows[0], Filtered(rows[1..]), [0], row);
    }
  }

  lemma Regroup(a: seq<Byte>, b: seq<Byte>, c: seq<Byte>, d: seq<Byte>)
    ensures a + (b + c + d) == (a + b) + c + d
  {
  }

  lemma {:induction false} AppendFlat(rows: seq<seq<Byte>>, row: seq<Byte>)
    ensures Flatten(rows + [row]) == Flatten(rows) + row
  {
    var all := rows + [row];
    if rows == [] {
      assert all[1..] == [];
      assert Flatten(all) == row + [];
    } else {
      assert all[1..] == rows[1..] + [row];
      AppendFlat(rows[1..], row);
      Regroup(rows[0], Flatten(rows[1..]), row, []);
    }
  }

  lemma Product(y: nat, stride: nat)
    ensures 0 <= y * stride
    ensures (y + 1) * stride == y * stride + stride
  {
  }

  lemma ProductMonotone(y: nat, height: nat, stride: nat)
    requires y <= height
    ensures y * stride <= height * stride
  {
  }

  /** The rows laid end to end are the image itself. */
  lemma {:induction false} FlattenRows(pixels: seq<Byte>, rowBytes: nat, height: nat)
    ensures Flatten(Rows(pixels, rowBytes, height)) == ImageBytes(pixels, height * rowBytes)
  {
    if height > 0 {
      var y := height - 1;
      Product(y, rowBytes);
      FlattenRows(pixels, rowBytes, y);
      assert Rows(pixels, rowBytes, height) == Rows(pixels, rowBytes, y) + [Row(pixels, rowBytes, y)];
      AppendFlat(Rows(pixels, rowBytes, y), Row(pixels, rowBytes, y));
      LastRow(pixels, y * rowBytes, rowBytes, Row(pixels, rowBytes, y));
    }
  }

  lemma LastRow(pixels: seq<Byte>, from: nat, rowBytes: nat, row: seq<Byte>)
    requires |row| == rowBytes && forall x :: 0 <= x < rowBytes ==> row[x] == PixelByte(pixels, from + x)
    ensures ImageBytes(pixels, from) + row == ImageBytes(pixels, from + rowBytes)
  {
  }

  /** The inner loop: filter byte 0 at `at`, then one row. */
  method FillRow(raw: array<Byte>, at: nat, pixels: seq<Byte>, from: nat, rowBytes: nat, ghost row: seq<Byte>)
    requires at + 1 + rowBytes <= raw.Length
    requires |row| == rowBytes && forall x :: 0 <= x < rowBytes ==> row[x] == PixelByte(pixels, from + x)
    modifies raw
    ensures raw[..at + 1 + rowBytes] == old(raw[..at]) + [0] + row
  {
    raw[at] := 0;
    for x := 0 to rowBytes
      invariant raw[..at] == old(raw[..at])
      invariant raw[at] == 0
      invariant forall j :: 0 <= j < x ==> raw[at + 1 + j] == row[j]
    {
      raw[at + 1 + x] := PixelByte(pixels, from + x);
    }
    assert raw[..at + 1 + rowBytes] == raw[..at] + [raw[at]] + raw[at + 1..at + 1 + rowBytes];
    assert raw[at + 1..at + 1 + rowBytes] == row;
  }

  /** Row y starts with a zero byte, and pixel byte x of it follows at its place. */
  predicate FilledAt(raw: seq<Byte>, pixels: seq<Byte>, rowBytes: nat, y: nat, x: nat) {
    var at, i := y * (rowBytes + 1), y * rowBytes + x;
    && 0 <= at < |raw| && raw[at] == 0
    && (x < rowBytes ==> at + 1 + x < |raw| && 0 <= i && raw[at + 1 + x] == if i < |pixels| then pixels[i] else 0)
  }

  lemma LastRowFilled(before: seq<Byte>, row: seq<Byte>, pixels: seq<Byte>, rowBytes: nat, y: nat, x: nat)
    requires |before| == y * (rowBytes + 1) && row == Row(pixels, rowBytes, y)
    ensures FilledAt(before + [0] + row, pixels, rowBytes, y, x)
  {
    Product(y, rowBytes);
    if x < rowBytes {
      assert (before + [0] + row)[|before| + 1 + x] == row[x] == PixelByte(pixels, y * rowBytes + x);
    }
  }

  lemma EarlierRowFilled(before: seq<Byte>, end: seq<Byte>, pixels: seq<Byte>, rowBytes: nat, y: nat, x: nat)
    requires FilledAt(before, pixels, rowBytes, y, x)
    ensures FilledAt(before + end, pixels, rowBytes, y, x)
  {
  }

  /** Where everything is in the filtered image. */
  lemma {:induction false} FilteredAt(pixels: seq<Byte>, rowBytes: nat, height: nat, y: nat, x: nat)
    requires y < height
    ensures |Filtered(Rows(pixels, rowBytes, height))| == height * (rowBytes + 1)
    ensures FilledAt(Filtered(Rows(pixels, rowBytes, height)), pixels, rowBytes, y, x)
  {
    var last := height - 1;
    var rows, row := Rows(pixels, rowBytes, last), Row(pixels, rowBytes, last);
    assert Rows(pixels, rowBytes, height) == rows + [row];
    AppendFiltered(rows, row);
    FilteredSize(pixels, rowBytes, last);
    FilteredSize(pixels, rowBytes, height);
    var before := Filtered(rows);
    if y < last {
      FilteredAt(pixels, rowBytes, last, y, x);
      EarlierRowFilled(before, [0] + row, pixels, rowBytes, y, x);
      assert before + [0] + row == before + ([0] + row);
    } else {
      LastRowFilled(before, row, pixels, rowBytes, y, x);
    }
  }

  lemma {:induction false} FilteredSize(pixels: seq<Byte>, rowBytes: nat, height: nat)
    ensures |Filtered(Rows(pixels, rowBytes, height))| == height * (rowBytes + 1)
  {
    if height > 0 {
      var rows, row := Rows(pixels, rowBytes, height - 1), Row(pixels, rowBytes, height - 1);
      assert Rows(pixels, rowBytes, height) == rows + [row];
      AppendFiltered(rows, row);
      FilteredSize(pixels, rowBytes, height - 1);
      Product(height - 1, rowBytes + 1);
    }
  }

  method FilterScanlines(pixels: seq<Byte>, rowBytes: nat, height: nat) returns (raw: array<Byte>)
    ensures fresh(raw)
    ensures raw[..] == Filtered(Rows(pixels, rowBytes, height))
  {
    raw := new Byte[height * (rowBytes + 1)];
    ghost var rows := Rows(pixels, rowBytes, height);
    for y := 0 to height
      invariant 0 <= y * (rowBytes + 1) <= raw.Length
      invariant raw[..y * (rowBytes + 1)] == Filtered(rows[..y])
    {
      Product(y, rowBytes + 1);
      Product(y, rowBytes);
      ProductMonotone(y + 1, height, rowBytes + 1);
      FillRow(raw, y * (rowBytes + 1), pixels, y * rowBytes, rowBytes, rows[y]);
      AppendFiltered(rows[..y], rows[y]);
      assert rows[..y + 1] == rows[..y] + [rows[y]];
    }
    assert raw[..height * (rowBytes + 1)] == raw[..];
    assert rows[..height] == rows;
  }

  // ---------- The whole file ----------

  datatype Image = Image(width: nat, height: nat, pixels: seq<Byte>)

  /** Bit depth 8, colour type RGBA, and methods 0 for compression, filter and interlace. */
  const RGBA8: seq<Byte> := [8, 6, 0, 0, 0]

  function Header(width: nat, height: nat): (ihdr: seq<Byte>)
    requires width < UINT32_LIMIT && height < UINT32_LIMIT
    ensures |ihdr| == 13
  {
    UInt32Bytes(width) + UInt32Bytes(height) + RGBA8
  }

  /** The reference decoder: signature, chunks with valid CRCs, IHDR first, one
      IDAT, IEND last; then inflate and undo the filters. */
  function Decode(file: seq<Byte>, inflate: seq<Byte> -> seq<Byte>): Option<Image> {
    if |file| < 8 || file[..8] != SIGNATURE then None
    else match ParseChunks(file[8..])
      case None => None
      case Some(chunks) => DecodeChunks(chunks, inflate)
  }

  function DecodeChunks(chunks: seq<Chunk>, inflate: seq<Byte> -> seq<Byte>): Option<Image> {
    if |chunks| != 3 || chunks[0].kind != IHDR || chunks[1].kind != IDAT || chunks[2] != Chunk(IEND, []) then None
    else
      var ihdr := chunks[0].data;
      if |ihdr| != 13 || ihdr[8..] != RGBA8 then None
      else
        var width, height := ReadUInt32(ihdr[..4]), ReadUInt32(ihdr[4..8]);
        match Unfilter(inflate(chunks[1].data), width * 4, height)
        case None => None
        case Some(pixels) => Some(Image(width, height, pixels))
  }

  lemma DecodeHeader(width: nat, height: nat)
    requires width < UINT32_LIMIT && height < UINT32_LIMIT
    ensures var ihdr := Header(width, height);
      ReadUInt32(ihdr[..4]) == width && ReadUInt32(ihdr[4..8]) == height && ihdr[8..] == RGBA8
  {
    var ihdr := Header(width, height);
    assert ihdr[..4] == UInt32Bytes(width) && ihdr[4..8] == UInt32Bytes(height);
    UInt32RoundTrip(width);
    UInt32RoundTrip(height);
  }

  lemma DecodeParsed(image: Image, inflate: seq<Byte> -> seq<Byte>, a: Chunk, b: Chunk, c: Chunk)
    requires image.width < UINT32_LIMIT && image.height < UINT32_LIMIT
    requires a == Chunk(IHDR, Header(image.width, image.height)) && b.kind == IDAT && c == Chunk(IEND, [])
    requires Unfilter(inflate(b.data), image.width * 4, image.height) == Some(image.pixels)
    ensures DecodeChunks([a, b, c], inflate) == Some(image)
  {
    DecodeHeader(image.width, image.height);
  }

  lemma DecodeStream(image: Image, inflate: seq<Byte> -> seq<Byte>, stream: seq<Byte>, chunks: seq<Chunk>)
    requires ParseChunks(stream) == Some(chunks)
    requires DecodeChunks(chunks, inflate) == Some(image)
    ensures Decode(SIGNATURE + stream, inflate) == Some(image)
  {
    assert (SIGNATURE + stream)[..8] == SIGNATURE && (SIGNATURE + stream)[8..] == stream;
  }

  lemma PixelsSurvive(width: nat, height: nat, pixels: seq<Byte>)
    ensures Unfilter(Filtered(Rows(pixels, width * 4, height)), width * 4, height)
         == Some(ImageBytes(pixels, height * (width * 4)))
  {
    UnfilterFiltered(Rows(pixels, width * 4, height), width * 4);
    FlattenRows(pixels, width * 4, height);
  }

  lemma ParseThree(pa: seq<Byte>, pb: seq<Byte>, pc: seq<Byte>, a: Chunk, b: Chunk, c: Chunk)
    requires Frames(pa, a) && Frames(pb, b) && Frames(pc, c)
    ensures ParseChunks(Concat([pa, pb, pc])) == Some([a, b, c])
  {
    ParseInvertsFraming([pa, pb, pc], [a, b, c]);
  }

  /** Any file framed as the encoder frames it decodes to the image it was made from. */
  lemma DecodeFile(image: Image, inflate: seq<Byte> -> seq<Byte>, a: Chunk, b: Chunk, c: Chunk,
                   pa: seq<Byte>, pb: seq<Byte>, pc: seq<Byte>)
    requires image.width < UINT32_LIMIT && image.height < UINT32_LIMIT
    requires a == Chunk(IHDR, Header(image.width, image.height)) && b.kind == IDAT && c == Chunk(IEND, [])
    requires Unfilter(inflate(b.data), image.width * 4, image.height) == Some(image.pixels)
    requires Frames(pa, a) && Frames(pb, b) && Frames(pc, c)
    ensures Decode(SIGNATURE + Concat([pa, pb, pc]), inflate) == Some(image)
  {
    DecodeParsed(image, inflate, a, b, c);
    ParseThree(pa, pb, pc, a, b, c);
    DecodeStream(image, inflate, Concat([pa, pb, pc]), [a, b, c]);
  }

  // ---------- The bytes of the file ----------

  lemma FieldInjective(a: seq<Byte>, b: seq<Byte>)
    requires |a| == 4 && |b| == 4 && FieldRegister(a) == FieldRegister(b)
    ensures a == b
  {
    QuartersMatch(BitsOf(a[3]), BitsOf(a[2]), BitsOf(a[1]), BitsOf(a[0]), BitsOf(b[3]), BitsOf(b[2]), BitsOf(b[1]), BitsOf(b[0]));
    BitsOfInjective(a[3], b[3]);
    BitsOfInjective(a[2], b[2]);
    BitsOfInjective(a[1], b[1]);
    BitsOfInjective(a[0], b[0]);
  }

  lemma HalvesMatch(p: seq<bool>, q: seq<bool>, r: seq<bool>, s: seq<bool>)
    requires |p| == |r| && p + q == r + s
    ensures p == r && q == s
  {
    assert p == (p + q)[..|p|] && r == (r + s)[..|r|];
    assert q == (p + q)[|p|..] && s == (r + s)[|r|..];
  }

  lemma QuartersMatch(p: seq<bool>, q: seq<bool>, r: seq<bool>, s: seq<bool>,
                      t: seq<bool>, u: seq<bool>, v: seq<bool>, w: seq<bool>)
    requires |p| == |t| && |q| == |u| && |r| == |v| && |s| == |w|
    requires p + q + r + s == t + u + v + w
    ensures p == t && q == u && r == v && s == w
  {
    HalvesMatch(p + q + r, s, t + u + v, w);
    HalvesMatch(p + q, r, t + u, v);
    HalvesMatch(p, q, t, u);
  }

  lemma EndWord(c: bv32)
    requires c == 0xae426082
    ensures WordBytes(c) == [174, 66, 96, 130]
  {
  }

  lemma SmallLength(n: nat)
    requires n < 256
    ensures UInt32Bytes(n)[..3] == [0, 0, 0] && UInt32Bytes(n)[3] as int == n
  {
  }

  /** Any chunk that ends a file is the same twelve bytes. */
  lemma EndChunkBytes(piece: seq<Byte>, kind: seq<Byte>, data: seq<Byte>)
    requires IsChunk(piece, kind, data) && kind == [73, 69, 78, 68] && data == []
    ensures piece == [0, 0, 0, 0, 73, 69, 78, 68, 174, 66, 96, 130]
  {
    var head, field := piece[..8], piece[8..];
    assert kind + data == kind;
    EndField(field, kind);
    EndHead(head, kind, data);
    assert piece == head + field;
  }

  lemma EndHead(head: seq<Byte>, kind: seq<Byte>, data: seq<Byte>)
    requires kind == [73, 69, 78, 68] && data == [] && head == UInt32Bytes(|data|) + kind + data
    ensures head == [0, 0, 0, 0, 73, 69, 78, 68]
  {
    SmallLength(0);
    assert UInt32Bytes(0) == [0, 0, 0, 0];
  }

  /** The CRC field of the last chunk. */
  lemma EndField(field: seq<Byte>, covered: seq<Byte>)
    requires |field| == 4 && covered == [73, 69, 78, 68] && CrcMatches(field, covered)
    ensures field == [174, 66, 96, 130]
  {
    CrcOfEnd(73, 69, 78, 68);
    SameField(field, SerialCrc(covered), 0xae426082);
  }

  lemma SameField(field: seq<Byte>, crc: Register, c: bv32)
    requires |field| == 4 && FieldRegister(field) == crc == Unpack(c) && c == 0xae426082
    ensures field == [174, 66, 96, 130]
  {
    WordFieldRoundTrip(c);
    EndWord(c);
    FieldInjective(field, WordBytes(c));
  }

  /** The header chunk up to its CRC. */
  lemma HeaderChunkBytes(piece: seq<Byte>, width: nat, height: nat)
    requires width < UINT32_LIMIT && height < UINT32_LIMIT && IsChunk(piece, IHDR, Header(width, height))
    ensures |piece| == 25
    ensures piece[..21] == [0, 0, 0, 13, 73, 72, 68, 82] + UInt32Bytes(width) + UInt32Bytes(height) + [8, 6, 0, 0, 0]
  {
    SmallLength(13);
    assert UInt32Bytes(13) == [0, 0, 0, 13];
    assert piece[..21] == UInt32Bytes(13) + [73, 72, 68, 82] + (UInt32Bytes(width) + UInt32Bytes(height) + [8, 6, 0, 0, 0]);
  }

  /** What the encoder writes, byte by byte but for two CRCs. */
  predicate Layout(file: seq<Byte>, width: nat, height: nat, idat: seq<Byte>)
    requires width < UINT32_LIMIT && height < UINT32_LIMIT && |idat| < UINT32_LIMIT
  {
    && |file| == 57 + |idat|
    && file[..8] == [137, 80, 78, 71, 13, 10, 26, 10]
    && file[8..29] == [0, 0, 0, 13, 73, 72, 68, 82] + UInt32Bytes(width) + UInt32Bytes(height) + [8, 6, 0, 0, 0]
    && file[33..41 + |idat|] == UInt32Bytes(|idat|) + [73, 68, 65, 84] + idat
    && file[45 + |idat|..] == [0, 0, 0, 0, 73, 69, 78, 68, 174, 66, 96, 130]
  }

  lemma LayoutOf(width: nat, height: nat, idat: seq<Byte>, p1: seq<Byte>, p2: seq<Byte>, p3: seq<Byte>)
    requires width < UINT32_LIMIT && height < UINT32_LIMIT && |idat| < UINT32_LIMIT
    requires IsChunk(p1, IHDR, Header(width, height)) && IsChunk(p2, IDAT, idat) && IsChunk(p3, IEND, [])
    ensures Layout(SIGNATURE + Concat([p1, p2, p3]), width, height, idat)
  {
    HeaderChunkBytes(p1, width, height);
    EndChunkBytes(p3, IEND, []);
    ThreePieces(p1, p2, p3);
    Placed(SIGNATURE, p1, p2, p3);
    assert p2[..8 + |idat|] == UInt32Bytes(|idat|) + [73, 68, 65, 84] + idat;
    var file := SIGNATURE + (p1 + p2 + p3);
    Within(file, 8, 33, 21, p1);
    Within(file, 33, 45 + |idat|, 8 + |idat|, p2);
  }

  lemma Within(file: seq<Byte>, from: nat, to: nat, n: nat, piece: seq<Byte>)
    requires from + n <= to <= |file| && file[from..to] == piece
    ensures file[from..from + n] == piece[..n]
  {
  }

  lemma ThreePieces(p1: seq<Byte>, p2: seq<Byte>, p3: seq<Byte>)
    ensures Concat([p1, p2, p3]) == p1 + p2 + p3
  {
    assert [p1, p2, p3][1..] == [p2, p3] && [p2, p3][1..] == [p3] && [p3][1..] == [];
    assert Concat([p3]) == p3 + [];
    Regroup(p1, p2, p3, []);
  }

  lemma Placed(s: seq<Byte>, p1: seq<Byte>, p2: seq<Byte>, p3: seq<Byte>)
    ensures var file := s + (p1 + p2 + p3);
      && |file| == |s| + |p1| + |p2| + |p3|
      && file[..|s|] == s && file[|s|..|s| + |p1|] == p1
      && file[|s| + |p1|..|s| + |p1| + |p2|] == p2 && file[|s| + |p1| + |p2|..] == p3
  {
  }

  /** Encoding fails exactly when a number does not fit its 32-bit field; otherwise
      the reference decoder gives back the image. `deflate` stands for zlib. */
  method EncodePng(table: array<bv32>, width: nat, height: nat, pixels: seq<Byte>,
                   deflate: seq<Byte> -> seq<Byte>, ghost inflate: seq<Byte> -> seq<Byte>)
    returns (r: Result<seq<Byte>, EncodeError>)
    requires IsCrcTable(table[..])
    requires forall raw :: inflate(deflate(raw)) == raw
    ensures r.Ok? <==>
              && width < UINT32_LIMIT && height < UINT32_LIMIT
              && |deflate(Filtered(Rows(pixels, width * 4, height)))| < UINT32_LIMIT
    ensures r.Ok? ==> Decode(r.value, inflate) == Some(Image(width, height, ImageBytes(pixels, height * (width * 4))))
    ensures r.Ok? ==> Layout(r.value, width, height, deflate(Filtered(Rows(pixels, width * 4, height))))
    ensures r.Ok? && |pixels| == height * (width * 4) ==> Decode(r.value, inflate) == Some(Image(width, height, pixels))
  {
    if width >= UINT32_LIMIT || height >= UINT32_LIMIT {
      return Err(RangeError);
    }
    var raw := FilterScanlines(pixels, width * 4, height);
    var idat := deflate(raw[..]);
    var c1 := EncodeChunk(table, IHDR, Header(width, height));
    var c2 := EncodeChunk(table, IDAT, idat);
    var c3 := EncodeChunk(table, IEND, []);
    if c2.Err? {
      return Err(RangeError);
    }
    Product(height, width * 4);
    ghost var image := Image(width, height, ImageBytes(pixels, height * (width * 4)));
    PixelsSurvive(width, height, pixels);
    DecodeFile(image, inflate, Chunk(IHDR, Header(width, height)), Chunk(IDAT, idat), Chunk(IEND, []), c1.value, c2.value, c3.value);
    LayoutOf(width, height, idat, c1.value, c2.value, c3.value);
    r := Ok(SIGNATURE + Concat([c1.value, c2.value, c3.value]));
  }
}
