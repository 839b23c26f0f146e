/** The exhibit's image file: rows of pixels written as chunks, and a reader of the
    format (RFC 2083, sections 3.2, 4.1 and 6.2) to hold the writer against.
    Main result: `ReadsBackIff`.
 */
module Png {
  import opened Outcomes

  type byte = x: int | 0 <= x < 256

  datatype Pixel = Pixel(r: byte, g: byte, b: byte)

  /** Compression and check sums are taken as they come; see `Inverse`. */
  datatype Zlib = Zlib(deflate: seq<byte> -> seq<byte>, inflate: seq<byte> -> Option<seq<byte>>, crc: seq<byte> -> nat)

  const LIMIT: int := 0x1_0000_0000

  ghost predicate Inverse(z: Zlib) {
    (forall x :: z.inflate(z.deflate(x)) == Some(x)) && forall x :: z.crc(x) < LIMIT
  }

  // ------------------------------------------------------------------------ writing

  function Four(n: nat): (b: seq<byte>)
    requires n < LIMIT
    ensures |b| == 4
  {
    [n / 0x100_0000, n / 0x1_0000 % 0x100, n / 0x100 % 0x100, n % 0x100]
  }

  function RowBytes(row: seq<Pixel>): (b: seq<byte>)
    ensures |b| == 3 * |row|
  {
    if row == [] then [] else [row[0].r, row[0].g, row[0].b] + RowBytes(row[1..])
  }

  /** Every row behind a filter byte of zero. */
  function Raw(rows: seq<seq<Pixel>>): seq<byte> {
    if rows == [] then [] else [0] + RowBytes(rows[0]) + Raw(rows[1..])
  }

  const SIGNATURE: seq<byte> := [0x89, 0x50, 0x4E, 0x47, 0x0D, 0x0A, 0x1A, 0x0A]
  const IHDR: seq<byte> := [0x49, 0x48, 0x44, 0x52]
  const IDAT: seq<byte> := [0x49, 0x44, 0x41, 0x54]
  const IEND: seq<byte> := [0x49, 0x45, 0x4E, 0x44]

  function ChunkBytes(z: Zlib, tag: seq<byte>, data: seq<byte>): seq<byte>
    requires |data| < LIMIT
  {
    Four(|data|) + tag + data + Four(z.crc(tag + data) % LIMIT)
  }

  function Header(w: nat, h: nat): (b: seq<byte>)
    requires w < LIMIT && h < LIMIT
    ensures |b| == 13
  {
    Four(w) + Four(h) + [8, 2, 0, 0, 0]
  }

  /** None where a number does not fit its four bytes. */
  function File(z: Zlib, w: nat, h: nat, rows: seq<seq<Pixel>>): Option<seq<byte>> {
    var data := z.deflate(Raw(rows));
    if w >= LIMIT || h >= LIMIT || |data| >= LIMIT then None
    else Some(SIGNATURE + (ChunkBytes(z, IHDR, Header(w, h)) + (ChunkBytes(z, IDAT, data) + ChunkBytes(z, IEND, []))))
  }

  // ------------------------------------------------------------------------ reading

  function Number(b: seq<byte>): nat
    requires |b| == 4
  {
    var p: int, q: int, r: int, s: int := b[0], b[1], b[2], b[3];
    p * 0x100_0000 + q * 0x1_0000 + r * 0x100 + s
  }

  datatype Chunk = Chunk(tag: seq<byte>, data: seq<byte>)

  function Chunks(z: Zlib, b: seq<byte>): Option<seq<Chunk>>
    decreases |b|
  {
    if b == [] then Some([])
    else if |b| < 12 then None
    else
      var n := Number(b[..4]);
      if 12 + n > |b| then None
      else
        var tag, data, sum := b[4..8], b[8..8 + n], b[8 + n..12 + n];
        var rest := Chunks(z, b[12 + n..]);
        if Number(sum) != z.crc(tag + data) || rest.None? then None else Some([Chunk(tag, data)] + rest.value)
  }

  function Joined(cs: seq<Chunk>): Option<seq<byte>> {
    if cs == [] then None
    else if cs == [Chunk(IEND, [])] then Some([])
    else if cs[0].tag != IDAT then None
    else
      var rest := Joined(cs[1..]);
      if rest.None? then None else Some(cs[0].data + rest.value)
  }

  function RowOf(b: seq<byte>): (row: seq<Pixel>)
    requires |b| % 3 == 0
    ensures |row| * 3 == |b|
  {
    if b == [] then [] else [Pixel(b[0], b[1], b[2])] + RowOf(b[3..])
  }

  /** h rows of w pixels, filter type 0 only. */
  function Unfiltered(b: seq<byte>, w: nat, h: nat): Option<seq<seq<Pixel>>>
    decreases h
  {
    if h == 0 then if b == [] then Some([]) else None
    else if |b| < 1 + 3 * w || b[0] != 0 then None
    else
      var rest := Unfiltered(b[1 + 3 * w..], w, h - 1);
      if rest.None? then None else Some([RowOf(b[1..1 + 3 * w])] + rest.value)
  }

  datatype Image = Image(w: nat, h: nat, rows: seq<seq<Pixel>>)

  function Read(z: Zlib, file: seq<byte>): Option<Image> {
    if |file| < 8 || file[..8] != SIGNATURE then None
    else
      var cs := Chunks(z, file[8..]);
      if cs.None? || cs.value == [] then None
      else
        var head := cs.value[0];
        if head.tag != IHDR || |head.data| != 13 || head.data[8..] != [8, 2, 0, 0, 0] then None
        else
          var data := Joined(cs.value[1..]);
          if data.None? then None
          else
            var raw := z.inflate(data.value);
            if raw.None? then None
            else
              var w, h := Number(head.data[..4]), Number(head.data[4..8]);
              var rows := Unfiltered(raw.value, w, h);
              if rows.None? then None else Some(Image(w, h, rows.value))
  }

  // --------------------------------------------------------------------- round trip

  lemma FourReads(n: nat)
    requires n < LIMIT
    ensures Number(Four(n)) == n
  {
    var a, b, c: nat := n / 0x100_0000, n / 0x1_0000, n / 0x100;
    assert b / 0x100 == a && c / 0x100 == b;
    assert n == c * 0x100 + n % 0x100 && c == b * 0x100 + c % 0x100 && b == a * 0x100 + b % 0x100;
  }

  lemma {:induction false} RowReads(row: seq<Pixel>)
    ensures RowOf(RowBytes(row)) == row
  {
    if row != [] {
      var b := RowBytes(row);
      assert b[3..] == RowBytes(row[1..]);
      RowReads(row[1..]);
    }
  }

  ghost predicate Fits(rows: seq<seq<Pixel>>, w: nat, h: nat) {
    |rows| == h && forall y :: 0 <= y < h ==> |rows[y]| == w
  }

  lemma {:induction false} RawReads(rows: seq<seq<Pixel>>, w: nat, h: nat)
    requires Fits(rows, w, h)
    ensures Unfiltered(Raw(rows), w, h) == Some(rows)
    decreases h
  {
    if h > 0 {
      var b := Raw(rows);
      RowReads(rows[0]);
      assert b[1..1 + 3 * w] == RowBytes(rows[0]) && b[1 + 3 * w..] == Raw(rows[1..]);
      RawReads(rows[1..], w, h - 1);
      assert [rows[0]] + rows[1..] == rows;
    }
  }

  /** Whatever is read has the width and height it was read with. */
  lemma {:induction false} ReadFits(b: seq<byte>, w: nat, h: nat)
    requires Unfiltered(b, w, h).Some?
    ensures Fits(Unfiltered(b, w, h).value, w, h)
    decreases h
  {
    if h > 0 { ReadFits(b[1 + 3 * w..], w, h - 1); }
  }

  lemma ChunkReads(z: Zlib, tag: seq<byte>, data: seq<byte>, rest: seq<byte>)
    requires Inverse(z) && |tag| == 4 && |data| < LIMIT
    ensures var r := Chunks(z, rest);
            Chunks(z, ChunkBytes(z, tag, data) + rest) == if r.None? then None else Some([Chunk(tag, data)] + r.value)
  {
    var n := |data|;
    var b := ChunkBytes(z, tag, data) + rest;
    FourReads(n);
    FourReads(z.crc(tag + data));
    ChunkParts(z, tag, data, rest);
    assert b != [];
  }

  lemma ChunkParts(z: Zlib, tag: seq<byte>, data: seq<byte>, rest: seq<byte>)
    requires Inverse(z) && |tag| == 4 && |data| < LIMIT
    ensures var b, n := ChunkBytes(z, tag, data) + rest, |data|;
            && |b| == 12 + n + |rest| && b[..4] == Four(n) && b[4..8] == tag && b[8..8 + n] == data
            && b[8 + n..12 + n] == Four(z.crc(tag + data)) && b[12 + n..] == rest
  {
    hide Four;
    assert z.crc(tag + data) % LIMIT == z.crc(tag + data);
  }

  lemma HeaderParts(w: nat, h: nat)
    requires w < LIMIT && h < LIMIT
    ensures var b := Header(w, h); b[..4] == Four(w) && b[4..8] == Four(h) && b[8..] == [8, 2, 0, 0, 0]
  {
    hide Four;
    var a, c, e: seq<byte> := Four(w), Four(h), [8, 2, 0, 0, 0];
    assert (a + c + e)[..4] == a && (a + c + e)[4..8] == c && (a + c + e)[8..] == e;
  }

  lemma FileChunks(z: Zlib, w: nat, h: nat, rows: seq<seq<Pixel>>)
    requires Inverse(z) && File(z, w, h, rows).Some?
    ensures var file, data := File(z, w, h, rows).value, z.deflate(Raw(rows));
            && w < LIMIT && h < LIMIT && |file| >= 8 && file[..8] == SIGNATURE
            && Chunks(z, file[8..]) == Some([Chunk(IHDR, Header(w, h)), Chunk(IDAT, data), Chunk(IEND, [])])
  {
    hide ChunkBytes, Header, Raw;
    var data := z.deflate(Raw(rows));
    var end := ChunkBytes(z, IEND, []);
    var tail := ChunkBytes(z, IDAT, data) + end;
    var body := ChunkBytes(z, IHDR, Header(w, h)) + tail;
    assert File(z, w, h, rows).value == SIGNATURE + body;
    assert (SIGNATURE + body)[..8] == SIGNATURE && (SIGNATURE + body)[8..] == body;
    ChunkReads(z, IEND, [], []);
    assert end + [] == end;
    assert Chunks(z, []) == Some([]);
    ChunkReads(z, IDAT, data, end);
    ChunkReads(z, IHDR, Header(w, h), tail);
    var a, b, c := Chunk(IHDR, Header(w, h)), Chunk(IDAT, data), Chunk(IEND, []);
    assert [c] + [] == [c] && [b] + [c] == [b, c] && [a] + [b, c] == [a, b, c];
  }

  lemma Joins(data: seq<byte>)
    ensures Joined([Chunk(IDAT, data), Chunk(IEND, [])]) == Some(data)
  {
    var last := [Chunk(IEND, [])];
    var cs := [Chunk(IDAT, data), Chunk(IEND, [])];
    assert cs[1..] == last;
    assert Joined(last) == Some([]);
    assert data + [] == data;
    assert cs[0].tag == IDAT && |cs| == 2;
  }

  /** READS BACK, exactly when the rows are as many and as long as the header says. */
  lemma ReadsBackIff(z: Zlib, w: nat, h: nat, rows: seq<seq<Pixel>>)
    requires Inverse(z) && File(z, w, h, rows).Some?
    ensures Read(z, File(z, w, h, rows).value) == Some(Image(w, h, rows)) <==> Fits(rows, w, h)
  {
    hide File, Header, Raw, Unfiltered, Chunks, Joined, Four;
    FileChunks(z, w, h, rows);
    FileSizes(z, w, h, rows);
    var head, data := Chunk(IHDR, Header(w, h)), z.deflate(Raw(rows));
    var cs := [head, Chunk(IDAT, data), Chunk(IEND, [])];
    assert cs[1..] == [Chunk(IDAT, data), Chunk(IEND, [])];
    Joins(data);
    HeaderParts(w, h);
    FourReads(w);
    FourReads(h);
    var read := Unfiltered(Raw(rows), w, h);
    assert Read(z, File(z, w, h, rows).value) == if read.None? then None else Some(Image(w, h, read.value));
    if Fits(rows, w, h) { RawReads(rows, w, h); }
    if read.Some? { ReadFits(Raw(rows), w, h); }
  }

  lemma FileSizes(z: Zlib, w: nat, h: nat, rows: seq<seq<Pixel>>)
    requires File(z, w, h, rows).Some?
    ensures w < LIMIT && h < LIMIT
  {
  }
}
