/** The exhibit itself: rectangles painted over one another into a sheet of pixels.
    Main results: `Sheet`, every pixel the colour of the last rectangle over it, and
    `PixelIs`, that colour told from the point.
 */
module Exhibit {
  import opened Outcomes
  import opened Png

  const PAPER := Pixel(0xF3, 0xF0, 0xE9)
  const EDGE := Pixel(0xD9, 0xD3, 0xC6)
  const INK := Pixel(0xA8, 0xA1, 0x93)
  const HEAD := Pixel(0x6B, 0x64, 0x57)
  const MARK := Pixel(0xC2, 0x6B, 0x3A)

  datatype Rect = Rect(x0: int, y0: int, x1: int, y1: int, colour: Pixel)

  predicate Covers(r: Rect, x: int, y: int) { r.x0 <= x < r.x1 && r.y0 <= y < r.y1 }

  ghost predicate LastOver(rects: seq<Rect>, i: int, x: int, y: int) {
    0 <= i < |rects| && Covers(rects[i], x, y) && forall j :: i < j < |rects| ==> !Covers(rects[j], x, y)
  }

  /** The rectangle seen at a point: the last one that covers it. */
  ghost predicate Seen(rects: seq<Rect>, x: int, y: int, colour: Pixel) {
    (exists i :: LastOver(rects, i, x, y) && rects[i].colour == colour)
    || (colour == PAPER && forall j :: 0 <= j < |rects| ==> !Covers(rects[j], x, y))
  }

  ghost predicate Shows(rows: array2<Pixel>, rects: seq<Rect>)
    reads rows
  {
    forall y, x :: 0 <= y < rows.Length0 && 0 <= x < rows.Length1 ==> Seen(rects, x, y, rows[y, x])
  }

  lemma SeenMore(rects: seq<Rect>, r: Rect, x: int, y: int, colour: Pixel)
    requires Seen(rects, x, y, colour)
    ensures Seen(rects + [r], x, y, if Covers(r, x, y) then r.colour else colour)
  {
    var all := rects + [r];
    if Covers(r, x, y) {
      assert LastOver(all, |rects|, x, y);
    } else if i :| LastOver(rects, i, x, y) && rects[i].colour == colour {
      assert LastOver(all, i, x, y) && all[i] == rects[i];
    }
  }

  function Max(a: int, b: int): int { if a < b then b else a }

  function Min(a: int, b: int): int { if a < b then a else b }

  /** Paint one rectangle, clipped to the sheet. */
  method Paint(rows: array2<Pixel>, r: Rect, ghost before: seq<Rect>) returns (ghost after: seq<Rect>)
    requires Shows(rows, before)
    modifies rows
    ensures after == before + [r] && Shows(rows, after)
  {
    var y := Max(0, r.y0);
    while y < Min(rows.Length0, r.y1)
      invariant Max(0, r.y0) <= y
      invariant forall v, x :: 0 <= v < rows.Length0 && 0 <= x < rows.Length1 ==>
                  rows[v, x] == if Covers(r, x, v) && v < y then r.colour else old(rows[v, x])
    {
      var x := Max(0, r.x0);
      while x < Min(rows.Length1, r.x1)
        invariant Max(0, r.x0) <= x
        invariant forall v, u :: 0 <= v < rows.Length0 && 0 <= u < rows.Length1 ==>
                    rows[v, u] == if Covers(r, u, v) && (v < y || (v == y && u < x)) then r.colour else old(rows[v, u])
      {
        rows[y, x] := r.colour;
        x := x + 1;
      }
      y := y + 1;
    }
    after := before + [r];
    forall v, u | 0 <= v < rows.Length0 && 0 <= u < rows.Length1 ensures Seen(after, u, v, rows[v, u]) {
      SeenMore(before, r, u, v, old(rows[v, u]));
    }
  }

  /** Rows of the table, as many as the sheet has room for. */
  function TableRows(h: nat): (n: nat)
    ensures 3 <= n <= 8
  {
    Min(8, Max(3, (h - 56) / 16))
  }

  function RowColour(i: nat, marked: int): Pixel { if i == marked then MARK else INK }

  function LabelOf(i: nat, marked: int): Rect { Rect(20, 56 + 16 * i, 88, 56 + 16 * i + 5, RowColour(i, marked)) }

  function ValueOf(i: nat, marked: int): Rect {
    Rect(100, 56 + 16 * i, 100 + (if i % 2 != 0 then 78 else 54), 56 + 16 * i + 5, RowColour(i, marked))
  }

  function Table(n: nat, marked: int): seq<Rect> {
    if n == 0 then [] else Table(n - 1, marked) + [LabelOf(n - 1, marked)] + [ValueOf(n - 1, marked)]
  }

  /** What is painted, in order: the sheet's edge, its heading, its table. */
  function Drawing(w: nat, h: nat, marked: int): seq<Rect> {
    [Rect(0, 0, w, 1, EDGE), Rect(0, h - 1, w, h, EDGE), Rect(0, 0, 1, h, EDGE), Rect(w - 1, 0, w, h, EDGE)]
    + [Rect(20, 18, 132, 27, HEAD), Rect(20, 33, 96, 37, INK)]
    + Table(TableRows(h), marked)
  }

  lemma BlankShows(rows: array2<Pixel>)
    requires forall y, x :: 0 <= y < rows.Length0 && 0 <= x < rows.Length1 ==> rows[y, x] == PAPER
    ensures Shows(rows, [])
  {
  }

  lemma TableStep(frame: seq<Rect>, n: nat, marked: int)
    ensures frame + Table(n, marked) + [LabelOf(n, marked)] + [ValueOf(n, marked)] == frame + Table(n + 1, marked)
  {
  }

  method PaintTable(rows: array2<Pixel>, h: nat, marked: int, ghost frame: seq<Rect>) returns (ghost done: seq<Rect>)
    requires Shows(rows, frame)
    modifies rows
    ensures done == frame + Table(TableRows(h), marked) && Shows(rows, done)
  {
    hide Seen, Shows, Table;
    done := frame;
    assert frame + Table(0, marked) == frame by { NoTable(frame, marked); }
    var y := 56;
    for i := 0 to TableRows(h)
      invariant y == 56 + 16 * i && Shows(rows, done) && done == frame + Table(i, marked)
    {
      TableStep(frame, i, marked);
      done := Paint(rows, Rect(20, y, 88, y + 5, if i == marked then MARK else INK), done);
      done := Paint(rows, Rect(100, y, 100 + (if i % 2 != 0 then 78 else 54), y + 5, if i == marked then MARK else INK), done);
      y := y + 16;
    }
  }

  lemma NoTable(frame: seq<Rect>, marked: int)
    ensures frame + Table(0, marked) == frame
  {
  }

  /** exhibit, up to the encoding. */
  method Sheet(w: nat, h: nat, marked: int) returns (rows: array2<Pixel>)
    ensures fresh(rows) && rows.Length0 == h && rows.Length1 == w
    ensures Shows(rows, Drawing(w, h, marked))
  {
    hide Seen, Table;
    rows := new Pixel[h, w]((_, _) => PAPER);
    BlankShows(rows);
    hide Shows;
    ghost var done: seq<Rect> := [];
    done := Paint(rows, Rect(0, 0, w, 1, EDGE), done);
    done := Paint(rows, Rect(0, h - 1, w, h, EDGE), done);
    done := Paint(rows, Rect(0, 0, 1, h, EDGE), done);
    done := Paint(rows, Rect(w - 1, 0, w, h, EDGE), done);
    done := Paint(rows, Rect(20, 18, 132, 27, HEAD), done);
    done := Paint(rows, Rect(20, 33, 96, 37, INK), done);
    done := PaintTable(rows, h, marked, done);
    assert done == Drawing(w, h, marked);
  }

  /** The rows handed to the encoder. */
  method Rows(rows: array2<Pixel>) returns (out: seq<seq<Pixel>>)
    ensures Fits(out, rows.Length1, rows.Length0)
    ensures forall y, x :: 0 <= y < rows.Length0 && 0 <= x < rows.Length1 ==> out[y][x] == rows[y, x]
  {
    out := [];
    for y := 0 to rows.Length0
      invariant |out| == y && forall v :: 0 <= v < y ==> |out[v]| == rows.Length1
      invariant forall v, x :: 0 <= v < y && 0 <= x < rows.Length1 ==> out[v][x] == rows[v, x]
    {
      var row := [];
      for x := 0 to rows.Length1
        invariant |row| == x && forall u :: 0 <= u < x ==> row[u] == rows[y, u]
      {
        row := row + [rows[y, x]];
      }
      out := out + [row];
    }
  }

  // ------------------------------------------------------------ pixel by pixel

  /** The colour at a point: of the table's row there, of the heading, of the edge. */
  function PixelAt(w: nat, h: nat, marked: int, x: int, y: int): Pixel {
    if InTable(h, x, y) then (if (y - 56) / 16 == marked then Pixel(0xC2, 0x6B, 0x3A) else Pixel(0xA8, 0xA1, 0x93))
    else if 18 <= y < 27 && 20 <= x < 132 then Pixel(0x6B, 0x64, 0x57)
    else if 33 <= y < 37 && 20 <= x < 96 then Pixel(0xA8, 0xA1, 0x93)
    else if x == 0 || y == 0 || x == w - 1 || y == h - 1 then Pixel(0xD9, 0xD3, 0xC6)
    else Pixel(0xF3, 0xF0, 0xE9)
  }

  /** Rows are sixteen apart and five high, three to eight of them as the height allows. */
  predicate InTable(h: nat, x: int, y: int) {
    && 56 <= y && (y - 56) % 16 < 5
    && (y - 56) / 16 < (if h < 120 then 3 else if h < 184 then (h - 56) / 16 else 8)
    && (20 <= x < 88 || 100 <= x < (if (y - 56) / 16 % 2 == 0 then 154 else 178))
  }

  function Top(rects: seq<Rect>, x: int, y: int): Pixel {
    if rects == [] then PAPER
    else if Covers(rects[|rects| - 1], x, y) then rects[|rects| - 1].colour
    else Top(rects[..|rects| - 1], x, y)
  }

  lemma {:induction false} SeenIsTop(rects: seq<Rect>, x: int, y: int, colour: Pixel)
    requires Seen(rects, x, y, colour)
    ensures colour == Top(rects, x, y)
    decreases |rects|
  {
    if rects != [] {
      var n := |rects| - 1;
      var rest := rects[..n];
      if Covers(rects[n], x, y) {
        if i :| LastOver(rects, i, x, y) && rects[i].colour == colour { assert !(i < n); }
      } else {
        if i :| LastOver(rects, i, x, y) && rects[i].colour == colour { assert LastOver(rest, i, x, y); }
        SeenIsTop(rest, x, y, colour);
      }
    }
  }

  lemma TopOf(rects: seq<Rect>, r: Rect, x: int, y: int)
    ensures Top(rects + [r], x, y) == if Covers(r, x, y) then r.colour else Top(rects, x, y)
  {
    assert (rects + [r])[..|rects|] == rects;
  }

  lemma {:induction false} TopOfTable(frame: seq<Rect>, n: nat, marked: int, x: int, y: int)
    ensures Top(frame + Table(n, marked), x, y) ==
            if 56 <= y && (y - 56) % 16 < 5 && (y - 56) / 16 < n && (20 <= x < 88 || 100 <= x < (if (y - 56) / 16 % 2 == 0 then 154 else 178))
            then (if (y - 56) / 16 == marked then MARK else INK) else Top(frame, x, y)
  {
    hide Top, RowColour;
    if n == 0 {
      NoTable(frame, marked);
    } else {
      TopOfTable(frame, n - 1, marked, x, y);
      TableStep(frame, n - 1, marked);
      var before := frame + Table(n - 1, marked);
      TopOf(before, LabelOf(n - 1, marked), x, y);
      TopOf(before + [LabelOf(n - 1, marked)], ValueOf(n - 1, marked), x, y);
      RowAt(n - 1, y);
      assert RowColour(n - 1, marked) == if n - 1 == marked then MARK else INK by { ColourOf(n - 1, marked); }
    }
  }

  lemma ColourOf(i: nat, marked: int)
    ensures RowColour(i, marked) == if i == marked then MARK else INK
  {
  }

  lemma RowAt(i: nat, y: int)
    ensures 56 + 16 * i <= y < 56 + 16 * i + 5 <==> 56 <= y && (y - 56) % 16 < 5 && (y - 56) / 16 == i
  {
  }

  /** EVERY PIXEL of what is painted has the colour told for its point. */
  lemma PixelIs(w: nat, h: nat, marked: int, x: int, y: int, colour: Pixel)
    requires 0 <= x < w && 0 <= y < h && Seen(Drawing(w, h, marked), x, y, colour)
    ensures colour == PixelAt(w, h, marked, x, y)
  {
    hide Top, Seen, Table, TableRows;
    SeenIsTop(Drawing(w, h, marked), x, y, colour);
    var edges := [Rect(0, 0, w, 1, EDGE), Rect(0, h - 1, w, h, EDGE), Rect(0, 0, 1, h, EDGE), Rect(w - 1, 0, w, h, EDGE)];
    var title, subtitle := Rect(20, 18, 132, 27, HEAD), Rect(20, 33, 96, 37, INK);
    assert Drawing(w, h, marked) == edges + [title] + [subtitle] + Table(TableRows(h), marked);
    TopOfTable(edges + [title] + [subtitle], TableRows(h), marked, x, y);
    TopOf(edges + [title], subtitle, x, y);
    TopOf(edges, title, x, y);
    TopOfEdges(w, h, x, y);
    assert TableRows(h) == (if h < 120 then 3 else if h < 184 then (h - 56) / 16 else 8) by { RowsFit(h); }
  }

  lemma RowsFit(h: nat)
    ensures TableRows(h) == if h < 120 then 3 else if h < 184 then (h - 56) / 16 else 8
  {
  }

  lemma TopOfEdges(w: nat, h: nat, x: int, y: int)
    requires 0 <= x < w && 0 <= y < h
    ensures Top([Rect(0, 0, w, 1, EDGE), Rect(0, h - 1, w, h, EDGE), Rect(0, 0, 1, h, EDGE), Rect(w - 1, 0, w, h, EDGE)], x, y)
         == if x == 0 || y == 0 || x == w - 1 || y == h - 1 then EDGE else PAPER
  {
    var a, b, c, d := Rect(0, 0, w, 1, EDGE), Rect(0, h - 1, w, h, EDGE), Rect(0, 0, 1, h, EDGE), Rect(w - 1, 0, w, h, EDGE);
    assert [a, b, c, d] == [] + [a] + [b] + [c] + [d];
    TopOf([] + [a] + [b] + [c], d, x, y);
    TopOf([] + [a] + [b], c, x, y);
    TopOf([] + [a], b, x, y);
    TopOf([], a, x, y);
  }

  /** The whole exhibit: a file that reads back as the sheet. */
  method Encode(z: Zlib, w: nat, h: nat, marked: int) returns (file: Option<seq<byte>>, ghost sheet: seq<seq<Pixel>>)
    requires Inverse(z)
    ensures Fits(sheet, w, h)
    ensures forall y, x :: 0 <= y < h && 0 <= x < w ==> sheet[y][x] == PixelAt(w, h, marked, x, y)
    ensures file.Some? ==> Read(z, file.value) == Some(Image(w, h, sheet))
  {
    var rows := Sheet(w, h, marked);
    var out := Rows(rows);
    sheet := out;
    forall y, x | 0 <= y < h && 0 <= x < w ensures sheet[y][x] == PixelAt(w, h, marked, x, y) {
      PixelIs(w, h, marked, x, y, sheet[y][x]);
    }
    file := File(z, w, h, out);
    if file.Some? { ReadsBackIff(z, w, h, out); }
  }
}
