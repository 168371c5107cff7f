/**
 * The raster window: where pixel n lands, what a stream of pixels leaves in the
 * frame memory, and that reading a region and writing it elsewhere copies it.
 */
module PanelRaster {
  import opened Arith
  import opened PanelSpec

  // ----- where the pointer goes ------------------------------------------------

  function Cols(w: Window): (n: nat)
    ensures n >= 1
  {
    if w.colEnd >= w.colStart then w.colEnd - w.colStart + 1 else 1
  }

  function Rows(w: Window): (n: nat)
    ensures n >= 1
  {
    if w.rowEnd >= w.rowStart then w.rowEnd - w.rowStart + 1 else 1
  }

  /** The cell that pixel n of a window goes to; a reversed window is one cell wide. */
  function At(w: Window, n: nat): (c: Cursor) {
    Cursor(w, w.colStart + n % Cols(w), w.rowStart + n / Cols(w) % Rows(w))
  }

  function Steps(c: Cursor, n: nat): Cursor {
    if n == 0 then c else Next(Steps(c, n - 1))
  }

  lemma Carry(n: nat, cols: nat, rows: nat)
    requires cols >= 1 && rows >= 1
    ensures var r, row := n % cols, n / cols % rows;
            && r < cols && row < rows
            && (n + 1) % cols == (if r == cols - 1 then 0 else r + 1)
            && (n + 1) / cols % rows == if r < cols - 1 then row else if row == rows - 1 then 0 else row + 1
  {
    CountOn(n, cols);
    CountOn(n / cols, rows);
  }

  lemma NextCell(w: Window, r: nat, row: nat, r': nat, row': nat)
    requires r < Cols(w) && row < Rows(w)
    requires r' == if r == Cols(w) - 1 then 0 else r + 1
    requires row' == if r < Cols(w) - 1 then row else if row == Rows(w) - 1 then 0 else row + 1
    ensures Next(Cursor(w, w.colStart + r, w.rowStart + row)) == Cursor(w, w.colStart + r', w.rowStart + row')
  {
  }

  lemma NextAt(w: Window, n: nat)
    ensures Next(At(w, n)) == At(w, n + 1)
  {
    hide Next;
    var cols, rows := Cols(w), Rows(w);
    Carry(n, cols, rows);
    NextCell(w, n % cols, n / cols % rows, (n + 1) % cols, (n + 1) / cols % rows);
    hide Cols, Rows;
  }

  /** After n pixels the pointer is at column n mod W and row (n div W) mod H of the window. */
  lemma {:induction false} PointerAfter(w: Window, n: nat)
    ensures Steps(Home(w), n) == At(w, n)
  {
    if n == 0 {
      DivModUnique(0, Cols(w), 0, 0);
      DivModUnique(0, Rows(w), 0, 0);
    } else {
      PointerAfter(w, n - 1);
      NextAt(w, n - 1);
    }
  }

  // ----- what a stream of pixels paints -------------------------------------------

  /** The part of the controller that pixels change. */
  datatype Canvas = Canvas(gram: seq<u16>, cursor: Cursor, written: nat, dropped: nat)

  function CanvasOf(p: Panel): Canvas {
    Canvas(p.gram, p.cursor, p.counters.written, p.counters.dropped)
  }

  function Dab(c: Canvas, colour: u16): (d: Canvas)
    requires |c.gram| == CELLS
    ensures |d.gram| == CELLS
  {
    var (x, y) := (c.cursor.x, c.cursor.y);
    if x < WIDTH && y < HEIGHT then
      CellIndexInRange(x, y);
      Canvas(c.gram[y * WIDTH + x := colour], Next(c.cursor), c.written + 1, c.dropped)
    else
      Canvas(c.gram, Next(c.cursor), c.written, c.dropped + 1)
  }

  function Paint(c: Canvas, colours: seq<u16>): (d: Canvas)
    requires |c.gram| == CELLS
    ensures |d.gram| == CELLS
  {
    if colours == [] then c else Dab(Paint(c, colours[..|colours| - 1]), colours[|colours| - 1])
  }

  predicate Lands(w: Window, n: nat, x: nat, y: nat) {
    At(w, n).x == x && At(w, n).y == y
  }

  /** The pointer walks the window whatever is painted, and every pixel is written or dropped. */
  lemma {:induction false} PaintWalks(c: Canvas, w: Window, colours: seq<u16>)
    requires |c.gram| == CELLS && c.cursor == Home(w)
    ensures var d := Paint(c, colours);
      d.cursor == At(w, |colours|) && d.written + d.dropped == c.written + c.dropped + |colours|
  {
    if colours == [] {
      PointerAfter(w, 0);
    } else {
      PaintWalks(c, w, colours[..|colours| - 1]);
      NextAt(w, |colours| - 1);
    }
  }

  lemma DabCell(c: Canvas, colour: u16, x: nat, y: nat)
    requires |c.gram| == CELLS && x < WIDTH && y < HEIGHT
    ensures CellAt(Dab(c, colour).gram, x, y) ==
            if c.cursor.x == x && c.cursor.y == y then colour else CellAt(c.gram, x, y)
  {
    CellIndexInRange(x, y);
  }

  /** A cell holds the last pixel that landed on it. */
  lemma {:induction false} PaintedLast(c: Canvas, w: Window, colours: seq<u16>, k: nat, x: nat, y: nat)
    requires |c.gram| == CELLS && c.cursor == Home(w) && x < WIDTH && y < HEIGHT
    requires k < |colours| && Lands(w, k, x, y)
    requires forall later :: k < later < |colours| ==> !Lands(w, later, x, y)
    ensures CellAt(Paint(c, colours).gram, x, y) == colours[k]
  {
    hide CellAt, Dab, At;
    var n := |colours| - 1;
    PaintWalks(c, w, colours[..n]);
    DabCell(Paint(c, colours[..n]), colours[n], x, y);
    if k < n {
      assert !Lands(w, n, x, y);
      PaintedLast(c, w, colours[..n], k, x, y);
    }
  }

  /** A cell that no pixel landed on is unchanged. */
  lemma {:induction false} PaintedElsewhere(c: Canvas, w: Window, colours: seq<u16>, x: nat, y: nat)
    requires |c.gram| == CELLS && c.cursor == Home(w) && x < WIDTH && y < HEIGHT
    requires forall k :: 0 <= k < |colours| ==> !Lands(w, k, x, y)
    ensures CellAt(Paint(c, colours).gram, x, y) == CellAt(c.gram, x, y)
  {
    hide CellAt, Dab, At;
    if colours != [] {
      var n := |colours| - 1;
      PaintWalks(c, w, colours[..n]);
      DabCell(Paint(c, colours[..n]), colours[n], x, y);
      assert !Lands(w, n, x, y);
      PaintedElsewhere(c, w, colours[..n], x, y);
    }
  }

  predicate Inside(w: Window, x: nat, y: nat) {
    w.colStart <= x < w.colStart + Cols(w) && w.rowStart <= y < w.rowStart + Rows(w)
  }

  lemma NeverOutside(w: Window, n: nat)
    ensures Inside(w, At(w, n).x, At(w, n).y)
  {
  }

  function Area(w: Window): nat {
    Rows(w) * Cols(w)
  }

  /** The number of the pixel that a full pass puts on (x, y). */
  function IndexOf(w: Window, x: nat, y: nat): (k: nat)
    requires Inside(w, x, y)
  {
    (y - w.rowStart) * Cols(w) + (x - w.colStart)
  }

  lemma LandsAtIndex(w: Window, x: nat, y: nat)
    requires Inside(w, x, y)
    ensures IndexOf(w, x, y) < Area(w) && Lands(w, IndexOf(w, x, y), x, y)
  {
    var i, j := x - w.colStart, y - w.rowStart;
    MulMonotone(j + 1, Rows(w), Cols(w));
    DivModUnique(IndexOf(w, x, y), Cols(w), j, i);
    DivModUnique(j, Rows(w), 0, j);
  }

  lemma LandsOnlyAtIndex(w: Window, x: nat, y: nat, n: nat)
    requires Inside(w, x, y) && n < Area(w) && Lands(w, n, x, y)
    ensures n == IndexOf(w, x, y)
  {
    RasterIndex(n, Cols(w), Rows(w));
  }

  /** One full pass: the window shows the colours in raster order, and nothing else changed. */
  lemma FullPass(c: Canvas, w: Window, colours: seq<u16>, x: nat, y: nat)
    requires |c.gram| == CELLS && c.cursor == Home(w) && x < WIDTH && y < HEIGHT
    requires |colours| == Area(w)
    ensures Inside(w, x, y) ==>
      IndexOf(w, x, y) < |colours| && CellAt(Paint(c, colours).gram, x, y) == colours[IndexOf(w, x, y)]
    ensures !Inside(w, x, y) ==> CellAt(Paint(c, colours).gram, x, y) == CellAt(c.gram, x, y)
  {
    hide CellAt, Paint, Area, At, Lands, IndexOf;
    if Inside(w, x, y) {
      LandsAtIndex(w, x, y);
      forall n | 0 <= n < |colours| && n != IndexOf(w, x, y) ensures !Lands(w, n, x, y) {
        if Lands(w, n, x, y) { LandsOnlyAtIndex(w, x, y, n); }
      }
      PaintedLast(c, w, colours, IndexOf(w, x, y), x, y);
    } else {
      forall n | 0 <= n < |colours| ensures !Lands(w, n, x, y) { NotLandingOutside(w, n, x, y); }
      PaintedElsewhere(c, w, colours, x, y);
    }
  }

  lemma NotLandingOutside(w: Window, n: nat, x: nat, y: nat)
    requires !Inside(w, x, y)
    ensures !Lands(w, n, x, y)
  {
    NeverOutside(w, n);
  }
}
