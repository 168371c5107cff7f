/** What a scenario reads of a region that firmware has just painted. */
module PanelWatch {
  import Arith
  import opened Bits
  import opened PanelRaster
  import PanelSpec
  import opened ScenarioSpec
  import Sha256Spec

  /** Colours as the watcher reads them: two bytes each, the low one first. */
  function LittleEndian(colours: seq<u16>): (bytes: seq<byte>)
    ensures |bytes| == 2 * |colours|
  {
    if colours == [] then []
    else
      var px := colours[|colours| - 1];
      LittleEndian(colours[..|colours| - 1]) + [px % 256, px / 256]
  }

  lemma {:induction false} LittleEndianJoins(a: seq<u16>, b: seq<u16>)
    ensures LittleEndian(a + b) == LittleEndian(a) + LittleEndian(b)
  {
    if b == [] {
      assert a + b == a;
    } else {
      var n := |b| - 1;
      assert (a + b)[..|a| + n] == a + b[..n];
      LittleEndianJoins(a, b[..n]);
    }
  }

  /** The rectangle of the scenario that a window of the panel fills. */
  predicate Frames(w: PanelSpec.Window, r: Rect) {
    r.x == w.colStart && r.y == w.rowStart && r.w == Cols(w) && r.h == Rows(w)
  }

  lemma RowInside(w: PanelSpec.Window, colours: seq<u16>, row: nat, n: nat)
    requires |colours| == PanelRaster.Area(w) && row < Rows(w) && n <= Cols(w)
    ensures 0 <= row * Cols(w) <= row * Cols(w) + n <= |colours|
    ensures row * Cols(w) + Cols(w) == (row + 1) * Cols(w)
  {
    Arith.MulMonotone(row + 1, Rows(w), Cols(w));
  }

  lemma {:induction false} RowShowsColours(c: Canvas, w: PanelSpec.Window, colours: seq<u16>, r: Rect, row: nat,
                                           n: nat)
    requires |c.gram| == PanelSpec.CELLS && c.cursor == PanelSpec.Home(w) && |colours| == PanelRaster.Area(w)
    requires Frames(w, r)
    requires row < Rows(w) && n <= Cols(w)
    ensures var k := row * Cols(w);
            && 0 <= k <= k + n <= |colours|
            && RowBytes(Paint(c, colours).gram, r.x, r.y + row, n) == LittleEndian(colours[k..k + n])
  {
    hide PanelSpec.CellAt, Paint, PanelRaster.Area, Rows, Cols;
    var k := row * Cols(w);
    RowInside(w, colours, row, n);
    if n > 0 {
      RowShowsColours(c, w, colours, r, row, n - 1);
      FullPass(c, w, colours, r.x + n - 1, r.y + row);
      assert colours[k..k + n][..n - 1] == colours[k..k + n - 1];
    }
  }

  lemma {:induction false} RowsShowColours(c: Canvas, w: PanelSpec.Window, colours: seq<u16>, r: Rect, rows: nat)
    requires |c.gram| == PanelSpec.CELLS && c.cursor == PanelSpec.Home(w) && |colours| == PanelRaster.Area(w)
    requires Frames(w, r)
    requires rows <= Rows(w)
    ensures var k := rows * Cols(w);
            0 <= k <= |colours| && RowsBytes(Paint(c, colours).gram, r, rows) == LittleEndian(colours[..k])
  {
    hide PanelSpec.CellAt, Paint, RowBytes, Rows, Cols;
    if rows > 0 {
      var k := (rows - 1) * Cols(w);
      RowsShowColours(c, w, colours, r, rows - 1);
      RowShowsColours(c, w, colours, r, rows - 1, Cols(w));
      RowInside(w, colours, rows - 1, Cols(w));
      LittleEndianJoins(colours[..k], colours[k..k + Cols(w)]);
      assert colours[..k] + colours[k..k + Cols(w)] == colours[..k + Cols(w)];
    }
  }

  /**
   * A region painted by one full pass reads back as the very colours that were sent, in the order
   * they were sent; so a `region_hash` step tells whether the firmware painted the expected picture.
   */
  lemma PaintedRegionReadsBack(c: Canvas, w: PanelSpec.Window, colours: seq<u16>, r: Rect)
    requires |c.gram| == PanelSpec.CELLS && c.cursor == PanelSpec.Home(w) && |colours| == PanelRaster.Area(w)
    requires Frames(w, r)
    ensures RegionBytes(Paint(c, colours).gram, r) == LittleEndian(colours)
    ensures Fingerprint(Paint(c, colours).gram, r) == Sha256Spec.HexOf(Sha256Spec.Digest(LittleEndian(colours)))
  {
    hide Paint, Sha256Spec.HexOf, Sha256Spec.Digest;
    RowsShowColours(c, w, colours, r, Rows(w));
    assert colours[..PanelRaster.Area(w)] == colours;
  }

  // ---- Conditions on a painted screen -----------------------------------------------------

  /** A pixel test on a freshly painted window is a test on the colour that was sent for that place. */
  lemma PixelTestsPainted(c: Canvas, w: PanelSpec.Window, colours: seq<u16>, x: nat, y: nat, v: u16, obs: Observation,
                          past: History)
    requires |c.gram| == PanelSpec.CELLS && c.cursor == PanelSpec.Home(w) && |colours| == PanelRaster.Area(w)
    requires x < 320 && y < 480 && Inside(w, x, y) && obs.lcd == Some(Paint(c, colours).gram)
    ensures obs.Valid() && IndexOf(w, x, y) < |colours|
    ensures Holds(Pixel(x, y, Equals(v)), obs, past) <==> colours[IndexOf(w, x, y)] == v
    ensures Holds(Pixel(x, y, Differs(v)), obs, past) <==> colours[IndexOf(w, x, y)] != v
  {
    hide Paint, PanelSpec.CellAt, PanelRaster.Area, IndexOf, Inside;
    FullPass(c, w, colours, x, y);
  }

  /** A hash test on it is a test on the digest of the colours sent. */
  lemma HashTestsPainted(c: Canvas, w: PanelSpec.Window, colours: seq<u16>, r: Rect, digest: string, obs: Observation,
                         past: History)
    requires |c.gram| == PanelSpec.CELLS && c.cursor == PanelSpec.Home(w) && |colours| == PanelRaster.Area(w)
    requires Frames(w, r) && obs.lcd == Some(Paint(c, colours).gram)
    ensures obs.Valid()
    ensures Holds(RegionHash(r, digest), obs, past) <==>
            digest == Sha256Spec.HexOf(Sha256Spec.Digest(LittleEndian(colours)))
  {
    hide Paint, Sha256Spec.HexOf, Sha256Spec.Digest, Fingerprint, PanelRaster.Area;
    PaintedRegionReadsBack(c, w, colours, r);
  }

  // ---- Counting ---------------------------------------------------------------------------

  /** The places of n cells of a row that are not black. */
  function LitInRow(g: seq<u16>, x: nat, y: nat, n: nat): set<(nat, nat)>
    requires |g| == PanelSpec.CELLS
  {
    set i | x <= i < x + n && PanelSpec.CellAt(g, i, y) != 0 :: (i, y)
  }

  lemma {:induction false} RowCounted(g: seq<u16>, x: nat, y: nat, n: nat)
    requires |g| == PanelSpec.CELLS
    ensures RowLit(g, x, y, n) == |LitInRow(g, x, y, n)|
  {
    hide PanelSpec.CellAt;
    if n == 0 {
      assert LitInRow(g, x, y, 0) == {};
    } else {
      RowCounted(g, x, y, n - 1);
      var last := (x + n - 1, y);
      var before := LitInRow(g, x, y, n - 1);
      assert last !in before;
      assert LitInRow(g, x, y, n) == before + if PanelSpec.CellAt(g, x + n - 1, y) != 0 then {last} else {};
    }
  }

  /** The places of the cells in the first h rows of a region that are not black. */
  function LitCells(g: seq<u16>, r: Rect, h: nat): set<(nat, nat)>
    requires |g| == PanelSpec.CELLS
  {
    set i, j | r.x <= i < r.x + r.w && r.y <= j < r.y + h && PanelSpec.CellAt(g, i, j) != 0 :: (i, j)
  }

  lemma NothingCounted(g: seq<u16>, r: Rect)
    requires |g| == PanelSpec.CELLS
    ensures LitCells(g, r, 0) == {}
  {
  }

  lemma {:induction false} CellsCounted(g: seq<u16>, r: Rect, h: nat)
    requires |g| == PanelSpec.CELLS
    ensures RegionLit(g, r, h) == |LitCells(g, r, h)|
  {
    hide PanelSpec.CellAt, RowLit;
    if h == 0 {
      NothingCounted(g, r);
    } else {
      CellsCounted(g, r, h - 1);
      RowCounted(g, r.x, r.y + h - 1, r.w);
      RowJoins(g, r, h);
      hide LitCells, LitInRow;
    }
  }

  lemma RowJoins(g: seq<u16>, r: Rect, h: nat)
    requires |g| == PanelSpec.CELLS && h > 0
    ensures var above, row := LitCells(g, r, h - 1), LitInRow(g, r.x, r.y + h - 1, r.w);
            LitCells(g, r, h) == above + row && |LitCells(g, r, h)| == |above| + |row|
  {
    hide PanelSpec.CellAt;
    var above, row := LitCells(g, r, h - 1), LitInRow(g, r.x, r.y + h - 1, r.w);
    assert above !! row;
    forall c | c in LitCells(g, r, h)
      ensures c in above + row
    {
    }
  }

  /** The count test holds exactly when the number of cells that are not black is within its bounds. */
  lemma CountTestsCells(r: Rect, min: Option<nat>, max: Option<nat>, obs: Observation, past: History)
    requires obs.Valid() && obs.lcd.Some?
    ensures var lit := |LitCells(obs.lcd.value, r, r.h)|;
            Holds(RegionNonBlack(r, min, max), obs, past) <==>
            (min.Some? ==> min.value <= lit) && (max.Some? ==> lit <= max.value)
  {
    hide PanelSpec.CellAt, RegionLit, LitCells;
    CellsCounted(obs.lcd.value, r, r.h);
  }
}
