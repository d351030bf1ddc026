/**
 The panel as a grid of characters.  The row table sends the cells of the panel to display
 data addresses; the first result says for which geometries it does so faithfully, the
 second that positioned writes then edit the grid cell by cell.
 */
module LcdGrid {
  import opened Hd44780
  import opened LcdImages
  import opened LcdCalls
  import opened LcdInit

  /** A byte as a number. */
  function Num(b: bv8): nat {
    b as nat
  }

  /** Addresses the controller has a character for in the selected line mode. */
  predicate HasCell(a: bv8, twoLines: bool) {
    if twoLines then a <= 0x27 || 0x40 <= a <= 0x67 else a <= 0x4F
  }

  /** Every cell of the panel has an address of its own, and a real one. */
  ghost predicate MapsFaithfully(cfg: Config)
    requires cfg.Valid()
  {
    && (forall c, r | r < cfg.rows && c < cfg.cols :: HasCell(CursorAddress(cfg, c, r), cfg.rows > 1))
    && (forall c, r, c', r' | r < cfg.rows && c < cfg.cols && r' < cfg.rows && c' < cfg.cols
          && CursorAddress(cfg, c, r) == CursorAddress(cfg, c', r') :: c == c' && r == r')
  }

  /** At most 80 columns on one row, 40 on two, 20 on three or four. */
  predicate FittingGeometry(cfg: Config) {
    cfg.cols <= (if cfg.rows <= 1 then 80 else if cfg.rows <= 2 then 40 else 20)
  }

  lemma AddressInPanel(cfg: Config, c: bv8, r: bv8)
    requires cfg.Valid() && FittingGeometry(cfg) && OnPanel(cfg, c, r)
    ensures CursorAddress(cfg, c, r) == RowBase(r, cfg.rows) + c
    ensures HasCell(CursorAddress(cfg, c, r), cfg.rows > 1)
  {
  }

  lemma AddressInjective(cfg: Config, c: bv8, r: bv8, c': bv8, r': bv8)
    requires cfg.Valid() && FittingGeometry(cfg) && OnPanel(cfg, c, r) && OnPanel(cfg, c', r')
    requires CursorAddress(cfg, c, r) == CursorAddress(cfg, c', r')
    ensures c == c' && r == r'
  {
  }

  /** The table is faithful for exactly these geometries; on a 40x4 panel two cells collide. */
  lemma GeometryExact(cfg: Config)
    requires cfg.Valid()
    ensures MapsFaithfully(cfg) <==> FittingGeometry(cfg)
  {
    if FittingGeometry(cfg) {
      forall c, r | OnPanel(cfg, c, r) ensures HasCell(CursorAddress(cfg, c, r), cfg.rows > 1) {
        AddressInPanel(cfg, c, r);
      }
      forall c, r, c', r' | OnPanel(cfg, c, r) && OnPanel(cfg, c', r')
        && CursorAddress(cfg, c, r) == CursorAddress(cfg, c', r') ensures c == c' && r == r'
      {
        AddressInjective(cfg, c, r, c', r');
      }
    } else if cfg.rows == 1 {
      assert OnPanel(cfg, 80, 0) && !HasCell(CursorAddress(cfg, 80, 0), false);
    } else if cfg.rows == 2 {
      assert OnPanel(cfg, 40, 0) && !HasCell(CursorAddress(cfg, 40, 0), true);
    } else {
      assert OnPanel(cfg, 20, 0) && OnPanel(cfg, 0, 2);
      assert CursorAddress(cfg, 20, 0) == CursorAddress(cfg, 0, 2);
    }
  }

  /** Forty columns on four rows, which the Kconfig range allows, is not faithful. */
  lemma FortyByFour(activeLow: bool)
    ensures !MapsFaithfully(Config(40, 4, activeLow))
  {
    hide MapsFaithfully;
    GeometryExact(Config(40, 4, activeLow));
  }

  /** The wiring of the glass: where the cell of row r and column c is stored. */
  function GlassAddress(c: bv8, r: bv8): int {
    RowStart(r) + Num(c)
  }

  function RowStart(r: bv8): int {
    if r == 0 then 0x00 else if r == 1 then 0x40 else if r == 2 then 0x14 else 0x54
  }

  /** The character shown at a cell. */
  function Shown(scr: Screen, c: bv8, r: bv8): bv8 {
    CellAt(scr.ddram, GlassAddress(c, r))
  }

  /** A text to be put on the panel at a position. */
  datatype Place = Place(col: bv8, row: bv8, text: seq<bv8>)

  predicate Fits(cfg: Config, p: Place) {
    p.row < cfg.rows && p.col < cfg.cols && Num(p.col) + |p.text| <= Num(cfg.cols)
  }

  predicate Covers(p: Place, c: bv8, r: bv8) {
    r == p.row && Num(p.col) <= Num(c) < Num(p.col) + |p.text|
  }

  type Grid = (bv8, bv8) -> bv8

  const BLANK_GRID: Grid := (c, r) => BLANK

  /** The grid with exactly the covered cells replaced. */
  function Overwrite(g: Grid, p: Place): Grid {
    (c, r) => Edited(p, c, r, g(c, r))
  }

  /** A cell after the text has been put: its character of the text if covered, else as before. */
  function Edited(p: Place, c: bv8, r: bv8, before: bv8): bv8 {
    if Covers(p, c, r) then p.text[Num(c) - Num(p.col)] else before
  }

  function OverwriteAll(g: Grid, places: seq<Place>): Grid
    decreases |places|
  {
    if places == [] then g else OverwriteAll(Overwrite(g, places[0]), places[1..])
  }

  ghost predicate Displays(scr: Screen, cfg: Config, g: Grid) {
    forall c, r | r < cfg.rows && c < cfg.cols :: Shown(scr, c, r) == g(c, r)
  }

  function PlaceCalls(places: seq<Place>): seq<Call> {
    if places == [] then []
    else [SetCursor(places[0].col, places[0].row), Write(places[0].text)] + PlaceCalls(places[1..])
  }

  /** The n cells from address a on lie on one line of display data. */
  predicate OnOneLine(a: int, n: nat, twoLines: bool) {
    if twoLines then (0 <= a && a + n <= 0x28) || (0x40 <= a && a + n <= 0x68) else 0 <= a && a + n <= 0x50
  }

  lemma NextAddress(a: bv8, twoLines: bool)
    requires OnOneLine(Num(a), 2, twoLines)
    ensures Num(AddressAfter(a, twoLines)) == Num(a) + 1
  {
    assert a < 0x7F;
  }

  lemma PutCharMoves(scr: Screen, ch: bv8, twoLines: bool, n: nat)
    requires OnOneLine(Num(scr.ac), n, twoLines) && n >= 1
    ensures n > 1 ==> Num(PutChar(scr, ch, twoLines).ac) == Num(scr.ac) + 1
    ensures n > 1 ==> OnOneLine(Num(PutChar(scr, ch, twoLines).ac), n - 1, twoLines)
  {
    if n > 1 { NextAddress(scr.ac, twoLines); }
  }

  /** Text fills consecutive addresses, as long as it stays on one line. */
  lemma {:induction false} PutTextFills(scr: Screen, s: seq<bv8>, twoLines: bool, k: int)
    requires OnOneLine(Num(scr.ac), |s|, twoLines)
    ensures CellAt(PutText(scr, s, twoLines).ddram, k)
            == if Num(scr.ac) <= k < Num(scr.ac) + |s| then s[k - Num(scr.ac)] else CellAt(scr.ddram, k)
    decreases |s|
  {
    if |s| == 1 {
      PutOneFills(scr, s, twoLines, k);
    } else if |s| > 1 {
      PutCharMoves(scr, s[0], twoLines, |s|);
      PutTextFills(PutChar(scr, s[0], twoLines), s[1..], twoLines, k);
    }
  }

  lemma PutOneFills(scr: Screen, s: seq<bv8>, twoLines: bool, k: int)
    requires |s| == 1
    ensures CellAt(PutText(scr, s, twoLines).ddram, k) == if k == Num(scr.ac) then s[0] else CellAt(scr.ddram, k)
  {
    assert PutText(scr, s, twoLines) == PutChar(scr, s[0], twoLines);
  }

  /** On a fitting panel the driver's eight-bit sum is the address of the glass. */
  lemma AddressIsGlass(cfg: Config, c: bv8, r: bv8)
    requires cfg.Valid() && FittingGeometry(cfg) && OnPanel(cfg, c, r)
    ensures Num(CursorAddress(cfg, c, r)) == GlassAddress(c, r)
  {
    AddressInPanel(cfg, c, r);
    SmallSum(RowBase(r, cfg.rows), c);
  }

  lemma CellRange(cfg: Config, c: bv8, r: bv8)
    requires cfg.Valid() && FittingGeometry(cfg) && OnPanel(cfg, c, r)
    ensures Num(c) < Num(cfg.cols) <= (if cfg.rows <= 1 then 80 else if cfg.rows <= 2 then 40 else 20)
    ensures cfg.rows <= 1 ==> r == 0
    ensures cfg.rows <= 2 ==> r <= 1
  {
  }

  lemma SmallSum(base: bv8, c: bv8)
    requires (base == 0 && c < 80) || (base == 0x40 && c < 40) || (base == 0x14 && c < 20) || (base == 0x54 && c < 20)
    ensures Num(base + c) == Num(base) + Num(c)
  {
    if base == 0x40 {
      assert Num(0x40 + c) == 0x40 + Num(c);
    } else if base == 0x14 {
      assert Num(0x14 + c) == 0x14 + Num(c);
    } else if base == 0x54 {
      assert Num(0x54 + c) == 0x54 + Num(c);
    }
  }

  /** The starts of the glass rows, and stretches of cells on them. */
  predicate IsRowStart(start: int, cols: int, twoLines: bool) {
    if start == 0 then cols <= (if twoLines then 40 else 80)
    else twoLines && (if start == 0x40 then cols <= 40 else (start == 0x14 || start == 0x54) && cols <= 20)
  }

  lemma RowsApart(start: int, col: int, n: nat, start': int, col': int, cols: int, twoLines: bool)
    requires IsRowStart(start, cols, twoLines) && IsRowStart(start', cols, twoLines)
    requires (start == 0x14 || start' == 0x14 || start == 0x54 || start' == 0x54) ==> cols <= 20
    requires 0 <= col && col + n <= cols && 0 <= col' < cols
    ensures OnOneLine(start + col, n, twoLines)
    ensures start + col <= start' + col' < start + col + n <==> start == start' && col <= col' < col + n
  {
  }

  lemma RowStarts(cfg: Config, c: bv8, r: bv8)
    requires cfg.Valid() && FittingGeometry(cfg) && OnPanel(cfg, c, r)
    ensures IsRowStart(RowStart(r), Num(cfg.cols), cfg.rows > 1)
  {
    CellRange(cfg, c, r);
  }

  lemma RowStartInjective(cfg: Config, r: bv8, r': bv8)
    requires cfg.Valid() && r < cfg.rows && r' < cfg.rows && RowStart(r) == RowStart(r')
    ensures r == r'
  {
  }

  /** A fitting text stays on its line, and covers a cell iff it fills the cell's address. */
  lemma CoversAddress(cfg: Config, p: Place, c: bv8, r: bv8)
    requires cfg.Valid() && FittingGeometry(cfg) && Fits(cfg, p) && OnPanel(cfg, c, r)
    ensures var a, k := GlassAddress(p.col, p.row), GlassAddress(c, r);
            && OnOneLine(a, |p.text|, cfg.rows > 1)
            && (Covers(p, c, r) <==> a <= k < a + |p.text|)
            && (Covers(p, c, r) ==> k - a == Num(c) - Num(p.col))
  {
    hide Num, RowStart, OnOneLine, FittingGeometry;
    RowStarts(cfg, p.col, p.row);
    RowStarts(cfg, c, r);
    CellRange(cfg, c, r);
    if RowStart(r) == RowStart(p.row) { RowStartInjective(cfg, r, p.row); }
    RowsApart(RowStart(p.row), Num(p.col), |p.text|, RowStart(r), Num(c), Num(cfg.cols), cfg.rows > 1);
  }

  lemma CellFills(scr: Screen, s: seq<bv8>, twoLines: bool, k: int, covered: bool, i: int)
    requires OnOneLine(Num(scr.ac), |s|, twoLines)
    requires covered <==> Num(scr.ac) <= k < Num(scr.ac) + |s|
    requires covered ==> k - Num(scr.ac) == i
    ensures CellAt(PutText(scr, s, twoLines).ddram, k) == if covered then s[i] else CellAt(scr.ddram, k)
  {
    PutTextFills(scr, s, twoLines, k);
  }

  lemma CellShows(cfg: Config, scr: Screen, p: Place, c: bv8, r: bv8)
    requires cfg.Valid() && FittingGeometry(cfg) && Fits(cfg, p) && OnPanel(cfg, c, r)
    requires Num(scr.ac) == GlassAddress(p.col, p.row)
    ensures Shown(PutText(scr, p.text, cfg.rows > 1), c, r) == Edited(p, c, r, Shown(scr, c, r))
  {
    hide Num, PutText, CellAt, GlassAddress, FittingGeometry, Fits, OnOneLine, Covers;
    CoversAddress(cfg, p, c, r);
    CellFills(scr, p.text, cfg.rows > 1, GlassAddress(c, r), Covers(p, c, r), Num(c) - Num(p.col));
  }

  lemma SameCell(scr: Screen, scr': Screen, c: bv8, r: bv8)
    requires scr.ddram == scr'.ddram
    ensures Shown(scr, c, r) == Shown(scr', c, r)
  {
  }

  lemma PlacedEffect(scr: Screen, cfg: Config, p: Place)
    requires cfg.Valid() && OnPanel(cfg, p.col, p.row)
    ensures Effect(Effect(scr, cfg, SetCursor(p.col, p.row)), cfg, Write(p.text))
            == PutText(scr.(ac := CursorAddress(cfg, p.col, p.row)), p.text, cfg.rows > 1)
  {
    hide CursorAddress, PutText;
  }

  /** Set cursor then write edits the grid as stated. */
  lemma PlaceShows(cfg: Config, scr: Screen, p: Place, g: Grid)
    requires cfg.Valid() && FittingGeometry(cfg) && Fits(cfg, p) && Displays(scr, cfg, g)
    ensures Displays(Effect(Effect(scr, cfg, SetCursor(p.col, p.row)), cfg, Write(p.text)), cfg, Overwrite(g, p))
  {
    hide Num, PutText, GlassAddress, FittingGeometry, Edited, Shown, CursorAddress, Effect;
    var scr1 := scr.(ac := CursorAddress(cfg, p.col, p.row));
    PlacedEffect(scr, cfg, p);
    AddressIsGlass(cfg, p.col, p.row);
    forall c, r | OnPanel(cfg, c, r)
      ensures Shown(PutText(scr1, p.text, cfg.rows > 1), c, r) == Overwrite(g, p)(c, r)
    {
      CellShows(cfg, scr1, p, c, r);
      SameCell(scr, scr1, c, r);
    }
  }

  /** Any sequence of positioned writes. */
  lemma {:induction false} PlacesShow(cfg: Config, scr: Screen, places: seq<Place>, g: Grid)
    requires cfg.Valid() && FittingGeometry(cfg) && Displays(scr, cfg, g)
    requires forall p :: p in places ==> Fits(cfg, p)
    ensures Displays(Effects(scr, cfg, PlaceCalls(places)), cfg, OverwriteAll(g, places))
    decreases |places|
  {
    if places != [] {
      var p := places[0];
      var calls := PlaceCalls(places);
      var scr1 := Effect(scr, cfg, SetCursor(p.col, p.row));
      var scr2 := Effect(scr1, cfg, Write(p.text));
      PlaceShows(cfg, scr, p, g);
      assert calls[0] == SetCursor(p.col, p.row) && calls[1] == Write(p.text);
      assert calls[1..][1..] == PlaceCalls(places[1..]);
      assert Effects(scr, cfg, calls) == Effects(scr1, cfg, calls[1..]) == Effects(scr2, cfg, calls[1..][1..]);
      PlacesShow(cfg, scr2, places[1..], Overwrite(g, p));
    }
  }

  /** From power-up to the glass: init and any positioned writes show exactly the edited blank grid. */
  lemma BootAndPlace(cfg: Config, panel: Panel, ctrl: bv8, places: seq<Place>, noise: nat -> bv8)
    requires cfg.Valid() && IsControl(ctrl) && FittingGeometry(cfg)
    requires forall p :: p in places ==> Fits(cfg, p)
    ensures var q := Feed(panel, InitImages(ctrl, cfg) + RunImages(ctrl, cfg, PlaceCalls(places)), noise);
            Displays(View(q.core), cfg, OverwriteAll(BLANK_GRID, places))
  {
    BootAndRun(cfg, panel, ctrl, PlaceCalls(places), noise);
    PlacesShow(cfg, BOOT_SCREEN, places, BLANK_GRID);
  }

  // ---- on any other geometry the screen goes wrong ----

  const MARK: bv8 := 0x58

  /** The grid a user expects of some positioned writes after init. */
  function Expected(places: seq<Place>): Grid {
    OverwriteAll(BLANK_GRID, places)
  }

  /** Every sequence of fitting writes after init shows what it should. */
  ghost predicate ShowsAll(cfg: Config)
    requires cfg.Valid()
  {
    forall places: seq<Place> | forall p :: p in places ==> Fits(cfg, p) ::
      Displays(Effects(BOOT_SCREEN, cfg, PlaceCalls(places)), cfg, Expected(places))
  }

  /** A text that fits and whose last character shows in the first column of another row. */
  function Spill(cfg: Config): Place {
    if cfg.rows > 2 then Place(20, 0, [MARK])
    else if cfg.rows == 2 then Place(39, 0, [MARK, MARK])
    else Place(79, 0, [MARK, MARK])
  }

  /** The cell it does not cover but changes. */
  function SpilledRow(cfg: Config): bv8 {
    if cfg.rows > 2 then 2 else if cfg.rows == 2 then 1 else 0
  }

  lemma OnePlace(cfg: Config, p: Place)
    requires cfg.Valid()
    ensures Effects(BOOT_SCREEN, cfg, PlaceCalls([p]))
            == Effect(Effect(BOOT_SCREEN, cfg, SetCursor(p.col, p.row)), cfg, Write(p.text))
    ensures Expected([p]) == Overwrite(BLANK_GRID, p)
  {
    hide Effect, Overwrite;
    assert [p][1..] == [] && PlaceCalls([]) == [];
    OneExpected(p);
    var scr1 := Effect(BOOT_SCREEN, cfg, SetCursor(p.col, p.row));
    var scr2 := Effect(scr1, cfg, Write(p.text));
    var calls := PlaceCalls([p]);
    assert calls == [SetCursor(p.col, p.row), Write(p.text)];
    assert calls[1..] == [Write(p.text)] && [Write(p.text)][1..] == [];
    assert Effects(scr2, cfg, []) == scr2;
    assert Effects(scr1, cfg, [Write(p.text)]) == scr2;
  }

  lemma OneExpected(p: Place)
    ensures Expected([p]) == Overwrite(BLANK_GRID, p)
  {
    hide Overwrite;
    assert [p][1..] == [];
    assert OverwriteAll(Overwrite(BLANK_GRID, p), []) == Overwrite(BLANK_GRID, p);
  }

  lemma Uncovered(p: Place, c: bv8, r: bv8)
    requires !Covers(p, c, r)
    ensures Overwrite(BLANK_GRID, p)(c, r) == BLANK
  {
    assert BLANK_GRID(c, r) == BLANK;
  }

  lemma SpillFits(cfg: Config)
    requires cfg.Valid() && !FittingGeometry(cfg)
    ensures Fits(cfg, Spill(cfg)) && OnPanel(cfg, 0, SpilledRow(cfg))
    ensures !Covers(Spill(cfg), 0, SpilledRow(cfg))
  {
  }

  lemma SpillShows(cfg: Config)
    requires cfg.Valid() && !FittingGeometry(cfg)
    ensures var p := Spill(cfg);
            Shown(Effect(Effect(BOOT_SCREEN, cfg, SetCursor(p.col, p.row)), cfg, Write(p.text)), 0, SpilledRow(cfg))
            == MARK
  {
    var p := Spill(cfg);
    var scr := Effect(BOOT_SCREEN, cfg, SetCursor(p.col, p.row));
    assert [MARK, MARK][1..] == [MARK] && [MARK][1..] == [];
    if cfg.rows > 2 {
      PutMarks(scr, cfg.rows > 1, 0x14);
    } else if cfg.rows == 2 {
      PutMarks(scr, true, 0x27);
    } else {
      PutMarks(scr, false, 0x4F);
    }
  }

  /** One mark is stored at the address; the second at the one after it. */
  lemma PutMarks(scr: Screen, twoLines: bool, a: bv8)
    requires scr.ac == a
    ensures CellAt(PutText(scr, [MARK], twoLines).ddram, a as int) == MARK
    ensures CellAt(PutText(scr, [MARK, MARK], twoLines).ddram, AddressAfter(a, twoLines) as int) == MARK
  {
    hide AddressAfter;
    var scr1 := PutChar(scr, MARK, twoLines);
    assert [MARK, MARK][1..] == [MARK] && [MARK][1..] == [];
    assert PutText(scr, [MARK], twoLines) == scr1;
    assert PutText(scr, [MARK, MARK], twoLines) == PutText(scr1, [MARK], twoLines) == PutChar(scr1, MARK, twoLines);
  }

  /** The screen shows every sequence of fitting writes correctly for exactly the fitting geometries. */
  lemma ScreenExact(cfg: Config)
    requires cfg.Valid()
    ensures ShowsAll(cfg) <==> FittingGeometry(cfg)
  {
    if FittingGeometry(cfg) {
      forall places: seq<Place> | forall p :: p in places ==> Fits(cfg, p)
        ensures Displays(Effects(BOOT_SCREEN, cfg, PlaceCalls(places)), cfg, Expected(places))
      {
        PlacesShow(cfg, BOOT_SCREEN, places, BLANK_GRID);
      }
    } else {
      SpillFails(cfg);
    }
  }

  lemma SpillFails(cfg: Config)
    requires cfg.Valid() && !FittingGeometry(cfg)
    ensures Fits(cfg, Spill(cfg))
    ensures !Displays(Effects(BOOT_SCREEN, cfg, PlaceCalls([Spill(cfg)])), cfg, Expected([Spill(cfg)]))
    ensures !ShowsAll(cfg)
  {
    var p := Spill(cfg);
    SpillFits(cfg);
    SpillShows(cfg);
    OnePlace(cfg, p);
    Uncovered(p, 0, SpilledRow(cfg));
    hide Effect, Effects, PlaceCalls, Shown, Covers, Fits, Spill, SpilledRow, Expected, Overwrite;
    assert forall x :: x in [p] ==> x == p;
  }
}
