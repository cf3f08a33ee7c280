// What the mosaic's placement keeps, for every random stream: nothing leaves the grid, nothing overlaps, photo
// fragments stay over the photo, semicolons keep their margin.
module MosaicTiling {
  import opened MosaicLayout

  // fill-opacity `dist` columns left of the boundary.
  function Faded(dist: int): real {
    if dist <= 1 then 0.85 else if dist == 2 then 0.75 else if dist == 3 then 0.65 else if dist == 4 then 0.55 else 0.45
  }

  lemma FadeIs(dist: int)
    ensures FadeAt(dist) == Faded(dist)
  {
    if dist >= 5 {
      assert (Max(0, dist - 1) as real) / 4.0 >= 1.0;
    } else if dist <= 1 {
      assert Max(0, dist - 1) == 0;
    }
  }

  // A solid mark left of its row's boundary fades with its distance from it; nothing else fades.
  function FadeOf(start: int, col: int, fill: Fill): real {
    if fill == Solid && col < start then Faded(start - col) else 1.0
  }

  predicate MarkOk(m: Mark, start: seq<int>)
    requires Boundary(start)
  {
    && 0 <= m.row < ROWS && 0 <= m.col < COLS && 0 <= m.delayMs <= 240
    && m.shape != FocusComma && !m.gray && m.fill != Cutout
    // A photo fragment exactly in the photo's columns, from one column left of the row's boundary on.
    && (m.fill == Image <==> m.col >= PHOTO_START && m.col >= start[m.row] - IMAGE_REACH)
    && (m.shape != Comma ==> m.rot == R0)
    && m.fade == FadeOf(start[m.row], m.col, m.fill)
    && (m.shape == Semicolon ==>
          m.fill == Solid && 2 <= m.row <= 13 && start[m.row] - 3 <= m.col <= start[m.row] - 2)
    && Inside(Footprint(m))
    && (m.fill == Image ==> Footprint(m).left >= 2 * PHOTO_START)
  }

  ghost predicate Sound(marks: seq<Mark>, start: seq<int>)
    requires Boundary(start)
  {
    && (forall i :: 0 <= i < |marks| ==> MarkOk(marks[i], start))
    && forall i, j :: 0 <= i < j < |marks| ==> Separate(Footprint(marks[i]), Footprint(marks[j]))
  }

  // Two rectangles with room in them are separate exactly when they share no half-cell.
  lemma SeparateIff(a: Rect, b: Rect)
    requires a.height > 0 && a.width > 0 && b.height > 0 && b.width > 0
    ensures Separate(a, b) <==> forall y, x :: !(Covers(a, y, x) && Covers(b, y, x))
  {
    if !Separate(a, b) {
      assert Covers(a, Max(a.top, b.top), Max(a.left, b.left)) && Covers(b, Max(a.top, b.top), Max(a.left, b.left));
    }
  }

  // ---------- Each step keeps the tiling ----------

  // What a step may do: leave a sound layout, having only appended.
  ghost predicate Grows(s: State, t: State, start: seq<int>)
    requires Boundary(start)
  {
    Sound(t.marks, start) && s.marks <= t.marks
  }

  lemma PushSound(rand: Draws, s: State, start: seq<int>, shape: Shape, row: int, col: int, rot: Rot, fill: Fill,
      fade: real)
    requires Boundary(start) && Sound(s.marks, start)
    requires var m := Mark(shape, col, row, rot, fill, fade, false, 0);
             MarkOk(m, start) && FreeIn(s.marks, Footprint(m))
    ensures Grows(s, Pushed(rand, s, shape, row, col, rot, fill, fade), start)
  {
    var t := Pushed(rand, s, shape, row, col, rot, fill, fade);
    var m := t.marks[|s.marks|];
    DelayRange(rand(if fill == Image then s.drawn + 1 else s.drawn));
    assert m == Mark(shape, col, row, rot, fill, fade, false, m.delayMs);
    assert Footprint(m) == Footprint(Mark(shape, col, row, rot, fill, fade, false, 0));
  }

  lemma DelayRange(u: real)
    requires 0.0 <= u < 1.0
    ensures 0 <= Delay(u) <= 240
  {}

  lemma CommaSound(rand: Draws, s: State, start: seq<int>, row: int, col: int, fill: Fill, fade: real)
    requires Boundary(start) && Sound(s.marks, start) && 0 <= row < ROWS && 0 <= col < COLS && fill != Cutout
    requires fill == Image <==> col >= PHOTO_START && col >= start[row] - IMAGE_REACH
    requires fade == FadeOf(start[row], col, fill)
    ensures Grows(s, CommaPlaced(rand, s, row, col, fill, fade), start)
  {
    var order := Rotations(Keys(rand, s.drawn));
    var f := FirstFit(s.marks, order, 0, row, col, fill);
    if f < 4 {
      PushSound(rand, s.(drawn := s.drawn + 4), start, Comma, row, col, ROTATIONS[order[f]], fill, fade);
    }
  }

  lemma RaggedSound(rand: Draws, s: State, start: seq<int>, row: int, col: int)
    requires Boundary(start) && Sound(s.marks, start) && 0 <= row < ROWS && start[row] <= col < COLS
    ensures Grows(s, RaggedCell(rand, s, row, col), start)
  {
    hide Pushed, CommaPlaced;
    var fill := if col >= PHOTO_START then Image else Solid;
    var s1 := s.(drawn := s.drawn + 1);
    if rand(s.drawn) < BOUNDARY_KEEP && FreeIn(s.marks, SquareFoot(row, col)) {
      PushSound(rand, s1, start, Square, row, col, R0, fill, 1.0);
    } else if rand(s.drawn) < BOUNDARY_KEEP + BOUNDARY_COMMA {
      CommaSound(rand, s1, start, row, col, fill, 1.0);
    }
  }

  lemma ScatteredSound(rand: Draws, s: State, start: seq<int>, row: int, col: int, comma: bool, fill: Fill, fade: real)
    requires Boundary(start) && Sound(s.marks, start) && 0 <= row < ROWS && 0 <= col < COLS && fill != Cutout
    requires fill == Image <==> col >= PHOTO_START && col >= start[row] - IMAGE_REACH
    requires fade == FadeOf(start[row], col, fill)
    ensures Grows(s, Scattered(rand, s, row, col, comma, fill, fade), start)
  {
    if comma {
      hide CommaPlaced, Pushed, Sound;
      CommaSound(rand, s, start, row, col, fill, fade);
    } else if FreeIn(s.marks, SquareFoot(row, col)) {
      PushSound(rand, s, start, Square, row, col, R0, fill, fade);
    }
  }

  lemma ScatterSound(rand: Draws, s: State, start: seq<int>, row: int, col: int)
    requires Boundary(start) && Sound(s.marks, start) && 0 <= row < ROWS && 0 <= col < start[row]
    ensures Grows(s, ScatterCell(rand, s, start[row], row, col), start)
  {
    hide ScatterChance, FadeAt, Scattered, Sound;
    FadeIs(start[row] - col);
    var fill := ScatterFill(start[row], col);
    if rand(s.drawn) < ScatterChance(start[row] - col) {
      ScatteredSound(rand, s.(drawn := s.drawn + 2), start, row, col, rand(s.drawn + 1) < COMMA_WEIGHT, fill,
        if fill == Solid then FadeAt(start[row] - col) else 1.0);
    }
  }

  // The mass claims without asking: every mark so far is a square of an earlier cell.
  predicate AllBefore(marks: seq<Mark>, row: int, col: int) {
    forall i :: 0 <= i < |marks| ==>
      marks[i].shape == Square && (marks[i].row < row || (marks[i].row == row && marks[i].col < col))
  }

  lemma MassSound(rand: Draws, s: State, start: seq<int>, row: nat, col: int)
    requires Boundary(start) && Sound(s.marks, start) && row < ROWS && start[row] + BAND <= col < COLS
    requires AllBefore(s.marks, row, col)
    ensures Grows(s, CellDone(rand, Mass, s, start, row, col), start)
    ensures AllBefore(CellDone(rand, Mass, s, start, row, col).marks, row, col + 1)
  {
    PushSound(rand, s, start, Square, row, col, R0, Image, 1.0);
  }

  lemma CellSound(rand: Draws, phase: Phase, s: State, start: seq<int>, row: nat, col: int)
    requires Boundary(start) && Sound(s.marks, start) && row < ROWS
             && Lo(phase, start, row) <= col < Hi(phase, start, row)
    requires phase == Mass ==> AllBefore(s.marks, row, col)
    ensures var t := CellDone(rand, phase, s, start, row, col);
            Grows(s, t, start) && (phase == Mass ==> AllBefore(t.marks, row, col + 1))
  {
    match phase
    case Mass => MassSound(rand, s, start, row, col);
    case Ragged => RaggedSound(rand, s, start, row, col);
    case Scatter => ScatterSound(rand, s, start, row, col);
  }

  // A step's promise, by name.
  ghost predicate Holds(phase: Phase, s: State, t: State, start: seq<int>, row: int, col: int)
    requires Boundary(start)
  {
    Grows(s, t, start) && (phase == Mass ==> AllBefore(t.marks, row, col))
  }

  lemma HoldsTransitive(phase: Phase, s: State, t: State, u: State, start: seq<int>, row: int, col: int)
    requires Boundary(start) && s.marks <= t.marks && Holds(phase, t, u, start, row, col)
    ensures Holds(phase, s, u, start, row, col)
  {}

  lemma {:induction false} RowSound(rand: Draws, phase: Phase, s: State, start: seq<int>, row: nat, col: int)
    requires Boundary(start) && row < ROWS && Lo(phase, start, row) <= col
    requires Holds(phase, s, s, start, row, col)
    ensures Holds(phase, s, RowDone(rand, phase, s, start, row, col), start, row + 1, 0)
    decreases Hi(phase, start, row) - col
  {
    hide CellDone, Sound, AllBefore;
    if col < Hi(phase, start, row) {
      CellSound(rand, phase, s, start, row, col);
      var t := CellDone(rand, phase, s, start, row, col);
      RowSound(rand, phase, t, start, row, col + 1);
      HoldsTransitive(phase, s, t, RowDone(rand, phase, t, start, row, col + 1), start, row + 1, 0);
    } else if phase == Mass {
      NextRow(s.marks, start, row, col);
    }
  }

  lemma NextRow(marks: seq<Mark>, start: seq<int>, row: int, col: int)
    requires Boundary(start) && Sound(marks, start) && AllBefore(marks, row, col)
    ensures AllBefore(marks, row + 1, 0)
  {}

  lemma {:induction false} RowsSound(rand: Draws, phase: Phase, s: State, start: seq<int>, row: nat)
    requires Boundary(start) && Sound(s.marks, start)
    requires phase == Mass ==> AllBefore(s.marks, row, 0)
    ensures Grows(s, RowsDone(rand, phase, s, start, row), start)
    decreases |start| - row
  {
    if row < |start| {
      if phase == Mass {
        assert AllBefore(s.marks, row, Lo(Mass, start, row));
      }
      RowSound(rand, phase, s, start, row, Lo(phase, start, row));
      RowsSound(rand, phase, RowDone(rand, phase, s, start, row, Lo(phase, start, row)), start, row + 1);
    }
  }

  lemma SemicolonSound(rand: Draws, s: State, start: seq<int>)
    requires Boundary(start) && Sound(s.marks, start)
    ensures Grows(s, SemicolonTried(rand, s, start), start)
  {
    hide Pushed, FadeAt, Sound;
    SemicolonRowRange(rand(s.drawn));
    var row, u := SemicolonRow(rand(s.drawn)), rand(s.drawn + 1);
    var col := SemicolonCol(start[row], u);
    if FreeIn(s.marks, SemicolonFoot(row, col)) {
      FadeIs(start[row] - col);
      SemicolonOk(start, row, u, FadeAt(start[row] - col));
      PushSound(rand, s.(drawn := s.drawn + 2), start, Semicolon, row, col, R0, Solid, FadeAt(start[row] - col));
    }
  }

  lemma {:induction false} SemicolonsSound(rand: Draws, s: State, start: seq<int>, tries: nat, placed: nat)
    requires Boundary(start) && Sound(s.marks, start)
    ensures Grows(s, SemicolonsDone(rand, s, start, tries, placed), start)
    decreases TRIES - tries
  {
    if tries < TRIES && placed < SEMICOLONS {
      var t := SemicolonTried(rand, s, start);
      SemicolonSound(rand, s, start);
      SemicolonsSound(rand, t, start, tries + 1, if |t.marks| == |s.marks| then placed else placed + 1);
    }
  }

  lemma SemicolonOk(start: seq<int>, row: int, u: real, fade: real)
    requires Boundary(start) && 2 <= row < ROWS - 4 && 0.0 <= u < 1.0
             && Inside(SemicolonFoot(row, SemicolonCol(start[row], u)))
             && fade == Faded(start[row] - SemicolonCol(start[row], u))
    ensures MarkOk(Mark(Semicolon, SemicolonCol(start[row], u), row, R0, Solid, fade, false, 0), start)
  {}

  // At most three more.
  lemma {:induction false} SemicolonsFew(rand: Draws, s: State, start: seq<int>, tries: nat, placed: nat)
    requires Boundary(start) && placed <= SEMICOLONS
    ensures |SemicolonsDone(rand, s, start, tries, placed).marks| <= |s.marks| + SEMICOLONS - placed
    ensures |s.marks| <= |SemicolonsDone(rand, s, start, tries, placed).marks|
    decreases TRIES - tries
  {
    if tries < TRIES && placed < SEMICOLONS {
      var t := SemicolonTried(rand, s, start);
      SemicolonsFew(rand, t, start, tries + 1, if |t.marks| == |s.marks| then placed else placed + 1);
    }
  }

  // ---------- The whole placement ----------

  // For every random stream: every mark's claim lies inside the grid, no two claims overlap, and image marks claim only
  // half-cells over the photo.
  lemma PlacedSound(rand: Draws)
    ensures Boundary(Starts(rand)) && Sound(Placed(rand).marks, Starts(rand))
  {
    var start := Starts(rand);
    StartsBound(rand);
    var none := State([], 1 + ROWS);
    var mass := RowsDone(rand, Mass, none, start, 0);
    var ragged := RowsDone(rand, Ragged, mass, start, 0);
    RowsSound(rand, Mass, none, start, 0);
    RowsSound(rand, Ragged, mass, start, 0);
    SemicolonsSound(rand, ragged, start, 0, 0);
    RowsSound(rand, Scatter, SemicolonsDone(rand, ragged, start, 0, 0), start, 0);
  }

  // No two marks stand on one cell.
  lemma OneMarkPerCell(rand: Draws, i: nat, j: nat)
    requires i < j < |Placed(rand).marks|
    ensures SameCell(Placed(rand).marks[i], Placed(rand).marks[j]) == false
  {
    PlacedSound(rand);
    var marks := Placed(rand).marks;
    SeparateCells(marks[i], marks[j]);
  }

  predicate SameCell(a: Mark, b: Mark) {
    a.row == b.row && a.col == b.col
  }

  lemma SeparateCells(a: Mark, b: Mark)
    requires Separate(Footprint(a), Footprint(b))
    ensures !SameCell(a, b)
  {}

  // A semicolon's square, half-cell gap and comma: seven half-cells tall.
  function SemicolonGlyph(m: Mark): Rect {
    Rect(2 * m.row, 2 * m.col, 7, 2)
  }

  // No other mark's claim reaches a half-cell of a semicolon or one next to it, corners included.
  lemma SemicolonMargin(rand: Draws, i: nat, j: nat, y: int, x: int, near_y: int, near_x: int)
    requires i < |Placed(rand).marks| && j < |Placed(rand).marks| && i != j
    requires Placed(rand).marks[i].shape == Semicolon && Covers(SemicolonGlyph(Placed(rand).marks[i]), y, x)
    requires -1 <= near_y - y <= 1 && -1 <= near_x - x <= 1
    ensures !Covers(Footprint(Placed(rand).marks[j]), near_y, near_x)
  {
    PlacedSound(rand);
    var a, b := Placed(rand).marks[i], Placed(rand).marks[j];
    assert if i < j then Separate(Footprint(a), Footprint(b)) else Separate(Footprint(b), Footprint(a));
    assert Covers(Footprint(a), near_y, near_x);
  }

  // From two columns right of its boundary on, every cell of a row shows the photo.
  ghost predicate Filled(marks: seq<Mark>, row: int, col: int) {
    exists i ::
      0 <= i < |marks| && marks[i].shape == Square && marks[i].fill == Image && marks[i].row == row
      && marks[i].col == col
  }

  lemma FilledKept(marks: seq<Mark>, more: seq<Mark>, row: int, col: int)
    requires Filled(marks, row, col) && marks <= more
    ensures Filled(more, row, col)
  {
    var i :| 0 <= i < |marks| && marks[i].shape == Square && marks[i].fill == Image && marks[i].row == row
        && marks[i].col == col;
    assert more[i] == marks[i];
  }

  lemma {:induction false} MassRowFills(rand: Draws, s: State, start: seq<int>, row: nat, col: int, at: int)
    requires Boundary(start) && row < ROWS && start[row] + BAND <= col <= at < COLS
    ensures Filled(RowDone(rand, Mass, s, start, row, col).marks, row, at)
    decreases COLS - col
  {
    var t := CellDone(rand, Mass, s, start, row, col);
    if col == at {
      assert t.marks[|s.marks|].col == at;
      assert Filled(t.marks, row, at);
      MassRowAppends(rand, t, start, row, col + 1);
      FilledKept(t.marks, RowDone(rand, Mass, t, start, row, col + 1).marks, row, at);
    } else {
      MassRowFills(rand, t, start, row, col + 1, at);
    }
  }

  lemma {:induction false} MassRowAppends(rand: Draws, s: State, start: seq<int>, row: nat, col: int)
    requires Boundary(start) && row < ROWS
    ensures s.marks <= RowDone(rand, Mass, s, start, row, col).marks
    decreases COLS - col
  {
    if col < COLS {
      MassRowAppends(rand, CellDone(rand, Mass, s, start, row, col), start, row, col + 1);
    }
  }

  lemma {:induction false} MassFills(rand: Draws, s: State, start: seq<int>, row: nat, to: nat, at: int)
    requires Boundary(start) && row <= to < ROWS && start[to] + BAND <= at < COLS
    requires Sound(s.marks, start) && AllBefore(s.marks, row, 0)
    ensures Filled(RowsDone(rand, Mass, s, start, row).marks, to, at)
    decreases ROWS - row
  {
    var lo := Lo(Mass, start, row);
    var t := RowDone(rand, Mass, s, start, row, lo);
    assert AllBefore(s.marks, row, lo);
    RowSound(rand, Mass, s, start, row, lo);
    if row == to {
      MassRowFills(rand, s, start, row, lo, at);
      RowsSound(rand, Mass, t, start, row + 1);
      FilledKept(t.marks, RowsDone(rand, Mass, t, start, row + 1).marks, to, at);
    } else {
      MassFills(rand, t, start, row + 1, to, at);
    }
  }

  lemma MassIsSolid(rand: Draws, row: nat, col: int)
    requires row < ROWS && StartAt(rand, row) + BAND <= col < COLS
    ensures Filled(Placed(rand).marks, row, col)
  {
    hide CellDone, SemicolonTried, Sound, WalkAt;
    var start := Starts(rand);
    StartsBound(rand);
    var none := State([], 1 + ROWS);
    var mass := RowsDone(rand, Mass, none, start, 0);
    var ragged := RowsDone(rand, Ragged, mass, start, 0);
    var spotted := SemicolonsDone(rand, ragged, start, 0, 0);
    RowsSound(rand, Mass, none, start, 0);
    MassFills(rand, none, start, 0, row, col);
    RowsSound(rand, Ragged, mass, start, 0);
    SemicolonsSound(rand, ragged, start, 0, 0);
    RowsSound(rand, Scatter, spotted, start, 0);
    FilledKept(mass.marks, Placed(rand).marks, row, col);
  }

  // The boundary is a coastline: it moves at most one column from row to row, but for the push of the outer rows.
  lemma CoastlineContinuous(rand: Draws, row: nat)
    requires row + 1 < ROWS
    ensures -1 <= WalkAt(rand, row + 1) - WalkAt(rand, row) <= 1
    ensures StartAt(rand, row) == WalkAt(rand, row) + (if row < 2 || row >= ROWS - 2 then 1 else 0)
  {
    assert MIN_START <= WalkAt(rand, row) <= MAX_START;
  }
}
