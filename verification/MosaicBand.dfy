// The strike pass and the boundary band (apps/web/lib/mosaic-layout.ts:346): in which rows some stream strikes a mark
// of the band, though the pass means to leave it as tuned. A run that does is built in two parts: draws that fill the
// band, and, since placing reads no draw past its last, draws chosen afterwards that strike one mark of it.
module MosaicBand {
  import opened MosaicLayout
  import opened MosaicTiling
  import opened MosaicStrike

  // ---------- What is placed depends on no later draw ----------

  ghost predicate Alike(a: Draws, b: Draws, n: nat) {
    forall k: nat :: k < n ==> a(k) == b(k)
  }

  lemma {:induction false} WalkSame(a: Draws, b: Draws, row: nat)
    requires Alike(a, b, row + 2)
    ensures WalkAt(a, row) == WalkAt(b, row)
  {
    if row > 0 {
      WalkSame(a, b, row - 1);
    }
  }

  lemma StartsSame(a: Draws, b: Draws)
    requires Alike(a, b, 1 + ROWS)
    ensures Starts(a) == Starts(b)
  {
    forall row: nat | row < ROWS
      ensures StartAt(a, row) == StartAt(b, row)
    {
      WalkSame(a, b, row);
    }
  }

  lemma PushedSame(a: Draws, b: Draws, s: State, shape: Shape, row: int, col: int, rot: Rot, fill: Fill, fade: real)
    ensures s.drawn < Pushed(a, s, shape, row, col, rot, fill, fade).drawn
    ensures Alike(a, b, Pushed(a, s, shape, row, col, rot, fill, fade).drawn)
      ==> Pushed(b, s, shape, row, col, rot, fill, fade) == Pushed(a, s, shape, row, col, rot, fill, fade)
  {}

  lemma CommaSame(a: Draws, b: Draws, s: State, row: int, col: int, fill: Fill, fade: real)
    ensures s.drawn < CommaPlaced(a, s, row, col, fill, fade).drawn
    ensures Alike(a, b, CommaPlaced(a, s, row, col, fill, fade).drawn)
      ==> CommaPlaced(b, s, row, col, fill, fade) == CommaPlaced(a, s, row, col, fill, fade)
  {
    hide Pushed, FirstFit, Rotations;
    var order := Rotations(Keys(a, s.drawn));
    var f := FirstFit(s.marks, order, 0, row, col, fill);
    if f < |order| {
      PushedSame(a, b, s.(drawn := s.drawn + 4), Comma, row, col, ROTATIONS[order[f]], fill, fade);
    }
    assert Alike(a, b, s.drawn + 4) ==> Keys(a, s.drawn) == Keys(b, s.drawn);
  }

  lemma RaggedSame(a: Draws, b: Draws, s: State, row: int, col: int)
    ensures s.drawn < RaggedCell(a, s, row, col).drawn
    ensures Alike(a, b, RaggedCell(a, s, row, col).drawn) ==> RaggedCell(b, s, row, col) == RaggedCell(a, s, row, col)
  {
    hide Pushed, CommaPlaced;
    var fill := if col >= PHOTO_START then Image else Solid;
    PushedSame(a, b, s.(drawn := s.drawn + 1), Square, row, col, R0, fill, 1.0);
    CommaSame(a, b, s.(drawn := s.drawn + 1), row, col, fill, 1.0);
  }

  lemma ScatteredSame(a: Draws, b: Draws, s: State, row: int, col: int, comma: bool, fill: Fill, fade: real)
    ensures s.drawn <= Scattered(a, s, row, col, comma, fill, fade).drawn
    ensures Alike(a, b, Scattered(a, s, row, col, comma, fill, fade).drawn)
      ==> Scattered(b, s, row, col, comma, fill, fade) == Scattered(a, s, row, col, comma, fill, fade)
  {
    hide Pushed, CommaPlaced;
    PushedSame(a, b, s, Square, row, col, R0, fill, fade);
    CommaSame(a, b, s, row, col, fill, fade);
  }

  lemma ScatterSame(a: Draws, b: Draws, s: State, start: int, row: int, col: int)
    requires col < start
    ensures s.drawn < ScatterCell(a, s, start, row, col).drawn
    ensures Alike(a, b, ScatterCell(a, s, start, row, col).drawn)
      ==> ScatterCell(b, s, start, row, col) == ScatterCell(a, s, start, row, col)
  {
    hide Scattered, ScatterChance, ScatterFill, FadeAt;
    var fill := ScatterFill(start, col);
    ScatteredSame(a, b, s.(drawn := s.drawn + 2), row, col, a(s.drawn + 1) < COMMA_WEIGHT, fill,
      if fill == Solid then FadeAt(start - col) else 1.0);
  }

  lemma CellSame(a: Draws, b: Draws, phase: Phase, s: State, start: seq<int>, row: nat, col: int)
    requires row < |start| && col < Hi(phase, start, row)
    ensures s.drawn < CellDone(a, phase, s, start, row, col).drawn
    ensures Alike(a, b, CellDone(a, phase, s, start, row, col).drawn)
      ==> CellDone(b, phase, s, start, row, col) == CellDone(a, phase, s, start, row, col)
  {
    hide Pushed, RaggedCell, ScatterCell;
    match phase
    case Mass => PushedSame(a, b, s, Square, row, col, R0, Image, 1.0);
    case Ragged => RaggedSame(a, b, s, row, col);
    case Scatter => ScatterSame(a, b, s, start[row], row, col);
  }

  lemma {:induction false} RowSame(a: Draws, b: Draws, phase: Phase, s: State, start: seq<int>, row: nat, col: int)
    requires row < |start|
    ensures s.drawn <= RowDone(a, phase, s, start, row, col).drawn
    ensures Alike(a, b, RowDone(a, phase, s, start, row, col).drawn)
      ==> RowDone(b, phase, s, start, row, col) == RowDone(a, phase, s, start, row, col)
    decreases Hi(phase, start, row) - col
  {
    hide CellDone;
    if col < Hi(phase, start, row) {
      CellSame(a, b, phase, s, start, row, col);
      RowSame(a, b, phase, CellDone(a, phase, s, start, row, col), start, row, col + 1);
    }
  }

  lemma {:induction false} RowsSame(a: Draws, b: Draws, phase: Phase, s: State, start: seq<int>, row: nat)
    ensures s.drawn <= RowsDone(a, phase, s, start, row).drawn
    ensures Alike(a, b, RowsDone(a, phase, s, start, row).drawn)
      ==> RowsDone(b, phase, s, start, row) == RowsDone(a, phase, s, start, row)
    decreases |start| - row
  {
    if row < |start| {
      hide RowDone;
      var lo := Lo(phase, start, row);
      RowSame(a, b, phase, s, start, row, lo);
      RowsSame(a, b, phase, RowDone(a, phase, s, start, row, lo), start, row + 1);
    }
  }

  lemma TriedSame(a: Draws, b: Draws, s: State, start: seq<int>)
    requires Boundary(start)
    ensures s.drawn < SemicolonTried(a, s, start).drawn
    ensures Alike(a, b, SemicolonTried(a, s, start).drawn) ==>
        SemicolonTried(b, s, start) == SemicolonTried(a, s, start)
  {
    hide Pushed, FadeAt;
    SemicolonRowRange(a(s.drawn));
    var row := SemicolonRow(a(s.drawn));
    var col := SemicolonCol(start[row], a(s.drawn + 1));
    PushedSame(a, b, s.(drawn := s.drawn + 2), Semicolon, row, col, R0, Solid, FadeAt(start[row] - col));
  }

  lemma {:induction false} SemicolonsSame(a: Draws, b: Draws, s: State, start: seq<int>, tries: nat, placed: nat)
    requires Boundary(start)
    ensures s.drawn <= SemicolonsDone(a, s, start, tries, placed).drawn
    ensures Alike(a, b, SemicolonsDone(a, s, start, tries, placed).drawn)
      ==> SemicolonsDone(b, s, start, tries, placed) == SemicolonsDone(a, s, start, tries, placed)
    decreases TRIES - tries
  {
    hide SemicolonTried, SemicolonsDone, Alike, Boundary;
    var t := SemicolonTried(a, s, start);
    var more := if |t.marks| == |s.marks| then placed else placed + 1;
    SemicolonsFrom(a, s, start, tries, placed);
    SemicolonsFrom(b, s, start, tries, placed);
    if tries < TRIES && placed < SEMICOLONS {
      TriedSame(a, b, s, start);
      SemicolonsSame(a, b, t, start, tries + 1, more);
      AlikeBefore(a, b, t.drawn, SemicolonsDone(a, t, start, tries + 1, more).drawn);
    }
  }

  lemma SemicolonsFrom(rand: Draws, s: State, start: seq<int>, tries: nat, placed: nat)
    requires Boundary(start)
    ensures var t := SemicolonTried(rand, s, start);
            SemicolonsDone(rand, s, start, tries, placed)
              == if tries >= TRIES || placed >= SEMICOLONS then s
                else SemicolonsDone(rand, t, start, tries + 1, if |t.marks| == |s.marks| then placed else placed + 1)
  {}

  lemma AlikeBefore(a: Draws, b: Draws, m: nat, n: nat)
    requires m <= n
    ensures Alike(a, b, n) ==> Alike(a, b, m)
  {}

  // Streams that agree on every draw the placing made place the same marks.
  lemma PlacedSame(a: Draws, b: Draws)
    ensures 1 + ROWS <= Placed(a).drawn
    ensures Alike(a, b, Placed(a).drawn) ==> Placed(b) == Placed(a)
  {
    hide RowsDone, SemicolonsDone, WalkAt, StartAt;
    var start := Starts(a);
    StartsBound(a);
    var none := State([], 1 + ROWS);
    var mass := RowsDone(a, Mass, none, start, 0);
    var ragged := RowsDone(a, Ragged, mass, start, 0);
    var spotted := SemicolonsDone(a, ragged, start, 0, 0);
    RowsSame(a, b, Mass, none, start, 0);
    RowsSame(a, b, Ragged, mass, start, 0);
    SemicolonsSame(a, b, ragged, start, 0, 0);
    RowsSame(a, b, Scatter, spotted, start, 0);
    if Alike(a, b, Placed(a).drawn) {
      StartsSame(a, b);
    }
  }

  // ---------- Draws that fill the band ----------

  // Every mark a square, of the mass or of a cell of the band before this one.
  predicate Squares(marks: seq<Mark>, start: seq<int>, row: int, col: int)
    requires Boundary(start)
  {
    forall i :: 0 <= i < |marks| ==> SquareBefore(marks[i], start, row, col)
  }

  predicate SquareBefore(m: Mark, start: seq<int>, row: int, col: int)
    requires Boundary(start)
  {
    && m.shape == Square && 0 <= m.row < ROWS
    && (m.col >= start[m.row] + BAND || m.row < row || (m.row == row && m.col < col))
  }

  lemma {:induction false} MassRowSquares(rand: Draws, s: State, start: seq<int>, row: nat, col: int)
    requires Boundary(start) && row < ROWS && start[row] + BAND <= col && Squares(s.marks, start, 0, 0)
    ensures Squares(RowDone(rand, Mass, s, start, row, col).marks, start, 0, 0)
    decreases COLS - col
  {
    if col < COLS {
      MassRowSquares(rand, CellDone(rand, Mass, s, start, row, col), start, row, col + 1);
    }
  }

  lemma {:induction false} MassSquares(rand: Draws, s: State, start: seq<int>, row: nat)
    requires Boundary(start) && Squares(s.marks, start, 0, 0)
    ensures Squares(RowsDone(rand, Mass, s, start, row).marks, start, 0, 0)
    decreases ROWS - row
  {
    if row < ROWS {
      var lo := Lo(Mass, start, row);
      MassRowSquares(rand, s, start, row, lo);
      MassSquares(rand, RowDone(rand, Mass, s, start, row, lo), start, row + 1);
    }
  }

  // Every draw after the walk's is zero.
  ghost predicate Low(rand: Draws) {
    forall n: nat :: n >= 1 + ROWS ==> rand(n) == 0.0
  }

  lemma BandCellFills(rand: Draws, s: State, start: seq<int>, row: nat, col: int)
    requires Low(rand) && s.drawn >= 1 + ROWS && Boundary(start) && row < ROWS
    requires start[row] <= col < start[row] + BAND && Squares(s.marks, start, row, col)
    ensures var t := RaggedCell(rand, s, row, col);
            && t.drawn >= 1 + ROWS && s.marks <= t.marks && Squares(t.marks, start, row, col + 1)
            && (col >= PHOTO_START ==> Filled(t.marks, row, col))
  {
    forall i | 0 <= i < |s.marks|
      ensures Separate(Footprint(s.marks[i]), SquareFoot(row, col))
    {
      assert SquareBefore(s.marks[i], start, row, col);
    }
    var t := RaggedCell(rand, s, row, col);
    assert t.marks[|s.marks|].row == row && t.marks[|s.marks|].col == col && t.marks[|s.marks|].shape == Square;
    hide RaggedCell, FreeIn;
    forall i | 0 <= i < |t.marks|
      ensures SquareBefore(t.marks[i], start, row, col + 1)
    {
      if i < |s.marks| {
        assert SquareBefore(s.marks[i], start, row, col);
      }
    }
  }

  lemma {:induction false} BandRowFills(rand: Draws, s: State, start: seq<int>, row: nat, col: int, at: int)
    requires Low(rand) && s.drawn >= 1 + ROWS && Boundary(start) && row < ROWS
    requires start[row] <= col && Squares(s.marks, start, row, col)
    requires PHOTO_START <= at && col <= at ==> at < start[row] + BAND
    ensures var t := RowDone(rand, Ragged, s, start, row, col);
            && t.drawn >= 1 + ROWS && s.marks <= t.marks && Squares(t.marks, start, row + 1, 0)
            && (PHOTO_START <= at && col <= at ==> Filled(t.marks, row, at))
    decreases start[row] + BAND - col
  {
    hide RaggedCell, Squares, Filled, Low;
    if col < start[row] + BAND {
      BandCellFills(rand, s, start, row, col);
      var t := CellDone(rand, Ragged, s, start, row, col);
      BandRowFills(rand, t, start, row, col + 1, at);
      if col == at && PHOTO_START <= at {
        FilledKept(t.marks, RowDone(rand, Ragged, t, start, row, col + 1).marks, row, at);
      }
    } else {
      NextBandRow(s.marks, start, row, col);
    }
  }

  lemma NextBandRow(marks: seq<Mark>, start: seq<int>, row: int, col: int)
    requires Boundary(start) && Squares(marks, start, row, col)
    ensures Squares(marks, start, row + 1, 0)
  {
    assert forall i :: 0 <= i < |marks| ==> SquareBefore(marks[i], start, row, col);
  }

  lemma {:induction false} BandFills(rand: Draws, s: State, start: seq<int>, row: nat, to: nat, at: int)
    requires Low(rand) && s.drawn >= 1 + ROWS && Boundary(start) && row <= to < ROWS && Squares(s.marks, start, row, 0)
    requires PHOTO_START <= at && start[to] <= at < start[to] + BAND
    requires Sound(s.marks, start)
    ensures Filled(RowsDone(rand, Ragged, s, start, row).marks, to, at)
    decreases ROWS - row
  {
    hide RowDone, Squares, Filled, Sound;
    var lo := Lo(Ragged, start, row);
    var t := RowDone(rand, Ragged, s, start, row, lo);
    SquaresFrom(s.marks, start, row, lo);
    BandRowFills(rand, s, start, row, lo, if row == to then at else PHOTO_START - 1);
    RowSound(rand, Ragged, s, start, row, lo);
    if row == to {
      RowsSound(rand, Ragged, t, start, row + 1);
      FilledKept(t.marks, RowsDone(rand, Ragged, t, start, row + 1).marks, to, at);
    } else {
      BandFills(rand, t, start, row + 1, to, at);
    }
  }

  lemma SquaresFrom(marks: seq<Mark>, start: seq<int>, row: int, col: int)
    requires Boundary(start) && Squares(marks, start, row, 0) && col >= 0
    ensures Squares(marks, start, row, col)
  {
    assert forall i :: 0 <= i < |marks| ==> SquareBefore(marks[i], start, row, 0);
  }

  // With zeros after the walk, every cell of the band over the photo holds an image square.
  lemma BandIsSolid(rand: Draws, row: nat, col: int)
    requires Low(rand) && row < ROWS && PHOTO_START <= col && StartAt(rand, row) <= col < StartAt(rand, row) + BAND
    ensures Filled(Placed(rand).marks, row, col)
  {
    hide CellDone, SemicolonTried, Sound, WalkAt, Squares;
    var start := Starts(rand);
    StartsBound(rand);
    var none := State([], 1 + ROWS);
    var mass := RowsDone(rand, Mass, none, start, 0);
    var ragged := RowsDone(rand, Ragged, mass, start, 0);
    var spotted := SemicolonsDone(rand, ragged, start, 0, 0);
    NoSquares(start);
    MassSquares(rand, none, start, 0);
    RowsSame(rand, rand, Mass, none, start, 0);
    RowsSound(rand, Mass, none, start, 0);
    BandFills(rand, mass, start, 0, row, col);
    RowsSound(rand, Ragged, mass, start, 0);
    SemicolonsSound(rand, ragged, start, 0, 0);
    RowsSound(rand, Scatter, spotted, start, 0);
    FilledKept(ragged.marks, Placed(rand).marks, row, col);
  }

  lemma NoSquares(start: seq<int>)
    requires Boundary(start)
    ensures Squares([], start, 0, 0)
  {}

  // ---------- Draws that strike one mark alone ----------

  function Count(marks: seq<Mark>, i: nat): nat
    requires i <= |marks|
  {
    if i == 0 then 0 else Count(marks, i - 1) + if Strikable(marks[i - 1]) then 1 else 0
  }

  lemma LiftSmall(m: Mark)
    ensures 0.0 <= Lift(m) <= 0.2
  {
    assert EdgeLift(0) == 0.2 && EdgeLift(1) == 0.1 && EdgeLift(2) == 0.05;
  }

  lemma {:induction false} CountGrows(marks: seq<Mark>, i: nat, j: nat)
    requires i <= j <= |marks|
    ensures Count(marks, i) <= Count(marks, j)
  {
    if i < j {
      CountGrows(marks, i, j - 1);
    }
  }

  lemma HighSpares(rand: Draws, marks: seq<Mark>, drawn: nat, i: nat)
    requires i < |marks| && (Strikable(marks[i]) ==> rand(drawn) == 0.9)
    ensures StrikeAt(rand, Strikes(marks, [], {}, drawn), i)
         == Strikes(marks, [], {}, drawn + if Strikable(marks[i]) then 1 else 0)
  {
    hide Strikable, Lift;
    LiftSmall(marks[i]);
    assert !Crowded({}, CellOf(marks[i]));
  }

  lemma LowStrikes(rand: Draws, marks: seq<Mark>, drawn: nat, i: nat)
    requires i < |marks| && Strikable(marks[i]) && rand(drawn) == 0.0
    ensures var t := StrikeAt(rand, Strikes(marks, [], {}, drawn), i);
            t.struck == [i] && |t.marks| == |marks| && t.marks[i] == Restruck(marks[i], rand(drawn + 1))
  {
    hide Strikable, Lift;
    LiftSmall(marks[i]);
    assert !Crowded({}, CellOf(marks[i]));
  }

  // High draws strike nothing, one draw for each mark that could be struck.
  lemma {:induction false} QuietUntil(rand: Draws, marks: seq<Mark>, drawn: nat, i: nat, j: nat)
    requires i <= j <= |marks| && Count(marks, i) <= Count(marks, j)
    requires forall n: nat :: drawn <= n < drawn + Count(marks, j) - Count(marks, i) ==> rand(n) == 0.9
    ensures StrikeFrom(rand, Strikes(marks, [], {}, drawn), i)
         == StrikeFrom(rand, Strikes(marks, [], {}, drawn + Count(marks, j) - Count(marks, i)), j)
    decreases j - i
  {
    hide Strikable, Lift, StrikeAt;
    if i < j {
      CountGrows(marks, i + 1, j);
      HighSpares(rand, marks, drawn, i);
      QuietUntil(rand, marks, drawn + if Strikable(marks[i]) then 1 else 0, i + 1, j);
    }
  }

  // The pass goes on from a mark: what was struck before it stays struck, as it was.
  lemma {:induction false} StruckGrows(rand: Draws, s: Strikes, i: nat)
    requires i <= |s.marks|
    ensures var t := StrikeFrom(rand, s, i);
            s.struck <= t.struck && |t.marks| == |s.marks| && t.marks[..i] == s.marks[..i]
    decreases |s.marks| - i
  {
    if i < |s.marks| {
      StruckGrows(rand, StrikeAt(rand, s, i), i + 1);
    }
  }

  lemma NoneCounted(marks: seq<Mark>)
    ensures Count(marks, 0) == 0
  {}

  lemma StruckThere(rand: Draws, marks: seq<Mark>, drawn: nat, j: nat)
    requires j < |marks| && Strikable(marks[j]) && rand(drawn + Count(marks, j)) == 0.0
    requires forall n: nat :: drawn <= n < drawn + Count(marks, j) ==> rand(n) == 0.9
    ensures var t := StrikeFrom(rand, Strikes(marks, [], {}, drawn), 0);
            && t.struck != [] && t.struck[0] == j && |t.marks| == |marks|
            && t.marks[j] == Restruck(marks[j], rand(drawn + Count(marks, j) + 1))
  {
    hide Strikable, StrikeAt;
    NoneCounted(marks);
    CountGrows(marks, 0, j);
    QuietUntil(rand, marks, drawn, 0, j);
    LowStrikes(rand, marks, drawn + Count(marks, j), j);
    var t := StrikeAt(rand, Strikes(marks, [], {}, drawn + Count(marks, j)), j);
    StruckGrows(rand, t, j + 1);
    var end := StrikeFrom(rand, t, j + 1);
    assert end.struck[0] == j && end.marks[..j + 1][j] == t.marks[..j + 1][j];
  }

  // ---------- Which rows' bands are spared ----------

  predicate InBand(m: Mark, start: seq<int>, row: nat)
    requires row < |start|
  {
    m.row == row && start[row] <= m.col < start[row] + BAND
  }

  // The stream's own run strikes a mark of the row's band.
  ghost predicate BandHit(rand: Draws, row: nat)
    requires row < ROWS
  {
    exists i ::
      0 <= i < |Placed(rand).marks| && i in Struck(rand).struck && InBand(Placed(rand).marks[i], Starts(rand), row)
  }

  // Where the row's boundary is at most column 5, no stream's run strikes its band.
  lemma BandSpared(rand: Draws, row: nat)
    requires row < ROWS && Starts(rand)[row] <= PHOTO_START
    ensures !BandHit(rand, row)
  {
    StruckKeeps(rand);
    hide StrikeFrom, Placed, NearFocus, Struck;
    forall i | 0 <= i < |Placed(rand).marks| && i in Struck(rand).struck
      ensures !InBand(Placed(rand).marks[i], Starts(rand), row)
    {
      var k :| 0 <= k < |Struck(rand).struck| && Struck(rand).struck[k] == i;
      assert Turned(Placed(rand).marks[i], Struck(rand).marks[i]);
    }
  }

  function Lowered(rand: Draws): Draws {
    (n: nat) => if n < 1 + ROWS then rand(n) else 0.0
  }

  // `rand`, then one low draw among high ones.
  function Aimed(rand: Draws, placed: nat, at: nat): Draws {
    (n: nat) => if n < placed then rand(n) else if n == at then 0.0 else 0.9
  }

  // Where it is pushed to column 6, some stream with the same walk strikes the band's second square.
  lemma BandCanBeStruck(rand: Draws, row: nat) returns (other: Draws)
    requires row < ROWS && Starts(rand)[row] == PHOTO_START + 1
    ensures Alike(rand, other, 1 + ROWS) && BandHit(other, row)
  {
    hide Placed, WalkAt, StrikeFrom, Count;
    var low := Lowered(rand);
    StartsSame(rand, low);
    assert Starts(low)[row] == StartAt(low, row);
    BandIsSolid(low, row, 7);
    var marks, drawn := Placed(low).marks, Placed(low).drawn;
    var j: nat :| j < |marks| && marks[j].shape == Square && marks[j].fill == Image && marks[j].row == row
        && marks[j].col == 7;
    other := Aimed(low, drawn, drawn + Count(marks, j));
    PlacedSame(low, other);
    StartsSame(low, other);
    SevenIsClear(row);
    StruckThere(other, marks, drawn, j);
    assert Placed(other) == Placed(low);
    assert InBand(marks[j], Starts(other), row);
  }

  lemma SevenIsClear(row: int)
    ensures !NearFocus(7, row)
  {}

  // So a row's band is spared by every stream with its walk if and only if its boundary is at most column 5.
  lemma BandSparedIff(rand: Draws, row: nat)
    requires row < ROWS
    ensures Starts(rand)[row] <= PHOTO_START
       <==> forall other: Draws :: Alike(rand, other, 1 + ROWS) ==> !BandHit(other, row)
  {
    hide Placed, WalkAt, BandHit;
    StartsBound(rand);
    if Starts(rand)[row] <= PHOTO_START {
      forall other: Draws | Alike(rand, other, 1 + ROWS)
        ensures !BandHit(other, row)
      {
        StartsSame(rand, other);
        BandSpared(other, row);
      }
    } else {
      var other := BandCanBeStruck(rand, row);
    }
  }

  // And such a walk there is: from a first draw of 0.9 on, the top row's boundary is column 6.
  lemma SomeBandIsStruck()
    ensures exists rand: Draws :: BandHit(rand, 0)
  {
    var high: Draws := _ => 0.9;
    assert FirstStart(high(0)) == 5 && StepOf(high(1)) == 1;
    assert WalkAt(high, 0) == 5;
    assert Starts(high)[0] == StartAt(high, 0) == PHOTO_START + 1;
    hide BandHit;
    var other := BandCanBeStruck(high, 0);
  }

  // ---------- A tail off the grid ----------

  // The tail of one of the run's struck commas leaves the grid.
  ghost predicate TailLeaves(rand: Draws) {
    exists k :: 0 <= k < |Struck(rand).struck| && Struck(rand).struck[k] < |Struck(rand).marks|
        && !Inside(Footprint(Struck(rand).marks[Struck(rand).struck[k]]))
  }

  lemma CornerIsStrikable(m: Mark)
    requires m.shape == Square && m.fill == Image && m.row == 0 && m.col == COLS - 1
    ensures Strikable(m) && !Inside(Footprint(Restruck(m, 0.9)))
  {
    assert (0.9 * 4.0).Floor == 3;
  }

  // Whatever is placed, some strike draws after it turn the top right square's tail off the right edge.
  lemma TailCanLeave(rand: Draws) returns (other: Draws)
    ensures Placed(other) == Placed(rand) && TailLeaves(other)
  {
    var j := TopRight(rand);
    hide *;
    var marks, drawn := Placed(rand).marks, Placed(rand).drawn;
    other := Aimed(rand, drawn, drawn + Count(marks, j));
    AimedIs(rand, drawn, drawn + Count(marks, j));
    PlacedSame(rand, other);
    CornerIsStrikable(marks[j]);
    StruckThere(other, marks, drawn, j);
    StruckIs(other);
    FirstTailLeaves(other);
  }

  lemma TopRight(rand: Draws) returns (j: nat)
    ensures j < |Placed(rand).marks|
    ensures var m := Placed(rand).marks[j]; m.shape == Square && m.fill == Image && m.row == 0 && m.col == COLS - 1
  {
    StartsBound(rand);
    assert StartAt(rand, 0) == Starts(rand)[0];
    MassIsSolid(rand, 0, COLS - 1);
    hide Placed, StartAt;
    var marks := Placed(rand).marks;
    assert Filled(marks, 0, COLS - 1);
    j :| j < |marks| && marks[j].shape == Square && marks[j].fill == Image && marks[j].row == 0
        && marks[j].col == COLS - 1;
  }

  lemma AimedIs(rand: Draws, placed: nat, at: nat)
    ensures var other := Aimed(rand, placed, at);
            && Alike(rand, other, placed) && (at >= placed ==> other(at) == 0.0)
            && (forall n: nat :: placed <= n < at ==> other(n) == 0.9) && (at >= placed ==> other(at + 1) == 0.9)
  {}

  lemma StruckIs(rand: Draws)
    ensures Struck(rand) == StrikeFrom(rand, Strikes(Placed(rand).marks, [], {}, Placed(rand).drawn), 0)
  {}

  lemma FirstTailLeaves(rand: Draws)
    requires var s := Struck(rand);
             s.struck != [] && s.struck[0] < |s.marks| && !Inside(Footprint(s.marks[s.struck[0]]))
    ensures TailLeaves(rand)
  {}
}
