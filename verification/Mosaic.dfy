// The mosaic as it is computed (apps/web/lib/mosaic-layout.ts): an occupancy grid of half-cells, a list of marks and a
// random stream, changed in place. It refines `MosaicLayout` and `MosaicStrike`: the same draws, the same marks.
module Mosaic {
  import opened MosaicLayout
  import opened MosaicTiling
  import opened MosaicStrike

  // ---------- Grid and rectangles agree ----------

  ghost predicate Shows(marks: seq<Mark>, y: int, x: int, occupied: bool) {
    occupied == Covered(marks, y, x)
  }

  // Looking at a rectangle's half-cells decides whether it is separate from every claim.
  lemma LookIsCompare(marks: seq<Mark>, a: Rect)
    requires Inside(a) && a.height > 0 && a.width > 0
    ensures FreeIn(marks, a) <==> forall y, x :: Covers(a, y, x) ==> !Covered(marks, y, x)
  {
    if forall y, x :: Covers(a, y, x) ==> !Covered(marks, y, x) {
      forall i | 0 <= i < |marks|
        ensures Separate(Footprint(marks[i]), a)
      {
        var b := Footprint(marks[i]);
        if !Separate(b, a) {
          var y, x := Max(a.top, b.top), Max(a.left, b.left);
          assert Covers(a, y, x) && Covers(b, y, x);
        }
      }
    }
  }

  lemma CoveredByOneMore(marks: seq<Mark>, m: Mark, y: int, x: int)
    ensures Covered(marks + [m], y, x) <==> Covered(marks, y, x) || Covers(Footprint(m), y, x)
  {
    var more := marks + [m];
    if Covers(Footprint(m), y, x) {
      assert Covers(Footprint(more[|marks|]), y, x);
    }
    if Covered(marks, y, x) {
      var i :| 0 <= i < |marks| && Covers(Footprint(marks[i]), y, x);
      assert Covers(Footprint(more[i]), y, x);
    }
  }

  lemma FreeInside(marks: seq<Mark>, a: Rect)
    requires FreeIn(marks, a)
    ensures Inside(a)
  {}

  lemma SquareInside(marks: seq<Mark>, row: int, col: int, fill: Fill, fade: real)
    requires FreeIn(marks, SquareFoot(row, col))
    ensures Inside(Footprint(Mark(Square, col, row, R0, fill, fade, false, 0)))
  {}

  lemma CommaFits(marks: seq<Mark>, rot: Rot, row: int, col: int, fill: Fill, fade: real)
    requires Fits(marks, rot, row, col, fill)
    ensures Inside(Footprint(Mark(Comma, col, row, rot, fill, fade, false, 0)))
  {}

  lemma PushedOne(rand: Draws, s: State, shape: Shape, row: int, col: int, rot: Rot, fill: Fill, fade: real)
    ensures |Pushed(rand, s, shape, row, col, rot, fill, fade).marks| == |s.marks| + 1
  {}

  class Layout {
    const rand: Draws
    const occ: array2<bool>
    var drawn: nat
    var marks: seq<Mark>

    ghost predicate Valid()
      reads this, occ
    {
      && occ.Length0 == 2 * ROWS && occ.Length1 == 2 * COLS
      && forall y, x :: 0 <= y < 2 * ROWS && 0 <= x < 2 * COLS ==> Shows(marks, y, x, occ[y, x])
    }

    constructor (rand: Draws)
      ensures Valid() && State(marks, drawn) == State([], 0) && this.rand == rand && fresh(occ)
    {
      this.rand := rand;
      occ := new bool[2 * ROWS, 2 * COLS]((_, _) => false);
      drawn, marks := 0, [];
    }

    method Draw() returns (u: real)
      modifies this`drawn
      ensures u == rand(old(drawn)) && drawn == old(drawn) + 1
    {
      u := rand(drawn);
      drawn := drawn + 1;
    }

    method Free(a: Rect) returns (free: bool)
      requires Valid() && a.height > 0 && a.width > 0
      ensures free == FreeIn(marks, a)
    {
      if a.top < 0 || a.left < 0 || a.top + a.height > 2 * ROWS || a.left + a.width > 2 * COLS {
        return false;
      }
      LookIsCompare(marks, a);
      for y := a.top to a.top + a.height
        invariant forall y', x :: Covers(a, y', x) && y' < y ==> !Covered(marks, y', x)
      {
        for x := a.left to a.left + a.width
          invariant forall y', x' :: Covers(a, y', x') && (y' < y || (y' == y && x' < x)) ==> !Covered(marks, y', x')
        {
          assert Shows(marks, y, x, occ[y, x]);
          if occ[y, x] {
            assert Covers(a, y, x);
            return false;
          }
        }
      }
      return true;
    }

    method Claim(a: Rect)
      requires Inside(a) && a.height > 0 && a.width > 0 && occ.Length0 == 2 * ROWS && occ.Length1 == 2 * COLS
      modifies occ
      ensures forall y, x :: 0 <= y < 2 * ROWS && 0 <= x < 2 * COLS ==> occ[y, x] == (old(occ[y, x]) || Covers(a, y, x))
    {
      for y := a.top to a.top + a.height
        invariant forall y', x :: 0 <= y' < 2 * ROWS && 0 <= x < 2 * COLS ==>
          occ[y', x] == (old(occ[y', x]) || (Covers(a, y', x) && y' < y))
      {
        for x := a.left to a.left + a.width
          invariant forall y', x' :: 0 <= y' < 2 * ROWS && 0 <= x' < 2 * COLS ==>
            occ[y', x'] == (old(occ[y', x']) || (Covers(a, y', x') && (y' < y || (y' == y && x' < x))))
        {
          occ[y, x] := true;
        }
      }
    }

    // `claim`, then `marks.push` with the draws its fields make.
    method Put(shape: Shape, row: int, col: int, rot: Rot, fill: Fill, fade: real)
      requires Valid() && Inside(Footprint(Mark(shape, col, row, rot, fill, fade, false, 0)))
      modifies this, occ
      ensures Valid() && State(marks, drawn)
          == Pushed(rand, State(old(marks), old(drawn)), shape, row, col, rot, fill, fade)
    {
      var a := Footprint(Mark(shape, col, row, rot, fill, fade, false, 0));
      Claim(a);
      var gray := false;
      if fill == Image {
        var u := Draw();
        gray := u < GRAY_RATE;
      }
      var u := Draw();
      var m := Mark(shape, col, row, rot, fill, fade, gray, Delay(u));
      forall y, x | 0 <= y < 2 * ROWS && 0 <= x < 2 * COLS
        ensures Shows(marks + [m], y, x, occ[y, x])
      {
        assert old(Shows(marks, y, x, occ[y, x]));
        CoveredByOneMore(marks, m, y, x);
      }
      marks := marks + [m];
    }

    // `ROTATIONS.map(rot => ({ rot, sort: rand() })).sort(…)`
    method DrawRotations() returns (order: seq<nat>)
      modifies this`drawn
      ensures order == Rotations(Keys(rand, old(drawn))) && drawn == old(drawn) + 4
    {
      var k0 := Draw();
      var k1 := Draw();
      var k2 := Draw();
      var k3 := Draw();
      order := Rotations([k0, k1, k2, k3]);
    }

    method PlaceComma(row: int, col: int, fill: Fill, fade: real)
      requires Valid()
      modifies this, occ
      ensures Valid() && State(marks, drawn) == CommaPlaced(rand, State(old(marks), old(drawn)), row, col, fill, fade)
    {
      hide Shows, Pushed, Rotations, Footprint;
      var order := DrawRotations();
      var k := FirstFree(order, row, col, fill);
      if k < 4 {
        CommaFits(marks, ROTATIONS[order[k]], row, col, fill, fade);
        Put(Comma, row, col, ROTATIONS[order[k]], fill, fade);
      }
    }

    method FirstFree(order: seq<nat>, row: int, col: int, fill: Fill) returns (k: nat)
      requires Valid() && |order| == 4 && Below(order, 4)
      ensures k == FirstFit(marks, order, 0, row, col, fill)
    {
      k := 0;
      while k < 4
        invariant k <= 4
        invariant FirstFit(marks, order, 0, row, col, fill) == FirstFit(marks, order, k, row, col, fill)
      {
        var a := CommaFoot(ROTATIONS[order[k]], row, col);
        var free := Free(a);
        // A rotation is passed over when its rectangle is taken, or would show what lies left of the photo.
        if free && !(fill == Image && a.left < 2 * PHOTO_START) {
          return;
        }
        k := k + 1;
      }
    }

    // 1. The dissolve boundary.
    method WalkBoundary() returns (start: seq<int>)
      requires drawn == 0
      modifies this`drawn
      ensures start == Starts(rand) && Boundary(start) && drawn == 1 + ROWS
    {
      hide FirstStart, StepOf, Push;
      start := [];
      var u := Draw();
      var s := FirstStart(u);
      for r := 0 to ROWS
        invariant drawn == 1 + r && |start| == r
        invariant s == if r == 0 then FirstStart(rand(0)) else WalkAt(rand, r - 1)
        invariant forall i: nat :: i < r ==> start[i] == StartAt(rand, i)
      {
        var v := Draw();
        s := Min(MAX_START, Max(MIN_START, s + StepOf(v)));
        assert s == WalkAt(rand, r);
        start := start + [Min(COLS - 4, s + Push(r))];
      }
      StartsBound(rand);
    }

    // 2. The dense mass, claimed first.
    method PlaceMass(start: seq<int>)
      requires Valid() && Boundary(start)
      modifies this, occ
      ensures Valid() && State(marks, drawn) == RowsDone(rand, Mass, State(old(marks), old(drawn)), start, 0)
    {
      ghost var all := RowsDone(rand, Mass, State(marks, drawn), start, 0);
      for r := 0 to ROWS
        invariant Valid() && all == RowsDone(rand, Mass, State(marks, drawn), start, r)
      {
        PlaceMassRow(start, r);
      }
    }

    method PlaceMassRow(start: seq<int>, r: nat)
      requires Valid() && Boundary(start) && r < ROWS
      modifies this, occ
      ensures Valid()
      ensures State(marks, drawn) == RowDone(rand, Mass, State(old(marks), old(drawn)), start, r, Lo(Mass, start, r))
    {
      ghost var row := RowDone(rand, Mass, State(marks, drawn), start, r, Lo(Mass, start, r));
      for c := start[r] + BAND to COLS
        invariant Valid() && row == RowDone(rand, Mass, State(marks, drawn), start, r, c)
      {
        Put(Square, r, c, R0, Image, 1.0);
      }
    }

    // 3. The ragged band.
    method PlaceBand(start: seq<int>)
      requires Valid() && Boundary(start)
      modifies this, occ
      ensures Valid() && State(marks, drawn) == RowsDone(rand, Ragged, State(old(marks), old(drawn)), start, 0)
    {
      ghost var all := RowsDone(rand, Ragged, State(marks, drawn), start, 0);
      for r := 0 to ROWS
        invariant Valid() && all == RowsDone(rand, Ragged, State(marks, drawn), start, r)
      {
        PlaceBandRow(start, r);
      }
    }

    method PlaceBandRow(start: seq<int>, r: nat)
      requires Valid() && Boundary(start) && r < ROWS
      modifies this, occ
      ensures Valid()
      ensures State(marks, drawn)
          == RowDone(rand, Ragged, State(old(marks), old(drawn)), start, r, Lo(Ragged, start, r))
    {
      hide RaggedCell, Shows;
      ghost var row := RowDone(rand, Ragged, State(marks, drawn), start, r, Lo(Ragged, start, r));
      for c := start[r] to Min(start[r] + BAND, COLS)
        invariant Valid() && row == RowDone(rand, Ragged, State(marks, drawn), start, r, c)
      {
        BandCell(r, c);
      }
    }

    method BandCell(r: int, c: int)
      requires Valid()
      modifies this, occ
      ensures Valid() && State(marks, drawn) == RaggedCell(rand, State(old(marks), old(drawn)), r, c)
    {
      hide Shows, Pushed, CommaPlaced, Footprint;
      ghost var before := State(marks, drawn);
      var fill := if c >= PHOTO_START then Image else Solid;
      var u := Draw();
      var free := false;
      if u < BOUNDARY_KEEP {
        free := Free(SquareFoot(r, c));
      }
      if u < BOUNDARY_KEEP && free {
        SquareInside(marks, r, c, fill, 1.0);
        Put(Square, r, c, R0, fill, 1.0);
        assert State(marks, drawn) == RaggedCell(rand, before, r, c);
      } else if u < BOUNDARY_KEEP + BOUNDARY_COMMA {
        PlaceComma(r, c, fill, 1.0);
        assert State(marks, drawn) == RaggedCell(rand, before, r, c);
      }
    }

    // 4. The semicolons.
    method PlaceSemicolons(start: seq<int>)
      requires Valid() && Boundary(start)
      modifies this, occ
      ensures Valid() && State(marks, drawn) == SemicolonsDone(rand, State(old(marks), old(drawn)), start, 0, 0)
    {
      hide SemicolonTried, Shows;
      ghost var all := SemicolonsDone(rand, State(marks, drawn), start, 0, 0);
      var placed, tries := 0, 0;
      while tries < TRIES && placed < SEMICOLONS
        invariant Valid() && all == SemicolonsDone(rand, State(marks, drawn), start, tries, placed)
        decreases TRIES - tries
      {
        var now := TrySemicolon(start);
        placed := if now then placed + 1 else placed;
        tries := tries + 1;
      }
    }

    method TrySemicolon(start: seq<int>) returns (placed: bool)
      requires Valid() && Boundary(start)
      modifies this, occ
      ensures Valid() && State(marks, drawn) == SemicolonTried(rand, State(old(marks), old(drawn)), start)
      ensures placed == (|marks| != |old(marks)|)
    {
      hide FadeAt, Pushed, FreeIn, Shows, SemicolonRow, SemicolonCol;
      var u := Draw();
      SemicolonRowRange(u);
      var r := SemicolonRow(u);
      var v := Draw();
      var c := SemicolonCol(start[r], v);
      placed := Free(SemicolonFoot(r, c));
      if placed {
        FreeInside(marks, SemicolonFoot(r, c));
        PushedOne(rand, State(marks, drawn), Semicolon, r, c, R0, Solid, FadeAt(start[r] - c));
        Put(Semicolon, r, c, R0, Solid, FadeAt(start[r] - c));
      }
    }

    // 5. The scatter.
    method PlaceScatter(start: seq<int>)
      requires Valid() && Boundary(start)
      modifies this, occ
      ensures Valid() && State(marks, drawn) == RowsDone(rand, Scatter, State(old(marks), old(drawn)), start, 0)
    {
      ghost var all := RowsDone(rand, Scatter, State(marks, drawn), start, 0);
      for r := 0 to ROWS
        invariant Valid() && all == RowsDone(rand, Scatter, State(marks, drawn), start, r)
      {
        PlaceScatterRow(start, r);
      }
    }

    method PlaceScatterRow(start: seq<int>, r: nat)
      requires Valid() && Boundary(start) && r < ROWS
      modifies this, occ
      ensures Valid()
      ensures State(marks, drawn)
          == RowDone(rand, Scatter, State(old(marks), old(drawn)), start, r, Lo(Scatter, start, r))
    {
      hide ScatterCell, Shows;
      ghost var row := RowDone(rand, Scatter, State(marks, drawn), start, r, Lo(Scatter, start, r));
      for c := 0 to start[r]
        invariant Valid() && row == RowDone(rand, Scatter, State(marks, drawn), start, r, c)
      {
        ScatterOne(start[r], r, c);
      }
    }

    method ScatterOne(start: int, r: int, c: int)
      requires Valid() && c < start
      modifies this, occ
      ensures Valid() && State(marks, drawn) == ScatterCell(rand, State(old(marks), old(drawn)), start, r, c)
    {
      hide Scattered, FadeAt, ScatterChance, Shows;
      var dist := start - c;
      var u := Draw();
      if u < ScatterChance(dist) {
        var fill := if dist <= IMAGE_REACH && c >= PHOTO_START then Image else Solid;
        var fade := if fill == Solid then FadeAt(dist) else 1.0;
        var v := Draw();
        PlaceScattered(r, c, v < COMMA_WEIGHT, fill, fade);
      }
    }

    method PlaceScattered(r: int, c: int, comma: bool, fill: Fill, fade: real)
      requires Valid()
      modifies this, occ
      ensures Valid() && State(marks, drawn) == Scattered(rand, State(old(marks), old(drawn)), r, c, comma, fill, fade)
    {
      if comma {
        PlaceComma(r, c, fill, fade);
      } else {
        var free := Free(SquareFoot(r, c));
        if free {
          Put(Square, r, c, R0, fill, fade);
        }
      }
    }

    method IsCrowded(cells: set<Cell>, col: int, row: int) returns (crowded: bool)
      ensures crowded == Crowded(cells, (col, row))
    {
      for dc := -COMMA_MIN_GAP to COMMA_MIN_GAP + 1
        invariant forall p :: p in cells && p.0 - col < dc ==> !Close(p, (col, row))
      {
        for dr := -COMMA_MIN_GAP to COMMA_MIN_GAP + 1
          invariant forall p ::
              p in cells && (p.0 - col < dc || (p.0 - col == dc && p.1 - row < dr)) ==> !Close(p, (col, row))
        {
          if (col + dc, row + dr) in cells {
            assert Close((col + dc, row + dr), (col, row));
            return true;
          }
        }
      }
      return false;
    }

    // 6. The strike pass and the drawing order.
    method Strike() returns (drawing: seq<Mark>)
      modifies this`marks, this`drawn
      ensures var s := StrikeFrom(rand, Strikes(old(marks), [], {}, old(drawn)), 0);
              && marks == s.marks && drawn == s.drawn && Below(s.struck, |s.marks|) && drawing == Arranged(s)
    {
      ghost var all := StrikeFrom(rand, Strikes(marks, [], {}, drawn), 0);
      var struck: seq<nat> := [];
      var cells: set<Cell> := {};
      for i := 0 to |marks|
        invariant |marks| == |old(marks)| && Below(struck, |marks|)
        invariant all == StrikeFrom(rand, Strikes(marks, struck, cells, drawn), i)
      {
        struck, cells := StrikeOne(i, struck, cells);
      }
      drawing := Kept(marks, struck, |marks|) + Taken(marks, struck) + FOCUS_MARKS;
    }

    method StrikeOne(i: nat, struck: seq<nat>, cells: set<Cell>) returns (struck': seq<nat>, cells': set<Cell>)
      requires i < |marks| && Below(struck, |marks|)
      modifies this`marks, this`drawn
      ensures Strikes(marks, struck', cells', drawn)
          == StrikeAt(rand, Strikes(old(marks), struck, cells, old(drawn)), i)
      ensures Below(struck', |marks|)
    {
      struck', cells' := struck, cells;
      var m := marks[i];
      if m.fill != Image || m.shape != Square || m.col < PHOTO_START + BAND || NearFocus(m.col, m.row) {
        return;
      }
      var crowded := IsCrowded(cells, m.col, m.row);
      if crowded {
        return;
      }
      var u := Draw();
      if u < MASS_COMMA_RATE + Lift(m) {
        var v := Draw();
        marks := marks[i := Restruck(m, v)];
        struck', cells' := struck + [i], cells + {CellOf(m)};
      }
    }

    // `computeMosaicLayout`. Before the strike pass the grid shows exactly the claimed half-cells.
    method Compute() returns (drawing: seq<Mark>)
      requires Valid() && State(marks, drawn) == State([], 0)
      modifies this, occ
      ensures Below(Struck(rand).struck, |Struck(rand).marks|) && drawing == Arranged(Struck(rand))
      ensures InLayers(drawing, Placed(rand).marks)
      ensures occ.Length0 == 2 * ROWS && occ.Length1 == 2 * COLS
      ensures forall y, x :: 0 <= y < 2 * ROWS && 0 <= x < 2 * COLS ==> Shows(Placed(rand).marks, y, x, occ[y, x])
    {
      var start := WalkBoundary();
      PlaceMass(start);
      PlaceBand(start);
      PlaceSemicolons(start);
      PlaceScatter(start);
      assert State(marks, drawn) == Placed(rand);
      drawing := Strike();
      DrawnInLayers(rand);
    }
  }
}
