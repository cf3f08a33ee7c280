// The mosaic's last pass (apps/web/lib/mosaic-layout.ts:316-387): squares of the photo's mass restruck as commas, then
// everything put in drawing order, with the two hand-placed commas last.
module MosaicStrike {
  import opened MosaicLayout
  import opened MosaicTiling

  // The glyph's own proportions set a focus comma's width (48.21 by 72.002).
  const MASS_COMMA_RATE := 0.05
  const COMMA_MIN_GAP := 1
  const EDGE_FRAY_BAND := 3
  const FOCUS_CLEAR_MARGIN := 1

  datatype Focus = Focus(col: int, row: int, cellsTall: real)

  const FOCUS_COMMAS := [Focus(10, 9, 2.0), Focus(13, 11, 1.75)]

  predicate Near(f: Focus, col: int, row: int) {
    var wide := f.cellsTall * 48.21 / 72.002;
    && col >= f.col - FOCUS_CLEAR_MARGIN && col as real < f.col as real + wide + FOCUS_CLEAR_MARGIN as real
    && row >= f.row - FOCUS_CLEAR_MARGIN && row as real < f.row as real + f.cellsTall + FOCUS_CLEAR_MARGIN as real
  }

  predicate NearFocus(col: int, row: int) {
    exists k :: 0 <= k < |FOCUS_COMMAS| && Near(FOCUS_COMMAS[k], col, row)
  }

  type Cell = (int, int)

  predicate Close(a: Cell, b: Cell) {
    -COMMA_MIN_GAP <= a.0 - b.0 <= COMMA_MIN_GAP && -COMMA_MIN_GAP <= a.1 - b.1 <= COMMA_MIN_GAP
  }

  predicate Crowded(cells: set<Cell>, c: Cell) {
    exists p :: p in cells && Close(p, c)
  }

  function CellOf(m: Mark): Cell {
    (m.col, m.row)
  }

  predicate Strikable(m: Mark) {
    m.fill == Image && m.shape == Square && m.col >= PHOTO_START + BAND && !NearFocus(m.col, m.row)
  }

  // The strike rate's lift `n` cells from the top, bottom or right edge: 0.2, halving inward.
  function EdgeLift(n: nat): real {
    if n == 0 then 0.2 else EdgeLift(n - 1) / 2.0
  }

  function Lift(m: Mark): real {
    var toEdge := Min(ROWS - 1 - m.row, Min(m.row, COLS - 1 - m.col));
    if 0 <= toEdge < EDGE_FRAY_BAND then EdgeLift(toEdge) else 0.0
  }

  function Restruck(m: Mark, u: real): Mark
    requires 0.0 <= u < 1.0
  {
    m.(shape := Comma, fill := Cutout, fade := 1.0, rot := ROTATIONS[(u * 4.0).Floor])
  }

  // The marks, which of them were struck and in what order, and their cells.
  datatype Strikes = Strikes(marks: seq<Mark>, struck: seq<nat>, cells: set<Cell>, drawn: nat)

  function StrikeAt(rand: Draws, s: Strikes, i: nat): Strikes
    requires i < |s.marks|
  {
    var m := s.marks[i];
    if !Strikable(m) || Crowded(s.cells, CellOf(m)) then s
    else if rand(s.drawn) >= MASS_COMMA_RATE + Lift(m) then s.(drawn := s.drawn + 1)
    else Strikes(s.marks[i := Restruck(m, rand(s.drawn + 1))], s.struck + [i], s.cells + {CellOf(m)}, s.drawn + 2)
  }

  function StrikeFrom(rand: Draws, s: Strikes, i: nat): Strikes
    requires i <= |s.marks|
    decreases |s.marks| - i
  {
    if i == |s.marks| then s else StrikeFrom(rand, StrikeAt(rand, s, i), i + 1)
  }

  function Kept(marks: seq<Mark>, struck: seq<nat>, n: nat): seq<Mark>
    requires n <= |marks|
  {
    if n == 0 then [] else Kept(marks, struck, n - 1) + (if n - 1 in struck then [] else [marks[n - 1]])
  }

  function Taken(marks: seq<Mark>, struck: seq<nat>): seq<Mark>
    requires Below(struck, |marks|)
  {
    if struck == [] then []
    else Taken(marks, struck[..|struck| - 1]) + [marks[struck[|struck| - 1]]]
  }

  function FocusMark(f: Focus): Mark {
    Mark(FocusComma, f.col, f.row, R0, Cutout, 1.0, false, 0)
  }

  const FOCUS_MARKS := [FocusMark(FOCUS_COMMAS[0]), FocusMark(FOCUS_COMMAS[1])]

  function Arranged(s: Strikes): seq<Mark>
    requires Below(s.struck, |s.marks|)
  {
    Kept(s.marks, s.struck, |s.marks|) + Taken(s.marks, s.struck) + FOCUS_MARKS
  }

  ghost function Struck(rand: Draws): Strikes {
    var s := Placed(rand);
    StrikeFrom(rand, Strikes(s.marks, [], {}, s.drawn), 0)
  }

  // ---------- What a strike keeps ----------

  predicate Increasing(struck: seq<nat>, n: nat) {
    && (forall k :: 0 <= k < |struck| ==> struck[k] < n)
    && (forall j, k :: 0 <= j < k < |struck| ==> struck[j] < struck[k])
  }

  // Against the marks as they were placed: struck marks are eligible squares turned into cutout commas where they
  // stood, all others are as they were, and no two struck cells are close.
  predicate StruckFrom(placed: seq<Mark>, s: Strikes, n: nat) {
    && |s.marks| == |placed| && n <= |placed| && Increasing(s.struck, n)
    && (forall i :: 0 <= i < |placed| && i !in s.struck ==> s.marks[i] == placed[i])
    && (forall k ::
      0 <= k < |s.struck| ==>
        Turned(placed[s.struck[k]], s.marks[s.struck[k]]) && CellOf(placed[s.struck[k]]) in s.cells)
    && (forall j, k :: 0 <= j < k < |s.struck| ==> !Close(CellOf(placed[s.struck[j]]), CellOf(placed[s.struck[k]])))
  }

  predicate Turned(was: Mark, now: Mark) {
    && Strikable(was)
    && now == Mark(Comma, was.col, was.row, now.rot, Cutout, 1.0, was.gray, was.delayMs)
  }

  lemma StrikeAtKeeps(rand: Draws, placed: seq<Mark>, s: Strikes, i: nat)
    requires i < |s.marks| && StruckFrom(placed, s, i)
    ensures StruckFrom(placed, StrikeAt(rand, s, i), i + 1)
  {
    var t := StrikeAt(rand, s, i);
    if t.struck != s.struck {
      var c := CellOf(placed[i]);
      assert i !in s.struck && s.marks[i] == placed[i];
      forall k | 0 <= k < |s.struck|
        ensures !Close(CellOf(placed[s.struck[k]]), c)
      {
        assert CellOf(placed[s.struck[k]]) in s.cells;
      }
    }
  }

  lemma {:induction false} StrikeFromKeeps(rand: Draws, placed: seq<Mark>, s: Strikes, i: nat)
    requires i <= |s.marks| && StruckFrom(placed, s, i)
    ensures StruckFrom(placed, StrikeFrom(rand, s, i), |placed|)
    decreases |s.marks| - i
  {
    if i < |s.marks| {
      StrikeAtKeeps(rand, placed, s, i);
      StrikeFromKeeps(rand, placed, StrikeAt(rand, s, i), i + 1);
    }
  }

  // For every random stream, the pass turns exactly the struck marks, each an image square right of the photo's first
  // two columns and away from the hand-placed commas, and any two of them lie more than a clear cell apart.
  lemma StruckKeeps(rand: Draws)
    ensures StruckFrom(Placed(rand).marks, Struck(rand), |Placed(rand).marks|)
  {
    var s := Placed(rand);
    StrikeFromKeeps(rand, s.marks, Strikes(s.marks, [], {}, s.drawn), 0);
  }

  lemma FarCommasSeparate(a: Mark, b: Mark)
    requires !Close(CellOf(a), CellOf(b)) && a.shape == Comma && b.shape == Comma
    ensures Separate(Footprint(a), Footprint(b))
  {}

  // So two struck commas of one run never overlap, whichever way they point.
  lemma StruckGlyphsSeparate(rand: Draws, j: nat, k: nat)
    requires j < k < |Struck(rand).struck|
    ensures var s := Struck(rand);
            && s.struck[j] < |s.marks| && s.struck[k] < |s.marks|
            && Separate(Footprint(s.marks[s.struck[j]]), Footprint(s.marks[s.struck[k]]))
  {
    StruckKeeps(rand);
    hide Struck, Placed, Strikable, Close, Separate, Footprint;
    var s, placed := Struck(rand), Placed(rand).marks;
    var a, b := s.struck[j], s.struck[k];
    assert Turned(placed[a], s.marks[a]) && Turned(placed[b], s.marks[b]);
    assert CellOf(s.marks[a]) == CellOf(placed[a]) && CellOf(s.marks[b]) == CellOf(placed[b]);
    FarCommasSeparate(s.marks[a], s.marks[b]);
  }

  lemma PlacedOnGrid(rand: Draws, i: nat)
    requires i < |Placed(rand).marks|
    ensures 0 <= Placed(rand).marks[i].row < ROWS && 0 <= Placed(rand).marks[i].col < COLS
  {
    PlacedSound(rand);
    hide Placed, StartAt;
    assert MarkOk(Placed(rand).marks[i], Starts(rand));
  }

  predicate PointsOff(m: Mark) {
    (m.rot == R0 && m.row == ROWS - 1) || (m.rot == R180 && m.row == 0) || (m.rot == R270 && m.col == COLS - 1)
  }

  lemma TurnedInside(was: Mark, now: Mark)
    requires Turned(was, now) && 0 <= was.row < ROWS && 0 <= was.col < COLS
    ensures Inside(Footprint(now)) <==> !PointsOff(now)
  {
    hide NearFocus;
  }

  // The pass claims no space: the tail of a run's struck comma stays on the grid exactly when it does not point off the
  // top, bottom or right edge it stands on; none stands on the left one.
  lemma StruckTailInsideIff(rand: Draws, k: nat)
    requires k < |Struck(rand).struck|
    ensures var s := Struck(rand);
            s.struck[k] < |s.marks| && (Inside(Footprint(s.marks[s.struck[k]])) <==> !PointsOff(s.marks[s.struck[k]]))
  {
    StruckKeeps(rand);
    hide Struck, Placed, Turned, Footprint, Inside, PointsOff;
    var s, placed := Struck(rand), Placed(rand).marks;
    assert Turned(placed[s.struck[k]], s.marks[s.struck[k]]);
    PlacedOnGrid(rand, s.struck[k]);
    TurnedInside(placed[s.struck[k]], s.marks[s.struck[k]]);
  }

  // ---------- The drawing order is a rearrangement ----------

  function Cells(marks: seq<Mark>): seq<Cell> {
    if marks == [] then [] else Cells(marks[..|marks| - 1]) + [CellOf(marks[|marks| - 1])]
  }

  lemma {:induction false} KeptOfFewer(marks: seq<Mark>, struck: seq<nat>, last: nat, n: nat)
    requires n <= |marks| && n <= last
    ensures Kept(marks, struck + [last], n) == Kept(marks, struck, n)
  {
    if n > 0 {
      KeptOfFewer(marks, struck, last, n - 1);
    }
  }

  // The last of the first `n` marks is the last struck, or kept.
  lemma KeptAndTaken(marks: seq<Mark>, struck: seq<nat>, n: nat)
    requires 0 < n <= |marks| && Increasing(struck, n) && Below(struck, |marks|)
    ensures struck != [] && struck[|struck| - 1] == n - 1 ==>
      var before := struck[..|struck| - 1];
      && Increasing(before, n - 1) && Below(before, |marks|) && Kept(marks, struck, n) == Kept(marks, before, n - 1)
      && Taken(marks, struck) == Taken(marks, before) + [marks[n - 1]]
    ensures struck == [] || struck[|struck| - 1] != n - 1 ==>
      Increasing(struck, n - 1) && Kept(marks, struck, n) == Kept(marks, struck, n - 1) + [marks[n - 1]]
  {
    var k := |struck| - 1;
    if struck != [] && struck[k] == n - 1 {
      assert struck == struck[..k] + [struck[k]];
      assert n - 1 in struck;
      KeptOfFewer(marks, struck[..k], struck[k], n - 1);
    } else {
      assert n - 1 !in struck;
    }
  }

  lemma {:induction false} Rearranged(marks: seq<Mark>, struck: seq<nat>, n: nat)
    requires n <= |marks| && Increasing(struck, n) && Below(struck, |marks|)
    ensures multiset(Kept(marks, struck, n)) + multiset(Taken(marks, struck)) == multiset(marks[..n])
  {
    if n > 0 {
      KeptAndTaken(marks, struck, n);
      hide Kept, Taken, Increasing, Below;
      assert marks[..n] == marks[..n - 1] + [marks[n - 1]];
      if struck != [] && struck[|struck| - 1] == n - 1 {
        Rearranged(marks, struck[..|struck| - 1], n - 1);
      } else {
        Rearranged(marks, struck, n - 1);
      }
    }
  }

  // Every placed mark is drawn exactly once, unstruck first, then struck, then the two focus commas.
  lemma ArrangedIsRearranged(rand: Draws)
    ensures Below(Struck(rand).struck, |Struck(rand).marks|)
    ensures multiset(Arranged(Struck(rand))) == multiset(Struck(rand).marks) + multiset(FOCUS_MARKS)
  {
    StruckKeeps(rand);
    var s := Struck(rand);
    Rearranged(s.marks, s.struck, |s.marks|);
    assert s.marks[..|s.marks|] == s.marks;
  }

  // And each still stands on the cell it was placed on.
  lemma SameCells(rand: Draws)
    ensures Cells(Struck(rand).marks) == Cells(Placed(rand).marks)
  {
    StruckKeeps(rand);
    CellsAgree(Struck(rand).marks, Placed(rand).marks);
  }

  lemma {:induction false} CellsAgree(a: seq<Mark>, b: seq<Mark>)
    requires |a| == |b| && forall i :: 0 <= i < |a| ==> CellOf(a[i]) == CellOf(b[i])
    ensures Cells(a) == Cells(b)
  {
    if a != [] {
      CellsAgree(a[..|a| - 1], b[..|b| - 1]);
    }
  }

  // ---------- What is drawn over what ----------

  // Read off a mark: a placed one lies under the struck, and those under the hand-placed.
  function Layer(m: Mark): int {
    if m.shape == FocusComma then 2 else if m.fill == Cutout then 1 else 0
  }

  // Two marks stand where two placed ones do, the first of them placed before the second.
  ghost predicate PlacedBefore(placed: seq<Mark>, m: Mark, n: Mark) {
    exists a, b :: 0 <= a < b < |placed| && CellOf(placed[a]) == CellOf(m) && CellOf(placed[b]) == CellOf(n)
  }

  // No mark is drawn under one of a lower layer; within a layer the marks come as they were placed; and the two
  // hand-placed commas, upright, are the last.
  ghost predicate InLayers(drawing: seq<Mark>, placed: seq<Mark>) {
    && |drawing| == |placed| + 2
    && (forall i, j :: 0 <= i < j < |drawing| ==> Layer(drawing[i]) <= Layer(drawing[j]))
    && (forall i, j :: 0 <= i < j < |placed| && Layer(drawing[i]) == Layer(drawing[j]) ==>
      PlacedBefore(placed, drawing[i], drawing[j]))
    && drawing[|placed|] == Mark(FocusComma, 10, 9, R0, Cutout, 1.0, false, 0)
    && drawing[|placed| + 1] == Mark(FocusComma, 13, 11, R0, Cutout, 1.0, false, 0)
  }

  lemma {:induction false} KeptLength(marks: seq<Mark>, struck: seq<nat>, n: nat)
    requires n <= |marks| && Increasing(struck, n)
    ensures |Kept(marks, struck, n)| + |struck| == n
  {
    assert |struck| > 0 ==> 0 <= struck[0] < n;
    if n > 0 {
      assert Below(struck, |marks|);
      KeptAndTaken(marks, struck, n);
      if struck != [] && struck[|struck| - 1] == n - 1 {
        KeptLength(marks, struck[..|struck| - 1], n - 1);
      } else {
        KeptLength(marks, struck, n - 1);
      }
    }
  }

  lemma {:induction false} TakenAre(marks: seq<Mark>, struck: seq<nat>)
    requires Below(struck, |marks|)
    ensures |Taken(marks, struck)| == |struck|
    ensures forall k :: 0 <= k < |struck| ==> Taken(marks, struck)[k] == marks[struck[k]]
  {
    if struck != [] {
      TakenAre(marks, struck[..|struck| - 1]);
    }
  }

  // A kept mark is one that was not struck.
  lemma {:induction false} KeptIs(marks: seq<Mark>, struck: seq<nat>, n: nat, i: nat) returns (a: nat)
    requires n <= |marks| && i < |Kept(marks, struck, n)|
    ensures a < n && a !in struck && Kept(marks, struck, n)[i] == marks[a]
  {
    if i < |Kept(marks, struck, n - 1)| {
      a := KeptIs(marks, struck, n - 1, i);
    } else {
      a := n - 1;
    }
  }

  lemma {:induction false} KeptInOrder(marks: seq<Mark>, struck: seq<nat>, n: nat, i: nat, j: nat)
      returns (a: nat, b: nat)
    requires n <= |marks| && i < j < |Kept(marks, struck, n)|
    ensures a < b < n && Kept(marks, struck, n)[i] == marks[a] && Kept(marks, struck, n)[j] == marks[b]
  {
    if j < |Kept(marks, struck, n - 1)| {
      a, b := KeptInOrder(marks, struck, n - 1, i, j);
    } else {
      a := KeptIs(marks, struck, n - 1, i);
      b := n - 1;
    }
  }

  lemma LayersOf(rand: Draws, a: nat)
    requires a < |Placed(rand).marks|
    ensures |Struck(rand).marks| == |Placed(rand).marks|
    ensures Layer(Struck(rand).marks[a]) == if a in Struck(rand).struck then 1 else 0
    ensures CellOf(Struck(rand).marks[a]) == CellOf(Placed(rand).marks[a])
  {
    StruckKeeps(rand);
    PlacedSound(rand);
    hide Struck, Placed, StartAt, NearFocus;
    assert MarkOk(Placed(rand).marks[a], Starts(rand));
    if a in Struck(rand).struck {
      var k :| 0 <= k < |Struck(rand).struck| && Struck(rand).struck[k] == a;
      assert Turned(Placed(rand).marks[a], Struck(rand).marks[a]);
    }
  }

  // Of every stream: the drawing is in layers.
  lemma DrawnInLayers(rand: Draws)
    ensures Below(Struck(rand).struck, |Struck(rand).marks|)
    ensures InLayers(Arranged(Struck(rand)), Placed(rand).marks)
  {
    StruckKeeps(rand);
    var s, placed := Struck(rand), Placed(rand).marks;
    hide Struck, Placed, Turned, Strikable, Kept, Taken;
    KeptLength(s.marks, s.struck, |s.marks|);
    TakenAre(s.marks, s.struck);
    var kept, taken, all := Kept(s.marks, s.struck, |s.marks|), Taken(s.marks, s.struck), Arranged(s);
    assert all == kept + taken + FOCUS_MARKS && |kept| + |taken| == |placed|;
    forall i | 0 <= i < |placed|
      ensures all[i] == if i < |kept| then kept[i] else taken[i - |kept|]
      ensures Layer(all[i]) == if i < |kept| then 0 else 1
    {
      DrawnLayer(rand, i);
    }
    forall i, j | 0 <= i < j < |placed| && Layer(all[i]) == Layer(all[j])
      ensures PlacedBefore(placed, all[i], all[j])
    {
      DrawnInOrder(rand, i, j);
    }
  }

  lemma DrawnLayer(rand: Draws, i: nat)
    requires i < |Placed(rand).marks| && Below(Struck(rand).struck, |Struck(rand).marks|)
    ensures var s := Struck(rand); var kept := Kept(s.marks, s.struck, |s.marks|);
            && |Arranged(s)| == |Placed(rand).marks| + 2
            && Layer(Arranged(s)[i]) == if i < |kept| then 0 else 1
  {
    StruckKeeps(rand);
    var s := Struck(rand);
    hide Struck, Placed, Turned, Strikable, Layer;
    KeptLength(s.marks, s.struck, |s.marks|);
    TakenAre(s.marks, s.struck);
    var kept := Kept(s.marks, s.struck, |s.marks|);
    if i < |kept| {
      var a := KeptIs(s.marks, s.struck, |s.marks|, i);
      LayersOf(rand, a);
    } else {
      LayersOf(rand, s.struck[i - |kept|]);
    }
  }

  lemma DrawnInOrder(rand: Draws, i: nat, j: nat)
    requires i < j < |Placed(rand).marks| && Below(Struck(rand).struck, |Struck(rand).marks|)
    requires |Arranged(Struck(rand))| == |Placed(rand).marks| + 2
    requires Layer(Arranged(Struck(rand))[i]) == Layer(Arranged(Struck(rand))[j])
    ensures PlacedBefore(Placed(rand).marks, Arranged(Struck(rand))[i], Arranged(Struck(rand))[j])
  {
    StruckKeeps(rand);
    DrawnLayer(rand, i);
    DrawnLayer(rand, j);
    var s := Struck(rand);
    hide Struck, Placed, Turned, Strikable, Layer;
    KeptLength(s.marks, s.struck, |s.marks|);
    TakenAre(s.marks, s.struck);
    var kept := Kept(s.marks, s.struck, |s.marks|);
    var a, b: nat;
    if j < |kept| {
      a, b := KeptInOrder(s.marks, s.struck, |s.marks|, i, j);
    } else {
      a, b := s.struck[i - |kept|], s.struck[j - |kept|];
    }
    LayersOf(rand, a);
    LayersOf(rand, b);
  }
}
