// What each draw of the hero mosaic's stream decides (apps/web/lib/mosaic-layout.ts:184-314): where the boundary goes,
// and what, if anything, stands on each cell, read off the finished placement.
module MosaicDraws {
  import opened MosaicLayout
  import opened MosaicTiling

  // ---------- The boundary ----------

  // The first draw picks one of three columns, each row's draw a step or none: a quarter left, a quarter right.
  predicate WalksTo(u: real, before: int, now: int) {
    now == Clamp(3, 5, before + if u < 0.25 then -1 else if u < 0.75 then 0 else 1)
  }

  lemma WalkByDraws(rand: Draws, row: nat)
    ensures if row == 0 then
              WalksTo(rand(1), if 3.0 * rand(0) < 1.0 then 3 else if 3.0 * rand(0) < 2.0 then 4 else 5, WalkAt(rand, 0))
            else WalksTo(rand(row + 1), WalkAt(rand, row - 1), WalkAt(rand, row))
  {
    StepByQuarters(rand(row + 1));
    FirstByThirds(rand(0));
  }

  lemma StepByQuarters(u: real)
    requires 0.0 <= u < 1.0
    ensures StepOf(u) == if u < 0.25 then -1 else if u < 0.75 then 0 else 1
  {
  }

  lemma FirstByThirds(u: real)
    requires 0.0 <= u < 1.0
    ensures FirstStart(u) == if 3.0 * u < 1.0 then 3 else if 3.0 * u < 2.0 then 4 else 5
  {
  }

  // ---------- What stands on a cell ----------

  predicate At(m: Mark, row: int, col: int) {
    m.row == row && m.col == col && m.shape != Semicolon
  }

  predicate NoneFrom(all: seq<Mark>, k: nat, row: int, col: int) {
    forall i :: k <= i < |all| ==> !At(all[i], row, col)
  }

  // The mark there, placed when `p` others were, and the only one.
  predicate Alone(all: seq<Mark>, p: nat, row: int, col: int) {
    && p < |all| && At(all[p], row, col)
    && NoneFrom(all[..p], 0, row, col) && NoneFrom(all, p + 1, row, col)
  }

  predicate Leaves(all: seq<Mark>, row: int, col: int) {
    NoneFrom(all, 0, row, col)
  }

  // `Math.round(u * 240)`
  predicate Rounds(u: real, delayMs: int) {
    u * 240.0 - 0.5 < delayMs as real <= u * 240.0 + 0.5
  }

  predicate IsMark(m: Mark, shape: Shape, rot: Rot, fill: Fill, fade: real, u: real) {
    m.shape == shape && m.rot == rot && m.fill == fill && m.fade == fade && !m.gray && Rounds(u, m.delayMs)
  }

  // A photo mark spends a draw on its colour before the one its delay is made of.
  function DelayDraw(n: nat, fill: Fill): nat {
    if fill == Image then n + 1 else n
  }

  predicate Squared(rand: Draws, n: nat, all: seq<Mark>, p: nat, row: int, col: int, fill: Fill, fade: real) {
    Alone(all, p, row, col) && IsMark(all[p], Square, R0, fill, fade, rand(DelayDraw(n, fill)))
  }

  // Of the rotations that fit among the marks placed before, the one with the least draw, the first of equals.
  ghost predicate Chosen(rand: Draws, n: nat, here: seq<Mark>, k: nat, row: int, col: int, fill: Fill) {
    && k < 4 && Fits(here, ROTATIONS[k], row, col, fill)
    && forall j: nat :: j < 4 && Fits(here, ROTATIONS[j], row, col, fill) ==>
         rand(n + k) < rand(n + j) || (rand(n + k) == rand(n + j) && k <= j)
  }

  ghost predicate Commaed(rand: Draws, n: nat, all: seq<Mark>, p: nat, row: int, col: int, fill: Fill, fade: real)
    requires p <= |all|
  {
    if exists rot :: Fits(all[..p], rot, row, col, fill) then
      Alone(all, p, row, col) && exists k: nat ::
        Chosen(rand, n, all[..p], k, row, col, fill)
        && IsMark(all[p], Comma, ROTATIONS[k], fill, fade, rand(DelayDraw(n + 4, fill)))
    else Leaves(all, row, col)
  }

  // In the two columns of the boundary: a square where the draw is under 0.65 and the cell free, else a comma under
  // 0.83, else nothing.
  ghost predicate RaggedRule(rand: Draws, n: nat, all: seq<Mark>, p: nat, row: int, col: int)
    requires p <= |all|
  {
    var fill := if col >= 5 then Image else Solid;
    if rand(n) < 0.65 && FreeIn(all[..p], SquareFoot(row, col)) then Squared(rand, n + 1, all, p, row, col, fill, 1.0)
    else if rand(n) < 0.83 then Commaed(rand, n + 1, all, p, row, col, fill, 1.0)
    else Leaves(all, row, col)
  }

  // How often a cell left of the boundary is marked, by its distance from it.
  function Chance(dist: int): real {
    if dist <= 1 then 0.4 else if dist == 2 then 0.3 else if dist == 3 then 0.225 else if dist == 4 then 0.16875
    else if dist == 5 then 0.1265625 else 0.094921875
  }

  // Left of the boundary: nothing at the chance's draw or over it; else, six times in ten a comma, else a square.
  ghost predicate ScatterRule(rand: Draws, n: nat, all: seq<Mark>, p: nat, start: int, row: int, col: int)
    requires p <= |all|
  {
    var fill := if start - col <= 1 && col >= 5 then Image else Solid;
    var fade := FadeOf(start, col, fill);
    if rand(n) >= Chance(start - col) then Leaves(all, row, col)
    else if rand(n + 1) < 0.6 then Commaed(rand, n + 2, all, p, row, col, fill, fade)
    else if FreeIn(all[..p], SquareFoot(row, col)) then Squared(rand, n + 2, all, p, row, col, fill, fade)
    else Leaves(all, row, col)
  }

  ghost predicate CellRule(rand: Draws, n: nat, all: seq<Mark>, p: nat, start: int, row: int, col: int)
    requires p <= |all|
  {
    if col >= start + 2 then Squared(rand, n, all, p, row, col, Image, 1.0)
    else if col >= start then RaggedRule(rand, n, all, p, row, col)
    else ScatterRule(rand, n, all, p, start, row, col)
  }

  // ---------- The rotation chosen ----------

  lemma {:induction false} PrecedesAll(keys: seq<real>, order: seq<nat>, last: nat, a: nat)
    requires Below(order, |keys|) && last < |keys| && AllPrecede(keys, order, last) && a < |order|
    ensures Precedes(keys, order[a], last)
  {
    var n := |order| - 1;
    if a < n {
      PrecedesAll(keys, order[..n], last, a);
    }
  }

  lemma {:induction false} SortedPairs(keys: seq<real>, order: seq<nat>, a: nat, b: nat)
    requires Below(order, |keys|) && Sorted(keys, order) && a < b < |order|
    ensures Precedes(keys, order[a], order[b])
  {
    var n := |order| - 1;
    if b < n {
      SortedPairs(keys, order[..n], a, b);
    } else {
      PrecedesAll(keys, order[..n], order[n], a);
    }
  }

  lemma {:induction false} InTable(n: nat, j: nat)
    requires j < n
    ensures multiset(Table(n))[j] >= 1
  {
    if j < n - 1 {
      InTable(n - 1, j);
    }
  }

  lemma InOrder(keys: seq<real>, j: nat) returns (g: nat)
    requires j < |keys|
    ensures g < |Rotations(keys)| && Rotations(keys)[g] == j
  {
    OrderPermutes(keys, |keys|);
    InTable(|keys|, j);
    assert j in multiset(Rotations(keys));
    g :| 0 <= g < |Rotations(keys)| && Rotations(keys)[g] == j;
  }

  // Whatever fits, the first that fits in the drawn order comes before it.
  lemma FirstBefore(rand: Draws, n: nat, here: seq<Mark>, row: int, col: int, fill: Fill, j: nat)
    requires j < 4 && Fits(here, ROTATIONS[j], row, col, fill)
    ensures var order := Rotations(Keys(rand, n)); var f := FirstFit(here, order, 0, row, col, fill);
            f < 4 && (rand(n + order[f]) < rand(n + j) || (rand(n + order[f]) == rand(n + j) && order[f] <= j))
  {
    var keys := Keys(rand, n);
    var order := Rotations(keys);
    var f := FirstFit(here, order, 0, row, col, fill);
    var g := InOrder(keys, j);
    assert f <= g;
    KeyAt(rand, n, j);
    KeyAt(rand, n, order[f]);
    if f < g {
      OrderIsRotations(keys);
      hide Fits, Order, Sorted, Rotations, Keys, FirstFit, AllPrecede;
      SortedPairs(keys, order, f, g);
    }
  }

  lemma KeyAt(rand: Draws, n: nat, j: nat)
    requires j < 4
    ensures |Keys(rand, n)| == 4 && Keys(rand, n)[j] == rand(n + j)
  {
  }

  function IndexOf(rot: Rot): (k: nat)
    ensures k < 4 && ROTATIONS[k] == rot
  {
    match rot case R0 => 0 case R90 => 1 case R180 => 2 case R270 => 3
  }

  lemma FirstIsChosen(rand: Draws, n: nat, here: seq<Mark>, row: int, col: int, fill: Fill)
    ensures var order := Rotations(Keys(rand, n)); var f := FirstFit(here, order, 0, row, col, fill);
            if exists rot :: Fits(here, rot, row, col, fill) then
              f < 4 && Chosen(rand, n, here, order[f], row, col, fill)
            else f == 4
  {
    hide Fits, Rotations;
    if rot :| Fits(here, rot, row, col, fill) {
      FirstBefore(rand, n, here, row, col, fill, IndexOf(rot));
      forall j: nat | j < 4 && Fits(here, ROTATIONS[j], row, col, fill)
        ensures var order := Rotations(Keys(rand, n)); var f := FirstFit(here, order, 0, row, col, fill);
                f < 4 && (rand(n + order[f]) < rand(n + j) || (rand(n + order[f]) == rand(n + j) && order[f] <= j))
      {
        FirstBefore(rand, n, here, row, col, fill, j);
      }
    }
  }

  lemma OrderIsRotations(keys: seq<real>)
    ensures Rotations(keys) == Order(keys, |keys|) && Sorted(keys, Rotations(keys))
  {
    OrderSorts(keys, |keys|);
  }

  // ---------- The order the cells are visited in ----------

  function PhaseNo(phase: Phase): nat {
    match phase case Mass => 0 case Ragged => 1 case Scatter => 2
  }

  function PhaseAt(start: int, col: int): nat {
    if col >= start + 2 then 0 else if col >= start then 1 else 2
  }

  predicate Visited(start: seq<int>, m: Mark, phase: Phase, row: int, col: int)
    requires Boundary(start)
  {
    && 0 <= m.row < ROWS
    && (PhaseAt(start[m.row], m.col) < PhaseNo(phase)
        || (PhaseAt(start[m.row], m.col) == PhaseNo(phase) && (m.row < row || (m.row == row && m.col < col))))
  }

  predicate AllVisited(marks: seq<Mark>, start: seq<int>, phase: Phase, row: int, col: int)
    requires Boundary(start)
  {
    forall i :: 0 <= i < |marks| && marks[i].shape != Semicolon ==> Visited(start, marks[i], phase, row, col)
  }

  // What a cell's step appends stands on the cell.
  predicate AddsAt(s: State, t: State, row: int, col: int) {
    && s.marks <= t.marks && |t.marks| <= |s.marks| + 1 && s.drawn <= t.drawn
    && forall i :: |s.marks| <= i < |t.marks| ==> At(t.marks[i], row, col)
  }

  lemma CommaAdds(rand: Draws, s: State, row: int, col: int, fill: Fill, fade: real)
    ensures AddsAt(s, CommaPlaced(rand, s, row, col, fill, fade), row, col)
  {
    hide Fits;
  }

  lemma CellAdds(rand: Draws, phase: Phase, s: State, start: seq<int>, row: nat, col: int)
    requires row < |start| && col < Hi(phase, start, row)
    ensures AddsAt(s, CellDone(rand, phase, s, start, row, col), row, col)
  {
    hide CommaPlaced, FreeIn, ScatterChance, FadeAt;
    var fill := if col >= PHOTO_START then Image else Solid;
    CommaAdds(rand, s.(drawn := s.drawn + 1), row, col, fill, 1.0);
    if phase == Scatter {
      var near := ScatterFill(start[row], col);
      CommaAdds(rand, s.(drawn := s.drawn + 2), row, col, near,
        if near == Solid then FadeAt(start[row] - col) else 1.0);
    }
  }

  // A row's steps append marks on its cells from the column on; the rows' steps, from the row on.
  lemma {:induction false} RowAdds(rand: Draws, phase: Phase, s: State, start: seq<int>, row: nat, col: int)
    requires row < |start|
    ensures var t := RowDone(rand, phase, s, start, row, col);
            && s.marks <= t.marks && s.drawn <= t.drawn
            && forall i :: |s.marks| <= i < |t.marks| ==>
                 t.marks[i].shape != Semicolon && t.marks[i].row == row && col <= t.marks[i].col < Hi(phase, start, row)
    decreases Hi(phase, start, row) - col
  {
    hide CellDone;
    if col < Hi(phase, start, row) {
      CellAdds(rand, phase, s, start, row, col);
      RowAdds(rand, phase, CellDone(rand, phase, s, start, row, col), start, row, col + 1);
    }
  }

  lemma {:induction false} RowsAdd(rand: Draws, phase: Phase, s: State, start: seq<int>, row: nat)
    ensures var t := RowsDone(rand, phase, s, start, row);
            && s.marks <= t.marks && s.drawn <= t.drawn
            && forall i :: |s.marks| <= i < |t.marks| ==> AddedBy(phase, start, t.marks[i], row)
    decreases |start| - row
  {
    if row < |start| {
      var r := RowDone(rand, phase, s, start, row, Lo(phase, start, row));
      RowAdds(rand, phase, s, start, row, Lo(phase, start, row));
      hide RowDone;
      RowsAdd(rand, phase, r, start, row + 1);
      JoinAdded(phase, start, s, r, RowsDone(rand, phase, r, start, row + 1), row);
    }
  }

  lemma JoinAdded(phase: Phase, start: seq<int>, s: State, r: State, t: State, row: nat)
    requires row < |start| && s.marks <= r.marks <= t.marks
    requires forall i :: |s.marks| <= i < |r.marks| ==>
        r.marks[i].shape != Semicolon && r.marks[i].row == row
        && Lo(phase, start, row) <= r.marks[i].col < Hi(phase, start, row)
    requires forall i :: |r.marks| <= i < |t.marks| ==> AddedBy(phase, start, t.marks[i], row + 1)
    ensures forall i :: |s.marks| <= i < |t.marks| ==> AddedBy(phase, start, t.marks[i], row)
  {
    assert forall i :: 0 <= i < |r.marks| ==> t.marks[i] == r.marks[i];
  }

  predicate AddedBy(phase: Phase, start: seq<int>, m: Mark, row: int) {
    && m.shape != Semicolon && row <= m.row < |start| && 0 <= m.row
    && Lo(phase, start, m.row) <= m.col < Hi(phase, start, m.row)
  }

  lemma {:induction false} SemicolonsAdd(rand: Draws, s: State, start: seq<int>, tries: nat, placed: nat)
    requires Boundary(start)
    ensures var t := SemicolonsDone(rand, s, start, tries, placed);
            && s.marks <= t.marks && s.drawn <= t.drawn
            && forall i :: |s.marks| <= i < |t.marks| ==> t.marks[i].shape == Semicolon
    decreases TRIES - tries
  {
    hide FadeAt, FreeIn;
    if tries < TRIES && placed < SEMICOLONS {
      var t := SemicolonTried(rand, s, start);
      SemicolonsAdd(rand, t, start, tries + 1, if |t.marks| == |s.marks| then placed else placed + 1);
    }
  }

  // ---------- Each cell by its draws ----------

  lemma PushedIs(rand: Draws, s: State, shape: Shape, row: int, col: int, rot: Rot, fill: Fill, fade: real)
    ensures var t := Pushed(rand, s, shape, row, col, rot, fill, fade);
            && |t.marks| == |s.marks| + 1 && t.marks[..|s.marks|] == s.marks
            && t.marks[|s.marks|].row == row && t.marks[|s.marks|].col == col
            && IsMark(t.marks[|s.marks|], shape, rot, fill, fade, rand(DelayDraw(s.drawn, fill)))
  {
  }

  // All that is on the cell, once it has been visited, is what its step put there.
  predicate Settles(s: State, t: State, all: seq<Mark>, row: int, col: int) {
    && s.marks <= t.marks <= all && NoneFrom(s.marks, 0, row, col) && NoneFrom(all, |t.marks|, row, col)
  }

  lemma PutIs(s: State, t: State, all: seq<Mark>, row: int, col: int)
    requires Settles(s, t, all, row, col) && AddsAt(s, t, row, col)
    ensures |s.marks| <= |all| && all[..|s.marks|] == s.marks
    ensures if t.marks == s.marks then Leaves(all, row, col)
            else Alone(all, |s.marks|, row, col) && all[|s.marks|] == t.marks[|s.marks|]
  {
    assert forall i :: 0 <= i < |t.marks| ==> all[i] == t.marks[i];
    assert forall i :: 0 <= i < |s.marks| ==> all[i] == s.marks[i];
  }

  lemma SettlesMarks(s: State, t: State, s2: State, t2: State, all: seq<Mark>, row: int, col: int)
    requires Settles(s, t, all, row, col) && s2.marks == s.marks && t2.marks == t.marks
    ensures Settles(s2, t2, all, row, col) && |s.marks| <= |all| && all[..|s.marks|] == s.marks
  {
  }

  lemma SquareRules(rand: Draws, s: State, all: seq<Mark>, row: int, col: int, fill: Fill, fade: real)
    requires Settles(s, Pushed(rand, s, Square, row, col, R0, fill, fade), all, row, col)
    ensures |s.marks| <= |all| && Squared(rand, s.drawn, all, |s.marks|, row, col, fill, fade)
  {
    var t := Pushed(rand, s, Square, row, col, R0, fill, fade);
    PushedIs(rand, s, Square, row, col, R0, fill, fade);
    assert AddsAt(s, t, row, col);
    hide Pushed, IsMark, NoneFrom;
    PutIs(s, t, all, row, col);
  }

  // A comma is placed exactly when some rotation fits.
  lemma CommaChosen(rand: Draws, s: State, row: int, col: int, fill: Fill, fade: real, rot: Rot) returns (k: nat)
    requires Fits(s.marks, rot, row, col, fill)
    ensures Chosen(rand, s.drawn, s.marks, k, row, col, fill)
    ensures CommaPlaced(rand, s, row, col, fill, fade)
         == Pushed(rand, s.(drawn := s.drawn + 4), Comma, row, col, ROTATIONS[k], fill, fade)
  {
    FirstIsChosen(rand, s.drawn, s.marks, row, col, fill);
    KeyAt(rand, s.drawn, 0);
    hide Fits, Rotations, FirstFit, Chosen, Keys, Pushed;
    var order := Rotations(Keys(rand, s.drawn));
    k := order[FirstFit(s.marks, order, 0, row, col, fill)];
  }

  lemma NoComma(rand: Draws, s: State, row: int, col: int, fill: Fill, fade: real)
    requires !exists rot :: Fits(s.marks, rot, row, col, fill)
    ensures CommaPlaced(rand, s, row, col, fill, fade).marks == s.marks
  {
    FirstIsChosen(rand, s.drawn, s.marks, row, col, fill);
    KeyAt(rand, s.drawn, 0);
    hide Fits, Rotations, FirstFit, Chosen, Keys, Pushed;
  }

  lemma CommaIs(rand: Draws, s: State, row: int, col: int, fill: Fill, fade: real)
    ensures var t := CommaPlaced(rand, s, row, col, fill, fade);
            if exists rot :: Fits(s.marks, rot, row, col, fill) then
              |t.marks| == |s.marks| + 1 && exists k: nat ::
                Chosen(rand, s.drawn, s.marks, k, row, col, fill)
                && IsMark(t.marks[|s.marks|], Comma, ROTATIONS[k], fill, fade, rand(DelayDraw(s.drawn + 4, fill)))
            else t.marks == s.marks
  {
    hide Fits, IsMark, CommaPlaced;
    if rot :| Fits(s.marks, rot, row, col, fill) {
      var k := CommaChosen(rand, s, row, col, fill, fade, rot);
      PushedIs(rand, s.(drawn := s.drawn + 4), Comma, row, col, ROTATIONS[k], fill, fade);
    } else {
      NoComma(rand, s, row, col, fill, fade);
    }
  }

  lemma CommaRules(rand: Draws, s: State, all: seq<Mark>, row: int, col: int, fill: Fill, fade: real)
    requires Settles(s, CommaPlaced(rand, s, row, col, fill, fade), all, row, col)
    ensures |s.marks| <= |all| && Commaed(rand, s.drawn, all, |s.marks|, row, col, fill, fade)
  {
    var t := CommaPlaced(rand, s, row, col, fill, fade);
    CommaAdds(rand, s, row, col, fill, fade);
    CommaIs(rand, s, row, col, fill, fade);
    hide CommaPlaced, Fits, Chosen, IsMark, Alone, Leaves;
    PutIs(s, t, all, row, col);
  }

  lemma RaggedIs(rand: Draws, s: State, row: int, col: int)
    ensures var t, s1, u := RaggedCell(rand, s, row, col), s.(drawn := s.drawn + 1), rand(s.drawn);
            var fill := if col >= 5 then Image else Solid;
            if u < 0.65 && FreeIn(s.marks, SquareFoot(row, col)) then
              t == Pushed(rand, s1, Square, row, col, R0, fill, 1.0)
            else if u < 0.83 then t == CommaPlaced(rand, s1, row, col, fill, 1.0)
            else t == s1
  {
    hide FreeIn, Pushed, CommaPlaced;
  }

  lemma RaggedByCase(rand: Draws, n: nat, all: seq<Mark>, p: nat, row: int, col: int, here: seq<Mark>, fill: Fill)
    requires p <= |all| && here == all[..p] && fill == if col >= 5 then Image else Solid
    requires var square := rand(n) < 0.65 && FreeIn(here, SquareFoot(row, col));
             && (square ==> Squared(rand, n + 1, all, p, row, col, fill, 1.0))
             && (!square && rand(n) < 0.83 ==> Commaed(rand, n + 1, all, p, row, col, fill, 1.0))
             && (!square && rand(n) >= 0.83 ==> Leaves(all, row, col))
    ensures RaggedRule(rand, n, all, p, row, col)
  {
    hide Squared, Commaed, Leaves, FreeIn;
  }

  lemma RaggedMarks(rand: Draws, s: State, all: seq<Mark>, row: int, col: int, fill: Fill)
    requires Settles(s, RaggedCell(rand, s, row, col), all, row, col) && fill == if col >= 5 then Image else Solid
    requires |s.marks| <= |all|
    ensures var square, p := rand(s.drawn) < 0.65 && FreeIn(s.marks, SquareFoot(row, col)), |s.marks|;
            && (square ==> Squared(rand, s.drawn + 1, all, p, row, col, fill, 1.0))
            && (!square && rand(s.drawn) < 0.83 ==> Commaed(rand, s.drawn + 1, all, p, row, col, fill, 1.0))
            && (!square && rand(s.drawn) >= 0.83 ==> Leaves(all, row, col))
  {
    var s1, t := s.(drawn := s.drawn + 1), RaggedCell(rand, s, row, col);
    RaggedIs(rand, s, row, col);
    SettlesMarks(s, t, s1, t, all, row, col);
    hide *;
    if rand(s.drawn) < 0.65 && FreeIn(s.marks, SquareFoot(row, col)) {
      SquareRules(rand, s1, all, row, col, fill, 1.0);
    } else if rand(s.drawn) < 0.83 {
      CommaRules(rand, s1, all, row, col, fill, 1.0);
    } else {
      StepsOver(s1, t, all, row, col);
    }
  }

  lemma RaggedRules(rand: Draws, s: State, all: seq<Mark>, row: int, col: int)
    requires Settles(s, RaggedCell(rand, s, row, col), all, row, col)
    ensures |s.marks| <= |all| && RaggedRule(rand, s.drawn, all, |s.marks|, row, col)
  {
    hide *;
    var fill := if col >= 5 then Image else Solid;
    var t := RaggedCell(rand, s, row, col);
    SettlesMarks(s, t, s, t, all, row, col);
    RaggedMarks(rand, s, all, row, col, fill);
    RaggedByCase(rand, s.drawn, all, |s.marks|, row, col, s.marks, fill);
  }

  lemma StepsOver(s: State, t: State, all: seq<Mark>, row: int, col: int)
    requires Settles(s, t, all, row, col) && t.marks == s.marks
    ensures Leaves(all, row, col)
  {
    assert forall i :: 0 <= i < |s.marks| ==> all[i] == s.marks[i];
  }

  lemma ChanceIs(dist: int)
    requires 1 <= dist <= 6
    ensures ScatterChance(dist) == Chance(dist)
  {
  }

  lemma FadeAgrees(start: int, col: int, fill: Fill)
    requires col < start && fill != Cutout
    ensures FadeOf(start, col, fill) == if fill == Solid then FadeAt(start - col) else 1.0
  {
    FadeIs(start - col);
    hide FadeAt, Faded;
  }

  lemma ScatterIs(rand: Draws, s: State, start: int, row: int, col: int, fill: Fill)
    requires 1 <= start - col <= 6 && fill == if start - col <= 1 && col >= 5 then Image else Solid
    ensures ScatterCell(rand, s, start, row, col)
         == if rand(s.drawn) >= Chance(start - col) then s.(drawn := s.drawn + 1)
            else
              Scattered(rand, s.(drawn := s.drawn + 2), row, col, rand(s.drawn + 1) < 0.6, fill,
                FadeOf(start, col, fill))
  {
    ChanceIs(start - col);
    FadeAgrees(start, col, fill);
    hide Scattered, ScatterChance, Chance, FadeAt, FadeOf;
  }

  lemma ScatteredIs(rand: Draws, s: State, row: int, col: int, comma: bool, fill: Fill, fade: real)
    ensures var t := Scattered(rand, s, row, col, comma, fill, fade);
            if comma then t == CommaPlaced(rand, s, row, col, fill, fade)
            else if FreeIn(s.marks, SquareFoot(row, col)) then t == Pushed(rand, s, Square, row, col, R0, fill, fade)
            else t == s
  {
    hide FreeIn, Pushed, CommaPlaced;
  }

  lemma ScatterByCase(rand: Draws, n: nat, all: seq<Mark>, p: nat, start: int, row: int, col: int, here: seq<Mark>,
      fill: Fill, fade: real)
    requires p <= |all| && here == all[..p] && fill == (if start - col <= 1 && col >= 5 then Image else Solid)
    requires fade == FadeOf(start, col, fill)
    requires rand(n) >= Chance(start - col) ==> Leaves(all, row, col)
    requires rand(n) < Chance(start - col) && rand(n + 1) < 0.6 ==> Commaed(rand, n + 2, all, p, row, col, fill, fade)
    requires rand(n) < Chance(start - col) && rand(n + 1) >= 0.6 ==>
        if FreeIn(here, SquareFoot(row, col)) then Squared(rand, n + 2, all, p, row, col, fill, fade)
        else Leaves(all, row, col)
    ensures ScatterRule(rand, n, all, p, start, row, col)
  {
    hide Squared, Commaed, Leaves, FreeIn, Chance, FadeOf;
  }

  lemma ScatteredRules(rand: Draws, s: State, all: seq<Mark>, row: int, col: int, comma: bool, fill: Fill, fade: real)
    requires Settles(s, Scattered(rand, s, row, col, comma, fill, fade), all, row, col)
    ensures |s.marks| <= |all|
    ensures if comma then Commaed(rand, s.drawn, all, |s.marks|, row, col, fill, fade)
            else if FreeIn(s.marks, SquareFoot(row, col)) then
              Squared(rand, s.drawn, all, |s.marks|, row, col, fill, fade)
            else Leaves(all, row, col)
  {
    var t := Scattered(rand, s, row, col, comma, fill, fade);
    ScatteredIs(rand, s, row, col, comma, fill, fade);
    SettlesMarks(s, t, s, t, all, row, col);
    hide *;
    if comma {
      CommaRules(rand, s, all, row, col, fill, fade);
    } else if FreeIn(s.marks, SquareFoot(row, col)) {
      SquareRules(rand, s, all, row, col, fill, fade);
    } else {
      StepsOver(s, t, all, row, col);
    }
  }

  lemma ScatterMarks(rand: Draws, s: State, all: seq<Mark>, start: int, row: int, col: int, fill: Fill, fade: real)
    requires 1 <= start - col <= 6 && Settles(s, ScatterCell(rand, s, start, row, col), all, row, col)
    requires fill == (if start - col <= 1 && col >= 5 then Image else Solid) && fade == FadeOf(start, col, fill)
    requires |s.marks| <= |all|
    ensures rand(s.drawn) >= Chance(start - col) ==> Leaves(all, row, col)
    ensures rand(s.drawn) < Chance(start - col) ==>
        if rand(s.drawn + 1) < 0.6 then Commaed(rand, s.drawn + 2, all, |s.marks|, row, col, fill, fade)
        else if FreeIn(s.marks, SquareFoot(row, col)) then
          Squared(rand, s.drawn + 2, all, |s.marks|, row, col, fill, fade)
        else Leaves(all, row, col)
  {
    var s2, t := s.(drawn := s.drawn + 2), ScatterCell(rand, s, start, row, col);
    ScatterIs(rand, s, start, row, col, fill);
    SettlesMarks(s, t, s2, t, all, row, col);
    hide *;
    if rand(s.drawn) >= Chance(start - col) {
      StepsOver(s2, t, all, row, col);
    } else {
      ScatteredRules(rand, s2, all, row, col, rand(s.drawn + 1) < 0.6, fill, fade);
    }
  }

  lemma ScatterRules(rand: Draws, s: State, all: seq<Mark>, start: int, row: int, col: int)
    requires 1 <= start - col <= 6 && Settles(s, ScatterCell(rand, s, start, row, col), all, row, col)
    ensures |s.marks| <= |all| && ScatterRule(rand, s.drawn, all, |s.marks|, start, row, col)
  {
    hide *;
    var fill := if start - col <= 1 && col >= 5 then Image else Solid;
    var fade := FadeOf(start, col, fill);
    var t := ScatterCell(rand, s, start, row, col);
    SettlesMarks(s, t, s, t, all, row, col);
    ScatterMarks(rand, s, all, start, row, col, fill, fade);
    ScatterByCase(rand, s.drawn, all, |s.marks|, start, row, col, s.marks, fill, fade);
  }

  lemma CellRules(rand: Draws, phase: Phase, s: State, start: seq<int>, row: nat, col: int, all: seq<Mark>)
    requires Boundary(start) && row < ROWS && Lo(phase, start, row) <= col < Hi(phase, start, row)
    requires Settles(s, CellDone(rand, phase, s, start, row, col), all, row, col)
    ensures |s.marks| <= |all| && CellRule(rand, s.drawn, all, |s.marks|, start[row], row, col)
  {
    hide RaggedCell, ScatterCell, Pushed, RaggedRule, ScatterRule, Squared, NoneFrom;
    match phase
    case Mass => SquareRules(rand, s, all, row, col, Image, 1.0);
    case Ragged => RaggedRules(rand, s, all, row, col);
    case Scatter => ScatterRules(rand, s, all, start[row], row, col);
  }

  // Some draws after the walk's decided the cell, among the marks placed before.
  ghost predicate Decided(rand: Draws, all: seq<Mark>, start: int, row: int, col: int) {
    exists n: nat, p: nat :: n >= 1 + ROWS && p <= |all| && CellRule(rand, n, all, p, start, row, col)
  }

  lemma VisitedElsewhere(marks: seq<Mark>, start: seq<int>, phase: Phase, row: nat, col: int)
    requires Boundary(start) && row < ROWS && Lo(phase, start, row) <= col < Hi(phase, start, row)
    requires AllVisited(marks, start, phase, row, col)
    ensures NoneFrom(marks, 0, row, col)
  {
  }

  // A row from a column on: the steps of that column, and of those after it.
  lemma RowSteps(rand: Draws, phase: Phase, s: State, start: seq<int>, row: nat, col: int, t: State)
    requires row < |start| && col < Hi(phase, start, row) && t == CellDone(rand, phase, s, start, row, col)
    ensures AddsAt(s, t, row, col) && s.marks <= t.marks && s.drawn <= t.drawn
    ensures RowDone(rand, phase, s, start, row, col) == RowDone(rand, phase, t, start, row, col + 1)
  {
    CellAdds(rand, phase, s, start, row, col);
  }

  lemma HereSettles(rand: Draws, phase: Phase, s: State, start: seq<int>, row: nat, col: int, r: State, all: seq<Mark>)
    requires Boundary(start) && row < ROWS && Lo(phase, start, row) <= col < Hi(phase, start, row)
    requires AllVisited(s.marks, start, phase, row, col)
    requires r == RowDone(rand, phase, s, start, row, col) && r.marks <= all && NoneFrom(all, |r.marks|, row, col)
    ensures Settles(s, CellDone(rand, phase, s, start, row, col), all, row, col)
  {
    hide CellDone, RowDone, AllVisited, NoneFrom, AddsAt;
    var t := CellDone(rand, phase, s, start, row, col);
    RowSteps(rand, phase, s, start, row, col, t);
    RowAdds(rand, phase, t, start, row, col + 1);
    VisitedElsewhere(s.marks, start, phase, row, col);
    SettlesHere(s, t, r, all, row, col);
  }

  lemma HereDecided(rand: Draws, phase: Phase, s: State, start: seq<int>, row: nat, col: int, r: State, all: seq<Mark>)
    requires Boundary(start) && row < ROWS && Lo(phase, start, row) <= col < Hi(phase, start, row)
    requires AllVisited(s.marks, start, phase, row, col) && s.drawn >= 1 + ROWS
    requires r == RowDone(rand, phase, s, start, row, col) && r.marks <= all && NoneFrom(all, |r.marks|, row, col)
    ensures Decided(rand, all, start[row], row, col)
  {
    hide CellDone, CellRule, RowDone, AllVisited, NoneFrom, Settles;
    HereSettles(rand, phase, s, start, row, col, r, all);
    CellRules(rand, phase, s, start, row, col, all);
  }

  lemma {:induction false} RowDecides(
      rand: Draws, phase: Phase, s: State, start: seq<int>, row: nat, col: int, at: int, r: State, all: seq<Mark>)
    requires Boundary(start) && row < ROWS && Lo(phase, start, row) <= col <= at < Hi(phase, start, row)
    requires AllVisited(s.marks, start, phase, row, col) && s.drawn >= 1 + ROWS
    requires r == RowDone(rand, phase, s, start, row, col) && r.marks <= all && NoneFrom(all, |r.marks|, row, at)
    ensures Decided(rand, all, start[row], row, at)
    decreases Hi(phase, start, row) - col
  {
    hide CellDone, RowDone, AllVisited, NoneFrom, AddsAt, Decided;
    if col == at {
      HereDecided(rand, phase, s, start, row, col, r, all);
    } else {
      var t := CellDone(rand, phase, s, start, row, col);
      RowSteps(rand, phase, s, start, row, col, t);
      VisitedNext(s, t, start, phase, row, col);
      RowDecides(rand, phase, t, start, row, col + 1, at, r, all);
    }
  }

  lemma SettlesHere(s: State, t: State, r: State, all: seq<Mark>, row: int, col: int)
    requires s.marks <= t.marks <= r.marks <= all
    requires NoneFrom(s.marks, 0, row, col) && NoneFrom(all, |r.marks|, row, col)
    requires forall i :: |t.marks| <= i < |r.marks| ==> r.marks[i].col > col
    ensures Settles(s, t, all, row, col)
  {
    assert forall i :: 0 <= i < |r.marks| ==> all[i] == r.marks[i];
  }

  lemma VisitedNext(s: State, t: State, start: seq<int>, phase: Phase, row: nat, col: int)
    requires Boundary(start) && row < ROWS && Lo(phase, start, row) <= col < Hi(phase, start, row)
    requires AllVisited(s.marks, start, phase, row, col) && AddsAt(s, t, row, col)
    ensures AllVisited(t.marks, start, phase, row, col + 1)
  {
    assert forall i :: 0 <= i < |s.marks| ==> t.marks[i] == s.marks[i];
  }

  lemma {:induction false} RowsDecide(
      rand: Draws, phase: Phase, s: State, start: seq<int>, row: nat, to: nat, at: int, all: seq<Mark>)
    requires Boundary(start) && row <= to < ROWS && Lo(phase, start, to) <= at < Hi(phase, start, to)
    requires AllVisited(s.marks, start, phase, row, 0) && s.drawn >= 1 + ROWS
    requires RowsDone(rand, phase, s, start, row).marks <= all
    requires NoneFrom(all, |RowsDone(rand, phase, s, start, row).marks|, to, at)
    ensures Decided(rand, all, start[to], to, at)
    decreases ROWS - row
  {
    var lo := Lo(phase, start, row);
    var r := RowDone(rand, phase, s, start, row, lo);
    var t := RowsDone(rand, phase, r, start, row + 1);
    RowAdds(rand, phase, s, start, row, lo);
    RowsAdd(rand, phase, r, start, row + 1);
    assert RowsDone(rand, phase, s, start, row) == t;
    hide RowDone, RowsDone, Decided;
    RowVisited(s, r, start, phase, row);
    if row == to {
      RowsElsewhere(r, t, start, phase, row, at, all);
      hide NoneFrom, AllVisited;
      RowDecides(rand, phase, s, start, row, lo, at, r, all);
    } else {
      hide NoneFrom, AllVisited;
      RowsDecide(rand, phase, r, start, row + 1, to, at, all);
    }
  }

  lemma RowVisited(s: State, r: State, start: seq<int>, phase: Phase, row: nat)
    requires Boundary(start) && row < ROWS && s.marks <= r.marks && AllVisited(s.marks, start, phase, row, 0)
    requires forall i :: |s.marks| <= i < |r.marks| ==>
        r.marks[i].shape != Semicolon && r.marks[i].row == row
        && Lo(phase, start, row) <= r.marks[i].col < Hi(phase, start, row)
    ensures AllVisited(s.marks, start, phase, row, Lo(phase, start, row))
    ensures AllVisited(r.marks, start, phase, row + 1, 0)
  {
    assert forall i :: 0 <= i < |s.marks| ==> r.marks[i] == s.marks[i];
  }

  lemma RowsElsewhere(r: State, t: State, start: seq<int>, phase: Phase, row: nat, at: int, all: seq<Mark>)
    requires r.marks <= t.marks <= all && NoneFrom(all, |t.marks|, row, at)
    requires forall i :: |r.marks| <= i < |t.marks| ==> AddedBy(phase, start, t.marks[i], row + 1)
    ensures NoneFrom(all, |r.marks|, row, at)
  {
    assert forall i :: 0 <= i < |t.marks| ==> all[i] == t.marks[i];
  }

  // A phase leaves every mark on the cells of its own and the phases before, and none on a later phase's.
  lemma PhaseLeaves(rand: Draws, phase: Phase, s: State, start: seq<int>, next: Phase)
    requires Boundary(start) && AllVisited(s.marks, start, phase, 0, 0) && PhaseNo(next) == PhaseNo(phase) + 1
    ensures AllVisited(RowsDone(rand, phase, s, start, 0).marks, start, next, 0, 0)
  {
    RowsAdd(rand, phase, s, start, 0);
  }

  // For every stream, each cell of the grid holds what its own draws and the marks placed before it make of it.
  lemma CellsDecided(rand: Draws, row: nat, col: nat)
    requires row < ROWS && col < COLS
    ensures Decided(rand, Placed(rand).marks, StartAt(rand, row), row, col)
  {
    var start := Starts(rand);
    StartsBound(rand);
    var none := State([], 1 + ROWS);
    var mass := RowsDone(rand, Mass, none, start, 0);
    var ragged := RowsDone(rand, Ragged, mass, start, 0);
    var spotted := SemicolonsDone(rand, ragged, start, 0, 0);
    var last := RowsDone(rand, Scatter, spotted, start, 0);
    assert Placed(rand) == last && start[row] == StartAt(rand, row);
    RowsAdd(rand, Mass, none, start, 0);
    RowsAdd(rand, Ragged, mass, start, 0);
    SemicolonsAdd(rand, ragged, start, 0, 0);
    RowsAdd(rand, Scatter, spotted, start, 0);
    PhaseLeaves(rand, Mass, none, start, Ragged);
    PhaseLeaves(rand, Ragged, mass, start, Scatter);
    hide RowsDone, SemicolonsDone, Placed, Starts, StartAt, Decided;
    var all := last.marks;
    LaterElsewhere(all, mass, ragged, spotted, start, row, col);
    if col >= start[row] + 2 {
      RowsDecide(rand, Mass, none, start, 0, row, col, all);
    } else if col >= start[row] {
      RowsDecide(rand, Ragged, mass, start, 0, row, col, all);
    } else {
      RowsDecide(rand, Scatter, spotted, start, 0, row, col, all);
    }
  }

  lemma LaterElsewhere(all: seq<Mark>, mass: State, ragged: State, spotted: State, start: seq<int>, row: nat, col: nat)
    requires Boundary(start) && row < ROWS && col < COLS
    requires mass.marks <= ragged.marks <= spotted.marks <= all
    requires forall i :: |mass.marks| <= i < |ragged.marks| ==> AddedBy(Ragged, start, ragged.marks[i], 0)
    requires forall i :: |ragged.marks| <= i < |spotted.marks| ==> spotted.marks[i].shape == Semicolon
    requires forall i :: |spotted.marks| <= i < |all| ==> AddedBy(Scatter, start, all[i], 0)
    ensures col >= start[row] ==> NoneFrom(all, |ragged.marks|, row, col)
    ensures col >= start[row] + 2 ==> NoneFrom(all, |mass.marks|, row, col)
    ensures NoneFrom(all, |all|, row, col)
  {
    assert forall i :: 0 <= i < |ragged.marks| ==> all[i] == ragged.marks[i];
    assert forall i :: 0 <= i < |spotted.marks| ==> all[i] == spotted.marks[i];
  }

  // ---------- The semicolons' tries ----------

  // Two draws a try and one more for each placed: the tries stop at three placed, or at the fortieth.
  lemma {:induction false} SemicolonsDraw(rand: Draws, s: State, start: seq<int>, tries: nat, placed: nat)
    requires Boundary(start) && tries <= TRIES && placed <= SEMICOLONS
    ensures var t := SemicolonsDone(rand, s, start, tries, placed);
            var more := |t.marks| - |s.marks|;
            && 0 <= more <= 3 - placed
            && exists k: nat ::
                 k <= 40 - tries && t.drawn == s.drawn + 2 * k + more && (placed + more < 3 ==> k == 40 - tries)
    decreases TRIES - tries
  {
    hide FadeAt, FreeIn, SemicolonRow, SemicolonCol;
    if tries < TRIES && placed < SEMICOLONS {
      var t := SemicolonTried(rand, s, start);
      var now := if |t.marks| == |s.marks| then placed else placed + 1;
      SemicolonsDraw(rand, t, start, tries + 1, now);
      var u := SemicolonsDone(rand, t, start, tries + 1, now);
      var k: nat :| k <= 40 - (tries + 1) && u.drawn == t.drawn + 2 * k + (|u.marks| - |t.marks|)
          && (now + (|u.marks| - |t.marks|) < 3 ==> k == 40 - (tries + 1));
      assert u.drawn == s.drawn + 2 * (k + 1) + (|u.marks| - |s.marks|);
    } else {
      assert s.drawn == s.drawn + 2 * 0 + 0;
    }
  }

  // A semicolon's row and column are two draws', the row's first: twelve rows, and the second or third column left of
  // the boundary. The next makes its delay.
  predicate SemicolonBy(rand: Draws, n: nat, m: Mark, start: seq<int>)
    requires Boundary(start)
  {
    && 2 <= m.row <= 13
    && (m.row - 2) as real <= 12.0 * rand(n) < (m.row - 1) as real
    && m.col == start[m.row] - (if rand(n + 1) < 0.5 then 2 else 3)
    && IsMark(m, Semicolon, R0, Solid, Faded(start[m.row] - m.col), rand(n + 2))
  }

  ghost predicate SemicolonDrawn(rand: Draws, m: Mark, start: seq<int>)
    requires Boundary(start)
  {
    exists n: nat :: n >= 1 + ROWS && SemicolonBy(rand, n, m, start)
  }

  lemma TryDraws(rand: Draws, s: State, start: seq<int>)
    requires Boundary(start)
    ensures var t := SemicolonTried(rand, s, start);
            && s.marks <= t.marks && |t.marks| <= |s.marks| + 1 && s.drawn <= t.drawn
            && (|t.marks| > |s.marks| ==> SemicolonBy(rand, s.drawn, t.marks[|s.marks|], start))
  {
    var u, v := rand(s.drawn), rand(s.drawn + 1);
    SemicolonRowRange(u);
    var row := SemicolonRow(u);
    var col := SemicolonCol(start[row], v);
    ColumnIs(start[row], v);
    FadeIs(start[row] - col);
    PushedIs(rand, s.(drawn := s.drawn + 2), Semicolon, row, col, R0, Solid, FadeAt(start[row] - col));
    hide FreeIn, Pushed, SemicolonCol, FadeAt, Faded, IsMark;
  }

  lemma ColumnIs(start: int, v: real)
    requires start >= 3 && 0.0 <= v < 1.0
    ensures SemicolonCol(start, v) == start - if v < 0.5 then 2 else 3
  {
  }

  lemma {:induction false} TriesDraw(rand: Draws, s: State, start: seq<int>, tries: nat, placed: nat, i: nat)
    requires Boundary(start) && s.drawn >= 1 + ROWS
    requires |s.marks| <= i < |SemicolonsDone(rand, s, start, tries, placed).marks|
    ensures SemicolonDrawn(rand, SemicolonsDone(rand, s, start, tries, placed).marks[i], start)
    decreases TRIES - tries
  {
    hide SemicolonTried, SemicolonBy;
    if tries < TRIES && placed < SEMICOLONS {
      var t := SemicolonTried(rand, s, start);
      var now := if |t.marks| == |s.marks| then placed else placed + 1;
      TryDraws(rand, s, start);
      SemicolonsAdd(rand, t, start, tries + 1, now);
      if i >= |t.marks| {
        TriesDraw(rand, t, start, tries + 1, now, i);
      }
    }
  }

  // ---------- The order the marks are placed in ----------

  function Stage(start: seq<int>, m: Mark): nat
    requires Boundary(start)
  {
    if m.shape == Semicolon then 2
    else if !(0 <= m.row < ROWS) then 4
    else if m.col >= start[m.row] + 2 then 0
    else if m.col >= start[m.row] then 1 else 3
  }

  // The mass, then the boundary's columns, then the semicolons, then the scatter; each row by row, left to right.
  predicate Before(start: seq<int>, a: Mark, b: Mark)
    requires Boundary(start)
  {
    || Stage(start, a) < Stage(start, b)
    || (Stage(start, a) == Stage(start, b)
        && (Stage(start, a) == 2 || a.row < b.row || (a.row == b.row && a.col < b.col)))
  }

  predicate RowMajor(marks: seq<Mark>, k: nat) {
    forall i, j :: k <= i < j < |marks| ==>
      marks[i].row < marks[j].row || (marks[i].row == marks[j].row && marks[i].col < marks[j].col)
  }

  lemma {:induction false} RowInOrder(rand: Draws, phase: Phase, s: State, start: seq<int>, row: nat, col: int)
    requires row < |start|
    ensures RowMajor(RowDone(rand, phase, s, start, row, col).marks, |s.marks|)
    decreases Hi(phase, start, row) - col
  {
    hide CellDone;
    if col < Hi(phase, start, row) {
      var t := CellDone(rand, phase, s, start, row, col);
      CellAdds(rand, phase, s, start, row, col);
      RowInOrder(rand, phase, t, start, row, col + 1);
      RowAdds(rand, phase, t, start, row, col + 1);
    }
  }

  lemma {:induction false} RowsInOrder(rand: Draws, phase: Phase, s: State, start: seq<int>, row: nat)
    ensures RowMajor(RowsDone(rand, phase, s, start, row).marks, |s.marks|)
    decreases |start| - row
  {
    if row < |start| {
      var lo := Lo(phase, start, row);
      var r := RowDone(rand, phase, s, start, row, lo);
      RowInOrder(rand, phase, s, start, row, lo);
      RowAdds(rand, phase, s, start, row, lo);
      hide RowDone;
      RowsInOrder(rand, phase, r, start, row + 1);
      RowsAdd(rand, phase, r, start, row + 1);
      JoinOrder(phase, start, s, r, RowsDone(rand, phase, r, start, row + 1), row);
    }
  }

  lemma JoinOrder(phase: Phase, start: seq<int>, s: State, r: State, t: State, row: nat)
    requires s.marks <= r.marks <= t.marks && RowMajor(r.marks, |s.marks|) && RowMajor(t.marks, |r.marks|)
    requires forall i :: |s.marks| <= i < |r.marks| ==> r.marks[i].row == row
    requires forall i :: |r.marks| <= i < |t.marks| ==> AddedBy(phase, start, t.marks[i], row + 1)
    ensures RowMajor(t.marks, |s.marks|)
  {
    assert forall i :: 0 <= i < |r.marks| ==> t.marks[i] == r.marks[i];
  }

  // What one pass appends, after marks of earlier stages.
  ghost predicate InStage(start: seq<int>, s: State, t: State, stage: nat)
    requires Boundary(start)
  {
    && s.marks <= t.marks
    && (forall i :: |s.marks| <= i < |t.marks| ==> Stage(start, t.marks[i]) == stage)
    && (stage == 2 || RowMajor(t.marks, |s.marks|))
  }

  ghost predicate ByStages(start: seq<int>, marks: seq<Mark>)
    requires Boundary(start)
  {
    forall i, j :: 0 <= i < j < |marks| ==> Before(start, marks[i], marks[j])
  }

  ghost predicate UpTo(start: seq<int>, marks: seq<Mark>, stage: nat)
    requires Boundary(start)
  {
    forall i :: 0 <= i < |marks| ==> Stage(start, marks[i]) <= stage
  }

  lemma StageAdds(start: seq<int>, s: State, t: State, stage: nat)
    requires Boundary(start) && ByStages(start, s.marks) && InStage(start, s, t, stage)
    requires stage > 0 ==> UpTo(start, s.marks, stage - 1)
    requires stage == 0 ==> s.marks == []
    ensures ByStages(start, t.marks) && UpTo(start, t.marks, stage)
  {
    hide Stage;
    assert forall i :: 0 <= i < |s.marks| ==> t.marks[i] == s.marks[i];
  }

  lemma PhaseStage(rand: Draws, phase: Phase, s: State, start: seq<int>)
    requires Boundary(start)
    ensures InStage(start, s, RowsDone(rand, phase, s, start, 0), if phase == Scatter then 3 else PhaseNo(phase))
  {
    RowsAdd(rand, phase, s, start, 0);
    RowsInOrder(rand, phase, s, start, 0);
    hide RowsDone, RowMajor;
  }

  // For every stream.
  lemma PlacedInOrder(rand: Draws, i: nat, j: nat)
    requires i < j < |Placed(rand).marks|
    ensures Boundary(Starts(rand)) && Before(Starts(rand), Placed(rand).marks[i], Placed(rand).marks[j])
  {
    var start := Starts(rand);
    StartsBound(rand);
    var none := State([], 1 + ROWS);
    var mass := RowsDone(rand, Mass, none, start, 0);
    var ragged := RowsDone(rand, Ragged, mass, start, 0);
    var spotted := SemicolonsDone(rand, ragged, start, 0, 0);
    var last := RowsDone(rand, Scatter, spotted, start, 0);
    assert Placed(rand) == last;
    hide RowsDone, SemicolonsDone, Placed, Starts, InStage, Before;
    PhaseStage(rand, Mass, none, start);
    StageAdds(start, none, mass, 0);
    PhaseStage(rand, Ragged, mass, start);
    StageAdds(start, mass, ragged, 1);
    SemicolonStage(rand, ragged, start);
    StageAdds(start, ragged, spotted, 2);
    PhaseStage(rand, Scatter, spotted, start);
    StageAdds(start, spotted, last, 3);
  }

  lemma SemicolonStage(rand: Draws, s: State, start: seq<int>)
    requires Boundary(start)
    ensures InStage(start, s, SemicolonsDone(rand, s, start, 0, 0), 2)
  {
    SemicolonsAdd(rand, s, start, 0, 0);
    hide SemicolonsDone;
  }

  lemma PlacedIs(rand: Draws, mass: State, ragged: State)
    requires Boundary(Starts(rand))
    requires mass == RowsDone(rand, Mass, State([], 1 + ROWS), Starts(rand), 0)
    requires ragged == RowsDone(rand, Ragged, mass, Starts(rand), 0)
    ensures Placed(rand)
         == RowsDone(rand, Scatter, SemicolonsDone(rand, ragged, Starts(rand), 0, 0), Starts(rand), 0)
  {
    hide RowsDone, SemicolonsDone, Starts;
  }

  lemma SemicolonsAmong(rand: Draws) returns (ragged: State, spotted: State)
    ensures Boundary(Starts(rand)) && ragged.drawn >= 1 + ROWS
    ensures spotted == SemicolonsDone(rand, ragged, Starts(rand), 0, 0)
    ensures ragged.marks <= spotted.marks <= Placed(rand).marks
    ensures forall i :: 0 <= i < |ragged.marks| ==> ragged.marks[i].shape != Semicolon
    ensures forall i :: |spotted.marks| <= i < |Placed(rand).marks| ==> Placed(rand).marks[i].shape != Semicolon
  {
    hide SemicolonsDone, Placed, Starts, RowsDone, Lo, Hi;
    StartsBound(rand);
    var start := Starts(rand);
    var none := State([], 1 + ROWS);
    var mass := RowsDone(rand, Mass, none, start, 0);
    ragged := RowsDone(rand, Ragged, mass, start, 0);
    spotted := SemicolonsDone(rand, ragged, start, 0, 0);
    PlacedIs(rand, mass, ragged);
    RowsAdd(rand, Mass, none, start, 0);
    RowsAdd(rand, Ragged, mass, start, 0);
    SemicolonsAdd(rand, ragged, start, 0, 0);
    RowsAdd(rand, Scatter, spotted, start, 0);
    assert forall k :: 0 <= k < |mass.marks| ==> ragged.marks[k] == mass.marks[k];
  }

  // Each semicolon of the placement is where two draws put it.
  lemma SemicolonsDrawn(rand: Draws, i: nat)
    requires i < |Placed(rand).marks| && Placed(rand).marks[i].shape == Semicolon
    ensures Boundary(Starts(rand)) && SemicolonDrawn(rand, Placed(rand).marks[i], Starts(rand))
  {
    hide *;
    var ragged, spotted := SemicolonsAmong(rand);
    assert i < |spotted.marks| && Placed(rand).marks[i] == spotted.marks[i];
    assert forall k :: 0 <= k < |ragged.marks| ==> spotted.marks[k] == ragged.marks[k];
    TriesDraw(rand, ragged, Starts(rand), 0, 0, i);
  }
}
