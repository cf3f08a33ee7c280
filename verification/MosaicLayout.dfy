// The hero mosaic's layout (apps/web/lib/mosaic-layout.ts) as a function of its random draws. "Free" is said here by
// comparing rectangles; `Mosaic` proves the half-cell occupancy grid computes the same layout.
module MosaicLayout {
  const COLS := 17
  const ROWS := 18
  const PHOTO_START := 5 // COLS minus the photo's 12 columns
  const MIN_START := 3
  const MAX_START := 5
  const CORNER_PUSH := 1
  const BAND := 2
  const BOUNDARY_KEEP := 0.65
  const BOUNDARY_COMMA := 0.18
  const COMMA_WEIGHT := 0.6
  const IMAGE_REACH := 1
  const SEMICOLONS := 3
  const TRIES := 40
  const GRAY_RATE := 0.0

  // The random stream: any draws in [0, 1), so that what follows holds for every seed.
  type Draws = f: nat -> real | forall n: nat :: 0.0 <= f(n) < 1.0 witness n => 0.0

  datatype Shape = Square | Comma | Semicolon | FocusComma
  datatype Fill = Image | Solid | Cutout
  datatype Rot = R0 | R90 | R180 | R270
  datatype Mark = Mark(shape: Shape, col: int, row: int, rot: Rot, fill: Fill, fade: real, gray: bool, delayMs: int)

  const ROTATIONS := [R0, R90, R180, R270]

  // ---------- Rectangles of half-cells ----------

  datatype Rect = Rect(top: int, left: int, height: int, width: int)

  // `COMMA_FOOT`, at the cell's own half-cells.
  function CommaFoot(rot: Rot, row: int, col: int): Rect {
    match rot
    case R0 => Rect(2 * row, 2 * col, 3, 2)
    case R90 => Rect(2 * row, 2 * col - 1, 2, 3)
    case R180 => Rect(2 * row - 1, 2 * col, 3, 2)
    case R270 => Rect(2 * row, 2 * col, 2, 3)
  }

  function SquareFoot(row: int, col: int): Rect {
    Rect(2 * row, 2 * col, 2, 2)
  }

  // A semicolon, three and a half cells tall, with its half-cell margin.
  function SemicolonFoot(row: int, col: int): Rect {
    Rect(2 * row - 1, 2 * col - 1, 9, 4)
  }

  // What a placed mark claims.
  function Footprint(m: Mark): Rect {
    match m.shape
    case Square => SquareFoot(m.row, m.col)
    case Comma => CommaFoot(m.rot, m.row, m.col)
    case Semicolon => SemicolonFoot(m.row, m.col)
    case FocusComma => SquareFoot(m.row, m.col)
  }

  predicate Inside(a: Rect) {
    0 <= a.top && 0 <= a.left && a.top + a.height <= 2 * ROWS && a.left + a.width <= 2 * COLS
  }

  predicate Covers(a: Rect, y: int, x: int) {
    a.top <= y < a.top + a.height && a.left <= x < a.left + a.width
  }

  predicate Separate(a: Rect, b: Rect) {
    || a.top + a.height <= b.top || b.top + b.height <= a.top
    || a.left + a.width <= b.left || b.left + b.width <= a.left
  }

  ghost predicate Covered(marks: seq<Mark>, y: int, x: int) {
    exists i :: 0 <= i < |marks| && Covers(Footprint(marks[i]), y, x)
  }

  ghost predicate FreeIn(marks: seq<Mark>, a: Rect) {
    Inside(a) && forall i :: 0 <= i < |marks| ==> Separate(Footprint(marks[i]), a)
  }

  // ---------- One draw, one mark ----------

  datatype State = State(marks: seq<Mark>, drawn: nat)

  function Delay(u: real): int {
    (u * 240.0 + 0.5).Floor
  }

  // `gray` draws for an image mark alone, then the delay draws.
  function Pushed(rand: Draws, s: State, shape: Shape, row: int, col: int, rot: Rot, fill: Fill, fade: real): State {
    var d := if fill == Image then s.drawn + 1 else s.drawn;
    var gray := fill == Image && rand(s.drawn) < GRAY_RATE;
    State(s.marks + [Mark(shape, col, row, rot, fill, fade, gray, Delay(rand(d)))], d + 1)
  }

  function Max(a: int, b: int): int {
    if a < b then b else a
  }

  function Min(a: int, b: int): int {
    if a < b then a else b
  }

  function Clamp(lo: int, hi: int, v: int): int {
    Min(hi, Max(lo, v))
  }

  // fill-opacity, 0.85 fading to 0.45, for a solid mark `dist` columns left of the boundary, rounded to hundredths.
  function FadeAt(dist: int): real {
    var t := Max(0, dist - 1) as real / 4.0;
    var capped := if t < 1.0 then t else 1.0;
    ((0.85 - 0.4 * capped) * 100.0 + 0.5).Floor as real / 100.0
  }

  predicate Below(order: seq<nat>, n: nat) {
    forall k :: 0 <= k < |order| ==> order[k] < n
  }

  // The rotations' indices, stably sorted by their draws.
  function InsertBy(keys: seq<real>, i: nat, order: seq<nat>): (inserted: seq<nat>)
    requires i < |keys| && Below(order, |keys|)
    ensures |inserted| == |order| + 1 && Below(inserted, |keys|)
  {
    var n := |order| - 1;
    if order != [] && keys[i] < keys[order[n]] then InsertBy(keys, i, order[..n]) + [order[n]]
    else order + [i]
  }

  function Order(keys: seq<real>, n: nat): (order: seq<nat>)
    requires n <= |keys|
    ensures |order| == n && Below(order, |keys|)
  {
    if n == 0 then [] else InsertBy(keys, n - 1, Order(keys, n - 1))
  }

  predicate Precedes(keys: seq<real>, i: nat, j: nat)
    requires i < |keys| && j < |keys|
  {
    keys[i] < keys[j] || (keys[i] == keys[j] && i < j)
  }

  predicate AllPrecede(keys: seq<real>, order: seq<nat>, last: nat)
    requires Below(order, |keys|) && last < |keys|
  {
    order == [] || (Precedes(keys, order[|order| - 1], last) && AllPrecede(keys, order[..|order| - 1], last))
  }

  predicate Sorted(keys: seq<real>, order: seq<nat>)
    requires Below(order, |keys|)
  {
    var n := |order| - 1;
    order == [] || (Sorted(keys, order[..n]) && AllPrecede(keys, order[..n], order[n]))
  }

  lemma {:induction false} InsertedPrecede(keys: seq<real>, i: nat, order: seq<nat>, last: nat)
    requires i < |keys| && last < |keys| && Below(order, |keys|)
    requires AllPrecede(keys, order, last) && Precedes(keys, i, last)
    ensures AllPrecede(keys, InsertBy(keys, i, order), last)
  {
    var n := |order| - 1;
    var inserted := InsertBy(keys, i, order);
    if order != [] && keys[i] < keys[order[n]] {
      InsertedPrecede(keys, i, order[..n], last);
      assert inserted[..n + 1] == InsertBy(keys, i, order[..n]);
    } else {
      assert inserted[..|order|] == order;
    }
  }

  lemma {:induction false} PrecedeTransitive(keys: seq<real>, order: seq<nat>, mid: nat, last: nat)
    requires mid < |keys| && last < |keys| && Below(order, |keys|)
    requires AllPrecede(keys, order, mid) && Precedes(keys, mid, last)
    ensures AllPrecede(keys, order, last)
  {
    if order != [] {
      PrecedeTransitive(keys, order[..|order| - 1], mid, last);
    }
  }

  lemma {:induction false} InsertSorts(keys: seq<real>, i: nat, order: seq<nat>)
    requires i < |keys| && Below(order, i) && Sorted(keys, order)
    ensures Sorted(keys, InsertBy(keys, i, order))
  {
    var n := |order| - 1;
    var inserted := InsertBy(keys, i, order);
    if order != [] && keys[i] < keys[order[n]] {
      InsertSorts(keys, i, order[..n]);
      InsertedPrecede(keys, i, order[..n], order[n]);
      assert inserted[..n + 1] == InsertBy(keys, i, order[..n]);
    } else {
      assert inserted[..|order|] == order;
      if order != [] {
        assert Precedes(keys, order[n], i);
        PrecedeTransitive(keys, order[..n], order[n], i);
      }
    }
  }

  lemma {:induction false} InsertAdds(keys: seq<real>, i: nat, order: seq<nat>)
    requires i < |keys| && Below(order, i)
    ensures Below(InsertBy(keys, i, order), i + 1)
    ensures multiset(InsertBy(keys, i, order)) == multiset(order) + multiset{i}
  {
    var n := |order| - 1;
    if order != [] && keys[i] < keys[order[n]] {
      InsertAdds(keys, i, order[..n]);
      assert order == order[..n] + [order[n]];
    }
  }

  function Table(n: nat): (t: seq<nat>) {
    if n == 0 then [] else Table(n - 1) + [n - 1]
  }

  // The table's indices, rearranged: in the order of their draws, ties as in the table.
  lemma {:induction false} OrderSorts(keys: seq<real>, n: nat)
    requires n <= |keys|
    ensures Below(Order(keys, n), n) && Sorted(keys, Order(keys, n))
  {
    if n > 0 {
      var before := Order(keys, n - 1);
      OrderSorts(keys, n - 1);
      InsertSorts(keys, n - 1, before);
      InsertAdds(keys, n - 1, before);
    }
  }

  lemma OrderAdds(keys: seq<real>, n: nat)
    requires 0 < n <= |keys|
    ensures multiset(Order(keys, n)) == multiset(Order(keys, n - 1)) + multiset([n - 1 as nat])
  {
    OrderSorts(keys, n - 1);
    hide InsertBy, Sorted;
    InsertAdds(keys, n - 1, Order(keys, n - 1));
  }

  lemma TableAdds(n: nat)
    requires n > 0
    ensures multiset(Table(n)) == multiset(Table(n - 1)) + multiset([n - 1 as nat])
  {}

  lemma {:induction false} OrderPermutes(keys: seq<real>, n: nat)
    requires n <= |keys|
    ensures multiset(Order(keys, n)) == multiset(Table(n))
  {
    if n > 0 {
      hide Order, Table;
      OrderPermutes(keys, n - 1);
      OrderAdds(keys, n);
      TableAdds(n);
    }
  }

  // The order in which a comma's rotations are tried.
  function Rotations(keys: seq<real>): (order: seq<nat>)
    ensures |order| == |keys| && Below(order, |keys|)
  {
    OrderSorts(keys, |keys|);
    Order(keys, |keys|)
  }

  ghost predicate Fits(marks: seq<Mark>, rot: Rot, row: int, col: int, fill: Fill) {
    var a := CommaFoot(rot, row, col);
    FreeIn(marks, a) && (fill == Image ==> a.left >= 2 * PHOTO_START)
  }

  // The first rotation, in the drawn order from `k` on, whose comma fits; |order| when none does.
  ghost function FirstFit(marks: seq<Mark>, order: seq<nat>, k: nat, row: int, col: int, fill: Fill): (f: nat)
    requires k <= |order| && Below(order, 4)
    ensures k <= f <= |order|
    ensures f < |order| ==> Fits(marks, ROTATIONS[order[f]], row, col, fill)
    ensures forall i :: k <= i < f ==> !Fits(marks, ROTATIONS[order[i]], row, col, fill)
    decreases |order| - k
  {
    if k == |order| || Fits(marks, ROTATIONS[order[k]], row, col, fill) then k
    else FirstFit(marks, order, k + 1, row, col, fill)
  }

  function Keys(rand: Draws, drawn: nat): seq<real> {
    [rand(drawn), rand(drawn + 1), rand(drawn + 2), rand(drawn + 3)]
  }

  ghost function CommaPlaced(rand: Draws, s: State, row: int, col: int, fill: Fill, fade: real): State {
    var order := Rotations(Keys(rand, s.drawn));
    var f := FirstFit(s.marks, order, 0, row, col, fill);
    var keyed := s.(drawn := s.drawn + 4);
    if f == |order| then keyed else Pushed(rand, keyed, Comma, row, col, ROTATIONS[order[f]], fill, fade)
  }

  // ---------- 1. The boundary walk ----------

  function FirstStart(u: real): int {
    (4.0 + (u * 2.0 - 1.0) * 1.5 + 0.5).Floor
  }

  function StepOf(u: real): int
    requires 0.0 <= u < 1.0
  {
    [-1, 0, 0, 1][(u * 4.0).Floor]
  }

  // Where the walk stands at a row: one draw before the first row, then one a row.
  function WalkAt(rand: Draws, row: nat): int {
    var before := if row == 0 then FirstStart(rand(0)) else WalkAt(rand, row - 1);
    Clamp(MIN_START, MAX_START, before + StepOf(rand(row + 1)))
  }

  function Push(row: int): int {
    var edge := Min(row, ROWS - 1 - row);
    if edge == 0 then CORNER_PUSH else if edge == 1 then 1 else 0
  }

  function StartAt(rand: Draws, row: nat): int {
    Min(COLS - 4, WalkAt(rand, row) + Push(row))
  }

  function Starts(rand: Draws): seq<int> {
    seq(ROWS, row requires 0 <= row => StartAt(rand, row))
  }

  predicate Boundary(start: seq<int>) {
    |start| == ROWS && forall r :: 0 <= r < ROWS ==> MIN_START <= start[r] <= MAX_START + 1
  }

  // ---------- 2, 3 and 5. The mass, the ragged band and the scatter, cell by cell ----------

  datatype Phase = Mass | Ragged | Scatter

  function Lo(phase: Phase, start: seq<int>, row: nat): int
    requires row < |start|
  {
    match phase case Mass => start[row] + BAND case Ragged => start[row] case Scatter => 0
  }

  function Hi(phase: Phase, start: seq<int>, row: nat): int
    requires row < |start|
  {
    match phase case Mass => COLS case Ragged => Min(start[row] + BAND, COLS) case Scatter => start[row]
  }

  // The chance of a scattered mark `dist` columns left of the boundary: 0.4, falling by a quarter a column.
  function ScatterChance(dist: nat): real {
    if dist <= 1 then 0.4 else 0.75 * ScatterChance(dist - 1)
  }

  function ScatterFill(start: int, col: int): Fill {
    if start - col <= IMAGE_REACH && col >= PHOTO_START then Image else Solid
  }

  ghost function RaggedCell(rand: Draws, s: State, row: int, col: int): State {
    var fill := if col >= PHOTO_START then Image else Solid;
    var u := rand(s.drawn);
    var s1 := s.(drawn := s.drawn + 1);
    if u < BOUNDARY_KEEP && FreeIn(s.marks, SquareFoot(row, col)) then Pushed(rand, s1, Square, row, col, R0, fill, 1.0)
    else if u < BOUNDARY_KEEP + BOUNDARY_COMMA then CommaPlaced(rand, s1, row, col, fill, 1.0)
    else s1
  }

  ghost function Scattered(rand: Draws, s: State, row: int, col: int, comma: bool, fill: Fill, fade: real): State {
    if comma then CommaPlaced(rand, s, row, col, fill, fade)
    else if FreeIn(s.marks, SquareFoot(row, col)) then Pushed(rand, s, Square, row, col, R0, fill, fade)
    else s
  }

  ghost function ScatterCell(rand: Draws, s: State, start: int, row: int, col: int): State
    requires col < start
  {
    if rand(s.drawn) >= ScatterChance(start - col) then s.(drawn := s.drawn + 1)
    else
      var fill := ScatterFill(start, col);
      Scattered(rand, s.(drawn := s.drawn + 2), row, col, rand(s.drawn + 1) < COMMA_WEIGHT, fill,
        if fill == Solid then FadeAt(start - col) else 1.0)
  }

  ghost function CellDone(rand: Draws, phase: Phase, s: State, start: seq<int>, row: nat, col: int): State
    requires row < |start| && col < Hi(phase, start, row)
  {
    match phase
    case Mass => Pushed(rand, s, Square, row, col, R0, Image, 1.0)
    case Ragged => RaggedCell(rand, s, row, col)
    case Scatter => ScatterCell(rand, s, start[row], row, col)
  }

  ghost function RowDone(rand: Draws, phase: Phase, s: State, start: seq<int>, row: nat, col: int): State
    requires row < |start|
    decreases Hi(phase, start, row) - col
  {
    if col >= Hi(phase, start, row) then s
    else RowDone(rand, phase, CellDone(rand, phase, s, start, row, col), start, row, col + 1)
  }

  ghost function RowsDone(rand: Draws, phase: Phase, s: State, start: seq<int>, row: nat): State
    decreases |start| - row
  {
    if row >= |start| then s
    else RowsDone(rand, phase, RowDone(rand, phase, s, start, row, Lo(phase, start, row)), start, row + 1)
  }

  // ---------- 4. The semicolons ----------

  function SemicolonRow(u: real): int {
    2 + (u * 12.0).Floor
  }

  function SemicolonCol(start: int, u: real): int {
    Max(0, start - 2 - (u * 2.0).Floor)
  }

  // One try: two draws, and a semicolon where it and its margin are free.
  ghost function SemicolonTried(rand: Draws, s: State, start: seq<int>): State
    requires Boundary(start)
  {
    SemicolonRowRange(rand(s.drawn));
    var row := SemicolonRow(rand(s.drawn));
    var col := SemicolonCol(start[row], rand(s.drawn + 1));
    var s2 := s.(drawn := s.drawn + 2);
    if FreeIn(s.marks, SemicolonFoot(row, col))
    then Pushed(rand, s2, Semicolon, row, col, R0, Solid, FadeAt(start[row] - col))
    else s2
  }

  ghost function SemicolonsDone(rand: Draws, s: State, start: seq<int>, tries: nat, placed: nat): State
    requires Boundary(start)
    decreases TRIES - tries
  {
    if tries >= TRIES || placed >= SEMICOLONS then s
    else
      var t := SemicolonTried(rand, s, start);
      SemicolonsDone(rand, t, start, tries + 1, if |t.marks| == |s.marks| then placed else placed + 1)
  }

  lemma SemicolonRowRange(u: real)
    requires 0.0 <= u < 1.0
    ensures 2 <= SemicolonRow(u) < ROWS - 4
  {}

  lemma StartsBound(rand: Draws)
    ensures Boundary(Starts(rand))
  {
    forall r: nat | r < ROWS
      ensures MIN_START <= StartAt(rand, r) <= MAX_START + 1
    {
      assert MIN_START <= WalkAt(rand, r) <= MAX_START;
    }
  }

  // Everything placed before the strike pass, in the order the draws define.
  ghost function Placed(rand: Draws): State {
    var start := Starts(rand);
    StartsBound(rand);
    var mass := RowsDone(rand, Mass, State([], 1 + ROWS), start, 0);
    var ragged := RowsDone(rand, Ragged, mass, start, 0);
    var spotted := SemicolonsDone(rand, ragged, start, 0, 0);
    RowsDone(rand, Scatter, spotted, start, 0)
  }
}
