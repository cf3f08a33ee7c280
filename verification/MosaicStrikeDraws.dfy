// What each draw of the mosaic's strike pass decides (apps/web/lib/mosaic-layout.ts:316-387): which squares of the
// photo's mass are struck, which way they then point, and the two hand-placed commas.
module MosaicStrikeDraws {
  import opened MosaicLayout
  import opened MosaicTiling
  import opened MosaicStrike

  // ---------- Glyphs and faces ----------

  // A comma covers its own cell and the half-cells its tail points to: below, left, above or right.
  lemma CommaCovers(rot: Rot, row: int, col: int, y: int, x: int)
    ensures var rows, cols := 2 * row <= y <= 2 * row + 1, 2 * col <= x <= 2 * col + 1;
            (Covers(CommaFoot(rot, row, col), y, x)
             <==> || (rows && cols)
                  || (rot == R0 && y == 2 * row + 2 && cols) || (rot == R90 && x == 2 * col - 1 && rows)
                  || (rot == R180 && y == 2 * row - 1 && cols) || (rot == R270 && x == 2 * col + 2 && rows))
  {
  }

  // The cells kept clear for the two hand-placed commas.
  predicate Face(col: int, row: int) {
    (9 <= col <= 12 && 8 <= row <= 11) || (12 <= col <= 15 && 10 <= row <= 13)
  }

  lemma NearFocusIff(col: int, row: int)
    ensures NearFocus(col, row) <==> Face(col, row)
  {
    NearIs(col, row);
    hide Near;
    if NearFocus(col, row) {
      var k :| 0 <= k < |FOCUS_COMMAS| && Near(FOCUS_COMMAS[k], col, row);
      assert k == 0 || k == 1;
    }
    if Face(col, row) {
      assert Near(FOCUS_COMMAS[0], col, row) || Near(FOCUS_COMMAS[1], col, row);
    }
  }

  lemma NearIs(col: int, row: int)
    ensures Near(FOCUS_COMMAS[0], col, row) <==> 9 <= col <= 12 && 8 <= row <= 11
    ensures Near(FOCUS_COMMAS[1], col, row) <==> 12 <= col <= 15 && 10 <= row <= 13
  {
    assert FOCUS_COMMAS[0] == Focus(10, 9, 2.0) && FOCUS_COMMAS[1] == Focus(13, 11, 1.75);
    assert 1.33 < 2.0 * 48.21 / 72.002 < 1.34 && 1.17 < 1.75 * 48.21 / 72.002 < 1.18;
  }

  // ---------- Which squares are struck ----------

  // A photo square of the mass, clear of the faces.
  predicate Eligible(m: Mark) {
    m.shape == Square && m.fill == Image && m.col >= 7 && !Face(m.col, m.row)
  }

  // One in twenty, and more in the three cells next to the top, the bottom and the right edge.
  function Rate(row: int, col: int): real {
    var edge := Min(17 - row, Min(row, 16 - col));
    0.05 + if edge == 0 then 0.2 else if edge == 1 then 0.1 else if edge == 2 then 0.05 else 0.0
  }

  function Turn(u: real): Rot {
    if u < 0.25 then R0 else if u < 0.5 then R90 else if u < 0.75 then R180 else R270
  }

  lemma StrikableIff(m: Mark)
    ensures Strikable(m) <==> Eligible(m)
  {
    NearFocusIff(m.col, m.row);
  }

  lemma RateIs(m: Mark)
    requires 0 <= m.row < ROWS && 0 <= m.col < COLS
    ensures MASS_COMMA_RATE + Lift(m) == Rate(m.row, m.col)
  {
    assert EdgeLift(1) == 0.1 && EdgeLift(2) == 0.05;
  }

  lemma TurnIs(m: Mark, u: real)
    requires 0.0 <= u < 1.0
    ensures Restruck(m, u).rot == Turn(u)
  {
    assert (u * 4.0).Floor == if u < 0.25 then 0 else if u < 0.5 then 1 else if u < 0.75 then 2 else 3;
  }

  predicate Neighbours(a: Mark, b: Mark) {
    -1 <= a.col - b.col <= 1 && -1 <= a.row - b.row <= 1
  }

  // A mark struck before stands on the mark's cell or next to it, corners included.
  predicate Beside(placed: seq<Mark>, struck: seq<nat>, i: nat)
    requires i < |placed|
  {
    exists k :: 0 <= k < |struck| && struck[k] < i && struck[k] < |placed| && Neighbours(placed[struck[k]], placed[i])
  }

  // The mark is struck exactly when it is eligible, nothing beside it has been, and its draw is under the rate; the
  // next draw then turns it.
  predicate StruckBy(rand: Draws, n: nat, placed: seq<Mark>, s: Strikes, i: nat)
    requires i < |placed| && |s.marks| == |placed|
  {
    && (i in s.struck <==>
          Eligible(placed[i]) && !Beside(placed, s.struck, i) && rand(n) < Rate(placed[i].row, placed[i].col))
    && (i in s.struck ==> s.marks[i].rot == Turn(rand(n + 1)))
  }

  ghost predicate Decided(rand: Draws, from: nat, placed: seq<Mark>, s: Strikes, i: nat)
    requires i < |placed| && |s.marks| == |placed|
  {
    exists n: nat :: n >= from && StruckBy(rand, n, placed, s, i)
  }

  // The cells the pass remembers are those of the marks it struck.
  predicate Remembers(placed: seq<Mark>, s: Strikes) {
    && (forall k :: 0 <= k < |s.struck| ==> s.struck[k] < |placed| && CellOf(placed[s.struck[k]]) in s.cells)
    && (forall c :: c in s.cells ==> OfStruck(placed, s.struck, c))
  }

  predicate OfStruck(placed: seq<Mark>, struck: seq<nat>, c: Cell) {
    exists k :: 0 <= k < |struck| && struck[k] < |placed| && CellOf(placed[struck[k]]) == c
  }

  lemma CrowdedIff(placed: seq<Mark>, s: Strikes, i: nat)
    requires i < |placed| && Remembers(placed, s) && Increasing(s.struck, i)
    ensures Crowded(s.cells, CellOf(placed[i])) <==> Beside(placed, s.struck, i)
  {
    if Beside(placed, s.struck, i) {
      var k :| 0 <= k < |s.struck| && s.struck[k] < i && s.struck[k] < |placed|
        && Neighbours(placed[s.struck[k]], placed[i]);
      assert CellOf(placed[s.struck[k]]) in s.cells;
      assert Close(CellOf(placed[s.struck[k]]), CellOf(placed[i]));
    }
    if Crowded(s.cells, CellOf(placed[i])) {
      var c :| c in s.cells && Close(c, CellOf(placed[i]));
      assert OfStruck(placed, s.struck, c);
      var k :| 0 <= k < |s.struck| && s.struck[k] < |placed| && CellOf(placed[s.struck[k]]) == c;
      assert Neighbours(placed[s.struck[k]], placed[i]);
    }
  }

  lemma StrikeAtRemembers(rand: Draws, placed: seq<Mark>, s: Strikes, i: nat)
    requires i < |placed| == |s.marks| && Remembers(placed, s) && s.marks[i] == placed[i]
    ensures Remembers(placed, StrikeAt(rand, s, i))
  {
    hide Strikable, Crowded, Lift, Restruck;
    var t := StrikeAt(rand, s, i);
    if t.struck != s.struck {
      assert t.struck[|s.struck|] == i;
      forall c | c in t.cells
        ensures OfStruck(placed, t.struck, c)
      {
        if c in s.cells {
          assert OfStruck(placed, s.struck, c);
          var k :| 0 <= k < |s.struck| && s.struck[k] < |placed| && CellOf(placed[s.struck[k]]) == c;
          assert t.struck[k] == s.struck[k];
        }
      }
    }
  }

  lemma StrikeAtDecides(rand: Draws, placed: seq<Mark>, s: Strikes, i: nat)
    requires i < |placed| == |s.marks| && StruckFrom(placed, s, i) && Remembers(placed, s)
    requires 0 <= placed[i].row < ROWS && 0 <= placed[i].col < COLS
    ensures StruckBy(rand, s.drawn, placed, StrikeAt(rand, s, i), i)
  {
    var t := StrikeAt(rand, s, i);
    assert i !in s.struck && s.marks[i] == placed[i];
    CrowdedIff(placed, s, i);
    StrikableIff(placed[i]);
    RateIs(placed[i]);
    TurnIs(placed[i], rand(s.drawn + 1));
    SameBeside(placed, s.struck, t.struck, i);
    hide Strikable, Crowded, Lift, Eligible, Rate, Turn, Beside, Turned, Restruck;
  }

  // What is struck from here on says nothing of the marks before.
  lemma SameBeside(placed: seq<Mark>, struck: seq<nat>, more: seq<nat>, i: nat)
    requires i < |placed| && struck <= more && forall k :: |struck| <= k < |more| ==> more[k] >= i
    ensures Beside(placed, more, i) <==> Beside(placed, struck, i)
  {
    hide Neighbours;
    if Beside(placed, struck, i) {
      var k :| 0 <= k < |struck| && struck[k] < i && struck[k] < |placed| && Neighbours(placed[struck[k]], placed[i]);
      assert more[k] == struck[k];
    }
    if Beside(placed, more, i) {
      var k :| 0 <= k < |more| && more[k] < i && more[k] < |placed| && Neighbours(placed[more[k]], placed[i]);
      assert struck[k] == more[k];
    }
  }

  predicate Later(s: Strikes, t: Strikes, i: nat) {
    && |t.marks| == |s.marks| && s.struck <= t.struck && s.drawn <= t.drawn
    && (forall k :: |s.struck| <= k < |t.struck| ==> t.struck[k] >= i)
    && (forall j :: 0 <= j < i && j < |s.marks| ==> t.marks[j] == s.marks[j])
  }

  lemma {:induction false} StrikesLater(rand: Draws, s: Strikes, i: nat)
    requires i <= |s.marks|
    ensures Later(s, StrikeFrom(rand, s, i), i)
    decreases |s.marks| - i
  {
    hide Strikable, Crowded, Lift, Restruck;
    if i < |s.marks| {
      var t := StrikeAt(rand, s, i);
      StrikesLater(rand, t, i + 1);
      var u := StrikeFrom(rand, t, i + 1);
      assert forall k :: 0 <= k < |t.struck| ==> u.struck[k] == t.struck[k];
    }
  }

  lemma LaterSame(rand: Draws, n: nat, placed: seq<Mark>, t: Strikes, u: Strikes, i: nat)
    requires i < |placed| && |t.marks| == |placed| && Later(t, u, i + 1) && StruckBy(rand, n, placed, t, i)
    ensures StruckBy(rand, n, placed, u, i)
  {
    SameBeside(placed, t.struck, u.struck, i);
    hide Beside, Eligible, Rate, Turn;
    if i in u.struck {
      var k :| 0 <= k < |u.struck| && u.struck[k] == i;
      assert t.struck[k] == i;
    }
    if i in t.struck {
      var k :| 0 <= k < |t.struck| && t.struck[k] == i;
      assert u.struck[k] == i;
    }
  }

  lemma {:induction false} StrikeDecides(rand: Draws, placed: seq<Mark>, s: Strikes, i: nat, at: nat, from: nat)
    requires i <= at < |placed| == |s.marks| && StruckFrom(placed, s, i) && Remembers(placed, s) && from <= s.drawn
    requires forall k :: 0 <= k < |placed| ==> 0 <= placed[k].row < ROWS && 0 <= placed[k].col < COLS
    ensures |StrikeFrom(rand, s, i).marks| == |placed| && Decided(rand, from, placed, StrikeFrom(rand, s, i), at)
    decreases |s.marks| - i
  {
    var t := StrikeAt(rand, s, i);
    hide StrikeAt, StruckBy, Remembers, StruckFrom;
    StruckFromHere(placed, s, i);
    StrikeAtKeeps(rand, placed, s, i);
    StrikeAtRemembers(rand, placed, s, i);
    StrikeAtDraws(rand, s, i);
    StrikesLater(rand, t, i + 1);
    if i == at {
      StrikeAtDecides(rand, placed, s, i);
      LaterSame(rand, s.drawn, placed, t, StrikeFrom(rand, t, i + 1), i);
    } else {
      StrikeDecides(rand, placed, t, i + 1, at, from);
    }
  }

  lemma StruckFromHere(placed: seq<Mark>, s: Strikes, i: nat)
    requires i < |placed| && StruckFrom(placed, s, i)
    ensures i < |s.marks| && s.marks[i] == placed[i]
  {
    hide Turned, Close;
    assert i !in s.struck;
  }

  lemma StrikeAtDraws(rand: Draws, s: Strikes, i: nat)
    requires i < |s.marks|
    ensures |StrikeAt(rand, s, i).marks| == |s.marks| && s.drawn <= StrikeAt(rand, s, i).drawn
  {
    hide Strikable, Crowded, Lift, Restruck;
  }

  lemma NoneStruck(placed: seq<Mark>, s: Strikes)
    requires s.marks == placed && s.struck == [] && s.cells == {}
    ensures StruckFrom(placed, s, 0) && Remembers(placed, s)
  {
  }

  lemma StruckIs(rand: Draws, s: Strikes)
    requires s == Strikes(Placed(rand).marks, [], {}, Placed(rand).drawn)
    ensures Struck(rand) == StrikeFrom(rand, s, 0)
  {
    hide Placed, StrikeFrom;
  }

  // For every stream, each placed mark is struck or not as its own draw, after the placing's, makes of it.
  lemma StrikesDecided(rand: Draws, i: nat)
    requires i < |Placed(rand).marks|
    ensures |Struck(rand).marks| == |Placed(rand).marks|
    ensures Decided(rand, Placed(rand).drawn, Placed(rand).marks, Struck(rand), i)
  {
    hide *;
    var p := Placed(rand);
    forall k | 0 <= k < |p.marks|
      ensures 0 <= p.marks[k].row < ROWS && 0 <= p.marks[k].col < COLS
    {
      PlacedOnGrid(rand, k);
    }
    var s := Strikes(p.marks, [], {}, p.drawn);
    NoneStruck(p.marks, s);
    StruckIs(rand, s);
    StrikeDecides(rand, p.marks, s, 0, i, p.drawn);
  }

  // Last drawn, over everything, are the two hand-placed commas, upright cutouts at once.
  lemma FacesLast(rand: Draws)
    ensures Below(Struck(rand).struck, |Struck(rand).marks|)
    ensures var drawing := Arranged(Struck(rand)); var n := |drawing|;
            && n >= 2 && drawing[n - 2] == Mark(FocusComma, 10, 9, R0, Cutout, 1.0, false, 0)
            && drawing[n - 1] == Mark(FocusComma, 13, 11, R0, Cutout, 1.0, false, 0)
  {
    ArrangedIsRearranged(rand);
    hide Kept, Taken, Struck;
    assert FOCUS_COMMAS[0] == Focus(10, 9, 2.0) && FOCUS_COMMAS[1] == Focus(13, 11, 1.75);
  }
}
