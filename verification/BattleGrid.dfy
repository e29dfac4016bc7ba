/** The battleship grid: drawing a ship is all or nothing. */
module BattleGrid {
  import opened Wrappers

  /** A grid as a value: the characters at (y, x), counted from 0. */
  type Board = map<(int, int), char>

  ghost function View(a: array2<char>): Board
    reads a
  {
    map y, x | 0 <= y < a.Length0 && 0 <= x < a.Length1 :: (y, x) := a[y, x]
  }

  lemma Updated(a: array2<char>, v: Board, y: int, x: int, e: char)
    requires 0 <= y < a.Length0 && 0 <= x < a.Length1
    requires View(a).Keys == v.Keys && a[y, x] == e
    requires forall p :: p in v && p != (y, x) ==> View(a)[p] == v[p]
    ensures View(a) == v[(y, x) := e]
  {}

  const BOUND_ERROR := -1
  const OVERLAP_ERROR := -2
  const DIRECTION_INVALID := -6

  datatype Direction = North | South | East | West

  function NextX(x: int, d: Direction): int {
    if d.East? then x + 1 else if d.West? then x - 1 else x
  }

  function NextY(y: int, d: Direction): int {
    if d.North? then y - 1 else if d.South? then y + 1 else y
  }

  // ----- what drawing means

  /** The k-th cell of a line. */
  function At(x: int, y: int, d: Direction, k: int): (int, int) {
    match d
    case North => (y - k, x)
    case South => (y + k, x)
    case East => (y, x + k)
    case West => (y, x - k)
  }

  predicate FreeAt(v: Board, p: (int, int)) {
    p in v && v[p] == '.'
  }

  /** What draw answers. */
  function DrawResult(v: Board, x: int, y: int, m: int, d: Direction): (res: int)
    ensures res <= 0
    decreases m
  {
    if m < 1 then 0
    else if (y, x) !in v then BOUND_ERROR
    else if v[(y, x)] != '.' then OVERLAP_ERROR
    else DrawResult(v, NextX(x, d), NextY(y, d), m - 1, d)
  }

  /** The grid with the line on it. */
  function Drawn(v: Board, x: int, y: int, e: char, m: int, d: Direction): Board
    decreases m
  {
    if m < 1 then v else Drawn(v, NextX(x, d), NextY(y, d), e, m - 1, d)[(y, x) := e]
  }

  lemma AtNext(x: int, y: int, d: Direction, k: int)
    ensures At(NextX(x, d), NextY(y, d), d, k) == At(x, y, d, k + 1)
    ensures At(x, y, d, 0) == (y, x)
    ensures k != 0 ==> At(x, y, d, k) != (y, x)
  {}

  /** The first m cells of a line are inside and free. */
  ghost predicate AllFree(v: Board, x: int, y: int, m: int, d: Direction) {
    forall k :: 0 <= k < m ==> FreeAt(v, At(x, y, d, k))
  }

  lemma AllFreeStep(v: Board, x: int, y: int, m: int, d: Direction)
    requires m >= 1
    ensures AllFree(v, x, y, m, d) <==> FreeAt(v, (y, x)) && AllFree(v, NextX(x, d), NextY(y, d), m - 1, d)
  {
    hide FreeAt;
    var x1, y1 := NextX(x, d), NextY(y, d);
    assert At(x, y, d, 0) == (y, x);
    if AllFree(v, x, y, m, d) {
      forall k | 0 <= k < m - 1
        ensures FreeAt(v, At(x1, y1, d, k))
      {
        AtNext(x, y, d, k);
        assert FreeAt(v, At(x, y, d, k + 1));
      }
    }
    if FreeAt(v, (y, x)) && AllFree(v, x1, y1, m - 1, d) {
      forall k | 0 <= k < m
        ensures FreeAt(v, At(x, y, d, k))
      {
        if k > 0 {
          AtNext(x, y, d, k - 1);
          assert FreeAt(v, At(x1, y1, d, k - 1));
        }
      }
    }
  }

  /** A line can be drawn exactly when every cell of it is inside and free; else the
      first cell that is not tells which error it is. */
  lemma {:induction false} DrawResultMeans(v: Board, x: int, y: int, m: int, d: Direction)
    ensures DrawResult(v, x, y, m, d) == 0 <==> AllFree(v, x, y, m, d)
    ensures DrawResult(v, x, y, m, d) != 0 ==>
              exists k :: 0 <= k < m && AllFree(v, x, y, k, d) && !FreeAt(v, At(x, y, d, k))
                          && DrawResult(v, x, y, m, d) == if At(x, y, d, k) in v then OVERLAP_ERROR else BOUND_ERROR
    decreases m
  {
    hide At, AllFree;
    if m < 1 {
      NoCells(v, x, y, m, d);
    } else {
      var x1, y1 := NextX(x, d), NextY(y, d);
      AtNext(x, y, d, 0);
      AllFreeStep(v, x, y, m, d);
      NoCells(v, x, y, 0, d);
      if FreeAt(v, (y, x)) {
        DrawResultMeans(v, x1, y1, m - 1, d);
        if DrawResult(v, x, y, m, d) != 0 {
          var k :| 0 <= k < m - 1 && AllFree(v, x1, y1, k, d) && !FreeAt(v, At(x1, y1, d, k))
                   && DrawResult(v, x1, y1, m - 1, d)
                      == if At(x1, y1, d, k) in v then OVERLAP_ERROR else BOUND_ERROR;
          AtNext(x, y, d, k);
          AllFreeStep(v, x, y, k + 1, d);
        }
      } else {
        assert !FreeAt(v, At(x, y, d, 0));
      }
    }
  }

  lemma NoCells(v: Board, x: int, y: int, m: int, d: Direction)
    requires m <= 0
    ensures AllFree(v, x, y, m, d)
  {}

  /** Drawing changes the cells of the line and no others. */
  lemma {:induction false} DrawnCells(v: Board, x: int, y: int, e: char, m: int, d: Direction, p: (int, int))
    requires forall k :: 0 <= k < m ==> At(x, y, d, k) in v
    ensures Drawn(v, x, y, e, m, d).Keys == v.Keys
    ensures p in v ==> Drawn(v, x, y, e, m, d)[p] == if exists k :: 0 <= k < m && At(x, y, d, k) == p then e else v[p]
    decreases m
  {
    if m >= 1 {
      var x1, y1 := NextX(x, d), NextY(y, d);
      AtNext(x, y, d, 0);
      assert At(x, y, d, 0) == (y, x);
      forall k
        ensures At(x1, y1, d, k) == At(x, y, d, k + 1)
      {
        AtNext(x, y, d, k);
      }
      DrawnCells(v, x1, y1, e, m - 1, d, p);
      if k :| 0 <= k < m && At(x, y, d, k) == p {
        assert k > 0 ==> At(x1, y1, d, k - 1) == p;
      }
    }
  }

  // ----- counting

  function CellsOf(v: Board, c: char): set<(int, int)> {
    set p | p in v && v[p] == c
  }

  lemma CellChanged(v: Board, p: (int, int), e: char, c: char)
    requires p in v && v[p] != e
    ensures |CellsOf(v[p := e], c)| == |CellsOf(v, c)| + (if c == e then 1 else 0) - (if c == v[p] then 1 else 0)
  {
    var w := v[p := e];
    if c == e {
      assert CellsOf(w, c) == CellsOf(v, c) + {p};
    } else if c == v[p] {
      assert CellsOf(v, c) == CellsOf(w, c) + {p};
    } else {
      assert CellsOf(w, c) == CellsOf(v, c);
    }
  }

  /** A ship of m cells puts m cells of its own on the grid. */
  lemma {:induction false} DrawnCount(v: Board, x: int, y: int, e: char, m: int, d: Direction, c: char)
    requires DrawResult(v, x, y, m, d) == 0 && e != '.' && m >= 0
    ensures |CellsOf(Drawn(v, x, y, e, m, d), c)|
            == |CellsOf(v, c)| + (if c == e then m else 0) - (if c == '.' then m else 0)
    decreases m
  {
    hide CellsOf;
    if m >= 1 {
      var x1, y1 := NextX(x, d), NextY(y, d);
      DrawnCount(v, x1, y1, e, m - 1, d, c);
      DrawResultMeans(v, x, y, m, d);
      DrawResultMeans(v, x1, y1, m - 1, d);
      var w := Drawn(v, x1, y1, e, m - 1, d);
      DrawnCells(v, x1, y1, e, m - 1, d, (y, x));
      forall k | 0 <= k < m - 1
        ensures At(x1, y1, d, k) != (y, x)
      {
        AtNext(x, y, d, k);
        AtNext(x, y, d, k + 1);
      }
      CellChanged(w, (y, x), e, c);
    }
  }

  // ----- draw

  predicate Inside(a: array2<char>, x: int, y: int) {
    0 <= x < a.Length1 && 0 <= y < a.Length0
  }

  /** draw: the cells are written on the way back, so after an error none is. */
  method Draw(a: array2<char>, x: int, y: int, e: char, m: int, d: Direction) returns (res: int)
    modifies a
    ensures res == DrawResult(old(View(a)), x, y, m, d)
    ensures View(a) == if res == 0 then Drawn(old(View(a)), x, y, e, m, d) else old(View(a))
    decreases m
  {
    if m < 1 {
      return 0;
    }
    var x1, y1 := NextX(x, d), NextY(y, d);
    if !Inside(a, x, y) {
      assert (y, x) !in View(a);
      return BOUND_ERROR;
    }
    assert View(a)[(y, x)] == a[y, x];
    if a[y, x] != '.' {
      return OVERLAP_ERROR;
    }
    res := Draw(a, x1, y1, e, m - 1, d);
    if res == 0 {
      ghost var w := View(a);
      a[y, x] := e;
      Updated(a, w, y, x, e);
    }
  }

  /** The k-th cell of a line by the letter of its direction, with columns and rows
      counted from 1. */
  function CellOf(x: int, y: int, d: char, k: int): (int, int) {
    (y - 1 + (if d == 'S' then k else if d == 'N' then -k else 0),
     x - 1 + (if d == 'E' then k else if d == 'W' then -k else 0))
  }

  /** What ship `e` looks like: after '9' come letters. */
  function Shown(e: char): char
    requires e as int < 128
  {
    if e > '9' then (e as int - '9' as int - 1 + 'A' as int) as char else e
  }

  /** w is v with a line of m cells drawn on it. */
  ghost predicate HasLine(v: Board, w: Board, x: int, y: int, c: char, m: int, d: char) {
    && w.Keys == v.Keys
    && forall p :: p in v ==> w[p] == if exists k :: 0 <= k < m && CellOf(x, y, d, k) == p then c else v[p]
  }

  lemma SameCell(x: int, y: int, d: char, k: int)
    requires DirectionOf(d).Some?
    ensures At(x - 1, y - 1, DirectionOf(d).value, k) == CellOf(x, y, d, k)
  {}

  lemma SameLine(v: Board, x: int, y: int, m: int, d: char)
    requires DirectionOf(d).Some?
    ensures AllFree(v, x - 1, y - 1, m, DirectionOf(d).value) <==>
              forall k :: 0 <= k < m ==> FreeAt(v, CellOf(x, y, d, k))
  {
    hide At, CellOf, FreeAt;
    var x0, y0, dir := x - 1, y - 1, DirectionOf(d).value;
    if AllFree(v, x0, y0, m, dir) {
      forall k | 0 <= k < m
        ensures FreeAt(v, CellOf(x, y, d, k))
      {
        SameCell(x, y, d, k);
        assert FreeAt(v, At(x0, y0, dir, k));
      }
    }
    if forall k :: 0 <= k < m ==> FreeAt(v, CellOf(x, y, d, k)) {
      forall k | 0 <= k < m
        ensures FreeAt(v, At(x0, y0, dir, k))
      {
        SameCell(x, y, d, k);
      }
    }
  }

  lemma LineCell(v: Board, x: int, y: int, c: char, m: int, d: char, p: (int, int))
    requires DirectionOf(d).Some? && forall k :: 0 <= k < m ==> FreeAt(v, CellOf(x, y, d, k))
    ensures var w := Drawn(v, x - 1, y - 1, c, m, DirectionOf(d).value);
            && w.Keys == v.Keys
            && (p in v ==> w[p] == if exists k :: 0 <= k < m && CellOf(x, y, d, k) == p then c else v[p])
  {
    hide At, CellOf, Drawn;
    var x0, y0, dir := x - 1, y - 1, DirectionOf(d).value;
    forall k | 0 <= k < m
      ensures At(x0, y0, dir, k) in v
    {
      SameCell(x, y, d, k);
    }
    DrawnCells(v, x0, y0, c, m, dir, p);
    if k :| 0 <= k < m && CellOf(x, y, d, k) == p {
      SameCell(x, y, d, k);
    }
    if k :| 0 <= k < m && At(x0, y0, dir, k) == p {
      SameCell(x, y, d, k);
    }
  }

  lemma LineByLetter(v: Board, x: int, y: int, c: char, m: int, d: char)
    requires DirectionOf(d).Some?
    ensures var dir := DirectionOf(d).value;
            && (DrawResult(v, x - 1, y - 1, m, dir) == 0 <==>
                  forall k :: 0 <= k < m ==> FreeAt(v, CellOf(x, y, d, k)))
            && (DrawResult(v, x - 1, y - 1, m, dir) == 0 ==>
                  HasLine(v, Drawn(v, x - 1, y - 1, c, m, dir), x, y, c, m, d))
  {
    hide DrawResult, Drawn, AllFree, CellOf;
    var dir := DirectionOf(d).value;
    DrawResultMeans(v, x - 1, y - 1, m, dir);
    SameLine(v, x, y, m, d);
    if DrawResult(v, x - 1, y - 1, m, dir) == 0 {
      var w := Drawn(v, x - 1, y - 1, c, m, dir);
      LineCell(v, x, y, c, m, d, (0, 0));
      forall p | p in v
        ensures w[p] == if exists k :: 0 <= k < m && CellOf(x, y, d, k) == p then c else v[p]
      {
        LineCell(v, x, y, c, m, d, p);
      }
    }
  }

  /** grid_draw: the line goes from column x and row y, counted from 1, the way the
      letter says, if all of it is inside and free. */
  method GridDraw(a: array2<char>, x: int, y: int, e: char, m: int, d: char) returns (res: int)
    requires e as int < 128
    modifies a
    ensures DirectionOf(d).Some? <==> d == 'N' || d == 'S' || d == 'E' || d == 'W'
    ensures DirectionOf(d).None? ==> res == DIRECTION_INVALID
    ensures DirectionOf(d).Some? ==>
              && (res == 0 <==> forall k :: 0 <= k < m ==> FreeAt(old(View(a)), CellOf(x, y, d, k)))
              && (res == 0 ==> HasLine(old(View(a)), View(a), x, y, Shown(e), m, d))
    ensures DirectionOf(d).Some? ==>
              res == DrawResult(old(View(a)), x - 1, y - 1, m, DirectionOf(d).value)
              && (res == 0 ==> View(a) == Drawn(old(View(a)), x - 1, y - 1, Shown(e), m, DirectionOf(d).value))
    ensures res != 0 ==> View(a) == old(View(a))
  {
    hide View, HasLine, CellOf, FreeAt;
    match DirectionOf(d)
    case None => res := DIRECTION_INVALID;
    case Some(dir) =>
      LineByLetter(View(a), x, y, Shown(e), m, d);
      res := Draw(a, x - 1, y - 1, Shown(e), m, dir);
  }

  function DirectionOf(d: char): Option<Direction> {
    match d
    case 'N' => Some(North)
    case 'S' => Some(South)
    case 'E' => Some(East)
    case 'W' => Some(West)
    case _ => None
  }
}
