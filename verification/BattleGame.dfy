/** The battleship game: what every shot keeps on a side's grid and counters. */
module BattleGame {
  import opened Wrappers
  import opened BattleGrid

  const MISS := 0
  const HIT := 1
  const DOWN := 2
  const WIN_PLAYER := 3
  const WIN_CPU := 4
  const GAME_ON := 5
  const REPEAT := -1
  const BAD := -2
  const EXHAUST_MOVES_CPU := -3
  const ILLEGAL := -4
  const GAME_QUEUE_ERROR := -16

  const MAX_SHIPS := 15

  /** What ship s is drawn with: '1' and on, which the grid shows as letters after
      '9'. */
  function Mark(s: int): char
    requires 0 <= s < MAX_SHIPS
  {
    Shown(('1' as int + s) as char)
  }

  predicate IsShip(c: char) {
    '1' <= c <= '9' || 'A' <= c <= 'F'
  }

  /** The ships that game_play_ knows. */
  predicate IsKnown(c: char) {
    '1' <= c <= '9'
  }

  function ShipOf(c: char): int
    requires IsShip(c)
  {
    if IsKnown(c) then c as int - '1' as int else c as int - 'A' as int + 9
  }

  /** The ships that have cells left. */
  ghost function Afloat(ships: seq<int>): set<int> {
    set s | 0 <= s < |ships| && ships[s] > 0
  }

  predicate Proper(c: char, n: int) {
    c == '.' || c == '/' || c == '*' || (IsShip(c) && ShipOf(c) < n)
  }

  /** Every counter tells how many cells its ship has left, and the total how many
      ships have any. */
  ghost predicate SideOk(v: Board, ships: seq<int>, total: int) {
    |ships| <= MAX_SHIPS
    && (forall s :: 0 <= s < |ships| ==> ships[s] == |CellsOf(v, Mark(s))|)
    && total == |Afloat(ships)|
    && (forall p :: p in v ==> Proper(v[p], |ships|))
  }

  /** The cells that were not shot at. */
  ghost function Open(v: Board): set<(int, int)> {
    set p | p in v && v[p] != '/' && v[p] != '*'
  }

  // ----- a shot

  function ShotResult(v: Board, ships: seq<int>, at: Option<(int, int)>): int {
    if at.None? then ILLEGAL
    else if at.value !in v then BAD
    else
      var e := v[at.value];
      if e == '/' || e == '*' then REPEAT
      else if IsKnown(e) && ShipOf(e) < |ships| then (if ships[ShipOf(e)] - 1 == 0 then DOWN else HIT)
      else MISS
  }

  function ShotBoard(v: Board, at: Option<(int, int)>): Board {
    if at.None? || at.value !in v then v
    else if v[at.value] == '.' then v[at.value := '/']
    else if IsKnown(v[at.value]) then v[at.value := '*']
    else v
  }

  function ShotShips(v: Board, ships: seq<int>, at: Option<(int, int)>): seq<int> {
    if at.None? || at.value !in v || !IsKnown(v[at.value]) || ShipOf(v[at.value]) >= |ships| then ships
    else ships[ShipOf(v[at.value]) := ships[ShipOf(v[at.value])] - 1]
  }

  /** Moves count columns and rows from 1; the grid is indexed from 0, row first. */
  function PlaceOf(move: Option<(int, int)>): Option<(int, int)> {
    if move.None? then None else Some((move.value.1 - 1, move.value.0 - 1))
  }

  predicate Accepted(result: int) {
    result == MISS || result == HIT || result == DOWN
  }

  lemma MarkOfShip(c: char)
    requires IsShip(c)
    ensures 0 <= ShipOf(c) < MAX_SHIPS && Mark(ShipOf(c)) == c
  {}

  lemma MarkIsShip(s: int)
    requires 0 <= s < MAX_SHIPS
    ensures IsShip(Mark(s)) && ShipOf(Mark(s)) == s
  {}

  /** The ship that is hit has a cell, so its counter is positive. */
  lemma HitShip(v: Board, ships: seq<int>, total: int, p: (int, int))
    requires SideOk(v, ships, total) && p in v && IsShip(v[p])
    ensures ShipOf(v[p]) < |ships| && ships[ShipOf(v[p])] >= 1
  {
    MarkOfShip(v[p]);
    assert Proper(v[p], |ships|);
    assert p in CellsOf(v, v[p]);
    assert |CellsOf(v, v[p])| > 0;
  }

  lemma AfloatAfter(ships: seq<int>, s: int)
    requires 0 <= s < |ships| && ships[s] >= 1
    ensures var more := ships[s := ships[s] - 1];
            |Afloat(more)| == |Afloat(ships)| - if ships[s] == 1 then 1 else 0
  {
    var more := ships[s := ships[s] - 1];
    if ships[s] == 1 {
      assert Afloat(ships) == Afloat(more) + {s};
    } else {
      assert Afloat(ships) == Afloat(more);
    }
  }

  /** A shot keeps the counters: conservation of cells. */
  lemma ShotKeeps(v: Board, ships: seq<int>, total: int, at: Option<(int, int)>)
    requires SideOk(v, ships, total)
    ensures SideOk(ShotBoard(v, at), ShotShips(v, ships, at),
                   total - if ShotResult(v, ships, at) == DOWN then 1 else 0)
  {
    hide CellsOf, Afloat;
    if at.Some? && at.value in v {
      var p := at.value;
      if v[p] == '.' {
        WaterKeeps(v, ships, p);
      } else if IsKnown(v[p]) {
        HitShip(v, ships, total, p);
        HitKeeps(v, ships, p);
        AfloatAfter(ships, ShipOf(v[p]));
      }
    }
  }

  lemma WaterKeeps(v: Board, ships: seq<int>, p: (int, int))
    requires p in v && v[p] == '.' && |ships| <= MAX_SHIPS
    requires forall s :: 0 <= s < |ships| ==> ships[s] == |CellsOf(v, Mark(s))|
    ensures forall s :: 0 <= s < |ships| ==> ships[s] == |CellsOf(v[p := '/'], Mark(s))|
  {
    hide CellsOf;
    forall s | 0 <= s < |ships|
      ensures ships[s] == |CellsOf(v[p := '/'], Mark(s))|
    {
      MarkIsShip(s);
      CellChanged(v, p, '/', Mark(s));
    }
  }

  lemma HitKeeps(v: Board, ships: seq<int>, p: (int, int))
    requires p in v && IsKnown(v[p]) && |ships| <= MAX_SHIPS && ShipOf(v[p]) < |ships|
    requires forall s :: 0 <= s < |ships| ==> ships[s] == |CellsOf(v, Mark(s))|
    ensures var more := ships[ShipOf(v[p]) := ships[ShipOf(v[p])] - 1];
            forall s :: 0 <= s < |ships| ==> more[s] == |CellsOf(v[p := '*'], Mark(s))|
  {
    hide CellsOf;
    MarkOfShip(v[p]);
    var more := ships[ShipOf(v[p]) := ships[ShipOf(v[p])] - 1];
    forall s | 0 <= s < |ships|
      ensures more[s] == |CellsOf(v[p := '*'], Mark(s))|
    {
      MarkIsShip(s);
      CellChanged(v, p, '*', Mark(s));
    }
  }

  /** A side has lost exactly when no cell of a ship is left. */
  lemma LostIffNoShipCell(v: Board, ships: seq<int>, total: int)
    requires SideOk(v, ships, total)
    ensures total == 0 <==> forall p :: p in v ==> !IsShip(v[p])
  {
    forall p | p in v && IsShip(v[p])
      ensures ShipOf(v[p]) in Afloat(ships)
    {
      HitShip(v, ships, total, p);
    }
    if forall p :: p in v ==> !IsShip(v[p]) {
      forall s | 0 <= s < |ships|
        ensures s !in Afloat(ships)
      {
        MarkIsShip(s);
        assert CellsOf(v, Mark(s)) == {};
      }
      assert Afloat(ships) == {};
    }
  }

  /** A shot that counts: at water or at a ship that game_play_ knows. */
  predicate Counts(v: Board, at: Option<(int, int)>) {
    at.Some? && at.value in v && (v[at.value] == '.' || IsKnown(v[at.value]))
  }

  /** A shot that counts is accepted and uses up one cell that was not shot at before;
      any other one changes nothing. With at most nine ships every accepted shot
      counts. */
  lemma ShotUsesCell(v: Board, ships: seq<int>, total: int, at: Option<(int, int)>)
    requires SideOk(v, ships, total)
    ensures var r, w := ShotResult(v, ships, at), ShotBoard(v, at);
            if Counts(v, at) then
              Accepted(r) && at.value in Open(v) && Open(w) == Open(v) - {at.value} && |Open(w)| == |Open(v)| - 1
            else w == v && ShotShips(v, ships, at) == ships && (Accepted(r) ==> r == MISS)
    ensures |ships| <= 9 ==> (Counts(v, at) <==> Accepted(ShotResult(v, ships, at)))
  {
    var w := ShotBoard(v, at);
    if at.Some? && at.value in v {
      assert Proper(v[at.value], |ships|);
      if Counts(v, at) {
        assert Open(v) == Open(w) + {at.value};
      }
    }
  }

  /** Ship s has exactly one cell fewer on w than on v. */
  ghost predicate LosesCell(v: Board, w: Board, s: int)
    requires 0 <= s < MAX_SHIPS
  {
    |CellsOf(w, Mark(s))| == |CellsOf(v, Mark(s))| - 1
  }

  /** What a result says about the grid before and after. */
  ghost predicate ResultSays(v: Board, w: Board, at: Option<(int, int)>, r: int) {
    && (r == ILLEGAL <==> at.None?)
    && (r == BAD <==> at.Some? && at.value !in v)
    && (r == REPEAT <==> at.Some? && at.value in v && (v[at.value] == '/' || v[at.value] == '*'))
    && (r == HIT || r == DOWN <==> exists s :: 0 <= s < MAX_SHIPS && LosesCell(v, w, s))
    && (r == DOWN <==> exists s :: 0 <= s < MAX_SHIPS && LosesCell(v, w, s) && CellsOf(w, Mark(s)) == {})
    && (r == MISS <==> at.Some? && at.value in Open(v) && forall s :: 0 <= s < MAX_SHIPS ==> !LosesCell(v, w, s))
  }

  lemma OnlyLoser(v: Board, p: (int, int), s: int)
    requires p in v && IsKnown(v[p]) && 0 <= s < MAX_SHIPS
    ensures LosesCell(v, v[p := '*'], s) <==> s == ShipOf(v[p])
  {
    hide CellsOf;
    MarkIsShip(s);
    MarkOfShip(v[p]);
    CellChanged(v, p, '*', Mark(s));
  }

  lemma NoLoser(v: Board, p: (int, int), s: int)
    requires p in v && v[p] == '.' && 0 <= s < MAX_SHIPS
    ensures !LosesCell(v, v[p := '/'], s)
  {
    hide CellsOf;
    MarkIsShip(s);
    CellChanged(v, p, '/', Mark(s));
  }

  /** Hit, sunk, missed, repeated or off the grid: the result is what happened to the
      cells. */
  lemma ResultMeans(v: Board, ships: seq<int>, total: int, at: Option<(int, int)>)
    requires SideOk(v, ships, total)
    ensures ResultSays(v, ShotBoard(v, at), at, ShotResult(v, ships, at))
  {
    hide CellsOf, LosesCell, SideOk;
    var w := ShotBoard(v, at);
    if at.None? || at.value !in v || (v[at.value] != '.' && !IsKnown(v[at.value])) {
      assert forall s :: 0 <= s < MAX_SHIPS ==> !LosesCell(v, w, s) by {
        NothingLost(v);
      }
      if at.Some? && at.value in v {
        OffWaterUnknown(v, ships, total, at.value);
      }
    } else if v[at.value] == '.' {
      forall s | 0 <= s < MAX_SHIPS
        ensures !LosesCell(v, w, s)
      {
        NoLoser(v, at.value, s);
      }
    } else {
      HitMeans(v, ships, total, at.value);
    }
  }

  lemma NothingLost(v: Board)
    ensures forall s :: 0 <= s < MAX_SHIPS ==> !LosesCell(v, v, s)
  {}

  lemma OffWaterUnknown(v: Board, ships: seq<int>, total: int, p: (int, int))
    requires SideOk(v, ships, total) && p in v && v[p] != '.' && !IsKnown(v[p])
    ensures v[p] == '/' || v[p] == '*' || IsShip(v[p])
  {
    assert Proper(v[p], |ships|);
  }

  lemma HitMeans(v: Board, ships: seq<int>, total: int, p: (int, int))
    requires SideOk(v, ships, total) && p in v && IsKnown(v[p])
    ensures var s, w := ShipOf(v[p]), v[p := '*'];
            && 0 <= s < |ships| && LosesCell(v, w, s)
            && (forall z :: 0 <= z < MAX_SHIPS && LosesCell(v, w, z) ==> z == s)
            && (CellsOf(w, Mark(s)) == {} <==> ships[s] == 1)
  {
    hide CellsOf;
    var s, w := ShipOf(v[p]), v[p := '*'];
    HitShip(v, ships, total, p);
    forall z | 0 <= z < MAX_SHIPS
      ensures LosesCell(v, w, z) <==> z == s
    {
      OnlyLoser(v, p, z);
    }
    EmptyIff(CellsOf(w, Mark(s)));
  }

  lemma EmptyIff(s: set<(int, int)>)
    ensures s == {} <==> |s| == 0
  {}

  // ----- a whole game, seen from one side

  /** A side after a sequence of shots at it: grid, counters, ships left and how many
      of the shots counted. */
  datatype Played = Played(board: Board, ships: seq<int>, total: int, counted: nat)

  function Play(g: Played, at: Option<(int, int)>): Played {
    var r := ShotResult(g.board, g.ships, at);
    Played(ShotBoard(g.board, at), ShotShips(g.board, g.ships, at), if r == DOWN then g.total - 1 else g.total,
           if Counts(g.board, at) then g.counted + 1 else g.counted)
  }

  function PlayAll(g: Played, shots: seq<Option<(int, int)>>): Played {
    if shots == [] then g else Play(PlayAll(g, shots[..|shots| - 1]), shots[|shots| - 1])
  }

  /** Through every game the counters stay right, shots that count are never more than
      the cells that were open, and the side is lost exactly when no ship cell is left. */
  lemma {:induction false} EveryGame(g: Played, shots: seq<Option<(int, int)>>)
    requires SideOk(g.board, g.ships, g.total)
    ensures var h := PlayAll(g, shots);
            SideOk(h.board, h.ships, h.total)
            && h.counted + |Open(h.board)| == g.counted + |Open(g.board)|
            && (h.total == 0 <==> forall p :: p in h.board ==> !IsShip(h.board[p]))
  {
    hide SideOk, Open, ShotResult, ShotBoard, ShotShips, Accepted, IsShip, Counts;
    if shots != [] {
      var n := |shots| - 1;
      EveryGame(g, shots[..n]);
      var m := PlayAll(g, shots[..n]);
      ShotKeeps(m.board, m.ships, m.total, shots[n]);
      ShotUsesCell(m.board, m.ships, m.total, shots[n]);
    }
    var h := PlayAll(g, shots);
    LostIffNoShipCell(h.board, h.ships, h.total);
  }

  /** What a shot makes of a cell. */
  function Struck(c: char): char {
    if c == '.' then '/' else if IsKnown(c) then '*' else c
  }

  /** The grid tells the whole game: a cell that was shot at shows whether a ship was
      there, and every other one is as it was. */
  lemma {:induction false} BoardAfter(g: Played, shots: seq<Option<(int, int)>>, p: (int, int))
    requires p in g.board
    ensures p in PlayAll(g, shots).board
    ensures PlayAll(g, shots).board[p] == if Some(p) in shots then Struck(g.board[p]) else g.board[p]
  {
    hide ShotResult, ShotShips;
    if shots != [] {
      var n := |shots| - 1;
      BoardAfter(g, shots[..n], p);
      assert shots == shots[..n] + [shots[n]];
    }
  }

  /** A shot at the column and row a ship was drawn from meets that ship. */
  lemma HitWhereDrawn(v: Board, w: Board, x: int, y: int, c: char, m: int, d: char)
    requires HasLine(v, w, x, y, c, m, d) && m >= 1 && CellOf(x, y, d, 0) in v
    ensures PlaceOf(Some((x, y))).value in w && w[PlaceOf(Some((x, y))).value] == c
  {
    assert CellOf(x, y, d, 0) == PlaceOf(Some((x, y))).value;
  }

  // ----- whether a side can be lost

  /** No shot takes anything from a ship after the ninth. */
  lemma {:induction false} TenthStays(g: Played, shots: seq<Option<(int, int)>>)
    requires |g.ships| > 9
    ensures var h := PlayAll(g, shots);
            |h.ships| == |g.ships| && h.ships[9] == g.ships[9]
  {
    hide ShotResult, ShotBoard;
    if shots != [] {
      TenthStays(g, shots[..|shots| - 1]);
    }
  }

  ghost function KnownCells(v: Board): set<(int, int)> {
    set p | p in v && IsKnown(v[p])
  }

  lemma OneShot(g: Played, at: Option<(int, int)>)
    ensures PlayAll(g, [at]) == Play(g, at)
  {
    hide Play;
    assert [at][..0] == [];
  }

  lemma {:induction false} PlayOn(g: Played, a: seq<Option<(int, int)>>, b: seq<Option<(int, int)>>)
    ensures PlayAll(g, a + b) == PlayAll(PlayAll(g, a), b)
  {
    hide Play;
    if b == [] {
      assert a + b == a;
    } else {
      assert (a + b)[..|a + b| - 1] == a + b[..|b| - 1];
      PlayOn(g, a, b[..|b| - 1]);
    }
  }

  /** The shots that sink every ship, if all of them are known. */
  lemma {:induction false} SinkAll(g: Played) returns (shots: seq<Option<(int, int)>>)
    requires SideOk(g.board, g.ships, g.total) && |g.ships| <= 9
    ensures PlayAll(g, shots).total == 0
    decreases |KnownCells(g.board)|
  {
    hide SideOk, PlayAll, ShotResult, ShotShips;
    if p :| p in KnownCells(g.board) {
      var h := Play(g, Some(p));
      ShotKeeps(g.board, g.ships, g.total, Some(p));
      assert KnownCells(g.board) == KnownCells(h.board) + {p};
      assert |h.ships| == |g.ships| by { SameShips(g.board, g.ships, Some(p)); }
      var rest := SinkAll(h);
      shots := [Some(p)] + rest;
      OneShot(g, Some(p));
      PlayOn(g, [Some(p)], rest);
    } else {
      shots := [];
      NoneUnknown(g.board, g.ships, g.total);
      LostIffNoShipCell(g.board, g.ships, g.total);
      assert PlayAll(g, []) == g by { NoShot(g); }
    }
  }

  lemma NoShot(g: Played)
    ensures PlayAll(g, []) == g
  {}

  lemma SameShips(v: Board, ships: seq<int>, at: Option<(int, int)>)
    ensures |ShotShips(v, ships, at)| == |ships|
  {}

  lemma NoneUnknown(v: Board, ships: seq<int>, total: int)
    requires SideOk(v, ships, total) && |ships| <= 9
    ensures forall p :: p in v && IsShip(v[p]) ==> p in KnownCells(v)
  {
    forall p | p in v && IsShip(v[p])
      ensures p in KnownCells(v)
    {
      assert Proper(v[p], |ships|);
    }
  }

  /** A side whose ships are all afloat can be lost if and only if it has at most nine:
      a shot at the tenth is taken for a miss, and the game cannot be won. */
  lemma LostExactlyUpToNine(g: Played)
    requires SideOk(g.board, g.ships, g.total) && forall s :: 0 <= s < |g.ships| ==> g.ships[s] > 0
    ensures (exists shots :: PlayAll(g, shots).total == 0) <==> |g.ships| <= 9
  {
    hide PlayAll, CellsOf;
    if |g.ships| <= 9 {
      var shots := SinkAll(g);
    } else {
      forall shots
        ensures PlayAll(g, shots).total != 0
      {
        var h := PlayAll(g, shots);
        TenthStays(g, shots);
        EveryGame(g, shots);
        assert 9 in Afloat(h.ships);
      }
    }
  }

  // ----- setting up

  ghost function Rect(h: nat, w: nat): set<(int, int)> {
    set y, x | 0 <= y < h && 0 <= x < w :: (y, x)
  }

  ghost function Row(y: int, w: nat): set<(int, int)> {
    set x | 0 <= x < w :: (y, x)
  }

  lemma {:induction false} RowSize(y: int, w: nat)
    ensures |Row(y, w)| == w
  {
    if w > 0 {
      RowSize(y, w - 1);
      assert Row(y, w) == Row(y, w - 1) + {(y, w - 1)};
    }
  }

  lemma RectGrows(h: nat, w: nat)
    ensures Rect(h + 1, w) == Rect(h, w) + Row(h, w) && Rect(h, w) !! Row(h, w)
  {}

  lemma {:induction false} RectSize(h: nat, w: nat)
    ensures |Rect(h, w)| == h * w
  {
    hide Rect, Row;
    if h > 0 {
      RectSize(h - 1, w);
      RowSize(h - 1, w);
      RectGrows(h - 1, w);
      OneRowMore(h - 1, w);
    } else {
      NoRows(w);
    }
  }

  lemma NoRows(w: nat)
    ensures Rect(0, w) == {}
  {}

  lemma OneRowMore(h: nat, w: nat)
    ensures (h + 1) * w == h * w + w
  {}

  lemma ViewAt(a: array2<char>, x: int, y: int)
    ensures Inside(a, x, y) <==> (y, x) in View(a)
    ensures Inside(a, x, y) ==> View(a)[(y, x)] == a[y, x]
  {}

  lemma AllOpen(a: array2<char>)
    requires forall p :: p in View(a) ==> View(a)[p] != '/' && View(a)[p] != '*'
    ensures |Open(View(a))| == a.Length0 * a.Length1
  {
    assert Open(View(a)) == Rect(a.Length0, a.Length1);
    RectSize(a.Length0, a.Length1);
  }

  lemma {:induction false} AllAfloat(ships: seq<int>)
    requires forall s :: 0 <= s < |ships| ==> ships[s] > 0
    ensures |Afloat(ships)| == |ships|
  {
    if ships == [] {
      assert Afloat(ships) == {};
    } else {
      var n := |ships| - 1;
      AllAfloat(ships[..n]);
      assert Afloat(ships) == Afloat(ships[..n]) + {n};
    }
  }

  /** The first k ships are on the grid, each with all its cells, and nothing else. */
  ghost predicate Placed(v: Board, ships: seq<int>, k: nat) {
    |ships| <= MAX_SHIPS && k <= |ships|
    && (forall s :: 0 <= s < |ships| ==> |CellsOf(v, Mark(s))| == if s < k then ships[s] else 0)
    && (forall p :: p in v ==> v[p] == '.' || (IsShip(v[p]) && ShipOf(v[p]) < k))
  }

  lemma NonePlaced(v: Board, ships: seq<int>)
    requires |ships| <= MAX_SHIPS && forall p :: p in v ==> v[p] == '.'
    ensures Placed(v, ships, 0)
  {
    forall s | 0 <= s < |ships|
      ensures |CellsOf(v, Mark(s))| == 0
    {
      MarkIsShip(s);
      assert CellsOf(v, Mark(s)) == {};
    }
  }

  lemma PlaceNext(v: Board, ships: seq<int>, k: nat, x: int, y: int, d: Direction)
    requires Placed(v, ships, k) && k < |ships| && ships[k] > 0 && DrawResult(v, x, y, ships[k], d) == 0
    ensures Placed(Drawn(v, x, y, Mark(k), ships[k], d), ships, k + 1)
  {
    hide CellsOf, Drawn, DrawResult;
    var w := Drawn(v, x, y, Mark(k), ships[k], d);
    MarkIsShip(k);
    DrawResultMeans(v, x, y, ships[k], d);
    forall s | 0 <= s < |ships|
      ensures |CellsOf(w, Mark(s))| == if s < k + 1 then ships[s] else 0
    {
      MarkIsShip(s);
      DrawnCount(v, x, y, Mark(k), ships[k], d, Mark(s));
    }
    forall p | p in w
      ensures w[p] == '.' || (IsShip(w[p]) && ShipOf(w[p]) < k + 1)
    {
      DrawnCells(v, x, y, Mark(k), ships[k], d, p);
    }
  }

  lemma AllPlaced(v: Board, ships: seq<int>)
    requires Placed(v, ships, |ships|) && forall s :: 0 <= s < |ships| ==> ships[s] > 0
    ensures SideOk(v, ships, |ships|)
    ensures forall p :: p in v ==> v[p] != '/' && v[p] != '*'
  {
    hide CellsOf, Afloat;
    AllAfloat(ships);
  }

  /** A line of a map file: column, row and direction. */
  datatype Placement = Placement(x: int, y: int, direction: char)

  /** The m cells from a placement on, its way, show c. */
  ghost predicate Shows(v: Board, q: Option<Placement>, c: char, m: int) {
    q.Some? && forall k :: 0 <= k < m ==>
      var p := CellOf(q.value.x, q.value.y, q.value.direction, k);
      p in v && v[p] == c
  }

  /** A further line leaves alone what is already drawn. */
  lemma StillShows(v: Board, w: Board, x: int, y: int, e: char, n: int, d: char, q: Option<Placement>, c: char, m: int)
    requires HasLine(v, w, x, y, e, n, d) && forall k :: 0 <= k < n ==> FreeAt(v, CellOf(x, y, d, k))
    requires Shows(v, q, c, m) && c != '.'
    ensures Shows(w, q, c, m)
  {
    hide CellOf;
  }

  /** The first k ships lie where and how their placements say. */
  ghost predicate Laid(v: Board, ships: seq<int>, queue: seq<Option<Placement>>, k: nat)
    requires k <= |ships| <= MAX_SHIPS && k <= |queue|
  {
    forall s :: 0 <= s < k ==> Shows(v, queue[s], Mark(s), ships[s])
  }

  lemma NoneLaid(v: Board, ships: seq<int>, queue: seq<Option<Placement>>)
    requires |ships| <= MAX_SHIPS
    ensures Laid(v, ships, queue, 0)
  {}

  lemma LayNext(v: Board, w: Board, ships: seq<int>, queue: seq<Option<Placement>>, k: nat)
    requires k < |ships| <= MAX_SHIPS && k < |queue| && Laid(v, ships, queue, k) && queue[k].Some?
    requires var q := queue[k].value;
             HasLine(v, w, q.x, q.y, Mark(k), ships[k], q.direction)
             && forall i :: 0 <= i < ships[k] ==> FreeAt(v, CellOf(q.x, q.y, q.direction, i))
    ensures Laid(w, ships, queue, k + 1)
  {
    hide CellOf, Mark;
    var q := queue[k].value;
    forall s | 0 <= s < k + 1
      ensures Shows(w, queue[s], Mark(s), ships[s])
    {
      if s < k {
        MarkIsShip(s);
        StillShows(v, w, q.x, q.y, Mark(k), ships[k], q.direction, queue[s], Mark(s), ships[s]);
      }
    }
  }

  /** One side's grid, ship counters and number of ships left. */
  class Side {
    const plain: array2<char>
    const ships: array<int>
    var total: int
    /** How many shots counted. */
    ghost var counted: nat

    ghost predicate Valid()
      reads this, plain, ships
    {
      SideOk(View(plain), ships[..], total)
      && counted + |Open(View(plain))| == plain.Length0 * plain.Length1
    }

    /** game_init, for one side: an empty grid, and counters at full strength. */
    constructor (maxX: nat, maxY: nat, sizes: seq<int>)
      requires |sizes| <= MAX_SHIPS
      ensures fresh(plain) && fresh(ships) && plain.Length0 == maxY && plain.Length1 == maxX
      ensures ships[..] == sizes && total == |sizes| && counted == 0
      ensures Placed(View(plain), sizes, 0)
    {
      plain := new char[maxY, maxX]((y, x) => '.');
      ships := new int[|sizes|](i requires 0 <= i < |sizes| => sizes[i]);
      total, counted := |sizes|, 0;
      new;
      assert ships[..] == sizes;
      NonePlaced(View(plain), sizes);
    }

    /** game_draw: the ships are drawn in turn, until one cannot be. */
    method DrawAll(queue: seq<Option<Placement>>) returns (res: int)
      requires Placed(View(plain), ships[..], 0) && total == ships.Length && counted == 0
      requires forall s :: 0 <= s < ships.Length ==> ships[s] > 0
      modifies plain
      ensures res == 0 ==> Valid()
      ensures res == 0 ==> forall s :: 0 <= s < ships.Length ==> |CellsOf(View(plain), Mark(s))| == ships[s]
      ensures res == 0 ==> ships.Length <= |queue| && Laid(View(plain), ships[..], queue, ships.Length)
    {
      hide CellsOf, Afloat, DrawResult, Drawn, Open, View, HasLine, CellOf, FreeAt, Laid;
      ghost var sizes := ships[..];
      var s := 0;
      NoneLaid(View(plain), sizes, queue);
      while s < ships.Length
        invariant 0 <= s <= ships.Length && ships[..] == sizes
        invariant Placed(View(plain), sizes, s)
        invariant s <= |queue| && Laid(View(plain), sizes, queue, s)
      {
        if s >= |queue| || queue[s].None? {
          return GAME_QUEUE_ERROR;
        }
        var at := queue[s].value;
        ghost var v := View(plain);
        var r := GridDraw(plain, at.x, at.y, ('1' as int + s) as char, ships[s], at.direction);
        if r != 0 {
          return r - 10;
        }
        LayNext(v, View(plain), sizes, queue, s);
        PlaceNext(v, sizes, s, at.x - 1, at.y - 1, DirectionOf(at.direction).value);
        s := s + 1;
      }
      AllPlaced(View(plain), sizes);
      AllOpen(plain);
      res := 0;
    }

    /** game_play_, and the count of ships that its callers keep. Columns and rows
        count from 1; no place at all is an illegal move. */
    method Shoot(move: Option<(int, int)>) returns (res: int)
      requires Valid()
      modifies this, plain, ships
      ensures Valid()
      ensures ResultSays(old(View(plain)), View(plain), PlaceOf(move), res)
      ensures res == ShotResult(old(View(plain)), old(ships[..]), PlaceOf(move))
      ensures View(plain) == ShotBoard(old(View(plain)), PlaceOf(move))
      ensures ships[..] == ShotShips(old(View(plain)), old(ships[..]), PlaceOf(move))
      ensures total == old(total) - if res == DOWN then 1 else 0
      ensures counted == old(counted) + if Counts(old(View(plain)), PlaceOf(move)) then 1 else 0
    {
      hide CellsOf, Afloat, Open, SideOk, Counts, ShotBoard, ShotShips, ShotResult, View, ResultSays;
      ghost var v, was, at := View(plain), ships[..], PlaceOf(move);
      ResultMeans(v, was, total, at);
      ShotKeeps(v, was, total, at);
      ShotUsesCell(v, was, total, at);
      counted := counted + if Counts(v, at) then 1 else 0;
      res := Fire(move);
      if res == DOWN {
        total := total - 1;
      }
    }

    /** What game_play_ does to grid and counters. */
    method Fire(move: Option<(int, int)>) returns (res: int)
      requires SideOk(View(plain), ships[..], total)
      modifies plain, ships
      ensures res == ShotResult(old(View(plain)), old(ships[..]), PlaceOf(move))
      ensures View(plain) == ShotBoard(old(View(plain)), PlaceOf(move))
      ensures ships[..] == ShotShips(old(View(plain)), old(ships[..]), PlaceOf(move))
    {
      hide CellsOf, Afloat, SideOk, View;
      if move.None? {
        return ILLEGAL;
      }
      var x, y := move.value.0 - 1, move.value.1 - 1;
      ghost var v := View(plain);
      ViewAt(plain, x, y);
      if !Inside(plain, x, y) {
        return BAD;
      }
      var e := plain[y, x];
      res := MISS;
      if e == '.' {
        Put(x, y, '/');
      } else if e == '/' || e == '*' {
        res := REPEAT;
      } else if IsKnown(e) {
        HitShip(v, ships[..], total, (y, x));
        ships[ShipOf(e)] := ships[ShipOf(e)] - 1;
        Put(x, y, '*');
        res := if ships[ShipOf(e)] == 0 then DOWN else HIT;
      }
    }

    /** grid_set */
    method Put(x: int, y: int, c: char)
      requires Inside(plain, x, y)
      modifies plain
      ensures View(plain) == old(View(plain))[(y, x) := c]
    {
      ghost var v := View(plain);
      plain[y, x] := c;
      Updated(plain, v, y, x, c);
    }
  }

  class Game {
    const player: Side
    const cpu: Side
    var cpuTurns: int

    ghost predicate Valid()
      reads this, player, player.plain, player.ships, cpu, cpu.plain, cpu.ships
    {
      player.Valid() && cpu.Valid()
      && player != cpu && player.plain != cpu.plain && player.ships != cpu.ships
    }

    constructor (player: Side, cpu: Side, cpuTurns: int)
      requires player.Valid() && cpu.Valid()
      requires player != cpu && player.plain != cpu.plain && player.ships != cpu.ships
      ensures Valid() && this.player == player && this.cpu == cpu && this.cpuTurns == cpuTurns
    {
      this.player, this.cpu, this.cpuTurns := player, cpu, cpuTurns;
    }

    method PlayCpu(move: Option<(int, int)>) returns (res: int)
      requires Valid()
      modifies this, player, player.plain, player.ships
      ensures Valid()
      ensures old(player.total) == 0 ==> res == WIN_CPU
      ensures old(player.total) != 0 && old(cpuTurns) == 0 ==> res == EXHAUST_MOVES_CPU
      ensures (old(player.total) == 0 || old(cpuTurns) == 0) ==>
                cpuTurns == old(cpuTurns) && View(player.plain) == old(View(player.plain))
                && player.total == old(player.total) && player.counted == old(player.counted)
      ensures old(player.total) != 0 && old(cpuTurns) != 0 ==>
                cpuTurns == old(cpuTurns) - 1
                && res == ShotResult(old(View(player.plain)), old(player.ships[..]), PlaceOf(move))
                && View(player.plain) == ShotBoard(old(View(player.plain)), PlaceOf(move))
                && player.total == old(player.total) - (if res == DOWN then 1 else 0)
                && player.counted == old(player.counted)
                   + (if Counts(old(View(player.plain)), PlaceOf(move)) then 1 else 0)
    {
      hide SideOk, Open, ShotResult, ShotBoard, Counts, ResultSays, View;
      if player.total == 0 {
        return WIN_CPU;
      }
      if cpuTurns == 0 {
        return EXHAUST_MOVES_CPU;
      }
      res := player.Shoot(move);
      cpuTurns := cpuTurns - 1;
    }

    method PlayPlayer(move: Option<(int, int)>) returns (res: int)
      requires Valid()
      modifies cpu, cpu.plain, cpu.ships
      ensures Valid()
      ensures old(cpu.total) == 0 ==>
                res == WIN_PLAYER && View(cpu.plain) == old(View(cpu.plain)) && cpu.total == 0
                && cpu.counted == old(cpu.counted)
      ensures old(cpu.total) != 0 ==>
                res == ShotResult(old(View(cpu.plain)), old(cpu.ships[..]), PlaceOf(move))
                && View(cpu.plain) == ShotBoard(old(View(cpu.plain)), PlaceOf(move))
                && cpu.total == old(cpu.total) - (if res == DOWN then 1 else 0)
                && cpu.counted == old(cpu.counted)
                   + (if Counts(old(View(cpu.plain)), PlaceOf(move)) then 1 else 0)
    {
      hide SideOk, Open, ShotResult, ShotBoard, Counts, ResultSays, View;
      if cpu.total == 0 {
        return WIN_PLAYER;
      }
      res := cpu.Shoot(move);
    }

    /** game_status: a side has won exactly when the other has no ship cell left. */
    method Status() returns (res: int)
      requires Valid()
      ensures res == WIN_PLAYER <==> forall p :: p in View(cpu.plain) ==> !IsShip(View(cpu.plain)[p])
      ensures res == WIN_CPU <==>
                (exists p :: p in View(cpu.plain) && IsShip(View(cpu.plain)[p]))
                && forall p :: p in View(player.plain) ==> !IsShip(View(player.plain)[p])
      ensures res == WIN_PLAYER || res == WIN_CPU || res == GAME_ON
      ensures player.counted <= player.plain.Length0 * player.plain.Length1
      ensures cpu.counted <= cpu.plain.Length0 * cpu.plain.Length1
    {
      LostIffNoShipCell(View(cpu.plain), cpu.ships[..], cpu.total);
      LostIffNoShipCell(View(player.plain), player.ships[..], player.total);
      res := if cpu.total == 0 then WIN_PLAYER else if player.total == 0 then WIN_CPU else GAME_ON;
    }
  }
}
