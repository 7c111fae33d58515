/**
 * The world the ants walk on: a rectangular grid of cells, each either an
 * obstacle or a station square carrying a label, a food marker, a nest
 * marker and two pheromone levels.
 */
module Grid {
  import opened Wrappers
  import opened Network

  datatype Pheromone = Pheromone(food: real, nest: real)

  /** A station square. Markers are the food_type / nest_type fields of the Food and Nest objects. */
  datatype Square = Square(x: nat, y: nat, name: Label, food: bool, nest: bool, pheromone: Pheromone)

  datatype Pos = Pos(x: nat, y: nat)

  type Squares = seq<seq<Option<Square>>>

  /** The map token of an obstacle. */
  const OBSTACLE: Label := "1"

  /** Every row is as wide as the first, and there is a first row. */
  predicate Rectangular(squares: Squares) {
    |squares| > 0 && forall y :: 0 <= y < |squares| ==> |squares[y]| == |squares[0]|
  }

  predicate InGrid(squares: Squares, p: Pos) {
    p.y < |squares| && p.x < |squares[p.y]|
  }

  /** Every square records its own coordinates. */
  predicate WellPlaced(squares: Squares) {
    forall y, x :: 0 <= y < |squares| && 0 <= x < |squares[y]| && squares[y][x].Some? ==>
      squares[y][x].value.x == x && squares[y][x].value.y == y
  }

  /** No pheromone level is negative. */
  predicate NonNegative(squares: Squares) {
    forall y, x :: 0 <= y < |squares| && 0 <= x < |squares[y]| && squares[y][x].Some? ==>
      squares[y][x].value.pheromone.food >= 0.0 && squares[y][x].value.pheromone.nest >= 0.0
  }

  /** The square at `p`, if `p` is a station cell. */
  function At(squares: Squares, p: Pos): Option<Square> {
    if InGrid(squares, p) then squares[p.y][p.x] else None
  }

  predicate LabelAt(squares: Squares, p: Pos, name: Label) {
    At(squares, p).Some? && At(squares, p).value.name == name
  }

  /** Row-major order: earlier row, or same row and earlier column. */
  predicate Before(p: Pos, q: Pos) {
    p.y < q.y || (p.y == q.y && p.x < q.x)
  }

  /** `p` is the first cell in row-major order that carries `name`. */
  ghost predicate FirstWithLabel(squares: Squares, name: Label, p: Pos) {
    LabelAt(squares, p, name) && forall q :: Before(q, p) ==> !LabelAt(squares, q, name)
  }

  /** Two grids have the same cells, squares, labels and markers; only pheromone may differ. */
  predicate SameLayout(a: Squares, b: Squares) {
    |a| == |b| &&
    (forall y :: 0 <= y < |a| ==> |a[y]| == |b[y]|) &&
    forall y, x :: 0 <= y < |a| && 0 <= x < |a[y]| ==>
      (a[y][x].None? <==> b[y][x].None?) &&
      (a[y][x].Some? ==> a[y][x].value.(pheromone := b[y][x].value.pheromone) == b[y][x].value)
  }

  /** `p` has a neighbour on every side: the eight-cell scope around it lies inside the grid. */
  predicate Interior(squares: Squares, p: Pos) {
    Rectangular(squares) && 1 <= p.y < |squares| - 1 && 1 <= p.x < |squares[0]| - 1
  }

  /** Every station square lies strictly inside the grid border. */
  predicate Bordered(squares: Squares) {
    forall y, x :: 0 <= y < |squares| && 0 <= x < |squares[y]| && squares[y][x].Some? ==> Interior(squares, Pos(x, y))
  }

  /** Grids of the same layout agree on every cell except in pheromone. */
  lemma SameLayoutAt(a: Squares, b: Squares, p: Pos)
    requires SameLayout(a, b)
    ensures At(a, p).None? <==> At(b, p).None?
    ensures At(a, p).Some? ==> At(a, p).value.(pheromone := At(b, p).value.pheromone) == At(b, p).value
  {
  }

  /** The grid invariants depend on the layout only. */
  lemma SameLayoutKeeps(a: Squares, b: Squares)
    requires SameLayout(a, b)
    ensures Rectangular(a) ==> Rectangular(b)
    ensures WellPlaced(a) ==> WellPlaced(b)
    ensures Rectangular(a) && Bordered(a) ==> Bordered(b)
  {
    if Rectangular(a) && Bordered(a) {
      forall y, x | 0 <= y < |b| && 0 <= x < |b[y]| && b[y][x].Some?
        ensures Interior(b, Pos(x, y))
      {
        assert Interior(a, Pos(x, y));
      }
    }
  }

  /** The cell a map token becomes. */
  function Cell(token: Label, x: nat, y: nat): Option<Square> {
    if token == OBSTACLE then None else Some(Square(x, y, token, false, false, Pheromone(0.0, 0.0)))
  }

  /** The grid with the square at `p` replaced. */
  function Replace(squares: Squares, p: Pos, sq: Square): (r: Squares)
    requires InGrid(squares, p)
    ensures |r| == |squares| && forall y :: 0 <= y < |r| ==> |r[y]| == |squares[y]|
  {
    squares[p.y := squares[p.y][p.x := Some(sq)]]
  }

  /** Replacing one square changes that cell and no other. */
  lemma ReplaceAt(squares: Squares, p: Pos, sq: Square, q: Pos)
    requires InGrid(squares, p)
    ensures At(Replace(squares, p, sq), q) == if q == p then Some(sq) else At(squares, q)
  {
  }

  /** Replacing a square by one that differs only in pheromone keeps the layout and every invariant of it. */
  lemma ReplaceKeepsLayout(squares: Squares, p: Pos, sq: Square)
    requires InGrid(squares, p) && At(squares, p).Some?
    requires sq.(pheromone := At(squares, p).value.pheromone) == At(squares, p).value
    ensures SameLayout(squares, Replace(squares, p, sq))
    ensures Rectangular(squares) ==> Rectangular(Replace(squares, p, sq))
    ensures WellPlaced(squares) ==> WellPlaced(Replace(squares, p, sq))
  {
  }

  /** Evaporation of one cell: both levels keep the fraction 1 - RHO. */
  function EvaporateCell(c: Option<Square>): Option<Square> {
    match c
    case None => None
    case Some(sq) =>
      Some(sq.(pheromone := Pheromone((1.0 - RHO) * sq.pheromone.food, (1.0 - RHO) * sq.pheromone.nest)))
  }

  /** The grid after one evaporation round. */
  function Evaporated(squares: Squares): (r: Squares)
    ensures |r| == |squares| && forall y :: 0 <= y < |r| ==> |r[y]| == |squares[y]|
    ensures forall y, x :: 0 <= y < |r| && 0 <= x < |r[y]| ==> (r[y][x].None? <==> squares[y][x].None?)
  {
    seq(|squares|, y requires 0 <= y < |squares| => seq(|squares[y]|, x requires 0 <= x < |squares[y]| => EvaporateCell(squares[y][x])))
  }

  /**
   * Evaporation leaves the layout alone, keeps levels non-negative, never
   * raises a level and lowers every positive one.
   */
  lemma EvaporationShrinks(squares: Squares)
    ensures SameLayout(squares, Evaporated(squares))
    ensures NonNegative(squares) ==> NonNegative(Evaporated(squares))
    ensures NonNegative(squares) ==>
      forall y, x :: 0 <= y < |squares| && 0 <= x < |squares[y]| && squares[y][x].Some? ==>
        var before := squares[y][x].value.pheromone;
        var after := Evaporated(squares)[y][x].value.pheromone;
        after.food <= before.food && after.nest <= before.nest &&
        (before.food > 0.0 ==> after.food < before.food) &&
        (before.nest > 0.0 ==> after.nest < before.nest)
  {
  }

  class World {
    var squares: Squares
    var foodPos: Option<Pos>
    var nestPos: Option<Pos>

    predicate Valid()
      reads this
    {
      Rectangular(squares) && WellPlaced(squares)
    }

    /**
     * get_world_map_squares: the token "1" is an obstacle, every other
     * token a fresh square with that label, no markers and no pheromone.
     * The width is that of the first row.
     */
    static method GetWorldMapSquares(worldMap: seq<seq<Label>>) returns (squares: Squares)
      requires |worldMap| > 0
      requires forall y :: 0 <= y < |worldMap| ==> |worldMap[y]| >= |worldMap[0]|
      ensures |squares| == |worldMap| && Rectangular(squares) && |squares[0]| == |worldMap[0]|
      ensures forall y, x :: 0 <= y < |squares| && 0 <= x < |squares[y]| ==>
        (squares[y][x].None? <==> worldMap[y][x] == OBSTACLE) &&
        (squares[y][x].Some? ==> squares[y][x].value.name == worldMap[y][x] &&
                                 !squares[y][x].value.food && !squares[y][x].value.nest &&
                                 squares[y][x].value.pheromone == Pheromone(0.0, 0.0))
      ensures WellPlaced(squares) && NonNegative(squares)
    {
      var width := |worldMap[0]|;
      squares := [];
      var y := 0;
      while y < |worldMap|
        invariant 0 <= y <= |worldMap| && |squares| == y
        invariant forall j :: 0 <= j < y ==> |squares[j]| == width
        invariant forall j, x :: 0 <= j < y && 0 <= x < width ==> squares[j][x] == Cell(worldMap[j][x], x, j)
      {
        var row: seq<Option<Square>> := [];
        var x := 0;
        while x < width
          invariant 0 <= x <= width && |row| == x
          invariant forall i :: 0 <= i < x ==> row[i] == Cell(worldMap[y][i], i, y)
        {
          row := row + [Cell(worldMap[y][x], x, y)];
          x := x + 1;
        }
        squares := squares + [row];
        y := y + 1;
      }
    }

    constructor(worldMap: seq<seq<Label>>)
      requires |worldMap| > 0
      requires forall y :: 0 <= y < |worldMap| ==> |worldMap[y]| >= |worldMap[0]|
      ensures Valid() && NonNegative(squares)
      ensures |squares| == |worldMap| && |squares[0]| == |worldMap[0]|
      ensures forall y, x :: 0 <= y < |squares| && 0 <= x < |squares[y]| ==>
        squares[y][x] == Cell(worldMap[y][x], x, y)
      ensures foodPos == None && nestPos == None
    {
      var built := GetWorldMapSquares(worldMap);
      squares := built;
      foodPos := None;
      nestPos := None;
    }

    /** The row-major scan shared by set_nest and set_food: the first square carrying `name`. */
    method Locate(name: Label) returns (found: Option<Pos>)
      requires Valid()
      ensures found.Some? ==> FirstWithLabel(squares, name, found.value)
      ensures found.None? ==> forall q :: !LabelAt(squares, q, name)
    {
      var y := 0;
      while y < |squares|
        invariant 0 <= y <= |squares|
        invariant forall q: Pos :: q.y < y ==> !LabelAt(squares, q, name)
      {
        var x := 0;
        while x < |squares[0]|
          invariant 0 <= x <= |squares[0]|
          invariant forall q :: Before(q, Pos(x, y)) ==> !LabelAt(squares, q, name)
        {
          if squares[y][x].Some? && squares[y][x].value.name == name {
            assert LabelAt(squares, Pos(x, y), name);
            return Some(Pos(x, y));
          }
          x := x + 1;
        }
        y := y + 1;
      }
      return None;
    }

    /** set_nest: marks the first square carrying `name` as the nest and records its position. */
    method SetNest(name: Label) returns (found: Option<Pos>)
      requires Valid()
      modifies this
      ensures Valid() && OnlyCellChanged(old(squares), squares, found)
      ensures found.Some? ==> FirstWithLabel(old(squares), name, found.value) && nestPos == found
      ensures found.Some? ==> squares == Replace(old(squares), found.value, At(old(squares), found.value).value.(nest := true))
      ensures found.None? ==> (forall q :: !LabelAt(old(squares), q, name)) && squares == old(squares) && nestPos == old(nestPos)
      ensures foodPos == old(foodPos)
    {
      found := Locate(name);
      if found.Some? {
        var p := found.value;
        var sq := squares[p.y][p.x].value;
        squares := Replace(squares, p, sq.(nest := true));
        nestPos := found;
      }
    }

    /** set_food: marks the first square carrying `name` as the food source and records its position. */
    method SetFood(name: Label) returns (found: Option<Pos>)
      requires Valid()
      modifies this
      ensures Valid() && OnlyCellChanged(old(squares), squares, found)
      ensures found.Some? ==> FirstWithLabel(old(squares), name, found.value) && foodPos == found
      ensures found.Some? ==> squares == Replace(old(squares), found.value, At(old(squares), found.value).value.(food := true))
      ensures found.None? ==> (forall q :: !LabelAt(old(squares), q, name)) && squares == old(squares) && foodPos == old(foodPos)
      ensures nestPos == old(nestPos)
    {
      found := Locate(name);
      if found.Some? {
        var p := found.value;
        var sq := squares[p.y][p.x].value;
        squares := Replace(squares, p, sq.(food := true));
        foodPos := found;
      }
    }

    /** update_pheromone: every square keeps the fraction 1 - RHO of both levels, in place, row by row. */
    method UpdatePheromone()
      requires Valid()
      modifies this
      ensures squares == Evaporated(old(squares))
      ensures Valid() && foodPos == old(foodPos) && nestPos == old(nestPos)
    {
      var before := squares;
      var width := |squares[0]|;
      var y := 0;
      while y < |squares|
        invariant 0 <= y <= |squares| && |squares| == |before|
        invariant forall j :: 0 <= j < |squares| ==> |squares[j]| == |before[j]|
        invariant forall j :: y <= j < |squares| ==> squares[j] == before[j]
        invariant forall j, i :: 0 <= j < y && 0 <= i < |squares[j]| ==> squares[j][i] == EvaporateCell(before[j][i])
        invariant foodPos == old(foodPos) && nestPos == old(nestPos)
      {
        var x := 0;
        while x < width
          invariant 0 <= x <= width && |squares| == |before|
          invariant forall j :: 0 <= j < |squares| ==> |squares[j]| == |before[j]|
          invariant forall j :: y < j < |squares| ==> squares[j] == before[j]
          invariant forall j, i :: 0 <= j < y && 0 <= i < |squares[j]| ==> squares[j][i] == EvaporateCell(before[j][i])
          invariant forall i :: 0 <= i < x ==> squares[y][i] == EvaporateCell(before[y][i])
          invariant forall i :: x <= i < |squares[y]| ==> squares[y][i] == before[y][i]
          invariant foodPos == old(foodPos) && nestPos == old(nestPos)
        {
          if squares[y][x].Some? {
            squares := squares[y := squares[y][x := EvaporateCell(squares[y][x])]];
          }
          x := x + 1;
        }
        y := y + 1;
      }
      assert forall j :: 0 <= j < |squares| ==> squares[j] == Evaporated(before)[j];
      EvaporationShrinks(before);
    }
  }

  /** `b` has the shape of `a` and the same cells except possibly the one at `p`. */
  ghost predicate OnlyCellChanged(a: Squares, b: Squares, p: Option<Pos>) {
    |a| == |b| && (forall y :: 0 <= y < |a| ==> |a[y]| == |b[y]|) &&
    forall q :: (p.None? || q != p.value) ==> At(a, q) == At(b, q)
  }
}
