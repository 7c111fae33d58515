/**
 * One ant and the rules of its step: which neighbouring stations it may
 * walk to, how a marker, a pheromone trail, inertia with perturbation or
 * obstacle avoidance picks one, what the move costs, and when a leg ends
 * and is reported.
 */
module Colony {
  import opened Wrappers
  import opened Network
  import opened Grid

  datatype Behavior = FOOD | NEST

  function Flip(b: Behavior): Behavior {
    if b == FOOD then NEST else FOOD
  }

  /** A scope index: 0 west, 1 south-west, 2 south, 3 south-east, 4 east, 5 north-east, 6 north, 7 north-west (y grows southwards). */
  type Direction = d: int | 0 <= d < 8

  function DX(d: Direction): int {
    if d == 0 || d == 1 || d == 7 then -1 else if d == 2 || d == 6 then 0 else 1
  }

  function DY(d: Direction): int {
    if d == 1 || d == 2 || d == 3 then 1 else if d == 0 || d == 4 then 0 else -1
  }

  /** The scope index the ant came from: prev_direction +/- 4. */
  function Opposite(d: Direction): Direction {
    if d >= 4 then d - 4 else d + 4
  }

  /** Opposite directions have opposite offsets, so stepping back from a move returns to the start. */
  lemma OppositeReverses(d: Direction)
    ensures DX(Opposite(d)) == -DX(d) && DY(Opposite(d)) == -DY(d) && Opposite(Opposite(d)) == d
  {
  }

  function Neighbour(p: Pos, d: Direction): Pos
    requires 1 <= p.x && 1 <= p.y
  {
    Pos(p.x + DX(d), p.y + DY(d))
  }

  /** The scope cell in direction d (get_scope). */
  function ScopeCell(squares: Squares, p: Pos, d: Direction): Option<Square>
    requires Interior(squares, p)
  {
    At(squares, Neighbour(p, d))
  }

  /** Moving to a neighbour and looking back the opposite way sees the square one came from. */
  lemma LookBack(squares: Squares, p: Pos, d: Direction)
    requires Interior(squares, p) && Interior(squares, Neighbour(p, d))
    ensures Neighbour(Neighbour(p, d), Opposite(d)) == p
  {
    OppositeReverses(d);
  }

  /**
   * The random draws of one step: random.random() for the mistake and the
   * perturbation tests, random.choice as an index taken modulo the length
   * of the list, random.randint(0, 7) as a direction.
   */
  datatype Oracle = Oracle(mistakeCoin: real, mistakePick: nat, choicePick: nat,
                           perturbCoin: real, perturbDir: Direction, avoidPick: nat)

  /** What an ant sees before a step: the grid and its own fields. */
  datatype View = View(squares: Squares, pos: Pos, behavior: Behavior, prevDirection: int,
                       foodRoute: seq<Pos>, nestRoute: seq<Pos>, routeTime: map<string, real>)

  /** The ant stands on a square with a full scope around it, and its previous square, if any, is in scope. */
  predicate Fits(v: View) {
    Interior(v.squares, v.pos) && At(v.squares, v.pos).Some? && -1 <= v.prevDirection < 8 &&
    (v.prevDirection != -1 ==> ScopeCell(v.squares, v.pos, Opposite(v.prevDirection)).Some?)
  }

  function Current(v: View): Square
    requires Fits(v)
  {
    At(v.squares, v.pos).value
  }

  // ---------------------------------------------------------------------
  // Candidates
  // ---------------------------------------------------------------------

  datatype Candidate = Candidate(dir: Direction, square: Square)

  /**
   * The scope cell in direction d is a station, is on neither route list
   * of the ant, and is joined to the current station by an edge.
   */
  predicate Admissible(v: View, d: Direction)
    requires Fits(v)
  {
    var c := ScopeCell(v.squares, v.pos, d);
    c.Some? && Neighbour(v.pos, d) !in v.foodRoute && Neighbour(v.pos, d) !in v.nestRoute &&
    Current(v).name + c.value.name in v.routeTime
  }

  /** The admissible cells among the first n directions, in direction order. */
  function CandidatesUpTo(v: View, n: nat): (cs: seq<Candidate>)
    requires Fits(v) && n <= 8
    ensures |cs| <= n
    ensures forall i :: 0 <= i < |cs| ==>
      cs[i].dir < n && Admissible(v, cs[i].dir) && Some(cs[i].square) == ScopeCell(v.squares, v.pos, cs[i].dir)
  {
    if n == 0 then []
    else
      CandidatesUpTo(v, n - 1) +
      (if Admissible(v, n - 1) then [Candidate(n - 1, ScopeCell(v.squares, v.pos, n - 1).value)] else [])
  }

  /** The candidate list every rule starts from. */
  function Candidates(v: View): (cs: seq<Candidate>)
    requires Fits(v)
    ensures |cs| <= 8
    ensures forall i :: 0 <= i < |cs| ==>
      Admissible(v, cs[i].dir) && Some(cs[i].square) == ScopeCell(v.squares, v.pos, cs[i].dir)
  {
    CandidatesUpTo(v, 8)
  }

  /** Every admissible direction is listed. */
  lemma {:induction false} AdmissibleIsListed(v: View, n: nat, d: Direction)
    requires Fits(v) && n <= 8 && d < n && Admissible(v, d)
    ensures Candidate(d, ScopeCell(v.squares, v.pos, d).value) in CandidatesUpTo(v, n)
  {
    if d < n - 1 {
      AdmissibleIsListed(v, n - 1, d);
    }
  }

  /** A candidate is exactly an admissible direction with the square found there. */
  lemma CandidateIff(v: View, c: Candidate)
    requires Fits(v)
    ensures c in Candidates(v) <==> Admissible(v, c.dir) && Some(c.square) == ScopeCell(v.squares, v.pos, c.dir)
  {
    if Admissible(v, c.dir) && Some(c.square) == ScopeCell(v.squares, v.pos, c.dir) {
      AdmissibleIsListed(v, 8, c.dir);
    }
  }

  function SquaresOf(cs: seq<Candidate>): (r: seq<Square>)
    ensures |r| == |cs| && forall i :: 0 <= i < |cs| ==> r[i] == cs[i].square
  {
    seq(|cs|, i requires 0 <= i < |cs| => cs[i].square)
  }

  function NamesOf(cs: seq<Candidate>): (r: seq<Label>)
    ensures |r| == |cs| && forall i :: 0 <= i < |cs| ==> r[i] == cs[i].square.name
  {
    seq(|cs|, i requires 0 <= i < |cs| => cs[i].square.name)
  }

  /** The edge key of a move from the current station to `sq`. */
  function EdgeKey(v: View, sq: Square): string
    requires Fits(v)
  {
    Current(v).name + sq.name
  }

  // ---------------------------------------------------------------------
  // find_food_nest_rule
  // ---------------------------------------------------------------------

  /** The square carries the marker the ant is looking for. */
  predicate HasTarget(sq: Square, b: Behavior) {
    (sq.food && b == FOOD) || (sq.nest && b == NEST)
  }

  /** The square carries a non-zero trail of the kind the ant follows. */
  predicate HasTrail(sq: Square, b: Behavior) {
    (sq.pheromone.food != 0.0 && b == FOOD) || (sq.pheromone.nest != 0.0 && b == NEST)
  }

  /** calculate_pheromone: the weighted mix of both levels. */
  function Scent(sq: Square, b: Behavior): real {
    if b == FOOD then sq.pheromone.food * PHEROMONE_WEIGHT + sq.pheromone.nest * (1.0 - PHEROMONE_WEIGHT)
    else sq.pheromone.food * (1.0 - PHEROMONE_WEIGHT) + sq.pheromone.nest * PHEROMONE_WEIGHT
  }

  /** With weight 1 the scent is exactly the level of the trail the ant follows. */
  lemma ScentIsTrail(sq: Square, b: Behavior)
    ensures Scent(sq, b) == if b == FOOD then sq.pheromone.food else sq.pheromone.nest
  {
  }

  /** Index of the first candidate carrying the target marker, or -1. */
  function FirstTarget(cs: seq<Candidate>, b: Behavior): (t: int)
    ensures -1 <= t < |cs|
    ensures t >= 0 ==> HasTarget(cs[t].square, b) && forall j :: 0 <= j < t ==> !HasTarget(cs[j].square, b)
    ensures t == -1 ==> forall j :: 0 <= j < |cs| ==> !HasTarget(cs[j].square, b)
  {
    if |cs| == 0 then -1
    else
      var t := FirstTarget(cs[..|cs| - 1], b);
      if t >= 0 then t else if HasTarget(cs[|cs| - 1].square, b) then |cs| - 1 else -1
  }

  /** Some candidate among the first n carries a trail. */
  predicate TrailAmong(cs: seq<Candidate>, b: Behavior, n: nat)
    requires n <= |cs|
  {
    exists j :: 0 <= j < n && HasTrail(cs[j].square, b)
  }

  function Scents(cs: seq<Candidate>, b: Behavior): (vals: seq<real>)
    ensures |vals| == |cs| && forall i :: 0 <= i < |cs| ==> vals[i] == Scent(cs[i].square, b)
  {
    seq(|cs|, i requires 0 <= i < |cs| => Scent(cs[i].square, b))
  }

  /** The running maximum of the scan, starting from 0: strict `>` keeps the first of equal values. */
  function ArgMax(vals: seq<real>): (k: int)
    ensures -1 <= k < |vals|
  {
    if |vals| == 0 then -1
    else
      var k := ArgMax(vals[..|vals| - 1]);
      if vals[|vals| - 1] > BestOf(vals[..|vals| - 1], k) then |vals| - 1 else k
  }

  /** The best value held by the scan: 0 before any positive value was seen. */
  function BestOf(vals: seq<real>, k: int): real
    requires -1 <= k < |vals|
  {
    if k < 0 then 0.0 else vals[k]
  }

  /**
   * The scan picks the first maximum when some value is positive and
   * nothing otherwise.
   */
  lemma {:induction false} ArgMaxIsFirstMaximum(vals: seq<real>)
    ensures var k := ArgMax(vals);
      (k == -1 <==> forall j :: 0 <= j < |vals| ==> vals[j] <= 0.0) &&
      (k >= 0 ==> vals[k] > 0.0 &&
                  (forall j :: 0 <= j < |vals| ==> vals[j] <= vals[k]) &&
                  (forall j :: 0 <= j < k ==> vals[j] < vals[k]))
  {
    if |vals| > 0 {
      var front := vals[..|vals| - 1];
      ArgMaxIsFirstMaximum(front);
      assert forall j :: 0 <= j < |front| ==> vals[j] == front[j];
    }
  }

  /** The p-th index of 0 .. n-1 once k is taken out (the list the mistake draws from). */
  function Skip(k: nat, p: nat): (j: nat)
    ensures j != k
  {
    if p < k then p else p + 1
  }

  /** The draw counting the indices before j, k left out, is the one that lands on j. */
  lemma SkipHits(n: nat, k: nat, j: nat, p: nat)
    requires k < n && j < n && j != k && p + (if j < k then 0 else 1) == j
    ensures p % (n - 1) == p && Skip(k, p % (n - 1)) == j
  {
  }

  /** The mistake draw covers every other index exactly once. */
  lemma SkipCoversOthers(n: nat, k: nat, j: nat)
    requires k < n && j < n && j != k
    ensures var p := if j < k then j else j - 1; p < n - 1 && Skip(k, p) == j
  {
  }

  datatype Pick = Pick(dir: int, square: Option<Square>, line: string, found: bool)

  const NO_PICK := Pick(-1, None, "", false)

  /** The pick at candidate index j of a rule that does not end the leg. */
  function PickAt(v: View, cs: seq<Candidate>, j: nat): Pick
    requires Fits(v) && j < |cs|
  {
    Pick(cs[j].dir, Some(cs[j].square), EdgeKey(v, cs[j].square), false)
  }

  /**
   * find_food_nest_rule: the first candidate with the target marker ends
   * the leg (the returned direction is then its index in the list);
   * otherwise, when some candidate carries a trail, the strongest scent,
   * replaced by another candidate on a mistake.
   */
  function FindFoodNest(v: View, o: Oracle): (p: Pick)
    requires Fits(v)
    ensures Candidates(v) == [] ==> p.square.None?
    ensures p.found <==> FirstTarget(Candidates(v), v.behavior) >= 0
    ensures p.found ==> p.square == Some(Candidates(v)[FirstTarget(Candidates(v), v.behavior)].square)
    ensures p.square.Some? && !p.found ==> 0 <= p.dir < 8 && Candidate(p.dir, p.square.value) in Candidates(v)
    ensures p.square.Some? ==> p.line == EdgeKey(v, p.square.value)
    ensures FirstTarget(Candidates(v), v.behavior) < 0 && !TrailAmong(Candidates(v), v.behavior, |Candidates(v)|) ==> p.square.None?
  {
    var cs := Candidates(v);
    if |cs| == 0 then NO_PICK
    else
      var t := FirstTarget(cs, v.behavior);
      if t >= 0 then Pick(t, Some(cs[t].square), EdgeKey(v, cs[t].square), true)
      else if !TrailAmong(cs, v.behavior, |cs|) then NO_PICK
      else
        var k := ArgMax(Scents(cs, v.behavior));
        if k < 0 then NO_PICK
        else if |cs| >= 2 && o.mistakeCoin <= MISTAKE_RATE then PickAt(v, cs, Skip(k, o.mistakePick % (|cs| - 1)))
        else PickAt(v, cs, k)
  }

  // ---------------------------------------------------------------------
  // move_rule and avoid_obstacle_rule
  // ---------------------------------------------------------------------

  /** The label of the square the ant came from. */
  function PrevName(v: View): Label
    requires Fits(v) && v.prevDirection != -1
  {
    ScopeCell(v.squares, v.pos, Opposite(v.prevDirection)).value.name
  }

  /**
   * move_rule: the inertia pick (search_route_line) after a move, a random
   * candidate at the start of a leg; then, when the perturbation test
   * passes, the random direction, kept only if its cell is a candidate.
   */
  function MoveChoice(v: View, o: Oracle): (p: Pick)
    requires Fits(v)
    ensures !p.found
    ensures Candidates(v) == [] ==> p.square.None?
    ensures p.square.Some? ==> p.square.value in SquaresOf(Candidates(v)) && p.line == EdgeKey(v, p.square.value)
  {
    var cs := Candidates(v);
    if |cs| == 0 then NO_PICK
    else if o.perturbCoin <= PERTURBATION then
      var cell := ScopeCell(v.squares, v.pos, o.perturbDir);
      if cell.Some? && cell.value in SquaresOf(cs) then Pick(o.perturbDir, cell, EdgeKey(v, cell.value), false)
      else Pick(o.perturbDir, None, "", false)
    else if v.prevDirection != -1 then
      var k := SearchRouteLine(PrevName(v), Current(v).name, NamesOf(cs));
      if k >= 0 then assert SquaresOf(cs)[k] == cs[k].square; PickAt(v, cs, k) else NO_PICK
    else
      var j := o.choicePick % |cs|;
      assert SquaresOf(cs)[j] == cs[j].square;
      PickAt(v, cs, j)
  }

  /** avoid_obstacle_rule: a random candidate; none means the ant is stuck. */
  function Avoid(v: View, o: Oracle): (p: Pick)
    requires Fits(v)
    ensures !p.found
    ensures p.square.Some? <==> Candidates(v) != []
    ensures p.square.Some? ==> 0 <= p.dir < 8 && Candidate(p.dir, p.square.value) in Candidates(v) && p.line == EdgeKey(v, p.square.value)
  {
    var cs := Candidates(v);
    if |cs| == 0 then NO_PICK else PickAt(v, cs, o.avoidPick % |cs|)
  }

  /** The rule order of one step: marker or trail, then move, then avoidance. */
  function Decide(v: View, o: Oracle): (p: Pick)
    requires Fits(v)
    ensures p.square.Some? <==> Candidates(v) != []
    ensures p.found <==> FirstTarget(Candidates(v), v.behavior) >= 0
    ensures p.found ==> p.square == Some(Candidates(v)[FirstTarget(Candidates(v), v.behavior)].square)
    ensures p.square.Some? ==> p.line == EdgeKey(v, p.square.value)
  {
    var f := FindFoodNest(v, o);
    if f.found || f.square.Some? then f
    else
      var m := MoveChoice(v, o);
      if m.square.Some? then m else Avoid(v, o)
  }

  /** Different directions lead to different cells. */
  lemma NeighbourInjective(p: Pos, d: Direction, e: Direction)
    requires 1 <= p.x && 1 <= p.y && Neighbour(p, d) == Neighbour(p, e)
    ensures d == e
  {
  }

  /** In a grid whose squares record their own coordinates, a square in scope is a candidate iff it is listed. */
  lemma ListedSquare(v: View, d: Direction)
    requires Fits(v) && WellPlaced(v.squares) && ScopeCell(v.squares, v.pos, d).Some?
    ensures ScopeCell(v.squares, v.pos, d).value in SquaresOf(Candidates(v))
        <==> Candidate(d, ScopeCell(v.squares, v.pos, d).value) in Candidates(v)
  {
    var sq := ScopeCell(v.squares, v.pos, d).value;
    var cs := Candidates(v);
    if sq in SquaresOf(cs) {
      var i :| 0 <= i < |cs| && cs[i].square == sq;
      var e := cs[i].dir;
      assert ScopeCell(v.squares, v.pos, e) == Some(sq);
      assert Neighbour(v.pos, e) == Pos(sq.x, sq.y) == Neighbour(v.pos, d);
      NeighbourInjective(v.pos, d, e);
    }
  }

  /** Candidate squares are grid squares, so they carry no negative level either. */
  lemma CandidatesNonNegative(v: View)
    requires Fits(v) && NonNegative(v.squares)
    ensures forall i :: 0 <= i < |Candidates(v)| ==>
      Candidates(v)[i].square.pheromone.food >= 0.0 && Candidates(v)[i].square.pheromone.nest >= 0.0
  {
    var cs := Candidates(v);
    forall i | 0 <= i < |cs|
      ensures cs[i].square.pheromone.food >= 0.0 && cs[i].square.pheromone.nest >= 0.0
    {
      assert At(v.squares, Neighbour(v.pos, cs[i].dir)) == Some(cs[i].square);
    }
  }

  /**
   * The step outcome: the ant moves exactly when it has a candidate; it
   * moves to a candidate; it ends the leg exactly when a candidate carries
   * the target marker, and then at the first such candidate; and the edge
   * key is the pair of station labels.
   */
  lemma DecideMovesToCandidate(v: View, o: Oracle)
    requires Fits(v) && WellPlaced(v.squares)
    ensures var p := Decide(v, o); var cs := Candidates(v);
      (p.square.Some? <==> |cs| > 0) &&
      (p.found <==> FirstTarget(cs, v.behavior) >= 0) &&
      (p.found ==> p.square == Some(cs[FirstTarget(cs, v.behavior)].square)) &&
      (p.square.Some? && !p.found ==> Candidate(p.dir, p.square.value) in cs) &&
      (p.square.Some? ==> p.line == EdgeKey(v, p.square.value))
  {
    var cs := Candidates(v);
    var f := FindFoodNest(v, o);
    if !(f.found || f.square.Some?) && |cs| > 0 {
      var m := MoveChoice(v, o);
      if m.square.Some? && o.perturbCoin <= PERTURBATION {
        ListedSquare(v, o.perturbDir);
      }
    }
  }

  /**
   * On a grid without negative levels, a trail among the candidates always
   * yields a pick: the strongest scent is then positive, and without a
   * mistake the pick is the first candidate of greatest scent.
   */
  lemma TrailLeadsToStrongest(v: View, o: Oracle)
    requires Fits(v) && NonNegative(v.squares)
    requires FirstTarget(Candidates(v), v.behavior) < 0 && TrailAmong(Candidates(v), v.behavior, |Candidates(v)|)
    ensures FindFoodNest(v, o).square.Some?
    ensures !(|Candidates(v)| >= 2 && o.mistakeCoin <= MISTAKE_RATE) ==>
      var cs := Candidates(v); var k := ArgMax(Scents(cs, v.behavior));
      FindFoodNest(v, o) == PickAt(v, cs, k) &&
      (forall j :: 0 <= j < |cs| ==> Scent(cs[j].square, v.behavior) <= Scent(cs[k].square, v.behavior)) &&
      (forall j :: 0 <= j < k ==> Scent(cs[j].square, v.behavior) < Scent(cs[k].square, v.behavior))
  {
    var cs := Candidates(v);
    var vals := Scents(cs, v.behavior);
    var j :| 0 <= j < |cs| && HasTrail(cs[j].square, v.behavior);
    CandidatesNonNegative(v);
    ScentIsTrail(cs[j].square, v.behavior);
    assert vals[j] > 0.0;
    ArgMaxIsFirstMaximum(vals);
  }

  /**
   * The mistake branch: with two or more candidates and a mistake, the
   * pheromone rule leaves out the strongest candidate and takes the drawn
   * one of the rest (SkipHits names the draw that lands on each of them).
   */
  lemma MistakeSkipsStrongest(v: View, o: Oracle)
    requires Fits(v) && NonNegative(v.squares)
    requires FirstTarget(Candidates(v), v.behavior) < 0 && TrailAmong(Candidates(v), v.behavior, |Candidates(v)|)
    requires |Candidates(v)| >= 2 && o.mistakeCoin <= MISTAKE_RATE
    ensures 0 <= ArgMax(Scents(Candidates(v), v.behavior)) < |Candidates(v)|
    ensures var cs := Candidates(v); var k := ArgMax(Scents(cs, v.behavior));
      var j := Skip(k, o.mistakePick % (|cs| - 1));
      j < |cs| && j != k && FindFoodNest(v, o) == PickAt(v, cs, j)
  {
    TrailLeadsToStrongest(v, o);
  }

  /** PERTURBATION is 1, so for every draw of random.random() in [0, 1) the perturbation replaces the inertia pick. */
  lemma PerturbationAlwaysApplies(v: View, o: Oracle)
    requires Fits(v) && 0.0 <= o.perturbCoin < 1.0 && |Candidates(v)| > 0
    ensures MoveChoice(v, o).dir == o.perturbDir
    ensures var cell := ScopeCell(v.squares, v.pos, o.perturbDir);
      (MoveChoice(v, o).square.Some? <==> cell.Some? && cell.value in SquaresOf(Candidates(v))) &&
      (MoveChoice(v, o).square.Some? ==> MoveChoice(v, o).square == cell)
  {
  }

  /**
   * Without the perturbation the move rule keeps the ant's line: after a
   * move it goes to the first candidate carrying the inertia target, and
   * has no square when no candidate carries it; at the start of a leg it
   * takes the drawn candidate.
   */
  lemma InertiaWithoutPerturbation(v: View, o: Oracle)
    requires Fits(v) && |Candidates(v)| > 0 && o.perturbCoin > PERTURBATION
    ensures v.prevDirection != -1 ==>
      var cs := Candidates(v);
      var k := SearchRouteLine(PrevName(v), Current(v).name, NamesOf(cs));
      (MoveChoice(v, o).square.Some? <==> k >= 0) &&
      (k >= 0 ==> MoveChoice(v, o) == PickAt(v, cs, k) &&
                  Some(cs[k].square.name) == InertiaTarget(PrevName(v), Current(v).name))
    ensures v.prevDirection == -1 ==>
      MoveChoice(v, o) == PickAt(v, Candidates(v), o.choicePick % |Candidates(v)|)
  {
    var cs := Candidates(v);
    if v.prevDirection != -1 {
      var k := SearchRouteLine(PrevName(v), Current(v).name, NamesOf(cs));
      if k >= 0 {
        assert NamesOf(cs)[k] == cs[k].square.name;
      }
    }
  }

  /**
   * The order of the rules: a target marker, then a trail, then the move
   * rule, then avoidance. A target or (on a grid without negative levels)
   * a trail among the candidates decides the step through the
   * pheromone rule; with neither, the move rule decides when it yields a
   * square, and avoidance otherwise.
   */
  lemma DecideRuleOrder(v: View, o: Oracle)
    requires Fits(v)
    ensures FirstTarget(Candidates(v), v.behavior) >= 0 ==> Decide(v, o) == FindFoodNest(v, o)
    ensures NonNegative(v.squares) && TrailAmong(Candidates(v), v.behavior, |Candidates(v)|) ==>
      Decide(v, o) == FindFoodNest(v, o)
    ensures FirstTarget(Candidates(v), v.behavior) < 0 && !TrailAmong(Candidates(v), v.behavior, |Candidates(v)|) ==>
      Decide(v, o) == if MoveChoice(v, o).square.Some? then MoveChoice(v, o) else Avoid(v, o)
  {
    if NonNegative(v.squares) && FirstTarget(Candidates(v), v.behavior) < 0 && TrailAmong(Candidates(v), v.behavior, |Candidates(v)|) {
      TrailLeadsToStrongest(v, o);
    }
  }

  // ---------------------------------------------------------------------
  // spread_pheromone_rule
  // ---------------------------------------------------------------------

  /** An ant heading for the nest lays food trail; one heading for food lays nest trail. */
  function Deposited(squares: Squares, p: Pos, b: Behavior, amount: real): (r: Squares)
    requires At(squares, p).Some?
    ensures SameLayout(squares, r)
  {
    var sq := At(squares, p).value;
    var ph := sq.pheromone;
    var sq' := sq.(pheromone := if b == NEST then Pheromone(ph.food + amount, ph.nest)
                                else Pheromone(ph.food, ph.nest + amount));
    ReplaceKeepsLayout(squares, p, sq');
    Replace(squares, p, sq')
  }

  /**
   * A deposit raises one level of one square by the amount and changes
   * nothing else, so the layout and non-negativity are kept.
   */
  lemma DepositRaisesOneLevel(squares: Squares, p: Pos, b: Behavior, amount: real)
    requires At(squares, p).Some?
    ensures var r := Deposited(squares, p, b, amount);
      var before := At(squares, p).value.pheromone; var after := At(r, p).value.pheromone;
      SameLayout(squares, r) &&
      (forall q :: q != p ==> At(r, q) == At(squares, q)) &&
      (b == NEST ==> after == Pheromone(before.food + amount, before.nest)) &&
      (b == FOOD ==> after == Pheromone(before.food, before.nest + amount)) &&
      (NonNegative(squares) && amount >= 0.0 ==> NonNegative(r))
  {
    var sq := At(squares, p).value;
    var r := Deposited(squares, p, b, amount);
    forall q | q != p
      ensures At(r, q) == At(squares, q)
    {
      ReplaceAt(squares, p, sq.(pheromone := At(r, p).value.pheromone), q);
    }
  }

  /**
   * The first loop of find_food_nest_rule: it stops at the first candidate
   * with the target marker and otherwise notes whether any candidate has a
   * trail.
   */
  method MarkerScan(routes: seq<Candidate>, behavior: Behavior) returns (t: int, scented: bool)
    ensures t == FirstTarget(routes, behavior)
    ensures t < 0 ==> scented == TrailAmong(routes, behavior, |routes|)
  {
    scented := false;
    var i := 0;
    while i < |routes|
      invariant 0 <= i <= |routes|
      invariant forall j :: 0 <= j < i ==> !HasTarget(routes[j].square, behavior)
      invariant scented <==> TrailAmong(routes, behavior, i)
    {
      var sq := routes[i].square;
      if sq.food && behavior == FOOD {
        return i, scented;
      }
      if sq.nest && behavior == NEST {
        return i, scented;
      }
      if (sq.pheromone.food != 0.0 && behavior == FOOD) || (sq.pheromone.nest != 0.0 && behavior == NEST) {
        scented := true;
      }
      i := i + 1;
    }
    return -1, scented;
  }

  /** The second loop of find_food_nest_rule: the running strict maximum of the scents, starting from 0. */
  method StrongestScan(routes: seq<Candidate>, behavior: Behavior) returns (nextIndex: int)
    ensures nextIndex == ArgMax(Scents(routes, behavior))
  {
    ghost var vals := Scents(routes, behavior);
    var best := 0.0;
    nextIndex := -1;
    var k := 0;
    while k < |routes|
      invariant 0 <= k <= |routes|
      invariant nextIndex == ArgMax(vals[..k]) && best == BestOf(vals[..k], nextIndex)
    {
      assert vals[..k + 1][..k] == vals[..k];
      var value := Scent(routes[k].square, behavior);
      if value > best {
        best := value;
        nextIndex := k;
      }
      k := k + 1;
    }
    assert vals[..|routes|] == vals;
  }

  // ---------------------------------------------------------------------
  // The ant
  // ---------------------------------------------------------------------

  /** The cost that goes with "no route" in a step's result. */
  const NO_ROUTE_COST: real := 10000.0

  /** No position occurs twice: each one is new when it is appended. */
  predicate Distinct(s: seq<Pos>) {
    |s| == 0 || (s[|s| - 1] !in s[..|s| - 1] && Distinct(s[..|s| - 1]))
  }

  /** Distinct means no two indices hold the same position. */
  lemma {:induction false} DistinctIff(s: seq<Pos>)
    ensures Distinct(s) <==> forall i, j :: 0 <= i < j < |s| ==> s[i] != s[j]
  {
    if |s| > 0 {
      var init := s[..|s| - 1];
      DistinctIff(init);
      assert forall i :: 0 <= i < |init| ==> init[i] == s[i];
      if Distinct(s) {
        forall i, j | 0 <= i < j < |s|
          ensures s[i] != s[j]
        {
          if j == |s| - 1 {
            assert s[i] in init;
          }
        }
      }
      if forall i, j :: 0 <= i < j < |s| ==> s[i] != s[j] {
        assert forall k :: 0 <= k < |init| ==> init[k] != s[|s| - 1];
      }
    }
  }

  /** A leg grows by a position it does not hold yet. */
  lemma DistinctSnoc(s: seq<Pos>, p: Pos)
    requires Distinct(s) && p !in s
    ensures Distinct(s + [p])
  {
    assert (s + [p])[..|s|] == s;
  }

  /** The squares at the positions of `leg` carry, in order, the names of `route`. */
  predicate Spells(squares: Squares, leg: seq<Pos>, route: seq<Label>) {
    |leg| == |route| &&
    (|leg| == 0 ||
     (LabelAt(squares, leg[|leg| - 1], route[|route| - 1]) && Spells(squares, leg[..|leg| - 1], route[..|route| - 1])))
  }

  /** Spells means: equally long, and every position carries the name at the same index. */
  lemma {:induction false} SpellsIff(squares: Squares, leg: seq<Pos>, route: seq<Label>)
    ensures Spells(squares, leg, route) <==>
            |leg| == |route| && forall i :: 0 <= i < |leg| ==> LabelAt(squares, leg[i], route[i])
  {
    if |leg| == |route| && |leg| > 0 {
      var n := |leg| - 1;
      SpellsIff(squares, leg[..n], route[..n]);
      assert forall i :: 0 <= i < n ==> leg[..n][i] == leg[i] && route[..n][i] == route[i];
    }
  }

  /** A leg that spells its route still does with one more square and its name. */
  lemma SpellsSnoc(squares: Squares, leg: seq<Pos>, route: seq<Label>, p: Pos, name: Label)
    requires Spells(squares, leg, route) && LabelAt(squares, p, name)
    ensures Spells(squares, leg + [p], route + [name])
  {
    assert (leg + [p])[..|leg|] == leg && (route + [name])[..|route|] == route;
  }

  /** Labels along positions are kept by a change of pheromone. */
  lemma {:induction false} LayoutKeepsLabels(a: Squares, b: Squares, leg: seq<Pos>, route: seq<Label>)
    requires SameLayout(a, b) && Spells(a, leg, route)
    ensures Spells(b, leg, route)
  {
    if |leg| > 0 {
      SameLayoutAt(a, b, leg[|leg| - 1]);
      LayoutKeepsLabels(a, b, leg[..|leg| - 1], route[..|route| - 1]);
    }
  }

  /**
   * The state of a leg: its squares are distinct and spell the route, the
   * ant stands on the last one, the one before lies opposite
   * prev_direction (which is -1 exactly at the start of a leg), and the
   * running total is 1 plus the time of the route.
   */
  predicate LegOk(squares: Squares, routeTime: map<string, real>, route: seq<Label>, leg: seq<Pos>,
                  pos: Pos, prevDirection: int, total: real)
  {
    LegTime(routeTime, route, total) && LegPath(squares, route, leg, pos, prevDirection)
  }

  /** The running total is 1 plus the time of the route, a route of the network with positive edge times. */
  predicate LegTime(routeTime: map<string, real>, route: seq<Label>, total: real) {
    PositiveTimes(routeTime) && |route| >= 1 && Hops(routeTime, route) && total == 1.0 + RouteCost(routeTime, route)
  }

  /** The squares of the leg: distinct, spelling the route, the last under the ant, the one before behind it. */
  predicate LegPath(squares: Squares, route: seq<Label>, leg: seq<Pos>, pos: Pos, prevDirection: int) {
    |route| >= 1 && Spells(squares, leg, route) && leg[|route| - 1] == pos && Distinct(leg) &&
    -1 <= prevDirection < 8 && (prevDirection == -1 <==> |route| == 1) &&
    (|route| >= 2 ==> 1 <= pos.x && 1 <= pos.y && prevDirection >= 0 &&
                      leg[|route| - 2] == Neighbour(pos, Opposite(prevDirection))) &&
    // the squares an ant looks at on every step: where it stands and where it came from
    LabelAt(squares, pos, route[|route| - 1]) &&
    (|route| >= 2 ==> LabelAt(squares, leg[|route| - 2], route[|route| - 2]))
  }

  /** The view of an ant whose leg is in order, on a grid whose squares lie inside the border. */
  predicate Placed(v: View, route: seq<Label>, leg: seq<Pos>, total: real) {
    Rectangular(v.squares) && WellPlaced(v.squares) && Bordered(v.squares) &&
    leg == (if v.behavior == FOOD then v.foodRoute else v.nestRoute) &&
    LegOk(v.squares, v.routeTime, route, leg, v.pos, v.prevDirection, total)
  }

  /** An ant in order sees a full scope, stands on the last station of its route and came from the one before. */
  lemma PlacedFits(v: View, route: seq<Label>, leg: seq<Pos>, total: real)
    requires Placed(v, route, leg, total)
    ensures Fits(v) && Current(v).name == route[|route| - 1]
    ensures v.prevDirection != -1 ==> PrevName(v) == route[|route| - 2]
  {
  }

  /** What a move to `sq` adds to total_route_len: the edge time and, after a move, the interchange penalty. */
  function MoveTime(v: View, sq: Square): real
    requires Fits(v) && EdgeKey(v, sq) in v.routeTime
  {
    v.routeTime[EdgeKey(v, sq)] +
    (if Current(v).name in INTERCHANGE_STATIONS && v.prevDirection != -1
     then ChangeRouteCost(PrevName(v), Current(v).name, sq.name) else 0.0)
  }

  /** Every move takes time: edge times are positive and interchange penalties are not negative. */
  lemma MoveTimePositive(v: View, sq: Square)
    requires Fits(v) && EdgeKey(v, sq) in v.routeTime && PositiveTimes(v.routeTime)
    ensures MoveTime(v, sq) > 0.0
  {
  }

  /** A leg starts in order at any station. */
  lemma LegOkStart(squares: Squares, routeTime: map<string, real>, p: Pos)
    requires PositiveTimes(routeTime) && At(squares, p).Some?
    ensures LegOk(squares, routeTime, [At(squares, p).value.name], [p], p, -1, 1.0)
  {
  }

  /** A change of pheromone does not disturb a leg. */
  lemma LegOkLayout(a: Squares, b: Squares, routeTime: map<string, real>, route: seq<Label>, leg: seq<Pos>,
                    pos: Pos, prevDirection: int, total: real)
    requires SameLayout(a, b) && LegOk(a, routeTime, route, leg, pos, prevDirection, total)
    ensures LegOk(b, routeTime, route, leg, pos, prevDirection, total)
  {
    LayoutKeepsLabels(a, b, leg, route);
  }

  /**
   * The running total tracks the route time: a move to a candidate adds
   * exactly the time by which the route's cost grows.
   */
  lemma MoveTimeExtendsRoute(v: View, route: seq<Label>, leg: seq<Pos>, total: real, d: Direction, sq: Square)
    requires Placed(v, route, leg, total) && (PlacedFits(v, route, leg, total); Candidate(d, sq) in Candidates(v))
    ensures EdgeKey(v, sq) in v.routeTime && Hops(v.routeTime, route + [sq.name])
    ensures RouteCost(v.routeTime, route + [sq.name]) == RouteCost(v.routeTime, route) + MoveTime(v, sq)
  {
    PlacedFits(v, route, leg, total);
    CandidateIff(v, Candidate(d, sq));
    RouteCostSnoc(v.routeTime, route, sq.name);
  }

  /**
   * A leg stays in order when a new square, where the ant arrives in
   * direction `d`, is appended with its name, and the total grows by the
   * time the route's cost grows.
   */
  lemma LegOkSnoc(squares: Squares, routeTime: map<string, real>, route: seq<Label>, leg: seq<Pos>,
                  pos: Pos, prevDirection: int, total: real, p: Pos, name: Label, d: Direction, time: real)
    requires LegOk(squares, routeTime, route, leg, pos, prevDirection, total)
    requires p !in leg && LabelAt(squares, p, name) && 1 <= p.x && 1 <= p.y && Neighbour(p, Opposite(d)) == pos
    requires Hops(routeTime, route + [name]) && RouteCost(routeTime, route + [name]) == RouteCost(routeTime, route) + time
    ensures LegOk(squares, routeTime, route + [name], leg + [p], p, d, total + time)
  {
    LegPathSnoc(squares, route, leg, pos, prevDirection, p, name, d);
  }

  /** The path part of LegOkSnoc. */
  lemma LegPathSnoc(squares: Squares, route: seq<Label>, leg: seq<Pos>, pos: Pos, prevDirection: int,
                    p: Pos, name: Label, d: Direction)
    requires LegPath(squares, route, leg, pos, prevDirection)
    requires p !in leg && LabelAt(squares, p, name) && 1 <= p.x && 1 <= p.y && Neighbour(p, Opposite(d)) == pos
    ensures LegPath(squares, route + [name], leg + [p], p, d)
  {
    SpellsSnoc(squares, leg, route, p, name);
    DistinctSnoc(leg, p);
    assert (leg + [p])[|route| - 1] == leg[|route| - 1];
  }

  /** A move to a candidate keeps the leg in order, with the candidate appended. */
  lemma LegOkAdvance(v: View, route: seq<Label>, leg: seq<Pos>, total: real, d: Direction, sq: Square)
    requires Placed(v, route, leg, total) && (PlacedFits(v, route, leg, total); Candidate(d, sq) in Candidates(v))
    ensures Pos(sq.x, sq.y) == Neighbour(v.pos, d) && Pos(sq.x, sq.y) !in leg
    ensures At(v.squares, Pos(sq.x, sq.y)) == Some(sq)
    ensures LegOk(v.squares, v.routeTime, route + [sq.name], leg + [Pos(sq.x, sq.y)], Pos(sq.x, sq.y), d,
                  total + MoveTime(v, sq))
  {
    PlacedFits(v, route, leg, total);
    CandidateIff(v, Candidate(d, sq));
    MoveTimeExtendsRoute(v, route, leg, total, d, sq);
    var p := Pos(sq.x, sq.y);
    assert p == Neighbour(v.pos, d);
    assert Interior(v.squares, p);
    LookBack(v.squares, v.pos, d);
    LegOkSnoc(v.squares, v.routeTime, route, leg, v.pos, v.prevDirection, total, p, sq.name, d, MoveTime(v, sq));
  }

  /**
   * What an ant changes as it walks, apart from is_dead: the square it
   * stands on (by position), its behaviour, prev_direction,
   * total_route_len, food_route, nest_route and route.
   */
  datatype AntState = AntState(pos: Pos, behavior: Behavior, prevDirection: int, totalRouteLen: real,
                               foodRoute: seq<Pos>, nestRoute: seq<Pos>, route: seq<Label>)

  /** The list of the current leg: food_route while foraging, nest_route while homing. */
  function LegOf(s: AntState): seq<Pos> {
    if s.behavior == FOOD then s.foodRoute else s.nestRoute
  }

  /** What the rules see of an ant in state `s` on `squares`. */
  function ViewOf(squares: Squares, routeTime: map<string, real>, s: AntState): View {
    View(squares, s.pos, s.behavior, s.prevDirection, s.foodRoute, s.nestRoute, routeTime)
  }

  /** An ant in order: the list of the leg it walks is in order (LegOk) and the other list is empty. */
  predicate Walking(squares: Squares, routeTime: map<string, real>, s: AntState) {
    (if s.behavior == FOOD then s.nestRoute else s.foodRoute) == [] &&
    LegOk(squares, routeTime, s.route, LegOf(s), s.pos, s.prevDirection, s.totalRouteLen)
  }

  /** The grid of a walking ant: rectangular, every square at its own coordinates and inside the border. */
  predicate Ground(squares: Squares) {
    Rectangular(squares) && WellPlaced(squares) && Bordered(squares)
  }

  /** An ant in order sees a full scope, stands on the last station of its route and came from the one before. */
  lemma WalkingFits(squares: Squares, routeTime: map<string, real>, s: AntState)
    requires Ground(squares) && Walking(squares, routeTime, s)
    ensures Fits(ViewOf(squares, routeTime, s)) && Current(ViewOf(squares, routeTime, s)).name == s.route[|s.route| - 1]
    ensures s.prevDirection != -1 ==> PrevName(ViewOf(squares, routeTime, s)) == s.route[|s.route| - 2]
    ensures s.totalRouteLen >= 1.0
  {
    PlacedFits(ViewOf(squares, routeTime, s), s.route, LegOf(s), s.totalRouteLen);
  }

  /** The state after a move onto `sq` in direction `d` that takes `time`. */
  function Moved(s: AntState, d: int, sq: Square, time: real): AntState {
    var p := Pos(sq.x, sq.y);
    s.(pos := p, prevDirection := d, totalRouteLen := s.totalRouteLen + time,
       foodRoute := if s.behavior == FOOD then s.foodRoute + [p] else s.foodRoute,
       nestRoute := if s.behavior == NEST then s.nestRoute + [p] else s.nestRoute,
       route := s.route + [sq.name])
  }

  /** The state after reaching the target `sq`: turned round, with a new leg of that one square. */
  function Turned(s: AntState, sq: Square): AntState {
    var p := Pos(sq.x, sq.y);
    AntState(p, Flip(s.behavior), -1, 1.0,
             if s.behavior == NEST then [p] else [], if s.behavior == FOOD then [p] else [], [sq.name])
  }

  /**
   * A move onto a candidate keeps the ant in order: the square, which the
   * leg did not hold, joins the leg and the route, and its time the total.
   */
  lemma WalkingAdvance(squares: Squares, routeTime: map<string, real>, s: AntState, d: Direction, sq: Square)
    requires Ground(squares) && Walking(squares, routeTime, s)
    requires (WalkingFits(squares, routeTime, s); Candidate(d, sq) in Candidates(ViewOf(squares, routeTime, s)))
    ensures EdgeKey(ViewOf(squares, routeTime, s), sq) in routeTime
    ensures var p := Pos(sq.x, sq.y); var s' := Moved(s, d, sq, MoveTime(ViewOf(squares, routeTime, s), sq));
      At(squares, p) == Some(sq) && p !in LegOf(s) && LegOf(s') == LegOf(s) + [p] && Walking(squares, routeTime, s')
  {
    var v := ViewOf(squares, routeTime, s);
    PlacedFits(v, s.route, LegOf(s), s.totalRouteLen);
    LegOkAdvance(v, s.route, LegOf(s), s.totalRouteLen, d, sq);
    MoveTimeExtendsRoute(v, s.route, LegOf(s), s.totalRouteLen, d, sq);
  }

  /**
   * Reaching the target keeps the ant in order; the finished route is a
   * route of the network, and the running total less 1 is its time.
   */
  lemma WalkingTurn(squares: Squares, routeTime: map<string, real>, s: AntState, d: Direction, sq: Square)
    requires Ground(squares) && Walking(squares, routeTime, s)
    requires (WalkingFits(squares, routeTime, s); Candidate(d, sq) in Candidates(ViewOf(squares, routeTime, s)))
    ensures EdgeKey(ViewOf(squares, routeTime, s), sq) in routeTime
    ensures At(squares, Pos(sq.x, sq.y)) == Some(sq) && Walking(squares, routeTime, Turned(s, sq))
    ensures Hops(routeTime, s.route + [sq.name])
    ensures s.totalRouteLen + MoveTime(ViewOf(squares, routeTime, s), sq) - 1.0 == RouteCost(routeTime, s.route + [sq.name])
  {
    var v := ViewOf(squares, routeTime, s);
    PlacedFits(v, s.route, LegOf(s), s.totalRouteLen);
    LegOkAdvance(v, s.route, LegOf(s), s.totalRouteLen, d, sq);
    MoveTimeExtendsRoute(v, s.route, LegOf(s), s.totalRouteLen, d, sq);
    LegOkStart(squares, routeTime, Pos(sq.x, sq.y));
  }

  /** A change of pheromone does not disturb an ant in order. */
  lemma WalkingLayout(a: Squares, b: Squares, routeTime: map<string, real>, s: AntState)
    requires SameLayout(a, b) && Walking(a, routeTime, s)
    ensures Walking(b, routeTime, s)
  {
    LegOkLayout(a, b, routeTime, s.route, LegOf(s), s.pos, s.prevDirection, s.totalRouteLen);
  }

  /**
   * What one call of go_next_square yields: the finished route if any, its
   * time, the new state, whether the ant is dead, and the grid.
   */
  datatype Outcome = Outcome(report: Option<seq<Label>>, cost: real, state: AntState, dead: bool, squares: Squares)

  /** spread_pheromone_rule where an ant in order stands: PHEROMONE / total_route_len onto its square. */
  function Lay(squares: Squares, routeTime: map<string, real>, s: AntState): Squares
    requires Ground(squares) && Walking(squares, routeTime, s)
  {
    WalkingFits(squares, routeTime, s);
    Deposited(squares, s.pos, s.behavior, PHEROMONE / s.totalRouteLen)
  }

  /** The amount an ant lays, PHEROMONE / total_route_len, is positive and at most PHEROMONE, since the total is at least 1. */
  lemma ShareBounds(total: real)
    requires total >= 1.0
    ensures 0.0 < PHEROMONE / total <= PHEROMONE
  {
    assert PHEROMONE / total * total == PHEROMONE;
  }

  /**
   * Laying pheromone changes one square's level by a positive amount: the
   * grid keeps its layout and stays free of negative levels, and the ant
   * stays in order.
   */
  lemma LayKeeps(squares: Squares, routeTime: map<string, real>, s: AntState)
    requires Ground(squares) && NonNegative(squares) && Walking(squares, routeTime, s)
    ensures var r := Lay(squares, routeTime, s);
      SameLayout(squares, r) && Ground(r) && NonNegative(r) && Walking(r, routeTime, s)
  {
    WalkingFits(squares, routeTime, s);
    ShareBounds(s.totalRouteLen);
    var r := Lay(squares, routeTime, s);
    DepositRaisesOneLevel(squares, s.pos, s.behavior, PHEROMONE / s.totalRouteLen);
    SameLayoutKeeps(squares, r);
    WalkingLayout(squares, r, routeTime, s);
  }

  /**
   * One call of go_next_square on values: a dead ant, or one the rules
   * give no square, stays put dead; reaching the target finishes the route
   * (its running total less 1 is its time) and turns the ant round; any
   * other pick moves the ant on.
   */
  function Step(squares: Squares, routeTime: map<string, real>, s: AntState, dead: bool, o: Oracle): (r: Outcome)
    requires Ground(squares) && Walking(squares, routeTime, s)
    ensures r.report.None? ==> r.cost == NO_ROUTE_COST
    ensures r.dead <==> dead || (WalkingFits(squares, routeTime, s); Candidates(ViewOf(squares, routeTime, s)) == [])
    ensures r.dead ==> r.state == s && r.squares == squares
    ensures SameLayout(squares, r.squares)
  {
    if dead then Outcome(None, NO_ROUTE_COST, s, true, squares)
    else
      WalkingFits(squares, routeTime, s);
      var v := ViewOf(squares, routeTime, s);
      DecideMovesToCandidate(v, o);
      var p := Decide(v, o);
      if p.square.None? then Outcome(None, NO_ROUTE_COST, s, true, squares)
      else if p.found then
        var cs := Candidates(v);
        WalkingTurn(squares, routeTime, s, cs[FirstTarget(cs, s.behavior)].dir, p.square.value);
        var s' := Turned(s, p.square.value);
        Outcome(Some(s.route + [p.square.value.name]), s.totalRouteLen + MoveTime(v, p.square.value) - 1.0,
                s', false, Lay(squares, routeTime, s'))
      else
        WalkingAdvance(squares, routeTime, s, p.dir, p.square.value);
        var s' := Moved(s, p.dir, p.square.value, MoveTime(v, p.square.value));
        Outcome(None, NO_ROUTE_COST, s', false, Lay(squares, routeTime, s'))
  }

  /** When the rules end the leg at `sq`, Step finishes the route there and turns the ant round. */
  lemma StepFound(squares: Squares, routeTime: map<string, real>, s: AntState, o: Oracle)
    requires Ground(squares) && Walking(squares, routeTime, s)
    requires (WalkingFits(squares, routeTime, s); Decide(ViewOf(squares, routeTime, s), o).found)
    ensures Decide(ViewOf(squares, routeTime, s), o).square.Some?
    ensures var sq := Decide(ViewOf(squares, routeTime, s), o).square.value;
      var r := Step(squares, routeTime, s, false, o);
      r.report == Some(s.route + [sq.name]) && Hops(routeTime, s.route + [sq.name]) &&
      r.cost == RouteCost(routeTime, s.route + [sq.name]) && r.state == Turned(s, sq) && !r.dead &&
      Walking(squares, routeTime, r.state) && r.squares == Lay(squares, routeTime, r.state)
  {
    WalkingFits(squares, routeTime, s);
    var v := ViewOf(squares, routeTime, s);
    DecideMovesToCandidate(v, o);
    var cs := Candidates(v);
    WalkingTurn(squares, routeTime, s, cs[FirstTarget(cs, s.behavior)].dir, Decide(v, o).square.value);
  }

  /** When the rules pick `sq` without ending the leg, Step moves the ant onto it. */
  lemma StepMoved(squares: Squares, routeTime: map<string, real>, s: AntState, o: Oracle)
    requires Ground(squares) && Walking(squares, routeTime, s)
    requires (WalkingFits(squares, routeTime, s); var p := Decide(ViewOf(squares, routeTime, s), o); !p.found && p.square.Some?)
    ensures var v := ViewOf(squares, routeTime, s); var p := Decide(v, o);
      0 <= p.dir < 8 && Candidate(p.dir, p.square.value) in Candidates(v) && EdgeKey(v, p.square.value) in routeTime &&
      var r := Step(squares, routeTime, s, false, o);
      r.report == None && r.cost == NO_ROUTE_COST && !r.dead &&
      r.state == Moved(s, p.dir, p.square.value, MoveTime(v, p.square.value)) &&
      Walking(squares, routeTime, r.state) && r.squares == Lay(squares, routeTime, r.state)
  {
    WalkingFits(squares, routeTime, s);
    var v := ViewOf(squares, routeTime, s);
    DecideMovesToCandidate(v, o);
    var p := Decide(v, o);
    WalkingAdvance(squares, routeTime, s, p.dir, p.square.value);
  }

  /** StepMoved for a pick known by its direction and square: the outcome the move branch of go_next_square builds. */
  lemma StepMovedTo(squares: Squares, routeTime: map<string, real>, s: AntState, o: Oracle, d: Direction, sq: Square)
    requires Ground(squares) && Walking(squares, routeTime, s)
    requires (WalkingFits(squares, routeTime, s); var p := Decide(ViewOf(squares, routeTime, s), o);
      !p.found && p.square == Some(sq) && p.dir == d)
    ensures var v := ViewOf(squares, routeTime, s);
      Fits(v) && Candidate(d, sq) in Candidates(v) && EdgeKey(v, sq) in routeTime &&
      var r := Step(squares, routeTime, s, false, o);
      r.state == Moved(s, d, sq, MoveTime(v, sq)) && Walking(squares, routeTime, r.state) &&
      r == Outcome(None, NO_ROUTE_COST, r.state, false, Lay(squares, routeTime, r.state))
  {
    StepMoved(squares, routeTime, s, o);
  }

  /** The ant dies exactly when no scope cell is a candidate, and a dead ant stays where it is. */
  lemma StepDiesIff(squares: Squares, routeTime: map<string, real>, s: AntState, o: Oracle)
    requires Ground(squares) && Walking(squares, routeTime, s)
    ensures (WalkingFits(squares, routeTime, s);
      Step(squares, routeTime, s, false, o).dead <==> Candidates(ViewOf(squares, routeTime, s)) == [])
    ensures Step(squares, routeTime, s, false, o).dead ==> Step(squares, routeTime, s, false, o).state == s
  {
    WalkingFits(squares, routeTime, s);
    DecideMovesToCandidate(ViewOf(squares, routeTime, s), o);
  }

  /** Whatever happens, the ant stays in order. */
  lemma StepKeepsWalking(squares: Squares, routeTime: map<string, real>, s: AntState, dead: bool, o: Oracle)
    requires Ground(squares) && Walking(squares, routeTime, s)
    ensures Walking(squares, routeTime, Step(squares, routeTime, s, dead, o).state)
  {
    if !dead {
      WalkingFits(squares, routeTime, s);
      var v := ViewOf(squares, routeTime, s);
      DecideMovesToCandidate(v, o);
      var p := Decide(v, o);
      if p.square.Some? && p.found {
        var cs := Candidates(v);
        WalkingTurn(squares, routeTime, s, cs[FirstTarget(cs, s.behavior)].dir, p.square.value);
      } else if p.square.Some? {
        WalkingAdvance(squares, routeTime, s, p.dir, p.square.value);
      }
    }
  }

  /**
   * A reported route is the route walked plus a square carrying the target
   * marker; it is a route of the network, its cost is its time (edges and
   * interchanges), and the ant starts its next leg there, turned round.
   */
  lemma StepReports(squares: Squares, routeTime: map<string, real>, s: AntState, dead: bool, o: Oracle)
    requires Ground(squares) && Walking(squares, routeTime, s)
    ensures var r := Step(squares, routeTime, s, dead, o);
      r.report.Some? ==>
        !dead && !r.dead && |r.report.value| == |s.route| + 1 && r.report.value[..|s.route|] == s.route &&
        Hops(routeTime, r.report.value) && r.cost == RouteCost(routeTime, r.report.value) &&
        r.state.route == [r.report.value[|s.route|]] && r.state.behavior == Flip(s.behavior) &&
        At(squares, r.state.pos).Some? && HasTarget(At(squares, r.state.pos).value, s.behavior)
  {
    if !dead {
      WalkingFits(squares, routeTime, s);
      var v := ViewOf(squares, routeTime, s);
      DecideMovesToCandidate(v, o);
      var p := Decide(v, o);
      if p.square.Some? && p.found {
        var cs := Candidates(v);
        var t := FirstTarget(cs, s.behavior);
        WalkingTurn(squares, routeTime, s, cs[t].dir, p.square.value);
        assert (s.route + [p.square.value.name])[..|s.route|] == s.route;
      }
    }
  }

  /**
   * Any other move steps onto a candidate square the leg did not hold yet;
   * the square joins the leg and the route and nothing is reported.
   */
  lemma StepMoves(squares: Squares, routeTime: map<string, real>, s: AntState, dead: bool, o: Oracle)
    requires Ground(squares) && Walking(squares, routeTime, s)
    ensures var r := Step(squares, routeTime, s, dead, o);
      !r.dead && r.report.None? ==>
        r.cost == NO_ROUTE_COST && r.state.behavior == s.behavior && r.state.pos !in LegOf(s) &&
        LegOf(r.state) == LegOf(s) + [r.state.pos] && r.state.route[..|s.route|] == s.route &&
        |r.state.route| == |s.route| + 1 && r.state.totalRouteLen > s.totalRouteLen
  {
    if !dead {
      WalkingFits(squares, routeTime, s);
      var v := ViewOf(squares, routeTime, s);
      DecideMovesToCandidate(v, o);
      var p := Decide(v, o);
      if p.square.Some? && !p.found {
        WalkingAdvance(squares, routeTime, s, p.dir, p.square.value);
        assert (s.route + [p.square.value.name])[..|s.route|] == s.route;
        MoveTimePositive(v, p.square.value);
      }
    }
  }

  class Ant {
    const world: World
    /** STATIONS_ROUTE_TIME, the edge times. */
    const routeTime: map<string, real>
    /** The attributes the ant changes as it walks, other than is_dead. */
    var state: AntState
    var isDead: bool

    function Snapshot(): View
      reads this`state, world
    {
      ViewOf(world.squares, routeTime, state)
    }

    predicate GridOk()
      reads world
    {
      world.Valid() && Bordered(world.squares) && NonNegative(world.squares)
    }

    predicate Valid()
      reads this`state, world
    {
      GridOk() && Walking(world.squares, routeTime, state)
    }

    lemma ValidFits()
      requires Valid()
      ensures Fits(Snapshot()) && WellPlaced(world.squares) && state.totalRouteLen >= 1.0
      ensures Current(Snapshot()).name == state.route[|state.route| - 1]
      ensures state.prevDirection != -1 ==> PrevName(Snapshot()) == state.route[|state.route| - 2]
    {
      WalkingFits(world.squares, routeTime, state);
    }

    /** A new ant on a station square: it forages, and its route so far is that station. */
    constructor(world: World, square: Pos, routeTime: map<string, real>)
      requires world.Valid() && Bordered(world.squares) && NonNegative(world.squares) && PositiveTimes(routeTime)
      requires At(world.squares, square).Some?
      ensures Valid() && this.world == world && this.routeTime == routeTime && !isDead
      ensures state == AntState(square, FOOD, -1, 1.0, [square], [], [At(world.squares, square).value.name])
    {
      this.world := world;
      this.routeTime := routeTime;
      state := AntState(square, FOOD, -1, 1.0, [square], [], [At(world.squares, square).value.name]);
      isDead := false;
      LegOkStart(world.squares, routeTime, square);
    }

    /** The scan of the eight scope cells shared by the three movement rules. */
    method ScanCandidates() returns (routes: seq<Candidate>)
      requires Fits(Snapshot())
      ensures routes == Candidates(Snapshot())
    {
      ghost var v := Snapshot();
      var s := state;
      var cur := At(world.squares, s.pos).value;
      routes := [];
      var i := 0;
      while i < 8
        invariant 0 <= i <= 8 && routes == CandidatesUpTo(v, i)
      {
        var cell := At(world.squares, Neighbour(s.pos, i));
        assert CandidatesUpTo(v, i + 1) ==
          routes + if Admissible(v, i) then [Candidate(i, ScopeCell(v.squares, v.pos, i).value)] else [];
        if cell.None? || Neighbour(s.pos, i) in s.foodRoute || Neighbour(s.pos, i) in s.nestRoute {
          i := i + 1;
          continue;
        }
        if cur.name + cell.value.name in routeTime {
          routes := routes + [Candidate(i, cell.value)];
        }
        i := i + 1;
      }
    }

    /** find_food_nest_rule. */
    method FindFoodNestRule(o: Oracle) returns (p: Pick)
      requires Fits(Snapshot())
      ensures p == FindFoodNest(Snapshot(), o)
    {
      ghost var v := Snapshot();
      var routes := ScanCandidates();
      var cur := At(world.squares, state.pos).value;
      assert cur == Current(v);
      if |routes| == 0 {
        return NO_PICK;
      }
      var t, scented := MarkerScan(routes, state.behavior);
      if t >= 0 {
        return Pick(t, Some(routes[t].square), cur.name + routes[t].square.name, true);
      }
      if !scented {
        return NO_PICK;
      }
      var nextIndex := StrongestScan(routes, state.behavior);
      if nextIndex < 0 {
        return NO_PICK;
      }
      var chosen := nextIndex;
      if |routes| >= 2 && o.mistakeCoin <= MISTAKE_RATE {
        chosen := Skip(nextIndex, o.mistakePick % (|routes| - 1));
      }
      assert FindFoodNest(v, o) == PickAt(v, routes, chosen);
      p := Pick(routes[chosen].dir, Some(routes[chosen].square), cur.name + routes[chosen].square.name, false);
    }

    /** move_rule. */
    method MoveRule(o: Oracle) returns (p: Pick)
      requires Fits(Snapshot())
      ensures p == MoveChoice(Snapshot(), o)
    {
      var routes := ScanCandidates();
      if |routes| == 0 {
        return NO_PICK;
      }
      var s := state;
      var cur := At(world.squares, s.pos).value;
      var square: Option<Square>;
      var nextDirection: int;
      if s.prevDirection != -1 {
        var prevName := At(world.squares, Neighbour(s.pos, Opposite(s.prevDirection))).value.name;
        var k := SearchRouteLine(prevName, cur.name, NamesOf(routes));
        if k >= 0 {
          nextDirection, square := routes[k].dir, Some(routes[k].square);
        } else {
          nextDirection, square := -1, None;
        }
      } else {
        var c := routes[o.choicePick % |routes|];
        nextDirection, square := c.dir, Some(c.square);
      }
      if o.perturbCoin <= PERTURBATION {
        var mistake := o.perturbDir;
        square := At(world.squares, Neighbour(s.pos, mistake));
        if square.Some? && square.value !in SquaresOf(routes) {
          square := None;
        }
        nextDirection := mistake;
      }
      var line := if square.None? then "" else cur.name + square.value.name;
      p := Pick(nextDirection, square, line, false);
    }

    /** avoid_obstacle_rule: a random candidate, or death when there is none. */
    method AvoidObstacleRule(o: Oracle) returns (p: Pick)
      requires Fits(Snapshot())
      modifies this`isDead
      ensures p == Avoid(Snapshot(), o)
      ensures isDead == (old(isDead) || Candidates(Snapshot()) == [])
    {
      var routes := ScanCandidates();
      if |routes| == 0 {
        isDead := true;
        return NO_PICK;
      }
      var c := routes[o.avoidPick % |routes|];
      p := Pick(c.dir, Some(c.square), At(world.squares, state.pos).value.name + c.square.name, false);
    }

    /** spread_pheromone_rule at (x, y): PHEROMONE / total_route_len onto the trail the other ants follow back. */
    method SpreadPheromoneRule(x: nat, y: nat)
      requires At(world.squares, Pos(x, y)).Some? && state.totalRouteLen > 0.0
      modifies world
      ensures world.squares == Deposited(old(world.squares), Pos(x, y), state.behavior, PHEROMONE / state.totalRouteLen)
      ensures world.foodPos == old(world.foodPos) && world.nestPos == old(world.nestPos)
    {
      var sq := world.squares[y][x].value;
      var ph := sq.pheromone;
      var amount := PHEROMONE / state.totalRouteLen;
      if state.behavior == NEST {
        world.squares := Replace(world.squares, Pos(x, y), sq.(pheromone := Pheromone(ph.food + amount, ph.nest)));
      }
      if state.behavior == FOOD {
        world.squares := Replace(world.squares, Pos(x, y), sq.(pheromone := Pheromone(ph.food, ph.nest + amount)));
      }
    }

    /**
     * The target branch of go_next_square, before the pheromone is laid:
     * the reached square closes the route, whose time (edges plus
     * interchanges, counted from 1, minus 1) is reported; the ant turns
     * round and starts a new leg there.
     */
    method FinishLeg(ghost d: Direction, sq: Square) returns (report: seq<Label>, cost: real)
      requires Valid() && Candidate(d, sq) in Candidates(Snapshot())
      modifies this`state
      ensures Valid() && state == Turned(old(state), sq) && At(world.squares, state.pos) == Some(sq)
      ensures report == old(state.route) + [sq.name]
      ensures Hops(routeTime, report) && cost == RouteCost(routeTime, report)
    {
      WalkingTurn(world.squares, routeTime, state, d, sq);
      var s := state;
      var total := s.totalRouteLen + MoveTime(Snapshot(), sq);
      var next := Pos(sq.x, sq.y);
      report := s.route + [sq.name];
      s := s.(behavior := Flip(s.behavior),
              foodRoute := if s.behavior == NEST then [next] else [],
              nestRoute := if s.behavior == FOOD then [next] else []);
      cost := total - 1.0;
      s := s.(pos := next, prevDirection := -1, totalRouteLen := 1.0, route := [sq.name]);
      state := s;
    }

    /**
     * The move branch of go_next_square, before the pheromone is laid: the
     * time of the edge and of the interchange is added, and the ant steps
     * onto the candidate, which joins the leg and the route.
     */
    method Advance(d: Direction, sq: Square)
      requires Valid() && Candidate(d, sq) in Candidates(Snapshot())
      modifies this`state
      ensures Valid() && Fits(old(Snapshot())) && EdgeKey(old(Snapshot()), sq) in routeTime
      ensures state == Moved(old(state), d, sq, MoveTime(old(Snapshot()), sq))
    {
      WalkingAdvance(world.squares, routeTime, state, d, sq);
      ghost var moved := Moved(state, d, sq, MoveTime(Snapshot(), sq));
      var s := state;
      var total := s.totalRouteLen + MoveTime(Snapshot(), sq);
      var next := Pos(sq.x, sq.y);
      var food := if s.behavior == FOOD then s.foodRoute + [next] else s.foodRoute;
      var nest := if s.behavior == NEST then s.nestRoute + [next] else s.nestRoute;
      state := s.(totalRouteLen := total, pos := next, prevDirection := d,
                  foodRoute := food, nestRoute := nest, route := s.route + [sq.name]);
      assert state == moved;
    }

    /** The last step of both moving branches of go_next_square: pheromone on the square reached. */
    method Deposit()
      requires Valid()
      modifies world
      ensures Valid()
      ensures world.squares == Lay(old(world.squares), routeTime, state)
      ensures world.foodPos == old(world.foodPos) && world.nestPos == old(world.nestPos)
    {
      ValidFits();
      LayKeeps(world.squares, routeTime, state);
      SpreadPheromoneRule(state.pos.x, state.pos.y);
    }

    /**
     * The target branch of go_next_square: the rules end the leg at `sq`;
     * the route is finished there, the ant turns round and pheromone is laid.
     */
    method ReachTarget(ghost o: Oracle, sq: Square) returns (report: seq<Label>, cost: real)
      requires Valid() && Fits(Snapshot()) && Decide(Snapshot(), o).found && Decide(Snapshot(), o).square == Some(sq)
      modifies this`state, world
      ensures Valid()
      ensures Outcome(Some(report), cost, state, false, world.squares) == Step(old(world.squares), routeTime, old(state), false, o)
      ensures world.foodPos == old(world.foodPos) && world.nestPos == old(world.nestPos)
    {
      StepFound(world.squares, routeTime, state, o);
      DecideMovesToCandidate(Snapshot(), o);
      ghost var cs := Candidates(Snapshot());
      report, cost := FinishLeg(cs[FirstTarget(cs, state.behavior)].dir, sq);
      Deposit();
    }

    /**
     * The move branch of go_next_square: the rules pick `sq` in direction
     * `d` without ending the leg; the ant steps onto it and pheromone is laid.
     */
    method MoveOn(ghost o: Oracle, d: Direction, sq: Square)
      requires Valid() && Fits(Snapshot())
      requires Decide(Snapshot(), o) == Pick(d, Some(sq), Decide(Snapshot(), o).line, false)
      modifies this`state, world
      ensures Valid()
      ensures Outcome(None, NO_ROUTE_COST, state, false, world.squares) == Step(old(world.squares), routeTime, old(state), false, o)
      ensures world.foodPos == old(world.foodPos) && world.nestPos == old(world.nestPos)
    {
      ghost var p := Decide(Snapshot(), o);
      assert p.dir == d && p.square == Some(sq) && !p.found;
      StepMovedTo(world.squares, routeTime, state, o, d, sq);
      Advance(d, sq);
      Deposit();
    }

    /**
     * The rule sequence of go_next_square: the marker or trail rule, then
     * the movement rule, then obstacle avoidance, which kills the ant when
     * no scope cell is a candidate.
     */
    method Choose(o: Oracle) returns (p: Pick)
      requires Fits(Snapshot()) && WellPlaced(world.squares)
      modifies this`isDead
      ensures p == Decide(Snapshot(), o)
      ensures isDead == (old(isDead) || p.square.None?)
    {
      DecideMovesToCandidate(Snapshot(), o);
      p := FindFoodNestRule(o);
      if p.square.None? {
        p := MoveRule(o);
        if p.square.None? {
          p := AvoidObstacleRule(o);
        }
      }
    }

    /** go_next_square for a living ant: the rules pick, then one of the three branches runs. */
    method Live(o: Oracle) returns (report: Option<seq<Label>>, cost: real)
      requires Valid() && !isDead
      modifies this`state, this`isDead, world
      ensures Valid()
      ensures Outcome(report, cost, state, isDead, world.squares) == Step(old(world.squares), routeTime, old(state), false, o)
      ensures world.foodPos == old(world.foodPos) && world.nestPos == old(world.nestPos)
    {
      ValidFits();
      var p := Choose(o);
      if p.found {
        var finished;
        finished, cost := ReachTarget(o, p.square.value);
        report := Some(finished);
      } else if isDead {
        report, cost := None, NO_ROUTE_COST;
      } else {
        DecideMovesToCandidate(Snapshot(), o);
        MoveOn(o, p.dir, p.square.value);
        report, cost := None, NO_ROUTE_COST;
      }
    }

    /**
     * go_next_square: a dead ant stays put and reports nothing; otherwise
     * the rules pick a candidate in the order of Decide. Reaching the target
     * reports the finished route with its time and turns the ant round; any
     * other move reports nothing; having no candidate kills the ant. Every
     * move lays pheromone on the square reached.
     */
    method GoNextSquare(o: Oracle) returns (report: Option<seq<Label>>, cost: real)
      requires Valid()
      modifies this, world
      ensures Valid()
      ensures Outcome(report, cost, state, isDead, world.squares) == Step(old(world.squares), routeTime, old(state), old(isDead), o)
      ensures world.foodPos == old(world.foodPos) && world.nestPos == old(world.nestPos)
    {
      if isDead {
        return None, NO_ROUTE_COST;
      }
      report, cost := Live(o);
    }
  }
}
