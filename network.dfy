/**
 * The static description of the transit network: the four lines, the
 * interchange stations and their penalty tables, the algorithm parameters,
 * the inertia search along a line and the travel time of a route.
 */
module Network {
  import opened Wrappers

  type Label = string

  /** Stations of each line, in line order. */
  const ROUTE_LINE_1: seq<Label> := ["b", "t", "n", "e", "v", "k", "u"]
  const ROUTE_LINE_2: seq<Label> := ["d", "i", "j", "k", "l", "m", "f", "n"]
  const ROUTE_LINE_4: seq<Label> := ["a", "c", "d", "e", "f", "g", "h"]
  const ROUTE_LINE_13: seq<Label> := ["d", "o", "p", "q", "r", "s", "j"]

  /** The lines in the order the inertia search tries them. */
  const ROUTE_LINES: seq<seq<Label>> := [ROUTE_LINE_1, ROUTE_LINE_2, ROUTE_LINE_4, ROUTE_LINE_13]

  /** Stations where a change of line costs an interchange penalty. */
  const INTERCHANGE_STATIONS: seq<Label> := ["d", "f", "j", "n", "e", "k"]

  /** Algorithm parameters. */
  const MAX_NC: nat := 100
  const ANTS_NUM: nat := 50
  const PHEROMONE_WEIGHT: real := 1.0
  const MISTAKE_RATE: real := 1.0 / 50.0
  const PERTURBATION: real := 1.0
  const RHO: real := 1.0 / 100.0
  const PHEROMONE: real := 100.0

  /**
   * Travel time in minutes between two adjacent stations, keyed by the two
   * labels written one after the other, grouped by the line the edge lies on.
   */
  const LINE_4_TIMES: map<string, real> := map[
    "ac" := 13.0, "ca" := 13.0, "cd" := 12.0, "dc" := 12.0, "de" := 10.0, "ed" := 10.0,
    "ef" := 2.0, "fe" := 2.0, "fg" := 6.0, "gf" := 6.0, "gh" := 5.0, "hg" := 5.0
  ]
  const LINE_2_TIMES: map<string, real> := map[
    "di" := 9.0, "id" := 9.0, "ij" := 4.0, "ji" := 4.0, "jk" := 7.0, "kj" := 7.0,
    "kl" := 2.0, "lk" := 2.0, "lm" := 6.0, "ml" := 6.0, "mf" := 4.0, "fm" := 4.0,
    "fn" := 4.0, "nf" := 4.0, "nd" := 7.0, "dn" := 7.0
  ]
  const LINE_13_TIMES: map<string, real> := map[
    "do" := 5.0, "od" := 5.0, "op" := 12.0, "po" := 12.0, "pq" := 7.0, "qp" := 7.0,
    "qr" := 6.0, "rq" := 6.0, "rs" := 13.0, "sr" := 13.0, "sj" := 6.0, "js" := 6.0
  ]
  const LINE_1_TIMES: map<string, real> := map[
    "bt" := 23.0, "tb" := 23.0, "tn" := 6.0, "nt" := 6.0, "ne" := 3.0, "en" := 3.0,
    "ev" := 6.0, "ve" := 6.0, "vk" := 5.0, "kv" := 5.0, "ku" := 13.0, "uk" := 13.0
  ]

  /** The whole edge-time table. */
  const STATIONS_ROUTE_TIME: map<string, real> := LINE_4_TIMES + LINE_2_TIMES + LINE_13_TIMES + LINE_1_TIMES

  /** Every edge takes a positive time. */
  predicate PositiveTimes(edges: map<string, real>) {
    forall k :: k in edges ==> edges[k] > 0.0
  }

  /** Joining two tables of positive times gives a table of positive times. */
  lemma UnionPositive(a: map<string, real>, b: map<string, real>)
    requires PositiveTimes(a) && PositiveTimes(b)
    ensures PositiveTimes(a + b)
  {
  }

  lemma LineFourTimesPositive()
    ensures PositiveTimes(LINE_4_TIMES)
  {
  }

  lemma LineTwoTimesPositive()
    ensures PositiveTimes(LINE_2_TIMES)
  {
  }

  lemma LineThirteenTimesPositive()
    ensures PositiveTimes(LINE_13_TIMES)
  {
  }

  lemma LineOneTimesPositive()
    ensures PositiveTimes(LINE_1_TIMES)
  {
  }

  /** The program's own edge-time table meets the premise of every proof about an ant: all its times are positive. */
  lemma SourceTimesPositive()
    ensures PositiveTimes(STATIONS_ROUTE_TIME)
  {
    LineFourTimesPositive();
    LineTwoTimesPositive();
    LineThirteenTimesPositive();
    LineOneTimesPositive();
    UnionPositive(LINE_4_TIMES, LINE_2_TIMES);
    UnionPositive(LINE_4_TIMES + LINE_2_TIMES, LINE_13_TIMES);
    UnionPositive(LINE_4_TIMES + LINE_2_TIMES + LINE_13_TIMES, LINE_1_TIMES);
  }

  /** Every consecutive pair of labels of the route is an edge of the table. */
  predicate Hops(edges: map<string, real>, route: seq<Label>) {
    forall i :: 0 <= i < |route| - 1 ==> route[i] + route[i + 1] in edges
  }

  // ---------------------------------------------------------------------
  // Interchange penalties
  // ---------------------------------------------------------------------

  datatype Line = Line1 | Line2 | Line4 | Line13

  function Stations(line: Line): seq<Label> {
    match line
    case Line1 => ROUTE_LINE_1
    case Line2 => ROUTE_LINE_2
    case Line4 => ROUTE_LINE_4
    case Line13 => ROUTE_LINE_13
  }

  /** One entry of an interchange table: arriving on line `from`, leaving on line `to`, costs `penalty` minutes. */
  datatype Transfer = Transfer(from: Line, to: Line, penalty: real)

  /** The interchange tables of the six interchange stations, in the order their branches are tried. */
  function PenaltyTable(station: Label): seq<Transfer> {
    if station == "d" then
      [Transfer(Line4, Line13, 14.5), Transfer(Line4, Line2, 7.5), Transfer(Line13, Line2, 15.0),
       Transfer(Line13, Line4, 12.75), Transfer(Line2, Line4, 8.25), Transfer(Line2, Line13, 14.25)]
    else if station == "f" then [Transfer(Line4, Line2, 7.5), Transfer(Line2, Line4, 9.75)]
    else if station == "j" then [Transfer(Line13, Line2, 9.0), Transfer(Line2, Line13, 11.25)]
    else if station == "n" then [Transfer(Line1, Line2, 7.5), Transfer(Line2, Line1, 7.5)]
    else if station == "e" then [Transfer(Line1, Line4, 7.5), Transfer(Line4, Line1, 6.0)]
    else if station == "k" then [Transfer(Line1, Line2, 9.0), Transfer(Line2, Line1, 7.5)]
    else []
  }

  /** The penalty of the first table entry whose lines hold the previous and the next station, or 0 if none does. */
  function FirstMatch(table: seq<Transfer>, prev: Label, next: Label): real {
    if table == [] then 0.0
    else if prev in Stations(table[0].from) && next in Stations(table[0].to) then table[0].penalty
    else FirstMatch(table[1..], prev, next)
  }

  /**
   * The interchange penalty for passing through `cur` from `prev` to `next`:
   * the first branch, for that station, whose previous line holds `prev` and
   * whose next line holds `next`; 0 when no branch matches.
   */
  function ChangeRouteCost(prev: Label, cur: Label, next: Label): (cost: real)
    ensures cost >= 0.0
    ensures cur !in INTERCHANGE_STATIONS ==> cost == 0.0
  {
    if cur == "d" then
      if prev in ROUTE_LINE_4 && next in ROUTE_LINE_13 then 14.5
      else if prev in ROUTE_LINE_4 && next in ROUTE_LINE_2 then 7.5
      else if prev in ROUTE_LINE_13 && next in ROUTE_LINE_2 then 15.0
      else if prev in ROUTE_LINE_13 && next in ROUTE_LINE_4 then 12.75
      else if prev in ROUTE_LINE_2 && next in ROUTE_LINE_4 then 8.25
      else if prev in ROUTE_LINE_2 && next in ROUTE_LINE_13 then 14.25
      else 0.0
    else if cur == "f" then
      if prev in ROUTE_LINE_4 && next in ROUTE_LINE_2 then 7.5
      else if prev in ROUTE_LINE_2 && next in ROUTE_LINE_4 then 9.75
      else 0.0
    else if cur == "j" then
      if prev in ROUTE_LINE_13 && next in ROUTE_LINE_2 then 9.0
      else if prev in ROUTE_LINE_2 && next in ROUTE_LINE_13 then 11.25
      else 0.0
    else if cur == "n" then
      if prev in ROUTE_LINE_1 && next in ROUTE_LINE_2 then 7.5
      else if prev in ROUTE_LINE_2 && next in ROUTE_LINE_1 then 7.5
      else 0.0
    else if cur == "e" then
      if prev in ROUTE_LINE_1 && next in ROUTE_LINE_4 then 7.5
      else if prev in ROUTE_LINE_4 && next in ROUTE_LINE_1 then 6.0
      else 0.0
    else if cur == "k" then
      if prev in ROUTE_LINE_1 && next in ROUTE_LINE_2 then 9.0
      else if prev in ROUTE_LINE_2 && next in ROUTE_LINE_1 then 7.5
      else 0.0
    else 0.0
  }

  /** One step of the first-match scan, from position i of the table. */
  lemma FirstMatchStep(table: seq<Transfer>, i: nat, prev: Label, next: Label)
    requires i < |table|
    ensures FirstMatch(table[i..], prev, next)
         == if prev in Stations(table[i].from) && next in Stations(table[i].to) then table[i].penalty
            else FirstMatch(table[i + 1..], prev, next)
  {
    assert table[i..][1..] == table[i + 1..];
  }

  /** Whether an entry applies to a move from `prev` to `next`. */
  predicate Applies(t: Transfer, prev: Label, next: Label) {
    prev in Stations(t.from) && next in Stations(t.to)
  }

  /** The first-match scan of a two-entry table. */
  lemma FirstMatchOfTwo(t: seq<Transfer>, prev: Label, next: Label)
    requires |t| == 2
    ensures FirstMatch(t, prev, next)
         == if Applies(t[0], prev, next) then t[0].penalty
            else if Applies(t[1], prev, next) then t[1].penalty
            else 0.0
  {
    assert t[0..] == t && t[2..] == [];
    FirstMatchStep(t, 0, prev, next);
    FirstMatchStep(t, 1, prev, next);
  }

  /** The first-match scan of the six-entry table of station d. */
  lemma FirstMatchAtD(prev: Label, next: Label)
    ensures ChangeRouteCost(prev, "d", next) == FirstMatch(PenaltyTable("d"), prev, next)
  {
    var t := PenaltyTable("d");
    assert t[0..] == t && t[6..] == [];
    FirstMatchStep(t, 0, prev, next); FirstMatchStep(t, 1, prev, next); FirstMatchStep(t, 2, prev, next);
    FirstMatchStep(t, 3, prev, next); FirstMatchStep(t, 4, prev, next); FirstMatchStep(t, 5, prev, next);
  }

  /** The branch chain of ChangeRouteCost is exactly a first-match lookup in the station's interchange table. */
  lemma ChangeRouteCostIsTableLookup(prev: Label, cur: Label, next: Label)
    ensures ChangeRouteCost(prev, cur, next) == FirstMatch(PenaltyTable(cur), prev, next)
  {
    if cur == "d" {
      FirstMatchAtD(prev, next);
    } else if cur in ["f", "j", "n", "e", "k"] {
      FirstMatchOfTwo(PenaltyTable(cur), prev, next);
    }
  }

  // ---------------------------------------------------------------------
  // Inertia: the station that continues the previous move along its line
  // ---------------------------------------------------------------------

  /** First index of `x` in `s`. */
  function IndexOf(s: seq<Label>, x: Label): (i: nat)
    requires x in s
    ensures i < |s| && s[i] == x && x !in s[..i]
  {
    if s[0] == x then 0 else 1 + IndexOf(s[1..], x)
  }

  /** Index of the first line, in ROUTE_LINES order from `from`, that holds both stations; -1 if none does. */
  function CommonLineFrom(prev: Label, cur: Label, from: nat): (i: int)
    requires from <= |ROUTE_LINES|
    ensures i == -1 || (from <= i < |ROUTE_LINES| && prev in ROUTE_LINES[i] && cur in ROUTE_LINES[i])
    ensures forall j :: from <= j < |ROUTE_LINES| && (i == -1 || j < i) ==> !(prev in ROUTE_LINES[j] && cur in ROUTE_LINES[j])
    decreases |ROUTE_LINES| - from
  {
    if from == |ROUTE_LINES| then -1
    else if prev in ROUTE_LINES[from] && cur in ROUTE_LINES[from] then from
    else CommonLineFrom(prev, cur, from + 1)
  }

  /** The following and the preceding index on a line that is read as a loop of n stations. */
  function Succ(n: nat, i: nat): nat requires i < n { if i == n - 1 then 0 else i + 1 }
  function Pred(n: nat, i: nat): nat requires i < n { if i == 0 then n - 1 else i - 1 }

  /**
   * The index of the station after `ic` when the ant came from `ip` on a
   * line of n stations; -1 when the two indices coincide (then no branch
   * of the source applies).
   */
  function NextStationIndex(n: nat, ip: nat, ic: nat): (next: int)
    requires ip < n && ic < n
    ensures ip == ic ==> next == -1
    ensures ip != ic ==> 0 <= next < n
  {
    if ip == ic then -1
    else if ip == 0 && ic == n - 1 then ic - 1
    else if ic == 0 && ip == n - 1 then ic + 1
    else if ip > ic then (if ic == 0 then n - 1 else ic - 1)
    else (if ic == n - 1 then 0 else ic + 1)
  }

  /**
   * Inertia keeps the direction of travel, and every line is treated as a
   * loop: arriving forwards (ic follows ip) continues forwards, arriving
   * backwards continues backwards, wrapping past either end of the line.
   */
  lemma NextStationContinues(n: nat, ip: nat, ic: nat)
    requires 2 <= n && ip < n && ic < n
    ensures ic == Succ(n, ip) ==> NextStationIndex(n, ip, ic) == Succ(n, ic)
    ensures ic == Pred(n, ip) ==> NextStationIndex(n, ip, ic) == Pred(n, ic)
  {
  }

  /** The label of the station that continues the move prev -> cur along their first common line, if any. */
  function InertiaTarget(prev: Label, cur: Label): (t: Option<Label>)
    ensures t.Some? ==> exists i :: 0 <= i < |ROUTE_LINES| && t.value in ROUTE_LINES[i] && cur in ROUTE_LINES[i]
  {
    var i := CommonLineFrom(prev, cur, 0);
    if i < 0 then None
    else
      var line := ROUTE_LINES[i];
      var next := NextStationIndex(|line|, IndexOf(line, prev), IndexOf(line, cur));
      if next < 0 then None else Some(line[next])
  }

  /** On line 2 (the loop d … n) the move n -> d continues to i, and the move d -> n continues to f. */
  lemma InertiaAroundLineTwo()
    ensures InertiaTarget("n", "d") == Some("i")
    ensures InertiaTarget("d", "n") == Some("f")
  {
    assert "n" !in ROUTE_LINE_1 || "d" !in ROUTE_LINE_1;
    assert IndexOf(ROUTE_LINE_2, "n") == 7 && IndexOf(ROUTE_LINE_2, "d") == 0;
  }

  /** Position of the first label equal to `t`, or -1. */
  function FirstIndexOf(labels: seq<Label>, t: Label): (k: int)
    ensures -1 <= k < |labels|
    ensures k >= 0 ==> labels[k] == t && t !in labels[..k]
    ensures k == -1 ==> t !in labels
  {
    if labels == [] then -1
    else if labels[0] == t then 0
    else
      var k := FirstIndexOf(labels[1..], t);
      if k == -1 then -1 else k + 1
  }

  /**
   * search_route_line: the index of the first candidate whose label is the
   * inertia target of prev -> cur, or -1 when there is no target or no
   * candidate carries it.
   */
  function SearchRouteLine(prev: Label, cur: Label, candidates: seq<Label>): (k: int)
    ensures -1 <= k < |candidates|
    ensures k >= 0 <==> (InertiaTarget(prev, cur).Some? && InertiaTarget(prev, cur).value in candidates)
    ensures k >= 0 ==> Some(candidates[k]) == InertiaTarget(prev, cur) && candidates[k] !in candidates[..k]
  {
    match InertiaTarget(prev, cur)
    case None => -1
    case Some(t) => FirstIndexOf(candidates, t)
  }

  /** Every key of the table is two different labels that both lie on `line`. */
  predicate EdgesOnLine(edges: map<string, real>, line: seq<Label>) {
    forall k :: k in edges ==> |k| == 2 && k[0] != k[1] && [k[0]] in line && [k[1]] in line
  }

  lemma LineOneEdgesOnLine() ensures EdgesOnLine(LINE_1_TIMES, ROUTE_LINES[0]) { }
  lemma LineTwoEdgesOnLine() ensures EdgesOnLine(LINE_2_TIMES, ROUTE_LINES[1]) { }
  lemma LineFourEdgesOnLine() ensures EdgesOnLine(LINE_4_TIMES, ROUTE_LINES[2]) { }
  lemma LineThirteenEdgesOnLine() ensures EdgesOnLine(LINE_13_TIMES, ROUTE_LINES[3]) { }

  /** Every edge of the time table joins two different stations of a common line. */
  lemma TableEdgeOnLine(k: string)
    requires k in STATIONS_ROUTE_TIME
    ensures |k| == 2 && k[0] != k[1]
    ensures exists i :: 0 <= i < |ROUTE_LINES| && [k[0]] in ROUTE_LINES[i] && [k[1]] in ROUTE_LINES[i]
  {
    if k in LINE_1_TIMES {
      LineOneEdgesOnLine();
      assert [k[0]] in ROUTE_LINES[0] && [k[1]] in ROUTE_LINES[0];
    } else if k in LINE_13_TIMES {
      LineThirteenEdgesOnLine();
      assert [k[0]] in ROUTE_LINES[3] && [k[1]] in ROUTE_LINES[3];
    } else if k in LINE_2_TIMES {
      LineTwoEdgesOnLine();
      assert [k[0]] in ROUTE_LINES[1] && [k[1]] in ROUTE_LINES[1];
    } else {
      assert k in LINE_4_TIMES;
      LineFourEdgesOnLine();
      assert [k[0]] in ROUTE_LINES[2] && [k[1]] in ROUTE_LINES[2];
    }
  }

  /** Two different stations of a common line always have an inertia target. */
  lemma InertiaOnCommonLine(prev: Label, cur: Label, i: nat)
    requires i < |ROUTE_LINES| && prev in ROUTE_LINES[i] && cur in ROUTE_LINES[i] && prev != cur
    ensures InertiaTarget(prev, cur).Some?
  {
  }

  /**
   * After a move along any edge of the time table, search_route_line finds
   * a common line and a next station: the inertia target exists.
   */
  lemma InertiaAlongEdge(k: string)
    requires k in STATIONS_ROUTE_TIME
    ensures |k| == 2 && InertiaTarget(k[..1], k[1..]).Some?
  {
    TableEdgeOnLine(k);
    var i :| 0 <= i < |ROUTE_LINES| && [k[0]] in ROUTE_LINES[i] && [k[1]] in ROUTE_LINES[i];
    assert k[..1] == [k[0]] && k[1..] == [k[1]];
    InertiaOnCommonLine(k[..1], k[1..], i);
  }

  // ---------------------------------------------------------------------
  // Route cost
  // ---------------------------------------------------------------------

  /**
   * The time of a route: the edge time of every hop, plus the interchange
   * penalty at every station that has a predecessor and a successor on it.
   */
  function RouteCost(edges: map<string, real>, route: seq<Label>): (cost: real)
    requires |route| >= 1 && Hops(edges, route)
    ensures PositiveTimes(edges) ==> cost >= 0.0
    ensures PositiveTimes(edges) && |route| >= 2 ==> cost > 0.0
  {
    var n := |route|;
    if n == 1 then 0.0
    else
      RouteCost(edges, route[..n - 1]) + edges[route[n - 2] + route[n - 1]]
      + (if n >= 3 then ChangeRouteCost(route[n - 3], route[n - 2], route[n - 1]) else 0.0)
  }

  /**
   * Extending a route by one station adds the edge time of the new hop and,
   * when the old last station had a predecessor, its interchange penalty.
   */
  lemma RouteCostSnoc(edges: map<string, real>, route: seq<Label>, next: Label)
    requires |route| >= 1 && Hops(edges, route) && route[|route| - 1] + next in edges
    ensures Hops(edges, route + [next])
    ensures RouteCost(edges, route + [next])
         == RouteCost(edges, route) + edges[route[|route| - 1] + next]
            + (if |route| >= 2 then ChangeRouteCost(route[|route| - 2], route[|route| - 1], next) else 0.0)
  {
    var r := route + [next];
    assert forall i :: 0 <= i < |route| ==> r[i] == route[i];
    assert r[..|route|] == route;
  }

  /** Sum of the edge times of the hops of a route. */
  function EdgeTimeSum(edges: map<string, real>, route: seq<Label>): real
    requires Hops(edges, route)
  {
    if |route| <= 1 then 0.0
    else EdgeTimeSum(edges, route[..|route| - 1]) + edges[route[|route| - 2] + route[|route| - 1]]
  }

  /** A route that changes at no interchange station costs exactly its edge times. */
  lemma {:induction false} RouteCostWithoutInterchanges(edges: map<string, real>, route: seq<Label>)
    requires |route| >= 1 && Hops(edges, route)
    requires forall i :: 0 < i < |route| - 1 ==> route[i] !in INTERCHANGE_STATIONS
    ensures RouteCost(edges, route) == EdgeTimeSum(edges, route)
  {
    var n := |route|;
    if n > 1 {
      var r := route[..n - 1];
      assert forall i :: 0 < i < |r| - 1 ==> r[i] == route[i];
      RouteCostWithoutInterchanges(edges, r);
    }
  }
}
