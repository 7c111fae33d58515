/**
 * The K-path ledger of one OD pair. Completed routes reported by the ants
 * are admitted in report order; the ledger keeps the shortest time seen, the
 * route that set it, and the admitted routes sorted by time. At the end the
 * list is cut to the routes within WINDOW minutes of the shortest.
 */
module KPaths {
  import opened Network

  /** An admitted route and its time. */
  datatype KPath = KPath(route: seq<Label>, cost: real)

  /** What one step of an ant hands back: no completed route (the pair (None, 10000)), or a completed leg with its time. */
  datatype Report = NoRoute | Found(route: seq<Label>, cost: real)

  /** shortest_len, best_route and k_paths. */
  datatype Ledger = Ledger(shortest: real, best: seq<Label>, paths: seq<KPath>)

  const INITIAL_SHORTEST: real := 10000.0
  const WINDOW: real := 10.0
  const MAX_TRANSFERS: nat := 3

  const EMPTY: Ledger := Ledger(INITIAL_SHORTEST, [], [])

  /** A completed route always holds at least its first station. */
  predicate WellFormed(rep: Report) {
    rep.Found? ==> |rep.route| > 0
  }

  predicate AllWellFormed(reports: seq<Report>) {
    forall i :: 0 <= i < |reports| ==> WellFormed(reports[i])
  }

  /** The report is a route that leaves from the origin station. */
  predicate FromOrigin(origin: Label, rep: Report) {
    rep.Found? && |rep.route| > 0 && rep.route[0] == origin
  }

  predicate SortedByCost(paths: seq<KPath>) {
    forall i, j :: 0 <= i < j < |paths| ==> paths[i].cost <= paths[j].cost
  }

  predicate DistinctRoutes(paths: seq<KPath>) {
    forall i, j :: 0 <= i < j < |paths| ==> paths[i].route != paths[j].route
  }

  predicate StartAt(origin: Label, paths: seq<KPath>) {
    forall i :: 0 <= i < |paths| ==> |paths[i].route| > 0 && paths[i].route[0] == origin
  }

  /** No two entries both pass interchange stations more than MAX_TRANSFERS times. */
  predicate AtMostOneOverCap(paths: seq<KPath>) {
    forall i, j :: 0 <= i < j < |paths| ==>
      TransferCount(paths[i].route) <= MAX_TRANSFERS || TransferCount(paths[j].route) <= MAX_TRANSFERS
  }

  /** The routes of the entries, in list order. */
  function Routes(paths: seq<KPath>): (routes: seq<seq<Label>>)
    ensures |routes| == |paths|
    ensures forall i :: 0 <= i < |paths| ==> routes[i] == paths[i].route
  {
    seq(|paths|, i requires 0 <= i < |paths| => paths[i].route)
  }

  // ---------------------------------------------------------------------
  // Transfer count
  // ---------------------------------------------------------------------

  /** Number of positions of the route that hold an interchange station (repeats included). */
  function TransferCount(route: seq<Label>): (t: nat)
    ensures t <= |route|
    ensures t == 0 <==> forall i :: 0 <= i < |route| ==> route[i] !in INTERCHANGE_STATIONS
  {
    if route == [] then 0
    else
      var front := route[..|route| - 1];
      assert forall i :: 0 <= i < |front| ==> front[i] == route[i];
      TransferCount(front) + (if route[|route| - 1] in INTERCHANGE_STATIONS then 1 else 0)
  }

  /** Number of positions of the route that hold station s. */
  function Occurrences(route: seq<Label>, s: Label): nat {
    if route == [] then 0
    else Occurrences(route[..|route| - 1], s) + (if route[|route| - 1] == s then 1 else 0)
  }

  /** Sum, over the given stations, of their occurrences in the route. */
  function OccurrencesOf(route: seq<Label>, stations: seq<Label>): nat {
    if stations == [] then 0
    else OccurrencesOf(route, stations[..|stations| - 1]) + Occurrences(route, stations[|stations| - 1])
  }

  predicate NoDuplicates(s: seq<Label>) {
    forall i, j :: 0 <= i < j < |s| ==> s[i] != s[j]
  }

  lemma {:induction false} OccurrencesOfEmpty(stations: seq<Label>)
    ensures OccurrencesOf([], stations) == 0
  {
    if stations != [] {
      OccurrencesOfEmpty(stations[..|stations| - 1]);
    }
  }

  /** Appending one label to the route adds one to the sum exactly when the label is one of the (distinct) stations. */
  lemma {:induction false} OccurrencesOfSnoc(route: seq<Label>, x: Label, stations: seq<Label>)
    requires NoDuplicates(stations)
    ensures OccurrencesOf(route + [x], stations) == OccurrencesOf(route, stations) + (if x in stations then 1 else 0)
  {
    if stations != [] {
      var m := |stations|;
      var init := stations[..m - 1];
      assert NoDuplicates(init);
      OccurrencesOfSnoc(route, x, init);
      assert (route + [x])[..|route|] == route;
      assert stations == init + [stations[m - 1]];
      assert x in stations <==> x in init || x == stations[m - 1];
      assert x in init ==> x != stations[m - 1];
    }
  }

  /** Counting per interchange station, as the transfer-cap loop does, gives the transfer count. */
  lemma {:induction false} OccurrencesOfIsTransferCount(route: seq<Label>)
    ensures OccurrencesOf(route, INTERCHANGE_STATIONS) == TransferCount(route)
  {
    if route == [] {
      OccurrencesOfEmpty(INTERCHANGE_STATIONS);
    } else {
      var n := |route|;
      OccurrencesOfIsTransferCount(route[..n - 1]);
      assert route == route[..n - 1] + [route[n - 1]];
      OccurrencesOfSnoc(route[..n - 1], route[n - 1], INTERCHANGE_STATIONS);
    }
  }

  /** The transfer-cap count: for each interchange station, each label of the route equal to it counts once. */
  method CountTransfers(route: seq<Label>) returns (total: nat)
    ensures total == TransferCount(route)
  {
    total := 0;
    var i := 0;
    while i < |INTERCHANGE_STATIONS|
      invariant 0 <= i <= |INTERCHANGE_STATIONS|
      invariant total == OccurrencesOf(route, INTERCHANGE_STATIONS[..i])
    {
      var s := INTERCHANGE_STATIONS[i];
      var j := 0;
      while j < |route|
        invariant 0 <= j <= |route|
        invariant total == OccurrencesOf(route, INTERCHANGE_STATIONS[..i]) + Occurrences(route[..j], s)
      {
        if s == route[j] {
          total := total + 1;
        }
        assert route[..j + 1][..j] == route[..j];
        j := j + 1;
      }
      assert route[..j] == route;
      assert INTERCHANGE_STATIONS[..i + 1][..i] == INTERCHANGE_STATIONS[..i];
      i := i + 1;
    }
    assert INTERCHANGE_STATIONS[..i] == INTERCHANGE_STATIONS;
    OccurrencesOfIsTransferCount(route);
  }

  // ---------------------------------------------------------------------
  // Insertion by cost
  // ---------------------------------------------------------------------

  /** Index of the first entry costing at least `cost`, or the length of the list when there is none. */
  function InsertionPoint(paths: seq<KPath>, cost: real): (p: nat)
    ensures p <= |paths|
    ensures forall i :: 0 <= i < p ==> paths[i].cost < cost
    ensures p < |paths| ==> paths[p].cost >= cost
  {
    if paths == [] then 0
    else if paths[0].cost >= cost then 0
    else 1 + InsertionPoint(paths[1..], cost)
  }

  /**
   * The list with `e` inserted before the first entry costing at least as
   * much (so ahead of entries of equal cost), or appended when there is none.
   */
  function InsertByCost(paths: seq<KPath>, e: KPath): (r: seq<KPath>)
    ensures r == paths[..InsertionPoint(paths, e.cost)] + [e] + paths[InsertionPoint(paths, e.cost)..]
  {
    if paths == [] then [e]
    else if paths[0].cost >= e.cost then [e] + paths
    else
      var rest := InsertByCost(paths[1..], e);
      assert paths == [paths[0]] + paths[1..];
      [paths[0]] + rest
  }

  /** Entry i of the list after insertion: the old entries before the insertion point, then `e`, then the rest shifted by one. */
  lemma InsertByCostAt(paths: seq<KPath>, e: KPath)
    ensures |InsertByCost(paths, e)| == |paths| + 1
    ensures forall i :: 0 <= i < |paths| + 1 ==>
      InsertByCost(paths, e)[i] ==
        (if i < InsertionPoint(paths, e.cost) then paths[i]
         else if i == InsertionPoint(paths, e.cost) then e
         else paths[i - 1])
  {
  }

  /** Insertion loses no entry and adds only the new one. */
  lemma InsertByCostMultiset(paths: seq<KPath>, e: KPath)
    ensures multiset(InsertByCost(paths, e)) == multiset(paths) + multiset{e}
  {
    var p := InsertionPoint(paths, e.cost);
    var front, back := paths[..p], paths[p..];
    assert paths == front + back;
    assert InsertByCost(paths, e) == front + [e] + back;
    assert multiset(front + [e] + back) == multiset(front) + multiset{e} + multiset(back);
  }

  /** A sorted list, an entry costing at least as much as all before it and no more than all after it, a sorted list. */
  lemma SortedSplice(a: seq<KPath>, e: KPath, b: seq<KPath>)
    requires SortedByCost(a) && SortedByCost(b)
    requires forall i :: 0 <= i < |a| ==> a[i].cost <= e.cost
    requires forall j :: 0 <= j < |b| ==> e.cost <= b[j].cost
    ensures SortedByCost(a + [e] + b)
  {
    var r := a + [e] + b;
    forall i, j | 0 <= i < j < |r| ensures r[i].cost <= r[j].cost {
      if j < |a| {
        assert r[i] == a[i] && r[j] == a[j];
      } else if j == |a| {
        assert r[i] == a[i];
      } else if i < |a| {
        assert r[i] == a[i] && r[j] == b[j - |a| - 1];
      } else if i == |a| {
        assert r[j] == b[j - |a| - 1];
      } else {
        assert r[i] == b[i - |a| - 1] && r[j] == b[j - |a| - 1];
      }
    }
  }

  /** Insertion by cost keeps a sorted list sorted. */
  lemma InsertByCostSorted(paths: seq<KPath>, e: KPath)
    requires SortedByCost(paths)
    ensures SortedByCost(InsertByCost(paths, e))
  {
    var p := InsertionPoint(paths, e.cost);
    var a := paths[..p];
    var b := paths[p..];
    forall j | 0 <= j < |b| ensures e.cost <= b[j].cost {
      assert b[j] == paths[p + j] && paths[p].cost <= paths[p + j].cost;
    }
    SortedSplice(a, e, b);
  }

  // ---------------------------------------------------------------------
  // Admission of one report
  // ---------------------------------------------------------------------

  /**
   * Admission of one report, with the checks in their order: no route, or a
   * route not leaving the origin, is dropped; a route more than WINDOW above
   * the current shortest is dropped; otherwise the shortest time and the best
   * route are updated; the route then enters an empty list unconditionally,
   * and a non-empty one by cost unless it is already there or passes
   * interchange stations more than MAX_TRANSFERS times.
   */
  function Admit(origin: Label, l: Ledger, rep: Report): (r: Ledger)
    requires WellFormed(rep)
    ensures !FromOrigin(origin, rep) ==> r == l
    ensures FromOrigin(origin, rep) && rep.cost - l.shortest > WINDOW ==> r == l
    ensures FromOrigin(origin, rep) ==>
      r.shortest == (if rep.cost < l.shortest then rep.cost else l.shortest) &&
      r.best == (if rep.cost < l.shortest then rep.route else l.best)
    ensures FromOrigin(origin, rep) && rep.cost - l.shortest <= WINDOW && l.paths == [] ==>
      r.paths == [KPath(rep.route, rep.cost)]
    ensures l.paths != [] && rep.Found? && rep.route in Routes(l.paths) ==> r.paths == l.paths
    ensures l.paths != [] && rep.Found? && TransferCount(rep.route) > MAX_TRANSFERS ==> r.paths == l.paths
    ensures (FromOrigin(origin, rep) && rep.cost - l.shortest <= WINDOW && l.paths != [] &&
             rep.route !in Routes(l.paths) && TransferCount(rep.route) <= MAX_TRANSFERS) ==>
      r.paths == InsertByCost(l.paths, KPath(rep.route, rep.cost))
    ensures SortedByCost(l.paths) ==> SortedByCost(r.paths)
    ensures DistinctRoutes(l.paths) ==> DistinctRoutes(r.paths)
    ensures StartAt(origin, l.paths) ==> StartAt(origin, r.paths)
    ensures AtMostOneOverCap(l.paths) ==> AtMostOneOverCap(r.paths)
    ensures forall e :: e in r.paths ==> e in l.paths || (rep.Found? && e == KPath(rep.route, rep.cost))
  {
    if rep.NoRoute? || rep.route[0] != origin then l
    else if rep.cost - l.shortest > WINDOW then l
    else
      var l1 := if rep.cost < l.shortest then l.(shortest := rep.cost, best := rep.route) else l;
      var e := KPath(rep.route, rep.cost);
      if |l1.paths| == 0 then l1.(paths := [e])
      else if rep.route in Routes(l1.paths) then l1
      else if TransferCount(rep.route) > MAX_TRANSFERS then l1
      else
        var r := l1.(paths := InsertByCost(l1.paths, e));
        InsertedEntryKeepsInvariants(origin, l1.paths, e);
        r
  }

  /** Inserting a route that is not yet listed keeps the routes distinct. */
  lemma InsertNewRouteKeepsDistinct(paths: seq<KPath>, e: KPath)
    requires e.route !in Routes(paths) && DistinctRoutes(paths)
    ensures DistinctRoutes(InsertByCost(paths, e))
  {
    var p := InsertionPoint(paths, e.cost);
    var r := InsertByCost(paths, e);
    InsertByCostAt(paths, e);
    forall i, j | 0 <= i < j < |r| ensures r[i].route != r[j].route {
      if i == p {
        assert Routes(paths)[j - 1] == r[j].route;
      } else if j == p {
        assert Routes(paths)[i] == r[i].route;
      } else {
        assert r[i] == paths[if i < p then i else i - 1];
        assert r[j] == paths[if j < p then j else j - 1];
      }
    }
  }

  /** Inserting a route within the transfer cap keeps at most one entry over it. */
  lemma InsertWithinCapKeepsAtMostOne(paths: seq<KPath>, e: KPath)
    requires TransferCount(e.route) <= MAX_TRANSFERS && AtMostOneOverCap(paths)
    ensures AtMostOneOverCap(InsertByCost(paths, e))
  {
    var p := InsertionPoint(paths, e.cost);
    var r := InsertByCost(paths, e);
    InsertByCostAt(paths, e);
    forall i, j | 0 <= i < j < |r|
      ensures TransferCount(r[i].route) <= MAX_TRANSFERS || TransferCount(r[j].route) <= MAX_TRANSFERS
    {
      if i == p || j == p {
        assert r[p] == e;
      } else {
        var a := if i < p then i else i - 1;
        var b := if j < p then j else j - 1;
        assert r[i] == paths[a] && r[j] == paths[b] && a < b;
      }
    }
  }

  /** Inserting an origin route that is new and within the transfer cap keeps the ledger's list invariants. */
  lemma InsertedEntryKeepsInvariants(origin: Label, paths: seq<KPath>, e: KPath)
    requires |e.route| > 0 && e.route[0] == origin
    requires e.route !in Routes(paths) && TransferCount(e.route) <= MAX_TRANSFERS
    ensures SortedByCost(paths) ==> SortedByCost(InsertByCost(paths, e))
    ensures DistinctRoutes(paths) ==> DistinctRoutes(InsertByCost(paths, e))
    ensures StartAt(origin, paths) ==> StartAt(origin, InsertByCost(paths, e))
    ensures AtMostOneOverCap(paths) ==> AtMostOneOverCap(InsertByCost(paths, e))
    ensures forall x :: x in InsertByCost(paths, e) ==> x in paths || x == e
  {
    if SortedByCost(paths) {
      InsertByCostSorted(paths, e);
    }
    if DistinctRoutes(paths) {
      InsertNewRouteKeepsDistinct(paths, e);
    }
    if AtMostOneOverCap(paths) {
      InsertWithinCapKeepsAtMostOne(paths, e);
    }
    InsertedEntryMembers(origin, paths, e);
  }

  /** After an insertion every entry is an old one or the new one, so all still leave the origin. */
  lemma InsertedEntryMembers(origin: Label, paths: seq<KPath>, e: KPath)
    requires |e.route| > 0 && e.route[0] == origin
    ensures forall x :: x in InsertByCost(paths, e) ==> x in paths || x == e
    ensures StartAt(origin, paths) ==> StartAt(origin, InsertByCost(paths, e))
  {
    var r := InsertByCost(paths, e);
    InsertByCostMultiset(paths, e);
    forall x | x in r ensures x in paths || x == e {
      assert x in multiset(r);
    }
    if StartAt(origin, paths) {
      forall i | 0 <= i < |r| ensures |r[i].route| > 0 && r[i].route[0] == origin {
        assert r[i] in r;
      }
    }
  }


  // ---------------------------------------------------------------------
  // The ledger over a stream of reports
  // ---------------------------------------------------------------------

  /** The ledger after admitting the reports in order, starting from the empty ledger. */
  function Collect(origin: Label, reports: seq<Report>): (l: Ledger)
    requires AllWellFormed(reports)
    ensures SortedByCost(l.paths) && DistinctRoutes(l.paths)
    ensures StartAt(origin, l.paths) && AtMostOneOverCap(l.paths)
  {
    if reports == [] then EMPTY
    else Admit(origin, Collect(origin, reports[..|reports| - 1]), reports[|reports| - 1])
  }

  /** Report i set the final shortest time: it leaves the origin, costs m, and no earlier origin route cost as little. */
  predicate SetsShortest(origin: Label, reports: seq<Report>, i: int, m: real) {
    && 0 <= i < |reports|
    && FromOrigin(origin, reports[i])
    && reports[i].cost == m
    && forall j :: 0 <= j < i && FromOrigin(origin, reports[j]) ==> reports[j].cost > m
  }

  /**
   * The shortest time never exceeds its start value and is the minimum over
   * all routes that leave the origin (a cheaper route always passes the window
   * check); the best route is empty exactly when no route went below the
   * start value.
   */
  lemma {:induction false} CollectShortest(origin: Label, reports: seq<Report>)
    requires AllWellFormed(reports)
    ensures Collect(origin, reports).shortest <= INITIAL_SHORTEST
    ensures forall i :: 0 <= i < |reports| && FromOrigin(origin, reports[i]) ==>
      Collect(origin, reports).shortest <= reports[i].cost
    ensures Collect(origin, reports).best == [] <==> Collect(origin, reports).shortest == INITIAL_SHORTEST
  {
    if reports != [] {
      var n := |reports|;
      var prefix := reports[..n - 1];
      var before := Collect(origin, prefix);
      var rep := reports[n - 1];
      var after := Admit(origin, before, rep);
      assert Collect(origin, reports) == after;
      CollectShortest(origin, prefix);
      assert after.shortest <= before.shortest;
      forall i | 0 <= i < n && FromOrigin(origin, reports[i])
        ensures after.shortest <= reports[i].cost
      {
        if i < n - 1 {
          assert prefix[i] == reports[i];
        }
      }
    }
  }

  /** The best route is the route of the first report that reached the shortest time. */
  lemma {:induction false} CollectBestWitness(origin: Label, reports: seq<Report>)
    requires AllWellFormed(reports)
    ensures Collect(origin, reports).best != [] ==>
      exists i :: SetsShortest(origin, reports, i, Collect(origin, reports).shortest) &&
        reports[i].route == Collect(origin, reports).best
  {
    if reports != [] {
      var n := |reports|;
      var prefix := reports[..n - 1];
      var before := Collect(origin, prefix);
      var after := Collect(origin, reports);
      var rep := reports[n - 1];
      assert after == Admit(origin, before, rep);
      CollectBestWitness(origin, prefix);
      CollectShortest(origin, prefix);
      if FromOrigin(origin, rep) && rep.cost < before.shortest {
        forall j | 0 <= j < n - 1 && FromOrigin(origin, reports[j])
          ensures reports[j].cost > after.shortest
        {
          assert prefix[j] == reports[j];
        }
        assert SetsShortest(origin, reports, n - 1, after.shortest);
      } else if after.best != [] {
        assert after.shortest == before.shortest && after.best == before.best;
        var i :| SetsShortest(origin, prefix, i, before.shortest) && prefix[i].route == before.best;
        forall j | 0 <= j < i && FromOrigin(origin, reports[j])
          ensures reports[j].cost > after.shortest
        {
          assert prefix[j] == reports[j];
        }
        assert prefix[i] == reports[i];
        assert SetsShortest(origin, reports, i, after.shortest);
      }
    }
  }


  /** Every entry of the ledger is one of the reported routes, with its reported time. */
  lemma {:induction false} CollectEntriesWereReported(origin: Label, reports: seq<Report>)
    requires AllWellFormed(reports)
    ensures forall e :: e in Collect(origin, reports).paths ==> Found(e.route, e.cost) in reports
  {
    if reports != [] {
      var n := |reports|;
      var prefix := reports[..n - 1];
      CollectEntriesWereReported(origin, prefix);
      assert reports == prefix + [reports[n - 1]];
    }
  }

  /** Report i is the one that put the first entry into the still empty list. */
  predicate StartsList(origin: Label, reports: seq<Report>, i: int)
    requires AllWellFormed(reports)
  {
    && 0 <= i < |reports|
    && Collect(origin, reports[..i]).paths == []
    && Collect(origin, reports[..i + 1]).paths != []
  }

  /** A report that started the list of a prefix still started it once more reports follow. */
  lemma StartsListKept(origin: Label, reports: seq<Report>, i: int)
    requires AllWellFormed(reports) && |reports| >= 1
    requires StartsList(origin, reports[..|reports| - 1], i)
    ensures StartsList(origin, reports, i)
  {
    var prefix := reports[..|reports| - 1];
    assert reports[..i] == prefix[..i] && reports[..i + 1] == prefix[..i + 1];
  }

  /**
   * Only the entry put into the empty list skips the transfer cap: an entry
   * over the cap is the route and time of the report that started the list.
   */
  lemma {:induction false} OverCapIsFirstEntry(origin: Label, reports: seq<Report>)
    requires AllWellFormed(reports)
    ensures forall e :: e in Collect(origin, reports).paths && TransferCount(e.route) > MAX_TRANSFERS ==>
      exists i :: StartsList(origin, reports, i) && reports[i].Found? && e == KPath(reports[i].route, reports[i].cost)
  {
    if reports != [] {
      var n := |reports|;
      var prefix := reports[..n - 1];
      var rep := reports[n - 1];
      var before := Collect(origin, prefix);
      OverCapIsFirstEntry(origin, prefix);
      assert reports[..n] == reports;
      forall e | e in Collect(origin, reports).paths && TransferCount(e.route) > MAX_TRANSFERS
        ensures exists i :: StartsList(origin, reports, i) && reports[i].Found? && e == KPath(reports[i].route, reports[i].cost)
      {
        if e in before.paths {
          var i :| StartsList(origin, prefix, i) && prefix[i].Found? && e == KPath(prefix[i].route, prefix[i].cost);
          StartsListKept(origin, reports, i);
        } else {
          assert StartsList(origin, reports, n - 1);
        }
      }
    }
  }

  /** A single report of a route from the origin inside the window gives a ledger listing just that route. */
  lemma CollectSingle(origin: Label, r: seq<Label>, c: real)
    requires |r| > 0 && r[0] == origin && c <= INITIAL_SHORTEST + WINDOW
    ensures Collect(origin, [Found(r, c)]).paths == [KPath(r, c)]
    ensures Collect(origin, [Found(r, c)]).shortest <= INITIAL_SHORTEST
    ensures c <= Collect(origin, [Found(r, c)]).shortest + WINDOW
  {
    assert [Found(r, c)][..0] == [];
    assert Collect(origin, [Found(r, c)]) == Admit(origin, EMPTY, Found(r, c));
  }

  /**
   * Two different routes from the origin with the same time: the one reported
   * later is placed ahead of the earlier one.
   */
  lemma EqualCostsLaterFirst(origin: Label, r1: seq<Label>, r2: seq<Label>, c: real)
    requires |r1| > 0 && r1[0] == origin && |r2| > 0 && r2[0] == origin && r1 != r2
    requires c <= INITIAL_SHORTEST + WINDOW && TransferCount(r2) <= MAX_TRANSFERS
    ensures Collect(origin, [Found(r1, c), Found(r2, c)]).paths == [KPath(r2, c), KPath(r1, c)]
  {
    var reports := [Found(r1, c), Found(r2, c)];
    assert reports[..1] == [Found(r1, c)];
    CollectSingle(origin, r1, c);
    var l1 := Collect(origin, [Found(r1, c)]);
    assert Routes(l1.paths) == [r1];
    assert InsertByCost(l1.paths, KPath(r2, c)) == [KPath(r2, c), KPath(r1, c)];
    assert Collect(origin, reports) == Admit(origin, l1, Found(r2, c));
  }


  // ---------------------------------------------------------------------
  // The admission loop
  // ---------------------------------------------------------------------

  /**
   * The insertion scan: the first entry costing at least as much gets the new
   * entry in front of it; reaching the last entry appends it. An empty list is
   * left as it is (the scan has nothing to visit).
   */
  method InsertEntry(kPaths: seq<KPath>, e: KPath) returns (r: seq<KPath>)
    ensures |kPaths| > 0 ==> r == InsertByCost(kPaths, e)
    ensures |kPaths| == 0 ==> r == kPaths
  {
    r := kPaths;
    var tmp := |kPaths|;
    var i := 0;
    while i < tmp
      invariant 0 <= i <= tmp
      invariant forall j :: 0 <= j < i ==> kPaths[j].cost < e.cost
      invariant i < tmp ==> r == kPaths
      invariant i == tmp ==> r == if tmp > 0 then kPaths + [e] else kPaths
    {
      if r[i].cost >= e.cost {
        r := r[..i] + [e] + r[i..];
        assert InsertionPoint(kPaths, e.cost) == i;
        return;
      } else if i == tmp - 1 {
        r := r + [e];
      }
      i := i + 1;
    }
    assert InsertionPoint(kPaths, e.cost) == tmp;
  }

  /**
   * The admission loop over the reports of one OD pair; it ends with the same
   * ledger as admitting the reports one by one.
   */
  method CollectKPaths(origin: Label, reports: seq<Report>)
    returns (shortestLen: real, bestRoute: seq<Label>, kPaths: seq<KPath>)
    requires AllWellFormed(reports)
    ensures Ledger(shortestLen, bestRoute, kPaths) == Collect(origin, reports)
  {
    shortestLen, bestRoute, kPaths := INITIAL_SHORTEST, [], [];
    var n := 0;
    while n < |reports|
      invariant 0 <= n <= |reports|
      invariant Ledger(shortestLen, bestRoute, kPaths) == Collect(origin, reports[..n])
    {
      var rep := reports[n];
      assert reports[..n + 1][..n] == reports[..n];
      ghost var before := Ledger(shortestLen, bestRoute, kPaths);
      n := n + 1;
      if rep.NoRoute? || rep.route[0] != origin {
        continue;
      }
      if rep.cost - shortestLen > WINDOW {
        continue;
      }
      if rep.cost < shortestLen {
        shortestLen := rep.cost;
        bestRoute := rep.route;
      }
      if |kPaths| == 0 {
        kPaths := [KPath(rep.route, rep.cost)];
        continue;
      }
      if rep.route in Routes(kPaths) {
        continue;
      }
      var transfers := CountTransfers(rep.route);
      if transfers > MAX_TRANSFERS {
        continue;
      }
      kPaths := InsertEntry(kPaths, KPath(rep.route, rep.cost));
    }
    assert reports[..n] == reports;
  }

  // ---------------------------------------------------------------------
  // Finalisation
  // ---------------------------------------------------------------------

  /** p is the length of the longest prefix of the list whose entries are within WINDOW of the shortest time s. */
  predicate LongestWindowPrefix(paths: seq<KPath>, s: real, p: int) {
    && 0 <= p <= |paths|
    && (forall i :: 0 <= i < p ==> paths[i].cost - s <= WINDOW)
    && (p < |paths| ==> paths[p].cost - s > WINDOW)
  }

  /** The entries within WINDOW of the shortest time s, in list order. */
  function WithinWindow(paths: seq<KPath>, s: real): seq<KPath> {
    if paths == [] then []
    else (if paths[0].cost - s <= WINDOW then [paths[0]] else []) + WithinWindow(paths[1..], s)
  }

  lemma {:induction false} WithinWindowNone(paths: seq<KPath>, s: real)
    requires forall i :: 0 <= i < |paths| ==> paths[i].cost - s > WINDOW
    ensures WithinWindow(paths, s) == []
  {
    if paths != [] {
      WithinWindowNone(paths[1..], s);
    }
  }

  /** On a list sorted by cost, cutting at the first entry outside the window is the same as filtering by the window. */
  lemma {:induction false} WindowPrefixIsFilter(paths: seq<KPath>, s: real, p: int)
    requires SortedByCost(paths) && LongestWindowPrefix(paths, s, p)
    ensures paths[..p] == WithinWindow(paths, s)
  {
    if p == 0 {
      forall i | 0 <= i < |paths| ensures paths[i].cost - s > WINDOW {
        assert paths[0].cost <= paths[i].cost;
      }
      WithinWindowNone(paths, s);
    } else {
      WindowPrefixIsFilter(paths[1..], s, p - 1);
      assert paths[..p] == [paths[0]] + paths[1..][..p - 1];
    }
  }

  /**
   * Finalisation: no paths when no best route was recorded; otherwise the
   * entries up to, and not including, the first one more than WINDOW above
   * the shortest time.
   */
  method FinalPaths(shortestLen: real, bestRoute: seq<Label>, kPaths: seq<KPath>) returns (finals: seq<KPath>)
    ensures |bestRoute| == 0 ==> finals == []
    ensures |bestRoute| > 0 ==> LongestWindowPrefix(kPaths, shortestLen, |finals|) && finals == kPaths[..|finals|]
    ensures forall i :: 0 <= i < |finals| ==> finals[i].cost - shortestLen <= WINDOW
  {
    finals := [];
    if |bestRoute| == 0 {
      return;
    }
    var k := 0;
    while k < |kPaths|
      invariant 0 <= k <= |kPaths|
      invariant finals == kPaths[..k]
      invariant forall i :: 0 <= i < k ==> kPaths[i].cost - shortestLen <= WINDOW
    {
      if kPaths[k].cost - shortestLen > WINDOW {
        break;
      }
      finals := finals + [kPaths[k]];
      k := k + 1;
    }
  }

  /**
   * The final list of a run keeps the ledger's order, distinctness, origin
   * and transfer-cap invariants, and each of its entries is within WINDOW of
   * the final shortest time.
   */
  lemma FinalListProperties(origin: Label, reports: seq<Report>, finals: seq<KPath>)
    requires AllWellFormed(reports)
    requires Collect(origin, reports).best != []
    requires LongestWindowPrefix(Collect(origin, reports).paths, Collect(origin, reports).shortest, |finals|)
    requires finals == Collect(origin, reports).paths[..|finals|]
    ensures SortedByCost(finals) && DistinctRoutes(finals) && StartAt(origin, finals) && AtMostOneOverCap(finals)
    ensures finals == WithinWindow(Collect(origin, reports).paths, Collect(origin, reports).shortest)
  {
    var l := Collect(origin, reports);
    WindowPrefixIsFilter(l.paths, l.shortest, |finals|);
  }
}
