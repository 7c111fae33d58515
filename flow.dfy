/**
 * Assignment of one OD pair's demand to the edge flows along its final
 * paths. A single final path carries the whole demand; with several, path k
 * carries the share Pk of its own cost in the total of all the costs.
 */
module Flow {
  import opened Network
  import opened KPaths

  // ---------------------------------------------------------------------
  // Shares
  // ---------------------------------------------------------------------

  /** Sum of a sequence of reals. */
  function Sum(xs: seq<real>): real {
    if xs == [] then 0.0 else Sum(xs[..|xs| - 1]) + xs[|xs| - 1]
  }

  /** The costs of the paths, in list order. */
  function Costs(paths: seq<KPath>): (cs: seq<real>)
    ensures |cs| == |paths|
    ensures forall i :: 0 <= i < |paths| ==> cs[i] == paths[i].cost
  {
    seq(|paths|, i requires 0 <= i < |paths| => paths[i].cost)
  }

  /** The split ratio: the first value over the sum of the others. */
  function Pk(sk: seq<real>): (r: real)
    requires |sk| >= 1 && Sum(sk[1..]) != 0.0
    ensures r * Sum(sk[1..]) == sk[0]
    ensures sk[0] >= 0.0 && Sum(sk[1..]) > 0.0 ==> r >= 0.0
  {
    sk[0] / Sum(sk[1..])
  }

  /** The share of path k in the demand: its cost over the sum of the costs of all the paths. */
  function Share(paths: seq<KPath>, k: nat): real
    requires k < |paths| && Sum(Costs(paths)) != 0.0
  {
    paths[k].cost / Sum(Costs(paths))
  }

  /** The shares of all paths, in list order. */
  function Shares(paths: seq<KPath>): (s: seq<real>)
    requires Sum(Costs(paths)) != 0.0
    ensures |s| == |paths|
    ensures forall k :: 0 <= k < |paths| ==> s[k] == Share(paths, k)
  {
    seq(|paths|, k requires 0 <= k < |paths| => Share(paths, k))
  }

  /** The costs of all the paths with path k's own cost put in front. */
  function KTwo(paths: seq<KPath>, k: nat): (sk: seq<real>)
    requires k < |paths|
    ensures |sk| == |paths| + 1 && sk[0] == paths[k].cost && sk[1..] == Costs(paths)
  {
    [paths[k].cost] + Costs(paths)
  }

  /** Pk of a path's own cost put in front of all the costs is that path's share. */
  lemma PkIsShare(paths: seq<KPath>, k: nat)
    requires k < |paths| && Sum(Costs(paths)) != 0.0
    ensures Pk(KTwo(paths, k)) == Share(paths, k)
  {
  }

  /** Each value divided by s, in order. */
  function Scaled(xs: seq<real>, s: real): (ys: seq<real>)
    requires s != 0.0
    ensures |ys| == |xs|
    ensures forall i :: 0 <= i < |xs| ==> ys[i] == xs[i] / s
  {
    seq(|xs|, i requires 0 <= i < |xs| => xs[i] / s)
  }

  lemma {:induction false} SumScaled(xs: seq<real>, s: real)
    requires s != 0.0
    ensures Sum(Scaled(xs, s)) == Sum(xs) / s
  {
    if xs != [] {
      var n := |xs|;
      SumScaled(xs[..n - 1], s);
      assert Scaled(xs, s)[..n - 1] == Scaled(xs[..n - 1], s);
      assert Sum(xs) / s == Sum(xs[..n - 1]) / s + xs[n - 1] / s;
    }
  }

  /** Each value multiplied by d, in order. */
  function Multiplied(xs: seq<real>, d: real): (ys: seq<real>)
    ensures |ys| == |xs|
    ensures forall i :: 0 <= i < |xs| ==> ys[i] == d * xs[i]
  {
    seq(|xs|, i requires 0 <= i < |xs| => d * xs[i])
  }

  lemma MulOne(d: real, x: real)
    requires x == 1.0
    ensures d * x == d
  {
  }

  lemma Distribute(d: real, a: real, b: real)
    ensures d * a + d * b == d * (a + b)
  {
  }

  lemma {:induction false} SumMultiplied(xs: seq<real>, d: real)
    ensures Sum(Multiplied(xs, d)) == d * Sum(xs)
  {
    if xs != [] {
      var n := |xs|;
      SumMultiplied(xs[..n - 1], d);
      var ys := Multiplied(xs, d);
      var zs := Multiplied(xs[..n - 1], d);
      forall i | 0 <= i < n - 1 ensures ys[i] == zs[i] {
        assert xs[..n - 1][i] == xs[i];
      }
      assert ys[..n - 1] == zs;
      Distribute(d, Sum(xs[..n - 1]), xs[n - 1]);
    }
  }

  /** Whenever the costs do not sum to zero, the shares of the final paths add up to one. */
  lemma SharesSumToOne(paths: seq<KPath>)
    requires Sum(Costs(paths)) != 0.0
    ensures Sum(Shares(paths)) == 1.0
  {
    var s := Sum(Costs(paths));
    forall k | 0 <= k < |paths| ensures Shares(paths)[k] == Scaled(Costs(paths), s)[k] {
    }
    assert Shares(paths) == Scaled(Costs(paths), s);
    SumScaled(Costs(paths), s);
    assert s / s == 1.0;
  }

  lemma {:induction false} SumPositive(xs: seq<real>)
    requires |xs| > 0 && forall i :: 0 <= i < |xs| ==> xs[i] > 0.0
    ensures Sum(xs) > 0.0
  {
    if |xs| > 1 {
      SumPositive(xs[..|xs| - 1]);
    }
  }

  /**
   * The split as written favours the costlier path: with positive costs, a
   * path costing more than another receives a larger share of the demand.
   */
  lemma ShareGrowsWithCost(paths: seq<KPath>, i: nat, j: nat)
    requires i < |paths| && j < |paths|
    requires forall k :: 0 <= k < |paths| ==> paths[k].cost > 0.0
    requires paths[i].cost < paths[j].cost
    ensures Sum(Costs(paths)) > 0.0
    ensures Share(paths, i) < Share(paths, j)
  {
    SumPositive(Costs(paths));
  }

  // ---------------------------------------------------------------------
  // Adding demand along routes
  // ---------------------------------------------------------------------

  /** Number of hops (consecutive label pairs) of the route whose joined labels are `key`. */
  function HopCount(route: seq<Label>, key: string): nat {
    if |route| < 2 then 0
    else HopCount(route[..|route| - 1], key) + (if route[|route| - 2] + route[|route| - 1] == key then 1 else 0)
  }

  /** The flows after adding `amount` once for each hop of the route, hop by hop from the first. */
  function AddAlong(flow: map<string, real>, route: seq<Label>, amount: real): (f: map<string, real>)
    requires Hops(flow, route)
    ensures f.Keys == flow.Keys
  {
    if |route| < 2 then flow
    else
      var n := |route|;
      HopsPrefix(flow, route);
      var f0 := AddAlong(flow, route[..n - 1], amount);
      var hop := route[n - 2] + route[n - 1];
      f0[hop := f0[hop] + amount]
  }

  lemma HopsPrefix(flow: map<string, real>, route: seq<Label>)
    requires |route| >= 1 && Hops(flow, route)
    ensures Hops(flow, route[..|route| - 1])
  {
    var p := route[..|route| - 1];
    forall i | 0 <= i < |p| - 1 ensures p[i] + p[i + 1] in flow {
      assert p[i] == route[i] && p[i + 1] == route[i + 1];
    }
  }

  /** n copies of a, added up. */
  function Times(a: real, n: nat): real {
    if n == 0 then 0.0 else Times(a, n - 1) + a
  }

  lemma MulSucc(a: real, h: nat)
    ensures a * (h + 1) as real == a * h as real + a
  {
  }

  lemma {:induction false} TimesIsProduct(a: real, n: nat)
    ensures Times(a, n) == a * n as real
  {
    if n > 0 {
      TimesIsProduct(a, n - 1);
      MulSucc(a, n - 1);
    }
  }

  /** Adding along a route raises each edge by the amount once for every hop of the route on that edge. */
  lemma {:induction false} AddAlongAt(flow: map<string, real>, route: seq<Label>, amount: real, key: string)
    requires Hops(flow, route) && key in flow
    ensures AddAlong(flow, route, amount)[key] == flow[key] + Times(amount, HopCount(route, key))
  {
    if |route| >= 2 {
      var n := |route|;
      HopsPrefix(flow, route);
      AddAlongAt(flow, route[..n - 1], amount, key);
    }
  }

  /** Every final route runs along edges of the flow table. */
  predicate AllHops(flow: map<string, real>, finals: seq<KPath>) {
    forall k :: 0 <= k < |finals| ==> Hops(flow, finals[k].route)
  }

  /** What the first m paths add to edge `key`: each path's amount once per hop of it on `key`. */
  function Gain(finals: seq<KPath>, amounts: seq<real>, key: string, m: nat): real
    requires m <= |finals| == |amounts|
  {
    if m == 0 then 0.0
    else Gain(finals, amounts, key, m - 1) + Times(amounts[m - 1], HopCount(finals[m - 1].route, key))
  }

  /** The flows after adding, for each of the first m paths, its amount along that path. */
  function AddEach(flow: map<string, real>, finals: seq<KPath>, amounts: seq<real>, m: nat): (f: map<string, real>)
    requires m <= |finals| == |amounts| && AllHops(flow, finals)
    ensures f.Keys == flow.Keys
  {
    if m == 0 then flow
    else
      var f0 := AddEach(flow, finals, amounts, m - 1);
      assert Hops(f0, finals[m - 1].route);
      AddAlong(f0, finals[m - 1].route, amounts[m - 1])
  }

  /** After the first m paths, each edge has gained what those paths add to it. */
  lemma {:induction false} AddEachAt(flow: map<string, real>, finals: seq<KPath>, amounts: seq<real>, m: nat, key: string)
    requires m <= |finals| == |amounts| && AllHops(flow, finals) && key in flow
    ensures AddEach(flow, finals, amounts, m)[key] == flow[key] + Gain(finals, amounts, key, m)
  {
    if m > 0 {
      var f0 := AddEach(flow, finals, amounts, m - 1);
      AddEachAt(flow, finals, amounts, m - 1, key);
      assert Hops(f0, finals[m - 1].route);
      AddAlongAt(f0, finals[m - 1].route, amounts[m - 1], key);
    }
  }

  /** Path k's part of the demand: the demand times Pk of the path's own cost in front of all the costs. */
  function Amount(finals: seq<KPath>, demand: real, k: nat): real
    requires k < |finals| && Sum(Costs(finals)) != 0.0
  {
    demand * Pk(KTwo(finals, k))
  }

  /** Every path's part of the demand, in list order. */
  function Amounts(finals: seq<KPath>, demand: real): (a: seq<real>)
    requires |finals| == 0 || Sum(Costs(finals)) != 0.0
    ensures |a| == |finals|
    ensures forall k :: 0 <= k < |finals| ==> a[k] == Amount(finals, demand, k)
  {
    seq(|finals|, k requires 0 <= k < |finals| => Amount(finals, demand, k))
  }

  /** Path k's amount is the demand times its share. */
  lemma AmountIsShare(finals: seq<KPath>, demand: real, k: nat)
    requires k < |finals| && Sum(Costs(finals)) != 0.0
    ensures Amounts(finals, demand)[k] == demand * Share(finals, k)
  {
    PkIsShare(finals, k);
    MulEq(demand, Pk(KTwo(finals, k)), Share(finals, k));
  }

  lemma AmountsAreScaledShares(finals: seq<KPath>, demand: real)
    requires Sum(Costs(finals)) != 0.0
    ensures Amounts(finals, demand) == Multiplied(Shares(finals), demand)
  {
    forall k | 0 <= k < |finals| ensures Amounts(finals, demand)[k] == Multiplied(Shares(finals), demand)[k] {
      AmountIsShare(finals, demand, k);
    }
  }

  /** Adding the first k + 1 paths is adding the first k, then path k along its route. */
  lemma AddEachStep(flow: map<string, real>, finals: seq<KPath>, amounts: seq<real>, k: nat)
    requires k < |finals| == |amounts| && AllHops(flow, finals)
    ensures Hops(AddEach(flow, finals, amounts, k), finals[k].route)
    ensures AddEach(flow, finals, amounts, k + 1) == AddAlong(AddEach(flow, finals, amounts, k), finals[k].route, amounts[k])
  {
  }

  lemma MulEq(d: real, x: real, y: real)
    requires x == y
    ensures d * x == d * y
  {
  }

  /**
   * The flows after one OD pair's demand is assigned: a single final path
   * takes all of it along its route; otherwise (no path, or several) each
   * path takes its share along its route.
   */
  function SplitOd(flow: map<string, real>, finals: seq<KPath>, demand: real): (f: map<string, real>)
    requires AllHops(flow, finals) && (|finals| >= 2 ==> Sum(Costs(finals)) != 0.0)
    ensures f.Keys == flow.Keys
  {
    if |finals| == 1 then AddAlong(flow, finals[0].route, demand)
    else AddEach(flow, finals, Amounts(finals, demand), |finals|)
  }

  // ---------------------------------------------------------------------
  // What the split does to each edge
  // ---------------------------------------------------------------------

  /** With no final path no edge flow changes. */
  lemma SplitOdNoPaths(flow: map<string, real>, demand: real)
    ensures SplitOd(flow, [], demand) == flow
  {
  }

  /** With exactly one final path, each edge gains the whole demand once for every time the path uses it. */
  lemma SplitOdSinglePath(flow: map<string, real>, path: KPath, demand: real, key: string)
    requires Hops(flow, path.route) && key in flow
    ensures SplitOd(flow, [path], demand)[key] == flow[key] + Times(demand, HopCount(path.route, key))
  {
    assert AllHops(flow, [path]);
    AddAlongAt(flow, path.route, demand, key);
  }

  lemma {:induction false} GainOff(finals: seq<KPath>, amounts: seq<real>, key: string, m: nat)
    requires m <= |finals| == |amounts|
    requires forall k :: 0 <= k < m ==> HopCount(finals[k].route, key) == 0
    ensures Gain(finals, amounts, key, m) == 0.0
  {
    if m > 0 {
      GainOff(finals, amounts, key, m - 1);
    }
  }

  /** An edge that lies on no final path keeps its flow. */
  lemma SplitOdOffPath(flow: map<string, real>, finals: seq<KPath>, demand: real, key: string)
    requires AllHops(flow, finals) && (|finals| >= 2 ==> Sum(Costs(finals)) != 0.0) && key in flow
    requires forall k :: 0 <= k < |finals| ==> HopCount(finals[k].route, key) == 0
    ensures SplitOd(flow, finals, demand)[key] == flow[key]
  {
    if |finals| == 1 {
      AddAlongAt(flow, finals[0].route, demand, key);
    } else {
      AddEachAt(flow, finals, Amounts(finals, demand), |finals|, key);
      GainOff(finals, Amounts(finals, demand), key, |finals|);
    }
  }

  lemma {:induction false} GainOnePath(finals: seq<KPath>, amounts: seq<real>, key: string, m: nat, j: nat)
    requires m <= |finals| == |amounts| && j < |finals|
    requires HopCount(finals[j].route, key) == 1
    requires forall k :: 0 <= k < |finals| && k != j ==> HopCount(finals[k].route, key) == 0
    ensures Gain(finals, amounts, key, m) == if j < m then amounts[j] else 0.0
  {
    if m > 0 {
      GainOnePath(finals, amounts, key, m - 1, j);
      assert Times(amounts[m - 1], 0) == 0.0;
      assert Times(amounts[m - 1], 1) == amounts[m - 1];
    }
  }

  /**
   * With two or more final paths, an edge used once by path j and by no other
   * path gains the demand times path j's share, its cost over the sum of all the costs.
   */
  lemma SplitOdEdgeOfOnePath(flow: map<string, real>, finals: seq<KPath>, demand: real, key: string, j: nat)
    requires AllHops(flow, finals) && |finals| >= 2 && Sum(Costs(finals)) != 0.0 && key in flow
    requires j < |finals| && HopCount(finals[j].route, key) == 1
    requires forall k :: 0 <= k < |finals| && k != j ==> HopCount(finals[k].route, key) == 0
    ensures SplitOd(flow, finals, demand)[key] == flow[key] + demand * Share(finals, j)
  {
    AddEachAt(flow, finals, Amounts(finals, demand), |finals|, key);
    GainOnePath(finals, Amounts(finals, demand), key, |finals|, j);
    AmountIsShare(finals, demand, j);
  }

  lemma {:induction false} GainEveryPath(finals: seq<KPath>, amounts: seq<real>, key: string, m: nat)
    requires m <= |finals| == |amounts|
    requires forall k :: 0 <= k < |finals| ==> HopCount(finals[k].route, key) == 1
    ensures Gain(finals, amounts, key, m) == Sum(amounts[..m])
  {
    if m > 0 {
      GainEveryPath(finals, amounts, key, m - 1);
      assert amounts[..m][..m - 1] == amounts[..m - 1];
      assert Times(amounts[m - 1], 1) == amounts[m - 1];
    }
  }

  lemma GainEveryPathIsDemand(finals: seq<KPath>, demand: real, key: string)
    requires |finals| >= 1 && Sum(Costs(finals)) != 0.0
    requires forall k :: 0 <= k < |finals| ==> HopCount(finals[k].route, key) == 1
    ensures Gain(finals, Amounts(finals, demand), key, |finals|) == demand
  {
    var amounts := Amounts(finals, demand);
    GainEveryPath(finals, amounts, key, |finals|);
    assert amounts[..|finals|] == amounts;
    AmountsAreScaledShares(finals, demand);
    SumMultiplied(Shares(finals), demand);
    SharesSumToOne(finals);
    MulOne(demand, Sum(Shares(finals)));
  }

  /**
   * An edge that every final path uses exactly once gains exactly the demand,
   * whatever the number of paths: the shares add up to one.
   */
  lemma SplitOdEdgeOfEveryPath(flow: map<string, real>, finals: seq<KPath>, demand: real, key: string)
    requires AllHops(flow, finals) && |finals| >= 1 && Sum(Costs(finals)) != 0.0 && key in flow
    requires forall k :: 0 <= k < |finals| ==> HopCount(finals[k].route, key) == 1
    ensures SplitOd(flow, finals, demand)[key] == flow[key] + demand
  {
    if |finals| == 1 {
      AddAlongAt(flow, finals[0].route, demand, key);
      assert Times(demand, 1) == demand by {
        assert Times(demand, 0) == 0.0;
      }
    } else {
      AddEachAt(flow, finals, Amounts(finals, demand), |finals|, key);
      GainEveryPathIsDemand(finals, demand, key);
    }
  }

  // ---------------------------------------------------------------------
  // The edge-flow table
  // ---------------------------------------------------------------------

  /** The edge-flow table that the OD loop accumulates into, keyed by joined station labels. */
  class EdgeFlows {
    var flow: map<string, real>

    constructor (initial: map<string, real>)
      ensures flow == initial
    {
      flow := initial;
    }

    /** Adds `amount` to the flow of each hop of the route, first hop first. */
    method AddRoute(route: seq<Label>, amount: real)
      requires Hops(flow, route)
      modifies this
      ensures flow == AddAlong(old(flow), route, amount)
    {
      var i := 0;
      while i < |route| - 1
        invariant 0 <= i <= if |route| == 0 then 0 else |route| - 1
        invariant Hops(old(flow), route[..if |route| == 0 then 0 else i + 1])
        invariant flow == AddAlong(old(flow), route[..if |route| == 0 then 0 else i + 1], amount)
      {
        var hop := route[i] + route[i + 1];
        assert route[..i + 2][..i + 1] == route[..i + 1];
        flow := flow[hop := flow[hop] + amount];
        i := i + 1;
      }
      assert route[..if |route| == 0 then 0 else i + 1] == route;
    }

    /**
     * Assigns one OD pair's demand over its final paths: the whole demand
     * along a single path, otherwise each path's Pk share along that path.
     */
    method AssignOd(finals: seq<KPath>, demand: real)
      requires AllHops(flow, finals) && (|finals| >= 2 ==> Sum(Costs(finals)) != 0.0)
      modifies this
      ensures flow == SplitOd(old(flow), finals, demand)
    {
      if |finals| == 1 {
        AddRoute(finals[0].route, demand);
      } else {
        var k := 0;
        while k < |finals|
          invariant 0 <= k <= |finals|
          invariant flow == AddEach(old(flow), finals, Amounts(finals, demand), k)
        {
          var amount := Amount(finals, demand, k);
          ghost var amounts := Amounts(finals, demand);
          AddEachStep(old(flow), finals, amounts, k);
          AddRoute(finals[k].route, amount);
          k := k + 1;
        }
      }
    }
  }
}
