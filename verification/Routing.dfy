/** Routing cost of a netlist, and the incremental cost of a swap. Coordinates are reals. */
module Routing {

  datatype Loc = Loc(x: real, y: real)

  datatype Elem = Elem(fanin: seq<nat>, fanout: seq<nat>)

  function Abs(r: real): real { if r < 0.0 then -r else r }

  /** Manhattan distance. */
  function Dist(p: Loc, q: Loc): real { Abs(p.x - q.x) + Abs(p.y - q.y) }

  lemma DistLaws(p: Loc, q: Loc)
    ensures Dist(p, q) == Dist(q, p) >= 0.0 && Dist(p, p) == 0.0 && (Dist(p, q) == 0.0 <==> p == q)
  {
  }

  predicate Amid(a: real, m: real, b: real) { a <= m <= b || b <= m <= a }

  /** Along one axis it is the difference; and on the way over any place between, for instance a corner, the
      distances add up. */
  lemma DistIs(p: Loc, q: Loc, m: Loc)
    ensures p.y == q.y && p.x <= q.x ==> Dist(p, q) == q.x - p.x
    ensures p.x == q.x && p.y <= q.y ==> Dist(p, q) == q.y - p.y
    ensures Amid(p.x, m.x, q.x) && Amid(p.y, m.y, q.y) ==> Dist(p, q) == Dist(p, m) + Dist(m, q)
  {
  }

  predicate InRange(ns: seq<nat>, n: nat) { forall i :: 0 <= i < |ns| ==> ns[i] < n }

  /** The elements that locs places: all neighbours exist. */
  predicate Placed(nl: seq<Elem>, locs: seq<Loc>) {
    |nl| == |locs| && forall u :: 0 <= u < |nl| ==> InRange(nl[u].fanin, |nl|) && InRange(nl[u].fanout, |nl|)
  }

  /** The distance from p to all the elements ns. */
  function Reach(ns: seq<nat>, p: Loc, locs: seq<Loc>): real
    requires InRange(ns, |locs|)
  {
    if ns == [] then 0.0 else Reach(ns[..|ns| - 1], p, locs) + Dist(p, locs[ns[|ns| - 1]])
  }

  lemma ReachNext(ns: seq<nat>, i: nat, p: Loc, locs: seq<Loc>)
    requires InRange(ns, |locs|) && i < |ns|
    ensures Reach(ns[..i + 1], p, locs) == Reach(ns[..i], p, locs) + Dist(p, locs[ns[i]])
  {
    assert ns[..i + 1][..i] == ns[..i];
  }

  /** routing_cost_given_loc */
  method RoutingCostGivenLoc(e: Elem, loc: Loc, locs: seq<Loc>) returns (total: real)
    requires InRange(e.fanin, |locs|) && InRange(e.fanout, |locs|)
    ensures total == Reach(e.fanin, loc, locs) + Reach(e.fanout, loc, locs)
  {
    var faninCost, fanoutCost := 0.0, 0.0;
    for i := 0 to |e.fanin|
      invariant faninCost == Reach(e.fanin[..i], loc, locs)
    {
      ReachNext(e.fanin, i, loc, locs);
      var other := locs[e.fanin[i]];
      faninCost := faninCost + Abs(loc.x - other.x);
      faninCost := faninCost + Abs(loc.y - other.y);
    }
    for i := 0 to |e.fanout|
      invariant fanoutCost == Reach(e.fanout[..i], loc, locs)
    {
      ReachNext(e.fanout, i, loc, locs);
      var other := locs[e.fanout[i]];
      fanoutCost := fanoutCost + Abs(loc.x - other.x);
      fanoutCost := fanoutCost + Abs(loc.y - other.y);
    }
    assert e.fanin[..|e.fanin|] == e.fanin && e.fanout[..|e.fanout|] == e.fanout;
    total := faninCost + fanoutCost;
  }

  /** swap_cost: both costs in one pass over the neighbours. */
  method SwapCost(e: Elem, oldLoc: Loc, newLoc: Loc, locs: seq<Loc>) returns (delta: real)
    requires InRange(e.fanin, |locs|) && InRange(e.fanout, |locs|)
    ensures delta == Reach(e.fanin, newLoc, locs) + Reach(e.fanout, newLoc, locs)
                     - (Reach(e.fanin, oldLoc, locs) + Reach(e.fanout, oldLoc, locs))
  {
    var noSwap, yesSwap := 0.0, 0.0;
    for i := 0 to |e.fanin|
      invariant noSwap == Reach(e.fanin[..i], oldLoc, locs) && yesSwap == Reach(e.fanin[..i], newLoc, locs)
    {
      ReachNext(e.fanin, i, oldLoc, locs);
      ReachNext(e.fanin, i, newLoc, locs);
      var other := locs[e.fanin[i]];
      noSwap := noSwap + Abs(oldLoc.x - other.x);
      noSwap := noSwap + Abs(oldLoc.y - other.y);
      yesSwap := yesSwap + Abs(newLoc.x - other.x);
      yesSwap := yesSwap + Abs(newLoc.y - other.y);
    }
    assert e.fanin[..|e.fanin|] == e.fanin;
    for i := 0 to |e.fanout|
      invariant noSwap == Reach(e.fanin, oldLoc, locs) + Reach(e.fanout[..i], oldLoc, locs)
      invariant yesSwap == Reach(e.fanin, newLoc, locs) + Reach(e.fanout[..i], newLoc, locs)
    {
      ReachNext(e.fanout, i, oldLoc, locs);
      ReachNext(e.fanout, i, newLoc, locs);
      var other := locs[e.fanout[i]];
      noSwap := noSwap + Abs(oldLoc.x - other.x);
      noSwap := noSwap + Abs(oldLoc.y - other.y);
      yesSwap := yesSwap + Abs(newLoc.x - other.x);
      yesSwap := yesSwap + Abs(newLoc.y - other.y);
    }
    assert e.fanout[..|e.fanout|] == e.fanout;
    delta := yesSwap - noSwap;
  }

  function Cost(e: Elem, p: Loc, locs: seq<Loc>): real
    requires InRange(e.fanin, |locs|) && InRange(e.fanout, |locs|)
  {
    Reach(e.fanin, p, locs) + Reach(e.fanout, p, locs)
  }

  /** Twice the cost of the first k elements: every edge is seen from both ends. */
  function Twice(nl: seq<Elem>, locs: seq<Loc>, k: nat): real
    requires Placed(nl, locs) && k <= |nl|
  {
    if k == 0 then 0.0 else Twice(nl, locs, k - 1) + Cost(nl[k - 1], locs[k - 1], locs)
  }

  function TotalCost(nl: seq<Elem>, locs: seq<Loc>): real
    requires Placed(nl, locs)
  {
    Twice(nl, locs, |nl|) / 2.0
  }

  /** The elements from named on are blanks without neighbours. */
  predicate Blank(nl: seq<Elem>, named: nat) {
    named <= |nl| && forall u :: named <= u < |nl| ==> nl[u] == Elem([], [])
  }

  lemma {:induction false} BlanksCostNothing(nl: seq<Elem>, locs: seq<Loc>, named: nat, k: nat)
    requires Placed(nl, locs) && Blank(nl, named) && named <= k <= |nl|
    ensures Twice(nl, locs, k) == Twice(nl, locs, named)
  {
    if k > named {
      BlanksCostNothing(nl, locs, named, k - 1);
    }
  }

  /** total_routing_cost: only the named elements are visited. */
  method TotalRoutingCost(nl: seq<Elem>, locs: seq<Loc>, named: nat) returns (total: real)
    requires Placed(nl, locs) && Blank(nl, named)
    ensures total == TotalCost(nl, locs)
  {
    var sum := 0.0;
    for u := 0 to named
      invariant sum == Twice(nl, locs, u)
    {
      var c := RoutingCostGivenLoc(nl[u], locs[u], locs);
      sum := sum + c;
    }
    BlanksCostNothing(nl, locs, named, |nl|);
    total := sum / 2.0;
  }

  /** calculate_delta_routing_cost */
  method CalculateDelta(nl: seq<Elem>, locs: seq<Loc>, a: nat, b: nat) returns (delta: real)
    requires Placed(nl, locs) && a < |nl| && b < |nl|
    ensures delta == Delta(nl, locs, a, b)
  {
    var da := SwapCost(nl[a], locs[a], locs[b], locs);
    var db := SwapCost(nl[b], locs[b], locs[a], locs);
    delta := da + db;
  }

  function Delta(nl: seq<Elem>, locs: seq<Loc>, a: nat, b: nat): real
    requires Placed(nl, locs) && a < |nl| && b < |nl|
  {
    Cost(nl[a], locs[b], locs) - Cost(nl[a], locs[a], locs) + (Cost(nl[b], locs[a], locs) - Cost(nl[b], locs[b], locs))
  }

  function Times(ns: seq<nat>, v: nat): nat {
    if ns == [] then 0 else Times(ns[..|ns| - 1], v) + (if ns[|ns| - 1] == v then 1 else 0)
  }

  /** How often v is a neighbour of u. */
  function Edges(nl: seq<Elem>, u: nat, v: nat): nat
    requires u < |nl|
  {
    Times(nl[u].fanin, v) + Times(nl[u].fanout, v)
  }

  /** What reading the netlist establishes: every connection is known at both ends. */
  ghost predicate Symmetric(nl: seq<Elem>) {
    forall u, v :: 0 <= u < |nl| && 0 <= v < |nl| ==> Times(nl[u].fanin, v) == Times(nl[v].fanout, u)
  }

  /** One connection as the constructor of the netlist records it. */
  function Connect(nl: seq<Elem>, u: nat, v: nat): seq<Elem>
    requires u < |nl| && v < |nl|
  {
    var nl1 := nl[u := nl[u].(fanin := nl[u].fanin + [v])];
    nl1[v := nl1[v].(fanout := nl1[v].fanout + [u])]
  }

  lemma TimesAppend(ns: seq<nat>, x: nat, v: nat)
    ensures Times(ns + [x], v) == Times(ns, v) + (if x == v then 1 else 0)
  {
    assert (ns + [x])[..|ns|] == ns;
  }

  lemma {:induction false} ConnectKeeps(nl: seq<Elem>, u: nat, v: nat)
    requires Symmetric(nl) && u < |nl| && v < |nl|
    ensures Symmetric(Connect(nl, u, v))
    ensures forall x: nat, y: nat :: x < |nl| && y < |nl| ==>
              Edges(Connect(nl, u, v), x, y) == Edges(nl, x, y) + (if x == u && y == v then 1 else 0) +
                  (if x == v && y == u then 1 else 0)
  {
    hide Times;
    forall x: nat, y: nat | x < |nl| && y < |nl|
      ensures Times(Connect(nl, u, v)[x].fanin, y) == Times(nl[x].fanin, y) + (if x == u && y == v then 1 else 0)
      ensures Times(Connect(nl, u, v)[x].fanout, y) == Times(nl[x].fanout, y) + (if x == v && y == u then 1 else 0)
    {
      TimesAppend(nl[x].fanin, v, y);
      TimesAppend(nl[x].fanout, u, y);
    }
  }

  /** Sums over the elements. */
  ghost function SumTo(f: nat -> real, n: nat): real {
    if n == 0 then 0.0 else SumTo(f, n - 1) + f(n - 1)
  }

  lemma {:induction false} SumSame(f: nat -> real, g: nat -> real, n: nat)
    requires forall i: nat :: i < n ==> f(i) == g(i)
    ensures SumTo(f, n) == SumTo(g, n)
  {
    if n > 0 {
      SumSame(f, g, n - 1);
    }
  }

  lemma {:induction false} SumPlus(f: nat -> real, g: nat -> real, h: nat -> real, n: nat)
    requires forall i: nat :: i < n ==> h(i) == f(i) + g(i)
    ensures SumTo(h, n) == SumTo(f, n) + SumTo(g, n)
  {
    if n > 0 {
      SumPlus(f, g, h, n - 1);
    }
  }

  /** Two sums that differ in one element. */
  lemma {:induction false} SumBut(f: nat -> real, g: nat -> real, n: nat, a: nat)
    requires a < n && forall i: nat :: i < n && i != a ==> f(i) == g(i)
    ensures SumTo(f, n) - SumTo(g, n) == f(a) - g(a)
  {
    if a == n - 1 {
      SumSame(f, g, n - 1);
    } else {
      SumBut(f, g, n - 1, a);
    }
  }

  ghost function Term(ns: seq<nat>, p: Loc, locs: seq<Loc>): nat -> real {
    (v: nat) => if v < |locs| then Times(ns, v) as real * Dist(p, locs[v]) else 0.0
  }

  /** The distance to a list of elements, sorted by element. */
  lemma {:induction false} ReachBySum(ns: seq<nat>, p: Loc, locs: seq<Loc>)
    requires InRange(ns, |locs|)
    ensures Reach(ns, p, locs) == SumTo(Term(ns, p, locs), |locs|)
  {
    hide SumTo, Dist;
    if ns == [] {
      ZeroSum(Term(ns, p, locs), |locs|);
    } else {
      var k := |ns| - 1;
      ReachBySum(ns[..k], p, locs);
      OneMore(Times(ns[..k], ns[k]), Dist(p, locs[ns[k]]));
      SumBut(Term(ns, p, locs), Term(ns[..k], p, locs), |locs|, ns[k]);
    }
  }

  lemma OneMore(k: nat, d: real)
    ensures (k + 1) as real * d == k as real * d + d
  {
  }

  lemma {:induction false} ZeroSum(f: nat -> real, n: nat)
    requires forall i: nat :: i < n ==> f(i) == 0.0
    ensures SumTo(f, n) == 0.0
  {
    if n > 0 {
      ZeroSum(f, n - 1);
    }
  }

  /** An element's cost at p, sorted by neighbour. */
  ghost function Row(nl: seq<Elem>, u: nat, p: Loc, locs: seq<Loc>): nat -> real
    requires u < |nl|
  {
    (v: nat) => if v < |locs| then Edges(nl, u, v) as real * Dist(p, locs[v]) else 0.0
  }

  lemma {:induction false} CostBySum(nl: seq<Elem>, u: nat, p: Loc, locs: seq<Loc>)
    requires Placed(nl, locs) && u < |nl|
    ensures Cost(nl[u], p, locs) == SumTo(Row(nl, u, p, locs), |nl|)
  {
    hide Reach, Times, Dist, SumTo;
    ReachBySum(nl[u].fanin, p, locs);
    ReachBySum(nl[u].fanout, p, locs);
    forall v: nat | v < |locs|
      ensures Row(nl, u, p, locs)(v) == Term(nl[u].fanin, p, locs)(v) + Term(nl[u].fanout, p, locs)(v)
    {
      Distribute(Times(nl[u].fanin, v), Times(nl[u].fanout, v), Dist(p, locs[v]));
    }
    SumPlus(Term(nl[u].fanin, p, locs), Term(nl[u].fanout, p, locs), Row(nl, u, p, locs), |nl|);
  }

  lemma Distribute(j: nat, k: nat, d: real)
    ensures (j + k) as real * d == j as real * d + k as real * d
  {
  }

  /** Two sums that differ in two elements. */
  lemma SumButTwo(f: nat -> real, g: nat -> real, n: nat, a: nat, b: nat)
    requires a < n && b < n && a != b && forall i: nat :: i < n && i != a && i != b ==> f(i) == g(i)
    ensures SumTo(f, n) - SumTo(g, n) == f(a) - g(a) + (f(b) - g(b))
  {
    var m := (i: nat) => if i == a then f(i) else g(i);
    SumBut(m, g, n, a);
    SumBut(f, m, n, b);
  }

  function Swapped(locs: seq<Loc>, a: nat, b: nat): seq<Loc>
    requires a < |locs| && b < |locs|
  {
    locs[a := locs[b]][b := locs[a]]
  }

  /** How much further v is from the place of b than from that of a. */
  function Gain(locs: seq<Loc>, a: nat, b: nat, v: nat): real
    requires a < |locs| && b < |locs| && v < |locs|
  {
    Dist(locs[b], locs[v]) - Dist(locs[a], locs[v])
  }

  /** What the neighbour v contributes to the incremental cost. */
  ghost function Weight(nl: seq<Elem>, locs: seq<Loc>, a: nat, b: nat): nat -> real
    requires a < |nl| == |locs| && b < |nl|
  {
    (v: nat) => if v < |locs| then (Edges(nl, a, v) as real - Edges(nl, b, v) as real) * Gain(locs, a, b, v) else 0.0
  }

  lemma {:induction false} DeltaBySum(nl: seq<Elem>, locs: seq<Loc>, a: nat, b: nat)
    requires Placed(nl, locs) && a < |nl| && b < |nl|
    ensures Delta(nl, locs, a, b) == SumTo(Weight(nl, locs, a, b), |nl|)
  {
    hide Cost, Edges, Dist, SumTo;
    var n := |nl|;
    CostBySum(nl, a, locs[a], locs);
    CostBySum(nl, a, locs[b], locs);
    CostBySum(nl, b, locs[a], locs);
    CostBySum(nl, b, locs[b], locs);
    var da := (v: nat) => if v < n then Edges(nl, a, v) as real * Gain(locs, a, b, v) else 0.0;
    var db := (v: nat) => if v < n then -(Edges(nl, b, v) as real * Gain(locs, a, b, v)) else 0.0;
    forall v: nat | v < n
      ensures Row(nl, a, locs[b], locs)(v) == da(v) + Row(nl, a, locs[a], locs)(v)
      ensures Row(nl, b, locs[a], locs)(v) == db(v) + Row(nl, b, locs[b], locs)(v)
      ensures Weight(nl, locs, a, b)(v) == da(v) + db(v)
    {
      Minus(Edges(nl, a, v) as real, Dist(locs[b], locs[v]), Dist(locs[a], locs[v]));
      Minus(Edges(nl, b, v) as real, Dist(locs[b], locs[v]), Dist(locs[a], locs[v]));
      Minus(Gain(locs, a, b, v), Edges(nl, a, v) as real, Edges(nl, b, v) as real);
    }
    SumPlus(da, Row(nl, a, locs[a], locs), Row(nl, a, locs[b], locs), n);
    SumPlus(db, Row(nl, b, locs[b], locs), Row(nl, b, locs[a], locs), n);
    SumPlus(da, db, Weight(nl, locs, a, b), n);
  }

  lemma Minus(k: real, x: real, y: real)
    ensures k * (x - y) == k * x - k * y && (x - y) * k == x * k - y * k
    ensures k * x == x * k
  {
  }

  lemma {:induction false} EdgesSymmetric(nl: seq<Elem>, u: nat, v: nat)
    requires Symmetric(nl) && u < |nl| && v < |nl|
    ensures Edges(nl, u, v) == Edges(nl, v, u)
  {
  }

  /** How the cost of an element that stays changes. */
  lemma {:induction false} StayingRow(nl: seq<Elem>, locs: seq<Loc>, a: nat, b: nat, u: nat)
    requires Placed(nl, locs) && Symmetric(nl) && a < |nl| && b < |nl| && a != b && u < |nl| && u != a && u != b
    ensures Placed(nl, Swapped(locs, a, b))
    ensures Cost(nl[u], locs[u], Swapped(locs, a, b)) - Cost(nl[u], locs[u], locs) == Weight(nl, locs, a, b)(u)
  {
    hide Cost, Edges, SumTo;
    var locs' := Swapped(locs, a, b);
    var p := locs[u];
    CostBySum(nl, u, p, locs);
    CostBySum(nl, u, p, locs');
    SumButTwo(Row(nl, u, p, locs'), Row(nl, u, p, locs), |nl|, a, b);
    EdgesSymmetric(nl, u, a);
    EdgesSymmetric(nl, u, b);
    DistLaws(p, locs[a]);
    DistLaws(p, locs[b]);
    Staying(Edges(nl, u, a) as real, Edges(nl, u, b) as real, Dist(p, locs[a]), Dist(p, locs[b]));
  }

  lemma Staying(j: real, k: real, da: real, db: real)
    ensures j * db - j * da + (k * da - k * db) == (j - k) * (db - da)
  {
  }

  /** How the costs of the two elements that are swapped change together. */
  lemma {:induction false} MovingRows(nl: seq<Elem>, locs: seq<Loc>, a: nat, b: nat)
    requires Placed(nl, locs) && a < |nl| && b < |nl| && a != b
    ensures Placed(nl, Swapped(locs, a, b))
    ensures var locs', w := Swapped(locs, a, b), Weight(nl, locs, a, b);
            Cost(nl[a], locs[b], locs') - Cost(nl[a], locs[a], locs) +
                (Cost(nl[b], locs[a], locs') - Cost(nl[b], locs[b], locs))
            == SumTo(w, |nl|) - w(a) - w(b)
  {
    hide Cost, Edges, SumTo, Dist;
    var n, locs', w := |nl|, Swapped(locs, a, b), Weight(nl, locs, a, b);
    CostBySum(nl, a, locs[a], locs);
    CostBySum(nl, b, locs[b], locs);
    CostBySum(nl, a, locs[b], locs');
    CostBySum(nl, b, locs[a], locs');
    var ha := (v: nat) => if v < n && v != a && v != b then Edges(nl, a, v) as real * Gain(locs, a, b, v) else 0.0;
    var hb := (v: nat) => if v < n && v != a && v != b then -(Edges(nl, b, v) as real * Gain(locs, a, b, v)) else 0.0;
    var h := (v: nat) => if v != a && v != b then w(v) else 0.0;
    DistLaws(locs[a], locs[b]);
    DistLaws(locs[b], locs[a]);
    forall v: nat | v < n
      ensures Row(nl, a, locs[b], locs')(v) == ha(v) + Row(nl, a, locs[a], locs)(v)
      ensures Row(nl, b, locs[a], locs')(v) == hb(v) + Row(nl, b, locs[b], locs)(v)
      ensures h(v) == ha(v) + hb(v)
    {
      Minus(Edges(nl, a, v) as real, Dist(locs[b], locs[v]), Dist(locs[a], locs[v]));
      Minus(Edges(nl, b, v) as real, Dist(locs[b], locs[v]), Dist(locs[a], locs[v]));
      Minus(Gain(locs, a, b, v), Edges(nl, a, v) as real, Edges(nl, b, v) as real);
    }
    SumPlus(ha, Row(nl, a, locs[a], locs), Row(nl, a, locs[b], locs'), n);
    SumPlus(hb, Row(nl, b, locs[b], locs), Row(nl, b, locs[a], locs'), n);
    SumPlus(ha, hb, h, n);
    SumButTwo(h, w, n, a, b);
  }

  ghost function Rows(nl: seq<Elem>, locs: seq<Loc>): nat -> real
    requires Placed(nl, locs)
  {
    (u: nat) => if u < |nl| then Cost(nl[u], locs[u], locs) else 0.0
  }

  lemma {:induction false} TwiceBySum(nl: seq<Elem>, locs: seq<Loc>, k: nat)
    requires Placed(nl, locs) && k <= |nl|
    ensures Twice(nl, locs, k) == SumTo(Rows(nl, locs), k)
  {
    if k > 0 {
      TwiceBySum(nl, locs, k - 1);
    }
  }

  /** What the incremental cost has too much: it measures the distance to the other element, and to
      the element itself, at the places before the swap. */
  function Excess(nl: seq<Elem>, locs: seq<Loc>, a: nat, b: nat): real
    requires a < |nl| == |locs| && b < |nl|
  {
    (Edges(nl, a, a) as real + Edges(nl, b, b) as real - 2.0 * Edges(nl, a, b) as real) * Dist(locs[a], locs[b])
  }

  lemma TotalChange(nl: seq<Elem>, locs: seq<Loc>, a: nat, b: nat)
    requires Placed(nl, locs) && Symmetric(nl) && a < |nl| && b < |nl| && a != b
    ensures Placed(nl, Swapped(locs, a, b))
    ensures var w := Weight(nl, locs, a, b);
            Twice(nl, Swapped(locs, a, b), |nl|) - Twice(nl, locs, |nl|) == 2.0 * (SumTo(w, |nl|) - w(a) - w(b))
  {
    hide Cost, Edges, SumTo, Symmetric, Dist, Twice;
    var n, locs', w := |nl|, Swapped(locs, a, b), Weight(nl, locs, a, b);
    TwiceBySum(nl, locs, n);
    TwiceBySum(nl, locs', n);
    MovingRows(nl, locs, a, b);
    var rest := (u: nat) => if u == a || u == b then 0.0 else w(u);
    var base := (u: nat) => if u == a || u == b then Rows(nl, locs')(u) else Rows(nl, locs)(u);
    forall u: nat | u < n
      ensures Rows(nl, locs')(u) == base(u) + rest(u)
    {
      if u != a && u != b {
        StayingRow(nl, locs, a, b, u);
      }
    }
    SumPlus(base, rest, Rows(nl, locs'), n);
    SumButTwo(base, Rows(nl, locs), n, a, b);
    SumButTwo(rest, w, n, a, b);
  }

  /** The incremental cost of a swap is the change of the total cost plus an excess. */
  lemma DeltaIs(nl: seq<Elem>, locs: seq<Loc>, a: nat, b: nat)
    requires Placed(nl, locs) && Symmetric(nl) && a < |nl| && b < |nl| && a != b
    ensures Placed(nl, Swapped(locs, a, b))
    ensures Delta(nl, locs, a, b) == TotalCost(nl, Swapped(locs, a, b)) - TotalCost(nl, locs) + Excess(nl, locs, a, b)
  {
    hide Cost, Edges, SumTo, Symmetric, Dist, Twice;
    TotalChange(nl, locs, a, b);
    DeltaBySum(nl, locs, a, b);
    DistLaws(locs[a], locs[b]);
    DistLaws(locs[b], locs[a]);
    EdgesSymmetric(nl, a, b);
    Ends(Edges(nl, a, a) as real, Edges(nl, a, b) as real, Edges(nl, b, b) as real, Dist(locs[a], locs[b]));
  }

  lemma Ends(aa: real, ab: real, bb: real, d: real)
    ensures (aa - ab) * (d - 0.0) + (ab - bb) * (0.0 - d) == (aa + bb - 2.0 * ab) * d
  {
  }

  /** It is exact exactly if the two elements are in the same place or the connections between them
      balance the connections of each with itself. */
  lemma DeltaExact(nl: seq<Elem>, locs: seq<Loc>, a: nat, b: nat)
    requires Placed(nl, locs) && Symmetric(nl) && a < |nl| && b < |nl| && a != b
    ensures Placed(nl, Swapped(locs, a, b))
    ensures Delta(nl, locs, a, b) == TotalCost(nl, Swapped(locs, a, b)) - TotalCost(nl, locs) <==>
            locs[a] == locs[b] || Edges(nl, a, a) + Edges(nl, b, b) == 2 * Edges(nl, a, b)
  {
    hide Cost, Edges, Symmetric, Dist, Twice;
    DeltaIs(nl, locs, a, b);
    DistLaws(locs[a], locs[b]);
    ZeroProduct(Edges(nl, a, a) + Edges(nl, b, b) - 2 * Edges(nl, a, b), Dist(locs[a], locs[b]));
  }

  lemma ZeroProduct(k: int, d: real)
    ensures k as real * d == 0.0 <==> k == 0 || d == 0.0
  {
  }

  /** Without connections of an element with itself it is too small by twice the distance for each
      connection between the two: exact exactly if they are not connected or in the same place. */
  lemma DeltaWithoutLoops(nl: seq<Elem>, locs: seq<Loc>, a: nat, b: nat)
    requires Placed(nl, locs) && Symmetric(nl) && a < |nl| && b < |nl| && a != b
    requires Edges(nl, a, a) == 0 && Edges(nl, b, b) == 0
    ensures Placed(nl, Swapped(locs, a, b))
    ensures Delta(nl, locs, a, b) == TotalCost(nl, Swapped(locs, a, b)) - TotalCost(nl, locs)
                                     - 2.0 * Edges(nl, a, b) as real * Dist(locs[a], locs[b])
    ensures Delta(nl, locs, a, b) == TotalCost(nl, Swapped(locs, a, b)) - TotalCost(nl, locs) <==>
            Edges(nl, a, b) == 0 || locs[a] == locs[b]
  {
    hide Cost, Edges, Symmetric, Dist, Twice;
    DeltaIs(nl, locs, a, b);
    DeltaExact(nl, locs, a, b);
    NoLoops(Edges(nl, a, b) as real, Dist(locs[a], locs[b]));
  }

  lemma NoLoops(k: real, d: real)
    ensures (0.0 + 0.0 - 2.0 * k) * d == -(2.0 * k * d)
  {
  }

  /** The elements of a netlist as it is read: blanks, then one connection after another. */
  function Build(n: nat, edges: seq<(nat, nat)>): (nl: seq<Elem>)
    requires forall e :: e in edges ==> e.0 < n && e.1 < n
    ensures |nl| == n
  {
    if edges == [] then seq(n, _ => Elem([], []))
    else
      var e := edges[|edges| - 1];
      assert e in edges;
      Connect(Build(n, edges[..|edges| - 1]), e.0, e.1)
  }

  lemma {:induction false} BuildSymmetric(n: nat, edges: seq<(nat, nat)>)
    requires forall e :: e in edges ==> e.0 < n && e.1 < n
    ensures Symmetric(Build(n, edges))
  {
    if edges != [] {
      var k := |edges| - 1;
      assert edges[k] in edges;
      BuildSymmetric(n, edges[..k]);
      ConnectKeeps(Build(n, edges[..k]), edges[k].0, edges[k].1);
    }
  }

  /** A connection more adds its length to the total. */
  lemma {:induction false} ConnectCost(nl: seq<Elem>, locs: seq<Loc>, u: nat, v: nat)
    requires Placed(nl, locs) && u < |nl| && v < |nl|
    ensures Placed(Connect(nl, u, v), locs)
    ensures TotalCost(Connect(nl, u, v), locs) == TotalCost(nl, locs) + Dist(locs[u], locs[v])
  {
    hide Reach, Dist, Twice, SumTo;
    var nl1 := nl[u := nl[u].(fanin := nl[u].fanin + [v])];
    var nl2 := Connect(nl, u, v);
    ReachMore(nl[u].fanin, v, locs[u], locs);
    ReachMore(nl1[v].fanout, u, locs[v], locs);
    TwiceBySum(nl, locs, |nl|);
    TwiceBySum(nl1, locs, |nl|);
    TwiceBySum(nl2, locs, |nl|);
    SumBut(Rows(nl1, locs), Rows(nl, locs), |nl|, u);
    SumBut(Rows(nl2, locs), Rows(nl1, locs), |nl|, v);
    DistLaws(locs[u], locs[v]);
  }

  lemma ReachMore(ns: seq<nat>, v: nat, p: Loc, locs: seq<Loc>)
    requires InRange(ns, |locs|) && v < |locs|
    ensures InRange(ns + [v], |locs|) && Reach(ns + [v], p, locs) == Reach(ns, p, locs) + Dist(p, locs[v])
  {
    assert (ns + [v])[..|ns|] == ns;
  }

  /** The length of all connections. */
  function Wire(edges: seq<(nat, nat)>, locs: seq<Loc>): real
    requires forall e :: e in edges ==> e.0 < |locs| && e.1 < |locs|
  {
    if edges == [] then 0.0
    else
      var e := edges[|edges| - 1];
      assert e in edges;
      Wire(edges[..|edges| - 1], locs) + Dist(locs[e.0], locs[e.1])
  }

  /** The total cost of a netlist counts every connection once, at its length. */
  lemma {:induction false} TotalIsWire(edges: seq<(nat, nat)>, locs: seq<Loc>)
    requires forall e :: e in edges ==> e.0 < |locs| && e.1 < |locs|
    ensures Placed(Build(|locs|, edges), locs) && TotalCost(Build(|locs|, edges), locs) == Wire(edges, locs)
  {
    hide Dist, Twice;
    var n := |locs|;
    if edges == [] {
      var nl := Build(n, edges);
      assert Placed(nl, locs) && Blank(nl, 0);
      BlanksCostNothing(nl, locs, 0, n);
      TwiceBySum(nl, locs, 0);
    } else {
      var k := |edges| - 1;
      assert edges[k] in edges;
      TotalIsWire(edges[..k], locs);
      ConnectCost(Build(n, edges[..k]), locs, edges[k].0, edges[k].1);
    }
  }

  /** The failure: for two elements joined by one connection the incremental cost of their swap is minus
      twice their distance, while the total cost stays the same. */
  lemma {:induction false} ConnectedPairFails(p: Loc, q: Loc)
    requires p != q
    ensures var nl, locs := Build(2, [(0, 1)]), [p, q];
            && Placed(nl, locs) && Symmetric(nl) && Placed(nl, Swapped(locs, 0, 1))
            && TotalCost(nl, Swapped(locs, 0, 1)) == TotalCost(nl, locs)
            && Delta(nl, locs, 0, 1) == -2.0 * Dist(p, q) != 0.0
  {
    hide Twice, Dist;
    var edges: seq<(nat, nat)> := [(0, 1)];
    assert edges[..0] == [];
    var nl, locs := Build(2, edges), [p, q];
    var blank: seq<Elem> := [Elem([], []), Elem([], [])];
    assert Build(2, []) == blank && nl == Connect(blank, 0, 1);
    assert [] + [1] == [1] && [] + [0] == [0];
    assert nl == [Elem([1], []), Elem([], [0])];
    BuildSymmetric(2, edges);
    PairOnly(nl);
    PairTotal(nl, p, q);
    PairTotal(nl, q, p);
    assert Swapped(locs, 0, 1) == [q, p];
    DeltaWithoutLoops(nl, locs, 0, 1);
    DistLaws(p, q);
  }

  lemma PairOnly(nl: seq<Elem>)
    requires nl == [Elem([1], []), Elem([], [0])]
    ensures Edges(nl, 0, 1) == 1 && Edges(nl, 0, 0) == 0 && Edges(nl, 1, 1) == 0
  {
    assert [1][..0] == [] && [0][..0] == [];
  }

  lemma {:induction false} PairTotal(nl: seq<Elem>, p: Loc, q: Loc)
    requires nl == [Elem([1], []), Elem([], [0])]
    ensures Placed(nl, [p, q]) && TotalCost(nl, [p, q]) == Dist(p, q)
  {
    hide Dist;
    DistLaws(p, q);
    assert [1][..0] == [] && [0][..0] == [];
    assert Cost(nl[0], p, [p, q]) == Dist(p, q) && Cost(nl[1], q, [p, q]) == Dist(q, p);
    assert Twice(nl, [p, q], 1) == Twice(nl, [p, q], 0) + Cost(nl[0], p, [p, q]);
    assert Twice(nl, [p, q], 2) == Twice(nl, [p, q], 1) + Cost(nl[1], q, [p, q]);
  }
}
