/**
 Joining the pads of one net with the least total track (hardware/gen/gen_pcb.py,
 spanning_edges).  What a set of edges connects is said with walks; the result is compared with
 every other list of edges between the same pads.
 */
module SpanningTree {
  import opened Walks

  datatype Pad = Pad(id: string, x: real, y: real)

  datatype Edge = Edge(a: Pad, b: Pad)

  function Weight(e: Edge): real {
    (e.a.x - e.b.x) * (e.a.x - e.b.x) + (e.a.y - e.b.y) * (e.a.y - e.b.y)
  }

  function Total(es: seq<Edge>): real {
    if es == [] then 0.0 else Weight(es[0]) + Total(es[1..])
  }

  function Pairs(es: seq<Edge>): set<(Pad, Pad)> { set e | e in es :: (e.a, e.b) }

  lemma PairsOf(es: seq<Edge>)
    ensures forall u, v :: (u, v) in Pairs(es) <==> Edge(u, v) in es
  {
    forall u, v | Edge(u, v) in es ensures (u, v) in Pairs(es) {
      assert (Edge(u, v).a, Edge(u, v).b) in Pairs(es);
    }
  }

  ghost predicate Spans(es: seq<Edge>, pads: set<Pad>) {
    forall u, v :: u in pads && v in pads ==> Linked(Pairs(es), u, v)
  }

  predicate Between(es: seq<Edge>, pads: set<Pad>) {
    forall e :: e in es ==> e.a in pads && e.b in pads
  }

  /** A way to join the pads: edges between them that connect them all. */
  ghost predicate Joins(es: seq<Edge>, pads: set<Pad>) {
    Between(es, pads) && Spans(es, pads)
  }

  // ----- weights ---------------------------------------------------------------------------

  lemma {:induction false} TotalSplit(xs: seq<Edge>, ys: seq<Edge>)
    ensures Total(xs + ys) == Total(xs) + Total(ys)
    decreases |xs|
  {
    if xs == [] {
      assert xs + ys == ys;
    } else {
      assert (xs + ys)[1..] == xs[1..] + ys;
      TotalSplit(xs[1..], ys);
    }
  }

  lemma WeightPositive(e: Edge)
    ensures Weight(e) >= 0.0
  {
    Square(e.a.x - e.b.x);
    Square(e.a.y - e.b.y);
  }

  lemma Square(x: real)
    ensures x * x >= 0.0
  {
  }

  lemma {:induction false} TotalPositive(es: seq<Edge>)
    ensures Total(es) >= 0.0
    decreases |es|
  {
    if es != [] {
      WeightPositive(es[0]);
      TotalPositive(es[1..]);
    }
  }

  // ----- the exchange ----------------------------------------------------------------------

  predicate Crosses(e: Edge, side: set<Pad>) {
    (e.a in side) != (e.b in side)
  }

  function Without(es: seq<Edge>, k: nat): seq<Edge>
    requires k < |es|
  {
    es[..k] + es[k + 1..]
  }

  /** Some edge of `rest` leaves `side` and may be traded for any edge `e` that leaves it too. */
  lemma Exchange(tree: seq<Edge>, rest: seq<Edge>, side: set<Pad>, pads: set<Pad>, e: Edge) returns (k: nat)
    requires Joins(tree + rest, pads) && Between(tree, side)
    requires e.a in side && e.b !in side && e.a in pads && e.b in pads
    ensures k < |rest| && Crosses(rest[k], side)
    ensures Joins(tree + [e] + Without(rest, k), pads)
  {
    var all := Pairs(tree + rest);
    PairsOf(tree + rest);
    assert Linked(all, e.a, e.b);
    var some :| WalkFrom(all, some, e.a, e.b);
    var p := SimpleWalk(all, some, e.a, e.b);
    var m := LeavesAt(p, side);
    var c, d := p[m - 1], p[m];
    assert Touch(all, c, d);
    var gone := if Edge(c, d) in tree + rest then Edge(c, d) else Edge(d, c);
    assert gone in tree + rest && gone !in tree;
    k :| 0 <= k < |rest| && rest[k] == gone;
    var swapped := Pairs(tree + [e] + Without(rest, k));
    forall u, v | Touch(all, u, v) && {u, v} != {c, d} ensures Touch(swapped, u, v) {
      Survives(tree, rest, k, e, u, v);
    }
    assert Linked(swapped, e.a, c) by {
      var head := p[..m];
      forall i | 0 < i < |head| ensures Touch(swapped, head[i - 1], head[i]) {
        assert Touch(all, p[i - 1], p[i]);
        assert p[i - 1] != d && p[i] != d;
      }
      assert WalkFrom(swapped, head, e.a, c);
    }
    assert Linked(swapped, d, e.b) by {
      var tail := p[m..];
      forall i | 0 < i < |tail| ensures Touch(swapped, tail[i - 1], tail[i]) {
        assert Touch(all, p[m + i - 1], p[m + i]);
        assert p[m + i - 1] != c && p[m + i] != c;
      }
      assert WalkFrom(swapped, tail, d, e.b);
    }
    assert Linked(swapped, e.a, e.b) by {
      PairsOf(tree + [e] + Without(rest, k));
      assert e in tree + [e] + Without(rest, k);
      LinkedStep(swapped, e.a, e.b);
    }
    Bridge(swapped, c, e.a, e.b, d);
    forall u, v | u in pads && v in pads ensures Linked(swapped, u, v) {
      assert Linked(all, u, v);
      var q :| WalkFrom(all, q, u, v);
      forall i | 0 < i < |q| ensures Linked(swapped, q[i - 1], q[i]) {
        assert Touch(all, q[i - 1], q[i]);
        if {q[i - 1], q[i]} != {c, d} {
          LinkedStep(swapped, q[i - 1], q[i]);
        } else if q[i - 1] == q[i] {
          LinkedSelf(swapped, q[i]);
        } else {
          assert (q[i - 1] == c && q[i] == d) || (q[i - 1] == d && q[i] == c);
        }
      }
      WalkBridged(all, swapped, q);
    }
    assert Between(tree + [e] + Without(rest, k), pads) by {
      forall f | f in tree + [e] + Without(rest, k) ensures f.a in pads && f.b in pads {
        assert f in tree + rest || f == e;
      }
    }
  }

  lemma Survives(tree: seq<Edge>, rest: seq<Edge>, k: nat, e: Edge, u: Pad, v: Pad)
    requires k < |rest| && Touch(Pairs(tree + rest), u, v) && {u, v} != {rest[k].a, rest[k].b}
    ensures Touch(Pairs(tree + [e] + Without(rest, k)), u, v)
  {
    PairsOf(tree + rest);
    PairsOf(tree + [e] + Without(rest, k));
    var f := if Edge(u, v) in tree + rest then Edge(u, v) else Edge(v, u);
    assert f in tree || f in rest;
    if f !in tree {
      var i :| 0 <= i < |rest| && rest[i] == f;
      assert i != k;
      assert Without(rest, k)[if i < k then i else i - 1] == f;
    }
    assert f in tree + [e] + Without(rest, k);
  }

  lemma Bridge(es: set<(Pad, Pad)>, c: Pad, a: Pad, b: Pad, d: Pad)
    requires Linked(es, a, c) && Linked(es, a, b) && Linked(es, d, b)
    ensures Linked(es, c, d) && Linked(es, d, c)
  {
    LinkedBack(es, a, c);
    LinkedBack(es, d, b);
    LinkedTrans(es, c, a, b);
    LinkedTrans(es, c, b, d);
    LinkedBack(es, c, d);
  }

  // ----- how few edges can join the pads ---------------------------------------------------

  predicate Inside(es: seq<Edge>, used: set<nat>, side: set<Pad>) {
    forall k :: k in used ==> k < |es| && es[k].a in side && es[k].b in side
  }

  /** Reaching one more pad always takes an edge not used yet. */
  lemma {:induction false} GrowSide(es: seq<Edge>, pads: set<Pad>, side: set<Pad>, used: set<nat>)
    requires Joins(es, pads) && side <= pads && side != {} && Inside(es, used, side)
    requires |used| == |side| - 1
    ensures |pads| - 1 <= |es|
    decreases pads - side
  {
    if side == pads {
      IndexesFit(used, |es|);
    } else {
      var u :| u in side;
      var v :| v in pads && v !in side;
      assert Linked(Pairs(es), u, v);
      var p :| WalkFrom(Pairs(es), p, u, v);
      var m := LeavesAt(p, side);
      assert Touch(Pairs(es), p[m - 1], p[m]);
      PairsOf(es);
      var gone := if Edge(p[m - 1], p[m]) in es then Edge(p[m - 1], p[m]) else Edge(p[m], p[m - 1]);
      var k: nat :| k < |es| && es[k] == gone;
      assert k !in used;
      assert |used + {k}| == |used| + 1;
      assert |side + {p[m]}| == |side| + 1;
      GrowSide(es, pads, side + {p[m]}, used + {k});
    }
  }

  lemma {:induction false} IndexesFit(used: set<nat>, top: nat)
    requires forall k :: k in used ==> k < top
    ensures |used| <= top
    decreases top
  {
    if top > 0 {
      if top - 1 in used {
        IndexesFit(used - {top - 1}, top - 1);
      } else {
        IndexesFit(used, top - 1);
      }
    } else {
      assert forall k :: k !in used;
    }
  }

  /** Joining n pads takes n - 1 edges at least. */
  lemma FewestEdges(es: seq<Edge>, pads: set<Pad>)
    requires pads != {} && Joins(es, pads)
    ensures |pads| - 1 <= |es|
  {
    var u :| u in pads;
    GrowSide(es, pads, {u}, {});
  }

  /** No edge of a joining list is spare: with one less, some two pads part.  An edge on a cycle
      would be spare, so there is no cycle. */
  ghost predicate NoEdgeSpare(es: seq<Edge>, pads: set<Pad>) {
    forall k :: 0 <= k < |es| ==> !Spans(Without(es, k), pads)
  }

  lemma TreeHasNoCycle(es: seq<Edge>, pads: set<Pad>)
    requires pads != {} && Joins(es, pads) && |es| == |pads| - 1
    ensures NoEdgeSpare(es, pads)
  {
    forall k | 0 <= k < |es| ensures !Spans(Without(es, k), pads) {
      var less := Without(es, k);
      if Spans(less, pads) {
        FewestEdges(less, pads);
      }
    }
  }

  // ----- Prim --------------------------------------------------------------------------------

  function Members(pads: seq<Pad>): set<Pad> { set p | p in pads }

  /** The edges laid so far can still grow into something no heavier than `rival`. */
  ghost predicate Promising(tree: seq<Edge>, pads: set<Pad>, rival: seq<Edge>) {
    exists rest :: Joins(tree + rest, pads) && Total(tree + rest) <= Total(rival)
  }

  /** Laying the lightest edge that leaves the inside keeps the promise. */
  lemma LightestKeepsPromise(tree: seq<Edge>, side: set<Pad>, pads: set<Pad>, e: Edge, rival: seq<Edge>)
    requires Promising(tree, pads, rival) && Between(tree, side) && side <= pads
    requires e.a in side && e.b in pads - side
    requires forall u, v :: u in side && v in pads - side ==> Weight(e) <= Weight(Edge(u, v))
    ensures Promising(tree + [e], pads, rival)
  {
    var rest :| Joins(tree + rest, pads) && Total(tree + rest) <= Total(rival);
    var k := Exchange(tree, rest, side, pads, e);
    var out := rest[k];
    assert out in tree + rest;
    assert Weight(e) <= Weight(out) by {
      if out.a in side {
        assert Weight(e) <= Weight(Edge(out.a, out.b));
      } else {
        assert Weight(Edge(out.b, out.a)) == Weight(out) by { SameBothWays(out); }
      }
    }
    TotalSplit(tree, rest);
    assert rest == rest[..k] + ([out] + rest[k + 1..]);
    TotalSplit(rest[..k], [out] + rest[k + 1..]);
    TotalSplit([out], rest[k + 1..]);
    TotalSplit(tree + [e], Without(rest, k));
    TotalSplit(tree, [e]);
    TotalSplit(rest[..k], rest[k + 1..]);
    assert Total([out]) == Weight(out) && Total([e]) == Weight(e);
  }

  lemma SameBothWays(e: Edge)
    ensures Weight(Edge(e.b, e.a)) == Weight(e)
  {
    Opposite(e.a.x, e.b.x);
    Opposite(e.a.y, e.b.y);
  }

  lemma Opposite(x: real, y: real)
    ensures (x - y) * (x - y) == (y - x) * (y - x)
  {
  }

  /** `e` is no heavier than any edge from the inside to the outside. */
  predicate Lightest(e: Edge, inside: seq<Pad>, outside: seq<Pad>) {
    && e.a in inside && e.b in outside
    && forall i, j :: 0 <= i < |inside| && 0 <= j < |outside| ==> Weight(e) <= Weight(Edge(inside[i], outside[j]))
  }

  /** A lightest edge that leaves the inside. */
  method PickLightest(inside: seq<Pad>, outside: seq<Pad>) returns (best: Edge)
    requires inside != [] && outside != []
    ensures Lightest(best, inside, outside)
  {
    best := Edge(inside[0], outside[0]);
    for i := 0 to |inside|
      invariant best.a in inside && best.b in outside
      invariant forall u, v :: 0 <= u < i && 0 <= v < |outside| ==> Weight(best) <= Weight(Edge(inside[u], outside[v]))
    {
      for k := 0 to |outside|
        invariant best.a in inside && best.b in outside
        invariant forall u, v :: 0 <= u < i && 0 <= v < |outside| ==> Weight(best) <= Weight(Edge(inside[u], outside[v]))
        invariant forall v :: 0 <= v < k ==> Weight(best) <= Weight(Edge(inside[i], outside[v]))
      {
        if Weight(Edge(inside[i], outside[k])) < Weight(best) {
          best := Edge(inside[i], outside[k]);
        }
      }
    }
  }

  method RemoveFirst(pads: seq<Pad>, p: Pad) returns (rest: seq<Pad>)
    requires p in pads && Distinct(pads)
    ensures Distinct(rest) && |rest| == |pads| - 1
    ensures Members(rest) == Members(pads) - {p}
  {
    var k := 0;
    while pads[k] != p
      invariant k < |pads| && p !in pads[..k]
      decreases |pads| - k
    {
      k := k + 1;
    }
    rest := pads[..k] + pads[k + 1..];
    forall q | q in pads && q != p ensures q in rest {
      var i :| 0 <= i < |pads| && pads[i] == q;
      assert rest[if i < k then i else i - 1] == q;
    }
  }

  lemma {:induction false} DistinctCount(p: seq<Pad>)
    requires Distinct(p)
    ensures |Members(p)| == |p|
    decreases |p|
  {
    if p != [] {
      DistinctCount(p[1..]);
      assert Members(p) == Members(p[1..]) + {p[0]};
    }
  }

  lemma SpansMore(es: seq<Edge>, side: set<Pad>, e: Edge)
    requires Spans(es, side) && e.a in side
    ensures Spans(es + [e], side + {e.b})
  {
    var more := Pairs(es + [e]);
    PairsOf(es);
    PairsOf(es + [e]);
    assert e in es + [e];
    LinkedStep(more, e.a, e.b);
    LinkedSelf(more, e.b);
    forall u | u in side ensures Linked(more, u, e.b) && Linked(more, e.b, u) {
      assert Linked(Pairs(es), u, e.a);
      LinkedMore(Pairs(es), more, u, e.a);
      LinkedTrans(more, u, e.a, e.b);
      LinkedBack(more, u, e.b);
    }
    forall u, v | u in side && v in side ensures Linked(more, u, v) {
      assert Linked(Pairs(es), u, v);
      LinkedMore(Pairs(es), more, u, v);
    }
  }

  /** spanning_edges: the edges join every pad, there is one less of them than pads so no cycle,
      and no other edges between the same pads join them with less. */
  method SpanningEdges(points: seq<Pad>) returns (edges: seq<Edge>)
    requires Distinct(points)
    ensures |edges| == if points == [] then 0 else |points| - 1
    ensures Joins(edges, Members(points)) && NoEdgeSpare(edges, Members(points))
    ensures forall rival :: Joins(rival, Members(points)) ==> Total(edges) <= Total(rival)
  {
    hide Linked, Promising, Weight, Distinct, Between;
    ghost var pads := Members(points);
    edges := [];
    if |points| < 2 {
      FewSpan(points);
      return;
    }
    var inside, outside := [points[0]], points[1..];
    DistinctTail(points);
    StartPromising(pads);
    OneSpans(points[0]);
    while outside != []
      invariant inside != [] && Distinct(outside) && Members(inside) !! Members(outside)
      invariant Members(inside) + Members(outside) == pads
      invariant |edges| == |inside| - 1 && |inside| + |outside| == |points|
      invariant Between(edges, Members(inside)) && Spans(edges, Members(inside))
      invariant forall rival :: Joins(rival, pads) ==> Promising(edges, pads, rival)
      decreases |outside|
    {
      var best := PickLightest(inside, outside);
      AllKeepPromise(edges, inside, outside, pads, best);
      SpansMore(edges, Members(inside), best);
      MembersAdd(inside, best.b);
      BetweenMore(edges, Members(inside), best);
      edges := edges + [best];
      outside := RemoveFirst(outside, best.b);
      inside := inside + [best.b];
    }
    assert Members(inside) == pads;
    DistinctCount(points);
    TreeHasNoCycle(edges, pads);
    forall rival | Joins(rival, pads) ensures Total(edges) <= Total(rival) {
      PromiseKept(edges, pads, rival);
    }
  }

  lemma AllKeepPromise(edges: seq<Edge>, inside: seq<Pad>, outside: seq<Pad>, pads: set<Pad>, best: Edge)
    requires Lightest(best, inside, outside) && Between(edges, Members(inside))
    requires Members(inside) !! Members(outside) && Members(inside) + Members(outside) == pads
    requires forall rival :: Joins(rival, pads) ==> Promising(edges, pads, rival)
    ensures forall rival :: Joins(rival, pads) ==> Promising(edges + [best], pads, rival)
  {
    hide Promising, Joins, Weight;
    LightestOfSets(best, inside, outside);
    assert pads - Members(inside) == Members(outside);
    forall rival | Joins(rival, pads) ensures Promising(edges + [best], pads, rival) {
      LightestKeepsPromise(edges, Members(inside), pads, best, rival);
    }
  }

  lemma MembersAdd(pads: seq<Pad>, p: Pad)
    ensures Members(pads + [p]) == Members(pads) + {p}
  {
  }

  lemma BetweenMore(es: seq<Edge>, side: set<Pad>, e: Edge)
    requires Between(es, side) && e.a in side
    ensures Between(es + [e], side + {e.b})
  {
  }

  lemma DistinctTail(points: seq<Pad>)
    requires points != [] && Distinct(points)
    ensures Distinct(points[1..]) && Members([points[0]]) !! Members(points[1..])
    ensures Members([points[0]]) + Members(points[1..]) == Members(points)
  {
  }

  lemma OneSpans(p: Pad)
    ensures Spans([], Members([p])) && Between([], Members([p]))
  {
    LinkedSelf(Pairs([]), p);
  }

  lemma FewSpan(points: seq<Pad>)
    requires |points| < 2
    ensures Joins([], Members(points)) && NoEdgeSpare([], Members(points))
    ensures forall rival :: Total([]) <= Total(rival)
  {
    forall u, v | u in Members(points) && v in Members(points) ensures Linked(Pairs([]), u, v) { LinkedSelf(Pairs([]), u); }
    forall rival ensures Total([]) <= Total(rival) { TotalPositive(rival); }
  }

  lemma StartPromising(pads: set<Pad>)
    ensures forall rival :: Joins(rival, pads) ==> Promising([], pads, rival)
  {
    forall rival | Joins(rival, pads) ensures Promising([], pads, rival) {
      assert [] + rival == rival;
    }
  }

  lemma LightestOfSets(e: Edge, inside: seq<Pad>, outside: seq<Pad>)
    requires Lightest(e, inside, outside)
    ensures forall u, v :: u in Members(inside) && v in Members(outside) ==> Weight(e) <= Weight(Edge(u, v))
  {
    forall u, v | u in Members(inside) && v in Members(outside) ensures Weight(e) <= Weight(Edge(u, v)) {
      var i :| 0 <= i < |inside| && inside[i] == u;
      var k :| 0 <= k < |outside| && outside[k] == v;
    }
  }

  lemma PromiseKept(tree: seq<Edge>, pads: set<Pad>, rival: seq<Edge>)
    requires Promising(tree, pads, rival)
    ensures Total(tree) <= Total(rival)
  {
    var rest :| Joins(tree + rest, pads) && Total(tree + rest) <= Total(rival);
    TotalSplit(tree, rest);
    TotalPositive(rest);
  }

  // ----- weight, spelled out ------------------------------------------------------------------

  /** Edges compare as the straight distances between their pads do, and a list weighs what its edges
      weigh together. */
  lemma WeightOrders(e: Edge, f: Edge, d: real, g: real)
    requires d >= 0.0 && d * d == (e.b.x - e.a.x) * (e.b.x - e.a.x) + (e.b.y - e.a.y) * (e.b.y - e.a.y)
    requires g >= 0.0 && g * g == (f.b.x - f.a.x) * (f.b.x - f.a.x) + (f.b.y - f.a.y) * (f.b.y - f.a.y)
    ensures Weight(e) == d * d && Total([e]) == d * d && Total([e, f]) == d * d + g * g
    ensures Weight(e) <= Weight(f) <==> d <= g
  {
    assert [e, f][1..] == [f] && [f][1..] == [] && [e][1..] == [];
    assert Total([f]) == Weight(f) + Total([]);
    Backwards(e.a.x, e.b.x);
    Backwards(e.a.y, e.b.y);
    Backwards(f.a.x, f.b.x);
    Backwards(f.a.y, f.b.y);
    SquareOrders(d, g);
  }

  lemma Backwards(x: real, y: real)
    ensures (x - y) * (x - y) == (y - x) * (y - x)
  {
  }

  lemma SquareOrders(d: real, g: real)
    requires d >= 0.0 && g >= 0.0
    ensures d * d <= g * g <==> d <= g
  {
    if d <= g {
      assert d * d <= d * g <= g * g;
    } else {
      Positive(d - g, d + g);
      assert (d - g) * (d + g) == d * d - g * g;
    }
  }

  lemma Positive(x: real, y: real)
    requires x > 0.0 && y > 0.0
    ensures x * y > 0.0
  {
  }
}
