/**
 The list of edges a board is routed by (hardware/gen/gen_pcb.py, route_jobs) and what the whole
 router does with it: a finished board joins every net it searched.
 */
module RouteJobs {
  import opened Walks
  import opened SpanningTree
  import RipUp
  import opened Names

  /** A pad where it sits, on the net it carries, "" for none. */
  datatype PadAt = PadAt(x: real, y: real, net: string)

  type Pads = map<string, PadAt>

  function NetPads(pads: Pads, net: string): set<Pad> {
    set id | id in pads && pads[id].net == net :: Pad(id, pads[id].x, pads[id].y)
  }

  /** The nets left to the search: grounds and declared trees are drawn, not searched. */
  function Searched(pads: Pads, trees: set<string>): set<string> {
    set id | id in pads && pads[id].net != "" && pads[id].net != "GND" && pads[id].net !in trees :: pads[id].net
  }

  function TasksOf(net: string, edges: seq<Edge>): (ts: seq<RipUp.Task>)
    ensures |ts| == |edges|
    ensures forall i :: 0 <= i < |edges| ==> ts[i] == RipUp.Task(net, edges[i].a.id, edges[i].b.id)
  {
    seq(|edges|, i requires 0 <= i < |edges| => RipUp.Task(net, edges[i].a.id, edges[i].b.id))
  }

  method ListPads(pads: Pads, net: string) returns (points: seq<Pad>)
    ensures Distinct(points) && Members(points) == NetPads(pads, net)
  {
    points := [];
    var left := pads.Keys;
    while left != {}
      invariant left <= pads.Keys && Distinct(points)
      invariant forall p :: p in points <==> p.id in pads.Keys - left && pads[p.id] == PadAt(p.x, p.y, net)
      decreases |left|
    {
      var id :| id in left;
      if pads[id].net == net {
        points := points + [Pad(id, pads[id].x, pads[id].y)];
      }
      left := left - {id};
    }
    forall p | p in NetPads(pads, net) ensures p in points {}
  }

  /** The order nets are searched in: most pads first, then by name. */
  predicate Sooner(pads: Pads, a: string, b: string) {
    |NetPads(pads, a)| > |NetPads(pads, b)| || (|NetPads(pads, a)| == |NetPads(pads, b)| && Before(a, b))
  }

  lemma {:induction false} SomeSoonest(pads: Pads, nets: set<string>) returns (net: string)
    requires nets != {}
    ensures net in nets && forall o :: o in nets && o != net ==> Sooner(pads, net, o)
    decreases |nets|
  {
    hide NetPads, Before;
    var some :| some in nets;
    if nets == {some} {
      net := some;
    } else {
      var rest := SomeSoonest(pads, nets - {some});
      OneWay(some, rest);
      net := if Sooner(pads, some, rest) then some else rest;
      forall o | o in nets && o != net ensures Sooner(pads, net, o) {
        if o != rest && o != some && net == some {
          assert Sooner(pads, rest, o);
          if Before(some, rest) && Before(rest, o) { BeforeTrans(some, rest, o); }
        }
      }
    }
  }

  /** A net's edges: a tree over its pads, and the lightest way to join them. */
  ghost predicate Planned(pads: Pads, net: string, edges: seq<Edge>) {
    && Joins(edges, NetPads(pads, net)) && NoEdgeSpare(edges, NetPads(pads, net))
    && forall rival :: Joins(rival, NetPads(pads, net)) ==> Total(edges) <= Total(rival)
  }

  /** The jobs are the declared trees and the edges of the plan, nothing else. */
  ghost predicate JobsAre(jobs: seq<RipUp.Task>, trees: seq<RipUp.Task>, plan: map<string, seq<Edge>>) {
    forall t :: t in jobs <==> t in trees || (t.tag in plan && t in TasksOf(t.tag, plan[t.tag]))
  }

  /** The edges of the plan, net after net. */
  function Listed(order: seq<string>, plan: map<string, seq<Edge>>): seq<RipUp.Task> {
    if order == [] then []
    else
      var net := order[|order| - 1];
      Listed(order[..|order| - 1], plan) + if net in plan then TasksOf(net, plan[net]) else []
  }

  lemma ListedNext(order: seq<string>, plan: map<string, seq<Edge>>, net: string, edges: seq<Edge>)
    requires net !in order
    ensures Listed(order + [net], plan[net := edges]) == Listed(order, plan) + TasksOf(net, edges)
  {
    assert (order + [net])[..|order|] == order;
    ListedOther(order, plan, net, edges);
  }

  lemma {:induction false} ListedOther(order: seq<string>, plan: map<string, seq<Edge>>, net: string, edges: seq<Edge>)
    requires net !in order
    ensures Listed(order, plan[net := edges]) == Listed(order, plan)
    decreases |order|
  {
    if order != [] {
      assert order[|order| - 1] in order;
      ListedOther(order[..|order| - 1], plan, net, edges);
    }
  }

  /** Nets come soonest first, ahead of all that are left. */
  ghost predicate SoonestFirst(pads: Pads, order: seq<string>, left: set<string>) {
    && (forall i, j :: 0 <= i < j < |order| ==> Sooner(pads, order[i], order[j]))
    && (forall i, net :: 0 <= i < |order| && net in left ==> Sooner(pads, order[i], net))
  }

  lemma NothingPlanned(pads: Pads, trees: seq<RipUp.Task>, tags: set<string>)
    ensures Planning(pads, trees, tags, Searched(pads, tags), trees, [], map[])
  {
    hide Searched;
    assert trees == trees + Listed([], map[]);
  }

  lemma PlanHolds(pads: Pads, net: string, points: seq<Pad>, edges: seq<Edge>)
    requires Members(points) == NetPads(pads, net)
    requires Joins(edges, Members(points)) && NoEdgeSpare(edges, Members(points))
    requires forall rival :: Joins(rival, Members(points)) ==> Total(edges) <= Total(rival)
    ensures Planned(pads, net, edges)
  {
  }

  lemma JobsNext(jobs: seq<RipUp.Task>, trees: seq<RipUp.Task>, plan: map<string, seq<Edge>>, net: string, edges: seq<Edge>)
    requires JobsAre(jobs, trees, plan) && net !in plan
    ensures JobsAre(jobs + TasksOf(net, edges), trees, plan[net := edges])
  {
    forall t | t in TasksOf(net, edges) ensures t.tag == net {
      var i :| 0 <= i < |edges| && TasksOf(net, edges)[i] == t;
    }
  }

  lemma SoonestNext(pads: Pads, order: seq<string>, left: set<string>, net: string)
    requires SoonestFirst(pads, order, left) && net in left
    requires forall o :: o in left && o != net ==> Sooner(pads, net, o)
    ensures SoonestFirst(pads, order + [net], left - {net})
  {
    hide Sooner;
  }

  /** route_jobs: the declared trees first, then net by net, the ones with most pads first and those
      with as many by name. */
  method RouteJobs(pads: Pads, trees: seq<RipUp.Task>, tags: set<string>)
    returns (jobs: seq<RipUp.Task>, order: seq<string>, plan: map<string, seq<Edge>>)
    ensures jobs == trees + Listed(order, plan) && Distinct(order)
    ensures plan.Keys == Searched(pads, tags) && forall net :: net in plan ==> Planned(pads, net, plan[net])
    ensures forall net :: net in order <==> net in plan
    ensures forall net :: net in plan <==> net != "" && net != "GND" && net !in tags && exists id :: id in pads && pads[id].net == net
    ensures SoonestFirst(pads, order, {}) && JobsAre(jobs, trees, plan)
  {
    hide NetPads, TasksOf, Searched, Listed, Planning, Sooner;
    jobs, order, plan := trees, [], map[];
    var left := Searched(pads, tags);
    NothingPlanned(pads, trees, tags);
    while left != {}
      invariant Planning(pads, trees, tags, left, jobs, order, plan)
      decreases |left|
    {
      ghost var some := SomeSoonest(pads, left);
      var net :| net in left && forall o :: o in left && o != net ==> Sooner(pads, net, o);
      var points := ListPads(pads, net);
      var edges := SpanningEdges(points);
      PlanNext(pads, trees, tags, left, jobs, order, plan, net, points, edges);
      jobs := jobs + TasksOf(net, edges);
      order, plan, left := order + [net], plan[net := edges], left - {net};
    }
    AllPlanned(pads, trees, tags, jobs, order, plan);
    SearchedAre(pads, tags);
  }

  lemma SearchedAre(pads: Pads, tags: set<string>)
    ensures forall net :: net in Searched(pads, tags) <==>
      net != "" && net != "GND" && net !in tags && exists id :: id in pads && pads[id].net == net
  {
  }

  /** The order of the nets, spelled out. */
  lemma OrderIs(pads: Pads, order: seq<string>, i: nat, j: nat)
    requires SoonestFirst(pads, order, {}) && i < j < |order|
    ensures |NetPads(pads, order[i])| >= |NetPads(pads, order[j])|
    ensures |NetPads(pads, order[i])| == |NetPads(pads, order[j])| ==> Before(order[i], order[j])
  {
  }

  /** A net's pads are those that carry it, where they sit. */
  lemma NetPadsAre(pads: Pads, net: string, p: Pad)
    ensures p in NetPads(pads, net) <==> p.id in pads && pads[p.id] == PadAt(p.x, p.y, net)
  {
  }

  /** The list of edges once every net but those `left` has been planned. */
  ghost predicate Planning(pads: Pads, trees: seq<RipUp.Task>, tags: set<string>, left: set<string>,
                           jobs: seq<RipUp.Task>, order: seq<string>, plan: map<string, seq<Edge>>) {
    && jobs == trees + Listed(order, plan) && Distinct(order)
    && left <= Searched(pads, tags) && plan.Keys == Searched(pads, tags) - left
    && (forall net :: net in plan ==> Planned(pads, net, plan[net]))
    && (forall net :: net in order <==> net in plan)
    && SoonestFirst(pads, order, left) && JobsAre(jobs, trees, plan)
  }

  lemma PlanNext(pads: Pads, trees: seq<RipUp.Task>, tags: set<string>, left: set<string>, jobs: seq<RipUp.Task>,
                 order: seq<string>, plan: map<string, seq<Edge>>, net: string, points: seq<Pad>, edges: seq<Edge>)
    requires Planning(pads, trees, tags, left, jobs, order, plan)
    requires net in left && forall o :: o in left && o != net ==> Sooner(pads, net, o)
    requires Members(points) == NetPads(pads, net)
    requires Joins(edges, Members(points)) && NoEdgeSpare(edges, Members(points))
    requires forall rival :: Joins(rival, Members(points)) ==> Total(edges) <= Total(rival)
    ensures Planning(pads, trees, tags, left - {net}, jobs + TasksOf(net, edges), order + [net], plan[net := edges])
  {
    hide Planned, NetPads, Sooner, JobsAre, SoonestFirst, TasksOf, Searched, Listed, Joins, NoEdgeSpare, Total, Members;
    PlanHolds(pads, net, points, edges);
    JobsNext(jobs, trees, plan, net, edges);
    ListedNext(order, plan, net, edges);
    SoonestNext(pads, order, left, net);
    assert jobs + TasksOf(net, edges) == trees + Listed(order + [net], plan[net := edges]);
  }

  lemma AllPlanned(pads: Pads, trees: seq<RipUp.Task>, tags: set<string>, jobs: seq<RipUp.Task>, order: seq<string>,
                   plan: map<string, seq<Edge>>)
    requires Planning(pads, trees, tags, {}, jobs, order, plan)
    ensures jobs == trees + Listed(order, plan) && Distinct(order)
    ensures plan.Keys == Searched(pads, tags) && forall net :: net in plan ==> Planned(pads, net, plan[net])
    ensures forall net :: net in order <==> net in plan
    ensures SoonestFirst(pads, order, {}) && JobsAre(jobs, trees, plan)
  {
    hide Planned, NetPads, Sooner, JobsAre, SoonestFirst, Searched, Listed;
  }

  // ----- the finished board ------------------------------------------------------------------------

  /** The pads a laid run of one tag joins. */
  ghost function LaidLinks(placed: seq<RipUp.Run>, tag: string): set<(string, string)> {
    set r | r in placed && r.task.tag == tag :: (r.task.src, r.task.dst)
  }

  function IdsOf(p: seq<Pad>): (ids: seq<string>)
    ensures |ids| == |p| && forall i :: 0 <= i < |p| ==> ids[i] == p[i].id
  {
    seq(|p|, i requires 0 <= i < |p| => p[i].id)
  }

  lemma PlanIsLaid(placed: seq<RipUp.Run>, jobs: seq<RipUp.Task>, net: string, edges: seq<Edge>, u: Pad, v: Pad)
    requires multiset(RipUp.Tasks(placed)) == multiset(jobs)
    requires forall t :: t in TasksOf(net, edges) ==> t in jobs
    requires Linked(Pairs(edges), u, v)
    ensures Linked(LaidLinks(placed, net), u.id, v.id)
  {
    var laid := LaidLinks(placed, net);
    var p :| WalkFrom(Pairs(edges), p, u, v);
    var ids := IdsOf(p);
    forall k | 0 < k < |ids| ensures Touch(laid, ids[k - 1], ids[k]) {
      assert Touch(Pairs(edges), p[k - 1], p[k]);
      PairsOf(edges);
      var e := if Edge(p[k - 1], p[k]) in edges then Edge(p[k - 1], p[k]) else Edge(p[k], p[k - 1]);
      TaskIsLaid(placed, jobs, net, edges, e);
    }
    assert WalkFrom(laid, ids, u.id, v.id);
  }

  lemma TaskIsLaid(placed: seq<RipUp.Run>, jobs: seq<RipUp.Task>, net: string, edges: seq<Edge>, e: Edge)
    requires multiset(RipUp.Tasks(placed)) == multiset(jobs) && e in edges
    requires forall t :: t in TasksOf(net, edges) ==> t in jobs
    ensures (e.a.id, e.b.id) in LaidLinks(placed, net)
  {
    var i :| 0 <= i < |edges| && edges[i] == e;
    var t := TasksOf(net, edges)[i];
    assert t in TasksOf(net, edges) && t in multiset(jobs);
    assert t in RipUp.Tasks(placed);
    var k :| 0 <= k < |placed| && placed[k].task == t;
    assert placed[k] in placed;
  }

  /** From pads to copper: if the router finishes, any two pads of a searched net are joined by laid
      runs of that net, each on a trail that fits among the runs laid before it. */
  method DrawBoard(b: RipUp.Board, pads: Pads, trees: seq<RipUp.Task>) returns (out: RipUp.Outcome)
    requires b.Valid() && (forall id :: id in pads ==> id in b.nets)
    requires forall t :: t in trees ==> t.src in b.nets && t.dst in b.nets
    ensures out.Laid? ==> RipUp.Layered(b, out.placed)
    ensures out.Laid? ==> RipUp.AllClear(b, out.placed)
    ensures out.Laid? ==> forall net, u, v ::
      net in Searched(pads, b.trees) && u in NetPads(pads, net) && v in NetPads(pads, net) ==>
        Linked(LaidLinks(out.placed, net), u.id, v.id)
  {
    hide Linked;
    var jobs, order, plan := RouteJobs(pads, trees, b.trees);
    forall t | t in jobs ensures t.src in b.nets && t.dst in b.nets {
      if t !in trees { PlannedPads(pads, t, plan[t.tag]); }
    }
    var searches;
    ghost var turns;
    out, searches, turns := RipUp.RouteBoard(b, jobs);
    if out.Laid? {
      forall net, u, v | net in Searched(pads, b.trees) && u in NetPads(pads, net) && v in NetPads(pads, net)
        ensures Linked(LaidLinks(out.placed, net), u.id, v.id)
      {
        assert Planned(pads, net, plan[net]);
        forall t | t in TasksOf(net, plan[net]) ensures t in jobs {}
        PlanIsLaid(out.placed, jobs, net, plan[net], u, v);
      }
    }
  }

  lemma PlannedPads(pads: Pads, t: RipUp.Task, edges: seq<Edge>)
    requires Planned(pads, t.tag, edges) && t in TasksOf(t.tag, edges)
    ensures t.src in pads && t.dst in pads
  {
    var i :| 0 <= i < |edges| && t == TasksOf(t.tag, edges)[i];
    assert edges[i] in edges;
  }
}
