/**
 The firmware layer checker (tools/check_layers.py): every dependency must point strictly down
 the layer table, and a three-colour walk looks for dependency cycles.  Names are visited in
 sorted order.
 */
module LayerCheck {
  import opened Names

  type Graph = map<string, set<string>>

  // ----- closed walks ------------------------------------------------------------------------

  /** A dependency between two components of the graph. */
  predicate Edge(g: Graph, a: string, b: string) {
    a in g && b in g && b in g[a]
  }

  predicate Chain(g: Graph, p: seq<string>) {
    |p| > 0 && forall k :: 0 < k < |p| ==> Edge(g, p[k - 1], p[k])
  }

  /** A walk along dependencies that ends where it began. */
  predicate ClosedWalk(g: Graph, p: seq<string>) {
    |p| > 1 && Chain(g, p) && p[0] == p[|p| - 1]
  }

  ghost predicate Acyclic(g: Graph) {
    forall p :: !ClosedWalk(g, p)
  }

  /** If every dependency lowers a rank, no walk returns. */
  lemma {:induction false} RankFalls(g: Graph, p: seq<string>, rank: map<string, nat>)
    requires Chain(g, p) && |p| > 1
    requires forall a, b :: Edge(g, a, b) ==> a in rank && b in rank && rank[b] < rank[a]
    ensures p[0] in rank && p[|p| - 1] in rank && rank[p[|p| - 1]] < rank[p[0]]
    decreases |p|
  {
    assert Edge(g, p[0], p[1]);
    if |p| > 2 {
      var rest := p[1..];
      forall k | 0 < k < |rest| ensures Edge(g, rest[k - 1], rest[k]) { assert Edge(g, p[k], p[k + 1]); }
      RankFalls(g, rest, rank);
    }
  }

  lemma RankedIsAcyclic(g: Graph, rank: map<string, nat>)
    requires forall a, b :: Edge(g, a, b) ==> a in rank && b in rank && rank[b] < rank[a]
    ensures Acyclic(g)
  {
    forall p ensures !ClosedWalk(g, p) {
      if ClosedWalk(g, p) { RankFalls(g, p, rank); }
    }
  }

  // ----- the layer table -----------------------------------------------------------------------

  datatype Table = Table(layers: map<string, nat>, forbidden: set<(string, string)>)

  datatype Fault = Absent | Forbidden(dep: string) | Sideways(dep: string) | Upward(dep: string) | Cycle(walk: seq<string>)

  datatype Problem = Problem(component: string, fault: Fault)

  /** What check_graph says of one dependency of a component in the table, if anything. */
  function FaultOf(t: Table, component: string, dep: string): seq<Fault>
    requires component in t.layers
  {
    if dep !in t.layers then []
    else if (component, dep) in t.forbidden then [Forbidden(dep)]
    else if t.layers[dep] == t.layers[component] then [Sideways(dep)]
    else if t.layers[dep] > t.layers[component] then [Upward(dep)]
    else []
  }

  /** Each fault says what is wrong, and is said only of that. */
  lemma FaultTells(t: Table, component: string, dep: string)
    requires component in t.layers
    ensures FaultOf(t, component, dep) == [Forbidden(dep)] <==> dep in t.layers && (component, dep) in t.forbidden
    ensures FaultOf(t, component, dep) == [Sideways(dep)] <==>
      dep in t.layers && (component, dep) !in t.forbidden && t.layers[dep] == t.layers[component]
    ensures FaultOf(t, component, dep) == [Upward(dep)] <==>
      dep in t.layers && (component, dep) !in t.forbidden && t.layers[dep] > t.layers[component]
    ensures FaultOf(t, component, dep) == [] <==>
      dep !in t.layers || ((component, dep) !in t.forbidden && t.layers[dep] < t.layers[component])
  {
  }

  /** A component that keeps every rule of section 4.5.4. */
  ghost predicate Keeps(t: Table, g: Graph, component: string)
    requires component in g
  {
    && component in t.layers
    && forall dep :: dep in g[component] && dep in t.layers ==>
         (component, dep) !in t.forbidden && t.layers[dep] < t.layers[component]
  }

  /** Everything check_graph has to say of a graph. */
  ghost predicate Reported(t: Table, g: Graph, p: Problem) {
    && p.component in g
    && (if p.component !in t.layers then p.fault == Absent
        else exists dep :: dep in g[p.component] && FaultOf(t, p.component, dep) == [p.fault])
  }

  /** The dependency a problem is about, none for a component the table leaves out. */
  function DepOf(p: Problem): string {
    match p.fault
    case Forbidden(dep) => dep
    case Sideways(dep) => dep
    case Upward(dep) => dep
    case _ => ""
  }

  /** By component, then by dependency. */
  predicate Ahead(p: Problem, q: Problem) {
    Before(p.component, q.component) || (p.component == q.component && Before(DepOf(p), DepOf(q)))
  }

  predicate InOrder(problems: seq<Problem>) {
    forall i, j :: 0 <= i < j < |problems| ==> Ahead(problems[i], problems[j])
  }

  lemma OrderMore(problems: seq<Problem>, more: seq<Problem>)
    requires InOrder(problems) && InOrder(more)
    requires forall p, q :: p in problems && q in more ==> Ahead(p, q)
    ensures InOrder(problems + more)
  {
  }

  /** check_graph: it reports every broken rule once and nothing else, in order of component and
      dependency, so it is silent exactly when every component keeps the rules. */
  method CheckGraph(t: Table, g: Graph) returns (problems: seq<Problem>)
    ensures forall p :: p in problems <==> Reported(t, g, p)
    ensures InOrder(problems)
    ensures problems == [] <==> forall c :: c in g ==> Keeps(t, g, c)
  {
    hide Before, InOrder, Ahead;
    problems := [];
    var order := Sorted(g.Keys);
    NoneInOrder();
    for i := 0 to |order|
      invariant forall p :: p in problems <==> Reported(t, g, p) && p.component in order[..i]
      invariant InOrder(problems)
    {
      var component := order[i];
      assert component in g;
      var found: seq<Problem>;
      if component !in t.layers {
        found := [Problem(component, Absent)];
        OneInOrder(found[0]);
      } else {
        found := CheckComponent(t, g, component);
      }
      forall p, q | p in problems && q in found ensures Ahead(p, q) {
        var k :| 0 <= k < i && order[k] == p.component;
        ComponentsFirst(p, q, order[k], component);
      }
      OrderMore(problems, found);
      problems := problems + found;
    }
    assert forall c :: c in g ==> c in order[..|order|];
    SilentMeansKept(t, g, problems);
  }

  lemma NoneInOrder()
    ensures InOrder([])
  {
  }

  lemma OneInOrder(p: Problem)
    ensures InOrder([p])
  {
  }

  lemma ComponentsFirst(p: Problem, q: Problem, a: string, b: string)
    requires p.component == a && q.component == b && Before(a, b)
    ensures Ahead(p, q)
  {
  }

  lemma FaultsDep(t: Table, component: string, dep: string, fault: Fault)
    requires component in t.layers && FaultOf(t, component, dep) == [fault]
    ensures DepOf(Problem(component, fault)) == dep
  {
  }

  method CheckComponent(t: Table, g: Graph, component: string) returns (problems: seq<Problem>)
    requires component in g && component in t.layers
    ensures forall p :: p in problems <==> Reported(t, g, p) && p.component == component
    ensures InOrder(problems)
  {
    hide Before, FaultOf, DepOf;
    problems := [];
    var deps := Sorted(g[component]);
    for k := 0 to |deps|
      invariant forall p :: p in problems <==>
        p.component == component && exists j :: 0 <= j < k && FaultOf(t, component, deps[j]) == [p.fault]
      invariant forall i :: 0 <= i < |problems| ==> exists j :: 0 <= j < k && DepOf(problems[i]) == deps[j]
      invariant InOrder(problems)
    {
      var fault := FaultOf(t, component, deps[k]);
      FaultIsOne(t, component, deps[k]);
      if fault != [] {
        FaultsDep(t, component, deps[k], fault[0]);
        problems := problems + [Problem(component, fault[0])];
      }
    }
    DepsAll(t, g, component, deps, problems);
  }

  lemma FaultIsOne(t: Table, component: string, dep: string)
    requires component in t.layers
    ensures |FaultOf(t, component, dep)| <= 1
  {
  }

  lemma DepsAll(t: Table, g: Graph, component: string, deps: seq<string>, problems: seq<Problem>)
    requires component in g && component in t.layers && forall n :: n in g[component] <==> n in deps
    requires forall p :: p in problems <==>
      p.component == component && exists j :: 0 <= j < |deps| && FaultOf(t, component, deps[j]) == [p.fault]
    ensures forall p :: p in problems <==> Reported(t, g, p) && p.component == component
  {
    hide FaultOf;
    forall p: Problem | p.component == component ensures p in problems <==> Reported(t, g, p) {
      if dep :| dep in g[component] && FaultOf(t, component, dep) == [p.fault] {
        assert dep in deps;
      }
      if p in problems {
        var j :| 0 <= j < |deps| && FaultOf(t, component, deps[j]) == [p.fault];
        assert deps[j] in deps;
      }
    }
  }

  lemma SilentMeansKept(t: Table, g: Graph, problems: seq<Problem>)
    requires forall p :: p in problems <==> Reported(t, g, p)
    ensures problems == [] <==> forall c :: c in g ==> Keeps(t, g, c)
  {
    if problems == [] {
      forall c | c in g ensures Keeps(t, g, c) {
        assert !Reported(t, g, Problem(c, Absent));
        forall dep | dep in g[c] && dep in t.layers ensures FaultOf(t, c, dep) == [] {
          var fault := FaultOf(t, c, dep);
          if fault != [] {
            assert Reported(t, g, Problem(c, fault[0]));
          }
        }
      }
    } else {
      assert Reported(t, g, problems[0]);
      assert !Keeps(t, g, problems[0].component);
    }
  }

  /** The layer is a rank: a graph the table accepts has no cycle. */
  lemma LayersRank(t: Table, g: Graph)
    requires forall c :: c in g ==> Keeps(t, g, c)
    ensures Acyclic(g)
  {
    forall a, b | Edge(g, a, b) ensures a in t.layers && b in t.layers && t.layers[b] < t.layers[a] {
      assert Keeps(t, g, a) && Keeps(t, g, b);
    }
    RankedIsAcyclic(g, t.layers);
  }

  // ----- the cycle search ------------------------------------------------------------------------

  const GREY := 1
  const BLACK := 2

  /** A closed walk that meets no component twice but the one it closes on. */
  predicate Loop(g: Graph, c: seq<string>) {
    ClosedWalk(g, c) && forall i, j :: 0 <= i < j < |c| - 1 ==> c[i] != c[j]
  }

  /** Some list found closes with the dependency of `a` on `b`. */
  ghost predicate Closes(cycles: seq<seq<string>>, a: string, b: string) {
    exists k :: 0 <= k < |cycles| && ClosesWith(cycles[k], a, b)
  }

  predicate ClosesWith(c: seq<string>, a: string, b: string) {
    |c| > 1 && c[|c| - 2] == a && c[|c| - 1] == b
  }

  /** No two lists close with the same dependency. */
  ghost predicate OneEach(cycles: seq<seq<string>>) {
    forall i, j, a, b :: 0 <= i < j < |cycles| && ClosesWith(cycles[i], a, b) ==> !ClosesWith(cycles[j], a, b)
  }

  lemma ClosesMore(cycles: seq<seq<string>>, c: seq<string>, a: string, b: string)
    requires ClosesWith(c, a, b) && !Closes(cycles, a, b) && OneEach(cycles)
    ensures OneEach(cycles + [c])
    ensures forall x, y :: Closes(cycles + [c], x, y) <==> Closes(cycles, x, y) || (x == a && y == b)
  {
    var more := cycles + [c];
    forall x, y ensures Closes(more, x, y) <==> Closes(cycles, x, y) || (x == a && y == b) {
      if Closes(cycles, x, y) {
        var k :| 0 <= k < |cycles| && ClosesWith(cycles[k], x, y);
        assert ClosesWith(more[k], x, y);
      }
      if x == a && y == b { assert ClosesWith(more[|cycles|], x, y); }
    }
  }

  /** A walk every step of which lowers a rank does not return. */
  lemma {:induction false} StepsFall(p: seq<string>, rank: map<string, nat>)
    requires |p| > 1
    requires forall k :: 0 < k < |p| ==> Falls(rank, p[k - 1], p[k])
    ensures p[0] in rank && p[|p| - 1] in rank && rank[p[|p| - 1]] < rank[p[0]]
    decreases |p|
  {
    assert Falls(rank, p[0], p[1]);
    if |p| > 2 {
      var rest := p[1..];
      forall k | 0 < k < |rest| ensures Falls(rank, rest[k - 1], rest[k]) { assert Falls(rank, p[k], p[k + 1]); }
      StepsFall(rest, rank);
    }
  }

  predicate Falls(rank: map<string, nat>, a: string, b: string) { a in rank && b in rank && rank[b] < rank[a] }

  /** find_cycles' three variables: the colour of each node met, the grey path, what it found. */
  class Finder {
    const g: Graph
    var state: map<string, nat>
    var stack: seq<string>
    var cycles: seq<seq<string>>
    ghost var rank: map<string, nat>      // when each black node was done
    ghost var clock: nat

    constructor (g: Graph)
      ensures this.g == g && Valid() && state == map[] && stack == [] && cycles == []
    {
      this.g := g;
      state, stack, cycles, rank, clock := map[], [], [], map[], 0;
    }

    ghost predicate Colour(n: string, c: nat)
      reads this
    {
      n in state && state[n] == c
    }

    ghost predicate Valid()
      reads this
    {
      && state.Keys <= g.Keys && (forall n :: n in state ==> state[n] == GREY || state[n] == BLACK)
      && (forall n :: Colour(n, GREY) <==> n in stack)
      && (forall i, j :: 0 <= i < j < |stack| ==> stack[i] != stack[j])
      && (stack != [] ==> Chain(g, stack))
      && (forall c :: c in cycles ==> Loop(g, c)) && OneEach(cycles)
      && (forall a, b :: Closes(cycles, a, b) ==> a in state)
      && (forall n :: n in rank <==> Colour(n, BLACK))
      && (forall n :: n in rank ==> rank[n] < clock)
      && (forall a, b :: Edge(g, a, b) && a in rank ==> Closes(cycles, a, b) || (b in rank && rank[b] < rank[a]))
    }

    /** What a walk leaves alone: the grey path, the colour of finished nodes, the cycles found. */
    twostate predicate Further()
      reads this
    {
      && old(state).Keys <= state.Keys
      && (forall n :: n in old(state) ==> state[n] == old(state)[n])
      && old(cycles) <= cycles
      && (forall a, b :: Closes(cycles, a, b) && a in old(state) ==> Closes(old(cycles), a, b))
    }

    lemma StackBecomesCycle(dep: string, at: nat)
      requires Valid() && at < |stack| && stack[at] == dep && Edge(g, stack[|stack| - 1], dep)
      ensures Loop(g, stack[at..] + [dep]) && ClosesWith(stack[at..] + [dep], stack[|stack| - 1], dep)
    {
      var p := stack[at..] + [dep];
      forall k | 0 < k < |p| ensures Edge(g, p[k - 1], p[k]) {
        if k < |p| - 1 { assert Edge(g, stack[at + k - 1], stack[at + k]); }
      }
    }

    method StackIndex(dep: string) returns (at: nat)
      requires dep in stack
      ensures at < |stack| && stack[at] == dep
    {
      at := 0;
      while stack[at] != dep
        invariant at < |stack| && dep !in stack[..at]
        decreases |stack| - at
      {
        at := at + 1;
      }
    }

    method Enter(node: string)
      requires Valid() && node in g && node !in state
      requires stack != [] ==> Edge(g, stack[|stack| - 1], node)
      modifies this`state, this`stack
      ensures Valid() && state == old(state)[node := GREY] && stack == old(stack) + [node]
    {
      assert !Colour(node, GREY) && node !in stack;
      state := state[node := GREY];
      stack := stack + [node];
      assert Chain(g, stack) by {
        forall k | 0 < k < |stack| ensures Edge(g, stack[k - 1], stack[k]) {
          if k < |stack| - 1 { assert Edge(g, old(stack)[k - 1], old(stack)[k]); }
        }
      }
      assert forall n :: n in old(state) ==> (old(Colour(n, GREY)) <==> Colour(n, GREY));
    }

    /** The node on top of the grey path is done, and so is all it depends on, but where a list closes. */
    method Leave(node: string)
      requires Valid() && stack != [] && stack[|stack| - 1] == node
      requires forall b :: Edge(g, node, b) ==> Closes(cycles, node, b) || Colour(b, BLACK)
      modifies this`state, this`stack, this`rank, this`clock
      ensures Valid() && state == old(state)[node := BLACK] && stack == old(stack)[..|old(stack)| - 1]
    {
      assert Colour(node, GREY);
      stack := stack[..|stack| - 1];
      state := state[node := BLACK];
      rank, clock := rank[node := clock], clock + 1;
      assert stack != [] ==> Chain(g, stack);
      forall n ensures Colour(n, GREY) <==> n in stack {
        assert old(Colour(n, GREY)) <==> n in old(stack);
        if n in old(stack) && n != node {
          var k :| 0 <= k < |old(stack)| && old(stack)[k] == n;
          assert stack[k] == n;
        }
      }
    }

    method NoteCycle(node: string, dep: string)
      requires Valid() && Edge(g, node, dep) && dep in stack && stack[|stack| - 1] == node && !Closes(cycles, node, dep)
      modifies this`cycles
      ensures Valid() && old(cycles) <= cycles
      ensures forall a, b :: Closes(cycles, a, b) <==> Closes(old(cycles), a, b) || (a == node && b == dep)
    {
      var at := StackIndex(dep);
      StackBecomesCycle(dep, at);
      ClosesMore(cycles, stack[at..] + [dep], node, dep);
      TopIsMet();
      cycles := cycles + [stack[at..] + [dep]];
    }

    /** Once every node is done, each dependency lowers the rank, but where a list closes. */
    lemma AllRanked(order: seq<string>)
      requires Valid() && (forall n :: n in g <==> n in order) && forall j :: 0 <= j < |order| ==> Colour(order[j], BLACK)
      ensures forall a, b :: Edge(g, a, b) ==> Closes(cycles, a, b) || (a in rank && b in rank && rank[b] < rank[a])
      ensures (forall c :: c in cycles ==> Loop(g, c)) && OneEach(cycles)
    {
      hide Closes, OneEach, Loop;
      forall a, b | Edge(g, a, b) ensures Closes(cycles, a, b) || (a in rank && b in rank && rank[b] < rank[a]) {
        assert a in order;
      }
    }

    lemma NoneGrey(n: string)
      requires Valid() && stack == [] && n in state
      ensures Colour(n, BLACK)
    {
      assert !Colour(n, GREY);
    }

    lemma TopIsMet()
      requires Valid() && stack != []
      ensures stack[|stack| - 1] in state
    {
      assert Colour(stack[|stack| - 1], GREY);
    }

    lemma GreyIsOnPath(n: string)
      requires Valid() && n in state && state[n] == GREY
      ensures n in stack
    {
      assert Colour(n, GREY);
    }

    lemma BlackOtherwise(n: string)
      requires Valid() && n in state && state[n] != GREY
      ensures Colour(n, BLACK)
    {
    }

    lemma DepsAreEdges(node: string, deps: seq<string>)
      requires node in g && forall n :: n in g[node] <==> n in deps
      requires forall j :: 0 <= j < |deps| && deps[j] in g ==> Closes(cycles, node, deps[j]) || Colour(deps[j], BLACK)
      ensures forall b :: Edge(g, node, b) ==> Closes(cycles, node, b) || Colour(b, BLACK)
    {
    }

    /** A node just met closes nothing yet. */
    lemma NewClosesNothing(node: string)
      requires Valid() && node !in state
      ensures forall b :: !Closes(cycles, node, b)
    {
    }

    /** walk: paints a white node and all white nodes it reaches black. */
    method Walk(node: string)
      requires Valid() && node in g && node !in state
      requires stack != [] ==> Edge(g, stack[|stack| - 1], node)
      modifies this
      ensures Valid() && Further() && stack == old(stack) && Colour(node, BLACK)
      decreases g.Keys - state.Keys
    {
      hide Valid, Closes, Before;
      NewClosesNothing(node);
      Enter(node);
      ghost var path := stack;
      var deps := Sorted(g[node]);
      DepsDiffer(deps);
      for k := 0 to |deps|
        invariant Valid() && Further() && stack == path && Colour(node, GREY)
        invariant forall b :: Closes(cycles, node, b) ==> b in deps[..k]
        invariant forall j :: 0 <= j < k && deps[j] in g ==> Closes(cycles, node, deps[j]) || Colour(deps[j], BLACK)
      {
        var dep := deps[k];
        assert dep !in deps[..k];
        if dep !in g { continue; }
        assert Edge(g, node, dep);
        if dep !in state {
          ghost var was := cycles;
          Walk(dep);
          StillCloses(was, cycles);
        } else if state[dep] == GREY {
          GreyIsOnPath(dep);
          NoteCycle(node, dep);
        } else {
          BlackOtherwise(dep);
        }
      }
      DepsAreEdges(node, deps);
      Leave(node);
    }
  }

  /** What closed before still does. */
  lemma StillCloses(was: seq<seq<string>>, cycles: seq<seq<string>>)
    requires was <= cycles
    ensures forall a, b :: Closes(was, a, b) ==> Closes(cycles, a, b)
  {
    forall a, b | Closes(was, a, b) ensures Closes(cycles, a, b) {
      var k :| 0 <= k < |was| && ClosesWith(was[k], a, b);
      assert cycles[k] == was[k];
    }
  }

  lemma DepsDiffer(deps: seq<string>)
    requires Ascending(deps)
    ensures forall i, j :: 0 <= i < j < |deps| ==> deps[i] != deps[j]
  {
    forall i, j | 0 <= i < j < |deps| ensures deps[i] != deps[j] { OneWay(deps[i], deps[j]); }
  }

  /** The walk takes the last step of some list found. */
  ghost predicate Covered(cycles: seq<seq<string>>, p: seq<string>) {
    exists k :: 0 < k < |p| && Closes(cycles, p[k - 1], p[k])
  }

  lemma AllCovered(g: Graph, cycles: seq<seq<string>>, rank: map<string, nat>)
    requires forall a, b :: Edge(g, a, b) ==> Closes(cycles, a, b) || (a in rank && b in rank && rank[b] < rank[a])
    ensures forall p :: ClosedWalk(g, p) ==> Covered(cycles, p)
  {
    hide Closes;
    forall p | ClosedWalk(g, p) ensures Covered(cycles, p) {
      if !Covered(cycles, p) {
        forall k | 0 < k < |p| ensures Falls(rank, p[k - 1], p[k]) {
          assert Edge(g, p[k - 1], p[k]) && !Closes(cycles, p[k - 1], p[k]);
        }
        StepsFall(p, rank);
      }
    }
  }

  /** find_cycles: every list found is a loop of the graph of the components among themselves, every
      closed walk there takes the last step of some list found, so without those steps the graph has
      none, and no step closes two lists: the lists are none exactly when the graph has no cycle. */
  method FindCycles(g: Graph) returns (cycles: seq<seq<string>>)
    ensures forall c :: c in cycles ==> Loop(g, c)
    ensures forall p :: ClosedWalk(g, p) ==> Covered(cycles, p)
    ensures OneEach(cycles)
    ensures cycles == [] <==> Acyclic(g)
  {
    hide Before, Ascending, Closes, OneEach, Covered, Loop, ClosedWalk, Acyclic, Finder.Valid;
    var f := new Finder(g);
    var order := Sorted(g.Keys);
    for i := 0 to |order|
      invariant f.Valid() && f.g == g && f.stack == []
      invariant forall j :: 0 <= j < i ==> f.Colour(order[j], BLACK)
    {
      assert order[i] in g;
      if order[i] !in f.state {
        f.Walk(order[i]);
      }
      f.NoneGrey(order[i]);
    }
    cycles := f.cycles;
    f.AllRanked(order);
    AllCovered(g, cycles, f.rank);
    NoneCovered(g, cycles);
  }

  lemma NoneCovered(g: Graph, cycles: seq<seq<string>>)
    requires (forall c :: c in cycles ==> Loop(g, c)) && forall p :: ClosedWalk(g, p) ==> Covered(cycles, p)
    ensures cycles == [] <==> Acyclic(g)
  {
    if cycles != [] { assert Loop(g, cycles[0]); }
    if cycles == [] {
      forall p ensures !Covered(cycles, p) {}
    }
  }

  /** A problem of main's: one of check_graph's, or a loop found. */
  ghost predicate Printed(t: Table, g: Graph, p: Problem) {
    Reported(t, g, p) || (p.fault.Cycle? && Loop(g, p.fault.walk) && p.component == p.fault.walk[0])
  }

  /** A loop that closes with this dependency is among the problems. */
  ghost predicate PrintsLoop(problems: seq<Problem>, a: string, b: string) {
    exists c :: c != [] && Problem(c[0], Cycle(c)) in problems && ClosesWith(c, a, b)
  }

  /** main: it prints everything check_graph reports and a loop for every list found, and exits 0
      exactly when check_graph is silent, since a graph the table accepts can give the cycle search
      nothing to add. */
  method Run(t: Table, g: Graph) returns (exit: int, problems: seq<Problem>)
    ensures exit == if problems == [] then 0 else 1
    ensures exit == 0 <==> forall c :: c in g ==> Keeps(t, g, c)
    ensures forall p :: p in problems ==> Printed(t, g, p)
    ensures forall p :: Reported(t, g, p) ==> p in problems
    ensures forall p :: ClosedWalk(g, p) ==> exists k :: 0 < k < |p| && PrintsLoop(problems, p[k - 1], p[k])
  {
    hide Reported, Loop, Keeps, Acyclic;
    problems := CheckGraph(t, g);
    var cycles := FindCycles(g);
    if problems == [] {
      LayersRank(t, g);
    }
    ghost var before := problems;
    for i := 0 to |cycles|
      invariant |problems| == |before| + i && before <= problems
      invariant forall p :: p in problems ==> Printed(t, g, p)
      invariant forall j :: 0 <= j < i ==> cycles[j] != [] && Problem(cycles[j][0], Cycle(cycles[j])) in problems
    {
      assert cycles[i] in cycles;
      LoopHasHead(g, cycles[i]);
      problems := problems + [Problem(cycles[i][0], Cycle(cycles[i]))];
    }
    exit := if problems == [] then 0 else 1;
    forall p | ClosedWalk(g, p)
      ensures exists k :: 0 < k < |p| && PrintsLoop(problems, p[k - 1], p[k])
    {
      assert Covered(cycles, p);
      var k :| 0 < k < |p| && Closes(cycles, p[k - 1], p[k]);
      var j :| 0 <= j < |cycles| && ClosesWith(cycles[j], p[k - 1], p[k]);
      assert PrintsLoop(problems, p[k - 1], p[k]);
    }
  }

  lemma LoopHasHead(g: Graph, c: seq<string>)
    requires Loop(g, c)
    ensures c != [] && ClosedWalk(g, c)
  {
  }
}
