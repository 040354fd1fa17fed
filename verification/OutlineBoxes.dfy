/**
 One rectangle for each closed loop drawn on a layer (tools/check_pcb.py, boxes_from): segments are
 gathered into loops as they come, by the endpoints they share once rounded.
 */
module OutlineBoxes {
  import opened Walks

  datatype Point = Point(x: real, y: real)

  datatype Segment = Segment(a: Point, b: Point)

  datatype Box = Box(left: real, top: real, right: real, bottom: real)

  /** Rounding of a point to the grid endpoints are compared on. */
  type Rounding = Point -> Point

  function Ends(round: Rounding, s: Segment): set<Point> { {round(s.a), round(s.b)} }

  /** A loop being gathered: its endpoints, and the places of its segments in the drawing. */
  datatype Loop = Loop(ends: set<Point>, members: seq<nat>)

  /** The pairs of the first `n` segments that share an endpoint. */
  ghost function Shared(round: Rounding, segs: seq<Segment>, n: nat): set<(nat, nat)>
    requires n <= |segs|
  {
    set i: nat, j: nat | i < j < n && Ends(round, segs[i]) * Ends(round, segs[j]) != {} :: (i, j)
  }

  ghost predicate EndsOf(round: Rounding, segs: seq<Segment>, l: Loop) {
    && (forall k :: k in l.members ==> k < |segs|)
    && forall p :: p in l.ends <==> exists k :: k in l.members && p in Ends(round, segs[k])
  }

  ghost predicate InSome(loops: seq<Loop>, k: nat) { exists l :: 0 <= l < |loops| && k in loops[l].members }

  /** A loop of some of the first `n` segments. */
  ghost predicate Made(round: Rounding, segs: seq<Segment>, n: nat, l: Loop) {
    l.members != [] && EndsOf(round, segs, l) && forall k :: k in l.members ==> k < n
  }

  ghost predicate Disjoint(loops: seq<Loop>) { forall l, m :: 0 <= l < m < |loops| ==> loops[l].ends !! loops[m].ends }

  /** The segments of one loop are linked by endpoints. */
  ghost predicate Held(more: set<(nat, nat)>, l: Loop) {
    forall i, j :: i in l.members && j in l.members ==> Linked(more, i, j)
  }

  /** The first `n` segments, each in one loop, are gathered so far: loops share no endpoint, and
      the segments of one loop are linked by endpoints. */
  ghost predicate Gathered(round: Rounding, segs: seq<Segment>, n: nat, loops: seq<Loop>)
    requires n <= |segs|
  {
    && (forall l :: l in loops ==> Made(round, segs, n, l))
    && (forall k :: 0 <= k < n ==> InSome(loops, k))
    && Disjoint(loops)
    && (forall l :: l in loops ==> Held(Shared(round, segs, n), l))
  }

  /** The loops that share an endpoint with `ends`, and the others. */
  function Touching(loops: seq<Loop>, ends: set<Point>): (r: seq<Loop>)
    ensures forall l :: l in r <==> l in loops && l.ends * ends != {}
  {
    if loops == [] then []
    else (if loops[0].ends * ends != {} then [loops[0]] else []) + Touching(loops[1..], ends)
  }

  function Apart(loops: seq<Loop>, ends: set<Point>): (r: seq<Loop>)
    ensures forall l :: l in r <==> l in loops && l.ends * ends == {}
  {
    if loops == [] then []
    else (if loops[0].ends * ends == {} then [loops[0]] else []) + Apart(loops[1..], ends)
  }

  lemma {:induction false} ApartDisjoint(loops: seq<Loop>, ends: set<Point>)
    requires Disjoint(loops)
    ensures Disjoint(Apart(loops, ends))
    decreases |loops|
  {
    if loops != [] {
      ApartDisjoint(loops[1..], ends);
      var rest := Apart(loops[1..], ends);
      forall m | 0 <= m < |rest| ensures loops[0].ends !! rest[m].ends {
        assert rest[m] in rest && rest[m] in loops[1..];
        var k :| 0 <= k < |loops[1..]| && loops[1..][k] == rest[m];
        assert loops[k + 1] == rest[m];
      }
    }
  }

  /** The new segment swallows every loop it touches. */
  function Merge(n: nat, ends: set<Point>, touched: seq<Loop>): (l: Loop)
    ensures forall k :: k in l.members <==> k == n || exists t :: t in touched && k in t.members
    ensures forall p :: p in l.ends <==> p in ends || exists t :: t in touched && p in t.ends
  {
    if touched == [] then Loop(ends, [n])
    else
      var l := Merge(n, ends, touched[1..]);
      assert forall t :: t in touched <==> t == touched[0] || t in touched[1..];
      Loop(l.ends + touched[0].ends, l.members + touched[0].members)
  }

  lemma SharedMore(round: Rounding, segs: seq<Segment>, n: nat)
    requires n < |segs|
    ensures Shared(round, segs, n) <= Shared(round, segs, n + 1)
  {
  }

  /** Every segment of a loop the new one touches is linked to it. */
  lemma TouchedIsLinked(round: Rounding, segs: seq<Segment>, n: nat, loops: seq<Loop>, l: Loop, k: nat)
    requires n < |segs| && Gathered(round, segs, n, loops) && l in loops && k in l.members
    requires l.ends * Ends(round, segs[n]) != {}
    ensures Linked(Shared(round, segs, n + 1), k, n) && Linked(Shared(round, segs, n + 1), n, k)
  {
    hide Linked, Disjoint, InSome;
    var more := Shared(round, segs, n + 1);
    var p :| p in l.ends && p in Ends(round, segs[n]);
    assert Made(round, segs, n, l) && Held(Shared(round, segs, n), l);
    var m :| m in l.members && p in Ends(round, segs[m]);
    assert (m, n) in more by { assert p in Ends(round, segs[m]) * Ends(round, segs[n]); }
    LinkedStep(more, m, n);
    SharedMore(round, segs, n);
    LinkedMore(Shared(round, segs, n), more, k, m);
    LinkedTrans(more, k, m, n);
    LinkedBack(more, k, n);
  }

  /** The loops once segment `n` has come. */
  function Gather(round: Rounding, segs: seq<Segment>, n: nat, loops: seq<Loop>): seq<Loop>
    requires n < |segs|
  {
    var ends := Ends(round, segs[n]);
    Apart(loops, ends) + [Merge(n, ends, Touching(loops, ends))]
  }

  lemma GatherNext(round: Rounding, segs: seq<Segment>, n: nat, loops: seq<Loop>)
    requires n < |segs| && Gathered(round, segs, n, loops)
    ensures Gathered(round, segs, n + 1, Gather(round, segs, n, loops))
  {
    hide Linked, Shared, Made, InSome, Disjoint, Held, Ends, Touching, Apart, Merge;
    var ends := Ends(round, segs[n]);
    var next := Gather(round, segs, n, loops);
    GatherDisjoint(loops, ends, n);
    forall l | l in next ensures Made(round, segs, n + 1, l) && Held(Shared(round, segs, n + 1), l) {
      if l in Apart(loops, ends) {
        LoopLeft(round, segs, n, l);
      } else {
        MergedMade(round, segs, n, loops);
        MergedHeld(round, segs, n, loops);
      }
    }
    forall k | 0 <= k < n + 1 ensures InSome(next, k) {
      StillInSome(loops, ends, n, k);
    }
  }

  lemma LoopLeft(round: Rounding, segs: seq<Segment>, n: nat, l: Loop)
    requires n < |segs| && Made(round, segs, n, l) && Held(Shared(round, segs, n), l)
    ensures Made(round, segs, n + 1, l) && Held(Shared(round, segs, n + 1), l)
  {
    hide Linked, Shared, EndsOf;
    SharedMore(round, segs, n);
    forall i, j | i in l.members && j in l.members ensures Linked(Shared(round, segs, n + 1), i, j) {
      LinkedMore(Shared(round, segs, n), Shared(round, segs, n + 1), i, j);
    }
  }

  lemma StillInSome(loops: seq<Loop>, ends: set<Point>, n: nat, k: nat)
    requires k == n || InSome(loops, k)
    ensures InSome(Apart(loops, ends) + [Merge(n, ends, Touching(loops, ends))], k)
  {
    var touched, apart := Touching(loops, ends), Apart(loops, ends);
    var merged := Merge(n, ends, touched);
    hide Touching, Apart, Merge;
    var next := apart + [merged];
    if k == n {
      assert k in next[|apart|].members;
    } else {
      var l :| 0 <= l < |loops| && k in loops[l].members;
      if loops[l].ends * ends != {} {
        assert loops[l] in touched && k in next[|apart|].members;
      } else {
        assert loops[l] in apart;
        var m :| 0 <= m < |apart| && apart[m] == loops[l];
        assert k in next[m].members;
      }
    }
  }

  lemma MergedHeld(round: Rounding, segs: seq<Segment>, n: nat, loops: seq<Loop>)
    requires n < |segs| && Gathered(round, segs, n, loops)
    ensures Held(Shared(round, segs, n + 1), Merge(n, Ends(round, segs[n]), Touching(loops, Ends(round, segs[n]))))
  {
    hide Linked, Shared, Gathered, Merge, Touching, Ends;
    var l := Merge(n, Ends(round, segs[n]), Touching(loops, Ends(round, segs[n])));
    forall i, j | i in l.members && j in l.members ensures Linked(Shared(round, segs, n + 1), i, j) {
      MemberLinked(round, segs, n, loops, i);
      MemberLinked(round, segs, n, loops, j);
      LinkedTrans(Shared(round, segs, n + 1), i, n, j);
    }
  }

  lemma MemberLinked(round: Rounding, segs: seq<Segment>, n: nat, loops: seq<Loop>, k: nat)
    requires n < |segs| && Gathered(round, segs, n, loops)
    requires k in Merge(n, Ends(round, segs[n]), Touching(loops, Ends(round, segs[n]))).members
    ensures Linked(Shared(round, segs, n + 1), k, n) && Linked(Shared(round, segs, n + 1), n, k)
  {
    hide Linked, Shared, Gathered, Ends;
    if k == n {
      LinkedSelf(Shared(round, segs, n + 1), n);
    } else {
      var t :| t in Touching(loops, Ends(round, segs[n])) && k in t.members;
      TouchedIsLinked(round, segs, n, loops, t, k);
    }
  }

  lemma GatherDisjoint(loops: seq<Loop>, ends: set<Point>, n: nat)
    requires Disjoint(loops)
    ensures Disjoint(Apart(loops, ends) + [Merge(n, ends, Touching(loops, ends))])
  {
    var apart := Apart(loops, ends);
    var touched := Touching(loops, ends);
    var merged := Merge(n, ends, touched);
    ApartDisjoint(loops, ends);
    hide Apart, Touching, Merge;
    forall l | 0 <= l < |apart| ensures apart[l].ends !! merged.ends {
      assert apart[l] in apart;
      forall t | t in touched ensures apart[l].ends !! t.ends {
        var i :| 0 <= i < |loops| && loops[i] == apart[l];
        var j :| 0 <= j < |loops| && loops[j] == t;
        assert i != j;
      }
      forall p | p in apart[l].ends ensures p !in merged.ends {
        assert p !in apart[l].ends * ends;
      }
    }
  }

  lemma MadeEnd(round: Rounding, segs: seq<Segment>, n: nat, l: Loop, p: Point)
    requires n <= |segs| && Made(round, segs, n, l) && p in l.ends
    ensures exists k :: k in l.members && k < n && p in Ends(round, segs[k])
  {
  }

  lemma MadeMember(round: Rounding, segs: seq<Segment>, n: nat, l: Loop, k: nat)
    requires n <= |segs| && Made(round, segs, n, l) && k in l.members
    ensures k < n && Ends(round, segs[k]) <= l.ends
  {
  }

  lemma IsMade(round: Rounding, segs: seq<Segment>, n: nat, l: Loop)
    requires n <= |segs| && l.members != [] && forall k :: k in l.members ==> k < n && Ends(round, segs[k]) <= l.ends
    requires forall p :: p in l.ends ==> exists k :: k in l.members && p in Ends(round, segs[k])
    ensures Made(round, segs, n, l)
  {
    hide Ends;
  }

  lemma TouchedMade(round: Rounding, segs: seq<Segment>, n: nat, loops: seq<Loop>, t: Loop)
    requires n < |segs| && Gathered(round, segs, n, loops) && t in Touching(loops, Ends(round, segs[n]))
    ensures Made(round, segs, n, t)
  {
    hide Made, Held, InSome, Disjoint;
  }

  lemma MergedMade(round: Rounding, segs: seq<Segment>, n: nat, loops: seq<Loop>)
    requires n < |segs| && Gathered(round, segs, n, loops)
    ensures Made(round, segs, n + 1, Merge(n, Ends(round, segs[n]), Touching(loops, Ends(round, segs[n]))))
  {
    hide Gathered, Made, Merge, Touching, Ends;
    var ends := Ends(round, segs[n]);
    var touched := Touching(loops, ends);
    var l := Merge(n, ends, touched);
    forall k | k in l.members ensures k < n + 1 && Ends(round, segs[k]) <= l.ends {
      if k != n {
        var t :| t in touched && k in t.members;
        TouchedMade(round, segs, n, loops, t);
        MadeMember(round, segs, n, t, k);
      }
    }
    forall p | p in l.ends ensures exists k :: k in l.members && p in Ends(round, segs[k]) {
      if p in ends {
        assert n in l.members;
      } else {
        var t :| t in touched && p in t.ends;
        TouchedMade(round, segs, n, loops, t);
        MadeEnd(round, segs, n, t, p);
        var k :| k in t.members && k < n && p in Ends(round, segs[k]);
        assert k in l.members;
      }
    }
    assert n in l.members;
    IsMade(round, segs, n + 1, l);
  }

  // ----- what the loops are ------------------------------------------------------------------------

  /** Segments linked by endpoints fall into one loop. */
  lemma {:induction false} LinkedIsOneLoop(round: Rounding, segs: seq<Segment>, loops: seq<Loop>, p: seq<nat>, l: nat)
    requires Gathered(round, segs, |segs|, loops) && l < |loops|
    requires Walk(Shared(round, segs, |segs|), p) && p[0] in loops[l].members
    ensures p[|p| - 1] in loops[l].members
    decreases |p|
  {
    hide Gathered, Made;
    if |p| > 1 {
      assert Touch(Shared(round, segs, |segs|), p[0], p[1]);
      NextInLoop(round, segs, loops, p[0], p[1], l);
      var rest := p[1..];
      forall k | 0 < k < |rest| ensures Touch(Shared(round, segs, |segs|), rest[k - 1], rest[k]) {
        assert Touch(Shared(round, segs, |segs|), p[k], p[k + 1]);
      }
      LinkedIsOneLoop(round, segs, loops, rest, l);
    }
  }

  lemma NextInLoop(round: Rounding, segs: seq<Segment>, loops: seq<Loop>, i: nat, j: nat, l: nat)
    requires Gathered(round, segs, |segs|, loops) && l < |loops| && i in loops[l].members
    requires Touch(Shared(round, segs, |segs|), i, j)
    ensures j in loops[l].members
  {
    hide Held;
    assert i < |segs| && j < |segs|;
    var shared := Ends(round, segs[i]) * Ends(round, segs[j]);
    assert shared != {};
    var q :| q in shared;
    assert InSome(loops, j);
    var m :| 0 <= m < |loops| && j in loops[m].members;
    assert Made(round, segs, |segs|, loops[l]) && Made(round, segs, |segs|, loops[m]);
    assert q in loops[l].ends && q in loops[m].ends;
    assert l == m;
  }

  ghost predicate Inside(s: Segment, b: Box) {
    && b.left <= s.a.x <= b.right && b.left <= s.b.x <= b.right
    && b.top <= s.a.y <= b.bottom && b.top <= s.b.y <= b.bottom
  }

  function Xs(s: Segment): set<real> { {s.a.x, s.b.x} }

  function Ys(s: Segment): set<real> { {s.a.y, s.b.y} }

  /** A box that holds every end of a loop's segments and touches one on each side. */
  ghost predicate Bounds(segs: seq<Segment>, members: seq<nat>, b: Box) {
    && (forall k :: k in members ==> k < |segs| && Inside(segs[k], b))
    && (exists k :: k in members && b.left in Xs(segs[k]))
    && (exists k :: k in members && b.right in Xs(segs[k]))
    && (exists k :: k in members && b.top in Ys(segs[k]))
    && (exists k :: k in members && b.bottom in Ys(segs[k]))
  }

  function Min(a: real, b: real): real { if a <= b then a else b }

  function Max(a: real, b: real): real { if a >= b then a else b }

  function Around(s: Segment): Box {
    Box(Min(s.a.x, s.b.x), Min(s.a.y, s.b.y), Max(s.a.x, s.b.x), Max(s.a.y, s.b.y))
  }

  function Both(b: Box, o: Box): Box {
    Box(Min(b.left, o.left), Min(b.top, o.top), Max(b.right, o.right), Max(b.bottom, o.bottom))
  }

  lemma BoxOfOne(segs: seq<Segment>, k: nat)
    requires k < |segs|
    ensures Bounds(segs, [k], Around(segs[k]))
  {
    assert k in [k];
  }

  method BoxOf(segs: seq<Segment>, members: seq<nat>) returns (b: Box)
    requires members != [] && forall k :: 0 <= k < |members| ==> members[k] < |segs|
    ensures Bounds(segs, members, b)
  {
    hide Bounds, Around, Both;
    b := Around(segs[members[0]]);
    assert members[..1] == [members[0]];
    BoxOfOne(segs, members[0]);
    for i := 1 to |members|
      invariant Bounds(segs, members[..i], b)
    {
      GrowBox(segs, members[..i], members[i], b);
      b := Both(b, Around(segs[members[i]]));
      assert members[..i + 1] == members[..i] + [members[i]];
    }
    assert members[..|members|] == members;
  }

  lemma GrowBox(segs: seq<Segment>, members: seq<nat>, k: nat, b: Box)
    requires Bounds(segs, members, b) && k < |segs|
    ensures Bounds(segs, members + [k], Both(b, Around(segs[k])))
  {
    var more := members + [k];
    assert k in more && forall m :: m in more <==> m in members || m == k;
  }

  /** boxes_from: one box for each group of segments linked by shared endpoints, and it is that
      group's bounding box. */
  method BoxesFrom(round: Rounding, segs: seq<Segment>) returns (boxes: seq<Box>, loops: seq<Loop>)
    ensures |boxes| == |loops|
    ensures forall k :: 0 <= k < |segs| ==> InSome(loops, k)
    ensures forall l, i, j: nat :: 0 <= l < |loops| && i in loops[l].members && j < |segs| ==>
      (j in loops[l].members <==> Linked(Shared(round, segs, |segs|), i, j))
    ensures forall l, m :: 0 <= l < m < |loops| ==> NoneShared(loops[l], loops[m])
    ensures forall l :: 0 <= l < |loops| ==> Bounds(segs, loops[l].members, boxes[l])
  {
    hide Linked, Shared, Bounds, Gather, Gathered, Made, InSome, NoneShared;
    loops := [];
    NothingGathered(round, segs);
    for n := 0 to |segs|
      invariant Gathered(round, segs, n, loops)
    {
      GatherNext(round, segs, n, loops);
      loops := Gather(round, segs, n, loops);
    }
    boxes := [];
    for l := 0 to |loops|
      invariant |boxes| == l && forall m :: 0 <= m < l ==> Bounds(segs, loops[m].members, boxes[m])
    {
      GatheredMade(round, segs, loops, loops[l]);
      var b := BoxOf(segs, loops[l].members);
      boxes := boxes + [b];
    }
    GatheredCovers(round, segs, loops);
    forall l, m | 0 <= l < m < |loops| ensures NoneShared(loops[l], loops[m]) {
      LoopsApart(round, segs, loops, l, m);
    }
    forall l, i, j: nat | 0 <= l < |loops| && i in loops[l].members && j < |segs|
      ensures j in loops[l].members <==> Linked(Shared(round, segs, |segs|), i, j)
    {
      LoopIsGroup(round, segs, loops, l, i, j);
    }
  }

  ghost predicate NoneShared(l: Loop, m: Loop) { forall k :: k in l.members ==> k !in m.members }

  lemma LoopsApart(round: Rounding, segs: seq<Segment>, loops: seq<Loop>, l: nat, m: nat)
    requires Gathered(round, segs, |segs|, loops) && l < m < |loops|
    ensures NoneShared(loops[l], loops[m])
  {
    hide Held, InSome;
    assert Made(round, segs, |segs|, loops[l]) && Made(round, segs, |segs|, loops[m]);
    forall k | k in loops[l].members ensures k !in loops[m].members {
      assert round(segs[k].a) in Ends(round, segs[k]);
      assert round(segs[k].a) in loops[l].ends;
    }
  }

  lemma GatheredMade(round: Rounding, segs: seq<Segment>, loops: seq<Loop>, l: Loop)
    requires Gathered(round, segs, |segs|, loops) && l in loops
    ensures l.members != [] && forall i :: 0 <= i < |l.members| ==> l.members[i] < |segs|
  {
    hide EndsOf, Held, InSome, Disjoint;
    assert Made(round, segs, |segs|, l);
    forall i | 0 <= i < |l.members| ensures l.members[i] < |segs| { assert l.members[i] in l.members; }
  }

  lemma GatheredCovers(round: Rounding, segs: seq<Segment>, loops: seq<Loop>)
    requires Gathered(round, segs, |segs|, loops)
    ensures forall k :: 0 <= k < |segs| ==> InSome(loops, k)
  {
    hide Made, Held, InSome, Disjoint;
  }

  lemma LoopIsGroup(round: Rounding, segs: seq<Segment>, loops: seq<Loop>, l: nat, i: nat, j: nat)
    requires Gathered(round, segs, |segs|, loops) && l < |loops| && i in loops[l].members && j < |segs|
    ensures j in loops[l].members <==> Linked(Shared(round, segs, |segs|), i, j)
  {
    hide Shared, Made, InSome, Disjoint;
    assert loops[l] in loops && Held(Shared(round, segs, |segs|), loops[l]);
    if Linked(Shared(round, segs, |segs|), i, j) {
      var p :| WalkFrom(Shared(round, segs, |segs|), p, i, j);
      LinkedIsOneLoop(round, segs, loops, p, l);
    }
  }

  lemma NothingGathered(round: Rounding, segs: seq<Segment>)
    ensures Gathered(round, segs, 0, [])
  {
  }

  /** Two segments share an endpoint when either end of one rounds to either end of the other. */
  lemma SharedIs(round: Rounding, segs: seq<Segment>, n: nat, i: nat, j: nat)
    requires n <= |segs|
    ensures (i, j) in Shared(round, segs, n) <==>
      && i < j < n
      && (|| round(segs[i].a) == round(segs[j].a) || round(segs[i].a) == round(segs[j].b)
          || round(segs[i].b) == round(segs[j].a) || round(segs[i].b) == round(segs[j].b))
  {
    if i < j < n {
      var one, two := Ends(round, segs[i]), Ends(round, segs[j]);
      if one * two != {} {
        var p :| p in one * two;
        assert p in one && p in two;
      } else {
        assert forall p :: p in one ==> p !in one * two ==> p !in two;
      }
    }
  }

  /** Only one box bounds a loop. */
  lemma BoundsOnce(segs: seq<Segment>, members: seq<nat>, b: Box, c: Box)
    requires Bounds(segs, members, b) && Bounds(segs, members, c)
    ensures b == c
  {
  }
}
