/**
 Which copper on one net touches (tools/check_pcb.py, joined): union-find over the bits left
 after the cut, with path halving in place.  When two bits are near enough, and when a touch lies
 inside a cut pad, is geometry the model takes as given.
 */
module CopperGroups {
  import opened Wrappers
  import opened Walks

  /** A pad, track or via.  Only a pad has an id; only a track sits on one layer. */
  datatype Bit = Bit(id: Option<string>, layer: Option<string>, shape: int)

  /** `near`: the gap is within the two reaches.  `severed`: the touch lies in a pad cut out. */
  datatype Geometry = Geometry(near: (Bit, Bit) -> bool, severed: (Bit, Bit) -> bool)

  predicate OnOneLayer(b: Bit) { b.layer.Some? && b.layer.value != "" }

  predicate LayersMeet(one: Bit, two: Bit) {
    OnOneLayer(one) && OnOneLayer(two) ==> one.layer == two.layer
  }

  predicate Touches(g: Geometry, one: Bit, two: Bit) {
    LayersMeet(one, two) && g.near(one, two) && !g.severed(one, two)
  }

  function Live(bits: seq<Bit>, drop: set<string>): seq<Bit> {
    if bits == [] then []
    else if bits[0].id.Some? && bits[0].id.value in drop then Live(bits[1..], drop)
    else [bits[0]] + Live(bits[1..], drop)
  }

  /** Every touching pair, by place in the list, looked at before the pair (i, j). */
  ghost function Seen(g: Geometry, live: seq<Bit>, i: nat, j: nat): set<(nat, nat)> {
    set a: nat, b: nat | a < b < |live| && (a < i || (a == i && b < j)) && Touches(g, live[a], live[b]) :: (a, b)
  }

  ghost function Contacts(g: Geometry, live: seq<Bit>): set<(nat, nat)> {
    Seen(g, live, |live|, 0)
  }

  // ----- the forest ------------------------------------------------------------------------

  /** `owner` points every bit towards the root `rep` of its tree, `height` falling on the way. */
  ghost predicate Forest(owner: seq<nat>, rep: seq<nat>, height: seq<nat>) {
    && |rep| == |owner| == |height|
    && (forall k :: 0 <= k < |owner| ==> owner[k] < |owner| && rep[k] < |owner|)
    && (forall k :: 0 <= k < |owner| ==> rep[owner[k]] == rep[k])
    && (forall k :: 0 <= k < |owner| ==> owner[rep[k]] == rep[k])
    && (forall k :: 0 <= k < |owner| ==> (owner[k] == k <==> rep[k] == k))
    && (forall k :: 0 <= k < |owner| && owner[k] != k ==> height[owner[k]] < height[k])
  }

  /** root: with path halving.  It stops, on the root of the tree, and moves no bit to another tree. */
  method Root(owner: array<nat>, k: nat, ghost rep: seq<nat>, ghost height: seq<nat>) returns (r: nat)
    requires k < owner.Length && Forest(owner[..], rep, height)
    modifies owner
    ensures Forest(owner[..], rep, height)
    ensures r == rep[k]
  {
    r := k;
    while owner[r] != r
      invariant r < owner.Length && rep[r] == rep[k]
      invariant Forest(owner[..], rep, height)
      decreases height[r]
    {
      HalvePath(owner[..], rep, height, r);
      owner[r] := owner[owner[r]];
      r := owner[r];
    }
  }

  lemma HalvePath(owner: seq<nat>, rep: seq<nat>, height: seq<nat>, r: nat)
    requires r < |owner| && owner[r] != r && Forest(owner, rep, height)
    ensures Forest(owner[r := owner[owner[r]]], rep, height)
    ensures height[owner[owner[r]]] < height[r]
  {
  }

  /** The forest once the tree rooted at `a` hangs under the root `b`. */
  ghost function MergedReps(rep: seq<nat>, a: nat, b: nat): (r: seq<nat>)
    ensures |r| == |rep|
    ensures forall k :: 0 <= k < |rep| ==> r[k] == if rep[k] == a then b else rep[k]
  {
    seq(|rep|, k requires 0 <= k < |rep| => if rep[k] == a then b else rep[k])
  }

  ghost function LiftedHeights(rep: seq<nat>, height: seq<nat>, a: nat, b: nat): (r: seq<nat>)
    requires |rep| == |height| && b < |height|
    ensures |r| == |rep|
    ensures forall k :: 0 <= k < |rep| ==> r[k] == if rep[k] == a then height[k] + height[b] + 1 else height[k]
  {
    seq(|rep|, k requires 0 <= k < |rep| => if rep[k] == a then height[k] + height[b] + 1 else height[k])
  }

  lemma Hang(owner: seq<nat>, rep: seq<nat>, height: seq<nat>, a: nat, b: nat)
    requires Forest(owner, rep, height) && a < |owner| && b < |owner| && rep[a] == a && rep[b] == b
    ensures Forest(owner[a := b], MergedReps(rep, a, b), LiftedHeights(rep, height, a, b))
  {
  }

  /** The trees are exactly the groups the links connect. */
  ghost predicate Partition(rep: seq<nat>, links: set<(nat, nat)>) {
    forall x: nat, y: nat :: x < |rep| && y < |rep| ==> (rep[x] == rep[y] <==> Linked(links, x, y))
  }

  ghost predicate Within(links: set<(nat, nat)>, n: nat) {
    forall l :: l in links ==> l.0 < n && l.1 < n
  }

  /** Along a walk over the old links and the new one, the merged root never changes. */
  lemma {:induction false} WalkKeepsRoot(rep: seq<nat>, merged: seq<nat>, links: set<(nat, nat)>, p: seq<nat>)
    requires |rep| == |merged| && Within(links, |rep|) && Walk(links, p) && p[0] < |rep|
    requires forall l :: l in links ==> merged[l.0] == merged[l.1]
    ensures p[|p| - 1] < |rep| && merged[p[0]] == merged[p[|p| - 1]]
    decreases |p|
  {
    if |p| > 1 {
      var q := p[..|p| - 1];
      forall k | 0 < k < |q| ensures Touch(links, q[k - 1], q[k]) { assert Touch(links, p[k - 1], p[k]); }
      WalkKeepsRoot(rep, merged, links, q);
      assert Touch(links, p[|p| - 2], p[|p| - 1]);
    }
  }

  /** Joining the trees of the two ends of one more link keeps trees and groups the same. */
  lemma AddLink(rep: seq<nat>, links: set<(nat, nat)>, i: nat, j: nat, merged: seq<nat>)
    requires i < |rep| && j < |rep| && Partition(rep, links) && Within(links, |rep|)
    requires forall k :: 0 <= k < |rep| ==> rep[k] < |rep|
    requires |merged| == |rep|
    requires forall k :: 0 <= k < |rep| ==> merged[k] == if rep[k] == rep[i] then rep[j] else rep[k]
    ensures Partition(merged, links + {(i, j)}) && Within(links + {(i, j)}, |rep|)
  {
    var more := links + {(i, j)};
    LinkedStep(more, i, j);
    LinkedBack(more, i, j);
    forall x: nat, y: nat | x < |rep| && y < |rep| ensures merged[x] == merged[y] <==> Linked(more, x, y) {
      if merged[x] == merged[y] {
        if rep[x] == rep[y] {
          LinkedMore(links, more, x, y);
        } else if rep[x] == rep[i] {
          LinkedMore(links, more, x, i);
          LinkedTrans(more, x, i, j);
          LinkedMore(links, more, j, y);
          LinkedTrans(more, x, j, y);
        } else {
          LinkedMore(links, more, x, j);
          LinkedTrans(more, x, j, i);
          LinkedMore(links, more, i, y);
          LinkedTrans(more, x, i, y);
        }
      }
      if Linked(more, x, y) {
        var p :| WalkFrom(more, p, x, y);
        forall l | l in more ensures merged[l.0] == merged[l.1] {
          if l in links { LinkedStep(links, l.0, l.1); }
        }
        WalkKeepsRoot(rep, merged, more, p);
      }
    }
  }

  lemma NoLinks(n: nat, rep: seq<nat>)
    requires |rep| == n && forall k :: 0 <= k < n ==> rep[k] == k
    ensures Partition(rep, {})
  {
    forall x: nat, y: nat | x < n && y < n ensures rep[x] == rep[y] <==> Linked({}, x, y) {
      if x == y { LinkedSelf({}, x); }
      if Linked({}, x, y) {
        var p :| WalkFrom({}, p, x, y);
        if |p| > 1 { assert Touch({}, p[0], p[1]); }
      }
    }
  }

  lemma Singletons(owner: seq<nat>, rep: seq<nat>, height: seq<nat>)
    requires |owner| == |rep| == |height| && forall k :: 0 <= k < |owner| ==> owner[k] == rep[k] == k
    ensures Forest(owner, rep, height)
  {
  }

  lemma SeenNext(g: Geometry, live: seq<Bit>, i: nat, j: nat)
    requires i < j < |live|
    ensures Seen(g, live, i, j + 1)
         == if Touches(g, live[i], live[j]) then Seen(g, live, i, j) + {(i, j)} else Seen(g, live, i, j)
  {
  }

  lemma SeenRow(g: Geometry, live: seq<Bit>, i: nat)
    requires i < |live|
    ensures Seen(g, live, i, |live|) == Seen(g, live, i + 1, i + 2)
  {
  }

  lemma NothingSeen(g: Geometry, live: seq<Bit>)
    ensures Seen(g, live, 0, 1) == {}
  {
  }

  lemma NothingLeft(g: Geometry, live: seq<Bit>)
    ensures Seen(g, live, |live|, |live| + 1) == Contacts(g, live)
  {
  }

  lemma SeenWithin(g: Geometry, live: seq<Bit>, i: nat, j: nat)
    ensures Within(Seen(g, live, i, j), |live|)
  {
  }

  /** Hang the root of one bit's tree under the root of the other's. */
  method Union(owner: array<nat>, i: nat, j: nat, ghost rep0: seq<nat>, ghost height0: seq<nat>,
               ghost links: set<(nat, nat)>)
    returns (ghost rep: seq<nat>, ghost height: seq<nat>)
    requires i < owner.Length && j < owner.Length
    requires Forest(owner[..], rep0, height0) && Partition(rep0, links) && Within(links, owner.Length)
    modifies owner
    ensures Forest(owner[..], rep, height) && Partition(rep, links + {(i, j)})
  {
    hide Partition, Linked, Forest;
    var to := Root(owner, j, rep0, height0);
    var from := Root(owner, i, rep0, height0);
    RootsAre(owner[..], rep0, height0, i, j);
    rep, height := MergedReps(rep0, from, to), LiftedHeights(rep0, height0, from, to);
    AddLink(rep0, links, i, j, rep);
    Hang(owner[..], rep0, height0, from, to);
    owner[from] := to;
  }

  lemma RootsAre(owner: seq<nat>, rep: seq<nat>, height: seq<nat>, i: nat, j: nat)
    requires Forest(owner, rep, height) && i < |owner| && j < |owner|
    ensures |rep| == |height| == |owner| && forall k :: 0 <= k < |rep| ==> rep[k] < |rep|
    ensures rep[rep[i]] == rep[i] && rep[rep[j]] == rep[j]
  {
  }

  /** The pair loop of joined: afterwards the trees are the groups of touching copper. */
  method Unite(g: Geometry, live: seq<Bit>) returns (owner: array<nat>, ghost rep: seq<nat>, ghost height: seq<nat>)
    ensures fresh(owner) && owner.Length == |live|
    ensures Forest(owner[..], rep, height) && Partition(rep, Contacts(g, live))
  {
    hide Partition, Linked, Seen, Forest;
    var n := |live|;
    owner := new nat[n](k => k);
    rep, height := seq(n, k => k), seq(n, k => 0);
    NoLinks(n, rep);
    NothingSeen(g, live);
    Singletons(owner[..], rep, height);
    for i := 0 to n
      invariant Forest(owner[..], rep, height) && Partition(rep, Seen(g, live, i, i + 1))
    {
      for j := i + 1 to n
        invariant Forest(owner[..], rep, height) && Partition(rep, Seen(g, live, i, j))
      {
        SeenNext(g, live, i, j);
        var one, two := live[i], live[j];
        if !LayersMeet(one, two) { continue; }
        if !g.near(one, two) { continue; }
        if g.severed(one, two) { continue; }
        SeenWithin(g, live, i, j);
        rep, height := Union(owner, i, j, rep, height, Seen(g, live, i, j));
      }
      SeenRow(g, live, i);
    }
    NothingLeft(g, live);
  }

  function Named(b: Bit): set<string> {
    if b.id.Some? && b.id.value != "" then {b.id.value} else {}
  }

  /** The ids of the bits placed in group `m`. */
  ghost function IdsAt(live: seq<Bit>, place: seq<nat>, m: nat): set<string>
    requires |place| <= |live|
  {
    set k, id | 0 <= k < |place| && place[k] == m && id in Named(live[k]) :: id
  }

  /** The first `k` bits sorted into groups, one group a root. */
  ghost predicate Grouped(live: seq<Bit>, k: nat, rep: seq<nat>, roots: seq<nat>, groups: seq<set<string>>, place: seq<nat>) {
    && |place| == k <= |live| == |rep| && |roots| == |groups| && Distinct(roots)
    && (forall x :: 0 <= x < k ==> place[x] < |roots| && roots[place[x]] == rep[x])
    && (forall m :: 0 <= m < |groups| ==> m in place && groups[m] == IdsAt(live, place, m))
  }

  lemma GroupNext(live: seq<Bit>, k: nat, rep: seq<nat>, roots: seq<nat>, groups: seq<set<string>>, place: seq<nat>, m: nat)
    requires k < |live| && Grouped(live, k, rep, roots, groups, place)
    requires m <= |roots| && rep[k] !in roots[..m] && (m < |roots| ==> roots[m] == rep[k])
    ensures m < |roots| ==>
      Grouped(live, k + 1, rep, roots, groups[m := groups[m] + Named(live[k])], place + [m])
    ensures m == |roots| ==>
      Grouped(live, k + 1, rep, roots + [rep[k]], (groups + [{}])[m := {} + Named(live[k])], place + [m])
  {
    IdsGrow(live, place, m);
    var more := place + [m];
    assert m in more by { assert more[k] == m; }
    forall o | 0 <= o < |groups| ensures o in more {
      assert o in place;
      var x :| 0 <= x < |place| && place[x] == o;
      assert more[x] == o;
    }
  }

  method IndexOf(roots: seq<nat>, r: nat) returns (m: nat)
    ensures m <= |roots| && r !in roots[..m]
    ensures m < |roots| ==> roots[m] == r
  {
    m := 0;
    while m < |roots| && roots[m] != r
      invariant m <= |roots| && r !in roots[..m]
    {
      m := m + 1;
    }
  }

  /** joined: one set of pad ids for each group of touching copper, `place` saying which group
      each bit left after the cut fell into.  Two bits share a group exactly when a chain of
      touches links them, and no group is without copper. */
  method Joined(g: Geometry, bits: seq<Bit>, drop: set<string>) returns (groups: seq<set<string>>, place: seq<nat>)
    ensures |place| == |Live(bits, drop)|
    ensures forall k :: 0 <= k < |place| ==> place[k] < |groups|
    ensures forall x: nat, y: nat :: x < |place| && y < |place| ==>
      (place[x] == place[y] <==> Linked(Contacts(g, Live(bits, drop)), x, y))
    ensures forall m :: 0 <= m < |groups| ==> m in place && groups[m] == IdsAt(Live(bits, drop), place, m)
  {
    hide Forest, Partition, Linked;
    var live := Live(bits, drop);
    var owner, rep, height := Unite(g, live);
    assert |rep| == |live| by { SizesMatch(owner[..], rep, height); }
    var roots: seq<nat> := [];
    groups, place := [], [];
    for k := 0 to |live|
      invariant Forest(owner[..], rep, height)
      invariant Grouped(live, k, rep, roots, groups, place)
    {
      var r := Root(owner, k, rep, height);
      var m := IndexOf(roots, r);
      GroupNext(live, k, rep, roots, groups, place, m);
      if m == |roots| {
        roots, groups := roots + [r], groups + [{}];
      }
      groups := groups[m := groups[m] + Named(live[k])];
      place := place + [m];
    }
    SamePlace(rep, roots, place, Contacts(g, live));
  }

  /** The ids read off group `m`: every kept bit placed there that has one, and no empty one. */
  lemma IdsAre(live: seq<Bit>, place: seq<nat>, m: nat, id: string)
    requires |place| == |live|
    ensures id in IdsAt(live, place, m) <==> id != "" && exists k: nat :: k < |place| && place[k] == m && live[k].id == Some(id)
  {
    if k: nat :| k < |place| && place[k] == m && live[k].id == Some(id) && id != "" {
      assert id in Named(live[k]);
    }
  }

  lemma SizesMatch(owner: seq<nat>, rep: seq<nat>, height: seq<nat>)
    requires Forest(owner, rep, height)
    ensures |owner| == |rep| == |height|
  {
  }

  lemma IdsGrow(live: seq<Bit>, place: seq<nat>, m: nat)
    requires |place| < |live|
    ensures forall o: nat ::
      IdsAt(live, place + [m], o) == IdsAt(live, place, o) + (if o == m then Named(live[|place|]) else {})
    ensures m !in place ==> IdsAt(live, place, m) == {}
  {
    var more := place + [m];
    forall o: nat ensures IdsAt(live, more, o) == IdsAt(live, place, o) + (if o == m then Named(live[|place|]) else {}) {
      forall id | id in IdsAt(live, place, o) ensures id in IdsAt(live, more, o) {
        var k :| 0 <= k < |place| && place[k] == o && id in Named(live[k]);
        assert more[k] == o;
      }
      if o == m {
        assert more[|place|] == o;
      }
    }
  }

  lemma SamePlace(rep: seq<nat>, roots: seq<nat>, place: seq<nat>, links: set<(nat, nat)>)
    requires |place| == |rep| && Distinct(roots) && Partition(rep, links)
    requires forall x :: 0 <= x < |place| ==> place[x] < |roots| && roots[place[x]] == rep[x]
    ensures forall x: nat, y: nat ::
      x < |place| && y < |place| ==> (place[x] == place[y] <==> Linked(links, x, y))
  {
  }

  // ----- what the caller reads off the groups ------------------------------------------------

  /** No two bits carry the same pad id. */
  ghost predicate UniqueIds(live: seq<Bit>) {
    forall x, y :: 0 <= x < y < |live| ==> Named(live[x]) !! Named(live[y])
  }

  ghost predicate Placed(live: seq<Bit>, groups: seq<set<string>>, place: seq<nat>) {
    && |place| == |live|
    && (forall k :: 0 <= k < |place| ==> place[k] < |groups|)
    && (forall m :: 0 <= m < |groups| ==> groups[m] == IdsAt(live, place, m))
  }

  /** Two pads are named in one group exactly when their copper was placed together. */
  lemma PadsShareGroup(live: seq<Bit>, groups: seq<set<string>>, place: seq<nat>, x: nat, y: nat, a: string, b: string)
    requires UniqueIds(live) && Placed(live, groups, place) && x < |live| && y < |live|
    requires a in Named(live[x]) && b in Named(live[y])
    ensures (exists m :: 0 <= m < |groups| && a in groups[m] && b in groups[m]) <==> place[x] == place[y]
  {
    OnlyIn(live, groups, place, x, a);
    OnlyIn(live, groups, place, y, b);
    if place[x] == place[y] {
      assert a in groups[place[x]] && b in groups[place[x]];
    }
  }

  lemma OnlyIn(live: seq<Bit>, groups: seq<set<string>>, place: seq<nat>, x: nat, a: string)
    requires UniqueIds(live) && Placed(live, groups, place) && x < |live| && a in Named(live[x])
    ensures forall m :: 0 <= m < |groups| ==> (a in groups[m] <==> m == place[x])
  {
    assert place[x] == place[x] && a in IdsAt(live, place, place[x]);
    forall m | 0 <= m < |groups| && a in groups[m] ensures m == place[x] {
      var k :| 0 <= k < |place| && place[k] == m && a in Named(live[k]);
      assert k == x;
    }
  }

  function Holding(groups: seq<set<string>>): seq<set<string>> {
    if groups == [] then []
    else (if groups[0] == {} then [] else [groups[0]]) + Holding(groups[1..])
  }

  lemma {:induction false} HoldingMany(groups: seq<set<string>>)
    ensures |Holding(groups)| > 0 <==> exists m :: 0 <= m < |groups| && groups[m] != {}
    ensures |Holding(groups)| > 1 <==> exists l, m :: 0 <= l < m < |groups| && groups[l] != {} && groups[m] != {}
    decreases |groups|
  {
    if groups != [] {
      var rest := groups[1..];
      HoldingMany(rest);
      forall m | 0 <= m < |rest| ensures rest[m] == groups[m + 1] {}
      if |Holding(groups)| > 1 {
        if groups[0] == {} {
          var l, m :| 0 <= l < m < |rest| && rest[l] != {} && rest[m] != {};
          assert groups[l + 1] != {} && groups[m + 1] != {};
        } else {
          var m :| 0 <= m < |rest| && rest[m] != {};
          assert groups[0] != {} && groups[m + 1] != {};
        }
      }
      if l, m :| 0 <= l < m < |groups| && groups[l] != {} && groups[m] != {} {
        assert rest[m - 1] != {};
        if l > 0 { assert rest[l - 1] != {} && rest[m - 1] != {}; }
      }
      if |Holding(groups)| > 0 {
        if groups[0] == {} {
          var m :| 0 <= m < |rest| && rest[m] != {};
          assert groups[m + 1] != {};
        }
      }
      if m :| 0 <= m < |groups| && groups[m] != {} {
        if m > 0 { assert rest[m - 1] != {}; }
      }
    }
  }

  /** The whole-net check of check_rules: it reports a net in pieces exactly when two of its pads
      have no chain of touching copper between them. */
  method NetInPieces(g: Geometry, bits: seq<Bit>) returns (broken: bool)
    ensures broken <==> exists x: nat, y: nat ::
      x < |bits| && y < |bits| && Named(bits[x]) != {} && Named(bits[y]) != {} && !Linked(Contacts(g, bits), x, y)
  {
    var groups, place := Joined(g, bits, {});
    LiveAll(bits);
    HoldingMany(groups);
    broken := |Holding(groups)| > 1;
    if broken {
      var l, m :| 0 <= l < m < |groups| && groups[l] != {} && groups[m] != {};
      var a :| a in groups[l];
      var b :| b in groups[m];
      var x: nat :| x < |place| && place[x] == l && a in Named(bits[x]);
      var y: nat :| y < |place| && place[y] == m && b in Named(bits[y]);
      assert !Linked(Contacts(g, bits), x, y);
    } else {
      forall x: nat, y: nat | x < |bits| && y < |bits| && Named(bits[x]) != {} && Named(bits[y]) != {}
        ensures Linked(Contacts(g, bits), x, y)
      {
        InItsGroup(bits, place, x);
        InItsGroup(bits, place, y);
        assert groups[place[x]] != {} && groups[place[y]] != {};
      }
    }
  }

  lemma InItsGroup(live: seq<Bit>, place: seq<nat>, x: nat)
    requires |place| == |live| && x < |live| && Named(live[x]) != {}
    ensures IdsAt(live, place, place[x]) != {}
  {
    var a :| a in Named(live[x]);
    assert a in IdsAt(live, place, place[x]);
  }

  lemma {:induction false} LiveAll(bits: seq<Bit>)
    ensures Live(bits, {}) == bits
    decreases |bits|
  {
    if bits != [] {
      LiveAll(bits[1..]);
    }
  }

  // ----- what a cut leaves, and the rules it is made for ---------------------------------------

  function Later(at: seq<nat>): (r: seq<nat>)
    ensures |r| == |at| && forall k :: 0 <= k < |at| ==> r[k] == at[k] + 1
  {
    seq(|at|, k requires 0 <= k < |at| => at[k] + 1)
  }

  lemma InLater(at: seq<nat>, i: nat)
    ensures i in Later(at) <==> i > 0 && i - 1 in at
  {
    if i > 0 && i - 1 in at {
      var k :| 0 <= k < |at| && at[k] == i - 1;
      assert Later(at)[k] == i;
    }
  }

  predicate Cut(b: Bit, drop: set<string>) {
    b.id.Some? && b.id.value in drop
  }

  /** Where the bits left by the cut stood. */
  function Places(bits: seq<Bit>, drop: set<string>): (at: seq<nat>)
    ensures |at| == |Live(bits, drop)|
  {
    if bits == [] then []
    else if Cut(bits[0], drop) then Later(Places(bits[1..], drop))
    else [0] + Later(Places(bits[1..], drop))
  }

  /** The cut takes out exactly the bits named in `drop`... */
  lemma {:induction false} PlacesAre(bits: seq<Bit>, drop: set<string>, i: nat)
    requires i < |bits|
    ensures i in Places(bits, drop) <==> !(bits[i].id.Some? && bits[i].id.value in drop)
    decreases i
  {
    hide Later, Live;
    InLater(Places(bits[1..], drop), i);
    if i > 0 { PlacesAre(bits[1..], drop, i - 1); }
  }

  /** ...and leaves the others as they were, in their order. */
  lemma {:induction false} LiveIs(bits: seq<Bit>, drop: set<string>, k: nat)
    requires k < |Live(bits, drop)|
    ensures Places(bits, drop)[k] < |bits| && Live(bits, drop)[k] == bits[Places(bits, drop)[k]]
    decreases |bits|
  {
    hide Later;
    if Cut(bits[0], drop) { LiveIs(bits[1..], drop, k); }
    else if k > 0 { LiveIs(bits[1..], drop, k - 1); }
  }

  lemma {:induction false} PlacesRise(bits: seq<Bit>, drop: set<string>)
    ensures forall k, l :: 0 <= k < l < |Places(bits, drop)| ==> Places(bits, drop)[k] < Places(bits, drop)[l]
    decreases |bits|
  {
    hide Later, Live;
    if bits != [] { PlacesRise(bits[1..], drop); }
  }

  /** Two bits touch when their layers do not differ, they are near enough, and no cut pad holds the
      touch; a bit that names no layer, or an empty one, is on all of them. */
  lemma ContactsAre(g: Geometry, live: seq<Bit>, i: nat, j: nat)
    ensures (i, j) in Contacts(g, live) <==>
      && i < j < |live|
      && !(live[i].layer.Some? && live[j].layer.Some? && live[i].layer.value != "" && live[j].layer.value != ""
           && live[i].layer.value != live[j].layer.value)
      && g.near(live[i], live[j]) && !g.severed(live[i], live[j])
  {
  }

  predicate Kept(live: seq<Bit>, a: string) {
    a != "" && exists x :: 0 <= x < |live| && live[x].id == Some(a)
  }

  /** A chain of touches runs from one pad to the other. */
  ghost predicate Bound(g: Geometry, live: seq<Bit>, a: string, b: string) {
    a != "" && b != "" && exists x: nat, y: nat ::
      x < |live| && y < |live| && live[x].id == Some(a) && live[y].id == Some(b) && Linked(Contacts(g, live), x, y)
  }

  ghost function StillBound(g: Geometry, live: seq<Bit>, pairs: seq<(string, string)>): seq<(string, string)> {
    if pairs == [] then []
    else StillBound(g, live, pairs[..|pairs| - 1])
         + (var p := pairs[|pairs| - 1]; if Bound(g, live, p.0, p.1) then [p] else [])
  }

  /** A pair with neither pad left is not missed. */
  ghost function CutOff(g: Geometry, live: seq<Bit>, pairs: seq<(string, string)>): seq<(string, string)> {
    if pairs == [] then []
    else CutOff(g, live, pairs[..|pairs| - 1])
         + (var p := pairs[|pairs| - 1];
            if !Bound(g, live, p.0, p.1) && (Kept(live, p.0) || Kept(live, p.1)) then [p] else [])
  }

  /** A rule passes if and only if no pair it parts is bound and each pair it keeps is bound, or has
      neither pad left: a pair whose pads are both gone, or were never there, is not looked at. */
  lemma {:induction false} RulePasses(g: Geometry, live: seq<Bit>, pairs: seq<(string, string)>)
    ensures StillBound(g, live, pairs) == [] <==> forall k :: 0 <= k < |pairs| ==> !Bound(g, live, pairs[k].0, pairs[k].1)
    ensures CutOff(g, live, pairs) == [] <==>
      forall k :: 0 <= k < |pairs| ==>
        Bound(g, live, pairs[k].0, pairs[k].1) || (!Kept(live, pairs[k].0) && !Kept(live, pairs[k].1))
    decreases |pairs|
  {
    hide Bound, Kept;
    if pairs != [] { RulePasses(g, live, pairs[..|pairs| - 1]); }
  }

  /** `group` says of each id a group that holds it. */
  ghost predicate Indexed(groups: seq<set<string>>, group: map<string, nat>) {
    && (forall a :: a in group <==> exists m :: 0 <= m < |groups| && a in groups[m])
    && (forall a :: a in group ==> group[a] < |groups| && a in groups[group[a]])
  }

  lemma AtBit(live: seq<Bit>, groups: seq<set<string>>, place: seq<nat>, group: map<string, nat>, x: nat, a: string)
    requires UniqueIds(live) && Placed(live, groups, place) && Indexed(groups, group)
    requires x < |live| && live[x].id == Some(a) && a != ""
    ensures a in group && group[a] == place[x]
  {
    hide UniqueIds;
    assert a in Named(live[x]);
    OnlyIn(live, groups, place, x, a);
    assert a in groups[place[x]];
  }

  lemma HasBit(live: seq<Bit>, groups: seq<set<string>>, place: seq<nat>, group: map<string, nat>, a: string) returns (x: nat)
    requires Placed(live, groups, place) && Indexed(groups, group) && a in group
    ensures a != "" && x < |live| && live[x].id == Some(a)
  {
    IdsAre(live, place, group[a], a);
    x :| x < |place| && place[x] == group[a] && live[x].id == Some(a);
  }

  /** What the two tests of check_rules find out about a pair. */
  lemma PairRead(g: Geometry, live: seq<Bit>, groups: seq<set<string>>, place: seq<nat>, group: map<string, nat>, a: string, b: string)
    requires UniqueIds(live) && Placed(live, groups, place) && Indexed(groups, group)
    requires forall x: nat, y: nat :: x < |place| && y < |place| ==> (place[x] == place[y] <==> Linked(Contacts(g, live), x, y))
    ensures a in group <==> Kept(live, a)
    ensures b in group <==> Kept(live, b)
    ensures (a in group && b in group && group[a] == group[b]) <==> Bound(g, live, a, b)
  {
    hide Linked, Contacts, UniqueIds, Placed, Indexed;
    assert |place| == |live| by { SameSize(live, groups, place); }
    forall x: nat | x < |live| && live[x].id == Some(a) && a != "" ensures a in group && group[a] == place[x] {
      AtBit(live, groups, place, group, x, a);
    }
    forall y: nat | y < |live| && live[y].id == Some(b) && b != "" ensures b in group && group[b] == place[y] {
      AtBit(live, groups, place, group, y, b);
    }
    if a in group {
      var x := HasBit(live, groups, place, group, a);
      if b in group { var y := HasBit(live, groups, place, group, b); }
    } else if b in group {
      var y := HasBit(live, groups, place, group, b);
    }
  }

  lemma SameSize(live: seq<Bit>, groups: seq<set<string>>, place: seq<nat>)
    requires Placed(live, groups, place)
    ensures |place| == |live|
  {
  }

  method IndexGroups(groups: seq<set<string>>) returns (group: map<string, nat>)
    ensures Indexed(groups, group)
  {
    group := map[];
    for k := 0 to |groups|
      invariant forall a :: a in group <==> exists m :: 0 <= m < k && a in groups[m]
      invariant forall a :: a in group ==> group[a] < k && a in groups[group[a]]
    {
      group := group + map a | a in groups[k] :: k;
    }
  }

  /** One rule of check_rules, the pads in `drop` cut out: it names each pair that must come apart
      and is still bound, and each pair that must stay bound and is not. */
  method CutFaults(g: Geometry, bits: seq<Bit>, drop: set<string>, apart: seq<(string, string)>, together: seq<(string, string)>)
    returns (still: seq<(string, string)>, torn: seq<(string, string)>)
    requires UniqueIds(bits)
    ensures still == StillBound(g, Live(bits, drop), apart)
    ensures torn == CutOff(g, Live(bits, drop), together)
  {
    hide Linked, Contacts, Bound, Kept, Live, UniqueIds, Indexed;
    ghost var live := Live(bits, drop);
    var groups, place := Joined(g, bits, drop);
    LiveUnique(bits, drop);
    var group := IndexGroups(groups);
    still, torn := [], [];
    for k := 0 to |apart|
      invariant still == StillBound(g, live, apart[..k])
    {
      var p := apart[k];
      assert apart[..k + 1][..k] == apart[..k];
      PairRead(g, live, groups, place, group, p.0, p.1);
      if p.0 in group && p.1 in group && group[p.0] == group[p.1] { still := still + [p]; }
    }
    assert apart[..|apart|] == apart;
    for k := 0 to |together|
      invariant torn == CutOff(g, live, together[..k])
    {
      var p := together[k];
      assert together[..k + 1][..k] == together[..k];
      PairRead(g, live, groups, place, group, p.0, p.1);
      var one := if p.0 in group then Some(group[p.0]) else None;
      var two := if p.1 in group then Some(group[p.1]) else None;
      if one != two { torn := torn + [p]; }
    }
    assert together[..|together|] == together;
  }

  lemma LiveUnique(bits: seq<Bit>, drop: set<string>)
    requires UniqueIds(bits)
    ensures UniqueIds(Live(bits, drop))
  {
    PlacesRise(bits, drop);
    forall k: nat | k < |Live(bits, drop)|
      ensures Places(bits, drop)[k] < |bits| && Live(bits, drop)[k] == bits[Places(bits, drop)[k]]
    {
      LiveIs(bits, drop, k);
    }
  }
}
