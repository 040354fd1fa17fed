/** Undirected walks: what a set of links connects. */
module Walks {

  ghost predicate Touch<V>(links: set<(V, V)>, u: V, v: V) {
    (u, v) in links || (v, u) in links
  }

  ghost predicate Walk<V>(links: set<(V, V)>, p: seq<V>) {
    |p| > 0 && forall k :: 0 < k < |p| ==> Touch(links, p[k - 1], p[k])
  }

  ghost predicate WalkFrom<V>(links: set<(V, V)>, p: seq<V>, u: V, v: V) {
    Walk(links, p) && p[0] == u && p[|p| - 1] == v
  }

  ghost predicate Linked<V(!new)>(links: set<(V, V)>, u: V, v: V) {
    exists p :: WalkFrom(links, p, u, v)
  }

  lemma LinkedSelf<V(!new)>(links: set<(V, V)>, u: V)
    ensures Linked(links, u, u)
  {
    assert WalkFrom(links, [u], u, u);
  }

  lemma LinkedStep<V(!new)>(links: set<(V, V)>, u: V, v: V)
    requires Touch(links, u, v)
    ensures Linked(links, u, v)
  {
    assert WalkFrom(links, [u, v], u, v);
  }

  lemma LinkedTrans<V(!new)>(links: set<(V, V)>, u: V, v: V, w: V)
    requires Linked(links, u, v) && Linked(links, v, w)
    ensures Linked(links, u, w)
  {
    var p :| WalkFrom(links, p, u, v);
    var q :| WalkFrom(links, q, v, w);
    var r := p + q[1..];
    forall k | 0 < k < |r| ensures Touch(links, r[k - 1], r[k]) {
      if k < |p| { assert Touch(links, p[k - 1], p[k]); }
      else { assert Touch(links, q[k - |p|], q[k - |p| + 1]); }
    }
    assert WalkFrom(links, r, u, w);
  }

  lemma LinkedBack<V(!new)>(links: set<(V, V)>, u: V, v: V)
    requires Linked(links, u, v)
    ensures Linked(links, v, u)
  {
    var p :| WalkFrom(links, p, u, v);
    var r := seq(|p|, i requires 0 <= i < |p| => p[|p| - 1 - i]);
    forall k | 0 < k < |r| ensures Touch(links, r[k - 1], r[k]) {
      var m := |p| - k;
      assert Touch(links, p[m - 1], p[m]);
    }
    assert WalkFrom(links, r, v, u);
  }

  /** If every touch along a walk is bridged by other links, so is the walk. */
  lemma {:induction false} WalkBridged<V(!new)>(links: set<(V, V)>, other: set<(V, V)>, p: seq<V>)
    requires Walk(links, p)
    requires forall k :: 0 < k < |p| ==> Linked(other, p[k - 1], p[k])
    ensures Linked(other, p[0], p[|p| - 1])
    decreases |p|
  {
    if |p| == 1 {
      LinkedSelf(other, p[0]);
    } else {
      var n := |p| - 1;
      var q := p[..n];
      forall k | 0 < k < |q| ensures Touch(links, q[k - 1], q[k]) && Linked(other, q[k - 1], q[k]) {
        assert Touch(links, p[k - 1], p[k]);
      }
      WalkBridged(links, other, q);
      LinkedTrans(other, p[0], p[n - 1], p[n]);
    }
  }

  lemma LinkedMore<V(!new)>(links: set<(V, V)>, more: set<(V, V)>, u: V, v: V)
    requires links <= more && Linked(links, u, v)
    ensures Linked(more, u, v)
  {
    var p :| WalkFrom(links, p, u, v);
    forall k | 0 < k < |p| ensures Touch(more, p[k - 1], p[k]) {
      assert Touch(links, p[k - 1], p[k]);
    }
    assert WalkFrom(more, p, u, v);
  }

  predicate Distinct<V(==)>(p: seq<V>) {
    forall i, j :: 0 <= i < j < |p| ==> p[i] != p[j]
  }

  /** Cutting its loops out of a walk leaves one that visits no place twice. */
  lemma {:induction false} SimpleWalk<V>(links: set<(V, V)>, p: seq<V>, u: V, v: V) returns (q: seq<V>)
    requires WalkFrom(links, p, u, v)
    ensures WalkFrom(links, q, u, v) && Distinct(q)
    decreases |p|
  {
    if Distinct(p) {
      q := p;
    } else {
      var i, j :| 0 <= i < j < |p| && p[i] == p[j];
      var r := p[..i] + p[j..];
      forall k | 0 < k < |r| ensures Touch(links, r[k - 1], r[k]) {
        if k < i { assert Touch(links, p[k - 1], p[k]); }
        else if k == i { assert Touch(links, p[i - 1], p[i]); }
        else { assert Touch(links, p[j + k - i - 1], p[j + k - i]); }
      }
      q := SimpleWalk(links, r, u, v);
    }
  }

  /** A walk that starts inside a set and ends outside it leaves it somewhere. */
  lemma {:induction false} LeavesAt<V>(p: seq<V>, side: set<V>) returns (m: nat)
    requires |p| > 0 && p[0] in side && p[|p| - 1] !in side
    ensures 0 < m < |p| && p[m - 1] in side && p[m] !in side
    decreases |p|
  {
    if p[1] in side {
      m := LeavesAt(p[1..], side);
      m := m + 1;
    } else {
      m := 1;
    }
  }
}
