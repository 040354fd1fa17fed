/** Names in the order Python's sorted gives them: character by character, a shorter name first. */
module Names {

  predicate Before(a: string, b: string) {
    if b == [] then false
    else if a == [] then true
    else if a[0] != b[0] then a[0] < b[0]
    else Before(a[1..], b[1..])
  }

  lemma {:induction false} OneWay(a: string, b: string)
    ensures a != b <==> Before(a, b) || Before(b, a)
    ensures !(Before(a, b) && Before(b, a))
    decreases |a|
  {
    if a != [] && b != [] {
      assert a == [a[0]] + a[1..] && b == [b[0]] + b[1..];
      OneWay(a[1..], b[1..]);
    }
  }

  lemma {:induction false} BeforeTrans(a: string, b: string, c: string)
    requires Before(a, b) && Before(b, c)
    ensures Before(a, c)
    decreases |a|
  {
    if a != [] && b != [] && c != [] && a[0] == b[0] && b[0] == c[0] { BeforeTrans(a[1..], b[1..], c[1..]); }
  }

  predicate Ascending(order: seq<string>) {
    forall i, j :: 0 <= i < j < |order| ==> Before(order[i], order[j])
  }

  predicate First(name: string, names: set<string>) {
    name in names && forall o :: o in names && o != name ==> Before(name, o)
  }

  lemma {:induction false} SomeFirst(names: set<string>) returns (name: string)
    requires names != {}
    ensures First(name, names)
    decreases |names|
  {
    var some :| some in names;
    if names == {some} {
      name := some;
    } else {
      var rest := SomeFirst(names - {some});
      OneWay(some, rest);
      name := if Before(some, rest) then some else rest;
      forall o | o in names && o != name ensures Before(name, o) {
        if o != rest && o != some && name == some { BeforeTrans(some, rest, o); }
      }
    }
  }

  /** sorted, on a set of names. */
  method Sorted(names: set<string>) returns (order: seq<string>)
    ensures Ascending(order) && |order| == |names| && forall n :: n in names <==> n in order
  {
    hide Before;
    order := [];
    var left := names;
    while left != {}
      invariant left <= names && |order| + |left| == |names| && Ascending(order)
      invariant forall n :: n in names <==> n in order || n in left
      invariant forall i, n :: 0 <= i < |order| && n in left ==> Before(order[i], n)
      decreases |left|
    {
      ghost var some := SomeFirst(left);
      var n :| n in left && forall o :: o in left && o != n ==> Before(n, o);
      order, left := order + [n], left - {n};
    }
  }

  /** a comes before b: b goes on where a ends, or the first character in which they differ is the
      smaller in a. */
  lemma {:induction false} BeforeIs(a: string, b: string)
    ensures Before(a, b) <==>
      exists k :: 0 <= k <= |a| && k < |b| && a[..k] == b[..k] && (k == |a| || a[k] < b[k])
    decreases |a|
  {
    if a != [] && b != [] && a[0] == b[0] {
      BeforeIs(a[1..], b[1..]);
      if Before(a, b) {
        var k :| 0 <= k <= |a[1..]| && k < |b[1..]| && a[1..][..k] == b[1..][..k] && (k == |a[1..]| || a[1..][k] < b[1..][k]);
        assert a[..k + 1] == [a[0]] + a[1..][..k] && b[..k + 1] == [b[0]] + b[1..][..k];
      }
      if k :| 0 <= k <= |a| && k < |b| && a[..k] == b[..k] && (k == |a| || a[k] < b[k]) {
        assert k > 0;
        assert a[1..][..k - 1] == a[..k][1..] && b[1..][..k - 1] == b[..k][1..];
      }
    } else if b != [] {
      assert a[..0] == b[..0];
      forall k | 0 < k <= |a| && k < |b| ensures a[..k] != b[..k] { assert a[..k][0] != b[..k][0]; }
    }
  }
}
