/**
 The ring of command ids already seen (firmware/main/app_tasks.c, already_ran and take_commands).
 The ring starts as eight empty ids, so an empty id counts as seen until eight others came.
 */
module CommandRing {

  const RING: nat := 8

  /** The ids passed on, behind the eight empty ones the ring is born with. */
  function Past(ran: seq<string>): (r: seq<string>)
    ensures |r| == RING + |ran|
  {
    ["", "", "", "", "", "", "", ""] + ran
  }

  /** The last eight. */
  function Window(ran: seq<string>): (r: seq<string>)
    ensures |r| == RING
  {
    Past(ran)[|ran|..]
  }

  /** already_ran, over a whole history. */
  predicate SeenBefore(ran: seq<string>, id: string) { id in Window(ran) }

  function PassOn(ran: seq<string>, id: string): seq<string> {
    if SeenBefore(ran, id) then ran else ran + [id]
  }

  function PassAll(ran: seq<string>, ids: seq<string>): seq<string>
    decreases |ids|
  {
    if ids == [] then ran else PassAll(PassOn(ran, ids[0]), ids[1..])
  }

  class Ring {
    var seen: array<string>
    var at: nat
    ghost var ran: seq<string>

    ghost predicate Valid()
      reads this, seen
    {
      seen.Length == RING && at < RING && Window(ran) == Turned(seen[..], at)
    }

    constructor ()
      ensures Valid() && ran == [] && fresh(seen)
    {
      seen := new string[RING](_ => "");
      at, ran := 0, [];
    }

    /** already_ran: true exactly for an id among the last eight passed on; any other takes the
        oldest one's place. */
    method AlreadyRan(id: string) returns (repeat: bool)
      requires Valid()
      modifies this, seen
      ensures Valid() && seen == old(seen)
      ensures repeat == SeenBefore(old(ran), id) && ran == PassOn(old(ran), id)
    {
      hide Window, Turned;
      ghost var was := seen[..];
      RingTurns(ran, was, at, id);
      var i := 0;
      while i < RING
        invariant i <= RING
        invariant forall k :: 0 <= k < i ==> seen[k] != id
      {
        if seen[i] == id {
          assert id in was;
          return true;
        }
        i := i + 1;
      }
      assert id !in was;
      seen[at] := id;
      assert seen[..] == was[at := id];
      at := (at + 1) % RING;
      ran := ran + [id];
      return false;
    }

    /** take_commands over what the queue held: which commands get past the ring. */
    method TakeAll(ids: seq<string>) returns (passed: seq<string>)
      requires Valid()
      modifies this, seen
      ensures Valid() && seen == old(seen)
      ensures ran == PassAll(old(ran), ids) && ran == old(ran) + passed
    {
      passed := [];
      assert ids[0..] == ids;
      for k := 0 to |ids|
        invariant Valid() && seen == old(seen) && ran == old(ran) + passed
        invariant PassAll(ran, ids[k..]) == PassAll(old(ran), ids)
      {
        assert ids[k..][1..] == ids[k + 1..];
        var repeat := AlreadyRan(ids[k]);
        if !repeat { passed := passed + [ids[k]]; }
      }
    }
  }

  /** A ring read from `at` on. */
  function Turned(seen: seq<string>, at: nat): seq<string>
    requires at <= |seen|
  {
    seen[at..] + seen[..at]
  }

  lemma InTurned(seen: seq<string>, at: nat, id: string)
    requires at <= |seen|
    ensures id in Turned(seen, at) <==> id in seen
  {
    assert seen == seen[..at] + seen[at..];
  }

  lemma TurnOne(seen: seq<string>, at: nat, id: string)
    requires |seen| == RING && at < RING
    ensures Turned(seen[at := id], (at + 1) % RING) == Turned(seen, at)[1..] + [id]
  {
  }

  /** What one look at the ring finds, and what one id put in at `at` makes of it. */
  lemma RingTurns(ran: seq<string>, seen: seq<string>, at: nat, id: string)
    requires |seen| == RING && at < RING && Window(ran) == Turned(seen, at)
    ensures SeenBefore(ran, id) <==> id in seen
    ensures Window(ran + [id]) == Turned(seen[at := id], (at + 1) % RING)
  {
    hide Window, Turned;
    InTurned(seen, at, id);
    TurnOne(seen, at, id);
    WindowMoves(ran, id);
  }

  lemma WindowMoves(ran: seq<string>, id: string)
    ensures Window(ran + [id]) == Window(ran)[1..] + [id]
  {
    assert Past(ran + [id]) == Past(ran) + [id];
  }

  // ----- what the ring promises ------------------------------------------------------------------------

  /** No id comes back among the eight passed on after it. */
  predicate Spread(ran: seq<string>) {
    forall p, q :: 0 <= p < q < |ran| && q <= p + RING ==> ran[p] != ran[q]
  }

  lemma PassOnSpreads(ran: seq<string>, id: string)
    requires Spread(ran)
    ensures Spread(PassOn(ran, id))
  {
    if !SeenBefore(ran, id) {
      var more := ran + [id];
      forall p, q | 0 <= p < q < |more| && q <= p + RING ensures more[p] != more[q] {
        if q == |ran| {
          assert Past(ran)[RING + p] == ran[p];
          assert Window(ran)[RING + p - |ran|] == ran[p];
        }
      }
    }
  }

  lemma {:induction false} PassAllSpreads(ran: seq<string>, ids: seq<string>)
    requires Spread(ran)
    ensures Spread(PassAll(ran, ids))
    decreases |ids|
  {
    if ids != [] {
      PassOnSpreads(ran, ids[0]);
      PassAllSpreads(PassOn(ran, ids[0]), ids[1..]);
    }
  }

  /** Over any deliveries, a command is passed on a second time only after at least eight others,
      all different from it and from one another, were passed on in between. */
  lemma AtLeastEightBetween(ids: seq<string>, p: nat, q: nat)
    requires p < q < |PassAll([], ids)| && PassAll([], ids)[p] == PassAll([], ids)[q]
    ensures var ran := PassAll([], ids);
            && q - p > RING
            && (forall i :: p < i <= p + RING ==> ran[i] != ran[p])
            && (forall i, j :: p < i < j <= p + RING ==> ran[i] != ran[j])
  {
    PassAllSpreads([], ids);
  }

  /** A delivery is dropped exactly when its id is one of the last eight passed on, so the first
      delivery of an id that is not empty is never dropped. */
  lemma {:induction false} FirstIsPassedOn(ran: seq<string>, ids: seq<string>, id: string)
    requires id != "" && id in ids && id !in ran
    ensures id in PassAll(ran, ids)
    decreases |ids|
  {
    if ids[0] == id {
      assert id !in Window(ran) by {
        forall k | 0 <= k < RING ensures Window(ran)[k] != id {
          if |ran| + k >= RING { assert Window(ran)[k] == ran[|ran| + k - RING]; }
        }
      }
      assert (ran + [id])[|ran|] == id;
      PassAllKeeps(PassOn(ran, id), ids[1..], id);
    } else {
      assert id in ids[1..];
      assert id !in PassOn(ran, ids[0]);
      FirstIsPassedOn(PassOn(ran, ids[0]), ids[1..], id);
    }
  }

  lemma {:induction false} PassAllKeeps(ran: seq<string>, ids: seq<string>, id: string)
    requires id in ran
    ensures id in PassAll(ran, ids)
    decreases |ids|
  {
    if ids != [] {
      var i :| 0 <= i < |ran| && ran[i] == id;
      assert PassOn(ran, ids[0])[i] == id;
      PassAllKeeps(PassOn(ran, ids[0]), ids[1..], id);
    }
  }

  /** An id not passed on before is dropped exactly when it is empty and the ring still holds some
      of the eight empty ids it was born with. */
  lemma NewIsDropped(ran: seq<string>, id: string)
    requires id !in ran
    ensures PassOn(ran, id) == ran <==> id == "" && |ran| < RING
  {
    forall k | 0 <= k < RING ensures Window(ran)[k] == if |ran| + k < RING then "" else ran[|ran| + k - RING] {}
    assert |ran + [id]| != |ran|;
    if id == "" && |ran| < RING { assert Window(ran)[0] == id; }
  }

  /** What the first delivery of an id does, wherever it comes in a run. */
  lemma FirstDelivery(ids: seq<string>, id: string)
    requires id !in ids
    ensures PassAll([], ids + [id]) == PassAll([], ids) <==> id == "" && |PassAll([], ids)| < RING
  {
    PassAllFrom([], ids, id);
    PassAllLast([], ids, id);
    NewIsDropped(PassAll([], ids), id);
  }

  lemma {:induction false} PassAllFrom(ran: seq<string>, ids: seq<string>, id: string)
    requires id !in ran && id !in ids
    ensures id !in PassAll(ran, ids)
    decreases |ids|
  {
    if ids != [] {
      assert ids[0] != id && id !in ids[1..];
      PassAllFrom(PassOn(ran, ids[0]), ids[1..], id);
    }
  }

  lemma {:induction false} PassAllLast(ran: seq<string>, ids: seq<string>, id: string)
    ensures PassAll(ran, ids + [id]) == PassOn(PassAll(ran, ids), id)
    decreases |ids|
  {
    if ids == [] {
      assert [] + [id] == [id] && [id][1..] == [];
    } else {
      assert (ids + [id])[1..] == ids[1..] + [id];
      PassAllLast(PassOn(ran, ids[0]), ids[1..], id);
    }
  }

  /** The empty id is the exception: on a fresh ring it is dropped the first time it comes. */
  lemma EmptyIdDropped()
    ensures PassAll([], [""]) == []
  {
    assert Window([])[0] == "";
    assert [""][1..] == [];
    assert PassAll([], []) == [];
  }
}
