/**
 The router's search (hardware/gen/gen_pcb.py, find_path): A* over (cell, facing, layer),
 where a turn, a via and the side the net does not want all cost extra.  A trail is what the
 caller sees, a list of (cell, layer) seats; a state adds the direction the track is facing.
 */
module PathSearch {
  import opened Wrappers

  const NX: nat := 791
  const NY: nat := 606
  const CELLS: nat := 479346
  const STATES: nat := 3834768
  const TURN_COST: nat := 6
  const VIA_COST: nat := 30
  const WRONG_SIDE: nat := 1
  const UNSEEN: nat := 0x4000_0000

  /** What blocks the copper of one job: a track may not enter a wall, a via may not sit on a
      hole field.  Both are per layer, indexed by cell. */
  datatype Field = Field(wall: seq<seq<bool>>, hole: seq<seq<bool>>) {
    predicate Valid() {
      && |wall| == 2 && |wall[0]| == CELLS && |wall[1]| == CELLS
      && |hole| == 2 && |hole[0]| == CELLS && |hole[1]| == CELLS
    }
  }

  datatype Seat = Seat(cell: nat, lay: nat)

  function X(cell: nat): nat { cell % NX }

  function Y(cell: nat): nat { cell / NX }

  function Dx(turn: nat): int { if turn == 0 then 1 else if turn == 2 then -1 else 0 }

  function Dy(turn: nat): int { if turn == 1 then 1 else if turn == 3 then -1 else 0 }

  /** Cell `to` is the neighbour of `from` in direction `turn`, both on the board. */
  predicate Adjacent(from: nat, to: nat, turn: nat) {
    && from < CELLS && to < CELLS && turn < 4
    && X(to) == X(from) + Dx(turn) && Y(to) == Y(from) + Dy(turn)
  }

  predicate Open(f: Field, s: Seat)
    requires f.Valid()
  {
    s.cell < CELLS && s.lay < 2 && !f.wall[s.lay][s.cell]
  }

  predicate ViaClear(f: Field, cell: nat)
    requires f.Valid() && cell < CELLS
  {
    !f.hole[0][cell] && !f.hole[1][cell]
  }

  function Bias(want: nat, lay: nat): nat { if lay == want then 0 else WRONG_SIDE }

  // ----- trails, the caller's view ---------------------------------------------------------

  function Heading(from: nat, to: nat): nat {
    if X(to) == X(from) + 1 then 0
    else if Y(to) == Y(from) + 1 then 1
    else if X(to) == X(from) - 1 then 2
    else 3
  }

  /** One link of a trail: a via where both via fields are clear, or one cell sideways. */
  predicate Link(f: Field, a: Seat, b: Seat)
    requires f.Valid()
  {
    && Open(f, a) && Open(f, b)
    && (if a.cell == b.cell then b.lay == 1 - a.lay && ViaClear(f, a.cell)
        else a.lay == b.lay && Adjacent(a.cell, b.cell, Heading(a.cell, b.cell)))
  }

  predicate Legal(f: Field, trail: seq<Seat>)
    requires f.Valid()
  {
    && |trail| > 0 && Open(f, trail[0])
    && forall k :: 0 < k < |trail| ==> Link(f, trail[k - 1], trail[k])
  }

  predicate Joins(f: Field, trail: seq<Seat>, src: nat, dst: nat)
    requires f.Valid()
  {
    Legal(f, trail) && trail[0].cell == src && trail[|trail| - 1].cell == dst
  }

  /** What a trail costs when the track leaves its first seat facing `face`. */
  function Price(want: nat, trail: seq<Seat>, face: nat): nat
    decreases |trail|
  {
    if |trail| <= 1 then 0
    else if trail[0].cell == trail[1].cell then VIA_COST + Price(want, trail[1..], face)
    else
      var turn := Heading(trail[0].cell, trail[1].cell);
      1 + Bias(want, trail[0].lay) + (if turn == face then 0 else TURN_COST) + Price(want, trail[1..], turn)
  }

  // ----- states, the search's view ---------------------------------------------------------

  function CellOf(state: nat): nat { state / 8 }

  function FaceOf(state: nat): nat { state / 2 % 4 }

  function LayOf(state: nat): nat { state % 2 }

  function SeatOf(state: nat): Seat { Seat(CellOf(state), LayOf(state)) }

  function Code(cell: nat, face: nat, lay: nat): nat { (cell * 4 + face) * 2 + lay }

  lemma CodeParts(cell: nat, face: nat, lay: nat)
    requires face < 4 && lay < 2
    ensures CellOf(Code(cell, face, lay)) == cell
    ensures FaceOf(Code(cell, face, lay)) == face
    ensures LayOf(Code(cell, face, lay)) == lay
    ensures cell < CELLS ==> Code(cell, face, lay) < STATES
  {
  }

  lemma CodeWhole(state: nat)
    ensures state == Code(CellOf(state), FaceOf(state), LayOf(state))
  {
  }

  predicate Starts(f: Field, src: nat, state: nat)
    requires f.Valid()
  {
    state < STATES && CellOf(state) == src && Open(f, SeatOf(state))
  }

  /** One move of the search. */
  predicate Hop(f: Field, s: nat, t: nat)
    requires f.Valid()
  {
    && s < STATES && t < STATES && CellOf(s) < CELLS && Open(f, SeatOf(t))
    && (if CellOf(s) == CellOf(t) then
          FaceOf(t) == FaceOf(s) && LayOf(t) == 1 - LayOf(s) && ViaClear(f, CellOf(s))
        else LayOf(t) == LayOf(s) && Adjacent(CellOf(s), CellOf(t), FaceOf(t)))
  }

  function HopPrice(want: nat, s: nat, t: nat): nat {
    if CellOf(s) == CellOf(t) then VIA_COST
    else 1 + Bias(want, LayOf(s)) + (if FaceOf(t) == FaceOf(s) then 0 else TURN_COST)
  }

  function Abs(x: int): nat { if x < 0 then -x else x }

  /** The distance the heap is ordered by. */
  function Far(dst: nat, cell: nat): nat { Abs(X(cell) - X(dst)) + Abs(Y(cell) - Y(dst)) }

  lemma Neighbour(cell: nat, turn: nat)
    requires cell < CELLS && turn < 4
    requires 0 <= X(cell) + Dx(turn) < NX && 0 <= Y(cell) + Dy(turn) < NY
    ensures var to := (Y(cell) + Dy(turn)) * NX + (X(cell) + Dx(turn));
            0 <= to && Adjacent(cell, to, turn) && to != cell
  {
  }

  lemma AdjacentIs(from: nat, to: nat, turn: nat)
    requires Adjacent(from, to, turn)
    ensures to == (Y(from) + Dy(turn)) * NX + (X(from) + Dx(turn))
    ensures 0 <= X(from) + Dx(turn) < NX && 0 <= Y(from) + Dy(turn) < NY
    ensures from != to && Heading(from, to) == turn
  {
  }

  // ----- what the search keeps -------------------------------------------------------------

  /** A heap entry, ordered by `rank`; `cost` is what the state cost when it was pushed. */
  datatype Entry = Entry(rank: nat, cost: nat, state: nat)

  datatype Job = Job(f: Field, want: nat, src: nat, dst: nat)

  /** The search's tables, with the ghost part a proof needs: which states were expanded, and
      the rank of the last entry popped. */
  datatype Tables = Tables(best: map<nat, nat>, came: map<nat, nat>, heap: set<Entry>,
                           closed: set<nat>, floor: nat)

  ghost predicate Known(j: Job, best: map<nat, nat>, closed: set<nat>)
    requires j.f.Valid()
  {
    && closed <= best.Keys
    && (forall s :: s in best ==> s < STATES && Open(j.f, SeatOf(s)))
    && (forall s :: s in best ==> best[s] <= VIA_COST * |closed|)
    && (forall s :: Starts(j.f, j.src, s) ==> s in best && best[s] == 0)
  }

  /** Every state but a start was reached from an expanded one, at exactly the price of the move. */
  ghost predicate Sourced(j: Job, best: map<nat, nat>, came: map<nat, nat>, closed: set<nat>, s: nat)
    requires j.f.Valid() && s in best
  {
    if s in came then
      && came[s] in closed && came[s] in best && Hop(j.f, came[s], s)
      && best[s] == best[came[s]] + HopPrice(j.want, came[s], s)
    else Starts(j.f, j.src, s) && best[s] == 0
  }

  function Push(j: Job, cost: nat, state: nat): Entry {
    Entry(cost + Far(j.dst, CellOf(state)), cost, state)
  }

  /** A state still to expand waits on the heap under its best cost. */
  ghost predicate Waits(j: Job, best: map<nat, nat>, heap: set<Entry>, s: nat)
    requires s in best
  {
    Push(j, best[s], s) in heap
  }

  /** An entry never undercuts its state, nor the ranks already popped. */
  ghost predicate Sound(j: Job, best: map<nat, nat>, closed: set<nat>, floor: nat, e: Entry) {
    && e.state in best && e == Push(j, e.cost, e.state)
    && best[e.state] <= e.cost && floor <= e.rank
    && (e.state in closed ==> best[e.state] < e.cost)
  }

  ghost predicate Queued(j: Job, m: Tables) {
    && (forall s :: s in m.best && s !in m.closed ==> Waits(j, m.best, m.heap, s))
    && (forall e :: e in m.heap ==> Sound(j, m.best, m.closed, m.floor, e))
  }

  /** A move out of state `s` that the costs already account for. */
  ghost predicate Relaxed(j: Job, best: map<nat, nat>, s: nat, t: nat)
    requires j.f.Valid() && s in best
  {
    Hop(j.f, s, t) ==> t in best && best[t] <= best[s] + HopPrice(j.want, s, t)
  }

  ghost predicate Settled(j: Job, best: map<nat, nat>, floor: nat, s: nat)
    requires s in best
  {
    CellOf(s) != j.dst && best[s] + Far(j.dst, CellOf(s)) <= floor
  }

  ghost predicate Inv(j: Job, m: Tables)
    requires j.f.Valid()
  {
    && Known(j, m.best, m.closed) && Queued(j, m)
    && (forall s :: s in m.best ==> Sourced(j, m.best, m.came, m.closed, s))
    && (forall s :: s in m.closed ==> Settled(j, m.best, m.floor, s))
  }

  /** `Inv`, with every move out of every expanded state accounted for, `cur`'s only where `done`. */
  ghost predicate InvBut(j: Job, m: Tables, cur: nat, done: set<nat>)
    requires j.f.Valid()
  {
    && Inv(j, m)
    && (forall s, t :: s in m.closed && (s != cur || t in done) ==> Relaxed(j, m.best, s, t))
  }

  ghost predicate InvAll(j: Job, m: Tables)
    requires j.f.Valid()
  {
    && Inv(j, m)
    && (forall s, t :: s in m.closed ==> Relaxed(j, m.best, s, t))
  }

  // ----- the heap's order never overestimates ------------------------------------------------

  lemma FarSteps(f: Field, dst: nat, s: nat, t: nat, want: nat)
    requires f.Valid() && Hop(f, s, t)
    ensures Far(dst, CellOf(s)) <= HopPrice(want, s, t) + Far(dst, CellOf(t))
    ensures 0 < HopPrice(want, s, t) <= VIA_COST
  {
  }

  lemma {:induction false} FarBounds(f: Field, want: nat, trail: seq<Seat>, face: nat, dst: nat)
    requires f.Valid() && Legal(f, trail) && trail[|trail| - 1].cell == dst
    ensures Far(dst, trail[0].cell) <= Price(want, trail, face)
    decreases |trail|
  {
    if |trail| > 1 {
      var next := if trail[0].cell == trail[1].cell then face else Heading(trail[0].cell, trail[1].cell);
      LegalTail(f, trail);
      FarBounds(f, want, trail[1..], next, dst);
      assert Link(f, trail[0], trail[1]);
    }
  }

  lemma LegalTail(f: Field, trail: seq<Seat>)
    requires f.Valid() && Legal(f, trail) && |trail| > 1
    ensures Legal(f, trail[1..])
    ensures Link(f, trail[0], trail[1])
  {
    var rest := trail[1..];
    assert Link(f, trail[1 - 1], trail[1]);
    forall k | 0 < k < |rest|
      ensures Link(f, rest[k - 1], rest[k])
    {
      assert Link(f, trail[(k + 1) - 1], trail[k + 1]);
    }
  }

  /** A link of a trail, taken while facing `face`, is a move of the search. */
  lemma LinkIsHop(f: Field, want: nat, trail: seq<Seat>, face: nat) returns (turn: nat)
    requires f.Valid() && Legal(f, trail) && |trail| > 1 && face < 4
    ensures turn < 4
    ensures Hop(f, Code(trail[0].cell, face, trail[0].lay), Code(trail[1].cell, turn, trail[1].lay))
    ensures Price(want, trail, face)
         == HopPrice(want, Code(trail[0].cell, face, trail[0].lay), Code(trail[1].cell, turn, trail[1].lay))
          + Price(want, trail[1..], turn)
  {
    LegalTail(f, trail);
    turn := if trail[0].cell == trail[1].cell then face else Heading(trail[0].cell, trail[1].cell);
    CodeParts(trail[0].cell, face, trail[0].lay);
    CodeParts(trail[1].cell, turn, trail[1].lay);
  }

  /** While the least rank on the heap is `least`, no trail to the goal through a known state is
      cheaper: it leaves the expanded states somewhere, and that state is on the heap. */
  lemma {:induction false} NothingCheaper(j: Job, m: Tables, trail: seq<Seat>, face: nat, spent: nat, least: nat)
    requires j.f.Valid() && j.dst < CELLS && InvAll(j, m)
    requires face < 4 && Legal(j.f, trail) && trail[|trail| - 1].cell == j.dst
    requires Code(trail[0].cell, face, trail[0].lay) in m.best
    requires m.best[Code(trail[0].cell, face, trail[0].lay)] <= spent
    requires forall e :: e in m.heap ==> least <= e.rank
    ensures least <= spent + Price(j.want, trail, face)
    decreases |trail|
  {
    var s := Code(trail[0].cell, face, trail[0].lay);
    CodeParts(trail[0].cell, face, trail[0].lay);
    if s !in m.closed {
      FarBounds(j.f, j.want, trail, face, j.dst);
      assert Waits(j, m.best, m.heap, s);
    } else {
      assert Settled(j, m.best, m.floor, s);
      assert |trail| > 1;
      var turn := LinkIsHop(j.f, j.want, trail, face);
      var t := Code(trail[1].cell, turn, trail[1].lay);
      assert Relaxed(j, m.best, s, t);
      LegalTail(j.f, trail);
      NothingCheaper(j, m, trail[1..], turn, spent + HopPrice(j.want, s, t), least);
    }
  }

  // ----- one round of the loop ---------------------------------------------------------------

  ghost predicate Least(e: Entry, heap: set<Entry>) {
    e in heap && forall o :: o in heap ==> e.rank <= o.rank
  }

  lemma {:induction false} SomeLeast(heap: set<Entry>) returns (e: Entry)
    requires heap != {}
    ensures Least(e, heap)
    decreases |heap|
  {
    e :| e in heap;
    if heap != {e} {
      var o := SomeLeast(heap - {e});
      if o.rank < e.rank { e := o; }
    }
  }

  /** heapq's contract, whatever it does among entries of equal rank. */
  method PopLeast(heap: set<Entry>) returns (e: Entry, rest: set<Entry>)
    requires heap != {}
    ensures Least(e, heap) && rest == heap - {e}
  {
    ghost var some := SomeLeast(heap);
    e :| e in heap && forall o :: o in heap ==> e.rank <= o.rank;
    rest := heap - {e};
  }

  /** An entry that a cheaper push overtook is dropped. */
  lemma DropStale(j: Job, m: Tables, e: Entry)
    requires j.f.Valid() && InvAll(j, m) && Least(e, m.heap)
    requires e.cost > m.best[e.state]
    ensures InvAll(j, m.(heap := m.heap - {e}, floor := e.rank))
  {
    var m' := m.(heap := m.heap - {e}, floor := e.rank);
    forall s | s in m.best && s !in m.closed ensures Waits(j, m.best, m'.heap, s) {
      assert Waits(j, m.best, m.heap, s);
    }
    forall o | o in m'.heap ensures Sound(j, m.best, m.closed, e.rank, o) {
      assert Sound(j, m.best, m.closed, m.floor, o);
    }
    forall s | s in m.closed ensures Settled(j, m.best, e.rank, s) {
      assert Settled(j, m.best, m.floor, s);
    }
  }

  lemma Expand(j: Job, m: Tables, e: Entry)
    requires j.f.Valid() && InvAll(j, m) && Least(e, m.heap)
    requires e.cost <= m.best[e.state] && CellOf(e.state) != j.dst
    ensures e.state !in m.closed && e.cost == m.best[e.state]
    ensures InvBut(j, m.(heap := m.heap - {e}, closed := m.closed + {e.state}, floor := e.rank), e.state, {})
  {
    assert Sound(j, m.best, m.closed, m.floor, e);
    var m' := m.(heap := m.heap - {e}, closed := m.closed + {e.state}, floor := e.rank);
    assert |m'.closed| == |m.closed| + 1;
    assert Known(j, m.best, m'.closed);
    forall s | s in m.best && s !in m'.closed ensures Waits(j, m.best, m'.heap, s) {
      assert Waits(j, m.best, m.heap, s);
    }
    forall o | o in m'.heap ensures Sound(j, m.best, m'.closed, e.rank, o) {
      assert Sound(j, m.best, m.closed, m.floor, o);
    }
    forall s | s in m'.closed ensures Settled(j, m.best, e.rank, s) {
      if s != e.state { assert Settled(j, m.best, m.floor, s); }
    }
    forall s | s in m.best ensures Sourced(j, m.best, m.came, m'.closed, s) {
      assert Sourced(j, m.best, m.came, m.closed, s);
    }
  }

  /** A cheaper way to `t` is never a way to an expanded state: the heap's order is consistent. */
  lemma CheaperIsOpen(j: Job, m: Tables, cur: nat, t: nat)
    requires j.f.Valid() && cur in m.best && Inv(j, m) && Hop(j.f, cur, t)
    requires m.floor == m.best[cur] + Far(j.dst, CellOf(cur))
    requires t !in m.best || m.best[cur] + HopPrice(j.want, cur, t) < m.best[t]
    ensures t !in m.closed && !Starts(j.f, j.src, t) && t != cur
    ensures m.floor <= Push(j, m.best[cur] + HopPrice(j.want, cur, t), t).rank
    ensures Push(j, m.best[cur] + HopPrice(j.want, cur, t), t) !in m.heap
    ensures m.best[cur] + HopPrice(j.want, cur, t) <= m.best[cur] + VIA_COST
  {
    FarSteps(j.f, j.dst, cur, t, j.want);
    assert t in m.closed ==> Settled(j, m.best, m.floor, t);
    var e := Push(j, m.best[cur] + HopPrice(j.want, cur, t), t);
    assert e in m.heap ==> Sound(j, m.best, m.closed, m.floor, e);
  }

  function Improve(j: Job, m: Tables, cur: nat, t: nat): Tables
    requires cur in m.best
  {
    var walk := m.best[cur] + HopPrice(j.want, cur, t);
    m.(best := m.best[t := walk], came := m.came[t := cur], heap := m.heap + {Push(j, walk, t)})
  }

  lemma ImproveQueue(j: Job, m: Tables, cur: nat, t: nat)
    requires cur in m.best && t !in m.closed && Queued(j, m)
    requires m.floor <= Push(j, m.best[cur] + HopPrice(j.want, cur, t), t).rank
    requires t in m.best ==> m.best[cur] + HopPrice(j.want, cur, t) < m.best[t]
    ensures Queued(j, Improve(j, m, cur, t))
  {
    var m' := Improve(j, m, cur, t);
    forall s | s in m'.best && s !in m'.closed ensures Waits(j, m'.best, m'.heap, s) {
      if s != t { assert Waits(j, m.best, m.heap, s); }
    }
    forall o | o in m'.heap ensures Sound(j, m'.best, m'.closed, m'.floor, o) {
      if o in m.heap { assert Sound(j, m.best, m.closed, m.floor, o); }
    }
  }

  lemma ImproveKnown(j: Job, m: Tables, cur: nat, t: nat)
    requires j.f.Valid() && cur in m.best && Known(j, m.best, m.closed) && Hop(j.f, cur, t)
    requires !Starts(j.f, j.src, t) && 0 < HopPrice(j.want, cur, t) <= VIA_COST
    requires m.best[cur] <= VIA_COST * (|m.closed| - 1)
    ensures Known(j, Improve(j, m, cur, t).best, m.closed)
  {
  }

  lemma ImproveSourced(j: Job, m: Tables, cur: nat, t: nat, s: nat)
    requires j.f.Valid() && cur in m.closed && cur in m.best && t != cur && Hop(j.f, cur, t)
    requires t !in m.closed
    requires s in m.best && s != t ==> Sourced(j, m.best, m.came, m.closed, s)
    requires s in m.best || s == t
    ensures var m' := Improve(j, m, cur, t); Sourced(j, m'.best, m'.came, m.closed, s)
  {
  }

  lemma ImproveRelaxed(j: Job, m: Tables, cur: nat, t: nat, s: nat, u: nat)
    requires j.f.Valid() && cur in m.best && s in m.best && s != t
    requires t in m.best ==> m.best[cur] + HopPrice(j.want, cur, t) < m.best[t]
    requires (s == cur && u == t) || Relaxed(j, m.best, s, u)
    ensures Relaxed(j, Improve(j, m, cur, t).best, s, u)
  {
  }

  lemma RelaxCheaper(j: Job, m: Tables, cur: nat, done: set<nat>, t: nat)
    requires j.f.Valid() && cur in m.closed && InvBut(j, m, cur, done) && Hop(j.f, cur, t)
    requires m.floor == m.best[cur] + Far(j.dst, CellOf(cur))
    requires t !in m.best || m.best[cur] + HopPrice(j.want, cur, t) < m.best[t]
    requires m.best[cur] <= VIA_COST * (|m.closed| - 1)
    ensures Push(j, m.best[cur] + HopPrice(j.want, cur, t), t) !in m.heap
    ensures InvBut(j, Improve(j, m, cur, t), cur, done + {t})
    ensures Improve(j, m, cur, t).best[cur] == m.best[cur]
  {
    var m' := Improve(j, m, cur, t);
    CheaperIsOpen(j, m, cur, t);
    FarSteps(j.f, j.dst, cur, t, j.want);
    ImproveQueue(j, m, cur, t);
    ImproveKnown(j, m, cur, t);
    forall s | s in m'.best ensures Sourced(j, m'.best, m'.came, m.closed, s) {
      ImproveSourced(j, m, cur, t, s);
    }
    forall s | s in m.closed ensures Settled(j, m'.best, m.floor, s) {
      assert Settled(j, m.best, m.floor, s);
    }
    forall s, u | s in m.closed && (s != cur || u in done + {t}) ensures Relaxed(j, m'.best, s, u) {
      ImproveRelaxed(j, m, cur, t, s, u);
    }
  }

  lemma RelaxNoGain(j: Job, m: Tables, cur: nat, done: set<nat>, t: nat)
    requires j.f.Valid() && cur in m.closed && InvBut(j, m, cur, done)
    requires !Hop(j.f, cur, t) || (t in m.best && m.best[t] <= m.best[cur] + HopPrice(j.want, cur, t))
    ensures InvBut(j, m, cur, done + {t})
  {
    forall s, u | s in m.closed && (s != cur || u in done + {t}) ensures Relaxed(j, m.best, s, u) {
      if s != cur || u in done { assert Relaxed(j, m.best, s, u); }
    }
  }

  lemma {:induction false} FitsBelow(closed: set<nat>, top: nat)
    requires forall s :: s in closed ==> s < top
    ensures |closed| <= top
    decreases top
  {
    if top > 0 {
      if top - 1 in closed {
        FitsBelow(closed - {top - 1}, top - 1);
      } else {
        FitsBelow(closed, top - 1);
      }
    } else {
      assert forall s :: s !in closed;
    }
  }

  // ----- the search --------------------------------------------------------------------------

  /** A candidate move: where it leads and its price. */
  datatype Move = Move(ahead: nat, price: nat)

  /** A candidate priced as a move out of `cur`, which is one if its seat is open. */
  ghost predicate Fair(j: Job, cur: nat, move: Move)
    requires j.f.Valid()
  {
    && move.ahead < STATES && move.price == HopPrice(j.want, cur, move.ahead)
    && (Open(j.f, SeatOf(move.ahead)) <==> Hop(j.f, cur, move.ahead))
  }

  /** `moves` holds every legal move out of `cur`, and nothing priced otherwise. */
  ghost predicate Covers(j: Job, cur: nat, moves: seq<Move>)
    requires j.f.Valid()
  {
    && (forall k :: 0 <= k < |moves| ==> Fair(j, cur, moves[k]))
    && (forall t :: Hop(j.f, cur, t) ==> t in Aheads(moves))
  }

  function Aheads(moves: seq<Move>): set<nat> { set k | 0 <= k < |moves| :: moves[k].ahead }

  lemma OnlyVia(f: Field, cur: nat, t: nat)
    requires f.Valid() && Hop(f, cur, t) && CellOf(t) == CellOf(cur)
    ensures ViaClear(f, CellOf(cur)) && t == Code(CellOf(cur), FaceOf(cur), 1 - LayOf(cur))
  {
    CodeWhole(t);
  }

  /** The only step in one direction is the one to the neighbouring cell. */
  lemma OnlyStep(f: Field, cur: nat, t: nat)
    requires f.Valid() && Hop(f, cur, t) && CellOf(t) != CellOf(cur)
    ensures var turn, cell := FaceOf(t), CellOf(cur);
            var ni, nj := X(cell) + Dx(turn), Y(cell) + Dy(turn);
            && 0 <= ni < NX && 0 <= nj < NY && nj * NX + ni == CellOf(t) < CELLS
            && !f.wall[LayOf(cur)][nj * NX + ni] && t == Code(nj * NX + ni, turn, LayOf(cur))
  {
    AdjacentIs(CellOf(cur), CellOf(t), FaceOf(t));
    CodeWhole(t);
  }

  lemma FairVia(j: Job, cur: nat)
    requires j.f.Valid() && cur < STATES && Open(j.f, SeatOf(cur)) && ViaClear(j.f, CellOf(cur))
    ensures Fair(j, cur, Move(Code(CellOf(cur), FaceOf(cur), 1 - LayOf(cur)), VIA_COST))
  {
    CodeParts(CellOf(cur), FaceOf(cur), 1 - LayOf(cur));
  }

  lemma FairStep(j: Job, cur: nat, turn: nat, to: nat)
    requires j.f.Valid() && cur < STATES && Open(j.f, SeatOf(cur)) && Adjacent(CellOf(cur), to, turn)
    requires to != CellOf(cur)
    ensures Fair(j, cur, Move(Code(to, turn, LayOf(cur)),
                              1 + Bias(j.want, LayOf(cur)) + (if turn == FaceOf(cur) then 0 else TURN_COST)))
  {
    CodeParts(to, turn, LayOf(cur));
  }

  lemma AheadsAdd(moves: seq<Move>, last: Move)
    ensures Aheads(moves + [last]) == Aheads(moves) + {last.ahead}
  {
    var all := moves + [last];
    forall t | t in Aheads(moves) + {last.ahead} ensures t in Aheads(all) {
      if t in Aheads(moves) {
        var k :| 0 <= k < |moves| && moves[k].ahead == t;
        assert all[k].ahead == t;
      } else {
        assert all[|moves|].ahead == t;
      }
    }
  }

  method MovesFrom(j: Job, cur: nat) returns (moves: seq<Move>)
    requires j.f.Valid() && j.want < 2 && cur < STATES && Open(j.f, SeatOf(cur))
    ensures Covers(j, cur, moves)
  {
    hide Hop, Fair;
    var cell, face, lay := CellOf(cur), FaceOf(cur), LayOf(cur);
    moves := [];
    if ViaClear(j.f, cell) {
      FairVia(j, cur);
      moves := [Move(Code(cell, face, 1 - lay), VIA_COST)];
    }
    forall t | Hop(j.f, cur, t) && CellOf(t) == cell ensures t in Aheads(moves) {
      OnlyVia(j.f, cur, t);
      assert moves[0].ahead == t;
    }
    for turn := 0 to 4
      invariant forall k :: 0 <= k < |moves| ==> Fair(j, cur, moves[k])
      invariant forall t :: Hop(j.f, cur, t) && (CellOf(t) == cell || FaceOf(t) < turn) ==> t in Aheads(moves)
    {
      var ni, nj := X(cell) + Dx(turn), Y(cell) + Dy(turn);
      ghost var before := moves;
      if 0 <= ni < NX && 0 <= nj < NY {
        Neighbour(cell, turn);
        var to := nj * NX + ni;
        if !j.f.wall[lay][to] {
          var move := Move(Code(to, turn, lay), 1 + Bias(j.want, lay) + (if turn == face then 0 else TURN_COST));
          FairStep(j, cur, turn, to);
          moves := moves + [move];
          AheadsAdd(before, move);
        }
      }
      forall t | Hop(j.f, cur, t) && (CellOf(t) == cell || FaceOf(t) < turn + 1)
        ensures t in Aheads(moves)
      {
        if CellOf(t) != cell && FaceOf(t) == turn {
          OnlyStep(j.f, cur, t);
        } else {
          assert t in Aheads(before);
        }
      }
    }
  }

  /** No trail that joins the pads is cheaper than this one left facing `face`. */
  ghost predicate Cheapest(j: Job, trail: seq<Seat>, face: nat)
    requires j.f.Valid()
  {
    forall other, turn :: turn < 4 && Joins(j.f, other, j.src, j.dst)
      ==> Price(j.want, trail, face) <= Price(j.want, other, turn)
  }

  lemma StartKnown(j: Job, m: Tables, trail: seq<Seat>, face: nat)
    requires j.f.Valid() && InvAll(j, m) && face < 4 && Joins(j.f, trail, j.src, j.dst)
    ensures Code(j.src, face, trail[0].lay) in m.best && m.best[Code(j.src, face, trail[0].lay)] == 0
  {
    CodeParts(j.src, face, trail[0].lay);
    assert Starts(j.f, j.src, Code(j.src, face, trail[0].lay));
  }

  lemma AllMovesDone(j: Job, m: Tables, cur: nat, moves: seq<Move>)
    requires j.f.Valid() && Covers(j, cur, moves) && InvBut(j, m, cur, Aheads(moves))
    ensures InvAll(j, m)
  {
    forall s, t | s in m.closed ensures Relaxed(j, m.best, s, t) {
      if s != cur || t in Aheads(moves) { assert Relaxed(j, m.best, s, t); }
    }
  }

  /** A move of the search, seen as the first link of the trail that goes on from there. */
  lemma HopOpensTrail(f: Field, want: nat, s: nat, t: nat, trail: seq<Seat>)
    requires f.Valid() && Hop(f, s, t) && Open(f, SeatOf(s)) && Legal(f, trail) && trail[0] == SeatOf(t)
    ensures Legal(f, [SeatOf(s)] + trail)
    ensures Price(want, [SeatOf(s)] + trail, FaceOf(s)) == HopPrice(want, s, t) + Price(want, trail, FaceOf(t))
  {
    var longer := [SeatOf(s)] + trail;
    if CellOf(s) != CellOf(t) { AdjacentIs(CellOf(s), CellOf(t), FaceOf(t)); }
    assert Link(f, longer[0], longer[1]);
    forall k | 0 < k < |longer| ensures Link(f, longer[k - 1], longer[k]) {
      if k > 1 { assert Link(f, trail[k - 2], trail[k - 1]); }
    }
    assert longer[1..] == trail;
  }

  /** Follow `came` from a known state back to a start: it always gets there, since every move
      costs something, and the trail it spells costs exactly what the state does. */
  method WalkBack(j: Job, ghost m: Tables, came: map<nat, nat>, goal: nat) returns (trail: seq<Seat>, first: nat)
    requires j.f.Valid() && InvAll(j, m) && came == m.came && goal in m.best
    ensures first in m.best && Starts(j.f, j.src, first)
    ensures Legal(j.f, trail) && trail[0] == SeatOf(first) && trail[|trail| - 1] == SeatOf(goal)
    ensures Price(j.want, trail, FaceOf(first)) == m.best[goal]
  {
    var state := goal;
    trail := [SeatOf(goal)];
    while state in came
      invariant state in m.best
      invariant Legal(j.f, trail) && trail[0] == SeatOf(state) && trail[|trail| - 1] == SeatOf(goal)
      invariant m.best[state] + Price(j.want, trail, FaceOf(state)) == m.best[goal]
      decreases m.best[state]
    {
      var back := came[state];
      assert Sourced(j, m.best, m.came, m.closed, state);
      HopOpensTrail(j.f, j.want, back, state, trail);
      trail := [SeatOf(back)] + trail;
      FarSteps(j.f, j.dst, back, state, j.want);
      state := back;
    }
    assert Sourced(j, m.best, m.came, m.closed, state);
    first := state;
  }

  /** The start states: both layers where the source is open, all four facings, at no cost. */
  method Opening(j: Job) returns (best: map<nat, nat>, heap: set<Entry>)
    requires j.f.Valid() && j.src < CELLS
    ensures InvAll(j, Tables(best, map[], heap, {}, 0))
  {
    best, heap := map[], {};
    for lay := 0 to 2
      invariant forall s :: s in best <==> Starts(j.f, j.src, s) && LayOf(s) < lay
      invariant forall s :: s in best ==> best[s] == 0 && Waits(j, best, heap, s)
      invariant forall e :: e in heap ==> Sound(j, best, {}, 0, e)
    {
      if !j.f.wall[lay][j.src] {
        for face := 0 to 4
          invariant forall s :: s in best <==>
            Starts(j.f, j.src, s) && (LayOf(s) < lay || (LayOf(s) == lay && FaceOf(s) < face))
          invariant forall s :: s in best ==> best[s] == 0 && Waits(j, best, heap, s)
          invariant forall e :: e in heap ==> Sound(j, best, {}, 0, e)
        {
          var state := Code(j.src, face, lay);
          CodeParts(j.src, face, lay);
          forall s | CellOf(s) == j.src && LayOf(s) == lay && FaceOf(s) == face ensures s == state { CodeWhole(s); }
          best := best[state := 0];
          heap := heap + {Push(j, 0, state)};
        }
      }
    }
  }

  method RelaxOne(j: Job, cur: nat, cost: nat, move: Move, best0: map<nat, nat>, came0: map<nat, nat>,
                  heap0: set<Entry>, ghost closed: set<nat>, ghost floor: nat, ghost done: set<nat>)
    returns (best: map<nat, nat>, came: map<nat, nat>, heap: set<Entry>)
    requires j.f.Valid() && cur in closed && |closed| <= STATES && Fair(j, cur, move)
    requires InvBut(j, Tables(best0, came0, heap0, closed, floor), cur, done)
    requires best0[cur] == cost && floor == cost + Far(j.dst, CellOf(cur)) && cost <= VIA_COST * (|closed| - 1)
    ensures InvBut(j, Tables(best, came, heap, closed, floor), cur, done + {move.ahead})
    ensures best[cur] == cost
  {
    hide Sourced, Sound, Settled, Waits, Relaxed, Queued, HopPrice;
    best, came, heap := best0, came0, heap0;
    ghost var m := Tables(best, came, heap, closed, floor);
    var Move(ahead, price) := move;
    CodeWhole(ahead);
    if j.f.wall[LayOf(ahead)][CellOf(ahead)] {
      RelaxNoGain(j, m, cur, done, ahead);
      return;
    }
    var walk := cost + price;
    FarSteps(j.f, j.dst, cur, ahead, j.want);
    if walk < (if ahead in best then best[ahead] else UNSEEN) {
      RelaxCheaper(j, m, cur, done, ahead);
      best, came, heap := best[ahead := walk], came[ahead := cur], heap + {Push(j, walk, ahead)};
    } else {
      RelaxNoGain(j, m, cur, done, ahead);
    }
  }

  /** Try every move out of the state just expanded. */
  method Relax(j: Job, cur: nat, cost: nat, best0: map<nat, nat>, came0: map<nat, nat>, heap0: set<Entry>,
               ghost closed: set<nat>, ghost floor: nat)
    returns (best: map<nat, nat>, came: map<nat, nat>, heap: set<Entry>)
    requires j.f.Valid() && j.want < 2 && cur in closed && |closed| <= STATES
    requires InvBut(j, Tables(best0, came0, heap0, closed, floor), cur, {})
    requires best0[cur] == cost && floor == cost + Far(j.dst, CellOf(cur)) && cost <= VIA_COST * (|closed| - 1)
    ensures InvAll(j, Tables(best, came, heap, closed, floor))
  {
    hide Sourced, Sound, Settled, Waits, Relaxed, Hop;
    best, came, heap := best0, came0, heap0;
    var moves := MovesFrom(j, cur);
    for k := 0 to |moves|
      invariant cur in best && best[cur] == cost
      invariant InvBut(j, Tables(best, came, heap, closed, floor), cur, Aheads(moves[..k]))
    {
      assert Fair(j, cur, moves[k]);
      best, came, heap := RelaxOne(j, cur, cost, moves[k], best, came, heap, closed, floor, Aheads(moves[..k]));
      assert moves[..k + 1] == moves[..k] + [moves[k]];
      AheadsAdd(moves[..k], moves[k]);
    }
    assert moves[..|moves|] == moves;
    AllMovesDone(j, Tables(best, came, heap, closed, floor), cur, moves);
  }

  lemma GoalIsCheapest(j: Job, m: Tables, e: Entry, trail: seq<Seat>, face: nat)
    requires j.f.Valid() && j.dst < CELLS && InvAll(j, m) && Least(e, m.heap)
    requires e.cost <= m.best[e.state] && CellOf(e.state) == j.dst
    requires Price(j.want, trail, face) == m.best[e.state]
    ensures Cheapest(j, trail, face)
  {
    assert Sound(j, m.best, m.closed, m.floor, e);
    forall other, turn | turn < 4 && Joins(j.f, other, j.src, j.dst)
      ensures Price(j.want, trail, face) <= Price(j.want, other, turn)
    {
      StartKnown(j, m, other, turn);
      NothingCheaper(j, m, other, turn, 0, e.rank);
    }
  }

  lemma EmptyHeapMeansNoTrail(j: Job, m: Tables, trail: seq<Seat>)
    requires j.f.Valid() && j.dst < CELLS && InvAll(j, m) && m.heap == {}
    ensures !Joins(j.f, trail, j.src, j.dst)
  {
    if Joins(j.f, trail, j.src, j.dst) {
      StartKnown(j, m, trail, 0);
      NothingCheaper(j, m, trail, 0, 0, Price(j.want, trail, 0) + 1);
    }
  }

  /** The least entry is at the goal: walk back to a start. */
  method Arrive(j: Job, ghost m: Tables, came: map<nat, nat>, e: Entry) returns (trail: seq<Seat>)
    requires j.f.Valid() && j.dst < CELLS && InvAll(j, m) && Least(e, m.heap) && came == m.came
    requires e.state in m.best && e.cost <= m.best[e.state] && CellOf(e.state) == j.dst
    ensures Joins(j.f, trail, j.src, j.dst) && exists face :: face < 4 && Cheapest(j, trail, face)
  {
    hide InvAll, Least, Legal, Price, Cheapest;
    var first;
    trail, first := WalkBack(j, m, came, e.state);
    GoalIsCheapest(j, m, e, trail, FaceOf(first));
  }

  lemma LeastIsKnown(j: Job, m: Tables, e: Entry)
    requires j.f.Valid() && InvAll(j, m) && Least(e, m.heap)
    ensures e.state in m.best && m.best[e.state] <= e.cost && e.rank == e.cost + Far(j.dst, CellOf(e.state))
  {
    hide Sourced, Settled, Waits, Relaxed;
    assert Sound(j, m.best, m.closed, m.floor, e);
  }

  /** The least entry expanded, and what it may cost. */
  lemma ExpandLeast(j: Job, m: Tables, e: Entry)
    requires j.f.Valid() && InvAll(j, m) && Least(e, m.heap) && e.state in m.best
    requires e.cost <= m.best[e.state] && CellOf(e.state) != j.dst
    ensures var n := m.(heap := m.heap - {e}, closed := m.closed + {e.state}, floor := e.rank);
            InvBut(j, n, e.state, {}) && e.cost == m.best[e.state] && e.state !in m.closed
            && e.cost <= VIA_COST * (|n.closed| - 1) && |n.closed| <= STATES
  {
    hide Sourced, Settled, Waits, Relaxed, Queued, Least, Price, Legal;
    Expand(j, m, e);
    FitsBelow(m.closed + {e.state}, STATES);
  }

  /** find_path.  A trail comes back only if it is legal, joins the two cells and costs no more
      than any legal trail under any first facing; none comes back only if no legal trail exists. */
  method FindPath(j: Job) returns (r: Option<seq<Seat>>)
    requires j.f.Valid() && j.want < 2 && j.src < CELLS && j.dst < CELLS
    ensures r.Some? ==> Joins(j.f, r.value, j.src, j.dst)
    ensures r.Some? ==> exists face :: face < 4 && Cheapest(j, r.value, face)
    ensures r.None? ==> forall trail :: !Joins(j.f, trail, j.src, j.dst)
  {
    hide InvAll, InvBut, Inv, Joins, Cheapest, Least;
    var best: map<nat, nat>, heap: set<Entry> := Opening(j);
    var came: map<nat, nat> := map[];
    ghost var closed: set<nat> := {};
    ghost var floor: nat := 0;
    while heap != {}
      invariant InvAll(j, Tables(best, came, heap, closed, floor))
      decreases STATES - |closed|, |heap|
    {
      ghost var m := Tables(best, came, heap, closed, floor);
      var e, rest := PopLeast(heap);
      LeastIsKnown(j, m, e);
      if e.cost > (if e.state in best then best[e.state] else UNSEEN) {
        DropStale(j, m, e);
        heap, floor := rest, e.rank;
        continue;
      }
      if CellOf(e.state) == j.dst {
        var trail := Arrive(j, m, came, e);
        return Some(trail);
      }
      ExpandLeast(j, m, e);
      closed, floor := closed + {e.state}, e.rank;
      best, came, heap := Relax(j, e.state, e.cost, best, came, rest, closed, floor);
    }
    forall trail ensures !Joins(j.f, trail, j.src, j.dst) {
      EmptyHeapMeansNoTrail(j, Tables(best, came, heap, closed, floor), trail);
    }
    return None;
  }

  // ----- legality and price, spelled out ------------------------------------------------------

  /** The direction the track faces at the end of a trail it entered facing `face`: that of its last
      sideways move. */
  function Facing(trail: seq<Seat>, face: nat): nat {
    if |trail| <= 1 then face
    else
      var a, b := trail[|trail| - 2], trail[|trail| - 1];
      if a.cell == b.cell then Facing(trail[..|trail| - 1], face) else Heading(a.cell, b.cell)
  }

  /** What one more seat adds to a trail's price: 30 for a via; otherwise 1, 1 more on the side the net
      does not want, and 6 more for a turn. */
  lemma {:induction false} PriceLast(want: nat, trail: seq<Seat>, next: Seat, face: nat)
    requires trail != []
    ensures var last := trail[|trail| - 1];
            Price(want, trail + [next], face) == Price(want, trail, face)
              + if last.cell == next.cell then 30
                else 1 + (if last.lay != want then 1 else 0) + (if Heading(last.cell, next.cell) != Facing(trail, face) then 6 else 0)
    decreases |trail|
  {
    var more := trail + [next];
    assert more[1..] == trail[1..] + [next];
    if |trail| > 1 {
      var turn := if trail[0].cell == trail[1].cell then face else Heading(trail[0].cell, trail[1].cell);
      PriceLast(want, trail[1..], next, turn);
      FacingTail(trail, face);
    } else {
      assert more[1..] == [next];
      assert Price(want, [next], face) == 0;
      assert Price(want, [next], Heading(trail[0].cell, next.cell)) == 0;
    }
  }

  lemma {:induction false} FacingTail(trail: seq<Seat>, face: nat)
    requires |trail| > 1
    ensures Facing(trail, face)
         == Facing(trail[1..], if trail[0].cell == trail[1].cell then face else Heading(trail[0].cell, trail[1].cell))
    decreases |trail|
  {
    if |trail| > 2 {
      var head := trail[..|trail| - 1];
      FacingTail(head, face);
      assert head[1..] == trail[1..][..|trail| - 2];
    } else {
      assert trail[..1] == [trail[0]] && |trail[1..]| == 1;
    }
  }

  /** A link, in the board's rows and columns: both seats free and on the board; from one side to the
      other only where neither side bars a via, and otherwise one column or one row over on one side. */
  lemma LinkIs(f: Field, a: Seat, b: Seat)
    requires f.Valid()
    ensures Link(f, a, b) <==>
      && a.cell < CELLS && b.cell < CELLS && a.lay < 2 && b.lay < 2 && !f.wall[a.lay][a.cell] && !f.wall[b.lay][b.cell]
      && (if a.cell == b.cell then a.lay != b.lay && !f.hole[0][a.cell] && !f.hole[1][a.cell]
          else a.lay == b.lay && ((a.cell / 791 == b.cell / 791 && Abs(a.cell % 791 - b.cell % 791) == 1)
                                  || (a.cell % 791 == b.cell % 791 && Abs(a.cell / 791 - b.cell / 791) == 1)))
  {
  }
}
