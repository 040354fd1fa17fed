/**
 Laying every track of the board (hardware/gen/gen_pcb.py: one_run, route_board).  When an edge
 is walled in, the newest run of another tag is lifted and its edge goes to the back of the queue.
 Which cells a pad, a run or a printed name keeps is geometry, given by the board.
 */
module RipUp {
  import opened Wrappers
  import opened Search = PathSearch

  /** An edge to lay: the routing tag and the two pads it joins. */
  datatype Task = Task(tag: string, src: string, dst: string)

  /** A laid edge and the trail the search found for it. */
  datatype Run = Run(task: Task, trail: seq<Seat>)

  /** What is being asked of a cell: room for half a track, or for half a via. */
  datatype Probe = Probe(power: bool, hole: bool)

  /** The board as the router sees it.  Every set of cells lies on the board. */
  datatype Board = Board(
    nets: map<string, string>,                            // pad id -> net, "" for none
    secondGround: set<string>,                            // pads of the second ground
    trees: set<string>,                                   // tags drawn as declared trees
    seat: string -> nat,                                  // the cell a pad's centre rounds to
    disc: string -> set<nat>,                             // a pad's own copper
    near: string -> set<nat>,                             // cells too near a pad for the extra gap
    rim: Probe -> set<nat>,                               // board edge and screws
    stamp: (bool, Probe, string) -> set<nat>,             // a pad's keep-out, by clearance class
    ink: set<nat>,                                        // under a printed name
    halo: (Run, nat, bool, Probe) -> set<nat>,            // a run's keep-out, by layer and class
    apart: (string, Run, nat, Probe) -> set<nat>)         // the extra gap a tag keeps from a run
  {
    ghost predicate Valid() {
      && (forall p :: p in nets ==> seat(p) < CELLS)
      && (forall p :: forall c :: c in disc(p) ==> c < CELLS)
      && (forall q :: forall c :: c in rim(q) ==> c < CELLS)
      && (forall w, q, p :: forall c :: c in stamp(w, q, p) ==> c < CELLS)
      && (forall c :: c in ink ==> c < CELLS)
      && (forall r, l, w, q :: forall c :: c in halo(r, l, w, q) ==> c < CELLS)
      && (forall t, r, l, q :: forall c :: c in apart(t, r, l, q) ==> c < CELLS)
    }
  }

  // ----- what stands in the way of one edge --------------------------------------------------

  predicate StartsWith(s: string, head: string) {
    head <= s
  }

  /** Supplies and grounds are the power class, on the wide track and the back layer. */
  predicate PowerTag(tag: string) {
    StartsWith(tag, "+") || StartsWith(tag, "GND")
  }

  /** A pad answers to the class of its own net. */
  predicate PowerNet(net: string) {
    StartsWith(net, "+") || net == "GND"
  }

  function PadTag(b: Board, pad: string, net: string): string {
    if net != "GND" then net else if pad in b.secondGround then "GND@2" else "GND@1"
  }

  /** A pad that belongs to the edge: one it joins, or one of its own routing net. */
  predicate OwnPad(b: Board, t: Task, pad: string)
    requires pad in b.nets
  {
    pad == t.src || pad == t.dst || (b.nets[pad] != "" && PadTag(b, pad, b.nets[pad]) == t.tag)
  }

  /** A laid run the edge must stay clear of: any other tag's, and its own tag's in a tree. */
  predicate Blocks(b: Board, t: Task, r: Run) {
    r.task.tag != t.tag || t.tag in b.trees
  }

  function RunCells(b: Board, t: Task, r: Run, layer: nat, q: Probe): set<nat> {
    b.halo(r, layer, PowerTag(t.tag), q) + (b.apart(t.tag, r, layer, q) - b.near(t.src) - b.near(t.dst))
  }

  function PadCells(b: Board, t: Task, pad: string, q: Probe): set<nat>
    requires pad in b.nets
  {
    b.stamp(PowerTag(t.tag) || PowerNet(b.nets[pad]), q, pad)
  }

  /** A cell of one layer where the edge may put no copper of this kind, given what is laid. */
  ghost predicate Barred(b: Board, t: Task, placed: set<Run>, layer: nat, q: Probe, c: nat) {
    && c !in b.disc(t.src) && c !in b.disc(t.dst)
    && (|| c in b.rim(q)
        || (q.hole && c in b.ink)
        || (exists pad :: pad in b.nets && !OwnPad(b, t, pad) && c in PadCells(b, t, pad, q))
        || (exists r :: r in placed && Blocks(b, t, r) && c in RunCells(b, t, r, layer, q)))
  }

  /** Lifting a run frees cells and bars none. */
  lemma BarredGrows(b: Board, t: Task, fewer: set<Run>, more: set<Run>, layer: nat, q: Probe, c: nat)
    requires fewer <= more && Barred(b, t, fewer, layer, q, c)
    ensures Barred(b, t, more, layer, q, c)
  {
  }

  ghost predicate FieldOf(b: Board, t: Task, placed: set<Run>, layer: nat, q: Probe, field: seq<bool>) {
    |field| == CELLS && forall c: nat :: c < CELLS ==> (field[c] <==> Barred(b, t, placed, layer, q, c))
  }

  method Paint(field: array<bool>, cells: set<nat>, value: bool)
    requires forall c :: c in cells ==> c < field.Length
    modifies field
    ensures forall c: nat :: c < field.Length ==> field[c] == if c in cells then value else old(field[c])
  {
    var left := cells;
    while left != {}
      invariant left <= cells
      invariant forall c: nat :: c < field.Length ==> field[c] == if c in cells - left then value else old(field[c])
      decreases |left|
    {
      var c :| c in left;
      field[c] := value;
      left := left - {c};
    }
  }

  function Members(placed: seq<Run>): set<Run> { set r | r in placed }

  /** One of the four fields one_run fills: layer by layer, for the track and for the via. */
  method OneField(b: Board, t: Task, placed: seq<Run>, layer: nat, q: Probe) returns (field: seq<bool>)
    requires b.Valid() && t.src in b.nets && t.dst in b.nets
    ensures FieldOf(b, t, Members(placed), layer, q, field)
    ensures |field| == CELLS && forall c: nat :: c < CELLS ==> (field[c] <==> !Clear(b, t, Members(placed), layer, q, c))
  {
    var cells := new bool[CELLS](_ => false);
    Paint(cells, b.rim(q), true);
    var pads := b.nets.Keys;
    while pads != {}
      invariant pads <= b.nets.Keys
      invariant forall c: nat :: c < CELLS ==>
        (cells[c] <==> || c in b.rim(q)
                       || (exists pad :: pad in b.nets.Keys - pads && !OwnPad(b, t, pad) && c in PadCells(b, t, pad, q)))
      decreases |pads|
    {
      var pad :| pad in pads;
      if !OwnPad(b, t, pad) {
        Paint(cells, PadCells(b, t, pad, q), true);
      }
      pads := pads - {pad};
    }
    if q.hole {
      Paint(cells, b.ink, true);
    }
    label padded:
    for k := 0 to |placed|
      invariant forall c: nat :: c < CELLS ==>
        (cells[c] <==> || old@padded(cells[c])
                       || (exists r :: r in Members(placed[..k]) && Blocks(b, t, r) && c in RunCells(b, t, r, layer, q)))
    {
      assert Members(placed[..k + 1]) == Members(placed[..k]) + {placed[k]} by {
        assert placed[..k + 1] == placed[..k] + [placed[k]];
      }
      if Blocks(b, t, placed[k]) {
        Paint(cells, RunCells(b, t, placed[k], layer, q), true);
      }
    }
    assert placed[..|placed|] == placed;
    Paint(cells, b.disc(t.src), false);
    Paint(cells, b.disc(t.dst), false);
    field := cells[..];
    assert FieldOf(b, t, Members(placed), layer, q, field);
    FieldIsClear(b, t, Members(placed), layer, q, field);
  }

  lemma FieldIsClear(b: Board, t: Task, laid: set<Run>, layer: nat, q: Probe, field: seq<bool>)
    requires FieldOf(b, t, laid, layer, q, field)
    ensures forall c: nat :: c < CELLS ==> (field[c] <==> !Clear(b, t, laid, layer, q, c))
  {
    hide Barred, Clear;
    forall c: nat | c < CELLS ensures field[c] <==> !Clear(b, t, laid, layer, q, c) { BarredIs(b, t, laid, layer, q, c); }
  }

  // ----- one edge --------------------------------------------------------------------------

  ghost predicate Free(b: Board, t: Task, placed: set<Run>, s: Seat) {
    && s.cell < CELLS && s.lay < 2
    && !Barred(b, t, placed, s.lay, Probe(PowerTag(t.tag), false), s.cell)
  }

  ghost predicate DrillFree(b: Board, t: Task, placed: set<Run>, cell: nat) {
    forall lay :: 0 <= lay < 2 ==> !Barred(b, t, placed, lay, Probe(PowerTag(t.tag), true), cell)
  }

  ghost predicate FreeLink(b: Board, t: Task, placed: set<Run>, x: Seat, y: Seat) {
    && Free(b, t, placed, x) && Free(b, t, placed, y)
    && (if x.cell == y.cell then y.lay == 1 - x.lay && DrillFree(b, t, placed, x.cell)
        else x.lay == y.lay && Adjacent(x.cell, y.cell, Heading(x.cell, y.cell)))
  }

  /** A trail that joins the edge's two pads: every seat outside what bars the track, every via
      outside what bars the drill on both layers. */
  ghost predicate Fits(b: Board, t: Task, placed: set<Run>, trail: seq<Seat>) {
    && |trail| > 0 && trail[0].cell == b.seat(t.src) && trail[|trail| - 1].cell == b.seat(t.dst)
    && Free(b, t, placed, trail[0])
    && forall k :: 0 < k < |trail| ==> FreeLink(b, t, placed, trail[k - 1], trail[k])
  }

  ghost predicate FieldsOf(b: Board, t: Task, placed: set<Run>, f: Field) {
    && f.Valid()
    && FieldOf(b, t, placed, 0, Probe(PowerTag(t.tag), false), f.wall[0])
    && FieldOf(b, t, placed, 1, Probe(PowerTag(t.tag), false), f.wall[1])
    && FieldOf(b, t, placed, 0, Probe(PowerTag(t.tag), true), f.hole[0])
    && FieldOf(b, t, placed, 1, Probe(PowerTag(t.tag), true), f.hole[1])
  }

  lemma FreeIsOpen(b: Board, t: Task, placed: set<Run>, f: Field, s: Seat)
    requires FieldsOf(b, t, placed, f)
    ensures Free(b, t, placed, s) <==> Open(f, s)
  {
  }

  lemma DrillIsClear(b: Board, t: Task, placed: set<Run>, f: Field, cell: nat)
    requires FieldsOf(b, t, placed, f) && cell < CELLS
    ensures DrillFree(b, t, placed, cell) <==> ViaClear(f, cell)
  {
    if DrillFree(b, t, placed, cell) {
      assert !Barred(b, t, placed, 0, Probe(PowerTag(t.tag), true), cell);
      assert !Barred(b, t, placed, 1, Probe(PowerTag(t.tag), true), cell);
    }
  }

  lemma FitsIsJoins(b: Board, t: Task, placed: set<Run>, f: Field, trail: seq<Seat>)
    requires FieldsOf(b, t, placed, f)
    ensures Fits(b, t, placed, trail) <==> Joins(f, trail, b.seat(t.src), b.seat(t.dst))
  {
    hide FieldOf, Barred, Free, DrillFree;
    forall k | 0 < k < |trail|
      ensures FreeLink(b, t, placed, trail[k - 1], trail[k]) <==> Link(f, trail[k - 1], trail[k])
    {
      FreeIsOpen(b, t, placed, f, trail[k - 1]);
      FreeIsOpen(b, t, placed, f, trail[k]);
      if trail[k - 1].cell < CELLS { DrillIsClear(b, t, placed, f, trail[k - 1].cell); }
    }
    if |trail| > 0 { FreeIsOpen(b, t, placed, f, trail[0]); }
  }

  /** A trail found among more runs still fits once some are lifted. */
  lemma FitsAmongFewer(b: Board, t: Task, fewer: set<Run>, more: set<Run>, trail: seq<Seat>)
    requires fewer <= more && Fits(b, t, more, trail)
    ensures Fits(b, t, fewer, trail)
  {
    forall layer, q, c | Barred(b, t, fewer, layer, q, c) ensures Barred(b, t, more, layer, q, c) {
      BarredGrows(b, t, fewer, more, layer, q, c);
    }
    assert Free(b, t, more, trail[0]);
    forall k | 0 < k < |trail| ensures FreeLink(b, t, fewer, trail[k - 1], trail[k]) {
      assert FreeLink(b, t, more, trail[k - 1], trail[k]);
    }
  }

  // ----- what fitting means, in the board's own fields -----------------------------------------------------

  /** The tags and the nets of the power class, by their spelling. */
  predicate HeavyTag(tag: string) { (|tag| > 0 && tag[0] == '+') || (|tag| > 2 && tag[0] == 'G' && tag[1] == 'N' && tag[2] == 'D') }

  predicate HeavyNet(net: string) { (|net| > 0 && net[0] == '+') || net == ['G', 'N', 'D'] }

  /** A pad of another routing net than the edge's, and not one the edge joins: ground is two routing
      nets, and a pad on no net is everybody's stranger. */
  predicate Stranger(b: Board, t: Task, pad: string) {
    && pad in b.nets && pad != t.src && pad != t.dst
    && (if b.nets[pad] == "" then true
        else if b.nets[pad] != "GND" then b.nets[pad] != t.tag
        else if pad in b.secondGround then t.tag != "GND@2" else t.tag != "GND@1")
  }

  /** Copper of this kind may go here: on the pads the edge joins, or clear of the board's edge, of
      printed names under a drill, of every stranger's keep-out in the wider of the two classes, and of
      the halo and the extra gap of every run of another tag, or of its own where the tag is a tree. */
  ghost predicate Clear(b: Board, t: Task, laid: set<Run>, lay: nat, q: Probe, c: nat) {
    || c in b.disc(t.src) || c in b.disc(t.dst)
    || (&& c !in b.rim(q) && (q.hole ==> c !in b.ink)
        && (forall pad :: Stranger(b, t, pad) ==> c !in b.stamp(HeavyTag(t.tag) || HeavyNet(b.nets[pad]), q, pad))
        && (forall r :: r in laid && (r.task.tag == t.tag ==> t.tag in b.trees) ==>
              && c !in b.halo(r, lay, HeavyTag(t.tag), q)
              && (c in b.apart(t.tag, r, lay, q) ==> c in b.near(t.src) || c in b.near(t.dst))))
  }

  /** One step sideways or up and down on the grid. */
  predicate NextCell(c: nat, d: nat) {
    || (c / 791 == d / 791 && (c % 791 == d % 791 + 1 || d % 791 == c % 791 + 1))
    || (c % 791 == d % 791 && (c / 791 == d / 791 + 1 || d / 791 == c / 791 + 1))
  }

  /** A trail that joins the two pads cell by cell, every seat clear for the track, every change of
      layer in one cell that is clear for the drill on both. */
  ghost predicate ClearTrail(b: Board, t: Task, laid: set<Run>, trail: seq<Seat>) {
    && |trail| > 0 && trail[0].cell == b.seat(t.src) && trail[|trail| - 1].cell == b.seat(t.dst)
    && (forall k :: 0 <= k < |trail| ==>
          trail[k].cell < 791 * 606 && trail[k].lay < 2 && Clear(b, t, laid, trail[k].lay, Probe(HeavyTag(t.tag), false), trail[k].cell))
    && (forall k :: 0 < k < |trail| ==> ClearStep(b, t, laid, trail[k - 1], trail[k]))
  }

  ghost predicate ClearStep(b: Board, t: Task, laid: set<Run>, x: Seat, y: Seat) {
    || (x.lay == y.lay && NextCell(x.cell, y.cell))
    || (x.cell == y.cell && x.lay != y.lay
        && Clear(b, t, laid, 0, Probe(HeavyTag(t.tag), true), x.cell) && Clear(b, t, laid, 1, Probe(HeavyTag(t.tag), true), x.cell))
  }

  lemma SpelledTags(s: string)
    ensures PowerTag(s) <==> HeavyTag(s)
    ensures PowerNet(s) <==> HeavyNet(s)
  {
    if |s| > 0 { assert s[..1] == [s[0]]; }
    if |s| > 2 { assert s[..3] == [s[0], s[1], s[2]]; }
    assert StartsWith(s, "+") <==> |s| > 0 && s[0] == '+';
  }

  lemma StrangerIs(b: Board, t: Task, pad: string)
    requires pad in b.nets
    ensures Stranger(b, t, pad) <==> !OwnPad(b, t, pad)
  {
  }

  /** Barred is not clear. */
  lemma BarredIs(b: Board, t: Task, laid: set<Run>, lay: nat, q: Probe, c: nat)
    ensures Barred(b, t, laid, lay, q, c) <==> !Clear(b, t, laid, lay, q, c)
  {
    hide HeavyTag, HeavyNet, PowerTag, PowerNet, Stranger, OwnPad;
    SpelledTags(t.tag);
    forall pad | pad in b.nets
      ensures Stranger(b, t, pad) <==> !OwnPad(b, t, pad)
      ensures PadCells(b, t, pad, q) == b.stamp(HeavyTag(t.tag) || HeavyNet(b.nets[pad]), q, pad)
    {
      StrangerIs(b, t, pad);
      SpelledTags(b.nets[pad]);
    }
    StrangersAreOnTheBoard(b, t);
    if c !in b.disc(t.src) && c !in b.disc(t.dst) {
      forall r | r in laid
        ensures (Blocks(b, t, r) && c in RunCells(b, t, r, lay, q)) <==>
          ((r.task.tag == t.tag ==> t.tag in b.trees)
           && (c in b.halo(r, lay, HeavyTag(t.tag), q)
               || (c in b.apart(t.tag, r, lay, q) && c !in b.near(t.src) && c !in b.near(t.dst))))
      {
      }
    }
  }

  lemma StrangersAreOnTheBoard(b: Board, t: Task)
    ensures forall pad :: Stranger(b, t, pad) ==> pad in b.nets
  {
  }

  lemma NextIsAdjacent(c: nat, d: nat)
    requires c < CELLS && d < CELLS
    ensures c != d ==> (Adjacent(c, d, Heading(c, d)) <==> NextCell(c, d))
    ensures NextCell(c, d) ==> c != d
  {
  }

  lemma FreeIsClear(b: Board, t: Task, laid: set<Run>, s: Seat)
    ensures Free(b, t, laid, s) <==> s.cell < 791 * 606 && s.lay < 2 && Clear(b, t, laid, s.lay, Probe(HeavyTag(t.tag), false), s.cell)
  {
    hide Barred, Clear, HeavyTag, PowerTag;
    SpelledTags(t.tag);
    BarredIs(b, t, laid, s.lay, Probe(HeavyTag(t.tag), false), s.cell);
  }

  lemma DrillIs(b: Board, t: Task, laid: set<Run>, c: nat)
    ensures DrillFree(b, t, laid, c) <==>
      Clear(b, t, laid, 0, Probe(HeavyTag(t.tag), true), c) && Clear(b, t, laid, 1, Probe(HeavyTag(t.tag), true), c)
  {
    hide Barred, Clear, HeavyTag, PowerTag;
    SpelledTags(t.tag);
    BarredIs(b, t, laid, 0, Probe(HeavyTag(t.tag), true), c);
    BarredIs(b, t, laid, 1, Probe(HeavyTag(t.tag), true), c);
    if DrillFree(b, t, laid, c) {
      assert !Barred(b, t, laid, 0, Probe(PowerTag(t.tag), true), c);
      assert !Barred(b, t, laid, 1, Probe(PowerTag(t.tag), true), c);
    }
  }

  lemma LinkIsClear(b: Board, t: Task, laid: set<Run>, x: Seat, y: Seat)
    requires Free(b, t, laid, x) && Free(b, t, laid, y)
    ensures FreeLink(b, t, laid, x, y) <==> ClearStep(b, t, laid, x, y)
  {
    hide Barred, Clear, DrillFree, HeavyTag, PowerTag, Adjacent, Heading, NextCell;
    DrillIs(b, t, laid, x.cell);
    NextIsAdjacent(x.cell, y.cell);
  }

  /** Fitting is being clear, seat by seat and step by step. */
  lemma FitsIsClear(b: Board, t: Task, laid: set<Run>, trail: seq<Seat>)
    ensures Fits(b, t, laid, trail) <==> ClearTrail(b, t, laid, trail)
  {
    hide Free, FreeLink, Clear, ClearStep;
    forall k | 0 <= k < |trail|
      ensures Free(b, t, laid, trail[k]) <==>
        trail[k].cell < 791 * 606 && trail[k].lay < 2 && Clear(b, t, laid, trail[k].lay, Probe(HeavyTag(t.tag), false), trail[k].cell)
    {
      FreeIsClear(b, t, laid, trail[k]);
    }
    forall k | 0 < k < |trail| && Free(b, t, laid, trail[k - 1]) && Free(b, t, laid, trail[k])
      ensures FreeLink(b, t, laid, trail[k - 1], trail[k]) <==> ClearStep(b, t, laid, trail[k - 1], trail[k])
    {
      LinkIsClear(b, t, laid, trail[k - 1], trail[k]);
    }
    if Fits(b, t, laid, trail) {
      forall k | 0 <= k < |trail| ensures Free(b, t, laid, trail[k]) {
        if k > 0 { LinkHasFree(b, t, laid, trail[k - 1], trail[k]); }
      }
    }
  }

  lemma LinkHasFree(b: Board, t: Task, laid: set<Run>, x: Seat, y: Seat)
    requires FreeLink(b, t, laid, x, y)
    ensures Free(b, t, laid, x) && Free(b, t, laid, y)
  {
    hide Free, DrillFree;
  }

  /** No trail among the same runs is cheaper, whichever way it first faces. */
  ghost predicate CheapestFit(b: Board, t: Task, placed: set<Run>, trail: seq<Seat>) {
    exists face: nat :: face < 4 && NoneCheaper(b, t, placed, Price(Side(t), trail, face))
  }

  ghost predicate NoneCheaper(b: Board, t: Task, placed: set<Run>, cost: nat) {
    forall other, turn: nat :: turn < 4 && Fits(b, t, placed, other) ==> cost <= Price(Side(t), other, turn)
  }

  function Side(t: Task): nat { if PowerTag(t.tag) then 1 else 0 }

  function Back(tag: string): nat { if HeavyTag(tag) then 1 else 0 }

  /** No clear trail is cheaper, power wanting the back layer and signals the front. */
  ghost predicate CheapestClear(b: Board, t: Task, laid: set<Run>, trail: seq<Seat>) {
    exists face: nat :: face < 4 && NoneClearCheaper(b, t, laid, Back(t.tag), Price(Back(t.tag), trail, face))
  }

  ghost predicate NoneClearCheaper(b: Board, t: Task, laid: set<Run>, want: nat, cost: nat) {
    forall other, turn: nat :: turn < 4 && ClearTrail(b, t, laid, other) ==> cost <= Price(want, other, turn)
  }

  lemma CheapFitIsClear(b: Board, t: Task, laid: set<Run>, trail: seq<Seat>)
    requires CheapestFit(b, t, laid, trail)
    ensures CheapestClear(b, t, laid, trail)
  {
    hide Fits, ClearTrail, HeavyTag, PowerTag;
    SpelledTags(t.tag);
    var want := Back(t.tag);
    assert want == Side(t);
    var face: nat :| face < 4 && NoneCheaper(b, t, laid, Price(Side(t), trail, face));
    forall other, turn: nat | turn < 4 && ClearTrail(b, t, laid, other)
      ensures Price(Side(t), trail, face) <= Price(Side(t), other, turn)
    {
      FitsIsClear(b, t, laid, other);
    }
    assert NoneClearCheaper(b, t, laid, want, Price(want, trail, face));
  }

  /** one_run, up to its trail: the cheapest that fits among the runs laid, or none fits. */
  method OneRun(b: Board, t: Task, placed: seq<Run>) returns (r: Option<Run>)
    requires b.Valid() && t.src in b.nets && t.dst in b.nets
    ensures r.Some? ==> r.value.task == t && Fits(b, t, Members(placed), r.value.trail)
    ensures r.Some? ==> CheapestFit(b, t, Members(placed), r.value.trail)
    ensures r.None? ==> forall trail :: !Fits(b, t, Members(placed), trail)
    ensures r.Some? ==> ClearTrail(b, t, Members(placed), r.value.trail) && CheapestClear(b, t, Members(placed), r.value.trail)
    ensures r.None? ==> forall trail :: !ClearTrail(b, t, Members(placed), trail)
  {
    hide Barred, Fits, Joins, Price, Clear, ClearTrail, CheapestClear;
    forall trail ensures Fits(b, t, Members(placed), trail) <==> ClearTrail(b, t, Members(placed), trail) {
      FitsIsClear(b, t, Members(placed), trail);
    }
    var power := PowerTag(t.tag);
    var wall0 := OneField(b, t, placed, 0, Probe(power, false));
    var wall1 := OneField(b, t, placed, 1, Probe(power, false));
    var hole0 := OneField(b, t, placed, 0, Probe(power, true));
    var hole1 := OneField(b, t, placed, 1, Probe(power, true));
    var j := Search.Job(Field([wall0, wall1], [hole0, hole1]), Side(t), b.seat(t.src), b.seat(t.dst));
    var found := FindPath(j);
    forall trail ensures Fits(b, t, Members(placed), trail) <==> Joins(j.f, trail, j.src, j.dst) {
      FitsIsJoins(b, t, Members(placed), j.f, trail);
    }
    if found.None? { return None; }
    ghost var face: nat :| face < 4 && Cheapest(j, found.value, face);
    assert NoneCheaper(b, t, Members(placed), Price(Side(t), found.value, face));
    assert CheapestFit(b, t, Members(placed), found.value);
    CheapFitIsClear(b, t, Members(placed), found.value);
    return Some(Run(t, found.value));
  }

  // ----- the whole board -------------------------------------------------------------------

  datatype Outcome =
    | Laid(placed: seq<Run>)
    | NoConvergence(placed: seq<Run>)
    | NoWay(task: Task, placed: seq<Run>)             // walled in nine times
    | WalledByPads(task: Task, placed: seq<Run>)      // no run of another tag left to lift

  function Tasks(placed: seq<Run>): seq<Task> {
    seq(|placed|, k requires 0 <= k < |placed| => placed[k].task)
  }

  /** Every run fits among the surviving runs laid before it. */
  ghost predicate Layered(b: Board, placed: seq<Run>) {
    forall k :: 0 <= k < |placed| ==> Fits(b, placed[k].task, Members(placed[..k]), placed[k].trail)
  }

  lemma LayMore(b: Board, placed: seq<Run>, r: Run)
    requires Layered(b, placed) && Fits(b, r.task, Members(placed), r.trail)
    ensures Layered(b, placed + [r])
    ensures multiset(Tasks(placed + [r])) == multiset(Tasks(placed)) + multiset{r.task}
  {
    hide Fits;
    var more := placed + [r];
    assert Tasks(more) == Tasks(placed) + [r.task];
    forall k | 0 <= k < |more| ensures Fits(b, more[k].task, Members(more[..k]), more[k].trail) {
      assert more[..k] == placed[..k];
      assert placed[..|placed|] == placed;
    }
  }

  lemma LiftOne(b: Board, placed: seq<Run>, at: nat)
    requires at < |placed| && Layered(b, placed)
    ensures Layered(b, placed[..at] + placed[at + 1..])
    ensures multiset(Tasks(placed)) == multiset(Tasks(placed[..at] + placed[at + 1..])) + multiset{placed[at].task}
  {
    hide Fits;
    var fewer := placed[..at] + placed[at + 1..];
    forall k | 0 <= k < |fewer| ensures Fits(b, fewer[k].task, Members(fewer[..k]), fewer[k].trail) {
      if k < at {
        assert fewer[..k] == placed[..k];
      } else {
        assert fewer[k] == placed[k + 1];
        assert Members(fewer[..k]) <= Members(placed[..k + 1]);
        FitsAmongFewer(b, fewer[k].task, Members(fewer[..k]), Members(placed[..k + 1]), fewer[k].trail);
      }
    }
    var ts := Tasks(placed);
    assert Tasks(fewer) == ts[..at] + ts[at + 1..];
    assert ts == ts[..at] + [ts[at]] + ts[at + 1..];
  }

  predicate AllTagged(runs: seq<Run>, tag: string) {
    forall k :: 0 <= k < |runs| ==> runs[k].task.tag == tag
  }

  /** The newest run of another tag. */
  method NewestForeign(placed: seq<Run>, tag: string) returns (r: Option<Run>, ghost newest: nat)
    ensures r.None? ==> AllTagged(placed, tag)
    ensures r.Some? ==> NewestOther(placed, tag, newest) && r.value == placed[newest]
  {
    newest := 0;
    var k := |placed|;
    while k > 0
      invariant 0 <= k <= |placed| && forall l :: k <= l < |placed| ==> placed[l].task.tag == tag
    {
      k := k - 1;
      if placed[k].task.tag != tag {
        return Some(placed[k]), k;
      }
    }
    return None, 0;
  }

  /** list.remove: the first run equal to the victim. */
  method IndexOf(placed: seq<Run>, victim: Run) returns (at: nat)
    requires victim in placed
    ensures at < |placed| && placed[at] == victim
  {
    at := 0;
    while placed[at] != victim
      invariant at < |placed| && victim !in placed[..at]
      decreases |placed| - at
    {
      at := at + 1;
    }
  }

  /** With only its own tag laid, nothing but the board bars an edge outside the declared trees. */
  lemma OwnTagBarsNothing(b: Board, t: Task, placed: seq<Run>)
    requires t.tag !in b.trees && AllTagged(placed, t.tag) && NoneFits(b, t, placed)
    ensures NoneFits(b, t, [])
  {
    assert Members([]) == {};
    forall layer, q, c ensures Barred(b, t, Members(placed), layer, q, c) <==> Barred(b, t, {}, layer, q, c) {}
    forall trail | Fits(b, t, {}, trail) ensures false {
      forall k | 0 < k < |trail| ensures FreeLink(b, t, Members(placed), trail[k - 1], trail[k]) {
        assert FreeLink(b, t, {}, trail[k - 1], trail[k]);
      }
      assert Fits(b, t, Members(placed), trail);
    }
  }

  /** A cell only the runs laid keep from the edge: the bare board would let it through. */
  ghost predicate BranchBars(b: Board, t: Task, placed: seq<Run>, layer: nat, q: Probe, c: nat) {
    Barred(b, t, Members(placed), layer, q, c) && !Barred(b, t, {}, layer, q, c)
  }

  /** A trail with a seat, or a via, on such a cell. */
  ghost predicate Crosses(b: Board, t: Task, placed: seq<Run>, trail: seq<Seat>) {
    || (exists k :: 0 <= k < |trail| && BranchBars(b, t, placed, trail[k].lay, Probe(PowerTag(t.tag), false), trail[k].cell))
    || (exists k, lay: nat :: 0 < k < |trail| && trail[k - 1].cell == trail[k].cell && lay < 2
          && BranchBars(b, t, placed, lay, Probe(PowerTag(t.tag), true), trail[k].cell))
  }

  /** A trail of the bare board that fits no more crosses a run laid. */
  lemma BlockedCrosses(b: Board, t: Task, placed: seq<Run>, trail: seq<Seat>)
    requires Fits(b, t, {}, trail)
    ensures Fits(b, t, Members(placed), trail) <==> !Crosses(b, t, placed, trail)
  {
    hide Barred, Adjacent, Heading;
    var q := Probe(PowerTag(t.tag), true);
    forall k | 0 <= k < |trail| ensures Free(b, t, {}, trail[k]) {
      if k > 0 { assert FreeLink(b, t, {}, trail[k - 1], trail[k]); }
    }
    if !Crosses(b, t, placed, trail) {
      forall k | 0 <= k < |trail| ensures Free(b, t, Members(placed), trail[k]) {
        assert !BranchBars(b, t, placed, trail[k].lay, Probe(PowerTag(t.tag), false), trail[k].cell);
      }
      forall k | 0 < k < |trail| ensures FreeLink(b, t, Members(placed), trail[k - 1], trail[k]) {
        assert FreeLink(b, t, {}, trail[k - 1], trail[k]);
        if trail[k - 1].cell == trail[k].cell {
          forall lay | 0 <= lay < 2 ensures !Barred(b, t, Members(placed), lay, q, trail[k].cell) {
            assert !BranchBars(b, t, placed, lay, q, trail[k].cell);
          }
        }
      }
    }
    if Fits(b, t, Members(placed), trail) {
      forall k | 0 <= k < |trail|
        ensures !BranchBars(b, t, placed, trail[k].lay, Probe(PowerTag(t.tag), false), trail[k].cell)
      {
        if k > 0 { assert FreeLink(b, t, Members(placed), trail[k - 1], trail[k]); }
      }
      forall k, lay: nat | 0 < k < |trail| && trail[k - 1].cell == trail[k].cell && lay < 2
        ensures !BranchBars(b, t, placed, lay, q, trail[k].cell)
      {
        assert FreeLink(b, t, Members(placed), trail[k - 1], trail[k]);
      }
    }
  }

  /** Seats that hold the first pad and not the second, and that no link leaves. */
  ghost predicate Ring(b: Board, t: Task, placed: set<Run>, inside: iset<Seat>) {
    && (forall s :: Free(b, t, placed, s) && s.cell == b.seat(t.src) ==> s in inside)
    && (forall s :: s in inside ==> s.cell != b.seat(t.dst))
    && (forall x, y :: x in inside && FreeLink(b, t, placed, x, y) ==> y in inside)
  }

  /** A trail from the first pad that fits as far as it goes. */
  ghost predicate Reaches(b: Board, t: Task, placed: set<Run>, trail: seq<Seat>, s: Seat) {
    && |trail| > 0 && trail[0].cell == b.seat(t.src) && trail[|trail| - 1] == s
    && Free(b, t, placed, trail[0])
    && forall k :: 0 < k < |trail| ==> FreeLink(b, t, placed, trail[k - 1], trail[k])
  }

  lemma ReachFurther(b: Board, t: Task, placed: set<Run>, trail: seq<Seat>, x: Seat, y: Seat)
    requires Reaches(b, t, placed, trail, x) && FreeLink(b, t, placed, x, y)
    ensures Reaches(b, t, placed, trail + [y], y)
  {
    hide Free, FreeLink;
  }

  lemma {:induction false} StaysInRing(b: Board, t: Task, placed: set<Run>, inside: iset<Seat>, trail: seq<Seat>, k: nat)
    requires Ring(b, t, placed, inside) && Fits(b, t, placed, trail) && k < |trail|
    ensures trail[k] in inside
    decreases k
  {
    hide Free, FreeLink;
    if k > 0 { StaysInRing(b, t, placed, inside, trail, k - 1); }
  }

  /** No trail fits exactly when a ring of barred cells closes round the first pad. */
  lemma RingOrTrail(b: Board, t: Task, placed: set<Run>)
    ensures (forall trail :: !Fits(b, t, placed, trail)) <==> exists inside :: Ring(b, t, placed, inside)
  {
    hide Free, FreeLink;
    if forall trail :: !Fits(b, t, placed, trail) {
      var inside := iset s, trail | Reaches(b, t, placed, trail, s) :: s;
      forall s | Free(b, t, placed, s) && s.cell == b.seat(t.src) ensures s in inside {
        assert Reaches(b, t, placed, [s], s);
      }
      forall s | s in inside ensures s.cell != b.seat(t.dst) {
        var trail :| Reaches(b, t, placed, trail, s);
        assert !Fits(b, t, placed, trail);
      }
      forall x, y | x in inside && FreeLink(b, t, placed, x, y) ensures y in inside {
        var trail :| Reaches(b, t, placed, trail, x);
        ReachFurther(b, t, placed, trail, x, y);
      }
      assert Ring(b, t, placed, inside);
    }
    if inside :| Ring(b, t, placed, inside) {
      forall trail ensures !Fits(b, t, placed, trail) {
        if Fits(b, t, placed, trail) { StaysInRing(b, t, placed, inside, trail, |trail| - 1); }
      }
    }
  }

  /** When nothing fits among the runs laid, the pads are to blame exactly when the ring closes
      without the runs; any trail the bare board does allow crosses one of them. */
  lemma PadsToBlame(b: Board, t: Task, placed: seq<Run>)
    requires NoneFits(b, t, placed)
    ensures NoneFits(b, t, []) <==> exists inside :: Ring(b, t, {}, inside)
    ensures forall trail :: Fits(b, t, {}, trail) ==> Crosses(b, t, placed, trail)
  {
    hide Fits, Crosses, Ring;
    assert Members([]) == {};
    RingOrTrail(b, t, {});
    forall trail | Fits(b, t, {}, trail) ensures Crosses(b, t, placed, trail) {
      BlockedCrosses(b, t, placed, trail);
    }
  }

  // ----- the turns of the loop ---------------------------------------------------------------

  /** Where the loop stands: what is still to lay, and what is laid. */
  datatype Stand = Stand(queue: seq<Task>, placed: seq<Run>)

  ghost predicate NoneFits(b: Board, t: Task, placed: seq<Run>) {
    forall trail :: !Fits(b, t, Members(placed), trail)
  }

  /** The front edge is laid, on the cheapest trail that fits. */
  ghost predicate LaidTurn(b: Board, s: Stand, n: Stand, r: Run)
    requires s.queue != []
  {
    && r.task == s.queue[0] && Fits(b, r.task, Members(s.placed), r.trail)
    && CheapestFit(b, r.task, Members(s.placed), r.trail)
    && n == Stand(s.queue[1..], s.placed + [r])
  }

  predicate NewestOther(placed: seq<Run>, tag: string, newest: nat) {
    newest < |placed| && placed[newest].task.tag != tag && AllTagged(placed[newest + 1..], tag)
  }

  /** Nothing fits: the newest run of another tag is lifted and goes last, the front edge stays first. */
  ghost predicate LiftTurn(b: Board, s: Stand, n: Stand, newest: nat, at: nat)
    requires s.queue != []
  {
    var t := s.queue[0];
    && NoneFits(b, t, s.placed) && NewestOther(s.placed, t.tag, newest)
    && at < |s.placed| && s.placed[at] == s.placed[newest]
    && n == Stand([t] + s.queue[1..] + [s.placed[at].task], s.placed[..at] + s.placed[at + 1..])
  }

  ghost predicate Turn(b: Board, s: Stand, n: Stand) {
    && s.queue != []
    && ((exists r :: LaidTurn(b, s, n, r)) || (exists newest, at :: LiftTurn(b, s, n, newest, at)))
  }

  /** No edge is lost or doubled, and every laid run fits among those laid before it. */
  ghost predicate Kept(b: Board, jobs: seq<Task>, s: Stand) {
    multiset(s.queue) + multiset(Tasks(s.placed)) == multiset(jobs) && Layered(b, s.placed)
  }

  ghost predicate Turns(b: Board, jobs: seq<Task>, run: seq<Stand>) {
    && run != [] && run[0] == Stand(jobs, [])
    && (forall k :: 0 < k < |run| ==> Turn(b, run[k - 1], run[k]))
    && (forall k :: 0 <= k < |run| ==> Kept(b, jobs, run[k]))
  }

  /** How often a run was lifted to make way for this edge. */
  function Lifts(run: seq<Stand>, t: Task): nat {
    if |run| < 2 then 0
    else
      var s, n := run[|run| - 2], run[|run| - 1];
      Lifts(run[..|run| - 1], t) + if s.queue != [] && s.queue[0] == t && |n.placed| < |s.placed| then 1 else 0
  }

  lemma LiftsNext(run: seq<Stand>, n: Stand)
    requires run != []
    ensures var s := run[|run| - 1];
            forall t :: Lifts(run + [n], t)
              == Lifts(run, t) + if s.queue != [] && s.queue[0] == t && |n.placed| < |s.placed| then 1 else 0
  {
    assert (run + [n])[..|run|] == run;
  }

  lemma TurnsNext(b: Board, jobs: seq<Task>, run: seq<Stand>, n: Stand)
    requires Turns(b, jobs, run) && Turn(b, run[|run| - 1], n) && Kept(b, jobs, n)
    ensures Turns(b, jobs, run + [n])
  {
    hide Turn, Kept;
  }

  lemma LayTurn(b: Board, jobs: seq<Task>, s: Stand, r: Run)
    requires s.queue != [] && Kept(b, jobs, s) && r.task == s.queue[0]
    requires Fits(b, r.task, Members(s.placed), r.trail) && CheapestFit(b, r.task, Members(s.placed), r.trail)
    ensures var n := Stand(s.queue[1..], s.placed + [r]); Turn(b, s, n) && Kept(b, jobs, n)
  {
    hide Fits, CheapestFit, Layered;
    var n := Stand(s.queue[1..], s.placed + [r]);
    LayMore(b, s.placed, r);
    assert s.queue == [s.queue[0]] + s.queue[1..];
    assert LaidTurn(b, s, n, r);
  }

  lemma LiftRun(b: Board, jobs: seq<Task>, s: Stand, newest: nat, at: nat)
    requires s.queue != [] && Kept(b, jobs, s) && NoneFits(b, s.queue[0], s.placed)
    requires NewestOther(s.placed, s.queue[0].tag, newest) && at < |s.placed| && s.placed[at] == s.placed[newest]
    ensures var n := Stand([s.queue[0]] + s.queue[1..] + [s.placed[at].task], s.placed[..at] + s.placed[at + 1..]);
            Turn(b, s, n) && Kept(b, jobs, n)
  {
    hide NoneFits, NewestOther, Layered;
    var n := Stand([s.queue[0]] + s.queue[1..] + [s.placed[at].task], s.placed[..at] + s.placed[at + 1..]);
    LiftOne(b, s.placed, at);
    assert s.queue == [s.queue[0]] + s.queue[1..];
    assert LiftTurn(b, s, n, newest, at);
  }

  lemma FrontIsJob(b: Board, jobs: seq<Task>, s: Stand)
    requires s.queue != [] && Kept(b, jobs, s)
    ensures s.queue[0] in jobs
  {
    assert s.queue[0] in multiset(s.queue);
    assert s.queue[0] in multiset(jobs);
  }

  /** route_board, and with it the turns it took.  It searches at most twelve times an edge, and at
      every turn what is queued and what is laid are together the edges asked for.  A finished
      board has laid every edge exactly once, each on a trail that fits among the runs laid before
      it; an edge said to be walled in by the pads has no trail at all on the bare board, unless its
      tag is a declared tree, whose own branches may be what stands in the way. */
  method RouteBoard(b: Board, jobs: seq<Task>) returns (out: Outcome, searches: nat, ghost run: seq<Stand>)
    requires b.Valid() && forall t :: t in jobs ==> t.src in b.nets && t.dst in b.nets
    ensures Turns(b, jobs, run) && run[|run| - 1].placed == out.placed
    ensures searches <= 12 * |jobs| && |run| - 1 == if out.NoWay? || out.WalledByPads? then searches - 1 else searches
    ensures out.Laid? ==> multiset(Tasks(out.placed)) == multiset(jobs) && Layered(b, out.placed)
    ensures out.Laid? ==> AllClear(b, out.placed)
    ensures out.Laid? <==> run[|run| - 1].queue == []
    ensures out.NoConvergence? ==> searches == 12 * |jobs|
    ensures out.NoWay? || out.WalledByPads? ==>
      out.task in jobs && out.task == run[|run| - 1].queue[0] && NoneFits(b, out.task, out.placed)
    ensures out.NoWay? ==> Lifts(run, out.task) == 8
    ensures out.WalledByPads? ==> Lifts(run, out.task) < 8 && AllTagged(out.placed, out.task.tag)
    ensures out.WalledByPads? && out.task.tag !in b.trees ==> NoneFits(b, out.task, [])
    ensures out.WalledByPads? ==> (NoneFits(b, out.task, []) <==> exists inside :: Ring(b, out.task, {}, inside))
    ensures out.WalledByPads? ==> forall trail :: Fits(b, out.task, {}, trail) ==> Crosses(b, out.task, out.placed, trail)
  {
    hide Fits, Layered, CheapestFit, Turns, Turn, Kept, NoneFits, AllTagged, Lifts, NewestOther, Crosses, Ring, ClearTrail, CheapestClear, AllClear;
    var queue, placed: seq<Run>, tries: map<Task, nat> := jobs, [], map[];
    var budget := 12 * |queue|;
    searches := 0;
    run := [Stand(jobs, [])];
    StartsKept(b, jobs);
    while queue != []
      invariant Turns(b, jobs, run) && run != [] && run[|run| - 1] == Stand(queue, placed)
      invariant Kept(b, jobs, Stand(queue, placed))
      invariant |run| == searches + 1 && searches + budget == 12 * |jobs| && budget >= 0
      invariant forall t :: Lifts(run, t) == (if t in tries then tries[t] else 0)
      invariant forall t :: Lifts(run, t) <= 8
      decreases budget
    {
      budget := budget - 1;
      if budget < 0 {
        return NoConvergence(placed), searches, run;
      }
      searches := searches + 1;
      ghost var s := Stand(queue, placed);
      FrontIsJob(b, jobs, s);
      var task := queue[0];
      queue := queue[1..];
      var laid := OneRun(b, task, placed);
      if laid.Some? {
        LayTurn(b, jobs, s, laid.value);
        placed := placed + [laid.value];
        TurnsNext(b, jobs, run, Stand(queue, placed));
        LiftsNext(run, Stand(queue, placed));
        run := run + [Stand(queue, placed)];
        continue;
      }
      assert NoneFits(b, task, placed) by { NoneFitsIs(b, task, placed); }
      tries := tries[task := (if task in tries then tries[task] else 0) + 1];
      if tries[task] > 8 {
        return NoWay(task, placed), searches, run;
      }
      var victim, newest := NewestForeign(placed, task.tag);
      if victim.None? {
        if task.tag !in b.trees { OwnTagBarsNothing(b, task, placed); }
        PadsToBlame(b, task, placed);
        return WalledByPads(task, placed), searches, run;
      }
      var at := IndexOf(placed, victim.value);
      LiftRun(b, jobs, s, newest, at);
      placed := placed[..at] + placed[at + 1..];
      queue := [task] + queue + [victim.value.task];
      TurnsNext(b, jobs, run, Stand(queue, placed));
      LiftsNext(run, Stand(queue, placed));
      run := run + [Stand(queue, placed)];
    }
    EndsLaid(b, jobs, placed);
    LayeredIsClear(b, placed);
    return Laid(placed), searches, run;
  }

  /** Every laid trail is clear of the pads, of the board and of every run laid before it. */
  ghost predicate AllClear(b: Board, placed: seq<Run>) {
    forall k :: 0 <= k < |placed| ==> ClearTrail(b, placed[k].task, Members(placed[..k]), placed[k].trail)
  }

  lemma LayeredIsClear(b: Board, placed: seq<Run>)
    requires Layered(b, placed)
    ensures AllClear(b, placed)
  {
    hide Fits, ClearTrail;
    forall k | 0 <= k < |placed| ensures ClearTrail(b, placed[k].task, Members(placed[..k]), placed[k].trail) {
      FitsIsClear(b, placed[k].task, Members(placed[..k]), placed[k].trail);
    }
  }

  lemma NoneFitsIs(b: Board, t: Task, placed: seq<Run>)
    requires forall trail :: !Fits(b, t, Members(placed), trail)
    ensures NoneFits(b, t, placed)
  {
  }

  lemma StartsKept(b: Board, jobs: seq<Task>)
    ensures Turns(b, jobs, [Stand(jobs, [])]) && Kept(b, jobs, Stand(jobs, []))
    ensures forall t :: Lifts([Stand(jobs, [])], t) == 0
  {
    EmptyIsLayered(b);
    assert multiset(jobs) + multiset(Tasks([])) == multiset(jobs);
  }

  lemma EndsLaid(b: Board, jobs: seq<Task>, placed: seq<Run>)
    requires Kept(b, jobs, Stand([], placed))
    ensures multiset(Tasks(placed)) == multiset(jobs) && Layered(b, placed)
  {
    hide Layered;
    assert multiset(Tasks(placed)) == multiset([]) + multiset(Tasks(placed));
  }

  lemma EmptyIsLayered(b: Board)
    ensures Layered(b, [])
  {
  }

  // ----- a tree that blocks itself ---------------------------------------------------------------

  const INNER := Task("T", "b", "d")
  const OUTER := Task("T", "a", "e")

  /** Where the four pads of a strip of five cells sit. */
  function StripSeat(pad: string): nat {
    if pad == "a" then 0 else if pad == "b" then 1 else if pad == "d" then 3 else 4
  }

  predicate OffStrip(cell: nat) { cell >= 5 }

  /** A board whose only room is the strip, and one declared tree on it: a run keeps cells 1 to 3. */
  function Strip(): Board {
    Board(map["a" := "T", "b" := "T", "d" := "T", "e" := "T"], {}, {"T"}, StripSeat, pad => {StripSeat(pad)}, _ => {},
          _ => (set c: nat | c < CELLS && OffStrip(c)), (_, _, _) => {}, {}, (_, _, _, _) => {1, 2, 3}, (_, _, _, _) => {})
  }

  const INNER_RUN := Run(INNER, [Seat(1, 0), Seat(2, 0), Seat(3, 0)])

  lemma StripBars(t: Task, placed: set<Run>, layer: nat, q: Probe, c: nat)
    requires t == INNER || t == OUTER
    ensures PowerTag(t.tag) == false && (placed <= {INNER_RUN} ==>
      (Barred(Strip(), t, placed, layer, q, c) <==>
        && c != StripSeat(t.src) && c != StripSeat(t.dst)
        && (5 <= c < CELLS || (placed != {} && 1 <= c <= 3))))
  {
    var b := Strip();
    assert forall pad :: pad in b.nets ==> OwnPad(b, t, pad);
    NotPower();
    assert forall r :: r in placed ==> RunCells(b, t, r, layer, q) == {1, 2, 3};
    if placed != {} && placed <= {INNER_RUN} { assert INNER_RUN in placed && Blocks(b, t, INNER_RUN); }
  }

  lemma NotPower()
    ensures !PowerTag("T")
  {
    assert "T"[0] != "+"[0];
  }

  lemma StripFree(t: Task, placed: set<Run>, s: Seat)
    requires (t == INNER || t == OUTER) && placed <= {INNER_RUN}
    ensures Free(Strip(), t, placed, s) <==>
      s.lay < 2 && s.cell < 5 && (placed == {} || s.cell == 0 || s.cell == 4 || s.cell == StripSeat(t.src) || s.cell == StripSeat(t.dst))
  {
    StripBars(t, placed, s.lay, Probe(PowerTag(t.tag), false), s.cell);
  }

  lemma Steps(c: nat)
    requires c < 4
    ensures Adjacent(c, c + 1, Heading(c, c + 1)) && Heading(c, c + 1) == 0
  {
  }

  lemma InnerFits()
    ensures Fits(Strip(), INNER, {}, INNER_RUN.trail)
  {
    hide Barred, Free, Adjacent, Heading, Strip;
    forall k | 0 <= k < 3 ensures Free(Strip(), INNER, {}, INNER_RUN.trail[k]) {
      StripFree(INNER, {}, INNER_RUN.trail[k]);
    }
    Steps(1);
    Steps(2);
    StripSeats();
  }

  lemma StripSeats()
    ensures Strip().seat == StripSeat
  {
  }

  lemma OuterFits()
    ensures Fits(Strip(), OUTER, {}, [Seat(0, 0), Seat(1, 0), Seat(2, 0), Seat(3, 0), Seat(4, 0)])
  {
    hide Barred, Free, Adjacent, Heading, Strip;
    var trail := [Seat(0, 0), Seat(1, 0), Seat(2, 0), Seat(3, 0), Seat(4, 0)];
    forall k | 0 <= k < 5 ensures Free(Strip(), OUTER, {}, trail[k]) {
      StripFree(OUTER, {}, trail[k]);
    }
    forall k | 0 < k < 5 ensures FreeLink(Strip(), OUTER, {}, trail[k - 1], trail[k]) {
      Steps(k - 1);
    }
    StripSeats();
  }

  /** With the inner edge laid, the outer one cannot leave its first pad. */
  lemma {:induction false} OuterStays(trail: seq<Seat>, k: nat)
    requires Fits(Strip(), OUTER, {INNER_RUN}, trail) && k < |trail|
    ensures trail[k].cell == 0
    decreases k
  {
    hide Barred, Fits, Free, Strip;
    OuterSeat(trail, k);
    if k > 0 {
      OuterStays(trail, k - 1);
      OuterStep(trail, k);
    } else {
      OuterStart(trail);
    }
  }

  lemma OuterStart(trail: seq<Seat>)
    requires Fits(Strip(), OUTER, {INNER_RUN}, trail)
    ensures trail != [] && trail[0].cell == 0 && trail[|trail| - 1].cell == 4
  {
  }

  lemma OuterSeat(trail: seq<Seat>, k: nat)
    requires Fits(Strip(), OUTER, {INNER_RUN}, trail) && k < |trail|
    ensures trail[k].cell == 0 || trail[k].cell == 4
  {
    hide Barred, Adjacent, Heading, DrillFree;
    if k > 0 { assert FreeLink(Strip(), OUTER, {INNER_RUN}, trail[k - 1], trail[k]); }
    StripFree(OUTER, {INNER_RUN}, trail[k]);
  }

  lemma OuterStep(trail: seq<Seat>, k: nat)
    requires Fits(Strip(), OUTER, {INNER_RUN}, trail) && 0 < k < |trail| && trail[k - 1].cell == 0
    ensures trail[k].cell != 4
  {
    hide Barred, DrillFree, Free;
    assert FreeLink(Strip(), OUTER, {INNER_RUN}, trail[k - 1], trail[k]);
  }

  /** No trail costs less than the cells it has to cover. */
  lemma FitPaysDistance(b: Board, t: Task, placed: set<Run>, trail: seq<Seat>, want: nat, face: nat)
    requires Fits(b, t, placed, trail)
    ensures Far(b.seat(t.dst), b.seat(t.src)) <= Price(want, trail, face)
  {
    hide Barred, Fits, Legal, Price, Far;
    var power := PowerTag(t.tag);
    ghost var wall := (lay: nat) => seq(CELLS, c requires 0 <= c < CELLS => Barred(b, t, placed, lay, Probe(power, false), c));
    ghost var hole := (lay: nat) => seq(CELLS, c requires 0 <= c < CELLS => Barred(b, t, placed, lay, Probe(power, true), c));
    ghost var f := Field([wall(0), wall(1)], [hole(0), hole(1)]);
    assert FieldsOf(b, t, placed, f);
    FitsIsJoins(b, t, placed, f, trail);
    FarBounds(f, want, trail, face, b.seat(t.dst));
  }

  /** A tree's own branch may be all that stands in the way: the strip's inner edge is laid first, as
      the cheapest there is, and the outer one then finds no way although the pads leave it one. */
  lemma TreeBlocksItself()
    ensures Strip().Valid() && forall t :: t in [INNER, OUTER] ==> t.src in Strip().nets && t.dst in Strip().nets
    ensures Turns(Strip(), [INNER, OUTER], [Stand([INNER, OUTER], []), Stand([OUTER], [INNER_RUN])])
    ensures AllTagged([INNER_RUN], OUTER.tag) && NoneFits(Strip(), OUTER, [INNER_RUN]) && !NoneFits(Strip(), OUTER, [])
  {
    hide Fits, Turn, Kept, Strip;
    var b, first, next := Strip(), Stand([INNER, OUTER], []), Stand([OUTER], [INNER_RUN]);
    StripIsBoard();
    InnerFits();
    InnerIsCheapest();
    assert Members([]) == {} && Members([INNER_RUN]) == {INNER_RUN};
    StartsKept(b, first.queue);
    assert first.queue[1..] == [OUTER] && [] + [INNER_RUN] == next.placed;
    LayTurn(b, first.queue, first, INNER_RUN);
    TurnsNext(b, first.queue, [first], next);
    assert [first] + [next] == [first, next];
    OuterFits();
    forall trail ensures !Fits(b, OUTER, {INNER_RUN}, trail) {
      if Fits(b, OUTER, {INNER_RUN}, trail) {
        OuterStart(trail);
        OuterStays(trail, |trail| - 1);
      }
    }
  }

  lemma StripIsBoard()
    ensures Strip().Valid() && forall t :: t in [INNER, OUTER] ==> t.src in Strip().nets && t.dst in Strip().nets
  {
  }

  lemma InnerIsCheapest()
    ensures CheapestFit(Strip(), INNER, {}, INNER_RUN.trail)
  {
    hide Fits, Strip;
    var trail := INNER_RUN.trail;
    StripSeats();
    forall other, turn: nat | turn < 4 && Fits(Strip(), INNER, {}, other) ensures 2 <= Price(Side(INNER), other, turn) {
      FitPaysDistance(Strip(), INNER, {}, other, Side(INNER), turn);
    }
    InnerPrice();
    assert NoneCheaper(Strip(), INNER, {}, Price(Side(INNER), trail, 0));
  }

  /** A step on along the strip, on the side the net wants, costs one. */
  lemma OnwardPrice(trail: seq<Seat>, c: nat)
    requires |trail| > 1 && c < 4 && trail[0] == Seat(c, 0) && trail[1] == Seat(c + 1, 0)
    ensures Price(0, trail, 0) == 1 + Price(0, trail[1..], 0)
  {
    hide Heading;
    Steps(c);
  }

  lemma OneSeat(s: Seat)
    ensures Price(0, [s], 0) == 0
  {
  }

  lemma InnerPrice()
    ensures Price(Side(INNER), INNER_RUN.trail, 0) == 2
  {
    hide Price, PowerTag;
    NotPower();
    var trail := INNER_RUN.trail;
    OnwardPrice(trail, 1);
    OnwardPrice(trail[1..], 2);
    assert trail[1..][1..] == [Seat(3, 0)];
    OneSeat(Seat(3, 0));
  }

  // ----- a stranger in the way -------------------------------------------------------------------------

  /** The strip with one more pad on it, of another net, that keeps cell 2. */
  function Guarded(): Board {
    Strip().(nets := Strip().nets["x" := "V"], stamp := (_, _, pad) => if pad == "x" then {2} else {})
  }

  lemma GuardedBars(lay: nat, q: Probe)
    ensures !Clear(Guarded(), INNER, {}, lay, q, 2)
  {
    assert Stranger(Guarded(), INNER, "x");
    assert 2 in Guarded().stamp(HeavyTag(INNER.tag) || HeavyNet(Guarded().nets["x"]), q, "x");
  }

  lemma GuardedOff(lay: nat, q: Probe, c: nat)
    requires 5 <= c < CELLS
    ensures !Clear(Guarded(), INNER, {}, lay, q, c)
  {
    assert c in Guarded().rim(q);
  }

  lemma GuardedSeats(trail: seq<Seat>, k: nat)
    requires ClearTrail(Guarded(), INNER, {}, trail) && k < |trail|
    ensures trail[k].cell < 5 && trail[k].cell != 2
  {
    hide Clear, ClearStep, Guarded;
    var q := Probe(HeavyTag(INNER.tag), false);
    assert Clear(Guarded(), INNER, {}, trail[k].lay, q, trail[k].cell);
    GuardedBars(trail[k].lay, q);
    if trail[k].cell >= 5 { GuardedOff(trail[k].lay, q, trail[k].cell); }
  }

  lemma GuardedEnds(trail: seq<Seat>)
    requires ClearTrail(Guarded(), INNER, {}, trail)
    ensures trail != [] && trail[0].cell == 1 && trail[|trail| - 1].cell == 3
  {
  }

  lemma GuardedStep(trail: seq<Seat>, k: nat)
    requires ClearTrail(Guarded(), INNER, {}, trail) && 0 < k < |trail| && trail[k - 1].cell < 2
    ensures trail[k].cell != 3 && trail[k].cell != 4
  {
    hide Clear, Guarded;
    assert ClearStep(Guarded(), INNER, {}, trail[k - 1], trail[k]);
  }

  lemma {:induction false} GuardedStays(trail: seq<Seat>, k: nat)
    requires ClearTrail(Guarded(), INNER, {}, trail) && k < |trail|
    ensures trail[k].cell < 2
    decreases k
  {
    hide ClearTrail;
    GuardedSeats(trail, k);
    GuardedEnds(trail);
    if k > 0 {
      GuardedStays(trail, k - 1);
      GuardedStep(trail, k);
    }
  }

  /** A stranger's keep-out may be all that stands in the way: the strip lets the inner edge through,
      and with one more pad's keep-out on its middle cell nothing does. */
  lemma StrangerBlocks()
    ensures Guarded().Valid() && INNER.src in Guarded().nets && INNER.dst in Guarded().nets
    ensures forall trail :: !Fits(Guarded(), INNER, {}, trail)
    ensures Fits(Strip(), INNER, {}, INNER_RUN.trail)
  {
    hide Fits, ClearTrail, Guarded, Strip;
    GuardedIsBoard();
    InnerFits();
    forall trail ensures !Fits(Guarded(), INNER, {}, trail) {
      FitsIsClear(Guarded(), INNER, {}, trail);
      if ClearTrail(Guarded(), INNER, {}, trail) {
        GuardedEnds(trail);
        GuardedStays(trail, |trail| - 1);
      }
    }
  }

  lemma GuardedIsBoard()
    ensures Guarded().Valid() && INNER.src in Guarded().nets && INNER.dst in Guarded().nets
  {
    StripIsBoard();
  }
}
