/**
 Every run of the roster replica: pushes lost, repeated and reordered, failed operations, failed
 saves and cursor reads and writes, saves made by other tasks, captures made meanwhile, power cuts
 and the two ways a boot resets the cursor (firmware/main/app_tasks.c, firmware/main/app_boot.c).
 The server's log is a sequence: the operation numbered n is its n-th, and a refusal is fixed.
 What is proved here is convergence; RosterCuts is about power cuts.
 */
module RosterRuns {
  import opened Wrappers
  import opened Roster

  /** An entry of the server's log; `refused` if this kiosk never has room for it. */
  datatype Push = Push(op: Op, refused: bool)

  type Log = seq<Push>

  ghost predicate Numbered(log: Log) {
    forall n :: 0 <= n < |log| ==>
      log[n].op.numbered && log[n].op.version == n + 1 && log[n].op.source.Server?
  }

  // ----- the server's table ----------------------------------------------------------------------

  /** Whether an operation says anything about a slot. */
  predicate Touches(p: Push, k: Slot) {
    match p.op.kind
    case Upsert => p.op.usable && !p.refused && p.op.slot == k
    case Delete => p.op.slot == k
    case DeleteEmployee => p.op.slot.employee == k.employee
    case ReplaceAll => true
    case _ => false
  }

  /** What the log up to and including number `n` says a slot holds. */
  function Value(log: Log, n: nat, k: Slot): Option<int>
    requires n <= |log|
  {
    if n == 0 then None
    else if !Touches(log[n - 1], k) then Value(log, n - 1, k)
    else if log[n - 1].op.kind.Upsert? then Some(log[n - 1].op.face)
    else None
  }

  lemma {:induction false} Untouched(log: Log, m: nat, n: nat, k: Slot)
    requires m <= n <= |log| && forall i :: m <= i < n ==> !Touches(log[i], k)
    ensures Value(log, m, k) == Value(log, n, k)
    decreases n - m
  {
    if m < n { Untouched(log, m, n - 1, k); }
  }

  function Face(t: Table, k: Slot): Option<int> {
    if k in t then Some(t[k].face) else None
  }

  // ----- what the kiosk holds for itself ---------------------------------------------------------

  /** A capture of a finished enrolment that the broker has not acked. */
  predicate IsCapture(t: Table, k: Slot) { k in t && t[k].unreported }

  /** The slots no log speaks for: a capture not yet reported, or a sample of an enrolment under way. */
  predicate Held(t: Table, sampled: set<Slot>, k: Slot) { k in sampled || IsCapture(t, k) }

  /** Every other slot holds what the log says at number `n`. */
  ghost predicate Right(log: Log, t: Table, sampled: set<Slot>, n: nat) {
    n <= |log| && forall k :: !Held(t, sampled, k) ==> Face(t, k) == Value(log, n, k)
  }

  // ----- one operation applied ---------------------------------------------------------------------

  /** The samples left once an operation is done: what it wrote is the log's. */
  function SampledAfter(sampled: set<Slot>, op: Op, outcome: Outcome): set<Slot> {
    if !outcome.Applied? then sampled
    else match op.kind
      case Upsert => sampled - {op.slot}
      case Delete => sampled - {op.slot}
      case DeleteEmployee => set k | k in sampled && k.employee != op.slot.employee
      case ReplaceAll => {}
      case _ => sampled
  }

  /** How an operation that was not left undone moves one slot: unless the kiosk holds it afterwards,
      a slot it speaks of ends with what the log says, and any other was and stays as it is. */
  ghost predicate Moved(log: Log, t: Table, sampled: set<Slot>, n: nat, e: Effect, k: Slot)
    requires 0 < n <= |log|
  {
    !Held(e.table, SampledAfter(sampled, log[n - 1].op, e.outcome), k) ==>
      if Touches(log[n - 1], k) then Face(e.table, k) == Value(log, n, k)
      else !Held(t, sampled, k) && Face(e.table, k) == Face(t, k)
  }

  lemma ApplyMoves(log: Log, t: Table, sampled: set<Slot>, pending: map<nat, string>, n: nat, busy: bool, k: Slot)
    requires 0 < n <= |log| && log[n - 1].op.source.Server?
    ensures var e := Apply(t, pending, log[n - 1].op, Answer(busy, log[n - 1].refused));
            !e.outcome.Failed? ==> Moved(log, t, sampled, n, e, k)
  {
    match log[n - 1].op.kind
    case Upsert =>
    case Delete =>
    case DeleteEmployee =>
    case ReplaceAll =>
    case _ =>
  }

  /** A push that finds its slot captured is spared and still counts.  So a usable push the kiosk has
      room for lands exactly when its slot is no capture, or one of the same face. */
  lemma UpsertLands(log: Log, t: Table, pending: map<nat, string>, n: nat)
    requires 0 < n <= |log| && log[n - 1].op.kind.Upsert? && log[n - 1].op.usable && !log[n - 1].refused
    ensures var op := log[n - 1].op;
            var e := Apply(t, pending, op, Answer(false, false));
            && !e.outcome.Failed?
            && (Face(e.table, op.slot) == Value(log, n, op.slot) <==> !IsCapture(t, op.slot) || t[op.slot].face == op.face)
  {
    assert Touches(log[n - 1], log[n - 1].op.slot);
  }

  /** The slot of a push that is counted although a capture kept it out. */
  function Spared(t: Table, op: Op, db: Answer): set<Slot> {
    if op.kind.Upsert? && op.usable && !db.full && IsCapture(t, op.slot) then {op.slot} else {}
  }

  /** An operation that asks for no save left the table alone, and speaks of no slot but one it spared. */
  lemma QuietMoves(t: Table, sampled: set<Slot>, pending: map<nat, string>, p: Push, busy: bool)
    ensures var db := Answer(busy, p.refused);
            var e := Apply(t, pending, p.op, db);
            !e.outcome.Failed? && !(e.outcome.Applied? && !p.op.kind.Assign? && !p.op.kind.Revoke?) ==>
              && e.table == t && SampledAfter(sampled, p.op, e.outcome) == sampled
              && forall k :: Touches(p, k) ==> k in Spared(t, p.op, db)
  {
  }

  // ----- the machine -------------------------------------------------------------------------------

  /** Idle: no batch.  Draining: take_roster is taking the queue.  Saved: the table is down, the
      cursor not yet. */
  datatype Phase = Idle | Draining | Saved

  /** `b` is RAM, `flash` and `cursor` what outlives a power cut; `started` is the number the batch
      read and `moved` whether it counted anything.  The rest a proof needs: the slots an enrolment
      under way has filled, in RAM and as flash has them; the log numbers RAM stands between, and
      flash; the slots this batch spared; and the numbers taken since the last REPLACE_ALL, boot, or
      cursor read or write that went wrong. */
  datatype State = State(b: Batch, flash: Table, cursor: nat, phase: Phase, started: nat, moved: bool,
                         sampled: set<Slot>, flashSampled: set<Slot>, at: nat, top: nat, flashAt: nat, flashTop: nat,
                         spared: set<Slot>, taken: seq<nat>)

  datatype Event =
    | Begin(readOk: bool)
    | TakePush(n: nat, busy: bool)                    // any number, any order, any number of times
    | TakePurge(busy: bool)                           // a dead ticket
    | TakeNote(employee: nat)                         // a capture finished here
    | Save(ok: bool)
    | MoveCursor(ok: bool)
    | Sample(slot: Slot, face: int)                   // an enrolment keeps a face
    | Seal(slot: Slot)                                // and is complete
    | Report(slot: Slot)                              // the broker acked the capture
    | Drop(slot: Slot)                                // left unfinished, or an older session's
    | OtherSave                                       // another task saves the table
    | PowerCut                                        // and a boot that reads the table back
    | BootEmpty(reset: bool)                          // a boot that cannot, or finds another model's

  const PURGE := Op(ReplaceAll, Slot(0, 0), 0, "", true, 0, true, Purge)

  /** The number RAM stands at. */
  function Pos(s: State): nat { if s.phase.Idle? || !s.moved then s.cursor else s.b.held }

  predicate Enabled(log: Log, s: State, e: Event) {
    match e
    case Begin(_) => s.phase.Idle?
    case TakePush(n, _) => s.phase.Draining? && 0 < n <= |log|
    case TakePurge(_) => s.phase.Draining?
    case TakeNote(_) => s.phase.Draining?
    case Save(_) => s.phase.Draining?
    case MoveCursor(_) => s.phase.Saved?
    case _ => true
  }

  function Max(a: nat, b: nat): nat { if a < b then b else a }

  /** Whether an operation off the queue is counted. */
  predicate Counts(s: State, op: Op, db: Answer) {
    GateOf(op, s.b.held, s.b.gapped).Take? && !Apply(s.b.table, s.b.pending, op, db).outcome.Failed?
  }

  /** The state once an operation off the queue has had its turn. */
  function Took(s: State, op: Op, db: Answer): State {
    var b' := TakeOne(s.b, op, db);
    if !Counts(s, op, db) then s.(b := b')
    else
      s.(b := b', moved := true, spared := s.spared + Spared(s.b.table, op, db),
         sampled := SampledAfter(s.sampled, op, Apply(s.b.table, s.b.pending, op, db).outcome),
         at := op.version, top := if op.kind.ReplaceAll? then op.version else Max(s.top, op.version),
         taken := if op.kind.ReplaceAll? then [op.version] else s.taken + [op.version])
  }

  /** What the cursor holds once the batch has tried to write it. */
  function Written(s: State, ok: bool): nat { if ok && s.b.held != s.started then s.b.held else s.cursor }

  function WithRecord(s: State, slot: Slot, record: Record): State { s.(b := s.b.(table := s.b.table[slot := record])) }

  function Step(log: Log, s: State, e: Event): State
    requires Enabled(log, s, e)
  {
    match e
    case Begin(readOk) =>
      var started := if readOk then s.cursor else 0;
      s.(b := s.b.(held := started, changed := false), phase := Draining, started := started, moved := false,
         spared := {}, taken := if started == s.cursor then s.taken else [])
    case TakePush(n, busy) => Took(s, log[n - 1].op, Answer(busy, log[n - 1].refused))
    case TakePurge(busy) => Took(s, PURGE, Answer(busy, false))
    case TakeNote(employee) => s.(b := s.b.(pending := s.b.pending - {employee}))
    case Save(ok) =>
      if !s.b.changed then
        var flashAt := if s.started <= s.flashAt < s.b.held then s.b.held else s.flashAt;
        s.(phase := Saved, flashAt := flashAt, flashTop := Max(s.flashTop, flashAt))
      else if ok then
        s.(phase := Saved, flash := s.b.table, flashSampled := s.sampled, flashAt := s.at, flashTop := s.top)
      else s.(phase := Idle, b := s.b.(gapped := true))
    case MoveCursor(ok) =>
      s.(phase := Idle, cursor := Written(s, ok), taken := if Written(s, ok) == Pos(s) then s.taken else [])
    case Sample(slot, face) => WithRecord(s, slot, Record(face, false)).(sampled := s.sampled + {slot})
    case Seal(slot) =>
      if slot !in s.b.table then s
      else WithRecord(s, slot, s.b.table[slot].(unreported := true)).(sampled := s.sampled - {slot})
    case Report(slot) =>
      if slot !in s.b.table then s else WithRecord(s, slot, s.b.table[slot].(unreported := false))
    case Drop(slot) => s.(b := s.b.(table := s.b.table - {slot}), sampled := s.sampled - {slot})
    case OtherSave => s.(flash := s.b.table, flashSampled := s.sampled, flashAt := s.at, flashTop := s.top)
    case PowerCut =>
      s.(b := s.b.(table := s.flash, gapped := false), sampled := {}, flashSampled := {}, phase := Idle,
         at := s.flashAt, top := s.flashTop, taken := [])
    case BootEmpty(reset) =>
      s.(b := s.b.(table := map[], gapped := false), sampled := {}, cursor := if reset then 0 else s.cursor,
         phase := Idle, at := 0, top := 0, taken := [])
  }

  /** A kiosk fresh from the factory. */
  const FRESH := State(Batch(map[], map[], 0, false, false), map[], 0, Idle, 0, false, {}, {}, 0, 0, 0, 0, {}, [])

  function Run(log: Log, s: State, events: seq<Event>): Option<State>
    decreases |events|
  {
    if events == [] then Some(s)
    else if Enabled(log, s, events[0]) then Run(log, Step(log, s, events[0]), events[1..])
    else None
  }

  // ----- convergence -------------------------------------------------------------------------------

  predicate Consecutive(ns: seq<nat>) {
    forall i :: 0 < i < |ns| ==> ns[i] == ns[i - 1] + 1
  }

  /** Numbers in bounds, and the numbers taken one run that ends, unless the kiosk holds for a gap,
      at the number it stands at. */
  predicate Counted(log: Log, s: State) {
    && s.cursor <= |log| && (!s.phase.Idle? ==> s.b.held <= |log|) && Consecutive(s.taken)
    && (!s.phase.Idle? && !s.moved ==> s.b.held == s.started && (s.started != s.cursor ==> s.taken == []))
    && (!s.b.gapped && s.taken != [] ==> s.taken[|s.taken| - 1] == Pos(s))
  }

  /** Unless it holds for a gap, every slot but those the kiosk holds is the log replayed up to the
      number it stands at. */
  ghost predicate Converged(log: Log, s: State) {
    Counted(log, s) && (!s.b.gapped ==> Right(log, s.b.table, s.sampled, Pos(s)))
  }

  /** What it takes to stay so.  A push is taken at the number the table stands at, or the numbers
      between say nothing it does not overwrite.  The cursor's write takes, or what it loses said
      nothing.  A capture reported or dropped leaves what the log says.  A boot that forgets the table
      gets its reset written, or there was nothing to forget. */
  ghost predicate Kept(log: Log, s: State, e: Event)
    requires Enabled(log, s, e)
  {
    match e
    case TakePush(n, busy) =>
      var s' := Step(log, s, e);
      Counts(s, log[n - 1].op, Answer(busy, log[n - 1].refused)) && !log[n - 1].op.kind.ReplaceAll? && Pos(s) <= |log| ==>
        forall k :: !Held(s'.b.table, s'.sampled, k) && !Touches(log[n - 1], k) ==>
          Value(log, n - 1, k) == Value(log, Pos(s), k)
    case MoveCursor(ok) =>
      Pos(s) <= |log| && s.cursor <= |log| && s.b.held <= |log| ==>
        forall k :: !Held(s.b.table, s.sampled, k) ==> Value(log, Written(s, ok), k) == Value(log, Pos(s), k)
    case Report(slot) =>
      IsCapture(s.b.table, slot) && slot !in s.sampled && Pos(s) <= |log| ==>
        Value(log, Pos(s), slot) == Some(s.b.table[slot].face)
    case Drop(slot) => Pos(s) <= |log| ==> Value(log, Pos(s), slot) == None
    case BootEmpty(reset) => !reset && s.cursor <= |log| ==> forall k :: Value(log, s.cursor, k) == None
    case _ => true
  }

  lemma AppliedNext(log: Log, s: State, n: nat, busy: bool)
    requires Numbered(log) && 0 < n <= |log| && s.phase.Draining? && Converged(log, s) && !s.b.gapped
    requires Counts(s, log[n - 1].op, Answer(busy, log[n - 1].refused)) && !log[n - 1].op.kind.ReplaceAll?
    ensures var s' := Step(log, s, TakePush(n, busy));
            Right(log, s'.b.table, s'.sampled, n) <==> Kept(log, s, TakePush(n, busy))
  {
    hide Apply, Touches, SampledAfter, Held;
    var p := log[n - 1];
    var s' := Step(log, s, TakePush(n, busy));
    forall k | !Held(s'.b.table, s'.sampled, k)
      ensures Face(s'.b.table, k) == Value(log, n, k) <==>
        (Touches(p, k) || Value(log, n - 1, k) == Value(log, Pos(s), k))
    {
      ApplyMoves(log, s.b.table, s.sampled, s.b.pending, n, busy, k);
    }
  }

  lemma AppliedAll(log: Log, s: State, n: nat, busy: bool)
    requires Numbered(log) && 0 < n <= |log| && s.phase.Draining?
    requires Counts(s, log[n - 1].op, Answer(busy, log[n - 1].refused)) && log[n - 1].op.kind.ReplaceAll?
    ensures var s' := Step(log, s, TakePush(n, busy)); Right(log, s'.b.table, s'.sampled, n)
  {
    hide Apply, SampledAfter, Held;
    var s' := Step(log, s, TakePush(n, busy));
    forall k | !Held(s'.b.table, s'.sampled, k) ensures Face(s'.b.table, k) == Value(log, n, k) {
      ApplyMoves(log, s.b.table, s.sampled, s.b.pending, n, busy, k);
    }
  }

  lemma FailedKeeps(t: Table, pending: map<nat, string>, op: Op, db: Answer)
    ensures Apply(t, pending, op, db).outcome.Failed? ==> Apply(t, pending, op, db).table == t
  {
  }

  lemma TookCounted(log: Log, s: State, n: nat, busy: bool)
    requires Numbered(log) && 0 < n <= |log| && s.phase.Draining? && Counted(log, s)
    ensures Counted(log, Step(log, s, TakePush(n, busy)))
  {
    hide Apply, SampledAfter, Spared;
  }

  lemma TookPush(log: Log, s: State, n: nat, busy: bool)
    requires Numbered(log) && 0 < n <= |log| && s.phase.Draining? && Converged(log, s)
    ensures var s' := Step(log, s, TakePush(n, busy));
            Converged(log, s') <==> s'.b.gapped || Kept(log, s, TakePush(n, busy))
  {
    hide Right, Apply, SampledAfter, Spared, Counted, Value, Touches, Held;
    var p := log[n - 1];
    var db := Answer(busy, p.refused);
    FailedKeeps(s.b.table, s.b.pending, p.op, db);
    TookCounted(log, s, n, busy);
    if !Counts(s, p.op, db) {
      assert Kept(log, s, TakePush(n, busy));
    } else if p.op.kind.ReplaceAll? {
      AppliedAll(log, s, n, busy);
    } else {
      hide Kept;
      AppliedNext(log, s, n, busy);
    }
  }

  lemma PurgeEmpties(t: Table, sampled: set<Slot>, pending: map<nat, string>, db: Answer)
    ensures var e := Apply(t, pending, PURGE, db);
            if db.busy then e.outcome.Failed? && e.table == t
            else e.outcome.Applied? && e.table == map[] && SampledAfter(sampled, PURGE, e.outcome) == {}
  {
  }

  lemma EmptyIsRight(log: Log)
    ensures Right(log, map[], {}, 0)
  {
  }

  lemma TookPurge(log: Log, s: State, busy: bool)
    requires s.phase.Draining? && Converged(log, s)
    ensures Converged(log, Step(log, s, TakePurge(busy)))
  {
    hide Right, Apply, SampledAfter;
    PurgeEmpties(s.b.table, s.sampled, s.b.pending, Answer(busy, false));
    EmptyIsRight(log);
  }

  lemma MovedCursor(log: Log, s: State, ok: bool)
    requires s.phase.Saved? && Converged(log, s)
    ensures var s' := Step(log, s, MoveCursor(ok)); Converged(log, s') <==> s'.b.gapped || Kept(log, s, MoveCursor(ok))
  {
    hide Value, Held;
  }

  /** A write to one slot of the kiosk's own keeps every other as it is. */
  lemma OwnWrite(log: Log, s: State, e: Event)
    requires (e.Sample? || e.Seal? || e.Report? || e.Drop?) && Converged(log, s)
    ensures Converged(log, Step(log, s, e)) <==> s.b.gapped || Kept(log, s, e)
  {
    hide Value, Consecutive;
    var s' := Step(log, s, e);
    forall k | k != e.slot
      ensures Face(s'.b.table, k) == Face(s.b.table, k) && (Held(s'.b.table, s'.sampled, k) <==> Held(s.b.table, s.sampled, k))
    {
    }
    if !s.b.gapped {
      assert Right(log, s'.b.table, s'.sampled, Pos(s)) <==>
        (Held(s'.b.table, s'.sampled, e.slot) || Face(s'.b.table, e.slot) == Value(log, Pos(s), e.slot));
    }
  }

  lemma Rebooted(log: Log, s: State, reset: bool)
    requires Converged(log, s)
    ensures Converged(log, Step(log, s, BootEmpty(reset))) <==> Kept(log, s, BootEmpty(reset))
  {
    EmptyIsRight(log);
  }

  /** One step, exactly: the table stays the log replayed if and only if the step is kept. */
  lemma StepConverges(log: Log, s: State, e: Event)
    requires Numbered(log) && Converged(log, s) && Enabled(log, s, e) && !e.PowerCut?
    ensures Converged(log, Step(log, s, e)) <==> Step(log, s, e).b.gapped || Kept(log, s, e)
  {
    match e
    case TakePush(n, busy) => TookPush(log, s, n, busy);
    case TakePurge(busy) => TookPurge(log, s, busy);
    case MoveCursor(ok) => MovedCursor(log, s, ok);
    case BootEmpty(reset) => Rebooted(log, s, reset);
    case Sample(_, _) => OwnWrite(log, s, e);
    case Seal(_) => OwnWrite(log, s, e);
    case Report(_) => OwnWrite(log, s, e);
    case Drop(_) => OwnWrite(log, s, e);
    case _ => hide Right;
  }

  /** No power cut, and every step kept unless the kiosk holds for a gap after it. */
  ghost predicate AllKept(log: Log, s: State, events: seq<Event>)
    decreases |events|
  {
    events == [] || (Enabled(log, s, events[0]) && !events[0].PowerCut?
                     && (Step(log, s, events[0]).b.gapped || Kept(log, s, events[0]))
                     && AllKept(log, Step(log, s, events[0]), events[1..]))
  }

  /** The table is the log replayed at every point of a run without a power cut. */
  ghost predicate AllConverged(log: Log, s: State, events: seq<Event>)
    decreases |events|
  {
    Converged(log, s) && (events == [] || (Enabled(log, s, events[0]) && !events[0].PowerCut?
                                           && AllConverged(log, Step(log, s, events[0]), events[1..])))
  }

  /** Convergence: whatever arrives, fails, is refused or is saved in between, and whatever number a
      REPLACE_ALL carries, the table is the log replayed at every point of a run if and only if every
      step of it is kept. */
  lemma {:induction false} RunConverges(log: Log, s: State, events: seq<Event>)
    requires Numbered(log) && Converged(log, s)
    ensures AllConverged(log, s, events) <==> AllKept(log, s, events)
    decreases |events|
  {
    hide Converged, Kept, Step;
    if events != [] && Enabled(log, s, events[0]) && !events[0].PowerCut? {
      StepConverges(log, s, events[0]);
      var next := Step(log, s, events[0]);
      if Converged(log, next) {
        RunConverges(log, next, events[1..]);
      } else {
        assert !AllConverged(log, next, events[1..]);
      }
    }
  }

  lemma {:induction false} LastConverged(log: Log, s: State, events: seq<Event>)
    requires AllConverged(log, s, events)
    ensures Run(log, s, events).Some? && Converged(log, Run(log, s, events).value)
    decreases |events|
  {
    hide Converged, Step;
    if events != [] { LastConverged(log, Step(log, s, events[0]), events[1..]); }
  }

  /** The same, said of each slot of a kiosk that started fresh. */
  lemma ReplicaIsLogReplayed(log: Log, events: seq<Event>, k: Slot)
    requires Numbered(log) && AllKept(log, FRESH, events)
    ensures Run(log, FRESH, events).Some?
    ensures var s := Run(log, FRESH, events).value;
            && Pos(s) <= |log| && Consecutive(s.taken)
            && (!s.b.gapped && !Held(s.b.table, s.sampled, k) ==> Face(s.b.table, k) == Value(log, Pos(s), k))
  {
    EmptyIsRight(log);
    RunConverges(log, FRESH, events);
    LastConverged(log, FRESH, events);
  }

  // ----- the steps that keep themselves ---------------------------------------------------------------

  /** Everything but a cursor read or write that fails, a boot's reset that is lost, a capture that
      stops being one, and a power cut. */
  predicate Ordinary(e: Event) {
    match e
    case Begin(readOk) => readOk
    case MoveCursor(ok) => ok
    case BootEmpty(reset) => reset
    case Report(_) => false
    case Drop(_) => false
    case PowerCut => false
    case _ => true
  }

  /** The batch under way began at the cursor. */
  predicate BegunWell(s: State) { !s.phase.Idle? ==> s.started == s.cursor }

  /** A push lost, repeated, late or early, an operation refused or busy, a save that fails, another
      task's save, a new capture: each keeps the table the log replayed with no further condition. */
  lemma OrdinaryIsKept(log: Log, s: State, e: Event)
    requires Numbered(log) && Counted(log, s) && BegunWell(s) && Enabled(log, s, e) && Ordinary(e)
    ensures Kept(log, s, e) && BegunWell(Step(log, s, e))
  {
    hide Apply, SampledAfter, Spared, Value, Touches, Held, IsCapture;
  }

  lemma {:induction false} OrdinaryRunKept(log: Log, s: State, events: seq<Event>)
    requires Numbered(log) && Converged(log, s) && BegunWell(s) && (forall e :: e in events ==> Ordinary(e))
    requires Run(log, s, events).Some?
    ensures AllKept(log, s, events) && BegunWell(Run(log, s, events).value)
    decreases |events|
  {
    hide Right, Kept, Step, Enabled, BegunWell, Ordinary, Counted;
    if events != [] {
      assert Ordinary(events[0]);
      NoCutIsOrdinary(events[0]);
      OrdinaryIsKept(log, s, events[0]);
      StepConverges(log, s, events[0]);
      OrdinaryRunKept(log, Step(log, s, events[0]), events[1..]);
    }
  }

  lemma NoCutIsOrdinary(e: Event)
    requires Ordinary(e)
    ensures !e.PowerCut?
  {
  }

  /** Convergence, with no condition on what arrives: for every arrival order with losses, repeats and
      reorderings, whatever is refused, busy, captured or not saved, a kiosk that started fresh and
      does not hold for a gap has the log replayed up to the number it stands at, in every slot it
      does not hold for itself. */
  lemma OrdinaryRunsConverge(log: Log, events: seq<Event>, k: Slot)
    requires Numbered(log) && (forall e :: e in events ==> Ordinary(e)) && Run(log, FRESH, events).Some?
    ensures var s := Run(log, FRESH, events).value;
            && Pos(s) <= |log| && Consecutive(s.taken)
            && (!s.b.gapped && !Held(s.b.table, s.sampled, k) ==> Face(s.b.table, k) == Value(log, Pos(s), k))
  {
    hide AllKept, Kept, Step, Enabled, Ordinary;
    EmptyIsRight(log);
    OrdinaryRunKept(log, FRESH, events);
    ReplicaIsLogReplayed(log, events, k);
  }

  // ----- slot by slot ---------------------------------------------------------------------------------

  /** One slot is the kiosk's own, or holds what the log says at the number the kiosk stands at. */
  ghost predicate SlotRight(log: Log, s: State, k: Slot) {
    Pos(s) <= |log| && (Held(s.b.table, s.sampled, k) || Face(s.b.table, k) == Value(log, Pos(s), k))
  }

  /** Ordinary, or the end of a capture or template in another slot. */
  predicate OrdinaryFor(e: Event, k: Slot) {
    Ordinary(e) || ((e.Report? || e.Drop?) && e.slot != k)
  }

  lemma SlotTaken(log: Log, s: State, n: nat, busy: bool, k: Slot)
    requires Numbered(log) && 0 < n <= |log| && s.phase.Draining? && Counted(log, s) && BegunWell(s)
    requires !s.b.gapped ==> SlotRight(log, s, k)
    ensures var s' := Step(log, s, TakePush(n, busy)); !s'.b.gapped ==> SlotRight(log, s', k)
  {
    hide Apply, Touches, SampledAfter, Spared, Held;
    var p := log[n - 1];
    var db := Answer(busy, p.refused);
    FailedKeeps(s.b.table, s.b.pending, p.op, db);
    if Counts(s, p.op, db) {
      ApplyMoves(log, s.b.table, s.sampled, s.b.pending, n, busy, k);
      if p.op.kind.ReplaceAll? { RestartTouches(p, k); }
    }
  }

  lemma RestartTouches(p: Push, k: Slot)
    requires p.op.kind.ReplaceAll?
    ensures Touches(p, k)
  {
  }

  lemma SlotPurged(log: Log, s: State, busy: bool, k: Slot)
    requires s.phase.Draining? && Counted(log, s) && (!s.b.gapped ==> SlotRight(log, s, k))
    ensures var s' := Step(log, s, TakePurge(busy)); !s'.b.gapped ==> SlotRight(log, s', k)
  {
    hide Apply, SampledAfter, Spared;
    PurgeEmpties(s.b.table, s.sampled, s.b.pending, Answer(busy, false));
  }

  lemma SlotStep(log: Log, s: State, e: Event, k: Slot)
    requires Numbered(log) && Counted(log, s) && BegunWell(s) && Enabled(log, s, e) && OrdinaryFor(e, k)
    requires !s.b.gapped ==> SlotRight(log, s, k)
    ensures !Step(log, s, e).b.gapped ==> SlotRight(log, Step(log, s, e), k)
  {
    hide Value, Touches, Took;
    match e
    case TakePush(n, busy) => SlotTaken(log, s, n, busy, k);
    case TakePurge(busy) => SlotPurged(log, s, busy, k);
    case BootEmpty(_) => EmptyIsRight(log);
    case _ =>
  }

  lemma CountedStep(log: Log, s: State, e: Event)
    requires Numbered(log) && Counted(log, s) && BegunWell(s) && Enabled(log, s, e) && (Ordinary(e) || e.Report? || e.Drop?)
    ensures Counted(log, Step(log, s, e)) && BegunWell(Step(log, s, e))
  {
    hide Took, Value, Touches;
    match e
    case TakePush(n, busy) => TookCounted(log, s, n, busy); TookBegun(s, log[n - 1].op, Answer(busy, log[n - 1].refused));
    case TakePurge(busy) => PurgeCounted(log, s, busy); TookBegun(s, PURGE, Answer(busy, false));
    case _ =>
  }

  lemma TookBegun(s: State, op: Op, db: Answer)
    ensures var t := Took(s, op, db); t.phase == s.phase && t.started == s.started && t.cursor == s.cursor
  {
    hide Apply, SampledAfter, Spared, TakeOne;
  }

  lemma PurgeCounted(log: Log, s: State, busy: bool)
    requires s.phase.Draining? && Counted(log, s)
    ensures Counted(log, Step(log, s, TakePurge(busy)))
  {
    hide Apply, SampledAfter, Spared;
  }

  lemma {:induction false} SlotRun(log: Log, s: State, events: seq<Event>, k: Slot)
    requires Numbered(log) && Counted(log, s) && BegunWell(s) && (forall e :: e in events ==> OrdinaryFor(e, k))
    requires (!s.b.gapped ==> SlotRight(log, s, k)) && Run(log, s, events).Some?
    ensures var r := Run(log, s, events).value;
            Counted(log, r) && BegunWell(r) && (!r.b.gapped ==> SlotRight(log, r, k))
    decreases |events|
  {
    hide SlotRight, Step, Enabled, BegunWell, Ordinary, Counted;
    if events != [] {
      assert OrdinaryFor(events[0], k);
      SlotStep(log, s, events[0], k);
      CountedStep(log, s, events[0]);
      SlotRun(log, Step(log, s, events[0]), events[1..], k);
    }
  }

  /** Convergence slot by slot: whatever becomes of other slots, reports and drops included, a slot
      the kiosk never reported or dropped a face of is the log replayed whenever the kiosk does not
      hold for a gap. */
  lemma SlotConverges(log: Log, events: seq<Event>, k: Slot)
    requires Numbered(log) && (forall e :: e in events ==> OrdinaryFor(e, k)) && Run(log, FRESH, events).Some?
    ensures var s := Run(log, FRESH, events).value;
            && Pos(s) <= |log| && Consecutive(s.taken)
            && (!s.b.gapped && !Held(s.b.table, s.sampled, k) ==> Face(s.b.table, k) == Value(log, Pos(s), k))
  {
    hide Step, Enabled;
    SlotRun(log, FRESH, events, k);
  }

  /** And the next operation that is counted and speaks of a slot puts it right again, whatever it
      held. */
  lemma SlotHeals(log: Log, s: State, n: nat, busy: bool, k: Slot)
    requires Numbered(log) && 0 < n <= |log| && s.phase.Draining?
    requires Counts(s, log[n - 1].op, Answer(busy, log[n - 1].refused)) && Touches(log[n - 1], k)
    ensures SlotRight(log, Step(log, s, TakePush(n, busy)), k)
  {
    hide Apply, Touches, SampledAfter, Spared;
    ApplyMoves(log, s.b.table, s.sampled, s.b.pending, n, busy, k);
  }

  // ----- the steps that may not be kept -------------------------------------------------------------

  /** A cursor write that is lost leaves the table right for the number it will report exactly when
      the numbers it loses say nothing of the slots the kiosk does not hold. */
  lemma LostCursorWrite(log: Log, s: State)
    requires Numbered(log) && Converged(log, s) && s.phase.Saved? && s.moved && !s.b.gapped
    ensures var s' := Step(log, s, MoveCursor(false));
            Right(log, s'.b.table, s'.sampled, Pos(s')) <==>
              forall k :: !Held(s.b.table, s.sampled, k) ==> Value(log, s.b.held, k) == Value(log, s.cursor, k)
  {
    hide Value, Held;
  }

  /** A cursor that cannot be read starts the batch at 0, so the first push of all, repeated, is taken
      again: the table is then right for number 1 exactly when the log up to where it stood says
      nothing of the slots that push does not speak of. */
  lemma FailedCursorRead(log: Log, s: State, busy: bool)
    requires Numbered(log) && |log| > 0 && Converged(log, s) && s.phase.Idle? && !s.b.gapped
    requires !log[0].op.kind.ReplaceAll? && Counts(Step(log, s, Begin(false)), log[0].op, Answer(busy, log[0].refused))
    ensures var s' := Step(log, Step(log, s, Begin(false)), TakePush(1, busy));
            Right(log, s'.b.table, s'.sampled, Pos(s')) <==>
              forall k :: !Held(s'.b.table, s'.sampled, k) && !Touches(log[0], k) ==> Value(log, s.cursor, k) == None
  {
    hide Right, Held, Touches, Apply, SampledAfter;
    var began := Step(log, s, Begin(false));
    StepConverges(log, s, Begin(false));
    AppliedNext(log, began, 1, busy);
    assert forall k :: Value(log, 0, k) == None;
  }

  /** A slot dropped, whoever wrote it last, is left right exactly when the log has it empty. */
  lemma SlotGone(log: Log, s: State, slot: Slot)
    requires Numbered(log) && Converged(log, s) && !s.b.gapped
    ensures var s' := Step(log, s, Drop(slot));
            Right(log, s'.b.table, s'.sampled, Pos(s')) <==> Value(log, Pos(s), slot) == None
  {
    hide Right;
    OwnWrite(log, s, Drop(slot));
    DropCounts(log, s, slot);
  }

  lemma DropCounts(log: Log, s: State, slot: Slot)
    requires Counted(log, s)
    ensures var s' := Step(log, s, Drop(slot)); Counted(log, s') && Pos(s') == Pos(s) && s'.b.gapped == s.b.gapped
    ensures Pos(s) <= |log|
  {
  }

  /** A capture that is dropped leaves its slot right exactly when the log has it empty there, and one
      that is reported exactly when the log has the same face. */
  lemma CaptureGone(log: Log, s: State, slot: Slot)
    requires Numbered(log) && Converged(log, s) && !s.b.gapped && IsCapture(s.b.table, slot) && slot !in s.sampled
    ensures Right(log, Step(log, s, Drop(slot)).b.table, s.sampled, Pos(s)) <==> Value(log, Pos(s), slot) == None
    ensures Right(log, Step(log, s, Report(slot)).b.table, s.sampled, Pos(s)) <==>
      Value(log, Pos(s), slot) == Some(s.b.table[slot].face)
  {
    assert s.sampled - {slot} == s.sampled;
    OwnWrite(log, s, Drop(slot));
    OwnWrite(log, s, Report(slot));
    assert Step(log, s, Drop(slot)).sampled == s.sampled && Step(log, s, Report(slot)).sampled == s.sampled;
  }

  /** After a push is counted but spared, dropping the capture loses the slot for good, and reporting
      it leaves the slot right exactly when the two faces are the same. */
  lemma SparedThenGone(log: Log, s: State, n: nat)
    requires Numbered(log) && 0 < n <= |log| && s.phase.Draining? && Converged(log, s) && !s.b.gapped && s.b.held == n - 1
    requires log[n - 1].op.kind.Upsert? && log[n - 1].op.usable && !log[n - 1].refused
    requires IsCapture(s.b.table, log[n - 1].op.slot) && log[n - 1].op.slot !in s.sampled && Kept(log, s, TakePush(n, false))
    ensures var op := log[n - 1].op;
            var s' := Step(log, s, TakePush(n, false));
            && Pos(s') == n
            && !Right(log, Step(log, s', Drop(op.slot)).b.table, s'.sampled, n)
            && (Right(log, Step(log, s', Report(op.slot)).b.table, s'.sampled, n) <==> s.b.table[op.slot].face == op.face)
  {
    hide Right;
    var op := log[n - 1].op;
    var s' := Step(log, s, TakePush(n, false));
    TookPush(log, s, n, false);
    assert Touches(log[n - 1], op.slot) && Value(log, n, op.slot) == Some(op.face);
    assert s'.b.table == s.b.table && s'.sampled == s.sampled && Pos(s') == n && !s'.b.gapped;
    CaptureGone(log, s', op.slot);
  }

  // ----- take_roster is a run of the machine ---------------------------------------------------------

  /** An item off the queue: a push, the purge, or the note of a finished capture. */
  predicate Item(log: Log, e: Event) {
    (e.TakePush? && 0 < e.n <= |log|) || e.TakePurge? || e.TakeNote?
  }

  predicate Items(log: Log, queue: seq<Event>) {
    forall i :: 0 <= i < |queue| ==> Item(log, queue[i])
  }

  function OpOf(log: Log, e: Event): Op
    requires Item(log, e)
  {
    match e
    case TakePush(n, _) => log[n - 1].op
    case TakePurge(_) => PURGE
    case TakeNote(employee) => Op(Upsert, Slot(employee, 0), 0, "", true, 0, false, Source.Captured)
  }

  function AnswerOf(log: Log, e: Event): Answer
    requires Item(log, e)
  {
    match e
    case TakePush(n, busy) => Answer(busy, log[n - 1].refused)
    case TakePurge(busy) => Answer(busy, false)
    case TakeNote(_) => Answer(false, false)
  }

  function OpsOf(log: Log, queue: seq<Event>): (ops: seq<Op>)
    requires Items(log, queue)
    ensures |ops| == |queue|
  {
    seq(|queue|, i requires 0 <= i < |queue| => OpOf(log, queue[i]))
  }

  function AnswersOf(log: Log, queue: seq<Event>): (answers: seq<Answer>)
    requires Items(log, queue)
    ensures |answers| == |queue|
  {
    seq(|queue|, i requires 0 <= i < |queue| => AnswerOf(log, queue[i]))
  }

  lemma RunOne(log: Log, s: State, e: Event, rest: seq<Event>)
    requires Enabled(log, s, e)
    ensures Run(log, s, [e] + rest) == Run(log, Step(log, s, e), rest)
  {
    assert ([e] + rest)[1..] == rest;
  }

  lemma RunNone(log: Log, s: State)
    ensures Run(log, s, []) == Some(s)
  {
  }

  lemma TookOne(log: Log, s: State, e: Event)
    requires Numbered(log) && s.phase.Draining? && Item(log, e)
    ensures Enabled(log, s, e)
    ensures var s' := Step(log, s, e);
            && s'.b == TakeOne(s.b, OpOf(log, e), AnswerOf(log, e))
            && s'.phase.Draining? && s'.flash == s.flash && s'.cursor == s.cursor && s'.started == s.started
  {
    hide Apply, SampledAfter, Spared;
  }

  lemma {:induction false} DrainIsRun(log: Log, s: State, queue: seq<Event>, rest: seq<Event>) returns (end: State)
    requires Numbered(log) && s.phase.Draining? && Items(log, queue)
    ensures Run(log, s, queue + rest) == Run(log, end, rest)
    ensures end.b == TakeAll(s.b, OpsOf(log, queue), AnswersOf(log, queue))
    ensures end.phase.Draining? && end.flash == s.flash && end.cursor == s.cursor && end.started == s.started
    decreases |queue|
  {
    hide Run, Step, TakeOne, OpOf, AnswerOf;
    if queue == [] {
      assert queue + rest == rest;
      end := s;
    } else {
      var first, later := queue[0], queue[1..];
      assert queue + rest == [first] + (later + rest);
      assert Item(log, first);
      TookOne(log, s, first);
      RunOne(log, s, first, later + rest);
      assert OpsOf(log, queue)[1..] == OpsOf(log, later);
      assert AnswersOf(log, queue)[1..] == AnswersOf(log, later);
      end := DrainIsRun(log, Step(log, s, first), later, rest);
    }
  }

  /** What take_roster leaves behind, whatever its queue held and whichever of its reads and writes
      fail, is what the machine reaches by beginning, taking each item, saving and moving the cursor. */
  lemma BatchIsRun(log: Log, s: State, readOk: bool, queue: seq<Event>, saves: bool, writes: bool)
    requires Numbered(log) && s.phase.Idle? && Items(log, queue)
    ensures var started := if readOk then s.cursor else 0;
            var b := TakeAll(Batch(s.b.table, s.b.pending, started, s.b.gapped, false), OpsOf(log, queue), AnswersOf(log, queue));
            var lost := b.changed && !saves;
            var r := Run(log, s, [Begin(readOk)] + (queue + ([Save(saves)] + if lost then [] else [MoveCursor(writes)])));
            && r.Some? && r.value.phase.Idle? && r.value.b.table == b.table && r.value.b.pending == b.pending
            && (if lost then r.value.b.gapped && r.value.flash == s.flash && r.value.cursor == s.cursor
                else r.value.b.gapped == b.gapped
                     && r.value.cursor == (if writes && b.held != started then b.held else s.cursor)
                     && r.value.flash == if b.changed then b.table else s.flash)
  {
    hide Run, TakeAll, Took, OpsOf, AnswersOf;
    var began := Step(log, s, Begin(readOk));
    var b := TakeAll(began.b, OpsOf(log, queue), AnswersOf(log, queue));
    var lost := b.changed && !saves;
    var after: seq<Event> := if lost then [] else [MoveCursor(writes)];
    RunOne(log, s, Begin(readOk), queue + ([Save(saves)] + after));
    var end := DrainIsRun(log, began, queue, [Save(saves)] + after);
    RunOne(log, end, Save(saves), after);
    var saved := Step(log, end, Save(saves));
    if lost {
      RunNone(log, saved);
    } else {
      assert after == [MoveCursor(writes)] + [];
      RunOne(log, saved, MoveCursor(writes), []);
      RunNone(log, Step(log, saved, MoveCursor(writes)));
    }
  }

  // ----- where the code falls short ----------------------------------------------------------------------

  const K := Slot(1, 0)
  const J := Slot(2, 0)

  function UpsertOf(n: nat, k: Slot, face: int): Push { Push(Op(Upsert, k, face, "", true, n, true, Server), false) }

  /** The cursor write is not checked: when it is lost the kiosk goes on, not gapped, with a table
      ahead of the number it will report. */
  lemma LostCursorWriteSplitsTable()
    ensures var log := [UpsertOf(1, K, 7)];
            var taken := Step(log, Step(log, FRESH, Begin(true)), TakePush(1, false));
            && taken.b.changed
            && var s := Step(log, Step(log, taken, Save(true)), MoveCursor(false));
               && !s.b.gapped && !Held(s.b.table, s.sampled, K) && Face(s.b.table, K) != Value(log, Pos(s), K)
  {
    var log := [UpsertOf(1, K, 7)];
    assert Value(log, 0, K) == None;
  }

  lemma RunTwo(log: Log, s: State, a: Event, b: Event, rest: seq<Event>)
    requires Enabled(log, s, a) && Enabled(log, Step(log, s, a), b)
    ensures Run(log, s, [a, b] + rest) == Run(log, Step(log, Step(log, s, a), b), rest)
  {
    hide Step, Enabled;
    assert [a, b] + rest == [a] + ([b] + rest);
    RunOne(log, s, a, [b] + rest);
    RunOne(log, Step(log, s, a), b, rest);
  }

  /** A kiosk at rest that holds two templates. */
  const AT_BOTH := State(Batch(map[K := Record(7, false), J := Record(9, false)], map[], 2, false, true),
                         map[K := Record(7, false), J := Record(9, false)], 2, Idle, 0, true, {}, {}, 2, 2, 2, 2, {}, [1, 2])

  lemma AtBothConverged()
    ensures var log := BothLog(); Numbered(log) && Converged(log, AT_BOTH)
  {
    var log := BothLog();
    forall k ensures Face(AT_BOTH.b.table, k) == Value(log, 2, k) {
      assert Value(log, 0, k) == None;
      assert Value(log, 1, k) == if k == K then Some(7) else None;
    }
  }

  function BothLog(): Log { [UpsertOf(1, K, 7), UpsertOf(2, J, 9)] }

  const RETAKEN := State(Batch(map[K := Record(7, false), J := Record(9, false)], map[], 1, false, true), AT_BOTH.flash, 2, Draining,
                         0, true, {}, {}, 1, 2, 2, 2, {}, [1])

  lemma FirstTakenAgain()
    ensures Step(BothLog(), Step(BothLog(), AT_BOTH, Begin(false)), TakePush(1, false)) == RETAKEN
  {
    var began := Step(BothLog(), AT_BOTH, Begin(false));
    var op := BothLog()[0].op;
    assert Apply(began.b.table, map[], op, Answer(false, false)) == Effect(Applied, AT_BOTH.b.table, map[]);
    assert Spared(began.b.table, op, Answer(false, false)) == {};
  }

  lemma BothValues()
    ensures var log := BothLog();
            && !Touches(log[0], J) && Value(log, 0, J) == None && Value(log, 1, J) == None && Value(log, 2, J) == Some(9)
  {
    var log := BothLog();
    assert Value(log, 0, J) == None;
    assert Value(log, 1, J) == None;
  }

  /** The cursor's read is not checked either: when it fails, a repeat of the first push is taken
      again on a newer table, and the kiosk reports number 1 with a template of number 2. */
  lemma FailedReadTakesRepeat()
    ensures var log := BothLog();
            var began := Step(log, AT_BOTH, Begin(false));
            var taken := Step(log, began, TakePush(1, false));
            && !Kept(log, began, TakePush(1, false)) && taken.phase.Draining? && taken.b.changed
            && var s := Step(log, Step(log, taken, Save(true)), MoveCursor(true));
               && !s.b.gapped && s.cursor == 1 && !Held(s.b.table, s.sampled, J)
               && Face(s.b.table, J) != Value(log, Pos(s), J)
  {
    BothValues();
    FirstTakenAgain();
    hide Value, Touches, Apply, Spared, SampledAfter;
    assert !Held(RETAKEN.b.table, RETAKEN.sampled, J);
    RepeatCounts();
  }

  lemma RepeatCounts()
    ensures Counts(Step(BothLog(), AT_BOTH, Begin(false)), BothLog()[0].op, Answer(false, BothLog()[0].refused))
  {
  }

  /** A retake of the person in slot K fills the bank K is not in. */
  const NEWER := Slot(1, 5)

  /** A retake finished, on a kiosk at rest: keeping the new session drops the server's template of the
      old bank, and the kiosk goes on, not gapped, at a number whose log has that template. */
  lemma RetakeDropsServers()
    ensures var log := BothLog();
            var s := Step(log, Step(log, Step(log, AT_BOTH, Sample(NEWER, 3)), Seal(NEWER)), Drop(K));
            && !s.b.gapped && s.cursor == |log| && K !in s.b.table && !Held(s.b.table, s.sampled, K)
            && Value(log, |log|, K) == Some(7)
  {
    var log := BothLog();
    assert Value(log, 1, K) == Some(7) && !Touches(log[1], K);
  }

  function OneLog(): Log { [UpsertOf(1, K, 7)] }

  lemma OneValue()
    ensures Numbered(OneLog()) && Value(OneLog(), 1, K) == Some(7)
  {
    assert Touches(OneLog()[0], K);
  }

  const SAMPLED := FRESH.(b := FRESH.b.(table := map[K := Record(3, false)]), sampled := {K})

  const SAMPLING := SAMPLED.(phase := Draining)

  const OVERWRITTEN := State(Batch(map[K := Record(7, false)], map[], 1, false, true), map[], 0, Draining, 0, true,
                             {}, {}, 1, 1, 0, 0, {}, [1])

  const PUSH_SAVED := State(Batch(map[K := Record(7, false)], map[], 1, false, true), map[K := Record(7, false)], 1, Idle, 0, true,
                            {}, {}, 1, 1, 1, 1, {}, [1])

  lemma SampleBegins()
    ensures Step(OneLog(), FRESH, Sample(K, 3)) == SAMPLED && Step(OneLog(), SAMPLED, Begin(true)) == SAMPLING
  {
  }

  lemma SampleOverwritten()
    ensures Enabled(OneLog(), SAMPLING, TakePush(1, false)) && Step(OneLog(), SAMPLING, TakePush(1, false)) == OVERWRITTEN
  {
    var op := OneLog()[0].op;
    assert Apply(SAMPLING.b.table, map[], op, Answer(false, false)) == Effect(Applied, map[K := Record(7, false)], map[]);
    assert Spared(SAMPLING.b.table, op, Answer(false, false)) == {};
  }

  lemma OverwrittenSaved()
    ensures Enabled(OneLog(), OVERWRITTEN, Save(true)) && Enabled(OneLog(), Step(OneLog(), OVERWRITTEN, Save(true)), MoveCursor(true))
    ensures Step(OneLog(), Step(OneLog(), OVERWRITTEN, Save(true)), MoveCursor(true)) == PUSH_SAVED
  {
  }

  /** A push for a slot an enrolment under way has filled is not spared: it overwrites the sample.
      When the enrolment is then left unfinished its bank is dropped, the pushed face with it. */
  lemma UnfinishedDropsPush()
    ensures Face(OVERWRITTEN.b.table, K) == Some(7) && OVERWRITTEN.b.changed
    ensures Run(OneLog(), FRESH, [Sample(K, 3), Begin(true), TakePush(1, false)]) == Some(OVERWRITTEN)
    ensures var r := Run(OneLog(), FRESH, [Sample(K, 3), Begin(true), TakePush(1, false), Save(true), MoveCursor(true), Drop(K)]);
            r.Some? && Lost(OneLog(), r.value, K)
  {
    hide Run;
    var log := OneLog();
    SampleBegins();
    SampleOverwritten();
    OverwrittenSaved();
    PushDropped();
    hide Step;
    RunTwo(log, FRESH, Sample(K, 3), Begin(true), [TakePush(1, false)]);
    RunTwo(log, FRESH, Sample(K, 3), Begin(true), [TakePush(1, false), Save(true), MoveCursor(true), Drop(K)]);
    RunOne(log, SAMPLING, TakePush(1, false), []);
    RunOne(log, SAMPLING, TakePush(1, false), [Save(true), MoveCursor(true), Drop(K)]);
    RunTwo(log, OVERWRITTEN, Save(true), MoveCursor(true), [Drop(K)]);
    RunOne(log, PUSH_SAVED, Drop(K), []);
    RunNone(log, OVERWRITTEN);
    RunNone(log, Step(log, PUSH_SAVED, Drop(K)));
    assert [Sample(K, 3), Begin(true)] + [TakePush(1, false)] == [Sample(K, 3), Begin(true), TakePush(1, false)];
    assert [Sample(K, 3), Begin(true)] + [TakePush(1, false), Save(true), MoveCursor(true), Drop(K)]
        == [Sample(K, 3), Begin(true), TakePush(1, false), Save(true), MoveCursor(true), Drop(K)];
    assert [TakePush(1, false)] + [] == [TakePush(1, false)] && [Drop(K)] + [] == [Drop(K)];
    assert [TakePush(1, false)] + [Save(true), MoveCursor(true), Drop(K)] == [TakePush(1, false), Save(true), MoveCursor(true), Drop(K)];
    assert [Save(true), MoveCursor(true)] + [Drop(K)] == [Save(true), MoveCursor(true), Drop(K)];
  }

  /** The kiosk goes on, not gapped, at the end of the log, without a face the log gives a slot it does
      not hold. */
  predicate Lost(log: Log, s: State, k: Slot) {
    !s.b.gapped && s.cursor == |log| && k !in s.b.table && !Held(s.b.table, s.sampled, k) && Value(log, |log|, k).Some?
  }

  lemma PushDropped()
    ensures Lost(OneLog(), Step(OneLog(), PUSH_SAVED, Drop(K)), K)
  {
    OneValue();
  }

  const CAPTURED := FRESH.(b := FRESH.b.(table := map[K := Record(3, true)]))

  const SPARING := CAPTURED.(phase := Draining)

  const SPARED := State(Batch(map[K := Record(3, true)], map[], 1, false, false), map[], 0, Draining, 0, true,
                        {}, {}, 1, 1, 0, 0, {K}, [1])

  const PASSED := State(Batch(map[K := Record(3, true)], map[], 1, false, false), map[], 1, Idle, 0, true,
                        {}, {}, 1, 1, 1, 1, {K}, [1])

  lemma CaptureBegins()
    ensures Step(OneLog(), FRESH, Sample(K, 3)) == SAMPLED && Step(OneLog(), SAMPLED, Seal(K)) == CAPTURED
    ensures Step(OneLog(), CAPTURED, Begin(true)) == SPARING
  {
  }

  lemma CaptureSpared()
    ensures Enabled(OneLog(), SPARING, TakePush(1, false)) && Step(OneLog(), SPARING, TakePush(1, false)) == SPARED
  {
    var op := OneLog()[0].op;
    assert Apply(SPARING.b.table, map[], op, Answer(false, false)) == Effect(Spent, map[K := Record(3, true)], map[]);
    assert Spared(SPARING.b.table, op, Answer(false, false)) == {K};
  }

  lemma SparedPasses()
    ensures Enabled(OneLog(), SPARED, Save(true)) && Enabled(OneLog(), Step(OneLog(), SPARED, Save(true)), MoveCursor(true))
    ensures Step(OneLog(), Step(OneLog(), SPARED, Save(true)), MoveCursor(true)) == PASSED
  {
  }

  lemma NewerDrops()
    ensures Lost(OneLog(), Step(OneLog(), Step(OneLog(), Step(OneLog(), PASSED, Sample(NEWER, 4)), Seal(NEWER)), Drop(K)), K)
  {
    OneValue();
    hide Value;
  }

  /** A push spared for a capture not yet reported is counted; a newer session of the same person is
      kept and drops that capture.  With no cut and nothing failing the kiosk has neither face. */
  lemma NewerSessionDropsSpared()
    ensures IsCapture(SPARED.b.table, K) && !SPARED.b.changed
    ensures Run(OneLog(), FRESH, [Sample(K, 3), Seal(K)] + ([Begin(true), TakePush(1, false)] + [])) == Some(SPARED)
    ensures var later := [Save(true), MoveCursor(true)] + ([Sample(NEWER, 4), Seal(NEWER)] + ([Drop(K)] + []));
            var r := Run(OneLog(), SPARED, later);
            r.Some? && Lost(OneLog(), r.value, K)
  {
    hide Run;
    var log := OneLog();
    CaptureBegins();
    CaptureSpared();
    SparedPasses();
    NewerDrops();
    hide Step, Lost;
    RunTwo(log, FRESH, Sample(K, 3), Seal(K), [Begin(true), TakePush(1, false)] + []);
    RunTwo(log, CAPTURED, Begin(true), TakePush(1, false), []);
    RunNone(log, SPARED);
    var newer := Step(log, Step(log, PASSED, Sample(NEWER, 4)), Seal(NEWER));
    RunTwo(log, SPARED, Save(true), MoveCursor(true), [Sample(NEWER, 4), Seal(NEWER)] + ([Drop(K)] + []));
    RunTwo(log, PASSED, Sample(NEWER, 4), Seal(NEWER), [Drop(K)] + []);
    RunOne(log, newer, Drop(K), []);
    RunNone(log, Step(log, newer, Drop(K)));
  }
}
