/**
 The kiosk's roster replica (firmware/main/app_tasks.c: roster_gate, apply_roster, take_roster).
 The server numbers its face-table operations; the kiosk takes the next number only, holds after
 a gap, and starts over on a REPLACE_ALL.  The face table is svc_facedb's, as a map.
 */
module Roster {

  datatype Slot = Slot(employee: nat, idx: nat)

  /** A live template.  `unreported`: captured at this kiosk and not yet acked by the broker. */
  datatype Record = Record(face: int, unreported: bool)

  type Table = map<Slot, Record>

  datatype Kind = Upsert | Delete | DeleteEmployee | Assign | Revoke | ReplaceAll | Unknown

  datatype Source = Server | Captured | Purge

  datatype Op = Op(kind: Kind, slot: Slot, face: int, name: string, usable: bool,
                   version: nat, numbered: bool, source: Source)

  datatype Outcome = Applied | Spent | Failed

  datatype Gate = Take | Stale | Gap

  const PENDING_CAP: nat := 64

  // ----- svc_facedb's contract -----------------------------------------------------------------

  function WithoutEmployee(t: Table, employee: nat): Table {
    map k | k in t && k.employee != employee :: t[k]
  }

  function Unreported(t: Table): Table {
    map k | k in t && t[k].unreported :: t[k]
  }

  // ----- one operation ---------------------------------------------------------------------------

  /** What the table answers: it may be busy with a save, or full. */
  datatype Answer = Answer(busy: bool, full: bool)

  datatype Effect = Effect(outcome: Outcome, table: Table, pending: map<nat, string>)

  /** apply_roster */
  function Apply(table: Table, pending: map<nat, string>, op: Op, db: Answer): Effect {
    match op.kind
    case Upsert =>
      if !op.usable then Effect(Spent, table, pending)
      else if db.busy then Effect(Failed, table, pending)
      else if op.slot in table && table[op.slot].unreported then Effect(Spent, table, pending)
      else if db.full then Effect(Spent, table, pending)
      else Effect(Applied, table[op.slot := Record(op.face, false)], pending - {op.slot.employee})
    case DeleteEmployee =>
      if db.busy then Effect(Failed, table, pending - {op.slot.employee})
      else Effect(Applied, WithoutEmployee(table, op.slot.employee), pending - {op.slot.employee})
    case Assign =>
      if op.slot.employee !in pending && |pending| >= PENDING_CAP then Effect(Spent, table, pending)
      else Effect(Applied, table, pending[op.slot.employee := op.name])
    case Revoke => Effect(Applied, table, pending - {op.slot.employee})
    case Delete =>
      if db.busy then Effect(Failed, table, pending) else Effect(Applied, table - {op.slot}, pending)
    case ReplaceAll =>
      if db.busy then Effect(Failed, table, map[])
      else Effect(Applied, if op.source.Purge? then map[] else Unreported(table), map[])
    case Unknown => Effect(Spent, table, pending)
  }

  /** An operation is left to be sent again only while the table is busy, and then exactly if it
      would have written the table; only one of an unknown kind, a push with no face in it, spared,
      or without room, and an assignment to a full list are counted undone. */
  lemma OutcomeIs(table: Table, pending: map<nat, string>, op: Op, db: Answer)
    ensures Apply(table, pending, op, db).outcome.Failed? <==>
      db.busy && (op.kind in {Delete, DeleteEmployee, ReplaceAll} || (op.kind.Upsert? && op.usable))
    ensures Apply(table, pending, op, db).outcome.Spent? <==>
      || op.kind.Unknown?
      || (op.kind.Upsert? && (!op.usable || (!db.busy && (db.full || (op.slot in table && table[op.slot].unreported)))))
      || (op.kind.Assign? && op.slot.employee !in pending && |pending| >= 64)
  {
  }

  /** roster_gate */
  function GateOf(op: Op, held: nat, gapped: bool): Gate {
    if !op.numbered || op.kind.ReplaceAll? then Take
    else if op.version <= held then Stale
    else if gapped || op.version != held + 1 then Gap
    else Take
  }

  /** The variables take_roster moves while it drains the queue. */
  datatype Batch = Batch(table: Table, pending: map<nat, string>, held: nat, gapped: bool, changed: bool)

  /** One turn of its loop. */
  function TakeOne(b: Batch, op: Op, db: Answer): Batch {
    if op.source.Captured? then b.(pending := b.pending - {op.slot.employee})
    else match GateOf(op, b.held, b.gapped)
      case Stale => b
      case Gap => b.(gapped := true)
      case Take =>
        var e := Apply(b.table, b.pending, op, db);
        if e.outcome.Failed? then b.(table := e.table, pending := e.pending, gapped := true)
        else
          var moved := e.outcome.Applied? && !op.kind.Assign? && !op.kind.Revoke?;
          var next := Batch(e.table, e.pending, b.held, b.gapped, b.changed || moved);
          if !op.numbered then next
          else next.(held := op.version, gapped := b.gapped && !op.kind.ReplaceAll?)
  }

  /** The whole queue, with what the table answered each time. */
  function TakeAll(b: Batch, queue: seq<Op>, answers: seq<Answer>): Batch
    requires |answers| == |queue|
    decreases |queue|
  {
    if queue == [] then b
    else TakeAll(TakeOne(b, queue[0], answers[0]), queue[1..], answers[1..])
  }

  lemma {:induction false} TakeAllLast(b: Batch, queue: seq<Op>, answers: seq<Answer>, k: nat)
    requires |answers| == |queue| && k < |queue|
    ensures TakeAll(b, queue[..k + 1], answers[..k + 1]) == TakeOne(TakeAll(b, queue[..k], answers[..k]), queue[k], answers[k])
    decreases k
  {
    if k > 0 {
      assert queue[..k + 1][1..] == queue[1..][..k] && answers[..k + 1][1..] == answers[1..][..k];
      assert queue[..k][1..] == queue[1..][..k - 1] && answers[..k][1..] == answers[1..][..k - 1];
      TakeAllLast(TakeOne(b, queue[0], answers[0]), queue[1..], answers[1..], k - 1);
    } else {
      assert queue[..1][1..] == [] && answers[..1][1..] == [];
      assert queue[..0] == [] && answers[..0] == [];
    }
  }

  // ----- the kiosk ---------------------------------------------------------------------------------

  class Kiosk {
    var table: Table                      // RAM
    var pending: map<nat, string>
    var gapped: bool                      // s_roster_gapped, lost on a reboot
    var flash: Table                      // db/faces.bin
    var cursor: nat                       // NVS device/roster_ver

    /** apply_roster, on the kiosk's own table and pending list. */
    method ApplyRoster(op: Op, db: Answer) returns (outcome: Outcome)
      modifies this`table, this`pending
      ensures Effect(outcome, table, pending) == Apply(old(table), old(pending), op, db)
    {
      match op.kind
      case Upsert =>
        if !op.usable { return Spent; }
        if db.busy { return Failed; }
        if op.slot in table && table[op.slot].unreported { return Spent; }
        if db.full { return Spent; }
        table := table[op.slot := Record(op.face, false)];
        pending := pending - {op.slot.employee};
        return Applied;
      case DeleteEmployee =>
        pending := pending - {op.slot.employee};
        if db.busy { return Failed; }
        table := WithoutEmployee(table, op.slot.employee);
        return Applied;
      case Assign =>
        if op.slot.employee !in pending && |pending| >= PENDING_CAP { return Spent; }
        pending := pending[op.slot.employee := op.name];
        return Applied;
      case Revoke =>
        pending := pending - {op.slot.employee};
        return Applied;
      case Delete =>
        if db.busy { return Failed; }
        table := table - {op.slot};
        return Applied;
      case ReplaceAll =>
        pending := map[];
        if db.busy { return Failed; }
        table := if op.source.Purge? then map[] else Unreported(table);
        return Applied;
      case Unknown =>
        return Spent;
    }

    /** take_roster: drain the queue, save the table if it moved, and only then move the cursor.  A
        cursor that cannot be read counts as 0, and nobody looks whether its write took. */
    method TakeRoster(readOk: bool, queue: seq<Op>, answers: seq<Answer>, saves: bool, writes: bool)
      requires |answers| == |queue|
      modifies this
      ensures var started := if readOk then old(cursor) else 0;
              var b := TakeAll(Batch(old(table), old(pending), started, old(gapped), false), queue, answers);
              && table == b.table && pending == b.pending
              && (if b.changed && !saves then gapped && flash == old(flash) && cursor == old(cursor)
                  else gapped == b.gapped && cursor == (if writes && b.held != started then b.held else old(cursor))
                       && flash == if b.changed then b.table else old(flash))
    {
      var started: nat := if readOk then cursor else 0;
      var held: nat, changed := started, false;
      ghost var b0 := Batch(table, pending, held, gapped, changed);
      for k := 0 to |queue|
        invariant Batch(table, pending, held, gapped, changed) == TakeAll(b0, queue[..k], answers[..k])
        invariant flash == old(flash) && cursor == old(cursor)
      {
        TakeAllLast(b0, queue, answers, k);
        var op := queue[k];
        if op.source.Captured? {
          pending := pending - {op.slot.employee};
          continue;
        }
        var gate := GateOf(op, held, gapped);
        if gate.Stale? { continue; }
        if gate.Gap? {
          gapped := true;
          continue;
        }
        var outcome := ApplyRoster(op, answers[k]);
        if outcome.Failed? {
          gapped := true;
          continue;
        }
        changed := changed || (outcome.Applied? && !op.kind.Assign? && !op.kind.Revoke?);
        if !op.numbered { continue; }
        held := op.version;
        if op.kind.ReplaceAll? { gapped := false; }
      }
      assert queue[..|queue|] == queue && answers[..|answers|] == answers;
      if changed {
        if !saves {
          gapped := true;
          return;
        }
        flash := table;
      }
      if held != started && writes { cursor := held; }
    }
  }
}
