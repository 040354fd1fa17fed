/**
 Who waits for a capture, over every run of the roster replica (firmware/main/app_tasks.c: apply_roster,
 take_roster): the pending list is a replica of what the log says of each employee.
 */
module RosterWaiting {
  import opened Wrappers
  import opened Roster
  import opened RosterRuns

  /** What is said of one employee: waiting under a name, waiting no more, or nothing. */
  datatype Word = Waits(name: string) | Gone | Silent

  /** Whether a push is acted on: its number is the next one and the kiosk does not hold, or it is a
      REPLACE_ALL. */
  predicate Heard(s: State, op: Op) {
    op.kind.ReplaceAll? || (!s.b.gapped && op.version == s.b.held + 1)
  }

  /** What a push acted on says of one employee: an assignment is taken while the list has room or has
      them already; a push that lands ends the waiting, one spared for a capture does not. */
  function Tells(s: State, p: Push, busy: bool, employee: nat): Word {
    match p.op.kind
    case Assign =>
      if p.op.slot.employee == employee && (employee in s.b.pending || |s.b.pending| < 64) then Waits(p.op.name) else Silent
    case Revoke => if p.op.slot.employee == employee then Gone else Silent
    case DeleteEmployee => if p.op.slot.employee == employee then Gone else Silent
    case ReplaceAll => Gone
    case Upsert =>
      if p.op.slot.employee == employee && p.op.usable && !busy && !p.refused
         && !(p.op.slot in s.b.table && s.b.table[p.op.slot].unreported) then Gone else Silent
    case _ => Silent
  }

  function Says(log: Log, s: State, e: Event, employee: nat): Word
    requires Enabled(log, s, e)
  {
    match e
    case TakePush(n, busy) => if Heard(s, log[n - 1].op) then Tells(s, log[n - 1], busy, employee) else Silent
    case TakePurge(_) => Gone
    case TakeNote(noted) => if noted == employee then Gone else Silent
    case _ => Silent
  }

  function Waiting(pending: map<nat, string>, employee: nat): Option<string> {
    if employee in pending then Some(pending[employee]) else None
  }

  function Heeded(before: Option<string>, word: Word): Option<string> {
    match word
    case Waits(name) => Some(name)
    case Gone => None
    case Silent => before
  }

  lemma ApplyHeeds(s: State, p: Push, busy: bool, employee: nat)
    ensures Waiting(Apply(s.b.table, s.b.pending, p.op, Answer(busy, p.refused)).pending, employee)
         == Heeded(Waiting(s.b.pending, employee), Tells(s, p, busy, employee))
  {
    match p.op.kind
    case Upsert =>
    case Delete =>
    case DeleteEmployee =>
    case Assign =>
    case Revoke =>
    case ReplaceAll =>
    case Unknown =>
  }

  lemma TakePushHeeds(log: Log, s: State, n: nat, busy: bool, employee: nat)
    requires Numbered(log) && Enabled(log, s, TakePush(n, busy))
    ensures Waiting(Step(log, s, TakePush(n, busy)).b.pending, employee)
         == Heeded(Waiting(s.b.pending, employee), Says(log, s, TakePush(n, busy), employee))
  {
    hide Apply, Tells, SampledAfter, Spared, Waiting;
    ApplyHeeds(s, log[n - 1], busy, employee);
  }

  /** One step: what is said of an employee is done, and nobody else's entry moves. */
  lemma StepHeeds(log: Log, s: State, e: Event, employee: nat)
    requires Numbered(log) && Enabled(log, s, e)
    ensures Waiting(Step(log, s, e).b.pending, employee) == Heeded(Waiting(s.b.pending, employee), Says(log, s, e, employee))
  {
    if e.TakePush? {
      TakePushHeeds(log, s, e.n, e.busy, employee);
    } else {
      hide SampledAfter, Spared, Numbered;
    }
  }

  /** The last thing a run says of an employee. */
  function LastWord(log: Log, s: State, events: seq<Event>, employee: nat): Word
    decreases |events|
  {
    if events == [] || !Enabled(log, s, events[0]) then Silent
    else
      var later := LastWord(log, Step(log, s, events[0]), events[1..], employee);
      if later.Silent? then Says(log, s, events[0], employee) else later
  }

  /** Over every run: an employee waits exactly as the last push acted on, purge or note of a capture
      that spoke of them says, or as at the start if none did. */
  lemma {:induction false} RunHeeds(log: Log, s: State, events: seq<Event>, employee: nat)
    requires Numbered(log) && Run(log, s, events).Some?
    ensures Waiting(Run(log, s, events).value.b.pending, employee)
         == Heeded(Waiting(s.b.pending, employee), LastWord(log, s, events, employee))
    decreases |events|
  {
    hide Step, Enabled, Says, Waiting;
    if events != [] {
      StepHeeds(log, s, events[0], employee);
      RunHeeds(log, Step(log, s, events[0]), events[1..], employee);
    }
  }

  // ----- the log alone --------------------------------------------------------------------------------------

  /** What the log up to and including number `n` says of one employee. */
  function Listed(log: Log, n: nat, employee: nat): Option<string>
    requires n <= |log|
  {
    if n == 0 then None
    else
      var p := log[n - 1];
      var before := Listed(log, n - 1, employee);
      match p.op.kind
      case Assign => if p.op.slot.employee == employee then Some(p.op.name) else before
      case Revoke => if p.op.slot.employee == employee then None else before
      case DeleteEmployee => if p.op.slot.employee == employee then None else before
      case ReplaceAll => None
      case Upsert => if p.op.slot.employee == employee && p.op.usable && !p.refused then None else before
      case _ => before
  }

  /** Nothing fails unseen, nothing boots, and what only this kiosk knows says nothing of the employee:
      no capture of theirs is noted, no push for them spared, no assignment of them without room. */
  predicate Plain(log: Log, s: State, e: Event, employee: nat)
    requires Enabled(log, s, e)
  {
    match e
    case Begin(readOk) => readOk
    case MoveCursor(ok) => ok
    case PowerCut => false
    case BootEmpty(_) => false
    case TakeNote(noted) => noted != employee
    case TakePush(n, _) =>
      log[n - 1].op.slot.employee == employee ==>
        && (log[n - 1].op.kind.Upsert? ==> !IsCapture(s.b.table, log[n - 1].op.slot))
        && (log[n - 1].op.kind.Assign? ==> employee in s.b.pending || |s.b.pending| < PENDING_CAP)
    case _ => true
  }

  ghost predicate AllPlain(log: Log, s: State, events: seq<Event>, employee: nat)
    decreases |events|
  {
    events == [] || (Enabled(log, s, events[0]) && Plain(log, s, events[0], employee)
                     && AllPlain(log, Step(log, s, events[0]), events[1..], employee))
  }

  /** Unless the kiosk holds for a gap, the employee waits as the log says at the number it stands at. */
  ghost predicate AsListed(log: Log, s: State, employee: nat) {
    && Counted(log, s) && BegunWell(s)
    && (!s.b.gapped ==> Pos(s) <= |log| && Waiting(s.b.pending, employee) == Listed(log, Pos(s), employee))
  }

  lemma PushAsListed(log: Log, s: State, n: nat, busy: bool, employee: nat)
    requires Numbered(log) && Enabled(log, s, TakePush(n, busy)) && Plain(log, s, TakePush(n, busy), employee)
    requires AsListed(log, s, employee)
    ensures AsListed(log, Step(log, s, TakePush(n, busy)), employee)
  {
    hide Apply, Waiting, SampledAfter, Spared;
    CountedStep(log, s, TakePush(n, busy));
    ApplyHeeds(s, log[n - 1], busy, employee);
    if Counts(s, log[n - 1].op, Answer(busy, log[n - 1].refused)) { CountedIsReady(s, log[n - 1], busy); }
  }

  lemma CountedIsReady(s: State, p: Push, busy: bool)
    requires Counts(s, p.op, Answer(busy, p.refused))
    ensures p.op.kind.Upsert? && p.op.usable ==> !busy
  {
  }

  lemma PurgeAsListed(log: Log, s: State, busy: bool, employee: nat)
    requires Numbered(log) && s.phase.Draining? && AsListed(log, s, employee)
    ensures AsListed(log, Step(log, s, TakePurge(busy)), employee)
  {
    CountedStep(log, s, TakePurge(busy));
    StepHeeds(log, s, TakePurge(busy), employee);
    hide SampledAfter, Spared, Waiting, Listed;
    PurgeMoves(s, busy);
    assert Listed(log, 0, employee) == None by { NoneListed(log, employee); }
  }

  lemma NoneListed(log: Log, employee: nat)
    ensures Listed(log, 0, employee) == None
  {
  }

  lemma PurgeMoves(s: State, busy: bool)
    ensures var t := Took(s, PURGE, Answer(busy, false));
            !t.b.gapped ==> t.moved && t.b.held == 0 && t.phase == s.phase
  {
    hide SampledAfter, Spared;
  }

  lemma StepAsListed(log: Log, s: State, e: Event, employee: nat)
    requires Numbered(log) && Enabled(log, s, e) && Plain(log, s, e, employee) && AsListed(log, s, employee)
    ensures AsListed(log, Step(log, s, e), employee)
  {
    match e
    case TakePush(n, busy) => PushAsListed(log, s, n, busy, employee);
    case TakePurge(busy) => PurgeAsListed(log, s, busy, employee);
    case _ =>
      hide Listed, Took;
      CountedStep(log, s, e);
  }

  /** Convergence of the pending list, for every arrival order: on a kiosk that started fresh and does
      not hold for a gap, an employee waits, and under which name, exactly as the log says at the
      number it stands at. */
  lemma {:induction false} RunAsListed(log: Log, s: State, events: seq<Event>, employee: nat)
    requires Numbered(log) && AllPlain(log, s, events, employee) && AsListed(log, s, employee)
    ensures Run(log, s, events).Some? && AsListed(log, Run(log, s, events).value, employee)
    decreases |events|
  {
    hide AsListed, Plain, Step, Enabled;
    if events != [] {
      StepAsListed(log, s, events[0], employee);
      RunAsListed(log, Step(log, s, events[0]), events[1..], employee);
    }
  }

  lemma WaitingConverges(log: Log, events: seq<Event>, employee: nat)
    requires Numbered(log) && AllPlain(log, FRESH, events, employee)
    ensures Run(log, FRESH, events).Some?
    ensures var s := Run(log, FRESH, events).value;
            !s.b.gapped ==> Pos(s) <= |log| && Waiting(s.b.pending, employee) == Listed(log, Pos(s), employee)
  {
    hide Plain, Step, Enabled, AllPlain;
    RunAsListed(log, FRESH, events, employee);
  }

  // ----- captures and holds ---------------------------------------------------------------------------------

  /** What becomes of a capture not yet reported: an operation leaves it as it is, unless it is done and
      is a delete of its slot, a delete of its person, or the purge. */
  lemma CapturesSurvive(t: Table, pending: map<nat, string>, op: Op, db: Answer, k: Slot)
    requires IsCapture(t, k)
    ensures var e := Apply(t, pending, op, db);
            (k in e.table && e.table[k] == t[k])
            <==> !(e.outcome.Applied? && ((op.kind.Delete? && op.slot == k) || (op.kind.DeleteEmployee? && op.slot.employee == k.employee)
                                         || (op.kind.ReplaceAll? && op.source.Purge?)))
  {
  }

  /** A REPLACE_ALL that is done ends the hold at its own number, whatever the kiosk held or stood at. */
  lemma RestartEndsHold(log: Log, s: State, n: nat)
    requires Numbered(log) && 0 < n <= |log| && s.phase.Draining? && log[n - 1].op.kind.ReplaceAll?
    ensures var t := Step(log, s, TakePush(n, false));
            !t.b.gapped && t.b.held == n && t.b.changed && forall k :: k in t.b.table ==> k in s.b.table && IsCapture(s.b.table, k)
  {
    hide SampledAfter, Spared;
  }

  /** A repeat does nothing, a push with one missing before it only makes the kiosk hold, and the next
      one is acted on. */
  lemma GateHolds(b: Batch, op: Op, db: Answer)
    requires op.numbered && op.source.Server? && !op.kind.ReplaceAll?
    ensures op.version <= b.held ==> TakeOne(b, op, db) == b
    ensures op.version > b.held + 1 ==> TakeOne(b, op, db) == b.(gapped := true)
    ensures op.version > b.held && b.gapped ==> TakeOne(b, op, db) == b
    ensures op.version == b.held + 1 && !b.gapped && !db.busy ==> TakeOne(b, op, db).held == op.version && !TakeOne(b, op, db).gapped
  {
  }
}
