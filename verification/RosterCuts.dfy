/**
 The roster replica under power cuts (firmware/main/app_tasks.c: take_roster; firmware/main/app_boot.c:
 forget_lost_table, bind_face_table): what the flash table may hold at every point of every run, and
 what a replay from the cursor makes of it, slot by slot.
 */
module RosterCuts {
  import opened Wrappers
  import opened Roster
  import opened RosterRuns

  /** A slot holds what some prefix of the log between `lo` and `hi` says. */
  ghost predicate SlotWithin(log: Log, t: Table, lo: nat, hi: nat, k: Slot)
    requires hi <= |log|
  {
    exists n: nat :: lo <= n <= hi && Face(t, k) == Value(log, n, k)
  }

  /** It does, unless the kiosk holds it. */
  ghost predicate Within(log: Log, t: Table, sampled: set<Slot>, lo: nat, hi: nat, k: Slot) {
    lo <= hi <= |log| && (Held(t, sampled, k) || SlotWithin(log, t, lo, hi, k))
  }

  /** Taking the next number moves the range of prefixes up with it. */
  lemma ApplyNext(log: Log, t: Table, sampled: set<Slot>, pending: map<nat, string>, n: nat, hi: nat, busy: bool, k: Slot)
    requires Numbered(log) && 0 < n <= |log| && Within(log, t, sampled, n - 1, hi, k)
    ensures var p := log[n - 1];
            var e := Apply(t, pending, p.op, Answer(busy, p.refused));
            !e.outcome.Failed? ==> Within(log, e.table, SampledAfter(sampled, p.op, e.outcome), n, Max(hi, n), k)
  {
    hide Apply, Touches, SampledAfter, Held;
    var p := log[n - 1];
    var e := Apply(t, pending, p.op, Answer(busy, p.refused));
    if !e.outcome.Failed? && !Held(e.table, SampledAfter(sampled, p.op, e.outcome), k) {
      ApplyMoves(log, t, sampled, pending, n, busy, k);
      if Touches(p, k) {
        assert Face(e.table, k) == Value(log, n, k);
      } else {
        var m: nat :| n - 1 <= m <= hi && Face(t, k) == Value(log, m, k);
        assert Value(log, n, k) == Value(log, n - 1, k);
        assert Face(e.table, k) == Value(log, if m == n - 1 then n else m, k);
      }
    }
  }

  /** A REPLACE_ALL restates the roster at its own number, whatever the table held. */
  lemma ApplyReplaceAll(log: Log, t: Table, sampled: set<Slot>, pending: map<nat, string>, n: nat, busy: bool, k: Slot)
    requires Numbered(log) && 0 < n <= |log| && log[n - 1].op.kind.ReplaceAll?
    ensures var p := log[n - 1];
            var e := Apply(t, pending, p.op, Answer(busy, p.refused));
            !e.outcome.Failed? ==> Within(log, e.table, SampledAfter(sampled, p.op, e.outcome), n, n, k)
  {
    hide Apply, SampledAfter, Held;
    ApplyMoves(log, t, sampled, pending, n, busy, k);
  }

  lemma Widen(log: Log, t: Table, sampled: set<Slot>, lo: nat, hi: nat, lo': nat, k: Slot)
    requires Within(log, t, sampled, lo, hi, k) && lo' <= lo
    ensures Within(log, t, sampled, lo', hi, k)
  {
    hide Held;
  }

  /** None of the numbers above `lo` up to `hi` speaks of the slot, unless it is in `but`. */
  ghost predicate Quiet(log: Log, but: set<Slot>, lo: nat, hi: nat, k: Slot) {
    lo <= hi <= |log| && forall i :: lo <= i < hi && Touches(log[i], k) ==> k in but
  }

  /** Flash may be said to stand at a later number when those in between do not speak of the slot, or
      it is right there already. */
  lemma PassQuiet(log: Log, t: Table, sampled: set<Slot>, lo: nat, hi: nat, but: set<Slot>, lo': nat, k: Slot)
    requires Within(log, t, sampled, lo, hi, k) && lo <= lo' && Quiet(log, but, lo, lo', k)
    requires k in but && !Held(t, sampled, k) ==> SlotWithin(log, t, lo', Max(hi, lo'), k)
    ensures Within(log, t, sampled, lo', Max(hi, lo'), k)
  {
    hide Held, Touches;
    if k !in but && !Held(t, sampled, k) {
      var m: nat :| lo <= m <= hi && Face(t, k) == Value(log, m, k);
      if m < lo' {
        Untouched(log, m, lo', k);
        assert Face(t, k) == Value(log, lo', k);
      }
    }
  }

  lemma EmptyWithin(log: Log, k: Slot)
    ensures Within(log, map[], {}, 0, 0, k)
  {
    assert Face(map[], k) == Value(log, 0, k);
  }

  // ----- every run -----------------------------------------------------------------------------------

  /** RAM and flash each hold in this slot what some prefix of the log said at or beyond the number
      they stand at. */
  ghost predicate Safe(log: Log, s: State, k: Slot) {
    && Within(log, s.b.table, s.sampled, s.at, s.top, k)
    && Within(log, s.flash, s.flashSampled, s.flashAt, s.flashTop, k)
    && s.cursor <= |log| && (!s.phase.Idle? ==> s.b.held <= |log|)
    && (s.phase.Draining? && !s.b.changed ==> Quiet(log, s.spared, s.started, s.b.held, k))
  }

  /** What must not happen for it to stay so; but for the first, each is about this slot alone.  No push
      is taken in turn on a table that stands below the number it is counted from.  A batch that saves
      nothing spared no push for a capture flash does not have.  A template reported or dropped leaves
      what some prefix within range says.  No cut falls on a sample another task has saved. */
  ghost predicate Forward(log: Log, s: State, e: Event, k: Slot)
    requires Enabled(log, s, e)
  {
    match e
    case TakePush(n, busy) =>
      Counts(s, log[n - 1].op, Answer(busy, log[n - 1].refused)) && !log[n - 1].op.kind.ReplaceAll? ==> s.b.held <= s.at
    case Save(_) =>
      && !s.b.changed && s.started <= s.flashAt < s.b.held <= |log| && s.flashTop <= |log|
      && k in s.spared && !Held(s.flash, s.flashSampled, k) ==>
        SlotWithin(log, s.flash, s.b.held, Max(s.flashTop, s.b.held), k)
    case Report(slot) =>
      slot == k && IsCapture(s.b.table, k) && k !in s.sampled && s.top <= |log| ==> SlotWithin(log, s.b.table, s.at, s.top, k)
    case Drop(slot) => slot == k && s.top <= |log| ==> SlotWithin(log, map[], s.at, s.top, k)
    case PowerCut =>
      k in s.flashSampled && !IsCapture(s.flash, k) && s.flashTop <= |log| ==>
        SlotWithin(log, s.flash, s.flashAt, s.flashTop, k)
    case _ => true
  }

  lemma TookPushSafely(log: Log, s: State, n: nat, busy: bool, k: Slot)
    requires Numbered(log) && 0 < n <= |log| && s.phase.Draining? && Safe(log, s, k) && Forward(log, s, TakePush(n, busy), k)
    ensures Safe(log, Step(log, s, TakePush(n, busy)), k)
  {
    hide Within, Apply, Touches, SampledAfter, Spared;
    var p := log[n - 1];
    var db := Answer(busy, p.refused);
    FailedKeeps(s.b.table, s.b.pending, p.op, db);
    if Counts(s, p.op, db) {
      QuietMoves(s.b.table, s.sampled, s.b.pending, p, busy);
      if p.op.kind.ReplaceAll? {
        ApplyReplaceAll(log, s.b.table, s.sampled, s.b.pending, n, busy, k);
        ReplaceAllIsApplied(s.b.table, s.b.pending, p.op, db);
      } else {
        Widen(log, s.b.table, s.sampled, s.at, s.top, n - 1, k);
        ApplyNext(log, s.b.table, s.sampled, s.b.pending, n, s.top, busy, k);
      }
    }
  }

  lemma ReplaceAllIsApplied(t: Table, pending: map<nat, string>, op: Op, db: Answer)
    requires op.kind.ReplaceAll?
    ensures !Apply(t, pending, op, db).outcome.Spent?
  {
  }

  lemma TookPurgeSafely(log: Log, s: State, busy: bool, k: Slot)
    requires s.phase.Draining? && Safe(log, s, k)
    ensures Safe(log, Step(log, s, TakePurge(busy)), k)
  {
    hide Within, Apply, SampledAfter, Spared;
    PurgeEmpties(s.b.table, s.sampled, s.b.pending, Answer(busy, false));
    EmptyWithin(log, k);
  }

  lemma SaveSafely(log: Log, s: State, ok: bool, k: Slot)
    requires s.phase.Draining? && Safe(log, s, k) && Forward(log, s, Save(ok), k)
    ensures Safe(log, Step(log, s, Save(ok)), k)
  {
    hide SlotWithin, Held, Touches;
    if !s.b.changed && s.started <= s.flashAt < s.b.held {
      PassQuiet(log, s.flash, s.flashSampled, s.flashAt, s.flashTop, s.spared, s.b.held, k);
    }
  }

  /** A write of the kiosk's own to one slot. */
  lemma OwnWriteSafely(log: Log, s: State, e: Event, k: Slot)
    requires (e.Sample? || e.Seal? || e.Report? || e.Drop?) && Safe(log, s, k) && Forward(log, s, e, k)
    ensures Safe(log, Step(log, s, e), k)
  {
    hide Value, Quiet;
    var s' := Step(log, s, e);
    if !Held(s'.b.table, s'.sampled, k) {
      if k == e.slot && e.Drop? {
        assert SlotWithin(log, map[], s.at, s.top, k);
        assert Face(s'.b.table, k) == Face(map[], k);
      } else {
        assert SlotWithin(log, s.b.table, s.at, s.top, k);
        assert Face(s'.b.table, k) == Face(s.b.table, k);
      }
    }
  }

  lemma CutSafely(log: Log, s: State, k: Slot)
    requires Safe(log, s, k) && Forward(log, s, PowerCut, k)
    ensures Safe(log, Step(log, s, PowerCut), k)
  {
    hide SlotWithin;
  }

  lemma StepSafe(log: Log, s: State, e: Event, k: Slot)
    requires Numbered(log) && Safe(log, s, k) && Enabled(log, s, e) && Forward(log, s, e, k)
    ensures Safe(log, Step(log, s, e), k)
  {
    match e
    case TakePush(n, busy) => TookPushSafely(log, s, n, busy, k);
    case TakePurge(busy) => TookPurgeSafely(log, s, busy, k);
    case Save(ok) => SaveSafely(log, s, ok, k);
    case Sample(_, _) => OwnWriteSafely(log, s, e, k);
    case Seal(_) => OwnWriteSafely(log, s, e, k);
    case Report(_) => OwnWriteSafely(log, s, e, k);
    case Drop(_) => OwnWriteSafely(log, s, e, k);
    case PowerCut => CutSafely(log, s, k);
    case BootEmpty(_) => hide Within; EmptyWithin(log, k);
    case _ => hide Within;
  }

  ghost predicate AllForward(log: Log, s: State, events: seq<Event>, k: Slot)
    decreases |events|
  {
    events == [] || (Enabled(log, s, events[0]) && Forward(log, s, events[0], k)
                     && AllForward(log, Step(log, s, events[0]), events[1..], k))
  }

  /** Crash safety of every run, power cuts anywhere, for each slot by itself. */
  lemma {:induction false} RunSafe(log: Log, s: State, events: seq<Event>, k: Slot)
    requires Numbered(log) && Safe(log, s, k) && AllForward(log, s, events, k)
    ensures Run(log, s, events).Some? && Safe(log, Run(log, s, events).value, k)
    decreases |events|
  {
    hide Safe, Forward, Step;
    if events != [] {
      StepSafe(log, s, events[0], k);
      RunSafe(log, Step(log, s, events[0]), events[1..], k);
    }
  }

  lemma FreshIsSafe(log: Log, k: Slot)
    ensures Safe(log, FRESH, k)
  {
    EmptyWithin(log, k);
  }

  // ----- replaying from the cursor ---------------------------------------------------------------------

  /** The pushes numbered above `lo`, in order, up to `hi`. */
  function Pushes(log: Log, lo: nat, hi: nat): (ops: seq<Op>)
    requires lo <= hi <= |log|
    ensures |ops| == hi - lo
  {
    seq(hi - lo, i requires 0 <= i < hi - lo => log[lo + i].op)
  }

  function Ready(log: Log, lo: nat, hi: nat): (answers: seq<Answer>)
    requires lo <= hi <= |log|
    ensures |answers| == hi - lo
  {
    seq(hi - lo, i requires 0 <= i < hi - lo => Answer(false, log[lo + i].refused))
  }

  /** Some number above `lo` up to `hi` speaks of the slot. */
  ghost predicate Spoken(log: Log, lo: nat, hi: nat, k: Slot)
    requires hi <= |log|
  {
    exists i :: lo <= i < hi && Touches(log[i], k)
  }

  /** A replay restores a slot that is no capture exactly when some later operation speaks of it, or
      it already held what the log said at the cursor. */
  lemma {:induction false} ReplayRestores(log: Log, b: Batch, hi: nat, k: Slot)
    requires Numbered(log) && b.held <= hi <= |log| && !b.gapped && !IsCapture(b.table, k)
    ensures var r := TakeAll(b, Pushes(log, b.held, hi), Ready(log, b.held, hi));
            && r.held == hi && !r.gapped
            && (Face(r.table, k) == Value(log, hi, k) <==>
                  Spoken(log, b.held, hi, k) || Face(b.table, k) == Value(log, b.held, k))
    decreases hi - b.held
  {
    hide Apply, Touches, IsCapture, TakeOne, Value;
    var lo := b.held;
    if lo < hi {
      var p := log[lo];
      ReplayOne(log, b, k);
      assert Pushes(log, lo, hi)[1..] == Pushes(log, lo + 1, hi);
      assert Ready(log, lo, hi)[1..] == Ready(log, lo + 1, hi);
      ReplayRestores(log, TakeOne(b, p.op, Answer(false, p.refused)), hi, k);
      assert Spoken(log, lo, hi, k) <==> Touches(p, k) || Spoken(log, lo + 1, hi, k);
    }
  }

  /** The same for one push. */
  lemma ReplayOne(log: Log, b: Batch, k: Slot)
    requires Numbered(log) && b.held < |log| && !b.gapped && !IsCapture(b.table, k)
    ensures var p := log[b.held];
            var next := TakeOne(b, p.op, Answer(false, p.refused));
            && next.held == b.held + 1 && !next.gapped && !IsCapture(next.table, k)
            && (Face(next.table, k) == Value(log, b.held + 1, k)
                <==> Touches(p, k) || Face(b.table, k) == Value(log, b.held, k))
  {
    hide Apply, Touches, SampledAfter;
    var p := log[b.held];
    var db := Answer(false, p.refused);
    NeverFails(b.table, b.pending, p.op, db);
    SampledFromNone(p.op, Apply(b.table, b.pending, p.op, db).outcome);
    ApplyMoves(log, b.table, {}, b.pending, b.held + 1, false, k);
    NoNewCapture(b.table, b.pending, p.op, db, k);
  }

  lemma NeverFails(t: Table, pending: map<nat, string>, op: Op, db: Answer)
    requires !db.busy
    ensures !Apply(t, pending, op, db).outcome.Failed?
  {
  }

  lemma SampledFromNone(op: Op, outcome: Outcome)
    ensures SampledAfter({}, op, outcome) == {}
  {
  }

  lemma NoNewCapture(t: Table, pending: map<nat, string>, op: Op, db: Answer, k: Slot)
    requires !IsCapture(t, k)
    ensures !IsCapture(Apply(t, pending, op, db).table, k)
  {
  }

  /** What a boot after a cut makes of a slot once the log is replayed from the cursor. */
  function AfterCut(log: Log, s: State, k: Slot): Option<int>
    requires s.cursor <= |log|
  {
    var cut := Step(log, s, PowerCut);
    Face(TakeAll(cut.b.(held := s.cursor), Pushes(log, s.cursor, |log|), Ready(log, s.cursor, |log|)).table, k)
  }

  /** After a cut, at any point of any run whatever happened before, a replay from the cursor restores
      a slot flash does not hold as a capture exactly when a later operation speaks of it or flash has
      what the log says at the cursor. */
  lemma CutExactly(log: Log, s: State, k: Slot)
    requires Numbered(log) && s.cursor <= |log| && !IsCapture(s.flash, k)
    ensures AfterCut(log, s, k) == Value(log, |log|, k) <==>
      Spoken(log, s.cursor, |log|, k) || Face(s.flash, k) == Value(log, s.cursor, k)
  {
    hide Touches, Value;
    ReplayRestores(log, Step(log, s, PowerCut).b.(held := s.cursor), |log|, k);
  }

  /** After any run that was forward for a slot, a power cut where flash stands no lower than the
      cursor, and a replay from the cursor to the end of the log, leave the server's value in it,
      unless flash holds it as a capture. */
  lemma CutAndReplay(log: Log, events: seq<Event>, k: Slot)
    requires Numbered(log) && AllForward(log, FRESH, events + [PowerCut], k)
    ensures Run(log, FRESH, events).Some?
    ensures var s := Run(log, FRESH, events).value;
            && s.cursor <= |log|
            && (s.cursor <= s.flashAt && !IsCapture(s.flash, k) ==> AfterCut(log, s, k) == Value(log, |log|, k))
  {
    hide Forward, Step;
    FreshIsSafe(log, k);
    ForwardSplit(log, FRESH, events, PowerCut, k);
    RunSafe(log, FRESH, events, k);
    var s := Run(log, FRESH, events).value;
    if s.cursor <= s.flashAt && !IsCapture(s.flash, k) { CutRestores(log, s, k); }
  }

  lemma {:induction false} ForwardSplit(log: Log, s: State, events: seq<Event>, last: Event, k: Slot)
    requires AllForward(log, s, events + [last], k)
    ensures AllForward(log, s, events, k) && Run(log, s, events).Some?
    ensures var r := Run(log, s, events).value; Enabled(log, r, last) && Forward(log, r, last, k)
    decreases |events|
  {
    hide Forward, Step;
    if events == [] {
      assert events + [last] == [last];
    } else {
      assert (events + [last])[1..] == events[1..] + [last];
      ForwardSplit(log, Step(log, s, events[0]), events[1..], last, k);
    }
  }

  lemma CutRestores(log: Log, s: State, k: Slot)
    requires Numbered(log) && Safe(log, s, k) && Forward(log, s, PowerCut, k) && s.cursor <= s.flashAt && !IsCapture(s.flash, k)
    ensures AfterCut(log, s, k) == Value(log, |log|, k)
  {
    hide Touches;
    CutExactly(log, s, k);
    assert SlotWithin(log, s.flash, s.flashAt, s.flashTop, k);
    var m: nat :| s.flashAt <= m <= s.flashTop && Face(s.flash, k) == Value(log, m, k);
    if !Spoken(log, s.cursor, |log|, k) {
      forall i | s.cursor <= i < m ensures !Touches(log[i], k) {}
      Untouched(log, s.cursor, m, k);
    }
  }

  /** The kiosk's own writes, once another task has saved the table and the power goes.  A template
      dropped is right again exactly when a later operation speaks of it or the log has it empty at
      the cursor. */
  lemma DropThenCut(log: Log, s: State, slot: Slot)
    requires Numbered(log) && s.cursor <= |log|
    ensures AfterCut(log, Step(log, Step(log, s, Drop(slot)), OtherSave), slot) == Value(log, |log|, slot) <==>
      Spoken(log, s.cursor, |log|, slot) || Value(log, s.cursor, slot) == None
  {
    hide Value, AfterCut, Spoken;
    CutExactly(log, Step(log, Step(log, s, Drop(slot)), OtherSave), slot);
  }

  /** A sample of an enrolment under way, exactly when a later operation speaks of its slot or the log
      has the same face at the cursor. */
  lemma SampleThenCut(log: Log, s: State, slot: Slot, face: int)
    requires Numbered(log) && s.cursor <= |log|
    ensures AfterCut(log, Step(log, Step(log, s, Sample(slot, face)), OtherSave), slot) == Value(log, |log|, slot) <==>
      Spoken(log, s.cursor, |log|, slot) || Value(log, s.cursor, slot) == Some(face)
  {
    hide Value, AfterCut, Spoken;
    CutExactly(log, Step(log, Step(log, s, Sample(slot, face)), OtherSave), slot);
  }

  /** A capture reported, likewise. */
  lemma ReportThenCut(log: Log, s: State, slot: Slot)
    requires Numbered(log) && s.cursor <= |log| && slot in s.b.table
    ensures AfterCut(log, Step(log, Step(log, s, Report(slot)), OtherSave), slot) == Value(log, |log|, slot) <==>
      Spoken(log, s.cursor, |log|, slot) || Value(log, s.cursor, slot) == Some(s.b.table[slot].face)
  {
    hide Value, AfterCut, Spoken;
    CutExactly(log, Step(log, Step(log, s, Report(slot)), OtherSave), slot);
  }

  // ----- the window --------------------------------------------------------------------------------------

  /** Where flash stands below the cursor, at one number, a cut and a replay restore a slot it does not
      hold as a capture exactly when a later operation speaks of it, or the log says the same of it at
      both numbers. */
  lemma WindowCut(log: Log, s: State, k: Slot)
    requires Numbered(log) && Safe(log, s, k) && Forward(log, s, PowerCut, k)
    requires s.flashAt == s.flashTop && !IsCapture(s.flash, k)
    ensures AfterCut(log, s, k) == Value(log, |log|, k) <==>
      Spoken(log, s.cursor, |log|, k) || Value(log, s.flashAt, k) == Value(log, s.cursor, k)
  {
    hide Touches;
    CutExactly(log, s, k);
    assert SlotWithin(log, s.flash, s.flashAt, s.flashTop, k);
  }

  /** A batch of one item lowers the cursor: the cut falls once the table is down. */
  lemma LoweredCut(log: Log, s: State, e: Event, k: Slot)
    requires Numbered(log) && Safe(log, s, k) && s.phase.Idle?
    requires e == TakePurge(false) || (e.TakePush? && !e.busy && 0 < e.n <= |log| && log[e.n - 1].op.kind.ReplaceAll?)
    ensures var taken := Step(log, Step(log, s, Begin(true)), e);
            && taken.phase.Draining? && taken.b.changed
            && var saved := Step(log, taken, Save(true));
               && saved.cursor == s.cursor
               && (!IsCapture(saved.flash, k) ==>
                     (AfterCut(log, saved, k) == Value(log, |log|, k) <==>
                        Spoken(log, s.cursor, |log|, k) || Value(log, s.cursor, k) == None))
  {
    hide Safe, Forward, Touches, Apply, AfterCut, Spared;
    var began := Step(log, s, Begin(true));
    StepSafe(log, s, Begin(true), k) by { ForwardBegins(log, s, true, k); }
    ForwardLowers(log, began, e, k);
    StepSafe(log, began, e, k);
    LoweredTo(log, began, e);
    var taken := Step(log, began, e);
    ForwardSaves(log, taken, k);
    StepSafe(log, taken, Save(true), k);
    var saved := Step(log, taken, Save(true));
    if !IsCapture(saved.flash, k) {
      ForwardCuts(log, saved, k);
      WindowCut(log, saved, k);
      EmptyThere(log, saved.flashAt, k);
    }
  }

  lemma ForwardBegins(log: Log, s: State, readOk: bool, k: Slot)
    requires s.phase.Idle?
    ensures Forward(log, s, Begin(readOk), k)
  {
  }

  lemma ForwardLowers(log: Log, s: State, e: Event, k: Slot)
    requires Enabled(log, s, e) && (e.TakePurge? || (e.TakePush? && log[e.n - 1].op.kind.ReplaceAll?))
    ensures Forward(log, s, e, k)
  {
  }

  lemma ForwardSaves(log: Log, s: State, k: Slot)
    requires s.phase.Draining? && s.b.changed
    ensures Forward(log, s, Save(true), k)
  {
  }

  lemma ForwardCuts(log: Log, s: State, k: Slot)
    requires s.flashSampled == {}
    ensures Forward(log, s, PowerCut, k)
  {
  }

  /** Where a REPLACE_ALL or the purge leaves RAM standing. */
  lemma LoweredTo(log: Log, s: State, e: Event)
    requires Numbered(log) && s.phase.Draining?
    requires e == TakePurge(false) || (e.TakePush? && !e.busy && 0 < e.n <= |log| && log[e.n - 1].op.kind.ReplaceAll?)
    ensures var t := Step(log, s, e);
            && t.phase.Draining? && t.b.changed && t.sampled == {} && t.at == t.top && t.cursor == s.cursor
            && (t.at == 0 || (t.at <= |log| && log[t.at - 1].op.kind.ReplaceAll?))
  {
  }

  lemma EmptyThere(log: Log, n: nat, k: Slot)
    requires n <= |log| && (n == 0 || log[n - 1].op.kind.ReplaceAll?)
    ensures Value(log, n, k) == None
  {
  }

  // ----- when the window is open ---------------------------------------------------------------------------

  /** Nothing the code does not look at fails, and no cut falls while flash stands below the cursor.
      A save of the batch's own may fail: the code looks at that, and holds. */
  predicate Sheltered(s: State, e: Event) {
    match e
    case Begin(readOk) => readOk
    case MoveCursor(ok) => ok
    case BootEmpty(reset) => reset
    case PowerCut => s.cursor <= s.flashAt
    case _ => true
  }

  /** Whether the last save a batch tried failed, and no boot came since. */
  predicate TornAfter(s: State, e: Event, torn: bool) {
    match e
    case Save(ok) => if s.b.changed then !ok else torn
    case PowerCut => false
    case BootEmpty(_) => false
    case _ => torn
  }

  predicate Torn(log: Log, s: State, events: seq<Event>, torn: bool)
    decreases |events|
  {
    if events == [] || !Enabled(log, s, events[0]) then torn
    else Torn(log, Step(log, s, events[0]), events[1..], TornAfter(s, events[0], torn))
  }

  /** The numbers RAM, flash and cursor stand at.  After a save that failed the kiosk holds, and counts
      nothing before a REPLACE_ALL. */
  predicate Level(s: State, torn: bool) {
    && (!s.phase.Idle? ==> s.started == s.cursor)
    && (if torn then
          && (s.phase.Idle? ==> s.b.gapped)
          && (s.phase.Draining? ==> if s.b.changed then s.b.held <= s.at else s.b.gapped && s.b.held == s.started)
          && (s.phase.Saved? ==> s.b.gapped && s.b.held == s.started)
        else
          && (s.phase.Idle? ==> s.cursor <= s.at && s.cursor <= s.flashAt)
          && (!s.phase.Idle? ==> s.b.held <= s.at)
          && (s.phase.Draining? && !s.b.changed ==> s.cursor <= s.flashAt && s.cursor <= s.b.held)
          && (s.phase.Saved? ==> s.b.held <= s.flashAt))
  }

  lemma LevelTook(log: Log, s: State, e: Event, torn: bool, k: Slot)
    requires Numbered(log) && Level(s, torn) && Enabled(log, s, e) && (e.TakePush? || e.TakePurge?)
    ensures Level(Step(log, s, e), torn)
    ensures e.TakePush? ==> Forward(log, s, e, k)
  {
    hide SampledAfter, Spared, Touches, Value;
  }

  lemma StepLevel(log: Log, s: State, e: Event, torn: bool, k: Slot)
    requires Numbered(log) && Level(s, torn) && Enabled(log, s, e) && Sheltered(s, e)
    ensures Level(Step(log, s, e), TornAfter(s, e, torn))
  {
    hide Took;
    if e.TakePush? || e.TakePurge? { LevelTook(log, s, e, torn, k); }
  }

  ghost predicate AllSheltered(log: Log, s: State, events: seq<Event>)
    decreases |events|
  {
    events == [] || (Enabled(log, s, events[0]) && Sheltered(s, events[0])
                     && AllSheltered(log, Step(log, s, events[0]), events[1..]))
  }

  lemma {:induction false} RunLevel(log: Log, s: State, events: seq<Event>, torn: bool, k: Slot)
    requires Numbered(log) && Level(s, torn) && AllSheltered(log, s, events)
    ensures Run(log, s, events).Some? && Level(Run(log, s, events).value, Torn(log, s, events, torn))
    decreases |events|
  {
    hide Level, Sheltered, Step, TornAfter;
    if events != [] {
      StepLevel(log, s, events[0], torn, k);
      RunLevel(log, Step(log, s, events[0]), events[1..], TornAfter(s, events[0], torn), k);
    }
  }

  /** When the window is open: on every run, purges, low REPLACE_ALLs and failed saves included, flash
      stands below the cursor only while a batch that changed the table is draining, between a save of
      it and the cursor's write, or after a save that failed and until a later batch saves, for which
      it needs a REPLACE_ALL since the kiosk holds; and no push is ever taken on a table that stands
      below the number it is counted from. */
  lemma WindowIsNarrow(log: Log, events: seq<Event>, n: nat, busy: bool, k: Slot)
    requires Numbered(log) && AllSheltered(log, FRESH, events)
    ensures Run(log, FRESH, events).Some?
    ensures var s := Run(log, FRESH, events).value;
            var torn := Torn(log, FRESH, events, false);
            && (s.flashAt < s.cursor ==> s.phase.Saved? || (s.phase.Draining? && s.b.changed) || torn)
            && (torn && s.phase.Idle? ==> s.b.gapped)
            && (s.phase.Saved? && !torn ==> Step(log, s, MoveCursor(true)).cursor <= s.flashAt)
            && (Enabled(log, s, TakePush(n, busy)) ==> Forward(log, s, TakePush(n, busy), k))
  {
    RunLevel(log, FRESH, events, false, k);
    var s := Run(log, FRESH, events).value;
    if Enabled(log, s, TakePush(n, busy)) { LevelTook(log, s, TakePush(n, busy), Torn(log, FRESH, events, false), k); }
  }

  // ----- a slot the kiosk never writes itself ---------------------------------------------------------------

  /** Not a write of the kiosk's own to this slot. */
  predicate NotOwn(e: Event, k: Slot) {
    (e.Sample? || e.Seal? || e.Report? || e.Drop?) ==> e.slot != k
  }

  /** Nothing of the kiosk's own stands in it. */
  predicate Foreign(s: State, k: Slot) {
    && k !in s.sampled && k !in s.flashSampled && k !in s.spared && !IsCapture(s.b.table, k) && !IsCapture(s.flash, k)
  }

  lemma TookForeign(log: Log, s: State, e: Event, k: Slot)
    requires s.phase.Draining? && Item(log, e) && Enabled(log, s, e) && Foreign(s, k)
    ensures Foreign(Step(log, s, e), k)
  {
    hide Apply;
    if e.TakeNote? {
    } else {
      NoNewCapture(s.b.table, s.b.pending, OpOf(log, e), AnswerOf(log, e), k);
    }
  }

  lemma ForeignStep(log: Log, s: State, e: Event, k: Slot, torn: bool)
    requires Numbered(log) && Foreign(s, k) && Enabled(log, s, e) && NotOwn(e, k) && Level(s, torn) && Sheltered(s, e)
    ensures Foreign(Step(log, s, e), k) && Forward(log, s, e, k)
  {
    hide Took, Value;
    if e.TakePush? || e.TakePurge? || e.TakeNote? { TookForeign(log, s, e, k); }
    if e.TakePush? { LevelTook(log, s, e, torn, k); }
  }

  lemma {:induction false} ForeignRun(log: Log, s: State, events: seq<Event>, k: Slot, torn: bool)
    requires Numbered(log) && Foreign(s, k) && Level(s, torn) && AllSheltered(log, s, events)
    requires forall e :: e in events ==> NotOwn(e, k)
    ensures AllForward(log, s, events, k) && Run(log, s, events).Some? && Foreign(Run(log, s, events).value, k)
    decreases |events|
  {
    hide Foreign, Level, Sheltered, Step, Forward, NotOwn, TornAfter, Enabled;
    if events != [] {
      assert NotOwn(events[0], k);
      ForeignStep(log, s, events[0], k, torn);
      StepLevel(log, s, events[0], torn, k);
      ForeignRun(log, Step(log, s, events[0]), events[1..], k, TornAfter(s, events[0], torn));
    }
  }

  /** Cursor safety, with no condition on what arrives or fails to be saved: in a slot the kiosk never
      writes itself, RAM and flash hold at every point of every run what some prefix of the log said at
      or beyond the number they stand at; and a cut outside the window, with a replay from the cursor,
      leaves the server's value. */
  lemma ServersSlotSurvives(log: Log, events: seq<Event>, k: Slot)
    requires Numbered(log) && AllSheltered(log, FRESH, events) && forall e :: e in events ==> NotOwn(e, k)
    ensures Run(log, FRESH, events).Some?
    ensures var s := Run(log, FRESH, events).value;
            && Safe(log, s, k) && !Held(s.flash, s.flashSampled, k)
            && (s.cursor <= s.flashAt ==> AfterCut(log, s, k) == Value(log, |log|, k))
  {
    hide Sheltered, Step, Forward, NotOwn, Safe;
    ForeignRun(log, FRESH, events, k, false);
    FreshIsSafe(log, k);
    RunSafe(log, FRESH, events, k);
    var s := Run(log, FRESH, events).value;
    if s.cursor <= s.flashAt {
      ForeignCut(log, s, k);
      CutRestores(log, s, k);
    }
  }

  lemma ForeignCut(log: Log, s: State, k: Slot)
    requires Foreign(s, k)
    ensures Forward(log, s, PowerCut, k) && !IsCapture(s.flash, k)
  {
  }

  // ----- where the code falls short --------------------------------------------------------------------------

  function RestartOf(n: nat): Push { Push(Op(ReplaceAll, Slot(0, 0), 0, "", true, n, true, Server), false) }

  /** A kiosk at rest on a log that restates the roster and then sends one template. */
  const AT_TWO := State(Batch(map[K := Record(7, false)], map[], 2, false, true), map[K := Record(7, false)], 2, Idle, 0, true,
                        {}, {}, 2, 2, 2, 2, {}, [1, 2])

  function TwoLog(): Log { [RestartOf(1), UpsertOf(2, K, 7)] }

  lemma TwoValues(k: Slot)
    ensures Numbered(TwoLog()) && Value(TwoLog(), 1, k) == None && Value(TwoLog(), 2, k) == if k == K then Some(7) else None
  {
    assert Value(TwoLog(), 0, k) == None && Value(TwoLog(), 1, k) == None;
  }

  lemma AtTwoIsSound()
    ensures Numbered(TwoLog()) && Converged(TwoLog(), AT_TWO) && Level(AT_TWO, false) && forall k :: Safe(TwoLog(), AT_TWO, k)
  {
    forall k ensures Face(AT_TWO.flash, k) == Value(TwoLog(), 2, k) && SlotWithin(TwoLog(), AT_TWO.flash, 2, 2, k) {
      TwoValues(k);
      assert Face(AT_TWO.flash, k) == Value(TwoLog(), 2, k);
    }
  }

  /** A REPLACE_ALL delivered again below the cursor, and a cut between its two writes: the flash
      table is empty, the cursor claims the end of the log, and nothing is left to replay. */
  lemma LowReplaceAllLosesTable()
    ensures var taken := Step(TwoLog(), Step(TwoLog(), AT_TWO, Begin(true)), TakePush(1, false));
            && taken.phase.Draining?
            && var s := Step(TwoLog(), taken, Save(true));
               && s.cursor == |TwoLog()| && !IsCapture(s.flash, K)
               && AfterCut(TwoLog(), s, K) != Value(TwoLog(), |TwoLog()|, K)
  {
    AtTwoIsSound();
    TwoValues(K);
    LoweredCut(TwoLog(), AT_TWO, TakePush(1, false), K);
    LoweredNoCapture(TwoLog(), AT_TWO, TakePush(1, false), K);
  }

  /** So does the purge of a dead ticket, cut at the same place. */
  lemma PurgeLosesTable()
    ensures var taken := Step(TwoLog(), Step(TwoLog(), AT_TWO, Begin(true)), TakePurge(false));
            && taken.phase.Draining?
            && var s := Step(TwoLog(), taken, Save(true));
               && s.cursor == |TwoLog()| && !IsCapture(s.flash, K)
               && AfterCut(TwoLog(), s, K) != Value(TwoLog(), |TwoLog()|, K)
  {
    AtTwoIsSound();
    TwoValues(K);
    LoweredCut(TwoLog(), AT_TWO, TakePurge(false), K);
    LoweredNoCapture(TwoLog(), AT_TWO, TakePurge(false), K);
  }

  lemma LoweredNoCapture(log: Log, s: State, e: Event, k: Slot)
    requires Numbered(log) && s.phase.Idle? && !IsCapture(s.b.table, k)
    requires e == TakePurge(false) || (e.TakePush? && !e.busy && 0 < e.n <= |log| && log[e.n - 1].op.kind.ReplaceAll?)
    ensures var taken := Step(log, Step(log, s, Begin(true)), e);
            && taken.phase.Draining? && taken.cursor == s.cursor && taken.b.changed
            && !IsCapture(Step(log, taken, Save(true)).flash, k)
  {
    hide Took, IsCapture;
    var began := Step(log, s, Begin(true));
    LoweredTo(log, began, e);
    TookNoCapture(log, began, e, k);
  }

  lemma TookNoCapture(log: Log, s: State, e: Event, k: Slot)
    requires s.phase.Draining? && Item(log, e) && Enabled(log, s, e) && !IsCapture(s.b.table, k)
    ensures !IsCapture(Step(log, s, e).b.table, k)
  {
    hide Apply, SampledAfter, Spared, IsCapture;
    NoNewCapture(s.b.table, s.b.pending, OpOf(log, e), AnswerOf(log, e), k);
  }

  /** A boot's reset of the cursor is not checked: when it is lost and the empty table is then saved,
      nothing is left to replay either. */
  lemma LostResetLosesTable()
    ensures var s := Step(TwoLog(), Step(TwoLog(), AT_TWO, BootEmpty(false)), OtherSave);
            s.cursor == |TwoLog()| && AfterCut(TwoLog(), s, K) != Value(TwoLog(), |TwoLog()|, K)
  {
    TwoValues(K);
    var s := Step(TwoLog(), Step(TwoLog(), AT_TWO, BootEmpty(false)), OtherSave);
    assert s.flash == map[];
    ReplayRestores(TwoLog(), Step(TwoLog(), s, PowerCut).b.(held := s.cursor), 2, K);
  }

  /** For any kiosk: a boot that forgets the table, loses the reset and saves leaves a slot right after
      a cut exactly when a later operation speaks of it or the log has it empty at the cursor. */
  lemma LostReset(log: Log, s: State, k: Slot)
    requires Numbered(log) && s.cursor <= |log|
    ensures var saved := Step(log, Step(log, s, BootEmpty(false)), OtherSave);
            && saved.cursor == s.cursor
            && (AfterCut(log, saved, k) == Value(log, |log|, k) <==>
                  Spoken(log, s.cursor, |log|, k) || Value(log, s.cursor, k) == None)
  {
    var saved := Step(log, Step(log, s, BootEmpty(false)), OtherSave);
    ReplayRestores(log, Step(log, saved, PowerCut).b.(held := s.cursor), |log|, k);
  }

  /** A save that fails leaves the window open when it was of a lowered table: the kiosk holds, another
      task then saves, and a cut loses everyone under a cursor that was never lowered. */
  lemma FailedSaveOpensWindow()
    ensures var taken := Step(TwoLog(), Step(TwoLog(), AT_TWO, Begin(true)), TakePurge(false));
            && taken.phase.Draining?
            && var s := Step(TwoLog(), Step(TwoLog(), taken, Save(false)), OtherSave);
               && s.phase.Idle? && s.b.gapped && s.flashAt < s.cursor == |TwoLog()| && !IsCapture(s.flash, K)
               && AfterCut(TwoLog(), s, K) != Value(TwoLog(), |TwoLog()|, K)
  {
    hide Value, AfterCut, Spoken;
    TwoValues(K);
    FailedPurge();
    CutExactly(TwoLog(), PURGED, K);
    NothingSpoken();
  }

  const PURGED := AT_TWO.(b := Batch(map[], map[], 0, true, true), flash := map[], flashAt := 0, flashTop := 0, at := 0, top := 0,
                          started := 2, taken := [0])

  lemma FailedPurge()
    ensures var taken := Step(TwoLog(), Step(TwoLog(), AT_TWO, Begin(true)), TakePurge(false));
            && taken.phase.Draining?
            && Step(TwoLog(), Step(TwoLog(), taken, Save(false)), OtherSave) == PURGED
  {
    var began := Step(TwoLog(), AT_TWO, Begin(true));
    PurgeEmpties(began.b.table, {}, map[], Answer(false, false));
    assert Apply(began.b.table, map[], PURGE, Answer(false, false)) == Effect(Applied, map[], map[]);
    assert Spared(began.b.table, PURGE, Answer(false, false)) == {};
  }

  lemma NothingSpoken()
    ensures forall k :: !Spoken(TwoLog(), 2, 2, k)
  {
  }

  /** A sample of an enrolment under way that another task has saved outlives a cut as a template no
      log knows: the sample carries no mark, and the boot keeps it. */
  lemma SampleOutlivesCut()
    ensures var s := Step([], Step([], FRESH, Sample(K, 3)), OtherSave);
            && s.cursor <= s.flashAt && !IsCapture(s.flash, K) && !Forward([], s, PowerCut, K)
            && AfterCut([], s, K) == Some(3) && Value([], 0, K) == None
  {
    var s := Step([], Step([], FRESH, Sample(K, 3)), OtherSave);
    assert s.flash == map[K := Record(3, false)] && s.flashSampled == {K};
    assert Pushes([], 0, 0) == [] && Ready([], 0, 0) == [];
    assert Value([], 0, K) == None;
  }

  /** A retake that drops the server's template of the old bank, saved and then cut: the template does
      not come back. */
  lemma RetakeThenCut()
    ensures var s := Step(TwoLog(), Step(TwoLog(), AT_TWO, Drop(K)), OtherSave);
            s.cursor <= s.flashAt && AfterCut(TwoLog(), s, K) != Value(TwoLog(), |TwoLog()|, K)
  {
    hide Value, AfterCut, Spoken;
    TwoValues(K);
    DropThenCut(TwoLog(), AT_TWO, K);
    NothingSpoken();
  }

  /** A push spared for a capture flash does not have, in a batch that saves nothing: after a cut and a
      replay the slot is right exactly when a later operation speaks of it or flash had the pushed
      face already. */
  lemma SparedThenCut(log: Log, s: State, n: nat)
    requires SparedInTurn(log, s, n) && !s.b.changed && s.started < n && !IsCapture(s.flash, log[n - 1].op.slot)
    ensures var op := log[n - 1].op;
            var taken := Step(log, s, TakePush(n, false));
            && taken.phase.Draining?
            && var end := Step(log, Step(log, taken, Save(true)), MoveCursor(true));
               && end.cursor == n
               && (AfterCut(log, end, op.slot) == Value(log, |log|, op.slot) <==>
                     Spoken(log, n, |log|, op.slot) || Face(s.flash, op.slot) == Some(op.face))
  {
    hide Value, AfterCut, Spoken, Took;
    var op := log[n - 1].op;
    SparedTaken(log, s, n);
    var end := Step(log, Step(log, Step(log, s, TakePush(n, false)), Save(true)), MoveCursor(true));
    PushValue(log, s, n);
    CutExactly(log, end, op.slot);
  }

  /** A usable push with room, its turn come, whose slot holds a capture. */
  ghost predicate SparedInTurn(log: Log, s: State, n: nat) {
    && Numbered(log) && 0 < n <= |log| && s.phase.Draining? && !s.b.gapped && s.b.held == n - 1
    && log[n - 1].op.kind.Upsert? && log[n - 1].op.usable && !log[n - 1].refused
    && IsCapture(s.b.table, log[n - 1].op.slot)
  }

  lemma SparedTaken(log: Log, s: State, n: nat)
    requires SparedInTurn(log, s, n)
    ensures Numbered(log) && 0 < n <= |log| && s.phase.Draining?
    ensures var taken := Step(log, s, TakePush(n, false));
            && taken.phase.Draining? && taken.b.held == n && taken.b.changed == s.b.changed && taken.started == s.started
            && taken.flash == s.flash && taken.cursor == s.cursor
  {
    hide SampledAfter;
  }

  lemma PushValue(log: Log, s: State, n: nat)
    requires SparedInTurn(log, s, n)
    ensures Value(log, n, log[n - 1].op.slot) == Some(log[n - 1].op.face)
  {
    assert Touches(log[n - 1], log[n - 1].op.slot);
  }
}
