/**
 The A/B slots of the model pack and the trial a new one stands (firmware/main/app_boot.c:
 load_models, settle_models; firmware/main/app_tasks.c: arm_spare_models,
 report_update_outcome), over every run with power cuts anywhere and any NVS call failing.
 */
module ModelTrial {
  import opened Wrappers

  /** last_ota_result, as far as the models go. */
  datatype Mark = Other | OnTrial | Kept | Undone

  /** Where the device is.  `Undoing` has decided against the pack, `Reverting` has tried to write
      that down; `Running` is past app_boot. */
  datatype Stage = Loading | Settling | Keeping | Undoing | Reverting | Running | Activating

  /** Counted for the proof: trial marks written, undo restarts begun and finished, NVS calls that
      failed where the code does not look, trials settled by a mark, trials armed over by another. */
  datatype State = State(mark: Mark, active: bool, serving: bool, stage: Stage,
                         arms: nat, begun: nat, undone: nat, faults: nat, judgedOk: bool, faultsAtBoot: nat,
                         settled: nat, again: nat)

  datatype Event =
    | Load(readOk: bool, loads: bool)
    | Settle(readOk: bool, up: bool, answers: bool)
    | WriteKept(ok: bool)
    | WriteUndone(ok: bool)
    | Revert(ok: bool)                    // and restart
    | Arm(ok: bool)                       // the trial mark
    | Activate(ok: bool)                  // the slot, and restart if it took
    | Report(ok: bool)                    // an undo is told to the server and its mark cleared
    | PowerCut

  predicate Enabled(s: State, e: Event) {
    match e
    case Load(_, _) => s.stage.Loading?
    case Settle(_, _, _) => s.stage.Settling?
    case WriteKept(_) => s.stage.Keeping?
    case WriteUndone(_) => s.stage.Undoing?
    case Revert(_) => s.stage.Reverting?
    case Arm(_) => s.stage.Running?
    case Activate(_) => s.stage.Activating?
    case Report(_) => s.stage.Running? || s.stage.Activating?
    case PowerCut => true
  }

  /** A boot: the slot NVS names is the one served, and nothing is judged yet. */
  function Boot(s: State): State {
    s.(stage := Loading, serving := s.active, judgedOk := false, faultsAtBoot := s.faults)
  }

  function Step(s: State, e: Event): State
    requires Enabled(s, e)
  {
    match e
    case Load(readOk, loads) =>
      // A mark that cannot be read counts as none: the device runs blind.
      if loads || !readOk || !s.mark.OnTrial? then s.(stage := Settling) else s.(stage := Undoing)
    case Settle(readOk, up, answers) =>
      if !readOk then s.(stage := Running, faults := s.faults + 1)
      else if !s.mark.OnTrial? then s.(stage := Running)
      else if up && answers then s.(stage := Keeping, judgedOk := true)
      else s.(stage := Undoing)
    case WriteKept(ok) =>
      if ok then s.(mark := Kept, stage := Running, settled := s.settled + 1) else s.(stage := Running, faults := s.faults + 1)
    case WriteUndone(ok) =>
      if ok then s.(mark := Undone, stage := Reverting, begun := s.begun + 1, settled := s.settled + 1)
      else s.(stage := Reverting, begun := s.begun + 1, faults := s.faults + 1)
    case Revert(ok) => Boot(s.(active := if ok then !s.active else s.active, undone := s.undone + 1))
    case Arm(ok) =>
      if ok then s.(mark := OnTrial, stage := Activating, arms := s.arms + 1, again := s.again + OnTrialCount(s)) else s
    case Activate(ok) => if ok then Boot(s.(active := !s.serving)) else s.(stage := Running)
    case Report(ok) => if s.mark.Undone? && ok then s.(mark := Other) else s
    case PowerCut => Boot(s)
  }

  function OnTrialCount(s: State): nat { if s.mark.OnTrial? then 1 else 0 }

  /** No undo without a trial mark to spend: each one takes a mark down, or an NVS write failed. */
  ghost predicate Paid(s: State) {
    && s.undone <= s.begun
    && (s.stage.Reverting? ==> s.undone < s.begun)
    && s.begun + OnTrialCount(s) <= s.arms + s.faults
    && ((s.stage.Undoing? || s.stage.Keeping?) ==> s.mark.OnTrial?)
    && (s.stage.Keeping? ==> s.judgedOk)
    && s.faultsAtBoot <= s.faults
  }

  lemma StepPaid(s: State, e: Event)
    requires Paid(s) && Enabled(s, e)
    ensures Paid(Step(s, e))
  {
  }

  function Run(s: State, events: seq<Event>): Option<State>
    decreases |events|
  {
    if events == [] then Some(s)
    else if Enabled(s, events[0]) then Run(Step(s, events[0]), events[1..])
    else None
  }

  /** A device off the line, or off any release before trials existed. */
  function Fresh(active: bool, mark: Mark): State
    requires !mark.OnTrial?
  {
    State(mark, active, active, Loading, 0, 0, 0, 0, false, 0, 0, 0)
  }

  lemma {:induction false} RunPaid(s: State, events: seq<Event>)
    requires Paid(s) && Run(s, events).Some?
    ensures Paid(Run(s, events).value)
    decreases |events|
  {
    if events != [] {
      StepPaid(s, events[0]);
      RunPaid(Step(s, events[0]), events[1..]);
    }
  }

  /** No reboot loop: however power fails, undo restarts never outnumber the packs armed and the
      NVS calls that failed. */
  lemma UndosBounded(active: bool, mark: Mark, events: seq<Event>)
    requires !mark.OnTrial? && Run(Fresh(active, mark), events).Some?
    ensures var s := Run(Fresh(active, mark), events).value;
            s.undone <= s.begun && s.begun + OnTrialCount(s) <= s.arms + s.faults
  {
    RunPaid(Fresh(active, mark), events);
  }

  /** From any point on, with nothing armed and no NVS call failing, at most one more undo begins,
      and none if no pack is on trial. */
  lemma {:induction false} AtMostOneMore(s: State, events: seq<Event>)
    requires Run(s, events).Some?
    requires Run(s, events).value.arms == s.arms && Run(s, events).value.faults == s.faults
    ensures Run(s, events).value.begun + OnTrialCount(Run(s, events).value)
         <= s.begun + (if s.mark.OnTrial? || s.stage.Undoing? then 1 else 0)
    decreases |events|
  {
    if events != [] {
      CountsRise(Step(s, events[0]), events[1..]);
      AtMostOneMore(Step(s, events[0]), events[1..]);
    }
  }

  lemma {:induction false} CountsRise(s: State, events: seq<Event>)
    requires Run(s, events).Some?
    ensures s.arms <= Run(s, events).value.arms && s.faults <= Run(s, events).value.faults
    decreases |events|
  {
    if events != [] { CountsRise(Step(s, events[0]), events[1..]); }
  }

  /** The step that reaches the end of app_boot. */
  predicate EndsBoot(s: State, e: Event)
    requires Enabled(s, e)
  {
    (e.Settle? || e.WriteKept?) && Step(s, e).stage.Running?
  }

  /** No pack on trial reaches the end of app_boot unjudged: there the trial mark is gone, and it is
      Kept only where vision was up and every branch answered; unless NVS failed in this very boot. */
  lemma JudgedByTheEnd(active: bool, mark: Mark, events: seq<Event>, e: Event)
    requires !mark.OnTrial? && Run(Fresh(active, mark), events).Some?
    requires Enabled(Run(Fresh(active, mark), events).value, e) && EndsBoot(Run(Fresh(active, mark), events).value, e)
    ensures var s := Run(Fresh(active, mark), events).value;
            var s' := Step(s, e);
            && (s'.mark.OnTrial? ==> s'.faultsAtBoot < s'.faults)
            && (s.mark.OnTrial? && s'.mark != OnTrial ==> s'.mark.Kept? && s'.judgedOk)
  {
    RunPaid(Fresh(active, mark), events);
  }

  /** What each step does to the sum of trials. */
  lemma StepAddsUp(s: State, e: Event)
    requires Paid(s) && Enabled(s, e) && s.arms == s.settled + s.again + OnTrialCount(s)
    ensures Step(s, e).arms == Step(s, e).settled + Step(s, e).again + OnTrialCount(Step(s, e))
  {
  }

  lemma {:induction false} RunAddsUp(s: State, events: seq<Event>)
    requires Paid(s) && s.arms == s.settled + s.again + OnTrialCount(s) && Run(s, events).Some?
    ensures var r := Run(s, events).value; r.arms == r.settled + r.again + OnTrialCount(r)
    decreases |events|
  {
    hide Paid, Step, OnTrialCount;
    if events != [] {
      StepPaid(s, events[0]);
      StepAddsUp(s, events[0]);
      RunAddsUp(Step(s, events[0]), events[1..]);
    }
  }

  lemma FreshAddsUp(active: bool, mark: Mark)
    requires !mark.OnTrial?
    ensures var s := Fresh(active, mark); Paid(s) && s.arms == s.settled + s.again + OnTrialCount(s)
  {
  }

  /** No trial is forgotten: over every run, each pack armed was kept or undone by a mark, armed over
      by a later pack, or is the one on trial.  Telling the server of an undo settles nothing. */
  lemma TrialsAddUp(active: bool, mark: Mark, events: seq<Event>)
    requires !mark.OnTrial? && Run(Fresh(active, mark), events).Some?
    ensures var s := Run(Fresh(active, mark), events).value;
            s.arms == s.settled + s.again + OnTrialCount(s)
  {
    hide Run, Step, Paid, Fresh, OnTrialCount;
    FreshAddsUp(active, mark);
    RunAddsUp(Fresh(active, mark), events);
  }

  /** The only step that leaves the trial otherwise writes Undone, and it is taken only on a pack that
      would not load, brought no vision up, or gave a wrong answer. */
  lemma TrialEndsTwoWays(s: State, e: Event)
    requires Enabled(s, e) && s.mark.OnTrial? && Step(s, e).mark != OnTrial
    ensures (e == WriteKept(true) && Step(s, e).mark.Kept?) || (e == WriteUndone(true) && Step(s, e).mark.Undone?)
  {
  }

  /** What decides: a pack on trial is on its way to be kept exactly when vision was up and every branch
      answered just now, and on its way out exactly when it would not load, or was found wanting. */
  lemma DecidedJustNow(s: State, e: Event)
    requires Enabled(s, e)
    ensures Step(s, e).stage.Keeping? <==> s.mark.OnTrial? && e == Settle(true, true, true)
    ensures Step(s, e).stage.Undoing? <==>
      s.mark.OnTrial? && (e == Load(true, false) || (e.Settle? && e.readOk && !(e.up && e.answers)))
  {
  }

  /** Over every run: where a kept mark is about to be written, the last thing that happened was that
      check, and the pack was on trial. */
  lemma {:induction false} KeptOnEvidence(s: State, events: seq<Event>)
    requires Run(s, events).Some? && events != []
    ensures Run(s, events).value.stage.Keeping? <==>
      events[|events| - 1] == Settle(true, true, true) && MarkAfter(s.mark, events).OnTrial?
    decreases |events|
  {
    var next := Step(s, events[0]);
    if |events| > 1 {
      KeptOnEvidence(next, events[1..]);
    } else {
      DecidedJustNow(s, events[0]);
      assert events[1..] == [];
    }
  }

  /** The mark as the NVS writes that took leave it: one a write, and cleared where an undo is told. */
  function MarkAfter(mark: Mark, events: seq<Event>): Mark
    decreases |events|
  {
    if events == [] then mark
    else
      var e := events[0];
      var next := if e == Arm(true) then OnTrial else if e == WriteKept(true) then Kept else if e == WriteUndone(true) then Undone
                  else if e == Report(true) && mark == Undone then Other else mark;
      MarkAfter(next, events[1..])
  }

  lemma {:induction false} MarkIsLast(s: State, events: seq<Event>)
    requires Run(s, events).Some?
    ensures Run(s, events).value.mark == MarkAfter(s.mark, events)
    decreases |events|
  {
    if events != [] { MarkIsLast(Step(s, events[0]), events[1..]); }
  }

  // ----- which slot is served ------------------------------------------------------------------

  /** The NVS writes of the active slot that took, each to the slot then not in use. */
  function Flips(events: seq<Event>): nat {
    if events == [] then 0
    else (if events[0] == Activate(true) || events[0] == Revert(true) then 1 else 0) + Flips(events[1..])
  }

  /** Over every run the slot served is the one NVS names, and it is the first slot or the other one
      as the writes that took were even or odd in number. */
  lemma {:induction false} ServedByCount(s: State, events: seq<Event>)
    requires s.serving == s.active && Run(s, events).Some?
    ensures var r := Run(s, events).value;
            r.serving == r.active && (r.active == s.active <==> Flips(events) % 2 == 0)
    decreases |events|
  {
    if events != [] { ServedByCount(Step(s, events[0]), events[1..]); }
  }

  lemma {:induction false} FlipsSplit(a: seq<Event>, b: seq<Event>)
    ensures Flips(a + b) == Flips(a) + Flips(b)
    decreases |a|
  {
    if a == [] {
      assert a + b == b;
    } else {
      assert (a + b)[1..] == a[1..] + b;
      FlipsSplit(a[1..], b);
    }
  }

  /** An undo goes back to the slot served when the pack was armed if and only if the writes of the
      slot that took since were odd in number: the pack was activated, and every revert but this one
      undone again. */
  lemma UndoGoesBack(s: State, since: seq<Event>)
    requires s.serving == s.active && Run(s, [Arm(true)] + since + [Revert(true)]).Some?
    ensures var r := Run(s, [Arm(true)] + since + [Revert(true)]).value;
            r.serving == s.serving <==> Flips(since) % 2 == 1
  {
    var events := [Arm(true)] + since + [Revert(true)];
    ServedByCount(s, events);
    FlipsSplit([Arm(true)] + since, [Revert(true)]);
    FlipsSplit([Arm(true)], since);
    assert [Arm(true)][1..] == [] && [Revert(true)][1..] == [];
  }

  /** Where they are even it does not: power fails between the mark and the slot, the old pack stands
      the trial meant for the new one, and its undo puts the new one in unmarked and untried. */
  lemma UntriedPackServes()
    ensures var events := [Load(true, true), Settle(true, true, true), Arm(true), PowerCut, Load(true, true), Settle(true, false, false),
                           WriteUndone(true), Revert(true)];
            var r := Run(Fresh(false, Other), events);
            r.Some? && r.value.serving && r.value.mark.Undone? && r.value.faults == 0
  {
    hide Run, Step, Enabled;
    var last := [Load(true, true), Settle(true, false, false), WriteUndone(true), Revert(true)];
    CutAfterMark(last);
    OldPackUndone();
    assert [Load(true, true), Settle(true, true, true), Arm(true), PowerCut] + last
        == [Load(true, true), Settle(true, true, true), Arm(true), PowerCut, Load(true, true), Settle(true, false, false),
            WriteUndone(true), Revert(true)];
  }

  const MARKED := State(OnTrial, false, false, Loading, 1, 0, 0, 0, false, 0, 0, 0)

  lemma CutAfterMark(rest: seq<Event>)
    ensures Run(Fresh(false, Other), [Load(true, true), Settle(true, true, true), Arm(true), PowerCut] + rest) == Run(MARKED, rest)
  {
    hide Run;
    RunFour(Fresh(false, Other), Load(true, true), Settle(true, true, true), Arm(true), PowerCut, rest);
  }

  lemma OldPackUndone()
    ensures var r := Run(MARKED, [Load(true, true), Settle(true, false, false), WriteUndone(true), Revert(true)]);
            r.Some? && r.value.serving && r.value.mark.Undone? && r.value.faults == 0
  {
    hide Run;
    var last := [Load(true, true), Settle(true, false, false), WriteUndone(true), Revert(true)];
    RunFour(MARKED, Load(true, true), Settle(true, false, false), WriteUndone(true), Revert(true), []);
    assert last + [] == last;
    RunNone(Step(Step(Step(Step(MARKED, Load(true, true)), Settle(true, false, false)), WriteUndone(true)), Revert(true)));
  }

  lemma RunNone(s: State)
    ensures Run(s, []) == Some(s)
  {
  }

  /** The bound is met: one pack armed, its undo lost once, and the restart comes twice. */
  lemma LostUndoMarkRestartsAgain()
    ensures var events := [Load(true, true), Settle(true, true, true), Arm(true), Activate(true), Load(true, false), WriteUndone(false),
                           Revert(true), Load(true, false), WriteUndone(true), Revert(true)];
            var r := Run(Fresh(false, Other), events);
            r.Some? && r.value.arms == 1 && r.value.faults == 1 && r.value.undone == 2
  {
    hide Run, Step, Enabled;
    var last := [WriteUndone(true), Revert(true)];
    var undo := [Load(true, false), WriteUndone(false), Revert(true), Load(true, false)] + last;
    ArmedOnce(undo);
    UndoLost(last);
    UndoTaken();
    assert [Load(true, true), Settle(true, true, true), Arm(true), Activate(true)] + undo
        == [Load(true, true), Settle(true, true, true), Arm(true), Activate(true), Load(true, false), WriteUndone(false),
            Revert(true), Load(true, false), WriteUndone(true), Revert(true)];
  }

  const ARMED := State(OnTrial, true, true, Loading, 1, 0, 0, 0, false, 0, 0, 0)

  const LOST := State(OnTrial, false, false, Undoing, 1, 1, 1, 1, false, 1, 0, 0)

  lemma ArmedOnce(rest: seq<Event>)
    ensures Run(Fresh(false, Other), [Load(true, true), Settle(true, true, true), Arm(true), Activate(true)] + rest) == Run(ARMED, rest)
  {
    hide Run;
    RunFour(Fresh(false, Other), Load(true, true), Settle(true, true, true), Arm(true), Activate(true), rest);
  }

  lemma UndoLost(rest: seq<Event>)
    ensures Run(ARMED, [Load(true, false), WriteUndone(false), Revert(true), Load(true, false)] + rest) == Run(LOST, rest)
  {
    hide Run;
    RunFour(ARMED, Load(true, false), WriteUndone(false), Revert(true), Load(true, false), rest);
  }

  lemma UndoTaken()
    ensures var r := Run(LOST, [WriteUndone(true), Revert(true)]);
            r.Some? && r.value.arms == 1 && r.value.faults == 1 && r.value.undone == 2
  {
    hide Run;
    RunTwo(LOST, WriteUndone(true), Revert(true));
  }

  lemma RunTwo(s: State, a: Event, b: Event)
    requires Enabled(s, a) && Enabled(Step(s, a), b)
    ensures Run(s, [a, b]) == Some(Step(Step(s, a), b))
  {
    assert [a, b][1..] == [b] && [b][1..] == [];
    assert Run(Step(s, a), [b]) == Some(Step(Step(s, a), b));
  }

  lemma RunFour(s: State, a: Event, b: Event, c: Event, d: Event, rest: seq<Event>)
    requires Enabled(s, a) && Enabled(Step(s, a), b) && Enabled(Step(Step(s, a), b), c)
    requires Enabled(Step(Step(Step(s, a), b), c), d)
    ensures Run(s, [a, b, c, d] + rest) == Run(Step(Step(Step(Step(s, a), b), c), d), rest)
  {
    hide Step, Enabled;
    RunOne(s, a, [b, c, d] + rest);
    RunOne(Step(s, a), b, [c, d] + rest);
    RunOne(Step(Step(s, a), b), c, [d] + rest);
    RunOne(Step(Step(Step(s, a), b), c), d, rest);
    assert [a, b, c, d] + rest == [a] + ([b, c, d] + rest) && [b, c, d] + rest == [b] + ([c, d] + rest);
    assert [c, d] + rest == [c] + ([d] + rest);
  }

  lemma RunOne(s: State, e: Event, rest: seq<Event>)
    requires Enabled(s, e)
    ensures Run(s, [e] + rest) == Run(Step(s, e), rest)
  {
    assert ([e] + rest)[1..] == rest;
  }
}
