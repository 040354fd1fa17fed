/**
 Runs of the outbox from an empty device that show where it falls short (frontend/lib/outbox.ts,
 frontend/lib/api.ts).
 */
module OutboxCases {
  import opened Wrappers
  import opened Outbox
  import opened OutboxRuns

  lemma RunOn(s: State, events: seq<Event>, e: Event)
    requires Run(s, events).Some? && Enabled(Run(s, events).value, e)
    ensures Run(s, events + [e]) == Some(Step(Run(s, events).value, e))
    decreases |events|
  {
    if events == [] {
      assert [] + [e] == [e] && [e][1..] == [];
      assert Run(Step(s, e), []) == Some(Step(s, e));
    } else {
      assert (events + [e])[1..] == events[1..] + [e];
      RunOn(Step(s, events[0]), events[1..], e);
    }
  }

  lemma RunFour(s: State, a: Event, b: Event, c: Event, d: Event)
    requires Enabled(s, a) && Enabled(Step(s, a), b) && Enabled(Step(Step(s, a), b), c)
    requires Enabled(Step(Step(Step(s, a), b), c), d)
    ensures Run(s, [a, b, c, d]) == Some(Step(Step(Step(Step(s, a), b), c), d))
  {
    hide Step, Enabled, Run;
    RunNone(s);
    RunOn(s, [], a);
    assert [] + [a] == [a];
    RunOn(s, [a], b);
    assert [a] + [b] == [a, b];
    RunOn(s, [a, b], c);
    assert [a, b] + [c] == [a, b, c];
    RunOn(s, [a, b, c], d);
    assert [a, b, c] + [d] == [a, b, c, d];
  }

  lemma RunNone(s: State)
    ensures Run(s, []) == Some(s)
  {
  }

  lemma {:induction false} RunThen(s: State, events: seq<Event>, later: seq<Event>)
    requires Run(s, events).Some?
    ensures Run(s, events + later) == Run(Run(s, events).value, later)
    decreases |events|
  {
    hide Step, Enabled;
    if events == [] {
      assert events + later == later;
    } else {
      assert (events + later)[1..] == events[1..] + later;
      RunThen(Step(s, events[0]), events[1..], later);
    }
  }

  const E := Filed("k", 0, 0, Some("A"))

  const EMPTY := State(map[], map[], None, [], map[], {}, {}, {}, {}, {}, {})

  const FILED := State(map["k" := E], map[0 := TabState(Some("A"), [E], Resting, None)], Some("A"), [], map["k" := E],
                       {}, {}, {}, {}, {}, {})

  const CHECKED := FILED.(tabs := map[0 := TabState(Some("A"), [E], Checked("A", [E], E, []), None)])

  /** A signs in and files an entry nobody could send. */
  const FILES := [Open(0), SignIn(0, "A"), Keep(0, "k", 0, 0), Refresh(0, [E])]

  lemma FilesRun()
    ensures Before(EMPTY) && Run(EMPTY, FILES) == Some(FILED)
  {
    hide Run;
    var s2 := Step(Step(EMPTY, Open(0)), SignIn(0, "A"));
    assert s2 == EMPTY.(tabs := map[0 := TabState(Some("A"), [], Resting, None)], cookie := Some("A"));
    var s3 := Step(s2, Keep(0, "k", 0, 0));
    assert s3 == s2.(store := map["k" := E], filed := map["k" := E]);
    OneInOrder();
    assert Enabled(s3, Refresh(0, [E]));
    assert Step(s3, Refresh(0, [E])) == FILED;
    RunFour(EMPTY, Open(0), SignIn(0, "A"), Keep(0, "k", 0, 0), Refresh(0, [E]));
  }

  lemma OneInOrder()
    ensures InOrder([E]) && NoRepeats([E])
  {
  }

  lemma MineOne()
    ensures Mine([E], Some("A")) == [E] && Keys(Mine([E], Some("A"))) == {"k"}
  {
    assert [E][1..] == [] && Mine([], Some("A")) == [];
  }

  /** The owner check passes for A; B signs in elsewhere on this device; the renewal that A's old
      session needs answers with B's; and A's entry becomes B's row. */
  lemma AnothersRow()
    ensures var flush := [StartFlush(0), ListQueue(0), Check(0), Open(1)];
            var stray := [SignIn(1, "B"), Renew(0, true), Attach(0, Renewal), ServerFiles(Post("k", "B"))];
            var r := Run(EMPTY, FILES + (flush + stray));
            && Before(EMPTY) && r.Some? && r.value.rows == [Post("k", "B")] && "k" in r.value.filed && r.value.filed["k"].owner == Some("A")
            && !NoneStrays(EMPTY, FILES + (flush + stray))
  {
    hide Run, NoneStrays;
    var flush := [StartFlush(0), ListQueue(0), Check(0), Open(1)];
    var stray := [SignIn(1, "B"), Renew(0, true), Attach(0, Renewal), ServerFiles(Post("k", "B"))];
    FilesRun();
    RunThen(EMPTY, FILES, flush + stray);
    FlushRun();
    RunThen(FILED, flush, stray);
    StrayRun();
    RunStrays(EMPTY, FILES + (flush + stray));
  }

  const OTHER_OPEN := CHECKED.(tabs := CHECKED.tabs[1 := TabState(None, [], Resting, None)])

  const LISTED := FILED.(tabs := map[0 := TabState(Some("A"), [E], Sending("A", [], [E]), None)])

  lemma ListSteps()
    ensures Enabled(FILED, StartFlush(0)) && Enabled(Step(FILED, StartFlush(0)), ListQueue(0))
    ensures Step(Step(FILED, StartFlush(0)), ListQueue(0)) == LISTED
  {
    hide Mine, Keys;
    MineOne();
    var reading := Step(FILED, StartFlush(0));
    assert reading.tabs == map[0 := TabState(Some("A"), [E], Reading, None)];
  }

  lemma CheckStep()
    ensures Enabled(LISTED, Check(0)) && Step(LISTED, Check(0)) == CHECKED
  {
    assert [] + [E] == [E] && [E][1..] == [];
    assert Step(LISTED, Check(0)).tabs == CHECKED.tabs;
  }

  lemma FlushRun()
    ensures Run(FILED, [StartFlush(0), ListQueue(0), Check(0), Open(1)]) == Some(OTHER_OPEN)
  {
    hide Run;
    ListSteps();
    CheckStep();
    OpenStep();
    hide Step;
    RunFour(FILED, StartFlush(0), ListQueue(0), Check(0), Open(1));
  }

  lemma OpenStep()
    ensures Enabled(CHECKED, Open(1)) && Step(CHECKED, Open(1)) == OTHER_OPEN
  {
  }

  const RENEWED := OTHER_OPEN.(tabs := map[0 := CHECKED.tabs[0].(renewed := Some(Some("B"))), 1 := TabState(Some("B"), [], Resting, None)],
                               cookie := Some("B"))

  lemma RenewSteps()
    ensures Enabled(OTHER_OPEN, SignIn(1, "B")) && Enabled(Step(OTHER_OPEN, SignIn(1, "B")), Renew(0, true))
    ensures Step(Step(OTHER_OPEN, SignIn(1, "B")), Renew(0, true)) == RENEWED
  {
    var s := Step(OTHER_OPEN, SignIn(1, "B"));
    assert s.tabs[0] == CHECKED.tabs[0];
    assert Step(s, Renew(0, true)).tabs == RENEWED.tabs;
  }

  lemma StraySteps()
    ensures var p := Post("k", "B");
            && Enabled(RENEWED, Attach(0, Renewal)) && Enabled(Step(RENEWED, Attach(0, Renewal)), ServerFiles(p))
            && var r := Step(Step(RENEWED, Attach(0, Renewal)), ServerFiles(p));
               r.rows == [p] && r.filed == map["k" := E] && p in r.strayed
  {
    var s := Step(RENEWED, Attach(0, Renewal));
    assert Post("k", "B") in s.posts && Post("k", "B") in s.strayed && s.rows == [];
    assert !HasRow([], "k");
  }

  lemma StrayRun()
    ensures var r := Run(OTHER_OPEN, [SignIn(1, "B"), Renew(0, true), Attach(0, Renewal), ServerFiles(Post("k", "B"))]);
            && r.Some? && r.value.rows == [Post("k", "B")] && r.value.filed == map["k" := E] && r.value.strayed != {}
  {
    hide Run, Enabled;
    RenewSteps();
    StraySteps();
    hide Step;
    RunFour(OTHER_OPEN, SignIn(1, "B"), Renew(0, true), Attach(0, Renewal), ServerFiles(Post("k", "B")));
  }

  // ----- dropped without the server's word -----------------------------------------------------------------

  const FLUSHED := [StartFlush(0), ListQueue(0), Check(0)]

  lemma FlushedRun()
    ensures Run(FILED, FLUSHED) == Some(CHECKED)
  {
    hide Run;
    ListSteps();
    CheckStep();
    hide Step;
    RunNone(FILED);
    RunOn(FILED, [], StartFlush(0));
    assert [] + [StartFlush(0)] == [StartFlush(0)];
    RunOn(FILED, [StartFlush(0)], ListQueue(0));
    assert [StartFlush(0)] + [ListQueue(0)] == [StartFlush(0), ListQueue(0)];
    RunOn(FILED, [StartFlush(0), ListQueue(0)], Check(0));
    assert [StartFlush(0), ListQueue(0)] + [Check(0)] == FLUSHED;
  }

  lemma CheckedRun(later: seq<Event>)
    ensures Run(EMPTY, FILES + (FLUSHED + later)) == Run(CHECKED, later)
  {
    hide Run;
    FilesRun();
    FlushedRun();
    RunThen(EMPTY, FILES, FLUSHED + later);
    RunThen(FILED, FLUSHED, later);
  }

  /** The entry is gone, nobody's row, and the server never said a word on it. */
  predicate Unfiled(s: State, key: string) {
    && key in s.filed && key !in s.store && s.rows == [] && key !in s.accepted && key !in s.refused && key !in s.agreed
    && key in s.stood
  }

  /** An expired session that cannot be renewed: the request leaves without a ticket, the 401 stands
      as the server's answer, and the entry leaves the device without ever having been filed. */
  lemma UnfiledIsDropped()
    ensures var tries := [Renew(0, false), Attach(0, Renewal), Renew(0, false), Reattach(0, Renewal)];
            var r := Run(EMPTY, FILES + (FLUSHED + (tries + [Event.Dropped(0, true, true)])));
            Before(EMPTY) && r.Some? && Unfiled(r.value, "k") && r.value.posts == {}
  {
    hide Run;
    var tries := [Renew(0, false), Attach(0, Renewal), Renew(0, false), Reattach(0, Renewal)];
    FilesRun();
    CheckedRun(tries + [Event.Dropped(0, true, true)]);
    NoTicketSteps();
    RefusedSteps();
    LastDrop(ANSWERED);
    hide Step, Enabled;
    RunFour(CHECKED, Renew(0, false), Attach(0, Renewal), Renew(0, false), Reattach(0, Renewal));
    RunOn(CHECKED, tries, Event.Dropped(0, true, true));
  }

  /** A session the server no longer takes, and a network lost just for the renewal: the entry was
      posted once, and is dropped on the 401 all the same. */
  lemma PostedIsDropped()
    ensures var tries := [Attach(0, InMemory), Renew(0, false), Reattach(0, Renewal), Event.Dropped(0, true, true)];
            var r := Run(EMPTY, FILES + (FLUSHED + tries));
            Before(EMPTY) && r.Some? && Unfiled(r.value, "k") && r.value.posts == {Post("k", "A")}
  {
    hide Run;
    FilesRun();
    CheckedRun([Attach(0, InMemory), Renew(0, false), Reattach(0, Renewal), Event.Dropped(0, true, true)]);
    PostSteps();
    PostRefusedSteps();
    LastDrop(POSTED_ANSWERED);
    hide Step, Enabled;
    RunFour(CHECKED, Attach(0, InMemory), Renew(0, false), Reattach(0, Renewal), Event.Dropped(0, true, true));
  }

  const UNSIGNED := CHECKED.(tabs := map[0 := TabState(None, [E], Posting("A", [E], E, [], false, false), None)])

  const ANSWERED := UNSIGNED.(tabs := map[0 := TabState(None, [E], Dropping("A", [E], E, [], false), None)], stood := {"k"})

  const POSTED := CHECKED.(tabs := map[0 := TabState(Some("A"), [E], Posting("A", [E], E, [], false, true), None)],
                           posts := {Post("k", "A")})

  const POSTED_ANSWERED := ANSWERED.(posts := {Post("k", "A")})

  lemma NoTicketSteps()
    ensures Enabled(CHECKED, Renew(0, false)) && Enabled(Step(CHECKED, Renew(0, false)), Attach(0, Renewal))
    ensures Step(Step(CHECKED, Renew(0, false)), Attach(0, Renewal)) == UNSIGNED
  {
    var s := Step(CHECKED, Renew(0, false));
    assert s.tabs[0] == CHECKED.tabs[0].(renewed := Some(None));
    assert Step(s, Attach(0, Renewal)).tabs == UNSIGNED.tabs;
  }

  lemma RefusedSteps()
    ensures Enabled(UNSIGNED, Renew(0, false)) && Enabled(Step(UNSIGNED, Renew(0, false)), Reattach(0, Renewal))
    ensures Step(Step(UNSIGNED, Renew(0, false)), Reattach(0, Renewal)) == ANSWERED
  {
    var s := Step(UNSIGNED, Renew(0, false));
    assert s.tabs[0] == UNSIGNED.tabs[0].(renewed := Some(None));
    assert Step(s, Reattach(0, Renewal)).tabs == ANSWERED.tabs;
  }

  lemma PostSteps()
    ensures Enabled(CHECKED, Attach(0, InMemory)) && Step(CHECKED, Attach(0, InMemory)) == POSTED
  {
    assert Step(CHECKED, Attach(0, InMemory)).tabs == POSTED.tabs;
  }

  lemma PostRefusedSteps()
    ensures Enabled(POSTED, Renew(0, false)) && Enabled(Step(POSTED, Renew(0, false)), Reattach(0, Renewal))
    ensures Step(Step(POSTED, Renew(0, false)), Reattach(0, Renewal)) == POSTED_ANSWERED
  {
    var s := Step(POSTED, Renew(0, false));
    assert s.tabs[0] == POSTED.tabs[0].(renewed := Some(None));
    assert Step(s, Reattach(0, Renewal)).tabs == POSTED_ANSWERED.tabs;
  }

  lemma LastDrop(s: State)
    requires s == ANSWERED || s == POSTED_ANSWERED
    ensures Enabled(s, Event.Dropped(0, true, true))
    ensures Unfiled(Step(s, Event.Dropped(0, true, true)), "k") && Step(s, Event.Dropped(0, true, true)).posts == s.posts
  {
  }

  // ----- posted after it was dropped -----------------------------------------------------------------------

  /** Posted once, unanswered, when its owner agrees to drop it: the 401 comes, the renewal answers
      with the same account, and the dropped entry is sent again and gets its row. */
  lemma DroppedIsResent()
    ensures var drop := [Attach(0, InMemory), Agree(0, "A"), Event.DropOwned(0, "k"), Renew(0, true)];
            var r := Run(EMPTY, FILES + (FLUSHED + (drop + [Reattach(0, Renewal), ServerFiles(Post("k", "A"))])));
            && Before(EMPTY) && r.Some? && "k" in r.value.agreed && "k" !in r.value.store
            && r.value.rows == [Post("k", "A")]
  {
    hide Run;
    var drop := [Attach(0, InMemory), Agree(0, "A"), Event.DropOwned(0, "k"), Renew(0, true)];
    var last := [Reattach(0, Renewal), ServerFiles(Post("k", "A"))];
    FilesRun();
    CheckedRun(drop + last);
    PostSteps();
    AgreeSteps();
    ResendSteps();
    hide Step, Enabled;
    RunFour(CHECKED, Attach(0, InMemory), Agree(0, "A"), Event.DropOwned(0, "k"), Renew(0, true));
    RunThen(CHECKED, drop, last);
    RunNone(AWAITING);
    RunOn(AWAITING, [], Reattach(0, Renewal));
    assert [] + [Reattach(0, Renewal)] == [Reattach(0, Renewal)];
    RunOn(AWAITING, [Reattach(0, Renewal)], ServerFiles(Post("k", "A")));
    assert [Reattach(0, Renewal)] + [ServerFiles(Post("k", "A"))] == last;
  }

  const UNSTORED := POSTED.(store := map[], agreed := {"k"})

  const AWAITING := UNSTORED.(tabs := map[0 := POSTED.tabs[0].(renewed := Some(Some("A")))])

  lemma AgreeSteps()
    ensures Enabled(POSTED, Agree(0, "A")) && Enabled(Step(POSTED, Agree(0, "A")), Event.DropOwned(0, "k"))
    ensures Step(Step(POSTED, Agree(0, "A")), Event.DropOwned(0, "k")) == UNSTORED
    ensures Enabled(UNSTORED, Renew(0, true)) && Step(UNSTORED, Renew(0, true)) == AWAITING
  {
    hide Mine, Keys;
    MineOne();
    assert Step(POSTED, Agree(0, "A")) == POSTED.(agreed := {"k"});
    assert Step(UNSTORED, Renew(0, true)).tabs == AWAITING.tabs;
  }

  lemma ResendSteps()
    ensures var p := Post("k", "A");
            && Enabled(AWAITING, Reattach(0, Renewal)) && Enabled(Step(AWAITING, Reattach(0, Renewal)), ServerFiles(p))
            && var r := Step(Step(AWAITING, Reattach(0, Renewal)), ServerFiles(p));
               r.rows == [p] && r.agreed == {"k"} && r.store == map[]
  {
    var s := Step(AWAITING, Reattach(0, Renewal));
    assert Post("k", "A") in s.posts && s.rows == [];
    assert !HasRow([], "k");
  }

  /** A flush has listed the entry when its owner agrees to drop it; it leaves the store, and then the
      device. */
  lemma DroppedCanStillBePosted()
    ensures var drop := [StartFlush(0), ListQueue(0), Agree(0, "A"), Event.DropOwned(0, "k")];
            var r := Run(EMPTY, FILES + (drop + [Check(0), Attach(0, InMemory)]));
            && Before(EMPTY) && r.Some? && "k" in r.value.agreed && "k" !in r.value.store && Post("k", "A") in r.value.posts
  {
    hide Run;
    var drop := [StartFlush(0), ListQueue(0), Agree(0, "A"), Event.DropOwned(0, "k")];
    FilesRun();
    RunThen(EMPTY, FILES, drop + [Check(0), Attach(0, InMemory)]);
    DropRun();
    RunThen(FILED, drop, [Check(0), Attach(0, InMemory)]);
    PostRun();
  }

  const DROPPED := LISTED.(store := map[], agreed := {"k"})

  lemma DropRun()
    ensures Run(FILED, [StartFlush(0), ListQueue(0), Agree(0, "A"), Event.DropOwned(0, "k")]) == Some(DROPPED)
  {
    hide Run, Mine, Keys;
    MineOne();
    ListSteps();
    var agreed := Step(LISTED, Agree(0, "A"));
    assert agreed == LISTED.(agreed := {"k"});
    assert Step(agreed, Event.DropOwned(0, "k")) == DROPPED;
    RunFour(FILED, StartFlush(0), ListQueue(0), Agree(0, "A"), Event.DropOwned(0, "k"));
  }

  lemma PostRun()
    ensures var r := Run(DROPPED, [Check(0), Attach(0, InMemory)]);
            r.Some? && "k" in r.value.agreed && "k" !in r.value.store && Post("k", "A") in r.value.posts
  {
    hide Run;
    var checked := Step(DROPPED, Check(0));
    assert checked.tabs[0].flush.Checked? && checked.tabs[0].user == Some("A");
    RunNone(DROPPED);
    RunOn(DROPPED, [], Check(0));
    assert [] + [Check(0)] == [Check(0)];
    RunOn(DROPPED, [Check(0)], Attach(0, InMemory));
    assert [Check(0)] + [Attach(0, InMemory)] == [Check(0), Attach(0, InMemory)];
  }
}
