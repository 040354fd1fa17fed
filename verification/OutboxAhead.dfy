/**
 What a tab's flush may still post (frontend/lib/outbox.ts, flush; frontend/lib/api.ts, the re-send after a
 401): an agreed drop does not reach a flush already walking its list.
 */
module OutboxAhead {
  import opened Wrappers
  import opened Outbox
  import opened OutboxRuns

  // ----- posts that leave ---------------------------------------------------------------------------------

  /** A post of this key leaves the tab with this step, the first time or again after a 401. */
  predicate PostsNow(s: State, e: Event, t: nat, key: string)
    requires Enabled(s, e)
  {
    (e.Attach? || e.Reattach?) && e.t == t && Ticket(s, t, e.way).Some? && s.tabs[t].flush.entry.key == key
  }

  predicate PostsKey(s: State, events: seq<Event>, t: nat, key: string)
    decreases |events|
  {
    events != [] && Enabled(s, events[0])
    && (PostsNow(s, events[0], t, key) || PostsKey(Step(s, events[0]), events[1..], t, key))
  }

  ghost predicate KeyIn(list: seq<Filed>, key: string) {
    exists e :: e in list && e.key == key
  }

  // ----- while the account here stays ------------------------------------------------------------------------

  /** Anything but a change of account in this tab, the end of it, or another flush of it; a sign-in or
      a renewal that answers with the account already here is none. */
  predicate Stays(s: State, t: nat, e: Event)
    requires t in s.tabs && Enabled(s, e)
  {
    match e
    case Open(u) => u != t
    case Crash(u) => u != t
    case SignIn(u, user) => u != t || s.tabs[t].user == Some(user)
    case SignOut(u) => u != t
    case TakeUp(u) => u != t || s.tabs[t].renewed == Some(s.tabs[t].user)
    case StartFlush(u) => u != t
    case ListQueue(u) => u != t
    case Attach(u, way) => u != t || !way.Renewal? || s.tabs[t].renewed == Some(s.tabs[t].user)
    case Reattach(u, way) => u != t || !way.Renewal? || s.tabs[t].renewed == Some(s.tabs[t].user)
    case _ => true
  }

  predicate AllStay(s: State, t: nat, events: seq<Event>)
    decreases |events|
  {
    t in s.tabs && (events == [] || (Enabled(s, events[0]) && Stays(s, t, events[0]) && AllStay(Step(s, events[0]), t, events[1..])))
  }

  /** A session of the account here is still to be had for a request sent again. */
  predicate Renewable(tab: TabState) {
    tab.user.Some? && (tab.renewed.None? || tab.renewed == Some(tab.user))
  }

  /** The entries the flush may yet post, if the account here stays: what it has checked and not
      posted or may send again, and the rest of its list if that account passes the check. */
  function Ahead(tab: TabState): seq<Filed> {
    match tab.flush
    case Resting => []
    case Reading => []
    case Sending(me, _, queue) => if tab.user == Some(me) then queue else []
    case Checked(me, _, entry, queue) => (if tab.user.Some? then [entry] else []) + if tab.user == Some(me) then queue else []
    case Posting(me, _, entry, queue, retried, _) =>
      (if !retried && Renewable(tab) then [entry] else []) + if tab.user == Some(me) then queue else []
    case Dropping(me, _, _, queue, _) => if tab.user == Some(me) then queue else []
  }

  lemma ElseStays(s: State, e: Event, t: nat)
    requires t in s.tabs && Enabled(s, e) && Stays(s, t, e) && !OfFlush(t, e)
    ensures t in Step(s, e).tabs
    ensures forall o :: o in Ahead(Step(s, e).tabs[t]) ==> o in Ahead(s.tabs[t])
  {
    hide Filing, Mine, OnePerKey, HasRow, InOrder, NoRepeats;
    if Elsewhere(e, t) { ElsewhereSame(s, e, t); }
  }

  predicate Leaving(t: nat, e: Event) { (e.Attach? || e.Reattach?) && e.t == t }

  lemma LeavingAhead(s: State, e: Event, t: nat)
    requires t in s.tabs && Enabled(s, e) && Stays(s, t, e) && Leaving(t, e)
    ensures t in Step(s, e).tabs
    ensures forall o :: o in Ahead(Step(s, e).tabs[t]) ==> o in Ahead(s.tabs[t])
    ensures Ticket(s, t, e.way).Some? ==> s.tabs[t].flush.entry in Ahead(s.tabs[t])
  {
  }

  lemma MovesAhead(s: State, e: Event, t: nat)
    requires t in s.tabs && Enabled(s, e) && Stays(s, t, e) && OfFlush(t, e) && !Leaving(t, e)
    ensures t in Step(s, e).tabs
    ensures forall o :: o in Ahead(Step(s, e).tabs[t]) ==> o in Ahead(s.tabs[t])
  {
    hide Mine, OnePerKey, HasRow, InOrder, NoRepeats, Renewable;
  }

  lemma StaysAhead(s: State, e: Event, t: nat, key: string)
    requires t in s.tabs && Enabled(s, e) && Stays(s, t, e)
    ensures t in Step(s, e).tabs
    ensures KeyIn(Ahead(Step(s, e).tabs[t]), key) ==> KeyIn(Ahead(s.tabs[t]), key)
    ensures PostsNow(s, e, t, key) ==> KeyIn(Ahead(s.tabs[t]), key)
  {
    hide Step, Enabled, Stays, Ticket, Ahead;
    if Leaving(t, e) { LeavingAhead(s, e, t); } else if OfFlush(t, e) { MovesAhead(s, e, t); } else { ElseStays(s, e, t); }
  }

  lemma {:induction false} PostedWasAhead(s: State, events: seq<Event>, t: nat, key: string)
    requires AllStay(s, t, events) && PostsKey(s, events, t, key)
    ensures KeyIn(Ahead(s.tabs[t]), key)
    decreases |events|
  {
    hide Step, Enabled, PostsNow, Stays, KeyIn, Ahead;
    StaysAhead(s, events[0], t, key);
    if !PostsNow(s, events[0], t, key) { PostedWasAhead(Step(s, events[0]), events[1..], t, key); }
  }

  // ----- and what is ahead can be posted ------------------------------------------------------------------------

  lemma {:induction false} StayThen(s: State, t: nat, a: seq<Event>, b: seq<Event>, key: string)
    requires AllStay(s, t, a) && Run(s, a).Some? && AllStay(Run(s, a).value, t, b)
    ensures AllStay(s, t, a + b) && Run(s, a + b) == Run(Run(s, a).value, b)
    ensures PostsKey(Run(s, a).value, b, t, key) ==> PostsKey(s, a + b, t, key)
    decreases |a|
  {
    hide Step, Enabled, Stays, PostsNow;
    if a == [] {
      assert a + b == b;
    } else {
      assert (a + b)[0] == a[0] && (a + b)[1..] == a[1..] + b;
      StayThen(Step(s, a[0]), t, a[1..], b, key);
    }
  }

  lemma {:induction false} StayRuns(s: State, t: nat, events: seq<Event>)
    requires AllStay(s, t, events)
    ensures Run(s, events).Some? && t in Run(s, events).value.tabs
    decreases |events|
  {
    hide Step, Enabled, Stays;
    if events != [] { StayRuns(Step(s, events[0]), t, events[1..]); }
  }

  lemma StayOne(s: State, t: nat, e: Event, key: string)
    requires t in s.tabs && Enabled(s, e) && Stays(s, t, e) && t in Step(s, e).tabs
    ensures AllStay(s, t, [e]) && Run(s, [e]) == Some(Step(s, e))
    ensures PostsNow(s, e, t, key) ==> PostsKey(s, [e], t, key)
  {
    hide Step, Enabled, Stays, PostsNow;
    assert [e][1..] == [];
    assert Run(Step(s, e), []) == Some(Step(s, e));
  }

  lemma FreshTab(s: State) returns (u: nat)
    ensures u !in s.tabs
  {
    u := BeyondAll(s.tabs.Keys);
  }

  lemma {:induction false} BeyondAll(ts: set<nat>) returns (u: nat)
    ensures forall t :: t in ts ==> t < u
    decreases |ts|
  {
    if ts == {} {
      u := 0;
    } else {
      var t :| t in ts;
      var v := BeyondAll(ts - {t});
      u := if v <= t then t + 1 else v;
      forall o | o in ts ensures o < u { if o != t { assert o in ts - {t}; } }
    }
  }

  function StepsLeft(f: Flush): nat {
    match f
    case Resting => 0
    case Reading => 0
    case Sending(_, _, queue) => 4 * |queue|
    case Checked(_, _, _, queue) => 4 * |queue| + 3
    case Posting(_, _, _, queue, _, _) => 4 * |queue| + 2
    case Dropping(_, _, _, queue, _) => 4 * |queue| + 1
  }

  /** Events that post the key, or bring the flush nearer to it. */
  ghost predicate Nearer(s: State, t: nat, key: string, events: seq<Event>) {
    && AllStay(s, t, events) && Run(s, events).Some?
    && var s' := Run(s, events).value;
       && t in s'.tabs && t in s.tabs
       && (PostsKey(s, events, t, key) || (KeyIn(Ahead(s'.tabs[t]), key) && StepsLeft(s'.tabs[t].flush) < StepsLeft(s.tabs[t].flush)))
  }

  lemma CheckStep(s: State, t: nat, key: string)
    requires t in s.tabs && KeyIn(Ahead(s.tabs[t]), key) && s.tabs[t].flush.Sending?
    ensures Enabled(s, Check(t)) && Stays(s, t, Check(t))
    ensures var s' := Step(s, Check(t));
            t in s'.tabs && KeyIn(Ahead(s'.tabs[t]), key) && StepsLeft(s'.tabs[t].flush) < StepsLeft(s.tabs[t].flush)
  {
    hide InOrder, NoRepeats;
    var f := s.tabs[t].flush;
    var e :| e in Ahead(s.tabs[t]) && e.key == key;
    assert f.queue == [f.queue[0]] + f.queue[1..];
    assert e in Ahead(Step(s, Check(t)).tabs[t]);
  }

  lemma AttachStep(s: State, t: nat, key: string)
    requires t in s.tabs && KeyIn(Ahead(s.tabs[t]), key) && s.tabs[t].flush.Checked?
    ensures Enabled(s, Attach(t, InMemory)) && Stays(s, t, Attach(t, InMemory))
    ensures var s' := Step(s, Attach(t, InMemory));
            && t in s'.tabs
            && (PostsNow(s, Attach(t, InMemory), t, key)
                || (KeyIn(Ahead(s'.tabs[t]), key) && StepsLeft(s'.tabs[t].flush) < StepsLeft(s.tabs[t].flush)))
  {
    hide InOrder, NoRepeats;
    var e :| e in Ahead(s.tabs[t]) && e.key == key;
    if !PostsNow(s, Attach(t, InMemory), t, key) { assert e in Ahead(Step(s, Attach(t, InMemory)).tabs[t]); }
  }

  lemma DropStep(s: State, t: nat, key: string)
    requires t in s.tabs && KeyIn(Ahead(s.tabs[t]), key) && s.tabs[t].flush.Dropping?
    ensures var e := Event.Dropped(t, true, true);
            && Enabled(s, e) && Stays(s, t, e)
            && var s' := Step(s, e);
               t in s'.tabs && KeyIn(Ahead(s'.tabs[t]), key) && StepsLeft(s'.tabs[t].flush) < StepsLeft(s.tabs[t].flush)
  {
    hide InOrder, NoRepeats;
    var e :| e in Ahead(s.tabs[t]) && e.key == key;
    assert e in Ahead(Step(s, Event.Dropped(t, true, true)).tabs[t]);
  }

  /** The rest of the list is ahead of a request that got its answer. */
  predicate QueueAhead(tab: TabState) {
    tab.flush.Posting? && tab.user == Some(tab.flush.me)
  }

  lemma AnsweredStep(s: State, t: nat, key: string)
    requires t in s.tabs && QueueAhead(s.tabs[t]) && KeyIn(s.tabs[t].flush.queue, key)
    requires s.tabs[t].flush.ticketed || s.tabs[t].flush.retried
    ensures var e := if s.tabs[t].flush.ticketed then Answer(t, false) else Unauthorized(t);
            && Enabled(s, e) && Stays(s, t, e)
            && var s' := Step(s, e);
               t in s'.tabs && KeyIn(Ahead(s'.tabs[t]), key) && StepsLeft(s'.tabs[t].flush) < StepsLeft(s.tabs[t].flush)
  {
    hide InOrder, NoRepeats, HasRow;
  }

  /** A request that left without a ticket is given up once this browser has signed out elsewhere. */
  lemma GivenUpSteps(s: State, t: nat, key: string, u: nat)
    requires t in s.tabs && QueueAhead(s.tabs[t]) && KeyIn(s.tabs[t].flush.queue, key) && !s.tabs[t].flush.retried
    requires u !in s.tabs
    ensures Enabled(s, Open(u)) && Stays(s, t, Open(u))
    ensures var o := Step(s, Open(u));
            && t in o.tabs && Enabled(o, SignOut(u)) && Stays(o, t, SignOut(u))
            && var n := Step(o, SignOut(u));
               && t in n.tabs && Enabled(n, Reattach(t, SignedOut)) && Stays(n, t, Reattach(t, SignedOut))
               && var s' := Step(n, Reattach(t, SignedOut));
                  t in s'.tabs && KeyIn(Ahead(s'.tabs[t]), key) && StepsLeft(s'.tabs[t].flush) < StepsLeft(s.tabs[t].flush)
  {
    hide InOrder, NoRepeats, HasRow, KeyIn;
    var n := Step(Step(s, Open(u)), SignOut(u));
    assert n.tabs[t] == s.tabs[t] && n.cookie == None;
  }

  lemma GivesUp(s: State, t: nat, key: string) returns (events: seq<Event>)
    requires t in s.tabs && QueueAhead(s.tabs[t]) && KeyIn(s.tabs[t].flush.queue, key) && !s.tabs[t].flush.retried
    ensures Nearer(s, t, key, events)
  {
    hide Step, Enabled, Stays, PostsNow, KeyIn, Ahead, QueueAhead, StepsLeft;
    var u := FreshTab(s);
    GivenUpSteps(s, t, key, u);
    var o := Step(s, Open(u));
    var n := Step(o, SignOut(u));
    StayOne(s, t, Open(u), key);
    StayOne(o, t, SignOut(u), key);
    StayOne(n, t, Reattach(t, SignedOut), key);
    StayThen(o, t, [SignOut(u)], [Reattach(t, SignedOut)], key);
    StayThen(s, t, [Open(u)], [SignOut(u)] + [Reattach(t, SignedOut)], key);
    events := [Open(u)] + ([SignOut(u)] + [Reattach(t, SignedOut)]);
  }

  /** A request still to be sent again: the account here signs in again, or elsewhere, and the renewal
      answers with it. */
  lemma RenewSteps(s: State, t: nat, user: string)
    requires t in s.tabs && s.tabs[t].flush.Posting? && s.tabs[t].user == Some(user) && s.tabs[t].renewed.None?
    ensures Enabled(s, SignIn(t, user)) && Stays(s, t, SignIn(t, user))
    ensures var o := Step(s, SignIn(t, user));
            && t in o.tabs && Enabled(o, Renew(t, true)) && Stays(o, t, Renew(t, true))
            && var n := Step(o, Renew(t, true));
               t in n.tabs && n.tabs[t] == s.tabs[t].(renewed := Some(Some(user)))
  {
    hide InOrder, NoRepeats, HasRow;
  }

  lemma ResendStep(s: State, t: nat, key: string)
    requires t in s.tabs && s.tabs[t].flush.Posting? && !s.tabs[t].flush.retried && s.tabs[t].flush.entry.key == key
    requires s.tabs[t].user.Some? && s.tabs[t].renewed == Some(s.tabs[t].user)
    ensures var e := Reattach(t, Renewal);
            Enabled(s, e) && Stays(s, t, e) && PostsNow(s, e, t, key) && t in Step(s, e).tabs
  {
    hide InOrder, NoRepeats, HasRow;
  }

  lemma Resends(s: State, t: nat, key: string) returns (events: seq<Event>)
    requires t in s.tabs && s.tabs[t].flush.Posting? && !s.tabs[t].flush.retried && s.tabs[t].flush.entry.key == key
    requires Renewable(s.tabs[t])
    ensures AllStay(s, t, events) && Run(s, events).Some? && t in Run(s, events).value.tabs && PostsKey(s, events, t, key)
  {
    hide Step, Enabled, Stays, PostsNow, PostsKey;
    var again := Reattach(t, Renewal);
    if s.tabs[t].renewed.Some? {
      ResendStep(s, t, key);
      StayOne(s, t, again, key);
      events := [again];
    } else {
      var user := s.tabs[t].user.value;
      RenewSteps(s, t, user);
      var o := Step(s, SignIn(t, user));
      var n := Step(o, Renew(t, true));
      ResendStep(n, t, key);
      StayOne(s, t, SignIn(t, user), key);
      StayOne(o, t, Renew(t, true), key);
      StayOne(n, t, again, key);
      StayThen(o, t, [Renew(t, true)], [again], key);
      StayThen(s, t, [SignIn(t, user)], [Renew(t, true)] + [again], key);
      events := [SignIn(t, user)] + ([Renew(t, true)] + [again]);
    }
    StayRuns(s, t, events);
  }

  lemma OneNearer(s: State, t: nat, key: string, e: Event)
    requires t in s.tabs && Enabled(s, e) && Stays(s, t, e)
    requires var s' := Step(s, e);
             t in s'.tabs && (PostsNow(s, e, t, key)
                              || (KeyIn(Ahead(s'.tabs[t]), key) && StepsLeft(s'.tabs[t].flush) < StepsLeft(s.tabs[t].flush)))
    ensures Nearer(s, t, key, [e])
  {
    hide Step, Enabled, Stays, PostsNow, KeyIn, Ahead, StepsLeft;
    StayOne(s, t, e, key);
  }

  lemma PostingAhead(tab: TabState, key: string)
    requires tab.flush.Posting? && KeyIn(Ahead(tab), key)
    ensures (!tab.flush.retried && Renewable(tab) && tab.flush.entry.key == key) || (QueueAhead(tab) && KeyIn(tab.flush.queue, key))
  {
    var e :| e in Ahead(tab) && e.key == key;
  }

  lemma NoneAhead(tab: TabState, key: string)
    requires tab.flush.Resting? || tab.flush.Reading?
    ensures !KeyIn(Ahead(tab), key)
  {
  }

  lemma Advance(s: State, t: nat, key: string) returns (events: seq<Event>)
    requires t in s.tabs && KeyIn(Ahead(s.tabs[t]), key)
    ensures Nearer(s, t, key, events)
  {
    hide Step, Enabled, Stays, PostsNow, PostsKey, KeyIn, Ahead, QueueAhead, Renewable, StepsLeft;
    var f := s.tabs[t].flush;
    match f
    case Resting => NoneAhead(s.tabs[t], key);
    case Reading => NoneAhead(s.tabs[t], key);
    case Sending(_, _, _) =>
      CheckStep(s, t, key);
      OneNearer(s, t, key, Check(t));
      return [Check(t)];
    case Checked(_, _, _, _) =>
      AttachStep(s, t, key);
      OneNearer(s, t, key, Attach(t, InMemory));
      return [Attach(t, InMemory)];
    case Posting(_, _, _, _, _, _) =>
      PostingAhead(s.tabs[t], key);
      if !f.retried && Renewable(s.tabs[t]) && f.entry.key == key {
        events := Resends(s, t, key);
      } else if f.ticketed || f.retried {
        AnsweredStep(s, t, key);
        var e := if f.ticketed then Answer(t, false) else Unauthorized(t);
        OneNearer(s, t, key, e);
        events := [e];
      } else {
        events := GivesUp(s, t, key);
      }
    case Dropping(_, _, _, _, _) =>
      DropStep(s, t, key);
      OneNearer(s, t, key, Event.Dropped(t, true, true));
      return [Event.Dropped(t, true, true)];
  }

  lemma {:induction false} DrivesOn(s: State, t: nat, key: string) returns (events: seq<Event>)
    requires t in s.tabs && KeyIn(Ahead(s.tabs[t]), key)
    ensures AllStay(s, t, events) && Run(s, events).Some? && PostsKey(s, events, t, key)
    decreases StepsLeft(s.tabs[t].flush)
  {
    hide Step, Enabled, Stays, KeyIn, PostsNow, StepsLeft, Ahead, AllStay, PostsKey;
    var first := Advance(s, t, key);
    if PostsKey(s, first, t, key) {
      events := first;
    } else {
      var rest := DrivesOn(Run(s, first).value, t, key);
      StayThen(s, t, first, rest, key);
      events := first + rest;
    }
  }

  /** Over every run: an entry its owner agreed to drop, and that is gone from the store, can still be
      posted by a tab's flush with the account here staying as it is, if and only if that flush has it
      ahead: listed and to be checked with that account signed in, checked and not yet sent, or sent
      once, not yet answered, and to be sent again on a renewal of that account. */
  lemma DroppedIsPostedIff(s: State, events: seq<Event>, t: nat, key: string)
    requires Before(s) && Run(s, events).Some?
    requires var r := Run(s, events).value; t in r.tabs && key in r.agreed && key !in r.store
    ensures var r := Run(s, events).value;
            (exists later :: AllStay(r, t, later) && PostsKey(r, later, t, key)) <==> KeyIn(Ahead(r.tabs[t]), key)
  {
    hide Run, PostsKey, KeyIn, Ahead, AllStay;
    var r := Run(s, events).value;
    if KeyIn(Ahead(r.tabs[t]), key) {
      var later := DrivesOn(r, t, key);
    }
    if later :| AllStay(r, t, later) && PostsKey(r, later, t, key) {
      PostedWasAhead(r, later, t, key);
    }
  }

  // ----- whatever the accounts do ------------------------------------------------------------------------------

  /** Anything but the end of this tab or another flush of it. */
  predicate SameFlush(t: nat, e: Event) {
    match e
    case Open(u) => u != t
    case Crash(u) => u != t
    case StartFlush(u) => u != t
    case ListQueue(u) => u != t
    case _ => true
  }

  predicate AllSame(s: State, t: nat, events: seq<Event>)
    decreases |events|
  {
    t in s.tabs && (events == [] || (Enabled(s, events[0]) && SameFlush(t, events[0]) && AllSame(Step(s, events[0]), t, events[1..])))
  }

  /** What the flush lists and has not posted, or may send again. */
  function Listed(f: Flush): seq<Filed> {
    match f
    case Resting => []
    case Reading => []
    case Sending(_, _, queue) => queue
    case Checked(_, _, entry, queue) => [entry] + queue
    case Posting(_, _, entry, queue, retried, _) => (if retried then [] else [entry]) + queue
    case Dropping(_, _, _, queue, _) => queue
  }

  lemma SameListed(s: State, e: Event, t: nat, key: string)
    requires t in s.tabs && Enabled(s, e) && SameFlush(t, e)
    ensures t in Step(s, e).tabs
    ensures KeyIn(Listed(Step(s, e).tabs[t].flush), key) ==> KeyIn(Listed(s.tabs[t].flush), key)
    ensures PostsNow(s, e, t, key) ==> KeyIn(Listed(s.tabs[t].flush), key)
  {
    hide Step, Enabled, Ticket, SameFlush, Listed;
    if Leaving(t, e) { LeavingListed(s, e, t); } else if OfFlush(t, e) { OwnListed(s, e, t); } else { ElseListed(s, e, t); }
  }

  lemma LeavingListed(s: State, e: Event, t: nat)
    requires t in s.tabs && Enabled(s, e) && Leaving(t, e)
    ensures t in Step(s, e).tabs
    ensures forall o :: o in Listed(Step(s, e).tabs[t].flush) ==> o in Listed(s.tabs[t].flush)
    ensures s.tabs[t].flush.entry in Listed(s.tabs[t].flush)
  {
  }

  lemma OwnListed(s: State, e: Event, t: nat)
    requires t in s.tabs && Enabled(s, e) && SameFlush(t, e) && OfFlush(t, e) && !Leaving(t, e)
    ensures t in Step(s, e).tabs
    ensures forall o :: o in Listed(Step(s, e).tabs[t].flush) ==> o in Listed(s.tabs[t].flush)
  {
    hide Mine, OnePerKey, HasRow, InOrder, NoRepeats;
  }

  lemma ElseListed(s: State, e: Event, t: nat)
    requires t in s.tabs && Enabled(s, e) && SameFlush(t, e) && !OfFlush(t, e)
    ensures t in Step(s, e).tabs && Step(s, e).tabs[t].flush == s.tabs[t].flush
  {
    hide Filing, Mine, OnePerKey, HasRow, InOrder, NoRepeats;
    if Elsewhere(e, t) { ElsewhereSame(s, e, t); }
  }

  lemma {:induction false} PostedWasListed(s: State, events: seq<Event>, t: nat, key: string)
    requires AllSame(s, t, events) && PostsKey(s, events, t, key)
    ensures KeyIn(Listed(s.tabs[t].flush), key)
    decreases |events|
  {
    hide Step, Enabled, PostsNow, SameFlush, KeyIn, Listed;
    SameListed(s, events[0], t, key);
    if !PostsNow(s, events[0], t, key) { PostedWasListed(Step(s, events[0]), events[1..], t, key); }
  }

  lemma {:induction false} StayIsSame(s: State, t: nat, events: seq<Event>)
    requires AllStay(s, t, events)
    ensures AllSame(s, t, events)
    decreases |events|
  {
    hide Step, Enabled;
    if events != [] { StayIsSame(Step(s, events[0]), t, events[1..]); }
  }

  lemma {:induction false} SameThen(s: State, t: nat, a: seq<Event>, b: seq<Event>, key: string)
    requires AllSame(s, t, a) && Run(s, a).Some? && AllSame(Run(s, a).value, t, b) && PostsKey(Run(s, a).value, b, t, key)
    ensures AllSame(s, t, a + b) && PostsKey(s, a + b, t, key)
    decreases |a|
  {
    hide Step, Enabled, SameFlush, PostsNow;
    if a == [] {
      assert a + b == b;
    } else {
      assert (a + b)[0] == a[0] && (a + b)[1..] == a[1..] + b;
      SameThen(Step(s, a[0]), t, a[1..], b, key);
    }
  }

  lemma SignsBackIn(s: State, t: nat, key: string) returns (events: seq<Event>)
    requires t in s.tabs && KeyIn(Listed(s.tabs[t].flush), key)
    ensures AllSame(s, t, events) && Run(s, events).Some?
    ensures var r := Run(s, events).value; t in r.tabs && KeyIn(Ahead(r.tabs[t]), key)
  {
    hide Step, Enabled, KeyIn, Ahead, Listed;
    ListedHasOwner(s.tabs[t].flush, key);
    var me := s.tabs[t].flush.me;
    SignInAhead(s, t, me, key);
    if s.tabs[t].renewed.Some? {
      TakeUpFlush(s, t);
      var o := Step(s, TakeUp(t));
      SignInAhead(o, t, me, key);
      SameOne(o, t, SignIn(t, me));
      SameMore(s, t, TakeUp(t), [SignIn(t, me)]);
      events := [TakeUp(t)] + [SignIn(t, me)];
    } else {
      SameOne(s, t, SignIn(t, me));
      events := [SignIn(t, me)];
    }
  }

  lemma SameOne(s: State, t: nat, e: Event)
    requires t in s.tabs && Enabled(s, e) && SameFlush(t, e) && t in Step(s, e).tabs
    ensures AllSame(s, t, [e]) && Run(s, [e]) == Some(Step(s, e))
  {
    hide Step, Enabled, SameFlush;
    assert [e][1..] == [];
    assert Run(Step(s, e), []) == Some(Step(s, e));
  }

  lemma SameMore(s: State, t: nat, e: Event, rest: seq<Event>)
    requires t in s.tabs && Enabled(s, e) && SameFlush(t, e) && AllSame(Step(s, e), t, rest)
    ensures AllSame(s, t, [e] + rest) && Run(s, [e] + rest) == Run(Step(s, e), rest)
  {
    hide Step, Enabled, SameFlush;
    assert ([e] + rest)[1..] == rest;
  }

  lemma ListedHasOwner(f: Flush, key: string)
    requires KeyIn(Listed(f), key)
    ensures !f.Resting? && !f.Reading?
  {
  }

  lemma TakeUpFlush(s: State, t: nat)
    requires t in s.tabs && s.tabs[t].renewed.Some?
    ensures Enabled(s, TakeUp(t))
    ensures var o := Step(s, TakeUp(t)); t in o.tabs && o.tabs[t].flush == s.tabs[t].flush && o.tabs[t].renewed.None?
  {
  }

  lemma SignInAhead(s: State, t: nat, me: string, key: string)
    requires t in s.tabs && !s.tabs[t].flush.Resting? && !s.tabs[t].flush.Reading? && s.tabs[t].flush.me == me
    requires KeyIn(Listed(s.tabs[t].flush), key)
    ensures Enabled(s, SignIn(t, me)) && t in Step(s, SignIn(t, me)).tabs
    ensures s.tabs[t].renewed.None? ==> KeyIn(Ahead(Step(s, SignIn(t, me)).tabs[t]), key)
  {
    var o := Step(s, SignIn(t, me));
    if s.tabs[t].renewed.None? { assert Ahead(o.tabs[t]) == Listed(s.tabs[t].flush); }
  }

  /** The same whatever the accounts do: short of the end of the tab or another flush of it, a dropped
      entry can still be posted if and only if the flush lists it and has not posted it, or may send
      it again. */
  lemma DroppedIsPostedEver(s: State, events: seq<Event>, t: nat, key: string)
    requires Before(s) && Run(s, events).Some?
    requires var r := Run(s, events).value; t in r.tabs && key in r.agreed && key !in r.store
    ensures var r := Run(s, events).value;
            (exists later :: AllSame(r, t, later) && PostsKey(r, later, t, key)) <==> KeyIn(Listed(r.tabs[t].flush), key)
  {
    hide Run, PostsKey, KeyIn, Ahead, Listed, AllStay, AllSame;
    var r := Run(s, events).value;
    if KeyIn(Listed(r.tabs[t].flush), key) {
      var back := SignsBackIn(r, t, key);
      var later := DrivesOn(Run(r, back).value, t, key);
      StayIsSame(Run(r, back).value, t, later);
      SameThen(r, t, back, later, key);
    }
    if later :| AllSame(r, t, later) && PostsKey(r, later, t, key) {
      PostedWasListed(r, later, t, key);
    }
  }
}
