/**
 The depth-1 hand-off of camera frames between cam_task and ai_task (firmware/main/app_tasks.c,
 offer_to_ai and the two task loops): every interleaving of their queue calls and releases.
 */
module FrameHandoff {
  import opened Wrappers

  /** A grabbed buffer; `serial` says how many were grabbed before it. */
  datatype Frame = Frame(buffer: nat, serial: nat)

  /** Where cam_task stands: between frames, showing one, holding the one it displaced as well, or
      about to send. */
  datatype Cam = Between | Showing(frame: Frame) | Displacing(frame: Frame, displaced: Frame) | Offering(frame: Frame)

  datatype State = State(pool: set<nat>, cam: Cam, queue: Option<Frame>, ai: Option<Frame>,
                         grabs: nat, lastSeen: int, sendFailed: bool)

  datatype Event =
    | Grab(buffer: nat)
    | CamReceive                          // take back what ai_task has not read
    | CamReleaseDisplaced
    | CamSend
    | AiReceive                           // to look at, or to drain while the models rest
    | AiRelease

  predicate Enabled(s: State, e: Event) {
    match e
    case Grab(b) => s.cam.Between? && b in s.pool
    case CamReceive => s.cam.Showing?
    case CamReleaseDisplaced => s.cam.Displacing?
    case CamSend => s.cam.Offering?
    case AiReceive => s.ai.None? && s.queue.Some?
    case AiRelease => s.ai.Some?
  }

  function Step(s: State, e: Event): State
    requires Enabled(s, e)
  {
    match e
    case Grab(b) => s.(pool := s.pool - {b}, cam := Showing(Frame(b, s.grabs)), grabs := s.grabs + 1)
    case CamReceive =>
      if s.queue.Some? then s.(cam := Displacing(s.cam.frame, s.queue.value), queue := None)
      else s.(cam := Offering(s.cam.frame))
    case CamReleaseDisplaced => s.(pool := s.pool + {s.cam.displaced.buffer}, cam := Offering(s.cam.frame))
    case CamSend =>
      if s.queue.None? then s.(queue := Some(s.cam.frame), cam := Between)
      else s.(pool := s.pool + {s.cam.frame.buffer}, cam := Between, sendFailed := true)
    case AiReceive => s.(ai := s.queue, queue := None, lastSeen := s.queue.value.serial)
    case AiRelease => s.(pool := s.pool + {s.ai.value.buffer}, ai := None)
  }

  /** The buffer an event hands back to the pool. */
  function Released(s: State, e: Event): Option<nat>
    requires Enabled(s, e)
  {
    match e
    case CamReleaseDisplaced => Some(s.cam.displaced.buffer)
    case CamSend => if s.queue.Some? then Some(s.cam.frame.buffer) else None
    case AiRelease => Some(s.ai.value.buffer)
    case _ => None
  }

  function One(yes: bool): nat { if yes then 1 else 0 }

  function CamHolds(c: Cam, b: nat): nat {
    match c
    case Between => 0
    case Showing(f) => One(f.buffer == b)
    case Displacing(f, o) => One(f.buffer == b) + One(o.buffer == b)
    case Offering(f) => One(f.buffer == b)
  }

  function Kept(o: Option<Frame>, b: nat): nat { One(o.Some? && o.value.buffer == b) }

  /** In how many places outside the pool a buffer is. */
  function Out(s: State, b: nat): nat { CamHolds(s.cam, b) + Kept(s.queue, b) + Kept(s.ai, b) }

  /** How many frames are out of the pool. */
  function OutCount(s: State): nat {
    (match s.cam case Between => 0 case Displacing(_, _) => 2 case _ => 1) + One(s.queue.Some?) + One(s.ai.Some?)
  }

  /** No frame cam_task or the queue holds is as old as one ai_task has seen. */
  predicate Newer(s: State) {
    && s.lastSeen < s.grabs
    && (s.queue.Some? ==> s.lastSeen < s.queue.value.serial < s.grabs)
    && (!s.cam.Between? ==> s.lastSeen < s.cam.frame.serial < s.grabs)
    && (!s.cam.Between? && s.queue.Some? ==> s.queue.value.serial < s.cam.frame.serial)
    && (s.cam.Displacing? ==> s.cam.displaced.serial < s.cam.frame.serial)
  }

  ghost predicate Conserved(s: State, buffers: set<nat>) {
    && (forall b: nat :: One(b in s.pool) + Out(s, b) == One(b in buffers))
    && |s.pool| + OutCount(s) == |buffers|
    && Orderly(s)
  }

  /** Only cam_task sends, so nothing is queued between its receive and its send. */
  predicate Orderly(s: State) {
    && ((s.cam.Displacing? || s.cam.Offering?) ==> s.queue.None?)
    && !s.sendFailed && Newer(s)
  }

  function Fresh(buffers: set<nat>): State { State(buffers, Between, None, None, 0, -1, false) }

  lemma StepOrderly(s: State, e: Event)
    requires Orderly(s) && Enabled(s, e)
    ensures Orderly(Step(s, e))
    ensures e.AiReceive? ==> s.lastSeen < s.queue.value.serial
  {
  }

  /** One step keeps every buffer in exactly one place, and hands back none that is already there. */
  lemma StepConserves(s: State, e: Event, buffers: set<nat>)
    requires Conserved(s, buffers) && Enabled(s, e)
    ensures Conserved(Step(s, e), buffers)
    ensures Released(s, e).Some? ==> Released(s, e).value !in s.pool
    ensures e.AiReceive? ==> s.lastSeen < s.queue.value.serial
  {
    hide Orderly, One, Out, OutCount;
    StepOrderly(s, e);
    if Released(s, e).Some? { StepPlaces(s, e, Released(s, e).value, buffers); }
    StepCounts(s, e);
    forall b: nat ensures One(b in Step(s, e).pool) + Out(Step(s, e), b) == One(b in buffers) {
      StepPlaces(s, e, b, buffers);
    }
  }

  lemma StepPlaces(s: State, e: Event, b: nat, buffers: set<nat>)
    requires Conserved(s, buffers) && Enabled(s, e)
    ensures One(b in Step(s, e).pool) + Out(Step(s, e), b) == One(b in buffers)
    ensures Released(s, e) == Some(b) ==> b !in s.pool
  {
    hide Newer, OutCount;
    assert One(b in s.pool) + Out(s, b) == One(b in buffers);
  }

  lemma StepCounts(s: State, e: Event)
    requires Orderly(s) && Enabled(s, e)
    requires Released(s, e).Some? ==> Released(s, e).value !in s.pool
    ensures |Step(s, e).pool| + OutCount(Step(s, e)) == |s.pool| + OutCount(s)
  {
    hide Newer;
  }

  function Run(s: State, events: seq<Event>): Option<State>
    decreases |events|
  {
    if events == [] then Some(s)
    else if Enabled(s, events[0]) then Run(Step(s, events[0]), events[1..])
    else None
  }

  lemma {:induction false} RunConserves(s: State, events: seq<Event>, buffers: set<nat>)
    requires Conserved(s, buffers) && Run(s, events).Some?
    ensures Conserved(Run(s, events).value, buffers)
    decreases |events|
  {
    if events != [] {
      StepConserves(s, events[0], buffers);
      RunConserves(Step(s, events[0]), events[1..], buffers);
    }
  }

  /** Conservation over every interleaving: each buffer is in the pool or held in one place, no
      send after a displacement failed, and at most three buffers are ever out, so a pool of four
      always has one left for the sensor. */
  lemma NothingLostOrDoubled(buffers: set<nat>, events: seq<Event>, b: nat)
    requires Run(Fresh(buffers), events).Some?
    ensures var s := Run(Fresh(buffers), events).value;
            && (b in buffers ==> if b in s.pool then Out(s, b) == 0 else Out(s, b) == 1)
            && (b !in buffers ==> b !in s.pool && Out(s, b) == 0)
            && !s.sendFailed
            && |s.pool| + OutCount(s) == |buffers| && OutCount(s) <= 3
            && (|buffers| > 3 ==> s.pool != {})
  {
    RunConserves(Fresh(buffers), events, buffers);
    var s := Run(Fresh(buffers), events).value;
    assert One(b in s.pool) + Out(s, b) == One(b in buffers);
  }

  /** The serials of the frames ai_task receives, in the order it receives them. */
  function Seen(s: State, events: seq<Event>): seq<nat>
    requires Run(s, events).Some?
    decreases |events|
  {
    if events == [] then []
    else (if events[0].AiReceive? then [s.queue.value.serial] else []) + Seen(Step(s, events[0]), events[1..])
  }

  /** ai_task never receives a frame older than one it has received. */
  lemma {:induction false} SeenRises(s: State, events: seq<Event>, buffers: set<nat>)
    requires Conserved(s, buffers) && Run(s, events).Some?
    ensures forall i :: 0 <= i < |Seen(s, events)| ==> s.lastSeen < Seen(s, events)[i]
    ensures forall i, j :: 0 <= i < j < |Seen(s, events)| ==> Seen(s, events)[i] < Seen(s, events)[j]
    decreases |events|
  {
    hide Out;
    if events != [] {
      StepConserves(s, events[0], buffers);
      SeenRises(Step(s, events[0]), events[1..], buffers);
    }
  }

  // ----- what each call brings about -----------------------------------------------------------

  /** Every frame offered gets on the queue, and a frame taken back from it goes to the pool: what is
      queued after an offer is the frame shown, whatever stood there before. */
  lemma OfferQueues(buffers: set<nat>, events: seq<Event>, e: Event)
    requires Run(Fresh(buffers), events).Some? && e.CamSend? && Enabled(Run(Fresh(buffers), events).value, e)
    ensures var s := Run(Fresh(buffers), events).value;
            var s' := Step(s, e);
            s'.queue == Some(s.cam.frame) && s'.cam.Between? && s'.pool == s.pool && s'.ai == s.ai
  {
    RunConserves(Fresh(buffers), events, buffers);
  }

  /** The newest offer wins: with no frame sent after it, ai_task receives exactly the last frame
      offered, or nothing. */
  lemma {:induction false} LastOfferIsTaken(s: State, events: seq<Event>, buffers: set<nat>)
    requires Conserved(s, buffers) && Run(s, events).Some?
    requires forall k :: 0 <= k < |events| ==> !events[k].CamSend? && !events[k].CamReceive?
    ensures var r := Run(s, events).value;
            if exists k :: 0 <= k < |events| && events[k].AiReceive?
            then s.queue.Some? && r.queue.None? && Seen(s, events) == [s.queue.value.serial]
            else r.queue == s.queue && Seen(s, events) == []
    decreases |events|
  {
    hide Out, Conserved;
    if events != [] {
      StepConserves(s, events[0], buffers);
      LastOfferIsTaken(Step(s, events[0]), events[1..], buffers);
      if events[0].AiReceive? { assert events[0].AiReceive?; }
      if k :| 0 <= k < |events[1..]| && events[1..][k].AiReceive? { assert events[k + 1].AiReceive?; }
    }
  }

  /** One turn of cam_task, nothing in between: the frame grabbed is queued, and the one it displaces
      is back in the pool. */
  lemma OneTurn(s: State, b: nat, buffers: set<nat>)
    requires Conserved(s, buffers) && s.cam.Between? && b in s.pool
    ensures var events := if s.queue.Some? then [Grab(b), CamReceive, CamReleaseDisplaced, CamSend] else [Grab(b), CamReceive, CamSend];
            Run(s, events) == Some(s.(queue := Some(Frame(b, s.grabs)), grabs := s.grabs + 1,
                                      pool := s.pool - {b} + if s.queue.Some? then {s.queue.value.buffer} else {}))
  {
    hide Conserved;
    var one := Step(s, Grab(b));
    var two := Step(one, CamReceive);
    if s.queue.Some? {
      var three := Step(two, CamReleaseDisplaced);
      RunOne(s, Grab(b), [CamReceive, CamReleaseDisplaced, CamSend]);
      RunOne(one, CamReceive, [CamReleaseDisplaced, CamSend]);
      RunOne(two, CamReleaseDisplaced, [CamSend]);
      RunOne(three, CamSend, []);
    } else {
      RunOne(s, Grab(b), [CamReceive, CamSend]);
      RunOne(one, CamReceive, [CamSend]);
      RunOne(two, CamSend, []);
      assert s.pool - {b} + {} == s.pool - {b};
    }
  }

  lemma RunOne(s: State, e: Event, rest: seq<Event>)
    requires Enabled(s, e)
    ensures Run(s, [e] + rest) == Run(Step(s, e), rest)
    ensures rest == [] ==> Run(s, [e] + rest) == Some(Step(s, e))
  {
    assert ([e] + rest)[1..] == rest;
  }

  /** The frame ai_task receives is the one queued, and until it gives it back the frame stays its own
      and its buffer out of the pool, whatever cam_task does meanwhile. */
  lemma {:induction false} ReadInPeace(s: State, events: seq<Event>, f: Frame, buffers: set<nat>)
    requires Conserved(s, buffers) && Run(s, events).Some?
    requires s.ai == Some(f) || (s.queue == Some(f) && events != [] && events[0].AiReceive?)
    requires forall k :: 0 <= k < |events| ==> !events[k].AiRelease?
    ensures Run(s, events).value.ai == Some(f) && f.buffer !in Run(s, events).value.pool
    decreases |events|
  {
    if events == [] {
      assert One(f.buffer in s.pool) + Out(s, f.buffer) == One(f.buffer in buffers);
    } else {
      StepConserves(s, events[0], buffers);
      ReadInPeace(Step(s, events[0]), events[1..], f, buffers);
    }
  }
}
