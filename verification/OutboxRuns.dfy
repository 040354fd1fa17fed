/**
 Every run of the outbox over any number of tabs on one device (frontend/lib/outbox.ts): what
 happens at each await, requests and answers lost, tabs crashing, accounts switching, sessions
 renewed from the cookie the tabs share (frontend/lib/api.ts), and a server that answers a repeated
 key with the row it has.
 */
module OutboxRuns {
  import opened Wrappers
  import opened Outbox

  /** Where one tab's flush stands; `sent` is what it has passed the owner check with so far.
      `Checked` is past the check, its ticket not yet attached; `ticketed` says whether the request that
      left carried one, and `verdict` whether what came back was the server's word on it. */
  datatype Flush =
    | Resting
    | Reading
    | Sending(me: string, sent: seq<Filed>, queue: seq<Filed>)
    | Checked(me: string, sent: seq<Filed>, entry: Filed, queue: seq<Filed>)
    | Posting(me: string, sent: seq<Filed>, entry: Filed, queue: seq<Filed>, retried: bool, ticketed: bool)
    | Dropping(me: string, sent: seq<Filed>, entry: Filed, queue: seq<Filed>, verdict: bool)

  /** `user` is the account of the session in memory; `renewed` what a renewal has answered and the
      tab has not yet taken up: the account of a new session, or none. */
  datatype TabState = TabState(user: Option<string>, held: seq<Filed>, flush: Flush, renewed: Option<Option<string>>)

  /** The device with the account its refresh cookie is for, the server, and what a proof keeps of
      the past: every entry ever stored, every post that left, those that left under an account
      other than the one checked, which entries the server accepted, which it refused, which it would
      not hear for want of a session, which their owner agreed to drop. */
  datatype State = State(store: map<string, Filed>, tabs: map<nat, TabState>, cookie: Option<string>, rows: seq<Post>,
                         filed: map<string, Filed>, posts: set<Post>, strayed: set<Post>, accepted: set<string>,
                         refused: set<string>, stood: set<string>, agreed: set<string>)

  /** Where a request's ticket comes from: the session in memory, a renewal, or nowhere because this
      browser signed out on purpose. */
  datatype Way = InMemory | Renewal | SignedOut

  datatype Event =
    | Open(t: nat)
    | Crash(t: nat)
    | SignIn(t: nat, user: string)
    | SignOut(t: nat)
    | Renew(t: nat, ok: bool)                          // the server answers a renewal, or it is lost
    | TakeUp(t: nat)                                   // and the tab takes its session up
    | Keep(t: nat, key: string, body: int, filedAt: int)
    | Refresh(t: nat, held: seq<Filed>)                // a reload ends, on what it read earlier
    | DeleteNobodys(key: string)
    | Agree(t: nat, owner: string)                     // to dropping what this tab holds of the owner's
    | DropOwned(t: nat, key: string)
    | StartFlush(t: nat)
    | ListQueue(t: nat)
    | Check(t: nat)                                    // is the owner still signed in here?
    | Attach(t: nat, way: Way)                         // the ticket, as the request leaves
    | Reattach(t: nat, way: Way)                       // another, after a 401
    | ServerFiles(p: Post)                             // now, later, or twice
    | Answer(t: nat, yes: bool)                        // the server's word, on a session it knows
    | Unauthorized(t: nat)                             // a second 401
    | NoAnswer(t: nat)
    | Dropped(t: nat, gone: bool, ok: bool)            // deleted and reread, or either one failed

  predicate CanAttach(s: State, t: nat, way: Way) {
    && t in s.tabs
    && (way.Renewal? ==> s.tabs[t].renewed.Some?)
    && (way.SignedOut? ==> s.cookie.None?)
  }

  predicate Enabled(s: State, e: Event) {
    match e
    case Open(t) => t !in s.tabs
    case Crash(t) => t in s.tabs
    case SignIn(t, _) => t in s.tabs
    case SignOut(t) => t in s.tabs
    case Renew(t, _) => t in s.tabs && s.tabs[t].renewed.None?
    case TakeUp(t) => t in s.tabs && s.tabs[t].renewed.Some?
    case Keep(t, key, _, _) => t in s.tabs && s.tabs[t].user.Some? && key !in s.filed
    case Refresh(t, held) =>
      t in s.tabs && InOrder(held) && NoRepeats(held) && forall e :: e in held ==> e.owner.Some? && e.key in s.filed && s.filed[e.key] == e
    case DeleteNobodys(key) => key in s.filed && s.filed[key].owner.None?
    case Agree(t, _) => t in s.tabs
    case DropOwned(t, key) => t in s.tabs && key in s.agreed
    case StartFlush(t) => t in s.tabs && s.tabs[t].flush.Resting?
    case ListQueue(t) => t in s.tabs && s.tabs[t].flush.Reading?
    case Check(t) => t in s.tabs && s.tabs[t].flush.Sending?
    case Attach(t, way) => CanAttach(s, t, way) && s.tabs[t].flush.Checked?
    case Reattach(t, way) => CanAttach(s, t, way) && s.tabs[t].flush.Posting? && !s.tabs[t].flush.retried && !way.InMemory?
    case ServerFiles(p) => p in s.posts && OnePerKey(s.rows)
    case Answer(t, yes) =>
      && t in s.tabs && s.tabs[t].flush.Posting? && s.tabs[t].flush.ticketed
      && (yes ==> HasRow(s.rows, s.tabs[t].flush.entry.key))
    case Unauthorized(t) => t in s.tabs && s.tabs[t].flush.Posting? && s.tabs[t].flush.retried
    case NoAnswer(t) => t in s.tabs && s.tabs[t].flush.Posting?
    case Dropped(t, gone, ok) => t in s.tabs && s.tabs[t].flush.Dropping? && (ok ==> gone)
  }

  function With(s: State, t: nat, flush: Flush): map<nat, TabState>
    requires t in s.tabs
  {
    s.tabs[t := s.tabs[t].(flush := flush)]
  }

  /** The account a request leaves under. */
  function Ticket(s: State, t: nat, way: Way): Option<string>
    requires CanAttach(s, t, way)
  {
    match way
    case InMemory => s.tabs[t].user
    case Renewal => s.tabs[t].renewed.value
    case SignedOut => None
  }

  /** The session a renewal gave is the tab's from then on. */
  function TookUp(tab: TabState, way: Way): TabState
    requires way.Renewal? ==> tab.renewed.Some?
  {
    if way.Renewal? then tab.(user := tab.renewed.value, renewed := None) else tab
  }

  /** The request leaves, and is a post if it carries a ticket. */
  function Leaves(s: State, t: nat, way: Way, flush: Flush): State
    requires CanAttach(s, t, way) && (flush.Posting? || flush.Dropping?)
  {
    var at := s.(tabs := s.tabs[t := TookUp(s.tabs[t], way).(flush := flush)]);
    var ticket := Ticket(s, t, way);
    if ticket.None? then at
    else
      var p := Post(flush.entry.key, ticket.value);
      at.(posts := s.posts + {p}, strayed := if ticket.value == flush.me then s.strayed else s.strayed + {p})
  }

  function Step(s: State, e: Event): State
    requires Enabled(s, e)
  {
    match e
    case Open(t) => s.(tabs := s.tabs[t := TabState(None, [], Resting, None)])
    case Crash(t) => s.(tabs := s.tabs - {t})
    case SignIn(t, user) => s.(tabs := s.tabs[t := s.tabs[t].(user := Some(user))], cookie := Some(user))
    case SignOut(t) => s.(tabs := s.tabs[t := s.tabs[t].(user := None)], cookie := None)
    case Renew(t, ok) => s.(tabs := s.tabs[t := s.tabs[t].(renewed := Some(if ok then s.cookie else None))])
    case TakeUp(t) => s.(tabs := s.tabs[t := TookUp(s.tabs[t], Renewal)])
    case Keep(t, key, body, filedAt) =>
      var entry := Filed(key, body, filedAt, s.tabs[t].user);
      s.(store := s.store[key := entry], filed := s.filed[key := entry])
    case Refresh(t, held) => s.(tabs := s.tabs[t := s.tabs[t].(held := held)])
    case DeleteNobodys(key) => s.(store := s.store - {key})
    case Agree(t, owner) => s.(agreed := s.agreed + Keys(Mine(s.tabs[t].held, Some(owner))))
    case DropOwned(t, key) => s.(store := s.store - {key})
    case StartFlush(t) => s.(tabs := With(s, t, Reading))
    case ListQueue(t) =>
      var tab := s.tabs[t];
      // With nobody signed in no entry is anyone's, and the walk ends where it began.
      s.(tabs := With(s, t, if tab.user.None? then Resting else Sending(tab.user.value, [], Mine(tab.held, tab.user))))
    case Check(t) =>
      var tab, f := s.tabs[t], s.tabs[t].flush;
      s.(tabs := With(s, t, if f.queue == [] || tab.user != Some(f.me) then Resting
                            else Checked(f.me, f.sent + [f.queue[0]], f.queue[0], f.queue[1..])))
    case Attach(t, way) =>
      var f := s.tabs[t].flush;
      Leaves(s, t, way, Posting(f.me, f.sent, f.entry, f.queue, false, Ticket(s, t, way).Some?))
    case Reattach(t, way) =>
      // With no session to be had the 401 stands, and is an answer.
      var f := s.tabs[t].flush;
      if Ticket(s, t, way).Some? then Leaves(s, t, way, Posting(f.me, f.sent, f.entry, f.queue, true, true))
      else Leaves(s, t, way, Dropping(f.me, f.sent, f.entry, f.queue, false)).(stood := s.stood + {f.entry.key})
    case ServerFiles(p) => s.(rows := Filing(s.rows, p))
    case Answer(t, yes) =>
      var f := s.tabs[t].flush;
      s.(tabs := With(s, t, Dropping(f.me, f.sent, f.entry, f.queue, true)),
         accepted := if yes then s.accepted + {f.entry.key} else s.accepted,
         refused := if yes then s.refused else s.refused + {f.entry.key})
    case Unauthorized(t) =>
      var f := s.tabs[t].flush;
      s.(tabs := With(s, t, Dropping(f.me, f.sent, f.entry, f.queue, false)), stood := s.stood + {f.entry.key})
    case NoAnswer(t) => s.(tabs := With(s, t, Resting))
    case Dropped(t, gone, ok) =>
      var f := s.tabs[t].flush;
      s.(tabs := With(s, t, if ok then Sending(f.me, f.sent, f.queue) else Resting),
         store := if gone then s.store - {f.entry.key} else s.store)
  }

  // ----- what every run keeps --------------------------------------------------------------------

  predicate FiledHere(s: State, e: Filed) {
    e.key in s.filed && s.filed[e.key] == e
  }

  /** A list of one account's entries, in the order they were filed. */
  ghost predicate OneOwners(s: State, me: string, list: seq<Filed>) {
    InOrder(list) && NoRepeats(list) && forall e :: e in list ==> FiledHere(s, e) && e.owner == Some(me)
  }

  /** What the server answered about an entry: its word on it, or that it knows no session. */
  predicate AnsweredAs(s: State, key: string, verdict: bool) {
    if verdict then key in s.accepted || key in s.refused else key in s.stood
  }

  /** A flush walks such a list. */
  ghost predicate FlushSound(s: State, f: Flush) {
    match f
    case Resting => true
    case Reading => true
    case Sending(me, sent, queue) => OneOwners(s, me, sent + queue)
    case Checked(me, sent, entry, queue) => OneOwners(s, me, sent + queue) && entry in sent
    case Posting(me, sent, entry, queue, _, _) => OneOwners(s, me, sent + queue) && entry in sent
    case Dropping(me, sent, entry, queue, verdict) =>
      OneOwners(s, me, sent + queue) && entry in sent && AnsweredAs(s, entry.key, verdict)
  }

  ghost predicate TabSound(s: State, tab: TabState) {
    && InOrder(tab.held) && NoRepeats(tab.held) && (forall e :: e in tab.held ==> FiledHere(s, e) && e.owner.Some?)
    && FlushSound(s, tab.flush)
  }

  /** An entry may be gone only once the server accepted it, refused it or would not hear it, its owner
      agreed to drop it, or nobody owned it. */
  predicate MayBeGone(s: State, k: string)
    requires k in s.filed
  {
    k in s.accepted || k in s.refused || k in s.stood || s.filed[k].owner.None? || k in s.agreed
  }

  /** The books: what is stored was filed and what is filed and gone may be gone; a post carries its
      owner's ticket exactly if it did not stray; the server has one row a key, each from a post. */
  ghost predicate Books(s: State) {
    && (forall k :: k in s.filed ==> s.filed[k].key == k)
    && (forall k :: k in s.store ==> k in s.filed && s.store[k] == s.filed[k])
    && (forall k :: k in s.filed && k !in s.store ==> MayBeGone(s, k))
    && s.strayed <= s.posts && (forall p :: p in s.posts ==> PostSound(s, p))
    && OnePerKey(s.rows) && (forall r :: r in s.rows ==> r in s.posts)
    && (forall k :: k in s.accepted ==> HasRow(s.rows, k))
    && (forall k :: k in s.agreed ==> k in s.filed)
  }

  predicate PostSound(s: State, p: Post) {
    p.key in s.filed && (p in s.strayed <==> s.filed[p.key].owner != Some(p.ticket))
  }

  ghost predicate TabsSound(s: State) {
    forall t :: t in s.tabs ==> TabSound(s, s.tabs[t])
  }

  ghost predicate Sound(s: State) {
    Books(s) && TabsSound(s)
  }

  /** A tab stays sound while the past only grows. */
  lemma TabStays(s: State, s': State, tab: TabState)
    requires TabSound(s, tab) && AnsweredMore(s, s')
    requires forall k :: k in s.filed ==> k in s'.filed && s'.filed[k] == s.filed[k]
    ensures TabSound(s', tab)
  {
    hide InOrder, NoRepeats;
  }

  lemma FilingKeeps(s: State, p: Post)
    requires Books(s) && p in s.posts
    ensures Books(s.(rows := Filing(s.rows, p)))
  {
    var rows := Filing(s.rows, p);
    forall k | k in s.accepted ensures HasRow(rows, k) {
      assert HasRow(s.rows, k);
      var i :| 0 <= i < |s.rows| && s.rows[i].key == k;
      assert rows[i].key == k;
    }
  }

  lemma QueueSound(s: State, tab: TabState)
    requires TabSound(s, tab) && tab.user.Some?
    ensures FlushSound(s, Sending(tab.user.value, [], Mine(tab.held, tab.user)))
  {
    MineInOrder(tab.held, tab.user);
    MineOnce(tab.held, tab.user);
    assert [] + Mine(tab.held, tab.user) == Mine(tab.held, tab.user);
  }

  /** The entry a flush is at is one of those it was filed for. */
  lemma EntryIsMine(s: State, t: nat)
    requires TabsSound(s) && t in s.tabs
    ensures var f := s.tabs[t].flush;
            && (f.Sending? && f.queue != [] ==> FiledHere(s, f.queue[0]) && f.queue[0].owner == Some(f.me))
            && (f.Checked? || f.Posting? || f.Dropping? ==> FiledHere(s, f.entry) && f.entry.owner == Some(f.me))
            && (f.Dropping? ==> AnsweredAs(s, f.entry.key, f.verdict))
            && forall e :: e in s.tabs[t].held ==> FiledHere(s, e)
  {
    var f := s.tabs[t].flush;
    assert TabSound(s, s.tabs[t]);
    if f.Sending? && f.queue != [] { assert f.queue[0] in f.sent + f.queue; }
    if f.Checked? || f.Posting? || f.Dropping? { assert f.entry in f.sent + f.queue; }
  }

  predicate AnsweredMore(s: State, s': State) {
    s.accepted <= s'.accepted && s.refused <= s'.refused && s.stood <= s'.stood
  }

  lemma BooksSame(s: State, s': State)
    requires Books(s) && s'.store == s.store && s'.filed == s.filed && s'.rows == s.rows && AnsweredMore(s, s')
    requires s'.posts == s.posts && s'.strayed == s.strayed && s.agreed <= s'.agreed
    requires forall k :: k in s'.accepted - s.accepted ==> HasRow(s.rows, k)
    requires forall k :: k in s'.agreed - s.agreed ==> k in s.filed
    ensures Books(s')
  {
    hide OnePerKey, HasRow;
  }

  lemma BooksLess(s: State, key: string)
    requires Books(s) && key in s.filed && MayBeGone(s, key)
    ensures Books(s.(store := s.store - {key}))
  {
    hide OnePerKey, HasRow;
  }

  lemma BooksPost(s: State, t: nat, way: Way, flush: Flush)
    requires Books(s) && CanAttach(s, t, way) && (flush.Posting? || flush.Dropping?)
    requires FiledHere(s, flush.entry) && flush.entry.owner == Some(flush.me)
    ensures Books(Leaves(s, t, way, flush))
  {
    hide OnePerKey, HasRow;
  }

  lemma BooksMore(s: State, entry: Filed)
    requires Books(s) && entry.key !in s.filed
    ensures Books(s.(store := s.store[entry.key := entry], filed := s.filed[entry.key := entry]))
  {
    hide OnePerKey, HasRow;
  }

  lemma BooksStep(s: State, e: Event)
    requires Sound(s) && Enabled(s, e)
    ensures Books(Step(s, e))
  {
    hide TabsSound, Books, InOrder, NoRepeats, Filing, OnePerKey, HasRow, Mine, With, Leaves;
    var s' := Step(s, e);
    match e
    case DropOwned(_, key) =>
      assert key in s.filed by { AgreedIsFiled(s, key); }
      BooksLess(s, key);
    case DeleteNobodys(key) => BooksLess(s, key);
    case Keep(t, key, body, filedAt) => BooksMore(s, Filed(key, body, filedAt, s.tabs[t].user));
    case Dropped(t, gone, _) =>
      EntryIsMine(s, t);
      if gone { BooksLess(s, s.tabs[t].flush.entry.key); }
      BooksSame(if gone then s.(store := s'.store) else s, s');
    case ServerFiles(p) => FilingKeeps(s, p);
    case Agree(t, owner) =>
      EntryIsMine(s, t);
      MineIsHeld(s.tabs[t].held, Some(owner));
      BooksSame(s, s');
    case Attach(t, way) => BooksAttach(s, t, way);
    case Reattach(t, way) => BooksReattach(s, t, way);
    case _ => BooksSame(s, s');
  }

  lemma BooksAttach(s: State, t: nat, way: Way)
    requires Sound(s) && Enabled(s, Attach(t, way))
    ensures Books(Step(s, Attach(t, way)))
  {
    hide TabsSound, Books, Leaves;
    var f := s.tabs[t].flush;
    EntryIsMine(s, t);
    BooksPost(s, t, way, Posting(f.me, f.sent, f.entry, f.queue, false, Ticket(s, t, way).Some?));
  }

  lemma BooksReattach(s: State, t: nat, way: Way)
    requires Sound(s) && Enabled(s, Reattach(t, way))
    ensures Books(Step(s, Reattach(t, way)))
  {
    hide TabsSound, Books, Leaves;
    var f := s.tabs[t].flush;
    EntryIsMine(s, t);
    if Ticket(s, t, way).Some? {
      BooksPost(s, t, way, Posting(f.me, f.sent, f.entry, f.queue, true, true));
    } else {
      var flush := Dropping(f.me, f.sent, f.entry, f.queue, false);
      var left := Leaves(s, t, way, flush);
      BooksPost(s, t, way, flush);
      BooksSame(left, left.(stood := left.stood + {f.entry.key}));
      assert left.stood == s.stood by { LeavesAnswered(s, t, way, flush); }
    }
  }

  lemma LeavesAnswered(s: State, t: nat, way: Way, flush: Flush)
    requires CanAttach(s, t, way) && (flush.Posting? || flush.Dropping?)
    ensures Leaves(s, t, way, flush).stood == s.stood && Leaves(s, t, way, flush).filed == s.filed
  {
  }

  lemma AgreedIsFiled(s: State, key: string)
    requires Books(s) && key in s.agreed
    ensures key in s.filed
  {
  }

  lemma MineIsHeld(held: seq<Filed>, owner: Option<string>)
    ensures forall e :: e in Mine(held, owner) ==> e in held
  {
  }

  /** Other tabs stay sound, and the one that moved is. */
  lemma OneTab(s: State, s': State, t: nat)
    requires TabsSound(s) && t in s'.tabs && s'.tabs == s.tabs[t := s'.tabs[t]] && TabSound(s', s'.tabs[t])
    requires AnsweredMore(s, s') && forall k :: k in s.filed ==> k in s'.filed && s'.filed[k] == s.filed[k]
    ensures TabsSound(s')
  {
    hide TabSound;
    forall u | u in s'.tabs ensures TabSound(s', s'.tabs[u]) {
      if u != t { TabStays(s, s', s.tabs[u]); }
    }
  }

  lemma SameTabs(s: State, s': State)
    requires TabsSound(s) && (forall t :: t in s'.tabs ==> t in s.tabs && s'.tabs[t] == s.tabs[t])
    requires AnsweredMore(s, s') && forall k :: k in s.filed ==> k in s'.filed && s'.filed[k] == s.filed[k]
    ensures TabsSound(s')
  {
    hide TabSound;
    forall u | u in s'.tabs ensures TabSound(s', s'.tabs[u]) { TabStays(s, s', s.tabs[u]); }
  }

  lemma TabEvent(s: State, e: Event, t: nat)
    requires e.Open? || e.SignIn? || e.SignOut? || e.Renew? || e.TakeUp? || e.Refresh? || e.StartFlush? || e.ListQueue?
    requires TabsSound(s) && Enabled(s, e) && t == e.t
    ensures TabSound(Step(s, e), Step(s, e).tabs[t])
  {
    hide InOrder, NoRepeats;
    if t in s.tabs { assert TabSound(s, s.tabs[t]); }
    if e.ListQueue? && s.tabs[t].user.Some? { QueueSound(s, s.tabs[t]); }
    if e.Open? { NoneInOrder(); }
  }

  lemma NoneInOrder()
    ensures InOrder([]) && NoRepeats([])
  {
  }

  lemma PostEvent(s: State, e: Event, t: nat)
    requires e.Check? || e.Answer? || e.Unauthorized? || e.NoAnswer? || e.Dropped?
    requires TabsSound(s) && Enabled(s, e) && t == e.t
    ensures TabSound(Step(s, e), Step(s, e).tabs[t])
  {
    hide InOrder, NoRepeats, OnePerKey, HasRow, Filing, Mine;
    var f := s.tabs[t].flush;
    assert TabSound(s, s.tabs[t]);
    if e.Check? && f.queue != [] {
      assert f.sent + f.queue == f.sent + [f.queue[0]] + f.queue[1..];
    }
  }

  lemma AttachEvent(s: State, e: Event, t: nat)
    requires e.Attach? || e.Reattach?
    requires TabsSound(s) && Enabled(s, e) && t == e.t
    ensures TabSound(Step(s, e), Step(s, e).tabs[t])
  {
    hide InOrder, NoRepeats;
    assert TabSound(s, s.tabs[t]);
  }

  lemma TabsStep(s: State, e: Event)
    requires TabsSound(s) && Enabled(s, e)
    ensures TabsSound(Step(s, e))
  {
    hide TabsSound, TabSound, InOrder, NoRepeats, Filing, Leaves, Mine, Keys, TookUp, Ticket, OnePerKey, HasRow;
    var s' := Step(s, e);
    match e
    case Crash(_) => SameTabs(s, s');
    case Keep(_, _, _, _) => SameTabs(s, s');
    case DeleteNobodys(_) => SameTabs(s, s');
    case Agree(_, _) => SameTabs(s, s');
    case DropOwned(_, _) => SameTabs(s, s');
    case ServerFiles(_) => SameTabs(s, s');
    case Open(t) => TabEvent(s, e, t); OneTab(s, s', t);
    case SignIn(t, _) => TabEvent(s, e, t); OneTab(s, s', t);
    case SignOut(t) => TabEvent(s, e, t); OneTab(s, s', t);
    case Renew(t, _) => TabEvent(s, e, t); OneTab(s, s', t);
    case TakeUp(t) => TabEvent(s, e, t); OneTab(s, s', t);
    case Refresh(t, _) => TabEvent(s, e, t); OneTab(s, s', t);
    case StartFlush(t) => TabEvent(s, e, t); OneTab(s, s', t);
    case ListQueue(t) => TabEvent(s, e, t); OneTab(s, s', t);
    case Attach(t, _) => AttachEvent(s, e, t); AttachTabs(s, e, t); OneTab(s, s', t);
    case Reattach(t, _) => AttachEvent(s, e, t); AttachTabs(s, e, t); OneTab(s, s', t);
    case Check(t) => PostEvent(s, e, t); OneTab(s, s', t);
    case Answer(t, _) => PostEvent(s, e, t); OneTab(s, s', t);
    case NoAnswer(t) => PostEvent(s, e, t); OneTab(s, s', t);
    case Unauthorized(t) => PostEvent(s, e, t); OneTab(s, s', t);
    case Dropped(t, _, _) => PostEvent(s, e, t); OneTab(s, s', t);
  }

  lemma AttachTabs(s: State, e: Event, t: nat)
    requires Enabled(s, e) && (e.Attach? || e.Reattach?) && t == e.t
    ensures var s' := Step(s, e);
            t in s'.tabs && s'.tabs == s.tabs[t := s'.tabs[t]] && AnsweredMore(s, s') && s'.filed == s.filed
  {
  }

  lemma StepSound(s: State, e: Event)
    requires Sound(s) && Enabled(s, e)
    ensures Sound(Step(s, e))
  {
    BooksStep(s, e);
    TabsStep(s, e);
  }

  function Run(s: State, events: seq<Event>): Option<State>
    decreases |events|
  {
    if events == [] then Some(s)
    else if Enabled(s, events[0]) then Run(Step(s, events[0]), events[1..])
    else None
  }

  lemma {:induction false} RunSound(s: State, events: seq<Event>)
    requires Sound(s) && Run(s, events).Some?
    ensures Sound(Run(s, events).value)
    decreases |events|
  {
    hide Sound;
    if events != [] {
      StepSound(s, events[0]);
      RunSound(Step(s, events[0]), events[1..]);
    }
  }

  /** A device as the tab first finds it: entries stored before, no tab, no row. */
  predicate Before(s: State) {
    && (forall k :: k in s.store ==> s.store[k].key == k) && s.filed == s.store
    && s.tabs == map[] && s.rows == [] && s.posts == {} && s.strayed == {} && s.accepted == {} && s.refused == {}
    && s.stood == {} && s.agreed == {}
  }

  /** Exactly-once effect, on every run: no entry has two rows; a row carries its owner's ticket
      exactly if the post it came from did not stray; an entry the server said yes to has its row; and
      one no longer stored was accepted, refused, not heard for want of a session, agreed to be dropped
      by its owner, or never had one. */
  lemma ExactlyOnce(s: State, events: seq<Event>, k: string)
    requires Before(s) && Run(s, events).Some? && k in Run(s, events).value.filed
    ensures var r := Run(s, events).value;
            && (forall i, j :: 0 <= i < |r.rows| && 0 <= j < |r.rows| && r.rows[i].key == k && r.rows[j].key == k ==> i == j)
            && (forall i :: 0 <= i < |r.rows| && r.rows[i].key == k ==>
                  (r.filed[k].owner == Some(r.rows[i].ticket) <==> r.rows[i] !in r.strayed))
            && (k in r.accepted ==> exists i :: 0 <= i < |r.rows| && r.rows[i].key == k)
            && (k !in r.store ==> MayBeGone(r, k))
  {
    hide TabsSound, InOrder, NoRepeats;
    BeforeIsSound(s);
    RunSound(s, events);
    var r := Run(s, events).value;
    assert Sound(r);
    forall i | 0 <= i < |r.rows| && r.rows[i].key == k
      ensures r.filed[k].owner == Some(r.rows[i].ticket) <==> r.rows[i] !in r.strayed
    {
      assert r.rows[i] in r.rows && PostSound(r, r.rows[i]);
    }
    if k in r.accepted { assert HasRow(r.rows, k); }
  }

  lemma BeforeIsSound(s: State)
    requires Before(s)
    ensures Sound(s)
  {
  }

  // ----- whose ticket a post carries ------------------------------------------------------------------

  /** A ticket attached, or attached again, that is not of the account the owner check passed for. */
  predicate Strays(s: State, e: Event)
    requires Enabled(s, e)
  {
    (e.Attach? || e.Reattach?) && Ticket(s, e.t, e.way).Some? && Ticket(s, e.t, e.way) != Some(s.tabs[e.t].flush.me)
  }

  predicate NoneStrays(s: State, events: seq<Event>)
    decreases |events|
  {
    events == [] || (Enabled(s, events[0]) && !Strays(s, events[0]) && NoneStrays(Step(s, events[0]), events[1..]))
  }

  lemma StepStrays(s: State, e: Event)
    requires Enabled(s, e)
    ensures Step(s, e).strayed == {} <==> s.strayed == {} && !Strays(s, e)
  {
    hide Filing, Mine, With, OnePerKey, HasRow, InOrder, NoRepeats;
  }

  lemma {:induction false} RunStrays(s: State, events: seq<Event>)
    requires Run(s, events).Some?
    ensures Run(s, events).value.strayed == {} <==> s.strayed == {} && NoneStrays(s, events)
    decreases |events|
  {
    hide Step, Strays, Enabled;
    if events != [] {
      StepStrays(s, events[0]);
      RunStrays(Step(s, events[0]), events[1..]);
    }
  }

  /** Every post of a run carries its owner's ticket if and only if every ticket attached between an
      owner check and its post, renewals and the one after a 401 included, was still of the account
      checked; and then so does every row. */
  lemma PostsAreOwners(s: State, events: seq<Event>)
    requires Before(s) && Run(s, events).Some?
    ensures var r := Run(s, events).value;
            && ((forall p :: p in r.posts ==> p.key in r.filed && r.filed[p.key].owner == Some(p.ticket)) <==> NoneStrays(s, events))
            && (NoneStrays(s, events) ==>
                  forall p :: p in r.rows ==> p.key in r.filed && r.filed[p.key].owner == Some(p.ticket))
  {
    hide TabsSound, OnePerKey, HasRow;
    BeforeIsSound(s);
    RunSound(s, events);
    RunStrays(s, events);
    var r := Run(s, events).value;
    assert Sound(r);
    if r.strayed != {} {
      var p :| p in r.strayed;
      assert p in r.posts && PostSound(r, p);
    }
  }

  /** A ticket is found for this entry's request as it leaves, or leaves again. */
  predicate Tickets(s: State, e: Event, key: string)
    requires Enabled(s, e)
  {
    (e.Attach? || e.Reattach?) && Ticket(s, e.t, e.way).Some? && s.tabs[e.t].flush.entry.key == key
  }

  predicate EverTickets(s: State, events: seq<Event>, key: string)
    decreases |events|
  {
    events != [] && Enabled(s, events[0]) && (Tickets(s, events[0], key) || EverTickets(Step(s, events[0]), events[1..], key))
  }

  ghost predicate Posted(s: State, key: string) { exists p :: p in s.posts && p.key == key }

  lemma StepPosted(s: State, e: Event, key: string)
    requires Enabled(s, e)
    ensures Posted(Step(s, e), key) <==> Posted(s, key) || Tickets(s, e, key)
  {
    hide Filing, Mine, With, OnePerKey, HasRow, InOrder, NoRepeats;
    var s' := Step(s, e);
    if Posted(s, key) {
      var p :| p in s.posts && p.key == key;
      assert p in s'.posts;
    }
    if Tickets(s, e, key) { assert Post(key, Ticket(s, e.t, e.way).value) in s'.posts; }
  }

  lemma {:induction false} RunPosted(s: State, events: seq<Event>, key: string)
    requires Run(s, events).Some?
    ensures Posted(Run(s, events).value, key) <==> Posted(s, key) || EverTickets(s, events, key)
    decreases |events|
  {
    hide Step, Tickets, Enabled, Posted;
    if events != [] {
      StepPosted(s, events[0], key);
      RunPosted(Step(s, events[0]), events[1..], key);
    }
  }

  /** An entry was ever posted, and so can have a row, exactly if some request for it found a session:
      one given up as answered may have left the store without that. */
  lemma PostedIffTicket(s: State, events: seq<Event>, key: string)
    requires Before(s) && Run(s, events).Some?
    ensures Posted(Run(s, events).value, key) <==> EverTickets(s, events, key)
    ensures HasRow(Run(s, events).value.rows, key) ==> EverTickets(s, events, key)
  {
    hide TabsSound, OnePerKey, PostSound;
    RunPosted(s, events, key);
    BeforeIsSound(s);
    RunSound(s, events);
    var r := Run(s, events).value;
    assert Sound(r);
    if HasRow(r.rows, key) {
      var i :| 0 <= i < |r.rows| && r.rows[i].key == key;
      assert r.rows[i] in r.rows && r.rows[i] in r.posts;
    }
  }

  /** One flush passes the check with one account's own entries, oldest first and each once, at every
      point of every run. */
  lemma FlushInOrder(s: State, events: seq<Event>, t: nat)
    requires Before(s) && Run(s, events).Some? && t in Run(s, events).value.tabs
    requires Run(s, events).value.tabs[t].flush.Checked? || Run(s, events).value.tabs[t].flush.Posting?
    ensures var f := Run(s, events).value.tabs[t].flush;
            && InOrder(f.sent) && f.entry in f.sent && f.entry.owner == Some(f.me)
            && (forall e :: e in f.sent ==> e.owner == Some(f.me))
            && (forall i, j :: 0 <= i < j < |f.sent| ==> f.sent[i].key != f.sent[j].key)
  {
    hide Books, InOrder, NoRepeats;
    BeforeIsSound(s);
    RunSound(s, events);
    var f := Run(s, events).value.tabs[t].flush;
    assert TabsSound(Run(s, events).value) && TabSound(Run(s, events).value, Run(s, events).value.tabs[t]);
    assert (f.sent + f.queue)[..|f.sent|] == f.sent;
    assert forall e :: e in f.sent ==> e in f.sent + f.queue;
    PrefixInOrder(f.sent + f.queue, |f.sent|);
    KeysOnce(Run(s, events).value, f.me, f.sent, f.queue);
  }

  lemma KeysOnce(s: State, me: string, sent: seq<Filed>, queue: seq<Filed>)
    requires OneOwners(s, me, sent + queue)
    ensures forall i, j :: 0 <= i < j < |sent| ==> sent[i].key != sent[j].key
  {
    hide InOrder;
    var all := sent + queue;
    forall i, j | 0 <= i < j < |sent| ensures sent[i].key != sent[j].key {
      assert all[i] != all[j] && all[i] in all && all[j] in all;
    }
  }

  // ----- what the flush gave up on ------------------------------------------------------------------------

  /** A 401 that stands: the renewal gave no session, or the request it was sent again with gets one too. */
  predicate Stands(s: State, e: Event)
    requires Enabled(s, e)
  {
    e.Unauthorized? || (e.Reattach? && Ticket(s, e.t, e.way).None?)
  }

  predicate EverStands(s: State, events: seq<Event>, key: string)
    decreases |events|
  {
    events != [] && Enabled(s, events[0])
    && ((Stands(s, events[0]) && s.tabs[events[0].t].flush.entry.key == key) || EverStands(Step(s, events[0]), events[1..], key))
  }

  lemma StepStood(s: State, e: Event, key: string)
    requires Enabled(s, e)
    ensures key in Step(s, e).stood <==> key in s.stood || (Stands(s, e) && s.tabs[e.t].flush.entry.key == key)
  {
    hide Filing, Mine, With, OnePerKey, HasRow, InOrder, NoRepeats;
  }

  lemma {:induction false} RunStood(s: State, events: seq<Event>, key: string)
    requires Run(s, events).Some?
    ensures key in Run(s, events).value.stood <==> key in s.stood || EverStands(s, events, key)
    decreases |events|
  {
    hide Step, Enabled;
    if events != [] {
      StepStood(s, events[0], key);
      RunStood(Step(s, events[0]), events[1..], key);
    }
  }

  /** An event of this tab's own flush. */
  predicate OfFlush(t: nat, e: Event) {
    && (e.StartFlush? || e.ListQueue? || e.Check? || e.Attach? || e.Reattach? || e.Answer? || e.Unauthorized? || e.NoAnswer? || e.Dropped?)
    && e.t == t
  }

  /** Whether the last event of this tab's flush was a 401 that stood. */
  predicate LastStood(s: State, events: seq<Event>, t: nat, was: bool)
    decreases |events|
  {
    if events == [] || !Enabled(s, events[0]) then was
    else LastStood(Step(s, events[0]), events[1..], t, if OfFlush(t, events[0]) then Stands(s, events[0]) else was)
  }

  predicate DropsUnheard(s: State, t: nat) { t in s.tabs && s.tabs[t].flush.Dropping? && !s.tabs[t].flush.verdict }

  predicate DropsHeard(s: State, t: nat) { t in s.tabs && s.tabs[t].flush.Dropping? && s.tabs[t].flush.verdict }

  lemma ElseKeepsFlush(s: State, e: Event, t: nat)
    requires Enabled(s, e) && !OfFlush(t, e)
    ensures DropsUnheard(Step(s, e), t) ==> DropsUnheard(s, t)
    ensures DropsHeard(Step(s, e), t) ==> DropsHeard(s, t)
  {
    hide Filing, Mine, OnePerKey, HasRow, InOrder, NoRepeats;
  }

  lemma FlushStood(s: State, e: Event, t: nat)
    requires Enabled(s, e) && OfFlush(t, e)
    ensures DropsUnheard(Step(s, e), t) ==> Stands(s, e)
    ensures DropsHeard(Step(s, e), t) ==> !Stands(s, e)
  {
    hide Filing, Mine, OnePerKey, HasRow, InOrder, NoRepeats;
  }

  lemma {:induction false} RunLastStood(s: State, events: seq<Event>, t: nat, was: bool)
    requires Run(s, events).Some? && (DropsUnheard(s, t) ==> was) && (DropsHeard(s, t) ==> !was)
    ensures var r := Run(s, events).value;
            (DropsUnheard(r, t) ==> LastStood(s, events, t, was)) && (DropsHeard(r, t) ==> !LastStood(s, events, t, was))
    decreases |events|
  {
    hide Step, Enabled, DropsUnheard, DropsHeard, Stands, OfFlush;
    if events != [] {
      if OfFlush(t, events[0]) { FlushStood(s, events[0], t); } else { ElseKeepsFlush(s, events[0], t); }
      RunLastStood(Step(s, events[0]), events[1..], t, if OfFlush(t, events[0]) then Stands(s, events[0]) else was);
    }
  }

  /** What a flush is about to drop, at every point of every run: an entry it has the server's word
      on, a row if the word was yes, exactly when the last event of the flush was no 401 that stood;
      otherwise one the server would not hear. */
  lemma DropsOnWordIff(s: State, events: seq<Event>, t: nat)
    requires Before(s) && Run(s, events).Some? && t in Run(s, events).value.tabs && Run(s, events).value.tabs[t].flush.Dropping?
    ensures var r := Run(s, events).value;
            var f := r.tabs[t].flush;
            && (f.verdict <==> !LastStood(s, events, t, false))
            && (f.verdict ==> (f.entry.key in r.accepted && HasRow(r.rows, f.entry.key)) || f.entry.key in r.refused)
            && (!f.verdict ==> f.entry.key in r.stood)
  {
    hide OnePerKey, HasRow, InOrder, NoRepeats, LastStood;
    BeforeIsSound(s);
    RunSound(s, events);
    NoTabDrops(s, t);
    RunLastStood(s, events, t, false);
    var r := Run(s, events).value;
    assert Sound(r) && TabSound(r, r.tabs[t]);
  }

  lemma NoTabDrops(s: State, t: nat)
    requires Before(s)
    ensures !DropsUnheard(s, t) && !DropsHeard(s, t)
  {
  }

  /** An entry of somebody's that is gone, and that they did not agree to drop, has its row, was
      refused, or met a 401 that stood: so one gone without a row or a refusal met one. */
  lemma GoneUnheard(s: State, events: seq<Event>, key: string)
    requires Before(s) && Run(s, events).Some?
    requires var r := Run(s, events).value; key in r.filed && r.filed[key].owner.Some? && key !in r.store && key !in r.agreed
    ensures var r := Run(s, events).value;
            HasRow(r.rows, key) || key in r.refused || EverStands(s, events, key)
  {
    hide TabsSound, OnePerKey, HasRow, PostSound;
    BeforeIsSound(s);
    RunSound(s, events);
    RunStood(s, events, key);
    var r := Run(s, events).value;
    assert Sound(r) && MayBeGone(r, key);
  }

  // ----- when no ticket strays ------------------------------------------------------------------------------

  predicate NoneOr(account: Option<string>, me: string) { account.None? || account == Some(me) }

  /** A tab between the owner check and the answer has only the checked account's session, or none. */
  predicate Guarded(tab: TabState) {
    tab.flush.Checked? || tab.flush.Posting? ==>
      NoneOr(tab.user, tab.flush.me) && (tab.renewed.Some? ==> NoneOr(tab.renewed.value, tab.flush.me))
  }

  /** While a request is on its way, nobody else signs in to this tab, the cookie a renewal is answered
      from is the checked account's or nobody's, and the check found no other renewal waiting. */
  predicate Calm(s: State, e: Event)
    requires Enabled(s, e)
  {
    match e
    case SignIn(t, user) => s.tabs[t].flush.Checked? || s.tabs[t].flush.Posting? ==> user == s.tabs[t].flush.me
    case Renew(t, ok) => ok && (s.tabs[t].flush.Checked? || s.tabs[t].flush.Posting?) ==> NoneOr(s.cookie, s.tabs[t].flush.me)
    case Check(t) => s.tabs[t].renewed.Some? ==> NoneOr(s.tabs[t].renewed.value, s.tabs[t].flush.me)
    case _ => true
  }

  ghost predicate AllGuarded(s: State) { forall t :: t in s.tabs ==> Guarded(s.tabs[t]) }

  /** An event that leaves this tab as it is. */
  predicate Elsewhere(e: Event, t: nat) {
    e.DeleteNobodys? || e.ServerFiles? || e.Keep? || e.Agree? || e.DropOwned? || e.t != t
  }

  lemma ElsewhereSame(s: State, e: Event, t: nat)
    requires Enabled(s, e) && Elsewhere(e, t)
    ensures t in Step(s, e).tabs <==> t in s.tabs
    ensures t in s.tabs ==> Step(s, e).tabs[t] == s.tabs[t]
  {
    hide Filing, Mine, Keys, OnePerKey, HasRow, InOrder, NoRepeats, Ticket, TookUp;
  }

  lemma CalmAccounts(s: State, e: Event, t: nat)
    requires Enabled(s, e) && Calm(s, e) && !Elsewhere(e, t) && !OfFlush(t, e) && t in Step(s, e).tabs
    requires t in s.tabs ==> Guarded(s.tabs[t])
    ensures Guarded(Step(s, e).tabs[t])
  {
    hide OnePerKey, HasRow, InOrder, NoRepeats, NoneOr;
    NoneOrBoth();
  }

  lemma CalmFlush(s: State, e: Event, t: nat)
    requires Enabled(s, e) && Calm(s, e) && OfFlush(t, e) && t in Step(s, e).tabs && Guarded(s.tabs[t])
    ensures Guarded(Step(s, e).tabs[t])
  {
    hide Mine, OnePerKey, HasRow, InOrder, NoRepeats, NoneOr;
    NoneOrBoth();
  }

  lemma CalmStep(s: State, e: Event, t: nat)
    requires Enabled(s, e) && Calm(s, e) && AllGuarded(s) && t in Step(s, e).tabs
    ensures Guarded(Step(s, e).tabs[t])
  {
    hide Step, Enabled, Calm, Guarded;
    if t in s.tabs { assert Guarded(s.tabs[t]); }
    if Elsewhere(e, t) {
      ElsewhereSame(s, e, t);
    } else if OfFlush(t, e) {
      HasTab(s, e);
      CalmFlush(s, e, t);
    } else {
      CalmAccounts(s, e, t);
    }
  }

  lemma HasTab(s: State, e: Event)
    requires Enabled(s, e) && (e.StartFlush? || e.ListQueue? || e.Check? || e.Attach? || e.Reattach? || e.Answer? || e.Unauthorized? || e.NoAnswer? || e.Dropped?)
    ensures e.t in s.tabs
  {
    hide HasRow;
  }

  lemma NoneOrBoth()
    ensures forall me :: NoneOr(None, me) && NoneOr(Some(me), me)
  {
  }

  lemma GuardedDoesNotStray(s: State, e: Event)
    requires Enabled(s, e) && AllGuarded(s)
    ensures !Strays(s, e)
  {
    hide Filing, Mine, OnePerKey, HasRow, InOrder, NoRepeats;
    if e.Attach? || e.Reattach? { assert Guarded(s.tabs[e.t]); }
  }

  predicate AllCalm(s: State, events: seq<Event>)
    decreases |events|
  {
    events == [] || (Enabled(s, events[0]) && Calm(s, events[0]) && AllCalm(Step(s, events[0]), events[1..]))
  }

  /** What has to hold of the accounts for no ticket to stray.  It is not needed: another account that
      comes and goes without a request taking it up does no harm. */
  lemma {:induction false} CalmDoesNotStray(s: State, events: seq<Event>)
    requires AllGuarded(s) && AllCalm(s, events)
    ensures NoneStrays(s, events)
    decreases |events|
  {
    hide Step, Enabled, Calm, Guarded, Strays;
    if events != [] {
      GuardedDoesNotStray(s, events[0]);
      var next := Step(s, events[0]);
      forall t | t in next.tabs ensures Guarded(next.tabs[t]) { CalmStep(s, events[0], t); }
      CalmDoesNotStray(next, events[1..]);
    }
  }

  /** So on every such run every post, and every row, carries its owner's ticket. */
  lemma CalmRunsAreOwners(s: State, events: seq<Event>)
    requires Before(s) && AllCalm(s, events) && Run(s, events).Some?
    ensures var r := Run(s, events).value;
            forall p :: p in r.posts || p in r.rows ==> p.key in r.filed && r.filed[p.key].owner == Some(p.ticket)
  {
    hide Calm, Step, Enabled, Strays;
    CalmDoesNotStray(s, events);
    PostsAreOwners(s, events);
  }

  // ----- a flush from its list to its end ------------------------------------------------------

  /** What a flush set out to send: what it has passed the check with and what is left. */
  function Whole(f: Flush): seq<Filed> {
    match f
    case Resting => []
    case Reading => []
    case Sending(_, sent, queue) => sent + queue
    case Checked(_, sent, _, queue) => sent + queue
    case Posting(_, sent, _, queue, _, _) => sent + queue
    case Dropping(_, sent, _, queue, _) => sent + queue
  }

  /** It sets out with all this tab holds of the account signed in, and nothing else. */
  lemma SetsOut(s: State, t: nat)
    requires Enabled(s, ListQueue(t)) && InOrder(s.tabs[t].held) && NoRepeats(s.tabs[t].held)
    ensures var tab, f := s.tabs[t], Step(s, ListQueue(t)).tabs[t].flush;
            if tab.user.None? then f.Resting?
            else f.Sending? && f.me == tab.user.value && f.sent == [] && InOrder(f.queue) && NoRepeats(f.queue)
                 && forall e :: e in f.queue <==> e in tab.held && e.owner == tab.user
  {
    MineInOrder(s.tabs[t].held, s.tabs[t].user);
    MineOnce(s.tabs[t].held, s.tabs[t].user);
  }

  /** What one step may do to a flush under way. */
  predicate OneWalk(t: nat, e: Event, tab: TabState, next: Flush)
    requires !tab.flush.Resting? && !tab.flush.Reading?
  {
    var f := tab.flush;
    if next.Resting? then
      || (e == Check(t) && (f.queue == [] || tab.user != Some(f.me)))
      || e == NoAnswer(t) || (e.Dropped? && e.t == t && !e.ok)
    else
      && !next.Reading? && next.me == f.me && Whole(next) == Whole(f)
      && next.sent == if e == Check(t) && f.queue != [] then f.sent + [f.queue[0]] else f.sent
  }

  /** No step of any tab makes a flush under way skip an entry, add one or put one off; it ends only at
      the check, with nothing left or another account signed in, where no answer came, or where the
      entry could not be taken out. */
  lemma WalksOn(s: State, e: Event, t: nat)
    requires Enabled(s, e) && t in s.tabs && t in Step(s, e).tabs
    requires !s.tabs[t].flush.Resting? && !s.tabs[t].flush.Reading?
    ensures OneWalk(t, e, s.tabs[t], Step(s, e).tabs[t].flush)
  {
    hide Step, Enabled, Whole;
    if Elsewhere(e, t) { ElsewhereSame(s, e, t); } else { WalksOnHere(s, e, t); }
  }

  lemma WalksOnHere(s: State, e: Event, t: nat)
    requires Enabled(s, e) && t in s.tabs && t in Step(s, e).tabs && !Elsewhere(e, t)
    requires !s.tabs[t].flush.Resting? && !s.tabs[t].flush.Reading?
    ensures OneWalk(t, e, s.tabs[t], Step(s, e).tabs[t].flush)
  {
    hide Mine, Filing, Keys, OnePerKey, HasRow, InOrder, NoRepeats;
    if e == Check(t) {
      var f := s.tabs[t].flush;
      if f.queue != [] { assert f.sent + [f.queue[0]] + f.queue[1..] == f.sent + f.queue; }
    }
  }

  /** The only steps that move the store, and what they move: an entry is filed, or leaves as nobody's,
      as its owner agreed, or once a flush is done with it. */
  lemma StoreMoves(s: State, e: Event, key: string)
    requires Enabled(s, e)
    ensures key in s.store ==> (key !in Step(s, e).store <==>
      || e == DeleteNobodys(key)
      || (e.DropOwned? && e.key == key)
      || (e.Dropped? && e.gone && s.tabs[e.t].flush.entry.key == key))
    ensures key in s.store && key in Step(s, e).store && !(e.Keep? && e.key == key) ==> Step(s, e).store[key] == s.store[key]
    ensures key !in s.store && key in Step(s, e).store ==> e.Keep? && e.key == key
    ensures e.Keep? ==> Step(s, e).store[e.key] == Filed(e.key, e.body, e.filedAt, s.tabs[e.t].user)
  {
    hide Mine, Filing, Keys, OnePerKey, HasRow, InOrder, NoRepeats, Ticket, TookUp;
  }
}
