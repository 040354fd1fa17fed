/**
 The offline outbox of one browser tab (frontend/lib/outbox.ts): requests nobody could send wait
 in IndexedDB, each with its own key and the account that filed it, and are tried again in order.
 */
module Outbox {
  import opened Wrappers

  /** A stored request.  An entry an older build stored has no owner. */
  datatype Filed = Filed(key: string, body: int, filedAt: int, owner: Option<string>)

  /** What became of one post: an answer the server made, or none that arrived. */
  datatype Reply = Accepted | Refused | Unreachable

  /** A request the server was sent and the account whose ticket carried it. */
  datatype Post = Post(key: string, ticket: string)

  predicate Keyed(store: map<string, Filed>) {
    forall k :: k in store ==> store[k].key == k
  }

  predicate InOrder(entries: seq<Filed>) {
    forall i, j :: 0 <= i < j < |entries| ==> entries[i].filedAt <= entries[j].filedAt
  }

  function Owned(entries: set<Filed>): set<Filed> {
    set e | e in entries && e.owner.Some?
  }

  function Insert(e: Filed, entries: seq<Filed>): (r: seq<Filed>)
    requires InOrder(entries)
    ensures InOrder(r) && |r| == |entries| + 1
    ensures forall o :: o in r <==> o == e || o in entries
  {
    if entries == [] then [e]
    else if e.filedAt < entries[0].filedAt then
      assert forall o :: o in [e] + entries <==> o == e || o in entries;
      [e] + entries
    else
      var rest := Insert(e, entries[1..]);
      assert forall o :: o in entries <==> o == entries[0] || o in entries[1..];
      assert forall i :: 0 <= i < |rest| ==> rest[i] in rest && entries[0].filedAt <= rest[i].filedAt;
      [entries[0]] + rest
  }

  /** `entries` holds exactly the set, in order, each once. */
  ghost predicate Lists(entries: seq<Filed>, all: set<Filed>) {
    InOrder(entries) && |entries| == |all| && forall e :: e in entries <==> e in all
  }

  predicate NoRepeats(entries: seq<Filed>) {
    forall i, j :: 0 <= i < j < |entries| ==> entries[i] != entries[j]
  }

  lemma {:induction false} RepeatsShrink(entries: seq<Filed>)
    ensures |set e | e in entries| <= |entries|
    ensures NoRepeats(entries) <==> |set e | e in entries| == |entries|
    decreases |entries|
  {
    if entries != [] {
      var rest := entries[1..];
      var all, others := set e | e in entries, set e | e in rest;
      RepeatsShrink(rest);
      assert all == others + {entries[0]};
      if entries[0] in others {
        assert all == others;
        var k :| 0 <= k < |rest| && rest[k] == entries[0];
        assert entries[k + 1] == entries[0];
      } else {
        assert |all| == |others| + 1;
        forall i, j | 0 <= i < j < |entries| && NoRepeats(rest) ensures entries[i] != entries[j] {
          assert entries[j] == rest[j - 1];
          if i > 0 { assert entries[i] == rest[i - 1]; }
        }
        if NoRepeats(entries) {
          forall i, j | 0 <= i < j < |rest| ensures rest[i] != rest[j] { assert entries[i + 1] != entries[j + 1]; }
        }
      }
    }
  }

  /** A list of a set has each of its entries once. */
  lemma ListsOnce(entries: seq<Filed>, all: set<Filed>)
    requires InOrder(entries) && forall e :: e in entries <==> e in all
    ensures Lists(entries, all) <==> NoRepeats(entries)
  {
    RepeatsShrink(entries);
    assert (set e | e in entries) == all;
  }

  lemma {:induction false} MineOnce(entries: seq<Filed>, me: Option<string>)
    requires NoRepeats(entries)
    ensures NoRepeats(Mine(entries, me))
    decreases |entries|
  {
    if entries != [] {
      var rest := entries[1..];
      forall i, j | 0 <= i < j < |rest| ensures rest[i] != rest[j] { assert entries[i + 1] != entries[j + 1]; }
      MineOnce(rest, me);
      forall k | 0 <= k < |Mine(rest, me)| ensures Mine(rest, me)[k] != entries[0] {
        assert Mine(rest, me)[k] in rest;
      }
    }
  }

  /** The entries of one account, in the order given. */
  function Mine(entries: seq<Filed>, me: Option<string>): (r: seq<Filed>)
    ensures forall e :: e in r <==> e in entries && e.owner == me
  {
    if entries == [] then []
    else (if entries[0].owner == me then [entries[0]] else []) + Mine(entries[1..], me)
  }

  lemma {:induction false} MineInOrder(entries: seq<Filed>, me: Option<string>)
    requires InOrder(entries)
    ensures InOrder(Mine(entries, me))
    decreases |entries|
  {
    if entries != [] { MineInOrder(entries[1..], me); }
  }

  method Sorted(entries: set<Filed>) returns (r: seq<Filed>)
    ensures Lists(r, entries)
  {
    r := [];
    var left := entries;
    while left != {}
      invariant left <= entries && InOrder(r) && |r| + |left| == |entries|
      invariant forall e :: e in r <==> e in entries - left
      decreases |left|
    {
      var e :| e in left;
      r := Insert(e, r);
      left := left - {e};
    }
  }

  /** The entries the server answered about, whatever it said. */
  function Answered(sent: seq<Filed>, replies: nat -> Reply): set<Filed> {
    set k: nat | k < |sent| && !replies(k).Unreachable? :: sent[k]
  }

  function Less(store: map<string, Filed>, gone: set<Filed>): map<string, Filed> {
    map k | k in store && store[k] !in gone :: store[k]
  }

  lemma AnsweredNone(replies: nat -> Reply)
    ensures Answered([], replies) == {}
    ensures forall store :: Less(store, {}) == store
  {
  }

  lemma AnsweredNext(sent: seq<Filed>, e: Filed, replies: nat -> Reply)
    ensures Answered(sent + [e], replies)
         == if replies(|sent|).Unreachable? then Answered(sent, replies) else Answered(sent, replies) + {e}
  {
    var more := sent + [e];
    forall o | o in Answered(sent, replies) ensures o in Answered(more, replies) {
      var k: nat :| k < |sent| && !replies(k).Unreachable? && sent[k] == o;
      assert more[k] == o;
    }
    if !replies(|sent|).Unreachable? { assert more[|sent|] == e; }
  }

  lemma LessOne(store: map<string, Filed>, gone: set<Filed>, e: Filed)
    requires Keyed(store) && e.key in store && store[e.key] == e
    ensures Less(store, gone) - {e.key} == Less(store, gone + {e})
  {
  }

  /** The store without the entries nobody owns. */
  function OwnedOnly(store: map<string, Filed>): map<string, Filed> {
    map k | k in store && store[k].owner.Some? :: store[k]
  }

  lemma OwnedStays(store: map<string, Filed>, gone: set<Filed>)
    ensures OwnedOnly(OwnedOnly(store)) == OwnedOnly(store)
    ensures OwnedOnly(Less(OwnedOnly(store), gone)) == Less(OwnedOnly(store), gone)
  {
  }

  lemma OwnedIsLess(store: map<string, Filed>)
    ensures Less(store, store.Values - Owned(store.Values)) == OwnedOnly(store)
    ensures OwnedOnly(store).Values == Owned(store.Values)
  {
    forall k | k in store ensures store[k] in store.Values {}
    forall e | e in Owned(store.Values) ensures e in OwnedOnly(store).Values {
      var k :| k in store && store[k] == e;
      assert k in OwnedOnly(store) && OwnedOnly(store)[k] == e;
    }
  }

  function Keys(entries: seq<Filed>): (keys: set<string>)
    ensures forall k :: k in keys <==> exists e :: e in entries && e.key == k
  {
    set e | e in entries :: e.key
  }

  function Without(store: map<string, Filed>, keys: set<string>): map<string, Filed> {
    map k | k in store && k !in keys :: store[k]
  }

  lemma WithoutKeyed(store: map<string, Filed>, keys: set<string>)
    requires Keyed(store)
    ensures Keyed(Without(store, keys))
  {
  }

  lemma WithoutNone(store: map<string, Filed>, entries: seq<Filed>)
    ensures Without(store, Keys(entries[..0])) == store
  {
  }

  lemma WithoutNext(store: map<string, Filed>, entries: seq<Filed>, i: nat)
    requires i < |entries|
    ensures Without(store, Keys(entries[..i])) - {entries[i].key} == Without(store, Keys(entries[..i + 1]))
  {
    assert entries[..i + 1] == entries[..i] + [entries[i]];
    assert forall e :: e in entries[..i + 1] <==> e in entries[..i] || e == entries[i];
    assert Keys(entries[..i + 1]) == Keys(entries[..i]) + {entries[i].key};
  }

  /** What an agreed drop leaves in the store: it deletes what `held` lists of the owner's. */
  function AfterDrop(store: map<string, Filed>, held: seq<Filed>, owner: string): map<string, Filed> {
    OwnedOnly(Without(store, Keys(Mine(held, Some(owner)))))
  }

  /** Exactly the entries `held` does not list survive their owner's drop, such as one another tab
      stored since the last reload; nobody else's entry that has an owner is touched. */
  lemma DropLeaves(store: map<string, Filed>, held: seq<Filed>, owner: string, k: string)
    requires Keyed(store) && k in store && store[k].owner.Some? && forall e :: e in held && e.key in store ==> store[e.key] == e
    ensures k in AfterDrop(store, held, owner) <==> store[k].owner != Some(owner) || store[k] !in held
  {
    if store[k] in held && store[k].owner == Some(owner) { assert store[k] in Mine(held, Some(owner)); }
  }

  /** What accounts other than `owner` have stored. */
  function OthersOf(store: map<string, Filed>, owner: string): map<string, Filed> {
    map k | k in store && store[k].owner.Some? && store[k].owner.value != owner :: store[k]
  }

  /** The drop leaves nothing of the owner's exactly when `held` lists all that is stored of it. */
  lemma DropIsWhole(store: map<string, Filed>, held: seq<Filed>, owner: string)
    requires Keyed(store) && forall e :: e in held && e.key in store ==> store[e.key] == e
    ensures AfterDrop(store, held, owner) == OthersOf(store, owner)
       <==> forall k :: k in store && store[k].owner == Some(owner) ==> store[k] in held
  {
    hide AfterDrop, Keyed;
    forall k | k in store && store[k].owner.Some?
      ensures k in AfterDrop(store, held, owner) <==> store[k].owner != Some(owner) || store[k] !in held
    {
      DropLeaves(store, held, owner, k);
    }
    DropOnlyTakes(store, held, owner);
  }

  lemma DropOnlyTakes(store: map<string, Filed>, held: seq<Filed>, owner: string)
    ensures forall k :: k in AfterDrop(store, held, owner) ==>
      k in store && AfterDrop(store, held, owner)[k] == store[k] && store[k].owner.Some?
  {
  }

  /** The entry a key stands for is the one stored under it. */
  lemma KeyOf(store: map<string, Filed>, e: Filed)
    requires Keyed(store) && e in store.Values
    ensures e.key in store && store[e.key] == e
  {
  }

  lemma PrefixInOrder(entries: seq<Filed>, k: nat)
    requires InOrder(entries) && k <= |entries|
    ensures InOrder(entries[..k])
  {
  }

  /** What one post does to the store, answered or not. */
  lemma PostOne(before: map<string, Filed>, kept: map<string, Filed>, sent: seq<Filed>, e: Filed, replies: nat -> Reply)
    requires Keyed(kept) && kept == OwnedOnly(before) && e.key in kept && kept[e.key] == e
    ensures var now := Less(kept, Answered(sent, replies));
            Less(kept, Answered(sent + [e], replies))
            == if replies(|sent|).Unreachable? then now else OwnedOnly(now - {e.key})
  {
    hide Less, OwnedOnly, Answered, Keyed;
    AnsweredNext(sent, e, replies);
    LessOne(kept, Answered(sent, replies), e);
    OwnedStays(before, Answered(sent + [e], replies));
  }

  /** What one account has waiting. */
  function WaitingFor(store: map<string, Filed>, me: Option<string>): set<Filed> {
    set e | e in Owned(store.Values) && e.owner == me
  }

  /** The queue flush walks is all one account has waiting, in order. */
  lemma QueueOf(before: map<string, Filed>, kept: map<string, Filed>, held: seq<Filed>, me: Option<string>)
    requires Keyed(before) && kept == OwnedOnly(before) && Lists(held, kept.Values)
    ensures InOrder(Mine(held, me)) && forall e :: e in Mine(held, me) <==> e in WaitingFor(before, me)
    ensures Lists(Mine(held, me), WaitingFor(before, me)) && NoRepeats(Mine(held, me))
    ensures forall e :: e in Mine(held, me) ==> e.key in kept && kept[e.key] == e
  {
    MineInOrder(held, me);
    OwnedIsLess(before);
    ListsOnce(held, kept.Values);
    MineOnce(held, me);
    ListsOnce(Mine(held, me), WaitingFor(before, me));
    forall e | e in Mine(held, me) ensures e.key in kept && kept[e.key] == e {
      var k :| k in kept && kept[k] == e;
    }
  }

  lemma LessKeyed(store: map<string, Filed>, gone: set<Filed>)
    requires Keyed(store)
    ensures Keyed(Less(store, gone)) && Keyed(OwnedOnly(store))
  {
  }

  // ----- the server ----------------------------------------------------------------------------------

  /** At most one row a key. */
  predicate OnePerKey(rows: seq<Post>) {
    forall i, j :: 0 <= i < j < |rows| ==> rows[i].key != rows[j].key
  }

  predicate HasRow(rows: seq<Post>, key: string) {
    exists i :: 0 <= i < |rows| && rows[i].key == key
  }

  /** A repeated key answers with the row already there. */
  function Filing(rows: seq<Post>, p: Post): (r: seq<Post>)
    requires OnePerKey(rows)
    ensures OnePerKey(r) && rows <= r && HasRow(r, p.key)
  {
    if HasRow(rows, p.key) then rows
    else
      var r := rows + [p];
      assert r[|rows|].key == p.key;
      r
  }

  // ----- the tab ---------------------------------------------------------------------------------------

  class Tab {
    var store: map<string, Filed>         // IndexedDB, which outlives the tab
    var held: seq<Filed>
    var sending: bool

    ghost predicate Valid()
      reads this
    {
      Keyed(store)
    }

    /** reload: entries nobody owns are deleted, the rest listed oldest first. */
    method Reload()
      requires Valid()
      modifies this`store, this`held
      ensures Valid() && Lists(held, store.Values)
      ensures store == OwnedOnly(old(store))
    {
      hide Less, OwnedOnly, Keyed, Owned;
      var all := store.Values;
      var nobodys := all - Owned(all);
      AnsweredNone(_ => Accepted);
      assert all - Owned(all) - nobodys == {};
      while nobodys != {}
        invariant nobodys <= all - Owned(all)
        invariant store == Less(old(store), all - Owned(all) - nobodys)
        decreases |nobodys|
      {
        var e :| e in nobodys;
        KeyOf(old(store), e);
        LessOne(old(store), all - Owned(all) - nobodys, e);
        store := store - {e.key};
        assert all - Owned(all) - (nobodys - {e}) == all - Owned(all) - nobodys + {e};
        nobodys := nobodys - {e};
      }
      assert all - Owned(all) - nobodys == all - Owned(all);
      OwnedIsLess(old(store));
      LessKeyed(old(store), {});
      held := Sorted(Owned(all));
    }

    /** drop */
    method Drop(key: string)
      requires Valid()
      modifies this`store, this`held
      ensures Valid() && Lists(held, store.Values)
      ensures store == OwnedOnly(old(store) - {key})
    {
      store := store - {key};
      Reload();
    }

    /** keep: the entry is stored under the account signed in; with nobody signed in it is not. */
    method Keep(key: string, body: int, filedAt: int, user: Option<string>) returns (kept: bool)
      requires Valid()
      modifies this`store, this`held
      ensures Valid() && kept == user.Some?
      ensures !kept ==> store == old(store) && held == old(held)
      ensures kept ==> key in store && store[key] == Filed(key, body, filedAt, user)
      ensures kept ==> Lists(held, store.Values)
      ensures kept ==> store == OwnedOnly(old(store)[key := Filed(key, body, filedAt, user)])
    {
      if user.None? { return false; }
      store := store[key := Filed(key, body, filedAt, user)];
      Reload();
      return true;
    }

    /** dropOwned: what this tab lists of one account goes, and nothing else that has an owner. */
    method DropOwned(owner: string)
      requires Valid()
      modifies this`store, this`held
      ensures Valid() && Lists(held, store.Values)
      ensures store == AfterDrop(old(store), old(held), owner)
    {
      hide OwnedOnly, InOrder, Without;
      var theirs := Mine(held, Some(owner));
      WithoutNone(old(store), theirs);
      for i := 0 to |theirs|
        invariant store == Without(old(store), Keys(theirs[..i]))
      {
        WithoutNext(old(store), theirs, i);
        store := store - {theirs[i].key};
      }
      assert theirs[..|theirs|] == theirs;
      WithoutKeyed(old(store), Keys(theirs));
      Reload();
    }

    lemma NothingOnce()
      ensures InOrder([]) && NoRepeats([])
    {
    }

    lemma PrefixOnce(queue: seq<Filed>, sent: seq<Filed>)
      requires sent <= queue && NoRepeats(queue)
      ensures NoRepeats(sent)
    {
    }

    /** flush, alone on the device: `users` is who is signed in as each post is about to leave and
        `replies` what comes back.  It walks one account's entries oldest first, posts each once
        and only while that account is signed in, and stops only at an account switch or a post with no
        answer; exactly the entries the server answered about leave the store. */
    method Flush(online: bool, me: Option<string>, users: nat -> Option<string>, replies: nat -> Reply)
      returns (queue: seq<Filed>, sent: seq<Filed>)
      requires Valid()
      modifies this
      ensures Valid() && sending == old(sending) && sent <= queue
      ensures old(sending) || !online ==> queue == [] && store == old(store) && held == old(held)
      ensures online && !old(sending) ==> Lists(queue, WaitingFor(old(store), me))
      ensures InOrder(queue) && NoRepeats(queue) && NoRepeats(sent)
      ensures forall k :: 0 <= k < |sent| ==> users(k) == me && (k + 1 < |sent| ==> !replies(k).Unreachable?)
      ensures sent == queue || users(|sent|) != me || (sent != [] && replies(|sent| - 1).Unreachable?)
      ensures online && !old(sending) ==>
        Lists(held, store.Values) && store == Less(OwnedOnly(old(store)), Answered(sent, replies))
    {
      hide Less, Keyed, OwnedOnly, Answered, InOrder, Lists, Mine, WaitingFor, NoRepeats;
      NothingOnce();
      queue, sent := [], [];
      if sending || !online { return; }
      sending := true;
      Reload();
      ghost var kept := store;
      queue := Mine(held, me);
      AnsweredNone(replies);
      LessKeyed(old(store), {});
      QueueOf(old(store), kept, held, me);
      var k := 0;
      while k < |queue|
        invariant k <= |queue| && Valid() && sending && sent == queue[..k] && Lists(held, store.Values)
        invariant forall i :: 0 <= i < k ==> users(i) == me && !replies(i).Unreachable?
        invariant store == Less(kept, Answered(sent, replies))
        decreases |queue| - k
      {
        if users(k) != me { break; }
        var entry := queue[k];
        assert entry in queue;
        PostOne(old(store), kept, sent, entry, replies);
        sent := sent + [entry];
        if replies(k).Unreachable? { break; }
        Drop(entry.key);
        k := k + 1;
      }
      PrefixOnce(queue, sent);
      sending := false;
    }
  }
}
