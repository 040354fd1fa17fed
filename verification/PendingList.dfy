/**
 The list of people waiting to be captured (firmware/main/app_tasks.c: assign_pending,
 revoke_pending, revoke_all_pending, load_pending, offer_pending): 64 rows in RAM and their image in
 NVS.  What the rows stand for is a map from employee to name.
 */
module PendingList {

  const CAP: nat := 64
  const PAGE: nat := 8
  const MAGIC: nat := 0x32444E50

  datatype Row = Row(employee: nat, name: string)

  const BLANK := Row(0, "")

  /** storage_pending_t as a value: the NVS image. */
  datatype Image = Image(magic: nat, count: nat, rows: seq<Row>)

  /** What load_pending takes for a list: its own layout, and no more rows than there are. */
  predicate Readable(i: Image) { i.magic == MAGIC && i.count <= CAP }

  predicate Distinct(live: seq<Row>) {
    forall i, j :: 0 <= i < j < |live| ==> live[i].employee != live[j].employee
  }

  /** A list in order: within the cap, no employee twice, nothing past the count. */
  predicate Sound(rows: seq<Row>, count: nat) {
    && |rows| == CAP && count <= CAP && Distinct(rows[..count])
    && forall i :: count <= i < CAP ==> rows[i] == BLANK
  }

  function Ids(live: seq<Row>): set<nat> { set r | r in live :: r.employee }

  /** The map a list of rows stands for. */
  function Names(live: seq<Row>): map<nat, string> {
    if live == [] then map[]
    else Names(live[..|live| - 1])[live[|live| - 1].employee := live[|live| - 1].name]
  }

  lemma IdsMore(head: seq<Row>, last: Row)
    ensures Ids(head + [last]) == Ids(head) + {last.employee}
    ensures Distinct(head + [last]) ==> last.employee !in Ids(head)
  {
    var all := head + [last];
    assert forall r :: r in all <==> r in head || r == last;
    if Distinct(all) {
      forall r | r in head ensures r.employee != last.employee {
        var i :| 0 <= i < |head| && head[i] == r;
        assert all[i].employee != all[|head|].employee;
      }
    }
  }

  lemma {:induction false} NamesOf(live: seq<Row>)
    requires Distinct(live)
    ensures Names(live).Keys == Ids(live) && |Names(live)| == |live|
    ensures forall r :: r in live ==> r.employee in Names(live) && Names(live)[r.employee] == r.name
    decreases |live|
  {
    hide Ids;
    if live == [] {
      NoIds();
    } else {
      var head, last := live[..|live| - 1], live[|live| - 1];
      NamesOf(head);
      IdsMore(head, last);
      assert live == head + [last];
      assert last.employee !in Names(head);
    }
  }

  lemma NoIds()
    ensures Ids([]) == {}
  {
  }

  /** A map with one entry for each row, and no other, is what the rows stand for. */
  lemma NamesAre(live: seq<Row>, m: map<nat, string>)
    requires Distinct(live) && m.Keys == Ids(live) && forall r :: r in live ==> m[r.employee] == r.name
    ensures Names(live) == m
  {
    NamesOf(live);
    forall e | e in m ensures Names(live)[e] == m[e] {
      var r :| r in live && r.employee == e;
    }
  }

  lemma Added(live: seq<Row>, row: Row)
    requires Distinct(live) && row.employee !in Ids(live)
    ensures Distinct(live + [row]) && Names(live + [row]) == Names(live)[row.employee := row.name]
  {
    var more := live + [row];
    forall i | 0 <= i < |live| ensures live[i].employee != row.employee { assert live[i] in live; }
    assert more[..|live|] == live;
  }

  lemma Renamed(live: seq<Row>, i: nat, name: string)
    requires Distinct(live) && i < |live|
    ensures var next := live[i := live[i].(name := name)];
            Distinct(next) && Ids(next) == Ids(live) && Names(next) == Names(live)[live[i].employee := name]
            && live[i].employee in Names(live)
  {
    hide Names;
    var next := live[i := live[i].(name := name)];
    NamesOf(live);
    assert live[i] in live;
    forall r | r in live ensures r.employee in Ids(next) {
      var k :| 0 <= k < |live| && live[k] == r;
      assert next[k] in next && next[k].employee == r.employee;
    }
    forall k | 0 <= k < |next| ensures next[k].employee in Ids(live) && Names(live)[live[i].employee := name][next[k].employee] == next[k].name {
      assert live[k] in live;
    }
    NamesAre(next, Names(live)[live[i].employee := name]);
  }

  /** The last row moved into the hole leaves everyone else named as before. */
  lemma SwapRemoved(live: seq<Row>, i: nat)
    requires Distinct(live) && i < |live|
    ensures var next := live[i := live[|live| - 1]][..|live| - 1];
            Distinct(next) && Names(next) == Names(live) - {live[i].employee} && live[i].employee in Names(live)
  {
    hide Names;
    var last := |live| - 1;
    var next := live[i := live[last]][..last];
    NamesOf(live);
    assert live[i] in live;
    forall r | r in live && r.employee != live[i].employee ensures r.employee in Ids(next) {
      var k :| 0 <= k < |live| && live[k] == r;
      assert next[if k == last then i else k] == r;
    }
    forall k | 0 <= k < |next| ensures next[k] in live && next[k].employee != live[i].employee {
      assert next[k] == live[if k == i then last else k];
    }
    NamesAre(next, Names(live) - {live[i].employee});
  }

  // ----- the list ---------------------------------------------------------------------------------------

  class Pending {
    const rows: array<Row>
    var count: nat
    var nvs: Image                        // the blob under device/pending
    ghost var stale: bool                 // the last save was refused, or the image is not ours

    constructor (image: Image)
      requires Readable(image) ==> Sound(image.rows, image.count)
      ensures Valid() && nvs == image && stale && Waiting() == map[] && fresh(rows)
    {
      rows := new Row[CAP](_ => BLANK);
      count, nvs, stale := 0, image, true;
    }

    /** RAM in order, the image in order, and the same people in both since the last save that took. */
    ghost predicate Valid()
      reads this, rows
    {
      && rows.Length == CAP && Sound(rows[..], count)
      && (Readable(nvs) ==> Sound(nvs.rows, nvs.count))
      && (!stale ==> Readable(nvs) && Ids(nvs.rows[..nvs.count]) == Ids(rows[..count]))
    }

    ghost function Waiting(): map<nat, string>
      requires Valid()
      reads this, rows
    {
      Names(rows[..count])
    }

    /** save_pending: a save that is refused is only warned about. */
    method Save(ok: bool)
      requires rows.Length == CAP && Sound(rows[..], count)
      requires Readable(nvs) ==> Sound(nvs.rows, nvs.count)
      modifies this`nvs, this`stale
      ensures Valid() && stale == !ok
      ensures nvs == if ok then Image(MAGIC, count, rows[..]) else old(nvs)
    {
      if ok { nvs := Image(MAGIC, count, rows[..]); }
      stale := !ok;
    }

    method Find(employee: nat) returns (i: nat)
      requires Valid()
      ensures i <= count && (i < count ==> rows[i].employee == employee)
      ensures i == count ==> employee !in Ids(rows[..count])
      ensures i < count <==> employee in Waiting()
    {
      i := 0;
      while i < count && rows[i].employee != employee
        invariant i <= count && forall k :: 0 <= k < i ==> rows[k].employee != employee
      {
        i := i + 1;
      }
      NamesOf(rows[..count]);
      if i < count { assert rows[..count][i] in rows[..count]; }
    }

    /** assign_pending: it fails only for somebody new on a full list.  A new name for somebody
        already there is kept in RAM and not saved. */
    method Assign(employee: nat, name: string, saves: bool) returns (ok: bool)
      requires Valid()
      modifies this, rows
      ensures Valid()
      ensures ok <==> employee in old(Waiting()) || |old(Waiting())| < CAP
      ensures Waiting() == if ok then old(Waiting())[employee := name] else old(Waiting())
      ensures !ok || employee in old(Waiting()) ==> nvs == old(nvs) && stale == old(stale)
      ensures ok && employee !in old(Waiting()) ==> stale == !saves && (saves ==> Names(nvs.rows[..nvs.count]) == Waiting())
    {
      hide Names, Ids;
      NamesOf(rows[..count]);
      var i := Find(employee);
      ghost var live := rows[..count];
      if i < count {
        Renamed(live, i, name);
        rows[i] := rows[i].(name := name);
        assert rows[..count] == live[i := live[i].(name := name)];
        return true;
      }
      if count >= CAP { return false; }
      Added(live, Row(employee, name));
      rows[count] := Row(employee, name);
      count := count + 1;
      assert rows[..count] == live + [Row(employee, name)];
      Save(saves);
      return true;
    }

    /** revoke_pending */
    method Revoke(employee: nat, saves: bool)
      requires Valid()
      modifies this, rows
      ensures Valid() && Waiting() == old(Waiting()) - {employee}
      ensures employee !in old(Waiting()) ==> nvs == old(nvs) && stale == old(stale)
      ensures employee in old(Waiting()) ==> stale == !saves && (saves ==> Names(nvs.rows[..nvs.count]) == Waiting())
    {
      hide Names, Ids;
      var i := Find(employee);
      if i == count { return; }
      ghost var live := rows[..count];
      SwapRemoved(live, i);
      var last := count - 1;
      rows[i] := rows[last];
      rows[last] := BLANK;
      count := last;
      assert rows[..count] == live[i := live[last]][..last];
      Save(saves);
    }

    method Blank()
      requires rows.Length == CAP
      modifies rows, this`count
      ensures count == 0 && forall i :: 0 <= i < CAP ==> rows[i] == BLANK
    {
      for i := 0 to CAP
        invariant forall k :: 0 <= k < i ==> rows[k] == BLANK
      {
        rows[i] := BLANK;
      }
      count := 0;
    }

    /** revoke_all_pending: the memset takes the magic too, and the save puts it back. */
    method RevokeAll(saves: bool)
      requires Valid()
      modifies this, rows
      ensures Valid() && Waiting() == map[] && stale == !saves
    {
      Blank();
      Save(saves);
    }

    /** load_pending, on whatever the last boot left: an image of another layout or with too many
        rows, or one that will not read, is an empty list. */
    method Load(readable: bool)
      requires Valid()
      modifies this, rows
      ensures Valid() && nvs == old(nvs)
      ensures Waiting() == if readable && Readable(nvs) then Names(nvs.rows[..nvs.count]) else map[]
    {
      if readable && Readable(nvs) {
        for i := 0 to CAP
          invariant nvs == old(nvs) && forall k :: 0 <= k < i ==> rows[k] == nvs.rows[k]
        {
          rows[i] := nvs.rows[i];
        }
        assert rows[..] == nvs.rows;
        count, stale := nvs.count, false;
        assert rows[..count] == nvs.rows[..nvs.count];
      } else {
        Blank();
        stale := true;
      }
    }

    /** offer_pending: the page asked for, or the last one when the list shrank under it; it always
        lies inside the list and is empty only if the list is.  `holds` is whether a face is held
        for somebody, which marks the row as a retake. */
    method Offer(asked: nat, holds: nat -> bool) returns (shown: seq<Row>, retake: seq<bool>, first: nat, total: nat)
      requires Valid()
      ensures |retake| == |shown| && forall i :: 0 <= i < |shown| ==> retake[i] == holds(shown[i].employee)
      ensures total == count && first + |shown| <= total && shown == rows[first..first + |shown|]
      ensures total > 0 ==> shown != []
      ensures asked < total ==> first == asked && |shown| == (if total - asked < PAGE then total - asked else PAGE)
      ensures asked >= total ==> first + |shown| == total && |shown| == (if total < PAGE then total else PAGE)
    {
      total := count;
      first := asked;
      if first >= total {
        first := if total > PAGE then total - PAGE else 0;
      }
      var left := total - first;
      var n := if left < PAGE then left else PAGE;
      shown, retake := [], [];
      for i := 0 to n
        invariant shown == rows[first..first + i] && |retake| == |shown|
        invariant forall k :: 0 <= k < i ==> retake[k] == holds(shown[k].employee)
      {
        shown := shown + [rows[first + i]];
        retake := retake + [holds(rows[first + i].employee)];
      }
    }
  }
}
