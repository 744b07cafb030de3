/** The `messages` table: rows in primary-key order, its statements and the repository. */
module Messages {
  import opened Seqs

  datatype Message = Message(
    id: int, account: int, uidvalidity: int, uid: int,
    internalDate: int, fetchedAt: int, pushedAt: Option<int>, body: string)

  type Table = seq<Message>

  ghost predicate Sorted(t: Table) {
    forall i, j :: 0 <= i < j < |t| ==> t[i].id < t[j].id
  }

  predicate HasId(t: Table, id: int) {
    exists m :: m in t && m.id == id
  }

  predicate HasKey(t: Table, account: int, uidvalidity: int, uid: int) {
    exists m :: m in t && m.account == account && m.uidvalidity == uidvalidity && m.uid == uid
  }

  /** UNIQUE (mail_account_id, uidvalidity, uid). */
  ghost predicate UniqueKeys(t: Table) {
    forall i, j :: 0 <= i < j < |t| ==>
      t[i].account != t[j].account || t[i].uidvalidity != t[j].uidvalidity || t[i].uid != t[j].uid
  }

  // ---------------------------------------------------------------- statements

  /** INSERT ... ON CONFLICT DO NOTHING; the sequence has handed out `m.id` either way. */
  function Insert(t: Table, m: Message): Table {
    if HasKey(t, m.account, m.uidvalidity, m.uid) then t else t + [m]
  }

  function ListForPush(t: Table, ids: seq<int>): Table {
    Filter(t, (m: Message) => m.id in ids)
  }

  function Stamp(m: Message, ids: seq<int>, now: int): Message {
    if m.id in ids && m.pushedAt.None? then m.(pushedAt := Some(now)) else m
  }

  function MarkPushed(t: Table, ids: seq<int>, now: int): (r: Table)
    ensures |r| == |t|
    ensures forall i :: 0 <= i < |t| ==> r[i] == Stamp(t[i], ids, now)
  {
    if t == [] then [] else [Stamp(t[0], ids, now)] + MarkPushed(t[1..], ids, now)
  }

  predicate Pending(m: Message, windowStart: int) {
    m.pushedAt.None? && m.fetchedAt > windowStart
  }

  function PendingRows(t: Table, windowStart: int): Table {
    Filter(t, (m: Message) => Pending(m, windowStart))
  }

  function Ids(t: Table): (r: seq<int>)
    ensures |r| == |t|
    ensures forall i :: 0 <= i < |t| ==> r[i] == t[i].id
  {
    Map(t, (m: Message) => m.id)
  }

  function ListPendingPush(t: Table, windowStart: int, limit: nat): seq<int> {
    Ids(Take(PendingRows(t, windowStart), limit))
  }

  function Delete(t: Table, ids: seq<int>): Table {
    Filter(t, (m: Message) => m.id !in ids)
  }

  /** ON DELETE CASCADE from the mailbox. */
  function DeleteOfAccount(t: Table, account: int): Table {
    Filter(t, (m: Message) => m.account != account)
  }

  // ---------------------------------------------------------------- facts

  lemma {:induction false} FilterSorted(t: Table, keep: Message -> bool)
    requires Sorted(t)
    ensures Sorted(Filter(t, keep))
  {
    if t != [] {
      assert Sorted(t[1..]);
      FilterSorted(t[1..], keep);
      FilterMembers(t[1..], keep);
      assert forall m :: m in t[1..] ==> t[0].id < m.id;
    }
  }

  lemma {:induction false} FilterUniqueKeys(t: Table, keep: Message -> bool)
    requires UniqueKeys(t)
    ensures UniqueKeys(Filter(t, keep))
  {
    if t != [] {
      assert UniqueKeys(t[1..]);
      FilterUniqueKeys(t[1..], keep);
      FilterMembers(t[1..], keep);
      assert forall m :: m in t[1..] ==>
        t[0].account != m.account || t[0].uidvalidity != m.uidvalidity || t[0].uid != m.uid;
    }
  }

  lemma InsertKeepsKeys(t: Table, m: Message)
    requires UniqueKeys(t)
    ensures UniqueKeys(Insert(t, m))
    ensures HasKey(Insert(t, m), m.account, m.uidvalidity, m.uid)
  {
    if !HasKey(t, m.account, m.uidvalidity, m.uid) {
      assert (t + [m])[|t|] == m;
    }
  }

  /** In a sorted table an id names one row. */
  lemma SameId(t: Table, a: Message, b: Message)
    requires Sorted(t) && a in t && b in t && a.id == b.id
    ensures a == b
  {}

  lemma MarkPushedKeepsOrder(t: Table, ids: seq<int>, now: int)
    requires Sorted(t) && UniqueKeys(t)
    ensures Sorted(MarkPushed(t, ids, now)) && UniqueKeys(MarkPushed(t, ids, now))
  {}

  /** The row that a stamped row was. */
  lemma StampedFrom(t: Table, ids: seq<int>, now: int, m: Message) returns (was: Message)
    requires m in MarkPushed(t, ids, now)
    ensures was in t && m == Stamp(was, ids, now)
  {
    var s := MarkPushed(t, ids, now);
    var i :| 0 <= i < |s| && s[i] == m;
    was := t[i];
  }

  lemma StampedTo(t: Table, ids: seq<int>, now: int, was: Message)
    requires was in t
    ensures Stamp(was, ids, now) in MarkPushed(t, ids, now)
  {
    var i :| 0 <= i < |t| && t[i] == was;
    assert MarkPushed(t, ids, now)[i] == Stamp(was, ids, now);
  }

  // ---------------------------------------------------------------- repository

  class MessagesRepo {
    var rows: Table
    var nextId: int

    ghost predicate Valid()
      reads this
    {
      && Sorted(rows) && UniqueKeys(rows)
      && forall m :: m in rows ==> m.id < nextId
    }

    constructor ()
      ensures Valid() && rows == []
    {
      rows, nextId := [], 1;
    }

    /** Returns the new id, or None on a conflict. */
    method InsertMessageIdempotent(account: int, uidvalidity: int, uid: int, internalDate: int,
                                   fetchedAt: int, body: string) returns (id: Option<int>)
      modifies this
      ensures old(Valid()) ==> Valid()
      ensures nextId == old(nextId) + 1
      ensures rows == Insert(old(rows), Message(old(nextId), account, uidvalidity, uid, internalDate,
                                                fetchedAt, None, body))
      ensures id == if HasKey(old(rows), account, uidvalidity, uid) then None else Some(old(nextId))
    {
      var m := Message(nextId, account, uidvalidity, uid, internalDate, fetchedAt, None, body);
      if Valid() {
        InsertKeepsKeys(rows, m);
      }
      nextId := nextId + 1;
      if HasKey(rows, account, uidvalidity, uid) { return None; }
      rows := rows + [m];
      id := Some(m.id);
    }

    method MarkPushedRows(ids: seq<int>, now: int) returns (marked: nat)
      requires Valid()
      modifies this`rows
      ensures Valid() && rows == MarkPushed(old(rows), ids, now)
      ensures marked == |Filter(old(rows), (m: Message) => m.id in ids && m.pushedAt.None?)|
    {
      marked := |Filter(rows, (m: Message) => m.id in ids && m.pushedAt.None?)|;
      rows := MarkPushed(rows, ids, now);
    }

    method DeleteMessages(ids: seq<int>) returns (deleted: nat)
      requires Valid()
      modifies this`rows
      ensures Valid() && rows == Delete(old(rows), ids)
      ensures deleted == |old(rows)| - |rows|
    {
      FilterSorted(rows, (m: Message) => m.id !in ids);
      FilterUniqueKeys(rows, (m: Message) => m.id !in ids);
      FilterMembers(rows, (m: Message) => m.id !in ids);
      var before := |rows|;
      rows := Delete(rows, ids);
      deleted := before - |rows|;
    }
  }
}
