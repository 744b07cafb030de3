/** The CRM push-outbox: saving, queueing, posting, stamping, recovery and retention as one machine
    of interleaved steps in which the dispatcher may die anywhere. */
module Outbox {
  import opened Seqs
  import opened Messages

  /** The CRM stores a message under (mailbox, UIDVALIDITY, UID), once. */
  type Key = (int, int, int)

  function KeyOf(m: Message): Key {
    (m.account, m.uidvalidity, m.uid)
  }

  function Keys(t: Table): (r: set<Key>)
    ensures forall m :: m in t ==> KeyOf(m) in r
  {
    set m | m in t :: KeyOf(m)
  }

  /** A queue entry: a message id, or a payload that does not parse. */
  type Item = Option<int>

  /** LPUSH of several entries: the last one ends up at the head. */
  function Lpush(queue: seq<Item>, ids: seq<int>): (r: seq<Item>)
    ensures |r| == |ids| + |queue|
    decreases |ids|
  {
    if ids == [] then queue else Lpush([Some(ids[0])] + queue, ids[1..])
  }

  function WellFormed(items: seq<Item>): (r: seq<int>)
    ensures |r| <= |items|
  {
    if items == [] then []
    else WellFormed(items[..|items| - 1])
         + (match items[|items| - 1] case Some(id) => [id] case None => [])
  }

  datatype Dispatcher =
    | Idle
    | Popped(ids: seq<int>)
    | Loaded(ids: seq<int>, rows: Table)
    | Delivered(rows: Table)
    | Failing(ids: seq<int>)

  /** `inserted` names every row ever committed, `deleted` the ids removed by retention or with
      their mailbox. */
  datatype State = State(table: Table, nextId: int, queue: seq<Item>, crm: set<Key>, dispatcher: Dispatcher,
                         inserted: map<int, Key>, deleted: set<int>)

  datatype Reply = Accepted | AppliedButLost | Rejected

  datatype Event =
    | Save(account: int, uidvalidity: int, uid: int, internalDate: int, now: int, body: string)
    | Enqueue(ids: seq<int>)
    | EnqueueGarbage
    | RecoveryScan(windowStart: int, limit: nat)
    | Pop(n: nat)
    | LoadRows
    | Post(reply: Reply)
    | StampAndCommit(now: int)
    | Reenqueue
    | DispatcherDies
    | DeleteRows(ids: seq<int>)
    | DeleteMailbox(account: int)

  predicate Enabled(s: State, e: Event) {
    match e
    case Pop(n) => s.dispatcher.Idle? && 0 < n <= |s.queue|
    case LoadRows => s.dispatcher.Popped?
    case Post(_) => s.dispatcher.Loaded?
    case StampAndCommit(_) => s.dispatcher.Delivered?
    case Reenqueue => s.dispatcher.Failing?
    case _ => true
  }

  function NewRow(s: State, e: Event): Message
    requires e.Save?
  {
    Message(s.nextId, e.account, e.uidvalidity, e.uid, e.internalDate, e.now, None, e.body)
  }

  function Step(s: State, e: Event): State
    requires Enabled(s, e)
  {
    match e
    case Save(a, v, u, _, _, _) =>
      var m := NewRow(s, e);
      s.(table := Insert(s.table, m), nextId := s.nextId + 1,
         inserted := if HasKey(s.table, a, v, u) then s.inserted else s.inserted[m.id := KeyOf(m)])
    case Enqueue(ids) => s.(queue := Lpush(s.queue, ids))
    case EnqueueGarbage => s.(queue := [None] + s.queue)
    case RecoveryScan(w, limit) => s.(queue := Lpush(s.queue, ListPendingPush(s.table, w, limit)))
    case Pop(n) =>
      var ids := WellFormed(s.queue[..n]);
      s.(queue := s.queue[n..], dispatcher := if ids == [] then Idle else Popped(ids))
    case LoadRows =>
      var rows := ListForPush(s.table, s.dispatcher.ids);
      s.(dispatcher := if rows == [] then Idle else Loaded(s.dispatcher.ids, rows))
    case Post(reply) =>
      var d := s.dispatcher;
      s.(crm := if reply.Rejected? then s.crm else s.crm + Keys(d.rows),
         dispatcher := if reply.Accepted? then Delivered(d.rows) else Failing(d.ids))
    case StampAndCommit(now) =>
      s.(table := MarkPushed(s.table, Ids(s.dispatcher.rows), now), dispatcher := Idle)
    case Reenqueue => s.(queue := Lpush(s.queue, s.dispatcher.ids), dispatcher := Idle)
    case DispatcherDies => s.(dispatcher := Idle)
    case DeleteRows(ids) =>
      s.(table := Delete(s.table, ids), deleted := s.deleted + set m | m in s.table && m.id in ids :: m.id)
    case DeleteMailbox(a) =>
      s.(table := DeleteOfAccount(s.table, a), deleted := s.deleted + set m | m in s.table && m.account == a :: m.id)
  }

  /** A save adds exactly this row when its key is new. */
  lemma SavedRow(s: State, e: Event)
    requires e.Save?
    ensures var key, r := (e.account, e.uidvalidity, e.uid), Step(s, e);
            if exists m :: m in s.table && (m.account, m.uidvalidity, m.uid) == key
            then r == s.(nextId := s.nextId + 1)
            else r == s.(nextId := s.nextId + 1, inserted := s.inserted[s.nextId := key],
                         table := s.table + [Message(s.nextId, e.account, e.uidvalidity, e.uid,
                                                     e.internalDate, e.now, None, e.body)])
  {}

  /** Only the retention job and the deletion of a mailbox delete, and only what they find. */
  lemma DeletedIsGone(s: State, e: Event, id: int)
    requires Enabled(s, e)
    ensures id in Step(s, e).deleted
            <==> id in s.deleted
                 || exists m :: m in s.table && m.id == id
                                && ((e.DeleteRows? && id in e.ids) || (e.DeleteMailbox? && m.account == e.account))
  {}

  // ---------------------------------------------------------------- invariant

  /** A row loaded by the dispatcher still bears its key, if it exists at all. */
  ghost predicate SameKeys(table: Table, rows: Table, nextId: int) {
    && (forall r :: r in rows ==> r.id < nextId)
    && forall r, m :: r in rows && m in table && r.id == m.id ==> KeyOf(r) == KeyOf(m)
  }

  ghost predicate DispatcherInv(s: State) {
    match s.dispatcher
    case Loaded(_, rows) => SameKeys(s.table, rows, s.nextId)
    case Delivered(rows) => SameKeys(s.table, rows, s.nextId) && Keys(rows) <= s.crm
    case _ => true
  }

  ghost predicate RowsInv(s: State) {
    && Sorted(s.table) && UniqueKeys(s.table)
    && (forall m :: m in s.table ==> m.id < s.nextId && m.id in s.inserted && s.inserted[m.id] == KeyOf(m))
    && (forall id :: id in s.inserted ==> id < s.nextId && (id in s.deleted || HasId(s.table, id)))
  }

  ghost predicate PushedIsHeld(s: State) {
    forall m :: m in s.table && m.pushedAt.Some? ==> KeyOf(m) in s.crm
  }

  ghost predicate WasInserted(inserted: map<int, Key>, k: Key) {
    exists id :: id in inserted && inserted[id] == k
  }

  ghost predicate NothingInvented(s: State) {
    && (forall k :: k in s.crm ==> WasInserted(s.inserted, k))
    && (s.dispatcher.Loaded? ==> forall r :: r in s.dispatcher.rows ==> WasInserted(s.inserted, KeyOf(r)))
  }

  ghost predicate Inv(s: State) {
    RowsInv(s) && DispatcherInv(s) && PushedIsHeld(s) && NothingInvented(s)
  }

  // ---------------------------------------------------------------- steps

  lemma SaveKeepsRows(s: State, e: Event)
    requires RowsInv(s) && e.Save?
    ensures RowsInv(Step(s, e))
  {
    var r := Step(s, e);
    var m := NewRow(s, e);
    InsertKeepsKeys(s.table, m);
    forall id | id in r.inserted ensures id in r.deleted || HasId(r.table, id) {
      if id in s.inserted {
        if id !in s.deleted {
          var w :| w in s.table && w.id == id;
          assert w in r.table;
        }
      } else {
        assert m in r.table;
      }
    }
  }

  lemma SaveStep(s: State, e: Event)
    requires Inv(s) && e.Save?
    ensures Inv(Step(s, e))
  {
    var r := Step(s, e);
    SaveKeepsRows(s, e);
    forall k | WasInserted(s.inserted, k) ensures WasInserted(r.inserted, k) {
      var id :| id in s.inserted && s.inserted[id] == k;
      assert id in r.inserted && r.inserted[id] == k;
    }
  }

  lemma QueueStep(s: State, e: Event)
    requires Inv(s) && Enabled(s, e)
    requires e.Enqueue? || e.EnqueueGarbage? || e.RecoveryScan? || e.Pop? || e.Reenqueue? || e.DispatcherDies?
    ensures Inv(Step(s, e))
  {}

  lemma LoadStep(s: State, e: Event)
    requires Inv(s) && Enabled(s, e) && e.LoadRows?
    ensures Inv(Step(s, e))
  {
    var ids := s.dispatcher.ids;
    FilterMembers(s.table, (m: Message) => m.id in ids);
    forall r, m | r in ListForPush(s.table, ids) && m in s.table && r.id == m.id ensures KeyOf(r) == KeyOf(m) {
      SameId(s.table, r, m);
    }
  }

  lemma PostStep(s: State, e: Event)
    requires Inv(s) && Enabled(s, e) && e.Post?
    ensures Inv(Step(s, e))
  {}

  lemma StampKeepsRows(s: State, e: Event)
    requires Inv(s) && Enabled(s, e) && e.StampAndCommit?
    ensures RowsInv(Step(s, e))
  {
    var r := Step(s, e);
    var ids := Ids(s.dispatcher.rows);
    MarkPushedKeepsOrder(s.table, ids, e.now);
    forall m | m in r.table ensures m.id < r.nextId && m.id in r.inserted && r.inserted[m.id] == KeyOf(m) {
      var was := StampedFrom(s.table, ids, e.now, m);
    }
    forall id | id in r.inserted && id !in s.deleted ensures HasId(r.table, id) {
      var w :| w in s.table && w.id == id;
      StampedTo(s.table, ids, e.now, w);
    }
  }

  lemma StampKeepsHeld(s: State, e: Event)
    requires Inv(s) && Enabled(s, e) && e.StampAndCommit?
    ensures PushedIsHeld(Step(s, e))
  {
    var r := Step(s, e);
    var rows := s.dispatcher.rows;
    var ids := Ids(rows);
    forall m | m in r.table && m.pushedAt.Some? ensures KeyOf(m) in r.crm {
      var was := StampedFrom(s.table, ids, e.now, m);
      if was.id in ids {
        var k :| 0 <= k < |rows| && ids[k] == was.id;
        assert rows[k] in rows;
      }
    }
  }

  lemma StampStep(s: State, e: Event)
    requires Inv(s) && Enabled(s, e) && e.StampAndCommit?
    ensures Inv(Step(s, e))
  {
    StampKeepsRows(s, e);
    StampKeepsHeld(s, e);
  }

  lemma DeleteStep(s: State, e: Event)
    requires Inv(s) && (e.DeleteRows? || e.DeleteMailbox?)
    ensures Inv(Step(s, e))
  {
    var r := Step(s, e);
    var keep := if e.DeleteRows? then (m: Message) => m.id !in e.ids else (m: Message) => m.account != e.account;
    assert r.table == Filter(s.table, keep);
    FilterMembers(s.table, keep);
    FilterSorted(s.table, keep);
    FilterUniqueKeys(s.table, keep);
    forall id | id in r.inserted ensures id in r.deleted || HasId(r.table, id) {
      if id !in s.deleted {
        var w :| w in s.table && w.id == id;
        assert w in r.table || w.id in r.deleted;
      }
    }
  }

  lemma StepKeepsInv(s: State, e: Event)
    requires Inv(s) && Enabled(s, e)
    ensures Inv(Step(s, e))
  {
    match e
    case Save(_, _, _, _, _, _) => SaveStep(s, e);
    case LoadRows => LoadStep(s, e);
    case Post(_) => PostStep(s, e);
    case StampAndCommit(_) => StampStep(s, e);
    case DeleteRows(_) => DeleteStep(s, e);
    case DeleteMailbox(_) => DeleteStep(s, e);
    case _ => QueueStep(s, e);
  }

  // ---------------------------------------------------------------- runs

  predicate CanRun(s: State, es: seq<Event>)
    decreases |es|
  {
    es == [] || (Enabled(s, es[0]) && CanRun(Step(s, es[0]), es[1..]))
  }

  function Run(s: State, es: seq<Event>): State
    requires CanRun(s, es)
    decreases |es|
  {
    if es == [] then s else Run(Step(s, es[0]), es[1..])
  }

  const EMPTY := State([], 1, [], {}, Idle, map[], {})

  lemma {:induction false} RunKeepsInv(s: State, es: seq<Event>)
    requires Inv(s) && CanRun(s, es)
    ensures Inv(Run(s, es))
    decreases |es|
  {
    if es != [] {
      StepKeepsInv(s, es[0]);
      RunKeepsInv(Step(s, es[0]), es[1..]);
    }
  }

  predicate PendingRow(s: State, id: int) {
    exists m :: m in s.table && m.id == id && m.pushedAt.None?
  }

  /** After every interleaving and crash: a stamped row was accepted by the CRM; every message ever
      inserted that the CRM does not hold is still pending or was deleted; and the CRM holds
      nothing that was not inserted. */
  lemma OutboxIsSafe(es: seq<Event>)
    requires CanRun(EMPTY, es)
    ensures var r := Run(EMPTY, es);
            && (forall m :: m in r.table && m.pushedAt.Some? ==> (m.account, m.uidvalidity, m.uid) in r.crm)
            && (forall m :: m in r.table ==>
                  m.id in r.inserted && r.inserted[m.id] == (m.account, m.uidvalidity, m.uid))
            && (forall id :: id in r.inserted ==> r.inserted[id] in r.crm || PendingRow(r, id) || id in r.deleted)
            && (forall k :: k in r.crm ==> WasInserted(r.inserted, k))
  {
    RunKeepsInv(EMPTY, es);
    var r := Run(EMPTY, es);
    forall id | id in r.inserted && id !in r.deleted ensures r.inserted[id] in r.crm || PendingRow(r, id) {
      var m :| m in r.table && m.id == id;
    }
  }

  lemma StampIsFinalStep(s: State, e: Event, m: Message, w: Message)
    requires Inv(s) && Enabled(s, e) && m in s.table && m.pushedAt.Some?
    requires w in Step(s, e).table && w.id == m.id
    ensures w == m
  {
    var r := Step(s, e);
    match e {
      case StampAndCommit(now) =>
        var was := StampedFrom(s.table, Ids(s.dispatcher.rows), now, w);
        SameId(s.table, m, was);
      case Save(_, _, _, _, _, _) =>
        if w in s.table { SameId(s.table, m, w); }
      case DeleteRows(ids) =>
        FilterMember(s.table, (x: Message) => x.id !in ids, w);
        SameId(s.table, m, w);
      case DeleteMailbox(a) =>
        FilterMember(s.table, (x: Message) => x.account != a, w);
        SameId(s.table, m, w);
      case _ => SameId(s.table, m, w);
    }
  }

  lemma {:induction false} GoneStaysGone(s: State, es: seq<Event>, id: int)
    requires Inv(s) && CanRun(s, es) && id < s.nextId && !HasId(s.table, id)
    ensures !HasId(Run(s, es).table, id)
    decreases |es|
  {
    if es != [] {
      var r := Step(s, es[0]);
      StepKeepsInv(s, es[0]);
      StepKeepsGone(s, es[0], id);
      GoneStaysGone(r, es[1..], id);
    }
  }

  /** A row after a step is a row from before, by id, or the one just saved. */
  lemma Origin(s: State, e: Event, w: Message)
    requires Enabled(s, e) && w in Step(s, e).table
    ensures HasId(s.table, w.id) || (e.Save? && w.id == s.nextId)
  {
    var r := Step(s, e);
    match e {
      case StampAndCommit(now) =>
        var was := StampedFrom(s.table, Ids(s.dispatcher.rows), now, w);
      case DeleteRows(ids) => FilterMember(s.table, (x: Message) => x.id !in ids, w);
      case DeleteMailbox(a) => FilterMember(s.table, (x: Message) => x.account != a, w);
      case _ =>
    }
  }

  lemma StepKeepsGone(s: State, e: Event, id: int)
    requires Inv(s) && Enabled(s, e) && id < s.nextId && !HasId(s.table, id)
    ensures !HasId(Step(s, e).table, id) && id < Step(s, e).nextId
  {
    forall w | w in Step(s, e).table ensures w.id != id {
      Origin(s, e, w);
    }
  }

  /** Once set, `pushed_at` - indeed the whole row - never changes again in any run. */
  lemma {:induction false} StampIsFinal(s: State, es: seq<Event>, m: Message, w: Message)
    requires Inv(s) && CanRun(s, es) && m in s.table && m.pushedAt.Some?
    requires w in Run(s, es).table && w.id == m.id
    ensures w == m
    decreases |es|
  {
    if es == [] {
      SameId(s.table, m, w);
    } else {
      var e, r := es[0], Step(s, es[0]);
      StepKeepsInv(s, e);
      if x :| x in r.table && x.id == m.id {
        StampIsFinalStep(s, e, m, x);
        StampIsFinal(r, es[1..], m, w);
      } else {
        assert m.id < r.nextId;
        GoneStaysGone(r, es[1..], m.id);
        assert HasId(Run(s, es).table, m.id);
      }
    }
  }
}
