/** The two push jobs as they run, and the drain of the outbox by alternating them. */
module PushJobs {
  import opened Seqs
  import opened Messages
  import opened Outbox

  /** What one dispatcher tick makes of table, queue and CRM. */
  datatype World = World(table: Table, queue: seq<Item>, crm: set<Key>)

  function Tick(w: World, batch: nat, reply: Reply, now: int): World {
    var n := if batch < |w.queue| then batch else |w.queue|;
    var ids := WellFormed(w.queue[..n]);
    var rows := ListForPush(w.table, ids);
    var popped := w.(queue := w.queue[n..]);
    if rows == [] then popped
    else if reply.Accepted? then popped.(table := MarkPushed(w.table, Ids(rows), now), crm := w.crm + Keys(rows))
    else popped.(queue := Lpush(popped.queue, ids), crm := if reply.Rejected? then w.crm else w.crm + Keys(rows))
  }

  function Recover(w: World, windowStart: int, limit: nat): World {
    w.(queue := Lpush(w.queue, ListPendingPush(w.table, windowStart, limit)))
  }

  // ---------------------------------------------------------------- ticks are runs of the machine

  function WorldOf(s: State): World {
    World(s.table, s.queue, s.crm)
  }

  lemma RunOne(s: State, e: Event, es: seq<Event>)
    requires Enabled(s, e) && CanRun(Step(s, e), es)
    ensures CanRun(s, [e] + es) && Run(s, [e] + es) == Run(Step(s, e), es)
  {
    assert ([e] + es)[1..] == es;
  }

  lemma AfterLoad(s: State, reply: Reply, now: int) returns (es: seq<Event>)
    requires s.dispatcher.Loaded?
    ensures CanRun(s, es) && Run(s, es).dispatcher.Idle?
    ensures var d, r := s.dispatcher, WorldOf(Run(s, es));
            r == World(if reply.Accepted? then MarkPushed(s.table, Ids(d.rows), now) else s.table,
                       if reply.Accepted? then s.queue else Lpush(s.queue, d.ids),
                       if reply.Rejected? then s.crm else s.crm + Keys(d.rows))
  {
    var last := if reply.Accepted? then StampAndCommit(now) else Reenqueue;
    var s1 := Step(s, Post(reply));
    RunOne(s1, last, []);
    RunOne(s, Post(reply), [last]);
    es := [Post(reply)] + [last];
  }

  /** An undisturbed tick is one of the interleavings that the safety results speak about. */
  lemma TickIsRun(s: State, batch: nat, reply: Reply, now: int) returns (es: seq<Event>)
    requires s.dispatcher.Idle?
    ensures CanRun(s, es) && Run(s, es).dispatcher.Idle?
    ensures WorldOf(Run(s, es)) == Tick(WorldOf(s), batch, reply, now)
  {
    var n := if batch < |s.queue| then batch else |s.queue|;
    var ids := WellFormed(s.queue[..n]);
    if ids == [] {
      FilterNone(s.table, (m: Message) => m.id in ids);
      assert Keys([]) == {};
    }
    if n == 0 {
      es := [];
    } else {
      var s1 := Step(s, Pop(n));
      if ids == [] {
        RunOne(s, Pop(n), []);
        es := [Pop(n)] + [];
      } else {
        var s2 := Step(s1, LoadRows);
        var rest := [];
        if s2.dispatcher.Loaded? {
          rest := AfterLoad(s2, reply, now);
        }
        RunOne(s1, LoadRows, rest);
        RunOne(s, Pop(n), [LoadRows] + rest);
        es := [Pop(n)] + ([LoadRows] + rest);
      }
    }
  }

  // ---------------------------------------------------------------- queue facts

  lemma {:induction false} WellFormedMember(items: seq<Item>, id: int)
    ensures id in WellFormed(items) <==> Some(id) in items
  {
    if items != [] {
      var k := |items| - 1;
      WellFormedMember(items[..k], id);
      assert items == items[..k] + [items[k]];
    }
  }

  lemma {:induction false} LpushMember(queue: seq<Item>, ids: seq<int>, id: int)
    ensures Some(id) in Lpush(queue, ids) <==> id in ids || Some(id) in queue
    decreases |ids|
  {
    if ids != [] {
      LpushMember([Some(ids[0])] + queue, ids[1..], id);
      assert ids == [ids[0]] + ids[1..];
    }
  }

  /** The entries go in front, the last one first; what was queued stays behind them. */
  lemma {:induction false} LpushOrder(queue: seq<Item>, ids: seq<int>)
    ensures Lpush(queue, ids)[|ids|..] == queue
    ensures forall k :: 0 <= k < |ids| ==> Lpush(queue, ids)[k] == Some(ids[|ids| - 1 - k])
    decreases |ids|
  {
    if ids != [] {
      var next := [Some(ids[0])] + queue;
      LpushOrder(next, ids[1..]);
      var r := Lpush(next, ids[1..]);
      assert r[|ids| - 1..] == next;
      assert r[|ids| - 1] == next[0] && r[|ids|..] == next[1..];
    }
  }

  lemma {:induction false} WellFormedAppend(a: seq<Item>, b: seq<Item>)
    ensures WellFormed(a + b) == WellFormed(a) + WellFormed(b)
  {
    if b == [] {
      assert a + b == a;
    } else {
      var k := |b| - 1;
      assert (a + b)[..|a + b| - 1] == a + b[..k];
      WellFormedAppend(a, b[..k]);
    }
  }

  lemma PushedFront(queue: seq<Item>, id: int)
    ensures WellFormed([Some(id)] + queue) == [id] + WellFormed(queue)
  {
    WellFormedAppend([Some(id)], queue);
    assert WellFormed([Some(id)]) == [id] by { assert [Some(id)][..0] == []; }
  }

  lemma {:induction false} LpushConserves(queue: seq<Item>, ids: seq<int>)
    ensures multiset(WellFormed(Lpush(queue, ids))) == multiset(WellFormed(queue)) + multiset(ids)
    decreases |ids|
  {
    if ids != [] {
      LpushConserves([Some(ids[0])] + queue, ids[1..]);
      PushedFront(queue, ids[0]);
      assert ids == [ids[0]] + ids[1..];
    }
  }

  lemma PutBackConserves(items: seq<Item>, rest: seq<Item>)
    ensures multiset(WellFormed(Lpush(rest, WellFormed(items)))) == multiset(WellFormed(items + rest))
  {
    WellFormedAppend(items, rest);
    LpushConserves(rest, WellFormed(items));
  }

  /** A tick whose POST failed loses no id: the well-formed ids of the queue are conserved, with
      multiplicity, and no row is stamped. */
  lemma FailedTickConserves(w: World, batch: nat, reply: Reply, now: int)
    requires !reply.Accepted?
    requires var n := if batch < |w.queue| then batch else |w.queue|;
             ListForPush(w.table, WellFormed(w.queue[..n])) != []
    ensures var r := Tick(w, batch, reply, now);
            && multiset(WellFormed(r.queue)) == multiset(WellFormed(w.queue))
            && r.table == w.table
            && (reply.Rejected? ==> r.crm == w.crm)
  {
    var n := if batch < |w.queue| then batch else |w.queue|;
    assert w.queue == w.queue[..n] + w.queue[n..];
    PutBackConserves(w.queue[..n], w.queue[n..]);
  }

  // ---------------------------------------------------------------- drain facts

  predicate PendingId(t: Table, id: int) {
    exists m :: m in t && m.id == id && m.pushedAt.None?
  }

  /** The unstamped rows of the window before position `i`. */
  ghost function Earlier(t: Table, i: nat, windowStart: int): set<int>
    requires i <= |t|
  {
    set k | 0 <= k < i && t[k].pushedAt.None? && t[k].fetchedAt > windowStart
  }

  /** The row at position `i` bears no stamp, was fetched within the window, and fewer than `limit` such rows
      come before it. */
  ghost predicate WithinScan(t: Table, i: int, windowStart: int, limit: nat) {
    && 0 <= i < |t| && t[i].pushedAt.None? && t[i].fetchedAt > windowStart
    && |Earlier(t, i, windowStart)| < limit
  }

  /** A scan finds exactly those rows. */
  lemma ScanFinds(t: Table, windowStart: int, limit: nat, id: int)
    ensures id in ListPendingPush(t, windowStart, limit)
            <==> exists i :: WithinScan(t, i, windowStart, limit) && t[i].id == id
  {
    var p := (m: Message) => Pending(m, windowStart);
    var found := Take(PendingRows(t, windowStart), limit);
    forall i | 0 <= i <= |t| ensures Before(t, i, p) == Earlier(t, i, windowStart) {}
    if id in ListPendingPush(t, windowStart, limit) {
      var k :| 0 <= k < |found| && found[k].id == id;
      LimitedMember(t, p, limit, found[k]);
      var i :| 0 <= i < |t| && t[i] == found[k] && p(t[i]) && |Before(t, i, p)| < limit;
      assert WithinScan(t, i, windowStart, limit);
    }
    if i :| WithinScan(t, i, windowStart, limit) && t[i].id == id {
      LimitedMember(t, p, limit, t[i]);
      assert p(t[i]);
      var k :| 0 <= k < |found| && found[k] == t[i];
      assert Ids(found)[k] == id;
    }
  }

  /** What a scan queues. */
  lemma ScanQueues(w: World, windowStart: int, limit: nat)
    ensures forall id :: Some(id) in Recover(w, windowStart, limit).queue
                         <==> Some(id) in w.queue
                              || exists i :: WithinScan(w.table, i, windowStart, limit) && w.table[i].id == id
  {
    forall id ensures Some(id) in Recover(w, windowStart, limit).queue
                      <==> Some(id) in w.queue
                           || exists i :: WithinScan(w.table, i, windowStart, limit) && w.table[i].id == id
    {
      LpushMember(w.queue, ListPendingPush(w.table, windowStart, limit), id);
      ScanFinds(w.table, windowStart, limit, id);
    }
  }

  /** Stamping removes exactly the stamped ids from the pending list. */
  lemma {:induction false} StampShrinksPending(t: Table, ids: seq<int>, now: int, windowStart: int)
    ensures PendingRows(MarkPushed(t, ids, now), windowStart)
            == Filter(PendingRows(t, windowStart), (m: Message) => m.id !in ids)
  {
    if t != [] {
      var left := (m: Message) => m.id !in ids;
      var p := (m: Message) => Pending(m, windowStart);
      StampShrinksPending(t[1..], ids, now, windowStart);
      FilterAppend([t[0]], t[1..], p);
      assert t == [t[0]] + t[1..];
      assert MarkPushed(t, ids, now) == [Stamp(t[0], ids, now)] + MarkPushed(t[1..], ids, now);
      FilterAppend([Stamp(t[0], ids, now)], MarkPushed(t[1..], ids, now), p);
      FilterAppend(Filter([t[0]], p), Filter(t[1..], p), left);
      assert Filter([t[0]], p) == if p(t[0]) then [t[0]] else [];
    }
  }

  lemma FilterSmaller<T>(s: seq<T>, keep: T -> bool)
    ensures Filter(s, keep) == s || |Filter(s, keep)| < |s|
  {
    if Filter(s, keep) != s {
      FilterAll(s, keep);
      var x :| x in s && !keep(x);
      FilterLengths(s, keep, x => !keep(x));
      FilterMember(s, x => !keep(x), x);
    }
  }

  lemma StampedIsNotPending(t: Table, ids: seq<int>, now: int, id: int)
    requires !PendingId(t, id) || id in ids
    ensures !PendingId(MarkPushed(t, ids, now), id)
  {
    forall m | m in MarkPushed(t, ids, now) && m.id == id ensures m.pushedAt.Some? {
      var was := StampedFrom(t, ids, now, m);
    }
  }

  lemma LoadedIds(t: Table, ids: seq<int>, id: int)
    requires id in ids && PendingId(t, id)
    ensures id in Ids(ListForPush(t, ids))
  {
    var m :| m in t && m.id == id;
    FilterMember(t, (x: Message) => x.id in ids, m);
    var rows := ListForPush(t, ids);
    var i :| 0 <= i < |rows| && rows[i] == m;
    assert Ids(rows)[i] == id;
  }

  /** An accepted tick shortens the queue, stamps every pending row it pops and makes none pending. */
  lemma AcceptedTick(w: World, batch: nat, now: int, windowStart: int)
    requires batch >= 1 && w.queue != []
    ensures var r := Tick(w, batch, Accepted, now);
            && |r.queue| < |w.queue| && r.queue == (if batch <= |w.queue| then w.queue[batch..] else [])
            && (PendingRows(r.table, windowStart) == PendingRows(w.table, windowStart)
                || |PendingRows(r.table, windowStart)| < |PendingRows(w.table, windowStart)|)
            && forall id :: Some(id) in w.queue || !PendingId(w.table, id)
                 ==> Some(id) in r.queue || !PendingId(r.table, id)
  {
    var r := Tick(w, batch, Accepted, now);
    var n := if batch < |w.queue| then batch else |w.queue|;
    var ids := WellFormed(w.queue[..n]);
    var rows := ListForPush(w.table, ids);
    assert w.queue == w.queue[..n] + w.queue[n..];
    forall id | Some(id) in w.queue || !PendingId(w.table, id) ensures Some(id) in r.queue || !PendingId(r.table, id) {
      WellFormedMember(w.queue[..n], id);
      if id in ids && PendingId(w.table, id) {
        LoadedIds(w.table, ids, id);
      }
      if rows != [] && Some(id) !in r.queue {
        StampedIsNotPending(w.table, Ids(rows), now, id);
      }
    }
    if rows != [] {
      StampShrinksPending(w.table, Ids(rows), now, windowStart);
      FilterSmaller(PendingRows(w.table, windowStart), (m: Message) => m.id !in Ids(rows));
    }
  }

  /** The same rows in the same places, except that some of those that bore no stamp now bear one, and
      the CRM holds each of these. */
  ghost predicate OnlyStamped(before: Table, after: Table, crm: set<Key>, now: int) {
    && |after| == |before|
    && forall i :: 0 <= i < |before| ==> after[i] == before[i] || DeliveredRow(before[i], after[i], crm, now)
  }

  ghost predicate DeliveredRow(before: Message, after: Message, crm: set<Key>, now: int) {
    && before.pushedAt.None? && after == before.(pushedAt := Some(now))
    && (before.account, before.uidvalidity, before.uid) in crm
  }

  lemma AcceptedTickDelivers(w: World, batch: nat, now: int)
    ensures var r := Tick(w, batch, Accepted, now);
            && OnlyStamped(w.table, r.table, r.crm, now)
            && w.crm <= r.crm <= w.crm + Keys(w.table)
  {
    var n := if batch < |w.queue| then batch else |w.queue|;
    var ids := WellFormed(w.queue[..n]);
    var rows := ListForPush(w.table, ids);
    FilterMembers(w.table, (m: Message) => m.id in ids);
    var r := Tick(w, batch, Accepted, now);
    forall i | 0 <= i < |w.table| && r.table[i] != w.table[i]
      ensures DeliveredRow(w.table[i], r.table[i], r.crm, now)
    {
      var j :| 0 <= j < |rows| && Ids(rows)[j] == w.table[i].id;
      assert rows[j] in rows;
      assert w.table[i] in rows;
    }
  }

  lemma DeliveredMore(a: Table, b: Table, c: Table, crm: set<Key>, more: set<Key>, now: int)
    requires OnlyStamped(a, b, crm, now) && OnlyStamped(b, c, more, now) && crm <= more
    ensures OnlyStamped(a, c, more, now)
    ensures forall i :: 0 <= i < |a| ==> b[i].id == a[i].id && b[i].fetchedAt == a[i].fetchedAt
    ensures Keys(b) == Keys(a)
  {
    forall m | m in a ensures KeyOf(m) in Keys(b) {
      var i :| 0 <= i < |a| && a[i] == m;
      assert b[i] in b && KeyOf(b[i]) == KeyOf(m);
    }
    forall m | m in b ensures KeyOf(m) in Keys(a) {
      var i :| 0 <= i < |b| && b[i] == m;
      assert a[i] in a && KeyOf(a[i]) == KeyOf(m);
    }
  }

  /** Rows that differ are named by the queue. */
  ghost predicate OnlyQueued(before: Table, after: Table, queue: seq<Item>) {
    |after| == |before| && forall i :: 0 <= i < |before| ==> after[i] == before[i] || Some(before[i].id) in queue
  }

  lemma AcceptedTickOnlyQueued(w: World, batch: nat, now: int)
    ensures var r := Tick(w, batch, Accepted, now);
            OnlyQueued(w.table, r.table, w.queue) && forall x :: x in r.queue ==> x in w.queue
  {
    var n := if batch < |w.queue| then batch else |w.queue|;
    var ids := WellFormed(w.queue[..n]);
    var rows := ListForPush(w.table, ids);
    FilterMembers(w.table, (m: Message) => m.id in ids);
    var r := Tick(w, batch, Accepted, now);
    forall i | 0 <= i < |w.table| && r.table[i] != w.table[i] ensures Some(w.table[i].id) in w.queue {
      var j :| 0 <= j < |rows| && Ids(rows)[j] == w.table[i].id;
      assert rows[j] in rows;
      WellFormedMember(w.queue[..n], w.table[i].id);
    }
  }

  lemma QueuedMore(a: Table, b: Table, c: Table, queue: seq<Item>, later: seq<Item>)
    requires OnlyQueued(a, b, queue) && OnlyQueued(b, c, later) && forall x :: x in later ==> x in queue
    requires forall i :: 0 <= i < |a| ==> b[i].id == a[i].id
    ensures OnlyQueued(a, c, queue)
  {}

  /** Rows that differ were queued or lie in the window. */
  ghost predicate WindowOnly(before: Table, after: Table, queue: seq<Item>, windowStart: int) {
    && |after| == |before|
    && forall i :: 0 <= i < |before| ==>
         after[i] == before[i] || Some(before[i].id) in queue || before[i].fetchedAt > windowStart
  }

  lemma WindowMore(a: Table, b: Table, c: Table, queue: seq<Item>, scanned: seq<Item>, windowStart: int, limit: nat)
    requires WindowOnly(a, b, queue, windowStart) && OnlyQueued(b, c, scanned) && Sorted(b)
    requires forall i :: 0 <= i < |a| ==> b[i].id == a[i].id && b[i].fetchedAt == a[i].fetchedAt
    requires forall id :: Some(id) in scanned ==>
               Some(id) in queue || exists i :: WithinScan(b, i, windowStart, limit) && b[i].id == id
    ensures WindowOnly(a, c, queue, windowStart)
  {
    forall i | 0 <= i < |a| && c[i] != a[i] && Some(a[i].id) !in queue ensures a[i].fetchedAt > windowStart {
      if Some(b[i].id) in scanned {
        var k :| WithinScan(b, k, windowStart, limit) && b[k].id == b[i].id;
        assert k == i;
      }
    }
  }

  /** When no pending row of the window is left, each that there was has been delivered. */
  lemma DrainedRow(before: Table, after: Table, crm: set<Key>, now: int, windowStart: int, i: nat)
    requires OnlyStamped(before, after, crm, now) && PendingRows(after, windowStart) == []
    requires i < |before| && before[i].pushedAt.None? && before[i].fetchedAt > windowStart
    ensures DeliveredRow(before[i], after[i], crm, now)
  {
    FilterMember(after, (m: Message) => Pending(m, windowStart), after[i]);
  }

  /** With the queue empty, the oldest pending row of before the round is pending no longer. */
  lemma RoundMakesProgress(t: Table, windowStart: int, before: Table)
    requires before != [] && !PendingId(t, before[0].id)
    ensures PendingRows(t, windowStart) != before
  {
    if PendingRows(t, windowStart) == before {
      FilterMember(t, (m: Message) => Pending(m, windowStart), before[0]);
    }
  }

  class PushWorker {
    var repo: MessagesRepo
    var queue: seq<Item>
    var crm: set<Key>

    ghost predicate Valid()
      reads this, repo
    {
      repo.Valid()
    }

    ghost function Now(): World
      reads this, repo
    {
      World(repo.rows, queue, crm)
    }

    constructor (repo: MessagesRepo)
      requires repo.Valid()
      ensures Valid() && this.repo == repo && Now() == World(repo.rows, [], {})
    {
      this.repo := repo;
      queue, crm := [], {};
    }

    method EnqueuePushIds(ids: seq<int>)
      modifies this`queue
      ensures queue == Lpush(old(queue), ids)
      ensures |queue| == |ids| + |old(queue)| && queue[|ids|..] == old(queue)
      ensures forall k :: 0 <= k < |ids| ==> queue[k] == Some(ids[|ids| - 1 - k])
    {
      LpushOrder(queue, ids);
      var i := 0;
      while i < |ids|
        invariant 0 <= i <= |ids|
        invariant Lpush(queue, ids[i..]) == Lpush(old(queue), ids)
      {
        assert ids[i..][1..] == ids[i + 1..];
        queue := [Some(ids[i])] + queue;
        i := i + 1;
      }
    }

    /** Queues the oldest rows of the window that bear no stamp, up to the limit. */
    method RecoveryScan(windowStart: int, limit: nat)
      requires Valid()
      modifies this`queue
      ensures Valid() && Now() == Recover(old(Now()), windowStart, limit)
      ensures forall id :: Some(id) in queue
                           <==> Some(id) in old(queue)
                                || exists i :: WithinScan(repo.rows, i, windowStart, limit) && repo.rows[i].id == id
    {
      ScanQueues(Now(), windowStart, limit);
      var candidates := ListPendingPush(repo.rows, windowStart, limit);
      if candidates == [] { return; }
      EnqueuePushIds(candidates);
    }

    /** Pops a batch, drops what does not parse, posts the rows that still exist and stamps them,
        or puts the ids back. */
    method DispatchTick(batch: nat, reply: Reply, now: int)
      requires Valid()
      modifies this`queue, this`crm, repo`rows
      ensures Valid() && Now() == Tick(old(Now()), batch, reply, now)
    {
      var n := if batch < |queue| then batch else |queue|;
      var items := queue[..n];
      queue := queue[n..];
      var ids: seq<int> := [];
      for i := 0 to |items|
        invariant ids == WellFormed(items[..i])
      {
        assert items[..i + 1][..i] == items[..i];
        match items[i] {
          case None =>
          case Some(id) => ids := ids + [id];
        }
      }
      assert items[..|items|] == items;
      if ids == [] {
        FilterNone(repo.rows, (m: Message) => m.id in ids);
        return;
      }
      Push(ids, reply, now);
    }

    method Push(ids: seq<int>, reply: Reply, now: int)
      requires Valid()
      modifies this`queue, this`crm, repo`rows
      ensures Valid()
      ensures var rows := ListForPush(old(repo.rows), ids);
              && repo.rows == (if rows != [] && reply.Accepted? then MarkPushed(old(repo.rows), Ids(rows), now)
                                 else old(repo.rows))
              && crm == (if reply.Rejected? then old(crm) else old(crm) + Keys(rows))
              && queue == (if rows != [] && !reply.Accepted? then Lpush(old(queue), ids) else old(queue))
    {
      var rows := ListForPush(repo.rows, ids);
      if rows == [] {
        assert Keys(rows) == {};
        return;
      }
      if !reply.Rejected? {
        crm := crm + Keys(rows);
      }
      if reply.Accepted? {
        var _ := repo.MarkPushedRows(Ids(rows), now);
      } else {
        EnqueuePushIds(ids);
      }
    }

    /** With the CRM accepting and no new mail, recovery scans alternating with ticks until the
        queue is empty come to an end, for any positive limits and whatever else the queue held. Then
        every row is still there, each row of the window that bore no stamp bears one and is held by the
        CRM, no other row has changed unless it was queued, and the CRM has lost nothing and learnt only
        of rows of the table. */
    method Drain(windowStart: int, limit: nat, batch: nat, now: int)
      requires Valid() && limit >= 1 && batch >= 1
      modifies this`queue, this`crm, repo`rows
      ensures Valid() && queue == []
      ensures OnlyStamped(old(repo.rows), repo.rows, crm, now)
      ensures forall i :: 0 <= i < |old(repo.rows)| ==>
                var m := old(repo.rows)[i];
                && (m.pushedAt.None? && m.fetchedAt > windowStart ==> DeliveredRow(m, repo.rows[i], crm, now))
                && (m.fetchedAt <= windowStart && Some(m.id) !in old(queue) ==> repo.rows[i] == m)
      ensures old(crm) <= crm <= old(crm) + Keys(old(repo.rows))
    {
      while PendingRows(repo.rows, windowStart) != [] || queue != []
        invariant Valid()
        invariant OnlyStamped(old(repo.rows), repo.rows, crm, now)
        invariant WindowOnly(old(repo.rows), repo.rows, old(queue), windowStart)
        invariant forall x :: x in queue ==> x in old(queue)
        invariant old(crm) <= crm <= old(crm) + Keys(old(repo.rows))
        decreases |PendingRows(repo.rows, windowStart)|, |queue|
      {
        ghost var before := PendingRows(repo.rows, windowStart);
        ghost var oldest := if before == [] then 0 else before[0].id;
        ghost var rows, held := repo.rows, crm;
        QueuesOldest(Now(), windowStart, limit);
        RecoveryScan(windowStart, limit);
        ghost var scanned := queue;
        DispatchUntilEmpty(windowStart, batch, now, oldest);
        DeliveredMore(old(repo.rows), rows, repo.rows, held, crm, now);
        WindowMore(old(repo.rows), rows, repo.rows, old(queue), scanned, windowStart, limit);
        if before != [] {
          RoundMakesProgress(repo.rows, windowStart, before);
        }
      }
      forall i | 0 <= i < |old(repo.rows)|
                 && old(repo.rows)[i].pushedAt.None? && old(repo.rows)[i].fetchedAt > windowStart
        ensures DeliveredRow(old(repo.rows)[i], repo.rows[i], crm, now)
      {
        DrainedRow(old(repo.rows), repo.rows, crm, now, windowStart, i);
      }
    }

    /** Ticks until the queue is empty: rows are only stamped, and only when the CRM holds them. */
    method DispatchUntilEmpty(windowStart: int, batch: nat, now: int, ghost oldest: int)
      requires Valid() && batch >= 1
      modifies this`queue, this`crm, repo`rows
      ensures Valid() && queue == []
      ensures old(Some(oldest) in queue || !PendingId(repo.rows, oldest)) ==> !PendingId(repo.rows, oldest)
      ensures PendingRows(repo.rows, windowStart) == old(PendingRows(repo.rows, windowStart))
              || |PendingRows(repo.rows, windowStart)| < old(|PendingRows(repo.rows, windowStart)|)
      ensures OnlyStamped(old(repo.rows), repo.rows, crm, now) && OnlyQueued(old(repo.rows), repo.rows, old(queue))
      ensures old(crm) <= crm <= old(crm) + Keys(old(repo.rows))
    {
      while queue != []
        invariant Valid()
        invariant OnlyStamped(old(repo.rows), repo.rows, crm, now) && OnlyQueued(old(repo.rows), repo.rows, old(queue))
        invariant forall x :: x in queue ==> x in old(queue)
        invariant old(crm) <= crm <= old(crm) + Keys(old(repo.rows))
        invariant old(Some(oldest) in queue || !PendingId(repo.rows, oldest))
                  ==> Some(oldest) in queue || !PendingId(repo.rows, oldest)
        invariant PendingRows(repo.rows, windowStart) == old(PendingRows(repo.rows, windowStart))
                  || |PendingRows(repo.rows, windowStart)| < old(|PendingRows(repo.rows, windowStart)|)
        decreases |queue|
      {
        ghost var rows, held, waiting := repo.rows, crm, queue;
        AcceptedTick(Now(), batch, now, windowStart);
        AcceptedTickDelivers(Now(), batch, now);
        AcceptedTickOnlyQueued(Now(), batch, now);
        DispatchTick(batch, Accepted, now);
        DeliveredMore(old(repo.rows), rows, repo.rows, held, crm, now);
        QueuedMore(old(repo.rows), rows, repo.rows, old(queue), waiting);
      }
    }
  }

  /** A scan with a positive limit queues the oldest pending row of the window. */
  lemma QueuesOldest(w: World, windowStart: int, limit: nat)
    requires limit >= 1
    ensures var before := PendingRows(w.table, windowStart);
            before != [] ==> Some(before[0].id) in Recover(w, windowStart, limit).queue
  {
    var before := PendingRows(w.table, windowStart);
    if before != [] {
      var wanted := ListPendingPush(w.table, windowStart, limit);
      assert wanted[0] == before[0].id;
      LpushMember(w.queue, wanted, before[0].id);
    }
  }
}
