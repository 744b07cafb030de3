/** The mailbox-status dispatcher as it runs: one tick over the queue, and its place in the machine. */
module StatusDispatch {
  import opened Seqs
  import opened MailAccounts
  import Outbox
  import PushJobs
  import Machine = StatusMirror

  /** How one POST ends; `NotRead` is a failure before the row was loaded. */
  datatype Reply = Accepted | AppliedButLost | Rejected | NotRead

  datatype World = World(rows: map<int, Account>, mirror: map<int, Status>, queue: seq<Outbox.Item>)

  /** The mirror after one delivery attempt of the live row. */
  function Mirror(w: World, id: int, reply: Reply): map<int, Status> {
    if id in w.rows && (reply.Accepted? || reply.AppliedButLost?)
    then w.mirror[id := StatusOf(w.rows[id])] else w.mirror
  }

  /** A mailbox that is gone counts as delivered. */
  predicate Delivered(w: World, id: int, reply: Reply) {
    if id in w.rows then reply.Accepted? else !reply.NotRead?
  }

  function DeliverOne(w: World, id: int, reply: Reply): World {
    w.(mirror := Mirror(w, id, reply), queue := if Delivered(w, id, reply) then w.queue else [Some(id)] + w.queue)
  }

  /** The ids from position `i` on, in order; `answers` gives the outcome at each position. */
  function Deliver(w: World, ids: seq<int>, answers: nat -> Reply, i: nat): World
    decreases |ids| - i
  {
    if i >= |ids| then w else Deliver(DeliverOne(w, ids[i], answers(i)), ids, answers, i + 1)
  }

  function Popped(w: World, batch: nat): (n: nat)
    ensures n <= |w.queue|
  {
    if batch < |w.queue| then batch else |w.queue|
  }

  function Tick(w: World, batch: nat, answers: nat -> Reply): World {
    var n := Popped(w, batch);
    Deliver(w.(queue := w.queue[n..]), Outbox.WellFormed(w.queue[..n]), answers, 0)
  }

  // ---------------------------------------------------------------- what a tick achieves

  ghost predicate UpToDate(w: World, id: int) {
    id in w.rows && id in w.mirror && Mirrors(w.mirror[id], w.rows[id])
  }

  /** Items are only ever added in front. */
  lemma {:induction false} DeliverAddsInFront(w: World, ids: seq<int>, answers: nat -> Reply, i: nat)
    returns (added: seq<Outbox.Item>)
    requires i <= |ids|
    ensures Deliver(w, ids, answers, i).rows == w.rows
    ensures Deliver(w, ids, answers, i).queue == added + w.queue
    decreases |ids| - i
  {
    if i == |ids| {
      added := [];
    } else {
      added := DeliverAddsInFront(DeliverOne(w, ids[i], answers(i)), ids, answers, i + 1);
      if !Delivered(w, ids[i], answers(i)) {
        assert added + ([Some(ids[i])] + w.queue) == (added + [Some(ids[i])]) + w.queue;
        added := added + [Some(ids[i])];
      }
    }
  }

  /** No delivery makes another mailbox stale. */
  lemma {:induction false} DeliverKeepsFresh(w: World, ids: seq<int>, answers: nat -> Reply, i: nat, id: int)
    requires i <= |ids| && UpToDate(w, id)
    ensures UpToDate(Deliver(w, ids, answers, i), id)
    decreases |ids| - i
  {
    if i < |ids| {
      DeliverKeepsFresh(DeliverOne(w, ids[i], answers(i)), ids, answers, i + 1, id);
    }
  }

  lemma {:induction false} HandledOrQueued(w: World, ids: seq<int>, answers: nat -> Reply, i: nat, k: nat)
    requires i <= k < |ids| && ids[k] in w.rows
    ensures UpToDate(Deliver(w, ids, answers, i), ids[k]) || Some(ids[k]) in Deliver(w, ids, answers, i).queue
    decreases k - i
  {
    var next := DeliverOne(w, ids[i], answers(i));
    if i < k {
      HandledOrQueued(next, ids, answers, i + 1, k);
    } else if answers(k).Accepted? {
      DeliverKeepsFresh(next, ids, answers, i + 1, ids[k]);
    } else {
      var added := DeliverAddsInFront(next, ids, answers, i + 1);
      assert (added + next.queue)[|added|] == Some(ids[k]);
    }
  }

  /** Whatever the CRM and the network answer, no popped mailbox is forgotten, and the items that were
      not popped are still there, behind the re-queued ones. */
  lemma NothingForgotten(w: World, batch: nat, answers: nat -> Reply, id: int) returns (added: seq<Outbox.Item>)
    requires Some(id) in w.queue && id in w.rows
    ensures UpToDate(Tick(w, batch, answers), id) || Some(id) in Tick(w, batch, answers).queue
    ensures Tick(w, batch, answers).queue == added + w.queue[Popped(w, batch)..]
  {
    var n := Popped(w, batch);
    var ids := Outbox.WellFormed(w.queue[..n]);
    assert w.queue == w.queue[..n] + w.queue[n..];
    added := DeliverAddsInFront(w.(queue := w.queue[n..]), ids, answers, 0);
    if Some(id) !in w.queue[n..] {
      PushJobs.WellFormedMember(w.queue[..n], id);
      var k :| 0 <= k < |ids| && ids[k] == id;
      HandledOrQueued(w.(queue := w.queue[n..]), ids, answers, 0, k);
    }
  }

  /** With every POST accepted, exactly the popped mailboxes are brought up to date, and nothing is
      queued again. */
  lemma {:induction false} AcceptedDeliveries(w: World, ids: seq<int>, answers: nat -> Reply, i: nat, id: int)
    requires i <= |ids| && forall k: nat :: answers(k).Accepted?
    ensures var r := Deliver(w, ids, answers, i);
            && r.queue == w.queue
            && (id in w.rows && id in ids[i..] ==> UpToDate(r, id))
            && (id !in w.rows || id !in ids[i..] ==>
                  (id in r.mirror <==> id in w.mirror) && (id in w.mirror ==> r.mirror[id] == w.mirror[id]))
    decreases |ids| - i
  {
    if i < |ids| {
      var next := DeliverOne(w, ids[i], answers(i));
      AcceptedDeliveries(next, ids, answers, i + 1, id);
      assert ids[i..] == [ids[i]] + ids[i + 1..];
      if id == ids[i] && id in w.rows {
        DeliverKeepsFresh(next, ids, answers, i + 1, id);
      }
    }
  }

  /** The same for one tick. */
  lemma AcceptedTick(w: World, batch: nat, answers: nat -> Reply, id: int)
    requires forall k: nat :: answers(k).Accepted?
    ensures var r, popped := Tick(w, batch, answers), w.queue[..Popped(w, batch)];
            && r.queue == (if batch <= |w.queue| then w.queue[batch..] else [])
            && (id in w.rows && Some(id) in popped ==> UpToDate(r, id))
            && (id !in w.rows || Some(id) !in popped ==>
                  (id in r.mirror <==> id in w.mirror) && (id in w.mirror ==> r.mirror[id] == w.mirror[id]))
  {
    var n := Popped(w, batch);
    var ids := Outbox.WellFormed(w.queue[..n]);
    assert ids[0..] == ids;
    PushJobs.WellFormedMember(w.queue[..n], id);
    AcceptedDeliveries(w.(queue := w.queue[n..]), ids, answers, 0, id);
  }

  // ---------------------------------------------------------------- a tick is a run of the machine

  ghost predicate Shows(s: Machine.State, w: World) {
    s.rows == w.rows && s.mirror == w.mirror && s.queue == Outbox.WellFormed(w.queue)
  }

  /** Only dispatcher steps, each allowed where it stands. */
  ghost predicate Joins(s: Machine.State, es: seq<Machine.Event>, r: Machine.State) {
    && Machine.CanRun(s, es) && Machine.DisciplinedRun(s, es)
    && Machine.Run(s, es) == r
  }

  lemma JoinOne(s: Machine.State, e: Machine.Event, es: seq<Machine.Event>, r: Machine.State)
    requires Machine.SessionsValid(s) && Machine.Enabled(s, e) && !e.FlushBegins? && Joins(Machine.Step(s, e), es, r)
    ensures Joins(s, [e] + es, r)
  {
    assert ([e] + es)[1..] == es;
  }

  function ToMachine(reply: Reply): Machine.Reply {
    match reply
    case Accepted => Machine.Accepted
    case AppliedButLost => Machine.AppliedButLost
    case _ => Machine.Rejected
  }

  /** Where the machine stands after the item: its world and the rest of the batch. */
  ghost function After(s: Machine.State, w: World, todo: seq<int>): Machine.State {
    s.(rows := w.rows, mirror := w.mirror, queue := Outbox.WellFormed(w.queue), dispatcher := Machine.Batch(todo))
  }

  lemma DeliverOneIsRun(s: Machine.State, w: World, reply: Reply, es: seq<Machine.Event>, r: Machine.State)
    returns (all: seq<Machine.Event>)
    requires Machine.SessionsValid(s) && s.dispatcher.Batch? && s.dispatcher.todo != [] && Shows(s, w)
    requires Joins(After(s, DeliverOne(w, s.dispatcher.todo[0], reply), s.dispatcher.todo[1..]), es, r)
    ensures Joins(s, all, r)
  {
    var id, rest := s.dispatcher.todo[0], s.dispatcher.todo[1..];
    PushJobs.PushedFront(w.queue, id);
    if reply.NotRead? {
      var s1 := Machine.Step(s, Machine.ReadFails);
      JoinOne(s1, Machine.Reenqueue, es, r);
      JoinOne(s, Machine.ReadFails, [Machine.Reenqueue] + es, r);
      all := [Machine.ReadFails] + ([Machine.Reenqueue] + es);
    } else if id !in s.rows {
      JoinOne(s, Machine.ReadRow, es, r);
      all := [Machine.ReadRow] + es;
    } else {
      var s1 := Machine.Step(s, Machine.ReadRow);
      var answer := Machine.Answer(ToMachine(reply));
      var s2 := Machine.Step(s1, answer);
      var tail := es;
      if !reply.Accepted? {
        JoinOne(s2, Machine.Reenqueue, es, r);
        tail := [Machine.Reenqueue] + es;
      }
      JoinOne(s1, answer, tail, r);
      JoinOne(s, Machine.ReadRow, [answer] + tail, r);
      all := [Machine.ReadRow] + ([answer] + tail);
    }
  }

  lemma {:induction false} DeliverIsRun(s: Machine.State, w: World, ids: seq<int>, answers: nat -> Reply, i: nat)
    returns (es: seq<Machine.Event>)
    requires i <= |ids| && Machine.SessionsValid(s) && s.dispatcher == Machine.Batch(ids[i..]) && Shows(s, w)
    ensures Joins(s, es, After(s, Deliver(w, ids, answers, i), []))
    decreases |ids| - i
  {
    if i == |ids| {
      es := [];
      assert s == After(s, w, []);
    } else {
      var next := DeliverOne(w, ids[i], answers(i));
      assert ids[i..][1..] == ids[i + 1..];
      var rest := DeliverIsRun(After(s, next, ids[i + 1..]), next, ids, answers, i + 1);
      es := DeliverOneIsRun(s, w, answers(i), rest, After(s, Deliver(w, ids, answers, i), []));
    }
  }

  /** An undisturbed tick is one of the interleavings that the convergence result speaks about. */
  lemma TickIsRun(s: Machine.State, w: World, batch: nat, answers: nat -> Reply) returns (es: seq<Machine.Event>)
    requires Machine.SessionsValid(s) && s.dispatcher == Machine.Batch([]) && Shows(s, w)
    ensures Joins(s, es, After(s, Tick(w, batch, answers), []))
  {
    var n := Popped(w, batch);
    var ids := Outbox.WellFormed(w.queue[..n]);
    var popped := w.(queue := w.queue[n..]);
    assert w.queue == w.queue[..n] + w.queue[n..];
    PushJobs.WellFormedAppend(w.queue[..n], w.queue[n..]);
    var s1 := After(s, popped, ids);
    assert ids[0..] == ids;
    es := DeliverIsRun(s1, popped, ids, answers, 0);
    if ids == [] {
      assert s1 == s;
    } else {
      assert s.queue[..|ids|] == ids && s.queue[|ids|..] == Outbox.WellFormed(popped.queue);
      JoinOne(s, Machine.Pop(|ids|), es, After(s, Tick(w, batch, answers), []));
      es := [Machine.Pop(|ids|)] + es;
    }
  }

  // ---------------------------------------------------------------- the job

  class StatusDispatcher {
    var rows: map<int, Account>
    var mirror: map<int, Status>
    var queue: seq<Outbox.Item>

    ghost function Contents(): World
      reads this
    {
      World(rows, mirror, queue)
    }

    /** True when delivered, or when there is nothing to deliver. */
    method PushStatus(id: int, reply: Reply) returns (ok: bool)
      modifies this`mirror
      ensures mirror == Mirror(old(Contents()), id, reply)
      ensures ok == Delivered(old(Contents()), id, reply)
      ensures reply.Accepted? && id in rows ==>
                && id in mirror
                && mirror[id].isActive == rows[id].isActive && mirror[id].lastSyncedAt == rows[id].lastSyncedAt
                && mirror[id].lastSyncError == rows[id].lastSyncError && mirror[id].failures == rows[id].failures
    {
      if reply.NotRead? { return false; }
      if id !in rows { return true; }
      if reply.Accepted? || reply.AppliedButLost? {
        mirror := mirror[id := StatusOf(rows[id])];
      }
      ok := reply.Accepted?;
    }

    /** One tick: pop a batch, drop what is malformed, deliver the rest in order and push the failed
        ids back one by one. */
    method CrmStatusDispatch(batch: nat, answers: nat -> Reply)
      modifies this`mirror, this`queue
      ensures Contents() == Tick(old(Contents()), batch, answers)
    {
      var n := if batch < |queue| then batch else |queue|;
      var ids := Outbox.WellFormed(queue[..n]);
      queue := queue[n..];
      ghost var popped := Contents();
      hide Outbox.WellFormed, Delivered, Mirror;
      var i := 0;
      while i < |ids|
        invariant 0 <= i <= |ids|
        invariant Deliver(Contents(), ids, answers, i) == Deliver(popped, ids, answers, 0)
      {
        ghost var before := Contents();
        var ok := PushStatus(ids[i], answers(i));
        if !ok {
          queue := [Some(ids[i])] + queue;
        }
        assert Contents() == DeliverOne(before, ids[i], answers(i));
        i := i + 1;
      }
    }
  }
}
