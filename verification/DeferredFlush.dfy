/** Deferred status events of a unit of work, and the detector for forgotten flushes. */
module DeferredFlush {
  import opened Seqs

  /** What the service sees of its session, in order. Savepoint events reach the listeners too. */
  datatype Event =
    | Append(id: int)
    | SavepointRelease
    | SavepointRollback
    | Commit
    | Rollback
    | Flush

  /** The pending list and the number of its leading entries whose transaction committed. */
  datatype Queue = Queue(pending: seq<int>, committed: nat)

  const EMPTY := Queue([], 0)

  predicate Valid(q: Queue) {
    q.committed <= |q.pending|
  }

  function Step(q: Queue, e: Event): (r: Queue)
    requires Valid(q)
    ensures Valid(r)
  {
    match e
    case Append(id) => q.(pending := q.pending + [id])
    case SavepointRelease => q
    case SavepointRollback => q
    case Commit => q.(committed := |q.pending|)
    case Rollback => q.(pending := q.pending[..q.committed])
    case Flush => EMPTY
  }

  function Run(es: seq<Event>): (q: Queue)
    ensures Valid(q)
  {
    if es == [] then EMPTY else Step(Run(es[..|es| - 1]), es[|es| - 1])
  }

  // ---------------------------------------------------------------- reference: the fate of one append

  datatype Fate = Open | Committed | RolledBack | Flushed

  /** What becomes of the id appended at position `i`, read off the events after it: the first
      commit, rollback or flush decides, and a flush takes whatever is still there. */
  function FateOf(es: seq<Event>, i: nat): Fate
    requires i < |es|
    decreases |es|
  {
    var last := |es| - 1;
    if i == last then Open
    else
      var before := FateOf(es[..last], i);
      match es[last]
      case Commit => if before.Open? then Committed else before
      case Rollback => if before.Open? then RolledBack else before
      case Flush => if before.Open? || before.Committed? then Flushed else before
      case _ => before
  }

  /** The ids appended with the given fate, in order. */
  function IdsWith(es: seq<Event>, n: nat, fate: Fate): seq<int>
    requires n <= |es|
    decreases n
  {
    if n == 0 then []
    else IdsWith(es, n - 1, fate)
         + (if es[n - 1].Append? && FateOf(es, n - 1) == fate then [es[n - 1].id] else [])
  }

  /** Fates change with one more event only as that event says. */
  lemma {:induction false} OneMoreEvent(es: seq<Event>, e: Event, n: nat, fate: Fate)
    requires n <= |es|
    ensures (e.Append? || e.SavepointRelease? || e.SavepointRollback?) ==>
              IdsWith(es + [e], n, fate) == IdsWith(es, n, fate)
    ensures (e.Rollback? || e.Commit?) ==> IdsWith(es + [e], n, Open) == []
    ensures e.Rollback? ==> IdsWith(es + [e], n, Committed) == IdsWith(es, n, Committed)
    ensures e.Flush? ==> IdsWith(es + [e], n, Open) == [] && IdsWith(es + [e], n, Committed) == []
  {
    if n > 0 {
      OneMoreEvent(es, e, n - 1, fate);
      assert (es + [e])[..|es|] == es;
    }
  }

  /** No id appended before a committed one is still open. */
  lemma {:induction false} CommittedBeforeOpen(es: seq<Event>, i: nat, j: nat)
    requires i < j < |es| && FateOf(es, j) == Committed
    ensures FateOf(es, i) != Open
    decreases |es|
  {
    var last := |es| - 1;
    if j < last {
      if FateOf(es[..last], j) == Committed {
        CommittedBeforeOpen(es[..last], i, j);
      }
    }
  }

  lemma {:induction false} CommitMovesOpen(es: seq<Event>, n: nat)
    requires n <= |es|
    ensures IdsWith(es + [Commit], n, Committed) == IdsWith(es, n, Committed) + IdsWith(es, n, Open)
  {
    if n > 0 {
      CommitMovesOpen(es, n - 1);
      assert (es + [Commit])[..|es|] == es;
      if es[n - 1].Append? && FateOf(es, n - 1) == Committed {
        NoOpenBefore(es, n - 1, n - 1);
      }
    }
  }

  lemma {:induction false} NoOpenBefore(es: seq<Event>, n: nat, j: nat)
    requires n <= j < |es| && FateOf(es, j) == Committed
    ensures IdsWith(es, n, Open) == []
  {
    if n > 0 {
      NoOpenBefore(es, n - 1, j);
      CommittedBeforeOpen(es, n - 1, j);
    }
  }

  /** One more event, as the fates see it. */
  lemma FatesAfter(es: seq<Event>, e: Event)
    ensures var c, o := IdsWith(es, |es|, Committed), IdsWith(es, |es|, Open);
            && IdsWith(es + [e], |es| + 1, Committed) == (if e.Commit? then c + o else if e.Flush? then [] else c)
            && IdsWith(es + [e], |es| + 1, Open)
               == (if e.Append? then o + [e.id] else if e.Commit? || e.Rollback? || e.Flush? then [] else o)
  {
    OneMoreEvent(es, e, |es|, Open);
    OneMoreEvent(es, e, |es|, Committed);
    if e.Commit? {
      CommitMovesOpen(es, |es|);
    }
    assert (es + [e])[|es|] == e;
    assert FateOf(es + [e], |es|) == Open;
  }

  lemma {:induction false} QueueIsFates(es: seq<Event>)
    ensures Run(es) == Queue(IdsWith(es, |es|, Committed) + IdsWith(es, |es|, Open), |IdsWith(es, |es|, Committed)|)
  {
    if es != [] {
      var k := |es| - 1;
      var init, e := es[..k], es[k];
      QueueIsFates(init);
      FatesAfter(init, e);
      assert es == init + [e];
      StepOn(IdsWith(init, k, Committed), IdsWith(init, k, Open), e);
    }
  }

  lemma StepOn(c: seq<int>, o: seq<int>, e: Event)
    ensures var c1 := if e.Commit? then c + o else if e.Flush? then [] else c;
            var o1 := if e.Append? then o + [e.id] else if e.Commit? || e.Rollback? || e.Flush? then [] else o;
            Step(Queue(c + o, |c|), e) == Queue(c1 + o1, |c1|)
  {
    assert (c + o)[..|c|] == c;
    assert e.Append? ==> c + o + [e.id] == c + (o + [e.id]);
  }

  /** For every sequence of events the leading `committed` entries are exactly the ids whose
      outermost transaction committed since the last flush, and the rest are exactly the ids of
      the transaction still open. */
  lemma QueueTracksFates(es: seq<Event>)
    ensures Run(es).pending[..Run(es).committed] == IdsWith(es, |es|, Committed)
    ensures Run(es).pending[Run(es).committed..] == IdsWith(es, |es|, Open)
  {
    QueueIsFates(es);
  }

  /** An outermost rollback removes exactly the ids of the open transaction. */
  lemma RollbackDropsOpenOnly(es: seq<Event>)
    ensures Run(es + [Rollback]).pending == IdsWith(es, |es|, Committed)
    ensures Run(es + [Rollback]).committed == Run(es).committed
  {
    QueueTracksFates(es);
    assert (es + [Rollback])[..|es|] == es;
  }

  /** No transaction is open: nothing was appended since the last commit, rollback or flush. */
  ghost predicate NoneOpen(es: seq<Event>) {
    IdsWith(es, |es|, Open) == []
  }

  /** At teardown with no open transaction the probe finds something exactly when some committed
      id was never flushed. */
  lemma DetectorIsExact(es: seq<Event>)
    requires NoneOpen(es)
    ensures Run(es).pending != [] <==> IdsWith(es, |es|, Committed) != []
    ensures Run(es).pending == IdsWith(es, |es|, Committed)
  {
    QueueTracksFates(es);
    var q := Run(es);
    assert q.pending == q.pending[..q.committed] + q.pending[q.committed..];
  }

  /** The caller's discipline - commit, then flush - leaves nothing behind. */
  lemma CommitThenFlushIsClean(es: seq<Event>)
    ensures Run(es + [Commit, Flush]).pending == []
    ensures Run(es + [Commit]).pending == IdsWith(es, |es|, Committed) + IdsWith(es, |es|, Open)
    ensures Run(es + [Commit]).committed == |Run(es + [Commit]).pending|
  {
    assert (es + [Commit, Flush])[..|es| + 1] == es + [Commit];
    assert (es + [Commit])[..|es|] == es;
    QueueTracksFates(es);
    assert Run(es).pending == Run(es).pending[..Run(es).committed] + Run(es).pending[Run(es).committed..];
  }

  // ---------------------------------------------------------------- the service and the guards

  /** The part of the account service that the session listeners and the guard share. */
  class DeferredEvents {
    var pending: seq<int>
    var committed: nat
    ghost var history: seq<Event>

    ghost predicate Valid()
      reads this
    {
      Queue(pending, committed) == Run(history)
    }

    constructor ()
      ensures Valid() && history == [] && pending == []
    {
      pending, committed, history := [], 0, [];
    }

    method AppendStatus(id: int)
      requires Valid()
      modifies this
      ensures Valid() && history == old(history) + [Append(id)]
    {
      pending := pending + [id];
      history := history + [Append(id)];
      assert history[..|history| - 1] == old(history);
    }

    method MarkPendingStatusCommitted(nestedTransaction: bool)
      requires Valid()
      modifies this
      ensures Valid() && history == old(history) + [if nestedTransaction then SavepointRelease else Commit]
    {
      history := history + [if nestedTransaction then SavepointRelease else Commit];
      assert history[..|history| - 1] == old(history);
      if nestedTransaction { return; }
      committed := |pending|;
    }

    method DiscardPendingStatusOnRollback(previousNested: bool)
      requires Valid()
      modifies this
      ensures Valid() && history == old(history) + [if previousNested then SavepointRollback else Rollback]
    {
      history := history + [if previousNested then SavepointRollback else Rollback];
      assert history[..|history| - 1] == old(history);
      if previousNested { return; }
      pending := pending[..committed];
    }

    /** Drains first, then enqueues in order; `queue` is the status list, newest entry first. */
    method FlushCrmStatusEvents(queue: StatusList)
      requires Valid()
      modifies this, queue
      ensures Valid() && history == old(history) + [Flush] && pending == []
      ensures queue.items == Reverse(old(pending)) + old(queue.items)
    {
      var ids := pending;
      pending, committed := [], 0;
      history := history + [Flush];
      assert history[..|history| - 1] == old(history);
      assert Valid() && ids[..0] == [];
      hide Run;
      var i := 0;
      while i < |ids|
        invariant 0 <= i <= |ids|
        invariant queue.items == Reverse(ids[..i]) + old(queue.items)
        modifies queue
      {
        queue.Lpush(ids[i]);
        assert ids[..i + 1] == ids[..i] + [ids[i]];
        ReverseAppend(ids[..i], [ids[i]]);
        assert Reverse([ids[i]]) == [ids[i]];
        i := i + 1;
      }
      assert ids[..i] == ids;
    }
  }

  /** A Redis list of mailbox ids. */
  class StatusList {
    var items: seq<int>

    constructor ()
      ensures items == []
    {
      items := [];
    }

    method Lpush(id: int)
      modifies this
      ensures items == [id] + old(items)
    {
      items := [id] + items;
    }
  }

  datatype Guard = Guard(owner: string, events: DeferredEvents)

  datatype Violation = Violation(owner: string, leftover: seq<int>)

  /** The guard registry: sessions by number, each with the guards bound to it in order. */
  class GuardRegistry {
    var guards: map<int, seq<Guard>>

    constructor ()
      ensures guards == map[]
    {
      guards := map[];
    }

    method Register(session: int, guard: Guard)
      modifies this
      ensures guards == old(guards)[session := (if session in old(guards) then old(guards)[session] else []) + [guard]]
    {
      var bound := if session in guards then guards[session] else [];
      guards := guards[session := bound + [guard]];
    }

    /** Checked once: the session's guards are popped, and one violation is reported for each guard with
        something left and for no other, in registration order; `of` gives the guard of each. Where no
        transaction is open, that are the guards with committed ids that were never flushed, and these ids.
        `failed` is the strict-mode assertion. */
    method Check(session: int, strict: bool) returns (violations: seq<Violation>, failed: bool, ghost of: seq<nat>)
      modifies this
      ensures guards == map s | s in old(guards) && s != session :: old(guards)[s]
      ensures var bound := if session in old(guards) then old(guards)[session] else [];
              && |of| == |violations| && (forall k :: 0 <= k < |of| ==> of[k] < |bound|)
              && (forall j, k :: 0 <= j < k < |of| ==> of[j] < of[k])
              && (forall i :: 0 <= i < |bound| ==> (i in of <==> bound[i].events.pending != []))
              && (forall k :: 0 <= k < |of| ==>
                    violations[k] == Violation(bound[of[k]].owner, bound[of[k]].events.pending))
              && (forall i :: 0 <= i < |bound| && bound[i].events.Valid() && NoneOpen(bound[i].events.history) ==>
                    var es := bound[i].events.history;
                    && (i in of <==> IdsWith(es, |es|, Committed) != [])
                    && bound[i].events.pending == IdsWith(es, |es|, Committed))
      ensures failed <==> strict && violations != []
    {
      var bound := if session in guards then guards[session] else [];
      guards := map s | s in guards && s != session :: guards[s];
      violations, of := [], [];
      var i := 0;
      while i < |bound|
        invariant 0 <= i <= |bound|
        invariant |of| == |violations| && forall k :: 0 <= k < |of| ==> of[k] < i
        invariant forall j, k :: 0 <= j < k < |of| ==> of[j] < of[k]
        invariant forall k :: 0 <= k < i ==> (k in of <==> bound[k].events.pending != [])
        invariant forall k :: 0 <= k < |of| ==>
                    violations[k] == Violation(bound[of[k]].owner, bound[of[k]].events.pending)
      {
        var leftover := bound[i].events.pending;
        if leftover != [] {
          violations := violations + [Violation(bound[i].owner, leftover)];
          of := of + [i];
        }
        i := i + 1;
      }
      failed := violations != [] && strict;
      forall i | 0 <= i < |bound| && bound[i].events.Valid() && NoneOpen(bound[i].events.history)
        ensures var es := bound[i].events.history; bound[i].events.pending == IdsWith(es, |es|, Committed)
      {
        DetectorIsExact(bound[i].events.history);
      }
    }
  }
}
