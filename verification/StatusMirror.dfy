/** The mailbox-status channel: every writer of the mirrored columns, the status queue and the one
    dispatcher, as one machine of interleaved steps. */
module StatusMirror {
  import opened Seqs
  import opened MailAccounts
  import Deferred = DeferredFlush

  /** A worker flow between its commit and its enqueue owes a status event. */
  datatype Writer = Ready | Owes(id: int)

  /** A request session: its uncommitted writes, its deferred ids, and the ids a running flush has
      still to enqueue. */
  datatype Session = Session(writes: seq<(int, Write)>, deferred: Deferred.Queue, flushing: seq<int>)

  /** The dispatcher works through the ids it popped; `Waiting` is between reading the row and the
      CRM's answer, `Failed` between the answer and the re-enqueue. */
  datatype Dispatcher =
    | Batch(todo: seq<int>)
    | Waiting(id: int, snapshot: Status, todo: seq<int>)
    | Failed(id: int, todo: seq<int>)

  datatype State = State(rows: map<int, Account>, mirror: map<int, Status>, queue: seq<int>,
                         writers: seq<Writer>, sessions: seq<Session>, dispatcher: Dispatcher)

  /** The CRM's answer to one POST; the reply to an applied one may be lost. */
  datatype Reply = Accepted | AppliedButLost | Rejected

  datatype Event =
    | WorkerWrite(w: nat, id: int, write: Write)
    | WorkerEnqueue(w: nat)
    | SessionWrite(s: nat, id: int, write: Write)
    | SavepointReleased(s: nat)
    | SavepointRolledBack(s: nat, kept: nat)
    | SessionCommit(s: nat)
    | SessionRollback(s: nat)
    | FlushBegins(s: nat)
    | FlushEnqueues(s: nat)
    | Pop(n: nat)
    | ReadRow
    | ReadFails
    | Answer(reply: Reply)
    | Reenqueue
    | DeleteMailbox(id: int)

  /** Writes of the worker and the token service; the two administrator writes go through a session. */
  predicate WorkerKind(w: Write) {
    !w.CredentialsReenabled? && !w.SetActive?
  }

  /** Whether the flow around a write announces it: token writes never, the guarded needs-consent
      marker only when it changed a row, all others always. */
  predicate Announces(rows: map<int, Account>, id: int, w: Write) {
    match w
    case Tokens(_, _, _, _) => false
    case NeedsConsentMarker => id in rows && Guard(w, rows[id])
    case _ => true
  }

  function PerformAll(rows: map<int, Account>, ws: seq<(int, Write)>): (r: map<int, Account>)
    ensures r.Keys == rows.Keys
  {
    if ws == [] then rows
    else PerformAt(PerformAll(rows, ws[..|ws| - 1]), ws[|ws| - 1].0, ws[|ws| - 1].1)
  }

  ghost predicate Enabled(s: State, e: Event) {
    match e
    case WorkerWrite(w, _, write) => w < |s.writers| && s.writers[w].Ready? && WorkerKind(write)
    case WorkerEnqueue(w) => w < |s.writers| && s.writers[w].Owes?
    case SessionWrite(i, id, write) => i < |s.sessions| && id in s.rows && !WorkerKind(write)
    case SavepointReleased(i) => i < |s.sessions|
    case SavepointRolledBack(i, kept) => i < |s.sessions| && kept <= |s.sessions[i].writes|
    case SessionCommit(i) => i < |s.sessions|
    case SessionRollback(i) => i < |s.sessions|
    case FlushBegins(i) => i < |s.sessions| && s.sessions[i].flushing == []
    case FlushEnqueues(i) => i < |s.sessions| && s.sessions[i].flushing != []
    case Pop(n) => s.dispatcher == Batch([]) && 0 < n <= |s.queue|
    case ReadRow => s.dispatcher.Batch? && s.dispatcher.todo != []
    case ReadFails => s.dispatcher.Batch? && s.dispatcher.todo != []
    case Answer(_) => s.dispatcher.Waiting?
    case Reenqueue => s.dispatcher.Failed?
    case DeleteMailbox(id) => id in s.rows
  }

  function OnSession(s: State, i: nat, e: Deferred.Event, writes: seq<(int, Write)>): State
    requires i < |s.sessions| && Deferred.Valid(s.sessions[i].deferred)
  {
    var x := s.sessions[i];
    s.(sessions := s.sessions[i := x.(writes := writes, deferred := Deferred.Step(x.deferred, e))])
  }

  ghost predicate SessionsValid(s: State) {
    forall i :: 0 <= i < |s.sessions| ==> Deferred.Valid(s.sessions[i].deferred)
  }

  ghost function Step(s: State, e: Event): State
    requires SessionsValid(s) && Enabled(s, e)
  {
    match e
    case WorkerWrite(w, id, write) =>
      s.(rows := PerformAt(s.rows, id, write),
         writers := s.writers[w := if Announces(s.rows, id, write) then Owes(id) else Ready])
    case WorkerEnqueue(w) => s.(queue := [s.writers[w].id] + s.queue, writers := s.writers[w := Ready])
    case SessionWrite(i, id, write) => OnSession(s, i, Deferred.Append(id), s.sessions[i].writes + [(id, write)])
    case SavepointReleased(i) => OnSession(s, i, Deferred.SavepointRelease, s.sessions[i].writes)
    case SavepointRolledBack(i, kept) => OnSession(s, i, Deferred.SavepointRollback, s.sessions[i].writes[..kept])
    case SessionCommit(i) =>
      OnSession(s, i, Deferred.Commit, []).(rows := PerformAll(s.rows, s.sessions[i].writes))
    case SessionRollback(i) => OnSession(s, i, Deferred.Rollback, [])
    case FlushBegins(i) =>
      var x := s.sessions[i];
      s.(sessions := s.sessions[i := x.(flushing := x.deferred.pending,
                                        deferred := Deferred.Step(x.deferred, Deferred.Flush))])
    case FlushEnqueues(i) =>
      var x := s.sessions[i];
      s.(queue := [x.flushing[0]] + s.queue, sessions := s.sessions[i := x.(flushing := x.flushing[1..])])
    case Pop(n) => s.(queue := s.queue[n..], dispatcher := Batch(s.queue[..n]))
    case ReadRow =>
      var id, rest := s.dispatcher.todo[0], s.dispatcher.todo[1..];
      s.(dispatcher := if id in s.rows then Waiting(id, StatusOf(s.rows[id]), rest) else Batch(rest))
    case ReadFails => s.(dispatcher := Failed(s.dispatcher.todo[0], s.dispatcher.todo[1..]))
    case Answer(reply) =>
      var d := s.dispatcher;
      s.(mirror := if reply.Rejected? then s.mirror else s.mirror[d.id := d.snapshot],
         dispatcher := if reply.Accepted? then Batch(d.todo) else Failed(d.id, d.todo))
    case Reenqueue => s.(queue := [s.dispatcher.id] + s.queue, dispatcher := Batch(s.dispatcher.todo))
    case DeleteMailbox(id) => s.(rows := s.rows - {id})
  }

  /** The callers' discipline: a flush begins only after its transaction has ended. */
  ghost predicate Disciplined(s: State, e: Event)
    requires Enabled(s, e)
  {
    e.FlushBegins? ==> s.sessions[e.s].writes == []
  }

  // ---------------------------------------------------------------- obligations

  /** Somewhere outside the dispatcher's current item a status event for the mailbox is owed. */
  ghost predicate OwedElsewhere(s: State, id: int) {
    || (exists w :: 0 <= w < |s.writers| && s.writers[w] == Owes(id))
    || (exists i :: 0 <= i < |s.sessions| && SessionOwes(s.sessions[i], id))
    || id in s.queue
    || id in s.dispatcher.todo
  }

  ghost predicate SessionOwes(x: Session, id: int) {
    || id in x.flushing
    || (Deferred.Valid(x.deferred) && id in x.deferred.pending[..x.deferred.committed])
  }

  ghost predicate Owed(s: State, id: int) {
    OwedElsewhere(s, id) || (!s.dispatcher.Batch? && s.dispatcher.id == id)
  }

  ghost predicate Mirrored(s: State, id: int)
    requires id in s.rows
  {
    id in s.mirror && Mirrors(s.mirror[id], s.rows[id])
  }

  ghost predicate SessionInv(x: Session) {
    && Deferred.Valid(x.deferred)
    && forall k :: 0 <= k < |x.writes| ==> x.writes[k].0 in x.deferred.pending[x.deferred.committed..]
  }

  ghost predicate Inv(s: State) {
    && (forall i :: 0 <= i < |s.sessions| ==> SessionInv(s.sessions[i]))
    && (forall id :: id in s.rows && !Mirrored(s, id) ==> Owed(s, id))
    && (s.dispatcher.Waiting? ==>
          var d := s.dispatcher;
          d.id in s.rows && d.snapshot != StatusOf(s.rows[d.id]) ==> OwedElsewhere(s, d.id))
  }

  // ---------------------------------------------------------------- steps

  /** What a step must do to each mailbox: a row whose status changed is owed elsewhere afterwards,
      and nothing owed elsewhere is forgotten. */
  lemma ByMailbox(s: State, e: Event)
    requires Inv(s) && Enabled(s, e)
    requires var r := Step(s, e);
             && r.mirror == s.mirror && r.dispatcher == s.dispatcher
             && (forall i :: 0 <= i < |r.sessions| ==> SessionInv(r.sessions[i]))
             && (forall id :: id in r.rows ==> id in s.rows)
             && (forall id :: id in r.rows && StatusOf(r.rows[id]) != StatusOf(s.rows[id]) ==> OwedElsewhere(r, id))
             && (forall id :: id in r.rows && OwedElsewhere(s, id) ==> OwedElsewhere(r, id))
    ensures Inv(Step(s, e))
  {
    var r := Step(s, e);
    forall id | id in r.rows && !Mirrored(r, id) ensures Owed(r, id) {
      if StatusOf(r.rows[id]) == StatusOf(s.rows[id]) {
        assert !Mirrored(s, id);
        assert Owed(s, id);
      }
    }
  }

  lemma UnannouncedKeepsStatus(rows: map<int, Account>, id: int, w: Write)
    requires !Announces(rows, id, w) && id in rows
    ensures StatusOf(PerformAt(rows, id, w)[id]) == StatusOf(rows[id])
  {
    if w.Tokens? {
      TokensKeepStatus(w, rows[id]);
    }
  }

  /** A writer outside of any session makes every write but the two of an administrator, those two take a
      session, and afterwards it owes the event unless the write stored tokens or a marker that was there. */
  lemma WhoWrites(s: State, w: nat, id: int, write: Write)
    requires w < |s.writers| && w < |s.sessions| && id in s.rows && SessionsValid(s)
    ensures Enabled(s, WorkerWrite(w, id, write))
            <==> s.writers[w].Ready? && !write.CredentialsReenabled? && !write.SetActive?
    ensures Enabled(s, SessionWrite(w, id, write)) <==> write.CredentialsReenabled? || write.SetActive?
    ensures Enabled(s, WorkerWrite(w, id, write)) ==>
              Step(s, WorkerWrite(w, id, write)).writers[w]
              == (if write.Tokens?
                     || (write.NeedsConsentMarker? && s.rows[id].lastSyncError == Some("oauth_needs_consent"))
                  then Ready else Owes(id))
  {}

  lemma WorkerWriteStep(s: State, e: Event)
    requires Inv(s) && Enabled(s, e) && e.WorkerWrite?
    ensures Inv(Step(s, e))
  {
    var r := Step(s, e);
    forall id | id in r.rows && StatusOf(r.rows[id]) != StatusOf(s.rows[id]) ensures OwedElsewhere(r, id) {
      if !Announces(s.rows, e.id, e.write) {
        UnannouncedKeepsStatus(s.rows, id, e.write);
      }
      assert r.writers[e.w] == Owes(id);
    }
    forall id | id in r.rows && OwedElsewhere(s, id) ensures OwedElsewhere(r, id) {
      if w :| 0 <= w < |s.writers| && s.writers[w] == Owes(id) {
        assert r.writers[w] == Owes(id);
      }
    }
    ByMailbox(s, e);
  }

  lemma WorkerEnqueueStep(s: State, e: Event)
    requires Inv(s) && Enabled(s, e) && e.WorkerEnqueue?
    ensures Inv(Step(s, e))
  {
    var r := Step(s, e);
    forall id | id in r.rows && OwedElsewhere(s, id) ensures OwedElsewhere(r, id) {
      if w :| 0 <= w < |s.writers| && s.writers[w] == Owes(id) {
        assert w == e.w || r.writers[w] == Owes(id);
      }
    }
    ByMailbox(s, e);
  }

  /** A step of one session that changes no row and keeps what the session owes. */
  lemma SessionStep(s: State, e: Event, i: nat)
    requires Inv(s) && Enabled(s, e) && i < |s.sessions|
    requires var r := Step(s, e);
             && r == s.(sessions := s.sessions[i := r.sessions[i]], rows := r.rows, queue := r.queue)
             && (r.queue == s.queue || (|r.queue| == |s.queue| + 1 && r.queue[1..] == s.queue))
             && SessionInv(r.sessions[i])
             && (forall id :: SessionOwes(s.sessions[i], id) ==> SessionOwes(r.sessions[i], id) || id in r.queue)
             && r.rows.Keys == s.rows.Keys
             && (forall id :: id in r.rows && StatusOf(r.rows[id]) != StatusOf(s.rows[id])
                   ==> SessionOwes(r.sessions[i], id))
    ensures Inv(Step(s, e))
  {
    var r := Step(s, e);
    forall id | id in r.rows && OwedElsewhere(s, id) ensures OwedElsewhere(r, id) {
      if k :| 0 <= k < |s.sessions| && SessionOwes(s.sessions[k], id) {
        assert k == i || r.sessions[k] == s.sessions[k];
      }
      assert id in s.queue ==> id in r.queue by {
        if r.queue != s.queue { assert r.queue == [r.queue[0]] + r.queue[1..]; }
      }
    }
    ByMailbox(s, e);
  }

  lemma {:induction false} PerformAllLocal(rows: map<int, Account>, ws: seq<(int, Write)>, id: int)
    requires id in rows && forall k :: 0 <= k < |ws| ==> ws[k].0 != id
    ensures PerformAll(rows, ws)[id] == rows[id]
  {
    if ws != [] {
      PerformAllLocal(rows, ws[..|ws| - 1], id);
    }
  }

  lemma CommitStep(s: State, e: Event)
    requires Inv(s) && Enabled(s, e) && e.SessionCommit?
    ensures Inv(Step(s, e))
  {
    var r := Step(s, e);
    var x := s.sessions[e.s];
    assert x.deferred.pending[..|x.deferred.pending|] == x.deferred.pending;
    forall id | id in r.rows && StatusOf(r.rows[id]) != StatusOf(s.rows[id]) ensures SessionOwes(r.sessions[e.s], id) {
      if forall k :: 0 <= k < |x.writes| ==> x.writes[k].0 != id {
        PerformAllLocal(s.rows, x.writes, id);
      }
    }
    SessionStep(s, e, e.s);
  }

  lemma OtherSessionStep(s: State, e: Event)
    requires Inv(s) && Enabled(s, e) && Disciplined(s, e)
    requires e.SessionWrite? || e.SavepointReleased? || e.SavepointRolledBack? || e.SessionRollback? || e.FlushBegins?
    ensures Inv(Step(s, e))
  {
    var x := s.sessions[e.s];
    if e.SessionWrite? {
      var y := Step(s, e).sessions[e.s];
      assert y.deferred.pending[..y.deferred.committed] == x.deferred.pending[..x.deferred.committed];
      assert y.deferred.pending[y.deferred.committed..] == x.deferred.pending[x.deferred.committed..] + [e.id];
    }
    SessionStep(s, e, e.s);
  }

  lemma FlushEnqueuesStep(s: State, e: Event)
    requires Inv(s) && Enabled(s, e) && e.FlushEnqueues?
    ensures Inv(Step(s, e))
  {
    var x := s.sessions[e.s];
    assert x.flushing == [x.flushing[0]] + x.flushing[1..];
    SessionStep(s, e, e.s);
  }

  /** The dispatcher's own steps: the row is read after the pop, so whatever it misses is owed. */
  lemma DispatcherStep(s: State, e: Event)
    requires Inv(s) && Enabled(s, e) && (e.Pop? || e.ReadRow? || e.ReadFails? || e.Answer? || e.Reenqueue?)
    ensures Inv(Step(s, e))
  {
    var r := Step(s, e);
    var d := s.dispatcher;
    if e.Pop? {
      assert s.queue == s.queue[..e.n] + s.queue[e.n..];
    }
    if e.ReadRow? || e.ReadFails? {
      assert d.todo == [d.todo[0]] + d.todo[1..];
    }
    forall id | id in r.rows && OwedElsewhere(s, id)
      ensures OwedElsewhere(r, id) || ((e.ReadRow? || e.ReadFails?) && id == d.todo[0])
    {
      assert r.writers == s.writers && r.sessions == s.sessions;
    }
    forall id | id in r.rows && !Mirrored(r, id) ensures Owed(r, id) {
      if e.Answer? && id == d.id {
      } else {
        assert !Mirrored(s, id);
        assert Owed(s, id);
      }
    }
  }

  lemma DeleteStep(s: State, e: Event)
    requires Inv(s) && Enabled(s, e) && e.DeleteMailbox?
    ensures Inv(Step(s, e))
  {
    ByMailbox(s, e);
  }

  lemma StepKeepsInv(s: State, e: Event)
    requires Inv(s) && Enabled(s, e) && Disciplined(s, e)
    ensures Inv(Step(s, e))
  {
    match e
    case WorkerWrite(_, _, _) => WorkerWriteStep(s, e);
    case WorkerEnqueue(_) => WorkerEnqueueStep(s, e);
    case SessionCommit(_) => CommitStep(s, e);
    case FlushEnqueues(_) => FlushEnqueuesStep(s, e);
    case Pop(_) => DispatcherStep(s, e);
    case ReadRow => DispatcherStep(s, e);
    case ReadFails => DispatcherStep(s, e);
    case Answer(_) => DispatcherStep(s, e);
    case Reenqueue => DispatcherStep(s, e);
    case DeleteMailbox(_) => DeleteStep(s, e);
    case _ => OtherSessionStep(s, e);
  }

  // ---------------------------------------------------------------- runs

  ghost predicate CanRun(s: State, es: seq<Event>)
    decreases |es|
  {
    es == [] || (SessionsValid(s) && Enabled(s, es[0]) && CanRun(Step(s, es[0]), es[1..]))
  }

  ghost function Run(s: State, es: seq<Event>): State
    requires CanRun(s, es)
    decreases |es|
  {
    if es == [] then s else Run(Step(s, es[0]), es[1..])
  }

  ghost predicate DisciplinedRun(s: State, es: seq<Event>)
    requires CanRun(s, es)
    decreases |es|
  {
    es == [] || (Disciplined(s, es[0]) && DisciplinedRun(Step(s, es[0]), es[1..]))
  }

  /** The CRM agrees with the database, and nothing is under way. */
  ghost predicate Initial(s: State) {
    && (forall id :: id in s.rows ==> Mirrored(s, id))
    && s.queue == [] && s.dispatcher == Batch([])
    && (forall w :: 0 <= w < |s.writers| ==> s.writers[w].Ready?)
    && (forall i :: 0 <= i < |s.sessions| ==> s.sessions[i] == Session([], Deferred.EMPTY, []))
  }

  lemma {:induction false} RunKeepsInv(s: State, es: seq<Event>)
    requires Inv(s) && CanRun(s, es) && DisciplinedRun(s, es)
    ensures Inv(Run(s, es))
    decreases |es|
  {
    if es != [] {
      StepKeepsInv(s, es[0]);
      RunKeepsInv(Step(s, es[0]), es[1..]);
    }
  }

  /** After every interleaving a mailbox whose mirrored status differs from its row has a status
      event owed; so once nothing is owed, the mirror equals the database. */
  lemma MirrorConverges(s: State, es: seq<Event>)
    requires Initial(s) && CanRun(s, es) && DisciplinedRun(s, es)
    ensures var r := Run(s, es);
            && (forall id :: id in r.rows && !Mirrored(r, id) ==> Owed(r, id))
            && ((forall id :: id in r.rows ==> !Owed(r, id)) ==>
                  forall id :: id in r.rows ==>
                    && id in r.mirror
                    && r.mirror[id].isActive == r.rows[id].isActive
                    && r.mirror[id].lastSyncedAt == r.rows[id].lastSyncedAt
                    && r.mirror[id].lastSyncError == r.rows[id].lastSyncError
                    && r.mirror[id].failures == r.rows[id].failures)
  {
    assert Inv(s);
    RunKeepsInv(s, es);
  }

  // ---------------------------------------------------------------- why the discipline is needed

  /** One mailbox, one request session, whose transaction is open around a deactivation. */
  function OneBox(a: Account, mirror: Status, queue: seq<int>, x: Session, d: Dispatcher): State {
    State(map[a.id := a], map[a.id := mirror], queue, [], [x], d)
  }

  const DEACTIVATION := SetActive(false)

  lemma EarlyFlushRun(a: Account, es: seq<Event>)
    requires CanRun(OneBox(a, StatusOf(a), [a.id], Session([(a.id, DEACTIVATION)], Deferred.EMPTY, []), Batch([])), es)
    ensures var s := OneBox(a, StatusOf(a), [], Session([], Deferred.EMPTY, []), Batch([]));
            var r := OneBox(a, StatusOf(a), [a.id], Session([(a.id, DEACTIVATION)], Deferred.EMPTY, []), Batch([]));
            var all := [SessionWrite(0, a.id, DEACTIVATION)] + ([FlushBegins(0)] + ([FlushEnqueues(0)] + es));
            CanRun(s, all) && Run(s, all) == Run(r, es)
  {
    var s := OneBox(a, StatusOf(a), [], Session([], Deferred.EMPTY, []), Batch([]));
    var e1, e2, e3 := SessionWrite(0, a.id, DEACTIVATION), FlushBegins(0), FlushEnqueues(0);
    var s1 := Step(s, e1);
    var s2 := Step(s1, e2);
    assert s1.sessions[0].writes == [(a.id, DEACTIVATION)] && s1.sessions[0].deferred.pending == [a.id];
    assert s2.sessions[0] == Session([(a.id, DEACTIVATION)], Deferred.EMPTY, [a.id]);
    var s3 := Step(s2, e3);
    assert [a.id][1..] == [];
    assert s3.sessions[0] == Session([(a.id, DEACTIVATION)], Deferred.EMPTY, []);
    assert s3.queue == [a.id] && s3.sessions == [Session([(a.id, DEACTIVATION)], Deferred.EMPTY, [])];
    assert s3 == OneBox(a, StatusOf(a), [a.id], Session([(a.id, DEACTIVATION)], Deferred.EMPTY, []), Batch([]));
    RunOne(s2, e3, es);
    RunOne(s1, e2, [e3] + es);
    RunOne(s, e1, [e2] + ([e3] + es));
  }

  /** The dispatcher takes the only queued id and mirrors the row as it is committed now. */
  lemma DispatchRun(a: Account, x: Session, es: seq<Event>)
    requires Deferred.Valid(x.deferred) && CanRun(OneBox(a, StatusOf(a), [], x, Batch([])), es)
    ensures var s := OneBox(a, StatusOf(a), [a.id], x, Batch([]));
            var all := [Pop(1)] + ([ReadRow] + ([Answer(Accepted)] + es));
            CanRun(s, all) && Run(s, all) == Run(OneBox(a, StatusOf(a), [], x, Batch([])), es)
  {
    var s := OneBox(a, StatusOf(a), [a.id], x, Batch([]));
    var s1 := Step(s, Pop(1));
    assert s1 == OneBox(a, StatusOf(a), [], x, Batch([a.id])) by { assert [a.id][1..] == [] && [a.id][..1] == [a.id]; }
    var s2 := Step(s1, ReadRow);
    assert s2 == OneBox(a, StatusOf(a), [], x, Waiting(a.id, StatusOf(a), []));
    assert Step(s2, Answer(Accepted)) == OneBox(a, StatusOf(a), [], x, Batch([]));
    RunOne(s2, Answer(Accepted), es);
    RunOne(s1, ReadRow, [Answer(Accepted)] + es);
    RunOne(s, Pop(1), [ReadRow] + ([Answer(Accepted)] + es));
  }

  lemma CommitRun(a: Account)
    requires a.isActive
    ensures var s := OneBox(a, StatusOf(a), [], Session([(a.id, DEACTIVATION)], Deferred.EMPTY, []), Batch([]));
            && CanRun(s, [SessionCommit(0)])
            && Run(s, [SessionCommit(0)])
               == OneBox(a.(isActive := false), StatusOf(a), [], Session([], Deferred.EMPTY, []), Batch([]))
  {
    var s := OneBox(a, StatusOf(a), [], Session([(a.id, DEACTIVATION)], Deferred.EMPTY, []), Batch([]));
    PerformOne(s.rows, a.id, DEACTIVATION);
    RunOne(s, SessionCommit(0), []);
  }

  /** A flush inside the open transaction lets the dispatcher mirror the pre-commit row; then the
      CRM keeps showing the deactivated mailbox as active and nothing is owed any more. */
  lemma EarlyFlushSticks(a: Account) returns (es: seq<Event>)
    requires a.isActive
    ensures var s := OneBox(a, StatusOf(a), [], Session([], Deferred.EMPTY, []), Batch([]));
            && Initial(s) && CanRun(s, es)
            && var r := Run(s, es); a.id in r.rows && !Mirrored(r, a.id) && !Owed(r, a.id)
  {
    CommitRun(a);
    DispatchRun(a, Session([(a.id, DEACTIVATION)], Deferred.EMPTY, []), [SessionCommit(0)]);
    var rest := [Pop(1)] + ([ReadRow] + ([Answer(Accepted)] + [SessionCommit(0)]));
    EarlyFlushRun(a, rest);
    es := [SessionWrite(0, a.id, DEACTIVATION)] + ([FlushBegins(0)] + ([FlushEnqueues(0)] + rest));
  }

  lemma PerformOne(rows: map<int, Account>, id: int, w: Write)
    ensures PerformAll(rows, [(id, w)]) == PerformAt(rows, id, w)
  {
    assert [(id, w)][..0] == [];
    assert PerformAll(rows, []) == rows;
  }

  lemma RunOne(s: State, e: Event, es: seq<Event>)
    requires SessionsValid(s) && Enabled(s, e) && CanRun(Step(s, e), es)
    ensures CanRun(s, [e] + es) && Run(s, [e] + es) == Run(Step(s, e), es)
  {
    assert ([e] + es)[1..] == es;
  }
}
