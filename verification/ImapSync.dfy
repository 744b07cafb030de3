/** Incremental sync of one mailbox: the mail server and any number of sync jobs as one machine
    of interleaved steps, each of which may be a job's last. */
module ImapSync {
  import opened Seqs
  import opened Messages
  import opened MailAccounts
  import opened ImapFetcher

  /** (UIDVALIDITY, UID): the server's name of a message. */
  type Key = (int, int)

  datatype Server = Server(validity: int, uidnext: int, live: map<int, Mail>)

  /** What has happened so far. `excluded` are the messages an initial sync's date window left out;
      `dropped` are the keys of locally deleted rows. */
  datatype History = History(delivered: map<Key, Mail>, expunged: set<Key>, excluded: set<Key>,
                             inserted: set<Key>, dropped: set<Key>)

  /** A running download. `bound` records how far the search vouches for: every UID below it is
      accounted for, still to be fetched, or fetched. */
  datatype Fetching = Fetching(validity: int, uidnext: Option<int>, initial: bool, cursor: Option<int>,
                               bound: int, todo: seq<int>, got: seq<Fetched>)

  datatype Job =
    | Idle
    | Loaded(cursor: Option<int>, lastValidity: Option<int>)
    | KnowsValidity(cursor: Option<int>, lastValidity: Option<int>, validity: int)
    | KnowsUidnext(cursor: Option<int>, lastValidity: Option<int>, validity: int, uidnext: Option<int>)
    | Downloading(f: Fetching)
    | Saved(validity: int, next: Option<int>)

  datatype State = State(server: Server, account: Account, table: Table, nextId: int,
                         jobs: seq<Job>, history: History)

  datatype Event =
    | Deliver(uid: int, mail: Mail)
    | Expunge(uid: int)
    | Renumber(validity: int, uidnext: int, live: map<int, Mail>)
    | Load(j: nat)
    | ReadValidity(j: nat)
    | ReadUidnext(j: nat, answered: bool)
    | Search(j: nat, since: int, answer: Option<seq<int>>)
    | FetchChunk(j: nat)
    | SaveMessages(j: nat, now: int)
    | MarkSuccess(j: nat, now: int)
    | Crash(j: nat)
    | DeleteRows(ids: seq<int>)

  function JobOf(e: Event): Option<nat> {
    match e
    case Load(j) => Some(j)
    case ReadValidity(j) => Some(j)
    case ReadUidnext(j, _) => Some(j)
    case Search(j, _, _) => Some(j)
    case FetchChunk(j) => Some(j)
    case SaveMessages(j, _) => Some(j)
    case MarkSuccess(j, _) => Some(j)
    case Crash(j) => Some(j)
    case _ => None
  }

  // ---------------------------------------------------------------- which events can happen

  /** The set a search of the server must return; an incremental one may add older messages. */
  predicate SearchAnswer(s: State, job: Job, since: int, uids: seq<int>)
    requires job.KnowsUidnext?
  {
    && (forall u :: u in uids ==> u in s.server.live)
    && forall u :: u in s.server.live ==>
         (if DoInitial(job.cursor, job.lastValidity, job.validity) then (u in uids <==> s.server.live[u].date >= since)
          else job.cursor.value <= u ==> u in uids)
  }

  predicate Enabled(s: State, e: Event) {
    && (JobOf(e).Some? ==> JobOf(e).value < |s.jobs|)
    && match e
       case Deliver(uid, _) => uid >= s.server.uidnext
       case Expunge(uid) => uid in s.server.live
       case Renumber(v, next, live) => v > s.server.validity && next > 0 && forall u :: u in live ==> 0 < u < next
       case Load(j) => s.jobs[j].Idle?
       case ReadValidity(j) => s.jobs[j].Loaded?
       case ReadUidnext(j, _) => s.jobs[j].KnowsValidity?
       case Search(j, since, answer) =>
         && s.jobs[j].KnowsUidnext?
         && (answer.None? ==> !DoInitial(s.jobs[j].cursor, s.jobs[j].lastValidity, s.jobs[j].validity))
         && (answer.Some? ==> SearchAnswer(s, s.jobs[j], since, answer.value))
       case FetchChunk(j) => s.jobs[j].Downloading? && s.jobs[j].f.todo != []
       case SaveMessages(j, _) => s.jobs[j].Downloading? && s.jobs[j].f.todo == []
       case MarkSuccess(j, _) => s.jobs[j].Saved?
       case Crash(j) => true
       case DeleteRows(_) => true
  }

  // ---------------------------------------------------------------- what they do

  function KeysOf(validity: int, got: seq<Fetched>): set<Key> {
    set g | g in got :: (validity, g.uid)
  }

  /** The rows of one save transaction, inserted in order. */
  function InsertAll(t: Table, nextId: int, account: int, validity: int, got: seq<Fetched>, now: int): Table {
    if got == [] then t
    else
      var k := |got| - 1;
      Insert(InsertAll(t, nextId, account, validity, got[..k], now),
             RowOf(nextId + k, account, validity, got[k], now))
  }

  function RowOf(id: int, account: int, validity: int, g: Fetched, now: int): Message {
    Message(id, account, validity, g.uid, g.mail.date, now, None, g.mail.body)
  }

  function StartDownload(server: Server, job: Job, answer: Option<seq<int>>): Fetching
    requires job.KnowsUidnext?
    requires answer.None? ==> !DoInitial(job.cursor, job.lastValidity, job.validity)
  {
    var initial := DoInitial(job.cursor, job.lastValidity, job.validity);
    var todo := if initial then answer.value else Window(answer.GetOr([]), job.cursor.value);
    var bound := if answer.Some? then server.uidnext
                 else if job.uidnext.Some? && job.uidnext.value > job.cursor.value then job.uidnext.value
                 else job.cursor.value;
    Fetching(job.validity, job.uidnext, initial, job.cursor, bound, todo, [])
  }

  function LeftOut(server: Server, initial: bool, since: int): set<Key> {
    if initial then set u | u in server.live && server.live[u].date < since :: (server.validity, u) else {}
  }

  function NextChunk(f: Fetching, live: map<int, Mail>): Fetching {
    var n := if |f.todo| < BATCH then |f.todo| else BATCH;
    f.(todo := f.todo[n..], got := f.got + Download(f.todo[..n], live))
  }

  function DroppedKeys(t: Table, ids: seq<int>): set<Key> {
    set m | m in t && m.id in ids :: (m.uidvalidity, m.uid)
  }

  /** Mail under its full names. */
  function Named(validity: int, live: map<int, Mail>): (r: map<Key, Mail>)
    ensures forall k :: k in r <==> k.0 == validity && k.1 in live
    ensures forall u :: u in live ==> r[(validity, u)] == live[u]
  {
    map u | u in live :: (validity, u) := live[u]
  }

  function Step(s: State, e: Event): State
    requires Enabled(s, e)
  {
    var h := s.history;
    match e
    case Deliver(uid, mail) =>
      s.(server := s.server.(uidnext := uid + 1, live := s.server.live[uid := mail]),
         history := h.(delivered := h.delivered[(s.server.validity, uid) := mail]))
    case Expunge(uid) =>
      s.(server := s.server.(live := s.server.live - {uid}),
         history := h.(expunged := h.expunged + {(s.server.validity, uid)}))
    case Renumber(v, next, live) =>
      s.(server := Server(v, next, live),
         history := h.(delivered := h.delivered + Named(v, live)))
    case Load(j) => s.(jobs := s.jobs[j := Loaded(s.account.uidnext, s.account.uidvalidity)])
    case ReadValidity(j) =>
      var job := s.jobs[j];
      s.(jobs := s.jobs[j := KnowsValidity(job.cursor, job.lastValidity, s.server.validity)])
    case ReadUidnext(j, answered) =>
      var job := s.jobs[j];
      s.(jobs := s.jobs[j := KnowsUidnext(job.cursor, job.lastValidity, job.validity,
                                          if answered then Some(s.server.uidnext) else None)])
    case Search(j, since, answer) =>
      var f := StartDownload(s.server, s.jobs[j], answer);
      s.(jobs := s.jobs[j := Downloading(f)],
         history := h.(excluded := h.excluded + LeftOut(s.server, f.initial, since)))
    case FetchChunk(j) => s.(jobs := s.jobs[j := Downloading(NextChunk(s.jobs[j].f, s.server.live))])
    case SaveMessages(j, now) =>
      var f := s.jobs[j].f;
      s.(table := InsertAll(s.table, s.nextId, s.account.id, f.validity, f.got, now),
         nextId := s.nextId + |f.got|,
         jobs := s.jobs[j := Saved(f.validity, FinalCursor(f.uidnext, f.got, f.cursor))],
         history := h.(inserted := h.inserted + KeysOf(f.validity, f.got)))
    case MarkSuccess(j, now) =>
      var job := s.jobs[j];
      s.(account := Perform(SyncSuccess(job.next, Some(job.validity), now), s.account),
         jobs := s.jobs[j := Idle])
    case Crash(j) => s.(jobs := s.jobs[j := Idle])
    case DeleteRows(ids) =>
      s.(table := Delete(s.table, ids), history := h.(dropped := h.dropped + DroppedKeys(s.table, ids)))
  }

  /** At any time a message may be expunged, the mailbox renumbered, rows be deleted locally, and any job
      end; nothing but that happens to the server, the table and the stored cursor then. */
  lemma OutsideEvents(s: State, uid: int, v: int, next: int, live: map<int, Mail>, ids: seq<int>, j: nat)
    ensures uid in s.server.live ==>
              && Enabled(s, Expunge(uid))
              && Step(s, Expunge(uid)).server == s.server.(live := s.server.live - {uid})
    ensures v > s.server.validity && next > 0 && (forall u :: u in live ==> 0 < u < next) ==>
              && Enabled(s, Renumber(v, next, live)) && Step(s, Renumber(v, next, live)).server == Server(v, next, live)
    ensures Enabled(s, DeleteRows(ids))
    ensures var r := Step(s, DeleteRows(ids));
            && (r.server, r.account, r.nextId, r.jobs) == (s.server, s.account, s.nextId, s.jobs)
            && forall m :: m in r.table <==> m in s.table && m.id !in ids
    ensures j < |s.jobs| ==> Enabled(s, Crash(j)) && Step(s, Crash(j)) == s.(jobs := s.jobs[j := Idle])
  {
    FilterMembers(s.table, (m: Message) => m.id !in ids);
  }

  /** The initial search of a job leaves the message out because it is too old. */
  ghost predicate LeavesOut(s: State, e: Event, k: Key)
    requires Enabled(s, e)
  {
    && e.Search? && k.0 == s.server.validity && k.1 in s.server.live && s.server.live[k.1].date < e.since
    && var job := s.jobs[e.j]; DoInitial(job.cursor, job.lastValidity, job.validity)
  }

  ghost predicate Saves(s: State, e: Event, k: Key)
    requires Enabled(s, e)
  {
    e.SaveMessages? && k.0 == s.jobs[e.j].f.validity && exists m :: m in s.jobs[e.j].f.got && m.uid == k.1
  }

  ghost predicate Drops(s: State, e: Event, k: Key) {
    e.DeleteRows? && exists m :: m in s.table && m.id in e.ids && (m.uidvalidity, m.uid) == k
  }

  ghost predicate Arrives(s: State, e: Event, k: Key) {
    (e.Deliver? && k == (s.server.validity, e.uid)) || (e.Renumber? && k.0 == e.validity && k.1 in e.live)
  }

  /** What counts as an explanation really happened: each kind is noted at the steps that are it, and at
      no other. */
  lemma HistoryIsHonest(s: State, e: Event, k: Key)
    requires Enabled(s, e)
    ensures var h, g := s.history, Step(s, e).history;
            && (k in g.expunged <==> k in h.expunged || (e == Expunge(k.1) && k.0 == s.server.validity))
            && (k in g.excluded <==> k in h.excluded || LeavesOut(s, e, k))
            && (k in g.inserted <==> k in h.inserted || Saves(s, e, k))
            && (k in g.dropped <==> k in h.dropped || Drops(s, e, k))
            && (k in g.delivered <==> k in h.delivered || Arrives(s, e, k))
  {
    assert k == (k.0, k.1);
  }

  // ---------------------------------------------------------------- runs

  ghost predicate Initial(s: State) {
    && s.server.uidnext > 0 && (forall u :: u in s.server.live ==> 0 < u < s.server.uidnext)
    && s.account.uidnext.None? && s.account.uidvalidity.None?
    && s.table == []
    && (forall j :: 0 <= j < |s.jobs| ==> s.jobs[j].Idle?)
    && s.history == History(Named(s.server.validity, s.server.live), {}, {}, {}, {})
  }

  predicate CanRun(s: State, es: seq<Event>)
    decreases |es|
  {
    es == [] || (Enabled(s, es[0]) && CanRun(Step(s, es[0]), es[1..]))
  }

  function Run(s: State, es: seq<Event>): State
    requires CanRun(s, es)
    decreases |es|
  {
    if es == [] then s else Run(Step(s, es[0]), es[1..])
  }

  /** The two traps, as conditions on the step that falls into them, of a job whose UIDVALIDITY the server
      still uses. A search error is harmless if it hid nothing below the UIDNEXT about to become the cursor. */
  ghost predicate HarmlessSearch(s: State, e: Event)
    requires Enabled(s, e) && e.Search?
  {
    var job := s.jobs[e.j];
    job.validity == s.server.validity && e.answer.None? && job.uidnext.Some? ==>
      forall u :: u in s.server.live ==> !(job.cursor.value <= u < job.uidnext.value)
  }

  /** Keeping the old cursor is harmless unless it lies beyond what the search vouches for. */
  ghost predicate HarmlessCursor(s: State, e: Event)
    requires Enabled(s, e) && e.SaveMessages?
  {
    var f := s.jobs[e.j].f;
    f.validity == s.server.validity && f.uidnext.None? && f.got == [] && f.cursor.Some? ==> f.cursor.value <= f.bound
  }

  ghost predicate Harmless(s: State, e: Event)
    requires Enabled(s, e)
  {
    (e.Search? ==> HarmlessSearch(s, e)) && (e.SaveMessages? ==> HarmlessCursor(s, e))
  }

  ghost predicate HarmlessRun(s: State, es: seq<Event>)
    requires CanRun(s, es)
    decreases |es|
  {
    es == [] || (Harmless(s, es[0]) && HarmlessRun(Step(s, es[0]), es[1..]))
  }

  // ---------------------------------------------------------------- the invariant

  ghost predicate Accounted(h: History, k: Key) {
    k in h.inserted || k in h.expunged || k in h.excluded
  }

  ghost predicate AccountedBelow(h: History, validity: int, c: int) {
    forall k :: k in h.delivered && k.0 == validity && k.1 < c ==> Accounted(h, k)
  }

  ghost predicate ServerInv(server: Server, h: History) {
    && server.uidnext > 0
    && (forall u :: u in server.live ==>
          (server.validity, u) in h.delivered && h.delivered[(server.validity, u)] == server.live[u])
    && (forall k :: k in h.delivered ==> k.0 <= server.validity)
    && (forall k :: k in h.delivered && k.0 == server.validity ==>
         k.1 < server.uidnext && (k.1 in server.live || k in h.expunged))
  }

  /** A stored, loaded or computed cursor. */
  ghost predicate CursorInv(server: Server, h: History, cursor: Option<int>, validity: Option<int>) {
    && (validity.Some? ==> validity.value <= server.validity)
    && (validity == Some(server.validity) && cursor.Some? ==>
          cursor.value <= server.uidnext && AccountedBelow(h, server.validity, cursor.value))
  }

  ghost predicate FetchingInv(server: Server, h: History, f: Fetching) {
    && f.validity <= server.validity
    && (f.validity == server.validity ==>
          && f.bound <= server.uidnext
          && (f.uidnext.Some? ==> f.uidnext.value <= f.bound)
          && (!f.initial ==> f.cursor.Some? && f.cursor.value <= f.bound)
          && (forall u :: u in f.todo ==> u < f.bound)
          && (forall g :: g in f.got ==> g.uid < f.bound && (server.validity, g.uid) in h.delivered
                                         && h.delivered[(server.validity, g.uid)] == g.mail)
          && (forall k :: k in h.delivered && k.0 == server.validity && k.1 < f.bound ==>
                Accounted(h, k) || k.1 in f.todo || k in KeysOf(f.validity, f.got)))
  }

  ghost predicate JobInv(server: Server, h: History, job: Job) {
    match job
    case Idle => true
    case Loaded(c, lv) => CursorInv(server, h, c, lv)
    case KnowsValidity(c, lv, v) => v <= server.validity && CursorInv(server, h, c, lv)
    case KnowsUidnext(c, lv, v, n) =>
      && v <= server.validity && CursorInv(server, h, c, lv)
      && (v == server.validity && n.Some? ==> n.value <= server.uidnext)
    case Downloading(f) => FetchingInv(server, h, f)
    case Saved(v, next) => CursorInv(server, h, next, Some(v))
  }

  ghost predicate TableInv(s: State) {
    && UniqueKeys(s.table)
    && (forall m :: m in s.table ==> m.account == s.account.id && m.uidvalidity <= s.server.validity)
    && (forall m :: m in s.table && m.uidvalidity == s.server.validity ==>
          (m.uidvalidity, m.uid) in s.history.delivered
          && s.history.delivered[(m.uidvalidity, m.uid)] == Mail(m.internalDate, m.body))
    && (forall k :: k in s.history.inserted ==> HasKey(s.table, s.account.id, k.0, k.1) || k in s.history.dropped)
  }

  ghost predicate Inv(s: State) {
    && ServerInv(s.server, s.history)
    && CursorInv(s.server, s.history, s.account.uidnext, s.account.uidvalidity)
    && (forall j :: 0 <= j < |s.jobs| ==> JobInv(s.server, s.history, s.jobs[j]))
    && TableInv(s)
  }

  // ---------------------------------------------------------------- framing

  /** The server and the history moved on: either under the same UIDVALIDITY, with all new mail at
      or above the old UIDNEXT, or to a larger UIDVALIDITY. */
  ghost predicate MovedOn(a: Server, h: History, b: Server, g: History) {
    && a.validity <= b.validity
    && (a.validity == b.validity ==> a.uidnext <= b.uidnext)
    && (forall k :: k in h.delivered ==> k in g.delivered && g.delivered[k] == h.delivered[k])
    && (forall k :: k in g.delivered && k !in h.delivered && k.0 == a.validity == b.validity ==> k.1 >= a.uidnext)
    && h.inserted <= g.inserted && h.expunged <= g.expunged && h.excluded <= g.excluded
  }

  lemma FrameCursor(a: Server, h: History, b: Server, g: History, cursor: Option<int>, validity: Option<int>)
    requires MovedOn(a, h, b, g) && CursorInv(a, h, cursor, validity)
    ensures CursorInv(b, g, cursor, validity)
  {
    if validity == Some(b.validity) && cursor.Some? {
      assert a.validity == b.validity;
      forall k | k in g.delivered && k.0 == b.validity && k.1 < cursor.value ensures Accounted(g, k) {
        assert k in h.delivered;
      }
    }
  }

  lemma FrameFetching(a: Server, h: History, b: Server, g: History, f: Fetching)
    requires MovedOn(a, h, b, g) && FetchingInv(a, h, f)
    ensures FetchingInv(b, g, f)
  {
    if f.validity == b.validity {
      assert a.validity == b.validity;
      forall k | k in g.delivered && k.0 == b.validity && k.1 < f.bound
        ensures Accounted(g, k) || k.1 in f.todo || k in KeysOf(f.validity, f.got)
      {
        assert k in h.delivered;
      }
    }
  }

  lemma FrameJob(a: Server, h: History, b: Server, g: History, job: Job)
    requires MovedOn(a, h, b, g) && JobInv(a, h, job)
    ensures JobInv(b, g, job)
  {
    match job
    case Idle =>
    case Loaded(c, lv) => FrameCursor(a, h, b, g, c, lv);
    case KnowsValidity(c, lv, v) => FrameCursor(a, h, b, g, c, lv);
    case KnowsUidnext(c, lv, v, n) => FrameCursor(a, h, b, g, c, lv);
    case Downloading(f) => FrameFetching(a, h, b, g, f);
    case Saved(v, next) => FrameCursor(a, h, b, g, next, Some(v));
  }

  /** A step that leaves the table alone keeps the invariant if it moves server and history on and
      the acting job's new phase is sound. */
  lemma FrameStep(s: State, e: Event)
    requires Inv(s) && Enabled(s, e)
    requires var r := Step(s, e);
             && MovedOn(s.server, s.history, r.server, r.history)
             && ServerInv(r.server, r.history)
             && (JobOf(e).Some? ==> JobInv(r.server, r.history, r.jobs[JobOf(e).value]))
             && TableInv(r)
             && CursorInv(r.server, r.history, r.account.uidnext, r.account.uidvalidity)
    ensures Inv(Step(s, e))
  {
    var r := Step(s, e);
    forall j | 0 <= j < |r.jobs| ensures JobInv(r.server, r.history, r.jobs[j]) {
      if JobOf(e) != Some(j) {
        assert r.jobs[j] == s.jobs[j];
        FrameJob(s.server, s.history, r.server, r.history, s.jobs[j]);
      }
    }
  }

  // ---------------------------------------------------------------- the server's steps

  lemma ServerStep(s: State, e: Event)
    requires Inv(s) && Enabled(s, e) && (e.Deliver? || e.Expunge? || e.Renumber?)
    ensures Inv(Step(s, e))
  {
    var r := Step(s, e);
    if e.Deliver? {
      assert (s.server.validity, e.uid) !in s.history.delivered;
    }
    forall u | u in r.server.live
      ensures (r.server.validity, u) in r.history.delivered
              && r.history.delivered[(r.server.validity, u)] == r.server.live[u]
    {
      if !e.Renumber? && u in s.server.live {
        assert (s.server.validity, u) in s.history.delivered;
      }
    }
    assert ServerInv(r.server, r.history);
    FrameCursor(s.server, s.history, r.server, r.history, s.account.uidnext, s.account.uidvalidity);
    FrameStep(s, e);
  }

  // ---------------------------------------------------------------- the jobs' steps

  lemma ReadStep(s: State, e: Event)
    requires Inv(s) && Enabled(s, e) && (e.Load? || e.ReadValidity? || e.ReadUidnext? || e.Crash?)
    ensures Inv(Step(s, e))
  {
    FrameStep(s, e);
  }

  lemma SearchAccounts(s: State, job: Job, since: int, answer: Option<seq<int>>, h: History)
    requires ServerInv(s.server, s.history) && JobInv(s.server, s.history, job) && job.KnowsUidnext?
    requires answer.None? ==> !DoInitial(job.cursor, job.lastValidity, job.validity)
    requires answer.Some? ==> SearchAnswer(s, job, since, answer.value)
    requires job.validity == s.server.validity && answer.None? && job.uidnext.Some? ==>
               forall u :: u in s.server.live ==> !(job.cursor.value <= u < job.uidnext.value)
    requires var f := StartDownload(s.server, job, answer);
             h == s.history.(excluded := s.history.excluded + LeftOut(s.server, f.initial, since))
    ensures FetchingInv(s.server, h, StartDownload(s.server, job, answer))
  {
    var f := StartDownload(s.server, job, answer);
    var v := s.server.validity;
    if f.validity == v {
      FilterMembers(answer.GetOr([]), (u: int) => u >= job.cursor.GetOr(0));
      forall k | k in h.delivered && k.0 == v && k.1 < f.bound
        ensures Accounted(h, k) || k.1 in f.todo
      {
        if k.1 in s.server.live {
          if f.initial {
            assert k in LeftOut(s.server, true, since) || k.1 in f.todo;
          } else if k.1 < job.cursor.value {
            assert Accounted(s.history, k);
          }
        }
      }
    }
  }

  lemma SearchStep(s: State, e: Event)
    requires Inv(s) && Enabled(s, e) && e.Search? && HarmlessSearch(s, e)
    ensures Inv(Step(s, e))
  {
    var r := Step(s, e);
    SearchAccounts(s, s.jobs[e.j], e.since, e.answer, r.history);
    FrameCursor(s.server, s.history, r.server, r.history, s.account.uidnext, s.account.uidvalidity);
    FrameStep(s, e);
  }

  lemma ChunkAccounts(server: Server, h: History, f: Fetching)
    requires ServerInv(server, h) && FetchingInv(server, h, f)
    ensures FetchingInv(server, h, NextChunk(f, server.live))
  {
    var g := NextChunk(f, server.live);
    var n := if |f.todo| < BATCH then |f.todo| else BATCH;
    assert f.todo == f.todo[..n] + f.todo[n..];
    assert forall u :: u in f.todo <==> u in f.todo[..n] || u in g.todo;
    if f.validity == server.validity {
      forall x | x in g.got
        ensures x.uid < f.bound && (server.validity, x.uid) in h.delivered
                && h.delivered[(server.validity, x.uid)] == x.mail
      {
        DownloadMember(f.todo[..n], server.live, x);
      }
      forall k | k in h.delivered && k.0 == server.validity && k.1 < f.bound
        ensures Accounted(h, k) || k.1 in g.todo || k in KeysOf(g.validity, g.got)
      {
        if k.1 in server.live {
          var x := Fetched(k.1, server.live[k.1]);
          DownloadMember(f.todo[..n], server.live, x);
          if k.1 in f.todo[..n] {
            assert x in g.got;
          } else if k in KeysOf(f.validity, f.got) {
            var y :| y in f.got && (f.validity, y.uid) == k;
            assert y in g.got;
          }
        }
      }
    }
  }

  lemma ChunkStep(s: State, e: Event)
    requires Inv(s) && Enabled(s, e) && e.FetchChunk?
    ensures Inv(Step(s, e))
  {
    ChunkAccounts(s.server, s.history, s.jobs[e.j].f);
    FrameStep(s, e);
  }

  /** Once the rows are in, every UID below the new cursor is accounted for. */
  lemma SavedCursor(server: Server, h: History, f: Fetching, h': History)
    requires FetchingInv(server, h, f) && f.todo == []
    requires f.validity == server.validity && f.uidnext.None? && f.got == [] && f.cursor.Some? ==>
               f.cursor.value <= f.bound
    requires h' == h.(inserted := h.inserted + KeysOf(f.validity, f.got))
    ensures CursorInv(server, h', FinalCursor(f.uidnext, f.got, f.cursor), Some(f.validity))
  {
    var next := FinalCursor(f.uidnext, f.got, f.cursor);
    if f.validity == server.validity && next.Some? {
      assert next.value <= f.bound;
      forall k | k in h'.delivered && k.0 == server.validity && k.1 < next.value ensures Accounted(h', k) {
      }
    }
  }

  lemma {:induction false} InsertAllKeeps(t: Table, nextId: int, account: int, validity: int,
                                  got: seq<Fetched>, now: int)
    requires UniqueKeys(t)
    ensures var r := InsertAll(t, nextId, account, validity, got, now);
            && UniqueKeys(r)
            && (forall m :: m in t ==> m in r)
            && (forall m :: m in r && m !in t ==>
                  m.account == account && m.uidvalidity == validity
                  && Fetched(m.uid, Mail(m.internalDate, m.body)) in got
                  && m.fetchedAt == now && m.pushedAt.None?)
            && (forall g :: g in got ==> HasKey(r, account, validity, g.uid))
  {
    if got != [] {
      var k := |got| - 1;
      var before := InsertAll(t, nextId, account, validity, got[..k], now);
      var m := RowOf(nextId + k, account, validity, got[k], now);
      InsertAllKeeps(t, nextId, account, validity, got[..k], now);
      InsertKeepsKeys(before, m);
      var r := Insert(before, m);
      assert got == got[..k] + [got[k]];
      forall g | g in got[..k] ensures HasKey(r, account, validity, g.uid) {
        var w :| w in before && w.account == account && w.uidvalidity == validity && w.uid == g.uid;
        assert w in r;
      }
    }
  }

  lemma SaveKeepsTable(s: State, e: Event)
    requires Inv(s) && Enabled(s, e) && e.SaveMessages?
    ensures TableInv(Step(s, e))
  {
    var r := Step(s, e);
    var f := s.jobs[e.j].f;
    InsertAllKeeps(s.table, s.nextId, s.account.id, f.validity, f.got, e.now);
    forall k | k in r.history.inserted ensures HasKey(r.table, r.account.id, k.0, k.1) || k in r.history.dropped {
      if k in s.history.inserted && k !in s.history.dropped {
        var m :| m in s.table && m.account == s.account.id && m.uidvalidity == k.0 && m.uid == k.1;
        assert m in r.table;
      }
    }
  }

  lemma SaveStep(s: State, e: Event)
    requires Inv(s) && Enabled(s, e) && e.SaveMessages? && HarmlessCursor(s, e)
    ensures Inv(Step(s, e))
  {
    var r := Step(s, e);
    SaveKeepsTable(s, e);
    SavedCursor(s.server, s.history, s.jobs[e.j].f, r.history);
    FrameCursor(s.server, s.history, r.server, r.history, s.account.uidnext, s.account.uidvalidity);
    FrameStep(s, e);
  }

  /** A slower job may move the cursor backwards; its cursor is just as sound. */
  lemma MarkStep(s: State, e: Event)
    requires Inv(s) && Enabled(s, e) && e.MarkSuccess?
    ensures Inv(Step(s, e))
  {
    FrameStep(s, e);
  }

  lemma DeleteStep(s: State, e: Event)
    requires Inv(s) && Enabled(s, e) && e.DeleteRows?
    ensures Inv(Step(s, e))
  {
    var r := Step(s, e);
    var keep := (m: Message) => m.id !in e.ids;
    FilterMembers(s.table, keep);
    FilterUniqueKeys(s.table, keep);
    forall k | k in r.history.inserted ensures HasKey(r.table, r.account.id, k.0, k.1) || k in r.history.dropped {
      if k !in s.history.dropped {
        var m :| m in s.table && m.account == s.account.id && m.uidvalidity == k.0 && m.uid == k.1;
        assert m in r.table || (m.uidvalidity, m.uid) in DroppedKeys(s.table, e.ids);
      }
    }
    FrameCursor(s.server, s.history, r.server, r.history, s.account.uidnext, s.account.uidvalidity);
    FrameStep(s, e);
  }

  /** Every harmless step of the server, of any job, a crash or a local deletion keeps it. */
  lemma StepKeepsInv(s: State, e: Event)
    requires Inv(s) && Enabled(s, e) && Harmless(s, e)
    ensures Inv(Step(s, e))
  {
    match e
    case Search(_, _, _) => SearchStep(s, e);
    case FetchChunk(_) => ChunkStep(s, e);
    case SaveMessages(_, _) => SaveStep(s, e);
    case MarkSuccess(_, _) => MarkStep(s, e);
    case DeleteRows(_) => DeleteStep(s, e);
    case Deliver(_, _) => ServerStep(s, e);
    case Expunge(_) => ServerStep(s, e);
    case Renumber(_, _, _) => ServerStep(s, e);
    case _ => ReadStep(s, e);
  }

  lemma {:induction false} RunKeepsInv(s: State, es: seq<Event>)
    requires Inv(s) && CanRun(s, es) && HarmlessRun(s, es)
    ensures Inv(Run(s, es))
    decreases |es|
  {
    if es != [] {
      StepKeepsInv(s, es[0]);
      RunKeepsInv(Step(s, es[0]), es[1..]);
    }
  }

  // ---------------------------------------------------------------- the result

  /** The row of a message, with its content. */
  ghost predicate StoredExactly(s: State, k: Key)
    requires k in s.history.delivered
  {
    exists m :: m in s.table && (m.uidvalidity, m.uid) == k && Mail(m.internalDate, m.body) == s.history.delivered[k]
  }

  /** The message is where it should be: one that was ever saved has its row, unless that was deleted
      locally; one that was not had been expunged before it could be fetched, or an initial sync's date
      window left it out. */
  ghost predicate Explained(s: State, k: Key)
    requires k in s.history.delivered
  {
    if k in s.history.inserted then StoredExactly(s, k) || k in s.history.dropped
    else k in s.history.expunged || k in s.history.excluded
  }

  /** Nothing below the stored cursor is missing without a reason. */
  ghost predicate NoGap(s: State) {
    s.account.uidvalidity == Some(s.server.validity) && s.account.uidnext.Some? ==>
      forall k :: k in s.history.delivered && k.0 == s.server.validity && k.1 < s.account.uidnext.value ==>
        Explained(s, k)
  }

  lemma InvMeansNoGap(s: State)
    requires Inv(s)
    ensures NoGap(s)
  {
    if s.account.uidvalidity == Some(s.server.validity) && s.account.uidnext.Some? {
      forall k | k in s.history.delivered && k.0 == s.server.validity && k.1 < s.account.uidnext.value
        ensures Explained(s, k)
      {
        assert Accounted(s.history, k);
        if k in s.history.inserted && k !in s.history.dropped {
          var m :| m in s.table && m.account == s.account.id && m.uidvalidity == k.0 && m.uid == k.1;
        }
      }
    }
  }

  /** No gap, and no duplicate row, after every interleaving of deliveries, expunges, renumberings,
      local deletions, crashes and any number of concurrent sync jobs. */
  lemma SyncHasNoGap(s: State, es: seq<Event>)
    requires Initial(s) && CanRun(s, es) && HarmlessRun(s, es)
    ensures NoGap(Run(s, es)) && UniqueKeys(Run(s, es).table)
  {
    assert Inv(s);
    RunKeepsInv(s, es);
    InvMeansNoGap(Run(s, es));
  }

  // ---------------------------------------------------------------- why the two conditions are needed

  lemma RunOne(s: State, e: Event, es: seq<Event>)
    requires Enabled(s, e) && CanRun(Step(s, e), es)
    ensures CanRun(s, [e] + es) && Run(s, [e] + es) == Run(Step(s, e), es)
  {
    assert ([e] + es)[1..] == es;
  }

  lemma {:induction false} RunConcat(s: State, es: seq<Event>, fs: seq<Event>)
    requires CanRun(s, es) && CanRun(Run(s, es), fs)
    ensures CanRun(s, es + fs) && Run(s, es + fs) == Run(Run(s, es), fs)
    decreases |es|
  {
    if es == [] {
      assert es + fs == fs;
    } else {
      assert (es + fs)[1..] == es[1..] + fs;
      RunConcat(Step(s, es[0]), es[1..], fs);
    }
  }

  /** A search error that is not harmless loses mail: as soon as the job finishes undisturbed, a
      message the cursor has passed is neither stored nor otherwise accounted for. */
  lemma HarmfulSearchLosesMail(s: State, j: nat, now: int, u: int)
    requires Inv(s) && Enabled(s, Search(j, 0, None)) && s.jobs[j].validity == s.server.validity
    requires s.jobs[j].uidnext.Some? && u in s.server.live && s.jobs[j].cursor.value <= u < s.jobs[j].uidnext.value
    requires var k := (s.server.validity, u);
             k in s.history.delivered && !Explained(s, k)
    ensures var es := [Search(j, 0, None), SaveMessages(j, now), MarkSuccess(j, now)];
            CanRun(s, es) && !NoGap(Run(s, es))
  {
    var e1, e2, e3 := Search(j, 0, None), SaveMessages(j, now), MarkSuccess(j, now);
    var s1 := Step(s, e1);
    assert s1.jobs[j].f.todo == [] && s1.jobs[j].f.got == [];
    var s2 := Step(s1, e2);
    assert s2.table == s.table;
    var s3 := Step(s2, e3);
    RunOne(s2, e3, []);
    RunOne(s1, e2, [e3]);
    RunOne(s, e1, [e2] + [e3]);
    assert [e1] + ([e2] + [e3]) == [e1, e2, e3];
    var k := (s.server.validity, u);
    assert s3.history == s.history by { assert KeysOf(s.jobs[j].validity, []) == {}; }
    assert !Explained(s3, k);
  }

  /** A cursor kept beyond the server's UIDNEXT loses the next message. */
  lemma HarmfulCursorLosesMail(s: State, j: nat, now: int, mail: Mail)
    requires Inv(s) && Enabled(s, SaveMessages(j, now)) && s.jobs[j].f.validity == s.server.validity
    requires var f := s.jobs[j].f;
             f.uidnext.None? && f.got == [] && f.cursor.Some? && f.cursor.value > s.server.uidnext
    requires var k := (s.server.validity, s.server.uidnext);
             k !in s.history.expunged && k !in s.history.excluded && k !in s.history.dropped
             && forall m :: m in s.table ==> (m.uidvalidity, m.uid) != k
    ensures var es := [SaveMessages(j, now), MarkSuccess(j, now), Deliver(s.server.uidnext, mail)];
            CanRun(s, es) && !NoGap(Run(s, es))
  {
    var e1, e2, e3 := SaveMessages(j, now), MarkSuccess(j, now), Deliver(s.server.uidnext, mail);
    var s1 := Step(s, e1);
    assert s1.table == s.table;
    var s2 := Step(s1, e2);
    var s3 := Step(s2, e3);
    RunOne(s2, e3, []);
    RunOne(s1, e2, [e3]);
    RunOne(s, e1, [e2] + [e3]);
    assert [e1] + ([e2] + [e3]) == [e1, e2, e3];
    var k := (s.server.validity, s.server.uidnext);
    assert k in s3.history.delivered && !StoredExactly(s3, k) && !Explained(s3, k);
  }

  /** A cursor kept beyond what the search vouches for skips a message that came in between. */
  lemma KeptCursorSkipsMail(s: State, j: nat, now: int, u: int)
    requires Inv(s) && Enabled(s, SaveMessages(j, now)) && s.jobs[j].f.validity == s.server.validity
    requires var f := s.jobs[j].f;
             f.uidnext.None? && f.got == [] && f.cursor.Some? && f.bound <= u < f.cursor.value
    requires var k := (s.server.validity, u);
             k in s.history.delivered && !Explained(s, k)
    ensures var es := [SaveMessages(j, now), MarkSuccess(j, now)];
            CanRun(s, es) && !NoGap(Run(s, es))
  {
    var e1, e2 := SaveMessages(j, now), MarkSuccess(j, now);
    var s1 := Step(s, e1);
    var s2 := Step(s1, e2);
    RunOne(s1, e2, []);
    RunOne(s, e1, [e2]);
    assert [e1] + [e2] == [e1, e2];
    var k := (s.server.validity, u);
    assert s1.table == s.table && s1.history == s.history by { assert KeysOf(s.jobs[j].f.validity, []) == {}; }
    assert !Explained(s2, k);
  }

  // ---------------------------------------------------------------- the outbox ids of a save

  /** The new rows and the ids handed to the outbox belong together. */
  ghost predicate Added(before: Table, after: Table, ids: seq<int>) {
    |after| == |before| + |ids| && before == after[..|before|]
    && forall i :: 0 <= i < |ids| ==> after[|before| + i].id == ids[i]
  }

  /** The ids of the rows that are new, as the outbox receives them. */
  function NewIds(t: Table, nextId: int, account: int, validity: int, got: seq<Fetched>, now: int): seq<int> {
    if got == [] then []
    else
      var k := |got| - 1;
      var before := InsertAll(t, nextId, account, validity, got[..k], now);
      NewIds(t, nextId, account, validity, got[..k], now)
      + (if HasKey(before, account, validity, got[k].uid) then [] else [nextId + k])
  }

  lemma AddedTrans(a: Table, b: Table, c: Table, ids: seq<int>, more: seq<int>)
    requires Added(a, b, ids) && Added(b, c, more)
    ensures Added(a, c, ids + more)
  {
    assert c[..|b|][..|a|] == c[..|a|];
    assert forall i :: 0 <= i < |b| ==> c[i] == c[..|b|][i] == b[i];
  }

  /** One save transaction only appends, and the outbox ids are exactly those of the appended rows. */
  lemma {:induction false} OutboxIsNewRows(t: Table, nextId: int, account: int, validity: int,
                                  got: seq<Fetched>, now: int)
    ensures Added(t, InsertAll(t, nextId, account, validity, got, now), NewIds(t, nextId, account, validity, got, now))
  {
    if got == [] {
      assert t[..|t|] == t;
    } else {
      var k := |got| - 1;
      OutboxIsNewRows(t, nextId, account, validity, got[..k], now);
      var before := InsertAll(t, nextId, account, validity, got[..k], now);
      var after := InsertAll(t, nextId, account, validity, got, now);
      var more := if HasKey(before, account, validity, got[k].uid) then [] else [nextId + k];
      assert Added(before, after, more) by { assert after[..|before|] == before; }
      AddedTrans(t, before, after, NewIds(t, nextId, account, validity, got[..k], now), more);
    }
  }
}
