/** `sync_one_account` as it runs, with the mail server, other jobs and local deletions acting between any
    two of its steps: every execution is a run of the sync machine. */
module SyncJob {
  import opened Seqs
  import opened Messages
  import opened MailAccounts
  import opened ImapFetcher
  import opened ImapSync

  /** What the surroundings do: whatever the others do at each interruption point, whether STATUS gives
      UIDNEXT, whether the search fails and what it answers otherwise, and the time of the save. */
  datatype Surroundings = Surroundings(
    others: nat -> seq<Event>, uidnextAnswered: bool, searchFails: bool, since: int,
    searchSince: map<int, Mail> -> seq<int>, searchFrom: (map<int, Mail>, int) -> seq<int>, now: int)

  /** Searches answer for the mailbox as it is. */
  ghost predicate SearchesAreTruthful(env: Surroundings) {
    && (forall live: map<int, Mail>, u :: u in env.searchSince(live) <==> u in live && live[u].date >= env.since)
    && (forall live: map<int, Mail>, cursor, u :: u in env.searchFrom(live, cursor) ==> u in live)
    && (forall live: map<int, Mail>, cursor, u :: u in live && cursor <= u ==> u in env.searchFrom(live, cursor))
  }

  /** Nothing else happens while the job runs. */
  ghost predicate Undisturbed(env: Surroundings) {
    forall k: nat :: env.others(k) == []
  }

  /** What the job's one search answers at this mailbox; None is an error. */
  function SearchResult(env: Surroundings, live: map<int, Mail>, job: Job): Option<seq<int>>
    requires job.KnowsUidnext?
  {
    if env.searchFails then None
    else if DoInitial(job.cursor, job.lastValidity, job.validity) then Some(env.searchSince(live))
    else Some(env.searchFrom(live, job.cursor.value))
  }

  // ---------------------------------------------------------------- runs and the job's own part in them

  /** What stands at a position of a run stays there as the run goes on. */
  lemma SamePlace(t: seq<Event>, trace: seq<Event>, at: nat)
    requires t <= trace && at < |t|
    ensures trace[..at] == t[..at] && trace[at] == t[at]
  {}

  /** The events of job `j`, in order. */
  function Own(es: seq<Event>, j: nat): seq<Event> {
    Filter(es, (e: Event) => JobOf(e) == Some(j))
  }

  lemma OwnAppend(es: seq<Event>, fs: seq<Event>, j: nat)
    ensures Own(es + fs, j) == Own(es, j) + Own(fs, j)
  {
    FilterAppend(es, fs, (e: Event) => JobOf(e) == Some(j));
  }

  lemma StepLeavesJobAlone(s: State, e: Event, j: nat)
    requires Enabled(s, e) && JobOf(e) != Some(j) && j < |s.jobs|
    ensures |Step(s, e).jobs| == |s.jobs| && Step(s, e).jobs[j] == s.jobs[j]
  {}

  lemma {:induction false} OthersLeaveJobAlone(s: State, es: seq<Event>, j: nat)
    requires CanRun(s, es) && Own(es, j) == [] && j < |s.jobs|
    ensures var r := Run(s, es); |r.jobs| == |s.jobs| && r.jobs[j] == s.jobs[j]
    decreases |es|
  {
    if es != [] {
      StepLeavesJobAlone(s, es[0], j);
      OthersLeaveJobAlone(Step(s, es[0]), es[1..], j);
    }
  }

  function Fetches(j: nat, n: nat): (es: seq<Event>)
    ensures |es| == n
  {
    if n == 0 then [] else Fetches(j, n - 1) + [FetchChunk(j)]
  }

  /** The steps of a job that gets through, with `n` FETCH commands. */
  function JobEvents(j: nat, env: Surroundings, answer: Option<seq<int>>, n: nat): seq<Event> {
    [Load(j), ReadValidity(j), ReadUidnext(j, env.uidnextAnswered)] + [Search(j, env.since, answer)]
    + Fetches(j, n) + [SaveMessages(j, env.now)] + [MarkSuccess(j, env.now)]
  }

  lemma InOrder(own: seq<Event>, j: nat, env: Surroundings, answer: Option<seq<int>>, n: nat)
    ensures own + [Load(j), ReadValidity(j), ReadUidnext(j, env.uidnextAnswered)] + [Search(j, env.since, answer)]
            + Fetches(j, n) + [SaveMessages(j, env.now)] + [MarkSuccess(j, env.now)]
            == own + JobEvents(j, env, answer, n)
  {}

  /** At position `at` of the run the job saves what it has fetched, which is `got`; these are the ids of
      the rows that are new then. */
  ghost predicate SavedAt(start: State, trace: seq<Event>, at: nat, j: nat, now: int,
                          got: seq<Fetched>, outbox: seq<int>)
  {
    && at < |trace| && trace[at] == SaveMessages(j, now) && CanRun(start, trace[..at])
    && var s := Run(start, trace[..at]);
       && j < |s.jobs| && s.jobs[j].Downloading?
       && var f := s.jobs[j].f;
          && got == f.got && outbox == NewIds(s.table, s.nextId, s.account.id, f.validity, f.got, now)
  }

  /** At position `at` of the run job `j` is told UIDNEXT, and this is what the server has then. */
  ghost predicate ToldUidnext(start: State, trace: seq<Event>, at: nat, j: nat, uidnext: int) {
    && at < |trace| && trace[at] == ReadUidnext(j, true) && CanRun(start, trace[..at])
    && Run(start, trace[..at]).server.uidnext == uidnext
  }

  lemma StillTold(start: State, t: seq<Event>, trace: seq<Event>, at: nat, j: nat, uidnext: int)
    requires t <= trace && ToldUidnext(start, t, at, j, uidnext)
    ensures ToldUidnext(start, trace, at, j, uidnext)
  {
    SamePlace(t, trace, at);
  }

  /** The job stands at the server's own UIDNEXT. */
  ghost predicate AtTheEnd(s: State, job: Job) {
    && job.KnowsUidnext? && job.cursor == Some(s.server.uidnext)
    && job.lastValidity == Some(s.server.validity) && job.validity == s.server.validity
    && forall u :: u in s.server.live ==> u < s.server.uidnext
  }

  /** Such a job has nothing to fetch, whatever the search answers. */
  lemma NothingLeft(s: State, job: Job, since: int, answer: Option<seq<int>>)
    requires AtTheEnd(s, job)
    requires answer.Some? ==> SearchAnswer(s, job, since, answer.value)
    ensures StartDownload(s.server, job, answer).todo == []
  {
    FilterNone(answer.GetOr([]), (u: int) => u >= job.cursor.value);
  }

  /** At some point of the run, not before position `from`, the message was on the server. */
  ghost predicate SeenOn(start: State, trace: seq<Event>, from: nat, g: Fetched) {
    exists k :: from <= k <= |trace| && CanRun(start, trace[..k])
                && var live := Run(start, trace[..k]).server.live; g.uid in live && live[g.uid] == g.mail
  }

  /** At some such point no message with this UID was on the server. */
  ghost predicate GoneFrom(start: State, trace: seq<Event>, from: nat, u: int) {
    exists k :: from <= k <= |trace| && CanRun(start, trace[..k]) && u !in Run(start, trace[..k]).server.live
  }

  lemma SeenLater(start: State, t: seq<Event>, trace: seq<Event>, early: nat, from: nat, g: Fetched)
    requires t <= trace && early <= from && SeenOn(start, t, from, g)
    ensures SeenOn(start, trace, early, g)
  {
    var k :| from <= k <= |t| && CanRun(start, t[..k])
             && var live := Run(start, t[..k]).server.live; g.uid in live && live[g.uid] == g.mail;
    assert trace[..k] == t[..k];
  }

  lemma GoneLater(start: State, t: seq<Event>, trace: seq<Event>, early: nat, from: nat, u: int)
    requires t <= trace && early <= from && GoneFrom(start, t, from, u)
    ensures GoneFrom(start, trace, early, u)
  {
    var k :| from <= k <= |t| && CanRun(start, t[..k]) && u !in Run(start, t[..k]).server.live;
    assert trace[..k] == t[..k];
  }

  /** What downloading `uids` since position `from` has brought: only messages that were there, and every
      UID that was not gone. */
  ghost predicate Downloaded(start: State, trace: seq<Event>, from: nat, uids: seq<int>, got: seq<Fetched>) {
    && (forall g :: g in got ==> g.uid in uids && SeenOn(start, trace, from, g))
    && (forall u :: u in uids ==> (exists g :: g in got && g.uid == u) || GoneFrom(start, trace, from, u))
  }

  lemma DownloadedLater(start: State, t: seq<Event>, trace: seq<Event>, early: nat, from: nat,
                        uids: seq<int>, got: seq<Fetched>)
    requires t <= trace && early <= from && Downloaded(start, t, from, uids, got)
    ensures Downloaded(start, trace, early, uids, got)
  {
    forall g | g in got ensures SeenOn(start, trace, early, g) {
      SeenLater(start, t, trace, early, from, g);
    }
    forall u | u in uids && !exists g :: g in got && g.uid == u ensures GoneFrom(start, trace, early, u) {
      GoneLater(start, t, trace, early, from, u);
    }
  }

  lemma DownloadedNothing(start: State, trace: seq<Event>, from: nat, uids: seq<int>, got: seq<Fetched>)
    requires Downloaded(start, trace, from, uids, got) && uids == []
    ensures got == []
  {
    FilterNone(got, (g: Fetched) => true);
  }

  lemma DownloadedBatch(start: State, trace: seq<Event>, from: nat, uids: seq<int>)
    requires CanRun(start, trace) && from <= |trace|
    ensures Downloaded(start, trace, from, uids, Download(uids, Run(start, trace).server.live))
  {
    var live := Run(start, trace).server.live;
    var got := Download(uids, live);
    assert trace[..|trace|] == trace;
    forall g | g in got ensures g.uid in uids && SeenOn(start, trace, from, g) {
      DownloadMember(uids, live, g);
    }
    forall u | u in uids ensures (exists g :: g in got && g.uid == u) || GoneFrom(start, trace, from, u) {
      if u in live {
        DownloadMember(uids, live, Fetched(u, live[u]));
        assert Fetched(u, live[u]).uid == u;
      }
    }
  }

  lemma DownloadedMore(start: State, trace: seq<Event>, from: nat,
                       a: seq<int>, got: seq<Fetched>, b: seq<int>, more: seq<Fetched>)
    requires Downloaded(start, trace, from, a, got) && Downloaded(start, trace, from, b, more)
    ensures Downloaded(start, trace, from, a + b, got + more)
  {
    forall u | u in a + b ensures (exists g :: g in got + more && g.uid == u) || GoneFrom(start, trace, from, u) {
      if g :| g in got && g.uid == u {
        assert g in got + more;
      } else if g :| g in more && g.uid == u {
        assert g in got + more;
      }
    }
  }

  lemma OneMoreBatch(start: State, t: seq<Event>, trace: seq<Event>, from: nat, uids: seq<int>, done: nat, size: nat,
                     got: seq<Fetched>, more: seq<Fetched>)
    requires t <= trace && from <= |t| && done + size <= |uids|
    requires Downloaded(start, t, from, uids[..done], got)
    requires Downloaded(start, trace, |t|, uids[done..][..size], more)
    ensures Downloaded(start, trace, from, uids[..done + size], got + more)
  {
    DownloadedLater(start, t, trace, from, from, uids[..done], got);
    DownloadedLater(start, trace, trace, from, |t|, uids[done..][..size], more);
    DownloadedMore(start, trace, from, uids[..done], got, uids[done..][..size], more);
    assert uids[..done] + uids[done..][..size] == uids[..done + size];
  }

  /** What `n` commands of 50 UIDs each get through, when none is superfluous. */
  ghost predicate DoneAfter(n: nat, done: nat, total: nat) {
    n * 50 < total + 50 && done == if n * 50 < total then n * 50 else total
  }

  /** After `n` commands of a download that started as `f` at position `from` of the run: where the job
      stands, and what the first `done` UIDs have brought. */
  ghost predicate Progress(start: State, trace: seq<Event>, from: nat, j: nat, own: seq<Event>, f: Fetching,
                           job: Job, n: nat, done: nat, more: seq<Fetched>)
  {
    && Own(trace, j) == own + Fetches(j, n)
    && DoneAfter(n, done, |f.todo|)
    && job == Downloading(f.(todo := f.todo[done..], got := f.got + more))
    && Downloaded(start, trace, from, f.todo[..done], more)
  }

  lemma NoProgress(start: State, trace: seq<Event>, j: nat, f: Fetching)
    ensures Progress(start, trace, |trace|, j, Own(trace, j), f, Downloading(f), 0, 0, [])
  {
    assert f.todo[0..] == f.todo && f.got + [] == f.got;
  }

  lemma OneMoreFetch(own: seq<Event>, j: nat, n: nat)
    ensures own + Fetches(j, n) + [FetchChunk(j)] == own + Fetches(j, n + 1)
  {}

  lemma MoreProgress(start: State, t: seq<Event>, trace: seq<Event>, from: nat, j: nat, own: seq<Event>, f: Fetching,
                     job: Job, n: nat, done: nat, more: seq<Fetched>, size: nat, next: Job, batch: seq<Fetched>)
    requires t <= trace && from <= |t| && Progress(start, t, from, j, own, f, job, n, done, more)
    requires job.f.todo != [] && size == if |job.f.todo| < BATCH then |job.f.todo| else BATCH
    requires Own(trace, j) == Own(t, j) + [FetchChunk(j)]
    requires next == Downloading(job.f.(todo := job.f.todo[size..], got := job.f.got + batch))
    requires Downloaded(start, trace, |t|, job.f.todo[..size], batch)
    ensures |next.f.todo| < |job.f.todo|
    ensures Progress(start, trace, from, j, own, f, next, n + 1, done + size, more + batch)
  {
    hide Downloaded, Own;
    OneMoreBatch(start, t, trace, from, f.todo, done, size, more, batch);
    OneMoreFetch(own, j, n);
    assert f.todo[done..][size..] == f.todo[done + size..];
    assert f.got + more + batch == f.got + (more + batch);
  }

  lemma AllProgress(start: State, trace: seq<Event>, from: nat, j: nat, own: seq<Event>, f: Fetching,
                    job: Job, n: nat, done: nat, more: seq<Fetched>)
    requires Progress(start, trace, from, j, own, f, job, n, done, more) && job.f.todo == []
    ensures Own(trace, j) == own + Fetches(j, n) && |f.todo| <= n * 50 < |f.todo| + 50
    ensures job == Downloading(f.(todo := [], got := f.got + more)) && Downloaded(start, trace, from, f.todo, more)
  {
    hide Downloaded, Own;
    assert f.todo[..|f.todo|] == f.todo;
  }

  /** What one more message adds to the rows and to the outbox ids. */
  lemma OneMoreInsert(t: Table, nextId: int, account: int, validity: int, got: seq<Fetched>, now: int, i: nat)
    requires i < |got|
    ensures var before := InsertAll(t, nextId, account, validity, got[..i], now);
            && InsertAll(t, nextId, account, validity, got[..i + 1], now)
               == Insert(before, RowOf(nextId + i, account, validity, got[i], now))
            && NewIds(t, nextId, account, validity, got[..i + 1], now)
               == NewIds(t, nextId, account, validity, got[..i], now)
                  + (if HasKey(before, account, validity, got[i].uid) then [] else [nextId + i])
  {
    assert got[..i + 1][..i] == got[..i];
  }

  // ---------------------------------------------------------------- the job

  class SyncWorker {
    const id: int
    const accounts: MailAccountsRepo
    const messages: MessagesRepo
    var server: Server
    var jobs: seq<Job>
    var history: History
    ghost var start: State
    ghost var trace: seq<Event>

    function Now(): State
      requires id in accounts.rows
      reads this, accounts, messages
    {
      State(server, accounts.rows[id], messages.rows, messages.nextId, jobs, history)
    }

    /** What has happened so far is a run of the machine. */
    ghost predicate Valid()
      reads this, accounts, messages
    {
      id in accounts.rows && CanRun(start, trace) && Run(start, trace) == Now()
    }

    constructor (id: int, accounts: MailAccountsRepo, messages: MessagesRepo,
                 server: Server, jobs: seq<Job>, history: History)
      requires id in accounts.rows
      ensures Valid() && this.id == id && this.accounts == accounts && this.messages == messages && trace == []
      ensures start == State(server, accounts.rows[id], messages.rows, messages.nextId, jobs, history)
    {
      this.id, this.accounts, this.messages := id, accounts, messages;
      this.server, this.jobs, this.history := server, jobs, history;
      start := State(server, accounts.rows[id], messages.rows, messages.nextId, jobs, history);
      trace := [];
    }

    /** A step that job `j` has just made takes its place in the trace. */
    ghost method Log(before: State, e: Event, j: nat)
      requires CanRun(start, trace) && Run(start, trace) == before && id in accounts.rows
      requires Enabled(before, e) && Step(before, e) == Now() && JobOf(e) == Some(j)
      modifies this`trace
      ensures Valid() && trace == old(trace) + [e] && Own(trace, j) == Own(old(trace), j) + [e]
    {
      var one := [e];
      assert one[1..] == [];
      RunConcat(start, trace, one);
      OwnAppend(trace, one, j);
      trace := trace + [e];
    }

    /** The others run, if what they would do can happen here. */
    method Interrupt(es: seq<Event>, j: nat)
      requires Valid() && j < |jobs|
      modifies this, accounts, messages
      ensures Valid() && start == old(start) && Own(trace, j) == Own(old(trace), j)
      ensures trace == old(trace) + (if CanRun(old(Now()), es) && Own(es, j) == [] then es else [])
      ensures |jobs| == old(|jobs|) && jobs[j] == old(jobs[j])
      ensures es == [] ==> server == old(server)
    {
      if CanRun(Now(), es) && Own(es, j) == [] {
        var r := Run(Now(), es);
        RunConcat(start, trace, es);
        OwnAppend(trace, es, j);
        OthersLeaveJobAlone(Now(), es, j);
        server, jobs, history := r.server, r.jobs, r.history;
        accounts.rows := accounts.rows[id := r.account];
        messages.rows, messages.nextId := r.table, r.nextId;
        trace := trace + es;
      }
    }

    method LoadCursor(j: nat)
      requires Valid() && j < |jobs| && jobs[j].Idle?
      modifies this
      ensures Valid() && start == old(start) && trace == old(trace) + [Load(j)]
      ensures Own(trace, j) == Own(old(trace), j) + [Load(j)]
      ensures |jobs| == old(|jobs|) && server == old(server)
      ensures jobs[j] == Loaded(accounts.rows[id].uidnext, accounts.rows[id].uidvalidity)
    {
      ghost var before := Now();
      jobs := jobs[j := Loaded(accounts.rows[id].uidnext, accounts.rows[id].uidvalidity)];
      Log(before, Load(j), j);
    }

    method AskValidity(j: nat)
      requires Valid() && j < |jobs| && jobs[j].Loaded?
      modifies this
      ensures Valid() && start == old(start) && trace == old(trace) + [ReadValidity(j)]
      ensures Own(trace, j) == Own(old(trace), j) + [ReadValidity(j)]
      ensures |jobs| == old(|jobs|) && server == old(server)
      ensures jobs[j] == KnowsValidity(old(jobs[j]).cursor, old(jobs[j]).lastValidity, server.validity)
    {
      ghost var before := Now();
      jobs := jobs[j := KnowsValidity(jobs[j].cursor, jobs[j].lastValidity, server.validity)];
      Log(before, ReadValidity(j), j);
    }

    method AskUidnext(j: nat, answered: bool)
      requires Valid() && j < |jobs| && jobs[j].KnowsValidity?
      modifies this
      ensures Valid() && start == old(start) && trace == old(trace) + [ReadUidnext(j, answered)]
      ensures Own(trace, j) == Own(old(trace), j) + [ReadUidnext(j, answered)]
      ensures |jobs| == old(|jobs|) && server == old(server)
      ensures var job := old(jobs[j]);
              jobs[j] == KnowsUidnext(job.cursor, job.lastValidity, job.validity,
                                      if answered then Some(server.uidnext) else None)
    {
      ghost var before := Now();
      var job := jobs[j];
      var uidnext := if answered then Some(server.uidnext) else None;
      jobs := jobs[j := KnowsUidnext(job.cursor, job.lastValidity, job.validity, uidnext)];
      Log(before, ReadUidnext(j, answered), j);
    }

    /** Reads the stored cursor, then UIDVALIDITY, then UIDNEXT: the first as it is on entry, the last as
        the server has it on exit, the one between as the server had it at the position returned. */
    method Open(j: nat, env: Surroundings) returns (ghost at: nat, ghost told: nat)
      requires Valid() && j < |jobs| && jobs[j].Idle?
      modifies this, accounts, messages
      ensures Valid() && start == old(start) && old(trace) <= trace
      ensures Own(trace, j) == Own(old(trace), j) + [Load(j), ReadValidity(j), ReadUidnext(j, env.uidnextAnswered)]
      ensures |old(trace)| <= at < |trace| && trace[at] == ReadValidity(j) && CanRun(start, trace[..at])
      ensures |jobs| == old(|jobs|)
      ensures var acc := old(accounts.rows[id]);
              jobs[j] == KnowsUidnext(acc.uidnext, acc.uidvalidity, Run(start, trace[..at]).server.validity,
                                      if env.uidnextAnswered then Some(server.uidnext) else None)
      ensures |old(trace)| <= told && (env.uidnextAnswered ==> ToldUidnext(start, trace, told, j, server.uidnext))
      ensures Undisturbed(env) ==> server == old(server) && Run(start, trace[..at]).server == server
    {
      hide CanRun, Run, Own;
      LoadCursor(j);
      Interrupt(env.others(0), j);
      at := |trace|;
      ghost var t := trace;
      assert t[..at] == t;
      AskValidity(j);
      ghost var t1 := trace;
      Interrupt(env.others(1), j);
      told := |trace|;
      ghost var t2 := trace;
      AskUidnext(j, env.uidnextAnswered);
      assert trace[..told] == t2;
      SamePlace(t1, trace, at);
    }

    /** A failed initial search ends the job; a failed incremental one counts as an empty answer. */
    method FindUids(j: nat, env: Surroundings) returns (ok: bool)
      requires Valid() && j < |jobs| && jobs[j].KnowsUidnext? && SearchesAreTruthful(env)
      modifies this
      ensures Valid() && start == old(start) && old(trace) <= trace
      ensures |jobs| == old(|jobs|) && server == old(server)
      ensures !ok <==> env.searchFails && var job := old(jobs[j]); DoInitial(job.cursor, job.lastValidity, job.validity)
      ensures !ok ==> jobs[j].Idle? && Own(trace, j) == Own(old(trace), j) + [Crash(j)]
      ensures ok ==>
                var job := old(jobs[j]);
                var answer := SearchResult(env, server.live, job);
                && Own(trace, j) == Own(old(trace), j) + [Search(j, env.since, answer)]
                && jobs[j] == Downloading(StartDownload(server, job, answer))
                && (env.searchFails || AtTheEnd(old(Now()), job) ==> jobs[j].f.todo == [])
    {
      ghost var before := Now();
      var job := jobs[j];
      var answer := SearchResult(env, server.live, job);
      if answer.None? && DoInitial(job.cursor, job.lastValidity, job.validity) {
        jobs := jobs[j := Idle];
        Log(before, Crash(j), j);
        return false;
      }
      var f := StartDownload(server, job, answer);
      jobs := jobs[j := Downloading(f)];
      history := history.(excluded := history.excluded + LeftOut(server, f.initial, env.since));
      assert answer.Some? ==> SearchAnswer(before, job, env.since, answer.value);
      if AtTheEnd(before, job) {
        NothingLeft(before, job, env.since, answer);
      }
      Log(before, Search(j, env.since, answer), j);
      ok := true;
    }

    /** One FETCH command. */
    method DownloadBatch(j: nat)
      requires Valid() && j < |jobs| && jobs[j].Downloading? && jobs[j].f.todo != []
      modifies this
      ensures Valid() && start == old(start) && trace == old(trace) + [FetchChunk(j)]
      ensures Own(trace, j) == Own(old(trace), j) + [FetchChunk(j)]
      ensures |jobs| == old(|jobs|) && server == old(server)
      ensures var f := old(jobs[j]).f;
              var n := if |f.todo| < BATCH then |f.todo| else BATCH;
              jobs[j] == Downloading(f.(todo := f.todo[n..], got := f.got + Download(f.todo[..n], server.live)))
    {
      ghost var before := Now();
      var f := jobs[j].f;
      var n := if |f.todo| < BATCH then |f.todo| else BATCH;
      var more := FetchBatch(f.todo[..n], server.live);
      jobs := jobs[j := Downloading(f.(todo := f.todo[n..], got := f.got + more))];
      Log(before, FetchChunk(j), j);
    }

    /** Whatever happens before the next FETCH command, and the command. */
    method NextBatch(j: nat, env: Surroundings, i: nat) returns (ghost more: seq<Fetched>)
      requires Valid() && j < |jobs| && jobs[j].Downloading? && jobs[j].f.todo != []
      modifies this, accounts, messages
      ensures Valid() && start == old(start) && old(trace) <= trace
      ensures Own(trace, j) == Own(old(trace), j) + [FetchChunk(j)] && |jobs| == old(|jobs|)
      ensures var f := old(jobs[j]).f;
              var n := if |f.todo| < BATCH then |f.todo| else BATCH;
              && jobs[j] == Downloading(f.(todo := f.todo[n..], got := f.got + more))
              && Downloaded(start, trace, |old(trace)|, f.todo[..n], more)
      ensures Undisturbed(env) ==> server == old(server)
    {
      Interrupt(env.others(4 + i), j);
      ghost var f, at := jobs[j].f, trace;
      ghost var n := if |f.todo| < BATCH then |f.todo| else BATCH;
      more := Download(f.todo[..n], server.live);
      DownloadedBatch(start, at, |old(trace)|, f.todo[..n]);
      DownloadBatch(j);
      DownloadedLater(start, at, trace, |old(trace)|, |old(trace)|, f.todo[..n], more);
    }

    /** The FETCH commands, one batch after the other: what was fetched had been on the server meanwhile,
        and a UID that brought nothing had been gone from it. */
    method DownloadBatches(j: nat, env: Surroundings) returns (n: nat, ghost more: seq<Fetched>)
      requires Valid() && j < |jobs| && jobs[j].Downloading?
      modifies this, accounts, messages
      ensures Valid() && start == old(start) && old(trace) <= trace
      ensures Own(trace, j) == Own(old(trace), j) + Fetches(j, n)
      ensures |old(jobs[j]).f.todo| <= n * 50 < |old(jobs[j]).f.todo| + 50
      ensures |jobs| == old(|jobs|)
      ensures jobs[j] == Downloading(old(jobs[j]).f.(todo := [], got := old(jobs[j]).f.got + more))
      ensures Downloaded(start, trace, |old(trace)|, old(jobs[j]).f.todo, more)
      ensures Undisturbed(env) ==> server == old(server)
    {
      ghost var f, from, own := jobs[j].f, |trace|, Own(trace, j);
      n, more := 0, [];
      ghost var done: nat := 0;
      NoProgress(start, trace, j, f);
      hide *;
      while jobs[j].f.todo != []
        invariant Valid() && start == old(start) && old(trace) <= trace
        invariant |jobs| == old(|jobs|) && jobs[j].Downloading?
        invariant Progress(start, trace, from, j, own, f, jobs[j], n, done, more)
        invariant Undisturbed(env) ==> server == old(server)
        decreases |jobs[j].f.todo|
      {
        ghost var t, job := trace, jobs[j];
        ghost var size := if |job.f.todo| < BATCH then |job.f.todo| else BATCH;
        ghost var batch := NextBatch(j, env, n);
        MoreProgress(start, t, trace, from, j, own, f, job, n, done, more, size, jobs[j], batch);
        n, done, more := n + 1, done + size, more + batch;
      }
      AllProgress(start, trace, from, j, own, f, jobs[j], n, done, more);
    }

    method InsertMessages(account: int, validity: int, got: seq<Fetched>, now: int)
      returns (newCount: nat, conflictCount: nat, outbox: seq<int>)
      modifies messages
      ensures messages.rows == InsertAll(old(messages.rows), old(messages.nextId), account, validity, got, now)
      ensures messages.nextId == old(messages.nextId) + |got|
      ensures outbox == NewIds(old(messages.rows), old(messages.nextId), account, validity, got, now)
      ensures newCount + conflictCount == |got| && newCount == |outbox|
    {
      newCount, conflictCount, outbox := 0, 0, [];
      ghost var rows, next := messages.rows, messages.nextId;
      assert got[..0] == [];
      assert rows == InsertAll(rows, next, account, validity, [], now)
             && [] == NewIds(rows, next, account, validity, [], now);
      hide InsertAll, NewIds, HasKey, Insert;
      var i := 0;
      while i < |got|
        invariant 0 <= i <= |got| && messages.nextId == old(messages.nextId) + i
        invariant messages.rows == InsertAll(rows, next, account, validity, got[..i], now)
        invariant outbox == NewIds(rows, next, account, validity, got[..i], now)
        invariant newCount + conflictCount == i && newCount == |outbox|
      {
        OneMoreInsert(rows, next, account, validity, got, now, i);
        var g := got[i];
        var created := messages.InsertMessageIdempotent(account, validity, g.uid, g.mail.date, now, g.mail.body);
        if created.None? {
          conflictCount := conflictCount + 1;
        } else {
          newCount := newCount + 1;
          outbox := outbox + [created.value];
        }
        i := i + 1;
      }
      assert got[..i] == got;
    }

    /** One transaction: every message is inserted or found to be known already, and the ids of the new
        rows are collected for the outbox. */
    method SaveAll(j: nat, now: int) returns (newCount: nat, conflictCount: nat, outbox: seq<int>)
      requires Valid() && j < |jobs| && jobs[j].Downloading? && jobs[j].f.todo == []
      modifies this, messages
      ensures Valid() && start == old(start) && trace == old(trace) + [SaveMessages(j, now)]
      ensures Own(trace, j) == Own(old(trace), j) + [SaveMessages(j, now)]
      ensures |jobs| == old(|jobs|) && server == old(server)
      ensures var f, account := old(jobs[j]).f, accounts.rows[id].id;
              && jobs[j] == Saved(f.validity, FinalCursor(f.uidnext, f.got, f.cursor))
              && newCount + conflictCount == |f.got| && newCount == |outbox|
              && messages.rows == InsertAll(old(messages.rows), old(messages.nextId), account, f.validity, f.got, now)
              && outbox == NewIds(old(messages.rows), old(messages.nextId), account, f.validity, f.got, now)
    {
      ghost var before := Now();
      var f := jobs[j].f;
      newCount, conflictCount, outbox := InsertMessages(accounts.rows[id].id, f.validity, f.got, now);
      jobs := jobs[j := Saved(f.validity, FinalCursor(f.uidnext, f.got, f.cursor))];
      history := history.(inserted := history.inserted + KeysOf(f.validity, f.got));
      Log(before, SaveMessages(j, now), j);
    }

    /** The second transaction: the job's own cursor, the time of the success, no error and no failures. */
    method MarkSynced(j: nat, now: int)
      requires Valid() && j < |jobs| && jobs[j].Saved?
      modifies this, accounts
      ensures Valid() && start == old(start) && trace == old(trace) + [MarkSuccess(j, now)]
      ensures Own(trace, j) == Own(old(trace), j) + [MarkSuccess(j, now)]
      ensures |jobs| == old(|jobs|) && jobs[j].Idle? && server == old(server)
      ensures var job := old(jobs[j]);
              accounts.rows[id] == old(accounts.rows[id]).(
                uidnext := job.next, uidvalidity := Some(job.validity),
                lastSyncedAt := Some(now), lastSyncError := None, failures := 0)
    {
      ghost var before := Now();
      var job := jobs[j];
      accounts.MarkSyncSuccess(id, job.next, Some(job.validity), now);
      jobs := jobs[j := Idle];
      Log(before, MarkSuccess(j, now), j);
    }

    /** The two transactions. The cursor is the UIDNEXT that the job was told; failing that it lies just past
        the newest message fetched; failing that it stays. */
    method SaveAndMark(j: nat, env: Surroundings) returns (outbox: seq<int>, ghost at: nat)
      requires Valid() && j < |jobs| && jobs[j].Downloading? && jobs[j].f.todo == []
      modifies this, accounts, messages
      ensures Valid() && start == old(start) && old(trace) <= trace
      ensures |jobs| == old(|jobs|) && jobs[j].Idle?
      ensures Own(trace, j) == Own(old(trace), j) + [SaveMessages(j, env.now)] + [MarkSuccess(j, env.now)]
      ensures var f := old(jobs[j]).f;
              && |old(trace)| <= at && SavedAt(start, trace, at, j, env.now, f.got, outbox)
              && accounts.rows[id].uidvalidity == Some(f.validity)
              && CursorMoved(f.uidnext, f.got, f.cursor, accounts.rows[id].uidnext)
              && (f.got == [] ==> outbox == [])
      ensures Undisturbed(env) ==> server == old(server)
    {
      ghost var f, t := jobs[j].f, trace;
      at := |trace|;
      CursorMoves(f.uidnext, f.got, f.cursor);
      var created, known;
      created, known, outbox := SaveAll(j, env.now);
      ghost var saved := trace;
      assert saved[..at] == t;
      Interrupt(env.others(3), j);
      MarkSynced(j, env.now);
      SamePlace(saved, trace, at);
    }

    /** The search and what follows it. */
    method FetchAndSave(j: nat, env: Surroundings)
      returns (ok: bool, outbox: seq<int>,
               ghost answer: Option<seq<int>>, ghost n: nat, ghost at: nat, ghost got: seq<Fetched>)
      requires Valid() && j < |jobs| && jobs[j].KnowsUidnext? && SearchesAreTruthful(env)
      modifies this, accounts, messages
      ensures Valid() && start == old(start) && old(trace) <= trace
      ensures |jobs| == old(|jobs|) && jobs[j].Idle?
      ensures !ok <==> env.searchFails && var job := old(jobs[j]); DoInitial(job.cursor, job.lastValidity, job.validity)
      ensures !ok ==> outbox == [] && Own(trace, j) == Own(old(trace), j) + [Crash(j)]
      ensures ok ==>
                && Own(trace, j) == Own(old(trace), j) + [Search(j, env.since, answer)] + Fetches(j, n)
                                    + [SaveMessages(j, env.now)] + [MarkSuccess(j, env.now)]
                && (answer.None? <==> env.searchFails)
                && |old(trace)| <= at && SavedAt(start, trace, at, j, env.now, got, outbox)
                && accounts.rows[id].uidvalidity == Some(old(jobs[j]).validity)
                && CursorMoved(old(jobs[j]).uidnext, got, old(jobs[j]).cursor, accounts.rows[id].uidnext)
      ensures Undisturbed(env) ==> server == old(server)
      ensures ok && AtTheEnd(old(Now()), old(jobs[j])) ==> got == [] && outbox == []
    {
      hide SavedAt, CursorMoved, AtTheEnd, CanRun, Run, Own, Undisturbed, Downloaded, SearchesAreTruthful, DoInitial;
      outbox, answer, n, at, got := [], SearchResult(env, server.live, jobs[j]), 0, 0, [];
      ok := FindUids(j, env);
      if ok {
        ghost var todo, from := jobs[j].f.todo, |trace|;
        n, got := DownloadBatches(j, env);
        if todo == [] {
          DownloadedNothing(start, trace, from, todo, got);
        }
        assert jobs[j].f.got == got;
        outbox, at := SaveAndMark(j, env);
      }
    }

    /** At any time the result of the machine holds of the tables. */
    lemma NoGapSoFar()
      requires Valid() && Initial(start) && HarmlessRun(start, trace)
      ensures NoGap(Now()) && UniqueKeys(messages.rows)
    {
      SyncHasNoGap(start, trace);
    }

    /** The whole job. Whatever the server and the others do in between, the execution is a run of the
        machine in which the job makes exactly its own steps, from the cursor it loads to the mark of
        success; it hands out the ids of the rows that its save created. Only a failed initial search ends it
        early. The cursor it stores is the UIDNEXT that the server had when it told it; without an answer it
        lies just past the newest message fetched, and without a message it is the one loaded. Undisturbed,
        the job leaves the cursor at the server's UIDNEXT, and one that starts there fetches nothing. If the
        run was harmless, there is no gap. */
    method SyncOneAccount(j: nat, env: Surroundings)
      returns (ok: bool, outbox: seq<int>, ghost asked: nat, ghost told: nat,
               ghost answer: Option<seq<int>>, ghost n: nat, ghost at: nat, ghost got: seq<Fetched>)
      requires Valid() && j < |jobs| && jobs[j].Idle? && SearchesAreTruthful(env)
      modifies this, accounts, messages
      ensures Valid() && start == old(start) && old(trace) <= trace
      ensures |jobs| == old(|jobs|) && jobs[j].Idle?
      ensures |old(trace)| <= asked < |trace| && trace[asked] == ReadValidity(j) && CanRun(start, trace[..asked])
      ensures var acc, validity := old(accounts.rows[id]), Run(start, trace[..asked]).server.validity;
              !ok <==> env.searchFails && DoInitial(acc.uidnext, acc.uidvalidity, validity)
      ensures !ok ==> outbox == []
                      && Own(trace, j) == Own(old(trace), j)
                                          + [Load(j), ReadValidity(j), ReadUidnext(j, env.uidnextAnswered)] + [Crash(j)]
      ensures ok ==>
                && Own(trace, j) == Own(old(trace), j) + JobEvents(j, env, answer, n)
                && (answer.None? <==> env.searchFails)
                && |old(trace)| <= at && SavedAt(start, trace, at, j, env.now, got, outbox)
                && accounts.rows[id].uidvalidity == Some(Run(start, trace[..asked]).server.validity)
      ensures ok && env.uidnextAnswered ==>
                && accounts.rows[id].uidnext.Some? && |old(trace)| <= told
                && ToldUidnext(start, trace, told, j, accounts.rows[id].uidnext.value)
      ensures ok && !env.uidnextAnswered && got != [] ==>
                var next := accounts.rows[id].uidnext;
                && next.Some? && (forall g :: g in got ==> g.uid < next.value)
                && exists g :: g in got && g.uid == next.value - 1
      ensures ok && !env.uidnextAnswered && got == [] ==> accounts.rows[id].uidnext == old(accounts.rows[id]).uidnext
      ensures Undisturbed(env) ==> server == old(server)
      ensures Undisturbed(env) && ok && env.uidnextAnswered ==>
                && accounts.rows[id].uidnext == Some(server.uidnext)
                && accounts.rows[id].uidvalidity == Some(server.validity)
      ensures var acc := old(accounts.rows[id]);
              && Undisturbed(env) && ok
              && acc.uidnext == Some(server.uidnext) && acc.uidvalidity == Some(server.validity)
              && (forall u :: u in server.live ==> u < server.uidnext)
              ==> got == [] && outbox == []
      ensures Initial(start) && HarmlessRun(start, trace) ==> NoGap(Now()) && UniqueKeys(messages.rows)
    {
      hide SavedAt, ToldUidnext, NoGap, UniqueKeys, Initial, HarmlessRun, CanRun, Run, DoInitial;
      asked, told := Open(j, env);
      ghost var begun := trace;
      Interrupt(env.others(2), j);
      assert Undisturbed(env) ==> server == old(server);
      ok, outbox, answer, n, at, got := FetchAndSave(j, env);
      SamePlace(begun, trace, asked);
      if ok {
        InOrder(Own(old(trace), j), j, env, answer, n);
        if env.uidnextAnswered {
          StillTold(start, begun, trace, told, j, accounts.rows[id].uidnext.value);
        }
      }
      if Initial(start) && HarmlessRun(start, trace) {
        NoGapSoFar();
      }
    }
  }
}
