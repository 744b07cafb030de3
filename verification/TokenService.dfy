/** `get_valid_access_token` as it runs, with other calls, the clock and the provider acting between any
    two of its steps: every execution is a run of the refresh machine. */
module TokenService {
  import opened Seqs
  import opened MailAccounts
  import opened OAuthRefresh

  datatype Outcome = Token(access: string) | RefreshInvalid | ExchangeFailed

  datatype Trouble = NoTrouble | Unreachable | AnswerNeverArrives

  /** What the surroundings do: whatever the others do at each interruption point, whether Redis
      answers, how many polls fit into the wait, and how the token endpoint behaves. */
  datatype Surroundings = Surroundings(
    others: nat -> seq<Event>, redisUp: bool, releaseUp: bool, polls: nat, trouble: Trouble, reply: Reply)

  /** No event of call `j`. */
  predicate NotBy(es: seq<Event>, j: nat) {
    forall i :: 0 <= i < |es| ==> CallOf(es[i]) != Some(j)
  }

  /** Since `before`, call `j` has made its steps without breaking off. */
  ghost predicate Orderly(before: seq<Event>, trace: seq<Event>, j: nat) {
    before <= trace && forall i :: |before| <= i < |trace| ==> trace[i] != Crash(j)
  }

  lemma OrderlyMore(a: seq<Event>, b: seq<Event>, c: seq<Event>, j: nat)
    requires Orderly(a, b, j) && Orderly(b, c, j)
    ensures Orderly(a, c, j)
  {
    forall i | |a| <= i < |c| ensures c[i] != Crash(j) {
      assert i < |b| ==> c[i] == b[i];
    }
  }

  lemma OrderlyStep(a: seq<Event>, b: seq<Event>, e: Event, j: nat)
    requires Orderly(a, b, j) && e != Crash(j)
    ensures Orderly(a, b + [e], j)
  {}

  /** Since `before`, the endpoint was out of reach for call `j`, or its answer was lost. */
  ghost predicate Failed(before: seq<Event>, trace: seq<Event>, j: nat, env: Surroundings) {
    && !env.trouble.NoTrouble?
    && exists i :: |before| <= i < |trace| && (trace[i] == ServerError(j) || trace[i] == AnswerLost(j, env.reply))
  }

  lemma FailedNow(before: seq<Event>, t: seq<Event>, e: Event, j: nat, env: Surroundings)
    requires before <= t && !env.trouble.NoTrouble? && (e == ServerError(j) || e == AnswerLost(j, env.reply))
    ensures Failed(before, t + [e], j, env)
  {
    assert (t + [e])[|t|] == e;
  }

  lemma FailedLater(b: seq<Event>, t0: seq<Event>, t1: seq<Event>, trace: seq<Event>, j: nat, env: Surroundings)
    requires b <= t0 <= t1 <= trace && Failed(t0, t1, j, env)
    ensures Failed(b, trace, j, env)
  {
    var i :| |t0| <= i < |t1| && (t1[i] == ServerError(j) || t1[i] == AnswerLost(j, env.reply));
    assert trace[i] == t1[i];
  }

  /** The others leave a call where it stands and never put its name on the lock. */
  lemma {:induction false} OthersLeaveCallAlone(s: State, es: seq<Event>, j: nat)
    requires CanRun(s, es) && NotBy(es, j) && j < |s.calls|
    ensures var r := Run(s, es); |r.calls| == |s.calls| && r.calls[j] == s.calls[j]
    ensures Run(s, es).lock == Some(j) ==> s.lock == Some(j)
    decreases |es|
  {
    if es != [] {
      var next := Step(s, es[0]);
      assert CallOf(es[0]) != Some(j);
      assert next.calls[j] == s.calls[j];
      OthersLeaveCallAlone(next, es[1..], j);
    }
  }

  /** The outcome was the state of affairs at some point of the run since position `from`: a returned token
      was then stored and fresh, or the call itself had just stored it; a refusal means that the mailbox was
      flagged or had nothing to refresh with. */
  ghost predicate Justified(start: State, from: nat, trace: seq<Event>, j: nat, r: Outcome) {
    r.ExchangeFailed? || exists k :: from <= k <= |trace| && JustifiedAt(start, trace[..k], j, r)
  }

  ghost predicate JustifiedAt(start: State, es: seq<Event>, j: nat, r: Outcome) {
    && CanRun(start, es)
    && var s := Run(start, es);
       match r
       case Token(t) =>
         || (s.row.accessToken == Some(t) && s.row.accessExpiresAt.Some? && s.row.accessExpiresAt.value > s.now + 60)
         || (es != [] && es[|es| - 1] == Persist(j) && s.row.accessToken == Some(t))
       case RefreshInvalid => s.row.needsConsent || s.row.refreshToken.None?
       case ExchangeFailed => true
  }

  /** From position `from` on the call loads the row and, after whatever the others do, checks it at
      position `at`, when the clock shows `now`. */
  ghost predicate CheckedAt(start: State, from: nat, trace: seq<Event>, at: nat, j: nat, now: int) {
    && from < at < |trace| && trace[from] == Load(j) && trace[at] == CheckCache(j)
    && (forall i :: from < i < at ==> CallOf(trace[i]) != Some(j))
    && CanRun(start, trace[..at]) && Run(start, trace[..at]).now == now
  }

  lemma StillChecked(start: State, from: nat, t: seq<Event>, trace: seq<Event>, at: nat, j: nat, now: int)
    requires t <= trace && CheckedAt(start, from, t, at, j, now)
    ensures CheckedAt(start, from, trace, at, j, now)
  {
    assert trace[..at] == t[..at];
  }

  /** It stays justified as the run goes on. */
  lemma JustifiedLater(start: State, from: nat, es: seq<Event>, trace: seq<Event>, j: nat, r: Outcome)
    requires es <= trace && from <= |es| && JustifiedAt(start, es, j, r)
    ensures Justified(start, from, trace, j, r)
  {
    assert trace[..|es|] == es;
  }

  lemma JustifiedEarlier(start: State, early: nat, from: nat, trace: seq<Event>, j: nat, r: Outcome)
    requires early <= from && Justified(start, from, trace, j, r)
    ensures Justified(start, early, trace, j, r)
  {}

  /** The stored access token has more than a minute to go. */
  predicate LongLived(a: Account, now: int) {
    a.accessToken.Some? && a.accessExpiresAt.Some? && a.accessExpiresAt.value > now + 60
  }

  lemma {:induction false} ClockAdvances(s: State, es: seq<Event>)
    requires CanRun(s, es)
    ensures Run(s, es).now >= s.now
    decreases |es|
  {
    if es != [] {
      ClockAdvances(Step(s, es[0]), es[1..]);
    }
  }

  class OutlookTokenService {
    const id: int
    const accounts: MailAccountsRepo
    var now: int
    var lock: Option<nat>
    var valid: Option<string>
    var calls: seq<Call>
    ghost var start: State
    ghost var trace: seq<Event>

    function Row(): Account
      requires id in accounts.rows
      reads accounts
    {
      accounts.rows[id]
    }

    function Now(): State
      requires id in accounts.rows
      reads this, accounts
    {
      State(Row(), now, lock, valid, calls)
    }

    /** What has happened so far is a run of the machine. */
    ghost predicate Valid()
      reads this, accounts
    {
      id in accounts.rows && CanRun(start, trace) && Run(start, trace) == Now()
    }

    constructor (id: int, accounts: MailAccountsRepo, now: int, lock: Option<nat>,
                 valid: Option<string>, calls: seq<Call>)
      requires id in accounts.rows
      ensures Valid() && this.id == id && this.accounts == accounts && trace == []
      ensures start == State(accounts.rows[id], now, lock, valid, calls)
    {
      this.id, this.accounts := id, accounts;
      this.now, this.lock, this.valid, this.calls := now, lock, valid, calls;
      start, trace := State(accounts.rows[id], now, lock, valid, calls), [];
    }

    /** A step that has just been made takes its place in the trace. */
    ghost method Log(before: State, e: Event)
      requires CanRun(start, trace) && Run(start, trace) == before && id in accounts.rows
      requires Enabled(before, e) && Step(before, e) == Now()
      modifies this`trace
      ensures Valid() && trace == old(trace) + [e]
    {
      var one := [e];
      assert one[1..] == [];
      RunConcat(start, trace, one);
      trace := trace + [e];
    }

    /** The others run, if what they would do can happen here. */
    method Interrupt(es: seq<Event>, j: nat)
      requires Valid() && j < |calls|
      modifies this, accounts
      ensures Valid() && start == old(start) && Orderly(old(trace), trace, j)
      ensures trace == old(trace) + (if CanRun(old(Now()), es) && NotBy(es, j) then es else [])
      ensures |calls| == old(|calls|) && calls[j] == old(calls[j]) && now >= old(now)
      ensures lock == Some(j) ==> old(lock) == Some(j)
      ensures old(Row()).refreshToken.Some? ==> Row().refreshToken.Some?
    {
      if CanRun(Now(), es) && NotBy(es, j) {
        var r := Run(Now(), es);
        RunConcat(start, trace, es);
        OthersLeaveCallAlone(Now(), es, j);
        ClockAdvances(Now(), es);
        if Row().refreshToken.Some? {
          RefreshTokenSurvives(Now(), es);
        }
        now, lock, valid, calls := r.now, r.lock, r.valid, r.calls;
        accounts.rows := accounts.rows[id := r.row];
        trace := trace + es;
      }
    }

    /** SET NX EX. */
    method TryAcquireLock(j: nat, redisUp: bool) returns (acquired: bool)
      requires Valid() && j < |calls| && calls[j].WantsLock?
      modifies this
      ensures Valid() && start == old(start) && trace == old(trace) + [if redisUp then TryLock(j) else RedisDown(j)]
      ensures acquired <==> redisUp && old(lock).None?
      ensures calls == old(calls)[j := if acquired then HasLock else Waiting(old(calls[j].acc))]
      ensures lock == if acquired then Some(j) else old(lock)
      ensures valid == old(valid) && now == old(now)
    {
      ghost var before := Now();
      acquired := redisUp && lock.None?;
      calls := calls[j := if acquired then HasLock else Waiting(calls[j].acc)];
      if acquired {
        lock := Some(j);
      }
      Log(before, if redisUp then TryLock(j) else RedisDown(j));
    }

    /** Deletes the lock only if it still bears the call's name; a Redis failure leaves it to expire. */
    method ReleaseLock(j: nat, redisUp: bool)
      requires Valid() && j < |calls| && calls[j].Releasing?
      modifies this
      ensures Valid() && start == old(start) && trace == old(trace) + [if redisUp then Release(j) else ReleaseFails(j)]
      ensures calls == old(calls)[j := Done(None)]
      ensures lock == if redisUp && old(lock) == Some(j) then None else old(lock)
      ensures valid == old(valid) && now == old(now)
    {
      ghost var before := Now();
      calls := calls[j := Done(None)];
      if redisUp && lock == Some(j) {
        lock := None;
      }
      Log(before, if redisUp then Release(j) else ReleaseFails(j));
    }

    /** The flag and the marker; activity flag, counter, tokens and all else stay. */
    method MarkNeedsConsent(j: nat)
      requires Valid() && j < |calls| && calls[j].Refused?
      modifies this, accounts
      ensures Valid() && start == old(start) && trace == old(trace) + [MarkConsent(j)]
      ensures calls == old(calls)[j := Leave(old(calls[j].locked), None)] && lock == old(lock)
      ensures Row() == old(Row()).(needsConsent := true, lastSyncError := Some(NEEDS_CONSENT_ERROR))
    {
      ghost var before := Now();
      accounts.MarkOauthNeedsConsent(id);
      calls := calls[j := Leave(calls[j].locked, None)];
      Log(before, MarkConsent(j));
    }

    /** The new tokens and their expiry; a missing new refresh token keeps the old one. */
    method PersistRefresh(j: nat, reply: Reply)
      requires Valid() && j < |calls| && calls[j].Answered? && calls[j].reply == reply
      modifies this, accounts
      ensures Valid() && start == old(start) && trace == old(trace) + [Persist(j)]
      ensures calls == old(calls)[j := Leave(old(calls[j].locked), Some(reply.access))] && lock == old(lock)
      ensures Row() == old(Row()).(
                accessToken := Some(reply.access), accessExpiresAt := Some(old(now) + reply.expiresIn),
                needsConsent := false,
                refreshToken := if reply.refresh.Some? then reply.refresh else old(Row()).refreshToken)
    {
      ghost var before := Now();
      accounts.UpdateOauthTokens(id, reply.refresh, Some(reply.access), Some(now + reply.expiresIn), Some(false));
      calls := calls[j := Leave(calls[j].locked, Some(reply.access))];
      Log(before, Persist(j));
    }

    /** The token endpoint: honours exactly the token it considers current, and replaces it when it
        rotates, whether or not the answer arrives. */
    method AskProvider(j: nat, env: Surroundings) returns (answered: bool)
      requires Valid() && j < |calls| && calls[j].Requesting?
      modifies this
      ensures Valid() && start == old(start) && lock == old(lock) && now == old(now)
      ensures var c, honoured := old(calls[j]), old(valid) == Some(old(calls[j]).presented);
              && (answered <==> env.trouble.NoTrouble? && honoured)
              && trace == old(trace) + [if env.trouble.Unreachable? then ServerError(j)
                                        else if !honoured then RefuseToken(j)
                                        else if answered then Answer(j, env.reply) else AnswerLost(j, env.reply)]
              && valid == (if !env.trouble.Unreachable? && honoured && env.reply.refresh.Some? then env.reply.refresh
                           else old(valid))
              && calls == old(calls)[j := if answered then Answered(c.presented, env.reply, c.locked)
                                          else if !env.trouble.Unreachable? && !honoured
                                            then Refused(c.presented, c.locked)
                                          else Leave(c.locked, None)]
    {
      ghost var before := Now();
      var c := calls[j];
      answered := false;
      if env.trouble.Unreachable? {
        calls := calls[j := Leave(c.locked, None)];
        Log(before, ServerError(j));
      } else if valid != Some(c.presented) {
        calls := calls[j := Refused(c.presented, c.locked)];
        Log(before, RefuseToken(j));
      } else {
        if env.reply.refresh.Some? {
          valid := env.reply.refresh;
        }
        answered := !env.trouble.AnswerNeverArrives?;
        calls := calls[j := if answered then Answered(c.presented, env.reply, c.locked) else Leave(c.locked, None)];
        Log(before, if answered then Answer(j, env.reply) else AnswerLost(j, env.reply));
      }
    }

    /** Presents the token and stores what comes back; fails only when the endpoint did. */
    method DoRefresh(j: nat, env: Surroundings) returns (r: Outcome)
      requires Valid() && j < |calls| && calls[j].Requesting?
      modifies this, accounts
      ensures Valid() && start == old(start) && Orderly(old(trace), trace, j) && old(trace) < trace
      ensures |calls| == old(|calls|)
      ensures calls[j].Releasing? == old(calls[j].locked) && calls[j].Done? == !old(calls[j].locked)
      ensures lock == Some(j) ==> old(lock) == Some(j)
      ensures r.Token? ==>
                && r.access == env.reply.access && Row().accessToken == Some(r.access) && !Row().needsConsent
                && trace[|trace| - 1] == Persist(j)
      ensures r.RefreshInvalid? ==> Row().needsConsent && Row().lastSyncError == Some(NEEDS_CONSENT_ERROR)
      ensures r.ExchangeFailed? ==> Failed(old(trace), trace, j, env)
      ensures env.trouble.Unreachable? ==> r.ExchangeFailed?
    {
      hide CanRun, Run, NotBy, Orderly, Failed;
      Interrupt(env.others(4), j);
      ghost var asking := trace;
      var answered := AskProvider(j, env);
      ghost var asked := trace;
      OrderlyStep(old(trace), asking, asked[|asking|], j);
      if !answered && !calls[j].Refused? {
        FailedNow(old(trace), asking, asked[|asking|], j, env);
        return ExchangeFailed;
      }
      Interrupt(env.others(5), j);
      OrderlyMore(old(trace), asked, trace, j);
      if answered {
        OrderlyStep(old(trace), trace, Persist(j), j);
        PersistRefresh(j, env.reply);
        r := Token(env.reply.access);
      } else {
        OrderlyStep(old(trace), trace, MarkConsent(j), j);
        MarkNeedsConsent(j);
        r := RefreshInvalid;
      }
    }

    /** One look at the row: the consent flag ends the wait, and so does a fresh token. */
    method PollOnce(j: nat) returns (r: Option<Outcome>)
      requires Valid() && j < |calls| && calls[j].Waiting?
      modifies this
      ensures Valid() && start == old(start) && trace == old(trace) + [Poll(j)]
      ensures lock == old(lock) && now == old(now)
      ensures r == if Row().needsConsent then Some(RefreshInvalid)
                   else if LongLived(Row(), now) then Some(Token(Row().accessToken.value)) else None
      ensures calls == if r.None? then old(calls)
                       else old(calls)[j := Done(if r.value.Token? then Some(r.value.access) else None)]
    {
      ghost var before := Now();
      var token := Cached(Row(), now);
      r := None;
      if Row().needsConsent {
        calls := calls[j := Done(None)];
        r := Some(RefreshInvalid);
      } else if token.Some? {
        calls := calls[j := Done(token)];
        r := Some(Token(token.value));
      }
      Log(before, Poll(j));
    }

    /** Polls the row until it shows a fresh token, the consent flag, or the wait is over: it gives up
        only if the last look, too, found neither. */
    method AwaitRefreshedToken(j: nat, env: Surroundings) returns (r: Option<Outcome>)
      requires Valid() && j < |calls| && calls[j].Waiting?
      modifies this, accounts
      ensures Valid() && start == old(start) && Orderly(old(trace), trace, j) && old(trace) < trace
      ensures |calls| == old(|calls|)
      ensures if r.Some? then calls[j].Done? else calls[j] == old(calls[j])
      ensures r == if Row().needsConsent then Some(RefreshInvalid)
                   else if LongLived(Row(), now) then Some(Token(Row().accessToken.value)) else None
      ensures lock == Some(j) ==> old(lock) == Some(j)
    {
      hide CanRun, Run, NotBy, Orderly;
      Interrupt(env.others(6), j);
      OrderlyStep(old(trace), trace, Poll(j), j);
      r := PollOnce(j);
      var i := 0;
      while r.None? && i < env.polls
        invariant Valid() && start == old(start) && |calls| == old(|calls|)
        invariant Orderly(old(trace), trace, j) && old(trace) < trace
        invariant if r.Some? then calls[j].Done? else calls[j] == old(calls[j])
        invariant r == if Row().needsConsent then Some(RefreshInvalid)
                       else if LongLived(Row(), now) then Some(Token(Row().accessToken.value)) else None
        invariant lock == Some(j) ==> old(lock) == Some(j)
        decreases env.polls - i
      {
        ghost var t := trace;
        Interrupt(env.others(7 + i), j);
        OrderlyMore(old(trace), t, trace, j);
        OrderlyStep(old(trace), trace, Poll(j), j);
        r := PollOnce(j);
        i := i + 1;
      }
    }

    method LoadRow(j: nat)
      requires Valid() && j < |calls| && calls[j].NotStarted?
      modifies this
      ensures Valid() && start == old(start) && trace == old(trace) + [Load(j)]
      ensures calls == old(calls)[j := Loaded(Row())] && lock == old(lock) && now == old(now)
    {
      ghost var before := Now();
      calls := calls[j := Loaded(Row())];
      Log(before, Load(j));
    }

    /** Serves a fresh token; otherwise a row that can be refreshed goes for the lock. */
    method CheckLoaded(j: nat) returns (r: Option<Outcome>)
      requires Valid() && j < |calls| && calls[j].Loaded?
      modifies this
      ensures Valid() && start == old(start) && trace == old(trace) + [CheckCache(j)]
      ensures |calls| == old(|calls|) && lock == old(lock) && now == old(now)
      ensures var acc := old(calls[j]).acc;
              && r == (if LongLived(acc, now) then Some(Token(acc.accessToken.value))
                       else if acc.refreshToken.None? then Some(RefreshInvalid) else None)
              && (if r.Some? then calls[j].Done? else calls[j] == WantsLock(acc))
    {
      ghost var before := Now();
      var acc := calls[j].acc;
      var cached := Cached(acc, now);
      if cached.Some? {
        calls := calls[j := Done(cached)];
        r := Some(Token(cached.value));
      } else if acc.refreshToken.None? {
        calls := calls[j := Done(None)];
        r := Some(RefreshInvalid);
      } else {
        calls := calls[j := WantsLock(acc)];
        r := None;
      }
      Log(before, CheckCache(j));
    }

    /** Loads the row and, unless its token is fresh or cannot be refreshed, goes for the lock. */
    method LoadAndCheck(j: nat, env: Surroundings) returns (r: Option<Outcome>, ghost at: nat)
      requires Valid() && j < |calls| && calls[j].NotStarted?
      modifies this, accounts
      ensures Valid() && start == old(start) && Orderly(old(trace), trace, j) && old(trace) < trace
      ensures |calls| == old(|calls|)
      ensures var acc := old(Row());
              && r == (if LongLived(acc, now) then Some(Token(acc.accessToken.value))
                       else if acc.refreshToken.None? then Some(RefreshInvalid) else None)
              && (if r.Some? then calls[j].Done? else calls[j] == WantsLock(acc) && Row().refreshToken.Some?)
      ensures lock == Some(j) ==> old(lock) == Some(j)
      ensures r.Some? ==> Justified(start, |old(trace)|, trace, j, r.value)
      ensures at == |trace| - 1 && CheckedAt(start, |old(trace)|, trace, at, j, now)
    {
      LoadRow(j);
      ghost var loaded := trace;
      Interrupt(env.others(0), j);
      OrderlyMore(old(trace), loaded, trace, j);
      OrderlyStep(old(trace), trace, CheckCache(j), j);
      at := |trace|;
      ghost var t := trace;
      r := CheckLoaded(j);
      assert trace[..at] == t;
      hide Orderly, Justified;
      if r.Some? {
        JustifiedLater(start, |old(trace)|, old(trace), trace, j, r.value);
      }
    }

    /** Reads the row again under the lock: a peer may have refreshed meanwhile. */
    method ReadAgain(j: nat) returns (r: Option<Outcome>)
      requires Valid() && j < |calls| && calls[j].HasLock? && Row().refreshToken.Some?
      modifies this
      ensures Valid() && start == old(start) && trace == old(trace) + [DoubleCheck(j)]
      ensures |calls| == old(|calls|) && lock == old(lock) && now == old(now)
      ensures r == if Row().needsConsent then Some(RefreshInvalid)
                   else if LongLived(Row(), now) then Some(Token(Row().accessToken.value)) else None
      ensures calls[j] == if r.Some? then Releasing else Requesting(Row().refreshToken.value, true)
    {
      ghost var before := Now();
      var current := Cached(Row(), now);
      if Row().needsConsent || current.Some? {
        calls := calls[j := Releasing];
        r := Some(if Row().needsConsent then RefreshInvalid else Token(current.value));
      } else {
        calls := calls[j := Requesting(Row().refreshToken.value, true)];
        r := None;
      }
      Log(before, DoubleCheck(j));
    }

    /** Serves what the row shows now, or refreshes with its token. */
    method Decide(j: nat, env: Surroundings) returns (r: Outcome)
      requires Valid() && j < |calls| && calls[j].HasLock? && Row().refreshToken.Some?
      modifies this, accounts
      ensures Valid() && start == old(start) && Orderly(old(trace), trace, j) && old(trace) < trace
      ensures |calls| == old(|calls|) && calls[j].Releasing?
      ensures JustifiedAt(start, trace, j, r)
      ensures r.ExchangeFailed? ==> Failed(old(trace), trace, j, env)
    {
      hide Orderly, Failed;
      Interrupt(env.others(2), j);
      OrderlyStep(old(trace), trace, DoubleCheck(j), j);
      var known := ReadAgain(j);
      ghost var read := trace;
      if known.Some? {
        r := known.value;
      } else {
        r := DoRefresh(j, env);
        OrderlyMore(old(trace), read, trace, j);
        if r.ExchangeFailed? {
          FailedLater(old(trace), read, trace, trace, j, env);
        }
      }
    }

    /** Between acquiring and releasing. */
    method RefreshUnderLock(j: nat, env: Surroundings) returns (r: Outcome)
      requires Valid() && j < |calls| && calls[j].HasLock? && Row().refreshToken.Some?
      modifies this, accounts
      ensures Valid() && start == old(start) && Orderly(old(trace), trace, j) && old(trace) < trace
      ensures |calls| == old(|calls|) && calls[j].Done?
      ensures env.releaseUp ==> lock != Some(j)
      ensures Justified(start, |old(trace)|, trace, j, r)
      ensures r.ExchangeFailed? ==> Failed(old(trace), trace, j, env)
    {
      r := Decide(j, env);
      ghost var decided := trace;
      hide Orderly, Failed, CanRun, Run, Justified, JustifiedAt;
      Interrupt(env.others(3), j);
      OrderlyMore(old(trace), decided, trace, j);
      OrderlyStep(old(trace), trace, if env.releaseUp then Release(j) else ReleaseFails(j), j);
      ReleaseLock(j, env.releaseUp);
      JustifiedLater(start, |old(trace)|, decided, trace, j, r);
      if r.ExchangeFailed? {
        FailedLater(old(trace), old(trace), decided, trace, j, env);
      }
    }

    /** Serves what the holder of the lock stored, or refreshes without the lock. */
    method RefreshAfterWait(j: nat, env: Surroundings) returns (r: Outcome)
      requires Valid() && j < |calls| && calls[j].Waiting? && calls[j].acc.refreshToken.Some? && lock != Some(j)
      modifies this, accounts
      ensures Valid() && start == old(start) && Orderly(old(trace), trace, j) && old(trace) < trace
      ensures |calls| == old(|calls|) && calls[j].Done? && lock != Some(j)
      ensures Justified(start, |old(trace)|, trace, j, r)
      ensures r.ExchangeFailed? ==> Failed(old(trace), trace, j, env)
    {
      hide Orderly, Failed, NotBy, CanRun, Run;
      var waited := AwaitRefreshedToken(j, env);
      if waited.Some? {
        JustifiedLater(start, |old(trace)|, trace, trace, j, waited.value);
        return waited.value;
      }
      ghost var before := Now();
      calls := calls[j := Requesting(calls[j].acc.refreshToken.value, false)];
      Log(before, GiveUpWaiting(j));
      OrderlyStep(old(trace), trace[..|trace| - 1], GiveUpWaiting(j), j);
      ghost var given := trace;
      assert given == given[..|given| - 1] + [GiveUpWaiting(j)];
      r := DoRefresh(j, env);
      OrderlyMore(old(trace), given, trace, j);
      JustifiedLater(start, |old(trace)|, trace, trace, j, r);
      if r.ExchangeFailed? {
        FailedLater(old(trace), given, trace, trace, j, env);
      }
    }

    /** The whole call. Whatever the others and the provider do in between, the execution is a run of
        the machine that carries call `j` from its start to its end without breaking off. The row loaded
        first decides: an access token with more than a minute to go when it is checked is the answer, and a
        row without it and without a refresh token is refused, and nothing else happens; any other goes on.
        The exchange fails only if the endpoint failed this call, any other outcome was so at some point of
        the run, and the call gives its lock back unless Redis fails. */
    method GetValidAccessToken(j: nat, env: Surroundings) returns (r: Outcome, ghost at: nat, ghost seen: int)
      requires Valid() && j < |calls| && calls[j].NotStarted? && lock != Some(j)
      modifies this, accounts
      ensures Valid() && start == old(start) && Orderly(old(trace), trace, j) && old(trace) < trace
      ensures |calls| == old(|calls|) && calls[j].Done?
      ensures env.releaseUp ==> lock != Some(j)
      ensures Justified(start, |old(trace)|, trace, j, r)
      ensures r.ExchangeFailed? ==> Failed(old(trace), trace, j, env)
      ensures CheckedAt(start, |old(trace)|, trace, at, j, seen)
      ensures var acc := old(Row());
              if acc.accessToken.Some? && acc.accessExpiresAt.Some? && acc.accessExpiresAt.value > seen + 60
              then r == Token(acc.accessToken.value) && at == |trace| - 1
              else if acc.refreshToken.None? then r == RefreshInvalid && at == |trace| - 1
              else at < |trace| - 1
    {
      hide Orderly, Failed, CanRun, Run, Justified, JustifiedAt, NotBy, CheckedAt;
      var early;
      early, at := LoadAndCheck(j, env);
      seen := now;
      if early.Some? {
        r := early.value;
        return;
      }
      ghost var checked := trace;
      Interrupt(env.others(1), j);
      OrderlyMore(old(trace), checked, trace, j);
      OrderlyStep(old(trace), trace, if env.redisUp then TryLock(j) else RedisDown(j), j);
      var acquired := TryAcquireLock(j, env.redisUp);
      ghost var locked := trace;
      if acquired {
        r := RefreshUnderLock(j, env);
      } else {
        r := RefreshAfterWait(j, env);
      }
      OrderlyMore(old(trace), locked, trace, j);
      StillChecked(start, |old(trace)|, checked, trace, at, j, seen);
      JustifiedEarlier(start, |old(trace)|, |locked|, trace, j, r);
      if r.ExchangeFailed? {
        FailedLater(old(trace), locked, trace, trace, j, env);
      }
    }
  }
}
