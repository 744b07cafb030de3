/** Refreshing an Outlook mailbox's access token: any number of concurrent calls, the Redis lock,
    the token columns and the token endpoint, as one machine of interleaved steps. */
module OAuthRefresh {
  import opened Seqs
  import opened MailAccounts

  const BUFFER := 60

  /** The cached access token, while it is valid for more than the buffer. */
  function Cached(a: Account, now: int): Option<string> {
    if a.accessToken.Some? && a.accessExpiresAt.Some? && a.accessExpiresAt.value > now + BUFFER
    then a.accessToken else None
  }

  datatype Reply = Reply(access: string, refresh: Option<string>, expiresIn: int)

  /** Where one call of get_valid_access_token stands; `locked` says that it holds the lock. */
  datatype Call =
    | NotStarted
    | Loaded(acc: Account)
    | WantsLock(acc: Account)
    | HasLock
    | Waiting(acc: Account)
    | Requesting(presented: string, locked: bool)
    | Answered(presented: string, reply: Reply, locked: bool)
    | Refused(presented: string, locked: bool)
    | Releasing
    | Done(token: Option<string>)

  /** `valid` is the refresh token that the provider honours, None once access was revoked. The
      lock's value is the number of the call that set it. */
  datatype State = State(row: Account, now: int, lock: Option<nat>, valid: Option<string>, calls: seq<Call>)

  datatype Event =
    | Load(j: nat)
    | CheckCache(j: nat)
    | TryLock(j: nat)
    | RedisDown(j: nat)
    | DoubleCheck(j: nat)
    | Poll(j: nat)
    | GiveUpWaiting(j: nat)
    | Answer(j: nat, reply: Reply)
    | RefuseToken(j: nat)
    | ServerError(j: nat)
    | AnswerLost(j: nat, reply: Reply)
    | Persist(j: nat)
    | MarkConsent(j: nat)
    | Release(j: nat)
    | ReleaseFails(j: nat)
    | Crash(j: nat)
    | LockExpires
    | Tick(now: int)
    | Revoke
    | Relink(refresh: string, access: string, expiresAt: int)

  function CallOf(e: Event): Option<nat> {
    match e
    case Load(j) => Some(j)
    case CheckCache(j) => Some(j)
    case TryLock(j) => Some(j)
    case RedisDown(j) => Some(j)
    case DoubleCheck(j) => Some(j)
    case Poll(j) => Some(j)
    case GiveUpWaiting(j) => Some(j)
    case Answer(j, _) => Some(j)
    case RefuseToken(j) => Some(j)
    case ServerError(j) => Some(j)
    case AnswerLost(j, _) => Some(j)
    case Persist(j) => Some(j)
    case MarkConsent(j) => Some(j)
    case Release(j) => Some(j)
    case ReleaseFails(j) => Some(j)
    case Crash(j) => Some(j)
    case _ => None
  }

  predicate Enabled(s: State, e: Event) {
    && (CallOf(e).Some? ==> CallOf(e).value < |s.calls|)
    && match e
       case Load(j) => s.calls[j].NotStarted?
       case CheckCache(j) => s.calls[j].Loaded?
       case TryLock(j) => s.calls[j].WantsLock?
       case RedisDown(j) => s.calls[j].WantsLock?
       case DoubleCheck(j) => s.calls[j].HasLock?
       case Poll(j) => s.calls[j].Waiting?
       case GiveUpWaiting(j) => s.calls[j].Waiting? && s.calls[j].acc.refreshToken.Some?
       case Answer(j, _) => s.calls[j].Requesting? && s.valid == Some(s.calls[j].presented)
       case AnswerLost(j, _) => s.calls[j].Requesting? && s.valid == Some(s.calls[j].presented)
       case RefuseToken(j) => s.calls[j].Requesting? && s.valid != Some(s.calls[j].presented)
       case ServerError(j) => s.calls[j].Requesting?
       case Persist(j) => s.calls[j].Answered?
       case MarkConsent(j) => s.calls[j].Refused?
       case Release(j) => s.calls[j].Releasing?
       case ReleaseFails(j) => s.calls[j].Releasing?
       case Crash(j) => !s.calls[j].NotStarted? && !s.calls[j].Done?
       case Tick(now) => now >= s.now
       case _ => true
  }

  function At(s: State, j: nat, c: Call): State
    requires j < |s.calls|
  {
    s.(calls := s.calls[j := c])
  }

  /** A call that leaves through `finally` when it holds the lock. */
  function Leave(locked: bool, token: Option<string>): Call {
    if locked then Releasing else Done(token)
  }

  function Step(s: State, e: Event): State
    requires Enabled(s, e)
  {
    match e
    case Load(j) => At(s, j, Loaded(s.row))
    case CheckCache(j) =>
      var acc := s.calls[j].acc;
      At(s, j, if Cached(acc, s.now).Some? then Done(Cached(acc, s.now))
               else if acc.refreshToken.None? then Done(None)
               else WantsLock(acc))
    case TryLock(j) =>
      if s.lock.None? then At(s, j, HasLock).(lock := Some(j)) else At(s, j, Waiting(s.calls[j].acc))
    case RedisDown(j) => At(s, j, Waiting(s.calls[j].acc))
    case DoubleCheck(j) =>
      At(s, j, if s.row.needsConsent || Cached(s.row, s.now).Some? || s.row.refreshToken.None? then Releasing
               else Requesting(s.row.refreshToken.value, true))
    case Poll(j) =>
      At(s, j, if s.row.needsConsent then Done(None)
               else if Cached(s.row, s.now).Some? then Done(Cached(s.row, s.now))
               else s.calls[j])
    case GiveUpWaiting(j) => At(s, j, Requesting(s.calls[j].acc.refreshToken.value, false))
    case Answer(j, reply) =>
      var c := s.calls[j];
      At(s, j, Answered(c.presented, reply, c.locked)).(valid := if reply.refresh.Some? then reply.refresh else s.valid)
    case AnswerLost(j, reply) =>
      At(s, j, Leave(s.calls[j].locked, None)).(valid := if reply.refresh.Some? then reply.refresh else s.valid)
    case RefuseToken(j) => At(s, j, Refused(s.calls[j].presented, s.calls[j].locked))
    case ServerError(j) => At(s, j, Leave(s.calls[j].locked, None))
    case Persist(j) =>
      var c := s.calls[j];
      At(s, j, Leave(c.locked, Some(c.reply.access)))
        .(row := Perform(Tokens(c.reply.refresh, Some(c.reply.access),
                                 Some(s.now + c.reply.expiresIn), Some(false)), s.row))
    case MarkConsent(j) => At(s, j, Leave(s.calls[j].locked, None)).(row := Perform(NeedsConsent, s.row))
    case Release(j) => At(s, j, Done(None)).(lock := if s.lock == Some(j) then None else s.lock)
    case ReleaseFails(j) => At(s, j, Done(None))
    case Crash(j) => At(s, j, Done(None))
    case LockExpires => s.(lock := None)
    case Tick(now) => s.(now := now)
    case Revoke => s.(valid := None)
    case Relink(refresh, access, expiresAt) =>
      s.(valid := Some(refresh),
         row := Perform(Tokens(Some(refresh), Some(access), Some(expiresAt), Some(false)), s.row))
  }

  // ---------------------------------------------------------------- runs

  predicate CanRun(s: State, es: seq<Event>)
    decreases |es|
  {
    es == [] || (Enabled(s, es[0]) && CanRun(Step(s, es[0]), es[1..]))
  }

  function Run(s: State, es: seq<Event>): State
    requires CanRun(s, es)
    decreases |es|
  {
    if es == [] then s else Run(Step(s, es[0]), es[1..])
  }

  lemma {:induction false} RunConcat(s: State, es: seq<Event>, fs: seq<Event>)
    requires CanRun(s, es) && CanRun(Run(s, es), fs)
    ensures CanRun(s, es + fs) && Run(s, es + fs) == Run(Run(s, es), fs)
    decreases |es|
  {
    if es == [] {
      assert es + fs == fs;
    } else {
      assert (es + fs)[1..] == es[1..] + fs;
      RunConcat(Step(s, es[0]), es[1..], fs);
    }
  }

  // ---------------------------------------------------------------- always

  /** Only the lock's own holder can take it away: no step of another call ever does. */
  lemma OnlyOwnerReleases(s: State, e: Event, k: nat)
    requires Enabled(s, e) && s.lock == Some(k) && !e.LockExpires? && CallOf(e) != Some(k)
    ensures Step(s, e).lock == Some(k)
  {}

  /** In no run does the stored refresh token disappear. */
  lemma {:induction false} RefreshTokenSurvives(s: State, es: seq<Event>)
    requires CanRun(s, es) && s.row.refreshToken.Some?
    ensures Run(s, es).row.refreshToken.Some?
    decreases |es|
  {
    if es != [] {
      RefreshTokenSurvives(Step(s, es[0]), es[1..]);
    }
  }

  /** A response without a new refresh token leaves the stored one as it was. */
  lemma UnrotatedKeepsToken(s: State, j: nat)
    requires Enabled(s, Persist(j)) && s.calls[j].reply.refresh.None?
    ensures Step(s, Persist(j)).row.refreshToken == s.row.refreshToken
    ensures Step(s, Persist(j)).row.accessToken == Some(s.calls[j].reply.access)
  {}

  /** At any time the key may expire, the provider may revoke access and the user may link the mailbox
      again, which stores the new tokens and lifts the flag, whatever the row held. */
  lemma OutsideEvents(s: State, refresh: string, access: string, expiresAt: int)
    ensures Enabled(s, LockExpires) && Step(s, LockExpires).lock.None?
    ensures Enabled(s, Revoke) && Step(s, Revoke) == s.(valid := None)
    ensures Enabled(s, Relink(refresh, access, expiresAt))
    ensures var r := Step(s, Relink(refresh, access, expiresAt));
            && r.valid == r.row.refreshToken == Some(refresh) && r.lock == s.lock && r.calls == s.calls
            && r.row == s.row.(refreshToken := Some(refresh), accessToken := Some(access),
                               accessExpiresAt := Some(expiresAt), needsConsent := false)
  {}

  // ---------------------------------------------------------------- calm runs

  /** The call stands between taking and releasing the lock. */
  predicate Holds(c: Call) {
    || c.HasLock? || c.Releasing?
    || ((c.Requesting? || c.Answered? || c.Refused?) && c.locked)
  }

  /** A refresh is under way: the token was presented and the outcome is not yet stored. */
  predicate InFlight(c: Call) {
    c.Requesting? || c.Answered? || c.Refused?
  }

  /** No waiter gives up, the lock outlives its holder, nobody re-links the mailbox. A call that cannot
      reach Redis only waits, so Redis need not be up. */
  predicate Calm(s: State, e: Event) {
    match e
    case GiveUpWaiting(_) => false
    case Relink(_, _, _) => false
    case LockExpires => s.lock.Some? && s.lock.value < |s.calls| ==> !Holds(s.calls[s.lock.value])
    case _ => true
  }

  predicate CalmRun(s: State, es: seq<Event>)
    requires CanRun(s, es)
    decreases |es|
  {
    es == [] || (Calm(s, es[0]) && CalmRun(Step(s, es[0]), es[1..]))
  }

  ghost predicate LockInv(s: State) {
    forall j :: 0 <= j < |s.calls| ==>
      && (Holds(s.calls[j]) ==> s.lock == Some(j))
      && (InFlight(s.calls[j]) ==> s.calls[j].locked && s.row.refreshToken == Some(s.calls[j].presented))
  }

  /** At most one refresh in flight, and every one presents the token currently stored. */
  ghost predicate OneFreshRefresh(s: State) {
    && (forall i, j :: 0 <= i < j < |s.calls| ==> !(InFlight(s.calls[i]) && InFlight(s.calls[j])))
    && (forall j :: 0 <= j < |s.calls| && InFlight(s.calls[j]) ==> s.row.refreshToken == Some(s.calls[j].presented))
  }

  lemma StepKeepsLockInv(s: State, e: Event)
    requires LockInv(s) && Enabled(s, e) && Calm(s, e)
    ensures LockInv(Step(s, e))
  {
    var r := Step(s, e);
    forall j | 0 <= j < |r.calls|
      ensures Holds(r.calls[j]) ==> r.lock == Some(j)
      ensures InFlight(r.calls[j]) ==> r.calls[j].locked && r.row.refreshToken == Some(r.calls[j].presented)
    {
      if CallOf(e) != Some(j) {
        assert r.calls[j] == s.calls[j];
        if CallOf(e).Some? {
          var k := CallOf(e).value;
          assert Holds(s.calls[j]) && Holds(s.calls[k]) ==> j == k;
        }
      }
    }
  }

  lemma {:induction false} CalmRunKeepsLockInv(s: State, es: seq<Event>)
    requires LockInv(s) && CanRun(s, es) && CalmRun(s, es)
    ensures LockInv(Run(s, es))
    decreases |es|
  {
    if es != [] {
      StepKeepsLockInv(s, es[0]);
      CalmRunKeepsLockInv(Step(s, es[0]), es[1..]);
    }
  }

  ghost predicate Initial(s: State) {
    s.lock.None? && forall j :: 0 <= j < |s.calls| ==> s.calls[j].NotStarted?
  }

  /** In every calm interleaving the rotation race cannot happen. */
  lemma RefreshesAreFresh(s: State, es: seq<Event>)
    requires Initial(s) && CanRun(s, es) && CalmRun(s, es)
    ensures OneFreshRefresh(Run(s, es))
  {
    CalmRunKeepsLockInv(s, es);
  }

  // ---------------------------------------------------------------- the fallback after a timed-out wait

  /** The lock key names a call that is not between acquiring and releasing it: the call has died, or
      could not delete its key. */
  predicate StaleLock(s: State) {
    s.lock.Some? && (s.lock.value < |s.calls| ==> !Holds(s.calls[s.lock.value]))
  }

  /** The call is refreshing, or nothing keeps it from getting there: neither a stale key nor the
      consent flag. */
  predicate Rival(s: State, c: Call) {
    || InFlight(c)
    || (!StaleLock(s) && !s.row.needsConsent
        && (c.HasLock? || c.WantsLock? || c.NotStarted? || (c.Loaded? && c.acc.refreshToken.Some?)))
  }

  /** The caller's row, loaded before the wait, still has the stored token, and there is no rival. */
  predicate FallbackSafe(s: State, j: nat)
    requires Enabled(s, GiveUpWaiting(j))
  {
    && s.calls[j].acc.refreshToken == s.row.refreshToken
    && forall i :: 0 <= i < |s.calls| ==> !Rival(s, s.calls[i])
  }

  /** Calm, and the lock key does not expire while call `j` refreshes without it. */
  predicate Steady(s: State, e: Event, j: nat) {
    Calm(s, e) && (e.LockExpires? && j < |s.calls| ==> !InFlight(s.calls[j]))
  }

  predicate SteadyRun(s: State, es: seq<Event>, j: nat)
    requires CanRun(s, es)
    decreases |es|
  {
    es == [] || (Steady(s, es[0], j) && SteadyRun(Step(s, es[0]), es[1..], j))
  }

  /** Call `j` refreshes without the lock, and nobody can join it. */
  ghost predicate Alone(s: State, j: nat) {
    && j < |s.calls| && InFlight(s.calls[j]) && !s.calls[j].locked
    && s.row.refreshToken == Some(s.calls[j].presented)
    && forall i :: 0 <= i < |s.calls| && i != j ==>
         (Holds(s.calls[i]) ==> s.lock == Some(i)) && !Rival(s, s.calls[i])
  }

  lemma StepKeepsAlone(s: State, e: Event, j: nat)
    requires Alone(s, j) && Enabled(s, e) && Steady(s, e, j)
    ensures Alone(Step(s, e), j) || LockInv(Step(s, e))
  {
    var r := Step(s, e);
    forall i | 0 <= i < |r.calls| && i != j
      ensures Holds(r.calls[i]) ==> r.lock == Some(i)
      ensures InFlight(r.calls[j]) ==> !Rival(r, r.calls[i])
      ensures !InFlight(r.calls[i])
    {
      assert !Rival(s, s.calls[i]);
      if CallOf(e) != Some(i) {
        assert r.calls[i] == s.calls[i];
      }
      if CallOf(e).Some? && CallOf(e).value != j {
        var k := CallOf(e).value;
        assert !Rival(s, s.calls[k]);
        assert Holds(s.calls[k]) ==> s.lock == Some(k);
      }
    }
    assert CallOf(e) != Some(j) ==> r.calls[j] == s.calls[j];
  }

  lemma {:induction false} SteadyRunIsFresh(s: State, es: seq<Event>, j: nat)
    requires Alone(s, j) || LockInv(s)
    requires CanRun(s, es) && SteadyRun(s, es, j)
    ensures OneFreshRefresh(Run(s, es))
    decreases |es|
  {
    if es != [] {
      if LockInv(s) {
        StepKeepsLockInv(s, es[0]);
      } else {
        StepKeepsAlone(s, es[0], j);
      }
      SteadyRunIsFresh(Step(s, es[0]), es[1..], j);
    }
  }

  /** A steady run into the rotation race. */
  ghost predicate Races(s: State, es: seq<Event>, j: nat) {
    CanRun(s, es) && SteadyRun(s, es, j) && !OneFreshRefresh(Run(s, es))
  }

  lemma RacesLater(s: State, e: Event, es: seq<Event>, j: nat)
    requires Enabled(s, e) && Steady(s, e, j) && Races(Step(s, e), es, j)
    ensures Races(s, [e] + es, j)
  {
    assert ([e] + es)[1..] == es;
  }

  /** Call `j` refreshes unlocked; the row is refreshable and shows no fresh token. */
  ghost predicate Exposed(s: State, j: nat, i: nat) {
    && j < |s.calls| && i < |s.calls| && i != j && InFlight(s.calls[j]) && !s.calls[j].locked
    && !s.row.needsConsent && Cached(s.row, s.now).None? && s.row.refreshToken.Some?
  }

  lemma RaceFromLock(s: State, j: nat, i: nat) returns (es: seq<Event>)
    requires Exposed(s, j, i) && s.calls[i].HasLock?
    ensures Races(s, es, j)
  {
    var r := Step(s, DoubleCheck(i));
    assert InFlight(r.calls[i]) && InFlight(r.calls[j]);
    assert Races(r, [], j);
    RacesLater(s, DoubleCheck(i), [], j);
    es := [DoubleCheck(i)] + [];
  }

  lemma RaceFromWant(s: State, j: nat, i: nat) returns (es: seq<Event>)
    requires Exposed(s, j, i) && s.calls[i].WantsLock? && s.lock.None?
    ensures Races(s, es, j)
  {
    var rest := RaceFromLock(Step(s, TryLock(i)), j, i);
    RacesLater(s, TryLock(i), rest, j);
    es := [TryLock(i)] + rest;
  }

  lemma RaceFromLoaded(s: State, j: nat, i: nat) returns (es: seq<Event>)
    requires Exposed(s, j, i) && s.calls[i].Loaded? && s.lock.None?
    requires s.calls[i].acc.refreshToken.Some? && Cached(s.calls[i].acc, s.now).None?
    ensures Races(s, es, j)
  {
    var rest := RaceFromWant(Step(s, CheckCache(i)), j, i);
    RacesLater(s, CheckCache(i), rest, j);
    es := [CheckCache(i)] + rest;
  }

  lemma RaceFromStart(s: State, j: nat, i: nat) returns (es: seq<Event>)
    requires Exposed(s, j, i) && s.calls[i].NotStarted? && s.lock.None?
    ensures Races(s, es, j)
  {
    var rest := RaceFromLoaded(Step(s, Load(i)), j, i);
    RacesLater(s, Load(i), rest, j);
    es := [Load(i)] + rest;
  }

  /** A time at which neither row's cached token counts as fresh any more. */
  function Later(now: int, a: Account, b: Account): (t: int)
    ensures t >= now && Cached(a, t).None? && Cached(b, t).None?
  {
    var x := a.accessExpiresAt.GetOr(now);
    var y := b.accessExpiresAt.GetOr(now);
    if now >= x && now >= y then now else if x >= y then x else y
  }

  /** With the key free, a call on its way joins the unlocked refresh once the cached token is stale. */
  lemma RaceWithFreeLock(s: State, j: nat, i: nat) returns (es: seq<Event>)
    requires j < |s.calls| && i < |s.calls| && i != j && InFlight(s.calls[j]) && !s.calls[j].locked
    requires !s.row.needsConsent && s.row.refreshToken.Some? && s.lock.None?
    requires var c := s.calls[i]; c.WantsLock? || c.NotStarted? || (c.Loaded? && c.acc.refreshToken.Some?)
    ensures Races(s, es, j)
  {
    var c := s.calls[i];
    var e := Tick(Later(s.now, s.row, if c.Loaded? then c.acc else s.row));
    var r := Step(s, e);
    var rest: seq<Event>;
    if c.WantsLock? {
      rest := RaceFromWant(r, j, i);
    } else if c.NotStarted? {
      rest := RaceFromStart(r, j, i);
    } else {
      rest := RaceFromLoaded(r, j, i);
    }
    RacesLater(s, e, rest, j);
    es := [e] + rest;
  }

  /** The key is free, or its holder is alive: the race that follows. */
  lemma RivalRaces(s: State, j: nat, i: nat) returns (es: seq<Event>)
    requires LockInv(s) && Enabled(s, GiveUpWaiting(j)) && s.calls[j].acc.refreshToken == s.row.refreshToken
    requires i < |s.calls| && Rival(s, s.calls[i])
    ensures Races(Step(s, GiveUpWaiting(j)), es, j)
  {
    var t := Step(s, GiveUpWaiting(j));
    assert i != j && t.calls[i] == s.calls[i];
    if InFlight(s.calls[i]) {
      es := [];
      assert InFlight(t.calls[i]) && InFlight(t.calls[j]);
    } else if s.lock.None? {
      es := RaceWithFreeLock(t, j, i);
    } else {
      var k := s.lock.value;
      assert Holds(s.calls[k]) && k != j && t.calls[k] == s.calls[k];
      if InFlight(s.calls[k]) {
        es := [];
        assert InFlight(t.calls[k]) && InFlight(t.calls[j]);
      } else if s.calls[k].HasLock? {
        var e := Tick(Later(t.now, t.row, t.row));
        var rest := RaceFromLock(Step(t, e), j, k);
        RacesLater(t, e, rest, j);
        es := [e] + rest;
      } else {
        var rest := RaceWithFreeLock(Step(t, Release(k)), j, i);
        RacesLater(t, Release(k), rest, j);
        es := [Release(k)] + rest;
      }
    }
  }

  /** As long as nobody else gives up waiting, the unlocked refresh after a timed-out wait is safe - every
      steady continuation keeps at most one
      refresh in flight, presenting the stored token - if and only if the caller's token is still the
      stored one and no other call is refreshing or on its way to: the lock key must be stale, unless
      the mailbox is flagged by now or nobody else is left who could take the lock. */
  lemma FallbackIsSafeIff(s: State, j: nat)
    requires LockInv(s) && Enabled(s, GiveUpWaiting(j))
    ensures FallbackSafe(s, j) <==> forall es :: !Races(Step(s, GiveUpWaiting(j)), es, j)
  {
    var t := Step(s, GiveUpWaiting(j));
    if FallbackSafe(s, j) {
      assert Alone(t, j) by {
        forall i | 0 <= i < |t.calls| && i != j
          ensures (Holds(t.calls[i]) ==> t.lock == Some(i)) && !Rival(t, t.calls[i])
        {
          assert t.calls[i] == s.calls[i] && !Rival(s, s.calls[i]);
        }
      }
      forall es ensures !Races(t, es, j) {
        if CanRun(t, es) && SteadyRun(t, es, j) {
          SteadyRunIsFresh(t, es, j);
        }
      }
    } else {
      var es := [];
      if s.calls[j].acc.refreshToken == s.row.refreshToken {
        var i :| 0 <= i < |s.calls| && Rival(s, s.calls[i]);
        es := RivalRaces(s, j, i);
      } else {
        assert InFlight(t.calls[j]);
      }
      assert Races(t, es, j);
    }
  }

  /** While the mailbox is not flagged and another call may still come, the two things that decide are
      whether the key is stale and whether the token is the caller's. */
  lemma FallbackNeedsStaleKey(s: State, j: nat, i: nat)
    requires LockInv(s) && Enabled(s, GiveUpWaiting(j))
    requires !s.row.needsConsent && i < |s.calls| && s.calls[i].NotStarted?
    ensures FallbackSafe(s, j) <==> StaleLock(s) && s.calls[j].acc.refreshToken == s.row.refreshToken
  {
    assert !StaleLock(s) ==> Rival(s, s.calls[i]);
    forall k | 0 <= k < |s.calls| && StaleLock(s) ensures !InFlight(s.calls[k]) {
      assert InFlight(s.calls[k]) ==> Holds(s.calls[k]);
    }
  }

  // ---------------------------------------------------------------- the fallback when others may give up too

  /** Any run without a re-link: waiters give up, Redis fails, keys expire as they will. */
  predicate UnlinkedRun(s: State, es: seq<Event>)
    requires CanRun(s, es)
    decreases |es|
  {
    es == [] || (!es[0].Relink? && UnlinkedRun(Step(s, es[0]), es[1..]))
  }

  /** An unlinked run into the rotation race. */
  ghost predicate Collides(s: State, es: seq<Event>) {
    CanRun(s, es) && UnlinkedRun(s, es) && !OneFreshRefresh(Run(s, es))
  }

  /** Whoever goes for the lock has a token to refresh with. */
  predicate TokensInHand(s: State) {
    forall i :: 0 <= i < |s.calls| && (s.calls[i].WantsLock? || s.calls[i].Waiting?) ==>
      s.calls[i].acc.refreshToken.Some?
  }

  lemma {:induction false} RunKeepsTokensInHand(s: State, es: seq<Event>)
    requires TokensInHand(s) && CanRun(s, es)
    ensures TokensInHand(Run(s, es))
    decreases |es|
  {
    if es != [] {
      var r := Step(s, es[0]);
      forall i | 0 <= i < |r.calls| && (r.calls[i].WantsLock? || r.calls[i].Waiting?)
        ensures r.calls[i].acc.refreshToken.Some?
      {
        if CallOf(es[0]) != Some(i) {
          assert r.calls[i] == s.calls[i];
        }
      }
      RunKeepsTokensInHand(r, es[1..]);
    }
  }

  /** The call is refreshing, or can still get there with or without the lock. */
  predicate Follower(s: State, c: Call) {
    || InFlight(c) || c.Waiting? || c.WantsLock? || c.NotStarted?
    || (c.Loaded? && c.acc.refreshToken.Some?)
    || (c.HasLock? && !s.row.needsConsent)
  }

  /** The caller's row still has the stored token, and no other call can follow. */
  predicate LastInLine(s: State, j: nat)
    requires Enabled(s, GiveUpWaiting(j))
  {
    && s.calls[j].acc.refreshToken == s.row.refreshToken
    && forall i :: 0 <= i < |s.calls| && i != j ==> !Follower(s, s.calls[i])
  }

  /** The call will never refresh. */
  predicate Spent(c: Call) {
    c.Done? || c.Releasing? || (c.Loaded? && c.acc.refreshToken.None?)
  }

  /** Call `j` is refreshing; at most one other is not spent, which holds the lock of a flagged mailbox. */
  ghost predicate OnlyOne(s: State, j: nat) {
    && j < |s.calls| && InFlight(s.calls[j]) && !s.calls[j].locked
    && s.row.refreshToken == Some(s.calls[j].presented)
    && (forall i :: 0 <= i < |s.calls| && i != j ==> Spent(s.calls[i]) || (s.calls[i].HasLock? && s.row.needsConsent))
    && (forall i, k :: 0 <= i < k < |s.calls| ==> !(s.calls[i].HasLock? && s.calls[k].HasLock?))
  }

  /** Call `a` is the only one left; if it refreshes, it does so with the stored token. */
  ghost predicate LastCall(s: State, a: nat) {
    && a < |s.calls|
    && (forall i :: 0 <= i < |s.calls| && i != a ==> Spent(s.calls[i]))
    && (Spent(s.calls[a]) || s.calls[a].HasLock?
        || (InFlight(s.calls[a]) && s.row.refreshToken == Some(s.calls[a].presented)))
  }

  lemma StepKeepsLastCall(s: State, e: Event, a: nat)
    requires LastCall(s, a) && Enabled(s, e) && !e.Relink?
    ensures LastCall(Step(s, e), a)
  {
    var r := Step(s, e);
    forall i | 0 <= i < |r.calls| && i != a ensures Spent(r.calls[i]) {
      if CallOf(e) != Some(i) {
        assert r.calls[i] == s.calls[i];
      }
    }
    assert CallOf(e) != Some(a) ==> r.calls[a] == s.calls[a];
  }

  lemma StepKeepsOnlyOne(s: State, e: Event, j: nat)
    requires OnlyOne(s, j) && Enabled(s, e) && !e.Relink?
    ensures OnlyOne(Step(s, e), j) || exists a: nat :: LastCall(Step(s, e), a)
  {
    var r := Step(s, e);
    forall i | 0 <= i < |r.calls| && i != j
      ensures Spent(r.calls[i]) || (r.calls[i].HasLock? && s.calls[i] == r.calls[i] && s.row.needsConsent)
    {
      if CallOf(e) != Some(i) {
        assert r.calls[i] == s.calls[i];
      }
    }
    if CallOf(e) == Some(j) {
      if !InFlight(r.calls[j]) {
        if a :| 0 <= a < |r.calls| && r.calls[a].HasLock? {
          assert LastCall(r, a);
        } else {
          assert LastCall(r, j);
        }
      }
    } else {
      assert r.calls[j] == s.calls[j];
    }
  }

  lemma {:induction false} LastCallIsFresh(s: State, es: seq<Event>, a: nat)
    requires LastCall(s, a) && CanRun(s, es) && UnlinkedRun(s, es)
    ensures OneFreshRefresh(Run(s, es))
    decreases |es|
  {
    if es != [] {
      StepKeepsLastCall(s, es[0], a);
      LastCallIsFresh(Step(s, es[0]), es[1..], a);
    }
  }

  lemma {:induction false} OnlyOneIsFresh(s: State, es: seq<Event>, j: nat)
    requires OnlyOne(s, j) && CanRun(s, es) && UnlinkedRun(s, es)
    ensures OneFreshRefresh(Run(s, es))
    decreases |es|
  {
    if es != [] {
      var r := Step(s, es[0]);
      StepKeepsOnlyOne(s, es[0], j);
      if a: nat :| LastCall(r, a) {
        LastCallIsFresh(r, es[1..], a);
      } else {
        OnlyOneIsFresh(r, es[1..], j);
      }
    }
  }

  lemma CollidesLater(s: State, e: Event, es: seq<Event>)
    requires Enabled(s, e) && !e.Relink? && Collides(Step(s, e), es)
    ensures Collides(s, [e] + es)
  {
    assert ([e] + es)[1..] == es;
  }

  /** Two calls refresh at once, or soon will. */
  ghost predicate Pair(s: State, j: nat, i: nat) {
    j < |s.calls| && i < |s.calls| && i != j && InFlight(s.calls[j])
  }

  lemma TwoCollide(s: State, j: nat, i: nat)
    requires Pair(s, j, i) && InFlight(s.calls[i])
    ensures Collides(s, [])
  {}

  lemma WaiterCollides(s: State, j: nat, i: nat) returns (es: seq<Event>)
    requires Pair(s, j, i) && s.calls[i].Waiting? && s.calls[i].acc.refreshToken.Some?
    ensures Collides(s, es)
  {
    TwoCollide(Step(s, GiveUpWaiting(i)), j, i);
    CollidesLater(s, GiveUpWaiting(i), []);
    es := [GiveUpWaiting(i)] + [];
  }

  lemma WanterCollides(s: State, j: nat, i: nat) returns (es: seq<Event>)
    requires Pair(s, j, i) && s.calls[i].WantsLock? && s.calls[i].acc.refreshToken.Some?
    ensures Collides(s, es)
  {
    var rest := WaiterCollides(Step(s, RedisDown(i)), j, i);
    CollidesLater(s, RedisDown(i), rest);
    es := [RedisDown(i)] + rest;
  }

  lemma LoaderCollides(s: State, j: nat, i: nat) returns (es: seq<Event>)
    requires Pair(s, j, i) && s.calls[i].Loaded? && s.calls[i].acc.refreshToken.Some?
    ensures Collides(s, es)
  {
    var e := Tick(Later(s.now, s.calls[i].acc, s.calls[i].acc));
    var t := Step(s, e);
    var rest := WanterCollides(Step(t, CheckCache(i)), j, i);
    CollidesLater(t, CheckCache(i), rest);
    CollidesLater(s, e, [CheckCache(i)] + rest);
    es := [e] + ([CheckCache(i)] + rest);
  }

  lemma HolderCollides(s: State, j: nat, i: nat) returns (es: seq<Event>)
    requires Pair(s, j, i) && s.calls[i].HasLock? && !s.row.needsConsent && s.row.refreshToken.Some?
    ensures Collides(s, es)
  {
    var e := Tick(Later(s.now, s.row, s.row));
    var t := Step(s, e);
    TwoCollide(Step(t, DoubleCheck(i)), j, i);
    CollidesLater(t, DoubleCheck(i), []);
    CollidesLater(s, e, [DoubleCheck(i)] + []);
    es := [e] + ([DoubleCheck(i)] + []);
  }

  /** Every follower has a continuation of a few steps into the race. */
  lemma FollowerCollides(s: State, j: nat, i: nat) returns (es: seq<Event>)
    requires TokensInHand(s) && Enabled(s, GiveUpWaiting(j)) && s.calls[j].acc.refreshToken == s.row.refreshToken
    requires i < |s.calls| && i != j && Follower(s, s.calls[i])
    ensures Collides(Step(s, GiveUpWaiting(j)), es)
  {
    var t := Step(s, GiveUpWaiting(j));
    var c := s.calls[i];
    assert t.calls[i] == c && Pair(t, j, i);
    if InFlight(c) {
      TwoCollide(t, j, i);
      es := [];
    } else if c.Waiting? {
      es := WaiterCollides(t, j, i);
    } else if c.WantsLock? {
      es := WanterCollides(t, j, i);
    } else if c.Loaded? {
      es := LoaderCollides(t, j, i);
    } else if c.HasLock? {
      es := HolderCollides(t, j, i);
    } else {
      var rest := LoaderCollides(Step(t, Load(i)), j, i);
      CollidesLater(t, Load(i), rest);
      es := [Load(i)] + rest;
    }
  }

  /** With no promise about the others but that nobody re-links the mailbox, the unlocked refresh is safe
      in everything that may follow if and only if the caller's token is still the stored one and no other
      call is refreshing or can still get there - not even another waiter, whatever the lock key says. */
  lemma FallbackIsAlwaysSafeIff(s: State, j: nat)
    requires LockInv(s) && TokensInHand(s) && Enabled(s, GiveUpWaiting(j))
    ensures LastInLine(s, j) <==> forall es :: !Collides(Step(s, GiveUpWaiting(j)), es)
  {
    var t := Step(s, GiveUpWaiting(j));
    if LastInLine(s, j) {
      assert OnlyOne(t, j) by {
        forall i | 0 <= i < |t.calls| && i != j
          ensures Spent(t.calls[i]) || (t.calls[i].HasLock? && t.row.needsConsent)
        {
          assert t.calls[i] == s.calls[i] && !Follower(s, s.calls[i]);
        }
        forall i, k | 0 <= i < k < |t.calls| ensures !(t.calls[i].HasLock? && t.calls[k].HasLock?) {
          assert t.calls[i].HasLock? ==> s.calls[i].HasLock?;
          assert t.calls[k].HasLock? ==> s.calls[k].HasLock?;
        }
      }
      forall es ensures !Collides(t, es) {
        if CanRun(t, es) && UnlinkedRun(t, es) {
          OnlyOneIsFresh(t, es, j);
        }
      }
    } else {
      var es := [];
      if s.calls[j].acc.refreshToken == s.row.refreshToken {
        var i :| 0 <= i < |s.calls| && i != j && Follower(s, s.calls[i]);
        es := FollowerCollides(s, j, i);
      } else {
        assert InFlight(t.calls[j]);
      }
      assert Collides(t, es);
    }
  }

  /** The holder of the lock died and two calls wait: the case the fallback is for. */
  function DeadHolder(row: Account, now: int): State {
    State(row, now, Some(2), row.refreshToken, [Waiting(row), Waiting(row), Done(None)])
  }

  /** The key is stale and the token is the caller's, yet when both waiters give up two refreshes with
      the same token are in flight. */
  lemma TwoWaitersCollide(row: Account, now: int)
    requires row.refreshToken.Some?
    ensures var s := DeadHolder(row, now);
            && LockInv(s) && TokensInHand(s) && Enabled(s, GiveUpWaiting(0)) && FallbackSafe(s, 0)
            && Collides(Step(s, GiveUpWaiting(0)), [GiveUpWaiting(1)])
  {
    var t := Step(DeadHolder(row, now), GiveUpWaiting(0));
    var es := WaiterCollides(t, 0, 1);
    TwoCollide(Step(t, GiveUpWaiting(1)), 0, 1);
    CollidesLater(t, GiveUpWaiting(1), []);
    assert [GiveUpWaiting(1)] + [] == [GiveUpWaiting(1)];
  }

  // ---------------------------------------------------------------- such a state is reached

  /** A call finds no fresh token and the key taken: it waits. */
  lemma JoinsQueue(s: State, i: nat, rest: seq<Event>) returns (es: seq<Event>)
    requires i < |s.calls| && s.calls[i].NotStarted? && s.lock.Some?
    requires Cached(s.row, s.now).None? && s.row.refreshToken.Some? && CanRun(At(s, i, Waiting(s.row)), rest)
    ensures CanRun(s, es) && Run(s, es) == Run(At(s, i, Waiting(s.row)), rest)
  {
    var s1 := Step(s, Load(i));
    var s2 := Step(s1, CheckCache(i));
    assert Step(s2, TryLock(i)) == At(s, i, Waiting(s.row));
    RunOne(s2, TryLock(i), rest);
    RunOne(s1, CheckCache(i), [TryLock(i)] + rest);
    RunOne(s, Load(i), [CheckCache(i)] + ([TryLock(i)] + rest));
    es := [Load(i)] + ([CheckCache(i)] + ([TryLock(i)] + rest));
  }

  /** A call takes the lock and dies. */
  lemma TakesAndDies(s: State, i: nat, rest: seq<Event>) returns (es: seq<Event>)
    requires i < |s.calls| && s.calls[i].NotStarted? && s.lock.None?
    requires Cached(s.row, s.now).None? && s.row.refreshToken.Some?
    requires CanRun(At(s, i, Done(None)).(lock := Some(i)), rest)
    ensures CanRun(s, es) && Run(s, es) == Run(At(s, i, Done(None)).(lock := Some(i)), rest)
  {
    var s1 := Step(s, Load(i));
    var s2 := Step(s1, CheckCache(i));
    var s3 := Step(s2, TryLock(i));
    assert Step(s3, Crash(i)) == At(s, i, Done(None)).(lock := Some(i));
    RunOne(s3, Crash(i), rest);
    RunOne(s2, TryLock(i), [Crash(i)] + rest);
    RunOne(s1, CheckCache(i), [TryLock(i)] + ([Crash(i)] + rest));
    RunOne(s, Load(i), [CheckCache(i)] + ([TryLock(i)] + ([Crash(i)] + rest)));
    es := [Load(i)] + ([CheckCache(i)] + ([TryLock(i)] + ([Crash(i)] + rest)));
  }

  /** From three calls that have not begun. */
  lemma DeadHolderIsReached(row: Account, now: int) returns (es: seq<Event>)
    requires row.refreshToken.Some? && Cached(row, now).None?
    ensures var s := State(row, now, None, row.refreshToken, [NotStarted, NotStarted, NotStarted]);
            Initial(s) && CanRun(s, es) && Run(s, es) == DeadHolder(row, now)
  {
    var s := State(row, now, None, row.refreshToken, [NotStarted, NotStarted, NotStarted]);
    var s1 := At(s, 2, Done(None)).(lock := Some(2));
    var s2 := At(s1, 0, Waiting(row));
    assert At(s2, 1, Waiting(row)) == DeadHolder(row, now);
    var es2 := JoinsQueue(s2, 1, []);
    var es1 := JoinsQueue(s1, 0, es2);
    es := TakesAndDies(s, 2, es1);
  }

  // ---------------------------------------------------------------- no false needs-consent

  /** No answer of the provider is lost on the way to the database. */
  predicate Lossless(s: State, e: Event) {
    && !e.AnswerLost?
    && (e.Crash? && e.j < |s.calls| ==> !s.calls[e.j].Answered?)
  }

  predicate LosslessRun(s: State, es: seq<Event>)
    requires CanRun(s, es)
    decreases |es|
  {
    es == [] || (Lossless(s, es[0]) && LosslessRun(Step(s, es[0]), es[1..]))
  }

  /** The provider honours the stored token, or the rotated one about to be stored. */
  ghost predicate TokenInv(s: State) {
    && (s.valid.None? || s.valid == s.row.refreshToken
        || exists j :: 0 <= j < |s.calls| && s.calls[j].Answered? && s.calls[j].reply.refresh == s.valid)
    && (forall j :: 0 <= j < |s.calls| && s.calls[j].Answered? ==>
          s.valid.None?
          || s.valid == (if s.calls[j].reply.refresh.Some? then s.calls[j].reply.refresh else s.row.refreshToken))
    && (forall j :: 0 <= j < |s.calls| && s.calls[j].Refused? ==> s.valid.None?)
    && (s.row.needsConsent ==> s.valid.None?)
  }

  lemma OneInFlight(s: State, i: nat, j: nat)
    requires LockInv(s) && i < |s.calls| && j < |s.calls| && InFlight(s.calls[i]) && InFlight(s.calls[j])
    ensures i == j
  {
    assert Holds(s.calls[i]) && Holds(s.calls[j]);
  }

  lemma StepKeepsTokenInv(s: State, e: Event)
    requires LockInv(s) && TokenInv(s) && Enabled(s, e) && Calm(s, e) && Lossless(s, e)
    ensures TokenInv(Step(s, e))
  {
    var r := Step(s, e);
    if CallOf(e).Some? {
      var k := CallOf(e).value;
      forall j | 0 <= j < |s.calls| && InFlight(s.calls[j]) && InFlight(s.calls[k]) ensures j == k {
        OneInFlight(s, j, k);
      }
      if j :| 0 <= j < |s.calls| && s.calls[j].Answered? && s.calls[j].reply.refresh == s.valid {
        if j != k {
          assert r.calls[j] == s.calls[j];
        }
      }
      if e.Answer? {
        assert r.calls[k].Answered?;
      }
    }
  }

  lemma {:induction false} CalmRunKeepsTokenInv(s: State, es: seq<Event>)
    requires LockInv(s) && TokenInv(s) && CanRun(s, es) && CalmRun(s, es) && LosslessRun(s, es)
    ensures TokenInv(Run(s, es))
    decreases |es|
  {
    if es != [] {
      StepKeepsLockInv(s, es[0]);
      StepKeepsTokenInv(s, es[0]);
      CalmRunKeepsTokenInv(Step(s, es[0]), es[1..]);
    }
  }

  /** A mailbox is flagged for re-consent only if the provider really revoked access. */
  lemma ConsentOnlyAfterRevocation(s: State, es: seq<Event>)
    requires Initial(s) && !s.row.needsConsent && s.valid == s.row.refreshToken
    requires CanRun(s, es) && CalmRun(s, es) && LosslessRun(s, es)
    ensures Run(s, es).row.needsConsent ==> Run(s, es).valid.None?
  {
    CalmRunKeepsTokenInv(s, es);
  }

  // ---------------------------------------------------------------- the race that the wait cannot exclude

  lemma RunOne(s: State, e: Event, es: seq<Event>)
    requires Enabled(s, e) && CanRun(Step(s, e), es)
    ensures CanRun(s, [e] + es) && Run(s, [e] + es) == Run(Step(s, e), es)
  {
    assert ([e] + es)[1..] == es;
  }

  /** Call 0 is refreshing while call 1 waits. */
  function Slow(row: Account, now: int): State {
    State(row, now, Some(0), row.refreshToken, [Requesting(row.refreshToken.GetOr(""), true), Waiting(row)])
  }

  /** Two calls at a refreshable mailbox without a fresh token, before either has begun. */
  function TwoCalls(row: Account, now: int): State {
    State(row, now, None, row.refreshToken, [NotStarted, NotStarted])
  }

  /** One wins the lock, the other waits for it. */
  lemma WinnerAndWaiter(row: Account, now: int, rest: seq<Event>) returns (es: seq<Event>)
    requires row.refreshToken.Some? && !row.needsConsent && Cached(row, now).None?
    requires CanRun(Slow(row, now), rest)
    ensures CanRun(TwoCalls(row, now), es) && Run(TwoCalls(row, now), es) == Run(Slow(row, now), rest)
  {
    var s := TwoCalls(row, now);
    var s1 := Step(s, Load(0));
    var s2 := Step(s1, CheckCache(0));
    var s3 := Step(s2, TryLock(0));
    var s4 := Step(s3, DoubleCheck(0));
    assert s4.calls == [Requesting(row.refreshToken.value, true), NotStarted];
    var tail := SecondWaits(row, now, rest);
    RunOne(s3, DoubleCheck(0), tail);
    RunOne(s2, TryLock(0), [DoubleCheck(0)] + tail);
    RunOne(s1, CheckCache(0), [TryLock(0)] + ([DoubleCheck(0)] + tail));
    es := [Load(0)] + ([CheckCache(0)] + ([TryLock(0)] + ([DoubleCheck(0)] + tail)));
    RunOne(s, Load(0), [CheckCache(0)] + ([TryLock(0)] + ([DoubleCheck(0)] + tail)));
  }

  lemma SecondWaits(row: Account, now: int, rest: seq<Event>) returns (es: seq<Event>)
    requires row.refreshToken.Some? && Cached(row, now).None? && CanRun(Slow(row, now), rest)
    ensures var s := Slow(row, now).(calls := [Requesting(row.refreshToken.value, true), NotStarted]);
            CanRun(s, es) && Run(s, es) == Run(Slow(row, now), rest)
  {
    var s := Slow(row, now).(calls := [Requesting(row.refreshToken.value, true), NotStarted]);
    assert At(s, 1, Waiting(row)) == Slow(row, now);
    es := JoinsQueue(s, 1, rest);
  }

  /** From the start: the loser presents the token that the winner's refresh has just superseded, and
      the mailbox is flagged although nobody revoked anything. */
  lemma TimedOutWaiterFlagsHealthyMailbox(row: Account, now: int, reply: Reply) returns (es: seq<Event>)
    requires row.refreshToken.Some? && !row.needsConsent && Cached(row, now).None?
    requires reply.refresh.Some? && reply.refresh != row.refreshToken
    ensures Initial(TwoCalls(row, now)) && CanRun(TwoCalls(row, now), es)
    ensures var r := Run(TwoCalls(row, now), es); r.row.needsConsent && r.valid == reply.refresh
  {
    var s := Slow(row, now);
    var e1, e2 := GiveUpWaiting(1), Answer(0, reply);
    var s1 := Step(s, e1);
    var s2 := Step(s1, e2);
    var rest := RefusalFlags(s2, 1);
    RunOne(s1, e2, rest);
    RunOne(s, e1, [e2] + rest);
    es := WinnerAndWaiter(row, now, [e1] + ([e2] + rest));
  }

  lemma RefusalFlags(s: State, i: nat) returns (es: seq<Event>)
    requires i < |s.calls| && Enabled(s, RefuseToken(i))
    ensures CanRun(s, es) && Run(s, es).row.needsConsent && Run(s, es).valid == s.valid
  {
    var s1 := Step(s, RefuseToken(i));
    RunOne(s1, MarkConsent(i), []);
    RunOne(s, RefuseToken(i), [MarkConsent(i)]);
    es := [RefuseToken(i)] + [MarkConsent(i)];
  }
}
