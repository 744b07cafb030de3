/** The fixed-window rate limiter: one Redis counter per key, INCR then EXPIRE NX. */
module RateLimit {
  import opened Seqs

  datatype Limit = Limit(name: string, capacity: nat, window: nat)

  /** A Redis counter; `expiresAt` is None while no TTL is set. */
  datatype Counter = Counter(count: nat, expiresAt: Option<int>)

  datatype Decision = Admitted | Limited(retryAfter: int) | NoKey

  /** Redis drops a key once its expiry time has passed. */
  predicate Expired(c: Counter, now: int) {
    c.expiresAt.Some? && now > c.expiresAt.value
  }

  function Visible(c: Option<Counter>, now: int): Option<Counter> {
    if c.Some? && !Expired(c.value, now) then c else None
  }

  function Incremented(c: Option<Counter>, now: int): Counter {
    match Visible(c, now)
    case None => Counter(1, None)
    case Some(k) => k.(count := k.count + 1)
  }

  function ExpireNx(c: Counter, now: int, window: nat): Counter {
    if c.expiresAt.None? then c.(expiresAt := Some(now + window)) else c
  }

  /** One undisturbed request: a process that dies between the two commands leaves only the increment. */
  function Hit(c: Option<Counter>, now: int, window: nat, crashed: bool): Counter {
    var inc := Incremented(c, now);
    if crashed then inc else ExpireNx(inc, now, window)
  }

  class RateLimiter {
    var counters: map<(string, string), Counter>

    function At(k: (string, string)): Option<Counter>
      reads this
    {
      if k in counters then Some(counters[k]) else None
    }

    constructor ()
      ensures counters == map[]
    {
      counters := map[];
    }

    /** Requests without a key are not counted. For the others exactly one counter moves: it starts at one
        where there was none or its time had passed, counts on otherwise, and keeps a time that is already
        set. The request passes if and only if the count is within capacity. */
    method Consume(limit: Limit, key: string, now: int) returns (d: Decision)
      modifies this
      ensures key == "" ==> d == NoKey && counters == old(counters)
      ensures key != "" ==>
                var k := (limit.name, key);
                var was := old(counters);
                var gone := k !in was || (was[k].expiresAt.Some? && was[k].expiresAt.value < now);
                && k in counters && counters == was[k := counters[k]]
                && counters[k].count == (if gone then 1 else was[k].count + 1)
                && counters[k].expiresAt == (if gone || was[k].expiresAt.None? then Some(now + limit.window)
                                             else was[k].expiresAt)
                && (d == Admitted <==> counters[k].count <= limit.capacity)
                && (d != Admitted ==>
                      d == Limited(if counters[k].expiresAt.value > now then counters[k].expiresAt.value - now
                                   else limit.window))
      ensures key != "" ==>
                var k := (limit.name, key); counters[k] == Hit(old(At(k)), now, limit.window, false)
    {
      if key == "" { return NoKey; }
      var k := (limit.name, key);
      Incr(k, now);
      var current := counters[k].count;
      Expire(k, now, limit.window);
      if current > limit.capacity {
        var ttl := counters[k].expiresAt.value - now;
        d := Limited(if ttl > 0 then (if ttl > 1 then ttl else 1) else limit.window);
      } else {
        d := Admitted;
      }
    }

    method Incr(k: (string, string), now: int)
      modifies this
      ensures counters == old(counters)[k := Hit(old(At(k)), now, 0, true)]
    {
      var c := Visible(At(k), now);
      counters := counters[k := if c.Some? then c.value.(count := c.value.count + 1) else Counter(1, None)];
    }

    method Expire(k: (string, string), now: int, window: nat)
      requires k in counters
      modifies this
      ensures counters == old(counters)[k := ExpireNx(old(counters)[k], now, window)]
    {
      if counters[k].expiresAt.None? {
        counters := counters[k := counters[k].(expiresAt := Some(now + window))];
      }
    }
  }

  // ---------------------------------------------------------------- runs at one key

  /** The commands that reach one key, in order: the two of a request may have those of others between
      them, and the second never comes if its process dies. */
  datatype Command = Incr(time: int) | Expire(time: int)

  function Touch(c: Option<Counter>, e: Command, window: nat): Option<Counter> {
    match e
    case Incr(t) => Some(Incremented(c, t))
    case Expire(t) => if Visible(c, t).None? then None else Some(ExpireNx(Visible(c, t).value, t, window))
  }

  /** The counter, which lifetime of it this is (1, 2, ...; 0 before the first) and when that began. */
  datatype Point = Point(counter: Option<Counter>, life: nat, born: int)

  ghost predicate InTimeOrder(es: seq<Command>) {
    forall i, j :: 0 <= i < j < |es| ==> es[i].time <= es[j].time
  }

  /** After the first `n` commands. */
  function After(es: seq<Command>, n: nat, window: nat): Point
    requires n <= |es|
  {
    if n == 0 then Point(None, 0, 0)
    else
      var e, p := es[n - 1], After(es, n - 1, window);
      var c := Touch(p.counter, e, window);
      if e.Incr? && Visible(p.counter, e.time).None? then Point(c, p.life + 1, e.time) else Point(c, p.life, p.born)
  }

  /** The INCR at position `n` leaves the count within capacity: its request passes, if it lives on. */
  predicate Passed(es: seq<Command>, n: nat, limit: Limit)
    requires n < |es|
  {
    es[n].Incr? && After(es, n + 1, limit.window).counter.value.count <= limit.capacity
  }

  lemma {:induction false} AfterPrefix(es: seq<Command>, more: seq<Command>, n: nat, window: nat)
    requires n <= |es|
    ensures After(es + more, n, window) == After(es, n, window)
  {
    if n > 0 {
      AfterPrefix(es, more, n - 1, window);
    }
  }

  /** An undisturbed request is its two commands in a row. */
  lemma HitIsTwoCommands(es: seq<Command>, now: int, window: nat)
    ensures After(es + [Incr(now), Expire(now)], |es| + 2, window).counter
            == Some(Hit(After(es, |es|, window).counter, now, window, false))
    ensures After(es + [Incr(now)], |es| + 1, window).counter
            == Some(Hit(After(es, |es|, window).counter, now, window, true))
  {
    AfterPrefix(es, [Incr(now), Expire(now)], |es|, window);
    AfterPrefix(es, [Incr(now)], |es|, window);
    var two := es + [Incr(now), Expire(now)];
    assert After(two, |es| + 1, window).counter == Some(Incremented(After(es, |es|, window).counter, now));
  }

  /** How many of the first `n` indices satisfy `p`. */
  ghost function CountIf(n: nat, p: nat -> bool): nat {
    if n == 0 then 0 else CountIf(n - 1, p) + (if p(n - 1) then 1 else 0)
  }

  lemma {:induction false} CountUnion(n: nat, p: nat -> bool, q: nat -> bool, r: nat -> bool)
    requires forall i :: 0 <= i < n && p(i) ==> q(i) || r(i)
    ensures CountIf(n, p) <= CountIf(n, q) + CountIf(n, r)
  {
    if n > 0 {
      CountUnion(n - 1, p, q, r);
    }
  }

  ghost predicate PassedInLife(es: seq<Command>, limit: Limit, life: nat, i: nat) {
    i < |es| && After(es, i + 1, limit.window).life == life && Passed(es, i, limit)
  }

  lemma {:induction false} PerLifetime(es: seq<Command>, limit: Limit, life: nat, n: nat)
    requires n <= |es|
    ensures var c, p := CountIf(n, (i: nat) => PassedInLife(es, limit, life, i)), After(es, n, limit.window);
            && c <= limit.capacity
            && (p.life == life && p.counter.Some? ==> c <= p.counter.value.count)
            && (p.life == 0 ==> p.counter.None?)
            && (p.life < life || life == 0 ==> c == 0)
  {
    if n > 0 {
      PerLifetime(es, limit, life, n - 1);
    }
  }

  /** At most `capacity` requests pass during one lifetime of the counter. */
  lemma AtMostCapacityPerLifetime(es: seq<Command>, limit: Limit, life: nat)
    ensures CountIf(|es|, (i: nat) => PassedInLife(es, limit, life, i)) <= limit.capacity
  {
    PerLifetime(es, limit, life, |es|);
  }

  /** EXPIRE NX never shortens or extends a lifetime once its TTL is set: a TTL always ends at
      least one window after the lifetime began, and a counter that is gone has lived that long. */
  lemma {:induction false} LifetimeLastsAWindow(es: seq<Command>, n: nat, window: nat)
    requires InTimeOrder(es) && n < |es|
    ensures var p, now := After(es, n + 1, window), es[n].time;
            p.life > 0 ==>
              && p.born <= now
              && (p.counter.Some? && p.counter.value.expiresAt.Some? ==>
                    p.counter.value.expiresAt.value >= p.born + window)
              && (p.counter.Some? && es[n].Expire? ==> p.counter.value.expiresAt.Some?)
              && (p.counter.None? ==> now > p.born + window)
    ensures After(es, n + 1, window).life == 0 ==> After(es, n + 1, window).counter.None?
  {
    if n > 0 {
      LifetimeLastsAWindow(es, n - 1, window);
    }
  }

  lemma {:induction false} LaterLifetimes(es: seq<Command>, i: nat, j: nat, window: nat)
    requires InTimeOrder(es) && i <= j < |es| && After(es, i + 1, window).life > 0
    ensures var p, q := After(es, i + 1, window), After(es, j + 1, window);
            && p.life <= q.life
            && (q.life == p.life + 1 ==> q.born >= es[i].time)
            && (q.life >= p.life + 2 ==> q.born > es[i].time + window)
    decreases j
  {
    if i < j {
      LaterLifetimes(es, i, j - 1, window);
      LifetimeLastsAWindow(es, j - 1, window);
    }
  }

  ghost predicate PassedWithin(es: seq<Command>, limit: Limit, from: int, i: nat) {
    i < |es| && from <= es[i].time <= from + limit.window && Passed(es, i, limit)
  }

  /** A later hit also repairs a counter that lost its TTL to a crash. */
  lemma RepairsMissingTtl(c: Counter, now: int, window: nat)
    requires c.expiresAt.None?
    ensures Hit(Some(c), now, window, false).expiresAt == Some(now + window)
  {}

  /** The time set on a counter lies at most one window after the last command. */
  lemma {:induction false} TimeIsNear(es: seq<Command>, n: nat, window: nat)
    requires InTimeOrder(es) && n < |es|
    ensures var c := After(es, n + 1, window).counter;
            c.Some? && c.value.expiresAt.Some? ==> c.value.expiresAt.value <= es[n].time + window
  {
    if n > 0 {
      TimeIsNear(es, n - 1, window);
    }
  }

  /** After more than a window without requests the count starts again, so a request passes whenever the
      capacity allows one at all: unless the last request died before its second command on a counter
      without a time, and then only the count goes on. */
  lemma QuietWindowReopens(es: seq<Command>, now: int, limit: Limit)
    requires InTimeOrder(es) && es != [] && now > es[|es| - 1].time + limit.window
    ensures var c := After(es, |es|, limit.window).counter;
            After(es + [Incr(now)], |es| + 1, limit.window).counter
            == if c.Some? && c.value.expiresAt.None? then Some(Counter(c.value.count + 1, None))
                    else Some(Counter(1, None))
    ensures es[|es| - 1].Expire? ==>
              && After(es + [Incr(now)], |es| + 1, limit.window).counter == Some(Counter(1, None))
              && (Passed(es + [Incr(now)], |es|, limit) <==> limit.capacity >= 1)
  {
    AfterPrefix(es, [Incr(now)], |es|, limit.window);
    TimeIsNear(es, |es| - 1, limit.window);
    LifetimeLastsAWindow(es, |es| - 1, limit.window);
  }

  /** In any interval as long as the window, both ends included, at most twice the capacity passes,
      whatever the request times, crashes and interleavings. */
  lemma AtMostTwiceCapacityPerWindow(es: seq<Command>, limit: Limit, from: int)
    requires InTimeOrder(es)
    ensures CountIf(|es|, (i: nat) => PassedWithin(es, limit, from, i)) <= 2 * limit.capacity
  {
    var within := (i: nat) => PassedWithin(es, limit, from, i);
    if k: nat :| k < |es| && within(k) && forall i: nat :: i < k ==> !within(i) {
      var life := After(es, k + 1, limit.window).life;
      LifetimeLastsAWindow(es, k, limit.window);
      forall i: nat | i < |es| && within(i)
        ensures PassedInLife(es, limit, life, i) || PassedInLife(es, limit, life + 1, i)
      {
        LaterLifetimes(es, k, i, limit.window);
        LifetimeLastsAWindow(es, i, limit.window);
      }
      CountUnion(|es|, within, (i: nat) => PassedInLife(es, limit, life, i),
                 (i: nat) => PassedInLife(es, limit, life + 1, i));
      AtMostCapacityPerLifetime(es, limit, life);
      AtMostCapacityPerLifetime(es, limit, life + 1);
    } else {
      NoneBefore(|es|, within, |es|);
      NoneCounted(|es|, within);
    }
  }

  lemma {:induction false} NoneBefore(count: nat, p: nat -> bool, n: nat)
    requires n <= count
    requires !exists k: nat :: k < count && p(k) && forall i: nat :: i < k ==> !p(i)
    ensures forall i: nat :: i < n ==> !p(i)
  {
    if n > 0 {
      NoneBefore(count, p, n - 1);
    }
  }

  lemma {:induction false} NoneCounted(n: nat, p: nat -> bool)
    requires forall i: nat :: i < n ==> !p(i)
    ensures CountIf(n, p) == 0
  {
    if n > 0 {
      NoneCounted(n - 1, p);
    }
  }
}
