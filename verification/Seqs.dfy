/** Small vocabulary shared by the models: optional values and sequences used as tables or lists. */
module Seqs {

  datatype Option<+T> = None | Some(value: T) {
    function GetOr(default: T): T {
      match this
      case None => default
      case Some(v) => v
    }
  }

  /** The elements of `s` that satisfy `keep`, in order: a SQL `WHERE` over rows in key order. */
  function Filter<T>(s: seq<T>, keep: T -> bool): (r: seq<T>)
    ensures |r| <= |s|
  {
    if s == [] then []
    else if keep(s[0]) then [s[0]] + Filter(s[1..], keep)
    else Filter(s[1..], keep)
  }

  function Map<T, U>(s: seq<T>, f: T -> U): (r: seq<U>)
    ensures |r| == |s|
    ensures forall i :: 0 <= i < |s| ==> r[i] == f(s[i])
  {
    if s == [] then [] else [f(s[0])] + Map(s[1..], f)
  }

  /** SQL `LIMIT n`. */
  function Take<T>(s: seq<T>, n: nat): (r: seq<T>)
    ensures |r| == if n < |s| then n else |s|
  {
    if n < |s| then s[..n] else s
  }

  function Reverse<T>(s: seq<T>): (r: seq<T>)
    ensures |r| == |s|
  {
    if s == [] then [] else Reverse(s[1..]) + [s[0]]
  }

  lemma {:induction false} FilterMember<T>(s: seq<T>, keep: T -> bool, x: T)
    ensures x in Filter(s, keep) <==> x in s && keep(x)
  {
    if s != [] {
      FilterMember(s[1..], keep, x);
      assert s == [s[0]] + s[1..];
    }
  }

  lemma FilterMembers<T>(s: seq<T>, keep: T -> bool)
    ensures forall x :: x in Filter(s, keep) <==> x in s && keep(x)
  {
    forall x ensures x in Filter(s, keep) <==> x in s && keep(x) {
      FilterMember(s, keep, x);
    }
  }

  lemma {:induction false} FilterAppend<T>(s: seq<T>, t: seq<T>, keep: T -> bool)
    ensures Filter(s + t, keep) == Filter(s, keep) + Filter(t, keep)
  {
    if s == [] {
      assert s + t == t;
    } else {
      assert (s + t)[1..] == s[1..] + t;
      FilterAppend(s[1..], t, keep);
    }
  }

  /** Two predicates that agree on the elements select the same rows. */
  lemma {:induction false} FilterSame<T>(s: seq<T>, p: T -> bool, q: T -> bool)
    requires forall x :: x in s ==> p(x) == q(x)
    ensures Filter(s, p) == Filter(s, q)
  {
    if s != [] {
      assert forall x :: x in s[1..] ==> x in s;
      FilterSame(s[1..], p, q);
    }
  }

  /** Selecting from two stretches of which only one qualifies. */
  lemma FilterHalves<T>(low: seq<T>, high: seq<T>, keep: T -> bool)
    ensures ((forall x :: x in low ==> !keep(x)) && forall x :: x in high ==> keep(x)) ==>
              Filter(low + high, keep) == high
    ensures ((forall x :: x in low ==> keep(x)) && forall x :: x in high ==> !keep(x)) ==>
              Filter(low + high, keep) == low
  {
    FilterAppend(low, high, keep);
    FilterAll(low, keep);
    FilterAll(high, keep);
    if forall x :: x in low ==> !keep(x) {
      FilterNone(low, keep);
    }
    if forall x :: x in high ==> !keep(x) {
      FilterNone(high, keep);
    }
  }

  /** The same, by position. */
  lemma {:induction false} FilterPrefix<T>(s: seq<T>, k: nat, keep: T -> bool)
    requires k <= |s|
    requires forall i :: 0 <= i < k ==> keep(s[i])
    requires forall i :: k <= i < |s| ==> !keep(s[i])
    ensures Filter(s, keep) == s[..k]
  {
    if s != [] {
      if k == 0 {
        FilterPrefix(s[1..], 0, keep);
      } else {
        FilterPrefix(s[1..], k - 1, keep);
        assert s[..k] == [s[0]] + s[1..][..k - 1];
      }
    }
  }

  /** Two selections in a row select by `both`. */
  lemma {:induction false} FilterFilter<T>(s: seq<T>, p: T -> bool, q: T -> bool, both: T -> bool)
    requires forall x :: x in s ==> both(x) == (p(x) && q(x))
    ensures Filter(Filter(s, p), q) == Filter(s, both)
  {
    if s != [] {
      assert forall x :: x in s[1..] ==> x in s;
      FilterFilter(s[1..], p, q, both);
      if p(s[0]) {
        assert ([s[0]] + Filter(s[1..], p))[1..] == Filter(s[1..], p);
      }
    }
  }

  /** Nothing is dropped when every element qualifies; everything is when none does. */
  lemma {:induction false} FilterAll<T>(s: seq<T>, keep: T -> bool)
    ensures (forall x :: x in s ==> keep(x)) <==> Filter(s, keep) == s
  {
    if s != [] {
      FilterAll(s[1..], keep);
      assert s == [s[0]] + s[1..];
      if Filter(s, keep) == s {
        FilterMembers(s, keep);
        assert forall x :: x in s ==> x in Filter(s, keep);
      }
    }
  }

  lemma {:induction false} FilterNone<T>(s: seq<T>, keep: T -> bool)
    requires forall x :: x in s ==> !keep(x)
    ensures Filter(s, keep) == []
  {
    if s != [] {
      assert forall x :: x in s[1..] ==> x in s;
      FilterNone(s[1..], keep);
    }
  }

  lemma {:induction false} FilterLengths<T>(s: seq<T>, p: T -> bool, notP: T -> bool)
    requires forall x :: x in s ==> notP(x) == !p(x)
    ensures |Filter(s, p)| + |Filter(s, notP)| == |s|
  {
    if s != [] {
      assert forall x :: x in s[1..] ==> x in s;
      FilterLengths(s[1..], p, notP);
    }
  }

  /** The positions before `i` whose elements qualify. */
  ghost function Before<T>(s: seq<T>, i: nat, keep: T -> bool): set<int>
    requires i <= |s|
  {
    set k | 0 <= k < i && keep(s[k])
  }

  /** As many elements are selected as there are positions that qualify. */
  lemma {:induction false} FilterCount<T>(s: seq<T>, i: nat, keep: T -> bool)
    requires i <= |s|
    ensures |Filter(s[..i], keep)| == |Before(s, i, keep)|
  {
    if i == 0 {
      assert Before(s, 0, keep) == {};
    } else {
      FilterCount(s, i - 1, keep);
      assert s[..i] == s[..i - 1] + [s[i - 1]];
      FilterAppend(s[..i - 1], [s[i - 1]], keep);
      assert Before(s, i, keep) == Before(s, i - 1, keep) + (if keep(s[i - 1]) then {i - 1} else {});
    }
  }

  /** A `WHERE` with a `LIMIT` returns the rows that qualify and have fewer than the limit before them. */
  lemma {:induction false} LimitedMember<T>(s: seq<T>, keep: T -> bool, limit: nat, x: T)
    ensures x in Take(Filter(s, keep), limit)
            <==> exists i :: 0 <= i < |s| && s[i] == x && keep(s[i]) && |Before(s, i, keep)| < limit
  {
    if s != [] {
      var k := |s| - 1;
      var init, last := s[..k], s[k];
      LimitedMember(init, keep, limit, x);
      FilterCount(s, k, keep);
      FilterAppend(init, [last], keep);
      assert s == init + [last];
      forall i | 0 <= i < k ensures Before(init, i, keep) == Before(s, i, keep) && init[i] == s[i] {}
      assert Take(Filter(s, keep), limit)
             == Take(Filter(init, keep), limit)
                + (if keep(last) && |Before(s, k, keep)| < limit then [last] else []);
    }
  }

  lemma {:induction false} ReverseAppend<T>(s: seq<T>, t: seq<T>)
    ensures Reverse(s + t) == Reverse(t) + Reverse(s)
  {
    if s == [] {
      assert s + t == t;
    } else {
      assert (s + t)[1..] == s[1..] + t;
      ReverseAppend(s[1..], t);
    }
  }

  lemma {:induction false} ReverseReverse<T>(s: seq<T>)
    ensures Reverse(Reverse(s)) == s
  {
    if s != [] {
      ReverseAppend(Reverse(s[1..]), [s[0]]);
      ReverseReverse(s[1..]);
      assert Reverse([s[0]]) == [s[0]];
    }
  }

  lemma {:induction false} ReverseMember<T>(s: seq<T>, x: T)
    ensures x in Reverse(s) <==> x in s
  {
    if s != [] {
      ReverseMember(s[1..], x);
      assert s == [s[0]] + s[1..];
    }
  }
}
