/** Keyset paging of the external pull API, in both directions. */
module Paging {
  import opened Seqs
  import opened Messages

  // ---------------------------------------------------------------- request validation

  datatype Refusal = BadOrder | BadBeforeId | BadSinceId | BadCursor

  /** The checks in their fixed order; None accepts. */
  function ValidateMode(order: string, since: int, before: Option<int>): Option<Refusal> {
    if order != "asc" && order != "desc" then Some(BadOrder)
    else if order == "asc" && before.Some? then Some(BadBeforeId)
    else if order == "desc" && since != 0 then Some(BadSinceId)
    else if since != 0 && before.Some? then Some(BadCursor)
    else if before.Some? && before.value < 1 then Some(BadBeforeId)
    else None
  }

  /** What is accepted, and that the explicit both-cursors check never fires. */
  lemma AcceptedRequests(order: string, since: int, before: Option<int>)
    ensures ValidateMode(order, since, before).None? <==>
            || (order == "asc" && before.None?)
            || (order == "desc" && since == 0 && (before.None? || before.value >= 1))
    ensures ValidateMode(order, since, before) != Some(BadCursor)
    ensures ValidateMode(order, since, before) == Some(BadOrder) <==> order !in {"asc", "desc"}
    ensures ValidateMode(order, since, before) == Some(BadSinceId) <==> order == "desc" && since != 0
    ensures ValidateMode(order, since, before) == Some(BadBeforeId) <==>
            before.Some? && (order == "asc" || (order == "desc" && since == 0 && before.value < 1))
  {}

  /** The canonical mailboxes, narrowed by a filter that counts only when it is not empty. */
  function ResolveAccountIds(canonical: set<int>, wanted: seq<int>): set<int> {
    if wanted == [] then canonical else canonical * (set a | a in wanted)
  }

  // ---------------------------------------------------------------- one page

  predicate After(m: Message, accounts: set<int>, since: int) {
    m.account in accounts && m.id > since
  }

  predicate Before(m: Message, accounts: set<int>, before: Option<int>) {
    m.account in accounts && (before.Some? ==> m.id < before.value)
  }

  function AllAfter(t: Table, accounts: set<int>, since: int): Table {
    Filter(t, (m: Message) => After(m, accounts, since))
  }

  function AllBefore(t: Table, accounts: set<int>, before: Option<int>): Table {
    Filter(t, (m: Message) => Before(m, accounts, before))
  }

  /** WHERE id > since AND account IN (...) ORDER BY id LIMIT limit. */
  function ListSince(t: Table, accounts: set<int>, since: int, limit: nat): Table {
    if accounts == {} then [] else Take(AllAfter(t, accounts, since), limit)
  }

  /** WHERE id < before AND account IN (...) ORDER BY id DESC LIMIT limit. */
  function ListBefore(t: Table, accounts: set<int>, before: Option<int>, limit: nat): Table {
    if accounts == {} then [] else Take(Reverse(AllBefore(t, accounts, before)), limit)
  }

  datatype Page<Cursor> = Page(rows: Table, next: Cursor, hasMore: bool)

  function ListForward(t: Table, accounts: set<int>, since: int, limit: nat): Page<int> {
    var rows := ListSince(t, accounts, since, limit);
    Page(rows, if rows == [] then since else rows[|rows| - 1].id, |rows| == limit)
  }

  function ListBackward(t: Table, accounts: set<int>, before: Option<int>, limit: nat): Page<Option<int>> {
    var rows := ListBefore(t, accounts, before, limit);
    Page(rows, if rows == [] then None else Some(rows[|rows| - 1].id), |rows| == limit)
  }

  /** With no mailbox nothing matches, so skipping the query changes nothing. */
  lemma NoAccountsNoRows(t: Table, accounts: set<int>, since: int, before: Option<int>)
    ensures accounts == {} ==> AllAfter(t, accounts, since) == [] && AllBefore(t, accounts, before) == []
  {
    if accounts == {} {
      FilterNone(t, (m: Message) => After(m, accounts, since));
      FilterNone(t, (m: Message) => Before(m, accounts, before));
    }
  }

  /** A forward page is the part of the matching rows between the two cursors. */
  lemma ForwardPageIs(t: Table, accounts: set<int>, since: int, limit: nat, m: Message)
    requires Sorted(t) && limit >= 1
    ensures var p := ListForward(t, accounts, since, limit);
            && p.next >= since
            && (m in p.rows <==> m in t && After(m, accounts, since) && m.id <= p.next)
            && (!p.hasMore && m in t && After(m, accounts, since) ==> m in p.rows)
            && Sorted(p.rows)
  {
    NoAccountsNoRows(t, accounts, since, None);
    var all := AllAfter(t, accounts, since);
    FilterMembers(t, (x: Message) => After(x, accounts, since));
    FilterSorted(t, (x: Message) => After(x, accounts, since));
    var p := ListForward(t, accounts, since, limit);
    assert p.rows == all[..|p.rows|];
    if p.rows != [] {
      assert p.rows[|p.rows| - 1] in all;
    }
    if m in all && m.id <= p.next {
      var i :| 0 <= i < |all| && all[i] == m;
      assert p.rows != [] ==> p.next == all[|p.rows| - 1].id;
    }
  }

  /** The rows before position `i` that the request asks for. */
  ghost function Ahead(t: Table, i: nat, accounts: set<int>, since: int): set<int>
    requires i <= |t|
  {
    set k | 0 <= k < i && t[k].account in accounts && t[k].id > since
  }

  /** Which rows a page holds: those asked for that have fewer than `limit` such rows before them. There
      may be more exactly when the page is full. */
  lemma ForwardPageHolds(t: Table, accounts: set<int>, since: int, limit: nat, m: Message)
    ensures var p := ListForward(t, accounts, since, limit);
            && (m in p.rows <==>
                  exists i :: 0 <= i < |t| && t[i] == m && m.account in accounts && m.id > since
                              && |Ahead(t, i, accounts, since)| < limit)
            && (p.hasMore <==> |p.rows| == limit)
  {
    NoAccountsNoRows(t, accounts, since, None);
    var wanted := (x: Message) => After(x, accounts, since);
    LimitedMember(t, wanted, limit, m);
    forall i | 0 <= i <= |t| ensures Seqs.Before(t, i, wanted) == Ahead(t, i, accounts, since) {}
    assert m in ListForward(t, accounts, since, limit).rows
           <==> exists i :: 0 <= i < |t| && t[i] == m && wanted(t[i]) && |Seqs.Before(t, i, wanted)| < limit;
  }

  // ---------------------------------------------------------------- following next_since_id

  /** `stores[k]` is the table that request `k` sees; the cursor that request carries. */
  function Cursor(stores: seq<Table>, accounts: set<int>, limit: nat, k: nat): int
    requires k <= |stores|
    decreases k
  {
    if k == 0 then 0
    else ListForward(stores[k - 1], accounts, Cursor(stores, accounts, limit, k - 1), limit).next
  }

  function PageAt(stores: seq<Table>, accounts: set<int>, limit: nat, k: nat): Page<int>
    requires k < |stores|
  {
    ListForward(stores[k], accounts, Cursor(stores, accounts, limit, k), limit)
  }

  /** The rows of the first `k` pages, in order. */
  function Pulled(stores: seq<Table>, accounts: set<int>, limit: nat, k: nat): Table
    requires k <= |stores|
    decreases k
  {
    if k == 0 then [] else Pulled(stores, accounts, limit, k - 1) + PageAt(stores, accounts, limit, k - 1).rows
  }

  ghost predicate AllSorted(stores: seq<Table>) {
    forall k :: 0 <= k < |stores| ==> Sorted(stores[k])
  }

  lemma {:induction false} CursorGrows(stores: seq<Table>, accounts: set<int>, limit: nat, j: nat, k: nat)
    requires AllSorted(stores) && limit >= 1 && j <= k <= |stores|
    ensures 0 <= Cursor(stores, accounts, limit, j) <= Cursor(stores, accounts, limit, k)
    decreases k
  {
    if k > 0 {
      var c := Cursor(stores, accounts, limit, k - 1);
      ForwardPageIs(stores[k - 1], accounts, c, limit, Message(0, 0, 0, 0, 0, 0, None, ""));
      if j < k {
        CursorGrows(stores, accounts, limit, j, k - 1);
      } else {
        CursorGrows(stores, accounts, limit, 0, k - 1);
      }
    }
  }

  /** Every pulled row came from some page. */
  lemma {:induction false} PulledFrom(stores: seq<Table>, accounts: set<int>, limit: nat, k: nat, m: Message)
    returns (i: nat)
    requires k <= |stores| && m in Pulled(stores, accounts, limit, k)
    ensures i < k && m in PageAt(stores, accounts, limit, i).rows
    decreases k
  {
    if m in PageAt(stores, accounts, limit, k - 1).rows {
      i := k - 1;
    } else {
      i := PulledFrom(stores, accounts, limit, k - 1, m);
    }
  }

  lemma PageIsAhead(stores: seq<Table>, accounts: set<int>, limit: nat, k: nat, m: Message)
    requires AllSorted(stores) && limit >= 1 && k < |stores| && m in PageAt(stores, accounts, limit, k).rows
    ensures Cursor(stores, accounts, limit, k) < m.id <= Cursor(stores, accounts, limit, k + 1)
  {
    ForwardPageIs(stores[k], accounts, Cursor(stores, accounts, limit, k), limit, m);
  }

  lemma PageBehind(stores: seq<Table>, accounts: set<int>, limit: nat, i: nat, k: nat, m: Message)
    requires AllSorted(stores) && limit >= 1 && i < k <= |stores| && m in PageAt(stores, accounts, limit, i).rows
    ensures 0 < m.id <= Cursor(stores, accounts, limit, k)
  {
    hide *;
    PageIsAhead(stores, accounts, limit, i, m);
    CursorGrows(stores, accounts, limit, 0, i);
    CursorGrows(stores, accounts, limit, i + 1, k);
  }

  /** The id of every pulled row is behind the cursor. */
  lemma PulledBehind(stores: seq<Table>, accounts: set<int>, limit: nat, k: nat, m: Message)
    requires AllSorted(stores) && limit >= 1 && k <= |stores| && m in Pulled(stores, accounts, limit, k)
    ensures 0 < m.id <= Cursor(stores, accounts, limit, k)
  {
    var i := PulledFrom(stores, accounts, limit, k, m);
    PageBehind(stores, accounts, limit, i, k, m);
  }

  /** No row twice, and in id order - whatever happens to the table between the pages. */
  lemma {:induction false} PulledInOrder(stores: seq<Table>, accounts: set<int>, limit: nat, k: nat)
    requires AllSorted(stores) && limit >= 1 && k <= |stores|
    ensures Sorted(Pulled(stores, accounts, limit, k))
    decreases k
  {
    if k > 0 {
      PulledInOrder(stores, accounts, limit, k - 1);
      var before, page := Pulled(stores, accounts, limit, k - 1), PageAt(stores, accounts, limit, k - 1).rows;
      var c := Cursor(stores, accounts, limit, k - 1);
      forall m | m in before ensures m.id <= c {
        PulledBehind(stores, accounts, limit, k - 1, m);
      }
      forall m ensures (m in page ==> m.id > c) && Sorted(page) {
        ForwardPageIs(stores[k - 1], accounts, c, limit, m);
      }
    }
  }

  /** Some row with this id is visible and matches. */
  ghost predicate Visible(t: Table, accounts: set<int>, id: int) {
    exists m :: m in t && m.id == id && m.account in accounts
  }

  ghost predicate PulledId(stores: seq<Table>, accounts: set<int>, limit: nat, k: nat, id: int)
    requires k <= |stores|
  {
    HasId(Pulled(stores, accounts, limit, k), id)
  }

  /** The id became visible at request `j` although the cursor had already passed it. */
  ghost predicate Late(stores: seq<Table>, accounts: set<int>, limit: nat, j: nat, id: int)
    requires 0 < j < |stores|
  {
    && Visible(stores[j], accounts, id) && !Visible(stores[j - 1], accounts, id)
    && id <= Cursor(stores, accounts, limit, j)
  }

  lemma PageHasVisible(stores: seq<Table>, accounts: set<int>, limit: nat, k: nat, id: int)
    requires AllSorted(stores) && limit >= 1 && k < |stores|
    requires Visible(stores[k], accounts, id) && id > Cursor(stores, accounts, limit, k)
    requires id <= Cursor(stores, accounts, limit, k + 1) || !PageAt(stores, accounts, limit, k).hasMore
    ensures PulledId(stores, accounts, limit, k + 1, id)
  {
    var m :| m in stores[k] && m.id == id && m.account in accounts;
    ForwardPageIs(stores[k], accounts, Cursor(stores, accounts, limit, k), limit, m);
    assert m in Pulled(stores, accounts, limit, k + 1);
  }

  /** Without late ids everything visible behind the cursor has been delivered. */
  lemma {:induction false} NothingMissedBehind(stores: seq<Table>, accounts: set<int>, limit: nat, k: nat, id: int)
    requires AllSorted(stores) && limit >= 1 && k < |stores|
    requires forall j :: 0 < j <= k ==> !Late(stores, accounts, limit, j, id)
    requires Visible(stores[k], accounts, id) && 0 < id <= Cursor(stores, accounts, limit, k)
    ensures PulledId(stores, accounts, limit, k, id)
    decreases k
  {
    if k > 0 {
      assert !Late(stores, accounts, limit, k, id);
      if id <= Cursor(stores, accounts, limit, k - 1) {
        NothingMissedBehind(stores, accounts, limit, k - 1, id);
        var m :| m in Pulled(stores, accounts, limit, k - 1) && m.id == id;
        assert m in Pulled(stores, accounts, limit, k);
      } else {
        PageHasVisible(stores, accounts, limit, k - 1, id);
      }
    }
  }

  /** Ids are never reused: once gone, an id stays gone. */
  ghost predicate NeverReturn(stores: seq<Table>, accounts: set<int>) {
    forall i, j, k, id :: 0 <= i < j < k < |stores|
      && Visible(stores[i], accounts, id) && !Visible(stores[j], accounts, id)
      ==> !Visible(stores[k], accounts, id)
  }

  /** A pulled id was visible to one request and ahead of the cursor it carried. */
  lemma PulledWasAhead(stores: seq<Table>, accounts: set<int>, limit: nat, n: nat, id: int) returns (i: nat)
    requires AllSorted(stores) && limit >= 1 && n <= |stores| && PulledId(stores, accounts, limit, n, id)
    ensures i < n && Visible(stores[i], accounts, id) && id > Cursor(stores, accounts, limit, i)
  {
    var m :| m in Pulled(stores, accounts, limit, n) && m.id == id;
    i := PulledFrom(stores, accounts, limit, n, m);
    ForwardPageIs(stores[i], accounts, Cursor(stores, accounts, limit, i), limit, m);
  }

  lemma LateIsNeverPulled(stores: seq<Table>, accounts: set<int>, limit: nat, j: nat, n: nat, id: int)
    requires AllSorted(stores) && limit >= 1 && NeverReturn(stores, accounts)
    requires 0 < j < n <= |stores| && Late(stores, accounts, limit, j, id)
    ensures !PulledId(stores, accounts, limit, n, id)
  {
    if PulledId(stores, accounts, limit, n, id) {
      var i := PulledWasAhead(stores, accounts, limit, n, id);
      if i >= j {
        CursorGrows(stores, accounts, limit, j, i);
      }
      assert false;
    }
  }

  /** A pull that ended with has_more false delivered a surviving message exactly when its id did
      not first become visible behind the cursor. */
  lemma DeliveredIff(stores: seq<Table>, accounts: set<int>, limit: nat, id: int)
    requires AllSorted(stores) && limit >= 1 && NeverReturn(stores, accounts)
    requires stores != [] && !PageAt(stores, accounts, limit, |stores| - 1).hasMore
    requires id > 0 && Visible(stores[|stores| - 1], accounts, id)
    ensures PulledId(stores, accounts, limit, |stores|, id) <==>
            forall j :: 0 < j < |stores| ==> !Late(stores, accounts, limit, j, id)
  {
    var n := |stores|;
    if j :| 0 < j < n && Late(stores, accounts, limit, j, id) {
      LateIsNeverPulled(stores, accounts, limit, j, n, id);
    } else {
      PunctualIsPulled(stores, accounts, limit, id);
    }
  }

  lemma PunctualIsPulled(stores: seq<Table>, accounts: set<int>, limit: nat, id: int)
    requires AllSorted(stores) && limit >= 1
    requires stores != [] && !PageAt(stores, accounts, limit, |stores| - 1).hasMore
    requires id > 0 && Visible(stores[|stores| - 1], accounts, id)
    requires forall j :: 0 < j < |stores| ==> !Late(stores, accounts, limit, j, id)
    ensures PulledId(stores, accounts, limit, |stores|, id)
  {
    var k := |stores| - 1;
    if id > Cursor(stores, accounts, limit, k) {
      PageHasVisible(stores, accounts, limit, k, id);
    } else {
      NothingMissedBehind(stores, accounts, limit, k, id);
      var m :| m in Pulled(stores, accounts, limit, k) && m.id == id;
      assert m in Pulled(stores, accounts, limit, k + 1);
    }
  }

  /** New ids are larger than every id seen before. */
  ghost predicate InsertsInOrder(stores: seq<Table>, accounts: set<int>) {
    forall i, j, k, a, id {:trigger Visible(stores[i], accounts, a), Visible(stores[j], accounts, id),
                                 Visible(stores[k], accounts, id)} ::
      0 <= i < j && k == j - 1 && j < |stores| && Visible(stores[i], accounts, a)
      && Visible(stores[j], accounts, id) && !Visible(stores[k], accounts, id)
      ==> id > a
  }

  lemma NextWasVisible(t: Table, accounts: set<int>, since: int, limit: nat)
    ensures var next := ListForward(t, accounts, since, limit).next;
            next == since || Visible(t, accounts, next)
  {
    var rows := ListSince(t, accounts, since, limit);
    if rows != [] {
      var last := AllAfter(t, accounts, since)[|rows| - 1];
      FilterMember(t, (m: Message) => After(m, accounts, since), last);
      assert last in t && last.id == ListForward(t, accounts, since, limit).next;
    }
  }

  lemma {:induction false} CursorWasVisible(stores: seq<Table>, accounts: set<int>, limit: nat, k: nat)
    requires k <= |stores|
    ensures var c := Cursor(stores, accounts, limit, k);
            c == 0 || exists i :: 0 <= i < k && Visible(stores[i], accounts, c)
    decreases k
  {
    if k > 0 {
      CursorWasVisible(stores, accounts, limit, k - 1);
      NextWasVisible(stores[k - 1], accounts, Cursor(stores, accounts, limit, k - 1), limit);
    }
  }

  /** Completeness while higher ids are added and rows deleted between the pages. */
  lemma PullIsComplete(stores: seq<Table>, accounts: set<int>, limit: nat, id: int)
    requires AllSorted(stores) && limit >= 1 && NeverReturn(stores, accounts) && InsertsInOrder(stores, accounts)
    requires stores != [] && !PageAt(stores, accounts, limit, |stores| - 1).hasMore
    requires id > 0 && Visible(stores[|stores| - 1], accounts, id)
    ensures PulledId(stores, accounts, limit, |stores|, id)
  {
    forall j | 0 < j < |stores| ensures !Late(stores, accounts, limit, j, id) {
      CursorWasVisible(stores, accounts, limit, j);
      CursorGrows(stores, accounts, limit, 0, j);
    }
    DeliveredIff(stores, accounts, limit, id);
  }

  /** Two inserts whose transactions commit in the other order: id 1 is lost. */
  lemma OutOfOrderCommitIsLost(a: Message, b: Message)
    requires a.id == 1 && b.id == 2 && a.account == b.account
    ensures var stores, accounts := [[b], [a, b]], {a.account};
            && AllSorted(stores) && !PageAt(stores, accounts, 5, 1).hasMore
            && Visible(stores[1], accounts, 1) && !PulledId(stores, accounts, 5, 2, 1)
  {
    var stores, accounts := [[b], [a, b]], {a.account};
    assert AllAfter([b], accounts, 0) == [b] by { FilterAll([b], (m: Message) => After(m, accounts, 0)); }
    assert Cursor(stores, accounts, 5, 1) == 2;
    FilterNone([a, b], (m: Message) => After(m, accounts, 2));
    assert PageAt(stores, accounts, 5, 1).rows == [];
    assert Pulled(stores, accounts, 5, 1) == [b] by { assert Pulled(stores, accounts, 5, 0) == []; }
    assert Pulled(stores, accounts, 5, 2) == [b];
    assert a in stores[1];
  }

  // ---------------------------------------------------------------- a fixed store

  /** Moving the cursor to the k-th matching row leaves the matching rows after it. */
  lemma AfterKth(t: Table, accounts: set<int>, since: int, k: nat)
    requires Sorted(t) && 0 < k <= |AllAfter(t, accounts, since)|
    ensures var all := AllAfter(t, accounts, since); AllAfter(t, accounts, all[k - 1].id) == all[k..]
  {
    var all := AllAfter(t, accounts, since);
    var later := (m: Message) => After(m, accounts, all[k - 1].id);
    FilterMembers(t, (m: Message) => After(m, accounts, since));
    FilterSorted(t, (m: Message) => After(m, accounts, since));
    assert all[k - 1] in all;
    FilterFilter(t, (m: Message) => After(m, accounts, since), later, later);
    assert all == all[..k] + all[k..];
    assert forall m :: m in all[k..] ==> m in all && later(m);
    FilterHalves(all[..k], all[k..], later);
  }

  lemma AfterSplits(t: Table, accounts: set<int>, since: int, limit: nat)
    requires Sorted(t) && limit >= 1
    ensures var p := ListForward(t, accounts, since, limit);
            && AllAfter(t, accounts, since) == p.rows + AllAfter(t, accounts, p.next)
            && (!p.hasMore ==> AllAfter(t, accounts, p.next) == [])
            && (p.hasMore ==> p.rows != [])
  {
    NoAccountsNoRows(t, accounts, since, None);
    var p := ListForward(t, accounts, since, limit);
    if p.rows != [] {
      AfterKth(t, accounts, since, |p.rows|);
    }
  }

  /** Following next_since_id from 0 on a fixed store ends and returns the matching rows in order. */
  method PullForward(t: Table, accounts: set<int>, limit: nat) returns (all: Table)
    requires Sorted(t) && limit >= 1
    ensures all == AllAfter(t, accounts, 0) && Sorted(all)
    ensures forall m :: m in all <==> m in t && m.account in accounts && m.id > 0
  {
    FilterSorted(t, (m: Message) => After(m, accounts, 0));
    FilterMembers(t, (m: Message) => After(m, accounts, 0));
    all := [];
    var since, more := 0, true;
    while more
      invariant all + AllAfter(t, accounts, since) == AllAfter(t, accounts, 0)
      invariant !more ==> AllAfter(t, accounts, since) == []
      decreases |AllAfter(t, accounts, since)|, more
    {
      assert ValidateMode("asc", since, None).None?;
      AfterSplits(t, accounts, since, limit);
      var page := ListForward(t, accounts, since, limit);
      all := all + page.rows;
      since, more := page.next, page.hasMore;
    }
  }

  /** Moving the cursor to a matching row leaves the matching rows before it. */
  lemma BeforeKth(t: Table, accounts: set<int>, before: Option<int>, k: nat)
    requires Sorted(t) && k < |AllBefore(t, accounts, before)|
    ensures var all := AllBefore(t, accounts, before); AllBefore(t, accounts, Some(all[k].id)) == all[..k]
  {
    var all := AllBefore(t, accounts, before);
    var bound := all[k].id;
    var lower := (m: Message) => Before(m, accounts, Some(bound));
    FilterMember(t, (m: Message) => Before(m, accounts, before), all[k]);
    FilterFilter(t, (m: Message) => Before(m, accounts, before), lower, lower);
    FilterMembers(t, (m: Message) => Before(m, accounts, before));
    FilterSorted(t, (m: Message) => Before(m, accounts, before));
    BelowBound(all, accounts, k);
  }

  lemma BelowBound(all: Table, accounts: set<int>, k: nat)
    requires Sorted(all) && k < |all| && forall m :: m in all ==> m.account in accounts
    ensures Filter(all, (m: Message) => Before(m, accounts, Some(all[k].id))) == all[..k]
  {
    forall i | 0 <= i < |all| ensures all[i].account in accounts {
      assert all[i] in all;
    }
    FilterPrefix(all, k, (m: Message) => Before(m, accounts, Some(all[k].id)));
  }

  lemma {:induction false} LastOfReverse(s: Table)
    requires s != []
    ensures Reverse(s)[|s| - 1] == s[0]
  {}

  lemma BackwardPageIs(t: Table, accounts: set<int>, before: Option<int>, limit: nat)
    requires limit >= 1
    ensures var all, p := AllBefore(t, accounts, before), ListBackward(t, accounts, before, limit);
            var k := |p.rows|;
            && k <= |all|
            && p.rows == Reverse(all[|all| - k..])
            && Reverse(all) == p.rows + Reverse(all[..|all| - k])
            && (k > 0 ==> p.next == Some(all[|all| - k].id))
            && k == (if |all| < limit then |all| else limit) && (p.hasMore <==> k == limit)
  {
    NoAccountsNoRows(t, accounts, 0, before);
    var all, p := AllBefore(t, accounts, before), ListBackward(t, accounts, before, limit);
    var cut := |all| - |p.rows|;
    assert all == all[..cut] + all[cut..];
    ReverseAppend(all[..cut], all[cut..]);
    if p.rows != [] {
      LastOfReverse(all[cut..]);
    }
  }

  /** One step of the descending traversal towards `whole`. */
  lemma BackwardStep(t: Table, accounts: set<int>, before: Option<int>, limit: nat, soFar: Table, whole: Table)
    requires Sorted(t) && limit >= 1
    requires soFar + Reverse(AllBefore(t, accounts, before)) == whole
    ensures var p := ListBackward(t, accounts, before, limit);
            && (p.hasMore ==> soFar + p.rows + Reverse(AllBefore(t, accounts, p.next)) == whole)
            && (p.hasMore ==> |AllBefore(t, accounts, p.next)| < |AllBefore(t, accounts, before)|)
            && (!p.hasMore ==> soFar + p.rows == whole)
  {
    BackwardPageIs(t, accounts, before, limit);
    var all, p := AllBefore(t, accounts, before), ListBackward(t, accounts, before, limit);
    if p.hasMore {
      BeforeKth(t, accounts, before, |all| - |p.rows|);
      assert soFar + (p.rows + Reverse(AllBefore(t, accounts, p.next))) == whole;
    } else {
      assert all[..0] == [];
    }
  }

  lemma AllRows(t: Table, accounts: set<int>)
    requires Sorted(t)
    ensures var all := AllBefore(t, accounts, None);
            && Sorted(all) && Reverse(Reverse(all)) == all
            && forall m :: m in Reverse(all) <==> m in t && m.account in accounts
  {
    var all := AllBefore(t, accounts, None);
    FilterSorted(t, (m: Message) => Before(m, accounts, None));
    FilterMembers(t, (m: Message) => Before(m, accounts, None));
    ReverseReverse(all);
    forall m ensures m in Reverse(all) <==> m in t && m.account in accounts {
      ReverseMember(all, m);
    }
  }

  /** Following next_before_id from the latest page on a fixed store ends, is never refused and
      returns the matching rows newest first. */
  method PullBackward(t: Table, accounts: set<int>, limit: nat) returns (all: Table)
    requires Sorted(t) && limit >= 1
    requires forall m :: m in t ==> m.id >= 1
    ensures all == Reverse(AllBefore(t, accounts, None)) && Sorted(Reverse(all))
    ensures forall m :: m in all <==> m in t && m.account in accounts
  {
    AllRows(t, accounts);
    all := [];
    var before, more := None, true;
    ghost var whole := Reverse(AllBefore(t, accounts, None));
    while more
      invariant more ==> all + Reverse(AllBefore(t, accounts, before)) == whole
      invariant !more ==> all == whole
      invariant before.Some? ==> before.value >= 1
      decreases if more then 1 + |AllBefore(t, accounts, before)| else 0
    {
      assert ValidateMode("desc", 0, before).None?;
      BackwardStep(t, accounts, before, limit, all, whole);
      PageIdsPositive(t, accounts, before, limit);
      var page := ListBackward(t, accounts, before, limit);
      all := all + page.rows;
      before, more := page.next, page.hasMore;
    }
  }

  lemma PageIdsPositive(t: Table, accounts: set<int>, before: Option<int>, limit: nat)
    requires forall m :: m in t ==> m.id >= 1
    ensures forall m :: m in ListBackward(t, accounts, before, limit).rows ==> m.id >= 1
    ensures var p := ListBackward(t, accounts, before, limit); p.next.Some? ==> p.next.value >= 1
  {
    var all := AllBefore(t, accounts, before);
    var p := ListBackward(t, accounts, before, limit);
    forall m | m in p.rows ensures m.id >= 1 {
      ReverseMember(all, m);
      FilterMember(t, (x: Message) => Before(x, accounts, before), m);
    }
    if p.rows != [] {
      assert p.rows[|p.rows| - 1] in p.rows;
    }
  }

  /** On a fixed store each traversal, read backwards, is the other one. */
  lemma DirectionsMirror(t: Table, accounts: set<int>)
    requires forall m :: m in t ==> m.id >= 1
    ensures var forward, backward := AllAfter(t, accounts, 0), Reverse(AllBefore(t, accounts, None));
            backward == Reverse(forward) && forward == Reverse(backward)
  {
    FilterSame(t, (m: Message) => Before(m, accounts, None), (m: Message) => After(m, accounts, 0));
    ReverseReverse(AllAfter(t, accounts, 0));
  }
}
