/** The data part of the decommission migrations: merging duplicate mailboxes, moving every mailbox to
    one technical owner, and the later delete of all other users. */
module Migration {
  import opened Seqs
  import opened Messages
  import Paging

  const CRM_SERVICE := "crm-service"

  datatype Mailbox = Mailbox(userId: int, email: string)

  datatype Database = Database(users: map<int, string>, nextUserId: int, mailboxes: map<int, Mailbox>, messages: Table)

  // ---------------------------------------------------------------- constraints

  /** UNIQUE (user_id, email) on mailboxes. */
  predicate UniqueOwners(boxes: map<int, Mailbox>) {
    forall a, b :: a in boxes && b in boxes && a != b ==> boxes[a] != boxes[b]
  }

  /** UNIQUE (username). */
  predicate UniqueNames(users: map<int, string>) {
    forall u, v :: u in users && v in users && u != v ==> users[u] != users[v]
  }

  ghost predicate Constraints(d: Database) {
    && UniqueNames(d.users)
    && (forall u :: u in d.users ==> u < d.nextUserId)
    && UniqueOwners(d.mailboxes)
    && (forall a :: a in d.mailboxes ==> d.mailboxes[a].userId in d.users)
    && (forall m :: m in d.messages ==> m.account in d.mailboxes)
    && Sorted(d.messages) && UniqueKeys(d.messages)
  }

  // ---------------------------------------------------------------- grouping by LOWER(email)

  function Group(boxes: map<int, Mailbox>, lower: string -> string, email: string): set<int> {
    set b | b in boxes && lower(boxes[b].email) == lower(email)
  }

  /** SQL MIN over a group. */
  ghost function Min(s: set<int>): (m: int)
    requires exists x :: x in s
    ensures m in s && forall x :: x in s ==> m <= x
    decreases |s|
  {
    var x :| x in s;
    if forall y :: y in s ==> x <= y then x
    else
      var y :| y in s && y < x;
      assert y in s - {x};
      var m := Min(s - {x});
      assert forall z :: z in s ==> z == x || z in s - {x};
      m
  }

  ghost function Survivor(boxes: map<int, Mailbox>, lower: string -> string, a: int): int
    requires a in boxes
  {
    assert a in Group(boxes, lower, boxes[a].email);
    Min(Group(boxes, lower, boxes[a].email))
  }

  /** SELECT MIN(id) ... GROUP BY LOWER(email): the mailboxes that the pull API serves. */
  ghost function Canonical(boxes: map<int, Mailbox>, lower: string -> string): set<int> {
    set a | a in boxes :: Survivor(boxes, lower, a)
  }

  /** Every row whose id is not the least of its group. */
  ghost function Losers(boxes: map<int, Mailbox>, lower: string -> string): set<int> {
    set a | a in boxes && a != Survivor(boxes, lower, a)
  }

  /** The migration's survivors and the API's canonical mailboxes are the same rows. */
  lemma SurvivorsAreCanonical(boxes: map<int, Mailbox>, lower: string -> string)
    ensures Canonical(boxes, lower) == boxes.Keys - Losers(boxes, lower)
  {
    forall a | a in boxes ensures var s := Survivor(boxes, lower, a); s in boxes && Survivor(boxes, lower, s) == s {
      var s := Survivor(boxes, lower, a);
      assert s in Group(boxes, lower, boxes[a].email);
      assert Group(boxes, lower, boxes[s].email) == Group(boxes, lower, boxes[a].email);
    }
  }

  /** A mailbox is canonical exactly when no older one has its address. */
  lemma CanonicalIff(boxes: map<int, Mailbox>, lower: string -> string, a: int)
    ensures a in Canonical(boxes, lower)
            <==> a in boxes && forall b :: b in boxes && b < a ==> lower(boxes[b].email) != lower(boxes[a].email)
  {
    SurvivorsAreCanonical(boxes, lower);
    if a in boxes {
      var g := Group(boxes, lower, boxes[a].email);
      assert a in g && Survivor(boxes, lower, a) in g;
      if b :| b in boxes && b < a && lower(boxes[b].email) == lower(boxes[a].email) {
        assert b in g;
      }
    }
  }

  lemma LoserIff(boxes: map<int, Mailbox>, lower: string -> string, a: int)
    ensures a in Losers(boxes, lower)
            <==> a in boxes && exists b :: b in boxes && b < a && lower(boxes[b].email) == lower(boxes[a].email)
  {
    SurvivorsAreCanonical(boxes, lower);
    CanonicalIff(boxes, lower, a);
  }

  /** The mailboxes whose messages one request of the pull API may see. */
  lemma ServedMailboxes(boxes: map<int, Mailbox>, lower: string -> string, wanted: seq<int>, a: int)
    ensures a in Paging.ResolveAccountIds(Canonical(boxes, lower), wanted)
            <==> && a in boxes && (wanted == [] || a in wanted)
                 && forall b :: b in boxes && b < a ==> lower(boxes[b].email) != lower(boxes[a].email)
  {
    CanonicalIff(boxes, lower, a);
  }

  /** One survivor in each group, its least id, and none without. */
  lemma OneSurvivorPerEmail(boxes: map<int, Mailbox>, lower: string -> string, a: int)
    requires a in boxes
    ensures var s := Survivor(boxes, lower, a);
            && s in boxes && lower(boxes[s].email) == lower(boxes[a].email)
            && (forall b :: b in boxes && lower(boxes[b].email) == lower(boxes[a].email) ==> s <= b)
            && Group(boxes, lower, boxes[a].email) * Canonical(boxes, lower) == {s}
  {
    SurvivorsAreCanonical(boxes, lower);
    var g, s := Group(boxes, lower, boxes[a].email), Survivor(boxes, lower, a);
    forall b | b in boxes && lower(boxes[b].email) == lower(boxes[a].email) ensures s <= b {
      assert b in g;
    }
    forall b | b in g && b in Canonical(boxes, lower) ensures b == s {
      assert Group(boxes, lower, boxes[b].email) == g;
    }
  }

  lemma SameSurvivor(boxes: map<int, Mailbox>, lower: string -> string, a: int, b: int)
    requires a in boxes && b in boxes && lower(boxes[a].email) == lower(boxes[b].email)
    ensures Survivor(boxes, lower, a) == Survivor(boxes, lower, b)
  {
    assert Group(boxes, lower, boxes[a].email) == Group(boxes, lower, boxes[b].email);
  }

  lemma SurvivorsDiffer(boxes: map<int, Mailbox>, lower: string -> string, a: int, b: int)
    requires a in Canonical(boxes, lower) && b in Canonical(boxes, lower) && a != b
    ensures a in boxes && b in boxes && lower(boxes[a].email) != lower(boxes[b].email)
  {
    SurvivorsAreCanonical(boxes, lower);
    assert a == Survivor(boxes, lower, a) && b == Survivor(boxes, lower, b);
    if lower(boxes[a].email) == lower(boxes[b].email) {
      SameSurvivor(boxes, lower, a, b);
    }
  }

  // ---------------------------------------------------------------- statements

  function WithoutAccounts(t: Table, accounts: set<int>): Table {
    Filter(t, (m: Message) => m.account !in accounts)
  }

  predicate HasOwner(users: map<int, string>) {
    exists u :: u in users && users[u] == CRM_SERVICE
  }

  /** INSERT ... ON CONFLICT (username) DO NOTHING; the sequence moves either way. */
  function Seed(d: Database): Database {
    d.(users := if HasOwner(d.users) then d.users else d.users[d.nextUserId := CRM_SERVICE],
       nextUserId := d.nextUserId + 1)
  }

  /** SELECT id FROM users WHERE username = 'crm-service'. */
  ghost function Owner(d: Database): int
    requires HasOwner(d.users)
  {
    var u :| u in d.users && d.users[u] == CRM_SERVICE;
    u
  }

  /** DELETE of mailbox rows, with the cascade to their messages. */
  function DeleteMailboxes(d: Database, ids: set<int>): Database {
    d.(mailboxes := d.mailboxes - ids, messages := WithoutAccounts(d.messages, ids))
  }

  /** DELETE of user rows, with the cascade to their mailboxes. */
  function DeleteUsers(d: Database, ids: set<int>): Database {
    DeleteMailboxes(d.(users := d.users - ids), set a | a in d.mailboxes && d.mailboxes[a].userId in ids)
  }

  /** Step 1: first the losers' messages, then the losers. */
  ghost function Merge(d: Database, lower: string -> string): Database {
    var losers := Losers(d.mailboxes, lower);
    DeleteMailboxes(d.(messages := WithoutAccounts(d.messages, losers)), losers)
  }

  /** UPDATE ... SET user_id: the rows in the order the engine visits them, each checked against
      UNIQUE (user_id, email) as it is written; None is the duplicate-key error. */
  ghost function Repoint(boxes: map<int, Mailbox>, owner: int, order: seq<int>): (r: Option<map<int, Mailbox>>)
    requires forall i :: 0 <= i < |order| ==> order[i] in boxes
  {
    if order == [] then Some(boxes)
    else
      var next := boxes[order[0] := boxes[order[0]].(userId := owner)];
      if UniqueOwners(next) then Repoint(next, owner, order[1..]) else None
  }

  /** `order` visits every row that WHERE user_id <> owner selects, once. */
  ghost predicate Visits(order: seq<int>, boxes: map<int, Mailbox>, owner: int) {
    && (forall i :: 0 <= i < |order| ==> order[i] in boxes && boxes[order[i]].userId != owner)
    && (forall a :: a in boxes && boxes[a].userId != owner ==> a in order)
    && (forall i, j :: 0 <= i < j < |order| ==> order[i] != order[j])
  }

  lemma VisitedRow(order: seq<int>, boxes: map<int, Mailbox>, owner: int, i: nat)
    requires Visits(order, boxes, owner) && i < |order|
    ensures order[i] in boxes && boxes[order[i]].userId != owner
  {}

  // ---------------------------------------------------------------- the repoint

  ghost predicate DistinctEmails(boxes: map<int, Mailbox>) {
    forall a, b :: a in boxes && b in boxes && a != b ==> boxes[a].email != boxes[b].email
  }

  function Owned(boxes: map<int, Mailbox>, owner: int, moved: seq<int>): map<int, Mailbox> {
    map a | a in boxes :: if a in moved then boxes[a].(userId := owner) else boxes[a]
  }

  lemma {:induction false} RepointedRows(boxes: map<int, Mailbox>, owner: int, order: seq<int>)
    requires forall i :: 0 <= i < |order| ==> order[i] in boxes
    requires UniqueOwners(boxes)
    ensures var r := Repoint(boxes, owner, order);
            r.Some? ==> r.value == Owned(boxes, owner, order) && UniqueOwners(r.value)
    ensures DistinctEmails(boxes) ==> Repoint(boxes, owner, order).Some?
    decreases |order|
  {
    if order == [] {
      assert Owned(boxes, owner, order) == boxes;
    } else {
      assert order == [order[0]] + order[1..];
      var next := boxes[order[0] := boxes[order[0]].(userId := owner)];
      if UniqueOwners(next) {
        RepointedRows(next, owner, order[1..]);
        assert Owned(next, owner, order[1..]) == Owned(boxes, owner, order);
      }
    }
  }

  /** Whatever the row order, the repoint meets no duplicate key at any row exactly when no two mailboxes
      share an address, which is why the merge has to come first; then every mailbox has the owner. */
  lemma RepointSucceedsIff(boxes: map<int, Mailbox>, owner: int, order: seq<int>)
    requires UniqueOwners(boxes) && Visits(order, boxes, owner)
    ensures Repoint(boxes, owner, order).Some? <==> DistinctEmails(boxes)
    ensures DistinctEmails(boxes) ==>
              Repoint(boxes, owner, order) == Some(map a | a in boxes :: Mailbox(owner, boxes[a].email))
  {
    RepointedRows(boxes, owner, order);
    var r := Repoint(boxes, owner, order);
    var all := map a | a in boxes :: Mailbox(owner, boxes[a].email);
    forall a | a in boxes ensures Owned(boxes, owner, order)[a] == all[a] {
      assert a in order || boxes[a].userId == owner;
    }
    assert Owned(boxes, owner, order) == all;
    if r.Some? {
      forall a, b | a in boxes && b in boxes && a != b ensures boxes[a].email != boxes[b].email {
        assert all[a] != all[b];
      }
    }
  }

  /** Why the merge comes first: two owners with the same address are allowed, and repointing them fails. */
  lemma UnmergedRepointFails()
    ensures var d := Database(map[1 := CRM_SERVICE, 2 := "user"], 3,
                              map[1 := Mailbox(1, "a"), 2 := Mailbox(2, "a")], []);
            Constraints(d) && Visits([2], d.mailboxes, 1) && Repoint(d.mailboxes, 1, [2]).None?
  {
    var boxes := map[1 := Mailbox(1, "a"), 2 := Mailbox(2, "a")];
    assert "user" != CRM_SERVICE by { assert |"user"| != |CRM_SERVICE|; }
    assert boxes[1] != boxes[2] by { assert boxes[1].userId != boxes[2].userId; }
    RepointSucceedsIff(boxes, 1, [2]);
    assert boxes[1].email == boxes[2].email;
  }

  // ---------------------------------------------------------------- the two upgrades

  ghost predicate UpgradeVisits(d: Database, lower: string -> string, order: seq<int>) {
    HasOwner(Seed(d).users) && Visits(order, Merge(Seed(d), lower).mailboxes, Owner(Seed(d)))
  }

  ghost function Upgrade(d: Database, lower: string -> string, order: seq<int>): Option<Database>
    requires UpgradeVisits(d, lower, order)
  {
    var merged := Merge(Seed(d), lower);
    var moved := Repoint(merged.mailboxes, Owner(Seed(d)), order);
    if moved.None? then None else Some(merged.(mailboxes := moved.value))
  }

  /** DELETE FROM users WHERE username <> 'crm-service'. */
  function ReduceUsers(d: Database): Database {
    DeleteUsers(d, set u | u in d.users && d.users[u] != CRM_SERVICE)
  }

  lemma SeedFacts(d: Database)
    requires Constraints(d)
    ensures var s := Seed(d);
            && Constraints(s) && HasOwner(s.users)
            && (HasOwner(d.users) ==> s.users == d.users)
            && forall u :: u in s.users && s.users[u] == CRM_SERVICE ==> u == Owner(s)
  {
    var s := Seed(d);
    if !HasOwner(d.users) {
      assert s.users[d.nextUserId] == CRM_SERVICE;
    }
  }

  lemma MergeFacts(d: Database, lower: string -> string)
    requires Constraints(d)
    ensures var m := Merge(d, lower);
            && Constraints(m) && DistinctEmails(m.mailboxes)
            && m.mailboxes.Keys == Canonical(d.mailboxes, lower)
            && (forall a :: a in m.mailboxes ==> m.mailboxes[a] == d.mailboxes[a])
            && m.messages == Filter(d.messages, (x: Message) => x.account in Canonical(d.mailboxes, lower))
  {
    SurvivorsAreCanonical(d.mailboxes, lower);
    var kept, losers := Canonical(d.mailboxes, lower), Losers(d.mailboxes, lower);
    var m := Merge(d, lower);
    var out := (x: Message) => x.account !in losers;
    FilterFilter(d.messages, out, out, out);
    FilterMembers(d.messages, out);
    FilterSorted(d.messages, out);
    FilterUniqueKeys(d.messages, out);
    FilterSame(d.messages, out, (x: Message) => x.account in kept);
    assert m.messages == Filter(d.messages, out) by {
      assert m.messages == WithoutAccounts(WithoutAccounts(d.messages, losers), losers);
    }
    forall a, b | a in m.mailboxes && b in m.mailboxes && a != b
      ensures m.mailboxes[a].email != m.mailboxes[b].email
    {
      SurvivorsDiffer(d.mailboxes, lower, a, b);
    }
  }

  /** From any database the upgrade meets no duplicate key, whatever the row order; it keeps exactly the
      canonical mailboxes, each with its address, all under one owner, and exactly their messages. */
  lemma UpgradeKeepsCanonical(d: Database, lower: string -> string, order: seq<int>)
    requires Constraints(d) && UpgradeVisits(d, lower, order)
    ensures var r := Upgrade(d, lower, order);
            && r.Some? && Constraints(r.value)
            && r.value.mailboxes.Keys == Canonical(d.mailboxes, lower)
            && (forall a :: a in r.value.mailboxes ==>
                  r.value.mailboxes[a] == Mailbox(Owner(Seed(d)), d.mailboxes[a].email))
            && r.value.messages == Filter(d.messages, (x: Message) => x.account in Canonical(d.mailboxes, lower))
  {
    SeedFacts(d);
    var s := Seed(d);
    MergeFacts(s, lower);
    RepointSucceedsIff(Merge(s, lower).mailboxes, Owner(s), order);
    FilterMembers(d.messages, (x: Message) => x.account in Canonical(d.mailboxes, lower));
  }

  lemma RepointsAll(d: Database, lower: string -> string, order: seq<int>)
    requires Constraints(d) && UpgradeVisits(d, lower, order)
    ensures var m := Merge(Seed(d), lower);
            Upgrade(d, lower, order)
            == Some(m.(mailboxes := map a | a in m.mailboxes :: Mailbox(Owner(Seed(d)), m.mailboxes[a].email)))
    ensures Constraints(Upgrade(d, lower, order).value)
  {
    UpgradeKeepsCanonical(d, lower, order);
    SeedFacts(d);
    MergeFacts(Seed(d), lower);
    RepointSucceedsIff(Merge(Seed(d), lower).mailboxes, Owner(Seed(d)), order);
  }

  /** Where every group has one member, that member is canonical. */
  lemma CanonicalOfKept(boxes: map<int, Mailbox>, kept: map<int, Mailbox>, lower: string -> string)
    requires kept.Keys == Canonical(boxes, lower)
    requires forall a :: a in kept ==> a in boxes && kept[a].email == boxes[a].email
    ensures Canonical(kept, lower) == kept.Keys
    ensures forall a :: a in kept ==> Group(kept, lower, kept[a].email) == {a}
  {
    SurvivorsAreCanonical(boxes, lower);
    SurvivorsAreCanonical(kept, lower);
    forall a | a in kept ensures Group(kept, lower, kept[a].email) == {a} && Survivor(kept, lower, a) == a {
      OneSurvivorPerEmail(boxes, lower, a);
      assert Group(kept, lower, kept[a].email) == Group(boxes, lower, boxes[a].email) * kept.Keys;
    }
  }

  // ---------------------------------------------------------------- the pull view

  lemma RowsOfKept(t: Table, accounts: set<int>, kept: set<int>, since: int, before: Option<int>)
    requires accounts <= kept
    ensures var k := Filter(t, (m: Message) => m.account in kept);
            && Paging.AllAfter(k, accounts, since) == Paging.AllAfter(t, accounts, since)
            && Paging.AllBefore(k, accounts, before) == Paging.AllBefore(t, accounts, before)
  {
    var keep := (m: Message) => m.account in kept;
    var after := (m: Message) => Paging.After(m, accounts, since);
    var earlier := (m: Message) => Paging.Before(m, accounts, before);
    FilterFilter(t, keep, after, after);
    FilterFilter(t, keep, earlier, earlier);
  }

  lemma PagesOfKept(t: Table, accounts: set<int>, kept: set<int>, since: int, before: Option<int>, limit: nat)
    requires accounts <= kept
    ensures var k := Filter(t, (m: Message) => m.account in kept);
            && Paging.ListForward(k, accounts, since, limit) == Paging.ListForward(t, accounts, since, limit)
            && Paging.ListBackward(k, accounts, before, limit) == Paging.ListBackward(t, accounts, before, limit)
  {
    RowsOfKept(t, accounts, kept, since, before);
    hide Filter, Paging.AllAfter, Paging.AllBefore;
  }

  /** The later delete of the other users loses no mailbox exactly when each belongs to the technical
      owner; it then loses no message either and leaves that owner alone. */
  lemma ReduceUsersIsHarmlessIff(d: Database)
    requires Constraints(d)
    ensures ReduceUsers(d).mailboxes == d.mailboxes
            <==> forall a :: a in d.mailboxes ==> d.users[d.mailboxes[a].userId] == CRM_SERVICE
    ensures ReduceUsers(d).mailboxes == d.mailboxes ==> ReduceUsers(d).messages == d.messages
    ensures Constraints(ReduceUsers(d))
    ensures forall u, v :: u in ReduceUsers(d).users && v in ReduceUsers(d).users ==> u == v
  {
    var others := set u | u in d.users && d.users[u] != CRM_SERVICE;
    var lost := set a | a in d.mailboxes && d.mailboxes[a].userId in others;
    var r := DeleteMailboxes(d.(users := d.users - others), lost);
    assert r == ReduceUsers(d);
    var out := (m: Message) => m.account !in lost;
    assert r.messages == Filter(d.messages, out);
    FilterMembers(d.messages, out);
    FilterSorted(d.messages, out);
    FilterUniqueKeys(d.messages, out);
    if r.mailboxes == d.mailboxes {
      forall a | a in d.mailboxes ensures a !in lost {
        assert a in r.mailboxes;
      }
      FilterAll(d.messages, out);
    }
    if forall a :: a in d.mailboxes ==> d.users[d.mailboxes[a].userId] == CRM_SERVICE {
      assert lost == {};
      assert r.mailboxes == d.mailboxes;
    }
  }

  /** Both migrations in their order lose no canonical mailbox and no message of one. */
  lemma NoMailboxCascades(d: Database, lower: string -> string, order: seq<int>)
    requires Constraints(d) && UpgradeVisits(d, lower, order)
    ensures var r := Upgrade(d, lower, order);
            && r.Some?
            && ReduceUsers(r.value).mailboxes == r.value.mailboxes
            && ReduceUsers(r.value).messages == r.value.messages
            && ReduceUsers(r.value).users == map[Owner(Seed(d)) := CRM_SERVICE]
  {
    UpgradeKeepsCanonical(d, lower, order);
    SeedFacts(d);
    AllOwned(Upgrade(d, lower, order).value, Owner(Seed(d)));
  }

  lemma AllOwned(d: Database, owner: int)
    requires Constraints(d) && owner in d.users && d.users[owner] == CRM_SERVICE
    requires forall a :: a in d.mailboxes ==> d.mailboxes[a].userId == owner
    ensures ReduceUsers(d).mailboxes == d.mailboxes && ReduceUsers(d).messages == d.messages
    ensures ReduceUsers(d).users == map[owner := CRM_SERVICE]
  {
    ReduceUsersIsHarmlessIff(d);
    var r := ReduceUsers(d);
    assert owner in r.users && r.users[owner] == CRM_SERVICE;
    assert forall u :: u in r.users ==> u == owner;
    assert r.users.Keys == {owner};
  }

  /** The two databases serve the same pages to one request of the pull API, in either direction. */
  ghost predicate SamePages(d: Database, r: Database, lower: string -> string,
                            wanted: seq<int>, since: int, before: Option<int>, limit: nat)
  {
    var was := Paging.ResolveAccountIds(Canonical(d.mailboxes, lower), wanted);
    var served := Paging.ResolveAccountIds(Canonical(r.mailboxes, lower), wanted);
    && Paging.ListForward(r.messages, served, since, limit) == Paging.ListForward(d.messages, was, since, limit)
    && Paging.ListBackward(r.messages, served, before, limit) == Paging.ListBackward(d.messages, was, before, limit)
  }

  /** A consumer of the pull API cannot tell: for every mailbox filter, cursor and limit, each page in
      either direction is the same before and after, and so it is after the other users are gone. */
  lemma PullViewUnchanged(d: Database, lower: string -> string, order: seq<int>,
                          wanted: seq<int>, since: int, before: Option<int>, limit: nat)
    requires Constraints(d) && UpgradeVisits(d, lower, order)
    ensures var r := Upgrade(d, lower, order);
            && r.Some?
            && SamePages(d, r.value, lower, wanted, since, before, limit)
            && SamePages(d, ReduceUsers(r.value), lower, wanted, since, before, limit)
  {
    UpgradeKeepsCanonical(d, lower, order);
    var r := Upgrade(d, lower, order).value;
    SurvivorsAreCanonical(d.mailboxes, lower);
    CanonicalOfKept(d.mailboxes, r.mailboxes, lower);
    var kept := Canonical(d.mailboxes, lower);
    PagesOfKept(d.messages, Paging.ResolveAccountIds(kept, wanted), kept, since, before, limit);
    FilterSame(d.messages, (m: Message) => m.account in kept,
               (x: Message) => x.account in Canonical(d.mailboxes, lower));
    NoMailboxCascades(d, lower, order);
  }

  /** What a database looks like after the upgrade: one owner, every mailbox canonical. */
  ghost predicate Upgraded(d: Database, lower: string -> string) {
    && Constraints(d) && HasOwner(d.users)
    && (forall a :: a in d.mailboxes ==> d.users[d.mailboxes[a].userId] == CRM_SERVICE)
    && Canonical(d.mailboxes, lower) == d.mailboxes.Keys
  }

  lemma UpgradeUpgrades(d: Database, lower: string -> string, order: seq<int>)
    requires Constraints(d) && UpgradeVisits(d, lower, order)
    ensures Upgrade(d, lower, order).Some? && Upgraded(Upgrade(d, lower, order).value, lower)
  {
    UpgradeKeepsCanonical(d, lower, order);
    SeedFacts(d);
    SurvivorsAreCanonical(d.mailboxes, lower);
    CanonicalOfKept(d.mailboxes, Upgrade(d, lower, order).value.mailboxes, lower);
  }

  lemma MergeOfCanonical(d: Database, lower: string -> string)
    requires Constraints(d) && Canonical(d.mailboxes, lower) == d.mailboxes.Keys
    ensures Merge(d, lower) == d
  {
    MergeFacts(d, lower);
    FilterAll(d.messages, (x: Message) => x.account in Canonical(d.mailboxes, lower));
    assert Merge(d, lower).mailboxes == d.mailboxes;
  }

  /** A second run visits no row and changes neither users, mailboxes nor messages. */
  lemma RerunIsIdle(d: Database, lower: string -> string, order: seq<int>)
    requires Upgraded(d, lower) && UpgradeVisits(d, lower, order)
    ensures order == []
    ensures Upgrade(d, lower, order) == Some(d.(nextUserId := d.nextUserId + 1))
  {
    SeedFacts(d);
    MergeOfCanonical(Seed(d), lower);
    forall a | a in d.mailboxes ensures d.mailboxes[a].userId == Owner(Seed(d)) {
      assert Seed(d).users[d.mailboxes[a].userId] == CRM_SERVICE;
    }
    if order != [] {
      VisitedRow(order, d.mailboxes, Owner(Seed(d)), 0);
    }
  }

  /** Running the upgrade twice, from any database and with any row orders: the second run visits no row
      and changes nothing but the sequence. */
  lemma UpgradeTwice(d: Database, lower: string -> string, order: seq<int>, again: seq<int>)
    requires Constraints(d) && UpgradeVisits(d, lower, order)
    requires var r := Upgrade(d, lower, order); r.Some? ==> UpgradeVisits(r.value, lower, again)
    ensures var r := Upgrade(d, lower, order);
            && r.Some? && again == []
            && Upgrade(r.value, lower, again) == Some(r.value.(nextUserId := r.value.nextUserId + 1))
  {
    UpgradeUpgrades(d, lower, order);
    RerunIsIdle(Upgrade(d, lower, order).value, lower, again);
  }

  /** A mailbox is left exactly when no older one has its address, and a message when its mailbox is left. */
  ghost predicate OldestKept(d: Database, r: Database, lower: string -> string) {
    && (forall a :: a in r.mailboxes <==>
          a in d.mailboxes
          && forall b :: b in d.mailboxes && b < a ==> lower(d.mailboxes[b].email) != lower(d.mailboxes[a].email))
    && (forall a :: a in r.mailboxes ==> r.mailboxes[a].email == d.mailboxes[a].email)
    && (forall m :: m in r.messages <==> m in d.messages && m.account in r.mailboxes)
  }

  lemma CanonicalIsOldest(d: Database, r: Database, lower: string -> string)
    requires r.mailboxes.Keys == Canonical(d.mailboxes, lower)
    requires forall a :: a in r.mailboxes ==> a in d.mailboxes && r.mailboxes[a].email == d.mailboxes[a].email
    requires r.messages == Filter(d.messages, (x: Message) => x.account in Canonical(d.mailboxes, lower))
    ensures OldestKept(d, r, lower)
  {
    FilterMembers(d.messages, (x: Message) => x.account in Canonical(d.mailboxes, lower));
    forall a ensures a in r.mailboxes <==>
                     a in d.mailboxes
                     && forall b :: b in d.mailboxes && b < a ==>
                          lower(d.mailboxes[b].email) != lower(d.mailboxes[a].email)
    {
      CanonicalIff(d.mailboxes, lower, a);
    }
  }

  lemma MergeKeepsOldest(d: Database, lower: string -> string)
    requires Constraints(d)
    ensures OldestKept(d, Merge(d, lower), lower)
  {
    MergeFacts(d, lower);
    SurvivorsAreCanonical(d.mailboxes, lower);
    CanonicalIsOldest(d, Merge(d, lower), lower);
  }

  lemma UpgradeKeepsOldest(d: Database, lower: string -> string, order: seq<int>)
    requires Constraints(d) && UpgradeVisits(d, lower, order)
    ensures var r := Upgrade(d, lower, order);
            && r.Some? && OldestKept(d, r.value, lower)
            && forall a :: a in r.value.mailboxes ==>
                 var u := r.value.mailboxes[a].userId; u in r.value.users && r.value.users[u] == CRM_SERVICE
  {
    UpgradeKeepsCanonical(d, lower, order);
    UpgradeUpgrades(d, lower, order);
    SurvivorsAreCanonical(d.mailboxes, lower);
    CanonicalIsOldest(d, Upgrade(d, lower, order).value, lower);
  }

  // ---------------------------------------------------------------- as the scripts run

  /** The connection that both scripts execute their statements on. */
  class Connection {
    var users: map<int, string>
    var nextUserId: int
    var mailboxes: map<int, Mailbox>
    var messages: Table

    ghost function Contents(): Database
      reads this
    {
      Database(users, nextUserId, mailboxes, messages)
    }

    /** Seeds the technical owner if it is missing and reads its id back. */
    method CrmServiceId() returns (id: int)
      requires Constraints(Contents())
      modifies this`users, this`nextUserId
      ensures Contents() == Seed(old(Contents()))
      ensures HasOwner(users) && id == Owner(Contents())
    {
      ghost var d := Contents();
      SeedFacts(d);
      if !HasOwner(users) {
        users := users[nextUserId := CRM_SERVICE];
      }
      nextUserId := nextUserId + 1;
      assert Contents() == Seed(d);
      id :| id in users && users[id] == CRM_SERVICE;
    }

    /** Merges the duplicates. A row is a loser when its group holds a smaller id: of each address the oldest
        mailbox is left, and exactly the messages of what is left. */
    method MergeDuplicates(lower: string -> string)
      requires Constraints(Contents())
      modifies this`mailboxes, this`messages
      ensures Contents() == Merge(old(Contents()), lower)
      ensures OldestKept(old(Contents()), Contents(), lower)
    {
      ghost var d := Contents();
      MergeKeepsOldest(d, lower);
      var losers := set a, b | a in mailboxes && b in mailboxes && b < a
                        && lower(mailboxes[a].email) == lower(mailboxes[b].email) :: a;
      assert losers == Losers(mailboxes, lower) by {
        forall a ensures a in losers <==> a in Losers(mailboxes, lower) {
          LoserIff(mailboxes, lower, a);
        }
      }
      hide Losers, Canonical, WithoutAccounts;
      messages := WithoutAccounts(messages, losers);
      mailboxes, messages := mailboxes - losers, WithoutAccounts(messages, losers);
    }

    /** Revision 025, steps 0 to 2: of each address the oldest mailbox is left, with that address and the
        technical owner, and exactly the messages of what is left. */
    method Upgrade025(lower: string -> string, ghost order: seq<int>)
      requires Constraints(Contents()) && UpgradeVisits(Contents(), lower, order)
      modifies this
      ensures Constraints(Contents())
      ensures Upgrade(old(Contents()), lower, order) == Some(Contents())
      ensures OldestKept(old(Contents()), Contents(), lower)
      ensures forall a :: a in mailboxes ==> mailboxes[a].userId in users && users[mailboxes[a].userId] == CRM_SERVICE
    {
      ghost var d := Contents();
      UpgradeKeepsOldest(d, lower, order);
      hide OldestKept;
      assert Constraints(Seed(d)) by { SeedFacts(d); }
      var crm := CrmServiceId();
      MergeDuplicates(lower);
      ghost var merged := Contents();
      mailboxes := map a | a in mailboxes :: Mailbox(crm, mailboxes[a].email);
      RepointsAll(d, lower, order);
      assert Contents() == merged.(mailboxes :=
             map a | a in merged.mailboxes :: Mailbox(crm, merged.mailboxes[a].email));
    }

    /** Revision 028. */
    method Upgrade028()
      modifies this
      ensures Contents() == ReduceUsers(old(Contents()))
    {
      var others := set u | u in users && users[u] != CRM_SERVICE;
      var cascaded := set a | a in mailboxes && mailboxes[a].userId in others;
      users, mailboxes, messages := users - others, mailboxes - cascaded, WithoutAccounts(messages, cascaded);
    }
  }
}
