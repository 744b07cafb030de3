/** Daily retention: delete messages older than the threshold, one batch at a time. */
module Retention {
  import opened Seqs
  import opened Messages

  predicate Expired(m: Message, threshold: int) {
    m.internalDate < threshold
  }

  /** The query joins the mailbox, so only messages of existing mailboxes are found. */
  function SelectExpired(t: Table, accounts: set<int>, threshold: int, limit: nat): seq<int> {
    Ids(Take(Filter(t, (m: Message) => m.account in accounts && Expired(m, threshold)), limit))
  }

  /** The foreign key from messages to mailboxes. */
  ghost predicate ForeignKey(t: Table, accounts: set<int>) {
    forall m :: m in t ==> m.account in accounts
  }

  function Kept(t: Table, threshold: int): Table {
    Filter(t, (m: Message) => !Expired(m, threshold))
  }

  /** A batch is empty only when nothing expired is left. */
  lemma EmptyBatch(t: Table, accounts: set<int>, threshold: int, limit: nat)
    requires ForeignKey(t, accounts) && limit >= 1
    requires SelectExpired(t, accounts, threshold, limit) == []
    ensures Kept(t, threshold) == t
  {
    var found := Filter(t, (m: Message) => m.account in accounts && Expired(m, threshold));
    assert found == [];
    forall m | m in t ensures !Expired(m, threshold) {
      FilterMember(t, (m: Message) => m.account in accounts && Expired(m, threshold), m);
    }
    FilterAll(t, (m: Message) => !Expired(m, threshold));
  }

  /** Every id of a batch belongs to one expired row, so deleting the batch keeps what is kept. */
  lemma BatchIsExpired(t: Table, accounts: set<int>, threshold: int, limit: nat)
    requires Sorted(t)
    ensures var ids := SelectExpired(t, accounts, threshold, limit);
            && (forall m :: m in t && m.id in ids ==> Expired(m, threshold))
            && (forall id :: id in ids ==> HasId(t, id))
  {
    var p := (m: Message) => m.account in accounts && Expired(m, threshold);
    var found := Filter(t, p);
    var ids := SelectExpired(t, accounts, threshold, limit);
    FilterMembers(t, p);
    forall id | id in ids ensures exists r :: r in t && r.id == id && Expired(r, threshold) {
      var i :| 0 <= i < |ids| && ids[i] == id;
      assert found[i] in found && found[i].id == id;
    }
    forall m | m in t && m.id in ids ensures Expired(m, threshold) {
      var r :| r in t && r.id == m.id && Expired(r, threshold);
      SameId(t, m, r);
    }
  }

  lemma DeleteBatch(t: Table, accounts: set<int>, threshold: int, limit: nat)
    requires Sorted(t) && ForeignKey(t, accounts)
    requires SelectExpired(t, accounts, threshold, limit) != []
    ensures var after := Delete(t, SelectExpired(t, accounts, threshold, limit));
            && |after| < |t|
            && Kept(after, threshold) == Kept(t, threshold)
            && ForeignKey(after, accounts)
  {
    var ids := SelectExpired(t, accounts, threshold, limit);
    BatchIsExpired(t, accounts, threshold, limit);
    var notIn := (m: Message) => m.id !in ids;
    FilterMembers(t, notIn);
    var kept := (m: Message) => !Expired(m, threshold);
    FilterFilter(t, notIn, kept, kept);
    if |Delete(t, ids)| == |t| {
      assert HasId(t, ids[0]);
      var m :| m in t && m.id == ids[0];
      FilterLengths(t, notIn, (m: Message) => m.id in ids);
      FilterMember(t, (m: Message) => m.id in ids, m);
      assert false;
    }
  }

  /** The loop ends, removes exactly the messages older than the threshold fixed at its start and
      reports how many those were. */
  method RetentionCleanup(repo: MessagesRepo, accounts: set<int>, threshold: int, batch: nat)
    returns (totalDeleted: nat)
    requires repo.Valid() && ForeignKey(repo.rows, accounts) && batch >= 1
    modifies repo`rows
    ensures repo.Valid() && repo.rows == Kept(old(repo.rows), threshold)
    ensures totalDeleted == |Filter(old(repo.rows), (m: Message) => Expired(m, threshold))|
  {
    totalDeleted := 0;
    while true
      invariant repo.Valid() && ForeignKey(repo.rows, accounts)
      invariant Kept(repo.rows, threshold) == Kept(old(repo.rows), threshold)
      invariant totalDeleted + |repo.rows| == |old(repo.rows)|
      decreases |repo.rows|
    {
      var ids := SelectExpired(repo.rows, accounts, threshold, batch);
      if ids == [] {
        EmptyBatch(repo.rows, accounts, threshold, batch);
        break;
      }
      DeleteBatch(repo.rows, accounts, threshold, batch);
      var deleted := repo.DeleteMessages(ids);
      totalDeleted := totalDeleted + deleted;
    }
    ExpiredIsTheRest(old(repo.rows), threshold);
  }

  lemma ExpiredIsTheRest(t: Table, threshold: int)
    ensures |Filter(t, (m: Message) => Expired(m, threshold))| + |Kept(t, threshold)| == |t|
  {
    FilterLengths(t, (m: Message) => Expired(m, threshold), (m: Message) => !Expired(m, threshold));
  }

  /** Read row by row: a message survives iff it is not older than the threshold. */
  lemma SurvivesIff(t: Table, threshold: int, m: Message)
    ensures m in Kept(t, threshold) <==> m in t && m.internalDate >= threshold
  {
    FilterMember(t, (m: Message) => !Expired(m, threshold), m);
  }
}
