/** The two-phase pass over one batch of accounts: collect outcomes, then bump and disable
    unless the circuit-breaker trips. */
module Breaker {
  import opened Seqs
  import opened MailAccounts
  import Classifier
  import DeferredFlush

  datatype Outcome = Ok | TransientOutcome | PermanentOutcome(error: string, explicit: bool)

  datatype Result = Result(account: int, newCount: nat, outcome: Outcome)

  /** What gather returns for one account: its result, or an exception that escaped it. */
  datatype Raw = Done(result: Result) | Crashed(error: string)

  datatype Config = Config(maxFailures: int, massMin: int, massRatio: real)

  /** Phase 0: the result that a classified error produces. */
  function ErrorResult(account: int, s: Classifier.Subject, auth: Option<Classifier.AuthType>, text: string): Result {
    if Classifier.Classify(s, auth) == Classifier.Transient then Result(account, 0, TransientOutcome)
    else Result(account, 0, PermanentOutcome(text, Classifier.IsExplicitPermanent(s, auth)))
  }

  /** Every permanent result that the classifier can produce disables at once, so the
      consecutive-failures threshold is never what decides. */
  lemma ThresholdBranchUnreachable(account: int, s: Classifier.Subject, auth: Option<Classifier.AuthType>, text: string)
    ensures var o := ErrorResult(account, s, auth, text).outcome;
            o.PermanentOutcome? <==> Classifier.IsExplicitPermanent(s, auth)
    ensures var o := ErrorResult(account, s, auth, text).outcome; o.PermanentOutcome? ==> o.explicit
  {
    Classifier.PrefixAndClassAgree(s, auth);
  }

  function Permanents(rs: seq<Result>): seq<Result> {
    Filter(rs, (r: Result) => r.outcome.PermanentOutcome?)
  }

  predicate Tripped(cfg: Config, permanent: nat, total: nat) {
    && total >= cfg.massMin
    && (if total == 0 then 0.0 else permanent as real / total as real) >= cfg.massRatio
  }

  /** Phase 2 for one result: only a permanent one has a penalty. */
  function Penalise(rows: map<int, Account>, r: Result, cfg: Config, now: int): map<int, Account> {
    match r.outcome
    case PermanentOutcome(error, explicit) =>
      var bumped := PerformAt(rows, r.account, SyncFailure(error, false));
      var failures := if r.account in bumped then bumped[r.account].failures else 0;
      if explicit || failures >= cfg.maxFailures
      then PerformAt(bumped, r.account, DisableAndStamp(now))
      else bumped
    case _ => rows
  }

  function PenaliseAll(rows: map<int, Account>, rs: seq<Result>, cfg: Config, now: int): map<int, Account> {
    if rs == [] then rows
    else Penalise(PenaliseAll(rows, rs[..|rs| - 1], cfg, now), rs[|rs| - 1], cfg, now)
  }

  ghost predicate AllPermanent(rs: seq<Result>) {
    forall i :: 0 <= i < |rs| ==> rs[i].outcome.PermanentOutcome?
  }

  ghost predicate Distinct(rs: seq<Result>) {
    forall i, j :: 0 <= i < j < |rs| ==> rs[i].account != rs[j].account
  }

  predicate Names(rs: seq<Result>, id: int) {
    exists i :: 0 <= i < |rs| && rs[i].account == id
  }

  lemma NamesOneMore(rs: seq<Result>, id: int)
    requires Distinct(rs) && rs != []
    ensures var init, last := rs[..|rs| - 1], rs[|rs| - 1];
            && (Names(rs, id) <==> Names(init, id) || last.account == id)
            && !(Names(init, id) && last.account == id)
  {
    var init := rs[..|rs| - 1];
    if Names(init, id) {
      var i :| 0 <= i < |init| && init[i].account == id;
      assert rs[i].account == id;
    }
  }

  /** One penalty: its own mailbox is bumped and may be switched off, every other row stays. */
  lemma PenaliseEffect(rows: map<int, Account>, r: Result, cfg: Config, now: int, id: int)
    requires r.outcome.PermanentOutcome? && id in rows
    ensures var after := Penalise(rows, r, cfg, now);
            && after.Keys == rows.Keys
            && (id != r.account ==> after[id] == rows[id])
            && (id == r.account ==>
                  && after[id].failures == rows[id].failures + 1
                  && after[id].lastSyncError == Some(Clip(r.outcome.error)) && after[id].uidnext == rows[id].uidnext)
            && (after[id].isActive ==> rows[id].isActive)
  {}

  /** On distinct accounts every named mailbox is bumped by exactly one, no other mailbox
      changes at all, and only named ones can lose their active flag. */
  lemma {:induction false} PenaliseAllEffect(rows: map<int, Account>, rs: seq<Result>, cfg: Config, now: int, id: int)
    requires AllPermanent(rs) && Distinct(rs) && id in rows
    ensures PenaliseAll(rows, rs, cfg, now).Keys == rows.Keys
    ensures var after := PenaliseAll(rows, rs, cfg, now);
            && after[id].failures == rows[id].failures + (if Names(rs, id) then 1 else 0)
            && (!Names(rs, id) ==> after[id] == rows[id])
            && (after[id].isActive ==> rows[id].isActive)
            && forall k :: 0 <= k < |rs| && rs[k].account == id ==>
                 after[id].lastSyncError == Some(Clip(rs[k].outcome.error))
  {
    if rs != [] {
      var k := |rs| - 1;
      var init := rs[..k];
      PenaliseAllEffect(rows, init, cfg, now, id);
      NamesOneMore(rs, id);
      hide Penalise;
      PenaliseEffect(PenaliseAll(rows, init, cfg, now), rs[k], cfg, now, id);
    }
  }

  /** When the breaker does not trip, an active named mailbox is disabled exactly if its failure
      was explicit or its counter reached the threshold. */
  lemma {:induction false} DisabledExactly(rows: map<int, Account>, rs: seq<Result>, cfg: Config, now: int, k: nat)
    requires AllPermanent(rs) && Distinct(rs) && k < |rs|
    requires var id := rs[k].account; id in rows && rows[id].isActive && rows[id].alertSentAt.None?
    ensures var id := rs[k].account; id in PenaliseAll(rows, rs, cfg, now)
    ensures var id := rs[k].account;
            !PenaliseAll(rows, rs, cfg, now)[id].isActive
            <==> rs[k].outcome.explicit || rows[id].failures + 1 >= cfg.maxFailures
  {
    var id := rs[k].account;
    var init := rs[..|rs| - 1];
    PenaliseAllEffect(rows, init, cfg, now, id);
    if k < |rs| - 1 {
      assert init[k] == rs[k];
      DisabledExactly(rows, init, cfg, now, k);
    } else {
      assert !Names(init, id);
    }
  }

  /** The mailboxes switched off between two versions of the table. */
  ghost function Disabled(before: map<int, Account>, after: map<int, Account>): set<int> {
    set id | id in before && id in after && before[id].isActive && !after[id].isActive
  }

  ghost function Accounts(rs: seq<Result>): set<int> {
    set i | 0 <= i < |rs| :: rs[i].account
  }

  lemma {:induction false} AccountsBound(rs: seq<Result>)
    ensures |Accounts(rs)| <= |rs|
  {
    if rs != [] {
      var k := |rs| - 1;
      AccountsBound(rs[..k]);
      assert Accounts(rs) == Accounts(rs[..k]) + {rs[k].account};
    }
  }

  lemma SubsetSize(a: set<int>, b: set<int>)
    requires a <= b
    ensures |a| <= |b|
  {
    assert b == a + (b - a);
  }

  lemma DisabledAtMostPermanent(rows: map<int, Account>, rs: seq<Result>, cfg: Config, now: int)
    requires AllPermanent(rs) && Distinct(rs)
    ensures |Disabled(rows, PenaliseAll(rows, rs, cfg, now))| <= |rs|
  {
    var after := PenaliseAll(rows, rs, cfg, now);
    forall id | id in Disabled(rows, after) ensures id in Accounts(rs) {
      PenaliseAllEffect(rows, rs, cfg, now, id);
      var i :| 0 <= i < |rs| && rs[i].account == id;
    }
    AccountsBound(rs);
    SubsetSize(Disabled(rows, after), Accounts(rs));
  }

  lemma {:induction false} FilterKeepsDistinct(rs: seq<Result>)
    requires Distinct(rs)
    ensures Distinct(Permanents(rs)) && AllPermanent(Permanents(rs))
    ensures forall r :: r in Permanents(rs) <==> r in rs && r.outcome.PermanentOutcome?
  {
    FilterMembers(rs, (r: Result) => r.outcome.PermanentOutcome?);
    if rs != [] {
      FilterKeepsDistinct(rs[1..]);
      assert forall r :: r in rs[1..] ==> r.account != rs[0].account;
    }
  }

  /** The table after phase 2. */
  function AfterPass(rows: map<int, Account>, rs: seq<Result>, cfg: Config, now: int): map<int, Account> {
    if Tripped(cfg, |Permanents(rs)|, |rs|) then rows
    else PenaliseAll(rows, Permanents(rs), cfg, now)
  }

  ghost predicate FailedPermanently(rs: seq<Result>, id: int) {
    exists r :: r in rs && r.account == id && r.outcome.PermanentOutcome?
  }

  /** The positions of the permanent results. */
  ghost function Failures(rs: seq<Result>): set<int> {
    set i | 0 <= i < |rs| && rs[i].outcome.PermanentOutcome?
  }

  /** Enough results, and the permanent ones make up at least the given share of them. */
  ghost predicate MassFailure(cfg: Config, rs: seq<Result>) {
    |rs| >= cfg.massMin && |Failures(rs)| as real >= cfg.massRatio * |rs| as real
  }

  lemma TrippedIff(cfg: Config, rs: seq<Result>)
    requires rs != []
    ensures Tripped(cfg, |Permanents(rs)|, |rs|) <==> MassFailure(cfg, rs)
  {
    var permanent := (r: Result) => r.outcome.PermanentOutcome?;
    FilterCount(rs, |rs|, permanent);
    assert rs[..|rs|] == rs;
    assert Before(rs, |rs|, permanent) == Failures(rs);
    ShareIff(|Permanents(rs)| as real, cfg.massRatio, |rs| as real);
  }

  lemma ShareIff(part: real, ratio: real, whole: real)
    requires whole > 0.0
    ensures part / whole >= ratio <==> part >= ratio * whole
  {
    var share := part / whole;
    assert share * whole == part;
    if share >= ratio {
      assert (share - ratio) * whole >= 0.0;
    } else {
      Scale(part, ratio, whole);
    }
  }

  lemma NothingToPenalise(rows: map<int, Account>, cfg: Config, now: int)
    ensures Permanents([]) == [] && PenaliseAll(rows, [], cfg, now) == rows
  {}

  /** What phase 2 makes of one mailbox. */
  lemma Penalised(rows: map<int, Account>, rs: seq<Result>, cfg: Config, now: int, id: int)
    requires Distinct(rs) && id in rows
    ensures var after := PenaliseAll(rows, Permanents(rs), cfg, now);
            && after.Keys == rows.Keys
            && after[id].failures == rows[id].failures + (if FailedPermanently(rs, id) then 1 else 0)
            && (!FailedPermanently(rs, id) ==> after[id] == rows[id])
            && (after[id].isActive ==> rows[id].isActive)
            && forall r :: r in rs && r.account == id && r.outcome.PermanentOutcome? ==>
                 after[id].lastSyncError == Some(Clip(r.outcome.error))
  {
    FilterKeepsDistinct(rs);
    var ps := Permanents(rs);
    PenaliseAllEffect(rows, ps, cfg, now, id);
    hide Permanents, PenaliseAll;
    if Names(ps, id) {
      var i :| 0 <= i < |ps| && ps[i].account == id;
      assert ps[i] in rs;
    }
    forall r | r in rs && r.account == id && r.outcome.PermanentOutcome?
      ensures Names(ps, id)
      ensures PenaliseAll(rows, ps, cfg, now)[id].lastSyncError == Some(Clip(r.outcome.error))
    {
      var i :| 0 <= i < |ps| && ps[i] == r;
    }
  }

  /** All or nothing: when enough results came and enough of them are permanent failures, the breaker
      trips and no row changes; otherwise exactly the permanently failed mailboxes are bumped, each by one
      and with its own error, and every other row is untouched. */
  lemma PassIsAllOrNothing(rows: map<int, Account>, rs: seq<Result>, cfg: Config, now: int, id: int)
    requires Distinct(rs) && id in rows
    ensures AfterPass(rows, rs, cfg, now).Keys == rows.Keys
    ensures |rs| >= cfg.massMin && |Failures(rs)| as real >= cfg.massRatio * |rs| as real ==>
              AfterPass(rows, rs, cfg, now) == rows
    ensures |rs| < cfg.massMin || |Failures(rs)| as real < cfg.massRatio * |rs| as real ==>
              var after := AfterPass(rows, rs, cfg, now);
              && after[id].failures == rows[id].failures + (if FailedPermanently(rs, id) then 1 else 0)
              && (!FailedPermanently(rs, id) ==> after[id] == rows[id])
              && (after[id].isActive ==> rows[id].isActive)
              && forall r :: r in rs && r.account == id && r.outcome.PermanentOutcome? ==>
                   after[id].lastSyncError == Some(Clip(r.outcome.error))
  {
    hide Tripped, Permanents, PenaliseAll, Failures;
    if rs == [] {
      NothingToPenalise(rows, cfg, now);
    } else {
      TrippedIff(cfg, rs);
    }
    Penalised(rows, rs, cfg, now, id);
  }

  /** max(massMin, massRatio * total). */
  function Bound(cfg: Config, total: nat): real {
    var scaled := cfg.massRatio * total as real;
    if scaled > cfg.massMin as real then scaled else cfg.massMin as real
  }

  lemma Scale(part: real, ratio: real, whole: real)
    requires whole > 0.0 && part / whole < ratio
    ensures part < ratio * whole
  {
    var share := part / whole;
    assert share * whole == part;
    var gap := ratio - share;
    assert gap > 0.0 && gap * whole > 0.0;
    assert ratio * whole == share * whole + gap * whole;
  }

  lemma UntrippedIsFew(cfg: Config, permanent: nat, total: nat)
    requires cfg.massMin >= 1 && permanent <= total && !Tripped(cfg, permanent, total)
    ensures permanent as real < Bound(cfg, total)
  {
    if total >= cfg.massMin {
      Scale(permanent as real, cfg.massRatio, total as real);
    }
  }

  /** However the batch went, one pass switches off strictly fewer mailboxes than the breaker's
      threshold: a common outage cannot disable everything. */
  lemma PassDisablesFew(rows: map<int, Account>, rs: seq<Result>, cfg: Config, now: int)
    requires Distinct(rs) && cfg.massMin >= 1
    ensures |Disabled(rows, AfterPass(rows, rs, cfg, now))| as real < Bound(cfg, |rs|)
  {
    var ps := Permanents(rs);
    if Tripped(cfg, |ps|, |rs|) {
      assert Disabled(rows, rows) == {};
    } else {
      FilterKeepsDistinct(rs);
      DisabledAtMostPermanent(rows, ps, cfg, now);
      UntrippedIsFew(cfg, |ps|, |rs|);
    }
  }

  // ---------------------------------------------------------------- the pass as it runs

  function Results(raw: seq<Raw>): seq<Result> {
    if raw == [] then []
    else Results(raw[..|raw| - 1])
         + (match raw[|raw| - 1] case Done(r) => [r] case Crashed(_) => [])
  }

  /** A result that escaped as an exception is written as a transient error. */
  function RecordCrashes(rows: map<int, Account>, accounts: seq<int>, raw: seq<Raw>): map<int, Account>
    requires |accounts| == |raw|
  {
    if raw == [] then rows
    else
      var k := |raw| - 1;
      var before := RecordCrashes(rows, accounts[..k], raw[..k]);
      match raw[k]
      case Done(_) => before
      case Crashed(e) => PerformAt(before, accounts[k], TransientError(e))
  }

  function OkCount(rs: seq<Result>): nat {
    |Filter(rs, (r: Result) => r.outcome.Ok?)|
  }

  function NewMessages(rs: seq<Result>): nat {
    if rs == [] then 0 else NewMessages(rs[..|rs| - 1]) + rs[|rs| - 1].newCount
  }

  /** A crash leaves its text in the row of its account and nothing else; no other row changes. */
  lemma {:induction false} CrashLeavesText(rows: map<int, Account>, accounts: seq<int>, raw: seq<Raw>, id: int)
    requires |accounts| == |raw| && id in rows
    requires forall i, j :: 0 <= i < j < |accounts| ==> accounts[i] != accounts[j]
    ensures var after := RecordCrashes(rows, accounts, raw);
            && after.Keys == rows.Keys
            && (forall k :: 0 <= k < |raw| && accounts[k] == id && raw[k].Crashed? ==>
                  after[id] == rows[id].(lastSyncError := Some(Clip(raw[k].error))))
            && ((forall k :: 0 <= k < |raw| && accounts[k] == id ==> raw[k].Done?) ==> after[id] == rows[id])
  {
    if raw != [] {
      var k := |raw| - 1;
      CrashLeavesText(rows, accounts[..k], raw[..k], id);
      assert forall i :: 0 <= i < k ==> accounts[..k][i] == accounts[i] && raw[..k][i] == raw[i];
    }
  }

  /** The accounts that went well. */
  ghost function Good(raw: seq<Raw>): set<int> {
    set i | 0 <= i < |raw| && raw[i].Done? && raw[i].result.outcome.Ok?
  }

  lemma {:induction false} OkCountIsGood(raw: seq<Raw>)
    ensures OkCount(Results(raw)) == |Good(raw)|
  {
    var ok := (r: Result) => r.outcome.Ok?;
    if raw != [] {
      var k := |raw| - 1;
      OkCountIsGood(raw[..k]);
      var last := match raw[k] case Done(r) => [r] case Crashed(_) => [];
      FilterAppend(Results(raw[..k]), last, ok);
      assert Good(raw) == Good(raw[..k]) + (if raw[k].Done? && raw[k].result.outcome.Ok? then {k} else {});
    }
  }

  /** The total of a cycle does not depend on how its accounts are cut into batches. */
  lemma {:induction false} TotalOfBatches(a: seq<Result>, b: seq<Result>, r: Result)
    ensures NewMessages(a + b) == NewMessages(a) + NewMessages(b)
    ensures NewMessages([r]) == r.newCount
  {
    if b == [] {
      assert a + b == a;
    } else {
      var k := |b| - 1;
      assert (a + b)[..|a| + k] == a + b[..k];
      TotalOfBatches(a, b[..k], r);
    }
    assert [r][..0] == [];
  }

  lemma NothingCollected(rows: map<int, Account>, accounts: seq<int>, raw: seq<Raw>)
    requires |accounts| == |raw|
    ensures Results(raw[..0]) == [] && NewMessages([]) == 0
    ensures RecordCrashes(rows, accounts[..0], raw[..0]) == rows
  {}

  lemma OneMoreCollected(rows: map<int, Account>, accounts: seq<int>, raw: seq<Raw>, i: nat)
    requires |accounts| == |raw| && i < |raw|
    ensures var before, rs := RecordCrashes(rows, accounts[..i], raw[..i]), Results(raw[..i]);
            && RecordCrashes(rows, accounts[..i + 1], raw[..i + 1])
               == (match raw[i] case Done(_) => before
                   case Crashed(e) => PerformAt(before, accounts[i], TransientError(e)))
            && Results(raw[..i + 1]) == (match raw[i] case Done(r) => rs + [r] case Crashed(_) => rs)
            && (raw[i].Done? ==> NewMessages(rs + [raw[i].result]) == NewMessages(rs) + raw[i].result.newCount)
  {
    assert raw[..i + 1][..i] == raw[..i] && accounts[..i + 1][..i] == accounts[..i];
    assert raw[i].Done? ==> (Results(raw[..i]) + [raw[i].result])[..|Results(raw[..i])|] == Results(raw[..i]);
  }

  /** Phase 1: every account of the batch is either a result or a crash, and crashes leave an error text. */
  method Collect(repo: MailAccountsRepo, accounts: seq<int>, raw: seq<Raw>)
    returns (results: seq<Result>, unexpected: nat, newMsgs: nat)
    requires |accounts| == |raw|
    modifies repo
    ensures repo.rows == RecordCrashes(old(repo.rows), accounts, raw)
    ensures results == Results(raw) && unexpected + |results| == |accounts|
    ensures newMsgs == NewMessages(results)
  {
    results, unexpected, newMsgs := [], 0, 0;
    var i := 0;
    hide *;
    NothingCollected(repo.rows, accounts, raw);
    while i < |raw|
      invariant 0 <= i <= |raw|
      invariant results == Results(raw[..i]) && newMsgs == NewMessages(results)
      invariant unexpected + |results| == i
      invariant repo.rows == RecordCrashes(old(repo.rows), accounts[..i], raw[..i])
    {
      OneMoreCollected(old(repo.rows), accounts, raw, i);
      match raw[i] {
        case Crashed(error) =>
          repo.MarkTransientError(accounts[i], error);
          unexpected := unexpected + 1;
        case Done(r) =>
          results := results + [r];
          newMsgs := newMsgs + r.newCount;
      }
      i := i + 1;
    }
    assert raw[..i] == raw && accounts[..i] == accounts;
  }

  /** Phase 2: a tripped breaker suppresses every penalty. */
  method Decide(repo: MailAccountsRepo, results: seq<Result>, cfg: Config, now: int)
    modifies repo
    ensures repo.rows == AfterPass(old(repo.rows), results, cfg, now)
  {
    var permanent := Permanents(results);
    if !Tripped(cfg, |permanent|, |results|) {
      PenaliseLoop(repo, permanent, cfg, now);
    }
  }

  /** One pass: the table ends as specified, and every account of the batch is counted once,
      as good or as failed. */
  method RunForAccounts(repo: MailAccountsRepo, accounts: seq<int>, raw: seq<Raw>, cfg: Config, now: int)
    returns (ok: nat, failed: nat, newMsgs: nat)
    requires |accounts| == |raw|
    modifies repo
    ensures repo.rows == AfterPass(RecordCrashes(old(repo.rows), accounts, raw), Results(raw), cfg, now)
    ensures ok == |Good(raw)| && ok + failed == |accounts|
    ensures newMsgs == NewMessages(Results(raw))
  {
    var results, unexpected;
    results, unexpected, newMsgs := Collect(repo, accounts, raw);
    ok := OkCount(results);
    OkCountIsGood(raw);
    failed := |results| - ok + unexpected;
    Decide(repo, results, cfg, now);
  }

  method PenaliseLoop(repo: MailAccountsRepo, permanent: seq<Result>, cfg: Config, now: int)
    modifies repo
    ensures repo.rows == PenaliseAll(old(repo.rows), permanent, cfg, now)
  {
    var i := 0;
    while i < |permanent|
      invariant 0 <= i <= |permanent|
      invariant repo.rows == PenaliseAll(old(repo.rows), permanent[..i], cfg, now)
    {
      assert permanent[..i + 1][..i] == permanent[..i];
      match permanent[i].outcome {
        case PermanentOutcome(error, explicit) =>
          var id := permanent[i].account;
          var newFailed := repo.MarkSyncFailure(id, error, false);
          if explicit {
            var _ := repo.DisableAndStampAlert(id, now);
          } else if newFailed >= cfg.maxFailures {
            var _ := repo.DisableAndStampAlert(id, now);
          }
        case _ =>
      }
      i := i + 1;
    }
    assert permanent[..i] == permanent;
  }

  /** The marker of a mailbox skipped for want of consent: its status event is queued exactly when the
      mirrored status changed, so a dead mailbox announces itself once and not in every cycle. */
  method RecordNeedsConsentMarker(repo: MailAccountsRepo, queue: DeferredFlush.StatusList, id: int)
    modifies repo, queue
    ensures repo.rows == PerformAt(old(repo.rows), id, NeedsConsentMarker)
    ensures var changed := id in old(repo.rows) && !Mirrors(StatusOf(old(repo.rows)[id]), repo.rows[id]);
            queue.items == if changed then [id] + old(queue.items) else old(queue.items)
  {
    var written := repo.MarkOauthNeedsConsentError(id);
    if written {
      queue.Lpush(id);
    }
  }
}
