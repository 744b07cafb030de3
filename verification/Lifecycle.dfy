/** Account lifecycle: what every run of all the writers keeps. */
module Lifecycle {
  import opened Seqs
  import opened MailAccounts

  /** A new row, as both inserts create it. */
  predicate Fresh(a: Account) {
    a.isActive && a.failures == 0 && a.alertSentAt.None?
  }

  function Run(a: Account, ws: seq<Write>): Account {
    if ws == [] then a else Perform(ws[|ws| - 1], Run(a, ws[..|ws| - 1]))
  }

  predicate StampMeansInactive(a: Account) {
    a.alertSentAt.Some? ==> !a.isActive
  }

  lemma {:induction false} StampInvariant(a: Account, ws: seq<Write>)
    requires StampMeansInactive(a)
    ensures StampMeansInactive(Run(a, ws))
  {
    if ws != [] {
      StampInvariant(a, ws[..|ws| - 1]);
    }
  }

  /** On every reachable active mailbox the guarded disable takes effect: it switches the mailbox off,
      stamps it, and touches nothing else. */
  lemma DisableTakesEffect(a: Account, ws: seq<Write>, now: int)
    requires Fresh(a) && Run(a, ws).isActive
    ensures Guard(DisableAndStamp(now), Run(a, ws))
    ensures Run(a, ws + [DisableAndStamp(now)]) == Run(a, ws).(isActive := false, alertSentAt := Some(now))
  {
    StampInvariant(a, ws);
    var w := DisableAndStamp(now);
    assert (ws + [w])[..|ws|] == ws;
  }

  /** A successful sync or an administrator's re-enable. */
  predicate Resets(w: Write) {
    w.SyncSuccess? || w.CredentialsReenabled? || (w.SetActive? && w.active)
  }

  /** The permanent failures recorded in `ws` from position `from` on. */
  function Failures(ws: seq<Write>, from: nat): nat
    requires from <= |ws|
    decreases |ws| - from
  {
    if from == |ws| then 0 else (if ws[from].SyncFailure? then 1 else 0) + Failures(ws, from + 1)
  }

  /** `from` is just past the last reset of the run (0 when there was none). */
  ghost predicate AfterLastReset(ws: seq<Write>, from: nat) {
    && from <= |ws|
    && (from > 0 ==> Resets(ws[from - 1]))
    && forall i :: from <= i < |ws| ==> !Resets(ws[i])
  }

  lemma {:induction false} FailuresSplit(ws: seq<Write>, from: nat)
    requires from < |ws|
    ensures Failures(ws, from) == Failures(ws[..|ws| - 1], from) + (if ws[|ws| - 1].SyncFailure? then 1 else 0)
    decreases |ws| - from
  {
    if from < |ws| - 1 {
      FailuresSplit(ws, from + 1);
    }
  }

  /** The counter is exactly the number of recorded permanent failures since the last success
      or re-enable: transient, needs-consent, token and deactivation writes never move it. */
  lemma {:induction false} CounterIsExact(a: Account, ws: seq<Write>, from: nat)
    requires Fresh(a) && AfterLastReset(ws, from)
    ensures Run(a, ws).failures == Failures(ws, from)
  {
    if from < |ws| {
      var before := ws[..|ws| - 1];
      CounterIsExact(a, before, from);
      FailuresSplit(ws, from);
    }
  }

  /** The writes an administrator makes; all others come from the worker. */
  predicate ByAdmin(w: Write) {
    w.CredentialsReenabled? || w.SetActive?
  }

  /** Once inactive, a mailbox stays inactive through any number of worker steps. */
  lemma {:induction false} WorkerNeverReactivates(a: Account, ws: seq<Write>)
    requires !a.isActive
    requires forall i :: 0 <= i < |ws| ==> !ByAdmin(ws[i])
    ensures !Run(a, ws).isActive
  {
    if ws != [] {
      WorkerNeverReactivates(a, ws[..|ws| - 1]);
    }
  }

  /** Between a disable with its stamp and the next re-enable the stamp is never moved, so one
      down-alert belongs to one transition. */
  lemma {:induction false} StampIsSticky(a: Account, ws: seq<Write>)
    requires a.alertSentAt.Some?
    requires forall i :: 0 <= i < |ws| ==> !ws[i].CredentialsReenabled? && ws[i] != SetActive(true)
    ensures Run(a, ws).alertSentAt == a.alertSentAt
  {
    if ws != [] {
      StampIsSticky(a, ws[..|ws| - 1]);
    }
  }
}
