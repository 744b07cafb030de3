/** The `mail_accounts` table: its row, every writer of a row, and the repository over it. */
module MailAccounts {
  import opened Seqs
  import Classifier

  /** Authenticated encryption bound to the mailbox id, as an inverse pair. */
  datatype Sealed = Sealed(plain: string, aad: int)

  function Encrypt(plain: string, id: int): Sealed {
    Sealed(plain, id)
  }

  /** None is the invalid-tag failure. */
  function Decrypt(s: Sealed, id: int): Option<string> {
    if s.aad == id then Some(s.plain) else None
  }

  datatype Host = Host(name: string, port: int, ssl: bool, starttls: bool)

  datatype Account = Account(
    id: int, userId: int, email: string,
    authType: Classifier.AuthType,
    password: Option<Sealed>,
    imapHost: Host, smtpHost: Host,
    smtpUsername: Option<string>, smtpPassword: Option<Sealed>,
    refreshToken: Option<string>, accessToken: Option<string>, accessExpiresAt: Option<int>,
    needsConsent: bool,
    isActive: bool,
    uidnext: Option<int>, uidvalidity: Option<int>,
    lastSyncedAt: Option<int>, lastSyncError: Option<string>,
    failures: int, alertSentAt: Option<int>)

  const NEEDS_CONSENT_ERROR := "oauth_needs_consent"

  /** Error texts are cut to 500 characters on write. */
  function Clip(error: string): string {
    if |error| <= 500 then error else error[..500]
  }

  /** Every statement that writes the status, cursor or token columns of one row. */
  datatype Write =
    | SyncSuccess(uidnext: Option<int>, uidvalidity: Option<int>, now: int)
    | TransientError(error: string)
    | SyncFailure(error: string, disable: bool)
    | DisableAndStamp(now: int)
    | NeedsConsent
    | NeedsConsentMarker
    | Tokens(refresh: Option<string>, access: Option<string>, expiresAt: Option<int>, consent: Option<bool>)
    | CredentialsReenabled
    | SetActive(active: bool)

  /** The WHERE clause beyond the id: false means that the statement changes no row. */
  predicate Guard(w: Write, a: Account) {
    match w
    case DisableAndStamp(_) => a.alertSentAt.None?
    case NeedsConsentMarker => a.lastSyncError != Some(NEEDS_CONSENT_ERROR)
    case _ => true
  }

  function Assign(w: Write, a: Account): Account {
    match w
    case SyncSuccess(n, v, now) =>
      a.(uidnext := n, uidvalidity := v, lastSyncedAt := Some(now), lastSyncError := None, failures := 0)
    case TransientError(e) => a.(lastSyncError := Some(Clip(e)))
    case SyncFailure(e, disable) =>
      var b := a.(failures := a.failures + 1, lastSyncError := Some(Clip(e)));
      if disable then b.(isActive := false) else b
    case DisableAndStamp(now) => a.(isActive := false, alertSentAt := Some(now))
    case NeedsConsent => a.(needsConsent := true, lastSyncError := Some(NEEDS_CONSENT_ERROR))
    case NeedsConsentMarker => a.(lastSyncError := Some(NEEDS_CONSENT_ERROR))
    case Tokens(refresh, access, expires, consent) =>
      a.(refreshToken := if refresh.Some? then refresh else a.refreshToken,
         accessToken := if access.Some? then access else a.accessToken,
         accessExpiresAt := if expires.Some? then expires else a.accessExpiresAt,
         needsConsent := consent.GetOr(a.needsConsent))
    case CredentialsReenabled => Reenabled(a)
    case SetActive(on) => if on then Reenabled(a) else a.(isActive := false)
  }

  function Reenabled(a: Account): Account {
    a.(isActive := true, lastSyncError := None, failures := 0, alertSentAt := None)
  }

  /** What the statement makes of the row. */
  function Perform(w: Write, a: Account): Account {
    if Guard(w, a) then Assign(w, a) else a
  }

  function PerformAt(rows: map<int, Account>, id: int, w: Write): (r: map<int, Account>)
    ensures r.Keys == rows.Keys
    ensures forall k :: k in rows && k != id ==> r[k] == rows[k]
  {
    if id in rows then rows[id := Perform(w, rows[id])] else rows
  }

  /** What each statement leaves in the columns of its row; those not named stay. */
  lemma SyncWrites(a: Account, uidnext: Option<int>, uidvalidity: Option<int>, now: int, error: string, disable: bool)
    ensures Perform(SyncSuccess(uidnext, uidvalidity, now), a)
            == a.(uidnext := uidnext, uidvalidity := uidvalidity, lastSyncedAt := Some(now),
                  lastSyncError := None, failures := 0)
    ensures var text := if |error| > 500 then error[..500] else error;
            && Perform(TransientError(error), a) == a.(lastSyncError := Some(text))
            && Perform(SyncFailure(error, disable), a)
               == a.(failures := a.failures + 1, lastSyncError := Some(text), isActive := a.isActive && !disable)
  {}

  lemma StatusWrites(a: Account, now: int, active: bool)
    ensures Perform(DisableAndStamp(now), a)
            == if a.alertSentAt.Some? then a else a.(isActive := false, alertSentAt := Some(now))
    ensures Perform(NeedsConsent, a) == a.(needsConsent := true, lastSyncError := Some("oauth_needs_consent"))
    ensures Perform(NeedsConsentMarker, a) == a.(lastSyncError := Some("oauth_needs_consent"))
    ensures Perform(CredentialsReenabled, a)
            == a.(isActive := true, lastSyncError := None, failures := 0, alertSentAt := None)
    ensures Perform(SetActive(active), a)
            == if active then Perform(CredentialsReenabled, a) else a.(isActive := false)
  {}

  lemma TokenWrites(a: Account, refresh: Option<string>, access: Option<string>, expiresAt: Option<int>,
                    consent: Option<bool>)
    ensures var b := Perform(Tokens(refresh, access, expiresAt, consent), a);
            && b.refreshToken == (if refresh.None? then a.refreshToken else refresh)
            && b.accessToken == (if access.None? then a.accessToken else access)
            && b.accessExpiresAt == (if expiresAt.None? then a.accessExpiresAt else expiresAt)
            && b.needsConsent == (if consent.None? then a.needsConsent else consent.value)
            && b == a.(refreshToken := b.refreshToken, accessToken := b.accessToken,
                       accessExpiresAt := b.accessExpiresAt, needsConsent := b.needsConsent)
  {}

  /** The four columns mirrored to the CRM. */
  datatype Status = Status(isActive: bool, lastSyncedAt: Option<int>, lastSyncError: Option<string>, failures: int)

  function StatusOf(a: Account): Status {
    Status(a.isActive, a.lastSyncedAt, a.lastSyncError, a.failures)
  }

  /** The CRM's copy and the row agree in all four columns. */
  predicate Mirrors(m: Status, a: Account) {
    && m.isActive == a.isActive && m.lastSyncedAt == a.lastSyncedAt
    && m.lastSyncError == a.lastSyncError && m.failures == a.failures
  }

  /** A snapshot shows its row, and two rows have the same snapshot exactly if they agree in those columns. */
  lemma SnapshotMirrorsRow(a: Account, b: Account)
    ensures Mirrors(StatusOf(a), a)
    ensures Mirrors(StatusOf(a), b) <==> StatusOf(a) == StatusOf(b)
  {}

  /** Token writes never touch the mirrored columns, so they need no status event. */
  lemma TokensKeepStatus(w: Write, a: Account)
    requires w.Tokens?
    ensures Mirrors(StatusOf(a), Perform(w, a)) && StatusOf(Perform(w, a)) == StatusOf(a)
    ensures a.refreshToken.Some? ==> Perform(w, a).refreshToken.Some?
    ensures w.refresh.None? ==> Perform(w, a).refreshToken == a.refreshToken
  {}

  /** `MailAccountsRepo`: each statement is one atomic update of the table. */
  class MailAccountsRepo {
    var rows: map<int, Account>

    constructor (rows: map<int, Account>)
      ensures this.rows == rows
    {
      this.rows := rows;
    }

    method MarkSyncSuccess(id: int, uidnext: Option<int>, uidvalidity: Option<int>, now: int)
      modifies this
      ensures rows == PerformAt(old(rows), id, SyncSuccess(uidnext, uidvalidity, now))
    {
      if id in rows {
        var a := rows[id];
        a := a.(uidnext := uidnext, uidvalidity := uidvalidity, lastSyncedAt := Some(now));
        a := a.(lastSyncError := None, failures := 0);
        rows := rows[id := a];
      }
    }

    method MarkTransientError(id: int, error: string)
      modifies this
      ensures rows == PerformAt(old(rows), id, TransientError(error))
    {
      if id in rows {
        rows := rows[id := rows[id].(lastSyncError := Some(Clip(error)))];
      }
    }

    method MarkSyncFailure(id: int, error: string, disable: bool) returns (failures: int)
      modifies this
      ensures rows == PerformAt(old(rows), id, SyncFailure(error, disable))
      ensures failures == if id in rows then rows[id].failures else 0
    {
      failures := 0;
      if id in rows {
        failures := rows[id].failures + 1;
        var a := rows[id].(failures := failures, lastSyncError := Some(Clip(error)));
        if disable {
          a := a.(isActive := false);
        }
        rows := rows[id := a];
      }
    }

    method DisableAndStampAlert(id: int, now: int) returns (transitioned: bool)
      modifies this
      ensures rows == PerformAt(old(rows), id, DisableAndStamp(now))
      ensures transitioned <==> id in old(rows) && old(rows)[id].alertSentAt.None?
    {
      transitioned := id in rows && rows[id].alertSentAt.None?;
      if transitioned {
        rows := rows[id := rows[id].(isActive := false, alertSentAt := Some(now))];
      }
    }

    method MarkOauthNeedsConsent(id: int)
      modifies this
      ensures rows == PerformAt(old(rows), id, NeedsConsent)
    {
      if id in rows {
        rows := rows[id := rows[id].(needsConsent := true, lastSyncError := Some(NEEDS_CONSENT_ERROR))];
      }
    }

    method MarkOauthNeedsConsentError(id: int) returns (written: bool)
      modifies this
      ensures rows == PerformAt(old(rows), id, NeedsConsentMarker)
      ensures written <==> rows != old(rows)
    {
      written := id in rows && rows[id].lastSyncError != Some(NEEDS_CONSENT_ERROR);
      if written {
        rows := rows[id := rows[id].(lastSyncError := Some(NEEDS_CONSENT_ERROR))];
        assert rows[id] != old(rows)[id];
      }
    }

    method UpdateOauthTokens(id: int, refresh: Option<string>, access: Option<string>,
                             expiresAt: Option<int>, consent: Option<bool>)
      modifies this
      ensures rows == PerformAt(old(rows), id, Tokens(refresh, access, expiresAt, consent))
    {
      if id in rows {
        var a := rows[id];
        if refresh.Some? { a := a.(refreshToken := refresh); }
        if access.Some? { a := a.(accessToken := access); }
        if expiresAt.Some? { a := a.(accessExpiresAt := expiresAt); }
        if consent.Some? { a := a.(needsConsent := consent.value); }
        rows := rows[id := a];
      }
    }
  }
}
