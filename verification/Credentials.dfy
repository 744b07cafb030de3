/** SMTP and IMAP credentials of password mailboxes: what a connection test probes and what a
    send uses. */
module Credentials {
  import opened Seqs
  import opened Text
  import opened MailAccounts

  const SENTINELS := ["none", "null", "undefined"]

  predicate IsAbsent(value: string) {
    Strip(value) == "" || Lower(Strip(value)) in SENTINELS
  }

  function NormalizeLogin(value: Option<string>): Option<string> {
    if value.None? || IsAbsent(value.value) then None else Some(Strip(value.value))
  }

  function NormalizeSecret(value: Option<string>): Option<string> {
    if value.None? || IsAbsent(value.value) then None else value
  }

  /** Scrubbing twice is scrubbing once; a usable login is trimmed and non-empty, a usable secret
      is untouched. */
  lemma NormalizeTwice(v: Option<string>)
    ensures NormalizeLogin(NormalizeLogin(v)) == NormalizeLogin(v)
    ensures NormalizeSecret(NormalizeSecret(v)) == NormalizeSecret(v)
    ensures NormalizeLogin(v).Some? <==> NormalizeSecret(v).Some?
    ensures NormalizeSecret(v).Some? ==> NormalizeSecret(v) == v
    ensures NormalizeLogin(v).Some? ==> NormalizeLogin(v).value != ""
  {
    if v.Some? {
      StripIdempotent(v.value);
    }
  }

  /** Between the white space at its ends, the value is empty or spells one of three words in any case. */
  ghost predicate SpellsNothing(value: string, pre: string, word: string, post: string) {
    && value == pre + word + post && AllSpace(pre) && AllSpace(post)
    && (word == "" || Lower(word) == "none" || Lower(word) == "null" || Lower(word) == "undefined")
  }

  lemma SpaceIsNoLetter(c: char)
    ensures IsSpace(c) ==> LowerChar(c) == [c] && !('a' <= c <= 'z')
  {}

  lemma NoSpaceAhead(word: string)
    requires word != "" && Lower(word) != "" && 'a' <= Lower(word)[0] <= 'z'
    ensures !IsSpace(word[0])
  {
    hide IsSpace, LowerChar;
    SpaceIsNoLetter(word[0]);
  }

  lemma NoSpaceBehind(word: string)
    requires word != "" && Lower(word) != "" && 'a' <= Lower(word)[|Lower(word)| - 1] <= 'z'
    ensures !IsSpace(word[|word| - 1])
  {
    hide IsSpace, LowerChar;
    var k := |word| - 1;
    SpaceIsNoLetter(word[k]);
    assert word == word[..k] + [word[k]];
    LowerAppend(word[..k], [word[k]]);
    assert Lower([word[k]]) == LowerChar(word[k]);
  }

  lemma NoSpaceAtEnds(word: string)
    requires word != "" && (Lower(word) == "none" || Lower(word) == "null" || Lower(word) == "undefined")
    ensures !IsSpace(word[0]) && !IsSpace(word[|word| - 1])
  {
    hide IsSpace, Lower;
    NoSpaceAhead(word);
    NoSpaceBehind(word);
  }

  /** Which values count as absent. */
  lemma AbsentIff(value: string)
    ensures IsAbsent(value) <==> exists pre, word, post :: SpellsNothing(value, pre, word, post)
  {
    var l, r := StripParts(value);
    if IsAbsent(value) {
      assert SpellsNothing(value, l, Strip(value), r);
    }
    if pre, word, post :| SpellsNothing(value, pre, word, post) {
      if word != "" {
        NoSpaceAtEnds(word);
      }
      StripOf(pre, word, post);
    }
  }

  /** Python's `x or y` on an optional string. */
  function OrElse(x: Option<string>, y: string): string {
    if x.None? || x.value == "" then y else x.value
  }

  /** One login attempt at one server. */
  datatype Attempt = Attempt(host: Host, username: string, secret: string)

  datatype Probe = Probe(imapLogin: Attempt, smtpLogin: Attempt)

  /** The ad-hoc probe; its request schema has already scrubbed the SMTP fields. */
  function ProbeOf(email: string, password: string, imapHost: Host, smtpHost: Host,
                   smtpUsername: Option<string>, smtpPassword: Option<string>): Probe
  {
    Probe(Attempt(imapHost, email, password),
          Attempt(smtpHost, OrElse(NormalizeLogin(smtpUsername), email),
                  OrElse(NormalizeSecret(smtpPassword), password)))
  }

  /** None: a stored secret does not decrypt (or the password column is NULL). */
  function Secret(s: Option<Sealed>, id: int): Option<string> {
    if s.None? then None else Decrypt(s.value, id)
  }

  /** The probe of a stored password mailbox. */
  function ProbeStored(a: Account): Option<Probe> {
    var imapPwd := Secret(a.password, a.id);
    if imapPwd.None? then None
    else if a.smtpPassword.Some? && Secret(a.smtpPassword, a.id).None? then None
    else
      var stored := NormalizeSecret(Secret(a.smtpPassword, a.id));
      var smtpPwd := stored.GetOr(imapPwd.value);
      Some(ProbeOf(a.email, imapPwd.value, a.imapHost, a.smtpHost, a.smtpUsername, Some(smtpPwd)))
  }

  /** The SMTP login of a send from a stored password mailbox. */
  function SendAttempt(a: Account): Option<Attempt> {
    if a.smtpPassword.Some? && Secret(a.smtpPassword, a.id).None? then None
    else
      var dedicated := NormalizeSecret(Secret(a.smtpPassword, a.id));
      var pwd := if dedicated.Some? then dedicated else Secret(a.password, a.id);
      if pwd.None? then None
      else Some(Attempt(a.smtpHost, OrElse(NormalizeLogin(a.smtpUsername), a.email), pwd.value))
  }

  predicate Usable(v: Option<string>) {
    v.Some? && !IsAbsent(v.value)
  }

  /** The sealed secret was sealed for this mailbox. */
  predicate Readable(s: Option<Sealed>, id: int) {
    s.Some? && s.value.aad == id
  }

  /** The server, the login and the secret of a send: a dedicated login and secret where the mailbox has
      usable ones, and its address and password where it has not. */
  lemma SendUses(a: Account)
    ensures var dedicated := a.smtpPassword.Some? && Usable(Some(a.smtpPassword.value.plain));
            && (SendAttempt(a).Some? <==>
                  && (a.smtpPassword.Some? ==> Readable(a.smtpPassword, a.id))
                  && (dedicated || Readable(a.password, a.id)))
            && (SendAttempt(a).Some? ==>
                  var s := SendAttempt(a).value;
                  && s.host == a.smtpHost
                  && s.username == (if Usable(a.smtpUsername) then Strip(a.smtpUsername.value) else a.email)
                  && s.secret == (if dedicated then a.smtpPassword.value.plain else a.password.value.plain))
  {}

  /** The IMAP login that a test makes. */
  lemma ImapProbeUses(a: Account)
    requires ProbeStored(a).Some?
    ensures Readable(a.password, a.id)
    ensures ProbeStored(a).value.imapLogin == Attempt(a.imapHost, a.email, a.password.value.plain)
  {}

  /** The SMTP secret of a probe and of a send, once the IMAP password is known. */
  lemma SameSecret(a: Account)
    requires Secret(a.password, a.id).Some?
    ensures var pwd, own := Secret(a.password, a.id).value, NormalizeSecret(Secret(a.smtpPassword, a.id));
            OrElse(NormalizeSecret(Some(own.GetOr(pwd))), pwd) == own.GetOr(pwd)
  {
    NormalizeTwice(Secret(a.password, a.id));
    NormalizeTwice(Secret(a.smtpPassword, a.id));
  }

  /** Whenever the test of a stored mailbox can run, it logs in at SMTP exactly as a send would. */
  lemma ProbeIsSend(a: Account)
    requires ProbeStored(a).Some?
    ensures SendAttempt(a) == Some(ProbeStored(a).value.smtpLogin)
  {
    SameSecret(a);
  }

  /** ... and it can run exactly when the mailbox can be sent from and its password is readable. */
  lemma ProbeEqualsSend(a: Account)
    ensures ProbeStored(a).Some? ==> SendAttempt(a) == Some(ProbeStored(a).value.smtpLogin)
    ensures ProbeStored(a).Some? <==> SendAttempt(a).Some? && Secret(a.password, a.id).Some?
  {
    if ProbeStored(a).Some? {
      ProbeIsSend(a);
    }
  }

  // ---------------------------------------------------------------- update

  /** A PATCH: absent fields are None. */
  datatype Patch = Patch(
    email: Option<string>, password: Option<string>,
    imapName: Option<string>, imapPort: Option<int>, imapSsl: Option<bool>,
    smtpName: Option<string>, smtpPort: Option<int>, smtpSsl: Option<bool>, smtpStarttls: Option<bool>,
    smtpUsername: Option<string>, smtpPassword: Option<string>)

  datatype UpdateResult =
    | Updated(row: Account, probed: Option<Probe>)
    | TlsConflict
    | Undecryptable
    | ProbeFailed(probe: Probe)

  predicate Truthy(s: Option<string>) {
    s.Some? && s.value != ""
  }

  function PortOr(p: Option<int>, current: int): int {
    if p.Some? && p.value != 0 then p.value else current
  }

  predicate CredsChanged(p: Patch) {
    Truthy(p.password) || Truthy(p.smtpPassword)
  }

  /** The row with the plain fields of the patch in place of the stored ones; both the submitted
      and the stored SMTP login are normalised. */
  function Merge(acc: Account, p: Patch): Account {
    acc.(email := OrElse(p.email, acc.email),
         imapHost := Host(OrElse(p.imapName, acc.imapHost.name), PortOr(p.imapPort, acc.imapHost.port),
                          p.imapSsl.GetOr(acc.imapHost.ssl), acc.imapHost.starttls),
         smtpHost := Host(OrElse(p.smtpName, acc.smtpHost.name), PortOr(p.smtpPort, acc.smtpHost.port),
                          p.smtpSsl.GetOr(acc.smtpHost.ssl), p.smtpStarttls.GetOr(acc.smtpHost.starttls)),
         smtpUsername := NormalizeLogin(if p.smtpUsername.Some? then p.smtpUsername else acc.smtpUsername))
  }

  /** The row that an update writes once it has been let through. */
  function Patched(merged: Account, p: Patch): Account {
    var pwd := if Truthy(p.password) then Some(Encrypt(p.password.value, merged.id)) else merged.password;
    var smtp := if Truthy(p.smtpPassword) then Some(Encrypt(p.smtpPassword.value, merged.id)) else merged.smtpPassword;
    var row := merged.(password := pwd, smtpPassword := smtp);
    if CredsChanged(p) then Reenabled(row) else row
  }

  /** Before anything is written, the secrets that the row will hold: those a later test or send reads
      back, with the IMAP one in place of an SMTP secret that is not there. */
  method ResolveSecrets(acc: Account, p: Patch) returns (imapPwd: Option<string>, smtpPwd: Option<string>)
    ensures var row := Patched(acc, p);
            && imapPwd == Secret(row.password, row.id)
            && smtpPwd == if row.smtpPassword.Some? then Secret(row.smtpPassword, row.id) else imapPwd
  {
    imapPwd := if Truthy(p.password) then p.password else Secret(acc.password, acc.id);
    if Truthy(p.smtpPassword) {
      smtpPwd := p.smtpPassword;
    } else if acc.smtpPassword.Some? {
      smtpPwd := Secret(acc.smtpPassword, acc.id);
    } else {
      smtpPwd := imapPwd;
    }
  }

  /** Writes the submitted secrets and, after a probe, the re-enabled status. */
  method StorePatch(merged: Account, p: Patch) returns (row: Account)
    ensures row == Patched(merged, p)
  {
    row := merged;
    if Truthy(p.password) {
      row := row.(password := Some(Encrypt(p.password.value, row.id)));
    }
    if Truthy(p.smtpPassword) {
      row := row.(smtpPassword := Some(Encrypt(p.smtpPassword.value, row.id)));
    }
    if CredsChanged(p) {
      row := Reenabled(row);
    }
  }

  /** A secret that the probe takes from the row cannot be decrypted. */
  predicate NeedsUnreadableSecret(acc: Account, p: Patch) {
    || (!Truthy(p.password) && Secret(acc.password, acc.id).None?)
    || (!Truthy(p.smtpPassword) && acc.smtpPassword.Some? && Secret(acc.smtpPassword, acc.id).None?)
  }

  /** The update of a password mailbox. `works` says whether a probe, with the validation of its
      request, succeeds. After a credential change the probed login, secret and hosts are those
      that a later send and a later test resolve from the stored row; a failed probe is the one
      that the row about to be stored would have been tested with. */
  method UpdateAccount(acc: Account, p: Patch, works: Probe -> bool) returns (r: UpdateResult)
    requires acc.password.Some?
    ensures r.Updated? ==> (r.probed.Some? <==> CredsChanged(p))
    ensures r.Updated? && r.probed.Some? ==> works(r.probed.value)
    ensures r.ProbeFailed? ==>
              && CredsChanged(p) && !works(r.probe)
              && ProbeStored(Patched(Merge(acc, p), p)) == Some(r.probe)
    ensures r.Updated? && r.probed.Some? ==>
              && SendAttempt(r.row) == Some(r.probed.value.smtpLogin)
              && ProbeStored(r.row) == r.probed
              && r.row.password.Some? && r.row.password.value.aad == r.row.id
              && r.probed.value.imapLogin == Attempt(r.row.imapHost, r.row.email, r.row.password.value.plain)
    ensures r.Updated? ==> StoredAsAsked(acc, p, r.row)
    ensures r.TlsConflict? <==> Merge(acc, p).smtpHost.ssl && Merge(acc, p).smtpHost.starttls
    ensures r.Undecryptable? <==> !r.TlsConflict? && CredsChanged(p) && NeedsUnreadableSecret(acc, p)
  {
    var merged := Merge(acc, p);
    if merged.smtpHost.ssl && merged.smtpHost.starttls { return TlsConflict; }
    var probed := None;
    if CredsChanged(p) {
      var imapPwd, smtpPwd := ResolveSecrets(merged, p);
      ReadableIff(acc, p);
      if imapPwd.None? || smtpPwd.None? { return Undecryptable; }
      var probe := ProbeOf(merged.email, imapPwd.value, merged.imapHost, merged.smtpHost,
                           NormalizeLogin(merged.smtpUsername), NormalizeSecret(smtpPwd));
      SameProbe(Patched(merged, p), probe);
      if !works(probe) { return ProbeFailed(probe); }
      probed := Some(probe);
    }
    var row := StorePatch(merged, p);
    StoredIsAsked(acc, p);
    r := Updated(row, probed);
  }

  /** The secrets of the patched row can all be read unless one that it keeps cannot. */
  lemma ReadableIff(acc: Account, p: Patch)
    requires acc.password.Some?
    ensures var row := Patched(Merge(acc, p), p);
            NeedsUnreadableSecret(acc, p)
            <==> Secret(row.password, row.id).None?
                 || (row.smtpPassword.Some? && Secret(row.smtpPassword, row.id).None?)
  {}

  lemma SameProbe(row: Account, probe: Probe)
    requires var pwd := Secret(row.password, row.id);
             var smtp := if row.smtpPassword.Some? then Secret(row.smtpPassword, row.id) else pwd;
             && pwd.Some? && smtp.Some?
             && probe == ProbeOf(row.email, pwd.value, row.imapHost, row.smtpHost,
                                 NormalizeLogin(row.smtpUsername), NormalizeSecret(smtp))
    ensures ProbeStored(row) == Some(probe) && SendAttempt(row) == Some(probe.smtpLogin)
  {
    hide NormalizeLogin, NormalizeSecret;
    var pwd := Secret(row.password, row.id);
    NormalizeTwice(row.smtpUsername);
    NormalizeTwice(pwd);
    NormalizeTwice(Secret(row.smtpPassword, row.id));
    ProbeIsSend(row);
  }

  // ---------------------------------------------------------------- what an update may change

  /** A submitted secret can be read back, and one that was not submitted stays as it was. */
  ghost predicate SecretsAsAsked(acc: Account, p: Patch, row: Account) {
    && (if Truthy(p.password) then Secret(row.password, row.id) == p.password else row.password == acc.password)
    && (if Truthy(p.smtpPassword) then Secret(row.smtpPassword, row.id) == p.smtpPassword
        else row.smtpPassword == acc.smtpPassword)
  }

  /** Each part of an address is the submitted one, or stays; an empty name and port 0 count as absent. */
  ghost predicate HostAsAsked(was: Host, name: Option<string>, port: Option<int>, ssl: Option<bool>,
                              starttls: Option<bool>, now: Host) {
    && (if Truthy(name) then now.name == name.value else now.name == was.name)
    && (if port.Some? && port.value != 0 then now.port == port.value else now.port == was.port)
    && (if ssl.Some? then now.ssl == ssl.value else now.ssl == was.ssl)
    && (if starttls.Some? then now.starttls == starttls.value else now.starttls == was.starttls)
  }

  /** Logins and hosts. */
  ghost predicate AddressesAsAsked(acc: Account, p: Patch, row: Account) {
    && (if Truthy(p.email) then row.email == p.email.value else row.email == acc.email)
    && NormalizeLogin(row.smtpUsername) == row.smtpUsername
    && row.smtpUsername == NormalizeLogin(if p.smtpUsername.Some? then p.smtpUsername else acc.smtpUsername)
    && HostAsAsked(acc.imapHost, p.imapName, p.imapPort, p.imapSsl, None, row.imapHost)
    && HostAsAsked(acc.smtpHost, p.smtpName, p.smtpPort, p.smtpSsl, p.smtpStarttls, row.smtpHost)
  }

  /** The status is reset only together with a successful probe; nothing else moves. */
  ghost predicate StatusAsAsked(acc: Account, p: Patch, row: Account) {
    && row.isActive == (CredsChanged(p) || acc.isActive) && row.lastSyncedAt == acc.lastSyncedAt
    && row.lastSyncError == (if CredsChanged(p) then None else acc.lastSyncError)
    && row.failures == (if CredsChanged(p) then 0 else acc.failures)
    && row.alertSentAt == (if CredsChanged(p) then None else acc.alertSentAt)
    && (row.id, row.userId, row.authType, row.needsConsent) == (acc.id, acc.userId, acc.authType, acc.needsConsent)
    && (row.refreshToken, row.accessToken, row.accessExpiresAt)
       == (acc.refreshToken, acc.accessToken, acc.accessExpiresAt)
    && (row.uidnext, row.uidvalidity) == (acc.uidnext, acc.uidvalidity)
  }

  ghost predicate StoredAsAsked(acc: Account, p: Patch, row: Account) {
    && SecretsAsAsked(acc, p, row) && AddressesAsAsked(acc, p, row) && StatusAsAsked(acc, p, row)
    && !(row.smtpHost.ssl && row.smtpHost.starttls)
  }

  lemma PatchedSecrets(acc: Account, p: Patch)
    ensures SecretsAsAsked(acc, p, Patched(Merge(acc, p), p))
  {}

  lemma PatchedHosts(acc: Account, p: Patch)
    ensures var row := Patched(Merge(acc, p), p);
            && HostAsAsked(acc.imapHost, p.imapName, p.imapPort, p.imapSsl, None, row.imapHost)
            && HostAsAsked(acc.smtpHost, p.smtpName, p.smtpPort, p.smtpSsl, p.smtpStarttls, row.smtpHost)
  {
    hide NormalizeLogin;
  }

  lemma PatchedAddresses(acc: Account, p: Patch)
    ensures AddressesAsAsked(acc, p, Patched(Merge(acc, p), p))
  {
    hide NormalizeLogin, HostAsAsked;
    NormalizeTwice(if p.smtpUsername.Some? then p.smtpUsername else acc.smtpUsername);
    PatchedHosts(acc, p);
  }

  lemma PatchedStatus(acc: Account, p: Patch)
    ensures StatusAsAsked(acc, p, Patched(Merge(acc, p), p))
  {}

  lemma StoredIsAsked(acc: Account, p: Patch)
    requires !(Merge(acc, p).smtpHost.ssl && Merge(acc, p).smtpHost.starttls)
    ensures StoredAsAsked(acc, p, Patched(Merge(acc, p), p))
  {
    PatchedSecrets(acc, p);
    PatchedAddresses(acc, p);
    PatchedStatus(acc, p);
  }
}
