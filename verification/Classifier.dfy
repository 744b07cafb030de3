/** Error classification of the sync cycle and the login retry rules that must agree with it. */
module Classifier {
  import opened Seqs
  import opened Text

  /** An exception as the rules see it: its class name, its message, the `isinstance` answers
      the rules ask for (any combination is allowed) and the `errno` of an `OSError`. */
  datatype Exc = Exc(
    typeName: string, message: string,
    timeout: bool, gai: bool, connection: bool, ssl: bool, os: bool,
    decrypt: bool, imap4: bool, errno: Option<Errno>)

  datatype Errno = ECONNREFUSED | ECONNRESET | ETIMEDOUT | EHOSTUNREACH | ENETUNREACH | EPIPE | OtherErrno(code: int)

  /** What the classifier is given: an exception, or only a text. */
  datatype Subject = Raised(exc: Exc) | Plain(text: string)

  datatype AuthType = Password | OauthOutlook

  datatype Class = Transient | Permanent

  datatype Prefix = InvalidHost | AuthFailed | TimedOut | Network | OauthTokenError | DecryptFail | Unrecognised

  const RESOLVE := ["could not resolve", "name or service not known",
                    "temporary failure in name resolution", "nodename nor servname"]
  const RATE_LIMIT := ["too many", "simultaneous", "try again", "temporarily", "unavailable", "inuse",
                       "system error", "rate", "throttl"]
  const CONN_FLAKE := ["authenticated but not connected", "not connected"]
  const TIMEOUT_TEXT := ["timed out", "timeout"]
  const NETWORK_TEXT := ["connection refused", "connection reset", "broken pipe",
                         "network is unreachable", "no route to host", "ssl"]
  const NETWORK_ERRNOS := [ECONNREFUSED, ECONNRESET, ETIMEDOUT, EHOSTUNREACH, ENETUNREACH, EPIPE]
  const AUTH_TEXT := ["authenticationfailed", "invalid credentials", "login failed", "[alert]",
                      "account is disabled", "account has been blocked"]
  const OAUTH_FLAKE := ["login failed", "authenticationfailed"]
  const AUTH_MARKER := ["auth", "login", "credential", "password"]
  const OAUTH_TRANSIENT := ["5xx", "429", "token_network", "network", "timeout", "unexpected", "oauth_exchange_failed"]

  /** The lower-cased text the rules search. */
  function Normalise(s: Subject): string {
    match s
    case Raised(e) => Lower(e.typeName + ": " + e.message)
    case Plain(t) => Lower(t)
  }

  predicate TransientInstance(s: Subject) {
    s.Raised? && (s.exc.timeout || s.exc.gai || s.exc.connection || s.exc.ssl)
  }

  predicate NetworkErrno(s: Subject) {
    s.Raised? && s.exc.os && s.exc.errno.Some? && s.exc.errno.value in NETWORK_ERRNOS
  }

  predicate DecryptInstance(s: Subject) {
    s.Raised? && s.exc.decrypt
  }

  predicate OauthTransient(text: string) {
    && (Contains(text, "oauth_token_error") || Contains(text, "oauth_token_unexpected"))
    && ContainsAny(text, OAUTH_TRANSIENT)
  }

  predicate OauthFlake(text: string, auth: Option<AuthType>) {
    && auth == Some(OauthOutlook)
    && !Contains(text, "invalid_grant")
    && ContainsAny(text, OAUTH_FLAKE)
  }

  /** Rules 1 to 7, without the OAuth login carve-out. */
  predicate PlainTransient(s: Subject) {
    var text := Normalise(s);
    || TransientInstance(s)
    || ContainsAny(text, RESOLVE)
    || ContainsAny(text, RATE_LIMIT)
    || ContainsAny(text, CONN_FLAKE)
    || ContainsAny(text, TIMEOUT_TEXT)
    || ContainsAny(text, NETWORK_TEXT)
    || NetworkErrno(s)
    || OauthTransient(text)
  }

  predicate MatchesTransient(s: Subject, auth: Option<AuthType>) {
    PlainTransient(s) || OauthFlake(Normalise(s), auth)
  }

  predicate MatchesPermanent(s: Subject) {
    var text := Normalise(s);
    || ContainsAny(text, AUTH_TEXT)
    || Contains(text, "invalid_grant")
    || DecryptInstance(s)
    || Contains(text, "invalidtag")
    || Contains(text, "decrypt_fail")
  }

  function Classify(s: Subject, auth: Option<AuthType>): Class {
    if MatchesTransient(s, auth) then Transient
    else if MatchesPermanent(s) then Permanent
    else Transient
  }

  function ErrorPrefix(s: Subject, auth: Option<AuthType>): Prefix {
    var text := Normalise(s);
    if s.Raised? && s.exc.timeout then TimedOut
    else if (s.Raised? && s.exc.gai) || ContainsAny(text, RESOLVE) then InvalidHost
    else if ContainsAny(text, RATE_LIMIT) then
      if ContainsAny(text, AUTH_MARKER) then AuthFailed else Network
    else if ContainsAny(text, CONN_FLAKE) then Network
    else if ContainsAny(text, TIMEOUT_TEXT) then TimedOut
    else if (s.Raised? && (s.exc.connection || s.exc.ssl)) || ContainsAny(text, NETWORK_TEXT) then Network
    else if NetworkErrno(s) then Network
    else if OauthTransient(text) then OauthTokenError
    else if OauthFlake(text, auth) then Network
    else if ContainsAny(text, AUTH_TEXT) || Contains(text, "invalid_grant") then AuthFailed
    else if DecryptInstance(s) || Contains(text, "invalidtag") || Contains(text, "decrypt_fail") then DecryptFail
    else Unrecognised
  }

  predicate IsExplicitPermanent(s: Subject, auth: Option<AuthType>) {
    !MatchesTransient(s, auth) && MatchesPermanent(s)
  }

  /** The two readings of the one rule table never diverge: the class, the instant-disable flag
      and the user-visible prefix of every subject are consistent with each other. */
  lemma PrefixAndClassAgree(s: Subject, auth: Option<AuthType>)
    ensures Classify(s, auth) == Permanent <==> IsExplicitPermanent(s, auth)
    ensures Classify(s, auth) == Permanent ==> ErrorPrefix(s, auth) in {AuthFailed, DecryptFail}
    ensures ErrorPrefix(s, auth) == Unrecognised <==> !MatchesTransient(s, auth) && !MatchesPermanent(s)
    ensures ErrorPrefix(s, auth) in {InvalidHost, TimedOut, Network, OauthTokenError} ==> Classify(s, auth) == Transient
    // A transient error may still read "auth_failed", in exactly one way: a rate-limit answer
    // that also smells like a login response, on an error no earlier rule claimed.
    ensures ErrorPrefix(s, auth) == AuthFailed && Classify(s, auth) == Transient <==>
            && ContainsAny(Normalise(s), RATE_LIMIT) && ContainsAny(Normalise(s), AUTH_MARKER)
            && !ContainsAny(Normalise(s), RESOLVE) && !(s.Raised? && (s.exc.timeout || s.exc.gai))
  {}

  /** The rule table, from the first rule to the one that takes whatever is left: rules 1, 2, 3 (for a
      text that reads like a login response, and for any other), 3b, 4, 5, 6, 7, 7b, 8, 9 and 10. */
  predicate Claims(rule: nat, s: Subject, auth: Option<AuthType>) {
    var text := Normalise(s);
    match rule
    case 0 => s.Raised? && s.exc.timeout
    case 1 => (s.Raised? && s.exc.gai) || ContainsAny(text, RESOLVE)
    case 2 => ContainsAny(text, RATE_LIMIT) && ContainsAny(text, AUTH_MARKER)
    case 3 => ContainsAny(text, RATE_LIMIT)
    case 4 => ContainsAny(text, CONN_FLAKE)
    case 5 => ContainsAny(text, TIMEOUT_TEXT)
    case 6 => (s.Raised? && (s.exc.connection || s.exc.ssl)) || ContainsAny(text, NETWORK_TEXT)
    case 7 => s.Raised? && s.exc.os && s.exc.errno.Some? && s.exc.errno.value in NETWORK_ERRNOS
    case 8 =>
      && (Contains(text, "oauth_token_error") || Contains(text, "oauth_token_unexpected"))
      && ContainsAny(text, OAUTH_TRANSIENT)
    case 9 => auth == Some(OauthOutlook) && !Contains(text, "invalid_grant") && ContainsAny(text, OAUTH_FLAKE)
    case 10 => ContainsAny(text, AUTH_TEXT) || Contains(text, "invalid_grant")
    case 11 => (s.Raised? && s.exc.decrypt) || Contains(text, "invalidtag") || Contains(text, "decrypt_fail")
    case _ => true
  }

  const READS := [TimedOut, InvalidHost, AuthFailed, Network, Network, TimedOut, Network, Network, OauthTokenError,
                  Network, AuthFailed, DecryptFail, Unrecognised]

  ghost predicate First(rule: nat, s: Subject, auth: Option<AuthType>) {
    rule < |READS| && Claims(rule, s, auth) && forall r: nat :: r < rule ==> !Claims(r, s, auth)
  }

  /** The first rule of the table that claims a subject decides everything: the prefix is that rule's, and
      the class is permanent, with the mailbox disabled at once, exactly when it is rule 8 or 9. */
  lemma FirstRuleDecides(s: Subject, auth: Option<AuthType>, rule: nat)
    requires First(rule, s, auth)
    ensures ErrorPrefix(s, auth) == READS[rule]
    ensures Classify(s, auth) == (if rule in {10, 11} then Permanent else Transient)
    ensures IsExplicitPermanent(s, auth) <==> rule in {10, 11}
  {
    hide Normalise, ContainsAny, Contains;
    assert forall r: nat :: r < rule ==> !Claims(r, s, auth);
    assert rule > 0 ==> !Claims(0, s, auth);
    assert rule > 1 ==> !Claims(1, s, auth);
    assert rule > 2 ==> !Claims(2, s, auth);
    assert rule > 3 ==> !Claims(3, s, auth);
    assert rule > 4 ==> !Claims(4, s, auth);
    assert rule > 5 ==> !Claims(5, s, auth);
    assert rule > 6 ==> !Claims(6, s, auth);
    assert rule > 7 ==> !Claims(7, s, auth);
    assert rule > 8 ==> !Claims(8, s, auth);
    assert rule > 9 ==> !Claims(9, s, auth);
    assert rule > 10 ==> !Claims(10, s, auth);
    assert rule > 11 ==> !Claims(11, s, auth);
  }

  /** Some rule is always the first. */
  lemma SomeRuleIsFirst(s: Subject, auth: Option<AuthType>) returns (rule: nat)
    ensures First(rule, s, auth)
  {
    hide Claims;
    rule := 0;
    while rule < |READS| - 1 && !Claims(rule, s, auth)
      invariant rule < |READS| && forall r: nat :: r < rule ==> !Claims(r, s, auth)
    {
      rule := rule + 1;
    }
    LastRuleClaims(s, auth);
  }

  lemma LastRuleClaims(s: Subject, auth: Option<AuthType>)
    ensures Claims(|READS| - 1, s, auth)
  {}

  // ---------------------------------------------------------------- login retries

  const RETRYABLE_ERRNOS := [ECONNREFUSED, ECONNRESET, EHOSTUNREACH, ENETUNREACH]
  const RETRYABLE_IMAP := ["authenticated but not connected", "not connected", "try again", "temporarily", "too many"]
  const RETRYABLE_IMAP_OAUTH := RETRYABLE_IMAP + ["login failed", "authenticationfailed"]
  const FATAL_IMAP := ["authenticationfailed", "login failed", "invalid credentials",
                       "account is disabled", "account has been blocked"]
  const FATAL_IMAP_OAUTH := ["invalid credentials", "account is disabled", "account has been blocked"]

  predicate RetryableConnect(e: Exc) {
    if e.timeout then false
    else if e.gai || e.connection then true
    else if e.os then e.errno.Some? && e.errno.value in RETRYABLE_ERRNOS
    else false
  }

  predicate RetryableImap(e: Exc, oauth: bool) {
    && e.imap4
    && var text := Lower(e.message);
       && !ContainsAny(text, if oauth then FATAL_IMAP_OAUTH else FATAL_IMAP)
       && ContainsAny(text, if oauth then RETRYABLE_IMAP_OAUTH else RETRYABLE_IMAP)
  }

  predicate Retryable(e: Exc, oauth: bool) {
    RetryableConnect(e) || RetryableImap(e, oauth)
  }

  /** The auth type handed to the classifier, under the kill-switch. */
  function ClassifierAuthType(auth: AuthType, killSwitchOn: bool): Option<AuthType> {
    if auth == OauthOutlook && !killSwitchOn then None else Some(auth)
  }

  /** Whether the retry loop uses the OAuth needle sets: only XOAUTH2 logins carry a token. */
  predicate RetryOauth(auth: AuthType, killSwitchOn: bool) {
    auth == OauthOutlook && killSwitchOn
  }

  /** Both places read the kill-switch alike, and it never touches a password mailbox. */
  lemma KillSwitchAgrees(auth: AuthType, killSwitchOn: bool)
    ensures RetryOauth(auth, killSwitchOn) <==> ClassifierAuthType(auth, killSwitchOn) == Some(OauthOutlook)
    ensures ClassifierAuthType(auth, true) == Some(auth)
    ensures ClassifierAuthType(Password, killSwitchOn) == Some(Password)
  {}

  lemma OneOfTwo(text: string, needles: seq<string>)
    requires |needles| == 2
    ensures ContainsAny(text, needles) <==> Contains(text, needles[0]) || Contains(text, needles[1])
  {}

  predicate LoginFlake(text: string) {
    Contains(text, "login failed") || Contains(text, "authenticationfailed")
  }

  /** What a token changes: everything retried without one is retried with it, and the replies retried only
      with it are exactly the login flakes that name no other fatal reason. */
  lemma TokenRetriesFlakes(e: Exc)
    ensures RetryableImap(e, false) ==> RetryableImap(e, true)
    ensures var text := Lower(e.message);
            RetryableImap(e, true) && !RetryableImap(e, false)
            <==> e.imap4 && LoginFlake(text) && !ContainsAny(text, FATAL_IMAP_OAUTH)
    ensures RetryableImap(e, false) ==> e.imap4 && !LoginFlake(Lower(e.message))
  {
    var text := Lower(e.message);
    assert FATAL_IMAP == OAUTH_FLAKE_FIRST + FATAL_IMAP_OAUTH;
    AnyOf(text, OAUTH_FLAKE_FIRST, FATAL_IMAP_OAUTH);
    AnyOf(text, RETRYABLE_IMAP, OAUTH_FLAKE);
    OneOfTwo(text, OAUTH_FLAKE_FIRST);
    OneOfTwo(text, OAUTH_FLAKE);
  }

  const OAUTH_FLAKE_FIRST := ["authenticationfailed", "login failed"]

  lemma AnyOf(text: string, a: seq<string>, b: seq<string>)
    ensures ContainsAny(text, a + b) <==> ContainsAny(text, a) || ContainsAny(text, b)
  {}

  /** Which connection errors are worth another attempt: never a timeout. */
  lemma RetryableConnectIff(e: Exc)
    ensures RetryableConnect(e) <==>
            && !e.timeout
            && (e.gai || e.connection
                || (e.os && e.errno in {Some(ECONNREFUSED), Some(ECONNRESET), Some(EHOSTUNREACH), Some(ENETUNREACH)}))
  {}

  /** The classifier's text ends with the text the retry rules see. */
  lemma MessageInsideNormalised(e: Exc, needle: string)
    requires Contains(Lower(e.message), needle)
    ensures Contains(Normalise(Raised(e)), needle)
  {
    LowerAppend(e.typeName + ": ", e.message);
    ContainsInSuffix(Lower(e.typeName + ": "), Lower(e.message), needle);
  }

  lemma RetryableImapIsKnown(e: Exc, oauth: bool)
    requires RetryableImap(e, oauth)
    ensures || ContainsAny(Normalise(Raised(e)), CONN_FLAKE)
            || ContainsAny(Normalise(Raised(e)), RATE_LIMIT)
            || (oauth && ContainsAny(Normalise(Raised(e)), OAUTH_FLAKE))
  {
    var needles := if oauth then RETRYABLE_IMAP_OAUTH else RETRYABLE_IMAP;
    var n :| n in needles && Contains(Lower(e.message), n);
    MessageInsideNormalised(e, n);
    assert n in CONN_FLAKE || n in RATE_LIMIT || (oauth && n in OAUTH_FLAKE);
  }

  /** Whatever the retry loop would retry, the classifier calls transient under the same
      kill-switch - except exactly when the text carries "invalid_grant" and nothing but the
      OAuth login flake could have made it transient. */
  lemma RetryableIsTransient(e: Exc, auth: AuthType, killSwitchOn: bool)
    requires Retryable(e, RetryOauth(auth, killSwitchOn))
    ensures Classify(Raised(e), ClassifierAuthType(auth, killSwitchOn)) == Permanent <==>
            !PlainTransient(Raised(e)) && Contains(Normalise(Raised(e)), "invalid_grant")
  {
    if !RetryableConnect(e) {
      RetryableImapIsKnown(e, RetryOauth(auth, killSwitchOn));
    }
  }

  // The concrete text below is handled through two facts only: which letters it has, and
  // that no "r" is followed by a "t" two places later.

  predicate FlakeLetter(c: char) {
    c in {'a', 'd', 'e', 'f', 'g', 'i', 'l', 'n', 'o', 'r', 't', 'v', '_', ':', ' '}
  }

  ghost predicate FlakeLike(t: string) {
    && (forall i :: 0 <= i < |t| ==> FlakeLetter(t[i]))
    && (forall i :: 0 <= i < |t| - 2 ==> t[i] == 'r' ==> t[i + 2] != 't')
  }

  lemma {:induction false} LowerFixed(s: string)
    requires forall i :: 0 <= i < |s| ==> FlakeLetter(s[i])
    ensures Lower(s) == s
  {
    if s != "" {
      LowerFixed(s[1..]);
    }
  }

  lemma NeedsForeignLetter(t: string, needle: string, k: nat)
    requires FlakeLike(t) && k < |needle| && !FlakeLetter(needle[k])
    ensures !Contains(t, needle)
  {
    forall i | 0 <= i <= |t| ensures !OccursAt(t, needle, i) {
      if OccursAt(t, needle, i) {
        OccursChar(t, needle, i, k);
      }
    }
  }

  lemma NoRate(t: string)
    requires FlakeLike(t)
    ensures !Contains(t, "rate")
  {
    forall i | 0 <= i <= |t| ensures !OccursAt(t, "rate", i) {
      if OccursAt(t, "rate", i) {
        OccursChar(t, "rate", i, 0);
        OccursChar(t, "rate", i, 2);
      }
    }
  }

  lemma FlakeLikeIsNoRateLimit(t: string)
    requires FlakeLike(t)
    ensures !ContainsAny(t, RATE_LIMIT)
  {
    NeedsForeignLetter(t, "too many", 4);
    NeedsForeignLetter(t, "simultaneous", 0);
    NeedsForeignLetter(t, "try again", 2);
    NeedsForeignLetter(t, "temporarily", 2);
    NeedsForeignLetter(t, "unavailable", 0);
    NeedsForeignLetter(t, "inuse", 2);
    NeedsForeignLetter(t, "system error", 0);
    NeedsForeignLetter(t, "throttl", 1);
    NoRate(t);
  }

  lemma FlakeLikeIsNoConnection(t: string)
    requires FlakeLike(t)
    ensures !ContainsAny(t, RESOLVE) && !ContainsAny(t, CONN_FLAKE) && !ContainsAny(t, TIMEOUT_TEXT)
  {
    NeedsForeignLetter(t, "could not resolve", 0);
    NeedsForeignLetter(t, "name or service not known", 2);
    NeedsForeignLetter(t, "temporary failure in name resolution", 2);
    NeedsForeignLetter(t, "nodename nor servname", 6);
    NeedsForeignLetter(t, "authenticated but not connected", 8);
    NeedsForeignLetter(t, "not connected", 4);
    NeedsForeignLetter(t, "timed out", 2);
    NeedsForeignLetter(t, "timeout", 2);
  }

  lemma FlakeLikeIsNoNetwork(t: string)
    requires FlakeLike(t)
    ensures !ContainsAny(t, NETWORK_TEXT) && !OauthTransient(t)
  {
    NeedsForeignLetter(t, "connection refused", 0);
    NeedsForeignLetter(t, "connection reset", 0);
    NeedsForeignLetter(t, "broken pipe", 0);
    NeedsForeignLetter(t, "network is unreachable", 3);
    NeedsForeignLetter(t, "no route to host", 5);
    NeedsForeignLetter(t, "ssl", 0);
    NeedsForeignLetter(t, "oauth_token_error", 2);
    NeedsForeignLetter(t, "oauth_token_unexpected", 2);
  }

  lemma FlakeLikeIsRetried(t: string)
    requires FlakeLike(t) && Contains(t, "login failed")
    ensures !ContainsAny(t, FATAL_IMAP_OAUTH) && ContainsAny(t, RETRYABLE_IMAP_OAUTH)
  {
    NeedsForeignLetter(t, "invalid credentials", 8);
    NeedsForeignLetter(t, "account is disabled", 1);
    NeedsForeignLetter(t, "account has been blocked", 1);
    assert RETRYABLE_IMAP_OAUTH[5] == "login failed";
  }

  const FLAKE_MESSAGE := "login failed invalid_grant"

  lemma FlakeMessage()
    ensures FlakeLike(FLAKE_MESSAGE)
    ensures Contains(FLAKE_MESSAGE, "login failed") && Contains(FLAKE_MESSAGE, "invalid_grant")
  {
    assert OccursAt(FLAKE_MESSAGE, "login failed", 0);
    assert OccursAt(FLAKE_MESSAGE, "invalid_grant", 13);
  }

  lemma FlakeLikeAppend(pre: string, t: string)
    requires FlakeLike(pre) && FlakeLike(t)
    requires |pre| >= 2 && pre[|pre| - 1] != 'r' && pre[|pre| - 2] != 'r'
    ensures FlakeLike(pre + t)
  {}

  lemma FlakeIsRetriedYetPermanent(e: Exc)
    requires e == Exc("error", e.message, false, false, false, false, false, false, true, None)
    requires FlakeLike(e.message) && Contains(e.message, "login failed") && Contains(e.message, "invalid_grant")
    ensures Retryable(e, RetryOauth(OauthOutlook, true))
    ensures Classify(Raised(e), ClassifierAuthType(OauthOutlook, true)) == Permanent
  {
    var pre := e.typeName + ": ";
    assert pre == "error: ";
    FlakeLikeAppend(pre, e.message);
    LowerFixed(pre + e.message);
    LowerFixed(e.message);
    var t := Normalise(Raised(e));
    FlakeLikeIsRetried(e.message);
    MessageInsideNormalised(e, "invalid_grant");
    FlakeLikeIsNoRateLimit(t);
    FlakeLikeIsNoConnection(t);
    FlakeLikeIsNoNetwork(t);
    RetryableIsTransient(e, OauthOutlook, true);
  }

  /** The exceptional case does occur: an XOAUTH2 login error that says both is retried, yet
      disables the mailbox. */
  lemma RetriedYetPermanent(e: Exc)
    requires e == Exc("error", FLAKE_MESSAGE, false, false, false, false, false, false, true, None)
    ensures Retryable(e, RetryOauth(OauthOutlook, true))
    ensures Classify(Raised(e), ClassifierAuthType(OauthOutlook, true)) == Permanent
  {
    FlakeMessage();
    FlakeIsRetriedYetPermanent(e);
  }
}
