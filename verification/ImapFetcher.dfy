/** One IMAP fetch: login with retries, the search window, the chunked download, the new cursor. */
module ImapFetcher {
  import opened Seqs
  import opened Classifier

  datatype Mail = Mail(date: int, body: string)

  datatype Fetched = Fetched(uid: int, mail: Mail)

  // ---------------------------------------------------------------- login with retries

  /** What one attempt does: the connection cannot be opened, the login fails, or it succeeds. */
  datatype Attempt = OpenFailed(exc: Exc) | LoginFailed(exc: Exc) | LoggedIn

  const BACKOFFS_MS := [500, 1000, 2000]

  function Backoff(attempt: nat): int {
    BACKOFFS_MS[if attempt < 2 then attempt else 2]
  }

  /** `server(i)` answers attempt `i`. The last attempt made decides; every earlier one was a
      login error worth a retry, and it was followed by its backoff. */
  method ConnectAndLogin(server: nat -> Attempt, retries: nat, oauth: bool)
    returns (outcome: Attempt, slept: seq<int>)
    ensures |slept| <= retries
    ensures outcome == server(|slept|)
    ensures forall i: nat :: i < |slept| ==>
              && server(i).LoginFailed? && Retryable(server(i).exc, oauth)
              && slept[i] == (if i == 0 then 500 else if i == 1 then 1000 else 2000)
    ensures outcome.LoginFailed? && Retryable(outcome.exc, oauth) ==> |slept| == retries
  {
    slept := [];
    var attempt := 0;
    while true
      invariant attempt == |slept| <= retries
      invariant forall i: nat :: i < |slept| ==>
                  && server(i).LoginFailed? && Retryable(server(i).exc, oauth)
                  && slept[i] == (if i == 0 then 500 else if i == 1 then 1000 else 2000)
      decreases retries - attempt
    {
      outcome := server(attempt);
      match outcome {
        case OpenFailed(_) => return;
        case LoggedIn => return;
        case LoginFailed(exc) =>
          if attempt >= retries || !Retryable(exc, oauth) { return; }
          slept := slept + [Backoff(attempt)];
          attempt := attempt + 1;
      }
    }
  }

  // ---------------------------------------------------------------- the search window

  predicate DoInitial(cursor: Option<int>, lastValidity: Option<int>, validity: int) {
    cursor.None? || lastValidity.None? || lastValidity.value != validity
  }

  /** "UID n:*" also returns the newest message when all are older; those are dropped. */
  function Window(raw: seq<int>, cursor: int): seq<int> {
    Filter(raw, (u: int) => u >= cursor)
  }

  /** The messages that a FETCH of `uids` returns: those still there. */
  function Download(uids: seq<int>, mailbox: map<int, Mail>): seq<Fetched> {
    if uids == [] then []
    else (if uids[0] in mailbox then [Fetched(uids[0], mailbox[uids[0]])] else []) + Download(uids[1..], mailbox)
  }

  function MaxUid(got: seq<Fetched>): (m: int)
    requires got != []
    ensures forall g :: g in got ==> g.uid <= m
    ensures exists g :: g in got && g.uid == m
  {
    if |got| == 1 then got[0].uid
    else
      var rest := MaxUid(got[1..]);
      assert got == [got[0]] + got[1..];
      if got[0].uid > rest then got[0].uid else rest
  }

  function FinalCursor(uidnext: Option<int>, got: seq<Fetched>, cursor: Option<int>): Option<int> {
    if uidnext.Some? then uidnext
    else if got != [] then Some(MaxUid(got) + 1)
    else cursor
  }

  /** An answered UIDNEXT is the cursor; failing that the cursor lies just past the newest message that came. */
  ghost predicate CursorMoved(uidnext: Option<int>, got: seq<Fetched>, cursor: Option<int>, next: Option<int>) {
    && (uidnext.Some? ==> next == uidnext)
    && (uidnext.None? && got != [] ==>
          && next.Some? && (forall g :: g in got ==> g.uid < next.value)
          && exists g :: g in got && g.uid == next.value - 1)
    && (uidnext.None? && got == [] ==> next == cursor)
  }

  lemma CursorMoves(uidnext: Option<int>, got: seq<Fetched>, cursor: Option<int>)
    ensures CursorMoved(uidnext, got, cursor, FinalCursor(uidnext, got, cursor))
  {
    if uidnext.None? && got != [] {
      var newest := MaxUid(got);
      var g :| g in got && g.uid == newest;
      assert g.uid == FinalCursor(uidnext, got, cursor).value - 1;
    }
  }

  lemma {:induction false} DownloadMember(uids: seq<int>, mailbox: map<int, Mail>, g: Fetched)
    ensures g in Download(uids, mailbox) <==> g.uid in uids && g.uid in mailbox && mailbox[g.uid] == g.mail
  {
    if uids != [] {
      DownloadMember(uids[1..], mailbox, g);
      assert uids == [uids[0]] + uids[1..];
    }
  }

  lemma {:induction false} DownloadAppend(a: seq<int>, b: seq<int>, mailbox: map<int, Mail>)
    ensures Download(a + b, mailbox) == Download(a, mailbox) + Download(b, mailbox)
  {
    if a == [] {
      assert a + b == b;
    } else {
      assert (a + b)[1..] == a[1..] + b;
      DownloadAppend(a[1..], b, mailbox);
    }
  }

  // ---------------------------------------------------------------- one fetch

  /** The server's answers: STATUS values when it gave them, the search result (None is an error)
      and the messages a FETCH can still return. */
  datatype Answers = Answers(validity: Option<int>, uidnext: Option<int>,
      search: Option<seq<int>>, mailbox: map<int, Mail>)

  datatype Box = Box(uidvalidity: int, uidnext: Option<int>, messages: seq<Fetched>)

  /** None: the initial search failed, and the error leaves the function. */
  function Fetch(cursor: Option<int>, lastValidity: Option<int>, a: Answers): Option<Box> {
    var validity := a.validity.GetOr(0);
    if DoInitial(cursor, lastValidity, validity) && a.search.None? then None
    else
      var uids := if DoInitial(cursor, lastValidity, validity) then a.search.value
                  else Window(a.search.GetOr([]), cursor.value);
      var got := Download(uids, a.mailbox);
      Some(Box(validity, FinalCursor(a.uidnext, got, cursor), got))
  }

  const BATCH := 50

  /** The messages of one batch of UIDs. */
  method FetchBatch(uids: seq<int>, mailbox: map<int, Mail>) returns (messages: seq<Fetched>)
    ensures messages == Download(uids, mailbox)
  {
    messages := [];
    for j := 0 to |uids|
      invariant messages == Download(uids[..j], mailbox)
    {
      assert uids[..j + 1] == uids[..j] + [uids[j]];
      DownloadAppend(uids[..j], [uids[j]], mailbox);
      if uids[j] in mailbox {
        messages := messages + [Fetched(uids[j], mailbox[uids[j]])];
      }
    }
    assert uids[..|uids|] == uids;
  }

  method FetchAll(uids: seq<int>, mailbox: map<int, Mail>) returns (messages: seq<Fetched>)
    ensures messages == Download(uids, mailbox)
  {
    messages := [];
    var i := 0;
    while i < |uids|
      invariant 0 <= i <= |uids|
      invariant messages == Download(uids[..i], mailbox)
    {
      var end := if i + BATCH < |uids| then i + BATCH else |uids|;
      var batch := FetchBatch(uids[i..end], mailbox);
      assert uids[..end] == uids[..i] + uids[i..end];
      DownloadAppend(uids[..i], uids[i..end], mailbox);
      messages := messages + batch;
      i := end;
    }
    assert uids[..|uids|] == uids;
  }

  /** What a fetch brings, and where it leaves the cursor. */
  lemma FetchFacts(cursor: Option<int>, lastValidity: Option<int>, a: Answers)
    ensures var box, validity := Fetch(cursor, lastValidity, a), a.validity.GetOr(0);
            var initial := cursor.None? || lastValidity != Some(validity);
            && (box.None? <==> initial && a.search.None?)
            && (box.Some? ==>
                  && box.value.uidvalidity == validity
                  && forall g :: g in box.value.messages <==>
                                 && a.search.Some? && g.uid in a.search.value && (initial || cursor.value <= g.uid)
                                 && g.uid in a.mailbox && a.mailbox[g.uid] == g.mail)
    ensures var box := Fetch(cursor, lastValidity, a);
            box.Some? ==> box.value.uidnext == FinalCursor(a.uidnext, box.value.messages, cursor)
  {
    var validity := a.validity.GetOr(0);
    var initial := DoInitial(cursor, lastValidity, validity);
    if !initial || a.search.Some? {
      var uids := if initial then a.search.value else Window(a.search.GetOr([]), cursor.value);
      FilterMembers(a.search.GetOr([]), (u: int) => u >= cursor.GetOr(0));
      forall g ensures g in Download(uids, a.mailbox) <==>
                       g.uid in uids && g.uid in a.mailbox && a.mailbox[g.uid] == g.mail {
        DownloadMember(uids, a.mailbox, g);
      }
    }
  }

  method FetchBlocking(cursor: Option<int>, lastValidity: Option<int>, a: Answers) returns (box: Option<Box>)
    ensures box == Fetch(cursor, lastValidity, a)
    ensures var validity := a.validity.GetOr(0);
            var initial := cursor.None? || lastValidity != Some(validity);
            && (box.None? <==> initial && a.search.None?)
            && (box.Some? ==>
                  && box.value.uidvalidity == validity
                  && forall g :: g in box.value.messages <==>
                                 && a.search.Some? && g.uid in a.search.value && (initial || cursor.value <= g.uid)
                                 && g.uid in a.mailbox && a.mailbox[g.uid] == g.mail)
    ensures box.Some? && a.uidnext.Some? ==> box.value.uidnext == a.uidnext
    ensures box.Some? && a.uidnext.None? && box.value.messages != [] ==>
              && box.value.uidnext.Some?
              && (forall g :: g in box.value.messages ==> g.uid < box.value.uidnext.value)
              && exists g :: g in box.value.messages && g.uid == box.value.uidnext.value - 1
    ensures box.Some? && a.uidnext.None? && box.value.messages == [] ==> box.value.uidnext == cursor
  {
    FetchFacts(cursor, lastValidity, a);
    ghost var fetched := Fetch(cursor, lastValidity, a);
    if fetched.Some? {
      CursorMoves(a.uidnext, fetched.value.messages, cursor);
    }
    var validity := if a.validity.Some? then a.validity.value else 0;
    var uidnext := a.uidnext;
    var uids: seq<int>;
    if cursor.None? || lastValidity.None? || lastValidity.value != validity {
      if a.search.None? { return None; }
      uids := a.search.value;
    } else {
      var raw := if a.search.Some? then a.search.value else [];
      uids := Window(raw, cursor.value);
    }
    var messages := FetchAll(uids, a.mailbox);
    hide Download, Window, MaxUid;
    if uidnext.None? && messages != [] {
      uidnext := Some(MaxUid(messages) + 1);
    }
    if uidnext.None? {
      uidnext := cursor;
    }
    box := Some(Box(validity, uidnext, messages));
  }

  // ---------------------------------------------------------------- when one fetch is sound

  /** A server that answers truthfully about a mailbox that does not change meanwhile: `next` is
      the UID its next message will get, and it may leave UIDNEXT out or fail the search. */
  ghost predicate Truthful(a: Answers, cursor: Option<int>, initial: bool, since: int, next: int) {
    && (forall u :: u in a.mailbox ==> 0 < u < next)
    && (a.uidnext.Some? ==> a.uidnext.value == next)
    && (a.search.Some? ==>
          && (forall u :: u in a.search.value ==> u in a.mailbox)
          && (forall u :: u in a.mailbox && (if initial then a.mailbox[u].date >= since else u >= cursor.GetOr(0))
               ==> u in a.search.value))
  }

  /** Messages in scope that the new cursor leaves behind unfetched. */
  ghost predicate Skips(box: Box, a: Answers, cursor: Option<int>, initial: bool, since: int) {
    exists u :: u in a.mailbox && box.uidnext.Some? && u < box.uidnext.value
      && (if initial then a.mailbox[u].date >= since else u >= cursor.GetOr(0))
      && Fetched(u, a.mailbox[u]) !in box.messages
  }

  /** A cursor ahead of the server: mail delivered next would be skipped. */
  ghost predicate RunsAhead(box: Box, next: int) {
    box.uidnext.Some? && box.uidnext.value > next
  }

  /** A swallowed search error that hides mail below the UIDNEXT taken as the new cursor. */
  ghost predicate HiddenByFailedSearch(a: Answers, cursor: Option<int>, initial: bool) {
    && !initial && a.search.None? && a.uidnext.Some?
    && exists u :: u in a.mailbox && u >= cursor.GetOr(0)
  }

  /** The old cursor kept under a new UIDVALIDITY, because the server gave no UIDNEXT and its search
      found nothing. */
  predicate StaleCursor(a: Answers, cursor: Option<int>, initial: bool, next: int) {
    && initial && a.uidnext.None? && a.search == Some([]) && cursor.Some? && cursor.value > next
  }

  /** The exact condition: apart from these two cases a fetch neither skips mail nor puts the
      cursor ahead of the server, and in each of them it does. */
  lemma FetchIsSoundIff(cursor: Option<int>, lastValidity: Option<int>, a: Answers, since: int, next: int)
    requires a.validity.Some?
    requires var initial := DoInitial(cursor, lastValidity, a.validity.value);
             && Truthful(a, cursor, initial, since, next)
             && (initial ==> a.search.Some?)
             && (!initial ==> cursor.value <= next)
    ensures var initial := DoInitial(cursor, lastValidity, a.validity.value);
            var box := Fetch(cursor, lastValidity, a).value;
            Skips(box, a, cursor, initial, since) || RunsAhead(box, next)
            <==> HiddenByFailedSearch(a, cursor, initial) || StaleCursor(a, cursor, initial, next)
  {
    var initial := DoInitial(cursor, lastValidity, a.validity.value);
    var box := Fetch(cursor, lastValidity, a).value;
    var uids := if initial then a.search.value else Window(a.search.GetOr([]), cursor.value);
    FilterMembers(a.search.GetOr([]), (u: int) => u >= cursor.GetOr(0));
    forall g ensures g in box.messages <==> g.uid in uids && g.uid in a.mailbox && a.mailbox[g.uid] == g.mail {
      DownloadMember(uids, a.mailbox, g);
    }
    if a.uidnext.None? && box.messages != [] {
      var m :| m in box.messages && m.uid == MaxUid(box.messages);
      assert m.uid < next;
    }
    if HiddenByFailedSearch(a, cursor, initial) {
      var u :| u in a.mailbox && u >= cursor.GetOr(0);
      assert Fetched(u, a.mailbox[u]) !in box.messages;
    }
  }

  /** Concrete instances of the two cases. UID 5 is on the server, the search for it fails, and the
      cursor moves to 7 all the same. */
  lemma SwallowedSearchErrorSkips(mail: Mail)
    ensures var a := Answers(Some(1), Some(7), None, map[5 := mail]);
            && Fetch(Some(5), Some(1), a) == Some(Box(1, Some(7), []))
            && Skips(Box(1, Some(7), []), a, Some(5), false, 0)
  {
    var a := Answers(Some(1), Some(7), None, map[5 := mail]);
    assert Window([], 5) == [] && Download([], a.mailbox) == [];
    assert 5 in a.mailbox;
  }

  /** The mailbox was renumbered, is empty, and UIDNEXT is not answered: cursor 100 survives. */
  lemma RenumberedWithoutUidnextRunsAhead()
    ensures var a := Answers(Some(2), None, Some([]), map[]);
            && Fetch(Some(100), Some(1), a) == Some(Box(2, Some(100), []))
            && RunsAhead(Box(2, Some(100), []), 1)
  {
    assert Download([], map[]) == [];
  }
}
