/** Unfolding of threading headers (section 2.2.3 of RFC 5322) and the control-character check. */
module Headers {
  import opened Seqs

  predicate Wsp(c: char) {
    c == ' ' || c == '\t'
  }

  /** Length of the line break at the head of `s`: CRLF is taken as one. */
  function BreakLength(s: string): (n: nat)
    ensures n <= |s|
  {
    if s == "" then 0
    else if s[0] == '\r' then (if |s| > 1 && s[1] == '\n' then 2 else 1)
    else if s[0] == '\n' then 1
    else 0
  }

  function WspRun(s: string): (n: nat)
    ensures n <= |s|
    ensures forall i :: 0 <= i < n ==> Wsp(s[i])
    ensures n < |s| ==> !Wsp(s[n])
  {
    if s != "" && Wsp(s[0]) then 1 + WspRun(s[1..]) else 0
  }

  /** Length of the fold at the head of `s`, 0 if there is none. When CRLF is not followed by
      white space the pattern's other branches look at the CR alone, which an LF follows. */
  function FoldLength(s: string): (n: nat)
    ensures n <= |s|
    ensures n > 0 ==> n >= 2
  {
    var b := BreakLength(s);
    var w := WspRun(s[b..]);
    if b > 0 && w > 0 then b + w else 0
  }

  /** Every fold replaced by one space. */
  function Unfold(s: string): string {
    if s == "" then ""
    else if FoldLength(s) > 0 then " " + Unfold(s[FoldLength(s)..])
    else [s[0]] + Unfold(s[1..])
  }

  predicate Forbidden(c: char) {
    c != '\t' && (c as int < 0x20 || 0x7F <= c as int <= 0x9F)
  }

  /** None is the refusal of the value. */
  function CleanHeader(value: string): Option<string> {
    var u := Unfold(value);
    if exists i :: 0 <= i < |u| && Forbidden(u[i]) then None else Some(u)
  }

  // ---------------------------------------------------------------- which values are accepted

  predicate IsBreak(c: char) {
    c == '\r' || c == '\n'
  }

  /** The CR or LF at position `i` belongs to a fold: it is, or is the CR of, a line break that
      white space follows; an LF may be the second half of such a break. */
  predicate InFold(s: string, i: nat)
    requires i < |s|
  {
    && i + 1 < |s|
    && (s[i + 1] in {' ', '\t'} || (s[i] == '\r' && s[i + 1] == '\n' && i + 2 < |s| && s[i + 2] in {' ', '\t'}))
  }

  /** Neither a C0 nor a C1 control character nor DEL, unless it is HTAB. */
  predicate Allowed(c: char) {
    c == '\t' || 0x20 <= c as int <= 0x7E || c as int >= 0xA0
  }

  ghost predicate Acceptable(s: string) {
    forall i :: 0 <= i < |s| ==> (if s[i] in {'\r', '\n'} then InFold(s, i) else Allowed(s[i]))
  }

  ghost predicate NoForbidden(s: string) {
    forall i :: 0 <= i < |s| ==> !Forbidden(s[i])
  }

  lemma NoForbiddenCons(c: char, s: string)
    ensures NoForbidden([c] + s) <==> !Forbidden(c) && NoForbidden(s)
  {
    var t := [c] + s;
    if !Forbidden(c) && NoForbidden(s) {
      assert forall i :: 0 <= i < |t| ==> t[i] == if i == 0 then c else s[i - 1];
    }
    if NoForbidden(t) {
      assert t[0] == c;
      assert forall i :: 0 <= i < |s| ==> s[i] == t[i + 1];
    }
  }

  /** Dropping a head that is itself acceptable in place. */
  lemma AcceptableTail(s: string, n: nat)
    requires n <= |s|
    requires forall i :: 0 <= i < n ==> (if IsBreak(s[i]) then InFold(s, i) else !Forbidden(s[i]))
    ensures Acceptable(s) <==> Acceptable(s[n..])
  {
    var t := s[n..];
    assert forall i :: 0 <= i < |t| ==> t[i] == s[n + i] && InFold(t, i) == InFold(s, n + i);
    if Acceptable(t) {
      forall i | n <= i < |s| ensures if IsBreak(s[i]) then InFold(s, i) else !Forbidden(s[i]) {
        assert t[i - n] == s[i];
      }
    }
  }

  lemma FoldHeadFine(s: string)
    requires FoldLength(s) > 0
    ensures forall i :: 0 <= i < FoldLength(s) ==> (if IsBreak(s[i]) then InFold(s, i) else !Forbidden(s[i]))
  {
    var b := BreakLength(s);
    var t := s[b..];
    assert forall i :: 0 <= i < WspRun(t) ==> Wsp(t[i]) && t[i] == s[b + i];
    assert forall i :: b <= i < FoldLength(s) ==> s[i] == t[i - b];
    assert Wsp(s[b]);
  }

  lemma {:induction false} UnfoldCleanIff(s: string)
    ensures NoForbidden(Unfold(s)) <==> Acceptable(s)
    decreases |s|
  {
    if s == "" {
    } else if FoldLength(s) > 0 {
      var n := FoldLength(s);
      FoldHeadFine(s);
      AcceptableTail(s, n);
      UnfoldCleanIff(s[n..]);
      NoForbiddenCons(' ', Unfold(s[n..]));
    } else {
      UnfoldCleanIff(s[1..]);
      NoForbiddenCons(s[0], Unfold(s[1..]));
      if IsBreak(s[0]) {
        NoFoldMeansBare(s);
      } else if !Forbidden(s[0]) {
        AcceptableTail(s, 1);
      }
    }
  }

  lemma NoFoldMeansBare(s: string)
    requires s != "" && IsBreak(s[0]) && FoldLength(s) == 0
    ensures !InFold(s, 0)
  {
    var b := BreakLength(s);
    if b < |s| {
      assert s[b..][0] == s[b];
      assert !Wsp(s[b]);
    }
  }

  /** Accepted are exactly the values whose every CR and LF belongs to a fold and that carry no
      other control character except HTAB. */
  lemma AcceptedIff(value: string)
    ensures CleanHeader(value).Some? <==> Acceptable(value)
  {
    UnfoldCleanIff(value);
  }

  // ---------------------------------------------------------------- what is returned

  lemma {:induction false} UnfoldFixed(s: string)
    requires forall i :: 0 <= i < |s| ==> !IsBreak(s[i])
    ensures Unfold(s) == s
  {
    if s != "" {
      assert BreakLength(s) == 0;
      UnfoldFixed(s[1..]);
    }
  }

  /** An accepted result has no line break left, and cleaning it again changes nothing. */
  lemma CleanIsIdempotent(value: string)
    requires CleanHeader(value).Some?
    ensures var u := CleanHeader(value).value;
            && (forall i :: 0 <= i < |u| ==> !IsBreak(u[i]))
            && CleanHeader(u) == Some(u)
  {
    var u := CleanHeader(value).value;
    forall i | 0 <= i < |u| ensures !IsBreak(u[i]) {
      assert !Forbidden(u[i]);
    }
    UnfoldFixed(u);
  }

  /** The standard's unfolding, character by character: a line break that white space follows
      (CRLF in the standard; a lone CR or LF counts here as well) is removed, all else stays. */
  function RfcUnfold(s: string): string {
    if s == "" then ""
    else if IsBreak(s[0]) && InFold(s, 0) then RfcUnfold(s[1..])
    else [s[0]] + RfcUnfold(s[1..])
  }

  lemma {:induction false} RfcKeepsWsp(run: string, s: string)
    requires forall i :: 0 <= i < |run| ==> Wsp(run[i])
    ensures RfcUnfold(run + s) == run + RfcUnfold(s)
  {
    if run == "" {
      assert run + s == s;
    } else {
      assert (run + s)[1..] == run[1..] + s;
      RfcKeepsWsp(run[1..], s);
    }
  }

  lemma RfcDropsBreak(s: string)
    requires FoldLength(s) > 0
    ensures RfcUnfold(s) == s[BreakLength(s)..FoldLength(s)] + RfcUnfold(s[FoldLength(s)..])
  {
    var b, n := BreakLength(s), FoldLength(s);
    var run, t := s[b..n], s[n..];
    assert forall i :: 0 <= i < |run| ==> run[i] == s[b..][i];
    assert Wsp(s[b]) by { assert run[0] == s[b]; }
    assert s[b..] == run + t;
    RfcKeepsWsp(run, t);
    if b == 2 {
      assert s[1..][1..] == s[2..] && s[1..][0] == '\n';
    }
  }

  /** Splitting on white space: `word` is the token being read. */
  function TokensFrom(word: string, s: string): seq<string>
    decreases |s|
  {
    if s == "" then (if word == "" then [] else [word])
    else if Wsp(s[0]) then (if word == "" then [] else [word]) + TokensFrom("", s[1..])
    else TokensFrom(word + [s[0]], s[1..])
  }

  function Tokens(s: string): seq<string> {
    TokensFrom("", s)
  }

  function Concat(words: seq<string>): string {
    if words == [] then "" else words[0] + Concat(words[1..])
  }

  lemma ConcatCons(word: string, words: seq<string>)
    ensures Concat([word] + words) == word + Concat(words) && Concat([] + words) == Concat(words)
  {
    assert ([word] + words)[1..] == words && [] + words == words;
  }

  function WithoutWsp(s: string): string {
    if s == "" then "" else (if s[0] in {' ', '\t'} then "" else [s[0]]) + WithoutWsp(s[1..])
  }

  /** No character is lost but the white space. */
  lemma {:induction false} TokensAreText(word: string, s: string)
    ensures Concat(TokensFrom(word, s)) == word + WithoutWsp(s)
    decreases |s|
  {
    if s == "" {
      ConcatCons(word, []);
      assert [word] + [] == [word];
    } else if Wsp(s[0]) {
      TokensAreText("", s[1..]);
      hide Concat;
      ConcatCons(word, TokensFrom("", s[1..]));
    } else {
      TokensAreText(word + [s[0]], s[1..]);
      hide Concat;
    }
  }

  ghost predicate Bare(word: string) {
    forall i :: 0 <= i < |word| ==> word[i] !in {' ', '\t'}
  }

  /** And the white space separates: every token is without it, and none is empty. */
  lemma {:induction false} TokensAreBare(word: string, s: string)
    requires Bare(word)
    ensures forall t :: t in TokensFrom(word, s) ==> t != "" && Bare(t)
    decreases |s|
  {
    if s != "" {
      if Wsp(s[0]) {
        TokensAreBare("", s[1..]);
      } else {
        TokensAreBare(word + [s[0]], s[1..]);
      }
    }
  }

  lemma {:induction false} WspRunIsOneSeparator(word: string, run: string, s: string)
    requires run != "" && forall i :: 0 <= i < |run| ==> Wsp(run[i])
    ensures TokensFrom(word, run + s) == TokensFrom(word, " " + s)
    decreases |run|
  {
    assert (run + s)[1..] == run[1..] + s;
    assert (" " + s)[1..] == s;
    if |run| > 1 {
      WspRunIsOneSeparator("", run[1..], s);
    } else {
      assert run[1..] + s == s;
    }
  }

  lemma {:induction false} SameTokens(word: string, s: string)
    ensures TokensFrom(word, Unfold(s)) == TokensFrom(word, RfcUnfold(s))
    decreases |s|
  {
    if s == "" {
    } else if FoldLength(s) > 0 {
      var n, b := FoldLength(s), BreakLength(s);
      var run := s[b..n];
      assert forall i :: 0 <= i < |run| ==> run[i] == s[b..][i];
      var u, r := Unfold(s[n..]), RfcUnfold(s[n..]);
      RfcDropsBreak(s);
      WspRunIsOneSeparator(word, run, r);
      SameTokens("", s[n..]);
      assert (" " + u)[1..] == u && (" " + r)[1..] == r;
    } else {
      if IsBreak(s[0]) { NoFoldMeansBare(s); }
      var u, r := Unfold(s[1..]), RfcUnfold(s[1..]);
      assert ([s[0]] + u)[1..] == u && ([s[0]] + r)[1..] == r;
      if Wsp(s[0]) {
        SameTokens("", s[1..]);
      } else {
        SameTokens(word + [s[0]], s[1..]);
      }
    }
  }

  /** No message id of a folded References chain is lost, split or merged. */
  lemma CleanKeepsTokens(value: string)
    requires CleanHeader(value).Some?
    ensures Tokens(CleanHeader(value).value) == Tokens(RfcUnfold(value))
    ensures Concat(Tokens(CleanHeader(value).value)) == WithoutWsp(RfcUnfold(value))
    ensures forall t :: t in Tokens(CleanHeader(value).value) ==> t != "" && Bare(t)
  {
    SameTokens("", value);
    TokensAreText("", RfcUnfold(value));
    TokensAreBare("", RfcUnfold(value));
  }
}
