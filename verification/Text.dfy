/** The string operations the connector leans on: strip, lower-casing and substring search. */
module Text {

  /** The characters that str.strip removes. */
  predicate IsSpace(c: char) {
    var o := c as int;
    || 0x09 <= o <= 0x0D || 0x1C <= o <= 0x20 || o == 0x85 || o == 0xA0 || o == 0x1680
    || 0x2000 <= o <= 0x200A || o == 0x2028 || o == 0x2029 || o == 0x202F || o == 0x205F || o == 0x3000
  }

  function TrimLeft(s: string): (r: string)
    ensures r != "" ==> !IsSpace(r[0])
  {
    if s != "" && IsSpace(s[0]) then TrimLeft(s[1..]) else s
  }

  function TrimRight(s: string): (r: string)
    ensures r != "" ==> !IsSpace(r[|r| - 1])
    ensures |r| <= |s| && r == s[..|r|]
  {
    if s != "" && IsSpace(s[|s| - 1]) then TrimRight(s[..|s| - 1]) else s
  }

  function Strip(s: string): (r: string)
    ensures r != "" ==> !IsSpace(r[0]) && !IsSpace(r[|r| - 1])
  {
    TrimRight(TrimLeft(s))
  }

  ghost predicate AllSpace(s: string) {
    forall i :: 0 <= i < |s| ==> IsSpace(s[i])
  }

  lemma {:induction false} TrimLeftOf(pre: string, t: string)
    requires AllSpace(pre) && (t != "" ==> !IsSpace(t[0]))
    ensures TrimLeft(pre + t) == t
  {
    if pre == "" {
      assert pre + t == t;
    } else {
      assert (pre + t)[1..] == pre[1..] + t;
      TrimLeftOf(pre[1..], t);
    }
  }

  lemma {:induction false} TrimRightOf(t: string, post: string)
    requires AllSpace(post) && (t != "" ==> !IsSpace(t[|t| - 1]))
    ensures TrimRight(t + post) == t
  {
    if post == "" {
      assert t + post == t;
    } else {
      assert (t + post)[..|t + post| - 1] == t + post[..|post| - 1];
      TrimRightOf(t, post[..|post| - 1]);
    }
  }

  /** What is left between the spaces at both ends. */
  lemma StripOf(pre: string, t: string, post: string)
    requires AllSpace(pre) && AllSpace(post) && (t != "" ==> !IsSpace(t[0]) && !IsSpace(t[|t| - 1]))
    ensures Strip(pre + t + post) == t
  {
    if t == "" {
      assert pre + t + post == (pre + post) + "";
      TrimLeftOf(pre + post, "");
    } else {
      assert pre + t + post == pre + (t + post);
      TrimLeftOf(pre, t + post);
      TrimRightOf(t, post);
    }
  }

  ghost function SpacesAhead(s: string): (n: nat)
    ensures n <= |s| && AllSpace(s[..n])
    ensures n < |s| ==> !IsSpace(s[n])
  {
    if s != "" && IsSpace(s[0]) then 1 + SpacesAhead(s[1..]) else 0
  }

  ghost function SpacesBehind(s: string): (n: nat)
    ensures n <= |s| && AllSpace(s[|s| - n..])
    ensures n < |s| ==> !IsSpace(s[|s| - n - 1])
  {
    if s != "" && IsSpace(s[|s| - 1]) then 1 + SpacesBehind(s[..|s| - 1]) else 0
  }

  lemma LeftPart(s: string) returns (pre: string, t: string)
    ensures s == pre + t && AllSpace(pre) && t == TrimLeft(s)
  {
    hide IsSpace, AllSpace;
    var n := SpacesAhead(s);
    pre, t := s[..n], s[n..];
    TrimLeftOf(pre, t);
    assert s == pre + t;
  }

  lemma RightPart(t: string) returns (core: string, post: string)
    ensures t == core + post && AllSpace(post) && core == TrimRight(t)
  {
    hide IsSpace, AllSpace;
    var n := |t| - SpacesBehind(t);
    core, post := t[..n], t[n..];
    TrimRightOf(core, post);
    assert t == core + post;
  }

  /** Every string has that form. */
  lemma StripParts(s: string) returns (pre: string, post: string)
    ensures s == pre + Strip(s) + post && AllSpace(pre) && AllSpace(post)
  {
    hide IsSpace, AllSpace, TrimLeft, TrimRight;
    var t, core;
    pre, t := LeftPart(s);
    core, post := RightPart(t);
    assert pre + (core + post) == pre + core + post;
  }

  lemma StripIdempotent(s: string)
    ensures Strip(Strip(s)) == Strip(s)
  {
    StripOf("", Strip(s), "");
    assert "" + Strip(s) + "" == Strip(s);
  }

  /** Lower-casing, exact wherever the result is ASCII: the two non-ASCII characters whose
      lower-case form contains an ASCII letter are listed, all others stay non-ASCII and so
      cannot take part in a match against an ASCII needle. */
  function LowerChar(c: char): string {
    if 'A' <= c <= 'Z' then [(c as int + 32) as char]
    else if c as int == 0x212A then "k"
    else if c as int == 0x130 then ['i', 0x307 as char]
    else [c]
  }

  function Lower(s: string): string {
    if s == "" then "" else LowerChar(s[0]) + Lower(s[1..])
  }

  /** No capital letter is left, and lower-casing again changes nothing. */
  lemma {:induction false} LowerTwice(s: string)
    ensures forall i :: 0 <= i < |Lower(s)| ==> !('A' <= Lower(s)[i] <= 'Z')
    ensures Lower(Lower(s)) == Lower(s)
  {
    if s != "" {
      LowerTwice(s[1..]);
      LowerAppend(LowerChar(s[0]), Lower(s[1..]));
      LowerCharTwice(s[0]);
    }
  }

  lemma LowerCharTwice(c: char)
    ensures Lower(LowerChar(c)) == LowerChar(c)
  {
    var l := LowerChar(c);
    if |l| == 2 {
      assert l[1..] == [l[1]];
      assert Lower([l[1]]) == [l[1]];
    }
  }

  lemma {:induction false} LowerAppend(s: string, t: string)
    ensures Lower(s + t) == Lower(s) + Lower(t)
  {
    if s == "" {
      assert s + t == t;
    } else {
      assert (s + t)[1..] == s[1..] + t;
      LowerAppend(s[1..], t);
    }
  }

  predicate OccursAt(text: string, needle: string, i: int) {
    0 <= i <= |text| - |needle| && text[i..i + |needle|] == needle
  }

  lemma OccursChar(text: string, needle: string, i: int, k: nat)
    requires OccursAt(text, needle, i) && k < |needle|
    ensures text[i + k] == needle[k]
  {
    assert text[i..i + |needle|][k] == text[i + k];
  }

  predicate Contains(text: string, needle: string) {
    exists i :: 0 <= i <= |text| && OccursAt(text, needle, i)
  }

  lemma ContainsInSuffix(pre: string, text: string, needle: string)
    requires Contains(text, needle)
    ensures Contains(pre + text, needle)
  {
    var i :| 0 <= i <= |text| && OccursAt(text, needle, i);
    assert OccursAt(pre + text, needle, |pre| + i);
  }

  predicate ContainsAny(text: string, needles: seq<string>) {
    exists n :: n in needles && Contains(text, n)
  }
}
