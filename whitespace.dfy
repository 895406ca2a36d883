/**
 * The character classes and the three regular-expression classifications that
 * the spacing rules apply to the text between two tokens: JavaScript's `\s`,
 * its line terminators, the separator pattern `/^(?:(?=.)\s)+(?!.)/`, the
 * block-comment stripper `/\/\*[^]*?\*\//g` and the line-break test.
 */
module Whitespace {

  import opened Source

  /** The characters `.` does not match: `\n`, `\r`, U+2028 and U+2029. */
  predicate IsLineTerminator(c: char)
  {
    c == '\n' || c == '\r' || c == '\U{2028}' || c == '\U{2029}'
  }

  /** JavaScript's `\s`: white space and line terminators. */
  predicate IsWhitespace(c: char)
  {
    || c == '\t' || c == '\n' || c == '\U{000B}' || c == '\U{000C}' || c == '\r' || c == ' '
    || c == '\U{00A0}' || c == '\U{1680}' || '\U{2000}' <= c <= '\U{200A}'
    || c == '\U{2028}' || c == '\U{2029}' || c == '\U{202F}' || c == '\U{205F}'
    || c == '\U{3000}' || c == '\U{FEFF}'
  }

  /** `(?=.)\s`: a white-space character that is not a line terminator. */
  predicate IsBlank(c: char)
  {
    IsWhitespace(c) && !IsLineTerminator(c)
  }

  /** The length of the longest prefix of `s` made of blanks. */
  function BlankRun(s: string): (n: nat)
    ensures n <= |s|
    ensures forall i :: 0 <= i < n ==> IsBlank(s[i])
    ensures n < |s| ==> !IsBlank(s[n])
  {
    if s == [] || !IsBlank(s[0]) then 0 else 1 + BlankRun(s[1..])
  }

  /**
   * `k` is a match length of `/^(?:(?=.)\s)+(?!.)/` on `s`: one or more blanks
   * followed by the end of `s` or by a line terminator.
   */
  ghost predicate IsSeparatorMatch(s: string, k: nat)
  {
    && 0 < k <= |s|
    && (forall i :: 0 <= i < k ==> IsBlank(s[i]))
    && (k == |s| || IsLineTerminator(s[k]))
  }

  /**
   * `/^(?:(?=.)\s)+(?!.)/.exec(s)`: the length of the match, if any. The
   * match, when there is one, is the only length the pattern admits.
   */
  function SeparatorMatch(s: string): (r: Option<nat>)
    ensures r.Some? ==> IsSeparatorMatch(s, r.value)
    ensures forall k: nat :: IsSeparatorMatch(s, k) ==> r == Some(k)
  {
    var n := BlankRun(s);
    if n > 0 && (n == |s| || IsLineTerminator(s[n])) then Some(n) else None
  }

  /** After the matched run is removed, the pattern no longer matches. */
  lemma RemovingMatchClearsSeparator(s: string)
    requires SeparatorMatch(s).Some?
    ensures SeparatorMatch(s[SeparatorMatch(s).value..]).None?
  {
    var n := SeparatorMatch(s).value;
    var t := s[n..];
    if t != [] {
      assert t[0] == s[n];
      assert !IsBlank(t[0]);
    }
  }

  /** A separator that starts with a line terminator never matches. */
  lemma LeadingLineTerminatorNeverMatches(s: string)
    requires |s| > 0 && IsLineTerminator(s[0])
    ensures SeparatorMatch(s).None?
  {
  }

  /** The part of `s` before its first line terminator. */
  function FirstLine(s: string): (r: string)
    ensures |r| <= |s| && r == s[..|r|]
    ensures forall i :: 0 <= i < |r| ==> !IsLineTerminator(r[i])
    ensures |r| == |s| || IsLineTerminator(s[|r|])
  {
    if s == [] || IsLineTerminator(s[0]) then "" else [s[0]] + FirstLine(s[1..])
  }

  /** The part of `s` before its first line terminator is non-empty and all white space. */
  predicate BlankFirstLine(s: string)
  {
    var f := FirstLine(s);
    |f| > 0 && forall i :: 0 <= i < |f| ==> IsWhitespace(f[i])
  }

  /**
   * The separator pattern matches exactly when the text before the first line
   * terminator is non-empty white space, and then it matches all of that text.
   */
  lemma SeparatorMatchIsBlankFirstLine(s: string)
    ensures SeparatorMatch(s).Some? <==> BlankFirstLine(s)
    ensures SeparatorMatch(s).Some? ==> SeparatorMatch(s).value == |FirstLine(s)|
  {
    var f := FirstLine(s);
    if SeparatorMatch(s).Some? {
      var n := SeparatorMatch(s).value;
      assert forall i :: 0 <= i < |f| ==> f[i] == s[i];
      assert |f| == n;
    }
    if BlankFirstLine(s) {
      assert forall i :: 0 <= i < |f| ==> f[i] == s[i];
      assert IsSeparatorMatch(s, |f|);
    }
  }

  /**
   * The removal both spacing rules make for the gap `text[start..end]`: the
   * pattern's match, taken from the start of the gap.
   */
  function SeparatorRemoval(text: string, start: nat, end: nat): Option<Fix>
  {
    var m := SeparatorMatch(JsSlice(text, start, end));
    if m.Some? then Some(Fix(start, start + m.value, "")) else None
  }

  /**
   * There is a removal iff the gap's text before its first line terminator is
   * non-empty white space; it removes exactly that text, after which the
   * pattern no longer matches; a gap that starts with a line terminator is
   * never touched.
   */
  lemma SeparatorRemovalShape(text: string, start: nat, end: nat)
    ensures var gap := JsSlice(text, start, end);
      && (SeparatorRemoval(text, start, end).Some? <==> BlankFirstLine(gap))
      && (SeparatorRemoval(text, start, end).Some? ==>
            && SeparatorRemoval(text, start, end).value == Fix(start, start + |FirstLine(gap)|, "")
            && SeparatorMatch(gap[|FirstLine(gap)|..]).None?)
      && (|gap| > 0 && IsLineTerminator(gap[0]) ==> SeparatorRemoval(text, start, end).None?)
  {
    var gap := JsSlice(text, start, end);
    SeparatorMatchIsBlankFirstLine(gap);
    if SeparatorMatch(gap).Some? {
      RemovingMatchClearsSeparator(gap);
    }
  }

  // The line-break pattern `\r\n|[\r\n\u2028\u2029]` finds a match in `s`.
  predicate HasLineBreak(s: string)
  {
    exists i :: 0 <= i < |s| && IsLineTerminator(s[i])
  }

  /** `/\s/.test(s)` */
  predicate HasWhitespace(s: string)
  {
    exists i :: 0 <= i < |s| && IsWhitespace(s[i])
  }

  // `s[i..i + 2]` is the two characters that close a block comment.
  predicate ClosesCommentAt(s: string, i: nat)
  {
    i + 1 < |s| && s[i] == '*' && s[i + 1] == '/'
  }

  // The offset just past the first comment closer that starts at or after `i`.
  function CommentEnd(s: string, i: nat): (r: Option<nat>)
    ensures r.Some? ==> i + 2 <= r.value <= |s| && ClosesCommentAt(s, r.value - 2)
    ensures r.Some? ==> forall j :: i <= j < r.value - 2 ==> !ClosesCommentAt(s, j)
    ensures r.None? ==> forall j :: i <= j ==> !ClosesCommentAt(s, j)
    decreases |s| - i
  {
    if i + 1 >= |s| then None
    else if ClosesCommentAt(s, i) then Some(i + 2)
    else CommentEnd(s, i + 1)
  }

  /**
   * `s.replace(/\/\*[^]*?\*\//g, '')`: removes every complete block comment,
   * scanning left to right; an unterminated comment opener is kept as text.
   */
  function StripBlockComments(s: string): (r: string)
    ensures |r| <= |s|
    ensures multiset(r) <= multiset(s)
    decreases |s|
  {
    if |s| < 2 then s
    else if s[0] == '/' && s[1] == '*' && CommentEnd(s, 2).Some? then
      var e := CommentEnd(s, 2).value;
      assert s == s[..e] + s[e..];
      StripBlockComments(s[e..])
    else
      assert s == [s[0]] + s[1..];
      [s[0]] + StripBlockComments(s[1..])
  }

  /** Stripping comments never creates a line break or white space. */
  lemma {:induction false} StripKeepsOnlyOriginalCharacters(s: string)
    ensures HasLineBreak(StripBlockComments(s)) ==> HasLineBreak(s)
    ensures HasWhitespace(StripBlockComments(s)) ==> HasWhitespace(s)
  {
    var r := StripBlockComments(s);
    if HasLineBreak(r) {
      var i :| 0 <= i < |r| && IsLineTerminator(r[i]);
      assert r[i] in multiset(r);
      assert r[i] in multiset(s);
      var j :| 0 <= j < |s| && s[j] == r[i];
    }
    if HasWhitespace(r) {
      var i :| 0 <= i < |r| && IsWhitespace(r[i]);
      assert r[i] in multiset(r);
      assert r[i] in multiset(s);
      var j :| 0 <= j < |s| && s[j] == r[i];
    }
  }

  // A gap without a comment opener is left as it is.
  lemma {:induction false} StripWithoutCommentIsIdentity(s: string)
    requires forall i :: 0 <= i < |s| - 1 ==> !(s[i] == '/' && s[i + 1] == '*')
    ensures StripBlockComments(s) == s
    decreases |s|
  {
    if |s| >= 2 {
      StripWithoutCommentIsIdentity(s[1..]);
      assert s == [s[0]] + s[1..];
    }
  }

  /** A complete block comment at the front of a gap is removed as a whole, up to its first closer. */
  lemma StripDropsLeadingComment(body: string, rest: string)
    requires forall j :: 0 <= j < |body| ==> !ClosesCommentAt(body, j)
    ensures StripBlockComments("/*" + body + "*/" + rest) == StripBlockComments(rest)
  {
    var s := "/*" + body + "*/" + rest;
    var e := |body| + 4;
    assert ClosesCommentAt(s, e - 2);
    forall j | 2 <= j < e - 2
      ensures !ClosesCommentAt(s, j)
    {
      if j + 1 < e - 2 {
        assert s[j] == body[j - 2] && s[j + 1] == body[j - 1];
        assert !ClosesCommentAt(body, j - 2);
      } else {
        assert s[j + 1] == '*';
      }
    }
    assert CommentEnd(s, 2) == Some(e);
    assert s[e..] == rest;
  }

  /** A character other than `/` in front of a gap survives stripping. */
  lemma StripKeepsLeadingCharacter(c: char, s: string)
    requires c != '/'
    ensures StripBlockComments([c] + s) == [c] + StripBlockComments(s)
  {
    var t := [c] + s;
    if |t| >= 2 {
      assert t[1..] == s;
    }
  }
}
