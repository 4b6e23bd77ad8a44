/**
 * JavaScript's String.prototype.trim, which the admin write path applies to
 * both submitted fields before storing them.
 *
 * trim removes, from both ends, every code point that ECMAScript classifies as
 * WhiteSpace (TAB, VT, FF, ZWNBSP and the Unicode "Zs" category) or as a
 * LineTerminator (LF, CR, LINE SEPARATOR, PARAGRAPH SEPARATOR).
 */
module JsText {

  /** The code points trim strips from either end of a string. */
  predicate IsTrimmable(c: char) {
    c == '\t' || c == '\n' || c == '\U{000B}' || c == '\U{000C}' || c == '\r'
    || c == ' ' || c == '\U{00A0}' || c == '\U{1680}'
    || ('\U{2000}' <= c && c <= '\U{200A}')
    || c == '\U{2028}' || c == '\U{2029}' || c == '\U{202F}' || c == '\U{205F}'
    || c == '\U{3000}' || c == '\U{FEFF}'
  }

  /** Every character of s is stripped by trim: s is "whitespace only". */
  predicate AllTrimmable(s: string) {
    forall i :: 0 <= i < |s| ==> IsTrimmable(s[i])
  }

  /** s starts and ends with a character trim keeps (or is empty). */
  predicate HasSolidEnds(s: string) {
    s == [] || (!IsTrimmable(s[0]) && !IsTrimmable(s[|s| - 1]))
  }

  /** Drops the leading trimmable characters: what remains is a suffix of s
      whose dropped prefix is all whitespace and whose first character is not. */
  function TrimStart(s: string): (r: string)
    ensures |r| <= |s| && r == s[|s| - |r|..]
    ensures AllTrimmable(s[..|s| - |r|])
    ensures r == [] || !IsTrimmable(r[0])
    decreases |s|
  {
    if |s| > 0 && IsTrimmable(s[0]) then
      var r := TrimStart(s[1..]);
      assert s[..|s| - |r|] == [s[0]] + s[1..][..|s| - 1 - |r|];
      r
    else
      s
  }

  /** Drops the trailing trimmable characters: what remains is a prefix of s
      whose dropped suffix is all whitespace and whose last character is not. */
  function TrimEnd(s: string): (r: string)
    ensures |r| <= |s| && r == s[..|r|]
    ensures AllTrimmable(s[|r|..])
    ensures r == [] || !IsTrimmable(r[|r| - 1])
    decreases |s|
  {
    if |s| > 0 && IsTrimmable(s[|s| - 1]) then
      var r := TrimEnd(s[..|s| - 1]);
      assert s[|r|..] == s[..|s| - 1][|r|..] + [s[|s| - 1]];
      r
    else
      s
  }

  /** String.prototype.trim. */
  function Trim(s: string): (r: string)
    ensures |r| <= |s|
    ensures HasSolidEnds(r)
  {
    TrimEnd(TrimStart(s))
  }

  /** r is the slice s[i..i + |r|] and everything of s around it is whitespace. */
  predicate IsWhitespaceFramedSlice(s: string, r: string, i: int) {
    0 <= i <= |s| - |r| && r == s[i..i + |r|] && AllTrimmable(s[..i]) && AllTrimmable(s[i + |r|..])
  }

  /** trim cuts a slice out of s with only whitespace outside it; with Trim's
      solid ends and TrimOfPadded this fixes trim's result uniquely. */
  lemma {:induction false} TrimIsSlice(s: string)
    ensures exists i :: IsWhitespaceFramedSlice(s, Trim(s), i)
  {
    var t := TrimStart(s);
    var r := TrimEnd(t);
    assert Trim(s) == r;
    var i := |s| - |t|;
    assert t == s[i..];
    assert r == s[i..i + |r|];
    assert s[i + |r|..] == t[|r|..];
    assert IsWhitespaceFramedSlice(s, r, i);
  }

  /** trim leaves the core of a padded string: whatever whitespace surrounds a
      string with solid ends, trim gives back exactly that string. Together with
      Trim's own ensures this pins trim down completely. */
  lemma {:induction false} TrimOfPadded(pre: string, core: string, post: string)
    requires AllTrimmable(pre) && AllTrimmable(post) && HasSolidEnds(core)
    ensures Trim(pre + core + post) == core
  {
    if core == [] {
      assert pre + core + post == (pre + post) + [];
      TrimStartOfPadded(pre + post, []);
    } else {
      assert pre + core + post == pre + (core + post);
      TrimStartOfPadded(pre, core + post);
      TrimEndOfPadded(core, post);
    }
  }

  lemma {:induction false} TrimStartOfPadded(pre: string, rest: string)
    requires AllTrimmable(pre)
    requires rest == [] || !IsTrimmable(rest[0])
    ensures TrimStart(pre + rest) == rest
    decreases |pre|
  {
    if pre != [] {
      assert (pre + rest)[1..] == pre[1..] + rest;
      TrimStartOfPadded(pre[1..], rest);
    }
  }

  lemma {:induction false} TrimEndOfPadded(rest: string, post: string)
    requires AllTrimmable(post)
    requires rest == [] || !IsTrimmable(rest[|rest| - 1])
    ensures TrimEnd(rest + post) == rest
    decreases |post|
  {
    if post != [] {
      var s := rest + post;
      assert s[..|s| - 1] == rest + post[..|post| - 1];
      TrimEndOfPadded(rest, post[..|post| - 1]);
    }
  }

  /** A string trim would not change: empty, or starting and ending with a
      character trim keeps. */
  lemma TrimKeepsSolid(s: string)
    requires HasSolidEnds(s)
    ensures Trim(s) == s
  {
    TrimOfPadded([], s, []);
    assert [] + s + [] == s;
  }

  /** trim leaves s unchanged exactly when s has solid ends. */
  lemma TrimFixedIff(s: string)
    ensures Trim(s) == s <==> HasSolidEnds(s)
  {
    if HasSolidEnds(s) {
      TrimKeepsSolid(s);
    }
  }

  /** trim is idempotent. */
  lemma TrimIdempotent(s: string)
    ensures Trim(Trim(s)) == Trim(s)
  {
    TrimKeepsSolid(Trim(s));
  }

  /** trim yields the empty string exactly when the input is whitespace only. */
  lemma {:induction false} TrimEmptyIff(s: string)
    ensures Trim(s) == [] <==> AllTrimmable(s)
  {
    if AllTrimmable(s) {
      TrimOfPadded(s, [], []);
      assert s + [] + [] == s;
    } else {
      var t := TrimStart(s);
      assert s == s[..|s| - |t|] + t;
      assert t != [] && !IsTrimmable(t[0]);
      var r := TrimEnd(t);
      assert t[0..] == t;
      assert AllTrimmable(t[|r|..]);
      assert r != [];
      assert Trim(s) == r;
    }
  }
}
