/**
 * The JavaScript string operations the chat handler relies on:
 * `String.prototype.trim`, `.length` (counted in UTF-16 code units),
 * `toLowerCase` (restricted to ASCII) and the regular expression
 * `/^[a-z]{1,3}$/i` that filters keyboard noise.
 *
 * Dafny's `char` is a Unicode scalar value, so `|s|` counts code points;
 * `Utf16Length` gives the count JavaScript reports.
 */
module JsText {

  /** The characters `trim` removes: ECMAScript WhiteSpace and LineTerminator. */
  predicate IsWhitespace(c: char) {
    || c == '\t' || c == '\n' || c == '\U{000B}' || c == '\U{000C}' || c == '\r'
    || c == ' ' || c == '\U{00A0}' || c == '\U{1680}'
    || ('\U{2000}' <= c <= '\U{200A}')
    || c == '\U{2028}' || c == '\U{2029}' || c == '\U{202F}' || c == '\U{205F}'
    || c == '\U{3000}' || c == '\U{FEFF}'
  }

  predicate AllWhitespace(s: string) {
    forall k :: 0 <= k < |s| ==> IsWhitespace(s[k])
  }

  /** Drops leading whitespace: the result is the suffix of `s` after its whitespace prefix. */
  function TrimStart(s: string): (r: string)
    ensures |r| <= |s| && r == s[|s| - |r|..]
    ensures forall k :: 0 <= k < |s| - |r| ==> IsWhitespace(s[k])
    ensures r != [] ==> !IsWhitespace(r[0])
  {
    if s != [] && IsWhitespace(s[0]) then TrimStart(s[1..]) else s
  }

  /** Drops trailing whitespace: the result is the prefix of `s` before its whitespace suffix. */
  function TrimEnd(s: string): (r: string)
    ensures |r| <= |s| && r == s[..|r|]
    ensures forall k :: |r| <= k < |s| ==> IsWhitespace(s[k])
    ensures r != [] ==> !IsWhitespace(r[|r| - 1])
  {
    if s != [] && IsWhitespace(s[|s| - 1]) then TrimEnd(s[..|s| - 1]) else s
  }

  /** `String.prototype.trim`. */
  function Trim(s: string): (r: string)
    ensures |r| <= |s|
    ensures r != [] ==> !IsWhitespace(r[0]) && !IsWhitespace(r[|r| - 1])
  {
    TrimEnd(TrimStart(s))
  }

  /** A stretch of whitespace characters, taken as a slice, is all whitespace. */
  lemma WhitespaceSlice(s: string, a: nat, b: nat)
    requires a <= b <= |s|
    requires forall k :: a <= k < b ==> IsWhitespace(s[k])
    ensures AllWhitespace(s[a..b])
  {
    forall k | 0 <= k < b - a
      ensures IsWhitespace(s[a..b][k])
    {
      assert s[a..b][k] == s[a + k];
    }
  }

  /** What `TrimStart` drops is whitespace. */
  lemma TrimStartDropsWhitespace(s: string)
    ensures AllWhitespace(s[..|s| - |TrimStart(s)|])
  {
    var i := |s| - |TrimStart(s)|;
    WhitespaceSlice(s, 0, i);
    assert s[..i] == s[0..i];
  }

  /** What `TrimEnd` drops is whitespace. */
  lemma TrimEndDropsWhitespace(s: string)
    ensures AllWhitespace(s[|TrimEnd(s)|..])
  {
    var j := |TrimEnd(s)|;
    WhitespaceSlice(s, j, |s|);
    assert s[j..] == s[j..|s|];
  }

  /** What `trim` removes is whitespace, at the two ends, and nothing else. */
  lemma TrimIsSlice(s: string)
    ensures exists i, j :: 0 <= i <= j <= |s| && Trim(s) == s[i..j] && AllWhitespace(s[..i]) && AllWhitespace(s[j..])
  {
    var t := TrimStart(s);
    var r := TrimEnd(t);
    var i := |s| - |t|;
    var j := i + |r|;
    TrimStartDropsWhitespace(s);
    TrimEndDropsWhitespace(t);
    assert r == s[i..j] && s[j..] == t[|r|..] by {
      assert t == s[i..] && r == t[..|r|];
    }
  }

  /** `TrimStart` removes exactly a whitespace prefix put in front of a string that does not start with whitespace. */
  lemma {:induction false} TrimStartPadded(pre: string, t: string)
    requires AllWhitespace(pre)
    requires t != [] ==> !IsWhitespace(t[0])
    ensures TrimStart(pre + t) == t
  {
    if pre == [] {
      assert pre + t == t;
    } else {
      assert (pre + t)[0] == pre[0];
      assert (pre + t)[1..] == pre[1..] + t;
      TrimStartPadded(pre[1..], t);
    }
  }

  /** `TrimEnd` removes exactly a whitespace suffix put after a string that does not end with whitespace. */
  lemma {:induction false} TrimEndPadded(t: string, post: string)
    requires AllWhitespace(post)
    requires t != [] ==> !IsWhitespace(t[|t| - 1])
    ensures TrimEnd(t + post) == t
  {
    if post == [] {
      assert t + post == t;
    } else {
      var n := |t + post|;
      assert (t + post)[n - 1] == post[|post| - 1];
      assert (t + post)[..n - 1] == t + post[..|post| - 1];
      TrimEndPadded(t, post[..|post| - 1]);
    }
  }

  /** Padding a non-empty string that has no whitespace at its ends with whitespace on both sides is undone by `trim`. */
  lemma TrimPadded(pre: string, t: string, post: string)
    requires AllWhitespace(pre) && AllWhitespace(post)
    requires t != [] && !IsWhitespace(t[0]) && !IsWhitespace(t[|t| - 1])
    ensures Trim(pre + t + post) == t
  {
    assert pre + t + post == pre + (t + post);
    TrimStartPadded(pre, t + post);
    TrimEndPadded(t, post);
  }

  /** A string with no whitespace at either end is its own trim. */
  lemma TrimOfTrimmed(s: string)
    requires s != [] ==> !IsWhitespace(s[0]) && !IsWhitespace(s[|s| - 1])
    ensures Trim(s) == s
  {
    assert TrimStart(s) == s;
    assert TrimEnd(s) == s;
  }

  /** Number of UTF-16 code units of one character. */
  function Utf16Units(c: char): nat {
    if c as int >= 0x1_0000 then 2 else 1
  }

  /** JavaScript's `.length`: characters outside the Basic Multilingual Plane count twice. */
  function Utf16Length(s: string): nat {
    if s == [] then 0 else Utf16Units(s[0]) + Utf16Length(s[1..])
  }

  /** The JavaScript length lies between the number of characters and twice that. */
  lemma {:induction false} Utf16LengthBounds(s: string)
    ensures |s| <= Utf16Length(s) <= 2 * |s|
    ensures Utf16Length(s) == |s| <==> forall k :: 0 <= k < |s| ==> s[k] as int < 0x1_0000
  {
    if s != [] {
      Utf16LengthBounds(s[1..]);
      if Utf16Length(s) == |s| {
        assert s[0] as int < 0x1_0000;
        forall k | 0 <= k < |s| ensures s[k] as int < 0x1_0000 {
          if k > 0 { assert s[k] == s[1..][k - 1]; }
        }
      }
      if forall k :: 0 <= k < |s| ==> s[k] as int < 0x1_0000 {
        assert forall k :: 0 <= k < |s[1..]| ==> s[1..][k] as int < 0x1_0000 by {
          forall k | 0 <= k < |s[1..]| ensures s[1..][k] as int < 0x1_0000 { assert s[1..][k] == s[k + 1]; }
        }
      }
    }
  }

  predicate IsAsciiUpper(c: char) { 'A' <= c <= 'Z' }

  predicate IsAsciiLetter(c: char) { 'a' <= c <= 'z' || IsAsciiUpper(c) }

  /** Lower-cases one character; only ASCII letters are mapped. */
  function LowerChar(c: char): (d: char)
    ensures !IsAsciiUpper(d)
    ensures IsAsciiLetter(d) <==> IsAsciiLetter(c)
    ensures !IsAsciiUpper(c) ==> d == c
    ensures IsAsciiUpper(c) ==> d as int - 'a' as int == c as int - 'A' as int
  {
    if IsAsciiUpper(c) then (c as int + 32) as char else c
  }

  predicate IsLower(s: string) {
    forall k :: 0 <= k < |s| ==> !IsAsciiUpper(s[k])
  }

  /** `toLowerCase`, on ASCII letters: maps character by character and leaves no upper-case letter. */
  function Lower(s: string): (r: string)
    ensures |r| == |s|
    ensures forall k :: 0 <= k < |s| ==> r[k] == LowerChar(s[k])
    ensures IsLower(r)
  {
    seq(|s|, k requires 0 <= k < |s| => LowerChar(s[k]))
  }

  /** A lower-case string is its own lower case, so lower-casing twice is lower-casing once. */
  lemma LowerOfLower(s: string)
    requires IsLower(s)
    ensures Lower(s) == s
  {
  }

  /** `/^[a-z]{1,3}$/i`: one to three ASCII letters of either case and nothing else. */
  predicate IsJunkToken(s: string) {
    1 <= |s| <= 3 && forall k :: 0 <= k < |s| ==> IsAsciiLetter(s[k])
  }

  /** A non-empty string is not junk exactly when it is long or holds a character other than an ASCII letter. */
  lemma NotJunkIff(s: string)
    requires s != []
    ensures !IsJunkToken(s) <==> |s| >= 4 || exists k :: 0 <= k < |s| && !IsAsciiLetter(s[k])
  {
  }
}
