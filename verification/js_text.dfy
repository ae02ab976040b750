/** The pieces of JavaScript string semantics the site relies on:
    `String.prototype.trim`, the `\s` regular-expression class, and
    `toUpperCase` applied to a single character. */
module JsText {

  /** ECMAScript WhiteSpace and LineTerminator code points. This one set is
      both what `trim` strips and what `\s` matches inside a regular
      expression. */
  predicate IsWhitespace(c: char) {
    || c == '\U{0009}' || c == '\U{000A}' || c == '\U{000B}' || c == '\U{000C}'
    || c == '\U{000D}' || c == '\U{0020}' || c == '\U{00A0}' || c == '\U{1680}'
    || ('\U{2000}' <= c <= '\U{200A}')
    || c == '\U{2028}' || c == '\U{2029}' || c == '\U{202F}' || c == '\U{205F}'
    || c == '\U{3000}' || c == '\U{FEFF}'
  }

  /** True when every character of `s` is whitespace (in particular when `s` is empty). */
  predicate IsBlank(s: string) {
    forall k :: 0 <= k < |s| ==> IsWhitespace(s[k])
  }

  /** `s` with its leading whitespace removed: a suffix of `s`. */
  function TrimStart(s: string): (r: string)
    ensures |r| <= |s| && r == s[|s| - |r|..]
    ensures IsBlank(s[..|s| - |r|])
    ensures |r| > 0 ==> !IsWhitespace(r[0])
  {
    if |s| > 0 && IsWhitespace(s[0]) then TrimStart(s[1..]) else s
  }

  /** `s` with its trailing whitespace removed: a prefix of `s`. */
  function TrimEnd(s: string): (r: string)
    ensures |r| <= |s| && r == s[..|r|]
    ensures IsBlank(s[|r|..])
    ensures |r| > 0 ==> !IsWhitespace(r[|r| - 1])
  {
    if |s| > 0 && IsWhitespace(s[|s| - 1]) then TrimEnd(s[..|s| - 1]) else s
  }

  /** `String.prototype.trim`: whitespace removed from both ends. The result
      is a contiguous piece of `s`, everything dropped before and after it is
      whitespace, it starts and ends with a non-whitespace character, and it
      is empty exactly when `s` is blank. */
  function Trim(s: string): (r: string)
    ensures |r| <= |TrimEnd(s)| <= |s|
    ensures r == [] <==> IsBlank(s)
    ensures |r| > 0 ==> !IsWhitespace(r[0]) && !IsWhitespace(r[|r| - 1])
    ensures r == s[|TrimEnd(s)| - |r|..|TrimEnd(s)|]
    ensures IsBlank(s[..|TrimEnd(s)| - |r|]) && IsBlank(s[|TrimEnd(s)|..])
  {
    var e := TrimEnd(s);
    var r := TrimStart(e);
    assert |r| > 0 ==> r[|r| - 1] == e[|e| - 1];
    assert r == [] ==> IsBlank(s) by {
      if r == [] {
        assert IsBlank(e);
        assert s == e + s[|e|..];
      }
    }
    r
  }

  /** `toUpperCase` on one character, for the ASCII letters; every other
      character is left as it is. */
  function ToUpper(c: char): (u: char)
    ensures 'a' <= c <= 'z' ==> u as int == c as int - 32
    ensures !('a' <= c <= 'z') ==> u == c
  {
    if 'a' <= c <= 'z' then (c as int - 32) as char else c
  }

  /** Upper-casing an already upper-cased character changes nothing. */
  lemma ToUpperIdempotent(c: char)
    ensures ToUpper(ToUpper(c)) == ToUpper(c)
  {
  }
}
