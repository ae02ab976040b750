/** The e-mail shape test of the contact form, the regular expression
    `^[^\s@]+@[^\s@]+\.[^\s@]+$` (no flags). Without the `m` flag `^` and `$`
    anchor at the two ends of the whole input, and the input is not trimmed
    first. */
module EmailPattern {
  import opened JsText

  /** A character accepted by the class `[^\s@]`. A `.` is one. */
  predicate IsAddressChar(c: char) {
    !IsWhitespace(c) && c != '@'
  }

  /** A run made only of `[^\s@]` characters (possibly empty). */
  predicate IsAddressRun(t: string) {
    forall k :: 0 <= k < |t| ==> IsAddressChar(t[k])
  }

  /** The regular expression read literally: the input is three non-empty
      runs of `[^\s@]` characters, separated by an `@` at `i` and a `.` at `j`. */
  ghost predicate MatchesPattern(s: string) {
    exists i, j ::
      && 0 < i && i + 1 < j && j + 1 < |s|
      && s[i] == '@' && s[j] == '.'
      && IsAddressRun(s[..i]) && IsAddressRun(s[i + 1..j]) && IsAddressRun(s[j + 1..])
  }

  /** Position of the first `c` in `s`, or `|s|` when there is none. */
  function IndexOf(s: string, c: char): (r: nat)
    ensures r <= |s|
    ensures r < |s| ==> s[r] == c
    ensures forall k :: 0 <= k < r ==> s[k] != c
  {
    if |s| == 0 then 0
    else if s[0] == c then 0
    else 1 + IndexOf(s[1..], c)
  }

  /** A search-free decision procedure for the pattern: the text before the
      first `@` is a non-empty run, and the domain after it is a run of at
      least three characters with a `.` that is neither its first nor its
      last character. */
  predicate IsValidEmail(s: string) {
    var at := IndexOf(s, '@');
    && 0 < at < |s|
    && IsAddressRun(s[..at])
    && var domain := s[at + 1..];
    && IsAddressRun(domain)
    && |domain| >= 3
    && '.' in domain[1..|domain| - 1]
  }

  /** The decision procedure accepts exactly the inputs the regular
      expression matches. */
  lemma IsValidEmailMatchesPattern(s: string)
    ensures IsValidEmail(s) <==> MatchesPattern(s)
  {
    if IsValidEmail(s) {
      ValidEmailMatches(s);
    }
    if MatchesPattern(s) {
      var i, j :|
        && 0 < i && i + 1 < j && j + 1 < |s|
        && s[i] == '@' && s[j] == '.'
        && IsAddressRun(s[..i]) && IsAddressRun(s[i + 1..j]) && IsAddressRun(s[j + 1..]);
      MatchIsValidEmail(s, i, j);
    }
  }

  /** Soundness of the decision procedure: the `@` it finds and the inner
      `.` of the domain are a split the regular expression accepts. */
  lemma ValidEmailMatches(s: string)
    requires IsValidEmail(s)
    ensures MatchesPattern(s)
  {
    var at := IndexOf(s, '@');
    var domain := s[at + 1..];
    var inner := domain[1..|domain| - 1];
    var k :| 0 <= k < |inner| && inner[k] == '.';
    var j := at + 2 + k;
    assert s[j] == domain[k + 1] == '.';
    assert s[at + 1..j] == domain[..k + 1];
    assert s[j + 1..] == domain[k + 2..];
    assert IsAddressRun(s[at + 1..j]);
    assert IsAddressRun(s[j + 1..]);
  }

  /** Completeness of the decision procedure: any split the regular
      expression accepts makes the procedure answer yes. */
  lemma MatchIsValidEmail(s: string, i: nat, j: nat)
    requires 0 < i && i + 1 < j && j + 1 < |s|
    requires s[i] == '@' && s[j] == '.'
    requires IsAddressRun(s[..i]) && IsAddressRun(s[i + 1..j]) && IsAddressRun(s[j + 1..])
    ensures IsValidEmail(s)
  {
    FirstAtIsUnique(s, i);
    var domain := s[i + 1..];
    forall k | 0 <= k < |domain|
      ensures IsAddressChar(domain[k])
    {
      if i + 1 + k < j {
        assert domain[k] == s[i + 1..j][k];
      } else if i + 1 + k > j {
        assert domain[k] == s[j + 1..][k - (j - i)];
      }
    }
    assert domain[1..|domain| - 1][j - i - 2] == '.';
  }

  /** An `@` preceded only by address characters is the first `@`. */
  lemma FirstAtIsUnique(s: string, i: nat)
    requires i < |s| && s[i] == '@' && IsAddressRun(s[..i])
    ensures IndexOf(s, '@') == i
  {
    var r := IndexOf(s, '@');
    assert r <= i;
  }
}
