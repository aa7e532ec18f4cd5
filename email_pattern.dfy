/**
 * `isValidEmail`: a test against the regular expression
 * `^[^\s@]+@[^\s@]+\.[^\s@]+$`.
 *
 * `IsValidEmail` decides it by cutting the string at its first '@';
 * `MatchesPattern` reads the regular expression literally, as three
 * non-empty runs of `[^\s@]` joined by '@' and '.'. The two agree on every
 * string.
 */
module EmailPattern {
  import opened JsText

  /** A character of the class `[^\s@]`. */
  predicate IsAddrChar(c: char) {
    !IsSpace(c) && c != '@'
  }

  /** `[^\s@]+`: a non-empty run of address characters. */
  predicate IsAddrRun(s: string) {
    |s| > 0 && forall i :: 0 <= i < |s| ==> IsAddrChar(s[i])
  }

  /**
   * `s` matches the pattern with its '@' at `at` and the '.' before the
   * last run at `dot`.
   */
  ghost predicate MatchAt(s: string, at: int, dot: int) {
    && 0 <= at < dot < |s|
    && IsAddrRun(s[..at]) && s[at] == '@'
    && IsAddrRun(s[at + 1..dot]) && s[dot] == '.'
    && IsAddrRun(s[dot + 1..])
  }

  /** The whole of `s` matches `^[^\s@]+@[^\s@]+\.[^\s@]+$`. */
  ghost predicate MatchesPattern(s: string) {
    exists at, dot :: MatchAt(s, at, dot)
  }

  /** Every character of `s[lo..hi]` is an address character. */
  ghost predicate AddrSpan(s: string, lo: int, hi: int)
    requires 0 <= lo <= hi <= |s|
  {
    forall i :: lo <= i < hi ==> IsAddrChar(s[i])
  }

  lemma RunSpan(s: string, lo: int, hi: int)
    requires 0 <= lo <= hi <= |s|
    ensures IsAddrRun(s[lo..hi]) <==> lo < hi && AddrSpan(s, lo, hi)
  {
    assert forall i :: lo <= i < hi ==> s[lo..hi][i - lo] == s[i];
  }

  /** The position of the first '@' in `s`, or `|s|` when there is none. */
  function FirstAt(s: string): (k: nat)
    ensures k <= |s|
    ensures k < |s| ==> s[k] == '@'
    ensures forall i :: 0 <= i < k ==> s[i] != '@'
  {
    if s == [] || s[0] == '@' then 0 else 1 + FirstAt(s[1..])
  }

  /** A '.' somewhere other than at the first or the last position of `d`. */
  predicate HasInnerDot(d: string) {
    exists j :: 0 < j < |d| - 1 && d[j] == '.'
  }

  /** `isValidEmail(email)`. */
  function IsValidEmail(s: string): bool {
    var k := FirstAt(s);
    k < |s| && IsAddrRun(s[..k]) && IsAddrRun(s[k + 1..]) && HasInnerDot(s[k + 1..])
  }

  lemma ValidToPattern(s: string)
    requires IsValidEmail(s)
    ensures MatchesPattern(s)
  {
    var at := FirstAt(s);
    var d := s[at + 1..];
    var j :| 0 < j < |d| - 1 && d[j] == '.';
    var dot := at + 1 + j;
    RunSpan(s, 0, at);
    RunSpan(s, at + 1, |s|);
    RunSpan(s, at + 1, dot);
    RunSpan(s, dot + 1, |s|);
    assert s[..at] == s[0..at];
    assert MatchAt(s, at, dot);
  }

  lemma PatternToValid(s: string)
    requires MatchesPattern(s)
    ensures IsValidEmail(s)
  {
    var at, dot :| MatchAt(s, at, dot);
    assert s[..at] == s[0..at];
    RunSpan(s, 0, at);
    RunSpan(s, at + 1, dot);
    RunSpan(s, dot + 1, |s|);
    var k := FirstAt(s);
    assert k == at;
    RunSpan(s, at + 1, |s|);
    var d := s[at + 1..];
    assert d[dot - at - 1] == '.';
  }

  /** `IsValidEmail` accepts exactly the strings the regular expression matches. */
  lemma IsValidEmailMatchesPattern(s: string)
    ensures IsValidEmail(s) <==> MatchesPattern(s)
  {
    if IsValidEmail(s) {
      ValidToPattern(s);
    }
    if MatchesPattern(s) {
      PatternToValid(s);
    }
  }

  /**
   * However `s` is cut as local + "@" + domain, it is accepted exactly when
   * the local part and the domain are runs of address characters and the
   * domain holds a '.' that is neither its first nor its last character.
   */
  lemma ValidEmailSplit(s: string, local: string, domain: string)
    requires s == local + "@" + domain
    ensures IsValidEmail(s) <==> IsAddrRun(local) && IsAddrRun(domain) && HasInnerDot(domain)
  {
    var k := FirstAt(s);
    var n := |local|;
    assert s[..n] == local && s[n] == '@' && s[n + 1..] == domain;
    if IsAddrRun(local) {
      RunSpan(s, 0, n);
      assert s[..n] == s[0..n];
      assert k == n;
    }
    if IsValidEmail(s) {
      RunSpan(s, 0, k);
      assert s[..k] == s[0..k];
      assert k == n;
    }
  }

  /** The number of occurrences of `c` in `s`. */
  function Count(s: string, c: char): (n: nat)
    ensures n <= |s|
    ensures n == 0 <==> c !in s
  {
    if s == [] then 0 else (if s[0] == c then 1 else 0) + Count(s[1..], c)
  }

  lemma {:induction false} CountAppend(a: string, b: string, c: char)
    ensures Count(a + b, c) == Count(a, c) + Count(b, c)
  {
    if a == [] {
      assert a + b == b;
    } else {
      assert (a + b)[1..] == a[1..] + b;
      CountAppend(a[1..], b, c);
    }
  }

  lemma NoAtInRun(s: string)
    requires IsAddrRun(s)
    ensures Count(s, '@') == 0
  {
  }

  /** An accepted address contains exactly one '@'. */
  lemma ValidEmailHasOneAt(s: string)
    requires IsValidEmail(s)
    ensures Count(s, '@') == 1
  {
    var k := FirstAt(s);
    var d := s[k + 1..];
    assert s == s[..k] + "@" + d;
    NoAtInRun(s[..k]);
    NoAtInRun(d);
    CountAppend(s[..k] + "@", d, '@');
    CountAppend(s[..k], "@", '@');
  }
}
