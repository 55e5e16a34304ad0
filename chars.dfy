/**
 * Character classes shared by the import code: .NET's white space (the set
 * `char.IsWhiteSpace`, `String.Trim` and the regex class `\s` agree on), ASCII
 * digits for `\d`, and what the regex tail `.*$` accepts.
 */
module Chars {

  /** `char.IsWhiteSpace`: the control characters TAB..CR, U+0085, and the Unicode separators. */
  predicate IsSpace(c: char) {
    || ('\t' <= c <= '\r') || c == ' ' || c == '\U{0085}' || c == '\U{00A0}'
    || c == '\U{1680}' || ('\U{2000}' <= c <= '\U{200A}') || c == '\U{2028}' || c == '\U{2029}'
    || c == '\U{202F}' || c == '\U{205F}' || c == '\U{3000}'
  }

  predicate IsDigit(c: char) {
    '0' <= c <= '9'
  }

  predicate AllSpace(s: string) {
    forall i :: 0 <= i < |s| ==> IsSpace(s[i])
  }

  /** The length of the white-space run at the start of `s`. */
  function LeadingSpaces(s: string): (n: nat)
    ensures n <= |s|
    ensures forall i :: 0 <= i < n ==> IsSpace(s[i])
    ensures n < |s| ==> !IsSpace(s[n])
  {
    if s == [] || !IsSpace(s[0]) then 0 else 1 + LeadingSpaces(s[1..])
  }

  /** The length of the white-space run at the end of `s`. */
  function TrailingSpaces(s: string): (n: nat)
    ensures n <= |s|
    ensures forall i :: |s| - n <= i < |s| ==> IsSpace(s[i])
    ensures n < |s| ==> !IsSpace(s[|s| - 1 - n])
  {
    if s == [] || !IsSpace(s[|s| - 1]) then 0 else 1 + TrailingSpaces(s[..|s| - 1])
  }

  /**
   * `String.Trim`: `s` without its leading and trailing white space. The
   * result is the piece of `s` after its leading white space and before a run
   * of white space; it is empty exactly when `s` is all white space, and
   * otherwise starts and ends with a non-space.
   */
  function Trim(s: string): (r: string)
    ensures LeadingSpaces(s) + |r| <= |s| && r == s[LeadingSpaces(s)..LeadingSpaces(s) + |r|]
    ensures AllSpace(s[LeadingSpaces(s) + |r|..])
    ensures r == "" <==> AllSpace(s)
    ensures r != "" ==> !IsSpace(r[0]) && !IsSpace(r[|r| - 1])
  {
    var start := s[LeadingSpaces(s)..];
    var r := start[..|start| - TrailingSpaces(start)];
    assert r == s[LeadingSpaces(s)..LeadingSpaces(s) + |r|];
    r
  }

  /** A white-space run that ends before a non-space is the whole leading run. */
  lemma LeadingSpacesExact(s: string, j: nat)
    requires j < |s| && !IsSpace(s[j])
    requires forall i :: 0 <= i < j ==> IsSpace(s[i])
    ensures LeadingSpaces(s) == j
  {
  }

  /** Whatever way `s` splits into white space, a core that neither starts nor ends with white space, and white space, `Trim` returns that core. */
  lemma {:induction false} TrimFindsCore(pre: string, core: string, post: string)
    requires AllSpace(pre) && AllSpace(post)
    requires core != "" ==> !IsSpace(core[0]) && !IsSpace(core[|core| - 1])
    ensures Trim(pre + core + post) == core
  {
    var s := pre + core + post;
    if core == "" {
      assert AllSpace(s) by {
        forall i | 0 <= i < |s| ensures IsSpace(s[i]) {
          if i < |pre| { assert s[i] == pre[i]; } else { assert s[i] == post[i - |pre|]; }
        }
      }
    } else {
      assert s[|pre|] == core[0];
      forall i | 0 <= i < |pre| ensures IsSpace(s[i]) {
        assert s[i] == pre[i];
      }
      LeadingSpacesExact(s, |pre|);
      var t := Trim(s);
      var endCore := |pre| + |core|;
      assert s[endCore - 1] == core[|core| - 1];
      assert forall i :: |pre| + |t| <= i < |s| ==> IsSpace(s[i]) by {
        forall i | |pre| + |t| <= i < |s| ensures IsSpace(s[i]) {
          assert s[i] == s[|pre| + |t|..][i - |pre| - |t|];
        }
      }
      assert |t| >= |core|;
      forall i | endCore <= i < |s| ensures IsSpace(s[i]) {
        assert s[i] == post[i - endCore];
      }
      assert t[|t| - 1] == s[|pre| + |t| - 1];
      assert |t| <= |core|;
      assert t == s[|pre|..endCore] == core;
    }
  }

  /** `Trim` ignores white space added on either side. */
  lemma TrimIgnoresPadding(left: string, s: string, right: string)
    requires AllSpace(left) && AllSpace(right)
    ensures Trim(left + s + right) == Trim(s)
  {
    var n := LeadingSpaces(s);
    var core := Trim(s);
    var pre, post := s[..n], s[n + |core|..];
    assert core == s[n..n + |core|];
    assert s == pre + s[n..n + |core|] + post;
    assert AllSpace(pre);
    AllSpaceConcat(left, pre);
    AllSpaceConcat(post, right);
    assert left + s + right == (left + pre) + core + (post + right);
    TrimFindsCore(left + pre, core, post + right);
  }

  lemma AllSpaceConcat(a: string, b: string)
    requires AllSpace(a) && AllSpace(b)
    ensures AllSpace(a + b)
  {
    forall i | 0 <= i < |a + b| ensures IsSpace((a + b)[i]) {
      if i >= |a| { assert (a + b)[i] == b[i - |a|]; }
    }
  }

  /** The tail `.*$` of a regex: no line feed, except possibly as the very last character. */
  predicate NoNewlineBeforeEnd(t: string) {
    forall i :: 0 <= i < |t| - 1 ==> t[i] != '\n'
  }

  /** Positions where `$` matches without the Multiline option: the end, or just before a final line feed. */
  ghost predicate EndAnchor(s: string, p: int) {
    p == |s| || (0 <= p == |s| - 1 && s[p] == '\n')
  }

  /** `.*$` read from the start of `t`: a run of characters other than a line feed, up to a place where `$` matches. */
  ghost predicate DotStarMatches(t: string) {
    exists p :: 0 <= p <= |t| && '\n' !in t[..p] && EndAnchor(t, p)
  }

  /** `.*$` matches iff no line feed comes before the last character. */
  lemma {:induction false} DotStarEnd(t: string)
    ensures DotStarMatches(t) <==> NoNewlineBeforeEnd(t)
  {
    if NoNewlineBeforeEnd(t) {
      if |t| > 0 && t[|t| - 1] == '\n' {
        assert '\n' !in t[..|t| - 1] && EndAnchor(t, |t| - 1);
      } else {
        assert '\n' !in t[..|t|] by {
          assert t[..|t|] == t;
        }
        assert EndAnchor(t, |t|);
      }
    }
    if p :| 0 <= p <= |t| && '\n' !in t[..p] && EndAnchor(t, p) {
      forall i | 0 <= i < |t| - 1 ensures t[i] != '\n' {
        assert t[..p][i] == t[i];
      }
    }
  }
}
