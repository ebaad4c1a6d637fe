/**
 * Character classes and whitespace trimming as the lexer and the token reader use them.
 *
 * The model works on the ASCII part of Python's definitions: `IsSpace` is what both
 * `str.strip()` and the regex class `\s` remove or match, `IsWordChar` is `\w` and
 * `IsDigit` is `\d`. Characters above 127 count as none of these.
 */
module Chars {

  /** Python whitespace restricted to ASCII: tab, LF, VT, FF, CR, the four separators 0x1C-0x1F, space. */
  predicate IsSpace(c: char) {
    c == ' ' || (9 <= c as int <= 13) || (28 <= c as int <= 31)
  }

  predicate IsDigit(c: char) {
    '0' <= c <= '9'
  }

  predicate IsAsciiLetter(c: char) {
    ('a' <= c <= 'z') || ('A' <= c <= 'Z')
  }

  /** The regex class `\w`. */
  predicate IsWordChar(c: char) {
    IsAsciiLetter(c) || IsDigit(c) || c == '_'
  }

  predicate AllSpace(s: string) {
    forall k :: 0 <= k < |s| ==> IsSpace(s[k])
  }

  /** Neither end of `s` is whitespace: what `strip()` leaves behind. */
  predicate IsStripped(s: string) {
    |s| == 0 || (!IsSpace(s[0]) && !IsSpace(s[|s| - 1]))
  }

  /** Length of the longest prefix of `s` whose characters all satisfy `p` (a greedy `p*`). */
  function Span(p: char -> bool, s: string): (n: nat)
    ensures n <= |s|
    ensures forall k :: 0 <= k < n ==> p(s[k])
    ensures n < |s| ==> !p(s[n])
  {
    if |s| == 0 || !p(s[0]) then 0 else 1 + Span(p, s[1..])
  }

  /** Python's `str.lstrip()`: `s` without its leading whitespace. */
  function StripLeft(s: string): (r: string)
    ensures |r| <= |s|
    ensures |r| == 0 || !IsSpace(r[0])
  {
    if 0 < |s| && IsSpace(s[0]) then StripLeft(s[1..]) else s
  }

  /** Python's `str.rstrip()`: `s` without its trailing whitespace. */
  function StripRight(s: string): (r: string)
    ensures |r| <= |s| && (0 < |r| ==> r[0] == s[0])
    ensures |r| == 0 || !IsSpace(r[|r| - 1])
  {
    if 0 < |s| && IsSpace(s[|s| - 1]) then StripRight(s[..|s| - 1]) else s
  }

  /** Python's `str.strip()`: the middle of `s` left after removing whitespace at both ends. */
  function Strip(s: string): (r: string)
    ensures |r| <= |s|
    ensures IsStripped(r)
  {
    StripRight(StripLeft(s))
  }

  /** `lstrip` removes a prefix of whitespace and keeps the rest of `s` as it is. */
  lemma {:induction false} StripLeftSplits(s: string)
    ensures StripLeft(s) == s[|s| - |StripLeft(s)|..]
    ensures AllSpace(s[..|s| - |StripLeft(s)|])
  {
    if 0 < |s| && IsSpace(s[0]) {
      StripLeftSplits(s[1..]);
      var r := StripLeft(s);
      assert s[..|s| - |r|] == [s[0]] + s[1..][..|s| - 1 - |r|];
    }
  }

  /** `rstrip` removes a suffix of whitespace and keeps the rest of `s` as it is. */
  lemma {:induction false} StripRightSplits(s: string)
    ensures StripRight(s) == s[..|StripRight(s)|]
    ensures AllSpace(s[|StripRight(s)|..])
  {
    if 0 < |s| && IsSpace(s[|s| - 1]) {
      StripRightSplits(s[..|s| - 1]);
      var r := StripRight(s);
      assert s[|r|..] == s[..|s| - 1][|r|..] + [s[|s| - 1]];
    }
  }

  /** Every string is its strip padded with whitespace on both sides. */
  lemma StripSplits(s: string) returns (a: string, c: string)
    ensures AllSpace(a) && AllSpace(c) && s == a + Strip(s) + c
  {
    var l := StripLeft(s);
    var m := StripRight(l);
    StripLeftSplits(s);
    StripRightSplits(l);
    a := s[..|s| - |l|];
    c := l[|m|..];
    assert l == m + c by {
      assert m == l[..|m|];
    }
    assert s == a + l by {
      assert l == s[|s| - |l|..];
    }
    assert s == a + m + c;
  }

  /** Stripping is idempotent: a stripped string is its own strip. */
  lemma StripStripped(s: string)
    requires IsStripped(s)
    ensures Strip(s) == s
  {
  }

  lemma AllSpaceConcat(a: string, b: string)
    requires AllSpace(a) && AllSpace(b)
    ensures AllSpace(a + b)
  {
  }

  /** `lstrip` skips any whitespace prefix. */
  lemma {:induction false} StripLeftSkips(pad: string, s: string)
    requires AllSpace(pad)
    ensures StripLeft(pad + s) == StripLeft(s)
    decreases |pad|
  {
    if 0 < |pad| {
      assert (pad + s)[1..] == pad[1..] + s;
      StripLeftSkips(pad[1..], s);
    } else {
      assert pad + s == s;
    }
  }

  /** `rstrip` skips any whitespace suffix. */
  lemma {:induction false} StripRightSkips(s: string, pad: string)
    requires AllSpace(pad)
    ensures StripRight(s + pad) == StripRight(s)
    decreases |pad|
  {
    if 0 < |pad| {
      assert (s + pad)[..|s + pad| - 1] == s + pad[..|pad| - 1];
      StripRightSkips(s, pad[..|pad| - 1]);
    } else {
      assert s + pad == s;
    }
  }

  /** Strip removes whitespace padding and nothing else. */
  lemma StripPadded(a: string, b: string, c: string)
    requires AllSpace(a) && AllSpace(c)
    requires IsStripped(b)
    ensures Strip(a + b + c) == b
  {
    assert a + b + c == a + (b + c);
    StripLeftSkips(a, b + c);
    if |b| == 0 {
      assert b + c == c + [];
      StripLeftSkips(c, []);
      assert StripLeft(a + b + c) == [];
    } else {
      assert StripLeft(b + c) == b + c;
      StripRightSkips(b, c);
    }
  }

  /** Strip returns the empty string exactly on all-whitespace input. */
  lemma StripAllSpace(s: string)
    ensures Strip(s) == [] <==> AllSpace(s)
  {
    if AllSpace(s) {
      assert s == s + [] + [];
      StripPadded(s, [], []);
    }
    if Strip(s) == [] {
      var a, c := StripSplits(s);
      assert s == a + c;
      AllSpaceConcat(a, c);
    }
  }

  /** Whitespace in front of a string does not change its strip. */
  lemma StripAfterSpace(pad: string, s: string)
    requires AllSpace(pad)
    ensures Strip(pad + s) == Strip(s)
  {
    StripLeftSkips(pad, s);
  }

  /** Whitespace after a string does not change its strip. */
  lemma StripBeforeSpace(s: string, pad: string)
    requires AllSpace(pad)
    ensures Strip(s + pad) == Strip(s)
  {
    var a, c := StripSplits(s);
    var r := Strip(s);
    assert s + pad == a + r + (c + pad);
    AllSpaceConcat(c, pad);
    StripPadded(a, r, c + pad);
  }
}
