/** Python's `str.strip()` and `str.isdigit()` over ASCII, as the handlers use
    them on request parameters. */
module Text {

  /** `str.isspace()` on ASCII: space, `\t` `\n` `\v` `\f` `\r` and the
      information separators 0x1C-0x1F. */
  predicate IsSpace(c: char) {
    c as int == 32 || 9 <= c as int <= 13 || 28 <= c as int <= 31
  }

  predicate IsDigit(c: char) {
    '0' <= c <= '9'
  }

  /** `str.isdigit()`: false on the empty string, otherwise every character is
      a digit; so a digit string is never blank and has nothing to strip. */
  predicate IsDigits(s: string)
    ensures IsDigits(s) ==> !AllSpace(s) && Unpadded(s)
  {
    |s| > 0 && forall i :: 0 <= i < |s| ==> IsDigit(s[i])
  }

  predicate AllSpace(s: string) {
    forall i :: 0 <= i < |s| ==> IsSpace(s[i])
  }

  /** Every character of `s` at positions `lo` to `hi - 1` is whitespace. */
  predicate SpaceIn(s: string, lo: int, hi: int) {
    forall i :: lo <= i < hi && 0 <= i < |s| ==> IsSpace(s[i])
  }

  /** Neither end of `s` is whitespace (so strip leaves it alone). */
  predicate Unpadded(s: string) {
    s == [] || (!IsSpace(s[0]) && !IsSpace(s[|s| - 1]))
  }

  /** `str.lstrip()`: the suffix left after dropping leading whitespace. */
  function StripLeft(s: string): (r: string)
    ensures |r| <= |s| && r == s[|s| - |r|..]
    ensures SpaceIn(s, 0, |s| - |r|)
    ensures r != [] ==> !IsSpace(r[0])
    decreases |s|
  {
    if s != [] && IsSpace(s[0]) then
      var r := StripLeft(s[1..]);
      assert forall i :: 0 <= i < |s| - 1 ==> s[1..][i] == s[i + 1];
      r
    else
      s
  }

  /** `str.rstrip()`: the prefix left after dropping trailing whitespace. */
  function StripRight(s: string): (r: string)
    ensures |r| <= |s| && r == s[..|r|]
    ensures SpaceIn(s, |r|, |s|)
    ensures r != [] ==> !IsSpace(r[|r| - 1])
    decreases |s|
  {
    if s != [] && IsSpace(s[|s| - 1]) then
      var r := StripRight(s[..|s| - 1]);
      assert forall i :: 0 <= i < |s| - 1 ==> s[..|s| - 1][i] == s[i];
      r
    else
      s
  }

  /** `str.strip()`: both `str.lstrip()` and `str.rstrip()`. */
  function Strip(s: string): (r: string)
    ensures Unpadded(r)
    ensures |r| <= |s|
  {
    StripRight(StripLeft(s))
  }

  lemma {:induction false} AllSpaceConcat(a: string, b: string)
    requires AllSpace(a) && AllSpace(b)
    ensures AllSpace(a + b)
  {
  }

  /** Leading whitespace in front of a string that does not start with
      whitespace is exactly what lstrip removes. */
  lemma {:induction false} StripLeftAfterSpace(a: string, x: string)
    requires AllSpace(a) && (x == [] || !IsSpace(x[0]))
    ensures StripLeft(a + x) == x
    decreases |a|
  {
    if a == [] {
      assert a + x == x;
    } else {
      assert (a + x)[0] == a[0];
      assert (a + x)[1..] == a[1..] + x;
      StripLeftAfterSpace(a[1..], x);
    }
  }

  /** Trailing whitespace after a string that does not end in whitespace is
      exactly what rstrip removes. */
  lemma {:induction false} StripRightBeforeSpace(x: string, b: string)
    requires AllSpace(b) && (x == [] || !IsSpace(x[|x| - 1]))
    ensures StripRight(x + b) == x
    decreases |b|
  {
    if b == [] {
      assert x + b == x;
    } else {
      var s := x + b;
      assert s[|s| - 1] == b[|b| - 1];
      assert s[..|s| - 1] == x + b[..|b| - 1];
      StripRightBeforeSpace(x, b[..|b| - 1]);
    }
  }

  /** Whatever surrounds an unpadded core, as long as it is whitespace, strip
      returns exactly that core. */
  lemma {:induction false} StripSurrounded(a: string, m: string, b: string)
    requires AllSpace(a) && AllSpace(b) && Unpadded(m)
    ensures Strip(a + m + b) == m
  {
    if m == [] {
      assert a + m + b == a + b + [];
      AllSpaceConcat(a, b);
      StripLeftAfterSpace(a + b, []);
      assert StripRight([]) == [];
    } else {
      assert a + m + b == a + (m + b);
      StripLeftAfterSpace(a, m + b);
      StripRightBeforeSpace(m, b);
    }
  }

  /** Stripping twice is stripping once. */
  lemma StripIdempotent(s: string)
    ensures Strip(Strip(s)) == Strip(s)
  {
  }

  /** `s` is its stripped core with only whitespace on either side. */
  lemma StripSplit(s: string) returns (pre: string, post: string)
    ensures s == pre + Strip(s) + post
    ensures AllSpace(pre) && AllSpace(post)
  {
    var l := StripLeft(s);
    pre := LeadingSpace(s);
    post := TrailingSpace(l);
  }

  /** What lstrip removes is a whitespace prefix. */
  lemma LeadingSpace(s: string) returns (pre: string)
    ensures s == pre + StripLeft(s) && AllSpace(pre)
  {
    var l := StripLeft(s);
    pre := s[..|s| - |l|];
    assert forall i :: 0 <= i < |pre| ==> pre[i] == s[i];
  }

  /** What rstrip removes is a whitespace suffix. */
  lemma TrailingSpace(s: string) returns (post: string)
    ensures s == StripRight(s) + post && AllSpace(post)
  {
    var r := StripRight(s);
    post := s[|r|..];
    assert forall i :: 0 <= i < |post| ==> post[i] == s[|r| + i];
  }

  lemma ConcatRegroup(w1: string, pre: string, m: string, post: string, w2: string)
    ensures w1 + (pre + m + post) + w2 == (w1 + pre) + m + (post + w2)
  {
  }

  /** Extra whitespace around a string never changes what strip returns. */
  lemma StripIgnoresPadding(w1: string, s: string, w2: string)
    requires AllSpace(w1) && AllSpace(w2)
    ensures Strip(w1 + s + w2) == Strip(s)
  {
    var pre, post := StripSplit(s);
    AllSpaceConcat(w1, pre);
    AllSpaceConcat(post, w2);
    ConcatRegroup(w1, pre, Strip(s), post, w2);
    StripSurrounded(w1 + pre, Strip(s), post + w2);
  }

  /** A digit string has no whitespace to strip. */
  lemma StripDigits(s: string)
    requires IsDigits(s)
    ensures Strip(s) == s
  {
    assert s == [] + s + [];
    StripSurrounded([], s, []);
  }

  /** Strip yields the empty string exactly on whitespace-only input. */
  lemma StripEmptyIffBlank(s: string)
    ensures Strip(s) == [] <==> AllSpace(s)
  {
  }
}
