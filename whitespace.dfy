/**
 * Go's `strings.TrimSpace`: removes every leading and trailing character that
 * `unicode.IsSpace` accepts and keeps the inner text verbatim.
 */
module Whitespace {

  /**
   * The characters `unicode.IsSpace` accepts: those with Unicode's White_Space
   * property (U+0009 to U+000D, space, U+0085, U+00A0, U+1680, U+2000 to U+200A,
   * U+2028, U+2029, U+202F, U+205F and U+3000).
   */
  predicate IsSpace(c: char) {
    || '\t' <= c <= '\r' || c == ' ' || c == '\U{0085}' || c == '\U{00A0}' || c == '\U{1680}'
    || '\U{2000}' <= c <= '\U{200A}' || c == '\U{2028}' || c == '\U{2029}' || c == '\U{202F}'
    || c == '\U{205F}' || c == '\U{3000}'
  }

  predicate AllSpace(s: string) {
    forall i :: 0 <= i < |s| ==> IsSpace(s[i])
  }

  /** Neither end of `s` is whitespace. */
  predicate Trimmed(s: string) {
    s == [] || (!IsSpace(s[0]) && !IsSpace(s[|s| - 1]))
  }

  /** Drops the leading whitespace of `s`. */
  function TrimLeft(s: string): (r: string)
    ensures |r| <= |s|
    ensures r == [] || !IsSpace(r[0])
    decreases |s|
  {
    if s != [] && IsSpace(s[0]) then TrimLeft(s[1..]) else s
  }

  /** Drops the trailing whitespace of `s`. */
  function TrimRight(s: string): (r: string)
    ensures |r| <= |s|
    ensures r == [] || !IsSpace(r[|r| - 1])
    decreases |s|
  {
    if s != [] && IsSpace(s[|s| - 1]) then TrimRight(s[..|s| - 1]) else s
  }

  /** `strings.TrimSpace`. */
  function TrimSpace(s: string): (r: string)
    ensures Trimmed(r)
    ensures |r| <= |s|
  {
    var l := TrimLeft(s);
    TrimRightPrefix(l);
    TrimRight(l)
  }

  /** What TrimLeft drops is whitespace, and it keeps the rest verbatim. */
  lemma {:induction false} TrimLeftSplit(s: string) returns (pre: string)
    ensures AllSpace(pre) && s == pre + TrimLeft(s)
    decreases |s|
  {
    if s != [] && IsSpace(s[0]) {
      var p := TrimLeftSplit(s[1..]);
      pre := [s[0]] + p;
      assert s == [s[0]] + s[1..];
    } else {
      pre := [];
    }
  }

  /** What TrimRight drops is whitespace, and it keeps the rest verbatim. */
  lemma {:induction false} TrimRightSplit(s: string) returns (post: string)
    ensures AllSpace(post) && s == TrimRight(s) + post
    decreases |s|
  {
    if s != [] && IsSpace(s[|s| - 1]) {
      var p := TrimRightSplit(s[..|s| - 1]);
      post := p + [s[|s| - 1]];
      assert s == s[..|s| - 1] + [s[|s| - 1]];
    } else {
      post := [];
    }
  }

  /** TrimRight keeps a prefix, so a text that starts with a non-space still does. */
  lemma TrimRightPrefix(s: string)
    ensures TrimRight(s) != [] ==> TrimRight(s)[0] == s[0]
  {
    var post := TrimRightSplit(s);
    if TrimRight(s) != [] {
      assert s[0] == (TrimRight(s) + post)[0];
    }
  }

  /** Leading whitespace in front of a text that does not start with whitespace is exactly what TrimLeft drops. */
  lemma {:induction false} TrimLeftOfPadded(p: string, r: string)
    requires AllSpace(p)
    requires r == [] || !IsSpace(r[0])
    ensures TrimLeft(p + r) == r
    decreases |p|
  {
    if p == [] {
      assert p + r == r;
    } else {
      assert (p + r)[0] == p[0];
      assert (p + r)[1..] == p[1..] + r;
      TrimLeftOfPadded(p[1..], r);
    }
  }

  /** Trailing whitespace after a text that does not end in whitespace is exactly what TrimRight drops. */
  lemma {:induction false} TrimRightOfPadded(r: string, p: string)
    requires AllSpace(p)
    requires r == [] || !IsSpace(r[|r| - 1])
    ensures TrimRight(r + p) == r
    decreases |p|
  {
    if p == [] {
      assert r + p == r;
    } else {
      assert (r + p)[|r + p| - 1] == p[|p| - 1];
      assert (r + p)[..|r + p| - 1] == r + p[..|p| - 1];
      TrimRightOfPadded(r, p[..|p| - 1]);
    }
  }

  /**
   * TrimSpace is characterised by its result: whatever whitespace surrounds a
   * text whose ends are not whitespace, TrimSpace returns exactly that text.
   */
  lemma {:induction false} TrimSpaceOfPadded(pre: string, m: string, post: string)
    requires AllSpace(pre) && AllSpace(post) && Trimmed(m)
    ensures TrimSpace(pre + m + post) == m
  {
    if m == [] {
      assert pre + m + post == (pre + post) + [];
      assert AllSpace(pre + post);
      TrimLeftOfPadded(pre + post, []);
      assert TrimLeft(pre + m + post) == [];
    } else {
      assert pre + m + post == pre + (m + post);
      TrimLeftOfPadded(pre, m + post);
      TrimRightOfPadded(m, post);
    }
  }

  /** Every text is its trimmed form surrounded by whitespace. */
  lemma {:induction false} TrimSpaceSplits(s: string) returns (pre: string, post: string)
    ensures AllSpace(pre) && AllSpace(post)
    ensures s == pre + TrimSpace(s) + post
  {
    pre := TrimLeftSplit(s);
    post := TrimRightSplit(TrimLeft(s));
  }

  /** Whitespace insensitivity: padding a text with whitespace does not change its trimmed form. */
  lemma {:induction false} TrimSpaceIgnoresPadding(pre: string, s: string, post: string)
    requires AllSpace(pre) && AllSpace(post)
    ensures TrimSpace(pre + s + post) == TrimSpace(s)
  {
    var a, b := TrimSpaceSplits(s);
    assert pre + s + post == (pre + a) + TrimSpace(s) + (b + post);
    assert AllSpace(pre + a) by {
      forall i | 0 <= i < |pre + a| ensures IsSpace((pre + a)[i]) {
        if i < |pre| { assert (pre + a)[i] == pre[i]; } else { assert (pre + a)[i] == a[i - |pre|]; }
      }
    }
    assert AllSpace(b + post) by {
      forall i | 0 <= i < |b + post| ensures IsSpace((b + post)[i]) {
        if i < |b| { assert (b + post)[i] == b[i]; } else { assert (b + post)[i] == post[i - |b|]; }
      }
    }
    TrimSpaceOfPadded(pre + a, TrimSpace(s), b + post);
  }

  /** Trimming twice is trimming once. */
  lemma {:induction false} TrimSpaceIdempotent(s: string)
    ensures TrimSpace(TrimSpace(s)) == TrimSpace(s)
  {
    var m := TrimSpace(s);
    assert [] + m + [] == m;
    TrimSpaceOfPadded([], m, []);
  }
}
