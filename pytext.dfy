/**
 * Python's notion of whitespace (str.isspace) and str.strip() with no
 * argument, which removes leading and trailing whitespace.
 */
module PyText {

  /** The characters for which Python's str.isspace() holds. */
  predicate IsSpace(c: char)
  {
    var n := c as int;
    (0x09 <= n <= 0x0D) || (0x1C <= n <= 0x20) || n == 0x85 || n == 0xA0
    || n == 0x1680 || (0x2000 <= n <= 0x200A) || n == 0x2028 || n == 0x2029
    || n == 0x202F || n == 0x205F || n == 0x3000
  }

  predicate AllSpace(s: string)
  {
    forall k :: 0 <= k < |s| ==> IsSpace(s[k])
  }

  /** The number of whitespace characters at the front of s. */
  function LeadingSpace(s: string): (n: nat)
    ensures n <= |s|
    ensures AllSpace(s[..n])
    ensures n < |s| ==> !IsSpace(s[n])
  {
    if s == [] || !IsSpace(s[0]) then 0
    else
      var n := 1 + LeadingSpace(s[1..]);
      assert s[..n] == [s[0]] + s[1..][..n - 1];
      n
  }

  /** The number of whitespace characters at the end of s. */
  function TrailingSpace(s: string): (n: nat)
    ensures n <= |s|
    ensures AllSpace(s[|s| - n..])
    ensures n < |s| ==> !IsSpace(s[|s| - n - 1])
  {
    if s == [] || !IsSpace(s[|s| - 1]) then 0
    else
      var init := s[..|s| - 1];
      var n := 1 + TrailingSpace(init);
      assert s[|s| - n..] == init[|init| - (n - 1)..] + [s[|s| - 1]];
      n
  }

  /** Python's s.strip(): s without its leading and trailing whitespace. */
  function Strip(s: string): (r: string)
    ensures |r| <= |s|
    ensures r != [] ==> !IsSpace(r[0]) && !IsSpace(r[|r| - 1])
  {
    var i := LeadingSpace(s);
    var t := s[i..];
    t[..|t| - TrailingSpace(t)]
  }

  /**
   * What strip removes is whitespace: the result sits in s between a
   * whitespace prefix and a whitespace suffix, and it is empty only when
   * s is all whitespace.
   */
  lemma StripInfix(s: string)
    ensures var r := Strip(s);
      && (r == [] ==> AllSpace(s))
      && exists i :: 0 <= i <= |s| - |r| && s[i..i + |r|] == r
                     && AllSpace(s[..i]) && AllSpace(s[i + |r|..])
  {
    var i := LeadingSpace(s);
    var t := s[i..];
    var j := TrailingSpace(t);
    var r := t[..|t| - j];
    assert r == Strip(s);
    assert s[i..i + |r|] == r;
    assert s[i + |r|..] == t[|t| - j..];
    assert 0 <= i <= |s| - |r| && AllSpace(s[..i]) && AllSpace(s[i + |r|..]);
    assert r == [] ==> s == s[..i] + t[|t| - j..];
  }

  lemma {:induction false} LeadingSpaceOf(pre: string, rest: string)
    requires AllSpace(pre)
    requires rest != [] ==> !IsSpace(rest[0])
    ensures LeadingSpace(pre + rest) == |pre|
  {
    if pre != [] {
      assert (pre + rest)[1..] == pre[1..] + rest;
      LeadingSpaceOf(pre[1..], rest);
    } else {
      assert pre + rest == rest;
    }
  }

  lemma {:induction false} TrailingSpaceOf(rest: string, post: string)
    requires AllSpace(post)
    requires rest != [] ==> !IsSpace(rest[|rest| - 1])
    ensures TrailingSpace(rest + post) == |post|
  {
    if post != [] {
      var s := rest + post;
      assert s[..|s| - 1] == rest + post[..|post| - 1];
      TrailingSpaceOf(rest, post[..|post| - 1]);
    } else {
      assert rest + post == rest;
    }
  }

  /**
   * Strip is determined by its contract: any split of s into whitespace,
   * a core with non-whitespace ends (or empty), and whitespace, strips to
   * that core.
   */
  lemma StripUnique(pre: string, core: string, post: string)
    requires AllSpace(pre) && AllSpace(post)
    requires core != [] ==> !IsSpace(core[0]) && !IsSpace(core[|core| - 1])
    ensures Strip(pre + core + post) == core
  {
    var s := pre + core + post;
    if core == [] {
      assert s == (pre + post) + [];
      assert AllSpace(pre + post) by {
        forall k | 0 <= k < |pre + post| ensures IsSpace((pre + post)[k]) {
          if k < |pre| { assert (pre + post)[k] == pre[k]; }
          else { assert (pre + post)[k] == post[k - |pre|]; }
        }
      }
      LeadingSpaceOf(pre + post, []);
    } else {
      assert s == pre + (core + post);
      LeadingSpaceOf(pre, core + post);
      assert s[|pre|..] == core + post;
      TrailingSpaceOf(core, post);
    }
  }

  /** Stripping twice is the same as stripping once. */
  lemma StripIdempotent(s: string)
    ensures Strip(Strip(s)) == Strip(s)
  {
    var r := Strip(s);
    assert r == [] + r + [];
    StripUnique([], r, []);
  }
}
