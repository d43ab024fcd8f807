/** Whitespace trimming as Python's `str.strip()` does it with no argument:
    every leading and trailing character for which `str.isspace()` holds is
    removed, nothing else is touched. */
module Text {

  /** The characters Python's `str.isspace()` accepts: ASCII tab, line feed,
      vertical tab, form feed, carriage return, the four information
      separators and space, then the Unicode next-line, no-break space,
      ogham space, the en quad to hair space block, the line and paragraph
      separators, narrow no-break space, medium mathematical space and the
      ideographic space. */
  const Whitespace: set<char> := {
    '\t', '\n', '\U{0B}', '\U{0C}', '\r', '\U{1C}', '\U{1D}', '\U{1E}', '\U{1F}', ' ',
    '\U{85}', '\U{A0}', '\U{1680}',
    '\U{2000}', '\U{2001}', '\U{2002}', '\U{2003}', '\U{2004}', '\U{2005}',
    '\U{2006}', '\U{2007}', '\U{2008}', '\U{2009}', '\U{200A}',
    '\U{2028}', '\U{2029}', '\U{202F}', '\U{205F}', '\U{3000}'
  }

  predicate IsWhitespace(c: char) {
    c in Whitespace
  }

  predicate AllWhitespace(s: string) {
    forall i :: 0 <= i < |s| ==> IsWhitespace(s[i])
  }

  /** Neither the first nor the last character is whitespace. */
  predicate IsTrimmed(s: string) {
    s == [] || (!IsWhitespace(s[0]) && !IsWhitespace(s[|s| - 1]))
  }

  /** `str.strip()`: the input with its leading and trailing whitespace runs
      removed, one character at a time from either end. */
  function Strip(s: string): (r: string)
    ensures IsTrimmed(r)
    ensures |r| <= |s|
    decreases |s|
  {
    if s == [] then []
    else if IsWhitespace(s[0]) then Strip(s[1..])
    else if IsWhitespace(s[|s| - 1]) then Strip(s[..|s| - 1])
    else s
  }

  /** What `strip` removes is whitespace only: the input is its stripped
      form padded on the left by `pre` and on the right by `post`. */
  lemma {:induction false} StripSplit(s: string) returns (pre: string, post: string)
    ensures s == pre + Strip(s) + post
    ensures AllWhitespace(pre) && AllWhitespace(post)
    decreases |s|
  {
    if s == [] {
      pre, post := [], [];
    } else if IsWhitespace(s[0]) {
      var p, q := StripSplit(s[1..]);
      pre, post := [s[0]] + p, q;
      assert s == [s[0]] + s[1..];
    } else if IsWhitespace(s[|s| - 1]) {
      var p, q := StripSplit(s[..|s| - 1]);
      pre, post := p, q + [s[|s| - 1]];
      assert s == s[..|s| - 1] + [s[|s| - 1]];
    } else {
      pre, post := [], [];
    }
  }

  /** Stripping is determined by the decomposition: a trimmed core padded
      with whitespace on both sides strips to exactly that core. */
  lemma {:induction false} StripPadded(pre: string, core: string, post: string)
    requires AllWhitespace(pre) && AllWhitespace(post)
    requires IsTrimmed(core)
    ensures Strip(pre + core + post) == core
    decreases |pre| + |post|
  {
    var s := pre + core + post;
    if pre != [] {
      assert s[0] == pre[0];
      assert s[1..] == pre[1..] + core + post;
      StripPadded(pre[1..], core, post);
    } else if post != [] && core == [] {
      assert s == post && s[1..] == pre + core + post[1..];
      StripPadded(pre, core, post[1..]);
    } else if post != [] {
      var last := |post| - 1;
      assert s[0] == core[0] && s[|s| - 1] == post[last];
      assert s[..|s| - 1] == pre + core + post[..last];
      StripPadded(pre, core, post[..last]);
    } else {
      assert s == core;
    }
  }

  /** A string is left alone by `strip` exactly when it is already trimmed. */
  lemma StripFixedPoint(s: string)
    ensures Strip(s) == s <==> IsTrimmed(s)
  {
    if IsTrimmed(s) {
      assert [] + s + [] == s;
      StripPadded([], s, []);
    }
  }

  /** Stripping twice is stripping once. */
  lemma StripIdempotent(s: string)
    ensures Strip(Strip(s)) == Strip(s)
  {
    StripFixedPoint(Strip(s));
  }
}
