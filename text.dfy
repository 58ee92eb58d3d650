/** The few operations on Python `str` values that the two scripts use:
    `strip()`, `strip(chars)`, `split(sep)` and `sep.join(tokens)`, over
    strings as sequences of characters. */
module Text {

  /** The separator `str(list)` puts between elements and the reader splits on. */
  const Sep: string := ", "

  /** The characters Python's `str.isspace` accepts, which `str.strip()`
      removes from both ends. */
  predicate IsSpace(c: char) {
    || c == ' '
    || '\t' <= c <= '\r'
    || '\U{1c}' <= c <= '\U{1f}'
    || c == '\U{85}' || c == '\U{a0}' || c == '\U{1680}'
    || '\U{2000}' <= c <= '\U{200a}'
    || c == '\U{2028}' || c == '\U{2029}' || c == '\U{202f}' || c == '\U{205f}' || c == '\U{3000}'
  }

  /** The characters named by the argument of `strip("[]")`. */
  predicate IsBracket(c: char) {
    c == '[' || c == ']'
  }

  /** Removes the longest prefix whose characters all satisfy `drop`. */
  function TrimLeft(s: string, drop: char -> bool): string
    decreases |s|
  {
    if |s| > 0 && drop(s[0]) then TrimLeft(s[1..], drop) else s
  }

  /** Removes the longest suffix whose characters all satisfy `drop`. */
  function TrimRight(s: string, drop: char -> bool): string
    decreases |s|
  {
    if |s| > 0 && drop(s[|s| - 1]) then TrimRight(s[..|s| - 1], drop) else s
  }

  /** What `TrimLeft` removes is the longest prefix of dropped characters:
      the result is a suffix, everything cut satisfies `drop`, and the
      result does not start with a dropped character. */
  lemma {:induction false} TrimLeftSpec(s: string, drop: char -> bool)
    ensures var r := TrimLeft(s, drop);
            && |r| <= |s| && r == s[|s| - |r|..]
            && (forall i :: 0 <= i < |s| - |r| ==> drop(s[i]))
            && (r == [] || !drop(r[0]))
    decreases |s|
  {
    if |s| > 0 && drop(s[0]) {
      TrimLeftSpec(s[1..], drop);
    }
  }

  /** What `TrimRight` removes is the longest suffix of dropped characters. */
  lemma {:induction false} TrimRightSpec(s: string, drop: char -> bool)
    ensures var r := TrimRight(s, drop);
            && |r| <= |s| && r == s[..|r|]
            && (forall i :: |r| <= i < |s| ==> drop(s[i]))
            && (r == [] || !drop(r[|r| - 1]))
    decreases |s|
  {
    if |s| > 0 && drop(s[|s| - 1]) {
      TrimRightSpec(s[..|s| - 1], drop);
    }
  }

  /** Trimming removes whitespace-like padding around a token that is
      already trimmed, and nothing of the token itself. */
  lemma {:induction false} TrimPadded(pre: string, t: string, post: string, drop: char -> bool)
    requires forall i :: 0 <= i < |pre| ==> drop(pre[i])
    requires forall i :: 0 <= i < |post| ==> drop(post[i])
    requires t != [] && !drop(t[0]) && !drop(t[|t| - 1])
    ensures TrimRight(TrimLeft(pre + t + post, drop), drop) == t
  {
    TrimLeftPadded(pre, t + post, drop);
    assert pre + t + post == pre + (t + post);
    assert TrimLeft(t + post, drop) == t + post by {
      assert (t + post)[0] == t[0];
    }
    TrimRightPadded(t, post, drop);
  }

  /** A dropped prefix disappears under `TrimLeft`. */
  lemma {:induction false} TrimLeftPadded(pre: string, u: string, drop: char -> bool)
    requires forall i :: 0 <= i < |pre| ==> drop(pre[i])
    ensures TrimLeft(pre + u, drop) == TrimLeft(u, drop)
    decreases |pre|
  {
    if pre == [] {
      assert pre + u == u;
    } else {
      assert (pre + u)[0] == pre[0];
      assert (pre + u)[1..] == pre[1..] + u;
      TrimLeftPadded(pre[1..], u, drop);
    }
  }

  /** A dropped suffix disappears under `TrimRight`, and a token whose last
      character is kept is not touched. */
  lemma {:induction false} TrimRightPadded(t: string, post: string, drop: char -> bool)
    requires forall i :: 0 <= i < |post| ==> drop(post[i])
    requires t != [] && !drop(t[|t| - 1])
    ensures TrimRight(t + post, drop) == t
    decreases |post|
  {
    if post == [] {
      assert t + post == t;
    } else {
      var u := t + post;
      assert u[|u| - 1] == post[|post| - 1];
      assert u[..|u| - 1] == t + post[..|post| - 1];
      TrimRightPadded(t, post[..|post| - 1], drop);
    }
  }

  /** Python's `s.strip()`. */
  function Strip(s: string): string {
    TrimRight(TrimLeft(s, IsSpace), IsSpace)
  }

  /** `strip()` leaves no whitespace at either end and never lengthens. */
  lemma {:induction false} StripEnds(s: string)
    ensures |Strip(s)| <= |s|
    ensures Strip(s) == [] || (!IsSpace(Strip(s)[0]) && !IsSpace(Strip(s)[|Strip(s)| - 1]))
  {
    var l := TrimLeft(s, IsSpace);
    TrimLeftSpec(s, IsSpace);
    TrimRightSpec(l, IsSpace);
    var r := Strip(s);
    if r != [] {
      assert r[0] == l[0];
    }
  }

  /** Python's `s.strip("[]")`. */
  function StripBrackets(s: string): string {
    TrimRight(TrimLeft(s, IsBracket), IsBracket)
  }

  /** `strip("[]")` leaves no bracket at either end and never lengthens. */
  lemma {:induction false} StripBracketsEnds(s: string)
    ensures |StripBrackets(s)| <= |s|
    ensures var r := StripBrackets(s); r == [] || (!IsBracket(r[0]) && !IsBracket(r[|r| - 1]))
  {
    var l := TrimLeft(s, IsBracket);
    TrimLeftSpec(s, IsBracket);
    TrimRightSpec(l, IsBracket);
    var r := StripBrackets(s);
    if r != [] {
      assert r[0] == l[0];
    }
  }

  /** `strip()` of a token padded with whitespace gives the token back. */
  lemma {:induction false} StripPadded(pre: string, t: string, post: string)
    requires forall i :: 0 <= i < |pre| ==> IsSpace(pre[i])
    requires forall i :: 0 <= i < |post| ==> IsSpace(post[i])
    requires t != [] && !IsSpace(t[0]) && !IsSpace(t[|t| - 1])
    ensures Strip(pre + t + post) == t
  {
    TrimPadded(pre, t, post, IsSpace);
  }

  /** Python's `s.split(sep)` for a non-empty separator: the string is cut at
      every occurrence of `sep`, found left to right without overlap. */
  function Split(s: string, sep: string): (r: seq<string>)
    requires |sep| > 0
    ensures |r| >= 1
    decreases |s|
  {
    if |s| < |sep| then [s]
    else if s[..|sep|] == sep then [""] + Split(s[|sep|..], sep)
    else
      var rest := Split(s[1..], sep);
      [[s[0]] + rest[0]] + rest[1..]
  }

  /** Python's `sep.join(toks)`. */
  function Join(sep: string, toks: seq<string>): string
  {
    if |toks| == 0 then ""
    else if |toks| == 1 then toks[0]
    else toks[0] + sep + Join(sep, toks[1..])
  }

  /** The token contains no occurrence of `Sep`. */
  predicate NoSep(t: string) {
    forall i :: 0 <= i < |t| - 1 ==> !(t[i] == Sep[0] && t[i + 1] == Sep[1])
  }

  /** Joining what `split` cut gives the string back, for every string and
      every separator. */
  lemma {:induction false} SplitThenJoin(s: string, sep: string)
    requires |sep| > 0
    ensures Join(sep, Split(s, sep)) == s
    decreases |s|
  {
    if |s| < |sep| {
    } else if s[..|sep|] == sep {
      var rest := Split(s[|sep|..], sep);
      assert Split(s, sep) == [""] + rest;
      SplitThenJoin(s[|sep|..], sep);
      assert ([""] + rest)[1..] == rest;
      assert s == sep + s[|sep|..];
    } else {
      var rest := Split(s[1..], sep);
      SplitThenJoin(s[1..], sep);
      JoinConsFirst(sep, s[0], rest);
      assert s == [s[0]] + s[1..];
    }
  }

  /** Prefixing the first token with a character prefixes the join with it. */
  lemma {:induction false} JoinConsFirst(sep: string, c: char, toks: seq<string>)
    requires |toks| >= 1
    ensures Join(sep, [[c] + toks[0]] + toks[1..]) == [c] + Join(sep, toks)
  {
    var toks' := [[c] + toks[0]] + toks[1..];
    assert toks'[1..] == toks[1..];
  }

  /** A token without the separator is not cut. */
  lemma {:induction false} SplitNoSep(t: string)
    requires NoSep(t)
    ensures Split(t, Sep) == [t]
    decreases |t|
  {
    if |t| < |Sep| {
    } else {
      assert t[..|Sep|] != Sep by { assert !(t[0] == Sep[0] && t[1] == Sep[1]); }
      SplitNoSep(t[1..]);
      assert [t[0]] + t[1..] == t;
    }
  }

  /** The first cut falls right after a token without the separator. */
  lemma {:induction false} SplitAfterToken(t: string, u: string)
    requires NoSep(t)
    ensures Split(t + Sep + u, Sep) == [t] + Split(u, Sep)
    decreases |t|
  {
    var s := t + Sep + u;
    if |t| == 0 {
      assert s == Sep + u;
      assert s[..|Sep|] == Sep && s[|Sep|..] == u;
    } else {
      assert s[..|Sep|] != Sep by {
        if |t| == 1 {
          assert s[1] == Sep[0];
        } else {
          assert !(t[0] == Sep[0] && t[1] == Sep[1]);
        }
      }
      assert s[1..] == t[1..] + Sep + u;
      SplitAfterToken(t[1..], u);
      assert [t[0]] + t[1..] == t;
    }
  }

  /** Splitting what `join` assembled from one or more tokens gives the
      tokens back, when no token holds the separator. */
  lemma {:induction false} JoinThenSplit(toks: seq<string>)
    requires |toks| >= 1
    requires forall k :: 0 <= k < |toks| ==> NoSep(toks[k])
    ensures Split(Join(Sep, toks), Sep) == toks
    decreases |toks|
  {
    if |toks| == 1 {
      SplitNoSep(toks[0]);
    } else {
      JoinThenSplit(toks[1..]);
      SplitAfterToken(toks[0], Join(Sep, toks[1..]));
      assert toks == [toks[0]] + toks[1..];
    }
  }

  /** `join` of two or more tokens ends with the separator and the last token. */
  lemma {:induction false} JoinLast(sep: string, toks: seq<string>)
    requires |toks| >= 2
    ensures Join(sep, toks) == Join(sep, toks[..|toks| - 1]) + sep + toks[|toks| - 1]
    decreases |toks|
  {
    if |toks| == 2 {
      assert toks[..1] == [toks[0]];
    } else {
      JoinLast(sep, toks[1..]);
      assert toks[1..][..|toks| - 2] == toks[..|toks| - 1][1..];
    }
  }
}
