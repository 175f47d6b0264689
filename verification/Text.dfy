/** The string operations the prompt and the chunker are built from. */
module Text {

  function Join(sep: string, parts: seq<string>): string {
    if parts == [] then []
    else if |parts| == 1 then parts[0]
    else parts[0] + sep + Join(sep, parts[1..])
  }

  /** The characters `str.strip` removes. */
  predicate IsSpace(c: char) {
    var n := c as int;
    || 0x09 <= n <= 0x0D || 0x1C <= n <= 0x20 || n == 0x85 || n == 0xA0 || n == 0x1680
    || 0x2000 <= n <= 0x200A || 0x2028 <= n <= 0x2029 || n == 0x202F || n == 0x205F || n == 0x3000
  }

  function StripLeft(s: string): string {
    if s != [] && IsSpace(s[0]) then StripLeft(s[1..]) else s
  }

  function StripRight(s: string): string {
    if s != [] && IsSpace(s[|s| - 1]) then StripRight(s[..|s| - 1]) else s
  }

  function Strip(s: string): string {
    StripRight(StripLeft(s))
  }

  ghost predicate Surrounds(whole: string, pre: string, part: string, post: string) {
    whole == pre + part + post
  }

  /** `part` stands somewhere in `whole`. */
  ghost predicate Holds(whole: string, part: string) {
    exists pre, post :: Surrounds(whole, pre, part, post)
  }

  lemma HoldsIsTransitive(a: string, b: string, c: string)
    requires Holds(a, b) && Holds(b, c)
    ensures Holds(a, c)
  {
    var p, q :| Surrounds(a, p, b, q);
    var p', q' :| Surrounds(b, p', c, q');
    assert Surrounds(a, p + p', c, q' + q);
  }

  lemma {:induction false} JoinHolds(sep: string, parts: seq<string>, i: nat)
    requires i < |parts|
    ensures Holds(Join(sep, parts), parts[i])
  {
    if |parts| == 1 {
      assert Surrounds(Join(sep, parts), [], parts[0], []);
    } else if i == 0 {
      assert Surrounds(Join(sep, parts), [], parts[0], sep + Join(sep, parts[1..]));
    } else {
      JoinHolds(sep, parts[1..], i - 1);
      var pre, post :| Surrounds(Join(sep, parts[1..]), pre, parts[1..][i - 1], post);
      assert Surrounds(Join(sep, parts), parts[0] + sep + pre, parts[i], post);
    }
  }

  /** A joined list is its first part, the separator, and the rest joined, wherever it is cut in two. */
  lemma {:induction false} JoinSplits(sep: string, a: seq<string>, b: seq<string>)
    ensures |a| == 1 ==> Join(sep, a) == a[0]
    ensures a != [] && b != [] ==> Join(sep, a + b) == Join(sep, a) + sep + Join(sep, b)
  {
    if |a| == 1 {
      assert (a + b)[1..] == b;
    } else if |a| > 1 && b != [] {
      assert (a + b)[1..] == a[1..] + b;
      JoinSplits(sep, a[1..], b);
    }
  }

  ghost predicate SurroundsBoth(whole: string, pre: string, a: string, mid: string, b: string, post: string) {
    whole == pre + a + mid + b + post
  }

  /** `a` stands in `whole`, and `b` after it. */
  ghost predicate HoldsInOrder(whole: string, a: string, b: string) {
    exists pre, mid, post :: SurroundsBoth(whole, pre, a, mid, b, post)
  }

  lemma JoinHoldsInOrder(sep: string, parts: seq<string>, i: nat, j: nat)
    requires i < j < |parts|
    ensures HoldsInOrder(Join(sep, parts), parts[i], parts[j])
  {
    var a, b := parts[..j], parts[j..];
    assert parts == a + b && b[0] == parts[j] && a[i] == parts[i];
    JoinSplits(sep, a, b);
    JoinHolds(sep, a, i);
    JoinHolds(sep, b, 0);
    OneAfterTheOther(Join(sep, a), sep, Join(sep, b), parts[i], parts[j]);
  }

  lemma OneAfterTheOther(x: string, sep: string, y: string, a: string, b: string)
    requires Holds(x, a) && Holds(y, b)
    ensures HoldsInOrder(x + sep + y, a, b)
  {
    var p, q :| Surrounds(x, p, a, q);
    var p', q' :| Surrounds(y, p', b, q');
    var mid := q + sep + p';
    assert x + sep + y == (p + a + q) + sep + (p' + b + q');
    assert SurroundsBoth(x + sep + y, p, a, mid, b, q');
  }

  /** Blanks, tabs and line ends are white space; no visible ASCII character is. */
  lemma WhiteSpace(c: char)
    ensures c == ' ' || c == '\t' || c == '\n' || c == '\r' ==> IsSpace(c)
    ensures '!' <= c <= '~' ==> !IsSpace(c)
  {
  }

  /** Neither end of `s` is a space, and there is something between. */
  predicate Trimmed(s: string) {
    s != [] && !IsSpace(s[0]) && !IsSpace(s[|s| - 1])
  }

  lemma {:induction false} StripLeftIsSuffix(s: string)
    ensures exists pre :: Surrounds(s, pre, StripLeft(s), [])
    ensures StripLeft(s) != [] ==> !IsSpace(StripLeft(s)[0])
  {
    if s != [] && IsSpace(s[0]) {
      StripLeftIsSuffix(s[1..]);
      var pre :| Surrounds(s[1..], pre, StripLeft(s[1..]), []);
      assert Surrounds(s, [s[0]] + pre, StripLeft(s), []);
    } else {
      assert Surrounds(s, [], StripLeft(s), []);
    }
  }

  lemma {:induction false} StripRightIsPrefix(s: string)
    ensures exists post :: Surrounds(s, [], StripRight(s), post)
    ensures StripRight(s) != [] ==> !IsSpace(StripRight(s)[|StripRight(s)| - 1])
  {
    if s != [] && IsSpace(s[|s| - 1]) {
      StripRightIsPrefix(s[..|s| - 1]);
      var post :| Surrounds(s[..|s| - 1], [], StripRight(s[..|s| - 1]), post);
      assert Surrounds(s, [], StripRight(s), post + [s[|s| - 1]]);
    } else {
      assert Surrounds(s, [], StripRight(s), []);
    }
  }

  lemma StripTrims(s: string)
    ensures Holds(s, Strip(s))
    ensures Strip(s) == [] || Trimmed(Strip(s))
  {
    StripLeftIsSuffix(s);
    StripRightIsPrefix(StripLeft(s));
    var pre :| Surrounds(s, pre, StripLeft(s), []);
    var post :| Surrounds(StripLeft(s), [], Strip(s), post);
    assert Surrounds(s, pre, Strip(s), post);
  }

  lemma {:induction false} StripLeftKeeps(pre: string, rest: string)
    requires rest != [] && !IsSpace(rest[0])
    ensures exists p :: Surrounds(StripLeft(pre + rest), p, rest, [])
  {
    var s := pre + rest;
    if pre != [] && IsSpace(pre[0]) {
      assert s[1..] == pre[1..] + rest;
      StripLeftKeeps(pre[1..], rest);
      assert s[0] == pre[0] && StripLeft(s) == StripLeft(pre[1..] + rest);
    } else {
      assert pre == [] ==> s[0] == rest[0];
      assert Surrounds(StripLeft(s), pre, rest, []);
    }
  }

  lemma {:induction false} StripRightKeeps(rest: string, post: string)
    requires rest != [] && !IsSpace(rest[|rest| - 1])
    ensures exists q :: Surrounds(StripRight(rest + post), [], rest, q)
  {
    var s := rest + post;
    if post != [] && IsSpace(post[|post| - 1]) {
      assert s[..|s| - 1] == rest + post[..|post| - 1];
      StripRightKeeps(rest, post[..|post| - 1]);
      assert s[|s| - 1] == post[|post| - 1] && StripRight(s) == StripRight(rest + post[..|post| - 1]);
    } else {
      assert post == [] ==> s[|s| - 1] == rest[|rest| - 1];
      assert Surrounds(StripRight(s), [], rest, post);
    }
  }

  lemma StripBoth(whole: string, p: string, part: string, post: string)
    requires StripLeft(whole) == p + (part + post) && Trimmed(part)
    ensures Holds(Strip(whole), part)
  {
    var front := p + part;
    assert StripLeft(whole) == front + post;
    StripRightKeeps(front, post);
    var q :| Surrounds(StripRight(front + post), [], front, q);
    assert Strip(whole) == p + part + q;
    assert Surrounds(Strip(whole), p, part, q);
  }

  /** Stripping a text cuts into nothing that has no space at its ends. */
  lemma StripKeeps(whole: string, part: string)
    requires Holds(whole, part) && Trimmed(part)
    ensures Holds(Strip(whole), part)
  {
    var pre, post :| Surrounds(whole, pre, part, post);
    assert whole == pre + (part + post);
    StripLeftKeeps(pre, part + post);
    var p :| Surrounds(StripLeft(pre + (part + post)), p, part + post, []);
    assert StripLeft(whole) == p + (part + post);
    StripBoth(whole, p, part, post);
  }

  /** What a part of the text says is still there once the text is stripped. */
  lemma StripHolds(whole: string, part: string)
    requires Holds(whole, part) && Strip(part) != []
    ensures Holds(Strip(whole), Strip(part))
  {
    StripTrims(part);
    HoldsIsTransitive(whole, part, Strip(part));
    StripKeeps(whole, Strip(part));
  }
}
