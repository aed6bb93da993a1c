/** Python string primitives that the recipe app relies on: `str.strip()`,
    `str.split(sep)` with a one-character separator, `sep.join(list)`, and
    the substring test behind `x in s`. */
module Text {

  /** The characters Python's `str.strip()` removes when called without an
      argument: the code points CPython's Unicode database classifies as
      whitespace. */
  predicate IsSpace(c: char) {
    var n := c as int;
    (0x09 <= n <= 0x0D) || (0x1C <= n <= 0x20) || n == 0x85 || n == 0xA0 ||
    n == 0x1680 || (0x2000 <= n <= 0x200A) || n == 0x2028 || n == 0x2029 ||
    n == 0x202F || n == 0x205F || n == 0x3000
  }

  /** Every character of `s` in positions `lo` to `hi - 1` is whitespace. */
  predicate SpaceIn(s: string, lo: int, hi: int)
    requires 0 <= lo <= hi <= |s|
  {
    forall k :: lo <= k < hi ==> IsSpace(s[k])
  }

  predicate AllSpace(s: string) {
    SpaceIn(s, 0, |s|)
  }

  /** Neither end of `s` is whitespace: what `strip()` leaves behind. */
  predicate IsStripped(s: string) {
    s == [] || (!IsSpace(s[0]) && !IsSpace(s[|s| - 1]))
  }

  /** The first position at or after `i` that does not hold whitespace
      (or `|s|` when there is none): where `s.lstrip()` starts. */
  function SkipSpace(s: string, i: nat): (j: nat)
    requires i <= |s|
    ensures i <= j <= |s| && SpaceIn(s, i, j)
    ensures j == |s| || !IsSpace(s[j])
    decreases |s| - i
  {
    if i == |s| || !IsSpace(s[i]) then i else SkipSpace(s, i + 1)
  }

  /** Scanning back from `j` towards `lo`, the first end position not
      preceded by whitespace: where `s.rstrip()` ends. */
  function SkipSpaceBack(s: string, lo: nat, j: nat): (e: nat)
    requires lo <= j <= |s|
    ensures lo <= e <= j && SpaceIn(s, e, j)
    ensures e == lo || !IsSpace(s[e - 1])
    decreases j
  {
    if j == lo || !IsSpace(s[j - 1]) then j else SkipSpaceBack(s, lo, j - 1)
  }

  /** `s.strip()`: `s` with its leading and trailing whitespace removed;
      empty exactly when `s` is all whitespace, and the identity on text
      that has no whitespace at either end. `StripIsSlice` says where in `s`
      the result sits. */
  function Strip(s: string): (r: string)
    ensures IsStripped(r)
    ensures r == [] <==> AllSpace(s)
    ensures IsStripped(s) ==> r == s
  {
    var i := SkipSpace(s, 0);
    var e := SkipSpaceBack(s, i, |s|);
    assert e == i ==> AllSpace(s);
    s[i..e]
  }

  /** The stripped text is a slice of `s` reached by removing a
      whitespace-only prefix and a whitespace-only suffix. */
  lemma StripIsSlice(s: string)
    ensures exists i, e ::
              0 <= i <= e <= |s| && Strip(s) == s[i..e] &&
              SpaceIn(s, 0, i) && SpaceIn(s, e, |s|)
  {
    var i := SkipSpace(s, 0);
    var e := SkipSpaceBack(s, i, |s|);
    assert Strip(s) == s[i..e];
  }

  /** `SkipSpace` stops at the first non-whitespace position. */
  lemma {:induction false} SkipSpaceAt(s: string, i: nat, j: nat)
    requires i <= j <= |s| && SpaceIn(s, i, j)
    requires j == |s| || !IsSpace(s[j])
    ensures SkipSpace(s, i) == j
    decreases j - i
  {
    if i < j {
      SkipSpaceAt(s, i + 1, j);
    }
  }

  /** `SkipSpaceBack` stops at the last position not preceded by whitespace. */
  lemma {:induction false} SkipSpaceBackAt(s: string, lo: nat, e: nat, j: nat)
    requires lo <= e <= j <= |s| && SpaceIn(s, e, j)
    requires e == lo || !IsSpace(s[e - 1])
    ensures SkipSpaceBack(s, lo, j) == e
    decreases j - e
  {
    if e < j {
      SkipSpaceBackAt(s, lo, e, j - 1);
    }
  }

  /** Stripping removes exactly the surrounding whitespace: text with no
      whitespace at either end comes back unchanged from any amount of
      padding. */
  lemma StripPadding(pre: string, x: string, post: string)
    requires AllSpace(pre) && AllSpace(post) && IsStripped(x)
    ensures Strip(pre + x + post) == x
  {
    var s := pre + x + post;
    if x == [] {
      assert forall k :: 0 <= k < |s| ==> s[k] in pre || s[k] in post;
      assert AllSpace(s);
    } else {
      var i, e := |pre|, |pre| + |x|;
      assert s[i] == x[0] && s[e - 1] == x[|x| - 1];
      assert forall k :: 0 <= k < i ==> s[k] == pre[k];
      SkipSpaceAt(s, 0, i);
      assert forall k :: e <= k < |s| ==> s[k] == post[k - e];
      SkipSpaceBackAt(s, i, e, |s|);
      assert s[i..e] == x;
    }
  }

  /** Stripping never introduces a character. */
  lemma StripAvoids(s: string, c: char)
    requires c !in s
    ensures c !in Strip(s)
  {
    var i := SkipSpace(s, 0);
    var e := SkipSpaceBack(s, i, |s|);
    assert Strip(s) == s[i..e];
  }

  /** `sep.join(xs)`. */
  function Join(xs: seq<string>, sep: string): string {
    if |xs| == 0 then ""
    else if |xs| == 1 then xs[0]
    else xs[0] + sep + Join(xs[1..], sep)
  }

  /** `s.split(d)` for a single-character separator `d`: the pieces between
      consecutive occurrences of `d`, always at least one. Splitting is the
      inverse of joining: no piece contains `d`, and joining the pieces with
      `d` gives back `s`. */
  function Split(s: string, d: char): (r: seq<string>)
    ensures |r| >= 1
    ensures forall k :: 0 <= k < |r| ==> d !in r[k]
    ensures Join(r, [d]) == s
    decreases |s|
  {
    if s == [] then [""]
    else
      var rest := Split(s[1..], d);
      if s[0] == d then
        assert [""] + rest == [""] + [rest[0]] + rest[1..];
        assert s == [d] + s[1..];
        assert ([""] + rest)[1..] == rest;
        [""] + rest
      else
        var r := [[s[0]] + rest[0]] + rest[1..];
        assert s == [s[0]] + s[1..];
        assert |rest| > 1 ==> Join(rest, [d]) == rest[0] + [d] + Join(rest[1..], [d]);
        assert r[1..] == rest[1..];
        r
  }

  /** `sub` occurs in `s` as a contiguous slice (Python's `sub in s`). */
  ghost predicate IsInfix(sub: string, s: string) {
    exists i :: InfixAt(sub, s, i)
  }

  /** `sub` occurs in `s` starting at position `i`. */
  predicate InfixAt(sub: string, s: string, i: int) {
    0 <= i <= |s| - |sub| && s[i..i + |sub|] == sub
  }

  predicate StartsWith(s: string, prefix: string) {
    |prefix| <= |s| && s[..|prefix|] == prefix
  }

  /** The middle part of a concatenation occurs in it. */
  lemma InfixOfConcat(a: string, b: string, c: string)
    ensures IsInfix(b, a + b + c)
  {
    assert InfixAt(b, a + b + c, |a|);
  }

  lemma InfixTransitive(a: string, b: string, c: string)
    requires IsInfix(a, b) && IsInfix(b, c)
    ensures IsInfix(a, c)
  {
    var i :| InfixAt(a, b, i);
    var j :| InfixAt(b, c, j);
    forall k | 0 <= k < |a| ensures c[j + i + k] == a[k] {
      assert c[j + i + k] == c[j..j + |b|][i + k];
    }
    assert c[j + i..j + i + |a|] == a;
    assert InfixAt(a, c, j + i);
  }

  /** Every joined element appears in the joined text. */
  lemma {:induction false} ElementInJoin(xs: seq<string>, sep: string, k: nat)
    requires k < |xs|
    ensures IsInfix(xs[k], Join(xs, sep))
  {
    if |xs| == 1 {
      InfixOfConcat("", xs[0], "");
      assert "" + xs[0] + "" == xs[0];
    } else if k == 0 {
      InfixOfConcat("", xs[0], sep + Join(xs[1..], sep));
      assert "" + xs[0] + (sep + Join(xs[1..], sep)) == Join(xs, sep);
    } else {
      ElementInJoin(xs[1..], sep, k - 1);
      InfixOfConcat(xs[0] + sep, Join(xs[1..], sep), "");
      assert xs[0] + sep + Join(xs[1..], sep) + "" == Join(xs, sep);
      InfixTransitive(xs[k], Join(xs[1..], sep), Join(xs, sep));
    }
  }

  /** A character absent from the elements and from the separator is absent
      from the joined text. */
  lemma {:induction false} JoinAvoids(xs: seq<string>, sep: string, c: char)
    requires forall k :: 0 <= k < |xs| ==> c !in xs[k]
    requires c !in sep
    ensures c !in Join(xs, sep)
  {
    if |xs| > 1 {
      JoinAvoids(xs[1..], sep, c);
    }
  }

  /** Splitting a separator-free string yields that string alone. */
  lemma {:induction false} SplitWithoutSeparator(x: string, d: char)
    requires d !in x
    ensures Split(x, d) == [x]
    decreases |x|
  {
    if x != [] {
      SplitWithoutSeparator(x[1..], d);
      assert [x[0]] + x[1..] == x;
    }
  }

  /** Splitting stops at the first separator. */
  lemma {:induction false} SplitAtFirstSeparator(x: string, d: char, t: string)
    requires d !in x
    ensures Split(x + [d] + t, d) == [x] + Split(t, d)
    decreases |x|
  {
    var s := x + [d] + t;
    if x == [] {
      assert s[1..] == t;
    } else {
      assert s[1..] == x[1..] + [d] + t;
      SplitAtFirstSeparator(x[1..], d, t);
      assert [x[0]] + x[1..] == x;
    }
  }

  /** Splitting undoes joining, for separator-free elements. Together with
      the `ensures` of `Split` this makes the two functions mutual inverses. */
  lemma {:induction false} SplitJoin(xs: seq<string>, d: char)
    requires |xs| >= 1
    requires forall k :: 0 <= k < |xs| ==> d !in xs[k]
    ensures Split(Join(xs, [d]), d) == xs
  {
    if |xs| == 1 {
      SplitWithoutSeparator(xs[0], d);
    } else {
      SplitJoin(xs[1..], d);
      SplitAtFirstSeparator(xs[0], d, Join(xs[1..], [d]));
      assert [xs[0]] + xs[1..] == xs;
    }
  }
}
