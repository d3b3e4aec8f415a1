/**
 * String helpers with the meaning of the Python string operations the
 * installer scripts use: `str.strip()`, `sub in s`, `str.split(sep)` and
 * `sep.join(parts)`.
 */
module Text {

  /** Python's `str.isspace()` for one character: the Unicode whitespace set. */
  predicate IsSpace(c: char) {
    || ('\t' <= c <= '\r')
    || ('\U{1c}' <= c <= '\U{1f}')
    || c == ' '
    || c == '\U{85}'
    || c == '\U{a0}'
    || c == '\U{1680}'
    || ('\U{2000}' <= c <= '\U{200a}')
    || c == '\U{2028}'
    || c == '\U{2029}'
    || c == '\U{202f}'
    || c == '\U{205f}'
    || c == '\U{3000}'
  }

  /** Every character of `s` at positions `lo` up to (not including) `hi` is whitespace. */
  predicate SpaceIn(s: string, lo: int, hi: int) {
    forall k :: lo <= k < hi && 0 <= k < |s| ==> IsSpace(s[k])
  }

  /** The end of the run of whitespace that starts at position `i`. */
  function SpaceRunFrom(s: string, i: nat): (n: nat)
    requires i <= |s|
    ensures i <= n <= |s|
    ensures SpaceIn(s, i, n)
    ensures n < |s| ==> !IsSpace(s[n])
    decreases |s| - i
  {
    if i < |s| && IsSpace(s[i]) then SpaceRunFrom(s, i + 1) else i
  }

  /** The start of the run of whitespace that ends just before position `j`. */
  function SpaceRunBefore(s: string, j: nat): (m: nat)
    requires j <= |s|
    ensures m <= j
    ensures SpaceIn(s, m, j)
    ensures m > 0 ==> !IsSpace(s[m - 1])
  {
    if j > 0 && IsSpace(s[j - 1]) then SpaceRunBefore(s, j - 1) else j
  }

  /** Python's `s.strip()`: `s` without leading and trailing whitespace. */
  function Strip(s: string): (r: string)
    ensures |r| <= |s|
    ensures r == [] || (!IsSpace(r[0]) && !IsSpace(r[|r| - 1]))
  {
    var i := SpaceRunFrom(s, 0);
    var j := SpaceRunBefore(s, |s|);
    if i == |s| then []
    else
      assert !IsSpace(s[i]);
      s[i..j]
  }

  /**
   * What `Strip` keeps is a slice of `s` with only whitespace before and
   * after it; as it neither starts nor ends with whitespace, this pins it down.
   */
  lemma StripSlice(s: string)
    ensures exists i, j :: 0 <= i <= j <= |s| && Strip(s) == s[i..j] && SpaceIn(s, 0, i) && SpaceIn(s, j, |s|)
  {
    var i := SpaceRunFrom(s, 0);
    if i == |s| {
      assert Strip(s) == s[|s|..|s|];
    } else {
      var j := SpaceRunBefore(s, |s|);
      assert !IsSpace(s[i]);
      assert Strip(s) == s[i..j];
    }
  }

  /** `sub` occurs in `s` starting at position `i`. */
  predicate OccursAt(s: string, sub: string, i: int) {
    0 <= i <= |s| - |sub| && s[i..i + |sub|] == sub
  }

  /** Python's `sub in s`, scanning `s` from the left. */
  predicate Contains(s: string, sub: string)
    decreases |s|
  {
    StartsWith(s, sub) || (|s| > 0 && Contains(s[1..], sub))
  }

  /** `Contains` holds exactly when `sub` occurs at some position of `s`. */
  lemma {:induction false} ContainsIff(s: string, sub: string)
    ensures Contains(s, sub) <==> exists i :: OccursAt(s, sub, i)
    decreases |s|
  {
    if StartsWith(s, sub) {
      assert OccursAt(s, sub, 0);
    }
    if OccursAt(s, sub, 0) {
      assert StartsWith(s, sub);
    }
    if |s| > 0 {
      ContainsIff(s[1..], sub);
      if Contains(s[1..], sub) {
        var i :| OccursAt(s[1..], sub, i);
        assert s[1..][i..i + |sub|] == s[i + 1..i + 1 + |sub|];
        assert OccursAt(s, sub, i + 1);
      }
      if i :| OccursAt(s, sub, i) && i > 0 {
        assert s[1..][i - 1..i - 1 + |sub|] == s[i..i + |sub|];
        assert OccursAt(s[1..], sub, i - 1);
      }
    }
  }

  /** A non-empty `sub` can only occur in `s` if its first character does. */
  lemma ContainsFirstChar(s: string, sub: string)
    requires |sub| > 0 && Contains(s, sub)
    ensures sub[0] in s
  {
    ContainsIff(s, sub);
    var i :| OccursAt(s, sub, i);
    assert s[i] == sub[0];
  }

  /** `s` starts with `p`. */
  predicate StartsWith(s: string, p: string) {
    |p| <= |s| && s[..|p|] == p
  }

  /** Index of the first occurrence of `c` in `s`, or `|s|` when `c` does not occur. */
  function IndexOf(s: string, c: char): (i: nat)
    ensures i <= |s|
    ensures i < |s| ==> s[i] == c
    ensures forall k :: 0 <= k < i ==> s[k] != c
    ensures i == |s| <==> c !in s
  {
    if |s| == 0 then 0
    else if s[0] == c then 0
    else
      1 + IndexOf(s[1..], c)
  }

  /** Python's `s.split(sep)` for a one-character separator: the pieces between separators. */
  function Split(s: string, sep: char): (r: seq<string>)
    ensures |r| >= 1
    ensures forall k :: 0 <= k < |r| ==> sep !in r[k]
    ensures sep !in s <==> |r| == 1
    ensures r[0] == s[..IndexOf(s, sep)]
    decreases |s|
  {
    var i := IndexOf(s, sep);
    if i == |s| then [s] else [s[..i]] + Split(s[i + 1..], sep)
  }

  /** Python's `sep.join(parts)`. */
  function Join(parts: seq<string>, sep: string): (r: string)
  {
    if |parts| == 0 then ""
    else if |parts| == 1 then parts[0]
    else parts[0] + sep + Join(parts[1..], sep)
  }

  /** `Join` undoes `Split`: the pieces rejoined with the separator give back the input. */
  lemma {:induction false} JoinSplit(s: string, sep: char)
    ensures Join(Split(s, sep), [sep]) == s
    decreases |s|
  {
    var i := IndexOf(s, sep);
    if i < |s| {
      var rest := s[i + 1..];
      var tail := Split(rest, sep);
      JoinSplit(rest, sep);
      assert Split(s, sep) == [s[..i]] + tail;
      JoinCons(s[..i], tail, [sep]);
      CutAt(s, i);
    }
  }

  /** Regrouping a concatenation around a middle piece. */
  lemma Splice(p: string, d: string, x: string, y: string, z: string)
    ensures p + (d + x) + y + z == p + d + (x + y + z)
  {
  }

  /** Cutting `s` around position `i` and gluing the pieces back gives `s`. */
  lemma CutAt(s: string, i: nat)
    requires i < |s|
    ensures s[..i] + [s[i]] + s[i + 1..] == s
  {
  }

  /** The three pieces of `a + [c] + b` can be read back by position. */
  lemma GlueParts(a: string, c: char, b: string)
    ensures (a + [c] + b)[..|a|] == a
    ensures (a + [c] + b)[|a|] == c
    ensures (a + [c] + b)[|a| + 1..] == b
  {
  }

  /** Joining a non-empty list after one more piece puts one separator between them. */
  lemma JoinCons(head: string, tail: seq<string>, sep: string)
    requires |tail| >= 1
    ensures Join([head] + tail, sep) == head + sep + Join(tail, sep)
  {
    assert ([head] + tail)[1..] == tail;
  }

  /** The first `c` of `a + [c] + b` is the one after `a` when `a` holds none. */
  lemma IndexOfAfter(a: string, c: char, b: string)
    requires c !in a
    ensures IndexOf(a + [c] + b, c) == |a|
  {
    var s := a + [c] + b;
    var i := IndexOf(s, c);
    assert s[|a|] == c;
  }

  /** `Split` is the only way to cut `s` into separator-free pieces that rejoin to `s`. */
  lemma {:induction false} SplitUnique(s: string, sep: char, parts: seq<string>)
    requires |parts| >= 1
    requires forall k :: 0 <= k < |parts| ==> sep !in parts[k]
    requires Join(parts, [sep]) == s
    ensures Split(s, sep) == parts
    decreases |parts|
  {
    if |parts| == 1 {
      assert s == parts[0];
    } else {
      var rest := Join(parts[1..], [sep]);
      assert s == parts[0] + [sep] + rest;
      var n := |parts[0]|;
      GlueParts(parts[0], sep, rest);
      IndexOfAfter(parts[0], sep, rest);
      SplitUnique(rest, sep, parts[1..]);
      assert Split(s, sep) == [s[..n]] + Split(s[n + 1..], sep);
    }
  }

  /** Without a separator, `Split` gives the whole string as its one piece. */
  lemma SplitNoSep(s: string, sep: char)
    requires sep !in s
    ensures Split(s, sep) == [s]
  {
  }

  /** The first piece of `x + sep + y` is `x` when `x` holds no separator; the rest is the split of `y`. */
  lemma SplitCons(x: string, y: string, sep: char)
    requires sep !in x
    ensures Split(x + [sep] + y, sep) == [x] + Split(y, sep)
  {
    GlueParts(x, sep, y);
    IndexOfAfter(x, sep, y);
  }

  /** Regrouping `h + c + t + c + b` around its first separator. */
  lemma RegroupAfterFirst(h: string, c: char, t: string, b: string)
    ensures h + [c] + t + [c] + b == h + [c] + (t + [c] + b)
  {
  }

  /** The list algebra of the inductive step of `SplitAppend`. */
  lemma ConsAppend<T>(whole: seq<T>, rest: seq<T>, left: seq<T>, mid: seq<T>, right: seq<T>, head: T)
    requires whole == [head] + rest && rest == mid + right && left == [head] + mid
    ensures whole == left + right
  {
  }

  /** `SplitAppend` for `a == h + sep + t`, from `SplitAppend` for `t`. */
  lemma SplitAppendStep(h: string, t: string, b: string, sep: char)
    requires sep !in h
    requires Split(t + [sep] + b, sep) == Split(t, sep) + Split(b, sep)
    ensures Split(h + [sep] + t + [sep] + b, sep) == Split(h + [sep] + t, sep) + Split(b, sep)
  {
    RegroupAfterFirst(h, sep, t, b);
    SplitCons(h, t + [sep] + b, sep);
    SplitCons(h, t, sep);
    ConsAppend(Split(h + [sep] + t + [sep] + b, sep), Split(t + [sep] + b, sep),
               Split(h + [sep] + t, sep), Split(t, sep), Split(b, sep), h);
  }

  /** Splitting `a + sep + b` splits `a` and `b` separately and keeps the pieces in order. */
  lemma {:induction false} SplitAppend(a: string, b: string, sep: char)
    ensures Split(a + [sep] + b, sep) == Split(a, sep) + Split(b, sep)
    decreases |a|
  {
    if sep !in a {
      SplitCons(a, b, sep);
      SplitNoSep(a, sep);
    } else {
      var i := IndexOf(a, sep);
      var h, t := a[..i], a[i + 1..];
      CutAt(a, i);
      assert sep !in h by {
        assert forall k :: 0 <= k < |h| ==> h[k] == a[k];
      }
      SplitAppend(t, b, sep);
      SplitAppendStep(h, t, b, sep);
    }
  }

  /** The decimal text of a natural number, as Python's `str(n)` or an f-string would print it. */
  function NatToString(n: nat): (r: string)
    ensures |r| >= 1
    ensures forall k :: 0 <= k < |r| ==> '0' <= r[k] <= '9'
    ensures n < 10 ==> r == [('0' as int + n) as char]
  {
    if n < 10 then [('0' as int + n) as char]
    else NatToString(n / 10) + NatToString(n % 10)
  }

  /** The same tail after two different texts keeps them different. */
  lemma AppendDiffers(x: string, y: string, c: string)
    requires x != y
    ensures x + c != y + c
  {
    if |x| == |y| {
      var i :| 0 <= i < |x| && x[i] != y[i];
      assert (x + c)[i] == x[i] && (y + c)[i] == y[i];
    }
  }

  /** Different numbers have different decimal texts. */
  lemma {:induction false} NatToStringInjective(m: nat, n: nat)
    requires m != n
    ensures NatToString(m) != NatToString(n)
    decreases m + n
  {
    var a, b := NatToString(m), NatToString(n);
    if m < 10 && n < 10 {
      assert a[0] != b[0];
    } else if m < 10 || n < 10 {
      assert |a| != |b|;
    } else if m % 10 != n % 10 {
      assert a[|a| - 1] == NatToString(m % 10)[0];
      assert b[|b| - 1] == NatToString(n % 10)[0];
    } else {
      NatToStringInjective(m / 10, n / 10);
      AppendDiffers(NatToString(m / 10), NatToString(n / 10), NatToString(m % 10));
    }
  }
}
