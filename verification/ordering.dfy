/**
 * Order facts about plans and scripts: an ordered sequence of steps, each
 * step classified by a predicate ("is a mount", "creates a user", ...).
 */
module Ordering {

  /** Some step of `s` satisfies `p`. */
  ghost predicate Occurs<T>(s: seq<T>, p: T -> bool) {
    exists x :: x in s && p(x)
  }

  /** No step of `s` satisfies `p`. */
  ghost predicate Never<T>(s: seq<T>, p: T -> bool) {
    forall x :: x in s ==> !p(x)
  }

  /** Every `p`-step of `s` comes strictly before every `q`-step of `s`. */
  ghost predicate AllBefore<T>(s: seq<T>, p: T -> bool, q: T -> bool) {
    forall i, j :: 0 <= i < |s| && 0 <= j < |s| && p(s[i]) && q(s[j]) ==> i < j
  }

  /** Both kinds of step occur, and every `p`-step precedes every `q`-step. */
  ghost predicate Precedes<T>(s: seq<T>, p: T -> bool, q: T -> bool) {
    Occurs(s, p) && Occurs(s, q) && AllBefore(s, p, q)
  }

  /** When `q` never happens in `x` and `p` never happens in `y`, the `p`-steps of `x + y` precede its `q`-steps. */
  lemma AllBeforeAppend<T>(x: seq<T>, y: seq<T>, p: T -> bool, q: T -> bool)
    requires Never(x, q) && Never(y, p)
    ensures AllBefore(x + y, p, q)
  {
  }

  /** The split form of `AllBeforeAppend`, with occurrences on both sides. */
  lemma PrecedesAppend<T>(x: seq<T>, y: seq<T>, p: T -> bool, q: T -> bool)
    requires Never(x, q) && Never(y, p)
    requires Occurs(x, p) && Occurs(y, q)
    ensures Precedes(x + y, p, q)
  {
    AllBeforeAppend(x, y, p, q);
  }

  /** `Precedes` chains: if `p` precedes `q` and `q` precedes `r`, then `p` precedes `r`. */
  lemma PrecedesTrans<T>(s: seq<T>, p: T -> bool, q: T -> bool, r: T -> bool)
    requires Precedes(s, p, q) && Precedes(s, q, r)
    ensures Precedes(s, p, r)
  {
    var z :| z in s && q(z);
    var m :| 0 <= m < |s| && s[m] == z;
    forall i, j | 0 <= i < |s| && 0 <= j < |s| && p(s[i]) && r(s[j])
      ensures i < j
    {
      assert i < m && m < j;
    }
  }

  /** The ways of grouping four consecutive parts of a plan. */
  lemma Regroup<T>(a: seq<T>, b: seq<T>, c: seq<T>, d: seq<T>)
    ensures a + b + c + d == a + (b + c + d)
    ensures a + b + c + d == (a + b) + (c + d)
    ensures a + b + c + d == (a + b + c) + d
  {
  }

  /** An order fact about a middle part carries over to the whole when neither kind of step occurs outside it. */
  lemma PrecedesFrame<T>(pre: seq<T>, mid: seq<T>, post: seq<T>, p: T -> bool, q: T -> bool)
    requires Precedes(mid, p, q)
    requires Never(pre, p) && Never(pre, q) && Never(post, p) && Never(post, q)
    ensures Precedes(pre + mid + post, p, q)
  {
    var s := pre + mid + post;
    forall i, j | 0 <= i < |s| && 0 <= j < |s| && p(s[i]) && q(s[j])
      ensures i < j
    {
      assert i >= |pre| && i < |pre| + |mid| && s[i] == mid[i - |pre|];
      assert j >= |pre| && j < |pre| + |mid| && s[j] == mid[j - |pre|];
    }
  }

  /** The parts laid end to end. */
  function Concat<T>(parts: seq<seq<T>>): (r: seq<T>)
    ensures forall k, x :: 0 <= k < |parts| && x in parts[k] ==> x in r
    ensures forall x :: x in r ==> exists k :: 0 <= k < |parts| && x in parts[k]
  {
    if |parts| == 0 then [] else parts[0] + Concat(parts[1..])
  }

  /** `p` happens in part `k` and in no other part. */
  ghost predicate OnlyIn<T>(parts: seq<seq<T>>, k: int, p: T -> bool) {
    && 0 <= k < |parts|
    && Occurs(parts[k], p)
    && forall m :: 0 <= m < |parts| && m != k ==> Never(parts[m], p)
  }

  /** When `p` belongs to an earlier part than `q`, every `p`-step precedes every `q`-step of the whole. */
  lemma {:induction false} PrecedesAcross<T>(parts: seq<seq<T>>, a: int, b: int, p: T -> bool, q: T -> bool)
    requires OnlyIn(parts, a, p) && OnlyIn(parts, b, q) && a < b
    ensures Precedes(Concat(parts), p, q)
  {
    var rest := parts[1..];
    assert Concat(parts) == parts[0] + Concat(rest);
    if a == 0 {
      assert Never(Concat(rest), p) by {
        forall x | x in Concat(rest) ensures !p(x) {
          var k :| 0 <= k < |rest| && x in rest[k];
          assert rest[k] == parts[k + 1];
        }
      }
      assert Occurs(Concat(rest), q) by {
        var x :| x in parts[b] && q(x);
        assert parts[b] == rest[b - 1];
      }
      assert Never(parts[0], q);
      PrecedesAppend(parts[0], Concat(rest), p, q);
    } else {
      assert OnlyIn(rest, a - 1, p) by {
        assert parts[a] == rest[a - 1];
        assert forall m :: 0 <= m < |rest| ==> rest[m] == parts[m + 1];
      }
      assert OnlyIn(rest, b - 1, q) by {
        assert parts[b] == rest[b - 1];
        assert forall m :: 0 <= m < |rest| ==> rest[m] == parts[m + 1];
      }
      PrecedesAcross(rest, a - 1, b - 1, p, q);
      assert Never(parts[0], p) && Never(parts[0], q);
      PrecedesFrame(parts[0], Concat(rest), [], p, q);
      assert parts[0] + Concat(rest) + [] == Concat(parts);
    }
  }

  /** The last element of the parts laid end to end is the last element of the last part. */
  lemma {:induction false} ConcatLast<T>(parts: seq<seq<T>>)
    requires |parts| > 0 && |parts[|parts| - 1]| > 0
    ensures |Concat(parts)| > 0
    ensures Concat(parts)[|Concat(parts)| - 1] == parts[|parts| - 1][|parts[|parts| - 1]| - 1]
  {
    if |parts| > 1 {
      ConcatLast(parts[1..]);
      assert parts[1..][|parts| - 2] == parts[|parts| - 1];
    }
  }
}
