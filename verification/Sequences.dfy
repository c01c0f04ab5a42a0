/** Flattening of lists of byte strings, used wherever requests or messages are concatenated. */
module Sequences {

  function Concat<T>(parts: seq<seq<T>>): (whole: seq<T>) {
    if parts == [] then [] else parts[0] + Concat(parts[1..])
  }

  lemma {:induction false} ConcatAppend<T>(a: seq<seq<T>>, b: seq<seq<T>>)
    ensures Concat(a + b) == Concat(a) + Concat(b)
  {
    if a == [] {
      assert a + b == b;
    } else {
      ConcatAppend(a[1..], b);
      ConsAppend(a, b);
      AppendAssoc(a[0], Concat(a[1..]), Concat(b));
    }
  }

  lemma ConcatSnoc<T>(a: seq<seq<T>>, last: seq<T>)
    ensures Concat(a + [last]) == Concat(a) + last
  {
    ConcatAppend(a, [last]);
    assert Concat([last]) == last;
  }

  function Min(a: nat, b: nat): nat {
    if a <= b then a else b
  }

  /** The elements before the first occurrence of stop, as for a NUL in a C string. */
  function Before<T(==)>(s: seq<T>, stop: T): (r: seq<T>)
    ensures r <= s
    ensures stop !in r
    ensures |r| < |s| ==> s[|r|] == stop
  {
    if s == [] || s[0] == stop then [] else [s[0]] + Before(s[1..], stop)
  }

  lemma {:induction false} BeforeIs<T>(s: seq<T>, stop: T, r: seq<T>)
    requires r <= s && stop !in r
    requires |r| < |s| ==> s[|r|] == stop
    ensures Before(s, stop) == r
  {
    if r != [] {
      assert s[0] == r[0];
      BeforeIs(s[1..], stop, r[1..]);
      assert r == [r[0]] + r[1..];
    }
  }

  // Facts about concatenation that larger proofs cite instead of rediscovering them.

  lemma AppendAssoc<T>(a: seq<T>, b: seq<T>, c: seq<T>)
    ensures (a + b) + c == a + (b + c)
  {
  }

  lemma ConsAppend<T>(a: seq<T>, b: seq<T>)
    requires a != []
    ensures a + b != [] && (a + b)[0] == a[0] && (a + b)[1..] == a[1..] + b
  {
  }

  lemma CutAppend<T>(a: seq<T>, b: seq<T>, n: nat)
    requires n <= |a|
    ensures (a + b)[..n] == a[..n]
    ensures (a + b)[n..] == a[n..] + b
  {
  }

  lemma CutWhole<T>(a: seq<T>, b: seq<T>)
    ensures (a + b)[..|a|] == a
    ensures (a + b)[|a|..] == b
  {
  }

  /** Moving elements from the front of b to the back of a. */
  lemma Regroup<T>(a: seq<T>, b: seq<T>, n: nat)
    requires n <= |b|
    ensures (a + b[..n]) + b[n..] == a + b
  {
  }

  lemma EmptyUnit<T>(a: seq<T>)
    ensures a + [] == a && [] + a == a
  {
  }

  lemma TakeTake<T>(s: seq<T>, n: nat, k: nat)
    requires k <= n <= |s|
    ensures s[..n][..k] == s[..k]
  {
  }

  lemma CutTwice<T>(s: seq<T>, from: nat, n: nat)
    requires from + n <= |s|
    ensures s[from..][..n] == s[from..from + n]
    ensures s[from..][n..] == s[from + n..]
  {
  }

  lemma WindowTake<T>(s: seq<T>, from: nat, to: nat, n: nat)
    requires from + n <= to <= |s|
    ensures s[from..to][..n] == s[from..from + n]
  {
  }

  lemma DropWindow<T>(s: seq<T>, from: nat, to: nat, n: nat)
    requires from + n <= to <= |s|
    ensures s[from..to][n..] == s[from + n..to]
  {
  }

  lemma DropSplit<T>(s: seq<T>, from: nat, to: nat)
    requires from <= to <= |s|
    ensures s[from..] == s[from..to] + s[to..]
  {
  }

  /** A window that ends where new elements are written grows by exactly those. */
  lemma WindowGrows<T>(before: seq<T>, after: seq<T>, from: nat, at: nat, added: seq<T>)
    requires from <= at && |before| == |after| && at + |added| <= |after|
    requires after[..at] == before[..at] && after[at..at + |added|] == added
    ensures after[from..at + |added|] == before[from..at] + added
  {
    assert after[from..at + |added|] == after[from..at] + after[at..at + |added|];
    assert after[from..at] == after[..at][from..] == before[..at][from..] == before[from..at];
  }

  ghost predicate Distinct<T>(s: seq<T>) {
    forall i, j :: 0 <= i < j < |s| ==> s[i] != s[j]
  }

  lemma DistinctParts<T>(s: seq<T>, last: T)
    requires Distinct(s)
    ensures s != [] ==> Distinct(s[1..]) && s[0] !in s[1..]
    ensures last !in s ==> Distinct(s + [last])
  {
  }

  /** Reading back the four fields of a record. */
  lemma FourFields<T>(a: seq<T>, b: seq<T>, c: seq<T>, d: seq<T>)
    ensures (a + b + c + d)[..|a|] == a
    ensures (a + b + c + d)[|a|..|a| + |b|] == b
    ensures (a + b + c + d)[|a| + |b|..|a| + |b| + |c|] == c
    ensures (a + b + c + d)[|a| + |b| + |c|..|a| + |b| + |c| + |d|] == d
  {
  }
}
