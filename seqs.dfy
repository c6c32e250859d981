/** Facts about sequences shared by the runners: concatenation, subsequences and de-duplication. */
module Seqs {

  /** The concatenation, in order, of a sequence of sequences. */
  function Concat<T>(ss: seq<seq<T>>): seq<T>
  {
    if ss == [] then [] else Concat(ss[..|ss| - 1]) + ss[|ss| - 1]
  }

  /** The sum of the lengths of a sequence of sequences. */
  function SumLengths<T>(ss: seq<seq<T>>): nat
  {
    if ss == [] then 0 else SumLengths(ss[..|ss| - 1]) + |ss[|ss| - 1]|
  }

  /** `f` applied to every element, in order (JavaScript's `Array.prototype.map`). */
  function MapSeq<A, B>(f: A -> B, s: seq<A>): (r: seq<B>)
    ensures |r| == |s|
    ensures forall i :: 0 <= i < |s| ==> r[i] == f(s[i])
  {
    seq(|s|, i requires 0 <= i < |s| => f(s[i]))
  }

  lemma {:induction false} ConcatLength<T>(ss: seq<seq<T>>)
    ensures |Concat(ss)| == SumLengths(ss)
  {
    if ss != [] {
      ConcatLength(ss[..|ss| - 1]);
    }
  }

  /** Sequences of sequences with the same part lengths have the same total length. */
  lemma {:induction false} SumLengthsPointwise<A, B>(a: seq<seq<A>>, b: seq<seq<B>>)
    requires |a| == |b| && forall i :: 0 <= i < |a| ==> |a[i]| == |b[i]|
    ensures SumLengths(a) == SumLengths(b)
  {
    if a != [] {
      var n := |a| - 1;
      SumLengthsPointwise(a[..n], b[..n]);
    }
  }

  /** An element is in the concatenation exactly when it is in one of the parts. */
  lemma {:induction false} ConcatMember<T>(ss: seq<seq<T>>, x: T)
    ensures x in Concat(ss) <==> exists i :: 0 <= i < |ss| && x in ss[i]
  {
    if ss != [] {
      var n := |ss| - 1;
      ConcatMember(ss[..n], x);
      assert forall i :: 0 <= i < n ==> ss[..n][i] == ss[i];
    }
  }

  /** Element `j` of part `i` sits in the concatenation after all earlier parts. */
  lemma {:induction false} ConcatIndex<T>(ss: seq<seq<T>>, i: nat, j: nat)
    requires i < |ss| && j < |ss[i]|
    ensures SumLengths(ss[..i]) + j < |Concat(ss)|
    ensures Concat(ss)[SumLengths(ss[..i]) + j] == ss[i][j]
  {
    var n := |ss| - 1;
    ConcatLength(ss[..n]);
    ConcatLength(ss);
    if i < n {
      ConcatIndex(ss[..n], i, j);
      assert ss[..n][..i] == ss[..i];
    } else {
      assert ss[..i] == ss[..n];
    }
  }

  /** `a` is obtained from `b` by deleting elements, keeping the order of the rest. */
  predicate IsSubsequence<T(==)>(a: seq<T>, b: seq<T>)
    decreases |b|
  {
    if a == [] then true
    else if b == [] then false
    else if a[|a| - 1] == b[|b| - 1] then IsSubsequence(a[..|a| - 1], b[..|b| - 1])
    else IsSubsequence(a, b[..|b| - 1])
  }

  /** A subsequence stays one when the longer sequence grows. */
  lemma {:induction false} SubsequenceWeaken<T>(a: seq<T>, b: seq<T>, x: T)
    requires IsSubsequence(a, b)
    ensures IsSubsequence(a, b + [x])
    decreases |b|, 1
  {
    if a != [] && a[|a| - 1] == x {
      SubsequenceDropLast(a, b);
      assert (b + [x])[..|b|] == b;
    } else {
      assert (b + [x])[..|b|] == b;
    }
  }

  /** Dropping the last element of a subsequence leaves a subsequence. */
  lemma {:induction false} SubsequenceDropLast<T>(a: seq<T>, b: seq<T>)
    requires a != [] && IsSubsequence(a, b)
    ensures IsSubsequence(a[..|a| - 1], b)
    decreases |b|, 0
  {
    var b' := b[..|b| - 1];
    assert b == b' + [b[|b| - 1]];
    if a[|a| - 1] == b[|b| - 1] {
      SubsequenceWeaken(a[..|a| - 1], b', b[|b| - 1]);
    } else {
      SubsequenceDropLast(a, b');
      SubsequenceWeaken(a[..|a| - 1], b', b[|b| - 1]);
    }
  }

  /** Appending the same element to both sides keeps a subsequence. */
  lemma SubsequenceExtend<T>(a: seq<T>, b: seq<T>, x: T)
    requires IsSubsequence(a, b)
    ensures IsSubsequence(a + [x], b + [x])
  {
    assert (a + [x])[..|a|] == a;
    assert (b + [x])[..|b|] == b;
  }

  /** Every element of a subsequence is an element of the longer sequence. */
  lemma {:induction false} SubsequenceMembers<T>(a: seq<T>, b: seq<T>)
    requires IsSubsequence(a, b)
    ensures |a| <= |b|
    ensures forall x :: x in a ==> x in b
    decreases |b|
  {
    if a != [] {
      var b' := b[..|b| - 1];
      if a[|a| - 1] == b[|b| - 1] {
        SubsequenceMembers(a[..|a| - 1], b');
        assert a == a[..|a| - 1] + [a[|a| - 1]];
        assert b == b' + [b[|b| - 1]];
      } else {
        SubsequenceMembers(a, b');
        assert b == b' + [b[|b| - 1]];
      }
    }
  }

  /** No element occurs twice. */
  predicate NoDup<T(==)>(s: seq<T>)
  {
    forall i, j :: 0 <= i < j < |s| ==> s[i] != s[j]
  }

  /**
   * The elements of `s` without repetitions, each kept at its first occurrence:
   * the value of `Array.from(new Set(s))`.
   */
  function Dedup<T(==)>(s: seq<T>): (d: seq<T>)
    ensures NoDup(d)
    ensures forall i :: 0 <= i < |d| ==> d[i] in s
    ensures forall i :: 0 <= i < |s| ==> s[i] in d
  {
    if s == [] then []
    else
      var d := Dedup(s[..|s| - 1]);
      assert forall i :: 0 <= i < |s| - 1 ==> s[..|s| - 1][i] == s[i];
      if s[|s| - 1] in d then d else d + [s[|s| - 1]]
  }

  /** Elements of `d` come in the order in which they first occur in `s`. */
  predicate InFirstOccurrenceOrder<T(==)>(d: seq<T>, s: seq<T>)
  {
    forall i, j, k :: 0 <= i < j < |d| && 0 <= k <= |s| && d[j] in s[..k] ==> d[i] in s[..k]
  }

  /** De-duplication keeps the order of first occurrences and deletes only repetitions. */
  lemma {:induction false} DedupOrder<T>(s: seq<T>)
    ensures IsSubsequence(Dedup(s), s)
    ensures InFirstOccurrenceOrder(Dedup(s), s)
  {
    if s != [] {
      var n := |s| - 1;
      var p, y := s[..n], s[n];
      assert s == p + [y];
      DedupOrder(p);
      var d := Dedup(p);
      if y in d {
        SubsequenceWeaken(d, p, y);
        forall i, j, k | 0 <= i < j < |d| && 0 <= k <= |s| && d[j] in s[..k]
          ensures d[i] in s[..k]
        {
          if k <= n {
            assert s[..k] == p[..k];
          } else {
            assert s[..k] == s;
            assert d[i] in p;
          }
        }
      } else {
        SubsequenceExtend(d, p, y);
        var d' := d + [y];
        forall i, j, k | 0 <= i < j < |d'| && 0 <= k <= |s| && d'[j] in s[..k]
          ensures d'[i] in s[..k]
        {
          if k <= n {
            assert s[..k] == p[..k];
            if j == |d| {
              assert false;
            }
          } else {
            assert s[..k] == s;
            assert d[i] in p;
          }
        }
      }
    }
  }
}
