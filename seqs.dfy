/** Generic facts about sequences used by the catalog views: flattening a
    sequence of sequences (what rendering a nested `map` does) and the
    order-preserving subsequence relation (what `filter` produces). */
module Seqs {

  /** Concatenation of all inner sequences, outer order first, then inner order. */
  function Flatten<T>(ss: seq<seq<T>>): seq<T>
  {
    if ss == [] then [] else ss[0] + Flatten(ss[1..])
  }

  /** Sum of the lengths of the inner sequences. */
  function SumLengths<T>(ss: seq<seq<T>>): nat
  {
    if ss == [] then 0 else |ss[0]| + SumLengths(ss[1..])
  }

  lemma {:induction false} FlattenLength<T>(ss: seq<seq<T>>)
    ensures |Flatten(ss)| == SumLengths(ss)
  {
    if ss != [] {
      FlattenLength(ss[1..]);
    }
  }

  lemma {:induction false} FlattenAppend<T>(a: seq<seq<T>>, b: seq<seq<T>>)
    ensures Flatten(a + b) == Flatten(a) + Flatten(b)
  {
    if a == [] {
      assert a + b == b;
    } else {
      assert (a + b)[1..] == a[1..] + b;
      FlattenAppend(a[1..], b);
    }
  }

  /** An element occurs in the flattening exactly when it occurs in one of the inner sequences. */
  lemma {:induction false} FlattenMember<T>(ss: seq<seq<T>>, x: T)
    ensures x in Flatten(ss) <==> exists j, i :: 0 <= j < |ss| && 0 <= i < |ss[j]| && ss[j][i] == x
  {
    if ss != [] {
      FlattenMember(ss[1..], x);
      if x in Flatten(ss) {
        if x in ss[0] {
          var i :| 0 <= i < |ss[0]| && ss[0][i] == x;
          assert ss[0][i] == x;
        } else {
          assert x in Flatten(ss[1..]);
          var j, i :| 0 <= j < |ss[1..]| && 0 <= i < |ss[1..][j]| && ss[1..][j][i] == x;
          assert ss[j + 1][i] == x;
        }
      }
      if exists j, i :: 0 <= j < |ss| && 0 <= i < |ss[j]| && ss[j][i] == x {
        var j, i :| 0 <= j < |ss| && 0 <= i < |ss[j]| && ss[j][i] == x;
        if j == 0 {
          assert x in ss[0];
        } else {
          assert ss[1..][j - 1][i] == x;
        }
      }
    }
  }

  lemma MultisetOfCons<T>(s: seq<T>)
    requires s != []
    ensures multiset(s) == multiset{s[0]} + multiset(s[1..])
  {
    assert s == [s[0]] + s[1..];
  }

  /** `r` is obtained from `s` by deleting elements, keeping the order of the rest. */
  ghost predicate IsSubsequence<T>(r: seq<T>, s: seq<T>)
    decreases |s|
  {
    r == [] ||
    (s != [] &&
     ((r[0] == s[0] && IsSubsequence(r[1..], s[1..])) || IsSubsequence(r, s[1..])))
  }
}
