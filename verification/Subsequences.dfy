/** Order-preserving loss: `Subseq(a, b)` says that `a` is `b` with some elements left out. */
module Subsequences {

  ghost predicate Subseq<T>(a: seq<T>, b: seq<T>)
    decreases |b|
  {
    if a == [] then true
    else if b == [] then false
    else
      var rest := b[..|b| - 1];
      Subseq(a, rest) || (a[|a| - 1] == b[|b| - 1] && Subseq(a[..|a| - 1], rest))
  }

  /** What the predicate means: strictly increasing positions in `b` that spell out `a`. */
  lemma {:induction false} SubseqPositions<T>(a: seq<T>, b: seq<T>) returns (at: seq<nat>)
    requires Subseq(a, b)
    ensures |at| == |a|
    ensures forall i :: 0 <= i < |at| ==> at[i] < |b| && a[i] == b[at[i]]
    ensures forall i, j :: 0 <= i < j < |at| ==> at[i] < at[j]
    decreases |b|
  {
    if a == [] {
      at := [];
    } else {
      var rest := b[..|b| - 1];
      if Subseq(a, rest) {
        at := SubseqPositions(a, rest);
      } else {
        at := SubseqPositions(a[..|a| - 1], rest);
        at := at + [|b| - 1];
      }
    }
  }

  lemma SubseqSkip<T>(a: seq<T>, b: seq<T>, x: T)
    requires Subseq(a, b)
    ensures Subseq(a, b + [x])
  {
    assert (b + [x])[..|b|] == b;
  }

  lemma SubseqPush<T>(a: seq<T>, b: seq<T>, x: T)
    requires Subseq(a, b)
    ensures Subseq(a + [x], b + [x])
  {
    assert (a + [x])[..|a|] == a && (b + [x])[..|b|] == b;
  }

  lemma {:induction false} SubseqRefl<T>(a: seq<T>)
    ensures Subseq(a, a)
  {
    if a != [] {
      SubseqRefl(a[..|a| - 1]);
    }
  }

  /** A subsequence is no longer than its source, and one of full length is its source. */
  lemma {:induction false} SubseqLength<T>(a: seq<T>, b: seq<T>)
    requires Subseq(a, b)
    ensures |a| <= |b|
    ensures |a| == |b| ==> a == b
    decreases |b|
  {
    if a != [] {
      var rest := b[..|b| - 1];
      if Subseq(a, rest) {
        SubseqLength(a, rest);
      } else {
        SubseqLength(a[..|a| - 1], rest);
      }
    }
  }

  lemma {:induction false} SubseqTrans<T>(a: seq<T>, b: seq<T>, c: seq<T>)
    requires Subseq(a, b) && Subseq(b, c)
    ensures Subseq(a, c)
    decreases |c|, |b|
  {
    if a != [] {
      var restB, restC := b[..|b| - 1], c[..|c| - 1];
      if Subseq(b, restC) {
        SubseqTrans(a, b, restC);
      } else if Subseq(a, restB) {
        SubseqTrans(a, restB, restC);
      } else {
        SubseqTrans(a[..|a| - 1], restB, restC);
      }
    }
  }

  lemma {:induction false} SubseqConcat<T>(a: seq<T>, b: seq<T>, c: seq<T>, d: seq<T>)
    requires Subseq(a, b) && Subseq(c, d)
    ensures Subseq(a + c, b + d)
    decreases |d|
  {
    if d == [] {
      assert a + c == a && b + d == b;
    } else {
      var rest, x := d[..|d| - 1], d[|d| - 1];
      assert b + d == (b + rest) + [x];
      if Subseq(c, rest) {
        SubseqConcat(a, b, c, rest);
        SubseqSkip(a + c, b + rest, x);
      } else {
        var c' := c[..|c| - 1];
        SubseqConcat(a, b, c', rest);
        SubseqPush(a + c', b + rest, x);
        assert a + c == (a + c') + [x];
      }
    }
  }

  /** Leaving out one element of a subsequence leaves a subsequence. */
  lemma SubseqDrop<T>(a: seq<T>, x: T, c: seq<T>, b: seq<T>)
    requires Subseq(a + [x] + c, b)
    ensures Subseq(a + c, b)
  {
    SubseqRefl(a);
    SubseqRefl(c);
    SubseqSkip(a, a, x);
    SubseqConcat(a, a + [x], c, c);
    SubseqTrans(a + c, a + [x] + c, b);
  }

  lemma SubseqPrefix<T>(a: seq<T>, c: seq<T>, b: seq<T>)
    requires Subseq(a + c, b)
    ensures Subseq(a, b)
  {
    SubseqRefl(a);
    SubseqConcat(a, a, [], c);
    assert a + [] == a;
    SubseqTrans(a, a + c, b);
  }
}
