/** Order-preserving selection on sequences, the shape of `Array.prototype.filter`. */
module Seqs {

  /** `a` can be obtained from `b` by deleting elements: the order of `b` is kept. */
  predicate IsSubsequence<T(==)>(a: seq<T>, b: seq<T>)
    decreases |b|
  {
    if a == [] then true
    else if b == [] then false
    else if a[0] == b[0] then IsSubsequence(a[1..], b[1..])
    else IsSubsequence(a, b[1..])
  }

  /** Dropping the first element of a subsequence leaves a subsequence. */
  lemma {:induction false} SubsequenceTail<T>(a: seq<T>, b: seq<T>)
    requires a != [] && IsSubsequence(a, b)
    ensures IsSubsequence(a[1..], b)
    decreases |b|
  {
    var c := a[1..];
    if a[0] != b[0] {
      SubsequenceTail(a, b[1..]);
    }
    // Here IsSubsequence(c, b[1..]) holds; it carries over to b.
    if c != [] && c[0] == b[0] {
      SubsequenceTail(c, b[1..]);
    }
  }

  /** Subsequences are closed under prepending the same element to the longer one. */
  lemma {:induction false} SubsequenceCons<T>(a: seq<T>, b: seq<T>, x: T)
    requires IsSubsequence(a, b)
    ensures IsSubsequence(a, [x] + b)
    decreases |b|
  {
    assert ([x] + b)[1..] == b;
    if a != [] && a[0] == x {
      SubsequenceTail(a, b);
    }
  }

  /** A subsequence holds no more copies of any value than the sequence it came from. */
  lemma {:induction false} SubsequenceMultiset<T>(a: seq<T>, b: seq<T>)
    requires IsSubsequence(a, b)
    ensures multiset(a) <= multiset(b)
    decreases |b|
  {
    if a != [] {
      assert b == [b[0]] + b[1..];
      if a[0] == b[0] {
        SubsequenceMultiset(a[1..], b[1..]);
        assert a == [a[0]] + a[1..];
      } else {
        SubsequenceMultiset(a, b[1..]);
      }
    }
  }

  /** `r` is the selection of the elements of `b` that `keep` accepts: it keeps the order of
      `b` and holds every accepted copy of every value and nothing else. */
  ghost predicate Selects<T(!new)>(r: seq<T>, b: seq<T>, keep: T -> bool) {
    && IsSubsequence(r, b)
    && forall x :: multiset(r)[x] == if keep(x) then multiset(b)[x] else 0
  }

  /** One step of a selection: after the first element of `b`, what is left of `r` is the
      same selection of the rest of `b`, and it starts with that element exactly when the
      element is kept. */
  lemma SelectionStep<T(!new)>(r: seq<T>, b: seq<T>, keep: T -> bool)
    requires b != [] && Selects(r, b, keep)
    ensures keep(b[0]) ==> r != [] && r[0] == b[0] && Selects(r[1..], b[1..], keep)
    ensures !keep(b[0]) ==> Selects(r, b[1..], keep)
  {
    var c, rest := b[0], b[1..];
    assert b == [c] + rest;
    if keep(c) {
      assert multiset(r)[c] == multiset(rest)[c] + 1;
      assert r != [];
      if r[0] != c {
        SubsequenceMultiset(r, rest);
        assert false;
      }
      assert r == [c] + r[1..];
    } else if r != [] && r[0] == c {
      assert false;
    }
  }

  /** A selection is determined by what it keeps: two subsequences of `b` holding exactly
      the kept copies of every value are equal. */
  lemma {:induction false} SelectionUnique<T(!new)>(r1: seq<T>, r2: seq<T>, b: seq<T>, keep: T -> bool)
    requires Selects(r1, b, keep) && Selects(r2, b, keep)
    ensures r1 == r2
    decreases |b|
  {
    if b == [] {
      assert r1 == [] && r2 == [];
    } else {
      SelectionStep(r1, b, keep);
      SelectionStep(r2, b, keep);
      if keep(b[0]) {
        SelectionUnique(r1[1..], r2[1..], b[1..], keep);
        assert r1 == [b[0]] + r1[1..] && r2 == [b[0]] + r2[1..];
      } else {
        SelectionUnique(r1, r2, b[1..], keep);
      }
    }
  }
}
