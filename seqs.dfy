/** Sequence folds shared by the core: the pointwise image of a list (a
    Select), and the concatenation of per-element lists (a SelectMany, or a
    sequence of AddRange calls), with the facts that they distribute over
    concatenation and respect permutation, and the last position that
    satisfies a predicate. */
module Seqs {
  import opened Wrappers

  /** The pointwise image of a sequence. */
  function MapSeq<T, U>(s: seq<T>, f: T -> U): (r: seq<U>)
    ensures |r| == |s|
    ensures forall i :: 0 <= i < |s| ==> r[i] == f(s[i])
  {
    seq(|s|, i requires 0 <= i < |s| => f(s[i]))
  }

  lemma MapSeqConcat<T, U>(a: seq<T>, b: seq<T>, f: T -> U)
    ensures MapSeq(a + b, f) == MapSeq(a, f) + MapSeq(b, f)
  {
  }

  /** Sequences that are permutations of each other have images that are
      permutations of each other. */
  lemma {:induction false} MapSeqPermute<T, U>(a: seq<T>, b: seq<T>, f: T -> U)
    requires multiset(a) == multiset(b)
    ensures multiset(MapSeq(a, f)) == multiset(MapSeq(b, f))
    decreases |a|
  {
    if |a| == 0 {
      assert |b| == |multiset(b)| == 0;
    } else {
      var x := a[0];
      assert x in multiset(b);
      var j :| 0 <= j < |b| && b[j] == x;
      var b' := b[..j] + b[j + 1..];
      assert b == b[..j] + [x] + b[j + 1..];
      assert a == [x] + a[1..];
      assert multiset(a) == multiset{x} + multiset(a[1..]);
      assert multiset(b) == multiset(b[..j]) + multiset{x} + multiset(b[j + 1..]);
      assert multiset(b') == multiset(b[..j]) + multiset(b[j + 1..]);
      assert multiset(a[1..]) == multiset(a) - multiset{x};
      assert multiset(b') == multiset(b) - multiset{x};
      MapSeqPermute(a[1..], b', f);
      MapSeqConcat([x], a[1..], f);
      MapSeqConcat(b[..j], b[j + 1..], f);
      MapSeqConcat(b[..j] + [x], b[j + 1..], f);
      MapSeqConcat(b[..j], [x], f);
    }
  }

  /** The lists `f(s[0])`, ..., `f(s[|s| - 1])` one after the other. */
  function FlatMap<T, U>(s: seq<T>, f: T -> seq<U>): seq<U>
    decreases |s|
  {
    if |s| == 0 then [] else FlatMap(s[..|s| - 1], f) + f(s[|s| - 1])
  }

  lemma {:induction false} FlatMapConcat<T, U>(a: seq<T>, b: seq<T>, f: T -> seq<U>)
    ensures FlatMap(a + b, f) == FlatMap(a, f) + FlatMap(b, f)
    decreases |b|
  {
    if |b| == 0 {
      assert a + b == a;
    } else {
      var b' := b[..|b| - 1];
      FlatMapConcat(a, b', f);
      assert (a + b)[..|a + b| - 1] == a + b';
      assert (a + b)[|a + b| - 1] == b[|b| - 1];
    }
  }

  lemma FlatMapSingle<T, U>(x: T, f: T -> seq<U>)
    ensures FlatMap([x], f) == f(x)
  {
    assert [x][..0] == [];
  }

  /** The concatenation holds the same elements whatever order the lists
      come in. */
  lemma {:induction false} FlatMapPermute<T, U>(a: seq<T>, b: seq<T>, f: T -> seq<U>)
    requires multiset(a) == multiset(b)
    ensures multiset(FlatMap(a, f)) == multiset(FlatMap(b, f))
    decreases |a|
  {
    if |a| == 0 {
      assert |b| == |multiset(b)| == 0;
    } else {
      var x := a[0];
      assert x in multiset(b);
      var j :| 0 <= j < |b| && b[j] == x;
      var b1, b2 := b[..j], b[j + 1..];
      assert b == b1 + [x] + b2;
      assert a == [x] + a[1..];
      assert multiset(a) == multiset{x} + multiset(a[1..]);
      assert multiset(b) == multiset(b1) + multiset{x} + multiset(b2);
      assert multiset(b1 + b2) == multiset(b1) + multiset(b2);
      assert multiset(a[1..]) == multiset(a) - multiset{x};
      assert multiset(b1 + b2) == multiset(b) - multiset{x};
      FlatMapPermute(a[1..], b1 + b2, f);
      FlatMapSingle(x, f);
      FlatMapConcat([x], a[1..], f);
      FlatMapConcat(b1 + [x], b2, f);
      FlatMapConcat(b1, [x], f);
      FlatMapConcat(b1, b2, f);
    }
  }

  /** Every element of the concatenation comes from the list of some
      element, and every such element is in it. */
  lemma {:induction false} FlatMapMembers<T, U>(s: seq<T>, f: T -> seq<U>)
    ensures forall u :: u in FlatMap(s, f) <==> exists x :: x in s && u in f(x)
    decreases |s|
  {
    if |s| > 0 {
      var init := s[..|s| - 1];
      FlatMapMembers(init, f);
      assert forall x :: x in s <==> x in init || x == s[|s| - 1];
    }
  }

  /** The position of the last element of `s` that satisfies `P`. */
  function LastIndex<T>(s: seq<T>, P: T -> bool): (r: Option<nat>)
    ensures r.Some? ==> r.value < |s| && P(s[r.value])
    decreases |s|
  {
    if |s| == 0 then None
    else if P(s[|s| - 1]) then Some(|s| - 1)
    else LastIndex(s[..|s| - 1], P)
  }

  /** No later element satisfies `P`, and there is no such position
      exactly when no element satisfies `P`. */
  lemma {:induction false} LastIndexIsLast<T>(s: seq<T>, P: T -> bool)
    ensures LastIndex(s, P).Some? ==> forall i :: LastIndex(s, P).value < i < |s| ==> !P(s[i])
    ensures LastIndex(s, P).None? <==> forall i :: 0 <= i < |s| ==> !P(s[i])
    decreases |s|
  {
    if |s| > 0 && !P(s[|s| - 1]) {
      var init := s[..|s| - 1];
      LastIndexIsLast(init, P);
      assert forall i :: 0 <= i < |init| ==> s[i] == init[i];
    }
  }
}
