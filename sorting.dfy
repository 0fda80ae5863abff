/** List<T>.Sort with a comparison that orders elements by a string key under
    StringComparison.OrdinalIgnoreCase. The library sort is an introsort;
    the model is an insertion sort, which yields a sorted permutation as the
    library does, but fixes one order among elements whose keys are equal up
    to case, where the library promises none. */
module Sorting {
  import opened Text
  import opened Seqs

  predicate SortedBy<T>(s: seq<T>, key: T -> string) {
    forall i, j :: 0 <= i < j < |s| ==> OrdinalIgnoreCaseLeq(key(s[i]), key(s[j]))
  }

  /** Inserts `x` before the first element it does not follow. */
  function Insert<T>(x: T, s: seq<T>, key: T -> string): seq<T>
    decreases |s|
  {
    if |s| == 0 then [x]
    else if OrdinalIgnoreCaseLeq(key(x), key(s[0])) then [x] + s
    else [s[0]] + Insert(x, s[1..], key)
  }

  lemma {:induction false} InsertPermutes<T>(x: T, s: seq<T>, key: T -> string)
    ensures multiset(Insert(x, s, key)) == multiset(s) + multiset{x}
    decreases |s|
  {
    if |s| > 0 && !OrdinalIgnoreCaseLeq(key(x), key(s[0])) {
      InsertPermutes(x, s[1..], key);
      assert s == [s[0]] + s[1..];
    }
  }

  lemma {:induction false} InsertSorted<T>(x: T, s: seq<T>, key: T -> string)
    requires SortedBy(s, key)
    ensures SortedBy(Insert(x, s, key), key)
    decreases |s|
  {
    if |s| == 0 {
    } else if OrdinalIgnoreCaseLeq(key(x), key(s[0])) {
      forall j | 0 <= j < |s|
        ensures OrdinalIgnoreCaseLeq(key(x), key(s[j]))
      {
        OrdinalIgnoreCaseTotalPreorder(key(x), key(s[0]), key(s[j]));
      }
      var r := [x] + s;
      forall i, j | 0 <= i < j < |r|
        ensures OrdinalIgnoreCaseLeq(key(r[i]), key(r[j]))
      {
        if i > 0 {
          assert r[i] == s[i - 1] && r[j] == s[j - 1];
        }
      }
    } else {
      var t := s[1..];
      InsertSorted(x, t, key);
      var rest := Insert(x, t, key);
      OrdinalIgnoreCaseTotalPreorder(key(x), key(s[0]), key(s[0]));
      forall k | 0 <= k < |t|
        ensures OrdinalIgnoreCaseLeq(key(s[0]), key(t[k]))
      {
        assert t[k] == s[k + 1];
      }
      InsertBound(s[0], x, t, key);
      var r := [s[0]] + rest;
      forall i, j | 0 <= i < j < |r|
        ensures OrdinalIgnoreCaseLeq(key(r[i]), key(r[j]))
      {
        if i > 0 {
          assert r[i] == rest[i - 1] && r[j] == rest[j - 1];
        } else {
          assert r[j] == rest[j - 1];
        }
      }
    }
  }

  /** Every element of `Insert(x, s, key)` follows `y` when `x` and every
      element of `s` do. */
  lemma {:induction false} InsertBound<T>(y: T, x: T, s: seq<T>, key: T -> string)
    requires OrdinalIgnoreCaseLeq(key(y), key(x))
    requires forall k :: 0 <= k < |s| ==> OrdinalIgnoreCaseLeq(key(y), key(s[k]))
    ensures forall k :: 0 <= k < |Insert(x, s, key)| ==> OrdinalIgnoreCaseLeq(key(y), key(Insert(x, s, key)[k]))
    decreases |s|
  {
    if |s| > 0 && !OrdinalIgnoreCaseLeq(key(x), key(s[0])) {
      InsertBound(y, x, s[1..], key);
    }
  }

  /** The sorted permutation of `s`. */
  function SortByKey<T>(s: seq<T>, key: T -> string): (r: seq<T>)
    ensures SortedBy(r, key)
    ensures multiset(r) == multiset(s)
    decreases |s|
  {
    if |s| == 0 then []
    else
      var rest := SortByKey(s[1..], key);
      InsertSorted(s[0], rest, key);
      InsertPermutes(s[0], rest, key);
      assert s == [s[0]] + s[1..];
      Insert(s[0], rest, key)
  }

  // ---------------------------------------------------------------------------
  // Sorting fixes the sequence of keys

  /** The keys as OrdinalIgnoreCase sees them. */
  function UpperKeys<T>(s: seq<T>, key: T -> string): (r: seq<string>)
    ensures |r| == |s|
    ensures forall i :: 0 <= i < |s| ==> r[i] == ToUpper(key(s[i]))
  {
    seq(|s|, i requires 0 <= i < |s| => ToUpper(key(s[i])))
  }

  predicate LexSorted(s: seq<string>) {
    forall i, j :: 0 <= i < j < |s| ==> LexLeq(s[i], s[j])
  }

  /** Two sorted sequences of strings holding the same strings are equal. */
  lemma {:induction false} LexSortedUnique(a: seq<string>, b: seq<string>)
    requires LexSorted(a) && LexSorted(b) && multiset(a) == multiset(b)
    ensures a == b
    decreases |a|
  {
    if |a| == 0 {
      assert |b| == |multiset(b)| == 0;
    } else {
      assert |b| == |multiset(b)| == |a|;
      assert a[0] in multiset(b);
      var j :| 0 <= j < |b| && b[j] == a[0];
      assert b[0] in multiset(a);
      var i :| 0 <= i < |a| && a[i] == b[0];
      LexLeqReflexive(a[0]);
      LexLeqReflexive(b[0]);
      assert LexLeq(b[0], a[0]);
      assert LexLeq(a[0], b[0]);
      LexLeqAntisymmetric(a[0], b[0]);
      assert a == [a[0]] + a[1..];
      assert b == [b[0]] + b[1..];
      assert multiset(a) == multiset{a[0]} + multiset(a[1..]);
      assert multiset(b) == multiset{b[0]} + multiset(b[1..]);
      assert multiset(a[1..]) == multiset(a) - multiset{a[0]};
      assert multiset(b[1..]) == multiset(b) - multiset{b[0]};
      LexSortedUnique(a[1..], b[1..]);
    }
  }

  /** Whatever order a permutation starts in, sorting it yields the same
      sequence of keys: only elements whose keys are equal up to case can
      come out in a different order. */
  lemma SortedKeysDetermined<T>(a: seq<T>, b: seq<T>, key: T -> string)
    requires SortedBy(a, key) && SortedBy(b, key) && multiset(a) == multiset(b)
    ensures UpperKeys(a, key) == UpperKeys(b, key)
  {
    var f := (x: T) => ToUpper(key(x));
    MapSeqPermute(a, b, f);
    assert MapSeq(a, f) == UpperKeys(a, key);
    assert MapSeq(b, f) == UpperKeys(b, key);
    assert LexSorted(UpperKeys(a, key));
    assert LexSorted(UpperKeys(b, key));
    LexSortedUnique(UpperKeys(a, key), UpperKeys(b, key));
  }
}
