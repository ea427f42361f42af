/** The list operations the components build their new state from: the `filter`
  * and `map` of JavaScript arrays, with the facts about them that the handlers
  * rely on. Predicates and rewrites are passed as function values; every module
  * names them through a function (`Unequal(x)`, ...) so that the same value is
  * used wherever it is mentioned.
  */
module Seqs {

  /** `s.filter(keep)`: the elements of `s` satisfying `keep`, in order. */
  function Filter<T>(s: seq<T>, keep: T -> bool): seq<T>
  {
    if s == [] then []
    else if keep(s[0]) then [s[0]] + Filter(s[1..], keep)
    else Filter(s[1..], keep)
  }

  /** `s.map(x => p(x) ? f(x) : x)`: rewrite exactly the elements satisfying `p`. */
  function MapWhere<T>(s: seq<T>, p: T -> bool, f: T -> T): seq<T>
  {
    if s == [] then []
    else [if p(s[0]) then f(s[0]) else s[0]] + MapWhere(s[1..], p, f)
  }

  /** The predicate `y => y != x`, for removing every occurrence of `x`. */
  function Unequal<T(==)>(x: T): T -> bool
  {
    y => y != x
  }

  /** `s.filter(y => y !== x)`. */
  function RemoveAll<T(==)>(s: seq<T>, x: T): seq<T>
  {
    Filter(s, Unequal(x))
  }

  /** No element occurs twice. */
  predicate NoDup<T(==)>(s: seq<T>)
  {
    forall i, j :: 0 <= i < j < |s| ==> s[i] != s[j]
  }

  /** No two elements share a key (an id field, say). */
  predicate DistinctBy<T, K(==)>(s: seq<T>, key: T -> K)
  {
    forall i, j :: 0 <= i < j < |s| ==> key(s[i]) != key(s[j])
  }

  /** `r` is `s` with some elements left out and the rest in their original order. */
  ghost predicate IsSubsequence<T>(r: seq<T>, s: seq<T>)
    decreases |s|
  {
    if r == [] then true
    else if s == [] then false
    else (r[0] == s[0] && IsSubsequence(r[1..], s[1..])) || IsSubsequence(r, s[1..])
  }

  // ---------------------------------------------------------------- Filter

  /** The filtered list holds exactly the elements of `s` that satisfy `keep`. */
  lemma {:induction false} FilterMembers<T>(s: seq<T>, keep: T -> bool)
    ensures forall x :: x in Filter(s, keep) <==> x in s && keep(x)
  {
    if s != [] {
      FilterMembers(s[1..], keep);
      assert s == [s[0]] + s[1..];
    }
  }

  /** Filtering keeps the surviving elements in their original order. */
  lemma {:induction false} FilterIsSubsequence<T>(s: seq<T>, keep: T -> bool)
    ensures IsSubsequence(Filter(s, keep), s)
  {
    if s != [] {
      FilterIsSubsequence(s[1..], keep);
      var r := Filter(s, keep);
      if keep(s[0]) {
        assert r[0] == s[0] && r[1..] == Filter(s[1..], keep);
      }
    }
  }

  /** A kept value occurs as often after filtering as before. */
  lemma {:induction false} FilterKeepsCount<T>(s: seq<T>, keep: T -> bool, x: T)
    requires keep(x)
    ensures multiset(Filter(s, keep))[x] == multiset(s)[x]
  {
    if s != [] {
      FilterKeepsCount(s[1..], keep, x);
      assert s == [s[0]] + s[1..];
    }
  }

  /** Filtering a list in which every element is kept returns it unchanged. */
  lemma {:induction false} FilterAllKept<T>(s: seq<T>, keep: T -> bool)
    requires forall i :: 0 <= i < |s| ==> keep(s[i])
    ensures Filter(s, keep) == s
  {
    if s != [] {
      assert keep(s[0]);
      FilterAllKept(s[1..], keep);
    }
  }

  /** Filtering never lengthens a list. */
  lemma {:induction false} FilterLength<T>(s: seq<T>, keep: T -> bool)
    ensures |Filter(s, keep)| <= |s|
  {
    if s != [] {
      FilterLength(s[1..], keep);
    }
  }

  /** Filtering a list `a + b` filters `a` and `b` separately. */
  lemma {:induction false} FilterAppend<T>(a: seq<T>, b: seq<T>, keep: T -> bool)
    ensures Filter(a + b, keep) == Filter(a, keep) + Filter(b, keep)
  {
    if a == [] {
      assert a + b == b;
    } else {
      assert (a + b)[1..] == a[1..] + b;
      FilterAppend(a[1..], b, keep);
    }
  }

  /** A sublist of a list whose keys are distinct has distinct keys. */
  lemma {:induction false} SubsequenceDistinctBy<T, K>(r: seq<T>, s: seq<T>, key: T -> K)
    requires IsSubsequence(r, s) && DistinctBy(s, key)
    ensures DistinctBy(r, key)
    decreases |s|
  {
    if r != [] && s != [] {
      assert DistinctBy(s[1..], key) by {
        forall i, j | 0 <= i < j < |s[1..]| ensures key(s[1..][i]) != key(s[1..][j]) {
          assert s[1..][i] == s[i + 1] && s[1..][j] == s[j + 1];
        }
      }
      if r[0] == s[0] && IsSubsequence(r[1..], s[1..]) {
        SubsequenceDistinctBy(r[1..], s[1..], key);
        SubsequenceMembers(r[1..], s[1..]);
        forall i, j | 0 <= i < j < |r| ensures key(r[i]) != key(r[j]) {
          if i == 0 {
            assert r[j] == r[1..][j - 1];
            assert r[j] in s[1..];
            var k :| 0 <= k < |s[1..]| && s[1..][k] == r[j];
            assert s[1..][k] == s[k + 1];
          } else {
            assert r[i] == r[1..][i - 1] && r[j] == r[1..][j - 1];
          }
        }
      } else {
        SubsequenceDistinctBy(r, s[1..], key);
      }
    }
  }

  /** A sublist of a duplicate-free list is duplicate-free. */
  lemma {:induction false} SubsequenceNoDup<T>(r: seq<T>, s: seq<T>)
    requires IsSubsequence(r, s) && NoDup(s)
    ensures NoDup(r)
    decreases |s|
  {
    if r != [] && s != [] {
      assert NoDup(s[1..]) by {
        forall i, j | 0 <= i < j < |s[1..]| ensures s[1..][i] != s[1..][j] {
          assert s[1..][i] == s[i + 1] && s[1..][j] == s[j + 1];
        }
      }
      if r[0] == s[0] && IsSubsequence(r[1..], s[1..]) {
        SubsequenceNoDup(r[1..], s[1..]);
        SubsequenceMembers(r[1..], s[1..]);
        assert s[0] !in s[1..] by {
          forall k | 0 <= k < |s[1..]| ensures s[1..][k] != s[0] {
            assert s[1..][k] == s[k + 1];
          }
        }
        forall i, j | 0 <= i < j < |r| ensures r[i] != r[j] {
          if i == 0 {
            assert r[j] == r[1..][j - 1];
            assert r[j] in s[1..];
          } else {
            assert r[i] == r[1..][i - 1] && r[j] == r[1..][j - 1];
          }
        }
      } else {
        SubsequenceNoDup(r, s[1..]);
      }
    }
  }

  /** Every element of a sublist is an element of the list. */
  lemma {:induction false} SubsequenceMembers<T>(r: seq<T>, s: seq<T>)
    requires IsSubsequence(r, s)
    ensures forall x :: x in r ==> x in s
    decreases |s|
  {
    if r != [] && s != [] {
      if r[0] == s[0] && IsSubsequence(r[1..], s[1..]) {
        SubsequenceMembers(r[1..], s[1..]);
        assert r == [r[0]] + r[1..];
        assert s == [s[0]] + s[1..];
      } else {
        SubsequenceMembers(r, s[1..]);
        assert s == [s[0]] + s[1..];
      }
    }
  }

  /** Filtering a duplicate-free list leaves it duplicate-free. */
  lemma FilterNoDup<T>(s: seq<T>, keep: T -> bool)
    requires NoDup(s)
    ensures NoDup(Filter(s, keep))
  {
    FilterIsSubsequence(s, keep);
    SubsequenceNoDup(Filter(s, keep), s);
  }

  /** Filtering a list with distinct keys leaves the keys distinct. */
  lemma FilterDistinctBy<T, K>(s: seq<T>, keep: T -> bool, key: T -> K)
    requires DistinctBy(s, key)
    ensures DistinctBy(Filter(s, keep), key)
  {
    FilterIsSubsequence(s, keep);
    SubsequenceDistinctBy(Filter(s, keep), s, key);
  }

  /** Appending an element whose key is new keeps the keys distinct. */
  lemma AppendDistinctBy<T, K>(s: seq<T>, x: T, key: T -> K)
    requires DistinctBy(s, key)
    requires forall y :: y in s ==> key(y) != key(x)
    ensures DistinctBy(s + [x], key)
  {
    forall i, j | 0 <= i < j < |s + [x]| ensures key((s + [x])[i]) != key((s + [x])[j]) {
      if j == |s| {
        assert (s + [x])[i] == s[i];
      }
    }
  }

  // ---------------------------------------------------------------- RemoveAll

  /** `RemoveAll(s, x)` drops every `x`, keeps every other value as often as it
    * occurred, keeps the order of the rest, and is the identity when `x` is absent. */
  lemma RemoveAllSpec<T>(s: seq<T>, x: T)
    ensures x !in RemoveAll(s, x)
    ensures forall y :: y in RemoveAll(s, x) <==> y in s && y != x
    ensures forall y :: y != x ==> multiset(RemoveAll(s, x))[y] == multiset(s)[y]
    ensures IsSubsequence(RemoveAll(s, x), s)
    ensures x !in s ==> RemoveAll(s, x) == s
  {
    FilterMembers(s, Unequal(x));
    FilterIsSubsequence(s, Unequal(x));
    forall y | y != x ensures multiset(RemoveAll(s, x))[y] == multiset(s)[y] {
      FilterKeepsCount(s, Unequal(x), y);
    }
    if x !in s {
      FilterAllKept(s, Unequal(x));
    }
  }

  /** Appending a value that is absent and then removing it restores the list. */
  lemma AppendThenRemove<T>(s: seq<T>, x: T)
    requires x !in s
    ensures RemoveAll(s + [x], x) == s
  {
    FilterAppend(s, [x], Unequal(x));
    RemoveAllSpec(s, x);
    assert Filter([x], Unequal(x)) == [] by {
      assert [x][1..] == [];
    }
  }

  /** Appending a value that is absent keeps a list duplicate-free. */
  lemma AppendNoDup<T>(s: seq<T>, x: T)
    requires NoDup(s) && x !in s
    ensures NoDup(s + [x])
  {
    forall i, j | 0 <= i < j < |s + [x]| ensures (s + [x])[i] != (s + [x])[j] {
      if j == |s| {
        assert (s + [x])[i] == s[i];
      }
    }
  }

  // ---------------------------------------------------------------- MapWhere

  /** `MapWhere` keeps the length and rewrites position by position. */
  lemma {:induction false} MapWhereAt<T>(s: seq<T>, p: T -> bool, f: T -> T)
    ensures |MapWhere(s, p, f)| == |s|
    ensures forall i :: 0 <= i < |s| ==>
      MapWhere(s, p, f)[i] == if p(s[i]) then f(s[i]) else s[i]
  {
    if s != [] {
      MapWhereAt(s[1..], p, f);
      var r := MapWhere(s, p, f);
      forall i | 1 <= i < |s| ensures r[i] == if p(s[i]) then f(s[i]) else s[i] {
        assert r[i] == MapWhere(s[1..], p, f)[i - 1];
        assert s[i] == s[1..][i - 1];
      }
    }
  }

  /** When `f` undoes itself and keeps `p`, rewriting twice restores the list. */
  lemma MapWhereTwice<T>(s: seq<T>, p: T -> bool, f: T -> T)
    requires forall x :: p(x) ==> p(f(x)) && f(f(x)) == x
    ensures MapWhere(MapWhere(s, p, f), p, f) == s
  {
    MapWhereAt(s, p, f);
    MapWhereAt(MapWhere(s, p, f), p, f);
  }

  /** When nothing matches, rewriting leaves the list unchanged. */
  lemma MapWhereNoMatch<T>(s: seq<T>, p: T -> bool, f: T -> T)
    requires forall i :: 0 <= i < |s| ==> !p(s[i])
    ensures MapWhere(s, p, f) == s
  {
    MapWhereAt(s, p, f);
  }

  /** A rewrite that keeps every key keeps the keys distinct. */
  lemma MapWhereDistinctBy<T, K>(s: seq<T>, p: T -> bool, f: T -> T, key: T -> K)
    requires DistinctBy(s, key)
    requires forall x :: key(f(x)) == key(x)
    ensures DistinctBy(MapWhere(s, p, f), key)
  {
    MapWhereAt(s, p, f);
  }
}
