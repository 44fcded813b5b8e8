/** Facts about sequences that hold for any element type. */
module Seqs {
  lemma Assoc<T>(a: seq<T>, b: seq<T>, c: seq<T>)
    ensures (a + b) + c == a + (b + c)
  {}

  lemma SplitAt<T>(s: seq<T>, i: nat)
    requires i < |s|
    ensures s == s[..i] + ([s[i]] + s[i + 1..])
  {}

  /** Replacing the first element of the second part. */
  lemma UpdateAtSeam<T>(done: seq<T>, rest: seq<T>, x: T)
    requires rest != []
    ensures (done + rest)[|done|] == rest[0]
    ensures (done + rest)[|done| := x] == (done + [x]) + rest[1..]
  {}

  /** Dropping one element from the middle of a stretch that starts at 1. */
  lemma DropInside<T>(s: seq<T>, i: nat, n: nat)
    requires 1 <= i < n <= |s|
    ensures (s[..i] + s[i + 1..])[1..n - 1] == s[1..n][..i - 1] + s[1..n][i..]
    ensures (s[..i] + s[i + 1..])[n - 1..] == s[n..]
  {
    var t := s[..i] + s[i + 1..];
    assert t[..n - 1] == s[..i] + s[i + 1..n];
    assert s[1..n][..i - 1] == s[1..i] && s[1..n][i..] == s[i + 1..n];
  }

  // ---- the stable sort ---------------------------------------------------------------

  /** Insert behind the last element whose key is not greater. */
  function Insert<T>(s: seq<T>, x: T, key: T -> int): (r: seq<T>)
    ensures multiset(r) == multiset(s) + multiset{x} && |r| == |s| + 1
  {
    if s == [] || key(s[|s| - 1]) <= key(x) then s + [x]
    else
      assert s == s[..|s| - 1] + [s[|s| - 1]];
      Insert(s[..|s| - 1], x, key) + [s[|s| - 1]]
  }

  lemma SortedSnoc<T>(s: seq<T>, x: T, key: T -> int)
    requires Sorted(s, key) && forall y :: y in s ==> key(y) <= key(x)
    ensures Sorted(s + [x], key)
  {}

  lemma SameElements<T>(a: seq<T>, b: seq<T>, x: T)
    requires multiset(a) == multiset(b)
    ensures x in a <==> x in b
  {
    assert x in multiset(a) <==> x in multiset(b);
  }

  lemma {:induction false} InsertSorted<T>(s: seq<T>, x: T, key: T -> int)
    requires Sorted(s, key)
    ensures Sorted(Insert(s, x, key), key)
  {
    if s == [] || key(s[|s| - 1]) <= key(x) {
      SortedSnoc(s, x, key);
    } else {
      var init, last := s[..|s| - 1], s[|s| - 1];
      assert forall y :: y in init ==> key(y) <= key(last);
      InsertSorted(init, x, key);
      var r := Insert(init, x, key);
      forall y | y in r ensures key(y) <= key(last) {
        hide Sorted;
        assert multiset(r) == multiset(init + [x]);
        SameElements(r, init + [x], y);
      }
      hide Sorted;
      SortedSnoc(r, last, key);
    }
  }

  /** Sorting under a comparator that leaves equal elements in the order they came in. */
  function SortBy<T>(s: seq<T>, key: T -> int): (r: seq<T>)
    ensures multiset(r) == multiset(s) && |r| == |s| && Sorted(r, key)
  {
    if s == [] then []
    else
      assert s == s[..|s| - 1] + [s[|s| - 1]];
      InsertSorted(SortBy(s[..|s| - 1], key), s[|s| - 1], key);
      Insert(SortBy(s[..|s| - 1], key), s[|s| - 1], key)
  }

  predicate Sorted<T>(s: seq<T>, key: T -> int) {
    forall i, j :: 0 <= i < j < |s| ==> key(s[i]) <= key(s[j])
  }

  /** What a cut at the front of a sorted sequence takes is not above what it leaves. */
  lemma CutSorted<T>(s: seq<T>, n: nat, key: T -> int)
    requires Sorted(s, key) && n <= |s|
    ensures forall v, r :: v in s[..n] && r in s && r !in s[..n] ==> key(v) <= key(r)
  {
    forall v, r | v in s[..n] && r in s && r !in s[..n] ensures key(v) <= key(r) {
      var i :| 0 <= i < n && s[i] == v;
      var j :| 0 <= j < |s| && s[j] == r;
      assert forall k :: 0 <= k < n ==> s[k] == s[..n][k];
    }
  }

  predicate Distinct<T(==)>(s: seq<T>) {
    forall i, j :: 0 <= i < j < |s| ==> s[i] != s[j]
  }

  lemma DistinctPrefix<T>(s: seq<T>, n: nat)
    requires Distinct(s) && n <= |s|
    ensures Distinct(s[..n])
  {}

  lemma {:induction false} SingleCount<T>(s: seq<T>, x: T)
    requires Distinct(s)
    ensures multiset(s)[x] <= 1
  {
    if s != [] {
      assert s == [s[0]] + s[1..];
      SingleCount(s[1..], x);
    }
  }

  lemma DistinctSorted<T>(s: seq<T>, t: seq<T>)
    requires multiset(s) == multiset(t) && Distinct(s)
    ensures Distinct(t)
  {
    forall i, j | 0 <= i < j < |t| ensures t[i] != t[j] {
      SingleCount(s, t[i]);
      assert t == t[..j] + [t[j]] + t[j + 1..] && t[..j][i] == t[i];
    }
  }

  lemma InsertBeforeLast<T>(s: seq<T>, x: T, p: nat)
    requires s != [] && p < |s|
    ensures var init, last := s[..|s| - 1], s[|s| - 1];
            (init[..p] + [x] + init[p..]) + [last] == s[..p] + [x] + s[p..]
  {}

  lemma DropDrop<T>(s: seq<T>, k: nat)
    requires k < |s|
    ensures s[k..][1..] == s[k + 1..]
  {}
}
