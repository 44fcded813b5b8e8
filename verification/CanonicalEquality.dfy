/** Two JSON values have the same canonical text exactly when they are equal up to key order,
    and what is hashed can be taken apart again. */
module CanonicalEquality {
  import opened CanonicalJson
  import Seqs

  // ---- sorting by key is canonical ---------------------------------------------------

  lemma {:induction false} LessIrreflexive(a: Chars)
    ensures !Less(a, a)
    decreases |a|
  {
    if a != [] {
      LessIrreflexive(a[1..]);
    }
  }

  lemma {:induction false} LessTransitive(a: Chars, b: Chars, c: Chars)
    requires Less(a, b) && Less(b, c)
    ensures Less(a, c)
    decreases |a|
  {
    if a != [] && a[0] == b[0] == c[0] {
      LessTransitive(a[1..], b[1..], c[1..]);
    }
  }

  lemma {:induction false} LessTotal(a: Chars, b: Chars)
    ensures a == b || Less(a, b) || Less(b, a)
    decreases |a|
  {
    if a != [] && b != [] && a[0] == b[0] {
      LessTotal(a[1..], b[1..]);
      assert a == [a[0]] + a[1..] && b == [b[0]] + b[1..];
    }
  }

  predicate StrictlySorted(es: seq<Entry>) {
    forall i, k :: 0 <= i < k < |es| ==> Less(es[i].key, es[k].key)
  }

  lemma {:induction false} InsertElements(e: Entry, es: seq<Entry>)
    ensures forall x :: x in Insert(e, es) <==> x == e || x in es
    decreases |es|
  {
    hide Less;
    if es != [] && !Less(e.key, es[0].key) {
      InsertElements(e, es[1..]);
      assert es == [es[0]] + es[1..];
    }
  }

  lemma {:induction false} SortedElements(es: seq<Entry>)
    ensures forall x :: x in Sorted(es) <==> x in es
    decreases |es|
  {
    if es != [] {
      SortedElements(es[1..]);
      InsertElements(es[0], Sorted(es[1..]));
      assert es == [es[0]] + es[1..];
    }
  }

  lemma {:induction false} InsertSorted(e: Entry, es: seq<Entry>)
    requires StrictlySorted(es) && forall i :: 0 <= i < |es| ==> es[i].key != e.key
    ensures StrictlySorted(Insert(e, es))
    decreases |es|
  {
    if es == [] {
    } else if Less(e.key, es[0].key) {
      hide Less;
      var r := Insert(e, es);
      forall i, k | 0 <= i < k < |r| ensures Less(r[i].key, r[k].key) {
        if i == 0 && k > 1 {
          LessTransitive(e.key, es[0].key, es[k - 1].key);
        }
      }
    } else {
      LessTotal(e.key, es[0].key);
      hide Less;
      InsertSorted(e, es[1..]);
      InsertElements(e, es[1..]);
      var rest := Insert(e, es[1..]);
      var r := [es[0]] + rest;
      forall i, k | 0 <= i < k < |r| ensures Less(r[i].key, r[k].key) {
        assert r[k] == rest[k - 1] && rest[k - 1] in rest;
      }
    }
  }

  lemma {:induction false} SortedIsSorted(es: seq<Entry>)
    requires DistinctKeys(es)
    ensures StrictlySorted(Sorted(es))
    decreases |es|
  {
    hide Less;
    if es != [] {
      SortedIsSorted(es[1..]);
      SortedElements(es[1..]);
      var rest := Sorted(es[1..]);
      forall i | 0 <= i < |rest| ensures rest[i].key != es[0].key {
        assert rest[i] in es[1..];
      }
      InsertSorted(es[0], rest);
    }
  }

  ghost predicate SameElements(a: seq<Entry>, b: seq<Entry>) {
    forall x :: x in a <==> x in b
  }

  lemma HeadIsLeast(a: seq<Entry>, b: seq<Entry>)
    requires StrictlySorted(a) && StrictlySorted(b) && SameElements(a, b) && a != []
    ensures b != [] && a[0] == b[0]
  {
    hide Less;
    assert a[0] in b;
    assert b[0] in a;
    var i :| 0 <= i < |a| && a[i] == b[0];
    var k :| 0 <= k < |b| && b[k] == a[0];
    if i > 0 && k > 0 {
      LessTransitive(a[0].key, b[0].key, a[0].key);
      LessIrreflexive(a[0].key);
    }
  }

  lemma TailLacksHead(a: seq<Entry>)
    requires StrictlySorted(a) && a != []
    ensures a[0] !in a[1..] && StrictlySorted(a[1..])
  {
    hide Less;
    if a[0] in a[1..] {
      var i :| 0 <= i < |a| - 1 && a[1..][i] == a[0];
      LessIrreflexive(a[0].key);
    }
  }

  lemma BothEmpty(a: seq<Entry>, b: seq<Entry>)
    requires SameElements(a, b)
    ensures a == [] <==> b == []
  {
    if a != [] {
      assert a[0] in b;
    }
    if b != [] {
      assert b[0] in a;
    }
  }

  lemma {:induction false} SortedUnique(a: seq<Entry>, b: seq<Entry>)
    requires StrictlySorted(a) && StrictlySorted(b) && SameElements(a, b)
    ensures a == b
    decreases |a|
  {
    hide Less;
    BothEmpty(a, b);
    if a != [] {
      HeadIsLeast(a, b);
      TailLacksHead(a);
      TailLacksHead(b);
      assert a == [a[0]] + a[1..] && b == [b[0]] + b[1..];
      forall x ensures x in a[1..] <==> x in b[1..] {
        assert x in a <==> x == a[0] || x in a[1..];
        assert x in b <==> x == a[0] || x in b[1..];
      }
      SortedUnique(a[1..], b[1..]);
    }
  }

  lemma {:induction false} InsertIndexElements(e: Entry, es: seq<Entry>)
    ensures forall x :: x in InsertIndex(e, es) <==> x == e || x in es
    decreases |es|
  {
    hide Digits;
    if es != [] && Digits(e.key) >= Digits(es[0].key) {
      InsertIndexElements(e, es[1..]);
      assert es == [es[0]] + es[1..];
    }
  }

  lemma {:induction false} OwnOrderElements(es: seq<Entry>)
    ensures forall x :: x in Indices(es) <==> x in es && IsIndex(x.key)
    ensures forall x :: x in Names(es) <==> x in es && !IsIndex(x.key)
    ensures SameElements(OwnOrder(es), es)
    decreases |es|
  {
    hide IsIndex, Digits;
    if es != [] {
      OwnOrderElements(es[1..]);
      InsertIndexElements(es[0], Indices(es[1..]));
      assert es == [es[0]] + es[1..];
    }
  }

  /** Enumerating sorted keys neither loses nor invents an entry... */
  lemma OrderElements(es: seq<Entry>)
    ensures SameElements(OwnOrder(Sorted(es)), es)
  {
    hide OwnOrder;
    SortedElements(es);
    OwnOrderElements(Sorted(es));
  }

  /** ...and depends only on which entries there are. */
  lemma OrderCanonical(es: seq<Entry>, fs: seq<Entry>)
    requires DistinctKeys(es) && DistinctKeys(fs) && SameElements(es, fs)
    ensures OwnOrder(Sorted(es)) == OwnOrder(Sorted(fs))
  {
    hide OwnOrder;
    SortedIsSorted(es);
    SortedIsSorted(fs);
    SortedElements(es);
    SortedElements(fs);
    SortedUnique(Sorted(es), Sorted(fs));
  }

  // ---- deep sorting -------------------------------------------------------------------

  /** x is the copy that the i-th entry leaves. */
  predicate CopyAt(es: seq<Entry>, i: nat, x: Entry) {
    i < |es| && es[i].key != PROTO && x == Entry(es[i].key, SortDeep(es[i].value))
  }

  ghost predicate Copied(es: seq<Entry>, x: Entry) {
    exists i :: CopyAt(es, i, x)
  }

  lemma CopiedHead(es: seq<Entry>, x: Entry)
    requires es != []
    ensures Copied(es, x) <==> CopyAt(es, 0, x) || Copied(es[1..], x)
  {
    hide SortDeep;
    if Copied(es, x) {
      var i: nat :| CopyAt(es, i, x);
      assert i > 0 ==> CopyAt(es[1..], i - 1, x);
    }
    if Copied(es[1..], x) {
      var i: nat :| CopyAt(es[1..], i, x);
      assert CopyAt(es, i + 1, x);
    }
  }

  lemma {:induction false} SortValuesAt(es: seq<Entry>)
    ensures forall x :: x in SortValues(es) <==> Copied(es, x)
    decreases |es|
  {
    hide SortDeep;
    if es != [] {
      SortValuesAt(es[1..]);
      hide Copied;
      forall x ensures x in SortValues(es) <==> Copied(es, x) {
        CopiedHead(es, x);
      }
    }
  }

  lemma {:induction false} SortItemsAt(xs: seq<Json>)
    ensures forall i :: 0 <= i < |xs| ==> SortItems(xs)[i] == SortDeep(xs[i])
    decreases |xs|
  {
    hide SortDeep;
    if xs != [] {
      SortItemsAt(xs[1..]);
    }
  }

  lemma {:induction false} SortDeepPlain(j: Json)
    requires Valid(j)
    ensures Plain(SortDeep(j))
    decreases j
  {
    match j
    case Arr(xs) =>
      SortItemsAt(xs);
      hide SortItems;
      forall i | 0 <= i < |xs| ensures Plain(SortItems(xs)[i]) {
        SortDeepPlain(xs[i]);
      }
    case Obj(es) =>
      var vs := SortValues(es);
      var r := OwnOrder(Sorted(vs));
      SortValuesAt(es);
      OrderElements(vs);
      hide SortValues, Sorted, OwnOrder;
      forall i | 0 <= i < |r| ensures Plain(r[i].value) {
        assert r[i] in vs;
        var k: nat :| CopyAt(es, k, r[i]);
        SortDeepPlain(es[k].value);
      }
    case _ =>
  }

  lemma KeyListed(es: seq<Entry>, key: Chars)
    ensures key in KeySet(es) <==> key != PROTO && exists i :: 0 <= i < |es| && es[i].key == key
  {}

  /** Objects whose entries match up have the same sorted entries. */
  lemma SameSortedValues(es: seq<Entry>, fs: seq<Entry>)
    requires KeySet(es) == KeySet(fs)
    requires forall i, k :: 0 <= i < |es| && 0 <= k < |fs| && es[i].key == fs[k].key != PROTO ==>
               SortDeep(es[i].value) == SortDeep(fs[k].value)
    ensures forall x :: x in SortValues(es) ==> x in SortValues(fs)
  {
    hide SortDeep, SortValues;
    SortValuesAt(es);
    SortValuesAt(fs);
    forall x | x in SortValues(es) ensures x in SortValues(fs) {
      var i: nat :| CopyAt(es, i, x);
      KeyListed(es, x.key);
      KeyListed(fs, x.key);
      hide KeySet;
      var k :| 0 <= k < |fs| && fs[k].key == x.key;
      assert CopyAt(fs, k, x);
    }
  }

  lemma {:induction false} DistinctValues(es: seq<Entry>)
    requires DistinctKeys(es)
    ensures DistinctKeys(SortValues(es))
    decreases |es|
  {
    hide SortDeep;
    if es != [] {
      DistinctValues(es[1..]);
      SortValuesAt(es[1..]);
      var rest := SortValues(es[1..]);
      forall k | 0 <= k < |rest| ensures rest[k].key != es[0].key {
        assert rest[k] in rest;
        var i: nat :| CopyAt(es[1..], i, rest[k]);
        assert es[1..][i] == es[i + 1];
      }
    }
  }

  lemma {:induction false} EquivSortsAlike(a: Json, b: Json)
    requires Valid(a) && Valid(b) && Equiv(a, b)
    ensures SortDeep(a) == SortDeep(b)
    decreases a
  {
    match (a, b)
    case (Arr(xs), Arr(ys)) =>
      SortItemsAt(xs);
      SortItemsAt(ys);
      forall i | 0 <= i < |xs| ensures SortItems(xs)[i] == SortItems(ys)[i] {
        EquivSortsAlike(xs[i], ys[i]);
      }
      assert SortItems(xs) == SortItems(ys);
    case (Obj(es), Obj(fs)) =>
      forall i, k | 0 <= i < |es| && 0 <= k < |fs| && es[i].key == fs[k].key != PROTO
        ensures SortDeep(es[i].value) == SortDeep(fs[k].value)
      {
        EquivSortsAlike(es[i].value, fs[k].value);
      }
      SameSortedValues(es, fs);
      SameSortedValues(fs, es);
      DistinctValues(es);
      DistinctValues(fs);
      OrderCanonical(SortValues(es), SortValues(fs));
    case _ =>
  }

  lemma MatchFor(es: seq<Entry>, fs: seq<Entry>, i: nat) returns (n: nat)
    requires i < |es| && es[i].key != PROTO && SameElements(SortValues(es), SortValues(fs))
    ensures n < |fs| && fs[n].key == es[i].key && SortDeep(fs[n].value) == SortDeep(es[i].value)
  {
    hide SortDeep, SortValues;
    SortValuesAt(es);
    SortValuesAt(fs);
    var x := Entry(es[i].key, SortDeep(es[i].value));
    assert CopyAt(es, i, x);
    assert x in SortValues(es) && Copied(fs, x);
    n :| CopyAt(fs, n, x);
  }

  lemma SortedKeysMatch(es: seq<Entry>, fs: seq<Entry>)
    requires SameElements(SortValues(es), SortValues(fs))
    ensures KeySet(es) <= KeySet(fs)
  {
    hide SortDeep, SortValues;
    forall key | key in KeySet(es) ensures key in KeySet(fs) {
      KeyListed(es, key);
      KeyListed(fs, key);
      var i :| 0 <= i < |es| && es[i].key == key;
      var n := MatchFor(es, fs, i);
    }
  }

  lemma SortedValuesMatch(es: seq<Entry>, fs: seq<Entry>, i: nat, k: nat)
    requires DistinctKeys(fs) && SameElements(SortValues(es), SortValues(fs))
    requires i < |es| && k < |fs| && es[i].key == fs[k].key != PROTO
    ensures SortDeep(es[i].value) == SortDeep(fs[k].value)
  {
    hide SortDeep, SortValues;
    var n := MatchFor(es, fs, i);
  }

  lemma {:induction false} AlikeSortsEquiv(a: Json, b: Json)
    requires Valid(a) && Valid(b) && SortDeep(a) == SortDeep(b)
    ensures Equiv(a, b)
    decreases a
  {
    match (a, b)
    case (Arr(xs), Arr(ys)) =>
      SortItemsAt(xs);
      SortItemsAt(ys);
      assert |SortItems(xs)| == |SortItems(ys)|;
      forall i | 0 <= i < |xs| ensures Equiv(xs[i], ys[i]) {
        AlikeSortsEquiv(xs[i], ys[i]);
      }
    case (Obj(es), Obj(fs)) =>
      OrderElements(SortValues(es));
      OrderElements(SortValues(fs));
      SortedKeysMatch(es, fs);
      SortedKeysMatch(fs, es);
      forall i, k | 0 <= i < |es| && 0 <= k < |fs| && es[i].key == fs[k].key != PROTO
        ensures Equiv(es[i].value, fs[k].value)
      {
        SortedValuesMatch(es, fs, i, k);
        AlikeSortsEquiv(es[i].value, fs[k].value);
      }
    case _ =>
  }

  /** Canonical text is equal exactly for values that are equal up to key order. */
  lemma CanonicalIff(a: Json, b: Json)
    requires Valid(a) && Valid(b)
    ensures Canonical(a) == Canonical(b) <==> Equiv(a, b)
  {
    if Equiv(a, b) {
      EquivSortsAlike(a, b);
    } else if Canonical(a) == Canonical(b) {
      CanonicalSplits(a, [], b, []);
    }
  }

  /** Texts that start with canonical values, and go on with nothing that could continue a
      numeral, are equal exactly when the values are equivalent and the rests are equal. */
  lemma CanonicalSplits(a: Json, x: Chars, b: Json, y: Chars)
    requires Valid(a) && Valid(b) && Stops(x) && Stops(y)
    ensures Canonical(a) + x == Canonical(b) + y <==> Equiv(a, b) && x == y
  {
    hide Render, SortDeep, Equiv, Valid, Plain;
    if Canonical(a) + x == Canonical(b) + y {
      SortDeepPlain(a);
      SortDeepPlain(b);
      RenderFree(SortDeep(a), x, SortDeep(b), y);
      AlikeSortsEquiv(a, b);
    } else if Equiv(a, b) {
      EquivSortsAlike(a, b);
    }
  }

  // ---- what is hashed -------------------------------------------------------------------

  /** The row hash covers the canonical front matter, a line feed, and the body. */
  function RowPreimage(front: Json, body: Chars): Chars {
    Canonical(front) + [10] + body
  }

  lemma FirstNewlineSplits(a: Chars, x: Chars, b: Chars, y: Chars)
    requires NoNewline(a) && NoNewline(b) && a + [10] + x == b + [10] + y
    ensures a == b && x == y
  {
    var w := a + [10] + x;
    assert w[|a|] == 10 && w[|b|] == 10;
    assert forall k :: 0 <= k < |a| ==> w[k] == a[k];
    assert forall k :: 0 <= k < |b| ==> w[k] == b[k];
    Peel(a + [10], x, b + [10], y);
    Peel(a, [10], b, [10]);
  }

  /** Front matter and body are both recoverable from what the row hash covers. */
  lemma RowPreimageIff(f1: Json, b1: Chars, f2: Json, b2: Chars)
    requires Valid(f1) && Valid(f2)
    ensures RowPreimage(f1, b1) == RowPreimage(f2, b2) <==> Equiv(f1, f2) && b1 == b2
  {
    hide Render, SortDeep, Equiv, Valid, Plain;
    SortDeepPlain(f1);
    SortDeepPlain(f2);
    RenderNoNewline(SortDeep(f1));
    RenderNoNewline(SortDeep(f2));
    CanonicalIff(f1, f2);
    if RowPreimage(f1, b1) == RowPreimage(f2, b2) {
      FirstNewlineSplits(Canonical(f1), b1, Canonical(f2), b2);
    }
  }

  /** `|jp1-facts|`. */
  const DELIMITER: Chars := [124, 106, 112, 49, 45, 102, 97, 99, 116, 115, 124]

  /** The facts of the three kinds, each a stored record or null. */
  datatype Facts = Facts(resume: Json, experience: Json, coverLetter: Json)
  {
    predicate Valid() {
      CanonicalJson.Valid(resume) && CanonicalJson.Valid(experience) && CanonicalJson.Valid(coverLetter)
    }
  }

  predicate SameFacts(f: Facts, g: Facts) {
    Equiv(f.resume, g.resume) && Equiv(f.experience, g.experience) && Equiv(f.coverLetter, g.coverLetter)
  }

  function FactsPreimage(f: Facts): Chars {
    Canonical(f.resume) + (DELIMITER + (Canonical(f.experience) + (DELIMITER + Canonical(f.coverLetter))))
  }

  /** All three parts are recoverable from what the facts hash covers. */
  lemma FactsPreimageIff(f: Facts, g: Facts)
    requires f.Valid() && g.Valid()
    ensures FactsPreimage(f) == FactsPreimage(g) <==> SameFacts(f, g)
  {
    hide Canonical, Equiv, CanonicalJson.Valid;
    var x3, y3 := DELIMITER + Canonical(f.coverLetter), DELIMITER + Canonical(g.coverLetter);
    var x2, y2 := Canonical(f.experience) + x3, Canonical(g.experience) + y3;
    var x1, y1 := DELIMITER + x2, DELIMITER + y2;
    assert x1[0] == 124 && y1[0] == 124 && x3[0] == 124 && y3[0] == 124;
    CanonicalSplits(f.resume, x1, g.resume, y1);
    CanonicalSplits(f.experience, x3, g.experience, y3);
    CanonicalIff(f.coverLetter, g.coverLetter);
    assert x1 == y1 ==> x2 == y2 by {
      if x1 == y1 {
        Peel(DELIMITER, x2, DELIMITER, y2);
      }
    }
    assert x3 == y3 ==> Canonical(f.coverLetter) == Canonical(g.coverLetter) by {
      if x3 == y3 {
        Peel(DELIMITER, Canonical(f.coverLetter), DELIMITER, Canonical(g.coverLetter));
      }
    }
  }
}
