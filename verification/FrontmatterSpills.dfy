/** What values on several lines come to at the next save: the lines that spill out of them, where
    they stand, and the condition under which the patch may be saved again. */
module FrontmatterSpills {
  import opened Options
  import opened Frontmatter
  import opened FrontmatterEdits
  import opened FrontmatterStores
  import opened FrontmatterRepeats
  import Seqs

  // ---- the lines of a value ---------------------------------------------------------------

  function LinesOf(e: (string, FieldValue)): (ls: seq<string>)
    ensures ls != []
  {
    SplitLines(Written(e.0, e.1))
  }

  lemma BroughtIs(e: (string, FieldValue), p: string -> bool)
    requires Writes(e)
    ensures Brought(e, p) == CountIf(LinesOf(e), p)
  {
    FlatOne(Written(e.0, e.1));
  }

  lemma CountsOne(ls: seq<string>, p: string -> bool, i: nat)
    requires i < |ls| && p(ls[i])
    ensures CountIf(ls, p) >= 1
    ensures CountIf(ls, p) == CountIf(ls[..i], p) + 1 + CountIf(ls[i + 1..], p)
  {
    assert ls == ls[..i] + [ls[i]] + ls[i + 1..];
    assert [ls[i]][..0] == [];
    assert CountIf([ls[i]], p) == 1;
    CountIfConcat(ls[..i] + [ls[i]], ls[i + 1..], p);
    CountIfConcat(ls[..i], [ls[i]], p);
  }

  lemma CountsTwo(ls: seq<string>, p: string -> bool, i: nat, j: nat)
    requires i < j < |ls| && p(ls[i]) && p(ls[j])
    ensures CountIf(ls, p) >= 2
  {
    CountsOne(ls, p, j);
    CountsOne(ls[..j], p, i);
  }

  lemma {:induction false} BringsPart(u: Updates, n: nat, m: nat, p: string -> bool)
    requires n <= m < |u|
    ensures Brought(u[m], p) + (if n < m then Brought(u[n], p) else 0) <= AllBrought(u, p)
    decreases |u|
  {
    hide Brought;
    if n > 0 {
      BringsPart(u[1..], n - 1, m - 1, p);
    } else if m > 0 {
      BringsPart(u[1..], m - 1, m - 1, p);
    }
  }

  lemma {:induction false} TakersOfKey(u: Updates, key: string)
    requires UniqueKeys(u)
    ensures Takers(u, {key}) <= 1
    ensures Takers(u, {key}) == 0 || exists n :: 0 <= n < |u| && u[n].0 == key && Writable(key)
    decreases |u|
  {
    hide Writable;
    if u != [] {
      assert UniqueKeys(u[1..]);
      TakersOfKey(u[1..], key);
      if Takers(u[1..], {key}) > 0 {
        var n :| 0 <= n < |u[1..]| && u[1..][n].0 == key && Writable(key);
        assert u[n + 1].0 == key;
      }
    }
  }

  /** Of a spare patch no value brings a line that belongs to no key. */
  lemma NoLooseLine(u: Updates, n: nat, j: nat)
    requires Spare(u) && n < |u| && Writes(u[n]) && j < |LinesOf(u[n])|
    ensures !IsLoose(LinesOf(u[n])[j])
  {
    hide IsLoose, LinesOf, Matches;
    BringsPart(u, n, n, LooseLine());
    BroughtIs(u[n], LooseLine());
    if IsLoose(LinesOf(u[n])[j]) {
      CountsOne(LinesOf(u[n]), LooseLine(), j);
    }
  }

  /** Of each key it brings at most one line. */
  lemma OneBringer(u: Updates, n: nat, j: nat, m: nat, k: nat, key: string)
    requires Spare(u) && UniqueKeys(u) && Writable(key) && n < |u| && m < |u| && Writes(u[n]) && Writes(u[m])
    requires j < |LinesOf(u[n])| && k < |LinesOf(u[m])| && Matches(LinesOf(u[n])[j], key) && Matches(LinesOf(u[m])[k], key)
    ensures n == m && j == k
  {
    hide Matches, LinesOf, IsLoose, Writes;
    var p := LineOfKey(key);
    assert key in WRITABLE_FIELDS;
    TakersOfKey(u, key);
    BroughtIs(u[n], p);
    BroughtIs(u[m], p);
    CountsOne(LinesOf(u[n]), p, j);
    CountsOne(LinesOf(u[m]), p, k);
    if n < m {
      BringsPart(u, n, m, p);
    } else if m < n {
      BringsPart(u, m, n, p);
    } else {
      BringsPart(u, n, n, p);
      if j < k {
        CountsTwo(LinesOf(u[n]), p, j, k);
      } else if k < j {
        CountsTwo(LinesOf(u[n]), p, k, j);
      }
    }
  }

  lemma FirstPiece(key: string, t: string)
    requires Word(key)
    ensures exists t0 :: SplitLines(key + ": " + t)[0] == key + ": " + t0
  {
    var s, n := key + ": " + t, |key| + 2;
    var i := FirstNewline(s);
    forall k | 0 <= k < n ensures s[k] != '\n' {
      if k < |key| {
        assert key[k] in key;
      }
    }
    var line := s[..i];
    assert line == key + ": " + line[n..];
    if i < |s| && EndsCr(line) {
      assert line[|key| + 1] == ' ';
      assert DropCr(line) == key + ": " + line[n..|line| - 1];
    }
    assert SplitLines(s)[0] == if i < |s| then DropCr(line) else line;
  }

  /** The first line of a written value is a line of its own key. */
  lemma FirstLineKey(u: Updates, n: nat)
    requires Spare(u) && n < |u| && Writes(u[n])
    ensures Matches(LinesOf(u[n])[0], u[n].0)
  {
    hide Matches, YamlScalar, SplitLines;
    var key := u[n].0;
    NoLooseLine(u, n, 0);
    WritableIsWord(key);
    FirstPiece(key, YamlScalar(u[n].1));
    var t0 :| LinesOf(u[n])[0] == key + ": " + t0;
    var k :| k in WRITABLE_FIELDS && Matches(LinesOf(u[n])[0], k);
    WritableIsWord(k);
    if k != key {
      KeyThenColonIsNoOther(key, t0, k);
    }
  }

  predicate Removal(e: (string, FieldValue)) {
    Writable(e.0) && e.1.Removes()
  }

  /** Every further line is a line of a key that the patch removes. */
  lemma SpilledIsRemoved(u: Updates, n: nat, j: nat) returns (m: nat)
    requires Spare(u) && UniqueKeys(u) && n < |u| && Writes(u[n]) && 0 < j < |LinesOf(u[n])|
    ensures m < |u| && Removal(u[m]) && Matches(LinesOf(u[n])[j], u[m].0)
  {
    hide Matches, LinesOf;
    NoLooseLine(u, n, j);
    var key :| key in WRITABLE_FIELDS && Matches(LinesOf(u[n])[j], key);
    var p := LineOfKey(key);
    BroughtIs(u[n], p);
    CountsOne(LinesOf(u[n]), p, j);
    BringsPart(u, n, n, p);
    TakersOfKey(u, key);
    m :| 0 <= m < |u| && u[m].0 == key && Writable(key);
    if Writes(u[m]) {
      FirstLineKey(u, m);
      OneBringer(u, n, j, m, 0, key);
    }
  }

  // ---- an edit in two parts -----------------------------------------------------------------

  predicate Hits(h: seq<string>, key: string) {
    FirstMatch(h, key) < |h|
  }

  /** The entries whose key is found in these lines, or the others. */
  function Part(u: Updates, h: seq<string>, hit: bool): Updates {
    if u == [] then []
    else (if (Writable(u[0].0) && Hits(h, u[0].0)) == hit then [u[0]] else []) + Part(u[1..], h, hit)
  }

  lemma {:induction false} PartAre(u: Updates, h: seq<string>, hit: bool)
    ensures forall e :: e in Part(u, h, hit) <==> e in u && (Writable(e.0) && Hits(h, e.0)) == hit
    ensures UniqueKeys(u) ==> UniqueKeys(Part(u, h, hit))
    decreases |u|
  {
    hide Writable, Hits;
    if u != [] {
      PartAre(u[1..], h, hit);
      assert forall e :: e in u <==> e == u[0] || e in u[1..];
      if UniqueKeys(u) {
        assert UniqueKeys(u[1..]);
        forall e | e in u[1..] ensures e.0 != u[0].0 {
          var k :| 0 <= k < |u[1..]| && u[1..][k] == e;
          assert u[k + 1] == e;
        }
      }
    }
  }

  lemma {:induction false} PartSame(u: Updates, a: seq<string>, b: seq<string>, hit: bool)
    requires forall e :: e in u && Writable(e.0) ==> (Hits(a, e.0) <==> Hits(b, e.0))
    ensures Part(u, a, hit) == Part(u, b, hit)
    decreases |u|
  {
    hide Writable, Hits;
    if u != [] {
      assert u[0] in u;
      PartSame(u[1..], a, b, hit);
    }
  }

  lemma FirstMatchConcat(a: seq<string>, b: seq<string>, key: string)
    ensures FirstMatch(a + b, key) == if Hits(a, key) then FirstMatch(a, key) else |a| + FirstMatch(b, key)
  {
    hide Matches;
    FirstMatchUnique(a + b, key, if Hits(a, key) then FirstMatch(a, key) else |a| + FirstMatch(b, key));
  }

  lemma SetFieldConcat(a: seq<string>, b: seq<string>, key: string, v: FieldValue)
    ensures SetField(a + b, key, v) == if Hits(a, key) then SetField(a, key, v) + b else a + SetField(b, key, v)
  {
    hide *;
    FirstMatchConcat(a, b, key);
    UpdateCases(a + b, key, v);
    UpdateCases(a, key, v);
    UpdateCases(b, key, v);
    HitsIs(a, key);
    var line, i, j := Written(key, v), FirstMatch(a, key), FirstMatch(b, key);
    if i < |a| {
      InFirst(a, b, i, line);
    } else if j < |b| {
      InSecond(a, b, j, line);
    } else {
      Seqs.Assoc(a, b, [line]);
    }
  }

  lemma HitsIs(h: seq<string>, key: string)
    ensures Hits(h, key) <==> FirstMatch(h, key) < |h|
  {}

  lemma InFirst(a: seq<string>, b: seq<string>, i: nat, line: string)
    requires i < |a|
    ensures (a + b)[..i] + (a + b)[i + 1..] == a[..i] + a[i + 1..] + b && (a + b)[i := line] == a[i := line] + b
  {}

  lemma InSecond(a: seq<string>, b: seq<string>, j: nat, line: string)
    requires j < |b|
    ensures (a + b)[..|a| + j] + (a + b)[|a| + j + 1..] == a + (b[..j] + b[j + 1..]) && (a + b)[|a| + j := line] == a + b[j := line]
  {}

  lemma OtherHits(h: seq<string>, key: string, v: FieldValue, other: string)
    requires Word(key) && Word(other) && key != other
    ensures Hits(SetField(h, key, v), other) <==> Hits(h, other)
  {
    OtherKeysKept(h, key, v, other);
  }

  /** An edit of two lists in a row edits the first one under the keys that it holds, and the
      second one under the others. */
  lemma {:induction false} EditHalves(a: seq<string>, b: seq<string>, u: Updates)
    requires UniqueKeys(u)
    ensures Edit(a + b, u) == Edit(a, Part(u, a, true)) + Edit(b, Part(u, a, false))
    decreases |u|
  {
    hide Writable, Hits, SetField, Matches;
    if u != [] {
      var key, v, rest := u[0].0, u[0].1, u[1..];
      assert UniqueKeys(rest);
      SetFieldConcat(a, b, key, v);
      if Writable(key) && Hits(a, key) {
        var a1 := SetField(a, key, v);
        forall e | e in rest && Writable(e.0) ensures Hits(a1, e.0) <==> Hits(a, e.0) {
          var k :| 0 <= k < |rest| && rest[k] == e;
          assert u[k + 1] == e;
          WritableIsWord(key);
          WritableIsWord(e.0);
          OtherHits(a, key, v, e.0);
        }
        PartSame(rest, a, a1, true);
        PartSame(rest, a, a1, false);
        EditHalves(a1, b, rest);
        assert Part(u, a, true)[0] == u[0] && Part(u, a, true)[1..] == Part(rest, a, true);
        assert Edit(a + b, u) == Edit(a1 + b, rest);
        assert Edit(a, Part(u, a, true)) == Edit(a1, Part(rest, a, true));
        assert Part(u, a, false) == Part(rest, a, false);
      } else {
        EditHalves(a, EditOne(b, key, v), rest);
        assert Part(u, a, false)[0] == u[0] && Part(u, a, false)[1..] == Part(rest, a, false);
        assert EditOne(a + b, key, v) == a + EditOne(b, key, v);
        assert Edit(a + b, u) == Edit(a + EditOne(b, key, v), rest);
        assert Edit(b, Part(u, a, false)) == Edit(EditOne(b, key, v), Part(rest, a, false));
        assert Part(u, a, true) == Part(rest, a, true);
      }
    }
  }

  // ---- where a written value stands -------------------------------------------------------------

  /** How many lines of a key stand before the first line of another. */
  function Before(h: seq<string>, key: string, first: string): nat {
    CountOf(h[..FirstMatch(h, first)], key)
  }

  lemma IndexOfEntry(u: Updates, e: (string, FieldValue)) returns (n: nat)
    requires e in u
    ensures n < |u| && u[n] == e
  {
    n :| 0 <= n < |u| && u[n] == e;
  }

  /** Two entries of one key are one entry. */
  lemma SameEntry(u: Updates, n: nat, m: nat)
    requires UniqueKeys(u) && n < |u| && m < |u| && u[n].0 == u[m].0
    ensures n == m
  {}

  lemma {:induction false} NoneStays(h: seq<string>, u: Updates, key: string)
    requires Word(key) && CountOf(h, key) == 0 && forall e :: e in u ==> e.0 != key
    ensures CountOf(Edit(h, u), key) == 0
  {
    EditCountsOther(h, u, key);
  }

  /** The pieces before the place of u[n] in an edit: lines that were there, and other values. */
  ghost predicate PiecesOf(ls: seq<string>, h: seq<string>, u: Updates, n: nat)
    requires n < |u|
  {
    forall l :: l in ls ==> l in h || exists m :: 0 <= m < |u| && m != n && Writes(u[m]) && l == Written(u[m].0, u[m].1)
  }

  lemma PiecesFrom(ls: seq<string>, h: seq<string>, v: Updates, u: Updates, n: nat)
    requires n < |u| && (forall e :: e in v ==> e in u && e != u[n])
    requires forall l :: l in ls ==> l in h || exists e :: e in v && Writable(e.0) && !e.1.Removes() && l == Written(e.0, e.1)
    ensures PiecesOf(ls, h, u, n)
  {
    hide Writable, Written;
    forall l | l in ls && l !in h ensures exists m :: 0 <= m < |u| && m != n && Writes(u[m]) && l == Written(u[m].0, u[m].1) {
      var e :| e in v && Writable(e.0) && !e.1.Removes() && l == Written(e.0, e.1);
      var m := IndexOfEntry(u, e);
      assert Writes(u[m]) && m != n;
    }
  }

  /** An edit that starts on no line or on a line of the key of u[n] puts the value of u[n] behind
      nothing but other values. */
  lemma PlacedAtHead(q: seq<string>, v: Updates, u: Updates, n: nat) returns (i: nat)
    requires UniqueKeys(v) && n < |u| && Writes(u[n]) && u[n] in v && (forall e :: e in v ==> e in u)
    requires UniqueKeys(u) && (q != [] ==> Matches(q[0], u[n].0))
    ensures i < |Edit(q, v)| && Edit(q, v)[i] == Written(u[n].0, u[n].1) && PiecesOf(Edit(q, v)[..i], [], u, n)
  {
    hide Matches, Written, Writable, SetField, Edit, Hits;
    var line := Written(u[n].0, u[n].1);
    var k := IndexOfEntry(v, u[n]);
    if q == [] {
      WrittenStays([], v, k);
      i := FirstIndex(Edit([], v), line);
      forall l | l in Edit([], v)[..i] ensures exists e :: e in Without(v, k) && Writable(e.0) && !e.1.Removes() && l == Written(e.0, e.1) {
        EditElements([], v, l);
        var e :| e in v && Writable(e.0) && !e.1.Removes() && l == Written(e.0, e.1);
        InWithout(v, k, e);
      }
      WithoutAre(v, k);
      PiecesFrom(Edit([], v)[..i], [], Without(v, k), u, n);
    } else {
      i := 0;
      var head, tail := [q[0]], q[1..];
      assert q == head + tail;
      EditHalves(head, tail, v);
      OnlyHead(q[0], v, k);
      assert Edit(q, v)[0] == line && Edit(q, v)[..0] == [];
    }
  }

  lemma FirstIndex(ls: seq<string>, l: string) returns (i: nat)
    requires l in ls
    ensures i < |ls| && ls[i] == l && forall k :: 0 <= k < i ==> ls[k] != l
  {
    i := 0;
    while ls[i] != l
      invariant i < |ls| && l in ls[i..] && forall k :: 0 <= k < i ==> ls[k] != l
      decreases |ls| - i
    {
      assert ls[i..] == [ls[i]] + ls[i + 1..];
      i := i + 1;
    }
  }

  function Without(u: Updates, k: nat): Updates
    requires k < |u|
  {
    u[..k] + u[k + 1..]
  }

  lemma WithoutAre(u: Updates, k: nat)
    requires UniqueKeys(u) && k < |u|
    ensures forall e :: e in Without(u, k) ==> e in u && e != u[k]
  {
    forall e | e in Without(u, k) ensures e in u && e != u[k] {
      var j :| 0 <= j < |Without(u, k)| && Without(u, k)[j] == e;
      assert e == u[if j < k then j else j + 1];
    }
  }

  lemma InWithout(u: Updates, k: nat, e: (string, FieldValue))
    requires k < |u| && e in u
    ensures e in Without(u, k) || e == u[k]
  {
    var j :| 0 <= j < |u| && u[j] == e;
    if j < k {
      assert Without(u, k)[j] == e;
    } else if j > k {
      assert Without(u, k)[j - 1] == e;
    }
  }

  /** On a single line of the key of v[k], only v[k] acts. */
  lemma OnlyHead(line: string, v: Updates, k: nat)
    requires UniqueKeys(v) && k < |v| && Writes(v[k]) && Matches(line, v[k].0)
    ensures Edit([line], Part(v, [line], true)) == [Written(v[k].0, v[k].1)]
  {
    hide Matches, Written, SetField, Edit, Word, OneLine;
    var w := Part(v, [line], true);
    PartAre(v, [line], true);
    HitsOne(line, v[k].0);
    assert v[k] in v && v[k] in w;
    forall e | e in w ensures e == v[k] {
      HitsOne(line, e.0);
      WritableIsWord(e.0);
      WritableIsWord(v[k].0);
      OneKeyPerLine(line, e.0, v[k].0);
      var j := IndexOfEntry(v, e);
      SameEntry(v, j, k);
    }
    hide *;
    SingleEntry(w, v[k]);
    EditSingle([line], v[k]);
    OneLineUpdated(line, v[k]);
  }

  lemma HitsOne(line: string, key: string)
    ensures Hits([line], key) <==> Matches(line, key)
  {
    hide Matches;
  }

  lemma SingleEntry(w: Updates, e: (string, FieldValue))
    requires UniqueKeys(w) && e in w && forall x :: x in w ==> x == e
    ensures w == [e]
  {
    assert forall i :: 0 <= i < |w| ==> w[i] in w;
    assert |w| < 2 || w[0].0 == w[1].0;
  }

  lemma OneLineUpdated(line: string, e: (string, FieldValue))
    requires Writes(e) && Matches(line, e.0)
    ensures EditOne([line], e.0, e.1) == [Written(e.0, e.1)]
  {
    hide Matches, Written;
    assert [line][0 := Written(e.0, e.1)] == [Written(e.0, e.1)];
  }

  lemma EditSingle(h: seq<string>, e: (string, FieldValue))
    ensures Edit(h, [e]) == EditOne(h, e.0, e.1)
  {
    hide EditOne;
    assert [e][1..] == [];
  }

  /** The value of u[n] stands in the edited lines behind pieces that neither match nor bring a
      line of its key, and with one line less, if there was any, of every removed key. */
  lemma Placed(h: seq<string>, u: Updates, n: nat) returns (i: nat)
    requires UniqueKeys(u) && n < |u| && Writes(u[n])
    ensures var all := Edit(h, u);
            i < |all| && all[i] == Written(u[n].0, u[n].1) && PiecesOf(all[..i], h, u, n) && CountOf(all[..i], u[n].0) == 0
    ensures forall m :: 0 <= m < |u| && Removal(u[m]) ==> CountOf(Edit(h, u)[..i], u[m].0) == Less(Before(h, u[m].0, u[n].0))
  {
    hide Matches, Written, Writable, SetField, Edit, CountOf, Less;
    var key, at := u[n].0, FirstMatch(h, u[n].0);
    var p, q := h[..at], h[at..];
    var up, uq := Part(u, p, true), Part(u, p, false);
    assert h == p + q;
    EditHalves(p, q, u);
    PartAre(u, p, true);
    PartAre(u, p, false);
    NoHitBefore(h, key);
    assert u[n] in u && u[n] in uq;
    var j := PlacedAtHead(q, uq, u, n);
    var a, b := Edit(p, up), Edit(q, uq);
    i := |a| + j;
    assert (a + b)[..i] == a + b[..j];
    forall l | l in a ensures l in p || exists e :: e in up && Writable(e.0) && !e.1.Removes() && l == Written(e.0, e.1) {
      EditElements(p, up, l);
    }
    assert u[n] !in up;
    PiecesFrom(a, p, up, u, n);
    PiecesJoin(a, b[..j], p, h, u, n);
    WritableIsWord(key);
    forall e | e in up ensures e.0 != key {
      if e.0 == key {
        var k := IndexOfEntry(u, e);
        SameEntry(u, k, n);
      }
    }
    CountNone(p, key);
    NoneStays(p, up, key);
    ValuesCountNothing(b[..j], u, n, key);
    CountConcat(a, b[..j], key);
    forall m | 0 <= m < |u| && Removal(u[m]) ensures CountOf((a + b)[..i], u[m].0) == Less(CountOf(p, u[m].0)) {
      CountConcat(a, b[..j], u[m].0);
      WritableIsWord(u[m].0);
      RemovalCounts(p, u, m);
      ValuesCountNothing(b[..j], u, n, u[m].0);
    }
  }

  lemma NoHitBefore(h: seq<string>, key: string)
    ensures !Hits(h[..FirstMatch(h, key)], key)
    ensures forall k :: 0 <= k < FirstMatch(h, key) ==> !Matches(h[..FirstMatch(h, key)][k], key)
    ensures h[FirstMatch(h, key)..] != [] ==> Matches(h[FirstMatch(h, key)..][0], key)
  {
    hide Matches;
  }

  lemma PiecesJoin(a: seq<string>, b: seq<string>, p: seq<string>, h: seq<string>, u: Updates, n: nat)
    requires n < |u| && PiecesOf(a, p, u, n) && PiecesOf(b, [], u, n) && forall l :: l in p ==> l in h
    ensures PiecesOf(a + b, h, u, n)
  {
    hide Written, Writes;
    forall l | l in a + b && l !in h ensures exists m :: 0 <= m < |u| && m != n && Writes(u[m]) && l == Written(u[m].0, u[m].1) {
      assert l in a || l in b;
    }
  }

  /** Other values match no line of the key of u[n], and no line of a removed key. */
  lemma {:induction false} ValuesCountNothing(ls: seq<string>, u: Updates, n: nat, key: string)
    requires UniqueKeys(u) && n < |u| && PiecesOf(ls, [], u, n) && Word(key)
    requires key == u[n].0 || exists m :: 0 <= m < |u| && Removal(u[m]) && u[m].0 == key
    ensures CountOf(ls, key) == 0
  {
    hide Matches, Written, Writable;
    forall k | 0 <= k < |ls| ensures !Matches(ls[k], key) {
      assert ls[k] in ls;
      var m :| 0 <= m < |u| && m != n && Writes(u[m]) && ls[k] == Written(u[m].0, u[m].1);
      WritableIsWord(u[m].0);
      WrittenLine(u[m].0, u[m].1, key);
    }
    CountNone(ls, key);
  }

  /** Among the keys found in some lines, a removed one loses a line. */
  lemma RemovalCounts(p: seq<string>, u: Updates, m: nat)
    requires UniqueKeys(u) && m < |u| && Removal(u[m])
    ensures CountOf(Edit(p, Part(u, p, true)), u[m].0) == Less(CountOf(p, u[m].0))
  {
    hide Matches, Written, Writable, SetField, Edit, CountOf;
    var up, key := Part(u, p, true), u[m].0;
    PartAre(u, p, true);
    WritableIsWord(key);
    CountNone(p, key);
    assert u[m] in u;
    if Hits(p, key) {
      var k := IndexOfEntry(up, u[m]);
      EditCounts(p, up, k);
    } else {
      forall e | e in up ensures e.0 != key {
        if e.0 == key {
          var k := IndexOfEntry(u, e);
          SameEntry(u, k, m);
        }
      }
      EditCountsOther(p, up, key);
    }
  }

  // ---- what the next save finds ---------------------------------------------------------------

  /** A line of this value, not its first, is a line of this key. */
  predicate SpillsOver(e: (string, FieldValue), key: string) {
    exists j :: 0 < j < |LinesOf(e)| && Matches(LinesOf(e)[j], key)
  }

  lemma {:induction false} FlatCounts(ls: seq<string>, key: string)
    requires forall l :: l in ls ==> CountOf(SplitLines(l), key) == One(l, key)
    ensures CountOf(Flat(ls), key) == CountOf(ls, key)
  {
    hide SplitLines, Matches;
    if ls != [] {
      var init, last := ls[..|ls| - 1], ls[|ls| - 1];
      assert ls == init + [last];
      FlatCounts(init, key);
      FlatConcat(init, [last]);
      FlatOne(last);
      CountConcat(Flat(init), SplitLines(last), key);
    }
  }

  lemma CountsPlain(l: string, key: string)
    requires '\n' !in l
    ensures CountOf(SplitLines(l), key) == One(l, key)
  {
    Unsplit(l);
    CountSnoc([], l, key);
    assert [] + [l] == [l];
    hide Matches;
  }

  lemma CountsNothing(l: string, key: string)
    requires !Matches(l, key) && forall j :: 0 <= j < |SplitLines(l)| ==> !Matches(SplitLines(l)[j], key)
    ensures CountOf(SplitLines(l), key) == One(l, key)
  {
    CountNone(SplitLines(l), key);
    hide Matches, SplitLines;
  }

  predicate Plain(h: seq<string>) {
    forall l :: l in h ==> '\n' !in l
  }

  lemma {:induction false} FlatIsPlain(ls: seq<string>)
    ensures Plain(Flat(ls))
  {
    hide SplitLines;
    if ls != [] {
      FlatIsPlain(ls[1..]);
      SplitClean(ls[0]);
    }
  }

  /** A value that is not the bringer of a key's line brings none and is none. */
  lemma OtherValue(u: Updates, n: nat, j: nat, m: nat, key: string)
    requires Spare(u) && UniqueKeys(u) && Writable(key) && n < |u| && m < |u| && m != n && Writes(u[n]) && Writes(u[m])
    requires j < |LinesOf(u[n])| && Matches(LinesOf(u[n])[j], key) && key != u[m].0
    ensures CountOf(SplitLines(Written(u[m].0, u[m].1)), key) == One(Written(u[m].0, u[m].1), key)
  {
    hide Matches, SplitLines, Written, Writable, CountOf, Spare;
    var l := Written(u[m].0, u[m].1);
    assert SplitLines(l) == LinesOf(u[m]);
    forall k | 0 <= k < |LinesOf(u[m])| ensures !Matches(LinesOf(u[m])[k], key) {
      if Matches(LinesOf(u[m])[k], key) {
        OneBringer(u, n, j, m, k, key);
      }
    }
    WritableIsWord(key);
    WritableIsWord(u[m].0);
    WrittenLine(u[m].0, u[m].1, key);
    CountsNothing(l, key);
  }

  lemma PiecesCount(ls: seq<string>, h: seq<string>, u: Updates, n: nat, j: nat, key: string)
    requires Spare(u) && UniqueKeys(u) && Writable(key) && n < |u| && Writes(u[n]) && Plain(h) && PiecesOf(ls, h, u, n)
    requires j < |LinesOf(u[n])| && Matches(LinesOf(u[n])[j], key)
    requires forall m :: 0 <= m < |u| && Writes(u[m]) && m != n ==> u[m].0 != key
    ensures CountOf(Flat(ls), key) == CountOf(ls, key)
  {
    hide Matches, SplitLines, Written, Writes, Writable, CountOf, Spare, LinesOf;
    forall l | l in ls ensures CountOf(SplitLines(l), key) == One(l, key) {
      if l in h {
        CountsPlain(l, key);
      } else {
        var m :| 0 <= m < |u| && m != n && Writes(u[m]) && l == Written(u[m].0, u[m].1);
        OtherValue(u, n, j, m, key);
      }
    }
    FlatCounts(ls, key);
  }

  lemma FlatAt(ls: seq<string>, i: nat)
    requires i < |ls|
    ensures |Flat(ls[..i])| < |Flat(ls)| && Flat(ls)[..|Flat(ls[..i])|] == Flat(ls[..i])
    ensures Flat(ls)[|Flat(ls[..i])|] == SplitLines(ls[i])[0]
  {
    hide SplitLines;
    assert ls == ls[..i] + ls[i..];
    FlatConcat(ls[..i], ls[i..]);
  }

  /** In what the next save finds, the line that a value spills is preceded by as many lines of its
      key, less one, as stood before the value's own line. */
  lemma BeforeSpill(h: seq<string>, u: Updates, n: nat, m: nat)
    requires Spare(u) && UniqueKeys(u) && Plain(h) && n < |u| && m < |u|
    requires Writes(u[n]) && Removal(u[m]) && SpillsOver(u[n], u[m].0)
    ensures Before(Flat(Edit(h, u)), u[m].0, u[n].0) == Less(Before(h, u[m].0, u[n].0))
  {
    hide Matches, SplitLines, Written, Writable, CountOf, Spare, Edit, Less, PiecesOf, LinesOf, Flat;
    var a, x, all := u[n].0, u[m].0, Edit(h, u);
    var j :| 0 < j < |LinesOf(u[n])| && Matches(LinesOf(u[n])[j], x);
    var i := Placed(h, u, n);
    FirstLineKey(u, n);
    assert forall k :: 0 <= k < |u| && Writes(u[k]) && k != n ==> u[k].0 != a && u[k].0 != x by { OtherKeys(u, n, m); }
    PiecesCount(all[..i], h, u, n, 0, a);
    PiecesCount(all[..i], h, u, n, j, x);
    FlatAt(all, i);
    ValueLines(u[n]);
    var pre := Flat(all[..i]);
    CountNone(pre, a);
    FirstMatchAt(Flat(all), pre, a);
  }

  lemma OtherKeys(u: Updates, n: nat, m: nat)
    requires UniqueKeys(u) && n < |u| && m < |u| && Removal(u[m])
    ensures forall k :: 0 <= k < |u| && Writes(u[k]) && k != n ==> u[k].0 != u[n].0 && u[k].0 != u[m].0
  {}

  lemma ValueLines(e: (string, FieldValue))
    ensures LinesOf(e) == SplitLines(Written(e.0, e.1))
  {}

  lemma FirstMatchAt(g: seq<string>, pre: seq<string>, key: string)
    requires |pre| < |g| && g[..|pre|] == pre && Matches(g[|pre|], key) && forall k :: 0 <= k < |pre| ==> !Matches(pre[k], key)
    ensures FirstMatch(g, key) == |pre|
  {
    hide Matches;
    forall k | 0 <= k < |pre| ensures !Matches(g[k], key) {
      assert g[k] == pre[k];
    }
    FirstMatchUnique(g, key, |pre|);
  }

  /** And of a removed key that no value spills there is one line less. */
  lemma UnspilledCounts(h: seq<string>, u: Updates, m: nat)
    requires Spare(u) && UniqueKeys(u) && Plain(h) && m < |u| && Removal(u[m])
    requires forall n :: 0 <= n < |u| && Writes(u[n]) ==> !SpillsOver(u[n], u[m].0)
    ensures CountOf(Flat(Edit(h, u)), u[m].0) == CountOf(Edit(h, u), u[m].0) == Less(CountOf(h, u[m].0))
  {
    hide Matches, SplitLines, Written, Writable, CountOf, Spare, Edit, Less, LinesOf;
    var x, all := u[m].0, Edit(h, u);
    WritableIsWord(x);
    EditCounts(h, u, m);
    forall l | l in all ensures CountOf(SplitLines(l), x) == One(l, x) {
      EditElements(h, u, l);
      if l in h {
        CountsPlain(l, x);
      } else {
        var e :| e in u && Writable(e.0) && !e.1.Removes() && l == Written(e.0, e.1);
        var n := IndexOfEntry(u, e);
        if e.0 == x {
          SameEntry(u, n, m);
        }
        ValueLines(e);
        NoLineOf(u, n, x);
        WritableIsWord(e.0);
        WrittenLine(e.0, e.1, x);
        CountsNothing(l, x);
      }
    }
    FlatCounts(all, x);
  }

  lemma NoLineOf(u: Updates, n: nat, key: string)
    requires Spare(u) && n < |u| && Writes(u[n]) && Word(key) && key != u[n].0 && !SpillsOver(u[n], key)
    ensures forall j :: 0 <= j < |LinesOf(u[n])| ==> !Matches(LinesOf(u[n])[j], key)
  {
    hide Matches, LinesOf, Spare, Writable;
    FirstLineKey(u, n);
    WritableIsWord(u[n].0);
    if Matches(LinesOf(u[n])[0], key) {
      OneKeyPerLine(LinesOf(u[n])[0], key, u[n].0);
    }
  }

  // ---- the condition --------------------------------------------------------------------------

  /** Which patches may be saved again. The lines that spill out of a value must be lines of keys
      that the patch removes, one of each, and at most one more line of such a key may stand
      before the line that the value replaces; any other removed key occurs at most once. */
  predicate Repeatable(h: seq<string>, u: Updates) {
    Spare(u) &&
    forall m :: 0 <= m < |u| && Removal(u[m]) ==>
      (forall n :: 0 <= n < |u| && Writes(u[n]) && SpillsOver(u[n], u[m].0) ==> Before(h, u[m].0, u[n].0) <= 1) &&
      ((exists n :: 0 <= n < |u| && Writes(u[n]) && SpillsOver(u[n], u[m].0)) || AtMostOnce(h, u[m].0))
  }

  /** Two edits in a row, the lines split in between, that come to the same lines. */
  lemma StableIsRepeatable(h: seq<string>, u: Updates)
    requires Spare(u) && UniqueKeys(u) && Plain(h)
    requires var g := Flat(Edit(h, u)); Flat(Edit(g, u)) == g
    ensures Repeatable(h, u)
  {
    hide Spare, Edit, Flat, SpillsOver, Before, AtMostOnce, CountOf, Writes, Removal;
    var g := Flat(Edit(h, u));
    FlatIsPlain(Edit(h, u));
    forall m | 0 <= m < |u| && Removal(u[m])
      ensures forall n :: 0 <= n < |u| && Writes(u[n]) && SpillsOver(u[n], u[m].0) ==> Before(h, u[m].0, u[n].0) <= 1
      ensures (exists n :: 0 <= n < |u| && Writes(u[n]) && SpillsOver(u[n], u[m].0)) || AtMostOnce(h, u[m].0)
    {
      forall n | 0 <= n < |u| && Writes(u[n]) && SpillsOver(u[n], u[m].0) ensures Before(h, u[m].0, u[n].0) <= 1 {
        BeforeSpill(h, u, n, m);
        BeforeSpill(g, u, n, m);
      }
      if forall n :: 0 <= n < |u| && Writes(u[n]) ==> !SpillsOver(u[n], u[m].0) {
        UnspilledCounts(h, u, m);
        UnspilledCounts(g, u, m);
        CountSeveral(h, u[m].0);
      }
    }
  }
}
