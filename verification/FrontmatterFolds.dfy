/** A patch that may be saved again folds the lines that its values spilled back into them: the
    edit of its own outcome is that outcome. */
module FrontmatterFolds {
  import opened Options
  import opened Frontmatter
  import opened FrontmatterEdits
  import opened FrontmatterStores
  import opened FrontmatterRepeats
  import opened FrontmatterSpills

  // ---- lines that an edit folds back into values -------------------------------------------------

  /** The pieces `ls` are what the entries `v` leave: every value stands behind no line of its key,
      and every line of a removed key behind the value that spills one. */
  ghost predicate Stands(ls: seq<string>, v: Updates) {
    && (forall l :: l in ls && '\n' in l ==> exists e :: e in v && Writes(e) && l == Written(e.0, e.1))
    && (forall i, k :: 0 <= i < k < |ls| && ls[i] == ls[k] ==> '\n' !in ls[i])
    && (forall e :: e in v && Writes(e) ==> Heads(ls, e))
    && (forall e, i :: e in v && Removal(e) && 0 <= i < |ls| && Matches(ls[i], e.0) ==> Spilled(ls[..i], v, e.0))
    && (forall e :: e in v && Writes(e) ==> Covered(e, v))
  }

  /** Every line that the value spills is a line of a removed key. */
  ghost predicate Covered(e: (string, FieldValue), v: Updates) {
    forall j :: 0 < j < |LinesOf(e)| ==> Removed(LinesOf(e)[j], v)
  }

  /** A removal in the patch names this line. */
  ghost predicate Removed(l: string, v: Updates) {
    exists r :: r in v && Removal(r) && Matches(l, r.0)
  }

  /** The value is there, and no line of its key before it. */
  ghost predicate Heads(ls: seq<string>, e: (string, FieldValue)) {
    exists i :: 0 <= i < |ls| && ls[i] == Written(e.0, e.1) && forall k :: 0 <= k < i ==> !Matches(ls[k], e.0)
  }

  /** A value that spills a line of this key is there. */
  ghost predicate Spilled(ls: seq<string>, v: Updates, key: string) {
    exists e :: e in v && Writes(e) && Written(e.0, e.1) in ls && SpillsOver(e, key)
  }

  lemma {:induction false} RemovalsOnNothing(v: Updates)
    requires forall e :: e in v ==> !Writes(e)
    ensures Edit([], v) == []
    decreases |v|
  {
    hide Matches, Writable;
    if v != [] {
      assert v[0] in v;
      RemovalsOnNothing(v[1..]);
    }
  }

  /** The entries come from a spare patch. */
  ghost predicate From(v: Updates, u: Updates) {
    Spare(u) && UniqueKeys(u) && UniqueKeys(v) && forall e :: e in v ==> e in u
  }

  lemma FromPart(v: Updates, u: Updates, h: seq<string>, hit: bool)
    requires From(v, u)
    ensures From(Part(v, h, hit), u)
  {
    hide Spare;
    PartAre(v, h, hit);
  }

  lemma HeadLine(u: Updates, e: (string, FieldValue))
    requires Spare(u) && e in u && Writes(e)
    ensures Matches(LinesOf(e)[0], e.0)
  {
    hide Spare, Matches, LinesOf;
    var n := IndexOfEntry(u, e);
    FirstLineKey(u, n);
  }

  lemma OneLineEach(u: Updates, e: (string, FieldValue), j: nat, f: (string, FieldValue), k: nat, key: string)
    requires Spare(u) && UniqueKeys(u) && Writable(key) && e in u && f in u && Writes(e) && Writes(f)
    requires j < |LinesOf(e)| && k < |LinesOf(f)| && Matches(LinesOf(e)[j], key) && Matches(LinesOf(f)[k], key)
    ensures e == f && j == k
  {
    hide Spare, Matches, LinesOf, Writes;
    var n := IndexOfEntry(u, e);
    var m := IndexOfEntry(u, f);
    OneBringer(u, n, j, m, k, key);
  }

  /** A value on one line is a line of its key. */
  lemma PlainValue(u: Updates, e: (string, FieldValue))
    requires Spare(u) && e in u && Writes(e) && '\n' !in Written(e.0, e.1)
    ensures Matches(Written(e.0, e.1), e.0) && LinesOf(e) == [Written(e.0, e.1)]
  {
    hide Spare, Matches, Written;
    HeadLine(u, e);
    Unsplit(Written(e.0, e.1));
  }

  /** Two values are two texts. */
  lemma SameText(u: Updates, e: (string, FieldValue), f: (string, FieldValue))
    requires Spare(u) && UniqueKeys(u) && e in u && f in u && Writes(e) && Writes(f) && Written(e.0, e.1) == Written(f.0, f.1)
    ensures e == f
  {
    hide Spare, Matches, Written;
    HeadLine(u, e);
    HeadLine(u, f);
    OneLineEach(u, e, 0, f, 0, e.0);
  }

  // ---- a plain line in front -----------------------------------------------------------------------

  /** Of the entries that a plain line in front is a line of there is at most the one that wrote it. */
  lemma PlainHit(l: string, r: seq<string>, v: Updates, u: Updates, e: (string, FieldValue))
    requires From(v, u) && Stands([l] + r, v) && '\n' !in l && e in v && Writable(e.0) && Matches(l, e.0)
    ensures Writes(e) && l == Written(e.0, e.1)
  {
    hide Spare, Matches, Written, Writable, LinesOf, SpillsOver;
    var ls := [l] + r;
    assert ls[0] == l && !Spilled(ls[..0], v, e.0);
    assert !Removal(e);
    assert Heads(ls, e);
  }

  lemma PlainFolds(l: string, r: seq<string>, v: Updates, u: Updates)
    requires From(v, u) && Stands([l] + r, v) && '\n' !in l
    ensures Edit([l], Part(v, [l], true)) == [l]
  {
    hide Spare, Matches, Written, Stands, Edit;
    var w := Part(v, [l], true);
    PartAre(v, [l], true);
    if w == [] {
      EditNothing([l]);
    } else {
      var e := w[0];
      forall x | x in w ensures x == e {
        HitsOne(l, x.0);
        HitsOne(l, e.0);
        assert e in w;
        PlainHit(l, r, v, u, x);
        PlainHit(l, r, v, u, e);
        SameText(u, x, e);
      }
      assert e in w;
      HitsOne(l, e.0);
      PlainHit(l, r, v, u, e);
      SingleEntry(w, e);
      EditSingle([l], e);
      OneLineUpdated(l, e);
    }
  }

  lemma EditNothing(h: seq<string>)
    ensures Edit(h, []) == h
  {}

  /** What is behind a plain line stands for the other entries. */
  lemma PlainRest(l: string, r: seq<string>, v: Updates, u: Updates)
    requires From(v, u) && Stands([l] + r, v) && '\n' !in l
    ensures Stands(r, Part(v, [l], false))
  {
    hide Spare, Matches, Written, Writable, LinesOf, Stands, SpillsOver;
    var ls, vq := [l] + r, Part(v, [l], false);
    PartAre(v, [l], false);
    StandsParts(ls, v);
    forall e | e in v && (!(e in vq)) ensures Writes(e) && l == Written(e.0, e.1) {
      HitsOne(l, e.0);
      PlainHit(l, r, v, u, e);
    }
    forall x | x in r && '\n' in x ensures exists e :: e in vq && Writes(e) && x == Written(e.0, e.1) {
      assert x in ls;
    }
    forall i, k | 0 <= i < k < |r| && r[i] == r[k] ensures '\n' !in r[i] {
      assert ls[i + 1] == r[i] && ls[k + 1] == r[k];
    }
    forall e | e in vq && Writes(e) ensures Heads(r, e) {
      if l == Written(e.0, e.1) {
        PlainValue(u, e);
        HitsOne(l, e.0);
      }
      HeadsBehind(l, r, e);
    }
    forall e, i | e in vq && Removal(e) && 0 <= i < |r| && Matches(r[i], e.0) ensures Spilled(r[..i], vq, e.0) {
      assert ls[i + 1] == r[i] && ls[..i + 1] == [l] + r[..i];
      var w :| w in v && Writes(w) && Written(w.0, w.1) in ls[..i + 1] && SpillsOver(w, e.0);
      if l == Written(w.0, w.1) {
        PlainValue(u, w);
        NoSpill(w, e.0);
      }
      assert w in vq && Written(w.0, w.1) in r[..i];
    }
    forall e | e in vq && Writes(e) ensures Covered(e, vq) {
      assert Covered(e, v);
      forall j | 0 < j < |LinesOf(e)| ensures Removed(LinesOf(e)[j], vq) {
        var x := CoverAt(e, v, j);
        assert x in vq;
      }
    }
    StandsWhole(r, vq);
  }

  lemma NoSpill(e: (string, FieldValue), key: string)
    requires |LinesOf(e)| == 1
    ensures !SpillsOver(e, key)
  {}

  lemma HeadsBehind(l: string, r: seq<string>, e: (string, FieldValue))
    requires Heads([l] + r, e) && l != Written(e.0, e.1)
    ensures Heads(r, e)
  {
    hide Matches, Written;
    var ls := [l] + r;
    var i :| 0 <= i < |ls| && ls[i] == Written(e.0, e.1) && forall k :: 0 <= k < i ==> !Matches(ls[k], e.0);
    assert r[i - 1] == Written(e.0, e.1);
    forall k | 0 <= k < i - 1 ensures !Matches(r[k], e.0) {
      assert ls[k + 1] == r[k];
    }
  }

  lemma StandsParts(ls: seq<string>, v: Updates)
    requires Stands(ls, v)
    ensures forall l :: l in ls && '\n' in l ==> exists e :: e in v && Writes(e) && l == Written(e.0, e.1)
    ensures forall i, k :: 0 <= i < k < |ls| && ls[i] == ls[k] ==> '\n' !in ls[i]
    ensures forall e :: e in v && Writes(e) ==> Heads(ls, e)
    ensures forall e, i :: e in v && Removal(e) && 0 <= i < |ls| && Matches(ls[i], e.0) ==> Spilled(ls[..i], v, e.0)
    ensures forall e :: e in v && Writes(e) ==> Covered(e, v)
  {
    hide Matches, Written, Heads, Spilled, Covered, Writes, Removal;
  }

  lemma StandsWhole(ls: seq<string>, v: Updates)
    requires forall l :: l in ls && '\n' in l ==> exists e :: e in v && Writes(e) && l == Written(e.0, e.1)
    requires forall i, k :: 0 <= i < k < |ls| && ls[i] == ls[k] ==> '\n' !in ls[i]
    requires forall e :: e in v && Writes(e) ==> Heads(ls, e)
    requires forall e, i :: e in v && Removal(e) && 0 <= i < |ls| && Matches(ls[i], e.0) ==> Spilled(ls[..i], v, e.0)
    requires forall e :: e in v && Writes(e) ==> Covered(e, v)
    ensures Stands(ls, v)
  {
    hide Matches, Written, Heads, Spilled, Covered, Writes, Removal;
  }

  // ---- a value on several lines in front ------------------------------------------------------------

  /** Of the entries that find a line of this value there are the one that writes it and removals
      of lines that it spills. */
  lemma BlockHit(b: (string, FieldValue), v: Updates, u: Updates, e: (string, FieldValue))
    requires From(v, u) && b in v && Writes(b) && e in v && Writable(e.0) && Hits(LinesOf(b), e.0)
    ensures e == b || (Removal(e) && SpillsOver(b, e.0))
  {
    hide Spare, Matches, LinesOf, Written;
    var j := FirstMatch(LinesOf(b), e.0);
    HeadLine(u, b);
    if Writes(e) {
      HeadLine(u, e);
      OneLineEach(u, b, j, e, 0, e.0);
    } else if j == 0 {
      WritableIsWord(e.0);
      WritableIsWord(b.0);
      OneKeyPerLine(LinesOf(b)[0], e.0, b.0);
      var n := IndexOfEntry(v, b);
      var m := IndexOfEntry(v, e);
      SameEntry(v, n, m);
    }
  }

  lemma SpillHits(b: (string, FieldValue), key: string)
    requires SpillsOver(b, key)
    ensures Hits(LinesOf(b), key)
  {
    hide Matches, LinesOf;
  }

  /** Another entry than b names this line. */
  ghost predicate Owned(l: string, w: Updates, b: (string, FieldValue)) {
    exists x :: x in w && x != b && Matches(l, x.0)
  }

  ghost predicate AllOwned(rest: seq<string>, w: Updates, b: (string, FieldValue)) {
    forall l :: l in rest ==> Owned(l, w, b)
  }

  /** None of the entries names two of these lines. */
  ghost predicate Apart(rest: seq<string>, w: Updates) {
    forall i, k, x :: 0 <= i < k < |rest| && x in w && Matches(rest[i], x.0) ==> !Matches(rest[k], x.0)
  }

  /** Entries that write a value over its first line and remove all its other lines, in any order. */
  lemma {:induction false} Folds(z: string, rest: seq<string>, w: Updates, b: (string, FieldValue))
    requires UniqueKeys(w) && Writes(b) && forall x :: x in w ==> x == b || (Removal(x) && x.0 != b.0)
    requires if b in w then Matches(z, b.0) else z == Written(b.0, b.1)
    requires forall x :: x in w && x != b ==> !Matches(z, x.0)
    requires AllOwned(rest, w, b) && Apart(rest, w)
    ensures Edit([z] + rest, w) == [Written(b.0, b.1)]
    decreases |w|
  {
    hide Matches, Written, Writable, SetField, AllOwned, Apart, EditOne;
    if w == [] {
      NobodyOwns(rest, b);
    } else {
      var x, ws := w[0], w[1..];
      assert x in w && UniqueKeys(ws);
      TailOf(w);
      if x == b {
        FoldHead(z, rest, b);
        forall y | y in ws ensures y != b && !Matches(Written(b.0, b.1), y.0) {
          WritableIsWord(b.0);
          WritableIsWord(y.0);
          WrittenLine(b.0, b.1, y.0);
        }
        OwnedByOthers(rest, w, b);
        Folds(Written(b.0, b.1), rest, ws, b);
      } else {
        var less := FoldRemoval(z, rest, w, b);
        Folds(z, less, ws, b);
      }
    }
  }

  lemma NobodyOwns(rest: seq<string>, b: (string, FieldValue))
    requires AllOwned(rest, [], b)
    ensures rest == []
  {
    hide Owned;
    assert rest == [] || rest[0] in rest;
    forall l ensures !Owned(l, [], b) {
      OwnedByNobody(l, b);
    }
  }

  lemma OwnedByNobody(l: string, b: (string, FieldValue))
    ensures !Owned(l, [], b)
  {}

  lemma OwnedByOthers(rest: seq<string>, w: Updates, b: (string, FieldValue))
    requires w != [] && w[0] == b && AllOwned(rest, w, b) && Apart(rest, w)
    ensures AllOwned(rest, w[1..], b) && Apart(rest, w[1..])
  {
    hide Matches;
    forall l | l in rest ensures Owned(l, w[1..], b) {
      var y :| y in w && y != b && Matches(l, y.0);
      assert y in w[1..];
    }
    assert forall x :: x in w[1..] ==> x in w;
  }

  lemma TailOf(w: Updates)
    requires w != [] && UniqueKeys(w)
    ensures forall y :: y in w <==> y == w[0] || y in w[1..]
    ensures forall y :: y in w[1..] ==> y.0 != w[0].0
  {
    forall y | y in w[1..] ensures y.0 != w[0].0 {
      var k :| 0 <= k < |w[1..]| && w[1..][k] == y;
      assert w[k + 1] == y;
    }
  }

  lemma FoldHead(z: string, rest: seq<string>, b: (string, FieldValue))
    requires Writes(b) && Matches(z, b.0)
    ensures EditOne([z] + rest, b.0, b.1) == [Written(b.0, b.1)] + rest
  {
    hide Matches, Written;
    FirstMatchUnique([z] + rest, b.0, 0);
    assert ([z] + rest)[0 := Written(b.0, b.1)] == [Written(b.0, b.1)] + rest;
  }

  /** One removal takes the only line of its key. */
  lemma FoldRemoval(z: string, rest: seq<string>, w: Updates, b: (string, FieldValue)) returns (less: seq<string>)
    requires w != [] && UniqueKeys(w) && Removal(w[0]) && w[0] != b && !Matches(z, w[0].0)
    requires AllOwned(rest, w, b) && Apart(rest, w)
    ensures EditOne([z] + rest, w[0].0, w[0].1) == [z] + less
    ensures AllOwned(less, w[1..], b) && Apart(less, w[1..])
  {
    hide Matches, Written, AllOwned, Apart, SetField;
    var x := w[0];
    var at := FirstMatch(rest, x.0);
    HitsOne(z, x.0);
    SetFieldConcat([z], rest, x.0, x.1);
    UpdateCases(rest, x.0, x.1);
    if at < |rest| {
      less := rest[..at] + rest[at + 1..];
      LessOwned(rest, at, w, b);
    } else {
      less := rest;
      SameOwned(rest, w, b);
    }
  }

  lemma LessOwned(rest: seq<string>, at: nat, w: Updates, b: (string, FieldValue))
    requires w != [] && at < |rest| && Matches(rest[at], w[0].0) && AllOwned(rest, w, b) && Apart(rest, w)
    ensures var less := rest[..at] + rest[at + 1..]; AllOwned(less, w[1..], b) && Apart(less, w[1..])
  {
    hide Matches;
    var less := rest[..at] + rest[at + 1..];
    assert forall x :: x in w <==> x == w[0] || x in w[1..];
    forall l | l in less ensures Owned(l, w[1..], b) {
      var k :| 0 <= k < |less| && less[k] == l;
      var o := if k < at then k else k + 1;
      assert l == rest[o] && rest[o] in rest;
      var y :| y in w && y != b && Matches(rest[o], y.0);
      assert w[0] in w;
      assert !(o < at && Matches(rest[o], w[0].0)) && !(at < o && Matches(rest[o], w[0].0));
    }
    forall i, k, x | 0 <= i < k < |less| && x in w[1..] && Matches(less[i], x.0) ensures !Matches(less[k], x.0) {
      assert less[i] == rest[if i < at then i else i + 1] && less[k] == rest[if k < at then k else k + 1];
    }
  }

  lemma SameOwned(rest: seq<string>, w: Updates, b: (string, FieldValue))
    requires w != [] && AllOwned(rest, w, b) && Apart(rest, w) && forall k :: 0 <= k < |rest| ==> !Matches(rest[k], w[0].0)
    ensures AllOwned(rest, w[1..], b) && Apart(rest, w[1..])
  {
    hide Matches;
    assert forall x :: x in w <==> x == w[0] || x in w[1..];
    forall l | l in rest ensures Owned(l, w[1..], b) {
      var k :| 0 <= k < |rest| && rest[k] == l;
      var y :| y in w && y != b && Matches(l, y.0);
    }
  }

  lemma BlockFolds(b: (string, FieldValue), v: Updates, u: Updates)
    requires From(v, u) && b in v && Writes(b) && Covered(b, v)
    ensures Edit(LinesOf(b), Part(v, LinesOf(b), true)) == [Written(b.0, b.1)]
  {
    hide Spare, Matches, LinesOf, Written, Writable, Edit, AllOwned, Apart, SpillsOver, Covered;
    var ls, w := LinesOf(b), Part(v, LinesOf(b), true);
    FromPart(v, u, ls, true);
    PartAre(v, ls, true);
    HeadLine(u, b);
    HitsFirst(ls, b.0);
    assert b in w;
    forall x | x in w && x != b ensures Removal(x) && x.0 != b.0 && !Matches(ls[0], x.0) {
      BlockHit(b, v, u, x);
      OtherKey(v, b, x);
      NotHead(ls[0], b.0, x.0);
    }
    BlockOwned(b, v, u);
    assert ls == [ls[0]] + ls[1..];
    Folds(ls[0], ls[1..], w, b);
  }

  lemma OtherKey(v: Updates, b: (string, FieldValue), x: (string, FieldValue))
    requires UniqueKeys(v) && b in v && x in v && b != x
    ensures b.0 != x.0
  {
    var n := IndexOfEntry(v, b);
    var m := IndexOfEntry(v, x);
  }

  lemma NotHead(l: string, key: string, other: string)
    requires Writable(key) && Writable(other) && key != other && Matches(l, key)
    ensures !Matches(l, other)
  {
    WritableIsWord(key);
    WritableIsWord(other);
    if Matches(l, other) {
      OneKeyPerLine(l, key, other);
    }
  }

  lemma BlockOwned(b: (string, FieldValue), v: Updates, u: Updates)
    requires From(v, u) && b in v && Writes(b) && Covered(b, v)
    ensures var w := Part(v, LinesOf(b), true); AllOwned(LinesOf(b)[1..], w, b) && Apart(LinesOf(b)[1..], w)
  {
    hide Spare, Matches, LinesOf, Written, Writable;
    var ls, w := LinesOf(b), Part(v, LinesOf(b), true);
    hide Hits, AllOwned;
    SpillsOwned(b, v, u);
    PartAre(v, ls, true);
    forall i, k, x | 0 <= i < k < |ls[1..]| && x in w && Matches(ls[1..][i], x.0) ensures !Matches(ls[1..][k], x.0) {
      if Matches(ls[1..][k], x.0) {
        OneLineEach(u, b, i + 1, b, k + 1, x.0);
      }
    }
  }

  lemma CoverAt(e: (string, FieldValue), v: Updates, j: nat) returns (x: (string, FieldValue))
    requires Covered(e, v) && 0 < j < |LinesOf(e)|
    ensures x in v && Removal(x) && Matches(LinesOf(e)[j], x.0)
  {
    hide Removal, Matches, LinesOf;
    assert Removed(LinesOf(e)[j], v);
    x :| x in v && Removal(x) && Matches(LinesOf(e)[j], x.0);
  }

  lemma SpillsOwned(b: (string, FieldValue), v: Updates, u: Updates)
    requires From(v, u) && b in v && Writes(b) && Covered(b, v)
    ensures AllOwned(LinesOf(b)[1..], Part(v, LinesOf(b), true), b)
  {
    hide Spare, Matches, LinesOf, Written, Hits, Covered, Removal, Part;
    var ls, w := LinesOf(b), Part(v, LinesOf(b), true);
    PartAre(v, ls, true);
    RemovalIsNoWrite(b);
    forall l | l in ls[1..] ensures Owned(l, w, b) {
      var k :| 0 <= k < |ls[1..]| && ls[1..][k] == l;
      assert l == ls[k + 1];
      var x := CoverAt(b, v, k + 1);
      HitsAt(ls, k + 1, x.0);
      assert x in w && x != b;
    }
  }

  lemma RemovalIsNoWrite(b: (string, FieldValue))
    ensures forall x :: Removal(x) ==> Writable(x.0) && (Writes(b) ==> x != b)
  {}

  lemma HitsAt(ls: seq<string>, i: nat, key: string)
    requires i < |ls| && Matches(ls[i], key)
    ensures Hits(ls, key)
  {
    hide Matches;
  }

  lemma HitsFirst(ls: seq<string>, key: string)
    requires ls != [] && Matches(ls[0], key)
    ensures Hits(ls, key)
  {
    HitsAt(ls, 0, key);
  }

  /** What is behind a value on several lines stands for the entries that find nothing in it. */
  lemma BlockRest(b: (string, FieldValue), r: seq<string>, v: Updates, u: Updates)
    requires From(v, u) && b in v && Writes(b) && '\n' in Written(b.0, b.1) && Stands([Written(b.0, b.1)] + r, v)
    ensures Stands(r, Part(v, LinesOf(b), false))
  {
    hide Spare, Matches, Written, LinesOf, Stands, SpillsOver, Heads, Spilled, Covered, Hits, Writes, Removal;
    var l := Written(b.0, b.1);
    var ls, vq := [l] + r, Part(v, LinesOf(b), false);
    StandsParts(ls, v);
    assert !(b in vq) && forall e :: e in vq ==> e in v by { BlockParts(b, v, u); }
    NotAgain(l, r);
    forall x | x in r && '\n' in x ensures exists e :: e in vq && Writes(e) && x == Written(e.0, e.1) {
      assert x in ls;
      var e :| e in v && Writes(e) && x == Written(e.0, e.1);
      BlockKeeps(b, v, u, e);
    }
    forall i, k | 0 <= i < k < |r| && r[i] == r[k] ensures '\n' !in r[i] {
      assert ls[i + 1] == r[i] && ls[k + 1] == r[k];
    }
    forall e | e in vq && Writes(e) ensures Heads(r, e) {
      if l == Written(e.0, e.1) {
        SameText(u, e, b);
      }
      HeadsBehind(l, r, e);
    }
    forall e, i | e in vq && Removal(e) && 0 <= i < |r| && Matches(r[i], e.0) ensures Spilled(r[..i], vq, e.0) {
      assert ls[i + 1] == r[i] && ls[..i + 1] == [l] + r[..i];
      assert forall x :: x in r[..i] ==> x in r;
      BlockSpilled(b, r[..i], v, u, e);
    }
    forall e | e in vq && Writes(e) ensures Covered(e, vq) {
      BlockCovered(b, v, u, e);
    }
    StandsWhole(r, vq);
  }

  lemma BlockParts(b: (string, FieldValue), v: Updates, u: Updates)
    requires From(v, u) && b in v && Writes(b)
    ensures var vq := Part(v, LinesOf(b), false); !(b in vq) && forall e :: e in vq ==> e in v
  {
    hide Spare, Matches, Written, LinesOf;
    PartAre(v, LinesOf(b), false);
    HeadLine(u, b);
    HitsFirst(LinesOf(b), b.0);
  }

  /** Another value's entry finds nothing in this one. */
  lemma BlockKeeps(b: (string, FieldValue), v: Updates, u: Updates, e: (string, FieldValue))
    requires From(v, u) && b in v && Writes(b) && e in v && e != b && Writes(e)
    ensures e in Part(v, LinesOf(b), false)
  {
    hide Spare, Matches, Written, LinesOf, Hits;
    PartAre(v, LinesOf(b), false);
    if Hits(LinesOf(b), e.0) {
      BlockHit(b, v, u, e);
    }
  }

  lemma BlockSpilled(b: (string, FieldValue), before: seq<string>, v: Updates, u: Updates, e: (string, FieldValue))
    requires From(v, u) && b in v && Writes(b) && e in Part(v, LinesOf(b), false) && Removal(e)
    requires Spilled([Written(b.0, b.1)] + before, v, e.0) && forall l :: l in before ==> l != Written(b.0, b.1)
    ensures Spilled(before, Part(v, LinesOf(b), false), e.0)
  {
    hide Spare, Matches, Written, LinesOf, SpillsOver, Hits;
    var l := Written(b.0, b.1);
    PartAre(v, LinesOf(b), false);
    var w :| w in v && Writes(w) && Written(w.0, w.1) in [l] + before && SpillsOver(w, e.0);
    if w == b {
      SpillHits(b, e.0);
    } else {
      if l == Written(w.0, w.1) {
        SameText(u, w, b);
      }
      BlockKeeps(b, v, u, w);
    }
  }

  lemma NotAgain(l: string, r: seq<string>)
    requires '\n' in l && forall i, k :: 0 <= i < k < |[l] + r| && ([l] + r)[i] == ([l] + r)[k] ==> '\n' !in ([l] + r)[i]
    ensures forall x :: x in r ==> x != l
  {
    var ls := [l] + r;
    forall x | x in r ensures x != l {
      var i :| 0 <= i < |r| && r[i] == x;
      assert ls[0] == l && ls[i + 1] == x;
    }
  }

  lemma BlockCovered(b: (string, FieldValue), v: Updates, u: Updates, e: (string, FieldValue))
    requires From(v, u) && b in v && Writes(b) && e in v && e != b && Writes(e) && Covered(e, v)
    ensures Covered(e, Part(v, LinesOf(b), false))
  {
    hide Spare, Matches, Written, LinesOf;
    var vq := Part(v, LinesOf(b), false);
    forall j | 0 < j < |LinesOf(e)| ensures Removed(LinesOf(e)[j], vq) {
      var x := CoveredElsewhere(b, v, u, e, j);
    }
  }

  lemma CoveredElsewhere(b: (string, FieldValue), v: Updates, u: Updates, e: (string, FieldValue), j: nat) returns (x: (string, FieldValue))
    requires From(v, u) && b in v && Writes(b) && e in v && e != b && Writes(e) && Covered(e, v) && 0 < j < |LinesOf(e)|
    ensures x in Part(v, LinesOf(b), false) && Removal(x) && Matches(LinesOf(e)[j], x.0)
  {
    hide Spare, Matches, Written, LinesOf;
    PartAre(v, LinesOf(b), false);
    x := CoverAt(e, v, j);
    if Hits(LinesOf(b), x.0) {
      OneLineEach(u, b, FirstMatch(LinesOf(b), x.0), e, j, x.0);
    }
  }

  /** Pieces that stand are what an edit of their lines makes of them. */
  lemma {:induction false} StandsEdits(ls: seq<string>, v: Updates, u: Updates)
    requires From(v, u) && Stands(ls, v)
    ensures Edit(Flat(ls), v) == ls
    decreases |ls|
  {
    hide Spare, Matches, Written, Writable, LinesOf, Stands, SplitLines, Edit;
    if ls == [] {
      StandsParts(ls, v);
      assert forall e :: e in v ==> !Writes(e);
      RemovalsOnNothing(v);
    } else {
      var l, r := ls[0], ls[1..];
      assert ls == [l] + r;
      EditHalves(SplitLines(l), Flat(r), v);
      FromPart(v, u, SplitLines(l), false);
      if '\n' in l {
        StandsParts(ls, v);
        assert l in ls;
        var b :| b in v && Writes(b) && l == Written(b.0, b.1);
        ValueLines(b);
        BlockFolds(b, v, u);
        BlockRest(b, r, v, u);
      } else {
        Unsplit(l);
        PlainFolds(l, r, v, u);
        PlainRest(l, r, v, u);
      }
      StandsEdits(r, Part(v, SplitLines(l), false), u);
    }
  }

  // ---- what an edit leaves stands --------------------------------------------------------------

  /** How often an update may write this text. */
  function Copies(u: Updates, text: string): nat {
    if u == [] then 0 else (if Writes(u[0]) && Written(u[0].0, u[0].1) == text then 1 else 0) + Copies(u[1..], text)
  }

  lemma {:induction false} CopiesBound(h: seq<string>, u: Updates, text: string)
    ensures multiset(Edit(h, u))[text] <= multiset(h)[text] + Copies(u, text)
    decreases |u|
  {
    hide Matches, Written, Writable;
    if u != [] {
      var h1 := EditOne(h, u[0].0, u[0].1);
      CopiesBound(h1, u[1..], text);
      CopiesOne(h, u[0], text);
    }
  }

  lemma CopiesOne(h: seq<string>, e: (string, FieldValue), text: string)
    ensures multiset(EditOne(h, e.0, e.1))[text] <= multiset(h)[text] + if Writes(e) && Written(e.0, e.1) == text then 1 else 0
  {
    hide *;
    var i, line := FirstMatch(h, e.0), Written(e.0, e.1);
    UpdateCases(h, e.0, e.1);
    OneIs(h, e);
    if i < |h| {
      CopiesAt(h, i, line, text);
    }
  }

  lemma OneIs(h: seq<string>, e: (string, FieldValue))
    ensures EditOne(h, e.0, e.1) == if Writable(e.0) then SetField(h, e.0, e.1) else h
    ensures Writes(e) <==> Writable(e.0) && !e.1.Removes()
  {
    hide Writable, SetField;
  }

  lemma CopiesAt(h: seq<string>, i: nat, line: string, text: string)
    requires i < |h|
    ensures multiset(h[..i] + h[i + 1..])[text] <= multiset(h)[text]
    ensures multiset(h[i := line])[text] <= multiset(h)[text] + if line == text then 1 else 0
  {
    assert h == h[..i] + [h[i]] + h[i + 1..];
  }

  lemma {:induction false} CopiesOnce(u: Updates, text: string)
    requires UniqueKeys(u) && forall e, f :: e in u && f in u && Writes(e) && Writes(f) && Written(e.0, e.1) == text == Written(f.0, f.1) ==> e == f
    ensures Copies(u, text) <= 1
    ensures Copies(u, text) == 0 || exists e :: e in u && Writes(e) && Written(e.0, e.1) == text
    decreases |u|
  {
    hide Written, Writes;
    if u != [] {
      assert UniqueKeys(u[1..]) && u[0] in u && forall e :: e in u[1..] ==> e in u;
      TailOf(u);
      CopiesOnce(u[1..], text);
    }
  }

  lemma {:induction false} TwoCopies(ls: seq<string>, i: nat, k: nat)
    requires i < k < |ls| && ls[i] == ls[k]
    ensures multiset(ls)[ls[i]] >= 2
  {
    assert ls == ls[..k] + [ls[k]] + ls[k + 1..];
    assert ls[i] in ls[..k];
  }

  lemma BlocksOnce(h: seq<string>, u: Updates, i: nat, k: nat)
    requires Spare(u) && UniqueKeys(u) && Plain(h) && i < k < |Edit(h, u)| && Edit(h, u)[i] == Edit(h, u)[k]
    ensures '\n' !in Edit(h, u)[i]
  {
    hide Spare, Written, Writes, Edit;
    var text := Edit(h, u)[i];
    PlainHas(h, text);
    if '\n' in text {
      forall e, f | e in u && f in u && Writes(e) && Writes(f) && Written(e.0, e.1) == text == Written(f.0, f.1) ensures e == f {
        SameText(u, e, f);
      }
      CopiesOnce(u, text);
      CopiesBound(h, u, text);
      TwoCopies(Edit(h, u), i, k);
    }
  }

  /** What a repeatable patch leaves stands. */
  lemma RepeatableStands(h: seq<string>, u: Updates)
    requires Repeatable(h, u) && UniqueKeys(u) && Plain(h)
    ensures Stands(Edit(h, u), u)
  {
    hide Spare, Matches, Written, Edit, Heads, Spilled, Covered, Plain, CountOf, AtMostOnce, SpillsOver, Before, Writable;
    var all := Edit(h, u);
    forall l | l in all && '\n' in l ensures exists e :: e in u && Writes(e) && l == Written(e.0, e.1) {
      EditElements(h, u, l);
      PlainHas(h, l);
    }
    forall i, k | 0 <= i < k < |all| && all[i] == all[k] ensures '\n' !in all[i] {
      BlocksOnce(h, u, i, k);
    }
    forall e | e in u && Writes(e) ensures Heads(all, e) && Covered(e, u) {
      ValueHeads(h, u, e);
    }
    forall e, i | e in u && Removal(e) && 0 <= i < |all| && Matches(all[i], e.0) ensures Spilled(all[..i], u, e.0) {
      RemovedBehind(h, u, e, i);
    }
    StandsWhole(all, u);
  }

  lemma PlainHas(h: seq<string>, l: string)
    requires Plain(h)
    ensures l in h ==> '\n' !in l
  {}

  lemma ValueHeads(h: seq<string>, u: Updates, e: (string, FieldValue))
    requires Spare(u) && UniqueKeys(u) && e in u && Writes(e)
    ensures Heads(Edit(h, u), e) && Covered(e, u)
  {
    hide Spare, Matches, Written, Edit, LinesOf, PiecesOf;
    var n := IndexOfEntry(u, e);
    var i := Placed(h, u, n);
    var all := Edit(h, u);
    CountNone(all[..i], e.0);
    forall k | 0 <= k < i ensures !Matches(all[k], e.0) {
      assert all[..i][k] == all[k];
    }
    forall j | 0 < j < |LinesOf(e)| ensures Removed(LinesOf(e)[j], u) {
      var m := SpilledIsRemoved(u, n, j);
      assert u[m] in u;
    }
  }

  lemma RemovedBehind(h: seq<string>, u: Updates, e: (string, FieldValue), i: nat)
    requires Repeatable(h, u) && UniqueKeys(u) && Plain(h) && e in u && Removal(e)
    requires i < |Edit(h, u)| && Matches(Edit(h, u)[i], e.0)
    ensures Spilled(Edit(h, u)[..i], u, e.0)
  {
    hide Spare, Matches, Written, Edit, SpillsOver, CountOf, PiecesOf, Writable, Plain, Before, AtMostOnce;
    var all := Edit(h, u);
    var m := IndexOfEntry(u, e);
    WritableIsWord(e.0);
    if n :| 0 <= n < |u| && Writes(u[n]) && SpillsOver(u[n], e.0) {
      var p := Placed(h, u, n);
      LessIs(Before(h, e.0, u[n].0));
      CountNone(all[..p], e.0);
      WritableIsWord(u[n].0);
      WrittenLine(u[n].0, u[n].1, e.0);
      OtherKeys(u, n, m);
      assert forall k :: 0 <= k < p ==> all[..p][k] == all[k];
      assert all[..i][p] == Written(u[n].0, u[n].1) && u[n] in u;
    } else {
      UnspilledCounts(h, u, m);
      CountSeveral(h, e.0);
      LessIs(CountOf(h, e.0));
      CountNone(all, e.0);
    }
  }
}
