/** Saving the same patch twice, from file to file: every save splits the text again, so a value
    on several lines is several lines to the next save. */
module FrontmatterRepeats {
  import opened Options
  import opened Frontmatter
  import opened FrontmatterEdits
  import opened FrontmatterStores
  import Seqs

  /** Saving this patch leaves the file as it is, but for a leading byte-order mark. */
  predicate SavesAsIs(file: string, u: Updates) {
    Updated(file, u) == Rewritten(StripBom(file))
  }

  // ---- lines inside lines ---------------------------------------------------------------

  /** The lines that a reader finds in these pieces of text. */
  function Flat(ls: seq<string>): seq<string> {
    if ls == [] then [] else SplitLines(ls[0]) + Flat(ls[1..])
  }

  lemma {:induction false} FlatConcat(a: seq<string>, b: seq<string>)
    ensures Flat(a + b) == Flat(a) + Flat(b)
  {
    hide SplitLines;
    if a == [] {
      assert a + b == b;
    } else {
      FlatConcat(a[1..], b);
      assert (a + b)[0] == a[0] && (a + b)[1..] == a[1..] + b;
      Seqs.Assoc(SplitLines(a[0]), Flat(a[1..]), Flat(b));
    }
  }

  lemma FlatOne(l: string)
    ensures Flat([l]) == SplitLines(l)
  {
    assert [l][1..] == [];
    assert SplitLines(l) + [] == SplitLines(l);
  }

  /** A piece that ends the line before a line ending is split by itself. */
  lemma {:induction false} SplitPiece(a: string, eol: string, rest: string)
    requires (eol == "\n" && !EndsCr(a)) || eol == "\r\n"
    ensures SplitLines(a + eol + rest) == SplitLines(a) + SplitLines(rest)
    decreases |a|
  {
    var i := FirstNewline(a);
    hide SplitLines, FirstNewline, HasCrlf;
    if i == |a| {
      SplitFirstPiece(a, eol, rest);
      Unsplit(a);
    } else {
      var line, more := a[..i], a[i + 1..];
      AtNewline(a, i);
      assert a + eol + rest == line + "\n" + (more + eol + rest);
      SplitFirstLine(line, more + eol + rest);
      SplitFirstLine(line, more);
      if EndsCr(more) {
        assert more[|more| - 1] == a[|a| - 1];
      }
      SplitPiece(more, eol, rest);
      Seqs.Assoc([DropCr(line)], SplitLines(more), SplitLines(rest));
    }
  }

  lemma Unsplit(a: string)
    requires '\n' !in a
    ensures SplitLines(a) == [a]
  {
    NoNewline(a);
  }

  lemma SplitFirstPiece(a: string, eol: string, rest: string)
    requires FirstNewline(a) == |a| && ((eol == "\n" && !EndsCr(a)) || eol == "\r\n")
    ensures '\n' !in a && SplitLines(a + eol + rest) == [a] + SplitLines(rest)
  {
    SplitFirst(a, eol, rest);
  }

  lemma SplitFirstLine(line: string, rest: string)
    requires '\n' !in line
    ensures SplitLines(line + "\n" + rest) == [DropCr(line)] + SplitLines(rest)
  {
    var s := line + "\n" + rest;
    assert forall k :: 0 <= k < |line| ==> s[k] == line[k] && line[k] in line;
    assert s[|line|] == '\n';
    assert FirstNewline(s) == |line|;
    assert s[..|line|] == line && s[|line| + 1..] == rest;
    SplitParts(s);
  }

  lemma {:induction false} FlatJoin(ls: seq<string>, eol: string)
    requires ls != [] && (eol == "\n" || eol == "\r\n")
    requires eol == "\n" ==> forall l :: l in ls[..|ls| - 1] ==> !EndsCr(l)
    ensures SplitLines(JoinLines(ls, eol)) == Flat(ls)
    decreases |ls|
  {
    hide SplitLines, EndsCr;
    if |ls| == 1 {
      assert ls == [ls[0]];
      FlatOne(ls[0]);
    } else {
      assert ls[0] in ls[..|ls| - 1] && ls[1..][..|ls| - 2] == ls[..|ls| - 1][1..];
      FlatJoin(ls[1..], eol);
      SplitPiece(ls[0], eol, JoinLines(ls[1..], eol));
    }
  }

  lemma {:induction false} FlatPlain(ls: seq<string>)
    requires forall l :: l in ls ==> '\n' !in l
    ensures Flat(ls) == ls
  {
    hide SplitLines;
    if ls != [] {
      FlatPlain(ls[1..]);
      Unsplit(ls[0]);
      assert [ls[0]] + ls[1..] == ls;
    }
  }

  // ---- what a save adds and takes ---------------------------------------------------------

  function CountIf(ls: seq<string>, p: string -> bool): nat {
    if ls == [] then 0 else CountIf(ls[..|ls| - 1], p) + if p(ls[|ls| - 1]) then 1 else 0
  }

  lemma {:induction false} CountIfConcat(a: seq<string>, b: seq<string>, p: string -> bool)
    ensures CountIf(a + b, p) == CountIf(a, p) + CountIf(b, p)
    decreases |b|
  {
    if b == [] {
      assert a + b == a;
    } else {
      assert (a + b)[..|a + b| - 1] == a + b[..|b| - 1];
      CountIfConcat(a, b[..|b| - 1], p);
    }
  }

  /** The lines of a kind that a reader finds in these pieces of text. */
  function Weight(ls: seq<string>, p: string -> bool): nat {
    CountIf(Flat(ls), p)
  }

  lemma WeightConcat(a: seq<string>, b: seq<string>, p: string -> bool)
    ensures Weight(a + b, p) == Weight(a, p) + Weight(b, p)
  {
    FlatConcat(a, b);
    CountIfConcat(Flat(a), Flat(b), p);
  }

  lemma WeightSplit(h: seq<string>, i: nat, line: string, p: string -> bool)
    requires i < |h|
    ensures Weight(h, p) == Weight(h[..i] + h[i + 1..], p) + Weight([h[i]], p)
    ensures Weight(h[i := line], p) == Weight(h[..i] + h[i + 1..], p) + Weight([line], p)
  {
    hide Weight;
    assert h == h[..i] + [h[i]] + h[i + 1..] && h[i := line] == h[..i] + [line] + h[i + 1..];
    WeightConcat(h[..i], h[i + 1..], p);
    WeightConcat(h[..i] + [h[i]], h[i + 1..], p);
    WeightConcat(h[..i] + [line], h[i + 1..], p);
    WeightConcat(h[..i], [h[i]], p);
    WeightConcat(h[..i], [line], p);
  }

  /** Of the lines that an update can take, only those of these keys are of this kind. */
  ghost predicate TakenBy(p: string -> bool, ks: set<string>) {
    forall l, key :: Writable(key) && Matches(l, key) && p(l) ==> key in ks
  }

  lemma PlainWeight(l: string, key: string, p: string -> bool, ks: set<string>)
    requires '\n' !in l && Writable(key) && Matches(l, key) && TakenBy(p, ks)
    ensures Weight([l], p) <= if key in ks then 1 else 0
  {
    FlatOne(l);
    Unsplit(l);
    hide Matches, Writable;
    assert [l][..0] == [];
    assert CountIf([l], p) == if p(l) then 1 else 0;
  }

  /** What a value brings when it is written. */
  function Brought(e: (string, FieldValue), p: string -> bool): nat {
    if Writes(e) then Weight([Written(e.0, e.1)], p) else 0
  }

  lemma UpdateWeight(h: seq<string>, key: string, v: FieldValue, p: string -> bool, ks: set<string>)
    requires Writable(key) && TakenBy(p, ks)
    requires forall l :: l in h && Matches(l, key) ==> '\n' !in l
    ensures Weight(SetField(h, key, v), p) + (if key in ks then 1 else 0) >= Weight(h, p) + Brought((key, v), p)
  {
    hide *;
    var i, line := FirstMatch(h, key), Written(key, v);
    UpdateCases(h, key, v);
    BroughtIs(key, v, p);
    if i < |h| {
      assert h[i] in h;
      PlainWeight(h[i], key, p, ks);
      WeightSplit(h, i, line, p);
    } else {
      WeightConcat(h, [line], p);
    }
  }

  lemma BroughtIs(key: string, v: FieldValue, p: string -> bool)
    requires Writable(key)
    ensures Brought((key, v), p) == if v.Removes() then 0 else Weight([Written(key, v)], p)
  {
    hide Weight, Written;
  }

  /** The writable entries of a patch under these keys. */
  function Takers(u: Updates, ks: set<string>): nat {
    if u == [] then 0 else (if Writable(u[0].0) && u[0].0 in ks then 1 else 0) + Takers(u[1..], ks)
  }

  /** What all its values bring. */
  function AllBrought(u: Updates, p: string -> bool): nat {
    if u == [] then 0 else Brought(u[0], p) + AllBrought(u[1..], p)
  }

  /** Every line that a key of the patch matches is a single line. */
  predicate PlainMatches(h: seq<string>, u: Updates) {
    forall l, e :: l in h && e in u && Writable(e.0) && Matches(l, e.0) ==> '\n' !in l
  }

  lemma PlainMatchesRest(h: seq<string>, u: Updates)
    requires u != [] && UniqueKeys(u) && PlainMatches(h, u)
    ensures PlainMatches(EditOne(h, u[0].0, u[0].1), u[1..]) && UniqueKeys(u[1..])
  {
    hide Matches, Writable, Written;
    var h1 := EditOne(h, u[0].0, u[0].1);
    forall l, e | l in h1 && e in u[1..] && Writable(e.0) && Matches(l, e.0) ensures '\n' !in l {
      var k :| 0 <= k < |u[1..]| && u[1..][k] == e;
      assert u[k + 1] == e && e in u;
      if l !in h {
        assert l == Written(u[0].0, u[0].1) && Writable(u[0].0) && !u[0].1.Removes();
        WritableIsWord(u[0].0);
        WritableIsWord(e.0);
        WrittenLine(u[0].0, u[0].1, e.0);
      }
    }
  }

  lemma {:induction false} EditWeight(h: seq<string>, u: Updates, p: string -> bool, ks: set<string>)
    requires UniqueKeys(u) && PlainMatches(h, u) && TakenBy(p, ks)
    ensures Weight(Edit(h, u), p) + Takers(u, ks) >= Weight(h, p) + AllBrought(u, p)
    decreases |u|
  {
    hide Matches, Writable, Written, Weight, TakenBy, SetField, PlainMatches;
    if u != [] {
      PlainMatchesRest(h, u);
      EditWeight(EditOne(h, u[0].0, u[0].1), u[1..], p, ks);
      if Writable(u[0].0) {
        PlainMatchesHere(h, u);
        UpdateWeight(h, u[0].0, u[0].1, p, ks);
        assert u[0] == (u[0].0, u[0].1);
      }
    }
  }

  lemma PlainMatchesHere(h: seq<string>, u: Updates)
    requires u != [] && PlainMatches(h, u) && Writable(u[0].0)
    ensures forall l :: l in h && Matches(l, u[0].0) ==> '\n' !in l
  {
    hide Matches;
    assert u[0] in u;
  }

  /** A save that leaves a file as it is brings no more lines of a kind than its keys take. */
  lemma NothingGained(file: string, u: Updates, p: string -> bool, ks: set<string>)
    requires UniqueKeys(u) && SavesAsIs(file, u) && TakenBy(p, ks)
    ensures AllBrought(u, p) <= Takers(u, ks)
  {
    hide *;
    var s := StripBom(file);
    SavedParts(file, u);
    var ls, h, all := SplitLines(s), Header(s), EditedLines(s, u);
    SplitClean(s);
    EditedEndings(s, u);
    FlatJoin(all, Eol(s));
    FlatPlain(ls);
    HeaderPlain(s, u);
    EditWeight(h, u, p, ks);
    assert Weight(all, p) == Weight(ls, p) by { SameWeight(all, ls, p); }
    Parts(s, u);
    WeightConcat(ls[..1] + Edit(h, u), ls[End(s)..], p);
    WeightConcat(ls[..1], Edit(h, u), p);
    WeightConcat(ls[..1] + h, ls[End(s)..], p);
    WeightConcat(ls[..1], h, p);
  }

  lemma SavedParts(file: string, u: Updates)
    requires SavesAsIs(file, u)
    ensures var s := StripBom(file); HasHeader(s) && JoinLines(EditedLines(s, u), Eol(s)) == s
  {}

  lemma SplitClean(s: string)
    ensures (Eol(s) == "\n" || Eol(s) == "\r\n") && Clean(SplitLines(s), Eol(s))
    ensures forall l :: l in SplitLines(s) ==> '\n' !in l
  {
    CleanSplit(s);
    hide HasCrlf, SplitLines;
  }

  lemma SameWeight(a: seq<string>, b: seq<string>, p: string -> bool)
    requires Flat(a) == Flat(b)
    ensures Weight(a, p) == Weight(b, p)
  {}

  lemma Parts(s: string, u: Updates)
    requires HasHeader(s)
    ensures 1 <= End(s) < |SplitLines(s)|
    ensures EditedLines(s, u) == SplitLines(s)[..1] + Edit(Header(s), u) + SplitLines(s)[End(s)..]
    ensures SplitLines(s) == SplitLines(s)[..1] + Header(s) + SplitLines(s)[End(s)..]
  {
    hide Edit, SplitLines;
    HeaderLines(s);
  }

  lemma HeaderPlain(s: string, u: Updates)
    requires HasHeader(s) && forall l :: l in SplitLines(s) ==> '\n' !in l
    ensures PlainMatches(Header(s), u)
  {
    hide Matches, Writable, SplitLines, End;
    forall l | l in Header(s) ensures l in SplitLines(s) {}
  }

  /** No piece before the last ends in a carriage return where lines end in a newline alone. */
  lemma EditedEndings(s: string, u: Updates)
    requires HasHeader(s) && Clean(SplitLines(s), Eol(s))
    ensures var all := EditedLines(s, u);
            all != [] && (Eol(s) == "\n" ==> forall l :: l in all[..|all| - 1] ==> !EndsCr(l))
  {
    hide Edit, EndsCr, SplitLines, Written, IsFence, HasCrlf;
    Parts(s, u);
    HeaderLines(s);
    var ls, all, tail := SplitLines(s), EditedLines(s, u), SplitLines(s)[End(s)..];
    var front := ls[..|ls| - 1];
    assert all[..|all| - 1] == ls[..1] + Edit(Header(s), u) + tail[..|tail| - 1];
    if Eol(s) == "\n" {
      forall l | l in all[..|all| - 1] ensures !EndsCr(l) {
        if l in Edit(Header(s), u) {
          EditElements(Header(s), u, l);
          if l !in Header(s) {
            var e :| e in u && Writable(e.0) && !e.1.Removes() && l == Written(e.0, e.1);
            WritableIsWord(e.0);
            WrittenLine(e.0, e.1, e.0);
          }
        } else {
          assert l in ls[..1] || l in tail[..|tail| - 1];
          assert ls[..1][0] == front[0] && forall k :: 0 <= k < |tail| - 1 ==> tail[k] == front[End(s) + k];
        }
      }
    }
  }

  // ---- what a patch may bring ------------------------------------------------------------------

  function LooseLine(): string -> bool {
    l => IsLoose(l)
  }

  function LineOfKey(key: string): string -> bool {
    l => Matches(l, key)
  }

  /** Every line that the values of a patch bring is a line of one of its keys, and of each key
      there is at most one. Patches with values on one line are like this. */
  predicate Spare(u: Updates) {
    AllBrought(u, LooseLine()) == 0 &&
    forall key :: key in WRITABLE_FIELDS ==> AllBrought(u, LineOfKey(key)) <= Takers(u, {key})
  }

  lemma LooseTakenByNone()
    ensures TakenBy(LooseLine(), {})
  {
    hide Matches;
  }

  lemma KeyTakesItsLines(key: string)
    requires Writable(key)
    ensures TakenBy(LineOfKey(key), {key})
  {
    forall l, k | Writable(k) && Matches(l, k) && LineOfKey(key)(l) ensures k in {key} {
      WritableIsWord(key);
      WritableIsWord(k);
      OneKeyPerLine(l, key, k);
    }
  }

  lemma {:induction false} NoTakers(u: Updates)
    ensures Takers(u, {}) == 0
  {
    if u != [] {
      NoTakers(u[1..]);
    }
  }

  /** Saving the patch again changes the file unless the patch is spare. */
  lemma HarmlessIsSpare(file: string, u: Updates)
    requires UniqueKeys(u) && SavesAsIs(file, u)
    ensures Spare(u)
  {
    hide SavesAsIs, Matches, AllBrought, Takers, IsLoose, TakenBy;
    LooseTakenByNone();
    NothingGained(file, u, LooseLine(), {});
    NoTakers(u);
    forall key | key in WRITABLE_FIELDS ensures AllBrought(u, LineOfKey(key)) <= Takers(u, {key}) {
      assert Writable(key);
      KeyTakesItsLines(key);
      NothingGained(file, u, LineOfKey(key), {key});
    }
  }

  lemma EolIs(s: string)
    ensures Eol(s) == "\n" || Eol(s) == "\r\n"
  {}

  lemma FirstSave(raw: string, u: Updates)
    requires Updated(raw, u).Rewritten?
    ensures var text := StripBom(raw);
            HasHeader(text) && Updated(raw, u) == Rewritten(JoinLines(EditedLines(text, u), Eol(text)))
  {}

  lemma SameMiddle(a: seq<string>, x: seq<string>, y: seq<string>, b: seq<string>)
    requires a + x + b == a + y + b
    ensures x == y
  {
    assert |x| == |y|;
    assert (a + x + b)[|a|..|a| + |x|] == x && (a + y + b)[|a|..|a| + |y|] == y;
  }
}
