/** The same patch saved twice, from file to file. */
module FrontmatterResaves {
  import opened Options
  import opened Frontmatter
  import opened FrontmatterEdits
  import opened FrontmatterStores
  import opened FrontmatterRepeats
  import opened FrontmatterSpills
  import opened FrontmatterFolds
  import Seqs

  // ---- the next save ------------------------------------------------------------------------------

  lemma MatchNoFence(l: string, key: string)
    requires Writable(key) && Matches(l, key)
    ensures !IsFence(l)
  {
    WritableIsWord(key);
    var i := Lead(l);
    assert l[i] == l[i..i + |key|][0] == key[0];
    TrimRightKeepsFirst(l[i..]);
  }

  lemma {:induction false} InFlat(ls: seq<string>, l: string) returns (p: string)
    requires l in Flat(ls)
    ensures p in ls && l in SplitLines(p)
  {
    hide SplitLines;
    if l in SplitLines(ls[0]) {
      p := ls[0];
    } else {
      p := InFlat(ls[1..], l);
    }
  }

  /** No value of a spare patch brings a fence. */
  lemma NoFenceInside(h: seq<string>, u: Updates)
    requires Spare(u) && Plain(h) && forall l :: l in h ==> !IsFence(l)
    ensures forall l :: l in Flat(Edit(h, u)) ==> !IsFence(l)
  {
    hide Spare, IsFence, Matches, SplitLines, Written, Edit, Flat;
    forall l | l in Flat(Edit(h, u)) ensures !IsFence(l) {
      var p := InFlat(Edit(h, u), l);
      EditElements(h, u, p);
      if p in h {
        Unsplit(p);
      } else {
        var e :| e in u && Writable(e.0) && !e.1.Removes() && p == Written(e.0, e.1);
        var n := IndexOfEntry(u, e);
        ValueLines(e);
        var j :| 0 <= j < |LinesOf(e)| && LinesOf(e)[j] == l;
        NoLooseLine(u, n, j);
        var key :| key in WRITABLE_FIELDS && Matches(l, key);
        MatchNoFence(l, key);
      }
    }
  }

  /** What the first save leaves, as the next one finds it: a first line, the lines of the edited
      pieces, and the rest from the closing fence on. */
  lemma Found(text: string, u: Updates) returns (first: string, tail: seq<string>)
    requires HasHeader(text) && Spare(u)
    ensures var out, g := JoinLines(EditedLines(text, u), Eol(text)), Flat(Edit(Header(text), u));
            EditedLines(text, u) == [first] + Edit(Header(text), u) + tail && tail != [] && Plain([first]) && Plain(tail) &&
            SplitLines(out) == [first] + g + tail && HasHeader(out) && Header(out) == g && End(out) == 1 + |g|
    ensures Eol(text) == "\n" ==> !EndsCr(first)
  {
    hide Spare, IsFence, Edit, Written, SplitLines, HasCrlf, Flat, EndsCr, JoinLines, Matches;
    var ls, all := SplitLines(text), EditedLines(text, u);
    first, tail := ls[0], ls[End(text)..];
    SplitClean(text);
    Parts(text, u);
    HeaderLines(text);
    EditedEndings(text, u);
    FlatJoin(all, Eol(text));
    assert ls[..1] == [first];
    FlatParts(first, Edit(Header(text), u), tail);
    NoFenceInside(Header(text), u);
    var g := Flat(Edit(Header(text), u));
    var found := [first] + g + tail;
    assert found[1..1 + |g|] == g && found[1 + |g|] == ls[End(text)] && found[0] == first;
    ClosingFenceAt(found, 1 + |g|);
    assert first in ls[..|ls| - 1];
  }

  lemma FlatParts(first: string, mid: seq<string>, tail: seq<string>)
    requires Plain([first]) && Plain(tail)
    ensures Flat([first] + mid + tail) == [first] + Flat(mid) + tail
  {
    hide Flat;
    FlatConcat([first] + mid, tail);
    FlatConcat([first], mid);
    FlatPlain([first]);
    FlatPlain(tail);
  }

  /** The same without the byte-order mark that the next save drops. */
  lemma FoundStripped(raw: string, u: Updates, out: string) returns (first: string, tail: seq<string>)
    requires Updated(raw, u) == Rewritten(out) && Spare(u)
    ensures var text, s := StripBom(raw), StripBom(out);
            HasHeader(text) && HasHeader(s) && Eol(s) == Eol(out) && tail != [] && Plain([first]) && Plain(tail) &&
            s == JoinLines([first] + Edit(Header(text), u) + tail, Eol(text)) &&
            SplitLines(s) == [first] + Flat(Edit(Header(text), u)) + tail &&
            Header(s) == Flat(Edit(Header(text), u)) && End(s) == 1 + |Header(s)|
    ensures Eol(StripBom(raw)) == "\n" ==> !EndsCr(first)
  {
    hide Spare, IsFence, Edit, SplitLines, HasCrlf, Flat, JoinLines, EditedLines, HasHeader, Updated, ClosingFence;
    var text, s := StripBom(raw), StripBom(out);
    FirstSave(raw, u);
    first, tail := Found(text, u);
    BomInvisible(out);
    var all := EditedLines(text, u);
    if s != out {
      BomFirstLine(out);
      JoinWithoutFirstChar(all, Eol(text));
      assert [first[1..]] + all[1..] == [first[1..]] + Edit(Header(text), u) + tail;
      assert ([first] + Flat(Edit(Header(text), u)) + tail)[1..] == Flat(Edit(Header(text), u)) + tail;
      StripEnd(out);
      PlainDrop(first);
      first := first[1..];
    }
  }

  lemma PlainDrop(l: string)
    requires Plain([l]) && l != ""
    ensures Plain([l[1..]]) && (!EndsCr(l) ==> !EndsCr(l[1..]))
  {
    assert l in [l];
  }


  lemma StripEnd(out: string)
    requires out != "" && IsBom(out[0]) && HasHeader(out)
    ensures End(out[1..]) == End(out)
  {
    BomFirstLine(out);
    BomIsSpace(SplitLines(out)[0]);
    hide IsFence, SplitLines;
    SameBehindFirst(SplitLines(out), SplitLines(out[1..]));
  }

  // ---- line endings --------------------------------------------------------------------------------

  lemma CrlfCons(c: char, t: string)
    ensures HasCrlf([c] + t) <==> (c == '\r' && t != "" && t[0] == '\n') || HasCrlf(t)
  {
    var s := [c] + t;
    if HasCrlf(t) {
      var k :| 0 <= k < |t| - 1 && t[k] == '\r' && t[k + 1] == '\n';
      assert s[k + 1] == '\r' && s[k + 2] == '\n';
    }
    if HasCrlf(s) && !(c == '\r' && t != "" && t[0] == '\n') {
      var k :| 0 <= k < |s| - 1 && s[k] == '\r' && s[k + 1] == '\n';
      assert t[k - 1] == '\r' && t[k] == '\n';
    }
    if c == '\r' && t != "" && t[0] == '\n' {
      assert s[0] == '\r' && s[1] == '\n';
    }
  }

  lemma CrlfConcat(a: string, b: string)
    ensures HasCrlf(a + b) <==> HasCrlf(a) || HasCrlf(b) || (EndsCr(a) && b != "" && b[0] == '\n')
  {
    var s := a + b;
    if HasCrlf(a) {
      var k :| 0 <= k < |a| - 1 && a[k] == '\r' && a[k + 1] == '\n';
      assert s[k] == '\r' && s[k + 1] == '\n';
    }
    if HasCrlf(b) {
      var k :| 0 <= k < |b| - 1 && b[k] == '\r' && b[k + 1] == '\n';
      assert s[|a| + k] == '\r' && s[|a| + k + 1] == '\n';
    }
    if EndsCr(a) && b != "" && b[0] == '\n' {
      assert s[|a| - 1] == '\r' && s[|a|] == '\n';
    }
    if HasCrlf(s) {
      var k :| 0 <= k < |s| - 1 && s[k] == '\r' && s[k + 1] == '\n';
      if k + 1 < |a| {
        assert a[k] == '\r' && a[k + 1] == '\n';
      } else if k >= |a| {
        assert b[k - |a|] == '\r' && b[k - |a| + 1] == '\n';
      }
    }
  }

  lemma {:induction false} EscapeCrlf(s: string)
    ensures HasCrlf(Escape(s)) <==> HasCrlf(s)
  {
    hide HasCrlf, Escape;
    EscapeStep(s);
    if s != "" {
      var t := s[1..];
      EscapeCrlf(t);
      EscapeFirst(t);
      assert s == [s[0]] + t;
      CrlfCons(s[0], t);
      CrlfCons(s[0], Escape(t));
      if s[0] == '"' {
        QuoteCrlf(Escape(t));
      }
    }
  }

  lemma EscapeFirst(t: string)
    ensures (Escape(t) != "" && Escape(t)[0] == '\n') <==> t != "" && t[0] == '\n'
  {}

  lemma QuoteCrlf(t: string)
    ensures HasCrlf("\\\"" + t) <==> HasCrlf(t)
  {
    hide HasCrlf;
    CrlfCons('"', t);
    CrlfCons('\\', ['"'] + t);
    assert "\\\"" + t == ['\\'] + (['"'] + t);
  }

  lemma WrittenCrlf(key: string, v: FieldValue)
    requires Word(key) && !v.Removes()
    ensures HasCrlf(Written(key, v)) <==> HasCrlf(v.s)
  {
    hide HasCrlf;
    var t := YamlScalar(v);
    assert forall c :: c in key + ": " ==> c != '\n';
    NoNewline(key + ": ");
    CrlfConcat(key + ": ", t);
    assert !EndsCr(key + ": ");
    if NeedsQuotes(v.s) {
      EscapeCrlf(v.s);
      NoNewline("\"");
      CrlfConcat("\"", Escape(v.s));
      CrlfConcat("\"" + Escape(v.s), "\"");
    }
  }

  lemma {:induction false} JoinedCrlf(ls: seq<string>)
    requires ls != [] && forall l :: l in ls[..|ls| - 1] ==> !EndsCr(l)
    ensures HasCrlf(JoinLines(ls, "\n")) <==> exists l :: l in ls && HasCrlf(l)
    decreases |ls|
  {
    hide HasCrlf, EndsCr;
    if |ls| == 1 {
      assert ls == [ls[0]];
    } else {
      var l, rest := ls[0], JoinLines(ls[1..], "\n");
      assert l in ls[..|ls| - 1] && ls[1..][..|ls| - 2] == ls[..|ls| - 1][1..];
      JoinedCrlf(ls[1..]);
      assert ls == [l] + ls[1..];
      NoCrlfAlone();
      CrlfConcat(l, "\n");
      CrlfConcat(l + "\n", rest);
      EndsLf(l);
    }
  }

  lemma NoCrlfAlone()
    ensures !HasCrlf("\n")
  {}

  lemma EndsLf(l: string)
    ensures !EndsCr(l + "\n")
  {}

  lemma CrlfJoined(first: string, rest: seq<string>)
    requires rest != []
    ensures HasCrlf(JoinLines([first] + rest, "\r\n"))
  {
    var s := JoinLines([first] + rest, "\r\n");
    assert ([first] + rest)[1..] == rest;
    assert s[|first|] == '\r' && s[|first| + 1] == '\n';
  }

  /** No value holds a CRLF. */
  predicate CrlfFree(u: Updates) {
    forall e :: e in u && Writes(e) ==> !HasCrlf(e.1.s)
  }

  /** The first save leaves a file its line ending, unless a value brings CRLF into an LF file. */
  lemma EolKept(text: string, u: Updates)
    requires HasHeader(text) && UniqueKeys(u)
    ensures Eol(JoinLines(EditedLines(text, u), Eol(text))) == Eol(text) <==> HasCrlf(text) || CrlfFree(u)
  {
    hide Edit, Written, SplitLines, HasCrlf, EndsCr, IsFence, JoinLines, Matches, Writable;
    var all := EditedLines(text, u);
    SplitClean(text);
    Parts(text, u);
    EditedEndings(text, u);
    if HasCrlf(text) {
      assert all == [all[0]] + all[1..] && all[1..] != [];
      CrlfJoined(all[0], all[1..]);
    } else {
      JoinedCrlf(all);
      PieceWithCrlf(text, u);
    }
  }

  lemma PieceWithCrlf(text: string, u: Updates)
    requires HasHeader(text) && UniqueKeys(u) && Plain(SplitLines(text))
    ensures (exists l :: l in EditedLines(text, u) && HasCrlf(l)) <==> !CrlfFree(u)
  {
    hide Edit, Written, SplitLines, HasCrlf, IsFence, Matches;
    Parts(text, u);
    var ls, h, all := SplitLines(text), Header(text), EditedLines(text, u);
    if l :| l in all && HasCrlf(l) {
      assert l in Edit(h, u) || l in ls;
      assert l !in ls by { PlainNoCrlf(ls, l); }
      assert forall x :: x in h ==> x in ls;
      EditElements(h, u, l);
      var e :| e in u && Writable(e.0) && !e.1.Removes() && l == Written(e.0, e.1);
      WritableIsWord(e.0);
      WrittenCrlf(e.0, e.1);
      assert Writes(e);
    }
    if !CrlfFree(u) {
      var e :| e in u && Writes(e) && HasCrlf(e.1.s);
      var n := IndexOfEntry(u, e);
      WritableIsWord(e.0);
      WrittenCrlf(e.0, e.1);
      WrittenStays(h, u, n);
      assert Written(e.0, e.1) in all;
    }
  }

  lemma PlainNoCrlf(ls: seq<string>, l: string)
    requires Plain(ls) && HasCrlf(l)
    ensures l !in ls
  {}

  // ---- the theorem -----------------------------------------------------------------------------------

  lemma EolDiffers(first: string, a: seq<string>, b: seq<string>)
    requires a != [] && b != [] && !EndsCr(first)
    ensures JoinLines([first] + a, "\n") != JoinLines([first] + b, "\r\n")
  {
    assert ([first] + a)[1..] == a && ([first] + b)[1..] == b;
    assert JoinLines([first] + a, "\n")[|first|] == '\n';
    assert JoinLines([first] + b, "\r\n")[|first|] == '\r';
  }

  lemma SaveIs(s: string, u: Updates, first: string, g: seq<string>, tail: seq<string>)
    requires HasHeader(s) && SplitLines(s) == [first] + g + tail && Header(s) == g && End(s) == 1 + |g|
    ensures EditedLines(s, u) == [first] + Edit(g, u) + tail
  {
    hide Edit, SplitLines, IsFence;
    Parts(s, u);
    var ls := SplitLines(s);
    assert ls[..1] == [first] && ls[End(s)..] == tail;
  }

  lemma Saves(out: string, u: Updates)
    requires HasHeader(StripBom(out))
    ensures var s := StripBom(out); SavesAsIs(out, u) <==> JoinLines(EditedLines(s, u), Eol(s)) == s
  {
    hide EditedLines, JoinLines;
  }

  /** What the second save does, for a spare patch. */
  lemma SpareSave(raw: string, u: Updates, out: string)
    requires Updated(raw, u) == Rewritten(out) && UniqueKeys(u) && Spare(u)
    ensures HasHeader(StripBom(raw))
    ensures SavesAsIs(out, u) <==> Repeatable(Header(StripBom(raw)), u) && (HasCrlf(StripBom(raw)) || CrlfFree(u))
  {
    hide *;
    var text, s := StripBom(raw), StripBom(out);
    var first, tail := FoundStripped(raw, u, out);
    FirstSave(raw, u);
    var h, g := Header(text), Flat(Edit(Header(text), u));
    SaveIs(s, u, first, g, tail);
    Saves(out, u);
    EolKept(text, u);
    EolIs(text);
    EolIs(s);
    PlainHeader(text);
    Seqs.Assoc([first], Edit(h, u), tail);
    Seqs.Assoc([first], Edit(g, u), tail);
    if SavesAsIs(out, u) {
      EolCr(text, s, first, Edit(h, u) + tail, Edit(g, u) + tail);
      SplitClean(s);
      EditedEndings(s, u);
      FlatJoin(EditedLines(s, u), Eol(s));
      PlainIs([first], tail);
      FlatParts(first, Edit(g, u), tail);
      SameMiddle([first], Flat(Edit(g, u)), g, tail);
      StableIsRepeatable(h, u);
    }
    if Repeatable(h, u) && (HasCrlf(text) || CrlfFree(u)) {
      RepeatableStands(h, u);
      WholeIsFrom(u);
      StandsEdits(Edit(h, u), u, u);
    }
  }

  lemma PlainIs(a: seq<string>, b: seq<string>)
    requires Plain(a) && Plain(b)
    ensures forall l :: l in a || l in b ==> '\n' !in l
  {}

  lemma PlainHeader(text: string)
    requires HasHeader(text)
    ensures Plain(Header(text))
  {
    SplitClean(text);
    hide SplitLines, End;
    forall l | l in Header(text) ensures l in SplitLines(text) {}
  }

  lemma WholeIsFrom(u: Updates)
    requires Spare(u) && UniqueKeys(u)
    ensures From(u, u)
  {}

  /** A file that turned from LF to CRLF is not written back as it is. */
  lemma EolCr(text: string, s: string, first: string, a: seq<string>, b: seq<string>)
    requires a != [] && b != [] && (Eol(text) == "\n" ==> !EndsCr(first))
    requires s == JoinLines([first] + a, Eol(text)) && s == JoinLines([first] + b, Eol(s))
    ensures Eol(s) == Eol(text)
  {
    if Eol(text) == "\n" {
      EolDiffers(first, a, b);
    } else {
      CrlfJoined(first, a);
    }
  }

  /** From file to file, for every patch: saving it again leaves the file alone, but for a leading
      byte-order mark, exactly when the patch is repeatable on the header and brings no CRLF into
      an LF file. Over values without newlines this says that removed keys occurred at most once
      and every value is on one line. */
  lemma RepeatedSaveExactly(raw: string, u: Updates, out: string)
    requires Updated(raw, u) == Rewritten(out) && UniqueKeys(u)
    ensures HasHeader(raw)
    ensures SavesAsIs(out, u) <==> Repeatable(Header(raw), u) && (HasCrlf(raw) || CrlfFree(u))
    ensures NewlineFree(u) ==> (SavesAsIs(out, u) <==> Patchable(Header(raw), u))
  {
    hide Spare, HasCrlf, SplitLines, Edit, HasHeader, JoinLines, EditedLines, SavesAsIs, Updated, Patchable, Header;
    FirstSave(raw, u);
    BomInvisible(raw);
    SameCrlf(raw);
    if SavesAsIs(out, u) {
      HarmlessIsSpare(out, u);
    }
    if Spare(u) {
      SpareSave(raw, u, out);
    }
    if NewlineFree(u) {
      if SavesAsIs(out, u) {
        RepeatableIsPatchable(Header(raw), u);
      }
      if Patchable(Header(raw), u) {
        RepeatedSave(raw, u, out);
        Saved(out, u);
      }
    }
  }

  lemma Saved(out: string, u: Updates)
    requires Updated(out, u) == Rewritten(StripBom(out))
    ensures SavesAsIs(out, u)
  {}

  lemma SameCrlf(raw: string)
    ensures HasCrlf(StripBom(raw)) <==> HasCrlf(raw)
  {
    if StripBom(raw) != raw {
      BomNoCrlf(raw);
    }
  }

  lemma RepeatableIsPatchable(h: seq<string>, u: Updates)
    requires Repeatable(h, u) && UniqueKeys(u) && NewlineFree(u)
    ensures Patchable(h, u)
  {
    hide Spare, Matches, Written, Writable, OneLine, AtMostOnce, Before;
    forall e | e in u && Writes(e) ensures OneLine(e.1.s) && |LinesOf(e)| == 1 {
      WritableIsWord(e.0);
      WrittenLine(e.0, e.1, e.0);
      PlainValue(u, e);
    }
    forall e | e in u && Removal(e) ensures AtMostOnce(h, e.0) {
      var m := IndexOfEntry(u, e);
      forall n | 0 <= n < |u| && Writes(u[n]) ensures !SpillsOver(u[n], e.0) {
        assert u[n] in u;
        NoSpill(u[n], e.0);
      }
    }
  }

  // ---- one patch that is harmless, and one that is not ---------------------------------------------

  /** The save of a file given by its lines. */
  lemma SavedLines(ls: seq<string>, n: nat, u: Updates)
    requires 1 <= n < |ls| && Clean(ls, "\n") && IsFence(ls[0]) && IsFence(ls[n]) && forall l :: l in ls[1..n] ==> !IsFence(l)
    requires ls[0] != "" && !IsBom(ls[0][0])
    ensures Updated(JoinLines(ls, "\n"), u) == Rewritten(JoinLines(ls[..1] + Edit(ls[1..n], u) + ls[n..], "\n"))
  {
    hide IsFence, SplitLines, Edit, HasCrlf;
    SplitJoin(ls, "\n");
    ClosingFenceAt(ls, n);
    assert JoinLines(ls, "\n")[0] == ls[0][0];
  }

  /** A value on two lines, the second of which is a line of the key x. */
  function TwoLineValue(t0: string, x: string, t1: string): string {
    t0 + "\n" + (x + ": " + t1)
  }

  lemma {:induction false} EscapePlain(s: string)
    requires '"' !in s
    ensures Escape(s) == s
  {
    if s != "" {
      assert s[0] in s;
      EscapePlain(s[1..]);
    }
  }

  /** Written under the key a it is a line of a and a line of x. */
  lemma SpillLines(a: string, x: string, t0: string, t1: string)
    requires Writable(a) && Writable(x) && a != x && OneLine(t0) && OneLine(t1) && '"' !in t0 + t1
    ensures var v, p, q := Text(TwoLineValue(t0, x, t1)), a + ": " + ("\"" + t0), x + ": " + (t1 + "\"");
            Written(a, v) == p + "\n" + q && Matches(p, a) && Matches(q, x) && !Matches(p, x) && !Matches(Written(a, v), x) &&
            '\n' !in p && '\n' !in q && !EndsCr(p) && !EndsCr(q) && !IsFence(p) && !IsFence(q)
  {
    hide Matches, IsFence, YamlScalar, Word, OneLine, TwoLineValue, EndsCr;
    var s := TwoLineValue(t0, x, t1);
    var p, q := a + ": " + ("\"" + t0), x + ": " + (t1 + "\"");
    WritableIsWord(a);
    WritableIsWord(x);
    QuotedOneLine(t0, t1);
    KeyThenColon(a, "\"" + t0);
    KeyThenColon(x, t1 + "\"");
    NotHead(p, a, x);
    MatchNoFence(p, a);
    MatchNoFence(q, x);
    SpillWritten(a, x, t0, t1);
    Spills(t0, x, t1);
    WrittenLine(a, Text(s), x);
    OneLinePlain(p, a, "\"" + t0);
    OneLinePlain(q, x, t1 + "\"");
  }

  lemma QuotedOneLine(t0: string, t1: string)
    requires OneLine(t0) && OneLine(t1)
    ensures OneLine("\"" + t0) && OneLine(t1 + "\"")
  {}

  lemma SpillWritten(a: string, x: string, t0: string, t1: string)
    requires Writable(x) && '"' !in t0 + t1
    ensures Written(a, Text(TwoLineValue(t0, x, t1))) == a + ": " + ("\"" + t0) + "\n" + (x + ": " + (t1 + "\""))
  {
    SpillScalar(t0, x, t1);
    hide YamlScalar;
    var scalar := "\"" + (t0 + "\n" + (x + ": " + t1)) + "\"";
    assert scalar == "\"" + t0 + "\n" + (x + ": " + (t1 + "\""));
  }

  lemma SpillScalar(t0: string, x: string, t1: string)
    requires Writable(x) && '"' !in t0 + t1
    ensures YamlScalar(Text(TwoLineValue(t0, x, t1))) == "\"" + TwoLineValue(t0, x, t1) + "\""
  {
    var s := TwoLineValue(t0, x, t1);
    WritableUnquoted(x);
    EscapePlain(s);
    assert SPECIAL[0] == ':' && s[|t0| + 1 + |x|] == ':';
    assert ':' in s && ':' in SPECIAL;
  }

  lemma WritableUnquoted(x: string)
    requires Writable(x)
    ensures '"' !in x
  {}

  lemma OneLinePlain(l: string, key: string, t: string)
    requires Word(key) && OneLine(t) && l == key + ": " + t && t != "" && Matches(l, key)
    ensures '\n' !in l && !EndsCr(l)
  {
    assert l[|l| - 1] == t[|t| - 1] && t[|t| - 1] in t;
    assert forall c :: c in ": " ==> c != '\n';
  }

  lemma JoinInside(a: seq<string>, p: string, q: string, b: seq<string>)
    requires a != [] && b != []
    ensures JoinLines(a + [p + "\n" + q] + b, "\n") == JoinLines(a + [p, q] + b, "\n")
  {
    JoinParts(p, [q], "\n");
    assert [p, q] == [p] + [q];
    assert JoinLines([p + "\n" + q], "\n") == JoinLines([p, q], "\n");
    hide JoinLines;
    JoinConcat(a, [p + "\n" + q], "\n");
    JoinConcat(a, [p, q], "\n");
    JoinConcat(a + [p + "\n" + q], b, "\n");
    JoinConcat(a + [p, q], b, "\n");
  }

  lemma EditTwo(h: seq<string>, a: string, v: FieldValue, x: string)
    requires Writable(a) && Writable(x)
    ensures Edit(h, [(a, v), (x, Null)]) == SetField(SetField(h, a, v), x, Null)
  {
    hide SetField, Writable;
    var u: Updates := [(a, v), (x, Null)];
    assert u[1..] == [(x, Null)];
    EditSingle(SetField(h, a, v), (x, Null));
  }

  /** The edit of a header that names neither key, and of the same with the spilled lines. */
  lemma SpillEdits(h: seq<string>, a: string, v: FieldValue, x: string, p: string, q: string)
    requires Writable(a) && Writable(x) && !v.Removes() && a != x && Matches(p, a) && Matches(q, x)
    requires !Matches(p, x) && !Matches(Written(a, v), x) && forall l :: l in h ==> !Matches(l, a) && !Matches(l, x)
    ensures Edit(h, [(a, v), (x, Null)]) == h + [Written(a, v)] == Edit(h + [p, q], [(a, v), (x, Null)])
  {
    hide Matches, Written, Writable;
    var w := Written(a, v);
    EditTwo(h, a, v, x);
    EditTwo(h + [p, q], a, v, x);
    FirstMatchUnique(h, a, |h|);
    FirstMatchUnique(h + [w], x, |h| + 1);
    FirstMatchUnique(h + [p, q], a, |h|);
    assert (h + [p, q])[|h| := w] == h + [w, q];
    FirstMatchUnique(h + [w, q], x, |h| + 1);
    assert (h + [w, q])[..|h| + 1] + (h + [w, q])[|h| + 2..] == h + [w];
  }

  /** A value on two lines whose repeat is a no-op: into a file that holds neither key, a patch
      writes a value whose second line is a line of the key that the patch removes. The first save
      spills that line; the second one writes it again and removes the old one. */
  lemma HarmlessSpill(ls: seq<string>, n: nat, a: string, x: string, t0: string, t1: string)
    requires Writable(a) && Writable(x) && a != x && OneLine(t0) && OneLine(t1) && '"' !in t0 + t1
    requires 1 <= n < |ls| && Clean(ls, "\n") && IsFence(ls[0]) && IsFence(ls[n]) && ls[0] != "" && !IsBom(ls[0][0])
    requires forall l :: l in ls[1..n] ==> !IsFence(l) && !Matches(l, a) && !Matches(l, x)
    ensures var u: Updates := [(a, Text(TwoLineValue(t0, x, t1))), (x, Null)];
            var raw, out := JoinLines(ls, "\n"), JoinLines(ls[..n] + [Written(a, u[0].1)] + ls[n..], "\n");
            !OneLine(u[0].1.s) && Updated(raw, u) == Rewritten(out) && Updated(out, u) == Rewritten(out)
  {
    hide *;
    var v, p, q := Text(TwoLineValue(t0, x, t1)), a + ": " + ("\"" + t0), x + ": " + (t1 + "\"");
    var u: Updates := [(a, v), (x, Null)];
    var h, w, next := ls[1..n], Written(a, v), ls[..n] + [p, q] + ls[n..];
    SpillLines(a, x, t0, t1);
    Spills(t0, x, t1);
    SpillEdits(h, a, v, x, p, q);
    SavedLines(ls, n, u);
    Pieces(ls, n, w, p, q);
    JoinInside(ls[..n], p, q, ls[n..]);
    StillClean(ls, n, p, q);
    SavedLines(next, n + 2, u);
  }

  lemma Spills(t0: string, x: string, t1: string)
    ensures !OneLine(TwoLineValue(t0, x, t1)) && !Text(TwoLineValue(t0, x, t1)).Removes()
  {
    var s := TwoLineValue(t0, x, t1);
    assert s[|t0|] == '\n' && s[|t0|] in s && IsLineEnd('\n');
  }

  lemma Pieces(ls: seq<string>, n: nat, w: string, p: string, q: string)
    requires 1 <= n < |ls|
    ensures var next := ls[..n] + [p, q] + ls[n..];
            ls[..1] + (ls[1..n] + [w]) == ls[..n] + [w] && next[..1] == ls[..1] && next[1..n + 2] == ls[1..n] + [p, q] &&
            next[n + 2..] == ls[n..] && next[0] == ls[0] && next[n + 2] == ls[n] && |next| == |ls| + 2
  {}

  lemma StillClean(ls: seq<string>, n: nat, p: string, q: string)
    requires 1 <= n < |ls| && Clean(ls, "\n") && '\n' !in p && '\n' !in q && !EndsCr(p) && !EndsCr(q)
    ensures Clean(ls[..n] + [p, q] + ls[n..], "\n")
  {
    hide EndsCr;
    var next := ls[..n] + [p, q] + ls[n..];
    assert next[..|next| - 1] == ls[..n] + [p, q] + ls[n..|ls| - 1];
    assert ls[..|ls| - 1] == ls[..n] + ls[n..|ls| - 1] && ls == ls[..n] + ls[n..];
  }

  /** A value with a line that belongs to no writable key changes every file again at every save. */
  lemma HarmfulSpill(file: string, u: Updates, n: nat, j: nat)
    requires UniqueKeys(u) && n < |u| && Writes(u[n]) && j < |LinesOf(u[n])| && IsLoose(LinesOf(u[n])[j])
    ensures !SavesAsIs(file, u)
  {
    hide SavesAsIs, LinesOf, IsLoose;
    if SavesAsIs(file, u) {
      HarmlessIsSpare(file, u);
      NoLooseLine(u, n, j);
    }
  }
}
