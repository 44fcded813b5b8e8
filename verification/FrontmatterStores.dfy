/** Frontmatter edits seen from the whole file and from the other store: re-reading what was
    written, runs of edits, and the agreement with the SQL store's patch of a map. */
module FrontmatterStores {
  import opened Options
  import opened Frontmatter
  import opened FrontmatterEdits
  import Seqs

  // ---- re-reading ------------------------------------------------------------------

  /** No written value holds a newline. */
  predicate NewlineFree(u: Updates) {
    forall e :: e in u && Writable(e.0) && !e.1.Removes() ==> '\n' !in e.1.s
  }

  lemma {:induction false} EditElements(h: seq<string>, u: Updates, line: string)
    requires line in Edit(h, u)
    ensures line in h || exists e :: e in u && Writable(e.0) && !e.1.Removes() && line == Written(e.0, e.1)
    decreases |u|
  {
    hide Writable, Written, Matches;
    if u != [] {
      assert u[0] in u;
      EditElements(EditOne(h, u[0].0, u[0].1), u[1..], line);
    }
  }

  lemma {:induction false} LineStays(h: seq<string>, u: Updates, line: string)
    requires line in h && forall e :: e in u && Writable(e.0) ==> !Matches(line, e.0)
    ensures line in Edit(h, u)
    decreases |u|
  {
    hide Writable, Written, Matches;
    if u != [] {
      assert u[0] in u;
      var h1 := EditOne(h, u[0].0, u[0].1);
      assert line in h1 by {
        var k :| 0 <= k < |h| && h[k] == line;
        var i := FirstMatch(h, u[0].0);
        if Writable(u[0].0) && i < |h| && u[0].1.Removes() && k > i {
          assert h1[k - 1] == line;
        } else {
          assert h1[k] == line;
        }
      }
      LineStays(h1, u[1..], line);
    }
  }

  /** A value that is written stays written, whatever is updated after it. */
  lemma {:induction false} WrittenStays(h: seq<string>, u: Updates, n: nat)
    requires UniqueKeys(u) && n < |u| && Writable(u[n].0) && !u[n].1.Removes()
    ensures Written(u[n].0, u[n].1) in Edit(h, u)
    decreases |u|
  {
    hide Matches, Written, Writable;
    var h1 := EditOne(h, u[0].0, u[0].1);
    if n > 0 {
      WrittenStays(h1, u[1..], n - 1);
    } else {
      var line := Written(u[0].0, u[0].1);
      assert line == h1[FirstMatch(h, u[0].0)];
      forall e | e in u[1..] && Writable(e.0) ensures !Matches(line, e.0) {
        var k :| 0 <= k < |u[1..]| && u[1..][k] == e;
        assert u[k + 1] == e;
        WritableIsWord(u[0].0);
        WritableIsWord(e.0);
        WrittenLine(u[0].0, u[0].1, e.0);
      }
      LineStays(h1, u[1..], line);
    }
  }

  lemma HeaderLines(text: string)
    requires HasHeader(text)
    ensures 1 <= End(text) < |SplitLines(text)|
    ensures forall l :: l in Header(text) ==> l in SplitLines(text)[..|SplitLines(text)| - 1] && !IsFence(l)
  {
    var ls := SplitLines(text);
    hide IsFence;
    forall l | l in Header(text) ensures l in ls[..|ls| - 1] && !IsFence(l) {
      var k :| 0 <= k < |Header(text)| && Header(text)[k] == l;
      assert ls[..|ls| - 1][k + 1] == l;
    }
  }

  lemma EditedClean(text: string, u: Updates)
    requires HasHeader(text) && NewlineFree(u)
    ensures Clean(EditedLines(text, u), Eol(text)) && |EditedLines(text, u)| > 1
    ensures forall l :: l in Edit(Header(text), u) ==> !IsFence(l)
  {
    hide IsFence, EndsCr, Edit, Written, SplitLines, HasCrlf, NewlineFree;
    CleanSplit(text);
    HeaderLines(text);
    forall l | l in Edit(Header(text), u) ensures '\n' !in l && !IsFence(l) && (Eol(text) == "\n" ==> !EndsCr(l)) {
      EditedLineClean(text, u, l);
    }
    SplicedClean(SplitLines(text), End(text), Edit(Header(text), u), Eol(text));
  }

  lemma EditedLineClean(text: string, u: Updates, l: string)
    requires HasHeader(text) && NewlineFree(u) && l in Edit(Header(text), u) && Clean(SplitLines(text), Eol(text))
    requires forall x :: x in Header(text) ==> !IsFence(x)
    ensures '\n' !in l && !IsFence(l) && (Eol(text) == "\n" ==> !EndsCr(l))
  {
    hide IsFence, EndsCr, Edit, Written, SplitLines, HasCrlf;
    EditElements(Header(text), u, l);
    if l !in Header(text) {
      var e :| e in u && Writable(e.0) && !e.1.Removes() && l == Written(e.0, e.1);
      WritableIsWord(e.0);
      WrittenLine(e.0, e.1, e.0);
    } else {
      var ls := SplitLines(text);
      assert l in ls[..|ls| - 1] && l in ls;
    }
  }

  lemma SplicedClean(ls: seq<string>, end: nat, h: seq<string>, eol: string)
    requires 1 <= end < |ls| && Clean(ls, eol) && forall l :: l in h ==> '\n' !in l && (eol == "\n" ==> !EndsCr(l))
    ensures Clean(ls[..1] + h + ls[end..], eol)
  {
    hide EndsCr;
    var all, tail, front := ls[..1] + h + ls[end..], ls[end..], ls[..|ls| - 1];
    assert all[..|all| - 1] == ls[..1] + h + tail[..|tail| - 1];
    forall l | l in all ensures '\n' !in l {
      assert l in h || l in ls;
    }
    if eol == "\n" {
      forall l | l in all[..|all| - 1] ensures !EndsCr(l) {
        if l !in h {
          assert l in ls[..1] || l in tail[..|tail| - 1];
          assert ls[..1][0] == front[0] && forall k :: 0 <= k < |tail| - 1 ==> tail[k] == front[end + k];
        }
      }
    }
  }

  /** The text of an edit re-reads as exactly the edited lines when no written value holds a
      newline, and never otherwise. */
  lemma RereadExactly(text: string, u: Updates)
    requires HasHeader(text) && UniqueKeys(u)
    ensures SplitLines(JoinLines(EditedLines(text, u), Eol(text))) == EditedLines(text, u) <==> NewlineFree(u)
  {
    var all := EditedLines(text, u);
    if NewlineFree(u) {
      EditedClean(text, u);
      SplitJoin(all, Eol(text));
    } else {
      var e :| e in u && Writable(e.0) && !e.1.Removes() && '\n' in e.1.s;
      var n :| 0 <= n < |u| && u[n] == e;
      WrittenStays(Header(text), u, n);
      WritableIsWord(e.0);
      WrittenLine(e.0, e.1, e.0);
      assert Written(e.0, e.1) in all && '\n' in Written(e.0, e.1);
      CleanSplit(JoinLines(all, Eol(text)));
    }
  }

  /** The closing fence and everything behind it, as text. */
  function Tail(text: string): string
    requires HasHeader(text)
  {
    JoinLines(SplitLines(text)[End(text)..], Eol(text))
  }

  lemma ClosingFenceAt(ls: seq<string>, n: nat)
    requires 1 <= n < |ls| && IsFence(ls[n]) && forall l :: l in ls[1..n] ==> !IsFence(l)
    ensures ClosingFence(ls, 1) == n
  {
    hide IsFence;
    forall k | 1 <= k < n ensures !IsFence(ls[k]) {
      assert ls[k] == ls[1..n][k - 1];
    }
    ClosingFenceUnique(ls, n);
  }

  /** After an edit the fences are found again, the header between them is the edited header,
      the line ending is the same and so is every byte from the closing fence on. */
  lemma Reread(text: string, u: Updates)
    requires HasHeader(text) && NewlineFree(u)
    ensures var out := JoinLines(EditedLines(text, u), Eol(text));
            && HasHeader(out) && Header(out) == Edit(Header(text), u)
            && Eol(out) == Eol(text) && Tail(out) == Tail(text)
  {
    var all, h1, ls := EditedLines(text, u), Edit(Header(text), u), SplitLines(text);
    var out := JoinLines(all, Eol(text));
    EditedClean(text, u);
    SplitJoin(all, Eol(text));
    hide Edit, IsFence, JoinLines;
    var n := 1 + |h1|;
    assert all[1..n] == h1 && all[n..] == ls[End(text)..] && all[0] == ls[0];
    assert all[n] == ls[End(text)];
    ClosingFenceAt(all, n);
  }

  lemma {:induction false} JoinConcat(a: seq<string>, b: seq<string>, eol: string)
    requires a != [] && b != []
    ensures JoinLines(a + b, eol) == JoinLines(a, eol) + eol + JoinLines(b, eol)
    decreases |a|
  {
    if |a| > 1 {
      JoinConcat(a[1..], b, eol);
      assert (a + b)[1..] == a[1..] + b;
      assert a[0] + eol + (JoinLines(a[1..], eol) + eol + JoinLines(b, eol)) ==
             (a[0] + eol + JoinLines(a[1..], eol)) + eol + JoinLines(b, eol);
    } else {
      assert (a + b)[1..] == b && (a + b)[0] == a[0];
    }
  }

  predicate EndsWith(s: string, t: string) {
    |t| <= |s| && s[|s| - |t|..] == t
  }

  /** A file with uniform line endings and the file an edit makes of it end in the same bytes,
      from the closing fence on. */
  lemma BodyKept(text: string, u: Updates)
    requires HasHeader(text) && Uniform(text)
    ensures EndsWith(text, Tail(text))
    ensures EndsWith(JoinLines(EditedLines(text, u), Eol(text)), Tail(text))
  {
    var ls, all, eol := SplitLines(text), EditedLines(text, u), Eol(text);
    RewriteIsIdentity(text);
    var tail := ls[End(text)..];
    assert ls == ls[..End(text)] + tail;
    JoinConcat(ls[..End(text)], tail, eol);
    JoinConcat(ls[..1] + Edit(Header(text), u), tail, eol);
  }

  // ---- the byte-order mark -------------------------------------------------------------

  predicate IsBom(c: char) {
    c as int == 0xFEFF
  }

  lemma BomFirstLine(s: string)
    requires s != "" && IsBom(s[0])
    ensures SplitLines(s)[0] != "" && IsBom(SplitLines(s)[0][0])
    ensures SplitLines(s[1..]) == [SplitLines(s)[0][1..]] + SplitLines(s)[1..]
  {
    var i := FirstNewline(s);
    assert FirstNewline(s[1..]) == i - 1;
    if i < |s| {
      hide SplitLines;
      assert s[..i][1..] == s[1..][..i - 1] && s[i + 1..] == s[1..][i..];
      assert SplitLines(s) == [DropCr(s[..i])] + SplitLines(s[i + 1..]) by { SplitParts(s); }
      assert SplitLines(s[1..]) == [DropCr(s[1..][..i - 1])] + SplitLines(s[1..][i..]) by { SplitParts(s[1..]); }
      assert DropCr(s[..i])[1..] == DropCr(s[..i][1..]);
    }
  }

  lemma BomIsSpace(line: string)
    requires line != "" && IsBom(line[0])
    ensures IsFence(line) <==> IsFence(line[1..])
  {
    assert line[Lead(line)..] == line[1..][Lead(line[1..])..];
  }

  lemma BomNoCrlf(s: string)
    requires s != "" && IsBom(s[0])
    ensures HasCrlf(s) <==> HasCrlf(s[1..])
  {
    if HasCrlf(s) {
      var k :| 0 <= k < |s| - 1 && s[k] == '\r' && s[k + 1] == '\n';
      assert s[1..][k - 1] == '\r' && s[1..][k] == '\n';
    }
    if HasCrlf(s[1..]) {
      var k :| 0 <= k < |s| - 2 && s[1..][k] == '\r' && s[1..][k + 1] == '\n';
      assert s[k + 1] == '\r' && s[k + 2] == '\n';
    }
  }

  /** Lists of lines that differ at most in a first line that is a fence in both or in neither. */
  lemma SameBehindFirst(a: seq<string>, b: seq<string>)
    requires |a| == |b| > 0 && a[1..] == b[1..]
    ensures var e := ClosingFence(a, 1); e == ClosingFence(b, 1) && a[1..e] == b[1..e] && a[e..] == b[e..]
  {
    hide IsFence;
    var e := ClosingFence(a, 1);
    forall k | 1 <= k < |a| ensures a[k] == b[k] {
      assert a[k] == a[1..][k - 1] && b[k] == b[1..][k - 1];
    }
    ClosingFenceUnique(b, e);
  }

  /** The editor drops a leading byte-order mark, and nothing it reads depends on it. */
  lemma BomInvisible(raw: string)
    ensures HasHeader(StripBom(raw)) <==> HasHeader(raw)
    ensures HasHeader(raw) ==> Header(StripBom(raw)) == Header(raw) && Tail(StripBom(raw)) == Tail(raw)
    ensures Eol(StripBom(raw)) == Eol(raw)
  {
    if StripBom(raw) != raw {
      var text, a, b := raw[1..], SplitLines(raw), SplitLines(raw[1..]);
      BomFirstLine(raw);
      BomIsSpace(a[0]);
      BomNoCrlf(raw);
      hide IsFence, HasCrlf, SplitLines, JoinLines, ClosingFence;
      assert b[1..] == a[1..] && b[0] == a[0][1..];
      SameBehindFirst(a, b);
    }
  }

  // ---- runs of edits --------------------------------------------------------------------

  /** `files` are the successive contents of one file under the edits `us`. */
  predicate IsEditRun(files: seq<string>, us: seq<Updates>) {
    |files| == |us| + 1 && forall i :: 0 <= i < |us| ==> Updated(files[i], us[i]) == Rewritten(files[i + 1])
  }

  lemma StepKeeps(raw: string, u: Updates, out: string)
    requires Updated(raw, u) == Rewritten(out) && NewlineFree(u)
    ensures HasHeader(raw) && HasHeader(out)
    ensures Tail(out) == Tail(raw) && Header(out) == Edit(Header(raw), u)
  {
    hide HasHeader, Tail, Header, Edit;
    BomInvisible(raw);
    Reread(StripBom(raw), u);
  }

  /** Any sequence of edits with one-line values keeps every byte from the closing fence on, and
      the text and order of every header line whose key none of them names. */
  lemma {:induction false} RunKeeps(files: seq<string>, us: seq<Updates>, keys: set<string>, k: nat)
    requires IsEditRun(files, us) && k < |files| && HasHeader(files[0])
    requires forall u :: u in us ==> OneLineValues(u) && forall e :: e in u && Writable(e.0) ==> e.0 in keys
    ensures HasHeader(files[k]) && Tail(files[k]) == Tail(files[0])
    ensures Untouched(Header(files[k]), keys) == Untouched(Header(files[0]), keys)
    decreases k
  {
    hide HasHeader, Tail, Header, Edit, Untouched, Updated;
    if k > 0 {
      var i := k - 1;
      RunKeeps(files, us, keys, i);
      assert us[i] in us;
      OneLineIsNewlineFree(us[i]);
      assert Updated(files[i], us[i]) == Rewritten(files[i + 1]);
      StepKeeps(files[i], us[i], files[k]);
      EditUntouchedBy(Header(files[i]), us[i], keys);
    }
  }

  lemma OneLineIsNewlineFree(u: Updates)
    requires OneLineValues(u)
    ensures NewlineFree(u)
  {}

  lemma NoopLines(text: string, u: Updates)
    requires HasHeader(text) && Edit(Header(text), u) == Header(text)
    ensures EditedLines(text, u) == SplitLines(text)
  {
    hide Edit, IsFence;
    var ls := SplitLines(text);
    assert ls[..1] + ls[1..End(text)] + ls[End(text)..] == ls;
  }

  lemma JoinWithoutFirstChar(ls: seq<string>, eol: string)
    requires ls != [] && ls[0] != ""
    ensures JoinLines([ls[0][1..]] + ls[1..], eol) == JoinLines(ls, eol)[1..]
  {
    var t := [ls[0][1..]] + ls[1..];
    assert t[1..] == ls[1..];
    if |ls| > 1 {
      var rest := eol + JoinLines(ls[1..], eol);
      assert (ls[0] + rest)[1..] == ls[0][1..] + rest;
      Seqs.Assoc(ls[0], eol, JoinLines(ls[1..], eol));
      Seqs.Assoc(ls[0][1..], eol, JoinLines(ls[1..], eol));
    }
  }

  /** Saving the same patch again writes the same file, but for a byte-order mark that the first
      save left, which it can only do where two of them led the file. */
  lemma RepeatedSave(raw: string, u: Updates, out: string)
    requires Updated(raw, u) == Rewritten(out) && HasHeader(raw) && Patchable(Header(raw), u)
    ensures Updated(out, u) == Rewritten(StripBom(out))
  {
    var text, s := StripBom(raw), StripBom(out);
    BomInvisible(raw);
    BomInvisible(out);
    OneLineIsNewlineFree(u);
    EditedClean(text, u);
    SplitJoin(EditedLines(text, u), Eol(text));
    Reread(text, u);
    EditIdempotent(Header(raw), u);
    NoopLines(s, u);
    if s != out {
      BomFirstLine(out);
      JoinWithoutFirstChar(SplitLines(out), Eol(out));
    }
    hide Edit, IsFence, HasCrlf, SplitLines, JoinLines, EditedLines, Header;
    assert SplitLines(out) == EditedLines(text, u);
  }

  // ---- the values a reader sees ------------------------------------------------------------

  datatype Scalar = Str(s: string) | Other(text: string)

  /** How a reader types a plain scalar: a string, or a null, boolean, number or anything else. */
  type Resolver = string -> Scalar

  function Unescaped(c: char): Option<char> {
    if c == '"' || c == '\\' || c == '/' || c == ' ' then Some(c)
    else if c == 'n' then Some('\n') else if c == 'r' then Some('\r') else if c == 't' || c == '\t' then Some('\t')
    else if c == '0' then Some(0 as char) else if c == 'a' then Some(7 as char) else if c == 'b' then Some(8 as char)
    else if c == 'v' then Some(11 as char) else if c == 'f' then Some(12 as char) else if c == 'e' then Some(27 as char)
    else if c == 'N' then Some(0x85 as char) else if c == '_' then Some(0xA0 as char)
    else if c == 'L' then Some(0x2028 as char) else if c == 'P' then Some(0x2029 as char)
    else None
  }

  function Prepend(c: char, r: Option<string>): Option<string> {
    if r.None? then None else Some([c] + r.value)
  }

  /** What no double-quoted scalar may hold in itself on one line (YAML 1.2.2 sections 5.1 and 7.3.1). */
  predicate IsControl(c: char) {
    c < ' ' && c != '\t'
  }

  /** A double-quoted scalar on one line (section 7.3.1) behind its opening quote. */
  function ReadQuoted(t: string): Option<string> {
    if t == "" then None
    else if t[0] == '"' then (if |t| == 1 then Some("") else None)
    else if IsControl(t[0]) then None
    else if t[0] != '\\' then Prepend(t[0], ReadQuoted(t[1..]))
    else if |t| == 1 || Unescaped(t[1]).None? then None
    else Prepend(Unescaped(t[1]).value, ReadQuoted(t[2..]))
  }

  /** A flow scalar on one line: double-quoted, single-quoted or plain (section 7.3.3). */
  function ReadScalar(t: string, resolve: Resolver): Scalar {
    if t != "" && t[0] == '"' then
      var r := ReadQuoted(t[1..]);
      if r.None? then Other(t) else Str(r.value)
    else if t != "" && t[0] == '\'' then Other(t)
    else resolve(t)
  }

  lemma {:induction false} QuotedLength(s: string)
    ensures var r := ReadQuoted(Escape(s) + "\""); r.Some? ==> |r.value| <= |s| && ('\\' in s ==> |r.value| < |s|)
    decreases |s|
  {
    hide Unescaped, Escape, ReadQuoted;
    var t := Escape(s) + "\"";
    if s == "" {
      EscapeStep(s);
      assert t == "\"";
      ReadStep(t);
    } else {
      QuotedLength(s[1..]);
      var rest := Escape(s[1..]) + "\"";
      EscapeStep(s);
      ReadStep(t);
      if s[0] == '"' {
        assert t == "\\\"" + rest && t[2..] == rest;
      } else if s[0] != '\\' {
        assert t == [s[0]] + rest && t[1..] == rest;
      } else {
        assert t == ['\\'] + rest && t[1..] == rest;
        EscapeStep(s[1..]);
        if |s| > 1 {
          QuotedLength(s[2..]);
          var rest2 := Escape(s[2..]) + "\"";
          assert s[1..][1..] == s[2..];
          if s[1] == '"' {
            assert rest == "\\\"" + rest2 && t[2..] == "\"" + rest2;
            ReadStep(t[2..]);
          } else {
            assert rest == [s[1]] + rest2 && t[2..] == rest2;
          }
        } else {
          assert t == "\\\"" && t[2..] == "";
          ReadStep("");
        }
      }
    }
  }

  lemma EscapeStep(s: string)
    ensures Escape(s) == if s == "" then "" else (if s[0] == '"' then "\\\"" else [s[0]]) + Escape(s[1..])
  {}

  /** One step of the reader, as far as lengths go. */
  lemma ReadStep(t: string)
    ensures var r := ReadQuoted(t);
            r.Some? ==> t != "" && if t[0] == '"' then r.value == "" && |t| == 1
                        else if t[0] != '\\' then ReadQuoted(t[1..]).Some? && |r.value| == 1 + |ReadQuoted(t[1..]).value|
                        else |t| > 1 && ReadQuoted(t[2..]).Some? && |r.value| == 1 + |ReadQuoted(t[2..]).value|
  {
    hide Unescaped;
  }

  /** What is read holds no raw control character. */
  lemma {:induction false} QuotedHasNoControl(t: string)
    ensures ReadQuoted(t).Some? ==> forall c :: c in t ==> !IsControl(c)
    decreases |t|
  {
    if t != "" && t[0] != '"' && ReadQuoted(t).Some? {
      if t[0] != '\\' {
        QuotedHasNoControl(t[1..]);
        assert t == [t[0]] + t[1..];
      } else {
        QuotedHasNoControl(t[2..]);
        assert t == [t[0], t[1]] + t[2..];
      }
    }
  }

  lemma {:induction false} EscapeKeeps(s: string, c: char)
    ensures c in s && c != '"' ==> c in Escape(s)
  {
    if s != "" {
      EscapeKeeps(s[1..], c);
      assert s == [s[0]] + s[1..];
    }
  }

  lemma {:induction false} QuotedReads(s: string)
    requires '\\' !in s && forall c :: c in s ==> !IsControl(c)
    ensures ReadQuoted(Escape(s) + "\"") == Some(s)
    decreases |s|
  {
    if s != "" {
      QuotedReads(s[1..]);
      var t, rest := Escape(s) + "\"", Escape(s[1..]) + "\"";
      assert s[0] in s && s == [s[0]] + s[1..];
      if s[0] == '"' {
        assert t == "\\\"" + rest && t[2..] == rest;
      } else {
        assert t == [s[0]] + rest && t[1..] == rest;
      }
    }
  }

  /** Values that survive being written and read: quoted ones must not hold a backslash or a
      control character, plain ones must not look single-quoted or be anything but a string. */
  predicate Faithful(s: string, resolve: Resolver) {
    if NeedsQuotes(s) then '\\' !in s && forall c :: c in s ==> !IsControl(c) else s != "" && s[0] != '\'' && resolve(s) == Str(s)
  }

  /** Reading undoes writing exactly for the faithful values. */
  lemma ScalarReadsBack(s: string, resolve: Resolver)
    requires s != ""
    ensures ReadScalar(YamlScalar(Text(s)), resolve) == Str(s) <==> Faithful(s, resolve)
  {
    if NeedsQuotes(s) {
      var t := YamlScalar(Text(s));
      assert t[1..] == Escape(s) + "\"";
      QuotedLength(s);
      if '\\' !in s && forall c :: c in s ==> !IsControl(c) {
        QuotedReads(s);
      } else if '\\' !in s {
        var c :| c in s && IsControl(c);
        EscapeKeeps(s, c);
        assert c in Escape(s) + "\"";
        QuotedHasNoControl(Escape(s) + "\"");
      }
    } else {
      assert '"' in SPECIAL;
      assert s[0] in s;
    }
  }

  // ---- the two stores ------------------------------------------------------------------------

  /** What a reader of the header finds under a key. */
  function Field(h: seq<string>, key: string, resolve: Resolver): Option<Scalar> {
    var line := LineOf(h, key);
    if line.None? || !Matches(line.value, key) then None
    else Some(ReadScalar(Trim(line.value[ValueAt(line.value, key).value..]), resolve))
  }

  lemma {:induction false} TrimRightId(s: string)
    requires s == "" || !IsSpace(s[|s| - 1])
    ensures TrimRight(s) == s
  {}

  lemma WrittenReads(key: string, v: FieldValue, resolve: Resolver)
    requires Word(key) && !v.Removes() && OneLine(v.s)
    ensures Matches(Written(key, v), key)
    ensures Trim(Written(key, v)[ValueAt(Written(key, v), key).value..]) == YamlScalar(v)
  {
    hide YamlScalar, IsFence, EndsCr, OneLine;
    var line, scalar := Written(key, v), YamlScalar(v);
    WrittenLine(key, v, key);
    ScalarEnds(v);
    assert line[0] == key[0] && key[0] in key && Lead(line) == 0;
    assert line[|key|..] == ": " + scalar && Lead(line[|key|..]) == 0;
    assert line[|key| + 1..] == " " + scalar;
    assert (" " + scalar)[1..] == scalar && Lead(scalar) == 0 && Lead(" " + scalar) == 1;
    TrimRightId(scalar);
  }

  type Patch = map<string, FieldValue>

  /** The SQL store's copy of the frontmatter, and what a patch makes of it. */
  function Patched(rf: map<string, Scalar>, p: Patch): map<string, Scalar> {
    map k | k in rf.Keys + p.Keys && (if Writable(k) && k in p then !p[k].Removes() else k in rf) ::
      if Writable(k) && k in p then Str(p[k].s) else rf[k]
  }

  ghost predicate PatchedUpTo(rf: map<string, Scalar>, p: Patch, done: seq<string>, now: map<string, Scalar>) {
    && (forall k :: k in now <==> if k in done && k in p then !p[k].Removes() else k in rf)
    && forall k :: k in now ==> now[k] == if k in done && k in p then Str(p[k].s) else rf[k]
  }

  /** The SQL store walks the writable fields, not the patch. */
  method PatchFields(rf0: map<string, Scalar>, p: Patch) returns (rf: map<string, Scalar>)
    ensures rf == Patched(rf0, p)
  {
    rf := rf0;
    var n := 0;
    while n < |WRITABLE_FIELDS|
      invariant n <= |WRITABLE_FIELDS|
      invariant PatchedUpTo(rf0, p, WRITABLE_FIELDS[..n], rf)
    {
      var key := WRITABLE_FIELDS[n];
      assert forall k :: k in WRITABLE_FIELDS[..n + 1] <==> k in WRITABLE_FIELDS[..n] || k == key;
      if key in p {
        if p[key].Removes() {
          rf := rf - {key};
        } else {
          rf := rf[key := Str(p[key].s)];
        }
      }
      n := n + 1;
    }
    assert WRITABLE_FIELDS[..n] == WRITABLE_FIELDS;
    assert forall k :: Writable(k) <==> k in WRITABLE_FIELDS;
  }

  function ToPatch(u: Updates): Patch {
    if u == [] then map[] else ToPatch(u[..|u| - 1])[u[|u| - 1].0 := u[|u| - 1].1]
  }

  lemma {:induction false} ToPatchEntries(u: Updates, key: string)
    requires UniqueKeys(u)
    ensures key in ToPatch(u) <==> exists n :: 0 <= n < |u| && u[n].0 == key
    ensures forall n :: 0 <= n < |u| && u[n].0 == key ==> key in ToPatch(u) && ToPatch(u)[key] == u[n].1
    decreases |u|
  {
    if u != [] {
      ToPatchEntries(u[..|u| - 1], key);
      if u[|u| - 1].0 != key && key in ToPatch(u) {
        var n :| 0 <= n < |u| - 1 && u[..|u| - 1][n].0 == key;
        assert u[n].0 == key;
      }
    }
  }

  function Lookup(rf: map<string, Scalar>, key: string): Option<Scalar> {
    if key in rf then Some(rf[key]) else None
  }

  /** The value that a patch writes under this key, if any, survives being written and read. */
  predicate FaithfulAt(u: Updates, resolve: Resolver, key: string) {
    forall e :: e in u && e.0 == key && Writable(key) && !e.1.Removes() ==> Faithful(e.1.s, resolve)
  }

  /** The file store's text and the SQL store's map keep saying the same about a key exactly for
      the faithful values: if they agreed before a patch, they agree after it if and only if what
      it writes under the key is one. */
  lemma StoresAgree(h: seq<string>, rf: map<string, Scalar>, u: Updates, resolve: Resolver, key: string)
    requires Patchable(h, u) && Word(key)
    requires Field(h, key, resolve) == Lookup(rf, key)
    ensures Field(Edit(h, u), key, resolve) == Lookup(Patched(rf, ToPatch(u)), key) <==> FaithfulAt(u, resolve, key)
  {
    ToPatchEntries(u, key);
    if key in ToPatch(u) && Writable(key) {
      var n :| 0 <= n < |u| && u[n].0 == key;
      assert u[n] in u;
      EditSettles(h, u, n);
      forall e | e in u && e.0 == key ensures e == u[n] {
        var k :| 0 <= k < |u| && u[k] == e;
      }
      hide Edit, YamlScalar, Trim, Faithful;
      if !u[n].1.Removes() {
        WrittenReads(key, u[n].1, resolve);
        ScalarReadsBack(u[n].1.s, resolve);
        assert u[n].1 == Text(u[n].1.s);
      }
    } else {
      SkippedKey(h, u, key);
      NotWritten(u, resolve, key);
    }
  }

  lemma NotWritten(u: Updates, resolve: Resolver, key: string)
    requires forall e :: e in u && Writable(e.0) ==> e.0 != key
    ensures FaithfulAt(u, resolve, key)
  {}

  /** A patch says nothing about a key it does not name or may not write. */
  lemma {:induction false} SkippedKey(h: seq<string>, u: Updates, key: string)
    requires Word(key) && forall e :: e in u && Writable(e.0) ==> e.0 != key
    ensures LineOf(Edit(h, u), key) == LineOf(h, key)
    decreases |u|
  {
    hide Writable, LineOf, SetField;
    if u != [] {
      assert u[0] in u;
      if Writable(u[0].0) {
        WritableIsWord(u[0].0);
        OtherKeysKept(h, u[0].0, u[0].1, key);
      }
      SkippedKey(EditOne(h, u[0].0, u[0].1), u[1..], key);
    }
  }

  /** The same, from file to file. */
  lemma FilesAgree(raw: string, u: Updates, out: string, rf: map<string, Scalar>, resolve: Resolver, key: string)
    requires Updated(raw, u) == Rewritten(out) && HasHeader(raw)
    requires Patchable(Header(raw), u) && Word(key)
    requires Field(Header(raw), key, resolve) == Lookup(rf, key)
    ensures HasHeader(out) &&
            (Field(Header(out), key, resolve) == Lookup(Patched(rf, ToPatch(u)), key) <==> FaithfulAt(u, resolve, key))
  {
    OneLineIsNewlineFree(u);
    StepKeeps(raw, u, out);
    StoresAgree(Header(raw), rf, u, resolve, key);
  }
}
