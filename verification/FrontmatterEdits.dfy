/** What the frontmatter editor promises: an edit touches only the lines of the keys it
    names, the file re-reads as it was written, and the text agrees with the SQL store's
    patch of a key-value map. */
module FrontmatterEdits {
  import opened Options
  import opened Frontmatter
  import Seqs

  // ---- splitting and joining -----------------------------------------------------

  predicate BareNewline(s: string, i: nat) {
    i < |s| && s[i] == '\n' && (i == 0 || s[i - 1] != '\r')
  }

  ghost predicate CrlfThroughout(s: string) {
    forall i: nat :: !BareNewline(s, i)
  }

  lemma CutAtNewline(s: string, i: nat)
    requires i < |s| && s[i] == '\n' && forall k :: 0 <= k < i ==> s[k] != '\n'
    ensures HasCrlf(s) <==> EndsCr(s[..i]) || HasCrlf(s[i + 1..])
    ensures CrlfThroughout(s) <==> EndsCr(s[..i]) && CrlfThroughout(s[i + 1..])
  {
    var rest := s[i + 1..];
    forall k: nat ensures BareNewline(rest, k) <==> BareNewline(s, k + i + 1) {}
    assert BareNewline(s, i) <==> !EndsCr(s[..i]);
    assert forall k: nat :: k < i ==> !BareNewline(s, k);
    if !CrlfThroughout(s) {
      var k: nat :| BareNewline(s, k);
      assert k == i || BareNewline(rest, k - i - 1);
    }
    if HasCrlf(rest) {
      var k :| 0 <= k < |rest| - 1 && rest[k] == '\r' && rest[k + 1] == '\n';
      assert s[k + i + 1] == '\r' && s[k + i + 2] == '\n';
    }
    if EndsCr(s[..i]) {
      assert s[i - 1] == '\r' && s[i] == '\n';
    }
    if HasCrlf(s) && !EndsCr(s[..i]) {
      var k :| 0 <= k < |s| - 1 && s[k] == '\r' && s[k + 1] == '\n';
      assert rest[k - i - 1] == '\r' && rest[k - i] == '\n';
    }
  }

  lemma LfStep(line: string, rest: string, lf: string)
    requires |lf| <= |rest|
    ensures DropCr(line) + "\n" + lf == line + "\n" + rest <==> !EndsCr(line) && lf == rest
  {
    var a, b := DropCr(line) + "\n" + lf, line + "\n" + rest;
    if !EndsCr(line) {
      assert a[|line| + 1..] == lf && b[|line| + 1..] == rest;
    } else {
      assert |a| < |b|;
    }
  }

  lemma CrlfStep(line: string, rest: string, crlf: string)
    requires |rest| <= |crlf|
    ensures DropCr(line) + "\r\n" + crlf == line + "\n" + rest <==> EndsCr(line) && crlf == rest
  {
    var a, b := DropCr(line) + "\r\n" + crlf, line + "\n" + rest;
    if EndsCr(line) {
      assert a == line + "\n" + crlf;
      assert a[|line| + 1..] == crlf && b[|line| + 1..] == rest;
    } else {
      assert |a| > |b|;
    }
  }

  lemma NoNewline(s: string)
    requires '\n' !in s
    ensures SplitLines(s) == [s] && !HasCrlf(s)
  {}

  lemma SplitParts(s: string)
    ensures var i := FirstNewline(s);
            i < |s| ==> s == s[..i] + "\n" + s[i + 1..] && SplitLines(s) == [DropCr(s[..i])] + SplitLines(s[i + 1..]) &&
                        SplitLines(s[i + 1..]) != []
  {
    hide DropCr;
    if FirstNewline(s) < |s| {
      AtNewline(s, FirstNewline(s));
    }
    hide FirstNewline;
  }

  lemma AtNewline(s: string, i: nat)
    requires i < |s| && s[i] == '\n'
    ensures s == s[..i] + "\n" + s[i + 1..]
  {}

  lemma JoinParts(first: string, rest: seq<string>, eol: string)
    requires rest != []
    ensures JoinLines([first] + rest, eol) == first + eol + JoinLines(rest, eol)
  {
    assert ([first] + rest)[1..] == rest;
  }

  /** Joining with LF drops every carriage return before a newline... */
  lemma {:induction false} JoinLf(s: string)
    ensures |JoinLines(SplitLines(s), "\n")| <= |s|
    ensures JoinLines(SplitLines(s), "\n") == s <==> !HasCrlf(s)
    decreases |s|
  {
    var i := FirstNewline(s);
    if i < |s| {
      hide *;
      var line, rest := s[..i], s[i + 1..];
      JoinLf(rest);
      CutAtNewline(s, i);
      SplitParts(s);
      JoinParts(DropCr(line), SplitLines(rest), "\n");
      LfStep(line, rest, JoinLines(SplitLines(rest), "\n"));
      DropCrShorter(line);
    } else {
      NoNewline(s);
    }
  }

  lemma DropCrShorter(line: string)
    ensures |DropCr(line)| <= |line|
  {}

  /** ...and joining with CRLF adds the missing ones. */
  lemma {:induction false} JoinCrlf(s: string)
    ensures |s| <= |JoinLines(SplitLines(s), "\r\n")|
    ensures JoinLines(SplitLines(s), "\r\n") == s <==> CrlfThroughout(s)
    decreases |s|
  {
    var i := FirstNewline(s);
    if i < |s| {
      var line, rest := s[..i], s[i + 1..];
      JoinCrlf(rest);
      CutAtNewline(s, i);
      CrlfStep(line, rest, JoinLines(SplitLines(rest), "\r\n"));
      hide CrlfThroughout, EndsCr, DropCr;
      assert s == line + "\n" + rest;
      assert SplitLines(s) == [DropCr(line)] + SplitLines(rest);
      assert SplitLines(s)[1..] == SplitLines(rest);
    } else {
      assert CrlfThroughout(s);
    }
  }

  /** An edit that changes nothing rewrites the same bytes exactly when the line endings
      are uniform. */
  lemma RewriteIsIdentity(s: string)
    ensures JoinLines(SplitLines(s), Eol(s)) == s <==> Uniform(s)
  {
    JoinLf(s);
    JoinCrlf(s);
    assert CrlfThroughout(s) <==> forall i :: 0 <= i < |s| && s[i] == '\n' ==> i > 0 && s[i - 1] == '\r' by {
      assert forall i: nat :: BareNewline(s, i) ==> i < |s|;
      if CrlfThroughout(s) {
        forall i | 0 <= i < |s| && s[i] == '\n' ensures i > 0 && s[i - 1] == '\r' {
          assert !BareNewline(s, i);
        }
      }
    }
  }

  /** Lines that splitting could have produced with this line ending. */
  predicate Clean(ls: seq<string>, eol: string) {
    && (forall l :: l in ls ==> '\n' !in l)
    && (eol == "\n" ==> forall l :: l in ls[..if ls == [] then 0 else |ls| - 1] ==> !EndsCr(l))
  }

  lemma {:induction false} CleanSplit(s: string)
    ensures Clean(SplitLines(s), "\r\n") && (!HasCrlf(s) ==> Clean(SplitLines(s), "\n"))
    decreases |s|
  {
    var i := FirstNewline(s);
    if i < |s| {
      CleanSplit(s[i + 1..]);
      CutAtNewline(s, i);
      var ls, rest := SplitLines(s), SplitLines(s[i + 1..]);
      assert ls == [DropCr(s[..i])] + rest;
      assert ls[..|ls| - 1] == [DropCr(s[..i])] + rest[..|rest| - 1];
      assert '\n' !in s[..i];
    } else {
      assert SplitLines(s)[..0] == [] && '\n' !in s;
    }
  }

  lemma SplitFirst(l: string, eol: string, tail: string)
    requires '\n' !in l && (eol == "\n" || eol == "\r\n") && (eol == "\n" ==> !EndsCr(l))
    ensures SplitLines(l + eol + tail) == [l] + SplitLines(tail)
    ensures HasCrlf(l + eol + tail) <==> eol == "\r\n" || HasCrlf(tail)
  {
    var s, i := l + eol + tail, |l| + |eol| - 1;
    var line := if eol == "\n" then l else l + "\r";
    assert s[..i] == line && s[i + 1..] == tail && s[i] == '\n';
    forall k | 0 <= k < i ensures s[k] != '\n' {
      assert k < |l| ==> s[k] == l[k] && l[k] in l;
    }
    CutAtNewline(s, i);
    assert FirstNewline(s) == i;
    assert DropCr(line) == l;
  }

  /** Splitting undoes joining, and the joined text shows the same line ending. */
  lemma {:induction false} SplitJoin(ls: seq<string>, eol: string)
    requires ls != [] && (eol == "\n" || eol == "\r\n") && Clean(ls, eol)
    ensures SplitLines(JoinLines(ls, eol)) == ls
    ensures HasCrlf(JoinLines(ls, eol)) <==> |ls| > 1 && eol == "\r\n"
    decreases |ls|
  {
    hide HasCrlf, SplitLines, EndsCr;
    if |ls| > 1 {
      var l, rest := ls[0], ls[1..];
      assert l in ls[..|ls| - 1] && rest[..|rest| - 1] == ls[..|ls| - 1][1..];
      SplitJoin(rest, eol);
      SplitFirst(l, eol, JoinLines(rest, eol));
      assert ls == [l] + rest;
    } else {
      NoNewline(ls[0]);
      assert ls == [ls[0]];
    }
  }

  // ---- lines and keys ---------------------------------------------------------------

  predicate Letters(key: string) {
    key != "" && forall c :: c in key ==> 'a' <= c <= 'z' || c == '_'
  }

  lemma WritableLetters(key: string)
    requires Writable(key)
    ensures Letters(key)
  {}

  lemma LettersAreWord(key: string)
    requires Letters(key)
    ensures Word(key)
  {
    assert key[0] in key && key[|key| - 1] in key;
  }

  lemma WritableIsWord(key: string)
    requires Writable(key)
    ensures Word(key)
  {
    hide Writable, Word;
    WritableLetters(key);
    LettersAreWord(key);
  }

  /** A line belongs to at most one key. */
  lemma OneKeyPerLine(line: string, k1: string, k2: string)
    requires Word(k1) && Word(k2) && Matches(line, k1) && Matches(line, k2)
    ensures k1 == k2
  {
    if |k1| < |k2| {
      LongerKeyFails(line, k1, k2);
    } else if |k2| < |k1| {
      LongerKeyFails(line, k2, k1);
    }
  }

  lemma LongerKeyFails(line: string, k1: string, k2: string)
    requires Word(k1) && Word(k2) && |k1| < |k2| && Matches(line, k1)
    ensures !Matches(line, k2)
  {
    NoColonInside(line, k1, k2);
    hide Word, OneLine, IsSpace;
  }

  /** Where a longer key stands, no colon ends a shorter one. */
  lemma NoColonInside(line: string, k1: string, k2: string)
    requires Word(k2) && |k1| < |k2|
    ensures var i := Lead(line);
            i + |k2| <= |line| && line[i..i + |k2|] == k2 ==>
              var rest := line[i + |k1|..]; Lead(rest) < |rest| && rest[Lead(rest)] != ':'
  {
    hide OneLine, IsSpace;
    var i := Lead(line);
    if i + |k2| <= |line| && line[i..i + |k2|] == k2 {
      var rest := line[i + |k1|..];
      var j := Lead(rest);
      forall k | |k1| <= k < |k2| ensures rest[k - |k1|] == k2[k] {
        assert line[i..i + |k2|][k] == line[i + k];
      }
      assert rest[|k2| - 1 - |k1|] == k2[|k2| - 1];
      assert j <= |k2| - 1 - |k1|;
      assert rest[j] == k2[|k1| + j] && k2[|k1| + j] in k2;
    }
  }

  lemma EscapeIsOneLine(s: string)
    ensures OneLine(Escape(s)) <==> OneLine(s)
    ensures '\n' in Escape(s) <==> '\n' in s
  {
    if s != "" {
      EscapeIsOneLine(s[1..]);
      assert s == [s[0]] + s[1..];
    }
  }

  lemma ScalarIsOneLine(v: FieldValue)
    requires !v.Removes()
    ensures OneLine(YamlScalar(v)) <==> OneLine(v.s)
    ensures '\n' in YamlScalar(v) <==> '\n' in v.s
  {
    EscapeIsOneLine(v.s);
  }

  lemma KeyThenColon(key: string, t: string)
    requires Word(key)
    ensures Matches(key + ": " + t, key) <==> OneLine(t)
  {
    var line := key + ": " + t;
    assert line[0] == key[0] && key[0] in key;
    assert Lead(line) == 0 && line[..|key|] == key;
    assert line[|key|..] == ": " + t;
    assert line[|key| + 1..] == " " + t;
    assert forall c :: c in " " + t <==> c == ' ' || c in t;
  }

  lemma KeyThenColonIsNoOther(key: string, t: string, other: string)
    requires Word(key) && Word(other) && key != other
    ensures !Matches(key + ": " + t, other)
  {
    var line := key + ": " + t;
    assert line[0] == key[0] && key[0] in key;
    assert Lead(line) == 0;
    if |other| < |key| {
      var rest := line[|other|..];
      var j := Lead(rest);
      assert rest[|key| - 1 - |other|] == key[|key| - 1];
      assert j <= |key| - 1 - |other|;
      assert rest[j] == key[|other| + j] && key[|other| + j] in key;
    } else if |key| < |other| {
      assert other[|key|] in other;
      assert |other| <= |line| ==> line[..|other|][|key|] == ':';
    } else if |key| == |other| {
      assert line[..|other|] == key;
    }
  }

  /** A written line starts with its key, so it is nobody else's line and no fence; it is found
      again under its own key exactly when the value is on one line. */
  lemma WrittenLine(key: string, v: FieldValue, other: string)
    requires Word(key) && Word(other) && !v.Removes()
    ensures Matches(Written(key, v), other) <==> key == other && OneLine(v.s)
    ensures !IsFence(Written(key, v)) && !EndsCr(Written(key, v))
    ensures '\n' in Written(key, v) <==> '\n' in v.s
  {
    hide YamlScalar, Matches, Trim;
    var line, scalar := Written(key, v), YamlScalar(v);
    ScalarIsOneLine(v);
    ScalarEnds(v);
    if key == other {
      KeyThenColon(key, scalar);
    } else {
      KeyThenColonIsNoOther(key, scalar, other);
    }
    assert line[0] == key[0] && key[0] in key;
    FenceStartsWithDash(line);
    assert line[|line| - 1] == scalar[|scalar| - 1];
    assert '\n' in line <==> '\n' in scalar;
  }

  lemma ScalarEnds(v: FieldValue)
    requires !v.Removes()
    ensures YamlScalar(v) != "" && !IsSpace(YamlScalar(v)[|YamlScalar(v)| - 1])
    ensures YamlScalar(v)[0] == '"' || !IsSpace(YamlScalar(v)[0])
  {}

  /** Three dashes at i, and white space around them. */
  predicate FenceAt(line: string, i: nat) {
    && i + 3 <= |line| && line[i..i + 3] == "---"
    && forall k :: 0 <= k < |line| && !(i <= k < i + 3) ==> IsSpace(line[k])
  }

  /** A fence is three dashes with nothing but white space around them. */
  lemma FenceExactly(line: string)
    ensures IsFence(line) <==> exists i :: FenceAt(line, i)
  {
    var n := Lead(line);
    var t := TrimRight(line[n..]);
    if IsFence(line) {
      assert t == line[n..][..3];
      assert forall k :: n + 3 <= k < |line| ==> line[k] == line[n..][k - n];
      assert FenceAt(line, n);
    }
    forall i: nat | FenceAt(line, i) ensures IsFence(line) {
      FenceHolds(line, i);
    }
  }

  lemma FenceHolds(line: string, i: nat)
    requires FenceAt(line, i)
    ensures IsFence(line)
  {
    assert line[i] == line[i..i + 3][0] && line[i + 2] == line[i..i + 3][2];
    assert Lead(line) == i;
    assert forall k :: 3 <= k < |line| - i ==> line[i..][k] == line[i + k];
    TrimRightAt(line[i..], 3);
    assert line[i..][..3] == line[i..i + 3];
  }

  lemma TrimRightAt(s: string, m: nat)
    requires 0 < m <= |s| && !IsSpace(s[m - 1]) && forall k :: m <= k < |s| ==> IsSpace(s[k])
    ensures TrimRight(s) == s[..m]
  {
    hide IsSpace;
    var t := TrimRight(s);
    assert t == s[..|t|];
    assert t != "" ==> t[|t| - 1] == s[|t| - 1];
  }

  lemma {:induction false} TrimRightKeepsFirst(s: string)
    requires s != "" && !IsSpace(s[0])
    ensures TrimRight(s) != "" && TrimRight(s)[0] == s[0]
    decreases |s|
  {
    if IsSpace(s[|s| - 1]) {
      TrimRightKeepsFirst(s[..|s| - 1]);
    }
  }

  lemma FenceStartsWithDash(line: string)
    requires line != "" && !IsSpace(line[0]) && line[0] != '-'
    ensures !IsFence(line)
  {
    TrimRightKeepsFirst(line);
  }

  // ---- what one update does ------------------------------------------------------------

  /** The header lines that belong to none of these keys, in order. */
  function Untouched(h: seq<string>, keys: set<string>): seq<string> {
    if h == [] then []
    else (if exists k :: k in keys && Matches(h[0], k) then [] else [h[0]]) + Untouched(h[1..], keys)
  }

  lemma {:induction false} UntouchedConcat(a: seq<string>, b: seq<string>, keys: set<string>)
    ensures Untouched(a + b, keys) == Untouched(a, keys) + Untouched(b, keys)
    decreases a
  {
    hide Matches;
    if a == [] {
      assert [] + b == b;
    } else {
      UntouchedConcat(a[1..], b, keys);
      assert (a + b)[0] == a[0] && (a + b)[1..] == a[1..] + b;
      var kept := if exists k :: k in keys && Matches(a[0], k) then [] else [a[0]];
      assert Untouched(a + b, keys) == kept + Untouched((a + b)[1..], keys);
      Seqs.Assoc(kept, Untouched(a[1..], keys), Untouched(b, keys));
    }
  }

  lemma SetFieldParts(h: seq<string>, key: string, v: FieldValue)
    ensures var i := FirstMatch(h, key);
            && (i < |h| ==> h == h[..i] + [h[i]] + h[i + 1..])
            && SetField(h, key, v) ==
               h[..i] + (if v.Removes() then [] else [Written(key, v)]) + (if i < |h| then h[i + 1..] else [])
  {
    hide Matches, Written;
  }

  lemma SetFieldUntouched(h: seq<string>, key: string, v: FieldValue, keys: set<string>)
    requires key in keys && Word(key) && (!v.Removes() ==> OneLine(v.s))
    ensures Untouched(SetField(h, key, v), keys) == Untouched(h, keys)
  {
    var i := FirstMatch(h, key);
    SetFieldParts(h, key, v);
    var new_, rest := if v.Removes() then [] else [Written(key, v)], if i < |h| then h[i + 1..] else [];
    UntouchedConcat(h[..i] + new_, rest, keys);
    UntouchedConcat(h[..i], new_, keys);
    if !v.Removes() {
      WrittenLine(key, v, key);
    }
    hide Matches, Written;
    assert Untouched(new_, keys) == [];
    if i < |h| {
      UntouchedConcat(h[..i] + [h[i]], rest, keys);
      UntouchedConcat(h[..i], [h[i]], keys);
      assert Untouched([h[i]], keys) == [];
    } else {
      assert h[..i] == h && rest == [];
    }
  }

  function KeysOf(u: Updates): (ks: set<string>)
    ensures forall e :: e in u && Writable(e.0) ==> e.0 in ks
  {
    set e | e in u && Writable(e.0) :: e.0
  }

  predicate OneLineValues(u: Updates) {
    forall e :: e in u && Writable(e.0) && !e.1.Removes() ==> OneLine(e.1.s)
  }

  lemma {:induction false} EditUntouchedBy(h: seq<string>, u: Updates, keys: set<string>)
    requires OneLineValues(u) && forall e :: e in u && Writable(e.0) ==> e.0 in keys
    ensures Untouched(Edit(h, u), keys) == Untouched(h, keys)
    decreases |u|
  {
    hide Writable, Untouched, SetField;
    if u != [] {
      assert u[0] in u;
      if Writable(u[0].0) {
        WritableIsWord(u[0].0);
        SetFieldUntouched(h, u[0].0, u[0].1, keys);
      }
      EditUntouchedBy(EditOne(h, u[0].0, u[0].1), u[1..], keys);
    }
  }

  /** Every header line that is not an updated key's keeps its text and its order. */
  lemma EditUntouched(h: seq<string>, u: Updates)
    requires OneLineValues(u)
    ensures Untouched(Edit(h, u), KeysOf(u)) == Untouched(h, KeysOf(u))
  {
    EditUntouchedBy(h, u, KeysOf(u));
  }

  // ---- repeating an update ----------------------------------------------------------------

  /** At most one header line belongs to the key. */
  predicate AtMostOnce(h: seq<string>, key: string) {
    forall i, k :: 0 <= i < k < |h| && Matches(h[i], key) ==> !Matches(h[k], key)
  }

  lemma RepeatedRemoval(h: seq<string>, key: string, v: FieldValue)
    requires v.Removes()
    ensures SetField(SetField(h, key, v), key, v) == SetField(h, key, v) <==> AtMostOnce(h, key)
  {
    hide Matches;
    var i, h1 := FirstMatch(h, key), SetField(h, key, v);
    var n := FirstMatch(h1, key);
    if i < |h| {
      assert forall k :: i <= k < |h1| ==> h1[k] == h[k + 1];
      assert forall k :: 0 <= k < i ==> h1[k] == h[k];
      if n < |h1| {
        assert Matches(h[n + 1], key) && i < n + 1;
      }
      if !AtMostOnce(h, key) {
        var a, b :| 0 <= a < b < |h| && Matches(h[a], key) && Matches(h[b], key);
        assert b > i && Matches(h1[b - 1], key);
      }
    }
  }

  lemma RepeatedWrite(h: seq<string>, key: string, v: FieldValue)
    requires Word(key) && !v.Removes()
    ensures SetField(SetField(h, key, v), key, v) == SetField(h, key, v) <==> OneLine(v.s)
  {
    var i, h1 := FirstMatch(h, key), SetField(h, key, v);
    var n := FirstMatch(h1, key);
    WrittenLine(key, v, key);
    hide Matches, Written, OneLine;
    assert h1[i] == Written(key, v) && forall k :: 0 <= k < i ==> h1[k] == h[k];
    if OneLine(v.s) {
      FirstMatchUnique(h1, key, i);
      assert h1[i := Written(key, v)] == h1;
    } else if n < |h1| {
      assert SetField(h1, key, v)[n] == Written(key, v);
    } else {
      assert |SetField(h1, key, v)| == |h1| + 1;
    }
  }

  /** Repeating one update changes nothing exactly when a removed key occurred at most once and
      a written value is on one line. */
  lemma RepeatIsNoop(h: seq<string>, key: string, v: FieldValue)
    requires Word(key)
    ensures SetField(SetField(h, key, v), key, v) == SetField(h, key, v) <==>
            if v.Removes() then AtMostOnce(h, key) else OneLine(v.s)
  {
    hide SetField, AtMostOnce;
    if v.Removes() {
      RepeatedRemoval(h, key, v);
    } else {
      RepeatedWrite(h, key, v);
    }
  }

  /** The line of a key, if any. */
  function LineOf(h: seq<string>, key: string): Option<string> {
    var i := FirstMatch(h, key);
    if i < |h| then Some(h[i]) else None
  }

  lemma RemovalKeepsOther(h: seq<string>, i: nat, other: string)
    requires i < |h| && !Matches(h[i], other)
    ensures LineOf(h[..i] + h[i + 1..], other) == LineOf(h, other)
    ensures AtMostOnce(h, other) ==> AtMostOnce(h[..i] + h[i + 1..], other)
  {
    hide Matches;
    var h1, n := h[..i] + h[i + 1..], FirstMatch(h, other);
    assert forall k :: i <= k < |h1| ==> h1[k] == h[k + 1];
    assert forall k :: 0 <= k < i ==> h1[k] == h[k];
    FirstMatchUnique(h1, other, if n > i then n - 1 else n);
  }

  lemma ReplacementKeepsOther(h: seq<string>, i: nat, line: string, other: string)
    requires i < |h| && !Matches(h[i], other) && !Matches(line, other)
    ensures LineOf(h[i := line], other) == LineOf(h, other)
    ensures AtMostOnce(h, other) ==> AtMostOnce(h[i := line], other)
  {
    hide Matches;
    FirstMatchUnique(h[i := line], other, FirstMatch(h, other));
  }

  lemma InsertionKeepsOther(h: seq<string>, line: string, other: string)
    requires !Matches(line, other)
    ensures LineOf(h + [line], other) == LineOf(h, other)
    ensures AtMostOnce(h, other) ==> AtMostOnce(h + [line], other)
  {
    hide Matches;
    var n := FirstMatch(h, other);
    FirstMatchUnique(h + [line], other, if n == |h| then n + 1 else n);
  }

  /** An update of one key leaves the first line and the uniqueness of every other key. */
  lemma OtherKeysKept(h: seq<string>, key: string, v: FieldValue, other: string)
    requires Word(key) && Word(other) && key != other
    ensures LineOf(SetField(h, key, v), other) == LineOf(h, other)
    ensures AtMostOnce(h, other) ==> AtMostOnce(SetField(h, key, v), other)
  {
    hide *;
    var i := FirstMatch(h, key);
    UpdateCases(h, key, v);
    if !v.Removes() {
      WrittenLine(key, v, other);
    }
    if i < |h| {
      if Matches(h[i], other) {
        OneKeyPerLine(h[i], key, other);
      }
      if v.Removes() {
        RemovalKeepsOther(h, i, other);
      } else {
        ReplacementKeepsOther(h, i, Written(key, v), other);
      }
    } else if !v.Removes() {
      InsertionKeepsOther(h, Written(key, v), other);
    }
  }

  /** The three cases of an update: its line is removed, replaced or added. */
  lemma UpdateCases(h: seq<string>, key: string, v: FieldValue)
    ensures var i := FirstMatch(h, key);
            i <= |h| && (i < |h| ==> Matches(h[i], key)) && (i == |h| ==> forall k :: 0 <= k < |h| ==> !Matches(h[k], key)) &&
            SetField(h, key, v) == if i == |h| then (if v.Removes() then h else h + [Written(key, v)])
                                   else if v.Removes() then h[..i] + h[i + 1..] else h[i := Written(key, v)]
  {
    hide Matches, Written;
  }

  /** After its own update a key stands as asked: gone, or first on the line just written. */
  predicate Settled(h: seq<string>, key: string, v: FieldValue) {
    LineOf(h, key) == if v.Removes() then None else Some(Written(key, v))
  }

  lemma UpdateSettles(h: seq<string>, key: string, v: FieldValue)
    requires Word(key) && (if v.Removes() then AtMostOnce(h, key) else OneLine(v.s))
    ensures Settled(SetField(h, key, v), key, v)
  {
    var i, h1 := FirstMatch(h, key), SetField(h, key, v);
    if v.Removes() {
      hide Matches;
      if i < |h| {
        assert forall k :: i <= k < |h1| ==> h1[k] == h[k + 1];
        assert forall k :: 0 <= k < i ==> h1[k] == h[k];
        FirstMatchUnique(h1, key, |h1|);
      }
    } else {
      WrittenLine(key, v, key);
      hide Matches, Written;
      FirstMatchUnique(h1, key, i);
    }
  }

  lemma SettledIsNoop(h: seq<string>, key: string, v: FieldValue)
    requires Settled(h, key, v)
    ensures SetField(h, key, v) == h
  {}

  predicate UniqueKeys(u: Updates) {
    forall i, k :: 0 <= i < k < |u| ==> u[i].0 != u[k].0
  }

  /** What makes a patch stick: removed keys occur at most once, written values are on one line. */
  predicate Patchable(h: seq<string>, u: Updates) {
    && UniqueKeys(u) && OneLineValues(u)
    && forall e :: e in u && Writable(e.0) && e.1.Removes() ==> AtMostOnce(h, e.0)
  }

  lemma {:induction false} EditKeepsOther(h: seq<string>, u: Updates, other: string)
    requires Word(other) && forall e :: e in u ==> e.0 != other
    ensures LineOf(Edit(h, u), other) == LineOf(h, other)
    decreases |u|
  {
    hide Writable, LineOf, SetField;
    if u != [] {
      assert u[0] in u;
      if Writable(u[0].0) {
        WritableIsWord(u[0].0);
        OtherKeysKept(h, u[0].0, u[0].1, other);
      }
      EditKeepsOther(EditOne(h, u[0].0, u[0].1), u[1..], other);
    }
  }

  lemma PatchableRest(h: seq<string>, u: Updates)
    requires Patchable(h, u) && u != []
    ensures Patchable(EditOne(h, u[0].0, u[0].1), u[1..])
    ensures forall e :: e in u[1..] ==> e in u && e.0 != u[0].0
  {
    hide Writable, Matches, SetField, OneLine;
    forall e | e in u[1..] ensures e in u && e.0 != u[0].0 {
      var k :| 0 <= k < |u[1..]| && u[1..][k] == e;
      assert u[k + 1] == e;
    }
    forall e | e in u[1..] && Writable(e.0) && e.1.Removes() ensures AtMostOnce(EditOne(h, u[0].0, u[0].1), e.0) {
      if Writable(u[0].0) {
        WritableIsWord(u[0].0);
        WritableIsWord(e.0);
        OtherKeysKept(h, u[0].0, u[0].1, e.0);
      }
    }
  }

  lemma {:induction false} EditSettles(h: seq<string>, u: Updates, n: nat)
    requires Patchable(h, u) && n < |u| && Writable(u[n].0)
    ensures Settled(Edit(h, u), u[n].0, u[n].1)
    decreases |u|
  {
    hide Writable, Matches, SetField, AtMostOnce, OneLine;
    var h1 := EditOne(h, u[0].0, u[0].1);
    assert u[n] in u;
    PatchableRest(h, u);
    if n > 0 {
      EditSettles(h1, u[1..], n - 1);
    } else {
      WritableIsWord(u[0].0);
      UpdateSettles(h, u[0].0, u[0].1);
      EditKeepsOther(h1, u[1..], u[0].0);
    }
  }

  lemma {:induction false} SettledEditIsNoop(h: seq<string>, u: Updates)
    requires forall e :: e in u && Writable(e.0) ==> Settled(h, e.0, e.1)
    ensures Edit(h, u) == h
    decreases |u|
  {
    hide Writable, Settled, SetField;
    if u != [] {
      assert u[0] in u;
      if Writable(u[0].0) {
        SettledIsNoop(h, u[0].0, u[0].1);
      }
      SettledEditIsNoop(h, u[1..]);
    }
  }

  /** Applying the same patch twice is applying it once. */
  lemma EditIdempotent(h: seq<string>, u: Updates)
    requires Patchable(h, u)
    ensures Edit(Edit(h, u), u) == Edit(h, u)
  {
    hide Writable, Settled, Patchable;
    forall e | e in u && Writable(e.0) ensures Settled(Edit(h, u), e.0, e.1) {
      var n :| 0 <= n < |u| && u[n] == e;
      EditSettles(h, u, n);
    }
    SettledEditIsNoop(Edit(h, u), u);
  }

  // ---- lines counted by key -------------------------------------------------------------------

  /** The lines that match a key. */
  function CountOf(h: seq<string>, key: string): nat {
    if h == [] then 0 else CountOf(h[..|h| - 1], key) + if Matches(h[|h| - 1], key) then 1 else 0
  }

  lemma {:induction false} CountConcat(a: seq<string>, b: seq<string>, key: string)
    ensures CountOf(a + b, key) == CountOf(a, key) + CountOf(b, key)
    decreases |b|
  {
    hide Matches;
    if b == [] {
      assert a + b == a;
    } else {
      assert (a + b)[..|a + b| - 1] == a + b[..|b| - 1];
      CountConcat(a, b[..|b| - 1], key);
    }
  }

  lemma CountUpdate(h: seq<string>, i: nat, line: string, key: string)
    requires i < |h|
    ensures CountOf(h, key) == CountOf(h[..i] + h[i + 1..], key) + One(h[i], key)
    ensures CountOf(h[i := line], key) == CountOf(h[..i] + h[i + 1..], key) + One(line, key)
  {
    assert h == h[..i] + [h[i]] + h[i + 1..] && h[i := line] == h[..i] + [line] + h[i + 1..];
    CountConcat(h[..i], h[i + 1..], key);
    CountConcat(h[..i] + [h[i]], h[i + 1..], key);
    CountConcat(h[..i] + [line], h[i + 1..], key);
    CountSnoc(h[..i], h[i], key);
    CountSnoc(h[..i], line, key);
  }

  function One(line: string, key: string): nat {
    if Matches(line, key) then 1 else 0
  }

  lemma CountSnoc(h: seq<string>, line: string, key: string)
    ensures CountOf(h + [line], key) == CountOf(h, key) + One(line, key)
  {
    assert (h + [line])[..|h|] == h;
  }

  lemma {:induction false} CountNone(h: seq<string>, key: string)
    ensures CountOf(h, key) == 0 <==> forall i :: 0 <= i < |h| ==> !Matches(h[i], key)
  {
    hide Matches;
    if h != [] {
      CountNone(h[..|h| - 1], key);
    }
  }

  lemma {:induction false} CountSeveral(h: seq<string>, key: string)
    ensures CountOf(h, key) <= 1 <==> AtMostOnce(h, key)
  {
    hide Matches;
    if h != [] {
      CountSeveral(h[..|h| - 1], key);
      CountNone(h[..|h| - 1], key);
    }
  }

  function Less(n: nat): nat {
    if n == 0 then 0 else n - 1
  }

  /** What an update of a key does to the lines that match a word. */
  lemma UpdateCounts(h: seq<string>, key: string, v: FieldValue, other: string)
    requires Word(key) && Word(other)
    ensures CountOf(SetField(h, key, v), other) ==
            if key != other then CountOf(h, other)
            else if v.Removes() || !OneLine(v.s) then Less(CountOf(h, other))
            else if CountOf(h, other) == 0 then 1 else CountOf(h, other)
  {
    hide *;
    var i, line := FirstMatch(h, key), Written(key, v);
    UpdateCases(h, key, v);
    if i < |h| {
      MatchedOnce(h[i], key, other);
      CountUpdate(h, i, line, other);
    } else if key == other {
      CountNone(h, key);
    }
    if !v.Removes() {
      WrittenOnce(key, v, other);
      CountSnoc(h, line, other);
    }
    LessIs(CountOf(h, other));
  }

  lemma MatchedOnce(line: string, key: string, other: string)
    requires Word(key) && Word(other) && Matches(line, key)
    ensures One(line, other) == if key == other then 1 else 0
  {
    if key != other && Matches(line, other) {
      OneKeyPerLine(line, key, other);
    }
    hide Matches, Word;
  }

  lemma WrittenOnce(key: string, v: FieldValue, other: string)
    requires Word(key) && Word(other) && !v.Removes()
    ensures One(Written(key, v), other) == if key == other && OneLine(v.s) then 1 else 0
  {
    WrittenLine(key, v, other);
    hide Matches, Written, OneLine;
  }

  lemma LessIs(n: nat)
    ensures Less(n) == if n == 0 then 0 else n - 1
  {}

  predicate Writes(e: (string, FieldValue)) {
    Writable(e.0) && !e.1.Removes()
  }

  /** The line of no writable key. */
  predicate IsLoose(line: string) {
    forall key :: key in WRITABLE_FIELDS ==> !Matches(line, key)
  }

  lemma {:induction false} EditCounts(h: seq<string>, u: Updates, n: nat)
    requires UniqueKeys(u) && n < |u| && Writable(u[n].0) && u[n].1.Removes()
    ensures CountOf(Edit(h, u), u[n].0) == Less(CountOf(h, u[n].0))
    decreases |u|
  {
    hide Writable, SetField, CountOf, OneLine;
    var key := u[n].0;
    WritableIsWord(key);
    var h1 := EditOne(h, u[0].0, u[0].1);
    if Writable(u[0].0) {
      WritableIsWord(u[0].0);
      UpdateCounts(h, u[0].0, u[0].1, key);
    }
    if n == 0 {
      EditCountsOther(h1, u[1..], key);
    } else {
      EditCounts(h1, u[1..], n - 1);
    }
  }

  lemma {:induction false} EditCountsOther(h: seq<string>, u: Updates, key: string)
    requires Word(key) && forall e :: e in u ==> e.0 != key
    ensures CountOf(Edit(h, u), key) == CountOf(h, key)
    decreases |u|
  {
    hide Writable, SetField, CountOf, OneLine;
    if u != [] {
      assert u[0] in u;
      if Writable(u[0].0) {
        WritableIsWord(u[0].0);
        UpdateCounts(h, u[0].0, u[0].1, key);
      }
      EditCountsOther(EditOne(h, u[0].0, u[0].1), u[1..], key);
    }
  }
}
