/** The page gate: pages counted in a PDF by its page objects and in a DOCX by its words, and the
    cap that they are held to. Text decoding and inflating are parameters, as in the reader. */
module PageGate {
  import opened Options
  import Text = Frontmatter
  import Z = Zip

  // ---- page objects of a PDF ------------------------------------------------------------

  /** What `\b` takes for a word character. */
  predicate IsWordChar(c: char) {
    '0' <= c <= '9' || 'A' <= c <= 'Z' || 'a' <= c <= 'z' || c == '_'
  }

  predicate At(s: string, i: nat, part: string) {
    i + |part| <= |s| && s[i..i + |part|] == part
  }

  /** The end of the white space at i. */
  function SpacesEnd(s: string, i: nat): (j: nat)
    requires i <= |s|
    ensures i <= j <= |s| && forall k :: i <= k < j ==> Text.IsSpace(s[k])
    decreases |s| - i
  {
    if i < |s| && Text.IsSpace(s[i]) then SpacesEnd(s, i + 1) else i
  }

  /** The end of the page token at i: `/Type`, white space, `/Page`, and no word character. */
  function PageToken(s: string, i: nat): (e: Option<nat>)
    ensures e.Some? ==> i + 10 <= e.value <= |s|
  {
    if !At(s, i, "/Type") then None
    else
      var j := SpacesEnd(s, i + 5);
      if At(s, j, "/Page") && (j + 5 == |s| || !IsWordChar(s[j + 5])) then Some(j + 5) else None
  }

  /** The matches of a global search: each goes on where the last one ended. */
  function Matches(s: string, i: nat): nat
    requires i <= |s|
    decreases |s| - i
  {
    if i == |s| then 0
    else if PageToken(s, i).Some? then 1 + Matches(s, PageToken(s, i).value)
    else Matches(s, i + 1)
  }

  /** The byte-preserving decoding of a PDF's bytes. */
  function Latin1(b: Z.Bytes): (s: string)
    ensures |s| == |b| && forall i :: 0 <= i < |b| ==> s[i] as int == b[i] as int
  {
    seq(|b|, (i: nat) requires i < |b| => b[i] as int as char)
  }

  function CountPdfPages(b: Z.Bytes): Option<nat> {
    var n := Matches(Latin1(b), 0);
    if n == 0 then None else Some(n)
  }

  /** A digit, a letter or the underscore, by their codes. */
  predicate InWord(c: char) {
    var n := c as int;
    48 <= n <= 57 || 65 <= n <= 90 || n == 95 || 97 <= n <= 122
  }

  /** The name `/Page` at j, as a whole word, with nothing but white space behind the `/Type` at k. */
  predicate PageBehind(s: string, k: nat, j: nat) {
    && k + 5 <= j && j + 5 <= |s| && s[k..k + 5] == "/Type" && s[j..j + 5] == "/Page"
    && (forall i :: k + 5 <= i < j ==> Text.IsSpace(s[i]))
    && (j + 5 == |s| || !InWord(s[j + 5]))
  }

  ghost predicate PageObjectAt(s: string, k: nat) {
    exists j :: PageBehind(s, k, j)
  }

  /** The places from i on where a page object says its type. */
  ghost function PageStarts(s: string, i: nat): set<nat> {
    set k: nat | i <= k < |s| && PageObjectAt(s, k)
  }

  lemma WordCharIs(c: char)
    ensures IsWordChar(c) <==> InWord(c)
  {}

  lemma {:induction false} SpacesEndIs(s: string, i: nat, j: nat)
    requires i <= j < |s| && (forall k :: i <= k < j ==> Text.IsSpace(s[k])) && !Text.IsSpace(s[j])
    ensures SpacesEnd(s, i) == j
    decreases j - i
  {
    if i < j {
      SpacesEndIs(s, i + 1, j);
    }
  }

  lemma TokenBehind(s: string, k: nat)
    requires PageToken(s, k).Some?
    ensures PageBehind(s, k, SpacesEnd(s, k + 5))
  {
    var j := SpacesEnd(s, k + 5);
    if j + 5 < |s| {
      WordCharIs(s[j + 5]);
    }
    hide IsWordChar, InWord, Text.IsSpace;
  }

  lemma BehindToken(s: string, k: nat, j: nat)
    requires PageBehind(s, k, j)
    ensures PageToken(s, k).Some?
  {
    assert s[j] == s[j..j + 5][0];
    SpacesEndIs(s, k + 5, j);
    if j + 5 < |s| {
      WordCharIs(s[j + 5]);
    }
    hide IsWordChar, InWord, Text.IsSpace;
  }

  lemma TokenIs(s: string, k: nat)
    ensures PageToken(s, k).Some? <==> PageObjectAt(s, k)
  {
    hide PageToken, PageBehind;
    if PageToken(s, k).Some? {
      TokenBehind(s, k);
    }
    forall j: nat | PageBehind(s, k, j) ensures PageToken(s, k).Some? {
      BehindToken(s, k, j);
    }
  }

  /** No page token starts inside another. */
  lemma TokensApart(s: string, i: nat, k: nat)
    requires PageToken(s, i).Some? && i < k < PageToken(s, i).value
    ensures PageToken(s, k).None?
  {
    var j := SpacesEnd(s, i + 5);
    CharAt(s, k, "/Type", 0);
    CharAt(s, k, "/Type", 1);
    if k < i + 5 {
      CharAt(s, i, "/Type", k - i);
    } else if k > j {
      CharAt(s, j, "/Page", k - j);
    } else if k == j {
      CharAt(s, j, "/Page", 1);
    }
  }

  lemma CharAt(s: string, i: nat, part: string, k: nat)
    requires k < |part|
    ensures At(s, i, part) ==> i + k < |s| && s[i + k] == part[k]
  {
    assert At(s, i, part) ==> s[i..i + |part|][k] == s[i + k];
  }

  /** The search finds every page token: it counts the places where one starts. */
  lemma {:induction false} MatchesAreAll(s: string, i: nat)
    requires i <= |s|
    ensures Matches(s, i) == |PageStarts(s, i)|
    decreases |s| - i
  {
    hide PageToken, PageObjectAt;
    forall k: nat ensures PageToken(s, k).Some? <==> PageObjectAt(s, k) {
      TokenIs(s, k);
    }
    if i == |s| {
      assert PageStarts(s, i) == {};
    } else if PageToken(s, i).Some? {
      var e := PageToken(s, i).value;
      MatchesAreAll(s, e);
      forall k | i < k < e ensures PageToken(s, k).None? {
        TokensApart(s, i, k);
      }
      assert PageStarts(s, i) == {i} + PageStarts(s, e);
    } else {
      MatchesAreAll(s, i + 1);
      assert PageStarts(s, i) == PageStarts(s, i + 1);
    }
  }

  // ---- words of a DOCX ---------------------------------------------------------------------

  function IndexOf(s: string, c: char): (i: nat)
    ensures i <= |s| && (i < |s| ==> s[i] == c) && forall k :: 0 <= k < i ==> s[k] != c
  {
    if s == "" || s[0] == c then 0 else 1 + IndexOf(s[1..], c)
  }

  /** Every tag, `<` and `>` with something between, becomes a space. */
  function StripTags(s: string): string
    decreases |s|
  {
    if s == "" then ""
    else
      var g := IndexOf(s, '>');
      if s[0] == '<' && 2 <= g < |s| then " " + StripTags(s[g + 1..]) else [s[0]] + StripTags(s[1..])
  }

  const ENTITIES := ["&amp;", "&lt;", "&gt;", "&quot;", "&apos;", "&#39;"]

  /** The length of the entity that s starts with, or 0. */
  function EntityLength(s: string): (n: nat)
    ensures n <= |s|
  {
    if At(s, 0, "&amp;") then 5 else if At(s, 0, "&lt;") then 4 else if At(s, 0, "&gt;") then 4
    else if At(s, 0, "&quot;") then 6 else if At(s, 0, "&apos;") then 6 else if At(s, 0, "&#39;") then 5 else 0
  }

  function StripEntities(s: string): string
    decreases |s|
  {
    if s == "" then ""
    else if EntityLength(s) > 0 then " " + StripEntities(s[EntityLength(s)..])
    else [s[0]] + StripEntities(s[1..])
  }

  function ExtractedText(xml: string): string {
    Text.Trim(StripEntities(StripTags(xml)))
  }

  /** The words of a text that is split at white space: its places where one starts. */
  function Words(s: string): nat {
    if s == "" then 0
    else Words(s[..|s| - 1]) + if !Text.IsSpace(s[|s| - 1]) && (|s| == 1 || Text.IsSpace(s[|s| - 2])) then 1 else 0
  }

  const WORDS_PER_PAGE: nat := 500

  /** `Math.max(1, Math.ceil(words / 500))`, and nothing to measure without words. */
  function EstimatedPages(words: nat): Option<nat> {
    if words == 0 then None
    else
      var up := (words + WORDS_PER_PAGE - 1) / WORDS_PER_PAGE;
      Some(if up < 1 then 1 else up)
  }

  function EstimateDocxPages(b: Z.Bytes, decode: Z.Decoder, inflate: Z.Inflater): Option<nat> {
    var xml := Z.Entry(b, "word/document.xml", decode, inflate);
    if xml.None? then None else EstimatedPages(Words(ExtractedText(decode(xml.value))))
  }

  lemma {:induction false} SpaceParts(a: string, c: char, b: string)
    requires Text.IsSpace(c)
    ensures Words(a + [c] + b) == Words(a) + Words(b)
    decreases |b|
  {
    var s := a + [c] + b;
    if b == "" {
      assert s == a + [c] && s[..|s| - 1] == a;
    } else {
      assert s[..|s| - 1] == a + [c] + b[..|b| - 1];
      SpaceParts(a, c, b[..|b| - 1]);
      assert s[|s| - 1] == b[|b| - 1] && s[|s| - 2] == if |b| == 1 then c else b[|b| - 2];
    }
  }

  lemma {:induction false} TrimRightWords(s: string)
    ensures Words(Text.TrimRight(s)) == Words(s)
  {
    if s != "" && Text.IsSpace(s[|s| - 1]) {
      TrimRightWords(s[..|s| - 1]);
    }
  }

  lemma {:induction false} LeadWords(s: string)
    ensures Words(s[Text.Lead(s)..]) == Words(s)
  {
    if s != "" && Text.IsSpace(s[0]) {
      LeadWords(s[1..]);
      SpaceParts("", s[0], s[1..]);
      assert "" + [s[0]] + s[1..] == s;
      assert s[1..][Text.Lead(s[1..])..] == s[Text.Lead(s)..];
    } else {
      assert s[0..] == s;
    }
  }

  /** A stretch of text and the tag behind it. */
  datatype Piece = Piece(text: string, tag: string)
  {
    predicate Valid() {
      '<' !in text && tag != "" && '>' !in tag
    }
  }

  /** A document as its writer renders it. */
  function Rendered(ps: seq<Piece>): string {
    if ps == [] then "" else ps[0].text + "<" + ps[0].tag + ">" + Rendered(ps[1..])
  }

  function Shown(ps: seq<Piece>): string {
    if ps == [] then "" else ps[0].text + " " + Shown(ps[1..])
  }

  function WordsOf(ps: seq<Piece>): nat {
    if ps == [] then 0 else Words(StripEntities(ps[0].text)) + WordsOf(ps[1..])
  }

  lemma IndexIs(s: string, c: char, i: nat)
    requires i < |s| && s[i] == c && forall k :: 0 <= k < i ==> s[k] != c
    ensures IndexOf(s, c) == i
  {}

  lemma StripOneTag(tag: string, rest: string)
    requires tag != "" && '>' !in tag
    ensures StripTags("<" + tag + ">" + rest) == " " + StripTags(rest)
  {
    var s := "<" + tag + ">" + rest;
    var g := 1 + |tag|;
    assert forall k :: 0 < k < g ==> s[k] == tag[k - 1] && tag[k - 1] in tag;
    IndexIs(s, '>', g);
    assert s[g + 1..] == rest;
  }

  lemma {:induction false} StripText(text: string, rest: string)
    requires '<' !in text
    ensures StripTags(text + rest) == text + StripTags(rest)
    decreases |text|
  {
    if text == "" {
      assert text + rest == rest;
    } else {
      var s := text + rest;
      assert s[0] == text[0] && text[0] in text && s[1..] == text[1..] + rest;
      hide IndexOf;
      StripText(text[1..], rest);
      assert [text[0]] + (text[1..] + StripTags(rest)) == text + StripTags(rest);
    }
  }

  lemma {:induction false} RenderedStrips(ps: seq<Piece>)
    requires forall p :: p in ps ==> p.Valid()
    ensures StripTags(Rendered(ps)) == Shown(ps)
  {
    hide StripTags;
    if ps == [] {
      StripNothing();
    } else {
      var p, rest := ps[0], Rendered(ps[1..]);
      assert p in ps && p.Valid();
      RenderedStrips(ps[1..]);
      assert Rendered(ps) == p.text + ("<" + p.tag + ">" + rest);
      StripText(p.text, "<" + p.tag + ">" + rest);
      StripOneTag(p.tag, rest);
      assert p.text + (" " + Shown(ps[1..])) == p.text + " " + Shown(ps[1..]);
    }
  }

  lemma StripNothing()
    ensures StripTags("") == "" && StripEntities("") == ""
  {}

  /** No entity reaches over a space. */
  lemma EntityBeforeSpace(a: string, b: string)
    requires a != ""
    ensures EntityLength(a + " " + b) == EntityLength(a)
  {
    var s := a + " " + b;
    forall part | part in ENTITIES ensures At(s, 0, part) <==> At(a, 0, part) {
      PartBeforeSpace(a, b, part);
    }
    hide At;
    assert ENTITIES[0] in ENTITIES && ENTITIES[1] in ENTITIES && ENTITIES[2] in ENTITIES;
    assert ENTITIES[3] in ENTITIES && ENTITIES[4] in ENTITIES && ENTITIES[5] in ENTITIES;
  }

  lemma PartBeforeSpace(a: string, b: string, part: string)
    requires ' ' !in part
    ensures At(a + " " + b, 0, part) <==> At(a, 0, part)
  {
    var s := a + " " + b;
    if |part| > |a| {
      assert part[|a|] in part && s[|a|] == ' ';
      CharAt(s, 0, part, |a|);
    } else {
      assert s[0..|part|] == a[0..|part|];
    }
  }

  lemma {:induction false} EntitiesApart(a: string, b: string)
    ensures StripEntities(a + " " + b) == StripEntities(a) + " " + StripEntities(b)
    decreases |a|
  {
    hide StripEntities, EntityLength;
    var s := a + " " + b;
    StripStep(s);
    if a == "" {
      assert s == " " + b && s[1..] == b;
      SpaceIsNoEntity(s);
      StripNothing();
    } else {
      StripStep(a);
      EntityBeforeSpace(a, b);
      var n := Step(a);
      assert s[n..] == a[n..] + " " + b && s[0] == a[0];
      EntitiesApart(a[n..], b);
      var first := if EntityLength(a) > 0 then " " else [a[0]];
      assert first + (StripEntities(a[n..]) + " " + StripEntities(b)) == first + StripEntities(a[n..]) + " " + StripEntities(b);
    }
  }

  /** How far one step of the replacement goes. */
  function Step(s: string): (n: nat)
    requires s != ""
    ensures 1 <= n <= |s|
  {
    if EntityLength(s) > 0 then EntityLength(s) else 1
  }

  lemma StripStep(s: string)
    ensures s != "" ==> StripEntities(s) == (if EntityLength(s) > 0 then " " else [s[0]]) + StripEntities(s[Step(s)..])
  {
    hide EntityLength;
  }

  lemma SpaceIsNoEntity(s: string)
    requires s != "" && s[0] == ' '
    ensures EntityLength(s) == 0
  {
    forall part | |part| > 0 && part[0] == '&' ensures !At(s, 0, part) {
      CharAt(s, 0, part, 0);
    }
  }

  lemma {:induction false} ShownWords(ps: seq<Piece>)
    ensures Words(StripEntities(Shown(ps))) == WordsOf(ps)
  {
    hide StripEntities;
    if ps == [] {
      StripNothing();
    } else {
      ShownWords(ps[1..]);
      EntitiesApart(ps[0].text, Shown(ps[1..]));
      SpaceParts(StripEntities(ps[0].text), ' ', StripEntities(Shown(ps[1..])));
    }
  }

  /** The words counted in a rendered document are those of its stretches of text: tags never
      hide a word, are never counted as one, and never fuse two. */
  lemma RenderedWords(ps: seq<Piece>)
    requires forall p :: p in ps ==> p.Valid()
    ensures Words(ExtractedText(Rendered(ps))) == WordsOf(ps)
  {
    RenderedStrips(ps);
    ShownWords(ps);
    var s := StripEntities(Shown(ps));
    LeadWords(s);
    TrimRightWords(s[Text.Lead(s)..]);
    hide Words, StripEntities, StripTags;
  }

  // ---- the gate ---------------------------------------------------------------------------------

  predicate IsAlnum(c: char) {
    '0' <= c <= '9' || 'A' <= c <= 'Z' || 'a' <= c <= 'z'
  }

  function LowerChar(c: char): char {
    if 'A' <= c <= 'Z' then (c as int + 32) as char else c
  }

  function Lower(s: string): (t: string)
    ensures |t| == |s| && forall i :: 0 <= i < |s| ==> t[i] == LowerChar(s[i])
  {
    if s == "" then "" else [LowerChar(s[0])] + Lower(s[1..])
  }

  /** Where the letters and digits at the end of a name start. */
  function SuffixStart(name: string): (i: nat)
    ensures i <= |name| && (forall k :: i <= k < |name| ==> IsAlnum(name[k])) && (i > 0 ==> !IsAlnum(name[i - 1]))
  {
    if name == "" || !IsAlnum(name[|name| - 1]) then |name| else SuffixStart(name[..|name| - 1])
  }

  function ExtOf(name: string): string {
    var i := SuffixStart(name);
    if 0 < i < |name| && name[i - 1] == '.' then Lower(name[i..]) else ""
  }

  const PDF_MIME := "application/pdf"
  const DOCX_MIME := "application/vnd.openxmlformats-officedocument.wordprocessingml.document"

  datatype Measure = Unmeasured | PdfObjects(pages: Option<nat>) | DocxWords(pages: Option<nat>)

  function PageCount(name: string, mime: string, b: Z.Bytes, decode: Z.Decoder, inflate: Z.Inflater): Measure {
    if ExtOf(name) == "pdf" || mime == PDF_MIME then PdfObjects(CountPdfPages(b))
    else if ExtOf(name) == "docx" || mime == DOCX_MIME then DocxWords(EstimateDocxPages(b, decode, inflate))
    else Unmeasured
  }

  datatype Verdict = NotApplicable | Within(pages: nat, cap: nat) | Over(pages: nat, cap: nat)

  function PageCap(kind: string): Option<nat> {
    if kind == "cv" then Some(2) else if kind == "cover" then Some(1) else None
  }

  function CheckPageCap(kind: string, name: string, mime: string, b: Z.Bytes, decode: Z.Decoder, inflate: Z.Inflater): Verdict {
    var cap := PageCap(kind);
    if cap.None? then NotApplicable
    else
      var m := PageCount(name, mime, b, decode, inflate);
      if m.Unmeasured? || m.pages.None? then NotApplicable
      else if m.pages.value > cap.value then Over(m.pages.value, cap.value)
      else Within(m.pages.value, cap.value)
  }

  /** The letter itself or its capital. */
  predicate SameLetter(c: char, small: char) {
    c == small || ('a' <= small <= 'z' && c as int - 'A' as int == small as int - 'a' as int)
  }

  /** The name ends in a dot and this extension, in any case. */
  predicate Named(name: string, ext: string) {
    && |name| > |ext| && name[|name| - |ext| - 1] == '.'
    && forall i :: 0 <= i < |ext| ==> SameLetter(name[|name| - |ext| + i], ext[i])
  }

  /** A name has an extension exactly when it ends in a dot and that extension, in any case. */
  lemma ExtensionIs(name: string, ext: string)
    requires ext != "" && forall c :: c in ext ==> IsAlnum(c) && LowerChar(c) == c
    ensures ExtOf(name) == ext <==> Named(name, ext)
  {
    forall k | 0 <= k < |ext| ensures IsAlnum(ext[k]) && LowerChar(ext[k]) == ext[k] {
      assert ext[k] in ext;
    }
    hide ExtOf, Named;
    if Named(name, ext) {
      NamedExt(name, ext);
    } else if ExtOf(name) == ext {
      ExtNamed(name, ext);
    }
  }

  lemma NamedExt(name: string, ext: string)
    requires Named(name, ext) && ext != "" && forall k :: 0 <= k < |ext| ==> IsAlnum(ext[k]) && LowerChar(ext[k]) == ext[k]
    ensures ExtOf(name) == ext
  {
    hide *;
    NamedDot(name, ext);
    var n := |name| - |ext|;
    var t := name[n..];
    forall k | 0 <= k < |t| ensures IsAlnum(t[k]) && LowerChar(t[k]) == ext[k] {
      NamedLetter(name, ext, k);
    }
    SuffixIs(name, n, t);
    LowerIs(t, ext);
    ExtIs(name, n);
  }

  lemma NamedLetter(name: string, ext: string, k: nat)
    requires Named(name, ext) && k < |ext| && IsAlnum(ext[k]) && LowerChar(ext[k]) == ext[k]
    ensures var t := name[|name| - |ext|..]; IsAlnum(t[k]) && LowerChar(t[k]) == ext[k]
  {
    LetterIs(name[|name| - |ext| + k], ext[k]);
  }

  lemma NamedDot(name: string, ext: string)
    requires Named(name, ext)
    ensures 0 < |name| - |ext| && name[|name| - |ext| - 1] == '.'
  {}

  lemma SuffixIs(name: string, n: nat, t: string)
    requires 0 < n < |name| && name[n - 1] == '.' && t == name[n..] && forall k :: 0 <= k < |t| ==> IsAlnum(t[k])
    ensures SuffixStart(name) == n
  {
    assert forall k :: n <= k < |name| ==> name[k] == t[k - n];
  }

  lemma LowerIs(s: string, t: string)
    requires |s| == |t| && forall k :: 0 <= k < |s| ==> LowerChar(s[k]) == t[k]
    ensures Lower(s) == t
  {}

  lemma ExtIs(name: string, n: nat)
    requires SuffixStart(name) == n && 0 < n < |name| && name[n - 1] == '.'
    ensures ExtOf(name) == Lower(name[n..])
  {}

  lemma ExtNamed(name: string, ext: string)
    requires ExtOf(name) == ext && ext != "" && forall k :: 0 <= k < |ext| ==> IsAlnum(ext[k]) && LowerChar(ext[k]) == ext[k]
    ensures Named(name, ext)
  {
    var n := |name| - |ext|;
    assert SuffixStart(name) == n;
    var t := Lower(name[n..]);
    forall k | 0 <= k < |ext| ensures SameLetter(name[n + k], ext[k]) {
      assert t[k] == LowerChar(name[n..][k]);
      LetterIs(name[n + k], ext[k]);
    }
  }

  lemma LetterIs(c: char, small: char)
    requires IsAlnum(small) && LowerChar(small) == small
    ensures SameLetter(c, small) <==> LowerChar(c) == small
    ensures SameLetter(c, small) ==> IsAlnum(c)
  {}

  /** The words that a DOCX archive is measured by, if its document can be read. */
  function DocxWordCount(b: Z.Bytes, decode: Z.Decoder, inflate: Z.Inflater): nat {
    var xml := Z.Entry(b, "word/document.xml", decode, inflate);
    if xml.None? then 0 else Words(ExtractedText(decode(xml.value)))
  }

  /** A file is blocked exactly when its kind is capped and either it goes for a PDF and page
      objects start at more places than the cap, or it goes for a DOCX and its document can be
      read and holds more words than the cap's pages. Anything that cannot be measured passes. */
  lemma BlockedExactly(kind: string, name: string, mime: string, b: Z.Bytes, decode: Z.Decoder, inflate: Z.Inflater)
    ensures var cap := if kind == "cv" then 2 else 1;
            CheckPageCap(kind, name, mime, b, decode, inflate).Over? <==>
            (kind == "cv" || kind == "cover") &&
            if Named(name, "pdf") || mime == PDF_MIME then |PageStarts(Latin1(b), 0)| > cap
            else (Named(name, "docx") || mime == DOCX_MIME) && DocxWordCount(b, decode, inflate) > 500 * cap
  {
    hide *;
    Extensions(name);
    if kind == "cv" || kind == "cover" {
      var cap := if kind == "cv" then 2 else 1;
      CapIs(kind, name, mime, b, decode, inflate, cap);
      PdfOver(b, cap);
      DocxOver(b, decode, inflate, cap);
    } else {
      Uncapped(kind, name, mime, b, decode, inflate);
    }
  }

  /** The pages that a file comes to: the places where a page object starts in a PDF, and in a
      DOCX the least number of pages that hold its words at 500 to the page. */
  ghost predicate ComesTo(pages: nat, name: string, mime: string, b: Z.Bytes, decode: Z.Decoder, inflate: Z.Inflater) {
    pages > 0 &&
    if Named(name, "pdf") || mime == PDF_MIME then pages == |PageStarts(Latin1(b), 0)|
    else
      && (Named(name, "docx") || mime == DOCX_MIME)
      && var words := DocxWordCount(b, decode, inflate);
         0 < words <= 500 * pages && 500 * (pages - 1) < words
  }

  /** A verdict on a capped file gives its pages and the cap of its kind, and there is none
      exactly when the kind is not capped or the file comes to no pages. */
  lemma VerdictExactly(kind: string, name: string, mime: string, b: Z.Bytes, decode: Z.Decoder, inflate: Z.Inflater)
    ensures var v := CheckPageCap(kind, name, mime, b, decode, inflate);
            && (!v.NotApplicable? ==>
                  && ((kind == "cv" && v.cap == 2) || (kind == "cover" && v.cap == 1))
                  && ComesTo(v.pages, name, mime, b, decode, inflate)
                  && (v.Over? <==> v.pages > v.cap))
            && (v.NotApplicable? ==>
                  (kind != "cv" && kind != "cover") || forall pages: nat :: !ComesTo(pages, name, mime, b, decode, inflate))
  {
    hide *;
    Extensions(name);
    Measured(name, mime, b, decode, inflate);
    VerdictIs(kind, name, mime, b, decode, inflate);
  }

  /** The measured pages, if there are any. */
  lemma Measured(name: string, mime: string, b: Z.Bytes, decode: Z.Decoder, inflate: Z.Inflater)
    ensures var m := PageCount(name, mime, b, decode, inflate);
            forall pages: nat :: ComesTo(pages, name, mime, b, decode, inflate) <==> !m.Unmeasured? && m.pages == Some(pages)
  {
    Extensions(name);
    PdfPages(b);
    DocxPages(b, decode, inflate);
    hide ExtOf, Named, PageStarts, Latin1, CountPdfPages, EstimateDocxPages, DocxWordCount;
  }

  lemma PdfPages(b: Z.Bytes)
    ensures forall pages: nat :: CountPdfPages(b) == Some(pages) <==> pages > 0 && pages == |PageStarts(Latin1(b), 0)|
  {
    MatchesAreAll(Latin1(b), 0);
    hide PageStarts, Matches, Latin1;
  }

  lemma DocxPages(b: Z.Bytes, decode: Z.Decoder, inflate: Z.Inflater)
    ensures var words := DocxWordCount(b, decode, inflate);
            forall pages: nat :: EstimateDocxPages(b, decode, inflate) == Some(pages) <==>
                                 pages > 0 && 0 < words <= 500 * pages && 500 * (pages - 1) < words
  {
    hide Words, ExtractedText, Z.Entry;
  }

  lemma VerdictIs(kind: string, name: string, mime: string, b: Z.Bytes, decode: Z.Decoder, inflate: Z.Inflater)
    ensures var v := CheckPageCap(kind, name, mime, b, decode, inflate);
            var m := PageCount(name, mime, b, decode, inflate);
            && (!v.NotApplicable? ==>
                  && ((kind == "cv" && v.cap == 2) || (kind == "cover" && v.cap == 1))
                  && !m.Unmeasured? && m.pages == Some(v.pages) && (v.Over? <==> v.pages > v.cap))
            && (v.NotApplicable? ==> (kind != "cv" && kind != "cover") || m.Unmeasured? || m.pages.None?)
  {
    hide PageCount;
  }

  lemma Extensions(name: string)
    ensures ExtOf(name) == "pdf" <==> Named(name, "pdf")
    ensures ExtOf(name) == "docx" <==> Named(name, "docx")
  {
    ExtensionIs(name, "pdf");
    ExtensionIs(name, "docx");
    hide ExtOf, Named;
  }

  lemma Uncapped(kind: string, name: string, mime: string, b: Z.Bytes, decode: Z.Decoder, inflate: Z.Inflater)
    requires kind != "cv" && kind != "cover"
    ensures !CheckPageCap(kind, name, mime, b, decode, inflate).Over?
  {}

  lemma CapIs(kind: string, name: string, mime: string, b: Z.Bytes, decode: Z.Decoder, inflate: Z.Inflater, cap: nat)
    requires (kind == "cv" && cap == 2) || (kind == "cover" && cap == 1)
    ensures CheckPageCap(kind, name, mime, b, decode, inflate).Over? <==>
            if ExtOf(name) == "pdf" || mime == PDF_MIME then IsOver(CountPdfPages(b), cap)
            else (ExtOf(name) == "docx" || mime == DOCX_MIME) && IsOver(EstimateDocxPages(b, decode, inflate), cap)
  {
    hide ExtOf, CountPdfPages, EstimateDocxPages;
  }

  predicate IsOver(pages: Option<nat>, cap: nat) {
    pages.Some? && pages.value > cap
  }

  lemma PdfOver(b: Z.Bytes, cap: nat)
    ensures IsOver(CountPdfPages(b), cap) <==> |PageStarts(Latin1(b), 0)| > cap
  {
    MatchesAreAll(Latin1(b), 0);
    hide PageStarts, Matches, Latin1;
  }

  lemma DocxOver(b: Z.Bytes, decode: Z.Decoder, inflate: Z.Inflater, cap: nat)
    requires 1 <= cap
    ensures IsOver(EstimateDocxPages(b, decode, inflate), cap) <==> DocxWordCount(b, decode, inflate) > 500 * cap
  {
    hide Words, ExtractedText, Z.Entry;
  }

  /** From the writer's side: a DOCX archive whose document renders some pieces is blocked
      exactly when their texts hold more words than the cap's pages. */
  lemma WrittenDocxBlocked(kind: string, name: string, ms: seq<Z.Member>, disks: Z.Bytes, comment: Z.Bytes, k: nat,
                           ps: seq<Piece>, decode: Z.Decoder, inflate: Z.Inflater)
    requires Z.Fits(ms, disks, comment) && |Z.Archive(ms, disks, comment)| >= 22
    requires Z.NoLaterSignature(Z.Archive(ms, disks, comment), Z.EndAt(ms))
    requires Z.FirstNamed(ms, 0, "word/document.xml", decode) == Some(k)
    requires Z.Contents(ms[k], inflate).Some? && decode(Z.Contents(ms[k], inflate).value) == Rendered(ps)
    requires (forall p :: p in ps ==> p.Valid()) && Named(name, "docx") && (kind == "cv" || kind == "cover")
    ensures CheckPageCap(kind, name, DOCX_MIME, Z.Archive(ms, disks, comment), decode, inflate).Over? <==>
            WordsOf(ps) > 500 * if kind == "cv" then 2 else 1
  {
    var b := Z.Archive(ms, disks, comment);
    NotBoth(name);
    hide Z.Archive, Z.Entry, Z.Fits, Z.NoLaterSignature, CheckPageCap, Words, ExtractedText, WordsOf, Rendered, Named, PageStarts;
    BlockedExactly(kind, name, DOCX_MIME, b, decode, inflate);
    Z.RoundTrip(ms, disks, comment, "word/document.xml", decode, inflate);
    RenderedWords(ps);
  }

  lemma NotBoth(name: string)
    requires Named(name, "docx")
    ensures !Named(name, "pdf")
  {
    Extensions(name);
  }
}
