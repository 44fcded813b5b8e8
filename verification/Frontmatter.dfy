/** The surgical frontmatter editor of the file store: it splits a job file into lines,
    replaces, removes or inserts header lines in place, and joins the lines again with the
    file's own line ending. */
module Frontmatter {
  import opened Options
  import Seqs

  // ---- characters ---------------------------------------------------------------

  /** What `\s` and `trim` take for white space. */
  predicate IsSpace(c: char) {
    var n := c as int;
    (9 <= n <= 13) || n == 0x20 || n == 0xA0 || n == 0x1680 || (0x2000 <= n <= 0x200A) ||
    n == 0x2028 || n == 0x2029 || n == 0x202F || n == 0x205F || n == 0x3000 || n == 0xFEFF
  }

  /** What `.` refuses to match. */
  predicate IsLineEnd(c: char) {
    c == '\n' || c == '\r' || c as int == 0x2028 || c as int == 0x2029
  }

  predicate OneLine(s: string) {
    forall c :: c in s ==> !IsLineEnd(c)
  }

  function Lead(s: string): (n: nat)
    ensures n <= |s| && (n < |s| ==> !IsSpace(s[n])) && forall i :: 0 <= i < n ==> IsSpace(s[i])
  {
    if s == "" || !IsSpace(s[0]) then 0 else 1 + Lead(s[1..])
  }

  function TrimRight(s: string): (t: string)
    ensures t <= s && (t != "" ==> !IsSpace(t[|t| - 1])) && forall i :: |t| <= i < |s| ==> IsSpace(s[i])
  {
    if s != "" && IsSpace(s[|s| - 1]) then TrimRight(s[..|s| - 1]) else s
  }

  function Trim(s: string): string {
    TrimRight(s[Lead(s)..])
  }

  // ---- lines --------------------------------------------------------------------

  function FirstNewline(s: string): (i: nat)
    ensures i <= |s| && (i < |s| ==> s[i] == '\n') && forall k :: 0 <= k < i ==> s[k] != '\n'
  {
    if s == "" || s[0] == '\n' then 0 else 1 + FirstNewline(s[1..])
  }

  predicate EndsCr(s: string) {
    s != "" && s[|s| - 1] == '\r'
  }

  function DropCr(s: string): string {
    if EndsCr(s) then s[..|s| - 1] else s
  }

  /** `split(/\r?\n/)`. */
  function SplitLines(s: string): (ls: seq<string>)
    ensures ls != []
    decreases |s|
  {
    var i := FirstNewline(s);
    if i == |s| then [s] else [DropCr(s[..i])] + SplitLines(s[i + 1..])
  }

  function JoinLines(ls: seq<string>, eol: string): string
    requires ls != []
  {
    if |ls| == 1 then ls[0] else ls[0] + eol + JoinLines(ls[1..], eol)
  }

  predicate HasCrlf(s: string) {
    exists i :: 0 <= i < |s| - 1 && s[i] == '\r' && s[i + 1] == '\n'
  }

  function Eol(s: string): string {
    if HasCrlf(s) then "\r\n" else "\n"
  }

  /** A file that has CRLF line endings anywhere has them everywhere. */
  predicate Uniform(s: string) {
    HasCrlf(s) ==> forall i :: 0 <= i < |s| && s[i] == '\n' ==> i > 0 && s[i - 1] == '\r'
  }

  // ---- header lines ----------------------------------------------------------------

  predicate IsFence(line: string) {
    Trim(line) == "---"
  }

  const WRITABLE_FIELDS: seq<string> :=
    ["status", "fit", "track", "sector", "tailoring", "deadline", "applied", "next_action", "next_action_date", "link"]

  /** A plain key: one line without a colon, no white space around it, no dash in front. */
  predicate Word(key: string) {
    key != "" && OneLine(key) && ':' !in key && !IsSpace(key[0]) && !IsSpace(key[|key| - 1]) && key[0] != '-'
  }

  /** `^(\s*)key\s*:.*$`: where the text after the colon starts. */
  function ValueAt(line: string, key: string): (r: Option<nat>)
    ensures r.Some? ==> 0 < r.value <= |line|
  {
    var i := Lead(line);
    if i + |key| > |line| || line[i..i + |key|] != key then None
    else
      var j := i + |key| + Lead(line[i + |key|..]);
      if j < |line| && line[j] == ':' && OneLine(line[j + 1..]) then Some(j + 1) else None
  }

  predicate Matches(line: string, key: string) {
    ValueAt(line, key).Some?
  }

  datatype FieldValue = Null | Text(s: string)
  {
    /** `value === null || value === ""`. */
    predicate Removes() { Null? || s == "" }
  }

  type Updates = seq<(string, FieldValue)>

  function Escape(s: string): string {
    if s == "" then "" else (if s[0] == '"' then "\\\"" else [s[0]]) + Escape(s[1..])
  }

  const SPECIAL: string := ":#[]{}\",&*!|>%@`"

  predicate NeedsQuotes(s: string) {
    (exists c :: c in s && c in SPECIAL) || (s != "" && (IsSpace(s[0]) || IsSpace(s[|s| - 1]) || s[0] == '-' || s[0] == '?'))
  }

  function YamlScalar(v: FieldValue): string {
    if v.Null? || v.s == "" then "\"\""
    else if NeedsQuotes(v.s) then "\"" + Escape(v.s) + "\"" else v.s
  }

  function Written(key: string, v: FieldValue): string {
    key + ": " + YamlScalar(v)
  }

  /** The first header line for the key, or the length of the header. */
  function FirstMatch(h: seq<string>, key: string): (i: nat)
    ensures i <= |h| && (i < |h| ==> Matches(h[i], key)) && forall k :: 0 <= k < i ==> !Matches(h[k], key)
  {
    if h == [] || Matches(h[0], key) then 0 else 1 + FirstMatch(h[1..], key)
  }

  lemma FirstMatchUnique(h: seq<string>, key: string, i: nat)
    requires i <= |h| && (i < |h| ==> Matches(h[i], key)) && forall k :: 0 <= k < i ==> !Matches(h[k], key)
    ensures i == FirstMatch(h, key)
  {}

  function SetField(h: seq<string>, key: string, v: FieldValue): seq<string> {
    var i := FirstMatch(h, key);
    if i < |h| then (if v.Removes() then h[..i] + h[i + 1..] else h[i := Written(key, v)])
    else if v.Removes() then h else h + [Written(key, v)]
  }

  predicate Writable(key: string) {
    key in WRITABLE_FIELDS
  }

  function EditOne(h: seq<string>, key: string, v: FieldValue): seq<string> {
    if Writable(key) then SetField(h, key, v) else h
  }

  function Edit(h: seq<string>, u: Updates): seq<string>
    decreases |u|
  {
    if u == [] then h else Edit(EditOne(h, u[0].0, u[0].1), u[1..])
  }

  // ---- the file ----------------------------------------------------------------------

  function StripBom(s: string): string {
    if s != "" && s[0] as int == 0xFEFF then s[1..] else s
  }

  /** The closing fence: the first fence line after the opening one, or the length. */
  function ClosingFence(ls: seq<string>, from: nat): (i: nat)
    requires from <= |ls|
    ensures from <= i <= |ls| && (i < |ls| ==> IsFence(ls[i])) && forall k :: from <= k < i ==> !IsFence(ls[k])
    decreases |ls| - from
  {
    if from == |ls| || IsFence(ls[from]) then from else ClosingFence(ls, from + 1)
  }

  lemma ClosingFenceUnique(ls: seq<string>, i: nat)
    requires 1 <= i <= |ls| && (i < |ls| ==> IsFence(ls[i])) && forall k :: 1 <= k < i ==> !IsFence(ls[k])
    ensures i == ClosingFence(ls, 1)
  {}

  datatype Outcome = NoFrontmatter | Unterminated | Rewritten(text: string)

  function End(text: string): nat {
    ClosingFence(SplitLines(text), 1)
  }

  predicate HasHeader(text: string) {
    IsFence(SplitLines(text)[0]) && End(text) < |SplitLines(text)|
  }

  function Header(text: string): seq<string>
    requires HasHeader(text)
  {
    SplitLines(text)[1..End(text)]
  }

  function EditedLines(text: string, u: Updates): seq<string>
    requires HasHeader(text)
  {
    SplitLines(text)[..1] + Edit(Header(text), u) + SplitLines(text)[End(text)..]
  }

  function Updated(raw: string, u: Updates): Outcome {
    var text := StripBom(raw);
    if !IsFence(SplitLines(text)[0]) then NoFrontmatter
    else if !HasHeader(text) then Unterminated
    else Rewritten(JoinLines(EditedLines(text, u), Eol(text)))
  }

  /** The editor: one array of lines, spliced in place while `end` follows the closing fence. */
  method UpdateFrontmatter(raw: string, u: Updates) returns (r: Outcome)
    ensures r == Updated(raw, u)
  {
    hide Writable, SetField, Trim;
    var text := StripBom(raw);
    var eol := Eol(text);
    var lines := SplitLines(text);
    if Trim(lines[0]) != "---" {
      return NoFrontmatter;
    }
    var end := 1;
    while end < |lines| && Trim(lines[end]) != "---"
      invariant 1 <= end <= |lines|
      invariant forall k :: 1 <= k < end ==> !IsFence(lines[k])
    {
      end := end + 1;
    }
    ClosingFenceUnique(lines, end);
    if end == |lines| {
      return Unterminated;
    }
    ghost var first, tail := lines[..1], lines[end..];
    var n := 0;
    while n < |u|
      invariant 1 <= end < |lines| && n <= |u|
      invariant lines[..1] == first && lines[end..] == tail
      invariant Edit(lines[1..end], u[n..]) == Edit(Header(text), u)
    {
      var key, value := u[n].0, u[n].1;
      assert u[n..][0] == u[n] && u[n..][1..] == u[n + 1..];
      if Writable(key) {
        lines, end := SpliceField(lines, end, key, value);
      }
      n := n + 1;
    }
    assert lines == first + lines[1..end] + tail;
    r := Rewritten(JoinLines(lines, eol));
  }

  /** One update: replace, remove or insert a line between the fences. */
  method SpliceField(lines0: seq<string>, end0: nat, key: string, value: FieldValue) returns (lines: seq<string>, end: nat)
    requires 1 <= end0 < |lines0|
    ensures 1 <= end < |lines| && lines[..1] == lines0[..1] && lines[end..] == lines0[end0..]
    ensures lines[1..end] == SetField(lines0[1..end0], key, value)
  {
    hide Matches, Written, ValueAt;
    lines, end := lines0, end0;
    ghost var h := lines0[1..end0];
    var i := 1;
    while i < end && !Matches(lines[i], key)
      invariant 1 <= i <= end
      invariant forall k :: 1 <= k < i ==> !Matches(lines[k], key)
    {
      i := i + 1;
    }
    assert forall k :: 0 <= k < i - 1 ==> h[k] == lines[k + 1];
    FirstMatchUnique(h, key, i - 1);
    if i < end {
      if value.Removes() {
        Seqs.DropInside(lines, i, end);
        lines := lines[..i] + lines[i + 1..];
        end := end - 1;
      } else {
        lines := lines[i := Written(key, value)];
        assert lines[1..end] == h[i - 1 := Written(key, value)];
      }
    } else if !value.Removes() {
      lines := lines[..end] + [Written(key, value)] + lines[end..];
      end := end + 1;
      assert lines[1..end] == h + [Written(key, value)];
    }
  }
}
