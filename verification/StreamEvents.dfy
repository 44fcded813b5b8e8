/** What a run record shows of each line of an agent's stream, said of the record before and
    after it: which text the transcript gains, and what becomes of the activity, the milestone
    and the statistics. */
module StreamEvents {
  import opened Options
  import opened StreamFold
  import Text = Frontmatter
  import Seqs

  predicate NoNewline(s: string) {
    forall i :: 0 <= i < |s| ==> s[i] != '\n'
  }

  // ---- text ----------------------------------------------------------------------------

  lemma {:induction false} LfOfLine(a: string, b: string)
    requires NoNewline(a)
    ensures CrlfToLf(a + ("\n" + b)) == Text.DropCr(a) + ("\n" + CrlfToLf(b))
    decreases |a|
  {
    var s := a + ("\n" + b);
    if a == "" {
      assert s == ['\n'] + b && s[1..] == b;
    } else if a == "\r" {
      assert s[0] == '\r' && s[1] == '\n' && s[2..] == b;
    } else {
      assert s[0] == a[0] && s[1..] == a[1..] + ("\n" + b);
      LfOfLine(a[1..], b);
      assert Text.DropCr(a) == [a[0]] + Text.DropCr(a[1..]);
      Seqs.Assoc([a[0]], Text.DropCr(a[1..]), "\n" + CrlfToLf(b));
    }
  }

  lemma {:induction false} LfOfLast(a: string)
    requires NoNewline(a)
    ensures CrlfToLf(a) == a
    decreases |a|
  {
    if a != "" {
      assert a == [a[0]] + a[1..];
      LfOfLast(a[1..]);
    }
  }

  /** Line endings are normalised: the same lines, joined by line feeds. */
  lemma {:induction false} CrlfToLfIs(s: string)
    ensures CrlfToLf(s) == Text.JoinLines(Text.SplitLines(s), "\n")
    decreases |s|
  {
    var i := Text.FirstNewline(s);
    if i == |s| {
      LfOfLast(s);
    } else {
      assert s == s[..i] + ("\n" + s[i + 1..]);
      LfOfLine(s[..i], s[i + 1..]);
      CrlfToLfIs(s[i + 1..]);
      var rest := Text.SplitLines(s[i + 1..]);
      var all := [Text.DropCr(s[..i])] + rest;
      assert all[1..] == rest;
      Seqs.Assoc(Text.DropCr(s[..i]), "\n", Text.JoinLines(rest, "\n"));
    }
  }

  function Neat(s: string): string {
    Text.TrimRight(Text.JoinLines(Text.SplitLines(s), "\n")) + "\n"
  }

  // ---- which events bring text -----------------------------------------------------------

  predicate IsEvent(line: string, parse: Parser, e: Event) {
    var t := Text.Trim(line);
    t != "" && t[0] == '{' && parse(t) == Some(e)
  }

  predicate Failure(subtype: string) {
    subtype !in {"", "success"}
  }

  /** What one block of a turn adds to the transcript. */
  function Said(c: Content): string {
    match c
    case TextBlock(text) => if text == "" then "" else Neat(text)
    case ToolUse(_, _, caption) => "> " + caption + "\n"
    case Ignored => ""
  }

  function SaidAll(content: seq<Content>): string {
    if content == [] then "" else Said(content[0]) + SaidAll(content[1..])
  }

  /** A turn with something said in it, a failure, and a result with a text. */
  predicate Speaks(e: Event) {
    match e
    case Assistant(content) => exists i :: 0 <= i < |content| && Said(content[i]) != ""
    case Result(subtype, result, _) => Failure(subtype) || result != ""
    case _ => false
  }

  predicate LineSpeaks(line: string, parse: Parser) {
    var t := Text.Trim(line);
    t != "" && t[0] == '{' && parse(t).Some? && Speaks(parse(t).value)
  }

  lemma AddedText(u: Update, c: Content, stages: seq<Stage>)
    ensures AddContent(u, c, stages).appendText == u.appendText + Said(c)
  {
    if c.TextBlock? {
      CrlfToLfIs(c.text);
    } else if c.ToolUse? {
      assert u.appendText + "> " + c.caption + "\n" == u.appendText + ("> " + c.caption + "\n");
    }
  }

  lemma {:induction false} AddedTexts(u: Update, content: seq<Content>, stages: seq<Stage>)
    ensures AddContents(u, content, stages).appendText == u.appendText + SaidAll(content)
    ensures SaidAll(content) != "" <==> exists i :: 0 <= i < |content| && Said(content[i]) != ""
    decreases |content|
  {
    hide AddContent, Said;
    if content == [] {
      assert u.appendText + "" == u.appendText;
    } else {
      AddedText(u, content[0], stages);
      AddedTexts(AddContent(u, content[0], stages), content[1..], stages);
      Seqs.Assoc(u.appendText, Said(content[0]), SaidAll(content[1..]));
      assert content == [content[0]] + content[1..];
    }
  }

  lemma LineSaw(r: Record, line: string, stages: seq<Stage>, parse: Parser, limit: Option<nat>)
    ensures ApplyLine(r, line, stages, parse, limit).sawTranscript <==> r.sawTranscript || LineSpeaks(line, parse)
  {
    hide Text.Trim, Last, AddContents, SaidAll, Said, CrlfToLf, Text.TrimRight;
    var t := Text.Trim(line);
    if t != "" && t[0] == '{' && parse(t).Some? && parse(t).value.Assistant? {
      AddedTexts(Update("", Leave, r.stageIndex, None), parse(t).value.content, stages);
    }
  }

  lemma {:induction false} SawExactly(r0: Record, lines: seq<string>, stages: seq<Stage>, parse: Parser, limit: Option<nat>)
    ensures ApplyLines(r0, lines, stages, parse, limit).sawTranscript <==>
            r0.sawTranscript || exists i :: 0 <= i < |lines| && LineSpeaks(lines[i], parse)
    decreases |lines|
  {
    hide ApplyLine, LineSpeaks;
    if lines != [] {
      LineSaw(r0, lines[0], stages, parse, limit);
      SawExactly(ApplyLine(r0, lines[0], stages, parse, limit), lines[1..], stages, parse, limit);
      assert lines == [lines[0]] + lines[1..];
    }
  }

  // ---- what the record shows ---------------------------------------------------------------

  lemma OneMore(r0: Record, before: seq<string>, line: string, stages: seq<Stage>, parse: Parser, limit: Option<nat>)
    ensures ApplyLines(r0, before + [line], stages, parse, limit) ==
            ApplyLine(ApplyLines(r0, before, stages, parse, limit), line, stages, parse, limit)
  {
    hide ApplyLine;
    ApplyLinesConcat(r0, before, [line], stages, parse, limit);
    OneLineApplied(ApplyLines(r0, before, stages, parse, limit), line, stages, parse, limit);
  }

  /** A result clears the activity and leaves its statistics. A failure always adds a line; a
      success adds its text exactly when no event before it brought any. */
  lemma ResultShows(r0: Record, before: seq<string>, line: string, stages: seq<Stage>, parse: Parser, limit: Option<nat>,
                    subtype: string, result: string, stats: string)
    requires IsEvent(line, parse, Result(subtype, result, stats)) && !r0.sawTranscript
    ensures var r := ApplyLines(r0, before, stages, parse, limit);
            var r' := ApplyLines(r0, before + [line], stages, parse, limit);
            && r'.activity == None && r'.stats == Some(stats) && r'.stageIndex == r.stageIndex
            && r'.output ==
               if Failure(subtype) then
                 Last(r.output + ("[result: " + subtype + "]" + (if result == "" then "" else " " + result) + "\n"), limit)
               else if result == "" || exists i :: 0 <= i < |before| && LineSpeaks(before[i], parse) then r.output
               else Last(r.output + Neat(result), limit)
  {
    OneMore(r0, before, line, stages, parse, limit);
    SawExactly(r0, before, stages, parse, limit);
    CrlfToLfIs(result);
    hide ApplyLines, LineSpeaks, Text.Trim, Last, CrlfToLf, Text.TrimRight;
  }

  ghost predicate TurnShown(r: Record, r': Record, content: seq<Content>, stages: seq<Stage>, limit: Option<nat>) {
    && r'.output == (if SaidAll(content) == "" then r.output else Last(r.output + SaidAll(content), limit))
    && ((forall i :: 0 <= i < |content| ==> !content[i].ToolUse?) ==> r'.activity == r.activity)
    && (forall i :: 0 <= i < |content| && content[i].ToolUse? && NoCallAfter(content, i) ==>
                      r'.activity == Some(content[i].caption))
    && Furthest(r.stageIndex, r'.stageIndex, content, stages)
    && r'.stats == r.stats
  }

  lemma TurnApplied(r: Record, line: string, stages: seq<Stage>, parse: Parser, limit: Option<nat>, content: seq<Content>)
    requires IsEvent(line, parse, Assistant(content)) && r.stageIndex >= -1
    ensures TurnShown(r, ApplyLine(r, line, stages, parse, limit), content, stages, limit)
  {
    hide AddContents, SaidAll, NoCallAfter, Furthest, Text.Trim, Last;
    var u := Update("", Leave, r.stageIndex, None);
    AddedTexts(u, content, stages);
    Called(u, content, stages);
    assert "" + SaidAll(content) == SaidAll(content);
  }

  /** A turn adds what its blocks say, in their order; the activity is the caption of its last
      tool call, and the milestone the furthest that it has reached or that one of them hits. */
  lemma AssistantShows(r0: Record, before: seq<string>, line: string, stages: seq<Stage>, parse: Parser, limit: Option<nat>,
                       content: seq<Content>)
    requires IsEvent(line, parse, Assistant(content)) && r0.stageIndex >= -1
    ensures TurnShown(ApplyLines(r0, before, stages, parse, limit), ApplyLines(r0, before + [line], stages, parse, limit),
                      content, stages, limit)
  {
    OneMore(r0, before, line, stages, parse, limit);
    assert Ahead(r0, r0, -1);
    FoldAhead(r0, r0, before, stages, parse, limit, -1);
    hide TurnShown, ApplyLine, ApplyLines, IsEvent;
    TurnApplied(ApplyLines(r0, before, stages, parse, limit), line, stages, parse, limit, content);
  }

  predicate NoCallAfter(content: seq<Content>, i: nat) {
    forall k :: i < k < |content| ==> !content[k].ToolUse?
  }

  predicate Hit(content: seq<Content>, i: nat, stages: seq<Stage>, j: int) {
    i < |content| && content[i].ToolUse? && 0 <= j < |stages| && stages[j].hits(content[i].name, content[i].target)
  }

  /** The larger of the old milestone and the last one that a call of the turn hits. */
  ghost predicate Furthest(from: int, next: int, content: seq<Content>, stages: seq<Stage>) {
    && from <= next && (next == from || exists i :: Hit(content, i, stages, next))
    && forall i, j :: Hit(content, i, stages, j) ==> j <= next
  }

  lemma {:induction false} MatchFromLast(stages: seq<Stage>, j: int, a: int, name: string, target: string)
    requires -1 <= a < j
    ensures var x := MatchFrom(stages, j, a, name, target);
            && (x == a || (j <= x < |stages| && stages[x].hits(name, target)))
            && forall k :: j <= k < |stages| && stages[k].hits(name, target) ==> k <= x
    decreases |stages| - j
  {
    if j < |stages| {
      MatchFromLast(stages, j + 1, if stages[j].hits(name, target) then j else a, name, target);
    }
  }

  lemma Shift(content: seq<Content>, stages: seq<Stage>, i: nat, j: int)
    requires content != []
    ensures Hit(content, i + 1, stages, j) <==> Hit(content[1..], i, stages, j)
  {}

  lemma FurthestStep(from: int, mid: int, next: int, content: seq<Content>, stages: seq<Stage>)
    requires content != [] && Furthest(mid, next, content[1..], stages)
    requires from <= mid && (mid == from || Hit(content, 0, stages, mid))
    requires forall j :: Hit(content, 0, stages, j) ==> j <= mid
    ensures Furthest(from, next, content, stages)
  {
    hide Hit;
    forall i: nat, j | Hit(content, i, stages, j) ensures j <= next {
      if i > 0 {
        Shift(content, stages, i - 1, j);
      }
    }
    if next != mid {
      var i :| Hit(content[1..], i, stages, next);
      Shift(content, stages, i, next);
    }
  }

  lemma BlockCalled(u: Update, c: Content, stages: seq<Stage>)
    requires u.stageIndex >= -1
    ensures var v := AddContent(u, c, stages);
            && v.activity == (if c.ToolUse? then Set(c.caption) else u.activity) && v.stats == u.stats
            && u.stageIndex <= v.stageIndex
            && (v.stageIndex == u.stageIndex || (c.ToolUse? && v.stageIndex < |stages| && stages[v.stageIndex].hits(c.name, c.target)))
            && forall j :: c.ToolUse? && 0 <= j < |stages| && stages[j].hits(c.name, c.target) ==> j <= v.stageIndex
  {
    if c.ToolUse? {
      MatchFromLast(stages, u.stageIndex + 1, u.stageIndex, c.name, c.target);
    }
    hide MatchFrom, CrlfToLf, Text.TrimRight;
  }

  lemma {:induction false} Called(u: Update, content: seq<Content>, stages: seq<Stage>)
    requires u.stageIndex >= -1
    ensures var v := AddContents(u, content, stages);
            && ((forall i :: 0 <= i < |content| ==> !content[i].ToolUse?) ==> v.activity == u.activity)
            && (forall i :: 0 <= i < |content| && content[i].ToolUse? && NoCallAfter(content, i) ==>
                              v.activity == Set(content[i].caption))
            && Furthest(u.stageIndex, v.stageIndex, content, stages) && v.stats == u.stats
    decreases |content|
  {
    hide AddContent;
    if content != [] {
      var m := AddContent(u, content[0], stages);
      BlockCalled(u, content[0], stages);
      Called(m, content[1..], stages);
      FurthestStep(u.stageIndex, m.stageIndex, AddContents(u, content, stages).stageIndex, content, stages);
      hide Furthest;
      assert content == [content[0]] + content[1..];
      forall i | 0 <= i < |content| && content[i].ToolUse? && NoCallAfter(content, i)
        ensures AddContents(u, content, stages).activity == Set(content[i].caption)
      {
        if i > 0 {
          assert NoCallAfter(content[1..], i - 1) && content[1..][i - 1] == content[i];
        }
      }
    }
  }

  /** Every other line: the start of the agent only names the activity, a line that is no event
      is shown as it is, and what the server does not recognise leaves no trace. */
  lemma OthersShow(r0: Record, before: seq<string>, line: string, stages: seq<Stage>, parse: Parser, limit: Option<nat>)
    ensures var r := ApplyLines(r0, before, stages, parse, limit);
            var r' := ApplyLines(r0, before + [line], stages, parse, limit);
            && (IsEvent(line, parse, Init) ==> r' == r.(activity := Some("Agent started")))
            && (IsEvent(line, parse, Unrecognized) ==> r' == r)
            && (Text.Trim(line) == "" ==> r' == r)
            && (Text.Trim(line) != "" && (forall e :: !IsEvent(line, parse, e)) ==>
                  r' == r.(output := Last(r.output + Text.Trim(line) + "\n", limit)))
  {
    OneMore(r0, before, line, stages, parse, limit);
    hide ApplyLines, Text.Trim, Last;
    var t := Text.Trim(line);
    if t != "" && t[0] == '{' && parse(t).Some? {
      assert IsEvent(line, parse, parse(t).value);
    }
  }

  // ---- the stream as lines -------------------------------------------------------------------

  /** The text that a process writes when it ends each of these lines. */
  function Terminated(lines: seq<string>): string {
    if lines == [] then "" else lines[0] + ("\n" + Terminated(lines[1..]))
  }

  lemma {:induction false} LinesOf(lines: seq<string>, last: string)
    requires NoNewline(last) && forall l :: l in lines ==> NoNewline(l)
    ensures Lines(Terminated(lines) + last) == lines && Rest(Terminated(lines) + last) == last
    decreases |lines|
  {
    var s := Terminated(lines) + last;
    if lines == [] {
      assert s == last;
    } else {
      var tail := Terminated(lines[1..]) + last;
      assert lines == [lines[0]] + lines[1..] && NoNewline(lines[0]);
      assert s == lines[0] + "\n" + tail;
      assert s[|lines[0]|] == '\n' && forall k :: 0 <= k < |lines[0]| ==> s[k] == lines[0][k];
      Unfold(s, lines[0], tail);
      LinesOf(lines[1..], last);
    }
  }

  /** Whatever the chunks, a process that wrote these lines, and perhaps one more without its
      newline, leaves the record of applying exactly these lines. */
  lemma WrittenLinesShow(r: Record, chunks: seq<string>, lines: seq<string>, last: string, stages: seq<Stage>, parse: Parser)
    requires NoNewline(last) && forall l :: l in lines ==> NoNewline(l)
    requires Whole(chunks) == Terminated(lines) + last
    ensures Flushed(FedAll(PumpState("", r), chunks, stages, parse), stages, parse) ==
            ApplyLines(r, if last == "" then lines else lines + [last], stages, parse, Some(200_000))
  {
    hide ApplyLines;
    LinesOf(lines, last);
    ChunkInvariant(r, chunks, stages, parse);
    assert lines + [] == lines;
  }
}
