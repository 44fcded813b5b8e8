/** The two incremental folds of an agent's event stream into a run record: the pump that
    cuts stdout chunks into lines, and the cursor that reads a runner's progress list. */
module StreamFold {
  import opened Options
  import Queue = AgentQueue
  import Seqs
  import Text = Frontmatter

  const MAX_OUTPUT: Option<nat> := Some(200_000)

  // ---- events ----------------------------------------------------------------------

  /** A tool call carries the label and the target that the describing helpers give it. */
  datatype Content = TextBlock(text: string) | ToolUse(name: string, target: string, caption: string) | Ignored

  datatype Event =
    | Init
    | Assistant(content: seq<Content>)
    | Result(subtype: string, result: string, stats: string)
    | Unrecognized

  /** A milestone of a routine and the tool calls that reach it. */
  datatype Stage = Stage(title: string, hits: (string, string) -> bool)

  type Parser = string -> Option<Event>

  datatype Activity = Leave | Clear | Set(what: string)

  datatype Update = Update(appendText: string, activity: Activity, stageIndex: int, stats: Option<string>)

  /** A stage index only moves forward: to the last stage behind it that the call hits. */
  function MatchFrom(stages: seq<Stage>, j: int, next: int, name: string, target: string): int
    decreases |stages| - j
  {
    if j < 0 || j >= |stages| then next
    else MatchFrom(stages, j + 1, if stages[j].hits(name, target) then j else next, name, target)
  }

  method MatchRunStage(stages: seq<Stage>, currentIndex: int, name: string, target: string) returns (next: int)
    requires currentIndex >= -1
    ensures next == MatchFrom(stages, currentIndex + 1, currentIndex, name, target)
    ensures currentIndex <= next && (next != currentIndex ==> next < |stages| && stages[next].hits(name, target))
    ensures forall j :: next < j < |stages| ==> !stages[j].hits(name, target)
  {
    next := currentIndex;
    var j := currentIndex + 1;
    while j < |stages|
      invariant currentIndex < j && currentIndex <= next < j
      invariant next != currentIndex ==> next < |stages| && stages[next].hits(name, target)
      invariant forall k :: next < k < j && k < |stages| ==> !stages[k].hits(name, target)
      invariant MatchFrom(stages, j, next, name, target) == MatchFrom(stages, currentIndex + 1, currentIndex, name, target)
    {
      if stages[j].hits(name, target) {
        next := j;
      }
      j := j + 1;
    }
  }

  function CrlfToLf(s: string): string {
    if s == "" then ""
    else if |s| > 1 && s[0] == '\r' && s[1] == '\n' then "\n" + CrlfToLf(s[2..])
    else [s[0]] + CrlfToLf(s[1..])
  }

  /** `replace(/\r\n/g, "\n").trimEnd() + "\n"`. */
  function Tidy(s: string): string {
    Text.TrimRight(CrlfToLf(s)) + "\n"
  }

  function AddContent(u: Update, c: Content, stages: seq<Stage>): Update {
    match c
    case TextBlock(text) => if text == "" then u else u.(appendText := u.appendText + Tidy(text))
    case ToolUse(name, target, caption) =>
      Update(u.appendText + "> " + caption + "\n", Set(caption),
             MatchFrom(stages, u.stageIndex + 1, u.stageIndex, name, target), u.stats)
    case Ignored => u
  }

  function AddContents(u: Update, content: seq<Content>, stages: seq<Stage>): Update
    decreases |content|
  {
    if content == [] then u else AddContents(AddContent(u, content[0], stages), content[1..], stages)
  }

  function EventUpdate(e: Event, stages: seq<Stage>, stageIndex: int, hasTranscript: bool): Update {
    var none := Update("", Leave, stageIndex, None);
    match e
    case Init => none.(activity := Set("Agent started"))
    case Assistant(content) => AddContents(none, content, stages)
    case Result(subtype, result, stats) =>
      var text :=
        if subtype != "" && subtype != "success" then
          "[result: " + subtype + "]" + (if result != "" then " " + result else "") + "\n"
        else if !hasTranscript && result != "" then Tidy(result) else "";
      Update(text, Clear, stageIndex, Some(stats))
    case Unrecognized => none
  }

  /** The event fold as it runs: one update record, filled block by block. */
  method AgentEventToUpdate(e: Event, stages: seq<Stage>, stageIndex: int, hasTranscript: bool) returns (out: Update)
    requires stageIndex >= -1
    ensures out == EventUpdate(e, stages, stageIndex, hasTranscript)
    ensures out.stageIndex >= stageIndex
  {
    out := Update("", Leave, stageIndex, None);
    match e
    case Init =>
      out := out.(activity := Set("Agent started"));
    case Assistant(content) =>
      var i := 0;
      while i < |content|
        invariant i <= |content| && out.stageIndex >= stageIndex
        invariant AddContents(out, content[i..], stages) == EventUpdate(e, stages, stageIndex, hasTranscript)
      {
        assert content[i..][0] == content[i] && content[i..][1..] == content[i + 1..];
        match content[i] {
          case TextBlock(text) =>
            if text != "" {
              out := out.(appendText := out.appendText + Tidy(text));
            }
          case ToolUse(name, target, caption) =>
            var next := MatchRunStage(stages, out.stageIndex, name, target);
            out := Update(out.appendText + "> " + caption + "\n", Set(caption), next, out.stats);
          case Ignored =>
        }
        i := i + 1;
      }
    case Result(subtype, result, stats) =>
      out := out.(stats := Some(stats), activity := Clear);
      if subtype != "" && subtype != "success" {
        out := out.(appendText := "[result: " + subtype + "]" + (if result != "" then " " + result else "") + "\n");
      } else if !hasTranscript && result != "" {
        out := out.(appendText := Tidy(result));
      }
    case Unrecognized =>
  }

  // ---- the run record -----------------------------------------------------------------

  datatype Record = Record(output: string, sawTranscript: bool, activity: Option<string>, stageIndex: int, stats: Option<string>)

  /** `slice(-limit)`; without a limit, everything. */
  function Last(s: string, limit: Option<nat>): string {
    if limit.None? || |s| <= limit.value then s else s[|s| - limit.value..]
  }

  function Apply(r: Record, u: Update, limit: Option<nat>): Record {
    Record(if u.appendText == "" then r.output else Last(r.output + u.appendText, limit),
           r.sawTranscript || u.appendText != "",
           match u.activity case Leave => r.activity case Clear => None case Set(l) => Some(l),
           u.stageIndex,
           if u.stats.Some? then u.stats else r.stats)
  }

  /** One line: an event if it looks like one and parses, otherwise verbatim. */
  function ApplyLine(r: Record, line: string, stages: seq<Stage>, parse: Parser, limit: Option<nat>): Record {
    var t := Text.Trim(line);
    if t == "" then r
    else if t[0] == '{' && parse(t).Some? then
      Apply(r, EventUpdate(parse(t).value, stages, r.stageIndex, r.sawTranscript), limit)
    else r.(output := Last(r.output + t + "\n", limit))
  }

  function ApplyLines(r: Record, lines: seq<string>, stages: seq<Stage>, parse: Parser, limit: Option<nat>): Record
    decreases |lines|
  {
    if lines == [] then r else ApplyLines(ApplyLine(r, lines[0], stages, parse, limit), lines[1..], stages, parse, limit)
  }

  lemma {:induction false} ApplyLinesConcat(r: Record, a: seq<string>, b: seq<string>, stages: seq<Stage>, parse: Parser, limit: Option<nat>)
    ensures ApplyLines(r, a + b, stages, parse, limit) ==
            ApplyLines(ApplyLines(r, a, stages, parse, limit), b, stages, parse, limit)
    decreases |a|
  {
    hide ApplyLine;
    if a == [] {
      assert a + b == b;
    } else {
      ApplyLinesConcat(ApplyLine(r, a[0], stages, parse, limit), a[1..], b, stages, parse, limit);
      assert (a + b)[1..] == a[1..] + b && (a + b)[0] == a[0];
    }
  }

  // ---- the pump -------------------------------------------------------------------------

  /** The complete lines of a text, each without its newline, and what is left over. */
  function Lines(s: string): seq<string>
    decreases |s|
  {
    var i := Text.FirstNewline(s);
    if i == |s| then [] else [s[..i]] + Lines(s[i + 1..])
  }

  function Rest(s: string): string
    decreases |s|
  {
    var i := Text.FirstNewline(s);
    if i == |s| then s else Rest(s[i + 1..])
  }

  lemma FirstNewlineOfConcat(a: string, b: string)
    requires Text.FirstNewline(a) < |a|
    ensures var i := Text.FirstNewline(a);
            Text.FirstNewline(a + b) == i && (a + b)[..i] == a[..i] && (a + b)[i + 1..] == a[i + 1..] + b
  {
    var i := Text.FirstNewline(a);
    assert (a + b)[i] == '\n' && forall k :: 0 <= k < i ==> (a + b)[k] == a[k];
  }

  lemma Unfold(s: string, head: string, tail: string)
    requires s == head + "\n" + tail && Text.FirstNewline(s) == |head|
    ensures Lines(s) == [head] + Lines(tail) && Rest(s) == Rest(tail)
  {
    assert s[..|head|] == head && s[|head| + 1..] == tail;
  }

  lemma {:induction false} CutConcat(a: string, b: string)
    ensures Lines(a + b) == Lines(a) + Lines(Rest(a) + b)
    ensures Rest(a + b) == Rest(Rest(a) + b)
    decreases |a|
  {
    var i := Text.FirstNewline(a);
    if i == |a| {
      assert Lines(a) == [] && Rest(a) == a;
    } else {
      CutConcatStep(a, a[..i], a[i + 1..], b);
      CutConcat(a[i + 1..], b);
      hide *;
      Seqs.Assoc([a[..i]], Lines(a[i + 1..]), Lines(Rest(a[i + 1..]) + b));
    }
  }

  lemma CutConcatStep(a: string, head: string, tail: string, b: string)
    requires Text.FirstNewline(a) == |head| < |a| && head == a[..|head|] && tail == a[|head| + 1..]
    ensures Lines(a) == [head] + Lines(tail) && Rest(a) == Rest(tail)
    ensures Lines(a + b) == [head] + Lines(tail + b) && Rest(a + b) == Rest(tail + b)
  {
    FirstNewlineOfConcat(a, b);
    assert a == head + "\n" + tail && a + b == head + "\n" + (tail + b);
    hide Lines, Rest;
    Unfold(a, head, tail);
    Unfold(a + b, head, tail + b);
  }

  /** The chunk pump of a locally spawned run. */
  class Pump {
    var lineBuf: string
    var run: Record
    const stages: seq<Stage>
    const parse: Parser

    constructor (stages: seq<Stage>, parse: Parser)
      ensures lineBuf == "" && run == Record("", false, None, -1, None)
      ensures this.stages == stages && this.parse == parse
    {
      lineBuf, run := "", Record("", false, None, -1, None);
      this.stages, this.parse := stages, parse;
    }

    method OnData(chunk: string)
      modifies this
      ensures lineBuf == Rest(old(lineBuf) + chunk)
      ensures run == ApplyLines(old(run), Lines(old(lineBuf) + chunk), stages, parse, MAX_OUTPUT)
    {
      ghost var all, run0 := lineBuf + chunk, run;
      lineBuf := lineBuf + chunk;
      var nl := Text.FirstNewline(lineBuf);
      while nl < |lineBuf|
        invariant nl == Text.FirstNewline(lineBuf)
        invariant Rest(lineBuf) == Rest(all)
        invariant ApplyLines(run, Lines(lineBuf), stages, parse, MAX_OUTPUT) == ApplyLines(run0, Lines(all), stages, parse, MAX_OUTPUT)
        decreases |lineBuf|
      {
        run := ApplyLine(run, lineBuf[..nl], stages, parse, MAX_OUTPUT);
        lineBuf := lineBuf[nl + 1..];
        nl := Text.FirstNewline(lineBuf);
      }
    }

    /** Flush a final line that arrived without a newline. */
    method OnClose()
      modifies this
      ensures lineBuf == ""
      ensures run == if old(lineBuf) == "" then old(run) else ApplyLine(old(run), old(lineBuf), stages, parse, MAX_OUTPUT)
    {
      if lineBuf != "" {
        run := ApplyLine(run, lineBuf, stages, parse, MAX_OUTPUT);
        lineBuf := "";
      }
    }
  }

  datatype PumpState = PumpState(lineBuf: string, run: Record)

  /** What OnData and OnClose do, as functions. */
  function Fed(p: PumpState, chunk: string, stages: seq<Stage>, parse: Parser): PumpState {
    PumpState(Rest(p.lineBuf + chunk), ApplyLines(p.run, Lines(p.lineBuf + chunk), stages, parse, MAX_OUTPUT))
  }

  function FedAll(p: PumpState, chunks: seq<string>, stages: seq<Stage>, parse: Parser): PumpState
    decreases |chunks|
  {
    if chunks == [] then p else FedAll(Fed(p, chunks[0], stages, parse), chunks[1..], stages, parse)
  }

  function Flushed(p: PumpState, stages: seq<Stage>, parse: Parser): Record {
    if p.lineBuf == "" then p.run else ApplyLine(p.run, p.lineBuf, stages, parse, MAX_OUTPUT)
  }

  function Whole(chunks: seq<string>): string {
    if chunks == [] then "" else chunks[0] + Whole(chunks[1..])
  }

  lemma {:induction false} FedAllIs(p: PumpState, chunks: seq<string>, stages: seq<Stage>, parse: Parser)
    requires Lines(p.lineBuf) == [] && Rest(p.lineBuf) == p.lineBuf
    ensures FedAll(p, chunks, stages, parse) == Fed(p, Whole(chunks), stages, parse)
    decreases |chunks|
  {
    hide ApplyLine, ApplyLines, Lines, Rest;
    if chunks == [] {
      assert p.lineBuf + "" == p.lineBuf;
      NoLines(p.run, stages, parse);
    } else {
      var c, w := chunks[0], Whole(chunks[1..]);
      var p1 := Fed(p, c, stages, parse);
      RestIsRest(p.lineBuf + c);
      FedAllIs(p1, chunks[1..], stages, parse);
      CutConcat(p.lineBuf + c, w);
      assert p.lineBuf + c + w == p.lineBuf + (c + w);
      ApplyLinesConcat(p.run, Lines(p.lineBuf + c), Lines(p1.lineBuf + w), stages, parse, MAX_OUTPUT);
    }
  }

  lemma NoLines(r: Record, stages: seq<Stage>, parse: Parser)
    ensures ApplyLines(r, [], stages, parse, MAX_OUTPUT) == r
  {}

  lemma {:induction false} RestIsRest(s: string)
    ensures Lines(Rest(s)) == [] && Rest(Rest(s)) == Rest(s)
    decreases |s|
  {
    var i := Text.FirstNewline(s);
    if i < |s| {
      RestIsRest(s[i + 1..]);
    }
  }

  /** The batch form: all lines of the whole stream, the last one with or without a newline. */
  function Batch(r: Record, s: string, stages: seq<Stage>, parse: Parser, limit: Option<nat>): Record {
    ApplyLines(r, Lines(s) + (if Rest(s) == "" then [] else [Rest(s)]), stages, parse, limit)
  }

  /** However the stream is cut into chunks, the pump and its final flush leave the record that
      folding the whole stream's lines once leaves. */
  lemma ChunkInvariant(r: Record, chunks: seq<string>, stages: seq<Stage>, parse: Parser)
    ensures Flushed(FedAll(PumpState("", r), chunks, stages, parse), stages, parse) ==
            Batch(r, Whole(chunks), stages, parse, MAX_OUTPUT)
  {
    hide ApplyLine;
    var s := Whole(chunks);
    FedAllIs(PumpState("", r), chunks, stages, parse);
    assert "" + s == s;
    if Rest(s) == "" {
      assert Lines(s) + [] == Lines(s);
    } else {
      ApplyLinesConcat(r, Lines(s), [Rest(s)], stages, parse, MAX_OUTPUT);
      OneLineApplied(ApplyLines(r, Lines(s), stages, parse, MAX_OUTPUT), Rest(s), stages, parse, MAX_OUTPUT);
    }
  }

  lemma OneLineApplied(r: Record, line: string, stages: seq<Stage>, parse: Parser, limit: Option<nat>)
    ensures ApplyLines(r, [line], stages, parse, limit) == ApplyLine(r, line, stages, parse, limit)
  {
    hide ApplyLine;
    assert [line][1..] == [];
  }

  // ---- the output window -------------------------------------------------------------------

  lemma LastOfLast(a: string, b: string, limit: Option<nat>)
    ensures Last(Last(a, limit) + b, limit) == Last(a + b, limit)
  {
    if limit.Some? && |a| > limit.value {
      var n := |a| - limit.value;
      var c := a[n..];
      assert (a + b)[n..] == c + b;
      assert (c + b)[|b|..] == (a + b)[n + |b|..];
    }
  }

  /** w is the end of s, as much of it as the limit allows. */
  predicate EndOf<T(==)>(w: seq<T>, s: seq<T>, limit: nat) {
    |w| <= limit && |w| <= |s| && s == s[..|s| - |w|] + w && (|w| < limit ==> w == s)
  }

  /** The same record, but for the output, which is the last part of the other's. */
  predicate Windowed(r: Record, full: Record, limit: Option<nat>) {
    r == full.(output := Last(full.output, limit))
  }

  lemma LineWindowed(r: Record, full: Record, line: string, stages: seq<Stage>, parse: Parser, limit: Option<nat>)
    requires Windowed(r, full, limit)
    ensures Windowed(ApplyLine(r, line, stages, parse, limit), ApplyLine(full, line, stages, parse, None), limit)
  {
    hide EventUpdate, Text.Trim;
    var t := Text.Trim(line);
    if t == "" {
    } else if t[0] == '{' && parse(t).Some? {
      LastOfLast(full.output, EventUpdate(parse(t).value, stages, r.stageIndex, r.sawTranscript).appendText, limit);
    } else {
      LastOfLast(full.output, t + "\n", limit);
      assert Last(full.output, limit) + t + "\n" == Last(full.output, limit) + (t + "\n");
      assert full.output + t + "\n" == full.output + (t + "\n");
    }
  }

  /** The output shown is the last MAX_OUTPUT characters of the full transcript, and trimming it
      as it grows changes nothing else. */
  lemma {:induction false} OutputIsLastOfTranscript(r: Record, full: Record, lines: seq<string>, stages: seq<Stage>,
                                                    parse: Parser, limit: Option<nat>)
    requires Windowed(r, full, limit)
    ensures Windowed(ApplyLines(r, lines, stages, parse, limit), ApplyLines(full, lines, stages, parse, None), limit)
    ensures limit.Some? ==> EndOf(ApplyLines(r, lines, stages, parse, limit).output,
                                  ApplyLines(full, lines, stages, parse, None).output, limit.value)
    decreases |lines|
  {
    hide ApplyLine;
    if lines != [] {
      LineWindowed(r, full, lines[0], stages, parse, limit);
      OutputIsLastOfTranscript(ApplyLine(r, lines[0], stages, parse, limit), ApplyLine(full, lines[0], stages, parse, None),
                               lines[1..], stages, parse, limit);
    }
  }

  // ---- milestones ------------------------------------------------------------------------------

  /** The last stage a call hits, or -1. */
  function LastHit(stages: seq<Stage>, name: string, target: string): int {
    MatchFrom(stages, 0, -1, name, target)
  }

  function Max(a: int, b: int): int {
    if a >= b then a else b
  }

  lemma {:induction false} MatchFromIs(stages: seq<Stage>, j: int, a: int, b: int, name: string, target: string)
    requires 0 <= j && -1 <= a < j && -1 <= b < j
    ensures var (x, y) := (MatchFrom(stages, j, a, name, target), MatchFrom(stages, j, b, name, target));
            (x == a && y == b) || (x == y && j <= x)
    decreases |stages| - j
  {
    if j < |stages| {
      var hit := stages[j].hits(name, target);
      MatchFromIs(stages, j + 1, if hit then j else a, if hit then j else b, name, target);
    }
  }

  lemma {:induction false} MatchFromSkips(stages: seq<Stage>, j: int, cur: int, name: string, target: string)
    requires 0 <= j <= cur + 1
    ensures Max(cur, MatchFrom(stages, j, j - 1, name, target)) == MatchFrom(stages, cur + 1, cur, name, target)
            || (MatchFrom(stages, j, j - 1, name, target) < cur && MatchFrom(stages, cur + 1, cur, name, target) == cur)
    decreases cur + 1 - j
  {
    if j == cur + 1 {
      MatchFromIs(stages, j, cur, cur, name, target);
    } else {
      MatchFromSkips(stages, j + 1, cur, name, target);
      MatchFromIs(stages, j + 1, j - 1, j, name, target);
      if j < |stages| && !stages[j].hits(name, target) {
        MatchFromIs(stages, j + 1, j - 1, j, name, target);
      }
    }
  }

  /** Matching from a stage is jumping to the last stage hit, unless that lies behind. */
  lemma MatchIsMax(stages: seq<Stage>, cur: int, name: string, target: string)
    requires cur >= -1
    ensures MatchFrom(stages, cur + 1, cur, name, target) == Max(cur, LastHit(stages, name, target))
  {
    MatchFromSkips(stages, 0, cur, name, target);
  }

  /** The same record, but for a stage index that was started further ahead. */
  predicate Ahead(r: Record, r0: Record, floor: int) {
    r0.stageIndex >= -1 && r == r0.(stageIndex := Max(floor, r0.stageIndex))
  }

  lemma {:induction false} ContentsAhead(u: Update, u0: Update, content: seq<Content>, stages: seq<Stage>, floor: int)
    requires u0.stageIndex >= -1 && floor >= -1 && u == u0.(stageIndex := Max(floor, u0.stageIndex))
    ensures var (v, v0) := (AddContents(u, content, stages), AddContents(u0, content, stages));
            v0.stageIndex >= u0.stageIndex && v == v0.(stageIndex := Max(floor, v0.stageIndex))
    decreases |content|
  {
    hide MatchFrom, LastHit;
    if content != [] {
      match content[0] {
        case ToolUse(name, target, _) =>
          MatchIsMax(stages, u.stageIndex, name, target);
          MatchIsMax(stages, u0.stageIndex, name, target);
        case _ =>
      }
      ContentsAhead(AddContent(u, content[0], stages), AddContent(u0, content[0], stages), content[1..], stages, floor);
    }
  }

  lemma LineAhead(r: Record, r0: Record, line: string, stages: seq<Stage>, parse: Parser, limit: Option<nat>, floor: int)
    requires Ahead(r, r0, floor) && floor >= -1
    ensures Ahead(ApplyLine(r, line, stages, parse, limit), ApplyLine(r0, line, stages, parse, limit), floor)
    ensures ApplyLine(r0, line, stages, parse, limit).stageIndex >= r0.stageIndex
  {
    hide Text.Trim, Last;
    var t := Text.Trim(line);
    if t != "" && t[0] == '{' && parse(t).Some? && parse(t).value.Assistant? {
      ContentsAhead(Update("", Leave, r.stageIndex, None), Update("", Leave, r0.stageIndex, None),
                    parse(t).value.content, stages, floor);
      hide AddContents;
    }
  }

  /** Folding never moves the milestone back, and a fold that starts further ahead differs in
      nothing but that head start: a synthesized view, which starts at stage 0, shows the
      transcript, activity and stats of the run itself, which starts at -1. */
  lemma {:induction false} FoldAhead(r: Record, r0: Record, lines: seq<string>, stages: seq<Stage>, parse: Parser,
                                     limit: Option<nat>, floor: int)
    requires Ahead(r, r0, floor) && floor >= -1
    ensures Ahead(ApplyLines(r, lines, stages, parse, limit), ApplyLines(r0, lines, stages, parse, limit), floor)
    ensures ApplyLines(r0, lines, stages, parse, limit).stageIndex >= r0.stageIndex
    decreases |lines|
  {
    hide ApplyLine, Ahead;
    if lines != [] {
      LineAhead(r, r0, lines[0], stages, parse, limit, floor);
      var r1, r2 := ApplyLine(r, lines[0], stages, parse, limit), ApplyLine(r0, lines[0], stages, parse, limit);
      FoldAhead(r1, r2, lines[1..], stages, parse, limit, floor);
    }
  }

  // ---- the progress cursor ----------------------------------------------------------------------

  datatype Polled = Polled(run: Record, progressCount: nat)

  /** One poll: fold the lines behind the cursor. */
  function Poll(p: Polled, lines: seq<string>, stages: seq<Stage>, parse: Parser): Polled {
    Polled(if p.progressCount <= |lines| then ApplyLines(p.run, lines[p.progressCount..], stages, parse, MAX_OUTPUT) else p.run,
           |lines|)
  }

  class RunnerRun {
    var run: Record
    var progressCount: nat
    const stages: seq<Stage>
    const parse: Parser

    constructor (run: Record, stages: seq<Stage>, parse: Parser)
      ensures this.run == run && progressCount == 0 && this.stages == stages && this.parse == parse
    {
      this.run, this.progressCount, this.stages, this.parse := run, 0, stages, parse;
    }

    method FoldRunnerProgress(lines: seq<string>)
      modifies this
      ensures Polled(run, progressCount) == Poll(Polled(old(run), old(progressCount)), lines, stages, parse)
    {
      ghost var all := Poll(Polled(run, progressCount), lines, stages, parse).run;
      var i := progressCount;
      while i < |lines|
        invariant i >= progressCount == old(progressCount)
        invariant i <= |lines| ==> ApplyLines(run, lines[i..], stages, parse, MAX_OUTPUT) == all
        invariant i > |lines| ==> run == all
      {
        assert lines[i..][0] == lines[i] && lines[i..][1..] == lines[i + 1..];
        run := ApplyLine(run, lines[i], stages, parse, MAX_OUTPUT);
        i := i + 1;
      }
      progressCount := |lines|;
    }
  }

  function PollAll(p: Polled, polls: seq<seq<string>>, stages: seq<Stage>, parse: Parser): Polled
    decreases |polls|
  {
    if polls == [] then p else PollAll(Poll(p, polls[0], stages, parse), polls[1..], stages, parse)
  }

  /** Each poll sees the lines of the one before, and maybe more. */
  predicate AppendOnly(seen: seq<string>, polls: seq<seq<string>>)
    decreases |polls|
  {
    polls == [] || (seen <= polls[0] && AppendOnly(polls[0], polls[1..]))
  }

  function FinalLines(seen: seq<string>, polls: seq<seq<string>>): seq<string> {
    if polls == [] then seen else polls[|polls| - 1]
  }

  /** Any number of polls of an append-only progress list leaves the record that one fresh fold
      of the final list leaves. */
  lemma {:induction false} PollsAreOneFold(r: Record, seen: seq<string>, polls: seq<seq<string>>, stages: seq<Stage>, parse: Parser)
    requires AppendOnly(seen, polls)
    ensures PollAll(Polled(ApplyLines(r, seen, stages, parse, MAX_OUTPUT), |seen|), polls, stages, parse) ==
            Polled(ApplyLines(r, FinalLines(seen, polls), stages, parse, MAX_OUTPUT), |FinalLines(seen, polls)|)
    decreases |polls|
  {
    hide ApplyLine;
    if polls != [] {
      var lines := polls[0];
      assert lines == seen + lines[|seen|..];
      ApplyLinesConcat(r, seen, lines[|seen|..], stages, parse, MAX_OUTPUT);
      PollsAreOneFold(r, lines, polls[1..], stages, parse);
    }
  }

  // ---- the run and its synthesized view ----------------------------------------------------------

  /** The record of a run that was just launched, and the stand-in that a run panel gets for an
      agent job without a run: it has reached stage 0 from the start. */
  const LAUNCHED := Record("", false, None, -1, None)
  const STAND_IN := Record("", false, None, 0, None)

  /** One look at the agent job: its progress, and while it is queued a note on the runner
      instead of the activity. */
  datatype Look = Look(lines: seq<string>, note: Option<string>)

  function Sync(p: Polled, look: Look, stages: seq<Stage>, parse: Parser): Polled {
    var q := Poll(p, look.lines, stages, parse);
    if look.note.Some? then q.(run := q.run.(activity := look.note)) else q
  }

  function SyncAll(p: Polled, looks: seq<Look>, stages: seq<Stage>, parse: Parser): Polled
    decreases |looks|
  {
    if looks == [] then p else SyncAll(Sync(p, looks[0], stages, parse), looks[1..], stages, parse)
  }

  function LinesSeen(looks: seq<Look>): (polls: seq<seq<string>>)
    ensures |polls| == |looks|
  {
    if looks == [] then [] else [looks[0].lines] + LinesSeen(looks[1..])
  }

  function Synthesized(lines: seq<string>, stages: seq<Stage>, parse: Parser): Record {
    Poll(Polled(STAND_IN, 0), lines, stages, parse).run
  }

  predicate SameButActivity(r: Record, s: Record) {
    r == s.(activity := r.activity)
  }

  lemma {:induction false} LinesButActivity(r: Record, s: Record, lines: seq<string>, stages: seq<Stage>, parse: Parser)
    requires SameButActivity(r, s)
    ensures SameButActivity(ApplyLines(r, lines, stages, parse, MAX_OUTPUT), ApplyLines(s, lines, stages, parse, MAX_OUTPUT))
    decreases |lines|
  {
    hide EventUpdate, Text.Trim, Last;
    if lines != [] {
      LinesButActivity(ApplyLine(r, lines[0], stages, parse, MAX_OUTPUT), ApplyLine(s, lines[0], stages, parse, MAX_OUTPUT),
                       lines[1..], stages, parse);
    }
  }

  /** Notes never reach the transcript, the milestone or the stats; the latest shows. */
  lemma {:induction false} NotesOnlyInActivity(p: Polled, q: Polled, looks: seq<Look>, stages: seq<Stage>, parse: Parser)
    requires SameButActivity(p.run, q.run) && p.progressCount == q.progressCount
    ensures var (a, b) := (SyncAll(p, looks, stages, parse), PollAll(q, LinesSeen(looks), stages, parse));
            SameButActivity(a.run, b.run) && a.progressCount == b.progressCount &&
            (looks != [] && looks[|looks| - 1].note.Some? ==> a.run.activity == looks[|looks| - 1].note)
    decreases |looks|
  {
    hide ApplyLines;
    if looks != [] {
      var lines := looks[0].lines;
      if p.progressCount <= |lines| {
        LinesButActivity(p.run, q.run, lines[p.progressCount..], stages, parse);
      }
      NotesOnlyInActivity(Sync(p, looks[0], stages, parse), Poll(q, lines, stages, parse), looks[1..], stages, parse);
    }
  }

  /** Whenever a run panel asks, the view synthesized from the whole progress list shows the
      transcript and the stats of the run that was synced look by look; its milestone is the
      run's, or stage 0 where the run has reached none. */
  lemma FreshPolls(looks: seq<Look>, stages: seq<Stage>, parse: Parser)
    requires AppendOnly([], LinesSeen(looks))
    ensures var run := SyncAll(Polled(LAUNCHED, 0), looks, stages, parse).run;
            var view := Synthesized(FinalLines([], LinesSeen(looks)), stages, parse);
            view.output == run.output && view.sawTranscript == run.sawTranscript && view.stats == run.stats &&
            view.stageIndex == Max(0, run.stageIndex)
  {
    var polls := LinesSeen(looks);
    var lines := FinalLines([], polls);
    NoLines(LAUNCHED, stages, parse);
    assert lines[0..] == lines;
    hide ApplyLines, PollAll, SyncAll, FinalLines, LinesSeen;
    PollsAreOneFold(LAUNCHED, [], polls, stages, parse);
    NotesOnlyInActivity(Polled(LAUNCHED, 0), Polled(LAUNCHED, 0), looks, stages, parse);
    FoldAhead(STAND_IN, LAUNCHED, lines, stages, parse, MAX_OUTPUT, 0);
  }

  // ---- the file store's progress window ---------------------------------------------------------------

  /** What the polls see where the store keeps the last lines of an ever longer progress. */
  function Windows(totals: seq<seq<string>>): (polls: seq<seq<string>>)
    ensures |polls| == |totals|
  {
    if totals == [] then [] else [Queue.LastLines(totals[0], Queue.PROGRESS_CAP)] + Windows(totals[1..])
  }

  /** The transcript that the file store keeps after some appends, each cut to the window. */
  function Stored(batches: seq<seq<string>>): seq<string> {
    if batches == [] then [] else Queue.LastLines(Stored(batches[..|batches| - 1]) + batches[|batches| - 1], Queue.PROGRESS_CAP)
  }

  function Reported(batches: seq<seq<string>>): seq<string> {
    if batches == [] then [] else Reported(batches[..|batches| - 1]) + batches[|batches| - 1]
  }

  /** Cutting at every append keeps the window of all that was reported. */
  lemma {:induction false} StoredIsWindow(batches: seq<seq<string>>)
    ensures Stored(batches) == Queue.LastLines(Reported(batches), Queue.PROGRESS_CAP)
    ensures EndOf(Stored(batches), Reported(batches), 200)
  {
    hide EndOf;
    if batches != [] {
      var init, last := batches[..|batches| - 1], batches[|batches| - 1];
      StoredIsWindow(init);
      CutTwice(Reported(init), last, Queue.PROGRESS_CAP);
      hide Queue.LastLines;
    }
    LastLinesAreEnd(Reported(batches), Queue.PROGRESS_CAP);
  }

  lemma LastLinesAreEnd(lines: seq<string>, cap: nat)
    ensures EndOf(Queue.LastLines(lines, cap), lines, cap)
  {}

  lemma CutTwice(a: seq<string>, b: seq<string>, cap: nat)
    ensures Queue.LastLines(Queue.LastLines(a, cap) + b, cap) == Queue.LastLines(a + b, cap)
  {
    if |a| > cap {
      var n := |a| - cap;
      var c := a[n..];
      assert (a + b)[n..] == c + b;
      DropMore(a + b, n, |b|);
    }
  }

  lemma DropMore(s: seq<string>, n: nat, m: nat)
    requires n + m <= |s|
    ensures s[n..][m..] == s[n + m..]
  {}

  /** An append is one such step on the row's transcript. */
  lemma AppendStores(j: Queue.Job, batches: seq<seq<string>>, lines: seq<string>, now: nat)
    requires j.progress == Stored(batches)
    ensures Queue.AppendRow(j, lines, now).progress == Stored(batches + [lines])
  {
    assert (batches + [lines])[..|batches|] == batches;
  }

  /** The lines that a cursor takes from a series of polls. */
  function Folded(cursor: nat, polls: seq<seq<string>>): seq<string>
    decreases |polls|
  {
    if polls == [] then []
    else (if cursor <= |polls[0]| then polls[0][cursor..] else []) + Folded(|polls[0]|, polls[1..])
  }

  lemma {:induction false} PollsFold(p: Polled, polls: seq<seq<string>>, stages: seq<Stage>, parse: Parser)
    ensures PollAll(p, polls, stages, parse).run == ApplyLines(p.run, Folded(p.progressCount, polls), stages, parse, MAX_OUTPUT)
    decreases |polls|
  {
    hide ApplyLine;
    if polls != [] {
      var q := Poll(p, polls[0], stages, parse);
      var taken := if p.progressCount <= |polls[0]| then polls[0][p.progressCount..] else [];
      ApplyLinesConcat(p.run, taken, Folded(|polls[0]|, polls[1..]), stages, parse, MAX_OUTPUT);
      PollsFold(q, polls[1..], stages, parse);
    }
  }

  /** The cursor takes as many lines as the window grew. */
  lemma {:induction false} FoldedLength(seen: seq<string>, totals: seq<seq<string>>)
    requires AppendOnly(seen, totals)
    ensures |Folded(|Queue.LastLines(seen, Queue.PROGRESS_CAP)|, Windows(totals))| ==
            |Queue.LastLines(FinalLines(seen, totals), Queue.PROGRESS_CAP)| - |Queue.LastLines(seen, Queue.PROGRESS_CAP)|
    decreases |totals|
  {
    if totals != [] {
      FoldedLength(totals[0], totals[1..]);
    }
  }

  lemma {:induction false} GrowsTo(seen: seq<string>, totals: seq<seq<string>>)
    requires AppendOnly(seen, totals)
    ensures seen <= FinalLines(seen, totals)
    decreases |totals|
  {
    if totals != [] {
      GrowsTo(totals[0], totals[1..]);
    }
  }

  lemma {:induction false} FoldedShort(seen: seq<string>, totals: seq<seq<string>>)
    requires AppendOnly(seen, totals) && |FinalLines(seen, totals)| <= Queue.PROGRESS_CAP
    ensures seen + Folded(|seen|, Windows(totals)) == FinalLines(seen, totals)
    decreases |totals|
  {
    hide Folded, Windows;
    if totals == [] {
      NothingFolded(|seen|);
    } else {
      var lines := totals[0];
      GrowsTo(lines, totals[1..]);
      FoldedShort(lines, totals[1..]);
      hide AppendOnly, FinalLines;
      FitsWhole(totals);
      assert seen + lines[|seen|..] == lines;
      Seqs.Assoc(seen, lines[|seen|..], Folded(|lines|, Windows(totals[1..])));
    }
  }

  lemma NothingFolded(cursor: nat)
    ensures Folded(cursor, Windows([])) == []
  {}

  lemma FitsWhole(totals: seq<seq<string>>)
    requires totals != [] && |totals[0]| <= Queue.PROGRESS_CAP
    ensures forall c: nat :: c <= |totals[0]| ==>
              Folded(c, Windows(totals)) == totals[0][c..] + Folded(|totals[0]|, Windows(totals[1..]))
  {}

  /** Over the file store, whose window keeps 200 lines, the polls of a run take exactly the
      lines that the runner reported if and only if it reported no more than 200; the record is
      then the one that a fresh fold of them leaves. */
  lemma WindowedPolls(r: Record, totals: seq<seq<string>>, stages: seq<Stage>, parse: Parser)
    requires AppendOnly([], totals)
    ensures Folded(0, Windows(totals)) == FinalLines([], totals) <==> |FinalLines([], totals)| <= Queue.PROGRESS_CAP
    ensures |FinalLines([], totals)| <= Queue.PROGRESS_CAP ==>
              PollAll(Polled(r, 0), Windows(totals), stages, parse).run ==
              ApplyLines(r, FinalLines([], totals), stages, parse, MAX_OUTPUT)
  {
    hide ApplyLines, PollAll, AppendOnly;
    FoldedLength([], totals);
    PollsFold(Polled(r, 0), Windows(totals), stages, parse);
    if |FinalLines([], totals)| <= Queue.PROGRESS_CAP {
      FoldedShort([], totals);
      assert [] + Folded(0, Windows(totals)) == Folded(0, Windows(totals));
    }
  }

  /** From the poll on that finds the window full, the record stands still, whatever the runner
      reports and however the polls fall. */
  lemma FullWindowStalls(r: Record, seen: seq<string>, totals: seq<seq<string>>, stages: seq<Stage>, parse: Parser)
    requires AppendOnly(seen, totals) && |seen| >= Queue.PROGRESS_CAP
    ensures PollAll(Polled(r, Queue.PROGRESS_CAP), Windows(totals), stages, parse).run == r
  {
    hide PollAll, AppendOnly;
    FoldedLength(seen, totals);
    GrowsTo(seen, totals);
    PollsFold(Polled(r, Queue.PROGRESS_CAP), Windows(totals), stages, parse);
    assert Folded(Queue.PROGRESS_CAP, Windows(totals)) == [];
  }
}
