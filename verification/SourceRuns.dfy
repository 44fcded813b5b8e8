/** The run history of discovery sources: optimistic records at launch, the flip when a
    result is ingested or a local run closes, and the two sweeps that keep it honest.

    Source ids are unique in the registry. A record's place in the history is decided by
    the order of its stored start string, given here as a number. */
module SourceRuns {
  import opened Options
  import Seqs
  import Text = Frontmatter

  const MAX_SOURCE_RUNS: nat := 20
  const SOURCE_RUN_STALLED_MS: nat := 1_800_000
  const SOURCE_RUN_MAX_FINDS: nat := 100
  const TITLE_MAX: nat := 300
  const EMPLOYER_MAX: nat := 300
  const LINK_MAX: nat := 1000

  /** Ids minted for local runs, and agent-job ids ("aj-…"). */
  datatype RunId = Local(n: nat) | AgentJob(n: nat)

  datatype Outcome = Succeeded | Failed | Incomplete | InProgress

  datatype Rec = Rec(runId: RunId, startKey: int, startedMs: Option<int>, outcome: Outcome, leadsNew: Option<nat>,
                     errorReason: Option<string>)

  datatype Source = Source(id: string, runs: seq<Rec>, lastRunAt: Option<int>)

  /** An employer that is missing is empty here. */
  datatype RawFind = RawFind(title: string, employer: string, link: string)

  datatype Find = Find(title: string, employer: string, link: string)

  datatype Phase = Pending | Done | Broken | Dead

  /** An agent-job row: `source` is there only for source runs, `result` only when it is a list of finds. */
  datatype Row = Row(phase: Phase, source: Option<string>, result: Option<seq<RawFind>>, error: Option<string>)

  /** A job, kept under its folder name; `filed` marks those that a source run brought. */
  datatype JobRow = JobRow(link: string, folder: string, filed: bool)

  /** Lower-casing, when the store takes two folder names for one, and which finds it can keep
      at all, whatever jobs there are (a name too long for a folder is one it cannot). */
  datatype World = World(lower: string -> string, fold: string -> string, usable: Find -> bool)
  {
    ghost predicate Valid() {
      forall s: string :: lower(s) == "" <==> s == ""
    }
  }

  datatype State = State(sources: seq<Source>, jobs: seq<JobRow>, rows: map<nat, Row>, serial: nat)

  // ---- validating a result -----------------------------------------------------------------

  function Clean(s: string, cap: nat): string {
    var t := Text.Trim(s);
    if |t| <= cap then t else t[..cap]
  }

  function CleanFinds(raw: seq<RawFind>): seq<Find> {
    if raw == [] then []
    else
      var f := Find(Clean(raw[0].title, TITLE_MAX), Clean(raw[0].employer, EMPLOYER_MAX), Clean(raw[0].link, LINK_MAX));
      (if f.title == "" || f.link == "" then [] else [f]) + CleanFinds(raw[1..])
  }

  function Validated(result: Option<seq<RawFind>>): Option<seq<Find>> {
    if result.None? || |result.value| > SOURCE_RUN_MAX_FINDS then None else Some(CleanFinds(result.value))
  }

  // ---- filing finds --------------------------------------------------------------------------

  function LinkKey(w: World, link: string): string {
    w.lower(Text.Trim(link))
  }

  /** The non-empty link keys of the jobs that exist. */
  function KeysOf(w: World, jobs: seq<JobRow>): set<string> {
    set j | j in jobs && LinkKey(w, j.link) != "" :: LinkKey(w, j.link)
  }

  predicate Forbidden(c: char) {
    c in "\\/:*?\"<>|"
  }

  /** Without the forbidden characters, and every run of white space one space. */
  function Squeezed(s: string): string {
    if s == [] then []
    else if Forbidden(s[0]) then Squeezed(s[1..])
    else if !Text.IsSpace(s[0]) then [s[0]] + Squeezed(s[1..])
    else
      var rest := Squeezed(s[1..]);
      if rest != [] && rest[0] == ' ' then rest else " " + rest
  }

  /** The folder of a job with this role and employer. */
  function FolderOf(role: string, employer: string): string {
    Text.Trim(Squeezed(role + " - " + employer))
  }

  predicate Taken(w: World, jobs: seq<JobRow>, folder: string) {
    exists j :: j in jobs && w.fold(j.folder) == w.fold(folder)
  }

  /** A new job needs a role, an employer, and a folder that no job has. */
  predicate Accepts(w: World, jobs: seq<JobRow>, f: Find) {
    f.title != "" && f.employer != "" && w.usable(f) && !Taken(w, jobs, FolderOf(f.title, f.employer))
  }

  function NewJob(f: Find): JobRow {
    JobRow(f.link, FolderOf(f.title, f.employer), true)
  }

  function FileFinds(w: World, jobs: seq<JobRow>, finds: seq<Find>, existing: set<string>): (t: seq<JobRow>)
    ensures jobs <= t
    decreases |finds|
  {
    if finds == [] then jobs
    else
      var key := LinkKey(w, finds[0].link);
      if key in existing || !Accepts(w, jobs, finds[0]) then FileFinds(w, jobs, finds[1..], existing)
      else FileFinds(w, jobs + [NewJob(finds[0])], finds[1..], existing + {key})
  }

  // ---- run records -----------------------------------------------------------------------------

  function StartOf(r: Rec): int { r.startKey }

  /** The last records of a history in order. */
  function Newest(sorted: seq<Rec>): seq<Rec> {
    sorted[if |sorted| > MAX_SOURCE_RUNS then |sorted| - MAX_SOURCE_RUNS else 0..]
  }

  /** The newest records, oldest first. */
  function CapRuns(runs: seq<Rec>): (kept: seq<Rec>) {
    Newest(Seqs.SortBy(runs, StartOf))
  }

  function SourceAt(sources: seq<Source>, id: string): (i: nat)
    ensures i <= |sources| && (i < |sources| ==> sources[i].id == id)
    ensures forall k :: 0 <= k < i ==> sources[k].id != id
  {
    if sources == [] || sources[0].id == id then 0 else 1 + SourceAt(sources[1..], id)
  }

  function RecordAt(runs: seq<Rec>, id: RunId): (i: nat)
    ensures i <= |runs| && (i < |runs| ==> runs[i].runId == id)
    ensures forall k :: 0 <= k < i ==> runs[k].runId != id
  {
    if runs == [] || runs[0].runId == id then 0 else 1 + RecordAt(runs[1..], id)
  }

  function RunningAt(runs: seq<Rec>): (i: nat)
    ensures i <= |runs| && (i < |runs| ==> runs[i].outcome == InProgress)
    ensures forall k :: 0 <= k < i ==> runs[k].outcome != InProgress
  {
    if runs == [] || runs[0].outcome == InProgress then 0 else 1 + RunningAt(runs[1..])
  }

  datatype Verdict = Verdict(outcome: Outcome, leadsNew: Option<nat>, errorReason: Option<string>)

  /** Unreported fields keep what the record had. */
  function Flipped(r: Rec, v: Verdict): Rec {
    r.(outcome := v.outcome,
       leadsNew := if v.leadsNew.Some? then v.leadsNew else r.leadsNew,
       errorReason := if v.errorReason.Some? then v.errorReason else r.errorReason)
  }

  /** The record of this run, or else the running one. */
  function FinalizedRuns(runs: seq<Rec>, id: RunId, v: Verdict): seq<Rec> {
    var i := if RecordAt(runs, id) < |runs| then RecordAt(runs, id) else RunningAt(runs);
    if i == |runs| then runs else CapRuns(runs[i := Flipped(runs[i], v)])
  }

  function Finalized(sources: seq<Source>, sourceId: string, id: RunId, v: Verdict): (t: seq<Source>)
    ensures |t| == |sources|
  {
    var i := SourceAt(sources, sourceId);
    if i == |sources| then sources else sources[i := sources[i].(runs := FinalizedRuns(sources[i].runs, id, v))]
  }

  // ---- ingesting a runner's result ---------------------------------------------------------------

  function OrElse(error: Option<string>, text: string): string {
    if error.Some? && error.value != "" then error.value else text
  }

  function RowVerdict(row: Row, created: nat): Verdict {
    if row.phase != Done then Verdict(Failed, None, Some(OrElse(row.error, "runner reported failure")))
    else if Validated(row.result).None? then Verdict(Incomplete, None, Some("finds payload rejected"))
    else Verdict(Succeeded, Some(created), None)
  }

  function JobsAfter(w: World, jobs: seq<JobRow>, row: Row): (t: seq<JobRow>)
    ensures jobs <= t
  {
    var finds := Validated(row.result);
    if row.phase == Done && finds.Some? then FileFinds(w, jobs, finds.value, KeysOf(w, jobs)) else jobs
  }

  function IngestedRow(w: World, s: State, row: Row, sourceId: string, id: RunId): State {
    var jobs := JobsAfter(w, s.jobs, row);
    s.(jobs := jobs, sources := Finalized(s.sources, sourceId, id, RowVerdict(row, |jobs| - |s.jobs|)))
  }

  /** Keyed off the row alone: its source and its own id as the run id. */
  function Ingested(w: World, s: State, n: nat): State {
    if n !in s.rows || s.rows[n].source.None? || s.rows[n].source.value == "" then s
    else IngestedRow(w, s, s.rows[n], s.rows[n].source.value, AgentJob(n))
  }

  // ---- the sweeps ----------------------------------------------------------------------------------

  /** A running record of an agent job that ended or vanished. */
  predicate IsStale(r: Rec, rows: map<nat, Row>) {
    r.outcome == InProgress && r.runId.AgentJob? && !(r.runId.n in rows && rows[r.runId.n].phase == Pending)
  }

  function StaleOf(runs: seq<Rec>, rows: map<nat, Row>): seq<nat> {
    if runs == [] then [] else (if IsStale(runs[0], rows) then [runs[0].runId.n] else []) + StaleOf(runs[1..], rows)
  }

  function Stale(sources: seq<Source>, rows: map<nat, Row>): seq<nat> {
    if sources == [] then [] else StaleOf(sources[0].runs, rows) + Stale(sources[1..], rows)
  }

  predicate IsDone(rows: map<nat, Row>, n: nat) {
    n in rows && rows[n].phase == Done
  }

  function IngestedEach(w: World, s: State, stale: seq<nat>): State
    decreases |stale|
  {
    if stale == [] then s
    else IngestedEach(w, if IsDone(s.rows, stale[0]) then Ingested(w, s, stale[0]) else s, stale[1..])
  }

  function BrokenVerdict(rows: map<nat, Row>, n: nat): Verdict {
    if n !in rows then Verdict(Incomplete, None, Some("agent job record vanished"))
    else Verdict(Failed, None, Some(OrElse(rows[n].error,
                   if rows[n].phase == Dead then "runner lease expired (laptop offline?)" else "runner failed")))
  }

  predicate IsRunningRecord(r: Rec, id: RunId) {
    r.runId == id && r.outcome == InProgress
  }

  function RunningRecordAt(runs: seq<Rec>, id: RunId): (i: nat)
    ensures i <= |runs| && (i < |runs| ==> IsRunningRecord(runs[i], id))
    ensures forall k :: 0 <= k < i ==> !IsRunningRecord(runs[k], id)
  {
    if runs == [] || IsRunningRecord(runs[0], id) then 0 else 1 + RunningRecordAt(runs[1..], id)
  }

  function FlippedRuns(runs: seq<Rec>, id: RunId, v: Verdict): seq<Rec> {
    var i := RunningRecordAt(runs, id);
    if i == |runs| then runs else runs[i := runs[i].(outcome := v.outcome, errorReason := v.errorReason)]
  }

  function FlippedSources(sources: seq<Source>, id: RunId, v: Verdict): (t: seq<Source>)
    ensures |t| == |sources| && forall i :: 0 <= i < |t| ==> t[i] == sources[i].(runs := FlippedRuns(sources[i].runs, id, v))
  {
    if sources == [] then []
    else [sources[0].(runs := FlippedRuns(sources[0].runs, id, v))] + FlippedSources(sources[1..], id, v)
  }

  function FlippedEach(sources: seq<Source>, rows: map<nat, Row>, stale: seq<nat>): seq<Source>
    decreases |stale|
  {
    if stale == [] then sources
    else FlippedEach(if IsDone(rows, stale[0]) then sources else FlippedSources(sources, AgentJob(stale[0]), BrokenVerdict(rows, stale[0])),
                     rows, stale[1..])
  }

  /** Results that never flipped their record first, failures and vanished jobs second. */
  function RunnerSwept(w: World, s: State): State {
    var stale := Stale(s.sources, s.rows);
    var t := IngestedEach(w, s, stale);
    t.(sources := FlippedEach(t.sources, s.rows, stale))
  }

  predicate Stalled(r: Rec, now: int) {
    r.outcome == InProgress && (r.startedMs.None? || now - r.startedMs.value >= SOURCE_RUN_STALLED_MS)
  }

  function Aged(r: Rec, now: int): Rec {
    if Stalled(r, now) then
      r.(outcome := Incomplete,
         errorReason := Some(if r.startedMs.Some? then "stalled; never reported back" else "stalled - no startedAt recorded"))
    else r
  }

  function AgedRuns(runs: seq<Rec>, now: int): (t: seq<Rec>)
    ensures |t| == |runs| && forall i :: 0 <= i < |t| ==> t[i] == Aged(runs[i], now)
  {
    if runs == [] then [] else [Aged(runs[0], now)] + AgedRuns(runs[1..], now)
  }

  function AgedSources(sources: seq<Source>, now: int): (t: seq<Source>)
    ensures |t| == |sources| && forall i :: 0 <= i < |t| ==> t[i] == sources[i].(runs := AgedRuns(sources[i].runs, now))
  {
    if sources == [] then [] else [sources[0].(runs := AgedRuns(sources[0].runs, now))] + AgedSources(sources[1..], now)
  }

  function Swept(w: World, s: State, now: int): State {
    var t := RunnerSwept(w, s);
    t.(sources := AgedSources(t.sources, now))
  }

  // ---- launching ---------------------------------------------------------------------------------------

  /** What the launch comes to once the source is found idle: refused by a gate, handed to
      the runner, or started here (a failed start still leaves a record). */
  datatype Mode = Gated | ToRunner | Here(up: bool)

  datatype Answer = Launched(id: RunId) | NotFound | AlreadyRunning | RefusedByGate

  function LaunchAnswer(s: State, sourceId: string, mode: Mode): Answer {
    var i := SourceAt(s.sources, sourceId);
    if i == |s.sources| then NotFound
    else if RunningAt(s.sources[i].runs) < |s.sources[i].runs| then AlreadyRunning
    else if mode == Gated then RefusedByGate
    else Launched(if mode == ToRunner then AgentJob(s.serial) else Local(s.serial))
  }

  function NewRecord(id: RunId, mode: Mode, now: int): Rec {
    Rec(id, now, Some(now), if mode == Here(false) then Failed else InProgress, None,
        if mode == Here(false) then Some("failed to launch") else None)
  }

  function Recorded(s: State, sourceId: string, mode: Mode, now: int): State {
    var answer := LaunchAnswer(s, sourceId, mode);
    if !answer.Launched? then s
    else
      var i := SourceAt(s.sources, sourceId);
      var src := s.sources[i];
      s.(sources := s.sources[i := src.(runs := CapRuns(src.runs + [NewRecord(answer.id, mode, now)]), lastRunAt := Some(now))],
         rows := if mode == ToRunner then s.rows[s.serial := Row(Pending, Some(sourceId), None, None)] else s.rows,
         serial := s.serial + 1)
  }

  // ---- the registry as the server keeps it ---------------------------------------------------------------

  class Registry {
    const w: World
    var sources: seq<Source>
    var jobs: seq<JobRow>
    var rows: map<nat, Row>
    var serial: nat

    ghost function Now(): (s: State)
      reads this
      ensures s == State(sources, jobs, rows, serial)
    {
      State(sources, jobs, rows, serial)
    }

    constructor (w: World, sources: seq<Source>)
      ensures this.w == w && Now() == State(sources, [], map[], 0)
    {
      this.w, this.sources := w, sources;
      jobs, rows, serial := [], map[], 0;
    }

    method FinalizeRunRecord(sourceId: string, id: RunId, v: Verdict)
      modifies this
      ensures Now() == old(Now()).(sources := Finalized(old(sources), sourceId, id, v))
    {
      var i := SourceAt(sources, sourceId);
      if i == |sources| {
        return;
      }
      var runs := sources[i].runs;
      var k := RecordAt(runs, id);
      if k == |runs| {
        k := RunningAt(runs);
      }
      if k == |runs| {
        assert sources[i := sources[i].(runs := runs)] == sources;
        return;
      }
      runs := runs[k := Flipped(runs[k], v)];
      sources := sources[i := sources[i].(runs := CapRuns(runs))];
    }

    method FileAll(finds: seq<Find>) returns (created: nat)
      modifies this
      ensures Now() == old(Now()).(jobs := FileFinds(w, old(jobs), finds, KeysOf(w, old(jobs))))
      ensures created == |jobs| - |old(jobs)|
    {
      var existing := KeysOf(w, jobs);
      created := 0;
      for i := 0 to |finds|
        invariant Now() == old(Now()).(jobs := jobs) && created == |jobs| - |old(jobs)|
        invariant FileFinds(w, jobs, finds[i..], existing) == FileFinds(w, old(jobs), finds, KeysOf(w, old(jobs)))
      {
        assert finds[i..][0] == finds[i] && finds[i..][1..] == finds[i + 1..];
        var key := LinkKey(w, finds[i].link);
        if key !in existing && Accepts(w, jobs, finds[i]) {
          jobs := jobs + [NewJob(finds[i])];
          existing := existing + {key};
          created := created + 1;
        }
      }
    }

    method IngestSourceRunResult(n: nat)
      modifies this
      ensures Now() == Ingested(w, old(Now()), n)
    {
      if n in rows && rows[n].source.Some? && rows[n].source.value != "" {
        IngestRow(rows[n], rows[n].source.value, AgentJob(n));
      }
    }

    method IngestRow(row: Row, sourceId: string, id: RunId)
      modifies this
      ensures Now() == IngestedRow(w, old(Now()), row, sourceId, id)
    {
      hide Finalized, RowVerdict, JobsAfter;
      var created := FileResult(row);
      FinalizeRunRecord(sourceId, id, RowVerdict(row, created));
    }

    method FileResult(row: Row) returns (created: nat)
      modifies this
      ensures Now() == old(Now()).(jobs := JobsAfter(w, old(jobs), row))
      ensures created == |jobs| - |old(jobs)|
    {
      hide Validated, KeysOf, FileFinds;
      created := 0;
      var finds := Validated(row.result);
      if row.phase == Done && finds.Some? {
        created := FileAll(finds.value);
      }
    }

    method StaleIds() returns (stale: seq<nat>)
      ensures stale == Stale(sources, rows)
    {
      stale := [];
      for i := 0 to |sources|
        invariant stale + Stale(sources[i..], rows) == Stale(sources, rows)
      {
        assert sources[i..][0] == sources[i] && sources[i..][1..] == sources[i + 1..];
        var found := StaleIn(sources[i].runs);
        Seqs.Assoc(stale, found, Stale(sources[i + 1..], rows));
        stale := stale + found;
      }
    }

    method StaleIn(runs: seq<Rec>) returns (stale: seq<nat>)
      ensures stale == StaleOf(runs, rows)
    {
      stale := [];
      for i := 0 to |runs|
        invariant stale + StaleOf(runs[i..], rows) == StaleOf(runs, rows)
      {
        assert runs[i..][0] == runs[i] && runs[i..][1..] == runs[i + 1..];
        if IsStale(runs[i], rows) {
          Seqs.Assoc(stale, [runs[i].runId.n], StaleOf(runs[i + 1..], rows));
          stale := stale + [runs[i].runId.n];
        }
      }
    }

    method ReconcileRunnerSourceRuns() returns (any: bool)
      modifies this
      ensures Now() == RunnerSwept(w, old(Now()))
      ensures any <==> Stale(old(sources), old(rows)) != []
    {
      hide Ingested, Stale;
      var stale := StaleIds();
      any := stale != [];
      for i := 0 to |stale|
        invariant rows == old(rows)
        invariant IngestedEach(w, Now(), stale[i..]) == IngestedEach(w, old(Now()), stale)
      {
        assert stale[i..][0] == stale[i] && stale[i..][1..] == stale[i + 1..];
        if IsDone(rows, stale[i]) {
          IngestedRows(w, Now(), stale[i]);
          IngestSourceRunResult(stale[i]);
        }
      }
      FlipAll(stale);
    }

    method FlipAll(stale: seq<nat>)
      modifies this
      ensures Now() == old(Now()).(sources := FlippedEach(old(sources), rows, stale))
    {
      for i := 0 to |stale|
        invariant Now() == old(Now()).(sources := sources)
        invariant FlippedEach(sources, rows, stale[i..]) == FlippedEach(old(sources), rows, stale)
      {
        assert stale[i..][0] == stale[i] && stale[i..][1..] == stale[i + 1..];
        if !IsDone(rows, stale[i]) {
          FlipOne(AgentJob(stale[i]), BrokenVerdict(rows, stale[i]));
        }
      }
    }

    method FlipOne(id: RunId, v: Verdict)
      modifies this
      ensures Now() == old(Now()).(sources := FlippedSources(old(sources), id, v))
    {
      for i := 0 to |sources|
        invariant |sources| == |old(sources)| && Now() == old(Now()).(sources := sources)
        invariant forall k :: 0 <= k < i ==> sources[k] == old(sources[k]).(runs := FlippedRuns(old(sources[k]).runs, id, v))
        invariant forall k :: i <= k < |sources| ==> sources[k] == old(sources[k])
      {
        var k := RunningRecordAt(sources[i].runs, id);
        if k < |sources[i].runs| {
          var rec := sources[i].runs[k];
          sources := sources[i := sources[i].(runs := sources[i].runs[k := rec.(outcome := v.outcome, errorReason := v.errorReason)])];
        }
      }
      assert sources == FlippedSources(old(sources), id, v);
    }

    method ReconcileStalledSourceRuns(now: int) returns (dirty: bool)
      modifies this
      ensures Now() == old(Now()).(sources := AgedSources(old(sources), now))
      ensures dirty <==> exists src, r :: src in old(sources) && r in src.runs && Stalled(r, now)
    {
      dirty := false;
      for i := 0 to |sources|
        invariant |sources| == |old(sources)| && Now() == old(Now()).(sources := sources)
        invariant forall k :: 0 <= k < i ==> sources[k] == old(sources[k]).(runs := AgedRuns(old(sources[k]).runs, now))
        invariant forall k :: i <= k < |sources| ==> sources[k] == old(sources[k])
        invariant dirty <==> exists k, r :: 0 <= k < i && r in old(sources[k]).runs && Stalled(r, now)
      {
        var runs, found := AgeRuns(sources[i].runs, now);
        dirty := dirty || found;
        sources := sources[i := sources[i].(runs := runs)];
      }
      assert sources == AgedSources(old(sources), now);
    }

    method AgeRuns(before: seq<Rec>, now: int) returns (runs: seq<Rec>, found: bool)
      ensures runs == AgedRuns(before, now)
      ensures found <==> exists r :: r in before && Stalled(r, now)
    {
      runs, found := before, false;
      for i := 0 to |runs|
        invariant |runs| == |before|
        invariant forall k :: 0 <= k < i ==> runs[k] == Aged(before[k], now)
        invariant forall k :: i <= k < |runs| ==> runs[k] == before[k]
        invariant found <==> exists k :: 0 <= k < i && Stalled(before[k], now)
      {
        if Stalled(runs[i], now) {
          runs, found := runs[i := Aged(runs[i], now)], true;
        }
      }
      assert runs == AgedRuns(before, now);
    }

    method LaunchSourceRun(sourceId: string, mode: Mode, now: int) returns (answer: Answer)
      modifies this
      ensures Now() == Recorded(Swept(w, old(Now()), now), sourceId, mode, now)
      ensures answer == LaunchAnswer(Swept(w, old(Now()), now), sourceId, mode)
    {
      hide RunnerSwept, AgedSources, CapRuns;
      var _ := ReconcileRunnerSourceRuns();
      var _ := ReconcileStalledSourceRuns(now);
      var i := SourceAt(sources, sourceId);
      if i == |sources| {
        return NotFound;
      }
      if RunningAt(sources[i].runs) < |sources[i].runs| {
        return AlreadyRunning;
      }
      if mode == Gated {
        return RefusedByGate;
      }
      var id := if mode == ToRunner then AgentJob(serial) else Local(serial);
      if mode == ToRunner {
        rows := rows[serial := Row(Pending, Some(sourceId), None, None)];
      }
      serial := serial + 1;
      sources := sources[i := sources[i].(runs := CapRuns(sources[i].runs + [NewRecord(id, mode, now)]), lastRunAt := Some(now))];
      answer := Launched(id);
    }
  }

  lemma IngestedRows(w: World, s: State, n: nat)
    ensures Ingested(w, s, n).rows == s.rows && Ingested(w, s, n).serial == s.serial
  {}
}
