/** What becomes of a source's run record: which result, sweep or end may change it and to what,
    over whole histories. */
module SourceRunOutcomes {
  import opened Options
  import opened SourceRuns
  import opened SourceRunHistory
  import Seqs

  // ---- what a result tells ----------------------------------------------------------------------

  /** A list of no more than a hundred finds. */
  predicate Reported(row: Row) {
    row.phase == Done && row.result.Some? && |row.result.value| <= 100
  }

  /** q is r as the result of that row tells it, which brought so many jobs: it succeeded exactly
      when the row is done with a list that is not too long, the count of new leads being that of
      the jobs; it is incomplete exactly when it is done without one; otherwise it failed, with
      the row's error. */
  predicate Told(row: Row, added: int, r: Rec, q: Rec) {
    && (q.outcome == Succeeded <==> Reported(row))
    && (q.outcome == Incomplete <==> row.phase == Done && !Reported(row))
    && (q.outcome == Failed <==> row.phase != Done)
    && (q.outcome == Succeeded ==> added >= 0 && q == r.(outcome := Succeeded, leadsNew := Some(added)))
    && (q.outcome == Incomplete ==> q == r.(outcome := Incomplete, errorReason := Some("finds payload rejected")))
    && (q.outcome == Failed ==> q == r.(outcome := Failed, errorReason := Some(Reason(row, "runner reported failure"))))
  }

  /** The row's error, or the text where it has none. */
  function Reason(row: Row, text: string): string {
    match row.error
    case None => text
    case Some(e) => if e == "" then text else e
  }

  predicate Has(runs: seq<Rec>, id: RunId) {
    exists r :: r in runs && r.runId == id
  }

  /** The record that a result or an end is for: its own, or, where that is gone, a running one. */
  predicate Addressed(runs: seq<Rec>, id: RunId, r: Rec) {
    r.runId == id || (!Has(runs, id) && r.outcome == InProgress)
  }

  lemma VerdictTold(row: Row, added: nat, r: Rec)
    ensures Told(row, added, r, Flipped(r, RowVerdict(row, added)))
  {
    hide CleanFinds;
  }

  lemma RecordFound(runs: seq<Rec>, id: RunId)
    ensures Has(runs, id) <==> RecordAt(runs, id) < |runs|
  {
    if Has(runs, id) {
      var r :| r in runs && r.runId == id;
      var k :| 0 <= k < |runs| && runs[k] == r;
    }
  }

  lemma CapKeepsFew(runs: seq<Rec>)
    requires Good(runs)
    ensures Good(CapRuns(runs)) && forall r :: r in CapRuns(runs) ==> r in runs
    ensures |runs| <= MAX_SOURCE_RUNS ==> forall r :: r in runs ==> r in CapRuns(runs)
  {
    var sorted := Seqs.SortBy(runs, StartOf);
    Permuted(runs, sorted);
    Capped(runs);
    hide Seqs.SortBy;
  }

  predicate FlippedFrom(runs: seq<Rec>, id: RunId, v: Verdict, q: Rec) {
    exists r :: r in runs && Addressed(runs, id, r) && q == Flipped(r, v) && (q.runId == id ==> r.runId == id)
  }

  /** Finalizing changes the one record that it addresses, as the verdict says. */
  lemma FinalizedRecord(runs: seq<Rec>, id: RunId, v: Verdict)
    requires Good(runs) && v.outcome != InProgress
    ensures var t := FinalizedRuns(runs, id, v);
            forall q :: q in t ==> (q in runs && q.runId != id) || FlippedFrom(runs, id, v, q)
    ensures |runs| <= MAX_SOURCE_RUNS ==>
              forall r :: r in runs && r.runId == id ==> Flipped(r, v) in FinalizedRuns(runs, id, v)
  {
    RecordFound(runs, id);
    var i := if RecordAt(runs, id) < |runs| then RecordAt(runs, id) else RunningAt(runs);
    if i < |runs| {
      var f := Flipped(runs[i], v);
      var t := runs[i := f];
      assert runs[i] in runs && Addressed(runs, id, runs[i]) && FlippedFrom(runs, id, v, f);
      FlipRecord(runs, i, f);
      assert t[i] in t;
      hide CapRuns;
      CapKeepsFew(t);
      hide Good;
      forall q | q in t ensures (q in runs && q.runId != id) || FlippedFrom(runs, id, v, q) {
        OthersStay(runs, i, f, q, id);
      }
      forall r | r in runs && r.runId == id ensures Flipped(r, v) in t {
        OneOfId(runs, i, r);
      }
    }
  }

  lemma OthersStay(runs: seq<Rec>, i: nat, f: Rec, q: Rec, id: RunId)
    requires UniqueIds(runs) && i < |runs| && q in runs[i := f] && (Has(runs, id) ==> runs[i].runId == id)
    ensures q == f || (q in runs && q.runId != id)
  {
    var k :| 0 <= k < |runs| && runs[i := f][k] == q;
    assert k != i ==> q == runs[k];
  }

  lemma OneOfId(runs: seq<Rec>, i: nat, r: Rec)
    requires UniqueIds(runs) && i < |runs| && r in runs && r.runId == runs[i].runId
    ensures r == runs[i]
  {
    var k :| 0 <= k < |runs| && runs[k] == r;
  }

  lemma SourceFound(sources: seq<Source>, i: nat)
    requires DistinctSources(sources) && i < |sources|
    ensures SourceAt(sources, sources[i].id) == i
  {}

  // ---- ingesting -------------------------------------------------------------------------------------

  /** The result of row n, in the records of the source that the row names. */
  predicate ResultShown(row: Row, n: nat, added: int, before: seq<Rec>, after: seq<Rec>) {
    && (forall q :: q in after ==> (q in before && q.runId != AgentJob(n)) || ToldFrom(row, n, added, before, q))
    && (|before| <= 20 ==> forall r :: r in before && r.runId == AgentJob(n) ==> exists q :: q in after && Told(row, added, r, q))
  }

  predicate ToldFrom(row: Row, n: nat, added: int, before: seq<Rec>, q: Rec) {
    exists r :: r in before && Addressed(before, AgentJob(n), r) && Told(row, added, r, q) &&
                (q.runId == AgentJob(n) ==> r.runId == AgentJob(n))
  }

  lemma RunsShown(row: Row, n: nat, added: nat, runs: seq<Rec>)
    requires Good(runs)
    ensures ResultShown(row, n, added, runs, FinalizedRuns(runs, AgentJob(n), RowVerdict(row, added)))
  {
    var v := RowVerdict(row, added);
    VerdictEnds(row, added);
    hide FinalizedRuns, RowVerdict, Told, Good;
    FinalizedRecord(runs, AgentJob(n), v);
    forall r ensures Told(row, added, r, Flipped(r, v)) {
      VerdictTold(row, added, r);
    }
    var after := FinalizedRuns(runs, AgentJob(n), v);
    forall q | q in after && !(q in runs && q.runId != AgentJob(n)) ensures ToldFrom(row, n, added, runs, q) {
      var r :| r in runs && Addressed(runs, AgentJob(n), r) && q == Flipped(r, v) && (q.runId == AgentJob(n) ==> r.runId == AgentJob(n));
    }
  }

  /** In every sound registry an ingested result shows in the record of its run: succeeded, with
      the number of jobs that it added, exactly when the row is done with a list of at most a
      hundred finds; incomplete exactly when it is done without; failed with the row's error
      otherwise. Nothing else changes but, where that record is gone, a running one of the
      source, and jobs are added only by a list that was accepted. */
  lemma IngestShows(w: World, s: State, n: nat, i: nat)
    requires Inv(w, s) && n in s.rows && i < |s.sources| && s.rows[n].source == Some(s.sources[i].id)
    ensures var t := Ingested(w, s, n);
            && |t.sources| == |s.sources| && (forall k :: 0 <= k < |s.sources| && k != i ==> t.sources[k] == s.sources[k])
            && s.jobs <= t.jobs && (t.jobs == s.jobs || Reported(s.rows[n]))
            && t.sources[i] == s.sources[i].(runs := t.sources[i].runs)
            && ResultShown(s.rows[n], n, |t.jobs| - |s.jobs|, s.sources[i].runs, t.sources[i].runs)
  {
    hide *;
    InvParts(w, s);
    SourceSound(s, i);
    var row := s.rows[n];
    IngestedSplits(w, s, n);
    var added := |JobsAfter(w, s.jobs, row)| - |s.jobs|;
    NoJobsWithoutList(w, s.jobs, row);
    RunsShown(row, n, added, s.sources[i].runs);
    FinalizedAt(s.sources, i, AgentJob(n), RowVerdict(row, added));
  }

  lemma SourceSound(s: State, i: nat)
    requires SourcesOk(s.sources, s.rows, s.serial) && i < |s.sources|
    ensures DistinctSources(s.sources) && Good(s.sources[i].runs) && s.sources[i].id != ""
    ensures Linked(s.sources[i], s.rows, s.serial)
  {
    assert s.sources[i] in s.sources;
  }

  lemma IngestedSplits(w: World, s: State, n: nat)
    requires n in s.rows && s.rows[n].source.Some? && s.rows[n].source.value != ""
    ensures var row := s.rows[n];
            var t := Ingested(w, s, n);
            s.jobs <= t.jobs && t.jobs == JobsAfter(w, s.jobs, row) && t.rows == s.rows && t.serial == s.serial &&
            t.sources == Finalized(s.sources, row.source.value, AgentJob(n), RowVerdict(row, |t.jobs| - |s.jobs|))
  {
    hide JobsAfter, RowVerdict, Finalized;
  }

  lemma NoJobsWithoutList(w: World, jobs: seq<JobRow>, row: Row)
    ensures JobsAfter(w, jobs, row) == jobs || Reported(row)
    ensures jobs <= JobsAfter(w, jobs, row)
  {
    hide FileFinds, CleanFinds;
  }

  lemma FinalizedAt(sources: seq<Source>, i: nat, id: RunId, v: Verdict)
    requires DistinctSources(sources) && i < |sources|
    ensures var t := Finalized(sources, sources[i].id, id, v);
            |t| == |sources| && t[i] == sources[i].(runs := FinalizedRuns(sources[i].runs, id, v)) &&
            forall k :: 0 <= k < |sources| && k != i ==> t[k] == sources[k]
  {
    SourceFound(sources, i);
    hide FinalizedRuns;
  }

  // ---- the sweeps --------------------------------------------------------------------------------------

  ghost predicate ToldBy(row: Row, r: Rec, q: Rec) {
    exists added :: Told(row, added, r, q)
  }

  lemma ToldTwice(row: Row, r: Rec, q: Rec, p: Rec)
    requires ToldBy(row, r, q) && ToldBy(row, q, p)
    ensures ToldBy(row, r, p) && q.outcome != InProgress
  {
    var a :| Told(row, a, r, q);
    var b :| Told(row, b, q, p);
    assert Told(row, b, r, p);
  }

  lemma Elsewhere(w: World, s: State, n: nat, i: nat)
    requires Inv(w, s) && n in s.rows && i < |s.sources| && s.rows[n].source != Some(s.sources[i].id)
    ensures |Ingested(w, s, n).sources| == |s.sources| && Ingested(w, s, n).sources[i] == s.sources[i]
  {
    hide FinalizedRuns, RowVerdict, JobsAfter;
  }

  /** Whatever of the listed jobs is done and belongs to this source, it is job m, and no other
      record of the source is running. */
  predicate Focus(src: Source, rows: map<nat, Row>, stale: seq<nat>, m: nat) {
    forall n :: n in stale && IsDone(rows, n) && rows[n].source == Some(src.id) ==>
      n == m && forall r :: r in src.runs && r.outcome == InProgress ==> r.runId == AgentJob(m)
  }

  ghost predicate KeptOrTold(rows: map<nat, Row>, m: nat, before: seq<Rec>, q: Rec) {
    exists r :: r in before && (q == r || (r.runId == AgentJob(m) && IsDone(rows, m) && ToldBy(rows[m], r, q)))
  }

  lemma {:induction false} EachShown(w: World, s: State, stale: seq<nat>, i: nat, m: nat)
    requires Inv(w, s) && i < |s.sources| && Focus(s.sources[i], s.rows, stale, m)
    ensures var t := IngestedEach(w, s, stale);
            |t.sources| == |s.sources| && t.sources[i].id == s.sources[i].id && t.rows == s.rows &&
            forall q :: q in t.sources[i].runs ==> KeptOrTold(s.rows, m, s.sources[i].runs, q)
    decreases |stale|
  {
    hide Inv, Ingested, ToldBy, Told;
    if stale != [] {
      var t := if IsDone(s.rows, stale[0]) then Ingested(w, s, stale[0]) else s;
      StepShown(w, s, stale, i, m);
      EachShown(w, t, stale[1..], i, m);
      hide IngestedEach, Focus;
      forall q | q in IngestedEach(w, t, stale[1..]).sources[i].runs ensures KeptOrTold(s.rows, m, s.sources[i].runs, q) {
        var p :| p in t.sources[i].runs && (q == p || (p.runId == AgentJob(m) && IsDone(s.rows, m) && ToldBy(s.rows[m], p, q)));
        assert KeptOrTold(s.rows, m, s.sources[i].runs, p);
        var r :| r in s.sources[i].runs && (p == r || (r.runId == AgentJob(m) && IsDone(s.rows, m) && ToldBy(s.rows[m], r, p)));
        if p != r && q != p {
          ToldTwice(s.rows[m], r, p, q);
        }
      }
      EachUnfolds(w, s, stale);
    }
  }

  lemma EachUnfolds(w: World, s: State, stale: seq<nat>)
    requires stale != []
    ensures IngestedEach(w, s, stale) ==
            IngestedEach(w, if IsDone(s.rows, stale[0]) then Ingested(w, s, stale[0]) else s, stale[1..])
  {
    hide Ingested;
  }

  lemma StepShown(w: World, s: State, stale: seq<nat>, i: nat, m: nat)
    requires Inv(w, s) && i < |s.sources| && stale != [] && Focus(s.sources[i], s.rows, stale, m)
    ensures var t := if IsDone(s.rows, stale[0]) then Ingested(w, s, stale[0]) else s;
            Inv(w, t) && |t.sources| == |s.sources| && t.sources[i].id == s.sources[i].id && t.rows == s.rows &&
            Focus(t.sources[i], s.rows, stale[1..], m) &&
            forall q :: q in t.sources[i].runs ==> KeptOrTold(s.rows, m, s.sources[i].runs, q)
  {
    hide Inv, Ingested, Told;
    var n := stale[0];
    if IsDone(s.rows, n) {
      var t := Ingested(w, s, n);
      IngestedOk(w, s, n);
      if s.rows[n].source == Some(s.sources[i].id) {
        IngestShows(w, s, n, i);
        forall q | q in t.sources[i].runs ensures KeptOrTold(s.rows, m, s.sources[i].runs, q) && (q.outcome == InProgress ==> q in s.sources[i].runs) {
          if !(q in s.sources[i].runs) {
            assert ToldFrom(s.rows[n], n, |t.jobs| - |s.jobs|, s.sources[i].runs, q);
            var r :| r in s.sources[i].runs && Addressed(s.sources[i].runs, AgentJob(n), r) && Told(s.rows[n], |t.jobs| - |s.jobs|, r, q);
            assert ToldBy(s.rows[m], r, q);
            ToldEnds(s.rows[m], |t.jobs| - |s.jobs|, r, q);
          }
        }
      } else {
        Elsewhere(w, s, n, i);
      }
    }
  }

  lemma ToldEnds(row: Row, added: int, r: Rec, q: Rec)
    requires Told(row, added, r, q)
    ensures q.outcome != InProgress && q.runId == r.runId
  {}

  /** A running record whose agent job broke, died or is gone: failed with the row's error, or
      incomplete where there is no row. */
  predicate ByBreak(rows: map<nat, Row>, r: Rec, q: Rec) {
    && r.outcome == InProgress && r.runId.AgentJob?
    && var n := r.runId.n;
       if n !in rows then q == r.(outcome := Incomplete, errorReason := Some("agent job record vanished"))
       else if rows[n].phase == Dead then
         q == r.(outcome := Failed, errorReason := Some(Reason(rows[n], "runner lease expired (laptop offline?)")))
       else rows[n].phase == Broken && q == r.(outcome := Failed, errorReason := Some(Reason(rows[n], "runner failed")))
  }

  predicate KeptOrBroken(rows: map<nat, Row>, before: seq<Rec>, q: Rec) {
    exists r :: r in before && (q == r || ByBreak(rows, r, q))
  }

  predicate NonePending(rows: map<nat, Row>, stale: seq<nat>) {
    forall n :: n in stale ==> !(n in rows && rows[n].phase == Pending)
  }

  lemma FlipShown(runs: seq<Rec>, rows: map<nat, Row>, n: nat, q: Rec)
    requires !IsDone(rows, n) && !(n in rows && rows[n].phase == Pending)
    requires q in FlippedRuns(runs, AgentJob(n), BrokenVerdict(rows, n))
    ensures KeptOrBroken(rows, runs, q)
  {
    var i := RunningRecordAt(runs, AgentJob(n));
    if i < |runs| {
      assert runs[i] in runs;
      var v := BrokenVerdict(rows, n);
      assert q == runs[i].(outcome := v.outcome, errorReason := v.errorReason) || q in runs;
    }
  }

  lemma {:induction false} FlipsShown(sources: seq<Source>, rows: map<nat, Row>, stale: seq<nat>, i: nat)
    requires i < |sources| && NonePending(rows, stale)
    ensures var t := FlippedEach(sources, rows, stale);
            |t| == |sources| && t[i].id == sources[i].id && forall q :: q in t[i].runs ==> KeptOrBroken(rows, sources[i].runs, q)
    decreases |stale|
  {
    hide FlippedRuns, BrokenVerdict;
    if stale != [] {
      var n := stale[0];
      var next := if IsDone(rows, n) then sources else FlippedSources(sources, AgentJob(n), BrokenVerdict(rows, n));
      FlipsShown(next, rows, stale[1..], i);
      hide FlippedSources;
      forall q | q in FlippedEach(next, rows, stale[1..])[i].runs ensures KeptOrBroken(rows, sources[i].runs, q) {
        var p :| p in next[i].runs && (q == p || ByBreak(rows, p, q));
        if !IsDone(rows, n) {
          FlipShown(sources[i].runs, rows, n, p);
        }
      }
    }
  }

  lemma {:induction false} StaleOfFrom(runs: seq<Rec>, rows: map<nat, Row>)
    ensures forall n :: n in StaleOf(runs, rows) ==> exists r :: r in runs && IsStale(r, rows) && r.runId == AgentJob(n)
  {
    if runs != [] {
      StaleOfFrom(runs[1..], rows);
      assert runs == [runs[0]] + runs[1..];
    }
  }

  ghost predicate StaleIn(sources: seq<Source>, rows: map<nat, Row>, n: nat) {
    exists i, r :: 0 <= i < |sources| && r in sources[i].runs && IsStale(r, rows) && r.runId == AgentJob(n)
  }

  lemma {:induction false} StaleFrom(sources: seq<Source>, rows: map<nat, Row>)
    ensures forall n :: n in Stale(sources, rows) ==> StaleIn(sources, rows, n)
  {
    hide StaleOf, IsStale;
    if sources != [] {
      StaleOfFrom(sources[0].runs, rows);
      StaleFrom(sources[1..], rows);
      forall n | n in Stale(sources, rows) ensures StaleIn(sources, rows, n) {
        if n in Stale(sources[1..], rows) {
          var i, r :| 0 <= i < |sources| - 1 && r in sources[1..][i].runs && IsStale(r, rows) && r.runId == AgentJob(n);
          assert r in sources[i + 1].runs;
        } else {
          assert n in StaleOf(sources[0].runs, rows);
        }
      }
    }
  }

  lemma StaleNotPending(sources: seq<Source>, rows: map<nat, Row>)
    ensures NonePending(rows, Stale(sources, rows))
  {
    StaleFrom(sources, rows);
    hide Stale;
  }

  /** The job of the running record, or a number that no record has. */
  function RunningJob(runs: seq<Rec>, serial: nat): nat {
    var i := RunningAt(runs);
    if i < |runs| && runs[i].runId.AgentJob? then runs[i].runId.n else serial
  }

  lemma OneRunningRecord(runs: seq<Rec>, r: Rec)
    requires OneRunning(runs) && r in runs && r.outcome == InProgress
    ensures RunningAt(runs) < |runs| && runs[RunningAt(runs)] == r
  {
    var k :| 0 <= k < |runs| && runs[k] == r;
  }

  lemma StaleFocus(s: State, i: nat)
    requires SourcesOk(s.sources, s.rows, s.serial) && i < |s.sources|
    ensures Focus(s.sources[i], s.rows, Stale(s.sources, s.rows), RunningJob(s.sources[i].runs, s.serial))
  {
    var src, stale := s.sources[i], Stale(s.sources, s.rows);
    StaleFrom(s.sources, s.rows);
    SourceSound(s, i);
    hide Stale, SourcesOk;
    forall n | n in stale && IsDone(s.rows, n) && s.rows[n].source == Some(src.id)
      ensures n == RunningJob(src.runs, s.serial) && forall r :: r in src.runs && r.outcome == InProgress ==> r.runId == AgentJob(n)
    {
      var k, x :| 0 <= k < |s.sources| && x in s.sources[k].runs && IsStale(x, s.rows) && x.runId == AgentJob(n);
      SourceSound(s, k);
      assert k == i;
      OneRunningRecord(src.runs, x);
      forall r | r in src.runs && r.outcome == InProgress ensures r.runId == AgentJob(n) {
        OneRunningRecord(src.runs, r);
      }
    }
  }

  /** A running record past half an hour, or without a start to count from. */
  predicate ByAge(now: int, r: Rec, q: Rec) {
    && r.outcome == InProgress
    && match r.startedMs
       case None => q == r.(outcome := Incomplete, errorReason := Some("stalled - no startedAt recorded"))
       case Some(t) => now - t >= 1_800_000 && q == r.(outcome := Incomplete, errorReason := Some("stalled; never reported back"))
  }

  lemma AgeShown(runs: seq<Rec>, now: int, q: Rec)
    requires q in AgedRuns(runs, now)
    ensures exists r :: r in runs && (q == r || ByAge(now, r, q))
  {
    var t := AgedRuns(runs, now);
    var k :| 0 <= k < |t| && t[k] == q;
    assert runs[k] in runs;
  }

  /** What a sweep may make of one record. */
  ghost predicate SweptTo(rows: map<nat, Row>, now: int, r: Rec, q: Rec) {
    || q == r
    || (r.outcome == InProgress && r.runId.AgentJob? && IsDone(rows, r.runId.n) && ToldBy(rows[r.runId.n], r, q))
    || ByBreak(rows, r, q)
    || ByAge(now, r, q)
  }

  ghost predicate SweptFrom(rows: map<nat, Row>, now: int, before: seq<Rec>, q: Rec) {
    exists r :: r in before && SweptTo(rows, now, r, q)
  }

  lemma ResultWasRunning(s: State, i: nat, r: Rec)
    requires SourcesOk(s.sources, s.rows, s.serial) && i < |s.sources| && r in s.sources[i].runs
    requires r.runId == AgentJob(RunningJob(s.sources[i].runs, s.serial))
    ensures r.outcome == InProgress
  {
    SourceSound(s, i);
    var k := RunningAt(s.sources[i].runs);
    if k < |s.sources[i].runs| && s.sources[i].runs[k].runId.AgentJob? {
      OneOfId(s.sources[i].runs, k, r);
    }
  }

  /** A sweep leaves finished records as they are. A running one it leaves alone, or ends by the
      result or the failure of its agent job, or by its age. */
  lemma SweepShows(w: World, s: State, now: int, i: nat, q: Rec)
    requires Inv(w, s) && i < |s.sources| && i < |Swept(w, s, now).sources| && q in Swept(w, s, now).sources[i].runs
    ensures SweptFrom(s.rows, now, s.sources[i].runs, q)
    ensures |Swept(w, s, now).sources| == |s.sources| && Swept(w, s, now).sources[i].id == s.sources[i].id
  {
    InvParts(w, s);
    var stale, m := Stale(s.sources, s.rows), RunningJob(s.sources[i].runs, s.serial);
    StaleFocus(s, i);
    StaleNotPending(s.sources, s.rows);
    EachShown(w, s, stale, i, m);
    var t1 := IngestedEach(w, s, stale);
    FlipsShown(t1.sources, s.rows, stale, i);
    var t2 := FlippedEach(t1.sources, s.rows, stale);
    SweptIs(w, s, now, i);
    hide *;
    AgeShown(t2[i].runs, now, q);
    var p2 :| p2 in t2[i].runs && (q == p2 || ByAge(now, p2, q));
    ThreeSteps(s, i, m, t1.sources[i].runs, p2, now, q);
  }

  lemma SweptIs(w: World, s: State, now: int, i: nat)
    requires i < |s.sources|
    ensures var stale := Stale(s.sources, s.rows);
            var t2 := FlippedEach(IngestedEach(w, s, stale).sources, s.rows, stale);
            |Swept(w, s, now).sources| == |t2| &&
            (i < |t2| ==> Swept(w, s, now).sources[i].id == t2[i].id && Swept(w, s, now).sources[i].runs == AgedRuns(t2[i].runs, now))
  {
    hide Stale, IngestedEach, FlippedEach;
  }

  lemma ThreeSteps(s: State, i: nat, m: nat, mid: seq<Rec>, p2: Rec, now: int, q: Rec)
    requires SourcesOk(s.sources, s.rows, s.serial) && i < |s.sources| && m == RunningJob(s.sources[i].runs, s.serial)
    requires forall x :: x in mid ==> KeptOrTold(s.rows, m, s.sources[i].runs, x)
    requires KeptOrBroken(s.rows, mid, p2) && (q == p2 || ByAge(now, p2, q))
    ensures SweptFrom(s.rows, now, s.sources[i].runs, q)
  {
    hide *;
    var p1 := BeforeBreak(s.rows, mid, p2);
    assert KeptOrTold(s.rows, m, s.sources[i].runs, p1);
    var r := BeforeTold(s.rows, m, s.sources[i].runs, p1);
    if p1 != r {
      ResultWasRunning(s, i, r);
    }
    Combined(s.rows, m, now, r, p1, p2, q);
    FromIt(s.rows, now, s.sources[i].runs, r, q);
  }

  lemma BeforeBreak(rows: map<nat, Row>, mid: seq<Rec>, p2: Rec) returns (p1: Rec)
    requires KeptOrBroken(rows, mid, p2)
    ensures p1 in mid && (p2 == p1 || ByBreak(rows, p1, p2))
  {
    hide ByBreak;
    p1 :| p1 in mid && (p2 == p1 || ByBreak(rows, p1, p2));
  }

  lemma BeforeTold(rows: map<nat, Row>, m: nat, before: seq<Rec>, p1: Rec) returns (r: Rec)
    requires KeptOrTold(rows, m, before, p1)
    ensures r in before && (p1 == r || (r.runId == AgentJob(m) && IsDone(rows, m) && ToldBy(rows[m], r, p1)))
  {
    hide ToldBy;
    r :| r in before && (p1 == r || (r.runId == AgentJob(m) && IsDone(rows, m) && ToldBy(rows[m], r, p1)));
  }

  lemma Combined(rows: map<nat, Row>, m: nat, now: int, r: Rec, p1: Rec, p2: Rec, q: Rec)
    requires p1 == r || (r.outcome == InProgress && r.runId == AgentJob(m) && IsDone(rows, m) && ToldBy(rows[m], r, p1))
    requires (p2 == p1 || ByBreak(rows, p1, p2)) && (q == p2 || ByAge(now, p2, q))
    ensures SweptTo(rows, now, r, q)
  {
    hide Told;
    if p1 != r {
      var a :| Told(rows[m], a, r, p1);
      ToldEnds(rows[m], a, r, p1);
    }
  }

  lemma FromIt(rows: map<nat, Row>, now: int, before: seq<Rec>, r: Rec, q: Rec)
    requires r in before && SweptTo(rows, now, r, q)
    ensures SweptFrom(rows, now, before, q)
  {
    hide SweptTo;
  }

  // ---- every event ---------------------------------------------------------------------------------------

  /** What one event may make of a record of the i-th source. */
  ghost predicate Moved(s: State, e: Event, i: nat, r: Rec, q: Rec)
    requires i < |s.sources|
  {
    var src := s.sources[i];
    match e
    case Launch(_, _, now) => SweptTo(s.rows, now, r, q)
    case Sweep(now) => SweptTo(s.rows, now, r, q)
    case ResultArrives(n) =>
      q == r || (n in s.rows && s.rows[n].source == Some(src.id) && Addressed(src.runs, AgentJob(n), r) && ToldBy(s.rows[n], r, q))
    case LocalRunEnds(source, run, outcome) =>
      q == r || (source == src.id && outcome != InProgress && Addressed(src.runs, Local(run), r) && q == r.(outcome := outcome))
    case _ => q == r
  }

  /** The record of a launch: running, or failed at once where the process did not come up. */
  predicate AsLaunched(s: State, e: Event, i: nat, q: Rec)
    requires i < |s.sources|
  {
    && e.Launch? && e.source == s.sources[i].id
    && q.runId == (if e.mode == ToRunner then AgentJob(s.serial) else Local(s.serial))
    && q.startKey == e.now && q.startedMs == Some(e.now) && q.leadsNew == None
    && (if e.mode == Here(false) then q.outcome == Failed && q.errorReason == Some("failed to launch")
        else q.outcome == InProgress && q.errorReason == None)
  }

  ghost predicate Explained(s: State, e: Event, i: nat, q: Rec)
    requires i < |s.sources|
  {
    AsLaunched(s, e, i, q) || exists r :: r in s.sources[i].runs && Moved(s, e, i, r, q)
  }

  predicate SameSource(s: State, t: State, i: nat) {
    |t.sources| == |s.sources| && (i < |s.sources| ==> t.sources[i].id == s.sources[i].id)
  }

  lemma RecordedShows(w: World, s: State, e: Event, i: nat, q: Rec)
    requires Inv(w, s) && i < |s.sources| && e.Launch?
    ensures var t := Recorded(s, e.source, e.mode, e.now);
            SameSource(s, t, i) &&
            (q in t.sources[i].runs ==> q in s.sources[i].runs || AsLaunched(s, e, i, q))
  {
    var answer := LaunchAnswer(s, e.source, e.mode);
    if answer.Launched? {
      InvParts(w, s);
      SourceSound(s, i);
      var k := SourceAt(s.sources, e.source);
      SourceSound(s, k);
      var rec := NewRecord(answer.id, e.mode, e.now);
      NewRunGood(s.sources[k].runs, rec);
      hide CapRuns, RunningAt;
      CapKeepsFew(s.sources[k].runs + [rec]);
      hide Inv, Good, Linked, DistinctSources;
    }
  }

  lemma LaunchShows(w: World, s: State, e: Event, i: nat, q: Rec)
    requires Inv(w, s) && i < |s.sources| && e.Launch?
    ensures SameSource(s, Next(w, s, e), i)
    ensures q in Next(w, s, e).sources[i].runs ==> Explained(s, e, i, q)
  {
    hide Inv, Swept, Recorded, SweptTo;
    var t := Swept(w, s, e.now);
    SweptOk(w, s, e.now);
    SweptSources(w, s, e.now, i);
    RecordedShows(w, t, e, i, q);
    SweptSerial(w, s, e.now);
    if q in t.sources[i].runs {
      SweepShows(w, s, e.now, i, q);
    }
  }

  lemma SweptSources(w: World, s: State, now: int, i: nat)
    requires Inv(w, s) && i < |s.sources|
    ensures SameSource(s, Swept(w, s, now), i)
  {
    InvParts(w, s);
    var stale, m := Stale(s.sources, s.rows), RunningJob(s.sources[i].runs, s.serial);
    StaleFocus(s, i);
    StaleNotPending(s.sources, s.rows);
    EachShown(w, s, stale, i, m);
    FlipsShown(IngestedEach(w, s, stale).sources, s.rows, stale, i);
    SweptIs(w, s, now, i);
  }

  lemma {:induction false} EachSerial(w: World, s: State, stale: seq<nat>)
    ensures IngestedEach(w, s, stale).serial == s.serial && IngestedEach(w, s, stale).rows == s.rows
    decreases |stale|
  {
    hide Ingested;
    if stale != [] {
      IngestedRows(w, s, stale[0]);
      EachSerial(w, if IsDone(s.rows, stale[0]) then Ingested(w, s, stale[0]) else s, stale[1..]);
    }
  }

  lemma SweptSerial(w: World, s: State, now: int)
    ensures Swept(w, s, now).serial == s.serial
  {
    hide IngestedEach, Stale, FlippedEach;
    EachSerial(w, s, Stale(s.sources, s.rows));
  }

  lemma ResultMoved(s: State, n: nat, i: nat, added: int, q: Rec)
    requires i < |s.sources| && n in s.rows && s.rows[n].source == Some(s.sources[i].id)
    requires q in s.sources[i].runs || ToldFrom(s.rows[n], n, added, s.sources[i].runs, q)
    ensures Explained(s, ResultArrives(n), i, q)
  {
    hide Told, Addressed;
    if !(q in s.sources[i].runs) {
      var r :| r in s.sources[i].runs && Addressed(s.sources[i].runs, AgentJob(n), r) && Told(s.rows[n], added, r, q);
      assert ToldBy(s.rows[n], r, q);
      assert Moved(s, ResultArrives(n), i, r, q);
    }
  }

  lemma ResultShows(w: World, s: State, n: nat, i: nat, q: Rec)
    requires Inv(w, s) && i < |s.sources|
    ensures SameSource(s, Ingested(w, s, n), i)
    ensures q in Ingested(w, s, n).sources[i].runs ==> Explained(s, ResultArrives(n), i, q)
  {
    hide Inv, Told, ToldFrom, Explained;
    if n in s.rows && s.rows[n].source == Some(s.sources[i].id) {
      IngestShows(w, s, n, i);
      var t := Ingested(w, s, n);
      hide Ingested;
      if q in t.sources[i].runs {
        ResultMoved(s, n, i, |t.jobs| - |s.jobs|, q);
      }
    } else if n in s.rows {
      Elsewhere(w, s, n, i);
      if q in s.sources[i].runs {
        KeptExplained(s, ResultArrives(n), i, q);
      }
    } else if q in s.sources[i].runs {
      KeptExplained(s, ResultArrives(n), i, q);
    }
  }

  lemma KeptExplained(s: State, e: Event, i: nat, q: Rec)
    requires i < |s.sources| && q in s.sources[i].runs && (e.ResultArrives? || e.LocalRunEnds?)
    ensures Explained(s, e, i, q)
  {
    assert Moved(s, e, i, q, q);
  }

  lemma LocalShows(w: World, s: State, e: Event, i: nat, q: Rec)
    requires Inv(w, s) && i < |s.sources| && e.LocalRunEnds?
    ensures SameSource(s, Next(w, s, e), i)
    ensures q in Next(w, s, e).sources[i].runs ==> Explained(s, e, i, q)
  {
    if e.outcome != InProgress {
      InvParts(w, s);
      SourceSound(s, i);
      var v := Verdict(e.outcome, None, None);
      hide Inv, FinalizedRuns, Good, Linked;
      if e.source == s.sources[i].id {
        FinalizedAt(s.sources, i, Local(e.run), v);
        FinalizedRecord(s.sources[i].runs, Local(e.run), v);
        if q in Next(w, s, e).sources[i].runs && !(q in s.sources[i].runs) {
          assert FlippedFrom(s.sources[i].runs, Local(e.run), v, q);
          var r :| r in s.sources[i].runs && Addressed(s.sources[i].runs, Local(e.run), r) && q == Flipped(r, v);
          assert Moved(s, e, i, r, q);
        }
      }
    }
  }

  /** What one event may make of the records of a source, in any sound registry. */
  lemma EventShows(w: World, s: State, e: Event, i: nat, q: Rec)
    requires Inv(w, s) && i < |s.sources|
    ensures SameSource(s, Next(w, s, e), i)
    ensures q in Next(w, s, e).sources[i].runs ==> Explained(s, e, i, q)
  {
    match e {
      case Launch(_, _, _) => LaunchShows(w, s, e, i, q);
      case Sweep(now) =>
        hide Inv, Swept, SweptTo;
        SweptSources(w, s, now, i);
        if q in Swept(w, s, now).sources[i].runs {
          SweepShows(w, s, now, i, q);
        }
      case ResultArrives(n) =>
        hide Inv, Ingested, Told;
        ResultShows(w, s, n, i, q);
      case LocalRunEnds(_, _, _) => LocalShows(w, s, e, i, q);
      case _ =>
        hide Inv, Filed;
        assert Next(w, s, e).sources == s.sources;
    }
  }

  // ---- histories --------------------------------------------------------------------------------------------

  predicate OutcomeTold(row: Row, outcome: Outcome) {
    match outcome
    case Succeeded => Reported(row)
    case Incomplete => row.phase == Done && !Reported(row)
    case Failed => row.phase != Done
    case InProgress => false
  }

  /** A sweep at this time could end the run so. */
  predicate EndedBySweep(rows: map<nat, Row>, now: int, q: Rec) {
    || (q.runId.AgentJob? && q.runId.n in rows && rows[q.runId.n].phase != Pending && OutcomeTold(rows[q.runId.n], q.outcome))
    || (q.runId.AgentJob? && q.runId.n !in rows && q.outcome == Incomplete)
    || (q.outcome == Incomplete && (q.startedMs.None? || now - q.startedMs.value >= 1_800_000))
  }

  /** The event, in that state, could end the run so. */
  predicate EndedBy(s: State, e: Event, i: nat, q: Rec) {
    i < |s.sources| &&
    var src := s.sources[i];
    match e
    case Launch(source, mode, now) =>
      (source == src.id && mode == Here(false) && q.outcome == Failed) || EndedBySweep(s.rows, now, q)
    case Sweep(now) => EndedBySweep(s.rows, now, q)
    case ResultArrives(n) =>
      n in s.rows && s.rows[n].source == Some(src.id) && OutcomeTold(s.rows[n], q.outcome) &&
      (q.runId == AgentJob(n) || !Has(src.runs, AgentJob(n)))
    case LocalRunEnds(source, run, outcome) =>
      source == src.id && q.outcome == outcome && (q.runId == Local(run) || !Has(src.runs, Local(run)))
    case _ => false
  }

  ghost predicate Earned(w: World, s0: State, events: seq<Event>, i: nat, q: Rec)
    requires i < |s0.sources|
  {
    || q.outcome == InProgress
    || (exists r :: r in s0.sources[i].runs && r.runId == q.runId && r.outcome == q.outcome)
    || exists k :: 0 <= k < |events| && EndedBy(After(w, s0, events[..k]), events[k], i, q)
  }

  lemma ToldOutcome(row: Row, r: Rec, q: Rec)
    requires ToldBy(row, r, q)
    ensures OutcomeTold(row, q.outcome) && q.runId == r.runId && q.startedMs == r.startedMs
  {}

  lemma SweptEnds(rows: map<nat, Row>, now: int, r: Rec, q: Rec)
    requires SweptTo(rows, now, r, q)
    ensures q.runId == r.runId && q.startedMs == r.startedMs && (q.outcome == r.outcome || EndedBySweep(rows, now, q))
  {
    hide Told;
    if q != r && r.runId.AgentJob? && IsDone(rows, r.runId.n) && ToldBy(rows[r.runId.n], r, q) {
      ToldOutcome(rows[r.runId.n], r, q);
    }
  }

  lemma MovedEnds(s: State, e: Event, i: nat, r: Rec, q: Rec)
    requires i < |s.sources| && Moved(s, e, i, r, q)
    ensures q.runId == r.runId && q.startedMs == r.startedMs && (q.outcome == r.outcome || EndedBy(s, e, i, q))
  {
    hide SweptTo, EndedBySweep, Told, ToldBy, OutcomeTold;
    match e {
      case Launch(_, _, now) => SweptEnds(s.rows, now, r, q);
      case Sweep(now) => SweptEnds(s.rows, now, r, q);
      case ResultArrives(n) =>
        if q != r {
          ToldOutcome(s.rows[n], r, q);
        }
      case _ =>
    }
  }

  lemma EarnedLater(w: World, s0: State, past: seq<Event>, e: Event, i: nat, r: Rec, q: Rec)
    requires i < |s0.sources| && q.runId == r.runId && q.startedMs == r.startedMs
    requires (Earned(w, s0, past, i, r) && q.outcome == r.outcome) || EndedBy(After(w, s0, past), e, i, q)
    ensures Earned(w, s0, past + [e], i, q)
  {
    hide After, EndedBySweep;
    var events := past + [e];
    assert events[..|past|] == past;
    if !EndedBy(After(w, s0, past), e, i, q) && q.outcome != InProgress &&
       !(exists x :: x in s0.sources[i].runs && x.runId == r.runId && x.outcome == r.outcome) {
      var k :| 0 <= k < |past| && EndedBy(After(w, s0, past[..k]), past[k], i, r);
      assert events[..k] == past[..k];
      EndedAlike(After(w, s0, past[..k]), past[k], i, r, q);
    }
  }

  lemma EndedAlike(s: State, e: Event, i: nat, r: Rec, q: Rec)
    requires EndedBy(s, e, i, r) && q.runId == r.runId && q.startedMs == r.startedMs && q.outcome == r.outcome
    ensures EndedBy(s, e, i, q)
  {}

  lemma {:induction false} SourcesStay(w: World, s0: State, events: seq<Event>, i: nat)
    requires Inv(w, s0) && i < |s0.sources|
    ensures SameSource(s0, After(w, s0, events), i)
    decreases |events|
  {
    if events != [] {
      var past, e := events[..|events| - 1], events[|events| - 1];
      SourcesStay(w, s0, past, i);
      AfterOk(w, s0, past);
      hide Inv, Next;
      EventShows(w, After(w, s0, past), e, i, Rec(Local(0), 0, None, InProgress, None, None));
    }
  }

  /** Over every history from a sound registry, an outcome is earned: a run has succeeded only by
      a row of its source that was done with a list of at most a hundred finds, or by its own end
      on this machine; incomplete only by a row that was done without one, a row that was gone,
      its age, or its own end; failed only by a row that was not done, a launch that did not come
      up, or its own end. The row is that of the run, unless the record of the row's run was gone. */
  lemma {:induction false} OutcomesAreEarned(w: World, s0: State, events: seq<Event>, i: nat, q: Rec)
    requires Inv(w, s0) && i < |s0.sources| && i < |After(w, s0, events).sources|
    requires q in After(w, s0, events).sources[i].runs
    ensures Earned(w, s0, events, i, q)
    decreases |events|
  {
    AfterIs(w, s0, events);
    hide *;
    if events == [] {
      AtFirst(w, s0, i, q);
    } else {
      var past, e := events[..|events| - 1], events[|events| - 1];
      var s := After(w, s0, past);
      AfterOk(w, s0, past);
      SourcesStay(w, s0, past, i);
      StaySame(s0, s, i);
      EventShows(w, s, e, i, q);
      if AsLaunched(s, e, i, q) {
        LaunchEarned(w, s0, past, e, i, q);
      } else {
        var r := Ancestor(s, e, i, q);
        OutcomesAreEarned(w, s0, past, i, r);
        MovedEnds(s, e, i, r, q);
        EarnedLater(w, s0, past, e, i, r, q);
      }
    }
  }

  lemma AfterIs(w: World, s0: State, events: seq<Event>)
    ensures events == [] ==> After(w, s0, events) == s0
    ensures events != [] ==>
              var (past, e) := (events[..|events| - 1], events[|events| - 1]);
              events == past + [e] && After(w, s0, events) == Next(w, After(w, s0, past), e)
  {
    hide Next;
  }

  lemma AtFirst(w: World, s0: State, i: nat, q: Rec)
    requires i < |s0.sources| && q in s0.sources[i].runs
    ensures Earned(w, s0, [], i, q)
  {}

  lemma StaySame(s0: State, s: State, i: nat)
    requires SameSource(s0, s, i) && i < |s0.sources|
    ensures i < |s.sources|
  {}

  lemma Ancestor(s: State, e: Event, i: nat, q: Rec) returns (r: Rec)
    requires i < |s.sources| && Explained(s, e, i, q) && !AsLaunched(s, e, i, q)
    ensures r in s.sources[i].runs && Moved(s, e, i, r, q)
  {
    hide Moved, AsLaunched;
    r :| r in s.sources[i].runs && Moved(s, e, i, r, q);
  }

  lemma LaunchEarned(w: World, s0: State, past: seq<Event>, e: Event, i: nat, q: Rec)
    requires i < |s0.sources| && i < |After(w, s0, past).sources| && AsLaunched(After(w, s0, past), e, i, q)
    ensures Earned(w, s0, past + [e], i, q)
  {
    hide After;
    assert (past + [e])[..|past|] == past;
  }

  // ---- launches and filed jobs ------------------------------------------------------------------------------

  ghost predicate IsRunning(s: State, sourceId: string) {
    exists i, r :: 0 <= i < |s.sources| && s.sources[i].id == sourceId && r in s.sources[i].runs && r.outcome == InProgress
  }

  ghost predicate Known(s: State, sourceId: string) {
    exists i :: 0 <= i < |s.sources| && s.sources[i].id == sourceId
  }

  lemma RunningFound(runs: seq<Rec>)
    ensures RunningAt(runs) < |runs| <==> exists r :: r in runs && r.outcome == InProgress
  {
    if RunningAt(runs) == |runs| {
      assert forall r :: r in runs ==> r.outcome != InProgress;
    } else {
      assert runs[RunningAt(runs)] in runs;
    }
  }

  /** A launch is answered by the first of these that applies: an unknown source, one with a
      running record, a gate; otherwise it goes ahead under a new id, leaves its time at the
      source, and hands a runner launch to a pending row of that source. */
  lemma LaunchExactly(w: World, s: State, sourceId: string, mode: Mode, now: int)
    requires Inv(w, s)
    ensures var a := LaunchAnswer(s, sourceId, mode);
            var t := Recorded(s, sourceId, mode, now);
            && (a == NotFound <==> !Known(s, sourceId))
            && (a == AlreadyRunning <==> IsRunning(s, sourceId))
            && (a == RefusedByGate <==> Known(s, sourceId) && !IsRunning(s, sourceId) && mode == Gated)
            && (!a.Launched? ==> t == s)
            && (a.Launched? ==> a.id == (if mode == ToRunner then AgentJob(s.serial) else Local(s.serial)) &&
                                (forall src :: src in t.sources && src.id == sourceId ==> src.lastRunAt == Some(now)) &&
                                (mode == ToRunner ==> t.rows == s.rows[s.serial := Row(Pending, Some(sourceId), None, None)]))
  {
    InvParts(w, s);
    var i := SourceAt(s.sources, sourceId);
    if i < |s.sources| {
      SourceSound(s, i);
      RunningFound(s.sources[i].runs);
    }
    hide Inv, SourcesOk, CapRuns, RunningAt;
  }

  /** A find as it is kept: trimmed, and cut at 300, 300 and 1000 characters. */
  function Neat(x: RawFind): Find {
    Find(Cut(Text.Trim(x.title), 300), Cut(Text.Trim(x.employer), 300), Cut(Text.Trim(x.link), 1000))
  }

  function Cut(s: string, cap: nat): string {
    s[..if |s| < cap then |s| else cap]
  }

  lemma CutIs(s: string, cap: nat)
    ensures Cut(Text.Trim(s), cap) == Clean(s, cap)
  {
    hide Text.Trim;
  }

  /** What one entry of a list comes to: a find or nothing. */
  function FindsOf(x: RawFind): seq<Find> {
    var f := Find(Clean(x.title, TITLE_MAX), Clean(x.employer, EMPLOYER_MAX), Clean(x.link, LINK_MAX));
    if f.title == "" || f.link == "" then [] else [f]
  }

  lemma FindsCons(raw: seq<RawFind>)
    requires raw != []
    ensures CleanFinds(raw) == FindsOf(raw[0]) + CleanFinds(raw[1..])
  {
    hide Clean;
  }

  lemma {:induction false} FindsConcat(raw: seq<RawFind>, more: seq<RawFind>)
    ensures CleanFinds(raw + more) == CleanFinds(raw) + CleanFinds(more)
  {
    hide Clean;
    if raw == [] {
      assert raw + more == more;
    } else {
      FindsConcat(raw[1..], more);
      assert (raw + more)[0] == raw[0] && (raw + more)[1..] == raw[1..] + more;
      FindsCons(raw);
      FindsCons(raw + more);
      hide CleanFinds;
      Seqs.Assoc(FindsOf(raw[0]), CleanFinds(raw[1..]), CleanFinds(more));
    }
  }

  /** Of the finds of a list those are taken, in their order, that have a title and a link. */
  lemma FindsExactly(raw: seq<RawFind>, more: seq<RawFind>, x: RawFind)
    ensures CleanFinds(raw + more) == CleanFinds(raw) + CleanFinds(more)
    ensures CleanFinds([x]) == if Neat(x).title == "" || Neat(x).link == "" then [] else [Neat(x)]
  {
    FindsConcat(raw, more);
    CutIs(x.title, 300);
    CutIs(x.employer, 300);
    CutIs(x.link, 1000);
    hide Text.Trim, Cut, Clean;
    assert [x][1..] == [] && CleanFinds([]) == [];
  }

  predicate FiledFrom(w: World, finds: seq<Find>, j: JobRow) {
    exists f :: f in finds && f.title != "" && f.employer != "" && w.usable(f) &&
                j == JobRow(f.link, Text.Trim(Squeezed(f.title + " - " + f.employer)), true)
  }

  /** Every job that a list adds is one of its finds, in the folder named by title and employer. */
  lemma {:induction false} FiledAre(w: World, jobs: seq<JobRow>, finds: seq<Find>)
    requires Keyed(w, finds)
    ensures forall j :: j in Filed(w, jobs, finds) ==> j in jobs || FiledFrom(w, finds, j)
    decreases |finds|
  {
    if finds != [] {
      FiledStep(w, jobs, finds);
      var f := finds[0];
      var more := if LinkKey(w, f.link) in KeysOf(w, jobs) || !Accepts(w, jobs, f) then jobs else jobs + [NewJob(f)];
      assert forall j :: j in more ==> j in jobs || FiledFrom(w, finds, j);
      hide FileFinds, KeysOf, Taken, FolderOf, LinkKey, Accepts;
      FiledAre(w, more, finds[1..]);
      forall j | j in Filed(w, jobs, finds) ensures j in jobs || FiledFrom(w, finds, j) {
        if j !in more {
          assert FiledFrom(w, finds[1..], j);
        }
      }
    }
  }

  /** The words of a text: its stretches without white space. */
  function WordsOf(s: string): (ws: seq<string>)
    ensures s != "" && !Text.IsSpace(s[0]) ==> ws != []
  {
    if s == "" then []
    else if Text.IsSpace(s[0]) then WordsOf(s[1..])
    else if |s| == 1 || Text.IsSpace(s[1]) then [[s[0]]] + WordsOf(s[1..])
    else
      var rest := WordsOf(s[1..]);
      [[s[0]] + rest[0]] + rest[1..]
  }

  function Allowed(s: string): string {
    if s == "" then "" else (if s[0] in {'\\', '/', ':', '*', '?', '"', '<', '>', '|'} then "" else [s[0]]) + Allowed(s[1..])
  }

  predicate Alike(t: string, a: string) {
    WordsOf(t) == WordsOf(a) && (t == "" <==> a == "") && (t != "" ==> (Text.IsSpace(t[0]) <==> Text.IsSpace(a[0])))
  }

  /** No white space but single spaces. */
  predicate SingleSpaced(t: string) {
    forall i :: 0 <= i < |t| && Text.IsSpace(t[i]) ==> t[i] == ' ' && (i > 0 ==> !Text.IsSpace(t[i - 1]))
  }

  lemma LetterFirst(c: char, t: string, a: string)
    requires !Text.IsSpace(c) && Alike(t, a) && SingleSpaced(t)
    ensures Alike([c] + t, [c] + a) && SingleSpaced([c] + t)
  {
    WordsCons(c, t);
    WordsCons(c, a);
    hide WordsOf;
  }

  lemma SpaceFirst(c: char, t: string, a: string)
    requires Text.IsSpace(c) && Alike(t, a) && SingleSpaced(t)
    ensures var u := if t != "" && t[0] == ' ' then t else " " + t; Alike(u, [c] + a) && SingleSpaced(u)
  {
    WordsCons(' ', t);
    WordsCons(c, a);
    hide WordsOf;
  }

  /** A folder name has the words of the text without the characters that a file name may not
      have, and nothing but single spaces between them. */
  lemma {:induction false} FolderWords(s: string)
    ensures Alike(Squeezed(s), Allowed(s)) && SingleSpaced(Squeezed(s))
  {
    if s != "" {
      hide Alike, SingleSpaced, Forbidden, Text.IsSpace;
      FolderWords(s[1..]);
      ForbiddenAre(s[0]);
      assert "" + Allowed(s[1..]) == Allowed(s[1..]);
      if !Forbidden(s[0]) {
        if Text.IsSpace(s[0]) {
          SpaceFirst(s[0], Squeezed(s[1..]), Allowed(s[1..]));
        } else {
          LetterFirst(s[0], Squeezed(s[1..]), Allowed(s[1..]));
        }
      }
    }
  }

  lemma WordsCons(c: char, rest: string)
    ensures WordsOf([c] + rest) ==
            if Text.IsSpace(c) then WordsOf(rest)
            else if rest == "" || Text.IsSpace(rest[0]) then [[c]] + WordsOf(rest)
            else [[c] + WordsOf(rest)[0]] + WordsOf(rest)[1..]
  {
    assert ([c] + rest)[1..] == rest;
  }

  lemma ForbiddenAre(c: char)
    ensures Forbidden(c) <==> c in {'\\', '/', ':', '*', '?', '"', '<', '>', '|'}
  {}
}
