/** What every history of launches, results, crashes and sweeps keeps of the source runs. */
module SourceRunHistory {
  import opened Options
  import opened SourceRuns
  import Seqs
  import Text = Frontmatter

  // ---- one source's records ------------------------------------------------------------------

  predicate UniqueIds(runs: seq<Rec>) {
    forall i, j :: 0 <= i < j < |runs| ==> runs[i].runId != runs[j].runId
  }

  predicate OneRunning(runs: seq<Rec>) {
    forall i, j :: 0 <= i < j < |runs| ==> !(runs[i].outcome == InProgress && runs[j].outcome == InProgress)
  }

  predicate Good(runs: seq<Rec>) {
    UniqueIds(runs) && OneRunning(runs)
  }

  lemma Permuted(runs: seq<Rec>, sorted: seq<Rec>)
    requires multiset(runs) == multiset(sorted) && Good(runs)
    ensures Good(sorted) && forall r :: r in sorted <==> r in runs
  {
    assert Seqs.Distinct(runs);
    Seqs.DistinctSorted(runs, sorted);
    forall r ensures r in sorted <==> r in runs {
      Seqs.SameElements(runs, sorted, r);
    }
    forall i, j | 0 <= i < j < |sorted|
      ensures sorted[i].runId != sorted[j].runId && !(sorted[i].outcome == InProgress && sorted[j].outcome == InProgress)
    {
      assert sorted[i] in runs && sorted[j] in runs;
    }
  }

  lemma Capped(runs: seq<Rec>)
    requires Good(runs)
    ensures Good(CapRuns(runs)) && forall r :: r in CapRuns(runs) ==> r in runs
  {
    var sorted := Seqs.SortBy(runs, StartOf);
    Permuted(runs, sorted);
    hide Seqs.SortBy;
  }

  /** How many records sort after this start. */
  function Later(runs: seq<Rec>, key: int): nat {
    if runs == [] then 0 else Later(runs[..|runs| - 1], key) + if runs[|runs| - 1].startKey > key then 1 else 0
  }

  lemma {:induction false} LaterInsert(s: seq<Rec>, x: Rec, key: int)
    ensures Later(Seqs.Insert(s, x, StartOf), key) == Later(s, key) + if x.startKey > key then 1 else 0
  {
    var start := StartOf;
    if s == [] || start(s[|s| - 1]) <= start(x) {
      assert (s + [x])[..|s|] == s;
    } else {
      LaterInsert(s[..|s| - 1], x, key);
      var t := Seqs.Insert(s[..|s| - 1], x, start);
      assert (t + [s[|s| - 1]])[..|t|] == t;
    }
  }

  lemma {:induction false} LaterSorted(runs: seq<Rec>, key: int)
    ensures Later(Seqs.SortBy(runs, StartOf), key) == Later(runs, key)
  {
    if runs != [] {
      LaterSorted(runs[..|runs| - 1], key);
      LaterInsert(Seqs.SortBy(runs[..|runs| - 1], StartOf), runs[|runs| - 1], key);
    }
  }

  lemma {:induction false} InsertedAt(s: seq<Rec>, x: Rec)
    requires Seqs.Sorted(s, StartOf)
    ensures Later(s, x.startKey) <= |s|
    ensures var p := |s| - Later(s, x.startKey);
            Seqs.Insert(s, x, StartOf) == s[..p] + [x] + s[p..]
  {
    if s == [] {
    } else if s[|s| - 1].startKey <= x.startKey {
      NoneLater(s, x.startKey);
    } else {
      var init := s[..|s| - 1];
      assert Seqs.Insert(s, x, StartOf) == Seqs.Insert(init, x, StartOf) + [s[|s| - 1]];
      assert Later(s, x.startKey) == Later(init, x.startKey) + 1;
      assert Seqs.Sorted(init, StartOf);
      hide *;
      InsertedAt(init, x);
      Seqs.InsertBeforeLast(s, x, |init| - Later(init, x.startKey));
    }
  }

  lemma {:induction false} NoneLater(s: seq<Rec>, key: int)
    requires forall r :: r in s ==> r.startKey <= key
    ensures Later(s, key) == 0
  {
    if s != [] {
      NoneLater(s[..|s| - 1], key);
    }
  }

  /** The record of a launch survives the cap exactly when fewer than twenty stored records
      sort after it; so it always does when the clock has not gone back. */
  lemma LaunchSurvives(runs: seq<Rec>, rec: Rec)
    requires rec !in runs
    ensures rec in CapRuns(runs + [rec]) <==> Later(runs, rec.startKey) < 20
    ensures (forall r :: r in runs ==> r.startKey <= rec.startKey) ==> rec in CapRuns(runs + [rec])
  {
    hide *;
    LimitPositive();
    CapIs(runs, rec);
    LaterSorted(runs, rec.startKey);
    SurvivesSorted(runs, Seqs.SortBy(runs, StartOf), rec);
    if forall r :: r in runs ==> r.startKey <= rec.startKey {
      NoneLater(runs, rec.startKey);
    }
  }

  lemma LimitPositive()
    ensures 0 < MAX_SOURCE_RUNS == 20
  {}

  lemma SurvivesSorted(runs: seq<Rec>, s: seq<Rec>, rec: Rec)
    requires multiset(s) == multiset(runs) && rec !in runs && Seqs.Sorted(s, StartOf)
    requires Later(s, rec.startKey) == Later(runs, rec.startKey)
    ensures rec in Newest(Seqs.Insert(s, rec, StartOf)) <==> Later(runs, rec.startKey) < MAX_SOURCE_RUNS
  {
    hide *;
    InsertedAt(s, rec);
    SurvivesAt(runs, s, rec, |s| - Later(s, rec.startKey), Seqs.Insert(s, rec, StartOf));
  }

  lemma CapIs(runs: seq<Rec>, rec: Rec)
    ensures var sorted := Seqs.SortBy(runs + [rec], StartOf);
            sorted == Seqs.Insert(Seqs.SortBy(runs, StartOf), rec, StartOf) &&
            CapRuns(runs + [rec]) == Newest(sorted)
  {
    assert (runs + [rec])[..|runs|] == runs;
    hide Seqs.Insert, Newest;
  }

  lemma SurvivesAt(runs: seq<Rec>, s: seq<Rec>, rec: Rec, p: nat, sorted: seq<Rec>)
    requires multiset(s) == multiset(runs) && rec !in runs && p <= |s| && sorted == s[..p] + [rec] + s[p..]
    ensures rec in Newest(sorted) <==> |s| - p < MAX_SOURCE_RUNS
  {
    Seqs.SameElements(s, runs, rec);
    var cut := if |sorted| > MAX_SOURCE_RUNS then |sorted| - MAX_SOURCE_RUNS else 0;
    var kept := sorted[cut..];
    if cut <= p {
      assert kept[p - cut] == rec;
    } else {
      forall k | 0 <= k < |kept| ensures kept[k] != rec {
        assert kept[k] == s[cut + k - 1];
      }
    }
  }

  // ---- flips ---------------------------------------------------------------------------------------

  /** No running record of this run is left. */
  predicate Quiet(sources: seq<Source>, id: RunId) {
    forall src, r :: src in sources && r in src.runs && r.runId == id ==> r.outcome != InProgress
  }

  predicate QuietRuns(runs: seq<Rec>, id: RunId) {
    forall r :: r in runs && r.runId == id ==> r.outcome != InProgress
  }

  lemma FlipRecord(runs: seq<Rec>, i: nat, r: Rec)
    requires Good(runs) && i < |runs| && r.runId == runs[i].runId && r.outcome != InProgress
    ensures Good(runs[i := r]) && QuietRuns(runs[i := r], r.runId)
    ensures forall id :: QuietRuns(runs, id) ==> QuietRuns(runs[i := r], id)
    ensures forall x :: x in runs[i := r] ==> x == r || x in runs
  {
    var t := runs[i := r];
    assert forall x :: x in t ==> x == r || x in runs;
    forall x | x in t && x.runId == r.runId ensures x.outcome != InProgress {
      var k :| 0 <= k < |t| && t[k] == x;
      assert k == i;
    }
  }

  lemma FinalizedRunsFlip(runs: seq<Rec>, id: RunId, v: Verdict)
    requires Good(runs) && v.outcome != InProgress
    ensures var t := FinalizedRuns(runs, id, v);
            Good(t) && QuietRuns(t, id) && (forall k :: QuietRuns(runs, k) ==> QuietRuns(t, k)) &&
            forall x :: x in t ==> exists y :: y in runs && y.runId == x.runId
  {
    var i := if RecordAt(runs, id) < |runs| then RecordAt(runs, id) else RunningAt(runs);
    if RecordAt(runs, id) == |runs| {
      assert forall r :: r in runs ==> r.runId != id;
    }
    if i < |runs| {
      FlipRecord(runs, i, Flipped(runs[i], v));
      var flipped := runs[i := Flipped(runs[i], v)];
      assert QuietRuns(flipped, id);
      assert runs[i] in runs;
      hide CapRuns;
      Capped(flipped);
    }
  }

  lemma FlippedRunsFlip(runs: seq<Rec>, id: RunId, v: Verdict)
    requires Good(runs) && v.outcome != InProgress
    ensures var t := FlippedRuns(runs, id, v);
            Good(t) && QuietRuns(t, id) && (forall k :: QuietRuns(runs, k) ==> QuietRuns(t, k)) &&
            forall x :: x in t ==> exists y :: y in runs && y.runId == x.runId
  {
    var i := RunningRecordAt(runs, id);
    if i < |runs| {
      FlipRecord(runs, i, runs[i].(outcome := v.outcome, errorReason := v.errorReason));
      assert runs[i] in runs;
    } else {
      forall r | r in runs && r.runId == id ensures r.outcome != InProgress {
        var k :| 0 <= k < |runs| && runs[k] == r;
        assert !IsRunningRecord(runs[k], id);
      }
    }
  }

  lemma AgedRunsFlip(runs: seq<Rec>, now: int)
    requires Good(runs)
    ensures var t := AgedRuns(runs, now);
            Good(t) && (forall k :: QuietRuns(runs, k) ==> QuietRuns(t, k)) &&
            (forall x :: x in t ==> exists y :: y in runs && y.runId == x.runId) &&
            forall x :: x in t && x.outcome == InProgress ==> x in runs && !Stalled(x, now)
  {
    hide Good, QuietRuns, Stalled;
    AgedGood(runs, now);
    forall x | x in AgedRuns(runs, now)
      ensures exists y :: y in runs && y.runId == x.runId && (x.outcome == InProgress ==> x == y && !Stalled(x, now))
    {
      AgedFrom(runs, now, x);
    }
    forall k | QuietRuns(runs, k) ensures QuietRuns(AgedRuns(runs, now), k) {
      AgedQuiet(runs, now, k);
    }
  }

  lemma AgedFrom(runs: seq<Rec>, now: int, x: Rec)
    requires x in AgedRuns(runs, now)
    ensures exists y :: y in runs && y.runId == x.runId && (x.outcome == InProgress ==> x == y && !Stalled(x, now))
  {
    var t := AgedRuns(runs, now);
    var k :| 0 <= k < |t| && t[k] == x;
    assert runs[k] in runs && runs[k].runId == x.runId;
  }

  lemma AgedGood(runs: seq<Rec>, now: int)
    requires Good(runs)
    ensures Good(AgedRuns(runs, now))
  {
    hide Stalled;
  }

  lemma AgedQuiet(runs: seq<Rec>, now: int, id: RunId)
    requires QuietRuns(runs, id)
    ensures QuietRuns(AgedRuns(runs, now), id)
  {
    forall x | x in AgedRuns(runs, now) && x.runId == id ensures x.outcome != InProgress {
      AgedFrom(runs, now, x);
    }
  }

  // ---- the registry -----------------------------------------------------------------------------------

  /** Every record of an agent job that still has a row sits in the source the row names. */
  predicate Linked(src: Source, rows: map<nat, Row>, serial: nat) {
    forall r :: r in src.runs ==>
      r.runId.n < serial && (r.runId.AgentJob? && r.runId.n in rows ==> rows[r.runId.n].source == Some(src.id))
  }

  predicate SourceOk(src: Source, rows: map<nat, Row>, serial: nat) {
    src.id != "" && Good(src.runs) && Linked(src, rows, serial)
  }

  predicate DistinctSources(sources: seq<Source>) {
    forall i, j :: 0 <= i < j < |sources| ==> sources[i].id != sources[j].id
  }

  predicate SourcesOk(sources: seq<Source>, rows: map<nat, Row>, serial: nat) {
    DistinctSources(sources) && forall src :: src in sources ==> SourceOk(src, rows, serial)
  }

  /** A filed job's link is not the link of any job before it. */
  predicate FreshLinks(w: World, jobs: seq<JobRow>) {
    forall i, j :: 0 <= i < j < |jobs| && jobs[j].filed ==> LinkKey(w, jobs[i].link) != LinkKey(w, jobs[j].link)
  }

  predicate OwnFolders(w: World, jobs: seq<JobRow>) {
    forall i, j :: 0 <= i < j < |jobs| ==> w.fold(jobs[i].folder) != w.fold(jobs[j].folder)
  }

  predicate FiledOnce(w: World, jobs: seq<JobRow>) {
    FreshLinks(w, jobs) && OwnFolders(w, jobs)
  }

  ghost predicate Inv(w: World, s: State) {
    w.Valid() && SourcesOk(s.sources, s.rows, s.serial) && FiledOnce(w, s.jobs) && forall n :: n in s.rows ==> n < s.serial
  }

  /** One source changed, its records only flipped or dropped. */
  ghost predicate Shrunk(before: Source, after: Source) {
    after.id == before.id && Good(after.runs) &&
    (forall x :: x in after.runs ==> exists y :: y in before.runs && y.runId == x.runId) &&
    forall id :: QuietRuns(before.runs, id) ==> QuietRuns(after.runs, id)
  }

  lemma ShrunkOk(before: Source, after: Source, rows: map<nat, Row>, serial: nat)
    requires SourceOk(before, rows, serial) && Shrunk(before, after)
    ensures SourceOk(after, rows, serial)
  {}

  lemma ShrunkSources(before: seq<Source>, after: seq<Source>, rows: map<nat, Row>, serial: nat)
    requires SourcesOk(before, rows, serial) && |before| == |after|
    requires forall i :: 0 <= i < |after| ==> after[i] == before[i] || Shrunk(before[i], after[i])
    ensures SourcesOk(after, rows, serial)
    ensures forall id :: Quiet(before, id) ==> Quiet(after, id)
  {
    hide Good, Linked;
    forall i | 0 <= i < |after| ensures SourceOk(after[i], rows, serial) && after[i].id == before[i].id {
      assert before[i] in before;
      if after[i] != before[i] {
        ShrunkOk(before[i], after[i], rows, serial);
      }
    }
    forall id | Quiet(before, id) ensures Quiet(after, id) {
      forall src, r | src in after && r in src.runs && r.runId == id ensures r.outcome != InProgress {
        var i :| 0 <= i < |after| && after[i] == src;
        assert before[i] in before;
        assert QuietRuns(before[i].runs, id);
      }
    }
  }

  lemma FinalizedOk(sources: seq<Source>, sourceId: string, id: RunId, v: Verdict, rows: map<nat, Row>, serial: nat)
    requires SourcesOk(sources, rows, serial) && v.outcome != InProgress
    ensures var t := Finalized(sources, sourceId, id, v);
            SourcesOk(t, rows, serial) && (forall k :: Quiet(sources, k) ==> Quiet(t, k)) &&
            (SourceAt(sources, sourceId) < |sources| ==> QuietRuns(t[SourceAt(sources, sourceId)].runs, id)) &&
            forall i :: 0 <= i < |t| && i != SourceAt(sources, sourceId) ==> t[i] == sources[i]
  {
    var i := SourceAt(sources, sourceId);
    if i < |sources| {
      assert sources[i] in sources;
      FinalizedRunsFlip(sources[i].runs, id, v);
      hide FinalizedRuns, QuietRuns, Good;
      ShrunkSources(sources, Finalized(sources, sourceId, id, v), rows, serial);
    }
  }

  // ---- filing --------------------------------------------------------------------------------------------

  lemma TrimmedHead(t: string)
    requires t != "" && !Text.IsSpace(t[0])
    ensures Text.Trim(t) != ""
  {
    assert t[0..] == t;
    TrimRightKeeps(t);
  }

  lemma {:induction false} TrimRightKeeps(t: string)
    requires t != "" && !Text.IsSpace(t[0])
    ensures Text.TrimRight(t) != "" && Text.TrimRight(t)[0] == t[0]
  {
    if Text.IsSpace(t[|t| - 1]) {
      TrimRightKeeps(t[..|t| - 1]);
    }
  }

  lemma {:induction false} TrimRightPrefix(t: string)
    ensures Text.TrimRight(t) <= t
  {
    if t != "" && Text.IsSpace(t[|t| - 1]) {
      TrimRightPrefix(t[..|t| - 1]);
    }
  }

  lemma CleanHead(s: string, cap: nat)
    requires cap > 0 && Clean(s, cap) != ""
    ensures Text.Trim(Clean(s, cap)) != ""
  {
    TrimRightPrefix(s[Text.Lead(s)..]);
    TrimmedHead(Clean(s, cap));
  }

  lemma {:induction false} CleanFindsKeyed(w: World, raw: seq<RawFind>)
    requires w.Valid()
    ensures forall f :: f in CleanFinds(raw) ==> LinkKey(w, f.link) != ""
  {
    if raw != [] {
      CleanFindsKeyed(w, raw[1..]);
      if Clean(raw[0].link, LINK_MAX) != "" {
        CleanHead(raw[0].link, LINK_MAX);
      }
    }
  }

  function Filed(w: World, jobs: seq<JobRow>, finds: seq<Find>): seq<JobRow> {
    FileFinds(w, jobs, finds, KeysOf(w, jobs))
  }

  predicate Keyed(w: World, finds: seq<Find>) {
    forall f :: f in finds ==> LinkKey(w, f.link) != ""
  }

  lemma KeysSnoc(w: World, jobs: seq<JobRow>, row: JobRow)
    requires LinkKey(w, row.link) != ""
    ensures KeysOf(w, jobs + [row]) == KeysOf(w, jobs) + {LinkKey(w, row.link)}
  {
    var t := jobs + [row];
    forall j | j in t ensures j in jobs || j == row {}
    assert forall j :: j in jobs ==> j in t;
    assert row in t;
  }

  lemma FiledStep(w: World, jobs: seq<JobRow>, finds: seq<Find>)
    requires finds != [] && Keyed(w, finds)
    ensures var f := finds[0];
            Filed(w, jobs, finds) ==
            if LinkKey(w, f.link) in KeysOf(w, jobs) || !Accepts(w, jobs, f) then Filed(w, jobs, finds[1..])
            else Filed(w, jobs + [NewJob(f)], finds[1..])
  {
    KeysSnoc(w, jobs, NewJob(finds[0]));
  }

  lemma KeyAbsent(w: World, jobs: seq<JobRow>, key: string)
    requires key != "" && key !in KeysOf(w, jobs)
    ensures forall j :: j in jobs ==> LinkKey(w, j.link) != key
  {}

  lemma OneMoreFiled(w: World, jobs: seq<JobRow>, f: Find)
    requires FiledOnce(w, jobs) && LinkKey(w, f.link) != "" && LinkKey(w, f.link) !in KeysOf(w, jobs) && Accepts(w, jobs, f)
    ensures FiledOnce(w, jobs + [NewJob(f)])
  {
    hide FolderOf, LinkKey;
    KeyAbsent(w, jobs, LinkKey(w, f.link));
    hide KeysOf;
    forall i | 0 <= i < |jobs| ensures LinkKey(w, jobs[i].link) != LinkKey(w, f.link) && w.fold(jobs[i].folder) != w.fold(NewJob(f).folder) {
      assert jobs[i] in jobs;
    }
  }

  lemma {:induction false} FiledOk(w: World, jobs: seq<JobRow>, finds: seq<Find>)
    requires Keyed(w, finds) && FiledOnce(w, jobs)
    ensures FiledOnce(w, Filed(w, jobs, finds))
    decreases |finds|
  {
    if finds != [] {
      FiledStep(w, jobs, finds);
      var f := finds[0];
      hide FileFinds, KeysOf, FiledOnce, Accepts, NewJob, LinkKey;
      if LinkKey(w, f.link) in KeysOf(w, jobs) || !Accepts(w, jobs, f) {
        FiledOk(w, jobs, finds[1..]);
      } else {
        OneMoreFiled(w, jobs, f);
        FiledOk(w, jobs + [NewJob(f)], finds[1..]);
      }
    }
  }

  lemma {:induction false} FiledConcat(w: World, jobs: seq<JobRow>, a: seq<Find>, b: seq<Find>)
    requires Keyed(w, a) && Keyed(w, b)
    ensures Filed(w, jobs, a + b) == Filed(w, Filed(w, jobs, a), b)
    decreases |a|
  {
    if a == [] {
      assert a + b == b;
    } else {
      assert (a + b)[0] == a[0] && (a + b)[1..] == a[1..] + b;
      FiledStep(w, jobs, a);
      FiledStep(w, jobs, a + b);
      hide FileFinds, KeysOf;
      FiledConcat(w, jobs, a[1..], b);
      FiledConcat(w, jobs + [NewJob(a[0])], a[1..], b);
    }
  }

  /** A store that refuses a find refuses it with more jobs, too. */
  lemma RefusedForGood(w: World, jobs: seq<JobRow>, more: seq<JobRow>, f: Find)
    requires jobs <= more && !Accepts(w, jobs, f)
    ensures !Accepts(w, more, f)
  {
    assert forall j :: j in jobs ==> j in more;
    hide FolderOf;
  }

  /** A find that is on file already, or that the store refuses. */
  predicate Settled(w: World, jobs: seq<JobRow>, f: Find) {
    LinkKey(w, f.link) in KeysOf(w, jobs) || !Accepts(w, jobs, f)
  }

  lemma {:induction false} FiledGrows(w: World, jobs: seq<JobRow>, finds: seq<Find>)
    requires Keyed(w, finds)
    ensures jobs <= Filed(w, jobs, finds) && KeysOf(w, jobs) <= KeysOf(w, Filed(w, jobs, finds))
    ensures forall f :: f in finds ==> Settled(w, Filed(w, jobs, finds), f)
    decreases |finds|
  {
    if finds != [] {
      FiledStep(w, jobs, finds);
      var f := finds[0];
      var more := jobs + [NewJob(f)];
      KeysSnoc(w, jobs, NewJob(f));
      hide FileFinds, KeysOf, Accepts;
      FiledGrows(w, jobs, finds[1..]);
      FiledGrows(w, more, finds[1..]);
      if !Accepts(w, jobs, f) {
        RefusedForGood(w, jobs, Filed(w, jobs, finds), f);
      }
    }
  }

  lemma {:induction false} FiledNothing(w: World, jobs: seq<JobRow>, finds: seq<Find>)
    requires Keyed(w, finds) && forall f :: f in finds ==> Settled(w, jobs, f)
    ensures Filed(w, jobs, finds) == jobs
    decreases |finds|
  {
    if finds != [] {
      FiledStep(w, jobs, finds);
      assert Settled(w, jobs, finds[0]);
      FiledNothing(w, jobs, finds[1..]);
    }
  }

  /** Filing the finds of a result that crashed after k of them and is then run again from the
      start leaves the jobs that one undisturbed filing leaves, whatever the store refuses; a
      replay of a whole filing leaves them as they are. */
  lemma CrashedFilingRecovers(w: World, jobs: seq<JobRow>, raw: seq<RawFind>, k: nat)
    requires w.Valid() && k <= |CleanFinds(raw)|
    ensures var finds := CleanFinds(raw);
            Filed(w, Filed(w, jobs, finds[..k]), finds) == Filed(w, jobs, finds)
  {
    CleanFindsKeyed(w, raw);
    hide *;
    KeyedFilingRecovers(w, jobs, CleanFinds(raw), k);
  }

  lemma KeyedFilingRecovers(w: World, jobs: seq<JobRow>, finds: seq<Find>, k: nat)
    requires Keyed(w, finds) && k <= |finds|
    ensures Filed(w, Filed(w, jobs, finds[..k]), finds) == Filed(w, jobs, finds)
  {
    var a, b := finds[..k], finds[k..];
    assert finds == a + b;
    var mid := Filed(w, jobs, a);
    hide *;
    FiledConcat(w, jobs, a, b);
    FiledConcat(w, mid, a, b);
    FiledGrows(w, jobs, a);
    FiledNothing(w, mid, a);
  }

  // ---- ingesting -----------------------------------------------------------------------------------------

  lemma JobsAfterOk(w: World, jobs: seq<JobRow>, row: Row)
    requires w.Valid() && FiledOnce(w, jobs)
    ensures FiledOnce(w, JobsAfter(w, jobs, row))
  {
    var finds := Validated(row.result);
    if row.phase == Done && finds.Some? {
      CleanFindsKeyed(w, row.result.value);
      FiledOk(w, jobs, finds.value);
    }
  }

  lemma IngestedOk(w: World, s: State, n: nat)
    requires Inv(w, s)
    ensures var t := Ingested(w, s, n);
            Inv(w, t) && t.rows == s.rows && (forall k :: Quiet(s.sources, k) ==> Quiet(t.sources, k))
  {
    hide Inv, Quiet, IngestedRow;
    if n in s.rows && s.rows[n].source.Some? && s.rows[n].source.value != "" {
      IngestedRowOk(w, s, s.rows[n], s.rows[n].source.value, AgentJob(n));
    }
  }

  lemma IngestedRowIs(w: World, s: State, row: Row, sourceId: string, id: RunId)
    ensures var jobs := JobsAfter(w, s.jobs, row);
            IngestedRow(w, s, row, sourceId, id) ==
            s.(jobs := jobs, sources := Finalized(s.sources, sourceId, id, RowVerdict(row, |jobs| - |s.jobs|)))
  {
    hide JobsAfter, RowVerdict, Finalized;
  }

  lemma VerdictEnds(row: Row, created: nat)
    ensures RowVerdict(row, created).outcome != InProgress
  {}

  lemma InvParts(w: World, s: State)
    requires Inv(w, s)
    ensures w.Valid() && SourcesOk(s.sources, s.rows, s.serial) && FiledOnce(w, s.jobs)
  {
    hide SourcesOk, FiledOnce;
  }

  lemma IngestedRowOk(w: World, s: State, row: Row, sourceId: string, id: RunId)
    requires Inv(w, s)
    ensures var t := IngestedRow(w, s, row, sourceId, id);
            Inv(w, t) && t.rows == s.rows && (forall k :: Quiet(s.sources, k) ==> Quiet(t.sources, k))
  {
    hide *;
    var jobs := JobsAfter(w, s.jobs, row);
    var v := RowVerdict(row, |jobs| - |s.jobs|);
    IngestedRowIs(w, s, row, sourceId, id);
    VerdictEnds(row, |jobs| - |s.jobs|);
    InvParts(w, s);
    JobsAfterOk(w, s.jobs, row);
    FinalizedOk(s.sources, sourceId, id, v, s.rows, s.serial);
    StoredOk(w, s, jobs, Finalized(s.sources, sourceId, id, v));
  }

  lemma StoredOk(w: World, s: State, jobs: seq<JobRow>, sources: seq<Source>)
    requires Inv(w, s) && FiledOnce(w, jobs) && SourcesOk(sources, s.rows, s.serial)
    ensures Inv(w, s.(jobs := jobs, sources := sources))
  {
    hide FiledOnce, SourcesOk;
  }

  /** Ingesting ends every running record of that agent job: they all sit in the source the row names. */
  lemma IngestedQuiet(w: World, s: State, n: nat)
    requires Inv(w, s) && n in s.rows
    ensures Quiet(Ingested(w, s, n).sources, AgentJob(n))
  {
    hide *;
    var row := s.rows[n];
    InvParts(w, s);
    if row.source.None? || row.source.value == "" || SourceAt(s.sources, row.source.value) == |s.sources| {
      ElsewhereQuiet(s, n);
      IngestedOk(w, s, n);
    } else {
      var created := |JobsAfter(w, s.jobs, row)| - |s.jobs|;
      IngestedIs(w, s, n);
      VerdictEnds(row, created);
      FinalizedQuiet(s, n, RowVerdict(row, created));
    }
  }

  lemma IngestedIs(w: World, s: State, n: nat)
    requires n in s.rows && s.rows[n].source.Some? && s.rows[n].source.value != ""
    ensures var row := s.rows[n];
            Ingested(w, s, n).sources ==
            Finalized(s.sources, row.source.value, AgentJob(n), RowVerdict(row, |JobsAfter(w, s.jobs, row)| - |s.jobs|))
  {
    hide IngestedRow, JobsAfter, RowVerdict, Finalized;
    IngestedRowIs(w, s, s.rows[n], s.rows[n].source.value, AgentJob(n));
  }

  lemma FinalizedQuiet(s: State, n: nat, v: Verdict)
    requires SourcesOk(s.sources, s.rows, s.serial) && n in s.rows && v.outcome != InProgress
    requires s.rows[n].source.Some? && SourceAt(s.sources, s.rows[n].source.value) < |s.sources|
    ensures Quiet(Finalized(s.sources, s.rows[n].source.value, AgentJob(n), v), AgentJob(n))
  {
    hide Finalized, Good;
    var sourceId := s.rows[n].source.value;
    FinalizedOk(s.sources, sourceId, AgentJob(n), v, s.rows, s.serial);
    var i, t := SourceAt(s.sources, sourceId), Finalized(s.sources, sourceId, AgentJob(n), v);
    forall src, r | src in t && r in src.runs && r.runId == AgentJob(n) ensures r.outcome != InProgress {
      var k :| 0 <= k < |t| && t[k] == src;
      assert s.sources[k] in s.sources && s.sources[i] in s.sources;
    }
  }

  lemma ElsewhereQuiet(s: State, n: nat)
    requires SourcesOk(s.sources, s.rows, s.serial) && n in s.rows
    requires s.rows[n].source.None? || s.rows[n].source.value == "" || SourceAt(s.sources, s.rows[n].source.value) == |s.sources|
    ensures Quiet(s.sources, AgentJob(n))
  {
    forall src | src in s.sources ensures s.rows[n].source != Some(src.id) {
      var k :| 0 <= k < |s.sources| && s.sources[k] == src;
      assert SourceOk(src, s.rows, s.serial);
    }
  }

  lemma {:induction false} IngestedEachOk(w: World, s: State, stale: seq<nat>)
    requires Inv(w, s)
    ensures var t := IngestedEach(w, s, stale);
            Inv(w, t) && t.rows == s.rows && (forall k :: Quiet(s.sources, k) ==> Quiet(t.sources, k)) &&
            forall n :: n in stale && IsDone(s.rows, n) ==> Quiet(t.sources, AgentJob(n))
    decreases |stale|
  {
    hide Inv, Quiet, Ingested;
    if stale != [] {
      if IsDone(s.rows, stale[0]) {
        IngestedOk(w, s, stale[0]);
        IngestedQuiet(w, s, stale[0]);
        IngestedEachOk(w, Ingested(w, s, stale[0]), stale[1..]);
      } else {
        IngestedEachOk(w, s, stale[1..]);
      }
    }
  }

  // ---- the sweeps -------------------------------------------------------------------------------------------

  lemma FlippedSourcesOk(sources: seq<Source>, id: RunId, v: Verdict, rows: map<nat, Row>, serial: nat)
    requires SourcesOk(sources, rows, serial) && v.outcome != InProgress
    ensures var t := FlippedSources(sources, id, v);
            SourcesOk(t, rows, serial) && Quiet(t, id) && forall k :: Quiet(sources, k) ==> Quiet(t, k)
  {
    var t := FlippedSources(sources, id, v);
    forall i | 0 <= i < |t| ensures Shrunk(sources[i], t[i]) && QuietRuns(t[i].runs, id) {
      assert sources[i] in sources;
      assert SourceOk(sources[i], rows, serial);
      FlippedRunsFlip(sources[i].runs, id, v);
    }
    hide Shrunk, FlippedSources;
    ShrunkSources(sources, t, rows, serial);
  }

  lemma {:induction false} FlippedEachOk(sources: seq<Source>, rows: map<nat, Row>, serial: nat, stale: seq<nat>)
    requires SourcesOk(sources, rows, serial)
    ensures var t := FlippedEach(sources, rows, stale);
            SourcesOk(t, rows, serial) && (forall k :: Quiet(sources, k) ==> Quiet(t, k)) &&
            forall n :: n in stale && !IsDone(rows, n) ==> Quiet(t, AgentJob(n))
    decreases |stale|
  {
    hide SourcesOk, Quiet, FlippedSources;
    if stale != [] {
      var v := BrokenVerdict(rows, stale[0]);
      var next := if IsDone(rows, stale[0]) then sources else FlippedSources(sources, AgentJob(stale[0]), v);
      FlippedSourcesOk(sources, AgentJob(stale[0]), v, rows, serial);
      FlippedEachOk(next, rows, serial, stale[1..]);
    }
  }

  lemma {:induction false} StaleOfAll(runs: seq<Rec>, rows: map<nat, Row>)
    ensures forall r :: r in runs && IsStale(r, rows) ==> r.runId.n in StaleOf(runs, rows)
  {
    if runs != [] {
      StaleOfAll(runs[1..], rows);
    }
  }

  lemma {:induction false} StaleAll(sources: seq<Source>, rows: map<nat, Row>)
    ensures forall src, r :: src in sources && r in src.runs && IsStale(r, rows) ==> r.runId.n in Stale(sources, rows)
  {
    hide StaleOf;
    if sources != [] {
      StaleOfAll(sources[0].runs, rows);
      StaleAll(sources[1..], rows);
    }
  }

  lemma RunnerSweptOk(w: World, s: State)
    requires Inv(w, s)
    ensures var t := RunnerSwept(w, s);
            Inv(w, t) && t.rows == s.rows && (forall k :: Quiet(s.sources, k) ==> Quiet(t.sources, k)) &&
            forall n :: n in Stale(s.sources, s.rows) ==> Quiet(t.sources, AgentJob(n))
  {
    var stale := Stale(s.sources, s.rows);
    var t := IngestedEach(w, s, stale);
    hide Quiet, IngestedEach, FlippedEach, Stale, SourcesOk;
    IngestedEachOk(w, s, stale);
    FlippedEachOk(t.sources, s.rows, t.serial, stale);
  }

  lemma AgedOk(sources: seq<Source>, now: int, rows: map<nat, Row>, serial: nat)
    requires SourcesOk(sources, rows, serial)
    ensures var t := AgedSources(sources, now);
            SourcesOk(t, rows, serial) && (forall k :: Quiet(sources, k) ==> Quiet(t, k)) &&
            forall src, r :: src in t && r in src.runs && r.outcome == InProgress ==> !Stalled(r, now)
  {
    var t := AgedSources(sources, now);
    forall i | 0 <= i < |t| ensures Shrunk(sources[i], t[i]) && forall r :: r in t[i].runs && r.outcome == InProgress ==> !Stalled(r, now) {
      assert sources[i] in sources;
      assert SourceOk(sources[i], rows, serial);
      AgedRunsFlip(sources[i].runs, now);
    }
    hide Shrunk, AgedSources, Stalled;
    ShrunkSources(sources, t, rows, serial);
  }

  lemma SweptOk(w: World, s: State, now: int)
    requires Inv(w, s)
    ensures Inv(w, Swept(w, s, now))
  {
    RunnerSweptOk(w, s);
    var t := RunnerSwept(w, s);
    hide RunnerSwept, AgedSources, Stale, SourcesOk, Quiet;
    AgedOk(t.sources, now, t.rows, t.serial);
  }

  /** After both sweeps a running record is younger than the stall age, and if it was handed
      to the runner its agent job is still pending. */
  lemma SweepsLeaveHonestRecords(w: World, s: State, now: int, src: Source, r: Rec)
    requires Inv(w, s)
    requires src in Swept(w, s, now).sources && r in src.runs && r.outcome == InProgress
    ensures r.startedMs.Some? && now - r.startedMs.value < 1_800_000
    ensures r.runId.AgentJob? ==> r.runId.n in s.rows && s.rows[r.runId.n].phase == Pending
  {
    hide Inv, RunnerSwept, AgedSources, SourcesOk, Stale, Quiet;
    RunnerSweptOk(w, s);
    var mid := RunnerSwept(w, s);
    InvParts(w, mid);
    AgedOk(mid.sources, now, mid.rows, mid.serial);
    LoudSource(Swept(w, s, now).sources, src, r);
    assert !Quiet(s.sources, r.runId);
    if r.runId.AgentJob? {
      LoudStale(s.sources, s.rows, r.runId.n);
    }
  }

  lemma LoudSource(sources: seq<Source>, src: Source, r: Rec)
    requires src in sources && r in src.runs && r.outcome == InProgress
    ensures !Quiet(sources, r.runId)
  {}

  lemma LoudStale(sources: seq<Source>, rows: map<nat, Row>, n: nat)
    requires !Quiet(sources, AgentJob(n)) && n !in Stale(sources, rows)
    ensures n in rows && rows[n].phase == Pending
  {
    var src, r :| src in sources && r in src.runs && r.runId == AgentJob(n) && r.outcome == InProgress;
    StaleAll(sources, rows);
    hide Stale;
    assert !IsStale(r, rows);
  }

  // ---- launching ----------------------------------------------------------------------------------------------

  lemma NewRunGood(runs: seq<Rec>, rec: Rec)
    requires Good(runs) && forall r :: r in runs ==> r.runId != rec.runId
    requires rec.outcome == InProgress ==> RunningAt(runs) == |runs|
    ensures Good(runs + [rec])
  {}

  lemma LaunchedSourceOk(src: Source, rec: Rec, now: int, rows: map<nat, Row>, rows': map<nat, Row>, serial: nat)
    requires SourceOk(src, rows, serial) && RunningAt(src.runs) == |src.runs| && rec.runId.n == serial
    requires forall n :: n < serial ==> (n in rows' <==> n in rows) && (n in rows ==> rows'[n] == rows[n])
    requires rec.runId.AgentJob? && serial in rows' ==> rows'[serial].source == Some(src.id)
    ensures SourceOk(src.(runs := CapRuns(src.runs + [rec]), lastRunAt := Some(now)), rows', serial + 1)
  {
    NewRunGood(src.runs, rec);
    hide CapRuns, RunningAt;
    Capped(src.runs + [rec]);
    hide Good;
    forall r | r in CapRuns(src.runs + [rec])
      ensures r.runId.n < serial + 1 && (r.runId.AgentJob? && r.runId.n in rows' ==> rows'[r.runId.n].source == Some(src.id))
    {
      assert r in src.runs || r == rec;
    }
  }

  lemma OtherSourceOk(src: Source, rows: map<nat, Row>, rows': map<nat, Row>, serial: nat)
    requires SourceOk(src, rows, serial)
    requires forall n :: n < serial && n in rows' ==> n in rows && rows'[n].source == rows[n].source
    ensures SourceOk(src, rows', serial + 1) && SourceOk(src, rows', serial)
  {}

  lemma RecordedOk(w: World, s: State, sourceId: string, mode: Mode, now: int)
    requires Inv(w, s)
    ensures Inv(w, Recorded(s, sourceId, mode, now))
  {
    var answer := LaunchAnswer(s, sourceId, mode);
    if answer.Launched? {
      var t := Recorded(s, sourceId, mode, now);
      var i := SourceAt(s.sources, sourceId);
      assert s.sources[i] in s.sources;
      LaunchedSourceOk(s.sources[i], NewRecord(answer.id, mode, now), now, s.rows, t.rows, s.serial);
      assert t.sources[i] == s.sources[i].(runs := CapRuns(s.sources[i].runs + [NewRecord(answer.id, mode, now)]), lastRunAt := Some(now));
      forall k | 0 <= k < |t.sources| ensures SourceOk(t.sources[k], t.rows, t.serial) && t.sources[k].id == s.sources[k].id {
        hide SourceOk, CapRuns;
        assert s.sources[k] in s.sources;
        if k != i {
          OtherSourceOk(s.sources[k], s.rows, t.rows, s.serial);
        }
      }
      hide SourceOk, FiledOnce, CapRuns;
      assert SourcesOk(t.sources, t.rows, t.serial);
    }
  }

  // ---- histories ----------------------------------------------------------------------------------------------

  datatype Event =
    | Launch(source: string, mode: Mode, now: int)
    | ResultArrives(job: nat)
    | ResultCrashes(job: nat, after: nat)
    | LocalRunEnds(source: string, run: nat, outcome: Outcome)
    | Sweep(now: int)
    | RunnerMoves(rows: map<nat, Row>)
    | OtherJobQueued
    | OwnerAddsJob(link: string, folder: string)

  /** Rows change phase and result or vanish; none changes its source. */
  predicate RowsFollow(rows: map<nat, Row>, next: map<nat, Row>) {
    forall n :: n in next ==> n in rows && next[n].source == rows[n].source
  }

  /** The jobs filed by an ingest that dies after some finds, before the registry is saved. */
  function Crashed(w: World, s: State, n: nat, after: nat): State {
    if n !in s.rows || s.rows[n].phase != Done || Validated(s.rows[n].result).None? then s
    else
      var finds := Validated(s.rows[n].result).value;
      s.(jobs := Filed(w, s.jobs, if after <= |finds| then finds[..after] else finds))
  }

  function Next(w: World, s: State, e: Event): State {
    match e
    case Launch(source, mode, now) => Recorded(Swept(w, s, now), source, mode, now)
    case ResultArrives(job) => Ingested(w, s, job)
    case ResultCrashes(job, after) => Crashed(w, s, job, after)
    case LocalRunEnds(source, run, outcome) =>
      if outcome == InProgress then s
      else s.(sources := Finalized(s.sources, source, Local(run), Verdict(outcome, None, None)))
    case Sweep(now) => Swept(w, s, now)
    case RunnerMoves(rows) => if RowsFollow(s.rows, rows) then s.(rows := rows) else s
    case OtherJobQueued => s.(rows := s.rows[s.serial := Row(Pending, None, None, None)], serial := s.serial + 1)
    case OwnerAddsJob(link, folder) => if Taken(w, s.jobs, folder) then s else s.(jobs := s.jobs + [JobRow(link, folder, false)])
  }

  function After(w: World, s: State, events: seq<Event>): State {
    if events == [] then s else Next(w, After(w, s, events[..|events| - 1]), events[|events| - 1])
  }

  lemma CrashedOk(w: World, s: State, n: nat, after: nat)
    requires Inv(w, s)
    ensures Inv(w, Crashed(w, s, n, after))
  {
    if n in s.rows && s.rows[n].phase == Done && Validated(s.rows[n].result).Some? {
      var finds := Validated(s.rows[n].result).value;
      var part := if after <= |finds| then finds[..after] else finds;
      CleanFindsKeyed(w, s.rows[n].result.value);
      hide FiledOnce, SourcesOk, LinkKey, Filed;
      FiledOk(w, s.jobs, part);
    }
  }

  lemma RowsFollowOk(w: World, s: State, rows: map<nat, Row>)
    requires Inv(w, s) && RowsFollow(s.rows, rows)
    ensures Inv(w, s.(rows := rows))
  {
    forall k | 0 <= k < |s.sources| ensures SourceOk(s.sources[k], rows, s.serial) {
      assert s.sources[k] in s.sources;
      OtherSourceOk(s.sources[k], s.rows, rows, s.serial);
    }
    hide SourceOk, FiledOnce;
  }

  lemma OtherJobOk(w: World, s: State)
    requires Inv(w, s)
    ensures Inv(w, Next(w, s, OtherJobQueued))
  {
    var t := Next(w, s, OtherJobQueued);
    forall k | 0 <= k < |s.sources| ensures SourceOk(s.sources[k], t.rows, t.serial) {
      assert s.sources[k] in s.sources;
      OtherSourceOk(s.sources[k], s.rows, t.rows, s.serial);
    }
    hide SourceOk, FiledOnce;
  }

  lemma NextOk(w: World, s: State, e: Event)
    requires Inv(w, s)
    ensures Inv(w, Next(w, s, e))
  {
    hide Inv, Recorded, Swept, Ingested, Crashed, Finalized, Quiet, RowsFollow;
    match e {
      case Launch(source, mode, now) =>
        SweptOk(w, s, now);
        RecordedOk(w, Swept(w, s, now), source, mode, now);
      case ResultArrives(job) => IngestedOk(w, s, job);
      case ResultCrashes(job, after) => CrashedOk(w, s, job, after);
      case LocalRunEnds(source, run, outcome) =>
        if outcome != InProgress {
          InvParts(w, s);
          FinalizedOk(s.sources, source, Local(run), Verdict(outcome, None, None), s.rows, s.serial);
          StoredOk(w, s, s.jobs, Finalized(s.sources, source, Local(run), Verdict(outcome, None, None)));
        }
      case Sweep(now) => SweptOk(w, s, now);
      case RunnerMoves(rows) => if RowsFollow(s.rows, rows) { RowsFollowOk(w, s, rows); }
      case OtherJobQueued => OtherJobOk(w, s);
      case OwnerAddsJob(link, folder) =>
        if !Taken(w, s.jobs, folder) {
          OwnerAddsOk(w, s, link, folder);
        }
    }
  }

  lemma OwnerAddsOk(w: World, s: State, link: string, folder: string)
    requires Inv(w, s) && !Taken(w, s.jobs, folder)
    ensures Inv(w, s.(jobs := s.jobs + [JobRow(link, folder, false)]))
  {
    hide SourcesOk, LinkKey;
  }

  lemma {:induction false} AfterOk(w: World, s: State, events: seq<Event>)
    requires Inv(w, s)
    ensures Inv(w, After(w, s, events))
    decreases |events|
  {
    if events != [] {
      AfterOk(w, s, events[..|events| - 1]);
      hide Inv, Next;
      NextOk(w, After(w, s, events[..|events| - 1]), events[|events| - 1]);
    }
  }

  /** From a sound registry, after any history of launches, results (delivered, replayed or
      crashed half way), local ends, sweeps and owner edits: each source has at most one
      running record, no job is filed for a link that an earlier job has, and every job has
      a folder of its own. */
  lemma AlwaysOneRunningAndFiledOnce(w: World, s: State, events: seq<Event>)
    requires Inv(w, s)
    ensures var t := After(w, s, events);
            (forall src, i, j :: src in t.sources && 0 <= i < j < |src.runs| ==>
               !(src.runs[i].outcome == InProgress && src.runs[j].outcome == InProgress)) &&
            forall i, j :: 0 <= i < j < |t.jobs| ==>
              (t.jobs[j].filed ==> LinkKey(w, t.jobs[i].link) != LinkKey(w, t.jobs[j].link)) &&
              w.fold(t.jobs[i].folder) != w.fold(t.jobs[j].folder)
  {
    AfterOk(w, s, events);
    var t := After(w, s, events);
    hide After;
    forall src | src in t.sources ensures OneRunning(src.runs) {
      assert SourceOk(src, t.rows, t.serial);
    }
  }
}
