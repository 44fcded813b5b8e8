/** What holds over every run of the scheduler's endpoints and callbacks. */
module SchedulerRuns {
  import opened Options
  import opened Scheduler
  import Seqs

  // ---- the live keys ---------------------------------------------------------------------

  lemma {:induction false} LiveKeysConcat(a: seq<Run>, b: seq<Run>)
    ensures LiveKeys(a + b) == LiveKeys(a) + LiveKeys(b)
  {
    if a == [] {
      assert a + b == b;
    } else {
      assert (a + b)[0] == a[0] && (a + b)[1..] == a[1..] + b;
      LiveKeysConcat(a[1..], b);
      Seqs.Assoc(KeyOf(a[0]), LiveKeys(a[1..]), LiveKeys(b));
    }
  }

  lemma {:induction false} QueueKeysConcat(a: seq<Item>, b: seq<Item>)
    ensures QueueKeys(a + b) == QueueKeys(a) + QueueKeys(b)
  {
    if a == [] {
      assert a + b == b;
    } else {
      assert (a + b)[0] == a[0] && (a + b)[1..] == a[1..] + b;
      QueueKeysConcat(a[1..], b);
    }
  }

  /** The keys of one run: its own, if it is live. */
  function KeyOf(r: Run): seq<(string, string)> {
    if r.status == Running then [Key(r.item)] else []
  }

  lemma LiveKeysSplit(runs: seq<Run>, i: nat)
    requires i < |runs|
    ensures LiveKeys(runs) == LiveKeys(runs[..i]) + KeyOf(runs[i]) + LiveKeys(runs[i + 1..])
  {
    Seqs.SplitAt(runs, i);
    LiveKeysConcat(runs[..i], [runs[i]] + runs[i + 1..]);
    LiveKeysConcat([runs[i]], runs[i + 1..]);
    assert LiveKeys([runs[i]]) == KeyOf(runs[i]);
    hide LiveKeys, KeyOf;
    Seqs.Assoc(LiveKeys(runs[..i]), KeyOf(runs[i]), LiveKeys(runs[i + 1..]));
  }

  lemma LiveKeysUpdate(runs: seq<Run>, i: nat, r: Run)
    requires i < |runs|
    ensures multiset(LiveKeys(runs[i := r])) + multiset(KeyOf(runs[i])) == multiset(LiveKeys(runs)) + multiset(KeyOf(r))
    ensures |LiveKeys(runs[i := r])| + |KeyOf(runs[i])| == |LiveKeys(runs)| + |KeyOf(r)|
  {
    LiveKeysSplit(runs, i);
    LiveKeysSplit(runs[i := r], i);
    assert runs[i := r][..i] == runs[..i] && runs[i := r][i + 1..] == runs[i + 1..];
  }

  // ---- the invariant ------------------------------------------------------------------------

  function Instances(s: State): multiset<(string, string)> {
    multiset(LiveKeys(s.runs)) + multiset(QueueKeys(s.queue))
  }

  /** Ids are minted in order; a live run has a runner job or an unfinished task. */
  predicate Anchored(s: State) {
    && (forall i :: 0 <= i < |s.runs| ==> s.runs[i].id < s.serial)
    && (forall i, j :: 0 <= i < j < |s.runs| ==> s.runs[i].id < s.runs[j].id)
    && (forall t :: t in s.tasks ==> t < s.serial)
    && (forall r :: r in s.runs && (r.killable || (r.status == Running && r.agentJob.None?)) ==> r.id in s.tasks)
  }

  /** While no launch was admitted beyond it, the limit holds for all that may come up. */
  predicate Bounded(w: World, s: State) {
    !s.overbooked ==> Outstanding(s) <= w.max
  }

  ghost predicate Once(w: World, s: State) {
    forall key :: w.Keyed(key) ==> Instances(s)[key] <= 1
  }

  predicate QueueSorts(w: World, s: State) {
    (forall item :: item in s.queue ==> item.routine == SOURCE_ROUTINE || w.scopeOf(item.routine) == JobScope) &&
    forall item :: item in s.claimed + s.posted ==> item.routine == SOURCE_ROUTINE
  }

  ghost predicate Core(w: World, s: State) {
    w.Valid() && Anchored(s) && Bounded(w, s) && Once(w, s) && QueueSorts(w, s)
  }

  /** A promised launch never waits beside a free slot that no launch under way has claimed,
      unless a task is still to end. */
  predicate NoStall(w: World, s: State) {
    s.queue == [] || !HasSlot(w, s) || s.tasks != {}
  }

  ghost predicate Inv(w: World, s: State) {
    Core(w, s) && NoStall(w, s)
  }

  // ---- launching ----------------------------------------------------------------------------

  lemma StartedLive(w: World, s: State, item: Item)
    ensures var t := Started(w, s, item);
            LiveKeys(t.runs) == LiveKeys(s.runs) + (if w.startOf(s.serial) == Refused then [] else [Key(item)])
  {
    var t := Started(w, s, item);
    LiveKeysConcat(s.runs, [t.runs[|s.runs|]]);
    assert t.runs == s.runs + [t.runs[|s.runs|]];
  }

  /** One more record under the next id. */
  lemma Appended(s: State, r: Run, tasks: set<nat>)
    requires Anchored(s) && r.id == s.serial && (tasks == s.tasks || tasks == s.tasks + {s.serial})
    requires r.killable || (r.status == Running && r.agentJob.None?) ==> r.id in tasks
    ensures Anchored(s.(runs := s.runs + [r], tasks := tasks, serial := s.serial + 1))
  {
    forall x | x in s.runs + [r] && (x.killable || (x.status == Running && x.agentJob.None?)) ensures x.id in tasks {
      assert x in s.runs || x == r;
    }
  }

  lemma AnchoredIgnores(s: State, t: State)
    requires Anchored(s) && s.runs == t.runs && s.tasks == t.tasks && s.serial == t.serial
    ensures Anchored(t)
  {}

  lemma StartedAnchored(w: World, s: State, item: Item)
    requires Anchored(s)
    ensures Anchored(Started(w, s, item)) && s.tasks <= Started(w, s, item).tasks
  {
    var t := Started(w, s, item);
    var r := t.runs[|s.runs|];
    assert t.runs == s.runs + [r];
    hide Anchored;
    Appended(s, r, t.tasks);
    AnchoredIgnores(s.(runs := s.runs + [r], tasks := t.tasks, serial := s.serial + 1), t);
  }

  /** Starting an item that is not yet live or queued, or that is not keyed, with room for it. */
  lemma StartedInstances(w: World, s: State, item: Item)
    ensures Instances(Started(w, s, item)) ==
            Instances(s) + if w.startOf(s.serial) == Refused then multiset{} else multiset{Key(item)}
    ensures Outstanding(Started(w, s, item)) <= Outstanding(s) + 1
  {
    StartedLive(w, s, item);
    hide LiveKeys, QueueKeys;
  }

  lemma StartedCore(w: World, s: State, item: Item)
    requires w.Valid() && Anchored(s) && Once(w, s) && QueueSorts(w, s)
    requires !s.overbooked ==> Outstanding(s) < w.max
    requires w.Keyed(Key(item)) ==> Instances(s)[Key(item)] == 0
    ensures Core(w, Started(w, s, item))
  {
    StartedInstances(w, s, item);
    StartedAnchored(w, s, item);
    var t := Started(w, s, item);
    assert t.queue == s.queue;
    hide Anchored, Started, LiveKeys, Instances, Outstanding;
    forall key | w.Keyed(key) ensures Instances(t)[key] <= 1 {
      assert Instances(s)[key] <= 1;
    }
  }

  lemma SourceLaunchCore(w: World, s: State, item: Item)
    requires w.Valid() && Anchored(s) && Once(w, s) && QueueSorts(w, s) && item.routine == SOURCE_ROUTINE
    requires !s.overbooked ==> Outstanding(s) < w.max
    ensures Core(w, LaunchedSource(w, s, item))
  {
    if w.skips(s.serial) {
      assert Instances(s.(serial := s.serial + 1)) == Instances(s);
    } else {
      hide Started, Anchored, Once, Instances, Outstanding;
      StartedCore(w, s, if w.apify(s.serial) then item.(routine := APIFY_ROUTINE) else item);
    }
  }

  lemma HeadKeys(s: State)
    requires s.queue != []
    ensures Instances(s) == Instances(s.(queue := s.queue[1..])) + multiset{Key(s.queue[0])}
  {}

  /** The state between an admission from the queue and its launch. */
  lemma HeadTaken(w: World, s: State)
    requires Core(w, s) && s.queue != []
    ensures var rest := Admit(w, s).(queue := s.queue[1..]);
            Anchored(rest) && Once(w, rest) && QueueSorts(w, rest) && Outstanding(rest) == Outstanding(s) &&
            (w.Keyed(Key(s.queue[0])) ==> Instances(rest)[Key(s.queue[0])] == 0)
  {
    var rest, head := Admit(w, s).(queue := s.queue[1..]), s.queue[0];
    HeadKeys(s);
    assert Instances(rest) == Instances(s.(queue := s.queue[1..]));
    forall key | w.Keyed(key) ensures Instances(rest)[key] <= 1 && (key == Key(head) ==> Instances(rest)[key] == 0) {
      assert Instances(s)[key] <= 1;
    }
    forall item | item in rest.queue ensures item in s.queue {}
  }

  lemma LaunchedHeadCore(w: World, s: State)
    requires Core(w, s) && s.queue != []
    ensures Core(w, LaunchedHead(w, s))
  {
    var rest, head := Admit(w, s).(queue := s.queue[1..]), s.queue[0];
    HeadTaken(w, s);
    HeadLaunched(w, s);
    if head.routine != SOURCE_ROUTINE {
      hide LaunchedHead, Started, Anchored, Once, Instances, LiveKeys;
      StartedCore(w, rest, head);
    } else if w.later(s.serial) {
      hide Once, LaunchedHead, LaunchedSource;
      assert Instances(LaunchedHead(w, s)) == Instances(rest);
      ClaimedCore(w, s, rest, head);
    } else {
      hide LaunchedHead, LaunchedSource, Anchored, Once, Instances, LiveKeys;
      SourceLaunchCore(w, rest, head);
    }
  }

  lemma ClaimedCore(w: World, s: State, rest: State, head: Item)
    requires w.Valid() && Anchored(rest) && Once(w, rest) && QueueSorts(w, rest) && head.routine == SOURCE_ROUTINE
    requires !rest.overbooked ==> Outstanding(rest) < w.max
    ensures Core(w, rest.(claimed := rest.claimed + [head], serial := rest.serial + 1))
  {
    var t := rest.(claimed := rest.claimed + [head], serial := rest.serial + 1);
    assert Instances(t) == Instances(rest);
    hide Instances, LiveKeys;
  }

  lemma {:induction false} DrainedInv(w: World, s: State)
    requires Core(w, s)
    ensures Inv(w, Drained(w, s))
    decreases |s.queue|
  {
    hide Core, LaunchedHead;
    if HasSlot(w, s) && s.queue != [] {
      LaunchedHeadCore(w, s);
      DrainedInv(w, LaunchedHead(w, s));
    }
  }

  // ---- records that stop being live -----------------------------------------------------------

  lemma CloseCore(w: World, s: State, i: nat, r: Run, tasks: set<nat>)
    requires Core(w, s) && i < |s.runs| && r.id == s.runs[i].id && r.status != Running
    requires tasks == s.tasks || (tasks == s.tasks - {r.id} && !r.killable)
    requires r.killable ==> s.runs[i].killable
    ensures Core(w, s.(runs := s.runs[i := r], tasks := tasks))
  {
    var t := s.(runs := s.runs[i := r], tasks := tasks);
    LiveKeysUpdate(s.runs, i, r);
    forall key | w.Keyed(key) ensures Instances(t)[key] <= 1 {
      assert (multiset(LiveKeys(t.runs)) + multiset(KeyOf(s.runs[i])))[key] == multiset(LiveKeys(s.runs))[key];
      assert Instances(s)[key] <= 1;
    }
    CloseAnchored(s, i, r, tasks);
  }

  lemma CloseAnchored(s: State, i: nat, r: Run, tasks: set<nat>)
    requires Anchored(s) && i < |s.runs| && r.id == s.runs[i].id && r.status != Running
    requires tasks == s.tasks || (tasks == s.tasks - {r.id} && !r.killable)
    requires r.killable ==> s.runs[i].killable
    ensures Anchored(s.(runs := s.runs[i := r], tasks := tasks))
  {
    var t := s.(runs := s.runs[i := r], tasks := tasks);
    forall x | x in t.runs && (x.killable || (x.status == Running && x.agentJob.None?)) ensures x.id in t.tasks {
      var k :| 0 <= k < |t.runs| && t.runs[k] == x;
      assert s.runs[k] in s.runs;
      if k != i {
        assert x.id != r.id;
      }
    }
  }

  lemma SyncedInv(w: World, s: State, i: nat)
    requires Core(w, s) && i < |s.runs|
    ensures Core(w, Synced(w, s, i)) && (NoStall(w, s) ==> NoStall(w, Synced(w, s, i)))
  {
    var r := s.runs[i];
    if r.agentJob.Some? && r.status == Running && !Pending(s.jobs, r.agentJob.value) {
      var ok := r.agentJob.value in s.jobs && s.jobs[r.agentJob.value] == Succeeded;
      var closed := r.(status := if ok then Done else Failed);
      CloseCore(w, s, i, closed, s.tasks);
      assert s.(runs := s.runs[i := closed], tasks := s.tasks) == s.(runs := s.runs[i := closed]);
      DrainedInv(w, s.(runs := s.runs[i := closed]));
    }
  }

  lemma {:induction false} SweptInv(w: World, s: State, i: nat)
    requires Core(w, s) && i <= |s.runs|
    ensures Core(w, Swept(w, s, i)) && (NoStall(w, s) ==> NoStall(w, Swept(w, s, i)))
    decreases |s.runs| + |s.queue| - i
  {
    if i < |s.runs| {
      SyncedInv(w, s, i);
      hide Synced, Core, NoStall;
      SweptInv(w, Synced(w, s, i), i + 1);
    }
  }

  // ---- pruning ----------------------------------------------------------------------------------

  predicate Ascending(runs: seq<Run>) {
    forall i, j :: 0 <= i < j < |runs| ==> runs[i].id < runs[j].id
  }

  /** Removing the finished run at one position. */
  lemma WithoutKeeps(runs: seq<Run>, victim: Run)
    requires Ascending(runs) && victim in runs && victim.status != Running
    ensures LiveKeys(Without(runs, victim.id)) == LiveKeys(runs) && Ascending(Without(runs, victim.id))
    ensures |Without(runs, victim.id)| == |runs| - 1
    ensures forall r :: r in Without(runs, victim.id) <==> r in runs && r != victim
  {
    var i :| 0 <= i < |runs| && runs[i] == victim;
    WithoutAt(runs, i);
    LiveKeysSplit(runs, i);
    LiveKeysConcat(runs[..i], runs[i + 1..]);
    hide *;
    DropAt(runs, i);
  }

  lemma DropAt(runs: seq<Run>, i: nat)
    requires Ascending(runs) && i < |runs|
    ensures Ascending(runs[..i] + runs[i + 1..])
    ensures forall r :: r in runs[..i] + runs[i + 1..] <==> r in runs && r != runs[i]
  {
    var t := runs[..i] + runs[i + 1..];
    forall r ensures r in t <==> r in runs && r != runs[i] {
      if r in runs && r != runs[i] {
        var k :| 0 <= k < |runs| && runs[k] == r;
        assert k < i ==> t[k] == r;
        assert k > i ==> t[k - 1] == r;
      }
    }
  }

  lemma {:induction false} WithoutAt(runs: seq<Run>, i: nat)
    requires Ascending(runs) && i < |runs|
    ensures Without(runs, runs[i].id) == runs[..i] + runs[i + 1..]
  {
    var tail := runs[1..];
    if i == 0 {
      forall r | r in tail ensures r.id != runs[0].id {}
      WithoutNothing(tail, runs[0].id);
    } else {
      WithoutAt(tail, i - 1);
      assert runs[..i] == [runs[0]] + tail[..i - 1] && tail[i..] == runs[i + 1..];
    }
  }

  lemma {:induction false} WithoutNothing(runs: seq<Run>, id: nat)
    requires forall r :: r in runs ==> r.id != id
    ensures Without(runs, id) == runs
  {
    if runs != [] {
      WithoutNothing(runs[1..], id);
    }
  }

  lemma {:induction false} WithoutAllKeeps(runs: seq<Run>, victims: seq<Run>)
    requires Ascending(runs) && Seqs.Distinct(victims)
    requires forall v :: v in victims ==> v in runs && v.status != Running
    ensures LiveKeys(WithoutAll(runs, victims)) == LiveKeys(runs) && Ascending(WithoutAll(runs, victims))
    ensures |WithoutAll(runs, victims)| == |runs| - |victims|
    ensures forall r :: r in WithoutAll(runs, victims) <==> r in runs && r !in victims
    decreases |victims|
  {
    if victims != [] {
      WithoutKeeps(runs, victims[0]);
      WithoutAllKeeps(Without(runs, victims[0].id), victims[1..]);
    }
  }

  lemma {:induction false} FinishedAre(runs: seq<Run>)
    ensures forall r :: r in Finished(runs) <==> r in runs && r.status != Running
    ensures |Finished(runs)| + |LiveKeys(runs)| == |runs|
    ensures Ascending(runs) ==> Seqs.Distinct(Finished(runs))
  {
    if runs != [] {
      FinishedAre(runs[1..]);
    }
  }

  lemma VictimsAre(runs: seq<Run>)
    requires Ascending(runs) && |runs| > MAX_RUN_HISTORY
    ensures |LiveKeys(runs)| <= |runs| && Seqs.Distinct(Victims(runs))
    ensures |Victims(runs)| == Min(|runs| - |LiveKeys(runs)|, |runs| - MAX_RUN_HISTORY)
    ensures forall v :: v in Victims(runs) ==> v in runs && v.status != Running
    ensures forall v, r :: v in Victims(runs) && r in runs && r.status != Running && r !in Victims(runs) ==> v.startedAt <= r.startedAt
  {
    SortedAre(runs);
    var sorted, n := ByStart(Finished(runs)), |Victims(runs)|;
    assert Victims(runs) == sorted[..n];
    assert n == Min(|sorted|, |runs| - MAX_RUN_HISTORY);
    hide *;
    Seqs.DistinctPrefix(sorted, n);
    CutStarted(sorted, n);
  }

  lemma CutStarted(sorted: seq<Run>, n: nat)
    requires n <= |sorted| && Seqs.Sorted(sorted, StartOf)
    ensures forall v :: v in sorted[..n] ==> v in sorted
    ensures forall v, r :: v in sorted[..n] && r in sorted && r !in sorted[..n] ==> v.startedAt <= r.startedAt
  {
    Seqs.CutSorted(sorted, n, StartOf);
    hide *;
  }

  lemma SortedAre(runs: seq<Run>)
    requires Ascending(runs)
    ensures |LiveKeys(runs)| + |ByStart(Finished(runs))| == |runs| && Seqs.Distinct(ByStart(Finished(runs)))
    ensures forall r :: r in ByStart(Finished(runs)) <==> r in runs && r.status != Running
    ensures Seqs.Sorted(ByStart(Finished(runs)), StartOf)
  {
    var finished, sorted := Finished(runs), ByStart(Finished(runs));
    FinishedAre(runs);
    hide LiveKeys, Finished, Ascending;
    Seqs.DistinctSorted(finished, sorted);
    forall r ensures r in sorted <==> r in finished {
      Seqs.SameElements(sorted, finished, r);
    }
  }

  /** Pruning drops only finished runs, the earliest started first, down to the history limit
      or to the live runs; the live ones keep their records and their order. */
  lemma PruneKeepsLive(runs: seq<Run>)
    requires Ascending(runs)
    ensures LiveKeys(Pruned(runs)) == LiveKeys(runs) && Ascending(Pruned(runs))
    ensures forall r :: r in Pruned(runs) ==> r in runs
    ensures forall r :: r in runs && r.status == Running ==> r in Pruned(runs)
    ensures forall d, k :: d in runs && d !in Pruned(runs) && k in Pruned(runs) && k.status != Running ==> d.startedAt <= k.startedAt
    ensures |Pruned(runs)| == if |runs| <= 40 then |runs|
                              else if |LiveKeys(runs)| > 40 then |LiveKeys(runs)| else 40
  {
    if |runs| > MAX_RUN_HISTORY {
      VictimsAre(runs);
      FinishedAre(runs);
      var victims := Victims(runs);
      hide Victims, LiveKeys, Finished;
      WithoutAllKeeps(runs, victims);
    }
  }

  lemma AnchoredSome(s: State, runs: seq<Run>)
    requires Anchored(s) && Ascending(runs) && forall r :: r in runs ==> r in s.runs
    ensures Anchored(s.(runs := runs))
  {
    forall i | 0 <= i < |runs| ensures runs[i].id < s.serial {
      assert runs[i] in s.runs;
    }
  }

  lemma PrunedAnchored(s: State)
    requires Anchored(s)
    ensures LiveKeys(Pruned(s.runs)) == LiveKeys(s.runs) && Anchored(s.(runs := Pruned(s.runs)))
  {
    PruneKeepsLive(s.runs);
    hide Pruned, LiveKeys;
    AnchoredSome(s, Pruned(s.runs));
  }

  // ---- admission ----------------------------------------------------------------------------------

  /** A batch takes each fit and idle id once, in the order of first mention, and no other. */
  lemma {:induction false} AdmittedExactly(s: State, routine: string, ids: seq<string>, fit: string -> bool, seen: set<string>)
    ensures var got := Admitted(s, routine, ids, fit, seen);
            (forall id :: id in got <==> id in ids && id !in seen && fit(id) && !Busy(s, (routine, id))) &&
            forall i, j :: 0 <= i < j < |got| ==> got[i] != got[j]
    decreases |ids|
  {
    hide Busy;
    if ids != [] {
      AdmittedExactly(s, routine, ids[1..], fit, if ids[0] in seen then seen else seen + {ids[0]});
    }
  }

  lemma {:induction false} ItemsKeys(routine: string, ids: seq<string>, batchId: nat)
    ensures forall key :: key in QueueKeys(Items(routine, ids, batchId)) ==> key.0 == routine && key.1 in ids
    ensures (forall i, j :: 0 <= i < j < |ids| ==> ids[i] != ids[j]) ==>
            forall key :: multiset(QueueKeys(Items(routine, ids, batchId)))[key] <= 1
    ensures forall item :: item in Items(routine, ids, batchId) ==> item.routine == routine
  {
    if ids != [] {
      ItemsKeys(routine, ids[1..], batchId);
      var rest := QueueKeys(Items(routine, ids[1..], batchId));
      assert QueueKeys(Items(routine, ids, batchId)) == [(routine, ids[0])] + rest;
      if forall i, j :: 0 <= i < j < |ids| ==> ids[i] != ids[j] {
        assert (routine, ids[0]) !in rest;
      }
    }
  }

  lemma EnqueuedInv(w: World, s: State, items: seq<Item>)
    requires Core(w, s)
    requires forall item :: item in items ==> item.routine == SOURCE_ROUTINE || w.scopeOf(item.routine) == JobScope
    requires forall key :: w.Keyed(key) ==> Instances(s)[key] + multiset(QueueKeys(items))[key] <= 1
    ensures Inv(w, Enqueued(w, s, items))
  {
    var t := s.(queue := s.queue + items, runs := Pruned(s.runs));
    hide Core, Drained, Pruned;
    EnqueuedCore(w, s, items);
    DrainedInv(w, t);
  }

  lemma EnqueuedCore(w: World, s: State, items: seq<Item>)
    requires Core(w, s)
    requires forall item :: item in items ==> item.routine == SOURCE_ROUTINE || w.scopeOf(item.routine) == JobScope
    requires forall key :: w.Keyed(key) ==> Instances(s)[key] + multiset(QueueKeys(items))[key] <= 1
    ensures Core(w, s.(queue := s.queue + items, runs := Pruned(s.runs)))
  {
    var mid, t := s.(runs := Pruned(s.runs)), s.(queue := s.queue + items, runs := Pruned(s.runs));
    PrunedAnchored(s);
    assert Outstanding(t) == Outstanding(s);
    EnqueuedInstances(s, t, items);
    hide LiveKeys, Pruned, QueueKeys, Outstanding, Anchored, Instances;
    AnchoredIgnores(mid, t);
    forall key | w.Keyed(key) ensures Instances(t)[key] <= 1 {
      assert Instances(t)[key] == Instances(s)[key] + multiset(QueueKeys(items))[key];
    }
  }

  lemma EnqueuedInstances(s: State, t: State, items: seq<Item>)
    requires LiveKeys(t.runs) == LiveKeys(s.runs) && t.queue == s.queue + items
    ensures Instances(t) == Instances(s) + multiset(QueueKeys(items))
  {
    QueueKeysConcat(s.queue, items);
    hide LiveKeys, QueueKeys;
  }

  lemma IdleCount(s: State, key: (string, string))
    requires key.1 != "" && !Busy(s, key)
    ensures Instances(s)[key] == 0
  {}

  lemma RunBatchInv(w: World, s: State, routine: string, ids: seq<string>, fit: string -> bool, batchId: nat)
    requires Inv(w, s)
    ensures Inv(w, RunBatch(w, s, routine, ids, fit, batchId))
  {
    if w.scopeOf(routine) == JobScope && ids != [] {
      SweptInv(w, s, 0);
      var t := Swept(w, s, 0);
      AdmittedExactly(t, routine, ids, fit, {});
      var got := Admitted(t, routine, ids, fit, {});
      ItemsKeys(routine, got, batchId);
      var items := Items(routine, got, batchId);
      hide Swept, Admitted, Items, Busy, Enqueued, Core;
      forall key | w.Keyed(key) ensures Instances(t)[key] + multiset(QueueKeys(items))[key] <= 1 {
        CoreOnce(w, t, key);
        if key in QueueKeys(items) {
          IdleCount(t, key);
        } else {
          assert multiset(QueueKeys(items))[key] == 0;
        }
      }
      EnqueuedInv(w, t, items);
    }
  }

  lemma CoreOnce(w: World, s: State, key: (string, string))
    requires Core(w, s) && w.Keyed(key)
    ensures Instances(s)[key] <= 1
  {}

  lemma RunAllDueInv(w: World, s: State, ids: seq<string>, batchId: nat)
    requires Inv(w, s)
    ensures Inv(w, RunAllDue(w, s, ids, batchId))
  {
    var targets := NotQueued(s.queue, ids);
    if targets != [] {
      var items := Items(SOURCE_ROUTINE, targets, batchId);
      ItemsKeys(SOURCE_ROUTINE, targets, batchId);
      hide Items, Enqueued, NotQueued;
      forall key | w.Keyed(key) ensures Instances(s)[key] + multiset(QueueKeys(items))[key] <= 1 {
        CoreOnce(w, s, key);
        assert key !in QueueKeys(items);
      }
      EnqueuedInv(w, s, items);
    }
  }

  // ---- single launches ------------------------------------------------------------------------------

  lemma StartPrunedInv(w: World, s: State, item: Item)
    requires Inv(w, s)
    requires w.Keyed(Key(item)) ==> Instances(s)[Key(item)] == 0
    ensures Inv(w, Started(w, Admit(w, s).(runs := Pruned(s.runs)), item))
  {
    hide LiveKeys, Pruned, Anchored, Started, QueueKeys;
    var t := Admit(w, s).(runs := Pruned(s.runs));
    PrunedAnchored(s);
    AnchoredIgnores(s.(runs := Pruned(s.runs)), t);
    assert Instances(t) == Instances(s);
    StartedCore(w, t, item);
    StartedStall(w, t, item);
  }

  lemma StartedStall(w: World, s: State, item: Item)
    requires NoStall(w, s)
    ensures NoStall(w, Started(w, s, item))
  {
    StartedLive(w, s, item);
    hide LiveKeys;
  }

  lemma RunOneInv(w: World, s: State, item: Item, found: bool)
    requires Inv(w, s)
    ensures Inv(w, RunOne(w, s, item, found))
  {
    SweptInv(w, s, 0);
    var t := Swept(w, s, 0);
    if Judge(w, t, item, found) == Go {
      hide Swept, LiveKeys, Pruned;
      if w.Keyed(Key(item)) {
        IdleCount(t, Key(item));
      }
      StartPrunedInv(w, t, item);
    }
  }

  lemma NotQueuedKind(w: World, s: State, id: string)
    requires w.Valid() && QueueSorts(w, s)
    ensures (PROPOSE_ROUTINE, id) !in QueueKeys(s.queue)
    decreases |s.queue|
  {
    if s.queue != [] {
      assert s.queue[0] in s.queue;
      var rest := s.(queue := s.queue[1..]);
      forall item | item in rest.queue ensures item in s.queue {}
      NotQueuedKind(w, rest, id);
    }
  }

  lemma ProposeInv(w: World, s: State, id: string)
    requires Inv(w, s)
    ensures Inv(w, Propose(w, s, id))
  {
    if !((id != "" && (PROPOSE_ROUTINE, id) in LiveKeys(s.runs)) || |LiveKeys(s.runs)| >= w.max) {
      NotQueuedKind(w, s, id);
      hide LiveKeys, Pruned;
      StartPrunedInv(w, s, Item(PROPOSE_ROUTINE, id, None));
    }
  }

  lemma RunSourceInv(w: World, s: State, id: string)
    requires Inv(w, s)
    ensures Inv(w, RunSource(w, s, id))
  {
    if |LiveKeys(s.runs)| < w.max {
      var item, admitted := Item(SOURCE_ROUTINE, id, None), Admit(w, s);
      AdmittedSame(w, s);
      hide LiveKeys, LaunchedSource, Anchored, Once, QueueSorts, Admit, NoStall;
      if w.later(s.serial) {
        PostedCore(w, admitted, item);
      } else {
        SourceLaunchCore(w, admitted, item);
        SourceStall(w, admitted, item);
      }
    }
  }

  lemma AdmittedSame(w: World, s: State)
    requires Inv(w, s)
    ensures var t := Admit(w, s);
            Anchored(t) && Once(w, t) && QueueSorts(w, t) && NoStall(w, t) && (!t.overbooked ==> Outstanding(t) < w.max) &&
            t.posted == s.posted && t.serial == s.serial
  {
    var t := Admit(w, s);
    assert Instances(t) == Instances(s) && Outstanding(t) == Outstanding(s);
    hide Instances, LiveKeys;
  }

  lemma PostedCore(w: World, s: State, item: Item)
    requires w.Valid() && Anchored(s) && Once(w, s) && QueueSorts(w, s) && NoStall(w, s) && item.routine == SOURCE_ROUTINE
    requires !s.overbooked ==> Outstanding(s) < w.max
    ensures Inv(w, s.(posted := s.posted + [item], serial := s.serial + 1))
  {
    var t := s.(posted := s.posted + [item], serial := s.serial + 1);
    assert Instances(t) == Instances(s);
    hide Instances, LiveKeys;
  }

  lemma SourceStall(w: World, s: State, item: Item)
    requires NoStall(w, s)
    ensures NoStall(w, LaunchedSource(w, s, item))
  {
    if !w.skips(s.serial) {
      hide NoStall, Started;
      StartedStall(w, s, if w.apify(s.serial) then item.(routine := APIFY_ROUTINE) else item);
    }
  }

  // ---- discovery reads that answer later ----------------------------------------------------------------

  lemma FewerKeeps(items: seq<Item>, i: nat)
    requires i < |items|
    ensures forall item :: item in items[..i] + items[i + 1..] ==> item in items
    ensures |items[..i] + items[i + 1..]| == |items| - 1
  {}

  lemma ClaimLandedInv(w: World, s: State, i: nat)
    requires Inv(w, s)
    ensures Inv(w, ClaimLanded(w, s, i))
  {
    if i < |s.claimed| {
      var t := s.(claimed := s.claimed[..i] + s.claimed[i + 1..]);
      FewerKeeps(s.claimed, i);
      assert Instances(t) == Instances(s);
      assert s.claimed[i] in s.claimed;
      hide LaunchedSource, Instances, LiveKeys;
      SourceLaunchCore(w, t, s.claimed[i]);
      hide *;
      DrainedInv(w, LaunchedSource(w, t, s.claimed[i]));
    }
  }

  lemma PostLandedInv(w: World, s: State, i: nat)
    requires Inv(w, s)
    ensures Inv(w, PostLanded(w, s, i))
  {
    if i < |s.posted| {
      var t := s.(posted := s.posted[..i] + s.posted[i + 1..]);
      FewerKeeps(s.posted, i);
      assert Instances(t) == Instances(s);
      assert s.posted[i] in s.posted;
      hide LaunchedSource, Instances, LiveKeys;
      SourceLaunchCore(w, t, s.posted[i]);
      SourceStall(w, t, s.posted[i]);
    }
  }

  // ---- ends and stops ---------------------------------------------------------------------------------

  lemma TaskGoneCore(w: World, s: State, id: nat)
    requires Core(w, s) && forall r :: r in s.runs ==> r.id != id
    ensures Core(w, s.(tasks := s.tasks - {id}))
  {
    assert Instances(s.(tasks := s.tasks - {id})) == Instances(s);
  }

  lemma TaskEndedInv(w: World, s: State, id: nat, ok: bool)
    requires Inv(w, s)
    ensures Inv(w, TaskEnded(w, s, id, ok))
  {
    if id in s.tasks {
      var i := Position(s.runs, id);
      if i == |s.runs| {
        TaskGoneCore(w, s, id);
        DrainedInv(w, s.(tasks := s.tasks - {id}));
      } else {
        var r := s.runs[i];
        var closed := r.(killable := false, status := if r.status != Running then r.status else if ok then Done else Failed);
        CloseCore(w, s, i, closed, s.tasks - {id});
        DrainedInv(w, s.(runs := s.runs[i := closed], tasks := s.tasks - {id}));
      }
    }
  }

  lemma SpawnFailedInv(w: World, s: State, id: nat)
    requires Inv(w, s)
    ensures Inv(w, SpawnFailed(s, id))
  {
    var i := Position(s.runs, id);
    if i < |s.runs| && s.runs[i].killable {
      StopProcess(w, s, i, Failed);
    }
  }

  lemma StopProcess(w: World, s: State, i: nat, status: Status)
    requires Inv(w, s) && i < |s.runs| && s.runs[i].killable && status != Running
    ensures Inv(w, s.(runs := s.runs[i := s.runs[i].(status := status)]))
  {
    var r := s.runs[i].(status := status);
    CloseCore(w, s, i, r, s.tasks);
    assert s.runs[i] in s.runs;
    assert s.(runs := s.runs[i := r], tasks := s.tasks) == s.(runs := s.runs[i := r]);
  }

  lemma CancelInv(w: World, s: State, i: nat, j: nat)
    requires Core(w, s) && i < |s.runs|
    ensures Inv(w, Drained(w, s.(jobs := s.jobs[j := Broken], runs := s.runs[i := s.runs[i].(status := Stopped)])))
  {
    var r := s.runs[i].(status := Stopped);
    CloseCore(w, s, i, r, s.tasks);
    var closed := s.(runs := s.runs[i := r], tasks := s.tasks);
    var t := s.(jobs := s.jobs[j := Broken], runs := s.runs[i := r]);
    assert Instances(t) == Instances(closed);
    DrainedInv(w, t);
  }

  lemma StopAskedInv(w: World, s: State, id: nat)
    requires Inv(w, s)
    ensures Inv(w, StopAsked(w, s, id))
  {
    var i := Position(s.runs, id);
    if i < |s.runs| {
      SyncedInv(w, s, i);
      var t := Synced(w, s, i);
      var r := t.runs[i];
      hide Synced, Core, NoStall;
      if r.agentJob.Some? && r.status == Running {
        if r.agentJob.value in t.jobs && t.jobs[r.agentJob.value] == Waiting {
          CancelInv(w, t, i, r.agentJob.value);
        }
      } else if r.killable {
        StopProcess(w, t, i, Stopped);
      }
    }
  }

  // ---- histories -----------------------------------------------------------------------------------------

  datatype Event =
    | PostRun(item: Item, found: bool)
    | PostBatch(routine: string, ids: seq<string>, fit: string -> bool, batchId: nat)
    | PostSourceRun(source: string)
    | PostRunAllDue(due: seq<string>, batchId: nat)
    | PostPropose(source: string)
    | ClaimAnswers(index: nat)
    | PostAnswers(index: nat)
    | PostStop(id: nat)
    | TaskEnd(id: nat, ok: bool)
    | ProcessError(id: nat)
    | Poll(index: nat)
    | PollAll
    | RunnerMoves(jobs: map<nat, Phase>)

  function Next(w: World, s: State, e: Event): State {
    match e
    case PostRun(item, found) => RunOne(w, s, item, found)
    case PostBatch(routine, ids, fit, batchId) => RunBatch(w, s, routine, ids, fit, batchId)
    case PostSourceRun(source) => RunSource(w, s, source)
    case PostRunAllDue(due, batchId) => RunAllDue(w, s, due, batchId)
    case PostPropose(source) => Propose(w, s, source)
    case ClaimAnswers(index) => ClaimLanded(w, s, index)
    case PostAnswers(index) => PostLanded(w, s, index)
    case PostStop(id) => StopAsked(w, s, id)
    case TaskEnd(id, ok) => TaskEnded(w, s, id, ok)
    case ProcessError(id) => SpawnFailed(s, id)
    case Poll(index) => if index < |s.runs| then Synced(w, s, index) else s
    case PollAll => Swept(w, s, 0)
    case RunnerMoves(jobs) => s.(jobs := jobs)
  }

  function After(w: World, events: seq<Event>): State {
    if events == [] then EMPTY
    else Next(w, After(w, events[..|events| - 1]), events[|events| - 1])
  }

  lemma JobsMovedInv(w: World, s: State, jobs: map<nat, Phase>)
    requires Inv(w, s)
    ensures Inv(w, s.(jobs := jobs))
  {
    assert Instances(s.(jobs := jobs)) == Instances(s);
  }

  lemma NextInv(w: World, s: State, e: Event)
    requires Inv(w, s)
    ensures Inv(w, Next(w, s, e))
  {
    hide Core, NoStall, ClaimLanded, PostLanded, RunOne, RunBatch, RunSource, RunAllDue, Propose, StopAsked, TaskEnded, SpawnFailed, Synced, Swept;
    match e {
      case PostRun(item, found) => RunOneInv(w, s, item, found);
      case PostBatch(routine, ids, fit, batchId) => RunBatchInv(w, s, routine, ids, fit, batchId);
      case PostSourceRun(source) => RunSourceInv(w, s, source);
      case PostRunAllDue(due, batchId) => RunAllDueInv(w, s, due, batchId);
      case PostPropose(source) => ProposeInv(w, s, source);
      case ClaimAnswers(index) => ClaimLandedInv(w, s, index);
      case PostAnswers(index) => PostLandedInv(w, s, index);
      case PostStop(id) => StopAskedInv(w, s, id);
      case TaskEnd(id, ok) => TaskEndedInv(w, s, id, ok);
      case ProcessError(id) => SpawnFailedInv(w, s, id);
      case Poll(index) => if index < |s.runs| { SyncedInv(w, s, index); }
      case PollAll => SweptInv(w, s, 0);
      case RunnerMoves(jobs) => JobsMovedInv(w, s, jobs);
    }
  }

  lemma {:induction false} ReachableInv(w: World, events: seq<Event>)
    requires w.Valid()
    ensures Inv(w, After(w, events))
  {
    if events == [] {
      assert Instances(After(w, [])) == multiset{};
    } else {
      ReachableInv(w, events[..|events| - 1]);
      hide Inv, Next;
      NextInv(w, After(w, events[..|events| - 1]), events[|events| - 1]);
    }
  }

  /** After any history of requests, process ends, runner moves and discovery reads that answer
      at once or at any later time: each keyed (routine, id) is live or queued at most once; a
      promised launch waits beside a free slot that is not claimed only while a task is still to
      end; and if every launch was admitted while live runs and launches under way left room,
      they are within the limit, and so are the live runs. */
  lemma AlwaysSafe(w: World, events: seq<Event>)
    requires w.Valid()
    ensures var s := After(w, events);
            (!s.overbooked ==> |LiveKeys(s.runs)| + |s.claimed| + |s.posted| <= w.max) &&
            (forall key :: w.Keyed(key) ==> multiset(LiveKeys(s.runs))[key] + multiset(QueueKeys(s.queue))[key] <= 1) &&
            (s.queue != [] && |LiveKeys(s.runs)| + |s.claimed| < w.max ==> s.tasks != {}) &&
            forall r :: r in s.runs && r.status == Running && r.agentJob.None? ==> r.id in s.tasks
  {
    ReachableInv(w, events);
    var s := After(w, events);
    hide After;
    forall key | w.Keyed(key) ensures multiset(LiveKeys(s.runs))[key] + multiset(QueueKeys(s.queue))[key] <= 1 {
      assert Instances(s)[key] <= 1;
    }
  }

  // ---- the sweep settles every run -----------------------------------------------------------------------

  /** Of the first n runs, a live one that was handed to the runner has an agent job that may still end. */
  predicate Settled(s: State, n: nat)
    requires n <= |s.runs|
  {
    forall k :: 0 <= k < n ==> s.runs[k].status == Running && s.runs[k].agentJob.Some? ==> Pending(s.jobs, s.runs[k].agentJob.value)
  }

  lemma {:induction false} DrainedSettled(w: World, s: State, n: nat)
    requires n <= |s.runs| && Settled(s, n)
    ensures Settled(Drained(w, s), n)
    decreases |s.queue|
  {
    if HasSlot(w, s) && s.queue != [] {
      var t := LaunchedHead(w, s);
      assert s.runs <= t.runs && Settled(t, n);
      DrainedSettled(w, t, n);
    }
  }

  lemma SyncedSettled(w: World, s: State, i: nat)
    requires i < |s.runs| && Settled(s, i)
    ensures Settled(Synced(w, s, i), i + 1)
  {
    var r := s.runs[i];
    if r.agentJob.Some? && r.status == Running && !Pending(s.jobs, r.agentJob.value) {
      var ok := r.agentJob.value in s.jobs && s.jobs[r.agentJob.value] == Succeeded;
      DrainedSettled(w, s.(runs := s.runs[i := r.(status := if ok then Done else Failed)]), i + 1);
    }
  }

  lemma {:induction false} SweptSettled(w: World, s: State, i: nat)
    requires i <= |s.runs| && Settled(s, i)
    ensures var t := Swept(w, s, i); Settled(t, |t.runs|)
    decreases |s.runs| + |s.queue| - i
  {
    if i < |s.runs| {
      SyncedSettled(w, s, i);
      hide Synced, Settled;
      SweptSettled(w, Synced(w, s, i), i + 1);
    }
  }

  /** Once swept, no guard or count keys off a run whose agent job has ended or vanished,
      not even a run that the sweep itself launched. */
  lemma SweepSettles(w: World, s: State, r: Run)
    requires r in Swept(w, s, 0).runs && r.status == Running && r.agentJob.Some?
    ensures Pending(Swept(w, s, 0).jobs, r.agentJob.value)
  {
    SweptSettled(w, s, 0);
    hide Swept;
  }

  // ---- promised launches ---------------------------------------------------------------------------------

  /** Everything but source launches, which may be skipped or land later. */
  function Plain(items: seq<Item>): seq<Item> {
    if items == [] then []
    else (if items[0].routine == SOURCE_ROUTINE || items[0].routine == APIFY_ROUTINE then [] else [items[0]]) + Plain(items[1..])
  }

  function ItemsOf(runs: seq<Run>): (items: seq<Item>)
    ensures |items| == |runs| && forall i :: 0 <= i < |runs| ==> items[i] == runs[i].item
  {
    if runs == [] then [] else [runs[0].item] + ItemsOf(runs[1..])
  }

  lemma {:induction false} PlainConcat(a: seq<Item>, b: seq<Item>)
    ensures Plain(a + b) == Plain(a) + Plain(b)
  {
    if a == [] {
      assert a + b == b;
    } else {
      assert (a + b)[0] == a[0] && (a + b)[1..] == a[1..] + b;
      PlainConcat(a[1..], b);
    }
  }

  /** A drain takes items from the front of the queue and launches each of them once, in
      their order; only source launches may come later or to nothing. */
  lemma {:induction false} DrainKeepsPromises(w: World, s: State)
    ensures var t := Drained(w, s);
            var n := |s.queue| - |t.queue|;
            t.queue == s.queue[n..] && Plain(ItemsOf(t.runs[|s.runs|..])) == Plain(s.queue[..n])
    decreases |s.queue|
  {
    hide *;
    if HasSlot(w, s) && s.queue != [] {
      var mid := LaunchedHead(w, s);
      LaunchedPlain(w, s);
      DrainStep(w, s);
      LaunchedShorter(w, s);
      DrainKeepsPromises(w, mid);
      var t := Drained(w, s);
      JoinPlain(s.runs, mid.runs, t.runs, s.queue, |s.queue| - |t.queue|);
    } else {
      DrainDone(w, s);
      assert s.runs[|s.runs|..] == [] && ItemsOf(s.runs[|s.runs|..]) == [];
    }
  }

  lemma LaunchedShorter(w: World, s: State)
    requires s.queue != []
    ensures |LaunchedHead(w, s).queue| < |s.queue|
  {}

  lemma JoinPlain(a: seq<Run>, b: seq<Run>, c: seq<Run>, queue: seq<Item>, n: nat)
    requires a <= b <= c && 1 <= n <= |queue|
    requires Plain(ItemsOf(b[|a|..])) == Plain([queue[0]])
    requires Plain(ItemsOf(c[|b|..])) == Plain(queue[1..][..n - 1])
    ensures Plain(ItemsOf(c[|a|..])) == Plain(queue[..n]) && queue[1..][n - 1..] == queue[n..]
  {
    hide Plain, ItemsOf;
    assert queue[..n] == [queue[0]] + queue[1..][..n - 1];
    PlainConcat([queue[0]], queue[1..][..n - 1]);
    var first, more := b[|a|..], c[|b|..];
    assert c[|a|..] == first + more;
    assert ItemsOf(first + more) == ItemsOf(first) + ItemsOf(more);
    PlainConcat(ItemsOf(first), ItemsOf(more));
  }

  lemma LaunchedPlain(w: World, s: State)
    requires s.queue != []
    ensures var t := LaunchedHead(w, s);
            s.runs <= t.runs && t.queue == s.queue[1..] && Plain(ItemsOf(t.runs[|s.runs|..])) == Plain([s.queue[0]])
  {
    var t, item := LaunchedHead(w, s), s.queue[0];
    var rest := Admit(w, s).(queue := s.queue[1..]);
    HeadLaunched(w, s);
    StartedItem(w, rest, item);
    StartedItem(w, rest, item.(routine := APIFY_ROUTINE));
    hide Admit, Started, LaunchedHead;
    if |t.runs| == |s.runs| {
      assert t.runs[|s.runs|..] == [];
    } else {
      assert t.runs[|s.runs|..] == [t.runs[|s.runs|]];
    }
  }

  lemma StartedItem(w: World, s: State, item: Item)
    ensures Started(w, s, item).runs[|s.runs|].item == item
  {}
}
