/** What becomes of a run: which events may change its record and to what, over whole histories
    of the scheduler. */
module RunOutcomes {
  import opened Options
  import opened Scheduler
  import opened SchedulerRuns

  // ---- one event and one record --------------------------------------------------------------

  /** A record as its launch leaves it. */
  predicate AsLaunched(w: World, q: Run) {
    && q.status == (if w.startOf(q.id) == Refused then Failed else Running)
    && q.agentJob == (if w.startOf(q.id) == Routed then Some(q.id) else None)
    && q.killable == (w.startOf(q.id) == Spawned)
    && q.startedAt == w.clock(q.id)
  }

  /** A live run whose agent job ended takes its outcome; one whose job is gone has failed. */
  predicate ByAgentJob(jobs: map<nat, Phase>, r: Run, q: Run) {
    && r.status == Running && r.agentJob == Some(r.id)
    && (if r.id !in jobs then q == r.(status := Failed)
        else (jobs[r.id] == Succeeded && q == r.(status := Done)) || (jobs[r.id] == Broken && q == r.(status := Failed)))
  }

  /** The end of its own process, replay or flow decides a live run and leaves the status of a
      finished one; either way there is nothing more to kill. */
  predicate ByTaskEnd(e: Event, r: Run, q: Run) {
    && e.TaskEnd? && e.id == r.id
    && q == (if r.status != Running then r.(killable := false)
             else if e.ok then r.(killable := false, status := Done) else r.(killable := false, status := Failed))
  }

  predicate ByError(e: Event, r: Run, q: Run) {
    e == ProcessError(r.id) && r.killable && q == r.(status := Failed)
  }

  /** A stop request ends a run that has a process, or whose agent job waits unclaimed. */
  predicate ByStop(e: Event, jobs: map<nat, Phase>, r: Run, q: Run) {
    && e == PostStop(r.id) && q == r.(status := Stopped)
    && (r.killable || (r.status == Running && r.agentJob == Some(r.id) && r.id in jobs && jobs[r.id] == Waiting))
  }

  predicate Moved(e: Event, jobs: map<nat, Phase>, r: Run, q: Run) {
    q == r || ByAgentJob(jobs, r, q) || ByTaskEnd(e, r, q) || ByError(e, r, q) || ByStop(e, jobs, r, q)
  }

  // ---- steps that only launch and sync -----------------------------------------------------------

  /** Ids are older than the serial; a runner job carries the id of its run, which has no process. */
  predicate Sane(s: State) {
    && (forall r :: r in s.runs ==> r.id < s.serial && (r.agentJob.Some? ==> r.agentJob.value == r.id && !r.killable))
    && (forall t :: t in s.tasks ==> t < s.serial)
  }

  predicate JobsAgree(jobs: map<nat, Phase>, jobs': map<nat, Phase>, n: nat) {
    forall j :: 0 <= j < n ==> (j in jobs <==> j in jobs') && (j in jobs ==> jobs[j] == jobs'[j])
  }

  predicate New(w: World, s: State, t: State, q: Run) {
    s.serial <= q.id && AsLaunched(w, q) && (q.agentJob.Some? ==> q.id in t.jobs && t.jobs[q.id] == Waiting)
  }

  predicate Kept(s: State, q: Run) {
    exists r :: r in s.runs && (q == r || ByAgentJob(s.jobs, r, q))
  }

  /** From s to t there were only launches, prunings and syncs. */
  predicate Calm(w: World, s: State, t: State) {
    && s.serial <= t.serial && JobsAgree(s.jobs, t.jobs, s.serial)
    && (forall q :: q in t.runs ==> q.id < t.serial && (New(w, s, t, q) || Kept(s, q)))
    && (forall i :: i in t.tasks ==> i in s.tasks || i >= s.serial)
    && (forall i :: i in t.tasks ==> i < t.serial)
  }

  lemma CalmSame(w: World, s: State, t: State)
    requires Sane(s) && t.serial >= s.serial && t.jobs == s.jobs && t.tasks == s.tasks
    requires forall q :: q in t.runs ==> q in s.runs
    ensures Calm(w, s, t)
  {}

  lemma CalmSane(w: World, s: State, t: State)
    requires Sane(s) && Calm(w, s, t)
    ensures Sane(t)
  {}

  lemma CalmThen(w: World, s: State, t: State, u: State)
    requires Sane(s) && Calm(w, s, t) && Calm(w, t, u)
    ensures Calm(w, s, u)
  {
    forall q | q in u.runs ensures q.id < u.serial && (New(w, s, u, q) || Kept(s, q)) {
      if !New(w, t, u, q) {
        var r :| r in t.runs && (q == r || ByAgentJob(t.jobs, r, q));
        RecordThen(w, s, t, u, r, q);
      }
    }
  }

  lemma RecordThen(w: World, s: State, t: State, u: State, r: Run, q: Run)
    requires Sane(s) && Calm(w, s, t) && Calm(w, t, u) && r in t.runs && (q == r || ByAgentJob(t.jobs, r, q))
    ensures New(w, s, u, q) || Kept(s, q)
  {
    assert r.id < t.serial;
    if New(w, s, t, r) {
      assert r.agentJob.Some? ==> r.agentJob == Some(r.id);
    } else {
      var p :| p in s.runs && (r == p || ByAgentJob(s.jobs, p, r));
      assert p.id < s.serial;
    }
  }

  lemma StartedCalm(w: World, s: State, item: Item)
    requires Sane(s)
    ensures Calm(w, s, Started(w, s, item))
  {
    var t := Started(w, s, item);
    var r := t.runs[|s.runs|];
    assert t.runs == s.runs + [r];
    assert New(w, s, t, r);
    forall q | q in t.runs ensures q.id < t.serial && (New(w, s, t, q) || Kept(s, q)) {
      assert q in s.runs || q == r;
    }
  }

  lemma SourceCalm(w: World, s: State, item: Item)
    requires Sane(s)
    ensures Calm(w, s, LaunchedSource(w, s, item))
  {
    hide Started, Calm;
    if w.skips(s.serial) {
      CalmSame(w, s, s.(serial := s.serial + 1));
    } else {
      StartedCalm(w, s, if w.apify(s.serial) then item.(routine := APIFY_ROUTINE) else item);
    }
  }

  /** The records are the same where runs, jobs, tasks and serial are. */
  predicate SameRecords(s: State, t: State) {
    s.runs == t.runs && s.jobs == t.jobs && s.tasks == t.tasks && s.serial == t.serial
  }

  lemma CalmFrom(w: World, s: State, s': State, t: State)
    requires SameRecords(s, s') && Calm(w, s', t)
    ensures Calm(w, s, t)
  {
    forall q | q in t.runs ensures q.id < t.serial && (New(w, s, t, q) || Kept(s, q)) {
      assert New(w, s', t, q) || Kept(s', q);
    }
  }

  lemma HeadCalm(w: World, s: State)
    requires Sane(s) && s.queue != []
    ensures Calm(w, s, LaunchedHead(w, s))
  {
    var item, rest := s.queue[0], Admit(w, s).(queue := s.queue[1..]);
    assert SameRecords(s, rest) && Sane(rest);
    HeadLaunched(w, s);
    hide Calm, Started, LaunchedSource, LaunchedHead, Sane, Admit;
    if item.routine != SOURCE_ROUTINE {
      StartedCalm(w, rest, item);
    } else if w.later(s.serial) {
      CalmSame(w, rest, rest.(claimed := s.claimed + [item], serial := s.serial + 1));
    } else {
      SourceCalm(w, rest, item);
    }
    CalmFrom(w, s, rest, LaunchedHead(w, s));
  }

  lemma {:induction false} DrainedCalm(w: World, s: State)
    requires Sane(s)
    ensures Calm(w, s, Drained(w, s))
    decreases |s.queue|
  {
    hide Calm, LaunchedHead, Sane;
    if HasSlot(w, s) && s.queue != [] {
      HeadCalm(w, s);
      CalmSane(w, s, LaunchedHead(w, s));
      DrainedCalm(w, LaunchedHead(w, s));
      CalmThen(w, s, LaunchedHead(w, s), Drained(w, s));
    } else {
      CalmSame(w, s, s);
    }
  }

  /** One record replaced by what its agent job made of it. */
  lemma ClosedCalm(w: World, s: State, i: nat, q: Run)
    requires Sane(s) && i < |s.runs| && ByAgentJob(s.jobs, s.runs[i], q)
    ensures Calm(w, s, s.(runs := s.runs[i := q]))
  {
    var t := s.(runs := s.runs[i := q]);
    assert s.runs[i] in s.runs;
    forall x | x in t.runs ensures x.id < t.serial && Kept(s, x) {
      assert x == q || x in s.runs;
    }
  }

  lemma SyncedCalm(w: World, s: State, i: nat)
    requires Sane(s) && i < |s.runs|
    ensures Calm(w, s, Synced(w, s, i))
  {
    var r := s.runs[i];
    assert r in s.runs;
    if r.agentJob.None? || r.status != Running || Pending(s.jobs, r.agentJob.value) {
      CalmSame(w, s, s);
    } else {
      var q := r.(status := if r.id in s.jobs && s.jobs[r.id] == Succeeded then Done else Failed);
      assert ByAgentJob(s.jobs, r, q);
      var t := s.(runs := s.runs[i := q]);
      hide Calm, Drained, Sane;
      ClosedCalm(w, s, i, q);
      CalmSane(w, s, t);
      DrainedCalm(w, t);
      assert r.agentJob.value == r.id;
      CalmThen(w, s, t, Synced(w, s, i));
    }
  }

  lemma {:induction false} SweptCalm(w: World, s: State, i: nat)
    requires Sane(s) && i <= |s.runs|
    ensures Calm(w, s, Swept(w, s, i))
    decreases |s.runs| + |s.queue| - i
  {
    hide Calm, Synced, Sane;
    if i == |s.runs| {
      CalmSame(w, s, s);
    } else {
      SyncedCalm(w, s, i);
      CalmSane(w, s, Synced(w, s, i));
      SweptCalm(w, Synced(w, s, i), i + 1);
      CalmThen(w, s, Synced(w, s, i), Swept(w, s, i));
    }
  }

  lemma PrunedCalm(w: World, s: State, t: State)
    requires Sane(s) && Anchored(s) && t.runs == Pruned(s.runs) && SameRecords(s, t.(runs := s.runs))
    ensures Calm(w, s, t)
  {
    hide Pruned;
    PruneKeepsLive(s.runs);
    CalmSame(w, s, t);
  }

  lemma EnqueuedCalm(w: World, s: State, items: seq<Item>)
    requires Sane(s) && Anchored(s)
    ensures Calm(w, s, Enqueued(w, s, items))
  {
    hide Calm, Drained, Pruned, Sane, Anchored;
    var t := s.(queue := s.queue + items, runs := Pruned(s.runs));
    PrunedCalm(w, s, t);
    CalmSane(w, s, t);
    DrainedCalm(w, t);
    CalmThen(w, s, t, Drained(w, t));
  }

  lemma LaunchCalm(w: World, s: State, item: Item)
    requires Sane(s) && Anchored(s)
    ensures Calm(w, s, Started(w, Admit(w, s).(runs := Pruned(s.runs)), item))
  {
    var t := Admit(w, s).(runs := Pruned(s.runs));
    assert SameRecords(s, t.(runs := s.runs));
    hide Calm, Started, Pruned, Sane, Anchored, Admit;
    PrunedCalm(w, s, t);
    CalmSane(w, s, t);
    StartedCalm(w, t, item);
    CalmThen(w, s, t, Started(w, t, item));
  }

  /** The events that only launch, prune and sync. */
  predicate CalmEvent(e: Event) {
    e.PostRun? || e.PostBatch? || e.PostSourceRun? || e.PostRunAllDue? || e.PostPropose? || e.ClaimAnswers? ||
    e.PostAnswers? || e.Poll? || e.PollAll?
  }

  lemma RequestCalm(w: World, s: State, e: Event)
    requires Sane(s) && Inv(w, s) && (e.PostRun? || e.PostBatch?)
    ensures Calm(w, s, Next(w, s, e))
  {
    hide Calm, Swept, Sane, Pruned, Started, Enqueued, Judge, Admitted, Admit, Core, NoStall;
    var t := Swept(w, s, 0);
    SweptCalm(w, s, 0);
    SweptInv(w, s, 0);
    CalmSane(w, s, t);
    CoreAnchored(w, t);
    CalmSame(w, s, s);
    if e.PostRun? {
      if Judge(w, t, e.item, e.found) == Go {
        LaunchCalm(w, t, e.item);
        CalmThen(w, s, t, Next(w, s, e));
      }
    } else if w.scopeOf(e.routine) == JobScope && e.ids != [] {
      EnqueuedCalm(w, t, Items(e.routine, Admitted(t, e.routine, e.ids, e.fit, {}), e.batchId));
      CalmThen(w, s, t, Next(w, s, e));
    }
  }

  lemma CoreAnchored(w: World, s: State)
    requires Core(w, s)
    ensures Anchored(s)
  {}

  lemma PostedCalm(w: World, s: State, item: Item)
    requires Sane(s)
    ensures Calm(w, s, s) && Calm(w, s, LaunchedSource(w, Admit(w, s), item))
    ensures Calm(w, s, Admit(w, s).(posted := s.posted + [item], serial := s.serial + 1))
  {
    var a := Admit(w, s);
    assert SameRecords(s, a) && Sane(a);
    hide Calm, Sane, LaunchedSource, Admit;
    CalmSame(w, s, s);
    CalmSame(w, a, a.(posted := s.posted + [item], serial := s.serial + 1));
    CalmFrom(w, s, a, a.(posted := s.posted + [item], serial := s.serial + 1));
    SourceCalm(w, a, item);
    CalmFrom(w, s, a, LaunchedSource(w, a, item));
  }

  lemma SourceRequestCalm(w: World, s: State, e: Event)
    requires Sane(s) && Inv(w, s) && (e.PostSourceRun? || e.PostRunAllDue? || e.PostPropose?)
    ensures Calm(w, s, Next(w, s, e))
  {
    CoreAnchored(w, s);
    hide Calm, Sane, Pruned, Started, LaunchedSource, Enqueued, LiveKeys, NotQueued, Items, Core, NoStall, Admit;
    match e {
      case PostSourceRun(source) => PostedCalm(w, s, Item(SOURCE_ROUTINE, source, None));
      case PostRunAllDue(due, batchId) =>
        CalmSame(w, s, s);
        EnqueuedCalm(w, s, Items(SOURCE_ROUTINE, NotQueued(s.queue, due), batchId));
      case PostPropose(source) =>
        CalmSame(w, s, s);
        LaunchCalm(w, s, Item(PROPOSE_ROUTINE, source, None));
    }
  }

  lemma ReadCalm(w: World, s: State, e: Event)
    requires Sane(s) && (e.ClaimAnswers? || e.PostAnswers?)
    ensures Calm(w, s, Next(w, s, e))
  {
    hide Calm, Sane, LaunchedSource, Drained;
    CalmSame(w, s, s);
    match e {
      case ClaimAnswers(i) =>
        if i < |s.claimed| {
          var a := s.(claimed := s.claimed[..i] + s.claimed[i + 1..]);
          RecordsSane(s, a);
          SourceCalm(w, a, s.claimed[i]);
          var t := LaunchedSource(w, a, s.claimed[i]);
          CalmSane(w, a, t);
          DrainedCalm(w, t);
          CalmThen(w, a, t, Drained(w, t));
          CalmFrom(w, s, a, Drained(w, t));
        }
      case PostAnswers(i) =>
        if i < |s.posted| {
          var a := s.(posted := s.posted[..i] + s.posted[i + 1..]);
          RecordsSane(s, a);
          SourceCalm(w, a, s.posted[i]);
          CalmFrom(w, s, a, LaunchedSource(w, a, s.posted[i]));
        }
    }
  }

  lemma RecordsSane(s: State, t: State)
    requires Sane(s) && SameRecords(s, t)
    ensures Sane(t)
  {}

  lemma EventCalm(w: World, s: State, e: Event)
    requires Sane(s) && Inv(w, s) && CalmEvent(e)
    ensures Calm(w, s, Next(w, s, e))
  {
    hide Calm, Sane, Inv, Synced, Swept;
    match e {
      case PostRun(_, _) => RequestCalm(w, s, e);
      case PostBatch(_, _, _, _) => RequestCalm(w, s, e);
      case PostSourceRun(_) => SourceRequestCalm(w, s, e);
      case PostRunAllDue(_, _) => SourceRequestCalm(w, s, e);
      case PostPropose(_) => SourceRequestCalm(w, s, e);
      case ClaimAnswers(_) => ReadCalm(w, s, e);
      case PostAnswers(_) => ReadCalm(w, s, e);
      case Poll(index) =>
        CalmSame(w, s, s);
        if index < |s.runs| {
          SyncedCalm(w, s, index);
        }
      case PollAll => SweptCalm(w, s, 0);
    }
  }

  // ---- every event ---------------------------------------------------------------------------------

  predicate FromBefore(s: State, e: Event, q: Run) {
    exists r :: r in s.runs && Moved(e, s.jobs, r, q)
  }

  /** Every record after the event is a new one as launched, or came from one before it. */
  predicate Explained(w: World, s: State, e: Event, t: State) {
    && s.serial <= t.serial
    && forall q :: q in t.runs ==> (s.serial <= q.id && AsLaunched(w, q)) || FromBefore(s, e, q)
  }

  lemma CalmExplained(w: World, s: State, e: Event, t: State)
    requires Calm(w, s, t)
    ensures Explained(w, s, e, t)
  {
    forall q | q in t.runs ensures (s.serial <= q.id && AsLaunched(w, q)) || FromBefore(s, e, q) {
      if !New(w, s, t, q) {
        assert Kept(s, q);
      }
    }
  }

  /** One record closed by the event, then launches. */
  lemma ClosedThenCalm(w: World, s: State, e: Event, i: nat, q: Run, c: State, t: State)
    requires Sane(s) && Anchored(s) && i < |s.runs| && q.status != Running
    requires Moved(e, s.jobs, s.runs[i], q)
    requires c.runs == s.runs[i := q] && c.serial == s.serial && Calm(w, c, t)
    requires forall j :: j != q.id ==> (j in c.jobs <==> j in s.jobs) && (j in s.jobs ==> c.jobs[j] == s.jobs[j])
    ensures Explained(w, s, e, t)
  {
    assert q.id == s.runs[i].id;
    hide Moved, ByAgentJob, FromBefore, Sane, Anchored;
    forall x | x in t.runs ensures (s.serial <= x.id && AsLaunched(w, x)) || FromBefore(s, e, x) {
      if !New(w, c, t, x) {
        var r :| r in c.runs && (x == r || ByAgentJob(c.jobs, r, x));
        var k :| 0 <= k < |c.runs| && c.runs[k] == r;
        OneClosed(s, e, i, q, c.jobs, k, x);
      }
    }
  }

  lemma OneClosed(s: State, e: Event, i: nat, q: Run, jobs: map<nat, Phase>, k: nat, x: Run)
    requires Sane(s) && Anchored(s) && i < |s.runs| && q.status != Running && q.id == s.runs[i].id
    requires Moved(e, s.jobs, s.runs[i], q) && k < |s.runs|
    requires forall j :: j != q.id ==> (j in jobs <==> j in s.jobs) && (j in s.jobs ==> jobs[j] == s.jobs[j])
    requires x == s.runs[i := q][k] || ByAgentJob(jobs, s.runs[i := q][k], x)
    ensures FromBefore(s, e, x)
  {
    assert s.runs[k] in s.runs;
    if k != i {
      assert s.runs[k].id != q.id;
      assert Moved(e, s.jobs, s.runs[k], x);
    }
  }

  lemma CloseSane(s: State, i: nat, q: Run, c: State)
    requires Sane(s) && i < |s.runs| && c.runs == s.runs[i := q] && c.serial == s.serial && c.tasks <= s.tasks
    requires q.id == s.runs[i].id && q.agentJob == s.runs[i].agentJob && (q.killable ==> s.runs[i].killable)
    ensures Sane(c)
  {
    assert s.runs[i] in s.runs;
    forall r | r in c.runs ensures r.id < c.serial && (r.agentJob.Some? ==> r.agentJob.value == r.id && !r.killable) {
      assert r == q || r in s.runs;
    }
  }

  lemma TaskEndExplained(w: World, s: State, e: Event)
    requires Sane(s) && Anchored(s) && e.TaskEnd?
    ensures Explained(w, s, e, Next(w, s, e)) && Sane(Next(w, s, e))
  {
    var i := Position(s.runs, e.id);
    hide Calm, Drained, Sane, Explained, Anchored;
    if e.id !in s.tasks {
      CalmSame(w, s, s);
      CalmExplained(w, s, e, s);
    } else if i == |s.runs| {
      var c := s.(tasks := s.tasks - {e.id});
      FewerTasks(w, s, c);
      CalmSane(w, s, c);
      DrainedCalm(w, c);
      CalmThen(w, s, c, Drained(w, c));
      CalmSane(w, s, Drained(w, c));
      CalmExplained(w, s, e, Drained(w, c));
    } else {
      var r := s.runs[i];
      var q := r.(killable := false, status := if r.status != Running then r.status else if e.ok then Done else Failed);
      var c := s.(runs := s.runs[i := q], tasks := s.tasks - {e.id});
      assert ByTaskEnd(e, r, q);
      CloseSane(s, i, q, c);
      DrainedCalm(w, c);
      CalmSane(w, c, Drained(w, c));
      ClosedThenCalm(w, s, e, i, q, c, Drained(w, c));
    }
  }

  lemma FewerTasks(w: World, s: State, c: State)
    requires Sane(s) && c.tasks <= s.tasks && SameRecords(s, c.(tasks := s.tasks))
    ensures Calm(w, s, c)
  {}

  lemma ErrorExplained(w: World, s: State, e: Event)
    requires Sane(s) && Anchored(s) && e.ProcessError?
    ensures Explained(w, s, e, Next(w, s, e)) && Sane(Next(w, s, e))
  {
    var i := Position(s.runs, e.id);
    hide Calm, Sane, Explained, Anchored;
    if i == |s.runs| || !s.runs[i].killable {
      CalmSame(w, s, s);
      CalmExplained(w, s, e, s);
    } else {
      var q := s.runs[i].(status := Failed);
      var c := s.(runs := s.runs[i := q]);
      CloseSane(s, i, q, c);
      CalmSame(w, c, c);
      ClosedThenCalm(w, s, e, i, q, c, c);
    }
  }

  /** The record as a stop leaves it, before the queue is drained. */
  function StoppedRun(s: State, i: nat): State
    requires i < |s.runs|
  {
    var r := s.runs[i];
    s.(jobs := if r.agentJob.Some? then s.jobs[r.agentJob.value := Broken] else s.jobs, runs := s.runs[i := r.(status := Stopped)])
  }

  lemma StopIs(w: World, s: State, id: nat)
    requires Sane(s)
    ensures var i := Position(s.runs, id);
            i == |s.runs| ==> StopAsked(w, s, id) == s
    ensures var i := Position(s.runs, id);
            i < |s.runs| ==>
              var t := Synced(w, s, i);
              i < |t.runs| &&
              var r := t.runs[i];
              StopAsked(w, s, id) ==
              if r.agentJob.Some? && r.status == Running then
                if r.agentJob.value in t.jobs && t.jobs[r.agentJob.value] == Waiting then Drained(w, StoppedRun(t, i)) else t
              else if r.killable then t.(runs := t.runs[i := r.(status := Stopped)]) else t
  {
    hide Drained, Synced, Sane;
  }

  lemma StopExplained(w: World, s: State, e: Event)
    requires Sane(s) && Anchored(s) && e.PostStop?
    ensures Explained(w, s, e, Next(w, s, e)) && Sane(Next(w, s, e))
  {
    var i := Position(s.runs, e.id);
    assert Next(w, s, e) == StopAsked(w, s, e.id);
    hide *;
    StopIs(w, s, e.id);
    if i == |s.runs| {
      CalmSame(w, s, s);
      CalmExplained(w, s, e, s);
    } else {
      var t := Synced(w, s, i);
      SyncedCalm(w, s, i);
      SyncedStays(w, s, i);
      CalmExplained(w, s, e, t);
      CalmSane(w, s, t);
      if t.runs[i].agentJob.Some? && t.runs[i].status == Running {
        if t.runs[i].agentJob.value in t.jobs && t.jobs[t.runs[i].agentJob.value] == Waiting {
          CancelExplained(w, s, e, i);
        }
      } else if t.runs[i].killable {
        KillExplained(w, s, e, i);
      }
    }
  }

  lemma CancelExplained(w: World, s: State, e: Event, i: nat)
    requires Sane(s) && Anchored(s) && i < |s.runs| && e == PostStop(s.runs[i].id)
    requires s.runs[i].agentJob == Some(s.runs[i].id) && s.runs[i].status == Running
    requires s.runs[i].id in s.jobs && s.jobs[s.runs[i].id] == Waiting
    ensures Explained(w, s, e, Drained(w, StoppedRun(s, i))) && Sane(Drained(w, StoppedRun(s, i)))
  {
    var q, c := s.runs[i].(status := Stopped), StoppedRun(s, i);
    assert Moved(e, s.jobs, s.runs[i], q);
    hide Calm, Sane, Explained, Anchored, Drained, Moved;
    CloseSane(s, i, q, c);
    DrainedCalm(w, c);
    CalmSane(w, c, Drained(w, c));
    ClosedThenCalm(w, s, e, i, q, c, Drained(w, c));
  }

  lemma KillExplained(w: World, s: State, e: Event, i: nat)
    requires Sane(s) && Anchored(s) && i < |s.runs| && e == PostStop(s.runs[i].id) && s.runs[i].killable
    ensures var c := s.(runs := s.runs[i := s.runs[i].(status := Stopped)]); Explained(w, s, e, c) && Sane(c)
  {
    var q := s.runs[i].(status := Stopped);
    var c := s.(runs := s.runs[i := q]);
    assert Moved(e, s.jobs, s.runs[i], q);
    hide Calm, Sane, Explained, Anchored, Moved;
    CloseSane(s, i, q, c);
    CalmSame(w, c, c);
    ClosedThenCalm(w, s, e, i, q, c, c);
  }

  /** A sync either leaves the state alone or closes its record, which then has nothing to stop. */
  lemma SyncedStays(w: World, s: State, i: nat)
    requires Sane(s) && i < |s.runs|
    ensures var t := Synced(w, s, i);
            i < |t.runs| && t.runs[i].id == s.runs[i].id &&
            (t.runs[i].agentJob.Some? ==> t.runs[i].agentJob == Some(t.runs[i].id)) &&
            (t == s || (t.runs[i].status != Running && !t.runs[i].killable))
  {
    var r := s.runs[i];
    assert r in s.runs;
    if r.agentJob.Some? && r.status == Running && !Pending(s.jobs, r.agentJob.value) {
      var ok := r.agentJob.value in s.jobs && s.jobs[r.agentJob.value] == Succeeded;
      var c := s.(runs := s.runs[i := r.(status := if ok then Done else Failed)]);
      assert c.runs <= Drained(w, c).runs;
    }
  }

  /** What one event may make of the records, in any state that a history reaches. */
  lemma EventExplained(w: World, s: State, e: Event)
    requires Sane(s) && Inv(w, s)
    ensures Explained(w, s, e, Next(w, s, e)) && Sane(Next(w, s, e))
  {
    CoreAnchored(w, s);
    hide Sane, Inv, Explained, Next, Anchored, Calm;
    if CalmEvent(e) {
      EventCalm(w, s, e);
      CalmExplained(w, s, e, Next(w, s, e));
      CalmSane(w, s, Next(w, s, e));
    } else {
      match e {
        case PostStop(_) => StopExplained(w, s, e);
        case TaskEnd(_, _) => TaskEndExplained(w, s, e);
        case ProcessError(_) => ErrorExplained(w, s, e);
        case RunnerMoves(jobs) => JobsMoved(w, s, e);
        case _ =>
      }
    }
  }

  lemma JobsMoved(w: World, s: State, e: Event)
    requires Sane(s) && e.RunnerMoves?
    ensures Explained(w, s, e, Next(w, s, e)) && Sane(Next(w, s, e))
  {
    forall q | q in s.runs ensures FromBefore(s, e, q) {
      assert Moved(e, s.jobs, q, q);
    }
  }

  lemma {:induction false} ReachableSane(w: World, events: seq<Event>)
    requires w.Valid()
    ensures Sane(After(w, events))
  {
    if events != [] {
      ReachableInv(w, events[..|events| - 1]);
      ReachableSane(w, events[..|events| - 1]);
      hide Sane, Inv, Explained, Next;
      EventExplained(w, After(w, events[..|events| - 1]), events[|events| - 1]);
    }
  }

  // ---- whole histories -------------------------------------------------------------------------------

  lemma AfterSnoc(w: World, events: seq<Event>, e: Event)
    ensures After(w, events + [e]) == Next(w, After(w, events), e)
  {
    hide Next;
    assert (events + [e])[..|events|] == events;
  }

  lemma RecordMoves(w: World, events: seq<Event>, e: Event, q: Run)
    requires w.Valid() && q in After(w, events + [e]).runs
    ensures var s := After(w, events);
            (s.serial <= q.id && AsLaunched(w, q)) || exists r :: r in s.runs && Moved(e, s.jobs, r, q)
  {
    AfterSnoc(w, events, e);
    ReachableInv(w, events);
    ReachableSane(w, events);
    hide After, Next, Inv, Sane, AsLaunched, Moved;
    EventExplained(w, After(w, events), e);
  }

  /** Before the k-th event the agent job of the run had ended that way, or was gone. */
  predicate JobEnded(w: World, events: seq<Event>, k: nat, q: Run, good: bool) {
    && k < |events| && q.agentJob == Some(q.id)
    && var jobs := After(w, events[..k]).jobs;
       if good then q.id in jobs && jobs[q.id] == Succeeded else q.id !in jobs || jobs[q.id] == Broken
  }

  ghost predicate Happened(events: seq<Event>, e: Event) {
    exists k :: 0 <= k < |events| && events[k] == e
  }

  ghost predicate JobEndedBefore(w: World, events: seq<Event>, q: Run, good: bool) {
    exists k :: JobEnded(w, events, k, q, good)
  }

  /** What must have happened to a run of that status. */
  ghost predicate Accounted(w: World, events: seq<Event>, q: Run) {
    match q.status
    case Running => true
    case Done => Happened(events, TaskEnd(q.id, true)) || JobEndedBefore(w, events, q, true)
    case Stopped => Happened(events, PostStop(q.id))
    case Failed =>
      w.startOf(q.id) == Refused || Happened(events, TaskEnd(q.id, false)) || Happened(events, ProcessError(q.id)) ||
      JobEndedBefore(w, events, q, false)
  }

  lemma HappenedLater(events: seq<Event>, more: seq<Event>, e: Event)
    ensures Happened(events, e) ==> Happened(events + more, e)
    ensures Happened(events + [e], e)
  {
    if Happened(events, e) {
      var k :| 0 <= k < |events| && events[k] == e;
      assert (events + more)[k] == e;
    }
    assert (events + [e])[|events|] == e;
  }

  lemma JobEndedLater(w: World, events: seq<Event>, e: Event, r: Run, q: Run, good: bool)
    requires q.id == r.id && q.agentJob == r.agentJob
    ensures JobEndedBefore(w, events, r, good) ==> JobEndedBefore(w, events + [e], q, good)
  {
    hide After;
    if JobEndedBefore(w, events, r, good) {
      var k: nat :| JobEnded(w, events, k, r, good);
      assert (events + [e])[..k] == events[..k];
      assert JobEnded(w, events + [e], k, q, good);
    }
  }

  lemma AccountedLater(w: World, events: seq<Event>, e: Event, r: Run, q: Run)
    requires Accounted(w, events, r) && q.id == r.id && q.agentJob == r.agentJob && q.status == r.status
    ensures Accounted(w, events + [e], q)
  {
    hide Happened, JobEndedBefore;
    HappenedLater(events, [e], TaskEnd(q.id, true));
    HappenedLater(events, [e], TaskEnd(q.id, false));
    HappenedLater(events, [e], ProcessError(q.id));
    HappenedLater(events, [e], PostStop(q.id));
    JobEndedLater(w, events, e, r, q, true);
    JobEndedLater(w, events, e, r, q, false);
  }

  lemma JobEndedNow(w: World, events: seq<Event>, e: Event, r: Run, q: Run)
    requires ByAgentJob(After(w, events).jobs, r, q)
    ensures Accounted(w, events + [e], q)
  {
    hide After;
    assert (events + [e])[..|events|] == events;
    assert JobEnded(w, events + [e], |events|, q, q.status == Done);
  }

  lemma AccountedStep(w: World, events: seq<Event>, e: Event, r: Run, q: Run)
    requires Accounted(w, events, r) && Moved(e, After(w, events).jobs, r, q)
    ensures Accounted(w, events + [e], q)
  {
    hide Happened, JobEndedBefore, After, Accounted;
    if q.status == r.status {
      AccountedLater(w, events, e, r, q);
    } else {
      HappenedLater(events, [e], e);
      if ByAgentJob(After(w, events).jobs, r, q) {
        JobEndedNow(w, events, e, r, q);
      } else {
        EventAccounts(w, events + [e], e, r, q);
      }
    }
  }

  lemma EventAccounts(w: World, events: seq<Event>, e: Event, r: Run, q: Run)
    requires Happened(events, e) && q.status != r.status
    requires ByTaskEnd(e, r, q) || ByError(e, r, q) || (q == r.(status := Stopped) && e == PostStop(r.id))
    ensures Accounted(w, events, q)
  {
    hide Happened, JobEndedBefore;
    assert e.TaskEnd? ==> e == TaskEnd(q.id, e.ok);
  }

  /** Over every history, how a run ended says what happened: done only if its task ended ok or
      its agent job succeeded, stopped only on request, failed only if it could not be launched,
      its task ended badly or reported an error, or its agent job broke or was gone. */
  lemma {:induction false} OutcomesAreEarned(w: World, events: seq<Event>, q: Run)
    requires w.Valid() && q in After(w, events).runs
    ensures Accounted(w, events, q)
    decreases |events|
  {
    if events != [] {
      var past, e := events[..|events| - 1], events[|events| - 1];
      assert events == past + [e];
      RecordMoves(w, past, e, q);
      hide After, Accounted, Moved;
      var s := After(w, past);
      if !(s.serial <= q.id && AsLaunched(w, q)) {
        var r :| r in s.runs && Moved(e, s.jobs, r, q);
        OutcomesAreEarned(w, past, r);
        AccountedStep(w, past, e, r, q);
      } else {
        LaunchAccounted(w, events, q);
      }
    }
  }

  lemma LaunchAccounted(w: World, events: seq<Event>, q: Run)
    requires AsLaunched(w, q)
    ensures Accounted(w, events, q)
  {}

  lemma SameId(s: State, r: Run, q: Run)
    requires Anchored(s) && r in s.runs && q in s.runs && r.id == q.id
    ensures r == q
  {
    var i :| 0 <= i < |s.runs| && s.runs[i] == r;
    var k :| 0 <= k < |s.runs| && s.runs[k] == q;
  }

  /** A finished run whose process has closed keeps its record for as long as it has one. */
  lemma {:induction false} EndedForGood(w: World, events: seq<Event>, k: nat, r: Run, q: Run)
    requires w.Valid() && k <= |events| && r in After(w, events[..k]).runs && q in After(w, events).runs
    requires r.id == q.id && r.status != Running && !r.killable
    ensures q == r
    decreases |events|
  {
    hide *;
    Cut(events, k);
    if k == |events| {
      ReachableInv(w, events);
      InvAnchored(w, After(w, events));
      SameId(After(w, events), r, q);
    } else {
      var past, e := events[..|events| - 1], events[|events| - 1];
      IdsAreOld(w, past, k, r);
      var p := Before(w, past, e, q);
      EndedForGood(w, past, k, r, p);
      NothingMoves(e, After(w, past).jobs, p, q);
    }
  }

  lemma Cut(events: seq<Event>, k: nat)
    requires k <= |events|
    ensures k == |events| ==> events[..k] == events
    ensures k < |events| ==> var n := |events| - 1; events == events[..n] + [events[n]] && events[..n][..k] == events[..k]
  {}

  lemma Before(w: World, events: seq<Event>, e: Event, q: Run) returns (p: Run)
    requires w.Valid() && q in After(w, events + [e]).runs && q.id < After(w, events).serial
    ensures p in After(w, events).runs && p.id == q.id && Moved(e, After(w, events).jobs, p, q)
  {
    RecordMoves(w, events, e, q);
    hide *;
    p :| p in After(w, events).runs && Moved(e, After(w, events).jobs, p, q);
    MovedId(e, After(w, events).jobs, p, q);
  }

  lemma InvAnchored(w: World, s: State)
    requires Inv(w, s)
    ensures Anchored(s)
  {}

  lemma MovedId(e: Event, jobs: map<nat, Phase>, p: Run, q: Run)
    requires Moved(e, jobs, p, q)
    ensures p.id == q.id
  {}

  lemma NothingMoves(e: Event, jobs: map<nat, Phase>, p: Run, q: Run)
    requires Moved(e, jobs, p, q) && p.status != Running && !p.killable
    ensures q == p
  {}

  lemma IdsAreOld(w: World, events: seq<Event>, k: nat, r: Run)
    requires w.Valid() && k <= |events| && r in After(w, events[..k]).runs
    ensures r.id < After(w, events).serial
  {
    SerialGrows(w, events, k);
    ReachableSane(w, events[..k]);
  }

  lemma {:induction false} SerialGrows(w: World, events: seq<Event>, k: nat)
    requires w.Valid() && k <= |events|
    ensures After(w, events[..k]).serial <= After(w, events).serial
    decreases |events|
  {
    if k == |events| {
      assert events[..k] == events;
    } else {
      var past, e := events[..|events| - 1], events[|events| - 1];
      assert past[..k] == events[..k];
      SerialGrows(w, past, k);
      ReachableInv(w, past);
      ReachableSane(w, past);
      hide Sane, Inv, Next;
      EventExplained(w, After(w, past), e);
    }
  }

  // ---- and it does end so ---------------------------------------------------------------------------

  /** A live run of the server's own is done if its task ends well and has failed otherwise. */
  lemma TaskEndDecides(w: World, events: seq<Event>, r: Run, ok: bool)
    requires w.Valid() && r in After(w, events).runs && r.status == Running && r.agentJob.None?
    ensures r.(killable := false, status := if ok then Done else Failed) in After(w, events + [TaskEnd(r.id, ok)]).runs
    ensures r.id !in After(w, events + [TaskEnd(r.id, ok)]).tasks
  {
    AfterSnoc(w, events, TaskEnd(r.id, ok));
    ReachableInv(w, events);
    ReachableSane(w, events);
    hide After, Sane;
    TaskEndCloses(w, After(w, events), r, ok);
  }

  lemma TaskEndCloses(w: World, s: State, r: Run, ok: bool)
    requires Sane(s) && Inv(w, s) && r in s.runs && r.status == Running && r.agentJob.None?
    ensures r.(killable := false, status := if ok then Done else Failed) in TaskEnded(w, s, r.id, ok).runs
    ensures r.id !in TaskEnded(w, s, r.id, ok).tasks
  {
    InvAnchored(w, s);
    assert r.id in s.tasks && r.id < s.serial;
    var i := Position(s.runs, r.id);
    hide Inv, Drained, Sane, Calm;
    SameId(s, r, s.runs[i]);
    var q := r.(killable := false, status := if ok then Done else Failed);
    var c := s.(runs := s.runs[i := q], tasks := s.tasks - {r.id});
    hide Anchored;
    CloseSane(s, i, q, c);
    DrainedCalm(w, c);
    CalmTasks(w, c, Drained(w, c));
    PrefixHas(c.runs, Drained(w, c).runs, i);
  }

  lemma CalmTasks(w: World, s: State, t: State)
    requires Calm(w, s, t)
    ensures forall i :: i in t.tasks ==> i in s.tasks || i >= s.serial
  {}

  lemma PrefixHas(a: seq<Run>, b: seq<Run>, i: nat)
    requires i < |a| && a <= b
    ensures a[i] in b
  {
    assert b[i] == a[i];
  }

  /** A stop request is honoured for a run with a process and for one whose agent job waits
      unclaimed, which is then broken; a claimed one keeps its record. */
  lemma StopDecides(w: World, events: seq<Event>, r: Run)
    requires w.Valid() && r in After(w, events).runs
    ensures var s := After(w, events);
            var t := After(w, events + [PostStop(r.id)]);
            && (r.killable ==> r.(status := Stopped) in t.runs)
            && (r.status == Running && r.agentJob.Some? && r.id in s.jobs && s.jobs[r.id] == Waiting ==>
                  r.(status := Stopped) in t.runs && r.id in t.jobs && t.jobs[r.id] == Broken)
            && (r.status == Running && r.agentJob.Some? && r.id in s.jobs && s.jobs[r.id] == Held ==> t == s)
  {
    AfterSnoc(w, events, PostStop(r.id));
    ReachableInv(w, events);
    ReachableSane(w, events);
    hide After;
    var s := After(w, events);
    CoreAnchored(w, s);
    var i := Position(s.runs, r.id);
    SameId(s, r, s.runs[i]);
    var q := r.(status := Stopped);
    if r.killable {
      assert s.runs[i := q][i] == q;
    } else if r.status == Running && r.agentJob.Some? && r.id in s.jobs && s.jobs[r.id] == Waiting {
      var c := s.(jobs := s.jobs[r.id := Broken], runs := s.runs[i := q]);
      hide Drained, Sane, Anchored;
      CloseSane(s, i, q, c);
      DrainedCalm(w, c);
      assert c.runs <= Drained(w, c).runs && c.runs[i] == q;
      assert Drained(w, c).runs[i] == q;
    }
  }

  lemma SyncedKeepsId(w: World, s: State, i: nat, k: nat)
    requires i < |s.runs| && k < |s.runs|
    ensures k < |Synced(w, s, i).runs| && Synced(w, s, i).runs[k].id == s.runs[k].id
  {
    var r := s.runs[i];
    if r.agentJob.Some? && r.status == Running && !Pending(s.jobs, r.agentJob.value) {
      var ok := r.agentJob.value in s.jobs && s.jobs[r.agentJob.value] == Succeeded;
      var c := s.(runs := s.runs[i := r.(status := if ok then Done else Failed)]);
      assert c.runs <= Drained(w, c).runs && c.runs[k].id == s.runs[k].id;
    }
  }

  lemma {:induction false} SweptKeepsId(w: World, s: State, i: nat, k: nat)
    requires i <= |s.runs| && k < |s.runs|
    ensures k < |Swept(w, s, i).runs| && Swept(w, s, i).runs[k].id == s.runs[k].id
    decreases |s.runs| + |s.queue| - i
  {
    hide Synced;
    if i < |s.runs| {
      SyncedKeepsId(w, s, i, k);
      SweptKeepsId(w, Synced(w, s, i), i + 1, k);
    }
  }

  lemma SweptRecord(w: World, s: State, r: Run)
    requires Sane(s) && Anchored(s) && r in s.runs && r.status == Running && r.agentJob.Some? && !Pending(s.jobs, r.id)
    ensures exists q :: q in Swept(w, s, 0).runs && ByAgentJob(s.jobs, r, q)
  {
    var k :| 0 <= k < |s.runs| && s.runs[k] == r;
    var t := Swept(w, s, 0);
    SweptKeepsId(w, s, 0, k);
    SweptCalm(w, s, 0);
    hide Swept, Anchored, ByAgentJob;
    var q := t.runs[k];
    assert q in t.runs && Kept(s, q);
    var p :| p in s.runs && (q == p || ByAgentJob(s.jobs, p, q));
    AgentJobId(s.jobs, p, q);
    SameId(s, p, r);
    assert JobsAgree(s.jobs, t.jobs, s.serial);
    if q == r {
      SweepSettles(w, s, q);
    }
  }

  lemma AgentJobId(jobs: map<nat, Phase>, p: Run, q: Run)
    requires q == p || ByAgentJob(jobs, p, q)
    ensures q.id == p.id
  {}

  /** Whoever looks at all runs finds that a run whose agent job succeeded is done, and one whose
      job broke or is gone has failed. */
  lemma JobEndDecides(w: World, events: seq<Event>, r: Run)
    requires w.Valid() && r in After(w, events).runs && r.status == Running && r.agentJob.Some?
    ensures var (s, t) := (After(w, events), After(w, events + [PollAll]));
            && (r.id in s.jobs && s.jobs[r.id] == Succeeded ==> r.(status := Done) in t.runs)
            && (r.id !in s.jobs || s.jobs[r.id] == Broken ==> r.(status := Failed) in t.runs)
  {
    AfterSnoc(w, events, PollAll);
    ReachableInv(w, events);
    ReachableSane(w, events);
    hide *;
    SweepCloses(w, After(w, events), r);
    SweepIs(w, After(w, events));
  }

  lemma SweepIs(w: World, s: State)
    ensures Next(w, s, PollAll) == Swept(w, s, 0)
  {}

  lemma SweepCloses(w: World, s: State, r: Run)
    requires Sane(s) && Inv(w, s) && r in s.runs && r.status == Running && r.agentJob.Some?
    ensures r.id in s.jobs && s.jobs[r.id] == Succeeded ==> r.(status := Done) in Swept(w, s, 0).runs
    ensures r.id !in s.jobs || s.jobs[r.id] == Broken ==> r.(status := Failed) in Swept(w, s, 0).runs
  {
    InvAnchored(w, s);
    hide Inv, Sane, Anchored, Swept;
    if !Pending(s.jobs, r.id) {
      SweptRecord(w, s, r);
    }
  }

  // ---- who is asked in, and who is turned away ---------------------------------------------------------

  predicate LiveAt(runs: seq<Run>, i: nat, key: (string, string)) {
    i < |runs| && runs[i].status == Running && (runs[i].item.routine, runs[i].item.scopeId) == key
  }

  predicate WaitingAt(queue: seq<Item>, i: nat, key: (string, string)) {
    i < |queue| && (queue[i].routine, queue[i].scopeId) == key
  }

  function LivePositions(runs: seq<Run>): set<nat> {
    set i: nat | i < |runs| && runs[i].status == Running
  }

  /** The live keys are those of the records with status running, one for each of them. */
  lemma {:induction false} LiveKeysAre(runs: seq<Run>)
    ensures |LiveKeys(runs)| == |LivePositions(runs)|
    ensures forall key :: key in LiveKeys(runs) <==> exists i :: LiveAt(runs, i, key)
  {
    if runs != [] {
      var n := |runs| - 1;
      var front, last := runs[..n], runs[n];
      LiveKeysAre(front);
      assert runs == front + [last];
      LiveKeysConcat(front, [last]);
      assert LiveKeys([last]) == KeyOf(last);
      hide LiveKeys, LiveAt, KeyOf;
      PositionsSnoc(runs);
      forall key ensures key in LiveKeys(runs) <==> exists i :: LiveAt(runs, i, key) {
        LiveAtSnoc(runs, key);
      }
    }
  }

  lemma PositionsSnoc(runs: seq<Run>)
    requires runs != []
    ensures var n := |runs| - 1; |LivePositions(runs)| == |LivePositions(runs[..n])| + |KeyOf(runs[n])|
  {
    var n := |runs| - 1;
    assert LivePositions(runs) == LivePositions(runs[..n]) + (if runs[n].status == Running then {n} else {});
  }

  lemma LiveAtSnoc(runs: seq<Run>, key: (string, string))
    requires runs != []
    ensures var n := |runs| - 1;
            (exists i :: LiveAt(runs, i, key)) <==> (exists i :: LiveAt(runs[..n], i, key)) || key in KeyOf(runs[n])
  {
    var n := |runs| - 1;
    assert forall i :: LiveAt(runs[..n], i, key) ==> LiveAt(runs, i, key);
    assert forall i :: LiveAt(runs, i, key) ==> LiveAt(runs[..n], i, key) || i == n;
    assert LiveAt(runs, n, key) <==> key in KeyOf(runs[n]);
  }

  lemma {:induction false} QueueKeysAre(queue: seq<Item>)
    ensures forall key :: key in QueueKeys(queue) <==> exists i :: WaitingAt(queue, i, key)
  {
    if queue != [] {
      var n := |queue| - 1;
      var front, last := queue[..n], queue[n];
      QueueKeysAre(front);
      assert queue == front + [last];
      QueueKeysConcat(front, [last]);
      assert QueueKeys([last]) == [Key(last)];
      hide QueueKeys;
      forall key ensures key in QueueKeys(queue) <==> exists i :: WaitingAt(queue, i, key) {
        assert forall i :: WaitingAt(front, i, key) ==> WaitingAt(queue, i, key);
        assert forall i :: WaitingAt(queue, i, key) ==> WaitingAt(front, i, key) || i == n;
        assert WaitingAt(queue, n, key) <==> key == Key(last);
      }
    }
  }

  /** The same routine and id is live or queued. */
  ghost predicate Taken(s: State, item: Item) {
    item.scopeId != "" &&
    ((exists i :: LiveAt(s.runs, i, (item.routine, item.scopeId))) || (exists i :: WaitingAt(s.queue, i, (item.routine, item.scopeId))))
  }

  /** A request for one run is answered by the first of these that applies, whatever the state:
      a routine that is not started this way or an id that is missing; an id that names nothing;
      the same run live or queued; no room among the live runs; and otherwise it starts. */
  lemma VerdictExactly(w: World, s: State, item: Item, found: bool)
    ensures var v := Judge(w, s, item, found);
            var kind := w.scopeOf(item.routine);
            var bad := kind == SourceScope || item.routine == "discover-jobs" || (kind != GlobalScope && item.scopeId == "");
            var lost := item.scopeId != "" && !found;
            var taken := kind != GlobalScope && Taken(s, item);
            var full := |LivePositions(s.runs)| >= w.max;
            && (v == BadRequest <==> bad)
            && (v == NotFound <==> !bad && lost)
            && (v == Conflict <==> !bad && !lost && taken)
            && (v == TooMany <==> !bad && !lost && !taken && full)
            && (v == Go <==> !bad && !lost && !taken && !full)
  {
    LiveKeysAre(s.runs);
    QueueKeysAre(s.queue);
    hide LiveKeys, QueueKeys, LivePositions, LiveAt, WaitingAt;
  }

  lemma {:induction false} DueConcat(queue: seq<Item>, ids: seq<string>, more: seq<string>)
    ensures NotQueued(queue, ids + more) == NotQueued(queue, ids) + NotQueued(queue, more)
  {
    hide QueueKeys;
    if ids == [] {
      assert ids + more == more;
    } else {
      DueConcat(queue, ids[1..], more);
      assert (ids + more)[0] == ids[0] && (ids + more)[1..] == ids[1..] + more;
    }
  }

  /** Of the due sources exactly those join the queue that do not wait in it, in their order. */
  lemma DueExactly(queue: seq<Item>, ids: seq<string>, more: seq<string>, id: string)
    ensures NotQueued(queue, ids + more) == NotQueued(queue, ids) + NotQueued(queue, more)
    ensures NotQueued(queue, [id]) == if exists i :: WaitingAt(queue, i, (SOURCE_ROUTINE, id)) then [] else [id]
  {
    DueConcat(queue, ids, more);
    QueueKeysAre(queue);
    hide QueueKeys, WaitingAt;
    assert [id][1..] == [] && NotQueued(queue, []) == [];
  }

  function FirstMention(ids: seq<string>, id: string): (i: nat)
    ensures i <= |ids| && (i < |ids| ==> ids[i] == id) && forall k :: 0 <= k < i ==> ids[k] != id
  {
    if ids == [] || ids[0] == id then 0 else 1 + FirstMention(ids[1..], id)
  }

  /** A batch keeps the order in which its ids were first named. */
  lemma {:induction false} AdmittedInOrder(s: State, routine: string, ids: seq<string>, fit: string -> bool, seen: set<string>)
    ensures var got := Admitted(s, routine, ids, fit, seen);
            forall i, j :: 0 <= i < j < |got| ==> FirstMention(ids, got[i]) < FirstMention(ids, got[j])
    decreases |ids|
  {
    if ids != [] {
      var seen' := if ids[0] in seen then seen else seen + {ids[0]};
      AdmittedInOrder(s, routine, ids[1..], fit, seen');
      AdmittedExactly(s, routine, ids[1..], fit, seen');
      hide Busy, FirstMention;
      var rest := Admitted(s, routine, ids[1..], fit, seen');
      forall id | id in rest ensures FirstMention(ids, id) == 1 + FirstMention(ids[1..], id) {
        MentionedLater(ids, id);
      }
      MentionedFirst(ids);
    }
  }

  lemma MentionedLater(ids: seq<string>, id: string)
    requires ids != [] && id != ids[0]
    ensures FirstMention(ids, id) == 1 + FirstMention(ids[1..], id)
  {}

  lemma MentionedFirst(ids: seq<string>)
    requires ids != []
    ensures FirstMention(ids, ids[0]) == 0
  {}
}
