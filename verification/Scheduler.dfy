/** The run scheduler: an insertion-ordered map of runs, a queue of promised launches,
    and `processQueue`, which a synchronous source launch re-enters.

    What a launch does (spawn, replay, hand to the runner queue, fail), whether a source
    launch is skipped and whether its discovery read answers at once or later come from a
    World, read at a serial number that also mints run ids. "Live" means what the code
    counts: a record whose status is running. */
module Scheduler {
  import opened Options
  import Seqs

  const MAX_RUN_HISTORY: nat := 40
  const SOURCE_ROUTINE := "discover-jobs-source"
  const APIFY_ROUTINE := "discover-jobs-apify"
  const PROPOSE_ROUTINE := "propose-instructions"
  const RETIRED_ROUTINE := "discover-jobs"

  datatype Scope = JobScope | TicketScope | GlobalScope | SourceScope

  datatype Status = Running | Done | Failed | Stopped

  /** An agent-job row as far as a run cares: queued, claimed or running, done, failed or dead. */
  datatype Phase = Waiting | Held | Succeeded | Broken

  datatype Item = Item(routine: string, scopeId: string, batchId: Option<nat>)

  datatype Run = Run(id: nat, item: Item, status: Status, agentJob: Option<nat>, killable: bool, startedAt: nat)

  /** A spawned process, a timed replay or server-side flow, a runner job, or a failure to launch. */
  datatype Start = Spawned | Replayed | Routed | Refused

  datatype World = World(max: nat, scopeOf: string -> Scope, startOf: nat -> Start, clock: nat -> nat,
                         later: nat -> bool, skips: nat -> bool, apify: nat -> bool)
  {
    predicate Valid() {
      scopeOf(SOURCE_ROUTINE) == scopeOf(APIFY_ROUTINE) == scopeOf(PROPOSE_ROUTINE) == SourceScope
    }

    /** The (routine, id) pairs that are meant to be live or queued at most once. */
    predicate Keyed(key: (string, string)) {
      key.1 != "" && (scopeOf(key.0) == JobScope || scopeOf(key.0) == TicketScope || key.0 == PROPOSE_ROUTINE)
    }
  }

  /** `claimed` holds the source items that left the queue, each with a slot, and `posted` the
      source launches of requests, while their discovery reads are under way; `tasks` the runs
      whose process, replay or flow has not ended yet. `overbooked` records that some launch was
      admitted although the live runs and the launches under way filled the limit. */
  datatype State = State(runs: seq<Run>, queue: seq<Item>, claimed: seq<Item>, posted: seq<Item>,
                         jobs: map<nat, Phase>, tasks: set<nat>, serial: nat, overbooked: bool)

  const EMPTY := State([], [], [], [], map[], {}, 0, false)

  // ---- reading the state ---------------------------------------------------------------

  function Key(item: Item): (string, string) {
    (item.routine, item.scopeId)
  }

  function LiveKeys(runs: seq<Run>): (keys: seq<(string, string)>) {
    if runs == [] then []
    else (if runs[0].status == Running then [Key(runs[0].item)] else []) + LiveKeys(runs[1..])
  }

  function QueueKeys(queue: seq<Item>): (keys: seq<(string, string)>) {
    if queue == [] then [] else [Key(queue[0])] + QueueKeys(queue[1..])
  }

  predicate Busy(s: State, key: (string, string)) {
    key.1 != "" && (key in LiveKeys(s.runs) || key in QueueKeys(s.queue))
  }

  /** The position of the run with this id, or the number of runs. */
  function Position(runs: seq<Run>, id: nat): (i: nat)
    ensures i <= |runs| && (i < |runs| ==> runs[i].id == id)
    ensures i == |runs| ==> forall k :: 0 <= k < |runs| ==> runs[k].id != id
  {
    if runs == [] || runs[0].id == id then 0 else 1 + Position(runs[1..], id)
  }

  // ---- launching -----------------------------------------------------------------------

  function Started(w: World, s: State, item: Item): (t: State)
    ensures t.queue == s.queue && t.claimed == s.claimed && t.posted == s.posted && t.overbooked == s.overbooked
    ensures s.runs <= t.runs && |t.runs| == |s.runs| + 1
  {
    var run := Run(s.serial, item, Running, None, false, w.clock(s.serial));
    var next := s.(serial := s.serial + 1);
    match w.startOf(s.serial)
    case Spawned => next.(runs := s.runs + [run.(killable := true)], tasks := s.tasks + {s.serial})
    case Replayed => next.(runs := s.runs + [run], tasks := s.tasks + {s.serial})
    case Routed => next.(runs := s.runs + [run.(agentJob := Some(s.serial))], jobs := s.jobs[s.serial := Waiting])
    case Refused => next.(runs := s.runs + [run.(status := Failed)])
  }

  function LaunchedSource(w: World, s: State, item: Item): (t: State)
    ensures t.queue == s.queue && t.claimed == s.claimed && t.posted == s.posted && t.overbooked == s.overbooked
    ensures s.runs <= t.runs && |t.runs| <= |s.runs| + 1
  {
    if w.skips(s.serial) then s.(serial := s.serial + 1)
    else Started(w, s, if w.apify(s.serial) then item.(routine := APIFY_ROUTINE) else item)
  }

  /** The live runs and the launches that may still come up. */
  function Outstanding(s: State): nat {
    |LiveKeys(s.runs)| + |s.claimed| + |s.posted|
  }

  function Admit(w: World, s: State): State {
    s.(overbooked := s.overbooked || Outstanding(s) >= w.max)
  }

  function LaunchedHead(w: World, s: State): (t: State)
    requires s.queue != []
    ensures t.queue == s.queue[1..] && s.runs <= t.runs && |t.runs| <= |s.runs| + 1
  {
    var item, rest := s.queue[0], Admit(w, s).(queue := s.queue[1..]);
    if item.routine != SOURCE_ROUTINE then Started(w, rest, item)
    else if w.later(s.serial) then rest.(claimed := s.claimed + [item], serial := s.serial + 1)
    else LaunchedSource(w, rest, item)
  }

  predicate HasSlot(w: World, s: State) {
    |LiveKeys(s.runs)| + |s.claimed| < w.max
  }

  /** The flat drain: launch the head while a slot is free. */
  function Drained(w: World, s: State): (t: State)
    ensures !HasSlot(w, t) || t.queue == []
    ensures |t.queue| <= |s.queue| && |t.runs| + |t.queue| <= |s.runs| + |s.queue|
    ensures s.runs <= t.runs
    decreases |s.queue|
  {
    if HasSlot(w, s) && s.queue != [] then Drained(w, LaunchedHead(w, s)) else s
  }

  /** The read of a claimed source answers: its launch lands or is skipped, the slot is given
      back, and the queue drained. */
  function ClaimLanded(w: World, s: State, i: nat): State {
    if i >= |s.claimed| then s
    else Drained(w, LaunchedSource(w, s.(claimed := s.claimed[..i] + s.claimed[i + 1..]), s.claimed[i]))
  }

  function PostLanded(w: World, s: State, i: nat): State {
    if i >= |s.posted| then s
    else LaunchedSource(w, s.(posted := s.posted[..i] + s.posted[i + 1..]), s.posted[i])
  }

  // ---- pruning -------------------------------------------------------------------------

  function Finished(runs: seq<Run>): (done: seq<Run>) {
    if runs == [] then [] else (if runs[0].status != Running then [runs[0]] else []) + Finished(runs[1..])
  }

  function Without(runs: seq<Run>, id: nat): seq<Run> {
    if runs == [] then [] else (if runs[0].id != id then [runs[0]] else []) + Without(runs[1..], id)
  }

  function WithoutAll(runs: seq<Run>, victims: seq<Run>): seq<Run>
    decreases |victims|
  {
    if victims == [] then runs else WithoutAll(Without(runs, victims[0].id), victims[1..])
  }

  function Min(a: nat, b: nat): nat { if a < b then a else b }

  function StartOf(r: Run): int { r.startedAt }

  function ByStart(runs: seq<Run>): (sorted: seq<Run>) {
    Seqs.SortBy(runs, StartOf)
  }

  function Victims(runs: seq<Run>): seq<Run>
    requires |runs| > MAX_RUN_HISTORY
  {
    var finished := ByStart(Finished(runs));
    finished[..Min(|finished|, |runs| - MAX_RUN_HISTORY)]
  }

  function Pruned(runs: seq<Run>): seq<Run> {
    if |runs| <= MAX_RUN_HISTORY then runs else WithoutAll(runs, Victims(runs))
  }

  // ---- runner-routed runs --------------------------------------------------------------

  predicate Pending(jobs: map<nat, Phase>, j: nat) {
    j in jobs && (jobs[j] == Waiting || jobs[j] == Held)
  }

  /** A run whose agent job ended or vanished takes the outcome and kicks the queue. */
  function Synced(w: World, s: State, i: nat): (t: State)
    requires i < |s.runs|
    ensures |s.runs| <= |t.runs| && |t.runs| + |t.queue| <= |s.runs| + |s.queue|
  {
    var r := s.runs[i];
    if r.agentJob.None? || r.status != Running || Pending(s.jobs, r.agentJob.value) then s
    else
      var ok := r.agentJob.value in s.jobs && s.jobs[r.agentJob.value] == Succeeded;
      Drained(w, s.(runs := s.runs[i := r.(status := if ok then Done else Failed)]))
  }

  /** Every run is visited, those that the sweep itself launches included. */
  function Swept(w: World, s: State, i: nat): (t: State)
    requires i <= |s.runs|
    decreases |s.runs| + |s.queue| - i
  {
    if i == |s.runs| then s else Swept(w, Synced(w, s, i), i + 1)
  }

  // ---- what the endpoints and callbacks do ---------------------------------------------

  datatype Verdict = Go | BadRequest | NotFound | Conflict | TooMany

  function Judge(w: World, s: State, item: Item, found: bool): Verdict {
    var scope := w.scopeOf(item.routine);
    if scope == SourceScope || item.routine == RETIRED_ROUTINE then BadRequest
    else if scope != GlobalScope && item.scopeId == "" then BadRequest
    else if item.scopeId != "" && !found then NotFound
    else if scope != GlobalScope && Busy(s, Key(item)) then Conflict
    else if |LiveKeys(s.runs)| >= w.max then TooMany
    else Go
  }

  function RunOne(w: World, s: State, item: Item, found: bool): State {
    var swept := Swept(w, s, 0);
    if Judge(w, swept, item, found) == Go then Started(w, Admit(w, swept).(runs := Pruned(swept.runs)), item) else swept
  }

  /** The ids a batch accepts: the first mention of each, if it is fit and not busy. */
  function Admitted(s: State, routine: string, ids: seq<string>, fit: string -> bool, seen: set<string>): seq<string>
    decreases |ids|
  {
    if ids == [] then []
    else if ids[0] in seen then Admitted(s, routine, ids[1..], fit, seen)
    else (if fit(ids[0]) && !Busy(s, (routine, ids[0])) then [ids[0]] else []) +
         Admitted(s, routine, ids[1..], fit, seen + {ids[0]})
  }

  function Items(routine: string, ids: seq<string>, batchId: nat): (items: seq<Item>)
    ensures |items| == |ids| && forall i :: 0 <= i < |ids| ==> items[i] == Item(routine, ids[i], Some(batchId))
  {
    if ids == [] then [] else [Item(routine, ids[0], Some(batchId))] + Items(routine, ids[1..], batchId)
  }

  function Enqueued(w: World, s: State, items: seq<Item>): State {
    Drained(w, s.(queue := s.queue + items, runs := Pruned(s.runs)))
  }

  function RunBatch(w: World, s: State, routine: string, ids: seq<string>, fit: string -> bool, batchId: nat): State {
    if w.scopeOf(routine) != JobScope || ids == [] then s
    else
      var swept := Swept(w, s, 0);
      Enqueued(w, swept, Items(routine, Admitted(swept, routine, ids, fit, {}), batchId))
  }

  function RunSource(w: World, s: State, id: string): State {
    var item := Item(SOURCE_ROUTINE, id, None);
    if |LiveKeys(s.runs)| >= w.max then s
    else if w.later(s.serial) then Admit(w, s).(posted := s.posted + [item], serial := s.serial + 1)
    else LaunchedSource(w, Admit(w, s), item)
  }

  /** The due sources that are not queued already. */
  function NotQueued(queue: seq<Item>, ids: seq<string>): seq<string> {
    if ids == [] then []
    else (if (SOURCE_ROUTINE, ids[0]) in QueueKeys(queue) then [] else [ids[0]]) + NotQueued(queue, ids[1..])
  }

  function RunAllDue(w: World, s: State, ids: seq<string>, batchId: nat): State {
    var targets := NotQueued(s.queue, ids);
    if targets == [] then s else Enqueued(w, s, Items(SOURCE_ROUTINE, targets, batchId))
  }

  function Propose(w: World, s: State, id: string): State {
    if (id != "" && (PROPOSE_ROUTINE, id) in LiveKeys(s.runs)) || |LiveKeys(s.runs)| >= w.max then s
    else Started(w, Admit(w, s).(runs := Pruned(s.runs)), Item(PROPOSE_ROUTINE, id, None))
  }

  /** A process closed, a replay finished or a flow ended: the run may already be pruned. */
  function TaskEnded(w: World, s: State, id: nat, ok: bool): State {
    if id !in s.tasks then s
    else
      var i := Position(s.runs, id);
      var runs :=
        if i == |s.runs| then s.runs
        else
          var r := s.runs[i];
          s.runs[i := r.(killable := false, status := if r.status != Running then r.status else if ok then Done else Failed)];
      Drained(w, s.(runs := runs, tasks := s.tasks - {id}))
  }

  /** The process reported an error: the status flips, the close is still to come. */
  function SpawnFailed(s: State, id: nat): State {
    var i := Position(s.runs, id);
    if i == |s.runs| || !s.runs[i].killable then s else s.(runs := s.runs[i := s.runs[i].(status := Failed)])
  }

  function StopAsked(w: World, s: State, id: nat): State {
    var i := Position(s.runs, id);
    if i == |s.runs| then s
    else
      var t := Synced(w, s, i);
      var r := t.runs[i];
      if r.agentJob.Some? && r.status == Running then
        if r.agentJob.value in t.jobs && t.jobs[r.agentJob.value] == Waiting then
          Drained(w, t.(jobs := t.jobs[r.agentJob.value := Broken], runs := t.runs[i := r.(status := Stopped)]))
        else t
      else if r.killable then t.(runs := t.runs[i := r.(status := Stopped)])
      else t
  }

  // ---- the server ----------------------------------------------------------------------

  class Server {
    const w: World
    var runs: seq<Run>
    var queue: seq<Item>
    var pendingSourceLaunches: nat
    var claimed: seq<Item>
    var posted: seq<Item>
    var jobs: map<nat, Phase>
    var tasks: set<nat>
    var serial: nat
    ghost var overbooked: bool

    ghost function Now(): State
      reads this
    {
      State(runs, queue, claimed, posted, jobs, tasks, serial, overbooked)
    }

    /** The counter is the number of claimed slots. */
    ghost predicate Valid()
      reads this
    {
      pendingSourceLaunches == |claimed|
    }

    constructor (w: World)
      ensures this.w == w && Now() == EMPTY && Valid()
    {
      this.w := w;
      runs, queue, pendingSourceLaunches, claimed, posted, jobs, tasks, serial := [], [], 0, [], [], map[], {}, 0;
      overbooked := false;
    }

    method RunningCount() returns (n: nat)
      ensures n == |LiveKeys(runs)|
    {
      n := 0;
      for i := 0 to |runs|
        invariant n + |LiveKeys(runs[i..])| == |LiveKeys(runs)|
      {
        assert runs[i..][0] == runs[i] && runs[i..][1..] == runs[i + 1..];
        if runs[i].status == Running {
          n := n + 1;
        }
      }
    }

    method ActiveRunFor(routine: string, scopeId: string) returns (active: bool)
      ensures active <==> scopeId != "" && (routine, scopeId) in LiveKeys(runs)
    {
      if scopeId == "" {
        return false;
      }
      for i := 0 to |runs|
        invariant (routine, scopeId) in LiveKeys(runs) <==> (routine, scopeId) in LiveKeys(runs[i..])
      {
        assert runs[i..][0] == runs[i] && runs[i..][1..] == runs[i + 1..];
        if runs[i].item.routine == routine && runs[i].status == Running && runs[i].item.scopeId == scopeId {
          return true;
        }
      }
      return false;
    }

    method HasPendingOrActiveRun(routine: string, scopeId: string) returns (busy: bool)
      ensures busy == Busy(Now(), (routine, scopeId))
    {
      if scopeId == "" {
        return false;
      }
      busy := ActiveRunFor(routine, scopeId);
      if busy {
        return;
      }
      for i := 0 to |queue|
        invariant !busy
        invariant (routine, scopeId) in QueueKeys(queue) <==> (routine, scopeId) in QueueKeys(queue[i..])
      {
        assert queue[i..][0] == queue[i] && queue[i..][1..] == queue[i + 1..];
        if queue[i].routine == routine && queue[i].scopeId == scopeId {
          return true;
        }
      }
    }

    method PruneRuns()
      modifies this
      ensures Now() == old(Now()).(runs := Pruned(old(runs))) && pendingSourceLaunches == old(pendingSourceLaunches)
    {
      if |runs| <= MAX_RUN_HISTORY {
        return;
      }
      var victims := Victims(runs);
      var i := 0;
      while i < |victims|
        invariant i <= |victims|
        invariant Now() == old(Now()).(runs := runs) && pendingSourceLaunches == old(pendingSourceLaunches)
        invariant WithoutAll(runs, victims[i..]) == WithoutAll(old(runs), victims)
      {
        assert victims[i..][0] == victims[i] && victims[i..][1..] == victims[i + 1..];
        runs := Without(runs, victims[i].id);
        i := i + 1;
      }
    }

    method StartRun(item: Item) returns (status: Status)
      modifies this
      ensures Now() == Started(w, old(Now()), item) && pendingSourceLaunches == old(pendingSourceLaunches)
      ensures runs != [] && status == runs[|runs| - 1].status
    {
      var run := Run(serial, item, Running, None, false, w.clock(serial));
      match w.startOf(serial) {
        case Spawned =>
          run := run.(killable := true);
          tasks := tasks + {serial};
        case Replayed =>
          tasks := tasks + {serial};
        case Routed =>
          run := run.(agentJob := Some(serial));
          jobs := jobs[serial := Waiting];
        case Refused =>
          run := run.(status := Failed);
      }
      runs := runs + [run];
      serial := serial + 1;
      status := run.status;
    }

    /** The start of a source launch: the answer of its discovery read is awaited, or at hand. */
    method LaunchSourceRun(item: Item, fromQueue: bool)
      requires pendingSourceLaunches == |claimed| + if fromQueue then 1 else 0
      modifies this
      ensures Valid()
      ensures var s := old(Now());
              Now() == if w.later(s.serial) then
                         if fromQueue then s.(claimed := s.claimed + [item], serial := s.serial + 1)
                         else s.(posted := s.posted + [item], serial := s.serial + 1)
                       else if fromQueue then Drained(w, LaunchedSource(w, s, item)) else LaunchedSource(w, s, item)
      decreases |queue|, 2
    {
      hide Drained, LaunchedSource;
      if !w.later(serial) {
        FinishSourceRun(item, fromQueue);
      } else {
        serial := serial + 1;
        if fromQueue {
          claimed := claimed + [item];
        } else {
          posted := posted + [item];
        }
      }
    }

    /** The rest of a source launch. When the queue asked for it, it gives back the claimed slot
        and drains the queue, from inside the drain if the read answered at once. */
    method FinishSourceRun(item: Item, fromQueue: bool)
      requires pendingSourceLaunches == |claimed| + if fromQueue then 1 else 0
      modifies this
      ensures Valid()
      ensures var t := LaunchedSource(w, old(Now()), item); Now() == if fromQueue then Drained(w, t) else t
      decreases |queue|, 1
    {
      hide Drained;
      if w.skips(serial) {
        serial := serial + 1;
      } else {
        var _ := StartRun(if w.apify(serial) then item.(routine := APIFY_ROUTINE) else item);
      }
      if fromQueue {
        pendingSourceLaunches := pendingSourceLaunches - 1;
        ProcessQueue();
      }
    }

    method ProcessQueue()
      requires Valid()
      modifies this
      ensures Now() == Drained(w, old(Now())) && Valid()
      decreases |queue|, 0
    {
      hide Drained, Started, LaunchedSource, LaunchedHead, LiveKeys, Outstanding;
      var live := RunningCount();
      while live + pendingSourceLaunches < w.max && queue != []
        invariant live == |LiveKeys(runs)| && Valid()
        invariant |queue| <= old(|queue|)
        invariant Drained(w, Now()) == Drained(w, old(Now()))
        decreases |queue|
      {
        ghost var before := Now();
        DrainStep(w, before);
        HeadLaunched(w, before);
        overbooked := overbooked || Outstanding(before) >= w.max;
        var item := queue[0];
        queue := queue[1..];
        assert Now() == Admit(w, before).(queue := before.queue[1..]);
        if item.routine == SOURCE_ROUTINE {
          pendingSourceLaunches := pendingSourceLaunches + 1;
          LaunchSourceRun(item, true);
          DrainedTwice(w, LaunchedHead(w, before));
        } else {
          var _ := StartRun(item);
        }
        live := RunningCount();
      }
      DrainDone(w, Now());
    }

    /** The discovery read of a launch that was waiting answers. */
    method OnDiscoveryRead(i: nat, fromQueue: bool)
      requires Valid() && i < if fromQueue then |claimed| else |posted|
      modifies this
      ensures Now() == (if fromQueue then ClaimLanded(w, old(Now()), i) else PostLanded(w, old(Now()), i)) && Valid()
    {
      hide Drained;
      if fromQueue {
        var item := claimed[i];
        claimed := claimed[..i] + claimed[i + 1..];
        FinishSourceRun(item, true);
      } else {
        var item := posted[i];
        posted := posted[..i] + posted[i + 1..];
        FinishSourceRun(item, false);
      }
    }

    method SyncRunnerRoutedRun(i: nat)
      requires i < |runs| && Valid()
      modifies this
      ensures Now() == Synced(w, old(Now()), i) && Valid()
    {
      var r := runs[i];
      if r.agentJob.None? || r.status != Running {
        return;
      }
      var j := r.agentJob.value;
      if j in jobs && (jobs[j] == Waiting || jobs[j] == Held) {
        return;
      }
      var ok := j in jobs && jobs[j] == Succeeded;
      runs := runs[i := r.(status := if ok then Done else Failed)];
      ProcessQueue();
    }

    method ReconcileRunnerRoutedRuns()
      requires Valid()
      modifies this
      ensures Now() == Swept(w, old(Now()), 0) && Valid()
    {
      hide Synced;
      var i := 0;
      while i < |runs|
        invariant i <= |runs| && Valid()
        invariant Swept(w, Now(), i) == Swept(w, old(Now()), 0)
        decreases |runs| + |queue| - i
      {
        SyncRunnerRoutedRun(i);
        i := i + 1;
      }
    }

    method PostRun(routine: string, scopeId: string, found: bool) returns (answer: Verdict, status: Option<Status>)
      requires Valid()
      modifies this
      ensures Now() == RunOne(w, old(Now()), Item(routine, scopeId, None), found) && Valid()
      ensures answer == Judge(w, Swept(w, old(Now()), 0), Item(routine, scopeId, None), found)
      ensures (answer == Go <==> status.Some?) && (answer == Go ==> runs != [] && status.value == runs[|runs| - 1].status)
    {
      hide Started, Pruned, Swept, LiveKeys, Outstanding;
      status := None;
      ReconcileRunnerRoutedRuns();
      var scope := w.scopeOf(routine);
      if scope == SourceScope || routine == RETIRED_ROUTINE || (scope != GlobalScope && scopeId == "") {
        return BadRequest, None;
      }
      if scopeId != "" && !found {
        return NotFound, None;
      }
      var busy := HasPendingOrActiveRun(routine, scopeId);
      if scope != GlobalScope && busy {
        return Conflict, None;
      }
      var live := RunningCount();
      if live >= w.max {
        return TooMany, None;
      }
      overbooked := overbooked || Outstanding(Now()) >= w.max;
      PruneRuns();
      var started := StartRun(Item(routine, scopeId, None));
      return Go, Some(started);
    }

    method AdmitIds(routine: string, ids: seq<string>, fit: string -> bool) returns (valid: seq<string>)
      ensures valid == Admitted(Now(), routine, ids, fit, {})
    {
      hide Busy, Admitted;
      valid := [];
      var seen := {};
      AdmitNone(Now(), routine, fit, {});
      for i := 0 to |ids|
        invariant valid + Admitted(Now(), routine, ids[i..], fit, seen) == Admitted(Now(), routine, ids, fit, {})
      {
        AdmitStep(Now(), routine, ids, i, fit, seen, valid);
        if ids[i] !in seen {
          seen := seen + {ids[i]};
          var busy := HasPendingOrActiveRun(routine, ids[i]);
          if fit(ids[i]) && !busy {
            valid := valid + [ids[i]];
          }
        }
      }
      assert ids[|ids|..] == [];
      AdmitNone(Now(), routine, fit, seen);
    }

    method PostBatch(routine: string, ids: seq<string>, fit: string -> bool, batchId: nat) returns (total: nat)
      requires Valid()
      modifies this
      ensures Now() == RunBatch(w, old(Now()), routine, ids, fit, batchId) && Valid()
      ensures w.scopeOf(routine) == JobScope ==> total == |Admitted(Swept(w, old(Now()), 0), routine, ids, fit, {})|
    {
      if w.scopeOf(routine) != JobScope || ids == [] {
        return 0;
      }
      ReconcileRunnerRoutedRuns();
      hide Swept, Drained, Pruned, Admitted, Items;
      var valid := AdmitIds(routine, ids, fit);
      total := |valid|;
      PushAll(Items(routine, valid, batchId));
      PruneRuns();
      ProcessQueue();
    }

    method PushAll(items: seq<Item>)
      modifies this
      ensures Now() == old(Now()).(queue := old(queue) + items) && pendingSourceLaunches == old(pendingSourceLaunches)
    {
      for i := 0 to |items|
        invariant Now() == old(Now()).(queue := old(queue) + items[..i]) && pendingSourceLaunches == old(pendingSourceLaunches)
      {
        queue := queue + [items[i]];
        assert items[..i] + [items[i]] == items[..i + 1];
      }
      assert items[..|items|] == items;
    }

    method PostSourceRun(id: string)
      requires Valid()
      modifies this
      ensures Now() == RunSource(w, old(Now()), id) && Valid()
    {
      var live := RunningCount();
      if live < w.max {
        overbooked := overbooked || Outstanding(Now()) >= w.max;
        LaunchSourceRun(Item(SOURCE_ROUTINE, id, None), false);
      }
    }

    method PostRunAllDue(ids: seq<string>, batchId: nat)
      requires Valid()
      modifies this
      ensures Now() == RunAllDue(w, old(Now()), ids, batchId) && Valid()
    {
      var targets := NotQueued(queue, ids);
      if targets != [] {
        PushAll(Items(SOURCE_ROUTINE, targets, batchId));
        PruneRuns();
        ProcessQueue();
      }
    }

    method PostPropose(id: string)
      requires Valid()
      modifies this
      ensures Now() == Propose(w, old(Now()), id) && Valid()
    {
      hide Started, LiveKeys, Pruned, Outstanding;
      var active := ActiveRunFor(PROPOSE_ROUTINE, id);
      var live := RunningCount();
      if !active && live < w.max {
        overbooked := overbooked || Outstanding(Now()) >= w.max;
        PruneRuns();
        var _ := StartRun(Item(PROPOSE_ROUTINE, id, None));
      }
    }

    method OnTaskEnd(id: nat, ok: bool)
      requires Valid()
      modifies this
      ensures Now() == TaskEnded(w, old(Now()), id, ok) && Valid()
    {
      if id in tasks {
        var i := Position(runs, id);
        if i < |runs| {
          var r := runs[i];
          runs := runs[i := r.(killable := false, status := if r.status != Running then r.status else if ok then Done else Failed)];
        }
        tasks := tasks - {id};
        ProcessQueue();
      }
    }

    method PostStop(id: nat)
      requires Valid()
      modifies this
      ensures Now() == StopAsked(w, old(Now()), id) && Valid()
    {
      var i := Position(runs, id);
      if i == |runs| {
        return;
      }
      SyncRunnerRoutedRun(i);
      var r := runs[i];
      if r.agentJob.Some? && r.status == Running {
        if r.agentJob.value in jobs && jobs[r.agentJob.value] == Waiting {
          jobs := jobs[r.agentJob.value := Broken];
          runs := runs[i := r.(status := Stopped)];
          ProcessQueue();
        }
      } else if r.killable {
        runs := runs[i := r.(status := Stopped)];
      }
    }
  }

  lemma AdmitNone(s: State, routine: string, fit: string -> bool, seen: set<string>)
    ensures Admitted(s, routine, [], fit, seen) == []
  {}

  lemma AdmitStep(s: State, routine: string, ids: seq<string>, i: nat, fit: string -> bool, seen: set<string>, valid: seq<string>)
    requires i < |ids|
    ensures valid + Admitted(s, routine, ids[i..], fit, seen) ==
            if ids[i] in seen then valid + Admitted(s, routine, ids[i + 1..], fit, seen)
            else (if fit(ids[i]) && !Busy(s, (routine, ids[i])) then valid + [ids[i]] else valid) +
                 Admitted(s, routine, ids[i + 1..], fit, seen + {ids[i]})
  {
    hide Busy;
    assert ids[i..][0] == ids[i] && ids[i..][1..] == ids[i + 1..];
    Seqs.Assoc(valid, [ids[i]], Admitted(s, routine, ids[i + 1..], fit, seen + {ids[i]}));
  }

  lemma HeadLaunched(w: World, s: State)
    requires s.queue != []
    ensures var item, rest := s.queue[0], Admit(w, s).(queue := s.queue[1..]);
            LaunchedHead(w, s) == if item.routine != SOURCE_ROUTINE then Started(w, rest, item)
                                  else if w.later(s.serial) then rest.(claimed := s.claimed + [item], serial := s.serial + 1)
                                  else LaunchedSource(w, rest, item)
  {
    hide Started, LaunchedSource, Outstanding;
  }

  lemma DrainStep(w: World, s: State)
    requires HasSlot(w, s) && s.queue != []
    ensures Drained(w, s) == Drained(w, LaunchedHead(w, s))
  {}

  lemma DrainDone(w: World, s: State)
    requires !HasSlot(w, s) || s.queue == []
    ensures Drained(w, s) == s
  {}

  lemma DrainedTwice(w: World, s: State)
    ensures Drained(w, Drained(w, s)) == Drained(w, s)
  {
    var t := Drained(w, s);
    assert !HasSlot(w, t) || t.queue == [];
  }
}
