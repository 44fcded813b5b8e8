/** What every run of the runner queue keeps, stated over the log of what happened to
    leases: the queue refines a per-job life cycle, and the life cycle accepts each
    job's result at most once. */
module AgentQueueHistory {
  import opened Options
  import opened AgentQueue
  import Seqs

  // ---- the life cycle of one job ----------------------------------------------

  datatype Phase =
    | Waiting(attempts: nat)
    | Leased(runner: string, nonce: Nonce, attempts: nat)
    | Closed

  datatype Event =
    | Enqueued(id: string)
    | Granted(id: string, runner: string, nonce: Nonce)
    | Lapsed(id: string, dead: bool)
    | Accepted(id: string, runner: string, nonce: Nonce)
    | Canceled(id: string)

  type Phases = map<string, Phase>

  /** The only moments at which each event may happen. */
  predicate Permitted(m: Phases, e: Event) {
    match e
    case Enqueued(id) => id !in m
    case Granted(id, _, _) => id in m && m[id].Waiting? && m[id].attempts < MAX_ATTEMPTS
    case Lapsed(id, dead) => id in m && m[id].Leased? && (dead <==> m[id].attempts >= MAX_ATTEMPTS)
    case Accepted(id, runner, nonce) => id in m && m[id].Leased? && m[id].runner == runner && m[id].nonce == nonce
    case Canceled(id) => id in m && m[id].Waiting?
  }

  function After(m: Phases, e: Event): Phase
    requires Permitted(m, e)
  {
    match e
    case Enqueued(_) => Waiting(0)
    case Granted(id, runner, nonce) => Leased(runner, nonce, m[id].attempts + 1)
    case Lapsed(id, dead) => if dead then Closed else Waiting(m[id].attempts)
    case Accepted(_, _, _) => Closed
    case Canceled(_) => Closed
  }

  predicate FreshNonce(log: seq<Event>, nonce: Nonce) {
    forall e :: e in log && e.Granted? ==> e.nonce != nonce
  }

  /** Every event was permitted when it happened, and every claim minted a new nonce. */
  predicate Legal(log: seq<Event>)
    decreases |log|, 0
  {
    log == [] ||
    var (past, e) := (log[..|log| - 1], log[|log| - 1]);
    Legal(past) && Permitted(Replay(past), e) && (e.Granted? ==> FreshNonce(past, e.nonce))
  }

  function Replay(log: seq<Event>): Phases
    requires Legal(log)
    decreases |log|, 1
  {
    if log == [] then map[]
    else
      var (past, e) := (log[..|log| - 1], log[|log| - 1]);
      var m := Replay(past);
      m[e.id := After(m, e)]
  }

  lemma LegalSnoc(log: seq<Event>, e: Event)
    requires Legal(log) && Permitted(Replay(log), e) && (e.Granted? ==> FreshNonce(log, e.nonce))
    ensures Legal(log + [e]) && Replay(log + [e]) == Replay(log)[e.id := After(Replay(log), e)]
  {
    assert (log + [e])[..|log|] == log;
  }

  lemma {:induction false} LegalPrefix(log: seq<Event>, k: nat)
    requires Legal(log) && k <= |log|
    ensures Legal(log[..k])
    decreases |log|
  {
    if k < |log| {
      LegalPrefix(log[..|log| - 1], k);
      assert log[..|log| - 1][..k] == log[..k];
    } else {
      assert log[..k] == log;
    }
  }

  // ---- what a legal log says ------------------------------------------------------

  /** The claim at `c` gave `id` to `runner` with `nonce`, and nothing happened to the job
      between `c` and `k`. */
  predicate LatestClaim(log: seq<Event>, c: nat, k: nat, id: string, runner: string, nonce: Nonce) {
    c < k <= |log| && log[c] == Granted(id, runner, nonce) && forall m :: c < m < k ==> log[m].id != id
  }

  lemma {:induction false} LeaseHasClaim(log: seq<Event>, id: string) returns (c: nat)
    requires Legal(log) && id in Replay(log) && Replay(log)[id].Leased?
    ensures LatestClaim(log, c, |log|, id, Replay(log)[id].runner, Replay(log)[id].nonce)
    decreases |log|
  {
    var n := |log| - 1;
    if log[n].id == id {
      c := n;
    } else {
      c := LeaseHasClaim(log[..n], id);
      assert forall m :: 0 <= m < n ==> log[..n][m] == log[m];
    }
  }

  lemma {:induction false} ClosedStays(log: seq<Event>, k: nat, id: string)
    requires Legal(log) && k <= |log| && Legal(log[..k])
    requires id in Replay(log[..k]) && Replay(log[..k])[id] == Closed
    ensures forall m :: k <= m < |log| ==> log[m].id != id
    decreases |log|
  {
    if k < |log| {
      var n := |log| - 1;
      assert log[..n][..k] == log[..k];
      ClosedStays(log[..n], k, id);
      StillClosed(log[..n], k, id);
      assert forall m :: k <= m < n ==> log[..n][m] == log[m];
    }
  }

  lemma {:induction false} StillClosed(log: seq<Event>, k: nat, id: string)
    requires Legal(log) && k <= |log| && Legal(log[..k])
    requires id in Replay(log[..k]) && Replay(log[..k])[id] == Closed
    requires forall m :: k <= m < |log| ==> log[m].id != id
    ensures id in Replay(log) && Replay(log)[id] == Closed
    decreases |log|
  {
    if k < |log| {
      assert log[..|log| - 1][..k] == log[..k];
      StillClosed(log[..|log| - 1], k, id);
    } else {
      assert log[..k] == log;
    }
  }

  /** Exactly-once results: an accepted result carries the runner and nonce of the job's
      latest claim, no sweep came between, and nothing happens to the job afterwards. */
  lemma ExactlyOnce(log: seq<Event>, k: nat) returns (c: nat)
    requires Legal(log) && k < |log| && log[k].Accepted?
    ensures LatestClaim(log, c, k, log[k].id, log[k].runner, log[k].nonce)
    ensures forall m :: k < m < |log| ==> log[m].id != log[k].id
  {
    LegalPrefix(log, k + 1);
    assert log[..k + 1][..k] == log[..k];
    c := LeaseHasClaim(log[..k], log[k].id);
    ClosedStays(log, k + 1, log[k].id);
  }

  lemma NoncesDistinct(log: seq<Event>, c: nat, d: nat)
    requires Legal(log) && c < d < |log| && log[c].Granted? && log[d].Granted?
    ensures log[c].nonce != log[d].nonce
  {
    LegalPrefix(log, d + 1);
    assert log[..d + 1][..d] == log[..d];
    assert log[c] in log[..d];
  }

  /** Once the lease of a claim has lapsed, no result carrying its nonce is accepted, by
      anyone and for any job. */
  lemma LapsedNonceNeverAccepted(log: seq<Event>, c: nat, m: nat, k: nat)
    requires Legal(log) && c < m < k < |log|
    requires log[c].Granted? && log[m].Lapsed? && log[m].id == log[c].id && log[k].Accepted?
    ensures log[k].nonce != log[c].nonce
  {
    if log[k].nonce == log[c].nonce {
      var d := ExactlyOnce(log, k);
      if d < c {
        NoncesDistinct(log, d, c);
      } else if c < d {
        NoncesDistinct(log, c, d);
      }
    }
  }

  // ---- the queue refines the life cycle --------------------------------------------

  predicate WellFormed(j: Job) {
    && (j.nonce.Some? <==> j.Held())
    && (j.Held() ==> j.claimedBy.Some? && j.leaseExpiresAt.Some?)
    && (j.status == Queued ==> j.attempts < MAX_ATTEMPTS && j.claimedBy.None? && j.leaseExpiresAt.None?)
    && (!j.Terminal() ==> j.error.None?)
    && j.attempts <= MAX_ATTEMPTS
  }

  predicate UniqueIds(jobs: seq<Job>) {
    forall i, k :: 0 <= i < k < |jobs| ==> jobs[i].id != jobs[k].id
  }

  predicate Sound(jobs: seq<Job>) {
    UniqueIds(jobs) && forall j :: j in jobs ==> WellFormed(j)
  }

  /** The phase a row is in; only a row that is not well formed could be held by nobody. */
  function PhaseOf(j: Job): Phase {
    if j.status == Queued then Waiting(j.attempts)
    else if j.Held() && j.claimedBy.Some? && j.nonce.Some? then Leased(j.claimedBy.value, j.nonce.value, j.attempts)
    else Closed
  }

  function PhasesOf(jobs: seq<Job>): Phases {
    if jobs == [] then map[]
    else PhasesOf(jobs[..|jobs| - 1])[jobs[|jobs| - 1].id := PhaseOf(jobs[|jobs| - 1])]
  }

  lemma {:induction false} UnknownId(jobs: seq<Job>, id: string)
    requires forall j :: j in jobs ==> j.id != id
    ensures id !in PhasesOf(jobs)
    decreases |jobs|
  {
    if jobs != [] {
      var front, last := jobs[..|jobs| - 1], jobs[|jobs| - 1];
      assert last in jobs && forall j :: j in front ==> j in jobs;
      UnknownId(front, id);
    }
  }

  lemma {:induction false} PhaseAt(jobs: seq<Job>, i: nat)
    requires UniqueIds(jobs) && i < |jobs|
    ensures jobs[i].id in PhasesOf(jobs) && PhasesOf(jobs)[jobs[i].id] == PhaseOf(jobs[i])
    decreases |jobs|
  {
    hide PhaseOf;
    if i < |jobs| - 1 {
      PhaseAt(jobs[..|jobs| - 1], i);
    }
  }

  lemma SoundUpdate(jobs: seq<Job>, i: nat, j: Job)
    requires Sound(jobs) && i < |jobs| && WellFormed(j) && j.id == jobs[i].id
    ensures Sound(jobs[i := j])
  {
    hide WellFormed;
    forall x | x in jobs[i := j] ensures WellFormed(x) {
      assert x == j || x in jobs;
    }
  }

  lemma {:induction false} PhasesUpdate(jobs: seq<Job>, i: nat, j: Job)
    requires UniqueIds(jobs) && i < |jobs| && j.id == jobs[i].id
    ensures PhasesOf(jobs[i := j]) == PhasesOf(jobs)[j.id := PhaseOf(j)]
    decreases |jobs|
  {
    hide PhaseOf;
    var n := |jobs| - 1;
    var front, last := jobs[..n], jobs[n];
    if i < n {
      PhasesUpdate(front, i, j);
      assert jobs[i := j][..n] == front[i := j] && jobs[i := j][n] == last;
      assert last.id != j.id;
    } else {
      assert jobs[i := j][..n] == front;
    }
  }

  /** The queue's array and the log agree: the array is sound and its rows are in the
      phases that replaying the log gives. */
  predicate Agree(jobs: seq<Job>, log: seq<Event>) {
    Sound(jobs) && Legal(log) && PhasesOf(jobs) == Replay(log)
  }

  lemma AgreeUpdate(jobs: seq<Job>, log: seq<Event>, i: nat, j: Job, e: Event)
    requires Agree(jobs, log) && i < |jobs| && WellFormed(j) && j.id == jobs[i].id == e.id
    requires Permitted(Replay(log), e) && PhaseOf(j) == After(Replay(log), e)
    requires e.Granted? ==> FreshNonce(log, e.nonce)
    ensures Agree(jobs[i := j], log + [e])
  {
    hide WellFormed, PhaseOf, Permitted, After, UniqueIds, FreshNonce;
    SoundUpdate(jobs, i, j);
    PhasesUpdate(jobs, i, j);
    LegalSnoc(log, e);
  }

  lemma AgreeSame(jobs: seq<Job>, log: seq<Event>, i: nat, j: Job)
    requires Agree(jobs, log) && i < |jobs| && WellFormed(j) && j.id == jobs[i].id && PhaseOf(j) == PhaseOf(jobs[i])
    ensures Agree(jobs[i := j], log)
  {
    SoundUpdate(jobs, i, j);
    PhasesUpdate(jobs, i, j);
    PhaseAt(jobs, i);
  }

  // ---- the log of each operation ------------------------------------------------------

  function LapsedRow(j: Job, now: nat): seq<Event> {
    if j.Expired(now) then [Lapsed(j.id, j.attempts >= MAX_ATTEMPTS)] else []
  }

  function LapsedRows(jobs: seq<Job>, now: nat): seq<Event> {
    if jobs == [] then [] else LapsedRow(jobs[0], now) + LapsedRows(jobs[1..], now)
  }

  /** What an operation adds to the log, read off its reply and the rows it sweeps. */
  function Logged(jobs: seq<Job>, op: Op): seq<Event> {
    match (op, Answer(jobs, op))
    case (Enqueue(id, _, _, _, _), _) => [Enqueued(id)]
    case (Claim(runner, nonce, now), Work(id, _, _, _, _, _)) => LapsedRows(jobs, now) + [Granted(id, runner, nonce)]
    case (Claim(_, _, now), _) => LapsedRows(jobs, now)
    case (Complete(id, runner, nonce, _, _, _, _), Finished(_, _)) => [Accepted(id, runner, nonce)]
    case (Cancel(id, _), Ok) => [Canceled(id)]
    case _ => []
  }

  /** Ids and nonces are minted: never seen before. */
  predicate Enabled(jobs: seq<Job>, log: seq<Event>, op: Op) {
    match op
    case Enqueue(id, _, _, _, _) => forall j :: j in jobs ==> j.id != id
    case Claim(_, nonce, _) => FreshNonce(log, nonce)
    case _ => true
  }

  lemma SweptRow(j: Job, now: nat)
    requires WellFormed(j)
    ensures WellFormed(SweepRow(j, now, MAX_ATTEMPTS)) && SweepRow(j, now, MAX_ATTEMPTS).id == j.id
    ensures PhaseOf(SweepRow(j, now, MAX_ATTEMPTS)) ==
            if !j.Expired(now) then PhaseOf(j) else if j.attempts >= MAX_ATTEMPTS then Closed else Waiting(j.attempts)
  {}

  lemma SweepRowAgrees(jobs: seq<Job>, log: seq<Event>, i: nat, now: nat)
    requires Agree(jobs, log) && i < |jobs|
    ensures Agree(jobs[i := SweepRow(jobs[i], now, MAX_ATTEMPTS)], log + LapsedRow(jobs[i], now))
  {
    var j := jobs[i];
    SweptRow(j, now);
    PhaseAt(jobs, i);
    if j.Expired(now) {
      AgreeUpdate(jobs, log, i, SweepRow(j, now, MAX_ATTEMPTS), Lapsed(j.id, j.attempts >= MAX_ATTEMPTS));
    } else {
      assert jobs[i := j] == jobs && log + [] == log;
    }
  }

  lemma {:induction false} SweepAgrees(done: seq<Job>, rest: seq<Job>, log: seq<Event>, now: nat)
    requires Agree(done + rest, log)
    ensures Agree(done + Sweep(rest, now, MAX_ATTEMPTS), log + LapsedRows(rest, now))
    decreases rest
  {
    if rest == [] {
      assert log + LapsedRows(rest, now) == log;
    } else {
      var swept := SweepRow(rest[0], now, MAX_ATTEMPTS);
      Seqs.UpdateAtSeam(done, rest, swept);
      SweepRowAgrees(done + rest, log, |done|, now);
      SweepAgrees(done + [swept], rest[1..], log + LapsedRow(rest[0], now), now);
      Seqs.Assoc(done, [swept], Sweep(rest[1..], now, MAX_ATTEMPTS));
      Seqs.Assoc(log, LapsedRow(rest[0], now), LapsedRows(rest[1..], now));
    }
  }

  lemma SweptAgrees(jobs: seq<Job>, log: seq<Event>, now: nat)
    requires Agree(jobs, log)
    ensures Agree(Sweep(jobs, now, MAX_ATTEMPTS), log + LapsedRows(jobs, now))
  {
    assert [] + jobs == jobs && [] + Sweep(jobs, now, MAX_ATTEMPTS) == Sweep(jobs, now, MAX_ATTEMPTS);
    SweepAgrees([], jobs, log, now);
  }

  lemma {:induction false} OnlyLapses(jobs: seq<Job>, now: nat)
    ensures forall e :: e in LapsedRows(jobs, now) ==> e.Lapsed?
    decreases jobs
  {
    if jobs != [] {
      OnlyLapses(jobs[1..], now);
    }
  }

  lemma StillFresh(jobs: seq<Job>, log: seq<Event>, nonce: Nonce, now: nat)
    requires FreshNonce(log, nonce)
    ensures FreshNonce(log + LapsedRows(jobs, now), nonce)
  {
    OnlyLapses(jobs, now);
  }

  lemma GrantAgrees(jobs: seq<Job>, log: seq<Event>, i: nat, runner: string, nonce: Nonce, now: nat)
    requires Agree(jobs, log) && FreshNonce(log, nonce) && i < |jobs| && jobs[i].Claimable(MAX_ATTEMPTS)
    ensures Agree(jobs[i := ClaimRow(jobs[i], runner, nonce, now, LEASE_MS)], log + [Granted(jobs[i].id, runner, nonce)])
  {
    PhaseAt(jobs, i);
    assert jobs[i] in jobs;
    AgreeUpdate(jobs, log, i, ClaimRow(jobs[i], runner, nonce, now, LEASE_MS), Granted(jobs[i].id, runner, nonce));
  }

  lemma ClaimAgrees(jobs: seq<Job>, log: seq<Event>, runner: string, nonce: Nonce, now: nat)
    requires Agree(jobs, log) && FreshNonce(log, nonce)
    ensures Agree(Next(jobs, Claim(runner, nonce, now)), log + Logged(jobs, Claim(runner, nonce, now)))
  {
    hide Agree, FreshNonce, ClaimRow;
    var swept, log1 := Sweep(jobs, now, MAX_ATTEMPTS), log + LapsedRows(jobs, now);
    SweptAgrees(jobs, log, now);
    var i := FirstClaimable(swept, MAX_ATTEMPTS);
    if i < |swept| {
      StillFresh(jobs, log, nonce, now);
      GrantAgrees(swept, log1, i, runner, nonce, now);
      Seqs.Assoc(log, LapsedRows(jobs, now), [Granted(swept[i].id, runner, nonce)]);
    }
  }

  lemma SoundAppend(jobs: seq<Job>, j: Job)
    requires Sound(jobs) && WellFormed(j) && forall x :: x in jobs ==> x.id != j.id
    ensures Sound(jobs + [j])
  {
    hide WellFormed;
    forall x | x in jobs + [j] ensures WellFormed(x) {
      assert x == j || x in jobs;
    }
    forall k | 0 <= k < |jobs| ensures jobs[k].id != j.id {
      assert jobs[k] in jobs;
    }
  }

  lemma EnqueueAgrees(jobs: seq<Job>, log: seq<Event>, op: Op)
    requires op.Enqueue? && Agree(jobs, log) && Enabled(jobs, log, op)
    ensures Agree(Next(jobs, op), log + Logged(jobs, op))
  {
    var j := NewJob(op.id, op.kind, op.jobId, op.payload, op.now);
    SoundAppend(jobs, j);
    UnknownId(jobs, op.id);
    LegalSnoc(log, Enqueued(op.id));
    hide WellFormed, UniqueIds;
    assert (jobs + [j])[..|jobs|] == jobs;
  }

  /** Only an accepted result and an honoured cancel move a row to another phase. */
  lemma RowOpPhase(op: Op, j: Job)
    requires !op.Enqueue? && !op.Claim? && WellFormed(j)
    ensures WellFormed(RowAfter(op, j)) && RowAfter(op, j).id == j.id
    ensures PhaseOf(RowAfter(op, j)) ==
            if RowReply(op, j).Finished? || (op.Cancel? && RowReply(op, j).Ok?) then Closed else PhaseOf(j)
  {}

  lemma RowOpAgrees(jobs: seq<Job>, log: seq<Event>, op: Op)
    requires !op.Enqueue? && !op.Claim? && Agree(jobs, log)
    ensures Agree(Next(jobs, op), log + Logged(jobs, op))
  {
    var i := IndexOf(jobs, op.id);
    if i == |jobs| {
      assert log + [] == log;
    } else {
      hide RowAfter, UniqueIds;
      var j' := RowAfter(op, jobs[i]);
      assert jobs[i] in jobs;
      RowOpPhase(op, jobs[i]);
      PhaseAt(jobs, i);
      if Logged(jobs, op) == [] {
        AgreeSame(jobs, log, i, j');
        assert log + [] == log;
      } else {
        AgreeUpdate(jobs, log, i, j', Logged(jobs, op)[0]);
      }
    }
  }

  /** One operation, whatever the clock reads: the new array and the longer log still agree. */
  lemma StepAgrees(jobs: seq<Job>, log: seq<Event>, op: Op)
    requires Agree(jobs, log) && Enabled(jobs, log, op)
    ensures Agree(Next(jobs, op), log + Logged(jobs, op))
  {
    match op
    case Enqueue(_, _, _, _, _) => EnqueueAgrees(jobs, log, op);
    case Claim(runner, nonce, now) => ClaimAgrees(jobs, log, runner, nonce, now);
    case _ => RowOpAgrees(jobs, log, op);
  }

  // ---- all runs --------------------------------------------------------------------------

  datatype World = World(jobs: seq<Job>, log: seq<Event>)

  /** `ws` is a run of `ops` from the empty queue. */
  predicate IsRun(ws: seq<World>, ops: seq<Op>) {
    && |ws| == |ops| + 1 && ws[0] == World([], [])
    && forall i :: 0 <= i < |ops| ==> WorldStep(ws[i], ops[i], ws[i + 1])
  }

  predicate WorldStep(w: World, op: Op, w': World) {
    Enabled(w.jobs, w.log, op) && w' == World(Next(w.jobs, op), w.log + Logged(w.jobs, op))
  }

  lemma {:induction false} RunAgrees(ws: seq<World>, ops: seq<Op>, k: nat)
    requires IsRun(ws, ops) && k < |ws|
    ensures Agree(ws[k].jobs, ws[k].log)
    decreases k
  {
    if k > 0 {
      RunAgrees(ws, ops, k - 1);
      hide Agree, Enabled, Logged, Next;
      assert WorldStep(ws[k - 1], ops[k - 1], ws[k]);
      StepAgrees(ws[k - 1].jobs, ws[k - 1].log, ops[k - 1]);
    }
  }

  /** Over every interleaving of operations by any number of runners: at most one result of
      a job is accepted, it answers the latest claim, and nothing happens to the job after. */
  lemma AcceptedAtMostOnce(ws: seq<World>, ops: seq<Op>, k: nat, m: nat) returns (c: nat)
    requires IsRun(ws, ops) && k < |ws[|ops|].log| && ws[|ops|].log[k].Accepted?
    ensures LatestClaim(ws[|ops|].log, c, k, ws[|ops|].log[k].id, ws[|ops|].log[k].runner, ws[|ops|].log[k].nonce)
    ensures k < m < |ws[|ops|].log| ==> ws[|ops|].log[m].id != ws[|ops|].log[k].id
  {
    RunAgrees(ws, ops, |ops|);
    c := ExactlyOnce(ws[|ops|].log, k);
  }

  /** The row invariants of every reachable queue. */
  lemma ReachableRow(ws: seq<World>, ops: seq<Op>, k: nat, i: nat)
    requires IsRun(ws, ops) && k < |ws| && i < |ws[k].jobs|
    ensures var j := ws[k].jobs[i];
            && j.attempts <= MAX_ATTEMPTS
            && (j.status == Queued ==> j.attempts < MAX_ATTEMPTS)
            && (j.nonce.Some? <==> j.status == Status.Claimed || j.status == Running)
            && (j.nonce.Some? ==> j.leaseExpiresAt.Some? && j.claimedBy.Some?)
  {
    RunAgrees(ws, ops, k);
    assert ws[k].jobs[i] in ws[k].jobs;
  }

  /** In every reachable queue a queued row is claimable, so a claim finds work exactly when
      some row is queued once the expired leases are swept. */
  lemma ClaimFindsWork(ws: seq<World>, ops: seq<Op>, k: nat, runner: string, nonce: Nonce, now: nat)
    requires IsRun(ws, ops) && k < |ws|
    ensures Answer(ws[k].jobs, Claim(runner, nonce, now)).Work? <==>
            exists j :: j in ws[k].jobs && (j.status == Queued || (j.Expired(now) && j.attempts < MAX_ATTEMPTS))
  {
    RunAgrees(ws, ops, k);
    var jobs := ws[k].jobs;
    var swept := Sweep(jobs, now, MAX_ATTEMPTS);
    var i := FirstClaimable(swept, MAX_ATTEMPTS);
    if i < |swept| {
      assert jobs[i] in jobs;
    }
    forall j | j in jobs && (j.status == Queued || (j.Expired(now) && j.attempts < MAX_ATTEMPTS))
      ensures i < |swept|
    {
      var n :| 0 <= n < |jobs| && jobs[n] == j;
      assert swept[n].Claimable(MAX_ATTEMPTS);
    }
  }

  /** The row keeps its id, and a finished one keeps everything. */
  predicate Persists(j: Job, j': Job) {
    j'.id == j.id && (j.Terminal() ==> j' == j)
  }

  lemma RowPersists(op: Op, j: Job)
    requires !op.Enqueue? && !op.Claim?
    ensures Persists(j, RowAfter(op, j))
  {}

  lemma ClaimPersists(jobs: seq<Job>, op: Op)
    requires op.Claim?
    ensures |Next(jobs, op)| == |jobs| && forall i :: 0 <= i < |jobs| ==> Persists(jobs[i], Next(jobs, op)[i])
  {
    hide SweepRow, ClaimRow;
    var swept := Sweep(jobs, op.now, MAX_ATTEMPTS);
    var n := FirstClaimable(swept, MAX_ATTEMPTS);
    forall i | 0 <= i < |jobs| ensures Persists(jobs[i], Next(jobs, op)[i]) {
      assert Persists(jobs[i], swept[i]) by { SweptPersists(jobs[i], op.now); }
      if i == n {
        assert Persists(swept[i], Next(jobs, op)[i]) by { GrantPersists(swept[i], op); }
      }
    }
  }

  lemma SweptPersists(j: Job, now: nat)
    ensures Persists(j, SweepRow(j, now, MAX_ATTEMPTS))
  {}

  lemma GrantPersists(j: Job, op: Op)
    requires op.Claim? && j.Claimable(MAX_ATTEMPTS)
    ensures Persists(j, ClaimRow(j, op.runner, op.nonce, op.now, LEASE_MS))
  {}

  /** Rows are never lost or reordered, and a finished row never changes again. */
  lemma RowsPersist(jobs: seq<Job>, op: Op)
    ensures |jobs| <= |Next(jobs, op)|
    ensures forall i :: 0 <= i < |jobs| ==> Persists(jobs[i], Next(jobs, op)[i])
  {
    if op.Claim? {
      ClaimPersists(jobs, op);
    } else if !op.Enqueue? {
      var n := IndexOf(jobs, op.id);
      if n < |jobs| {
        RowPersists(op, jobs[n]);
      }
    }
  }

  lemma {:induction false} FinishedForever(ws: seq<World>, ops: seq<Op>, k: nat, n: nat, i: nat)
    requires IsRun(ws, ops) && k <= n < |ws| && i < |ws[k].jobs| && ws[k].jobs[i].Terminal()
    ensures i < |ws[n].jobs| && ws[n].jobs[i] == ws[k].jobs[i]
    decreases n
  {
    if k < n {
      hide Enabled, Logged;
      FinishedForever(ws, ops, k, n - 1, i);
      assert WorldStep(ws[n - 1], ops[n - 1], ws[n]);
      RowsPersist(ws[n - 1].jobs, ops[n - 1]);
    }
  }

  // ---- bounded work ------------------------------------------------------------------------

  function Claims(log: seq<Event>): nat {
    if log == [] then 0 else Claims(log[..|log| - 1]) + if log[|log| - 1].Granted? then 1 else 0
  }

  function Enqueues(log: seq<Event>): nat {
    if log == [] then 0 else Enqueues(log[..|log| - 1]) + if log[|log| - 1].Enqueued? then 1 else 0
  }

  function Attempts(jobs: seq<Job>): nat {
    if jobs == [] then 0 else Attempts(jobs[..|jobs| - 1]) + jobs[|jobs| - 1].attempts
  }

  lemma {:induction false} CountSnoc(log: seq<Event>, more: seq<Event>)
    ensures Claims(log + more) == Claims(log) + Claims(more)
    ensures Enqueues(log + more) == Enqueues(log) + Enqueues(more)
    decreases |more|
  {
    if more == [] {
      assert log + more == log;
    } else {
      CountSnoc(log, more[..|more| - 1]);
      assert (log + more)[..|log + more| - 1] == log + more[..|more| - 1];
    }
  }

  lemma {:induction false} AttemptsUpdate(jobs: seq<Job>, i: nat, j: Job)
    requires i < |jobs|
    ensures Attempts(jobs[i := j]) == Attempts(jobs) - jobs[i].attempts + j.attempts
    decreases |jobs|
  {
    var n := |jobs| - 1;
    if i < n {
      AttemptsUpdate(jobs[..n], i, j);
      assert jobs[i := j][..n] == jobs[..n][i := j];
    } else {
      assert jobs[i := j][..n] == jobs[..n];
    }
  }

  lemma {:induction false} AttemptsSame(jobs: seq<Job>, jobs': seq<Job>)
    requires |jobs| == |jobs'| && forall i :: 0 <= i < |jobs| ==> jobs[i].attempts == jobs'[i].attempts
    ensures Attempts(jobs) == Attempts(jobs')
    decreases |jobs|
  {
    if jobs != [] {
      AttemptsSame(jobs[..|jobs| - 1], jobs'[..|jobs| - 1]);
    }
  }

  lemma {:induction false} AttemptsBounded(jobs: seq<Job>)
    requires Sound(jobs)
    ensures Attempts(jobs) <= MAX_ATTEMPTS * |jobs|
    decreases |jobs|
  {
    if jobs != [] {
      var n := |jobs| - 1;
      assert forall j :: j in jobs[..n] ==> j in jobs;
      AttemptsBounded(jobs[..n]);
      assert jobs[n] in jobs;
    }
  }

  lemma {:induction false} LapsesCountNothing(jobs: seq<Job>, now: nat)
    ensures Claims(LapsedRows(jobs, now)) == 0 && Enqueues(LapsedRows(jobs, now)) == 0
    decreases jobs
  {
    if jobs != [] {
      LapsesCountNothing(jobs[1..], now);
      CountSnoc(LapsedRow(jobs[0], now), LapsedRows(jobs[1..], now));
    }
  }

  lemma SameAttempts(j: Job, now: nat)
    ensures SweepRow(j, now, MAX_ATTEMPTS).attempts == j.attempts
  {}

  lemma OneMoreAttempt(j: Job, runner: string, nonce: Nonce, now: nat)
    ensures ClaimRow(j, runner, nonce, now, LEASE_MS).attempts == j.attempts + 1
  {}

  lemma ClaimIs(jobs: seq<Job>, runner: string, nonce: Nonce, now: nat)
    ensures var op := Claim(runner, nonce, now);
            var swept := Sweep(jobs, now, MAX_ATTEMPTS);
            var i := FirstClaimable(swept, MAX_ATTEMPTS);
            Next(jobs, op) == (if i == |swept| then swept else swept[i := ClaimRow(swept[i], runner, nonce, now, LEASE_MS)]) &&
            Logged(jobs, op) == LapsedRows(jobs, now) + if i == |swept| then [] else [Granted(swept[i].id, runner, nonce)]
  {
    hide Sweep, ClaimRow, LapsedRows;
    assert LapsedRows(jobs, now) + [] == LapsedRows(jobs, now);
  }

  lemma GrantCounts(id: string, runner: string, nonce: Nonce)
    ensures Claims([Granted(id, runner, nonce)]) == 1 && Enqueues([Granted(id, runner, nonce)]) == 0
    ensures Claims([]) == 0 && Enqueues([]) == 0
  {}

  lemma ClaimCounts(jobs: seq<Job>, runner: string, nonce: Nonce, now: nat)
    ensures var op := Claim(runner, nonce, now);
            Attempts(Next(jobs, op)) == Attempts(jobs) + Claims(Logged(jobs, op)) && Enqueues(Logged(jobs, op)) == 0
  {
    hide *;
    var swept := Sweep(jobs, now, MAX_ATTEMPTS);
    var i := FirstClaimable(swept, MAX_ATTEMPTS);
    ClaimIs(jobs, runner, nonce, now);
    forall n | 0 <= n < |jobs| ensures jobs[n].attempts == swept[n].attempts {
      SameAttempts(jobs[n], now);
    }
    AttemptsSame(jobs, swept);
    LapsesCountNothing(jobs, now);
    var grant := if i == |swept| then [] else [Granted(swept[i].id, runner, nonce)];
    CountSnoc(LapsedRows(jobs, now), grant);
    GrantCounts(if i == |swept| then "" else swept[i].id, runner, nonce);
    if i < |swept| {
      OneMoreAttempt(swept[i], runner, nonce, now);
      AttemptsUpdate(swept, i, ClaimRow(swept[i], runner, nonce, now, LEASE_MS));
    }
  }

  lemma StepCounts(jobs: seq<Job>, op: Op)
    ensures Attempts(Next(jobs, op)) == Attempts(jobs) + Claims(Logged(jobs, op))
    ensures |Next(jobs, op)| == |jobs| + Enqueues(Logged(jobs, op))
  {
    hide *;
    if op.Enqueue? {
      EnqueueCounts(jobs, op);
    } else if op.Claim? {
      ClaimCounts(jobs, op.runner, op.nonce, op.now);
      ClaimKeepsLength(jobs, op);
    } else {
      NamedCounts(jobs, op);
      AttemptsSame(jobs, Next(jobs, op));
    }
  }

  lemma EnqueueCounts(jobs: seq<Job>, op: Op)
    requires op.Enqueue?
    ensures Attempts(Next(jobs, op)) == Attempts(jobs) + Claims(Logged(jobs, op))
    ensures |Next(jobs, op)| == |jobs| + Enqueues(Logged(jobs, op))
  {
    assert Next(jobs, op)[..|jobs|] == jobs;
  }

  lemma ClaimKeepsLength(jobs: seq<Job>, op: Op)
    requires op.Claim?
    ensures |Next(jobs, op)| == |jobs|
  {
    hide SweepRow, ClaimRow;
  }

  lemma NamedCounts(jobs: seq<Job>, op: Op)
    requires !op.Enqueue? && !op.Claim?
    ensures |Next(jobs, op)| == |jobs| && forall i :: 0 <= i < |jobs| ==> jobs[i].attempts == Next(jobs, op)[i].attempts
    ensures Claims(Logged(jobs, op)) == 0 == Enqueues(Logged(jobs, op))
  {}

  /** No row is ever lost, every claim is somebody's attempt, and so the number of successful
      claims never exceeds three times the number of jobs enqueued. */
  lemma {:induction false} BoundedClaims(ws: seq<World>, ops: seq<Op>, k: nat)
    requires IsRun(ws, ops) && k < |ws|
    ensures |ws[k].jobs| == Enqueues(ws[k].log)
    ensures Attempts(ws[k].jobs) == Claims(ws[k].log) <= MAX_ATTEMPTS * Enqueues(ws[k].log)
    decreases k
  {
    hide Enqueues, Claims, Attempts, Logged, Next, Sound;
    if k == 0 {
      NothingCounted(ws, ops);
    } else {
      BoundedClaims(ws, ops, k - 1);
      assert WorldStep(ws[k - 1], ops[k - 1], ws[k]);
      StepCounts(ws[k - 1].jobs, ops[k - 1]);
      CountSnoc(ws[k - 1].log, Logged(ws[k - 1].jobs, ops[k - 1]));
    }
    RunAgrees(ws, ops, k);
    AttemptsBounded(ws[k].jobs);
  }

  lemma NothingCounted(ws: seq<World>, ops: seq<Op>)
    requires IsRun(ws, ops)
    ensures |ws[0].jobs| == 0 == Enqueues(ws[0].log) && Attempts(ws[0].jobs) == 0 == Claims(ws[0].log)
  {}
}
