/** The hybrid runner queue of the file store: an array of job records in one JSON
    file, read, changed in place and written back by every operation.

    The clock is a parameter in milliseconds, a minted nonce is a parameter that the
    histories in AgentQueueHistory require to be fresh, and timestamps are the
    milliseconds that their ISO form round-trips to. */
module AgentQueue {
  import opened Options

  const LEASE_MS: nat := 600_000
  const MAX_ATTEMPTS: nat := 3
  const PROGRESS_CAP: nat := 200

  type Nonce = nat

  datatype Status = Queued | Claimed | Running | Done | Failed | Dead

  datatype Job = Job(
    id: string, kind: string, jobId: Option<string>, payload: string,
    status: Status, nonce: Option<Nonce>, claimedBy: Option<string>, claimedAt: Option<nat>,
    leaseExpiresAt: Option<nat>, lastHeartbeatAt: Option<nat>, attempts: nat,
    progress: seq<string>, result: Option<string>, error: Option<string>,
    createdAt: nat, updatedAt: nat)
  {
    predicate Held() { status == Claimed || status == Running }
    predicate Terminal() { status == Done || status == Failed || status == Dead }
    predicate HeldBy(runner: string) { claimedBy == Some(runner) && Held() }
    predicate Claimable(maxAttempts: nat) { status == Queued && attempts < maxAttempts }
    predicate Expired(now: nat) { Held() && leaseExpiresAt.Some? && leaseExpiresAt.value < now }
  }

  datatype Reply =
    | Created(id: string)
    | NoWork
    | Work(id: string, kind: string, jobId: Option<string>, payload: string, nonce: Nonce, attempts: nat)
    | Renewed(leaseExpiresAt: nat)
    | Ok
    | Finished(jobId: Option<string>, kind: string)
    | AlreadyFinished(jobId: Option<string>, kind: string)
    | AlreadyTerminal(status: Status)
    | Refused
    | NotFound
    | NotHolder
    | NonceMismatch
    | RefusedTerminal(status: Status)
    | RefusedClaimed(status: Status)

  // ---- what each operation does to one record --------------------------------

  /** `j.error || text`: an absent or empty error is replaced. */
  function OrElse(error: Option<string>, text: string): string {
    if error.Some? && error.value != "" then error.value else text
  }

  function NewJob(id: string, kind: string, jobId: Option<string>, payload: string, now: nat): Job {
    Job(id, kind, jobId, payload, Queued, None, None, None, None, None, 0, [], None, None, now, now)
  }

  function SweepRow(j: Job, now: nat, maxAttempts: nat): Job {
    if !j.Expired(now) then j else
      j.(status := if j.attempts >= maxAttempts then Dead else Queued,
         error := if j.attempts >= maxAttempts then Some(OrElse(j.error, "lease expired; attempts exhausted")) else j.error,
         claimedBy := None, claimedAt := None, leaseExpiresAt := None, nonce := None, updatedAt := now)
  }

  function ClaimRow(j: Job, runner: string, nonce: Nonce, now: nat, leaseMs: nat): Job {
    j.(status := Claimed, claimedBy := Some(runner), claimedAt := Some(now), leaseExpiresAt := Some(now + leaseMs),
       lastHeartbeatAt := Some(now), attempts := j.attempts + 1, nonce := Some(nonce), updatedAt := now)
  }

  function RenewRow(j: Job, now: nat, leaseMs: nat): Job {
    j.(status := Running, leaseExpiresAt := Some(now + leaseMs), lastHeartbeatAt := Some(now), updatedAt := now)
  }

  /** `slice(-cap)`: the last `cap` lines. */
  function LastLines(lines: seq<string>, cap: nat): seq<string> {
    if |lines| <= cap then lines else lines[|lines| - cap..]
  }

  function AppendRow(j: Job, lines: seq<string>, now: nat): Job {
    j.(progress := LastLines(j.progress + lines, PROGRESS_CAP), updatedAt := now)
  }

  function FinishRow(j: Job, status: string, error: Option<string>, result: Option<string>, now: nat): Job {
    j.(status := if status == "failed" then Failed else Done,
       result := result,
       error := if status == "failed" then Some(OrElse(error, "runner reported failure")) else None,
       nonce := None, updatedAt := now)
  }

  function CancelRow(j: Job, now: nat): Job {
    j.(status := Failed, error := Some("canceled by owner before a runner claimed it"), nonce := None, updatedAt := now)
  }

  function RequeueRow(j: Job, now: nat): Job {
    j.(createdAt := now, updatedAt := now)
  }

  // ---- the array ---------------------------------------------------------------

  function Sweep(jobs: seq<Job>, now: nat, maxAttempts: nat): (swept: seq<Job>)
    ensures |swept| == |jobs|
    ensures forall i :: 0 <= i < |jobs| ==> swept[i] == SweepRow(jobs[i], now, maxAttempts)
  {
    if jobs == [] then [] else [SweepRow(jobs[0], now, maxAttempts)] + Sweep(jobs[1..], now, maxAttempts)
  }

  /** The position of the first record with this id, or the length when there is none. */
  function IndexOf(jobs: seq<Job>, id: string): (i: nat)
    ensures i <= |jobs|
    ensures i < |jobs| ==> jobs[i].id == id
    ensures forall k :: 0 <= k < i ==> jobs[k].id != id
  {
    if jobs == [] || jobs[0].id == id then 0 else 1 + IndexOf(jobs[1..], id)
  }

  /** The position of the first claimable record, or the length when there is none. */
  function FirstClaimable(jobs: seq<Job>, maxAttempts: nat): (i: nat)
    ensures i <= |jobs|
    ensures i < |jobs| ==> jobs[i].Claimable(maxAttempts)
    ensures forall k :: 0 <= k < i ==> !jobs[k].Claimable(maxAttempts)
  {
    if jobs == [] || jobs[0].Claimable(maxAttempts) then 0 else 1 + FirstClaimable(jobs[1..], maxAttempts)
  }

  lemma IndexOfUnique(jobs: seq<Job>, id: string, i: nat)
    requires i <= |jobs| && (i < |jobs| ==> jobs[i].id == id)
    requires forall k :: 0 <= k < i ==> jobs[k].id != id
    ensures i == IndexOf(jobs, id)
  {}

  lemma FirstClaimableUnique(jobs: seq<Job>, maxAttempts: nat, i: nat)
    requires i <= |jobs| && (i < |jobs| ==> jobs[i].Claimable(maxAttempts))
    requires forall k :: 0 <= k < i ==> !jobs[k].Claimable(maxAttempts)
    ensures i == FirstClaimable(jobs, maxAttempts)
  {}

  // ---- operations as steps -----------------------------------------------------

  datatype Op =
    | Enqueue(id: string, kind: string, jobId: Option<string>, payload: string, now: nat)
    | Claim(runner: string, nonce: Nonce, now: nat)
    | Heartbeat(id: string, runner: string, now: nat)
    | Append(id: string, runner: string, lines: seq<string>, now: nat)
    | Complete(id: string, runner: string, nonce: Nonce, status: string, error: Option<string>, result: Option<string>, now: nat)
    | Cancel(id: string, now: nat)
    | Requeue(id: string, now: nat)

  /** What an operation that names a row answers, from that row alone. */
  function RowReply(op: Op, j: Job): Reply
    requires !op.Enqueue? && !op.Claim?
  {
    match op
    case Heartbeat(_, runner, now) => if !j.HeldBy(runner) then Refused else Renewed(now + LEASE_MS)
    case Append(_, runner, _, _) => if j.claimedBy != Some(runner) || j.Terminal() then Refused else Ok
    case Complete(_, runner, nonce, _, _, _, _) =>
      if j.Terminal() then AlreadyFinished(j.jobId, j.kind)
      else if !j.HeldBy(runner) then NotHolder
      else if j.nonce != Some(nonce) then NonceMismatch
      else Finished(j.jobId, j.kind)
    case Cancel(_, _) =>
      if j.Terminal() then AlreadyTerminal(j.status)
      else if j.status != Queued then RefusedClaimed(j.status) else Ok
    case Requeue(_, _) =>
      if j.Terminal() then RefusedTerminal(j.status)
      else if j.status != Queued then RefusedClaimed(j.status) else Ok
  }

  /** What an operation that names a row leaves of it; a refused one leaves it alone. */
  function RowAfter(op: Op, j: Job): Job
    requires !op.Enqueue? && !op.Claim?
  {
    match (op, RowReply(op, j))
    case (Heartbeat(_, _, now), Renewed(_)) => RenewRow(j, now, LEASE_MS)
    case (Append(_, _, lines, now), Ok) => AppendRow(j, lines, now)
    case (Complete(_, _, _, status, error, result, now), Finished(_, _)) => FinishRow(j, status, error, result, now)
    case (Cancel(_, now), Ok) => CancelRow(j, now)
    case (Requeue(_, now), Ok) => RequeueRow(j, now)
    case _ => j
  }

  /** An unknown id: only heartbeat and append do not tell it apart from a refusal. */
  function MissingReply(op: Op): Reply {
    if op.Heartbeat? || op.Append? then Refused else NotFound
  }

  function Offer(j: Job, nonce: Nonce): Reply {
    Work(j.id, j.kind, j.jobId, j.payload, nonce, j.attempts + 1)
  }

  function Next(jobs: seq<Job>, op: Op): seq<Job> {
    match op
    case Enqueue(id, kind, jobId, payload, now) => jobs + [NewJob(id, kind, jobId, payload, now)]
    case Claim(runner, nonce, now) =>
      var swept := Sweep(jobs, now, MAX_ATTEMPTS);
      var i := FirstClaimable(swept, MAX_ATTEMPTS);
      if i == |swept| then swept else swept[i := ClaimRow(swept[i], runner, nonce, now, LEASE_MS)]
    case _ =>
      var i := IndexOf(jobs, op.id);
      if i == |jobs| then jobs else jobs[i := RowAfter(op, jobs[i])]
  }

  function Answer(jobs: seq<Job>, op: Op): Reply {
    match op
    case Enqueue(id, _, _, _, _) => Created(id)
    case Claim(_, nonce, now) =>
      var swept := Sweep(jobs, now, MAX_ATTEMPTS);
      var i := FirstClaimable(swept, MAX_ATTEMPTS);
      if i == |swept| then NoWork else Offer(swept[i], nonce)
    case _ =>
      var i := IndexOf(jobs, op.id);
      if i == |jobs| then MissingReply(op) else RowReply(op, jobs[i])
  }

  // ---- counting ------------------------------------------------------------------

  datatype QueueState = QueueState(counts: map<Status, nat>, lastHeartbeatAt: Option<nat>, oldestQueuedAt: Option<nat>)

  const NO_JOBS := QueueState(map[Queued := 0, Claimed := 0, Running := 0, Done := 0, Failed := 0, Dead := 0], None, None)

  function Newer(m: Option<nat>, x: Option<nat>): Option<nat> {
    if x.Some? && (m.None? || x.value > m.value) then x else m
  }

  function Older(m: Option<nat>, j: Job): Option<nat> {
    if j.status == Queued && (m.None? || j.createdAt < m.value) then Some(j.createdAt) else m
  }

  function Counted(st: QueueState, j: Job): QueueState {
    var counts := if j.status in st.counts then st.counts[j.status := st.counts[j.status] + 1] else st.counts;
    QueueState(counts, Newer(st.lastHeartbeatAt, j.lastHeartbeatAt), Older(st.oldestQueuedAt, j))
  }

  function StateOf(jobs: seq<Job>): QueueState {
    if jobs == [] then NO_JOBS else Counted(StateOf(jobs[..|jobs| - 1]), jobs[|jobs| - 1])
  }

  function Total(st: QueueState): nat {
    var c := st.counts;
    if c.Keys != {Queued, Claimed, Running, Done, Failed, Dead} then 0
    else c[Queued] + c[Claimed] + c[Running] + c[Done] + c[Failed] + c[Dead]
  }

  function Statuses(jobs: seq<Job>): (r: seq<Status>)
    ensures |r| == |jobs| && forall i :: 0 <= i < |jobs| ==> r[i] == jobs[i].status
  {
    seq(|jobs|, i requires 0 <= i < |jobs| => jobs[i].status)
  }

  /** The count of a status is the number of rows that have it. */
  lemma {:induction false} CountsOfStatus(jobs: seq<Job>, s: Status)
    ensures s in StateOf(jobs).counts && StateOf(jobs).counts[s] == multiset(Statuses(jobs))[s]
  {
    if jobs != [] {
      var front, last := jobs[..|jobs| - 1], jobs[|jobs| - 1];
      CountsOfStatus(front, s);
      CountsOfStatus(front, last.status);
      assert Statuses(jobs) == Statuses(front) + [last.status];
    }
  }

  /** The counts of the six statuses sum to the number of rows. */
  lemma {:induction false} CountsSumToRows(jobs: seq<Job>)
    ensures StateOf(jobs).counts.Keys == {Queued, Claimed, Running, Done, Failed, Dead}
    ensures Total(StateOf(jobs)) == |jobs|
  {
    if jobs != [] {
      CountsSumToRows(jobs[..|jobs| - 1]);
    }
  }

  /** The newest heartbeat is the latest of all rows, the oldest queued time the earliest of
      the queued ones, and each is absent exactly when there is nothing to report. */
  lemma {:induction false} ExtremesOf(jobs: seq<Job>)
    ensures var m := StateOf(jobs).lastHeartbeatAt;
            && (m.None? <==> forall j :: j in jobs ==> j.lastHeartbeatAt.None?)
            && (m.Some? ==> (exists j :: j in jobs && j.lastHeartbeatAt == m)
                            && forall j :: j in jobs && j.lastHeartbeatAt.Some? ==> j.lastHeartbeatAt.value <= m.value)
    ensures var m := StateOf(jobs).oldestQueuedAt;
            && (m.None? <==> forall j :: j in jobs ==> j.status != Queued)
            && (m.Some? ==> (exists j :: j in jobs && j.status == Queued && j.createdAt == m.value)
                            && forall j :: j in jobs && j.status == Queued ==> m.value <= j.createdAt)
  {
    if jobs != [] {
      var front, last := jobs[..|jobs| - 1], jobs[|jobs| - 1];
      ExtremesOf(front);
      assert forall j :: j in jobs <==> j in front || j == last;
    }
  }

  // ---- the store -------------------------------------------------------------------

  /** The store's agent-jobs file. Every method loads the array, edits records in place
      and saves the array, exactly as far as it got. */
  class FileStoreQueue {
    var jobs: seq<Job>

    constructor ()
      ensures jobs == []
    {
      jobs := [];
    }

    method Find(id: string) returns (i: nat)
      ensures i == IndexOf(jobs, id)
    {
      i := 0;
      while i < |jobs| && jobs[i].id != id
        invariant i <= |jobs|
        invariant forall k :: 0 <= k < i ==> jobs[k].id != id
      {
        i := i + 1;
      }
      IndexOfUnique(jobs, id, i);
    }

    method FindClaimable(maxAttempts: nat) returns (i: nat)
      ensures i == FirstClaimable(jobs, maxAttempts)
    {
      i := 0;
      while i < |jobs| && !jobs[i].Claimable(maxAttempts)
        invariant i <= |jobs|
        invariant forall k :: 0 <= k < i ==> !jobs[k].Claimable(maxAttempts)
      {
        i := i + 1;
      }
      FirstClaimableUnique(jobs, maxAttempts, i);
    }

    method SweepExpired(now: nat, maxAttempts: nat)
      modifies this
      ensures jobs == Sweep(old(jobs), now, maxAttempts)
    {
      var i := 0;
      while i < |jobs|
        invariant i <= |jobs| == |old(jobs)|
        invariant forall k :: 0 <= k < i ==> jobs[k] == SweepRow(old(jobs)[k], now, maxAttempts)
        invariant forall k :: i <= k < |jobs| ==> jobs[k] == old(jobs)[k]
      {
        var j := jobs[i];
        if j.Held() && j.leaseExpiresAt.Some? && j.leaseExpiresAt.value < now {
          if j.attempts >= maxAttempts {
            j := j.(status := Dead, error := Some(OrElse(j.error, "lease expired; attempts exhausted")));
          } else {
            j := j.(status := Queued);
          }
          j := j.(claimedBy := None, claimedAt := None, leaseExpiresAt := None, nonce := None, updatedAt := now);
        }
        jobs := jobs[i := j];
        i := i + 1;
      }
    }

    method EnqueueAgentJob(id: string, kind: string, jobId: Option<string>, payload: string, now: nat) returns (reply: Reply)
      modifies this
      ensures jobs == Next(old(jobs), Enqueue(id, kind, jobId, payload, now))
      ensures reply == Answer(old(jobs), Enqueue(id, kind, jobId, payload, now))
    {
      jobs := jobs + [NewJob(id, kind, jobId, payload, now)];
      reply := Created(id);
    }

    method ClaimAgentJob(runner: string, nonce: Nonce, now: nat) returns (reply: Reply)
      modifies this
      ensures jobs == Next(old(jobs), Claim(runner, nonce, now))
      ensures reply == Answer(old(jobs), Claim(runner, nonce, now))
    {
      SweepExpired(now, MAX_ATTEMPTS);
      var i := FindClaimable(MAX_ATTEMPTS);
      if i == |jobs| {
        return NoWork;
      }
      var rec := ClaimRow(jobs[i], runner, nonce, now, LEASE_MS);
      jobs := jobs[i := rec];
      reply := Work(rec.id, rec.kind, rec.jobId, rec.payload, nonce, rec.attempts);
    }

    method HeartbeatAgentJob(id: string, runner: string, now: nat) returns (reply: Reply)
      modifies this
      ensures jobs == Next(old(jobs), Heartbeat(id, runner, now))
      ensures reply == Answer(old(jobs), Heartbeat(id, runner, now))
    {
      var i := Find(id);
      if i == |jobs| || jobs[i].claimedBy != Some(runner) || (jobs[i].status != Claimed && jobs[i].status != Running) {
        return Refused;
      }
      jobs := jobs[i := RenewRow(jobs[i], now, LEASE_MS)];
      reply := Renewed(now + LEASE_MS);
    }

    method AppendAgentJobProgress(id: string, runner: string, lines: seq<string>, now: nat) returns (reply: Reply)
      modifies this
      ensures jobs == Next(old(jobs), Append(id, runner, lines, now))
      ensures reply == Answer(old(jobs), Append(id, runner, lines, now))
    {
      var i := Find(id);
      if i == |jobs| || jobs[i].claimedBy != Some(runner) || jobs[i].Terminal() {
        return Refused;
      }
      jobs := jobs[i := AppendRow(jobs[i], lines, now)];
      reply := Ok;
    }

    method CompleteAgentJob(id: string, runner: string, nonce: Nonce, status: string, error: Option<string>,
                            result: Option<string>, now: nat)
      returns (reply: Reply)
      modifies this
      ensures jobs == Next(old(jobs), Complete(id, runner, nonce, status, error, result, now))
      ensures reply == Answer(old(jobs), Complete(id, runner, nonce, status, error, result, now))
    {
      var i := Find(id);
      if i == |jobs| {
        return NotFound;
      }
      var rec := jobs[i];
      if rec.Terminal() {
        return AlreadyFinished(rec.jobId, rec.kind);
      }
      if rec.claimedBy != Some(runner) || (rec.status != Claimed && rec.status != Running) {
        return NotHolder;
      }
      if rec.nonce.None? || rec.nonce.value != nonce {
        return NonceMismatch;
      }
      jobs := jobs[i := FinishRow(rec, status, error, result, now)];
      reply := Finished(rec.jobId, rec.kind);
    }

    method CancelAgentJob(id: string, now: nat) returns (reply: Reply)
      modifies this
      ensures jobs == Next(old(jobs), Cancel(id, now)) && reply == Answer(old(jobs), Cancel(id, now))
    {
      var i := Find(id);
      if i == |jobs| {
        return NotFound;
      }
      if jobs[i].Terminal() {
        return AlreadyTerminal(jobs[i].status);
      }
      if jobs[i].status != Queued {
        return RefusedClaimed(jobs[i].status);
      }
      jobs := jobs[i := CancelRow(jobs[i], now)];
      reply := Ok;
    }

    method RequeueAgentJob(id: string, now: nat) returns (reply: Reply)
      modifies this
      ensures jobs == Next(old(jobs), Requeue(id, now)) && reply == Answer(old(jobs), Requeue(id, now))
    {
      var i := Find(id);
      if i == |jobs| {
        return NotFound;
      }
      if jobs[i].Terminal() {
        return RefusedTerminal(jobs[i].status);
      }
      if jobs[i].status != Queued {
        return RefusedClaimed(jobs[i].status);
      }
      jobs := jobs[i := RequeueRow(jobs[i], now)];
      reply := Ok;
    }

    /** One pass over the array: a count for every status, the newest heartbeat and the
        oldest queued row. */
    method RunnerQueueState() returns (state: QueueState)
      ensures state == StateOf(jobs)
    {
      var counts := NO_JOBS.counts;
      var lastHeartbeatAt, oldestQueuedAt := None, None;
      var i := 0;
      while i < |jobs|
        invariant i <= |jobs|
        invariant QueueState(counts, lastHeartbeatAt, oldestQueuedAt) == StateOf(jobs[..i])
      {
        var j := jobs[i];
        assert jobs[..i + 1][..i] == jobs[..i];
        if j.status in counts {
          counts := counts[j.status := counts[j.status] + 1];
        }
        if j.lastHeartbeatAt.Some? && (lastHeartbeatAt.None? || j.lastHeartbeatAt.value > lastHeartbeatAt.value) {
          lastHeartbeatAt := j.lastHeartbeatAt;
        }
        if j.status == Queued && (oldestQueuedAt.None? || j.createdAt < oldestQueuedAt.value) {
          oldestQueuedAt := Some(j.createdAt);
        }
        i := i + 1;
      }
      assert jobs[..|jobs|] == jobs;
      state := QueueState(counts, lastHeartbeatAt, oldestQueuedAt);
    }
  }
}
