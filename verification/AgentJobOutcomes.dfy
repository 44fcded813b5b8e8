/** What a row of the runner queue says, over whole runs: which operation ended it and with what,
    whose lease it is under, and what it was enqueued as. */
module AgentJobOutcomes {
  import opened Options
  import opened AgentQueue
  import opened AgentQueueHistory

  // ---- how a row ends ---------------------------------------------------------------------

  /** The row says what this operation, so answered, told it at the end. */
  predicate Settles(op: Op, reply: Reply, j: Job) {
    && j.nonce == None
    && match op
       case Complete(id, _, _, status, error, result, now) =>
         && reply == Finished(j.jobId, j.kind) && j.id == id && j.result == result && j.updatedAt == now
         && (if status != "failed" then j.status == Done && j.error == None
             else j.status == Failed && j.error == Some(if error in {None, Some("")} then "runner reported failure" else error.value))
       case Cancel(id, now) =>
         && reply == Ok && j.id == id && j.result == None && j.updatedAt == now
         && j.status == Failed && j.error == Some("canceled by owner before a runner claimed it")
       case Claim(_, _, now) =>
         && j.status == Dead && j.attempts == 3 && j.error == Some("lease expired; attempts exhausted")
         && j.result == None && j.claimedBy == None && j.updatedAt == now
       case _ => false
  }

  /** An unfinished row has no result yet. */
  predicate Blank(j: Job) {
    !j.Terminal() ==> j.result == None
  }

  lemma NamedSettles(op: Op, j: Job)
    requires !op.Enqueue? && !op.Claim? && op.id == j.id && WellFormed(j) && Blank(j) && !j.Terminal()
    ensures Blank(RowAfter(op, j))
    ensures RowAfter(op, j).Terminal() ==> Settles(op, RowReply(op, j), RowAfter(op, j))
  {}

  lemma SweepSettles(j: Job, runner: string, nonce: Nonce, now: nat, reply: Reply)
    requires WellFormed(j) && Blank(j) && !j.Terminal()
    ensures Blank(SweepRow(j, now, MAX_ATTEMPTS))
    ensures SweepRow(j, now, MAX_ATTEMPTS).Terminal() ==>
              Settles(Claim(runner, nonce, now), reply, SweepRow(j, now, MAX_ATTEMPTS))
  {}

  lemma StepSettles(jobs: seq<Job>, op: Op, i: nat)
    requires Sound(jobs) && i < |jobs| && Blank(jobs[i]) && !jobs[i].Terminal()
    ensures i < |Next(jobs, op)| && Blank(Next(jobs, op)[i])
    ensures Next(jobs, op)[i].Terminal() ==> Settles(op, Answer(jobs, op), Next(jobs, op)[i])
  {
    assert jobs[i] in jobs;
    if op.Claim? {
      SweepSettles(jobs[i], op.runner, op.nonce, op.now, Answer(jobs, op));
      hide SweepRow, Settles;
    } else if !op.Enqueue? {
      var k := IndexOf(jobs, op.id);
      if k == i {
        NamedSettles(op, jobs[i]);
        hide RowAfter, RowReply, Settles;
      }
    }
  }

  /** Where a row was before one more operation, or the operation that enqueued it. */
  lemma Before(ws: seq<World>, ops: seq<Op>, n: nat, i: nat)
    requires IsRun(ws, ops) && 0 < n < |ws| && i < |ws[n].jobs|
    ensures Sound(ws[n - 1].jobs) && ws[n].jobs == Next(ws[n - 1].jobs, ops[n - 1])
    ensures i < |ws[n - 1].jobs| || (i == |ws[n - 1].jobs| && ops[n - 1].Enqueue?)
    ensures i == |ws[n - 1].jobs| ==>
              var op := ops[n - 1];
              ws[n].jobs[i] == Job(op.id, op.kind, op.jobId, op.payload, Queued, None, None, None, None, None, 0, [], None, None, op.now, op.now)
  {
    RunAgrees(ws, ops, n - 1);
    assert WorldStep(ws[n - 1], ops[n - 1], ws[n]);
    var jobs, op := ws[n - 1].jobs, ops[n - 1];
    hide Enabled, Logged, Sound, Legal, PhasesOf, Replay, SweepRow, ClaimRow, RowAfter;
    if op.Claim? {
      ClaimPersists(jobs, op);
    }
  }

  lemma {:induction false} StaysBlank(ws: seq<World>, ops: seq<Op>, n: nat, i: nat)
    requires IsRun(ws, ops) && n < |ws| && i < |ws[n].jobs|
    ensures Blank(ws[n].jobs[i])
    decreases n
  {
    if n > 0 {
      Before(ws, ops, n, i);
      hide Sound, Next, IsRun;
      if i < |ws[n - 1].jobs| {
        StaysBlank(ws, ops, n - 1, i);
        if ws[n - 1].jobs[i].Terminal() {
          RowsPersist(ws[n - 1].jobs, ops[n - 1]);
        } else {
          StepSettles(ws[n - 1].jobs, ops[n - 1], i);
        }
      }
    }
  }

  /** The k-th operation found the row unfinished and ended it as it is now. */
  predicate EndedAt(ws: seq<World>, ops: seq<Op>, k: nat, i: nat, j: Job)
    requires |ops| < |ws|
  {
    && k < |ops| && i < |ws[k].jobs| && !ws[k].jobs[i].Terminal()
    && i < |ws[k + 1].jobs| && ws[k + 1].jobs[i] == j && Settles(ops[k], Answer(ws[k].jobs, ops[k]), j)
  }

  /** A finished row was ended by exactly one operation, and says what that one said: done with
      the reported result and no error, failed with the reported result and error, canceled while
      it was queued, or dead because its lease lapsed at the third attempt. */
  lemma {:induction false} EndedByOne(ws: seq<World>, ops: seq<Op>, n: nat, i: nat) returns (k: nat)
    requires IsRun(ws, ops) && n < |ws| && IsOver(ws[n].jobs, i)
    ensures k < n && EndedAt(ws, ops, k, i, ws[n].jobs[i])
    decreases n
  {
    hide *;
    NotAtFirst(ws, ops, n, i);
    Before(ws, ops, n, i);
    if IsOver(ws[n - 1].jobs, i) {
      AlreadyOver(ws[n - 1].jobs, ops[n - 1], i);
      k := EndedByOne(ws, ops, n - 1, i);
    } else {
      k := n - 1;
      NotNew(ws[n].jobs, i);
      StaysBlank(ws, ops, n - 1, i);
      EndsNow(ws[n - 1].jobs, ops[n - 1], i);
      EndsAt(ws, ops, n - 1, i, ws[n].jobs[i]);
    }
  }

  lemma NotAtFirst(ws: seq<World>, ops: seq<Op>, n: nat, i: nat)
    requires IsRun(ws, ops) && n < |ws| && IsOver(ws[n].jobs, i)
    ensures 0 < n && i < |ws[n].jobs| && |ops| + 1 == |ws|
  {}

  lemma NotNew(jobs: seq<Job>, i: nat)
    requires IsOver(jobs, i)
    ensures jobs[i].status != Queued && jobs[i].Terminal()
  {}

  lemma EndsAt(ws: seq<World>, ops: seq<Op>, k: nat, i: nat, j: Job)
    requires |ops| < |ws| && k < |ops| && i < |ws[k].jobs| && !ws[k].jobs[i].Terminal()
    requires i < |ws[k + 1].jobs| && ws[k + 1].jobs[i] == j && Settles(ops[k], Answer(ws[k].jobs, ops[k]), j)
    ensures EndedAt(ws, ops, k, i, j)
  {
    hide Settles, Answer;
  }

  predicate IsOver(jobs: seq<Job>, i: nat) {
    i < |jobs| && jobs[i].Terminal()
  }

  lemma AlreadyOver(jobs: seq<Job>, op: Op, i: nat)
    requires IsOver(jobs, i)
    ensures jobs[i].Terminal() && i < |Next(jobs, op)| && Next(jobs, op)[i] == jobs[i]
  {
    RowsPersist(jobs, op);
  }

  lemma EndsNow(jobs: seq<Job>, op: Op, i: nat)
    requires Sound(jobs) && i < |jobs| && Blank(jobs[i]) && !IsOver(jobs, i)
    requires i < |Next(jobs, op)| && Next(jobs, op)[i].Terminal()
    ensures !jobs[i].Terminal() && Settles(op, Answer(jobs, op), Next(jobs, op)[i])
  {
    hide Sound, Next, Settles, Answer;
    StepSettles(jobs, op, i);
  }

  // ---- whose lease it is under ---------------------------------------------------------------

  /** The row is held under the lease that this operation, so answered, gave out or renewed. */
  predicate Leases(op: Op, reply: Reply, j: Job) {
    match op
    case Claim(runner, nonce, now) =>
      && reply == Work(j.id, j.kind, j.jobId, j.payload, nonce, j.attempts) && j.nonce == Some(nonce) && j.status == Status.Claimed
      && j.claimedBy == Some(runner) && j.claimedAt == Some(now) && j.lastHeartbeatAt == Some(now) && j.leaseExpiresAt == Some(now + 600_000)
    case Heartbeat(id, runner, now) =>
      && reply == Renewed(now + 600_000) && j.id == id && j.status == Running
      && j.claimedBy == Some(runner) && j.lastHeartbeatAt == Some(now) && j.leaseExpiresAt == Some(now + 600_000)
    case _ => false
  }

  /** The same lease, whatever else was reported. */
  predicate SameLease(j: Job, j': Job) {
    && j.id == j'.id && j.kind == j'.kind && j.jobId == j'.jobId && j.payload == j'.payload && j.nonce == j'.nonce
    && j.attempts == j'.attempts && j.status == j'.status && j.claimedBy == j'.claimedBy && j.claimedAt == j'.claimedAt
    && j.lastHeartbeatAt == j'.lastHeartbeatAt && j.leaseExpiresAt == j'.leaseExpiresAt
  }

  lemma NamedLease(op: Op, j: Job)
    requires !op.Enqueue? && !op.Claim? && op.id == j.id && RowAfter(op, j).Held()
    ensures Leases(op, RowReply(op, j), RowAfter(op, j)) || SameLease(j, RowAfter(op, j))
  {}

  lemma ClaimLease(j: Job, op: Op)
    requires op.Claim?
    ensures Leases(op, Offer(j, op.nonce), ClaimRow(j, op.runner, op.nonce, op.now, LEASE_MS))
  {}

  lemma SweptLease(j: Job, now: nat)
    ensures var j' := SweepRow(j, now, MAX_ATTEMPTS); j'.Held() ==> j' == j
  {}

  lemma StepLease(jobs: seq<Job>, op: Op, i: nat)
    requires i < |jobs| && i < |Next(jobs, op)| && Next(jobs, op)[i].Held()
    ensures Leases(op, Answer(jobs, op), Next(jobs, op)[i]) || SameLease(jobs[i], Next(jobs, op)[i])
  {
    hide SweepRow, ClaimRow, RowAfter, RowReply, Leases, Offer;
    if op.Claim? {
      SweptLease(jobs[i], op.now);
      ClaimLease(Sweep(jobs, op.now, MAX_ATTEMPTS)[i], op);
    } else if !op.Enqueue? {
      if IndexOf(jobs, op.id) == i {
        NamedLease(op, jobs[i]);
      }
    }
  }

  /** A held row is under the lease of its holder's latest claim or heartbeat: ten minutes from
      then, claimed until the first heartbeat and running after it. */
  lemma {:induction false} LeaseFrom(ws: seq<World>, ops: seq<Op>, n: nat, i: nat) returns (k: nat)
    requires IsRun(ws, ops) && n < |ws| && i < |ws[n].jobs| && ws[n].jobs[i].Held()
    ensures k < n && i < |ws[k + 1].jobs| && Leases(ops[k], Answer(ws[k].jobs, ops[k]), ws[k + 1].jobs[i])
    ensures SameLease(ws[k + 1].jobs[i], ws[n].jobs[i])
    decreases n
  {
    Before(ws, ops, n, i);
    assert i < |ws[n - 1].jobs|;
    hide *;
    StepLease(ws[n - 1].jobs, ops[n - 1], i);
    if Leases(ops[n - 1], Answer(ws[n - 1].jobs, ops[n - 1]), ws[n].jobs[i]) {
      k := n - 1;
      LeaseOn(ws[n].jobs[i], ws[n].jobs[i], ws[n].jobs[i]);
    } else {
      StillHeld(ws[n - 1].jobs[i], ws[n].jobs[i]);
      k := LeaseFrom(ws, ops, n - 1, i);
      LeaseOn(ws[k + 1].jobs[i], ws[n - 1].jobs[i], ws[n].jobs[i]);
    }
  }

  lemma StillHeld(j: Job, j': Job)
    requires SameLease(j, j') && j'.Held()
    ensures j.Held()
  {}

  lemma LeaseOn(j: Job, j': Job, j'': Job)
    ensures SameLease(j, j)
    ensures SameLease(j, j') && SameLease(j', j'') ==> SameLease(j, j'')
  {}

  /** A claim takes a held row away from its holder exactly when the lease is over: the row is
      then queued again, or leased out anew, or dead after the third attempt. */
  lemma ClaimTakesLapsed(jobs: seq<Job>, op: Op, i: nat, lease: nat)
    requires Sound(jobs) && op.Claim? && i < |jobs| && jobs[i].Held() && jobs[i].leaseExpiresAt == Some(lease)
    ensures i < |Next(jobs, op)|
    ensures var (j, j') := (jobs[i], Next(jobs, op)[i]);
            && (op.now <= lease ==> j' == j)
            && (op.now > lease && j.attempts == 3 ==>
                  j'.status == Dead && j'.claimedBy == None && j'.claimedAt == None && j'.leaseExpiresAt == None)
            && (op.now > lease && j.attempts < 3 ==>
                  (j'.status == Queued && j'.attempts == j.attempts && j'.error == None && j'.nonce == None &&
                   j'.claimedBy == None && j'.claimedAt == None && j'.leaseExpiresAt == None && j'.updatedAt == op.now) ||
                  (j'.status == Status.Claimed && j'.attempts == j.attempts + 1 && j'.nonce == Some(op.nonce)))
  {
    assert jobs[i] in jobs;
  }

  // ---- what it was enqueued as -----------------------------------------------------------------

  predicate Requeues(op: Op, reply: Reply, id: string) {
    op.Requeue? && op.id == id && reply == Ok
  }

  predicate SameWork(j: Job, j': Job) {
    j.id == j'.id && j.kind == j'.kind && j.jobId == j'.jobId && j.payload == j'.payload
  }

  lemma NamedWork(op: Op, j: Job)
    requires !op.Enqueue? && !op.Claim? && op.id == j.id
    ensures SameWork(j, RowAfter(op, j))
    ensures RowAfter(op, j).createdAt == if Requeues(op, RowReply(op, j), j.id) then op.now else j.createdAt
  {}

  lemma SweptWork(j: Job, now: nat)
    ensures SameWork(j, SweepRow(j, now, MAX_ATTEMPTS)) && SweepRow(j, now, MAX_ATTEMPTS).createdAt == j.createdAt
  {}

  lemma LeasedWork(j: Job, op: Op)
    requires op.Claim?
    ensures var j' := ClaimRow(j, op.runner, op.nonce, op.now, LEASE_MS); SameWork(j, j') && j'.createdAt == j.createdAt
  {}

  lemma StepWork(jobs: seq<Job>, op: Op, i: nat)
    requires UniqueIds(jobs) && i < |jobs| && i < |Next(jobs, op)|
    ensures SameWork(jobs[i], Next(jobs, op)[i])
    ensures Next(jobs, op)[i].createdAt == if Requeues(op, Answer(jobs, op), jobs[i].id) then op.now else jobs[i].createdAt
  {
    hide SweepRow, ClaimRow, RowAfter, RowReply, Offer;
    if op.Claim? {
      SweptWork(jobs[i], op.now);
      LeasedWork(Sweep(jobs, op.now, MAX_ATTEMPTS)[i], op);
    } else if !op.Enqueue? {
      if IndexOf(jobs, op.id) == i {
        NamedWork(op, jobs[i]);
      }
    }
  }

  /** The row is the job that the k-th operation enqueued, waiting since the m-th. */
  predicate WaitsSince(ws: seq<World>, ops: seq<Op>, n: nat, j: Job, k: nat, m: nat)
    requires n <= |ops| && |ops| <= |ws|
  {
    && k <= m < n && ops[k].Enqueue?
    && j.id == ops[k].id && j.kind == ops[k].kind && j.jobId == ops[k].jobId && j.payload == ops[k].payload
    && j.createdAt == ops[m].now
    && (m == k || Requeues(ops[m], Answer(ws[m].jobs, ops[m]), j.id))
    && forall x :: m < x < n ==> !Requeues(ops[x], Answer(ws[x].jobs, ops[x]), j.id)
  }

  /** A row is the job that was enqueued, to its last field of work, and it waits since then or
      since the latest requeue that was honoured. */
  lemma {:induction false} RowIsEnqueued(ws: seq<World>, ops: seq<Op>, n: nat, i: nat) returns (k: nat, m: nat)
    requires IsRun(ws, ops) && n < |ws| && i < |ws[n].jobs|
    ensures WaitsSince(ws, ops, n, ws[n].jobs[i], k, m)
    decreases n
  {
    Before(ws, ops, n, i);
    hide *;
    if i == |ws[n - 1].jobs| {
      k, m := n - 1, n - 1;
      WaitsFirst(ws, ops, n, ws[n].jobs[i]);
    } else {
      SoundIds(ws[n - 1].jobs);
      k, m := RowIsEnqueued(ws, ops, n - 1, i);
      StepWork(ws[n - 1].jobs, ops[n - 1], i);
      WaitsOn(ws, ops, n, ws[n - 1].jobs[i], ws[n].jobs[i], k, m);
      m := if Requeues(ops[n - 1], Answer(ws[n - 1].jobs, ops[n - 1]), ws[n].jobs[i].id) then n - 1 else m;
    }
  }

  lemma WaitsFirst(ws: seq<World>, ops: seq<Op>, n: nat, j: Job)
    requires 0 < n <= |ops| <= |ws| && ops[n - 1].Enqueue?
    requires j.id == ops[n - 1].id && j.kind == ops[n - 1].kind && j.jobId == ops[n - 1].jobId && j.payload == ops[n - 1].payload
    requires j.createdAt == ops[n - 1].now
    ensures WaitsSince(ws, ops, n, j, n - 1, n - 1)
  {}

  lemma WaitsOn(ws: seq<World>, ops: seq<Op>, n: nat, j: Job, j': Job, k: nat, m: nat)
    requires 0 < n <= |ops| <= |ws| && WaitsSince(ws, ops, n - 1, j, k, m) && SameWork(j, j')
    requires j'.createdAt == if Requeues(ops[n - 1], Answer(ws[n - 1].jobs, ops[n - 1]), j.id) then ops[n - 1].now else j.createdAt
    ensures WaitsSince(ws, ops, n, j', k, if Requeues(ops[n - 1], Answer(ws[n - 1].jobs, ops[n - 1]), j'.id) then n - 1 else m)
  {
    hide Answer;
  }

  lemma SoundIds(jobs: seq<Job>)
    requires Sound(jobs)
    ensures UniqueIds(jobs)
  {}

  // ---- what is answered -------------------------------------------------------------------------

  /** An id without a row: only a heartbeat and an append do not tell it apart from a refusal. */
  lemma UnknownIsAnswered(jobs: seq<Job>, op: Op)
    requires !op.Enqueue? && !op.Claim? && forall j :: j in jobs ==> j.id != op.id
    ensures Answer(jobs, op) == (if op.Heartbeat? || op.Append? then Refused else NotFound) && Next(jobs, op) == jobs
  {}

  /** The answers about a row, by the first reason that applies: a finished row is never touched
      again, held rows obey their holder alone and the nonce of the claim, and only a queued row
      can be canceled or requeued. */
  lemma RowIsAnswered(jobs: seq<Job>, op: Op, i: nat)
    requires Sound(jobs) && !op.Enqueue? && !op.Claim? && i < |jobs| && jobs[i].id == op.id
    ensures var (j, reply) := (jobs[i], Answer(jobs, op));
            var over := j.status in {Done, Failed, Dead};
            match op
            case Heartbeat(_, runner, now) =>
              (reply == Renewed(now + 600_000) <==> j.status in {Status.Claimed, Running} && j.claimedBy == Some(runner)) &&
              (reply.Renewed? || reply == Refused)
            case Append(_, runner, _, _) => reply == if !over && j.claimedBy == Some(runner) then Ok else Refused
            case Complete(_, runner, nonce, _, _, _, _) =>
              (reply == AlreadyFinished(j.jobId, j.kind) <==> over) &&
              (reply == NotHolder <==> !over && (j.status == Queued || j.claimedBy != Some(runner))) &&
              (reply == NonceMismatch <==> !over && j.status != Queued && j.claimedBy == Some(runner) && j.nonce != Some(nonce)) &&
              (reply == Finished(j.jobId, j.kind) <==> !over && j.status != Queued && j.claimedBy == Some(runner) && j.nonce == Some(nonce))
            case Cancel(_, _) =>
              reply == if over then AlreadyTerminal(j.status) else if j.status == Queued then Ok else RefusedClaimed(j.status)
            case Requeue(_, _) =>
              reply == if over then RefusedTerminal(j.status) else if j.status == Queued then Ok else RefusedClaimed(j.status)
  {
    assert IndexOf(jobs, op.id) == i;
    assert jobs[i] in jobs;
  }
}
