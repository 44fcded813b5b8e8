/** The runner queue of the SQL store: one table row per job, and every method as the
    statements it sends, each with its own `where` and `set` clauses under three-valued logic.

    A method is one atomic step on the table. Operations and answers are those of AgentQueue;
    nothing else of the file store is used here. */
module PgQueue {
  import opened Options
  import opened AgentQueue

  // ---- SQL values -------------------------------------------------------------------

  datatype Truth = True | False | Unknown

  function And(a: Truth, b: Truth): Truth {
    if a == False || b == False then False else if a == True && b == True then True else Unknown
  }

  function Not(a: Truth): Truth {
    match a case True => False case False => True case Unknown => Unknown
  }

  /** `a = b`: unknown as soon as one side is null. */
  function Eq<T(==)>(a: Option<T>, b: Option<T>): Truth {
    if a.None? || b.None? then Unknown else if a.value == b.value then True else False
  }

  /** `a < b` */
  function Lt(a: Option<nat>, b: Option<nat>): Truth {
    if a.None? || b.None? then Unknown else if a.value < b.value then True else False
  }

  /** `s in (...)` on a column that is not null. */
  function In(s: string, list: seq<string>): Truth {
    if s in list then True else False
  }

  /** `coalesce(a, b)`: only null is replaced. */
  function Coalesce(a: Option<string>, b: string): Option<string> {
    if a.None? then Some(b) else a
  }

  // ---- the table ----------------------------------------------------------------------

  datatype Row = Row(
    id: string, kind: string, jobId: Option<string>, payload: string,
    status: string, nonce: Option<Nonce>, claimedBy: Option<string>, claimedAt: Option<nat>,
    leaseExpiresAt: Option<nat>, lastHeartbeatAt: Option<nat>, attempts: nat,
    progress: seq<string>, result: Option<string>, error: Option<string>,
    createdAt: nat, updatedAt: nat)

  type Table = map<string, Row>

  /** `update agent_jobs set ... where ...`: rows whose condition is true are set, those whose
      condition is false or unknown are left. */
  function Updated(rows: Table, where: Row -> Truth, change: Row -> Row): Table {
    map k | k in rows :: if where(rows[k]) == True then change(rows[k]) else rows[k]
  }

  /** The rows an update returns or counts. */
  function Hit(rows: Table, where: Row -> Truth): set<string> {
    set k | k in rows && where(rows[k]) == True
  }

  // ---- the statements -----------------------------------------------------------------

  const LIVE := ["claimed", "running"]
  const FINAL := ["done", "failed", "dead"]

  function ExpiredWhere(r: Row, now: nat): Truth {
    And(In(r.status, LIVE), Lt(r.leaseExpiresAt, Some(now)))
  }

  function ExpiredSet(r: Row, now: nat): Row {
    r.(status := if r.attempts >= MAX_ATTEMPTS then "dead" else "queued",
       error := if r.attempts >= MAX_ATTEMPTS then Coalesce(r.error, "lease expired; attempts exhausted") else r.error,
       claimedBy := None, claimedAt := None, leaseExpiresAt := None, nonce := None, updatedAt := now)
  }

  /** The columns an insert does not name take their defaults. */
  function InsertedRow(id: string, kind: string, jobId: Option<string>, payload: string, now: nat): Row {
    Row(id, kind, jobId, payload, "queued", None, None, None, None, None, 0, [], None, None, now, now)
  }

  function ClaimableWhere(r: Row): Truth {
    And(Eq(Some(r.status), Some("queued")), Lt(Some(r.attempts), Some(MAX_ATTEMPTS)))
  }

  /** `id = ...`, where the value may be a select that found nothing. */
  function IdWhere(r: Row, id: Option<string>): Truth {
    Eq(Some(r.id), id)
  }

  function ClaimSet(r: Row, runner: string, nonce: Nonce, now: nat): Row {
    r.(status := "claimed", claimedBy := Some(runner), claimedAt := Some(now), leaseExpiresAt := Some(now + LEASE_MS),
       lastHeartbeatAt := Some(now), attempts := r.attempts + 1, nonce := Some(nonce), updatedAt := now)
  }

  function HeartbeatWhere(r: Row, id: string, runner: string): Truth {
    And(And(Eq(Some(r.id), Some(id)), Eq(r.claimedBy, Some(runner))), In(r.status, LIVE))
  }

  function HeartbeatSet(r: Row, now: nat): Row {
    r.(status := "running", leaseExpiresAt := Some(now + LEASE_MS), lastHeartbeatAt := Some(now), updatedAt := now)
  }

  function AppendWhere(r: Row, id: string, runner: string): Truth {
    And(And(Eq(Some(r.id), Some(id)), Eq(r.claimedBy, Some(runner))), Not(In(r.status, FINAL)))
  }

  function AppendSet(r: Row, lines: seq<string>, now: nat): Row {
    r.(progress := r.progress + lines, updatedAt := now)
  }

  function CompleteSet(r: Row, status: string, result: Option<string>, error: Option<string>, now: nat): Row {
    r.(status := status, result := result, error := error, nonce := None, updatedAt := now)
  }

  function QueuedWhere(r: Row, id: string): Truth {
    And(Eq(Some(r.id), Some(id)), Eq(Some(r.status), Some("queued")))
  }

  function CancelSet(r: Row, now: nat): Row {
    r.(status := "failed", error := Some("canceled by owner before a runner claimed it"), nonce := None, updatedAt := now)
  }

  function RequeueSet(r: Row, now: nat): Row {
    r.(createdAt := now, updatedAt := now)
  }

  // ---- the methods as steps -------------------------------------------------------------

  /** What completing answers, from the row that the select found. */
  function CompleteReply(r: Row, runner: string, nonce: Nonce): Reply {
    if r.status == "done" || r.status == "failed" || r.status == "dead" then AlreadyFinished(r.jobId, r.kind)
    else if r.claimedBy != Some(runner) || (r.status != "claimed" && r.status != "running") then NotHolder
    else if r.nonce.None? || r.nonce.value != nonce then NonceMismatch
    else Finished(r.jobId, r.kind)
  }

  /** The status names of the table, as the answers carry them. */
  function StatusOf(s: string): Status {
    if s == "queued" then Queued else if s == "claimed" then Status.Claimed else if s == "running" then Running
    else if s == "done" then Done else if s == "failed" then Failed else Dead
  }

  function PgNext(rows: Table, op: Op): Table
    requires !op.Claim?
  {
    match op
    case Enqueue(id, kind, jobId, payload, now) => rows[id := InsertedRow(id, kind, jobId, payload, now)]
    case Heartbeat(id, runner, now) => Updated(rows, r => HeartbeatWhere(r, id, runner), r => HeartbeatSet(r, now))
    case Append(id, runner, lines, now) => Updated(rows, r => AppendWhere(r, id, runner), r => AppendSet(r, lines, now))
    case Complete(id, runner, nonce, status, error, result, now) =>
      if id !in rows || !CompleteReply(rows[id], runner, nonce).Finished? then rows
      else
        var final := if status == "failed" then "failed" else "done";
        var reason := if final == "failed" then Some(OrElse(error, "runner reported failure")) else None;
        Updated(rows, r => IdWhere(r, Some(id)), r => CompleteSet(r, final, result, reason, now))
    case Cancel(id, now) =>
      if id !in rows || rows[id].status != "queued" then rows else Updated(rows, r => QueuedWhere(r, id), r => CancelSet(r, now))
    case Requeue(id, now) =>
      if id !in rows || rows[id].status != "queued" then rows else Updated(rows, r => QueuedWhere(r, id), r => RequeueSet(r, now))
  }

  function PgAnswer(rows: Table, op: Op): Reply
    requires !op.Claim?
  {
    match op
    case Enqueue(id, _, _, _, _) => Created(id)
    case Heartbeat(id, runner, now) => if Hit(rows, r => HeartbeatWhere(r, id, runner)) == {} then Refused else Renewed(now + LEASE_MS)
    case Append(id, runner, _, _) => if Hit(rows, r => AppendWhere(r, id, runner)) == {} then Refused else Ok
    case Complete(id, runner, nonce, _, _, _, _) => if id !in rows then NotFound else CompleteReply(rows[id], runner, nonce)
    case Cancel(id, _) =>
      if id !in rows then NotFound
      else if rows[id].status in FINAL then AlreadyTerminal(StatusOf(rows[id].status))
      else if rows[id].status != "queued" then RefusedClaimed(StatusOf(rows[id].status))
      else if Hit(rows, r => QueuedWhere(r, id)) == {} then RefusedClaimed(Status.Claimed) else Ok
    case Requeue(id, _) =>
      if id !in rows then NotFound
      else if rows[id].status in FINAL then RefusedTerminal(StatusOf(rows[id].status))
      else if rows[id].status != "queued" then RefusedClaimed(StatusOf(rows[id].status))
      else if Hit(rows, r => QueuedWhere(r, id)) == {} then RefusedClaimed(Status.Claimed) else Ok
  }

  function SweptTable(rows: Table, now: nat): Table {
    Updated(rows, r => ExpiredWhere(r, now), r => ExpiredSet(r, now))
  }

  /** The inner select of a claim: some claimable row that no claimable row is older than. Which
      of several oldest rows comes first is left open. */
  ghost predicate MayPick(rows: Table, pick: Option<string>) {
    if pick.None? then forall k :: k in rows ==> ClaimableWhere(rows[k]) != True
    else
      pick.value in rows && ClaimableWhere(rows[pick.value]) == True &&
      forall k :: k in rows && ClaimableWhere(rows[k]) == True ==> rows[pick.value].createdAt <= rows[k].createdAt
  }

  ghost predicate MayClaim(rows: Table, op: Op, pick: Option<string>)
    requires op.Claim?
  {
    MayPick(SweptTable(rows, op.now), pick)
  }

  function PgClaimNext(rows: Table, op: Op, pick: Option<string>): Table
    requires op.Claim?
  {
    Updated(SweptTable(rows, op.now), r => IdWhere(r, pick), r => ClaimSet(r, op.runner, op.nonce, op.now))
  }

  function PgClaimAnswer(rows: Table, op: Op, pick: Option<string>): Reply
    requires op.Claim?
  {
    var next := PgClaimNext(rows, op, pick);
    if pick.None? || pick.value !in next then NoWork
    else
      var r := next[pick.value];
      Work(r.id, r.kind, r.jobId, r.payload, op.nonce, r.attempts)
  }

  /** Every row stands under its primary key. */
  predicate Keyed(rows: Table) {
    forall k :: k in rows ==> rows[k].id == k
  }

  /** The agent_jobs table behind the SQL store. */
  class PgStoreQueue {
    var rows: Table

    method Update(where: Row -> Truth, change: Row -> Row) returns (hit: set<string>)
      modifies this
      ensures rows == Updated(old(rows), where, change) && hit == Hit(old(rows), where)
    {
      hit := {};
      var rest := rows.Keys;
      ghost var before := rows;
      while rest != {}
        invariant rest <= rows.Keys == before.Keys && hit == set k | k in before && k !in rest && where(before[k]) == True
        invariant forall k :: k in rest ==> rows[k] == before[k]
        invariant forall k :: k in before && k !in rest ==> rows[k] == if where(before[k]) == True then change(before[k]) else before[k]
        decreases rest
      {
        var k :| k in rest;
        if where(rows[k]) == True {
          rows, hit := rows[k := change(rows[k])], hit + {k};
        }
        rest := rest - {k};
      }
      assert rows == Updated(before, where, change);
    }

    method EnqueueAgentJob(id: string, kind: string, jobId: Option<string>, payload: string, now: nat) returns (reply: Reply)
      modifies this
      ensures var op := Enqueue(id, kind, jobId, payload, now); rows == PgNext(old(rows), op) && reply == PgAnswer(old(rows), op)
    {
      rows := rows[id := InsertedRow(id, kind, jobId, payload, now)];
      return Created(id);
    }

    method ClaimAgentJob(runner: string, nonce: Nonce, now: nat) returns (reply: Reply, ghost pick: Option<string>)
      requires Keyed(rows)
      modifies this
      ensures MayClaim(old(rows), Claim(runner, nonce, now), pick)
      ensures rows == PgClaimNext(old(rows), Claim(runner, nonce, now), pick)
      ensures reply == PgClaimAnswer(old(rows), Claim(runner, nonce, now), pick)
    {
      var _ := Update(r => ExpiredWhere(r, now), r => ExpiredSet(r, now));
      ghost var swept := rows;
      var candidates := Hit(rows, ClaimableWhere);
      if candidates == {} {
        assert forall k :: k in rows && ClaimableWhere(rows[k]) == True ==> k in candidates;
        assert rows == Updated(rows, r => IdWhere(r, None), r => ClaimSet(r, runner, nonce, now));
        return NoWork, None;
      }
      var id := Oldest(rows, candidates);
      var hit := Update(r => IdWhere(r, Some(id)), r => ClaimSet(r, runner, nonce, now));
      assert swept[id].id == id;
      assert rows[id] == ClaimSet(swept[id], runner, nonce, now);
      var r := rows[id];
      return Work(r.id, r.kind, r.jobId, r.payload, nonce, r.attempts), Some(id);
    }

    static method Oldest(rows: Table, candidates: set<string>) returns (id: string)
      requires candidates != {} && candidates <= rows.Keys
      ensures id in candidates && forall k :: k in candidates ==> rows[id].createdAt <= rows[k].createdAt
    {
      id :| id in candidates;
      var rest := candidates - {id};
      while rest != {}
        invariant id in candidates && rest <= candidates
        invariant forall k :: k in candidates - rest ==> rows[id].createdAt <= rows[k].createdAt
        decreases rest
      {
        var k :| k in rest;
        if rows[k].createdAt < rows[id].createdAt {
          id := k;
        }
        rest := rest - {k};
      }
    }

    method HeartbeatAgentJob(id: string, runner: string, now: nat) returns (reply: Reply)
      modifies this
      ensures var op := Heartbeat(id, runner, now); rows == PgNext(old(rows), op) && reply == PgAnswer(old(rows), op)
    {
      var hit := Update(r => HeartbeatWhere(r, id, runner), r => HeartbeatSet(r, now));
      if hit == {} {
        return Refused;
      }
      var k :| k in hit;
      return Renewed(rows[k].leaseExpiresAt.value);
    }

    method AppendAgentJobProgress(id: string, runner: string, lines: seq<string>, now: nat) returns (reply: Reply)
      modifies this
      ensures var op := Append(id, runner, lines, now); rows == PgNext(old(rows), op) && reply == PgAnswer(old(rows), op)
    {
      var hit := Update(r => AppendWhere(r, id, runner), r => AppendSet(r, lines, now));
      return if hit == {} then Refused else Ok;
    }

    method CompleteAgentJob(id: string, runner: string, nonce: Nonce, status: string, error: Option<string>,
                            result: Option<string>, now: nat) returns (reply: Reply)
      modifies this
      ensures var op := Complete(id, runner, nonce, status, error, result, now);
              rows == PgNext(old(rows), op) && reply == PgAnswer(old(rows), op)
    {
      if id !in rows {
        return NotFound;
      }
      var row := rows[id];
      if row.status == "done" || row.status == "failed" || row.status == "dead" {
        return AlreadyFinished(row.jobId, row.kind);
      }
      if row.claimedBy != Some(runner) || (row.status != "claimed" && row.status != "running") {
        return NotHolder;
      }
      if row.nonce.None? || row.nonce.value != nonce {
        return NonceMismatch;
      }
      var final := if status == "failed" then "failed" else "done";
      var reason := if final == "failed" then Some(OrElse(error, "runner reported failure")) else None;
      var _ := Update(r => IdWhere(r, Some(id)), r => CompleteSet(r, final, result, reason, now));
      return Finished(row.jobId, row.kind);
    }

    method CancelAgentJob(id: string, now: nat) returns (reply: Reply)
      modifies this
      ensures rows == PgNext(old(rows), Cancel(id, now)) && reply == PgAnswer(old(rows), Cancel(id, now))
    {
      if id !in rows {
        return NotFound;
      }
      var status := rows[id].status;
      if status in FINAL {
        return AlreadyTerminal(StatusOf(status));
      }
      if status != "queued" {
        return RefusedClaimed(StatusOf(status));
      }
      var hit := Update(r => QueuedWhere(r, id), r => CancelSet(r, now));
      return if hit == {} then RefusedClaimed(Status.Claimed) else Ok;
    }

    method RequeueAgentJob(id: string, now: nat) returns (reply: Reply)
      modifies this
      ensures rows == PgNext(old(rows), Requeue(id, now)) && reply == PgAnswer(old(rows), Requeue(id, now))
    {
      if id !in rows {
        return NotFound;
      }
      var status := rows[id].status;
      if status in FINAL {
        return RefusedTerminal(StatusOf(status));
      }
      if status != "queued" {
        return RefusedClaimed(StatusOf(status));
      }
      var hit := Update(r => QueuedWhere(r, id), r => RequeueSet(r, now));
      return if hit == {} then RefusedClaimed(Status.Claimed) else Ok;
    }
  }
}
