/** How far the SQL store's table and the file store's array tell the same story. */
module QueueStores {
  import opened Options
  import opened AgentQueue
  import opened PgQueue
  import H = AgentQueueHistory

  // ---- a record as a row ------------------------------------------------------------------

  function StatusText(s: Status): (t: string) {
    match s
    case Queued => "queued" case Claimed => "claimed" case Running => "running"
    case Done => "done" case Failed => "failed" case Dead => "dead"
  }

  function AsRow(j: Job): Row {
    Row(j.id, j.kind, j.jobId, j.payload, StatusText(j.status), j.nonce, j.claimedBy, j.claimedAt, j.leaseExpiresAt,
        j.lastHeartbeatAt, j.attempts, j.progress, j.result, j.error, j.createdAt, j.updatedAt)
  }

  lemma StatusTexts(s: Status)
    ensures StatusText(s) == "queued" <==> s == Queued
    ensures StatusText(s) in LIVE <==> s == Status.Claimed || s == Running
    ensures StatusText(s) in FINAL <==> s == Done || s == Failed || s == Dead
    ensures StatusOf(StatusText(s)) == s
    ensures StatusText(s) == "done" <==> s == Done
    ensures StatusText(s) == "failed" <==> s == Failed
    ensures StatusText(s) == "dead" <==> s == Dead
    ensures StatusText(s) == "claimed" <==> s == Status.Claimed
    ensures StatusText(s) == "running" <==> s == Running
  {}

  /** No two records are one row. */
  lemma RowsDetermine(a: Job, b: Job)
    ensures AsRow(a) == AsRow(b) ==> a == b
  {
    StatusTexts(a.status);
    StatusTexts(b.status);
    hide StatusText;
  }

  /** The table holds exactly the records of the array, each under its id. */
  ghost predicate SameRows(jobs: seq<Job>, rows: Table) {
    && H.UniqueIds(jobs)
    && (forall j :: j in jobs ==> j.id in rows && rows[j.id] == AsRow(j))
    && (forall k :: k in rows ==> exists j :: j in jobs && j.id == k)
  }

  lemma RowOf(jobs: seq<Job>, rows: Table, k: string) returns (i: nat)
    requires SameRows(jobs, rows) && k in rows
    ensures i < |jobs| && jobs[i].id == k && rows[k] == AsRow(jobs[i])
  {
    var j :| j in jobs && j.id == k;
    i :| i < |jobs| && jobs[i] == j;
  }

  lemma TableKeyed(jobs: seq<Job>, rows: Table)
    requires SameRows(jobs, rows)
    ensures Keyed(rows)
  {
    forall k | k in rows ensures rows[k].id == k {
      var i := RowOf(jobs, rows, k);
    }
  }

  // ---- one row ------------------------------------------------------------------------------

  predicate NamesRow(op: Op) {
    !op.Enqueue? && !op.Claim?
  }

  /** The guard of the update that an operation sends for the row it names. */
  function Guard(op: Op, r: Row): Truth
    requires NamesRow(op)
  {
    match op
    case Heartbeat(id, runner, _) => HeartbeatWhere(r, id, runner)
    case Append(id, runner, _, _) => AppendWhere(r, id, runner)
    case Complete(id, runner, nonce, _, _, _, _) => if CompleteReply(r, runner, nonce).Finished? then IdWhere(r, Some(id)) else False
    case Cancel(id, _) => QueuedWhere(r, id)
    case Requeue(id, _) => QueuedWhere(r, id)
  }

  function Change(op: Op, r: Row): Row
    requires NamesRow(op)
  {
    match op
    case Heartbeat(_, _, now) => HeartbeatSet(r, now)
    case Append(_, _, lines, now) => AppendSet(r, lines, now)
    case Complete(_, _, _, status, error, result, now) =>
      CompleteSet(r, if status == "failed" then "failed" else "done", result,
                  if status == "failed" then Some(OrElse(error, "runner reported failure")) else None, now)
    case Cancel(_, now) => CancelSet(r, now)
    case Requeue(_, now) => RequeueSet(r, now)
  }

  /** On a keyed table the update of an operation sets at most the row it names. */
  lemma OneRow(rows: Table, op: Op)
    requires Keyed(rows) && NamesRow(op)
    ensures PgNext(rows, op) ==
            if op.id in rows && Guard(op, rows[op.id]) == True then rows[op.id := Change(op, rows[op.id])] else rows
  {
    match op {
      case Heartbeat(id, runner, now) => OneUpdate(rows, id, r => HeartbeatWhere(r, id, runner), r => HeartbeatSet(r, now));
      case Append(id, runner, lines, now) => OneUpdate(rows, id, r => AppendWhere(r, id, runner), r => AppendSet(r, lines, now));
      case Complete(id, runner, nonce, status, error, result, now) => OneCompleted(rows, op);
      case Cancel(id, now) => OneUpdate(rows, id, r => QueuedWhere(r, id), r => CancelSet(r, now));
      case Requeue(id, now) => OneUpdate(rows, id, r => QueuedWhere(r, id), r => RequeueSet(r, now));
    }
  }

  lemma OneUpdate(rows: Table, id: string, where: Row -> Truth, change: Row -> Row)
    requires Keyed(rows) && forall r :: where(r) == True ==> r.id == id
    ensures Updated(rows, where, change) == if id in rows && where(rows[id]) == True then rows[id := change(rows[id])] else rows
  {}

  lemma OneCompleted(rows: Table, op: Op)
    requires Keyed(rows) && op.Complete?
    ensures PgNext(rows, op) ==
            if op.id in rows && Guard(op, rows[op.id]) == True then rows[op.id := Change(op, rows[op.id])] else rows
  {
    var final := if op.status == "failed" then "failed" else "done";
    var reason := if final == "failed" then Some(OrElse(op.error, "runner reported failure")) else None;
    OneUpdate(rows, op.id, r => IdWhere(r, Some(op.id)), r => CompleteSet(r, final, op.result, reason, op.now));
  }

  lemma OneHit(rows: Table, id: string, where: Row -> Truth)
    requires Keyed(rows) && forall r :: where(r) == True ==> r.id == id
    ensures Hit(rows, where) == {} <==> !(id in rows && where(rows[id]) == True)
  {
    if id in rows && where(rows[id]) == True {
      assert id in Hit(rows, where);
    }
  }

  /** On the row of a record, the guard lets an operation through exactly when the file store
      does, and then both leave the same, up to the file store's progress window. */
  lemma SameEffect(op: Op, j: Job)
    requires NamesRow(op) && op.id == j.id
    ensures Guard(op, AsRow(j)) != True ==> RowAfter(op, j) == j
    ensures Guard(op, AsRow(j)) == True ==>
              Change(op, AsRow(j)) == AsRow(if op.Append? then j.(progress := j.progress + op.lines, updatedAt := op.now) else RowAfter(op, j))
    ensures op.Append? ==> (Guard(op, AsRow(j)) == True <==> RowReply(op, j).Ok?)
  {
    StatusTexts(j.status);
    StatusTexts(Running);
    StatusTexts(Done);
    StatusTexts(Failed);
    hide StatusText;
  }

  /** What an operation answers from the one row it names. */
  function SqlReply(op: Op, r: Row): Reply
    requires NamesRow(op)
  {
    match op
    case Heartbeat(_, _, now) => if Guard(op, r) == True then Renewed(now + LEASE_MS) else Refused
    case Append(_, _, _, _) => if Guard(op, r) == True then Ok else Refused
    case Complete(_, runner, nonce, _, _, _, _) => CompleteReply(r, runner, nonce)
    case Cancel(_, _) =>
      if r.status in FINAL then AlreadyTerminal(StatusOf(r.status))
      else if r.status != "queued" then RefusedClaimed(StatusOf(r.status)) else Ok
    case Requeue(_, _) =>
      if r.status in FINAL then RefusedTerminal(StatusOf(r.status))
      else if r.status != "queued" then RefusedClaimed(StatusOf(r.status)) else Ok
  }

  lemma OneAnswer(rows: Table, op: Op)
    requires Keyed(rows) && NamesRow(op)
    ensures PgAnswer(rows, op) == if op.id in rows then SqlReply(op, rows[op.id]) else MissingReply(op)
  {
    match op {
      case Heartbeat(id, runner, _) => OneHit(rows, id, r => HeartbeatWhere(r, id, runner));
      case Append(id, runner, _, _) => OneHit(rows, id, r => AppendWhere(r, id, runner));
      case Complete(id, runner, nonce, _, _, _, _) =>
      case Cancel(id, _) => OneHit(rows, id, r => QueuedWhere(r, id));
      case Requeue(id, _) => OneHit(rows, id, r => QueuedWhere(r, id));
    }
  }

  /** On the row of a record the SQL store answers what the file store answers. */
  lemma SameReply(op: Op, j: Job)
    requires NamesRow(op) && op.id == j.id
    ensures SqlReply(op, AsRow(j)) == RowReply(op, j)
  {
    StatusTexts(j.status);
    hide StatusText;
  }

  /** Where the array has the record that the table has under an id. */
  lemma Located(jobs: seq<Job>, rows: Table, id: string)
    requires SameRows(jobs, rows)
    ensures var i := IndexOf(jobs, id); (id in rows <==> i < |jobs|) && (i < |jobs| ==> rows[id] == AsRow(jobs[i]))
  {
    var i := IndexOf(jobs, id);
    if id in rows {
      var n := RowOf(jobs, rows, id);
    }
    if i < |jobs| {
      assert jobs[i] in jobs;
    }
  }

  lemma SameAnswer(jobs: seq<Job>, rows: Table, op: Op)
    requires SameRows(jobs, rows) && NamesRow(op)
    ensures PgAnswer(rows, op) == Answer(jobs, op)
  {
    hide SameRows, AsRow, SqlReply, RowReply, PgAnswer, IndexOf;
    TableKeyed(jobs, rows);
    OneAnswer(rows, op);
    Located(jobs, rows, op.id);
    if op.id in rows {
      SameReply(op, jobs[IndexOf(jobs, op.id)]);
    }
  }

  // ---- the table and the array --------------------------------------------------------------

  lemma SameRowsUpdate(jobs: seq<Job>, rows: Table, i: nat, j: Job)
    requires SameRows(jobs, rows) && i < |jobs| && j.id == jobs[i].id
    ensures SameRows(jobs[i := j], rows[j.id := AsRow(j)])
  {
    hide AsRow;
    var jobs', rows' := jobs[i := j], rows[j.id := AsRow(j)];
    forall x | x in jobs' ensures x.id in rows' && rows'[x.id] == AsRow(x) {
      var n :| 0 <= n < |jobs'| && jobs'[n] == x;
      if n != i {
        assert x == jobs[n] && x in jobs;
      }
    }
    forall k | k in rows' ensures exists x :: x in jobs' && x.id == k {
      if k == j.id {
        assert jobs'[i] == j;
      } else {
        var n := RowOf(jobs, rows, k);
        assert jobs'[n] == jobs[n] && jobs'[n] in jobs';
      }
    }
  }

  lemma SameRowsAppend(jobs: seq<Job>, rows: Table, j: Job)
    requires SameRows(jobs, rows) && j.id !in rows
    ensures SameRows(jobs + [j], rows[j.id := AsRow(j)])
  {
    hide AsRow;
    var jobs', rows' := jobs + [j], rows[j.id := AsRow(j)];
    forall x | x in jobs' ensures x.id in rows' && rows'[x.id] == AsRow(x) {
      assert x == j || x in jobs;
    }
    assert jobs'[|jobs|] == j && j in jobs';
    assert forall x :: x in jobs ==> x in jobs';
    assert forall n :: 0 <= n < |jobs| ==> jobs[n] in jobs;
  }

  /** A statement over all rows and a loop over all records, doing the same to each. */
  lemma SameRowsPointwise(jobs: seq<Job>, rows: Table, jobs': seq<Job>, rows': Table)
    requires SameRows(jobs, rows) && |jobs'| == |jobs| && rows'.Keys == rows.Keys
    requires forall i :: 0 <= i < |jobs| ==> jobs'[i].id == jobs[i].id && jobs[i].id in rows'
    ensures SameRows(jobs', rows') <==> forall i :: 0 <= i < |jobs| ==> rows'[jobs[i].id] == AsRow(jobs'[i])
  {
    hide AsRow;
    if SameRows(jobs', rows') {
      assert forall i :: 0 <= i < |jobs| ==> jobs'[i] in jobs';
    }
    if forall i :: 0 <= i < |jobs| ==> rows'[jobs[i].id] == AsRow(jobs'[i]) {
      forall x | x in jobs' ensures x.id in rows' && rows'[x.id] == AsRow(x) {
        var n :| 0 <= n < |jobs'| && jobs'[n] == x;
      }
      forall k | k in rows' ensures exists x :: x in jobs' && x.id == k {
        var n := RowOf(jobs, rows, k);
        assert jobs'[n] in jobs';
      }
    }
  }

  /** The file store drops progress lines beyond its window; the table never does. */
  predicate FitsWindow(jobs: seq<Job>, op: Op) {
    op.Append? ==> forall j :: j in jobs && j.id == op.id && RowReply(op, j).Ok? ==> |j.progress| + |op.lines| <= PROGRESS_CAP
  }

  lemma InsertedAlike(id: string, kind: string, jobId: Option<string>, payload: string, now: nat)
    ensures AsRow(NewJob(id, kind, jobId, payload, now)) == InsertedRow(id, kind, jobId, payload, now)
  {}

  /** What the SQL store makes of the record that an operation names. */
  function SqlAfter(op: Op, j: Job): Job
    requires NamesRow(op)
  {
    if op.Append? && RowReply(op, j).Ok? then j.(progress := j.progress + op.lines, updatedAt := op.now) else RowAfter(op, j)
  }

  lemma SqlAfterRow(op: Op, j: Job)
    requires NamesRow(op) && op.id == j.id
    ensures AsRow(SqlAfter(op, j)) == if Guard(op, AsRow(j)) == True then Change(op, AsRow(j)) else AsRow(j)
    ensures SqlAfter(op, j).id == op.id == RowAfter(op, j).id
  {
    SameEffect(op, j);
    hide AsRow, Guard, Change;
  }

  lemma SqlAfterIs(jobs: seq<Job>, rows: Table, op: Op, i: nat)
    requires SameRows(jobs, rows) && NamesRow(op) && i == IndexOf(jobs, op.id) && i < |jobs|
    ensures op.id in rows && PgNext(rows, op) == rows[op.id := AsRow(SqlAfter(op, jobs[i]))]
    ensures SqlAfter(op, jobs[i]).id == op.id == RowAfter(op, jobs[i]).id
  {
    hide SameRows, Keyed, AsRow, SqlAfter, RowAfter, PgNext, Guard, Change, IndexOf;
    TableKeyed(jobs, rows);
    Located(jobs, rows, op.id);
    OneRow(rows, op);
    SqlAfterRow(op, jobs[i]);
    assert rows[op.id := rows[op.id]] == rows;
  }

  lemma WindowCuts(op: Op, j: Job)
    requires NamesRow(op)
    ensures SqlAfter(op, j) == RowAfter(op, j) <==>
            (op.Append? && RowReply(op, j).Ok? ==> |j.progress| + |op.lines| <= PROGRESS_CAP)
  {
    if op.Append? && RowReply(op, j).Ok? && |j.progress| + |op.lines| > PROGRESS_CAP {
      assert |RowAfter(op, j).progress| < |SqlAfter(op, j).progress|;
    }
  }

  /** Every operation but a claim gives the same answer on both stores, and leaves the same
      rows exactly when an appended transcript fits the file store's window. */
  lemma OtherOpsSimulate(jobs: seq<Job>, rows: Table, op: Op)
    requires SameRows(jobs, rows) && !op.Claim? && (op.Enqueue? ==> op.id !in rows)
    ensures Answer(jobs, op) == PgAnswer(rows, op)
    ensures SameRows(Next(jobs, op), PgNext(rows, op)) <==> FitsWindow(jobs, op)
  {
    if op.Enqueue? {
      InsertedAlike(op.id, op.kind, op.jobId, op.payload, op.now);
      SameRowsAppend(jobs, rows, NewJob(op.id, op.kind, op.jobId, op.payload, op.now));
    } else {
      SameAnswer(jobs, rows, op);
      Located(jobs, rows, op.id);
      var i := IndexOf(jobs, op.id);
      if i < |jobs| {
        NamedSimulates(jobs, rows, op, i);
      } else {
        MissingSimulates(jobs, rows, op);
      }
    }
  }

  lemma MissingSimulates(jobs: seq<Job>, rows: Table, op: Op)
    requires SameRows(jobs, rows) && NamesRow(op) && IndexOf(jobs, op.id) == |jobs|
    ensures SameRows(Next(jobs, op), PgNext(rows, op)) && FitsWindow(jobs, op)
  {
    TableKeyed(jobs, rows);
    Located(jobs, rows, op.id);
    OneRow(rows, op);
  }

  lemma NamedSimulates(jobs: seq<Job>, rows: Table, op: Op, i: nat)
    requires SameRows(jobs, rows) && NamesRow(op) && i == IndexOf(jobs, op.id) && i < |jobs|
    ensures SameRows(Next(jobs, op), PgNext(rows, op)) <==> FitsWindow(jobs, op)
  {
    var a, b := RowAfter(op, jobs[i]), SqlAfter(op, jobs[i]);
    assert Next(jobs, op) == jobs[i := a];
    OnlyOne(jobs, op, i);
    SqlAfterIs(jobs, rows, op, i);
    WindowCuts(op, jobs[i]);
    RowsDetermine(a, b);
    hide RowAfter, SqlAfter, RowReply, PgNext, Next, AsRow, IndexOf, FitsWindow;
    if a == b {
      SameRowsUpdate(jobs, rows, i, a);
    } else {
      assert jobs[i := a][i] == a && a in jobs[i := a];
    }
  }

  lemma OnlyOne(jobs: seq<Job>, op: Op, i: nat)
    requires H.UniqueIds(jobs) && NamesRow(op) && i < |jobs| && jobs[i].id == op.id
    ensures FitsWindow(jobs, op) <==> (op.Append? && RowReply(op, jobs[i]).Ok? ==> |jobs[i].progress| + |op.lines| <= PROGRESS_CAP)
  {
    hide RowReply;
    assert jobs[i] in jobs;
    forall j | j in jobs && j.id == op.id ensures j == jobs[i] {
      var n :| 0 <= n < |jobs| && jobs[n] == j;
    }
  }

  // ---- the sweep ------------------------------------------------------------------------------

  /** `coalesce` keeps an empty error where `||` replaces it: only a row that runs out of
      attempts with an empty error is swept differently. */
  predicate SweptAlike(j: Job, now: nat) {
    j.Expired(now) && j.attempts >= MAX_ATTEMPTS ==> j.error != Some("")
  }

  lemma SweepOneRow(j: Job, now: nat)
    ensures var r := if ExpiredWhere(AsRow(j), now) == True then ExpiredSet(AsRow(j), now) else AsRow(j);
            r == AsRow(SweepRow(j, now, MAX_ATTEMPTS)) <==> SweptAlike(j, now)
    ensures SweepRow(j, now, MAX_ATTEMPTS).id == j.id && SweepRow(j, now, MAX_ATTEMPTS).createdAt == j.createdAt
  {
    StatusTexts(j.status);
    StatusTexts(Queued);
    StatusTexts(Dead);
    hide StatusText;
  }

  lemma SweepAgreesExactly(jobs: seq<Job>, rows: Table, now: nat)
    requires SameRows(jobs, rows)
    ensures SameRows(Sweep(jobs, now, MAX_ATTEMPTS), SweptTable(rows, now)) <==> forall j :: j in jobs ==> SweptAlike(j, now)
  {
    var jobs', rows' := Sweep(jobs, now, MAX_ATTEMPTS), SweptTable(rows, now);
    forall i | 0 <= i < |jobs|
      ensures jobs'[i].id == jobs[i].id && jobs[i].id in rows'
      ensures rows'[jobs[i].id] == AsRow(jobs'[i]) <==> SweptAlike(jobs[i], now)
    {
      assert jobs[i] in jobs;
      SweepOneRow(jobs[i], now);
      hide AsRow, SweepRow, ExpiredWhere, ExpiredSet;
    }
    hide Sweep, SweptTable, AsRow, SweptAlike;
    SameRowsPointwise(jobs, rows, jobs', rows');
  }

  /** In a reachable queue every unfinished row has a null error, so the sweeps agree. */
  lemma SoundSweepsAlike(jobs: seq<Job>, now: nat)
    requires H.Sound(jobs)
    ensures forall j :: j in jobs ==> SweptAlike(j, now)
  {
    forall j | j in jobs ensures SweptAlike(j, now) {
      assert H.WellFormed(j);
    }
  }

  // ---- claims -----------------------------------------------------------------------------------

  predicate Claimable(j: Job) {
    j.Claimable(MAX_ATTEMPTS)
  }

  lemma ClaimableRow(j: Job)
    ensures ClaimableWhere(AsRow(j)) == True <==> Claimable(j)
  {
    StatusTexts(j.status);
    hide StatusText;
  }

  /** In this array the first claimable record is older than every other claimable one. */
  predicate OldestFirst(swept: seq<Job>) {
    var i := FirstClaimable(swept, MAX_ATTEMPTS);
    i < |swept| ==> forall k :: 0 <= k < |swept| && k != i && Claimable(swept[k]) ==> swept[i].createdAt < swept[k].createdAt
  }

  predicate FirstIsOldest(jobs: seq<Job>, op: Op)
    requires op.Claim?
  {
    OldestFirst(Sweep(jobs, op.now, MAX_ATTEMPTS))
  }

  function ArrayPick(swept: seq<Job>): Option<string> {
    var i := FirstClaimable(swept, MAX_ATTEMPTS);
    if i == |swept| then None else Some(swept[i].id)
  }

  /** An oldest claimable record among the first n. */
  lemma {:induction false} OldestAmong(swept: seq<Job>, n: nat) returns (m: nat)
    requires n <= |swept| && exists k :: 0 <= k < n && Claimable(swept[k])
    ensures m < n && Claimable(swept[m]) && forall k :: 0 <= k < n && Claimable(swept[k]) ==> swept[m].createdAt <= swept[k].createdAt
  {
    if forall k :: 0 <= k < n - 1 ==> !Claimable(swept[k]) {
      m := n - 1;
    } else {
      m := OldestAmong(swept, n - 1);
      if Claimable(swept[n - 1]) && swept[n - 1].createdAt < swept[m].createdAt {
        m := n - 1;
      }
    }
  }

  /** A claimable record that none is older than is one the table may pick. */
  lemma MayPickRecord(swept: seq<Job>, rows: Table, m: nat)
    requires SameRows(swept, rows) && m < |swept| && Claimable(swept[m])
    requires forall k :: 0 <= k < |swept| && Claimable(swept[k]) ==> swept[m].createdAt <= swept[k].createdAt
    ensures MayPick(rows, Some(swept[m].id))
  {
    assert swept[m] in swept;
    ClaimableRow(swept[m]);
    forall k | k in rows && ClaimableWhere(rows[k]) == True ensures rows[swept[m].id].createdAt <= rows[k].createdAt {
      var n := RowOf(swept, rows, k);
      ClaimableRow(swept[n]);
    }
  }

  /** What the table may pick is the record of a claimable job that none is older than. */
  lemma PickedRecord(swept: seq<Job>, rows: Table, pick: Option<string>) returns (m: nat)
    requires SameRows(swept, rows) && MayPick(rows, pick)
    ensures pick.None? ==> forall k :: 0 <= k < |swept| ==> !Claimable(swept[k])
    ensures pick.Some? ==> m < |swept| && swept[m].id == pick.value && Claimable(swept[m])
    ensures pick.Some? ==> forall k :: 0 <= k < |swept| && Claimable(swept[k]) ==> swept[m].createdAt <= swept[k].createdAt
  {
    m := 0;
    forall k | 0 <= k < |swept|
      ensures swept[k].id in rows && rows[swept[k].id] == AsRow(swept[k])
      ensures ClaimableWhere(AsRow(swept[k])) == True <==> Claimable(swept[k])
    {
      assert swept[k] in swept;
      ClaimableRow(swept[k]);
    }
    if pick.Some? {
      m := RowOf(swept, rows, pick.value);
    }
    hide ClaimableWhere, Claimable;
  }

  /** The only possible pick is the array's, exactly when the first claimable is the oldest. */
  lemma PicksAgreeExactly(swept: seq<Job>, rows: Table)
    requires SameRows(swept, rows)
    ensures MayPick(rows, ArrayPick(swept)) || !OldestFirst(swept)
    ensures (forall pick :: MayPick(rows, pick) ==> pick == ArrayPick(swept)) <==> OldestFirst(swept)
  {
    hide Claimable, AsRow, SameRows, MayPick;
    var i := FirstClaimable(swept, MAX_ATTEMPTS);
    assert FirstOne(swept, i) by { FirstIs(swept); }
    if i < |swept| {
      if OldestFirst(swept) {
        MayPickRecord(swept, rows, i);
        forall pick | MayPick(rows, pick) ensures pick == ArrayPick(swept) {
          var m := PickedRecord(swept, rows, pick);
        }
      } else {
        var k :| 0 <= k < |swept| && k != i && Claimable(swept[k]) && swept[k].createdAt <= swept[i].createdAt;
        var m := OldestAmong(swept, |swept|);
        var n := if m == i then k else m;
        assert swept[n].id != swept[i].id by { DistinctIds(swept, rows, n, i); }
        MayPickRecord(swept, rows, n);
      }
    } else {
      NonePickable(swept, rows);
      forall pick | MayPick(rows, pick) ensures pick == ArrayPick(swept) {
        var m := PickedRecord(swept, rows, pick);
      }
    }
  }

  lemma NonePickable(swept: seq<Job>, rows: Table)
    requires SameRows(swept, rows) && forall k :: 0 <= k < |swept| ==> !Claimable(swept[k])
    ensures MayPick(rows, None)
  {
    forall k | k in rows ensures ClaimableWhere(rows[k]) != True {
      var n := RowOf(swept, rows, k);
      ClaimableRow(swept[n]);
    }
  }

  predicate FirstOne(swept: seq<Job>, i: nat) {
    (i < |swept| ==> Claimable(swept[i])) && forall k :: 0 <= k < i && k < |swept| ==> !Claimable(swept[k])
  }

  lemma FirstIs(swept: seq<Job>)
    ensures FirstOne(swept, FirstClaimable(swept, MAX_ATTEMPTS))
  {}

  lemma DistinctIds(swept: seq<Job>, rows: Table, n: nat, m: nat)
    requires SameRows(swept, rows) && n < |swept| && m < |swept| && n != m
    ensures swept[n].id != swept[m].id
  {}

  lemma WorkIsOffer(j: Job, runner: string, nonce: Nonce, now: nat)
    ensures ClaimSet(AsRow(j), runner, nonce, now) == AsRow(ClaimRow(j, runner, nonce, now, LEASE_MS))
    ensures ClaimRow(j, runner, nonce, now, LEASE_MS).id == j.id
  {
    StatusTexts(Status.Claimed);
    hide StatusText;
  }

  /** The update of a claim sets the picked row and no other. */
  lemma PickedUpdate(swept: seq<Job>, rows: Table, op: Op, pick: Option<string>, m: nat)
    requires SameRows(swept, rows) && op.Claim? && m < |swept| && pick == Some(swept[m].id)
    ensures Updated(rows, r => IdWhere(r, pick), r => ClaimSet(r, op.runner, op.nonce, op.now)) ==
            rows[swept[m].id := AsRow(ClaimRow(swept[m], op.runner, op.nonce, op.now, LEASE_MS))]
  {
    assert swept[m] in swept;
    TableKeyed(swept, rows);
    WorkIsOffer(swept[m], op.runner, op.nonce, op.now);
    hide ClaimSet, ClaimRow, AsRow;
  }

  lemma NoUpdate(rows: Table, op: Op)
    requires op.Claim?
    ensures Updated(rows, r => IdWhere(r, None), r => ClaimSet(r, op.runner, op.nonce, op.now)) == rows
  {}

  lemma ArrayClaim(jobs: seq<Job>, op: Op)
    requires op.Claim?
    ensures var swept := Sweep(jobs, op.now, MAX_ATTEMPTS);
            var i := FirstClaimable(swept, MAX_ATTEMPTS);
            Answer(jobs, op) == (if i == |swept| then NoWork else Offer(swept[i], op.nonce)) &&
            Next(jobs, op) == if i == |swept| then swept else swept[i := ClaimRow(swept[i], op.runner, op.nonce, op.now, LEASE_MS)]
  {
    hide Sweep, ClaimRow;
  }

  lemma TableClaim(swept: seq<Job>, rows: Table, op: Op, pick: Option<string>, m: nat)
    requires op.Claim? && SameRows(swept, SweptTable(rows, op.now))
    requires pick.Some? ==> m < |swept| && pick.value == swept[m].id
    ensures PgClaimAnswer(rows, op, pick) == if pick.None? then NoWork else Offer(swept[m], op.nonce)
    ensures PgClaimNext(rows, op, pick) == if pick.None? then SweptTable(rows, op.now)
              else SweptTable(rows, op.now)[swept[m].id := AsRow(ClaimRow(swept[m], op.runner, op.nonce, op.now, LEASE_MS))]
  {
    if pick.None? {
      NoUpdate(SweptTable(rows, op.now), op);
    } else {
      PickedUpdate(swept, SweptTable(rows, op.now), op, pick, m);
    }
    hide SameRows, SweptTable, Updated;
  }

  /** One claim over the same swept rows: the answers are alike exactly when the table picks
      the record that the array offers, and then the rows stay the same. */
  lemma ClaimAlike(jobs: seq<Job>, rows: Table, op: Op, pick: Option<string>)
    requires op.Claim? && MayClaim(rows, op, pick)
    requires SameRows(Sweep(jobs, op.now, MAX_ATTEMPTS), SweptTable(rows, op.now))
    ensures Answer(jobs, op) == PgClaimAnswer(rows, op, pick) <==> pick == ArrayPick(Sweep(jobs, op.now, MAX_ATTEMPTS))
    ensures pick == ArrayPick(Sweep(jobs, op.now, MAX_ATTEMPTS)) ==> SameRows(Next(jobs, op), PgClaimNext(rows, op, pick))
  {
    var swept, table := Sweep(jobs, op.now, MAX_ATTEMPTS), SweptTable(rows, op.now);
    hide SameRows, Sweep, SweptTable, FirstClaimable, MayPick, Claimable, AsRow, PgClaimAnswer, PgClaimNext, Answer, Next, ClaimRow;
    var i := FirstClaimable(swept, MAX_ATTEMPTS);
    var m := PickedRecord(swept, table, pick);
    ArrayClaim(jobs, op);
    TableClaim(swept, rows, op, pick, m);
    if i < |swept| && pick == Some(swept[i].id) {
      if i != m {
        DistinctIds(swept, table, i, m);
      }
      WorkIsOffer(swept[i], op.runner, op.nonce, op.now);
      SameRowsUpdate(swept, table, i, ClaimRow(swept[i], op.runner, op.nonce, op.now, LEASE_MS));
    }
  }

  lemma SweptSame(jobs: seq<Job>, rows: Table, now: nat)
    requires SameRows(jobs, rows) && H.Sound(jobs)
    ensures SameRows(Sweep(jobs, now, MAX_ATTEMPTS), SweptTable(rows, now))
  {
    hide SameRows, H.Sound, Sweep, SweptTable, SweptAlike;
    SoundSweepsAlike(jobs, now);
    SweepAgreesExactly(jobs, rows, now);
  }

  /** A claim answers alike whatever the table picks, exactly when the file store's first
      claimable record is the oldest one. */
  lemma ClaimAnswersExactly(jobs: seq<Job>, rows: Table, op: Op)
    requires SameRows(jobs, rows) && H.Sound(jobs) && op.Claim?
    ensures (forall pick :: MayClaim(rows, op, pick) ==> Answer(jobs, op) == PgClaimAnswer(rows, op, pick)) <==> FirstIsOldest(jobs, op)
    ensures FirstIsOldest(jobs, op) ==> forall pick :: MayClaim(rows, op, pick) ==> SameRows(Next(jobs, op), PgClaimNext(rows, op, pick))
  {
    hide SameRows, H.Sound, Answer, PgClaimAnswer, Next, PgClaimNext, ArrayPick, OldestFirst, MayPick, Sweep, SweptTable;
    SweptSame(jobs, rows, op.now);
    var swept, table := Sweep(jobs, op.now, MAX_ATTEMPTS), SweptTable(rows, op.now);
    PicksAgreeExactly(swept, table);
    forall pick | MayClaim(rows, op, pick)
      ensures Answer(jobs, op) == PgClaimAnswer(rows, op, pick) <==> pick == ArrayPick(swept)
      ensures pick == ArrayPick(swept) ==> SameRows(Next(jobs, op), PgClaimNext(rows, op, pick))
    {
      ClaimAlike(jobs, rows, op, pick);
    }
    assert forall pick :: MayPick(table, pick) <==> MayClaim(rows, op, pick);
  }

  // ---- runs ---------------------------------------------------------------------------------------

  /** A run of the SQL store: a table after every operation and the row every claim picked. */
  ghost predicate IsPgRun(ts: seq<Table>, picks: seq<Option<string>>, ops: seq<Op>) {
    && |ts| == |ops| + 1 && |picks| == |ops| && ts[0] == map[]
    && forall i :: 0 <= i < |ops| ==> PgStep(ts[i], ops[i], picks[i], ts[i + 1])
  }

  ghost predicate PgStep(t: Table, op: Op, pick: Option<string>, t': Table) {
    if op.Claim? then MayClaim(t, op, pick) && t' == PgClaimNext(t, op, pick)
    else t' == PgNext(t, op)
  }

  function PgReply(t: Table, op: Op, pick: Option<string>): Reply {
    if op.Claim? then PgClaimAnswer(t, op, pick) else PgAnswer(t, op)
  }

  /** Every claim finds its first claimable record the oldest, and every append fits the window.
      Both can be read off the file store before the operation. */
  predicate Comparable(jobs: seq<Job>, op: Op) {
    if op.Claim? then FirstIsOldest(jobs, op) else FitsWindow(jobs, op)
  }

  lemma StepSimulates(jobs: seq<Job>, rows: Table, op: Op, pick: Option<string>)
    requires SameRows(jobs, rows) && H.Sound(jobs) && Comparable(jobs, op)
    requires op.Enqueue? ==> forall j :: j in jobs ==> j.id != op.id
    requires op.Claim? ==> MayClaim(rows, op, pick)
    ensures PgReply(rows, op, pick) == Answer(jobs, op)
    ensures SameRows(Next(jobs, op), if op.Claim? then PgClaimNext(rows, op, pick) else PgNext(rows, op))
  {
    if op.Claim? {
      ClaimAnswersExactly(jobs, rows, op);
    } else {
      OtherOpsSimulate(jobs, rows, op);
    }
  }

  lemma SoundRun(ws: seq<H.World>, ops: seq<Op>, k: nat)
    requires H.IsRun(ws, ops) && k < |ws|
    ensures H.Sound(ws[k].jobs)
    ensures k < |ops| && ops[k].Enqueue? ==> forall j :: j in ws[k].jobs ==> j.id != ops[k].id
    ensures k < |ops| ==> ws[k + 1].jobs == Next(ws[k].jobs, ops[k])
  {
    H.RunAgrees(ws, ops, k);
    assert k < |ops| ==> H.WorldStep(ws[k], ops[k], ws[k + 1]);
  }

  /** Given the same operations and clock readings, requeues included, the two stores hold the
      same rows after every operation... */
  lemma {:induction false} StoresSimulate(ws: seq<H.World>, ts: seq<Table>, picks: seq<Option<string>>, ops: seq<Op>, k: nat)
    requires H.IsRun(ws, ops) && IsPgRun(ts, picks, ops) && k < |ws|
    requires forall i :: 0 <= i < k ==> Comparable(ws[i].jobs, ops[i])
    ensures SameRows(ws[k].jobs, ts[k])
    decreases k
  {
    hide Comparable, SameRows, H.Sound, H.WorldStep;
    if k == 0 {
      EmptyStores(ws, ts, picks, ops);
    } else {
      var i := k - 1;
      StoresSimulate(ws, ts, picks, ops, i);
      SoundRun(ws, ops, i);
      assert PgStep(ts[i], ops[i], picks[i], ts[i + 1]);
      StepSimulates(ws[i].jobs, ts[i], ops[i], picks[i]);
    }
  }

  lemma EmptyStores(ws: seq<H.World>, ts: seq<Table>, picks: seq<Option<string>>, ops: seq<Op>)
    requires H.IsRun(ws, ops) && IsPgRun(ts, picks, ops)
    ensures SameRows(ws[0].jobs, ts[0])
  {}

  /** ...and give the same answers. */
  lemma StoresAnswerAlike(ws: seq<H.World>, ts: seq<Table>, picks: seq<Option<string>>, ops: seq<Op>, k: nat)
    requires H.IsRun(ws, ops) && IsPgRun(ts, picks, ops) && k < |ops|
    requires forall i :: 0 <= i <= k ==> Comparable(ws[i].jobs, ops[i])
    ensures PgReply(ts[k], ops[k], picks[k]) == Answer(ws[k].jobs, ops[k])
  {
    StoresSimulate(ws, ts, picks, ops, k);
    SoundRun(ws, ops, k);
    assert PgStep(ts[k], ops[k], picks[k], ts[k + 1]);
    StepSimulates(ws[k].jobs, ts[k], ops[k], picks[k]);
  }

  /** At the first operation that is not comparable the stores do part: a claim may be answered
      differently, and an append leaves different rows. */
  lemma FirstParting(ws: seq<H.World>, ts: seq<Table>, picks: seq<Option<string>>, ops: seq<Op>, k: nat)
    requires H.IsRun(ws, ops) && IsPgRun(ts, picks, ops) && k < |ops|
    requires (forall i :: 0 <= i < k ==> Comparable(ws[i].jobs, ops[i])) && !Comparable(ws[k].jobs, ops[k])
    ensures if ops[k].Claim? then exists pick :: MayClaim(ts[k], ops[k], pick) && PgClaimAnswer(ts[k], ops[k], pick) != Answer(ws[k].jobs, ops[k])
            else !SameRows(ws[k + 1].jobs, ts[k + 1])
  {
    StoresSimulate(ws, ts, picks, ops, k);
    SoundRun(ws, ops, k);
    assert PgStep(ts[k], ops[k], picks[k], ts[k + 1]);
    hide SameRows, MayClaim, PgClaimAnswer, Answer, H.WorldStep, H.Sound, FirstIsOldest, FitsWindow;
    if ops[k].Claim? {
      ClaimAnswersExactly(ws[k].jobs, ts[k], ops[k]);
    } else {
      OtherOpsSimulate(ws[k].jobs, ts[k], ops[k]);
    }
  }

  // ---- creation order and requeues --------------------------------------------------------------------

  /** Records stand in the array in the order of their creation times, all distinct. */
  predicate CreationOrder(jobs: seq<Job>) {
    forall i, k :: 0 <= i < k < |jobs| ==> jobs[i].createdAt < jobs[k].createdAt
  }

  /** A run without requeues whose jobs are created at increasing times keeps creation order, in
      which every claim finds its first claimable record the oldest. */
  lemma {:induction false} IncreasingCreationSuffices(ws: seq<H.World>, ops: seq<Op>, k: nat)
    requires H.IsRun(ws, ops) && k < |ws|
    requires forall i :: 0 <= i < k ==> !ops[i].Requeue?
    requires forall i :: 0 <= i < k && ops[i].Enqueue? ==> forall j :: j in ws[i].jobs ==> j.createdAt < ops[i].now
    ensures CreationOrder(ws[k].jobs)
    ensures k < |ops| && ops[k].Claim? ==> FirstIsOldest(ws[k].jobs, ops[k])
    decreases k
  {
    hide H.WorldStep;
    if k == 0 {
      EmptyRun(ws, ops);
    } else {
      IncreasingCreationSuffices(ws, ops, k - 1);
      SoundRun(ws, ops, k - 1);
      CreationOrderStep(ws[k - 1].jobs, ops[k - 1]);
    }
    if k < |ops| && ops[k].Claim? {
      OrderedFirst(ws[k].jobs, ops[k]);
    }
  }

  lemma EmptyRun(ws: seq<H.World>, ops: seq<Op>)
    requires H.IsRun(ws, ops)
    ensures ws[0].jobs == []
  {}

  lemma SweepKeepsCreation(jobs: seq<Job>, now: nat)
    ensures forall i :: 0 <= i < |jobs| ==> Sweep(jobs, now, MAX_ATTEMPTS)[i].createdAt == jobs[i].createdAt
  {
    forall i | 0 <= i < |jobs| ensures SweepRow(jobs[i], now, MAX_ATTEMPTS).createdAt == jobs[i].createdAt {
      SweepOneRow(jobs[i], now);
    }
  }

  lemma OrderedFirst(jobs: seq<Job>, op: Op)
    requires CreationOrder(jobs) && op.Claim?
    ensures FirstIsOldest(jobs, op)
  {
    SweepKeepsCreation(jobs, op.now);
    hide SweepRow;
  }

  lemma CreationOrderStep(jobs: seq<Job>, op: Op)
    requires CreationOrder(jobs) && !op.Requeue?
    requires op.Enqueue? ==> forall j :: j in jobs ==> j.createdAt < op.now
    ensures CreationOrder(Next(jobs, op))
  {
    forall i | 0 <= i < |jobs| ensures i < |Next(jobs, op)| && Next(jobs, op)[i].createdAt == jobs[i].createdAt {
      CreationKept(jobs, op, i);
    }
    if op.Enqueue? {
      assert forall i :: 0 <= i < |jobs| ==> jobs[i] in jobs;
    } else {
      SameLength(jobs, op);
      hide Next;
    }
  }

  lemma SameLength(jobs: seq<Job>, op: Op)
    requires !op.Enqueue?
    ensures |Next(jobs, op)| == |jobs|
  {
    hide SweepRow, RowAfter, ClaimRow;
  }

  lemma CreationKept(jobs: seq<Job>, op: Op, i: nat)
    requires i < |jobs| && !op.Requeue?
    ensures i < |Next(jobs, op)| && Next(jobs, op)[i].createdAt == jobs[i].createdAt
  {
    if op.Claim? {
      SweepKeepsCreation(jobs, op.now);
      hide SweepRow;
    }
  }

  /** A requeue resets the creation time but not the place in the array. While the requeued job
      is still the first claimable one and the clock has not gone back, a later claim answers
      alike exactly when no other job is claimable. */
  lemma RequeueDiverges(jobs: seq<Job>, rows: Table, requeue: Op, claim: Op)
    requires SameRows(jobs, rows) && H.Sound(jobs) && requeue.Requeue? && claim.Claim?
    requires forall j :: j in jobs ==> j.createdAt <= requeue.now
    requires var i := IndexOf(jobs, requeue.id);
             i < |jobs| && jobs[i].status == Queued && FirstClaimable(Sweep(Next(jobs, requeue), claim.now, MAX_ATTEMPTS), MAX_ATTEMPTS) == i
    ensures var jobs', rows' := Next(jobs, requeue), PgNext(rows, requeue);
            (forall pick :: MayClaim(rows', claim, pick) ==> Answer(jobs', claim) == PgClaimAnswer(rows', claim, pick)) <==>
            forall k :: 0 <= k < |jobs| && k != IndexOf(jobs, requeue.id) ==> !Claimable(Sweep(jobs', claim.now, MAX_ATTEMPTS)[k])
  {
    hide SameRows, H.Sound, Sweep, PgNext, Next, MayClaim, PgClaimAnswer, Answer, IndexOf, FirstClaimable, AsRow;
    var i := IndexOf(jobs, requeue.id);
    var jobs', rows' := Next(jobs, requeue), PgNext(rows, requeue);
    RequeuedSound(jobs, requeue, i);
    OtherOpsSimulate(jobs, rows, requeue);
    NewestAfterRequeue(jobs, requeue, claim.now, i);
    NewestFirst(Sweep(jobs', claim.now, MAX_ATTEMPTS), i);
    ClaimAnswersExactly(jobs', rows', claim);
  }

  /** Where the first claimable record is the newest, it is the oldest only if it is alone. */
  lemma NewestFirst(swept: seq<Job>, i: nat)
    requires i < |swept| && FirstClaimable(swept, MAX_ATTEMPTS) == i
    requires forall k :: 0 <= k < |swept| ==> swept[k].createdAt <= swept[i].createdAt
    ensures OldestFirst(swept) <==> forall k :: 0 <= k < |swept| && k != i ==> !Claimable(swept[k])
  {
    hide Claimable, FirstClaimable;
  }

  lemma NewestAfterRequeue(jobs: seq<Job>, requeue: Op, now: nat, i: nat)
    requires requeue.Requeue? && i < |jobs| && Next(jobs, requeue) == jobs[i := RequeueRow(jobs[i], requeue.now)]
    requires forall j :: j in jobs ==> j.createdAt <= requeue.now
    ensures var swept := Sweep(Next(jobs, requeue), now, MAX_ATTEMPTS);
            |swept| == |jobs| && forall k :: 0 <= k < |jobs| ==> swept[k].createdAt <= swept[i].createdAt
  {
    var jobs' := Next(jobs, requeue);
    assert RequeueRow(jobs[i], requeue.now).createdAt == requeue.now;
    hide Next, RequeueRow;
    SweepKeepsCreation(jobs', now);
    forall k | 0 <= k < |jobs| ensures jobs'[k].createdAt <= requeue.now {
      assert jobs[k] in jobs;
    }
    hide Sweep;
  }

  lemma RequeuedSound(jobs: seq<Job>, requeue: Op, i: nat)
    requires H.Sound(jobs) && requeue.Requeue? && i == IndexOf(jobs, requeue.id) && i < |jobs| && jobs[i].status == Queued
    ensures H.Sound(Next(jobs, requeue)) && Next(jobs, requeue) == jobs[i := RequeueRow(jobs[i], requeue.now)]
  {
    RequeuedRow(jobs[i], requeue);
    hide RowAfter, RequeueRow, H.WellFormed;
    assert jobs[i] in jobs;
    H.SoundUpdate(jobs, i, RequeueRow(jobs[i], requeue.now));
  }

  lemma RequeuedRow(j: Job, requeue: Op)
    requires requeue.Requeue? && j.status == Queued
    ensures RowAfter(requeue, j) == RequeueRow(j, requeue.now) && RequeueRow(j, requeue.now).id == j.id
    ensures H.WellFormed(j) ==> H.WellFormed(RequeueRow(j, requeue.now))
  {}
}
