/** Insert-only ingest of jobs and their files, in the vault (files staged under a sibling
    ".tmp" name and renamed) and in the table (a row per job and name).

    File names are compared exactly; name safety and the digest are parameters. */
module FileIngest {
  import opened Options
  import opened Numerals
  import Seqs

  const MAX_CANDIDATES: nat := 500

  type Key = (string, string)

  datatype World = World(safe: string -> bool, sha: string -> nat)

  datatype Vault = Vault(jobs: set<string>, files: map<Key, string>)

  datatype Reply = JobNotFound | BadName | Inserted(name: string) | Noop | BytesDiffer | Exhausted | JobExists | JobCreated

  // ---- names -------------------------------------------------------------------------------------

  /** Where the extension starts: at the last dot that is not the first character. */
  function StemLength(name: string): (k: nat)
    ensures k <= |name|
  {
    var k := LastDot(name);
    if k == 0 || k == |name| then |name| else k
  }

  /** The position of the last dot, or the length when there is none. */
  function LastDot(name: string): (k: nat)
    ensures k <= |name| && (k < |name| ==> name[k] == '.')
  {
    if name == "" then 0
    else if name[|name| - 1] == '.' then |name| - 1
    else
      var k := LastDot(name[..|name| - 1]);
      if k == |name| - 1 then |name| else k
  }

  function Candidate(name: string, n: nat): string {
    var k := StemLength(name);
    if n == 1 then name else name[..k] + " (" + Decimal(n) + ")" + name[k..]
  }

  /** A name is its stem and its extension, which is the part from the last dot on unless that
      dot is the first character; the n-th candidate has the number between the two. */
  lemma CandidateExactly(name: string, n: nat) returns (stem: string, ext: string)
    requires n >= 1
    ensures name == stem + ext && Candidate(name, n) == if n == 1 then name else stem + " (" + Decimal(n) + ")" + ext
    ensures ext == "" || (ext[0] == '.' && '.' !in ext[1..] && stem != "")
    ensures ext == "" ==> name == "" || '.' !in name[1..]
  {
    var k := StemLength(name);
    stem, ext := name[..k], name[k..];
    LastDotIsLast(name);
    assert name == stem + ext;
    assert ext != "" ==> forall i :: 0 <= i < |ext| - 1 ==> ext[1..][i] == name[k + 1 + i];
    assert name != "" ==> forall i :: 0 <= i < |name| - 1 ==> name[1..][i] == name[1 + i];
  }

  lemma {:induction false} LastDotIsLast(name: string)
    ensures forall i :: 0 <= i < |name| && name[i] == '.' ==> i <= LastDot(name) < |name|
  {
    if name != "" && name[|name| - 1] != '.' {
      LastDotIsLast(name[..|name| - 1]);
    }
  }

  /** No two candidates of a name are the same. */
  lemma CandidatesDistinct(name: string, n: nat, m: nat)
    requires 1 <= n < m
    ensures Candidate(name, n) != Candidate(name, m)
  {
    var k := StemLength(name);
    var stem, ext := name[..k], name[k..];
    assert name == stem + ext;
    if n > 1 && Candidate(name, n) == Candidate(name, m) {
      Middle(stem + " (", Decimal(n), Decimal(m), ")" + ext);
      assert Candidate(name, n) == stem + " (" + Decimal(n) + (")" + ext);
      assert Candidate(name, m) == stem + " (" + Decimal(m) + (")" + ext);
      DecimalRoundTrip(n);
      DecimalRoundTrip(m);
    }
  }

  lemma Middle(a: string, x: string, y: string, b: string)
    ensures a + x + b == a + y + b ==> x == y
  {
    if a + x + b == a + y + b {
      assert |x| == |y|;
      assert (a + x + b)[|a|..|a| + |x|] == x && (a + y + b)[|a|..|a| + |y|] == y;
    }
  }

  // ---- what the operations do ----------------------------------------------------------------------

  /** Stage under the ".tmp" sibling, then rename over the target. */
  function Staged(files: map<Key, string>, key: Key, bytes: string): map<Key, string> {
    (files - {(key.0, key.1 + ".tmp")})[key := bytes]
  }

  function IfAbsentReply(w: World, v: Vault, key: Key, bytes: string): Reply {
    if key.0 !in v.jobs then JobNotFound
    else if !w.safe(key.1) then BadName
    else if key !in v.files then Inserted(key.1)
    else if w.sha(v.files[key]) == w.sha(bytes) then Noop
    else BytesDiffer
  }

  function AddedIfAbsent(w: World, v: Vault, key: Key, bytes: string): Vault {
    if IfAbsentReply(w, v, key, bytes).Inserted? then v.(files := Staged(v.files, key, bytes)) else v
  }

  /** The first candidate from n on that is unsafe or free, or one past the last. */
  function FirstOpen(w: World, v: Vault, key: Key, n: nat): (m: nat)
    ensures n <= MAX_CANDIDATES + 1 ==> n <= m <= MAX_CANDIDATES + 1
    ensures forall i :: n <= i < m && i <= MAX_CANDIDATES ==> w.safe(Candidate(key.1, i)) && (key.0, Candidate(key.1, i)) in v.files
    decreases MAX_CANDIDATES + 1 - n
  {
    if n > MAX_CANDIDATES || !w.safe(Candidate(key.1, n)) || (key.0, Candidate(key.1, n)) !in v.files then n
    else FirstOpen(w, v, key, n + 1)
  }

  function UniqueReply(w: World, v: Vault, key: Key): Reply {
    if key.0 !in v.jobs then JobNotFound
    else if !w.safe(key.1) then BadName
    else
      var n := FirstOpen(w, v, key, 1);
      if n > MAX_CANDIDATES then Exhausted
      else if !w.safe(Candidate(key.1, n)) then BadName
      else Inserted(Candidate(key.1, n))
  }

  function AddedUnique(w: World, v: Vault, key: Key, bytes: string): Vault {
    var reply := UniqueReply(w, v, key);
    if reply.Inserted? then v.(files := v.files[(key.0, reply.name) := bytes]) else v
  }

  function CreatedIfAbsent(w: World, v: Vault, job: string, mdName: string, text: string): Vault {
    if !w.safe(job) || job in v.jobs then v
    else Vault(v.jobs + {job}, Staged(v.files, (job, mdName), text))
  }

  class FileStore {
    const w: World
    var jobs: set<string>
    var files: map<Key, string>

    ghost function Now(): Vault
      reads this
    {
      Vault(jobs, files)
    }

    constructor (w: World, jobs: set<string>, files: map<Key, string>)
      ensures this.w == w && Now() == Vault(jobs, files)
    {
      this.w, this.jobs, this.files := w, jobs, files;
    }

    method WriteFileAtomic(key: Key, bytes: string)
      modifies this
      ensures Now() == old(Now()).(files := Staged(old(files), key, bytes))
    {
      var tmp := (key.0, key.1 + ".tmp");
      files := files[tmp := bytes];
      files := (files - {tmp})[key := bytes];
    }

    method CreateJobIfAbsent(job: string, mdName: string, text: string) returns (reply: Reply)
      modifies this
      ensures Now() == CreatedIfAbsent(w, old(Now()), job, mdName, text)
      ensures reply == if !w.safe(job) then BadName else if job in old(jobs) then JobExists else JobCreated
    {
      if !w.safe(job) {
        return BadName;
      }
      if job in jobs {
        return JobExists;
      }
      jobs := jobs + {job};
      WriteFileAtomic((job, mdName), text);
      return JobCreated;
    }

    method AddJobFileIfAbsent(job: string, name: string, bytes: string) returns (reply: Reply)
      modifies this
      ensures Now() == AddedIfAbsent(w, old(Now()), (job, name), bytes)
      ensures reply == IfAbsentReply(w, old(Now()), (job, name), bytes)
    {
      if job !in jobs {
        return JobNotFound;
      }
      if !w.safe(name) {
        return BadName;
      }
      if (job, name) in files {
        return if w.sha(files[(job, name)]) == w.sha(bytes) then Noop else BytesDiffer;
      }
      WriteFileAtomic((job, name), bytes);
      return Inserted(name);
    }

    method AddJobFileUnique(job: string, name: string, bytes: string) returns (reply: Reply)
      modifies this
      ensures Now() == AddedUnique(w, old(Now()), (job, name), bytes)
      ensures reply == UniqueReply(w, old(Now()), (job, name))
    {
      if job !in jobs {
        return JobNotFound;
      }
      if !w.safe(name) {
        return BadName;
      }
      var n := 1;
      while n <= MAX_CANDIDATES
        invariant 1 <= n <= MAX_CANDIDATES + 1 && Now() == old(Now())
        invariant FirstOpen(w, Now(), (job, name), n) == FirstOpen(w, Now(), (job, name), 1)
      {
        var candidate := Candidate(name, n);
        if !w.safe(candidate) {
          return BadName;
        }
        if (job, candidate) !in files {
          files := files[(job, candidate) := bytes];
          return Inserted(candidate);
        }
        n := n + 1;
      }
      return Exhausted;
    }
  }

  // ---- one upload --------------------------------------------------------------------------------------

  predicate Kept(before: map<Key, string>, after: map<Key, string>) {
    forall k :: k in before ==> k in after && after[k] == before[k]
  }

  /** The file under the staging name of an upload. */
  function StagingKey(key: Key): Key { (key.0, key.1 + ".tmp") }

  /** An insert keeps every earlier file exactly when none sits under its staging name; then it
      leaves what the table's plain insert leaves. */
  lemma InsertKeepsExactly(w: World, v: Vault, key: Key, bytes: string)
    requires IfAbsentReply(w, v, key, bytes).Inserted?
    ensures Kept(v.files, AddedIfAbsent(w, v, key, bytes).files) <==> StagingKey(key) !in v.files
    ensures AddedIfAbsent(w, v, key, bytes).files == v.files[key := bytes] <==> StagingKey(key) !in v.files
  {
    var t := AddedIfAbsent(w, v, key, bytes).files;
    assert StagingKey(key) != key;
    if StagingKey(key) in v.files {
      assert StagingKey(key) !in t;
      assert StagingKey(key) in v.files[key := bytes];
    } else {
      assert t == v.files[key := bytes];
    }
  }

  /** A candidate the search goes past: its name is safe and taken. */
  predicate Passed(w: World, v: Vault, key: Key, n: nat)
    requires n >= 1
  {
    w.safe(Candidate(key.1, n)) && (key.0, Candidate(key.1, n)) in v.files
  }

  /** The first candidate it does not go past. */
  predicate StopsAt(w: World, v: Vault, key: Key, m: nat) {
    1 <= m <= MAX_CANDIDATES && !Passed(w, v, key, m) && forall n :: 1 <= n < m ==> Passed(w, v, key, n)
  }

  /** A unique-name upload never touches a stored file. It stores its bytes under the candidate
      at which its search stops, if the name is safe, and is refused if it is not; and it is
      exhausted exactly when all its candidates are safe and taken, so only when the job holds
      at least that many files. */
  lemma UniqueUpload(w: World, v: Vault, key: Key, bytes: string)
    requires key.0 in v.jobs
    ensures var reply, after := UniqueReply(w, v, key), AddedUnique(w, v, key, bytes);
            Kept(v.files, after.files) &&
            (forall m: nat :: StopsAt(w, v, key, m) && w.safe(Candidate(key.1, m)) ==>
               reply == Inserted(Candidate(key.1, m)) && (key.0, reply.name) !in v.files && after.files == v.files[(key.0, reply.name) := bytes]) &&
            (forall m: nat :: StopsAt(w, v, key, m) && !w.safe(Candidate(key.1, m)) ==> reply == BadName && after == v)
    ensures UniqueReply(w, v, key) == Exhausted <==> forall n :: 1 <= n <= 500 ==> Passed(w, v, key, n)
    ensures UniqueReply(w, v, key) == Exhausted <==> !exists m: nat :: StopsAt(w, v, key, m)
    ensures UniqueReply(w, v, key) == Exhausted ==> AddedUnique(w, v, key, bytes) == v && |v.files| >= 500
  {
    var n := FirstOpen(w, v, key, 1);
    SearchStops(w, v, key);
    FirstCandidate(key.1);
    hide Candidate, StopsAt, FirstOpen;
    if n > MAX_CANDIDATES {
      CandidatesCounted(v, key, MAX_CANDIDATES);
    } else {
      StoppedAt(w, v, key, n);
    }
  }

  lemma StoppedAt(w: World, v: Vault, key: Key, n: nat)
    requires StopsAt(w, v, key, n)
    ensures 1 <= n <= MAX_CANDIDATES && !Passed(w, v, key, n) && forall m :: 1 <= m < n ==> Passed(w, v, key, m)
  {}

  /** The loop ends at the one candidate where the search stops, if there is one. */
  lemma SearchStops(w: World, v: Vault, key: Key)
    ensures var n := FirstOpen(w, v, key, 1);
            1 <= n && (n <= MAX_CANDIDATES ==> StopsAt(w, v, key, n)) && (forall m: nat :: StopsAt(w, v, key, m) ==> m == n) &&
            (n > MAX_CANDIDATES ==> forall i :: 1 <= i <= MAX_CANDIDATES ==> Passed(w, v, key, i))
  {
    hide Candidate;
    var n := FirstOpen(w, v, key, 1);
    OpenIsOpen(w, v, key, 1);
    forall i | 1 <= i < n && i <= MAX_CANDIDATES ensures Passed(w, v, key, i) {}
    forall m: nat | StopsAt(w, v, key, m) ensures m == n {
      assert Passed(w, v, key, n) || n >= m;
    }
  }

  lemma FirstCandidate(name: string)
    ensures Candidate(name, 1) == name
  {}

  lemma {:induction false} OpenIsOpen(w: World, v: Vault, key: Key, n: nat)
    requires n <= MAX_CANDIDATES + 1
    ensures var m := FirstOpen(w, v, key, n);
            m <= MAX_CANDIDATES ==> !w.safe(Candidate(key.1, m)) || (key.0, Candidate(key.1, m)) !in v.files
    decreases MAX_CANDIDATES + 1 - n
  {
    hide Candidate;
    if n <= MAX_CANDIDATES && w.safe(Candidate(key.1, n)) && (key.0, Candidate(key.1, n)) in v.files {
      OpenIsOpen(w, v, key, n + 1);
    }
  }

  lemma {:induction false} CandidatesCounted(v: Vault, key: Key, n: nat)
    requires forall i :: 1 <= i <= n ==> (key.0, Candidate(key.1, i)) in v.files
    ensures |v.files| >= n
    ensures |set i | 1 <= i <= n :: (key.0, Candidate(key.1, i))| == n
  {
    hide Candidate;
    var taken := set i | 1 <= i <= n :: (key.0, Candidate(key.1, i));
    if n > 0 {
      CandidatesCounted(v, key, n - 1);
      var fewer := set i | 1 <= i <= n - 1 :: (key.0, Candidate(key.1, i));
      var last := (key.0, Candidate(key.1, n));
      forall i | 1 <= i <= n - 1 ensures (key.0, Candidate(key.1, i)) != last {
        CandidatesDistinct(key.1, i, n);
      }
      assert taken == fewer + {last};
    }
    SubsetSize(taken, v.files.Keys);
  }

  lemma {:induction false} SubsetSize<T>(a: set<T>, b: set<T>)
    requires a <= b
    ensures |a| <= |b|
  {
    if a != {} {
      var x :| x in a;
      SubsetSize(a - {x}, b - {x});
    }
  }

  // ---- histories ------------------------------------------------------------------------------------------

  datatype Upload = Upload(key: Key, bytes: string)

  /** A batch of insert-if-absent uploads. */
  function Ingested(w: World, v: Vault, us: seq<Upload>): Vault {
    if us == [] then v else var mid := Ingested(w, v, us[..|us| - 1]); AddedIfAbsent(w, mid, us[|us| - 1].key, us[|us| - 1].bytes)
  }

  predicate Admissible(w: World, v: Vault, u: Upload) {
    u.key.0 in v.jobs && w.safe(u.key.1)
  }

  /** The uploads that can land, each key once, the first one winning. */
  function FirstWins(w: World, v: Vault, us: seq<Upload>): map<Key, string> {
    if us == [] then map[]
    else
      var m, u := FirstWins(w, v, us[..|us| - 1]), us[|us| - 1];
      if Admissible(w, v, u) && u.key !in m then m[u.key := u.bytes] else m
  }

  /** No stored file and no upload is the staging sibling of an upload. */
  predicate NoStagingClash(v: Vault, us: seq<Upload>) {
    forall u :: u in us ==> StagingKey(u.key) !in v.files && forall x :: x in us ==> x.key != StagingKey(u.key)
  }

  lemma {:induction false} IngestedJobs(w: World, v: Vault, us: seq<Upload>)
    ensures Ingested(w, v, us).jobs == v.jobs
  {
    if us != [] {
      IngestedJobs(w, v, us[..|us| - 1]);
    }
  }

  lemma {:induction false} FirstWinsKeys(w: World, v: Vault, us: seq<Upload>)
    ensures forall k :: k in FirstWins(w, v, us) <==> exists u :: u in us && u.key == k && Admissible(w, v, u)
  {
    if us != [] {
      var init, last := us[..|us| - 1], us[|us| - 1];
      FirstWinsKeys(w, v, init);
      assert forall u :: u in us <==> u in init || u == last;
    }
  }

  /** The left-biased merge: what was stored stays, and of the uploads the first per name wins. */
  lemma {:induction false} IngestIsLeftBiasedMerge(w: World, v: Vault, us: seq<Upload>)
    requires NoStagingClash(v, us)
    ensures Ingested(w, v, us).files == FirstWins(w, v, us) + v.files
  {
    if us != [] {
      var init, u := us[..|us| - 1], us[|us| - 1];
      assert forall x :: x in init ==> x in us;
      assert u in us;
      IngestIsLeftBiasedMerge(w, v, init);
      IngestedJobs(w, v, init);
      FirstWinsKeys(w, v, init);
      var mid := Ingested(w, v, init);
      assert StagingKey(u.key) !in mid.files;
      MergeStep(w, v, mid, FirstWins(w, v, init), u);
    }
  }

  lemma MergeStep(w: World, v: Vault, mid: Vault, m: map<Key, string>, u: Upload)
    requires mid.jobs == v.jobs && mid.files == m + v.files && StagingKey(u.key) !in mid.files
    ensures AddedIfAbsent(w, mid, u.key, u.bytes).files ==
            (if Admissible(w, v, u) && u.key !in m then m[u.key := u.bytes] else m) + v.files
  {
    if IfAbsentReply(w, mid, u.key, u.bytes).Inserted? {
      InsertKeepsExactly(w, mid, u.key, u.bytes);
    }
  }

  /** The same batch into the SQL table, whose insert stages nothing. */
  function TableIngested(w: World, v: Vault, us: seq<Upload>): Vault {
    if us == [] then v
    else
      var mid, u := TableIngested(w, v, us[..|us| - 1]), us[|us| - 1];
      if IfAbsentReply(w, mid, u.key, u.bytes).Inserted? then mid.(files := mid.files[u.key := u.bytes]) else mid
  }

  /** The table takes the left-biased merge of every batch, and the file store the same as long
      as nothing sits under a staging name. */
  lemma {:induction false} TableIngestIsLeftBiasedMerge(w: World, v: Vault, us: seq<Upload>)
    ensures TableIngested(w, v, us).jobs == v.jobs
    ensures TableIngested(w, v, us).files == FirstWins(w, v, us) + v.files
    ensures NoStagingClash(v, us) ==> Ingested(w, v, us).files == TableIngested(w, v, us).files
  {
    if us != [] {
      var init, u := us[..|us| - 1], us[|us| - 1];
      TableIngestIsLeftBiasedMerge(w, v, init);
      FirstWinsKeys(w, v, init);
      TableStep(w, v, TableIngested(w, v, init), FirstWins(w, v, init), u);
    }
    hide FirstWins, TableIngested, Ingested;
    if NoStagingClash(v, us) {
      IngestIsLeftBiasedMerge(w, v, us);
    }
  }

  lemma TableStep(w: World, v: Vault, mid: Vault, m: map<Key, string>, u: Upload)
    requires mid.jobs == v.jobs && mid.files == m + v.files
    ensures (if IfAbsentReply(w, mid, u.key, u.bytes).Inserted? then mid.files[u.key := u.bytes] else mid.files) ==
            (if Admissible(w, v, u) && u.key !in m then m[u.key := u.bytes] else m) + v.files
  {}

  /** Replaying a batch changes nothing: each upload is refused, or is reported as already there,
      the same bytes or different ones. */
  lemma ReplayIsNoop(w: World, v: Vault, us: seq<Upload>, u: Upload)
    requires NoStagingClash(v, us) && u in us
    ensures var t := Ingested(w, v, us);
            IfAbsentReply(w, t, u.key, u.bytes) in {JobNotFound, BadName, Noop, BytesDiffer} &&
            AddedIfAbsent(w, t, u.key, u.bytes) == t &&
            (Admissible(w, v, u) ==>
               u.key in t.files && (IfAbsentReply(w, t, u.key, u.bytes) == Noop <==> w.sha(t.files[u.key]) == w.sha(u.bytes)))
  {
    IngestIsLeftBiasedMerge(w, v, us);
    IngestedJobs(w, v, us);
    FirstWinsKeys(w, v, us);
    hide Ingested, FirstWins;
  }

  datatype Op =
    | CreateJob(job: string, mdName: string, text: string)
    | AddIfAbsent(key: Key, bytes: string)
    | AddUnique(key: Key, bytes: string)

  /** A job is created exactly when its name is safe and no job has it: then it is there with its
      document, and every other job and file is as it was but for a file under the document's
      staging name. */
  lemma CreateExactly(w: World, v: Vault, job: string, mdName: string, text: string)
    ensures var t := CreatedIfAbsent(w, v, job, mdName, text);
            var made := w.safe(job) && job !in v.jobs;
            && t.jobs == (if made then v.jobs + {job} else v.jobs)
            && (!made ==> t.files == v.files)
            && (made ==> (job, mdName) in t.files && t.files[(job, mdName)] == text &&
                         forall key :: key != (job, mdName) ==>
                           (key in t.files <==> key in v.files && key != (job, mdName + ".tmp")) &&
                           (key in t.files ==> t.files[key] == v.files[key]))
  {}

  function Next(w: World, v: Vault, op: Op): Vault {
    match op
    case CreateJob(job, mdName, text) => CreatedIfAbsent(w, v, job, mdName, text)
    case AddIfAbsent(key, bytes) => AddedIfAbsent(w, v, key, bytes)
    case AddUnique(key, bytes) => AddedUnique(w, v, key, bytes)
  }

  function After(w: World, v: Vault, ops: seq<Op>): Vault {
    if ops == [] then v else Next(w, After(w, v, ops[..|ops| - 1]), ops[|ops| - 1])
  }

  /** Files only under jobs that exist, none of them named like a staging file. */
  predicate Tidy(v: Vault) {
    forall k :: k in v.files ==> k.0 in v.jobs && !IsStagingName(k.1)
  }

  predicate IsStagingName(name: string) {
    |name| >= 4 && name[|name| - 4..] == ".tmp"
  }

  predicate OpTidy(op: Op) {
    match op
    case CreateJob(_, mdName, _) => !IsStagingName(mdName)
    case AddIfAbsent(key, _) => !IsStagingName(key.1)
    case AddUnique(key, _) => forall n :: 1 <= n <= MAX_CANDIDATES ==> !IsStagingName(Candidate(key.1, n))
  }

  lemma StagingIsStaging(key: Key)
    ensures IsStagingName(StagingKey(key).1)
  {
    assert (key.1 + ".tmp")[|key.1|..] == ".tmp";
  }

  lemma NextKeeps(w: World, v: Vault, op: Op)
    requires Tidy(v) && OpTidy(op)
    ensures Tidy(Next(w, v, op)) && Kept(v.files, Next(w, v, op).files) && v.jobs <= Next(w, v, op).jobs
  {
    hide IsStagingName, Candidate;
    match op {
      case CreateJob(job, mdName, text) => StagingIsStaging((job, mdName));
      case AddIfAbsent(key, bytes) => StagingIsStaging(key);
      case AddUnique(key, bytes) => OpenIsOpen(w, v, key, 1);
    }
  }

  /** Any mixture of job inserts, file inserts and unique-name uploads leaves every earlier file
      as it was, as long as no name ends in ".tmp". */
  lemma {:induction false} NothingIsOverwritten(w: World, v: Vault, ops: seq<Op>, k: nat)
    requires Tidy(v) && (forall op :: op in ops ==> OpTidy(op)) && k <= |ops|
    ensures Kept(After(w, v, ops[..k]).files, After(w, v, ops).files) && Tidy(After(w, v, ops))
    decreases |ops|
  {
    if k == |ops| {
      assert ops[..k] == ops;
      if ops != [] {
        NothingIsOverwritten(w, v, ops[..|ops| - 1], |ops| - 1);
        assert ops[..|ops| - 1][..|ops| - 1] == ops[..|ops| - 1];
        NextKeeps(w, After(w, v, ops[..|ops| - 1]), ops[|ops| - 1]);
      }
    } else {
      var init := ops[..|ops| - 1];
      assert init[..k] == ops[..k];
      NothingIsOverwritten(w, v, init, k);
      NextKeeps(w, After(w, v, init), ops[|ops| - 1]);
    }
  }
}
