/** How a discovery source is read from the registry file and written back: fields the
    serializer knows are brought into shape, and keys it does not know ride along.

    Objects are maps from keys to values: key order and the YAML text are not modelled. A key
    outside the modelled lists is Other. The closed vocabularies, string conversion,
    lower-casing and slugs are parameters. */
module SourceSerializer {
  import opened Numerals
  import opened Options
  import Text = Frontmatter

  datatype Key =
    | Id | Name | Type | Sector | Active | Urls | Url | Cadence | FetchMode | FetchNote | Instructions | OutputFields
    | Aliases | Tracks | LastRunAt | LastVisitedAt | Notes | Runs | InstructionProposals | InstructionsApprovedFrom
    | InstructionsUpdatedAt | ActorId | Input | FieldMap | Extra
    | StartedAt | DurationMs | Outcome | LeadsFound | LeadsNew | CandidatesReviewed | AlreadyTracked | FilteredOut
    | Trigger | RunId | ErrorReason
    | Ts | OwnerComment | ProposedInstructions | Rationale | Status | ResolvedAt | RejectionReason
    | Other(name: string)

  datatype Value = Null | Bool(b: bool) | Num(n: int) | Str(s: string) | Arr(items: seq<Value>) | Obj(fields: Object)

  type Object = map<Key, Value>

  datatype World = World(str: Value -> string, lower: string -> string, slugBase: string -> string,
                         types: set<string>, sectors: set<string>, actives: set<string>, cadences: set<string>,
                         fetchModes: set<string>, tracks: set<string>)
  {
    ghost predicate Valid() {
      forall s: string :: AllClean(s) ==> lower(s) == s
    }
  }

  const RUN_OUTCOMES := {"succeeded", "failed", "incomplete", "running"}
  const PROPOSAL_STATUSES := {"pending", "approved", "rejected"}

  // ---- reading values ------------------------------------------------------------------

  function Get(o: Object, k: Key): Option<Value> {
    if k in o then Some(o[k]) else None
  }

  /** `String(v)`. */
  function ToStr(w: World, v: Value): string {
    if v.Str? then v.s else w.str(v)
  }

  predicate Truthy(v: Option<Value>) {
    v.Some? && match v.value case Null => false case Bool(b) => b case Num(n) => n != 0 case Str(s) => s != "" case _ => true
  }

  /** A string field, or "". */
  function AsText(v: Option<Value>): string {
    if v.Some? && v.value.Str? then v.value.s else ""
  }

  function NonEmpty(v: Option<Value>): Option<string> {
    if AsText(v) != "" then Some(AsText(v)) else None
  }

  function Number(v: Option<Value>): Option<int> {
    if v.Some? && v.value.Num? then Some(v.value.n) else None
  }

  /** A word of a closed vocabulary, or the default. */
  function Word(v: Option<Value>, words: set<string>, fallback: string): string {
    if v.Some? && v.value.Str? && v.value.s in words then v.value.s else fallback
  }

  function NumField(n: Option<int>): Option<Value> {
    if n.Some? then Some(Num(n.value)) else None
  }

  function TextField(s: Option<string>): Option<Value> {
    if s.Some? && s.value != "" then Some(Str(s.value)) else None
  }

  /** A non-empty string, or nothing. */
  function Filled(s: string): Option<Value> {
    if s != "" then Some(Str(s)) else None
  }

  lemma TextBack(s: string)
    ensures AsText(Some(Str(s))) == s && AsText(Filled(s)) == s
  {}

  /** A number in memory: null when it is not reported. */
  function NumOrNull(n: Option<int>): Option<Value> {
    if n.Some? then Some(Num(n.value)) else Some(Null)
  }

  lemma NonEmptyBack(s: Option<string>)
    requires s != Some("")
    ensures NonEmpty(TextField(s)) == s
  {}

  lemma WordBack(s: string, words: set<string>, fallback: string)
    requires s in words || s == fallback
    ensures Word(Some(Str(s)), words, fallback) == s
  {}

  function Strings(w: World, items: seq<Value>): seq<string> {
    if items == [] then []
    else (if ToStr(w, items[0]) == "" then [] else [ToStr(w, items[0])]) + Strings(w, items[1..])
  }

  function StrArr(w: World, v: Option<Value>): seq<string> {
    if v.Some? && v.value.Arr? then Strings(w, v.value.items) else []
  }

  function Within(words: seq<string>, known: set<string>): seq<string> {
    if words == [] then [] else (if words[0] in known then [words[0]] else []) + Within(words[1..], known)
  }

  function PlainObject(v: Option<Value>): Option<Object> {
    if v.Some? && v.value.Obj? then Some(v.value.fields) else None
  }

  function Strs(words: seq<string>): (items: seq<Value>)
    ensures |items| == |words| && forall i :: 0 <= i < |words| ==> items[i] == Str(words[i])
  {
    if words == [] then [] else [Str(words[0])] + Strs(words[1..])
  }

  // ---- ids -------------------------------------------------------------------------------

  predicate CleanChar(c: char) {
    'a' <= c <= 'z' || '0' <= c <= '9' || c == '.' || c == '_' || c == '-'
  }

  predicate AllClean(s: string) {
    forall c :: c in s ==> CleanChar(c)
  }

  function Cleaned(s: string): (t: string)
    ensures AllClean(t) && (AllClean(s) ==> t == s)
  {
    if s == "" then "" else (if CleanChar(s[0]) then [s[0]] else "") + Cleaned(s[1..])
  }

  function Sanitized(w: World, s: string): (t: string)
    ensures AllClean(t)
  {
    Cleaned(w.lower(Text.Trim(s)))
  }

  function SanitizeId(w: World, v: Option<Value>): Option<string> {
    if v.None? || v.value.Null? || Sanitized(w, ToStr(w, v.value)) == "" then None else Some(Sanitized(w, ToStr(w, v.value)))
  }

  function Slug(w: World, name: string): string {
    var t := Sanitized(w, w.slugBase(name));
    if t == "" then "source" else t
  }

  // ---- run records -------------------------------------------------------------------------

  datatype RunRec = RunRec(startedAt: string, durationMs: Option<int>, outcome: string, leadsFound: Option<int>,
                           leadsNew: Option<int>, candidatesReviewed: Option<int>, alreadyTracked: Option<int>,
                           filteredOut: Option<int>, trigger: string, runId: Option<string>, errorReason: Option<string>)

  /** `x && typeof x === "object"` keeps arrays too: they have none of the keys. */
  function FieldsOf(v: Value): Object {
    if v.Obj? then v.fields else map[]
  }

  function NormalizeRun(o: Object): RunRec {
    RunRec(AsText(Get(o, StartedAt)), Number(Get(o, DurationMs)), Word(Get(o, Outcome), RUN_OUTCOMES, "incomplete"),
           Number(Get(o, LeadsFound)), Number(Get(o, LeadsNew)), Number(Get(o, CandidatesReviewed)),
           Number(Get(o, AlreadyTracked)), Number(Get(o, FilteredOut)), Word(Get(o, Trigger), {"scheduled", "all-due"}, "manual"),
           NonEmpty(Get(o, RunId)), NonEmpty(Get(o, ErrorReason)))
  }

  const RUN_KEYS := {StartedAt, DurationMs, Outcome, LeadsFound, LeadsNew, CandidatesReviewed, AlreadyTracked, FilteredOut,
                     Trigger, RunId, ErrorReason}

  function RunField(r: RunRec, k: Key): Option<Value> {
    if k.StartedAt? then Some(Str(r.startedAt))
    else if k.Outcome? then Some(Str(r.outcome))
    else if k.Trigger? then Some(Str(r.trigger))
    else if k.RunId? then TextField(r.runId)
    else if k.DurationMs? then NumField(r.durationMs)
    else if k.LeadsFound? then NumField(r.leadsFound)
    else if k.LeadsNew? then NumField(r.leadsNew)
    else if k.CandidatesReviewed? then NumField(r.candidatesReviewed)
    else if k.AlreadyTracked? then NumField(r.alreadyTracked)
    else if k.FilteredOut? then NumField(r.filteredOut)
    else if k.ErrorReason? then TextField(r.errorReason)
    else None
  }

  function SerializeRun(r: RunRec): Object {
    map k | k in RUN_KEYS && RunField(r, k).Some? :: RunField(r, k).value
  }

  /** The record in memory: numbers that are not reported are null. */
  function RunInMemory(r: RunRec, k: Key): Option<Value> {
    if k.DurationMs? then NumOrNull(r.durationMs)
    else if k.LeadsFound? then NumOrNull(r.leadsFound)
    else if k.LeadsNew? then NumOrNull(r.leadsNew)
    else if k.CandidatesReviewed? then NumOrNull(r.candidatesReviewed)
    else if k.AlreadyTracked? then NumOrNull(r.alreadyTracked)
    else if k.FilteredOut? then NumOrNull(r.filteredOut)
    else RunField(r, k)
  }

  function LiveRun(r: RunRec): Object {
    map k | k in RUN_KEYS && RunInMemory(r, k).Some? :: RunInMemory(r, k).value
  }

  predicate RunOk(r: RunRec) {
    r.outcome in RUN_OUTCOMES && r.trigger in {"scheduled", "all-due", "manual"} &&
    r.runId != Some("") && r.errorReason != Some("")
  }

  lemma NormalizedRunOk(o: Object)
    ensures RunOk(NormalizeRun(o))
  {}

  lemma RunKey(r: RunRec, k: Key)
    ensures Get(SerializeRun(r), k) == RunField(r, k)
  {}

  lemma LiveRunKey(r: RunRec, k: Key)
    ensures Get(LiveRun(r), k) == RunInMemory(r, k)
  {}

  lemma RunFields(r: RunRec)
    ensures var o := SerializeRun(r);
            Get(o, StartedAt) == Some(Str(r.startedAt)) && Get(o, Outcome) == Some(Str(r.outcome)) &&
            Get(o, Trigger) == Some(Str(r.trigger)) && Get(o, RunId) == TextField(r.runId) &&
            Get(o, ErrorReason) == TextField(r.errorReason) && Get(o, DurationMs) == NumField(r.durationMs) &&
            Get(o, LeadsFound) == NumField(r.leadsFound) && Get(o, LeadsNew) == NumField(r.leadsNew) &&
            Get(o, CandidatesReviewed) == NumField(r.candidatesReviewed) &&
            Get(o, AlreadyTracked) == NumField(r.alreadyTracked) && Get(o, FilteredOut) == NumField(r.filteredOut)
  {
    hide TextField, NumField, SerializeRun, Get;
    RunKey(r, StartedAt);
    RunKey(r, Outcome);
    RunKey(r, Trigger);
    RunKey(r, RunId);
    RunKey(r, ErrorReason);
    RunKey(r, DurationMs);
    RunKey(r, LeadsFound);
    RunKey(r, LeadsNew);
    RunKey(r, CandidatesReviewed);
    RunKey(r, AlreadyTracked);
    RunKey(r, FilteredOut);
  }

  lemma RunFieldsInMemory(r: RunRec)
    ensures var o := LiveRun(r);
            Get(o, StartedAt) == Some(Str(r.startedAt)) && Get(o, Outcome) == Some(Str(r.outcome)) &&
            Get(o, Trigger) == Some(Str(r.trigger)) && Get(o, RunId) == TextField(r.runId) &&
            Get(o, ErrorReason) == TextField(r.errorReason) && Get(o, DurationMs) == NumOrNull(r.durationMs) &&
            Get(o, LeadsFound) == NumOrNull(r.leadsFound) && Get(o, LeadsNew) == NumOrNull(r.leadsNew) &&
            Get(o, CandidatesReviewed) == NumOrNull(r.candidatesReviewed) &&
            Get(o, AlreadyTracked) == NumOrNull(r.alreadyTracked) && Get(o, FilteredOut) == NumOrNull(r.filteredOut)
  {
    hide TextField, NumField, NumOrNull, LiveRun, Get;
    LiveRunKey(r, StartedAt);
    LiveRunKey(r, Outcome);
    LiveRunKey(r, Trigger);
    LiveRunKey(r, RunId);
    LiveRunKey(r, ErrorReason);
    LiveRunKey(r, DurationMs);
    LiveRunKey(r, LeadsFound);
    LiveRunKey(r, LeadsNew);
    LiveRunKey(r, CandidatesReviewed);
    LiveRunKey(r, AlreadyTracked);
    LiveRunKey(r, FilteredOut);
  }

  lemma NumBack(n: Option<int>)
    ensures Number(NumField(n)) == n && Number(NumOrNull(n)) == n
  {}

  /** A record in shape comes back unchanged from the file. */
  lemma RunComesBack(r: RunRec)
    requires RunOk(r)
    ensures NormalizeRun(SerializeRun(r)) == r
  {
    RunFields(r);
    TextBack(r.startedAt);
    WordBack(r.outcome, RUN_OUTCOMES, "incomplete");
    WordBack(r.trigger, {"scheduled", "all-due"}, "manual");
    NonEmptyBack(r.runId);
    NonEmptyBack(r.errorReason);
    NumBack(r.durationMs);
    NumBack(r.leadsFound);
    NumBack(r.leadsNew);
    NumBack(r.candidatesReviewed);
    NumBack(r.alreadyTracked);
    NumBack(r.filteredOut);
    hide SerializeRun, Get, AsText, Word, Number, NonEmpty, NumField, TextField, NumOrNull, RunOk;
  }

  /** So it does when it is normalized again in memory. */
  lemma RunStays(r: RunRec)
    requires RunOk(r)
    ensures NormalizeRun(LiveRun(r)) == r
  {
    RunFieldsInMemory(r);
    TextBack(r.startedAt);
    WordBack(r.outcome, RUN_OUTCOMES, "incomplete");
    WordBack(r.trigger, {"scheduled", "all-due"}, "manual");
    NonEmptyBack(r.runId);
    NonEmptyBack(r.errorReason);
    NumBack(r.durationMs);
    NumBack(r.leadsFound);
    NumBack(r.leadsNew);
    NumBack(r.candidatesReviewed);
    NumBack(r.alreadyTracked);
    NumBack(r.filteredOut);
    hide LiveRun, Get, AsText, Word, Number, NonEmpty, NumField, TextField, NumOrNull, RunOk;
  }

  // ---- proposals -----------------------------------------------------------------------------

  datatype Proposal = Proposal(id: string, ts: string, ownerComment: string, proposedInstructions: string, rationale: string,
                               status: string, resolvedAt: Option<string>, rejectionReason: Option<string>)

  function NormalizeProposal(o: Object, legacyId: string): Proposal {
    Proposal(if Text.Trim(AsText(Get(o, Id))) != "" then Text.Trim(AsText(Get(o, Id))) else legacyId,
             AsText(Get(o, Ts)), AsText(Get(o, OwnerComment)), AsText(Get(o, ProposedInstructions)), AsText(Get(o, Rationale)),
             Word(Get(o, Status), PROPOSAL_STATUSES, "pending"), NonEmpty(Get(o, ResolvedAt)), NonEmpty(Get(o, RejectionReason)))
  }

  const PROPOSAL_KEYS := {Id, Ts, OwnerComment, ProposedInstructions, Rationale, Status, ResolvedAt, RejectionReason}

  function ProposalField(p: Proposal, k: Key): Option<Value> {
    if k.Id? then Some(Str(p.id))
    else if k.Ts? then Some(Str(p.ts))
    else if k.Status? then Some(Str(p.status))
    else if k.ProposedInstructions? then Some(Str(p.proposedInstructions))
    else if k.OwnerComment? then Filled(p.ownerComment)
    else if k.Rationale? then Filled(p.rationale)
    else if k.ResolvedAt? then TextField(p.resolvedAt)
    else if k.RejectionReason? then TextField(p.rejectionReason)
    else None
  }

  function SerializeProposal(p: Proposal): Object {
    map k | k in PROPOSAL_KEYS && ProposalField(p, k).Some? :: ProposalField(p, k).value
  }

  predicate ProposalOk(p: Proposal) {
    p.id != "" && Text.Trim(p.id) == p.id && p.status in PROPOSAL_STATUSES && p.resolvedAt != Some("") && p.rejectionReason != Some("")
  }

  lemma ProposalKey(p: Proposal, k: Key)
    ensures Get(SerializeProposal(p), k) == ProposalField(p, k)
  {}

  lemma ProposalFields(p: Proposal)
    ensures var o := SerializeProposal(p);
            Get(o, Id) == Some(Str(p.id)) && Get(o, Ts) == Some(Str(p.ts)) && Get(o, Status) == Some(Str(p.status)) &&
            Get(o, ProposedInstructions) == Some(Str(p.proposedInstructions)) && Get(o, OwnerComment) == Filled(p.ownerComment) &&
            Get(o, Rationale) == Filled(p.rationale) && Get(o, ResolvedAt) == TextField(p.resolvedAt) &&
            Get(o, RejectionReason) == TextField(p.rejectionReason)
  {
    hide TextField, Filled, SerializeProposal, Get;
    ProposalKey(p, Id);
    ProposalKey(p, Ts);
    ProposalKey(p, Status);
    ProposalKey(p, ProposedInstructions);
    ProposalKey(p, OwnerComment);
    ProposalKey(p, Rationale);
    ProposalKey(p, ResolvedAt);
    ProposalKey(p, RejectionReason);
  }

  lemma ProposalComesBack(p: Proposal, legacyId: string)
    requires ProposalOk(p)
    ensures NormalizeProposal(SerializeProposal(p), legacyId) == p
  {
    ProposalFields(p);
    TextBack(p.id);
    TextBack(p.ts);
    TextBack(p.ownerComment);
    TextBack(p.proposedInstructions);
    TextBack(p.rationale);
    WordBack(p.status, PROPOSAL_STATUSES, "pending");
    NonEmptyBack(p.resolvedAt);
    NonEmptyBack(p.rejectionReason);
    hide SerializeProposal, Get, Text.Trim, AsText, Word, NonEmpty, TextField, Filled;
  }

  // ---- sources ----------------------------------------------------------------------------------

  datatype Source = Source(id: string, name: string, kind: string, sector: string, active: string, urls: seq<string>, cadence: string,
                           fetchMode: Option<string>, fetchNote: string, instructions: string, outputFields: seq<string>,
                           aliases: seq<string>, tracks: seq<string>, lastRunAt: Option<string>, lastVisitedAt: Option<string>,
                           notes: string, runs: seq<RunRec>, proposals: seq<Proposal>, approvedFrom: Option<string>,
                           updatedAt: Option<string>, actorId: string, input: Option<Object>, fieldMap: Option<Object>, extra: Object)

  const MODELED := {Id, Name, Type, Sector, Active, Urls, Url, Cadence, FetchMode, FetchNote, Instructions, OutputFields, Aliases,
                    Tracks, LastRunAt, LastVisitedAt, Notes, Runs, InstructionProposals, InstructionsApprovedFrom,
                    InstructionsUpdatedAt, ActorId, Input, FieldMap, Extra}

  predicate IsModeled(k: Key) {
    k.Id? || k.Name? || k.Type? || k.Sector? || k.Active? || k.Urls? || k.Url? || k.Cadence? || k.FetchMode? || k.FetchNote? ||
    k.Instructions? || k.OutputFields? || k.Aliases? || k.Tracks? || k.LastRunAt? || k.LastVisitedAt? || k.Notes? || k.Runs? ||
    k.InstructionProposals? || k.InstructionsApprovedFrom? || k.InstructionsUpdatedAt? || k.ActorId? || k.Input? || k.FieldMap? ||
    k.Extra?
  }

  /** No key that the serializer models. */
  predicate Foreign(o: Object) {
    forall k :: k in o ==> !IsModeled(k)
  }

  /** What every JavaScript object answers to before it has any key of its own. */
  const INHERITED := {"constructor", "__defineGetter__", "__defineSetter__", "hasOwnProperty", "__lookupGetter__",
                      "__lookupSetter__", "isPrototypeOf", "propertyIsEnumerable", "toString", "valueOf", "__proto__",
                      "toLocaleString"}

  predicate Inherited(k: Key) {
    k.Other? && k.name in INHERITED
  }

  /** Object entries only. */
  function Objects(items: seq<Value>): seq<Object> {
    if items == [] then [] else (if items[0].Obj? || items[0].Arr? then [FieldsOf(items[0])] else []) + Objects(items[1..])
  }

  function ObjectsIn(v: Option<Value>): seq<Object> {
    if v.Some? && v.value.Arr? then Objects(v.value.items) else []
  }

  function NormalizeRuns(os: seq<Object>): seq<RunRec> {
    seq(|os|, i requires 0 <= i < |os| => NormalizeRun(os[i]))
  }

  lemma {:induction false} DecimalLast(n: nat)
    ensures '0' <= Decimal(n)[|Decimal(n)| - 1] <= '9'
  {}

  lemma TrimLegacy(s: string)
    requires |s| > 10 && s[..10] == "ip-legacy-" && '0' <= s[|s| - 1] <= '9'
    ensures Text.Trim(s) == s
  {
    assert s[0] == s[..10][0];
    assert s[0..] == s;
  }

  function LegacyId(i: nat): (s: string)
    ensures s != "" && Text.Trim(s) == s
  {
    var s := "ip-legacy-" + Decimal(i);
    DecimalLast(i);
    TrimLegacy(s);
    s
  }

  function NormalizeProposals(os: seq<Object>): seq<Proposal> {
    seq(|os|, i requires 0 <= i < |os| => NormalizeProposal(os[i], LegacyId(i)))
  }

  function NameOf(w: World, o: Object): string {
    if AsText(Get(o, Name)) != "" then AsText(Get(o, Name))
    else if Truthy(Get(o, Id)) then ToStr(w, o[Id]) else ""
  }

  function UrlsOf(w: World, o: Object): seq<string> {
    if Get(o, Urls).Some? && o[Urls].Arr? then Strings(w, o[Urls].items)
    else if Truthy(Get(o, Url)) then [ToStr(w, o[Url])] else []
  }

  /** The carrier of unknown keys: what an object already carries, and the keys of its own. */
  function ExtraOf(o: Object): Object {
    var carried := if Get(o, Extra).Some? then FieldsOf(o[Extra]) else map[];
    (carried + map k | k in o && !IsModeled(k) :: o[k]) - {Other("__proto__")}
  }

  function Normalize(w: World, o: Object): Source {
    var name := NameOf(w, o);
    var id := SanitizeId(w, Get(o, Id));
    var mode := Word(Get(o, FetchMode), w.fetchModes, "");
    Source(if id.Some? then id.value else Slug(w, name), name,
           Word(Get(o, Type), w.types, "board"), Word(Get(o, Sector), w.sectors, "private"), Word(Get(o, Active), w.actives, "maybe"),
           UrlsOf(w, o), Word(Get(o, Cadence), w.cadences, "manual"),
           if mode != "" then Some(mode) else None, AsText(Get(o, FetchNote)), AsText(Get(o, Instructions)),
           StrArr(w, Get(o, OutputFields)), StrArr(w, Get(o, Aliases)), Within(StrArr(w, Get(o, Tracks)), w.tracks),
           NonEmpty(Get(o, LastRunAt)), NonEmpty(Get(o, LastVisitedAt)), AsText(Get(o, Notes)),
           NormalizeRuns(ObjectsIn(Get(o, Runs))), NormalizeProposals(ObjectsIn(Get(o, InstructionProposals))),
           NonEmpty(Get(o, InstructionsApprovedFrom)), NonEmpty(Get(o, InstructionsUpdatedAt)),
           Text.Trim(AsText(Get(o, ActorId))), PlainObject(Get(o, Input)), PlainObject(Get(o, FieldMap)), ExtraOf(o))
  }

  // ---- writing -----------------------------------------------------------------------------------

  function RunValues(rs: seq<RunRec>): seq<Value> {
    seq(|rs|, i requires 0 <= i < |rs| => Obj(SerializeRun(rs[i])))
  }

  function ProposalValues(ps: seq<Proposal>): seq<Value> {
    seq(|ps|, i requires 0 <= i < |ps| => Obj(SerializeProposal(ps[i])))
  }

  /** An object, unless it has no keys. */
  function FilledObject(o: Option<Object>): Option<Value> {
    if o.Some? && o.value != map[] then Some(Obj(o.value)) else None
  }

  /** The modelled fields, empty ones dropped. */
  function SourceField(n: Source, k: Key): Option<Value> {
    if k.Id? then Some(Str(n.id))
    else if k.Name? then Some(Str(n.name))
    else if k.Type? then Some(Str(n.kind))
    else if k.Sector? then Some(Str(n.sector))
    else if k.Active? then Some(Str(n.active))
    else if k.Urls? then Some(Arr(Strs(n.urls)))
    else if k.Cadence? then Some(Str(n.cadence))
    else if k.Instructions? then Some(Str(n.instructions))
    else if k.OutputFields? then Some(Arr(Strs(n.outputFields)))
    else if k.Aliases? then Some(Arr(Strs(n.aliases)))
    else if k.Tracks? then Some(Arr(Strs(n.tracks)))
    else if k.FetchMode? then TextField(n.fetchMode)
    else if k.FetchNote? then Filled(n.fetchNote)
    else if k.LastRunAt? then TextField(n.lastRunAt)
    else if k.LastVisitedAt? then TextField(n.lastVisitedAt)
    else if k.Notes? then Filled(n.notes)
    else if k.Runs? then (if n.runs == [] then None else Some(Arr(RunValues(n.runs))))
    else if k.InstructionProposals? then (if n.proposals == [] then None else Some(Arr(ProposalValues(n.proposals))))
    else if k.InstructionsApprovedFrom? then TextField(n.approvedFrom)
    else if k.InstructionsUpdatedAt? then TextField(n.updatedAt)
    else if k.ActorId? then Filled(n.actorId)
    else if k.Input? then FilledObject(n.input)
    else if k.FieldMap? then FilledObject(n.fieldMap)
    else None
  }

  /** A carried key is written unless the object answers to it already, by a field or by birth. */
  function Stored(n: Source, k: Key): Option<Value> {
    var v := SourceField(n, k);
    if v.Some? then v else if k in n.extra && !Inherited(k) then Some(n.extra[k]) else None
  }

  function Serialize(n: Source): Object {
    map k | k in MODELED + n.extra.Keys && Stored(n, k).Some? :: Stored(n, k).value
  }

  function LiveProposalField(p: Proposal, k: Key): Option<Value> {
    if k.OwnerComment? then Some(Str(p.ownerComment))
    else if k.Rationale? then Some(Str(p.rationale))
    else ProposalField(p, k)
  }

  function LiveProposal(p: Proposal): Object {
    map k | k in PROPOSAL_KEYS && LiveProposalField(p, k).Some? :: LiveProposalField(p, k).value
  }

  function LiveRunValues(rs: seq<RunRec>): seq<Value> {
    seq(|rs|, i requires 0 <= i < |rs| => Obj(LiveRun(rs[i])))
  }

  function LiveProposalValues(ps: seq<Proposal>): seq<Value> {
    seq(|ps|, i requires 0 <= i < |ps| => Obj(LiveProposal(ps[i])))
  }

  lemma LiveProposalKey(p: Proposal, k: Key)
    ensures Get(LiveProposal(p), k) == LiveProposalField(p, k)
  {}

  lemma ProposalStays(p: Proposal, legacyId: string)
    requires ProposalOk(p)
    ensures NormalizeProposal(LiveProposal(p), legacyId) == p
  {
    ProposalFieldsInMemory(p);
    TextBack(p.id);
    TextBack(p.ts);
    TextBack(p.ownerComment);
    TextBack(p.proposedInstructions);
    TextBack(p.rationale);
    WordBack(p.status, PROPOSAL_STATUSES, "pending");
    NonEmptyBack(p.resolvedAt);
    NonEmptyBack(p.rejectionReason);
    hide LiveProposal, Get, Text.Trim, AsText, Word, NonEmpty, TextField;
  }

  lemma ProposalFieldsInMemory(p: Proposal)
    ensures var o := LiveProposal(p);
            Get(o, Id) == Some(Str(p.id)) && Get(o, Ts) == Some(Str(p.ts)) && Get(o, Status) == Some(Str(p.status)) &&
            Get(o, ProposedInstructions) == Some(Str(p.proposedInstructions)) && Get(o, OwnerComment) == Some(Str(p.ownerComment)) &&
            Get(o, Rationale) == Some(Str(p.rationale)) && Get(o, ResolvedAt) == TextField(p.resolvedAt) &&
            Get(o, RejectionReason) == TextField(p.rejectionReason)
  {
    hide TextField, Filled, LiveProposal, Get;
    LiveProposalKey(p, Id);
    LiveProposalKey(p, Ts);
    LiveProposalKey(p, Status);
    LiveProposalKey(p, ProposedInstructions);
    LiveProposalKey(p, OwnerComment);
    LiveProposalKey(p, Rationale);
    LiveProposalKey(p, ResolvedAt);
    LiveProposalKey(p, RejectionReason);
  }

  function TextOrNull(s: Option<string>): Option<Value> {
    if s.Some? then Some(Str(s.value)) else Some(Null)
  }

  function ObjectOrNull(o: Option<Object>): Option<Value> {
    if o.Some? then Some(Obj(o.value)) else Some(Null)
  }

  /** The source in memory: every field is there, null where it is not set. */
  function LiveField(n: Source, k: Key): Option<Value> {
    if k.FetchMode? then TextOrNull(n.fetchMode)
    else if k.FetchNote? then Some(Str(n.fetchNote))
    else if k.LastRunAt? then TextOrNull(n.lastRunAt)
    else if k.LastVisitedAt? then TextOrNull(n.lastVisitedAt)
    else if k.Notes? then Some(Str(n.notes))
    else if k.Runs? then Some(Arr(LiveRunValues(n.runs)))
    else if k.InstructionProposals? then Some(Arr(LiveProposalValues(n.proposals)))
    else if k.InstructionsApprovedFrom? then TextOrNull(n.approvedFrom)
    else if k.InstructionsUpdatedAt? then TextOrNull(n.updatedAt)
    else if k.ActorId? then Some(Str(n.actorId))
    else if k.Input? then ObjectOrNull(n.input)
    else if k.FieldMap? then ObjectOrNull(n.fieldMap)
    else if k.Extra? then FilledObject(Some(n.extra))
    else SourceField(n, k)
  }

  function Live(n: Source): Object {
    map k | k in MODELED && LiveField(n, k).Some? :: LiveField(n, k).value
  }

  /** One load and one save: the save normalizes what the load normalized. */
  function LoadAndSave(w: World, o: Object): Object {
    Serialize(Normalize(w, Live(Normalize(w, o))))
  }

  // ---- sources in shape ------------------------------------------------------------------------------

  predicate AllFilled(words: seq<string>) {
    forall s :: s in words ==> s != ""
  }

  predicate SourceOk(w: World, n: Source) {
    && n.id != "" && AllClean(n.id) && n.name != ""
    && (n.kind in w.types || n.kind == "board") && (n.sector in w.sectors || n.sector == "private")
    && (n.active in w.actives || n.active == "maybe") && (n.cadence in w.cadences || n.cadence == "manual")
    && (n.fetchMode.Some? ==> n.fetchMode.value in w.fetchModes && n.fetchMode.value != "")
    && AllFilled(n.outputFields) && AllFilled(n.aliases)
    && AllFilled(n.tracks) && (forall t :: t in n.tracks ==> t in w.tracks)
    && n.lastRunAt != Some("") && n.lastVisitedAt != Some("") && n.approvedFrom != Some("") && n.updatedAt != Some("")
    && (forall r :: r in n.runs ==> RunOk(r)) && (forall p :: p in n.proposals ==> ProposalOk(p))
    && Text.Trim(n.actorId) == n.actorId
    && Foreign(n.extra) && Other("__proto__") !in n.extra
  }

  lemma {:induction false} StringsFilled(w: World, items: seq<Value>)
    ensures AllFilled(Strings(w, items))
  {
    if items != [] {
      StringsFilled(w, items[1..]);
    }
  }

  lemma {:induction false} WithinFilled(words: seq<string>, known: set<string>)
    requires AllFilled(words)
    ensures AllFilled(Within(words, known)) && forall t :: t in Within(words, known) ==> t in known
  {
    if words != [] {
      assert words[0] in words && forall s :: s in words[1..] ==> s in words;
      WithinFilled(words[1..], known);
    }
  }

  lemma StrArrFilled(w: World, v: Option<Value>)
    ensures AllFilled(StrArr(w, v))
  {
    if v.Some? && v.value.Arr? {
      StringsFilled(w, v.value.items);
    }
  }

  lemma WordIn(v: Option<Value>, words: set<string>, fallback: string)
    ensures Word(v, words, fallback) in words || Word(v, words, fallback) == fallback
  {}

  lemma NonEmptyIs(v: Option<Value>)
    ensures NonEmpty(v) != Some("")
  {}

  lemma ProposalOkFrom(o: Object, legacyId: string)
    requires legacyId != "" && Text.Trim(legacyId) == legacyId
    ensures ProposalOk(NormalizeProposal(o, legacyId))
  {
    TrimTwice(AsText(Get(o, Id)));
  }

  lemma {:induction false} TrimRightTwice(s: string)
    ensures Text.TrimRight(Text.TrimRight(s)) == Text.TrimRight(s)
    ensures Text.TrimRight(s) <= s
  {
    if s != "" && Text.IsSpace(s[|s| - 1]) {
      TrimRightTwice(s[..|s| - 1]);
    }
  }

  lemma TrimTwice(s: string)
    ensures Text.Trim(Text.Trim(s)) == Text.Trim(s)
  {
    var t := Text.Trim(s);
    TrimRightTwice(s[Text.Lead(s)..]);
    assert t != "" ==> !Text.IsSpace(t[0]);
    assert t[0..] == t;
  }

  lemma RunsOk(os: seq<Object>)
    ensures forall r :: r in NormalizeRuns(os) ==> RunOk(r)
  {
    hide RunOk, NormalizeRun;
    forall r | r in NormalizeRuns(os) ensures RunOk(r) {
      var i :| 0 <= i < |os| && NormalizeRun(os[i]) == r;
      NormalizedRunOk(os[i]);
    }
  }

  lemma ProposalsOk(os: seq<Object>)
    ensures forall p :: p in NormalizeProposals(os) ==> ProposalOk(p)
  {
    hide ProposalOk, NormalizeProposal, LegacyId, Text.Trim;
    forall p | p in NormalizeProposals(os) ensures ProposalOk(p) {
      var i :| 0 <= i < |os| && NormalizeProposal(os[i], LegacyId(i)) == p;
      ProposalOkFrom(os[i], LegacyId(i));
    }
  }

  lemma ExtraIs(o: Object)
    requires Extra !in o
    ensures Foreign(ExtraOf(o)) && Other("__proto__") !in ExtraOf(o)
    ensures forall k :: k in ExtraOf(o) <==> k in o && !IsModeled(k) && k != Other("__proto__")
    ensures forall k :: k in ExtraOf(o) ==> ExtraOf(o)[k] == o[k]
  {}

  lemma IdOk(w: World, v: Option<Value>, name: string)
    ensures var id := if SanitizeId(w, v).Some? then SanitizeId(w, v).value else Slug(w, name); id != "" && AllClean(id)
  {
    assert AllClean("source");
  }

  /** What a load makes of a source with a name or an id, and without a carrier on disk, is in shape. */
  lemma NormalizedOk(w: World, o: Object)
    requires NameOf(w, o) != "" && Extra !in o
    ensures SourceOk(w, Normalize(w, o))
  {
    hide Get, Word, AsText, StrArr, Within, AllFilled, AllClean, NonEmpty, Text.Trim, NormalizeRuns, NormalizeProposals, RunOk,
         ProposalOk, NameOf, UrlsOf, ExtraOf, PlainObject, ObjectsIn, SanitizeId, Slug;
    WordIn(Get(o, Type), w.types, "board");
    WordIn(Get(o, Sector), w.sectors, "private");
    WordIn(Get(o, Active), w.actives, "maybe");
    WordIn(Get(o, Cadence), w.cadences, "manual");
    WordIn(Get(o, FetchMode), w.fetchModes, "");
    StrArrFilled(w, Get(o, OutputFields));
    StrArrFilled(w, Get(o, Aliases));
    StrArrFilled(w, Get(o, Tracks));
    WithinFilled(StrArr(w, Get(o, Tracks)), w.tracks);
    TrimTwice(AsText(Get(o, ActorId)));
    RunsOk(ObjectsIn(Get(o, Runs)));
    ProposalsOk(ObjectsIn(Get(o, InstructionProposals)));
    NonEmptyIs(Get(o, LastRunAt));
    NonEmptyIs(Get(o, LastVisitedAt));
    NonEmptyIs(Get(o, InstructionsApprovedFrom));
    NonEmptyIs(Get(o, InstructionsUpdatedAt));
    ExtraIs(o);
    IdOk(w, Get(o, Id), NameOf(w, o));
  }
}
