/** Loading and saving the source registry any number of times. */
module SourceRoundTrips {
  import opened Options
  import opened SourceSerializer
  import Text = Frontmatter

  // ---- words and objects come back -----------------------------------------------------------

  lemma {:induction false} StringsBack(w: World, words: seq<string>)
    ensures AllFilled(words) ==> Strings(w, Strs(words)) == words
    ensures AllFilled(Strings(w, Strs(words)))
  {
    if words != [] {
      assert Strs(words)[1..] == Strs(words[1..]);
      StringsBack(w, words[1..]);
      if AllFilled(words) {
        assert words[0] in words && forall s :: s in words[1..] ==> s in words;
      }
    }
  }

  lemma {:induction false} WithinBack(words: seq<string>, known: set<string>)
    requires forall t :: t in words ==> t in known
    ensures Within(words, known) == words
  {
    if words != [] {
      WithinBack(words[1..], known);
    }
  }

  lemma {:induction false} ObjectsBack(os: seq<Object>, items: seq<Value>)
    requires |items| == |os| && forall i :: 0 <= i < |os| ==> items[i] == Obj(os[i])
    ensures Objects(items) == os
  {
    if os != [] {
      ObjectsBack(os[1..], items[1..]);
    }
  }

  lemma RunsBack(rs: seq<RunRec>)
    requires forall r :: r in rs ==> RunOk(r)
    ensures NormalizeRuns(Objects(RunValues(rs))) == rs
    ensures NormalizeRuns(Objects(LiveRunValues(rs))) == rs
  {
    hide RunOk, NormalizeRun, SerializeRun, LiveRun, Objects;
    ObjectsBack(seq(|rs|, i requires 0 <= i < |rs| => SerializeRun(rs[i])), RunValues(rs));
    ObjectsBack(seq(|rs|, i requires 0 <= i < |rs| => LiveRun(rs[i])), LiveRunValues(rs));
    forall i | 0 <= i < |rs| ensures NormalizeRun(SerializeRun(rs[i])) == rs[i] && NormalizeRun(LiveRun(rs[i])) == rs[i] {
      RunComesBack(rs[i]);
      RunStays(rs[i]);
    }
  }

  lemma ProposalsBack(ps: seq<Proposal>)
    requires forall p :: p in ps ==> ProposalOk(p)
    ensures NormalizeProposals(Objects(ProposalValues(ps))) == ps
    ensures NormalizeProposals(Objects(LiveProposalValues(ps))) == ps
  {
    hide ProposalOk, NormalizeProposal, SerializeProposal, LiveProposal, Objects, LegacyId;
    ObjectsBack(seq(|ps|, i requires 0 <= i < |ps| => SerializeProposal(ps[i])), ProposalValues(ps));
    ObjectsBack(seq(|ps|, i requires 0 <= i < |ps| => LiveProposal(ps[i])), LiveProposalValues(ps));
    forall i | 0 <= i < |ps|
      ensures NormalizeProposal(SerializeProposal(ps[i]), LegacyId(i)) == ps[i] && NormalizeProposal(LiveProposal(ps[i]), LegacyId(i)) == ps[i]
    {
      ProposalComesBack(ps[i], LegacyId(i));
      ProposalStays(ps[i], LegacyId(i));
    }
  }

  // ---- what an object shows of a source ---------------------------------------------------------

  /** An object from which a load reads this source back, its web addresses apart. */
  predicate Presents(w: World, o: Object, n: Source) {
    && Get(o, Id) == Some(Str(n.id)) && Get(o, Name) == Some(Str(n.name))
    && Get(o, Type) == Some(Str(n.kind)) && Get(o, Sector) == Some(Str(n.sector))
    && Get(o, Active) == Some(Str(n.active)) && Get(o, Cadence) == Some(Str(n.cadence))
    && Get(o, Urls) == Some(Arr(Strs(n.urls))) && Get(o, OutputFields) == Some(Arr(Strs(n.outputFields)))
    && Get(o, Aliases) == Some(Arr(Strs(n.aliases))) && Get(o, Tracks) == Some(Arr(Strs(n.tracks)))
    && NonEmpty(Get(o, FetchMode)) == n.fetchMode
    && AsText(Get(o, FetchNote)) == n.fetchNote && AsText(Get(o, Instructions)) == n.instructions
    && AsText(Get(o, Notes)) == n.notes && AsText(Get(o, ActorId)) == n.actorId
    && NonEmpty(Get(o, LastRunAt)) == n.lastRunAt && NonEmpty(Get(o, LastVisitedAt)) == n.lastVisitedAt
    && NonEmpty(Get(o, InstructionsApprovedFrom)) == n.approvedFrom
    && NonEmpty(Get(o, InstructionsUpdatedAt)) == n.updatedAt
    && NormalizeRuns(ObjectsIn(Get(o, Runs))) == n.runs
    && NormalizeProposals(ObjectsIn(Get(o, InstructionProposals))) == n.proposals
    && PlainObject(Get(o, Input)) == n.input && PlainObject(Get(o, FieldMap)) == n.fieldMap
    && ExtraOf(o) == n.extra
  }

  /** A load drops empty web addresses. */
  function Reloaded(w: World, n: Source): Source {
    n.(urls := Strings(w, Strs(n.urls)))
  }

  lemma IdBack(w: World, id: string)
    requires w.Valid() && id != "" && AllClean(id)
    ensures SanitizeId(w, Some(Str(id))) == Some(id)
  {
    assert CleanChar(id[0]) && CleanChar(id[|id| - 1]) by {
      assert id[0] in id && id[|id| - 1] in id;
    }
    assert id[0..] == id;
    assert Text.Trim(id) == id;
  }

  lemma ModeBack(w: World, v: Option<Value>, mode: Option<string>)
    requires NonEmpty(v) == mode && (mode.Some? ==> mode.value in w.fetchModes && mode.value != "")
    ensures var m := Word(v, w.fetchModes, ""); (if m != "" then Some(m) else None) == mode
  {}

  lemma NameShows(w: World, o: Object, name: string)
    requires Get(o, Name) == Some(Str(name)) && name != ""
    ensures NameOf(w, o) == name
  {}

  lemma ListShows(w: World, v: Option<Value>, words: seq<string>)
    requires v == Some(Arr(Strs(words)))
    ensures AllFilled(words) ==> StrArr(w, v) == words
  {
    StringsBack(w, words);
  }

  lemma UrlsShow(w: World, o: Object, words: seq<string>)
    requires Get(o, Urls) == Some(Arr(Strs(words)))
    ensures UrlsOf(w, o) == Strings(w, Strs(words))
  {}

  lemma PresentsBack(w: World, o: Object, n: Source)
    requires w.Valid() && SourceOk(w, n) && Presents(w, o, n)
    ensures Normalize(w, o) == Reloaded(w, n)
  {
    hide Get, Word, AsText, Strings, Within, AllFilled, AllClean, NonEmpty, Text.Trim, NormalizeRuns, NormalizeProposals, RunOk,
         ProposalOk, ExtraOf, PlainObject, ObjectsIn, SanitizeId, Slug, Strs, NameOf, UrlsOf, StrArr, Foreign;
    IdBack(w, n.id);
    NameShows(w, o, n.name);
    WordBack(n.kind, w.types, "board");
    WordBack(n.sector, w.sectors, "private");
    WordBack(n.active, w.actives, "maybe");
    WordBack(n.cadence, w.cadences, "manual");
    UrlsShow(w, o, n.urls);
    ListShows(w, Get(o, OutputFields), n.outputFields);
    ListShows(w, Get(o, Aliases), n.aliases);
    ListShows(w, Get(o, Tracks), n.tracks);
    WithinBack(n.tracks, w.tracks);
    ModeBack(w, Get(o, FetchMode), n.fetchMode);
  }

  // ---- the file and memory show the source ------------------------------------------------------

  /** What the file keeps of a source: no empty objects, and no carried key that every object
      answers to. */
  function Trimmed(n: Source): Source {
    n.(input := if n.input == Some(map[]) then None else n.input,
       fieldMap := if n.fieldMap == Some(map[]) then None else n.fieldMap,
       extra := map k | k in n.extra && !Inherited(k) :: n.extra[k])
  }

  lemma StoredKey(n: Source, k: Key)
    ensures Get(Serialize(n), k) == Stored(n, k)
  {}

  lemma FieldKey(n: Source, k: Key)
    requires Foreign(n.extra) && IsModeled(k)
    ensures Get(Serialize(n), k) == SourceField(n, k)
  {
    StoredKey(n, k);
    hide SourceField, Serialize, Get;
  }

  lemma LiveKey(n: Source, k: Key)
    ensures Get(Live(n), k) == LiveField(n, k)
  {}

  lemma ExtraKey(o: Object, k: Key)
    requires Extra !in o
    ensures Get(ExtraOf(o), k) == if IsModeled(k) || k == Other("__proto__") then None else Get(o, k)
  {
    ExtraIs(o);
    hide ExtraOf;
  }

  lemma ForeignField(n: Source, k: Key)
    ensures !IsModeled(k) ==> SourceField(n, k).None?
  {
    hide Strs, RunValues, ProposalValues, TextField, Filled, FilledObject;
  }

  lemma TrimmedExtraKey(n: Source, k: Key)
    ensures Get(Trimmed(n).extra, k) == if Inherited(k) then None else Get(n.extra, k)
  {}

  lemma ForeignKey(n: Source, k: Key)
    requires Foreign(n.extra) && IsModeled(k)
    ensures Get(n.extra, k).None?
  {}

  lemma ProtoInherited()
    ensures Inherited(Other("__proto__"))
  {}

  lemma NoCarrier(n: Source)
    requires Foreign(n.extra)
    ensures Extra !in Serialize(n)
  {
    FieldKey(n, Extra);
    hide Serialize;
    assert SourceField(n, Extra).None?;
  }

  lemma SerializedExtra(n: Source)
    requires Foreign(n.extra)
    ensures ExtraOf(Serialize(n)) == Trimmed(n).extra
  {
    hide *;
    NoCarrier(n);
    ProtoInherited();
    forall k ensures Get(ExtraOf(Serialize(n)), k) == Get(Trimmed(n).extra, k) {
      ExtraKey(Serialize(n), k);
      TrimmedExtraKey(n, k);
      if IsModeled(k) {
        ForeignKey(n, k);
      } else {
        StoredKey(n, k);
        ForeignStored(n, k);
      }
    }
    SameObject(ExtraOf(Serialize(n)), Trimmed(n).extra);
  }

  lemma ForeignStored(n: Source, k: Key)
    requires !IsModeled(k)
    ensures Stored(n, k) == if Inherited(k) then None else Get(n.extra, k)
  {
    ForeignField(n, k);
    hide SourceField, Inherited, IsModeled;
  }

  lemma SameObject(a: Object, b: Object)
    requires forall k :: Get(a, k) == Get(b, k)
    ensures a == b
  {
    forall k ensures (k in a <==> k in b) && (k in a ==> a[k] == b[k]) {
      assert Get(a, k) == Get(b, k);
    }
  }

  /** The carrier in memory holds exactly the foreign keys. */
  lemma CarrierKey(o: Object, extra: Object, k: Key)
    requires Foreign(extra) && Other("__proto__") !in extra
    requires Get(o, Extra) == FilledObject(Some(extra)) && forall x :: x in o ==> IsModeled(x)
    ensures Get(ExtraOf(o), k) == Get(extra, k)
  {}

  lemma LiveKeys(n: Source)
    ensures forall x :: x in Live(n) ==> IsModeled(x)
  {
    hide LiveField;
    forall k | k in MODELED ensures IsModeled(k) {}
  }

  lemma LiveExtra(n: Source)
    requires Foreign(n.extra) && Other("__proto__") !in n.extra
    ensures ExtraOf(Live(n)) == n.extra
  {
    hide Live, Get, ExtraOf, FilledObject, Foreign, IsModeled;
    LiveKey(n, Extra);
    LiveKeys(n);
    forall k ensures Get(ExtraOf(Live(n)), k) == Get(n.extra, k) {
      CarrierKey(Live(n), n.extra, k);
    }
    SameObject(ExtraOf(Live(n)), n.extra);
  }

  lemma FileShows(w: World, n: Source)
    requires SourceOk(w, n)
    ensures Presents(w, Serialize(n), Trimmed(n))
  {
    hide Serialize, Get, ExtraOf, Strs, AsText, NonEmpty, PlainObject, NormalizeRuns, NormalizeProposals, ObjectsIn;
    FileShowsWords(n);
    FileShowsLists(n);
    FileShowsTexts(n);
    FileShowsOptions(n);
    SerializedExtra(n);
    FileShowsObjects(n);
  }

  lemma FileShowsWords(n: Source)
    requires Foreign(n.extra)
    ensures var o := Serialize(n);
            Get(o, Id) == Some(Str(n.id)) && Get(o, Name) == Some(Str(n.name)) && Get(o, Type) == Some(Str(n.kind)) &&
            Get(o, Sector) == Some(Str(n.sector)) && Get(o, Active) == Some(Str(n.active)) && Get(o, Cadence) == Some(Str(n.cadence))
  {
    hide Serialize, Get;
    FieldKey(n, Id);
    FieldKey(n, Name);
    FieldKey(n, Type);
    FieldKey(n, Sector);
    FieldKey(n, Active);
    FieldKey(n, Cadence);
  }

  lemma FileShowsLists(n: Source)
    requires Foreign(n.extra)
    ensures var o := Serialize(n);
            Get(o, Urls) == Some(Arr(Strs(n.urls))) && Get(o, OutputFields) == Some(Arr(Strs(n.outputFields))) &&
            Get(o, Aliases) == Some(Arr(Strs(n.aliases))) && Get(o, Tracks) == Some(Arr(Strs(n.tracks)))
  {
    hide Serialize, Get, Strs;
    FieldKey(n, Urls);
    FieldKey(n, OutputFields);
    FieldKey(n, Aliases);
    FieldKey(n, Tracks);
  }

  lemma FileShowsTexts(n: Source)
    requires Foreign(n.extra)
    ensures var o := Serialize(n);
            AsText(Get(o, FetchNote)) == n.fetchNote && AsText(Get(o, Instructions)) == n.instructions &&
            AsText(Get(o, Notes)) == n.notes && AsText(Get(o, ActorId)) == n.actorId
  {
    hide Serialize, Get, Filled, AsText;
    FieldKey(n, FetchNote);
    FieldKey(n, Instructions);
    FieldKey(n, Notes);
    FieldKey(n, ActorId);
    TextBack(n.fetchNote);
    TextBack(n.instructions);
    TextBack(n.notes);
    TextBack(n.actorId);
  }

  lemma FileShowsOptions(n: Source)
    requires Foreign(n.extra)
    requires n.fetchMode != Some("") && n.lastRunAt != Some("") && n.lastVisitedAt != Some("")
    requires n.approvedFrom != Some("") && n.updatedAt != Some("")
    ensures var o := Serialize(n);
            NonEmpty(Get(o, FetchMode)) == n.fetchMode && NonEmpty(Get(o, LastRunAt)) == n.lastRunAt &&
            NonEmpty(Get(o, LastVisitedAt)) == n.lastVisitedAt && NonEmpty(Get(o, InstructionsApprovedFrom)) == n.approvedFrom &&
            NonEmpty(Get(o, InstructionsUpdatedAt)) == n.updatedAt
  {
    hide Serialize, Get, TextField, NonEmpty;
    FieldKey(n, FetchMode);
    FieldKey(n, LastRunAt);
    FieldKey(n, LastVisitedAt);
    FieldKey(n, InstructionsApprovedFrom);
    FieldKey(n, InstructionsUpdatedAt);
    NonEmptyBack(n.fetchMode);
    NonEmptyBack(n.lastRunAt);
    NonEmptyBack(n.lastVisitedAt);
    NonEmptyBack(n.approvedFrom);
    NonEmptyBack(n.updatedAt);
  }

  lemma FileShowsObjects(n: Source)
    requires Foreign(n.extra) && (forall r :: r in n.runs ==> RunOk(r)) && (forall p :: p in n.proposals ==> ProposalOk(p))
    ensures var o := Serialize(n);
            NormalizeRuns(ObjectsIn(Get(o, Runs))) == n.runs && NormalizeProposals(ObjectsIn(Get(o, InstructionProposals))) == n.proposals &&
            PlainObject(Get(o, Input)) == Trimmed(n).input && PlainObject(Get(o, FieldMap)) == Trimmed(n).fieldMap
  {
    hide Serialize, Get, RunOk, ProposalOk, RunValues, ProposalValues, Objects;
    FieldKey(n, Runs);
    FieldKey(n, InstructionProposals);
    FieldKey(n, Input);
    FieldKey(n, FieldMap);
    RunsBack(n.runs);
    ProposalsBack(n.proposals);
  }

  lemma MemoryShows(w: World, n: Source)
    requires SourceOk(w, n)
    ensures Presents(w, Live(n), n)
  {
    hide Live, Get, ExtraOf, Strs, AsText, NonEmpty, PlainObject, NormalizeRuns, NormalizeProposals, ObjectsIn;
    MemoryShowsWords(n);
    MemoryShowsLists(n);
    MemoryShowsTexts(n);
    MemoryShowsOptions(n);
    LiveExtra(n);
    MemoryShowsObjects(n);
  }

  lemma MemoryShowsWords(n: Source)
    ensures var o := Live(n);
            Get(o, Id) == Some(Str(n.id)) && Get(o, Name) == Some(Str(n.name)) && Get(o, Type) == Some(Str(n.kind)) &&
            Get(o, Sector) == Some(Str(n.sector)) && Get(o, Active) == Some(Str(n.active)) && Get(o, Cadence) == Some(Str(n.cadence))
  {
    hide Live, Get;
    LiveKey(n, Id);
    LiveKey(n, Name);
    LiveKey(n, Type);
    LiveKey(n, Sector);
    LiveKey(n, Active);
    LiveKey(n, Cadence);
  }

  lemma MemoryShowsLists(n: Source)
    ensures var o := Live(n);
            Get(o, Urls) == Some(Arr(Strs(n.urls))) && Get(o, OutputFields) == Some(Arr(Strs(n.outputFields))) &&
            Get(o, Aliases) == Some(Arr(Strs(n.aliases))) && Get(o, Tracks) == Some(Arr(Strs(n.tracks)))
  {
    hide Live, Get, Strs;
    LiveKey(n, Urls);
    LiveKey(n, OutputFields);
    LiveKey(n, Aliases);
    LiveKey(n, Tracks);
  }

  lemma NullBack(s: Option<string>)
    requires s != Some("")
    ensures NonEmpty(TextOrNull(s)) == s
  {}

  lemma MemoryShowsTexts(n: Source)
    ensures var o := Live(n);
            AsText(Get(o, FetchNote)) == n.fetchNote && AsText(Get(o, Instructions)) == n.instructions &&
            AsText(Get(o, Notes)) == n.notes && AsText(Get(o, ActorId)) == n.actorId
  {
    hide Live, Get, AsText;
    LiveKey(n, FetchNote);
    LiveKey(n, Instructions);
    LiveKey(n, Notes);
    LiveKey(n, ActorId);
    TextBack(n.fetchNote);
    TextBack(n.instructions);
    TextBack(n.notes);
    TextBack(n.actorId);
  }

  lemma MemoryShowsOptions(n: Source)
    requires n.fetchMode != Some("") && n.lastRunAt != Some("") && n.lastVisitedAt != Some("")
    requires n.approvedFrom != Some("") && n.updatedAt != Some("")
    ensures var o := Live(n);
            NonEmpty(Get(o, FetchMode)) == n.fetchMode && NonEmpty(Get(o, LastRunAt)) == n.lastRunAt &&
            NonEmpty(Get(o, LastVisitedAt)) == n.lastVisitedAt && NonEmpty(Get(o, InstructionsApprovedFrom)) == n.approvedFrom &&
            NonEmpty(Get(o, InstructionsUpdatedAt)) == n.updatedAt
  {
    hide Live, Get, TextOrNull, NonEmpty;
    LiveKey(n, FetchMode);
    LiveKey(n, LastRunAt);
    LiveKey(n, LastVisitedAt);
    LiveKey(n, InstructionsApprovedFrom);
    LiveKey(n, InstructionsUpdatedAt);
    NullBack(n.fetchMode);
    NullBack(n.lastRunAt);
    NullBack(n.lastVisitedAt);
    NullBack(n.approvedFrom);
    NullBack(n.updatedAt);
  }

  lemma MemoryShowsObjects(n: Source)
    requires (forall r :: r in n.runs ==> RunOk(r)) && (forall p :: p in n.proposals ==> ProposalOk(p))
    ensures var o := Live(n);
            NormalizeRuns(ObjectsIn(Get(o, Runs))) == n.runs && NormalizeProposals(ObjectsIn(Get(o, InstructionProposals))) == n.proposals &&
            PlainObject(Get(o, Input)) == n.input && PlainObject(Get(o, FieldMap)) == n.fieldMap
  {
    hide Live, Get, RunOk, ProposalOk, LiveRunValues, LiveProposalValues, Objects;
    LiveKey(n, Runs);
    LiveKey(n, InstructionProposals);
    LiveKey(n, Input);
    LiveKey(n, FieldMap);
    RunsBack(n.runs);
    ProposalsBack(n.proposals);
  }

  // ---- load and save ----------------------------------------------------------------------------------

  lemma TrimmedExtraOk(n: Source)
    requires Foreign(n.extra) && Other("__proto__") !in n.extra
    ensures Foreign(Trimmed(n).extra) && Other("__proto__") !in Trimmed(n).extra
  {
    hide IsModeled, Inherited;
  }

  lemma TrimmedOk(w: World, n: Source)
    requires SourceOk(w, n)
    ensures SourceOk(w, Trimmed(n))
  {
    TrimmedExtraOk(n);
    hide RunOk, ProposalOk, AllFilled, AllClean, Text.Trim, Inherited, Foreign;
  }

  lemma TrimmedField(n: Source, k: Key)
    ensures SourceField(Trimmed(n), k) == SourceField(n, k)
  {
    hide Strs, RunValues, ProposalValues, TextField, Filled, Inherited;
  }

  lemma TrimmedKey(n: Source, k: Key)
    ensures Stored(Trimmed(n), k) == Stored(n, k)
  {
    TrimmedField(n, k);
    hide SourceField, Inherited;
  }

  lemma TrimmedWritesSame(n: Source)
    ensures Serialize(Trimmed(n)) == Serialize(n)
  {
    forall k ensures Get(Serialize(Trimmed(n)), k) == Get(Serialize(n), k) {
      StoredKey(n, k);
      StoredKey(Trimmed(n), k);
      TrimmedKey(n, k);
    }
    hide Serialize, Get, Trimmed;
    SameObject(Serialize(Trimmed(n)), Serialize(n));
  }

  lemma FileReads(w: World, n: Source)
    requires w.Valid() && SourceOk(w, n)
    ensures Normalize(w, Serialize(n)) == Reloaded(w, Trimmed(n))
  {
    hide *;
    FileShows(w, n);
    TrimmedOk(w, n);
    PresentsBack(w, Serialize(n), Trimmed(n));
  }

  lemma MemoryReads(w: World, n: Source)
    requires w.Valid() && SourceOk(w, n)
    ensures Normalize(w, Live(n)) == Reloaded(w, n)
  {
    hide *;
    MemoryShows(w, n);
    PresentsBack(w, Live(n), n);
  }

  lemma ReloadedOk(w: World, n: Source)
    requires SourceOk(w, n)
    ensures SourceOk(w, Reloaded(w, n)) && AllFilled(Reloaded(w, n).urls)
    ensures AllFilled(n.urls) ==> Reloaded(w, n) == n
  {
    StringsBack(w, n.urls);
    hide RunOk, ProposalOk, AllFilled, AllClean, Text.Trim, Strings, Strs;
  }

  function Canonical(w: World, o: Object): Object {
    Serialize(Normalize(w, o))
  }

  /** The addresses a load takes from an object are all non-empty: always, unless there is no list
      and the single address converts to nothing. */
  predicate AddressesFilled(w: World, o: Object) {
    (Get(o, Urls).Some? && o[Urls].Arr?) || !Truthy(Get(o, Url)) || ToStr(w, o[Url]) != ""
  }

  lemma AddressesAre(w: World, o: Object)
    ensures AllFilled(UrlsOf(w, o)) <==> AddressesFilled(w, o)
    ensures !AddressesFilled(w, o) ==> UrlsOf(w, o) == [""]
  {
    if Get(o, Urls).Some? && o[Urls].Arr? {
      StringsFilled(w, o[Urls].items);
    }
    assert "" in [""];
  }

  lemma UrlsRead(w: World, o: Object)
    ensures Normalize(w, o).urls == UrlsOf(w, o) && Normalize(w, o).extra == ExtraOf(o)
  {
    hide NormalizeRuns, NormalizeProposals, Word, NameOf, SanitizeId, StrArr, Within, ExtraOf, PlainObject, NonEmpty, AsText,
         Slug, UrlsOf, Text.Trim, ObjectsIn, Get;
  }

  lemma UrlsKept(w: World, n: Source)
    ensures Trimmed(n).urls == n.urls && Reloaded(w, n).urls == Strings(w, Strs(n.urls)) && Reloaded(w, n).extra == n.extra
  {
    hide Strings, Strs, Inherited;
  }

  lemma EmptyAddress(w: World)
    ensures Strs(Strings(w, Strs([""]))) != Strs([""])
  {
    assert Strs([""])[0] == Str("");
    assert Strings(w, Strs([""])) == [];
  }

  /** Writing what was read, reading that and writing again gives the same object exactly when
      every address that was read is non-empty. */
  lemma CanonicalIsIdempotent(w: World, o: Object)
    requires w.Valid() && NameOf(w, o) != "" && Extra !in o
    ensures Canonical(w, Canonical(w, o)) == Canonical(w, o) <==> AddressesFilled(w, o)
  {
    hide *;
    var n := Normalize(w, o);
    var again := Reloaded(w, Trimmed(n));
    CanonicalIs(w, o);
    CanonicalIs(w, Canonical(w, o));
    AddressesAre(w, o);
    UrlsRead(w, o);
    NormalizedOk(w, o);
    FileReads(w, n);
    TrimmedOk(w, n);
    ReloadedOk(w, Trimmed(n));
    TrimmedWritesSame(n);
    UrlsKept(w, n);
    UrlsKept(w, Trimmed(n));
    if !AddressesFilled(w, o) {
      OkIsForeign(w, n);
      OkIsForeign(w, again);
      FileShowsLists(n);
      FileShowsLists(again);
      EmptyAddress(w);
    }
  }

  lemma OkIsForeign(w: World, n: Source)
    requires SourceOk(w, n)
    ensures Foreign(n.extra)
  {
    hide Foreign;
  }

  lemma CanonicalIs(w: World, o: Object)
    ensures Canonical(w, o) == Serialize(Normalize(w, o))
    ensures LoadAndSave(w, o) == Serialize(Normalize(w, Live(Normalize(w, o))))
  {
    hide Serialize, Normalize, Live;
  }

  /** One load and save settles a source: any further ones change nothing. */
  lemma CyclesSettle(w: World, o: Object)
    requires w.Valid() && NameOf(w, o) != "" && Extra !in o
    ensures LoadAndSave(w, LoadAndSave(w, o)) == LoadAndSave(w, o)
  {
    hide *;
    var n := Normalize(w, o);
    var m := Reloaded(w, n);
    var t := Trimmed(m);
    CanonicalIs(w, o);
    CanonicalIs(w, Serialize(m));
    NormalizedOk(w, o);
    MemoryReads(w, n);
    ReloadedOk(w, n);
    FileReads(w, m);
    TrimmedOk(w, m);
    UrlsKept(w, m);
    ReloadedOk(w, t);
    MemoryReads(w, t);
    TrimmedWritesSame(m);
  }

  /** The file after some loads and saves. */
  function Cycles(w: World, o: Object, times: nat): Object {
    if times == 0 then o else LoadAndSave(w, Cycles(w, o, times - 1))
  }

  /** A key that the serializer does not model survives any number of loads and saves with its
      value, unless it is one of the names that every object answers to: then it is lost. */
  lemma UnknownKeysSurvive(w: World, o: Object, k: Key, times: nat)
    requires w.Valid() && NameOf(w, o) != "" && Extra !in o && !IsModeled(k) && times > 0
    ensures Get(Cycles(w, o, times), k) == if Inherited(k) then None else Get(o, k)
  {
    if times > 1 {
      UnknownKeysSurvive(w, o, k, times - 1);
      CyclesStay(w, o, times);
    } else {
      assert Cycles(w, o, 0) == o && Cycles(w, o, 1) == LoadAndSave(w, o);
      OnceKeeps(w, o, k);
    }
  }

  lemma OnceKeeps(w: World, o: Object, k: Key)
    requires w.Valid() && NameOf(w, o) != "" && Extra !in o && !IsModeled(k)
    ensures Get(LoadAndSave(w, o), k) == if Inherited(k) then None else Get(o, k)
  {
    hide *;
    var n := Normalize(w, o);
    CanonicalIs(w, o);
    UrlsRead(w, o);
    UrlsKept(w, n);
    NormalizedOk(w, o);
    MemoryReads(w, n);
    StoredKey(Reloaded(w, n), k);
    ForeignStored(Reloaded(w, n), k);
    ExtraKey(o, k);
    ProtoInherited();
  }

  lemma {:induction false} CyclesStay(w: World, o: Object, times: nat)
    requires w.Valid() && NameOf(w, o) != "" && Extra !in o && times > 1
    ensures Cycles(w, o, times) == Cycles(w, o, times - 1)
  {
    if times > 2 {
      CyclesStay(w, o, times - 1);
    } else {
      assert Cycles(w, o, 0) == o;
      CyclesSettle(w, o);
    }
  }
}
