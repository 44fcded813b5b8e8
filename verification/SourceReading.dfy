/** What a load takes from a raw source, field by field and whatever stands there: a field of the
    wrong kind is as good as a missing one. */
module SourceReading {
  import opened Options
  import opened SourceSerializer
  import Seqs
  import Text = Frontmatter

  // ---- one field -----------------------------------------------------------------------------

  /** A text is kept as it is; anything else reads as the empty one. */
  ghost predicate ReadsText(v: Option<Value>, r: string) {
    (forall s :: v == Some(Str(s)) ==> r == s) && (r != "" ==> v == Some(Str(r)))
  }

  /** A text that is not empty, or nothing. */
  predicate ReadsFilled(v: Option<Value>, r: Option<string>) {
    match r
    case Some(s) => s != "" && v == Some(Str(s))
    case None => v == Some(Str("")) || !(v.Some? && v.value.Str?)
  }

  predicate ReadsNumber(v: Option<Value>, r: Option<int>) {
    match r
    case Some(n) => v == Some(Num(n))
    case None => !(v.Some? && v.value.Num?)
  }

  /** A word of the vocabulary, and the default for anything else. */
  predicate ReadsWord(v: Option<Value>, words: set<string>, fallback: string, r: string) {
    (r in words && v == Some(Str(r))) || (r == fallback && forall s :: s in words ==> v != Some(Str(s)))
  }

  /** What JavaScript takes for false. */
  predicate Falsy(v: Option<Value>) {
    v in {None, Some(Null), Some(Bool(false)), Some(Num(0)), Some(Str(""))}
  }

  lemma TextReads(v: Option<Value>)
    ensures ReadsText(v, AsText(v)) && ReadsFilled(v, NonEmpty(v)) && ReadsNumber(v, Number(v))
    ensures Falsy(v) <==> !Truthy(v)
  {}

  lemma WordReads(v: Option<Value>, words: set<string>, fallback: string)
    ensures ReadsWord(v, words, fallback, Word(v, words, fallback))
  {}

  // ---- lists and ids ----------------------------------------------------------------------------

  lemma {:induction false} StringsConcat(w: World, a: seq<Value>, b: seq<Value>)
    ensures Strings(w, a + b) == Strings(w, a) + Strings(w, b)
  {
    hide ToStr;
    if a == [] {
      assert a + b == b;
    } else {
      var first := if ToStr(w, a[0]) == "" then [] else [ToStr(w, a[0])];
      StringsConcat(w, a[1..], b);
      assert (a + b)[0] == a[0] && (a + b)[1..] == a[1..] + b;
      Seqs.Assoc(first, Strings(w, a[1..]), Strings(w, b));
    }
  }

  /** Of a list those entries count whose text is not empty, in their order. */
  lemma StringsExactly(w: World, a: seq<Value>, b: seq<Value>, v: Value)
    ensures Strings(w, a + b) == Strings(w, a) + Strings(w, b)
    ensures Strings(w, [v]) == if ToStr(w, v) == "" then [] else [ToStr(w, v)]
  {
    StringsConcat(w, a, b);
    hide ToStr;
    assert [v][1..] == [] && Strings(w, []) == [];
  }

  /** A small letter, a digit, a point, an underscore or a dash, by their codes. */
  predicate InId(c: char) {
    var n := c as int;
    97 <= n <= 122 || 48 <= n <= 57 || n == 46 || n == 95 || n == 45
  }

  lemma {:induction false} CleanedConcat(a: string, b: string)
    ensures Cleaned(a + b) == Cleaned(a) + Cleaned(b)
  {
    hide CleanChar, AllClean;
    if a == "" {
      assert a + b == b;
    } else {
      var first := if CleanChar(a[0]) then [a[0]] else "";
      CleanedConcat(a[1..], b);
      assert (a + b)[0] == a[0] && (a + b)[1..] == a[1..] + b;
      Seqs.Assoc(first, Cleaned(a[1..]), Cleaned(b));
    }
  }

  /** Cleaning keeps these characters, in their order, and no other. */
  lemma CleanedExactly(a: string, b: string, c: char)
    ensures Cleaned(a + b) == Cleaned(a) + Cleaned(b)
    ensures Cleaned([c]) == if InId(c) then [c] else ""
  {
    CleanedConcat(a, b);
    hide AllClean;
    assert [c][1..] == "" && Cleaned("") == "";
  }

  // ---- records, proposals, sources ----------------------------------------------------------------

  /** A run record: numbers or nothing, an unknown outcome as incomplete, an unknown trigger as manual. */
  lemma RunReadsAs(o: Object)
    ensures var r := NormalizeRun(o);
            && ReadsText(Get(o, StartedAt), r.startedAt)
            && ReadsWord(Get(o, Outcome), {"succeeded", "failed", "incomplete", "running"}, "incomplete", r.outcome)
            && ReadsWord(Get(o, Trigger), {"scheduled", "all-due"}, "manual", r.trigger)
            && ReadsNumber(Get(o, DurationMs), r.durationMs)
            && ReadsNumber(Get(o, LeadsFound), r.leadsFound) && ReadsNumber(Get(o, LeadsNew), r.leadsNew)
            && ReadsNumber(Get(o, CandidatesReviewed), r.candidatesReviewed)
            && ReadsNumber(Get(o, AlreadyTracked), r.alreadyTracked) && ReadsNumber(Get(o, FilteredOut), r.filteredOut)
            && ReadsFilled(Get(o, RunId), r.runId) && ReadsFilled(Get(o, ErrorReason), r.errorReason)
  {
    forall v ensures ReadsText(v, AsText(v)) && ReadsFilled(v, NonEmpty(v)) && ReadsNumber(v, Number(v)) {
      TextReads(v);
    }
    WordReads(Get(o, Outcome), RUN_OUTCOMES, "incomplete");
    WordReads(Get(o, Trigger), {"scheduled", "all-due"}, "manual");
    hide ReadsText, ReadsFilled, ReadsNumber, ReadsWord, AsText, NonEmpty, Number, Word, Get;
  }

  /** A proposal: an unknown status as pending, and a stand-in for a missing id. */
  lemma ProposalReadsAs(o: Object, legacyId: string)
    ensures var p := NormalizeProposal(o, legacyId);
            var id := Text.Trim(AsText(Get(o, Id)));
            && p.id == (if id == "" then legacyId else id)
            && ReadsText(Get(o, Ts), p.ts) && ReadsText(Get(o, OwnerComment), p.ownerComment)
            && ReadsText(Get(o, ProposedInstructions), p.proposedInstructions) && ReadsText(Get(o, Rationale), p.rationale)
            && ReadsWord(Get(o, Status), {"pending", "approved", "rejected"}, "pending", p.status)
            && ReadsFilled(Get(o, ResolvedAt), p.resolvedAt) && ReadsFilled(Get(o, RejectionReason), p.rejectionReason)
  {
    forall v ensures ReadsText(v, AsText(v)) && ReadsFilled(v, NonEmpty(v)) {
      TextReads(v);
    }
    WordReads(Get(o, Status), PROPOSAL_STATUSES, "pending");
    hide ReadsText, ReadsFilled, ReadsWord, AsText, NonEmpty, Word, Get, Text.Trim;
  }

  /** The name is the text given, or else what the id comes to as a text; the id is what is left of
      the given one once cleaned, or else made from the name. */
  ghost predicate NamedAs(w: World, o: Object, id: string, name: string) {
    && (if exists s :: s != "" && Get(o, Name) == Some(Str(s)) then Get(o, Name) == Some(Str(name))
        else name == if Falsy(Get(o, Id)) then "" else ToStr(w, o[Id]))
    && var given := if Get(o, Id) in {None, Some(Null)} then "" else Cleaned(w.lower(Text.Trim(ToStr(w, o[Id]))));
       var made := Cleaned(w.lower(Text.Trim(w.slugBase(name))));
       id == if given != "" then given else if made != "" then made else "source"
  }

  predicate ReadsTexts(w: World, v: Option<Value>, r: seq<string>) {
    r == if v.Some? && v.value.Arr? then Strings(w, v.value.items) else []
  }

  predicate ReadsObject(v: Option<Value>, r: Option<Object>) {
    match r
    case Some(fields) => v == Some(Obj(fields))
    case None => !(v.Some? && v.value.Obj?)
  }

  /** A source, field by field. */
  lemma SourceReadsAs(w: World, o: Object)
    ensures var n := Normalize(w, o);
            && NamedAs(w, o, n.id, n.name)
            && ReadsWord(Get(o, Type), w.types, "board", n.kind) && ReadsWord(Get(o, Sector), w.sectors, "private", n.sector)
            && ReadsWord(Get(o, Active), w.actives, "maybe", n.active) && ReadsWord(Get(o, Cadence), w.cadences, "manual", n.cadence)
            && ReadsText(Get(o, FetchNote), n.fetchNote) && ReadsText(Get(o, Instructions), n.instructions)
            && ReadsText(Get(o, Notes), n.notes)
            && ReadsTexts(w, Get(o, OutputFields), n.outputFields) && ReadsTexts(w, Get(o, Aliases), n.aliases)
            && (if Get(o, Urls).Some? && o[Urls].Arr? then ReadsTexts(w, Get(o, Urls), n.urls)
                else n.urls == if Falsy(Get(o, Url)) then [] else [ToStr(w, o[Url])])
            && ReadsFilled(Get(o, LastRunAt), n.lastRunAt) && ReadsFilled(Get(o, LastVisitedAt), n.lastVisitedAt)
            && ReadsFilled(Get(o, InstructionsApprovedFrom), n.approvedFrom)
            && ReadsFilled(Get(o, InstructionsUpdatedAt), n.updatedAt)
            && (exists s :: ReadsText(Get(o, ActorId), s) && n.actorId == Text.Trim(s))
            && ReadsObject(Get(o, Input), n.input) && ReadsObject(Get(o, FieldMap), n.fieldMap)
            && (forall m :: n.fetchMode == Some(m) <==> m != "" && m in w.fetchModes && Get(o, FetchMode) == Some(Str(m)))
  {
    forall v ensures ReadsText(v, AsText(v)) && ReadsFilled(v, NonEmpty(v)) && (Falsy(v) <==> !Truthy(v)) {
      TextReads(v);
    }
    forall v, words, fallback ensures ReadsWord(v, words, fallback, Word(v, words, fallback)) {
      WordReads(v, words, fallback);
    }
    SourceNamed(w, o);
    ModeReads(w, Get(o, FetchMode));
    UrlsRead(w, o);
    hide ReadsText, ReadsFilled, ReadsWord, AsText, NonEmpty, Word, Truthy, Falsy, Get, Text.Trim, NamedAs, Strings,
         NormalizeRuns, NormalizeProposals, ExtraOf, ObjectsIn, UrlsOf, Within;
  }

  lemma UrlsRead(w: World, o: Object)
    ensures if Get(o, Urls).Some? && o[Urls].Arr? then ReadsTexts(w, Get(o, Urls), UrlsOf(w, o))
            else UrlsOf(w, o) == if Falsy(Get(o, Url)) then [] else [ToStr(w, o[Url])]
  {
    TextReads(Get(o, Url));
    hide Strings, Falsy, Truthy;
  }

  lemma ModeReads(w: World, v: Option<Value>)
    ensures var mode := Word(v, w.fetchModes, "");
            forall m :: (mode != "" && mode == m) <==> m != "" && m in w.fetchModes && v == Some(Str(m))
  {}

  lemma SourceNamed(w: World, o: Object)
    ensures NamedAs(w, o, Normalize(w, o).id, Normalize(w, o).name)
  {
    var name := NameOf(w, o);
    TextReads(Get(o, Name));
    TextReads(Get(o, Id));
    hide Text.Trim, Cleaned, Falsy, Truthy, NormalizeRuns, NormalizeProposals, ExtraOf, ObjectsIn, UrlsOf, Within, Word, StrArr, NonEmpty;
    if AsText(Get(o, Name)) != "" {
      assert Get(o, Name) == Some(Str(name));
    }
  }
}
