/** Source launches whose discovery read answers only later, and the limit on concurrent runs:
    what the claimed slots of the queue guard against, and what they do not. */
module LateLaunches {
  import opened Options
  import opened Scheduler
  import opened SchedulerRuns

  // ---- where the limit always holds ------------------------------------------------------

  predicate Sober(s: State) {
    s.posted == [] && !s.overbooked
  }

  ghost predicate Prompt(w: World) {
    forall k :: !w.later(k)
  }

  /** Still sober, and where reads answer at once without a claim. */
  ghost predicate StaysSober(w: World, s: State, t: State) {
    Sober(t) && (Prompt(w) && s.claimed == [] ==> t.claimed == [])
  }

  lemma {:induction false} DrainedSober(w: World, s: State)
    requires Sober(s)
    ensures StaysSober(w, s, Drained(w, s))
    decreases |s.queue|
  {
    hide Started, LaunchedSource, LiveKeys;
    if HasSlot(w, s) && s.queue != [] {
      DrainedSober(w, LaunchedHead(w, s));
    }
  }

  lemma SyncedSober(w: World, s: State, i: nat)
    requires Sober(s) && i < |s.runs|
    ensures StaysSober(w, s, Synced(w, s, i))
  {
    hide Drained;
    var r := s.runs[i];
    if r.agentJob.Some? && r.status == Running && !Pending(s.jobs, r.agentJob.value) {
      var ok := r.agentJob.value in s.jobs && s.jobs[r.agentJob.value] == Succeeded;
      DrainedSober(w, s.(runs := s.runs[i := r.(status := if ok then Done else Failed)]));
    }
  }

  lemma {:induction false} SweptSober(w: World, s: State, i: nat)
    requires Sober(s) && i <= |s.runs|
    ensures StaysSober(w, s, Swept(w, s, i))
    decreases |s.runs| + |s.queue| - i
  {
    hide Synced;
    if i < |s.runs| {
      SyncedSober(w, s, i);
      SweptSober(w, Synced(w, s, i), i + 1);
    }
  }

  /** A launch that a request asks for by itself, past the queue. */
  predicate SinglePost(e: Event) {
    e.PostRun? || e.PostSourceRun? || e.PostPropose?
  }

  lemma SinglePostSober(w: World, s: State, e: Event)
    requires Sober(s) && SinglePost(e) && Prompt(w) && s.claimed == []
    ensures StaysSober(w, s, Next(w, s, e))
  {
    hide Started, LaunchedSource, LiveKeys, Pruned, Swept, Busy;
    SweptSober(w, s, 0);
  }

  lemma QueuedSober(w: World, s: State, e: Event)
    requires Sober(s) && (e.PostBatch? || e.PostRunAllDue?)
    ensures StaysSober(w, s, Next(w, s, e))
  {
    hide Drained, Pruned, Swept, Admitted, Items;
    match e {
      case PostBatch(routine, ids, fit, batchId) =>
        SweptSober(w, s, 0);
        var t := Swept(w, s, 0);
        var items := Items(routine, Admitted(t, routine, ids, fit, {}), batchId);
        DrainedSober(w, t.(queue := t.queue + items, runs := Pruned(t.runs)));
      case PostRunAllDue(due, batchId) =>
        var items := Items(SOURCE_ROUTINE, NotQueued(s.queue, due), batchId);
        DrainedSober(w, s.(queue := s.queue + items, runs := Pruned(s.runs)));
    }
  }

  lemma CallbackSober(w: World, s: State, e: Event)
    requires Sober(s) && !SinglePost(e) && !e.PostBatch? && !e.PostRunAllDue? && !e.PostStop?
    ensures StaysSober(w, s, Next(w, s, e))
  {
    hide Drained, Swept, Synced, LaunchedSource;
    match e {
      case ClaimAnswers(i) =>
        if i < |s.claimed| {
          DrainedSober(w, LaunchedSource(w, s.(claimed := s.claimed[..i] + s.claimed[i + 1..]), s.claimed[i]));
        }
      case TaskEnd(id, ok) =>
        if id in s.tasks {
          var i := Position(s.runs, id);
          var runs := if i == |s.runs| then s.runs else
            s.runs[i := s.runs[i].(killable := false, status :=
              if s.runs[i].status != Running then s.runs[i].status else if ok then Done else Failed)];
          DrainedSober(w, s.(runs := runs, tasks := s.tasks - {id}));
        }
      case Poll(i) => if i < |s.runs| { SyncedSober(w, s, i); }
      case PollAll => SweptSober(w, s, 0);
      case _ =>
    }
  }

  lemma StopSober(w: World, s: State, id: nat)
    requires Sober(s)
    ensures StaysSober(w, s, StopAsked(w, s, id))
  {
    hide Drained, Synced;
    var i := Position(s.runs, id);
    if i < |s.runs| {
      SyncedSober(w, s, i);
      var t := Synced(w, s, i);
      var r := t.runs[i];
      if r.agentJob.Some? && r.status == Running && r.agentJob.value in t.jobs && t.jobs[r.agentJob.value] == Waiting {
        DrainedSober(w, t.(jobs := t.jobs[r.agentJob.value := Broken], runs := t.runs[i := r.(status := Stopped)]));
      }
    }
  }

  lemma NextSober(w: World, s: State, e: Event)
    requires Sober(s) && (SinglePost(e) ==> Prompt(w) && s.claimed == [])
    ensures StaysSober(w, s, Next(w, s, e))
  {
    hide Sober, RunOne, RunBatch, RunSource, RunAllDue, Propose, StopAsked, TaskEnded, SpawnFailed, Synced, Swept, ClaimLanded, PostLanded;
    if SinglePost(e) {
      SinglePostSober(w, s, e);
    } else if e.PostBatch? || e.PostRunAllDue? {
      QueuedSober(w, s, e);
    } else if e.PostStop? {
      StopSober(w, s, e.id);
    } else {
      CallbackSober(w, s, e);
    }
  }

  lemma {:induction false} RunSober(w: World, events: seq<Event>)
    requires Prompt(w) || forall e :: e in events ==> !SinglePost(e)
    ensures Sober(After(w, events)) && (Prompt(w) ==> After(w, events).claimed == [])
  {
    hide Sober, Next;
    if events == [] {
      EmptySober();
    } else {
      RunSober(w, events[..|events| - 1]);
      NextSober(w, After(w, events[..|events| - 1]), events[|events| - 1]);
    }
  }

  lemma EmptySober()
    ensures Sober(EMPTY)
  {}

  /** What the claimed slots are for: where every launch goes through the queue, no burst of ends,
      answers, skips and stops overbooks it, however late the reads answer. */
  lemma QueueAloneKeepsLimit(w: World, events: seq<Event>)
    requires w.Valid() && forall e :: e in events ==> !SinglePost(e)
    ensures var s := After(w, events); |LiveKeys(s.runs)| + |s.claimed| <= w.max
  {
    RunSober(w, events);
    AlwaysSafe(w, events);
    hide After, LiveKeys;
  }

  /** Where every read answers at once, requests and queue keep the limit together. */
  lemma PromptReadsKeepLimit(w: World, events: seq<Event>)
    requires w.Valid() && Prompt(w)
    ensures |LiveKeys(After(w, events).runs)| <= w.max
  {
    RunSober(w, events);
    AlwaysSafe(w, events);
    hide After, LiveKeys;
  }

  // ---- landings ------------------------------------------------------------------------------

  predicate IsLanding(e: Event) {
    e.ClaimAnswers? || e.PostAnswers?
  }

  ghost predicate Landings(es: seq<Event>) {
    forall e :: e in es ==> IsLanding(e)
  }

  function Then(w: World, s: State, es: seq<Event>): State
    decreases |es|
  {
    if es == [] then s else Then(w, Next(w, s, es[0]), es[1..])
  }

  function Max(a: nat, b: nat): nat {
    if a >= b then a else b
  }

  /** The slots in use as the queue counts them. */
  function Used(s: State): nat {
    |LiveKeys(s.runs)| + |s.claimed|
  }

  /** The most live runs that the launches under way can come to: each claim that lands lets the
      queue refill the slots that are free. */
  function Peak(w: World, s: State): nat {
    |s.posted| + if s.claimed == [] then Used(s) else Max(Used(s), Min(w.max, Used(s) + |s.queue|))
  }

  ghost predicate ComesUp(w: World) {
    forall k :: !w.skips(k) && w.startOf(k) != Refused
  }

  lemma LaunchedLive(w: World, s: State, item: Item)
    ensures var t := LaunchedSource(w, s, item);
            |LiveKeys(t.runs)| <= |LiveKeys(s.runs)| + 1 && (ComesUp(w) ==> |LiveKeys(t.runs)| == |LiveKeys(s.runs)| + 1)
  {
    if !w.skips(s.serial) {
      StartedLive(w, s, if w.apify(s.serial) then item.(routine := APIFY_ROUTINE) else item);
      hide Started;
    }
  }

  lemma HeadUsed(w: World, s: State)
    requires s.queue != []
    ensures var t := LaunchedHead(w, s);
            Used(t) <= Used(s) + 1 && (ComesUp(w) ==> Used(t) == Used(s) + 1) && t.posted == s.posted
  {
    var rest := Admit(w, s).(queue := s.queue[1..]);
    HeadLaunched(w, s);
    StartedLive(w, rest, s.queue[0]);
    LaunchedLive(w, rest, s.queue[0]);
    hide LaunchedHead, Started, LaunchedSource, LiveKeys;
  }

  lemma {:induction false} DrainedUsed(w: World, s: State)
    ensures var t := Drained(w, s);
            Used(t) <= Max(Used(s), w.max) && Used(t) + |t.queue| <= Used(s) + |s.queue| && t.posted == s.posted &&
            (ComesUp(w) ==> Used(t) + |t.queue| == Used(s) + |s.queue| && Used(s) <= Used(t))
    decreases |s.queue|
  {
    hide LaunchedHead, LiveKeys;
    if HasSlot(w, s) && s.queue != [] {
      HeadUsed(w, s);
      DrainedUsed(w, LaunchedHead(w, s));
    }
  }

  lemma ClaimLandedPeak(w: World, s: State, i: nat)
    requires i < |s.claimed|
    ensures var t := ClaimLanded(w, s, i);
            Peak(w, t) <= Peak(w, s) && (ComesUp(w) ==> Peak(w, t) == Peak(w, s)) && t.posted == s.posted
  {
    var rest := s.(claimed := s.claimed[..i] + s.claimed[i + 1..]);
    var mid := LaunchedSource(w, rest, s.claimed[i]);
    FewerKeeps(s.claimed, i);
    LaunchedLive(w, rest, s.claimed[i]);
    DrainedUsed(w, mid);
    hide Drained, LaunchedSource, LiveKeys;
  }

  lemma PostLandedPeak(w: World, s: State, i: nat)
    requires i < |s.posted|
    ensures var t := PostLanded(w, s, i);
            Peak(w, t) <= Peak(w, s) && |t.posted| == |s.posted| - 1 && t.claimed == s.claimed
    ensures ComesUp(w) && s.claimed == [] ==> Peak(w, PostLanded(w, s, i)) == Peak(w, s)
  {
    var rest := s.(posted := s.posted[..i] + s.posted[i + 1..]);
    FewerKeeps(s.posted, i);
    LaunchedLive(w, rest, s.posted[i]);
    hide LaunchedSource, LiveKeys;
  }

  lemma LandingPeak(w: World, s: State, e: Event)
    requires IsLanding(e)
    ensures Peak(w, Next(w, s, e)) <= Peak(w, s)
  {
    hide Peak, ClaimLanded, PostLanded;
    match e {
      case ClaimAnswers(i) => if i < |s.claimed| { ClaimLandedPeak(w, s, i); } else { NoClaim(w, s, i); }
      case PostAnswers(i) => if i < |s.posted| { PostLandedPeak(w, s, i); } else { NoPost(w, s, i); }
    }
  }

  lemma NoClaim(w: World, s: State, i: nat)
    requires i >= |s.claimed|
    ensures ClaimLanded(w, s, i) == s
  {}

  lemma NoPost(w: World, s: State, i: nat)
    requires i >= |s.posted|
    ensures PostLanded(w, s, i) == s
  {}

  lemma {:induction false} LandingsPeak(w: World, s: State, es: seq<Event>)
    requires Landings(es)
    ensures |LiveKeys(Then(w, s, es).runs)| <= Peak(w, s)
    decreases |es|
  {
    hide Peak, Next;
    if es == [] {
      LiveUnderPeak(w, s);
    } else {
      LandingPeak(w, s, es[0]);
      LandingsPeak(w, Next(w, s, es[0]), es[1..]);
    }
  }

  lemma LiveUnderPeak(w: World, s: State)
    ensures |LiveKeys(s.runs)| <= Peak(w, s)
  {
    hide LiveKeys;
  }

  /** All launches under way come up, the claimed ones first. */
  lemma {:induction false} AllLand(w: World, s: State) returns (es: seq<Event>)
    requires ComesUp(w) && Prompt(w)
    ensures Landings(es) && |LiveKeys(Then(w, s, es).runs)| == Peak(w, s)
    decreases |s.claimed|, |s.posted|
  {
    hide Peak, ClaimLanded, PostLanded;
    if s.claimed != [] {
      ClaimLandedPeak(w, s, 0);
      FewerClaims(w, s);
      es := AllLand(w, ClaimLanded(w, s, 0));
      es := [ClaimAnswers(0)] + es;
    } else if s.posted != [] {
      PostLandedPeak(w, s, 0);
      es := AllLand(w, PostLanded(w, s, 0));
      es := [PostAnswers(0)] + es;
    } else {
      es := [];
      NothingUnderWay(w, s);
    }
  }

  lemma NothingUnderWay(w: World, s: State)
    requires s.claimed == [] && s.posted == []
    ensures Peak(w, s) == |LiveKeys(s.runs)|
  {}

  lemma FewerClaims(w: World, s: State)
    requires Prompt(w) && s.claimed != []
    ensures |ClaimLanded(w, s, 0).claimed| < |s.claimed|
  {
    var rest := s.(claimed := s.claimed[..0] + s.claimed[1..]);
    DrainedClaims(w, LaunchedSource(w, rest, s.claimed[0]));
    hide Drained, LaunchedSource;
  }

  lemma {:induction false} DrainedClaims(w: World, s: State)
    requires Prompt(w)
    ensures Drained(w, s).claimed == s.claimed
    decreases |s.queue|
  {
    hide Started, LaunchedSource, LiveKeys;
    if HasSlot(w, s) && s.queue != [] {
      DrainedClaims(w, LaunchedHead(w, s));
    }
  }

  /** However the reads of the launches under way answer, in whatever order and with whatever
      outcomes, the limit holds. */
  ghost predicate LimitHolds(max: nat, s: State) {
    forall w: World, es: seq<Event> :: w.max == max && Landings(es) ==> |LiveKeys(Then(w, s, es).runs)| <= max
  }

  /** The limit holds for all that may come of the launches under way exactly when their peak is
      within it: a condition on four counts. */
  lemma LimitHoldsExactly(w: World, s: State)
    ensures LimitHolds(w.max, s) <==> Peak(w, s) <= w.max
  {
    hide LiveKeys, Then, Landings;
    if Peak(w, s) <= w.max {
      forall v: World, es: seq<Event> | v.max == w.max && Landings(es) ensures |LiveKeys(Then(v, s, es).runs)| <= w.max {
        LandingsPeak(v, s, es);
      }
    } else {
      var up := Willing(w);
      var es := AllLand(up, s);
      assert |LiveKeys(Then(up, s, es).runs)| > w.max;
    }
  }

  /** The same limit, with every launch coming up and every read answering at once. */
  function Willing(w: World): (up: World)
    ensures up.max == w.max && ComesUp(up) && Prompt(up)
  {
    World(w.max, w.scopeOf, (k: nat) => Spawned, w.clock, (k: nat) => false, (k: nat) => false, (k: nat) => false)
  }

  /** A request for a source run whose read answers later, after a drain: its check passes when
      the live runs leave room, and the limit holds for all that may come of it exactly when the
      claimed and the posted launches leave room, too. */
  lemma PostSafeExactly(w: World, s: State, id: string)
    requires |LiveKeys(s.runs)| < w.max && w.later(s.serial) && (s.queue == [] || !HasSlot(w, s))
    ensures var t := RunSource(w, s, id);
            |t.posted| == |s.posted| + 1 && (LimitHolds(w.max, t) <==> Outstanding(s) < w.max) &&
            (t.overbooked <==> s.overbooked || Outstanding(s) >= w.max)
  {
    var t := RunSource(w, s, id);
    hide LimitHolds, LiveKeys;
    LimitHoldsExactly(w, t);
  }

  /** A launch that starts at once, of a request that passed its check: if it comes up, the limit
      holds for all that may come of the launches under way exactly when they left room, too. */
  lemma StartSafeExactly(w: World, s: State, item: Item)
    requires Anchored(s) && (s.queue == [] || !HasSlot(w, s)) && w.startOf(s.serial) != Refused
    ensures var t := Started(w, Admit(w, s).(runs := Pruned(s.runs)), item);
            (LimitHolds(w.max, t) <==> Outstanding(s) < w.max) && (t.overbooked <==> s.overbooked || Outstanding(s) >= w.max)
  {
    var mid := Admit(w, s).(runs := Pruned(s.runs));
    var t := Started(w, mid, item);
    PrunedAnchored(s);
    StartedLive(w, mid, item);
    LimitHoldsExactly(w, t);
    hide LimitHolds, LiveKeys, Pruned, Started, Anchored;
  }

  /** A routine's request: its sweep first, then its check of the live runs alone. */
  lemma RunSafeExactly(w: World, s: State, item: Item, found: bool)
    requires Inv(w, s) && (s.queue == [] || !HasSlot(w, s))
    requires Judge(w, Swept(w, s, 0), item, found) == Go && w.startOf(Swept(w, s, 0).serial) != Refused
    ensures LimitHolds(w.max, RunOne(w, s, item, found)) <==> Outstanding(Swept(w, s, 0)) < w.max
  {
    SweptInv(w, s, 0);
    SweptSteady(w, s, 0);
    hide Swept, Started, Pruned, LimitHolds, Judge, Outstanding, Admit;
    StartSafeExactly(w, Swept(w, s, 0), item);
  }

  /** A proposal's request. */
  lemma ProposeSafeExactly(w: World, s: State, id: string)
    requires Inv(w, s) && (s.queue == [] || !HasSlot(w, s)) && w.startOf(s.serial) != Refused
    requires |LiveKeys(s.runs)| < w.max && (id == "" || (PROPOSE_ROUTINE, id) !in LiveKeys(s.runs))
    ensures LimitHolds(w.max, Propose(w, s, id)) <==> Outstanding(s) < w.max
  {
    hide LimitHolds, Started, Pruned, Outstanding, Admit;
    StartSafeExactly(w, s, Item(PROPOSE_ROUTINE, id, None));
  }

  /** A sweep leaves no free slot beside a promised launch where there was none. */
  lemma {:induction false} SweptSteady(w: World, s: State, i: nat)
    requires i <= |s.runs| && (s.queue == [] || !HasSlot(w, s))
    ensures var t := Swept(w, s, i); t.queue == [] || !HasSlot(w, t)
    decreases |s.runs| + |s.queue| - i
  {
    hide Drained, LiveKeys;
    if i < |s.runs| {
      SweptSteady(w, Synced(w, s, i), i + 1);
    }
  }

  // ---- the overrun -------------------------------------------------------------------------------

  function LateWorld(): (w: World)
    ensures w.Valid()
  {
    World(1, (r: string) => SourceScope, (k: nat) => Spawned, (k: nat) => k, (k: nat) => k < 2, (k: nat) => false, (k: nat) => false)
  }

  function Overrun(): seq<Event> {
    [PostRunAllDue(["a"], 0), PostSourceRun("b"), ClaimAnswers(0), PostAnswers(0)]
  }

  const CLAIM := Item(SOURCE_ROUTINE, "a", Some(0))
  const POST := Item(SOURCE_ROUTINE, "b", None)

  lemma AfterStep(w: World, events: seq<Event>, e: Event)
    ensures After(w, events + [e]) == Next(w, After(w, events), e)
  {
    assert (events + [e])[..|events|] == events;
  }

  lemma ClaimTaken()
    ensures Next(LateWorld(), EMPTY, PostRunAllDue(["a"], 0)) == EMPTY.(claimed := [CLAIM], serial := 1)
  {
    var w := LateWorld();
    assert ["a"][1..] == [];
    assert NotQueued([], ["a"]) == ["a"];
    assert Items(SOURCE_ROUTINE, ["a"], 0) == [CLAIM];
    var s := EMPTY.(queue := [CLAIM]);
    assert RunAllDue(w, EMPTY, ["a"], 0) == Drained(w, s) by {
      hide Drained;
      assert [] + [CLAIM] == [CLAIM];
    }
    assert [CLAIM][1..] == [];
    assert LaunchedHead(w, s) == EMPTY.(claimed := [CLAIM], serial := 1);
    hide LaunchedHead;
    DrainStep(w, s);
    DrainDone(w, EMPTY.(claimed := [CLAIM], serial := 1));
  }

  lemma PostTaken()
    ensures Next(LateWorld(), EMPTY.(claimed := [CLAIM], serial := 1), PostSourceRun("b")) ==
            EMPTY.(claimed := [CLAIM], posted := [POST], serial := 2, overbooked := true)
  {
    assert [] + [POST] == [POST];
  }

  /** At a limit of one: the queue claims the only slot for a, whose read is under way; the check
      of the request for b sees no live run; both land, and two runs are live. */
  lemma ClaimAndPostOverrun()
    ensures LateWorld().max == 1 && |LiveKeys(After(LateWorld(), Overrun()).runs)| == 2
  {
    var w := LateWorld();
    var s := EMPTY.(claimed := [CLAIM], posted := [POST], serial := 2, overbooked := true);
    var es := Overrun();
    assert es == [es[0]] + [es[1]] + [es[2]] + [es[3]] && [] + [es[0]] == [es[0]];
    hide Next, LiveKeys;
    AfterStep(w, [], es[0]);
    AfterStep(w, [es[0]], es[1]);
    AfterStep(w, [es[0]] + [es[1]], es[2]);
    AfterStep(w, [es[0]] + [es[1]] + [es[2]], es[3]);
    ClaimTaken();
    PostTaken();
    BothLand(w, s);
  }

  lemma BothLand(w: World, s: State)
    requires w == LateWorld() && s == EMPTY.(claimed := [CLAIM], posted := [POST], serial := 2, overbooked := true)
    ensures |LiveKeys(Next(w, Next(w, s, ClaimAnswers(0)), PostAnswers(0)).runs)| == 2
  {
    hide LiveKeys, ClaimLanded, PostLanded;
    ClaimLandedPeak(w, s, 0);
    FewerClaimsHere(w, s);
    var t := ClaimLanded(w, s, 0);
    PostLandedPeak(w, t, 0);
    var u := PostLanded(w, t, 0);
    NothingUnderWay(w, u);
    assert Peak(w, s) == 2 by { PeakHere(w, s); }
  }

  lemma FewerClaimsHere(w: World, s: State)
    requires w == LateWorld() && s == EMPTY.(claimed := [CLAIM], posted := [POST], serial := 2, overbooked := true)
    ensures ClaimLanded(w, s, 0).claimed == []
  {
    var rest := s.(claimed := s.claimed[..0] + s.claimed[1..]);
    DrainDone(w, LaunchedSource(w, rest, CLAIM));
    hide Drained;
  }

  lemma PeakHere(w: World, s: State)
    requires w == LateWorld() && s == EMPTY.(claimed := [CLAIM], posted := [POST], serial := 2, overbooked := true)
    ensures Peak(w, s) == 2
  {}
}
