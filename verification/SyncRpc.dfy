/** The blocking call bridge: a main thread that resets a shared signal, posts a request and
    sleeps on the signal, and a worker thread that answers, raises the signal and notifies.
    Both threads are modelled as interleaved atomic steps. */
module SyncRpc {
  import opened Options

  datatype MainPc = Idle | SignalReset | Posted | Asleep | Woken
  datatype WorkerPc = Ready | Handling(request: nat) | Answered | Signalled

  datatype Outcome = Got(response: nat) | NoMessage | TimedOut

  /** Requests are numbered in the order of the calls; a response carries its request's number.
      `results` is what the finished calls returned. */
  datatype State = State(
    main: MainPc, worker: WorkerPc, signal: nat,
    toWorker: seq<nat>, toMain: seq<nat>, calls: nat, results: seq<Outcome>)

  const INITIAL := State(Idle, Ready, 0, [], [], 0, [])

  datatype Step =
    | Reset     // main: Atomics.store(signal, 0, 0)
    | Post      // main: port.postMessage(payload)
    | Wait      // main: Atomics.wait, which returns at once unless the signal is 0
    | Drain     // main: receiveMessageOnPort
    | Timeout   // main: Atomics.wait gives up
    | Take      // worker: the message event
    | Reply     // worker: port.postMessage(out)
    | Raise     // worker: Atomics.store(signal, 0, 1)
    | Notify    // worker: Atomics.notify

  /** With `fused`, raising the signal and notifying happen as one step. */
  predicate Enabled(s: State, step: Step, fused: bool) {
    match step
    case Reset => s.main == Idle
    case Post => s.main == SignalReset
    case Wait => s.main == Posted
    case Drain => s.main == Woken
    case Timeout => s.main == Asleep
    case Take => s.worker == Ready && s.toWorker != []
    case Reply => s.worker.Handling?
    case Raise => s.worker == Answered
    case Notify => !fused && s.worker == Signalled
  }

  function Wake(pc: MainPc): MainPc {
    if pc == Asleep then Woken else pc
  }

  function Do(s: State, step: Step, fused: bool): State
    requires Enabled(s, step, fused)
  {
    match step
    case Reset => s.(main := SignalReset, signal := 0)
    case Post => s.(main := Posted, toWorker := s.toWorker + [s.calls], calls := s.calls + 1)
    case Wait => s.(main := if s.signal == 0 then Asleep else Woken)
    case Drain =>
      if s.toMain == [] then s.(main := Idle, results := s.results + [NoMessage])
      else s.(main := Idle, results := s.results + [Got(s.toMain[0])], toMain := s.toMain[1..])
    case Timeout => s.(main := Idle, results := s.results + [TimedOut])
    case Take => s.(worker := Handling(s.toWorker[0]), toWorker := s.toWorker[1..])
    case Reply => s.(worker := Answered, toMain := s.toMain + [s.worker.request])
    case Raise =>
      if fused then s.(worker := Ready, signal := 1, main := Wake(s.main)) else s.(worker := Signalled, signal := 1)
    case Notify => s.(worker := Ready, main := Wake(s.main))
  }

  predicate Moves(s: State, step: Step, t: State, fused: bool) {
    Enabled(s, step, fused) && Do(s, step, fused) == t
  }

  /** Any interleaving of the two threads' steps. */
  predicate IsRun(ss: seq<State>, steps: seq<Step>, fused: bool) {
    |ss| == |steps| + 1 && forall i :: 0 <= i < |steps| ==> Moves(ss[i], steps[i], ss[i + 1], fused)
  }

  // ---- what every interleaving keeps ------------------------------------------------

  /** The k-th finished call returned the k-th response. */
  predicate InOrder(results: seq<Outcome>) {
    forall k :: 0 <= k < |results| ==> results[k] == Got(k)
  }

  /** The one outstanding request is in exactly one place on its way round. */
  predicate Outstanding(s: State) {
    var n := |s.results|;
    s.calls == n + 1 &&
    if s.signal == 0 then
      || (s.toWorker == [n] && s.worker == Ready && s.toMain == [])
      || (s.toWorker == [] && s.worker == Handling(n) && s.toMain == [])
      || (s.toWorker == [] && s.worker == Answered && s.toMain == [n])
    else s.toWorker == [] && (s.worker == Ready || s.worker == Signalled) && s.toMain == [n]
  }

  predicate Quiet(s: State) {
    s.calls == |s.results| && s.toWorker == [] && s.toMain == []
  }

  predicate Sound(s: State, fused: bool) {
    && InOrder(s.results)
    && (fused ==> s.worker != Signalled)
    && match s.main
       case Idle => Quiet(s) && (s.worker == Ready || s.worker == Signalled)
       case SignalReset => Quiet(s) && s.worker == Ready && s.signal == 0
       case Posted => Outstanding(s)
       case Asleep => Outstanding(s) && (s.signal != 0 ==> s.worker == Signalled)
       case Woken => Outstanding(s) && s.signal != 0
  }

  /** A call that starts while the previous answer's notify is still to come. */
  predicate LateReset(s: State, step: Step) {
    step == Reset && s.worker == Signalled
  }

  lemma StepSound(s: State, step: Step, fused: bool)
    requires Sound(s, fused) && Enabled(s, step, fused) && step != Timeout && !LateReset(s, step)
    ensures Sound(Do(s, step, fused), fused)
  {}

  /** No call times out, and none starts under a pending notify. */
  predicate Undisturbed(ss: seq<State>, steps: seq<Step>)
    requires |ss| == |steps| + 1
  {
    forall i :: 0 <= i < |steps| ==> steps[i] != Timeout && !LateReset(ss[i], steps[i])
  }

  lemma {:induction false} RunSound(ss: seq<State>, steps: seq<Step>, fused: bool, k: nat)
    requires IsRun(ss, steps, fused) && Sound(ss[0], fused) && Undisturbed(ss, steps) && k < |ss|
    ensures Sound(ss[k], fused)
    decreases k
  {
    hide Sound, Enabled, Do;
    if k > 0 {
      RunSound(ss, steps, fused, k - 1);
      assert Moves(ss[k - 1], steps[k - 1], ss[k], fused) && !LateReset(ss[k - 1], steps[k - 1]);
      StepSound(ss[k - 1], steps[k - 1], fused);
    }
  }

  predicate NoTimeout(steps: seq<Step>) {
    forall i :: 0 <= i < |steps| ==> steps[i] != Timeout
  }

  lemma {:induction false} FusedSound(ss: seq<State>, steps: seq<Step>, k: nat)
    requires IsRun(ss, steps, true) && Sound(ss[0], true) && NoTimeout(steps) && k < |ss|
    ensures Sound(ss[k], true)
    decreases k
  {
    if k > 0 {
      FusedSound(ss, steps, k - 1);
      hide Enabled, Do;
      assert Moves(ss[k - 1], steps[k - 1], ss[k], true);
      StepSound(ss[k - 1], steps[k - 1], true);
    }
  }

  /** With signal and notify as one step, in every interleaving without timeouts the k-th call
      returns the k-th response. */
  lemma CallsInOrder(ss: seq<State>, steps: seq<Step>, k: nat)
    requires IsRun(ss, steps, true) && ss[0] == INITIAL && NoTimeout(steps) && k < |ss|
    ensures InOrder(ss[k].results)
  {
    FusedSound(ss, steps, k);
  }

  // ---- no lost wake-up ------------------------------------------------------------------

  /** The worker's next step, if it has one. */
  function WorkerStep(s: State): Option<Step> {
    match s.worker
    case Ready => if s.toWorker != [] then Some(Take) else None
    case Handling(_) => Some(Reply)
    case Answered => Some(Raise)
    case Signalled => Some(Notify)
  }

  /** How many worker steps a sleeping main thread is away from being woken. */
  function Distance(s: State): nat {
    match s.worker
    case Ready => 4
    case Handling(_) => 3
    case Answered => 2
    case Signalled => 1
  }

  /** While main sleeps, the worker can always move, and each of its moves brings the wake-up
      nearer or is the wake-up; nobody else can disturb it, because main's only own step is
      the timeout. */
  lemma SleeperIsWoken(s: State, fused: bool)
    requires Sound(s, fused) && s.main == Asleep
    ensures WorkerStep(s).Some? && Enabled(s, WorkerStep(s).value, fused)
    ensures var s' := Do(s, WorkerStep(s).value, fused);
            Sound(s', fused) && (s'.main == Woken || (s'.main == Asleep && Distance(s') < Distance(s)))
    ensures forall step :: Enabled(s, step, fused) ==> step == Timeout || Some(step) == WorkerStep(s)
  {
    StepSound(s, WorkerStep(s).value, fused);
  }

  /** Left to itself, the worker wakes a sleeping main thread within four steps. */
  lemma {:induction false} WakesWithinFour(s: State, fused: bool) returns (ss: seq<State>, steps: seq<Step>)
    requires Sound(s, fused) && s.main == Asleep
    ensures |steps| <= Distance(s) <= 4 && IsRun(ss, steps, fused)
    ensures ss[0] == s && ss[|steps|].main == Woken && Sound(ss[|steps|], fused)
    decreases Distance(s)
  {
    SleeperIsWoken(s, fused);
    var step := WorkerStep(s).value;
    var s' := Do(s, step, fused);
    if s'.main == Woken {
      ss, steps := [s, s'], [step];
    } else {
      var rest, more := WakesWithinFour(s', fused);
      ss, steps := [s] + rest, [step] + more;
    }
  }

  // ---- signal and notify as two steps ----------------------------------------------------

  /** With the two steps apart, calls stay in order as long as none starts under a pending
      notify; by LateNotifyFails, not otherwise. */
  lemma SplitCallsInOrder(ss: seq<State>, steps: seq<Step>, k: nat)
    requires IsRun(ss, steps, false) && ss[0] == INITIAL && Undisturbed(ss, steps) && k < |ss|
    ensures InOrder(ss[k].results)
  {
    RunSound(ss, steps, false, k);
  }

  lemma RunConcat(ss: seq<State>, a: seq<Step>, ts: seq<State>, b: seq<Step>, fused: bool)
    requires IsRun(ss, a, fused) && IsRun(ts, b, fused) && ss[|a|] == ts[0]
    ensures IsRun(ss + ts[1..], a + b, fused) && (ss + ts[1..])[|a + b|] == ts[|b|]
  {
    hide Enabled, Do;
    var all, steps := ss + ts[1..], a + b;
    forall i | 0 <= i < |steps| ensures Moves(all[i], steps[i], all[i + 1], fused) {
      if i >= |a| {
        assert all[i] == ts[i - |a|] && all[i + 1] == ts[i - |a| + 1];
        assert Moves(ts[i - |a|], b[i - |a|], ts[i - |a| + 1], fused);
      } else {
        assert Moves(ss[i], a[i], ss[i + 1], fused);
      }
    }
  }

  /** A call that starts under the late notify: it is woken by it and finds no message. */
  lemma WokenEarly(s: State) returns (ss: seq<State>)
    requires Sound(s, false) && s.main == Idle && s.worker == Signalled
    ensures IsRun(ss, [Reset, Post, Wait, Notify, Drain], false) && ss[0] == s
    ensures var n := |s.results|; ss[5] == State(Idle, Ready, 0, [n], [], n + 1, s.results + [NoMessage])
  {
    var n := |s.results|;
    ss := [s, State(SignalReset, Signalled, 0, [], [], n, s.results), State(Posted, Signalled, 0, [n], [], n + 1, s.results),
           State(Asleep, Signalled, 0, [n], [], n + 1, s.results), State(Woken, Ready, 0, [n], [], n + 1, s.results),
           State(Idle, Ready, 0, [n], [], n + 1, s.results + [NoMessage])];
  }

  /** The worker then answers the abandoned request... */
  lemma AnsweredAnyway(n: nat, rs: seq<Outcome>) returns (ss: seq<State>)
    ensures IsRun(ss, [Take, Reply, Raise, Notify], false) && ss[0] == State(Idle, Ready, 0, [n], [], n + 1, rs)
    ensures ss[4] == State(Idle, Ready, 1, [], [n], n + 1, rs)
  {
    ss := [State(Idle, Ready, 0, [n], [], n + 1, rs), State(Idle, Handling(n), 0, [], [], n + 1, rs),
           State(Idle, Answered, 0, [], [n], n + 1, rs), State(Idle, Signalled, 1, [], [n], n + 1, rs),
           State(Idle, Ready, 1, [], [n], n + 1, rs)];
  }

  /** ...and the next call asks... */
  lemma AsksAgain(n: nat, rs: seq<Outcome>) returns (ss: seq<State>)
    ensures IsRun(ss, [Reset, Post, Wait, Take], false) && ss[0] == State(Idle, Ready, 1, [], [n], n + 1, rs)
    ensures ss[4] == State(Asleep, Handling(n + 1), 0, [], [n], n + 2, rs)
  {
    ss := [State(Idle, Ready, 1, [], [n], n + 1, rs), State(SignalReset, Ready, 0, [], [n], n + 1, rs),
           State(Posted, Ready, 0, [n + 1], [n], n + 2, rs), State(Asleep, Ready, 0, [n + 1], [n], n + 2, rs),
           State(Asleep, Handling(n + 1), 0, [], [n], n + 2, rs)];
  }

  /** ...and is given the answer to the one before it. */
  lemma GivenTheOldAnswer(n: nat, rs: seq<Outcome>) returns (ss: seq<State>)
    ensures IsRun(ss, [Reply, Raise, Notify, Drain], false) && ss[0] == State(Asleep, Handling(n + 1), 0, [], [n], n + 2, rs)
    ensures ss[4].results == rs + [Got(n)]
  {
    ss := [State(Asleep, Handling(n + 1), 0, [], [n], n + 2, rs), State(Asleep, Answered, 0, [], [n, n + 1], n + 2, rs),
           State(Asleep, Signalled, 1, [], [n, n + 1], n + 2, rs), State(Woken, Ready, 1, [], [n, n + 1], n + 2, rs),
           State(Idle, Ready, 1, [], [n + 1], n + 2, rs + [Got(n)])];
    assert [n, n + 1][1..] == [n + 1];
  }

  /** The worker's two last steps are separate instructions, so main can take the answer after
      the first, return, and start its next call before the second. From every such state the
      next call can be woken by the late notify and find no message, and the call after that
      then returns the answer to its predecessor. */
  lemma LateNotifyFails(s: State) returns (ss: seq<State>, steps: seq<Step>)
    requires Sound(s, false) && s.main == Idle && s.worker == Signalled
    ensures IsRun(ss, steps, false) && NoTimeout(steps) && steps != [] && LateReset(s, steps[0])
    ensures ss[0] == s && ss[|steps|].results == s.results + [NoMessage, Got(|s.results|)]
  {
    var n, rs := |s.results|, s.results + [NoMessage];
    var a := WokenEarly(s);
    var b := AnsweredAnyway(n, rs);
    var c := AsksAgain(n, rs);
    var d := GivenTheOldAnswer(n, rs);
    hide IsRun, Sound;
    var p, q, r, t: seq<Step> :=
      [Reset, Post, Wait, Notify, Drain], [Take, Reply, Raise, Notify], [Reset, Post, Wait, Take], [Reply, Raise, Notify, Drain];
    RunLength(a, p, false);
    RunLength(b, q, false);
    RunLength(c, r, false);
    RunConcat(a, p, b, q, false);
    RunConcat(a + b[1..], p + q, c, r, false);
    RunConcat(a + b[1..] + c[1..], p + q + r, d, t, false);
    ss, steps := a + b[1..] + c[1..] + d[1..], p + q + r + t;
    assert rs + [Got(n)] == s.results + [NoMessage, Got(n)];
  }

  lemma RunLength(ss: seq<State>, steps: seq<Step>, fused: bool)
    requires IsRun(ss, steps, fused)
    ensures |ss| == |steps| + 1
  {}

  /** Such a state is reached by an ordinary first call: main sees the raised signal before it
      ever sleeps. */
  lemma PendingNotifyReachable() returns (ss: seq<State>, steps: seq<Step>)
    ensures IsRun(ss, steps, false) && ss[0] == INITIAL && Undisturbed(ss, steps)
    ensures var s := ss[|steps|]; s.main == Idle && s.worker == Signalled && s.results == [Got(0)]
  {
    steps := [Reset, Post, Take, Reply, Raise, Wait, Drain];
    ss := [INITIAL, State(SignalReset, Ready, 0, [], [], 0, []), State(Posted, Ready, 0, [0], [], 1, []),
           State(Posted, Handling(0), 0, [], [], 1, []), State(Posted, Answered, 0, [], [0], 1, []),
           State(Posted, Signalled, 1, [], [0], 1, []), State(Woken, Signalled, 1, [], [0], 1, []),
           State(Idle, Signalled, 1, [], [], 1, [Got(0)])];
  }

  // ---- calls that come away without an answer ------------------------------------------------

  /** The calls that timed out or were woken to an empty port. */
  function Misses(results: seq<Outcome>): (n: nat)
    ensures n <= |results|
  {
    if results == [] then 0 else Misses(results[..|results| - 1]) + if results[|results| - 1].Got? then 0 else 1
  }

  /** The number of the answer that is taken next. */
  function NextAnswer(results: seq<Outcome>): nat {
    |results| - Misses(results)
  }

  /** Every call that returns an answer returns the one to the call as many places before it as
      calls had missed theirs by then. */
  predicate Shifted(results: seq<Outcome>) {
    forall k :: 0 <= k < |results| && results[k].Got? ==> results[k] == Got(NextAnswer(results[..k]))
  }

  function InHand(w: WorkerPc): seq<nat> {
    if w.Handling? then [w.request] else []
  }

  /** The requests whose answers main has not taken, oldest first. */
  function Underway(s: State): seq<nat> {
    s.toMain + InHand(s.worker) + s.toWorker
  }

  predicate Consecutive(ns: seq<nat>, from: nat) {
    forall i :: 0 <= i < |ns| ==> ns[i] == from + i
  }

  /** The answers not taken yet are underway in the order of their calls. */
  predicate InLine(s: State) {
    |Underway(s)| == s.calls - NextAnswer(s.results) && Consecutive(Underway(s), NextAnswer(s.results))
  }

  predicate InShift(s: State) {
    Shifted(s.results) && InLine(s)
  }

  lemma OneMore(results: seq<Outcome>, o: Outcome)
    ensures NextAnswer(results + [o]) == NextAnswer(results) + if o.Got? then 1 else 0
    ensures Shifted(results) && (o.Got? ==> o == Got(NextAnswer(results))) ==> Shifted(results + [o])
  {
    var more := results + [o];
    assert more[..|results|] == results;
    assert NextAnswer(more) == NextAnswer(results) + if o.Got? then 1 else 0;
    hide NextAnswer;
    if Shifted(results) && (o.Got? ==> o == Got(NextAnswer(results))) {
      forall k | 0 <= k < |more| && more[k].Got? ensures more[k] == Got(NextAnswer(more[..k])) {
        if k < |results| {
          assert more[..k] == results[..k] && more[k] == results[k];
        }
      }
    }
  }

  /** No step changes the line of answers but at its ends: a post joins it, a drain leaves it. */
  lemma UnderwayStep(s: State, step: Step, fused: bool)
    requires Enabled(s, step, fused)
    ensures var t := Do(s, step, fused);
            Underway(t) == if step == Post then Underway(s) + [s.calls]
                           else if step == Drain && s.toMain != [] then Underway(s)[1..] else Underway(s)
    ensures s.toMain != [] ==> Underway(s) != [] && Underway(s)[0] == s.toMain[0]
  {
    var a, b, c := s.toMain, InHand(s.worker), s.toWorker;
    match step {
      case Post => LineEnds(a + b, c, s.calls);
      case Take => LineTakes(a, c);
      case _ =>
    }
    if a != [] {
      LineStarts(a, b, c);
    }
  }

  lemma LineEnds(a: seq<nat>, c: seq<nat>, n: nat)
    ensures a + (c + [n]) == a + c + [n]
  {}

  lemma LineStarts(a: seq<nat>, b: seq<nat>, c: seq<nat>)
    requires a != []
    ensures a[1..] + b + c == (a + b + c)[1..] && (a + b + c)[0] == a[0]
  {}

  lemma LineTakes(a: seq<nat>, c: seq<nat>)
    requires c != []
    ensures a + [c[0]] + c[1..] == a + [] + c
  {}

  /** What a step adds to the results, if it finishes a call. */
  function Finished(s: State, step: Step): seq<Outcome> {
    if step == Drain then [if s.toMain == [] then NoMessage else Got(s.toMain[0])]
    else if step == Timeout then [TimedOut] else []
  }

  lemma ResultsStep(s: State, step: Step, fused: bool)
    requires Enabled(s, step, fused)
    ensures Do(s, step, fused).calls == s.calls + if step == Post then 1 else 0
    ensures Do(s, step, fused).results == s.results + Finished(s, step)
  {}

  lemma ShiftStep(s: State, step: Step, fused: bool)
    requires InShift(s) && Enabled(s, step, fused)
    ensures InShift(Do(s, step, fused))
  {
    hide Do, Enabled, Underway, NextAnswer, Shifted, Consecutive;
    UnderwayStep(s, step, fused);
    ResultsStep(s, step, fused);
    var line, next := Underway(s), NextAnswer(s.results);
    assert s.results + [] == s.results;
    if step == Post {
      LineGrows(line, next, s.calls);
    } else if step == Timeout {
      OneMore(s.results, TimedOut);
    } else if step == Drain {
      if s.toMain == [] {
        OneMore(s.results, NoMessage);
      } else {
        LineShrinks(line, next);
        OneMore(s.results, Got(s.toMain[0]));
      }
    }
  }

  lemma LineGrows(ns: seq<nat>, from: nat, n: nat)
    requires Consecutive(ns, from) && n == from + |ns|
    ensures Consecutive(ns + [n], from)
  {}

  lemma LineShrinks(ns: seq<nat>, from: nat)
    requires Consecutive(ns, from) && ns != []
    ensures ns[0] == from && Consecutive(ns[1..], from + 1)
  {}

  lemma InitiallyInShift(s: State)
    requires s.worker == Ready && s.toMain == [] && s.toWorker == [] && s.calls == 0 && s.results == []
    ensures InShift(s)
  {
    assert Underway(s) == [];
  }

  lemma {:induction false} ShiftRun(ss: seq<State>, steps: seq<Step>, fused: bool, k: nat)
    requires IsRun(ss, steps, fused) && ss[0] == INITIAL && k < |ss|
    ensures InShift(ss[k])
    decreases k
  {
    hide InShift, Enabled, Do;
    if k == 0 {
      InitiallyInShift(ss[0]);
    } else {
      ShiftRun(ss, steps, fused, k - 1);
      assert Moves(ss[k - 1], steps[k - 1], ss[k], fused);
      ShiftStep(ss[k - 1], steps[k - 1], fused);
    }
  }

  lemma {:induction false} NoneMissed(results: seq<Outcome>)
    ensures Misses(results) == 0 <==> forall i :: 0 <= i < |results| ==> results[i].Got?
  {
    if results != [] {
      var init := results[..|results| - 1];
      NoneMissed(init);
      assert forall i :: 0 <= i < |init| ==> init[i] == results[i];
    }
  }

  /** In every interleaving, timeouts and late notifies included, a call that returns an answer
      returns the one to the call as many places before it as calls missed theirs before it. So
      it returns its own answer if and only if none did, and after the first miss no call ever
      does again. */
  lemma TimeoutShiftsAnswers(ss: seq<State>, steps: seq<Step>, fused: bool, k: nat)
    requires IsRun(ss, steps, fused) && ss[0] == INITIAL && k < |ss[|steps|].results|
    ensures var results := ss[|steps|].results;
            (results[k].Got? ==> results[k] == Got(k - Misses(results[..k]))) &&
            (results[k] == Got(k) <==> forall i :: 0 <= i <= k ==> results[i].Got?)
  {
    hide InShift, Enabled, Do;
    ShiftRun(ss, steps, fused, |steps|);
    var results := ss[|steps|].results;
    assert Shifted(results) by { ShiftPart(ss[|steps|]); }
    NoneMissed(results[..k]);
    assert forall i :: 0 <= i < k ==> results[..k][i] == results[i];
  }

  lemma ShiftPart(s: State)
    requires InShift(s)
    ensures Shifted(s.results)
  {}

  predicate Called(s: State) {
    s.main != Idle && s.main != SignalReset
  }

  /** A raised signal that main has yet to act on stands for an answer, as does one about to be
      raised; and while no signal is raised for a call, its request is still on its way. */
  predicate Signalling(s: State) {
    && s.worker != Signalled
    && |s.toMain| >= (if s.worker == Answered then 1 else 0) + (if s.signal != 0 && s.main != Idle then 1 else 0)
    && (s.main == Asleep ==> s.signal == 0)
    && (s.main == Woken ==> s.signal != 0)
    && (Called(s) && s.signal == 0 ==> s.worker != Ready || s.toWorker != [])
    && forall k :: 0 <= k < |s.results| ==> s.results[k] != NoMessage
  }

  lemma SignallingStep(s: State, step: Step)
    requires Signalling(s) && Enabled(s, step, true)
    ensures Signalling(Do(s, step, true))
  {}

  lemma {:induction false} SignallingRun(ss: seq<State>, steps: seq<Step>, k: nat)
    requires IsRun(ss, steps, true) && ss[0] == INITIAL && k < |ss|
    ensures Signalling(ss[k])
    decreases k
  {
    if k > 0 {
      SignallingRun(ss, steps, k - 1);
      hide Signalling, Enabled, Do;
      assert Moves(ss[k - 1], steps[k - 1], ss[k], true);
      SignallingStep(ss[k - 1], steps[k - 1]);
    }
  }

  /** With signal and notify as one step, timeouts are the only misses, and they never strand a
      later call: while main sleeps, the worker has a step to take. */
  lemma OnlyTimeoutsMiss(ss: seq<State>, steps: seq<Step>, k: nat)
    requires IsRun(ss, steps, true) && ss[0] == INITIAL && k < |ss|
    ensures forall i :: 0 <= i < |ss[k].results| ==> ss[k].results[i] != NoMessage
    ensures ss[k].main == Asleep ==> WorkerStep(ss[k]).Some? && Enabled(ss[k], WorkerStep(ss[k]).value, true)
  {
    SignallingRun(ss, steps, k);
  }

  /** A call that times out, and a worker that answers it all the same. */
  lemma TimesOut() returns (ss: seq<State>)
    ensures IsRun(ss, [Reset, Post, Wait, Timeout, Take, Reply], true) && ss[0] == INITIAL
    ensures ss[6] == State(Idle, Answered, 0, [], [0], 1, [TimedOut])
  {
    ss := [INITIAL, State(SignalReset, Ready, 0, [], [], 0, []), State(Posted, Ready, 0, [0], [], 1, []),
           State(Asleep, Ready, 0, [0], [], 1, []), State(Idle, Ready, 0, [0], [], 1, [TimedOut]),
           State(Idle, Handling(0), 0, [], [], 1, [TimedOut]), State(Idle, Answered, 0, [], [0], 1, [TimedOut])];
  }

  lemma TakesTheStaleAnswer() returns (ss: seq<State>)
    ensures IsRun(ss, [Reset, Post, Wait, Raise, Drain], true)
    ensures ss[0] == State(Idle, Answered, 0, [], [0], 1, [TimedOut]) && ss[5].results == [TimedOut, Got(0)]
  {
    ss := [State(Idle, Answered, 0, [], [0], 1, [TimedOut]),
           State(SignalReset, Answered, 0, [], [0], 1, [TimedOut]), State(Posted, Answered, 0, [1], [0], 2, [TimedOut]),
           State(Asleep, Answered, 0, [1], [0], 2, [TimedOut]), State(Woken, Ready, 1, [1], [0], 2, [TimedOut]),
           State(Idle, Ready, 1, [1], [], 2, [TimedOut, Got(0)])];
  }

  /** The least such run: the second call returns the answer to the first. */
  lemma ShiftReachable() returns (ss: seq<State>, steps: seq<Step>)
    ensures IsRun(ss, steps, true) && ss[0] == INITIAL && ss[|steps|].results == [TimedOut, Got(0)]
  {
    var a := TimesOut();
    var b := TakesTheStaleAnswer();
    hide IsRun;
    var p, q: seq<Step> := [Reset, Post, Wait, Timeout, Take, Reply], [Reset, Post, Wait, Raise, Drain];
    RunLength(a, p, true);
    RunConcat(a, p, b, q, true);
    ss, steps := a + b[1..], p + q;
  }
}
