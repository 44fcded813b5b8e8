/** The failed-login monitor: a rolling window with a capped durable log, and the feed that
    folds that log and the live window into one notification per alerted window.

    Times are milliseconds; a window is named by its start. The alert threshold may be any
    integer: below one it acts as one. */
module FailedLogins {
  import opened Options
  import Seqs

  datatype Limits = Limits(threshold: int, windowMs: nat, durableCap: nat)
  {
    predicate Valid() { windowMs > 0 }

    /** The count at which the alert fires. */
    function AlertAt(): nat { if threshold < 1 then 1 else threshold }
  }

  datatype Line = FailedLine(window: int, count: nat) | ThresholdLine(window: int, count: nat)

  datatype State = State(window: Option<int>, count: nat, alerted: bool, log: seq<Line>)

  function Init(): State { State(None, 0, false, []) }

  /** One failure at time t. */
  function Recorded(l: Limits, s: State, t: int): State {
    var opens := s.window.None? || t - s.window.value >= l.windowMs;
    var window := if opens then t else s.window.value;
    var count := if opens then 1 else s.count + 1;
    var crossed := (opens || !s.alerted) && count >= l.threshold;
    State(Some(window), count, (!opens && s.alerted) || crossed,
          s.log + (if count <= l.durableCap then [FailedLine(window, count)] else []) +
                  (if crossed then [ThresholdLine(window, count)] else []))
  }

  datatype Snapshot = Snapshot(window: int, count: nat, alerted: bool)

  datatype Notice = Notice(window: int, count: nat)

  class Monitor {
    const limits: Limits
    var windowStart: Option<int>
    var count: nat
    var alerted: bool
    var log: seq<Line>

    ghost function Now(): State
      reads this
    {
      State(windowStart, count, alerted, log)
    }

    constructor (limits: Limits)
      ensures this.limits == limits && Now() == Init()
    {
      this.limits := limits;
      windowStart, count, alerted, log := None, 0, false, [];
    }

    method Record(t: int) returns (thresholdCrossed: bool, durable: bool)
      modifies this
      ensures Now() == Recorded(limits, old(Now()), t)
      ensures durable <==> count <= limits.durableCap
      ensures |log| == |old(log)| + (if durable then 1 else 0) + (if thresholdCrossed then 1 else 0)
    {
      if windowStart.None? || t - windowStart.value >= limits.windowMs {
        windowStart, count, alerted := Some(t), 0, false;
      }
      count := count + 1;
      durable := count <= limits.durableCap;
      if durable {
        log := log + [FailedLine(windowStart.value, count)];
      }
      thresholdCrossed := false;
      if !alerted && count >= limits.threshold {
        alerted, thresholdCrossed := true, true;
        log := log + [ThresholdLine(windowStart.value, count)];
      }
    }

    method TakeSnapshot() returns (live: Option<Snapshot>)
      requires count > 0 ==> windowStart.Some?
      ensures live == SnapshotOf(Now())
    {
      return if count == 0 then None else Some(Snapshot(windowStart.value, count, alerted));
    }
  }

  function SnapshotOf(s: State): Option<Snapshot> {
    if s.count == 0 || s.window.None? then None else Some(Snapshot(s.window.value, s.count, s.alerted))
  }

  // ---- the feed ------------------------------------------------------------------------------

  function Failures(log: seq<Line>, window: int): nat {
    if log == [] then 0
    else Failures(log[..|log| - 1], window) + if log[|log| - 1] == FailedLine(window, log[|log| - 1].count) then 1 else 0
  }

  function Crossings(log: seq<Line>, window: int): nat {
    if log == [] then 0
    else Crossings(log[..|log| - 1], window) + if log[|log| - 1] == ThresholdLine(window, log[|log| - 1].count) then 1 else 0
  }

  /** The first threshold line of each window, in log order. */
  function Alerts(log: seq<Line>): seq<Notice> {
    if log == [] then []
    else
      var before, last := Alerts(log[..|log| - 1]), log[|log| - 1];
      if last.ThresholdLine? && Crossings(log[..|log| - 1], last.window) == 0 then before + [Notice(last.window, last.count)]
      else before
  }

  function Max(a: nat, b: nat): nat { if a > b then a else b }

  function Min(a: nat, b: nat): nat { if a < b then a else b }

  function Shown(log: seq<Line>, live: Option<Snapshot>, alert: Notice): Notice {
    var logged := Failures(log, alert.window);
    var known := if live.Some? && live.value.window == alert.window then Max(logged, live.value.count) else logged;
    Notice(alert.window, Max(known, alert.count))
  }

  function Feed(log: seq<Line>, live: Option<Snapshot>, alerts: seq<Notice>): (events: seq<Notice>)
    ensures |events| == |alerts| && forall i :: 0 <= i < |alerts| ==> events[i] == Shown(log, live, alerts[i])
  {
    if alerts == [] then [] else [Shown(log, live, alerts[0])] + Feed(log, live, alerts[1..])
  }

  /** The fold over the log lines: a count per window, the first threshold line per window in
      insertion order, and the live overlay. */
  method DeriveAuthEvents(log: seq<Line>, live: Option<Snapshot>) returns (events: seq<Notice>)
    ensures events == Feed(log, live, Alerts(log))
  {
    var failuresByWindow: map<int, nat> := map[];
    var thresholds: seq<Notice> := [];
    var seen: set<int> := {};
    for i := 0 to |log|
      invariant thresholds == Alerts(log[..i])
      invariant forall w :: w in seen <==> Crossings(log[..i], w) > 0
      invariant forall w :: Failures(log[..i], w) == if w in failuresByWindow then failuresByWindow[w] else 0
    {
      assert log[..i + 1][..i] == log[..i] && log[..i + 1][i] == log[i];
      var w := log[i].window;
      if log[i].FailedLine? {
        failuresByWindow := failuresByWindow[w := (if w in failuresByWindow then failuresByWindow[w] else 0) + 1];
      } else if w !in seen {
        thresholds := thresholds + [Notice(w, log[i].count)];
        seen := seen + {w};
      }
    }
    assert log[..|log|] == log;
    if live.Some? {
      var w := live.value.window;
      failuresByWindow := failuresByWindow[w := Max(if w in failuresByWindow then failuresByWindow[w] else 0, live.value.count)];
    }
    events := [];
    for i := 0 to |thresholds|
      invariant |events| == i && forall k :: 0 <= k < i ==> events[k] == Shown(log, live, thresholds[k])
    {
      var w := thresholds[i].window;
      events := events + [Notice(w, Max(if w in failuresByWindow then failuresByWindow[w] else 0, thresholds[i].count))];
    }
  }

  // ---- histories -------------------------------------------------------------------------------

  /** The monitor after failures at these times. */
  function After(l: Limits, ts: seq<int>): State {
    if ts == [] then Init() else Recorded(l, After(l, ts[..|ts| - 1]), ts[|ts| - 1])
  }

  predicate Ordered(ts: seq<int>) {
    forall i, j :: 0 <= i <= j < |ts| ==> ts[i] <= ts[j]
  }

  /** The window of the last failure: its own time, unless an open window takes it in. */
  function Anchor(l: Limits, ts: seq<int>): int
    requires ts != []
  {
    var init, t := ts[..|ts| - 1], ts[|ts| - 1];
    if init == [] || t - Anchor(l, init) >= l.windowMs then t else Anchor(l, init)
  }

  /** How many of the failures fall into a window. */
  function Members(l: Limits, ts: seq<int>, window: int): nat {
    if ts == [] then 0 else Members(l, ts[..|ts| - 1], window) + if Anchor(l, ts) == window then 1 else 0
  }

  lemma {:induction false} AnchorsBelow(l: Limits, ts: seq<int>, window: int)
    requires l.Valid() && Ordered(ts) && ts != []
    ensures Anchor(l, ts) <= ts[|ts| - 1] && ts[|ts| - 1] - Anchor(l, ts) < l.windowMs
    ensures Members(l, ts, window) > 0 ==> window <= Anchor(l, ts)
    ensures ts[0] <= Anchor(l, ts)
  {
    var init := ts[..|ts| - 1];
    if init == [] {
      assert Members(l, init, window) == 0;
    } else {
      assert init[0] == ts[0] && init[|init| - 1] <= ts[|ts| - 1];
      AnchorsBelow(l, init, window);
    }
  }

  lemma FailuresAppend(log: seq<Line>, x: Line, window: int)
    ensures Failures(log + [x], window) == Failures(log, window) + if x.FailedLine? && x.window == window then 1 else 0
    ensures Crossings(log + [x], window) == Crossings(log, window) + if x.ThresholdLine? && x.window == window then 1 else 0
  {
    assert (log + [x])[..|log|] == log;
  }

  /** The open window is the anchor of the last failure, with its exact count and latch. */
  lemma {:induction false} WindowIs(l: Limits, ts: seq<int>)
    requires l.Valid() && Ordered(ts) && ts != []
    ensures var s := After(l, ts);
            s.window == Some(Anchor(l, ts)) && s.count == Members(l, ts, Anchor(l, ts)) && s.count > 0 &&
            (s.alerted <==> s.count >= l.AlertAt())
  {
    var init, t := ts[..|ts| - 1], ts[|ts| - 1];
    if init == [] {
      assert Members(l, init, t) == 0;
    } else {
      WindowIs(l, init);
      AnchorsBelow(l, init, t);
      assert init[|init| - 1] <= t;
    }
  }

  /** Exactly what the durable log holds of each window: its first failures up to the cap, and
      one threshold line if and only if its count reached the threshold. */
  lemma {:induction false} LogIsExact(l: Limits, ts: seq<int>, window: int)
    requires l.Valid() && Ordered(ts)
    ensures Failures(After(l, ts).log, window) == Min(Members(l, ts, window), l.durableCap)
    ensures Crossings(After(l, ts).log, window) == if Members(l, ts, window) >= l.AlertAt() then 1 else 0
  {
    if ts != [] {
      var init, t := ts[..|ts| - 1], ts[|ts| - 1];
      LogIsExact(l, init, window);
      var s, s' := After(l, init), After(l, ts);
      WindowIs(l, ts);
      if init != [] {
        WindowIs(l, init);
        AnchorsBelow(l, init, t);
        assert init[|init| - 1] <= t;
      } else {
        assert Members(l, init, t) == 0;
      }
      AppendedLines(l, s, t, window);
    }
  }

  /** What the owner is shown live: nothing before the first failure, and after it the open window
      with the number of its failures and whether that has reached the threshold. */
  lemma SnapshotIsExact(l: Limits, ts: seq<int>)
    requires l.Valid() && Ordered(ts)
    ensures SnapshotOf(After(l, ts)) ==
            if ts == [] then None
            else
              var w := Anchor(l, ts);
              Some(Snapshot(w, Members(l, ts, w), Members(l, ts, w) >= l.threshold))
  {
    if ts != [] {
      WindowIs(l, ts);
    }
  }

  /** The lines number the failures of their window: the k-th failed line says k, and a threshold
      line says the count at which the alert fires. */
  lemma {:induction false} LinesNumberFailures(l: Limits, ts: seq<int>, i: nat)
    requires l.Valid() && Ordered(ts) && i < |After(l, ts).log|
    ensures var (log, x) := (After(l, ts).log, After(l, ts).log[i]);
            x.count == if x.ThresholdLine? then l.AlertAt() else Failures(log[..i], x.window) + 1
  {
    var init := ts[..|ts| - 1];
    var s, s' := After(l, init), After(l, ts);
    LastIs(l, ts);
    hide *;
    AlertCounts(l, ts);
    assert s'.log[i] in s'.log;
    if i < |s.log| {
      StillOrdered(ts);
      LinesNumberFailures(l, init, i);
      assert s'.log[..i] == s.log[..i] && s'.log[i] == s.log[i];
    } else {
      assert i == |s.log| ==> s'.log[..i] == s.log;
    }
  }

  lemma StillOrdered(ts: seq<int>)
    requires Ordered(ts) && ts != []
    ensures Ordered(ts[..|ts| - 1])
  {}

  /** What the last failure appends: a failed line with the next number of its window, if there is
      still room for one, and maybe a threshold line. */
  lemma LastIs(l: Limits, ts: seq<int>)
    requires l.Valid() && Ordered(ts) && |After(l, ts).log| > 0
    ensures ts != []
    ensures var (log, log') := (After(l, ts[..|ts| - 1]).log, After(l, ts).log);
            log <= log' && forall i :: |log| <= i < |log'| ==>
              log'[i].ThresholdLine? || (i == |log| && log'[i].count == Failures(log, log'[i].window) + 1)
  {
    var init := ts[..|ts| - 1];
    WindowIs(l, ts);
    LogIsExact(l, init, Anchor(l, ts));
    AppendsTo(l, After(l, init), ts[|ts| - 1]);
    MembersGrow(l, ts);
    hide Recorded, Anchor, Failures, Members;
  }

  lemma AppendsTo(l: Limits, s: State, t: int)
    ensures var s' := Recorded(l, s, t);
            s.log <= s'.log && forall i :: |s.log| <= i < |s'.log| ==>
              (i == |s.log| && s'.count <= l.durableCap && s'.log[i] == FailedLine(s'.window.value, s'.count)) || s'.log[i].ThresholdLine?
  {}

  lemma MembersGrow(l: Limits, ts: seq<int>)
    requires ts != []
    ensures Members(l, ts, Anchor(l, ts)) == Members(l, ts[..|ts| - 1], Anchor(l, ts)) + 1
  {}

  lemma AppendedLines(l: Limits, s: State, t: int, window: int)
    requires s.count == 0 ==> !s.alerted
    ensures var s' := Recorded(l, s, t);
            Failures(s'.log, window) == Failures(s.log, window) + (if s'.window == Some(window) && s'.count <= l.durableCap then 1 else 0) &&
            Crossings(s'.log, window) == Crossings(s.log, window) +
              (if s'.window == Some(window) && s'.alerted && (s'.count == 1 || !s.alerted) then 1 else 0)
  {
    var s' := Recorded(l, s, t);
    var failed, crossed := FailedLine(s'.window.value, s'.count), ThresholdLine(s'.window.value, s'.count);
    var mid := if s'.count <= l.durableCap then s.log + [failed] else s.log;
    FailuresAppend(s.log, failed, window);
    FailuresAppend(mid, crossed, window);
    assert s'.log == if s'.alerted && (s'.count == 1 || !s.alerted) then mid + [crossed] else mid;
    hide Failures, Crossings, Recorded;
  }

  // ---- the bound ---------------------------------------------------------------------------------

  /** The number of windows that were opened. */
  function Windows(l: Limits, ts: seq<int>): nat {
    if ts == [] then 0
    else
      var init, t := ts[..|ts| - 1], ts[|ts| - 1];
      Windows(l, init) + if init == [] || t - Anchor(l, init) >= l.windowMs then 1 else 0
  }

  /** What the log holds in excess of the windows before the open one. */
  function Open(l: Limits, s: State): nat {
    Min(s.count, l.durableCap) + if s.alerted then 1 else 0
  }

  lemma LogGrows(l: Limits, s: State, t: int)
    requires s.count == 0 ==> !s.alerted
    ensures var s' := Recorded(l, s, t);
            |s'.log| == |s.log| + Open(l, s') - (if s'.count == 1 then 0 else Open(l, s))
  {}

  lemma {:induction false} LogPerWindow(l: Limits, ts: seq<int>)
    requires l.Valid() && Ordered(ts) && ts != []
    ensures Windows(l, ts) > 0
    ensures |After(l, ts).log| <= (l.durableCap + 1) * (Windows(l, ts) - 1) + Open(l, After(l, ts))
    ensures (Windows(l, ts) - 1) * l.windowMs <= Anchor(l, ts) - ts[0]
  {
    var init, t := ts[..|ts| - 1], ts[|ts| - 1];
    var s, s' := After(l, init), After(l, ts);
    if init == [] {
      LogGrows(l, s, t);
    } else {
      LogPerWindow(l, init);
      WindowIs(l, init);
      LogGrows(l, s, t);
      AnchorsBelow(l, init, t);
      var k := Windows(l, init);
      assert init[0] == ts[0] && init[|init| - 1] <= t;
      assert s'.count == 1 <==> t - Anchor(l, init) >= l.windowMs;
      assert Windows(l, ts) == if s'.count == 1 then k + 1 else k;
      assert Anchor(l, ts) == if s'.count == 1 then t else Anchor(l, init);
      assert Open(l, s) <= l.durableCap + 1;
      hide *;
      MulNext(l.windowMs, k - 1);
      MulNext(l.durableCap + 1, k - 1);
    }
  }

  lemma MulNext(c: int, k: int)
    ensures c * (k + 1) == c * k + c && (k + 1) * c == k * c + c
  {}

  /** Over an elapsed time T the log grows by at most cap + 1 lines for each of the
      T / windowMs + 1 windows that fit, however many failures arrive. */
  lemma LogIsBounded(l: Limits, ts: seq<int>)
    requires l.Valid() && Ordered(ts) && ts != []
    ensures |After(l, ts).log| <= (l.durableCap + 1) * ((ts[|ts| - 1] - ts[0]) / l.windowMs + 1)
  {
    LogPerWindow(l, ts);
    AnchorsBelow(l, ts, 0);
    var k := Windows(l, ts) - 1;
    assert Open(l, After(l, ts)) <= l.durableCap + 1;
    hide *;
    QuotientAtLeast(ts[|ts| - 1] - ts[0], l.windowMs, k);
    MulNext(l.durableCap + 1, k);
    MulMonotone(l.durableCap + 1, k + 1, (ts[|ts| - 1] - ts[0]) / l.windowMs + 1);
  }

  lemma QuotientAtLeast(a: int, b: int, k: int)
    requires b > 0 && k * b <= a
    ensures k <= a / b
  {
    MulNext(b, a / b);
    MulCancel(b, k, a / b + 1);
  }

  lemma MulCancel(c: int, x: int, y: int)
    requires c > 0 && c * x < c * y
    ensures x < y
  {}

  lemma MulMonotone(c: nat, x: int, y: int)
    requires x <= y
    ensures c * x <= c * y
  {}

  // ---- the feed over a history -------------------------------------------------------------------

  lemma {:induction false} AlertsAre(log: seq<Line>)
    ensures forall i, j :: 0 <= i < j < |Alerts(log)| ==> Alerts(log)[i].window != Alerts(log)[j].window
    ensures forall w :: Crossings(log, w) > 0 <==> exists a :: a in Alerts(log) && a.window == w
  {
    if log != [] {
      var init, last := log[..|log| - 1], log[|log| - 1];
      AlertsAre(init);
      forall w ensures Crossings(log, w) > 0 <==> exists a :: a in Alerts(log) && a.window == w {
        if Crossings(init, w) > 0 {
          var a :| a in Alerts(init) && a.window == w;
          assert a in Alerts(log);
        } else if Crossings(log, w) > 0 {
          assert Notice(w, last.count) in Alerts(log);
        }
      }
    }
  }

  /** Every alert in the log fired exactly at the threshold. */
  lemma {:induction false} AlertCounts(l: Limits, ts: seq<int>)
    requires l.Valid() && Ordered(ts)
    ensures forall x :: x in After(l, ts).log && x.ThresholdLine? ==> x.count == l.AlertAt()
  {
    if ts != [] {
      var init := ts[..|ts| - 1];
      AlertCounts(l, init);
      WindowIs(l, ts);
      if init != [] {
        WindowIs(l, init);
      }
    }
  }

  lemma {:induction false} AlertsFromLog(log: seq<Line>, a: Notice)
    requires a in Alerts(log)
    ensures ThresholdLine(a.window, a.count) in log
  {
    var init, last := log[..|log| - 1], log[|log| - 1];
    if a in Alerts(init) {
      AlertsFromLog(init, a);
    }
  }

  lemma FeedWindows(l: Limits, ts: seq<int>, w: int)
    requires l.Valid() && Ordered(ts)
    ensures var s := After(l, ts);
            (exists e :: e in Feed(s.log, SnapshotOf(s), Alerts(s.log)) && e.window == w) <==> Members(l, ts, w) >= l.AlertAt()
  {
    var s := After(l, ts);
    var alerts, feed := Alerts(s.log), Feed(s.log, SnapshotOf(s), Alerts(s.log));
    AlertsAre(s.log);
    LogIsExact(l, ts, w);
    hide *;
    if Crossings(s.log, w) > 0 {
      var a :| a in alerts && a.window == w;
      var i :| 0 <= i < |alerts| && alerts[i] == a;
      assert feed[i] == Shown(s.log, SnapshotOf(s), a);
      ShownWindow(s.log, SnapshotOf(s), a);
      assert feed[i] in feed;
    } else {
      forall i | 0 <= i < |feed| ensures feed[i].window != w {
        ShownWindow(s.log, SnapshotOf(s), alerts[i]);
        assert alerts[i] in alerts;
      }
    }
  }

  lemma ShownWindow(log: seq<Line>, live: Option<Snapshot>, a: Notice)
    ensures Shown(log, live, a).window == a.window
  {}

  lemma ShownCount(l: Limits, ts: seq<int>, a: Notice)
    requires l.Valid() && Ordered(ts) && ts != [] && a in Alerts(After(l, ts).log)
    ensures var s := After(l, ts);
            Shown(s.log, SnapshotOf(s), a).count ==
            if a.window == Anchor(l, ts) then Members(l, ts, a.window)
            else Max(Min(Members(l, ts, a.window), l.durableCap), l.AlertAt())
  {
    var s := After(l, ts);
    LogIsExact(l, ts, a.window);
    AlertCounts(l, ts);
    AlertsFromLog(s.log, a);
    WindowIs(l, ts);
    AlertsAre(s.log);
    assert Crossings(s.log, a.window) > 0;
  }

  /** The feed of one monitor: one notice for each window whose count reached the threshold and
      for no other; the open window shows its true count, a past one what was still logged. */
  lemma FeedIsExact(l: Limits, ts: seq<int>)
    requires l.Valid() && Ordered(ts) && ts != []
    ensures var s := After(l, ts);
            var feed := Feed(s.log, SnapshotOf(s), Alerts(s.log));
            (forall i, j :: 0 <= i < j < |feed| ==> feed[i].window != feed[j].window) &&
            (forall w :: (exists e :: e in feed && e.window == w) <==> Members(l, ts, w) >= l.AlertAt()) &&
            forall e :: e in feed ==>
              e.count == if e.window == Anchor(l, ts) then Members(l, ts, e.window)
                         else Max(Min(Members(l, ts, e.window), l.durableCap), l.AlertAt())
  {
    var s := After(l, ts);
    var alerts := Alerts(s.log);
    var feed := Feed(s.log, SnapshotOf(s), alerts);
    AlertsAre(s.log);
    hide *;
    forall i | 0 <= i < |feed|
      ensures feed[i].window == alerts[i].window &&
              feed[i].count == if feed[i].window == Anchor(l, ts) then Members(l, ts, feed[i].window)
                               else Max(Min(Members(l, ts, feed[i].window), l.durableCap), l.AlertAt())
    {
      ShownWindow(s.log, SnapshotOf(s), alerts[i]);
      ShownCount(l, ts, alerts[i]);
    }
    forall w ensures (exists e :: e in feed && e.window == w) <==> Members(l, ts, w) >= l.AlertAt() {
      FeedWindows(l, ts, w);
    }
  }
}
