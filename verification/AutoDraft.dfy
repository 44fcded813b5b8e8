/** The nightly auto-draft: which jobs it picks, and when its timer fires.

    The zone's offset is a function of the instant, in minutes. */
module AutoDraft {
  import opened Options
  import opened Numerals
  import opened Calendar
  import Seqs

  // ---- selection ---------------------------------------------------------------------

  datatype Job = Job(id: nat, status: string, hasCV: bool, deadline: Option<string>, sector: string)

  datatype Selection = Selection(selected: seq<Job>, overflow: nat, skippedPending: nat)

  predicate Eligible(j: Job, today: string, end: string) {
    j.status == "queued" && !j.hasCV && j.deadline.Some? && IsIso(j.deadline.value) &&
    !Less(j.deadline.value, today) && !Less(end, j.deadline.value) && j.sector != "private"
  }

  function Filter(jobs: seq<Job>, keep: Job -> bool): (r: seq<Job>) {
    if jobs == [] then [] else (if keep(jobs[0]) then [jobs[0]] else []) + Filter(jobs[1..], keep)
  }

  /** The deadline as one number; a job without one never gets here. */
  function DeadlineKey(j: Job): int {
    if j.deadline.Some? && IsIso(j.deadline.value) then DateKey(j.deadline.value) else 0
  }

  function DateKey(s: string): int
    requires IsIso(s)
  {
    var t := Parse(s);
    t.y * 10000 + t.m * 100 + t.d
  }

  function Queueable(jobs: seq<Job>, today: string, windowDays: nat): seq<Job>
    requires IsIso(today)
  {
    Filter(jobs, j => Eligible(j, today, AddDaysISO(today, windowDays)))
  }

  function Waiting(jobs: seq<Job>, today: string, windowDays: nat, isPending: Job -> bool): seq<Job>
    requires IsIso(today)
  {
    Seqs.SortBy(Filter(Queueable(jobs, today, windowDays), j => !isPending(j)), DeadlineKey)
  }

  /** Dedupe first, then sort by deadline, then cap. */
  function Select(jobs: seq<Job>, today: string, windowDays: nat, cap: nat, isPending: Job -> bool): Selection {
    if !IsIso(today) then Selection([], 0, 0)
    else
      var sorted := Waiting(jobs, today, windowDays, isPending);
      FilterSplits(Queueable(jobs, today, windowDays), j => !isPending(j));
      Selection(sorted[..if cap < |sorted| then cap else |sorted|],
                if |sorted| > cap then |sorted| - cap else 0,
                |Queueable(jobs, today, windowDays)| - |sorted|)
  }

  lemma {:induction false} FilterSplits(jobs: seq<Job>, keep: Job -> bool)
    ensures |Filter(jobs, keep)| <= |jobs|
    ensures forall j :: j in Filter(jobs, keep) <==> j in jobs && keep(j)
    ensures multiset(Filter(jobs, keep)) <= multiset(jobs)
  {
    if jobs != [] {
      FilterSplits(jobs[1..], keep);
      assert jobs == [jobs[0]] + jobs[1..];
    }
  }

  lemma DateKeyBounds(s: string)
    requires IsIso(s)
    ensures 0 <= Parse(s).m <= 99 && 0 <= Parse(s).d <= 99
  {
    TwoDigits(s[5..7]);
    TwoDigits(s[8..]);
  }

  lemma TwoDigits(s: string)
    requires |s| == 2 && AllDigits(s)
    ensures 0 <= Value(s) <= 99
  {
    assert s == ("" + [s[0]]) + [s[1]];
    ValueSnoc("", s[0]);
    ValueSnoc("" + [s[0]], s[1]);
    assert IsDigit(s[0]) && IsDigit(s[1]);
  }

  /** The sort key orders deadlines as the string comparison does. */
  lemma KeyIsStringOrder(a: string, b: string)
    requires IsIso(a) && IsIso(b)
    ensures Less(a, b) <==> DateKey(a) < DateKey(b)
  {
    IsoOrder(a, b);
    DateKeyBounds(a);
    DateKeyBounds(b);
    hide Less, Parse;
  }

  lemma WaitingAre(jobs: seq<Job>, today: string, windowDays: nat, isPending: Job -> bool)
    requires IsIso(today)
    ensures var sorted := Waiting(jobs, today, windowDays, isPending);
            multiset(sorted) <= multiset(jobs) && Seqs.Sorted(sorted, DeadlineKey) &&
            forall j :: j in sorted <==> j in jobs && Eligible(j, today, AddDaysISO(today, windowDays)) && !isPending(j)
  {
    var all := Queueable(jobs, today, windowDays);
    FilterSplits(jobs, j => Eligible(j, today, AddDaysISO(today, windowDays)));
    FilterSplits(all, j => !isPending(j));
    var free := Filter(all, j => !isPending(j));
    var sorted := Waiting(jobs, today, windowDays, isPending);
    hide Filter, Eligible;
    forall j ensures j in sorted <==> j in free {
      Seqs.SameElements(sorted, free, j);
    }
  }

  /** A job that may be drafted unattended: queued, without a CV, not in the private sector, and
      due on a literal date from today to the end of the window, both included. */
  predicate Due(j: Job, today: string, end: string) {
    && j.status == "queued" && j.hasCV == false && j.sector != "private"
    && match j.deadline
       case None => false
       case Some(d) => IsIso(d) && (d == today || Less(today, d)) && (d == end || Less(d, end))
  }

  lemma {:induction false} LessTotal(a: string, b: string)
    ensures Less(a, b) || a == b || Less(b, a)
    ensures !(Less(a, b) && Less(b, a)) && !Less(a, a)
  {
    if a != "" {
      LessTotal(a[1..], a[1..]);
      if b != "" {
        LessTotal(a[1..], b[1..]);
        assert a == [a[0]] + a[1..] && b == [b[0]] + b[1..];
      }
    }
  }

  lemma EligibleIsDue(j: Job, today: string, end: string)
    ensures Eligible(j, today, end) <==> Due(j, today, end)
  {
    if j.deadline.Some? {
      LessTotal(j.deadline.value, today);
      LessTotal(j.deadline.value, end);
    }
    hide Less, IsIso;
  }

  /** How many jobs of the list are like that. */
  function CountOf(jobs: seq<Job>, p: Job -> bool): nat {
    if jobs == [] then 0 else CountOf(jobs[..|jobs| - 1], p) + if p(jobs[|jobs| - 1]) then 1 else 0
  }

  lemma {:induction false} FilterConcat(a: seq<Job>, b: seq<Job>, keep: Job -> bool)
    ensures Filter(a + b, keep) == Filter(a, keep) + Filter(b, keep)
  {
    if a == [] {
      assert a + b == b;
    } else {
      FilterConcat(a[1..], b, keep);
      assert (a + b)[0] == a[0] && (a + b)[1..] == a[1..] + b;
      Seqs.Assoc(if keep(a[0]) then [a[0]] else [], Filter(a[1..], keep), Filter(b, keep));
    }
  }

  lemma {:induction false} FilterCounts(jobs: seq<Job>, keep: Job -> bool)
    ensures |Filter(jobs, keep)| == CountOf(jobs, keep)
  {
    if jobs != [] {
      var front, last := jobs[..|jobs| - 1], jobs[|jobs| - 1];
      FilterCounts(front, keep);
      assert jobs == front + [last];
      FilterConcat(front, [last], keep);
      assert [last][1..] == [];
    }
  }

  lemma {:induction false} FilterTwice(jobs: seq<Job>, p: Job -> bool, q: Job -> bool)
    ensures Filter(Filter(jobs, p), q) == Filter(jobs, j => p(j) && q(j))
  {
    if jobs != [] {
      FilterTwice(jobs[1..], p, q);
      var rest := Filter(jobs[1..], p);
      assert ([jobs[0]] + rest)[1..] == rest;
      assert Filter([], q) == [] && [] + rest == rest;
    }
  }

  lemma {:induction false} CountAlike(jobs: seq<Job>, p: Job -> bool, q: Job -> bool)
    requires forall j :: p(j) <==> q(j)
    ensures CountOf(jobs, p) == CountOf(jobs, q)
  {
    if jobs != [] {
      CountAlike(jobs[..|jobs| - 1], p, q);
    }
  }

  lemma {:induction false} CountParts(jobs: seq<Job>, p: Job -> bool, q: Job -> bool)
    ensures CountOf(jobs, p) == CountOf(jobs, j => p(j) && q(j)) + CountOf(jobs, j => p(j) && !q(j))
  {
    if jobs != [] {
      CountParts(jobs[..|jobs| - 1], p, q);
    }
  }

  /** Of the jobs that are due the pending ones are counted as skipped, and of the others as many
      are selected as the cap allows, each once; the rest is the overflow. */
  lemma SelectionCounts(jobs: seq<Job>, today: string, windowDays: nat, cap: nat, isPending: Job -> bool)
    requires IsIso(today)
    ensures var s := Select(jobs, today, windowDays, cap, isPending);
            var end := AddDaysISO(today, windowDays);
            var free := CountOf(jobs, j => Due(j, today, end) && !isPending(j));
            && s.skippedPending == CountOf(jobs, j => Due(j, today, end) && isPending(j))
            && |s.selected| == (if free < cap then free else cap) && s.overflow == free - |s.selected|
            && multiset(s.selected) <= multiset(jobs)
  {
    WaitingAre(jobs, today, windowDays, isPending);
    CountsAre(jobs, today, windowDays, isPending);
    var sorted := Waiting(jobs, today, windowDays, isPending);
    var s := Select(jobs, today, windowDays, cap, isPending);
    assert sorted == s.selected + sorted[|s.selected|..];
  }

  lemma CountsAre(jobs: seq<Job>, today: string, windowDays: nat, isPending: Job -> bool)
    requires IsIso(today)
    ensures var end := AddDaysISO(today, windowDays);
            var free := CountOf(jobs, j => Due(j, today, end) && !isPending(j));
            |Waiting(jobs, today, windowDays, isPending)| == free &&
            |Queueable(jobs, today, windowDays)| == free + CountOf(jobs, j => Due(j, today, end) && isPending(j))
  {
    var end := AddDaysISO(today, windowDays);
    var due, open: Job -> bool := j => Due(j, today, end), j => !isPending(j);
    var eligible: Job -> bool := j => Eligible(j, today, end);
    forall j ensures eligible(j) <==> due(j) {
      EligibleIsDue(j, today, end);
    }
    hide Eligible, Due, AddDaysISO;
    FilterCounts(jobs, eligible);
    CountAlike(jobs, eligible, due);
    CountParts(jobs, due, isPending);
    FilterTwice(jobs, eligible, open);
    FilterCounts(jobs, j => eligible(j) && open(j));
    CountAlike(jobs, j => eligible(j) && open(j), j => Due(j, today, end) && !isPending(j));
    CountAlike(jobs, j => due(j) && isPending(j), j => Due(j, today, end) && isPending(j));
    CountAlike(jobs, j => due(j) && !isPending(j), j => Due(j, today, end) && !isPending(j));
  }

  /** What is selected is due and not pending, and nothing that waits behind the cap has an
      earlier deadline. */
  lemma SelectionIsMostUrgent(jobs: seq<Job>, today: string, windowDays: nat, cap: nat, isPending: Job -> bool, s: Job)
    requires IsIso(today) && s in Select(jobs, today, windowDays, cap, isPending).selected
    ensures s in jobs && Due(s, today, AddDaysISO(today, windowDays)) && !isPending(s)
    ensures forall u :: u in jobs && Due(u, today, AddDaysISO(today, windowDays)) && !isPending(u) &&
                        u !in Select(jobs, today, windowDays, cap, isPending).selected ==>
                        !Less(u.deadline.value, s.deadline.value)
  {
    WaitingAre(jobs, today, windowDays, isPending);
    var sorted := Waiting(jobs, today, windowDays, isPending);
    var selected := Select(jobs, today, windowDays, cap, isPending).selected;
    var end := AddDaysISO(today, windowDays);
    Seqs.CutSorted(sorted, |selected|, DeadlineKey);
    assert selected == sorted[..|selected|];
    hide Waiting, Select, AddDaysISO;
    assert s in sorted;
    EligibleIsDue(s, today, end);
    forall u | u in jobs && Due(u, today, end) && !isPending(u) && u !in selected
      ensures !Less(u.deadline.value, s.deadline.value)
    {
      EligibleIsDue(u, today, end);
      assert DeadlineKey(s) <= DeadlineKey(u);
      KeyIsStringOrder(u.deadline.value, s.deadline.value);
    }
  }

  /** On the calendar: a selected deadline is between today and windowDays on, both included. */
  lemma SelectionIsInWindow(jobs: seq<Job>, today: Date, windowDays: nat, cap: nat, isPending: Job -> bool, s: Job)
    requires Valid(today) && 100 <= today.y && Later(today, windowDays).y <= 9999 && today.y <= 9999
    requires s in Select(jobs, Iso(today), windowDays, cap, isPending).selected
    requires s.deadline.Some? && IsIso(s.deadline.value) && Valid(Parse(s.deadline.value))
    ensures DayOf(today) <= DayOf(Parse(s.deadline.value)) <= DayOf(today) + windowDays
  {
    IsoRoundTrip(today);
    SelectionIsMostUrgent(jobs, Iso(today), windowDays, cap, isPending, s);
    AddDaysCountsDays(today, windowDays);
    LaterAdds(today, windowDays);
    IsoRoundTrip(Later(today, windowDays));
    var deadline := s.deadline.value;
    LessTotal(deadline, Iso(today));
    LessTotal(deadline, Iso(Later(today, windowDays)));
    assert !Less(deadline, Iso(today)) && !Less(Iso(Later(today, windowDays)), deadline);
    hide Less, Iso, Parse, DayOf, Select, AddDaysISO, Later;
    IsoOrderIsDayOrder(deadline, Iso(today));
    IsoOrderIsDayOrder(Iso(Later(today, windowDays)), deadline);
  }

  // ---- the timer ------------------------------------------------------------------------

  const HOUR: int := 3_600_000
  const DAY: int := 86_400_000
  const MINUTE: int := 60_000
  const AUTO_DRAFT_HOUR_ET: int := 2

  type Zone = int -> int

  /** Eastern time: behind UTC by five hours, or by four. */
  ghost predicate Eastern(zone: Zone) {
    forall t :: zone(t) == -300 || zone(t) == -240
  }

  /** Instants whose local dates have four-digit years from 100 on, tomorrow included. */
  predicate InRange(now: int) {
    (DayFromYear(100) + 1) * DAY <= now < (DayFromYear(9999)) * DAY
  }

  function LocalDay(now: int, offset: int): int {
    (now + offset * MINUTE) / DAY
  }

  lemma LocalDayInRange(now: int, offset: int)
    requires InRange(now) && (offset == -300 || offset == -240)
    ensures DayFromYear(100) <= LocalDay(now, offset) < DayFromYear(9999)
  {
    assert DayFromYear(100) == -683003;
    assert DayFromYear(9999) == 2932532;
  }

  lemma CivilYear(day: int)
    requires DayFromYear(100) <= day < DayFromYear(9999)
    ensures DayFromYear(0) <= day && 100 <= Civil(day).y <= 9998 && Valid(Civil(day)) && DayOf(Civil(day)) == day
  {
    YearsGrow(0, 100);
    YearLength(0);
    DayOfCivil(day);
    var y := Civil(day).y;
    assert DayFromYear(y) <= day < DayFromYear(y + 1) by {
      YearOfDay(day);
    }
    hide Civil, DayFromYear;
    if y < 100 {
      YearsGrow(y, 100);
    }
    if y > 9998 {
      YearAtLeast(y, 9999);
    }
  }

  lemma YearOfDay(day: int)
    requires DayFromYear(0) <= day
    ensures DayFromYear(Civil(day).y) <= day < DayFromYear(Civil(day).y + 1)
  {}

  lemma {:induction false} YearAtLeast(y: int, z: int)
    requires z <= y
    ensures DayFromYear(z) <= DayFromYear(y)
    decreases y - z
  {
    if z < y {
      YearAtLeast(y - 1, z);
      YearLength(y - 1);
    }
  }

  /** The zone's date, formatted. */
  function TodayET(now: int, offset: int): (s: string)
    requires InRange(now) && (offset == -300 || offset == -240)
    ensures IsIso(s)
  {
    LocalDayInRange(now, offset);
    CivilYear(LocalDay(now, offset));
    IsoRoundTrip(Civil(LocalDay(now, offset)));
    Iso(Civil(LocalDay(now, offset)))
  }

  /** Two o'clock on a date, at this offset, as an instant. */
  function FireAt(y: int, m: int, d: int, offset: int): int {
    UtcDay(y, m, d) * DAY + AUTO_DRAFT_HOUR_ET * HOUR - offset * MINUTE
  }

  function NextFire(now: int, zone: Zone): int
    requires InRange(now) && (zone(now) == -300 || zone(now) == -240)
  {
    var t := Parse(TodayET(now, zone(now)));
    var candidate := FireAt(t.y, t.m, t.d, zone(now));
    if candidate <= now then FireAt(t.y, t.m, t.d + 1, zone(candidate + 24 * HOUR)) else candidate
  }

  function MsUntilNextAutoDraftFire(now: int, zone: Zone): int
    requires InRange(now) && (zone(now) == -300 || zone(now) == -240)
  {
    var wait := NextFire(now, zone) - now;
    if wait > 1000 then wait else 1000
  }

  lemma TodayParses(now: int, offset: int)
    requires InRange(now) && (offset == -300 || offset == -240)
    ensures var c := Civil(LocalDay(now, offset));
            Valid(c) && c.y >= 100 && DayOf(c) == LocalDay(now, offset) && Parse(TodayET(now, offset)) == c
    ensures DayFromYear(0) <= LocalDay(now, offset)
  {
    hide Parse, Iso, InRange, Civil, DayOf, DayFromYear, LocalDay;
    LocalDayInRange(now, offset);
    CivilYear(LocalDay(now, offset));
    IsoRoundTrip(Civil(LocalDay(now, offset)));
  }

  /** The formatted date leads back to the local day. */
  lemma TodayIsLocalDay(now: int, offset: int)
    requires InRange(now) && (offset == -300 || offset == -240)
    ensures var t := Parse(TodayET(now, offset));
            UtcDay(t.y, t.m, t.d) == LocalDay(now, offset) && UtcDay(t.y, t.m, t.d + 1) == LocalDay(now, offset) + 1
  {
    hide *;
    TodayParses(now, offset);
    var c := Civil(LocalDay(now, offset));
    UtcDayIs(c);
    UtcDayMoves(c.y, c.m, c.d, 1);
  }

  lemma SinceMidnight(local: int)
    ensures local == local / DAY * DAY + local % DAY && 0 <= local % DAY < DAY
  {}

  /** The fire, in terms of the time since local midnight. */
  lemma NextFireIs(now: int, zone: Zone)
    requires InRange(now) && Eastern(zone)
    ensures var since := (now + zone(now) * MINUTE) % DAY;
            var today := now - since + AUTO_DRAFT_HOUR_ET * HOUR;
            NextFire(now, zone) ==
            if since < AUTO_DRAFT_HOUR_ET * HOUR then today
            else today + DAY + (zone(now) - zone(today + DAY)) * MINUTE
  {
    var offset := zone(now);
    hide TodayET, Parse, UtcDay, InRange, LocalDay;
    var since := (now + offset * MINUTE) % DAY;
    FirstCandidate(now, offset, zone(now - since + AUTO_DRAFT_HOUR_ET * HOUR + DAY));
  }

  /** Two o'clock today and tomorrow, counted from the last local midnight. */
  lemma FirstCandidate(now: int, offset: int, other: int)
    requires InRange(now) && (offset == -300 || offset == -240)
    ensures var t := Parse(TodayET(now, offset));
            var midnight := now - (now + offset * MINUTE) % DAY;
            FireAt(t.y, t.m, t.d, offset) == midnight + AUTO_DRAFT_HOUR_ET * HOUR &&
            FireAt(t.y, t.m, t.d + 1, other) == midnight + DAY + AUTO_DRAFT_HOUR_ET * HOUR + (offset - other) * MINUTE
  {
    hide TodayET, Parse, UtcDay, InRange;
    TodayIsLocalDay(now, offset);
    SinceMidnight(now + offset * MINUTE);
  }

  /** The delay is at least a second and at most 25 hours, so it fits a 32-bit timer. */
  lemma DelayFitsTimer(now: int, zone: Zone)
    requires InRange(now) && Eastern(zone)
    ensures 1000 <= MsUntilNextAutoDraftFire(now, zone) <= 90_000_000 < 0x8000_0000
  {
    NextFireIs(now, zone);
    hide NextFire, InRange;
    var since := (now + zone(now) * MINUTE) % DAY;
    assert zone(now) in {-300, -240} && zone(now - since + AUTO_DRAFT_HOUR_ET * HOUR + DAY) in {-300, -240};
  }

  /** Under an unchanging offset the timer fires at the next two o'clock: on the hour, after now,
      and no more than a day away. */
  lemma FiresAtNextTwo(now: int, offset: int)
    requires InRange(now) && (offset == -300 || offset == -240)
    ensures var fire := NextFire(now, _ => offset);
            (fire + offset * 60_000) % 86_400_000 == 7_200_000 && now < fire <= now + 86_400_000 &&
            MsUntilNextAutoDraftFire(now, _ => offset) == if fire - now < 1000 then 1000 else fire - now
  {
    hide NextFire, InRange;
    NextFireIs(now, _ => offset);
    var local := now + offset * MINUTE;
    SinceMidnight(local);
    Hour(local / DAY);
    Hour(local / DAY + 1);
  }

  lemma Hour(k: int)
    ensures (k * DAY + AUTO_DRAFT_HOUR_ET * HOUR) % DAY == AUTO_DRAFT_HOUR_ET * HOUR
  {
    DivIs(k * DAY + AUTO_DRAFT_HOUR_ET * HOUR, DAY, k, AUTO_DRAFT_HOUR_ET * HOUR);
  }
}
