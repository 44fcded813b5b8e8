/** The store of pending sign-in challenges: an insertion-ordered map with an expiry sweep and
    an eviction loop, each entry good for one attempt. */
module Challenges {
  import opened Options
  import Seqs

  datatype Entry = Entry(key: string, kind: string, expiresAt: int)

  datatype Limits = Limits(ttlMs: nat, max: nat)

  function Swept(pending: seq<Entry>, t: int): seq<Entry> {
    if pending == [] then [] else (if pending[0].expiresAt <= t then [] else [pending[0]]) + Swept(pending[1..], t)
  }

  /** Setting a key that is present keeps its place. */
  function Put(pending: seq<Entry>, e: Entry): seq<Entry> {
    if pending == [] then [e]
    else if pending[0].key == e.key then [e] + pending[1..]
    else [pending[0]] + Put(pending[1..], e)
  }

  function Evicted(pending: seq<Entry>, max: nat): seq<Entry> {
    if |pending| > max then pending[|pending| - max..] else pending
  }

  function Remembered(l: Limits, pending: seq<Entry>, key: string, kind: string, t: int): seq<Entry> {
    Evicted(Put(Swept(pending, t), Entry(key, kind, t + l.ttlMs)), l.max)
  }

  function PlaceOf(pending: seq<Entry>, key: string): (i: nat)
    ensures i <= |pending| && (i < |pending| ==> pending[i].key == key)
    ensures forall k :: 0 <= k < i ==> pending[k].key != key
  {
    if pending == [] || pending[0].key == key then 0 else 1 + PlaceOf(pending[1..], key)
  }

  function Taken(pending: seq<Entry>, key: string): seq<Entry> {
    var i := PlaceOf(pending, key);
    if i == |pending| then pending else pending[..i] + pending[i + 1..]
  }

  predicate Accepts(pending: seq<Entry>, key: string, kind: string, t: int) {
    var i := PlaceOf(pending, key);
    i < |pending| && pending[i].kind == kind && pending[i].expiresAt > t
  }

  class Store {
    const limits: Limits
    var pending: seq<Entry>

    constructor (limits: Limits)
      ensures this.limits == limits && pending == []
    {
      this.limits, pending := limits, [];
    }

    method Sweep(t: int)
      modifies this
      ensures pending == Swept(old(pending), t)
    {
      var i := 0;
      while i < |pending|
        invariant i <= |pending|
        invariant pending[..i] + Swept(pending[i..], t) == Swept(old(pending), t)
        decreases |pending| - i
      {
        assert pending[i..][0] == pending[i] && pending[i..][1..] == pending[i + 1..];
        if pending[i].expiresAt <= t {
          ghost var before := pending;
          pending := pending[..i] + pending[i + 1..];
          assert pending[..i] == before[..i] && pending[i..] == before[i + 1..];
        } else {
          Seqs.Assoc(pending[..i], [pending[i]], Swept(pending[i + 1..], t));
          assert pending[..i] + [pending[i]] == pending[..i + 1];
          i := i + 1;
        }
      }
      assert pending[..|pending|] == pending && pending[|pending|..] == [];
    }

    method Remember(key: string, kind: string, t: int)
      modifies this
      ensures pending == Remembered(limits, old(pending), key, kind, t)
    {
      hide Swept, Put;
      Sweep(t);
      pending := Put(pending, Entry(key, kind, t + limits.ttlMs));
      EvictOldest();
    }

    method EvictOldest()
      modifies this
      ensures pending == Evicted(old(pending), limits.max)
    {
      ghost var before, k := pending, 0;
      while |pending| > limits.max
        invariant k <= |before| && pending == before[k..]
        invariant k == 0 || |pending| >= limits.max
        decreases |pending|
      {
        Seqs.DropDrop(before, k);
        pending, k := pending[1..], k + 1;
      }
    }

    method Take(key: string, kind: string, t: int) returns (ok: bool)
      modifies this
      ensures pending == Taken(old(pending), key) && ok == Accepts(old(pending), key, kind, t)
    {
      var i := PlaceOf(pending, key);
      if i == |pending| {
        return false;
      }
      var rec := pending[i];
      pending := pending[..i] + pending[i + 1..];
      return rec.kind == kind && rec.expiresAt > t;
    }
  }

  // ---- histories --------------------------------------------------------------------------------

  datatype Event = Remember(key: string, kind: string, at: int) | Take(key: string, kind: string, at: int)

  function Next(l: Limits, pending: seq<Entry>, e: Event): seq<Entry> {
    match e
    case Remember(key, kind, at) => Remembered(l, pending, key, kind, at)
    case Take(key, _, _) => Taken(pending, key)
  }

  function After(l: Limits, h: seq<Event>): seq<Entry> {
    if h == [] then [] else Next(l, After(l, h[..|h| - 1]), h[|h| - 1])
  }

  /** The answer that the take at position j gets. */
  predicate AcceptedAt(l: Limits, h: seq<Event>, j: nat)
    requires j < |h| && h[j].Take?
  {
    Accepts(After(l, h[..j]), h[j].key, h[j].kind, h[j].at)
  }

  predicate Ordered(h: seq<Event>) {
    forall i, j :: 0 <= i <= j < |h| ==> h[i].at <= h[j].at
  }

  // ---- the pieces ---------------------------------------------------------------------------------

  predicate UniqueKeys(pending: seq<Entry>) {
    forall i, j :: 0 <= i < j < |pending| ==> pending[i].key != pending[j].key
  }

  lemma {:induction false} SweptAre(pending: seq<Entry>, t: int)
    ensures forall e :: e in Swept(pending, t) <==> e in pending && e.expiresAt > t
    ensures UniqueKeys(pending) ==> UniqueKeys(Swept(pending, t))
  {
    if pending != [] {
      SweptAre(pending[1..], t);
      assert forall e :: e in pending <==> e == pending[0] || e in pending[1..];
    }
  }

  lemma {:induction false} PutAre(pending: seq<Entry>, e: Entry)
    requires UniqueKeys(pending)
    ensures UniqueKeys(Put(pending, e))
    ensures forall x :: x in Put(pending, e) <==> x == e || (x in pending && x.key != e.key)
  {
    if pending != [] && pending[0].key != e.key {
      PutAre(pending[1..], e);
      assert forall x :: x in pending <==> x == pending[0] || x in pending[1..];
    }
  }

  lemma RememberedAre(l: Limits, pending: seq<Entry>, key: string, kind: string, t: int)
    requires UniqueKeys(pending)
    ensures var p := Remembered(l, pending, key, kind, t);
            UniqueKeys(p) && |p| <= l.max &&
            forall x :: x in p ==> x == Entry(key, kind, t + l.ttlMs) || (x in pending && x.key != key && x.expiresAt > t)
  {
    SweptAre(pending, t);
    PutAre(Swept(pending, t), Entry(key, kind, t + l.ttlMs));
    hide Swept, Put;
  }

  lemma TakenAre(pending: seq<Entry>, key: string)
    requires UniqueKeys(pending)
    ensures UniqueKeys(Taken(pending, key)) && |Taken(pending, key)| <= |pending|
    ensures forall x :: x in Taken(pending, key) ==> x in pending && x.key != key
  {}

  /** However many challenges are asked for, no more than the limit are pending, each once. */
  lemma {:induction false} NeverOverfull(l: Limits, h: seq<Event>)
    ensures |After(l, h)| <= l.max && UniqueKeys(After(l, h))
  {
    if h != [] {
      var before, e := After(l, h[..|h| - 1]), h[|h| - 1];
      NeverOverfull(l, h[..|h| - 1]);
      hide Remembered, Taken, UniqueKeys;
      match e {
        case Remember(key, kind, at) => RememberedAre(l, before, key, kind, at);
        case Take(key, _, _) => TakenAre(before, key);
      }
    }
  }

  // ---- soundness --------------------------------------------------------------------------------------

  /** The entry was remembered at position i and no event named its key since. */
  predicate BornAt(l: Limits, h: seq<Event>, e: Entry, i: nat) {
    i < |h| && h[i].Remember? && h[i].key == e.key && h[i].kind == e.kind && e.expiresAt == h[i].at + l.ttlMs &&
    forall k :: i < k < |h| ==> h[k].key != e.key
  }

  lemma {:induction false} EntriesWereBorn(l: Limits, h: seq<Event>, e: Entry)
    requires h != [] && e in After(l, h)
    ensures exists i: nat :: BornAt(l, h, e, i)
  {
    hide *;
    var init, last := h[..|h| - 1], h[|h| - 1];
    assert h[..|h|] == h && h == init + [last];
    AfterStep(l, h, |h|);
    NeverOverfull(l, init);
    NextEntry(l, After(l, init), last, e);
    if e in After(l, init) && e.key != last.key {
      AfterNothing(l);
      EntriesWereBorn(l, init, e);
      var i: nat :| BornAt(l, init, e, i);
      BornLater(l, init, last, e, i);
    } else {
      BornNow(l, h, e);
    }
  }

  lemma BornNow(l: Limits, h: seq<Event>, e: Entry)
    requires h != [] && h[|h| - 1].Remember? && e == Entry(h[|h| - 1].key, h[|h| - 1].kind, h[|h| - 1].at + l.ttlMs)
    ensures BornAt(l, h, e, |h| - 1)
  {}

  lemma BornLater(l: Limits, h: seq<Event>, last: Event, e: Entry, i: nat)
    requires BornAt(l, h, e, i) && last.key != e.key
    ensures BornAt(l, h + [last], e, i)
  {}

  lemma NextEntry(l: Limits, before: seq<Entry>, last: Event, e: Entry)
    requires UniqueKeys(before) && e in Next(l, before, last)
    ensures (e in before && e.key != last.key) || (last.Remember? && e == Entry(last.key, last.kind, last.at + l.ttlMs))
  {
    hide UniqueKeys, Remembered, Taken;
    match last {
      case Remember(key, kind, at) => RememberedAre(l, before, key, kind, at);
      case Take(key, _, _) => TakenAre(before, key);
    }
  }

  /** Every accepted attempt answers a challenge of the same kind that was handed out earlier,
      has not expired, and was neither attempted nor handed out again in between. */
  lemma AcceptedOnce(l: Limits, h: seq<Event>, j: nat)
    requires j < |h| && h[j].Take? && AcceptedAt(l, h, j)
    ensures exists i :: 0 <= i < j && h[i] == Remember(h[j].key, h[j].kind, h[i].at) &&
                        h[j].at < h[i].at + l.ttlMs && forall k :: i < k < j ==> h[k].key != h[j].key
  {
    var pending := After(l, h[..j]);
    var e := pending[PlaceOf(pending, h[j].key)];
    AfterNothing(l);
    EntriesWereBorn(l, h[..j], e);
    var i: nat :| BornAt(l, h[..j], e, i);
    assert h[..j][i] == h[i];
    forall k | i < k < j ensures h[k].key != h[j].key {
      assert h[..j][k] == h[k];
    }
  }

  // ---- completeness ------------------------------------------------------------------------------------

  /** The entry is pending with at most n entries behind it. */
  predicate Holds(pending: seq<Entry>, e: Entry, n: nat) {
    exists i :: 0 <= i < |pending| && pending[i] == e && |pending| - 1 - i <= n
  }

  lemma {:induction false} SweptHolds(pending: seq<Entry>, e: Entry, n: nat, t: int)
    requires Holds(pending, e, n) && e.expiresAt > t
    ensures Holds(Swept(pending, t), e, n)
  {
    var i :| 0 <= i < |pending| && pending[i] == e && |pending| - 1 - i <= n;
    SweptLength(pending[1..], t);
    if i == 0 {
      assert Swept(pending, t)[0] == e;
    } else {
      assert pending[1..][i - 1] == e;
      SweptHolds(pending[1..], e, n, t);
      var k :| 0 <= k < |Swept(pending[1..], t)| && Swept(pending[1..], t)[k] == e && |Swept(pending[1..], t)| - 1 - k <= n;
      var shift := if pending[0].expiresAt <= t then 0 else 1;
      assert Swept(pending, t)[k + shift] == e;
    }
  }

  lemma {:induction false} SweptLength(pending: seq<Entry>, t: int)
    ensures |Swept(pending, t)| <= |pending|
  {
    if pending != [] {
      SweptLength(pending[1..], t);
    }
  }

  lemma {:induction false} PutHolds(pending: seq<Entry>, e: Entry, n: nat, x: Entry)
    requires Holds(pending, e, n) && x.key != e.key
    ensures Holds(Put(pending, x), e, n + 1)
  {
    var i :| 0 <= i < |pending| && pending[i] == e && |pending| - 1 - i <= n;
    PutLength(pending[1..], x);
    if i == 0 {
      assert Put(pending, x)[0] == e;
    } else if pending[0].key == x.key {
      assert Put(pending, x)[i] == e;
    } else {
      assert pending[1..][i - 1] == e;
      PutHolds(pending[1..], e, n, x);
      var rest := Put(pending[1..], x);
      var k :| 0 <= k < |rest| && rest[k] == e && |rest| - 1 - k <= n + 1;
      assert Put(pending, x)[k + 1] == e;
    }
  }

  lemma {:induction false} PutLength(pending: seq<Entry>, x: Entry)
    ensures |Put(pending, x)| <= |pending| + 1
  {
    if pending != [] {
      PutLength(pending[1..], x);
    }
  }

  lemma EvictedHolds(pending: seq<Entry>, e: Entry, n: nat, max: nat)
    requires Holds(pending, e, n) && n < max
    ensures Holds(Evicted(pending, max), e, n)
  {
    var i :| 0 <= i < |pending| && pending[i] == e && |pending| - 1 - i <= n;
    var cut := if |pending| > max then |pending| - max else 0;
    assert Evicted(pending, max)[i - cut] == e;
  }

  lemma TakenHolds(pending: seq<Entry>, e: Entry, n: nat, key: string)
    requires Holds(pending, e, n) && key != e.key
    ensures Holds(Taken(pending, key), e, n)
  {
    var i :| 0 <= i < |pending| && pending[i] == e && |pending| - 1 - i <= n;
    var p := PlaceOf(pending, key);
    if p < |pending| {
      assert Taken(pending, key)[if i < p then i else i - 1] == e;
    }
  }

  function Remembers(h: seq<Event>): nat {
    if h == [] then 0 else Remembers(h[..|h| - 1]) + if h[|h| - 1].Remember? then 1 else 0
  }

  lemma {:induction false} PutFresh(pending: seq<Entry>, e: Entry)
    requires forall x :: x in pending ==> x.key != e.key
    ensures Put(pending, e) == pending + [e]
  {
    if pending != [] {
      PutFresh(pending[1..], e);
      assert [pending[0]] + (pending[1..] + [e]) == pending + [e];
    }
  }

  /** How many entries stand behind a key. */
  function Behind(pending: seq<Entry>, key: string): int {
    |pending| - 1 - PlaceOf(pending, key)
  }

  function Born(l: Limits, e: Event): Entry
    requires e.Remember?
  {
    Entry(e.key, e.kind, e.at + l.ttlMs)
  }

  /** However a challenge was handed out, it is pending right after. */
  lemma HandedOutHolds(l: Limits, before: seq<Entry>, last: Event)
    requires 0 < l.max && last.Remember? && UniqueKeys(before) && |before| <= l.max
    ensures 0 <= Behind(Next(l, before, last), last.key)
    ensures Holds(Next(l, before, last), Born(l, last), Behind(Next(l, before, last), last.key))
    ensures (forall x :: x in before ==> x.key != last.key) ==> Behind(Next(l, before, last), last.key) == 0
  {
    var swept, e, after := Swept(before, last.at), Born(l, last), Next(l, before, last);
    SweptAre(before, last.at);
    SweptLength(before, last.at);
    RememberedAre(l, before, last.key, last.kind, last.at);
    assert after == Evicted(Put(swept, e), l.max);
    hide Next, Swept, Remembered;
    if PlaceOf(swept, e.key) == |swept| {
      NewInPlace(swept, e, l.max);
    } else {
      RepeatedInPlace(swept, e, l.max);
      hide Evicted, UniqueKeys;
    }
  }

  lemma NewInPlace(swept: seq<Entry>, e: Entry, max: nat)
    requires 0 < max && PlaceOf(swept, e.key) == |swept| && UniqueKeys(swept)
    ensures var after := Evicted(Put(swept, e), max); Behind(after, e.key) == 0 && Holds(after, e, 0)
  {
    PutFresh(swept, e);
    PutAre(swept, e);
    var after := Evicted(swept + [e], max);
    assert after[|after| - 1] == e;
    hide Put;
    PlaceIs(after, e);
  }

  lemma RepeatedInPlace(swept: seq<Entry>, e: Entry, max: nat)
    requires PlaceOf(swept, e.key) < |swept| <= max && UniqueKeys(swept)
    ensures var after := Evicted(Put(swept, e), max);
            0 <= Behind(after, e.key) && Holds(after, e, Behind(after, e.key)) && exists x :: x in swept && x.key == e.key
  {
    PutInPlace(swept, e);
    PutAre(swept, e);
    var p := PlaceOf(swept, e.key);
    assert swept[p] in swept && Put(swept, e)[p] == e;
    hide Put;
    PlaceIs(swept[p := e], e);
  }

  lemma PlaceIs(pending: seq<Entry>, e: Entry)
    requires UniqueKeys(pending) && e in pending
    ensures PlaceOf(pending, e.key) < |pending| && pending[PlaceOf(pending, e.key)] == e
  {}

  lemma {:induction false} PutInPlace(pending: seq<Entry>, e: Entry)
    requires PlaceOf(pending, e.key) < |pending|
    ensures Put(pending, e) == pending[PlaceOf(pending, e.key) := e]
  {
    if pending[0].key != e.key {
      PutInPlace(pending[1..], e);
    }
  }

  /** A challenge that is pending with at most b entries behind it stays pending while b and the
      challenges handed out later stay below the limit together, no event names it, and its
      time has not run out. */
  lemma {:induction false} StaysPending(l: Limits, h: seq<Event>, i: nat, m: nat, b: nat)
    requires Ordered(h) && i < m <= |h| && h[i].Remember?
    requires Holds(After(l, h[..i + 1]), Born(l, h[i]), b)
    requires forall k :: i < k < m ==> h[k].key != h[i].key && h[k].at < h[i].at + l.ttlMs
    requires b + Remembers(h[i + 1..m]) < l.max
    ensures Holds(After(l, h[..m]), Born(l, h[i]), b + Remembers(h[i + 1..m]))
    decreases m
  {
    hide After, Remembers, Holds, Next;
    RemembersStep(h, i + 1, m);
    if m > i + 1 {
      AfterStep(l, h, m);
      StaysPending(l, h, i, m - 1, b);
      StepHolds(l, After(l, h[..m - 1]), Born(l, h[i]), b + Remembers(h[i + 1..m - 1]), h[m - 1]);
    }
  }

  lemma RemembersStep(h: seq<Event>, from: nat, m: nat)
    requires from <= m <= |h|
    ensures Remembers(h[from..m]) == if from == m then 0 else Remembers(h[from..m - 1]) + if h[m - 1].Remember? then 1 else 0
  {
    if from < m {
      assert h[from..m][..m - from - 1] == h[from..m - 1] && h[from..m][m - from - 1] == h[m - 1];
    }
  }

  lemma AfterStep(l: Limits, h: seq<Event>, m: nat)
    requires 0 < m <= |h|
    ensures After(l, h[..m]) == Next(l, After(l, h[..m - 1]), h[m - 1])
  {
    assert h[..m][..m - 1] == h[..m - 1] && h[..m][m - 1] == h[m - 1];
  }

  lemma StepHolds(l: Limits, before: seq<Entry>, e: Entry, n: nat, last: Event)
    requires Holds(before, e, n) && last.key != e.key && last.at < e.expiresAt
    requires last.Remember? ==> n + 1 < l.max
    ensures Holds(Next(l, before, last), e, n + if last.Remember? then 1 else 0)
  {
    hide Holds, Swept, Put, Evicted, Taken;
    match last {
      case Remember(key, kind, at) =>
        SweptHolds(before, e, n, at);
        PutHolds(Swept(before, at), e, n, Entry(key, kind, at + l.ttlMs));
        EvictedHolds(Put(Swept(before, at), Entry(key, kind, at + l.ttlMs)), e, n + 1, l.max);
      case Take(key, _, _) => TakenHolds(before, e, n, key);
    }
  }

  /** The attempt that answers a challenge in time, with the kind it was handed out for, is
      accepted while the entries behind its place and the later hand-outs stay below the limit. */
  lemma HandedOutIsAccepted(l: Limits, h: seq<Event>, i: nat, j: nat)
    requires Ordered(h) && i < j < |h| && h[i].Remember? && h[j] == Take(h[i].key, h[i].kind, h[j].at)
    requires forall k :: i < k < j ==> h[k].key != h[i].key
    requires h[j].at < h[i].at + l.ttlMs
    requires Behind(After(l, h[..i + 1]), h[i].key) + Remembers(h[i + 1..j]) < l.max && 0 < l.max
    ensures AcceptedAt(l, h, j)
  {
    hide After, Remembers, Accepts, Next, Holds, Behind, UniqueKeys;
    NeverOverfull(l, h[..i]);
    NeverOverfull(l, h[..j]);
    AfterStep(l, h, i + 1);
    HandedOutHolds(l, After(l, h[..i]), h[i]);
    var b := Behind(After(l, h[..i + 1]), h[i].key);
    StaysPending(l, h, i, j, b);
    HoldsAccepts(After(l, h[..j]), Born(l, h[i]), b + Remembers(h[i + 1..j]), h[j].at);
  }

  /** One that was not pending before has none behind it. */
  lemma FreshIsAccepted(l: Limits, h: seq<Event>, i: nat, j: nat)
    requires Ordered(h) && i < j < |h| && h[i].Remember? && h[j] == Take(h[i].key, h[i].kind, h[j].at)
    requires forall x :: x in After(l, h[..i]) ==> x.key != h[i].key
    requires forall k :: i < k < j ==> h[k].key != h[i].key
    requires h[j].at < h[i].at + l.ttlMs && Remembers(h[i + 1..j]) < l.max
    ensures AcceptedAt(l, h, j)
  {
    hide After, Remembers, Next, Holds, Behind, UniqueKeys;
    NeverOverfull(l, h[..i]);
    AfterStep(l, h, i + 1);
    HandedOutHolds(l, After(l, h[..i]), h[i]);
    HandedOutIsAccepted(l, h, i, j);
  }

  lemma HoldsAccepts(pending: seq<Entry>, e: Entry, n: nat, t: int)
    requires UniqueKeys(pending) && Holds(pending, e, n) && e.expiresAt > t
    ensures Accepts(pending, e.key, e.kind, t)
  {}

  // ---- exactly when a challenge is lost to the limit --------------------------------------------------

  /** The hand-outs from position `from` on whose key was not pending at the time. */
  function NewKeys(l: Limits, h: seq<Event>, from: nat, m: nat): nat
    requires m <= |h|
  {
    if m <= from then 0
    else NewKeys(l, h, from, m - 1) + if h[m - 1].Remember? && h[m - 1].key !in KeysOf(After(l, h[..m - 1])) then 1 else 0
  }

  function KeysOf(pending: seq<Entry>): set<string> {
    set e | e in pending :: e.key
  }

  /** Between hand-out i and attempt j there are only hand-outs of other challenges, and nothing
      that is pending expires. */
  predicate Calm(l: Limits, h: seq<Event>, i: nat, j: nat)
    requires i < j < |h|
  {
    && h[i].Remember?
    && (forall k :: i < k < j ==> h[k].Remember? && h[k].key != h[i].key)
    && h[j].at < h[i].at + l.ttlMs
    && forall e :: e in After(l, h[..i + 1]) ==> h[j].at < e.expiresAt
  }

  predicate AllExpireAfter(pending: seq<Entry>, t: int) {
    forall e :: e in pending ==> t < e.expiresAt
  }

  lemma CalmRepeat(l: Limits, pending: seq<Entry>, e: Entry, x: Entry)
    requires UniqueKeys(pending) && |pending| <= l.max && e in pending && x.key != e.key && x.key in KeysOf(pending)
    ensures var after := Evicted(Put(pending, x), l.max); e in after && Behind(after, e.key) == Behind(pending, e.key)
  {
    PlaceIs(pending, e);
    PutAre(pending, x);
    PutInPlace(pending, x);
    hide Put;
    var p := PlaceOf(pending, e.key);
    assert pending[PlaceOf(pending, x.key) := x][p] == e;
    PlaceIs(pending[PlaceOf(pending, x.key) := x], e);
  }

  lemma CalmNew(l: Limits, pending: seq<Entry>, e: Entry, x: Entry)
    requires UniqueKeys(pending) && |pending| <= l.max && e in pending && x.key != e.key && x.key !in KeysOf(pending)
    ensures var n, after := Behind(pending, e.key) + 1, Evicted(Put(pending, x), l.max);
            if n < l.max then e in after && Behind(after, e.key) == n else e.key !in KeysOf(after)
  {
    PlaceIs(pending, e);
    PutFresh(pending, x);
    PutAre(pending, x);
    var all, p := pending + [x], PlaceOf(pending, e.key);
    assert all[p] == e;
    hide Put, PlaceOf, KeysOf;
    DroppedFront(all, e, p, if |all| > l.max then |all| - l.max else 0);
  }

  lemma DroppedFront(all: seq<Entry>, e: Entry, p: nat, cut: nat)
    requires UniqueKeys(all) && p < |all| && all[p] == e && cut <= |all|
    ensures if cut <= p then e in all[cut..] && Behind(all[cut..], e.key) == |all| - 1 - p else e.key !in KeysOf(all[cut..])
  {
    if cut <= p {
      assert all[cut..][p - cut] == e;
      PlaceIs(all[cut..], e);
    } else {
      assert forall k :: 0 <= k < |all| - cut ==> all[cut..][k] == all[cut + k];
    }
  }

  /** One calm hand-out: a new key pushes one entry more behind e, and e out at the limit. */
  lemma CalmStep(l: Limits, pending: seq<Entry>, e: Entry, last: Event, t: int)
    requires UniqueKeys(pending) && |pending| <= l.max && e in pending && AllExpireAfter(pending, t)
    requires last.Remember? && last.key != e.key && last.at <= t < last.at + l.ttlMs && Behind(pending, e.key) < l.max
    ensures var n := Behind(pending, e.key) + if last.key in KeysOf(pending) then 0 else 1;
            var after := Next(l, pending, last);
            AllExpireAfter(after, t) &&
            if n < l.max then e in after && Behind(after, e.key) == n else e.key !in KeysOf(after)
  {
    var x := Born(l, last);
    SweptKeepsAll(pending, last.at);
    RememberedAre(l, pending, last.key, last.kind, last.at);
    assert Next(l, pending, last) == Evicted(Put(pending, x), l.max);
    hide Put, Evicted, Next, Behind, KeysOf, UniqueKeys;
    if last.key in KeysOf(pending) {
      CalmRepeat(l, pending, e, x);
    } else {
      CalmNew(l, pending, e, x);
    }
  }

  /** With b entries behind it after its hand-out, the challenge stands with b and the new keys
      behind it while these are below the limit together, and is gone from then on. */
  lemma {:induction false} CalmRun(l: Limits, h: seq<Event>, i: nat, j: nat, m: nat)
    requires Ordered(h) && i < m <= j < |h| && Calm(l, h, i, j) && 0 < l.max
    ensures var n := Behind(After(l, h[..i + 1]), h[i].key) + NewKeys(l, h, i + 1, m);
            var after := After(l, h[..m]);
            AllExpireAfter(after, h[j].at) &&
            if n < l.max then Born(l, h[i]) in after && Behind(after, h[i].key) == n else h[i].key !in KeysOf(after)
    decreases m
  {
    hide After, Behind, Next, UniqueKeys, KeysOf;
    var e := Born(l, h[i]);
    NeverOverfull(l, h[..m - 1]);
    AfterStep(l, h, m);
    if m == i + 1 {
      HandedOutHolds(l, After(l, h[..i]), h[i]);
      NeverOverfull(l, h[..m]);
      BehindBound(After(l, h[..m]), e.key);
    } else {
      CalmRun(l, h, i, j, m - 1);
      var before := After(l, h[..m - 1]);
      if Behind(After(l, h[..i + 1]), e.key) + NewKeys(l, h, i + 1, m - 1) < l.max {
        CalmStep(l, before, e, h[m - 1], h[j].at);
      } else {
        AbsentStep(l, before, e.key, h[m - 1], h[j].at);
      }
    }
  }

  lemma BehindBound(pending: seq<Entry>, key: string)
    ensures Behind(pending, key) < |pending| || pending == []
  {}

  lemma AbsentStep(l: Limits, pending: seq<Entry>, key: string, last: Event, t: int)
    requires UniqueKeys(pending) && key !in KeysOf(pending) && AllExpireAfter(pending, t)
    requires last.Remember? && last.key != key && last.at <= t < last.at + l.ttlMs
    ensures key !in KeysOf(Next(l, pending, last)) && AllExpireAfter(Next(l, pending, last), t)
  {
    RememberedAre(l, pending, last.key, last.kind, last.at);
    hide Remembered, UniqueKeys;
  }

  /** In a calm stretch the attempt is accepted exactly when the entries behind the challenge at
      its hand-out and the new keys handed out since stay below the limit together. A challenge
      that was handed out again kept its old place, with all that came after it behind it. */
  lemma LostExactlyToTheLimit(l: Limits, h: seq<Event>, i: nat, j: nat)
    requires Ordered(h) && i < j < |h| && Calm(l, h, i, j) && 0 < l.max
    requires h[j] == Take(h[i].key, h[i].kind, h[j].at)
    ensures AcceptedAt(l, h, j) <==> Behind(After(l, h[..i + 1]), h[i].key) + NewKeys(l, h, i + 1, j) < l.max
  {
    CalmRun(l, h, i, j, j);
    NeverOverfull(l, h[..j]);
    var pending := After(l, h[..j]);
    hide After, Behind, NewKeys, Calm;
    if Born(l, h[i]) in pending {
      PlaceIs(pending, Born(l, h[i]));
    }
  }

  function Named(key: string): Event { Remember(key, "login", 0) }

  function Fresh(key: string): Entry { Entry(key, "login", 100) }

  /** Challenges a, b, then a again, then c, and an attempt at a, all in the same millisecond. */
  function RepeatRun(): seq<Event> {
    [Named("a"), Named("b"), Named("a"), Named("c"), Take("a", "login", 0)]
  }

  lemma RepeatRunStates()
    ensures After(Limits(100, 2), RepeatRun()[..4]) == [Fresh("b"), Fresh("c")]
  {
    var l, h := Limits(100, 2), RepeatRun();
    assert h[..0] == [];
    hide After, Remembered, Swept;
    AfterStep(l, h, 1);
    AfterStep(l, h, 2);
    AfterStep(l, h, 3);
    AfterStep(l, h, 4);
    assert After(l, h[..0]) == [] by { AfterNothing(l); }
    RememberAtZero(l, [], "a");
    RememberAtZero(l, [Fresh("a")], "b");
    RememberAtZero(l, [Fresh("a"), Fresh("b")], "a");
    RememberAtZero(l, [Fresh("a"), Fresh("b")], "c");
    PutTwo();
  }

  lemma AfterNothing(l: Limits)
    ensures After(l, []) == []
  {}

  lemma PutTwo()
    ensures Put([Fresh("a")], Fresh("b")) == [Fresh("a"), Fresh("b")]
    ensures Put([Fresh("a"), Fresh("b")], Fresh("a")) == [Fresh("a"), Fresh("b")]
    ensures Put([Fresh("a"), Fresh("b")], Fresh("c")) == [Fresh("a"), Fresh("b"), Fresh("c")]
  {
    assert Put([Fresh("b")], Fresh("c")) == [Fresh("b"), Fresh("c")];
  }

  /** Handing a pending challenge out again keeps its old place: at a limit of two it is evicted
      by the very next one, although only one was handed out after it. */
  lemma RepeatedMayBeEvicted()
    ensures var l, h := Limits(100, 2), RepeatRun();
            h[4].key == h[2].key && h[4].kind == h[2].kind && h[4].at < h[2].at + l.ttlMs &&
            Remembers([h[3]]) < l.max && !AcceptedAt(l, h, 4)
  {
    RepeatRunStates();
    hide After, Remembered;
  }

  lemma {:induction false} SweptKeepsAll(pending: seq<Entry>, t: int)
    requires forall e :: e in pending ==> e.expiresAt > t
    ensures Swept(pending, t) == pending
  {
    if pending != [] {
      SweptKeepsAll(pending[1..], t);
    }
  }

  lemma RememberAtZero(l: Limits, pending: seq<Entry>, key: string)
    requires forall e :: e in pending ==> e.expiresAt > 0
    ensures Remembered(l, pending, key, "login", 0) == Evicted(Put(pending, Entry(key, "login", l.ttlMs)), l.max)
  {
    SweptKeepsAll(pending, 0);
  }
}
