/** The track-pack cache over the facts store: packs are filed under a key made of the track
    and a hash of the facts stored at that moment. */
module TrackPacks {
  import opened Options
  import opened CanonicalJson
  import opened CanonicalEquality

  type Hash = Chars -> Chars

  datatype Kind = Resume | Experience | CoverLetter

  datatype Pack = Pack(track: Chars, factsHash: Chars, blocks: Json)

  /** A fact kind that was never set counts as null. */
  function CurrentFacts(docs: map<Kind, Json>): Facts {
    Facts(if Resume in docs then docs[Resume] else Null,
          if Experience in docs then docs[Experience] else Null,
          if CoverLetter in docs then docs[CoverLetter] else Null)
  }

  function FactsHash(docs: map<Kind, Json>, sha: Hash): Chars {
    sha(FactsPreimage(CurrentFacts(docs)))
  }

  function CacheKey(track: Chars, docs: map<Kind, Json>, sha: Hash): Chars {
    track + [58] + FactsHash(docs, sha)
  }

  datatype Op =
    | PutFacts(kind: Kind, record: Json)
    | PutPack(track: Chars, blocks: Json)
    | GetPack(track: Chars)

  datatype State = State(docs: map<Kind, Json>, packs: map<Chars, Pack>)

  function Next(s: State, op: Op, tracks: set<Chars>, sha: Hash): State {
    match op
    case PutFacts(kind, record) => s.(docs := s.docs[kind := record])
    case PutPack(track, blocks) =>
      if track !in tracks then s
      else s.(packs := s.packs[CacheKey(track, s.docs, sha) := Pack(track, FactsHash(s.docs, sha), blocks)])
    case GetPack(_) => s
  }

  function Got(s: State, track: Chars, tracks: set<Chars>, sha: Hash): Option<Pack> {
    var key := CacheKey(track, s.docs, sha);
    if track in tracks && key in s.packs then Some(s.packs[key]) else None
  }

  /** The server's two stores behind the fact and track-pack routes. */
  class Cache {
    var docs: map<Kind, Json>
    var packs: map<Chars, Pack>

    function Abstract(): State
      reads this
    {
      State(docs, packs)
    }

    method PutFactsDoc(kind: Kind, record: Json, tracks: set<Chars>, sha: Hash)
      modifies this
      ensures Abstract() == Next(old(Abstract()), PutFacts(kind, record), tracks, sha)
    {
      docs := docs[kind := record];
    }

    method PutTrackPack(track: Chars, blocks: Json, tracks: set<Chars>, sha: Hash) returns (stored: bool)
      modifies this
      ensures Abstract() == Next(old(Abstract()), PutPack(track, blocks), tracks, sha)
      ensures stored <==> track in tracks
    {
      var factsHash := FactsHash(docs, sha);
      if track !in tracks {
        return false;
      }
      packs := packs[track + [58] + factsHash := Pack(track, factsHash, blocks)];
      return true;
    }

    method GetTrackPack(track: Chars, tracks: set<Chars>, sha: Hash) returns (pack: Option<Pack>)
      ensures pack == Got(Abstract(), track, tracks, sha)
    {
      if track !in tracks {
        return None;
      }
      var key := CacheKey(track, docs, sha);
      pack := if key in packs then Some(packs[key]) else None;
    }
  }

  // ---- runs -------------------------------------------------------------------------

  predicate IsRun(ss: seq<State>, ops: seq<Op>, tracks: set<Chars>, sha: Hash) {
    && |ss| == |ops| + 1 && ss[0] == State(map[], map[])
    && forall i :: 0 <= i < |ops| ==> ss[i + 1] == Next(ss[i], ops[i], tracks, sha)
  }

  predicate ValidDocs(docs: map<Kind, Json>) {
    forall k :: k in docs ==> CanonicalJson.Valid(docs[k])
  }

  lemma {:induction false} DocsStayValid(ss: seq<State>, ops: seq<Op>, tracks: set<Chars>, sha: Hash, k: nat)
    requires IsRun(ss, ops, tracks, sha) && k < |ss|
    requires forall i :: 0 <= i < |ops| && ops[i].PutFacts? ==> CanonicalJson.Valid(ops[i].record)
    ensures ValidDocs(ss[k].docs)
    decreases k
  {
    hide CanonicalJson.Valid, CacheKey, FactsHash;
    if k > 0 {
      DocsStayValid(ss, ops, tracks, sha, k - 1);
      assert ss[k] == Next(ss[k - 1], ops[k - 1], tracks, sha);
    }
  }

  /** Tracks are enumerated names without a colon. */
  predicate NoColon(t: Chars) {
    forall i :: 0 <= i < |t| ==> t[i] != 58
  }

  predicate PutsUnder(s: State, op: Op, key: Chars, tracks: set<Chars>, sha: Hash) {
    op.PutPack? && op.track in tracks && CacheKey(op.track, s.docs, sha) == key
  }

  /** The pack standing under a key is that of the latest put under it. */
  lemma {:induction false} PackHasPut(ss: seq<State>, ops: seq<Op>, tracks: set<Chars>, sha: Hash, k: nat, key: Chars)
    returns (j: nat)
    requires IsRun(ss, ops, tracks, sha) && k < |ss| && key in ss[k].packs
    ensures j < k && PutsUnder(ss[j], ops[j], key, tracks, sha)
    ensures forall m :: j < m < k ==> !PutsUnder(ss[m], ops[m], key, tracks, sha)
    ensures ss[k].packs[key] == Pack(ops[j].track, FactsHash(ss[j].docs, sha), ops[j].blocks)
    decreases k
  {
    hide CacheKey, FactsHash;
    var n := k - 1;
    assert ss[n + 1] == Next(ss[n], ops[n], tracks, sha);
    if PutsUnder(ss[n], ops[n], key, tracks, sha) {
      j := n;
    } else {
      j := PackHasPut(ss, ops, tracks, sha, n, key);
    }
  }

  lemma KeySplits(t1: Chars, h1: Chars, t2: Chars, h2: Chars)
    requires NoColon(t1) && NoColon(t2) && t1 + [58] + h1 == t2 + [58] + h2
    ensures t1 == t2 && h1 == h2
  {
    var w := t1 + [58] + h1;
    assert w[|t1|] == 58 && w[|t2|] == 58;
    assert forall k :: 0 <= k < |t1| ==> w[k] == t1[k];
    assert forall k :: 0 <= k < |t2| ==> w[k] == t2[k];
    Peel(t1 + [58], h1, t2 + [58], h2);
    Peel(t1, [58], t2, [58]);
  }

  /** The record that the first k operations left for a kind: the last one put, or null. */
  function LatestFacts(ops: seq<Op>, k: nat, kind: Kind): Json
    requires k <= |ops|
  {
    if k == 0 then Null
    else if ops[k - 1].PutFacts? && ops[k - 1].kind == kind then ops[k - 1].record
    else LatestFacts(ops, k - 1, kind)
  }

  /** After j and after k operations every kind holds the same record, up to key order. */
  predicate SameLatest(ops: seq<Op>, j: nat, k: nat)
    requires j <= |ops| && k <= |ops|
  {
    forall kind: Kind :: Equiv(LatestFacts(ops, j, kind), LatestFacts(ops, k, kind))
  }

  function FactsAt(ops: seq<Op>, k: nat): Facts
    requires k <= |ops|
  {
    Facts(LatestFacts(ops, k, Resume), LatestFacts(ops, k, Experience), LatestFacts(ops, k, CoverLetter))
  }

  lemma {:induction false} FactsAreLatest(ss: seq<State>, ops: seq<Op>, tracks: set<Chars>, sha: Hash, k: nat)
    requires IsRun(ss, ops, tracks, sha) && k < |ss|
    ensures CurrentFacts(ss[k].docs) == FactsAt(ops, k)
    decreases k
  {
    hide CacheKey, FactsHash;
    if k > 0 {
      FactsAreLatest(ss, ops, tracks, sha, k - 1);
      assert ss[k] == Next(ss[k - 1], ops[k - 1], tracks, sha);
    }
  }

  lemma SameFactsLatest(ops: seq<Op>, j: nat, k: nat)
    requires j <= |ops| && k <= |ops|
    ensures SameFacts(FactsAt(ops, j), FactsAt(ops, k)) <==> SameLatest(ops, j, k)
  {
    hide Equiv, LatestFacts;
    forall kind: Kind | SameFacts(FactsAt(ops, j), FactsAt(ops, k))
      ensures Equiv(LatestFacts(ops, j, kind), LatestFacts(ops, k, kind))
    {
      match kind
      case Resume =>
      case Experience =>
      case CoverLetter =>
    }
  }

  /** A pack that a lookup returns was put for the same track when every kind of facts held the
      same record as now, up to key order; the only other possibility is a collision of the hash
      on two different texts. */
  lemma NeverStale(ss: seq<State>, ops: seq<Op>, tracks: set<Chars>, sha: Hash, k: nat, track: Chars) returns (j: nat)
    requires IsRun(ss, ops, tracks, sha) && k < |ss| && Got(ss[k], track, tracks, sha).Some?
    requires forall i :: 0 <= i < |ops| && ops[i].PutFacts? ==> CanonicalJson.Valid(ops[i].record)
    requires forall t :: t in tracks ==> NoColon(t)
    ensures j < k && ops[j].PutPack? && ops[j].track == track
    ensures forall m :: j < m < k ==> !PutsUnder(ss[m], ops[m], CacheKey(track, ss[k].docs, sha), tracks, sha)
    ensures Got(ss[k], track, tracks, sha).value.blocks == ops[j].blocks
    ensures var (p, q) := (FactsPreimage(FactsAt(ops, j)), FactsPreimage(FactsAt(ops, k)));
            SameLatest(ops, j, k) || (p != q && sha(p) == sha(q))
  {
    j := PackHasPut(ss, ops, tracks, sha, k, CacheKey(track, ss[k].docs, sha));
    KeySplits(ops[j].track, FactsHash(ss[j].docs, sha), track, FactsHash(ss[k].docs, sha));
    DocsStayValid(ss, ops, tracks, sha, j);
    DocsStayValid(ss, ops, tracks, sha, k);
    FactsAreLatest(ss, ops, tracks, sha, j);
    FactsAreLatest(ss, ops, tracks, sha, k);
    hide FactsPreimage, SameFacts, SameLatest, LatestFacts;
    FactsPreimageIff(FactsAt(ops, j), FactsAt(ops, k));
    SameFactsLatest(ops, j, k);
  }

  /** And the cache does hit: after a put, a lookup for that track under equivalent facts, with
      no put for the track in between, returns the blocks that were put. */
  lemma {:induction false} HitsWhileFactsMatch(ss: seq<State>, ops: seq<Op>, tracks: set<Chars>, sha: Hash, j: nat, k: nat)
    requires IsRun(ss, ops, tracks, sha) && j < k < |ss| && ops[j].PutPack? && ops[j].track in tracks
    requires forall i :: 0 <= i < |ops| && ops[i].PutFacts? ==> CanonicalJson.Valid(ops[i].record)
    requires forall t :: t in tracks ==> NoColon(t)
    requires forall m :: j < m < k && ops[m].PutPack? ==> ops[m].track != ops[j].track
    requires SameLatest(ops, j, k)
    ensures Got(ss[k], ops[j].track, tracks, sha).Some?
    ensures Got(ss[k], ops[j].track, tracks, sha).value.blocks == ops[j].blocks
  {
    DocsStayValid(ss, ops, tracks, sha, j);
    DocsStayValid(ss, ops, tracks, sha, k);
    FactsAreLatest(ss, ops, tracks, sha, j);
    FactsAreLatest(ss, ops, tracks, sha, k);
    SameFactsLatest(ops, j, k);
    FactsPreimageIff(FactsAt(ops, j), FactsAt(ops, k));
    PackStays(ss, ops, tracks, sha, j, k);
  }

  lemma {:induction false} PackStays(ss: seq<State>, ops: seq<Op>, tracks: set<Chars>, sha: Hash, j: nat, k: nat)
    requires IsRun(ss, ops, tracks, sha) && j < k < |ss| && ops[j].PutPack? && ops[j].track in tracks
    requires forall t :: t in tracks ==> NoColon(t)
    requires forall m :: j < m < k && ops[m].PutPack? ==> ops[m].track != ops[j].track
    ensures var key := CacheKey(ops[j].track, ss[j].docs, sha);
            key in ss[k].packs && ss[k].packs[key].blocks == ops[j].blocks
    decreases k
  {
    hide FactsHash;
    var n := k - 1;
    assert ss[n + 1] == Next(ss[n], ops[n], tracks, sha);
    if n > j {
      PackStays(ss, ops, tracks, sha, j, n);
      var h1, h2 := FactsHash(ss[n].docs, sha), FactsHash(ss[j].docs, sha);
      if ops[n].PutPack? && ops[n].track in tracks && ops[n].track + [58] + h1 == ops[j].track + [58] + h2 {
        KeySplits(ops[n].track, h1, ops[j].track, h2);
      }
    }
  }
}
