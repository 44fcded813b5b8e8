/** What the ZIP reader answers on arbitrary bytes, said of the bytes alone: it finds a member
    exactly when an end record, a chain of directory headers and a local header bear it out. */
module ZipAnswers {
  import opened Options
  import opened Zip

  /** The little-endian value of some bytes. */
  function Le(bs: Bytes): nat {
    if bs == [] then 0 else bs[0] as nat + 256 * Le(bs[1..])
  }

  predicate Stands(b: Bytes, at: int, sig: Bytes) {
    0 <= at <= at + |sig| <= |b| && b[at..at + |sig|] == sig
  }

  /** The signatures of sections 4.3.16, 4.3.12 and 4.3.7 of PKWARE's APPNOTE.TXT. */
  const END_MARK: Bytes := [0x50, 0x4B, 0x05, 0x06]
  const CENTRAL_MARK: Bytes := [0x50, 0x4B, 0x01, 0x02]
  const LOCAL_MARK: Bytes := [0x50, 0x4B, 0x03, 0x04]

  /** The last end record: 22 bytes that start with its mark, no more than a comment's length
      (65535 bytes) before the end of the file. */
  ghost predicate LastEnd(b: Bytes, e: int) {
    && Stands(b, e, END_MARK) && e + 22 <= |b| <= e + 22 + 65535
    && forall k :: e < k <= |b| - 22 ==> !Stands(b, k, END_MARK)
  }

  function NameAt(b: Bytes, p: nat): Bytes
    requires p + 46 <= |b|
  {
    var from, to := p + 46, p + 46 + Le(b[p + 28..p + 30]);
    b[from..if to < |b| then to else |b|]
  }

  /** From the directory header at p on, the first of at most n headers that bears the name is the
      one at q, and each header on the way is a whole one. */
  ghost predicate Leads(b: Bytes, p: nat, n: nat, name: string, decode: Decoder, q: nat)
    decreases n
  {
    && n > 0 && p + 46 <= |b| && Stands(b, p, CENTRAL_MARK)
    && if decode(NameAt(b, p)) == name then q == p
       else Leads(b, p + 46 + Le(b[p + 28..p + 30]) + Le(b[p + 30..p + 32]) + Le(b[p + 32..p + 34]), n - 1, name, decode, q)
  }

  /** The data of the local header at `at`: stored (0) or deflated (8), of the size given. */
  predicate Holds(b: Bytes, at: nat, kind: nat, size: nat, inflate: Inflater, data: Bytes) {
    && at + 30 <= |b| && Stands(b, at, LOCAL_MARK)
    && var start := at + 30 + Le(b[at + 26..at + 28]) + Le(b[at + 28..at + 30]);
       start + size <= |b| &&
       ((kind == 0 && data == b[start..start + size]) || (kind == 8 && inflate(b[start..start + size]) == Some(data)))
  }

  /** The header at q is the one that the directory leads to, and its local header has the data. */
  ghost predicate Found(b: Bytes, p: nat, n: nat, name: string, decode: Decoder, inflate: Inflater, data: Bytes, q: nat) {
    && Leads(b, p, n, name, decode, q) && q + 46 <= |b|
    && Holds(b, Le(b[q + 42..q + 46]), Le(b[q + 10..q + 12]), Le(b[q + 20..q + 24]), inflate, data)
  }

  ghost predicate Bears(b: Bytes, name: string, decode: Decoder, inflate: Inflater, data: Bytes, e: nat, q: nat) {
    && LastEnd(b, e)
    && var (size, offset) := (Le(b[e + 12..e + 16]), Le(b[e + 16..e + 20]));
       offset + size <= |b| && Found(b, offset, Le(b[e + 10..e + 12]), name, decode, inflate, data, q)
  }

  lemma ReadsLe(b: Bytes, i: nat)
    ensures i + 2 <= |b| ==> U16(b, i) == Le(b[i..i + 2])
    ensures i + 4 <= |b| ==> U32(b, i) == Le(b[i..i + 4])
  {
    if i + 2 <= |b| {
      LeTwo(b, i);
    }
    if i + 4 <= |b| {
      LeTwo(b, i);
      LeTwo(b, i + 2);
      var s := b[i..i + 4];
      assert s[1..][1..] == b[i + 2..i + 4];
      assert Le(s) == s[0] as nat + 256 * Le(s[1..]);
      assert Le(s[1..]) == s[1] as nat + 256 * Le(s[1..][1..]);
    }
  }

  lemma LeTwo(b: Bytes, i: nat)
    requires i + 2 <= |b|
    ensures Le(b[i..i + 2]) == b[i] as nat + 256 * b[i + 1] as nat
  {
    var s := b[i..i + 2];
    assert Le(s) == s[0] as nat + 256 * Le(s[1..]);
    assert Le(s[1..]) == s[1] as nat + 256 * Le(s[1..][1..]);
    assert s[1..][1..] == [] && Le([]) == 0;
  }

  lemma Unique(w: nat, x: nat, y: nat, z: nat, w': nat, x': nat, y': nat, z': nat)
    requires w < 256 && x < 256 && y < 256 && z < 256 && w' < 256 && x' < 256 && y' < 256 && z' < 256
    requires (w + 256 * x) + 65536 * (y + 256 * z) == (w' + 256 * x') + 65536 * (y' + 256 * z')
    ensures w == w' && x == x' && y == y' && z == z'
  {}

  lemma MarkStands(b: Bytes, at: nat)
    requires at + 4 <= |b|
    ensures Stands(b, at, END_MARK) <==> U32(b, at) == EOCD_SIG
    ensures Stands(b, at, CENTRAL_MARK) <==> U32(b, at) == CDH_SIG
    ensures Stands(b, at, LOCAL_MARK) <==> U32(b, at) == LFH_SIG
  {
    var s := b[at..at + 4];
    assert s == [b[at], b[at + 1], b[at + 2], b[at + 3]];
    MarkValue(b, at, 5, 6, EOCD_SIG);
    MarkValue(b, at, 1, 2, CDH_SIG);
    MarkValue(b, at, 3, 4, LFH_SIG);
  }

  lemma MarkValue(b: Bytes, at: nat, y: byte, z: byte, v: int)
    requires at + 4 <= |b| && y < 16 && z < 16 && v == 0x4B50 + 0x1_0000 * (y as int + 256 * z as int)
    ensures U32(b, at) == v <==> [b[at], b[at + 1], b[at + 2], b[at + 3]] == [0x50, 0x4B, y, z]
  {
    if U32(b, at) == v {
      Unique(b[at] as nat, b[at + 1] as nat, b[at + 2] as nat, b[at + 3] as nat, 0x50, 0x4B, y as nat, z as nat);
    }
  }

  lemma EndIs(b: Bytes)
    requires |b| >= 22
    ensures FindEnd(b).Some? ==> LastEnd(b, FindEnd(b).value)
    ensures forall e :: LastEnd(b, e) ==> FindEnd(b) == Some(e)
  {
    LastSignatureIsLast(b, |b| - 22, SearchFloor(b));
    hide U32, LastSignature;
    forall k: nat | k <= |b| - 22 ensures Stands(b, k, END_MARK) <==> U32(b, k) == EOCD_SIG {
      MarkStands(b, k);
    }
    hide Stands;
  }

  /** Where the directory header behind the one at p starts. */
  function NextHeader(b: Bytes, p: nat): nat
    requires p + 46 <= |b|
  {
    p + 46 + Le(b[p + 28..p + 30]) + Le(b[p + 30..p + 32]) + Le(b[p + 32..p + 34])
  }

  lemma WalkStepIs(b: Bytes, p: nat, n: nat, name: string, decode: Decoder, inflate: Inflater)
    ensures var r := WalkDirectory(b, p, n, name, decode, inflate);
            if n == 0 || p + 46 > |b| || !Stands(b, p, CENTRAL_MARK) then r == None
            else if decode(NameAt(b, p)) == name then
              r == LocalData(b, U32(b, p + 42), U16(b, p + 10), U32(b, p + 20), inflate)
            else r == WalkDirectory(b, NextHeader(b, p), n - 1, name, decode, inflate)
  {
    hide U16, U32, Le, LocalData, Stands;
    if n > 0 && p + 46 <= |b| {
      MarkStands(b, p);
      ReadsLe(b, p + 28);
      ReadsLe(b, p + 30);
      ReadsLe(b, p + 32);
      assert Clamped(b, p + 46, p + 46 + U16(b, p + 28)) == NameAt(b, p);
    }
  }

  lemma FoundStep(b: Bytes, p: nat, n: nat, name: string, decode: Decoder, inflate: Inflater, data: Bytes, q: nat)
    ensures Found(b, p, n, name, decode, inflate, data, q) <==>
            && n > 0 && p + 46 <= |b| && Stands(b, p, CENTRAL_MARK)
            && if decode(NameAt(b, p)) == name then
                 q == p && Holds(b, Le(b[p + 42..p + 46]), Le(b[p + 10..p + 12]), Le(b[p + 20..p + 24]), inflate, data)
               else Found(b, NextHeader(b, p), n - 1, name, decode, inflate, data, q)
  {
    hide Stands, Le, Holds, NameAt;
  }

  lemma {:induction false} WalkFinds(b: Bytes, p: nat, n: nat, name: string, decode: Decoder, inflate: Inflater, data: Bytes) returns (q: nat)
    requires WalkDirectory(b, p, n, name, decode, inflate) == Some(data)
    ensures Found(b, p, n, name, decode, inflate, data, q)
    decreases n
  {
    hide *;
    WalkStepIs(b, p, n, name, decode, inflate);
    if decode(NameAt(b, p)) == name {
      q := p;
      LocalIs(b, p, inflate, data);
    } else {
      q := WalkFinds(b, NextHeader(b, p), n - 1, name, decode, inflate, data);
    }
    FoundStep(b, p, n, name, decode, inflate, data, q);
  }

  lemma {:induction false} FoundWalks(b: Bytes, p: nat, n: nat, name: string, decode: Decoder, inflate: Inflater, data: Bytes, q: nat)
    requires Found(b, p, n, name, decode, inflate, data, q)
    ensures WalkDirectory(b, p, n, name, decode, inflate) == Some(data)
    decreases n
  {
    hide *;
    WalkStepIs(b, p, n, name, decode, inflate);
    FoundStep(b, p, n, name, decode, inflate, data, q);
    if decode(NameAt(b, p)) == name {
      LocalIs(b, p, inflate, data);
    } else {
      FoundWalks(b, NextHeader(b, p), n - 1, name, decode, inflate, data, q);
    }
  }

  lemma LocalIs(b: Bytes, p: nat, inflate: Inflater, data: Bytes)
    requires p + 46 <= |b|
    ensures LocalData(b, U32(b, p + 42), U16(b, p + 10), U32(b, p + 20), inflate) == Some(data) <==>
            Holds(b, Le(b[p + 42..p + 46]), Le(b[p + 10..p + 12]), Le(b[p + 20..p + 24]), inflate, data)
  {
    hide *;
    ReadsLe(b, p + 42);
    ReadsLe(b, p + 10);
    ReadsLe(b, p + 20);
    LocalDataIs(b, U32(b, p + 42), U16(b, p + 10), U32(b, p + 20), inflate, data);
  }

  lemma LocalDataIs(b: Bytes, at: nat, kind: nat, size: nat, inflate: Inflater, data: Bytes)
    ensures LocalData(b, at, kind, size, inflate) == Some(data) <==> Holds(b, at, kind, size, inflate, data)
  {
    hide U16, U32, Le, Stands;
    if at + 30 <= |b| {
      MarkStands(b, at);
      ReadsLe(b, at + 26);
      ReadsLe(b, at + 28);
    }
  }

  /** On any bytes at all the reader gives some data for a name exactly when the last end record
      points into the file at a chain of directory headers, the first of which with that name
      points at a local header with that data, stored or deflated, inside the file. */
  lemma AnswersExactly(b: Bytes, name: string, decode: Decoder, inflate: Inflater, data: Bytes)
    ensures Entry(b, name, decode, inflate) == Some(data) <==> exists e: nat, q: nat :: Bears(b, name, decode, inflate, data, e, q)
  {
    hide *;
    if Entry(b, name, decode, inflate) == Some(data) {
      var e, q := AnswerIsBorne(b, name, decode, inflate, data);
    }
    forall e: nat, q: nat | Bears(b, name, decode, inflate, data, e, q) ensures Entry(b, name, decode, inflate) == Some(data) {
      BorneIsAnswered(b, name, decode, inflate, data, e, q);
    }
  }

  lemma AnswerIsBorne(b: Bytes, name: string, decode: Decoder, inflate: Inflater, data: Bytes) returns (e: nat, q: nat)
    requires Entry(b, name, decode, inflate) == Some(data)
    ensures Bears(b, name, decode, inflate, data, e, q)
  {
    assert |b| >= 22;
    hide *;
    EndIs(b);
    EntryIs(b, name, decode, inflate);
    e := FindEnd(b).value;
    q := WalkFinds(b, Le(b[e + 16..e + 20]), Le(b[e + 10..e + 12]), name, decode, inflate, data);
    BearsIs(b, name, decode, inflate, data, e, q);
  }

  lemma BorneIsAnswered(b: Bytes, name: string, decode: Decoder, inflate: Inflater, data: Bytes, e: nat, q: nat)
    requires Bears(b, name, decode, inflate, data, e, q)
    ensures Entry(b, name, decode, inflate) == Some(data)
  {
    hide *;
    BearsLast(b, name, decode, inflate, data, e, q);
    EndIs(b);
    EntryIs(b, name, decode, inflate);
    BearsIs(b, name, decode, inflate, data, e, q);
    FoundWalks(b, Le(b[e + 16..e + 20]), Le(b[e + 10..e + 12]), name, decode, inflate, data, q);
  }

  lemma EntryIs(b: Bytes, name: string, decode: Decoder, inflate: Inflater)
    requires |b| >= 22
    ensures FindEnd(b).None? ==> Entry(b, name, decode, inflate) == None
    ensures FindEnd(b).Some? ==>
              var e := FindEnd(b).value;
              e + 22 <= |b| &&
              Entry(b, name, decode, inflate) ==
              if Le(b[e + 16..e + 20]) + Le(b[e + 12..e + 16]) > |b| then None
              else WalkDirectory(b, Le(b[e + 16..e + 20]), Le(b[e + 10..e + 12]), name, decode, inflate)
  {
    hide U16, U32, Le, WalkDirectory, LastSignature;
    if FindEnd(b).Some? {
      var e := FindEnd(b).value;
      ReadsLe(b, e + 10);
      ReadsLe(b, e + 12);
      ReadsLe(b, e + 16);
    }
  }

  lemma BearsIs(b: Bytes, name: string, decode: Decoder, inflate: Inflater, data: Bytes, e: nat, q: nat)
    requires LastEnd(b, e) && e + 22 <= |b|
    ensures Bears(b, name, decode, inflate, data, e, q) <==>
            Le(b[e + 16..e + 20]) + Le(b[e + 12..e + 16]) <= |b| &&
            Found(b, Le(b[e + 16..e + 20]), Le(b[e + 10..e + 12]), name, decode, inflate, data, q)
  {
    hide LastEnd, Le, Found;
  }

  lemma BearsLast(b: Bytes, name: string, decode: Decoder, inflate: Inflater, data: Bytes, e: nat, q: nat)
    requires Bears(b, name, decode, inflate, data, e, q)
    ensures LastEnd(b, e) && e + 22 <= |b|
  {
    hide Found;
  }
}
