/** The dependency-free ZIP reader of the page gate: a backward scan for the end record,
    a forward walk of the central directory, and one local header.

    Text decoding and inflating are parameters: the reader compares decoded names and
    hands compressed bytes to the platform. */
module Zip {
  import opened Options
  import Seqs

  newtype byte = x: int | 0 <= x < 256

  type Bytes = seq<byte>
  type Decoder = Bytes -> string
  type Inflater = Bytes -> Option<Bytes>

  const EOCD_SIG: int := 0x06054b50
  const CDH_SIG: int := 0x02014b50
  const LFH_SIG: int := 0x04034b50
  const EOCD_SEARCH: nat := 65557

  /** readUInt16LE and readUInt32LE; out-of-range reads throw, so being in range is a precondition. */
  function U16(b: Bytes, i: nat): (v: nat)
    requires i + 2 <= |b|
    ensures v < 0x1_0000
  {
    b[i] as nat + 256 * b[i + 1] as nat
  }

  function U32(b: Bytes, i: nat): (v: nat)
    requires i + 4 <= |b|
    ensures v < 0x1_0000_0000
  {
    U16(b, i) + 0x1_0000 * U16(b, i + 2)
  }

  // ---- the reader as functions ---------------------------------------------------

  /** The position of the end record: the last signature at or before `i`, down to `floor`. */
  function LastSignature(b: Bytes, i: int, floor: nat): (r: Option<nat>)
    requires i + 4 <= |b|
    ensures r.Some? ==> floor <= r.value <= i
    decreases i - floor
  {
    if i < floor then None
    else if U32(b, i) == EOCD_SIG then Some(i)
    else LastSignature(b, i - 1, floor)
  }

  lemma {:induction false} LastSignatureIsLast(b: Bytes, i: int, floor: nat)
    requires i + 4 <= |b|
    ensures var r := LastSignature(b, i, floor);
            && (r.Some? ==> U32(b, r.value) == EOCD_SIG && forall k :: r.value < k <= i ==> U32(b, k) != EOCD_SIG)
            && (r.None? ==> forall k :: floor <= k <= i ==> U32(b, k) != EOCD_SIG)
    decreases i - floor
  {
    if i >= floor && U32(b, i) != EOCD_SIG {
      LastSignatureIsLast(b, i - 1, floor);
    }
  }

  function SearchFloor(b: Bytes): nat {
    if |b| >= EOCD_SEARCH then |b| - EOCD_SEARCH else 0
  }

  function FindEnd(b: Bytes): Option<nat>
    requires |b| >= 22
  {
    LastSignature(b, |b| - 22, SearchFloor(b))
  }

  /** A slice that, like Buffer.toString and subarray, stops at the end of the buffer. */
  function Clamped(b: Bytes, from: nat, to: nat): Bytes
    requires from <= to && from <= |b|
  {
    if to <= |b| then b[from..to] else b[from..]
  }

  function LocalData(b: Bytes, at: nat, method_: nat, size: nat, inflate: Inflater): Option<Bytes> {
    if at + 30 > |b| || U32(b, at) != LFH_SIG then None
    else
      var start := at + 30 + U16(b, at + 26) + U16(b, at + 28);
      if start + size > |b| then None
      else if method_ == 0 then Some(b[start..start + size])
      else if method_ == 8 then inflate(b[start..start + size])
      else None
  }

  function WalkDirectory(b: Bytes, p: nat, entries: nat, name: string, decode: Decoder, inflate: Inflater): Option<Bytes>
    decreases entries
  {
    if entries == 0 || p + 46 > |b| || U32(b, p) != CDH_SIG then None
    else
      var nameLen := U16(b, p + 28);
      if decode(Clamped(b, p + 46, p + 46 + nameLen)) == name then
        LocalData(b, U32(b, p + 42), U16(b, p + 10), U32(b, p + 20), inflate)
      else
        WalkDirectory(b, p + 46 + nameLen + U16(b, p + 30) + U16(b, p + 32), entries - 1, name, decode, inflate)
  }

  function Entry(b: Bytes, name: string, decode: Decoder, inflate: Inflater): Option<Bytes> {
    if |b| < 22 then None
    else
      var end := FindEnd(b);
      if end.None? || U32(b, end.value + 16) + U32(b, end.value + 12) > |b| then None
      else WalkDirectory(b, U32(b, end.value + 16), U16(b, end.value + 10), name, decode, inflate)
  }

  // ---- the reader as it runs --------------------------------------------------------

  /** The backward scan: from the last place an end record can start, down to the search floor. */
  method ScanForEnd(b: Bytes) returns (eocd: int)
    requires |b| >= 22
    ensures eocd == if FindEnd(b).None? then -1 else FindEnd(b).value
  {
    var searchFloor := if |b| >= EOCD_SEARCH then |b| - EOCD_SEARCH else 0;
    eocd := -1;
    var i := |b| - 22;
    while i >= searchFloor
      invariant searchFloor - 1 <= i <= |b| - 22 && eocd == -1
      invariant FindEnd(b) == LastSignature(b, i, searchFloor)
    {
      if U32(b, i) == EOCD_SIG {
        return i;
      }
      i := i - 1;
    }
  }

  /** On any bytes at all: every read is in range, both scans end, and the answer is `Entry`'s. */
  method ReadZipEntry(b: Bytes, name: string, decode: Decoder, inflate: Inflater) returns (r: Option<Bytes>)
    ensures r == Entry(b, name, decode, inflate)
  {
    hide U16, U32, LastSignature, LocalData;
    if |b| < 22 {
      return None;
    }
    var eocd := ScanForEnd(b);
    if eocd == -1 {
      return None;
    }
    var entryCount := U16(b, eocd + 10);
    var cdSize := U32(b, eocd + 12);
    var cdOffset := U32(b, eocd + 16);
    if cdOffset + cdSize > |b| {
      return None;
    }
    ghost var all := WalkDirectory(b, cdOffset, entryCount, name, decode, inflate);
    assert all == Entry(b, name, decode, inflate);
    var p: nat := cdOffset;
    var n := 0;
    while n < entryCount
      invariant n <= entryCount
      invariant all == WalkDirectory(b, p, entryCount - n, name, decode, inflate)
    {
      if p + 46 > |b| || U32(b, p) != CDH_SIG {
        return None;
      }
      var nameLen := U16(b, p + 28);
      if decode(Clamped(b, p + 46, p + 46 + nameLen)) == name {
        r := ReadZipLocalData(b, U32(b, p + 42), U16(b, p + 10), U32(b, p + 20), inflate);
        return;
      }
      p := p + 46 + nameLen + U16(b, p + 30) + U16(b, p + 32);
      n := n + 1;
    }
    return None;
  }

  method ReadZipLocalData(b: Bytes, at: nat, method_: nat, size: nat, inflate: Inflater) returns (r: Option<Bytes>)
    ensures r == LocalData(b, at, method_, size, inflate)
  {
    if at + 30 > |b| || U32(b, at) != LFH_SIG {
      return None;
    }
    var dataStart := at + 30 + U16(b, at + 26) + U16(b, at + 28);
    if dataStart + size > |b| {
      return None;
    }
    var raw := b[dataStart..dataStart + size];
    if method_ == 0 {
      return Some(raw);
    }
    if method_ == 8 {
      return inflate(raw);
    }
    return None;
  }

  // ---- an archive as PKWARE's APPNOTE.TXT lays it out ---------------------------------

  function Le16(v: nat): (b: Bytes)
    requires v < 0x1_0000
    ensures |b| == 2
  {
    [(v % 256) as byte, (v / 256) as byte]
  }

  function Le32(v: nat): (b: Bytes)
    requires v < 0x1_0000_0000
    ensures |b| == 4
  {
    Le16(v % 0x1_0000) + Le16(v / 0x1_0000)
  }

  /** One stored file. The fields the reader never looks at (versions, flags, times, checksums,
      the sizes in the local header, attributes) are arbitrary bytes, and so are the gap before
      the local header and the data descriptor after the data. */
  datatype Member = Member(
    gap: Bytes, localFixed: Bytes, localName: Bytes, localExtra: Bytes, data: Bytes, descriptor: Bytes,
    made: Bytes, method_: nat, times: Bytes, uncompressed: Bytes, attributes: Bytes,
    name: Bytes, extra: Bytes, comment: Bytes)
  {
    predicate Valid() {
      && |localFixed| == 22 && |localName| < 0x1_0000 && |localExtra| < 0x1_0000
      && |made| == 6 && method_ < 0x1_0000 && |times| == 8 && |uncompressed| == 4 && |attributes| == 8
      && |data| < 0x1_0000_0000 && |name| < 0x1_0000 && |extra| < 0x1_0000 && |comment| < 0x1_0000
    }
  }

  function LocalHeader(m: Member): (h: Bytes)
    requires m.Valid()
    ensures |h| == 30
  {
    Le32(LFH_SIG) + m.localFixed + Le16(|m.localName|) + Le16(|m.localExtra|)
  }

  /** Local file header and data, section 4.3.7, behind the member's gap. */
  function LocalRecord(m: Member): (r: Bytes)
    requires m.Valid()
    ensures |r| == |m.gap| + 30 + |m.localName| + |m.localExtra| + |m.data| + |m.descriptor|
  {
    m.gap + LocalHeader(m) + (m.localName + m.localExtra) + m.data + m.descriptor
  }

  /** Central directory header, section 4.3.12, for a local header at `at`. */
  function CentralHeader(m: Member, at: nat): (h: Bytes)
    requires m.Valid() && at < 0x1_0000_0000
    ensures |h| == 46
  {
    Le32(CDH_SIG) + m.made + Le16(m.method_) + m.times + Le32(|m.data|) + m.uncompressed +
    Le16(|m.name|) + Le16(|m.extra|) + Le16(|m.comment|) + m.attributes + Le32(at)
  }

  function CentralRecord(m: Member, at: nat): (r: Bytes)
    requires m.Valid() && at < 0x1_0000_0000
    ensures |r| == 46 + |m.name| + |m.extra| + |m.comment|
  {
    CentralHeader(m, at) + (m.name + m.extra + m.comment)
  }

  function Locals(ms: seq<Member>): Bytes
    requires forall m :: m in ms ==> m.Valid()
  {
    if ms == [] then [] else Locals(ms[..|ms| - 1]) + LocalRecord(ms[|ms| - 1])
  }

  /** Where the local header of member `i` starts. */
  function LocalAt(ms: seq<Member>, i: nat): nat
    requires i < |ms| && forall m :: m in ms ==> m.Valid()
  {
    |Locals(ms[..i])| + |ms[i].gap|
  }

  function Central(ms: seq<Member>, i: nat): Bytes
    requires i <= |ms| && (forall m :: m in ms ==> m.Valid()) && |Locals(ms)| < 0x1_0000_0000
    decreases |ms| - i
  {
    if i == |ms| then []
    else
      LocalsGrow(ms, i);
      CentralRecord(ms[i], LocalAt(ms, i)) + Central(ms, i + 1)
  }

  /** End of central directory record, section 4.3.16; `disks` fills the fields not read. */
  function EndHeader(disks: Bytes, entries: nat, size: nat, offset: nat, commentLen: nat): (h: Bytes)
    requires |disks| == 6 && entries < 0x1_0000 && size < 0x1_0000_0000 && offset < 0x1_0000_0000 && commentLen < 0x1_0000
    ensures |h| == 22
  {
    Le32(EOCD_SIG) + disks + Le16(entries) + Le32(size) + Le32(offset) + Le16(commentLen)
  }

  predicate Fits(ms: seq<Member>, disks: Bytes, comment: Bytes) {
    && (forall m :: m in ms ==> m.Valid())
    && |Locals(ms)| < 0x1_0000_0000 && |Central(ms, 0)| < 0x1_0000_0000
    && |ms| < 0x1_0000 && |disks| == 6 && |comment| < 0x1_0000
  }

  function Archive(ms: seq<Member>, disks: Bytes, comment: Bytes): Bytes
    requires Fits(ms, disks, comment)
  {
    Locals(ms) + Central(ms, 0) +
    (EndHeader(disks, |ms|, |Central(ms, 0)|, |Locals(ms)|, |comment|) + comment)
  }

  function EndAt(ms: seq<Member>): nat
    requires (forall m :: m in ms ==> m.Valid()) && |Locals(ms)| < 0x1_0000_0000
  {
    |Locals(ms)| + |Central(ms, 0)|
  }

  // ---- reading back what was written ----------------------------------------------------

  /** `part` stands in `b` at `at`. */
  predicate At(b: Bytes, at: nat, part: Bytes) {
    at + |part| <= |b| && b[at..at + |part|] == part
  }

  lemma AtPart(b: Bytes, whole: Bytes, start: nat, part: Bytes)
    requires At(b, 0, whole) && start + |part| <= |whole| && whole[start..start + |part|] == part
    ensures At(b, start, part)
  {
    assert b[..|whole|] == whole;
    assert b[start..start + |part|] == b[..|whole|][start..start + |part|];
  }

  lemma AtConcat(b: Bytes, at: nat, part: Bytes, first: Bytes, second: Bytes)
    requires At(b, at, part) && part == first + second
    ensures At(b, at, first) && At(b, at + |first|, second)
  {
    assert b[at..at + |first|] == part[..|first|];
    assert b[at + |first|..at + |part|] == part[|first|..];
  }

  lemma Le16Read(b: Bytes, at: nat, v: nat)
    requires v < 0x1_0000 && At(b, at, Le16(v))
    ensures at + 2 <= |b| && U16(b, at) == v
  {
    assert b[at] == b[at..at + 2][0] && b[at + 1] == b[at..at + 2][1];
  }

  lemma Le32Read(b: Bytes, at: nat, v: nat)
    requires v < 0x1_0000_0000 && At(b, at, Le32(v))
    ensures at + 4 <= |b| && U32(b, at) == v
  {
    AtConcat(b, at, Le32(v), Le16(v % 0x1_0000), Le16(v / 0x1_0000));
    Le16Read(b, at, v % 0x1_0000);
    Le16Read(b, at + 2, v / 0x1_0000);
  }

  lemma {:induction false} LocalsGrow(ms: seq<Member>, i: nat)
    requires i < |ms| && forall m :: m in ms ==> m.Valid()
    ensures LocalAt(ms, i) + 30 + |ms[i].localName| + |ms[i].localExtra| + |ms[i].data| <= |Locals(ms)|
    decreases |ms|
  {
    var n := |ms| - 1;
    assert |Locals(ms)| == |Locals(ms[..n])| + |LocalRecord(ms[n])|;
    assert ms[..n][..i] == ms[..i];
    if i < n {
      LocalsGrow(ms[..n], i);
    }
  }

  lemma {:induction false} LocalRecordAt(ms: seq<Member>, i: nat)
    requires i < |ms| && forall m :: m in ms ==> m.Valid()
    ensures At(Locals(ms), |Locals(ms[..i])|, LocalRecord(ms[i]))
    decreases |ms|
  {
    hide LocalRecord;
    var n := |ms| - 1;
    var front, last := Locals(ms[..n]), LocalRecord(ms[n]);
    if i < n {
      LocalRecordAt(ms[..n], i);
      assert ms[..n][..i] == ms[..i];
      var at, rec := |Locals(ms[..i])|, LocalRecord(ms[i]);
      assert (front + last)[at..at + |rec|] == front[at..at + |rec|];
    } else {
      assert (front + last)[|front|..] == last;
    }
  }

  lemma LocalHeaderRead(b: Bytes, at: nat, m: Member)
    requires m.Valid() && At(b, at, LocalHeader(m))
    ensures at + 30 <= |b| && U32(b, at) == LFH_SIG
    ensures U16(b, at + 26) == |m.localName| && U16(b, at + 28) == |m.localExtra|
  {
    var s, f, n, e := Le32(LFH_SIG), m.localFixed, Le16(|m.localName|), Le16(|m.localExtra|);
    AtConcat(b, at, s + f + n + e, s + f + n, e);
    AtConcat(b, at, s + f + n, s + f, n);
    AtConcat(b, at, s + f, s, f);
    Le32Read(b, at, LFH_SIG);
    Le16Read(b, at + 26, |m.localName|);
    Le16Read(b, at + 28, |m.localExtra|);
  }

  /** Decompressing a member's data under its method, or nothing for a method not supported. */
  function Contents(m: Member, inflate: Inflater): Option<Bytes> {
    if m.method_ == 0 then Some(m.data) else if m.method_ == 8 then inflate(m.data) else None
  }

  lemma AtFive(b: Bytes, at: nat, b1: Bytes, b2: Bytes, b3: Bytes, b4: Bytes, b5: Bytes)
    requires At(b, at, b1 + b2 + b3 + b4 + b5)
    ensures At(b, at, b1) && At(b, at + |b1|, b2) && At(b, at + |b1| + |b2|, b3)
    ensures At(b, at + |b1| + |b2| + |b3|, b4)
  {
    AtConcat(b, at, b1 + b2 + b3 + b4 + b5, b1 + b2 + b3 + b4, b5);
    AtConcat(b, at, b1 + b2 + b3 + b4, b1 + b2 + b3, b4);
    AtConcat(b, at, b1 + b2 + b3, b1 + b2, b3);
    AtConcat(b, at, b1 + b2, b1, b2);
  }

  lemma LocalDataFrom(b: Bytes, at: nat, m: Member, inflate: Inflater)
    requires at + 30 <= |b| && U32(b, at) == LFH_SIG
    requires U16(b, at + 26) == |m.localName| && U16(b, at + 28) == |m.localExtra|
    requires At(b, at + 30 + |m.localName| + |m.localExtra|, m.data)
    ensures LocalData(b, at, m.method_, |m.data|, inflate) == Contents(m, inflate)
  {}

  lemma LocalDataRead(b: Bytes, at: nat, m: Member, inflate: Inflater)
    requires m.Valid() && At(b, at, LocalRecord(m))
    ensures LocalData(b, at + |m.gap|, m.method_, |m.data|, inflate) == Contents(m, inflate)
  {
    AtFive(b, at, m.gap, LocalHeader(m), m.localName + m.localExtra, m.data, m.descriptor);
    LocalHeaderRead(b, at + |m.gap|, m);
    LocalDataFrom(b, at + |m.gap|, m, inflate);
  }

  lemma CentralHeaderRead(b: Bytes, p: nat, m: Member, at: nat)
    requires m.Valid() && at < 0x1_0000_0000 && At(b, p, CentralHeader(m, at))
    ensures p + 46 <= |b| && U32(b, p) == CDH_SIG && U16(b, p + 10) == m.method_ && U32(b, p + 20) == |m.data|
    ensures U16(b, p + 28) == |m.name| && U16(b, p + 30) == |m.extra| && U16(b, p + 32) == |m.comment|
    ensures U32(b, p + 42) == at
  {
    var h1 := Le32(CDH_SIG) + m.made;
    var h2 := h1 + Le16(m.method_);
    var h3 := h2 + m.times + Le32(|m.data|);
    var h4 := h3 + m.uncompressed + Le16(|m.name|);
    var h5 := h4 + Le16(|m.extra|);
    var h6 := h5 + Le16(|m.comment|);
    AtConcat(b, p, CentralHeader(m, at), h6 + m.attributes, Le32(at));
    AtConcat(b, p, h6 + m.attributes, h6, m.attributes);
    AtConcat(b, p, h6, h5, Le16(|m.comment|));
    AtConcat(b, p, h5, h4, Le16(|m.extra|));
    AtConcat(b, p, h4, h3 + m.uncompressed, Le16(|m.name|));
    AtConcat(b, p, h3 + m.uncompressed, h3, m.uncompressed);
    AtConcat(b, p, h3, h2 + m.times, Le32(|m.data|));
    AtConcat(b, p, h2 + m.times, h2, m.times);
    AtConcat(b, p, h2, h1, Le16(m.method_));
    AtConcat(b, p, h1, Le32(CDH_SIG), m.made);
    Le32Read(b, p, CDH_SIG);
    Le16Read(b, p + 10, m.method_);
    Le32Read(b, p + 20, |m.data|);
    Le16Read(b, p + 28, |m.name|);
    Le16Read(b, p + 30, |m.extra|);
    Le16Read(b, p + 32, |m.comment|);
    Le32Read(b, p + 42, at);
  }

  /** The first member from `i` on whose decoded name matches, or nothing. */
  function FirstNamed(ms: seq<Member>, i: nat, name: string, decode: Decoder): (r: Option<nat>)
    requires i <= |ms|
    ensures r.Some? ==> i <= r.value < |ms| && decode(ms[r.value].name) == name
    ensures r.Some? ==> forall k :: i <= k < r.value ==> decode(ms[k].name) != name
    ensures r.None? ==> forall k :: i <= k < |ms| ==> decode(ms[k].name) != name
    decreases |ms| - i
  {
    if i == |ms| then None
    else if decode(ms[i].name) == name then Some(i)
    else FirstNamed(ms, i + 1, name, decode)
  }

  lemma CentralRecordRead(b: Bytes, p: nat, m: Member, at: nat)
    requires m.Valid() && at < 0x1_0000_0000 && At(b, p, CentralRecord(m, at))
    ensures p + 46 <= |b| && U32(b, p) == CDH_SIG && U16(b, p + 10) == m.method_ && U32(b, p + 20) == |m.data|
    ensures U16(b, p + 28) == |m.name| && U16(b, p + 30) == |m.extra| && U16(b, p + 32) == |m.comment|
    ensures U32(b, p + 42) == at
    ensures Clamped(b, p + 46, p + 46 + |m.name|) == m.name
  {
    AtConcat(b, p, CentralRecord(m, at), CentralHeader(m, at), m.name + m.extra + m.comment);
    AtConcat(b, p + 46, m.name + m.extra + m.comment, m.name + m.extra, m.comment);
    AtConcat(b, p + 46, m.name + m.extra, m.name, m.extra);
    CentralHeaderRead(b, p, m, at);
  }

  /** The local header that the directory points at, wherever the local records stand first. */
  lemma MemberDataRead(b: Bytes, ms: seq<Member>, i: nat, inflate: Inflater)
    requires i < |ms| && (forall m :: m in ms ==> m.Valid()) && At(b, 0, Locals(ms))
    ensures LocalData(b, LocalAt(ms, i), ms[i].method_, |ms[i].data|, inflate) == Contents(ms[i], inflate)
  {
    hide Locals, LocalRecord, LocalData;
    LocalRecordAt(ms, i);
    var start, rec := |Locals(ms[..i])|, LocalRecord(ms[i]);
    AtPart(b, Locals(ms), start, rec);
    LocalDataRead(b, start, ms[i], inflate);
  }

  /** One step of the walk over a header whose fields are known. */
  lemma WalkStep(b: Bytes, p: nat, m: Member, at: nat, entries: nat, name: string, decode: Decoder, inflate: Inflater)
    requires m.Valid() && at < 0x1_0000_0000 && At(b, p, CentralRecord(m, at)) && entries > 0
    ensures WalkDirectory(b, p, entries, name, decode, inflate) ==
            if decode(m.name) == name then LocalData(b, at, m.method_, |m.data|, inflate)
            else WalkDirectory(b, p + 46 + |m.name| + |m.extra| + |m.comment|, entries - 1, name, decode, inflate)
  {
    CentralRecordRead(b, p, m, at);
  }

  lemma {:induction false} WalkRead(b: Bytes, p: nat, ms: seq<Member>, i: nat, name: string, decode: Decoder, inflate: Inflater)
    requires i <= |ms| && (forall m :: m in ms ==> m.Valid()) && |Locals(ms)| < 0x1_0000_0000
    requires At(b, 0, Locals(ms)) && At(b, p, Central(ms, i))
    ensures WalkDirectory(b, p, |ms| - i, name, decode, inflate) ==
            var k := FirstNamed(ms, i, name, decode);
            if k.None? then None else Contents(ms[k.value], inflate)
    decreases |ms| - i
  {
    hide LocalRecord, CentralRecord, LocalData, U16, U32;
    if i < |ms| {
      LocalsGrow(ms, i);
      AtConcat(b, p, Central(ms, i), CentralRecord(ms[i], LocalAt(ms, i)), Central(ms, i + 1));
      WalkStep(b, p, ms[i], LocalAt(ms, i), |ms| - i, name, decode, inflate);
      if decode(ms[i].name) == name {
        MemberDataRead(b, ms, i, inflate);
      } else {
        WalkRead(b, p + |CentralRecord(ms[i], LocalAt(ms, i))|, ms, i + 1, name, decode, inflate);
      }
    }
  }

  lemma EndHeaderRead(b: Bytes, p: nat, disks: Bytes, entries: nat, size: nat, offset: nat, commentLen: nat)
    requires |disks| == 6 && entries < 0x1_0000 && size < 0x1_0000_0000 && offset < 0x1_0000_0000 && commentLen < 0x1_0000
    requires At(b, p, EndHeader(disks, entries, size, offset, commentLen))
    ensures p + 22 <= |b| && U32(b, p) == EOCD_SIG && U16(b, p + 10) == entries
    ensures U32(b, p + 12) == size && U32(b, p + 16) == offset
  {
    var h1 := Le32(EOCD_SIG) + disks;
    var h2 := h1 + Le16(entries);
    var h3 := h2 + Le32(size);
    AtConcat(b, p, EndHeader(disks, entries, size, offset, commentLen), h3 + Le32(offset), Le16(commentLen));
    AtConcat(b, p, h3 + Le32(offset), h3, Le32(offset));
    AtConcat(b, p, h3, h2, Le32(size));
    AtConcat(b, p, h2, h1, Le16(entries));
    AtConcat(b, p, h1, Le32(EOCD_SIG), disks);
    Le32Read(b, p, EOCD_SIG);
    Le16Read(b, p + 10, entries);
    Le32Read(b, p + 12, size);
    Le32Read(b, p + 16, offset);
  }

  lemma ArchiveParts(ms: seq<Member>, disks: Bytes, comment: Bytes)
    requires Fits(ms, disks, comment)
    ensures var b, end := Archive(ms, disks, comment), EndHeader(disks, |ms|, |Central(ms, 0)|, |Locals(ms)|, |comment|);
            && |b| == EndAt(ms) + 22 + |comment|
            && At(b, 0, Locals(ms)) && At(b, |Locals(ms)|, Central(ms, 0)) && At(b, EndAt(ms), end)
  {
    hide Locals, Central, EndHeader;
    var b, end := Archive(ms, disks, comment), EndHeader(disks, |ms|, |Central(ms, 0)|, |Locals(ms)|, |comment|);
    assert b[0..|b|] == b;
    AtConcat(b, 0, b, Locals(ms) + Central(ms, 0), end + comment);
    AtConcat(b, 0, Locals(ms) + Central(ms, 0), Locals(ms), Central(ms, 0));
    AtConcat(b, EndAt(ms), end + comment, end, comment);
  }

  /** No end signature starts inside the fields or the comment that follow the true one. */
  predicate NoLaterSignature(b: Bytes, end: nat)
    requires |b| >= 22
  {
    forall k :: end < k <= |b| - 22 ==> U32(b, k) != EOCD_SIG
  }

  /** The backward scan finds the record that was written exactly when no end signature
      follows it, as one hidden in the archive comment would. */
  lemma EndFound(ms: seq<Member>, disks: Bytes, comment: Bytes)
    requires Fits(ms, disks, comment)
    ensures |Archive(ms, disks, comment)| >= 22
    ensures FindEnd(Archive(ms, disks, comment)) == Some(EndAt(ms)) <==>
            NoLaterSignature(Archive(ms, disks, comment), EndAt(ms))
  {
    hide Locals, Central, EndHeader, U16, U32;
    var b := Archive(ms, disks, comment);
    ArchiveParts(ms, disks, comment);
    EndHeaderRead(b, EndAt(ms), disks, |ms|, |Central(ms, 0)|, |Locals(ms)|, |comment|);
    LastSignatureIsLast(b, |b| - 22, SearchFloor(b));
  }

  lemma EntryFrom(b: Bytes, end: nat, name: string, decode: Decoder, inflate: Inflater)
    requires |b| >= 22 && end + 22 <= |b| && FindEnd(b) == Some(end)
    requires U32(b, end + 16) + U32(b, end + 12) <= |b|
    ensures Entry(b, name, decode, inflate) == WalkDirectory(b, U32(b, end + 16), U16(b, end + 10), name, decode, inflate)
  {}

  /** Round trip: reading any written archive gives exactly the contents of its first member
      of that name, and nothing when it has none. */
  lemma RoundTrip(ms: seq<Member>, disks: Bytes, comment: Bytes, name: string, decode: Decoder, inflate: Inflater)
    requires Fits(ms, disks, comment)
    requires |Archive(ms, disks, comment)| >= 22 && NoLaterSignature(Archive(ms, disks, comment), EndAt(ms))
    ensures Entry(Archive(ms, disks, comment), name, decode, inflate) ==
            var k := FirstNamed(ms, 0, name, decode);
            if k.None? then None else Contents(ms[k.value], inflate)
  {
    hide LocalRecord, CentralRecord, EndHeader, LocalData, LastSignature, U16, U32;
    var b := Archive(ms, disks, comment);
    ArchiveParts(ms, disks, comment);
    EndFound(ms, disks, comment);
    EndHeaderRead(b, EndAt(ms), disks, |ms|, |Central(ms, 0)|, |Locals(ms)|, |comment|);
    EntryFrom(b, EndAt(ms), name, decode, inflate);
    WalkRead(b, |Locals(ms)|, ms, 0, name, decode, inflate);
  }

  /** With a compressor that the platform inflates, the original bytes come back. */
  lemma RoundTripBytes(ms: seq<Member>, disks: Bytes, comment: Bytes, name: string, decode: Decoder, inflate: Inflater,
                       deflate: Bytes -> Bytes, content: Bytes, k: nat)
    requires Fits(ms, disks, comment)
    requires |Archive(ms, disks, comment)| >= 22 && NoLaterSignature(Archive(ms, disks, comment), EndAt(ms))
    requires k < |ms| && decode(ms[k].name) == name && forall i :: 0 <= i < k ==> decode(ms[i].name) != name
    requires inflate(deflate(content)) == Some(content)
    requires (ms[k].method_ == 0 && ms[k].data == content) || (ms[k].method_ == 8 && ms[k].data == deflate(content))
    ensures Entry(Archive(ms, disks, comment), name, decode, inflate) == Some(content)
  {
    RoundTrip(ms, disks, comment, name, decode, inflate);
  }
}
