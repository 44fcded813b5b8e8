/** Canonical JSON: keys sorted recursively, then serialised without spaces. Strings are
    sequences of UTF-16 code units, as the serialiser sees them. */
module CanonicalJson {
  import Seqs

  newtype Unit = x: int | 0 <= x < 0x1_0000

  type Chars = seq<Unit>

  datatype Entry = Entry(key: Chars, value: Json)

  /** A JSON value. A number stands for the text the serialiser gives it; an object is its
      entries in enumeration order. */
  datatype Json =
    | Null
    | Bool(b: bool)
    | Num(numeral: Chars)
    | Str(s: Chars)
    | Arr(items: seq<Json>)
    | Obj(entries: seq<Entry>)

  // ---- values --------------------------------------------------------------------

  /** Digits, signs, the point and the exponent mark. */
  predicate IsNumeral(u: Unit) {
    (48 <= u <= 57) || u == 43 || u == 45 || u == 46 || u == 69 || u == 101
  }

  predicate Plain(j: Json)
    decreases j
  {
    match j
    case Num(t) => t != [] && forall i :: 0 <= i < |t| ==> IsNumeral(t[i])
    case Arr(xs) => forall i :: 0 <= i < |xs| ==> Plain(xs[i])
    case Obj(es) => forall i :: 0 <= i < |es| ==> Plain(es[i].value)
    case _ => true
  }

  /** `__proto__`: assigning it sets a prototype, or nothing, but makes no entry. */
  const PROTO: Chars := [95, 95, 112, 114, 111, 116, 111, 95, 95]

  predicate DistinctKeys(es: seq<Entry>) {
    forall i, k :: 0 <= i < k < |es| ==> es[i].key != es[k].key
  }

  predicate Valid(j: Json)
    decreases j
  {
    match j
    case Num(t) => t != [] && forall i :: 0 <= i < |t| ==> IsNumeral(t[i])
    case Arr(xs) => forall i :: 0 <= i < |xs| ==> Valid(xs[i])
    case Obj(es) => DistinctKeys(es) && forall i :: 0 <= i < |es| ==> Valid(es[i].value)
    case _ => true
  }

  /** The keys that a copy of the object has. */
  function KeySet(es: seq<Entry>): set<Chars> {
    set e | e in es && e.key != PROTO :: e.key
  }

  /** Equal up to the order of object keys, and up to what is filed under `__proto__`. */
  predicate Equiv(a: Json, b: Json)
    decreases a
  {
    match (a, b)
    case (Arr(xs), Arr(ys)) => |xs| == |ys| && forall i :: 0 <= i < |xs| ==> Equiv(xs[i], ys[i])
    case (Obj(es), Obj(fs)) =>
      && KeySet(es) == KeySet(fs)
      && (forall i, k :: 0 <= i < |es| && 0 <= k < |fs| && es[i].key == fs[k].key != PROTO ==> Equiv(es[i].value, fs[k].value))
    case _ => a == b
  }

  // ---- key order -------------------------------------------------------------------

  /** `sort()` on strings: by code units. */
  predicate Less(a: Chars, b: Chars) {
    b != [] && (a == [] || a[0] < b[0] || (a[0] == b[0] && Less(a[1..], b[1..])))
  }

  function Digits(k: Chars): (n: nat)
  {
    if k == [] then 0
    else 10 * Digits(k[..|k| - 1]) + if 48 <= k[|k| - 1] <= 57 then k[|k| - 1] as nat - 48 else 0
  }

  /** An array index: object enumeration lists these first, in numeric order. */
  predicate IsIndex(k: Chars) {
    k != [] && (forall i :: 0 <= i < |k| ==> 48 <= k[i] <= 57) && (k == [48] || k[0] != 48) && Digits(k) < 0xFFFF_FFFF
  }

  function Insert(e: Entry, es: seq<Entry>): seq<Entry> {
    if es == [] || Less(e.key, es[0].key) then [e] + es else [es[0]] + Insert(e, es[1..])
  }

  function Sorted(es: seq<Entry>): seq<Entry> {
    if es == [] then [] else Insert(es[0], Sorted(es[1..]))
  }

  function InsertIndex(e: Entry, es: seq<Entry>): seq<Entry> {
    if es == [] || Digits(e.key) < Digits(es[0].key) then [e] + es else [es[0]] + InsertIndex(e, es[1..])
  }

  function Indices(es: seq<Entry>): seq<Entry> {
    if es == [] then [] else if IsIndex(es[0].key) then InsertIndex(es[0], Indices(es[1..])) else Indices(es[1..])
  }

  function Names(es: seq<Entry>): seq<Entry> {
    if es == [] then [] else (if IsIndex(es[0].key) then [] else [es[0]]) + Names(es[1..])
  }

  /** The order in which an object enumerates keys that were assigned in the order of `es`. */
  function OwnOrder(es: seq<Entry>): seq<Entry> {
    Indices(es) + Names(es)
  }

  // ---- serialising -------------------------------------------------------------------

  function SortDeep(j: Json): Json
    decreases j
  {
    match j
    case Arr(xs) => Arr(SortItems(xs))
    case Obj(es) => Obj(OwnOrder(Sorted(SortValues(es))))
    case _ => j
  }

  function SortItems(xs: seq<Json>): (ys: seq<Json>)
    ensures |ys| == |xs|
    decreases xs
  {
    if xs == [] then [] else [SortDeep(xs[0])] + SortItems(xs[1..])
  }

  /** The entries that assigning the sorted copies makes. */
  function SortValues(es: seq<Entry>): seq<Entry>
    decreases es
  {
    if es == [] then []
    else (if es[0].key == PROTO then [] else [Entry(es[0].key, SortDeep(es[0].value))]) + SortValues(es[1..])
  }

  function Hex(n: int): Unit
    requires 0 <= n < 16
  {
    if n < 10 then (48 + n) as Unit else (87 + n) as Unit
  }

  predicate IsHigh(u: Unit) { 0xD800 <= u <= 0xDBFF }
  predicate IsLow(u: Unit) { 0xDC00 <= u <= 0xDFFF }

  function ShortEscape(u: Unit): Unit {
    if u == 8 then 98 else if u == 9 then 116 else if u == 10 then 110 else if u == 12 then 102
    else if u == 13 then 114 else if u == 34 then 34 else if u == 92 then 92 else 0
  }

  /** One code unit that is not half of a surrogate pair (RFC 8259 section 7). */
  function Block(u: Unit): Chars {
    if ShortEscape(u) != 0 then [92, ShortEscape(u)]
    else if u < 32 || IsHigh(u) || IsLow(u) then
      var n := u as int;
      [92, 117, Hex(n / 4096), Hex(n / 256 % 16), Hex(n / 16 % 16), Hex(n % 16)]
    else [u]
  }

  predicate StartsWithPair(s: Chars) {
    |s| > 1 && IsHigh(s[0]) && IsLow(s[1])
  }

  function Escape(s: Chars): Chars {
    if s == [] then []
    else if StartsWithPair(s) then [s[0], s[1]] + Escape(s[2..])
    else Block(s[0]) + Escape(s[1..])
  }

  function Quote(s: Chars): Chars {
    [34] + Escape(s) + [34]
  }

  function Render(j: Json): Chars
    decreases j, 1
  {
    match j
    case Null => [110, 117, 108, 108]
    case Bool(b) => if b then [116, 114, 117, 101] else [102, 97, 108, 115, 101]
    case Num(t) => t
    case Str(s) => Quote(s)
    case Arr(xs) => [91] + Items(xs, true)
    case Obj(es) => [123] + Members(es, true)
  }

  function Comma(first: bool): Chars {
    if first then [] else [44]
  }

  function Items(xs: seq<Json>, first: bool): Chars
    decreases xs, 0
  {
    if xs == [] then [93] else Comma(first) + Render(xs[0]) + Items(xs[1..], false)
  }

  function Members(es: seq<Entry>, first: bool): Chars
    decreases es, 0
  {
    if es == [] then [125]
    else Comma(first) + Quote(es[0].key) + [58] + Render(es[0].value) + Members(es[1..], false)
  }

  function Canonical(j: Json): Chars {
    Render(SortDeep(j))
  }

  // ---- serialised text is self-delimiting -----------------------------------------------

  /** What may follow a value: nothing, or anything that cannot continue a numeral. */
  predicate Stops(x: Chars) {
    x == [] || !IsNumeral(x[0])
  }

  lemma Peel(a: Chars, x: Chars, b: Chars, y: Chars)
    requires a + x == b + y && |a| == |b|
    ensures a == b && x == y
  {
    assert (a + x)[..|a|] == a && (b + y)[..|b|] == b;
    assert (a + x)[|a|..] == x && (b + y)[|b|..] == y;
  }

  lemma Regrouped(a: Chars, b: Chars, c: Chars, d: Chars, e: Chars, x: Chars)
    ensures a + b + c + d + e + x == a + (b + (c + (d + (e + x))))
  {}

  lemma HexDigits(m: int, n: int)
    requires 0 <= m < 16 && 0 <= n < 16 && Hex(m) == Hex(n)
    ensures m == n
  {}

  lemma Regroup(n: int)
    requires 0 <= n < 0x1_0000
    ensures n == 4096 * (n / 4096) + 256 * (n / 256 % 16) + 16 * (n / 16 % 16) + n % 16
  {
    var a := n / 16;
    var b := a / 16;
    assert b == n / 256 && b / 16 == n / 4096;
    assert n == 16 * a + n % 16 && a == 16 * b + a % 16 && b == 16 * (b / 16) + b % 16;
  }

  lemma BlockFree(u: Unit, x: Chars, v: Unit, y: Chars)
    requires Block(u) + x == Block(v) + y
    ensures u == v && x == y
  {
    var a, b := Block(u) + x, Block(v) + y;
    assert a[0] == Block(u)[0] && b[0] == Block(v)[0];
    if |Block(u)| == 6 && |Block(v)| == 6 {
      Peel(Block(u), x, Block(v), y);
      var m, n := u as int, v as int;
      HexDigits(m / 4096, n / 4096);
      HexDigits(m / 256 % 16, n / 256 % 16);
      HexDigits(m / 16 % 16, n / 16 % 16);
      HexDigits(m % 16, n % 16);
      Regroup(m);
      Regroup(n);
    } else {
      if |Block(u)| > 1 && |Block(v)| > 1 {
        assert a[1] == Block(u)[1] && b[1] == Block(v)[1];
      }
      assert u == v;
      Peel(Block(u), x, Block(v), y);
    }
  }

  lemma EscapeStart(s: Chars, x: Chars)
    ensures var a := Escape(s) + [34] + x;
            && a != []
            && (a[0] == 34 <==> s == [])
            && (IsHigh(a[0]) <==> StartsWithPair(s))
  {
    if s != [] && !StartsWithPair(s) {
      assert (Escape(s) + [34] + x)[0] == Block(s[0])[0];
    }
  }

  lemma {:induction false} EscapeFree(s: Chars, x: Chars, t: Chars, y: Chars)
    requires Escape(s) + [34] + x == Escape(t) + [34] + y
    ensures s == t && x == y
    decreases |s|
  {
    hide Block;
    EscapeStart(s, x);
    EscapeStart(t, y);
    if s == [] {
      assert Escape(s) + [34] + x == [34] + x && Escape(t) + [34] + y == [34] + y;
      Peel([34], x, [34], y);
    } else if StartsWithPair(s) {
      var a, b := Escape(s[2..]) + [34] + x, Escape(t[2..]) + [34] + y;
      assert Escape(s) + [34] + x == s[..2] + a && Escape(t) + [34] + y == t[..2] + b;
      Peel(s[..2], a, t[..2], b);
      EscapeFree(s[2..], x, t[2..], y);
      assert s == s[..2] + s[2..] && t == t[..2] + t[2..];
    } else {
      var a, b := Escape(s[1..]) + [34] + x, Escape(t[1..]) + [34] + y;
      assert Escape(s) + [34] + x == Block(s[0]) + a && Escape(t) + [34] + y == Block(t[0]) + b;
      BlockFree(s[0], a, t[0], b);
      EscapeFree(s[1..], x, t[1..], y);
      assert s == [s[0]] + s[1..] && t == [t[0]] + t[1..];
    }
  }

  lemma QuoteFree(s: Chars, x: Chars, t: Chars, y: Chars)
    requires Quote(s) + x == Quote(t) + y
    ensures s == t && x == y
  {
    assert Quote(s) + x == [34] + (Escape(s) + [34] + x) && Quote(t) + y == [34] + (Escape(t) + [34] + y);
    Peel([34], Escape(s) + [34] + x, [34], Escape(t) + [34] + y);
    EscapeFree(s, x, t, y);
  }

  /** The first code unit tells the kinds of value apart. */
  lemma FirstUnit(j: Json, x: Chars)
    requires Plain(j)
    ensures var a := Render(j) + x;
            && Render(j) != [] && a != [] && a[0] == Render(j)[0]
            && a[0] == match j
                       case Null => 110
                       case Bool(b) => if b then 116 else 102
                       case Num(t) => t[0]
                       case Str(_) => 34
                       case Arr(_) => 91
                       case Obj(_) => 123
  {
    hide Escape, Items, Members;
    assert (Render(j) + x)[0] == Render(j)[0];
  }

  lemma NumeralFree(t: Chars, x: Chars, r: Chars, y: Chars)
    requires t + x == r + y && Stops(x) && Stops(y)
    requires (forall i :: 0 <= i < |t| ==> IsNumeral(t[i])) && (forall i :: 0 <= i < |r| ==> IsNumeral(r[i]))
    ensures t == r && x == y
  {
    var w := t + x;
    assert w == r + y && (x != [] ==> w[|t|] == x[0]) && (y != [] ==> w[|r|] == y[0]);
    assert forall k :: 0 <= k < |t| ==> w[k] == t[k];
    assert forall k :: 0 <= k < |r| ==> w[k] == r[k];
    if |t| == |r| {
      Peel(t, x, r, y);
    }
  }

  lemma OpenBracket(j: Json, x: Chars)
    ensures j.Arr? ==> Render(j) + x == [91] + (Items(j.items, true) + x)
    ensures j.Obj? ==> Render(j) + x == [123] + (Members(j.entries, true) + x)
  {
    hide Items, Members;
    if j.Arr? {
      Seqs.Assoc([91], Items(j.items, true), x);
    } else if j.Obj? {
      Seqs.Assoc([123], Members(j.entries, true), x);
    }
  }

  /** Serialised values are self-delimiting: where one ends and what it was can be read off any
      text that starts with it. */
  lemma {:induction false} RenderFree(a: Json, x: Chars, b: Json, y: Chars)
    requires Plain(a) && Plain(b) && Stops(x) && Stops(y) && Render(a) + x == Render(b) + y
    ensures a == b && x == y
    decreases a, 1
  {
    hide Items, Members, Quote;
    FirstUnit(a, x);
    FirstUnit(b, y);
    OpenBracket(a, x);
    OpenBracket(b, y);
    match a
    case Null => Peel(Render(a), x, Render(b), y);
    case Bool(p) => Peel(Render(a), x, Render(b), y);
    case Num(t) => NumeralFree(t, x, b.numeral, y);
    case Str(s) => QuoteFree(s, x, b.s, y);
    case Arr(xs) =>
      Peel([91], Items(xs, true) + x, [91], Items(b.items, true) + y);
      ItemsFree(xs, x, b.items, y, true);
    case Obj(es) =>
      Peel([123], Members(es, true) + x, [123], Members(b.entries, true) + y);
      MembersFree(es, x, b.entries, y, true);
  }

  lemma ItemsSplit(xs: seq<Json>, x: Chars, first: bool)
    requires xs != []
    ensures Items(xs, first) + x == Comma(first) + (Render(xs[0]) + (Items(xs[1..], false) + x))
  {
    hide Render;
    var c, r, rest := Comma(first), Render(xs[0]), Items(xs[1..], false);
    assert Items(xs, first) == c + r + rest;
    hide Items, Comma;
    Seqs.Assoc(c + r, rest, x);
    Seqs.Assoc(c, r, rest + x);
  }

  lemma ItemsStart(xs: seq<Json>, x: Chars, first: bool)
    requires forall i :: 0 <= i < |xs| ==> Plain(xs[i])
    ensures Items(xs, first) != [] && ((Items(xs, first) + x)[0] == 93 <==> xs == [])
    ensures !first ==> Stops(Items(xs, first) + x)
  {
    if xs != [] {
      ItemsSplit(xs, x, first);
      FirstUnit(xs[0], Items(xs[1..], false) + x);
      hide Render;
    }
  }

  lemma {:induction false} ItemsFree(xs: seq<Json>, x: Chars, ys: seq<Json>, y: Chars, first: bool)
    requires (forall i :: 0 <= i < |xs| ==> Plain(xs[i])) && (forall i :: 0 <= i < |ys| ==> Plain(ys[i]))
    requires Items(xs, first) + x == Items(ys, first) + y
    ensures xs == ys && x == y
    decreases xs, 0
  {
    ItemsStart(xs, x, first);
    ItemsStart(ys, y, first);
    if xs == [] {
      Peel([93], x, [93], y);
    } else {
      ItemsSplit(xs, x, first);
      ItemsSplit(ys, y, first);
      hide Render, Plain;
      var a, b := Items(xs[1..], false) + x, Items(ys[1..], false) + y;
      Peel(Comma(first), Render(xs[0]) + a, Comma(first), Render(ys[0]) + b);
      ItemsStart(xs[1..], x, false);
      ItemsStart(ys[1..], y, false);
      RenderFree(xs[0], a, ys[0], b);
      ItemsFree(xs[1..], x, ys[1..], y, false);
      assert xs == [xs[0]] + xs[1..] && ys == [ys[0]] + ys[1..];
    }
  }

  lemma MembersStart(es: seq<Entry>, x: Chars, first: bool)
    ensures Members(es, first) != [] && ((Members(es, first) + x)[0] == 125 <==> es == [])
    ensures !first ==> Stops(Members(es, first) + x)
    ensures es != [] ==>
              Members(es, first) + x ==
              Comma(first) + (Quote(es[0].key) + ([58] + (Render(es[0].value) + (Members(es[1..], false) + x))))
  {
    hide Render, Escape;
    if es != [] {
      var q, rest := Quote(es[0].key), Members(es[1..], false);
      assert q[0] == 34;
      hide Quote;
      Regrouped(Comma(first), q, [58], Render(es[0].value), rest, x);
      assert (Comma(first) + (q + ([58] + (Render(es[0].value) + (rest + x)))))[0] == if first then 34 else 44;
    }
  }

  lemma {:induction false} MembersFree(es: seq<Entry>, x: Chars, fs: seq<Entry>, y: Chars, first: bool)
    requires (forall i :: 0 <= i < |es| ==> Plain(es[i].value)) && (forall i :: 0 <= i < |fs| ==> Plain(fs[i].value))
    requires Members(es, first) + x == Members(fs, first) + y
    ensures es == fs && x == y
    decreases es, 0
  {
    MembersStart(es, x, first);
    MembersStart(fs, y, first);
    if es == [] {
      Peel([125], x, [125], y);
    } else {
      hide Render, Quote, Plain;
      var a, b := Members(es[1..], false) + x, Members(fs[1..], false) + y;
      var a', b' := Render(es[0].value) + a, Render(fs[0].value) + b;
      Peel(Comma(first), Quote(es[0].key) + ([58] + a'), Comma(first), Quote(fs[0].key) + ([58] + b'));
      QuoteFree(es[0].key, [58] + a', fs[0].key, [58] + b');
      Peel([58], a', [58], b');
      MembersStart(es[1..], x, false);
      MembersStart(fs[1..], y, false);
      RenderFree(es[0].value, a, fs[0].value, b);
      MembersFree(es[1..], x, fs[1..], y, false);
      assert es == [es[0]] + es[1..] && fs == [fs[0]] + fs[1..];
    }
  }

  /** No line feed appears in serialised text. */
  predicate NoNewline(x: Chars) {
    forall i :: 0 <= i < |x| ==> x[i] != 10
  }

  lemma {:induction false} EscapeNoNewline(s: Chars)
    ensures NoNewline(Escape(s))
    decreases |s|
  {
    if StartsWithPair(s) {
      EscapeNoNewline(s[2..]);
    } else if s != [] {
      EscapeNoNewline(s[1..]);
    }
  }

  lemma {:induction false} RenderNoNewline(j: Json)
    requires Plain(j)
    ensures NoNewline(Render(j))
    decreases j, 1
  {
    match j
    case Str(s) => EscapeNoNewline(s);
    case Arr(xs) => ItemsNoNewline(xs, true);
    case Obj(es) => MembersNoNewline(es, true);
    case _ =>
  }

  lemma {:induction false} ItemsNoNewline(xs: seq<Json>, first: bool)
    requires forall i :: 0 <= i < |xs| ==> Plain(xs[i])
    ensures NoNewline(Items(xs, first))
    decreases xs, 0
  {
    if xs != [] {
      RenderNoNewline(xs[0]);
      ItemsNoNewline(xs[1..], false);
    }
  }

  lemma {:induction false} MembersNoNewline(es: seq<Entry>, first: bool)
    requires forall i :: 0 <= i < |es| ==> Plain(es[i].value)
    ensures NoNewline(Members(es, first))
    decreases es, 0
  {
    if es != [] {
      EscapeNoNewline(es[0].key);
      RenderNoNewline(es[0].value);
      MembersNoNewline(es[1..], false);
    }
  }
}
