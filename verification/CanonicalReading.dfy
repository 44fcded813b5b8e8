/** What canonical text denotes. A reader for JSON text (RFC 8259) with tables of its own gives
    back the value that was serialised, its keys in enumeration order, and no other text that
    reads as that value is as short. */
module CanonicalReading {
  import opened CanonicalJson
  import CanonicalEquality
  import opened Options
  import Seqs

  // ---- the reader ----------------------------------------------------------------------

  /** What is taken off the front of a text, and what is left of it. */
  datatype Reading<+T> = Bad | Got(value: T, rest: Chars)

  predicate IsBlank(u: Unit) {
    u == ' ' as Unit || u == '\t' as Unit || u == '\n' as Unit || u == '\r' as Unit
  }

  function Skip(t: Chars): (r: Chars)
    ensures |r| <= |t| && (|r| == |t| ==> r == t) && (r != [] ==> !IsBlank(r[0]))
  {
    if t != [] && IsBlank(t[0]) then Skip(t[1..]) else t
  }

  predicate InNumber(u: Unit) {
    '0' as Unit <= u <= '9' as Unit || u == '+' as Unit || u == '-' as Unit || u == '.' as Unit ||
    u == 'e' as Unit || u == 'E' as Unit
  }

  /** The longest front part that can belong to a number. */
  function NumberLength(t: Chars): (n: nat)
    ensures n <= |t| && (n < |t| ==> !InNumber(t[n])) && forall i :: 0 <= i < n ==> InNumber(t[i])
  {
    if t == [] || !InNumber(t[0]) then 0 else 1 + NumberLength(t[1..])
  }

  /** The two-character escapes of section 7. */
  function Meaning(c: Unit): Option<Unit> {
    if c == '"' as Unit then Some('"' as Unit)
    else if c == '\\' as Unit then Some('\\' as Unit)
    else if c == '/' as Unit then Some('/' as Unit)
    else if c == 'b' as Unit then Some(0x08)
    else if c == 'f' as Unit then Some(0x0C)
    else if c == 'n' as Unit then Some('\n' as Unit)
    else if c == 'r' as Unit then Some('\r' as Unit)
    else if c == 't' as Unit then Some('\t' as Unit)
    else None
  }

  /** A hexadecimal digit, in lower case as the serialiser writes it. */
  function HexValue(c: Unit): (v: Option<int>)
    ensures v.Some? ==> 0 <= v.value < 16
  {
    if '0' as Unit <= c <= '9' as Unit then Some(c as int - '0' as int)
    else if 'a' as Unit <= c <= 'f' as Unit then Some(10 + c as int - 'a' as int)
    else None
  }

  function FourHex(t: Chars): Option<Unit>
    requires |t| == 4
  {
    var (a, b, c, d) := (HexValue(t[0]), HexValue(t[1]), HexValue(t[2]), HexValue(t[3]));
    if a.None? || b.None? || c.None? || d.None? then None
    else Some((((a.value * 16 + b.value) * 16 + c.value) * 16 + d.value) as Unit)
  }

  /** Halves of a surrogate pair (section 3.9 of the Unicode standard). */
  predicate Lead(u: Unit) { u / 0x400 == 0x36 }
  predicate Trail(u: Unit) { u / 0x400 == 0x37 }

  /** One character of a string: an escape, a surrogate pair, or any other code unit from the
      space upwards but the quotation mark and the backslash. */
  function ReadPiece(t: Chars): (r: Reading<Chars>)
    requires t != []
    ensures r.Got? ==> |r.rest| < |t| && r.value != []
  {
    var u := t[0];
    if u == '\\' as Unit then
      if |t| >= 6 && t[1] == 'u' as Unit then
        if FourHex(t[2..6]).Some? then Got([FourHex(t[2..6]).value], t[6..]) else Bad
      else if |t| >= 2 && Meaning(t[1]).Some? then Got([Meaning(t[1]).value], t[2..])
      else Bad
    else if u < ' ' as Unit || u == '"' as Unit || Trail(u) then Bad
    else if !Lead(u) then Got([u], t[1..])
    else if |t| >= 2 && Trail(t[1]) then Got([u, t[1]], t[2..])
    else Bad
  }

  /** The rest of a string, up to and with its closing quotation mark. */
  function ReadChars(t: Chars): (r: Reading<Chars>)
    ensures r.Got? ==> |r.rest| < |t|
    decreases |t|
  {
    if t == [] then Bad
    else if t[0] == '"' as Unit then Got([], t[1..])
    else
      var p := ReadPiece(t);
      if p.Bad? then Bad
      else
        var r := ReadChars(p.rest);
        if r.Bad? then Bad else Got(p.value + r.value, r.rest)
  }

  const NULL_WORD: Chars := ['n' as Unit, 'u' as Unit, 'l' as Unit, 'l' as Unit]
  const TRUE_WORD: Chars := ['t' as Unit, 'r' as Unit, 'u' as Unit, 'e' as Unit]
  const FALSE_WORD: Chars := ['f' as Unit, 'a' as Unit, 'l' as Unit, 's' as Unit, 'e' as Unit]

  function ReadWord(t: Chars): Reading<Json> {
    if NULL_WORD <= t then Got(Null, t[4..])
    else if TRUE_WORD <= t then Got(Bool(true), t[4..])
    else if FALSE_WORD <= t then Got(Bool(false), t[5..])
    else Bad
  }

  /** A value, with white space allowed before it (sections 2 to 7). */
  function Read(text: Chars): (r: Reading<Json>)
    ensures r.Got? ==> |r.rest| < |text|
    decreases |text|, 0
  {
    var t := Skip(text);
    if t == [] then Bad
    else if InNumber(t[0]) then Got(Num(t[..NumberLength(t)]), t[NumberLength(t)..])
    else if t[0] == '"' as Unit then
      var r := ReadChars(t[1..]);
      if r.Bad? then Bad else Got(Str(r.value), r.rest)
    else if t[0] == '[' as Unit then
      var r := ReadItems(t[1..], true);
      if r.Bad? then Bad else Got(Arr(r.value), r.rest)
    else if t[0] == '{' as Unit then
      var r := ReadMembers(t[1..], true);
      if r.Bad? then Bad else Got(Obj(r.value), r.rest)
    else ReadWord(t)
  }

  /** What must stand before an element that is not the first. */
  function ReadComma(text: Chars, first: bool): (r: Reading<()>)
    ensures r.Got? ==> |r.rest| <= |text|
  {
    var t := Skip(text);
    if first then Got((), t) else if t != [] && t[0] == ',' as Unit then Got((), t[1..]) else Bad
  }

  predicate Closes(text: Chars, bracket: Unit) {
    Skip(text) != [] && Skip(text)[0] == bracket
  }

  function ReadItems(text: Chars, first: bool): (r: Reading<seq<Json>>)
    ensures r.Got? ==> |r.rest| < |text|
    decreases |text|, 1
  {
    if Closes(text, ']' as Unit) then Got([], Skip(text)[1..])
    else
      var c := ReadComma(text, first);
      if c.Bad? then Bad
      else
        var v := Read(c.rest);
        if v.Bad? then Bad
        else
          var r := ReadItems(v.rest, false);
          if r.Bad? then Bad else Got([v.value] + r.value, r.rest)
  }

  function ReadKey(text: Chars): (r: Reading<Chars>)
    ensures r.Got? ==> |r.rest| < |text|
  {
    var t := Skip(text);
    if t == [] || t[0] != '"' as Unit then Bad
    else
      var k := ReadChars(t[1..]);
      if k.Bad? || !Closes(k.rest, ':' as Unit) then Bad else Got(k.value, Skip(k.rest)[1..])
  }

  function ReadMembers(text: Chars, first: bool): (r: Reading<seq<Entry>>)
    ensures r.Got? ==> |r.rest| < |text|
    decreases |text|, 1
  {
    if Closes(text, '}' as Unit) then Got([], Skip(text)[1..])
    else
      var c := ReadComma(text, first);
      if c.Bad? then Bad
      else
        var k := ReadKey(c.rest);
        if k.Bad? then Bad
        else
          var v := Read(k.rest);
          if v.Bad? then Bad
          else
            var r := ReadMembers(v.rest, false);
            if r.Bad? then Bad else Got([Entry(k.value, v.value)] + r.value, r.rest)
  }

  // ---- serialised text reads back ---------------------------------------------------------

  lemma HexReads(n: int)
    requires 0 <= n < 16
    ensures HexValue(Hex(n)) == Some(n)
  {}

  lemma FourHexReads(u: Unit)
    requires |Block(u)| == 6
    ensures FourHex(Block(u)[2..6]) == Some(u)
  {
    var n := u as int;
    HexReads(n / 4096);
    HexReads(n / 256 % 16);
    HexReads(n / 16 % 16);
    HexReads(n % 16);
    Regroup(n);
  }

  lemma PieceReads(u: Unit, y: Chars)
    ensures ReadPiece(Block(u) + y) == Got([u], y) && (Block(u) + y)[0] != '"' as Unit
  {
    var t := Block(u) + y;
    if |Block(u)| == 6 {
      FourHexReads(u);
      assert t[2..6] == Block(u)[2..6] && t[6..] == y;
    } else if |Block(u)| == 2 {
      assert t[2..] == y;
    } else {
      assert t[1..] == y;
    }
  }

  lemma PairReads(s: Chars, y: Chars)
    requires StartsWithPair(s)
    ensures ReadPiece(s[..2] + y) == Got(s[..2], y) && (s[..2] + y)[0] != '"' as Unit
  {
    var t := s[..2] + y;
    assert t[2..] == y && s[..2] == [t[0], t[1]];
  }

  lemma StringGoesOn(t: Chars, p: Chars, y: Chars, s: Chars, x: Chars)
    requires t != [] && t[0] != '"' as Unit && ReadPiece(t) == Got(p, y) && ReadChars(y) == Got(s, x)
    ensures ReadChars(t) == Got(p + s, x)
  {}

  lemma {:induction false} CharsRead(s: Chars, x: Chars)
    ensures ReadChars(Escape(s) + ([34] + x)) == Got(s, x)
    decreases |s|
  {
    hide Block, ReadPiece, ReadChars;
    var t := Escape(s) + ([34] + x);
    if s == [] {
      StringEnds(x);
      assert t == [34] + x;
    } else if StartsWithPair(s) {
      var y := Escape(s[2..]) + ([34] + x);
      CharsRead(s[2..], x);
      assert t == s[..2] + y && s == s[..2] + s[2..];
      PairReads(s, y);
      StringGoesOn(t, s[..2], y, s[2..], x);
    } else {
      var y := Escape(s[1..]) + ([34] + x);
      CharsRead(s[1..], x);
      assert t == Block(s[0]) + y && s == [s[0]] + s[1..];
      PieceReads(s[0], y);
      StringGoesOn(t, [s[0]], y, s[1..], x);
    }
  }

  lemma StringEnds(x: Chars)
    ensures ReadChars([34] + x) == Got([], x)
  {
    assert ([34] + x)[1..] == x;
  }

  lemma NumberReads(t: Chars, x: Chars)
    requires t != [] && (forall i :: 0 <= i < |t| ==> IsNumeral(t[i])) && Stops(x)
    ensures Read(t + x) == Got(Num(t), x)
  {
    var w := t + x;
    assert InNumber(w[0]) && Skip(w) == w;
    var n := NumberLength(w);
    assert forall i :: 0 <= i < |t| ==> w[i] == t[i];
    assert x != [] ==> w[|t|] == x[0];
    assert n == |t|;
    assert w[..n] == t && w[n..] == x;
  }

  lemma WordReads(j: Json, x: Chars)
    requires j.Null? || j.Bool?
    ensures Read(Render(j) + x) == Got(j, x)
  {
    var t := Render(j) + x;
    assert t[..|Render(j)|] == Render(j) && t[|Render(j)|..] == x;
    assert Skip(t) == t;
    assert Render(j)[0] == 110 || Render(j)[0] == 116 || Render(j)[0] == 102;
  }

  lemma QuoteSplit(s: Chars, x: Chars)
    ensures Quote(s) + x == [34] + (Escape(s) + ([34] + x)) && (Quote(s) + x)[0] == 34
    ensures (Quote(s) + x)[1..] == Escape(s) + ([34] + x)
  {
    hide Escape;
  }

  lemma StringReads(s: Chars, x: Chars)
    ensures Read(Quote(s) + x) == Got(Str(s), x)
  {
    hide Quote, Escape, ReadChars, ReadItems, ReadMembers, ReadWord, NumberLength;
    QuoteSplit(s, x);
    CharsRead(s, x);
    assert Skip(Quote(s) + x) == Quote(s) + x;
  }

  lemma KeyReads(s: Chars, x: Chars)
    ensures ReadKey(Quote(s) + ([58] + x)) == Got(s, x)
  {
    hide Quote, Escape, ReadChars;
    QuoteSplit(s, [58] + x);
    CharsRead(s, [58] + x);
    assert Skip(Quote(s) + ([58] + x)) == Quote(s) + ([58] + x);
    assert Skip([58] + x) == [58] + x && ([58] + x)[1..] == x;
  }

  lemma CommaReads(first: bool, x: Chars)
    requires first ==> x != [] && !IsBlank(x[0])
    ensures ReadComma(Comma(first) + x, first) == Got((), x)
  {
    if first {
      assert [] + x == x;
    } else {
      assert ([44] + x)[1..] == x;
    }
  }

  /** Serialised text, with anything behind it that does not continue a numeral, reads as the
      value that was serialised. */
  lemma {:induction false} ReadsBack(j: Json, x: Chars)
    requires Plain(j) && Stops(x)
    ensures Read(Render(j) + x) == Got(j, x)
    decreases j, 1
  {
    match j
    case Num(t) => NumberReads(t, x);
    case Str(s) => StringReads(s, x);
    case Arr(xs) =>
      OpenBracket(j, x);
      ItemsRead(xs, x, true);
      BracketReads(91, Items(xs, true) + x);
    case Obj(es) =>
      OpenBracket(j, x);
      MembersRead(es, x, true);
      BracketReads(123, Members(es, true) + x);
    case _ => WordReads(j, x);
  }

  lemma BracketReads(b: Unit, y: Chars)
    requires b == 91 || b == 123
    ensures b == 91 && ReadItems(y, true).Got? ==>
              Read([b] + y) == Got(Arr(ReadItems(y, true).value), ReadItems(y, true).rest)
    ensures b == 123 && ReadMembers(y, true).Got? ==>
              Read([b] + y) == Got(Obj(ReadMembers(y, true).value), ReadMembers(y, true).rest)
  {
    hide ReadItems, ReadMembers;
    assert ([b] + y)[1..] == y && Skip([b] + y) == [b] + y;
  }

  lemma ItemsEnd(x: Chars, first: bool)
    ensures ReadItems(Items([], first) + x, first) == Got([], x)
    ensures ReadMembers(Members([], first) + x, first) == Got([], x)
  {
    hide Render, Quote;
    assert ([93] + x)[1..] == x && Skip([93] + x) == [93] + x;
    assert ([125] + x)[1..] == x && Skip([125] + x) == [125] + x;
  }

  lemma ItemsGoOn(t: Chars, first: bool, y: Chars, z: Chars, xs: seq<Json>, x: Chars)
    requires xs != [] && !Closes(t, 93) && ReadComma(t, first) == Got((), y)
    requires Read(y) == Got(xs[0], z) && ReadItems(z, false) == Got(xs[1..], x)
    ensures ReadItems(t, first) == Got(xs, x)
  {
    hide Read, ReadComma, Closes;
    assert xs == [xs[0]] + xs[1..];
  }

  lemma ItemsOpen(xs: seq<Json>, x: Chars, first: bool)
    requires xs != [] && Plain(xs[0])
    ensures var y := Render(xs[0]) + (Items(xs[1..], false) + x);
            && Items(xs, first) + x == Comma(first) + y && y != [] && !IsBlank(y[0])
            && !Closes(Comma(first) + y, 93)
  {
    hide Render, Items;
    var z := Items(xs[1..], false) + x;
    ItemsSplit(xs, x, first);
    FirstUnit(xs[0], z);
    assert first ==> Comma(first) + (Render(xs[0]) + z) == Render(xs[0]) + z;
  }

  lemma {:induction false} ItemsRead(xs: seq<Json>, x: Chars, first: bool)
    requires forall i :: 0 <= i < |xs| ==> Plain(xs[i])
    ensures ReadItems(Items(xs, first) + x, first) == Got(xs, x)
    decreases xs, 0
  {
    if xs == [] {
      ItemsEnd(x, first);
    } else {
      hide *;
      var z := Items(xs[1..], false) + x;
      var y := Render(xs[0]) + z;
      ItemsOpen(xs, x, first);
      ItemsStart(xs[1..], x, false);
      ReadsBack(xs[0], z);
      ItemsRead(xs[1..], x, false);
      CommaReads(first, y);
      ItemsGoOn(Comma(first) + y, first, y, z, xs, x);
    }
  }

  lemma MembersGoOn(t: Chars, first: bool, y: Chars, w: Chars, z: Chars, es: seq<Entry>, x: Chars)
    requires es != [] && !Closes(t, 125) && ReadComma(t, first) == Got((), y) && ReadKey(y) == Got(es[0].key, w)
    requires Read(w) == Got(es[0].value, z) && ReadMembers(z, false) == Got(es[1..], x)
    ensures ReadMembers(t, first) == Got(es, x)
  {
    hide Read, ReadComma, ReadKey, Closes;
    assert es == [Entry(es[0].key, es[0].value)] + es[1..];
  }

  lemma MembersOpen(es: seq<Entry>, x: Chars, first: bool)
    requires es != []
    ensures var w := Render(es[0].value) + (Members(es[1..], false) + x);
            var y := Quote(es[0].key) + ([58] + w);
            && Members(es, first) + x == Comma(first) + y && y != [] && !IsBlank(y[0])
            && !Closes(Comma(first) + y, 125)
  {
    hide Render, Members, Quote;
    MembersStart(es, x, first);
    QuoteSplit(es[0].key, [58] + (Render(es[0].value) + (Members(es[1..], false) + x)));
  }

  lemma {:induction false} MembersRead(es: seq<Entry>, x: Chars, first: bool)
    requires forall i :: 0 <= i < |es| ==> Plain(es[i].value)
    ensures ReadMembers(Members(es, first) + x, first) == Got(es, x)
    decreases es, 0
  {
    if es == [] {
      ItemsEnd(x, first);
    } else {
      hide *;
      var z := Members(es[1..], false) + x;
      var w := Render(es[0].value) + z;
      var y := Quote(es[0].key) + ([58] + w);
      MembersOpen(es, x, first);
      MembersStart(es[1..], x, false);
      ReadsBack(es[0].value, z);
      MembersRead(es[1..], x, false);
      KeyReads(es[0].key, w);
      CommaReads(first, y);
      MembersGoOn(Comma(first) + y, first, y, w, z, es, x);
    }
  }

  // ---- and no other text is as short ---------------------------------------------------------

  /** Shorter than t, or t itself. */
  predicate AtMost(c: Chars, t: Chars) {
    |c| < |t| || c == t
  }

  lemma AtMostBehind(a: Chars, c: Chars, t: Chars, whole: Chars)
    requires AtMost(c, t) && AtMost(a + t, whole)
    ensures AtMost(a + c, whole)
  {}

  lemma HexSpelt(c: Unit)
    requires HexValue(c).Some?
    ensures c == Hex(HexValue(c).value)
  {}

  lemma Ungroup(a: int, b: int, c: int, d: int)
    requires 0 <= a < 16 && 0 <= b < 16 && 0 <= c < 16 && 0 <= d < 16
    ensures var n := ((a * 16 + b) * 16 + c) * 16 + d;
            0 <= n < 0x1_0000 && n / 4096 == a && n / 256 % 16 == b && n / 16 % 16 == c && n % 16 == d
  {
    var k := a * 16 + b;
    var m := k * 16 + c;
    var n := m * 16 + d;
    assert k / 16 == a && k % 16 == b;
    assert m / 16 == k && m % 16 == c;
    assert n / 16 == m && n % 16 == d;
    assert n / 256 == k && n / 4096 == a;
  }

  lemma FourHexSpelt(t: Chars)
    requires |t| == 4 && FourHex(t).Some?
    ensures var n := FourHex(t).value as int;
            t == [Hex(n / 4096), Hex(n / 256 % 16), Hex(n / 16 % 16), Hex(n % 16)]
  {
    HexSpelt(t[0]);
    HexSpelt(t[1]);
    HexSpelt(t[2]);
    HexSpelt(t[3]);
    Ungroup(HexValue(t[0]).value, HexValue(t[1]).value, HexValue(t[2]).value, HexValue(t[3]).value);
    hide HexValue, Hex;
  }

  lemma SurrogatesAgree(u: Unit)
    ensures (Lead(u) <==> IsHigh(u)) && (Trail(u) <==> IsLow(u))
  {}

  /** A piece of one code unit is at least as long as the block for it. */
  lemma UnitSpelt(t: Chars)
    requires t != [] && ReadPiece(t).Got? && |ReadPiece(t).value| == 1
    ensures AtMost(Block(ReadPiece(t).value[0]) + ReadPiece(t).rest, t)
  {
    var r := ReadPiece(t);
    var u := r.value[0];
    SurrogatesAgree(u);
    if t[0] != '\\' as Unit {
      assert t == [u] + r.rest;
    } else if |r.rest| == |t| - 6 {
      FourHexSpelt(t[2..6]);
      assert t == [t[0], t[1]] + t[2..6] + r.rest;
    } else {
      assert t == [t[0], t[1]] + r.rest;
    }
  }

  lemma PairSpelt(t: Chars)
    requires t != [] && ReadPiece(t).Got? && |ReadPiece(t).value| != 1
    ensures StartsWithPair(ReadPiece(t).value) && |ReadPiece(t).value| == 2 && t == ReadPiece(t).value + ReadPiece(t).rest
  {
    SurrogatesAgree(t[0]);
    SurrogatesAgree(t[1]);
  }

  lemma EscapeAfterUnit(u: Unit, s: Chars)
    ensures AtMost(Escape([u] + s), Block(u) + Escape(s))
  {
    assert ([u] + s)[1..] == s;
    if StartsWithPair([u] + s) {
      assert ([u] + s)[2..] == s[1..];
    }
  }

  lemma EscapeAfterPair(p: Chars, s: Chars)
    requires |p| == 2 && StartsWithPair(p)
    ensures Escape(p + s) == p + Escape(s)
  {
    assert (p + s)[2..] == s;
  }

  lemma {:induction false} CharsSpelt(t: Chars)
    requires ReadChars(t).Got?
    ensures AtMost(Escape(ReadChars(t).value) + ([34] + ReadChars(t).rest), t)
    decreases |t|
  {
    if t[0] != '"' as Unit {
      hide ReadPiece, Block, Escape;
      var p := ReadPiece(t);
      var r := ReadChars(p.rest);
      var tail := [34] + r.rest;
      CharsSpelt(p.rest);
      if |p.value| == 1 {
        UnitSpelt(t);
        EscapeAfterUnit(p.value[0], r.value);
        assert p.value == [p.value[0]];
        AtMostBehind(Block(p.value[0]), Escape(r.value) + tail, p.rest, t);
        Seqs.Assoc(Block(p.value[0]), Escape(r.value), tail);
      } else {
        PairSpelt(t);
        EscapeAfterPair(p.value, r.value);
        Seqs.Assoc(p.value, Escape(r.value), tail);
      }
    } else {
      assert t == [34] + t[1..];
    }
  }

  lemma WordSpelt(t: Chars)
    requires ReadWord(t).Got?
    ensures Plain(ReadWord(t).value) && t == Render(ReadWord(t).value) + ReadWord(t).rest
  {
    assert t[..4] == [t[0], t[1], t[2], t[3]] && t == t[..4] + t[4..];
    if !(NULL_WORD <= t || TRUE_WORD <= t) {
      assert t == t[..5] + t[5..];
    }
  }

  lemma NumberSpelt(t: Chars)
    requires t != [] && InNumber(t[0])
    ensures var n := NumberLength(t); Plain(Num(t[..n])) && t == t[..n] + t[n..]
  {
    var n := NumberLength(t);
    assert n > 0;
    hide NumberLength;
    assert forall i :: 0 <= i < n ==> IsNumeral(t[..n][i]);
  }

  lemma StringSpelt(t: Chars)
    requires t != [] && t[0] == 34 && ReadChars(t[1..]).Got?
    ensures AtMost(Quote(ReadChars(t[1..]).value) + ReadChars(t[1..]).rest, t)
  {
    hide Quote, Escape, ReadChars;
    CharsSpelt(t[1..]);
    QuoteSplit(ReadChars(t[1..]).value, ReadChars(t[1..]).rest);
    assert t == [34] + t[1..];
    AtMostBehind([34], Escape(ReadChars(t[1..]).value) + ([34] + ReadChars(t[1..]).rest), t[1..], t);
  }

  /** The serialised value is the shortest text that reads as it, and the only one so short:
      no blank, no escape and no digit of it can be saved. */
  lemma {:induction false} NothingShorter(text: Chars)
    requires Read(text).Got?
    ensures Plain(Read(text).value) && AtMost(Render(Read(text).value) + Read(text).rest, text)
    decreases |text|, 0
  {
    hide Quote, Escape, ReadChars, ReadItems, ReadMembers, ReadWord, NumberLength, Skip;
    var t := Skip(text);
    var j, x := Read(text).value, Read(text).rest;
    if InNumber(t[0]) {
      NumberSpelt(t);
    } else if t[0] == 34 {
      StringSpelt(t);
    } else if t[0] == 91 {
      ItemsSpelt(t[1..], true);
      OpenBracket(j, x);
      BehindBracket(91, Items(j.items, true) + x, t);
    } else if t[0] == 123 {
      MembersSpelt(t[1..], true);
      OpenBracket(j, x);
      BehindBracket(123, Members(j.entries, true) + x, t);
    } else {
      WordSpelt(t);
    }
  }

  lemma BehindBracket(b: Unit, c: Chars, t: Chars)
    requires t != [] && t[0] == b && AtMost(c, t[1..])
    ensures AtMost([b] + c, t)
  {
    assert t == [b] + t[1..];
  }

  lemma CommaSpelt(text: Chars, first: bool)
    requires ReadComma(text, first).Got?
    ensures AtMost(Comma(first) + ReadComma(text, first).rest, text)
  {
    hide Skip;
    var t := Skip(text);
    assert first ==> [] + t == t;
    assert !first ==> [44] + t[1..] == t;
  }

  lemma CloseSpelt(text: Chars, bracket: Unit)
    requires Closes(text, bracket)
    ensures AtMost([bracket] + Skip(text)[1..], text)
  {
    hide Skip;
    assert Skip(text) == [bracket] + Skip(text)[1..];
  }

  lemma ItemsParts(text: Chars, first: bool)
    requires ReadItems(text, first).Got? && !Closes(text, 93)
    ensures var c := ReadComma(text, first);
            c.Got? && Read(c.rest).Got? && ReadItems(Read(c.rest).rest, false).Got? &&
            ReadItems(text, first) ==
            Got([Read(c.rest).value] + ReadItems(Read(c.rest).rest, false).value, ReadItems(Read(c.rest).rest, false).rest)
  {
    hide Closes, ReadComma, Read;
  }

  lemma {:induction false} ItemsSpelt(text: Chars, first: bool)
    requires ReadItems(text, first).Got?
    ensures forall i :: 0 <= i < |ReadItems(text, first).value| ==> Plain(ReadItems(text, first).value[i])
    ensures AtMost(Items(ReadItems(text, first).value, first) + ReadItems(text, first).rest, text)
    decreases |text|, 1
  {
    hide Skip, Read, Render, Plain, ReadComma;
    if Closes(text, 93) {
      CloseSpelt(text, 93);
    } else {
      hide ReadItems, Closes;
      ItemsParts(text, first);
      var y := ReadComma(text, first).rest;
      var v := Read(y);
      var r := ReadItems(v.rest, false);
      CommaSpelt(text, first);
      NothingShorter(y);
      ItemsSpelt(v.rest, false);
      var vs := [v.value] + r.value;
      assert vs[1..] == r.value;
      ItemsSplit(vs, r.rest, first);
      hide Items, Comma;
      AtMostBehind(Render(v.value), Items(r.value, false) + r.rest, v.rest, y);
      AtMostBehind(Comma(first), Render(v.value) + (Items(r.value, false) + r.rest), y, text);
    }
  }

  lemma KeySpelt(text: Chars)
    requires ReadKey(text).Got?
    ensures AtMost(Quote(ReadKey(text).value) + ([58] + ReadKey(text).rest), text)
  {
    hide Quote, Skip, ReadChars;
    var t := Skip(text);
    var k := ReadChars(t[1..]);
    StringSpelt(t);
    CloseSpelt(k.rest, 58);
    AtMostBehind(Quote(k.value), [58] + Skip(k.rest)[1..], k.rest, t);
  }

  lemma MembersParts(text: Chars, first: bool)
    requires ReadMembers(text, first).Got? && !Closes(text, 125)
    ensures var c := ReadComma(text, first);
            c.Got? && ReadKey(c.rest).Got? &&
            var k := ReadKey(c.rest);
            Read(k.rest).Got? && ReadMembers(Read(k.rest).rest, false).Got? &&
            ReadMembers(text, first) ==
            Got([Entry(k.value, Read(k.rest).value)] + ReadMembers(Read(k.rest).rest, false).value,
                ReadMembers(Read(k.rest).rest, false).rest)
  {
    hide Closes, ReadComma, Read, ReadKey;
  }

  lemma {:induction false} MembersSpelt(text: Chars, first: bool)
    requires ReadMembers(text, first).Got?
    ensures forall i :: 0 <= i < |ReadMembers(text, first).value| ==> Plain(ReadMembers(text, first).value[i].value)
    ensures AtMost(Members(ReadMembers(text, first).value, first) + ReadMembers(text, first).rest, text)
    decreases |text|, 1
  {
    hide Skip, Read, Render, Plain, ReadComma, ReadKey, Quote;
    if Closes(text, 125) {
      CloseSpelt(text, 125);
    } else {
      hide ReadMembers, Closes;
      MembersParts(text, first);
      var y := ReadComma(text, first).rest;
      var k := ReadKey(y);
      var v := Read(k.rest);
      var r := ReadMembers(v.rest, false);
      CommaSpelt(text, first);
      KeySpelt(y);
      NothingShorter(k.rest);
      MembersSpelt(v.rest, false);
      var vs := [Entry(k.value, v.value)] + r.value;
      assert vs[1..] == r.value;
      MembersStart(vs, r.rest, first);
      hide Members, Comma;
      var w := Render(v.value) + (Members(r.value, false) + r.rest);
      AtMostBehind(Render(v.value), Members(r.value, false) + r.rest, v.rest, k.rest);
      AtMostBehind([58], w, k.rest, [58] + k.rest);
      AtMostBehind(Quote(k.value), [58] + w, [58] + k.rest, y);
      AtMostBehind(Comma(first), Quote(k.value) + ([58] + w), y, text);
    }
  }

  // ---- the order of keys -----------------------------------------------------------------------

  function DecimalOf(n: nat): Chars {
    (if n < 10 then [] else DecimalOf(n / 10)) + [('0' as int + n % 10) as Unit]
  }

  /** The array index that a key spells: the decimal numeral of a number below 2^32 - 1
      (section 6.1.7 of ECMA-262). */
  predicate Spells(k: Chars, n: nat) {
    n < 0xFFFF_FFFF && k == DecimalOf(n)
  }

  ghost predicate IndexKey(k: Chars) {
    exists n :: Spells(k, n)
  }

  predicate PartAt(a: Chars, b: Chars, p: nat) {
    p <= |a| && p < |b| && a[..p] == b[..p] && (p == |a| || a[p] < b[p])
  }

  /** Where the strings part, a has ended or has the smaller code unit. */
  ghost predicate CodeUnitOrder(a: Chars, b: Chars) {
    exists p :: PartAt(a, b, p)
  }

  /** Keys that spell array indices come first, by number; the others by code units. */
  ghost predicate Before(a: Chars, b: Chars) {
    if IndexKey(a) then IndexKey(b) ==> exists m, n :: Spells(a, m) && Spells(b, n) && m < n
    else !IndexKey(b) && CodeUnitOrder(a, b)
  }

  /** The key that no copied object has. */
  const PROTO_NAME: Chars :=
    ['_' as Unit, '_' as Unit, 'p' as Unit, 'r' as Unit, 'o' as Unit, 't' as Unit, 'o' as Unit, '_' as Unit, '_' as Unit]

  /** Every object in it, however deep, lists its keys in that order, and `__proto__` is not one. */
  ghost predicate KeysInOrder(j: Json)
    decreases j
  {
    match j
    case Arr(xs) => forall i :: 0 <= i < |xs| ==> KeysInOrder(xs[i])
    case Obj(es) =>
      && (forall i, k :: 0 <= i < k < |es| ==> Before(es[i].key, es[k].key))
      && (forall i :: 0 <= i < |es| ==> es[i].key != PROTO_NAME && KeysInOrder(es[i].value))
    case _ => true
  }

  lemma {:induction false} LessParts(a: Chars, b: Chars)
    requires Less(a, b)
    ensures CodeUnitOrder(a, b)
    decreases |a|
  {
    if a == [] || a[0] < b[0] {
      assert PartAt(a, b, 0);
    } else {
      LessParts(a[1..], b[1..]);
      var p: nat :| PartAt(a[1..], b[1..], p);
      PartLater(a, b, p);
    }
  }

  lemma PartLater(a: Chars, b: Chars, p: nat)
    requires a != [] && b != [] && a[0] == b[0] && PartAt(a[1..], b[1..], p)
    ensures PartAt(a, b, p + 1)
  {
    assert a[..p + 1] == [a[0]] + a[1..][..p] && b[..p + 1] == [b[0]] + b[1..][..p];
  }

  lemma DigitsSnoc(s: Chars, u: Unit)
    requires 48 <= u <= 57
    ensures Digits(s + [u]) == 10 * Digits(s) + (u as nat - 48) && Digits([]) == 0
  {
    assert (s + [u])[..|s|] == s;
  }

  lemma {:induction false} DecimalIsIndex(n: nat)
    ensures var k := DecimalOf(n);
            && k != [] && (forall i :: 0 <= i < |k| ==> 48 <= k[i] <= 57) && (n > 0 ==> k[0] != 48)
            && Digits(k) == n
  {
    hide Digits;
    var front := if n < 10 then [] else DecimalOf(n / 10);
    if n >= 10 {
      DecimalIsIndex(n / 10);
    }
    DigitsSnoc(front, ('0' as int + n % 10) as Unit);
  }

  lemma {:induction false} IndexIsDecimal(k: Chars)
    requires k != [] && (forall i :: 0 <= i < |k| ==> 48 <= k[i] <= 57) && (k == [48] || k[0] != 48)
    ensures k == DecimalOf(Digits(k)) && (k[0] != 48 ==> Digits(k) > 0)
    decreases |k|
  {
    hide Digits;
    var front, last := k[..|k| - 1], k[|k| - 1];
    assert k == front + [last];
    DigitsSnoc(front, last);
    if front != [] {
      IndexIsDecimal(front);
      TensAndOnes(Digits(front), last as int - 48);
    }
  }

  lemma TensAndOnes(a: int, d: int)
    requires 0 <= d < 10
    ensures (10 * a + d) / 10 == a && (10 * a + d) % 10 == d
  {}

  lemma IndexKeys(k: Chars)
    ensures IsIndex(k) <==> IndexKey(k)
    ensures IsIndex(k) ==> Spells(k, Digits(k))
  {
    if IsIndex(k) {
      IndexIsDecimal(k);
      assert Spells(k, Digits(k));
    } else if IndexKey(k) {
      var n :| Spells(k, n);
      DecimalIsIndex(n);
    }
  }

  predicate Rising(es: seq<Entry>) {
    forall i, k :: 0 <= i < k < |es| ==> Digits(es[i].key) < Digits(es[k].key)
  }

  lemma {:induction false} InsertIndexRises(e: Entry, es: seq<Entry>)
    requires Rising(es) && forall i :: 0 <= i < |es| ==> Digits(es[i].key) != Digits(e.key)
    ensures Rising(InsertIndex(e, es))
    decreases |es|
  {
    hide Digits;
    if es != [] && Digits(e.key) > Digits(es[0].key) {
      InsertIndexRises(e, es[1..]);
      CanonicalEquality.InsertIndexElements(e, es[1..]);
      var rest := InsertIndex(e, es[1..]);
      assert forall i :: 0 <= i < |rest| ==> rest[i] in rest;
    }
  }

  lemma SameIndex(a: Chars, b: Chars)
    requires IsIndex(a) && IsIndex(b) && Digits(a) == Digits(b)
    ensures a == b
  {
    IndexIsDecimal(a);
    IndexIsDecimal(b);
  }

  lemma {:induction false} IndicesRise(es: seq<Entry>)
    requires DistinctKeys(es)
    ensures Rising(Indices(es))
    decreases |es|
  {
    hide IsIndex, Digits;
    if es != [] {
      var rest := Indices(es[1..]);
      IndicesRise(es[1..]);
      if IsIndex(es[0].key) {
        CanonicalEquality.OwnOrderElements(es[1..]);
        forall i | 0 <= i < |rest| ensures Digits(rest[i].key) != Digits(es[0].key) {
          assert rest[i] in es[1..] && IsIndex(rest[i].key);
          if Digits(rest[i].key) == Digits(es[0].key) {
            SameIndex(rest[i].key, es[0].key);
          }
        }
        InsertIndexRises(es[0], rest);
      }
    }
  }

  lemma {:induction false} NamesStaySorted(es: seq<Entry>)
    requires CanonicalEquality.StrictlySorted(es)
    ensures CanonicalEquality.StrictlySorted(Names(es))
    decreases |es|
  {
    hide Less, IsIndex;
    if es != [] {
      NamesStaySorted(es[1..]);
      CanonicalEquality.OwnOrderElements(es[1..]);
      var rest := Names(es[1..]);
      forall i | 0 <= i < |rest| ensures Less(es[0].key, rest[i].key) {
        assert rest[i] in es[1..];
      }
    }
  }

  lemma OwnOrderInOrder(es: seq<Entry>)
    requires DistinctKeys(es) && CanonicalEquality.StrictlySorted(es)
    ensures var r := OwnOrder(es); forall i, k :: 0 <= i < k < |r| ==> Before(r[i].key, r[k].key)
  {
    hide Digits, Less, IsIndex, Spells, IndexKey, CodeUnitOrder;
    var a, b := Indices(es), Names(es);
    var r := a + b;
    IndicesRise(es);
    NamesStaySorted(es);
    CanonicalEquality.OwnOrderElements(es);
    forall i, k | 0 <= i < k < |r| ensures Before(r[i].key, r[k].key) {
      IndexKeys(r[i].key);
      IndexKeys(r[k].key);
      assert i < |a| ==> r[i] in a;
      assert i >= |a| ==> r[i] in b;
      assert k < |a| ==> r[k] in a;
      assert k >= |a| ==> r[k] in b;
      if i >= |a| {
        LessParts(r[i].key, r[k].key);
      }
    }
  }

  lemma DistinctSorted(es: seq<Entry>)
    requires DistinctKeys(es)
    ensures DistinctKeys(Sorted(es)) && CanonicalEquality.StrictlySorted(Sorted(es))
  {
    hide Less;
    CanonicalEquality.SortedIsSorted(es);
    var r := Sorted(es);
    forall i, k | 0 <= i < k < |r| ensures r[i].key != r[k].key {
      CanonicalEquality.LessIrreflexive(r[i].key);
    }
  }

  lemma ObjectInOrder(vs: seq<Entry>)
    requires DistinctKeys(vs)
    ensures var r := OwnOrder(Sorted(vs));
            && (forall i, k :: 0 <= i < k < |r| ==> Before(r[i].key, r[k].key))
            && CanonicalEquality.SameElements(r, vs)
  {
    hide Sorted, OwnOrder, Before;
    DistinctSorted(vs);
    OwnOrderInOrder(Sorted(vs));
    CanonicalEquality.OrderElements(vs);
  }

  /** Deep sorting puts every key in its place... */
  lemma {:induction false} SortDeepInOrder(j: Json)
    requires Valid(j)
    ensures KeysInOrder(SortDeep(j))
    decreases j
  {
    match j
    case Arr(xs) =>
      CanonicalEquality.SortItemsAt(xs);
      hide SortItems;
      forall i | 0 <= i < |xs| ensures KeysInOrder(SortItems(xs)[i]) {
        SortDeepInOrder(xs[i]);
      }
    case Obj(es) =>
      var vs := SortValues(es);
      var r := OwnOrder(Sorted(vs));
      CanonicalEquality.SortValuesAt(es);
      CanonicalEquality.DistinctValues(es);
      ObjectInOrder(vs);
      hide SortValues, Sorted, OwnOrder, Before;
      assert PROTO == PROTO_NAME;
      forall i | 0 <= i < |r| ensures r[i].key != PROTO_NAME && KeysInOrder(r[i].value) {
        assert r[i] in vs;
        var k: nat :| CanonicalEquality.CopyAt(es, k, r[i]);
        SortDeepInOrder(es[k].value);
      }
    case _ =>
  }

  /** ...and changes nothing else. */
  lemma {:induction false} SortDeepEquiv(j: Json)
    requires Valid(j)
    ensures Equiv(j, SortDeep(j))
    decreases j
  {
    match j
    case Arr(xs) =>
      CanonicalEquality.SortItemsAt(xs);
      hide SortItems;
      forall i | 0 <= i < |xs| ensures Equiv(xs[i], SortItems(xs)[i]) {
        SortDeepEquiv(xs[i]);
      }
    case Obj(es) =>
      var vs := SortValues(es);
      var r := OwnOrder(Sorted(vs));
      CanonicalEquality.SortValuesAt(es);
      CanonicalEquality.DistinctValues(es);
      ObjectInOrder(vs);
      hide SortValues, Sorted, OwnOrder, Before, DistinctKeys;
      SameKeys(es, vs, r);
      forall i, k | 0 <= i < |es| && 0 <= k < |r| && es[i].key == r[k].key != PROTO ensures Equiv(es[i].value, r[k].value) {
        assert r[k] in vs;
        var m: nat :| CanonicalEquality.CopyAt(es, m, r[k]);
        OneEntryPerKey(es, i, m);
        SortDeepEquiv(es[i].value);
      }
    case _ =>
  }

  lemma OneEntryPerKey(es: seq<Entry>, i: nat, m: nat)
    requires DistinctKeys(es) && i < |es| && m < |es| && es[i].key == es[m].key
    ensures i == m
  {}

  lemma SameKeys(es: seq<Entry>, vs: seq<Entry>, r: seq<Entry>)
    requires CanonicalEquality.SameElements(r, vs) && forall x :: x in vs <==> CanonicalEquality.Copied(es, x)
    ensures KeySet(es) == KeySet(r)
  {
    hide SortDeep;
    forall key ensures key in KeySet(es) <==> key in KeySet(r) {
      CanonicalEquality.KeyListed(es, key);
      CanonicalEquality.KeyListed(r, key);
      hide KeySet;
      if key != PROTO {
        forall i | 0 <= i < |es| && es[i].key == key ensures exists k :: 0 <= k < |r| && r[k].key == key {
          var x := Entry(key, SortDeep(es[i].value));
          assert CanonicalEquality.CopyAt(es, i, x);
          assert x in r;
        }
        forall k | 0 <= k < |r| && r[k].key == key ensures exists i :: 0 <= i < |es| && es[i].key == key {
          assert r[k] in r;
          var i: nat :| CanonicalEquality.CopyAt(es, i, r[k]);
        }
      }
    }
  }

  /** Canonical text denotes the value that was serialised, with every key in its place, and is
      the one shortest text that does. */
  lemma CanonicalDenotes(j: Json, x: Chars) returns (v: Json)
    requires Valid(j) && Stops(x)
    ensures Read(Canonical(j) + x) == Got(v, x) && Equiv(j, v) && KeysInOrder(v)
    ensures forall t :: Read(t) == Got(v, x) ==> AtMost(Canonical(j) + x, t)
  {
    hide Read, Render, SortDeep, Equiv, KeysInOrder, Valid, Plain;
    v := SortDeep(j);
    CanonicalEquality.SortDeepPlain(j);
    ReadsBack(v, x);
    SortDeepEquiv(j);
    SortDeepInOrder(j);
    forall t | Read(t) == Got(v, x) ensures AtMost(Canonical(j) + x, t) {
      NothingShorter(t);
    }
  }

  /** What a row hash covers: the front matter, a line feed, and the body to the last unit. */
  lemma RowDenotes(front: Json, body: Chars) returns (v: Json)
    requires Valid(front)
    ensures Read(CanonicalEquality.RowPreimage(front, body)) == Got(v, ['\n' as Unit] + body)
    ensures Equiv(front, v) && KeysInOrder(v)
  {
    hide Read, Canonical, Equiv, KeysInOrder, Valid;
    v := CanonicalDenotes(front, [10] + body);
    Seqs.Assoc(Canonical(front), [10], body);
  }

  /** `|jp1-facts|`. */
  const MARK: Chars :=
    ['|' as Unit, 'j' as Unit, 'p' as Unit, '1' as Unit, '-' as Unit, 'f' as Unit, 'a' as Unit, 'c' as Unit,
     't' as Unit, 's' as Unit, '|' as Unit]

  /** What the facts hash covers: the resume, the experience and the cover letter, in this order
      and marked off from each other. */
  lemma FactsDenote(f: CanonicalEquality.Facts) returns (a: Json, x: Chars, b: Json, y: Chars, c: Json)
    requires f.Valid()
    ensures Read(CanonicalEquality.FactsPreimage(f)) == Got(a, MARK + x) && Equiv(f.resume, a)
    ensures Read(x) == Got(b, MARK + y) && Equiv(f.experience, b)
    ensures Read(y) == Got(c, []) && Equiv(f.coverLetter, c)
  {
    hide Read, Canonical, Equiv, KeysInOrder, Valid;
    y := Canonical(f.coverLetter);
    x := Canonical(f.experience) + (MARK + y);
    assert MARK == CanonicalEquality.DELIMITER;
    a := CanonicalDenotes(f.resume, MARK + x);
    b := CanonicalDenotes(f.experience, MARK + y);
    c := CanonicalDenotes(f.coverLetter, []);
    assert y + [] == y;
  }
}
