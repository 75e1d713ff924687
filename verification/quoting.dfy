/** strconv.Quote, and strconv.QuotedPrefix with strconv.Unquote, on bytes. */
module Quoting {
  import opened Texts
  import opened Utf8

  /** Which code points from U+0080 on strconv.IsPrint lets through. */
  type PrintTable = int -> bool

  predicate IsPrint(table: PrintTable, r: int) {
    if r < 0x80 then 0x20 <= r < 0x7F else table(r)
  }

  function Hex(d: int): (c: Byte)
    requires 0 <= d < 16
    ensures c != '"' && c != '\\' && V(c) < 0x80
  {
    if d < 10 then B(0x30 + d) else B(0x61 + d - 10)
  }

  function Unhex(c: Byte): (d: int)
    ensures -1 <= d < 16
  {
    if '0' <= c <= '9' then V(c) - 0x30
    else if 'a' <= c <= 'f' then V(c) - 0x61 + 10
    else if 'A' <= c <= 'F' then V(c) - 0x41 + 10
    else -1
  }

  lemma UnhexHex(d: int)
    requires 0 <= d < 16
    ensures Unhex(Hex(d)) == d
  {
  }

  /** `n` hexadecimal digits of `v`, most significant first. */
  function HexDigits(v: int, n: nat): (s: Text)
    requires 0 <= v
    ensures |s| == n && forall i :: 0 <= i < n ==> s[i] != '"' && s[i] != '\\' && V(s[i]) < 0x80
  {
    if n == 0 then [] else HexDigits(v / 16, n - 1) + [Hex(v % 16)]
  }

  function HexValue(s: Text): (v: Option<int>)
    ensures v.Some? ==> v.value >= 0
  {
    if s == [] then Some(0)
    else
      var high, low := HexValue(s[..|s| - 1]), Unhex(s[|s| - 1]);
      if high.None? || low < 0 then None else Some(high.value * 16 + low)
  }

  function Pow16(n: nat): int {
    if n == 0 then 1 else 16 * Pow16(n - 1)
  }

  lemma {:induction false} HexRoundTrip(v: int, n: nat)
    requires 0 <= v < Pow16(n)
    ensures HexValue(HexDigits(v, n)) == Some(v)
  {
    if n > 0 {
      HexRoundTrip(v / 16, n - 1);
      UnhexHex(v % 16);
      var s := HexDigits(v, n);
      assert s[..n - 1] == HexDigits(v / 16, n - 1);
    }
  }

  /** The letter a control character is escaped with, if it has one. */
  function EscapeLetter(r: int): (c: Option<Byte>) {
    if r == 7 then Some('a') else if r == 8 then Some('b') else if r == 9 then Some('t')
    else if r == 10 then Some('n') else if r == 11 then Some('v') else if r == 12 then Some('f')
    else if r == 13 then Some('r') else None
  }

  function LetterValue(c: Byte): (r: Option<Byte>) {
    if c == 'a' then Some(B(7)) else if c == 'b' then Some(B(8)) else if c == 't' then Some(B(9))
    else if c == 'n' then Some(B(10)) else if c == 'v' then Some(B(11)) else if c == 'f' then Some(B(12))
    else if c == 'r' then Some(B(13)) else None
  }

  /** What Quote writes for the code point, or undecodable byte, at the front of `s`. */
  function QuoteUnit(table: PrintTable, s: Text): (q: Text)
    requires s != []
    ensures q != []
  {
    if RuneLen(s) == 0 then ['\\', 'x'] + HexDigits(V(s[0]), 2)
    else
      var r := Rune(s);
      if s[0] == '"' || s[0] == '\\' then "\\" + s[..1]
      else if IsPrint(table, r) then s[..RuneLen(s)]
      else if EscapeLetter(r).Some? then "\\" + [EscapeLetter(r).value]
      else if r < 0x80 then ['\\', 'x'] + HexDigits(r, 2)
      else if r < 0x10000 then ['\\', 'u'] + HexDigits(r, 4)
      else ['\\', 'U'] + HexDigits(r, 8)
  }

  function QuoteBody(table: PrintTable, s: Text): (q: Text) {
    if s == [] then [] else QuoteUnit(table, s) + QuoteBody(table, s[Step(s)..])
  }

  function Quote(table: PrintTable, s: Text): (q: Text) {
    "\"" + QuoteBody(table, s) + "\""
  }

  // ---- Unquote ---------------------------------------------------------------------------------

  datatype Unit = Unit(bytes: Text, rest: Text)

  const REPLACEMENT: int := 0xFFFD

  function HexEscape(s: Text, n: nat, oneByte: bool): (u: Option<Unit>)
    ensures u.Some? ==> |u.value.rest| < |s|
    requires 2 <= |s|
  {
    if |s| < 2 + n then None
    else
      var v := HexValue(s[2..2 + n]);
      if v.None? then None
      else if oneByte then (if v.value < 256 then Some(Unit([B(v.value)], s[2 + n..])) else None)
      else if ValidRune(v.value) then Some(Unit(Encode(v.value), s[2 + n..]))
      else None
  }

  function OctalEscape(s: Text): (u: Option<Unit>)
    requires 2 <= |s| && '0' <= s[1] <= '7'
    ensures u.Some? ==> |u.value.rest| < |s|
  {
    if |s| < 4 || !('0' <= s[2] <= '7') || !('0' <= s[3] <= '7') then None
    else
      var v := ((V(s[1]) - 0x30) * 8 + (V(s[2]) - 0x30)) * 8 + (V(s[3]) - 0x30);
      if v > 255 then None else Some(Unit([B(v)], s[4..]))
  }

  /** strconv.UnquoteChar inside double quotes: the bytes denoted, and what follows. */
  function UnquoteUnit(s: Text): (u: Option<Unit>)
    requires s != []
    ensures u.Some? ==> |u.value.rest| < |s|
  {
    if V(s[0]) >= 0x80 then
      if RuneLen(s) > 0 then Some(Unit(Encode(Rune(s)), s[RuneLen(s)..]))
      else Some(Unit(Encode(REPLACEMENT), s[1..]))
    else if s[0] == '"' || s[0] == '\n' then None
    else if s[0] != '\\' then Some(Unit([s[0]], s[1..]))
    else if |s| < 2 then None
    else if LetterValue(s[1]).Some? then Some(Unit([LetterValue(s[1]).value], s[2..]))
    else if s[1] == 'x' then HexEscape(s, 2, true)
    else if s[1] == 'u' then HexEscape(s, 4, false)
    else if s[1] == 'U' then HexEscape(s, 8, false)
    else if '0' <= s[1] <= '7' then OctalEscape(s)
    else if s[1] == '\\' || s[1] == '"' then Some(Unit([s[1]], s[2..]))
    else None
  }

  /** The value of a double-quoted literal after its opening quote, and what follows its closing one. */
  function UnquoteBody(s: Text): (u: Option<Unit>)
    ensures u.Some? ==> |u.value.rest| < |s|
    decreases |s|
  {
    if s == [] then None
    else if s[0] == '"' then Some(Unit([], s[1..]))
    else
      var unit := UnquoteUnit(s);
      if unit.None? then None
      else
        var tail := UnquoteBody(unit.value.rest);
        if tail.None? then None
        else Some(Unit(unit.value.bytes + tail.value.bytes, tail.value.rest))
  }

  function IndexOf(s: Text, c: Byte): (i: nat)
    ensures i <= |s| && (i < |s| ==> s[i] == c) && c !in s[..i]
  {
    if s == [] || s[0] == c then 0 else 1 + IndexOf(s[1..], c)
  }

  /** strconv.UnquoteChar inside single quotes, where the two quotes change places. */
  function UnquoteSingle(s: Text): (u: Option<Unit>)
    requires s != []
    ensures u.Some? ==> |u.value.rest| < |s|
  {
    if s[0] == '\'' then None
    else if s[0] == '"' then Some(Unit(['"'], s[1..]))
    else if s[0] == '\\' && |s| >= 2 && s[1] == '\'' then Some(Unit(['\''], s[2..]))
    else if s[0] == '\\' && |s| >= 2 && s[1] == '"' then None
    else UnquoteUnit(s)
  }

  /** The value of a single-quoted literal after its opening quote: one character, or none. */
  function UnquoteRune(s: Text): (u: Option<Unit>)
    ensures u.Some? ==> |u.value.rest| < |s|
  {
    if s == [] then None
    else if s[0] == '\'' then Some(Unit([], s[1..]))
    else
      var unit := UnquoteSingle(s);
      if unit.None? || unit.value.rest == [] || unit.value.rest[0] != '\'' then None
      else Some(Unit(unit.value.bytes, unit.value.rest[1..]))
  }

  /** A string literal at the front of `s`: double-quoted, raw between backquotes, or single-quoted. */
  function ScanLiteral(s: Text): (u: Option<Unit>)
    ensures u.Some? ==> |u.value.rest| < |s|
  {
    if s == [] then None
    else if s[0] == '"' then UnquoteBody(s[1..])
    else if s[0] == '`' then
      var end := IndexOf(s[1..], '`');
      if end == |s| - 1 then None
      else Some(Unit(Filter(s[1..][..end], (c: Byte) => c != '\r'), s[1..][end + 1..]))
    else if s[0] == '\'' then UnquoteRune(s[1..])
    else None
  }

  // ---- Unquote undoes Quote --------------------------------------------------------------------

  lemma UnquoteHex(s: Text, v: int, n: nat, t: Text, letter: Byte)
    requires 0 <= v < Pow16(n)
    requires s == ['\\', letter] + HexDigits(v, n) + t
    ensures v < 256 ==> HexEscape(s, n, true) == Some(Unit([B(v)], t))
    ensures ValidRune(v) ==> HexEscape(s, n, false) == Some(Unit(Encode(v), t))
    ensures s[0] == '\\' && s[1] == letter
  {
    HexRoundTrip(v, n);
    hide HexDigits, HexValue, Pow16, Encode;
    assert s[2..2 + n] == HexDigits(v, n) && s[2 + n..] == t;
  }

  lemma UnquotePlain(c: Byte, t: Text)
    requires V(c) < 0x80 && c != '"' && c != '\n' && c != '\\'
    ensures UnquoteUnit([c] + t) == Some(Unit([c], t))
  {
    var u := [c] + t;
    assert u[0] == c && u[1..] == t;
  }

  lemma UnquoteEscape(c: Byte, t: Text)
    requires LetterValue(c).Some? || c == '"' || c == '\\'
    ensures UnquoteUnit(['\\', c] + t) ==
            Some(Unit([if LetterValue(c).Some? then LetterValue(c).value else c], t))
  {
    var u := ['\\', c] + t;
    assert u[0] == '\\' && u[1] == c && u[2..] == t;
  }

  lemma UnquoteByLetter(u: Text)
    requires |u| >= 2 && u[0] == '\\'
    ensures u[1] == 'x' ==> UnquoteUnit(u) == HexEscape(u, 2, true)
    ensures u[1] == 'u' ==> UnquoteUnit(u) == HexEscape(u, 4, false)
    ensures u[1] == 'U' ==> UnquoteUnit(u) == HexEscape(u, 8, false)
  {
    hide HexEscape, OctalEscape;
  }

  lemma ByteInHex()
    ensures Pow16(2) == 256
  {
  }

  lemma UnquoteHexByte(v: int, t: Text)
    requires 0 <= v < 256
    ensures UnquoteUnit(['\\', 'x'] + HexDigits(v, 2) + t) == Some(Unit([B(v)], t))
  {
    ByteInHex();
    hide *;
    var u := ['\\', 'x'] + HexDigits(v, 2) + t;
    UnquoteHex(u, v, 2, t, 'x');
    UnquoteByLetter(u);
  }

  lemma UnquoteHexRune(v: int, n: nat, letter: Byte, t: Text)
    requires ValidRune(v) && ((letter == 'u' && n == 4 && v < 0x10000) || (letter == 'U' && n == 8))
    ensures UnquoteUnit(['\\', letter] + HexDigits(v, n) + t) == Some(Unit(Encode(v), t))
  {
    assert Pow16(4) == 65536 && Pow16(8) == 4294967296;
    hide Pow16, HexDigits, HexEscape, UnquoteUnit, Encode;
    var u := ['\\', letter] + HexDigits(v, n) + t;
    UnquoteHex(u, v, n, t, letter);
    UnquoteByLetter(u);
  }

  lemma UnquoteAscii(table: PrintTable, s: Text, t: Text)
    requires s != [] && V(s[0]) < 0x80
    ensures UnquoteUnit(QuoteUnit(table, s) + t) == Some(Unit(s[..1], t))
  {
    hide HexDigits, UnquoteUnit;
    var r := V(s[0]);
    assert s[..1] == [s[0]];
    if s[0] == '"' || s[0] == '\\' {
      assert QuoteUnit(table, s) == ['\\', s[0]];
      UnquoteEscape(s[0], t);
    } else if IsPrint(table, r) {
      UnquotePlain(s[0], t);
    } else if EscapeLetter(r).Some? {
      assert QuoteUnit(table, s) == ['\\', EscapeLetter(r).value];
      UnquoteEscape(EscapeLetter(r).value, t);
    } else {
      UnquoteHexByte(r, t);
    }
  }

  lemma UnquotePassed(s: Text, t: Text)
    requires RuneLen(s) > 1
    ensures UnquoteUnit(s[..RuneLen(s)] + t) == Some(Unit(s[..RuneLen(s)], t))
  {
    EncodeRune(s);
    RuneLocal(s, t);
    hide Rune, Encode;
    var u := s[..RuneLen(s)] + t;
    assert u[RuneLen(s)..] == t;
  }

  lemma UnquoteWide(table: PrintTable, s: Text, t: Text)
    requires RuneLen(s) > 1
    ensures UnquoteUnit(QuoteUnit(table, s) + t) == Some(Unit(s[..RuneLen(s)], t))
  {
    EncodeRune(s);
    hide HexDigits, UnquoteUnit, Rune, RuneLen, Encode;
    var r := Rune(s);
    if IsPrint(table, r) {
      UnquotePassed(s, t);
    } else if r < 0x10000 {
      assert QuoteUnit(table, s) == ['\\', 'u'] + HexDigits(r, 4);
      UnquoteHexRune(r, 4, 'u', t);
    } else {
      assert QuoteUnit(table, s) == ['\\', 'U'] + HexDigits(r, 8);
      UnquoteHexRune(r, 8, 'U', t);
    }
  }

  lemma UnquoteBadByte(table: PrintTable, s: Text, t: Text)
    requires s != [] && RuneLen(s) == 0
    ensures UnquoteUnit(QuoteUnit(table, s) + t) == Some(Unit([s[0]], t))
  {
    hide UnquoteUnit, HexDigits;
    UnquoteHexByte(V(s[0]), t);
  }

  /** Quote's text for one unit reads back as exactly the bytes it was written for. */
  lemma UnquoteUnitOfQuoteUnit(table: PrintTable, s: Text, t: Text)
    requires s != []
    ensures UnquoteUnit(QuoteUnit(table, s) + t) == Some(Unit(s[..Step(s)], t))
  {
    hide UnquoteUnit, QuoteUnit;
    if RuneLen(s) == 0 {
      assert s[..1] == [B(V(s[0]))];
      UnquoteBadByte(table, s, t);
    } else if RuneLen(s) == 1 {
      UnquoteAscii(table, s, t);
    } else {
      UnquoteWide(table, s, t);
    }
  }

  /** No unit begins with the closing quote. */
  lemma QuoteUnitHead(table: PrintTable, s: Text)
    requires s != []
    ensures QuoteUnit(table, s)[0] != '"'
  {
  }

  lemma UnquoteStep(whole: Text, unit: Unit, tail: Unit)
    requires whole != [] && whole[0] != '"' && UnquoteUnit(whole) == Some(unit)
    requires |unit.rest| < |whole| && UnquoteBody(unit.rest) == Some(tail)
    ensures UnquoteBody(whole) == Some(Unit(unit.bytes + tail.bytes, tail.rest))
  {
  }

  lemma UnquoteOneMore(table: PrintTable, s: Text, rest: Text, tail: Text)
    requires s != [] && tail != []
    requires UnquoteBody(rest + tail) == Some(Unit(s[Step(s)..], tail[1..]))
    ensures UnquoteBody(QuoteUnit(table, s) + rest + tail) == Some(Unit(s, tail[1..]))
  {
    hide UnquoteUnit, QuoteUnit, RuneLen, UnquoteBody;
    var n, unit := Step(s), QuoteUnit(table, s);
    Regroup(unit, rest, tail);
    QuoteUnitHead(table, s);
    UnquoteUnitOfQuoteUnit(table, s, rest + tail);
    UnquoteStep(unit + rest + tail, Unit(s[..n], rest + tail), Unit(s[n..], tail[1..]));
    assert s == s[..n] + s[n..];
  }

  lemma {:induction false} UnquoteBodyOfQuoteBody(table: PrintTable, s: Text, tail: Text)
    requires tail != [] && tail[0] == '"'
    ensures UnquoteBody(QuoteBody(table, s) + tail) == Some(Unit(s, tail[1..]))
    decreases |s|
  {
    if s == [] {
      assert QuoteBody(table, s) + tail == tail;
    } else {
      hide UnquoteBody, QuoteUnit, RuneLen;
      UnquoteBodyOfQuoteBody(table, s[Step(s)..], tail);
      UnquoteOneMore(table, s, QuoteBody(table, s[Step(s)..]), tail);
    }
  }

  /** Unquote undoes Quote on every byte string, and stops right after the closing quote. */
  lemma ScanQuote(table: PrintTable, s: Text, t: Text)
    ensures ScanLiteral(Quote(table, s) + t) == Some(Unit(s, t))
  {
    hide QuoteBody, UnquoteBody;
    var whole, tail := Quote(table, s) + t, "\"" + t;
    assert whole[0] == '"' && whole[1..] == QuoteBody(table, s) + tail;
    UnquoteBodyOfQuoteBody(table, s, tail);
    assert tail[1..] == t;
  }

  // ---- The shape of literals -----------------------------------------------------------------

  /** The bytes of a passed-through code point hold neither quote nor backslash unless they are it. */
  lemma PlainRune(s: Text)
    requires RuneLen(s) > 0 && s[0] != '"' && s[0] != '\\'
    ensures '"' !in s[..RuneLen(s)] && '\\' !in s[..RuneLen(s)]
  {
    assert forall i :: 0 < i < RuneLen(s) ==> V(s[i]) >= 0x80;
  }

  lemma {:induction false} HexHasNoQuote(s: Text)
    requires HexValue(s).Some?
    ensures '"' !in s && '\\' !in s
  {
    if s != [] {
      HexHasNoQuote(s[..|s| - 1]);
      assert s == s[..|s| - 1] + [s[|s| - 1]];
    }
  }

  /** A unit is a backslash pair, or a byte that is neither, followed by bytes that are neither. */
  lemma UnitShape(s: Text) returns (k: nat)
    requires s != [] && s[0] != '"' && UnquoteUnit(s).Some?
    ensures k <= |s| && UnquoteUnit(s).value.rest == s[k..]
    ensures s[0] == '\\' ==> 2 <= k && '"' !in s[2..k] && '\\' !in s[2..k]
    ensures s[0] != '\\' ==> 1 <= k && '"' !in s[..k] && '\\' !in s[..k]
  {
    hide HexValue, Encode, Rune;
    k := |s| - |UnquoteUnit(s).value.rest|;
    if s[0] != '\\' {
      if V(s[0]) >= 0x80 && RuneLen(s) > 0 {
        PlainRune(s);
      }
    } else if s[1] == 'x' {
      HexHasNoQuote(s[2..4]);
    } else if s[1] == 'u' {
      HexHasNoQuote(s[2..6]);
    } else if s[1] == 'U' {
      HexHasNoQuote(s[2..10]);
    }
  }

  lemma LiteralNotEmpty(s: Text)
    requires ScanLiteral(s).Some?
    ensures s != []
  {
  }

  /** A text that reads as the string literal of `v` whatever follows it. */
  ghost predicate IsLiteral(lit: Text, v: Text) {
    forall t: Text :: ScanLiteral(lit + t) == Some(Unit(v, t))
  }

  /** Up to an ASCII byte further on, decoding depends on nothing beyond that byte. */
  lemma RuneLenLocal(a: Text, r: Text, t: Text)
    requires |a| >= 2 && V(a[|a| - 1]) < 0x80
    ensures RuneLen(a + r) == RuneLen(a + t) && RuneLen(a + r) < |a|
  {
    var x, y := a + r, a + t;
    assert forall i :: 0 <= i < |a| ==> x[i] == a[i] && y[i] == a[i];
  }

  lemma RuneSame(a: Text, r: Text, t: Text)
    requires |a| >= 2 && V(a[|a| - 1]) < 0x80 && RuneLen(a + r) > 0
    ensures RuneLen(a + t) == RuneLen(a + r) && Rune(a + t) == Rune(a + r)
  {
    RuneLenLocal(a, r, t);
    var x, y := a + r, a + t;
    assert forall i :: 0 <= i < |a| ==> x[i] == a[i] && y[i] == a[i];
  }

  lemma HexSame(a: Text, r: Text, t: Text, n: nat, oneByte: bool)
    requires 2 + n <= |a|
    ensures HexEscape(a + r, n, oneByte).Some? ==>
              HexEscape(a + t, n, oneByte) == Some(Unit(HexEscape(a + r, n, oneByte).value.bytes, a[2 + n..] + t))
    ensures HexEscape(a + r, n, oneByte).Some? ==> HexEscape(a + r, n, oneByte).value.rest == a[2 + n..] + r
  {
    hide HexValue, Encode;
    assert (a + r)[2..2 + n] == a[2..2 + n] == (a + t)[2..2 + n];
    assert (a + r)[2 + n..] == a[2 + n..] + r && (a + t)[2 + n..] == a[2 + n..] + t;
  }

  /** How long an escape is, by its letter. */
  function EscapeLen(c: Byte): nat {
    if c == 'x' || '0' <= c <= '7' then 4 else if c == 'u' then 6 else if c == 'U' then 10 else 2
  }

  lemma EscapeSame(a: Text, r: Text, t: Text)
    requires |a| >= 3 && a[0] == '\\' && UnquoteUnit(a + r).Some? && EscapeLen(a[1]) < |a|
    ensures var u := UnquoteUnit(a + r).value;
            u.rest == a[EscapeLen(a[1])..] + r &&
            UnquoteUnit(a + t) == Some(Unit(u.bytes, a[EscapeLen(a[1])..] + t))
  {
    hide HexEscape;
    var x, y, n := a + r, a + t, EscapeLen(a[1]);
    assert forall i :: 0 <= i < |a| ==> x[i] == a[i] && y[i] == a[i];
    assert x[n..] == a[n..] + r && y[n..] == a[n..] + t;
    if a[1] == 'x' {
      HexSame(a, r, t, 2, true);
    } else if a[1] == 'u' {
      HexSame(a, r, t, 4, false);
    } else if a[1] == 'U' {
      HexSame(a, r, t, 8, false);
    }
  }

  lemma EscapeRest(s: Text)
    requires |s| >= 2 && s[0] == '\\' && UnquoteUnit(s).Some?
    ensures EscapeLen(s[1]) <= |s| && UnquoteUnit(s).value.rest == s[EscapeLen(s[1])..]
  {
    hide HexValue, Encode;
  }

  lemma WideUnit(s: Text)
    requires s != [] && V(s[0]) >= 0x80
    ensures RuneLen(s) > 0 ==> UnquoteUnit(s) == Some(Unit(Encode(Rune(s)), s[RuneLen(s)..]))
    ensures RuneLen(s) == 0 ==> UnquoteUnit(s) == Some(Unit(Encode(REPLACEMENT), s[1..]))
  {
    hide Encode, Rune, RuneLen;
  }

  lemma WideSame(a: Text, r: Text, t: Text, k: nat)
    requires |a| >= 2 && V(a[|a| - 1]) < 0x80 && k < |a| && V(a[0]) >= 0x80
    requires UnquoteUnit(a + r).Some? && UnquoteUnit(a + r).value.rest == a[k..] + r
    ensures UnquoteUnit(a + t) == Some(Unit(UnquoteUnit(a + r).value.bytes, a[k..] + t))
  {
    hide *;
    var x, y := a + r, a + t;
    assert x[0] == a[0] && y[0] == a[0];
    WideUnit(x);
    WideUnit(y);
    RuneLenLocal(a, r, t);
    if RuneLen(x) > 0 {
      RuneSame(a, r, t);
    }
    var n := if RuneLen(x) > 0 then RuneLen(x) else 1;
    assert |x[n..]| == |a[k..] + r|;
    assert y[k..] == a[k..] + t;
  }

  /** A unit that ends before the last byte of `a`, an ASCII one, is the same whatever follows `a`. */
  lemma UnitLocal(a: Text, r: Text, t: Text, k: nat)
    requires |a| >= 2 && V(a[|a| - 1]) < 0x80 && k < |a|
    requires UnquoteUnit(a + r).Some? && UnquoteUnit(a + r).value.rest == a[k..] + r
    ensures UnquoteUnit(a + t) == Some(Unit(UnquoteUnit(a + r).value.bytes, a[k..] + t))
  {
    var x, y := a + r, a + t;
    if V(a[0]) >= 0x80 {
      WideSame(a, r, t, k);
    } else if a[0] == '\\' {
      hide UnquoteUnit, EscapeLen;
      assert x[0] == a[0] && x[1] == a[1];
      EscapeRest(x);
      assert |x[EscapeLen(a[1])..]| == |a[k..] + r|;
      EscapeSame(a, r, t);
    } else {
      assert x[0] == a[0] && y[0] == a[0] && x[1..] == a[1..] + r && y[1..] == a[1..] + t;
      assert k == 1 by { assert |x[1..]| == |a[k..] + r|; }
    }
  }

  /** A unit in front of a body that ends with its quote at `n`. */
  lemma BodyStep(s: Text, t: Text, k: nat, n: nat, bytes: Text)
    requires 0 < k < n <= |s| && s[0] != '"' && s[n - 1] == '"'
    requires UnquoteUnit(s).Some? && UnquoteUnit(s).value.rest == s[k..]
    requires UnquoteBody(s[k..n] + t) == Some(Unit(bytes, t))
    ensures UnquoteBody(s[..n] + t) == Some(Unit(UnquoteUnit(s).value.bytes + bytes, t))
  {
    hide UnquoteUnit, UnquoteBody;
    var a := s[..n];
    assert a + s[n..] == s && a[k..] == s[k..n] && s[k..n] + s[n..] == s[k..] && (a + t)[0] == s[0];
    UnitLocal(a, s[n..], t, k);
    UnquoteStep(a + t, Unit(UnquoteUnit(s).value.bytes, a[k..] + t), Unit(bytes, t));
  }

  lemma BodyUnit(s: Text, k: nat)
    requires s != [] && s[0] != '"' && k <= |s| && UnquoteBody(s).Some?
    requires UnquoteUnit(s).Some? && UnquoteUnit(s).value.rest == s[k..]
    ensures UnquoteBody(s[k..]).Some? && |s[k..]| < |s|
    ensures var tail := UnquoteBody(s[k..]).value;
            UnquoteBody(s).value == Unit(UnquoteUnit(s).value.bytes + tail.bytes, tail.rest)
  {
    hide UnquoteUnit;
  }

  lemma SliceFrom<T>(s: seq<T>, k: nat, n: nat)
    requires k < n <= |s|
    ensures s[k..][n - k..] == s[n..] && s[k..][..n - k] == s[k..n] && s[k..][n - k - 1] == s[n - 1]
  {
  }

  lemma BodyEmpty(s: Text, t: Text)
    requires s != [] && s[0] == '"'
    ensures UnquoteBody(s) == Some(Unit([], s[1..])) && UnquoteBody(s[..1] + t) == Some(Unit([], t))
  {
    assert (s[..1] + t)[1..] == t;
  }

  lemma BodyStarts(s: Text)
    requires UnquoteBody(s).Some?
    ensures s != [] && (s[0] != '"' ==> UnquoteUnit(s).Some?)
  {
    hide UnquoteUnit;
  }

  /** Where a body ends: right after its closing quote. */
  lemma {:induction false} BodyEnds(s: Text)
    requires UnquoteBody(s).Some?
    ensures var r := UnquoteBody(s).value.rest; |r| < |s| && s[|s| - |r|..] == r && s[|s| - |r| - 1] == '"'
    decreases |s|
  {
    hide *;
    BodyStarts(s);
    if s[0] == '"' {
      BodyEmpty(s, []);
    } else {
      var k := UnitShape(s);
      BodyUnit(s, k);
      BodyEnds(s[k..]);
      SliceFrom(s, k, |s| - |UnquoteBody(s[k..]).value.rest|);
    }
  }

  lemma {:induction false} BodyLocal(s: Text, t: Text)
    requires UnquoteBody(s).Some?
    ensures var u := UnquoteBody(s).value;
            |u.rest| <= |s| && UnquoteBody(s[..|s| - |u.rest|] + t) == Some(Unit(u.bytes, t))
    decreases |s|
  {
    hide *;
    BodyStarts(s);
    if s[0] == '"' {
      BodyEmpty(s, t);
    } else {
      var k := UnitShape(s);
      BodyUnit(s, k);
      var tail := UnquoteBody(s[k..]).value;
      var n := |s| - |tail.rest|;
      BodyEnds(s);
      BodyEnds(s[k..]);
      BodyLocal(s[k..], t);
      SliceFrom(s, k, n);
      BodyStep(s, t, k, n, tail.bytes);
    }
  }

  lemma {:induction false} IndexPast(u: Text, t: Text, c: Byte)
    requires c !in u && t != [] && t[0] == c
    ensures IndexOf(u + t, c) == |u|
  {
    if u == [] {
      assert u + t == t;
    } else {
      assert (u + t)[0] == u[0] && (u + t)[1..] == u[1..] + t;
      IndexPast(u[1..], t, c);
    }
  }

  lemma RawLocal(s: Text, t: Text)
    requires s != [] && s[0] == '`' && ScanLiteral(s).Some?
    ensures var u := ScanLiteral(s).value;
            var n := |s| - |u.rest|;
            && n > 1 && s[n..] == u.rest && s[n - 1] == '`'
            && ScanLiteral(s[..n] + t) == Some(Unit(u.bytes, t))
  {
    hide Filter;
    var end := IndexOf(s[1..], '`');
    var inner, n := s[1..][..end], end + 2;
    var x := s[..n] + t;
    assert x[0] == '`' && x[1..] == inner + (['`'] + t);
    IndexPast(inner, ['`'] + t, '`');
    assert x[1..][..end] == inner && x[1..][end + 1..] == t;
  }

  /** A character in single quotes that is no quote, and its closing quote. */
  lemma SingleUnit(s: Text, t: Text, k: nat)
    requires s != [] && s[0] != '\'' && s[0] != '"' && !(s[0] == '\\' && |s| >= 2 && (s[1] == '\'' || s[1] == '"'))
    requires 0 < k < |s| && s[k] == '\'' && UnquoteUnit(s).Some? && UnquoteUnit(s).value.rest == s[k..]
    ensures UnquoteRune(s[..k + 1] + t) == Some(Unit(UnquoteUnit(s).value.bytes, t))
  {
    hide UnquoteUnit;
    var a := s[..k + 1];
    var x := a + t;
    assert a + s[k + 1..] == s && a[k..] == ['\''] && a[k..] + s[k + 1..] == s[k..];
    UnitLocal(a, s[k + 1..], t, k);
    assert x[0] == s[0] && x[1] == s[1] && (a[k..] + t)[1..] == t;
  }

  lemma SingleLocal(s: Text, t: Text)
    requires UnquoteRune(s).Some?
    ensures var u := UnquoteRune(s).value;
            var n := |s| - |u.rest|;
            && n > 0 && s[n..] == u.rest && s[n - 1] == '\''
            && UnquoteRune(s[..n] + t) == Some(Unit(u.bytes, t))
  {
    if s[0] == '\'' {
      assert (s[..1] + t)[1..] == t;
    } else if s[0] == '"' {
      var x := s[..2] + t;
      assert s[1..][1..] == s[2..] && s[1..][0] == s[1] && x[1..][0] == s[1] && x[1..][1..] == t;
    } else if s[0] == '\\' && s[1] == '\'' {
      var x := s[..3] + t;
      assert s[2..][1..] == s[3..] && s[2..][0] == s[2] && x[2..][0] == s[2] && x[2..][1..] == t && x[1] == s[1];
    } else {
      var k := UnitShape(s);
      hide UnquoteUnit;
      assert s[k..][0] == s[k] && s[k..][1..] == s[k + 1..];
      SingleUnit(s, t, k);
    }
  }

  lemma Shifted(s: Text, n: nat, t: Text)
    requires 1 < n <= |s|
    ensures (s[..n] + t)[0] == s[0] && (s[..n] + t)[1..] == s[1..][..n - 1] + t
    ensures s[1..][n - 1..] == s[n..] && s[1..][n - 2] == s[n - 1]
  {
  }

  lemma LiteralKind(s: Text)
    requires s != []
    ensures s[0] == '"' ==> ScanLiteral(s) == UnquoteBody(s[1..])
    ensures s[0] == '\'' ==> ScanLiteral(s) == UnquoteRune(s[1..])
    ensures ScanLiteral(s).Some? ==> s[0] == '"' || s[0] == '`' || s[0] == '\''
  {
    hide UnquoteBody, UnquoteRune;
  }

  lemma LiteralAnywhere(s: Text, t: Text)
    requires ScanLiteral(s).Some?
    ensures var u := ScanLiteral(s).value;
            var n := |s| - |u.rest|;
            && n > 1 && s[n..] == u.rest && ScanLiteral(s[..n] + t) == Some(Unit(u.bytes, t))
            && s[0] == s[n - 1] && (s[0] == '"' || s[0] == '`' || s[0] == '\'')
  {
    LiteralNotEmpty(s);
    hide *;
    LiteralKind(s);
    var n := |s| - |ScanLiteral(s).value.rest|;
    if s[0] == '`' {
      RawLocal(s, t);
    } else {
      if s[0] == '"' {
        BodyEnds(s[1..]);
        BodyLocal(s[1..], t);
      } else {
        SingleLocal(s[1..], t);
      }
      Shifted(s, n, t);
      LiteralKind(s[..n] + t);
    }
  }

  /** Whatever is read as a literal is one on its own: it begins and ends with the same quote. */
  lemma LiteralLocal(s: Text)
    requires ScanLiteral(s).Some?
    ensures var u := ScanLiteral(s).value;
            var n := |s| - |u.rest|;
            && n > 1 && s[n..] == u.rest && IsLiteral(s[..n], u.bytes)
            && s[0] == s[n - 1] && (s[0] == '"' || s[0] == '`' || s[0] == '\'')
  {
    hide ScanLiteral;
    var u := ScanLiteral(s).value;
    var n := |s| - |u.rest|;
    LiteralAnywhere(s, []);
    forall t: Text ensures ScanLiteral(s[..n] + t) == Some(Unit(u.bytes, t)) {
      LiteralAnywhere(s, t);
    }
  }

  /** What Quote writes is a literal of what it was given. */
  lemma QuoteIsLiteral(table: PrintTable, v: Text)
    ensures IsLiteral(Quote(table, v), v)
  {
    hide Quote, ScanLiteral;
    forall t: Text ensures ScanLiteral(Quote(table, v) + t) == Some(Unit(v, t)) {
      ScanQuote(table, v, t);
    }
  }

  lemma LiteralEnds(lit: Text, v: Text)
    requires IsLiteral(lit, v)
    ensures |lit| > 1 && lit[0] == lit[|lit| - 1] && (lit[0] == '"' || lit[0] == '`' || lit[0] == '\'')
    ensures ScanLiteral(lit) == Some(Unit(v, []))
  {
    assert lit + [] == lit;
    assert ScanLiteral(lit + []) == Some(Unit(v, []));
    LiteralLocal(lit);
  }

  /** Between backquotes every byte stands for itself, except that carriage returns are left out. */
  lemma RawIsLiteral(v: Text)
    requires '`' !in v
    ensures IsLiteral("`" + v + "`", Filter(v, (c: Byte) => c != '\r'))
    ensures '\r' !in v ==> IsLiteral("`" + v + "`", v)
  {
    hide ScanLiteral, Filter;
    forall t: Text ensures ScanLiteral("`" + v + "`" + t) == Some(Unit(Filter(v, (c: Byte) => c != '\r'), t)) {
      ReadRaw(v, t);
    }
    if '\r' !in v {
      FilterAll(v, (c: Byte) => c != '\r');
    }
  }

  lemma ReadRaw(v: Text, t: Text)
    requires '`' !in v
    ensures ScanLiteral("`" + v + "`" + t) == Some(Unit(Filter(v, (c: Byte) => c != '\r'), t))
  {
    hide Filter;
    var s, tail := "`" + v + "`" + t, ['`'] + t;
    assert s[0] == '`' && s[1..] == v + tail;
    IndexPast(v, tail, '`');
    assert s[1..][..|v|] == v && s[1..][|v| + 1..] == t;
  }

  lemma ReadOctal(a: int, b: int, c: int, t: Text)
    requires 0 <= a < 4 && 0 <= b < 8 && 0 <= c < 8
    ensures UnquoteUnit(['\\', B(0x30 + a), B(0x30 + b), B(0x30 + c)] + t) == Some(Unit([B(64 * a + 8 * b + c)], t))
  {
    var u := ['\\', B(0x30 + a), B(0x30 + b), B(0x30 + c)] + t;
    assert u[0] == '\\' && u[1] == B(0x30 + a) && u[2] == B(0x30 + b) && u[3] == B(0x30 + c) && u[4..] == t;
    assert LetterValue(u[1]).None? && '0' <= u[1] <= '7';
    assert UnquoteUnit(u) == OctalEscape(u);
  }

  /** Three octal digits denote a byte. */
  lemma OctalIsLiteral(a: int, b: int, c: int)
    requires 0 <= a < 4 && 0 <= b < 8 && 0 <= c < 8
    ensures IsLiteral(['"', '\\', B(0x30 + a), B(0x30 + b), B(0x30 + c), '"'], [B(64 * a + 8 * b + c)])
  {
    var digits: Text := ['\\', B(0x30 + a), B(0x30 + b), B(0x30 + c)];
    var quote: Text, lit: Text := ['"'], ['"', '\\', B(0x30 + a), B(0x30 + b), B(0x30 + c), '"'];
    var byte: Text := [B(64 * a + 8 * b + c)];
    forall t: Text ensures ScanLiteral(lit + t) == Some(Unit(byte, t)) {
      var s := lit + t;
      assert s[0] == '"' && s[1..] == digits + (quote + t);
      ReadOctal(a, b, c, quote + t);
      hide UnquoteUnit;
      assert (quote + t)[1..] == t && UnquoteBody(quote + t) == Some(Unit([], t));
      UnquoteStep(digits + (quote + t), Unit(byte, quote + t), Unit([], t));
      assert byte + [] == byte;
    }
  }

  lemma ReadSingle(c: Byte, t: Text)
    requires V(c) < 0x80 && c != '\'' && c != '\\' && c != '\n'
    ensures ScanLiteral(['\'', c, '\''] + t) == Some(Unit([c], t))
  {
    var s := ['\'', c, '\''] + t;
    assert s[0] == '\'' && s[1..] == [c, '\''] + t;
    var u := s[1..];
    assert u[0] == c && u[1..] == ['\''] + t && (['\''] + t)[1..] == t;
    assert UnquoteSingle(u) == Some(Unit([c], u[1..]));
  }

  lemma ReadSingleQuote(t: Text)
    ensures ScanLiteral(['\'', '\\', '\'', '\''] + t) == Some(Unit(['\''], t))
  {
    var s := ['\'', '\\', '\'', '\''] + t;
    assert s[0] == '\'' && s[1..] == ['\\', '\'', '\''] + t;
    var u := s[1..];
    assert u[0] == '\\' && u[1] == '\'' && u[2..] == ['\''] + t && (['\''] + t)[1..] == t;
  }

  /** Single quotes hold one character, with a backslash if it is the single quote itself. */
  lemma SingleIsLiteral(c: Byte)
    requires V(c) < 0x80 && c != '\'' && c != '\\' && c != '\n'
    ensures IsLiteral(['\'', c, '\''], [c]) && IsLiteral(['\'', '\\', '\'', '\''], ['\''])
  {
    hide ScanLiteral;
    forall t: Text
      ensures ScanLiteral(['\'', c, '\''] + t) == Some(Unit([c], t))
      ensures ScanLiteral(['\'', '\\', '\'', '\''] + t) == Some(Unit(['\''], t))
    {
      ReadSingle(c, t);
      ReadSingleQuote(t);
    }
  }

  /** Printable ASCII without quotes and backslashes is quoted as it stands. */
  lemma {:induction false} QuotePlain(table: PrintTable, v: Text)
    requires forall c :: c in v ==> ' ' <= c <= '~' && c != '"' && c != '\\'
    ensures QuoteBody(table, v) == v && Quote(table, v) == "\"" + v + "\""
  {
    if v != [] {
      assert v == [v[0]] + v[1..] && v[0] in v && forall c :: c in v[1..] ==> c in v;
      QuotePlain(table, v[1..]);
      assert v[..1] == [v[0]];
    }
  }
}
