/** UTF-8 as Go's unicode/utf8 decodes and encodes it, on bytes. */
module Utf8 {
  import opened Texts

  function B(n: int): Byte
    requires 0 <= n < 256
  {
    n as char
  }

  function V(c: Byte): (n: int)
    ensures 0 <= n < 256 && B(n) == c
  {
    c as int
  }

  predicate Between(s: Text, i: nat, lo: int, hi: int) {
    i < |s| && lo <= V(s[i]) <= hi
  }

  predicate Continues(s: Text, i: nat) {
    Between(s, i, 0x80, 0xBF)
  }

  /** The length of the encoding at the front of `s`; 0 when there is none. */
  function RuneLen(s: Text): (w: nat)
    ensures w <= |s| && w <= 4
    ensures s != [] && V(s[0]) < 0x80 ==> w == 1
    ensures w == 1 ==> V(s[0]) < 0x80
  {
    if s == [] then 0
    else
      var b := V(s[0]);
      if b < 0x80 then 1
      else if 0xC2 <= b <= 0xDF && Continues(s, 1) then 2
      else if 0xE0 <= b <= 0xEF && Continues(s, 2) &&
              Between(s, 1, if b == 0xE0 then 0xA0 else 0x80, if b == 0xED then 0x9F else 0xBF) then 3
      else if 0xF0 <= b <= 0xF4 && Continues(s, 2) && Continues(s, 3) &&
              Between(s, 1, if b == 0xF0 then 0x90 else 0x80, if b == 0xF4 then 0x8F else 0xBF) then 4
      else 0
  }

  /** The code point at the front of `s`. */
  function Rune(s: Text): (r: int)
    requires RuneLen(s) > 0
    ensures ValidRune(r)
    ensures r < 0x80 <==> RuneLen(s) == 1
  {
    var w, b := RuneLen(s), V(s[0]);
    if w == 1 then b
    else if w == 2 then (b - 0xC0) * 64 + (V(s[1]) - 0x80)
    else if w == 3 then ((b - 0xE0) * 64 + (V(s[1]) - 0x80)) * 64 + (V(s[2]) - 0x80)
    else (((b - 0xF0) * 64 + (V(s[1]) - 0x80)) * 64 + (V(s[2]) - 0x80)) * 64 + (V(s[3]) - 0x80)
  }

  predicate ValidRune(r: int) {
    0 <= r < 0xD800 || 0xE000 <= r <= 0x10FFFF
  }

  function Encode(r: int): (s: Text)
    requires ValidRune(r)
    ensures s != []
  {
    if r < 0x80 then [B(r)]
    else if r < 0x800 then [B(0xC0 + r / 64), B(0x80 + r % 64)]
    else if r < 0x10000 then [B(0xE0 + r / 4096), B(0x80 + r / 64 % 64), B(0x80 + r % 64)]
    else [B(0xF0 + r / 262144), B(0x80 + r / 4096 % 64), B(0x80 + r / 64 % 64), B(0x80 + r % 64)]
  }

  lemma Sextets(a: int, b: int, c: int, d: int)
    requires 0 <= b < 64 && 0 <= c < 64 && 0 <= d < 64
    ensures var r := ((a * 64 + b) * 64 + c) * 64 + d;
            r % 64 == d && r / 64 % 64 == c && r / 4096 % 64 == b && r / 262144 == a
    ensures var r := (a * 64 + b) * 64 + c; r % 64 == c && r / 64 % 64 == b && r / 4096 == a
    ensures var r := a * 64 + b; r % 64 == b && r / 64 == a
  {
  }

  lemma EncodeWide(s: Text)
    requires RuneLen(s) == 3
    ensures Encode(Rune(s)) == s[..3]
  {
    Sextets(V(s[0]) - 0xE0, V(s[1]) - 0x80, V(s[2]) - 0x80, 0);
    assert 0x800 <= Rune(s) < 0x10000;
  }

  lemma EncodeAstral(s: Text)
    requires RuneLen(s) == 4
    ensures Encode(Rune(s)) == s[..4]
  {
    Sextets(V(s[0]) - 0xF0, V(s[1]) - 0x80, V(s[2]) - 0x80, V(s[3]) - 0x80);
    assert 0x10000 <= Rune(s);
  }

  /** Encoding gives back the bytes a code point was decoded from. */
  lemma EncodeRune(s: Text)
    requires RuneLen(s) > 0
    ensures Encode(Rune(s)) == s[..RuneLen(s)]
  {
    if RuneLen(s) == 3 {
      EncodeWide(s);
    } else if RuneLen(s) == 4 {
      EncodeAstral(s);
    } else if RuneLen(s) == 2 {
      Sextets(V(s[0]) - 0xC0, V(s[1]) - 0x80, 0, 0);
    }
  }

  /** Decoding looks no further than the encoding. */
  lemma RuneLocal(s: Text, t: Text)
    requires RuneLen(s) > 0
    ensures var u := s[..RuneLen(s)] + t; RuneLen(u) == RuneLen(s) && Rune(u) == Rune(s)
  {
    var w := RuneLen(s);
    var u := s[..w] + t;
    assert forall i :: 0 <= i < w ==> u[i] == s[i];
  }

  /** How much of `s` a scanner consumes at once: an encoding, or one undecodable byte. */
  function Step(s: Text): (n: nat)
    requires s != []
    ensures 1 <= n <= |s|
  {
    Max(1, RuneLen(s))
  }

  predicate ValidUtf8(s: Text) {
    s == [] || (RuneLen(s) > 0 && ValidUtf8(s[RuneLen(s)..]))
  }
}
