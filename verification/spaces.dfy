/** strings.TrimSpace: Unicode white space stripped from both ends. */
module Spaces {
  import opened Texts
  import opened Utf8

  /** The length of the white-space code point at the front of `s`; 0 when there is none. */
  function SpaceLen(s: Text): (n: nat)
    ensures n <= |s| && n <= 3
    ensures n == 1 <==> s != [] && (s[0] == ' ' || '\t' <= s[0] <= '\r')
    ensures n > 1 ==> V(s[0]) >= 0x80
  {
    if s == [] then 0
    else if s[0] == ' ' || '\t' <= s[0] <= '\r' then 1
    else if |s| >= 2 && V(s[0]) == 0xC2 && (V(s[1]) == 0x85 || V(s[1]) == 0xA0) then 2
    else if |s| >= 3 && IsWideSpace(V(s[0]), V(s[1]), V(s[2])) then 3
    else 0
  }

  /** U+1680, U+2000 to U+200A, U+2028, U+2029, U+202F, U+205F, U+3000. */
  predicate IsWideSpace(a: int, b: int, c: int) {
    || (a == 0xE1 && b == 0x9A && c == 0x80)
    || (a == 0xE2 && b == 0x80 && (0x80 <= c <= 0x8A || c == 0xA8 || c == 0xA9 || c == 0xAF))
    || (a == 0xE2 && b == 0x81 && c == 0x9F)
    || (a == 0xE3 && b == 0x80 && c == 0x80)
  }

  /** The length of the white-space code point at the end of `s`; 0 when there is none. */
  function LastSpaceLen(s: Text): (n: nat)
    ensures n <= |s|
  {
    var k := |s|;
    if k >= 1 && (s[k - 1] == ' ' || '\t' <= s[k - 1] <= '\r') then 1
    else if k >= 2 && V(s[k - 2]) == 0xC2 && (V(s[k - 1]) == 0x85 || V(s[k - 1]) == 0xA0) then 2
    else if k >= 3 && IsWideSpace(V(s[k - 3]), V(s[k - 2]), V(s[k - 1])) then 3
    else 0
  }

  function TrimLeft(s: Text): (r: Text)
    ensures |r| <= |s|
    decreases |s|
  {
    if SpaceLen(s) > 0 then TrimLeft(s[SpaceLen(s)..]) else s
  }

  function TrimRight(s: Text): (r: Text)
    ensures |r| <= |s|
    decreases |s|
  {
    if LastSpaceLen(s) > 0 then TrimRight(s[..|s| - LastSpaceLen(s)]) else s
  }

  function TrimSpace(s: Text): (r: Text)
    ensures |r| <= |s|
  {
    TrimRight(TrimLeft(s))
  }

  predicate Solid(c: Byte) {
    V(c) < 0x80 && c != ' ' && !('\t' <= c <= '\r')
  }

  /** Text that begins and ends with a visible ASCII byte has nothing to trim. */
  predicate Tight(s: Text) {
    s != [] ==> Solid(s[0]) && Solid(s[|s| - 1])
  }

  lemma TrimTight(s: Text)
    requires Tight(s)
    ensures TrimSpace(s) == s
  {
  }

  lemma TrimOne(c: Byte, s: Text)
    requires Tight(s) && (c == ' ' || '\t' <= c <= '\r')
    ensures TrimSpace([c] + s) == s
  {
    var t := [c] + s;
    assert SpaceLen(t) == 1 && t[1..] == s;
    assert TrimLeft(t) == TrimLeft(s);
    hide TrimRight;
    TrimTight(s);
  }

  // ---- White space taken off, and put back ------------------------------------------------------

  /** White-space code points, one after the other. */
  predicate White(w: Text)
    decreases |w|
  {
    w != [] ==> SpaceLen(w) > 0 && White(w[SpaceLen(w)..])
  }

  /** Bytes that occur in white space: no quote, brace, backslash or identifier byte among them. */
  predicate SpaceByte(c: Byte) {
    c == ' ' || '\t' <= c <= '\r' || V(c) >= 0x80
  }

  predicate Blank(w: Text) {
    forall i :: 0 <= i < |w| ==> SpaceByte(w[i])
  }

  lemma {:induction false} WhiteIsBlank(w: Text)
    requires White(w)
    ensures Blank(w)
    decreases |w|
  {
    if w != [] {
      var n := SpaceLen(w);
      WhiteIsBlank(w[n..]);
      forall i | 0 <= i < |w| ensures SpaceByte(w[i]) {
        assert i >= n ==> w[i] == w[n..][i - n];
      }
    }
  }

  /** Whether a code point is white space does not depend on what follows it. */
  lemma SpaceLenLocal(w: Text, t: Text)
    requires SpaceLen(w) > 0
    ensures SpaceLen(w + t) == SpaceLen(w) && SpaceLen(w[..SpaceLen(w)]) == SpaceLen(w)
  {
    assert forall i :: 0 <= i < |w| ==> (w + t)[i] == w[i];
  }

  lemma {:induction false} WhiteJoin(v: Text, w: Text)
    requires White(v) && White(w)
    ensures White(v + w)
    decreases |v|
  {
    hide *;
    if v == [] {
      assert v + w == w;
    } else {
      var n := SpaceLen(v);
      WhiteStep(v);
      SpaceLenLocal(v, w);
      WhiteJoin(v[n..], w);
      assert (v + w)[n..] == v[n..] + w;
      WhiteStep(v + w);
    }
  }

  lemma WhiteStep(w: Text)
    requires w != []
    ensures White(w) <==> SpaceLen(w) > 0 && White(w[SpaceLen(w)..])
  {
    hide SpaceLen;
  }

  lemma WhiteOne(w: Text)
    requires w != [] && SpaceLen(w) == |w|
    ensures White(w)
  {
    assert w[|w|..] == [];
  }

  /** A white-space code point is found from behind as well, and from the front where it was found from behind. */
  lemma FromBehind(x: Text, r: Text)
    requires r != [] && SpaceLen(r) == |r|
    ensures LastSpaceLen(x + r) == |r| && (x + r)[..|x|] == x
  {
    var s := x + r;
    assert s[|s| - 1] == r[|r| - 1] && (|r| > 1 ==> s[|s| - 2] == r[|r| - 2]) && (|r| > 2 ==> s[|s| - 3] == r[0]);
  }

  lemma FromFront(x: Text)
    requires LastSpaceLen(x) > 0
    ensures SpaceLen(x[|x| - LastSpaceLen(x)..]) == LastSpaceLen(x)
  {
  }

  /** White space split before its last code point. */
  lemma {:induction false} WhiteLast(w: Text) returns (k: nat)
    requires White(w) && w != []
    ensures k < |w| && White(w[..k]) && SpaceLen(w[k..]) == |w[k..]|
    decreases |w|
  {
    var n := SpaceLen(w);
    SpaceLenLocal(w, []);
    if w[n..] == [] {
      k := 0;
      assert w[0..] == w;
    } else {
      var j := WhiteLast(w[n..]);
      k := n + j;
      assert w[n..][j..] == w[k..] && w[..k] == w[..n] + w[n..][..j];
      WhiteOne(w[..n]);
      WhiteJoin(w[..n], w[n..][..j]);
    }
  }

  lemma {:induction false} TrimLeftWhite(w: Text, t: Text)
    requires White(w) && SpaceLen(t) == 0
    ensures TrimLeft(w + t) == t
    decreases |w|
  {
    if w == [] {
      assert w + t == t;
    } else {
      var n := SpaceLen(w);
      SpaceLenLocal(w, t);
      assert (w + t)[n..] == w[n..] + t;
      TrimLeftWhite(w[n..], t);
    }
  }

  lemma {:induction false} TrimRightWhite(t: Text, w: Text)
    requires White(w) && LastSpaceLen(t) == 0
    ensures TrimRight(t + w) == t
    decreases |w|
  {
    if w == [] {
      assert t + w == t;
    } else {
      hide LastSpaceLen;
      var k := WhiteLast(w);
      assert t + w == t + w[..k] + w[k..];
      FromBehind(t + w[..k], w[k..]);
      TrimRightWhite(t, w[..k]);
    }
  }

  /** Trimming takes exactly the white space around a text that begins and ends with a visible ASCII byte. */
  lemma TrimAround(w: Text, t: Text, w': Text)
    requires White(w) && White(w') && Tight(t)
    ensures TrimSpace(w + (t + w')) == t
  {
    if t == [] {
      assert t + w' == w';
      WhiteJoin(w, w');
      assert w + w' + [] == w + w';
      TrimLeftWhite(w + w', []);
    } else {
      assert (t + w')[0] == t[0];
      TrimLeftWhite(w, t + w');
      TrimRightWhite(t, w');
    }
  }

  lemma TrimBefore(w: Text, t: Text)
    requires White(w) && Tight(t)
    ensures TrimSpace(w + t) == t
  {
    TrimAround(w, t, []);
    assert t + [] == t;
  }

  lemma TrimLeftStep(x: Text)
    ensures SpaceLen(x) == 0 ==> TrimLeft(x) == x
    ensures SpaceLen(x) > 0 ==> TrimLeft(x) == TrimLeft(x[SpaceLen(x)..])
  {
    hide SpaceLen;
  }

  lemma {:induction false} TrimLeftSplit(x: Text) returns (w: Text)
    ensures x == w + TrimLeft(x) && White(w) && SpaceLen(TrimLeft(x)) == 0
    decreases |x|
  {
    TrimLeftStep(x);
    hide SpaceLen, TrimLeft;
    var n := SpaceLen(x);
    if n == 0 {
      w := x[..0];
    } else {
      var more := TrimLeftSplit(x[n..]);
      w := x[..n] + more;
      SpaceLenLocal(x, []);
      WhiteOne(x[..n]);
      WhiteJoin(x[..n], more);
      Regroup(x[..n], more, TrimLeft(x));
      assert x == x[..n] + x[n..];
    }
  }

  lemma {:induction false} TrimRightSplit(x: Text) returns (w: Text)
    ensures x == TrimRight(x) + w && White(w) && LastSpaceLen(TrimRight(x)) == 0
    decreases |x|
  {
    hide LastSpaceLen, SpaceLen;
    var k := |x| - LastSpaceLen(x);
    if k == |x| {
      w := [];
    } else {
      var more := TrimRightSplit(x[..k]);
      w := more + x[k..];
      FromFront(x);
      WhiteOne(x[k..]);
      WhiteJoin(more, x[k..]);
      Regroup(TrimRight(x), more, x[k..]);
      assert x == x[..k] + x[k..];
    }
  }

  lemma TrimSplit(x: Text) returns (w: Text, w': Text)
    ensures x == w + (TrimSpace(x) + w') && White(w) && White(w') && Blank(w) && Blank(w')
    ensures LastSpaceLen(TrimSpace(x)) == 0
  {
    hide TrimLeft, TrimRight, White, Blank;
    w := TrimLeftSplit(x);
    w' := TrimRightSplit(TrimLeft(x));
    WhiteIsBlank(w);
    WhiteIsBlank(w');
  }

  /** Inside trimmed text only the left needs trimming. */
  lemma TrimSuffix(x: Text) returns (w: Text)
    requires LastSpaceLen(x) == 0
    ensures x == w + TrimSpace(x) && White(w) && Blank(w) && LastSpaceLen(TrimSpace(x)) == 0
  {
    w := TrimLeftSplit(x);
    var y := TrimLeft(x);
    hide TrimLeft, White, Blank;
    WhiteIsBlank(w);
    assert y == x[|w|..];
    assert LastSpaceLen(y) == 0;
  }

  lemma SuffixUntrimmed(x: Text, k: nat)
    requires k <= |x| && LastSpaceLen(x) == 0
    ensures LastSpaceLen(x[k..]) == 0
  {
  }
}
