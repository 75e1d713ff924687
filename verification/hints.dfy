/**
 The CLI's own reading of a query, used to hint at labels without values: a scanner and a regexp
 over the raw text, against the server's parser.
 */
module Hints {
  import opened Texts
  import opened Utf8
  import opened Spaces
  import opened Quoting
  import opened Logql
  import opened Grammar
  import opened Ordering

  // ---- unquotedSelector ----------------------------------------------------------------------------

  /** The text up to the closing brace with every string literal blanked. */
  function Blanked(s: Text, inQuote: bool): (r: Text)
    decreases |s|
  {
    if s == [] then []
    else if inQuote && s[0] == '\\' then (if |s| == 1 then [] else Blanked(s[2..], true))
    else if s[0] == '"' then [' '] + Blanked(s[1..], !inQuote)
    else if inQuote then Blanked(s[1..], true)
    else if s[0] == '}' then []
    else [s[0]] + Blanked(s[1..], false)
  }

  function UnquotedSelector(query: Text): (r: Text) {
    var open := IndexOf(query, '{');
    if open == |query| then [] else Blanked(query[open + 1..], false)
  }

  method ScanUnquoted(query: Text) returns (b: Text)
    ensures b == UnquotedSelector(query)
  {
    var open := IndexOf(query, '{');
    if open == |query| {
      return [];
    }
    b := [];
    var inQuote := false;
    var i := open + 1;
    while i < |query|
      invariant open + 1 <= i <= |query| + 1
      invariant i <= |query| ==> UnquotedSelector(query) == b + Blanked(query[i..], inQuote)
      invariant i == |query| + 1 ==> UnquotedSelector(query) == b
    {
      var c := query[i];
      assert query[i..][0] == c && query[i..][1..] == query[i + 1..];
      assert i + 1 < |query| ==> query[i..][2..] == query[i + 2..];
      if inQuote && c == '\\' {
        i := i + 1;
      } else if c == '"' {
        Regroup(b, [' '], Blanked(query[i + 1..], !inQuote));
        inQuote := !inQuote;
        b := b + [' '];
      } else if inQuote {
      } else if c == '}' {
        return;
      } else {
        Regroup(b, [c], Blanked(query[i + 1..], false));
        b := b + [c];
      }
      i := i + 1;
    }
  }

  /** Both scanners stop at the same brace. */
  lemma {:induction false} SameBrace(s: Text, inQuote: bool, n: nat)
    requires BraceAfter(s, inQuote) == Ok(n)
    ensures n < |s| && Blanked(s, inQuote) == Blanked(s[..n], inQuote)
    decreases |s|
  {
    hide BraceAfter;
    if s == [] {
      BraceAtEnd(inQuote);
    } else {
      assert s[0..] == s;
      BraceAt(s, 0, inQuote);
      if inQuote && s[0] == '\\' {
        SameBrace(s[2..], true, n - 2);
        assert s[..n][2..] == s[2..][..n - 2];
      } else if s[0] == '"' {
        SameBrace(s[1..], !inQuote, n - 1);
        assert s[..n][1..] == s[1..][..n - 1];
      } else if s[0] == '}' && !inQuote {
        assert s[..0] == [];
      } else {
        SameBrace(s[1..], inQuote, n - 1);
        assert s[..n][1..] == s[1..][..n - 1];
      }
    }
  }

  lemma {:induction false} BraceInPrefix(s: Text, t: Text, inQuote: bool, n: nat)
    requires BraceAfter(s, inQuote) == Ok(n)
    ensures BraceAfter(s + t, inQuote) == Ok(n)
    decreases |s|
  {
    var u := s + t;
    assert u[0] == s[0] && u[1..] == s[1..] + t;
    if inQuote && s[0] == '\\' {
      assert u[2..] == s[2..] + t;
      BraceInPrefix(s[2..], t, true, n - 2);
    } else if s[0] == '"' {
      BraceInPrefix(s[1..], t, !inQuote, n - 1);
    } else if s[0] == '}' && !inQuote {
    } else {
      BraceInPrefix(s[1..], t, inQuote, n - 1);
    }
  }

  // ---- matcherPattern ------------------------------------------------------------------------------

  /** The class \s of the pattern. */
  predicate ReSpace(c: Byte) {
    c == ' ' || c == '\t' || c == '\n' || c == '\r' || V(c) == 12
  }

  function ReSpaceLen(s: Text): (n: nat)
    ensures n <= |s|
  {
    if s == [] || !ReSpace(s[0]) then 0 else 1 + ReSpaceLen(s[1..])
  }

  /** A label and its operator. */
  datatype Head = Head(name: Text, op: MatchOp)

  /** A match of the pattern at the front of `t`: an identifier, white space, an operator. */
  function HeadAt(t: Text): (r: Option<Scanned<Head>>)
    ensures r.Some? ==> |r.value.rest| < |t|
  {
    if t == [] || !IdentStart(t[0]) then None
    else
      var n := PartLen(t);
      var op := ScanMatchOp(t[n..][ReSpaceLen(t[n..])..]);
      if op.Err? then None else Some(Scanned(Head(t[..n], op.value.item), op.value.rest))
  }

  /** FindAllStringSubmatch: leftmost matches, left to right, without overlap. */
  function AllHeads(t: Text): (r: seq<Head>)
    decreases |t|
  {
    if t == [] then []
    else match HeadAt(t)
      case Some(m) => [m.item] + AllHeads(m.rest)
      case None => AllHeads(t[1..])
  }

  predicate Positive(op: MatchOp) {
    op == Equal || op == Regexp
  }

  /** The positive names among `heads` not yet in `out`, in order of first occurrence. */
  function Firsts(out: seq<Text>, heads: seq<Head>): (r: seq<Text>)
    decreases |heads|
  {
    if heads == [] then out
    else Firsts(if Positive(heads[0].op) && heads[0].name !in out then out + [heads[0].name] else out, heads[1..])
  }

  function RequiredLabels(query: Text): (r: seq<Text>) {
    Firsts([], AllHeads(UnquotedSelector(query)))
  }

  method FindRequiredLabels(query: Text) returns (labels: seq<Text>)
    ensures labels == RequiredLabels(query)
  {
    var text := ScanUnquoted(query);
    var heads := AllHeads(text);
    labels := [];
    for i := 0 to |heads|
      invariant Firsts([], heads) == Firsts(labels, heads[i..])
    {
      assert heads[i..][0] == heads[i] && heads[i..][1..] == heads[i + 1..];
      if (heads[i].op == Equal || heads[i].op == Regexp) && heads[i].name !in labels {
        labels := labels + [heads[i].name];
      }
    }
  }

  function HeadsOf(ms: seq<Matcher>): (r: seq<Head>) {
    if ms == [] then [] else [Head(ms[0].name, ms[0].op)] + HeadsOf(ms[1..])
  }

  // ---- Blanking follows the parser's pieces --------------------------------------------------------

  lemma {:induction false} BlankedPass(u: Text, t: Text)
    requires '"' !in u && '}' !in u
    ensures Blanked(u + t, false) == u + Blanked(t, false)
  {
    if u == [] {
      assert u + t == t;
    } else {
      assert (u + t)[0] == u[0] && (u + t)[1..] == u[1..] + t;
      assert u[0] in u && forall c :: c in u[1..] ==> c in u;
      BlankedPass(u[1..], t);
      Regroup([u[0]], u[1..], Blanked(t, false));
      assert u == [u[0]] + u[1..];
    }
  }

  lemma {:induction false} BlankedInside(u: Text, t: Text)
    requires '"' !in u && '\\' !in u
    ensures Blanked(u + t, true) == Blanked(t, true)
  {
    if u == [] {
      assert u + t == t;
    } else {
      assert (u + t)[0] == u[0] && (u + t)[1..] == u[1..] + t;
      assert u[0] in u && forall c :: c in u[1..] ==> c in u;
      BlankedInside(u[1..], t);
    }
  }

  lemma BlankedUnit(s: Text)
    requires s != [] && s[0] != '"' && UnquoteUnit(s).Some?
    ensures Blanked(s, true) == Blanked(UnquoteUnit(s).value.rest, true)
  {
    hide UnquoteUnit, Blanked;
    var k := UnitShape(s);
    if s[0] == '\\' {
      BlankedEscape(s);
      SplitAt(s, 2, k);
      BlankedInside(s[2..k], s[k..]);
    } else {
      SplitAt(s, 0, k);
      BlankedInside(s[0..k], s[k..]);
    }
  }

  lemma BlankedEscape(s: Text)
    requires |s| >= 2 && s[0] == '\\'
    ensures Blanked(s, true) == Blanked(s[2..], true)
  {
  }

  lemma {:induction false} BlankedBody(s: Text)
    requires UnquoteBody(s).Some?
    ensures Blanked(s, true) == [' '] + Blanked(UnquoteBody(s).value.rest, false)
    decreases |s|
  {
    hide UnquoteUnit;
    if s[0] != '"' {
      BlankedUnit(s);
      hide Blanked;
      BlankedBody(UnquoteUnit(s).value.rest);
    }
  }

  /** A double-quoted literal leaves two blanks. */
  lemma BlankedLiteral(s: Text)
    requires s != [] && s[0] == '"' && ScanLiteral(s).Some?
    ensures Blanked(s, false) == [' ', ' '] + Blanked(ScanLiteral(s).value.rest, false)
  {
    hide UnquoteBody;
    BlankedBody(s[1..]);
  }

  // ---- Heads in blanked text -----------------------------------------------------------------------

  lemma {:induction false} HeadsSkip(u: Text, t: Text)
    requires forall i :: 0 <= i < |u| ==> !IdentStart(u[i])
    ensures AllHeads(u + t) == AllHeads(t)
  {
    if u == [] {
      assert u + t == t;
    } else {
      assert (u + t)[0] == u[0] && (u + t)[1..] == u[1..] + t;
      HeadsSkip(u[1..], t);
    }
  }

  lemma {:induction false} ReSpaceRun(w: Text, t: Text)
    requires forall i :: 0 <= i < |w| ==> ReSpace(w[i])
    requires t != [] ==> !ReSpace(t[0])
    ensures ReSpaceLen(w + t) == |w|
  {
    if w == [] {
      assert w + t == t;
    } else {
      assert (w + t)[0] == w[0] && (w + t)[1..] == w[1..] + t;
      ReSpaceRun(w[1..], t);
    }
  }

  /** The pattern matches a label, its white space and its operator, and goes on after them. */
  lemma HeadFound(name: Text, w: Text, op: MatchOp, t: Text)
    requires IsIdent(name) && (forall i :: 0 <= i < |w| ==> ReSpace(w[i]))
    requires t == [] || t[0] != '~'
    ensures AllHeads(name + (w + (MatchOpText(op) + t))) == [Head(name, op)] + AllHeads(t)
  {
    hide HeadAt, MatchOpText, ReSpace;
    HeadAtFront(name, w, op, t);
  }

  lemma HeadAtFront(name: Text, w: Text, op: MatchOp, t: Text)
    requires IsIdent(name) && (forall i :: 0 <= i < |w| ==> ReSpace(w[i]))
    requires t == [] || t[0] != '~'
    ensures HeadAt(name + (w + (MatchOpText(op) + t))) == Some(Scanned(Head(name, op), t))
  {
    hide ScanMatchOp, PartLen, ReSpaceLen;
    var tail := MatchOpText(op) + t;
    var after := w + tail;
    var s := name + after;
    assert after != [] && !IdentPart(after[0]);
    PartLenStops(name, after);
    assert s[..|name|] == name && s[|name|..] == after && s[0] == name[0];
    ReSpaceRun(w, tail);
    assert after[|w|..] == tail;
    ScanOpBefore(op, t);
  }

  // ---- Agreement -----------------------------------------------------------------------------------

  /** What a caller can check on the unquoted selector: no string is written with backquotes or single quotes. */
  predicate DoubleQuoted(t: Text) {
    forall i :: 0 <= i < |t| ==> t[i] != '`' && t[i] != '\''
  }

  /** And besides, it is ASCII without vertical tabs, so that all its white space is known to the pattern. */
  predicate Plain(t: Text) {
    DoubleQuoted(t) && forall i :: 0 <= i < |t| ==> V(t[i]) < 0x80 && V(t[i]) != 11
  }

  /** The white space between the label `rest` begins with and its operator. */
  function Gap(rest: Text): Text {
    match ScanIdent(rest)
    case Err(_) => []
    case Ok(name) => name.rest[..|name.rest| - |TrimSpace(name.rest)|]
  }

  predicate Known(w: Text) {
    forall i :: 0 <= i < |w| ==> ReSpace(w[i])
  }

  /** The matchers the pattern sees: those with only white space it knows before their operator. */
  function Seen(eng: Engine, rest: Text): seq<Matcher>
    decreases |rest|
  {
    if rest == [] then []
    else match ScanMatcher(eng, rest)
      case Err(_) => []
      case Ok(m) =>
        var more := TrimSpace(m.rest);
        (if Known(Gap(rest)) then [m.item] else []) +
        if HasPrefix(more, ",") then Seen(eng, TrimSpace(more[1..])) else []
  }

  /** A scanned matcher spelled out: label, white space, operator, white space, literal. */
  lemma MatcherSpelled(eng: Engine, rest: Text, m: Matcher, after: Text) returns (w1: Text, w2: Text, lit: Text)
    requires ScanMatcher(eng, rest) == Ok(Scanned(m, after)) && LastSpaceLen(rest) == 0
    ensures rest == m.name + (w1 + (MatchOpText(m.op) + (w2 + lit))) && w1 == Gap(rest)
    ensures IsIdent(m.name) && Blank(w1) && Blank(w2) && lit != [] && LastSpaceLen(lit) == 0
    ensures ScanLiteral(lit).Some? && ScanLiteral(lit).value.rest == after
  {
    hide TrimSpace, LastSpaceLen, ScanLiteral, IsLiteral, ScanMatcher, White, Blank, ScanIdent, IsIdent, MatchOpText,
         MatcherTaken;
    var t := SpellMatcher(eng, rest, m, after);
    w1, w2, lit := t.gap, t.space, t.literal + after;
    WhiteIsBlank(w1);
    WhiteIsBlank(w2);
    Reassociate(m.name, w1, MatchOpText(m.op), w2, t.literal, after);
    SuffixUntrimmed(rest, |rest| - |lit|);
    assert rest[|rest| - |lit|..] == lit;
    assert ScanLiteral(t.literal + after) == Some(Unit(m.value, after)) by {
      LiteralReads(t.literal, m.value, after);
    }
    LiteralNotEmpty(lit);
    assert w1 == (w1 + TrimSpace(ScanIdent(rest).value.rest))[..|w1|];
  }

  lemma BlankPasses(w: Text, t: Text)
    requires Blank(w)
    ensures Blanked(w + t, false) == w + Blanked(t, false)
  {
    BlankedPass(w, t);
  }

  /** Blanking a spelled-out matcher keeps everything but the literal. */
  lemma MatcherBlanked(name: Text, w1: Text, op: MatchOp, w2: Text, lit: Text)
    requires IsIdent(name) && Blank(w1) && Blank(w2)
    ensures Blanked(name + (w1 + (MatchOpText(op) + (w2 + lit))), false) ==
            name + (w1 + (MatchOpText(op) + (w2 + Blanked(lit, false))))
  {
    hide Blanked;
    BlankedPass(name, w1 + (MatchOpText(op) + (w2 + lit)));
    BlankPasses(w1, MatchOpText(op) + (w2 + lit));
    BlankedPass(MatchOpText(op), w2 + lit);
    BlankPasses(w2, lit);
  }

  lemma Parts(a: Text, b: Text)
    ensures DoubleQuoted(a + b) ==> DoubleQuoted(a) && DoubleQuoted(b)
    ensures Plain(a + b) ==> Plain(a) && Plain(b)
  {
    assert forall i :: 0 <= i < |a| ==> (a + b)[i] == a[i];
    assert forall i :: 0 <= i < |b| ==> (a + b)[|a| + i] == b[i];
  }

  lemma BlankSeparates(w: Text)
    requires Blank(w)
    ensures Separator(w)
    ensures Plain(w) ==> Known(w)
  {
  }

  /** Without other quotes the literal is double-quoted, and blanks to two spaces. */
  lemma QuotedLiteral(lit: Text)
    requires ScanLiteral(lit).Some? && DoubleQuoted(Blanked(lit, false))
    ensures Blanked(lit, false) == [' ', ' '] + Blanked(ScanLiteral(lit).value.rest, false)
  {
    BlankedHead(lit);
    BlankedLiteral(lit);
  }

  lemma BlankedHead(s: Text)
    requires ScanLiteral(s).Some? && DoubleQuoted(Blanked(s, false))
    ensures s[0] == '"'
  {
    hide UnquoteBody, UnquoteRune;
    BlankedKeeps(s);
  }

  lemma BlankedKeeps(s: Text)
    requires s != []
    ensures s[0] == '`' || s[0] == '\'' ==> Blanked(s, false) != [] && Blanked(s, false)[0] == s[0]
  {
  }

  lemma CommaFollows(w3: Text, w4: Text, t: Text)
    requires Blank(w3) && Blank(w4)
    ensures Blanked(w3 + ([','] + (w4 + t)), false) == w3 + ([','] + (w4 + Blanked(t, false)))
  {
    hide Blanked;
    BlankPasses(w3, [','] + (w4 + t));
    BlankedPass([','], w4 + t);
    BlankPasses(w4, t);
  }

  /** Text after a matcher: blanks, a comma, more blanks; none of it starts a label. */
  predicate Separator(u: Text) {
    forall i :: 0 <= i < |u| ==> !IdentStart(u[i])
  }

  /** The pattern finds no label in a name that no operator follows. */
  lemma {:induction false} NoHeadBefore(name: Text, tail: Text)
    requires forall i :: 0 <= i < |name| ==> IdentPart(name[i])
    requires tail != [] && !IdentPart(tail[0]) && ScanMatchOp(tail[ReSpaceLen(tail)..]).Err?
    ensures AllHeads(name + tail) == AllHeads(tail)
  {
    hide HeadAt;
    var t := name + tail;
    if name == [] {
      assert t == tail;
    } else {
      NoHeadAt(name, tail);
      assert t[1..] == name[1..] + tail;
      NoHeadBefore(name[1..], tail);
    }
  }

  lemma NoHeadAt(name: Text, tail: Text)
    requires forall i :: 0 <= i < |name| ==> IdentPart(name[i])
    requires tail != [] && !IdentPart(tail[0]) && ScanMatchOp(tail[ReSpaceLen(tail)..]).Err?
    ensures HeadAt(name + tail).None?
  {
    PartLenStops(name, tail);
    hide ScanMatchOp, PartLen, IdentPart;
    assert (name + tail)[|name|..] == tail;
  }

  lemma NoOperator(tail: Text)
    requires tail != [] && tail[0] != '=' && tail[0] != '!'
    ensures ScanMatchOp(tail).Err?
  {
  }

  /** The first byte of a gap the pattern does not know. */
  lemma FirstUnknown(w: Text) returns (k: nat)
    requires !Known(w)
    ensures k < |w| && !ReSpace(w[k]) && forall i :: 0 <= i < k ==> ReSpace(w[i])
  {
    hide ReSpace;
    k := 0;
    while k < |w| && ReSpace(w[k])
      invariant k <= |w| && forall i :: 0 <= i < k ==> ReSpace(w[i])
    {
      k := k + 1;
    }
  }

  lemma UnknownStops(w: Text, t: Text)
    requires Blank(w) && !Known(w)
    ensures var tail := w + t;
            tail != [] && !IdentPart(tail[0]) && ScanMatchOp(tail[ReSpaceLen(tail)..]).Err?
  {
    hide ScanMatchOp, ReSpaceLen;
    var k := FirstUnknown(w);
    var tail, rest := w + t, w[k..] + t;
    assert tail == w[..k] + rest && rest[0] == w[k];
    ReSpaceRun(w[..k], rest);
    assert tail[k..] == rest;
    NoOperator(rest);
  }

  /** A gap the pattern does not know hides its label. */
  lemma HeadMissed(name: Text, w: Text, t: Text)
    requires IsIdent(name) && Blank(w) && !Known(w)
    ensures AllHeads(name + (w + t)) == AllHeads(t)
  {
    hide AllHeads, Blank, Known;
    UnknownStops(w, t);
    NoHeadBefore(name, w + t);
    BlankSeparates(w);
    HeadsSkip(w, t);
  }

  lemma OpSeparates(op: MatchOp)
    ensures Separator(MatchOpText(op))
  {
  }

  /** One matcher of blanked text: seen through a known gap, missed otherwise. */
  lemma HeadOrMissed(name: Text, w1: Text, op: MatchOp, gap: Text, last: Text)
    requires IsIdent(name) && Blank(w1) && Separator(gap) && (gap + last == [] || (gap + last)[0] != '~')
    ensures AllHeads(name + (w1 + (MatchOpText(op) + (gap + last)))) ==
            (if Known(w1) then [Head(name, op)] else []) + AllHeads(last)
  {
    hide AllHeads, Blank;
    HeadsSkip(gap, last);
    if Known(w1) {
      HeadFound(name, w1, op, gap + last);
    } else {
      HeadMissed(name, w1, MatchOpText(op) + (gap + last));
      OpSeparates(op);
      HeadsSkip(MatchOpText(op), gap + last);
    }
  }

  /** The pieces of blanked text that begins with a matcher. */
  lemma MatcherPieces(eng: Engine, rest: Text, m: Matcher, after: Text) returns (w1: Text, gap: Text)
    requires ScanMatcher(eng, rest) == Ok(Scanned(m, after)) && LastSpaceLen(rest) == 0
    requires DoubleQuoted(Blanked(rest, false))
    ensures Blanked(rest, false) == m.name + (w1 + (MatchOpText(m.op) + (gap + Blanked(after, false))))
    ensures IsIdent(m.name) && Blank(w1) && w1 == Gap(rest) && gap != [] && Separator(gap) && gap[0] != '~'
    ensures LastSpaceLen(after) == 0
  {
    hide ScanMatcher, LastSpaceLen, Blanked, ScanLiteral, MatchOpText, DoubleQuoted, Plain, Gap;
    var w2, lit;
    w1, w2, lit := MatcherSpelled(eng, rest, m, after);
    MatcherBlanked(m.name, w1, m.op, w2, lit);
    var op, inner := MatchOpText(m.op), Blanked(lit, false);
    Parts(m.name, w1 + (op + (w2 + inner)));
    Parts(w1, op + (w2 + inner));
    Parts(op, w2 + inner);
    Parts(w2, inner);
    QuotedLiteral(lit);
    BlankSeparates(w2);
    gap := w2 + [' ', ' '];
    Regroup(w2, [' ', ' '], Blanked(after, false));
    LiteralLocal(lit);
    SuffixUntrimmed(lit, |lit| - |after|);
  }

  lemma OneHead(eng: Engine, rest: Text, m: Matcher, after: Text, tail: Text)
    requires ScanMatcher(eng, rest) == Ok(Scanned(m, after)) && LastSpaceLen(rest) == 0
    requires DoubleQuoted(Blanked(rest, false))
    ensures AllHeads(Blanked(rest, false) + tail) ==
            (if Known(Gap(rest)) then [Head(m.name, m.op)] else []) + AllHeads(Blanked(after, false) + tail)
    ensures DoubleQuoted(Blanked(after, false)) && LastSpaceLen(after) == 0
    ensures Plain(Blanked(rest, false)) ==> Known(Gap(rest)) && Plain(Blanked(after, false))
  {
    hide ScanMatcher, LastSpaceLen, Blanked, AllHeads, MatchOpText, Blank, Known, Gap, DoubleQuoted, Plain, Separator;
    var w1, gap := MatcherPieces(eng, rest, m, after);
    var op, last := MatchOpText(m.op), Blanked(after, false);
    Parts(m.name, w1 + (op + (gap + last)));
    Parts(w1, op + (gap + last));
    Parts(op, gap + last);
    Parts(gap, last);
    BlankSeparates(w1);
    Reassociate(m.name, w1, op, gap, last, tail);
    HeadOrMissed(m.name, w1, m.op, gap, last + tail);
  }

  /** Over the matcher list the server parsed, the pattern finds the labels and operators it sees, in order. */
  lemma {:induction false} HeadsAgree(eng: Engine, rest: Text, ms: seq<Matcher>, tail: Text)
    requires ParseMatchers(eng, rest) == Ok(ms) && LastSpaceLen(rest) == 0
    requires DoubleQuoted(Blanked(rest, false)) && Separator(tail)
    ensures AllHeads(Blanked(rest, false) + tail) == HeadsOf(Seen(eng, rest))
    ensures Plain(Blanked(rest, false)) ==> Seen(eng, rest) == ms
    decreases |rest|
  {
    hide *;
    if rest == [] {
      NothingSeen(eng, tail, ms);
    } else {
      ParsedComma(eng, rest, ms);
      SeenStep(eng, rest);
      var m := ScanMatcher(eng, rest).value;
      OneHead(eng, rest, m.item, m.rest, tail);
      var w3 := TrimSuffix(m.rest);
      var more := TrimSpace(m.rest);
      var now := if Known(Gap(rest)) then [m.item] else [];
      if more == [] {
        assert m.rest == w3;
        LastHead(m.rest, tail);
        HeadsMaybe(now, m.item, []);
        assert now + [] == now;
      } else {
        assert more == [','] + more[1..];
        SuffixUntrimmed(more, 1);
        var w4 := TrimSuffix(more[1..]);
        var rest' := TrimSpace(more[1..]);
        CommaBlanked(m.rest, w3, w4, rest', tail);
        HeadsAgree(eng, rest', ms[1..], tail);
        HeadsMaybe(now, m.item, Seen(eng, rest'));
        assert ms == [m.item] + ms[1..];
      }
    }
  }

  lemma NothingSeen(eng: Engine, tail: Text, ms: seq<Matcher>)
    requires ParseMatchers(eng, []) == Ok(ms) && Separator(tail)
    ensures AllHeads(Blanked([], false) + tail) == HeadsOf(Seen(eng, [])) && Seen(eng, []) == ms
  {
    hide AllHeads;
    EndOfHeads(tail);
    assert Blanked([], false) + tail == tail;
  }

  lemma SeenStep(eng: Engine, rest: Text)
    requires rest != [] && ScanMatcher(eng, rest).Ok?
    ensures var m := ScanMatcher(eng, rest).value;
            var more := TrimSpace(m.rest);
            Seen(eng, rest) == (if Known(Gap(rest)) then [m.item] else []) +
                               if HasPrefix(more, ",") then Seen(eng, TrimSpace(more[1..])) else []
    ensures forall s: Text :: HasPrefix(s, ",") <==> s != [] && s[0] == ','
  {
    hide ScanMatcher, TrimSpace, Known, Gap;
  }

  lemma HeadsMaybe(now: seq<Matcher>, m: Matcher, ms: seq<Matcher>)
    requires now == [m] || now == []
    ensures HeadsOf(now + ms) == (if now == [m] then [Head(m.name, m.op)] else []) + HeadsOf(ms)
    ensures HeadsOf([]) == []
  {
    HeadsCons(m, ms);
    assert [] + ms == ms;
  }

  lemma HeadsCons(m: Matcher, ms: seq<Matcher>)
    ensures HeadsOf([m] + ms) == [Head(m.name, m.op)] + HeadsOf(ms)
    ensures HeadsOf([]) == []
  {
    assert ([m] + ms)[1..] == ms;
  }

  lemma EndOfHeads(tail: Text)
    requires Separator(tail)
    ensures AllHeads(tail) == []
  {
    HeadsSkip(tail, []);
    assert tail + [] == tail;
  }

  lemma LastHead(w: Text, tail: Text)
    requires Blank(w) && Separator(tail)
    ensures AllHeads(Blanked(w, false) + tail) == []
  {
    hide AllHeads;
    BlankPasses(w, []);
    assert w + [] == w && Blanked([], false) == [];
    BlankSeparates(w);
    HeadsSkip(w, tail);
    EndOfHeads(tail);
  }

  lemma CommaBlanked(after: Text, w3: Text, w4: Text, rest': Text, tail: Text)
    requires after == w3 + ([','] + (w4 + rest')) && Blank(w3) && Blank(w4) && DoubleQuoted(Blanked(after, false))
    ensures DoubleQuoted(Blanked(rest', false))
    ensures Plain(Blanked(after, false)) ==> Plain(Blanked(rest', false))
    ensures AllHeads(Blanked(after, false) + tail) == AllHeads(Blanked(rest', false) + tail)
  {
    hide AllHeads, Blanked, DoubleQuoted, Plain, Blank;
    CommaFollows(w3, w4, rest');
    var z := Blanked(rest', false);
    Parts(w3, [','] + (w4 + z));
    Parts([','], w4 + z);
    Parts(w4, z);
    BlankSeparates(w3);
    BlankSeparates(w4);
    var gap := w3 + [','] + w4;
    assert Blanked(after, false) + tail == gap + (z + tail);
    HeadsSkip(gap, z + tail);
  }

  // ---- From the selector body to the whole query ----------------------------------------------------

  lemma {:induction false} NeverLeaves(w: Text)
    requires Blank(w)
    ensures !Balanced(w, true)
  {
    if w != [] {
      NeverLeaves(w[1..]);
    }
  }

  lemma {:induction false} BalancedWithoutTail(u: Text, w: Text, inQuote: bool)
    requires Balanced(u + w, inQuote) && Blank(w)
    ensures Balanced(u, inQuote)
    ensures Blanked(u + w, inQuote) == Blanked(u, inQuote) + w
    decreases |u|
  {
    var s := u + w;
    if u == [] {
      assert s == w;
      if inQuote {
        NeverLeaves(w);
      } else {
        BlankPasses(w, []);
        assert w + [] == w;
      }
    } else {
      assert s[0] == u[0] && s[1..] == u[1..] + w;
      if inQuote && u[0] == '\\' {
        if |u| == 1 {
          assert s[2..] == w[1..];
          NeverLeaves(w[1..]);
        } else {
          assert s[2..] == u[2..] + w;
          BalancedWithoutTail(u[2..], w, true);
        }
      } else if u[0] == '"' {
        BalancedWithoutTail(u[1..], w, !inQuote);
        Regroup([' '], Blanked(u[1..], !inQuote), w);
      } else {
        BalancedWithoutTail(u[1..], w, inQuote);
        Regroup([u[0]], Blanked(u[1..], inQuote), w);
      }
    }
  }

  /** The blanked body of an accepted query holds the heads the pattern sees. */
  lemma BodyHeads(eng: Engine, body: Text, ms: seq<Matcher>)
    requires Balanced(body, false) && ParseMatchers(eng, TrimSpace(body)) == Ok(ms)
    requires DoubleQuoted(Blanked(body, false))
    ensures AllHeads(Blanked(body, false)) == HeadsOf(Seen(eng, TrimSpace(body)))
    ensures Plain(Blanked(body, false)) ==> Seen(eng, TrimSpace(body)) == ms
  {
    hide Balanced, Blanked, AllHeads, ParseMatchers, TrimSpace, LastSpaceLen, Seen, DoubleQuoted, Plain, Blank;
    var w, w' := TrimSplit(body);
    var rest := TrimSpace(body);
    WhiteBalanced(w, rest + w');
    BalancedWithoutTail(rest, w', false);
    BlankPasses(w, rest + w');
    var z := Blanked(rest, false);
    Parts(w, z + w');
    Parts(z, w');
    BlankSeparates(w);
    BlankSeparates(w');
    HeadsSkip(w, z + w');
    HeadsAgree(eng, rest, ms, w');
  }

  /** Scanning the raw query reads exactly the body the server's brace delimits. */
  lemma SelectorIsBody(raw: Text, end: nat)
    requires var s := TrimSpace(raw); s != [] && s[0] == '{' && ClosingBrace(s) == Ok(end)
    ensures var s := TrimSpace(raw);
            && 1 <= end < |s| && Balanced(s[1..end], false)
            && UnquotedSelector(raw) == Blanked(s[1..end], false)
  {
    hide TrimSpace, Blanked, Balanced, IndexOf, BraceAfter;
    var s := TrimSpace(raw);
    var w, w' := TrimSplit(raw);
    IndexPast(w, s + w', '{');
    assert raw[|w| + 1..] == s[1..] + w';
    BraceInPrefix(s[1..], w', false, end - 1);
    SameBrace(s[1..], false, end - 1);
    SameBrace(s[1..] + w', false, end - 1);
    assert (s[1..] + w')[..end - 1] == s[1..end] == s[1..][..end - 1];
    BeforeBraceBalanced(s[1..], false, end - 1);
  }

  /** The selector body of a query the server accepts, trimmed. */
  function BodyOf(raw: Text): Text {
    var s := TrimSpace(raw);
    if s == [] || ClosingBrace(s).Err? then [] else TrimSpace(s[1..ClosingBrace(s).value])
  }

  /**
   For every query the server accepts whose strings are all double-quoted, the CLI's hint names exactly
   the labels of the = and =~ matchers the pattern sees, in order of first occurrence.
   */
  lemma RequiredLabelsExact(eng: Engine, raw: Text)
    requires Parse(eng, raw).Ok? && DoubleQuoted(UnquotedSelector(raw))
    ensures RequiredLabels(raw) == Firsts([], HeadsOf(Seen(eng, BodyOf(raw))))
    ensures Plain(UnquotedSelector(raw)) ==> Seen(eng, BodyOf(raw)) == Parse(eng, raw).value.matchers
  {
    hide TrimSpace, ParseMatchers, ParseFilters, ClosingBrace, AllHeads, UnquotedSelector, Plain, DoubleQuoted,
         Balanced, Blanked, Firsts, Seen;
    var s := TrimSpace(raw);
    var end := ClosingBrace(s).value;
    SelectorIsBody(raw, end);
    BodyHeads(eng, s[1..end], Parse(eng, raw).value.matchers);
  }

  /**
   Where besides its white space is all known to the pattern, those are the labels of all the parsed =
   and =~ matchers.
   */
  lemma RequiredLabelsAgree(eng: Engine, raw: Text)
    requires Parse(eng, raw).Ok? && Plain(UnquotedSelector(raw))
    ensures RequiredLabels(raw) == Firsts([], HeadsOf(Parse(eng, raw).value.matchers))
  {
    hide Parse, UnquotedSelector, Seen, RequiredLabels, BodyOf, Firsts;
    RequiredLabelsExact(eng, raw);
  }

  /** First occurrences, read off prefix by prefix: a new positive name is appended, anything else ignored. */
  lemma {:induction false} FirstsSnoc(out: seq<Text>, heads: seq<Head>, h: Head)
    ensures var r := Firsts(out, heads);
            Firsts(out, heads + [h]) == r + if Positive(h.op) && h.name !in r then [h.name] else []
    decreases |heads|
  {
    if heads == [] {
      assert heads + [h] == [h];
      assert Firsts(out, [h][1..]) == out;
    } else {
      assert (heads + [h])[0] == heads[0] && (heads + [h])[1..] == heads[1..] + [h];
      var out' := if Positive(heads[0].op) && heads[0].name !in out then out + [heads[0].name] else out;
      FirstsSnoc(out', heads[1..], h);
    }
  }

  /** Where a label is first matched positively, or the number of heads. */
  function FirstAt(heads: seq<Head>, name: Text): (k: nat)
    ensures k <= |heads| && (k < |heads| ==> Positive(heads[k].op) && heads[k].name == name)
    ensures forall i :: 0 <= i < k ==> !(Positive(heads[i].op) && heads[i].name == name)
  {
    if heads == [] || (Positive(heads[0].op) && heads[0].name == name) then 0 else 1 + FirstAt(heads[1..], name)
  }

  lemma FirstAtSnoc(heads: seq<Head>, h: Head, name: Text)
    ensures FirstAt(heads, name) < |heads| ==> FirstAt(heads + [h], name) == FirstAt(heads, name)
    ensures FirstAt(heads, name) == |heads| && Positive(h.op) && h.name == name ==>
              FirstAt(heads + [h], name) == |heads|
  {
    hide FirstAt, Positive;
    var all, k, j := heads + [h], FirstAt(heads, name), FirstAt(heads + [h], name);
    assert k < |heads| ==> all[k] == heads[k];
    assert j < |heads| ==> all[j] == heads[j];
    assert all[|heads|] == h;
  }

  /** Labels are reported in the order in which they are first matched positively, so none twice. */
  lemma {:induction false} FirstsInOrder(heads: seq<Head>)
    ensures var r := Firsts([], heads);
            && (forall i :: 0 <= i < |r| ==> FirstAt(heads, r[i]) < |heads|)
            && (forall i, j :: 0 <= i < j < |r| ==> FirstAt(heads, r[i]) < FirstAt(heads, r[j]))
            && Distinct(r)
    decreases |heads|
  {
    hide FirstAt, Positive;
    if heads != [] {
      var n := |heads| - 1;
      var most, h := heads[..n], heads[n];
      assert heads == most + [h];
      FirstsInOrder(most);
      FirstsSnoc([], most, h);
      var before, r := Firsts([], most), Firsts([], heads);
      forall i | 0 <= i < |before| ensures FirstAt(heads, before[i]) == FirstAt(most, before[i]) {
        FirstAtSnoc(most, h, before[i]);
      }
      if Positive(h.op) && h.name !in before {
        NotYetAt(most, h.name);
        FirstAtSnoc(most, h, h.name);
      }
    }
  }

  lemma NotYetAt(heads: seq<Head>, name: Text)
    requires name !in Firsts([], heads)
    ensures FirstAt(heads, name) == |heads|
  {
    FirstsMeaning([], heads);
    assert forall i :: 0 <= i < |heads| ==> heads[i] in heads;
  }

  /** The names reported are exactly the positive ones. */
  lemma {:induction false} FirstsMeaning(out: seq<Text>, heads: seq<Head>)
    ensures forall x :: x in Firsts(out, heads) <==>
              x in out || exists h :: h in heads && (h.op == Equal || h.op == Regexp) && h.name == x
    decreases |heads|
  {
    if heads != [] {
      var out' := if Positive(heads[0].op) && heads[0].name !in out then out + [heads[0].name] else out;
      FirstsMeaning(out', heads[1..]);
      assert heads == [heads[0]] + heads[1..];
    }
  }

  /** A label whose value is the raw string `u"v"w`, where only u and w are seen by the CLI's scanner. */
  lemma RawLiteral(u: Text, v: Text, w: Text)
    requires '`' !in u + ['"'] + v + ['"'] + w
    ensures var lit := ['`'] + (u + ['"'] + v + ['"'] + w) + ['`'];
            ScanLiteral(lit).Some? && ScanLiteral(lit).value.rest == []
  {
    var inner := u + ['"'] + v + ['"'] + w;
    var lit := ['`'] + inner + ['`'];
    IndexPast(inner, ['`'], '`');
    assert lit[1..] == inner + ['`'];
  }

  /** Text without quotes, and braces only inside a string, does not change the scan. */
  lemma {:induction false} BracePast(u: Text, t: Text, inQuote: bool)
    requires '"' !in u && (if inQuote then '\\' !in u else '}' !in u)
    ensures BraceAfter(u + t, inQuote) == Plus(|u|, BraceAfter(t, inQuote))
  {
    if u == [] {
      assert u + t == t;
    } else {
      var s := u + t;
      assert s[0] == u[0] && s[1..] == u[1..] + t;
      assert u[0] in u && forall c :: c in u[1..] ==> c in u;
      BracePast(u[1..], t, inQuote);
    }
  }

  lemma BraceEnter(t: Text)
    ensures BraceAfter(['"'] + t, false) == Plus(1, BraceAfter(t, true))
    ensures BraceAfter(['"', '`', '}'], true) == Ok(2)
  {
    assert (['"'] + t)[1..] == t;
    assert ['"', '`', '}'][1..] == ['`', '}'] && ['`', '}'][1..] == ['}'];
    assert BraceAfter(['}'], false) == Ok(0);
    assert BraceAfter(['`', '}'], false) == Ok(1);
  }

  lemma BackquoteBrace(u: Text, v: Text)
    requires '"' !in u && '}' !in u && '"' !in v && '\\' !in v
    ensures BraceAfter(u + (['"'] + (v + ['"', '`', '}'])), false) == Ok(|u| + |v| + 3)
  {
    hide BraceAfter;
    var close: Text := ['"', '`', '}'];
    var inner := v + close;
    var rest := ['"'] + inner;
    BracePast(v, close, true);
    BraceEnter(inner);
    BracePast(u, rest, false);
  }

  lemma BackquoteBlanked(u: Text, v: Text)
    requires '"' !in u && '}' !in u && '"' !in v && '\\' !in v
    ensures Blanked(u + (['"'] + (v + ['"', '`'])), false) == u + [' ', ' ', '`']
  {
    var q := ['"', '`'];
    var rest := ['"'] + (v + q);
    BlankedPass(u, rest);
    assert rest[0] == '"' && rest[1..] == v + q;
    BlankedInside(v, q);
    assert q[1..] == ['`'] && ['`'][1..] == [];
    assert Blanked(['`'], false) == ['`'];
  }

  /** A query whose one value is the raw string `other="v"`. */
  function RawQuery(name: Text, other: Text, v: Text): Text {
    ['{'] + RawBody(name, other, v) + ['}']
  }

  function RawBody(name: Text, other: Text, v: Text): Text {
    name + ['=', '`'] + other + ['='] + (['"'] + (v + ['"', '`']))
  }

  predicate Word(v: Text) {
    IsIdent(v) && '`' !in v && '"' !in v && '\\' !in v && '}' !in v
  }

  function RawLit(other: Text, v: Text): Text {
    ['`'] + (other + ['='] + ['"'] + v + ['"'] + []) + ['`']
  }

  lemma RawLitScans(other: Text, v: Text)
    requires Word(other) && Word(v)
    ensures ScanLiteral(RawLit(other, v)).Some? && ScanLiteral(RawLit(other, v)).value.rest == []
    ensures RawLit(other, v) != [] && RawLit(other, v)[0] == '`' && Tight(RawLit(other, v))
  {
    hide ScanLiteral;
    RawLiteral(other + ['='], v, []);
  }

  lemma RawBodyIs(name: Text, other: Text, v: Text)
    ensures RawBody(name, other, v) == name + (['='] + RawLit(other, v))
  {
  }

  lemma TightEnds(name: Text, lit: Text)
    requires IsIdent(name) && lit != [] && lit[0] == '`' && Tight(lit)
    ensures Tight(name + (['='] + lit))
  {
  }

  lemma RawParses(eng: Engine, name: Text, other: Text, v: Text) returns (m: Matcher)
    requires Word(name) && Word(other) && Word(v)
    ensures ParseMatchers(eng, RawBody(name, other, v)) == Ok([m]) && m.name == name
    ensures Tight(RawBody(name, other, v))
  {
    hide ScanLiteral, ParseMatchers, RawBody, RawLit, Tight;
    RawLitScans(other, v);
    RawBodyIs(name, other, v);
    TightEnds(name, RawLit(other, v));
    m := OneRawMatcher(eng, name, RawLit(other, v), RawBody(name, other, v));
  }

  lemma RawShape(name: Text, other: Text, v: Text)
    requires Word(name) && Word(other) && Word(v)
    ensures var body, raw := RawBody(name, other, v), RawQuery(name, other, v);
            && TrimSpace(raw) == raw && ClosingBrace(raw) == Ok(|body| + 1)
            && raw[0] == '{' && raw[1..|body| + 1] == body && raw[|body| + 2..] == []
  {
    var prefix, body, raw := name + ['=', '`'] + other + ['='], RawBody(name, other, v), RawQuery(name, other, v);
    hide BraceAfter, TrimSpace;
    BackquoteBrace(prefix, v);
    assert raw[1..] == prefix + (['"'] + (v + ['"', '`', '}']));
    TrimTight(raw);
  }

  lemma RawWhole(eng: Engine, name: Text, other: Text, v: Text) returns (m: Matcher)
    requires Word(name) && Word(other) && Word(v)
    ensures Parse(eng, RawQuery(name, other, v)) == Ok(Selector([m], [])) && m.name == name
  {
    hide ClosingBrace, ParseMatchers, TrimSpace, RawBody, RawQuery;
    m := RawParses(eng, name, other, v);
    RawShape(name, other, v);
    TrimTight(RawBody(name, other, v));
    TrimTight([]);
  }

  lemma RawUnquoted(name: Text, other: Text, v: Text)
    requires Word(name) && Word(other) && Word(v)
    ensures UnquotedSelector(RawQuery(name, other, v)) == name + ['=', '`'] + other + ['='] + [' ', ' ', '`']
  {
    hide ClosingBrace, Blanked, TrimSpace, UnquotedSelector, Balanced;
    BackquoteBlanked(name + ['=', '`'] + other + ['='], v);
    RawShape(name, other, v);
    SelectorIsBody(RawQuery(name, other, v), |RawBody(name, other, v)| + 1);
  }

  lemma RawHeads(name: Text, other: Text)
    requires Word(name) && Word(other)
    ensures Head(other, Equal) in AllHeads(name + ['=', '`'] + other + ['='] + [' ', ' ', '`'])
  {
    hide AllHeads;
    var gap := [' ', ' ', '`'];
    var rest := other + (['='] + gap);
    assert name + ['=', '`'] + other + ['='] + gap == name + ([] + (['='] + (['`'] + rest)));
    HeadFound(name, [], Equal, ['`'] + rest);
    HeadsSkip(['`'], rest);
    assert rest == other + ([] + (['='] + gap));
    HeadFound(other, [], Equal, gap);
  }

  /**
   With a backquoted value the two readings part: the server sees one matcher on `name`, the CLI
   also takes the label spelled inside the raw string for a required one.
   */
  lemma BackquoteMisleads(eng: Engine, name: Text, other: Text, v: Text)
    requires Word(name) && Word(other) && Word(v) && name != other
    ensures var raw := RawQuery(name, other, v);
            && Parse(eng, raw).Ok?
            && RequiredLabels(raw) != Firsts([], HeadsOf(Parse(eng, raw).value.matchers))
  {
    hide Parse, UnquotedSelector, AllHeads, RawQuery, Firsts;
    var m := RawWhole(eng, name, other, v);
    RawUnquoted(name, other, v);
    RawHeads(name, other);
    HeadsCons(m, []);
    assert [m] + [] == [m];
    assert HeadsOf([m]) == [Head(m.name, m.op)];
    FirstsMeaning([], HeadsOf([m]));
    FirstsMeaning([], AllHeads(UnquotedSelector(RawQuery(name, other, v))));
    assert Positive(Head(other, Equal).op);
    assert other in RequiredLabels(RawQuery(name, other, v));
  }

  lemma OneRawMatcher(eng: Engine, name: Text, lit: Text, body: Text) returns (m: Matcher)
    requires IsIdent(name) && body == name + (['='] + lit)
    requires ScanLiteral(lit).Some? && ScanLiteral(lit).value.rest == []
    requires lit != [] && lit[0] == '`' && Tight(lit)
    ensures ParseMatchers(eng, body) == Ok([m]) && m.name == name
  {
    TrimTight(['='] + lit);
    m := OneMatcher(eng, name, ['='] + lit, lit, body);
  }

  lemma OneMatcher(eng: Engine, name: Text, after: Text, lit: Text, body: Text) returns (m: Matcher)
    requires IsIdent(name) && body == name + after && after != [] && !IdentPart(after[0])
    requires TrimSpace(after) == ['='] + lit && lit != [] && lit[0] != '~' && Tight(lit)
    requires ScanLiteral(lit).Some? && ScanLiteral(lit).value.rest == []
    ensures ParseMatchers(eng, body) == Ok([m]) && m.name == name && m.op == Equal
  {
    m := Matcher(name, Equal, ScanLiteral(lit).value.bytes);
    ScanName(name, after);
    ScanOpBefore(Equal, lit);
    TrimTight(lit);
    hide TrimSpace, ScanIdent, ScanMatchOp, ScanLiteral;
    assert ScanMatcher(eng, body) == Ok(Scanned(m, []));
    ParseLast(eng, m, body);
  }

  // ---- White space the pattern does not know -----------------------------------------------------------

  /** A query with a vertical tab between label and operator. */
  function TabQuery(name: Text): Text {
    ['{'] + TabBody(name) + ['}']
  }

  function TabBody(name: Text): Text {
    name + ['\U{0B}', '=', '"', '"']
  }

  lemma EmptyLiteral()
    ensures ScanLiteral(['"', '"']) == Some(Unit([], []))
  {
    assert ['"', '"'][1..] == ['"'] && ['"'][1..] == [];
  }

  lemma TabParses(eng: Engine, name: Text) returns (m: Matcher)
    requires Word(name)
    ensures ParseMatchers(eng, TabBody(name)) == Ok([m]) && m.name == name && m.op == Equal
  {
    var lit: Text := ['"', '"'];
    var after: Text := ['\U{0B}'] + (['='] + lit);
    TrimOne('\U{0B}', ['='] + lit);
    EmptyLiteral();
    assert TabBody(name) == name + after;
    hide ParseMatchers, TrimSpace, ScanLiteral;
    m := OneMatcher(eng, name, after, lit, TabBody(name));
  }

  lemma EmptyClose()
    ensures BraceAfter(['"', '"', '}'], false) == Ok(2)
  {
    var close: Text := ['"', '"', '}'];
    assert close[1..] == ['"', '}'] && ['"', '}'][1..] == ['}'];
    assert BraceAfter(['}'], false) == Ok(0) && BraceAfter(['"', '}'], true) == Ok(1);
  }

  lemma TabShape(name: Text)
    requires Word(name)
    ensures var body, raw := TabBody(name), TabQuery(name);
            && TrimSpace(raw) == raw && ClosingBrace(raw) == Ok(|body| + 1) && TrimSpace(body) == body
            && raw[0] == '{' && raw[1..|body| + 1] == body && raw[|body| + 2..] == []
  {
    hide BraceAfter, TrimSpace;
    var prefix: Text, close: Text := name + ['\U{0B}', '='], ['"', '"', '}'];
    var body, raw := TabBody(name), TabQuery(name);
    assert raw[1..] == prefix + close;
    EmptyClose();
    BracePast(prefix, close, false);
    TrimTight(raw);
    TrimTight(body);
  }

  lemma TabBlanked(name: Text)
    requires Word(name)
    ensures Blanked(TabBody(name), false) == name + ['\U{0B}', '=', ' ', ' ']
  {
    var prefix: Text := name + ['\U{0B}', '='];
    BlankedPass(prefix, ['"', '"']);
    assert ['"', '"'][1..] == ['"'] && ['"'][1..] == [];
    assert Blanked(['"', '"'], false) == [' ', ' '];
    hide Blanked;
    assert TabBody(name) == prefix + ['"', '"'];
  }

  lemma TabHeads(name: Text)
    requires Word(name)
    ensures AllHeads(UnquotedSelector(TabQuery(name))) == []
  {
    hide ClosingBrace, Blanked, TrimSpace, UnquotedSelector, Balanced, AllHeads, TabBody, TabQuery;
    TabShape(name);
    SelectorIsBody(TabQuery(name), |TabBody(name)| + 1);
    TabBlanked(name);
    assert name + ['\U{0B}', '=', ' ', ' '] == name + (['\U{0B}'] + ['=', ' ', ' ']);
    var tab: Text := ['\U{0B}'];
    assert Blank(tab) && !ReSpace(tab[0]);
    HeadMissed(name, tab, ['=', ' ', ' ']);
    EndOfHeads(['=', ' ', ' ']);
  }

  /** The server skips a vertical tab after a label and the CLI's pattern does not: the hint misses the label. */
  lemma VerticalTabHides(eng: Engine, name: Text)
    requires Word(name)
    ensures var raw := TabQuery(name);
            && Parse(eng, raw).Ok? && HeadsOf(Parse(eng, raw).value.matchers) == [Head(name, Equal)]
            && RequiredLabels(raw) == []
  {
    var m := TabParses(eng, name);
    TabShape(name);
    TabHeads(name);
    TrimTight([]);
    HeadsCons(m, []);
    assert [m] + [] == [m];
    hide ClosingBrace, ParseMatchers, TrimSpace, UnquotedSelector, AllHeads, TabBody, TabQuery;
    assert Parse(eng, TabQuery(name)) == Ok(Selector([m], []));
  }
}
