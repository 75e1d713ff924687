/**
 The parser takes raw and single-quoted strings, but looks for the closing brace as if only double quotes
 existed: which spellings that turns away.
 */
module RawStrings {
  import opened Texts
  import opened Spaces
  import opened Quoting
  import opened Logql
  import opened Grammar

  // ---- A text has one reading ------------------------------------------------------------------------

  /** White space ends where something visible begins. */
  lemma WhiteUnique(w: Text, t: Text, w': Text, t': Text)
    requires White(w) && White(w') && w + t == w' + t'
    requires t != [] && Solid(t[0]) && t' != [] && Solid(t'[0])
    ensures w == w' && t == t'
  {
    TrimLeftWhite(w, t);
    TrimLeftWhite(w', t');
    Fronts(w, t, w', t');
  }

  lemma Fronts(a: Text, t: Text, b: Text, t': Text)
    requires a + t == b + t' && |t| == |t'|
    ensures a == b && t == t'
  {
    assert a == (a + t)[..|a|] && b == (b + t')[..|b|];
    assert t == (a + t)[|a|..] && t' == (b + t')[|b|..];
  }

  lemma NameUnique(a: Text, t: Text, b: Text, t': Text)
    requires IsIdent(a) && IsIdent(b) && a + t == b + t'
    requires t != [] && !IdentPart(t[0]) && t' != [] && !IdentPart(t'[0])
    ensures a == b && t == t'
  {
    ScanName(a, t);
    ScanName(b, t');
  }

  lemma OpUnique(p: MatchOp, t: Text, q: MatchOp, t': Text)
    requires MatchOpText(p) + t == MatchOpText(q) + t' && t != [] && t[0] != '~' && t' != [] && t'[0] != '~'
    ensures p == q && t == t'
  {
    ScanOpBefore(p, t);
    ScanOpBefore(q, t');
  }

  lemma LiteralUnique(a: Text, v: Text, t: Text, b: Text, v': Text, t': Text)
    requires IsLiteral(a, v) && IsLiteral(b, v') && a + t == b + t'
    ensures a == b && v == v' && t == t'
  {
    hide ScanLiteral;
    assert ScanLiteral(a + t) == Some(Unit(v, t)) && ScanLiteral(b + t') == Some(Unit(v', t'));
    Fronts(a, t, b, t');
  }

  lemma OpSolid(op: MatchOp, t: Text)
    ensures MatchOpText(op) + t != [] && Solid((MatchOpText(op) + t)[0])
  {
    assert (MatchOpText(op) + t)[0] == MatchOpText(op)[0];
  }

  lemma LiteralHead(lit: Text, v: Text, t: Text)
    requires IsLiteral(lit, v)
    ensures lit + t != [] && Solid((lit + t)[0])
    ensures (lit + t)[0] == '"' || (lit + t)[0] == '`' || (lit + t)[0] == '\''
  {
    LiteralEnds(lit, v);
    assert (lit + t)[0] == lit[0];
  }

  /** Two spellings of a matcher in front of one text are the same. */
  lemma MatcherUnique(a: MatcherSpelling, t: Text, b: MatcherSpelling, t': Text)
    requires ProperMatcher(a) && ProperMatcher(b) && Bare(a) + t == Bare(b) + t'
    ensures a == b && t == t'
  {
    var m, n := a.matcher, b.matcher;
    Reassociate(m.name, a.gap, MatchOpText(m.op), a.space, a.literal, t);
    Reassociate(n.name, b.gap, MatchOpText(n.op), b.space, b.literal, t');
    assert Bare(a) + t == m.name + (a.gap + (MatchOpText(m.op) + (a.space + (a.literal + t))));
    assert Bare(b) + t' == n.name + (b.gap + (MatchOpText(n.op) + (b.space + (b.literal + t'))));
    hide White, IsLiteral, IsIdent, IdentPart, Solid, MatchOpText, Bare;
    var x, y := a.literal + t, b.literal + t';
    LiteralHead(a.literal, m.value, t);
    LiteralHead(b.literal, n.value, t');
    GapStops(a.gap, m.op, a.space + x);
    GapStops(b.gap, n.op, b.space + y);
    NameUnique(m.name, a.gap + (MatchOpText(m.op) + (a.space + x)),
               n.name, b.gap + (MatchOpText(n.op) + (b.space + y)));
    OpSolid(m.op, a.space + x);
    OpSolid(n.op, b.space + y);
    WhiteUnique(a.gap, MatchOpText(m.op) + (a.space + x), b.gap, MatchOpText(n.op) + (b.space + y));
    SpaceStops(a.space, x);
    SpaceStops(b.space, y);
    OpUnique(m.op, a.space + x, n.op, b.space + y);
    WhiteUnique(a.space, x, b.space, y);
    LiteralUnique(a.literal, m.value, t, b.literal, n.value, t');
  }

  /** What closes a list of matchers: white space, a brace, and any text. */
  function Ending(tail: Text, rest: Text): Text {
    tail + (['}'] + rest)
  }

  function Closed(ts: seq<MatcherSpelling>, commas: seq<Comma>, tail: Text, rest: Text): Text {
    Listed(ts, commas) + Ending(tail, rest)
  }

  /** What follows the first matcher of a closed list, where `ts` are the others. */
  function Following(ts: seq<MatcherSpelling>, commas: seq<Comma>, tail: Text, rest: Text): Text {
    if commas == [] then Ending(tail, rest)
    else commas[0].before + ([','] + (commas[0].after + Closed(ts, commas[1..], tail, rest)))
  }

  lemma ClosedIs(ts: seq<MatcherSpelling>, commas: seq<Comma>, tail: Text, rest: Text)
    ensures ts == [] ==> Closed(ts, commas, tail, rest) == Ending(tail, rest)
    ensures ts != [] ==> Closed(ts, commas, tail, rest) == Bare(ts[0]) + Following(ts[1..], commas, tail, rest)
  {
    hide Bare, Ending;
    var end := Ending(tail, rest);
    if ts == [] {
      assert [] + end == end;
    } else if commas == [] {
      assert Bare(ts[0]) + [] == Bare(ts[0]);
    } else {
      FollowingIs(Bare(ts[0]), commas[0], Listed(ts[1..], commas[1..]), end);
    }
  }

  lemma FollowingIs(bare: Text, c: Comma, list: Text, end: Text)
    ensures bare + (c.before + ("," + (c.after + list))) + end == bare + (c.before + ([','] + (c.after + (list + end))))
  {
  }

  lemma EndingHead(tail: Text, rest: Text)
    requires White(tail)
    ensures var s := TrimLeft(Ending(tail, rest)); s != [] && s[0] == '}'
  {
    var brace: Text := ['}'] + rest;
    assert brace[0] == '}';
    TrimLeftWhite(tail, brace);
  }

  lemma BareHead(t: MatcherSpelling)
    requires ProperMatcher(t)
    ensures Bare(t) != [] && IdentStart(Bare(t)[0]) && Solid(Bare(t)[0])
  {
    assert Bare(t)[0] == t.matcher.name[0];
  }

  /** The first visible byte is a letter of a label when there is a matcher, and the brace when there is none. */
  lemma ClosedHead(after: Text, ts: seq<MatcherSpelling>, commas: seq<Comma>, tail: Text, rest: Text)
    requires ProperList(ts, commas) && White(tail) && White(after) && (ts == [] ==> after == [])
    ensures var s := TrimLeft(after + Closed(ts, commas, tail, rest)); s != [] && (ts != [] <==> s[0] != '}')
    ensures ts != [] ==> var c := Closed(ts, commas, tail, rest); c != [] && Solid(c[0])
  {
    ClosedIs(ts, commas, tail, rest);
    var c := Closed(ts, commas, tail, rest);
    if ts == [] {
      assert [] + c == c;
      EndingHead(tail, rest);
    } else {
      BareHead(ts[0]);
      hide Bare, Closed, Following, White, TrimLeft;
      assert c[0] == Bare(ts[0])[0];
      TrimLeftWhite(after, c);
    }
  }

  /** After a matcher the first visible byte is a comma or the brace. */
  lemma FollowingHead(ts: seq<MatcherSpelling>, commas: seq<Comma>, tail: Text, rest: Text)
    requires White(tail) && (commas != [] ==> White(commas[0].before))
    ensures var s := TrimLeft(Following(ts, commas, tail, rest)); s != [] && (commas == [] <==> s[0] == '}')
  {
    hide Closed, White, Ending, TrimLeft;
    if commas == [] {
      EndingHead(tail, rest);
    } else {
      var more: Text := [','] + (commas[0].after + Closed(ts, commas[1..], tail, rest));
      assert more[0] == ',';
      TrimLeftWhite(commas[0].before, more);
    }
  }

  lemma CommaUnique(c: Comma, z: Text, d: Comma, z': Text)
    requires White(c.before) && White(d.before)
    requires c.before + ([','] + (c.after + z)) == d.before + ([','] + (d.after + z'))
    ensures c.before == d.before && c.after + z == d.after + z'
  {
    hide White;
    var x, y := [','] + (c.after + z), [','] + (d.after + z');
    assert x[0] == ',' && y[0] == ',';
    WhiteUnique(c.before, x, d.before, y);
    assert x[1..] == c.after + z && y[1..] == d.after + z';
  }

  lemma TailUnique(tail: Text, rest: Text, tail': Text, rest': Text)
    requires White(tail) && White(tail') && Ending(tail, rest) == Ending(tail', rest')
    ensures tail == tail'
  {
    hide White;
    assert (['}'] + rest)[0] == '}' && (['}'] + rest')[0] == '}';
    WhiteUnique(tail, ['}'] + rest, tail', ['}'] + rest');
  }

  lemma NoWhite()
    ensures White([])
  {
  }

  lemma SameStart(ts: seq<MatcherSpelling>, commas: seq<Comma>, tail: Text, rest: Text,
                  ts': seq<MatcherSpelling>, commas': seq<Comma>, tail': Text, rest': Text)
    requires ProperList(ts, commas) && ProperList(ts', commas') && White(tail) && White(tail')
    requires Closed(ts, commas, tail, rest) == Closed(ts', commas', tail', rest')
    ensures ts == [] <==> ts' == []
  {
    hide *;
    NoWhite();
    ClosedHead([], ts, commas, tail, rest);
    ClosedHead([], ts', commas', tail', rest');
  }

  /** The first matchers are the same, and so is whether a comma follows, and what follows. */
  lemma FirstUnique(ts: seq<MatcherSpelling>, commas: seq<Comma>, tail: Text, rest: Text,
                    ts': seq<MatcherSpelling>, commas': seq<Comma>, tail': Text, rest': Text)
    requires ProperList(ts, commas) && ProperList(ts', commas') && White(tail) && White(tail') && ts != [] && ts' != []
    requires Closed(ts, commas, tail, rest) == Closed(ts', commas', tail', rest')
    ensures ts[0] == ts'[0] && (commas == [] <==> commas' == [])
    ensures Following(ts[1..], commas, tail, rest) == Following(ts'[1..], commas', tail', rest')
  {
    assert ProperMatcher(ts[0]) && ProperMatcher(ts'[0]);
    assert (commas != [] ==> White(commas[0].before)) && (commas' != [] ==> White(commas'[0].before));
    hide *;
    ClosedIs(ts, commas, tail, rest);
    ClosedIs(ts', commas', tail', rest');
    MatcherUnique(ts[0], Following(ts[1..], commas, tail, rest), ts'[0], Following(ts'[1..], commas', tail', rest'));
    FollowingHead(ts[1..], commas, tail, rest);
    FollowingHead(ts'[1..], commas', tail', rest');
  }

  /** A text begins with at most one list of matchers closed by a brace. */
  lemma {:induction false} ListUnique(
      ts: seq<MatcherSpelling>, commas: seq<Comma>, tail: Text, rest: Text,
      ts': seq<MatcherSpelling>, commas': seq<Comma>, tail': Text, rest': Text)
    requires ProperList(ts, commas) && ProperList(ts', commas') && White(tail) && White(tail')
    requires Closed(ts, commas, tail, rest) == Closed(ts', commas', tail', rest')
    ensures ts == ts' && commas == commas' && tail == tail'
    decreases ts, 1
  {
    SameStart(ts, commas, tail, rest, ts', commas', tail', rest');
    if ts == [] {
      hide Closed, White, Ending;
      ClosedIs(ts, commas, tail, rest);
      ClosedIs(ts', commas', tail', rest');
      TailUnique(tail, rest, tail', rest');
    } else {
      FirstUnique(ts, commas, tail, rest, ts', commas', tail', rest');
      hide White, Ending, Closed, ProperMatcher;
      if commas == [] {
        TailUnique(tail, rest, tail', rest');
        assert ts == [ts[0]] && ts' == [ts'[0]];
      } else {
        RestUnique(ts, commas, tail, rest, ts', commas', tail', rest');
        hide *;
        assert ts == [ts[0]] + ts[1..] && ts' == [ts'[0]] + ts'[1..];
      }
    }
  }

  lemma {:induction false} RestUnique(
      ts: seq<MatcherSpelling>, commas: seq<Comma>, tail: Text, rest: Text,
      ts': seq<MatcherSpelling>, commas': seq<Comma>, tail': Text, rest': Text)
    requires ProperList(ts, commas) && ProperList(ts', commas') && White(tail) && White(tail')
    requires ts != [] && ts' != [] && commas != [] && commas' != []
    requires Following(ts[1..], commas, tail, rest) == Following(ts'[1..], commas', tail', rest')
    ensures commas == commas' && ts[1..] == ts'[1..] && tail == tail'
    decreases ts, 0
  {
    hide Closed, White, ProperMatcher, TrimLeft, Ending;
    var c, d := commas[0], commas'[0];
    var z, z' := Closed(ts[1..], commas[1..], tail, rest), Closed(ts'[1..], commas'[1..], tail', rest');
    CommaUnique(c, z, d, z');
    ClosedHead(c.after, ts[1..], commas[1..], tail, rest);
    ClosedHead(d.after, ts'[1..], commas'[1..], tail', rest');
    if ts[1..] != [] {
      WhiteUnique(c.after, z, d.after, z');
    } else {
      assert c.after == [] && d.after == [] && [] + z == z && [] + z' == z';
    }
    ListUnique(ts[1..], commas[1..], tail, rest, ts'[1..], commas'[1..], tail', rest');
    assert commas == [c] + commas[1..] && commas' == [d] + commas'[1..];
  }

  // ---- Which spellings are turned away ---------------------------------------------------------------

  lemma BodyUnique(a: Spelling, b: Spelling)
    requires ProperParts(a) && ProperParts(b) && Written(a) == Written(b) && a.matchers != [] && b.matchers != []
    ensures BodyText(a) == BodyText(b)
  {
    var x, y := Stages(a.filters) + a.after, Stages(b.filters) + b.after;
    hide White, Stages, ProperFilter, ProperList, Listed;
    WrittenIs(a);
    WrittenIs(b);
    OpenUnique(a.before, a.lead + Closed(a.matchers, a.commas, a.tail, x),
               b.before, b.lead + Closed(b.matchers, b.commas, b.tail, y));
    ClosedHead(a.lead, a.matchers, a.commas, a.tail, x);
    ClosedHead(b.lead, b.matchers, b.commas, b.tail, y);
    WhiteUnique(a.lead, Closed(a.matchers, a.commas, a.tail, x), b.lead, Closed(b.matchers, b.commas, b.tail, y));
    ListUnique(a.matchers, a.commas, a.tail, x, b.matchers, b.commas, b.tail, y);
  }

  lemma WrittenIs(s: Spelling)
    ensures Written(s) ==
            s.before + (['{'] + (s.lead + Closed(s.matchers, s.commas, s.tail, Stages(s.filters) + s.after)))
  {
    hide Listed, Stages;
    var list, stages := Listed(s.matchers, s.commas), Stages(s.filters);
    assert "{" + (s.lead + (list + s.tail) + ("}" + stages)) + s.after ==
           ['{'] + (s.lead + (list + (s.tail + (['}'] + (stages + s.after)))));
  }

  lemma OpenUnique(w: Text, t: Text, w': Text, t': Text)
    requires White(w) && White(w') && w + (['{'] + t) == w' + (['{'] + t')
    ensures t == t'
  {
    hide White;
    var x, y := ['{'] + t, ['{'] + t';
    assert x[0] == '{' && y[0] == '{';
    WhiteUnique(w, x, w', y);
    assert x[1..] == t && y[1..] == t';
  }

  /**
   A spelling, whatever quotes its strings are in, is accepted exactly when, counting only double quotes as
   quotes, no brace comes before the closing one and none is open there.
   */
  lemma AcceptedIffBalanced(eng: Engine, s: Spelling)
    requires ProperParts(s) && s.matchers != [] && Compiles(eng, Spelled(s))
    ensures Parse(eng, Written(s)) == Ok(Spelled(s)) <==> Balanced(BodyText(s), false)
    ensures Parse(eng, Written(s)).Ok? ==> Parse(eng, Written(s)) == Ok(Spelled(s))
  {
    hide Parse, Written, BodyText, Balanced, ProperParts, Compiles;
    if Balanced(BodyText(s), false) {
      assert Proper(s);
      ParseWritten(eng, s);
    }
    if Parse(eng, Written(s)).Ok? {
      var sp := SpellQuery(eng, Written(s), Parse(eng, Written(s)).value);
      SomeMatcher(sp);
      BodyUnique(s, sp);
    }
  }

  lemma SomeMatcher(sp: Spelling)
    ensures sp.matchers == [] <==> Spelled(sp).matchers == []
  {
  }

  lemma {:induction false} BraceUnbalances(u: Text)
    requires '"' !in u && '}' in u
    ensures !Balanced(u, false)
  {
    assert u == [u[0]] + u[1..] && u[0] in u;
    if u[0] != '}' {
      BraceUnbalances(u[1..]);
    }
  }

  /** One matcher with a raw string and nothing else. */
  function RawSpelling(name: Text, value: Text): Spelling {
    Spelling([], [], [MatcherSpelling(Matcher(name, Equal, value), [], [], "`" + value + "`")], [], [], [], [])
  }

  lemma RawSpelled(name: Text, value: Text)
    requires IsIdent(name) && '`' !in value && '\r' !in value
    ensures ProperParts(RawSpelling(name, value))
    ensures BodyText(RawSpelling(name, value)) == name + "=`" + value + "`"
    ensures Written(RawSpelling(name, value)) == "{" + name + "=`" + value + "`}"
  {
    var s := RawSpelling(name, value);
    RawIsLiteral(value);
    NoWhite();
    hide IsLiteral, IsIdent, Filter;
    OneListed(s.matchers[0]);
    assert Listed(s.matchers, s.commas) == name + ([] + ("=" + ([] + ("`" + value + "`"))));
    assert BodyText(s) == name + "=`" + value + "`";
    assert Stages([]) == [];
  }

  /** A raw string with a closing brace in it cannot be selected, although the parser takes raw strings. */
  lemma RawBraceRefused(eng: Engine, name: Text, value: Text)
    requires IsIdent(name) && '`' !in value && '"' !in value && '\r' !in value && '}' in value
    ensures Parse(eng, "{" + name + "=`" + value + "`}").Err?
  {
    var s := RawSpelling(name, value);
    var body := name + "=`" + value + "`";
    assert '"' !in body && '}' in body;
    assert Spelled(s) == Selector([Matcher(name, Equal, value)], []);
    hide Parse, Balanced, Written, BodyText, ProperParts;
    RawSpelled(name, value);
    BraceUnbalances(body);
    AcceptedIffBalanced(eng, s);
  }
}
