/**
 The texts the parser accepts, written down as a grammar: what may stand where, and how much white space
 around it. A text parses to a selector exactly when it is one of the selector's spellings.
 */
module Grammar {
  import opened Texts
  import opened Spaces
  import opened Quoting
  import opened Logql

  /** A matcher written as its label, white space, its operator, white space, and a literal of its value. */
  datatype MatcherSpelling = MatcherSpelling(matcher: Matcher, gap: Text, space: Text, literal: Text)

  /** A comma and the white space on both sides of it. */
  datatype Comma = Comma(before: Text, after: Text)

  /** A line filter written after white space: its operator, white space, and a literal of its value. */
  datatype FilterSpelling = FilterSpelling(lead: Text, filter: LineFilter, space: Text, literal: Text)

  /** A whole query: commas stand between the matchers, and one more may follow the last. */
  datatype Spelling = Spelling(
    before: Text, lead: Text, matchers: seq<MatcherSpelling>, commas: seq<Comma>, tail: Text,
    filters: seq<FilterSpelling>, after: Text)

  function Bare(t: MatcherSpelling): Text {
    t.matcher.name + (t.gap + (MatchOpText(t.matcher.op) + (t.space + t.literal)))
  }

  function Listed(ts: seq<MatcherSpelling>, commas: seq<Comma>): Text {
    if ts == [] then []
    else Bare(ts[0]) +
         (if commas == [] then []
          else commas[0].before + ("," + (commas[0].after + Listed(ts[1..], commas[1..]))))
  }

  function Stages(fs: seq<FilterSpelling>): Text {
    if fs == [] then []
    else fs[0].lead + (LineOpText(fs[0].filter.op) + (fs[0].space + (fs[0].literal + Stages(fs[1..]))))
  }

  function BodyText(s: Spelling): Text {
    s.lead + (Listed(s.matchers, s.commas) + s.tail)
  }

  function Written(s: Spelling): Text {
    s.before + ("{" + (BodyText(s) + ("}" + Stages(s.filters))) + s.after)
  }

  function MatchersOf(ts: seq<MatcherSpelling>): (ms: seq<Matcher>)
    ensures |ms| == |ts|
  {
    if ts == [] then [] else [ts[0].matcher] + MatchersOf(ts[1..])
  }

  function FiltersOf(fs: seq<FilterSpelling>): (r: seq<LineFilter>)
    ensures |r| == |fs|
  {
    if fs == [] then [] else [fs[0].filter] + FiltersOf(fs[1..])
  }

  /** The selector spelled. */
  function Spelled(s: Spelling): Selector {
    Selector(MatchersOf(s.matchers), FiltersOf(s.filters))
  }

  ghost predicate ProperMatcher(t: MatcherSpelling) {
    IsIdent(t.matcher.name) && White(t.gap) && White(t.space) && IsLiteral(t.literal, t.matcher.value)
  }

  ghost predicate ProperList(ts: seq<MatcherSpelling>, commas: seq<Comma>) {
    if ts == [] then commas == []
    else
      && ProperMatcher(ts[0])
      && if commas == [] then |ts| == 1
         else
           && White(commas[0].before) && White(commas[0].after) && (|ts| == 1 ==> commas[0].after == [])
           && ProperList(ts[1..], commas[1..])
  }

  ghost predicate ProperFilter(f: FilterSpelling) {
    White(f.lead) && White(f.space) && IsLiteral(f.literal, f.filter.value)
  }

  /** Read from inside or outside a double-quoted string, `u` ends outside one and meets no closing brace. */
  predicate Balanced(u: Text, inQuote: bool)
    decreases |u|
  {
    if u == [] then !inQuote
    else if inQuote && u[0] == '\\' then |u| >= 2 && Balanced(u[2..], true)
    else if u[0] == '"' then Balanced(u[1..], !inQuote)
    else if u[0] == '}' && !inQuote then false
    else Balanced(u[1..], inQuote)
  }

  /** White space where it may be, identifiers for labels, literals of the values. */
  ghost predicate ProperParts(s: Spelling) {
    && White(s.before) && White(s.lead) && White(s.tail) && White(s.after)
    && ProperList(s.matchers, s.commas)
    && forall f :: f in s.filters ==> ProperFilter(f)
  }

  /** And no brace in a raw string closes the selector early. */
  ghost predicate Proper(s: Spelling) {
    ProperParts(s) && Balanced(BodyText(s), false)
  }

  predicate AllNamed(ms: seq<Matcher>) {
    forall m :: m in ms ==> IsIdent(m.name)
  }

  /** A label's regexp must compile with its anchors, a line's as it stands. */
  predicate MatcherTaken(eng: Engine, m: Matcher) {
    m.op == Regexp || m.op == NotRegexp ==> eng.compiles("^(?:" + m.value + ")$")
  }

  predicate FilterTaken(eng: Engine, f: LineFilter) {
    f.op == MatchesRegexp || f.op == NotMatchesRegexp ==> eng.compiles(f.value)
  }

  predicate AllCompile(eng: Engine, ms: seq<Matcher>) {
    forall m :: m in ms ==> MatcherTaken(eng, m)
  }

  predicate AllFiltersCompile(eng: Engine, fs: seq<LineFilter>) {
    forall f :: f in fs ==> FilterTaken(eng, f)
  }

  predicate Compiles(eng: Engine, s: Selector) {
    AllCompile(eng, s.matchers) && AllFiltersCompile(eng, s.filters)
  }

  // ---- Scanners --------------------------------------------------------------------------------

  lemma {:induction false} PartLenStops(name: Text, t: Text)
    requires forall i :: 0 <= i < |name| ==> IdentPart(name[i])
    requires t != [] ==> !IdentPart(t[0])
    ensures PartLen(name + t) == |name|
  {
    if name != [] {
      assert (name + t)[0] == name[0] && (name + t)[1..] == name[1..] + t;
      PartLenStops(name[1..], t);
    } else {
      assert name + t == t;
    }
  }

  lemma ScanName(name: Text, t: Text)
    requires IsIdent(name) && (t != [] ==> !IdentPart(t[0]))
    ensures ScanIdent(name + t) == Ok(Scanned(name, t))
  {
    PartLenStops(name, t);
    assert (name + t)[0] == name[0] && (name + t)[..|name|] == name && (name + t)[|name|..] == t;
  }

  lemma ScanOpBefore(op: MatchOp, t: Text)
    requires t == [] || t[0] != '~'
    ensures ScanMatchOp(MatchOpText(op) + t) == Ok(Scanned(op, t))
  {
    var s := MatchOpText(op) + t;
    assert s[|MatchOpText(op)|..] == t;
  }

  lemma ScanLineOp(op: LineOp, t: Text)
    ensures ScanFilterOp(LineOpText(op) + t) == Ok(Scanned(op, t))
  {
    var s := LineOpText(op) + t;
    assert s[2..] == t;
  }

  /** The first byte of white space, or of what follows it. */
  lemma WhiteHead(w: Text, t: Text)
    requires White(w)
    ensures w == [] ==> w + t == t
    ensures w != [] ==> (w + t)[0] == w[0] && SpaceByte((w + t)[0])
  {
    WhiteIsBlank(w);
  }

  /** Text after white space ends as it does without. */
  lemma TightAfter(a: Text, w: Text, b: Text)
    requires a != [] && Solid(a[0]) && Tight(b) && b != []
    ensures Tight(a + (w + b))
  {
    var s := a + (w + b);
    assert s[0] == a[0] && s[|s| - 1] == b[|b| - 1];
  }

  // ---- Spellings parse: matchers -------------------------------------------------------------------

  lemma Reassociate(a: Text, b: Text, c: Text, d: Text, e: Text, f: Text)
    ensures a + (b + (c + (d + e))) + f == a + (b + (c + (d + (e + f))))
  {
  }

  lemma LiteralReads(lit: Text, v: Text, t: Text)
    requires IsLiteral(lit, v)
    ensures ScanString(lit + t) == Ok(Scanned(v, t)) && ScanLiteral(lit + t) == Some(Unit(v, t))
  {
    hide ScanLiteral;
  }

  lemma LiteralTight(lit: Text, v: Text, rest: Text)
    requires IsLiteral(lit, v) && (rest != [] ==> Solid(rest[|rest| - 1]))
    ensures Tight(lit + rest) && lit + rest != []
    ensures var c := (lit + rest)[0]; c == '"' || c == '`' || c == '\''
    ensures ScanString(lit + rest) == Ok(Scanned(v, rest))
  {
    hide ScanLiteral, IsLiteral, ScanString;
    LiteralEnds(lit, v);
    LiteralReads(lit, v, rest);
    var s := lit + rest;
    assert s[0] == lit[0];
    assert s[|s| - 1] == if rest == [] then lit[|lit| - 1] else rest[|rest| - 1];
  }

  /** White space, an operator and the rest do not run into what stands before and after them. */
  lemma GapStops(gap: Text, op: MatchOp, t: Text)
    requires White(gap)
    ensures !IdentPart((gap + (MatchOpText(op) + t))[0])
  {
    WhiteHead(gap, MatchOpText(op) + t);
    assert (MatchOpText(op) + t)[0] == MatchOpText(op)[0];
  }

  lemma SpaceStops(space: Text, t: Text)
    requires White(space) && t != [] && (t[0] == '"' || t[0] == '`' || t[0] == '\'')
    ensures space + t != [] && (space + t)[0] != '~'
  {
    WhiteHead(space, t);
  }

  /** A matcher scanned part by part. */
  lemma ScanParts(eng: Engine, text: Text, m: Matcher, afterName: Text, afterOp: Text, rest: Text)
    requires ScanIdent(text) == Ok(Scanned(m.name, afterName))
    requires ScanMatchOp(TrimSpace(afterName)) == Ok(Scanned(m.op, afterOp))
    requires ScanString(TrimSpace(afterOp)) == Ok(Scanned(m.value, rest))
    ensures ScanMatcher(eng, text) == if MatcherTaken(eng, m) then Ok(Scanned(m, rest)) else Err(BadRegexp)
  {
    hide TrimSpace, ScanIdent, ScanMatchOp, ScanString;
  }

  lemma BareParts(t: MatcherSpelling, rest: Text)
    requires ProperMatcher(t)
    ensures IsIdent(t.matcher.name) && White(t.gap) && White(t.space) && IsLiteral(t.literal, t.matcher.value)
    ensures Bare(t) + rest ==
            t.matcher.name + (t.gap + (MatchOpText(t.matcher.op) + (t.space + (t.literal + rest))))
    ensures Solid(MatchOpText(t.matcher.op)[0])
  {
    hide IsLiteral, White, IsIdent;
    assert Solid(MatchOpText(t.matcher.op)[0]);
    hide MatchOpText;
    Reassociate(t.matcher.name, t.gap, MatchOpText(t.matcher.op), t.space, t.literal, rest);
  }

  /** A spelled matcher scans as itself, leaving what follows it, unless its regexp does not compile. */
  lemma ScanSpelled(eng: Engine, t: MatcherSpelling, rest: Text)
    requires ProperMatcher(t) && (rest != [] ==> Solid(rest[|rest| - 1]))
    ensures ScanMatcher(eng, Bare(t) + rest) ==
            if MatcherTaken(eng, t.matcher) then Ok(Scanned(t.matcher, rest)) else Err(BadRegexp)
  {
    hide *;
    var m, op, lit := t.matcher, MatchOpText(t.matcher.op), t.literal + rest;
    BareParts(t, rest);
    LiteralTight(t.literal, m.value, rest);
    TightAfter(op, t.space, lit);
    GapStops(t.gap, m.op, t.space + lit);
    ScanName(m.name, t.gap + (op + (t.space + lit)));
    TrimBefore(t.gap, op + (t.space + lit));
    SpaceStops(t.space, lit);
    ScanOpBefore(m.op, t.space + lit);
    TrimBefore(t.space, lit);
    ScanParts(eng, Bare(t) + rest, m, t.gap + (op + (t.space + lit)), t.space + lit, rest);
  }

  lemma BareTight(t: MatcherSpelling)
    requires ProperMatcher(t)
    ensures Tight(Bare(t)) && Bare(t) != []
  {
    LiteralEnds(t.literal, t.matcher.value);
    var b := Bare(t);
    assert b[0] == t.matcher.name[0] && b[|b| - 1] == t.literal[|t.literal| - 1];
  }

  lemma CommaTight(after: Text, list: Text)
    requires Tight(list) && (list == [] ==> after == [])
    ensures Tight("," + (after + list))
  {
    if list == [] {
      assert "," + (after + list) == ",";
    } else {
      TightAfter(",", after, list);
    }
  }

  /** What follows the first matcher of a list. */
  function Onward(ts: seq<MatcherSpelling>, commas: seq<Comma>): Text {
    if commas == [] then [] else commas[0].before + ("," + (commas[0].after + Listed(ts, commas[1..])))
  }

  lemma {:induction false} ListedTight(ts: seq<MatcherSpelling>, commas: seq<Comma>)
    requires ProperList(ts, commas)
    ensures Tight(Listed(ts, commas)) && (ts != [] ==> Listed(ts, commas) != [])
    ensures ts != [] ==> Listed(ts, commas) == Bare(ts[0]) + Onward(ts[1..], commas)
    ensures ts != [] && commas != [] ==> Tight("," + (commas[0].after + Listed(ts[1..], commas[1..])))
    ensures var rest := if ts == [] then [] else Onward(ts[1..], commas); rest != [] ==> Solid(rest[|rest| - 1])
  {
    hide Bare, ProperMatcher, White;
    if ts != [] {
      BareTight(ts[0]);
      if commas == [] {
        assert Bare(ts[0]) + [] == Bare(ts[0]);
      } else {
        ListedTight(ts[1..], commas[1..]);
        var list := Listed(ts[1..], commas[1..]);
        hide Listed;
        CommaTight(commas[0].after, list);
        TightAfter(Bare(ts[0]), commas[0].before, "," + (commas[0].after + list));
      }
    }
  }

  lemma ParseComma(eng: Engine, m: Matcher, text: Text, comma: Comma, list: Text)
    requires White(comma.before) && White(comma.after) && Tight(list) && Tight("," + (comma.after + list))
    requires text != [] && ScanMatcher(eng, text) == Ok(Scanned(m, comma.before + ("," + (comma.after + list))))
    ensures ParseMatchers(eng, text) == Prepend([m], ParseMatchers(eng, list))
  {
    hide TrimSpace, ScanMatcher, Tight, White;
    var follow := "," + (comma.after + list);
    TrimBefore(comma.before, follow);
    assert follow[1..] == comma.after + list;
    TrimBefore(comma.after, list);
  }

  lemma ParseLast(eng: Engine, m: Matcher, text: Text)
    requires text != []
    ensures ScanMatcher(eng, text) == Ok(Scanned(m, [])) ==> ParseMatchers(eng, text) == Ok([m])
    ensures ScanMatcher(eng, text).Err? ==> ParseMatchers(eng, text) == Err(ScanMatcher(eng, text).error)
  {
    hide TrimSpace, ScanMatcher;
    TrimTight([]);
  }

  /** The head of a list, and what a list asks of it. */
  lemma ListHead(eng: Engine, ts: seq<MatcherSpelling>, commas: seq<Comma>)
    requires ProperList(ts, commas) && ts != []
    ensures ProperMatcher(ts[0]) && MatchersOf(ts) == [ts[0].matcher] + MatchersOf(ts[1..])
    ensures AllCompile(eng, MatchersOf(ts)) <==>
            MatcherTaken(eng, ts[0].matcher) && AllCompile(eng, MatchersOf(ts[1..]))
    ensures commas == [] ==> ts[1..] == [] && Onward(ts[1..], commas) == []
    ensures commas != [] ==>
              && White(commas[0].before) && White(commas[0].after) && ProperList(ts[1..], commas[1..])
              && Onward(ts[1..], commas) ==
                 commas[0].before + ("," + (commas[0].after + Listed(ts[1..], commas[1..])))
  {
    hide ProperMatcher, White, Listed, MatcherTaken;
    var ms, more := MatchersOf(ts), MatchersOf(ts[1..]);
    assert ms == [ts[0].matcher] + more && forall x :: x in ms <==> x == ts[0].matcher || x in more;
  }

  lemma NoMatchers(eng: Engine)
    ensures MatchersOf([]) == [] && AllCompile(eng, []) && ParseMatchers(eng, Listed([], [])) == Ok([])
  {
  }

  /** A spelled list of matchers parses to them, in order, unless one of the regexps does not compile. */
  lemma {:induction false} ParseListed(eng: Engine, ts: seq<MatcherSpelling>, commas: seq<Comma>)
    requires ProperList(ts, commas)
    ensures ParseMatchers(eng, Listed(ts, commas)) ==
            if AllCompile(eng, MatchersOf(ts)) then Ok(MatchersOf(ts)) else Err(BadRegexp)
  {
    if ts == [] {
      NoMatchers(eng);
    } else {
      hide *;
      var m, rest, text := ts[0].matcher, ts[1..], Listed(ts, commas);
      ListHead(eng, ts, commas);
      ListedTight(ts, commas);
      ScanSpelled(eng, ts[0], Onward(rest, commas));
      ParseLast(eng, m, text);
      if commas == [] {
        NoMatchers(eng);
        assert [m] + [] == [m];
      } else {
        ListedTight(rest, commas[1..]);
        ParseListed(eng, rest, commas[1..]);
        if MatcherTaken(eng, m) {
          ParseComma(eng, m, text, commas[0], Listed(rest, commas[1..]));
          PrependOne(m, ParseMatchers(eng, Listed(rest, commas[1..])));
        }
      }
    }
  }

  // ---- Spellings parse: filters ---------------------------------------------------------------------

  /** No unsupported stage begins with = or ~, so a filter is never taken for one. */
  lemma NotStage(tail: Text, name: Text)
    requires tail != [] && (tail[0] == '=' || tail[0] == '~')
    requires name != [] && name[0] != '=' && name[0] != '~'
    ensures !StageNamed(tail, name)
  {
    assert (name + " ")[0] == name[0] && (name + "=")[0] == name[0];
  }

  lemma NoStage(tail: Text)
    requires tail != [] && (tail[0] == '=' || tail[0] == '~')
    ensures forall i :: 0 <= i < |UNSUPPORTED| ==> !StageNamed(tail, UNSUPPORTED[i])
  {
    hide StageNamed;
    forall i | 0 <= i < |UNSUPPORTED| ensures !StageNamed(tail, UNSUPPORTED[i]) {
      NotStage(tail, UNSUPPORTED[i]);
    }
  }

  lemma OperatorTail(op: LineOp, t: Text)
    requires Tight(LineOpText(op) + t)
    ensures var s := LineOpText(op) + t;
            && !HasPrefix(s, "[") && (s[1] == '=' || s[1] == '~')
            && TrimSpace(s[1..]) == s[1..]
  {
    var s := LineOpText(op) + t;
    var rest := s[1..];
    assert rest[0] == s[1] && rest[|rest| - 1] == s[|s| - 1];
    TrimTight(rest);
  }

  lemma FilterSupported(op: LineOp, t: Text)
    requires Tight(LineOpText(op) + t)
    ensures RejectUnsupported(LineOpText(op) + t).None?
  {
    hide TrimSpace, StageNamed, LineOpText, Tight;
    OperatorTail(op, t);
    NoStage((LineOpText(op) + t)[1..]);
  }

  lemma ParseFilterStep(eng: Engine, text: Text, f: LineFilter, rest: Text)
    requires text != []
    ensures ScanFilter(eng, text) == Ok(Scanned(f, rest)) ==>
              ParseFilters(eng, text) == Prepend([f], ParseFilters(eng, TrimSpace(rest)))
    ensures ScanFilter(eng, text).Err? ==> ParseFilters(eng, text) == Err(ScanFilter(eng, text).error)
  {
    hide TrimSpace, ScanFilter;
  }

  lemma ScanStage(eng: Engine, f: FilterSpelling, rest: Text)
    requires ProperFilter(f) && (rest != [] ==> Solid(rest[|rest| - 1]))
    ensures var text := LineOpText(f.filter.op) + (f.space + (f.literal + rest));
            && Tight(text)
            && ScanFilter(eng, text) ==
               if FilterTaken(eng, f.filter) then Ok(Scanned(f.filter, rest)) else Err(BadRegexp)
  {
    var op, lit := LineOpText(f.filter.op), f.literal + rest;
    assert Solid(op[0]);
    hide TrimSpace, ScanFilterOp, ScanString, RejectUnsupported, IsLiteral, White, Solid, Tight, LineOpText;
    LiteralTight(f.literal, f.filter.value, rest);
    TightAfter(op, f.space, lit);
    FilterSupported(f.filter.op, f.space + lit);
    ScanLineOp(f.filter.op, f.space + lit);
    TrimBefore(f.space, lit);
  }

  lemma StagesStep(fs: seq<FilterSpelling>)
    requires fs != [] && forall f :: f in fs ==> ProperFilter(f)
    ensures Stages(fs) ==
            fs[0].lead + (LineOpText(fs[0].filter.op) + (fs[0].space + (fs[0].literal + Stages(fs[1..]))))
    ensures IsLiteral(fs[0].literal, fs[0].filter.value) && forall f :: f in fs[1..] ==> ProperFilter(f)
  {
    hide LineOpText, IsLiteral, White;
    assert fs[0] in fs && forall x :: x in fs[1..] ==> x in fs;
  }

  lemma LastSolid(s: Text)
    requires Tight(s) && s != []
    ensures Solid(s[|s| - 1])
  {
  }

  lemma {:induction false} StagesEnd(fs: seq<FilterSpelling>)
    requires forall f :: f in fs ==> ProperFilter(f)
    ensures Stages(fs) != [] ==> Solid(Stages(fs)[|Stages(fs)| - 1])
  {
    if fs == [] {
      NoStages();
    } else {
      hide *;
      var f, rest := fs[0], Stages(fs[1..]);
      StagesStep(fs);
      StagesEnd(fs[1..]);
      LiteralTight(f.literal, f.filter.value, rest);
      LastSolid(f.literal + rest);
      EndsAs(f.lead, LineOpText(f.filter.op), f.space, f.literal + rest);
    }
  }

  lemma EndsAs(a: Text, b: Text, c: Text, d: Text)
    requires d != []
    ensures var s := a + (b + (c + d)); s != [] && s[|s| - 1] == d[|d| - 1]
  {
  }

  /** Spelled filters parse to them, in order, unless one of the regexps does not compile. */
  lemma {:induction false} ParseStages(eng: Engine, fs: seq<FilterSpelling>)
    requires forall f :: f in fs ==> ProperFilter(f)
    ensures ParseFilters(eng, TrimSpace(Stages(fs))) ==
            if AllFiltersCompile(eng, FiltersOf(fs)) then Ok(FiltersOf(fs)) else Err(BadRegexp)
  {
    if fs == [] {
      TrimTight([]);
    } else {
      var f, rest, all, more := fs[0], Stages(fs[1..]), FiltersOf(fs), FiltersOf(fs[1..]);
      var text := LineOpText(f.filter.op) + (f.space + (f.literal + rest));
      assert f in fs && forall x :: x in fs[1..] ==> x in fs;
      assert all == [f.filter] + more && forall x :: x in all <==> x == f.filter || x in more;
      assert Stages(fs) == f.lead + text && ProperFilter(f) && White(f.lead);
      assert AllFiltersCompile(eng, all) <==> FilterTaken(eng, f.filter) && AllFiltersCompile(eng, more);
      hide *;
      StagesEnd(fs[1..]);
      ParseStages(eng, fs[1..]);
      ScanStage(eng, f, rest);
      TrimBefore(f.lead, text);
      ParseFilterStep(eng, text, f.filter, rest);
      PrependOne(f.filter, ParseFilters(eng, TrimSpace(rest)));
    }
  }

  lemma PrependOne<T>(x: T, r: Result<seq<T>>)
    ensures r.Ok? ==> Prepend([x], r) == Ok([x] + r.value)
    ensures r.Err? ==> Prepend([x], r) == r
  {
  }

  // ---- The closing brace ----------------------------------------------------------------------------

  lemma {:induction false} BalancedCloses(u: Text, t: Text, inQuote: bool)
    requires Balanced(u, inQuote)
    ensures BraceAfter(u + (['}'] + t), inQuote) == Ok(|u|)
    decreases |u|
  {
    var s := u + (['}'] + t);
    if u == [] {
      assert s[0] == '}';
    } else if inQuote && u[0] == '\\' {
      assert s[0] == u[0] && s[2..] == u[2..] + (['}'] + t);
      BalancedCloses(u[2..], t, true);
    } else {
      assert s[0] == u[0] && s[1..] == u[1..] + (['}'] + t);
      BalancedCloses(u[1..], t, if u[0] == '"' then !inQuote else inQuote);
    }
  }

  lemma {:induction false} BeforeBraceBalanced(s: Text, inQuote: bool, n: nat)
    requires BraceAfter(s, inQuote) == Ok(n)
    ensures n < |s| && Balanced(s[..n], inQuote)
    decreases |s|
  {
    if inQuote && s[0] == '\\' {
      BeforeBraceBalanced(s[2..], true, n - 2);
      assert s[..n][2..] == s[2..][..n - 2];
    } else if s[0] == '"' {
      BeforeBraceBalanced(s[1..], !inQuote, n - 1);
      assert s[..n][1..] == s[1..][..n - 1];
    } else if s[0] == '}' && !inQuote {
      assert s[..0] == [];
    } else {
      BeforeBraceBalanced(s[1..], inQuote, n - 1);
      assert s[..n][1..] == s[1..][..n - 1];
    }
  }

  // ---- Whole queries --------------------------------------------------------------------------------

  lemma WrittenParts(s: Spelling)
    requires Proper(s)
    ensures var text, end := TrimSpace(Written(s)), |BodyText(s)| + 1;
            && end < |text| && text[0] == '{' && ClosingBrace(text) == Ok(end)
            && text[1..end] == BodyText(s) && text[end + 1..] == Stages(s.filters)
  {
    hide BodyText, Stages, Balanced, ProperList, ProperFilter, White, TrimSpace;
    var body, stages := BodyText(s), Stages(s.filters);
    var rest := ['}'] + stages;
    var core := "{" + (body + rest);
    StagesEnd(s.filters);
    assert core[|core| - 1] == if stages == [] then '}' else stages[|stages| - 1];
    TrimAround(s.before, core, s.after);
    assert core[1..] == body + rest;
    BalancedCloses(body, stages, false);
  }

  lemma ParseParts(eng: Engine, raw: Text, end: nat, ms: Result<seq<Matcher>>, fs: Result<seq<LineFilter>>)
    requires var text := TrimSpace(raw);
             && end < |text| && text[0] == '{' && ClosingBrace(text) == Ok(end) && end > 0
             && ParseMatchers(eng, TrimSpace(text[1..end])) == ms && ParseFilters(eng, TrimSpace(text[end + 1..])) == fs
    ensures Parse(eng, raw) ==
            match ms
            case Err(e) => Err(e)
            case Ok(matchers) =>
              if matchers == [] then Err(NoMatcher)
              else match fs case Err(e) => Err(e) case Ok(filters) => Ok(Selector(matchers, filters))
  {
    hide TrimSpace, ParseMatchers, ParseFilters, ClosingBrace;
  }

  /**
   A spelling parses to the selector spelled exactly when there is a matcher and every regexp compiles;
   otherwise the error says which of the two failed.
   */
  lemma ParseWritten(eng: Engine, s: Spelling)
    requires Proper(s)
    ensures Parse(eng, Written(s)) ==
            if s.matchers == [] then Err(NoMatcher)
            else if Compiles(eng, Spelled(s)) then Ok(Spelled(s)) else Err(BadRegexp)
  {
    hide *;
    SpellingFacts(eng, s);
    var ms, fs := MatchersOf(s.matchers), FiltersOf(s.filters);
    WrittenParts(s);
    ListedTight(s.matchers, s.commas);
    TrimBody(s);
    ParseListed(eng, s.matchers, s.commas);
    ParseStages(eng, s.filters);
    ParseParts(eng, Written(s), |BodyText(s)| + 1,
               if AllCompile(eng, ms) then Ok(ms) else Err(BadRegexp),
               if AllFiltersCompile(eng, fs) then Ok(fs) else Err(BadRegexp));
  }

  lemma SpellingFacts(eng: Engine, s: Spelling)
    requires Proper(s)
    ensures White(s.lead) && White(s.tail) && ProperList(s.matchers, s.commas)
    ensures forall f :: f in s.filters ==> ProperFilter(f)
    ensures Spelled(s) == Selector(MatchersOf(s.matchers), FiltersOf(s.filters))
    ensures Compiles(eng, Spelled(s)) <==>
            AllCompile(eng, MatchersOf(s.matchers)) && AllFiltersCompile(eng, FiltersOf(s.filters))
    ensures s.matchers == [] ==> AllCompile(eng, MatchersOf(s.matchers))
  {
    hide White, ProperList, ProperFilter, Balanced, AllFiltersCompile;
  }

  lemma TrimBody(s: Spelling)
    requires White(s.lead) && White(s.tail) && Tight(Listed(s.matchers, s.commas))
    ensures TrimSpace(BodyText(s)) == Listed(s.matchers, s.commas)
  {
    hide Listed, TrimSpace, White, Tight;
    TrimAround(s.lead, Listed(s.matchers, s.commas), s.tail);
  }

  // ---- Whatever parses is a spelling ----------------------------------------------------------------

  lemma WhiteEndsWhite(w: Text)
    requires White(w) && w != []
    ensures LastSpaceLen(w) > 0
  {
    hide LastSpaceLen;
    var k := WhiteLast(w);
    FromBehind(w[..k], w[k..]);
    assert w[..k] + w[k..] == w;
  }

  /** In trimmed text, white space and then nothing is nothing. */
  lemma TrimmedAway(x: Text)
    requires LastSpaceLen(x) == 0 && TrimSpace(x) == []
    ensures x == []
  {
    hide TrimSpace, LastSpaceLen, White;
    var w := TrimSuffix(x);
    assert w + [] == w;
    if w != [] {
      WhiteEndsWhite(w);
    }
  }

  lemma ScannedLiteral(x: Text, v: Text, rest: Text)
    requires ScanString(x) == Ok(Scanned(v, rest)) && LastSpaceLen(x) == 0
    ensures var n := |x| - |rest|; n > 0 && x == x[..n] + rest && IsLiteral(x[..n], v) && LastSpaceLen(rest) == 0
  {
    hide ScanLiteral, IsLiteral, LastSpaceLen;
    LiteralLocal(x);
    SuffixUntrimmed(x, |x| - |rest|);
  }

  lemma ScannedIdent(s: Text)
    requires ScanIdent(s).Ok? && LastSpaceLen(s) == 0
    ensures var r := ScanIdent(s).value; IsIdent(r.item) && s == r.item + r.rest && LastSpaceLen(r.rest) == 0
  {
    var r := ScanIdent(s).value;
    assert s[|r.item|..] == r.rest;
    SuffixUntrimmed(s, |r.item|);
  }

  lemma ScannedOp(s: Text)
    requires ScanMatchOp(s).Ok? && LastSpaceLen(s) == 0
    ensures var r := ScanMatchOp(s).value; s == MatchOpText(r.item) + r.rest && LastSpaceLen(r.rest) == 0
  {
    var r := ScanMatchOp(s).value;
    assert s[|MatchOpText(r.item)|..] == r.rest;
    SuffixUntrimmed(s, |MatchOpText(r.item)|);
  }

  /** The scans a matcher goes through. */
  lemma MatcherScans(eng: Engine, text: Text, m: Matcher, rest: Text)
    requires ScanMatcher(eng, text) == Ok(Scanned(m, rest))
    ensures MatcherTaken(eng, m) && ScanIdent(text).Ok? && ScanIdent(text).value.item == m.name
    ensures var x := TrimSpace(ScanIdent(text).value.rest);
            && ScanMatchOp(x).Ok? && ScanMatchOp(x).value.item == m.op
            && ScanString(TrimSpace(ScanMatchOp(x).value.rest)) == Ok(Scanned(m.value, rest))
  {
    hide TrimSpace, ScanString, ScanIdent, ScanMatchOp;
  }

  lemma JoinBare(t: MatcherSpelling, text: Text, afterName: Text, x: Text, afterOp: Text, y: Text, rest: Text)
    requires text == t.matcher.name + afterName && afterName == t.gap + x && x == MatchOpText(t.matcher.op) + afterOp
    requires afterOp == t.space + y && y == t.literal + rest
    ensures text == Bare(t) + rest
  {
    hide MatchOpText;
    Reassociate(t.matcher.name, t.gap, MatchOpText(t.matcher.op), t.space, t.literal, rest);
  }

  /** A scanned matcher is spelled out in the text before what the scan left. */
  lemma SpellMatcher(eng: Engine, text: Text, m: Matcher, rest: Text) returns (t: MatcherSpelling)
    requires ScanMatcher(eng, text) == Ok(Scanned(m, rest)) && LastSpaceLen(text) == 0
    ensures ProperMatcher(t) && t.matcher == m && text == Bare(t) + rest && LastSpaceLen(rest) == 0
    ensures MatcherTaken(eng, m) && ScanIdent(text).Ok?
    ensures ScanIdent(text).value.rest == t.gap + TrimSpace(ScanIdent(text).value.rest)
  {
    hide TrimSpace, LastSpaceLen, ScanString, ScanIdent, ScanMatchOp, IsLiteral, White, Bare, ScanMatcher, MatchOpText,
         MatcherTaken, IsIdent;
    MatcherScans(eng, text, m, rest);
    var name := ScanIdent(text).value;
    var x := TrimSpace(name.rest);
    var op := ScanMatchOp(x).value;
    var y := TrimSpace(op.rest);
    ScannedIdent(text);
    var gap := TrimSuffix(name.rest);
    ScannedOp(x);
    var space := TrimSuffix(op.rest);
    ScannedLiteral(y, m.value, rest);
    t := MatcherSpelling(m, gap, space, y[..|y| - |rest|]);
    JoinBare(t, text, name.rest, x, op.rest, y, rest);
  }

  lemma ParsedComma(eng: Engine, text: Text, ms: seq<Matcher>)
    requires text != [] && ParseMatchers(eng, text) == Ok(ms)
    ensures ScanMatcher(eng, text).Ok? && ms != [] && ms[0] == ScanMatcher(eng, text).value.item
    ensures var more := TrimSpace(ScanMatcher(eng, text).value.rest);
            if more == [] then ms == [ms[0]]
            else more[0] == ',' && ParseMatchers(eng, TrimSpace(more[1..])) == Ok(ms[1..])
  {
    hide TrimSpace, ScanMatcher;
  }

  lemma OneListed(t: MatcherSpelling)
    requires ProperMatcher(t)
    ensures ProperList([t], []) && Listed([t], []) == Bare(t) && MatchersOf([t]) == [t.matcher]
  {
    assert Bare(t) + [] == Bare(t);
  }

  lemma MoreListed(t: MatcherSpelling, comma: Comma, ts: seq<MatcherSpelling>, commas: seq<Comma>)
    requires ProperMatcher(t) && White(comma.before) && White(comma.after) && ProperList(ts, commas)
    requires Listed(ts, commas) == [] ==> comma.after == []
    ensures ProperList([t] + ts, [comma] + commas) && MatchersOf([t] + ts) == [t.matcher] + MatchersOf(ts)
    ensures Listed([t] + ts, [comma] + commas) ==
            Bare(t) + (comma.before + ("," + (comma.after + Listed(ts, commas))))
  {
    hide ProperMatcher, White, Bare;
    assert ([t] + ts)[1..] == ts && ([comma] + commas)[1..] == commas;
  }

  /** A comma after a matcher, with the white space on both sides. */
  lemma SpellComma(after: Text) returns (comma: Comma)
    requires LastSpaceLen(after) == 0 && TrimSpace(after) != [] && TrimSpace(after)[0] == ','
    ensures var list := TrimSpace(TrimSpace(after)[1..]);
            && after == comma.before + ("," + (comma.after + list)) && LastSpaceLen(list) == 0
            && White(comma.before) && White(comma.after) && (list == [] ==> comma.after == [])
  {
    hide TrimSpace, LastSpaceLen, White;
    var before := TrimSuffix(after);
    var more := TrimSpace(after);
    assert more == "," + more[1..];
    SuffixUntrimmed(more, 1);
    var gap := TrimSuffix(more[1..]);
    comma := Comma(before, gap);
    if TrimSpace(more[1..]) == [] {
      TrimmedAway(more[1..]);
    }
  }

  lemma SpellLast(eng: Engine, text: Text, m: Matcher, after: Text) returns (t: MatcherSpelling)
    requires ScanMatcher(eng, text) == Ok(Scanned(m, after)) && LastSpaceLen(text) == 0 && TrimSpace(after) == []
    ensures ProperList([t], []) && Listed([t], []) == text && MatchersOf([t]) == [m]
  {
    hide *;
    t := SpellMatcher(eng, text, m, after);
    TrimmedAway(after);
    OneListed(t);
    assert Bare(t) + [] == Bare(t);
  }

  lemma SpellNext(eng: Engine, text: Text, m: Matcher, after: Text, ts: seq<MatcherSpelling>, commas: seq<Comma>)
    returns (t: MatcherSpelling, comma: Comma)
    requires ScanMatcher(eng, text) == Ok(Scanned(m, after)) && LastSpaceLen(text) == 0 && TrimSpace(after) != []
    requires TrimSpace(after)[0] == ',' && ProperList(ts, commas)
    requires Listed(ts, commas) == TrimSpace(TrimSpace(after)[1..])
    ensures ProperList([t] + ts, [comma] + commas) && Listed([t] + ts, [comma] + commas) == text
    ensures MatchersOf([t] + ts) == [m] + MatchersOf(ts)
  {
    hide *;
    t := SpellMatcher(eng, text, m, after);
    comma := SpellComma(after);
    MoreListed(t, comma, ts, commas);
  }

  lemma {:induction false} SpellMatchers(eng: Engine, text: Text, ms: seq<Matcher>)
    returns (ts: seq<MatcherSpelling>, commas: seq<Comma>)
    requires ParseMatchers(eng, text) == Ok(ms) && LastSpaceLen(text) == 0
    ensures ProperList(ts, commas) && Listed(ts, commas) == text && MatchersOf(ts) == ms
    decreases |text|
  {
    ts, commas := [], [];
    if text != [] {
      hide *;
      ParsedComma(eng, text, ms);
      var after := ScanMatcher(eng, text).value.rest;
      var more := TrimSpace(after);
      var t, comma;
      if more == [] {
        t := SpellLast(eng, text, ms[0], after);
        ts := [t];
      } else {
        TrimmedEnd(eng, text, ms[0], after);
        ts, commas := SpellMatchers(eng, TrimSpace(more[1..]), ms[1..]);
        t, comma := SpellNext(eng, text, ms[0], after, ts, commas);
        ts, commas := [t] + ts, [comma] + commas;
        assert ms == [ms[0]] + ms[1..];
      }
    }
  }

  lemma TrimmedEnd(eng: Engine, text: Text, m: Matcher, after: Text)
    requires ScanMatcher(eng, text) == Ok(Scanned(m, after)) && LastSpaceLen(text) == 0
    requires TrimSpace(after) != [] && TrimSpace(after)[0] == ','
    ensures LastSpaceLen(TrimSpace(TrimSpace(after)[1..])) == 0
  {
    hide *;
    var t := SpellMatcher(eng, text, m, after);
    var comma := SpellComma(after);
  }

  lemma ScannedLineOp(s: Text)
    requires ScanFilterOp(s).Ok? && LastSpaceLen(s) == 0
    ensures var r := ScanFilterOp(s).value; s == LineOpText(r.item) + r.rest && LastSpaceLen(r.rest) == 0
  {
    var r := ScanFilterOp(s).value;
    assert s[2..] == r.rest;
    SuffixUntrimmed(s, 2);
  }

  /** The scans a filter goes through. */
  lemma FilterScans(eng: Engine, text: Text, f: LineFilter, rest: Text)
    requires ScanFilter(eng, text) == Ok(Scanned(f, rest))
    ensures ScanFilterOp(text).Ok? && ScanFilterOp(text).value.item == f.op
    ensures ScanString(TrimSpace(ScanFilterOp(text).value.rest)) == Ok(Scanned(f.value, rest))
  {
    hide TrimSpace, ScanString, ScanFilterOp, RejectUnsupported;
  }

  lemma SpellFilter(eng: Engine, text: Text, f: LineFilter, rest: Text) returns (t: FilterSpelling)
    requires ScanFilter(eng, text) == Ok(Scanned(f, rest)) && LastSpaceLen(text) == 0
    ensures ProperFilter(t) && t.filter == f && t.lead == [] && LastSpaceLen(rest) == 0
    ensures text == LineOpText(f.op) + (t.space + (t.literal + rest))
  {
    hide *;
    FilterScans(eng, text, f, rest);
    var op := ScanFilterOp(text).value;
    var y := TrimSpace(op.rest);
    ScannedLineOp(text);
    var space := TrimSuffix(op.rest);
    ScannedLiteral(y, f.value, rest);
    t := FilterSpelling([], f, space, y[..|y| - |rest|]);
    FilterIsProper(t);
  }

  lemma FilterIsProper(t: FilterSpelling)
    requires t.lead == [] && White(t.space) && IsLiteral(t.literal, t.filter.value)
    ensures ProperFilter(t)
  {
    hide IsLiteral;
  }

  /** The same filters, the first after white space. */
  function After(w: Text, fs: seq<FilterSpelling>): seq<FilterSpelling> {
    if fs == [] then [] else [fs[0].(lead := w)] + fs[1..]
  }

  lemma StagesAfter(w: Text, fs: seq<FilterSpelling>)
    requires White(w) && (forall f :: f in fs ==> ProperFilter(f)) && (fs != [] ==> fs[0].lead == [])
    ensures forall f :: f in After(w, fs) ==> ProperFilter(f)
    ensures fs != [] ==> Stages(After(w, fs)) == w + Stages(fs)
    ensures FiltersOf(After(w, fs)) == FiltersOf(fs)
  {
    if fs != [] {
      var gs := After(w, fs);
      assert gs[1..] == fs[1..] && fs[0] in fs && forall x :: x in fs[1..] ==> x in fs;
      hide White, IsLiteral;
      var body := LineOpText(fs[0].filter.op) + (fs[0].space + (fs[0].literal + Stages(fs[1..])));
      assert [] + body == body;
    }
  }

  lemma ParsedStage(eng: Engine, text: Text, fs: seq<LineFilter>)
    requires text != [] && ParseFilters(eng, text) == Ok(fs)
    ensures ScanFilter(eng, text).Ok? && fs != [] && ScanFilter(eng, text).value.item == fs[0]
    ensures ParseFilters(eng, TrimSpace(ScanFilter(eng, text).value.rest)) == Ok(fs[1..])
  {
    hide TrimSpace, ScanFilter;
  }

  lemma MoreStages(t: FilterSpelling, ss: seq<FilterSpelling>)
    requires ProperFilter(t) && forall f :: f in ss ==> ProperFilter(f)
    ensures forall f :: f in [t] + ss ==> ProperFilter(f)
    ensures FiltersOf([t] + ss) == [t.filter] + FiltersOf(ss)
    ensures t.lead == [] ==> Stages([t] + ss) == LineOpText(t.filter.op) + (t.space + (t.literal + Stages(ss)))
  {
    hide ProperFilter, LineOpText;
    assert ([t] + ss)[1..] == ss;
    var rest := LineOpText(t.filter.op) + (t.space + (t.literal + Stages(ss)));
    assert [] + rest == rest;
  }

  lemma {:induction false} SpellFilters(eng: Engine, text: Text, fs: seq<LineFilter>) returns (ss: seq<FilterSpelling>)
    requires ParseFilters(eng, text) == Ok(fs) && LastSpaceLen(text) == 0
    ensures (forall f :: f in ss ==> ProperFilter(f)) && (ss != [] ==> ss[0].lead == [])
    ensures Stages(ss) == text && FiltersOf(ss) == fs
    decreases |text|, 0
  {
    ss := [];
    if text != [] {
      hide *;
      ParsedStage(eng, text, fs);
      var rest := ScanFilter(eng, text).value.rest;
      var t := SpellFilter(eng, text, fs[0], rest);
      ss := SpellStages(eng, rest, fs[1..]);
      MoreStages(t, ss);
      assert fs == [fs[0]] + fs[1..];
      ss := [t] + ss;
    }
  }

  lemma {:induction false} SpellStages(eng: Engine, rest: Text, fs: seq<LineFilter>) returns (ss: seq<FilterSpelling>)
    requires ParseFilters(eng, TrimSpace(rest)) == Ok(fs) && LastSpaceLen(rest) == 0
    ensures (forall f :: f in ss ==> ProperFilter(f)) && Stages(ss) == rest && FiltersOf(ss) == fs
    decreases |rest|, 1
  {
    NoStages();
    hide *;
    var w := TrimSuffix(rest);
    var bare := SpellFilters(eng, TrimSpace(rest), fs);
    StagesAfter(w, bare);
    ss := After(w, bare);
    if bare == [] {
      TrimmedAway(rest);
      assert After(w, []) == [] by { NothingAfter(w); }
    }
  }

  lemma NothingAfter(w: Text)
    ensures After(w, []) == []
  {
  }

  lemma NoStages()
    ensures Stages([]) == []
  {
  }

  lemma {:induction false} ParsedMatchersCompile(eng: Engine, rest: Text)
    ensures var r := ParseMatchers(eng, rest); r.Ok? ==> AllNamed(r.value) && AllCompile(eng, r.value)
    decreases |rest|
  {
    hide TrimSpace, ScanMatcher;
    if rest != [] && ScanMatcher(eng, rest).Ok? {
      var more := TrimSpace(ScanMatcher(eng, rest).value.rest);
      if HasPrefix(more, ",") {
        ParsedMatchersCompile(eng, TrimSpace(more[1..]));
      }
    }
  }

  lemma {:induction false} ParsedFiltersCompile(eng: Engine, rest: Text)
    ensures ParseFilters(eng, rest).Ok? ==> AllFiltersCompile(eng, ParseFilters(eng, rest).value)
    decreases |rest|
  {
    hide TrimSpace, ScanFilter;
    if rest != [] && ScanFilter(eng, rest).Ok? {
      ParsedFiltersCompile(eng, TrimSpace(ScanFilter(eng, rest).value.rest));
    }
  }

  /** A parsed query, taken apart. */
  lemma ParsedParts(eng: Engine, raw: Text, s: Selector)
    requires Parse(eng, raw) == Ok(s)
    ensures var text := TrimSpace(raw);
            && text != [] && text[0] == '{' && ClosingBrace(text).Ok?
            && var end := ClosingBrace(text).value;
               && 0 < end < |text| && text == "{" + (text[1..end] + ("}" + text[end + 1..]))
               && ParseMatchers(eng, TrimSpace(text[1..end])) == Ok(s.matchers) && s.matchers != []
               && ParseFilters(eng, TrimSpace(text[end + 1..])) == Ok(s.filters)
               && Balanced(text[1..end], false)
  {
    hide TrimSpace, ParseMatchers, ParseFilters, Balanced, BraceAfter;
    var text := TrimSpace(raw);
    var end := ClosingBrace(text).value;
    BeforeBraceBalanced(text[1..], false, end - 1);
    assert text[1..][..end - 1] == text[1..end];
    Sliced(text, end);
  }

  lemma Sliced(text: Text, end: nat)
    requires 0 < end < |text| && text[0] == '{' && text[end] == '}'
    ensures text == "{" + (text[1..end] + ("}" + text[end + 1..]))
  {
  }

  lemma SpellQuery(eng: Engine, raw: Text, s: Selector) returns (sp: Spelling)
    requires Parse(eng, raw) == Ok(s)
    ensures Proper(sp) && Written(sp) == raw && Spelled(sp) == s && Compiles(eng, s) && s.matchers != []
  {
    hide TrimSpace, Parse, ParseMatchers, ParseFilters, Balanced, ClosingBrace, White, ProperFilter, ProperList, Listed,
         Stages, LastSpaceLen, MatchersOf, FiltersOf, AllCompile, AllFiltersCompile;
    ParsedParts(eng, raw, s);
    var text := TrimSpace(raw);
    var end := ClosingBrace(text).value;
    var before, after := TrimSplit(raw);
    var lead, tail := TrimSplit(text[1..end]);
    SuffixUntrimmed(text, end + 1);
    ParsedMatchersCompile(eng, TrimSpace(text[1..end]));
    ParsedFiltersCompile(eng, TrimSpace(text[end + 1..]));
    var ts, commas := SpellMatchers(eng, TrimSpace(text[1..end]), s.matchers);
    var fs := SpellStages(eng, text[end + 1..], s.filters);
    sp := Spelling(before, lead, ts, commas, tail, fs, after);
  }

  /** A text parses to a selector exactly when it is one of its spellings, with a matcher and regexps that compile. */
  lemma ParsesIff(eng: Engine, raw: Text, s: Selector)
    ensures Parse(eng, raw) == Ok(s) <==>
            && s.matchers != [] && Compiles(eng, s)
            && exists sp :: Proper(sp) && Written(sp) == raw && Spelled(sp) == s
  {
    hide Parse, Proper, Written, Compiles;
    if Parse(eng, raw) == Ok(s) {
      var sp := SpellQuery(eng, raw, s);
    }
    if sp :| Proper(sp) && Written(sp) == raw && Spelled(sp) == s {
      ParseWritten(eng, sp);
    }
  }

  // ---- Double-quoted strings ------------------------------------------------------------------------

  lemma {:induction false} BalancedPast(u: Text, t: Text, inQuote: bool)
    requires '"' !in u && (if inQuote then '\\' !in u else '}' !in u)
    ensures Balanced(u + t, inQuote) == Balanced(t, inQuote)
  {
    if u == [] {
      assert u + t == t;
    } else {
      assert (u + t)[0] == u[0] && (u + t)[1..] == u[1..] + t;
      assert u[0] in u && forall c :: c in u[1..] ==> c in u;
      BalancedPast(u[1..], t, inQuote);
    }
  }

  lemma BalancedEscape(s: Text, t: Text)
    requires |s| >= 2 && s[0] == '\\'
    ensures Balanced(s + t, true) == Balanced(s[2..] + t, true)
  {
    assert (s + t)[0] == s[0] && (s + t)[2..] == s[2..] + t;
  }

  lemma BalancedUnit(s: Text, t: Text, k: nat)
    requires k <= |s| && s != []
    requires s[0] == '\\' ==> 2 <= k && '"' !in s[2..k] && '\\' !in s[2..k]
    requires s[0] != '\\' ==> '"' !in s[..k] && '\\' !in s[..k]
    ensures Balanced(s + t, true) == Balanced(s[k..] + t, true)
  {
    hide Balanced;
    if s[0] == '\\' {
      BalancedEscape(s, t);
      assert s[2..] + t == s[2..k] + (s[k..] + t);
      BalancedPast(s[2..k], s[k..] + t, true);
    } else {
      assert s + t == s[..k] + (s[k..] + t);
      BalancedPast(s[..k], s[k..] + t, true);
    }
  }

  lemma BalancedQuote(t: Text, inQuote: bool)
    ensures Balanced(['"'] + t, inQuote) == Balanced(t, !inQuote)
  {
    assert (['"'] + t)[1..] == t;
  }

  lemma {:induction false} BodyBalanced(s: Text, t: Text)
    requires UnquoteBody(s).Some? && UnquoteBody(s).value.rest == []
    ensures Balanced(s + t, true) == Balanced(t, false)
    decreases |s|
  {
    if s[0] == '"' {
      assert s == ['"'];
      BalancedQuote(t, true);
    } else {
      hide UnquoteUnit, Balanced;
      var k := UnitShape(s);
      BalancedUnit(s, t, k);
      BodyBalanced(s[k..], t);
    }
  }

  lemma QuotedBalanced(lit: Text, v: Text, t: Text)
    requires IsLiteral(lit, v) && lit != [] && lit[0] == '"'
    ensures Balanced(lit + t, false) == Balanced(t, false)
  {
    hide *;
    LiteralEnds(lit, v);
    LiteralKind(lit);
    assert lit + t == ['"'] + (lit[1..] + t);
    BalancedQuote(lit[1..] + t, false);
    BodyBalanced(lit[1..], t);
  }

  lemma WhiteBalanced(w: Text, t: Text)
    requires White(w)
    ensures Balanced(w + t, false) == Balanced(t, false)
  {
    WhiteIsBlank(w);
    hide White, Balanced;
    assert '"' !in w && '}' !in w;
    BalancedPast(w, t, false);
  }

  ghost predicate DoubleQuoted(ts: seq<MatcherSpelling>) {
    forall t :: t in ts ==> t.literal != [] && t.literal[0] == '"'
  }

  lemma BareBalanced(m: MatcherSpelling, t: Text)
    requires ProperMatcher(m) && m.literal != [] && m.literal[0] == '"'
    ensures Balanced(Bare(m) + t, false) == Balanced(t, false)
  {
    var name, op := m.matcher.name, MatchOpText(m.matcher.op);
    assert '"' !in name && '}' !in name && '"' !in op && '}' !in op;
    hide Balanced, IsLiteral, White, MatchOpText, IsIdent;
    Reassociate(name, m.gap, op, m.space, m.literal, t);
    BalancedPast(name, m.gap + (op + (m.space + (m.literal + t))), false);
    WhiteBalanced(m.gap, op + (m.space + (m.literal + t)));
    BalancedPast(op, m.space + (m.literal + t), false);
    WhiteBalanced(m.space, m.literal + t);
    QuotedBalanced(m.literal, m.matcher.value, t);
  }

  lemma {:induction false} ListedBalanced(ts: seq<MatcherSpelling>, commas: seq<Comma>, t: Text)
    requires ProperList(ts, commas) && DoubleQuoted(ts)
    ensures Balanced(Listed(ts, commas) + t, false) == Balanced(t, false)
  {
    if ts == [] {
      assert [] + t == t;
    } else {
      assert ts[0] in ts && forall x :: x in ts[1..] ==> x in ts;
      var bare, rest := Bare(ts[0]), Onward(ts[1..], commas);
      assert Listed(ts, commas) == bare + rest;
      Regroup(bare, rest, t);
      hide Balanced, Bare, ProperMatcher, White;
      BareBalanced(ts[0], rest + t);
      if commas == [] {
        assert [] + t == t;
      } else {
        ListedBalanced(ts[1..], commas[1..], t);
        CommaBalanced(commas[0], Listed(ts[1..], commas[1..]), t);
      }
    }
  }

  lemma CommaBalanced(comma: Comma, list: Text, t: Text)
    requires White(comma.before) && White(comma.after)
    ensures Balanced(comma.before + ("," + (comma.after + list)) + t, false) == Balanced(list + t, false)
  {
    hide White, Balanced;
    var c: Text := ",";
    assert comma.before + (c + (comma.after + list)) + t == comma.before + (c + (comma.after + (list + t)));
    WhiteBalanced(comma.before, c + (comma.after + (list + t)));
    BalancedPast(c, comma.after + (list + t), false);
    WhiteBalanced(comma.after, list + t);
  }

  /**
   With its strings in double quotes, a selector may be spelled with any white space around its braces, labels,
   operators, values and commas, and with a comma after the last matcher: it parses to the same selector.
   */
  lemma ParseSpaced(eng: Engine, s: Spelling)
    requires ProperParts(s) && DoubleQuoted(s.matchers)
    ensures Parse(eng, Written(s)) ==
            if s.matchers == [] then Err(NoMatcher)
            else if Compiles(eng, Spelled(s)) then Ok(Spelled(s)) else Err(BadRegexp)
  {
    hide *;
    ClosesItself(s);
    ParseWritten(eng, s);
  }

  lemma TailBalanced(w: Text)
    requires White(w)
    ensures Balanced(w, false)
  {
    WhiteBalanced(w, []);
    assert w + [] == w;
  }

  // ---- Letter by letter ------------------------------------------------------------------------------

  predicate Letter(c: Byte) {
    c in "abcdefghijklmnopqrstuvwxyz" || c in "ABCDEFGHIJKLMNOPQRSTUVWXYZ" || c == '_'
  }

  lemma UpperLetters(c: Byte)
    ensures 'A' <= c <= 'Z' <==> c in "ABCDEFGHIJKLMNOPQRSTUVWXYZ"
  {
  }

  lemma StartIsLetter(c: Byte)
    ensures IdentStart(c) <==> Letter(c)
  {
    LowerLetters(c);
    UpperLetters(c);
  }

  /** Labels are made of ASCII letters, digits and underscores, and do not begin with a digit. */
  lemma IdentIff(name: Text)
    ensures IsIdent(name) <==>
            name != [] && Letter(name[0]) && forall i :: 0 <= i < |name| ==> Letter(name[i]) || name[i] in "0123456789"
  {
    hide Letter, IdentStart;
    forall i | 0 <= i < |name|
      ensures IdentStart(name[i]) <==> Letter(name[i])
      ensures '0' <= name[i] <= '9' <==> name[i] in "0123456789"
    {
      StartIsLetter(name[i]);
    }
  }

  /** One matcher, spelled without white space. */
  lemma OneMatcher(eng: Engine, m: Matcher, lit: Text)
    requires IsIdent(m.name) && IsLiteral(lit, m.value) && lit != [] && lit[0] == '"' && MatcherTaken(eng, m)
    ensures Parse(eng, "{" + m.name + MatchOpText(m.op) + lit + "}") == Ok(Selector([m], []))
  {
    var t := MatcherSpelling(m, [], [], lit);
    var s := Spelling([], [], [t], [], [], [], []);
    assert Listed([t], []) == Bare(t) + [] && Stages([]) == [];
    assert Spelled(s) == Selector([m], []);
    hide IsLiteral, IsIdent, MatcherTaken, MatchOpText, Parse;
    assert Written(s) == "{" + m.name + MatchOpText(m.op) + lit + "}";
    ParseSpaced(eng, s);
  }

  /** The four operators of a matcher, as they are written. */
  lemma OperatorReads(eng: Engine, m: Matcher, symbol: Text, lit: Text)
    requires || (m.op == Equal && symbol == "=") || (m.op == NotEqual && symbol == "!=")
             || (m.op == Regexp && symbol == "=~") || (m.op == NotRegexp && symbol == "!~")
    requires IsIdent(m.name) && IsLiteral(lit, m.value) && lit != [] && lit[0] == '"' && MatcherTaken(eng, m)
    ensures Parse(eng, "{" + m.name + symbol + lit + "}") == Ok(Selector([m], []))
  {
    assert symbol == MatchOpText(m.op);
    hide *;
    OneMatcher(eng, m, lit);
  }

  /** One filter after a selector. */
  lemma OneFilter(eng: Engine, s: Spelling, f: LineFilter, lit: Text)
    requires ProperParts(s) && DoubleQuoted(s.matchers) && s.matchers != [] && s.filters == [] && s.after == []
    requires Compiles(eng, Spelled(s)) && IsLiteral(lit, f.value) && FilterTaken(eng, f)
    ensures Parse(eng, Written(s) + LineOpText(f.op) + lit) == Ok(Selector(Spelled(s).matchers, [f]))
  {
    var t := s.(filters := [FilterSpelling([], f, [], lit)]);
    hide IsLiteral, LineOpText, Parse, ProperList, Listed, Balanced, FilterTaken, MatchersOf;
    OneStage(f, lit);
    assert Stages([]) == [] by { NoStages(); }
    assert Written(t) == Written(s) + LineOpText(f.op) + lit;
    assert Spelled(t) == Selector(Spelled(s).matchers, [f]);
    ParseSpaced(eng, t);
  }

  lemma OneStage(f: LineFilter, lit: Text)
    ensures Stages([FilterSpelling([], f, [], lit)]) == LineOpText(f.op) + lit
    ensures FiltersOf([FilterSpelling([], f, [], lit)]) == [f] && White([])
  {
    hide LineOpText;
    var t := FilterSpelling([], f, [], lit);
    assert [t][1..] == [] && lit + [] == lit && [] + (LineOpText(f.op) + lit) == LineOpText(f.op) + lit;
  }

  /** The four operators of a line filter, as they are written. */
  lemma FilterOperatorReads(eng: Engine, s: Spelling, f: LineFilter, symbol: Text, lit: Text)
    requires || (f.op == Contains && symbol == "|=") || (f.op == NotContains && symbol == "!=")
             || (f.op == MatchesRegexp && symbol == "|~") || (f.op == NotMatchesRegexp && symbol == "!~")
    requires ProperParts(s) && DoubleQuoted(s.matchers) && s.matchers != [] && s.filters == [] && s.after == []
    requires Compiles(eng, Spelled(s)) && IsLiteral(lit, f.value) && FilterTaken(eng, f)
    ensures Parse(eng, Written(s) + symbol + lit) == Ok(Selector(Spelled(s).matchers, [f]))
  {
    assert symbol == LineOpText(f.op);
    hide *;
    OneFilter(eng, s, f, lit);
  }

  // ---- Stages that are refused -------------------------------------------------------------------------

  /** A selector and what follows it are parsed one after the other. */
  lemma AfterSelector(eng: Engine, s: Spelling, suffix: Text)
    requires ProperParts(s) && DoubleQuoted(s.matchers) && s.matchers != [] && s.filters == [] && s.after == []
    requires AllCompile(eng, Spelled(s).matchers) && Tight(suffix)
    ensures Parse(eng, Written(s) + suffix) ==
            match ParseFilters(eng, suffix)
            case Err(e) => Err(e)
            case Ok(fs) => Ok(Selector(Spelled(s).matchers, fs))
  {
    hide *;
    ClosesItself(s);
    SpellingFacts(eng, s);
    SuffixParts(s, suffix);
    ListedTight(s.matchers, s.commas);
    TrimBody(s);
    ParseListed(eng, s.matchers, s.commas);
    TrimTight(suffix);
    ParseParts(eng, Written(s) + suffix, |BodyText(s)| + 1, Ok(MatchersOf(s.matchers)), ParseFilters(eng, suffix));
  }

  lemma ClosesItself(s: Spelling)
    requires ProperParts(s) && DoubleQuoted(s.matchers)
    ensures Proper(s)
  {
    hide Balanced, Listed, ProperList, White, ProperFilter, DoubleQuoted;
    WhiteBalanced(s.lead, Listed(s.matchers, s.commas) + s.tail);
    ListedBalanced(s.matchers, s.commas, s.tail);
    TailBalanced(s.tail);
  }

  lemma SuffixParts(s: Spelling, suffix: Text)
    requires Proper(s) && s.filters == [] && s.after == [] && Tight(suffix)
    ensures var text, end := TrimSpace(Written(s) + suffix), |BodyText(s)| + 1;
            && end < |text| && text[0] == '{' && ClosingBrace(text) == Ok(end)
            && text[1..end] == BodyText(s) && text[end + 1..] == suffix
  {
    hide BodyText, Balanced, ProperList, ProperFilter, White, TrimSpace;
    var body := BodyText(s);
    var rest := ['}'] + suffix;
    var core := "{" + (body + rest);
    assert core[|core| - 1] == if suffix == [] then '}' else suffix[|suffix| - 1];
    assert Stages([]) == [];
    assert Written(s) + suffix == s.before + core;
    TrimBefore(s.before, core);
    assert core[1..] == body + rest;
    BalancedCloses(body, suffix, false);
  }

  /** The pipeline stages of LogQL that are not in the subset. */
  predicate LeftOut(name: Text) {
    name in ["json", "logfmt", "pattern", "regexp", "unpack", "line_format", "label_format", "unwrap",
             "drop", "keep", "decolorize"]
  }

  /** A log pipeline's other stages are refused by name, and a range by its bracket. */
  lemma StageRefused(eng: Engine, s: Spelling, w: Text, name: Text, rest: Text)
    requires ProperParts(s) && DoubleQuoted(s.matchers) && s.matchers != [] && s.filters == [] && s.after == []
    requires AllCompile(eng, Spelled(s).matchers) && White(w) && Tight(name + rest)
    requires LeftOut(name)
    requires rest == [] || rest[0] == ' ' || rest[0] == '='
    ensures Parse(eng, Written(s) + ("|" + (w + (name + rest)))) == Err(UnsupportedStage)
  {
    var suffix := "|" + (w + (name + rest));
    hide *;
    StageIsNamed(w, name, rest);
    AfterSelector(eng, s, suffix);
    RefusedFilter(eng, suffix);
  }

  lemma RangeRefused(eng: Engine, s: Spelling, rest: Text)
    requires ProperParts(s) && DoubleQuoted(s.matchers) && s.matchers != [] && s.filters == [] && s.after == []
    requires AllCompile(eng, Spelled(s).matchers) && Tight("[" + rest)
    ensures Parse(eng, Written(s) + ("[" + rest)) == Err(RangeVector)
  {
    var suffix := "[" + rest;
    assert RejectUnsupported(suffix) == Some(RangeVector);
    hide *;
    AfterSelector(eng, s, suffix);
    RefusedFilter(eng, suffix);
  }

  lemma RefusedFilter(eng: Engine, suffix: Text)
    requires suffix != [] && RejectUnsupported(suffix).Some?
    ensures ParseFilters(eng, suffix) == Err(RejectUnsupported(suffix).value)
  {
    hide RejectUnsupported, TrimSpace;
  }

  lemma NamedStage(name: Text, rest: Text)
    requires rest == [] || rest[0] == ' ' || rest[0] == '='
    ensures StageNamed(name + rest, name)
  {
    if rest == [] {
      assert name + rest == name;
    } else {
      assert name + rest == name + [rest[0]] + rest[1..];
    }
  }

  lemma StageListed(name: Text) returns (i: nat)
    requires LeftOut(name)
    ensures i < |UNSUPPORTED| && UNSUPPORTED[i] == name && name != []
  {
    var names: seq<Text> := ["json", "logfmt", "pattern", "regexp", "unpack", "line_format", "label_format", "unwrap",
                             "drop", "keep", "decolorize"];
    i :| 0 <= i < |names| && names[i] == name;
  }

  lemma StageIsNamed(w: Text, name: Text, rest: Text)
    requires White(w) && Tight(name + rest)
    requires LeftOut(name)
    requires rest == [] || rest[0] == ' ' || rest[0] == '='
    ensures var suffix := "|" + (w + (name + rest));
            Tight(suffix) && RejectUnsupported(suffix) == Some(UnsupportedStage)
  {
    var tail := name + rest;
    var suffix := "|" + (w + tail);
    NamedStage(name, rest);
    var i := StageListed(name);
    hide StageNamed, White, TrimSpace;
    TightAfter("|", w, tail);
    assert suffix[1..] == w + tail;
    TrimBefore(w, tail);
  }
}
