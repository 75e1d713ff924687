/** Parsing what the CLI prints gives back what it was printed from. */
module RoundTrip {
  import opened Texts
  import opened Spaces
  import opened Quoting
  import opened Logql
  import opened Printing
  import opened Grammar

  // ---- Printed text as a spelling --------------------------------------------------------------------

  function PrintedMatchers(table: PrintTable, ms: seq<Matcher>): (ts: seq<MatcherSpelling>)
    ensures |ts| == |ms|
  {
    if ms == [] then []
    else [MatcherSpelling(ms[0], [], [], Quote(table, ms[0].value))] + PrintedMatchers(table, ms[1..])
  }

  function PrintedCommas(ms: seq<Matcher>): seq<Comma> {
    if |ms| <= 1 then [] else [Comma([], " ")] + PrintedCommas(ms[1..])
  }

  function PrintedFilters(table: PrintTable, fs: seq<LineFilter>): seq<FilterSpelling> {
    if fs == [] then []
    else [FilterSpelling(" ", fs[0], " ", Quote(table, fs[0].value))] + PrintedFilters(table, fs[1..])
  }

  /** How the CLI spells a selector. */
  function Printed(table: PrintTable, s: Selector): Spelling {
    Spelling([], [], PrintedMatchers(table, s.matchers), PrintedCommas(s.matchers), [],
             PrintedFilters(table, s.filters), [])
  }

  lemma OneSpace()
    ensures White([]) && White(" ")
  {
    assert " "[1..] == [];
  }

  lemma PrintedMatcher(table: PrintTable, m: Matcher)
    requires IsIdent(m.name)
    ensures var t := MatcherSpelling(m, [], [], Quote(table, m.value));
            ProperMatcher(t) && t.literal != [] && t.literal[0] == '"' && Bare(t) == MatcherText(table, m)
  {
    QuoteIsLiteral(table, m.value);
    var q := Quote(table, m.value);
    assert q[0] == '"';
    hide Quote, IsLiteral;
    OneSpace();
    assert [] + q == q && [] + (MatchOpText(m.op) + q) == MatchOpText(m.op) + q;
  }

  lemma {:induction false} PrintedList(table: PrintTable, ms: seq<Matcher>)
    requires AllNamed(ms)
    ensures var ts := PrintedMatchers(table, ms);
            && ProperList(ts, PrintedCommas(ms)) && DoubleQuoted(ts) && MatchersOf(ts) == ms
            && Listed(ts, PrintedCommas(ms)) == MatchersText(table, ms)
  {
    if ms != [] {
      var t := MatcherSpelling(ms[0], [], [], Quote(table, ms[0].value));
      var rest := PrintedMatchers(table, ms[1..]);
      assert ms == [ms[0]] + ms[1..] && ms[0] in ms && forall m :: m in ms[1..] ==> m in ms;
      hide Quote, MatcherText, Bare, ProperMatcher;
      PrintedMatcher(table, ms[0]);
      PrintedList(table, ms[1..]);
      OneSpace();
      if |ms| == 1 {
        OneListed(t);
        assert PrintedMatchers(table, ms) == [t] && ms == [ms[0]];
      } else {
        MoreListed(t, Comma([], " "), rest, PrintedCommas(ms[1..]));
        PrintedComma(MatcherText(table, ms[0]), MatchersText(table, ms[1..]));
      }
    }
  }

  lemma PrintedComma(head: Text, list: Text)
    ensures head + ([] + ("," + (" " + list))) == head + ", " + list
  {
  }

  lemma {:induction false} PrintedStages(table: PrintTable, fs: seq<LineFilter>)
    ensures var ss := PrintedFilters(table, fs);
            && (forall f :: f in ss ==> ProperFilter(f)) && FiltersOf(ss) == fs
            && Stages(ss) == FiltersText(table, fs)
  {
    if fs != [] {
      var q := Quote(table, fs[0].value);
      var t := FilterSpelling(" ", fs[0], " ", q);
      var ss, rest := PrintedFilters(table, fs), PrintedFilters(table, fs[1..]);
      assert ss == [t] + rest && ss[1..] == rest && fs == [fs[0]] + fs[1..];
      QuoteIsLiteral(table, fs[0].value);
      PrintedStages(table, fs[1..]);
      hide Quote, IsLiteral;
      OneSpace();
      PrintedStage(LineOpText(fs[0].op), q, Stages(rest));
    }
  }

  lemma PrintedStage(op: Text, q: Text, rest: Text)
    ensures " " + (op + " " + q) + rest == " " + (op + (" " + (q + rest)))
  {
  }

  /**
   Parsing a printed selector with identifier labels returns the same matchers and filters in the
   same order, exactly when there is a matcher and every regexp compiles; otherwise the error says
   which of the two failed.
   */
  lemma ParseRender(eng: Engine, table: PrintTable, s: Selector)
    requires AllNamed(s.matchers)
    ensures Parse(eng, Render(table, s)) ==
            if s.matchers == [] then Err(NoMatcher) else if Compiles(eng, s) then Ok(s) else Err(BadRegexp)
  {
    var sp := Printed(table, s);
    PrintedList(table, s.matchers);
    PrintedStages(table, s.filters);
    OneSpace();
    assert Written(sp) == Render(table, s) by {
      hide MatchersText, FiltersText, Listed, Stages;
      PrintedWhole(Listed(sp.matchers, sp.commas), Stages(sp.filters));
    }
    assert Spelled(sp) == s;
    assert ProperParts(sp);
    hide *;
    ParseSpaced(eng, sp);
  }

  lemma PrintedWhole(list: Text, stages: Text)
    ensures [] + ("{" + (([] + (list + [])) + ("}" + stages)) + []) == "{" + list + "}" + stages
  {
  }

  /** Printing what the server accepted and parsing it again changes nothing. */
  lemma ParsePrintParse(eng: Engine, table: PrintTable, raw: Text)
    requires Parse(eng, raw).Ok?
    ensures var s := Parse(eng, raw).value;
            && s.matchers != [] && AllNamed(s.matchers) && Compiles(eng, s)
            && Parse(eng, Render(table, s)) == Ok(s)
  {
    var text, s := TrimSpace(raw), Parse(eng, raw).value;
    var end := ClosingBrace(text).value;
    ParsedMatchersCompile(eng, TrimSpace(text[1..end]));
    ParsedFiltersCompile(eng, TrimSpace(text[end + 1..]));
    hide TrimSpace, ParseMatchers, ParseFilters, ClosingBrace;
    ParseRender(eng, table, s);
  }
}
