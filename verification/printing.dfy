/** The CLI's selector builder and the text it renders. */
module Printing {
  import opened Texts
  import opened Quoting
  import opened Logql

  function MatcherText(table: PrintTable, m: Matcher): Text {
    m.name + MatchOpText(m.op) + Quote(table, m.value)
  }

  /** The matchers, separated by a comma and a space. */
  function MatchersText(table: PrintTable, ms: seq<Matcher>): Text {
    if ms == [] then []
    else if |ms| == 1 then MatcherText(table, ms[0])
    else MatcherText(table, ms[0]) + ", " + MatchersText(table, ms[1..])
  }

  function FilterText(table: PrintTable, f: LineFilter): Text {
    LineOpText(f.op) + " " + Quote(table, f.value)
  }

  /** Each filter after a space. */
  function FiltersText(table: PrintTable, fs: seq<LineFilter>): Text {
    if fs == [] then [] else " " + FilterText(table, fs[0]) + FiltersText(table, fs[1..])
  }

  /** Selector.String. */
  function Render(table: PrintTable, s: Selector): Text {
    "{" + MatchersText(table, s.matchers) + "}" + FiltersText(table, s.filters)
  }

  function Join(parts: seq<Text>, sep: Text): Text {
    if parts == [] then [] else if |parts| == 1 then parts[0] else parts[0] + sep + Join(parts[1..], sep)
  }

  lemma {:induction false} JoinMatchers(table: PrintTable, ms: seq<Matcher>, parts: seq<Text>)
    requires |parts| == |ms| && forall i :: 0 <= i < |ms| ==> parts[i] == MatcherText(table, ms[i])
    ensures Join(parts, ", ") == MatchersText(table, ms)
  {
    hide MatcherText;
    if |ms| > 1 {
      JoinMatchers(table, ms[1..], parts[1..]);
    }
  }

  lemma {:induction false} FiltersSnoc(table: PrintTable, fs: seq<LineFilter>, f: LineFilter)
    ensures FiltersText(table, fs + [f]) == FiltersText(table, fs) + (" " + FilterText(table, f))
  {
    hide FilterText;
    if fs == [] {
      assert fs + [f] == [f] && [f][1..] == [];
      assert FiltersText(table, [f]) == " " + FilterText(table, f) + [];
    } else {
      assert (fs + [f])[0] == fs[0] && (fs + [f])[1..] == fs[1..] + [f];
      FiltersSnoc(table, fs[1..], f);
      Regroup(" " + FilterText(table, fs[0]), FiltersText(table, fs[1..]), " " + FilterText(table, f));
    }
  }

  method JoinParts(table: PrintTable, ms: seq<Matcher>) returns (r: Text)
    ensures r == MatchersText(table, ms)
  {
    hide MatcherText;
    var parts := new Text[|ms|];
    for i := 0 to |ms|
      invariant forall k :: 0 <= k < i ==> parts[k] == MatcherText(table, ms[k])
    {
      parts[i] := ms[i].name + MatchOpText(ms[i].op) + Quote(table, ms[i].value);
      MatcherTextIs(table, ms[i]);
    }
    JoinMatchers(table, ms, parts[..]);
    r := Join(parts[..], ", ");
  }

  /** String: the parts in an array, joined, then the filters appended one by one. */
  method String(table: PrintTable, s: Selector) returns (r: Text)
    ensures r == Render(table, s)
  {
    hide MatchersText, FilterText, FiltersText;
    var parts := JoinParts(table, s.matchers);
    var head := "{" + parts + "}";
    r := head;
    NoFilters(table);
    for i := 0 to |s.filters|
      invariant r == head + FiltersText(table, s.filters[..i])
    {
      var f := s.filters[i];
      assert s.filters[..i + 1] == s.filters[..i] + [f];
      FiltersSnoc(table, s.filters[..i], f);
      FilterTextIs(table, f);
      Regroup(head, FiltersText(table, s.filters[..i]), " " + FilterText(table, f));
      r := r + (" " + LineOpText(f.op) + " " + Quote(table, f.value));
    }
    assert s.filters[..|s.filters|] == s.filters;
  }

  lemma NoFilters(table: PrintTable)
    ensures FiltersText(table, []) == []
  {
  }

  lemma MatcherTextIs(table: PrintTable, m: Matcher)
    ensures MatcherText(table, m) == m.name + MatchOpText(m.op) + Quote(table, m.value)
  {
  }

  lemma FilterTextIs(table: PrintTable, f: LineFilter)
    ensures " " + FilterText(table, f) == " " + LineOpText(f.op) + " " + Quote(table, f.value)
  {
  }

  /** Two matchers and a filter, as they are printed. */
  lemma RenderTwo(table: PrintTable, m: Matcher, n: Matcher, f: LineFilter)
    requires m.op == Equal && n.op == NotRegexp && f.op == MatchesRegexp
    ensures Render(table, Selector([m, n], [f])) ==
            "{" + m.name + "=" + Quote(table, m.value) + ", " + n.name + "!~" + Quote(table, n.value) + "} |~ "
            + Quote(table, f.value)
  {
    hide Quote;
    assert [m, n][1..] == [n] && [f][1..] == [];
    assert MatchersText(table, [m, n]) == MatcherText(table, m) + ", " + MatcherText(table, n);
    assert FiltersText(table, [f]) == " " + FilterText(table, f) + [];
  }
}
