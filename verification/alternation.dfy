/** OneOf and NoneOf: several values for one label as a regexp alternation of escaped literals. */
module Alternation {
  import opened Texts
  import opened Ordering
  import opened Utf8
  import opened Spaces
  import opened Quoting
  import opened Logql
  import opened Printing
  import opened Grammar
  import opened RoundTrip

  // ---- Building ----------------------------------------------------------------------------------

  /** dedupe: values trimmed, blanks and repeats dropped, in first-seen order. */
  function Dedupe(out: seq<Text>, values: seq<Text>): (r: seq<Text>)
    ensures out <= r
    decreases |values|
  {
    if values == [] then out
    else
      var v := TrimSpace(values[0]);
      Dedupe(if v != [] && v !in out then out + [v] else out, values[1..])
  }

  /** The listing holds exactly the non-blank trimmed values, each once. */
  lemma {:induction false} DedupeMeaning(out: seq<Text>, values: seq<Text>)
    requires Distinct(out) && [] !in out
    ensures var r := Dedupe(out, values);
            && Distinct(r) && [] !in r
            && forall w :: w in r <==>
                 w in out || (w != [] && exists i :: 0 <= i < |values| && TrimSpace(values[i]) == w)
    decreases |values|
  {
    hide TrimSpace;
    if values != [] {
      var v := TrimSpace(values[0]);
      var out' := if v != [] && v !in out then out + [v] else out;
      DedupeMeaning(out', values[1..]);
      var r := Dedupe(out, values);
      forall w ensures w in r <==> w in out || (w != [] && exists i :: 0 <= i < |values| && TrimSpace(values[i]) == w) {
        if w in out' && w !in out {
          assert TrimSpace(values[0]) == w;
        }
        if i :| 0 <= i < |values[1..]| && TrimSpace(values[1..][i]) == w {
          assert TrimSpace(values[i + 1]) == w;
        }
        if w != [] && exists i :: 0 <= i < |values| && TrimSpace(values[i]) == w {
          var i :| 0 <= i < |values| && TrimSpace(values[i]) == w;
          assert i > 0 ==> TrimSpace(values[1..][i - 1]) == w;
        }
      }
    }
  }

  method DedupeValues(values: seq<Text>) returns (out: seq<Text>)
    ensures out == Dedupe([], values)
  {
    hide TrimSpace;
    out := [];
    for i := 0 to |values|
      invariant Dedupe([], values) == Dedupe(out, values[i..])
    {
      assert values[i..][0] == values[i] && values[i..][1..] == values[i + 1..];
      var v := TrimSpace(values[i]);
      if v != [] && v !in out {
        out := out + [v];
      }
    }
  }

  const META: Text := "\\.+*?()|[]{}^$"

  /** regexp.QuoteMeta: a backslash before every metacharacter. */
  function QuoteMeta(v: Text): (r: Text) {
    if v == [] then []
    else (if v[0] in META then ['\\', v[0]] else [v[0]]) + QuoteMeta(v[1..])
  }

  /** Alternation: the escaped values separated by |. */
  function Alternated(values: seq<Text>): (r: Text) {
    if values == [] then []
    else if |values| == 1 then QuoteMeta(values[0])
    else QuoteMeta(values[0]) + ['|'] + Alternated(values[1..])
  }

  method AlternationText(values: seq<Text>) returns (r: Text)
    ensures r == Alternated(values)
  {
    hide QuoteMeta;
    var escaped := new Text[|values|];
    for i := 0 to |values|
      invariant forall k :: 0 <= k < i ==> escaped[k] == QuoteMeta(values[k])
    {
      escaped[i] := QuoteMeta(values[i]);
    }
    r := Join(escaped[..], "|");
    JoinEscaped(values, escaped[..]);
  }

  lemma {:induction false} JoinEscaped(values: seq<Text>, parts: seq<Text>)
    requires |parts| == |values| && forall i :: 0 <= i < |values| ==> parts[i] == QuoteMeta(values[i])
    ensures Join(parts, "|") == Alternated(values)
  {
    hide QuoteMeta;
    if |values| > 1 {
      JoinEscaped(values[1..], parts[1..]);
    }
  }

  /** The matcher OneOf adds for the values left after dedupe. */
  function OneOfMatcher(name: Text, words: seq<Text>): Matcher
    requires words != []
  {
    if |words| == 1 then Matcher(name, Equal, words[0]) else Matcher(name, Regexp, Alternated(words))
  }

  function NoneOfMatcher(name: Text, words: seq<Text>): Matcher
    requires words != []
  {
    if |words| == 1 then Matcher(name, NotEqual, words[0]) else Matcher(name, NotRegexp, Alternated(words))
  }

  function WithOneOf(s: Selector, name: Text, values: seq<Text>): Selector {
    var words := Dedupe([], values);
    if words == [] then s else s.(matchers := s.matchers + [OneOfMatcher(name, words)])
  }

  function WithNoneOf(s: Selector, name: Text, values: seq<Text>): Selector {
    var words := Dedupe([], values);
    if words == [] then s else s.(matchers := s.matchers + [NoneOfMatcher(name, words)])
  }

  /** The builder: methods append to the selector's fields. */
  class Builder {
    var matchers: seq<Matcher>
    var filters: seq<LineFilter>

    constructor ()
      ensures Built() == Selector([], [])
    {
      matchers, filters := [], [];
    }

    ghost function Built(): Selector
      reads this
    {
      Selector(matchers, filters)
    }

    method Add(name: Text, op: MatchOp, value: Text)
      modifies this
      ensures matchers == old(matchers) + [Matcher(name, op, value)] && filters == old(filters)
    {
      matchers := matchers + [Matcher(name, op, value)];
    }

    method OneOf(name: Text, values: seq<Text>)
      modifies this
      ensures Built() == WithOneOf(old(Built()), name, values)
    {
      var words := DedupeValues(values);
      if |words| == 1 {
        Add(name, Equal, words[0]);
      } else if |words| > 1 {
        var pattern := AlternationText(words);
        Add(name, Regexp, pattern);
      }
    }

    method NoneOf(name: Text, values: seq<Text>)
      modifies this
      ensures Built() == WithNoneOf(old(Built()), name, values)
    {
      var words := DedupeValues(values);
      if |words| == 1 {
        Add(name, NotEqual, words[0]);
      } else if |words| > 1 {
        var pattern := AlternationText(words);
        Add(name, NotRegexp, pattern);
      }
    }
  }

  // ---- What an alternation of literals means -------------------------------------------------------

  /** `c` put in front of the first word. */
  function OnFirst(c: Byte, words: Option<seq<Text>>): Option<seq<Text>> {
    if words.None? || words.value == [] then None
    else Some([[c] + words.value[0]] + words.value[1..])
  }

  /** The characters that mean something in a regular expression. */
  predicate Special(c: Byte) {
    || c == '\\' || c == '.' || c == '+' || c == '*' || c == '?' || c == '(' || c == ')' || c == '|'
    || c == '[' || c == ']' || c == '{' || c == '}' || c == '^' || c == '$'
  }

  /**
   The words of a pattern made of literals, escaped metacharacters and | alone; None for a pattern
   outside that language.
   */
  function Words(p: Text): (r: Option<seq<Text>>)
    ensures r.Some? ==> r.value != []
    decreases |p|
  {
    if p == [] then Some([[]])
    else if p[0] == '|' then
      var rest := Words(p[1..]);
      if rest.None? then None else Some([[]] + rest.value)
    else if p[0] == '\\' then
      if |p| >= 2 && Special(p[1]) then OnFirst(p[1], Words(p[2..])) else None
    else if Special(p[0]) then None
    else OnFirst(p[0], Words(p[1..]))
  }

  /**
   What is asked of the regexp engine: it compiles no pattern that is not UTF-8, and an anchored
   alternation of literals that is matches exactly its words among texts that are.
   */
  ghost predicate ReadsAlternations(eng: Engine) {
    && (forall p: Text :: !ValidUtf8(p) ==> !eng.compiles("^(?:" + p + ")$"))
    && (forall p: Text :: ValidUtf8(p) && Words(p).Some? ==> eng.compiles("^(?:" + p + ")$"))
    && (forall p: Text, v: Text :: ValidUtf8(p) && ValidUtf8(v) && Words(p).Some? ==>
          (eng.finds("^(?:" + p + ")$", v) <==> v in Words(p).value))
  }

  /** And unanchored, it finds one of its words anywhere. */
  ghost predicate SearchesAlternations(eng: Engine) {
    forall p: Text, v: Text :: ValidUtf8(p) && ValidUtf8(v) && Words(p).Some? ==>
      (eng.finds(p, v) <==> exists w :: w in Words(p).value && ContainsText(v, w))
  }

  /** A line filter's regexp is searched for in the line, where a label matcher's must match the whole value. */
  lemma LineRegexpSearches(eng: Engine, words: seq<Text>, line: Text)
    requires SearchesAlternations(eng) && words != [] && ValidUtf8(line) && forall w :: w in words ==> ValidUtf8(w)
    ensures LineMatches(eng, LineFilter(MatchesRegexp, Alternated(words)), line) <==>
            exists w :: w in words && ContainsText(line, w)
    ensures LineMatches(eng, LineFilter(NotMatchesRegexp, Alternated(words)), line) <==>
            forall w :: w in words ==> !ContainsText(line, w)
  {
    hide ValidUtf8, Alternated, Words, ContainsText;
    WordsOfAlternated(words);
    AlternatedValid(words);
    var p := Alternated(words);
    assert eng.finds(p, line) <==> exists w :: w in Words(p).value && ContainsText(line, w);
  }

  lemma WordsStep(c: Byte, p: Text)
    ensures c in META ==> Words(['\\', c] + p) == OnFirst(c, Words(p))
    ensures c !in META ==> Words([c] + p) == OnFirst(c, Words(p))
  {
    assert (['\\', c] + p)[2..] == p && ([c] + p)[1..] == p;
  }

  lemma {:induction false} WordsOfLiteral(v: Text, t: Text, rest: seq<Text>)
    requires t == [] || t[0] == '|'
    requires Words(t) == Some([[]] + rest)
    ensures Words(QuoteMeta(v) + t) == Some([v] + rest)
  {
    if v == [] {
      assert QuoteMeta(v) + t == t;
    } else {
      hide Words;
      WordsOfLiteral(v[1..], t, rest);
      var more := QuoteMeta(v[1..]);
      WordsStep(v[0], more + t);
      assert ([v[1..]] + rest)[0] == v[1..] && ([v[1..]] + rest)[1..] == rest;
      assert [v[0]] + v[1..] == v;
      Regroup(['\\', v[0]], more, t);
      Regroup([v[0]], more, t);
    }
  }

  /** Escaping makes every value a literal: the words of the alternation are the values. */
  lemma {:induction false} WordsOfAlternated(values: seq<Text>)
    requires values != []
    ensures Words(Alternated(values)) == Some(values)
  {
    hide QuoteMeta;
    var v, rest := values[0], values[1..];
    assert values == [v] + rest;
    if rest == [] {
      assert QuoteMeta(v) + [] == QuoteMeta(v);
      assert [[]] + rest == [[]] && [v] + rest == values;
      WordsOfLiteral(v, [], rest);
    } else {
      WordsOfAlternated(rest);
      var t := ['|'] + Alternated(rest);
      assert t[1..] == Alternated(rest);
      WordsOfLiteral(v, t, rest);
      Regroup(QuoteMeta(v), ['|'], Alternated(rest));
    }
  }

  // ---- Which alternations compile ------------------------------------------------------------------

  /** Decoding at the front of `a + t` stays inside `a` or fails when `t` begins with ASCII. */
  lemma RuneWithin(a: Text, t: Text)
    requires a != [] && t != [] && V(t[0]) < 0x80
    ensures RuneLen(a + t) == RuneLen(a)
  {
    var s := a + t;
    assert forall i :: 0 <= i < |a| ==> s[i] == a[i];
    assert s[|a|] == t[0];
  }

  /** An ASCII byte separates: the whole is UTF-8 exactly when both sides are. */
  lemma {:induction false} ValidAtAscii(a: Text, c: Byte, b: Text)
    requires V(c) < 0x80
    ensures ValidUtf8(a + ([c] + b)) <==> ValidUtf8(a) && ValidUtf8(b)
    decreases |a|
  {
    var t := [c] + b;
    if a == [] {
      assert a + t == t && RuneLen(t) == 1 && t[1..] == b;
    } else {
      RuneWithin(a, t);
      var w := RuneLen(a);
      if w > 0 {
        assert (a + t)[w..] == a[w..] + t;
        ValidAtAscii(a[w..], c, b);
      }
    }
  }

  lemma EmptyIsValid()
    ensures ValidUtf8([])
  {
  }

  lemma ValidAtEscape(a: Text, c: Byte, b: Text)
    requires V(c) < 0x80
    ensures ValidUtf8(a + (['\\', c] + b)) <==> ValidUtf8(a) && ValidUtf8(b)
  {
    hide ValidUtf8;
    ValidAtAscii(a, '\\', [c] + b);
    ValidAtAscii([], c, b);
    EmptyIsValid();
    assert [] + ([c] + b) == [c] + b;
    assert ['\\', c] + b == ['\\'] + ([c] + b);
  }

  /** Escaping keeps texts that are UTF-8 so, and makes no others so. */
  lemma {:induction false} QuoteMetaValid(a: Text, v: Text)
    ensures ValidUtf8(a + QuoteMeta(v)) <==> ValidUtf8(a + v)
    decreases |v|
  {
    if v != [] {
      hide ValidUtf8;
      var c, rest, more := v[0], v[1..], QuoteMeta(v[1..]);
      assert v == [c] + rest;
      if c in META {
        QuoteMetaValid([], rest);
        assert [] + more == more && [] + rest == rest;
        ValidAtEscape(a, c, more);
        ValidAtAscii(a, c, rest);
      } else {
        QuoteMetaValid(a + [c], rest);
        Regroup(a, [c], more);
        Regroup(a, [c], rest);
      }
    }
  }


  lemma {:induction false} AlternatedValid(values: seq<Text>)
    requires values != []
    ensures ValidUtf8(Alternated(values)) <==> forall w :: w in values ==> ValidUtf8(w)
  {
    hide QuoteMeta, ValidUtf8;
    var v, rest := values[0], values[1..];
    assert values == [v] + rest;
    QuoteMetaValid([], v);
    assert [] + QuoteMeta(v) == QuoteMeta(v) && [] + v == v;
    if rest != [] {
      AlternatedValid(rest);
      ValidAtAscii(QuoteMeta(v), '|', Alternated(rest));
      Regroup(QuoteMeta(v), ['|'], Alternated(rest));
    }
  }

  /** The values a OneOf or NoneOf names: trimmed, blanks dropped. */
  ghost predicate Names(values: seq<Text>, v: Text) {
    v != [] && exists i :: 0 <= i < |values| && TrimSpace(values[i]) == v
  }

  /** One value, or all of them UTF-8: the condition under which the server accepts the matcher. */
  ghost predicate Sendable(words: seq<Text>) {
    |words| == 1 || forall w :: w in words ==> ValidUtf8(w)
  }

  lemma AlternationMeans(eng: Engine, name: Text, words: seq<Text>, v: Text)
    requires ReadsAlternations(eng) && words != []
    ensures MatcherCompiles(eng, OneOfMatcher(name, words)) <==> Sendable(words)
    ensures MatcherCompiles(eng, NoneOfMatcher(name, words)) <==> Sendable(words)
    ensures Sendable(words) && ValidUtf8(v) ==> (Matches(eng, OneOfMatcher(name, words), v) <==> v in words)
    ensures Sendable(words) && ValidUtf8(v) ==> (Matches(eng, NoneOfMatcher(name, words), v) <==> v !in words)
  {
    hide ValidUtf8, Alternated, Words;
    WordsOfAlternated(words);
    AlternatedValid(words);
    if |words| == 1 {
      assert words == [words[0]];
    }
  }

  lemma AddedMatcherParses(eng: Engine, table: PrintTable, s: Selector, m: Matcher)
    requires AllNamed(s.matchers) && Compiles(eng, s) && IsIdent(m.name)
    ensures Parse(eng, Render(table, s.(matchers := s.matchers + [m]))) ==
            if MatcherCompiles(eng, m) then Ok(s.(matchers := s.matchers + [m])) else Err(BadRegexp)
  {
    hide Parse, Render;
    var s' := s.(matchers := s.matchers + [m]);
    assert m in s'.matchers && forall x :: x in s'.matchers <==> x in s.matchers || x == m;
    ParseRender(eng, table, s');
  }

  /**
   Through all three quotings: printing a OneOf, parsing it on the server and matching accepts
   exactly the named values. The server takes it exactly when the values can be sent.
   */
  lemma OneOfAccepts(eng: Engine, table: PrintTable, s: Selector, name: Text, values: seq<Text>, v: Text)
    requires ReadsAlternations(eng) && AllNamed(s.matchers) && Compiles(eng, s) && IsIdent(name)
    requires Dedupe([], values) != []
    ensures var s' := WithOneOf(s, name, values);
            && Parse(eng, Render(table, s')) == (if Sendable(Dedupe([], values)) then Ok(s') else Err(BadRegexp))
            && (Sendable(Dedupe([], values)) && ValidUtf8(v) ==>
                  (Matches(eng, s'.matchers[|s.matchers|], v) <==> Names(values, v)))
  {
    var words := Dedupe([], values);
    DedupeMeaning([], values);
    hide Parse, Render, Dedupe, TrimSpace, ValidUtf8, ReadsAlternations, Sendable, MatcherCompiles;
    AddedMatcherParses(eng, table, s, OneOfMatcher(name, words));
    AlternationMeans(eng, name, words, v);
  }

  lemma NoneOfAccepts(eng: Engine, table: PrintTable, s: Selector, name: Text, values: seq<Text>, v: Text)
    requires ReadsAlternations(eng) && AllNamed(s.matchers) && Compiles(eng, s) && IsIdent(name)
    requires Dedupe([], values) != []
    ensures var s' := WithNoneOf(s, name, values);
            && Parse(eng, Render(table, s')) == (if Sendable(Dedupe([], values)) then Ok(s') else Err(BadRegexp))
            && (Sendable(Dedupe([], values)) && ValidUtf8(v) ==>
                  (Matches(eng, s'.matchers[|s.matchers|], v) <==> !Names(values, v)))
  {
    var words := Dedupe([], values);
    DedupeMeaning([], values);
    hide Parse, Render, Dedupe, TrimSpace, ValidUtf8, ReadsAlternations, Sendable, MatcherCompiles;
    AddedMatcherParses(eng, table, s, NoneOfMatcher(name, words));
    AlternationMeans(eng, name, words, v);
  }

  /** A value with the byte 0xFF inside, beside another: a OneOf of the two is refused, whatever else is selected. */
  lemma NotUtf8IsRefused(eng: Engine, table: PrintTable, s: Selector, name: Text)
    requires ReadsAlternations(eng) && AllNamed(s.matchers) && Compiles(eng, s) && IsIdent(name)
    ensures Parse(eng, Render(table, WithOneOf(s, name, [['a', B(0xFF), 'b'], "a"]))) == Err(BadRegexp)
  {
    var bad: Text, good: Text := ['a', B(0xFF), 'b'], "a";
    var values := [bad, good];
    TrimTight(bad);
    TrimTight(good);
    assert values[1..] == [good] && [good][1..] == [];
    assert Dedupe([bad], [good]) == Dedupe([bad] + [good], []) == [bad, good];
    assert Dedupe([], values) == Dedupe([] + [bad], [good]) == [bad, good];
    assert !ValidUtf8(bad) && bad in [bad, good] by {
      assert RuneLen(bad) == 1 && RuneLen(bad[1..]) == 0;
    }
    hide Parse, Render, ReadsAlternations, Dedupe, ValidUtf8, Compiles, AllNamed;
    OneOfAccepts(eng, table, s, name, values, []);
  }
}
