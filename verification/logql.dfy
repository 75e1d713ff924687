/** The LogQL subset: its parsed form, and the server's parser for it. */
module Logql {
  import opened Texts
  import opened Spaces
  import Quoting

  datatype MatchOp = Equal | NotEqual | Regexp | NotRegexp

  datatype LineOp = Contains | NotContains | MatchesRegexp | NotMatchesRegexp

  datatype Matcher = Matcher(name: Text, op: MatchOp, value: Text)

  datatype LineFilter = LineFilter(op: LineOp, value: Text)

  /** One stream selector with its line filters, as built by the CLI and as parsed by the server. */
  datatype Selector = Selector(matchers: seq<Matcher>, filters: seq<LineFilter>)

  /** The regular-expression engine: which patterns compile, and what they match anywhere in a text. */
  datatype Engine = Engine(compiles: Text -> bool, finds: (Text, Text) -> bool)

  /** The pattern compiled for a label matcher: anchored at both ends. */
  function Anchored(pattern: Text): Text {
    "^(?:" + pattern + ")$"
  }

  predicate IsRegexp(op: MatchOp) {
    op == Regexp || op == NotRegexp
  }

  predicate IsLineRegexp(op: LineOp) {
    op == MatchesRegexp || op == NotMatchesRegexp
  }

  predicate MatcherCompiles(eng: Engine, m: Matcher) {
    IsRegexp(m.op) ==> eng.compiles(Anchored(m.value))
  }

  predicate FilterCompiles(eng: Engine, f: LineFilter) {
    IsLineRegexp(f.op) ==> eng.compiles(f.value)
  }

  predicate ContainsText(line: Text, part: Text) {
    exists i :: 0 <= i <= |line| && part <= line[i..]
  }

  /** LabelMatcher.Matches. */
  predicate Matches(eng: Engine, m: Matcher, value: Text) {
    match m.op
    case Equal => value == m.value
    case NotEqual => value != m.value
    case Regexp => eng.finds(Anchored(m.value), value)
    case NotRegexp => !eng.finds(Anchored(m.value), value)
  }

  /** LineFilter.Matches. */
  predicate LineMatches(eng: Engine, f: LineFilter, line: Text) {
    match f.op
    case Contains => ContainsText(line, f.value)
    case NotContains => !ContainsText(line, f.value)
    case MatchesRegexp => eng.finds(f.value, line)
    case NotMatchesRegexp => !eng.finds(f.value, line)
  }

  /** A text filter takes the lines its text stands in, or the others. */
  lemma ContainsIff(eng: Engine, line: Text, part: Text)
    ensures LineMatches(eng, LineFilter(Contains, part), line) <==> exists a: Text, b: Text :: line == a + part + b
    ensures LineMatches(eng, LineFilter(NotContains, part), line) <==> forall a: Text, b: Text :: line != a + part + b
  {
    if i :| 0 <= i <= |line| && part <= line[i..] {
      assert line == line[..i] + part + line[i + |part|..];
    }
    if a: Text, b: Text :| line == a + part + b {
      assert line[|a|..] == part + b;
    }
  }

  datatype ParseError =
    | EmptyQuery | NotASelector | UnterminatedString | UnclosedSelector | NoMatcher
    | BadLabel | BadOperator | BadLiteral | BadRegexp | TrailingText
    | RangeVector | UnsupportedStage | BadFilter

  datatype Result<+T> = Ok(value: T) | Err(error: ParseError) {
    predicate IsFailure() {
      Err?
    }

    function PropagateFailure<U>(): Result<U>
      requires Err?
    {
      Err(error)
    }

    function Extract(): T
      requires Ok?
    {
      value
    }
  }

  /** A scanned item and the text after it. */
  datatype Scanned<+T> = Scanned(item: T, rest: Text)

  predicate HasPrefix(s: Text, p: Text) {
    p <= s
  }

  // ---- Scanners --------------------------------------------------------------------------------

  predicate IdentStart(c: Byte) {
    c == '_' || 'a' <= c <= 'z' || 'A' <= c <= 'Z'
  }

  predicate IdentPart(c: Byte) {
    IdentStart(c) || '0' <= c <= '9'
  }

  predicate IsIdent(s: Text) {
    s != [] && IdentStart(s[0]) && forall i :: 0 <= i < |s| ==> IdentPart(s[i])
  }

  /** How many of the leading bytes of `s` continue an identifier. */
  function PartLen(s: Text): (n: nat)
    ensures n <= |s| && (forall i :: 0 <= i < n ==> IdentPart(s[i])) && (n < |s| ==> !IdentPart(s[n]))
  {
    if s == [] || !IdentPart(s[0]) then 0 else 1 + PartLen(s[1..])
  }

  function ScanIdent(s: Text): (r: Result<Scanned<Text>>)
    ensures r.Ok? ==> IsIdent(r.value.item) && s == r.value.item + r.value.rest
    ensures r.Err? <==> s == [] || !IdentStart(s[0])
  {
    if s == [] || !IdentStart(s[0]) then Err(BadLabel)
    else Ok(Scanned(s[..PartLen(s)], s[PartLen(s)..]))
  }

  function MatchOpText(op: MatchOp): (t: Text)
    ensures t != []
  {
    match op
    case Equal => "="
    case NotEqual => "!="
    case Regexp => "=~"
    case NotRegexp => "!~"
  }

  function LineOpText(op: LineOp): (t: Text)
    ensures |t| == 2
  {
    match op
    case Contains => "|="
    case NotContains => "!="
    case MatchesRegexp => "|~"
    case NotMatchesRegexp => "!~"
  }

  /** Longer operators are tried first, so =~ is not read as =. */
  function ScanMatchOp(s: Text): (r: Result<Scanned<MatchOp>>)
    ensures r.Ok? ==> s == MatchOpText(r.value.item) + r.value.rest
  {
    if HasPrefix(s, "=~") then Ok(Scanned(Regexp, s[2..]))
    else if HasPrefix(s, "!~") then Ok(Scanned(NotRegexp, s[2..]))
    else if HasPrefix(s, "!=") then Ok(Scanned(NotEqual, s[2..]))
    else if HasPrefix(s, "=") then Ok(Scanned(Equal, s[1..]))
    else Err(BadOperator)
  }

  function ScanFilterOp(s: Text): (r: Result<Scanned<LineOp>>)
    ensures r.Ok? ==> s == LineOpText(r.value.item) + r.value.rest
  {
    if HasPrefix(s, "|=") then Ok(Scanned(Contains, s[2..]))
    else if HasPrefix(s, "|~") then Ok(Scanned(MatchesRegexp, s[2..]))
    else if HasPrefix(s, "!=") then Ok(Scanned(NotContains, s[2..]))
    else if HasPrefix(s, "!~") then Ok(Scanned(NotMatchesRegexp, s[2..]))
    else Err(BadFilter)
  }

  function ScanString(s: Text): (r: Result<Scanned<Text>>)
    ensures r.Ok? ==> |r.value.rest| < |s|
  {
    match Quoting.ScanLiteral(s)
    case None => Err(BadLiteral)
    case Some(u) => Ok(Scanned(u.bytes, u.rest))
  }

  // ---- The selector's closing brace --------------------------------------------------------------

  /** How far `s`, read from inside or outside a string, is from the closing brace. */
  function BraceAfter(s: Text, inQuote: bool): (r: Result<nat>)
    ensures r.Ok? ==> r.value < |s| && s[r.value] == '}'
    decreases |s|
  {
    if s == [] then Err(if inQuote then UnterminatedString else UnclosedSelector)
    else if inQuote && s[0] == '\\' then
      if |s| == 1 then Err(UnterminatedString) else Plus(2, BraceAfter(s[2..], true))
    else if s[0] == '"' then Plus(1, BraceAfter(s[1..], !inQuote))
    else if s[0] == '}' && !inQuote then Ok(0)
    else Plus(1, BraceAfter(s[1..], inQuote))
  }

  function Plus(k: nat, r: Result<nat>): Result<nat> {
    match r
    case Ok(n) => Ok(n + k)
    case Err(e) => Err(e)
  }

  /** The index in `s` of the brace that closes the selector opened at index 0. */
  function ClosingBrace(s: Text): (r: Result<nat>)
    requires s != []
    ensures r.Ok? ==> 0 < r.value < |s| && s[r.value] == '}'
  {
    Plus(1, BraceAfter(s[1..], false))
  }

  // ---- Matchers and filters ----------------------------------------------------------------------

  /** One `label op "value"` at the front of `rest`. */
  function ScanMatcher(eng: Engine, rest: Text): (r: Result<Scanned<Matcher>>)
    ensures r.Ok? ==> |r.value.rest| < |rest| && IsIdent(r.value.item.name) && MatcherCompiles(eng, r.value.item)
  {
    var ident :- ScanIdent(rest);
    var op :- ScanMatchOp(TrimSpace(ident.rest));
    var value :- ScanString(TrimSpace(op.rest));
    var m := Matcher(ident.item, op.item, value.item);
    if !MatcherCompiles(eng, m) then Err(BadRegexp) else Ok(Scanned(m, value.rest))
  }

  function ParseMatchers(eng: Engine, rest: Text): (r: Result<seq<Matcher>>)
    decreases |rest|
  {
    if rest == [] then Ok([])
    else
      var m :- ScanMatcher(eng, rest);
      var more := TrimSpace(m.rest);
      if HasPrefix(more, ",") then
        var ms :- ParseMatchers(eng, TrimSpace(more[1..]));
        Ok([m.item] + ms)
      else if more != [] then Err(TrailingText)
      else Ok([m.item])
  }

  const UNSUPPORTED: seq<Text> :=
    ["json", "logfmt", "pattern", "regexp", "unpack",
     "line_format", "label_format", "unwrap", "drop", "keep", "decolorize"]

  predicate StageNamed(tail: Text, name: Text) {
    tail == name || HasPrefix(tail, name + " ") || HasPrefix(tail, name + "=")
  }

  function RejectUnsupported(rest: Text): (r: Option<ParseError>) {
    if HasPrefix(rest, "[") then Some(RangeVector)
    else if !HasPrefix(rest, "|") then None
    else
      var tail := TrimSpace(rest[1..]);
      if exists i :: 0 <= i < |UNSUPPORTED| && StageNamed(tail, UNSUPPORTED[i]) then Some(UnsupportedStage) else None
  }

  function ScanFilter(eng: Engine, rest: Text): (r: Result<Scanned<LineFilter>>)
    ensures r.Ok? ==> |r.value.rest| < |rest| && FilterCompiles(eng, r.value.item)
  {
    if RejectUnsupported(rest).Some? then Err(RejectUnsupported(rest).value)
    else
      var op :- ScanFilterOp(rest);
      var value :- ScanString(TrimSpace(op.rest));
      var f := LineFilter(op.item, value.item);
      if !FilterCompiles(eng, f) then Err(BadRegexp) else Ok(Scanned(f, value.rest))
  }

  function ParseFilters(eng: Engine, rest: Text): (r: Result<seq<LineFilter>>)
    decreases |rest|
  {
    if rest == [] then Ok([])
    else
      var f :- ScanFilter(eng, rest);
      var fs :- ParseFilters(eng, TrimSpace(f.rest));
      Ok([f.item] + fs)
  }

  function ParseTrimmed(eng: Engine, s: Text): (r: Result<Selector>) {
    if s == [] then Err(EmptyQuery)
    else if s[0] != '{' then Err(NotASelector)
    else
      var end :- ClosingBrace(s);
      var matchers :- ParseMatchers(eng, TrimSpace(s[1..end]));
      if matchers == [] then Err(NoMatcher)
      else
        var filters :- ParseFilters(eng, TrimSpace(s[end + 1..]));
        Ok(Selector(matchers, filters))
  }

  function Parse(eng: Engine, raw: Text): (r: Result<Selector>) {
    ParseTrimmed(eng, TrimSpace(raw))
  }

  function Prepend<T>(out: seq<T>, r: Result<seq<T>>): (p: Result<seq<T>>)
    ensures out == [] ==> p == r
    ensures r == Ok([]) ==> p == Ok(out)
  {
    match r
    case Ok(more) =>
      assert out == [] ==> out + more == more;
      assert out + [] == out;
      Ok(out + more)
    case Err(e) => Err(e)
  }

  lemma PrependMore<T>(out: seq<T>, x: T, r: Result<seq<T>>)
    ensures Prepend(out, Prepend([x], r)) == Prepend(out + [x], r)
  {
    if r.Ok? {
      Regroup(out, [x], r.value);
    }
  }

  // ---- The loops ---------------------------------------------------------------------------------

  /** One step of the scan, by index. */
  lemma BraceAt(s: Text, i: nat, inQuote: bool)
    requires i < |s|
    ensures BraceAfter(s[i..], inQuote) ==
            if inQuote && s[i] == '\\' then
              (if i + 1 == |s| then Err(UnterminatedString) else Plus(2, BraceAfter(s[i + 2..], true)))
            else if s[i] == '"' then Plus(1, BraceAfter(s[i + 1..], !inQuote))
            else if s[i] == '}' && !inQuote then Ok(0)
            else Plus(1, BraceAfter(s[i + 1..], inQuote))
  {
    assert s[i..][0] == s[i] && s[i..][1..] == s[i + 1..];
    assert i + 1 < |s| ==> s[i..][2..] == s[i + 2..];
  }

  lemma BraceAtEnd(inQuote: bool)
    ensures BraceAfter([], inQuote) == Err(if inQuote then UnterminatedString else UnclosedSelector)
  {
  }

  method FindClosingBrace(s: Text) returns (r: Result<nat>)
    requires s != []
    ensures r == ClosingBrace(s)
  {
    hide BraceAfter;
    var inQuote := false;
    var i := 1;
    while i < |s|
      invariant 1 <= i <= |s| + 1
      invariant i <= |s| ==> ClosingBrace(s) == Plus(i, BraceAfter(s[i..], inQuote))
      invariant i == |s| + 1 ==> inQuote && ClosingBrace(s) == Err(UnterminatedString)
    {
      BraceAt(s, i, inQuote);
      if inQuote && s[i] == '\\' {
        i := i + 1;
      } else if s[i] == '"' {
        inQuote := !inQuote;
      } else if s[i] == '}' && !inQuote {
        return Ok(i);
      }
      i := i + 1;
    }
    BraceAtEnd(inQuote);
    assert i <= |s| ==> s[i..] == [];
    return Err(if inQuote then UnterminatedString else UnclosedSelector);
  }

  method ScanIdentifier(s: Text) returns (r: Result<Scanned<Text>>)
    ensures r == ScanIdent(s)
  {
    var i := 0;
    while i < |s| && (IdentStart(s[i]) || (i > 0 && '0' <= s[i] <= '9'))
      invariant 0 <= i <= |s|
      invariant i > 0 ==> IdentStart(s[0]) && PartLen(s) == i + PartLen(s[i..])
    {
      assert s[i..][0] == s[i] && s[i..][1..] == s[i + 1..];
      i := i + 1;
    }
    if i == 0 {
      return Err(BadLabel);
    }
    assert PartLen(s[i..]) == 0;
    return Ok(Scanned(s[..i], s[i..]));
  }

  method ReadMatchers(eng: Engine, body: Text) returns (r: Result<seq<Matcher>>)
    ensures r == ParseMatchers(eng, TrimSpace(body))
  {
    hide TrimSpace;
    var out: seq<Matcher> := [];
    var rest := TrimSpace(body);
    while rest != []
      invariant ParseMatchers(eng, TrimSpace(body)) == Prepend(out, ParseMatchers(eng, rest))
      decreases |rest|
    {
      var ident := ScanIdentifier(rest);
      if ident.Err? { return Err(ident.error); }
      var op := ScanMatchOp(TrimSpace(ident.value.rest));
      if op.Err? { return Err(op.error); }
      var value := ScanString(TrimSpace(op.value.rest));
      if value.Err? { return Err(value.error); }
      var m := Matcher(ident.value.item, op.value.item, value.value.item);
      if !MatcherCompiles(eng, m) { return Err(BadRegexp); }
      ghost var before := out;
      out := out + [m];
      rest := TrimSpace(value.value.rest);
      PrependMore(before, m, ParseMatchers(eng, if HasPrefix(rest, ",") then TrimSpace(rest[1..]) else []));
      if HasPrefix(rest, ",") {
        rest := TrimSpace(rest[1..]);
      } else if rest != [] {
        return Err(TrailingText);
      }
    }
    return Ok(out);
  }

  method ReadFilters(eng: Engine, text: Text) returns (r: Result<seq<LineFilter>>)
    ensures r == ParseFilters(eng, text)
  {
    hide TrimSpace, RejectUnsupported;
    var out: seq<LineFilter> := [];
    var rest := text;
    while rest != []
      invariant ParseFilters(eng, text) == Prepend(out, ParseFilters(eng, rest))
      decreases |rest|
    {
      var reject := RejectUnsupported(rest);
      if reject.Some? { return Err(reject.value); }
      var op := ScanFilterOp(rest);
      if op.Err? { return Err(op.error); }
      var value := ScanString(TrimSpace(op.value.rest));
      if value.Err? { return Err(value.error); }
      var f := LineFilter(op.value.item, value.value.item);
      if !FilterCompiles(eng, f) { return Err(BadRegexp); }
      PrependMore(out, f, ParseFilters(eng, TrimSpace(value.value.rest)));
      out := out + [f];
      rest := TrimSpace(value.value.rest);
    }
    return Ok(out);
  }

  method ParseQuery(eng: Engine, raw: Text) returns (r: Result<Selector>)
    ensures r == Parse(eng, raw)
  {
    hide TrimSpace, ParseMatchers, ParseFilters;
    var s := TrimSpace(raw);
    if s == [] {
      return Err(EmptyQuery);
    }
    if s[0] != '{' {
      return Err(NotASelector);
    }
    var end :- FindClosingBrace(s);
    var matchers :- ReadMatchers(eng, s[1..end]);
    if |matchers| == 0 {
      return Err(NoMatcher);
    }
    var filters :- ReadFilters(eng, TrimSpace(s[end + 1..]));
    return Ok(Selector(matchers, filters));
  }
}
