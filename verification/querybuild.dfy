/** Compiling parsed LogQL to SQL, and the proof that the SQL means what the LogQL does. */
module QueryBuild {
  import opened Texts
  import opened Logql
  import opened Sql

  // ---- Labels to columns -------------------------------------------------------------------------------

  function Sanitize(key: Text): (r: Text)
    ensures |r| == |key|
  {
    if key == [] then [] else [if key[0] == '.' then '_' else key[0]] + Sanitize(key[1..])
  }

  datatype Target = AsColumn(column: Column) | AsAttribute(key: Text)

  lemma {:induction false} SanitizeIdent(name: Text)
    requires forall i :: 0 <= i < |name| ==> IdentPart(name[i])
    ensures Sanitize(name) == name
  {
    if name != [] {
      SanitizeIdent(name[1..]);
      assert name == [name[0]] + name[1..];
    }
  }

  function Resolve(name: Text): Target {
    if name == "service_name" then AsColumn(ServiceName)
    else if name == "severity" then AsColumn(SeverityText)
    else if name == "trace_id" then AsColumn(TraceId)
    else AsAttribute(Sanitize(name))
  }

  /** The value a label has on a row, absent meaning empty. */
  function LabelValue(row: LogRow, name: Text): Text {
    match Resolve(name)
    case AsColumn(c) => ColumnText(row, c)
    case AsAttribute(k) => Lookup(row.labels, k)
  }

  // ---- Time bounds -------------------------------------------------------------------------------------

  const NANOS: int := 1_000_000_000
  const MIN_TIMESTAMP: int := -2_208_988_800 * NANOS
  const MAX_TIMESTAMP: int := 9_223_372_036 * NANOS

  function UnixNano(t: int): (n: int)
    ensures -2_208_988_800_000_000_000 <= n <= 9_223_372_036_000_000_000
  {
    if t < MIN_TIMESTAMP then MIN_TIMESTAMP else if t > MAX_TIMESTAMP then MAX_TIMESTAMP else t
  }

  /**
   Clamping the bounds to the storable range changes which rows a window holds only for a row at the
   very end of that range, when the window reaches past it.
   */
  lemma ClampAgreesIff(ns: int, start: int, end: int)
    requires -2_208_988_800_000_000_000 <= ns <= 9_223_372_036_000_000_000
    ensures (UnixNano(start) <= ns < UnixNano(end) <==> start <= ns < end)
            <==> !(ns == 9_223_372_036_000_000_000 && start <= ns < end)
  {
  }

  /** The row at the last instant is inside a window that reaches past it, but not inside the clamped one. */
  lemma ClampLosesLastInstant()
    ensures 0 <= MAX_TIMESTAMP < MAX_TIMESTAMP + 1
    ensures !(UnixNano(0) <= MAX_TIMESTAMP < UnixNano(MAX_TIMESTAMP + 1))
  {
  }

  // ---- Fragments ---------------------------------------------------------------------------------------

  datatype LogQuery = LogQuery(
    matchers: seq<Matcher>, filters: seq<LineFilter>, start: int, end: int, limit: int, newestFirst: bool)

  const IN_PROJECT: seq<Token> := [Col(ProjectId), Eq, Hole]
  const NOT_BEFORE: seq<Token> := [Col(ObservedTimestamp), Ge, FromUnixNano, Open, Hole, Close]
  const BEFORE: seq<Token> := [Col(ObservedTimestamp), Lt, FromUnixNano, Open, Hole, Close]
  const BODY_HAS: seq<Token> := [Position, Open, Col(Body), Comma, Hole, Close, Gt, Zero]
  const BODY_LACKS: seq<Token> := [Position, Open, Col(Body), Comma, Hole, Close, Eq, Zero]

  const LOGS_SELECT: seq<Token> :=
    [Select, Col(ObservedTimestamp), Comma, Col(Body), Comma, Col(ServiceName), Comma, Col(SeverityText), Comma,
     Col(TraceId), Comma, MapKeys, Open, Col(Labels), Close, Comma, MapValues, Open, Col(Labels), Close,
     FromLogs, Where]

  function ProjectRange(project: Text, start: int, end: int): Stmt {
    Stmt(IN_PROJECT + ([And] + (NOT_BEFORE + ([And] + BEFORE))),
         [Str(project), Int(UnixNano(start)), Int(UnixNano(end))])
  }

  function LabelExpr(name: Text): Stmt {
    match Resolve(name)
    case AsColumn(c) => Stmt([Col(c)], [])
    case AsAttribute(k) => Stmt([Col(Labels), OpenBracket, Hole, CloseBracket], [Str(k)])
  }

  function MatcherFragment(m: Matcher): Stmt {
    var e := LabelExpr(m.name);
    match m.op
    case Equal => Stmt(e.tokens + [Eq, Hole], e.args + [Str(m.value)])
    case NotEqual => Stmt([Open] + (e.tokens + [Ne, Hole, Close]), e.args + [Str(m.value)])
    case Regexp => Stmt([Match, Open] + (e.tokens + [Comma, Hole, Close]), e.args + [Str(Anchored(m.value))])
    case NotRegexp => Stmt([Not, Match, Open] + (e.tokens + [Comma, Hole, Close]), e.args + [Str(Anchored(m.value))])
  }

  function FilterFragment(f: LineFilter): Stmt {
    match f.op
    case Contains => Stmt(BODY_HAS, [Str(f.value)])
    case NotContains => Stmt(BODY_LACKS, [Str(f.value)])
    case MatchesRegexp => Stmt([Match, Open, Col(Body), Comma, Hole, Close], [Str(f.value)])
    case NotMatchesRegexp => Stmt([Not, Match, Open, Col(Body), Comma, Hole, Close], [Str(f.value)])
  }

  function Append(s: Stmt, t: Stmt): Stmt {
    Stmt(s.tokens + t.tokens, s.args + t.args)
  }

  /** " AND " and one more condition. */
  function Anded(t: Stmt): Stmt {
    Stmt([And] + t.tokens, t.args)
  }

  function MatchersWhere(ms: seq<Matcher>): Stmt {
    if ms == [] then Stmt([], []) else Append(Anded(MatcherFragment(ms[0])), MatchersWhere(ms[1..]))
  }

  function FiltersWhere(fs: seq<LineFilter>): Stmt {
    if fs == [] then Stmt([], []) else Append(Anded(FilterFragment(fs[0])), FiltersWhere(fs[1..]))
  }

  function OrderTokens(newestFirst: bool): seq<Token> {
    [OrderBy, Col(ObservedTimestamp), if newestFirst then Desc else Asc, Limit, Hole]
  }

  /** buildLogsQuery; None is ErrInvalidLimit. */
  function LogsQuery(project: Text, q: LogQuery): (r: Option<Stmt>) {
    if q.limit <= 0 then None
    else
      var where := Append(ProjectRange(project, q.start, q.end),
                          Append(MatchersWhere(q.matchers), FiltersWhere(q.filters)));
      Some(Stmt(LOGS_SELECT + (where.tokens + OrderTokens(q.newestFirst)), where.args + [Int(q.limit)]))
  }

  method BuildLogsQuery(project: Text, q: LogQuery) returns (r: Option<Stmt>)
    ensures r == LogsQuery(project, q)
    ensures r.None? <==> q.limit <= 0
  {
    hide MatcherFragment, FilterFragment, ProjectRange;
    if q.limit <= 0 {
      return None;
    }
    var range := ProjectRange(project, q.start, q.end);
    var tokens, args := range.tokens, range.args;
    for i := 0 to |q.matchers|
      invariant Append(Stmt(tokens, args), MatchersWhere(q.matchers[i..])) == Append(range, MatchersWhere(q.matchers))
    {
      var cond := MatcherFragment(q.matchers[i]);
      assert q.matchers[i..][0] == q.matchers[i] && q.matchers[i..][1..] == q.matchers[i + 1..];
      AppendAnded(Stmt(tokens, args), cond, MatchersWhere(q.matchers[i + 1..]));
      tokens := tokens + ([And] + cond.tokens);
      args := args + cond.args;
    }
    AppendNothing(Stmt(tokens, args));
    var base := Stmt(tokens, args);
    for i := 0 to |q.filters|
      invariant Append(Stmt(tokens, args), FiltersWhere(q.filters[i..])) == Append(base, FiltersWhere(q.filters))
    {
      var cond := FilterFragment(q.filters[i]);
      assert q.filters[i..][0] == q.filters[i] && q.filters[i..][1..] == q.filters[i + 1..];
      AppendAnded(Stmt(tokens, args), cond, FiltersWhere(q.filters[i + 1..]));
      tokens := tokens + ([And] + cond.tokens);
      args := args + cond.args;
    }
    AppendNothing(Stmt(tokens, args));
    AppendAssoc(range, MatchersWhere(q.matchers), FiltersWhere(q.filters));
    r := Some(Stmt(LOGS_SELECT + (tokens + OrderTokens(q.newestFirst)), args + [Int(q.limit)]));
  }

  lemma AppendNothing(s: Stmt)
    ensures Append(s, Stmt([], [])) == s
  {
    assert s.tokens + [] == s.tokens && s.args + [] == s.args;
  }

  lemma AppendAnded(s: Stmt, c: Stmt, t: Stmt)
    ensures Append(s, Append(Anded(c), t)) == Append(Stmt(s.tokens + ([And] + c.tokens), s.args + c.args), t)
  {
    Regroup(s.tokens, [And] + c.tokens, t.tokens);
    Regroup(s.args, c.args, t.args);
  }

  lemma AppendAssoc(s: Stmt, t: Stmt, u: Stmt)
    ensures Append(Append(s, t), u) == Append(s, Append(t, u))
  {
    Regroup(s.tokens, t.tokens, u.tokens);
    Regroup(s.args, t.args, u.args);
  }

  // ---- The fragments read back as the conditions they stand for ------------------------------------------

  function ExprOf(name: Text): Expr {
    match Resolve(name)
    case AsColumn(c) => ColumnOf(c)
    case AsAttribute(k) => LabelAt(k)
  }

  function MatcherCond(m: Matcher): Cond {
    match m.op
    case Equal => Equals(ExprOf(m.name), m.value)
    case NotEqual => Differs(ExprOf(m.name), m.value)
    case Regexp => Finds(ExprOf(m.name), Anchored(m.value))
    case NotRegexp => FindsNot(ExprOf(m.name), Anchored(m.value))
  }

  function FilterCond(f: LineFilter): Cond {
    match f.op
    case Contains => BodyHas(f.value)
    case NotContains => BodyLacks(f.value)
    case MatchesRegexp => Finds(ColumnOf(Body), f.value)
    case NotMatchesRegexp => FindsNot(ColumnOf(Body), f.value)
  }

  lemma ReadLabelExpr(name: Text, t: Stmt)
    ensures ReadExpr(Append(LabelExpr(name), t)) == Some(Read(ExprOf(name), t))
  {
    var s := Append(LabelExpr(name), t);
    match Resolve(name)
    case AsColumn(c) =>
      assert s.tokens[0] == Col(c) && s.tokens[1..] == t.tokens && s.args == t.args;
    case AsAttribute(k) =>
      assert s.tokens[4..] == t.tokens && s.args[0] == Str(k) && s.args[1..] == t.args;
  }

  /** `lead`, the label's expression and `tail` with one hole read as the condition built from them. */
  lemma ReadBinaryFragment(name: Text, tail: seq<Token>, v: Text, t: Stmt, make: (Expr, Text) -> Cond)
    ensures var e := LabelExpr(name);
            ReadBinary(Append(Stmt(e.tokens + tail, e.args + [Str(v)]), t), tail, make) ==
            Some(Read(make(ExprOf(name), v), t))
  {
    hide LabelExpr, ReadExpr;
    var e := LabelExpr(name);
    var rest := Stmt(tail + t.tokens, [Str(v)] + t.args);
    Regroup(e.tokens, tail, t.tokens);
    Regroup(e.args, [Str(v)], t.args);
    ReadLabelExpr(name, rest);
    assert rest.tokens[|tail|..] == t.tokens && rest.args[1..] == t.args;
  }

  lemma ReadEqual(name: Text, v: Text, t: Stmt)
    ensures ReadCond(Append(MatcherFragment(Matcher(name, Equal, v)), t)) == Some(Read(Equals(ExprOf(name), v), t))
  {
    hide ReadBinary;
    var e, s := LabelExpr(name), Append(MatcherFragment(Matcher(name, Equal, v)), t);
    ReadBinaryFragment(name, [Eq, Hole], v, t, (e, v) => Equals(e, v));
    assert s.tokens[0] == e.tokens[0];
  }

  lemma ReadDiffers(name: Text, v: Text, t: Stmt)
    ensures ReadCond(Append(MatcherFragment(Matcher(name, NotEqual, v)), t)) == Some(Read(Differs(ExprOf(name), v), t))
  {
    hide ReadBinary, LabelExpr, ExprOf;
    var e, s := LabelExpr(name), Append(MatcherFragment(Matcher(name, NotEqual, v)), t);
    ReadBinaryFragment(name, [Ne, Hole, Close], v, t, (e, v) => Differs(e, v));
    assert s.tokens[0] == Open && s.tokens[1..] == e.tokens + [Ne, Hole, Close] + t.tokens;
  }

  lemma ReadFinds(name: Text, v: Text, t: Stmt)
    ensures ReadCond(Append(MatcherFragment(Matcher(name, Regexp, v)), t)) ==
            Some(Read(Finds(ExprOf(name), Anchored(v)), t))
  {
    hide ReadBinary, LabelExpr, ExprOf, Anchored;
    var e, s := LabelExpr(name), Append(MatcherFragment(Matcher(name, Regexp, v)), t);
    ReadBinaryFragment(name, [Comma, Hole, Close], Anchored(v), t, (e, v) => Finds(e, v));
    assert s.tokens[0] == Match && s.tokens[2..] == e.tokens + [Comma, Hole, Close] + t.tokens;
  }

  lemma ReadFindsNot(name: Text, v: Text, t: Stmt)
    ensures ReadCond(Append(MatcherFragment(Matcher(name, NotRegexp, v)), t)) ==
            Some(Read(FindsNot(ExprOf(name), Anchored(v)), t))
  {
    hide ReadBinary, LabelExpr, ExprOf, Anchored;
    var e, s := LabelExpr(name), Append(MatcherFragment(Matcher(name, NotRegexp, v)), t);
    ReadBinaryFragment(name, [Comma, Hole, Close], Anchored(v), t, (e, v) => FindsNot(e, v));
    assert s.tokens[0] == Not && s.tokens[3..] == e.tokens + [Comma, Hole, Close] + t.tokens;
  }

  lemma ReadMatcher(m: Matcher, t: Stmt)
    ensures ReadCond(Append(MatcherFragment(m), t)) == Some(Read(MatcherCond(m), t))
  {
    hide ReadCond, MatcherFragment, ExprOf, Anchored;
    match m.op
    case Equal => ReadEqual(m.name, m.value, t);
    case NotEqual => ReadDiffers(m.name, m.value, t);
    case Regexp => ReadFinds(m.name, m.value, t);
    case NotRegexp => ReadFindsNot(m.name, m.value, t);
  }

  lemma ReadBodyHas(v: Text, t: Stmt)
    ensures ReadCond(Append(Stmt(BODY_HAS, [Str(v)]), t)) == Some(Read(BodyHas(v), t))
  {
    var s := Append(Stmt(BODY_HAS, [Str(v)]), t);
    assert s.args[0] == Str(v) && s.args[1..] == t.args && s.tokens[8..] == t.tokens;
  }

  lemma ReadBodyLacks(v: Text, t: Stmt)
    ensures ReadCond(Append(Stmt(BODY_LACKS, [Str(v)]), t)) == Some(Read(BodyLacks(v), t))
  {
    var s := Append(Stmt(BODY_LACKS, [Str(v)]), t);
    assert s.args[0] == Str(v) && s.args[1..] == t.args && s.tokens[8..] == t.tokens && s.tokens[6] == Eq;
  }

  lemma ReadBodyFinds(v: Text, t: Stmt)
    ensures ReadCond(Append(Stmt([Match, Open, Col(Body), Comma, Hole, Close], [Str(v)]), t)) ==
            Some(Read(Finds(ColumnOf(Body), v), t))
    ensures ReadCond(Append(Stmt([Not, Match, Open, Col(Body), Comma, Hole, Close], [Str(v)]), t)) ==
            Some(Read(FindsNot(ColumnOf(Body), v), t))
  {
    hide ReadBinary;
    var s := Append(Stmt([Match, Open, Col(Body), Comma, Hole, Close], [Str(v)]), t);
    var u := Append(Stmt([Not, Match, Open, Col(Body), Comma, Hole, Close], [Str(v)]), t);
    assert s.tokens[2..] == [Col(Body), Comma, Hole, Close] + t.tokens;
    assert u.tokens[3..] == [Col(Body), Comma, Hole, Close] + t.tokens;
    ReadBodyMatch(Drop(s, 2), t, v, (e, v) => Finds(e, v));
    ReadBodyMatch(Drop(u, 3), t, v, (e, v) => FindsNot(e, v));
  }

  lemma ReadFilter(f: LineFilter, t: Stmt)
    ensures ReadCond(Append(FilterFragment(f), t)) == Some(Read(FilterCond(f), t))
  {
    hide ReadCond, Append;
    ReadBodyHas(f.value, t);
    ReadBodyLacks(f.value, t);
    ReadBodyFinds(f.value, t);
  }

  lemma ReadBodyMatch(s: Stmt, t: Stmt, v: Text, make: (Expr, Text) -> Cond)
    requires s.tokens == [Col(Body), Comma, Hole, Close] + t.tokens && s.args == [Str(v)] + t.args
    ensures ReadBinary(s, [Comma, Hole, Close], make) == Some(Read(make(ColumnOf(Body), v), t))
  {
    assert s.tokens[0] == Col(Body) && s.args[0] == Str(v);
    assert s.tokens[1..] == [Comma, Hole, Close] + t.tokens;
    assert ReadExpr(s) == Some(Read(ColumnOf(Body), Drop(s, 1)));
    assert s.tokens[1..][3..] == t.tokens && s.args[1..] == t.args;
  }

  // ---- Whole WHERE clauses ---------------------------------------------------------------------------------

  /** The conditions after the first: none, or AND and more. */
  function ReadMore(s: Stmt): Option<Read<seq<Cond>>> {
    if StartsWith(s, [And]) then ReadWhere(Drop(s, 1)) else Some(Read([], s))
  }

  function Cons(c: Cond, r: Option<Read<seq<Cond>>>): Option<Read<seq<Cond>>> {
    if r.None? then None else Some(Read([c] + r.value.item, r.value.rest))
  }

  lemma ReadWhereStep(s: Stmt, c: Cond, rest: Stmt)
    requires ReadCond(s) == Some(Read(c, rest))
    ensures ReadWhere(s) == Cons(c, ReadMore(rest))
  {
    hide ReadCond;
    assert [c] + [] == [c];
  }

  lemma ReadAnded(frag: Stmt, c: Cond, t: Stmt)
    requires ReadCond(Append(frag, t)) == Some(Read(c, t))
    ensures ReadMore(Append(Anded(frag), t)) == Cons(c, ReadMore(t))
  {
    hide ReadCond;
    var s := Append(Anded(frag), t);
    assert s.tokens[0] == And && s.tokens[1..] == frag.tokens + t.tokens;
    assert Drop(s, 1) == Append(frag, t);
    ReadWhereStep(Append(frag, t), c, t);
  }

  function MatcherConds(ms: seq<Matcher>): seq<Cond> {
    seq(|ms|, i requires 0 <= i < |ms| => MatcherCond(ms[i]))
  }

  function FilterConds(fs: seq<LineFilter>): seq<Cond> {
    seq(|fs|, i requires 0 <= i < |fs| => FilterCond(fs[i]))
  }

  /** `cs` in front of what is read from the rest. */
  function Leading(cs: seq<Cond>, r: Option<Read<seq<Cond>>>): Option<Read<seq<Cond>>> {
    if r.None? then None else Some(Read(cs + r.value.item, r.value.rest))
  }

  lemma BeforeCons(c: Cond, cs: seq<Cond>, r: Option<Read<seq<Cond>>>)
    ensures Cons(c, Leading(cs, r)) == Leading([c] + cs, r)
    ensures Leading([], r) == r
  {
    if r.Some? {
      Regroup([c], cs, r.value.item);
      assert [] + r.value.item == r.value.item;
    }
  }

  lemma {:induction false} ReadMatchers(ms: seq<Matcher>, t: Stmt)
    ensures ReadMore(Append(MatchersWhere(ms), t)) == Leading(MatcherConds(ms), ReadMore(t))
  {
    hide ReadMore, MatcherFragment, MatcherCond;
    if ms == [] {
      assert Append(MatchersWhere(ms), t) == t by { assert [] + t.tokens == t.tokens && [] + t.args == t.args; }
      BeforeCons(NotBefore(0), [], ReadMore(t));
    } else {
      var rest := Append(MatchersWhere(ms[1..]), t);
      assert MatchersWhere(ms) == Append(Anded(MatcherFragment(ms[0])), MatchersWhere(ms[1..]));
      assert MatcherConds(ms) == [MatcherCond(ms[0])] + MatcherConds(ms[1..]);
      hide *;
      AppendAssoc(Anded(MatcherFragment(ms[0])), MatchersWhere(ms[1..]), t);
      ReadMatcher(ms[0], rest);
      ReadAnded(MatcherFragment(ms[0]), MatcherCond(ms[0]), rest);
      ReadMatchers(ms[1..], t);
      BeforeCons(MatcherCond(ms[0]), MatcherConds(ms[1..]), ReadMore(t));
    }
  }

  lemma {:induction false} ReadFilters(fs: seq<LineFilter>, t: Stmt)
    ensures ReadMore(Append(FiltersWhere(fs), t)) == Leading(FilterConds(fs), ReadMore(t))
  {
    hide ReadMore, FilterFragment, FilterCond;
    if fs == [] {
      assert Append(FiltersWhere(fs), t) == t by { assert [] + t.tokens == t.tokens && [] + t.args == t.args; }
      BeforeCons(NotBefore(0), [], ReadMore(t));
    } else {
      var rest := Append(FiltersWhere(fs[1..]), t);
      assert FiltersWhere(fs) == Append(Anded(FilterFragment(fs[0])), FiltersWhere(fs[1..]));
      assert FilterConds(fs) == [FilterCond(fs[0])] + FilterConds(fs[1..]);
      hide *;
      AppendAssoc(Anded(FilterFragment(fs[0])), FiltersWhere(fs[1..]), t);
      ReadFilter(fs[0], rest);
      ReadAnded(FilterFragment(fs[0]), FilterCond(fs[0]), rest);
      ReadFilters(fs[1..], t);
      BeforeCons(FilterCond(fs[0]), FilterConds(fs[1..]), ReadMore(t));
    }
  }

  function RangeConds(project: Text, start: int, end: int): seq<Cond> {
    [Equals(ColumnOf(ProjectId), project), NotBefore(UnixNano(start)), Earlier(UnixNano(end))]
  }

  lemma ReadProject(project: Text, t: Stmt)
    ensures ReadCond(Append(Stmt(IN_PROJECT, [Str(project)]), t)) ==
            Some(Read(Equals(ColumnOf(ProjectId), project), t))
  {
    var s := Append(Stmt(IN_PROJECT, [Str(project)]), t);
    assert s.tokens[0] == Col(ProjectId) && s.args[0] == Str(project);
    assert s.tokens[1..] == [Eq, Hole] + t.tokens;
    assert ReadExpr(s) == Some(Read(ColumnOf(ProjectId), Drop(s, 1)));
    assert s.tokens[1..][2..] == t.tokens && s.args[1..] == t.args;
  }

  lemma ReadBounds(n: int, t: Stmt)
    ensures ReadCond(Append(Stmt(NOT_BEFORE, [Int(n)]), t)) == Some(Read(NotBefore(n), t))
    ensures ReadCond(Append(Stmt(BEFORE, [Int(n)]), t)) == Some(Read(Earlier(n), t))
  {
    var s, u := Append(Stmt(NOT_BEFORE, [Int(n)]), t), Append(Stmt(BEFORE, [Int(n)]), t);
    assert s.tokens[6..] == t.tokens && s.args[1..] == t.args && s.args[0] == Int(n);
    assert u.tokens[6..] == t.tokens && u.args[1..] == t.args && u.args[0] == Int(n) && u.tokens[1] == Lt;
  }

  lemma ReadRange(project: Text, start: int, end: int, t: Stmt)
    ensures ReadWhere(Append(ProjectRange(project, start, end), t)) ==
            Leading(RangeConds(project, start, end), ReadMore(t))
  {
    hide ReadCond, ReadWhere, ReadMore, UnixNano;
    var a, b, c := Stmt(IN_PROJECT, [Str(project)]), Stmt(NOT_BEFORE, [Int(UnixNano(start))]),
                   Stmt(BEFORE, [Int(UnixNano(end))]);
    var t2 := Append(Anded(c), t);
    var t1 := Append(Anded(b), t2);
    assert Append(ProjectRange(project, start, end), t) == Append(a, t1);
    ReadProject(project, t1);
    ReadBounds(UnixNano(start), t2);
    ReadBounds(UnixNano(end), t);
    ReadWhereStep(Append(a, t1), Equals(ColumnOf(ProjectId), project), t1);
    ReadAnded(b, NotBefore(UnixNano(start)), t2);
    ReadAnded(c, Earlier(UnixNano(end)), t);
    var more := ReadMore(t);
    if more.Some? {
      assert [Equals(ColumnOf(ProjectId), project)]
             + ([NotBefore(UnixNano(start))] + ([Earlier(UnixNano(end))] + more.value.item)) ==
             RangeConds(project, start, end) + more.value.item;
    }
  }

  /** Every condition of a logs query, in the order their text is written. */
  function LogsConds(project: Text, q: LogQuery): seq<Cond> {
    RangeConds(project, q.start, q.end) + (MatcherConds(q.matchers) + FilterConds(q.filters))
  }

  lemma ReadLogsWhere(project: Text, q: LogQuery, tail: Stmt)
    requires ReadMore(tail) == Some(Read([], tail))
    ensures ReadWhere(Append(ProjectRange(project, q.start, q.end),
                             Append(MatchersWhere(q.matchers), Append(FiltersWhere(q.filters), tail)))) ==
            Some(Read(LogsConds(project, q), tail))
  {
    hide ReadWhere, ReadMore, ProjectRange, MatchersWhere, FiltersWhere, MatcherConds, FilterConds, RangeConds, Append;
    var ms, fs := MatchersWhere(q.matchers), FiltersWhere(q.filters);
    ReadRange(project, q.start, q.end, Append(ms, Append(fs, tail)));
    ReadMatchers(q.matchers, Append(fs, tail));
    ReadFilters(q.filters, tail);
    assert FilterConds(q.filters) + [] == FilterConds(q.filters);
  }

  lemma ReadOrder(newestFirst: bool, limit: int)
    ensures var tail := Stmt(OrderTokens(newestFirst), [Int(limit)]);
            && ReadMore(tail) == Some(Read([], tail))
            && (StartsWith(tail, [OrderBy, Col(ObservedTimestamp), Desc, Limit, Hole]) <==> newestFirst)
            && (StartsWith(tail, [OrderBy, Col(ObservedTimestamp), Asc, Limit, Hole]) <==> !newestFirst)
  {
    hide ReadWhere;
    var tokens := OrderTokens(newestFirst);
    assert tokens[0] == OrderBy && [And][0] == And;
    assert tokens[2] == if newestFirst then Desc else Asc;
  }

  /** What is selected, in the order the rows are scanned. */
  const SCANNED: seq<Item> :=
    [Plain(ObservedTimestamp), Plain(Body), Plain(ServiceName), Plain(SeverityText), Plain(TraceId),
     LabelKeys, LabelValues]

  /** Reading on from position `i`: a column and a comma in front of other selected values. */
  lemma ReadColumnAt(all: seq<Token>, i: nat, args: seq<Arg>, c: Column, more: seq<Item>, rest: Stmt)
    requires i + 2 <= |all| && all[i] == Col(c) && all[i + 1] == Comma
    requires ReadItems(Stmt(all[i + 2..], args)) == Some(Read(more, rest))
    ensures ReadItems(Stmt(all[i..], args)) == Some(Read([Plain(c)] + more, rest))
  {
    var s := Stmt(all[i..], args);
    assert s.tokens[0] == Col(c) && s.tokens[1..][0] == Comma && s.tokens[1..][1..] == all[i + 2..];
    assert ReadItem(s) == Some(Read(Plain(c), Drop(s, 1)));
    assert StartsWith(Drop(s, 1), [Comma]);
  }

  lemma ReadLabelKeysAt(all: seq<Token>, i: nat, args: seq<Arg>, more: seq<Item>, rest: Stmt)
    requires i + 5 <= |all| && all[i..i + 5] == [MapKeys, Open, Col(Labels), Close, Comma]
    requires ReadItems(Stmt(all[i + 5..], args)) == Some(Read(more, rest))
    ensures ReadItems(Stmt(all[i..], args)) == Some(Read([LabelKeys] + more, rest))
  {
    var s := Stmt(all[i..], args);
    assert s.tokens[..4] == all[i..i + 5][..4] && all[i + 4] == all[i..i + 5][4];
    assert s.tokens[4..][0] == Comma && s.tokens[4..][1..] == all[i + 5..];
    assert ReadItem(s) == Some(Read(LabelKeys, Drop(s, 4)));
    assert StartsWith(Drop(s, 4), [Comma]);
  }

  lemma ReadLabelValuesAt(all: seq<Token>, i: nat, args: seq<Arg>)
    requires i + 5 <= |all| && all[i..i + 5] == [MapValues, Open, Col(Labels), Close, FromLogs]
    ensures ReadItems(Stmt(all[i..], args)) == Some(Read([LabelValues], Stmt(all[i + 4..], args)))
  {
    var s := Stmt(all[i..], args);
    assert s.tokens[..4] == all[i..i + 5][..4] && all[i + 4] == all[i..i + 5][4];
    assert s.tokens[0] == MapValues && s.tokens[4..] == all[i + 4..] && s.tokens[4..][0] == FromLogs;
    assert ReadItem(s) == Some(Read(LabelValues, Drop(s, 4)));
    assert !StartsWith(Drop(s, 4), [Comma]);
  }

  lemma ReadLabelsAt(all: seq<Token>, i: nat, args: seq<Arg>)
    requires i + 10 <= |all| && all[i..i + 5] == [MapKeys, Open, Col(Labels), Close, Comma]
    requires all[i + 5..i + 10] == [MapValues, Open, Col(Labels), Close, FromLogs]
    ensures ReadItems(Stmt(all[i..], args)) == Some(Read([LabelKeys, LabelValues], Stmt(all[i + 9..], args)))
  {
    hide ReadItems;
    ReadLabelValuesAt(all, i + 5, args);
    ReadLabelKeysAt(all, i, args, [LabelValues], Stmt(all[i + 9..], args));
    assert [LabelKeys] + [LabelValues] == [LabelKeys, LabelValues];
  }

  /** Five columns and the two label lists, wherever they stand. */
  lemma ReadFive(all: seq<Token>, args: seq<Arg>, cols: seq<Column>, i: nat)
    requires |cols| == 5 && 21 <= |all| && i <= 5
    requires forall k :: 0 <= k < 5 ==> all[2 * k + 1] == Col(cols[k]) && all[2 * k + 2] == Comma
    requires all[11..16] == [MapKeys, Open, Col(Labels), Close, Comma]
    requires all[16..21] == [MapValues, Open, Col(Labels), Close, FromLogs]
    ensures ReadItems(Stmt(all[2 * i + 1..], args)) ==
            Some(Read(Columns(cols[i..]) + [LabelKeys, LabelValues], Stmt(all[20..], args)))
    decreases 5 - i
  {
    hide ReadItems;
    if i == 5 {
      ReadLabelsAt(all, 11, args);
      assert Columns(cols[5..]) + [LabelKeys, LabelValues] == [LabelKeys, LabelValues];
    } else {
      ReadFive(all, args, cols, i + 1);
      var more := Columns(cols[i + 1..]) + [LabelKeys, LabelValues];
      ReadColumnAt(all, 2 * i + 1, args, cols[i], more, Stmt(all[20..], args));
      assert cols[i..][1..] == cols[i + 1..];
      Regroup([Plain(cols[i])], Columns(cols[i + 1..]), [LabelKeys, LabelValues]);
    }
  }

  function Columns(cols: seq<Column>): seq<Item> {
    if cols == [] then [] else [Plain(cols[0])] + Columns(cols[1..])
  }

  /** The selected values read back in the order they are scanned. */
  lemma ReadSelected(rest: seq<Token>, args: seq<Arg>)
    ensures ReadItems(Stmt((LOGS_SELECT + rest)[1..], args)) ==
            Some(Read(SCANNED, Stmt((LOGS_SELECT + rest)[20..], args)))
  {
    var all, cols := LOGS_SELECT + rest, [ObservedTimestamp, Body, ServiceName, SeverityText, TraceId];
    SelectedAt(rest, cols);
    ColumnsOfFive(cols);
    assert SCANNED == Columns(cols) + [LabelKeys, LabelValues];
    hide *;
    assert cols[0..] == cols;
    ReadFive(all, args, cols, 0);
  }

  lemma SelectedAt(rest: seq<Token>, cols: seq<Column>)
    requires cols == [ObservedTimestamp, Body, ServiceName, SeverityText, TraceId]
    ensures var all := LOGS_SELECT + rest;
            && (forall k :: 0 <= k < 5 ==> all[2 * k + 1] == Col(cols[k]) && all[2 * k + 2] == Comma)
            && all[11..16] == [MapKeys, Open, Col(Labels), Close, Comma]
            && all[16..21] == [MapValues, Open, Col(Labels), Close, FromLogs]
  {
    var all := LOGS_SELECT + rest;
    assert all[11..16] == LOGS_SELECT[11..16] && all[16..21] == LOGS_SELECT[16..21];
    forall k | 0 <= k < 5 ensures all[2 * k + 1] == Col(cols[k]) && all[2 * k + 2] == Comma {
      assert k == 0 || k == 1 || k == 2 || k == 3 || k == 4;
    }
  }

  lemma ColumnsOfFive(cols: seq<Column>)
    requires |cols| == 5
    ensures Columns(cols) == [Plain(cols[0]), Plain(cols[1]), Plain(cols[2]), Plain(cols[3]), Plain(cols[4])]
  {
    assert cols[1..][1..] == cols[2..] && cols[2..][1..] == cols[3..] && cols[3..][1..] == cols[4..];
    assert Columns(cols[4..]) == [Plain(cols[4])];
    assert Columns(cols[2..]) == [Plain(cols[2]), Plain(cols[3]), Plain(cols[4])];
  }

  lemma LogsQueryParts(project: Text, q: LogQuery)
    requires q.limit > 0
    ensures var where := Append(ProjectRange(project, q.start, q.end),
                                Append(MatchersWhere(q.matchers),
                                       Append(FiltersWhere(q.filters),
                                              Stmt(OrderTokens(q.newestFirst), [Int(q.limit)]))));
            LogsQuery(project, q).value == Stmt(LOGS_SELECT + where.tokens, where.args)
  {
    hide ProjectRange, MatchersWhere, FiltersWhere;
    var range, ms, fs := ProjectRange(project, q.start, q.end), MatchersWhere(q.matchers), FiltersWhere(q.filters);
    var tail := Stmt(OrderTokens(q.newestFirst), [Int(q.limit)]);
    AppendAssoc(range, Append(ms, fs), tail);
    AppendAssoc(ms, fs, tail);
    Regroup(LOGS_SELECT, Append(range, Append(ms, fs)).tokens, tail.tokens);
  }

  lemma SelectLead(rest: seq<Token>, args: seq<Arg>)
    ensures var all := LOGS_SELECT + rest;
            && StartsWith(Stmt(all, args), [Select]) && Drop(Stmt(all, args), 1) == Stmt(all[1..], args)
            && StartsWith(Stmt(all[20..], args), [FromLogs, Where])
            && Drop(Stmt(all[20..], args), 2) == Stmt(rest, args)
  {
    var all := LOGS_SELECT + rest;
    assert all[0] == Select && all[20..][0] == FromLogs && all[20..][1] == Where;
    assert all[20..][2..] == rest;
  }

  /** Reading a statement with a known head and a known tail. */
  lemma ReadLogsParts(
      s: Stmt, items: seq<Item>, from: Stmt, where: Stmt, conds: seq<Cond>, order: Stmt, down: bool, n: int)
    requires StartsWith(s, [Select]) && ReadItems(Drop(s, 1)) == Some(Read(items, from))
    requires StartsWith(from, [FromLogs, Where]) && Drop(from, 2) == where
    requires ReadWhere(where) == Some(Read(conds, order))
    requires order == Stmt(OrderTokens(down), [Int(n)])
    ensures ReadLogs(s) == Some(LogsPlan(items, conds, down, n))
  {
    hide ReadWhere, ReadItems;
    assert order.tokens[2] == if down then Desc else Asc;
  }

  /** Binding the arguments to the holes by position reads back exactly the columns, conditions, order and limit. */
  lemma ReadLogsQuery(project: Text, q: LogQuery)
    requires q.limit > 0
    ensures ReadLogs(LogsQuery(project, q).value) ==
            Some(LogsPlan(SCANNED, LogsConds(project, q), q.newestFirst, q.limit))
  {
    var tail := Stmt(OrderTokens(q.newestFirst), [Int(q.limit)]);
    var where := Append(ProjectRange(project, q.start, q.end),
                        Append(MatchersWhere(q.matchers), Append(FiltersWhere(q.filters), tail)));
    var s := LogsQuery(project, q).value;
    hide *;
    LogsQueryParts(project, q);
    ReadSelected(where.tokens, where.args);
    ReadOrder(q.newestFirst, q.limit);
    ReadLogsWhere(project, q, tail);
    SelectLead(where.tokens, where.args);
    var from := Stmt(s.tokens[20..], s.args);
    ReadLogsParts(s, SCANNED, from, where, LogsConds(project, q), tail, q.newestFirst, q.limit);
  }

  // ---- Meaning ---------------------------------------------------------------------------------------------

  /** The rows a parsed query asks for: the project's, in [start, end), satisfying every matcher and filter. */
  predicate Asked(eng: Engine, project: Text, q: LogQuery, row: LogRow) {
    && row.project == project && q.start <= row.ns < q.end
    && (forall i :: 0 <= i < |q.matchers| ==> Matches(eng, q.matchers[i], LabelValue(row, q.matchers[i].name)))
    && (forall i :: 0 <= i < |q.filters| ==> LineMatches(eng, q.filters[i], row.body))
  }

  predicate Storable(row: LogRow) {
    -2_208_988_800_000_000_000 <= row.ns < 9_223_372_036_000_000_000
  }

  lemma MatcherCondMeans(eng: Engine, row: LogRow, m: Matcher)
    ensures Holds(eng, row, MatcherCond(m)) <==> Matches(eng, m, LabelValue(row, m.name))
  {
  }

  lemma FilterCondMeans(eng: Engine, row: LogRow, f: LineFilter)
    ensures Holds(eng, row, FilterCond(f)) <==> LineMatches(eng, f, row.body)
  {
  }

  lemma AllHoldAppend(eng: Engine, row: LogRow, a: seq<Cond>, b: seq<Cond>)
    ensures AllHold(eng, row, a + b) <==> AllHold(eng, row, a) && AllHold(eng, row, b)
  {
    hide Holds;
    var s := a + b;
    assert forall i :: 0 <= i < |a| ==> s[i] == a[i];
    assert forall i :: 0 <= i < |b| ==> s[|a| + i] == b[i];
  }

  lemma MatcherCondsMean(eng: Engine, row: LogRow, ms: seq<Matcher>)
    ensures AllHold(eng, row, MatcherConds(ms)) <==>
            forall i :: 0 <= i < |ms| ==> Matches(eng, ms[i], LabelValue(row, ms[i].name))
  {
    hide Holds, Matches, LabelValue, MatcherCond;
    forall i | 0 <= i < |ms|
      ensures Holds(eng, row, MatcherConds(ms)[i]) <==> Matches(eng, ms[i], LabelValue(row, ms[i].name))
    {
      MatcherCondMeans(eng, row, ms[i]);
    }
  }

  lemma FilterCondsMean(eng: Engine, row: LogRow, fs: seq<LineFilter>)
    ensures AllHold(eng, row, FilterConds(fs)) <==> forall i :: 0 <= i < |fs| ==> LineMatches(eng, fs[i], row.body)
  {
    hide Holds, LineMatches, FilterCond;
    forall i | 0 <= i < |fs| ensures Holds(eng, row, FilterConds(fs)[i]) <==> LineMatches(eng, fs[i], row.body) {
      FilterCondMeans(eng, row, fs[i]);
    }
  }

  lemma RangeCondsMean(eng: Engine, row: LogRow, project: Text, start: int, end: int)
    requires Storable(row)
    ensures AllHold(eng, row, RangeConds(project, start, end)) <==> row.project == project && start <= row.ns < end
  {
    var cs := RangeConds(project, start, end);
    assert AllHold(eng, row, cs) <==> Holds(eng, row, cs[0]) && Holds(eng, row, cs[1]) && Holds(eng, row, cs[2]);
  }

  /** The compiled conditions select exactly the rows the query asks for. */
  lemma CompiledSelectsAsked(eng: Engine, project: Text, q: LogQuery, row: LogRow)
    requires Storable(row)
    ensures AllHold(eng, row, LogsConds(project, q)) <==> Asked(eng, project, q, row)
  {
    hide AllHold, RangeConds, MatcherConds, FilterConds, Matches, LineMatches, LabelValue;
    AllHoldAppend(eng, row, RangeConds(project, q.start, q.end), MatcherConds(q.matchers) + FilterConds(q.filters));
    AllHoldAppend(eng, row, MatcherConds(q.matchers), FilterConds(q.filters));
    RangeCondsMean(eng, row, project, q.start, q.end);
    MatcherCondsMean(eng, row, q.matchers);
    FilterCondsMean(eng, row, q.filters);
  }

  lemma {:induction false} HolesAppend(a: seq<Token>, b: seq<Token>)
    ensures Holes(a + b) == Holes(a) + Holes(b)
  {
    if a == [] {
      assert a + b == b;
    } else {
      assert (a + b)[0] == a[0] && (a + b)[1..] == a[1..] + b;
      HolesAppend(a[1..], b);
    }
  }

  ghost predicate InOrder(newestFirst: bool, s: seq<LogRow>) {
    forall i, j :: 0 <= i < j < |s| ==> if newestFirst then s[j].ns <= s[i].ns else s[i].ns <= s[j].ns
  }

  /** `result` is the first `limit` of the rows chosen, in some order by time; ties are the database's choice. */
  ghost predicate FirstOf(chosen: seq<LogRow>, newestFirst: bool, limit: nat, result: seq<LogRow>) {
    exists s :: multiset(s) == multiset(chosen) && InOrder(newestFirst, s) && result == Take(s, limit)
  }

  /** What the database may answer to a statement it reads as `plan`. */
  ghost predicate Yields(eng: Engine, plan: LogsPlan, table: seq<LogRow>, result: seq<LogRow>) {
    plan.limit >= 0 &&
    FirstOf(Filter(table, (row: LogRow) => AllHold(eng, row, plan.conds)), plan.newestFirst, plan.limit, result)
  }

  /** What the query asks for. */
  ghost predicate Answers(eng: Engine, project: Text, q: LogQuery, table: seq<LogRow>, result: seq<LogRow>)
    requires q.limit >= 0
  {
    FirstOf(Filter(table, (row: LogRow) => Asked(eng, project, q, row)), q.newestFirst, q.limit, result)
  }

  /**
   The compiled statement is answered with exactly the rows the query asks for: the project's rows in
   [start, end) that satisfy every matcher and filter, in the asked order, cut at the limit.
   */
  lemma LogsQueryMeans(eng: Engine, project: Text, q: LogQuery, table: seq<LogRow>, result: seq<LogRow>)
    requires q.limit > 0 && forall i :: 0 <= i < |table| ==> Storable(table[i])
    ensures ReadLogs(LogsQuery(project, q).value).Some?
    ensures Yields(eng, ReadLogs(LogsQuery(project, q).value).value, table, result) <==>
            Answers(eng, project, q, table, result)
  {
    hide ReadLogs, LogsQuery, LogsConds, AllHold, Asked;
    ReadLogsQuery(project, q);
    var conds := LogsConds(project, q);
    forall row | row in table ensures AllHold(eng, row, conds) == Asked(eng, project, q, row) {
      CompiledSelectsAsked(eng, project, q, row);
    }
    FilterCongruent(table, (row: LogRow) => AllHold(eng, row, conds), (row: LogRow) => Asked(eng, project, q, row));
  }

  // ---- Series ----------------------------------------------------------------------------------------------

  const SERIES: seq<Text> := ["service_name", "severity", "resource_name"]

  /** The allowlisted expressions, separated by commas. */
  function SeriesExprs(names: seq<Text>): Stmt {
    if names == [] then Stmt([], [])
    else if |names| == 1 then LabelExpr(names[0])
    else Append(Append(LabelExpr(names[0]), Stmt([Comma], [])), SeriesExprs(names[1..]))
  }

  /** buildSeriesQuery: select keys are bound before the WHERE arguments, group keys after them. */
  function SeriesQuery(project: Text, matchers: seq<Matcher>, start: int, end: int): Stmt {
    var exprs, where := SeriesExprs(SERIES), Append(ProjectRange(project, start, end), MatchersWhere(matchers));
    Append(Append(Stmt([Select], []), exprs),
           Append(Append(Stmt([FromLogs, Where], []), where), Append(Stmt([GroupBy], []), exprs)))
  }

  method BuildSeriesQuery(project: Text, matchers: seq<Matcher>, start: int, end: int) returns (r: Stmt)
    ensures r == SeriesQuery(project, matchers, start, end)
  {
    hide MatcherFragment, ProjectRange, LabelExpr, SeriesExprs;
    var exprs := SeriesExprs(SERIES);
    var range := ProjectRange(project, start, end);
    var tokens, args := range.tokens, range.args;
    for i := 0 to |matchers|
      invariant Append(Stmt(tokens, args), MatchersWhere(matchers[i..])) == Append(range, MatchersWhere(matchers))
    {
      var cond := MatcherFragment(matchers[i]);
      assert matchers[i..][0] == matchers[i] && matchers[i..][1..] == matchers[i + 1..];
      AppendAnded(Stmt(tokens, args), cond, MatchersWhere(matchers[i + 1..]));
      tokens := tokens + ([And] + cond.tokens);
      args := args + cond.args;
    }
    AppendNothing(Stmt(tokens, args));
    var text := [Select] + exprs.tokens + ([FromLogs, Where] + tokens + ([GroupBy] + exprs.tokens));
    r := Stmt(text, exprs.args + (args + exprs.args));
    hide MatchersWhere;
    assert [] + exprs.args == exprs.args && [] + args == args;
  }

  function ExprsOf(names: seq<Text>): seq<Expr> {
    seq(|names|, i requires 0 <= i < |names| => ExprOf(names[i]))
  }

  lemma {:induction false} ReadSeriesExprs(names: seq<Text>, t: Stmt)
    requires names != [] && (t.tokens == [] || t.tokens[0] != Comma)
    ensures ReadExprs(Append(SeriesExprs(names), t)) == Some(Read(ExprsOf(names), t))
  {
    hide LabelExpr, ReadExpr, ExprOf;
    var s := Append(SeriesExprs(names), t);
    if |names| == 1 {
      ReadLabelExpr(names[0], t);
      assert !StartsWith(t, [Comma]) by { assert [Comma][0] == Comma; }
      assert ExprsOf(names) == [ExprOf(names[0])];
    } else {
      var more := Append(SeriesExprs(names[1..]), t);
      var rest := Append(Stmt([Comma], []), more);
      AppendAssoc(Append(LabelExpr(names[0]), Stmt([Comma], [])), SeriesExprs(names[1..]), t);
      AppendAssoc(LabelExpr(names[0]), Stmt([Comma], []), more);
      ReadLabelExpr(names[0], rest);
      assert rest.tokens[0] == Comma && rest.tokens[1..] == more.tokens && rest.args == more.args;
      ReadSeriesExprs(names[1..], t);
      assert ExprsOf(names) == [ExprOf(names[0])] + ExprsOf(names[1..]);
    }
  }

  lemma ReadSeriesWhere(project: Text, ms: seq<Matcher>, start: int, end: int, tail: Stmt)
    requires tail.tokens != [] && tail.tokens[0] == GroupBy
    ensures ReadWhere(Append(Append(ProjectRange(project, start, end), MatchersWhere(ms)), tail)) ==
            Some(Read(RangeConds(project, start, end) + MatcherConds(ms), tail))
  {
    hide ReadWhere, ProjectRange, MatchersWhere, MatcherConds, RangeConds, Append;
    assert [And][0] == And;
    assert ReadMore(tail) == Some(Read([], tail));
    hide ReadMore;
    AppendAssoc(ProjectRange(project, start, end), MatchersWhere(ms), tail);
    ReadRange(project, start, end, Append(MatchersWhere(ms), tail));
    ReadMatchers(ms, tail);
    assert MatcherConds(ms) + [] == MatcherConds(ms);
  }

  lemma SkipLead(lead: seq<Token>, s: Stmt)
    ensures var t := Append(Stmt(lead, []), s); StartsWith(t, lead) && Drop(t, |lead|) == s
  {
    var t := Append(Stmt(lead, []), s);
    assert t.tokens[|lead|..] == s.tokens && t.args == s.args;
  }

  lemma SeriesQueryParts(project: Text, ms: seq<Matcher>, start: int, end: int, group: Stmt, from: Stmt)
    requires group == Append(Stmt([GroupBy], []), SeriesExprs(SERIES))
    requires from == Append(Stmt([FromLogs, Where], []),
                            Append(Append(ProjectRange(project, start, end), MatchersWhere(ms)), group))
    ensures SeriesQuery(project, ms, start, end) == Append(Stmt([Select], []), Append(SeriesExprs(SERIES), from))
    ensures from.tokens != [] && from.tokens[0] == FromLogs && group.tokens != [] && group.tokens[0] == GroupBy
  {
    hide SeriesExprs, ProjectRange, MatchersWhere;
    var where := Append(ProjectRange(project, start, end), MatchersWhere(ms));
    AppendAssoc(Stmt([Select], []), SeriesExprs(SERIES), from);
    AppendAssoc(Stmt([FromLogs, Where], []), where, group);
  }

  lemma ReadSeriesSteps(s: Stmt, from: Stmt, group: Stmt, selected: seq<Expr>, conds: seq<Cond>, grouped: seq<Expr>)
    requires StartsWith(s, [Select]) && ReadExprs(Drop(s, 1)) == Some(Read(selected, from))
    requires StartsWith(from, [FromLogs, Where]) && ReadWhere(Drop(from, 2)) == Some(Read(conds, group))
    requires StartsWith(group, [GroupBy]) && ReadExprs(Drop(group, 1)) == Some(Read(grouped, Stmt([], [])))
    ensures ReadSeries(s) == Some(SeriesPlan(selected, conds, grouped))
  {
    hide ReadExprs, ReadWhere;
  }

  /** SELECT, WHERE and GROUP BY each get their own arguments, in the order their holes stand. */
  lemma ReadSeriesQuery(project: Text, ms: seq<Matcher>, start: int, end: int)
    ensures ReadSeries(SeriesQuery(project, ms, start, end)) ==
            Some(SeriesPlan(ExprsOf(SERIES), RangeConds(project, start, end) + MatcherConds(ms), ExprsOf(SERIES)))
  {
    assert SERIES != [];
    hide *;
    var exprs, where := SeriesExprs(SERIES), Append(ProjectRange(project, start, end), MatchersWhere(ms));
    var group := Append(Stmt([GroupBy], []), exprs);
    var body := Append(where, group);
    var from := Append(Stmt([FromLogs, Where], []), body);
    AppendNothing(exprs);
    SeriesQueryParts(project, ms, start, end, group, from);
    SkipLead([Select], Append(exprs, from));
    SkipLead([FromLogs, Where], body);
    SkipLead([GroupBy], exprs);
    ReadSeriesExprs(SERIES, from);
    ReadSeriesWhere(project, ms, start, end, group);
    ReadSeriesExprs(SERIES, Stmt([], []));
    ReadSeriesSteps(SeriesQuery(project, ms, start, end), from, group,
                    ExprsOf(SERIES), RangeConds(project, start, end) + MatcherConds(ms), ExprsOf(SERIES));
  }

  /** The rows of a series query. */
  predicate SeriesAsked(eng: Engine, project: Text, ms: seq<Matcher>, start: int, end: int, row: LogRow) {
    && row.project == project && start <= row.ns < end
    && forall i :: 0 <= i < |ms| ==> Matches(eng, ms[i], LabelValue(row, ms[i].name))
  }

  /** The label set reported for a row: its values for the allowlisted labels. */
  function SeriesOf(row: LogRow): seq<Text> {
    [row.service, row.severity, Lookup(row.labels, "resource_name")]
  }

  function ExprTexts(row: LogRow, es: seq<Expr>): seq<Text> {
    seq(|es|, i requires 0 <= i < |es| => ExprText(row, es[i]))
  }

  /** Grouping by the selected expressions gives each distinct tuple of their values once. */
  ghost function GroupsOf(eng: Engine, plan: SeriesPlan, table: seq<LogRow>): set<seq<Text>> {
    set row | row in table && AllHold(eng, row, plan.conds) :: ExprTexts(row, plan.grouped)
  }

  lemma ExprOfMeans(row: LogRow, name: Text)
    ensures ExprText(row, ExprOf(name)) == LabelValue(row, name)
  {
  }

  lemma SeriesExprsMean(row: LogRow)
    ensures ExprTexts(row, ExprsOf(SERIES)) == SeriesOf(row)
  {
    hide ExprText, ExprOf, LabelValue;
    forall i | 0 <= i < |SERIES| ensures ExprText(row, ExprOf(SERIES[i])) == LabelValue(row, SERIES[i]) {
      ExprOfMeans(row, SERIES[i]);
    }
    SeriesValues(row);
  }

  /** The labels with columns of their own read those columns, any other label an attribute of its name. */
  lemma LabelsRead(row: LogRow, name: Text)
    requires IsIdent(name)
    ensures LabelValue(row, name) ==
            if name == "service_name" then row.service
            else if name == "severity" then row.severity
            else if name == "trace_id" then row.trace
            else Lookup(row.labels, name)
  {
    hide Sanitize, Lookup;
    SanitizeIdent(name);
  }

  lemma SeriesValues(row: LogRow)
    ensures LabelValue(row, "service_name") == row.service && LabelValue(row, "severity") == row.severity
    ensures LabelValue(row, "resource_name") == Lookup(row.labels, "resource_name")
  {
    hide Sanitize, Lookup, LabelValue;
    var service: Text, severity: Text, name: Text := "service_name", "severity", "resource_name";
    assert IsIdent(service) && IsIdent(severity) && IsIdent(name) && |name| == 13;
    LabelsRead(row, service);
    LabelsRead(row, severity);
    LabelsRead(row, name);
  }

  /** The series statement lists exactly the bounded label sets of the rows the matchers select. */
  lemma SeriesQueryMeans(eng: Engine, project: Text, ms: seq<Matcher>, start: int, end: int, table: seq<LogRow>)
    requires forall i :: 0 <= i < |table| ==> Storable(table[i])
    ensures var plan := ReadSeries(SeriesQuery(project, ms, start, end));
            && plan.Some? && plan.value.selected == plan.value.grouped
            && GroupsOf(eng, plan.value, table) ==
               set row | row in table && SeriesAsked(eng, project, ms, start, end, row) :: SeriesOf(row)
  {
    hide ReadSeries, SeriesQuery, AllHold, RangeConds, MatcherConds, ExprTexts, SeriesOf, Matches, LabelValue;
    ReadSeriesQuery(project, ms, start, end);
    forall row | row in table
      ensures AllHold(eng, row, RangeConds(project, start, end) + MatcherConds(ms)) <==>
              SeriesAsked(eng, project, ms, start, end, row)
      ensures ExprTexts(row, ExprsOf(SERIES)) == SeriesOf(row) {
      AllHoldAppend(eng, row, RangeConds(project, start, end), MatcherConds(ms));
      RangeCondsMean(eng, row, project, start, end);
      MatcherCondsMean(eng, row, ms);
      SeriesExprsMean(row);
    }
  }

  // ---- Holes and arguments ---------------------------------------------------------------------------------

  predicate Matched(s: Stmt) {
    Holes(s.tokens) == |s.args|
  }

  lemma AppendMatched(s: Stmt, t: Stmt)
    requires Matched(s) && Matched(t)
    ensures Matched(Append(s, t))
  {
    HolesAppend(s.tokens, t.tokens);
  }

  lemma OneHole(lead: seq<Token>, tail: seq<Token>, a: Arg)
    requires Hole !in lead && Hole !in tail
    ensures Matched(Stmt(lead + [Hole] + tail, [a]))
  {
    NoHoles(lead);
    NoHoles(tail);
    HolesAppend(lead + [Hole], tail);
    HolesAppend(lead, [Hole]);
    assert Holes([Hole]) == 1 by { assert [Hole][1..] == []; }
  }

  lemma {:induction false} NoHoles(ts: seq<Token>)
    requires Hole !in ts
    ensures Holes(ts) == 0
  {
    if ts != [] {
      NoHoles(ts[1..]);
    }
  }

  lemma LabelExprMatched(name: Text)
    ensures Matched(LabelExpr(name))
  {
    match Resolve(name)
    case AsColumn(c) => NoHoles([Col(c)]);
    case AsAttribute(k) =>
      OneHole([Col(Labels), OpenBracket], [CloseBracket], Str(k));
      assert [Col(Labels), OpenBracket] + [Hole] + [CloseBracket] == [Col(Labels), OpenBracket, Hole, CloseBracket];
  }

  lemma WrappedMatched(lead: seq<Token>, e: Stmt, mid: seq<Token>, tail: seq<Token>, a: Arg)
    requires Matched(e) && Hole !in lead && Hole !in mid && Hole !in tail
    ensures Matched(Stmt(lead + (e.tokens + (mid + [Hole] + tail)), e.args + [a]))
  {
    NoHoles(lead);
    OneHole(mid, tail, a);
    HolesAppend(e.tokens, mid + [Hole] + tail);
    HolesAppend(lead, e.tokens + (mid + [Hole] + tail));
  }

  lemma MatcherMatched(m: Matcher)
    ensures Matched(MatcherFragment(m))
  {
    hide Holes, LabelExpr, Anchored;
    LabelExprMatched(m.name);
    var e := LabelExpr(m.name);
    match m.op
    case Equal =>
      WrappedMatched([], e, [Eq], [], Str(m.value));
      assert [] + (e.tokens + ([Eq] + [Hole] + [])) == e.tokens + [Eq, Hole];
    case NotEqual =>
      WrappedMatched([Open], e, [Ne], [Close], Str(m.value));
      assert [Ne] + [Hole] + [Close] == [Ne, Hole, Close];
    case Regexp =>
      WrappedMatched([Match, Open], e, [Comma], [Close], Str(Anchored(m.value)));
      assert [Comma] + [Hole] + [Close] == [Comma, Hole, Close];
    case NotRegexp =>
      WrappedMatched([Not, Match, Open], e, [Comma], [Close], Str(Anchored(m.value)));
      assert [Comma] + [Hole] + [Close] == [Comma, Hole, Close];
  }

  lemma FilterMatched(f: LineFilter)
    ensures Matched(FilterFragment(f))
  {
    hide Holes;
    var a, lead := Str(f.value), [Match, Open, Col(Body), Comma];
    OneHole([Position, Open, Col(Body), Comma], [Close, Gt, Zero], a);
    OneHole([Position, Open, Col(Body), Comma], [Close, Eq, Zero], a);
    OneHole(lead, [Close], a);
    OneHole([Not] + lead, [Close], a);
    assert [Position, Open, Col(Body), Comma] + [Hole] + [Close, Gt, Zero] == BODY_HAS;
    assert [Position, Open, Col(Body), Comma] + [Hole] + [Close, Eq, Zero] == BODY_LACKS;
    assert lead + [Hole] + [Close] == [Match, Open, Col(Body), Comma, Hole, Close];
    assert [Not] + lead + [Hole] + [Close] == [Not, Match, Open, Col(Body), Comma, Hole, Close];
  }

  lemma {:induction false} MatchersMatched(ms: seq<Matcher>)
    ensures Matched(MatchersWhere(ms))
  {
    if ms != [] {
      hide Holes, MatcherFragment;
      MatcherMatched(ms[0]);
      AndedMatched(MatcherFragment(ms[0]));
      MatchersMatched(ms[1..]);
      AppendMatched(Anded(MatcherFragment(ms[0])), MatchersWhere(ms[1..]));
    }
  }

  lemma {:induction false} FiltersMatched(fs: seq<LineFilter>)
    ensures Matched(FiltersWhere(fs))
  {
    if fs != [] {
      hide Holes, FilterFragment;
      FilterMatched(fs[0]);
      AndedMatched(FilterFragment(fs[0]));
      FiltersMatched(fs[1..]);
      AppendMatched(Anded(FilterFragment(fs[0])), FiltersWhere(fs[1..]));
    }
  }

  lemma AndedMatched(s: Stmt)
    requires Matched(s)
    ensures Matched(Anded(s))
  {
    NoHoles([And]);
    HolesAppend([And], s.tokens);
  }

  lemma RangeMatched(project: Text, start: int, end: int)
    ensures Matched(ProjectRange(project, start, end))
  {
    hide Holes, UnixNano;
    var ts := [FromUnixNano, Open];
    var a, b, c := Stmt(IN_PROJECT, [Str(project)]), Stmt(NOT_BEFORE, [Int(UnixNano(start))]),
                   Stmt(BEFORE, [Int(UnixNano(end))]);
    OneHole([Col(ProjectId), Eq], [], Str(project));
    assert [Col(ProjectId), Eq] + [Hole] + [] == IN_PROJECT;
    OneHole([Col(ObservedTimestamp), Ge] + ts, [Close], Int(UnixNano(start)));
    assert [Col(ObservedTimestamp), Ge] + ts + [Hole] + [Close] == NOT_BEFORE;
    OneHole([Col(ObservedTimestamp), Lt] + ts, [Close], Int(UnixNano(end)));
    assert [Col(ObservedTimestamp), Lt] + ts + [Hole] + [Close] == BEFORE;
    AndedMatched(c);
    AppendMatched(b, Anded(c));
    AndedMatched(Append(b, Anded(c)));
    AppendMatched(a, Anded(Append(b, Anded(c))));
  }

  lemma OrderMatched(newestFirst: bool, limit: int)
    ensures Matched(Stmt(OrderTokens(newestFirst), [Int(limit)]))
  {
    hide Holes;
    var lead := OrderTokens(newestFirst)[..4];
    assert lead + [Hole] + [] == OrderTokens(newestFirst);
    OneHole(lead, [], Int(limit));
  }

  lemma SelectMatched()
    ensures Matched(Stmt(LOGS_SELECT, []))
  {
    hide Holes;
    assert forall i :: 0 <= i < |LOGS_SELECT| ==> LOGS_SELECT[i] != Hole;
    NoHoles(LOGS_SELECT);
  }

  lemma LogsQueryIs(project: Text, q: LogQuery, where: Stmt)
    requires q.limit > 0
    requires where == Append(ProjectRange(project, q.start, q.end),
                             Append(MatchersWhere(q.matchers), FiltersWhere(q.filters)))
    ensures LogsQuery(project, q).value ==
            Append(Stmt(LOGS_SELECT, []), Append(where, Stmt(OrderTokens(q.newestFirst), [Int(q.limit)])))
  {
    hide ProjectRange, MatchersWhere, FiltersWhere, OrderTokens;
    var args := where.args + [Int(q.limit)];
    assert [] + args == args;
  }

  /** Every logs statement has as many holes as arguments. */
  lemma LogsQueryMatched(project: Text, q: LogQuery)
    requires q.limit > 0
    ensures Matched(LogsQuery(project, q).value)
  {
    hide Matched, ProjectRange, MatchersWhere, FiltersWhere, OrderTokens, Append, LogsQuery;
    var range, ms, fs := ProjectRange(project, q.start, q.end), MatchersWhere(q.matchers), FiltersWhere(q.filters);
    var where, order := Append(range, Append(ms, fs)), Stmt(OrderTokens(q.newestFirst), [Int(q.limit)]);
    RangeMatched(project, q.start, q.end);
    MatchersMatched(q.matchers);
    FiltersMatched(q.filters);
    AppendMatched(ms, fs);
    AppendMatched(range, Append(ms, fs));
    OrderMatched(q.newestFirst, q.limit);
    AppendMatched(where, order);
    SelectMatched();
    AppendMatched(Stmt(LOGS_SELECT, []), Append(where, order));
    LogsQueryIs(project, q, where);
  }

  /** So has every series statement. */
  lemma SeriesQueryMatched(project: Text, ms: seq<Matcher>, start: int, end: int)
    ensures Matched(SeriesQuery(project, ms, start, end))
  {
    NoHoles([Select]);
    NoHoles([FromLogs, Where]);
    NoHoles([GroupBy]);
    var select0, from, group := Stmt([Select], []), Stmt([FromLogs, Where], []), Stmt([GroupBy], []);
    var exprs, where := SeriesExprs(SERIES), Append(ProjectRange(project, start, end), MatchersWhere(ms));
    assert Matched(select0) && Matched(from) && Matched(group);
    hide Matched, ProjectRange, MatchersWhere, Append, SeriesExprs;
    SeriesExprsMatched(SERIES);
    RangeMatched(project, start, end);
    MatchersMatched(ms);
    AppendMatched(ProjectRange(project, start, end), MatchersWhere(ms));
    AppendMatched(from, where);
    AppendMatched(group, exprs);
    AppendMatched(Append(from, where), Append(group, exprs));
    AppendMatched(select0, exprs);
    AppendMatched(Append(select0, exprs), Append(Append(from, where), Append(group, exprs)));
  }

  lemma {:induction false} SeriesExprsMatched(names: seq<Text>)
    ensures Matched(SeriesExprs(names))
  {
    hide LabelExpr;
    if names != [] {
      LabelExprMatched(names[0]);
      if |names| > 1 {
        NoHoles([Comma]);
        AppendMatched(LabelExpr(names[0]), Stmt([Comma], []));
        SeriesExprsMatched(names[1..]);
        AppendMatched(Append(LabelExpr(names[0]), Stmt([Comma], [])), SeriesExprs(names[1..]));
      }
    }
  }
}
