/**
 The ClickHouse statements the query layer builds: token sequences with positional holes, their
 argument lists, and a reader that binds the holes and gives the statement its meaning.
 */
module Sql {
  import opened Texts
  import opened Logql

  datatype Column = ProjectId | ObservedTimestamp | Body | ServiceName | SeverityText | TraceId | Labels

  datatype Token =
    | Hole | Col(column: Column)
    | Eq | Ne | Ge | Lt | Gt | Zero | Comma | Open | Close | OpenBracket | CloseBracket
    | And | Not | Match | Position | FromUnixNano | MapKeys | MapValues
    | Select | FromLogs | Where | OrderBy | GroupBy | Asc | Desc | Limit

  datatype Arg = Str(text: Text) | Int(number: int)

  datatype Stmt = Stmt(tokens: seq<Token>, args: seq<Arg>)

  function Holes(tokens: seq<Token>): nat {
    if tokens == [] then 0 else (if tokens[0] == Hole then 1 else 0) + Holes(tokens[1..])
  }

  // ---- Rows ------------------------------------------------------------------------------------------

  /** A stored row; `labels` is the Labels column, in its own order and with repeated keys kept. */
  datatype LogRow = LogRow(
    project: Text, ns: int, body: Text, service: Text, severity: Text, trace: Text, labels: seq<(Text, Text)>)

  /** Labels[k]: the first entry under `k`, or empty. */
  function Lookup(labels: seq<(Text, Text)>, k: Text): Text {
    if labels == [] then [] else if labels[0].0 == k then labels[0].1 else Lookup(labels[1..], k)
  }

  function ColumnText(row: LogRow, c: Column): Text {
    match c
    case ServiceName => row.service
    case SeverityText => row.severity
    case TraceId => row.trace
    case Body => row.body
    case ProjectId => row.project
    case _ => []
  }

  // ---- Reading statements ----------------------------------------------------------------------------

  datatype Expr = ColumnOf(column: Column) | LabelAt(key: Text)

  /** A condition with its arguments bound. */
  datatype Cond =
    | Equals(expr: Expr, value: Text)
    | Differs(expr: Expr, value: Text)
    | Finds(expr: Expr, pattern: Text)
    | FindsNot(expr: Expr, pattern: Text)
    | BodyHas(part: Text)
    | BodyLacks(part: Text)
    | NotBefore(bound: int)
    | Earlier(bound: int)

  function ExprText(row: LogRow, e: Expr): Text {
    match e
    case ColumnOf(c) => ColumnText(row, c)
    case LabelAt(k) => Lookup(row.labels, k)
  }

  predicate Holds(eng: Engine, row: LogRow, c: Cond) {
    match c
    case Equals(e, v) => ExprText(row, e) == v
    case Differs(e, v) => ExprText(row, e) != v
    case Finds(e, p) => eng.finds(p, ExprText(row, e))
    case FindsNot(e, p) => !eng.finds(p, ExprText(row, e))
    case BodyHas(part) => ContainsText(row.body, part)
    case BodyLacks(part) => !ContainsText(row.body, part)
    case NotBefore(n) => n <= row.ns
    case Earlier(n) => row.ns < n
  }

  predicate AllHold(eng: Engine, row: LogRow, cs: seq<Cond>) {
    forall i :: 0 <= i < |cs| ==> Holds(eng, row, cs[i])
  }

  /** Something read, and the tokens and arguments left. */
  datatype Read<+T> = Read(item: T, rest: Stmt)

  predicate StartsWith(s: Stmt, ts: seq<Token>) {
    ts <= s.tokens
  }

  function Drop(s: Stmt, n: nat): Stmt
    requires n <= |s.tokens|
  {
    s.(tokens := s.tokens[n..])
  }

  /** The next argument, bound to the hole just read. */
  function NextText(s: Stmt): Option<Text> {
    if s.args != [] && s.args[0].Str? then Some(s.args[0].text) else None
  }

  function NextInt(s: Stmt): Option<int> {
    if s.args != [] && s.args[0].Int? then Some(s.args[0].number) else None
  }

  function ReadExpr(s: Stmt): (r: Option<Read<Expr>>)
    ensures r.Some? ==> |r.value.rest.tokens| < |s.tokens|
  {
    if StartsWith(s, [Col(Labels), OpenBracket, Hole, CloseBracket]) && NextText(s).Some? then
      Some(Read(LabelAt(NextText(s).value), Stmt(s.tokens[4..], s.args[1..])))
    else if s.tokens != [] && s.tokens[0].Col? && s.tokens[0].column != Labels then
      Some(Read(ColumnOf(s.tokens[0].column), Drop(s, 1)))
    else None
  }

  /** `expr`, then the given tokens holding one hole bound to a text. */
  function ReadBinary(s: Stmt, tail: seq<Token>, make: (Expr, Text) -> Cond): (r: Option<Read<Cond>>)
    ensures r.Some? ==> |r.value.rest.tokens| < |s.tokens|
  {
    var e := ReadExpr(s);
    if e.None? || !StartsWith(e.value.rest, tail) || NextText(e.value.rest).None? then None
    else Some(Read(make(e.value.item, NextText(e.value.rest).value),
                   Stmt(e.value.rest.tokens[|tail|..], e.value.rest.args[1..])))
  }

  /** The observed time compared with a bound. */
  function ReadTime(s: Stmt): (r: Option<Read<Cond>>)
    ensures r.Some? ==> |r.value.rest.tokens| < |s.tokens|
  {
    if |s.tokens| < 6 || s.tokens[2..6] != [FromUnixNano, Open, Hole, Close] || NextInt(s).None? then None
    else
      var n, rest := NextInt(s).value, Stmt(s.tokens[6..], s.args[1..]);
      match s.tokens[1]
      case Ge => Some(Read(NotBefore(n), rest))
      case Lt => Some(Read(Earlier(n), rest))
      case _ => None
  }

  /** The position of a text in the body compared with zero. */
  function ReadPosition(s: Stmt): (r: Option<Read<Cond>>)
    ensures r.Some? ==> |r.value.rest.tokens| < |s.tokens|
  {
    if |s.tokens| < 8 || s.tokens[1..6] != [Open, Col(Body), Comma, Hole, Close] || s.tokens[7] != Zero
       || NextText(s).None?
    then None
    else
      var v, rest := NextText(s).value, Stmt(s.tokens[8..], s.args[1..]);
      match s.tokens[6]
      case Gt => Some(Read(BodyHas(v), rest))
      case Eq => Some(Read(BodyLacks(v), rest))
      case _ => None
  }

  function ReadCond(s: Stmt): (r: Option<Read<Cond>>)
    ensures r.Some? ==> |r.value.rest.tokens| < |s.tokens|
  {
    if s.tokens == [] then None
    else match s.tokens[0]
      case Open => ReadBinary(Drop(s, 1), [Ne, Hole, Close], (e, v) => Differs(e, v))
      case Match =>
        if StartsWith(s, [Match, Open])
        then ReadBinary(Drop(s, 2), [Comma, Hole, Close], (e, v) => Finds(e, v))
        else None
      case Not =>
        if StartsWith(s, [Not, Match, Open]) then ReadBinary(Drop(s, 3), [Comma, Hole, Close], (e, v) => FindsNot(e, v))
        else None
      case Position => ReadPosition(s)
      case Col(ObservedTimestamp) => ReadTime(s)
      case Col(_) => ReadBinary(s, [Eq, Hole], (e, v) => Equals(e, v))
      case _ => None
  }

  /** Conditions joined by AND. */
  function ReadWhere(s: Stmt): (r: Option<Read<seq<Cond>>>)
    decreases |s.tokens|
  {
    var c := ReadCond(s);
    if c.None? then None
    else if StartsWith(c.value.rest, [And]) then
      var more := ReadWhere(Drop(c.value.rest, 1));
      if more.None? then None else Some(Read([c.value.item] + more.value.item, more.value.rest))
    else Some(Read([c.value.item], c.value.rest))
  }

  /** One selected value: a column, or the keys or the values of the Labels column. */
  datatype Item = Plain(column: Column) | LabelKeys | LabelValues

  /** A value of a result row. */
  datatype Cell = TimeCell(ns: int) | TextCell(text: Text) | ListCell(texts: seq<Text>)

  function CellOf(row: LogRow, item: Item): Cell {
    match item
    case Plain(ObservedTimestamp) => TimeCell(row.ns)
    case Plain(c) => TextCell(ColumnText(row, c))
    case LabelKeys => ListCell(seq(|row.labels|, i requires 0 <= i < |row.labels| => row.labels[i].0))
    case LabelValues => ListCell(seq(|row.labels|, i requires 0 <= i < |row.labels| => row.labels[i].1))
  }

  /** The result row for a stored one, by position. */
  function CellsOf(row: LogRow, items: seq<Item>): seq<Cell> {
    seq(|items|, i requires 0 <= i < |items| => CellOf(row, items[i]))
  }

  function ReadItem(s: Stmt): (r: Option<Read<Item>>)
    ensures r.Some? ==> |r.value.rest.tokens| < |s.tokens|
  {
    if StartsWith(s, [MapKeys, Open, Col(Labels), Close]) then Some(Read(LabelKeys, Drop(s, 4)))
    else if StartsWith(s, [MapValues, Open, Col(Labels), Close]) then Some(Read(LabelValues, Drop(s, 4)))
    else if s.tokens != [] && s.tokens[0].Col? then Some(Read(Plain(s.tokens[0].column), Drop(s, 1)))
    else None
  }

  /** Selected values separated by commas. */
  function ReadItems(s: Stmt): (r: Option<Read<seq<Item>>>)
    decreases |s.tokens|
  {
    var e := ReadItem(s);
    if e.None? then None
    else if StartsWith(e.value.rest, [Comma]) then
      var more := ReadItems(Drop(e.value.rest, 1));
      if more.None? then None else Some(Read([e.value.item] + more.value.item, more.value.rest))
    else Some(Read([e.value.item], e.value.rest))
  }

  /** A statement over log rows: what of them, which, in which order, how many. */
  datatype LogsPlan = LogsPlan(selected: seq<Item>, conds: seq<Cond>, newestFirst: bool, limit: int)

  function ReadLogs(s: Stmt): (r: Option<LogsPlan>) {
    if !StartsWith(s, [Select]) then None
    else
      var e := ReadItems(Drop(s, 1));
      if e.None? || !StartsWith(e.value.rest, [FromLogs, Where]) then None
      else
        var w := ReadWhere(Drop(e.value.rest, 2));
        if w.None? then None
        else
          var rest := w.value.rest;
          var down := StartsWith(rest, [OrderBy, Col(ObservedTimestamp), Desc, Limit, Hole]);
          if !down && !StartsWith(rest, [OrderBy, Col(ObservedTimestamp), Asc, Limit, Hole]) then None
          else if |rest.tokens| != 5 || |rest.args| != 1 || NextInt(rest).None? then None
          else Some(LogsPlan(e.value.item, w.value.item, down, NextInt(rest).value))
  }

  /** Expressions separated by commas. */
  function ReadExprs(s: Stmt): (r: Option<Read<seq<Expr>>>)
    decreases |s.tokens|
  {
    var e := ReadExpr(s);
    if e.None? then None
    else if StartsWith(e.value.rest, [Comma]) then
      var more := ReadExprs(Drop(e.value.rest, 1));
      if more.None? then None else Some(Read([e.value.item] + more.value.item, more.value.rest))
    else Some(Read([e.value.item], e.value.rest))
  }

  datatype SeriesPlan = SeriesPlan(selected: seq<Expr>, conds: seq<Cond>, grouped: seq<Expr>)

  function ReadSeries(s: Stmt): (r: Option<SeriesPlan>) {
    if !StartsWith(s, [Select]) then None
    else
      var e := ReadExprs(Drop(s, 1));
      if e.None? || !StartsWith(e.value.rest, [FromLogs, Where]) then None
      else
        var w := ReadWhere(Drop(e.value.rest, 2));
        if w.None? || !StartsWith(w.value.rest, [GroupBy]) then None
        else
          var g := ReadExprs(Drop(w.value.rest, 1));
          if g.None? || g.value.rest != Stmt([], []) then None
          else Some(SeriesPlan(e.value.item, w.value.item, g.value.item))
  }
}
