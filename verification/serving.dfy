/**
 The read path end to end: from a stored table, through SQL, row labels, stream grouping and the
 client's merge, to the pages the CLI walks.
 */
module Serving {
  import opened Texts
  import opened Entries
  import opened Logql
  import opened Printing
  import opened Grammar
  import opened RoundTrip
  import opened Sql
  import opened QueryBuild
  import opened RowLabels
  import opened Streams
  import opened Paging
  import opened PagingExact
  import opened Arrangements
  import Decimal
  import Quoting

  function RowEntries(rows: seq<LogRow>): (r: seq<Entry>)
    ensures |r| == |rows| && forall i :: 0 <= i < |rows| ==> r[i] == RowEntry(rows[i])
  {
    seq(|rows|, i requires 0 <= i < |rows| => RowEntry(rows[i]))
  }

  /** The server's query for one request of the CLI. */
  function ServerQuery(s: Selector, q: Query): LogQuery {
    LogQuery(s.matchers, s.filters, q.start, q.end, q.limit, q.direction != Forward)
  }

  /** What the CLI receives when the database answers with `result`. */
  function Received(q: Query, result: seq<LogRow>): seq<Entry> {
    Delivered(q.direction, RowEntries(result))
  }

  // ---- Printed selector to rows --------------------------------------------------------------------------

  /**
   A selector the CLI prints, parsed by the server and compiled to SQL, is answered with exactly the rows
   that satisfy the selector the CLI built.
   */
  lemma SelectorToRows(eng: Engine, prints: Quoting.PrintTable, s: Selector, project: Text, q: Query,
                       table: seq<LogRow>, result: seq<LogRow>)
    requires s.matchers != [] && AllNamed(s.matchers) && Compiles(eng, s)
    requires q.limit > 0 && forall i :: 0 <= i < |table| ==> Storable(table[i])
    ensures Parse(eng, Render(prints, s)).Ok?
    ensures var parsed := Parse(eng, Render(prints, s)).value;
            var plan := ReadLogs(LogsQuery(project, ServerQuery(parsed, q)).value);
            && plan.Some? && plan.value.selected == SCANNED
            && (Yields(eng, plan.value, table, result) <==> Answers(eng, project, ServerQuery(s, q), table, result))
  {
    hide Parse, Render, Yields, Answers, ReadLogs, LogsQuery;
    ParseRender(eng, prints, s);
    ReadLogsQuery(project, ServerQuery(s, q));
    LogsQueryMeans(eng, project, ServerQuery(s, q), table, result);
  }

  // ---- Received pages are pages ----------------------------------------------------------------------------

  ghost predicate InRange(rows: seq<LogRow>) {
    forall i :: 0 <= i < |rows| ==> Decimal.InInt64(rows[i].ns)
  }

  lemma AnswerFacts(eng: Engine, project: Text, s: Selector, q: Query, table: seq<LogRow>, result: seq<LogRow>)
    requires q.limit > 0 && Answers(eng, project, ServerQuery(s, q), table, result)
    ensures Ordered(q.direction, RowEntries(result))
    ensures forall i :: 0 <= i < |result| ==> q.start <= result[i].ns < q.end && result[i] in table
  {
    hide Matches, LineMatches, LabelValue, Assembled;
    var sq := ServerQuery(s, q);
    var p := (row: LogRow) => Asked(eng, project, sq, row);
    FirstOfMembers(Filter(table, p), sq.newestFirst, sq.limit, result);
    FilterMembers(table, p);
    forall i | 0 <= i < |result| ensures q.start <= result[i].ns < q.end && result[i] in table {
      assert result[i] in result;
      assert p(result[i]);
    }
    ClimbOrdered(q.direction, RowEntries(result));
  }

  /**
   Whatever the database answers, the page the CLI receives lies in the asked window, in the asked order,
   and repeats no key if the rows do not: all that walking and following need of it.
   */
  lemma ReceivedIsPage(eng: Engine, project: Text, s: Selector, q: Query, table: seq<LogRow>, result: seq<LogRow>)
    requires q.limit > 0 && Answers(eng, project, ServerQuery(s, q), table, result) && InRange(result)
    requires DistinctKeys(RowEntries(result))
    ensures PageFor(q, Received(q, result))
  {
    hide Entries.Key, DistinctKeys, Delivered, Ordered, Answers, Assembled;
    var rows, page := RowEntries(result), Received(q, result);
    AnswerFacts(eng, project, s, q, table, result);
    DeliveredConserves(q.direction, rows, map[]);
    PermutedDistinct(rows, page);
    forall e | e in page ensures Second(q.start) <= Second(e.ns) && e.ns < q.end {
      assert e in multiset(page);
      assert e in rows;
      var i :| 0 <= i < |rows| && rows[i] == e;
      assert rows[i].ns == result[i].ns;
    }
  }

  // ---- With distinct times, received pages are the store's -------------------------------------------------

  /** The rows a selector wants of a project, whatever their time. */
  predicate Wanted(eng: Engine, project: Text, s: Selector, row: LogRow) {
    && row.project == project
    && (forall i :: 0 <= i < |s.matchers| ==> Matches(eng, s.matchers[i], LabelValue(row, s.matchers[i].name)))
    && (forall i :: 0 <= i < |s.filters| ==> LineMatches(eng, s.filters[i], row.body))
  }

  /** The lines behind a selector, as a store that honours its bounds exactly. */
  function StoreOf(eng: Engine, project: Text, s: Selector, table: seq<LogRow>): Server {
    Server(RowEntries(Filter(table, (row: LogRow) => Wanted(eng, project, s, row))), false)
  }

  ghost predicate TimesDistinct(t: seq<Entry>) {
    forall i, j :: 0 <= i < j < |t| ==> t[i].ns != t[j].ns
  }

  ghost predicate RowTimesDistinct(t: seq<LogRow>) {
    forall i, j :: 0 <= i < j < |t| ==> t[i].ns != t[j].ns
  }

  lemma AtTimeUnique(t: seq<Entry>, i: nat)
    requires TimesDistinct(t) && i < |t|
    ensures AtTime(t, t[i].ns) == [t[i]]
  {
    FilterStretch(t, i, i + 1, (e: Entry) => e.ns == t[i].ns);
    assert t[i..i + 1] == [t[i]];
  }

  /** Distinct times and an order leave only one arrangement of the same lines. */
  lemma OrderedUnique(dir: Direction, a: seq<Entry>, b: seq<Entry>)
    requires Ordered(dir, a) && Ordered(dir, b) && TimesDistinct(a) && TimesDistinct(b)
    requires forall e :: e in a <==> e in b
    ensures a == b
  {
    hide Ordered, AtTime;
    forall ns ensures AtTime(a, ns) == AtTime(b, ns) {
      if i :| 0 <= i < |a| && a[i].ns == ns {
        assert a[i] in b;
        var j :| 0 <= j < |b| && b[j] == a[i];
        AtTimeUnique(a, i);
        AtTimeUnique(b, j);
      } else {
        NoneAtTime(a, ns);
        forall e | e in b ensures e.ns != ns {
          assert e in a;
        }
        NoneAtTime(b, ns);
      }
    }
    OrderedByTimes(dir, a, b);
  }

  lemma Twice<T>(b: seq<T>, i: nat, j: nat)
    requires i < j < |b| && b[i] == b[j]
    ensures multiset(b)[b[i]] >= 2
  {
    assert b == b[..j] + [b[j]] + b[j + 1..];
    assert b[..j][i] == b[i];
    assert b[i] in multiset(b[..j]);
  }

  lemma Once<T>(a: seq<T>, x: nat, time: T -> int)
    requires x < |a| && forall i, j :: 0 <= i < j < |a| ==> time(a[i]) != time(a[j])
    ensures multiset(a)[a[x]] == 1
  {
    assert a == a[..x] + [a[x]] + a[x + 1..];
    assert a[x] !in a[..x] && a[x] !in a[x + 1..];
  }

  /** Rearranging lines with distinct times leaves the times distinct. */
  lemma PermutedTimes<T(!new)>(a: seq<T>, b: seq<T>, time: T -> int)
    requires multiset(a) == multiset(b) && forall i, j :: 0 <= i < j < |a| ==> time(a[i]) != time(a[j])
    ensures forall i, j :: 0 <= i < j < |b| ==> time(b[i]) != time(b[j])
  {
    forall i, j | 0 <= i < j < |b| ensures time(b[i]) != time(b[j]) {
      assert b[i] in multiset(b) && b[j] in multiset(b);
      var x :| 0 <= x < |a| && a[x] == b[i];
      var y :| 0 <= y < |a| && a[y] == b[j];
      Once(a, x, time);
      if b[i] == b[j] {
        Twice(b, i, j);
      }
    }
  }

  lemma {:induction false} RowEntriesFilter(rows: seq<LogRow>, p: LogRow -> bool, q: Entry -> bool)
    requires forall row :: row in rows ==> p(row) == q(RowEntry(row))
    ensures Filter(RowEntries(rows), q) == RowEntries(Filter(rows, p))
  {
    hide RowEntry;
    if rows != [] {
      RowEntriesFilter(rows[1..], p, q);
      assert RowEntries(rows)[1..] == RowEntries(rows[1..]);
      assert rows[0] in rows;
      if p(rows[0]) {
        assert RowEntries([rows[0]] + Filter(rows[1..], p)) == [RowEntry(rows[0])] + RowEntries(Filter(rows[1..], p));
      } else {
        assert Filter(rows, p) == Filter(rows[1..], p);
      }
    }
  }

  /** The store's lines in the window are the rows the request asks for. */
  lemma StoreWindow(eng: Engine, project: Text, s: Selector, q: Query, table: seq<LogRow>)
    ensures var store := StoreOf(eng, project, s, table);
            Filter(store.lines, (e: Entry) => Inside(store, q, e)) ==
            RowEntries(Filter(table, (row: LogRow) => Asked(eng, project, ServerQuery(s, q), row)))
  {
    hide Matches, LineMatches, LabelValue, Assembled, Filter;
    var store, wanted := StoreOf(eng, project, s, table), (row: LogRow) => Wanted(eng, project, s, row);
    var within := (row: LogRow) => q.start <= row.ns < q.end;
    RowEntriesFilter(Filter(table, wanted), within, (e: Entry) => Inside(store, q, e));
    FilterFilter(table, wanted, within, (row: LogRow) => Asked(eng, project, ServerQuery(s, q), row));
  }

  lemma RowEntriesMembers(rows: seq<LogRow>, e: Entry)
    ensures e in RowEntries(rows) <==> exists row :: row in rows && RowEntry(row) == e
  {
    hide RowEntry;
    if e in RowEntries(rows) {
      var i :| 0 <= i < |rows| && RowEntries(rows)[i] == e;
      assert rows[i] in rows;
    }
    if row :| row in rows && RowEntry(row) == e {
      var i :| 0 <= i < |rows| && rows[i] == row;
      assert RowEntries(rows)[i] == e;
    }
  }

  lemma PermutedEntries(a: seq<LogRow>, b: seq<LogRow>)
    requires multiset(a) == multiset(b)
    ensures forall e :: e in RowEntries(a) <==> e in RowEntries(b)
  {
    hide RowEntry, RowEntries;
    assert forall row :: row in a <==> row in multiset(a);
    assert forall row :: row in b <==> row in multiset(b);
    forall e ensures e in RowEntries(a) <==> e in RowEntries(b) {
      RowEntriesMembers(a, e);
      RowEntriesMembers(b, e);
    }
  }

  /** Any arrangement by time of the chosen rows is the store's window. */
  lemma ArrangementIsWindow(store: Server, q: Query, chosen: seq<LogRow>, all: seq<LogRow>)
    requires Filter(store.lines, (e: Entry) => Inside(store, q, e)) == RowEntries(chosen)
    requires multiset(all) == multiset(chosen) && InOrder(q.direction != Forward, all) && RowTimesDistinct(chosen)
    ensures RowEntries(all) == Window(store, q)
  {
    hide Filter, SortEntries, RowEntry, Ordered, Window;
    var a, w := RowEntries(all), Window(store, q);
    PermutedTimes(chosen, all, (row: LogRow) => row.ns);
    EntryTimes(all);
    EntryTimes(chosen);
    ClimbOrdered(q.direction, a);
    WindowOrdered(store, q);
    PermutedEntries(all, chosen);
    SameMembers(w, RowEntries(chosen));
    PermutedTimes(RowEntries(chosen), w, (e: Entry) => e.ns);
    OrderedUnique(q.direction, a, w);
  }

  lemma SameMembers<T>(a: seq<T>, b: seq<T>)
    requires multiset(a) == multiset(b)
    ensures forall x :: x in a <==> x in b
  {
    assert forall x :: x in a <==> x in multiset(a);
    assert forall x :: x in b <==> x in multiset(b);
  }

  lemma EntryTimes(rows: seq<LogRow>)
    ensures forall i :: 0 <= i < |rows| ==> RowEntries(rows)[i].ns == rows[i].ns
  {
  }

  lemma ArrangementReceived(store: Server, q: Query, chosen: seq<LogRow>, all: seq<LogRow>, result: seq<LogRow>)
    requires Filter(store.lines, (e: Entry) => Inside(store, q, e)) == RowEntries(chosen)
    requires multiset(all) == multiset(chosen) && InOrder(q.direction != Forward, all) && RowTimesDistinct(chosen)
    requires q.limit > 0 && result == Take(all, q.limit) && InRange(result) && Ordered(q.direction, RowEntries(result))
    ensures Received(q, result) == QueryRange(store, q)
  {
    hide Delivered, Filter, Window, Ordered, RowEntry;
    ArrangementIsWindow(store, q, chosen, all);
    PermutedTimes(chosen, all, (row: LogRow) => row.ns);
    assert RowEntries(result) == Take(RowEntries(all), q.limit);
    EntryTimes(result);
    ApartIfDistinct(result);
    DeliveredIsOriginal(q.direction, RowEntries(result));
  }

  /**
   When no two wanted rows of the window share a time, the whole read path answers a request exactly as
   an unchanging store with exact bounds does, so what is proved of walking such a store holds of it.
   */
  lemma ReceivedIsStorePage(eng: Engine, project: Text, s: Selector, q: Query, table: seq<LogRow>, result: seq<LogRow>)
    requires q.limit > 0 && Answers(eng, project, ServerQuery(s, q), table, result) && InRange(table)
    requires RowTimesDistinct(Filter(table, (row: LogRow) => Asked(eng, project, ServerQuery(s, q), row)))
    ensures Received(q, result) == QueryRange(StoreOf(eng, project, s, table), q)
  {
    hide Asked, Wanted, Filter, QueryRange, Ordered, StoreOf, RowEntries, InOrder, RowTimesDistinct;
    var sq := ServerQuery(s, q);
    var chosen := Filter(table, (row: LogRow) => Asked(eng, project, sq, row));
    AnswerFacts(eng, project, s, q, table, result);
    var all :| multiset(all) == multiset(chosen) && InOrder(sq.newestFirst, all) && result == Take(all, sq.limit);
    StoreWindow(eng, project, s, q, table);
    ArrangementReceived(StoreOf(eng, project, s, table), q, chosen, all, result);
  }

  // ---- Ties ------------------------------------------------------------------------------------------------

  lemma RowEntriesAppend(a: seq<LogRow>, b: seq<LogRow>)
    ensures RowEntries(a + b) == RowEntries(a) + RowEntries(b)
  {
    hide RowEntry;
  }

  lemma Cancel<T>(x: multiset<T>, y: multiset<T>, m: multiset<T>)
    requires x + m == y + m
    ensures x == y
  {
    assert x == x + m - m && y == y + m - m;
  }

  lemma WithoutOne<T>(b: seq<T>, j: nat)
    requires j < |b|
    ensures multiset(b) == multiset(b[..j] + b[j + 1..]) + multiset{b[j]}
  {
    assert b == b[..j] + [b[j]] + b[j + 1..];
  }

  lemma EntriesWithoutOne(b: seq<LogRow>, j: nat)
    requires j < |b|
    ensures multiset(RowEntries(b)) == multiset(RowEntries(b[..j] + b[j + 1..])) + multiset{RowEntry(b[j])}
  {
    hide RowEntry;
    var e := RowEntries(b);
    WithoutOne(e, j);
    assert e[..j] + e[j + 1..] == RowEntries(b[..j] + b[j + 1..]);
  }

  /** Permuted rows give permuted entries. */
  lemma {:induction false} EntriesPermute(a: seq<LogRow>, b: seq<LogRow>)
    requires multiset(a) == multiset(b)
    ensures multiset(RowEntries(a)) == multiset(RowEntries(b))
    decreases |a|
  {
    hide RowEntry, RowEntries;
    if a == [] {
      assert |b| == |multiset(b)| == 0;
    } else {
      assert a[0] in multiset(b);
      var j :| 0 <= j < |b| && b[j] == a[0];
      WithoutOne(a, 0);
      WithoutOne(b, j);
      EntriesWithoutOne(a, 0);
      EntriesWithoutOne(b, j);
      Cancel(multiset(a[..0] + a[0 + 1..]), multiset(b[..j] + b[j + 1..]), multiset{a[0]});
      EntriesPermute(a[..0] + a[0 + 1..], b[..j] + b[j + 1..]);
    }
  }

  /** A page and the rows cut off after it stand in time order, whatever the page's own order among ties. */
  lemma TailOrdered(dir: Direction, all: seq<LogRow>, n: nat, page: seq<Entry>)
    requires n <= |all| && InOrder(dir != Forward, all) && Ordered(dir, page)
    requires multiset(page) == multiset(RowEntries(all[..n]))
    ensures Ordered(dir, page + RowEntries(all[n..]))
  {
    hide RowEntry, Ordered;
    EntryTimes(all[..n]);
    EntryTimes(all[n..]);
    var rest := RowEntries(all[n..]);
    var s := page + rest;
    forall i, j | 0 <= i < j < |s| ensures !Before(dir, s[j], s[i]) {
      if j < |page| {
        OrderedAt(dir, page, i, j);
      } else if i < |page| {
        assert page[i] in multiset(page);
        assert page[i] in RowEntries(all[..n]);
        var k :| 0 <= k < n && RowEntries(all[..n])[k] == page[i];
        assert all[..n][k] == all[k] && all[n..][j - |page|] == all[n + j - |page|];
      } else {
        assert all[n..][i - |page|] == all[n + i - |page|] && all[n..][j - |page|] == all[n + j - |page|];
      }
    }
    ClimbOrdered(dir, s);
  }

  lemma PageAndRest(store: Server, q: Query, chosen: seq<LogRow>, all: seq<LogRow>, result: seq<LogRow>)
    requires Filter(store.lines, (e: Entry) => Inside(store, q, e)) == RowEntries(chosen)
    requires multiset(all) == multiset(chosen) && InOrder(q.direction != Forward, all)
    requires q.limit > 0 && result == Take(all, q.limit) && InRange(result) && Ordered(q.direction, RowEntries(result))
    ensures Arranged(store, q, Received(q, result))
  {
    hide Delivered, Filter, Window, Ordered, RowEntries, InOrder, Arrangement;
    var n, page := |result|, Received(q, result);
    var rest := RowEntries(all[n..]);
    assert result == all[..n];
    DeliveredConserves(q.direction, RowEntries(result), map[]);
    TailOrdered(q.direction, all, n, page);
    RestJoins(all, n, chosen, page);
    IsArrangement(store, q, chosen, page + rest);
    SameLength(page, RowEntries(result));
    EntriesLength(result);
    EntriesLength(all[n..]);
    TakeAll(page, rest, q.limit);
  }

  lemma IsArrangement(store: Server, q: Query, chosen: seq<LogRow>, s: seq<Entry>)
    requires Filter(store.lines, (e: Entry) => Inside(store, q, e)) == RowEntries(chosen)
    requires multiset(s) == multiset(RowEntries(chosen)) && Ordered(q.direction, s)
    ensures Arrangement(store, q, s)
  {
    hide Filter, Window, Ordered, RowEntries;
    WindowOrdered(store, q);
  }

  lemma RestJoins(all: seq<LogRow>, n: nat, chosen: seq<LogRow>, page: seq<Entry>)
    requires n <= |all| && multiset(all) == multiset(chosen) && multiset(page) == multiset(RowEntries(all[..n]))
    ensures multiset(page + RowEntries(all[n..])) == multiset(RowEntries(chosen))
  {
    hide RowEntries;
    assert all == all[..n] + all[n..];
    RowEntriesAppend(all[..n], all[n..]);
    EntriesPermute(all, chosen);
  }

  lemma SameLength<T>(a: seq<T>, b: seq<T>)
    requires multiset(a) == multiset(b)
    ensures |a| == |b|
  {
    assert |multiset(a)| == |a| && |multiset(b)| == |b|;
  }

  lemma TakeAll<T>(a: seq<T>, b: seq<T>, n: nat)
    requires |a| == n || (|a| < n && b == [])
    ensures Take(a + b, n) == a
  {
  }

  lemma EntriesLength(rows: seq<LogRow>)
    ensures |RowEntries(rows)| == |rows|
  {
  }

  /**
   Rows that share a time included, the whole read path answers a request with the window of an unchanging
   exact store in some order by time, cut at the limit: what walking such answers gives is proved for it.
   */
  lemma ReceivedIsArranged(eng: Engine, project: Text, s: Selector, q: Query, table: seq<LogRow>, result: seq<LogRow>)
    requires q.limit > 0 && Answers(eng, project, ServerQuery(s, q), table, result) && InRange(table)
    ensures Arranged(StoreOf(eng, project, s, table), q, Received(q, result))
  {
    hide Asked, Wanted, Filter, Ordered, StoreOf, RowEntries, InOrder, Arranged;
    var sq := ServerQuery(s, q);
    var chosen := Filter(table, (row: LogRow) => Asked(eng, project, sq, row));
    AnswerFacts(eng, project, s, q, table, result);
    var all :| multiset(all) == multiset(chosen) && InOrder(sq.newestFirst, all) && result == Take(all, sq.limit);
    StoreWindow(eng, project, s, q, table);
    PageAndRest(StoreOf(eng, project, s, table), q, chosen, all, result);
  }

  lemma ApartIfDistinct(rows: seq<LogRow>)
    requires RowTimesDistinct(rows)
    ensures TimesApart(RowEntries(rows))
  {
    hide Assembled;
    var t := RowEntries(rows);
    forall a, b | a in t && b in t && a.ns == b.ns ensures a.labels == b.labels {
      var i :| 0 <= i < |t| && t[i] == a;
      var j :| 0 <= j < |t| && t[j] == b;
    }
  }
}
