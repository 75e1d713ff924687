/**
 Rows grouped into streams by the server, then flattened and merged back by the client: nothing is
 lost, each stream keeps its order, and the merge restores the time order.
 */
module Streams {
  import opened Texts
  import opened Entries
  import opened LabelKey
  import Decimal

  /** A Loki stream: one label set, and its lines as decimal nanoseconds and text. */
  datatype Stream = Stream(labels: map<Text, Text>, values: seq<(Text, Text)>)

  function Value(row: Entry): (Text, Text) {
    (Decimal.OfInt(row.ns), row.line)
  }

  /** Where `labels` stands among the streams, or their number. */
  function IndexOf(streams: seq<Stream>, labels: map<Text, Text>): (i: nat)
    ensures i <= |streams| && (i < |streams| ==> streams[i].labels == labels)
    ensures forall j :: 0 <= j < i ==> streams[j].labels != labels
  {
    if streams == [] || streams[0].labels == labels then 0 else 1 + IndexOf(streams[1..], labels)
  }

  function AddRow(streams: seq<Stream>, row: Entry): (r: seq<Stream>) {
    if streams == [] then [Stream(row.labels, [Value(row)])]
    else if streams[0].labels == row.labels then
      [Stream(row.labels, streams[0].values + [Value(row)])] + streams[1..]
    else [streams[0]] + AddRow(streams[1..], row)
  }

  function Collect(streams: seq<Stream>, rows: seq<Entry>): (r: seq<Stream>)
    decreases |rows|
  {
    if rows == [] then streams else Collect(AddRow(streams, rows[0]), rows[1..])
  }

  lemma {:induction false} AddRowAt(streams: seq<Stream>, row: Entry)
    ensures var i := IndexOf(streams, row.labels);
            AddRow(streams, row) ==
            if i == |streams| then streams + [Stream(row.labels, [Value(row)])]
            else streams[i := Stream(row.labels, streams[i].values + [Value(row)])]
  {
    if streams != [] && streams[0].labels != row.labels {
      AddRowPast(streams, row);
      hide Value, AddRow, IndexOf;
      var rest, i := streams[1..], IndexOf(streams[1..], row.labels);
      AddRowAt(rest, row);
      assert streams == [streams[0]] + rest;
      if i < |rest| {
        UpdateRest(streams[0], rest, i, Stream(row.labels, rest[i].values + [Value(row)]));
      } else {
        Regroup([streams[0]], rest, [Stream(row.labels, [Value(row)])]);
      }
    }
  }

  lemma AddRowPast(streams: seq<Stream>, row: Entry)
    requires streams != [] && streams[0].labels != row.labels
    ensures AddRow(streams, row) == [streams[0]] + AddRow(streams[1..], row)
    ensures IndexOf(streams, row.labels) == 1 + IndexOf(streams[1..], row.labels)
  {
    hide Value;
  }

  lemma UpdateRest<T>(x: T, rest: seq<T>, i: nat, v: T)
    requires i < |rest|
    ensures ([x] + rest)[1 + i := v] == [x] + rest[i := v]
  {
  }

  predicate DistinctStreams(streams: seq<Stream>) {
    forall i, j :: 0 <= i < j < |streams| ==> streams[i].labels != streams[j].labels
  }

  /** The index the loop keeps: each stream's key leads to it, and nothing else is there. */
  ghost predicate Indexed(streams: seq<Stream>, byKey: map<Text, nat>) {
    && (forall i :: 0 <= i < |streams| ==> KeyOf(streams[i].labels) in byKey && byKey[KeyOf(streams[i].labels)] == i)
    && (forall k :: k in byKey ==> byKey[k] < |streams| && KeyOf(streams[byKey[k]].labels) == k)
  }

  lemma IndexedFinds(streams: seq<Stream>, byKey: map<Text, nat>, labels: map<Text, Text>)
    requires Indexed(streams, byKey)
    ensures KeyOf(labels) in byKey ==> byKey[KeyOf(labels)] == IndexOf(streams, labels) < |streams|
    ensures KeyOf(labels) !in byKey ==> IndexOf(streams, labels) == |streams|
  {
    hide KeyOf;
    var i := IndexOf(streams, labels);
    if KeyOf(labels) in byKey {
      var j := byKey[KeyOf(labels)];
      KeyInjective(streams[j].labels, labels);
    }
  }

  /** collectStreams: rows grouped by encoded label key, in order of first appearance. */
  method CollectStreams(rows: seq<Entry>) returns (result: seq<Stream>)
    ensures result == Collect([], rows)
  {
    hide KeyOf, Value, AddRow;
    result := [];
    var byKey: map<Text, nat> := map[];
    for n := 0 to |rows|
      invariant Indexed(result, byKey)
      invariant Collect([], rows) == Collect(result, rows[n..])
    {
      var row := rows[n];
      assert rows[n..][0] == row && rows[n..][1..] == rows[n + 1..];
      var key := LabelKey.Key(row.labels);
      IndexedFinds(result, byKey, row.labels);
      AddRowAt(result, row);
      var i;
      ghost var before := result;
      if key in byKey {
        i := byKey[key];
      } else {
        i := |result|;
        byKey := byKey[key := i];
        result := result + [Stream(row.labels, [])];
      }
      result := result[i := result[i].(values := result[i].values + [Value(row)])];
      assert result == AddRow(before, row) by {
        assert [] + [Value(row)] == [Value(row)];
      }
    }
  }

  // ---- Flattening on the client ------------------------------------------------------------------------

  /** The lines of one stream; a value whose time does not parse is skipped. */
  function Lines(labels: map<Text, Text>, values: seq<(Text, Text)>): (r: seq<Entry>) {
    if values == [] then []
    else
      (match Decimal.ParseInt(values[0].0)
       case Some(ns) => [Entry(ns, labels, values[0].1)]
       case None => []) + Lines(labels, values[1..])
  }

  function Flatten(streams: seq<Stream>): (r: seq<Entry>) {
    if streams == [] then [] else Lines(streams[0].labels, streams[0].values) + Flatten(streams[1..])
  }

  /** QueryRange after decoding: every stream's lines, then the stable sort. */
  function Merged(dir: Direction, streams: seq<Stream>): (r: seq<Entry>) {
    SortEntries(dir, Flatten(streams))
  }

  method MergeStreams(dir: Direction, streams: seq<Stream>) returns (entries: seq<Entry>)
    ensures entries == Merged(dir, streams)
  {
    entries := [];
    for i := 0 to |streams|
      invariant entries + Flatten(streams[i..]) == Flatten(streams)
    {
      assert streams[i..][0] == streams[i] && streams[i..][1..] == streams[i + 1..];
      var lines := StreamLines(streams[i]);
      Regroup(entries, lines, Flatten(streams[i + 1..]));
      entries := entries + lines;
    }
    assert entries + [] == entries;
    entries := SortEntries(dir, entries);
  }

  method StreamLines(s: Stream) returns (lines: seq<Entry>)
    ensures lines == Lines(s.labels, s.values)
  {
    hide Decimal.ParseInt;
    lines := [];
    for i := 0 to |s.values|
      invariant lines + Lines(s.labels, s.values[i..]) == Lines(s.labels, s.values)
    {
      assert s.values[i..][0] == s.values[i] && s.values[i..][1..] == s.values[i + 1..];
      var ns := Decimal.ParseInt(s.values[i].0);
      if ns.Some? {
        Regroup(lines, [Entry(ns.value, s.labels, s.values[i].1)], Lines(s.labels, s.values[i + 1..]));
        lines := lines + [Entry(ns.value, s.labels, s.values[i].1)];
      } else {
        assert [] + Lines(s.labels, s.values[i + 1..]) == Lines(s.labels, s.values[i + 1..]);
      }
    }
    assert lines + [] == lines;
  }

  // ---- Conservation ---------------------------------------------------------------------------------------

  lemma {:induction false} LinesSnoc(labels: map<Text, Text>, values: seq<(Text, Text)>, row: Entry)
    requires row.labels == labels && Decimal.InInt64(row.ns)
    ensures Lines(labels, values + [Value(row)]) == Lines(labels, values) + [row]
    decreases |values|
  {
    if values == [] {
      Decimal.IntRoundTrip(row.ns);
      assert (values + [Value(row)])[0] == Value(row) && (values + [Value(row)])[1..] == [];
      assert Lines(labels, []) == [] && [row] + [] == [row];
    } else {
      hide Decimal.ParseInt, Value;
      assert (values + [Value(row)])[0] == values[0] && (values + [Value(row)])[1..] == values[1..] + [Value(row)];
      LinesSnoc(labels, values[1..], row);
      var head := match Decimal.ParseInt(values[0].0)
                  case Some(ns) => [Entry(ns, labels, values[0].1)]
                  case None => [];
      Regroup(head, Lines(labels, values[1..]), [row]);
    }
  }

  function Among(s: seq<Entry>, labels: map<Text, Text>): seq<Entry> {
    Filter(s, (e: Entry) => e.labels == labels)
  }

  lemma {:induction false} LinesLabels(labels: map<Text, Text>, values: seq<(Text, Text)>)
    ensures forall e :: e in Lines(labels, values) ==> e.labels == labels
  {
    hide Decimal.ParseInt;
    if values != [] {
      LinesLabels(labels, values[1..]);
    }
  }

  lemma {:induction false} AmongOthers(streams: seq<Stream>, labels: map<Text, Text>)
    requires forall i :: 0 <= i < |streams| ==> streams[i].labels != labels
    ensures Among(Flatten(streams), labels) == []
  {
    if streams != [] {
      hide Lines, Filter;
      var head := Lines(streams[0].labels, streams[0].values);
      LinesLabels(streams[0].labels, streams[0].values);
      AmongOthers(streams[1..], labels);
      FilterAppend(head, Flatten(streams[1..]), (e: Entry) => e.labels == labels);
      FilterNone(head, (e: Entry) => e.labels == labels);
    } else {
      assert Flatten(streams) == [];
    }
  }

  lemma FlattenCons(s: Stream, rest: seq<Stream>)
    ensures Flatten([s] + rest) == Lines(s.labels, s.values) + Flatten(rest)
  {
    assert ([s] + rest)[0] == s && ([s] + rest)[1..] == rest;
  }

  lemma AmongAppend(a: seq<Entry>, b: seq<Entry>, labels: map<Text, Text>)
    ensures Among(a + b, labels) == Among(a, labels) + Among(b, labels)
  {
    FilterAppend(a, b, (e: Entry) => e.labels == labels);
  }

  lemma AmongOne(row: Entry, labels: map<Text, Text>)
    ensures Among([row], labels) == if row.labels == labels then [row] else []
  {
    assert [row] == [row] + [];
    FilterCons(row, [], (e: Entry) => e.labels == labels);
  }

  /** `after` is `before` with `row` appended to its own stream and every other stream untouched. */
  ghost predicate Gains(before: seq<Entry>, after: seq<Entry>, row: Entry, labels: map<Text, Text>) {
    && Among(after, labels) == Among(before, labels) + Among([row], labels)
    && multiset(after) == multiset(before) + multiset{row}
  }

  lemma GainsFirst(head: seq<Entry>, tail: seq<Entry>, row: Entry, labels: map<Text, Text>)
    requires row.labels == labels ==> Among(tail, labels) == []
    ensures Gains(head + tail, head + [row] + tail, row, labels)
  {
    hide Among;
    AmongAppend(head, tail, labels);
    AmongAppend(head + [row], tail, labels);
    AmongAppend(head, [row], labels);
    AmongOne(row, labels);
  }

  lemma GainsRest(head: seq<Entry>, before: seq<Entry>, after: seq<Entry>, row: Entry, labels: map<Text, Text>)
    requires Gains(before, after, row, labels)
    ensures Gains(head + before, head + after, row, labels)
  {
    hide Among;
    AmongAppend(head, before, labels);
    AmongAppend(head, after, labels);
    Regroup(Among(head, labels), Among(before, labels), Among([row], labels));
  }

  lemma {:induction false} AddRowGains(streams: seq<Stream>, row: Entry, labels: map<Text, Text>)
    requires DistinctStreams(streams) && Decimal.InInt64(row.ns)
    ensures Gains(Flatten(streams), Flatten(AddRow(streams, row)), row, labels)
  {
    hide Value, Lines, Among, Gains, Flatten;
    NothingInNothing(row.labels, labels);
    if streams == [] {
      LinesSnoc(row.labels, [], row);
      assert [] + [Value(row)] == [Value(row)];
      FlattenCons(Stream(row.labels, [Value(row)]), []);
      GainsFirst([], [], row, labels);
      assert [Stream(row.labels, [Value(row)])] + [] == [Stream(row.labels, [Value(row)])];
      assert [] + [] == Flatten(streams);
    } else {
      var first, rest := streams[0], streams[1..];
      var head := Lines(first.labels, first.values);
      assert streams == [first] + rest;
      FlattenCons(first, rest);
      if first.labels == row.labels {
        LinesSnoc(row.labels, first.values, row);
        FlattenCons(Stream(row.labels, first.values + [Value(row)]), rest);
        if row.labels == labels {
          AmongOthers(rest, labels);
        }
        GainsFirst(head, Flatten(rest), row, labels);
      } else {
        AddRowGains(rest, row, labels);
        FlattenCons(first, AddRow(rest, row));
        GainsRest(head, Flatten(rest), Flatten(AddRow(rest, row)), row, labels);
      }
    }
  }

  lemma NothingInNothing(mine: map<Text, Text>, labels: map<Text, Text>)
    ensures Lines(mine, []) == [] && Flatten([]) == [] && Among([], labels) == []
  {
  }

  lemma AddRowDistinct(streams: seq<Stream>, row: Entry)
    requires DistinctStreams(streams)
    ensures DistinctStreams(AddRow(streams, row))
  {
    hide Value, AddRow;
    AddRowAt(streams, row);
  }

  /** Grouping keeps each stream's rows in order and every row exactly once. */
  lemma {:induction false} CollectConserves(streams: seq<Stream>, rows: seq<Entry>, labels: map<Text, Text>)
    requires DistinctStreams(streams) && forall i :: 0 <= i < |rows| ==> Decimal.InInt64(rows[i].ns)
    ensures var r := Collect(streams, rows);
            && DistinctStreams(r)
            && Among(Flatten(r), labels) == Among(Flatten(streams), labels) + Among(rows, labels)
            && multiset(Flatten(r)) == multiset(Flatten(streams)) + multiset(rows)
    decreases |rows|
  {
    hide Among, AddRow, DistinctStreams, Flatten;
    if rows == [] {
      NothingInNothing(labels, labels);
      assert Among(Flatten(streams), labels) + [] == Among(Flatten(streams), labels);
    } else {
      var row, rest := rows[0], rows[1..];
      assert rows == [row] + rest;
      AddRowGains(streams, row, labels);
      AddRowDistinct(streams, row);
      CollectConserves(AddRow(streams, row), rest, labels);
      AmongAppend([row], rest, labels);
      Regroup(Among(Flatten(streams), labels), Among([row], labels), Among(rest, labels));
    }
  }

  /** What the client ends up with for the rows the server grouped. */
  function Delivered(dir: Direction, rows: seq<Entry>): seq<Entry> {
    Merged(dir, Collect([], rows))
  }

  /**
   Grouping then merging gives a permutation of the rows, ordered by time, in which every stream keeps
   the order its rows came in.
   */
  lemma DeliveredConserves(dir: Direction, rows: seq<Entry>, labels: map<Text, Text>)
    requires Ordered(dir, rows) && forall i :: 0 <= i < |rows| ==> Decimal.InInt64(rows[i].ns)
    ensures Ordered(dir, Delivered(dir, rows)) && multiset(Delivered(dir, rows)) == multiset(rows)
    ensures Among(Delivered(dir, rows), labels) == Among(rows, labels)
  {
    hide Ordered, Among, Collect, Flatten;
    var flat := Flatten(Collect([], rows));
    CollectConserves([], rows, labels);
    NothingInNothing(labels, labels);
    assert [] + Among(rows, labels) == Among(rows, labels);
    SortIsOrderedPermutation(dir, flat);
    AmongSorted(dir, flat, rows, labels);
  }

  lemma AmongSorted(dir: Direction, flat: seq<Entry>, rows: seq<Entry>, labels: map<Text, Text>)
    requires Among(flat, labels) == Among(rows, labels) && Ordered(dir, rows)
    ensures Among(SortEntries(dir, flat), labels) == Among(rows, labels)
  {
    hide Ordered, Filter, SortEntries;
    var p := (e: Entry) => e.labels == labels;
    SortFilter(dir, flat, p);
    FilterOrdered(dir, rows, p);
    SortOfOrdered(dir, Among(rows, labels));
  }

  // ---- The original sequence ---------------------------------------------------------------------------

  function AtTime(s: seq<Entry>, ns: int): seq<Entry> {
    Filter(s, (e: Entry) => e.ns == ns)
  }

  lemma AtTimeCons(e: Entry, s: seq<Entry>, ns: int)
    ensures AtTime([e] + s, ns) == if e.ns == ns then [e] + AtTime(s, ns) else AtTime(s, ns)
  {
    FilterCons(e, s, (x: Entry) => x.ns == ns);
  }

  lemma AtTimeMember(s: seq<Entry>, e: Entry)
    requires AtTime(s, e.ns) != [] || e in s
    ensures AtTime(s, e.ns) != [] && exists x :: x in s && x.ns == e.ns
  {
    FilterMembers(s, (x: Entry) => x.ns == e.ns);
    if AtTime(s, e.ns) != [] {
      assert AtTime(s, e.ns)[0] in AtTime(s, e.ns);
    }
  }

  lemma AtTimeHead(s: seq<Entry>)
    requires s != []
    ensures AtTime(s, s[0].ns) != [] && AtTime(s, s[0].ns)[0] == s[0]
  {
    hide AtTime;
    assert s == [s[0]] + s[1..];
    AtTimeCons(s[0], s[1..], s[0].ns);
  }

  lemma SameStart(dir: Direction, a: seq<Entry>, b: seq<Entry>)
    requires Ordered(dir, a) && Ordered(dir, b) && a != [] && b != []
    requires forall ns :: AtTime(a, ns) == AtTime(b, ns)
    ensures a[0] == b[0]
  {
    hide AtTime;
    AtTimeHead(a);
    AtTimeHead(b);
    assert AtTime(b, a[0].ns) != [] && AtTime(a, b[0].ns) != [];
    StartsFirst(dir, a, b[0]);
    StartsFirst(dir, b, a[0]);
  }

  /** A sequence with a line at the time of `e` does not start after it. */
  lemma StartsFirst(dir: Direction, s: seq<Entry>, e: Entry)
    requires Ordered(dir, s) && s != [] && AtTime(s, e.ns) != []
    ensures !Before(dir, e, s[0])
  {
    hide AtTime;
    AtTimeMember(s, e);
    var x :| x in s && x.ns == e.ns;
    var i :| 0 <= i < |s| && s[i] == x;
    OrderedAt(dir, s, 0, i);
  }

  /** Time order and the order within each time determine a sequence. */
  lemma {:induction false} OrderedByTimes(dir: Direction, a: seq<Entry>, b: seq<Entry>)
    requires Ordered(dir, a) && Ordered(dir, b)
    requires forall ns :: AtTime(a, ns) == AtTime(b, ns)
    ensures a == b
    decreases |a|
  {
    hide AtTime;
    if a == [] || b == [] {
      if b != [] { AtTimeMember(b, b[0]); EmptyAtTime(b[0].ns); }
      if a != [] { AtTimeMember(a, a[0]); EmptyAtTime(a[0].ns); }
    } else {
      SameStart(dir, a, b);
      assert a == [a[0]] + a[1..] && b == [b[0]] + b[1..];
      forall ns ensures AtTime(a[1..], ns) == AtTime(b[1..], ns) {
        AtTimeCons(a[0], a[1..], ns);
        AtTimeCons(b[0], b[1..], ns);
        if a[0].ns == ns {
          assert AtTime(a, ns)[1..] == AtTime(a[1..], ns);
          assert AtTime(b, ns)[1..] == AtTime(b[1..], ns);
        }
      }
      OrderedByTimes(dir, a[1..], b[1..]);
    }
  }

  lemma EmptyAtTime(ns: int)
    ensures AtTime([], ns) == []
  {
  }

  /** The stable sort leaves the lines of one time as they were. */
  lemma AtTimeSorted(dir: Direction, s: seq<Entry>, ns: int)
    ensures AtTime(SortEntries(dir, s), ns) == AtTime(s, ns)
  {
    hide SortEntries;
    var p := (e: Entry) => e.ns == ns;
    SortFilter(dir, s, p);
    FilterMembers(s, p);
    hide Filter;
    SameTimeOrdered(dir, Filter(s, p), ns);
    SortOfOrdered(dir, Filter(s, p));
  }

  lemma {:induction false} SameTimeOrdered(dir: Direction, s: seq<Entry>, ns: int)
    requires forall e :: e in s ==> e.ns == ns
    ensures Ordered(dir, s)
  {
    if s != [] {
      assert s[0] in s && forall e :: e in s[1..] ==> e in s;
      SameTimeOrdered(dir, s[1..], ns);
    }
  }

  lemma NoneAtTime(s: seq<Entry>, ns: int)
    requires forall e :: e in s ==> e.ns != ns
    ensures AtTime(s, ns) == []
  {
    FilterNone(s, (e: Entry) => e.ns == ns);
  }

  // ---- Exactly when -------------------------------------------------------------------------------------

  /** Where a stream first appears among the rows, or their number. */
  function Rank(rows: seq<Entry>, labels: map<Text, Text>): (k: nat) {
    if rows == [] || rows[0].labels == labels then 0 else 1 + Rank(rows[1..], labels)
  }

  lemma {:induction false} RankFacts(rows: seq<Entry>, labels: map<Text, Text>)
    ensures var k := Rank(rows, labels);
            && k <= |rows| && (k < |rows| ==> rows[k].labels == labels)
            && forall i :: 0 <= i < k ==> rows[i].labels != labels
  {
    if rows != [] && rows[0].labels != labels {
      RankFacts(rows[1..], labels);
      assert forall i :: 0 < i < |rows| ==> rows[i] == rows[1..][i - 1];
    }
  }

  /** Rows that share a time stand in the order in which their streams first appear. */
  ghost predicate TiesInOrder(rows: seq<Entry>) {
    forall i, j :: 0 <= i < j < |rows| && rows[i].ns == rows[j].ns ==>
      Rank(rows, rows[i].labels) <= Rank(rows, rows[j].labels)
  }

  function StreamLabels(streams: seq<Stream>): (r: seq<map<Text, Text>>)
    ensures |r| == |streams| && forall i :: 0 <= i < |r| ==> r[i] == streams[i].labels
  {
    seq(|streams|, i requires 0 <= i < |streams| => streams[i].labels)
  }

  /** Adding a row keeps the streams' label sets, and appends its own if it is new. */
  lemma AddRowLabels(streams: seq<Stream>, row: Entry)
    ensures var ls := StreamLabels(streams);
            StreamLabels(AddRow(streams, row)) == if row.labels in ls then ls else ls + [row.labels]
  {
    AddRowAt(streams, row);
    hide Value, AddRow, IndexOf;
    var at, ls := IndexOf(streams, row.labels), StreamLabels(streams);
    assert row.labels in ls <==> at < |streams| by {
      assert at < |streams| ==> ls[at] == row.labels;
    }
  }

  /** The label sets of the first `n` rows, all of them, in order of first appearance. */
  ghost predicate Ranked(rows: seq<Entry>, n: nat, ls: seq<map<Text, Text>>) {
    && (forall i :: 0 <= i < |ls| ==> Rank(rows, ls[i]) < n)
    && (forall i, j :: 0 <= i < j < |ls| ==> Rank(rows, ls[i]) < Rank(rows, ls[j]))
    && (forall k :: 0 <= k < n && k < |rows| ==> rows[k].labels in ls)
  }

  lemma NewRank(rows: seq<Entry>, n: nat, ls: seq<map<Text, Text>>)
    requires n < |rows| && Ranked(rows, n, ls) && rows[n].labels !in ls
    ensures Rank(rows, rows[n].labels) == n
  {
    hide Rank;
    RankFacts(rows, rows[n].labels);
  }

  lemma RankedStep(rows: seq<Entry>, n: nat, ls: seq<map<Text, Text>>)
    requires n < |rows| && Ranked(rows, n, ls)
    ensures Ranked(rows, n + 1, if rows[n].labels in ls then ls else ls + [rows[n].labels])
  {
    hide Rank;
    if rows[n].labels !in ls {
      NewRank(rows, n, ls);
      var more := ls + [rows[n].labels];
      assert forall i :: 0 <= i < |ls| ==> more[i] == ls[i];
      assert more[|ls|] == rows[n].labels;
    }
  }

  lemma {:induction false} CollectRanked(rows: seq<Entry>, n: nat, streams: seq<Stream>)
    requires n <= |rows| && Ranked(rows, n, StreamLabels(streams))
    ensures Ranked(rows, |rows|, StreamLabels(Collect(streams, rows[n..])))
    decreases |rows| - n
  {
    hide AddRow, Ranked, StreamLabels;
    if n < |rows| {
      assert rows[n..][0] == rows[n] && rows[n..][1..] == rows[n + 1..];
      RankedStep(rows, n, StreamLabels(streams));
      AddRowLabels(streams, rows[n]);
      CollectRanked(rows, n + 1, AddRow(streams, rows[n]));
    }
  }

  /** Lines stand in the order in which their streams first appear among the rows. */
  ghost predicate RankUp(rows: seq<Entry>, s: seq<Entry>) {
    forall i, j :: 0 <= i < j < |s| ==> Rank(rows, s[i].labels) <= Rank(rows, s[j].labels)
  }

  lemma RankUpAppend(rows: seq<Entry>, a: seq<Entry>, b: seq<Entry>, r: int)
    requires (forall e :: e in a ==> Rank(rows, e.labels) == r) && (forall e :: e in b ==> r <= Rank(rows, e.labels))
    requires RankUp(rows, b)
    ensures RankUp(rows, a + b)
  {
    hide Rank;
    var s := a + b;
    assert forall i :: 0 <= i < |a| ==> s[i] in a;
    assert forall i :: |a| <= i < |s| ==> s[i] == b[i - |a|] && s[i] in b;
  }

  lemma {:induction false} FlattenRankUp(rows: seq<Entry>, streams: seq<Stream>)
    requires forall i, j :: 0 <= i < j < |streams| ==> Rank(rows, streams[i].labels) < Rank(rows, streams[j].labels)
    ensures RankUp(rows, Flatten(streams))
    ensures forall e :: e in Flatten(streams) ==> exists i :: 0 <= i < |streams| && streams[i].labels == e.labels
  {
    hide Rank, Lines, RankUp;
    if streams == [] {
      NoneRankUp(rows);
    } else {
      var head, rest := streams[0], streams[1..];
      LinesLabels(head.labels, head.values);
      FlattenRankUp(rows, rest);
      forall e | e in Flatten(rest) ensures Rank(rows, head.labels) <= Rank(rows, e.labels) {
        var i :| 0 <= i < |rest| && rest[i].labels == e.labels;
        assert streams[i + 1] == rest[i];
      }
      RankUpAppend(rows, Lines(head.labels, head.values), Flatten(rest), Rank(rows, head.labels));
      forall e | e in Flatten(streams) ensures exists i :: 0 <= i < |streams| && streams[i].labels == e.labels {
        if e in Flatten(rest) {
          var i :| 0 <= i < |rest| && rest[i].labels == e.labels;
          assert streams[i + 1].labels == e.labels;
        } else {
          assert streams[0].labels == e.labels;
        }
      }
    }
  }

  lemma NoneRankUp(rows: seq<Entry>)
    ensures RankUp(rows, [])
  {
  }

  /** What the server groups stands stream after stream in order of first appearance. */
  lemma GroupedRankUp(rows: seq<Entry>)
    ensures RankUp(rows, Flatten(Collect([], rows)))
  {
    hide Collect, Flatten, RankUp, Rank;
    assert Ranked(rows, 0, StreamLabels([]));
    assert rows[0..] == rows;
    CollectRanked(rows, 0, []);
    var streams := Collect([], rows);
    assert forall i :: 0 <= i < |streams| ==> StreamLabels(streams)[i] == streams[i].labels;
    FlattenRankUp(rows, streams);
  }

  lemma {:induction false} RankUpFilter(rows: seq<Entry>, s: seq<Entry>, p: Entry -> bool)
    requires RankUp(rows, s)
    ensures RankUp(rows, Filter(s, p))
  {
    hide Rank;
    if s != [] {
      var rest := s[1..];
      assert forall i :: 0 <= i < |rest| ==> rest[i] == s[i + 1];
      RankUpFilter(rows, rest, p);
      FilterMembers(rest, p);
      var f := Filter(rest, p);
      forall e | e in f ensures Rank(rows, s[0].labels) <= Rank(rows, e.labels) {
        var i :| 0 <= i < |rest| && rest[i] == e;
        assert s[i + 1] == e;
      }
      if p(s[0]) {
        RankUpAppend(rows, [s[0]], f, Rank(rows, s[0].labels));
      } else {
        assert Filter(s, p) == f;
      }
    }
  }

  lemma AmongCons(e: Entry, s: seq<Entry>, labels: map<Text, Text>)
    ensures Among([e] + s, labels) == if e.labels == labels then [e] + Among(s, labels) else Among(s, labels)
  {
    FilterCons(e, s, (x: Entry) => x.labels == labels);
  }

  lemma AmongMember(s: seq<Entry>, labels: map<Text, Text>)
    requires Among(s, labels) != []
    ensures exists i :: 0 <= i < |s| && s[i].labels == labels
  {
    FilterMembers(s, (x: Entry) => x.labels == labels);
    var e := Among(s, labels)[0];
    assert e in Among(s, labels);
    var i :| 0 <= i < |s| && s[i] == e;
  }

  lemma SameLead(rows: seq<Entry>, a: seq<Entry>, b: seq<Entry>)
    requires RankUp(rows, a) && a != [] && b != [] && Among(a, b[0].labels) == Among(b, b[0].labels)
    ensures Rank(rows, a[0].labels) <= Rank(rows, b[0].labels)
  {
    hide Rank, Among;
    assert b == [b[0]] + b[1..];
    AmongCons(b[0], b[1..], b[0].labels);
    AmongMember(a, b[0].labels);
  }

  lemma RankIsInjective(rows: seq<Entry>, x: map<Text, Text>, y: map<Text, Text>)
    requires Rank(rows, x) == Rank(rows, y) < |rows|
    ensures x == y
  {
    hide Rank;
    RankFacts(rows, x);
    RankFacts(rows, y);
  }

  /** The order of the streams and the order within each determine a sequence. */
  lemma {:induction false} RankedUnique(rows: seq<Entry>, a: seq<Entry>, b: seq<Entry>)
    requires RankUp(rows, a) && RankUp(rows, b) && forall e :: e in a ==> Rank(rows, e.labels) < |rows|
    requires forall labels :: Among(a, labels) == Among(b, labels)
    ensures a == b
    decreases |a|
  {
    hide Rank, Among;
    if a == [] || b == [] {
      NothingAmong(a, b);
    } else {
      var x, y := a[0], b[0];
      assert a == [x] + a[1..] && b == [y] + b[1..] && x in a;
      SameLead(rows, a, b);
      SameLead(rows, b, a);
      RankIsInjective(rows, x.labels, y.labels);
      AmongCons(x, a[1..], x.labels);
      AmongCons(y, b[1..], y.labels);
      assert Among(a, x.labels)[0] == x && Among(b, x.labels)[0] == y;
      forall labels ensures Among(a[1..], labels) == Among(b[1..], labels) {
        AmongRest(a, b, labels);
      }
      RankedUnique(rows, a[1..], b[1..]);
    }
  }

  lemma AmongRest(a: seq<Entry>, b: seq<Entry>, labels: map<Text, Text>)
    requires a != [] && b != [] && a[0] == b[0] && Among(a, labels) == Among(b, labels)
    ensures Among(a[1..], labels) == Among(b[1..], labels)
  {
    hide Among;
    assert a == [a[0]] + a[1..] && b == [b[0]] + b[1..];
    AmongCons(a[0], a[1..], labels);
    AmongCons(b[0], b[1..], labels);
    if a[0].labels == labels {
      assert Among(a, labels)[1..] == Among(a[1..], labels);
      assert Among(b, labels)[1..] == Among(b[1..], labels);
    }
  }

  lemma NothingAmong(a: seq<Entry>, b: seq<Entry>)
    requires (a == [] || b == []) && forall labels :: Among(a, labels) == Among(b, labels)
    ensures a == b
  {
    if a != [] {
      LeadAmong(a);
    } else if b != [] {
      LeadAmong(b);
    }
  }

  lemma LeadAmong(s: seq<Entry>)
    requires s != []
    ensures Among(s, s[0].labels) != [] && Among([], s[0].labels) == []
  {
    assert s == [s[0]] + s[1..];
    AmongCons(s[0], s[1..], s[0].labels);
  }

  lemma AmongAtTime(s: seq<Entry>, labels: map<Text, Text>, ns: int)
    ensures Among(AtTime(s, ns), labels) == AtTime(Among(s, labels), ns)
  {
    var here, mine := (e: Entry) => e.ns == ns, (e: Entry) => e.labels == labels;
    var both := (e: Entry) => e.ns == ns && e.labels == labels;
    FilterFilter(s, here, mine, both);
    FilterFilter(s, mine, here, both);
  }

  lemma RowsAreRanked(rows: seq<Entry>)
    ensures forall e :: e in rows ==> Rank(rows, e.labels) < |rows|
  {
    hide Rank;
    forall e | e in rows ensures Rank(rows, e.labels) < |rows| {
      RankFacts(rows, e.labels);
      var i :| 0 <= i < |rows| && rows[i] == e;
    }
  }

  /** At one time the delivered lines are the rows, put in the order of their streams. */
  lemma DeliveredAtTime(dir: Direction, rows: seq<Entry>, ns: int)
    requires Ordered(dir, rows) && forall i :: 0 <= i < |rows| ==> Decimal.InInt64(rows[i].ns)
    ensures RankUp(rows, AtTime(Delivered(dir, rows), ns))
    ensures forall labels :: Among(AtTime(Delivered(dir, rows), ns), labels) == Among(AtTime(rows, ns), labels)
  {
    hide AtTime, Among, Ordered, Collect, Flatten, RankUp, SortEntries;
    var flat := Flatten(Collect([], rows));
    AtTimeSorted(dir, flat, ns);
    GroupedRankUp(rows);
    AtTimeRankUp(rows, flat, ns);
    forall labels ensures Among(AtTime(Delivered(dir, rows), ns), labels) == Among(AtTime(rows, ns), labels) {
      DeliveredConserves(dir, rows, labels);
      AmongAtTime(Delivered(dir, rows), labels, ns);
      AmongAtTime(rows, labels, ns);
    }
  }

  lemma AtTimeRankUp(rows: seq<Entry>, s: seq<Entry>, ns: int)
    requires RankUp(rows, s)
    ensures RankUp(rows, AtTime(s, ns))
  {
    hide RankUp;
    RankUpFilter(rows, s, (e: Entry) => e.ns == ns);
  }

  /** Ties stand in order exactly when the rows of every time do. */
  lemma {:induction false} TiesIff(rows: seq<Entry>, s: seq<Entry>)
    ensures (forall i, j :: 0 <= i < j < |s| && s[i].ns == s[j].ns ==>
               Rank(rows, s[i].labels) <= Rank(rows, s[j].labels)) <==>
            forall ns :: RankUp(rows, AtTime(s, ns))
  {
    hide Rank, AtTime;
    if s == [] {
      forall ns ensures RankUp(rows, AtTime(s, ns)) {
        EmptyAtTime(ns);
      }
    } else {
      var x, rest := s[0], s[1..];
      assert s == [x] + rest;
      TiesIff(rows, rest);
      forall ns
        ensures RankUp(rows, AtTime(s, ns)) <==>
                (&& RankUp(rows, AtTime(rest, ns))
                 && (x.ns == ns ==> forall e :: e in AtTime(rest, ns) ==> Rank(rows, x.labels) <= Rank(rows, e.labels)))
      {
        AtTimeCons(x, rest, ns);
        RankUpCons(rows, x, AtTime(rest, ns));
      }
      TieStep(rows, x, rest);
    }
  }

  lemma RankUpCons(rows: seq<Entry>, x: Entry, s: seq<Entry>)
    ensures RankUp(rows, [x] + s) <==>
            RankUp(rows, s) && forall e :: e in s ==> Rank(rows, x.labels) <= Rank(rows, e.labels)
  {
    hide Rank;
    var t := [x] + s;
    assert forall i :: 0 <= i < |s| ==> t[i + 1] == s[i];
    if RankUp(rows, t) {
      forall e | e in s ensures Rank(rows, x.labels) <= Rank(rows, e.labels) {
        var i :| 0 <= i < |s| && s[i] == e;
        assert t[0] == x && t[i + 1] == e;
      }
      forall i, j | 0 <= i < j < |s| ensures Rank(rows, s[i].labels) <= Rank(rows, s[j].labels) {
        assert t[i + 1] == s[i] && t[j + 1] == s[j];
      }
    }
  }

  lemma TieStep(rows: seq<Entry>, x: Entry, rest: seq<Entry>)
    ensures (forall e :: e in AtTime(rest, x.ns) ==> Rank(rows, x.labels) <= Rank(rows, e.labels)) <==>
            forall j :: 0 <= j < |rest| && rest[j].ns == x.ns ==> Rank(rows, x.labels) <= Rank(rows, rest[j].labels)
  {
    hide Rank;
    FilterMembers(rest, (e: Entry) => e.ns == x.ns);
    assert forall j :: 0 <= j < |rest| ==> rest[j] in rest;
  }

  /**
   The client ends up with exactly the server's rows, in their order, exactly when rows that share a time
   stand in the order in which their streams first appear.
   */
  lemma DeliveredIsOriginalIff(dir: Direction, rows: seq<Entry>)
    requires Ordered(dir, rows) && forall i :: 0 <= i < |rows| ==> Decimal.InInt64(rows[i].ns)
    ensures Delivered(dir, rows) == rows <==> TiesInOrder(rows)
  {
    hide Delivered, AtTime, Ordered, Rank, RankUp, Among;
    TiesIff(rows, rows);
    if Delivered(dir, rows) == rows {
      forall ns ensures RankUp(rows, AtTime(rows, ns)) {
        DeliveredAtTime(dir, rows, ns);
      }
    }
    if TiesInOrder(rows) {
      DeliveredConserves(dir, rows, map[]);
      forall ns ensures AtTime(Delivered(dir, rows), ns) == AtTime(rows, ns) {
        DeliveredAtTime(dir, rows, ns);
        TimesAreRanked(dir, rows, ns);
        RankedUnique(rows, AtTime(Delivered(dir, rows), ns), AtTime(rows, ns));
      }
      OrderedByTimes(dir, Delivered(dir, rows), rows);
    }
  }

  lemma TimesAreRanked(dir: Direction, rows: seq<Entry>, ns: int)
    requires Ordered(dir, rows) && forall i :: 0 <= i < |rows| ==> Decimal.InInt64(rows[i].ns)
    ensures forall e :: e in AtTime(Delivered(dir, rows), ns) ==> Rank(rows, e.labels) < |rows|
  {
    hide Delivered, Ordered, Rank;
    var out := Delivered(dir, rows);
    DeliveredConserves(dir, rows, map[]);
    FilterMembers(out, (e: Entry) => e.ns == ns);
    RowsAreRanked(rows);
    forall e | e in AtTime(out, ns) ensures Rank(rows, e.labels) < |rows| {
      assert e in multiset(out);
      assert e in rows;
    }
  }

  /** No two rows of different streams share a time. */
  ghost predicate TimesApart(rows: seq<Entry>) {
    forall a, b :: a in rows && b in rows && a.ns == b.ns ==> a.labels == b.labels
  }

  /** In particular when no two streams share a time. */
  lemma DeliveredIsOriginal(dir: Direction, rows: seq<Entry>)
    requires Ordered(dir, rows) && forall i :: 0 <= i < |rows| ==> Decimal.InInt64(rows[i].ns)
    requires TimesApart(rows)
    ensures Delivered(dir, rows) == rows
  {
    hide Delivered, Ordered, Rank;
    DeliveredIsOriginalIff(dir, rows);
    assert forall i :: 0 <= i < |rows| ==> rows[i] in rows;
  }
}
