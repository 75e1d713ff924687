/** The labels a returned row carries, against the values matchers read from it. */
module RowLabels {
  import opened Texts
  import opened Entries
  import opened Logql
  import opened Sql
  import opened QueryBuild

  const INTERNAL: Text := "telemetry_observed_time_unix_nano"

  /** Parallel arrays as pairs, as far as both reach. */
  function Zip(keys: seq<Text>, values: seq<Text>): (r: seq<(Text, Text)>)
    ensures |r| == Min(|keys|, |values|)
    ensures forall i :: 0 <= i < |r| ==> r[i] == (keys[i], values[i])
  {
    seq(Min(|keys|, |values|), i requires 0 <= i < Min(|keys|, |values|) => (keys[i], values[i]))
  }

  /** The promoted columns, kept when not empty. */
  function Promoted(service: Text, severity: Text, trace: Text): (ls: map<Text, Text>) {
    (if service != [] then map["service_name" := service] else map[])
    + (if severity != [] then map["severity" := severity] else map[])
    + (if trace != [] then map["trace_id" := trace] else map[])
  }

  /** Attributes in order: internal names, names already taken and empty values are passed over. */
  function WithAttributes(ls: map<Text, Text>, labels: seq<(Text, Text)>): (r: map<Text, Text>)
    decreases |labels|
  {
    if labels == [] then ls
    else
      var name, value := labels[0].0, labels[0].1;
      WithAttributes(if name == INTERNAL || name in ls || value == [] then ls else ls[name := value], labels[1..])
  }

  function Assembled(row: LogRow): map<Text, Text> {
    WithAttributes(Promoted(row.service, row.severity, row.trace), row.labels)
  }

  method AssembleLabels(service: Text, severity: Text, trace: Text, keys: seq<Text>, values: seq<Text>)
    returns (ls: map<Text, Text>)
    ensures ls == WithAttributes(Promoted(service, severity, trace), Zip(keys, values))
  {
    hide Promoted, WithAttributes, Zip;
    ls := PromotedLabels(service, severity, trace);
    ghost var pairs, all := Zip(keys, values), WithAttributes(ls, Zip(keys, values));
    var i := 0;
    while i < |keys|
      invariant 0 <= i <= |keys| && i <= |pairs|
      invariant all == WithAttributes(ls, pairs[i..])
    {
      if i >= |values| {
        break;
      }
      AttributeStep(ls, pairs, i);
      var name := keys[i];
      if name != INTERNAL && name !in ls && values[i] != [] {
        ls := ls[name := values[i]];
      }
      i := i + 1;
    }
    NoAttributes(ls, pairs[i..]);
  }

  method PromotedLabels(service: Text, severity: Text, trace: Text) returns (ls: map<Text, Text>)
    ensures ls == Promoted(service, severity, trace)
  {
    ls := map[];
    if service != [] {
      ls := ls["service_name" := service];
    }
    if severity != [] {
      ls := ls["severity" := severity];
    }
    if trace != [] {
      ls := ls["trace_id" := trace];
    }
  }

  lemma AttributeStep(ls: map<Text, Text>, pairs: seq<(Text, Text)>, i: nat)
    requires i < |pairs|
    ensures var name, value := pairs[i].0, pairs[i].1;
            WithAttributes(ls, pairs[i..]) ==
            WithAttributes(if name == INTERNAL || name in ls || value == [] then ls else ls[name := value],
                           pairs[i + 1..])
  {
    assert pairs[i..][0] == pairs[i] && pairs[i..][1..] == pairs[i + 1..];
  }

  lemma NoAttributes(ls: map<Text, Text>, pairs: seq<(Text, Text)>)
    requires |pairs| == 0
    ensures WithAttributes(ls, pairs) == ls
  {
  }

  // ---- Scanning a result row -----------------------------------------------------------------------------

  /** The line a stored row stands for. */
  function RowEntry(row: LogRow): Entry {
    Entry(row.ns, Assembled(row), row.body)
  }

  /** A result row taken by position: time, body, service, severity, trace, label keys, label values. */
  method ScanRow(cells: seq<Cell>) returns (r: Option<Entry>)
    ensures forall row :: cells == CellsOf(row, SCANNED) ==> r == Some(RowEntry(row))
    ensures r.Some? <==> |cells| == 7 && cells[0].TimeCell? && (forall i :: 1 <= i < 5 ==> cells[i].TextCell?)
                         && cells[5].ListCell? && cells[6].ListCell?
  {
    if |cells| != 7 {
      return None;
    }
    if !cells[0].TimeCell? || !cells[5].ListCell? || !cells[6].ListCell? {
      return None;
    }
    if !cells[1].TextCell? || !cells[2].TextCell? || !cells[3].TextCell? || !cells[4].TextCell? {
      return None;
    }
    var ls := AssembleLabels(cells[2].text, cells[3].text, cells[4].text, cells[5].texts, cells[6].texts);
    r := Some(Entry(cells[0].ns, ls, cells[1].text));
    forall row | cells == CellsOf(row, SCANNED) ensures r == Some(RowEntry(row)) {
      ScannedLabels(row);
    }
  }

  /** The two lists are taken apart from the row's labels, and put together again in order. */
  lemma ScannedLabels(row: LogRow)
    ensures var cells := CellsOf(row, SCANNED);
            && cells[5].ListCell? && cells[6].ListCell? && Zip(cells[5].texts, cells[6].texts) == row.labels
  {
    var cells := CellsOf(row, SCANNED);
    assert |cells| == 7;
    var pairs := Zip(cells[5].texts, cells[6].texts);
    forall i | 0 <= i < |row.labels| ensures pairs[i] == row.labels[i] {
      assert pairs[i] == (row.labels[i].0, row.labels[i].1);
    }
  }

  // ---- Row labels against matchers -----------------------------------------------------------------------

  function ValueIn(ls: map<Text, Text>, name: Text): Text {
    if name in ls then ls[name] else []
  }

  /** The first value under `k` that is not empty. */
  function FirstNonEmpty(labels: seq<(Text, Text)>, k: Text): Text {
    if labels == [] then []
    else if labels[0].0 == k && labels[0].1 != [] then labels[0].1
    else FirstNonEmpty(labels[1..], k)
  }

  lemma {:induction false} AttributeValue(ls: map<Text, Text>, labels: seq<(Text, Text)>, k: Text)
    ensures ValueIn(WithAttributes(ls, labels), k) ==
            if k in ls then ls[k] else if k == INTERNAL then [] else FirstNonEmpty(labels, k)
    decreases |labels|
  {
    if labels != [] {
      var name, value := labels[0].0, labels[0].1;
      AttributeValue(if name == INTERNAL || name in ls || value == [] then ls else ls[name := value], labels[1..], k);
    }
  }

  /** An attribute entry under `k` with something in it. */
  predicate HasNonEmpty(labels: seq<(Text, Text)>, k: Text) {
    exists i :: 0 <= i < |labels| && labels[i].0 == k && labels[i].1 != []
  }

  lemma {:induction false} FirstNonEmptyIff(labels: seq<(Text, Text)>, k: Text)
    ensures FirstNonEmpty(labels, k) != [] <==> HasNonEmpty(labels, k)
    ensures Lookup(labels, k) != [] ==> FirstNonEmpty(labels, k) == Lookup(labels, k)
  {
    if labels != [] {
      FirstNonEmptyIff(labels[1..], k);
      if HasNonEmpty(labels[1..], k) {
        var i :| 0 <= i < |labels[1..]| && labels[1..][i].0 == k && labels[1..][i].1 != [];
        assert labels[i + 1].0 == k && labels[i + 1].1 != [];
      }
      if HasNonEmpty(labels, k) {
        var i :| 0 <= i < |labels| && labels[i].0 == k && labels[i].1 != [];
        assert i > 0 ==> labels[1..][i - 1].0 == k && labels[1..][i - 1].1 != [];
      }
    }
  }

  /** The attribute the schema keeps for itself is never among the labels a caller sees. */
  lemma InternalNeverShown(row: LogRow)
    ensures "telemetry_observed_time_unix_nano" !in Assembled(row)
  {
    var name: Text := "telemetry_observed_time_unix_nano";
    assert |name| == 33;
    hide WithAttributes;
    NotAdded(Promoted(row.service, row.severity, row.trace), row.labels, name);
  }

  lemma {:induction false} NotAdded(ls: map<Text, Text>, labels: seq<(Text, Text)>, name: Text)
    requires name == "telemetry_observed_time_unix_nano" && name !in ls
    ensures name !in WithAttributes(ls, labels)
    decreases |labels|
  {
    if labels != [] {
      var k, v := labels[0].0, labels[0].1;
      NotAdded(if k == INTERNAL || k in ls || v == [] then ls else ls[k := v], labels[1..], name);
    }
  }

  /**
   What must not be the case for the two to agree: the label is internal and set; its column is empty
   while an attribute of that name is not; or its first entry is empty while a later one is not.
   */
  predicate Divergent(row: LogRow, name: Text) {
    match Resolve(name)
    case AsColumn(c) => ColumnText(row, c) == [] && HasNonEmpty(row.labels, name)
    case AsAttribute(k) =>
      if name == INTERNAL then Lookup(row.labels, name) != []
      else Lookup(row.labels, name) == [] && HasNonEmpty(row.labels, name)
  }

  lemma PromotedValue(row: LogRow, name: Text)
    ensures var ls := Promoted(row.service, row.severity, row.trace);
            match Resolve(name)
            case AsColumn(c) =>
              && (name in ls <==> ColumnText(row, c) != []) && (name in ls ==> ls[name] == ColumnText(row, c))
              && name != INTERNAL
            case AsAttribute(k) => name !in ls
  {
    hide Sanitize;
    assert |INTERNAL| > 13;
  }

  /** A row's labels give a label the value matchers read for it, exactly when the row is not divergent there. */
  lemma RowLabelsAgreeIff(row: LogRow, name: Text)
    requires IsIdent(name)
    ensures ValueIn(Assembled(row), name) == LabelValue(row, name) <==> !Divergent(row, name)
  {
    hide WithAttributes, Promoted, Sanitize;
    var ls := Promoted(row.service, row.severity, row.trace);
    PromotedValue(row, name);
    AttributeValue(ls, row.labels, name);
    FirstNonEmptyIff(row.labels, name);
    SanitizeIdent(name);
    hide FirstNonEmpty, Lookup, HasNonEmpty;
  }

  // ---- What a caller sees ----------------------------------------------------------------------------------

  lemma FirstOfMembers(chosen: seq<LogRow>, newestFirst: bool, limit: nat, result: seq<LogRow>)
    requires FirstOf(chosen, newestFirst, limit, result)
    ensures forall row :: row in result ==> row in chosen
    ensures |result| == Min(limit, |chosen|) && InOrder(newestFirst, result)
  {
    var s :| multiset(s) == multiset(chosen) && InOrder(newestFirst, s) && result == Take(s, limit);
    forall row | row in result ensures row in chosen {
      assert row in multiset(s);
    }
    assert |s| == |multiset(s)| && |chosen| == |multiset(chosen)|;
  }

  /** Every row answered satisfies every matcher under the labels it is returned with, unless divergent there. */
  lemma AnsweredRowsMatch(
      eng: Engine, project: Text, q: LogQuery, table: seq<LogRow>, result: seq<LogRow>, row: LogRow, i: nat)
    requires q.limit > 0 && Answers(eng, project, q, table, result) && row in result
    requires i < |q.matchers| && IsIdent(q.matchers[i].name) && !Divergent(row, q.matchers[i].name)
    ensures Matches(eng, q.matchers[i], ValueIn(Assembled(row), q.matchers[i].name))
  {
    hide Matches, LabelValue, Assembled, Divergent, ValueIn;
    var p := (row: LogRow) => Asked(eng, project, q, row);
    FirstOfMembers(Filter(table, p), q.newestFirst, q.limit, result);
    FilterMembers(table, p);
    assert p(row);
    RowLabelsAgreeIff(row, q.matchers[i].name);
  }

  /** A row without a service but with an attribute of that name shows a label its matcher reads as empty. */
  lemma RowLabelsDiffer()
    ensures exists row: LogRow, name: Text ::
              IsIdent(name) && ValueIn(Assembled(row), name) != LabelValue(row, name)
  {
    var name: Text, value: Text := "service_name", "api";
    var row := LogRow([], 0, [], [], [], [], [(name, value)]);
    assert HasNonEmpty(row.labels, name) by {
      assert row.labels[0] == (name, value);
    }
    assert IsIdent(name);
    RowLabelsAgreeIff(row, name);
  }
}
