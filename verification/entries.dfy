/** Log lines as the CLI holds them: their key, and the stable merge order of a page. */
module Entries {
  import opened Texts
  import opened Ordering
  import Decimal

  datatype Direction = Unset | Backward | Forward

  /** One log line; `ns` is its time in Unix nanoseconds. */
  datatype Entry = Entry(ns: int, labels: map<Text, Text>, line: Text)

  const SECOND: int := 1_000_000_000

  /** time.Time.Unix: seconds rounded down, also before the epoch. */
  function Second(ns: int): int {
    ns / SECOND
  }

  const NUL: Text := ['\U{00}']
  const SOH: Text := ['\U{01}']

  function CanonicalPairs(names: seq<Text>, labels: map<Text, Text>): (r: Text)
    requires forall i :: 0 <= i < |names| ==> names[i] in labels
  {
    if names == [] then []
    else names[0] + "=" + labels[names[0]] + SOH + CanonicalPairs(names[1..], labels)
  }

  lemma AscendingNames(labels: map<Text, Text>)
    ensures forall i :: 0 <= i < |Ascending(labels.Keys)| ==> Ascending(labels.Keys)[i] in labels
  {
    AscendingElements(labels.Keys);
    var names := Ascending(labels.Keys);
    assert forall i :: 0 <= i < |names| ==> names[i] in Elements(names);
  }

  function Canonical(labels: map<Text, Text>): (r: Text) {
    AscendingNames(labels);
    CanonicalPairs(Ascending(labels.Keys), labels)
  }

  function Key(e: Entry): Text {
    Decimal.OfInt(e.ns) + NUL + (Canonical(e.labels) + NUL + e.line)
  }

  /** Equal keys mean equal times, so a key lies in one second. */
  lemma KeyFixesTime(a: Entry, b: Entry)
    requires Key(a) == Key(b)
    ensures a.ns == b.ns
    ensures Canonical(a.labels) + NUL + a.line == Canonical(b.labels) + NUL + b.line
  {
    var ta, tb := Decimal.OfInt(a.ns), Decimal.OfInt(b.ns);
    assert NUL[0] !in ta && NUL[0] !in tb;
    SplitAtSeparator(ta, tb, NUL[0], Canonical(a.labels) + NUL + a.line, Canonical(b.labels) + NUL + b.line);
    Decimal.OfIntInjective(a.ns, b.ns);
  }

  /** Names and values free of the bytes `canonical` and `Key` use as separators. */
  ghost predicate PlainLabels(labels: map<Text, Text>) {
    forall k :: k in labels ==>
      && '=' !in k && SOH[0] !in k && NUL[0] !in k
      && SOH[0] !in labels[k] && NUL[0] !in labels[k]
  }

  lemma {:induction false} CanonicalPairsHasNoNul(names: seq<Text>, labels: map<Text, Text>)
    requires forall i :: 0 <= i < |names| ==> names[i] in labels
    requires PlainLabels(labels)
    ensures NUL[0] !in CanonicalPairs(names, labels)
  {
    if names != [] {
      CanonicalPairsHasNoNul(names[1..], labels);
      assert names[0] in labels;
    }
  }

  lemma {:induction false} CanonicalPairsInjective(
      a: seq<Text>, la: map<Text, Text>, b: seq<Text>, lb: map<Text, Text>)
    requires forall i :: 0 <= i < |a| ==> a[i] in la
    requires forall i :: 0 <= i < |b| ==> b[i] in lb
    requires PlainLabels(la) && PlainLabels(lb)
    requires CanonicalPairs(a, la) == CanonicalPairs(b, lb)
    ensures a == b
    ensures forall i :: 0 <= i < |a| ==> la[a[i]] == lb[a[i]]
  {
    if a != [] && b != [] {
      var ra, rb := CanonicalPairs(a[1..], la), CanonicalPairs(b[1..], lb);
      assert a[0] in la && b[0] in lb;
      var va, vb := la[a[0]] + SOH + ra, lb[b[0]] + SOH + rb;
      assert CanonicalPairs(a, la) == a[0] + ['='] + va;
      assert CanonicalPairs(b, lb) == b[0] + ['='] + vb;
      SplitAtSeparator(a[0], b[0], '=', va, vb);
      SplitAtSeparator(la[a[0]], lb[b[0]], SOH[0], ra, rb);
      CanonicalPairsInjective(a[1..], la, b[1..], lb);
      assert a == [a[0]] + a[1..] && b == [b[0]] + b[1..];
    }
  }

  lemma {:induction false} ElementsBound(names: seq<Text>)
    ensures |Elements(names)| <= |names|
  {
    if names != [] {
      ElementsBound(names[1..]);
      assert names == [names[0]] + names[1..];
      assert Elements(names) == {names[0]} + Elements(names[1..]);
    }
  }

  /** The names in the order they are spelled out. */
  lemma NamesOf(labels: map<Text, Text>) returns (names: seq<Text>)
    ensures forall i :: 0 <= i < |names| ==> names[i] in labels
    ensures forall k :: k in labels ==> k in names
    ensures Canonical(labels) == CanonicalPairs(names, labels)
    ensures |labels| <= |names|
  {
    AscendingNames(labels);
    AscendingElements(labels.Keys);
    names := Ascending(labels.Keys);
    ElementsBound(names);
    hide Ascending;
    assert forall k :: k in labels ==> k in Elements(names);
    assert |Elements(names)| == |labels|;
  }

  lemma PlainCanonicalInjective(a: map<Text, Text>, b: map<Text, Text>)
    requires PlainLabels(a) && PlainLabels(b) && Canonical(a) == Canonical(b)
    ensures a == b
  {
    hide Canonical, CanonicalPairs, PlainLabels;
    var na := NamesOf(a);
    var nb := NamesOf(b);
    CanonicalPairsInjective(na, a, nb, b);
  }

  lemma PlainCanonicalHasNoNul(labels: map<Text, Text>)
    requires PlainLabels(labels)
    ensures NUL[0] !in Canonical(labels)
  {
    AscendingNames(labels);
    CanonicalPairsHasNoNul(Ascending(labels.Keys), labels);
  }

  /** The key identifies the line whenever its labels avoid the separator bytes. */
  lemma KeyInjectiveOnPlainLabels(a: Entry, b: Entry)
    requires PlainLabels(a.labels) && PlainLabels(b.labels)
    ensures Key(a) == Key(b) <==> a == b
  {
    hide Canonical, PlainLabels, Key;
    if Key(a) == Key(b) {
      KeyFixesTime(a, b);
      PlainCanonicalHasNoNul(a.labels);
      PlainCanonicalHasNoNul(b.labels);
      SplitAtSeparator(Canonical(a.labels), Canonical(b.labels), NUL[0], a.line, b.line);
      PlainCanonicalInjective(a.labels, b.labels);
    }
  }

  lemma CanonicalOfOne(name: Text, v: Text)
    ensures Canonical(map[name := v]) == name + "=" + v + SOH
  {
    var labels := map[name := v];
    assert Elements([name]) == labels.Keys;
    AscendingUnique([name]);
    assert CanonicalPairs([name], labels) == name + "=" + v + SOH + CanonicalPairs([name][1..], labels);
    assert [name][1..] == [];
  }

  lemma {:induction false} PairsEnd(names: seq<Text>, labels: map<Text, Text>)
    requires names != [] && forall i :: 0 <= i < |names| ==> names[i] in labels
    ensures var r := CanonicalPairs(names, labels); r != [] && r[|r| - 1] == SOH[0]
  {
    if |names| > 1 {
      PairsEnd(names[1..], labels);
    } else {
      assert names[1..] == [];
    }
  }

  /** One label whose value spells out all the other pairs. */
  lemma ForgedLabels(labels: map<Text, Text>) returns (one: map<Text, Text>)
    requires |labels| >= 2
    ensures |one| == 1 && Canonical(one) == Canonical(labels)
  {
    hide Canonical;
    var names := NamesOf(labels);
    var name: Text, rest := names[0], CanonicalPairs(names[1..], labels);
    PairsEnd(names[1..], labels);
    var forged := labels[name] + SOH + rest[..|rest| - 1];
    one := map[name := forged];
    CanonicalOfOne(name, forged);
    assert rest == rest[..|rest| - 1] + SOH;
    ForgedText(name, labels[name], rest[..|rest| - 1], rest);
  }

  lemma ForgedText(name: Text, v: Text, most: Text, rest: Text)
    requires rest == most + SOH
    ensures name + "=" + (v + SOH + most) + SOH == name + "=" + v + SOH + rest
  {
  }

  /** Every entry with two or more labels shares its key with one that has a single label. */
  lemma TwoLabelsCollide(e: Entry) returns (b: Entry)
    requires |e.labels| >= 2
    ensures b != e && Key(b) == Key(e) && |b.labels| == 1
  {
    hide Canonical;
    var one := ForgedLabels(e.labels);
    b := Entry(e.ns, one, e.line);
  }

  /** Two entries, one with two labels and one whose label value holds the byte 0x01, share a key. */
  lemma KeyCollides()
    ensures exists a: Entry, b: Entry :: a != b && Key(a) == Key(b)
  {
    hide Key;
    var a := Entry(0, map["a" := "1", "b" := "2"], []);
    assert a.labels.Keys == {"a", "b"} && |a.labels| == |a.labels.Keys|;
    var b := TwoLabelsCollide(a);
  }

  // ---- Sort -------------------------------------------------------------------------------

  /** `a` must come strictly before `b` in a page read in direction `dir`. */
  predicate Before(dir: Direction, a: Entry, b: Entry) {
    if dir == Forward then a.ns < b.ns else b.ns < a.ns
  }

  /** No line of `s` must come before its first one, and so on down the tail. */
  predicate Ordered(dir: Direction, s: seq<Entry>) {
    s != [] ==> (forall x :: x in s[1..] ==> !Before(dir, x, s[0])) && Ordered(dir, s[1..])
  }

  lemma {:induction false} OrderedAt(dir: Direction, s: seq<Entry>, i: nat, j: nat)
    requires Ordered(dir, s) && i <= j < |s|
    ensures !Before(dir, s[j], s[i])
  {
    if i == 0 {
      assert j > 0 ==> s[j] == s[1..][j - 1];
    } else {
      OrderedAt(dir, s[1..], i - 1, j - 1);
    }
  }

  function Insert(dir: Direction, e: Entry, s: seq<Entry>): (r: seq<Entry>)
    ensures |r| == |s| + 1
  {
    if s == [] || !Before(dir, s[0], e) then [e] + s else [s[0]] + Insert(dir, e, s[1..])
  }

  /** slices.SortStableFunc under the comparison of `Sort`. */
  function SortEntries(dir: Direction, s: seq<Entry>): (r: seq<Entry>)
    ensures |r| == |s|
  {
    if s == [] then [] else Insert(dir, s[0], SortEntries(dir, s[1..]))
  }

  lemma {:induction false} InsertMembers(dir: Direction, e: Entry, s: seq<Entry>)
    ensures multiset(Insert(dir, e, s)) == multiset{e} + multiset(s)
    ensures forall x :: x in Insert(dir, e, s) <==> x == e || x in s
  {
    var r := Insert(dir, e, s);
    if s == [] || !Before(dir, s[0], e) {
      assert r == [e] + s;
    } else {
      InsertMembers(dir, e, s[1..]);
      assert s == [s[0]] + s[1..];
      assert r == [s[0]] + Insert(dir, e, s[1..]);
    }
  }

  lemma {:induction false} InsertOrdered(dir: Direction, e: Entry, s: seq<Entry>)
    requires Ordered(dir, s)
    ensures Ordered(dir, Insert(dir, e, s))
  {
    var r := Insert(dir, e, s);
    if s == [] || !Before(dir, s[0], e) {
      assert r[0] == e && r[1..] == s;
      assert forall x :: x in s ==> x == s[0] || x in s[1..];
    } else {
      assert r[0] == s[0] && r[1..] == Insert(dir, e, s[1..]);
      InsertOrdered(dir, e, s[1..]);
      InsertMembers(dir, e, s[1..]);
    }
  }

  lemma {:induction false} SortIsOrderedPermutation(dir: Direction, s: seq<Entry>)
    ensures Ordered(dir, SortEntries(dir, s))
    ensures multiset(SortEntries(dir, s)) == multiset(s)
  {
    if s != [] {
      SortIsOrderedPermutation(dir, s[1..]);
      InsertOrdered(dir, s[0], SortEntries(dir, s[1..]));
      InsertMembers(dir, s[0], SortEntries(dir, s[1..]));
      assert s == [s[0]] + s[1..];
    }
  }

  lemma {:induction false} InsertInFront(dir: Direction, e: Entry, s: seq<Entry>)
    requires forall x :: x in s ==> !Before(dir, x, e)
    ensures Insert(dir, e, s) == [e] + s
  {
  }

  lemma {:induction false} FilterCons(x: Entry, s: seq<Entry>, p: Entry -> bool)
    ensures Filter([x] + s, p) == if p(x) then [x] + Filter(s, p) else Filter(s, p)
  {
    assert ([x] + s)[0] == x && ([x] + s)[1..] == s;
  }

  lemma {:induction false} InsertFilter(dir: Direction, e: Entry, s: seq<Entry>, p: Entry -> bool)
    requires Ordered(dir, s)
    ensures Filter(Insert(dir, e, s), p) ==
            if p(e) then Insert(dir, e, Filter(s, p)) else Filter(s, p)
  {
    hide Filter;
    if s == [] || !Before(dir, s[0], e) {
      FilterCons(e, s, p);
      if p(e) {
        FilterMembers(s, p);
        assert forall x :: x in s ==> x == s[0] || x in s[1..];
        InsertInFront(dir, e, Filter(s, p));
      }
    } else {
      FilterCons(s[0], Insert(dir, e, s[1..]), p);
      InsertFilter(dir, e, s[1..], p);
      assert s == [s[0]] + s[1..];
      FilterCons(s[0], s[1..], p);
      if p(s[0]) && p(e) {
        InsertPast(dir, e, s[0], Filter(s[1..], p));
      }
    }
  }

  lemma InsertPast(dir: Direction, e: Entry, x: Entry, s: seq<Entry>)
    requires Before(dir, x, e)
    ensures Insert(dir, e, [x] + s) == [x] + Insert(dir, e, s)
  {
    assert ([x] + s)[0] == x && ([x] + s)[1..] == s;
  }

  lemma SortCons(dir: Direction, x: Entry, s: seq<Entry>)
    ensures SortEntries(dir, [x] + s) == Insert(dir, x, SortEntries(dir, s))
  {
    assert ([x] + s)[0] == x && ([x] + s)[1..] == s;
  }

  /** Selecting commutes with the stable sort. */
  lemma {:induction false} SortFilter(dir: Direction, s: seq<Entry>, p: Entry -> bool)
    ensures Filter(SortEntries(dir, s), p) == SortEntries(dir, Filter(s, p))
  {
    if s != [] {
      hide Filter, SortEntries, Insert;
      var x, rest := s[0], s[1..];
      assert s == [x] + rest;
      SortCons(dir, x, rest);
      FilterCons(x, rest, p);
      SortFilter(dir, rest, p);
      SortIsOrderedPermutation(dir, rest);
      InsertFilter(dir, x, SortEntries(dir, rest), p);
      SortCons(dir, x, Filter(rest, p));
    }
  }

  /** A sorted sequence is left alone: lines sharing a time keep their order. */
  lemma {:induction false} SortOfOrdered(dir: Direction, s: seq<Entry>)
    requires Ordered(dir, s)
    ensures SortEntries(dir, s) == s
  {
    if s != [] {
      SortOfOrdered(dir, s[1..]);
      InsertInFront(dir, s[0], s[1..]);
    }
  }

  lemma {:induction false} FilterOrdered(dir: Direction, t: seq<Entry>, p: Entry -> bool)
    requires Ordered(dir, t)
    ensures Ordered(dir, Filter(t, p))
  {
    if t != [] {
      FilterOrdered(dir, t[1..], p);
      assert t == [t[0]] + t[1..];
      FilterCons(t[0], t[1..], p);
      FilterMembers(t[1..], p);
      if p(t[0]) {
        assert ([t[0]] + Filter(t[1..], p))[1..] == Filter(t[1..], p);
      }
    }
  }
}
