/** LabelSet.Key: a length-prefixed encoding of a label set, and the decoder that inverts it. */
module LabelKey {
  import opened Texts
  import opened Ordering
  import opened Decimal

  function Field(s: Text): Text {
    OfNat(|s|) + (":" + s)
  }

  /** One pair as "%d:%s=%d:%s" writes it. */
  function Pair(k: Text, v: Text): (r: Text)
    ensures r != []
  {
    Field(k) + ("=" + Field(v))
  }

  function PairsOf(labels: map<Text, Text>): set<Text> {
    set k | k in labels :: Pair(k, labels[k])
  }

  function JoinComma(parts: seq<Text>): Text {
    if parts == [] then [] else if |parts| == 1 then parts[0] else parts[0] + ("," + JoinComma(parts[1..]))
  }

  function KeyOf(labels: map<Text, Text>): Text {
    JoinComma(Ascending(PairsOf(labels)))
  }

  /** Key: the pairs collected in whatever order the map yields them, sorted, joined. */
  method Key(labels: map<Text, Text>) returns (key: Text)
    ensures key == KeyOf(labels)
  {
    hide Pair;
    var pairs: seq<Text> := [];
    var todo := labels.Keys;
    while todo != {}
      invariant todo <= labels.Keys
      invariant Sorted(pairs) && Distinct(pairs)
      invariant Elements(pairs) == set k | k in labels && k !in todo :: Pair(k, labels[k])
      decreases todo
    {
      var k :| k in todo;
      if Pair(k, labels[k]) in pairs {
        assert Pair(k, labels[k]) in Elements(pairs);
        var k' :| k' in labels && k' !in todo && Pair(k, labels[k]) == Pair(k', labels[k']);
        PairInjective(k, labels[k], k', labels[k']);
        assert false;
      }
      pairs := InsertSorted(pairs, Pair(k, labels[k]));
      todo := todo - {k};
    }
    assert Elements(pairs) == PairsOf(labels);
    AscendingUnique(pairs);
    key := JoinComma(pairs);
  }

  // ---- Decoding ------------------------------------------------------------------------------------------

  /** How many of the leading bytes of `s` are digits. */
  function DigitRun(s: Text): (n: nat)
    ensures n <= |s| && AllDigits(s[..n]) && (n < |s| ==> !IsDigit(s[n]))
  {
    if s == [] || !IsDigit(s[0]) then 0 else
      var n := 1 + DigitRun(s[1..]);
      assert s[..n] == [s[0]] + s[1..][..n - 1];
      n
  }

  /** A length, a colon, that many bytes; and what follows them. */
  function TakeField(s: Text): (r: Option<(Text, Text)>)
    ensures r.Some? ==> |r.value.1| < |s|
  {
    var n := DigitRun(s);
    if n == 0 || n == |s| || s[n] != ':' then None
    else
      var len, rest := NatValue(s[..n]), s[n + 1..];
      if len > |rest| then None else Some((rest[..len], rest[len..]))
  }

  function TakePair(s: Text): (r: Option<((Text, Text), Text)>)
    ensures r.Some? ==> |r.value.1| < |s|
  {
    var k := TakeField(s);
    if k.None? || k.value.1 == [] || k.value.1[0] != '=' then None
    else
      var v := TakeField(k.value.1[1..]);
      if v.None? then None else Some(((k.value.0, v.value.0), v.value.1))
  }

  /** The pairs of a key. */
  function Decode(s: Text): (r: Option<seq<(Text, Text)>>)
    decreases |s|
  {
    if s == [] then Some([])
    else
      var p := TakePair(s);
      if p.None? then None
      else if p.value.1 == [] then Some([p.value.0])
      else if p.value.1[0] != ',' then None
      else
        var rest := Decode(p.value.1[1..]);
        if rest.None? then None else Some([p.value.0] + rest.value)
  }

  lemma {:induction false} DigitRunStops(d: Text, t: Text)
    requires AllDigits(d) && (t != [] ==> !IsDigit(t[0]))
    ensures DigitRun(d + t) == |d|
  {
    if d == [] {
      assert d + t == t;
    } else {
      assert (d + t)[0] == d[0] && (d + t)[1..] == d[1..] + t;
      DigitRunStops(d[1..], t);
    }
  }

  lemma TakeFieldBack(s: Text, t: Text)
    ensures TakeField(Field(s) + t) == Some((s, t))
  {
    var d := OfNat(|s|);
    var rest := [':'] + s + t;
    assert Field(s) + t == d + rest;
    DigitRunStops(d, rest);
    NatRoundTrip(|s|);
    hide OfNat, NatValue, DigitRun;
    assert (d + rest)[..|d|] == d && (d + rest)[|d|] == ':';
    assert (d + rest)[|d| + 1..] == s + t;
    assert (s + t)[..|s|] == s && (s + t)[|s|..] == t;
  }

  lemma TakePairBack(k: Text, v: Text, t: Text)
    ensures TakePair(Pair(k, v) + t) == Some(((k, v), t))
  {
    hide Field, TakeField;
    var rest := ['='] + (Field(v) + t);
    assert Pair(k, v) + t == Field(k) + rest;
    TakeFieldBack(k, rest);
    assert rest[0] == '=' && rest[1..] == Field(v) + t;
    TakeFieldBack(v, t);
  }

  lemma PairInjective(k: Text, v: Text, k': Text, v': Text)
    requires Pair(k, v) == Pair(k', v')
    ensures k == k' && v == v'
  {
    hide Pair, TakePair;
    TakePairBack(k, v, []);
    TakePairBack(k', v', []);
  }

  /** The pairs a listing of pair texts stands for. */
  ghost predicate Spells(parts: seq<Text>, pairs: seq<(Text, Text)>) {
    |parts| == |pairs| && forall i :: 0 <= i < |parts| ==> parts[i] == Pair(pairs[i].0, pairs[i].1)
  }

  lemma {:induction false} DecodeJoined(parts: seq<Text>, pairs: seq<(Text, Text)>)
    requires Spells(parts, pairs)
    ensures Decode(JoinComma(parts)) == Some(pairs)
  {
    hide Pair, TakePair;
    if parts != [] {
      var k, v := pairs[0].0, pairs[0].1;
      if |parts| == 1 {
        TakePairBack(k, v, []);
        assert parts[0] + [] == parts[0];
        assert pairs == [(k, v)];
      } else {
        var more := JoinComma(parts[1..]);
        var rest := [','] + more;
        TakePairBack(k, v, rest);
        assert rest[1..] == more;
        DecodeJoined(parts[1..], pairs[1..]);
        assert pairs == [(k, v)] + pairs[1..];
      }
    }
  }

  lemma {:induction false} SpellListing(labels: map<Text, Text>, parts: seq<Text>) returns (pairs: seq<(Text, Text)>)
    requires forall i :: 0 <= i < |parts| ==> parts[i] in PairsOf(labels)
    ensures Spells(parts, pairs)
    ensures forall p :: p in pairs ==> p.0 in labels && labels[p.0] == p.1
  {
    hide Pair;
    if parts == [] {
      pairs := [];
    } else {
      assert parts[0] in PairsOf(labels);
      var k :| k in labels && parts[0] == Pair(k, labels[k]);
      var rest := SpellListing(labels, parts[1..]);
      pairs := [(k, labels[k])] + rest;
    }
  }

  /** A key decodes to the pairs of its label set, all of them and no others. */
  lemma DecodeKey(labels: map<Text, Text>) returns (pairs: seq<(Text, Text)>)
    ensures Decode(KeyOf(labels)) == Some(pairs)
    ensures forall k, v :: (k, v) in pairs <==> k in labels && labels[k] == v
  {
    hide Pair, Decode, JoinComma;
    var parts := Ascending(PairsOf(labels));
    AscendingElements(PairsOf(labels));
    assert forall i :: 0 <= i < |parts| ==> parts[i] in Elements(parts);
    pairs := SpellListing(labels, parts);
    DecodeJoined(parts, pairs);
    forall k, v | k in labels && labels[k] == v ensures (k, v) in pairs {
      assert Pair(k, v) in Elements(parts);
      var i :| 0 <= i < |parts| && parts[i] == Pair(k, v);
      PairInjective(k, v, pairs[i].0, pairs[i].1);
      assert pairs[i] == (k, v);
    }
  }

  /** Different label sets have different keys, whatever bytes their names and values hold. */
  lemma KeyInjective(a: map<Text, Text>, b: map<Text, Text>)
    ensures KeyOf(a) == KeyOf(b) <==> a == b
  {
    hide KeyOf, Decode;
    if KeyOf(a) == KeyOf(b) {
      var pa := DecodeKey(a);
      var pb := DecodeKey(b);
      forall k ensures k in a <==> k in b {
        if k in a { assert (k, a[k]) in pa; }
        if k in b { assert (k, b[k]) in pb; }
      }
      forall k | k in a ensures a[k] == b[k] {
        assert (k, a[k]) in pa;
      }
      assert a == b;
    }
  }
}
