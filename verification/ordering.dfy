/** Byte order on texts, and the unique ascending listing of a finite set of texts. */
module Ordering {
  import opened Texts

  predicate LexLe(a: Text, b: Text) {
    a == [] || (b != [] && (a[0] < b[0] || (a[0] == b[0] && LexLe(a[1..], b[1..]))))
  }

  lemma LexTotal(a: Text, b: Text)
    ensures LexLe(a, b) || LexLe(b, a)
  {
  }

  lemma {:induction false} LexAntisymmetric(a: Text, b: Text)
    requires LexLe(a, b) && LexLe(b, a)
    ensures a == b
  {
    if a != [] {
      LexAntisymmetric(a[1..], b[1..]);
      assert a == [a[0]] + a[1..] && b == [b[0]] + b[1..];
    }
  }

  lemma LexTransitive(a: Text, b: Text, c: Text)
    requires LexLe(a, b) && LexLe(b, c)
    ensures LexLe(a, c)
  {
  }

  predicate IsLeast(m: Text, s: set<Text>) {
    m in s && forall x :: x in s ==> LexLe(m, x)
  }

  lemma {:induction false} LeastExists(s: set<Text>) returns (m: Text)
    requires s != {}
    ensures IsLeast(m, s)
  {
    var x :| x in s;
    if s == {x} {
      LexTotal(x, x);
      m := x;
    } else {
      var rest := s - {x};
      assert rest != {} by { assert s != {x}; }
      var n := LeastExists(rest);
      LexTotal(x, n);
      LexTotal(x, x);
      m := if LexLe(x, n) then x else n;
      forall y | y in s ensures LexLe(m, y) {
        if y in rest { if LexLe(x, n) { LexTransitive(x, n, y); } }
      }
    }
  }

  lemma LeastUnique(s: set<Text>)
    ensures forall a, b :: IsLeast(a, s) && IsLeast(b, s) ==> a == b
  {
    forall a, b | IsLeast(a, s) && IsLeast(b, s) ensures a == b {
      LexAntisymmetric(a, b);
    }
  }

  function Least(s: set<Text>): (m: Text)
    requires s != {}
    ensures IsLeast(m, s)
  {
    assert exists m :: IsLeast(m, s) by { var m := LeastExists(s); }
    LeastUnique(s);
    var m :| m in s && IsLeast(m, s);
    m
  }

  /** What sort.Strings makes of the elements of `s`, whatever order they were collected in. */
  function Ascending(s: set<Text>): (r: seq<Text>)
  {
    if s == {} then [] else [Least(s)] + Ascending(s - {Least(s)})
  }

  ghost predicate Sorted(r: seq<Text>) {
    forall i, j :: 0 <= i < j < |r| ==> LexLe(r[i], r[j])
  }

  predicate Distinct<T(==)>(r: seq<T>) {
    forall i, j :: 0 <= i < j < |r| ==> r[i] != r[j]
  }

  function Elements<T>(r: seq<T>): set<T> {
    set x | x in r
  }

  lemma {:induction false} AscendingElements(s: set<Text>)
    ensures Elements(Ascending(s)) == s
    ensures Sorted(Ascending(s)) && Distinct(Ascending(s))
  {
    if s != {} {
      var m := Least(s);
      AscendingElements(s - {m});
      var rest := Ascending(s - {m});
      assert forall x :: x in rest <==> x in Elements(rest);
      assert Ascending(s) == [m] + rest;
      assert forall x :: x in [m] + rest <==> x == m || x in rest;
    }
  }

  /** A sorted listing without repeats is determined by its elements. */
  lemma {:induction false} AscendingUnique(r: seq<Text>)
    requires Sorted(r) && Distinct(r)
    ensures r == Ascending(Elements(r))
  {
    if r != [] {
      var s := Elements(r);
      assert r[0] in s;
      var m := Least(s);
      assert m == r[0] by {
        var k :| 0 <= k < |r| && r[k] == m;
        assert LexLe(m, r[0]);
        LexTotal(r[0], r[0]);
        assert LexLe(r[0], r[k]);
        LexAntisymmetric(m, r[0]);
      }
      assert Elements(r[1..]) == s - {m} by {
        assert r == [r[0]] + r[1..];
        assert forall x :: x in r[1..] ==> exists k :: 0 < k < |r| && r[k] == x;
      }
      AscendingUnique(r[1..]);
    }
  }

  /** Inserts into a sorted listing, the step of collecting a set in sorted order. */
  method InsertSorted(r: seq<Text>, x: Text) returns (out: seq<Text>)
    requires Sorted(r) && Distinct(r) && x !in r
    ensures Sorted(out) && Distinct(out) && Elements(out) == Elements(r) + {x}
  {
    hide LexLe, Sorted, Distinct, Elements;
    var k := 0;
    while k < |r| && LexLe(r[k], x)
      invariant 0 <= k <= |r|
      invariant forall i :: 0 <= i < k ==> LexLe(r[i], x)
    {
      k := k + 1;
    }
    out := r[..k] + [x] + r[k..];
    RestAfter(r, k, x);
    InsertedSorted(r, k, x);
    InsertedElements(r, k, x);
  }

  lemma RestAfter(r: seq<Text>, k: nat, x: Text)
    requires Sorted(r) && k <= |r| && (k < |r| ==> !LexLe(r[k], x))
    ensures forall i :: k <= i < |r| ==> LexLe(x, r[i])
  {
    hide LexLe;
    forall i | k <= i < |r| ensures LexLe(x, r[i]) {
      LexTotal(x, r[k]);
      if k < i {
        LexTransitive(x, r[k], r[i]);
      }
    }
  }

  lemma InsertedSorted(r: seq<Text>, k: nat, x: Text)
    requires Sorted(r) && k <= |r|
    requires forall i :: 0 <= i < k ==> LexLe(r[i], x)
    requires forall i :: k <= i < |r| ==> LexLe(x, r[i])
    ensures Sorted(r[..k] + [x] + r[k..])
  {
    hide LexLe;
  }

  lemma InsertedElements(r: seq<Text>, k: nat, x: Text)
    requires Distinct(r) && x !in r && k <= |r|
    ensures var out := r[..k] + [x] + r[k..];
            Distinct(out) && Elements(out) == Elements(r) + {x}
  {
    assert r == r[..k] + r[k..];
    assert forall y :: y in r[..k] + [x] + r[k..] <==> y in r || y == x;
  }
}
