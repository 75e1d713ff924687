/**
 Go strings are byte sequences. A `Byte` is written as the character with that code, so that
 literals stay readable; everything the program treats as a string is a `Text`.
 */
module Texts {

  type Byte = c: char | c as int < 256 witness 'a'

  type Text = seq<Byte>

  datatype Option<+T> = None | Some(value: T)

  /** The elements of `s` satisfying `p`, in order. */
  function Filter<T>(s: seq<T>, p: T -> bool): (r: seq<T>)
    ensures |r| <= |s|
  {
    if s == [] then [] else (if p(s[0]) then [s[0]] else []) + Filter(s[1..], p)
  }

  lemma {:induction false} FilterMembers<T>(s: seq<T>, p: T -> bool)
    ensures forall x :: x in Filter(s, p) ==> x in s && p(x)
    ensures forall x :: x in s && p(x) ==> x in Filter(s, p)
  {
    if s != [] {
      FilterMembers(s[1..], p);
      assert s == [s[0]] + s[1..];
    }
  }

  lemma {:induction false} FilterCongruent<T>(s: seq<T>, p: T -> bool, q: T -> bool)
    requires forall x :: x in s ==> p(x) == q(x)
    ensures Filter(s, p) == Filter(s, q)
  {
    if s != [] {
      FilterCongruent(s[1..], p, q);
    }
  }

  lemma {:induction false} FilterFilter<T>(s: seq<T>, p: T -> bool, q: T -> bool, both: T -> bool)
    requires forall x :: x in s ==> both(x) == (p(x) && q(x))
    ensures Filter(Filter(s, p), q) == Filter(s, both)
  {
    if s != [] {
      assert s[0] in s;
      FilterFilter(s[1..], p, q, both);
      if p(s[0]) {
        assert Filter(s, p)[1..] == Filter(s[1..], p);
      } else {
        assert Filter(s, p) == Filter(s[1..], p);
      }
    }
  }

  lemma {:induction false} FilterAppend<T>(s: seq<T>, t: seq<T>, p: T -> bool)
    ensures Filter(s + t, p) == Filter(s, p) + Filter(t, p)
  {
    if s == [] {
      assert s + t == t;
    } else {
      var head := if p(s[0]) then [s[0]] else [];
      calc {
        Filter(s + t, p);
        { assert (s + t)[0] == s[0] && (s + t)[1..] == s[1..] + t; }
        head + Filter(s[1..] + t, p);
        { FilterAppend(s[1..], t, p); }
        head + (Filter(s[1..], p) + Filter(t, p));
        head + Filter(s[1..], p) + Filter(t, p);
        Filter(s, p) + Filter(t, p);
      }
    }
  }

  lemma {:induction false} FilterAll<T>(s: seq<T>, p: T -> bool)
    requires forall x :: x in s ==> p(x)
    ensures Filter(s, p) == s
  {
    if s != [] {
      FilterAll(s[1..], p);
    }
  }

  lemma {:induction false} FilterNone<T>(s: seq<T>, p: T -> bool)
    requires forall x :: x in s ==> !p(x)
    ensures Filter(s, p) == []
  {
    if s != [] {
      FilterNone(s[1..], p);
    }
  }

  /** When `p` fails up to index `n` and holds from there on, filtering takes the suffix. */
  lemma {:induction false} FilterSuffix<T>(s: seq<T>, n: nat, p: T -> bool)
    requires n <= |s|
    requires forall i :: 0 <= i < n ==> !p(s[i])
    requires forall i :: n <= i < |s| ==> p(s[i])
    ensures Filter(s, p) == s[n..]
  {
    if n == 0 {
      FilterAll(s, p);
    } else {
      FilterSuffix(s[1..], n - 1, p);
      assert s[1..][n - 1..] == s[n..];
    }
  }

  /** When `p` holds exactly between `lo` and `hi`, filtering takes that stretch. */
  lemma {:induction false} FilterStretch<T>(s: seq<T>, lo: nat, hi: nat, p: T -> bool)
    requires lo <= hi <= |s|
    requires forall i :: 0 <= i < |s| ==> (p(s[i]) <==> lo <= i < hi)
    ensures Filter(s, p) == s[lo..hi]
  {
    if hi == 0 {
      FilterNone(s, p);
    } else if lo > 0 {
      FilterStretch(s[1..], lo - 1, hi - 1, p);
      assert s[1..][lo - 1..hi - 1] == s[lo..hi];
    } else {
      FilterStretch(s[1..], 0, hi - 1, p);
      assert [s[0]] + s[1..][..hi - 1] == s[..hi];
    }
  }

  lemma {:induction false} FilterCount<T(!new)>(s: seq<T>, p: T -> bool)
    ensures forall x :: multiset(Filter(s, p))[x] == if p(x) then multiset(s)[x] else 0
  {
    if s != [] {
      FilterCount(s[1..], p);
      assert s == [s[0]] + s[1..];
    }
  }

  lemma FilterLength<T(!new)>(s: seq<T>, t: seq<T>, p: T -> bool)
    requires multiset(s) <= multiset(t)
    ensures |Filter(s, p)| <= |Filter(t, p)|
  {
    FilterCount(s, p);
    FilterCount(t, p);
    var a, b := multiset(Filter(s, p)), multiset(Filter(t, p));
    assert forall x :: a[x] <= b[x];
    assert b == a + (b - a);
    assert |a| == |Filter(s, p)| && |b| == |Filter(t, p)|;
  }

  function Min(a: int, b: int): int {
    if a <= b then a else b
  }

  function Max(a: int, b: int): int {
    if a >= b then a else b
  }

  function Take<T>(s: seq<T>, n: nat): seq<T> {
    s[..Min(n, |s|)]
  }

  function Reversed<T>(s: seq<T>): (r: seq<T>)
    ensures |r| == |s|
    ensures forall i :: 0 <= i < |s| ==> r[i] == s[|s| - 1 - i]
  {
    if s == [] then [] else Reversed(s[1..]) + [s[0]]
  }

  lemma Regroup<T>(a: seq<T>, b: seq<T>, c: seq<T>)
    ensures a + b + c == a + (b + c)
  {
  }

  lemma SplitAt<T>(s: seq<T>, i: nat, j: nat)
    requires i <= j <= |s|
    ensures s[i..] == s[i..j] + s[j..] && s[0..] == s
  {
  }

  lemma SliceStep<T>(t: seq<T>, i: nat, j: nat, tail: seq<T>)
    requires i <= j <= |t|
    ensures t[i..i] + tail == tail
    ensures i < j ==> [t[i]] + (t[i + 1..j] + tail) == t[i..j] + tail
  {
  }

  /** A text is determined by where its first separator stands. */
  lemma SplitAtSeparator(a: Text, b: Text, sep: Byte, x: Text, y: Text)
    requires sep !in a && sep !in b
    requires a + [sep] + x == b + [sep] + y
    ensures a == b && x == y
  {
    var whole := a + [sep] + x;
    assert forall i :: 0 <= i < |a| ==> whole[i] == a[i];
    assert forall i :: 0 <= i < |b| ==> whole[i] == b[i];
    assert whole[|a|] == sep && whole[|b|] == sep;
    assert a == whole[..|a|] && b == whole[..|b|];
    assert x == whole[|a| + 1..] && y == whole[|b| + 1..];
  }

  lemma LowerLetters(c: Byte)
    ensures 'a' <= c <= 'z' <==> c in "abcdefghijklmnopqrstuvwxyz"
  {
  }
}
