/**
 What Pages emits from a store that does not change: second by second in query order, exactly the
 first `limit` lines of each second.
 */
module PagingExact {
  import opened Texts
  import opened Entries
  import opened Paging

  /** A store in a fixed line order, served with its window bounds exact or truncated to seconds. */
  datatype Server = Server(lines: seq<Entry>, truncates: bool)

  function Truncate(ns: int): int {
    Second(ns) * SECOND
  }

  function Lower(s: Server, q: Query): int {
    if s.truncates then Truncate(q.start) else q.start
  }

  function Upper(s: Server, q: Query): int {
    if s.truncates then Truncate(q.end) else q.end
  }

  predicate Inside(s: Server, q: Query, e: Entry) {
    Lower(s, q) <= e.ns < Upper(s, q)
  }

  /** The lines of the window in the asked order, before any limit. */
  function Window(s: Server, q: Query): (r: seq<Entry>) {
    SortEntries(q.direction, Filter(s.lines, (e: Entry) => Inside(s, q, e)))
  }

  function QueryRange(s: Server, q: Query): (r: seq<Entry>) {
    Take(Window(s, q), Max(0, q.limit))
  }

  function Fixed(s: Server): Querier {
    (n: nat, q: Query) => Lines(QueryRange(s, q))
  }

  // ---- Every later window is a suffix of the first -----------------------------------------

  /** The index at or after `i` of the first line whose pace reaches `a`. */
  function Skip(dir: Direction, t: seq<Entry>, a: int, i: nat): (k: nat)
    requires i <= |t|
    ensures i <= k <= |t|
    ensures forall j :: i <= j < k ==> Pace(dir, t[j]) < a
    ensures k < |t| ==> Pace(dir, t[k]) >= a
    decreases |t| - i
  {
    if i == |t| || Pace(dir, t[i]) >= a then i else Skip(dir, t, a, i + 1)
  }

  ghost predicate PaceUp(dir: Direction, t: seq<Entry>) {
    forall i, j :: 0 <= i <= j < |t| ==> Pace(dir, t[i]) <= Pace(dir, t[j])
  }

  lemma PaceMonotone(dir: Direction, t: seq<Entry>)
    requires Ordered(dir, t)
    ensures PaceUp(dir, t)
  {
    forall i, j | 0 <= i <= j < |t| ensures Pace(dir, t[i]) <= Pace(dir, t[j]) {
      OrderedAt(dir, t, i, j);
    }
  }

  lemma SuffixIsFilter(dir: Direction, t: seq<Entry>, a: int, p: Entry -> bool)
    requires Ordered(dir, t)
    requires forall e :: e in t ==> p(e) == (Pace(dir, e) >= a)
    ensures Filter(t, p) == t[Skip(dir, t, a, 0)..]
  {
    PaceMonotone(dir, t);
    FilterSuffix(t, Skip(dir, t, a, 0), p);
  }

  /** The bound the walk moves falls on a whole second. */
  predicate Whole(q: Query) {
    (if q.direction == Forward then q.start else q.end) % SECOND == 0
  }

  /** On the near side of the bound the walk leaves alone. */
  predicate WithinFar(s: Server, q: Query, e: Entry) {
    if q.direction == Forward then e.ns < Upper(s, q) else Lower(s, q) <= e.ns
  }

  /** A line of the second the moving bound falls in, which that bound shuts out. */
  predicate Hidden(s: Server, q: Query, e: Entry) {
    Pace(q.direction, e) == Near(q) && WithinFar(s, q, e) && !Inside(s, q, e)
  }

  predicate NoneHidden(s: Server, q: Query) {
    forall e :: e in s.lines ==> !Hidden(s, q, e)
  }

  /**
   When a walk keeps to its moving bound: that bound shuts no line of its second out, or its second
   gives the window too few lines to fill a page.
   */
  predicate Honoured(s: Server, q: Query) {
    NoneHidden(s, q) || |LinesOf(Window(s, q), NearSecond(q))| < q.limit
  }

  function NearSecond(q: Query): int {
    if q.direction == Forward then Near(q) else -Near(q)
  }

  /** A whole second, or a server that truncates to one, is always kept to. */
  lemma WholeIsHonoured(s: Server, q: Query)
    requires q.limit > 0 && q.direction != Unset && (s.truncates || Whole(q))
    ensures Honoured(s, q)
  {
    if !NoneHidden(s, q) {
      var t := Window(s, q);
      forall e | e in t ensures Second(e.ns) != NearSecond(q) {
        WindowInside(s, q, e);
      }
      FilterNone(t, (e: Entry) => Second(e.ns) == NearSecond(q));
    }
  }

  /** `q` is `first`, or `first` with its moving bound pulled in to a second behind which nothing is hidden. */
  predicate Narrowed(s: Server, first: Query, q: Query) {
    && q.direction == first.direction && q.limit == first.limit
    && (if q.direction == Forward then q.end == first.end else q.start == first.start)
    && (q == first || (Whole(q) && Near(first) <= Near(q) && (Near(first) < Near(q) || NoneHidden(s, first))))
  }

  lemma WindowOrdered(s: Server, q: Query)
    ensures Ordered(q.direction, Window(s, q))
    ensures multiset(Window(s, q)) == multiset(Filter(s.lines, (e: Entry) => Inside(s, q, e)))
  {
    SortIsOrderedPermutation(q.direction, Filter(s.lines, (e: Entry) => Inside(s, q, e)));
  }

  lemma NearInside(s: Server, q: Query, e: Entry)
    requires q.direction != Unset
    ensures Inside(s, q, e) ==> WithinFar(s, q, e) && Pace(q.direction, e) >= Near(q)
    ensures WithinFar(s, q, e) && Pace(q.direction, e) > Near(q) ==> Inside(s, q, e)
  {
  }

  lemma WholeInside(s: Server, q: Query, e: Entry)
    requires q.direction != Unset && Whole(q)
    ensures Inside(s, q, e) <==> WithinFar(s, q, e) && Pace(q.direction, e) >= Near(q)
  {
  }

  lemma SameFar(s: Server, first: Query, q: Query, e: Entry)
    requires q.direction == first.direction
    requires if q.direction == Forward then q.end == first.end else q.start == first.start
    ensures WithinFar(s, q, e) <==> WithinFar(s, first, e)
  {
  }

  lemma NarrowedInside(s: Server, first: Query, q: Query, e: Entry)
    requires Narrowed(s, first, q) && e in s.lines && q.direction != Unset
    ensures Inside(s, q, e) <==> Inside(s, first, e) && Pace(q.direction, e) >= Near(q)
  {
    hide Inside, WithinFar, Near, Pace, Whole;
    NearInside(s, first, e);
    if q != first {
      WholeInside(s, q, e);
      SameFar(s, first, q, e);
      assert NoneHidden(s, first) ==> !Hidden(s, first, e);
    }
  }

  lemma NarrowedWindow(s: Server, first: Query, q: Query)
    requires Narrowed(s, first, q) && q.direction != Unset
    ensures Window(s, q) == Window(s, first)[Skip(q.direction, Window(s, first), Near(q), 0)..]
  {
    hide Narrowed, Inside, Pace, Near;
    var dir := q.direction;
    var all, inside, near := (e: Entry) => Inside(s, first, e), (e: Entry) => Inside(s, q, e),
                             (e: Entry) => Pace(dir, e) >= Near(q);
    var sorted := SortEntries(dir, s.lines);
    SortIsOrderedPermutation(dir, s.lines);
    SortFilter(dir, s.lines, all);
    SortFilter(dir, s.lines, inside);
    forall e | e in sorted ensures inside(e) == (all(e) && near(e)) {
      assert e in multiset(sorted);
      NarrowedInside(s, first, q, e);
    }
    assert first.direction == dir by { SameDirection(s, first, q); }
    FilterFilter(sorted, all, near, inside);
    WindowOrdered(s, first);
    SuffixIsFilter(dir, Window(s, first), Near(q), near);
  }

  lemma SameDirection(s: Server, first: Query, q: Query)
    requires Narrowed(s, first, q)
    ensures first.direction == q.direction && first.limit == q.limit
  {
  }

  // ---- What is emitted ----------------------------------------------------------------------

  /** Fewer than `limit` lines of its second come before line `i` of the ordered window `t`. */
  predicate Kept(t: seq<Entry>, limit: nat, i: nat)
    requires i < |t|
  {
    i < limit || Second(t[i - limit].ns) != Second(t[i].ns)
  }

  /** The kept lines from index `i` on. */
  function Expected(t: seq<Entry>, limit: nat, i: nat): (r: seq<Entry>)
    requires i <= |t|
    ensures |r| <= |t| - i
    decreases |t| - i
  {
    if i == |t| then []
    else if Kept(t, limit, i) then [t[i]] + Expected(t, limit, i + 1)
    else Expected(t, limit, i + 1)
  }

  lemma {:induction false} ExpectedRun(t: seq<Entry>, limit: nat, i: nat, j: nat)
    requires i <= j <= |t|
    requires forall x :: i <= x < j ==> Kept(t, limit, x)
    ensures Expected(t, limit, i) == t[i..j] + Expected(t, limit, j)
    decreases j - i
  {
    SliceStep(t, i, j, Expected(t, limit, j));
    if i < j {
      ExpectedRun(t, limit, i + 1, j);
    }
  }

  lemma {:induction false} ExpectedDrop(t: seq<Entry>, limit: nat, i: nat, j: nat)
    requires i <= j <= |t|
    requires forall x :: i <= x < j ==> !Kept(t, limit, x)
    ensures Expected(t, limit, i) == Expected(t, limit, j)
    decreases j - i
  {
    if i < j {
      ExpectedDrop(t, limit, i + 1, j);
    }
  }

  // ---- One round, over any sequence that behaves like a window --------------------------------

  ghost predicate KeysApart(t: seq<Entry>) {
    forall i, j :: 0 <= i < j < |t| ==> Key(t[i]) != Key(t[j])
  }

  lemma {:induction false} DistinctKeysApart(t: seq<Entry>)
    requires DistinctKeys(t)
    ensures KeysApart(t)
  {
    hide Key;
    if t != [] {
      DistinctKeysApart(t[1..]);
      forall i, j | 0 <= i < j < |t| ensures Key(t[i]) != Key(t[j]) {
        assert t[j] == t[1..][j - 1];
        if i > 0 {
          assert t[i] == t[1..][i - 1];
        }
      }
    }
  }

  /** The lines of `t` a walk's next query reaches begin here. */
  function Reach(t: seq<Entry>, w: Walk): (k: nat)
    ensures k <= |t|
  {
    Skip(w.q.direction, t, Near(w.q), 0)
  }

  /** The walk has dealt with the first `c` lines of the window, the last of them in the edge second. */
  ghost predicate Standing(t: seq<Entry>, w: Walk, c: nat) {
    var k := Reach(t, w);
    && 0 < w.q.limit && w.q.direction != Unset
    && k <= c <= |t| && c - k <= w.q.limit
    && (c == k ==> w.seen == {})
    && (c > k ==> && Pace(w.q.direction, t[c - 1]) == Near(w.q)
                  && w.edge == Second(t[k].ns) && w.seen == KeySet(t[k..c]))
  }

  lemma StandingBasics(t: seq<Entry>, w: Walk, c: nat)
    requires Standing(t, w, c)
    ensures 0 < w.q.limit && w.q.direction != Unset && Reach(t, w) <= c <= |t|
  {
  }

  lemma FreshPart(w: Walk, t: seq<Entry>, k: nat, c: nat, h: nat)
    requires k <= c <= h <= |t| && KeysApart(t)
    requires forall i :: k <= i < c ==> Second(t[i].ns) == w.edge
    requires w.seen == KeySet(t[k..c])
    ensures Fresh(w, t[k..h]) == t[c..h]
  {
    hide Key;
    var page, p := t[k..h], (e: Entry) => IsFresh(w, e);
    forall i | 0 <= i < c - k ensures !p(page[i]) {
      assert page[i] == t[k..c][i];
    }
    forall i | c - k <= i < |page| ensures p(page[i]) {
      forall d | d in t[k..c] ensures Key(d) != Key(page[i]) {
      }
    }
    FilterSuffix(page, c - k, p);
  }

  lemma StandingFresh(t: seq<Entry>, w: Walk, c: nat, h: nat)
    requires Standing(t, w, c) && KeysApart(t) && PaceUp(w.q.direction, t) && c <= h <= |t|
    ensures Fresh(w, t[Reach(t, w)..h]) == t[c..h]
  {
    var k := Reach(t, w);
    if c == k {
      assert KeySet(t[k..c]) == {};
    }
    FreshPart(w, t, k, c, h);
  }

  lemma PageKept(t: seq<Entry>, w: Walk, c: nat, h: nat)
    requires Standing(t, w, c) && PaceUp(w.q.direction, t)
    requires c <= h <= |t| && h <= Reach(t, w) + w.q.limit
    ensures Expected(t, w.q.limit, c) == t[c..h] + Expected(t, w.q.limit, h)
  {
    ExpectedRun(t, w.q.limit, c, h);
  }

  /** The keys remembered for the second `sec`, whose lines in the page are those from `k'` on. */
  lemma EdgeKeys(t: seq<Entry>, k: nat, k': nat, h: nat, sec: int)
    requires k <= k' <= h <= |t|
    requires forall i :: k <= i < k' ==> Second(t[i].ns) != sec
    requires forall i :: k' <= i < h ==> Second(t[i].ns) == sec
    ensures KeysIn(sec, t[k..h]) == KeySet(t[k'..h])
  {
    hide Key;
    forall e | e in t[k..h] && Second(e.ns) == sec ensures e in t[k'..h] {
      var i :| k <= i < h && t[i] == e;
      assert t[i] == t[k'..h][i - k'];
    }
    forall e | e in t[k'..h] ensures e in t[k..h] && Second(e.ns) == sec {
      var i :| k' <= i < h && t[i] == e;
      assert t[i] == t[k..h][i - k];
    }
  }

  lemma SeenAfter(t: seq<Entry>, k: nat, k': nat, c: nat, h: nat, sec: int, edge: int, seen: set<Text>)
    requires k <= k' < h <= |t| && k <= c < h
    requires forall i :: k <= i < k' ==> Second(t[i].ns) != sec
    requires forall i :: k' <= i < h ==> Second(t[i].ns) == sec
    requires c == k ==> seen == {}
    requires c > k ==> edge == Second(t[k].ns) && seen == KeySet(t[k..c])
    ensures (if sec != edge then {} else seen) + KeysIn(sec, t[k..h]) == KeySet(t[k'..h])
  {
    hide Key;
    EdgeKeys(t, k, k', h, sec);
    if sec == edge && c > k {
      assert k' == k;
      forall e | e in t[k..c] ensures e in t[k..h] {
        var i :| k <= i < c && t[i] == e;
        assert t[i] == t[k..h][i - k];
      }
    }
  }

  lemma LastSecond(t: seq<Entry>, dir: Direction, h: nat) returns (k': nat)
    requires PaceUp(dir, t) && 0 < h <= |t|
    ensures k' == Skip(dir, t, Pace(dir, t[h - 1]), 0) < h
    ensures forall i :: 0 <= i < k' ==> Pace(dir, t[i]) < Pace(dir, t[h - 1])
    ensures forall i :: k' <= i < h ==> Second(t[i].ns) == Second(t[h - 1].ns)
  {
    k' := Skip(dir, t, Pace(dir, t[h - 1]), 0);
    forall i | k' <= i < h ensures Pace(dir, t[i]) == Pace(dir, t[h - 1]) {
    }
  }

  lemma AdvanceEdge(w: Walk, page: seq<Entry>)
    requires page != [] && Fresh(w, page) != []
    ensures var last := Second(page[|page| - 1].ns);
            && Advance(w, page).edge == last
            && Advance(w, page).seen == (if last != w.edge then {} else w.seen) + KeysIn(last, page)
  {
  }

  /** A full page with something new: the walk resumes in the second of its last line. */
  lemma ResumeInLast(t: seq<Entry>, w: Walk, c: nat, h: nat)
    requires Standing(t, w, c) && KeysApart(t) && PaceUp(w.q.direction, t)
    requires c < h == Reach(t, w) + w.q.limit <= |t|
    ensures Standing(t, Advance(w, t[Reach(t, w)..h]), h)
    ensures Near(w.q) <= Pace(w.q.direction, t[h - 1])
  {
    hide Key, Fresh, KeySet, KeysIn, KeysApart, Advance;
    var k := Reach(t, w);
    var page := t[k..h];
    StandingFresh(t, w, c, h);
    AdvanceNear(w, page);
    AdvanceEdge(w, page);
    assert page[|page| - 1] == t[h - 1];
    var k' := LastSecond(t, w.q.direction, h);
    assert k <= k';
    hide PaceUp, Near;
    SeenAfter(t, k, k', c, h, Second(t[h - 1].ns), w.edge, w.seen);
  }

  /** The rest of a second of which `limit` lines, from `k` to `c`, were dealt with is not expected. */
  lemma SkipRest(t: seq<Entry>, dir: Direction, limit: nat, a: int, k: nat, c: nat) returns (c': nat)
    requires PaceUp(dir, t) && k < c == k + limit <= |t|
    requires Pace(dir, t[k]) >= a && Pace(dir, t[c - 1]) == a
    ensures c <= c' <= |t| && c' == Skip(dir, t, a + 1, 0)
    ensures Expected(t, limit, c) == Expected(t, limit, c')
  {
    c' := Skip(dir, t, a + 1, 0);
    forall i | c <= i < c' ensures !Kept(t, limit, i) {
      assert Pace(dir, t[k]) <= Pace(dir, t[i - limit]) <= Pace(dir, t[i]);
    }
    ExpectedDrop(t, limit, c, c');
  }

  /** A full page with nothing new: the rest of the edge second is skipped. */
  lemma StepPast(t: seq<Entry>, w: Walk, c: nat) returns (c': nat)
    requires Standing(t, w, c) && KeysApart(t) && PaceUp(w.q.direction, t)
    requires c == Reach(t, w) + w.q.limit
    ensures c <= c' <= |t|
    ensures Standing(t, Advance(w, t[Reach(t, w)..c]), c')
    ensures Near(w.q) == Pace(w.q.direction, t[c - 1])
    ensures Near(Advance(w, t[Reach(t, w)..c]).q) == Near(w.q) + 1
    ensures Expected(t, w.q.limit, c) == Expected(t, w.q.limit, c')
  {
    hide Key, Expected;
    var k := Reach(t, w);
    var page := t[k..c];
    StandingFresh(t, w, c, c);
    assert Fresh(w, page) == [];
    AdvanceNear(w, page);
    assert page[|page| - 1] == t[c - 1];
    c' := SkipRest(t, w.q.direction, w.q.limit, Near(w.q), k, c);
  }

  // ---- The whole walk ------------------------------------------------------------------------

  lemma AdvanceNarrows(s: Server, first: Query, w: Walk, page: seq<Entry>)
    requires Narrowed(s, first, w.q) && w.q.direction != Unset && page != []
    requires Near(w.q) <= Pace(w.q.direction, page[|page| - 1])
    requires NoneHidden(s, first) || Near(first) < Pace(w.q.direction, page[|page| - 1])
    ensures Narrowed(s, first, Advance(w, page).q)
  {
    hide Key, Fresh, NoneHidden;
    AdvanceNear(w, page);
  }

  /** Where the bound is kept to, a full page reaches past its second or hides nothing by staying in it. */
  lemma FullPagePasses(s: Server, first: Query, h: nat)
    requires Honoured(s, first) && first.direction != Unset
    requires PaceUp(first.direction, Window(s, first)) && 0 < first.limit <= h <= |Window(s, first)|
    ensures NoneHidden(s, first) || Near(first) < Pace(first.direction, Window(s, first)[h - 1])
  {
    hide NoneHidden, Window;
    var t, dir := Window(s, first), first.direction;
    var lo, hi := Block(dir, t, NearSecond(first));
    WindowInside(s, first, t[0]);
    assert Pace(dir, t[0]) <= Pace(dir, t[h - 1]);
  }

  lemma RoundPage(s: Server, first: Query, w: Walk, c: nat) returns (h: nat)
    requires Narrowed(s, first, w.q) && Standing(Window(s, first), w, c)
    ensures var t := Window(s, first);
            && h == Min(Reach(t, w) + w.q.limit, |t|)
            && c <= h && QueryRange(s, w.q) == t[Reach(t, w)..h]
  {
    hide Window, Key, KeySet, Narrowed, Near, Pace;
    var t := Window(s, first);
    NarrowedWindow(s, first, w.q);
    h := Min(Reach(t, w) + w.q.limit, |t|);
    assert Take(t[Reach(t, w)..], w.q.limit) == t[Reach(t, w)..h];
  }

  /** The measure: lines of the window not yet dealt with, then seconds of it not yet reached. */
  function SecondsLeft(t: seq<Entry>, w: Walk): nat {
    if t == [] then 0 else Max(0, Pace(w.q.direction, t[|t| - 1]) - Near(w.q) + 1)
  }

  /** After a full page the walk stands further on, or in a later second. */
  lemma NextStanding(t: seq<Entry>, w: Walk, c: nat, h: nat, next: Walk) returns (c': nat)
    requires Standing(t, w, c) && KeysApart(t) && PaceUp(w.q.direction, t)
    requires 0 < h && c <= h == Reach(t, w) + w.q.limit <= |t|
    requires next == Advance(w, t[Reach(t, w)..h])
    ensures h <= c' <= |t| && Standing(t, next, c')
    ensures Expected(t, w.q.limit, h) == Expected(t, w.q.limit, c')
    ensures c < c' || (c == c' && SecondsLeft(t, next) < SecondsLeft(t, w))
    ensures Near(w.q) <= Pace(w.q.direction, t[h - 1])
  {
    hide *;
    if c < h {
      ResumeInLast(t, w, c, h);
      c' := h;
    } else {
      c' := StepPast(t, w, c);
      LaterSecond(t, w, next, h);
    }
  }

  lemma LaterSecond(t: seq<Entry>, w: Walk, next: Walk, h: nat)
    requires PaceUp(w.q.direction, t) && 0 < h <= |t|
    requires next.q.direction == w.q.direction
    requires Pace(w.q.direction, t[h - 1]) == Near(w.q) && Near(next.q) == Near(w.q) + 1
    ensures SecondsLeft(t, next) < SecondsLeft(t, w)
  {
  }

  lemma ExpectedEnd(t: seq<Entry>, limit: nat)
    ensures Expected(t, limit, |t|) == []
  {
  }

  ghost predicate Delivers(r: Outcome, total: seq<Entry>, keep: Consumer) {
    r.Done? && r.out <= total && (r.out == total || !keep(r.out))
  }

  /**
   From any standing the walk ends, having emitted the kept lines that remain, or a prefix of them
   after which the callback said stop.
   */
  lemma {:induction false} WalkOnStore(
      s: Server, first: Query, keep: Consumer, w: Walk, c: nat, out: seq<Entry>, calls: nat)
    returns (rounds: nat)
    requires Narrowed(s, first, w.q) && Honoured(s, first) && Standing(Window(s, first), w, c)
    requires KeysApart(Window(s, first)) && PaceUp(w.q.direction, Window(s, first))
    ensures Delivers(Walked(Fixed(s), keep, w, out, calls, rounds),
                     out + Expected(Window(s, first), w.q.limit, c), keep)
    decreases |Window(s, first)| - c, SecondsLeft(Window(s, first), w)
  {
    hide Window, Key, Advance, Fresh, QueryRange, Expected, KeysApart, PaceUp, Honoured, NoneHidden, Narrowed, Standing,
         Reach, Near, Pace, SecondsLeft, KeySet;
    StandingBasics(Window(s, first), w, c);
    SameDirection(s, first, w.q);
    var t, k, limit := Window(s, first), Reach(Window(s, first), w), w.q.limit;
    var h := RoundPage(s, first, w, c);
    var page, out' := t[k..h], out + t[c..h];
    StandingFresh(t, w, c, h);
    PageKept(t, w, c, h);
    assert out' + Expected(t, limit, h) == out + Expected(t, limit, c);
    if |page| < limit {
      assert h == |t|;
      ExpectedEnd(t, limit);
      rounds := 1;
    } else if c < h && !keep(out') {
      rounds := 1;
    } else {
      var c' := NextStanding(t, w, c, h, Advance(w, page));
      assert page[|page| - 1] == t[h - 1];
      FullPagePasses(s, first, h);
      AdvanceNarrows(s, first, w, page);
      var more := WalkOnStore(s, first, keep, Advance(w, page), c', out', calls + 1);
      rounds := more + 1;
    }
  }

  lemma {:induction false} InsertDistinct(dir: Direction, e: Entry, t: seq<Entry>)
    requires DistinctKeys(t) && Key(e) !in KeySet(t)
    ensures DistinctKeys(Insert(dir, e, t)) && KeySet(Insert(dir, e, t)) == KeySet(t) + {Key(e)}
  {
    hide Key;
    InsertMembers(dir, e, t);
    var r := Insert(dir, e, t);
    if t == [] || !Before(dir, t[0], e) {
      assert r[0] == e && r[1..] == t;
    } else {
      assert r[0] == t[0] && r[1..] == Insert(dir, e, t[1..]);
      assert forall x :: x in t[1..] ==> x in t;
      InsertDistinct(dir, e, t[1..]);
    }
  }

  lemma {:induction false} SortDistinct(dir: Direction, t: seq<Entry>)
    requires DistinctKeys(t)
    ensures DistinctKeys(SortEntries(dir, t)) && KeySet(SortEntries(dir, t)) == KeySet(t)
  {
    hide Key;
    if t != [] {
      SortDistinct(dir, t[1..]);
      InsertDistinct(dir, t[0], SortEntries(dir, t[1..]));
      assert t == [t[0]] + t[1..];
    }
  }

  lemma WindowApart(s: Server, q: Query)
    requires DistinctKeys(s.lines)
    ensures DistinctKeys(Window(s, q)) && KeysApart(Window(s, q)) && PaceUp(q.direction, Window(s, q))
  {
    hide Key, DistinctKeys, KeysApart, PaceUp, Ordered;
    var p := (e: Entry) => Inside(s, q, e);
    DistinctFilter(s.lines, p);
    SortDistinct(q.direction, Filter(s.lines, p));
    DistinctKeysApart(Window(s, q));
    WindowOrdered(s, q);
    PaceMonotone(q.direction, Window(s, q));
  }

  /** A walk begins at the first line of its window. */
  lemma FirstStanding(s: Server, q: Query)
    requires 0 < q.limit && q.direction != Unset
    ensures Standing(Window(s, q), Walk(q, -1, {}), 0) && Narrowed(s, q, q)
  {
    var t := Window(s, q);
    if t != [] {
      WindowInside(s, q, t[0]);
    }
  }

  /**
   On an unchanging store Pages ends, and what it emits is exactly the expected lines of the window
   in query order, or the prefix of them after which the callback stopped it.
   */
  lemma PagesOnStore(s: Server, q: Query, keep: Consumer) returns (rounds: nat)
    requires DistinctKeys(s.lines) && Honoured(s, Normalize(q))
    ensures Delivers(Walked(Fixed(s), keep, Start(q), [], 0, rounds),
                     Expected(Window(s, Normalize(q)), Normalize(q).limit, 0), keep)
  {
    var first := Normalize(q);
    var w := Start(q);
    assert w == Walk(first, -1, {});
    hide *;
    WindowApart(s, first);
    FirstStanding(s, first);
    rounds := WalkOnStore(s, first, keep, w, 0, [], 0);
    assert [] + Expected(Window(s, first), first.limit, 0) == Expected(Window(s, first), first.limit, 0);
  }

  // ---- Expected, read second by second -------------------------------------------------------

  function LinesOf(t: seq<Entry>, sec: int): seq<Entry> {
    Filter(t, (e: Entry) => Second(e.ns) == sec)
  }

  /** The lines of one second stand together in an ordered window. */
  lemma Block(dir: Direction, t: seq<Entry>, sec: int) returns (lo: nat, hi: nat)
    requires PaceUp(dir, t)
    ensures lo <= hi <= |t|
    ensures forall i :: 0 <= i < |t| ==> (Second(t[i].ns) == sec <==> lo <= i < hi)
    ensures LinesOf(t, sec) == t[lo..hi]
  {
    var p, a := (e: Entry) => Second(e.ns) == sec, if dir == Forward then sec else -sec;
    lo := Skip(dir, t, a, 0);
    hi := Skip(dir, t, a + 1, lo);
    forall i | 0 <= i < |t| ensures Second(t[i].ns) == sec <==> lo <= i < hi {
      if hi <= i {
        assert Pace(dir, t[hi]) <= Pace(dir, t[i]);
      } else if lo <= i {
        assert Pace(dir, t[lo]) <= Pace(dir, t[i]);
      }
    }
    FilterStretch(t, lo, hi, p);
  }

  lemma {:induction false} FilterExpectedSkip(t: seq<Entry>, limit: nat, i: nat, j: nat, p: Entry -> bool)
    requires i <= j <= |t|
    requires forall x :: i <= x < j ==> !p(t[x])
    ensures Filter(Expected(t, limit, i), p) == Filter(Expected(t, limit, j), p)
    decreases j - i
  {
    hide Filter;
    if i < j {
      FilterExpectedSkip(t, limit, i + 1, j, p);
      FilterCons(t[i], Expected(t, limit, i + 1), p);
    }
  }

  /** Of every second, the expected lines are its first `limit` lines in query order. */
  lemma SecondShare(dir: Direction, t: seq<Entry>, limit: nat, sec: int)
    requires PaceUp(dir, t)
    ensures LinesOf(Expected(t, limit, 0), sec) == Take(LinesOf(t, sec), limit)
  {
    hide Expected, Filter;
    var p := (e: Entry) => Second(e.ns) == sec;
    var lo, hi := Block(dir, t, sec);
    var mid := Min(hi, lo + limit);
    FilterExpectedSkip(t, limit, 0, lo, p);
    ExpectedRun(t, limit, lo, mid);
    ExpectedDrop(t, limit, mid, hi);
    FilterAppend(t[lo..mid], Expected(t, limit, hi), p);
    FilterAll(t[lo..mid], p);
    FilterExpectedSkip(t, limit, hi, |t|, p);
    ExpectedEnd(t, limit);
    assert Take(t[lo..hi], limit) == t[lo..mid];
  }

  /** The whole window is emitted exactly when no second of it holds more than a page. */
  lemma WholeWindowIff(dir: Direction, t: seq<Entry>, limit: nat)
    requires PaceUp(dir, t)
    ensures Expected(t, limit, 0) == t <==>
            forall sec :: |LinesOf(t, sec)| <= limit
  {
    hide Expected;
    if Expected(t, limit, 0) == t {
      forall sec ensures |LinesOf(t, sec)| <= limit {
        SecondShare(dir, t, limit, sec);
      }
    }
    if forall sec :: |LinesOf(t, sec)| <= limit {
      forall i | 0 <= i < |t| ensures Kept(t, limit, i) {
        var sec := Second(t[i].ns);
        var lo, hi := Block(dir, t, sec);
        assert |LinesOf(t, sec)| <= limit;
      }
      ExpectedRun(t, limit, 0, |t|);
      ExpectedEnd(t, limit);
    }
  }

  /** What is emitted keeps the window's order. */
  lemma {:induction false} ExpectedInOrder(dir: Direction, t: seq<Entry>, limit: nat, i: nat)
    requires PaceUp(dir, t) && i <= |t|
    requires forall x, y :: 0 <= x < y < |t| ==> !Before(dir, t[y], t[x])
    ensures Ordered(dir, Expected(t, limit, i))
    ensures forall e :: e in Expected(t, limit, i) ==> e in t[i..]
    decreases |t| - i
  {
    if i < |t| {
      ExpectedInOrder(dir, t, limit, i + 1);
      assert t[i..] == [t[i]] + t[i + 1..];
      var rest := Expected(t, limit, i + 1);
      assert ([t[i]] + rest)[1..] == rest;
    }
  }

  lemma {:induction false} OrderedPrefix(dir: Direction, t: seq<Entry>, n: nat)
    requires Ordered(dir, t) && n <= |t|
    ensures Ordered(dir, t[..n])
  {
    if n > 0 {
      OrderedPrefix(dir, t[1..], n - 1);
      assert t[..n][1..] == t[1..][..n - 1];
      assert forall x :: x in t[..n][1..] ==> x in t[1..];
    }
  }

  lemma WindowInside(s: Server, q: Query, e: Entry)
    requires e in Window(s, q)
    ensures Inside(s, q, e)
  {
    var p := (x: Entry) => Inside(s, q, x);
    WindowOrdered(s, q);
    FilterMembers(s.lines, p);
    assert e in multiset(Window(s, q));
    assert e in Filter(s.lines, p);
  }

  lemma StoreInWindow(s: Server, q: Query, e: Entry)
    requires e in s.lines && Inside(s, q, e)
    ensures e in Window(s, q)
  {
    var p := (x: Entry) => Inside(s, q, x);
    FilterMembers(s.lines, p);
    WindowOrdered(s, q);
    assert e in multiset(Filter(s.lines, p));
    assert e in multiset(Window(s, q));
  }

  lemma StorePage(s: Server, q: Query)
    requires DistinctKeys(s.lines)
    ensures PageFor(q, QueryRange(s, q))
  {
    hide Key, DistinctKeys, Ordered, Window, KeysApart, PaceUp;
    var t, page := Window(s, q), QueryRange(s, q);
    WindowOrdered(s, q);
    WindowApart(s, q);
    OrderedPrefix(q.direction, t, |page|);
    assert t == page + t[|page|..];
    DistinctAppend(page, t[|page|..]);
    forall e | e in page ensures Second(q.start) <= Second(e.ns) && e.ns < q.end {
      WindowInside(s, q, e);
    }
  }

  /** An unchanging store without repeats, exact or truncating, answers as walking asks of a server. */
  lemma StoreIsHonest(s: Server)
    requires DistinctKeys(s.lines)
    ensures Honest(Fixed(s))
  {
    hide QueryRange, PageFor, DistinctKeys;
    forall n: nat, q: Query ensures PageFor(q, Fixed(s)(n, q).page) {
      StorePage(s, q);
    }
  }

  // ---- A store for examples --------------------------------------------------------------------

  /** n lines a nanosecond apart from time 1 s on. */
  function Burst(n: nat): (r: seq<Entry>)
    ensures |r| == n && forall i :: 0 <= i < n ==> r[i].ns == SECOND + i
  {
    seq(n, i => Entry(SECOND + i, map[], []))
  }

  lemma {:induction false} ClimbingIsDistinct(t: seq<Entry>)
    requires forall i, j :: 0 <= i < j < |t| ==> t[i].ns < t[j].ns
    ensures DistinctKeys(t)
  {
    hide Key;
    if t != [] {
      ClimbingIsDistinct(t[1..]);
      forall e | e in t[1..] ensures Key(e) != Key(t[0]) {
        if Key(e) == Key(t[0]) { KeyFixesTime(e, t[0]); }
      }
    }
  }
}
