/**
 Pages against a store whose lines do not change but whose answers may order the lines of one instant
 differently each time, as a database does.
 */
module Arrangements {
  import opened Texts
  import opened Entries
  import opened Paging
  import opened PagingExact
  import opened Fetch

  /** `all` is the window in some order by time. */
  ghost predicate Arrangement(s: Server, q: Query, all: seq<Entry>) {
    multiset(all) == multiset(Window(s, q)) && Ordered(q.direction, all)
  }

  /** `page` is the window in some order by time, cut at the limit. */
  ghost predicate Arranged(s: Server, q: Query, page: seq<Entry>) {
    exists all :: Arrangement(s, q, all) && page == Take(all, Max(0, q.limit))
  }

  /** Every answer is an arrangement of the same store's window, no two answers necessarily the same one. */
  ghost predicate Arranges(querier: Querier, s: Server) {
    forall n: nat, q: Query :: querier(n, q).Lines? && Arranged(s, q, querier(n, q).page)
  }

  lemma {:induction false} DistinctByCount(s: seq<Entry>)
    ensures |KeySet(s)| <= |s|
    ensures DistinctKeys(s) <==> |KeySet(s)| == |s|
  {
    hide Key;
    if s != [] {
      DistinctByCount(s[1..]);
      assert s == [s[0]] + s[1..];
      assert KeySet(s) == {Key(s[0])} + KeySet(s[1..]);
    }
  }

  lemma PermutedDistinct(a: seq<Entry>, b: seq<Entry>)
    requires multiset(a) == multiset(b) && DistinctKeys(a)
    ensures DistinctKeys(b)
  {
    hide Key, DistinctKeys;
    assert forall e :: e in a <==> e in multiset(a);
    assert forall e :: e in b <==> e in multiset(b);
    assert KeySet(a) == KeySet(b);
    assert |a| == |multiset(a)| && |b| == |multiset(b)|;
    DistinctByCount(a);
    DistinctByCount(b);
  }

  lemma {:induction false} ClimbOrdered(dir: Direction, s: seq<Entry>)
    requires forall i, j :: 0 <= i < j < |s| ==> !Before(dir, s[j], s[i])
    ensures Ordered(dir, s)
  {
    if s != [] {
      ClimbOrdered(dir, s[1..]);
      forall x | x in s[1..] ensures !Before(dir, x, s[0]) {
        var j :| 0 <= j < |s[1..]| && s[1..][j] == x;
        assert s[j + 1] == x;
      }
    }
  }

  lemma ArrangementFacts(s: Server, q: Query, all: seq<Entry>)
    requires Arrangement(s, q, all) && DistinctKeys(s.lines)
    ensures DistinctKeys(all) && PaceUp(q.direction, all) && |all| == |Window(s, q)|
    ensures forall e :: e in all <==> e in Window(s, q)
  {
    hide Key, DistinctKeys, Window, Ordered, PaceUp, KeysApart;
    var t := Window(s, q);
    WindowApart(s, q);
    PermutedDistinct(t, all);
    PaceMonotone(q.direction, all);
    assert forall e :: e in all <==> e in multiset(all);
    assert forall e :: e in t <==> e in multiset(t);
    assert |all| == |multiset(all)| && |t| == |multiset(t)|;
  }

  lemma ArrangedPage(s: Server, q: Query, page: seq<Entry>)
    requires Arranged(s, q, page) && DistinctKeys(s.lines)
    ensures PageFor(q, page) && forall e :: e in page ==> e in Window(s, q)
  {
    hide Key, DistinctKeys, Window, Ordered, PaceUp;
    var all :| Arrangement(s, q, all) && page == Take(all, Max(0, q.limit));
    ArrangementFacts(s, q, all);
    OrderedPrefix(q.direction, all, |page|);
    assert all == page + all[|page|..];
    DistinctAppend(page, all[|page|..]);
    forall e | e in page ensures e in Window(s, q) && Second(q.start) <= Second(e.ns) && e.ns < q.end {
      assert e in all;
      WindowInside(s, q, e);
    }
  }

  lemma ArrangesIsHonest(querier: Querier, s: Server)
    requires Arranges(querier, s) && DistinctKeys(s.lines)
    ensures Honest(querier)
  {
    hide Arranged, PageFor, DistinctKeys;
    forall n: nat, q: Query | querier(n, q).Lines? ensures PageFor(q, querier(n, q).page) {
      ArrangedPage(s, q, querier(n, q).page);
    }
  }

  /** A line of the window that the page leaves out is no nearer than the page's last. */
  lemma BeyondLast(s: Server, q: Query, page: seq<Entry>, e: Entry)
    requires Arranged(s, q, page) && DistinctKeys(s.lines) && q.limit > 0
    requires e in Window(s, q) && e !in page
    ensures |page| == q.limit && Pace(q.direction, page[|page| - 1]) <= Pace(q.direction, e)
  {
    hide Key, DistinctKeys, Window, Ordered, Pace;
    var all :| Arrangement(s, q, all) && page == Take(all, Max(0, q.limit));
    ArrangementFacts(s, q, all);
    var i :| 0 <= i < |all| && all[i] == e;
    assert forall k :: 0 <= k < |page| ==> page[k] == all[k] && page[k] in page;
  }

  /** A full page whose last line lies in the nearest second holds all of it, if that second fits a page. */
  lemma NearestFits(s: Server, q: Query, page: seq<Entry>, e: Entry)
    requires Arranged(s, q, page) && DistinctKeys(s.lines) && q.limit > 0 && q.direction != Unset
    requires |page| == q.limit && Pace(q.direction, page[|page| - 1]) == Near(q)
    requires e in Window(s, q) && Pace(q.direction, e) == Near(q)
    requires |LinesOf(Window(s, q), NearSecond(q))| <= q.limit
    ensures e in page
  {
    hide Key, DistinctKeys, Window, Ordered, LinesOf;
    var all :| Arrangement(s, q, all) && page == Take(all, Max(0, q.limit));
    ArrangementFacts(s, q, all);
    SameCount(s, q, all);
    var lo, hi := Block(q.direction, all, NearSecond(q));
    var i :| 0 <= i < |all| && all[i] == e;
    WindowInside(s, q, all[0]);
    NearInside(s, q, all[0]);
    assert page[|page| - 1] == all[|page| - 1];
    assert lo == 0 by {
      assert Pace(q.direction, all[0]) <= Pace(q.direction, all[|page| - 1]);
    }
    assert page[i] == e;
  }

  lemma SameCount(s: Server, q: Query, all: seq<Entry>)
    requires Arrangement(s, q, all)
    ensures |LinesOf(all, NearSecond(q))| == |LinesOf(Window(s, q), NearSecond(q))|
  {
    hide Window, Filter;
    var p := (e: Entry) => Second(e.ns) == NearSecond(q);
    FilterLength(all, Window(s, q), p);
    FilterLength(Window(s, q), all, p);
  }

  // ---- The walk ----------------------------------------------------------------------------------------

  /**
   Lines nearer than the walk's next query are out, and so are those it remembers, which lie in the second
   it resumes in.
   */
  ghost predicate Swept(t: seq<Entry>, w: Walk, out: seq<Entry>) {
    && w.seen <= KeySet(out) && (w.seen != {} ==> w.edge == NearSecond(w.q))
    && (forall e :: e in t && Pace(w.q.direction, e) < Near(w.q) ==> Key(e) in KeySet(out))
  }

  /** No second holds more than a page. */
  ghost predicate Roomy(t: seq<Entry>, limit: int) {
    forall sec :: |LinesOf(t, sec)| <= limit
  }

  lemma PageIsOut(w: Walk, out: seq<Entry>, page: seq<Entry>)
    requires w.seen <= KeySet(out)
    ensures forall e :: e in page ==> Key(e) in KeySet(out + Fresh(w, page))
    ensures KeySet(out) <= KeySet(out + Fresh(w, page))
  {
    hide Key;
    FilterMembers(page, (e: Entry) => IsFresh(w, e));
    forall e | e in page ensures Key(e) in KeySet(out + Fresh(w, page)) {
      if IsFresh(w, e) {
        assert e in out + Fresh(w, page);
      } else {
        var x :| x in out && Key(x) == Key(e);
        assert x in out + Fresh(w, page);
      }
    }
  }

  lemma SeenIsOut(w: Walk, out: seq<Entry>, page: seq<Entry>)
    requires w.seen <= KeySet(out) && page != [] && w.q.direction != Unset
    ensures var next := Advance(w, page);
            next.seen <= KeySet(out + Fresh(w, page)) && (next.seen != {} ==> next.edge == NearSecond(next.q))
  {
    PageIsOut(w, out, page);
    AdvanceNear(w, page);
    hide Key, Fresh, KeySet, Near;
    var last := Second(page[|page| - 1].ns);
    forall k | k in KeysIn(last, page) ensures k in KeySet(out + Fresh(w, page)) {
      var e :| e in page && Second(e.ns) == last && Key(e) == k;
    }
  }

  /** The window of a later query is what remains of the first. */
  lemma NarrowedMembers(s: Server, first: Query, q: Query, e: Entry)
    requires Narrowed(s, first, q) && q.direction != Unset
    ensures e in Window(s, q) <==> e in Window(s, first) && Pace(q.direction, e) >= Near(q)
  {
    hide Window, Narrowed, Inside, Near, Pace;
    if e in Window(s, q) {
      WindowInside(s, q, e);
      WindowFromStore(s, q, e);
      NarrowedInside(s, first, q, e);
      StoreInWindow(s, first, e);
    }
    if e in Window(s, first) && Pace(q.direction, e) >= Near(q) {
      WindowInside(s, first, e);
      WindowFromStore(s, first, e);
      NarrowedInside(s, first, q, e);
      StoreInWindow(s, q, e);
    }
  }

  lemma NearCountFits(s: Server, first: Query, q: Query)
    requires Narrowed(s, first, q) && q.direction != Unset && PaceUp(q.direction, Window(s, first))
    requires Roomy(Window(s, first), q.limit)
    ensures |LinesOf(Window(s, q), NearSecond(q))| <= q.limit
  {
    hide Window, Narrowed;
    var t, k, p := Window(s, first), Skip(q.direction, Window(s, first), Near(q), 0),
                   (e: Entry) => Second(e.ns) == NearSecond(q);
    NarrowedWindow(s, first, q);
    assert t == t[..k] + t[k..];
    FilterAppend(t[..k], t[k..], p);
    assert |LinesOf(t, NearSecond(q))| <= q.limit;
  }

  /** After a full page everything nearer than where the walk resumes is out. */
  lemma FullPageSweeps(s: Server, first: Query, w: Walk, out: seq<Entry>, page: seq<Entry>)
    requires Narrowed(s, first, w.q) && w.q.limit > 0 && w.q.direction != Unset && DistinctKeys(s.lines)
    requires Roomy(Window(s, first), w.q.limit) && Swept(Window(s, first), w, out)
    requires Arranged(s, w.q, page) && |page| == w.q.limit
    ensures Swept(Window(s, first), Advance(w, page), out + Fresh(w, page))
  {
    hide Key, Fresh, KeySet, Window, Narrowed, Arranged, Advance, Roomy, DistinctKeys, LinesOf, Pace, Near;
    var t, dir, out' := Window(s, first), w.q.direction, out + Fresh(w, page);
    SeenIsOut(w, out, page);
    PageIsOut(w, out, page);
    AdvanceNear(w, page);
    forall e | e in t && Pace(dir, e) < Near(Advance(w, page).q) ensures Key(e) in KeySet(out') {
      if Pace(dir, e) >= Near(w.q) {
        SweptLine(s, first, w, out, page, e);
      }
    }
  }

  lemma SweptLine(s: Server, first: Query, w: Walk, out: seq<Entry>, page: seq<Entry>, e: Entry)
    requires Narrowed(s, first, w.q) && w.q.limit > 0 && w.q.direction != Unset && DistinctKeys(s.lines)
    requires Roomy(Window(s, first), w.q.limit) && Swept(Window(s, first), w, out)
    requires Arranged(s, w.q, page) && |page| == w.q.limit
    requires e in Window(s, first) && Near(w.q) <= Pace(w.q.direction, e) < Near(Advance(w, page).q)
    ensures e in page
  {
    hide Key, KeySet, Window, Narrowed, Arranged, Roomy, DistinctKeys, LinesOf, Advance, Fresh;
    var dir, last := w.q.direction, page[|page| - 1];
    AdvanceNear(w, page);
    NarrowedMembers(s, first, w.q, e);
    if Fresh(w, page) == [] && Pace(dir, e) == Pace(dir, last) {
      StaleNear(w, page);
      WindowApart(s, first);
      SameDirection(s, first, w.q);
      NearCountFits(s, first, w.q);
      NearestFits(s, w.q, page, e);
    } else if e !in page {
      BeyondLast(s, w.q, page, e);
    }
  }

  /** A page with nothing new lies in the second the walk resumed in. */
  lemma StaleNear(w: Walk, page: seq<Entry>)
    requires page != [] && Fresh(w, page) == [] && w.q.direction != Unset
    requires w.seen != {} ==> w.edge == NearSecond(w.q)
    ensures Pace(w.q.direction, page[|page| - 1]) == Near(w.q)
  {
    hide Key, Near;
    FilterMembers(page, (e: Entry) => IsFresh(w, e));
    assert page[|page| - 1] in page;
  }

  /** Where the bound is kept to, a full page reaches past its second or hides nothing by staying in it. */
  lemma ArrangedPasses(s: Server, q: Query, page: seq<Entry>)
    requires Honoured(s, q) && q.direction != Unset && DistinctKeys(s.lines)
    requires Arranged(s, q, page) && 0 < q.limit == |page|
    ensures NoneHidden(s, q) || Near(q) < Pace(q.direction, page[|page| - 1])
  {
    hide NoneHidden, Window, Key, DistinctKeys, Ordered, LinesOf;
    var all :| Arrangement(s, q, all) && page == Take(all, Max(0, q.limit));
    ArrangementFacts(s, q, all);
    SameCount(s, q, all);
    var lo, hi := Block(q.direction, all, NearSecond(q));
    WindowInside(s, q, all[0]);
    NearInside(s, q, all[0]);
    assert page[|page| - 1] == all[|page| - 1];
    assert Pace(q.direction, all[0]) <= Pace(q.direction, all[|page| - 1]);
  }

  lemma FullPageNarrows(s: Server, first: Query, w: Walk, page: seq<Entry>)
    requires Honoured(s, first) && Narrowed(s, first, w.q) && DistinctKeys(s.lines)
    requires Arranged(s, w.q, page) && 0 < w.q.limit == |page| && w.q.direction != Unset
    ensures Narrowed(s, first, Advance(w, page).q) && Near(w.q) <= Pace(w.q.direction, page[|page| - 1])
  {
    hide Key, Fresh, Advance, Honoured, NoneHidden, Window, Arranged, DistinctKeys;
    var last := page[|page| - 1];
    ArrangedPage(s, w.q, page);
    assert last in page;
    NarrowedMembers(s, first, w.q, last);
    if w.q == first {
      ArrangedPasses(s, first, page);
    }
    AdvanceNarrows(s, first, w, page);
  }

  /** The walk has emitted lines of the window only, each once, and all it has passed. */
  ghost predicate Underway(t: seq<Entry>, w: Walk, out: seq<Entry>) {
    Swept(t, w, out) && Unrepeated(w, out) && forall e :: e in out ==> e in t
  }

  lemma FreshInWindow(s: Server, first: Query, w: Walk, page: seq<Entry>)
    requires Narrowed(s, first, w.q) && w.q.direction != Unset && DistinctKeys(s.lines) && Arranged(s, w.q, page)
    ensures forall e :: e in Fresh(w, page) ==> e in Window(s, first)
  {
    hide Key, Fresh, Window, Narrowed, Arranged, DistinctKeys;
    ArrangedPage(s, w.q, page);
    FreshFromPage(w, page);
    forall e | e in Fresh(w, page) ensures e in Window(s, first) {
      NarrowedMembers(s, first, w.q, e);
    }
  }

  lemma FullPageUnderway(s: Server, first: Query, w: Walk, out: seq<Entry>, page: seq<Entry>)
    requires Honoured(s, first) && Narrowed(s, first, w.q) && w.q.limit > 0 && w.q.direction != Unset
    requires DistinctKeys(s.lines) && Roomy(Window(s, first), w.q.limit) && Underway(Window(s, first), w, out)
    requires Arranged(s, w.q, page) && |page| == w.q.limit
    ensures Narrowed(s, first, Advance(w, page).q)
    ensures Underway(Window(s, first), Advance(w, page), out + Fresh(w, page))
  {
    hide Key, Fresh, Window, Narrowed, Arranged, DistinctKeys, Advance, Roomy, Honoured, Swept, Passed;
    FullPageNarrows(s, first, w, page);
    FullPageSweeps(s, first, w, out, page);
    ArrangedPage(s, w.q, page);
    FreshIsNew(w, out, page);
    AdvancePasses(w, out, page);
    FreshInWindow(s, first, w, page);
  }

  /** A page that is not full ends the walk with all of the window out. */
  lemma LastPageCompletes(s: Server, first: Query, w: Walk, out: seq<Entry>, page: seq<Entry>)
    requires Narrowed(s, first, w.q) && w.q.limit > 0 && w.q.direction != Unset
    requires DistinctKeys(s.lines) && Underway(Window(s, first), w, out)
    requires Arranged(s, w.q, page) && |page| < w.q.limit
    ensures Complete(Window(s, first), out + Fresh(w, page))
  {
    hide Key, Fresh, Window, Narrowed, Arranged, DistinctKeys, KeysApart, PaceUp, KeySet, Passed;
    var t, out' := Window(s, first), out + Fresh(w, page);
    ArrangedPage(s, w.q, page);
    FreshIsNew(w, out, page);
    FreshInWindow(s, first, w, page);
    PageIsOut(w, out, page);
    forall e | e in t ensures Key(e) in KeySet(out') {
      NarrowedMembers(s, first, w.q, e);
      if Pace(w.q.direction, e) >= Near(w.q) && e !in page {
        BeyondLast(s, w.q, page, e);
      }
    }
    WindowApart(s, first);
    AllKeysAllLines(t, out');
  }

  /** Every line of `t`, each once, and no other. */
  ghost predicate Complete(t: seq<Entry>, out: seq<Entry>) {
    DistinctKeys(out) && forall e :: e in out <==> e in t
  }

  lemma AllKeysAllLines(t: seq<Entry>, out: seq<Entry>)
    requires KeysApart(t) && (forall e :: e in out ==> e in t) && forall e :: e in t ==> Key(e) in KeySet(out)
    ensures forall e :: e in out <==> e in t
  {
    hide Key;
    forall e | e in t ensures e in out {
      var x :| x in out && Key(x) == Key(e);
      var i :| 0 <= i < |t| && t[i] == e;
      var j :| 0 <= j < |t| && t[j] == x;
      assert i == j;
    }
  }

  lemma NewsShrinks(t: seq<Entry>, out: seq<Entry>, news: seq<Entry>)
    requires news != [] && DistinctKeys(out + news) && forall e :: e in news ==> e in t
    ensures KeySet(t) - KeySet(out + news) < KeySet(t) - KeySet(out)
  {
    hide Key, DistinctKeys;
    DistinctAppend(out, news);
    assert news[0] in news && Key(news[0]) in KeySet(t) && Key(news[0]) in KeySet(news);
    assert KeySet(out + news) == KeySet(out) + KeySet(news);
  }

  lemma StaleIsLater(s: Server, first: Query, w: Walk, page: seq<Entry>)
    requires Narrowed(s, first, w.q) && w.q.direction != Unset && DistinctKeys(s.lines)
    requires Arranged(s, w.q, page) && page != [] && Fresh(w, page) == []
    ensures SecondsLeft(Window(s, first), Advance(w, page)) < SecondsLeft(Window(s, first), w)
  {
    hide Key, Fresh, Window, Narrowed, Arranged, DistinctKeys, Advance, KeysApart, Near, Pace;
    var t, last := Window(s, first), page[|page| - 1];
    ArrangedPage(s, w.q, page);
    assert last in page;
    NarrowedMembers(s, first, w.q, last);
    AdvanceNear(w, page);
    WindowApart(s, first);
    SameDirection(s, first, w.q);
    var i :| 0 <= i < |t| && t[i] == last;
    assert Pace(w.q.direction, t[i]) <= Pace(w.q.direction, t[|t| - 1]);
  }

  lemma {:induction false} ArrangedWalk(
      querier: Querier, s: Server, first: Query, w: Walk, out: seq<Entry>, calls: nat) returns (rounds: nat)
    requires Arranges(querier, s) && DistinctKeys(s.lines) && Honoured(s, first)
    requires Narrowed(s, first, w.q) && w.q.limit > 0 && w.q.direction != Unset
    requires Roomy(Window(s, first), w.q.limit) && Underway(Window(s, first), w, out)
    ensures var r := Walked(querier, Always(), w, out, calls, rounds);
            r.Done? && Complete(Window(s, first), r.out)
    decreases KeySet(Window(s, first)) - KeySet(out), SecondsLeft(Window(s, first), w)
  {
    hide Key, Fresh, Window, Narrowed, Arranged, DistinctKeys, Advance, Roomy, Honoured, Swept, KeySet, Complete,
         SecondsLeft;
    var t, page := Window(s, first), querier(calls, w.q).page;
    assert querier(calls, w.q).Lines? && Arranged(s, w.q, page);
    var news := Fresh(w, page);
    if |page| < w.q.limit {
      LastPageCompletes(s, first, w, out, page);
      rounds := 1;
    } else {
      ArrangedFits(s, w.q, page);
      FullPageUnderway(s, first, w, out, page);
      if news == [] {
        assert out + news == out;
        StaleIsLater(s, first, w, page);
      } else {
        FreshInWindow(s, first, w, page);
        NewsShrinks(t, out, news);
      }
      var more := ArrangedWalk(querier, s, first, Advance(w, page), out + news, calls + 1);
      rounds := more + 1;
    }
  }

  lemma ArrangedFits(s: Server, q: Query, page: seq<Entry>)
    requires Arranged(s, q, page) && q.limit > 0
    ensures |page| <= q.limit
  {
  }

  /**
   Whatever order each answer gives the lines of one instant, Pages ends and emits every line of the window
   once, where its bound is kept to and no second exceeds a page.
   */
  lemma PagesArranged(querier: Querier, s: Server, q: Query) returns (rounds: nat)
    requires Arranges(querier, s) && DistinctKeys(s.lines) && Honoured(s, Normalize(q))
    requires Roomy(Window(s, Normalize(q)), Normalize(q).limit)
    ensures var r := Walked(querier, Always(), Start(q), [], 0, rounds);
            r.Done? && Complete(Window(s, Normalize(q)), r.out)
  {
    var first := Normalize(q);
    hide Key, Window, DistinctKeys, Honoured, Roomy, Arranges, Complete;
    FirstStanding(s, first);
    WindowNotNearer(s, first);
    assert DistinctKeys([]) by { NothingIsDistinct(); }
    rounds := ArrangedWalk(querier, s, first, Start(q), [], 0);
  }

  lemma NothingIsDistinct()
    ensures DistinctKeys([])
  {
  }

  lemma WindowNotNearer(s: Server, q: Query)
    requires q.direction != Unset
    ensures forall e :: e in Window(s, q) ==> Pace(q.direction, e) >= Near(q)
  {
    hide Window;
    forall e | e in Window(s, q) ensures Pace(q.direction, e) >= Near(q) {
      WindowInside(s, q, e);
      NearInside(s, q, e);
    }
  }

  // ---- And only there ------------------------------------------------------------------------------------

  /** The walk ends with every line of the window out. */
  ghost predicate EmitsWindow(querier: Querier, s: Server, q: Query) {
    exists rounds: nat ::
      var r := Walked(querier, Always(), Start(q), [], 0, rounds);
      r.Done? && forall e :: e in Window(s, Normalize(q)) ==> e in r.out
  }

  lemma FixedArranges(s: Server)
    ensures Arranges(Fixed(s), s)
  {
    hide Window, Ordered;
    forall n: nat, q: Query ensures Arranged(s, q, Fixed(s)(n, q).page) {
      WindowOrdered(s, q);
      assert Arrangement(s, q, Window(s, q));
    }
  }

  /** A walk that has ended is not changed by more rounds. */
  lemma {:induction false} WalkedSettles(
      querier: Querier, keep: Consumer, w: Walk, out: seq<Entry>, calls: nat, a: nat, b: nat)
    requires w.q.limit > 0 && a <= b && !Walked(querier, keep, w, out, calls, a).Unfinished?
    ensures Walked(querier, keep, w, out, calls, b) == Walked(querier, keep, w, out, calls, a)
    decreases a
  {
    hide Fresh, Advance, Walked;
    if a == 0 {
      NoRounds(querier, keep, w, out, calls);
    } else {
      WalkedStep(querier, keep, w, out, calls, a);
      WalkedStep(querier, keep, w, out, calls, b);
      if querier(calls, w.q).Lines? {
        var page := querier(calls, w.q).page;
        if !((Fresh(w, page) != [] && !keep(out + Fresh(w, page))) || |page| < w.q.limit) {
          WalkedSettles(querier, keep, Advance(w, page), out + Fresh(w, page), calls + 1, a - 1, b - 1);
        }
      }
    }
  }

  /** A second that exceeds a page has a line that is not expected. */
  lemma Overfull(dir: Direction, t: seq<Entry>, limit: nat, sec: int) returns (e: Entry)
    requires PaceUp(dir, t) && KeysApart(t) && |LinesOf(t, sec)| > limit
    ensures e in t && e !in Expected(t, limit, 0)
  {
    hide Expected, Key, Filter;
    var lo, hi := Block(dir, t, sec);
    SecondShare(dir, t, limit, sec);
    e := t[lo + limit];
    forall j | lo <= j < lo + limit ensures t[j] != e {
      assert Key(t[j]) != Key(t[lo + limit]);
    }
    assert e !in Take(t[lo..hi], limit);
    FilterMembers(Expected(t, limit, 0), (x: Entry) => Second(x.ns) == sec);
  }

  /** If everything is expected, no second exceeds a page. */
  lemma AllExpectedIsRoomy(dir: Direction, t: seq<Entry>, limit: nat)
    requires PaceUp(dir, t) && KeysApart(t) && forall e :: e in t ==> e in Expected(t, limit, 0)
    ensures Roomy(t, limit)
  {
    hide Expected, Key, LinesOf, KeysApart, PaceUp;
    forall sec ensures |LinesOf(t, sec)| <= limit {
      if |LinesOf(t, sec)| > limit {
        var e := Overfull(dir, t, limit, sec);
      }
    }
  }

  lemma FixedEmitsIsRoomy(s: Server, q: Query)
    requires DistinctKeys(s.lines) && Honoured(s, Normalize(q)) && EmitsWindow(Fixed(s), s, q)
    ensures Roomy(Window(s, Normalize(q)), Normalize(q).limit)
  {
    hide Key, Window, DistinctKeys, Honoured, Walked, Roomy, Expected, KeysApart, PaceUp;
    var first := Normalize(q);
    var rounds: nat :|
      var r := Walked(Fixed(s), Always(), Start(q), [], 0, rounds);
      r.Done? && forall e :: e in Window(s, first) ==> e in r.out;
    var enough := PagesOnStore(s, q, Always());
    if rounds <= enough {
      WalkedSettles(Fixed(s), Always(), Start(q), [], 0, rounds, enough);
    } else {
      WalkedSettles(Fixed(s), Always(), Start(q), [], 0, enough, rounds);
    }
    WindowApart(s, first);
    AllExpectedIsRoomy(first.direction, Window(s, first), first.limit);
  }

  /**
   Where its bound is kept to, Pages emits the whole window whatever order the answers give ties, exactly
   when no second of it exceeds a page.
   */
  lemma EmitsWindowIff(s: Server, q: Query)
    requires DistinctKeys(s.lines) && Honoured(s, Normalize(q))
    ensures (forall querier: Querier :: Arranges(querier, s) ==> EmitsWindow(querier, s, q)) <==>
            Roomy(Window(s, Normalize(q)), Normalize(q).limit)
  {
    hide DistinctKeys, Honoured, Window, Roomy, Arranges, Walked;
    if Roomy(Window(s, Normalize(q)), Normalize(q).limit) {
      forall querier: Querier | Arranges(querier, s) ensures EmitsWindow(querier, s, q) {
        var rounds := PagesArranged(querier, s, q);
      }
    }
    if forall querier: Querier :: Arranges(querier, s) ==> EmitsWindow(querier, s, q) {
      FixedArranges(s);
      assert EmitsWindow(Fixed(s), s, q);
      FixedEmitsIsRoomy(s, q);
    }
  }
}
