/** The fetching loops of the CLI: Pages, and Tail and All on top of it. */
module Fetch {
  import opened Texts
  import opened Entries
  import opened Paging
  import opened PagingExact

  lemma FreshSnoc(w: Walk, page: seq<Entry>, i: nat)
    requires i < |page|
    ensures Fresh(w, page[..i + 1]) == Fresh(w, page[..i]) + if IsFresh(w, page[i]) then [page[i]] else []
  {
    hide Key;
    var p := (e: Entry) => IsFresh(w, e);
    assert page[..i + 1] == page[..i] + [page[i]];
    FilterAppend(page[..i], [page[i]], p);
    assert [page[i]] == [page[i]] + [];
    FilterCons(page[i], [], p);
  }

  lemma KeysInSnoc(sec: int, page: seq<Entry>, i: nat)
    requires i < |page|
    ensures KeysIn(sec, page[..i + 1]) ==
            KeysIn(sec, page[..i]) + if Second(page[i].ns) == sec then {Key(page[i])} else {}
  {
    hide Key;
    assert page[..i + 1] == page[..i] + [page[i]];
  }

  /** The lines of a page not seen before, in page order. */
  method FreshLines(page: seq<Entry>, edge: int, seen: set<Text>, ghost w: Walk) returns (news: seq<Entry>)
    requires w.edge == edge && w.seen == seen
    ensures news == Fresh(w, page)
  {
    hide Key, Fresh;
    news := [];
    assert page[..0] == [];
    EmptyFresh(w);
    for i := 0 to |page|
      invariant news == Fresh(w, page[..i])
    {
      FreshSnoc(w, page, i);
      if Second(page[i].ns) != edge || Key(page[i]) !in seen {
        news := news + [page[i]];
      }
    }
    assert page[..|page|] == page;
  }

  lemma EmptyFresh(w: Walk)
    ensures Fresh(w, []) == []
  {
  }

  /** The keys of a page's lines in the edge second, added to those already seen in it. */
  method Remember(page: seq<Entry>, edge: int, before: set<Text>) returns (seen: set<Text>)
    ensures seen == before + KeysIn(edge, page)
  {
    hide Key;
    seen := before;
    for i := 0 to |page|
      invariant seen == before + KeysIn(edge, page[..i])
    {
      KeysInSnoc(edge, page, i);
      if Second(page[i].ns) == edge {
        seen := seen + {Key(page[i])};
      }
    }
    assert page[..|page|] == page;
  }

  /** One page of the walk. */
  lemma WalkedStep(querier: Querier, keep: Consumer, w: Walk, out: seq<Entry>, calls: nat, rounds: nat)
    requires w.q.limit > 0 && rounds > 0
    ensures Walked(querier, keep, w, out, calls, rounds) ==
            match querier(calls, w.q)
            case Failed => Broke(out)
            case Lines(page) =>
              var out' := out + Fresh(w, page);
              if (Fresh(w, page) != [] && !keep(out')) || |page| < w.q.limit then Done(out')
              else Walked(querier, keep, Advance(w, page), out', calls + 1, rounds - 1)
  {
    hide Fresh, Advance;
  }

  lemma NoRounds(querier: Querier, keep: Consumer, w: Walk, out: seq<Entry>, calls: nat)
    requires w.q.limit > 0
    ensures Walked(querier, keep, w, out, calls, 0).Unfinished?
  {
  }

  /**
   Pages: the loop over q.Start/q.End, edge and seen. `rounds` bounds the run, so the contract
   covers every finite run of every querier.
   */
  method Pages(querier: Querier, query: Query, keep: Consumer, ghost rounds: nat) returns (r: Outcome)
    requires !Walked(querier, keep, Start(query), [], 0, rounds).Unfinished?
    ensures r == Walked(querier, keep, Start(query), [], 0, rounds)
  {
    hide Key, Fresh, KeysIn, Walked;
    var q := query;
    if q.limit <= 0 {
      q := q.(limit := MAX_LIMIT);
    }
    if q.direction == Unset {
      q := q.(direction := Backward);
    }
    var edge, seen: set<Text> := -1, {};
    var out: seq<Entry> := [];
    var calls: nat := 0;
    while true
      invariant calls <= rounds && q.limit > 0
      invariant Walked(querier, keep, Walk(q, edge, seen), out, calls, rounds - calls) ==
                Walked(querier, keep, Start(query), [], 0, rounds)
      decreases rounds - calls
    {
      if calls == rounds {
        NoRounds(querier, keep, Walk(q, edge, seen), out, calls);
      }
      WalkedStep(querier, keep, Walk(q, edge, seen), out, calls, rounds - calls);
      var answer := querier(calls, q);
      if answer.Failed? {
        return Broke(out);
      }
      var page := answer.page;
      var news := FreshLines(page, edge, seen, Walk(q, edge, seen));
      out := out + news;
      if |news| > 0 && !keep(out) {
        return Done(out);
      }
      if |page| < q.limit {
        return Done(out);
      }
      var last := Second(page[|page| - 1].ns);
      if |news| == 0 {
        q := if q.direction == Backward then q.(end := last * SECOND) else q.(start := (last + 1) * SECOND);
        edge, seen := -1, {};
      } else {
        if last != edge {
          edge, seen := last, {};
        }
        seen := Remember(page, edge, seen);
        q := if q.direction == Backward then q.(end := (last + 1) * SECOND) else q.(start := last * SECOND);
      }
      calls := calls + 1;
    }
  }

  function TailQuery(start: int, end: int, n: int): Query {
    Query(start, end, Min(n, MAX_LIMIT), Backward)
  }

  function Below(n: int): Consumer {
    (out: seq<Entry>) => |out| < n
  }

  function Always(): Consumer {
    (out: seq<Entry>) => true
  }

  /** `s` with its outer `i` elements at either end reversed. */
  function Turned<T>(s: seq<T>, i: nat): (r: seq<T>)
    ensures |r| == |s|
    ensures forall k :: 0 <= k < |s| ==> r[k] == if k < i || |s| - i <= k then s[|s| - 1 - k] else s[k]
  {
    seq(|s|, k requires 0 <= k < |s| => if k < i || |s| - i <= k then s[|s| - 1 - k] else s[k])
  }

  lemma TurnedStep<T>(s: seq<T>, i: nat)
    requires 2 * i + 1 < |s|
    ensures var t, j := Turned(s, i), |s| - 1 - i;
            t[i := t[j]][j := t[i]] == Turned(s, i + 1)
  {
    var t, j := Turned(s, i), |s| - 1 - i;
    var r := t[i := t[j]][j := t[i]];
    forall k | 0 <= k < |s| ensures r[k] == Turned(s, i + 1)[k] {
    }
  }

  lemma TurnedNone<T>(s: seq<T>)
    ensures Turned(s, 0) == s
  {
    forall k | 0 <= k < |s| ensures Turned(s, 0)[k] == s[k] {
    }
  }

  lemma TurnedAt<T>(s: seq<T>, i: nat, k: nat)
    requires |s| <= 2 * i + 1 && k < |s|
    ensures Turned(s, i)[k] == s[|s| - 1 - k]
  {
  }

  lemma TurnedAll<T>(s: seq<T>, i: nat)
    requires |s| <= 2 * i + 1
    ensures Turned(s, i) == Reversed(s)
  {
    var t, r := Turned(s, i), Reversed(s);
    hide *;
    forall k | 0 <= k < |s| ensures t[k] == r[k] {
      TurnedAt(s, i, k);
    }
  }

  /** slices.Reverse, in place: swapping from both ends. */
  method ReverseInPlace(a: array<Entry>)
    modifies a
    ensures a[..] == Reversed(old(a[..]))
  {
    hide Turned, Reversed;
    ghost var was := a[..];
    TurnedNone(was);
    var i, j := 0, a.Length - 1;
    while i < j
      invariant 0 <= i <= j + 1 && i + j == a.Length - 1
      invariant a[..] == Turned(was, i)
    {
      TurnedStep(was, i);
      a[i], a[j] := a[j], a[i];
      i, j := i + 1, j - 1;
    }
    TurnedAll(was, i);
  }

  /** Tail: the newest n lines of the walk, oldest first; None when the querier fails. */
  method Tail(querier: Querier, start: int, end: int, n: int, ghost rounds: nat) returns (r: Option<seq<Entry>>)
    requires n > 0 ==> !Walked(querier, Below(n), Start(TailQuery(start, end, n)), [], 0, rounds).Unfinished?
    ensures n <= 0 ==> r == Some([])
    ensures n > 0 ==>
      match Walked(querier, Below(n), Start(TailQuery(start, end, n)), [], 0, rounds)
      case Done(out) => r == Some(Reversed(Take(out, n)))
      case _ => r == None
  {
    if n <= 0 {
      return Some([]);
    }
    var walk := Pages(querier, TailQuery(start, end, n), Below(n), rounds);
    if walk.Broke? {
      return None;
    }
    var out := Take(walk.out, n);
    var a := new Entry[|out|](i requires 0 <= i < |out| => out[i]);
    assert a[..] == out;
    ReverseInPlace(a);
    r := Some(a[..]);
  }

  /** All: every line of the walk, handed over oldest first. */
  method All(querier: Querier, start: int, end: int, ghost rounds: nat) returns (r: Outcome)
    requires !Walked(querier, Always(), Start(Query(start, end, MAX_LIMIT, Forward)), [], 0, rounds).Unfinished?
    ensures r == Walked(querier, Always(), Start(Query(start, end, MAX_LIMIT, Forward)), [], 0, rounds)
  {
    r := Pages(querier, Query(start, end, MAX_LIMIT, Forward), Always(), rounds);
  }

  // ---- What Tail and All return from an unchanging store -------------------------------------

  lemma TakePrefix<T>(out: seq<T>, total: seq<T>, n: nat)
    requires out <= total && (out == total || |out| >= n)
    ensures Take(out, n) == Take(total, n)
  {
  }

  lemma FirstPageIsFresh(q: Query, page: seq<Entry>)
    ensures Fresh(Start(q), page) == page
  {
    FilterAll(page, (e: Entry) => IsFresh(Start(q), e));
  }

  /** For n up to a page, Tail asks once and has the newest n of the window, whatever it asks and is served. */
  lemma TailIsNewest(s: Server, start: int, end: int, n: nat)
    requires 0 < n <= MAX_LIMIT
    ensures var r := Walked(Fixed(s), Below(n), Start(TailQuery(start, end, n)), [], 0, 1);
            r.Done? && Take(r.out, n) == Take(Window(s, TailQuery(start, end, n)), n)
  {
    hide Window, Fresh;
    var q := TailQuery(start, end, n);
    FirstPageIsFresh(q, QueryRange(s, q));
  }

  lemma {:induction false} ExpectedFrom(t: seq<Entry>, limit: nat, i: nat)
    requires i <= |t|
    ensures forall e :: e in Expected(t, limit, i) ==> e in t[i..]
    decreases |t| - i
  {
    if i < |t| {
      ExpectedFrom(t, limit, i + 1);
      assert t[i..] == [t[i]] + t[i + 1..];
    }
  }

  /** The first n lines are all expected exactly when each of them is kept. */
  lemma FirstExpectedIff(t: seq<Entry>, limit: nat, n: nat)
    requires KeysApart(t)
    ensures Take(Expected(t, limit, 0), n) == Take(t, n) <==>
            forall i :: 0 <= i < Min(n, |t|) ==> Kept(t, limit, i)
  {
    var h := Min(n, |t|);
    if forall i :: 0 <= i < h ==> Kept(t, limit, i) {
      ExpectedRun(t, limit, 0, h);
      if h == |t| {
        ExpectedEnd(t, limit);
      }
      assert t[0..h] == Take(t, n);
    } else {
      var i := FirstLeftOut(t, limit, h);
      FirstDiffers(t, limit, i);
      assert Take(t, n)[i] == t[i];
    }
  }

  lemma {:induction false} FirstLeftOut(t: seq<Entry>, limit: nat, h: nat) returns (i: nat)
    requires h <= |t| && exists x :: 0 <= x < h && !Kept(t, limit, x)
    ensures i < h && !Kept(t, limit, i) && forall x :: 0 <= x < i ==> Kept(t, limit, x)
  {
    hide Kept;
    i := 0;
    while i < h && Kept(t, limit, i)
      invariant i <= h && forall x :: 0 <= x < i ==> Kept(t, limit, x)
    {
      i := i + 1;
    }
  }

  /** At the first line left out, what is expected has another line or none. */
  lemma FirstDiffers(t: seq<Entry>, limit: nat, i: nat)
    requires KeysApart(t) && i < |t| && !Kept(t, limit, i) && forall x :: 0 <= x < i ==> Kept(t, limit, x)
    ensures i < |Expected(t, limit, 0)| ==> Expected(t, limit, 0)[i] != t[i]
  {
    hide Kept, Key;
    var all, rest := Expected(t, limit, 0), Expected(t, limit, i + 1);
    ExpectedRun(t, limit, 0, i);
    ExpectedDrop(t, limit, i, i + 1);
    ExpectedFrom(t, limit, i + 1);
    if i < |all| {
      assert all[i] == rest[0] && rest[0] in t[i + 1..];
      var j :| i < j < |t| && t[j] == all[i];
    }
  }

  /**
   For every n, Tail has the first n expected lines of the window, newest first; they are the newest n
   exactly when none of those is crowded out of its second.
   */
  lemma TailOnStore(s: Server, start: int, end: int, n: nat) returns (rounds: nat)
    requires n > 0 && DistinctKeys(s.lines) && Honoured(s, TailQuery(start, end, n))
    ensures var q := TailQuery(start, end, n);
            var t, r := Window(s, q), Walked(Fixed(s), Below(n), Start(q), [], 0, rounds);
            && r.Done? && Take(r.out, n) == Take(Expected(t, q.limit, 0), n)
            && (Take(r.out, n) == Take(t, n) <==> forall i :: 0 <= i < Min(n, |t|) ==> Kept(t, q.limit, i))
  {
    var q := TailQuery(start, end, n);
    assert Normalize(q) == q;
    hide Walked, Expected, Window, Key, Honoured, Kept;
    rounds := PagesOnStore(s, q, Below(n));
    WindowApart(s, q);
    var r, total := Walked(Fixed(s), Below(n), Start(q), [], 0, rounds), Expected(Window(s, q), q.limit, 0);
    TakePrefix(r.out, total, n);
    FirstExpectedIff(Window(s, q), q.limit, n);
  }

  lemma WholeStoreWindow(s: Server, q: Query)
    requires forall e :: e in s.lines ==> Inside(s, q, e)
    ensures |Window(s, q)| == |s.lines| && forall e :: e in Window(s, q) ==> e in s.lines
  {
    FilterAll(s.lines, (e: Entry) => Inside(s, q, e));
    WindowOrdered(s, q);
    hide Window;
    assert |Window(s, q)| == |multiset(Window(s, q))| == |multiset(s.lines)|;
    forall e | e in Window(s, q) ensures e in s.lines {
      assert e in multiset(Window(s, q));
    }
  }

  /** One line more than a page in one second: asked for that many, Tail does not have them all. */
  lemma TailFallsShort() returns (rounds: nat)
    ensures var n := MAX_LIMIT + 1;
            var s, q := Server(Burst(n), false), TailQuery(0, 2 * SECOND, n);
            var r := Walked(Fixed(s), Below(n), Start(q), [], 0, rounds);
            r.Done? && |Window(s, q)| == n && Take(r.out, n) != Take(Window(s, q), n)
  {
    hide Window, Expected, Walked, Key, Kept;
    var n := MAX_LIMIT + 1;
    var s, q := Server(Burst(n), false), TailQuery(0, 2 * SECOND, n);
    ClimbingIsDistinct(s.lines);
    WholeIsHonoured(s, q);
    WholeStoreWindow(s, q);
    rounds := TailOnStore(s, 0, 2 * SECOND, n);
    var t := Window(s, q);
    assert t[0] in t && t[MAX_LIMIT] in t;
    OneSecondLeavesOut(t);
  }

  lemma OneSecondLeavesOut(t: seq<Entry>)
    requires |t| > MAX_LIMIT && Second(t[0].ns) == Second(t[MAX_LIMIT].ns)
    ensures !Kept(t, MAX_LIMIT, MAX_LIMIT)
  {
  }

  /** All hands over the first page of lines of every second, so everything iff no second overflows. */
  lemma AllIsWholeIff(s: Server, start: int, end: int) returns (rounds: nat)
    requires DistinctKeys(s.lines) && Honoured(s, Query(start, end, MAX_LIMIT, Forward))
    ensures var t := Window(s, Query(start, end, MAX_LIMIT, Forward));
            var r := Walked(Fixed(s), Always(), Start(Query(start, end, MAX_LIMIT, Forward)), [], 0, rounds);
            && r.Done?
            && (forall sec :: LinesOf(r.out, sec) == Take(LinesOf(t, sec), MAX_LIMIT))
            && (r.out == t <==> forall sec :: |LinesOf(t, sec)| <= MAX_LIMIT)
  {
    var q := Query(start, end, MAX_LIMIT, Forward);
    assert Normalize(q) == q;
    hide Walked, Expected, Window, Key, LinesOf, Honoured;
    var t := Window(s, q);
    rounds := PagesOnStore(s, q, Always());
    WindowApart(s, q);
    forall sec ensures LinesOf(Expected(t, MAX_LIMIT, 0), sec) == Take(LinesOf(t, sec), MAX_LIMIT) {
      SecondShare(Forward, t, MAX_LIMIT, sec);
    }
    WholeWindowIff(Forward, t, MAX_LIMIT);
  }

  // ---- How far outside its window a walk can stray --------------------------------------------

  /** Inside `q`'s window once the bound the walk moves is rounded out to a whole second. */
  predicate InWidened(q: Query, e: Entry) {
    && Pace(q.direction, e) >= Near(q)
    && (if q.direction == Forward then e.ns < q.end else Second(q.start) <= Second(e.ns))
  }

  lemma {:induction false} WalkStaysInWindow(
      querier: Querier, keep: Consumer, first: Query, w: Walk, out: seq<Entry>, calls: nat, rounds: nat)
    requires Honest(querier) && w.q.limit > 0 && w.q.direction == first.direction != Unset
    requires Near(first) <= Near(w.q)
    requires if first.direction == Forward then w.q.end == first.end else w.q.start == first.start
    requires forall e :: e in out ==> InWidened(first, e)
    ensures forall e :: e in Walked(querier, keep, w, out, calls, rounds).out ==> InWidened(first, e)
    decreases rounds
  {
    hide Key, Fresh;
    if rounds > 0 && querier(calls, w.q).Lines? {
      var page := querier(calls, w.q).page;
      FreshFromPage(w, page);
      if |page| >= w.q.limit {
        AdvanceNear(w, page);
        assert page[|page| - 1] in page;
        WalkStaysInWindow(querier, keep, first, Advance(w, page), out + Fresh(w, page), calls + 1, rounds - 1);
      }
    }
  }

  lemma FreshFromPage(w: Walk, page: seq<Entry>)
    ensures forall e :: e in Fresh(w, page) ==> e in page
  {
    FilterMembers(page, (e: Entry) => IsFresh(w, e));
  }

  // ---- When a walk keeps to its window -----------------------------------------------------------

  lemma PageInside(s: Server, first: Query, q: Query)
    requires Narrowed(s, first, q) && q.direction != Unset
    ensures forall e :: e in QueryRange(s, q) ==> Inside(s, first, e) && Pace(q.direction, e) >= Near(q)
  {
    forall e | e in QueryRange(s, q) ensures Inside(s, first, e) && Pace(q.direction, e) >= Near(q) {
      WindowInside(s, q, e);
      WindowFromStore(s, q, e);
      NarrowedInside(s, first, q, e);
    }
  }

  lemma WindowFromStore(s: Server, q: Query, e: Entry)
    requires e in Window(s, q)
    ensures e in s.lines
  {
    WindowOrdered(s, q);
    FilterMembers(s.lines, (x: Entry) => Inside(s, q, x));
    assert e in multiset(Window(s, q));
  }

  lemma {:induction false} HonouredStays(
      s: Server, first: Query, keep: Consumer, w: Walk, out: seq<Entry>, calls: nat, rounds: nat)
    requires Honoured(s, first) && Narrowed(s, first, w.q) && w.q.limit > 0 && w.q.direction != Unset
    requires forall e :: e in out ==> Inside(s, first, e)
    ensures forall e :: e in Walked(Fixed(s), keep, w, out, calls, rounds).out ==> Inside(s, first, e)
    decreases rounds
  {
    hide Key, Fresh, Advance, Honoured, NoneHidden, QueryRange, Inside;
    if rounds > 0 {
      var page := QueryRange(s, w.q);
      PageInside(s, first, w.q);
      FreshFromPage(w, page);
      if |page| >= w.q.limit {
        assert page[|page| - 1] in page;
        FullPageNarrows(s, first, w);
        HonouredStays(s, first, keep, Advance(w, page), out + Fresh(w, page), calls + 1, rounds - 1);
      }
    }
  }

  lemma FullPageNarrows(s: Server, first: Query, w: Walk)
    requires Honoured(s, first) && Narrowed(s, first, w.q) && w.q.limit > 0 && w.q.direction != Unset
    requires |QueryRange(s, w.q)| >= w.q.limit
    ensures Narrowed(s, first, Advance(w, QueryRange(s, w.q)).q)
  {
    hide Key, Fresh, Advance, Honoured, NoneHidden, Inside;
    var page := QueryRange(s, w.q);
    PageInside(s, first, w.q);
    assert page[|page| - 1] in page;
    if w.q == first {
      WindowOrdered(s, first);
      PaceMonotone(first.direction, Window(s, first));
      FullPagePasses(s, first, |page|);
    }
    AdvanceNarrows(s, first, w, page);
  }

  /** What is not kept to shows on the second page: its first line lies outside the window and is new. */
  lemma HiddenComesOut(s: Server, q: Query) returns (e: Entry)
    requires q.limit > 0 && q.direction != Unset && !Honoured(s, q)
    ensures e in Walked(Fixed(s), Always(), Walk(q, -1, {}), [], 0, 2).out
    ensures !Inside(s, q, e) && WithinFar(s, q, e)
  {
    hide Window, Key, NoneHidden, Fresh;
    var w, page := Walk(q, -1, {}), QueryRange(s, q);
    FirstPageIsFresh(q, page);
    assert Start(q) == w;
    NearPage(s, q);
    var next := Advance(w, page);
    AdvanceNear(w, page);
    e := HiddenFirst(s, q, next.q);
    var again := QueryRange(s, next.q);
    StillNew(s, q, e);
    FreshHolds(next, again, e);
    var out := [] + page + Fresh(next, again);
    assert Walked(Fixed(s), Always(), next, [] + page, 1, 1).out == out;
    assert e in out;
  }

  lemma FreshHolds(w: Walk, page: seq<Entry>, e: Entry)
    requires e in page && IsFresh(w, e)
    ensures e in Fresh(w, page)
  {
    FilterMembers(page, (x: Entry) => IsFresh(w, x));
  }

  lemma HiddenFirst(s: Server, q: Query, next: Query) returns (e: Entry)
    requires q.direction != Unset && !NoneHidden(s, q) && next.limit > 0 && Whole(next)
    requires next.direction == q.direction && Near(next) == Near(q)
    requires if q.direction == Forward then next.end == q.end else next.start == q.start
    ensures e in QueryRange(s, next) && !Inside(s, q, e) && WithinFar(s, q, e)
  {
    var hidden :| hidden in s.lines && Hidden(s, q, hidden);
    hide Hidden, NoneHidden, Near, Whole, Inside, Window, WithinFar;
    HiddenIsReached(s, q, next, hidden);
    e := FirstOfPage(s, next, hidden);
    OutsideToo(s, q, hidden, e);
    NearInside(s, next, e);
    SameFar(s, q, next, e);
  }

  /** A page that could hold `x` begins with a line no later than it in the asked order. */
  lemma FirstOfPage(s: Server, q: Query, x: Entry) returns (e: Entry)
    requires x in s.lines && Inside(s, q, x) && q.limit > 0
    ensures e in QueryRange(s, q) && Inside(s, q, e) && !Before(q.direction, x, e)
  {
    StoreInWindow(s, q, x);
    WindowOrdered(s, q);
    hide Window, Inside;
    var t := Window(s, q);
    var j :| 0 <= j < |t| && t[j] == x;
    e := t[0];
    assert QueryRange(s, q)[0] == e;
    OrderedAt(q.direction, t, 0, j);
    WindowInside(s, q, e);
  }

  lemma HiddenIsReached(s: Server, q: Query, next: Query, e: Entry)
    requires q.direction != Unset && Hidden(s, q, e) && Whole(next)
    requires next.direction == q.direction && Near(next) == Near(q)
    requires if q.direction == Forward then next.end == q.end else next.start == q.start
    ensures Inside(s, next, e)
  {
  }

  lemma OutsideToo(s: Server, q: Query, hidden: Entry, e: Entry)
    requires Hidden(s, q, hidden) && !Before(q.direction, hidden, e) && q.direction != Unset
    ensures !Inside(s, q, e)
  {
  }

  /** A line from outside the window has a key unlike any on the first page. */
  lemma StillNew(s: Server, q: Query, e: Entry)
    requires !Inside(s, q, e) && QueryRange(s, q) != []
    ensures IsFresh(Advance(Walk(q, -1, {}), QueryRange(s, q)), e)
  {
    hide Key, Fresh, Window;
    var page := QueryRange(s, q);
    forall x | x in page ensures Key(x) != Key(e) {
      WindowInside(s, q, x);
      if Key(x) == Key(e) {
        KeyFixesTime(x, e);
      }
    }
  }

  lemma NearPage(s: Server, q: Query)
    requires q.limit > 0 && q.direction != Unset && !Honoured(s, q)
    ensures var page := QueryRange(s, q);
            |page| == q.limit && Pace(q.direction, page[q.limit - 1]) == Near(q)
  {
    hide NoneHidden, Window;
    var t, dir := Window(s, q), q.direction;
    WindowOrdered(s, q);
    PaceMonotone(dir, t);
    var lo, hi := Block(dir, t, NearSecond(q));
    WindowInside(s, q, t[0]);
    assert Pace(dir, t[0]) <= Pace(dir, t[lo]);
  }

  /**
   A walk that is never stopped emits nothing from outside its window, over any number of rounds, exactly
   when its moving bound is kept to; in either direction, from an exact server or one that truncates.
   */
  lemma NeverStraysIff(s: Server, q: Query)
    requires q.limit > 0 && q.direction != Unset
    ensures (forall rounds: nat, e ::
               e in Walked(Fixed(s), Always(), Start(q), [], 0, rounds).out ==> Inside(s, q, e)) <==>
            Honoured(s, q)
  {
    assert Start(q) == Walk(q, -1, {});
    hide Walked, Honoured, Inside;
    if Honoured(s, q) {
      forall rounds: nat, e | e in Walked(Fixed(s), Always(), Start(q), [], 0, rounds).out ensures Inside(s, q, e) {
        HonouredStays(s, q, Always(), Start(q), [], 0, rounds);
      }
    } else {
      var e := HiddenComesOut(s, q);
    }
  }

  lemma OneLineWindow(a: Entry, b: Entry, s: Server, q: Query)
    requires s.lines == [a, b] && q.direction == Forward && !Inside(s, q, a) && Inside(s, q, b)
    ensures Window(s, q) == [b]
  {
    var p := (e: Entry) => Inside(s, q, e);
    FilterCons(a, [b], p);
    FilterCons(b, [], p);
    assert s.lines == [a] + [b] && [b] == [b] + [];
    SortOfOrdered(Forward, [b]);
  }

  lemma FilledByOne(a: Entry, b: Entry, s: Server, q: Query)
    requires s.lines == [a, b] && q.direction == Forward && q.limit == 1
    requires Hidden(s, q, a) && Inside(s, q, b) && Second(b.ns) == NearSecond(q)
    ensures !Honoured(s, q)
  {
    hide Hidden, NearSecond, Window;
    assert !Inside(s, q, a) by { OutsideToo(s, q, a, a); }
    OneLineWindow(a, b, s, q);
    FilterAll([b], (e: Entry) => Second(e.ns) == NearSecond(q));
    assert a in s.lines;
  }

  lemma FilledStrays(a: Entry, b: Entry, s: Server, q: Query) returns (e: Entry)
    requires s.lines == [a, b] && !s.truncates && q.direction == Forward && q.limit == 1
    requires Hidden(s, q, a) && Inside(s, q, b) && Second(b.ns) == NearSecond(q)
    ensures e in Walked(Fixed(s), Always(), Start(q), [], 0, 2).out && e.ns < q.start
  {
    hide Window, Walked, Honoured, Hidden, NearSecond;
    FilledByOne(a, b, s, q);
    e := HiddenComesOut(s, q);
    assert Start(q) == Walk(q, -1, {});
  }

  /**
   Without a truncating server a fractional start is not honoured: after a full page that ends in
   the start's own second, the walk resumes at the whole second and emits a line from before it.
   */
  lemma FractionalStartStrays()
    ensures exists s: Server, q: Query, rounds: nat, e: Entry ::
              && !s.truncates && q.direction == Forward && q.limit > 0
              && e in Walked(Fixed(s), Always(), Start(q), [], 0, rounds).out && e.ns < q.start
  {
    var a, b := Entry(100_000_000, map[], []), Entry(600_000_000, map[], []);
    var s, q := Server([a, b], false), Query(500_000_000, SECOND, 1, Forward);
    hide Window, Walked, Honoured, Start;
    var e := FilledStrays(a, b, s, q);
  }
}
