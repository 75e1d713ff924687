/**
 Following a store that has stopped changing: which lines the follower ends up printing, and which it
 never reaches because a page is filled by a stretch of time it cannot step into.
 */
module CatchUp {
  import opened Texts
  import opened Entries
  import opened Paging
  import opened PagingExact
  import opened Follow
  import opened FollowRuns

  function FixedPoller(s: Server): Poller {
    (n: nat, q: Query) => Got(QueryRange(s, q))
  }

  /** The clock, and the minute of slack, keep every poll's end past the whole store. */
  ghost predicate EndsAhead(s: Server, now: Clock) {
    forall e, n: nat :: e in s.lines ==> e.ns < (now(n) + 60_000_000_000) / 1_000_000_000 * 1_000_000_000
  }

  ghost predicate PositiveTimes(s: Server) {
    forall e :: e in s.lines ==> e.ns > 0
  }

  /** Nothing held or floored is newer than the cursor. */
  ghost predicate CursorTops(st: State) {
    st.floor <= st.cursor && forall k :: k in st.seen ==> st.seen[k] <= st.cursor
  }

  lemma {:induction false} LetThroughTops(st: State, entries: seq<Entry>)
    requires CursorTops(st)
    ensures var r := LetThrough(st, entries);
            CursorTops(r.0) && (r.0.cursor == st.cursor || exists e :: e in entries && e.ns == r.0.cursor)
    decreases |entries|
  {
    hide Key;
    if entries != [] {
      var e := entries[0];
      if Admissible(st, e) {
        LetThroughTops(Record(st, e), entries[1..]);
      } else {
        LetThroughTops(st, entries[1..]);
      }
    }
  }

  lemma {:induction false} NoNews(st: State, entries: seq<Entry>)
    requires LetThrough(st, entries).1 == []
    ensures LetThrough(st, entries).0 == st
    ensures forall e :: e in entries ==> !Admissible(st, e)
    decreases |entries|
  {
    hide Key;
    if entries != [] {
      assert entries == [entries[0]] + entries[1..];
      NoNews(st, entries[1..]);
    }
  }

  // ---- Pages of a fixed store ------------------------------------------------------------------

  /** A line of the window cut off by the limit is no older than any line of the page. */
  lemma BeyondPage(s: Server, q: Query, e: Entry)
    requires q.direction == Forward && q.limit > 0
    requires e in s.lines && Inside(s, q, e) && e !in QueryRange(s, q)
    ensures forall x :: x in QueryRange(s, q) ==> x.ns <= e.ns
  {
    var p, t := (x: Entry) => Inside(s, q, x), Window(s, q);
    FilterMembers(s.lines, p);
    WindowOrdered(s, q);
    assert e in multiset(Filter(s.lines, p));
    assert e in multiset(t);
    var j :| 0 <= j < |t| && t[j] == e;
    hide Window, SortEntries;
    assert forall i :: 0 <= i < |QueryRange(s, q)| ==> QueryRange(s, q)[i] == t[i];
    forall x | x in QueryRange(s, q) ensures x.ns <= e.ns {
      var i :| 0 <= i < |QueryRange(s, q)| && QueryRange(s, q)[i] == x;
      OrderedAt(Forward, t, i, j);
    }
  }

  // ---- Granules --------------------------------------------------------------------------------

  /** What a poll's start can tell apart: seconds for a server that truncates, instants otherwise. */
  function Granule(s: Server, ns: int): int {
    if s.truncates then Second(ns) else ns
  }

  /** The store in time order. */
  function Timeline(s: Server): (t: seq<Entry>) {
    SortEntries(Forward, s.lines)
  }

  lemma TimelineFacts(s: Server)
    ensures multiset(Timeline(s)) == multiset(s.lines)
    ensures forall e :: e in Timeline(s) <==> e in s.lines
    ensures forall i, j :: 0 <= i <= j < |Timeline(s)| ==> Timeline(s)[i].ns <= Timeline(s)[j].ns
  {
    var t := Timeline(s);
    SortIsOrderedPermutation(Forward, s.lines);
    hide SortEntries;
    assert forall e :: e in t <==> e in multiset(t);
    forall i, j | 0 <= i <= j < |t| ensures t[i].ns <= t[j].ns {
      OrderedAt(Forward, t, i, j);
    }
  }

  /** The page from line `i` of the timeline on lies in one granule. */
  predicate FullFrom(s: Server, i: nat) {
    var t := Timeline(s);
    i + MAX_LIMIT <= |t| && Granule(s, t[i].ns) == Granule(s, t[i + MAX_LIMIT - 1].ns)
  }

  /** Line `j` comes after a page that lies in one granule, no earlier than that of `origin`. */
  ghost predicate Blocked(s: Server, origin: int, j: nat) {
    exists i: nat :: i + MAX_LIMIT <= j && FullFrom(s, i) && Granule(s, origin) <= Granule(s, Timeline(s)[i].ns)
  }

  /** Where following begins. */
  function Origin(st: State, since: int): int {
    if st.cursor > 0 then st.cursor else since
  }

  lemma {:induction false} FirstReached(s: Server, start: int) returns (k: nat)
    ensures k <= |Timeline(s)|
    ensures forall i :: 0 <= i < k ==> Granule(s, Timeline(s)[i].ns) < Granule(s, start)
    ensures forall i :: k <= i < |Timeline(s)| ==> Granule(s, Timeline(s)[i].ns) >= Granule(s, start)
  {
    TimelineFacts(s);
    hide Timeline;
    var t := Timeline(s);
    k := 0;
    while k < |t| && Granule(s, t[k].ns) < Granule(s, start)
      invariant k <= |t| && forall i :: 0 <= i < k ==> Granule(s, t[i].ns) < Granule(s, start)
    {
      k := k + 1;
    }
    forall i | k <= i < |t| ensures Granule(s, t[i].ns) >= Granule(s, start) {
      assert t[k].ns <= t[i].ns;
    }
  }

  ghost predicate ReachesEnd(s: Server, q: Query) {
    forall e :: e in s.lines ==> e.ns < Upper(s, q)
  }

  lemma PollReachesEnd(s: Server, since: int, now: Clock, st: State, skip: bool, n: nat)
    requires EndsAhead(s, now)
    ensures ReachesEnd(s, PollQuery(st, since, now(n), skip))
  {
    var q := PollQuery(st, since, now(n), skip);
    forall e | e in s.lines ensures e.ns < Upper(s, q) {
      assert e.ns < (now(n) + 60_000_000_000) / 1_000_000_000 * 1_000_000_000;
    }
  }

  lemma InsideFromStart(s: Server, q: Query, e: Entry)
    requires ReachesEnd(s, q) && e in s.lines
    ensures Inside(s, q, e) <==> Granule(s, e.ns) >= Granule(s, q.start)
  {
  }

  /** A poll's page is a stretch of the timeline from the first line it reaches. */
  lemma PollPage(s: Server, q: Query) returns (k: nat)
    requires q.direction == Forward && q.limit == MAX_LIMIT && ReachesEnd(s, q)
    ensures k <= |Timeline(s)|
    ensures forall i :: 0 <= i < k ==> Granule(s, Timeline(s)[i].ns) < Granule(s, q.start)
    ensures forall i :: k <= i < |Timeline(s)| ==> Granule(s, Timeline(s)[i].ns) >= Granule(s, q.start)
    ensures QueryRange(s, q) == Timeline(s)[k..Min(k + MAX_LIMIT, |Timeline(s)|)]
  {
    k := FirstReached(s, q.start);
    hide Timeline, Window, Granule, ReachesEnd;
    WindowFrom(s, q, k);
    assert Take(Timeline(s)[k..], MAX_LIMIT) == Timeline(s)[k..Min(k + MAX_LIMIT, |Timeline(s)|)];
  }

  lemma WindowFrom(s: Server, q: Query, k: nat)
    requires q.direction == Forward && ReachesEnd(s, q) && k <= |Timeline(s)|
    requires forall i :: 0 <= i < k ==> Granule(s, Timeline(s)[i].ns) < Granule(s, q.start)
    requires forall i :: k <= i < |Timeline(s)| ==> Granule(s, Timeline(s)[i].ns) >= Granule(s, q.start)
    ensures Window(s, q) == Timeline(s)[k..]
  {
    TimelineFacts(s);
    var t, p := Timeline(s), (e: Entry) => Inside(s, q, e);
    SortFilter(Forward, s.lines, p);
    assert Window(s, q) == Filter(t, p);
    hide Timeline, Filter, SortEntries, Window, Inside, Granule, ReachesEnd;
    forall i | 0 <= i < |t| ensures p(t[i]) <==> k <= i {
      assert t[i] in s.lines;
      InsideFromStart(s, q, t[i]);
    }
    FilterSuffix(t, k, p);
  }

  // ---- Catching up -----------------------------------------------------------------------------

  /** Every line of the store from time `from` up to the cursor has been printed. */
  ghost predicate Covered(s: Server, from: int, st: State, out: seq<Entry>) {
    forall e :: e in s.lines && from <= e.ns < st.cursor && st.floor <= e.ns ==> Key(e) in KeySet(out)
  }

  ghost predicate Ready(s: Server, from: int, since: int, st: State, out: seq<Entry>) {
    && Safe(st, out) && HeldWasPrinted(st, out) && CursorTops(st) && Covered(s, from, st, out)
    && (st.cursor <= 0 ==> since <= from)
  }

  /** Every line from time `from` on has been printed. */
  ghost predicate CaughtUp(s: Server, from: int, floor: int, out: seq<Entry>) {
    forall e :: e in s.lines && from <= e.ns && floor <= e.ns ==> Key(e) in KeySet(out)
  }

  lemma PollCoversLine(s: Server, from: int, since: int, now: int, st: State, skip: bool, out: seq<Entry>, e: Entry)
    requires HeldWasPrinted(st, out) && CursorTops(st) && Covered(s, from, st, out)
    requires st.cursor <= 0 ==> since <= from
    requires e in s.lines && from <= e.ns && st.floor <= e.ns && e.ns < Truncate(now + END_SLACK)
    ensures var page := QueryRange(s, PollQuery(st, since, now, skip));
            var r := Admit(st, page);
            |page| < MAX_LIMIT || e.ns < r.0.cursor ==> Key(e) in KeySet(out + r.1)
  {
    var q := PollQuery(st, since, now, skip);
    var page := QueryRange(s, q);
    hide QueryRange, Key;
    var r := Admit(st, page);
    AdmitPrints(st, out, page);
    LetThroughTops(st, page);
    assert forall x :: x in out ==> x in out + r.1;
    if Inside(s, q, e) {
      if e in page {
      } else if |page| < MAX_LIMIT {
        PartialPageHoldsAll(s, q, e);
      } else {
        BeyondPage(s, q, e);
      }
    }
  }

  lemma PageIsPollFor(s: Server, q: Query)
    requires PositiveTimes(s)
    ensures PollFor(q, QueryRange(s, q))
  {
    PageFromStore(s, q);
    hide QueryRange;
  }

  lemma PollCovers(s: Server, from: int, since: int, now: Clock, st: State, skip: bool, out: seq<Entry>, n: nat)
    requires Ready(s, from, since, st, out) && EndsAhead(s, now)
    ensures var page := QueryRange(s, PollQuery(st, since, now(n), skip));
            var r := Admit(st, page);
            && (r.0.floor == st.floor ==> Covered(s, from, r.0, out + r.1))
            && (|page| < MAX_LIMIT ==> CaughtUp(s, from, st.floor, out + r.1))
  {
    hide QueryRange, Key, Safe, HeldWasPrinted, PollQuery, KeySet, Admit, CursorTops;
    var page := QueryRange(s, PollQuery(st, since, now(n), skip));
    var r := Admit(st, page);
    forall e | e in s.lines && from <= e.ns && st.floor <= e.ns
      ensures |page| < MAX_LIMIT || e.ns < r.0.cursor ==> Key(e) in KeySet(out + r.1) {
      PollCoversLine(s, from, since, now(n), st, skip, out, e);
    }
  }

  lemma PollKeepsReady(s: Server, from: int, since: int, now: Clock, st: State, skip: bool, out: seq<Entry>, n: nat)
    requires Ready(s, from, since, st, out) && PositiveTimes(s) && EndsAhead(s, now)
    ensures var page := QueryRange(s, PollQuery(st, since, now(n), skip));
            var r := Admit(st, page);
            && Ready(s, from, since, r.0, out + r.1)
            && (|page| < MAX_LIMIT ==> CaughtUp(s, from, st.floor, out + r.1))
            && r.0.floor == st.floor
  {
    var q := PollQuery(st, since, now(n), skip);
    var page := QueryRange(s, q);
    PageIsPollFor(s, q);
    hide QueryRange, Key, Safe, HeldWasPrinted, PollFor, PollQuery, KeySet, LetThrough, Prune;
    var r := Admit(st, page);
    AdmitSafe(st, since, now(n), skip, out, page);
    AdmitPrints(st, out, page);
    LetThroughTops(st, page);
    PollCovers(s, from, since, now, st, skip, out, n);
  }

  /** With the overlap skipped, a poll brings something new unless all it brings lies in the cursor's granule. */
  lemma SkipPollProgress(s: Server, since: int, now: int, st: State)
    requires TimesMatch(st) && CursorTops(st) && st.cursor > 0
    ensures var page := QueryRange(s, PollQuery(st, since, now, true));
            Admit(st, page).1 == [] ==> forall e :: e in page ==>
              !Admissible(st, e) && e.ns <= st.cursor && Granule(s, e.ns) == Granule(s, st.cursor)
  {
    var q := PollQuery(st, since, now, true);
    var page := QueryRange(s, q);
    PageFromStore(s, q);
    hide QueryRange;
    if LetThrough(st, page).1 == [] {
      hide Key;
      NoNews(st, page);
      forall e | e in page ensures e.ns <= st.cursor {
        assert !Admissible(st, e);
        if Key(e) in st.seen {
          assert st.seen[Key(e)] == e.ns;
        }
      }
    }
  }

  lemma NewsShrinksTheRest(s: Server, q: Query, st: State, out: seq<Entry>)
    requires DistinctKeys(out + Admit(st, QueryRange(s, q)).1) && Admit(st, QueryRange(s, q)).1 != []
    requires HeldWasPrinted(st, out)
    ensures KeySet(s.lines) - KeySet(out + Admit(st, QueryRange(s, q)).1) < KeySet(s.lines) - KeySet(out)
  {
    var news := Admit(st, QueryRange(s, q)).1;
    PageFromStore(s, q);
    AdmitPrints(st, out, QueryRange(s, q));
    hide Key, QueryRange, Admit;
    DistinctAppend(out, news);
    assert news[0] in news && news[0] in s.lines;
    assert Key(news[0]) in KeySet(s.lines) && Key(news[0]) in KeySet(news);
    assert KeySet(out + news) == KeySet(out) + KeySet(news);
  }

  /** No line still to be printed is blocked. */
  ghost predicate NoneBlocked(s: Server, origin: int, from: int, floor: int, out: seq<Entry>) {
    forall j :: 0 <= j < |Timeline(s)| && Pending(Timeline(s)[j], from, floor, out) ==> !Blocked(s, origin, j)
  }

  ghost predicate Pending(e: Entry, from: int, floor: int, out: seq<Entry>) {
    from <= e.ns && floor <= e.ns && Key(e) !in KeySet(out)
  }

  /** The follower stands no earlier than where following began. */
  predicate Reached(s: Server, origin: int, since: int, st: State) {
    Granule(s, origin) <= Granule(s, Origin(st, since))
  }

  lemma PollKeepsReached(s: Server, origin: int, since: int, now: int, st: State, skip: bool)
    requires Reached(s, origin, since, st) && CursorTops(st)
    ensures var r := Admit(st, QueryRange(s, PollQuery(st, since, now, skip)));
            Reached(s, origin, since, r.0)
  {
    var q := PollQuery(st, since, now, skip);
    PageFromStore(s, q);
    hide QueryRange, Key;
    LetThroughTops(st, QueryRange(s, q));
  }

  /** When a poll that skips the overlap finds nothing new, all lines up to the end of its page are printed. */
  lemma PrintedThroughPage(s: Server, from: int, since: int, now: int, st: State, out: seq<Entry>, j: nat, k: nat)
    requires Ready(s, from, since, st, out) && st.cursor > 0
    requires var page := QueryRange(s, PollQuery(st, since, now, true));
             Admit(st, page).1 == [] && k <= |Timeline(s)| && page == Timeline(s)[k..Min(k + MAX_LIMIT, |Timeline(s)|)]
    requires forall i :: 0 <= i < k ==> Granule(s, Timeline(s)[i].ns) < Granule(s, st.cursor)
    requires j < |Timeline(s)| && j < k + MAX_LIMIT && from <= Timeline(s)[j].ns && st.floor <= Timeline(s)[j].ns
    ensures Key(Timeline(s)[j]) in KeySet(out)
  {
    var e, page := Timeline(s)[j], QueryRange(s, PollQuery(st, since, now, true));
    TimelineFacts(s);
    SkipPollProgress(s, since, now, st);
    hide QueryRange, Key, Timeline, Admit, Safe;
    assert e in s.lines;
    if j < k {
      assert Granule(s, e.ns) < Granule(s, st.cursor);
      assert e.ns < st.cursor;
    } else {
      assert page[j - k] == e && !Admissible(st, e);
    }
  }

  /** A follower that skips the overlap, gets a full page and finds nothing new has only blocked lines left. */
  lemma StuckHasPrinted(
      s: Server, origin: int, from: int, since: int, now: Clock, st: State, out: seq<Entry>, n: nat, j: nat)
    requires Ready(s, from, since, st, out) && EndsAhead(s, now) && Reached(s, origin, since, st) && st.cursor > 0
    requires var page := QueryRange(s, PollQuery(st, since, now(n), true));
             |page| >= MAX_LIMIT && Admit(st, page).1 == []
    requires j < |Timeline(s)| && Pending(Timeline(s)[j], from, st.floor, out)
    ensures Blocked(s, origin, j)
  {
    var q := PollQuery(st, since, now(n), true);
    var t, page := Timeline(s), QueryRange(s, q);
    PollReachesEnd(s, since, now, st, true, n);
    var k := PollPage(s, q);
    SkipPollProgress(s, since, now(n), st);
    hide QueryRange, Key, Timeline, Admit, EndsAhead, Safe;
    assert page[0] == t[k] && page[MAX_LIMIT - 1] == t[k + MAX_LIMIT - 1];
    assert FullFrom(s, k);
    assert k + MAX_LIMIT <= j by {
      if j < k + MAX_LIMIT {
        PrintedThroughPage(s, from, since, now(n), st, out, j, k);
      }
    }
  }

  lemma StuckIsCaughtUp(s: Server, origin: int, from: int, since: int, now: Clock, st: State, out: seq<Entry>, n: nat)
    requires Ready(s, from, since, st, out) && EndsAhead(s, now) && Reached(s, origin, since, st) && st.cursor > 0
    requires var page := QueryRange(s, PollQuery(st, since, now(n), true));
             |page| >= MAX_LIMIT && Admit(st, page).1 == []
    requires NoneBlocked(s, origin, from, st.floor, out)
    ensures CaughtUp(s, from, st.floor, out)
  {
    TimelineFacts(s);
    hide QueryRange, Key, Timeline, Admit, EndsAhead, Ready, Blocked, Reached, KeySet;
    forall e | e in s.lines && from <= e.ns && st.floor <= e.ns ensures Key(e) in KeySet(out) {
      var j :| 0 <= j < |Timeline(s)| && Timeline(s)[j] == e;
      if Pending(e, from, st.floor, out) {
        StuckHasPrinted(s, origin, from, since, now, st, out, n, j);
      }
    }
  }

  lemma FewerBlocked(s: Server, origin: int, from: int, floor: int, out: seq<Entry>, more: seq<Entry>)
    requires NoneBlocked(s, origin, from, floor, out)
    ensures NoneBlocked(s, origin, from, floor, out + more)
  {
    hide Key, Timeline, Blocked;
    assert KeySet(out) <= KeySet(out + more);
    forall j | 0 <= j < |Timeline(s)| && Pending(Timeline(s)[j], from, floor, out + more)
      ensures !Blocked(s, origin, j)
    {
      assert Pending(Timeline(s)[j], from, floor, out);
    }
  }

  /**
   Following a store that no longer changes ends up printing every line from the time it began, each
   exactly once, in a bounded number of polls, provided none of those still to come is blocked.
   */
  lemma {:induction false} FollowCatchesUp(
      s: Server, origin: int, from: int, since: int, now: Clock, st: State, skip: bool, out: seq<Entry>, calls: nat)
    returns (polls: nat)
    requires Ready(s, from, since, st, out) && PositiveTimes(s) && EndsAhead(s, now)
    requires Reached(s, origin, since, st) && NoneBlocked(s, origin, from, st.floor, out)
    requires skip ==> st.cursor > 0
    ensures var p := Followed(FixedPoller(s), since, now, st, skip, out, calls, polls);
            CaughtUp(s, from, st.floor, p.out) && DistinctKeys(p.out)
    decreases KeySet(s.lines) - KeySet(out), if skip then 0 else 1
  {
    hide QueryRange, Key, Safe, HeldWasPrinted, CursorTops, Covered, CaughtUp, Admit, KeySet, DistinctKeys,
         PositiveTimes, EndsAhead, NoneBlocked, Reached;
    var q := PollQuery(st, since, now(calls), skip);
    var page := QueryRange(s, q);
    var r := Admit(st, page);
    var skip' := |page| >= MAX_LIMIT && r.1 == [];
    PollKeepsReady(s, from, since, now, st, skip, out, calls);
    SafeIsDistinct(Progress(r.0, skip', out + r.1, false));
    if |page| < MAX_LIMIT {
      polls := 1;
    } else if skip && r.1 == [] {
      StuckIsCaughtUp(s, origin, from, since, now, st, out, calls);
      SafeIsDistinct(Progress(st, skip, out, false));
      polls := 0;
    } else {
      if r.1 != [] {
        NewsShrinksTheRest(s, q, st, out);
      } else {
        FullPageAnchors(s, q, st, out);
        assert out + r.1 == out;
      }
      PollKeepsReached(s, origin, since, now(calls), st, skip);
      FewerBlocked(s, origin, from, st.floor, out, r.1);
      var more := FollowCatchesUp(s, origin, from, since, now, r.0, skip', out + r.1, calls + 1);
      polls := more + 1;
    }
  }

  /** A full page of already printed lines means something was printed. */
  lemma FullPageAnchors(s: Server, q: Query, st: State, out: seq<Entry>)
    requires Safe(st, out) && HeldWasPrinted(st, out) && PositiveTimes(s) && CursorTops(st)
    requires |QueryRange(s, q)| >= MAX_LIMIT && Admit(st, QueryRange(s, q)).1 == []
    ensures Admit(st, QueryRange(s, q)).0.cursor > 0
  {
    var page := QueryRange(s, q);
    PageFromStore(s, q);
    hide QueryRange, Key;
    NoNews(st, page);
    assert page[0] in page && !Admissible(st, page[0]);
    assert page[0].ns > 0;
    if Key(page[0]) in st.seen {
      assert Key(page[0]) in KeySet(out);
    }
  }

  // ---- Stalling --------------------------------------------------------------------------------

  /** With or without the overlap, a poll brings back a full page with nothing new in it. */
  ghost predicate Stalled(s: Server, since: int, now: int, st: State) {
    forall skip :: var page := QueryRange(s, PollQuery(st, since, now, skip));
                   |page| >= MAX_LIMIT && Admit(st, page) == (st, [])
  }

  lemma {:induction false} StalledForever(
      s: Server, since: int, now: Clock, st: State, skip: bool, out: seq<Entry>, calls: nat, polls: nat)
    requires forall n: nat :: Stalled(s, since, now(n), st)
    ensures Followed(FixedPoller(s), since, now, st, skip, out, calls, polls).out == out
    decreases polls
  {
    hide QueryRange, Key, Admit, PollQuery;
    if polls > 0 {
      assert Stalled(s, since, now(calls), st);
      assert out + [] == out;
      StalledForever(s, since, now, st, true, out, calls + 1, polls - 1);
    }
  }

  lemma {:induction false} ClimbingIsOrdered(t: seq<Entry>)
    requires forall i, j :: 0 <= i < j < |t| ==> t[i].ns <= t[j].ns
    ensures Ordered(Forward, t)
  {
    if t != [] {
      ClimbingIsOrdered(t[1..]);
    }
  }

  /** Nothing that comes after a page lying in one granule is ever printed. */
  lemma {:induction false} BlockedNeverPrinted(
      s: Server, since: int, now: Clock, st: State, skip: bool, out: seq<Entry>, calls: nat, polls: nat, i: nat)
    requires EndsAhead(s, now) && CursorTops(st) && FullFrom(s, i)
    requires Granule(s, Origin(st, since)) <= Granule(s, Timeline(s)[i].ns)
    ensures forall e :: e in Followed(FixedPoller(s), since, now, st, skip, out, calls, polls).out ==>
              e in out || e in Timeline(s)[..i + MAX_LIMIT]
    decreases polls
  {
    hide QueryRange, Key, Timeline, Admit, EndsAhead, CursorTops, Granule, Origin;
    if polls > 0 {
      var q := PollQuery(st, since, now(calls), skip);
      var page := QueryRange(s, q);
      var r := Admit(st, page);
      PollStaysBefore(s, since, now, st, skip, calls, i);
      AdmitFromPage(st, page);
      BlockedNeverPrinted(s, since, now, r.0, |page| >= MAX_LIMIT && r.1 == [], out + r.1, calls + 1, polls - 1, i);
    }
  }

  lemma PollStaysBefore(s: Server, since: int, now: Clock, st: State, skip: bool, n: nat, i: nat)
    requires EndsAhead(s, now) && CursorTops(st) && FullFrom(s, i)
    requires Granule(s, Origin(st, since)) <= Granule(s, Timeline(s)[i].ns)
    ensures var page := QueryRange(s, PollQuery(st, since, now(n), skip));
            var r := Admit(st, page);
            && (forall e :: e in page ==> e in Timeline(s)[..i + MAX_LIMIT])
            && CursorTops(r.0) && Granule(s, Origin(r.0, since)) <= Granule(s, Timeline(s)[i].ns)
  {
    var q := PollQuery(st, since, now(n), skip);
    var t, page := Timeline(s), QueryRange(s, q);
    PollReachesEnd(s, since, now, st, skip, n);
    var k := PollPage(s, q);
    hide QueryRange, Key, Timeline, EndsAhead, Admit;
    assert k <= i;
    EarlyPage(s, k, i);
    AdmitTops(st, page);
  }

  lemma EarlyPage(s: Server, k: nat, i: nat)
    requires FullFrom(s, i) && k <= i
    ensures forall e :: e in Timeline(s)[k..Min(k + MAX_LIMIT, |Timeline(s)|)] ==>
              e in Timeline(s)[..i + MAX_LIMIT] && Granule(s, e.ns) <= Granule(s, Timeline(s)[i].ns)
  {
    TimelineFacts(s);
    hide Timeline;
    var t := Timeline(s);
    forall e | e in t[k..Min(k + MAX_LIMIT, |t|)]
      ensures e in t[..i + MAX_LIMIT] && Granule(s, e.ns) <= Granule(s, t[i].ns)
    {
      var x :| k <= x < Min(k + MAX_LIMIT, |t|) && t[x] == e;
      assert t[..i + MAX_LIMIT][x] == e && t[x].ns <= t[i + MAX_LIMIT - 1].ns;
    }
  }

  lemma AdmitTops(st: State, page: seq<Entry>)
    requires CursorTops(st)
    ensures var r := Admit(st, page);
            CursorTops(r.0) && (r.0.cursor == st.cursor || exists e :: e in page && e.ns == r.0.cursor)
  {
    hide Key;
    LetThroughTops(st, page);
  }

  lemma AdmitFromPage(st: State, page: seq<Entry>)
    ensures forall e :: e in Admit(st, page).1 ==> e in page
  {
    hide Key;
    LetThroughFrom(st, page);
  }

  lemma {:induction false} LetThroughFrom(st: State, page: seq<Entry>)
    ensures forall e :: e in LetThrough(st, page).1 ==> e in page
    decreases |page|
  {
    hide Key;
    if page != [] {
      LetThroughFrom(st, page[1..]);
      LetThroughFrom(Record(st, page[0]), page[1..]);
      assert page == [page[0]] + page[1..];
    }
  }

  lemma TimelineApart(s: Server)
    requires DistinctKeys(s.lines)
    ensures KeysApart(Timeline(s))
  {
    SortDistinct(Forward, s.lines);
    DistinctKeysApart(Timeline(s));
  }

  lemma BlockedStaysPending(
      s: Server, from: int, since: int, now: Clock, st: State, skip: bool, out: seq<Entry>, calls: nat, polls: nat,
      j: nat)
    requires EndsAhead(s, now) && CursorTops(st) && DistinctKeys(s.lines)
    requires j < |Timeline(s)| && Pending(Timeline(s)[j], from, st.floor, out) && Blocked(s, Origin(st, since), j)
    ensures var p := Followed(FixedPoller(s), since, now, st, skip, out, calls, polls);
            Pending(Timeline(s)[j], from, st.floor, p.out)
  {
    hide Key, Timeline, Followed, FullFrom, Granule, DistinctKeys, EndsAhead;
    var t := Timeline(s);
    var i: nat :| i + MAX_LIMIT <= j && FullFrom(s, i) && Granule(s, Origin(st, since)) <= Granule(s, t[i].ns);
    BlockedNeverPrinted(s, since, now, st, skip, out, calls, polls, i);
    TimelineApart(s);
    var p := Followed(FixedPoller(s), since, now, st, skip, out, calls, polls);
    forall e | e in p.out ensures Key(e) != Key(t[j]) {
      if e !in out {
        var x :| 0 <= x < i + MAX_LIMIT && t[x] == e;
      }
    }
  }

  /** Some number of polls prints every line from time `from` on. */
  ghost predicate CatchesUp(
      s: Server, from: int, since: int, now: Clock, st: State, skip: bool, out: seq<Entry>, calls: nat) {
    exists polls: nat ::
      CaughtUp(s, from, st.floor, Followed(FixedPoller(s), since, now, st, skip, out, calls, polls).out)
  }

  /**
   Exactly when following a store that no longer changes prints every line from the time it began: none
   of those still to come lies behind a page that fills one granule.
   */
  lemma FollowCatchesUpIff(
      s: Server, from: int, since: int, now: Clock, st: State, skip: bool, out: seq<Entry>, calls: nat)
    requires Ready(s, from, since, st, out) && PositiveTimes(s) && EndsAhead(s, now) && DistinctKeys(s.lines)
    requires skip ==> st.cursor > 0
    ensures CatchesUp(s, from, since, now, st, skip, out, calls) <==>
            NoneBlocked(s, Origin(st, since), from, st.floor, out)
  {
    TimelineFacts(s);
    hide Key, Timeline, Followed, Blocked, KeySet, DistinctKeys, EndsAhead, PositiveTimes, Safe, HeldWasPrinted;
    if NoneBlocked(s, Origin(st, since), from, st.floor, out) {
      var polls := FollowCatchesUp(s, Origin(st, since), from, since, now, st, skip, out, calls);
    } else {
      var j :| && 0 <= j < |Timeline(s)| && Pending(Timeline(s)[j], from, st.floor, out)
               && Blocked(s, Origin(st, since), j);
      forall polls: nat
        ensures !CaughtUp(s, from, st.floor, Followed(FixedPoller(s), since, now, st, skip, out, calls, polls).out)
      {
        BlockedStaysPending(s, from, since, now, st, skip, out, calls, polls, j);
        assert Timeline(s)[j] in s.lines;
      }
    }
  }

  /** No second holds a full page. */
  ghost predicate NoFullSecond(s: Server) {
    forall sec :: |LinesOf(s.lines, sec)| < MAX_LIMIT
  }

  /** A page in one granule fills its second. */
  lemma FullFromFillsSecond(s: Server, i: nat)
    requires FullFrom(s, i)
    ensures |LinesOf(s.lines, Second(Timeline(s)[i].ns))| >= MAX_LIMIT
  {
    TimelineFacts(s);
    var t := Timeline(s);
    hide Timeline, Filter;
    var page, sec := t[i..i + MAX_LIMIT], Second(t[i].ns);
    assert t == t[..i] + page + t[i + MAX_LIMIT..];
    forall e | e in page ensures Second(e.ns) == sec {
      var x :| i <= x < i + MAX_LIMIT && t[x] == e;
      assert t[i].ns <= t[x].ns <= t[i + MAX_LIMIT - 1].ns;
    }
    FilterAll(page, (e: Entry) => Second(e.ns) == sec);
    FilterLength(page, s.lines, (e: Entry) => Second(e.ns) == sec);
  }

  /** Where no second holds a full page nothing is ever blocked, whatever the server does with bounds. */
  lemma RoomySecondsBlockNothing(s: Server, origin: int, j: nat)
    requires NoFullSecond(s)
    ensures !Blocked(s, origin, j)
  {
    hide FullFrom, LinesOf, Granule;
    forall i: nat ensures !FullFrom(s, i) {
      if FullFrom(s, i) {
        FullFromFillsSecond(s, i);
      }
    }
  }

  /**
   A second holding more lines than a page, on a server that truncates bounds: however long it polls, the
   follower never prints the line after the first page of that second.
   */
  lemma FullSecondStalls(now: Clock, polls: nat)
    requires forall n: nat :: now(n) >= 2 * SECOND
    ensures var s := Server(Burst(MAX_LIMIT + 1), true);
            s.lines[MAX_LIMIT] !in Followed(FixedPoller(s), SECOND, now, NewState, false, [], 0, polls).out
  {
    var s := Server(Burst(MAX_LIMIT + 1), true);
    BurstTimeline(MAX_LIMIT + 1, true);
    hide Timeline, Followed, Key;
    assert EndsAhead(s, now);
    BlockedNeverPrinted(s, SECOND, now, NewState, false, [], 0, polls, 0);
  }

  /** So many lines at one instant do the same to the follower of a server with exact bounds. */
  lemma FullInstantStalls(s: Server, now: Clock, polls: nat, at: int)
    requires |s.lines| > MAX_LIMIT && at > 0 && DistinctKeys(s.lines) && EndsAhead(s, now)
    requires forall e :: e in s.lines ==> e.ns == at
    ensures exists e :: e in s.lines && e !in Followed(FixedPoller(s), at, now, NewState, false, [], 0, polls).out
  {
    TimelineFacts(s);
    TimelineApart(s);
    var t := Timeline(s);
    hide Timeline, Followed, Key, DistinctKeys, EndsAhead;
    assert |t| == |multiset(t)| == |s.lines|;
    assert t[0] in t && t[MAX_LIMIT - 1] in t && t[MAX_LIMIT] in t;
    BlockedNeverPrinted(s, at, now, NewState, false, [], 0, polls, 0);
    forall x | 0 <= x < MAX_LIMIT ensures t[x] != t[MAX_LIMIT] {
      assert Key(t[x]) != Key(t[MAX_LIMIT]);
    }
    assert t[MAX_LIMIT] !in t[..0 + MAX_LIMIT];
  }

  lemma BurstTimeline(n: nat, truncates: bool)
    ensures Timeline(Server(Burst(n), truncates)) == Burst(n)
  {
    ClimbingIsOrdered(Burst(n));
    SortOfOrdered(Forward, Burst(n));
  }
}
