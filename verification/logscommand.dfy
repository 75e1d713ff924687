/** `logs` and `logs -f` end to end: the backlog from Tail or All, then the follower seeded with it. */
module LogsCommand {
  import opened Texts
  import opened Entries
  import opened Paging
  import opened PagingExact
  import opened Fetch
  import opened Follow
  import opened FollowRuns
  import opened CatchUp

  /** The follower after each backlog line was passed to Backlog. */
  function Seeded(st: State, backlog: seq<Entry>): State
    decreases |backlog|
  {
    if backlog == [] then st else Seeded(BacklogStep(st, [backlog[0]]), backlog[1..])
  }

  /** Printed lines are barred, held keys were printed, and the floor is the cursor. */
  ghost predicate Seed(st: State, printed: seq<Entry>) {
    && Safe(st, printed) && HeldWasPrinted(st, printed) && CursorTops(st)
    && (forall e :: e in printed ==> e.ns <= st.floor)
  }

  lemma OneAdmitted(st: State, e: Entry)
    ensures Admit(st, [e]).0 == Prune(if Admissible(st, e) then Record(st, e) else st)
  {
    hide Key;
    assert [e][1..] == [];
    assert LetThrough(Record(st, e), []).0 == Record(st, e) && LetThrough(st, []).0 == st;
  }

  lemma BarredGrows(st: State, st': State, c: int, out: seq<Entry>)
    requires AllBarred(st, c, out) && st.seen.Keys <= st'.seen.Keys && st.floor <= st'.floor
    ensures AllBarred(st', c, out)
  {
    hide Key;
    forall e | e in out ensures Barred(st', c, e) {
      assert Barred(st, c, e);
    }
  }

  lemma SeedStep(st: State, printed: seq<Entry>, e: Entry)
    requires Seed(st, printed) && Key(e) !in KeySet(printed) && e.ns > 0
    ensures Seed(BacklogStep(st, [e]), printed + [e])
  {
    hide Key, DistinctKeys;
    var st1 := if Admissible(st, e) then Record(st, e) else st;
    OneAdmitted(st, e);
    DistinctSnoc(printed, e);
    RecordTimes(st, e);
    BarredGrows(st, st1, st.cursor, printed);
    assert Barred(st1, st.cursor, e);
    var out := printed + [e];
    assert AllBarred(st1, st.cursor, out);
    PruneSafe(st1, st.cursor, out);
    var st2 := Prune(st1);
    var st3 := st2.(floor := st2.cursor);
    assert TimesMatch(st3) by { hide Key; }
    BarredGrows(st2, st3, st3.cursor, out);
    assert e in out && forall x :: x in printed ==> x in out;
    assert HeldWasPrinted(st3, out) by {
      assert Key(e) in KeySet(out);
      assert KeySet(printed) <= KeySet(out);
    }
  }

  lemma {:induction false} SeededSafe(st: State, printed: seq<Entry>, backlog: seq<Entry>)
    requires Seed(st, printed) && DistinctKeys(printed + backlog)
    requires forall e :: e in backlog ==> e.ns > 0
    ensures Seed(Seeded(st, backlog), printed + backlog)
    decreases |backlog|
  {
    hide Key, Seed, BacklogStep, DistinctKeys;
    if backlog == [] {
      assert printed + backlog == printed;
    } else {
      var e := backlog[0];
      assert printed + backlog == printed + [e] + backlog[1..];
      DistinctAppend(printed, backlog);
      assert e in backlog;
      SeedStep(st, printed, e);
      SeededSafe(BacklogStep(st, [e]), printed + [e], backlog[1..]);
    }
  }

  lemma {:induction false} FollowedAppends(
      poller: Poller, since: int, now: Clock, st: State, skip: bool, before: seq<Entry>, out: seq<Entry>, calls: nat,
      polls: nat)
    ensures var p, p' := Followed(poller, since, now, st, skip, out, calls, polls),
                         Followed(poller, since, now, st, skip, before + out, calls, polls);
            p' == p.(out := before + p.out)
    decreases polls
  {
    hide Key, Admit;
    if polls > 0 {
      match poller(calls, PollQuery(st, since, now(calls), skip)) {
        case Permanent =>
        case Transient =>
          FollowedAppends(poller, since, now, st, skip, before, out, calls + 1, polls - 1);
        case Got(entries) =>
          var r := Admit(st, entries);
          assert before + out + r.1 == before + (out + r.1);
          var skip' := |entries| >= MAX_LIMIT && r.1 == [];
          FollowedAppends(poller, since, now, r.0, skip', before, out + r.1, calls + 1, polls - 1);
      }
    }
  }

  /**
   A backlog printed while seeding the follower, then the follower's own run: no key is printed
   twice, and the follower prints nothing older than any backlog line.
   */
  lemma BacklogThenFollow(poller: Poller, since: int, now: Clock, backlog: seq<Entry>, polls: nat)
    requires HonestPoller(poller) && DistinctKeys(backlog)
    requires forall e :: e in backlog ==> e.ns > 0
    ensures var p := Followed(poller, since, now, Seeded(NewState, backlog), false, [], 0, polls);
            && DistinctKeys(backlog + p.out)
            && forall b, e :: b in backlog && e in p.out ==> b.ns <= e.ns
  {
    var st := Seeded(NewState, backlog);
    assert Seed(NewState, []);
    assert [] + backlog == backlog;
    SeededSafe(NewState, [], backlog);
    assert Safe(st, backlog) && HeldWasPrinted(st, backlog);
    hide Key, DistinctKeys, Followed, HeldWasPrinted, Safe, Seeded, HonestPoller;
    FollowedAppends(poller, since, now, st, false, backlog, [], 0, polls);
    assert backlog + [] == backlog;
    FollowNeverRepeats(poller, since, now, st, false, backlog, 0, polls);
    FollowGrows(poller, since, now, st, false, backlog, 0, polls);
    SafeIsDistinct(Followed(poller, since, now, st, false, backlog, 0, polls));
  }

  // ---- The command -----------------------------------------------------------------------------

  ghost predicate PositiveAnswers(querier: Querier) {
    forall n: nat, q: Query :: querier(n, q).Lines? ==> forall e :: e in querier(n, q).page ==> e.ns > 0
  }

  lemma {:induction false} WalkedPositive(
      querier: Querier, keep: Consumer, w: Walk, out: seq<Entry>, calls: nat, rounds: nat)
    requires PositiveAnswers(querier) && w.q.limit > 0
    requires forall e :: e in out ==> e.ns > 0
    ensures forall e :: e in Walked(querier, keep, w, out, calls, rounds).out ==> e.ns > 0
    decreases rounds
  {
    hide Key, Fresh, Advance;
    if rounds > 0 && querier(calls, w.q).Lines? {
      var page := querier(calls, w.q).page;
      FreshFromPage(w, page);
      if |page| >= w.q.limit {
        WalkedPositive(querier, keep, Advance(w, page), out + Fresh(w, page), calls + 1, rounds - 1);
      }
    }
  }

  lemma {:induction false} ApartIsDistinct(t: seq<Entry>)
    requires KeysApart(t)
    ensures DistinctKeys(t)
  {
    hide Key;
    if t != [] {
      ApartIsDistinct(t[1..]);
      forall e | e in t[1..] ensures Key(e) != Key(t[0]) {
      }
    }
  }

  lemma ReversedDistinct(t: seq<Entry>, n: nat)
    requires DistinctKeys(t)
    ensures DistinctKeys(Reversed(Take(t, n)))
  {
    hide Key, DistinctKeys, Reversed;
    DistinctKeysApart(t);
    var r := Reversed(Take(t, n));
    forall i, j | 0 <= i < j < |r| ensures Key(r[i]) != Key(r[j]) {
      assert r[i] == t[|r| - 1 - i] && r[j] == t[|r| - 1 - j];
    }
    ApartIsDistinct(r);
  }

  /** The walk behind a backlog: Tail's for a limit, All's for -1. */
  ghost function BacklogWalk(querier: Querier, start: int, end: int, limit: int, rounds: nat): Outcome {
    if limit < 0 then Walked(querier, Always(), Start(Query(start, end, MAX_LIMIT, Forward)), [], 0, rounds)
    else if limit == 0 then Done([])
    else Walked(querier, Below(limit), Start(TailQuery(start, end, limit)), [], 0, rounds)
  }

  lemma BacklogWalkSound(querier: Querier, start: int, end: int, limit: int, rounds: nat)
    requires Honest(querier) && PositiveAnswers(querier)
    ensures DistinctKeys(BacklogWalk(querier, start, end, limit, rounds).out)
    ensures forall e :: e in BacklogWalk(querier, start, end, limit, rounds).out ==> e.ns > 0
  {
    var q := if limit < 0 then Query(start, end, MAX_LIMIT, Forward) else TailQuery(start, end, limit);
    var keep := if limit < 0 then Always() else Below(limit);
    assert Unrepeated(Start(q), []);
    hide Key, Walked, Honest, PositiveAnswers;
    WalkNeverRepeats(querier, keep, Start(q), [], 0, rounds);
    WalkedPositive(querier, keep, Start(q), [], 0, rounds);
  }

  lemma EmptyIsDistinct()
    ensures DistinctKeys([])
  {
  }

  /** The backlog half of runLogs: Tail for a limit, All for -1. */
  method FetchBacklog(querier: Querier, start: int, end: int, limit: int, ghost rounds: nat)
    returns (backlog: seq<Entry>, failed: bool)
    requires !BacklogWalk(querier, start, end, limit, rounds).Unfinished?
    requires Honest(querier) && PositiveAnswers(querier)
    ensures failed <==> BacklogWalk(querier, start, end, limit, rounds).Broke?
    ensures limit < 0 ==> backlog == BacklogWalk(querier, start, end, limit, rounds).out
    ensures limit >= 0 ==> backlog == if failed then [] else
              Reversed(Take(BacklogWalk(querier, start, end, limit, rounds).out, limit))
    ensures DistinctKeys(backlog) && forall e :: e in backlog ==> e.ns > 0
  {
    BacklogWalkSound(querier, start, end, limit, rounds);
    ghost var walk := BacklogWalk(querier, start, end, limit, rounds);
    EmptyIsDistinct();
    hide Key, Honest, PositiveAnswers, DistinctKeys;
    if limit >= 0 {
      ReversedDistinct(walk.out, limit);
      var lines := Tail(querier, start, end, limit, rounds);
      failed := lines.None?;
      backlog := if failed then [] else lines.value;
    } else {
      var r := All(querier, start, end, rounds);
      backlog, failed := r.out, r.Broke?;
    }
  }

  /**
   runLogs after its flags are checked: print the backlog, seeding the follower line by line when
   following, then follow from the time `began` until the context ends after `polls` polls.
   */
  method RunLogs(querier: Querier, poller: Poller, start: int, end: int, limit: int, follow: bool,
                 began: int, now: Clock, polls: nat, ghost rounds: nat)
    returns (backlog: seq<Entry>, followed: seq<Entry>, failed: bool)
    requires limit >= -1 && !BacklogWalk(querier, start, end, limit, rounds).Unfinished?
    requires Honest(querier) && PositiveAnswers(querier) && HonestPoller(poller)
    ensures DistinctKeys(backlog + followed)
    ensures forall b, e :: b in backlog && e in followed ==> b.ns <= e.ns
    ensures !follow ==> followed == []
    ensures limit < 0 ==> backlog == BacklogWalk(querier, start, end, limit, rounds).out
    ensures limit >= 0 && !failed ==>
              backlog == Reversed(Take(BacklogWalk(querier, start, end, limit, rounds).out, limit))
    ensures BacklogWalk(querier, start, end, limit, rounds).Broke? ==> failed && followed == []
    ensures follow && BacklogWalk(querier, start, end, limit, rounds).Done? ==>
              var p := Followed(poller, began - 10_000_000_000, now, Seeded(NewState, backlog), false, [], 0, polls);
              followed == p.out && failed == p.ended
  {
    hide Key, Walked, Honest, PositiveAnswers, HonestPoller, DistinctKeys, Followed, BacklogWalk, Always, Reversed;
    followed := [];
    backlog, failed := FetchBacklog(querier, start, end, limit, rounds);
    assert backlog + [] == backlog;
    if failed || !follow {
      return;
    }
    var follower := new Follower();
    for i := 0 to |backlog|
      invariant Seeded(follower.Abs(), backlog[i..]) == Seeded(NewState, backlog)
    {
      assert backlog[i..][0] == backlog[i] && backlog[i..][1..] == backlog[i + 1..];
      follower.Backlog([backlog[i]]);
    }
    BacklogThenFollow(poller, began - 10_000_000_000, now, backlog, polls);
    followed, failed := follower.Run(poller, began, now, polls);
  }

  // ---- Nothing lost between the two --------------------------------------------------------------

  lemma {:induction false} SeededFloor(st: State, backlog: seq<Entry>)
    requires st.floor == st.cursor
    ensures var r := Seeded(st, backlog);
            r.floor == r.cursor && (r.cursor == st.cursor || exists b :: b in backlog && b.ns == r.cursor)
    decreases |backlog|
  {
    hide Key;
    if backlog != [] {
      var e := backlog[0];
      OneAdmitted(st, e);
      SeededFloor(BacklogStep(st, [e]), backlog[1..]);
      assert e in backlog && forall b :: b in backlog[1..] ==> b in backlog;
    }
  }

  /** From when on a follower seeded with a backlog owes lines: its newest, or where polling begins without one. */
  function Owed(backlog: seq<Entry>, since: int): int {
    if backlog == [] then since else Seeded(NewState, backlog).floor
  }

  lemma SeededReady(s: Server, since: int, backlog: seq<Entry>)
    requires PositiveTimes(s) && DistinctKeys(backlog) && forall e :: e in backlog ==> e.ns > 0
    ensures Ready(s, Owed(backlog, since), since, Seeded(NewState, backlog), backlog)
    ensures forall b :: b in backlog ==> b.ns <= Seeded(NewState, backlog).floor
  {
    assert Seed(NewState, []);
    assert [] + backlog == backlog;
    SeededSafe(NewState, [], backlog);
    SeededFloor(NewState, backlog);
    hide Key, Seeded, Safe, HeldWasPrinted, KeySet, DistinctKeys;
    if backlog != [] {
      assert backlog[0] in backlog;
    } else {
      assert Seeded(NewState, backlog) == NewState by { NothingSeeded(); }
    }
  }

  lemma NothingSeeded()
    ensures Seeded(NewState, []) == NewState
  {
  }

  lemma FixedIsHonest(s: Server)
    requires PositiveTimes(s)
    ensures HonestPoller(FixedPoller(s))
  {
    hide QueryRange, PollFor, PositiveTimes;
    forall n: nat, q: Query ensures PollFor(q, FixedPoller(s)(n, q).entries) {
      PageIsPollFor(s, q);
    }
  }

  /** A backlog and so many polls of the follower seeded with it print every line owed. */
  ghost predicate PrintsOwed(s: Server, since: int, now: Clock, backlog: seq<Entry>, polls: nat) {
    var st := Seeded(NewState, backlog);
    CaughtUp(s, Owed(backlog, since), st.floor,
             backlog + Followed(FixedPoller(s), since, now, st, false, [], 0, polls).out)
  }

  lemma PrintsOwedFollows(s: Server, since: int, now: Clock, backlog: seq<Entry>, polls: nat)
    ensures var st := Seeded(NewState, backlog);
            PrintsOwed(s, since, now, backlog, polls) <==>
            CaughtUp(s, Owed(backlog, since), st.floor,
                     Followed(FixedPoller(s), since, now, st, false, backlog, 0, polls).out)
  {
    hide Key, Followed, Seeded, CaughtUp, Owed;
    FollowedAppends(FixedPoller(s), since, now, Seeded(NewState, backlog), false, backlog, [], 0, polls);
    assert backlog + [] == backlog;
  }

  /**
   On a store that no longer changes, a backlog and the follower seeded with it together print every line
   not older than the backlog's newest, each once, exactly when none of those still to come is blocked.
   */
  lemma BacklogThenFollowIff(s: Server, since: int, now: Clock, backlog: seq<Entry>)
    requires PositiveTimes(s) && EndsAhead(s, now) && DistinctKeys(s.lines)
    requires DistinctKeys(backlog) && forall e :: e in backlog ==> e.ns > 0
    ensures (exists polls: nat :: PrintsOwed(s, since, now, backlog, polls)) <==>
            NoneBlocked(s, Origin(Seeded(NewState, backlog), since), Owed(backlog, since),
                        Seeded(NewState, backlog).floor, backlog)
  {
    hide Key, Followed, DistinctKeys, Seeded, NoneBlocked, CaughtUp, Ready, Owed, EndsAhead, PositiveTimes, PrintsOwed;
    var st, from := Seeded(NewState, backlog), Owed(backlog, since);
    SeededReady(s, since, backlog);
    FollowCatchesUpIff(s, from, since, now, st, false, backlog, 0);
    forall polls: nat
      ensures PrintsOwed(s, since, now, backlog, polls) <==>
              CaughtUp(s, from, st.floor, Followed(FixedPoller(s), since, now, st, false, backlog, 0, polls).out)
    {
      PrintsOwedFollows(s, since, now, backlog, polls);
    }
  }

  lemma WindowPositive(s: Server, q: Query)
    requires PositiveTimes(s)
    ensures forall e :: e in Window(s, q) ==> e.ns > 0
  {
    hide Window;
    forall e | e in Window(s, q) ensures e.ns > 0 {
      WindowFromStore(s, q, e);
    }
  }

  /** What the backlog of the whole window leaves is owed by the follower. */
  lemma RestIsOwed(s: Server, q: Query, since: int, e: Entry)
    requires PositiveTimes(s) && DistinctKeys(s.lines) && q.direction == Forward
    requires Window(s, q) == [] ==> since <= Upper(s, q)
    requires e in s.lines && Lower(s, q) <= e.ns && e !in Window(s, q)
    ensures Owed(Window(s, q), since) <= e.ns && Seeded(NewState, Window(s, q)).floor <= e.ns
  {
    var t := Window(s, q);
    if Inside(s, q, e) {
      StoreInWindow(s, q, e);
    }
    assert e.ns >= Upper(s, q);
    hide Window, Seeded, Key;
    SeededFloor(NewState, t);
    if b :| b in t && b.ns == Seeded(NewState, t).cursor {
      WindowInside(s, q, b);
    }
  }

  /**
   With nothing in the backlog, polling begins at `since`: lines before its second, or its instant if bounds
   are exact, are never printed as long as nothing newer comes.
   */
  lemma {:induction false} LateStartMisses(s: Server, since: int, now: Clock, skip: bool, calls: nat, polls: nat)
    requires forall e :: e in s.lines ==> Granule(s, e.ns) < Granule(s, since)
    ensures Followed(FixedPoller(s), since, now, NewState, skip, [], calls, polls).out == []
    decreases polls
  {
    hide QueryRange;
    if polls > 0 {
      var q := PollQuery(NewState, since, now(calls), skip);
      NothingReached(s, q);
      assert Admit(NewState, []) == (NewState, []);
      var none: seq<Entry> := [];
      assert none + [] == [];
      LateStartMisses(s, since, now, false, calls + 1, polls - 1);
    }
  }

  lemma NothingReached(s: Server, q: Query)
    requires forall e :: e in s.lines ==> Granule(s, e.ns) < Granule(s, q.start)
    ensures QueryRange(s, q) == []
  {
    FilterNone(s.lines, (e: Entry) => Inside(s, q, e));
  }

  /**
   The logs command without a limit, following a store that no longer changes: backlog and follower
   together print every line from the start of the window on, each once.
   */
  lemma WholeLogsThenFollow(s: Server, start: int, end: int, since: int, now: Clock) returns (rounds: nat, polls: nat)
    requires PositiveTimes(s) && EndsAhead(s, now) && DistinctKeys(s.lines)
    requires var q := Query(start, end, MAX_LIMIT, Forward);
             && Honoured(s, q) && (Window(s, q) == [] ==> since <= Upper(s, q))
             && (forall sec :: |LinesOf(Window(s, q), sec)| <= MAX_LIMIT)
             && NoneBlocked(s, Origin(Seeded(NewState, Window(s, q)), since), Owed(Window(s, q), since),
                            Seeded(NewState, Window(s, q)).floor, Window(s, q))
    ensures var backlog := BacklogWalk(Fixed(s), start, end, -1, rounds);
            var st := Seeded(NewState, backlog.out);
            var printed := backlog.out + Followed(FixedPoller(s), since, now, st, false, [], 0, polls).out;
            && backlog.Done? && DistinctKeys(printed)
            && forall e :: e in s.lines && Lower(s, Query(start, end, MAX_LIMIT, Forward)) <= e.ns ==>
                 Key(e) in KeySet(printed)
  {
    hide Key, Walked, Followed, DistinctKeys, Seeded, NoneBlocked, Window, LinesOf, Honoured, Owed, EndsAhead,
         PositiveTimes, HonestPoller, Ready, KeysApart, PaceUp;
    var q := Query(start, end, MAX_LIMIT, Forward);
    var t := Window(s, q);
    rounds := AllIsWholeIff(s, start, end);
    WindowApart(s, q);
    WindowPositive(s, q);
    BacklogThenFollowIff(s, since, now, t);
    var st := Seeded(NewState, t);
    polls :| PrintsOwed(s, since, now, t, polls);
    FixedIsHonest(s);
    BacklogThenFollow(FixedPoller(s), since, now, t, polls);
    var printed := t + Followed(FixedPoller(s), since, now, st, false, [], 0, polls).out;
    forall e | e in s.lines && Lower(s, q) <= e.ns ensures Key(e) in KeySet(printed) {
      if e in t {
        assert e in printed;
      } else {
        RestIsOwed(s, q, since, e);
      }
    }
  }
}
