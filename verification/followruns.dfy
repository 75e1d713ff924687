/** What a follower emits over whole runs: nothing twice, nothing missed. */
module FollowRuns {
  import opened Texts
  import opened Entries
  import opened Paging
  import opened PagingExact
  import opened Follow

  // ---- Nothing twice ---------------------------------------------------------------------------

  /** A recorded key carries its line's time. */
  ghost predicate TimesMatch(st: State) {
    forall e: Entry {:trigger Key(e)} :: Key(e) in st.seen ==> st.seen[Key(e)] == e.ns
  }

  /**
   Why `e`, printed before, cannot come through again while polls reach back from time `c`: its key
   is still held, it is older than the floor, or no poll reaches back to it.
   */
  ghost predicate Barred(st: State, c: int, e: Entry) {
    Key(e) in st.seen || e.ns < st.floor || (c > 0 && e.ns < Cutoff(c))
  }

  ghost predicate AllBarred(st: State, c: int, out: seq<Entry>) {
    forall e :: e in out ==> Barred(st, c, e)
  }

  /** The invariant of a run: what was printed is barred, and once anything was, polls are anchored. */
  ghost predicate Safe(st: State, out: seq<Entry>) {
    && TimesMatch(st) && DistinctKeys(out) && AllBarred(st, st.cursor, out)
    && (out != [] ==> st.cursor > 0)
  }

  lemma RecordTimes(st: State, e: Entry)
    requires TimesMatch(st)
    ensures TimesMatch(Record(st, e))
  {
    forall x: Entry | Key(x) in Record(st, e).seen ensures Record(st, e).seen[Key(x)] == x.ns {
      if Key(x) == Key(e) {
        KeyFixesTime(x, e);
      }
    }
  }

  /** A printed line and an admissible one within the poll's reach have different keys. */
  lemma AdmissibleIsNew(st: State, c: int, out: seq<Entry>, e: Entry)
    requires AllBarred(st, c, out) && Admissible(st, e) && (c > 0 ==> Cutoff(c) <= e.ns)
    ensures Key(e) !in KeySet(out)
  {
    forall x | x in out ensures Key(x) != Key(e) {
      assert Barred(st, c, x);
      if Key(x) == Key(e) {
        KeyFixesTime(x, e);
      }
    }
  }

  lemma DistinctSnoc(out: seq<Entry>, e: Entry)
    requires DistinctKeys(out) && Key(e) !in KeySet(out)
    ensures DistinctKeys(out + [e])
  {
    hide Key;
    DistinctAppend(out, [e]);
    assert KeySet([e]) == {Key(e)} && KeySet([e][1..]) == {};
  }

  lemma {:induction false} LetThroughSafe(st: State, c: int, out: seq<Entry>, entries: seq<Entry>)
    requires TimesMatch(st) && DistinctKeys(out) && AllBarred(st, c, out)
    requires forall e :: e in entries ==> e.ns > 0 && (c > 0 ==> Cutoff(c) <= e.ns)
    requires out != [] ==> st.cursor > 0
    ensures var r := LetThrough(st, entries);
            && TimesMatch(r.0) && DistinctKeys(out + r.1) && AllBarred(r.0, c, out + r.1)
            && (out + r.1 != [] ==> r.0.cursor > 0)
    decreases |entries|
  {
    hide Key, TimesMatch, DistinctKeys;
    if entries == [] {
      assert out + [] == out;
    } else {
      var e := entries[0];
      if Admissible(st, e) {
        AdmissibleIsNew(st, c, out, e);
        DistinctSnoc(out, e);
        RecordTimes(st, e);
        LetThroughSafe(Record(st, e), c, out + [e], entries[1..]);
        var rest := LetThrough(Record(st, e), entries[1..]);
        assert out + [e] + rest.1 == out + ([e] + rest.1);
      } else {
        LetThroughSafe(st, c, out, entries[1..]);
      }
    }
  }

  lemma PruneSafe(st: State, c: int, out: seq<Entry>)
    requires TimesMatch(st) && DistinctKeys(out) && AllBarred(st, c, out) && c <= st.cursor
    requires out != [] ==> st.cursor > 0
    ensures Safe(Prune(st), out)
  {
    hide Key, DistinctKeys;
    forall e | e in out ensures Barred(Prune(st), st.cursor, e) {
      assert Barred(st, c, e);
    }
  }

  /** An answer to a poll: nothing before the second the window starts in, and real times. */
  ghost predicate PollFor(q: Query, entries: seq<Entry>) {
    forall e :: e in entries ==> e.ns > 0 && Second(q.start) <= Second(e.ns)
  }

  ghost predicate HonestPoller(poller: Poller) {
    forall n: nat, q: Query :: poller(n, q).Got? ==> PollFor(q, poller(n, q).entries)
  }

  lemma AdmitSafe(st: State, since: int, now: int, skip: bool, out: seq<Entry>, entries: seq<Entry>)
    requires Safe(st, out) && PollFor(PollQuery(st, since, now, skip), entries)
    ensures Safe(Admit(st, entries).0, out + Admit(st, entries).1)
  {
    hide Key, DistinctKeys, TimesMatch;
    var taken := LetThrough(st, entries);
    LetThroughSafe(st, st.cursor, out, entries);
    PruneSafe(taken.0, st.cursor, out + taken.1);
  }

  /**
   No key is emitted twice over any run of polls, failures included, whatever the store does
   between them; keys are forgotten only once no poll can return them.
   */
  lemma {:induction false} FollowNeverRepeats(
      poller: Poller, since: int, now: Clock, st: State, skip: bool, out: seq<Entry>, calls: nat, polls: nat)
    requires HonestPoller(poller) && Safe(st, out)
    ensures var p := Followed(poller, since, now, st, skip, out, calls, polls); Safe(p.st, p.out)
    decreases polls
  {
    hide Key, Safe, Admit, PollFor;
    if polls > 0 {
      var q := PollQuery(st, since, now(calls), skip);
      match poller(calls, q) {
        case Permanent =>
        case Transient =>
          FollowNeverRepeats(poller, since, now, st, skip, out, calls + 1, polls - 1);
        case Got(entries) =>
          AdmitSafe(st, since, now(calls), skip, out, entries);
          var r := Admit(st, entries);
          var skip' := |entries| >= MAX_LIMIT && r.1 == [];
          FollowNeverRepeats(poller, since, now, r.0, skip', out + r.1, calls + 1, polls - 1);
      }
    }
  }

  // ---- Nothing older than the floor, nothing visible missed ----------------------------------

  /** Every key held was printed. */
  ghost predicate HeldWasPrinted(st: State, out: seq<Entry>) {
    st.seen.Keys <= KeySet(out)
  }

  lemma {:induction false} LetThroughPrints(st: State, out: seq<Entry>, entries: seq<Entry>)
    requires HeldWasPrinted(st, out)
    ensures var r := LetThrough(st, entries);
            && HeldWasPrinted(r.0, out + r.1)
            && (forall e :: e in r.1 ==> e in entries && st.floor <= e.ns <= r.0.cursor)
            && (forall e :: e in entries && st.floor <= e.ns ==> Key(e) in KeySet(out + r.1))
    decreases |entries|
  {
    hide Key;
    if entries == [] {
      assert out + [] == out;
    } else {
      var e := entries[0];
      assert entries == [e] + entries[1..];
      if Admissible(st, e) {
        assert e in out + [e];
        assert forall x :: x in out ==> x in out + [e];
        LetThroughPrints(Record(st, e), out + [e], entries[1..]);
        var rest := LetThrough(Record(st, e), entries[1..]);
        assert out + [e] + rest.1 == out + ([e] + rest.1);
        assert e in out + ([e] + rest.1);
      } else {
        LetThroughPrints(st, out, entries[1..]);
        var rest := LetThrough(st, entries[1..]);
        assert forall x :: x in out ==> x in out + rest.1;
      }
    }
  }

  lemma AdmitPrints(st: State, out: seq<Entry>, entries: seq<Entry>)
    requires HeldWasPrinted(st, out)
    ensures var r := Admit(st, entries);
            && HeldWasPrinted(r.0, out + r.1)
            && (forall e :: e in r.1 ==> e in entries && st.floor <= e.ns <= r.0.cursor)
            && (forall e :: e in entries && st.floor <= e.ns ==> Key(e) in KeySet(out + r.1))
  {
    hide Key;
    LetThroughPrints(st, out, entries);
  }

  lemma Grows<T>(a: seq<T>, b: seq<T>, all: seq<T>)
    requires a + b <= all
    ensures a <= all && all[|a|..] == b + all[|a + b|..]
  {
    assert all == a + b + all[|a + b|..];
  }

  /** What was printed stays printed, keys held were printed, and nothing below the floor comes out. */
  lemma {:induction false} FollowGrows(
      poller: Poller, since: int, now: Clock, st: State, skip: bool, out: seq<Entry>, calls: nat, polls: nat)
    requires HeldWasPrinted(st, out)
    ensures var p := Followed(poller, since, now, st, skip, out, calls, polls);
            && out <= p.out && HeldWasPrinted(p.st, p.out) && p.st.floor == st.floor
            && (forall e :: e in p.out[|out|..] ==> st.floor <= e.ns)
    decreases polls
  {
    hide Key, KeySet, HeldWasPrinted;
    if polls > 0 {
      match poller(calls, PollQuery(st, since, now(calls), skip)) {
        case Permanent =>
        case Transient =>
          FollowGrows(poller, since, now, st, skip, out, calls + 1, polls - 1);
        case Got(entries) =>
          AdmitPrints(st, out, entries);
          var r := Admit(st, entries);
          var skip' := |entries| >= MAX_LIMIT && r.1 == [];
          FollowGrows(poller, since, now, r.0, skip', out + r.1, calls + 1, polls - 1);
          var p := Followed(poller, since, now, r.0, skip', out + r.1, calls + 1, polls - 1);
          Grows(out, r.1, p.out);
      }
    }
  }

  /** One more poll at the end of a run that no error ended. */
  lemma {:induction false} FollowedSnoc(
      poller: Poller, since: int, now: Clock, st: State, skip: bool, out: seq<Entry>, calls: nat, polls: nat)
    requires !Followed(poller, since, now, st, skip, out, calls, polls).ended
    ensures var p := Followed(poller, since, now, st, skip, out, calls, polls);
            Followed(poller, since, now, st, skip, out, calls, polls + 1) ==
            Followed(poller, since, now, p.st, p.skip, p.out, calls + polls, 1)
    decreases polls
  {
    hide Key, Admit;
    if polls > 0 {
      match poller(calls, PollQuery(st, since, now(calls), skip)) {
        case Transient =>
          FollowedSnoc(poller, since, now, st, skip, out, calls + 1, polls - 1);
        case Got(entries) =>
          var r := Admit(st, entries);
          FollowedSnoc(poller, since, now, r.0, |entries| >= MAX_LIMIT && r.1 == [], out + r.1, calls + 1, polls - 1);
      }
    }
  }

  /** The store behind the poller may change from poll to poll; some polls may fail. */
  ghost predicate Serves(poller: Poller, stores: nat -> Server) {
    forall n: nat, q: Query :: poller(n, q).Got? ==> poller(n, q).entries == QueryRange(stores(n), q)
  }

  lemma PartialPageHoldsAll(s: Server, q: Query, e: Entry)
    requires e in s.lines && Inside(s, q, e) && |QueryRange(s, q)| < q.limit
    ensures e in QueryRange(s, q)
  {
    var p := (x: Entry) => Inside(s, q, x);
    FilterMembers(s.lines, p);
    assert e in multiset(Filter(s.lines, p));
    WindowOrdered(s, q);
    assert e in multiset(Window(s, q));
    assert QueryRange(s, q) == Window(s, q);
  }

  /** The answer to the poll that follows a run of so many polls. */
  ghost function NextAnswer(poller: Poller, since: int, now: Clock, p: Progress, polls: nat): Poll {
    poller(polls, PollQuery(p.st, since, now(polls), p.skip))
  }

  /**
   The lines a poll sees, in nanoseconds: from ten seconds before the newest line printed, or from that line
   itself after a full page of lines printed before, to a minute past the clock; servers may drop fractions.
   */
  ghost predicate Reached(s: Server, p: Progress, since: int, clock: int, e: Entry) {
    var from := if p.st.cursor > 0 then p.st.cursor - (if p.skip then 0 else 10_000_000_000) else since;
    var to := clock + 60_000_000_000;
    if s.truncates then from / 1_000_000_000 * 1_000_000_000 <= e.ns < to / 1_000_000_000 * 1_000_000_000
    else from <= e.ns < to
  }

  lemma ReachedIsInside(s: Server, p: Progress, since: int, clock: int, e: Entry)
    ensures Reached(s, p, since, clock, e) <==> Inside(s, PollQuery(p.st, since, clock, p.skip), e)
  {
  }

  /**
   A line visible at an answered poll that was not full, within its reach and not below the floor,
   has been printed exactly once by the end of that poll, whatever polls and failures came before.
   */
  lemma VisibleIsPrintedOnce(
      poller: Poller, stores: nat -> Server, since: int, now: Clock, st: State, out: seq<Entry>, polls: nat, e: Entry)
    requires HonestPoller(poller) && Serves(poller, stores)
    requires Safe(st, out) && HeldWasPrinted(st, out)
    requires var p := Followed(poller, since, now, st, false, out, 0, polls);
             var answer := NextAnswer(poller, since, now, p, polls);
             && !p.ended && answer.Got? && |answer.entries| < 5000
             && e in stores(polls).lines && Reached(stores(polls), p, since, now(polls), e) && st.floor <= e.ns
    ensures var p' := Followed(poller, since, now, st, false, out, 0, polls + 1);
            Key(e) in KeySet(p'.out) && DistinctKeys(p'.out)
  {
    hide Followed, Key, Admit, Safe, HeldWasPrinted, KeySet, HonestPoller, QueryRange, DistinctKeys, Reached;
    var p := Followed(poller, since, now, st, false, out, 0, polls);
    var q := PollQuery(p.st, since, now(polls), p.skip);
    FollowedSnoc(poller, since, now, st, false, out, 0, polls);
    OnePoll(poller, since, now, p.st, p.skip, p.out, polls);
    FollowGrows(poller, since, now, st, false, out, 0, polls);
    FollowNeverRepeats(poller, since, now, st, false, out, 0, polls + 1);
    SafeIsDistinct(Followed(poller, since, now, st, false, out, 0, polls + 1));
    assert poller(polls, q).entries == QueryRange(stores(polls), q);
    ReachedIsInside(stores(polls), p, since, now(polls), e);
    PartialPageHoldsAll(stores(polls), q, e);
    AdmitPrints(p.st, p.out, poller(polls, q).entries);
  }

  lemma PageFromStore(s: Server, q: Query)
    ensures forall e :: e in QueryRange(s, q) ==> e in s.lines && Inside(s, q, e)
  {
    var p := (e: Entry) => Inside(s, q, e);
    FilterMembers(s.lines, p);
    WindowOrdered(s, q);
    forall e | e in QueryRange(s, q) ensures e in s.lines && Inside(s, q, e) {
      assert e in multiset(Window(s, q));
      assert e in Filter(s.lines, p);
    }
  }

  /** A poll prints nothing but visible lines within its reach, not below the floor and not printed before. */
  lemma OnlyReachedIsPrinted(
      poller: Poller, stores: nat -> Server, since: int, now: Clock, st: State, out: seq<Entry>, polls: nat, e: Entry)
    requires HonestPoller(poller) && Serves(poller, stores)
    requires Safe(st, out) && HeldWasPrinted(st, out)
    requires var p := Followed(poller, since, now, st, false, out, 0, polls);
             && !p.ended && NextAnswer(poller, since, now, p, polls).Got?
             && e in Followed(poller, since, now, st, false, out, 0, polls + 1).out && e !in p.out
    ensures var p := Followed(poller, since, now, st, false, out, 0, polls);
            && e in stores(polls).lines && Reached(stores(polls), p, since, now(polls), e) && st.floor <= e.ns
            && Key(e) !in KeySet(p.out)
  {
    hide Followed, Key, Admit, Safe, HeldWasPrinted, KeySet, HonestPoller, QueryRange, DistinctKeys, Reached, Inside;
    var p := Followed(poller, since, now, st, false, out, 0, polls);
    var q := PollQuery(p.st, since, now(polls), p.skip);
    var entries := poller(polls, q).entries;
    FollowedSnoc(poller, since, now, st, false, out, 0, polls);
    OnePoll(poller, since, now, p.st, p.skip, p.out, polls);
    FollowGrows(poller, since, now, st, false, out, 0, polls);
    AdmitPrints(p.st, p.out, entries);
    PageFromStore(stores(polls), q);
    ReachedIsInside(stores(polls), p, since, now(polls), e);
    FollowNeverRepeats(poller, since, now, st, false, out, 0, polls + 1);
    SafeIsDistinct(Followed(poller, since, now, st, false, out, 0, polls + 1));
    DistinctAppend(p.out, Admit(p.st, entries).1);
    KeyOfMember(Admit(p.st, entries).1, e);
  }

  lemma KeyOfMember(s: seq<Entry>, e: Entry)
    requires e in s
    ensures Key(e) in KeySet(s)
  {
    hide Key;
  }

  lemma SafeIsDistinct(p: Progress)
    requires Safe(p.st, p.out)
    ensures DistinctKeys(p.out)
  {
  }

  lemma OnePoll(poller: Poller, since: int, now: Clock, st: State, skip: bool, out: seq<Entry>, calls: nat)
    requires poller(calls, PollQuery(st, since, now(calls), skip)).Got?
    ensures var entries := poller(calls, PollQuery(st, since, now(calls), skip)).entries;
            Followed(poller, since, now, st, skip, out, calls, 1).out == out + Admit(st, entries).1
  {
    hide Key, Admit;
  }

  // ---- The state after a poll ------------------------------------------------------------------

  lemma {:induction false} LetThroughHolds(st: State, entries: seq<Entry>)
    ensures var r := LetThrough(st, entries);
            && (forall k :: k in st.seen ==> k in r.0.seen)
            && (forall e :: e in r.1 ==> Key(e) in r.0.seen && e.ns <= r.0.cursor)
            && (r.0.cursor == st.cursor || exists e :: e in r.1 && e.ns == r.0.cursor)
    decreases |entries|
  {
    hide Key;
    if entries != [] {
      var e := entries[0];
      if Admissible(st, e) {
        LetThroughHolds(Record(st, e), entries[1..]);
        var rest := LetThrough(Record(st, e), entries[1..]);
        assert e in [e] + rest.1 && forall x :: x in rest.1 ==> x in [e] + rest.1;
      } else {
        LetThroughHolds(st, entries[1..]);
      }
    }
  }

  /**
   After a poll the cursor is the newest time printed; exactly the keys of the eleven seconds before it are
   held; and the overlap is left out next time exactly after a full page with nothing new in it.
   */
  lemma AfterPoll(poller: Poller, since: int, now: Clock, st: State, skip: bool, out: seq<Entry>, calls: nat)
    requires TimesMatch(st)
    ensures var answer := NextAnswer(poller, since, now, Progress(st, skip, out, false), calls);
            var p' := Followed(poller, since, now, st, skip, out, calls, 1);
            && (p'.ended <==> answer.Permanent?) && out <= p'.out && p'.st.floor == st.floor
            && (!answer.Got? ==> p' == Progress(st, skip, out, answer.Permanent?))
            && (answer.Got? ==>
                  && (p'.skip <==> |answer.entries| >= 5000 && p'.out == out)
                  && (forall e :: e in p'.out[|out|..] ==> e.ns <= p'.st.cursor)
                  && (p'.st.cursor == st.cursor || exists e :: e in p'.out[|out|..] && e.ns == p'.st.cursor)
                  && (forall k :: k in p'.st.seen ==> p'.st.seen[k] >= p'.st.cursor - 11_000_000_000)
                  && (forall e: Entry :: Key(e) in st.seen || e in p'.out[|out|..] ==>
                        (Key(e) in p'.st.seen <==> e.ns >= p'.st.cursor - 11_000_000_000)))
  {
    hide Key, TimesMatch;
    var answer := NextAnswer(poller, since, now, Progress(st, skip, out, false), calls);
    if answer.Got? {
      LetThroughHolds(st, answer.entries);
      LetThroughTimes(st, answer.entries);
      var taken := LetThrough(st, answer.entries);
      assert (out + taken.1)[|out|..] == taken.1;
      PruneKeeps(taken.0);
    }
  }

  lemma {:induction false} LetThroughTimes(st: State, entries: seq<Entry>)
    requires TimesMatch(st)
    ensures TimesMatch(LetThrough(st, entries).0)
    decreases |entries|
  {
    hide Key, TimesMatch;
    if entries != [] {
      RecordTimes(st, entries[0]);
      LetThroughTimes(if Admissible(st, entries[0]) then Record(st, entries[0]) else st, entries[1..]);
    }
  }

  lemma PruneKeeps(st: State)
    requires TimesMatch(st)
    ensures forall k :: k in Prune(st).seen ==> Prune(st).seen[k] >= st.cursor - 11_000_000_000
    ensures forall e: Entry :: Key(e) in st.seen ==> (Key(e) in Prune(st).seen <==> e.ns >= st.cursor - 11_000_000_000)
  {
    hide Key;
  }
}
