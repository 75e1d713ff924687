/**
 Follower: polling with a ten-second overlap, and a set of emitted keys that is pruned behind the
 newest line.
 */
module Follow {
  import opened Texts
  import opened Entries
  import opened Paging

  const OVERLAP: int := 10 * SECOND
  const END_SLACK: int := 60 * SECOND

  /** cursor is the newest time emitted, floor the oldest time that may still be emitted. */
  datatype State = State(cursor: int, seen: map<Text, int>, floor: int)

  const NewState: State := State(0, map[], 0)

  predicate Admissible(st: State, e: Entry) {
    st.floor <= e.ns && Key(e) !in st.seen
  }

  function Record(st: State, e: Entry): State {
    st.(seen := st.seen[Key(e) := e.ns], cursor := Max(st.cursor, e.ns))
  }

  /** The lines of `entries` that are let through, and the state after recording them. */
  function LetThrough(st: State, entries: seq<Entry>): (r: (State, seq<Entry>))
    ensures r.0.floor == st.floor && st.cursor <= r.0.cursor
    decreases |entries|
  {
    if entries == [] then (st, [])
    else
      var e := entries[0];
      if Admissible(st, e) then
        var rest := LetThrough(Record(st, e), entries[1..]);
        (rest.0, [e] + rest.1)
      else LetThrough(st, entries[1..])
  }

  function Cutoff(cursor: int): int {
    cursor - (OVERLAP + SECOND)
  }

  function Prune(st: State): State {
    st.(seen := map k | k in st.seen && st.seen[k] >= Cutoff(st.cursor) :: st.seen[k])
  }

  function Admit(st: State, entries: seq<Entry>): (r: (State, seq<Entry>)) {
    var taken := LetThrough(st, entries);
    (Prune(taken.0), taken.1)
  }

  function BacklogStep(st: State, entries: seq<Entry>): State {
    var st' := Admit(st, entries).0;
    st'.(floor := st'.cursor)
  }

  // ---- The poll loop -------------------------------------------------------------------------

  datatype Poll = Got(entries: seq<Entry>) | Transient | Permanent

  type Poller = (nat, Query) -> Poll

  type Clock = nat -> int

  function PollQuery(st: State, since: int, now: int, skipOverlap: bool): Query {
    Query(if st.cursor > 0 then st.cursor - (if skipOverlap then 0 else OVERLAP) else since,
          now + END_SLACK, MAX_LIMIT, Forward)
  }

  datatype Progress = Progress(st: State, skip: bool, out: seq<Entry>, ended: bool)

  /** The state after at most `polls` more polls, every line emitted, and whether an error ended it. */
  function Followed(
      poller: Poller, since: int, now: Clock, st: State, skip: bool, out: seq<Entry>, calls: nat, polls: nat): Progress
    decreases polls
  {
    if polls == 0 then Progress(st, skip, out, false)
    else match poller(calls, PollQuery(st, since, now(calls), skip))
      case Permanent => Progress(st, skip, out, true)
      case Transient => Followed(poller, since, now, st, skip, out, calls + 1, polls - 1)
      case Got(entries) =>
        var r := Admit(st, entries);
        Followed(poller, since, now, r.0, |entries| >= MAX_LIMIT && r.1 == [], out + r.1, calls + 1, polls - 1)
  }

  class Follower {
    var cursor: int
    var seen: map<Text, int>
    var floor: int

    constructor ()
      ensures Abs() == NewState
    {
      cursor, seen, floor := 0, map[], 0;
    }

    ghost function Abs(): State
      reads this
    {
      State(cursor, seen, floor)
    }

    /** admit: the entries not emitted before, recorded, with old keys dropped afterwards. */
    method AdmitEntries(entries: seq<Entry>) returns (news: seq<Entry>)
      modifies this
      ensures Abs() == Admit(old(Abs()), entries).0
      ensures news == Admit(old(Abs()), entries).1
    {
      hide Key;
      news := [];
      for i := 0 to |entries|
        invariant LetThrough(old(Abs()), entries).0 == LetThrough(Abs(), entries[i..]).0
        invariant LetThrough(old(Abs()), entries).1 == news + LetThrough(Abs(), entries[i..]).1
      {
        var e := entries[i];
        assert entries[i..][0] == e && entries[i..][1..] == entries[i + 1..];
        if floor <= e.ns && Key(e) !in seen {
          seen := seen[Key(e) := e.ns];
          news := news + [e];
          cursor := Max(cursor, e.ns);
        }
      }
      var cutoff := cursor - (OVERLAP + SECOND);
      PruneSeen(cutoff);
    }

    /** The deletions at the end of admit, in whatever order the map is ranged over. */
    method PruneSeen(cutoff: int)
      modifies this
      ensures cursor == old(cursor) && floor == old(floor)
      ensures seen == map k | k in old(seen) && old(seen)[k] >= cutoff :: old(seen)[k]
    {
      var todo := seen.Keys;
      while todo != {}
        invariant cursor == old(cursor) && floor == old(floor)
        invariant todo <= old(seen).Keys
        invariant seen == map k | k in old(seen) && (k in todo || old(seen)[k] >= cutoff) :: old(seen)[k]
        decreases todo
      {
        var k :| k in todo;
        if seen[k] < cutoff {
          seen := seen - {k};
        }
        todo := todo - {k};
      }
    }

    method Backlog(entries: seq<Entry>)
      modifies this
      ensures Abs() == BacklogStep(old(Abs()), entries)
    {
      var _ := AdmitEntries(entries);
      floor := cursor;
    }

    /** Run, from the time `began`: `polls` is how many polls happen before the context is cancelled. */
    method Run(poller: Poller, began: int, now: Clock, polls: nat) returns (out: seq<Entry>, ended: bool)
      modifies this
      ensures var p := Followed(poller, began - 10_000_000_000, now, old(Abs()), false, [], 0, polls);
              Abs() == p.st && out == p.out && ended == p.ended
    {
      hide Admit;
      var since := began - OVERLAP;
      var skipOverlap := false;
      out, ended := [], false;
      for calls := 0 to polls
        invariant Followed(poller, since, now, old(Abs()), false, [], 0, polls) ==
                  Followed(poller, since, now, Abs(), skipOverlap, out, calls, polls - calls)
        invariant !ended
      {
        var start := since;
        if cursor > 0 {
          start := cursor;
          if !skipOverlap {
            start := start - OVERLAP;
          }
        }
        match poller(calls, Query(start, now(calls) + END_SLACK, MAX_LIMIT, Forward)) {
          case Permanent =>
            ended := true;
            return;
          case Transient =>
          case Got(entries) =>
            var news := AdmitEntries(entries);
            out := out + news;
            skipOverlap := |entries| >= MAX_LIMIT && |news| == 0;
        }
      }
    }
  }
}
