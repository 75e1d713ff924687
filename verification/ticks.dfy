/** The fake store's iterator: rows at the multiples of an interval, walked lazily in either direction. */
module Ticks {
  import opened Texts
  import opened Entries

  // ---- The window -------------------------------------------------------------------------------------

  /** Go's integer quotient, which rounds toward zero. */
  function Quotient(a: int, b: int): int
    requires b > 0
  {
    if a >= 0 then a / b else -(-a / b)
  }

  /** Go's remainder, which has the sign of the dividend. */
  function Remainder(a: int, b: int): int
    requires b > 0
  {
    a - Quotient(a, b) * b
  }

  function CeilDiv(a: int, b: int): int
    requires b > 0
  {
    Quotient(a, b) + if Remainder(a, b) > 0 then 1 else 0
  }

  function FinalTick(end: int, interval: int): int
    requires interval > 0
  {
    Quotient(end - 1, interval)
  }

  lemma TimesMonotone(x: int, y: int, b: int)
    requires x <= y && b > 0
    ensures x * b <= y * b
    ensures (x - 1) * b == x * b - b
  {
    assert y * b - x * b == (y - x) * b;
  }

  /** `q` is the floor of a / b when q * b <= a < (q + 1) * b. */
  lemma FloorBounds(a: int, b: int, q: int, i: int)
    requires b > 0 && q * b <= a < q * b + b
    ensures i <= q <==> i * b <= a
  {
    if i <= q {
      TimesMonotone(i, q, b);
    } else {
      TimesMonotone(q + 1, i, b);
    }
  }

  lemma QuotientBounds(a: int, b: int)
    requires b > 0
    ensures a >= 0 ==> 0 <= Remainder(a, b) < b
    ensures a < 0 ==> -b < Remainder(a, b) <= 0
    ensures a == Quotient(a, b) * b + Remainder(a, b)
  {
    if a < 0 {
      assert -a == (-a / b) * b + -a % b;
      assert Quotient(a, b) * b == -((-a / b) * b);
    }
  }

  /** The first tick is the least one at or after the start, on either side of the epoch. */
  lemma CeilDivIsFirst(start: int, interval: int, i: int)
    requires interval > 0
    ensures CeilDiv(start, interval) <= i <==> start <= i * interval
  {
    hide Quotient, Remainder;
    QuotientBounds(start, interval);
    var c, q := CeilDiv(start, interval), Quotient(start, interval);
    assert c * interval == q * interval + (if c == q then 0 else interval);
    FloorBounds(start - 1, interval, c - 1, i);
  }

  /** The tick range is the window: it holds exactly the ticks from the start up to, not including, the end. */
  ghost predicate CoversWindow(start: int, end: int, interval: int)
    requires interval > 0
  {
    forall i {:trigger InWindow(start, end, interval, i)} ::
      CeilDiv(start, interval) <= i <= FinalTick(end, interval) <==> InWindow(start, end, interval, i)
  }

  predicate InWindow(start: int, end: int, interval: int, i: int) {
    start <= i * interval < end
  }

  /** Where rounding toward zero takes the last tick to or past the end. */
  predicate RoundsPastEnd(start: int, end: int, interval: int)
    requires interval > 0
  {
    end <= 0 && Remainder(end - 1, interval) != 0 && start <= FinalTick(end, interval) * interval
  }

  /** The range is exact unless the end is at or before the epoch and off the grid, and the rounded tick is in reach. */
  lemma CoversWindowIff(start: int, end: int, interval: int)
    requires interval > 0
    ensures CoversWindow(start, end, interval) <==> !RoundsPastEnd(start, end, interval)
  {
    hide Quotient, Remainder, CeilDiv;
    var final := FinalTick(end, interval);
    QuotientBounds(end - 1, interval);
    if RoundsPastEnd(start, end, interval) {
      CeilDivIsFirst(start, interval, final);
      assert !InWindow(start, end, interval, final);
    } else {
      forall i
        ensures CeilDiv(start, interval) <= i <= FinalTick(end, interval) <==> InWindow(start, end, interval, i)
      {
        CeilDivIsFirst(start, interval, i);
        if end > 0 || Remainder(end - 1, interval) == 0 {
          FloorBounds(end - 1, interval, final, i);
        } else {
          CeilDivIsFirst(start, interval, final);
          assert (final - 1) * interval == final * interval - interval;
          FloorBounds(end - 1, interval, final - 1, i);
        }
      }
    }
  }

  // ---- The ticks in iteration order -------------------------------------------------------------------

  predicate Exhausted(next: int, last: int, step: int) {
    !(if step > 0 then next <= last else next >= last)
  }

  /** The ticks from `next` to `last` inclusive. */
  function TicksFrom(next: int, last: int, step: int): seq<int>
    requires step == 1 || step == -1
    decreases step * (last - next) + 1
  {
    if Exhausted(next, last, step) then [] else [next] + TicksFrom(next + step, last, step)
  }

  lemma {:induction false} TicksAt(next: int, last: int, step: int)
    requires step == 1 || step == -1
    ensures var s := TicksFrom(next, last, step);
            && |s| == (if Exhausted(next, last, step) then 0 else step * (last - next) + 1)
            && forall i :: 0 <= i < |s| ==> s[i] == next + step * i
    decreases step * (last - next) + 1
  {
    if !Exhausted(next, last, step) {
      TicksAt(next + step, last, step);
    }
  }

  /** Walking down gives the ticks of walking up in reverse. */
  lemma DownIsUpReversed(first: int, final: int)
    ensures TicksFrom(final, first, -1) == Reversed(TicksFrom(first, final, 1))
  {
    hide TicksFrom;
    TicksAt(final, first, -1);
    TicksAt(first, final, 1);
  }

  // ---- The rows ---------------------------------------------------------------------------------------

  /** What is asked: the row at each tick, which rows match, the limit, and the ticks at which the context has ended. */
  datatype Query<!Row> = Query(
    start: int, end: int, direction: Direction, limit: int,
    rowAt: int -> Row, matches: Row -> bool, ended: int -> bool)

  /** The matching rows met before the context ends. */
  function Found<Row>(q: Query<Row>, ticks: seq<int>): seq<Row> {
    if ticks == [] || q.ended(ticks[0]) then []
    else (if q.matches(q.rowAt(ticks[0])) then [q.rowAt(ticks[0])] else []) + Found(q, ticks[1..])
  }

  /** The context ends before the walk does. */
  predicate EndsWithin<Row>(q: Query<Row>, ticks: seq<int>) {
    ticks != [] && (q.ended(ticks[0]) || EndsWithin(q, ticks[1..]))
  }

  lemma WalkStep<Row>(q: Query<Row>, next: int, last: int, step: int)
    requires (step == 1 || step == -1) && !Exhausted(next, last, step)
    ensures var now, later := TicksFrom(next, last, step), TicksFrom(next + step, last, step);
            && Found(q, now) == (if q.ended(next) then [] else
                                 (if q.matches(q.rowAt(next)) then [q.rowAt(next)] else []) + Found(q, later))
            && (EndsWithin(q, now) <==> q.ended(next) || EndsWithin(q, later))
  {
    var now, later := TicksFrom(next, last, step), TicksFrom(next + step, last, step);
    assert now[0] == next && now[1..] == later;
  }

  lemma LimitedStep<T>(limit: int, emitted: nat, s: seq<T>)
    ensures limit > 0 && emitted >= limit ==> Limited(limit, emitted, s) == []
    ensures s == [] ==> Limited(limit, emitted, s) == []
    ensures s != [] && !(limit > 0 && emitted >= limit) ==>
              && Limited(limit, emitted, s) != [] && Limited(limit, emitted, s)[0] == s[0]
              && Limited(limit, emitted, s)[1..] == Limited(limit, emitted + 1, s[1..])
  {
  }

  function Limited<T>(limit: int, emitted: nat, s: seq<T>): seq<T> {
    if limit > 0 then Take(s, Max(0, limit - emitted)) else s
  }

  /** The ticks newIterator sets out to walk. */
  function Planned<Row>(q: Query<Row>, interval: int): seq<int>
    requires interval > 0
  {
    var first, final := CeilDiv(q.start, interval), FinalTick(q.end, interval);
    if q.direction.Forward? then TicksFrom(first, final, 1) else TicksFrom(final, first, -1)
  }

  /** Everything the iterator will return. */
  function Answer<Row>(q: Query<Row>, interval: int): seq<Row>
    requires interval > 0
  {
    Limited(q.limit, 0, Found(q, Planned(q, interval)))
  }

  class Iterator<Row> {
    const query: Query<Row>
    var next: int
    var last: int
    var step: int
    var emitted: nat
    var current: Option<Row>
    var failed: bool

    ghost predicate Valid()
      reads this
    {
      step == 1 || step == -1
    }

    predicate LimitReached()
      reads this
    {
      query.limit > 0 && emitted >= query.limit
    }

    /** The ticks still to visit. */
    ghost function Ahead(): seq<int>
      reads this
      requires Valid()
    {
      TicksFrom(next, last, step)
    }

    /** The rows still to come. */
    ghost function Rest(): seq<Row>
      reads this
      requires Valid()
    {
      if failed then [] else Limited(query.limit, emitted, Found(query, Ahead()))
    }

    constructor (interval: int, q: Query<Row>)
      requires interval > 0
      ensures Valid() && query == q && !failed && emitted == 0
      ensures Rest() == Answer(q, interval)
    {
      query, emitted, current, failed := q, 0, None, false;
      var first, final := CeilDiv(q.start, interval), FinalTick(q.end, interval);
      if q.direction == Forward {
        next, last, step := first, final, 1;
      } else {
        next, last, step := final, first, -1;
      }
    }

    /** Takes the first of the rows still to come, or reports that there is none. */
    method Next() returns (more: bool)
      requires Valid()
      modifies this
      ensures Valid()
      ensures more <==> old(Rest()) != []
      ensures more ==> current == Some(old(Rest())[0]) && Rest() == old(Rest())[1..] && !failed
      ensures more ==> emitted == old(emitted) + 1
      ensures !more ==> Rest() == [] && emitted == old(emitted) && current == old(current)
      ensures !more ==> failed == (old(failed) || (!old(LimitReached()) && old(EndsWithin(query, Ahead()))))
    {
      hide Found, EndsWithin, TicksFrom, Limited;
      LimitedStep(query.limit, emitted, Found(query, Ahead()));
      if failed || LimitReached() {
        return false;
      }
      while !Exhausted(next, last, step)
        invariant Valid() && !failed && emitted == old(emitted) && current == old(current)
        invariant Found(query, Ahead()) == Found(query, old(Ahead()))
        invariant EndsWithin(query, Ahead()) == EndsWithin(query, old(Ahead()))
        decreases step * (last - next) + 1
      {
        WalkStep(query, next, last, step);
        if query.ended(next) {
          failed := true;
          return false;
        }
        var row := query.rowAt(next);
        next := next + step;
        if !query.matches(row) {
          continue;
        }
        current := Some(row);
        emitted := emitted + 1;
        assert ([row] + Found(query, Ahead()))[1..] == Found(query, Ahead());
        return true;
      }
      NothingAhead(query, next, last, step);
      return false;
    }
  }

  lemma NothingAhead<Row>(q: Query<Row>, next: int, last: int, step: int)
    requires (step == 1 || step == -1) && Exhausted(next, last, step)
    ensures Found(q, TicksFrom(next, last, step)) == [] && !EndsWithin(q, TicksFrom(next, last, step))
  {
  }

  /** Drains an iterator: what it returns over its whole life is the answer. */
  method Drain<Row>(interval: int, q: Query<Row>) returns (rows: seq<Row>)
    requires interval > 0
    ensures rows == Answer(q, interval)
  {
    hide Answer, Found, TicksFrom, Limited;
    var it := new Iterator(interval, q);
    rows := [];
    var more := true;
    while more
      invariant it.Valid() && fresh(it)
      invariant rows + it.Rest() == Answer(q, interval)
      invariant !more ==> it.Rest() == []
      decreases |it.Rest()|, more
    {
      ghost var rest := it.Rest();
      more := it.Next();
      if more {
        assert rest == [rest[0]] + rest[1..];
        Regroup(rows, [rest[0]], rest[1..]);
        rows := rows + [it.current.value];
      }
    }
  }

  // ---- What the answer is -----------------------------------------------------------------------------

  ghost predicate NeverEnds<Row>(q: Query<Row>) {
    forall i :: !q.ended(i)
  }

  function RowsAt<Row>(q: Query<Row>, ticks: seq<int>): seq<Row> {
    seq(|ticks|, i requires 0 <= i < |ticks| => q.rowAt(ticks[i]))
  }

  function Wanted<Row>(q: Query<Row>): int -> bool {
    i => q.matches(q.rowAt(i))
  }

  lemma {:induction false} FoundIsFilter<Row>(q: Query<Row>, ticks: seq<int>)
    requires NeverEnds(q)
    ensures Found(q, ticks) == RowsAt(q, Filter(ticks, Wanted(q)))
  {
    if ticks != [] {
      FoundIsFilter(q, ticks[1..]);
      var rest := Filter(ticks[1..], Wanted(q));
      var t := ticks[0];
      assert !q.ended(t);
      if Wanted(q)(ticks[0]) {
        assert Filter(ticks, Wanted(q)) == [ticks[0]] + rest;
        assert RowsAt(q, [ticks[0]] + rest) == [q.rowAt(ticks[0])] + RowsAt(q, rest);
      } else {
        assert Filter(ticks, Wanted(q)) == [] + rest == rest;
      }
    }
  }

  lemma RowsAtReversed<Row>(q: Query<Row>, ticks: seq<int>)
    ensures RowsAt(q, Reversed(ticks)) == Reversed(RowsAt(q, ticks))
  {
  }

  lemma {:induction false} FilterReversed<T>(s: seq<T>, p: T -> bool)
    ensures Filter(Reversed(s), p) == Reversed(Filter(s, p))
  {
    if s != [] {
      FilterReversed(s[1..], p);
      FilterAppend(Reversed(s[1..]), [s[0]], p);
      if p(s[0]) {
        var rest := Filter(s[1..], p);
        assert Filter(s, p) == [s[0]] + rest && ([s[0]] + rest)[1..] == rest;
      }
    }
  }

  /** Without a limit the backward answer is the forward answer reversed. */
  lemma BackwardReversesForward<Row>(q: Query<Row>, interval: int)
    requires interval > 0 && NeverEnds(q) && q.limit <= 0 && q.direction.Forward?
    ensures Answer(q.(direction := Backward), interval) == Reversed(Answer(q, interval))
  {
    hide CeilDiv, FinalTick, TicksFrom, Found, RowsAt, Reversed, Filter, Wanted;
    var back, up := q.(direction := Backward), Planned(q, interval);
    DownIsUpReversed(CeilDiv(q.start, interval), FinalTick(q.end, interval));
    FoundIsFilter(q, up);
    FoundIsFilter(back, Reversed(up));
    assert Wanted(back) == Wanted(q) && RowsAt(back, Filter(Reversed(up), Wanted(q))) ==
           RowsAt(q, Filter(Reversed(up), Wanted(q))) by {
      SameRows(q, back, Filter(Reversed(up), Wanted(q)));
    }
    FilterReversed(up, Wanted(q));
    RowsAtReversed(q, Filter(up, Wanted(q)));
  }

  lemma SameRows<Row>(q: Query<Row>, back: Query<Row>, ticks: seq<int>)
    requires back == q.(direction := Backward)
    ensures Wanted(back) == Wanted(q) && RowsAt(back, ticks) == RowsAt(q, ticks)
  {
  }

  /** The ticks of the window, once each, in the direction asked for. */
  ghost predicate WindowInOrder<Row>(q: Query<Row>, interval: int, ticks: seq<int>) {
    && (forall i :: i in ticks <==> InWindow(q.start, q.end, interval, i))
    && (forall j, k :: 0 <= j < k < |ticks| ==>
          if q.direction.Forward? then ticks[j] < ticks[k] else ticks[j] > ticks[k])
  }

  /**
   Off the failing family of windows, the answer is the first `limit` matching rows (all of them without a
   limit) of the window's ticks in order.
   */
  lemma AnswerIsFirstMatching<Row>(q: Query<Row>, interval: int)
    requires interval > 0 && NeverEnds(q) && !RoundsPastEnd(q.start, q.end, interval)
    ensures WindowInOrder(q, interval, Planned(q, interval))
    ensures Answer(q, interval) ==
            Limited(q.limit, 0, RowsAt(q, Filter(Planned(q, interval), Wanted(q))))
  {
    hide CeilDiv, FinalTick, RoundsPastEnd, TicksFrom;
    FoundIsFilter(q, Planned(q, interval));
    CoversWindowIff(q.start, q.end, interval);
    var first, final := CeilDiv(q.start, interval), FinalTick(q.end, interval);
    TicksAt(first, final, 1);
    TicksAt(final, first, -1);
    forall i ensures i in Planned(q, interval) <==> InWindow(q.start, q.end, interval, i) {
      if first <= i <= final {
        assert Planned(q, interval)[if q.direction.Forward? then i - first else final - i] == i;
      }
    }
  }

  /** A window that rounds past its end is walked one tick too far. */
  lemma StraysPastEnd<Row>(q: Query<Row>, interval: int)
    requires interval > 0 && RoundsPastEnd(q.start, q.end, interval)
    ensures FinalTick(q.end, interval) in Planned(q, interval)
    ensures FinalTick(q.end, interval) * interval >= q.end
  {
    hide CeilDiv, TicksFrom, Quotient, Remainder;
    var first, final := CeilDiv(q.start, interval), FinalTick(q.end, interval);
    CeilDivIsFirst(q.start, interval, final);
    QuotientBounds(q.end - 1, interval);
    TicksAt(first, final, 1);
    TicksAt(final, first, -1);
    assert Planned(q, interval)[if q.direction.Forward? then final - first else 0] == final;
  }

  /** Between the hour before the epoch and half a minute before it, the tick at the epoch is returned too. */
  lemma BeforeEpochExample()
    ensures RoundsPastEnd(-3600, -30, 60)
    ensures FinalTick(-30, 60) == 0 && !InWindow(-3600, -30, 60, 0)
  {
  }
}
