/**
 Pages, Tail and All: walking a time window a page at a time when the only resume points are
 whole seconds. `Walked` is the walk as a function of the querier's answers; the methods carry it
 out, and the lemmas say what it emits.
 */
module Paging {
  import opened Texts
  import opened Entries

  const MAX_LIMIT: int := 5000

  /** One query_range request over [start, end), times in Unix nanoseconds. */
  datatype Query = Query(start: int, end: int, limit: int, direction: Direction)

  datatype Answer = Lines(page: seq<Entry>) | Failed

  /** Answers may depend on the call's number, so the store behind them may change between pages. */
  type Querier = (nat, Query) -> Answer

  /** The callback's verdict, given every line handed to it so far. */
  type Consumer = seq<Entry> -> bool

  /** The loop's variables: the next query, the second resumed into, the keys seen in it. */
  datatype Walk = Walk(q: Query, edge: int, seen: set<Text>)

  datatype Outcome =
    | Done(out: seq<Entry>)
    | Broke(out: seq<Entry>)      // the querier failed
    | Unfinished(out: seq<Entry>) // more rounds are needed

  function Normalize(q: Query): (r: Query)
    ensures r.limit > 0 && r.direction != Unset
    ensures (q.limit <= 0 ==> r.limit == 5000) && (q.direction == Unset ==> r.direction == Backward)
    ensures r.start == q.start && r.end == q.end
  {
    q.(limit := if q.limit <= 0 then MAX_LIMIT else q.limit,
       direction := if q.direction == Unset then Backward else q.direction)
  }

  predicate IsFresh(w: Walk, e: Entry) {
    Second(e.ns) != w.edge || Key(e) !in w.seen
  }

  function Fresh(w: Walk, page: seq<Entry>): (r: seq<Entry>) {
    Filter(page, (e: Entry) => IsFresh(w, e))
  }

  function KeysIn(sec: int, page: seq<Entry>): set<Text> {
    set e | e in page && Second(e.ns) == sec :: Key(e)
  }

  /** Where the walk stands after a full page. */
  function Advance(w: Walk, page: seq<Entry>): (r: Walk)
    requires page != []
    ensures r.q.limit == w.q.limit && r.q.direction == w.q.direction
  {
    var last := Second(page[|page| - 1].ns);
    if Fresh(w, page) == [] then
      Walk(if w.q.direction == Backward then w.q.(end := last * SECOND)
           else w.q.(start := (last + 1) * SECOND), -1, {})
    else
      Walk(if w.q.direction == Backward then w.q.(end := (last + 1) * SECOND)
           else w.q.(start := last * SECOND),
           last, (if last != w.edge then {} else w.seen) + KeysIn(last, page))
  }

  function Walked(querier: Querier, keep: Consumer, w: Walk, out: seq<Entry>, calls: nat, rounds: nat): Outcome
    requires w.q.limit > 0
    decreases rounds
  {
    if rounds == 0 then Unfinished(out)
    else match querier(calls, w.q)
      case Failed => Broke(out)
      case Lines(page) =>
        var out' := out + Fresh(w, page);
        if (Fresh(w, page) != [] && !keep(out')) || |page| < w.q.limit then Done(out')
        else Walked(querier, keep, Advance(w, page), out', calls + 1, rounds - 1)
  }

  function Start(q: Query): Walk {
    Walk(Normalize(q), -1, {})
  }

  // ---- No line twice, whatever the querier does -------------------------------------------

  function KeySet(s: seq<Entry>): set<Text> {
    set e | e in s :: Key(e)
  }

  predicate DistinctKeys(s: seq<Entry>) {
    s != [] ==> Key(s[0]) !in KeySet(s[1..]) && DistinctKeys(s[1..])
  }

  lemma {:induction false} DistinctAppend(a: seq<Entry>, b: seq<Entry>)
    ensures DistinctKeys(a + b) <==> DistinctKeys(a) && DistinctKeys(b) && KeySet(a) !! KeySet(b)
  {
    if a == [] {
      assert a + b == b;
    } else {
      assert (a + b)[0] == a[0] && (a + b)[1..] == a[1..] + b;
      DistinctAppend(a[1..], b);
      assert a == [a[0]] + a[1..];
      assert KeySet(a[1..] + b) == KeySet(a[1..]) + KeySet(b);
      assert KeySet(a) == {Key(a[0])} + KeySet(a[1..]);
    }
  }

  lemma {:induction false} DistinctFilter(s: seq<Entry>, p: Entry -> bool)
    requires DistinctKeys(s)
    ensures DistinctKeys(Filter(s, p))
  {
    if s != [] {
      DistinctFilter(s[1..], p);
      if p(s[0]) {
        FilterMembers(s[1..], p);
        assert Filter(s, p) == [s[0]] + Filter(s[1..], p);
        assert Filter(s, p)[1..] == Filter(s[1..], p);
      } else {
        assert Filter(s, p) == Filter(s[1..], p);
      }
    }
  }

  /**
   A page the API may answer `q` with: inside the window, whose lower bound it may round down to
   the second, ordered as asked, and without repeats.
   */
  ghost predicate PageFor(q: Query, page: seq<Entry>) {
    && (forall e :: e in page ==> Second(q.start) <= Second(e.ns) && e.ns < q.end)
    && Ordered(q.direction, page)
    && DistinctKeys(page)
  }

  ghost predicate Honest(querier: Querier) {
    forall n: nat, q: Query :: querier(n, q).Lines? ==> PageFor(q, querier(n, q).page)
  }

  /** A line's second as distance walked: it never decreases along an ordered page. */
  function Pace(dir: Direction, e: Entry): int {
    if dir == Forward then Second(e.ns) else -Second(e.ns)
  }

  /** The pace at which a query's window begins. */
  function Near(q: Query): int {
    if q.direction == Forward then Second(q.start) else -Second(q.end - 1)
  }

  ghost predicate Passed(w: Walk, e: Entry) {
    || Pace(w.q.direction, e) < Near(w.q)
    || (Pace(w.q.direction, e) == Near(w.q) && Second(e.ns) == w.edge && Key(e) in w.seen)
  }

  ghost predicate Unrepeated(w: Walk, out: seq<Entry>) {
    DistinctKeys(out) && forall e :: e in out ==> Passed(w, e)
  }

  lemma OrderedLast(dir: Direction, page: seq<Entry>)
    requires Ordered(dir, page) && page != []
    ensures forall e :: e in page ==> Pace(dir, e) <= Pace(dir, page[|page| - 1])
  {
    forall e | e in page ensures Pace(dir, e) <= Pace(dir, page[|page| - 1]) {
      var i :| 0 <= i < |page| && page[i] == e;
      OrderedAt(dir, page, i, |page| - 1);
    }
  }

  lemma FreshIsNew(w: Walk, out: seq<Entry>, page: seq<Entry>)
    requires Unrepeated(w, out) && PageFor(w.q, page)
    ensures DistinctKeys(out + Fresh(w, page))
  {
    var news, p := Fresh(w, page), (e: Entry) => IsFresh(w, e);
    FilterMembers(page, p);
    DistinctFilter(page, p);
    forall e, f | e in out && f in news ensures Key(e) != Key(f) {
      if Key(e) == Key(f) {
        assert Passed(w, e) && Pace(w.q.direction, f) >= Near(w.q);
        KeyFixesTime(e, f);
      }
    }
    DistinctAppend(out, news);
  }

  lemma AdvanceNear(w: Walk, page: seq<Entry>)
    requires page != [] && w.q.direction != Unset
    ensures Near(Advance(w, page).q) ==
            Pace(w.q.direction, page[|page| - 1]) + (if Fresh(w, page) == [] then 1 else 0)
  {
  }

  lemma AdvancePasses(w: Walk, out: seq<Entry>, page: seq<Entry>)
    requires Unrepeated(w, out) && PageFor(w.q, page) && page != [] && w.q.direction != Unset
    ensures forall e :: e in out + Fresh(w, page) ==> Passed(Advance(w, page), e)
  {
    var dir, last, next := w.q.direction, page[|page| - 1], Advance(w, page);
    FilterMembers(page, (e: Entry) => IsFresh(w, e));
    OrderedLast(dir, page);
    AdvanceNear(w, page);
    assert last in page && Near(w.q) <= Pace(dir, last);
    forall e | e in out + Fresh(w, page) ensures Passed(next, e) {
      if e in Fresh(w, page) {
        assert e in page;
      } else {
        assert e in out && Passed(w, e);
      }
    }
  }

  /** No key is handed to the callback twice, over any number of pages of any honest querier. */
  lemma {:induction false} WalkNeverRepeats(
      querier: Querier, keep: Consumer, w: Walk, out: seq<Entry>, calls: nat, rounds: nat)
    requires Honest(querier) && w.q.limit > 0 && w.q.direction != Unset && Unrepeated(w, out)
    ensures DistinctKeys(Walked(querier, keep, w, out, calls, rounds).out)
    decreases rounds
  {
    hide Key, Fresh, Advance;
    if rounds > 0 && querier(calls, w.q).Lines? {
      var page := querier(calls, w.q).page;
      FreshIsNew(w, out, page);
      if |page| >= w.q.limit {
        AdvancePasses(w, out, page);
        WalkNeverRepeats(querier, keep, Advance(w, page), out + Fresh(w, page), calls + 1, rounds - 1);
      }
    }
  }
}
