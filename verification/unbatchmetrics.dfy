/** Unbatching metrics: one output per data point, each under a copy of its metric's header. */
module UnbatchMetrics {
  import opened Texts
  import opened Unbatch

  /** A metric's type with its own settings and data points. */
  datatype Data<P> =
    | NoData
    | Gauge(points: seq<P>)
    | Sum(temporality: int, monotonic: bool, points: seq<P>)
    | Histogram(temporality: int, points: seq<P>)
    | ExponentialHistogram(temporality: int, points: seq<P>)
    | Summary(points: seq<P>)

  datatype Metric<P> =
    Metric(name: Text, description: Text, unit: Text, metadata: map<Text, Text>, data: Data<P>)

  function PointsOf<P>(d: Data<P>): seq<P> {
    if d.NoData? then [] else d.points
  }

  /** The same type and settings over other points. */
  function WithPoints<P>(d: Data<P>, points: seq<P>): Data<P> {
    if d.NoData? then d else d.(points := points)
  }

  /** explodeMetric on one data point: the copied header has no metadata. */
  function OnePoint<P>(m: Metric<P>, p: P): Metric<P> {
    Metric(m.name, m.description, m.unit, map[], WithPoints(m.data, [p]))
  }

  function Explode<P>(m: Metric<P>): seq<Metric<P>> {
    Map(PointsOf(m.data), p => OnePoint(m, p))
  }

  /** A data point with its metric's header, type and settings. */
  datatype Sample<P> =
    Sample(name: Text, description: Text, unit: Text, metadata: map<Text, Text>, kind: Data<P>, point: P)

  function SamplesOf<P>(m: Metric<P>): seq<Sample<P>> {
    Map(PointsOf(m.data), p => Sample(m.name, m.description, m.unit, m.metadata, WithPoints(m.data, []), p))
  }

  /** The same sample with its metadata gone. */
  function Stripped<P>(s: Sample<P>): Sample<P> {
    s.(metadata := map[])
  }

  function SpreadScope<S, R, T>(sg: ScopeGroup<S, R>, f: R -> seq<T>): ScopeGroup<S, T> {
    ScopeGroup(sg.scope, sg.url, Flat(Map(sg.records, f)))
  }

  function SpreadGroup<S, R, T>(g: ResourceGroup<S, R>, f: R -> seq<T>): ResourceGroup<S, T> {
    ResourceGroup(g.resource, g.url, Map(g.scopes, sg => SpreadScope(sg, f)))
  }

  /** A batch with every record replaced by its images under `f`. */
  function Spread<S, R, T>(b: Batch<S, R>, f: R -> seq<T>): Batch<S, T> {
    Map(b, g => SpreadGroup(g, f))
  }

  /** Every data point of a batch in order, with its header, scope and resource. */
  function Samples<S, P>(b: Batch<S, Metric<P>>): seq<Located<S, Sample<P>>> {
    Flatten(Spread(b, m => SamplesOf(m)))
  }

  /** DataPointCount. */
  function PointCount<S, P>(b: Batch<S, Metric<P>>): nat {
    Count(Spread(b, m => SamplesOf(m)))
  }

  /** The single-point metrics of a batch, in order. */
  function Exploded<S, P>(b: Batch<S, Metric<P>>): seq<Located<S, Metric<P>>> {
    Flatten(Spread(b, m => Explode(m)))
  }

  /** splitMetrics. */
  function SplitMetrics<S, P>(b: Batch<S, Metric<P>>): seq<Batch<S, Metric<P>>> {
    if PointCount(b) == 0 then []
    else if PointCount(b) == 1 then [b]
    else Singles(Exploded(b))
  }

  // ---- Conservation -----------------------------------------------------------------------------------

  function Relocate<S, R, T>(l: Located<S, R>, record: T): Located<S, T> {
    Located(l.resource, l.url, l.scope, l.scopeUrl, record)
  }

  function StrippedAt<S, P>(l: Located<S, Sample<P>>): Located<S, Sample<P>> {
    Relocate(l, Stripped(l.record))
  }

  /** `e` is a metric holding the one sample `s` without its metadata. */
  ghost predicate Carries<P>(e: Metric<P>, s: Sample<P>) {
    SamplesOf(e) == [Stripped(s)]
  }

  ghost predicate CarriesAll<P>(es: seq<Metric<P>>, ss: seq<Sample<P>>) {
    |es| == |ss| && forall i :: 0 <= i < |es| ==> Carries(es[i], ss[i])
  }

  lemma ExplodeCarries<P>(m: Metric<P>)
    ensures CarriesAll(Explode(m), SamplesOf(m))
  {
    forall i | 0 <= i < |PointsOf(m.data)| ensures Carries(Explode(m)[i], SamplesOf(m)[i]) {
      var e := OnePoint(m, PointsOf(m.data)[i]);
      assert PointsOf(e.data) == [PointsOf(m.data)[i]];
    }
  }

  /** Two lists of parts that correspond part by part correspond when concatenated. */
  lemma {:induction false} FlatAligned<T, U>(a: seq<seq<T>>, b: seq<seq<U>>, r: (T, U) -> bool)
    requires |a| == |b| && forall i :: 0 <= i < |a| ==> Along(a[i], b[i], r)
    ensures Along(Flat(a), Flat(b), r)
  {
    if a != [] {
      FlatAligned(a[1..], b[1..], r);
      assert Along(a[0], b[0], r);
    }
  }

  ghost predicate Along<T, U>(a: seq<T>, b: seq<U>, r: (T, U) -> bool) {
    |a| == |b| && forall k :: 0 <= k < |a| ==> r(a[k], b[k])
  }

  /** The same place, and a metric holding that sample. */
  ghost predicate Aligned<S, P>(e: Located<S, Metric<P>>, s: Located<S, Sample<P>>) {
    s == Relocate(e, s.record) && Carries(e.record, s.record)
  }

  lemma ScopeAligned<S, P>(g: ResourceGroup<S, Metric<P>>, h: ResourceGroup<S, Sample<P>>, sg: ScopeGroup<S, Metric<P>>)
    requires g.resource == h.resource && g.url == h.url
    ensures Along(InScope(g, SpreadScope(sg, m => Explode(m))), InScope(h, SpreadScope(sg, m => SamplesOf(m))),
                  (e, s) => Aligned(e, s))
  {
    hide Carries, Explode, SamplesOf;
    var es, ss := Map(sg.records, m => Explode(m)), Map(sg.records, m => SamplesOf(m));
    forall i | 0 <= i < |es| ensures Along(es[i], ss[i], (e, s) => Carries(e, s)) {
      ExplodeCarries(sg.records[i]);
    }
    FlatAligned(es, ss, (e, s) => Carries(e, s));
  }

  lemma GroupAligned<S, P>(g: ResourceGroup<S, Metric<P>>)
    ensures Along(InGroup(SpreadGroup(g, m => Explode(m))), InGroup(SpreadGroup(g, m => SamplesOf(m))),
                  (e, s) => Aligned(e, s))
  {
    hide Aligned, Explode, SamplesOf, InScope, SpreadScope;
    var x, y := SpreadGroup(g, m => Explode(m)), SpreadGroup(g, m => SamplesOf(m));
    var es, ss := Map(x.scopes, sg => InScope(x, sg)), Map(y.scopes, sg => InScope(y, sg));
    forall i | 0 <= i < |es| ensures Along(es[i], ss[i], (e, s) => Aligned(e, s)) {
      ScopeAligned(x, y, g.scopes[i]);
    }
    FlatAligned(es, ss, (e, s) => Aligned(e, s));
  }

  lemma BatchAligned<S, P>(b: Batch<S, Metric<P>>)
    ensures Along(Exploded(b), Samples(b), (e, s) => Aligned(e, s))
  {
    hide Aligned, Explode, SamplesOf, InGroup, SpreadGroup;
    var x, y := Spread(b, m => Explode(m)), Spread(b, m => SamplesOf(m));
    var es, ss := Map(x, g => InGroup(g)), Map(y, g => InGroup(g));
    forall i | 0 <= i < |es| ensures Along(es[i], ss[i], (e, s) => Aligned(e, s)) {
      GroupAligned(b[i]);
    }
    FlatAligned(es, ss, (e, s) => Aligned(e, s));
  }

  lemma SamplesOfSingle<S, P>(e: Located<S, Metric<P>>, s: Located<S, Sample<P>>)
    requires Aligned(e, s)
    ensures Samples(Single(e)) == [StrippedAt(s)]
  {
    hide SamplesOf, Flatten;
    var f := (m: Metric<P>) => SamplesOf(m);
    assert Map([e.record], f) == [SamplesOf(e.record)];
    FlatOne(SamplesOf(e.record));
    var sg := ScopeGroup(e.scope, e.scopeUrl, [e.record]);
    assert SpreadScope(sg, f) == ScopeGroup(e.scope, e.scopeUrl, [Stripped(s.record)]);
    var g := ResourceGroup(e.resource, e.url, [sg]);
    assert SpreadGroup(g, f) == ResourceGroup(e.resource, e.url, [SpreadScope(sg, f)]);
    assert Spread(Single(e), f) == [SpreadGroup(g, f)] == Single(StrippedAt(s));
    FlattenSingle(StrippedAt(s));
  }

  /** What the outputs carry, in order. */
  function Carried<S, P>(b: Batch<S, Metric<P>>): seq<Located<S, Sample<P>>> {
    Flat(Map(SplitMetrics(b), o => Samples(o)))
  }

  /** There are as many outputs as data points; output i holds point i alone, and splitting it again changes nothing. */
  lemma MetricsSplitSingly<S, P>(b: Batch<S, Metric<P>>)
    ensures |SplitMetrics(b)| == |Samples(b)|
    ensures forall i :: 0 <= i < |SplitMetrics(b)| ==>
              Samples(SplitMetrics(b)[i]) == [if PointCount(b) == 1 then Samples(b)[i] else StrippedAt(Samples(b)[i])]
    ensures forall i :: 0 <= i < |SplitMetrics(b)| ==> SplitMetrics(SplitMetrics(b)[i]) == [SplitMetrics(b)[i]]
  {
    hide Samples, Exploded, StrippedAt, PointCount, Aligned, Single;
    PointsCounted(b);
    BatchAligned(b);
    forall i | 0 <= i < |SplitMetrics(b)|
      ensures Samples(SplitMetrics(b)[i]) == [if PointCount(b) == 1 then Samples(b)[i] else StrippedAt(Samples(b)[i])]
      ensures SplitMetrics(SplitMetrics(b)[i]) == [SplitMetrics(b)[i]]
    {
      if PointCount(b) > 1 {
        assert Aligned(Exploded(b)[i], Samples(b)[i]);
        SamplesOfSingle(Exploded(b)[i], Samples(b)[i]);
      }
      PointsCounted(SplitMetrics(b)[i]);
    }
  }

  lemma PointsCounted<S, P>(b: Batch<S, Metric<P>>)
    ensures PointCount(b) == |Samples(b)|
  {
    hide Count, Flatten, Spread;
    CountIsLength(Spread(b, m => SamplesOf(m)));
  }

  /**
   The outputs carry the input's points in order, each under its header, type, scope and resource; two or
   more lose metadata.
   */
  lemma MetricsConserve<S, P>(b: Batch<S, Metric<P>>)
    ensures Carried(b) == if PointCount(b) <= 1 then Samples(b) else Map(Samples(b), s => StrippedAt(s))
  {
    hide Samples, PointCount, SplitMetrics, StrippedAt;
    PointsCounted(b);
    MetricsSplitSingly(b);
    FlatSingletons(Map(SplitMetrics(b), o => Samples(o)),
                   if PointCount(b) <= 1 then Samples(b) else Map(Samples(b), s => StrippedAt(s)));
  }

  /** Nothing at all is lost exactly when there is at most one point or no metric with points has metadata. */
  lemma MetadataSurvivesIff<S, P>(b: Batch<S, Metric<P>>)
    ensures Carried(b) == Samples(b) <==>
            PointCount(b) <= 1 || forall i :: 0 <= i < |Samples(b)| ==> Samples(b)[i].record.metadata == map[]
  {
    hide Samples, PointCount, Carried;
    MetricsConserve(b);
    if PointCount(b) > 1 {
      var stripped := Map(Samples(b), s => StrippedAt(s));
      forall i | 0 <= i < |Samples(b)|
        ensures stripped[i] == Samples(b)[i] <==> Samples(b)[i].record.metadata == map[]
      {
        var s := Samples(b)[i];
        assert s == Relocate(s, s.record);
      }
    }
  }

  /** A gauge with two points and one piece of metadata loses it. */
  lemma MetadataIsLost<S, P>(g: Resource, scope: S, p: P)
    ensures var m := Metric([], [], [], map["k" := "v"], Gauge([p, p]));
            var b := Single(Located(g, [], scope, [], m));
            Carried(b) != Samples(b)
  {
    var m := Metric([], [], [], map["k" := "v"], Gauge([p, p]));
    var b := Single(Located(g, [], scope, [], m));
    var f := (x: Metric<P>) => SamplesOf(x);
    var sample := SamplesOf(m)[0];
    assert SamplesOf(m) == [sample, sample];
    FlatOne(SamplesOf(m));
    assert Map([m], f) == [SamplesOf(m)];
    var spread := Spread(b, f);
    assert spread[0].scopes[0].records == [sample, sample];
    FlattenStep(spread, 0);
    assert spread[..0] == [] && spread[..1] == spread;
    ScopeStep(spread[0], 0);
    assert spread[0].scopes[..1] == spread[0].scopes;
    assert |Samples(b)| == 2 && Samples(b)[0].record == sample;
    PointsCounted(b);
    assert "k" in sample.metadata;
    MetadataSurvivesIff(b);
  }

  /** Every output goes to the subject of its own point's resource. */
  ghost predicate PointsRouteOwn<S, P>(attribute: Text, subject: Text, b: Batch<S, Metric<P>>) {
    |SplitMetrics(b)| == |Samples(b)| &&
    forall i :: 0 <= i < |SplitMetrics(b)| ==>
      GoesTo(attribute, subject, SplitMetrics(b)[i], Samples(b)[i].resource)
  }

  lemma PointsRouteAsRecords<S, P>(attribute: Text, subject: Text, b: Batch<S, Metric<P>>)
    ensures PointsRouteOwn(attribute, subject, b) <==> RoutesOwn(attribute, subject, Spread(b, m => SamplesOf(m)))
  {
    hide Exploded, SubjectFor, Flatten, Count, SamplesOf;
    var spread := Spread(b, m => SamplesOf(m));
    BatchAligned(b);
    PointsCounted(b);
    if PointCount(b) == 1 {
      LoneRoutesOwnIff(attribute, subject, spread);
    } else {
      ManyRouteOwn(attribute, subject, spread);
      forall i | 0 <= i < |SplitMetrics(b)|
        ensures GoesTo(attribute, subject, SplitMetrics(b)[i], Samples(b)[i].resource)
      {
        assert Aligned(Exploded(b)[i], Samples(b)[i]);
      }
    }
  }

  /** Data points are routed by their own resources exactly when records would be. */
  lemma PointsRouteOwnIff<S, P>(b: Batch<S, Metric<P>>)
    ensures (forall a: Text, s: Text :: PointsRouteOwn(a, s, b)) <==>
            (PointCount(b) == 1 ==>
              |b| > 0 && |Samples(b)| == 1 && SameRouting(b[0].resource, Samples(b)[0].resource))
  {
    hide PointsRouteOwn, RoutesOwn, SameRouting, Flatten, Count, SamplesOf;
    var spread := Spread(b, m => SamplesOf(m));
    forall a: Text, s: Text ensures PointsRouteOwn(a, s, b) <==> RoutesOwn(a, s, spread) {
      PointsRouteAsRecords(a, s, b);
    }
    RoutesOwnIff(spread);
  }

  // ---- The loops --------------------------------------------------------------------------------------

  function LocateIn<S, P>(g: ResourceGroup<S, Metric<P>>, sg: ScopeGroup<S, Metric<P>>, es: seq<Metric<P>>)
    : seq<Located<S, Metric<P>>>
  {
    Map(es, e => Located(g.resource, g.url, sg.scope, sg.url, e))
  }

  method ExplodeMetric<S, P>(g: ResourceGroup<S, Metric<P>>, sg: ScopeGroup<S, Metric<P>>, m: Metric<P>)
    returns (result: seq<Batch<S, Metric<P>>>)
    ensures result == Singles(LocateIn(g, sg, Explode(m)))
  {
    result := [];
    var points := match m.data case NoData => [] case _ => m.data.points;
    for i := 0 to |points|
      invariant result == Singles(LocateIn(g, sg, Explode(m)[..i]))
    {
      var data := match m.data
        case NoData => NoData
        case Gauge(_) => Gauge([points[i]])
        case Sum(t, monotonic, _) => Sum(t, monotonic, [points[i]])
        case Histogram(t, _) => Histogram(t, [points[i]])
        case ExponentialHistogram(t, _) => ExponentialHistogram(t, [points[i]])
        case Summary(_) => Summary([points[i]]);
      var single := Metric(m.name, m.description, m.unit, map[], data);
      assert single == Explode(m)[i];
      assert Explode(m)[..i + 1] == Explode(m)[..i] + [single];
      result := result + [[ResourceGroup(g.resource, g.url, [ScopeGroup(sg.scope, sg.url, [single])])]];
    }
    assert Explode(m)[..|points|] == Explode(m);
  }

  /** The exploded first `k` metrics of a scope. */
  function FirstMetrics<P>(ms: seq<Metric<P>>, k: nat): seq<Metric<P>>
    requires k <= |ms|
  {
    Flat(Map(ms[..k], m => Explode(m)))
  }

  lemma MetricStep<P>(ms: seq<Metric<P>>, k: nat)
    requires k < |ms|
    ensures FirstMetrics(ms, k + 1) == FirstMetrics(ms, k) + Explode(ms[k])
  {
    hide Explode;
    assert Map(ms[..k + 1], m => Explode(m)) == Map(ms[..k], m => Explode(m)) + [Explode(ms[k])];
    FlatAppend(Map(ms[..k], m => Explode(m)), [Explode(ms[k])]);
    FlatOne(Explode(ms[k]));
  }

  lemma LocateAppend<S, P>(
      g: ResourceGroup<S, Metric<P>>, sg: ScopeGroup<S, Metric<P>>, a: seq<Metric<P>>, b: seq<Metric<P>>)
    ensures Singles(LocateIn(g, sg, a + b)) == Singles(LocateIn(g, sg, a)) + Singles(LocateIn(g, sg, b))
  {
  }

  method ExplodeScope<S, P>(g: ResourceGroup<S, Metric<P>>, sg: ScopeGroup<S, Metric<P>>)
    returns (result: seq<Batch<S, Metric<P>>>)
    ensures result == Singles(LocateIn(g, sg, SpreadScope(sg, m => Explode(m)).records))
  {
    hide Explode;
    result := [];
    for k := 0 to |sg.records|
      invariant result == Singles(LocateIn(g, sg, FirstMetrics(sg.records, k)))
    {
      var more := ExplodeMetric(g, sg, sg.records[k]);
      MetricStep(sg.records, k);
      LocateAppend(g, sg, FirstMetrics(sg.records, k), Explode(sg.records[k]));
      result := result + more;
    }
    assert sg.records[..|sg.records|] == sg.records;
  }

  method ExplodeGroup<S, P>(g: ResourceGroup<S, Metric<P>>) returns (result: seq<Batch<S, Metric<P>>>)
    ensures result == Singles(InGroup(SpreadGroup(g, m => Explode(m))))
  {
    hide Singles, SpreadScope, Explode;
    ghost var target := SpreadGroup(g, m => Explode(m));
    result := [];
    assert result == Singles(FirstScopes(target, 0)) by {
      SinglesNone<S, Metric<P>>();
    }
    for j := 0 to |g.scopes|
      invariant result == Singles(FirstScopes(target, j))
    {
      var sg := g.scopes[j];
      var more := ExplodeScope(g, sg);
      LocateIsInScope(g, sg);
      ScopeStep(target, j);
      SinglesAppend(FirstScopes(target, j), InScope(target, target.scopes[j]));
      result := result + more;
    }
    assert target.scopes[..|target.scopes|] == target.scopes;
  }

  lemma LocateIsInScope<S, P>(g: ResourceGroup<S, Metric<P>>, sg: ScopeGroup<S, Metric<P>>)
    ensures var f := (m: Metric<P>) => Explode(m);
            LocateIn(g, sg, SpreadScope(sg, f).records) == InScope(SpreadGroup(g, f), SpreadScope(sg, f))
  {
  }

  method SplitMetricBatch<S, P>(b: Batch<S, Metric<P>>) returns (result: seq<Batch<S, Metric<P>>>)
    ensures result == SplitMetrics(b)
  {
    hide InGroup, PointCount, SpreadGroup, Explode;
    var count := PointCount(b);
    if count == 0 {
      return [];
    }
    if count == 1 {
      return [b];
    }
    ghost var target := Spread(b, m => Explode(m));
    result := [];
    for i := 0 to |b|
      invariant result == Singles(Flatten(target[..i]))
    {
      var more := ExplodeGroup(b[i]);
      FlattenStep(target, i);
      SinglesAppend(Flatten(target[..i]), InGroup(target[i]));
      result := result + more;
    }
    assert target[..|target|] == target;
  }
}
