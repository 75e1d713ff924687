/** The unbatch processor: one output batch per record, each under a copy of its own resource and scope. */
module Unbatch {
  import opened Texts

  datatype ScopeGroup<S, R> = ScopeGroup(scope: S, url: Text, records: seq<R>)

  /** Resource attributes are kept as their string renderings. */
  datatype Resource = Resource(attributes: map<Text, Text>, dropped: nat)

  datatype ResourceGroup<S, R> = ResourceGroup(resource: Resource, url: Text, scopes: seq<ScopeGroup<S, R>>)

  type Batch<S, R> = seq<ResourceGroup<S, R>>

  /** A record with everything it stands under. */
  datatype Located<S, R> = Located(resource: Resource, url: Text, scope: S, scopeUrl: Text, record: R)

  function Flat<T>(ss: seq<seq<T>>): seq<T> {
    if ss == [] then [] else ss[0] + Flat(ss[1..])
  }

  function Map<T, U>(s: seq<T>, f: T -> U): (r: seq<U>)
    ensures |r| == |s| && forall i :: 0 <= i < |s| ==> r[i] == f(s[i])
  {
    seq(|s|, i requires 0 <= i < |s| => f(s[i]))
  }

  lemma {:induction false} FlatAppend<T>(a: seq<seq<T>>, b: seq<seq<T>>)
    ensures Flat(a + b) == Flat(a) + Flat(b)
  {
    if a == [] {
      assert a + b == b;
    } else {
      assert (a + b)[1..] == a[1..] + b;
      FlatAppend(a[1..], b);
      Regroup(a[0], Flat(a[1..]), Flat(b));
    }
  }

  lemma {:induction false} FlatSingletons<T>(ss: seq<seq<T>>, s: seq<T>)
    requires |ss| == |s| && forall i :: 0 <= i < |s| ==> ss[i] == [s[i]]
    ensures Flat(ss) == s
  {
    if s != [] {
      FlatSingletons(ss[1..], s[1..]);
      assert s == [s[0]] + s[1..];
    }
  }

  function InScope<S, R>(g: ResourceGroup<S, R>, sg: ScopeGroup<S, R>): seq<Located<S, R>> {
    Map(sg.records, r => Located(g.resource, g.url, sg.scope, sg.url, r))
  }

  function InGroup<S, R>(g: ResourceGroup<S, R>): seq<Located<S, R>> {
    Flat(Map(g.scopes, sg => InScope(g, sg)))
  }

  /** The records of a batch, in order, each with its resource and scope. */
  function Flatten<S, R>(b: Batch<S, R>): seq<Located<S, R>> {
    Flat(Map(b, g => InGroup(g)))
  }

  function SumOf(ns: seq<nat>): nat {
    if ns == [] then 0 else ns[0] + SumOf(ns[1..])
  }

  function GroupCount<S, R>(g: ResourceGroup<S, R>): nat {
    SumOf(Map(g.scopes, (sg: ScopeGroup<S, R>) => |sg.records|))
  }

  /** LogRecordCount and SpanCount. */
  function Count<S, R>(b: Batch<S, R>): nat {
    SumOf(Map(b, g => GroupCount(g)))
  }

  lemma {:induction false} FlatLength<T>(ss: seq<seq<T>>, ns: seq<nat>)
    requires |ss| == |ns| && forall i :: 0 <= i < |ns| ==> |ss[i]| == ns[i]
    ensures |Flat(ss)| == SumOf(ns)
  {
    if ss != [] {
      FlatLength(ss[1..], ns[1..]);
    }
  }

  lemma CountIsLength<S, R>(b: Batch<S, R>)
    ensures Count(b) == |Flatten(b)|
  {
    forall i | 0 <= i < |b| ensures |InGroup(b[i])| == GroupCount(b[i]) {
      var g := b[i];
      FlatLength(Map(g.scopes, sg => InScope(g, sg)), Map(g.scopes, (sg: ScopeGroup<S, R>) => |sg.records|));
    }
    FlatLength(Map(b, g => InGroup(g)), Map(b, g => GroupCount(g)));
  }

  /** A batch holding one record. */
  function Single<S, R>(l: Located<S, R>): Batch<S, R> {
    [ResourceGroup(l.resource, l.url, [ScopeGroup(l.scope, l.scopeUrl, [l.record])])]
  }

  /** splitLogs and splitTraces. */
  function Split<S, R>(b: Batch<S, R>): seq<Batch<S, R>> {
    if Count(b) == 0 then []
    else if Count(b) == 1 then [b]
    else Map(Flatten(b), l => Single(l))
  }

  lemma FlattenSingle<S, R>(l: Located<S, R>)
    ensures Flatten(Single(l)) == [l]
  {
    var b := Single(l);
    var g := b[0];
    var inner := Map(g.scopes, sg => InScope(g, sg));
    assert inner[0] == [l] && inner[1..] == [];
    assert Flat(inner) == [l];
    var outer := Map(b, g => InGroup(g));
    assert outer[0] == [l] && outer[1..] == [];
    assert Flat(outer) == [l];
  }

  lemma FlatOne<T>(s: seq<T>)
    ensures Flat([s]) == s
  {
    assert [s][1..] == [] && s + [] == s;
  }

  /** The outputs concatenated are the input's records, under the same resources and scopes, in order. */
  lemma SplitConserves<S, R>(b: Batch<S, R>)
    ensures Flat(Map(Split(b), o => Flatten(o))) == Flatten(b)
  {
    hide Flatten, Single, Count;
    CountIsLength(b);
    var flat := Map(Split(b), o => Flatten(o));
    if Count(b) == 1 {
      assert flat == [Flatten(b)];
      FlatOne(Flatten(b));
    } else if Count(b) > 1 {
      forall i | 0 <= i < |Flatten(b)| ensures flat[i] == [Flatten(b)[i]] {
        FlattenSingle(Flatten(b)[i]);
      }
      FlatSingletons(flat, Flatten(b));
    }
  }

  /** There are as many outputs as records; output i holds record i alone, and splitting it again changes nothing. */
  lemma SplitSingles<S, R>(b: Batch<S, R>)
    ensures |Split(b)| == |Flatten(b)|
    ensures forall i :: 0 <= i < |Split(b)| ==> Flatten(Split(b)[i]) == [Flatten(b)[i]]
    ensures forall i :: 0 <= i < |Split(b)| ==> Split(Split(b)[i]) == [Split(b)[i]]
  {
    hide Flatten, Single, Count;
    CountIsLength(b);
    forall i | 0 <= i < |Split(b)|
      ensures Flatten(Split(b)[i]) == [Flatten(b)[i]] && Split(Split(b)[i]) == [Split(b)[i]]
    {
      if Count(b) > 1 {
        FlattenSingle(Flatten(b)[i]);
      }
      CountIsLength(Split(b)[i]);
    }
  }

  // ---- The loops --------------------------------------------------------------------------------------

  lemma FlattenStep<S, R>(b: Batch<S, R>, i: nat)
    requires i < |b|
    ensures Flatten(b[..i + 1]) == Flatten(b[..i]) + InGroup(b[i])
  {
    hide InGroup;
    assert b[..i + 1] == b[..i] + [b[i]];
    assert Map(b[..i + 1], g => InGroup(g)) == Map(b[..i], g => InGroup(g)) + [InGroup(b[i])];
    FlatAppend(Map(b[..i], g => InGroup(g)), [InGroup(b[i])]);
    FlatOne(InGroup(b[i]));
  }

  /** The records of the first `j` scopes. */
  function FirstScopes<S, R>(g: ResourceGroup<S, R>, j: nat): seq<Located<S, R>>
    requires j <= |g.scopes|
  {
    Flat(Map(g.scopes[..j], sg => InScope(g, sg)))
  }

  lemma ScopeStep<S, R>(g: ResourceGroup<S, R>, j: nat)
    requires j < |g.scopes|
    ensures FirstScopes(g, j + 1) == FirstScopes(g, j) + InScope(g, g.scopes[j])
  {
    hide InScope;
    assert g.scopes[..j + 1] == g.scopes[..j] + [g.scopes[j]];
    assert Map(g.scopes[..j + 1], sg => InScope(g, sg)) ==
           Map(g.scopes[..j], sg => InScope(g, sg)) + [InScope(g, g.scopes[j])];
    FlatAppend(Map(g.scopes[..j], sg => InScope(g, sg)), [InScope(g, g.scopes[j])]);
    FlatOne(InScope(g, g.scopes[j]));
  }

  function Singles<S, R>(ls: seq<Located<S, R>>): seq<Batch<S, R>> {
    Map(ls, l => Single(l))
  }

  lemma SinglesAppend<S, R>(a: seq<Located<S, R>>, b: seq<Located<S, R>>)
    ensures Singles(a + b) == Singles(a) + Singles(b)
  {
  }

  method SplitScope<S, R>(g: ResourceGroup<S, R>, sg: ScopeGroup<S, R>) returns (result: seq<Batch<S, R>>)
    ensures result == Singles(InScope(g, sg))
  {
    result := [];
    for k := 0 to |sg.records|
      invariant result == Singles(InScope(g, sg)[..k])
    {
      var single := [ResourceGroup(g.resource, g.url, [ScopeGroup(sg.scope, sg.url, [sg.records[k]])])];
      assert InScope(g, sg)[..k + 1] == InScope(g, sg)[..k] + [InScope(g, sg)[k]];
      result := result + [single];
    }
    assert InScope(g, sg)[..|sg.records|] == InScope(g, sg);
  }

  method SplitGroup<S, R>(g: ResourceGroup<S, R>) returns (result: seq<Batch<S, R>>)
    ensures result == Singles(InGroup(g))
  {
    hide InScope, Singles;
    result := [];
    assert result == Singles(FirstScopes(g, 0)) by {
      SinglesNone<S, R>();
    }
    for j := 0 to |g.scopes|
      invariant result == Singles(FirstScopes(g, j))
    {
      var more := SplitScope(g, g.scopes[j]);
      ScopeStep(g, j);
      SinglesAppend(FirstScopes(g, j), InScope(g, g.scopes[j]));
      result := result + more;
    }
    assert g.scopes[..|g.scopes|] == g.scopes;
  }

  lemma SinglesNone<S, R>()
    ensures Singles<S, R>([]) == []
  {
  }

  method SplitRecords<S, R>(b: Batch<S, R>) returns (result: seq<Batch<S, R>>)
    ensures result == Split(b)
  {
    hide InGroup, Count;
    var count := Count(b);
    if count == 0 {
      return [];
    }
    if count == 1 {
      return [b];
    }
    result := [];
    for i := 0 to |b|
      invariant result == Singles(Flatten(b[..i]))
    {
      var more := SplitGroup(b[i]);
      FlattenStep(b, i);
      SinglesAppend(Flatten(b[..i]), InGroup(b[i]));
      result := result + more;
    }
    assert b[..|b|] == b;
  }

  // ---- Subjects ---------------------------------------------------------------------------------------

  /** subjectFor: the configured subject, unless the named attribute is present. */
  function SubjectFor(attribute: Text, subject: Text, r: Resource): Text {
    if attribute != [] && attribute in r.attributes then r.attributes[attribute] else subject
  }

  /** pushLogs and its siblings: a batch goes to the subject of its first resource. */
  function SubjectOf<S, R>(attribute: Text, subject: Text, b: Batch<S, R>): Text {
    if |b| > 0 then SubjectFor(attribute, subject, b[0].resource) else subject
  }

  /** The batch goes to what the resource's own attribute says, or to the configured subject without one. */
  ghost predicate GoesTo<S, R>(attribute: Text, subject: Text, b: Batch<S, R>, r: Resource) {
    if attribute != [] && attribute in r.attributes
    then SubjectOf(attribute, subject, b) == r.attributes[attribute]
    else SubjectOf(attribute, subject, b) == subject
  }

  /** Every output goes to the subject of its own record's resource. */
  ghost predicate RoutesOwn<S, R>(attribute: Text, subject: Text, b: Batch<S, R>) {
    |Split(b)| == |Flatten(b)| &&
    forall i :: 0 <= i < |Split(b)| ==> GoesTo(attribute, subject, Split(b)[i], Flatten(b)[i].resource)
  }

  /** The two resources agree on every attribute that has a name. */
  ghost predicate SameRouting(x: Resource, y: Resource) {
    forall a: Text :: a != [] ==>
      (a in x.attributes <==> a in y.attributes) && (a in x.attributes ==> x.attributes[a] == y.attributes[a])
  }

  lemma ManyRouteOwn<S, R>(attribute: Text, subject: Text, b: Batch<S, R>)
    requires Count(b) != 1
    ensures RoutesOwn(attribute, subject, b)
  {
    hide Count, Flatten;
    CountIsLength(b);
  }

  lemma LoneRoutesOwnIff<S, R>(attribute: Text, subject: Text, b: Batch<S, R>)
    requires Count(b) == 1
    ensures |b| > 0 && |Flatten(b)| == 1
    ensures RoutesOwn(attribute, subject, b) <==>
            SubjectFor(attribute, subject, b[0].resource) == SubjectFor(attribute, subject, Flatten(b)[0].resource)
  {
    hide Flatten;
    CountIsLength(b);
    assert Split(b)[0] == b;
  }

  /**
   Whatever attribute and subject are configured, every record is published under its own resource's subject
   exactly when the batch does not consist of one record behind a resource group that routes differently.
   */
  lemma RoutesOwnIff<S, R>(b: Batch<S, R>)
    ensures (forall a: Text, s: Text :: RoutesOwn(a, s, b)) <==>
            (Count(b) == 1 ==> |b| > 0 && |Flatten(b)| == 1 && SameRouting(b[0].resource, Flatten(b)[0].resource))
  {
    hide Count, Flatten, RoutesOwn;
    if Count(b) == 1 {
      LoneRoutesOwnIff([], [], b);
      var x, y := b[0].resource, Flatten(b)[0].resource;
      if SameRouting(x, y) {
        forall a: Text, s: Text ensures RoutesOwn(a, s, b) {
          LoneRoutesOwnIff(a, s, b);
        }
      } else {
        var a: Text :| a != [] && !(
          (a in x.attributes <==> a in y.attributes) && (a in x.attributes ==> x.attributes[a] == y.attributes[a]));
        var mine := if a in x.attributes then x.attributes[a] else if a in y.attributes then y.attributes[a] else [];
        var s: Text := mine + "x";
        LoneRoutesOwnIff(a, s, b);
        assert !RoutesOwn(a, s, b);
      }
    } else {
      forall a: Text, s: Text ensures RoutesOwn(a, s, b) {
        ManyRouteOwn(a, s, b);
      }
    }
  }

  /** One record behind an empty resource group goes to that group's subject. */
  lemma LoneBehindEmptyGroupStrays<S, R>(empty: Resource, own: Resource, scope: S, record: R, attribute: Text)
    requires attribute != [] && attribute in empty.attributes && attribute in own.attributes
    requires empty.attributes[attribute] != own.attributes[attribute]
    ensures var b := [ResourceGroup(empty, [], []), ResourceGroup(own, [], [ScopeGroup(scope, [], [record])])];
            forall subject: Text :: !RoutesOwn(attribute, subject, b)
  {
    var tail := Single(Located(own, [], scope, [], record));
    var b := [ResourceGroup(empty, [], [])] + tail;
    FlattenSingle(Located(own, [], scope, [], record));
    FlattenStep(b, 0);
    FlattenStep(b, 1);
    assert b[..2] == b && b[..1] == [b[0]] && tail == [b[1]];
    FlattenStep(tail, 0);
    assert tail[..1] == tail;
    CountIsLength(b);
    assert b == [ResourceGroup(empty, [], []), ResourceGroup(own, [], [ScopeGroup(scope, [], [record])])];
    forall subject: Text ensures !RoutesOwn(attribute, subject, b) {
      LoneRoutesOwnIff(attribute, subject, b);
    }
  }

  /** A lone record in the batch's first resource group is routed by its own resource. */
  lemma FirstGroupRoutesOwn<S, R>(b: Batch<S, R>)
    requires |b| > 0 && GroupCount(b[0]) > 0
    ensures forall a: Text, s: Text :: RoutesOwn(a, s, b)
  {
    hide RoutesOwn, GroupCount, Count;
    CountIsLength(b);
    CountIsLength([b[0]]);
    FirstGroupFirst(b);
    RoutesOwnIff(b);
  }

  lemma FirstGroupFirst<S, R>(b: Batch<S, R>)
    requires |b| > 0 && GroupCount(b[0]) > 0
    ensures |Flatten(b)| > 0 && Flatten(b)[0].resource == b[0].resource
  {
    hide InGroup;
    var all := Map(b, g => InGroup(g));
    GroupRecords(b[0]);
    assert Flatten(b) == InGroup(b[0]) + Flat(all[1..]);
  }

  lemma GroupRecords<S, R>(g: ResourceGroup<S, R>)
    ensures |InGroup(g)| == GroupCount(g)
    ensures forall l :: l in InGroup(g) ==> l.resource == g.resource
  {
    var parts := Map(g.scopes, sg => InScope(g, sg));
    FlatLength(parts, Map(g.scopes, (sg: ScopeGroup<S, R>) => |sg.records|));
    FlatMembers(parts, (l: Located<S, R>) => l.resource == g.resource);
  }

  lemma {:induction false} FlatMembers<T>(ss: seq<seq<T>>, p: T -> bool)
    requires forall i, x :: 0 <= i < |ss| && x in ss[i] ==> p(x)
    ensures forall x :: x in Flat(ss) ==> p(x)
  {
    if ss != [] {
      FlatMembers(ss[1..], p);
    }
  }
}
