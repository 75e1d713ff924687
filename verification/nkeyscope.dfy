/** What the users in the authorized-leafs ConfigMap may do, subject by subject. */
module NkeyScope {
  import opened Texts
  import opened Nkeys
  import opened NkeyRuns

  // ---- NATS subjects ----------------------------------------------------------------------------------

  /** The tokens of a subject, which dots separate. */
  function Tokens(s: Text): (r: seq<Text>)
    ensures r != []
  {
    if s == [] then [[]]
    else
      var rest := Tokens(s[1..]);
      if s[0] == '.' then [[]] + rest else [[s[0]] + rest[0]] + rest[1..]
  }

  /** A pattern against a subject: `*` stands for any one token, a final `>` for one or more. */
  predicate Covers(pattern: seq<Text>, subject: seq<Text>) {
    if pattern == [] then subject == []
    else if pattern == [">"] then subject != []
    else subject != [] && (pattern[0] == "*" || pattern[0] == subject[0]) && Covers(pattern[1..], subject[1..])
  }

  ghost predicate MayPublish(u: User, subject: Text) {
    u.publish.Some? && exists p :: p in u.publish.value && Covers(Tokens(p), Tokens(subject))
  }

  ghost predicate MaySubscribe(u: User, subject: Text) {
    exists p :: p in u.subscribe && Covers(Tokens(p), Tokens(subject))
  }

  lemma {:induction false} TokensOfOne(a: Text)
    requires '.' !in a
    ensures Tokens(a) == [a]
  {
    if a != [] {
      TokensOfOne(a[1..]);
      assert [a[0]] + a[1..] == a;
    }
  }

  lemma {:induction false} TokensCons(a: Text, rest: Text)
    requires '.' !in a
    ensures Tokens(a + "." + rest) == [a] + Tokens(rest)
  {
    var s := a + "." + rest;
    if a == [] {
      assert s[1..] == rest;
    } else {
      TokensCons(a[1..], rest);
      assert s[1..] == a[1..] + "." + rest && [a[0]] + a[1..] == a;
    }
  }

  /** The first token and what follows its dot. */
  lemma {:induction false} FirstToken(s: Text) returns (rest: Text)
    requires |Tokens(s)| > 1
    ensures s == Tokens(s)[0] + "." + rest && '.' !in Tokens(s)[0] && Tokens(rest) == Tokens(s)[1..]
  {
    if s[0] == '.' {
      rest := s[1..];
      assert s == [] + "." + rest;
    } else {
      rest := FirstToken(s[1..]);
      assert s == [s[0]] + s[1..];
    }
  }

  lemma {:induction false} OnlyToken(s: Text)
    requires |Tokens(s)| == 1
    ensures Tokens(s) == [s] && '.' !in s
  {
    if s != [] {
      OnlyToken(s[1..]);
      assert [s[0]] + s[1..] == s;
    }
  }

  function Subject(kind: Text, cluster: Text, last: Text): Text {
    "o11y." + kind + "." + cluster + "." + last
  }

  /** One kind of a cluster's telemetry: the kind, the cluster and one more token. */
  ghost predicate Under(kind: Text, cluster: Text, subject: Text) {
    exists t: Text :: '.' !in t && subject == Subject(kind, cluster, t)
  }

  predicate Plain(token: Text) {
    '.' !in token && token != "*" && token != ">"
  }

  lemma StarCovers(kind: Text, cluster: Text, subject: Text)
    requires Plain(kind) && Plain(cluster)
    ensures Covers(Tokens(Subject(kind, cluster, "*")), Tokens(subject)) <==> Under(kind, cluster, subject)
  {
    hide Tokens, Covers, Subject;
    FourTokens(kind, cluster, "*");
    StarCoversOne(["o11y", kind, cluster, "*"], Tokens(subject));
    if |Tokens(subject)| == 4 && Tokens(subject)[..3] == ["o11y", kind, cluster] {
      var t := LastOfFour(kind, cluster, subject);
    }
    if t: Text :| '.' !in t && subject == Subject(kind, cluster, t) {
      FourTokens(kind, cluster, t);
    }
  }

  lemma FourTokens(kind: Text, cluster: Text, t: Text)
    requires '.' !in kind && '.' !in cluster && '.' !in t
    ensures Tokens(Subject(kind, cluster, t)) == ["o11y", kind, cluster, t]
  {
    hide Tokens;
    var o: Text := "o11y";
    TokensOfOne(t);
    TokensCons(cluster, t);
    TokensCons(kind, cluster + "." + t);
    TokensCons(o, kind + "." + (cluster + "." + t));
    assert Subject(kind, cluster, t) == o + "." + (kind + "." + (cluster + "." + t));
    assert [kind] + ([cluster] + [t]) == [kind, cluster, t];
    assert [o] + [kind, cluster, t] == ["o11y", kind, cluster, t];
  }

  /** Plain tokens and a final wildcard cover the same tokens and any one more. */
  lemma {:induction false} StarCoversOne(p: seq<Text>, ts: seq<Text>)
    requires p != [] && p[|p| - 1] == "*" && forall i :: 0 <= i < |p| - 1 ==> Plain(p[i])
    ensures Covers(p, ts) <==> |ts| == |p| && ts[..|p| - 1] == p[..|p| - 1]
    decreases |p|
  {
    if |p| > 1 && ts != [] {
      StarCoversOne(p[1..], ts[1..]);
      assert p[..|p| - 1] == [p[0]] + p[1..][..|p| - 2];
      if |ts| == |p| {
        assert ts[..|p| - 1] == [ts[0]] + ts[1..][..|p| - 2];
      }
    }
  }

  lemma LastOfFour(kind: Text, cluster: Text, subject: Text) returns (t: Text)
    requires |Tokens(subject)| == 4 && Tokens(subject)[..3] == ["o11y", kind, cluster]
    ensures '.' !in t && subject == Subject(kind, cluster, t)
  {
    hide Tokens;
    var ts := Tokens(subject);
    assert ts[0] == ts[..3][0] && ts[1] == ts[..3][1] && ts[2] == ts[..3][2];
    var a := FirstToken(subject);
    var b := FirstToken(a);
    t := FirstToken(b);
    OnlyToken(t);
    assert subject == "o11y" + "." + (kind + "." + (cluster + "." + t));
  }

  // ---- Permissions ------------------------------------------------------------------------------------

  /** A cluster's logs, metrics and traces. */
  ghost predicate TelemetryOf(cluster: Text, subject: Text) {
    Under("logs", cluster, subject) || Under("metrics", cluster, subject) || Under("traces", cluster, subject)
  }

  lemma NamesArePlain(cluster: Text)
    requires ValidClusterName(cluster)
    ensures Plain(cluster)
  {
  }

  lemma LeafSubjects(cluster: Text, public: Text)
    ensures NkeyUser(cluster, public).publish ==
            Some([Subject("logs", cluster, "*"), Subject("metrics", cluster, "*"), Subject("traces", cluster, "*")])
  {
    Dotted("o11y.logs.", cluster);
    Dotted("o11y.metrics.", cluster);
    Dotted("o11y.traces.", cluster);
    assert "o11y." + "logs" + "." == "o11y.logs.";
    assert "o11y." + "metrics" + "." == "o11y.metrics.";
    assert "o11y." + "traces" + "." == "o11y.traces.";
  }

  lemma Dotted(lead: Text, cluster: Text)
    ensures lead + cluster + ".*" == lead + cluster + "." + "*"
  {
  }

  lemma KindsArePlain()
    ensures Plain("logs") && Plain("metrics") && Plain("traces")
  {
    assert |"*"| == 1 && |">"| == 1;
  }

  /** A cluster's user may publish that cluster's logs, metrics and traces, and nothing else. */
  lemma LeafPublishesOwnIff(cluster: Text, public: Text, subject: Text)
    requires ValidClusterName(cluster)
    ensures MayPublish(NkeyUser(cluster, public), subject) <==> TelemetryOf(cluster, subject)
  {
    hide Tokens, Covers, ValidClusterName, Under, Plain, NkeyUser, Subject, MayPublish;
    LeafSubjects(cluster, public);
    NamesArePlain(cluster);
    KindsArePlain();
    StarCovers("logs", cluster, subject);
    StarCovers("metrics", cluster, subject);
    StarCovers("traces", cluster, subject);
    ThreePatterns(NkeyUser(cluster, public), Subject("logs", cluster, "*"), Subject("metrics", cluster, "*"),
                  Subject("traces", cluster, "*"), subject);
  }

  lemma ThreePatterns(u: User, a: Text, b: Text, c: Text, subject: Text)
    requires u.publish == Some([a, b, c])
    ensures MayPublish(u, subject) <==>
            || Covers(Tokens(a), Tokens(subject)) || Covers(Tokens(b), Tokens(subject))
            || Covers(Tokens(c), Tokens(subject))
  {
    hide Tokens, Covers;
    assert a in [a, b, c] && b in [a, b, c] && c in [a, b, c];
  }

  /** The third token of a telemetry subject is its cluster. */
  lemma TelemetryNames(cluster: Text, subject: Text)
    requires Plain(cluster) && TelemetryOf(cluster, subject)
    ensures |Tokens(subject)| == 4 && Tokens(subject)[0] == "o11y" && Tokens(subject)[2] == cluster
  {
    hide Tokens;
    var logs: Text, metrics: Text, traces: Text := "logs", "metrics", "traces";
    var kind := if Under(logs, cluster, subject) then logs
                else if Under(metrics, cluster, subject) then metrics else traces;
    var t: Text :| '.' !in t && subject == Subject(kind, cluster, t);
    FourTokens(kind, cluster, t);
  }

  lemma TelemetryApart(c: Text, d: Text, subject: Text)
    requires ValidClusterName(c) && ValidClusterName(d) && TelemetryOf(c, subject) && TelemetryOf(d, subject)
    ensures c == d
  {
    hide Tokens, ValidClusterName, TelemetryOf, Plain;
    NamesArePlain(c);
    NamesArePlain(d);
    TelemetryNames(c, subject);
    TelemetryNames(d, subject);
  }

  // ---- The published users ----------------------------------------------------------------------------

  lemma {:induction false} PlannedUser(secrets: map<Text, Secret>, clusters: seq<Text>, u: User) returns (c: Text)
    requires u in Planned(secrets, clusters)
    requires forall c :: c in clusters && ValidClusterName(c) ==> c in secrets
    ensures c in clusters && ValidClusterName(c) && c in secrets && u == NkeyUser(c, PublicOf(secrets[c]))
  {
    hide ValidClusterName, NkeyUser, PublicOf;
    if ValidClusterName(clusters[0]) && u == NkeyUser(clusters[0], PublicOf(secrets[clusters[0]])) {
      c := clusters[0];
    } else {
      c := PlannedUser(secrets, clusters[1..], u);
    }
  }

  /**
   After a successful run, whoever presents a published key may publish the telemetry of one listed cluster,
   whose Secret holds that key, and nothing else.
   */
  lemma KeyOpensOwnCluster(api: Api, world: World, clusters: seq<Text>, u: User) returns (c: Text)
    requires Alone(world) && Sync(api, world, Some(clusters)).outcome.Ok?
    requires u in Current(Sync(api, world, Some(clusters)).api) && u.nkey.Some?
    ensures var after := Sync(api, world, Some(clusters)).api;
            && c in clusters && ValidClusterName(c) && c in after.secrets
            && u.nkey == Some(PublicOf(after.secrets[c]))
            && forall subject :: MayPublish(u, subject) <==> TelemetryOf(c, subject)
  {
    assert forall x :: x in STATIC_USERS ==> x.nkey.None?;
    hide Sync, Planned, ValidClusterName, PublicOf, MayPublish, TelemetryOf;
    var after := Sync(api, world, Some(clusters)).api;
    SyncPublishesStored(api, world, clusters);
    c := PlannedUser(after.secrets, clusters, u);
    forall subject ensures MayPublish(u, subject) <==> TelemetryOf(c, subject) {
      LeafPublishesOwnIff(c, PublicOf(after.secrets[c]), subject);
    }
  }

  /**
   Through any history of runs, failures and deletions, two users published by a further run share a subject
   exactly when they hold the same key: no key opens two clusters, and no two keys open one subject.
   */
  lemma SubjectHasOneKey(
      api: Api, world: World, events: seq<Event>, clusters: seq<Text>, u: User, v: User, subject: Text)
    requires Alone(world) && Unrepeated(api, world) && OwnKeys(api.secrets)
    requires var r := Sync(After(api, world, events), world, Some(clusters));
             r.outcome.Ok? && u in Current(r.api) && v in Current(r.api) && u.nkey.Some? && v.nkey.Some?
    requires MayPublish(u, subject)
    ensures MayPublish(v, subject) <==> u.nkey == v.nkey
  {
    hide Sync, MayPublish, TelemetryOf, PublicOf, Unrepeated, After, ValidClusterName;
    var before := After(api, world, events);
    ClustersNeverShareKeys(api, world, events);
    SyncOwn(before, world, Some(clusters));
    var c := KeyOpensOwnCluster(before, world, clusters, u);
    var d := KeyOpensOwnCluster(before, world, clusters, v);
    if TelemetryOf(d, subject) {
      TelemetryApart(c, d, subject);
    }
  }

  /** Plain tokens and a final `>` cover the subjects that begin with those tokens and have more. */
  lemma {:induction false} TailCovers(p: seq<Text>, ts: seq<Text>)
    requires p != [] && p[|p| - 1] == ">" && forall i :: 0 <= i < |p| - 1 ==> Plain(p[i])
    ensures Covers(p, ts) <==> |ts| >= |p| && ts[..|p| - 1] == p[..|p| - 1]
    decreases |p|
  {
    if |p| == 1 {
      assert p == [">"];
    } else if ts != [] {
      TailCovers(p[1..], ts[1..]);
      assert p[..|p| - 1] == [p[0]] + p[1..][..|p| - 2];
      if |ts| >= |p| {
        assert ts[..|p| - 1] == [ts[0]] + ts[1..][..|p| - 2];
      }
    }
  }

  /** The subject begins with these tokens and has more. */
  ghost predicate Within(lead: seq<Text>, subject: Text) {
    |Tokens(subject)| > |lead| && Tokens(subject)[..|lead|] == lead
  }

  lemma OneThenMore(a: Text, subject: Text)
    requires Plain(a)
    ensures Covers(Tokens(a + "." + ">"), Tokens(subject)) <==> Within([a], subject)
  {
    hide Tokens, Covers;
    var tail: Text := ">";
    TokensOfOne(tail);
    TokensCons(a, tail);
    assert [a] + [tail] == [a, tail] && [a, tail][..1] == [a];
    TailCovers([a, tail], Tokens(subject));
  }

  lemma TwoThenMore(a: Text, b: Text, subject: Text)
    requires Plain(a) && Plain(b)
    ensures Covers(Tokens(a + "." + (b + "." + ">")), Tokens(subject)) <==> Within([a, b], subject)
  {
    hide Tokens, Covers;
    var tail: Text := ">";
    TokensOfOne(tail);
    TokensCons(b, tail);
    TokensCons(a, b + "." + tail);
    assert [a] + ([b] + [tail]) == [a, b, tail] && [a, b, tail][..2] == [a, b];
    TailCovers([a, b, tail], Tokens(subject));
  }

  /** A cluster's user may subscribe to reply inboxes and nothing else. */
  lemma LeafSubscribesInboxIff(cluster: Text, public: Text, subject: Text)
    ensures MaySubscribe(NkeyUser(cluster, public), subject) <==> Within(["_INBOX"], subject)
  {
    hide Tokens, Covers, Within;
    Inbox(subject);
    assert NkeyUser(cluster, public).subscribe == ["_INBOX.>"];
  }

  lemma Inbox(subject: Text)
    ensures Covers(Tokens("_INBOX.>"), Tokens(subject)) <==> Within(["_INBOX"], subject)
  {
    hide Tokens, Covers, Within;
    var inbox: Text := "_INBOX";
    assert |inbox| == 6 && Plain(inbox);
    OneThenMore(inbox, subject);
    assert inbox + "." + ">" == "_INBOX.>";
  }

  lemma Telemetry(subject: Text)
    ensures Covers(Tokens("o11y.>"), Tokens(subject)) <==> Within(["o11y"], subject)
  {
    hide Tokens, Covers, Within;
    var o: Text := "o11y";
    assert |o| == 4 && Plain(o);
    OneThenMore(o, subject);
    assert o + "." + ">" == "o11y.>";
  }

  lemma JetStream(kind: Text, subject: Text)
    requires kind == "API" || kind == "ACK"
    ensures Covers(Tokens("$JS." + kind + ".>"), Tokens(subject)) <==> Within(["$JS", kind], subject)
  {
    hide Tokens, Covers, Within;
    var js: Text := "$JS";
    assert |js| == 3 && Plain(js) && |kind| == 3 && Plain(kind);
    TwoThenMore(js, kind, subject);
    assert js + "." + (kind + "." + ">") == "$JS." + kind + ".>";
  }

  /** The first user without a key may do anything. */
  lemma NackMayAll(subject: Text)
    ensures STATIC_USERS[0].name == Some("CN=nack.nats.client") && STATIC_USERS[0].nkey.None?
    ensures MayPublish(STATIC_USERS[0], subject) && MaySubscribe(STATIC_USERS[0], subject)
  {
    var all: Text := ">";
    TokensOfOne(all);
    assert Covers([all], Tokens(subject));
    hide Tokens, Covers;
    assert all in STATIC_USERS[0].publish.value && all in STATIC_USERS[0].subscribe;
  }

  /**
   The other, the sink, may subscribe to telemetry and inboxes, and publish to the JetStream API and
   acknowledgements, and nothing else.
   */
  lemma SinkMayIff(subject: Text)
    ensures |STATIC_USERS| == 2
    ensures STATIC_USERS[1].name == Some("CN=o11y-sink-nats-client") && STATIC_USERS[1].nkey.None?
    ensures MayPublish(STATIC_USERS[1], subject) <==>
            Within(["$JS", "API"], subject) || Within(["$JS", "ACK"], subject)
    ensures MaySubscribe(STATIC_USERS[1], subject) <==> Within(["o11y"], subject) || Within(["_INBOX"], subject)
  {
    hide *;
    JetStream("API", subject);
    JetStream("ACK", subject);
    SinkSubjects();
    TwoPatterns(STATIC_USERS[1], "$JS." + "API" + ".>", "$JS." + "ACK" + ".>", "o11y.>", "_INBOX.>", subject);
    Telemetry(subject);
    Inbox(subject);
  }

  lemma SinkSubjects()
    ensures |STATIC_USERS| == 2
    ensures STATIC_USERS[1].name == Some("CN=o11y-sink-nats-client") && STATIC_USERS[1].nkey.None?
    ensures STATIC_USERS[1].publish == Some(["$JS." + "API" + ".>", "$JS." + "ACK" + ".>"])
    ensures STATIC_USERS[1].subscribe == ["o11y.>", "_INBOX.>"]
  {
    assert "$JS." + "API" + ".>" == "$JS.API.>" && "$JS." + "ACK" + ".>" == "$JS.ACK.>";
  }

  lemma TwoPatterns(u: User, a: Text, b: Text, c: Text, d: Text, subject: Text)
    requires u.publish == Some([a, b]) && u.subscribe == [c, d]
    ensures MayPublish(u, subject) <==> Covers(Tokens(a), Tokens(subject)) || Covers(Tokens(b), Tokens(subject))
    ensures MaySubscribe(u, subject) <==> Covers(Tokens(c), Tokens(subject)) || Covers(Tokens(d), Tokens(subject))
  {
    hide Tokens, Covers;
    assert a in [a, b] && b in [a, b] && c in [c, d] && d in [c, d];
  }

  /** The sink may subscribe to whatever a cluster may publish. */
  lemma SinkHearsLeaves(cluster: Text, subject: Text)
    requires ValidClusterName(cluster) && TelemetryOf(cluster, subject)
    ensures MaySubscribe(STATIC_USERS[1], subject)
  {
    hide ValidClusterName, Tokens, TelemetryOf, MaySubscribe, Plain;
    NamesArePlain(cluster);
    TelemetryNames(cluster, subject);
    assert Tokens(subject)[..1] == ["o11y"];
    SinkMayIff(subject);
  }

  /** A cluster's name is a DNS label: lower-case letters, digits and inner dashes, at most 63 of them. */
  lemma ValidNameIff(name: Text)
    ensures ValidClusterName(name) <==>
            && 0 < |name| < 64 && name[0] != '-' && name[|name| - 1] != '-'
            && forall i :: 0 <= i < |name| ==>
                 name[i] in "abcdefghijklmnopqrstuvwxyz" || name[i] in "0123456789" || name[i] == '-'
  {
    forall i | 0 <= i < |name|
      ensures AlphaNum(name[i]) <==> name[i] in "abcdefghijklmnopqrstuvwxyz" || name[i] in "0123456789"
    {
      LowerLetters(name[i]);
    }
  }
}
