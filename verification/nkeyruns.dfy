/** What a run of the NKey generator keeps, publishes and refuses, and what holds over whole histories. */
module NkeyRuns {
  import opened Texts
  import opened Nkeys

  // ---- Stored Secrets ---------------------------------------------------------------------------------

  /** Every Secret of `a` is in `b`, unchanged. */
  ghost predicate Keeps(a: map<Text, Secret>, b: map<Text, Secret>) {
    forall c :: c in a ==> c in b && b[c] == a[c]
  }

  /** Provisioning only adds Secrets, and leaves the ConfigMap alone. */
  ghost predicate Extends(a: Api, b: Api) {
    Keeps(a.secrets, b.secrets) && a.pushed <= b.pushed && b.config == a.config && a.calls <= b.calls
  }

  /** Another writer creates the cluster's Secret first, with another key than the one generated for it. */
  ghost predicate LostRace(api: Api, world: World, cluster: Text) {
    var call := api.calls + 1;
    && cluster !in api.secrets && world.keys(call).Some? && world.rivals(call).Some?
    && PublicOf(world.rivals(call).value) != world.keys(call).value.public
  }

  /** The key a cluster gets: the one in its Secret, under the first name or else the second, or a new one. */
  function KeyIn(api: Api, world: World, cluster: Text): Text {
    if cluster in api.secrets && api.secrets[cluster].public != [] then api.secrets[cluster].public
    else if cluster in api.secrets then api.secrets[cluster].nkey
    else if world.keys(api.calls + 1).Some? then world.keys(api.calls + 1).value.public
    else []
  }

  /** A returned key is the stored one exactly when no other writer stored a different key first. */
  lemma EnsureKeyReturnsStoredIff(api: Api, world: World, cluster: Text)
    ensures var r := EnsureKey(api, world, cluster);
            && Extends(api, r.api)
            && (r.outcome.Ok? ==>
              && cluster in r.api.secrets && cluster in r.api.pushed && r.outcome.value == KeyIn(api, world, cluster)
              && (r.outcome.value == PublicOf(r.api.secrets[cluster]) <==> !LostRace(api, world, cluster)))
  {
  }

  /** No other writer creates Secrets. */
  ghost predicate Alone(world: World) {
    forall n :: world.rivals(n).None?
  }

  /** The leaf users of the listed clusters, with the keys stored for them. */
  function Planned(secrets: map<Text, Secret>, clusters: seq<Text>): seq<User> {
    if clusters == [] then []
    else
      var c, rest := clusters[0], Planned(secrets, clusters[1..]);
      if !ValidClusterName(c) then rest
      else [NkeyUser(c, if c in secrets then PublicOf(secrets[c]) else [])] + rest
  }

  ghost predicate Provisioned(api: Api, clusters: seq<Text>) {
    forall c :: c in clusters && ValidClusterName(c) ==> c in api.secrets && c in api.pushed
  }

  lemma {:induction false} ProvisionExtends(api: Api, world: World, clusters: seq<Text>, users: seq<User>)
    ensures var r := Provision(api, world, clusters, users);
            && Extends(api, r.api)
            && (r.outcome.Ok? ==> Provisioned(r.api, clusters) && users <= r.outcome.value)
    decreases |clusters|
  {
    hide EnsureKey, NkeyUser, ValidClusterName;
    if clusters != [] {
      if ValidClusterName(clusters[0]) {
        EnsureKeyReturnsStoredIff(api, world, clusters[0]);
        var key := EnsureKey(api, world, clusters[0]);
        if key.outcome.Ok? {
          ProvisionExtends(key.api, world, clusters[1..], users + [NkeyUser(clusters[0], key.outcome.value)]);
        }
      } else {
        ProvisionExtends(api, world, clusters[1..], users);
      }
    }
  }

  lemma {:induction false} ProvisionPlans(api: Api, world: World, clusters: seq<Text>, users: seq<User>)
    requires Alone(world)
    ensures var r := Provision(api, world, clusters, users);
            r.outcome.Ok? ==> r.outcome.value == users + Planned(r.api.secrets, clusters)
    decreases |clusters|
  {
    hide EnsureKey, NkeyUser, ValidClusterName;
    if clusters != [] {
      var c := clusters[0];
      if ValidClusterName(c) {
        EnsureKeyReturnsStoredIff(api, world, c);
        var key := EnsureKey(api, world, c);
        if key.outcome.Ok? {
          var next := users + [NkeyUser(c, key.outcome.value)];
          ProvisionPlans(key.api, world, clusters[1..], next);
          ProvisionExtends(key.api, world, clusters[1..], next);
          var r := Provision(api, world, clusters, users);
          if r.outcome.Ok? {
            Regroup(users, [NkeyUser(c, key.outcome.value)], Planned(r.api.secrets, clusters[1..]));
          }
        }
      } else {
        ProvisionPlans(api, world, clusters[1..], users);
      }
    }
  }

  // ---- The guard --------------------------------------------------------------------------------------

  /** The clusters of keys in `prev` that `have` lacks and whose Secret is stored. */
  function Lost(prev: seq<User>, have: set<Text>, secrets: map<Text, Secret>): seq<Text> {
    if prev == [] then []
    else
      var u, rest := prev[0], Lost(prev[1..], have, secrets);
      if u.nkey.None? || u.nkey.value in have || ClusterFromUser(u, u.nkey.value) !in secrets then rest
      else [ClusterFromUser(u, u.nkey.value)] + rest
  }

  /** The key of `u` may go: it is still listed, or its cluster has no Secret. */
  ghost predicate MayGo(u: User, have: set<Text>, secrets: map<Text, Secret>) {
    u.nkey.Some? ==> u.nkey.value in have || ClusterFromUser(u, u.nkey.value) !in secrets
  }

  lemma {:induction false} NoneLostIff(prev: seq<User>, have: set<Text>, secrets: map<Text, Secret>)
    ensures Lost(prev, have, secrets) == [] <==> forall u :: u in prev ==> MayGo(u, have, secrets)
  {
    hide ClusterFromUser;
    if prev != [] {
      NoneLostIff(prev[1..], have, secrets);
      assert prev == [prev[0]] + prev[1..];
      assert Lost(prev, have, secrets) == [] <==>
        MayGo(prev[0], have, secrets) && Lost(prev[1..], have, secrets) == [];
    }
  }

  /** The guard changes nothing; when it answers, it answers with the lost clusters. */
  lemma {:induction false} DroppedIsLost(api: Api, world: World, prev: seq<User>, have: set<Text>, sofar: seq<Text>)
    ensures var r := Dropped(api, world, prev, have, sofar);
            && r.api == api.(calls := r.api.calls) && api.calls <= r.api.calls
            && (r.outcome.Ok? ==> r.outcome.value == sofar + Lost(prev, have, api.secrets))
            && (r.outcome.Err? ==> exists n :: api.calls <= n && world.fails(n) && r.outcome.error == ApiFailed)
    decreases |prev|
  {
    hide ClusterFromUser;
    if prev != [] {
      var u := prev[0];
      if u.nkey.None? || u.nkey.value in have {
        DroppedIsLost(api, world, prev[1..], have, sofar);
      } else if !world.fails(api.calls) {
        var c := ClusterFromUser(u, u.nkey.value);
        var next := if c in api.secrets then sofar + [c] else sofar;
        DroppedIsLost(Called(api), world, prev[1..], have, next);
        if c in api.secrets {
          Regroup(sofar, [c], Lost(prev[1..], have, api.secrets));
        }
      }
    }
  }

  /** The users a run reads back before it writes. */
  function Prior(api: Api, world: World): seq<User> {
    PreviousUsers(api, world).outcome.value
  }

  /** Writing replaces the ConfigMap exactly when it succeeds, which needs every prior key to be allowed to go. */
  lemma WriteIsGuarded(api: Api, world: World, users: seq<User>)
    ensures var r := WriteConfigMap(api, world, users);
            && r.api.secrets == api.secrets && r.api.pushed == api.pushed && api.calls <= r.api.calls
            && r.api.config == (if r.outcome.Ok? then Users(users) else api.config)
            && (r.outcome.Ok? ==> forall u :: u in Prior(api, world) ==> MayGo(u, KeysOf(users), api.secrets))
  {
    hide Dropped, KeysOf, ClusterFromUser;
    var prev := PreviousUsers(api, world);
    DroppedIsLost(prev.api, world, prev.outcome.value, KeysOf(users), []);
    NoneLostIff(prev.outcome.value, KeysOf(users), api.secrets);
  }

  // ---- One run ----------------------------------------------------------------------------------------

  /** The state a run has reached when it turns to the ConfigMap; None when it stops earlier. */
  function AtWrite(api: Api, world: World, listing: Option<seq<Text>>): Option<Api> {
    if listing.None? then None
    else
      var p := Provision(api, world, listing.value, STATIC_USERS);
      if p.outcome.Err? then None else Some(p.api)
  }

  /** The run does not take a failed read of the ConfigMap for an empty one. */
  ghost predicate ReadsPrior(api: Api, world: World, listing: Option<seq<Text>>) {
    var at := AtWrite(api, world, listing);
    at.Some? ==> !world.fails(at.value.calls)
  }

  /** No run changes a stored Secret, and a run that does not succeed leaves the ConfigMap as it was. */
  lemma SyncKeepsSecrets(api: Api, world: World, listing: Option<seq<Text>>)
    ensures var r := Sync(api, world, listing);
            && Keeps(api.secrets, r.api.secrets) && api.calls <= r.api.calls
            && (r.outcome.Err? ==> r.api.config == api.config)
            && r.outcome != Err(NoUsers)
  {
    hide Provision, WriteConfigMap;
    if listing.Some? {
      ProvisionExtends(api, world, listing.value, STATIC_USERS);
      var p := Provision(api, world, listing.value, STATIC_USERS);
      if p.outcome.Ok? {
        WriteIsGuarded(p.api, world, p.outcome.value);
        WriteNeverEmpty(p.api, world, p.outcome.value);
        assert p.outcome.value[0] == STATIC_USERS[0];
      } else {
        ProvisionNeverEmpty(api, world, listing.value, STATIC_USERS);
      }
    }
  }

  lemma WriteNeverEmpty(api: Api, world: World, users: seq<User>)
    ensures WriteConfigMap(api, world, users).outcome != Err(NoUsers)
  {
    hide Dropped, KeysOf;
    var prev := PreviousUsers(api, world);
    DroppedIsLost(prev.api, world, prev.outcome.value, KeysOf(users), []);
  }

  lemma {:induction false} ProvisionNeverEmpty(api: Api, world: World, clusters: seq<Text>, users: seq<User>)
    ensures Provision(api, world, clusters, users).outcome != Err(NoUsers)
    decreases |clusters|
  {
    hide NkeyUser, ValidClusterName;
    if clusters != [] {
      if ValidClusterName(clusters[0]) {
        var key := EnsureKey(api, world, clusters[0]);
        if key.outcome.Ok? {
          ProvisionNeverEmpty(key.api, world, clusters[1..], users + [NkeyUser(clusters[0], key.outcome.value)]);
        }
      } else {
        ProvisionNeverEmpty(api, world, clusters[1..], users);
      }
    }
  }

  /** A successful run publishes the fixed users and, in order, every valid listed cluster's stored key. */
  lemma SyncPublishesStored(api: Api, world: World, clusters: seq<Text>)
    requires Alone(world)
    ensures var r := Sync(api, world, Some(clusters));
            r.outcome.Ok? ==>
              && r.api.config == Users(STATIC_USERS + Planned(r.api.secrets, clusters))
              && Provisioned(r.api, clusters)
  {
    hide Provision, WriteConfigMap, Planned;
    var p := Provision(api, world, clusters, STATIC_USERS);
    ProvisionExtends(api, world, clusters, STATIC_USERS);
    ProvisionPlans(api, world, clusters, STATIC_USERS);
    if p.outcome.Ok? {
      WriteIsGuarded(p.api, world, p.outcome.value);
    }
  }

  /** A published key leaves only in a run that misread the ConfigMap or found its cluster without a Secret. */
  lemma SyncKeepsKeys(api: Api, world: World, listing: Option<seq<Text>>, u: User)
    requires api.config.Users? && u in api.config.users && u.nkey.Some?
    requires ReadsPrior(api, world, listing)
    ensures var r := Sync(api, world, listing);
            && r.api.config.Users?
            && (u.nkey.value in KeysOf(r.api.config.users) || ClusterFromUser(u, u.nkey.value) !in r.api.secrets)
  {
    hide Provision, WriteConfigMap, ClusterFromUser;
    if listing.Some? {
      ProvisionExtends(api, world, listing.value, STATIC_USERS);
      var p := Provision(api, world, listing.value, STATIC_USERS);
      if p.outcome.Ok? {
        assert u in Prior(p.api, world);
        WriteIsGuarded(p.api, world, p.outcome.value);
        var r := WriteConfigMap(p.api, world, p.outcome.value);
        if r.outcome.Ok? {
          assert MayGo(u, KeysOf(p.outcome.value), p.api.secrets);
        }
      }
    }
  }

  // ---- Failures are reported ---------------------------------------------------------------------------

  /** No call from the first state up to the second failed. */
  ghost predicate Unfailing(world: World, a: Api, b: Api) {
    a.calls <= b.calls && forall n :: a.calls <= n < b.calls ==> !world.fails(n)
  }

  lemma EnsureKeyReports(api: Api, world: World, cluster: Text)
    ensures var r := EnsureKey(api, world, cluster); r.outcome.Ok? ==> Unfailing(world, api, r.api)
  {
  }

  lemma {:induction false} ProvisionReports(api: Api, world: World, clusters: seq<Text>, users: seq<User>)
    ensures var r := Provision(api, world, clusters, users); r.outcome.Ok? ==> Unfailing(world, api, r.api)
    decreases |clusters|
  {
    hide EnsureKey, NkeyUser, ValidClusterName;
    if clusters != [] {
      if ValidClusterName(clusters[0]) {
        EnsureKeyReports(api, world, clusters[0]);
        var key := EnsureKey(api, world, clusters[0]);
        if key.outcome.Ok? {
          ProvisionReports(key.api, world, clusters[1..], users + [NkeyUser(clusters[0], key.outcome.value)]);
        }
      } else {
        ProvisionReports(api, world, clusters[1..], users);
      }
    }
  }

  lemma {:induction false} DroppedReports(api: Api, world: World, prev: seq<User>, have: set<Text>, sofar: seq<Text>)
    ensures var r := Dropped(api, world, prev, have, sofar); r.outcome.Ok? ==> Unfailing(world, api, r.api)
    decreases |prev|
  {
    hide ClusterFromUser;
    if prev != [] {
      var u := prev[0];
      if u.nkey.None? || u.nkey.value in have {
        DroppedReports(api, world, prev[1..], have, sofar);
      } else {
        var c := ClusterFromUser(u, u.nkey.value);
        DroppedReports(Called(api), world, prev[1..], have, if c in api.secrets then sofar + [c] else sofar);
      }
    }
  }

  /** A run that reports success made no call that failed, unless it was the one reading the ConfigMap. */
  lemma SyncReportsFailures(api: Api, world: World, clusters: seq<Text>, n: nat)
    requires Sync(api, world, Some(clusters)).outcome.Ok?
    requires api.calls <= n < Sync(api, world, Some(clusters)).api.calls && world.fails(n)
    ensures AtWrite(api, world, Some(clusters)).Some? && n == AtWrite(api, world, Some(clusters)).value.calls
  {
    hide Provision, Dropped, KeysOf;
    var p := Provision(api, world, clusters, STATIC_USERS);
    ProvisionReports(api, world, clusters, STATIC_USERS);
    var prev := PreviousUsers(p.api, world);
    DroppedReports(prev.api, world, prev.outcome.value, KeysOf(p.outcome.value), []);
  }

  // ---- Runs without failures --------------------------------------------------------------------------

  /** From call `from` on nothing fails, keys are generated and no other writer interferes. */
  ghost predicate Calm(world: World, from: nat) {
    forall n :: from <= n ==>
      && !world.fails(n) && world.rivals(n).None?
      && world.keys(n).Some? && world.keys(n).value.public != []
  }

  /** No Secret of a listed cluster lacks its public key. */
  ghost predicate Keyed(secrets: map<Text, Secret>, clusters: seq<Text>) {
    forall c :: c in clusters && ValidClusterName(c) && c in secrets ==> PublicOf(secrets[c]) != []
  }

  /** The Secret holds the pair generated at call `n`: its seed, and its public key under both names. */
  ghost predicate HoldsPair(world: World, n: nat, secret: Secret) {
    && world.keys(n).Some? && secret.seed == world.keys(n).value.seed
    && secret.public == world.keys(n).value.public && secret.nkey == world.keys(n).value.public
  }

  lemma PairIsPublic(world: World, n: nat, secret: Secret)
    requires HoldsPair(world, n, secret)
    ensures PublicOf(secret) == world.keys(n).value.public
  {
  }

  /** The Secrets `b` has beyond `a` belong to listed clusters, each with a pair generated since. */
  ghost predicate Grown(a: Api, b: Api, world: World, clusters: seq<Text>) {
    forall d :: d in b.secrets && d !in a.secrets ==>
      && d in clusters && ValidClusterName(d)
      && exists n :: a.calls <= n < b.calls && HoldsPair(world, n, b.secrets[d])
  }

  lemma EnsureKeyCalm(api: Api, world: World, cluster: Text)
    requires Calm(world, api.calls)
    ensures var r := EnsureKey(api, world, cluster);
            && Extends(api, r.api)
            && (r.outcome.Err? <==> cluster in api.secrets && PublicOf(api.secrets[cluster]) == [])
            && (r.outcome.Err? ==> r.outcome.error == NoPublicKey)
            && (r.outcome.Ok? ==> r.outcome.value != [])
            && (r.outcome.Ok? ==> cluster in r.api.secrets && r.outcome.value == PublicOf(r.api.secrets[cluster]))
            && (forall d :: d in r.api.secrets && d != cluster ==> d in api.secrets)
            && (cluster !in api.secrets ==>
                  && r.outcome.Ok? && api.calls + 1 < r.api.calls
                  && HoldsPair(world, api.calls + 1, r.api.secrets[cluster]))
  {
  }

  lemma {:induction false} ProvisionCalm(api: Api, world: World, clusters: seq<Text>, users: seq<User>)
    requires Calm(world, api.calls)
    ensures var r := Provision(api, world, clusters, users);
            && Extends(api, r.api)
            && Grown(api, r.api, world, clusters)
            && (if Keyed(api.secrets, clusters)
                then r.outcome == Ok(users + Planned(r.api.secrets, clusters)) && Provisioned(r.api, clusters)
                else r.outcome == Err(NoPublicKey))
    decreases |clusters|
  {
    hide EnsureKey, NkeyUser, ValidClusterName, PublicOf;
    ProvisionExtends(api, world, clusters, users);
    if clusters == [] {
      assert users + [] == users;
    } else {
      var c, rest := clusters[0], clusters[1..];
      assert clusters == [c] + rest;
      if ValidClusterName(c) {
        EnsureKeyCalm(api, world, c);
        var key := EnsureKey(api, world, c);
        if key.outcome.Ok? {
          var next := users + [NkeyUser(c, key.outcome.value)];
          ProvisionCalm(key.api, world, rest, next);
          KeyedStep(api, key.api, clusters, key.outcome.value);
          var r := Provision(key.api, world, rest, next);
          GrownStep(api, key.api, r.api, world, clusters);
          if r.outcome.Ok? {
            Regroup(users, [NkeyUser(c, key.outcome.value)], Planned(r.api.secrets, rest));
          }
        }
      } else {
        ProvisionCalm(api, world, rest, users);
      }
    }
  }

  lemma KeyedStep(a: Api, b: Api, clusters: seq<Text>, public: Text)
    requires clusters != [] && clusters[0] in b.secrets && PublicOf(b.secrets[clusters[0]]) == public != []
    requires Keeps(a.secrets, b.secrets) && forall d :: d in b.secrets && d != clusters[0] ==> d in a.secrets
    ensures Keyed(a.secrets, clusters) <==> Keyed(b.secrets, clusters[1..])
  {
    hide PublicOf, ValidClusterName;
    assert clusters == [clusters[0]] + clusters[1..];
  }

  lemma GrownStep(a: Api, b: Api, c: Api, world: World, clusters: seq<Text>)
    requires clusters != [] && ValidClusterName(clusters[0]) && a.calls <= b.calls
    requires Extends(b, c) && Grown(b, c, world, clusters[1..])
    requires forall d :: d in b.secrets && d != clusters[0] ==> d in a.secrets
    requires clusters[0] in b.secrets
    requires clusters[0] !in a.secrets ==>
               a.calls + 1 < b.calls && HoldsPair(world, a.calls + 1, b.secrets[clusters[0]])
    ensures Grown(a, c, world, clusters)
  {
    hide HoldsPair, ValidClusterName;
    forall d | d in c.secrets && d !in a.secrets
      ensures d in clusters && ValidClusterName(d)
      ensures exists n :: a.calls <= n < c.calls && HoldsPair(world, n, c.secrets[d])
    {
      if d !in b.secrets {
        assert d in clusters[1..];
      }
    }
  }

  /** The users the ConfigMap holds. */
  function Current(api: Api): seq<User> {
    if api.config.Users? then api.config.users else []
  }

  lemma WriteCalm(api: Api, world: World, users: seq<User>)
    requires Calm(world, api.calls)
    ensures var lost := Lost(Current(api), KeysOf(users), api.secrets);
            WriteConfigMap(api, world, users).outcome == if lost == [] then Ok(()) else Err(WouldDrop(lost))
  {
    hide Dropped, KeysOf, Lost;
    var prev := PreviousUsers(api, world);
    DroppedIsLost(prev.api, world, prev.outcome.value, KeysOf(users), []);
    assert [] + Lost(Current(api), KeysOf(users), api.secrets) == Lost(Current(api), KeysOf(users), api.secrets);
  }

  lemma {:induction false} PlannedKeys(secrets: map<Text, Secret>, clusters: seq<Text>, k: Text)
    requires forall c :: c in clusters && ValidClusterName(c) ==> c in secrets
    ensures k in KeysOf(Planned(secrets, clusters)) <==>
            exists d :: d in clusters && ValidClusterName(d) && PublicOf(secrets[d]) == k
  {
    hide ValidClusterName, PublicOf;
    if clusters != [] {
      var c, rest := clusters[0], clusters[1..];
      assert clusters == [c] + rest;
      PlannedKeys(secrets, rest, k);
      if ValidClusterName(c) {
        KeysOfAppend([NkeyUser(c, PublicOf(secrets[c]))], Planned(secrets, rest));
      }
    }
  }

  lemma KeysOfAppend(a: seq<User>, b: seq<User>)
    ensures KeysOf(a + b) == KeysOf(a) + KeysOf(b)
  {
  }

  /** The key is the stored one of some valid listed cluster. */
  ghost predicate Listed(api: Api, clusters: seq<Text>, k: Text) {
    exists d :: d in clusters && ValidClusterName(d) && d in api.secrets && PublicOf(api.secrets[d]) == k
  }

  /** The cluster has no Secret and the run will not make one. */
  ghost predicate Retired(api: Api, clusters: seq<Text>, c: Text) {
    c !in api.secrets && !(c in clusters && ValidClusterName(c))
  }

  /** Keys generated from here on are not among those published. */
  ghost predicate Novel(api: Api, world: World) {
    forall n :: api.calls <= n && world.keys(n).Some? ==> world.keys(n).value.public !in KeysOf(Current(api))
  }

  lemma NewKeysAreNovel(a: Api, b: Api, world: World, clusters: seq<Text>, k: Text)
    requires Grown(a, b, world, clusters) && Novel(a, world) && k in KeysOf(Current(a))
    ensures forall d :: d in b.secrets && d !in a.secrets ==> PublicOf(b.secrets[d]) != k
  {
    hide ValidClusterName, PublicOf, KeysOf;
    forall d | d in b.secrets && d !in a.secrets ensures PublicOf(b.secrets[d]) != k {
      var n :| a.calls <= n < b.calls && HoldsPair(world, n, b.secrets[d]);
      PairIsPublic(world, n, b.secrets[d]);
    }
  }

  lemma MayGoIff(a: Api, b: Api, world: World, clusters: seq<Text>, u: User)
    requires Keeps(a.secrets, b.secrets) && Grown(a, b, world, clusters) && Provisioned(b, clusters)
    requires Novel(a, world) && u in Current(a) && u.nkey.Some?
    ensures MayGo(u, KeysOf(STATIC_USERS + Planned(b.secrets, clusters)), b.secrets) <==>
            Listed(a, clusters, u.nkey.value) || Retired(a, clusters, ClusterFromUser(u, u.nkey.value))
  {
    hide ValidClusterName, PublicOf, ClusterFromUser, Planned;
    var k := u.nkey.value;
    assert k in KeysOf(Current(a));
    NewKeysAreNovel(a, b, world, clusters, k);
    PlannedKeys(b.secrets, clusters, k);
    KeysOfAppend(STATIC_USERS, Planned(b.secrets, clusters));
    assert KeysOf(STATIC_USERS) == {};
  }

  /**
   A run without failures writes exactly when every listed Secret has its key and every published key is
   either a listed cluster's stored key or belongs to a cluster with no Secret that is no longer listed.
   */
  lemma CalmSyncWritesIff(api: Api, world: World, clusters: seq<Text>)
    requires Calm(world, api.calls) && Novel(api, world)
    ensures Sync(api, world, Some(clusters)).outcome.Ok? <==>
            && Keyed(api.secrets, clusters)
            && forall u :: u in Current(api) && u.nkey.Some? ==>
                 Listed(api, clusters, u.nkey.value) || Retired(api, clusters, ClusterFromUser(u, u.nkey.value))
  {
    hide ValidClusterName, PublicOf, ClusterFromUser, Planned, Provision, WriteConfigMap, KeysOf;
    ProvisionCalm(api, world, clusters, STATIC_USERS);
    if Keyed(api.secrets, clusters) {
      var p := Provision(api, world, clusters, STATIC_USERS);
      var users := STATIC_USERS + Planned(p.api.secrets, clusters);
      assert users[0] == STATIC_USERS[0];
      WriteCalm(p.api, world, users);
      NoneLostIff(Current(api), KeysOf(users), p.api.secrets);
      forall u | u in Current(api) && u.nkey.Some?
        ensures MayGo(u, KeysOf(users), p.api.secrets) <==>
                Listed(api, clusters, u.nkey.value) || Retired(api, clusters, ClusterFromUser(u, u.nkey.value))
      {
        MayGoIff(api, p.api, world, clusters, u);
      }
    }
  }

  /** Generated keys have a public part. */
  ghost predicate MakesKeys(world: World) {
    forall n :: world.keys(n).Some? ==> world.keys(n).value.public != []
  }

  lemma EnsureKeyLeavesKey(api: Api, world: World, cluster: Text)
    requires Alone(world) && MakesKeys(world) && EnsureKey(api, world, cluster).outcome.Ok?
    ensures var r := EnsureKey(api, world, cluster);
            cluster in r.api.secrets && PublicOf(r.api.secrets[cluster]) != []
  {
  }

  lemma {:induction false} ProvisionLeavesKeyed(api: Api, world: World, clusters: seq<Text>, users: seq<User>)
    requires Alone(world) && MakesKeys(world)
    ensures var r := Provision(api, world, clusters, users);
            r.outcome.Ok? ==> Keyed(r.api.secrets, clusters)
    decreases |clusters|
  {
    hide EnsureKey, NkeyUser, ValidClusterName, PublicOf;
    if clusters != [] {
      var c, rest := clusters[0], clusters[1..];
      assert clusters == [c] + rest;
      if ValidClusterName(c) {
        var key := EnsureKey(api, world, c);
        if key.outcome.Ok? {
          EnsureKeyLeavesKey(api, world, c);
          var next := users + [NkeyUser(c, key.outcome.value)];
          ProvisionLeavesKeyed(key.api, world, rest, next);
          ProvisionExtends(key.api, world, rest, next);
        }
      } else {
        ProvisionLeavesKeyed(api, world, rest, users);
      }
    }
  }

  /** A successful run repeated on the same listing, nothing failing, succeeds and changes neither keys nor users. */
  lemma SyncAgainIsStable(api: Api, world: World, clusters: seq<Text>, later: World)
    requires Alone(world) && MakesKeys(world) && Sync(api, world, Some(clusters)).outcome.Ok?
    requires Calm(later, Sync(api, world, Some(clusters)).api.calls)
    ensures var first := Sync(api, world, Some(clusters)).api;
            var again := Sync(first, later, Some(clusters));
            again.outcome.Ok? && again.api.secrets == first.secrets && again.api.config == first.config
  {
    hide ValidClusterName, PublicOf, ClusterFromUser, Planned, Provision, WriteConfigMap, Lost, KeysOf;
    SyncPublishesStored(api, world, clusters);
    ProvisionLeavesKeyed(api, world, clusters, STATIC_USERS);
    var p := Provision(api, world, clusters, STATIC_USERS);
    WriteIsGuarded(p.api, world, p.outcome.value);
    StableWhenPublished(Sync(api, world, Some(clusters)).api, later, clusters);
  }

  lemma StableWhenPublished(api: Api, world: World, clusters: seq<Text>)
    requires Calm(world, api.calls) && Keyed(api.secrets, clusters) && Provisioned(api, clusters)
    requires api.config == Users(STATIC_USERS + Planned(api.secrets, clusters))
    ensures var again := Sync(api, world, Some(clusters));
            again.outcome.Ok? && again.api.secrets == api.secrets && again.api.config == api.config
  {
    hide ValidClusterName, PublicOf, ClusterFromUser, Planned, Provision, WriteConfigMap, Lost;
    ProvisionCalm(api, world, clusters, STATIC_USERS);
    var p := Provision(api, world, clusters, STATIC_USERS);
    assert p.api.secrets == api.secrets;
    var users := STATIC_USERS + Planned(api.secrets, clusters);
    assert users[0] == STATIC_USERS[0];
    WriteCalm(p.api, world, users);
    WriteIsGuarded(p.api, world, users);
    NoneLostIff(users, KeysOf(users), api.secrets);
  }

  lemma CalmGrows(api: Api, world: World, clusters: seq<Text>)
    requires Calm(world, api.calls)
    ensures Grown(api, Sync(api, world, Some(clusters)).api, world, clusters)
  {
    hide Provision, WriteConfigMap, HoldsPair, ValidClusterName, Planned;
    ProvisionCalm(api, world, clusters, STATIC_USERS);
    var p := Provision(api, world, clusters, STATIC_USERS);
    if p.outcome.Ok? {
      WriteIsGuarded(p.api, world, p.outcome.value);
    }
  }

  /**
   Deleting the Secret of a cluster that is still listed does not rotate its key: the next runs make a new
   key and then refuse, for as long as that listing stands.
   */
  lemma RotationIsRefused(api: Api, world: World, clusters: seq<Text>, u: User)
    requires Calm(world, api.calls) && Novel(api, world)
    requires u in Current(api) && u.nkey.Some?
    requires !Listed(api, clusters, u.nkey.value)
    requires var c := ClusterFromUser(u, u.nkey.value); c in clusters && ValidClusterName(c)
    ensures var r := Sync(api, world, Some(clusters));
            && r.outcome.Err? && r.api.config == api.config
            && u in Current(r.api) && !Listed(r.api, clusters, u.nkey.value)
  {
    hide ValidClusterName, PublicOf, ClusterFromUser, Sync, Listed, Grown, Calm, Novel;
    CalmSyncWritesIff(api, world, clusters);
    SyncKeepsSecrets(api, world, Some(clusters));
    CalmGrows(api, world, clusters);
    KeyIsCurrent(api, u);
    ListedBefore(api, Sync(api, world, Some(clusters)).api, world, clusters, u.nkey.value);
  }

  // ---- Which keys a run drops -------------------------------------------------------------------------

  lemma {:induction false} ProvisionGrows(api: Api, world: World, clusters: seq<Text>, users: seq<User>)
    requires Alone(world)
    ensures Grown(api, Provision(api, world, clusters, users).api, world, clusters)
    decreases |clusters|
  {
    hide EnsureKey, NkeyUser, ValidClusterName, PublicOf;
    if clusters != [] {
      var c, rest := clusters[0], clusters[1..];
      assert clusters == [c] + rest;
      if ValidClusterName(c) {
        EnsureKeyGrows(api, world, c);
        var key := EnsureKey(api, world, c);
        if key.outcome.Ok? {
          var next := users + [NkeyUser(c, key.outcome.value)];
          ProvisionGrows(key.api, world, rest, next);
          ProvisionExtends(key.api, world, rest, next);
          GrownStep(api, key.api, Provision(key.api, world, rest, next).api, world, clusters);
        }
      } else {
        ProvisionGrows(api, world, rest, users);
      }
    }
  }

  lemma EnsureKeyGrows(api: Api, world: World, cluster: Text)
    requires Alone(world)
    ensures var r := EnsureKey(api, world, cluster);
            && api.calls <= r.api.calls
            && (forall d :: d in r.api.secrets && d != cluster ==> d in api.secrets)
            && (cluster in r.api.secrets && cluster !in api.secrets ==>
                  api.calls + 1 < r.api.calls && HoldsPair(world, api.calls + 1, r.api.secrets[cluster]))
            && (r.outcome.Ok? ==> cluster in r.api.secrets)
  {
  }

  /** Of the keys published before, a run leaves listed what was listed. */
  lemma ListedBefore(a: Api, b: Api, world: World, clusters: seq<Text>, k: Text)
    requires Keeps(a.secrets, b.secrets) && Grown(a, b, world, clusters)
    requires Novel(a, world) && k in KeysOf(Current(a))
    ensures Listed(b, clusters, k) <==> Listed(a, clusters, k)
  {
    hide ValidClusterName, PublicOf, KeysOf;
    NewKeysAreNovel(a, b, world, clusters, k);
    if d :| d in clusters && ValidClusterName(d) && d in a.secrets && PublicOf(a.secrets[d]) == k {
      assert d in b.secrets && PublicOf(b.secrets[d]) == k;
    }
  }

  /** What a successful run publishes, its read of the ConfigMap failed or not: the listed clusters' stored keys. */
  lemma PublishedAfterIff(api: Api, world: World, clusters: seq<Text>, k: Text)
    requires Alone(world) && Sync(api, world, Some(clusters)).outcome.Ok?
    ensures var after := Sync(api, world, Some(clusters)).api;
            k in KeysOf(Current(after)) <==> Listed(after, clusters, k)
  {
    hide ValidClusterName, PublicOf, Planned, Provision, WriteConfigMap, Sync, KeysOf;
    var after := Sync(api, world, Some(clusters)).api;
    SyncPublishesStored(api, world, clusters);
    PlannedKeys(after.secrets, clusters, k);
    KeysOfAppend(STATIC_USERS, Planned(after.secrets, clusters));
    NoStaticKeys();
  }

  lemma NoStaticKeys()
    ensures KeysOf(STATIC_USERS) == {}
  {
  }

  /** A published key is still published after a run exactly when the run failed or the key is a listed cluster's. */
  lemma PublishedSurvivesIff(api: Api, world: World, clusters: seq<Text>, k: Text)
    requires Alone(world) && Novel(api, world) && k in KeysOf(Current(api))
    ensures var r := Sync(api, world, Some(clusters));
            k in KeysOf(Current(r.api)) <==> r.outcome.Err? || Listed(api, clusters, k)
  {
    hide ValidClusterName, PublicOf, Provision, WriteConfigMap, KeysOf;
    var r := Sync(api, world, Some(clusters));
    SyncKeepsSecrets(api, world, Some(clusters));
    if r.outcome.Ok? {
      PublishedAfterIff(api, world, clusters, k);
      ProvisionGrows(api, world, clusters, STATIC_USERS);
      var p := Provision(api, world, clusters, STATIC_USERS);
      ProvisionExtends(api, world, clusters, STATIC_USERS);
      WriteIsGuarded(p.api, world, p.outcome.value);
      ListedBefore(api, r.api, world, clusters, k);
    }
  }

  /** The run takes no published key away whose cluster has its Secret. */
  ghost predicate KeepsGuarded(api: Api, world: World, clusters: seq<Text>) {
    var after := Sync(api, world, Some(clusters)).api;
    forall u :: u in Current(api) && u.nkey.Some? && ClusterFromUser(u, u.nkey.value) in after.secrets ==>
      u.nkey.value in KeysOf(Current(after))
  }

  /** A published key that is no listed cluster's, while its own cluster has or will have a Secret. */
  ghost predicate AtRisk(api: Api, clusters: seq<Text>, u: User) {
    && u in Current(api) && u.nkey.Some? && !Listed(api, clusters, u.nkey.value)
    && !Retired(api, clusters, ClusterFromUser(u, u.nkey.value))
  }

  lemma ReadGuards(api: Api, world: World, clusters: seq<Text>)
    requires ReadsPrior(api, world, Some(clusters))
    ensures KeepsGuarded(api, world, clusters)
  {
    hide Sync, ClusterFromUser, ReadsPrior;
    forall u | u in Current(api) && u.nkey.Some? &&
               ClusterFromUser(u, u.nkey.value) in Sync(api, world, Some(clusters)).api.secrets
      ensures u.nkey.value in KeysOf(Current(Sync(api, world, Some(clusters)).api))
    {
      SyncKeepsKeys(api, world, Some(clusters), u);
    }
  }

  /** After a successful run the clusters with a Secret are those that had one and those listed. */
  lemma SecretAfterIff(api: Api, world: World, clusters: seq<Text>, c: Text)
    requires Alone(world) && Sync(api, world, Some(clusters)).outcome.Ok?
    ensures c in Sync(api, world, Some(clusters)).api.secrets <==> !Retired(api, clusters, c)
  {
    hide ValidClusterName, PublicOf, Provision, WriteConfigMap;
    var p := Provision(api, world, clusters, STATIC_USERS);
    ProvisionExtends(api, world, clusters, STATIC_USERS);
    ProvisionGrows(api, world, clusters, STATIC_USERS);
    WriteIsGuarded(p.api, world, p.outcome.value);
  }

  /**
   Exactly when a run takes no published key away whose cluster has its Secret: it read the ConfigMap, or
   it failed, or none of the published keys is at risk. Nothing else lets a run drop such a key.
   */
  lemma KeepsGuardedIff(api: Api, world: World, clusters: seq<Text>)
    requires Alone(world) && Novel(api, world)
    ensures KeepsGuarded(api, world, clusters) <==>
            || ReadsPrior(api, world, Some(clusters))
            || Sync(api, world, Some(clusters)).outcome.Err?
            || forall u :: !AtRisk(api, clusters, u)
  {
    hide Sync, ClusterFromUser, ReadsPrior, Listed, Retired, KeysOf;
    var r := Sync(api, world, Some(clusters));
    if ReadsPrior(api, world, Some(clusters)) {
      ReadGuards(api, world, clusters);
    } else if r.outcome.Err? || forall u :: !AtRisk(api, clusters, u) {
      forall u | u in Current(api) && u.nkey.Some? && ClusterFromUser(u, u.nkey.value) in r.api.secrets
        ensures u.nkey.value in KeysOf(Current(r.api))
      {
        assert !AtRisk(api, clusters, u) || r.outcome.Err?;
        FateOfKey(api, world, clusters, u);
      }
    } else {
      var u :| AtRisk(api, clusters, u);
      FateOfKey(api, world, clusters, u);
    }
  }

  lemma FateOfKey(api: Api, world: World, clusters: seq<Text>, u: User)
    requires Alone(world) && Novel(api, world) && u in Current(api) && u.nkey.Some?
    ensures var r := Sync(api, world, Some(clusters));
            var c := ClusterFromUser(u, u.nkey.value);
            && (u.nkey.value in KeysOf(Current(r.api)) <==> r.outcome.Err? || Listed(api, clusters, u.nkey.value))
            && (r.outcome.Ok? ==> (c in r.api.secrets <==> !Retired(api, clusters, c)))
  {
    hide Sync, ClusterFromUser, Listed, Retired;
    KeyIsCurrent(api, u);
    PublishedSurvivesIff(api, world, clusters, u.nkey.value);
    if Sync(api, world, Some(clusters)).outcome.Ok? {
      SecretAfterIff(api, world, clusters, ClusterFromUser(u, u.nkey.value));
    }
  }

  /**
   The same, on what can be seen before the run writes: it stops before it reaches the ConfigMap, or it
   reads it, or one of the two calls that would write it fails, or none of the published keys is at risk.
   */
  lemma KeepsGuardedByCalls(api: Api, world: World, clusters: seq<Text>)
    requires Alone(world) && Novel(api, world)
    ensures var at := AtWrite(api, world, Some(clusters));
            KeepsGuarded(api, world, clusters) <==>
              || at.None?
              || !world.fails(at.value.calls)
              || world.fails(at.value.calls + 1)
              || world.fails(at.value.calls + 2)
              || forall u :: !AtRisk(api, clusters, u)
  {
    hide KeepsGuarded, AtRisk, Provision;
    KeepsGuardedIff(api, world, clusters);
    if AtWrite(api, world, Some(clusters)).Some? && !ReadsPrior(api, world, Some(clusters)) {
      MisreadIsUnguarded(api, world, clusters);
    }
  }

  lemma KeyIsCurrent(api: Api, u: User)
    requires u in Current(api) && u.nkey.Some?
    ensures u.nkey.value in KeysOf(Current(api))
  {
  }

  /** A run whose read of the ConfigMap failed is not guarded: it writes exactly when its next two calls succeed. */
  lemma MisreadIsUnguarded(api: Api, world: World, clusters: seq<Text>)
    requires AtWrite(api, world, Some(clusters)).Some? && !ReadsPrior(api, world, Some(clusters))
    ensures var at := AtWrite(api, world, Some(clusters)).value;
            Sync(api, world, Some(clusters)).outcome.Ok? <==> !world.fails(at.calls + 1) && !world.fails(at.calls + 2)
  {
    hide Provision, KeysOf;
    var p := Provision(api, world, clusters, STATIC_USERS);
    ProvisionExtends(api, world, clusters, STATIC_USERS);
    assert p.outcome.value[0] == STATIC_USERS[0];
  }

  /** A failed read of the ConfigMap passes for an empty one, and every published key can go. */
  lemma FailedReadDropsAll(api: Api, world: World)
    requires world.fails(api.calls) && !world.fails(api.calls + 1) && !world.fails(api.calls + 2)
    ensures !ReadsPrior(api, world, Some([]))
    ensures Sync(api, world, Some([])).outcome.Ok?
    ensures Sync(api, world, Some([])).api.config == Users(STATIC_USERS)
    ensures KeysOf(STATIC_USERS) == {}
  {
  }

  /** A create that finds another writer's Secret publishes a key that is stored nowhere. */
  lemma LostRacePublishesUnstored(api: Api, world: World, cluster: Text, rival: Secret)
    requires ValidClusterName(cluster) && cluster !in api.secrets && api.config.Missing?
    requires forall n :: !world.fails(n)
    requires world.keys(api.calls + 1).Some? && world.rivals(api.calls + 1) == Some(rival)
    requires PublicOf(rival) != world.keys(api.calls + 1).value.public
    ensures var r := Sync(api, world, Some([cluster]));
            && r.outcome.Ok? && r.api.secrets == api.secrets[cluster := rival]
            && r.api.config == Users(STATIC_USERS + [NkeyUser(cluster, world.keys(api.calls + 1).value.public)])
  {
    hide ValidClusterName, NkeyUser, PublicOf, EnsureKey, WriteConfigMap;
    LostRaceKey(api, world, cluster, rival);
    var key := EnsureKey(api, world, cluster);
    var users := STATIC_USERS + [NkeyUser(cluster, key.outcome.value)];
    assert [cluster][1..] == [] && users[0] == STATIC_USERS[0];
    assert Provision(key.api, world, [], users) == Step(key.api, Ok(users));
    WriteFirst(key.api, world, users);
  }

  lemma LostRaceKey(api: Api, world: World, cluster: Text, rival: Secret)
    requires cluster !in api.secrets && forall n :: !world.fails(n)
    requires world.keys(api.calls + 1).Some? && world.rivals(api.calls + 1) == Some(rival)
    ensures var r := EnsureKey(api, world, cluster);
            && r.outcome == Ok(world.keys(api.calls + 1).value.public)
            && r.api.secrets == api.secrets[cluster := rival] && r.api.config == api.config
  {
  }

  lemma WriteFirst(api: Api, world: World, users: seq<User>)
    requires api.config.Missing? && forall n :: !world.fails(n)
    ensures var r := WriteConfigMap(api, world, users);
            r.outcome.Ok? && r.api.secrets == api.secrets && r.api.config == Users(users)
  {
    hide KeysOf;
  }

  // ---- Histories --------------------------------------------------------------------------------------

  /** A run over a listing, or an operator deleting a cluster's Secret. */
  datatype Event = Run(listing: Option<seq<Text>>) | Delete(cluster: Text)

  function Apply(api: Api, world: World, e: Event): Api {
    match e
    case Run(listing) => Sync(api, world, listing).api
    case Delete(cluster) => api.(secrets := api.secrets - {cluster})
  }

  function After(api: Api, world: World, events: seq<Event>): Api
    decreases |events|
  {
    if events == [] then api else After(Apply(api, world, events[0]), world, events[1..])
  }

  /** A stored seed never changes, whatever fails and however often the generator runs. */
  lemma {:induction false} SeedsNeverChange(api: Api, world: World, events: seq<Event>, cluster: Text)
    requires cluster in api.secrets && Delete(cluster) !in events
    ensures cluster in After(api, world, events).secrets
    ensures After(api, world, events).secrets[cluster] == api.secrets[cluster]
    decreases |events|
  {
    hide Sync;
    if events != [] {
      var e := events[0];
      assert e in events;
      if e.Run? {
        SyncKeepsSecrets(api, world, e.listing);
      }
      SeedsNeverChange(Apply(api, world, e), world, events[1..], cluster);
    }
  }

  /** No other writer creates Secrets: a run adds only Secrets of valid listed clusters, each with its own new pair. */
  lemma SyncMakesPairs(api: Api, world: World, listing: Option<seq<Text>>)
    requires Alone(world)
    ensures Grown(api, Sync(api, world, listing).api, world, if listing.Some? then listing.value else [])
  {
    hide Provision, WriteConfigMap, ValidClusterName, HoldsPair;
    if listing.Some? {
      ProvisionGrows(api, world, listing.value, STATIC_USERS);
      ProvisionExtends(api, world, listing.value, STATIC_USERS);
      var p := Provision(api, world, listing.value, STATIC_USERS);
      if p.outcome.Ok? {
        WriteIsGuarded(p.api, world, p.outcome.value);
      }
    }
  }

  /** After any history every Secret is one there was at the start, unchanged, or holds a pair generated since. */
  lemma {:induction false} EverySecretIsAPair(api: Api, world: World, events: seq<Event>, cluster: Text)
    requires Alone(world) && cluster in After(api, world, events).secrets
    ensures var after := After(api, world, events);
            || (cluster in api.secrets && after.secrets[cluster] == api.secrets[cluster])
            || exists n :: api.calls <= n < after.calls && HoldsPair(world, n, after.secrets[cluster])
    decreases |events|
  {
    hide Sync, HoldsPair, ValidClusterName;
    if events != [] {
      var next := Apply(api, world, events[0]);
      EverySecretIsAPair(next, world, events[1..], cluster);
      AfterCalls(next, world, events[1..]);
      if events[0].Run? {
        SyncMakesPairs(api, world, events[0].listing);
        SyncKeepsSecrets(api, world, events[0].listing);
      }
    }
  }

  lemma {:induction false} AfterCalls(api: Api, world: World, events: seq<Event>)
    ensures api.calls <= After(api, world, events).calls
    decreases |events|
  {
    hide Sync;
    if events != [] {
      if events[0].Run? {
        SyncKeepsSecrets(api, world, events[0].listing);
      }
      AfterCalls(Apply(api, world, events[0]), world, events[1..]);
    }
  }

  // ---- No two clusters with one key -------------------------------------------------------------------

  /** Generated pairs are all different, and from here on different from those stored. */
  ghost predicate Unrepeated(api: Api, world: World) {
    && (forall n, m :: n != m && world.keys(n).Some? && world.keys(m).Some? ==>
          world.keys(n).value.public != world.keys(m).value.public)
    && (forall n, c :: api.calls <= n && world.keys(n).Some? && c in api.secrets ==>
          world.keys(n).value.public != PublicOf(api.secrets[c]))
  }

  /** No two clusters hold the same key. */
  ghost predicate OwnKeys(secrets: map<Text, Secret>) {
    forall c, d :: c in secrets && d in secrets && c != d ==> PublicOf(secrets[c]) != PublicOf(secrets[d])
  }

  lemma EnsureKeyOwn(api: Api, world: World, cluster: Text)
    requires Alone(world) && Unrepeated(api, world) && OwnKeys(api.secrets)
    ensures var r := EnsureKey(api, world, cluster); Unrepeated(r.api, world) && OwnKeys(r.api.secrets)
  {
    hide EnsureKey, PublicOf, HoldsPair;
    EnsureKeyGrows(api, world, cluster);
    EnsureKeyReturnsStoredIff(api, world, cluster);
    var r := EnsureKey(api, world, cluster);
    if cluster in r.api.secrets && cluster !in api.secrets {
      PairIsPublic(world, api.calls + 1, r.api.secrets[cluster]);
    }
  }

  lemma {:induction false} ProvisionOwn(api: Api, world: World, clusters: seq<Text>, users: seq<User>)
    requires Alone(world) && Unrepeated(api, world) && OwnKeys(api.secrets)
    ensures var r := Provision(api, world, clusters, users); Unrepeated(r.api, world) && OwnKeys(r.api.secrets)
    decreases |clusters|
  {
    hide EnsureKey, NkeyUser, ValidClusterName, Unrepeated, OwnKeys;
    if clusters != [] {
      if ValidClusterName(clusters[0]) {
        EnsureKeyOwn(api, world, clusters[0]);
        var key := EnsureKey(api, world, clusters[0]);
        if key.outcome.Ok? {
          ProvisionOwn(key.api, world, clusters[1..], users + [NkeyUser(clusters[0], key.outcome.value)]);
        }
      } else {
        ProvisionOwn(api, world, clusters[1..], users);
      }
    }
  }

  lemma SyncOwn(api: Api, world: World, listing: Option<seq<Text>>)
    requires Alone(world) && Unrepeated(api, world) && OwnKeys(api.secrets)
    ensures var r := Sync(api, world, listing); Unrepeated(r.api, world) && OwnKeys(r.api.secrets)
  {
    hide Provision, WriteConfigMap, PublicOf;
    if listing.Some? {
      ProvisionOwn(api, world, listing.value, STATIC_USERS);
      var p := Provision(api, world, listing.value, STATIC_USERS);
      if p.outcome.Ok? {
        WriteIsGuarded(p.api, world, p.outcome.value);
      }
    }
  }

  /** Through any history of runs, failures and deletions no two clusters come to share a key. */
  lemma {:induction false} ClustersNeverShareKeys(api: Api, world: World, events: seq<Event>)
    requires Alone(world) && Unrepeated(api, world) && OwnKeys(api.secrets)
    ensures OwnKeys(After(api, world, events).secrets) && Unrepeated(After(api, world, events), world)
    decreases |events|
  {
    hide Sync, PublicOf;
    if events != [] {
      if events[0].Run? {
        SyncOwn(api, world, events[0].listing);
      }
      ClustersNeverShareKeys(Apply(api, world, events[0]), world, events[1..]);
    }
  }

  /** However often the generator runs on that listing, the deleted Secret's old key stays published. */
  lemma {:induction false} RotationNeverCompletes(
    api: Api, world: World, clusters: seq<Text>, u: User, events: seq<Event>)
    requires Calm(world, api.calls) && Novel(api, world)
    requires u in Current(api) && u.nkey.Some?
    requires !Listed(api, clusters, u.nkey.value)
    requires var c := ClusterFromUser(u, u.nkey.value); c in clusters && ValidClusterName(c)
    requires forall e :: e in events ==> e == Run(Some(clusters))
    ensures After(api, world, events).config == api.config
    decreases |events|
  {
    hide Sync, ValidClusterName, ClusterFromUser, PublicOf, KeysOf;
    if events != [] {
      assert events[0] in events && forall e :: e in events[1..] ==> e in events;
      RotationIsRefused(api, world, clusters, u);
      SyncKeepsSecrets(api, world, Some(clusters));
      RotationNeverCompletes(Apply(api, world, events[0]), world, clusters, u, events[1..]);
    }
  }

  /** No run of the history takes a failed read for an empty ConfigMap. */
  ghost predicate AlwaysReadsPrior(api: Api, world: World, events: seq<Event>)
    decreases |events|
  {
    events != [] ==>
      && (events[0].Run? ==> ReadsPrior(api, world, events[0].listing))
      && AlwaysReadsPrior(Apply(api, world, events[0]), world, events[1..])
  }

  /** No cluster but `c` holds key `k` or comes to hold it. */
  ghost predicate Exclusive(api: Api, world: World, c: Text, k: Text) {
    && (forall d :: d in api.secrets && d != c ==> PublicOf(api.secrets[d]) != k)
    && (forall n :: api.calls <= n && world.keys(n).Some? ==> world.keys(n).value.public != k)
    && (forall n :: api.calls <= n && world.rivals(n).Some? ==> PublicOf(world.rivals(n).value) != k)
  }

  /** Every user carrying `k` is cluster `c`'s. */
  ghost predicate Owned(users: seq<User>, c: Text, k: Text) {
    forall u :: u in users && u.nkey == Some(k) ==> ClusterFromUser(u, k) == c
  }

  /** Key `k` is published for `c`, which has its Secret, and for `c` alone. */
  ghost predicate Published(api: Api, world: World, c: Text, k: Text) {
    && c in api.secrets && Exclusive(api, world, c, k)
    && api.config.Users? && k in KeysOf(api.config.users) && Owned(api.config.users, c, k)
  }

  lemma PushedKeeps(api: Api, world: World, cluster: Text, public: Text)
    ensures var r := Pushed(api, world, cluster, public);
            && r.api.secrets == api.secrets && api.calls <= r.api.calls
            && (r.outcome.Ok? ==> r.outcome.value == public)
  {
  }

  lemma EnsureKeyExclusive(api: Api, world: World, cluster: Text, c: Text, k: Text)
    requires Exclusive(api, world, c, k)
    ensures var r := EnsureKey(api, world, cluster);
            Exclusive(r.api, world, c, k) && (r.outcome == Ok(k) && c in api.secrets ==> cluster == c)
  {
    hide Pushed, PublicOf;
    var read := Called(api);
    if cluster in api.secrets {
      PushedKeeps(read, world, cluster, PublicOf(api.secrets[cluster]));
    } else if world.keys(read.calls).Some? {
      var kp := world.keys(read.calls).value;
      var secret := Stored(world, read.calls, kp);
      PublicOfMade(kp);
      PushedKeeps(Called(read).(secrets := api.secrets[cluster := secret]), world, cluster, kp.public);
    }
  }

  lemma PublicOfMade(kp: KeyPair)
    ensures PublicOf(Secret(kp.seed, kp.public, kp.public)) == kp.public
  {
  }

  lemma {:induction false} ProvisionExclusive(
    api: Api, world: World, clusters: seq<Text>, users: seq<User>, c: Text, k: Text)
    requires Exclusive(api, world, c, k) && c in api.secrets && Owned(users, c, k)
    ensures var r := Provision(api, world, clusters, users);
            Exclusive(r.api, world, c, k) && (r.outcome.Ok? ==> Owned(r.outcome.value, c, k))
    decreases |clusters|
  {
    hide EnsureKey, ValidClusterName, ClusterFromUser, PublicOf, NkeyUser;
    if clusters != [] {
      var d := clusters[0];
      if ValidClusterName(d) {
        EnsureKeyExclusive(api, world, d, c, k);
        EnsureKeyReturnsStoredIff(api, world, d);
        var key := EnsureKey(api, world, d);
        if key.outcome.Ok? {
          var next := users + [NkeyUser(d, key.outcome.value)];
          OwnedAppend(users, d, key.outcome.value, c, k);
          ProvisionExclusive(key.api, world, clusters[1..], next, c, k);
        }
      } else {
        ProvisionExclusive(api, world, clusters[1..], users, c, k);
      }
    }
  }

  lemma OwnedAppend(users: seq<User>, d: Text, public: Text, c: Text, k: Text)
    requires Owned(users, c, k) && (public == k ==> d == c)
    ensures Owned(users + [NkeyUser(d, public)], c, k)
  {
    hide ClusterFromUser;
    ClusterReadsBack(d, public);
  }

  /** A run keeps a key published whose cluster has its Secret. */
  lemma SyncKeepsPublished(api: Api, world: World, listing: Option<seq<Text>>, c: Text, k: Text)
    requires Published(api, world, c, k) && ReadsPrior(api, world, listing)
    ensures Published(Sync(api, world, listing).api, world, c, k)
  {
    hide Provision, WriteConfigMap, ClusterFromUser, PublicOf;
    if listing.Some? {
      var u :| u in api.config.users && u.nkey == Some(k);
      SyncKeepsKeys(api, world, listing, u);
      SyncKeepsSecrets(api, world, listing);
      assert Owned(STATIC_USERS, c, k);
      ProvisionExclusive(api, world, listing.value, STATIC_USERS, c, k);
      ProvisionExtends(api, world, listing.value, STATIC_USERS);
      var p := Provision(api, world, listing.value, STATIC_USERS);
      if p.outcome.Ok? {
        WriteIsGuarded(p.api, world, p.outcome.value);
      }
    }
  }

  /**
   Through any history of runs, failures, changed listings and deletions of other clusters' Secrets, a key
   published for a cluster stays published until that cluster's Secret is deleted.
   */
  lemma {:induction false} PublishedStaysPublished(
    api: Api, world: World, events: seq<Event>, c: Text, k: Text)
    requires Published(api, world, c, k) && Delete(c) !in events
    requires AlwaysReadsPrior(api, world, events)
    ensures Published(After(api, world, events), world, c, k)
    decreases |events|
  {
    hide Sync, ReadsPrior, PublicOf, ClusterFromUser;
    if events != [] {
      var e := events[0];
      assert e in events;
      if e.Run? {
        SyncKeepsPublished(api, world, e.listing, c, k);
      }
      PublishedStaysPublished(Apply(api, world, e), world, events[1..], c, k);
    }
  }
}
