/**
 The NKey generator: per-cluster Secrets, the authorized-leafs ConfigMap, and the guard that keeps a
 published key from being dropped. Every API call may fail.
 */
module Nkeys {
  import opened Texts

  /** An account user; `publish` holds the string subjects, None when the block is not of that shape. */
  datatype User = User(name: Option<Text>, nkey: Option<Text>, publish: Option<seq<Text>>, subscribe: seq<Text>)

  datatype Secret = Secret(seed: Text, public: Text, nkey: Text)

  datatype KeyPair = KeyPair(seed: Text, public: Text)

  /** The authorized-leafs ConfigMap; unreadable stands for values that do not parse. */
  datatype ConfigMap = Missing | Unreadable | Users(users: seq<User>)

  /**
   Cluster state, and the number of API calls made so far. A Secret is named by a fixed prefix and its
   cluster, and so is the PushSecret mirroring it; both are keyed here by the cluster.
   */
  datatype Api = Api(secrets: map<Text, Secret>, pushed: set<Text>, config: ConfigMap, calls: nat)

  /**
   What the generator does not control, by call number: which calls fail, the key pairs generated (None
   when that fails), and Secrets another writer creates just ahead of ours.
   */
  datatype World = World(fails: nat -> bool, keys: nat -> Option<KeyPair>, rivals: nat -> Option<Secret>)

  datatype Error =
    | ListFailed | ApiFailed | NoPublicKey | KeyGenFailed | NoUsers | WouldDrop(clusters: seq<Text>)

  datatype Outcome<+T> = Ok(value: T) | Err(error: Error)

  /** The state after an operation, and how it ended. */
  datatype Step<+T> = Step(api: Api, outcome: Outcome<T>)

  predicate AlphaNum(c: Byte) {
    'a' <= c <= 'z' || '0' <= c <= '9'
  }

  /** A single DNS label. */
  predicate ValidClusterName(name: Text) {
    && 1 <= |name| <= 63
    && AlphaNum(name[0]) && AlphaNum(name[|name| - 1])
    && forall i :: 0 <= i < |name| ==> AlphaNum(name[i]) || name[i] == '-'
  }

  const LOGS_SUBJECT: Text := "o11y.logs."
  const SUBJECT_TAIL: Text := ".*"

  function NkeyUser(cluster: Text, public: Text): User {
    User(None, Some(public),
         Some([LOGS_SUBJECT + cluster + SUBJECT_TAIL,
               "o11y.metrics." + cluster + SUBJECT_TAIL,
               "o11y.traces." + cluster + SUBJECT_TAIL]),
         ["_INBOX.>"])
  }

  const STATIC_USERS: seq<User> :=
    [User(Some("CN=nack.nats.client"), None, Some([">"]), [">"]),
     User(Some("CN=o11y-sink-nats-client"), None, Some(["$JS.API.>", "$JS.ACK.>"]), ["o11y.>", "_INBOX.>"])]

  /** The cluster a logs publish subject names, if it is one. */
  function ClusterInSubject(subject: Text): Option<Text> {
    if LOGS_SUBJECT <= subject && |LOGS_SUBJECT| + |SUBJECT_TAIL| <= |subject|
       && subject[|subject| - |SUBJECT_TAIL|..] == SUBJECT_TAIL
    then Some(subject[|LOGS_SUBJECT|..|subject| - |SUBJECT_TAIL|])
    else None
  }

  function ClusterInSubjects(subjects: seq<Text>, fallback: Text): Text {
    if subjects == [] then fallback
    else match ClusterInSubject(subjects[0])
      case Some(cluster) => cluster
      case None => ClusterInSubjects(subjects[1..], fallback)
  }

  /** clusterFromUser: the cluster in the first logs subject, or the key itself. */
  function ClusterFromUser(u: User, fallback: Text): Text {
    if u.publish.None? then fallback else ClusterInSubjects(u.publish.value, fallback)
  }

  /** The cluster a user block was built for is the one read back from it. */
  lemma ClusterReadsBack(cluster: Text, public: Text)
    ensures ClusterFromUser(NkeyUser(cluster, public), public) == cluster
  {
    var subject := LOGS_SUBJECT + cluster + SUBJECT_TAIL;
    assert subject[|LOGS_SUBJECT|..|subject| - |SUBJECT_TAIL|] == cluster;
    assert ClusterInSubject(subject) == Some(cluster);
    assert NkeyUser(cluster, public).publish.value[0] == subject;
  }

  // ---- Operations --------------------------------------------------------------------------------------

  function Called(api: Api): Api {
    api.(calls := api.calls + 1)
  }

  /** ensurePushSecret: read, then update or create. */
  function EnsurePush(api: Api, world: World, cluster: Text): Step<()> {
    if world.fails(api.calls) then Step(Called(api), Err(ApiFailed))
    else if world.fails(api.calls + 1) then Step(Called(Called(api)), Err(ApiFailed))
    else Step(Called(Called(api)).(pushed := api.pushed + {cluster}), Ok(()))
  }

  /** The public key a Secret holds, under either of its names. */
  function PublicOf(s: Secret): Text {
    if s.public != [] then s.public else s.nkey
  }

  /** The Secret a create leaves behind: ours, or the one already there. */
  function Stored(world: World, call: nat, kp: KeyPair): Secret {
    if world.rivals(call).Some? then world.rivals(call).value else Secret(kp.seed, kp.public, kp.public)
  }

  /** The last step of ensureKey. */
  function Pushed(api: Api, world: World, cluster: Text, public: Text): Step<Text> {
    var pushed := EnsurePush(api, world, cluster);
    Step(pushed.api, if pushed.outcome.Err? then Err(pushed.outcome.error) else Ok(public))
  }

  /** ensureKey: the cluster's public key, generated and stored the first time only. */
  function EnsureKey(api: Api, world: World, cluster: Text): Step<Text> {
    var read := Called(api);
    if world.fails(api.calls) then Step(read, Err(ApiFailed))
    else if cluster in api.secrets then
      var public := PublicOf(api.secrets[cluster]);
      if public == [] then Step(read, Err(NoPublicKey)) else Pushed(read, world, cluster, public)
    else if world.keys(read.calls).None? then Step(read, Err(KeyGenFailed))
    else if world.fails(read.calls) then Step(Called(read), Err(ApiFailed))
    else
      var kp := world.keys(read.calls).value;
      var secret := Stored(world, read.calls, kp);
      Pushed(Called(read).(secrets := api.secrets[cluster := secret]), world, cluster, kp.public)
  }

  /** The loop of sync: a user for every valid listed cluster, stopping at the first error. */
  function Provision(api: Api, world: World, clusters: seq<Text>, users: seq<User>): Step<seq<User>>
    decreases |clusters|
  {
    if clusters == [] then Step(api, Ok(users))
    else if !ValidClusterName(clusters[0]) then Provision(api, world, clusters[1..], users)
    else
      var key := EnsureKey(api, world, clusters[0]);
      match key.outcome
      case Err(e) => Step(key.api, Err(e))
      case Ok(public) => Provision(key.api, world, clusters[1..], users + [NkeyUser(clusters[0], public)])
  }

  function PreviousUsers(api: Api, world: World): Step<seq<User>> {
    Step(Called(api), Ok(if !world.fails(api.calls) && api.config.Users? then api.config.users else []))
  }

  function KeysOf(users: seq<User>): set<Text> {
    set u | u in users && u.nkey.Some? :: u.nkey.value
  }

  /** droppedNkeys: clusters of keys in `prev` missing from `have` whose Secret still exists. */
  function Dropped(api: Api, world: World, prev: seq<User>, have: set<Text>, dropped: seq<Text>): Step<seq<Text>>
    decreases |prev|
  {
    if prev == [] then Step(api, Ok(dropped))
    else if prev[0].nkey.None? || prev[0].nkey.value in have then Dropped(api, world, prev[1..], have, dropped)
    else if world.fails(api.calls) then Step(Called(api), Err(ApiFailed))
    else
      var cluster := ClusterFromUser(prev[0], prev[0].nkey.value);
      Dropped(Called(api), world, prev[1..], have,
              if cluster in api.secrets then dropped + [cluster] else dropped)
  }

  /** writeConfigMap: refuse a drop, otherwise read and then update or create. */
  function WriteConfigMap(api: Api, world: World, users: seq<User>): Step<()> {
    var prev := PreviousUsers(api, world);
    var dropped := Dropped(prev.api, world, prev.outcome.value, KeysOf(users), []);
    match dropped.outcome
    case Err(e) => Step(dropped.api, Err(e))
    case Ok(clusters) =>
      var at := dropped.api;
      if clusters != [] then Step(at, Err(WouldDrop(clusters)))
      else if world.fails(at.calls) then Step(Called(at), Err(ApiFailed))
      else if world.fails(at.calls + 1) then Step(Called(Called(at)), Err(ApiFailed))
      else Step(Called(Called(at)).(config := Users(users)), Ok(()))
  }

  /** sync over the listed clusters; None is a listing that failed. */
  function Sync(api: Api, world: World, clusters: Option<seq<Text>>): Step<()> {
    if clusters.None? then Step(api, Err(ListFailed))
    else
      var provisioned := Provision(api, world, clusters.value, STATIC_USERS);
      match provisioned.outcome
      case Err(e) => Step(provisioned.api, Err(e))
      case Ok(users) =>
        if users == [] then Step(provisioned.api, Err(NoUsers))
        else WriteConfigMap(provisioned.api, world, users)
  }

  // ---- The generator as it runs -----------------------------------------------------------------------

  class Generator {
    var secrets: map<Text, Secret>
    var pushed: set<Text>
    var config: ConfigMap
    var calls: nat

    ghost function Abs(): Api
      reads this
    {
      Api(secrets, pushed, config, calls)
    }

    constructor (api: Api)
      ensures Abs() == api
    {
      secrets, pushed, config, calls := api.secrets, api.pushed, api.config, api.calls;
    }

    /** One API call: its number is taken, and it may fail. */
    method Call(world: World) returns (failed: bool)
      modifies this
      ensures Abs() == Called(old(Abs())) && failed == world.fails(old(calls))
    {
      failed := world.fails(calls);
      calls := calls + 1;
    }

    method EnsurePushSecret(world: World, cluster: Text) returns (r: Outcome<()>)
      modifies this
      ensures Step(Abs(), r) == EnsurePush(old(Abs()), world, cluster)
    {
      var failed := Call(world);
      if failed {
        return Err(ApiFailed);
      }
      failed := Call(world);
      if failed {
        return Err(ApiFailed);
      }
      pushed := pushed + {cluster};
      return Ok(());
    }

    method Ensure(world: World, cluster: Text) returns (r: Outcome<Text>)
      modifies this
      ensures Step(Abs(), r) == EnsureKey(old(Abs()), world, cluster)
    {
      var failed := Call(world);
      if failed {
        return Err(ApiFailed);
      }
      var public;
      if cluster in secrets {
        public := PublicOf(secrets[cluster]);
        if public == [] {
          return Err(NoPublicKey);
        }
      } else {
        var number := calls;
        var kp := world.keys(number);
        if kp.None? {
          return Err(KeyGenFailed);
        }
        failed := Call(world);
        if failed {
          return Err(ApiFailed);
        }
        public := kp.value.public;
        secrets := secrets[cluster := Stored(world, number, kp.value)];
      }
      var done := EnsurePushSecret(world, cluster);
      return if done.Err? then Err(done.error) else Ok(public);
    }

    method DroppedNkeys(world: World, prev: seq<User>, next: seq<User>) returns (r: Outcome<seq<Text>>)
      modifies this
      ensures Step(Abs(), r) == Dropped(old(Abs()), world, prev, KeysOf(next), [])
    {
      hide ClusterFromUser;
      var have := KeysOf(next);
      var dropped: seq<Text> := [];
      for i := 0 to |prev|
        invariant Dropped(old(Abs()), world, prev, have, []) == Dropped(Abs(), world, prev[i..], have, dropped)
      {
        var u := prev[i];
        assert prev[i..][0] == u && prev[i..][1..] == prev[i + 1..];
        if u.nkey.None? || u.nkey.value in have {
          continue;
        }
        var cluster := ClusterFromUser(u, u.nkey.value);
        var failed := Call(world);
        if failed {
          return Err(ApiFailed);
        }
        if cluster in secrets {
          dropped := dropped + [cluster];
        }
      }
      return Ok(dropped);
    }

    method Write(world: World, users: seq<User>) returns (r: Outcome<()>)
      modifies this
      ensures Step(Abs(), r) == WriteConfigMap(old(Abs()), world, users)
    {
      hide Dropped;
      var failed := Call(world);
      var prev := if !failed && config.Users? then config.users else [];
      var dropped := DroppedNkeys(world, prev, users);
      if dropped.Err? {
        return Err(dropped.error);
      }
      if |dropped.value| > 0 {
        return Err(WouldDrop(dropped.value));
      }
      failed := Call(world);
      if failed {
        return Err(ApiFailed);
      }
      failed := Call(world);
      if failed {
        return Err(ApiFailed);
      }
      config := Users(users);
      return Ok(());
    }

    method Run(world: World, clusters: Option<seq<Text>>) returns (r: Outcome<()>)
      modifies this
      ensures Step(Abs(), r) == Sync(old(Abs()), world, clusters)
    {
      hide EnsureKey, WriteConfigMap, ValidClusterName, NkeyUser;
      if clusters.None? {
        return Err(ListFailed);
      }
      var users := STATIC_USERS;
      for i := 0 to |clusters.value|
        invariant Provision(old(Abs()), world, clusters.value, STATIC_USERS) ==
                  Provision(Abs(), world, clusters.value[i..], users)
      {
        var name := clusters.value[i];
        assert clusters.value[i..][0] == name && clusters.value[i..][1..] == clusters.value[i + 1..];
        if !ValidClusterName(name) {
          continue;
        }
        var key := Ensure(world, name);
        if key.Err? {
          return Err(key.error);
        }
        users := users + [NkeyUser(name, key.value)];
      }
      if |users| == 0 {
        return Err(NoUsers);
      }
      r := Write(world, users);
    }
  }
}
