/** `_launchSharded`: the shards in order on a running port cursor, then the
    config servers, then `mongos` on the next port with the config-server
    connection string. */
module Sharded {
  import opened Text
  import opened Layout
  import opened Commands
  import opened Deployment
  import opened ReplicaSet

  /** `'shard%.2i' % k`. */
  function ShardName(k: nat): string { "shard" + ZeroPad2(k) }

  /** The shard names: one argument that `int()` accepts as n gives
      `shard01` .. `shard<n>`; one other argument is the single shard's name;
      several arguments are the names, in order. */
  function ShardNames(args: seq<string>): seq<string>
  {
    if |args| == 1 then
      match ParseInt(args[0])
      case Some(n) => NumberedShards(Max0(n))
      case None => args
    else args
  }

  /** `shard01` .. `shard<n>`. */
  function NumberedShards(n: nat): (r: seq<string>)
    ensures |r| == n
    ensures forall k :: 0 <= k < n ==> r[k] == ShardName(k + 1)
  {
    if n == 0 then [] else NumberedShards(n - 1) + [ShardName(n)]
  }

  /** `['config']` for a count of 1, otherwise three numbered names. */
  function ConfigNames(count: int): seq<string>
  {
    if count == 1 then ["config"] else ["config1", "config2", "config3"]
  }

  /** How far one shard moves the port cursor: 1 for a single node, the node
      count plus one for an arbiter for a replica set. */
  function ShardWidth(req: Request): int
  {
    if req.mode.Single? then 1 else req.nodes + (if req.arbiter then 1 else 0)
  }

  /** The port of shard k (from 0): the cursor has moved k widths. */
  function ShardPort(req: Request, start: int, k: nat): int
  {
    start + k * ShardWidth(req)
  }

  /** What one shard launches at port `port`. */
  function ShardStepLaunches(req: Request, shard: string, port: int): seq<Launch>
  {
    if req.mode.Single? then [SingleLaunch(req.dir, shard, port)]
    else ReplSetLaunches(req.dir, port, shard, req.nodes, req.arbiter)
  }

  function SingleLaunch(basedir: string, name: string, port: int): Launch
  {
    var dp := DataPath(basedir, Some(name));
    MongoD(Standalone, DbPath(dp), LogPath(dp), port, None, "")
  }

  /** The db directories one shard creates. */
  function ShardStepDirs(req: Request, shard: string): set<string>
  {
    if req.mode.Single? then {DbPath(DataPath(req.dir, Some(shard)))}
    else ReplSetDirs(req.dir, shard, req.nodes, req.arbiter)
  }

  /** The launches of the shards `names`, in order, the first at `start`. */
  function ShardLaunches(req: Request, names: seq<string>, start: int): seq<Launch>
    decreases |names|
  {
    if names == [] then []
    else
      var k := |names| - 1;
      ShardLaunches(req, names[..k], start) + ShardStepLaunches(req, names[k], ShardPort(req, start, k))
  }

  function ShardDirs(req: Request, names: seq<string>): set<string>
    decreases |names|
  {
    if names == [] then {}
    else ShardDirs(req, names[..|names| - 1]) + ShardStepDirs(req, names[|names| - 1])
  }

  /** The seed ports of the replica-set shards; single shards have none. */
  function Seeds(req: Request, names: seq<string>, start: int): set<int>
    decreases |names|
  {
    if names == [] || req.mode.Single? then {}
    else
      var k := |names| - 1;
      Seeds(req, names[..k], start) + {ShardPort(req, start, k)}
  }

  /** The `replSetInitiate` commands of the shards `names`, in order, when
      `configured` answered before the first: a replica-set shard is
      initiated unless its seed already answers, whether from before or
      from an earlier shard on the same port. */
  function ShardInitiates(configured: set<int>, req: Request, names: seq<string>, start: int): seq<Initiate>
    decreases |names|
  {
    if names == [] || req.mode.Single? then []
    else
      var k := |names| - 1;
      var port := ShardPort(req, start, k);
      ShardInitiates(configured, req, names[..k], start)
      + (if port in configured + Seeds(req, names[..k], start) then []
         else [Initiate(port, ReplSetDoc(names[k], port, req.nodes, req.arbiter))])
  }

  /** The world after the shard loop over `names` from the start port. */
  function ShardsWorld(w: World, req: Request, names: seq<string>): World
  {
    w.(launched := w.launched + ShardLaunches(req, names, req.port),
       dirs := w.dirs + ShardDirs(req, names),
       configured := w.configured + Seeds(req, names, req.port),
       initiated := w.initiated + ShardInitiates(w.configured, req, names, req.port))
  }

  /** One config server per name, on consecutive ports from `start`. */
  function ConfigLaunch(basedir: string, name: string, port: int): Launch
  {
    var dp := DataPath(basedir, Some(name));
    MongoD(ConfigServer, DbPath(dp), LogPath(dp), port, None, "--configsvr")
  }

  function ConfigLaunches(basedir: string, names: seq<string>, start: int): (r: seq<Launch>)
    ensures |r| == |names|
  {
    if names == [] then []
    else
      var k := |names| - 1;
      ConfigLaunches(basedir, names[..k], start) + [ConfigLaunch(basedir, names[k], start + k)]
  }

  /** Config server i is launched i-th, on `start + i`. */
  lemma {:induction false} ConfigLaunchesAt(basedir: string, names: seq<string>, start: int)
    ensures forall i :: 0 <= i < |names| ==>
              ConfigLaunches(basedir, names, start)[i] == ConfigLaunch(basedir, names[i], start + i)
    decreases |names|
  {
    if names != [] {
      var k := |names| - 1;
      var earlier := ConfigLaunches(basedir, names[..k], start);
      ConfigLaunchesAt(basedir, names[..k], start);
      forall i | 0 <= i < |names|
        ensures ConfigLaunches(basedir, names, start)[i] == ConfigLaunch(basedir, names[i], start + i)
      {
        if i < k {
          assert ConfigLaunches(basedir, names, start)[i] == earlier[i];
        }
      }
    }
  }

  function ConfigDirs(basedir: string, names: seq<string>): set<string>
  {
    if names == [] then {}
    else ConfigDirs(basedir, names[..|names| - 1]) + {DbPath(DataPath(basedir, Some(names[|names| - 1])))}
  }

  /** `127.0.0.1:<port>` for the n ports from `start`. */
  function ConfigHosts(start: int, n: nat): (r: seq<string>)
    ensures |r| == n
    ensures forall i :: 0 <= i < n ==> r[i] == Host(start + i)
  {
    if n == 0 then [] else ConfigHosts(start, n - 1) + [Host(start + n - 1)]
  }

  /** The world after the config-server loop over `names` from `start`. */
  function ConfigsWorld(w: World, basedir: string, names: seq<string>, start: int): World
  {
    w.(launched := w.launched + ConfigLaunches(basedir, names, start),
       dirs := w.dirs + ConfigDirs(basedir, names))
  }

  /** The port after the last shard, where the config servers begin. */
  function ConfigPort(req: Request): int
  {
    ShardPort(req, req.port, |ShardNames(req.sharded)|)
  }

  /** `mongos`'s port: the one after the last config server. */
  function MongosPort(req: Request): int
  {
    ConfigPort(req) + |ConfigNames(req.config)|
  }

  /** The world after the whole of `_launchSharded`. */
  function ShardedWorld(w: World, req: Request): World
  {
    ClusterWorld(w, req, ShardNames(req.sharded))
  }

  /** The shards `names`, then the config servers on the ports after the
      last shard, then `mongos` on the port after the last config server,
      handed the config servers' host strings joined by ','. */
  function ClusterWorld(w: World, req: Request, names: seq<string>): World
  {
    var cfg := ShardPort(req, req.port, |names|);
    var cnames := ConfigNames(req.config);
    var configs := ConfigsWorld(ShardsWorld(w, req, names), req.dir, cnames, cfg);
    LaunchMongoS(configs, MongosLogPath(req.dir), cfg + |cnames|, JoinWith(ConfigHosts(cfg, |cnames|), ','))
  }

  /** `_launchSharded`. Readiness waits are absent (their results are not
      looked at); shards are not added to the cluster, as in the code. */
  method LaunchSharded(w0: World, req: Request) returns (w: World)
    ensures w == ShardedWorld(w0, req)
  {
    var shardNames := ShardNames(req.sharded);
    var afterShards, nextport := StartShards(w0, req, shardNames);
    var configNames := ConfigNames(req.config);
    var afterConfigs, configString, mongosPort := StartConfigServers(afterShards, req.dir, configNames, nextport);
    w := LaunchMongoS(afterConfigs, MongosLogPath(req.dir), mongosPort, JoinWith(configString, ','));
    ClusterWorldFinal(w0, req, shardNames, afterShards, nextport, afterConfigs, w);
  }

  /** The shard loop of `_launchSharded`: each shard on the running port
      cursor, which then moves by the shard's width. */
  method StartShards(w0: World, req: Request, shardNames: seq<string>) returns (w: World, nextport: int)
    ensures w == ShardsWorld(w0, req, shardNames)
    ensures nextport == ShardPort(req, req.port, |shardNames|)
  {
    w := w0;
    nextport := req.port;
    var p := 0;
    ShardsWorldEmpty(w0, req, shardNames);
    while p < |shardNames|
      invariant 0 <= p <= |shardNames|
      invariant nextport == ShardPort(req, req.port, p)
      invariant w == ShardsWorld(w0, req, shardNames[..p])
    {
      var shard := shardNames[p];
      ghost var before, port := w, nextport;
      if req.mode.Single? {
        w := LaunchSingle(w, req.dir, nextport, Some(shard));
        nextport := nextport + 1;
      } else {
        var configDoc;
        w, configDoc := LaunchReplSet(w, req.dir, nextport, shard, req.nodes, req.arbiter);
        nextport := nextport + req.nodes;
        if req.arbiter {
          nextport := nextport + 1;
        }
      }
      ShardsWorldStep(w0, req, shardNames, p, port, before, w);
      p := p + 1;
    }
    assert shardNames[..p] == shardNames;
  }

  /** The config-server loop of `_launchSharded`: one config server per
      name on consecutive ports from `start`, collecting their host strings;
      the port after the last one is returned. */
  method StartConfigServers(w0: World, basedir: string, configNames: seq<string>, start: int)
    returns (w: World, configString: seq<string>, nextport: int)
    ensures w == ConfigsWorld(w0, basedir, configNames, start)
    ensures configString == ConfigHosts(start, |configNames|)
    ensures nextport == start + |configNames|
  {
    w := w0;
    configString := [];
    nextport := start;
    var j := 0;
    ConfigsWorldEmpty(w0, basedir, configNames, start);
    while j < |configNames|
      invariant 0 <= j <= |configNames|
      invariant nextport == start + j
      invariant configString == ConfigHosts(start, j)
      invariant w == ConfigsWorld(w0, basedir, configNames[..j], start)
    {
      ghost var before := w;
      w := LaunchConfig(w, basedir, nextport, Some(configNames[j]));
      ConfigHostsStep(start, j);
      configString := configString + [Host(nextport)];
      ConfigsWorldStep(w0, basedir, configNames, start, j, nextport, before, w);
      nextport := nextport + 1;
      j := j + 1;
    }
    assert configNames[..j] == configNames;
  }

  /** The three stages compose to the whole plan. */
  lemma ClusterWorldFinal(w0: World, req: Request, names: seq<string>, afterShards: World, cfg: int,
                          afterConfigs: World, w: World)
    requires afterShards == ShardsWorld(w0, req, names)
    requires cfg == ShardPort(req, req.port, |names|)
    requires afterConfigs == ConfigsWorld(afterShards, req.dir, ConfigNames(req.config), cfg)
    requires w == LaunchMongoS(afterConfigs, MongosLogPath(req.dir), cfg + |ConfigNames(req.config)|,
                               JoinWith(ConfigHosts(cfg, |ConfigNames(req.config)|), ','))
    ensures w == ClusterWorld(w0, req, names)
  {
  }

  // ---------------------------------------------------------------------
  // The loops' steps

  lemma ShardsWorldEmpty(w: World, req: Request, names: seq<string>)
    ensures ShardsWorld(w, req, names[..0]) == w
  {
    assert names[..0] == [];
    assert w.launched + [] == w.launched;
    assert w.dirs + {} == w.dirs;
    assert w.configured + {} == w.configured;
    assert w.initiated + [] == w.initiated;
  }

  /** Shard p's launches and directories follow those of the shards before it. */
  lemma ShardPrefixLaunches(req: Request, names: seq<string>, p: nat, start: int)
    requires p < |names|
    ensures ShardLaunches(req, names[..p + 1], start)
            == ShardLaunches(req, names[..p], start) + ShardStepLaunches(req, names[p], ShardPort(req, start, p))
    ensures ShardDirs(req, names[..p + 1]) == ShardDirs(req, names[..p]) + ShardStepDirs(req, names[p])
  {
    assert names[..p + 1][..p] == names[..p] && names[..p + 1][p] == names[p];
  }

  /** What shard p adds to the seeds and to the initiates. */
  function ShardStepSeeds(req: Request, start: int, p: nat): set<int>
  {
    if req.mode.Single? then {} else {ShardPort(req, start, p)}
  }

  function ShardStepInitiates(configured: set<int>, req: Request, names: seq<string>, p: nat, start: int): seq<Initiate>
    requires p < |names|
  {
    var port := ShardPort(req, start, p);
    if req.mode.Single? || port in configured + Seeds(req, names[..p], start) then []
    else [Initiate(port, ReplSetDoc(names[p], port, req.nodes, req.arbiter))]
  }

  lemma ShardPrefixInitiates(configured: set<int>, req: Request, names: seq<string>, p: nat, start: int)
    requires p < |names|
    ensures Seeds(req, names[..p + 1], start) == Seeds(req, names[..p], start) + ShardStepSeeds(req, start, p)
    ensures ShardInitiates(configured, req, names[..p + 1], start)
            == ShardInitiates(configured, req, names[..p], start) + ShardStepInitiates(configured, req, names, p, start)
  {
    assert names[..p + 1][..p] == names[..p] && names[..p + 1][p] == names[p];
  }

  lemma WorldFields(a: World, b: World)
    requires a.launched == b.launched && a.dirs == b.dirs
    requires a.configured == b.configured && a.initiated == b.initiated
    ensures a == b
  {
  }

  /** Shard p's round extends the loop's world from `names[..p]` to
      `names[..p + 1]`. */
  lemma ShardsWorldStep(w0: World, req: Request, names: seq<string>, p: nat, port: int, before: World, after: World)
    requires p < |names| && port == ShardPort(req, req.port, p)
    requires before == ShardsWorld(w0, req, names[..p])
    requires req.mode.Single? ==> after == LaunchSingle(before, req.dir, port, Some(names[p]))
    requires req.mode.ReplicaSet? ==>
               after == ReplSetWorld(before, req.dir, port, names[p], req.nodes, req.arbiter)
    ensures after == ShardsWorld(w0, req, names[..p + 1])
    ensures port + ShardWidth(req) == ShardPort(req, req.port, p + 1)
  {
    var pre := names[..p];
    MulStep(p, ShardWidth(req));
    ShardPrefixLaunches(req, names, p, req.port);
    ShardPrefixInitiates(w0.configured, req, names, p, req.port);
    var steps := ShardStepLaunches(req, names[p], port);
    var stepDirs := ShardStepDirs(req, names[p]);
    var seeds := ShardStepSeeds(req, req.port, p);
    var news := ShardStepInitiates(w0.configured, req, names, p, req.port);
    AppendAssoc(w0.launched, ShardLaunches(req, pre, req.port), steps);
    UnionAssoc(w0.dirs, ShardDirs(req, pre), stepDirs);
    AppendAssoc(w0.initiated, ShardInitiates(w0.configured, req, pre, req.port), news);
    UnionAssoc(w0.configured, Seeds(req, pre, req.port), seeds);
    if req.mode.ReplicaSet? {
      ReplSetWorldEffect(before, req.dir, port, names[p], req.nodes, req.arbiter);
    } else {
      assert before.initiated + news == before.initiated;
      assert before.configured + seeds == before.configured;
    }
    var target := ShardsWorld(w0, req, names[..p + 1]);
    assert after.launched == before.launched + steps;
    assert after.dirs == before.dirs + stepDirs;
    assert after.configured == before.configured + seeds;
    assert after.initiated == before.initiated + news;
    WorldFields(after, target);
  }

  lemma ConfigHostsStep(start: int, j: nat)
    ensures ConfigHosts(start, j + 1) == ConfigHosts(start, j) + [Host(start + j)]
  {
  }

  lemma ConfigsWorldEmpty(w: World, basedir: string, names: seq<string>, start: int)
    ensures ConfigsWorld(w, basedir, names[..0], start) == w
  {
    assert names[..0] == [];
    assert w.launched + [] == w.launched;
    assert w.dirs + {} == w.dirs;
  }

  /** Config server j's round extends the loop's world from `names[..j]` to
      `names[..j + 1]`. */
  lemma ConfigsWorldStep(w0: World, basedir: string, names: seq<string>, start: int, j: nat, port: int,
                         before: World, after: World)
    requires j < |names| && port == start + j
    requires before == ConfigsWorld(w0, basedir, names[..j], start)
    requires after == LaunchConfig(before, basedir, port, Some(names[j]))
    ensures after == ConfigsWorld(w0, basedir, names[..j + 1], start)
  {
    var pre := names[..j];
    var launch := ConfigLaunch(basedir, names[j], port);
    var dir := DbPath(DataPath(basedir, Some(names[j])));
    ConfigPrefix(basedir, names, start, j);
    AppendAssoc(w0.launched, ConfigLaunches(basedir, pre, start), [launch]);
    UnionAssoc(w0.dirs, ConfigDirs(basedir, pre), {dir});
    var target := ConfigsWorld(w0, basedir, names[..j + 1], start);
    assert after.launched == before.launched + [launch];
    assert after.dirs == before.dirs + {dir};
    WorldFields(after, target);
  }

  /** Config server j's launch and directory follow those before it. */
  lemma ConfigPrefix(basedir: string, names: seq<string>, start: int, j: nat)
    requires j < |names|
    ensures ConfigLaunches(basedir, names[..j + 1], start)
            == ConfigLaunches(basedir, names[..j], start) + [ConfigLaunch(basedir, names[j], start + j)]
    ensures ConfigDirs(basedir, names[..j + 1])
            == ConfigDirs(basedir, names[..j]) + {DbPath(DataPath(basedir, Some(names[j])))}
  {
    assert names[..j + 1][..j] == names[..j] && names[..j + 1][j] == names[j];
  }


  // ---------------------------------------------------------------------
  // Names

  /** `shard<k>` with k zero-padded; the text after `shard` reads back as k. */
  lemma ShardNameReadsBack(k: nat)
    ensures |ShardName(k)| >= 7 && ShardName(k)[..5] == "shard"
    ensures k < 10 ==> |ShardName(k)| == 7
    ensures ParseInt(ShardName(k)[5..]) == Some(k)
  {
    ZeroPad2Spec(k);
    assert ShardName(k)[5..] == ZeroPad2(k);
  }

  lemma ShardNameInjective(k1: nat, k2: nat)
    requires ShardName(k1) == ShardName(k2)
    ensures k1 == k2
  {
    ShardNameReadsBack(k1);
    ShardNameReadsBack(k2);
  }

  /** A single numeric argument n gives exactly max(n, 0) names
      `shard01`, `shard02`, ...: the number after `shard` has at least two
      digits, exactly two below 10, and reads back as the shard's position, so no two shards share
      a name. */
  lemma ShardNamesGenerated(args: seq<string>, n: int)
    requires |args| == 1 && ParseInt(args[0]) == Some(n)
    ensures var names := ShardNames(args);
            |names| == Max0(n)
            && (forall k :: 0 <= k < |names| ==>
                  names[k] == ShardName(k + 1)
                  && |names[k]| >= 7 && (k < 9 ==> |names[k]| == 7)
                  && ParseInt(names[k][5..]) == Some(k + 1))
            && (forall k1, k2 :: 0 <= k1 < |names| && 0 <= k2 < |names| && k1 != k2 ==>
                  names[k1] != names[k2])
  {
    var names := ShardNames(args);
    assert names == NumberedShards(Max0(n));
    forall k | 0 <= k < |names|
      ensures |names[k]| >= 7 && (k < 9 ==> |names[k]| == 7)
      ensures ParseInt(names[k][5..]) == Some(k + 1)
    {
      ShardNameReadsBack(k + 1);
    }
  }

  /** Any other argument list is used verbatim, in order. */
  lemma ShardNamesVerbatim(args: seq<string>)
    requires |args| != 1 || ParseInt(args[0]).None?
    ensures ShardNames(args) == args
  {
  }

  /** `int()` skips white space after the sign, so `--sharded '+ 3'` asks
      for three numbered shards and `--sharded '- 2'` for none. */
  lemma ShardNamesSignedCount()
    ensures ShardNames(["+ 3"]) == NumberedShards(3)
    ensures ShardNames(["- 2"]) == []
  {
    ParseIntPlusBlankThree();
    ParseIntMinusBlankTwo();
    assert ["+ 3"][0] == "+ 3" && ["- 2"][0] == "- 2";
  }

  /** One config server is named `config`; any other count gives three,
      `config1` .. `config3`. The names are distinct and share the prefix
      `config`. */
  lemma ConfigNamesShape(count: int)
    ensures var names := ConfigNames(count);
            |names| == (if count == 1 then 1 else 3)
            && (forall i :: 0 <= i < |names| ==> |names[i]| >= 6 && names[i][..6] == "config")
            && (forall i, j :: 0 <= i < j < |names| ==> names[i] != names[j])
  {
    var names := ConfigNames(count);
    if count != 1 {
      assert names[0][6] == '1' && names[1][6] == '2' && names[2][6] == '3';
    }
  }

  /** As written, single-node shards and one config server: a shard named
      `config` is launched on the same db directory as the config server,
      `<basedir>/data/config/db`, one port earlier. */
  lemma ShardNamedConfigSharesDb(req: Request)
    requires req.sharded == ["config"] && req.mode.Single? && req.config == 1
    ensures var plan := ShardedPlan(req);
            |plan| == 3 && plan[0].MongoD? && plan[1].MongoD?
            && plan[0].dbPath == plan[1].dbPath == DbPath(DataPath(req.dir, Some("config")))
            && plan[1].port == plan[0].port + 1
  {
    var plan := ShardedPlan(req);
    ConfigShardPlan(req);
    assert plan[0] == SingleLaunch(req.dir, "config", req.port);
    assert plan[1] == ConfigLaunch(req.dir, "config", req.port + 1);
  }

  lemma ConfigShardPlan(req: Request)
    requires req.sharded == ["config"] && req.mode.Single? && req.config == 1
    ensures |ShardedPlan(req)| == 3
    ensures ShardedPlan(req)[..2] == [SingleLaunch(req.dir, "config", req.port),
                                      ConfigLaunch(req.dir, "config", req.port + 1)]
  {
    assert ParseInt("config") == None by {
      assert "config"[0] == 'c' && "config"[5] == 'g';
      ParseIntOfName("config");
    }
    assert ShardNames(req.sharded) == ["config"];
    assert ConfigPort(req) == req.port + 1;
    OneShardLaunch(req, "config", req.port);
    OneConfigLaunch(req.dir, "config", req.port + 1);
  }

  lemma OneShardLaunch(req: Request, name: string, start: int)
    requires req.mode.Single?
    ensures ShardLaunches(req, [name], start) == [SingleLaunch(req.dir, name, start)]
  {
    assert [name][..0] == [];
  }

  lemma OneConfigLaunch(basedir: string, name: string, start: int)
    ensures ConfigLaunches(basedir, [name], start) == [ConfigLaunch(basedir, name, start)]
  {
    assert [name][..0] == [];
  }

  // ---------------------------------------------------------------------
  // Ports

  lemma ShardStepPorts(req: Request, shard: string, port: int)
    requires req.mode.Single? || req.nodes >= 0
    ensures ShardWidth(req) >= 0
    ensures |ShardStepLaunches(req, shard, port)| == ShardWidth(req)
    ensures OnPortsFrom(ShardStepLaunches(req, shard, port), port)
  {
    if req.mode.ReplicaSet? {
      ReplSetPorts(req.dir, port, shard, req.nodes, req.arbiter);
    }
  }

  /** With a non-negative node count (or single shards) the shards occupy
      consecutive ports from `start`, in launch order, one width each. */
  lemma {:induction false} ShardLaunchesPorts(req: Request, names: seq<string>, start: int)
    requires req.mode.Single? || req.nodes >= 0
    ensures |ShardLaunches(req, names, start)| == |names| * ShardWidth(req)
    ensures OnPortsFrom(ShardLaunches(req, names, start), start)
    decreases |names|
  {
    if names != [] {
      var k := |names| - 1;
      var width := ShardWidth(req);
      var earlier := ShardLaunches(req, names[..k], start);
      var last := ShardStepLaunches(req, names[k], ShardPort(req, start, k));
      assert ShardLaunches(req, names, start) == earlier + last;
      ShardLaunchesPorts(req, names[..k], start);
      ShardStepPorts(req, names[k], ShardPort(req, start, k));
      MulStep(k, width);
      OnPortsFromAppend(earlier, last, start);
    }
  }

  /** As written, a replica-set node count of -1 with an arbiter gives every
      shard width 0: each shard is just its arbiter, and all of them are
      launched on the same port, one below the start port. */
  lemma {:induction false} NegativeNodesReusePort(req: Request, names: seq<string>, start: int)
    requires req.mode.ReplicaSet? && req.nodes == -1 && req.arbiter
    ensures |ShardLaunches(req, names, start)| == |names|
    ensures forall i :: 0 <= i < |names| ==> ShardLaunches(req, names, start)[i].port == start - 1
    decreases |names|
  {
    if names != [] {
      var k := |names| - 1;
      var earlier: seq<Launch> := ShardLaunches(req, names[..k], start);
      var last: seq<Launch> := ShardStepLaunches(req, names[k], ShardPort(req, start, k));
      assert ShardLaunches(req, names, start) == earlier + last;
      NegativeNodesReusePort(req, names[..k], start);
      assert ShardPort(req, start, k) == start;
      assert MemberLaunches(req.dir, start, names[k], 0) == [];
      assert last == [ArbiterLaunch(req.dir, start, names[k], -1)];
      forall i | 0 <= i < |names| ensures (earlier + last)[i].port == start - 1 {
        if i < k {
          assert (earlier + last)[i] == earlier[i];
        }
      }
    }
  }


  lemma ConfigLaunchesPorts(basedir: string, names: seq<string>, start: int)
    ensures OnPortsFrom(ConfigLaunches(basedir, names, start), start)
  {
    ConfigLaunchesAt(basedir, names, start);
  }

  /** Everything `_launchSharded` launches, in order. */
  function ShardedPlan(req: Request): seq<Launch>
  {
    var cnames := ConfigNames(req.config);
    ShardLaunches(req, ShardNames(req.sharded), req.port)
    + ConfigLaunches(req.dir, cnames, ConfigPort(req))
    + [MongoS(MongosLogPath(req.dir), MongosPort(req), JoinWith(ConfigHosts(ConfigPort(req), |cnames|), ','))]
  }

  /** Every launched process gets its own port: with a non-negative node
      count (or single shards) the i-th process of the plan listens on
      `start + i`, so the ports strictly increase in launch order, and the
      last process is `mongos`, on the port after the last config server. */
  lemma ShardedPorts(req: Request)
    requires req.mode.Single? || req.nodes >= 0
    ensures var plan := ShardedPlan(req);
            |plan| == |ShardNames(req.sharded)| * ShardWidth(req) + |ConfigNames(req.config)| + 1
            && OnPortsFrom(plan, req.port)
            && plan[|plan| - 1].MongoS? && plan[|plan| - 1].port == MongosPort(req)
  {
    var names := ShardNames(req.sharded);
    var cnames := ConfigNames(req.config);
    var shards := ShardLaunches(req, names, req.port);
    var configs := ConfigLaunches(req.dir, cnames, ConfigPort(req));
    var mongos := [MongoS(MongosLogPath(req.dir), MongosPort(req), JoinWith(ConfigHosts(ConfigPort(req), |cnames|), ','))];
    assert ShardedPlan(req) == shards + configs + mongos;
    ShardLaunchesPorts(req, names, req.port);
    ShardStepPorts(req, "", req.port);
    assert ConfigPort(req) == req.port + |shards|;
    ConfigLaunchesPorts(req.dir, cnames, ConfigPort(req));
    OnPortsFromAppend(shards, configs, req.port);
    assert OnPortsFrom(mongos, req.port + |shards + configs|);
    OnPortsFromAppend(shards + configs, mongos, req.port);
  }

  /** The config servers' launches, placed after the shards and before
      `mongos` as `ShardedPlan` does: config server i (`config`, or `config1`
      .. `config3`) is the i-th process after the shards, a `mongod` with
      `--configsvr` and no `--replSet` on its own `<basedir>/data/<name>`,
      listening on `start + i`; `mongos` comes last. */
  lemma ConfigServersInPlan(before: seq<Launch>, basedir: string, names: seq<string>, start: int, last: Launch)
    ensures var plan := before + ConfigLaunches(basedir, names, start) + [last];
            |plan| == |before| + |names| + 1
            && (forall i :: 0 <= i < |names| ==>
                  plan[|before| + i] == MongoD(ConfigServer, DbPath(DataPath(basedir, Some(names[i]))),
                                               LogPath(DataPath(basedir, Some(names[i]))),
                                               start + i, None, "--configsvr"))
            && plan[|plan| - 1] == last
  {
    var configs := ConfigLaunches(basedir, names, start);
    ConfigLaunchesAt(basedir, names, start);
    forall i | 0 <= i < |names|
      ensures (before + configs + [last])[|before| + i] == configs[i]
    {
      MiddleIndex(before, configs, [last], i);
    }
  }

  /** `ConfigServersInPlan` at the sharded launch itself: right after the
      shards' processes, config server i listens on `ConfigPort(req) + i`,
      and the last process is the `mongos` whose `--configdb` joins the
      config servers' hosts. */
  lemma ConfigServersInShardedPlan(req: Request)
    ensures var plan := ShardedPlan(req);
            var cnames := ConfigNames(req.config);
            var b := |ShardLaunches(req, ShardNames(req.sharded), req.port)|;
            |plan| == b + |cnames| + 1
            && (forall i :: 0 <= i < |cnames| ==>
                  plan[b + i] == MongoD(ConfigServer, DbPath(DataPath(req.dir, Some(cnames[i]))),
                                        LogPath(DataPath(req.dir, Some(cnames[i]))),
                                        ConfigPort(req) + i, None, "--configsvr"))
            && plan[|plan| - 1] == MongoS(MongosLogPath(req.dir), ConfigPort(req) + |cnames|,
                                          JoinWith(ConfigHosts(ConfigPort(req), |cnames|), ','))
  {
    var cnames := ConfigNames(req.config);
    var shards := ShardLaunches(req, ShardNames(req.sharded), req.port);
    var last := MongoS(MongosLogPath(req.dir), ConfigPort(req) + |cnames|,
                       JoinWith(ConfigHosts(ConfigPort(req), |cnames|), ','));
    var configs := ConfigLaunches(req.dir, cnames, ConfigPort(req));
    ShardedPlanParts(req);
    assert ShardedPlan(req) == shards + configs + [last];
    ConfigServersInPlan(shards, req.dir, cnames, ConfigPort(req), last);
  }

  lemma ShardedPlanParts(req: Request)
    ensures var cnames := ConfigNames(req.config);
            ShardedPlan(req)
            == ShardLaunches(req, ShardNames(req.sharded), req.port)
               + ConfigLaunches(req.dir, cnames, ConfigPort(req))
               + [MongoS(MongosLogPath(req.dir), ConfigPort(req) + |cnames|,
                         JoinWith(ConfigHosts(ConfigPort(req), |cnames|), ','))]
  {
  }

  lemma MiddleIndex<T>(a: seq<T>, b: seq<T>, c: seq<T>, i: nat)
    requires i < |b|
    ensures (a + b + c)[|a| + i] == b[i]
  {
  }

  // ---------------------------------------------------------------------
  // Initiation and re-runs

  /** The shard loop sends at most one `replSetInitiate` per shard, none for
      single shards, and none at all when every seed already answers. */
  lemma {:induction false} ShardInitiatesBound(configured: set<int>, req: Request, names: seq<string>, start: int)
    ensures |ShardInitiates(configured, req, names, start)| <= |names|
    ensures req.mode.Single? ==> ShardInitiates(configured, req, names, start) == []
    ensures Seeds(req, names, start) <= configured ==> ShardInitiates(configured, req, names, start) == []
    decreases |names|
  {
    if names != [] && req.mode.ReplicaSet? {
      var k := |names| - 1;
      var pre := names[..k];
      ShardInitiatesBound(configured, req, pre, start);
      assert Seeds(req, names, start) == Seeds(req, pre, start) + {ShardPort(req, start, k)};
    }
  }

  /** The whole sharded launch, field by field: the plan is appended, the
      shards' and config servers' db directories exist, the replica-set
      shards answer at their seeds, and the initiates are the shard loop's. */
  lemma ShardedWorldEffect(w: World, req: Request)
    ensures var r := ShardedWorld(w, req);
            var names := ShardNames(req.sharded);
            r.launched == w.launched + ShardedPlan(req)
            && r.dirs == w.dirs + ShardDirs(req, names) + ConfigDirs(req.dir, ConfigNames(req.config))
            && r.configured == w.configured + Seeds(req, names, req.port)
            && r.initiated == w.initiated + ShardInitiates(w.configured, req, names, req.port)
  {
    var names := ShardNames(req.sharded);
    var cnames := ConfigNames(req.config);
    var shards := ShardLaunches(req, names, req.port);
    var configs := ConfigLaunches(req.dir, cnames, ConfigPort(req));
    var mongos := [MongoS(MongosLogPath(req.dir), MongosPort(req), JoinWith(ConfigHosts(ConfigPort(req), |cnames|), ','))];
    assert ShardedWorld(w, req).launched == w.launched + shards + configs + mongos;
    assert ShardedPlan(req) == shards + configs + mongos;
    AppendAssoc(w.launched + shards, configs, mongos);
    AppendAssoc(w.launched, shards, configs);
    AppendAssoc(w.launched, shards + configs, mongos);
  }

  /** Running the same sharded launch again sends no `replSetInitiate`,
      creates no directory and configures nothing new; over both runs each
      shard is initiated at most once. */
  lemma ShardedRerun(w: World, req: Request)
    ensures var w1 := ShardedWorld(w, req);
            var w2 := ShardedWorld(w1, req);
            w2.initiated == w1.initiated
            && w2.dirs == w1.dirs
            && w2.configured == w1.configured
            && |w1.initiated| <= |w.initiated| + |ShardNames(req.sharded)|
  {
    var names := ShardNames(req.sharded);
    var w1 := ShardedWorld(w, req);
    ShardedWorldEffect(w, req);
    ShardedWorldEffect(w1, req);
    ShardInitiatesBound(w.configured, req, names, req.port);
    ShardInitiatesBound(w1.configured, req, names, req.port);
  }

  // ---------------------------------------------------------------------
  // The config-server string

  /** The config-server string splits back at ',' into the config servers'
      host strings, and the port of each reads back. */
  lemma ConfigDbRoundTrip(start: int, n: nat)
    requires n >= 1
    ensures Split(JoinWith(ConfigHosts(start, n), ','), {','}) == ConfigHosts(start, n)
    ensures forall i :: 0 <= i < n ==>
              |ConfigHosts(start, n)[i]| > 10 && ParseInt(ConfigHosts(start, n)[i][10..]) == Some(start + i)
  {
    var hosts := ConfigHosts(start, n);
    forall k | 0 <= k < n
      ensures Excludes(hosts[k], ',')
      ensures |hosts[k]| > 10 && ParseInt(hosts[k][10..]) == Some(start + k)
    {
      HostShape(start + k);
    }
    SplitJoinWith(hosts, ',');
  }
}
