/** `launch`: a non-empty `--sharded` list builds a cluster; otherwise the
    chosen mode (`--single` or `--replicaset`, exactly one of which the
    command line carries) decides. */
module Launcher {
  import opened Text
  import opened Layout
  import opened Commands
  import opened Deployment
  import opened ReplicaSet
  import opened Sharded

  /** The world after `launch`. */
  function LaunchWorld(w: World, req: Request): World
  {
    if req.sharded != [] then ShardedWorld(w, req)
    else if req.mode.Single? then LaunchSingle(w, req.dir, req.port, None)
    else ReplSetWorld(w, req.dir, req.port, req.name, req.nodes, req.arbiter)
  }

  /** `launch`. */
  method Launch(w0: World, req: Request) returns (w: World)
    ensures w == LaunchWorld(w0, req)
    ensures req.sharded != [] ==> w == ShardedWorld(w0, req)
    ensures req.sharded == [] && req.mode.Single? ==> w == LaunchSingle(w0, req.dir, req.port, None)
    ensures req.sharded == [] && req.mode.ReplicaSet? ==>
              w == ReplSetWorld(w0, req.dir, req.port, req.name, req.nodes, req.arbiter)
  {
    if req.sharded != [] {
      w := LaunchSharded(w0, req);
    } else if req.mode.Single? {
      w := LaunchSingle(w0, req.dir, req.port, None);
    } else {
      var configDoc;
      w, configDoc := LaunchReplSet(w0, req.dir, req.port, req.name, req.nodes, req.arbiter);
    }
  }

  /** A launch only adds: earlier processes and commands stay where they
      were, and no directory or configured set disappears. It starts at least
      one process unless it is a replica set with no data node and no
      arbiter. */
  lemma LaunchGrows(w: World, req: Request)
    ensures var r := LaunchWorld(w, req);
            w.dirs <= r.dirs && w.configured <= r.configured
            && |w.launched| <= |r.launched| && r.launched[..|w.launched|] == w.launched
            && ((req.sharded != [] || req.mode.Single? || req.nodes > 0 || req.arbiter) <==>
                |w.launched| < |r.launched|)
            && |w.initiated| <= |r.initiated| && r.initiated[..|w.initiated|] == w.initiated
  {
    var r := LaunchWorld(w, req);
    if req.sharded != [] {
      ShardedWorldEffect(w, req);
      var plan := ShardedPlan(req);
      assert r.launched == w.launched + plan;
      assert |plan| >= 1;
      assert r.launched[..|w.launched|] == w.launched;
    } else if req.mode.ReplicaSet? {
      ReplSetWorldEffect(w, req.dir, req.port, req.name, req.nodes, req.arbiter);
      var ls := ReplSetLaunches(req.dir, req.port, req.name, req.nodes, req.arbiter);
      assert |ls| == Max0(req.nodes) + (if req.arbiter then 1 else 0);
      assert r.launched == w.launched + ls;
    }
  }

  /** Every process of one launch gets its own port: with a non-negative node
      count (or single nodes) the k-th process started listens on `--port`
      plus k. */
  lemma LaunchPorts(w: World, req: Request)
    requires req.mode.Single? || req.nodes >= 0
    ensures var r := LaunchWorld(w, req);
            |w.launched| <= |r.launched| && OnPortsFrom(r.launched[|w.launched|..], req.port)
  {
    var r := LaunchWorld(w, req);
    var added: seq<Launch>;
    if req.sharded != [] {
      ShardedWorldEffect(w, req);
      ShardedPorts(req);
      added := ShardedPlan(req);
    } else if req.mode.Single? {
      added := [MongoD(Standalone, DbPath(DataPath(req.dir, None)), LogPath(DataPath(req.dir, None)),
                       req.port, None, "")];
    } else {
      ReplSetWorldEffect(w, req.dir, req.port, req.name, req.nodes, req.arbiter);
      added := ReplSetLaunches(req.dir, req.port, req.name, req.nodes, req.arbiter);
      ReplSetPorts(req.dir, req.port, req.name, req.nodes, req.arbiter);
    }
    assert r.launched == w.launched + added;
    assert r.launched[|w.launched|..] == added;
  }

  /** Running the same launch again creates no directory and sends no second
      `replSetInitiate`: every set the first run initiated already answers. */
  lemma LaunchRerun(w: World, req: Request)
    ensures var w1 := LaunchWorld(w, req);
            var w2 := LaunchWorld(w1, req);
            w2.dirs == w1.dirs && w2.configured == w1.configured && w2.initiated == w1.initiated
  {
    if req.sharded != [] {
      ShardedRerun(w, req);
    } else if req.mode.ReplicaSet? {
      ReplSetRerun(w, req.dir, req.port, req.name, req.nodes, req.arbiter);
    }
  }
}
