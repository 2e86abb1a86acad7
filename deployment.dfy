/** The outside world the launcher acts on, and the loop-free launch steps:
    `_launchMongoD`, `_launchMongoS`, `_launchSingle`, `_launchConfig`, and the
    initiate-or-skip tail of `_launchReplSet`. */
module Deployment {
  import opened Text
  import opened Layout
  import opened Commands

  /** Which of the two mutually exclusive modes was chosen. */
  datatype Mode = Single | ReplicaSet

  /** The parsed command line (`self.args`). An absent `--sharded` and an
      empty one are both the empty list: the code treats them alike. */
  datatype Request = Request(
    dir: string, mode: Mode, nodes: int, arbiter: bool, name: string,
    sharded: seq<string>, config: int, port: int)

  /** One entry of a replica-set configuration document; `arbiterOnly` false
      stands for the key being absent. */
  datatype Member = Member(id: int, host: string, arbiterOnly: bool)

  datatype ConfigDoc = ConfigDoc(id: string, members: seq<Member>)

  /** A `replSetInitiate` command sent to `127.0.0.1:<seedPort>`. */
  datatype Initiate = Initiate(seedPort: int, doc: ConfigDoc)

  /** The existing directories, the seed ports at which a replica set already
      answers `replSetGetStatus`, and what the launcher has spawned and sent.
      Spawns and initiates are two logs, each in order; how they interleave
      is not recorded. */
  datatype World = World(
    dirs: set<string>, configured: set<int>,
    launched: seq<Launch>, initiated: seq<Initiate>)

  function Host(port: int): string { "127.0.0.1:" + IntToString(port) }

  /** A host string is `127.0.0.1:` followed by the port's digits; it holds
      no ',' and its port text reads back as the port. */
  lemma HostShape(port: int)
    ensures |Host(port)| > 10 && Host(port)[..10] == "127.0.0.1:"
    ensures Host(port)[10..] == IntToString(port)
    ensures ParseInt(Host(port)[10..]) == Some(port)
    ensures Excludes(Host(port), ',')
  {
    HostParts(port);
    ParseIntOfIntToString(port);
    IntToStringExcludes(port, ',');
    ExcludesAppend("127.0.0.1:", IntToString(port), ',');
  }

  lemma HostParts(port: int)
    ensures Host(port) == "127.0.0.1:" + IntToString(port)
    ensures |Host(port)| > 10 && Host(port)[..10] == "127.0.0.1:"
    ensures Host(port)[10..] == IntToString(port)
  {
    IntToStringExcludes(port, ',');
  }

  lemma ExcludesAppend(a: string, b: string, c: char)
    requires Excludes(a, c) && Excludes(b, c)
    ensures Excludes(a + b, c)
  {
    forall i | 0 <= i < |a + b| ensures (a + b)[i] != c {
      if i >= |a| {
        assert (a + b)[i] == b[i - |a|];
      }
    }
  }

  /** The launches `ls` listen on `start`, `start + 1`, ... in launch order. */
  predicate OnPortsFrom(ls: seq<Launch>, start: int)
  {
    forall i :: 0 <= i < |ls| ==> ls[i].port == start + i
  }

  /** Consecutive runs of ports concatenate into one. */
  lemma OnPortsFromAppend(a: seq<Launch>, b: seq<Launch>, start: int)
    requires OnPortsFrom(a, start) && OnPortsFrom(b, start + |a|)
    ensures OnPortsFrom(a + b, start)
  {
    forall i | 0 <= i < |a + b| ensures (a + b)[i].port == start + i {
      if i >= |a| {
        assert (a + b)[i] == b[i - |a|];
      }
    }
  }

  lemma AppendAssoc<T>(a: seq<T>, b: seq<T>, c: seq<T>)
    ensures (a + b) + c == a + (b + c)
  {
  }

  lemma UnionAssoc<T>(a: set<T>, b: set<T>, c: set<T>)
    ensures (a + b) + c == a + (b + c)
  {
  }

  lemma MulStep(k: nat, width: int)
    ensures (k + 1) * width == k * width + width
    ensures width >= 0 ==> k * width >= 0
  {
  }

  /** `_launchMongoD`: hands one `mongod` command line to the shell; its exit
      status is not looked at. */
  function LaunchMongoD(w: World, role: Role, dbpath: string, logpath: string, port: int,
                        replset: Option<string>, extra: string): (r: World)
    ensures r.dirs == w.dirs && r.configured == w.configured && r.initiated == w.initiated
    ensures r.launched == w.launched + [MongoD(role, dbpath, logpath, port, replset, extra)]
  {
    w.(launched := w.launched + [MongoD(role, dbpath, logpath, port, replset, extra)])
  }

  /** `_launchMongoS`: hands the `mongos` command line to the shell. */
  function LaunchMongoS(w: World, logpath: string, port: int, configdb: string): (r: World)
    ensures r.dirs == w.dirs && r.configured == w.configured && r.initiated == w.initiated
    ensures r.launched == w.launched + [MongoS(logpath, port, configdb)]
  {
    w.(launched := w.launched + [MongoS(logpath, port, configdb)])
  }

  /** The step every `mongod` launcher shares: `_createPaths`, then
      `_launchMongoD` with `<datapath>/db` and `<datapath>/mongod.log`. */
  function StartMongoD(w: World, role: Role, basedir: string, name: Option<string>, port: int,
                       replset: Option<string>, extra: string): (r: World)
    ensures r.configured == w.configured && r.initiated == w.initiated
    ensures r.dirs == w.dirs + {DbPath(DataPath(basedir, name))}
    ensures r.launched == w.launched + [MongoD(role, DbPath(DataPath(basedir, name)),
                                               LogPath(DataPath(basedir, name)), port, replset, extra)]
  {
    var created := CreatePaths(w.dirs, basedir, name);
    LaunchMongoD(w.(dirs := created.dirs), role, DbPath(created.dataPath),
                 LogPath(created.dataPath), port, replset, extra)
  }

  /** `_launchSingle`: a stand-alone `mongod` without `--replSet` on the db
      and log paths of `<basedir>/data[/<name>]`, whose db directory is
      created; nothing is initiated. */
  function LaunchSingle(w: World, basedir: string, port: int, name: Option<string>): (r: World)
    ensures r.configured == w.configured && r.initiated == w.initiated
    ensures r.dirs == w.dirs + {DbPath(DataPath(basedir, name))}
    ensures r.launched == w.launched + [MongoD(Standalone, DbPath(DataPath(basedir, name)),
                                               LogPath(DataPath(basedir, name)), port, None, "")]
  {
    StartMongoD(w, Standalone, basedir, name, port, None, "")
  }

  /** `_launchConfig`: a config server, `--configsvr` and no `--replSet`, on
      the db and log paths of `<basedir>/data[/<name>]`, whose db directory
      is created; nothing is initiated. */
  function LaunchConfig(w: World, basedir: string, port: int, name: Option<string>): (r: World)
    ensures r.configured == w.configured && r.initiated == w.initiated
    ensures r.dirs == w.dirs + {DbPath(DataPath(basedir, name))}
    ensures r.launched == w.launched + [MongoD(ConfigServer, DbPath(DataPath(basedir, name)),
                                               LogPath(DataPath(basedir, name)), port, None, "--configsvr")]
  {
    StartMongoD(w, ConfigServer, basedir, name, port, None, "--configsvr")
  }

  /** The tail of `_launchReplSet`: `replSetGetStatus` at the seed answers
      exactly when the set is already configured; otherwise it raises
      `OperationFailure` and `replSetInitiate` is sent to the seed with the
      document, after which the set is configured. */
  function InitiateOrSkip(w: World, seedPort: int, doc: ConfigDoc): (r: World)
    ensures seedPort in r.configured && r.configured == w.configured + {seedPort}
    ensures r.dirs == w.dirs && r.launched == w.launched
    ensures seedPort in w.configured ==> r.initiated == w.initiated
    ensures seedPort !in w.configured ==> r.initiated == w.initiated + [Initiate(seedPort, doc)]
  {
    if seedPort in w.configured then w
    else w.(initiated := w.initiated + [Initiate(seedPort, doc)],
            configured := w.configured + {seedPort})
  }

  /** A second probe of the same set never initiates it again, whatever
      document it would carry. */
  lemma InitiateAtMostOnce(w: World, seedPort: int, doc1: ConfigDoc, doc2: ConfigDoc)
    ensures var w1 := InitiateOrSkip(w, seedPort, doc1);
            InitiateOrSkip(w1, seedPort, doc2) == w1
            && |w1.initiated| <= |w.initiated| + 1
  {
  }

  /** The single-node layout: with a base directory not ending in '/', one
      `mongod` at the requested port on `<basedir>/data/db`, logging to
      `<basedir>/data/mongod.log`, and only that directory is created. */
  lemma LaunchSingleLayout(w: World, basedir: string, port: int)
    requires basedir != "" && basedir[|basedir| - 1] != '/'
    ensures var r := LaunchSingle(w, basedir, port, None);
            r.dirs == w.dirs + {basedir + "/data/db"}
            && r.launched == w.launched
               + [MongoD(Standalone, basedir + "/data/db", basedir + "/data/mongod.log", port, None, "")]
            && r.initiated == w.initiated
  {
    DataPathShape(basedir, None);
    assert basedir + "/data" + "/db" == basedir + "/data/db";
    assert basedir + "/data" + "/mongod.log" == basedir + "/data/mongod.log";
  }
}
