/** Where each process keeps its data and its log (`_createPaths`), over an
    abstract set of directories that already exist. */
module Layout {
  import opened Text

  /** Python's `os.path.join(a, b)` on POSIX: an absolute `b` replaces `a`;
      otherwise a '/' is inserted unless `a` is empty or already ends in one. */
  function PathJoin(a: string, b: string): string
  {
    if |b| > 0 && b[0] == '/' then b
    else if a == "" || a[|a| - 1] == '/' then a + b
    else a + "/" + b
  }

  /** `<basedir>/data`, or `<basedir>/data/<name>` when `name` is truthy. */
  function DataPath(basedir: string, name: Option<string>): string
  {
    if Truthy(name) then PathJoin(PathJoin(basedir, "data"), name.value)
    else PathJoin(basedir, "data")
  }

  /** A joined path ends with the part joined on. */
  lemma PathJoinEnds(a: string, b: string)
    ensures |PathJoin(a, b)| >= |b| && PathJoin(a, b)[|PathJoin(a, b)| - |b|..] == b
  {
  }

  function DbPath(datapath: string): string { PathJoin(datapath, "db") }

  function LogPath(datapath: string): string { PathJoin(datapath, "mongod.log") }

  /** The router's log file, `<basedir>/data/mongos.log`. */
  function MongosLogPath(basedir: string): string
  {
    PathJoin(PathJoin(basedir, "data"), "mongos.log")
  }

  datatype Created = Created(dataPath: string, dirs: set<string>)

  /** `_createPaths`: derive the data path and create its `db` directory
      unless it already exists; the data path is returned. */
  function CreatePaths(dirs: set<string>, basedir: string, name: Option<string>): (r: Created)
    ensures r.dataPath == DataPath(basedir, name)
    ensures r.dirs == dirs + {DbPath(r.dataPath)}
  {
    var datapath := DataPath(basedir, name);
    var dbpath := DbPath(datapath);
    if dbpath !in dirs then Created(datapath, dirs + {dbpath})
    else Created(datapath, dirs)
  }

  /** The directory set changes exactly when the db directory was absent. */
  lemma CreatePathsOnlyWhenAbsent(dirs: set<string>, basedir: string, name: Option<string>)
    ensures var r := CreatePaths(dirs, basedir, name);
            DbPath(r.dataPath) in r.dirs
            && (DbPath(r.dataPath) in dirs <==> r.dirs == dirs)
  {
  }

  /** Running `_createPaths` again with the same arguments changes nothing and
      returns the same path. */
  lemma CreatePathsIdempotent(dirs: set<string>, basedir: string, name: Option<string>)
    ensures CreatePaths(CreatePaths(dirs, basedir, name).dirs, basedir, name)
            == CreatePaths(dirs, basedir, name)
  {
  }

  /** A plain relative path: not empty, not absolute, no trailing '/'. */
  predicate Relative(p: string)
  {
    p != "" && p[0] != '/' && p[|p| - 1] != '/'
  }

  /** With a base directory that does not end in '/', the layout is the
      literal `<basedir>/data[/<name>]/db` and `.../mongod.log`. */
  lemma DataPathShape(basedir: string, name: Option<string>)
    requires basedir != "" && basedir[|basedir| - 1] != '/'
    requires Truthy(name) ==> Relative(name.value)
    ensures !Truthy(name) ==> DataPath(basedir, name) == basedir + "/data"
    ensures Truthy(name) ==> DataPath(basedir, name) == basedir + "/data/" + name.value
    ensures DbPath(DataPath(basedir, name)) == DataPath(basedir, name) + "/db"
    ensures LogPath(DataPath(basedir, name)) == DataPath(basedir, name) + "/mongod.log"
    ensures MongosLogPath(basedir) == basedir + "/data/mongos.log"
  {
    var d := basedir + "/data";
    JoinPlain(basedir, "data");
    assert basedir + "/" + "data" == d;
    if Truthy(name) {
      JoinPlain(d, name.value);
      assert d + "/" + name.value == basedir + "/data/" + name.value;
    }
    var dp := DataPath(basedir, name);
    assert dp[|dp| - 1] != '/' by {
      PathJoinEnds(basedir, "data");
      if Truthy(name) {
        PathJoinEnds(d, name.value);
        assert dp[|dp| - 1] == name.value[|name.value| - 1];
      } else {
        assert dp[|dp| - 1] == "data"[3];
      }
    }
    JoinPlain(dp, "db");
    JoinPlain(dp, "mongod.log");
    JoinPlain(d, "mongos.log");
    assert d + "/" + "mongos.log" == basedir + "/data/mongos.log";
  }

  /** Joining a relative part onto a directory without a trailing '/'
      inserts one '/'. */
  lemma JoinPlain(a: string, b: string)
    requires a != "" && a[|a| - 1] != '/'
    requires b != "" && b[0] != '/'
    ensures PathJoin(a, b) == a + "/" + b
  {
  }

  /** Joining keeps the last character of a non-empty name. */
  lemma PathJoinLast(a: string, n: string)
    requires n != ""
    ensures PathJoin(a, n) != "" && PathJoin(a, n)[|PathJoin(a, n)| - 1] == n[|n| - 1]
  {
  }

  /** Names that are both absolute or both relative lead to different paths
      when they differ. */
  lemma PathJoinCancel(a: string, n1: string, n2: string)
    requires n1 != "" && n2 != "" && (n1[0] == '/') == (n2[0] == '/')
    requires PathJoin(a, n1) == PathJoin(a, n2)
    ensures n1 == n2
  {
    if n1[0] != '/' {
      if a == "" || a[|a| - 1] == '/' {
        assert n1 == PathJoin(a, n1)[|a|..];
        assert n2 == PathJoin(a, n2)[|a|..];
      } else {
        assert n1 == PathJoin(a, n1)[|a| + 1..];
        assert n2 == PathJoin(a, n2)[|a| + 1..];
      }
    }
  }

  /** Distinct names (non-empty, not ending in '/', both relative or both
      absolute) under the same base directory get distinct db path strings. */
  lemma DbPathOfNameInjective(basedir: string, n1: string, n2: string)
    requires n1 != "" && n2 != "" && (n1[0] == '/') == (n2[0] == '/')
    requires n1[|n1| - 1] != '/' && n2[|n2| - 1] != '/'
    requires DbPath(DataPath(basedir, Some(n1))) == DbPath(DataPath(basedir, Some(n2)))
    ensures n1 == n2
  {
    var d1 := DataPath(basedir, Some(n1));
    var d2 := DataPath(basedir, Some(n2));
    PathJoinLast(PathJoin(basedir, "data"), n1);
    PathJoinLast(PathJoin(basedir, "data"), n2);
    assert DbPath(d1) == d1 + "/db" && DbPath(d2) == d2 + "/db";
    assert d1 == DbPath(d1)[..|d1|] && d2 == DbPath(d2)[..|d2|];
    PathJoinCancel(PathJoin(basedir, "data"), n1, n2);
  }
}
