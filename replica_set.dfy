/** `_launchReplSet`: launch the data nodes and the arbiter of one replica
    set, build its configuration document in append order, and initiate it
    unless it is already configured. */
module ReplicaSet {
  import opened Text
  import opened Layout
  import opened Commands
  import opened Deployment

  /** `'%s/rs%i' % (name, i + 1)`: data node i lives in `<name>/rs<i+1>`. */
  function MemberName(name: string, i: int): string { name + "/rs" + IntToString(i + 1) }

  /** `'%s/arb' % name`. */
  function ArbiterName(name: string): string { name + "/arb" }

  /** `configDoc['members'].append(...)` with `len(members)` as the new `_id`. */
  function AddMember(members: seq<Member>, host: string, arbiterOnly: bool): seq<Member>
  {
    members + [Member(|members|, host, arbiterOnly)]
  }

  /** The members registered by the first n rounds of the data-node loop. */
  function DataMembers(portstart: int, n: nat): seq<Member>
  {
    if n == 0 then [] else AddMember(DataMembers(portstart, n - 1), Host(portstart + n - 1), false)
  }

  /** The document `_launchReplSet` builds (and sends if it initiates). */
  function ReplSetDoc(name: string, portstart: int, numdata: int, arbiter: bool): ConfigDoc
  {
    var data := DataMembers(portstart, Max0(numdata));
    ConfigDoc(name, if arbiter then AddMember(data, Host(portstart + numdata), true) else data)
  }

  /** The world after the whole of `_launchReplSet`: the data nodes and then
      the arbiter are launched in that order, each with its db directory, and
      `replSetInitiate` goes to the seed unless the set already answers. */
  function ReplSetWorld(w: World, basedir: string, portstart: int, name: string,
                        numdata: int, arbiter: bool): World
  {
    var started := w.(launched := w.launched + ReplSetLaunches(basedir, portstart, name, numdata, arbiter),
                      dirs := w.dirs + ReplSetDirs(basedir, name, numdata, arbiter));
    InitiateOrSkip(started, portstart, ReplSetDoc(name, portstart, numdata, arbiter))
  }

  /** `_launchReplSet`. The readiness threads it starts and joins return
      nothing it looks at, so they are absent; initiation follows whether or
      not the members came up. The returned document is the one initiation
      would carry. */
  method LaunchReplSet(w0: World, basedir: string, portstart: int, name: string,
                       numdata: int, arbiter: bool)
    returns (w: World, configDoc: ConfigDoc)
    ensures w == ReplSetWorld(w0, basedir, portstart, name, numdata, arbiter)
    ensures configDoc == ReplSetDoc(name, portstart, numdata, arbiter)
  {
    var members;
    w, members := StartDataNodes(w0, basedir, portstart, name, numdata);
    ghost var data := members;
    ghost var dataLaunches := MemberLaunches(basedir, portstart, name, Max0(numdata));
    ghost var dataDirs := MemberDirs(basedir, name, Max0(numdata));
    if arbiter {
      ghost var before := w;
      w := StartMongoD(w, Arbiter, basedir, Some(ArbiterName(name)), portstart + numdata, Some(name), "");
      var host := Host(portstart + numdata);
      members := members + [Member(|members|, host, true)];
      assert members == AddMember(data, Host(portstart + numdata), true);
      assert w.launched == before.launched + [ArbiterLaunch(basedir, portstart, name, numdata)];
      assert w.dirs == before.dirs + {DbPath(ArbiterDataPath(basedir, name))};
      AppendAssoc(w0.launched, dataLaunches, [ArbiterLaunch(basedir, portstart, name, numdata)]);
      UnionAssoc(w0.dirs, dataDirs, {DbPath(ArbiterDataPath(basedir, name))});
    } else {
      assert dataLaunches + [] == dataLaunches;
      assert dataDirs + {} == dataDirs;
    }
    assert w == w0.(launched := w0.launched + ReplSetLaunches(basedir, portstart, name, numdata, arbiter),
                    dirs := w0.dirs + ReplSetDirs(basedir, name, numdata, arbiter));
    configDoc := ConfigDoc(name, members);
    assert configDoc == ReplSetDoc(name, portstart, numdata, arbiter);
    // the `replSetGetStatus` probe, and `replSetInitiate` when it fails
    w := InitiateOrSkip(w, portstart, configDoc);
  }

  /** The data-node loop of `_launchReplSet`: node i gets directory
      `<name>/rs<i+1>` and port `portstart + i`, and is registered as member i. */
  method StartDataNodes(w0: World, basedir: string, portstart: int, name: string, numdata: int)
    returns (w: World, members: seq<Member>)
    ensures w == w0.(launched := w0.launched + MemberLaunches(basedir, portstart, name, Max0(numdata)),
                     dirs := w0.dirs + MemberDirs(basedir, name, Max0(numdata)))
    ensures members == DataMembers(portstart, Max0(numdata))
  {
    w := w0;
    members := [];
    var i := 0;
    assert MemberLaunches(basedir, portstart, name, 0) == [];
    assert MemberDirs(basedir, name, 0) == {};
    while i < numdata
      invariant 0 <= i <= Max0(numdata)
      invariant w == w0.(launched := w0.launched + MemberLaunches(basedir, portstart, name, i),
                         dirs := w0.dirs + MemberDirs(basedir, name, i))
      invariant members == DataMembers(portstart, i)
    {
      ghost var before := w;
      w := StartMongoD(w, DataBearing, basedir, Some(MemberName(name, i)), portstart + i, Some(name), "");
      var host := Host(portstart + i);
      members := members + [Member(|members|, host, false)];
      assert members == AddMember(DataMembers(portstart, i), Host(portstart + i), false);
      assert w.launched == before.launched + [MemberLaunch(basedir, portstart, name, i)];
      assert w.dirs == before.dirs + {DbPath(MemberDataPath(basedir, name, i))};
      AppendAssoc(w0.launched, MemberLaunches(basedir, portstart, name, i), [MemberLaunch(basedir, portstart, name, i)]);
      UnionAssoc(w0.dirs, MemberDirs(basedir, name, i), {DbPath(MemberDataPath(basedir, name, i))});
      i := i + 1;
    }
    assert i == Max0(numdata);
  }

  // ---------------------------------------------------------------------
  // The configuration document

  /** Ids follow registration order: the k-th registered data node has `_id`
      k and host `127.0.0.1:<portstart + k>`, and is not an arbiter. */
  lemma {:induction false} DataMembersShape(portstart: int, n: nat)
    ensures |DataMembers(portstart, n)| == n
    ensures forall k :: 0 <= k < n ==>
              DataMembers(portstart, n)[k] == Member(k, Host(portstart + k), false)
  {
    if n > 0 {
      DataMembersShape(portstart, n - 1);
    }
  }

  /** The document `_id` is the set name; the data nodes come first with ids
      0.. and consecutive ports from `portstart`; the arbiter, if requested,
      is last, with id equal to the number of data nodes, port
      `portstart + numdata` and `arbiterOnly`. No other member is an arbiter. */
  lemma ReplSetDocShape(name: string, portstart: int, numdata: int, arbiter: bool)
    ensures var doc := ReplSetDoc(name, portstart, numdata, arbiter);
            doc.id == name
            && |doc.members| == Max0(numdata) + (if arbiter then 1 else 0)
            && (forall k :: 0 <= k < |doc.members| ==> doc.members[k].id == k)
            && (forall k :: 0 <= k < Max0(numdata) ==>
                  doc.members[k] == Member(k, Host(portstart + k), false))
            && (arbiter ==> doc.members[Max0(numdata)]
                              == Member(Max0(numdata), Host(portstart + numdata), true))
            && (forall k :: 0 <= k < |doc.members| ==> (doc.members[k].arbiterOnly <==> arbiter && k == Max0(numdata)))
  {
    DataMembersShape(portstart, Max0(numdata));
  }

  // ---------------------------------------------------------------------
  // What is launched and created

  function MemberDataPath(basedir: string, name: string, k: int): string
  {
    DataPath(basedir, Some(MemberName(name, k)))
  }

  function ArbiterDataPath(basedir: string, name: string): string
  {
    DataPath(basedir, Some(ArbiterName(name)))
  }

  function MemberLaunch(basedir: string, portstart: int, name: string, k: int): Launch
  {
    var dp := MemberDataPath(basedir, name, k);
    MongoD(DataBearing, DbPath(dp), LogPath(dp), portstart + k, Some(name), "")
  }

  function ArbiterLaunch(basedir: string, portstart: int, name: string, numdata: int): Launch
  {
    var dp := ArbiterDataPath(basedir, name);
    MongoD(Arbiter, DbPath(dp), LogPath(dp), portstart + numdata, Some(name), "")
  }

  /** The launches of the first n data nodes. */
  function MemberLaunches(basedir: string, portstart: int, name: string, n: nat): (r: seq<Launch>)
    ensures |r| == n
    ensures forall k :: 0 <= k < n ==> r[k] == MemberLaunch(basedir, portstart, name, k)
  {
    if n == 0 then [] else MemberLaunches(basedir, portstart, name, n - 1) + [MemberLaunch(basedir, portstart, name, n - 1)]
  }

  /** The launches of one replica set, in order. */
  function ReplSetLaunches(basedir: string, portstart: int, name: string,
                           numdata: int, arbiter: bool): seq<Launch>
  {
    MemberLaunches(basedir, portstart, name, Max0(numdata))
    + (if arbiter then [ArbiterLaunch(basedir, portstart, name, numdata)] else [])
  }

  /** The db directories of one replica set. */
  function ReplSetDirs(basedir: string, name: string, numdata: int, arbiter: bool): set<string>
  {
    MemberDirs(basedir, name, Max0(numdata))
    + (if arbiter then {DbPath(ArbiterDataPath(basedir, name))} else {})
  }

  /** The db directories of the first n data nodes. */
  function MemberDirs(basedir: string, name: string, n: nat): set<string>
  {
    if n == 0 then {} else MemberDirs(basedir, name, n - 1) + {DbPath(MemberDataPath(basedir, name, n - 1))}
  }

  /** `_launchReplSet` appends the set's launches, adds its db directories,
      and sends `replSetInitiate` to `portstart` exactly when the set did not
      already answer there; afterwards the set answers. */
  lemma ReplSetWorldEffect(w: World, basedir: string, portstart: int, name: string,
                           numdata: int, arbiter: bool)
    ensures var r := ReplSetWorld(w, basedir, portstart, name, numdata, arbiter);
            r.launched == w.launched + ReplSetLaunches(basedir, portstart, name, numdata, arbiter)
            && r.dirs == w.dirs + ReplSetDirs(basedir, name, numdata, arbiter)
            && r.configured == w.configured + {portstart}
            && r.initiated == w.initiated
               + (if portstart in w.configured then []
                  else [Initiate(portstart, ReplSetDoc(name, portstart, numdata, arbiter))])
  {
  }

  /** With a non-negative node count the set occupies the consecutive ports
      `portstart .. portstart + numdata (+1 with an arbiter)`, in launch order. */
  lemma ReplSetPorts(basedir: string, portstart: int, name: string, numdata: int, arbiter: bool)
    requires numdata >= 0
    ensures |ReplSetLaunches(basedir, portstart, name, numdata, arbiter)| == numdata + (if arbiter then 1 else 0)
    ensures OnPortsFrom(ReplSetLaunches(basedir, portstart, name, numdata, arbiter), portstart)
  {
    var ls := ReplSetLaunches(basedir, portstart, name, numdata, arbiter);
    forall k | 0 <= k < |ls| ensures ls[k].port == portstart + k {
      if k < numdata {
        assert ls[k] == MemberLaunch(basedir, portstart, name, k);
      }
    }
  }

  lemma MemberNameInjective(name: string, k1: nat, k2: nat)
    requires MemberName(name, k1) == MemberName(name, k2)
    ensures k1 == k2
  {
    var p := name + "/rs";
    assert IntToString(k1 + 1) == MemberName(name, k1)[|p|..];
    assert IntToString(k2 + 1) == MemberName(name, k2)[|p|..];
    NatToStringInjective(k1 + 1, k2 + 1);
  }

  /** No two members of one set share a db directory: data node k lives in
      `<name>/rs<k+1>` and the arbiter in `<name>/arb`. */
  lemma MemberDirsDistinct(basedir: string, name: string, numdata: int)
    ensures forall k1, k2 :: 0 <= k1 < Max0(numdata) && 0 <= k2 < Max0(numdata) && k1 != k2 ==>
              DbPath(MemberDataPath(basedir, name, k1)) != DbPath(MemberDataPath(basedir, name, k2))
    ensures forall k :: 0 <= k < Max0(numdata) ==>
              DbPath(MemberDataPath(basedir, name, k)) != DbPath(ArbiterDataPath(basedir, name))
  {
    forall k1, k2 | 0 <= k1 < Max0(numdata) && 0 <= k2 < Max0(numdata) && k1 != k2
      ensures DbPath(MemberDataPath(basedir, name, k1)) != DbPath(MemberDataPath(basedir, name, k2))
    {
      if DbPath(MemberDataPath(basedir, name, k1)) == DbPath(MemberDataPath(basedir, name, k2)) {
        var n1, n2 := MemberName(name, k1), MemberName(name, k2);
        assert n1[0] == n2[0];
        DbPathOfNameInjective(basedir, n1, n2);
        MemberNameInjective(name, k1, k2);
      }
    }
    forall k | 0 <= k < Max0(numdata)
      ensures DbPath(MemberDataPath(basedir, name, k)) != DbPath(ArbiterDataPath(basedir, name))
    {
      var n1, n2 := MemberName(name, k), ArbiterName(name);
      assert n1[|name| + 1] == 'r' && n2[|name| + 1] == 'a';
      assert n1[0] == n2[0];
      if DbPath(MemberDataPath(basedir, name, k)) == DbPath(ArbiterDataPath(basedir, name)) {
        DbPathOfNameInjective(basedir, n1, n2);
      }
    }
  }

  /** Launching the same set again creates no directory, spawns the same
      processes once more, and sends no second `replSetInitiate`: over both
      runs at most one initiate is sent. */
  lemma ReplSetRerun(w: World, basedir: string, portstart: int, name: string,
                     numdata: int, arbiter: bool)
    ensures var w1 := ReplSetWorld(w, basedir, portstart, name, numdata, arbiter);
            var w2 := ReplSetWorld(w1, basedir, portstart, name, numdata, arbiter);
            w2.dirs == w1.dirs
            && w2.configured == w1.configured
            && w2.initiated == w1.initiated
            && |w1.initiated| <= |w.initiated| + 1
            && w2.launched == w1.launched + ReplSetLaunches(basedir, portstart, name, numdata, arbiter)
  {
    var w1 := ReplSetWorld(w, basedir, portstart, name, numdata, arbiter);
    ReplSetWorldEffect(w, basedir, portstart, name, numdata, arbiter);
    ReplSetWorldEffect(w1, basedir, portstart, name, numdata, arbiter);
  }
}
