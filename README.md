# mlaunch launch plan in Dafny

`mlaunch.py` starts local MongoDB deployments. A deployment is one stand-alone
`mongod`, a replica set, or a sharded cluster built from several singles or
replica sets plus config servers and a `mongos` router. This project models
the part of the launcher that decides what to start and in which order:
- the dispatch in `launch`;
- the shard-name rule and the port cursor of `_launchSharded`;
- the member loop and configuration document of `_launchReplSet`, with its
  initiate-or-skip tail;
- `_launchConfig` and `_launchSingle`;
- the directory layout of `_createPaths`;
- the command lines that `_launchMongoD` and `_launchMongoS` hand to the shell.

The outside world is an explicit value, `Deployment.World`. It holds:
- the set of existing directories;
- the seed ports at which a replica set already answers `replSetGetStatus`;
- the processes spawned, in order;
- the `replSetInitiate` commands sent, in order.

Each launch step maps one world to the next. Loop-free code becomes
functions on `World`: `_createPaths`, `_launchSingle`, `_launchConfig`,
`_launchMongoD`, `_launchMongoS` and the initiate decision. The looping code
becomes methods with `while` loops: the data-node loop of `_launchReplSet`,
the shard loop and the config-server loop of `_launchSharded`. Each of these
methods is proved equal to a declarative description of the world it builds
(`ReplSetWorld`, `ShardsWorld`, `ConfigsWorld`, `ShardedWorld`). Lemmas then
state the properties of those descriptions:
- ports are consecutive and distinct;
- member ids follow append order and the arbiter comes last;
- shard names are generated and read back;
- `--configdb` splits back into the config servers' hosts;
- directory creation is idempotent;
- re-running a launch initiates nothing twice.

Python semantics are written out where the code depends on them:
- truthiness of `name` and `replset`: `''` counts as absent;
- POSIX `os.path.join`;
- `'%i'`, `'%.2i'` and `int()`;
- `','.join`;
- the shell's splitting of an unquoted command line at blanks.

Files and modules:
- `text.dfy` (`Text`): formatting, parsing, joining and splitting.
- `layout.dfy` (`Layout`): paths and `_createPaths`.
- `commands.dfy` (`Commands`): launches and command lines.
- `deployment.dfy` (`Deployment`): the request, the world, the loop-free launch steps and initiate-or-skip.
- `replica_set.dfy` (`ReplicaSet`): `_launchReplSet`.
- `sharded.dfy` (`Sharded`): `_launchSharded`.
- `launcher.dfy` (`Launcher`): `launch`.

In these places the model follows exactly what the code does:
- Initiation is attempted even when a member never came up. The readiness
  threads' results are never looked at.
- Any `OperationFailure` from the status probe leads to `replSetInitiate`,
  whatever its cause. In the model, a set that does not answer is one not
  yet configured. Connection errors are not caught (see "Left out").
- The spawn exit codes are ignored.
- The trailing usage text mentions a `logs/` directory, but the code logs
  to `<data path>/mongod.log`. The model uses the code's paths.
- `--nodes` accepts any integer, and the shard loop moves the port cursor by
  the node count whatever its sign. The model keeps negative counts and
  states what they do (`Sharded.NegativeNodesReusePort`).
- A shard may be named `config`. With single-node shards and one config
  server, that shard and the config server then share the db directory
  `<base>/data/config/db` (`Sharded.ShardNamedConfigSharesDb`).
- `int()` lets white space follow the sign, so `--sharded '+ 3'` asks for
  three numbered shards (`Sharded.ShardNamesSignedCount`).
- `--config` is limited to 1 or 3 by the option parser. The code uses its
  `else` branch for any count other than 1, and so does the model, so no
  precondition is needed.

## Model

| member | source | states |
|---|---|---|
| Launcher.Launch | mlaunch.py:61-67 | the world after `launch` is `LaunchWorld`: a non-empty `--sharded` list builds the sharded cluster whatever the mode; an empty list gives the stand-alone node for `--single` and the replica set for `--replicaset` |
| Launcher.LaunchGrows | mlaunch.py:61-67 | a launch only appends processes and initiates and only adds directories and configured sets; it starts at least one process exactly unless it is a replica set with no data node and no arbiter |
| Launcher.LaunchPorts | mlaunch.py:61-67 | with a non-negative node count, the k-th process a launch starts listens on `--port` + k, so every port is distinct and they increase in launch order |
| Launcher.LaunchRerun | mlaunch.py:61-67 | running the same launch a second time creates no directory, configures nothing new and sends no further `replSetInitiate` |
| Layout.CreatePaths | mlaunch.py:70-82 | returns `<base>/data[/<name>]` and afterwards its `db` directory exists, with nothing else added |
| Layout.CreatePathsOnlyWhenAbsent | mlaunch.py:77-78 | the directory set changes exactly when the db directory did not exist yet |
| Layout.CreatePathsIdempotent | mlaunch.py:70-82 | a second call with the same arguments returns the same path and changes no directory |
| Layout.DataPath | mlaunch.py:70-74 | `<base>/data`, or `<base>/data/<name>` when the name is truthy, joined as `os.path.join` does; its literal shape is stated by `Layout.DataPathShape` and its injectivity by `Layout.DbPathOfNameInjective` |
| Layout.DataPathShape | mlaunch.py:71-76 | for a base without a trailing '/': data path `<base>/data` or `<base>/data/<name>`, db path `<data>/db`, log `<data>/mongod.log`, mongos log `<base>/data/mongos.log` |
| Layout.DbPathOfNameInjective | mlaunch.py:71-76 | distinct names under one base directory, both relative or both absolute and not ending in '/', get distinct db path strings |
| Text.ParseIntOfIntToString | mlaunch.py:119 | the `%i` text of a port reads back with `int()` as that port |
| Text.ParseInt | mlaunch.py:90 | `int()` on a string: stated by `Text.ParseIntOfIntToString` and `Text.ParseIntSignThenBlanks` |
| Text.ParseIntSignThenBlanks | mlaunch.py:90 | white space may stand between the sign and the digits: `+`, blanks and digits read as their value, `-`, blanks and digits as minus it |
| Text.ZeroPad2Spec | mlaunch.py:91 | `%.2i` gives all digits that read back as the number, exactly two of them below 10 and the plain decimal text from 10 on (minimal zero padding) |
| Text.SplitJoinWith | mlaunch.py:123 | `','.join` is undone by splitting at ',' when no part contains ',' |
| Text.ShellWordsAround | mlaunch.py:207 | a blank in the command line separates the words on either side |
| Commands.MongoDArgv | mlaunch.py:201-207 | when every path and name consists of characters the shell takes literally (letters, digits and `-_./:,+=@%`), `mongod` receives `--replSet <name>` exactly when the set name is truthy, then dbpath, logpath and port unchanged, `--logappend`, the extra flag if any, and `--fork` |
| Commands.MongoDReplSetPrefix | mlaunch.py:202-207 | for any arguments the command starts `mongod --replSet ` exactly when the set name is truthy |
| Commands.MongoDCommand | mlaunch.py:207 | the text handed to the shell; its words are stated by `Commands.MongoDArgv` and its start by `Commands.MongoDReplSetPrefix` |
| Commands.MongoSArgv | mlaunch.py:212-213 | when the log path and the config-server string consist of characters the shell takes literally, `mongos` receives them and the port unchanged, then `--logappend --fork` |
| Commands.MongoSCommand | mlaunch.py:213 | the text handed to the shell; its words are stated by `Commands.MongoSArgv` |
| Deployment.LaunchMongoD | mlaunch.py:201-207 | appends exactly the one `mongod` launch with the given paths, port, set name and extra flag, and changes nothing else |
| Deployment.LaunchMongoS | mlaunch.py:212-213 | appends exactly the one `mongos` launch with the given log path, port and config-server string, and changes nothing else |
| Deployment.HostShape | mlaunch.py:137 | a host string is `127.0.0.1:` followed by the port text, holds no ',' and its port reads back |
| Deployment.StartMongoD | mlaunch.py:174-176 | one `mongod` is appended, on the db and log paths of the data path, and only its db directory is added |
| Deployment.LaunchSingle | mlaunch.py:188-190 | one stand-alone `mongod` without `--replSet` on the db and log paths of `<base>/data[/<name>]` at the port; only its db directory is added and nothing is initiated |
| Deployment.LaunchConfig | mlaunch.py:174-176 | one config-server `mongod` with `--configsvr` and without `--replSet` on the db and log paths of `<base>/data[/<name>]` at the port; only its db directory is added and nothing is initiated |
| Deployment.LaunchSingleLayout | mlaunch.py:188-190 | a stand-alone node runs at the port on `<base>/data/db` and logs to `<base>/data/mongod.log`, with no `--replSet` and no initiate |
| Deployment.InitiateOrSkip | mlaunch.py:163-168 | `replSetInitiate` with the document goes to the seed exactly when the set does not answer the probe; afterwards it answers |
| Deployment.InitiateAtMostOnce | mlaunch.py:163-168 | a second probe of the same seed never initiates again, so at most one initiate is sent |
| ReplicaSet.LaunchReplSet | mlaunch.py:129-170 | the world after the method is the data nodes, then the arbiter, launched with their directories, followed by initiate-or-skip at `portstart`; the returned document is the one initiation carries |
| ReplicaSet.StartDataNodes | mlaunch.py:133-141 | data node i is launched on port `portstart + i` in `<name>/rs<i+1>` and registered as member i, for each of the `max(numdata, 0)` rounds |
| ReplicaSet.DataMembersShape | mlaunch.py:137-138 | the k-th registered data node has `_id` k, host `127.0.0.1:<portstart + k>`, and no `arbiterOnly` |
| ReplicaSet.ReplSetDoc | mlaunch.py:131-149 | the configuration document; its shape is stated by `ReplicaSet.ReplSetDocShape` |
| ReplicaSet.ReplSetDocShape | mlaunch.py:131-149 | the document's `_id` is the set name; its members have ids 0.. in order, data nodes first on consecutive ports, and an arbiter last on `portstart + numdata` marked `arbiterOnly`, exactly when requested |
| ReplicaSet.ReplSetPorts | mlaunch.py:133-148 | with a non-negative node count the set's processes run on `portstart`, `portstart + 1`, … in launch order |
| ReplicaSet.MemberNameInjective | mlaunch.py:134 | distinct member indexes give distinct `<name>/rs<k>` names |
| ReplicaSet.MemberDirsDistinct | mlaunch.py:134-145 | no two members of one set, arbiter included, share a db directory |
| ReplicaSet.ReplSetRerun | mlaunch.py:163-168 | launching the same set twice creates no directory and initiates at most once in total |
| Sharded.LaunchSharded | mlaunch.py:85-123 | the shards, then the config servers, then `mongos`, as the declarative sharded world describes |
| Sharded.StartShards | mlaunch.py:98-107 | the shard loop builds the shards' world in order and leaves the cursor at `port + shards × width` |
| Sharded.StartConfigServers | mlaunch.py:111-120 | the config servers run on consecutive ports from the cursor, their host strings are collected in order, and the cursor ends one past the last |
| Sharded.ShardsWorldStep | mlaunch.py:99-107 | one round of the shard loop extends the world by exactly that shard and moves the cursor by its width |
| Sharded.ConfigsWorldStep | mlaunch.py:117-120 | one round of the config loop extends the world by exactly that config server |
| Sharded.ShardNamesGenerated | mlaunch.py:87-91 | a single argument that `int()` accepts as n gives exactly `max(n, 0)` names `shard01`, `shard02`, … in order, each reading back as its position, seven characters long for the first nine, all distinct |
| Sharded.ShardNamesVerbatim | mlaunch.py:87-96 | a single non-numeric argument, or several arguments, are the shard names as given |
| Sharded.ShardNames | mlaunch.py:87-96 | the shard names; stated by `Sharded.ShardNamesGenerated`, `Sharded.ShardNamesVerbatim` and `Sharded.ShardNamesSignedCount` |
| Sharded.ShardNamesSignedCount | mlaunch.py:87-91 | `--sharded '+ 3'` gives the three names `shard01` .. `shard03`, and `--sharded '- 2'` gives no shard |
| Sharded.ConfigNames | mlaunch.py:111-115 | the config-server names; stated by `Sharded.ConfigNamesShape` |
| Sharded.ConfigNamesShape | mlaunch.py:111-115 | one name for a count of 1 and three otherwise, all distinct and all starting with `config` |
| Sharded.ShardNamedConfigSharesDb | mlaunch.py:98-118 | with single-node shards and one config server, a shard named `config` and the config server are launched on the same db directory `<base>/data/config/db`, on neighbouring ports |
| Sharded.ShardNameReadsBack | mlaunch.py:91 | `shard<k>` is `shard` followed by at least two digits that read back as k, and is exactly seven characters for k below 10 |
| Sharded.ShardNameInjective | mlaunch.py:91 | different numbers give different shard names |
| Sharded.ShardLaunchesPorts | mlaunch.py:98-107 | with a non-negative node count, the shards' processes occupy consecutive ports from the start port, one width per shard |
| Sharded.NegativeNodesReusePort | mlaunch.py:104-107 | with `--nodes -1` and an arbiter every shard is only its arbiter, and all of them are launched on the same port, one below the start |
| Sharded.ConfigLaunchesPorts | mlaunch.py:117-120 | the config servers run on consecutive ports from the start port |
| Sharded.ShardedPorts | mlaunch.py:98-123 | with a non-negative node count the i-th process of the plan listens on `port + i`; there are `shards × width + configs + 1` of them, and the last is `mongos` on the port after the last config server |
| Sharded.ConfigServersInPlan | mlaunch.py:111-123 | the generic placement lemma that `Sharded.ConfigServersInShardedPlan` instantiates: for any prefix, start port and last launch, config server i is the i-th process after the prefix, a `mongod` with `--configsvr` and no `--replSet` on `<base>/data/<name>` listening on the start port + i, and the last launch comes last |
| Sharded.ConfigServersInShardedPlan | mlaunch.py:111-123 | in the sharded launch itself, config server i comes right after the shards' processes on the port after the shards plus i, and the last process is the `mongos` on the port after the config servers whose `--configdb` joins their hosts with ',' |
| Sharded.ConfigLaunchesAt | mlaunch.py:117-120 | the i-th config server launched is the one named i-th, on the start port + i |
| Sharded.ShardInitiatesBound | mlaunch.py:103-104 | the shard loop sends at most one initiate per shard, none for single shards, and none when every seed already answers |
| Sharded.ShardedWorldEffect | mlaunch.py:85-123 | a sharded launch appends exactly the plan, adds the shards' and config servers' db directories, and marks the replica-set shards' seeds configured |
| Sharded.ShardedRerun | mlaunch.py:85-123 | a second identical sharded launch creates no directory and sends no initiate; the first sends at most one per shard |
| Sharded.ConfigDbRoundTrip | mlaunch.py:119-123 | the `--configdb` string splits at ',' into the config servers' host strings, and each host's port reads back |

## Left out

- Readiness polling (`pingMongoD`) is not modelled. It depends on wall-clock time, sleeps and network connects, and no caller looks at its result.
- The threads that run the polling, and their joins, are not modelled. They have no effect on what is launched or sent.
- `subprocess.call` is not executed. A launch records the arguments its command line is built from, plus a role that the command line does not show. The text itself is `Commands.MongoDCommand` or `Commands.MongoSCommand` of those arguments. The exit code is ignored, as in the code.
- The pymongo connection and the administrative commands are not modelled. What remains is the configured/not-configured decision at the seed port.
- Connection errors from `Connection(...)` or from the status probe are not `OperationFailure`. In the code they are not caught and end the program; the model has no such error path. Errors from `replSetInitiate` are not modelled either.
- The order of initiates relative to launches is not modelled. `World` keeps the processes spawned and the `replSetInitiate` commands sent as two separate logs, each in its own order. In the code, a set's initiate goes out after its own members are launched and before the next shard's processes, and every initiate goes out before the config servers and `mongos` start. Neither fact can be stated over the two logs.
- Option parsing (argparse), the `print` of the arguments, `--verbose` output and the unused `--mongo` flag are not modelled. The parsed values are the model's `Request`.
- An absent `--sharded` and an empty one are both the empty list. The code treats them alike.
- The intermediate directories that `os.makedirs` creates are not modelled. Only the db directory enters the directory set.
- The trailing usage text is not part of this model.
- Commands.MongoDArgv: states the words `mongod` receives only when every path and name consists of letters, digits and `-_./:,+=@%`. The code does no quoting, so a blank, `;`, `#`, `$`, a quote, a glob character or a newline in an argument is interpreted by the shell, and the model does not say what then happens. Commands.MongoDReplSetPrefix states the `--replSet` rule for all inputs.
- Commands.MongoSArgv: the same restriction as Commands.MongoDArgv, for the log path and the config-server string.
- Text.ShellWordsAround: models only the shell's splitting at blanks (space and tab). Quoting, comments, operators, expansions and globbing are not modelled, which is why the argument-vector lemmas ask for plain arguments.
- Layout.DataPathShape: states the literal layout only for a base directory without a trailing '/' and for relative names. `Layout.PathJoin` models the other cases as `os.path.join` does.
- Sharded.ShardedPorts: assumes a non-negative node count or single shards. With a negative count the cursor moves backwards; `Sharded.NegativeNodesReusePort` shows one consequence.
- Sharded.ShardLaunchesPorts: same restriction as Sharded.ShardedPorts.
- Launcher.LaunchPorts: same restriction as Sharded.ShardedPorts.
- ReplicaSet.ReplSetPorts: assumes a non-negative node count.
