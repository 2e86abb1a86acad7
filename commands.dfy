/** The command lines `_launchMongoD` and `_launchMongoS` hand to the shell,
    and the launches of the plan they are built from. */
module Commands {
  import opened Text

  /** What a launched `mongod` is for; the command line does not show it. */
  datatype Role = Standalone | DataBearing | Arbiter | ConfigServer

  datatype Launch =
    | MongoD(role: Role, dbPath: string, logPath: string, port: int,
             replSet: Option<string>, extra: string)
    | MongoS(logPath: string, port: int, configDb: string)

  /** `--replSet <name>` when the name is truthy, else nothing. */
  function ReplSetParam(replset: Option<string>): string
  {
    if Truthy(replset) then "--replSet " + replset.value else ""
  }

  /** The format string of `_launchMongoD`, fields separated by one blank. */
  function MongoDCommand(dbpath: string, logpath: string, port: int,
                         replset: Option<string>, extra: string): string
  {
    JoinWith(["mongod", ReplSetParam(replset), "--dbpath", dbpath, "--logpath", logpath,
              "--port", IntToString(port), "--logappend", extra, "--fork"], ' ')
  }

  /** The format string of `_launchMongoS`. */
  function MongoSCommand(logpath: string, port: int, configdb: string): string
  {
    JoinWith(["mongos", "--logpath", logpath, "--port", IntToString(port),
              "--configdb", configdb, "--logappend", "--fork"], ' ')
  }

  /** The words of each part, in order. */
  function WordsOf(parts: seq<string>): seq<string>
  {
    if parts == [] then [] else ShellWords(parts[0]) + WordsOf(parts[1..])
  }

  lemma {:induction false} ShellWordsOfJoin(parts: seq<string>)
    ensures ShellWords(JoinWith(parts, ' ')) == WordsOf(parts)
  {
    if |parts| == 0 {
      ShellWordsOfEmpty();
    } else if |parts| == 1 {
      assert parts[1..] == [];
    } else {
      ShellWordsAround(parts[0], JoinWith(parts[1..], ' '));
      ShellWordsOfJoin(parts[1..]);
    }
  }

  lemma {:induction false} WordsOfAppend(a: seq<string>, b: seq<string>)
    ensures WordsOf(a + b) == WordsOf(a) + WordsOf(b)
  {
    if a == [] {
      assert a + b == b;
    } else {
      assert (a + b)[0] == a[0];
      assert (a + b)[1..] == a[1..] + b;
      WordsOfAppend(a[1..], b);
    }
  }

  lemma {:induction false} WordsOfWords(parts: seq<string>)
    requires forall k :: 0 <= k < |parts| ==> IsWord(parts[k])
    ensures WordsOf(parts) == parts
  {
    if parts != [] {
      ShellWordsOfWord(parts[0]);
      WordsOfWords(parts[1..]);
      assert [parts[0]] + parts[1..] == parts;
    }
  }

  lemma WordsOfThree(a: string, b: string, c: string)
    requires IsWord(a) && IsWord(b) && IsWord(c)
    ensures WordsOf([a, b, c]) == [a, b, c]
  {
    WordsOfWords([a, b, c]);
  }

  /** Three runs of three words each keep their words. */
  lemma WordsOfNine(p1: seq<string>, p2: seq<string>, p3: seq<string>)
    requires |p1| == 3 && IsWord(p1[0]) && IsWord(p1[1]) && IsWord(p1[2])
    requires |p2| == 3 && IsWord(p2[0]) && IsWord(p2[1]) && IsWord(p2[2])
    requires |p3| == 3 && IsWord(p3[0]) && IsWord(p3[1]) && IsWord(p3[2])
    ensures WordsOf(p1 + p2 + p3) == p1 + p2 + p3
  {
    WordsOfThree(p1[0], p1[1], p1[2]);
    WordsOfThree(p2[0], p2[1], p2[2]);
    WordsOfThree(p3[0], p3[1], p3[2]);
    assert p1 == [p1[0], p1[1], p1[2]];
    assert p2 == [p2[0], p2[1], p2[2]];
    assert p3 == [p3[0], p3[1], p3[2]];
    WordsOfAppend(p1 + p2, p3);
    WordsOfAppend(p1, p2);
  }

  lemma IntToStringIsWord(n: int)
    ensures IsWord(IntToString(n))
  {
  }

  /** The fixed words of both command lines contain no blank. */
  lemma FlagsAreWords()
    ensures IsWord("mongod") && IsWord("mongos") && IsWord("--replSet")
    ensures IsWord("--dbpath") && IsWord("--logpath") && IsWord("--port")
    ensures IsWord("--configdb") && IsWord("--logappend") && IsWord("--fork")
  {
  }

  lemma ReplSetFlagWord()
    ensures ShellWords("--replSet") == ["--replSet"]
  {
    ShellWordsOfWord("--replSet");
  }

  /** `--replSet <name>` is two words, and the empty parameter none. */
  lemma ReplSetParamWords(replset: Option<string>)
    requires Truthy(replset) ==> IsWord(replset.value)
    ensures WordsOf([ReplSetParam(replset)])
            == if Truthy(replset) then ["--replSet", replset.value] else []
  {
    var rs := ReplSetParam(replset);
    assert WordsOf([rs]) == ShellWords(rs) + WordsOf([]);
    if Truthy(replset) {
      assert rs == "--replSet" + " " + replset.value;
      ShellWordsAround("--replSet", replset.value);
      ReplSetFlagWord();
      ShellWordsOfWord(replset.value);
    } else {
      ShellWordsOfEmpty();
    }
  }

  lemma OptionalWord(w: string)
    requires w == "" || IsWord(w)
    ensures WordsOf([w]) == if w == "" then [] else [w]
  {
    assert WordsOf([w]) == ShellWords(w) + WordsOf([]);
    if w == "" { ShellWordsOfEmpty(); } else { ShellWordsOfWord(w); }
  }

  /** The command line is not quoted, so the shell gives `mongod` exactly the
      intended arguments when every path and name is made of characters it
      takes literally: `--replSet <name>` if and only if the set name is
      truthy, the db path, log path and port unchanged, `--logappend`, the
      extra flag when there is one, and `--fork` last. */
  lemma MongoDArgv(dbpath: string, logpath: string, port: int,
                   replset: Option<string>, extra: string)
    requires ShellPlain(dbpath) && ShellPlain(logpath)
    requires Truthy(replset) ==> ShellPlain(replset.value)
    requires extra == "" || ShellPlain(extra)
    ensures ShellWords(MongoDCommand(dbpath, logpath, port, replset, extra))
            == ["mongod"]
               + (if Truthy(replset) then ["--replSet", replset.value] else [])
               + ["--dbpath", dbpath, "--logpath", logpath, "--port", IntToString(port), "--logappend"]
               + (if extra == "" then [] else [extra])
               + ["--fork"]
  {
    PlainIsWord(dbpath);
    PlainIsWord(logpath);
    if Truthy(replset) { PlainIsWord(replset.value); }
    if extra != "" { PlainIsWord(extra); }
    MongoDWords(dbpath, logpath, port, replset, extra);
  }

  /** The same for arguments free of blanks only. */
  lemma MongoDWords(dbpath: string, logpath: string, port: int,
                    replset: Option<string>, extra: string)
    requires IsWord(dbpath) && IsWord(logpath)
    requires Truthy(replset) ==> IsWord(replset.value)
    requires extra == "" || IsWord(extra)
    ensures ShellWords(MongoDCommand(dbpath, logpath, port, replset, extra))
            == ["mongod"]
               + (if Truthy(replset) then ["--replSet", replset.value] else [])
               + ["--dbpath", dbpath, "--logpath", logpath, "--port", IntToString(port), "--logappend"]
               + (if extra == "" then [] else [extra])
               + ["--fork"]
  {
    var rs := ReplSetParam(replset);
    var middle := ["--dbpath", dbpath, "--logpath", logpath, "--port", IntToString(port), "--logappend"];
    var parts := ["mongod"] + [rs] + middle + [extra] + ["--fork"];
    assert parts == ["mongod", ReplSetParam(replset), "--dbpath", dbpath, "--logpath", logpath,
                     "--port", IntToString(port), "--logappend", extra, "--fork"];
    ShellWordsOfJoin(parts);
    FlagsAreWords();
    IntToStringIsWord(port);
    MongoDMiddleWords(dbpath, logpath, port);
    WordsOfWords(["mongod"]);
    WordsOfWords(["--fork"]);
    ReplSetParamWords(replset);
    OptionalWord(extra);
    WordsOfAppend(["mongod"] + [rs] + middle + [extra], ["--fork"]);
    WordsOfAppend(["mongod"] + [rs] + middle, [extra]);
    WordsOfAppend(["mongod"] + [rs], middle);
    WordsOfAppend(["mongod"], [rs]);
  }

  lemma MongoDMiddleWords(dbpath: string, logpath: string, port: int)
    requires IsWord(dbpath) && IsWord(logpath)
    ensures var middle := ["--dbpath", dbpath, "--logpath", logpath, "--port", IntToString(port), "--logappend"];
            WordsOf(middle) == middle
  {
    var p1, p2, p3 := ["--dbpath", dbpath, "--logpath"], [logpath, "--port", IntToString(port)], ["--logappend"];
    assert ["--dbpath", dbpath, "--logpath", logpath, "--port", IntToString(port), "--logappend"] == p1 + p2 + p3;
    FlagsAreWords();
    IntToStringIsWord(port);
    WordsOfThree("--dbpath", dbpath, "--logpath");
    WordsOfThree(logpath, "--port", IntToString(port));
    WordsOfWords(p3);
    WordsOfAppend(p1 + p2, p3);
    WordsOfAppend(p1, p2);
  }


  /** On the raw text, with no condition on the arguments: the command starts
      with `mongod --replSet ` exactly when the set name is truthy; otherwise
      two blanks follow `mongod`. */
  lemma MongoDReplSetPrefix(dbpath: string, logpath: string, port: int,
                            replset: Option<string>, extra: string)
    ensures var cmd := MongoDCommand(dbpath, logpath, port, replset, extra);
            |cmd| >= 17
            && (cmd[..17] == "mongod --replSet " <==> Truthy(replset))
            && (!Truthy(replset) ==> cmd[..8] == "mongod  ")
  {
    var cmd := MongoDCommand(dbpath, logpath, port, replset, extra);
    var parts := ["mongod", ReplSetParam(replset), "--dbpath", dbpath, "--logpath", logpath,
                  "--port", IntToString(port), "--logappend", extra, "--fork"];
    var rest := JoinWith(parts[2..], ' ');
    assert parts[1..][1..] == parts[2..];
    assert JoinWith(parts[1..], ' ') == ReplSetParam(replset) + " " + rest;
    assert rest == "--dbpath" + " " + JoinWith(parts[3..], ' ');
    assert cmd == "mongod " + ReplSetParam(replset) + " " + rest;
    if !Truthy(replset) {
      assert cmd == "mongod  " + rest;
      assert cmd[7] == ' ';
      assert "mongod --replSet "[7] == '-';
    }
  }

  /** When the log path and the config-server string are made of characters
      the shell takes literally, `mongos` receives them and the port
      unchanged, with `--logappend --fork` at the end. */
  lemma MongoSArgv(logpath: string, port: int, configdb: string)
    requires ShellPlain(logpath) && ShellPlain(configdb)
    ensures ShellWords(MongoSCommand(logpath, port, configdb))
            == ["mongos", "--logpath", logpath, "--port", IntToString(port),
                "--configdb", configdb, "--logappend", "--fork"]
  {
    var p1, p2, p3 := ["mongos", "--logpath", logpath], ["--port", IntToString(port), "--configdb"],
                      [configdb, "--logappend", "--fork"];
    var parts := ["mongos", "--logpath", logpath, "--port", IntToString(port),
                  "--configdb", configdb, "--logappend", "--fork"];
    assert parts == p1 + p2 + p3;
    PlainIsWord(logpath);
    PlainIsWord(configdb);
    ShellWordsOfJoin(parts);
    IntToStringIsWord(port);
    FlagsAreWords();
    WordsOfNine(p1, p2, p3);
  }

}
