/**
 * The external programs a download thread runs, and the steps of such a
 * thread that touch the file system. Both `Downloader` classes (downloader.py
 * and main.py) build the same transfer command, extract with the same 7z
 * command, and perform the same sequence of system steps; they differ only in
 * how they report progress, which their own modules model.
 *
 * To say what a command does rather than how it is spelled, `Read` takes an
 * argument list apart the way a getopt-style program does, and `Destination`,
 * `Operands` and `Extraction` name the file a command writes, the URL it
 * fetches and the archive it unpacks.
 */
module Transfer {
  import opened Wrappers
  import opened Text

  /** `f"{a}/{b}"`: the directory of a system under the download root, or a file in it. */
  function Join(a: string, b: string): (p: string)
    ensures |p| == |a| + 1 + |b| && p[|a|] == '/'
    ensures p[..|a|] == a && p[|a| + 1..] == b
  {
    a + "/" + b
  }

  /** The options turbo mode passes to aria2c before `--dir`. */
  const TurboOptions: seq<string> := [
    "-x", "10", "-s", "10", "-j", "10",
    "--check-certificate=false",
    "--console-log-level=error",
    "--summary-interval=1",
    "--human-readable=true",
    "--file-allocation=none",
    "--allow-overwrite=true",
    "--auto-file-renaming=false"
  ]

  /** The transfer command: aria2c in turbo mode, curl otherwise. */
  function TransferCommand(turbo: bool, dir: string, name: string, url: string): (cmd: seq<string>)
    ensures |cmd| >= 5 && cmd[0] == (if turbo then "aria2c" else "curl") && cmd[|cmd| - 1] == url
  {
    if turbo then ["aria2c"] + TurboOptions + ["--dir", dir, "--out", name, url]
    else ["curl", "-L", "-o", Join(dir, name), url]
  }

  /** `['7z', 'x', archive, f"-o{dir}", '-mmt=on', '-y']`. */
  function ExtractCommand(archive: string, dir: string): (cmd: seq<string>)
    ensures |cmd| == 6 && cmd[0] == "7z" && cmd[2] == archive
  {
    ["7z", "x", archive, "-o" + dir, "-mmt=on", "-y"]
  }

  /** What a program takes from its arguments: option values (the last one wins) and operands. */
  datatype Reading = Reading(values: map<string, string>, operands: seq<string>)

  /**
   * A getopt-style reading: an option listed in `valued` takes the next
   * argument as its value, any other argument that starts with `-` is a
   * switch, and the remaining arguments are operands, in order.
   */
  function Read(args: seq<string>, valued: set<string>): Reading
    decreases |args|
  {
    if args == [] then Reading(map[], [])
    else if args[0] in valued && |args| >= 2 then
      var rest := Read(args[2..], valued);
      rest.(values := map[args[0] := args[1]] + rest.values)
    else if StartsWith(args[0], "-") then Read(args[1..], valued)
    else
      var rest := Read(args[1..], valued);
      rest.(operands := [args[0]] + rest.operands)
  }

  /** The options of aria2c and curl that the commands use with a separate value. */
  const AriaValued: set<string> := {"-x", "-s", "-j", "--dir", "--out"}
  const CurlValued: set<string> := {"-o"}

  /**
   * The file a transfer command writes: aria2c writes `--out` inside `--dir`,
   * curl writes its `-o` value; `None` when the command names no file.
   */
  function Destination(cmd: seq<string>): Option<string>
  {
    if |cmd| > 0 && cmd[0] == "aria2c" then
      var r := Read(cmd[1..], AriaValued);
      if "--out" !in r.values then None
      else if "--dir" in r.values then Some(Join(r.values["--dir"], r.values["--out"]))
      else Some(r.values["--out"])
    else if |cmd| > 0 && cmd[0] == "curl" then
      var r := Read(cmd[1..], CurlValued);
      if "-o" in r.values then Some(r.values["-o"]) else None
    else None
  }

  /** The operands of a transfer command: the URLs it fetches. */
  function Operands(cmd: seq<string>): seq<string>
  {
    if |cmd| == 0 then []
    else if cmd[0] == "aria2c" then Read(cmd[1..], AriaValued).operands
    else Read(cmd[1..], CurlValued).operands
  }

  /** A prefix of arguments that the reading consumes exactly, without taking anything after it. */
  predicate Aligned(args: seq<string>, valued: set<string>)
    decreases |args|
  {
    || args == []
    || (args[0] in valued && |args| >= 2 && Aligned(args[2..], valued))
    || (args[0] !in valued && Aligned(args[1..], valued))
  }

  /** Reading an aligned prefix and then the rest is reading the whole: later values win. */
  lemma {:induction false} ReadAppend(a: seq<string>, b: seq<string>, valued: set<string>)
    requires Aligned(a, valued)
    ensures Read(a + b, valued) ==
              Reading(Read(a, valued).values + Read(b, valued).values,
                      Read(a, valued).operands + Read(b, valued).operands)
    decreases |a|
  {
    var rb := Read(b, valued);
    if a == [] {
      assert a + b == b;
      assert map[] + rb.values == rb.values;
    } else if a[0] in valued {
      assert (a + b)[2..] == a[2..] + b;
      ReadAppend(a[2..], b, valued);
      var ra := Read(a[2..], valued);
      MapUnionAssociative(map[a[0] := a[1]], ra.values, rb.values);
    } else {
      assert (a + b)[1..] == a[1..] + b;
      ReadAppend(a[1..], b, valued);
      var ra := Read(a[1..], valued);
      if !StartsWith(a[0], "-") {
        assert [a[0]] + ra.operands + rb.operands == [a[0]] + (ra.operands + rb.operands);
      }
    }
  }

  lemma MapUnionAssociative(x: map<string, string>, y: map<string, string>, z: map<string, string>)
    ensures (x + y) + z == x + (y + z)
  {
  }

  /** The fixed aria2c options set only the connection counts and name no operand. */
  lemma TurboOptionsReading()
    ensures Aligned(TurboOptions, AriaValued)
    ensures Read(TurboOptions, AriaValued) == Reading(map["-x" := "10", "-s" := "10", "-j" := "10"], [])
  {
    assert TurboOptions == ["-x", "10", "-s", "10", "-j", "10"] + TurboOptions[6..];
    TurboFlags();
    CountsThenFlags("10", "10", "10", TurboOptions[6..]);
  }

  /** The three connection counts, then switches only. */
  lemma CountsThenFlags(x: string, s: string, j: string, flags: seq<string>)
    requires forall k :: 0 <= k < |flags| ==> flags[k] !in AriaValued && StartsWith(flags[k], "-")
    ensures var args := ["-x", x, "-s", s, "-j", j] + flags;
            Aligned(args, AriaValued) && Read(args, AriaValued) == Reading(map["-x" := x, "-s" := s, "-j" := j], [])
  {
    FlagsReading(flags, AriaValued);
    PairReading("-j", j, flags, AriaValued);
    PairReading("-s", s, ["-j", j] + flags, AriaValued);
    PairReading("-x", x, ["-s", s] + (["-j", j] + flags), AriaValued);
    assert ["-x", x, "-s", s, "-j", j] + flags == ["-x", x] + (["-s", s] + (["-j", j] + flags));
    assert map["-x" := x] + (map["-s" := s] + (map["-j" := j] + map[])) == map["-x" := x, "-s" := s, "-j" := j];
  }

  /** The options after the connection counts are switches without a value. */
  lemma TurboFlags()
    ensures var flags := TurboOptions[6..];
            forall k :: 0 <= k < |flags| ==> flags[k] !in AriaValued && StartsWith(flags[k], "-")
  {
  }

  /** An option that takes a value, then its value, then the rest. */
  lemma PairReading(option: string, value: string, rest: seq<string>, valued: set<string>)
    requires option in valued
    ensures Read([option, value] + rest, valued) ==
              Reading(map[option := value] + Read(rest, valued).values, Read(rest, valued).operands)
    ensures Aligned(rest, valued) ==> Aligned([option, value] + rest, valued)
  {
    assert ([option, value] + rest)[2..] == rest;
  }

  /** Arguments that all start with `-` and take no value are switches only. */
  lemma {:induction false} FlagsReading(args: seq<string>, valued: set<string>)
    requires forall k :: 0 <= k < |args| ==> args[k] !in valued && StartsWith(args[k], "-")
    ensures Aligned(args, valued) && Read(args, valued) == Reading(map[], [])
    decreases |args|
  {
    if args != [] {
      FlagsReading(args[1..], valued);
    }
  }

  /** What a trailing `[url]` contributes to a reading. */
  lemma UrlReading(url: string, valued: set<string>)
    ensures Read([url], valued).values == map[]
    ensures Read([url], valued).operands == if StartsWith(url, "-") then [] else [url]
  {
    assert [url][1..] == [];
  }

  /**
   * Both transfer commands write the file `dir/name`, the file that the 7z
   * step extracts and `os.remove` deletes, and fetch the URL, which is their
   * only operand unless it starts with `-` (then the tool reads it as a switch).
   */
  lemma TransferWritesArchive(turbo: bool, dir: string, name: string, url: string)
    ensures Destination(TransferCommand(turbo, dir, name, url)) == Some(Join(dir, name))
    ensures Operands(TransferCommand(turbo, dir, name, url)) == if StartsWith(url, "-") then [] else [url]
  {
    if turbo {
      AriaWritesArchive(dir, name, url);
    } else {
      CurlWritesArchive(dir, name, url);
    }
  }

  /** The aria2c reading: the fixed options, then `--dir`, `--out` and the URL. */
  lemma AriaWritesArchive(dir: string, name: string, url: string)
    ensures var r := Read(TransferCommand(true, dir, name, url)[1..], AriaValued);
            && "--dir" in r.values && r.values["--dir"] == dir
            && "--out" in r.values && r.values["--out"] == name
            && r.operands == if StartsWith(url, "-") then [] else [url]
  {
    var tail := ["--dir", dir, "--out", name, url];
    assert TransferCommand(true, dir, name, url)[1..] == TurboOptions + tail;
    TurboOptionsReading();
    ReadAppend(TurboOptions, tail, AriaValued);
    UrlReading(url, AriaValued);
    assert tail == ["--dir", dir] + (["--out", name] + [url]);
    PairReading("--out", name, [url], AriaValued);
    PairReading("--dir", dir, ["--out", name] + [url], AriaValued);
  }

  /** The curl reading: `-L`, then `-o` with the archive path, then the URL. */
  lemma CurlWritesArchive(dir: string, name: string, url: string)
    ensures var r := Read(TransferCommand(false, dir, name, url)[1..], CurlValued);
            && r.values == map["-o" := Join(dir, name)]
            && r.operands == if StartsWith(url, "-") then [] else [url]
  {
    var cmd := TransferCommand(false, dir, name, url);
    var tail := ["-o", Join(dir, name), url];
    UrlReading(url, CurlValued);
    assert cmd[1..] == ["-L"] + tail && cmd[1..][1..] == tail;
    assert tail[2..] == [url];
    var r := Read(tail, CurlValued);
    assert r.values == map["-o" := Join(dir, name)] + Read([url], CurlValued).values;
    assert r.operands == Read([url], CurlValued).operands;
  }

  /**
   * What 7z takes from `7z x <archive> -o<dir> …`: the archive (the operand
   * after the command letter) and the output directory (the `-o` switch, whose
   * value is attached).
   */
  function Extraction(cmd: seq<string>): Option<(string, string)>
  {
    if |cmd| >= 4 && cmd[0] == "7z" && cmd[1] == "x" && StartsWith(cmd[3], "-o") then
      Some((cmd[2], cmd[3][2..]))
    else None
  }

  /** 7z unpacks the archive the transfer wrote into the directory that holds it. */
  lemma ExtractsTransferredArchive(turbo: bool, dir: string, name: string, url: string)
    ensures Destination(TransferCommand(turbo, dir, name, url)) ==
              Some(Extraction(ExtractCommand(Join(dir, name), dir)).value.0)
    ensures Extraction(ExtractCommand(Join(dir, name), dir)) == Some((Join(dir, name), dir))
  {
    TransferWritesArchive(turbo, dir, name, url);
    var c := ExtractCommand(Join(dir, name), dir);
    assert c[3][..2] == "-o" && c[3][2..] == dir;
  }

  /**
   * A step of a download thread that can raise and end the thread.
   * `ReadOutput` is reading the transfer's standard error (`readline` on a
   * text stream raises on output it cannot decode); it raises after the lines
   * of the `ProcessRun` have been read.
   */
  datatype Step = MakeDirs | Launch | ReadOutput | Extract | Remove

  /** A change a download thread makes to the system, in the order it makes them. */
  datatype Effect =
    | MadeDirs(path: string)         // os.makedirs(path, exist_ok=True)
    | Ran(command: seq<string>)      // a subprocess started with this argument list
    | Removed(path: string)          // os.remove(path)

  /** The transfer process as the thread sees it: the lines on its standard error and its exit status. */
  datatype ProcessRun = ProcessRun(stderr: seq<string>, exitCode: int)

  /** How a thread body ends: an exception at a step, or the end of the body. */
  datatype Ending = RaisedAt(step: Step) | Completed

  /**
   * The steps of a download thread raise exactly when they are in `failing`
   * (a missing directory permission, a missing program, undecodable output,
   * a missing file); the extraction and removal steps are reached only after
   * exit status 0.
   */
  function ThreadEnding(exitCode: int, failing: set<Step>): (e: Ending)
    ensures e.RaisedAt? ==> e.step in failing
    ensures e == Completed <==>
              MakeDirs !in failing && Launch !in failing && ReadOutput !in failing &&
              (exitCode == 0 ==> Extract !in failing && Remove !in failing)
  {
    if MakeDirs in failing then RaisedAt(MakeDirs)
    else if Launch in failing then RaisedAt(Launch)
    else if ReadOutput in failing then RaisedAt(ReadOutput)
    else if exitCode == 0 && Extract in failing then RaisedAt(Extract)
    else if exitCode == 0 && Remove in failing then RaisedAt(Remove)
    else Completed
  }

  /** The system changes of a download thread for the system directory `dir` and archive `name`. */
  function ThreadEffects(turbo: bool, dir: string, name: string, url: string, exitCode: int, failing: set<Step>): (fx: seq<Effect>)
    ensures |fx| <= 4 && (fx != [] ==> fx[0] == MadeDirs(dir))
    ensures |fx| >= 2 <==> MakeDirs !in failing && Launch !in failing
  {
    if MakeDirs in failing then []
    else if Launch in failing then [MadeDirs(dir)]
    else if ReadOutput in failing then [MadeDirs(dir), Ran(TransferCommand(turbo, dir, name, url))]
    else
      [MadeDirs(dir), Ran(TransferCommand(turbo, dir, name, url))] + AfterTransfer(dir, name, exitCode, failing)
  }

  /** Once the transfer process has started, the effects are its start and what follows the transfer. */
  lemma ThreadEffectsAfterLaunch(turbo: bool, dir: string, name: string, url: string, exitCode: int, failing: set<Step>)
    requires MakeDirs !in failing && Launch !in failing
    ensures ThreadEffects(turbo, dir, name, url, exitCode, failing) ==
              [MadeDirs(dir), Ran(TransferCommand(turbo, dir, name, url))] +
              (if ReadOutput in failing then [] else AfterTransfer(dir, name, exitCode, failing))
  {
  }

  /** The effects of the thread after the transfer process exits: extraction and removal after status 0. */
  function AfterTransfer(dir: string, name: string, exitCode: int, failing: set<Step>): (fx: seq<Effect>)
    ensures exitCode != 0 ==> fx == []
    ensures fx != [] ==> fx[0] == Ran(ExtractCommand(Join(dir, name), dir))
    ensures Removed(Join(dir, name)) in fx <==> exitCode == 0 && Extract !in failing && Remove !in failing
  {
    if exitCode != 0 || Extract in failing then []
    else if Remove in failing then [Ran(ExtractCommand(Join(dir, name), dir))]
    else [Ran(ExtractCommand(Join(dir, name), dir)), Removed(Join(dir, name))]
  }

  /**
   * The archive is removed exactly when the transfer exits with status 0 and
   * the thread completes; the extraction result is never looked at, so the
   * removal follows the 7z run directly. A failed transfer extracts and
   * removes nothing.
   */
  lemma RemovalFollowsSuccess(turbo: bool, dir: string, name: string, url: string, exitCode: int, failing: set<Step>)
    ensures var fx := ThreadEffects(turbo, dir, name, url, exitCode, failing);
            (Removed(Join(dir, name)) in fx <==> exitCode == 0 && ThreadEnding(exitCode, failing) == Completed)
    ensures var fx := ThreadEffects(turbo, dir, name, url, exitCode, failing);
            forall k :: 0 <= k < |fx| && fx[k].Removed? ==>
              k > 0 && fx[k - 1] == Ran(ExtractCommand(fx[k].path, dir))
    ensures var fx := ThreadEffects(turbo, dir, name, url, exitCode, failing);
            exitCode != 0 ==> forall e :: e in fx ==> e == MadeDirs(dir) || e == Ran(TransferCommand(turbo, dir, name, url))
  {
  }
}
