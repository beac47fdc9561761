/**
 * main.py: the `Downloader` class used by the graphical front end. Its
 * `list_games` is `Catalog.ListGamesKeepingRepeats`. `download_game` starts a
 * thread and returns `True` at once; the thread body creates the directory,
 * runs the same transfer and extraction commands as downloader.py, and hands
 * each parsed percentage to a callback that takes the percentage only.
 */
module GameDownloader {
  import opened Wrappers
  import opened Progress
  import opened Transfer
  import DownloadSession

  /** A thread started by `download_game`, with the arguments its body runs on. */
  datatype Job = Job(url: string, name: string, systemDir: string, hasCallback: bool)

  /** The calls `callback(percent)` of a thread body, in order. */
  function JobCalls(hasCallback: bool, run: ProcessRun, failing: set<Step>): (calls: seq<nat>)
    ensures |calls| <= |run.stderr|
    ensures !hasCallback || MakeDirs in failing || Launch in failing ==> calls == []
  {
    if !hasCallback || MakeDirs in failing || Launch in failing then [] else Percents(run.stderr)
  }

  /** The value `download_thread` returns: `success`, or nothing when a step raises. */
  function JobResult(exitCode: int, failing: set<Step>): (r: Option<bool>)
    ensures r.None? <==> ThreadEnding(exitCode, failing).RaisedAt?
    ensures r == Some(true) ==> exitCode == 0 && Extract !in failing && Remove !in failing
  {
    match ThreadEnding(exitCode, failing)
    case Completed => Some(exitCode == 0)
    case RaisedAt(_) => None
  }

  class Downloader {
    var downloadPath: string
    var turboMode: bool
    var downloadThreads: seq<Job>

    /** `__init__`; `aria2Available` is what `_check_aria2` finds. */
    constructor (aria2Available: bool)
      ensures downloadPath == "/roms" && turboMode == aria2Available && downloadThreads == []
    {
      downloadPath := "/roms";
      turboMode := aria2Available;
      downloadThreads := [];
    }

    /** `download_game`: records one new thread and reports `True` whatever the thread will do. */
    method DownloadGame(gameUrl: string, gameName: string, systemDir: string, hasCallback: bool)
      returns (started: bool)
      modifies this`downloadThreads
      ensures started
      ensures downloadThreads == old(downloadThreads) + [Job(gameUrl, gameName, systemDir, hasCallback)]
    {
      downloadThreads := downloadThreads + [Job(gameUrl, gameName, systemDir, hasCallback)];
      started := true;
    }

    /**
     * The body of the thread `download_game` starts for `job`: the callback
     * receives every parsed percentage and nothing else, and the archive is
     * extracted and removed after exit status 0 without looking at 7z's result.
     */
    method RunJob(job: Job, run: ProcessRun, failing: set<Step>)
      returns (calls: seq<nat>, effects: seq<Effect>, result: Option<bool>)
      ensures calls == JobCalls(job.hasCallback, run, failing)
      ensures effects == ThreadEffects(turboMode, job.systemDir, job.name, job.url, run.exitCode, failing)
      ensures result == JobResult(run.exitCode, failing)
    {
      var dir := job.systemDir;
      calls, effects, result := [], [], None;
      if MakeDirs in failing {
        return;
      }
      effects := [MadeDirs(dir)];
      ghost var expected := ThreadEffects(turboMode, dir, job.name, job.url, run.exitCode, failing);
      var cmd := TransferCommand(turboMode, dir, job.name, job.url);
      if Launch in failing {
        assert effects == expected;
        return;
      }
      effects := effects + [Ran(cmd)];
      calls := CollectProgress(run.stderr, job.hasCallback);
      if ReadOutput in failing {
        assert effects == expected;
        return;
      }
      assert expected == effects + AfterTransfer(dir, job.name, run.exitCode, failing);
      var success := run.exitCode == 0;
      if success {
        var zipFile := Join(dir, job.name);
        if Extract in failing {
          return;
        }
        effects := effects + [Ran(ExtractCommand(zipFile, dir))];
        if Remove in failing {
          return;
        }
        effects := effects + [Removed(zipFile)];
      }
      result := Some(success);
    }
  }

  /** The `while True` loop over the transfer's stderr: with a callback, every parsed percentage is handed to it. */
  method CollectProgress(lines: seq<string>, hasCallback: bool) returns (calls: seq<nat>)
    ensures calls == if hasCallback then Percents(lines) else []
  {
    calls := [];
    var i := 0;
    while i < |lines|
      invariant 0 <= i <= |lines|
      invariant calls == if hasCallback then Percents(lines[..i]) else []
    {
      var output := lines[i];
      PercentsStep(lines, i);
      if output != "" && hasCallback {
        var m := ParsePercent(output);
        if m.Some? {
          calls := calls + [m.value];
        }
      }
      i := i + 1;
    }
    assert lines[..i] == lines;
  }

  /**
   * The callback of main.py receives exactly the percentages that
   * downloader.py reports for the same transfer, in the same order, and none
   * of its start, extraction or final reports.
   */
  lemma SameProgressAsSession(run: ProcessRun, failing: set<Step>)
    ensures var calls := JobCalls(true, run, failing);
            var es := DownloadSession.SessionEvents(true, run, failing);
            MakeDirs !in failing && Launch !in failing ==>
              && |es| >= |calls| + 1
              && (ReadOutput !in failing ==> |es| >= |calls| + 2)
              && forall k :: 0 <= k < |calls| ==> es[k + 1] == DownloadSession.Downloading(calls[k])
    ensures forall p :: p in JobCalls(true, run, failing) ==> exists line :: line in run.stderr && ParsePercent(line) == Some(p)
  {
    if MakeDirs !in failing && Launch !in failing {
      DownloadSession.LaunchedShape(run, failing);
      DownloadSession.ReportsBetween(Percents(run.stderr),
        if ReadOutput in failing then [] else DownloadSession.ClosingEvents(run.exitCode, failing));
    }
    forall p | p in JobCalls(true, run, failing)
      ensures exists line :: line in run.stderr && ParsePercent(line) == Some(p)
    {
      PercentsFromLines(run.stderr, p);
    }
  }

  /** Every percentage comes from some line that carries it. */
  lemma {:induction false} PercentsFromLines(lines: seq<string>, p: nat)
    requires p in Percents(lines)
    ensures exists line :: line in lines && ParsePercent(line) == Some(p)
  {
    var last := lines[|lines| - 1];
    var init := lines[..|lines| - 1];
    if p in Percents(init) {
      PercentsFromLines(init, p);
      var line :| line in init && ParsePercent(line) == Some(p);
      assert line in lines;
    } else {
      assert ParsePercent(last) == Some(p);
    }
  }

  /**
   * The thread reports success exactly when the transfer exits with status 0
   * and no step raises, and then the archive has been removed; whatever it
   * returns is lost, since `download_game` has already returned `True`.
   */
  lemma ResultMeansRemoved(turbo: bool, job: Job, run: ProcessRun, failing: set<Step>)
    ensures JobResult(run.exitCode, failing) == Some(true) <==>
              Removed(Join(job.systemDir, job.name)) in ThreadEffects(turbo, job.systemDir, job.name, job.url, run.exitCode, failing)
    ensures JobResult(run.exitCode, failing) == Some(false) <==>
              run.exitCode != 0 && MakeDirs !in failing && Launch !in failing && ReadOutput !in failing
  {
    RemovalFollowsSuccess(turbo, job.systemDir, job.name, job.url, run.exitCode, failing);
  }
}
