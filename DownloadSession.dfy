/**
 * downloader.py: the `Downloader` class. `list_games` is `Catalog.ListGames`;
 * this module holds the object state and `start_download` with the body of
 * its download thread, which reports progress to an optional callback as
 * `(percent, status)` pairs.
 *
 * The thread body runs to completion inside `StartDownload` here; the
 * callback calls it makes are returned as a trace of `Event`s, and the
 * changes it makes to the system as a trace of `Effect`s. The transfer
 * process is the input `run`, and `failing` names the steps that raise.
 */
module DownloadSession {
  import opened Text
  import opened Progress
  import opened Transfer

  /** One call `callback(percent, status)`. */
  datatype Event = Event(percent: int, status: string)

  const Starting: Event := Event(0, "Iniciando...")
  const Extracting: Event := Event(95, "Extraindo...")
  const Finished: Event := Event(100, "Concluido!")
  const Failed: Event := Event(-1, "Falha no download")

  /** The report for a parsed percentage. */
  function Downloading(p: nat): Event
  {
    Event(p, DownloadingStatus(p))
  }

  /** The events that end a report: success or failure. */
  predicate Terminal(e: Event)
  {
    e == Finished || e == Failed
  }

  /** The report of each percentage, in order. */
  function Reports(ps: seq<nat>): (es: seq<Event>)
    ensures |es| == |ps|
  {
    if ps == [] then [] else Reports(ps[..|ps| - 1]) + [Downloading(ps[|ps| - 1])]
  }

  /** The `k`-th report is the report of the `k`-th percentage. */
  lemma {:induction false} ReportsAt(ps: seq<nat>)
    ensures forall k :: 0 <= k < |ps| ==> Reports(ps)[k] == Downloading(ps[k])
  {
    if ps != [] {
      ReportsAt(ps[..|ps| - 1]);
    }
  }

  /** One progress report per stderr line that carries a percentage, in line order. */
  function ProgressEvents(lines: seq<string>): seq<Event>
  {
    Reports(Percents(lines))
  }

  /** No progress report is a start, extraction or terminal report. */
  lemma ProgressEventsAreProgress(lines: seq<string>)
    ensures forall e :: e in ProgressEvents(lines) ==> !Terminal(e) && e != Starting && e != Extracting
  {
    var ps := Percents(lines);
    forall e | e in ProgressEvents(lines) ensures !Terminal(e) && e != Starting && e != Extracting {
      ReportsAt(ps);
    var k :| 0 <= k < |ps| && e == ProgressEvents(lines)[k];
      DownloadingNotTerminal(ps[k]);
    }
  }

  /** The last element of `ps`, or `d` when there is none. */
  function LastOr(ps: seq<nat>, d: int): int
  {
    if ps == [] then d else ps[|ps| - 1]
  }

  /**
   * The callback calls of the thread body, in order: nothing without a
   * callback, and otherwise `Starting` first, unless creating the directory
   * raises.
   */
  function SessionEvents(hasCallback: bool, run: ProcessRun, failing: set<Step>): (es: seq<Event>)
    ensures !hasCallback ==> es == []
    ensures hasCallback && MakeDirs !in failing ==> es != [] && es[0] == Starting
    ensures |es| <= |run.stderr| + 3
  {
    if !hasCallback || MakeDirs in failing then []
    else if Launch in failing then [Starting]
    else if ReadOutput in failing then [Starting] + ProgressEvents(run.stderr)
    else
      [Starting] + ProgressEvents(run.stderr) + ClosingEvents(run.exitCode, failing)
  }

  /**
   * The callback calls after the transfer process exits: failure after a
   * non-zero status; extraction, then success unless 7z or the removal raises.
   */
  function ClosingEvents(exitCode: int, failing: set<Step>): (es: seq<Event>)
    ensures 1 <= |es| <= 2 && es[0] == (if exitCode == 0 then Extracting else Failed)
    ensures |es| == 2 <==> exitCode == 0 && Extract !in failing && Remove !in failing
    ensures |es| == 2 ==> es[1] == Finished
  {
    if exitCode != 0 then [Failed]
    else if Extract in failing || Remove in failing then [Extracting]
    else [Extracting, Finished]
  }

  /** `progress` when the thread body ends, given its value when the thread started. */
  function FinalProgress(hasCallback: bool, run: ProcessRun, failing: set<Step>, start: int): (p: int)
    ensures p == start || p in Percents(run.stderr)
  {
    if !hasCallback || MakeDirs in failing || Launch in failing then start
    else LastOr(Percents(run.stderr), start)
  }

  class Downloader {
    var downloadPath: string
    var turboMode: bool
    var active: bool
    var progress: int
    var status: string
    var currentGame: string

    /** `__init__`; `aria2Available` is what `_check_aria2` finds. */
    constructor (aria2Available: bool)
      ensures downloadPath == "/roms" && turboMode == aria2Available
      ensures !active && progress == 0 && status == "" && currentGame == ""
    {
      downloadPath := "/roms";
      turboMode := aria2Available;
      active := false;
      progress := 0;
      status := "";
      currentGame := "";
    }

    /**
     * `start_download`: marks the download active, records the game, resets
     * the progress and runs the thread body.
     */
    method StartDownload(gameUrl: string, gameName: string, systemId: string, hasCallback: bool,
                         run: ProcessRun, failing: set<Step>)
      returns (events: seq<Event>, effects: seq<Effect>)
      modifies this
      ensures downloadPath == old(downloadPath) && turboMode == old(turboMode) && status == old(status)
      ensures currentGame == gameName
      ensures events == SessionEvents(hasCallback, run, failing)
      ensures effects == ThreadEffects(turboMode, Join(downloadPath, systemId), gameName, gameUrl, run.exitCode, failing)
      ensures progress == FinalProgress(hasCallback, run, failing, 0)
      ensures active <==> ThreadEnding(run.exitCode, failing).RaisedAt?
    {
      active := true;
      currentGame := gameName;
      progress := 0;
      events, effects := DownloadThread(gameUrl, gameName, systemId, hasCallback, run, failing);
    }

    /**
     * `download_thread`: creates the system directory, starts the transfer,
     * turns every stderr line that carries a percentage into a progress report,
     * then extracts and removes the archive after exit status 0. An exception
     * ends the body where it happens, so `active` is cleared only at the end.
     */
    method DownloadThread(gameUrl: string, gameName: string, systemId: string, hasCallback: bool,
                          run: ProcessRun, failing: set<Step>)
      returns (events: seq<Event>, effects: seq<Effect>)
      modifies this`progress, this`active
      ensures events == SessionEvents(hasCallback, run, failing)
      ensures effects == ThreadEffects(turboMode, Join(downloadPath, systemId), gameName, gameUrl, run.exitCode, failing)
      ensures progress == FinalProgress(hasCallback, run, failing, old(progress))
      ensures active == if ThreadEnding(run.exitCode, failing) == Completed then false else old(active)
    {
      var dir := Join(downloadPath, systemId);
      var turbo := turboMode;
      events, effects := [], [];
      if MakeDirs in failing {
        return;
      }
      effects := [MadeDirs(dir)];
      if hasCallback {
        events := [Starting];
      }
      var cmd := TransferCommand(turbo, dir, gameName, gameUrl);
      if Launch in failing {
        return;
      }
      var later, finalEffects := AfterLaunch(dir, gameName, run, failing, hasCallback);
      events := events + later;
      effects := [MadeDirs(dir), Ran(cmd)] + finalEffects;
      ThreadEffectsAfterLaunch(turbo, dir, gameName, gameUrl, run.exitCode, failing);
      assert turbo == turboMode && dir == Join(downloadPath, systemId);
    }

    /**
     * The part of `download_thread` after the transfer starts: follow its
     * output, then conclude, unless reading the output raises.
     */
    method AfterLaunch(dir: string, name: string, run: ProcessRun, failing: set<Step>, hasCallback: bool)
      returns (events: seq<Event>, effects: seq<Effect>)
      modifies this`progress, this`active
      ensures events == if !hasCallback then []
                        else if ReadOutput in failing then ProgressEvents(run.stderr)
                        else ProgressEvents(run.stderr) + ClosingEvents(run.exitCode, failing)
      ensures effects == if ReadOutput in failing then [] else AfterTransfer(dir, name, run.exitCode, failing)
      ensures progress == if hasCallback then LastOr(Percents(run.stderr), old(progress)) else old(progress)
      ensures active == if ReadOutput !in failing && (run.exitCode != 0 || (Extract !in failing && Remove !in failing))
                        then false else old(active)
    {
      events := FollowProgress(run.stderr, hasCallback);
      effects := [];
      if ReadOutput in failing {
        return;
      }
      var closing;
      closing, effects := Conclude(dir, name, run.exitCode, failing, hasCallback);
      events := events + closing;
    }

    /**
     * The end of `download_thread` after the transfer: on exit status 0 report
     * the extraction, run 7z, remove the archive and report success; otherwise
     * report failure. Clears `active` unless a step raises.
     */
    method Conclude(dir: string, name: string, exitCode: int, failing: set<Step>, hasCallback: bool)
      returns (events: seq<Event>, effects: seq<Effect>)
      modifies this`active
      ensures events == if hasCallback then ClosingEvents(exitCode, failing) else []
      ensures effects == AfterTransfer(dir, name, exitCode, failing)
      ensures active == if exitCode != 0 || (Extract !in failing && Remove !in failing) then false else old(active)
    {
      events, effects := [], [];
      var zip := Join(dir, name);
      if exitCode == 0 {
        if hasCallback {
          events := [Extracting];
        }
        if Extract in failing {
          return;
        }
        effects := [Ran(ExtractCommand(zip, dir))];
        if Remove in failing {
          return;
        }
        effects := effects + [Removed(zip)];
        if hasCallback {
          events := events + [Finished];
        }
      } else if hasCallback {
        events := [Failed];
      }
      active := false;
    }

    /**
     * The `while True` loop over the transfer's stderr: with a callback, every
     * line that carries a percentage sets `progress` and is reported.
     */
    method FollowProgress(lines: seq<string>, hasCallback: bool) returns (reports: seq<Event>)
      modifies this`progress
      ensures reports == if hasCallback then ProgressEvents(lines) else []
      ensures progress == if hasCallback then LastOr(Percents(lines), old(progress)) else old(progress)
    {
      reports := [];
      ghost var start := progress;
      var i := 0;
      while i < |lines|
        invariant 0 <= i <= |lines|
        invariant reports == if hasCallback then ProgressEvents(lines[..i]) else []
        invariant progress == if hasCallback then LastOr(Percents(lines[..i]), start) else start
      {
        ProgressStep(lines, i, start);
        var report := FollowLine(lines[i], hasCallback);
        reports := reports + report;
        i := i + 1;
      }
      assert lines[..i] == lines;
    }

    /** One stderr line: with a callback and a percentage in it, sets `progress` and reports it. */
    method FollowLine(line: string, hasCallback: bool) returns (report: seq<Event>)
      modifies this`progress
      ensures report == if hasCallback && ParsePercent(line).Some? then [Downloading(ParsePercent(line).value)] else []
      ensures progress == if hasCallback && ParsePercent(line).Some? then ParsePercent(line).value else old(progress)
    {
      report := [];
      if hasCallback && line != "" {
        var m := ParsePercent(line);
        if m.Some? {
          progress := m.value;
          report := [Downloading(m.value)];
        }
      }
    }
  }

  /** Taking one more line adds its report and sets the last percentage, if it carries one. */
  lemma ProgressStep(lines: seq<string>, i: nat, start: int)
    requires i < |lines|
    ensures ParsePercent("").None?
    ensures ProgressEvents(lines[..i + 1]) ==
              ProgressEvents(lines[..i]) + (if ParsePercent(lines[i]).Some? then [Downloading(ParsePercent(lines[i]).value)] else [])
    ensures LastOr(Percents(lines[..i + 1]), start) ==
              if ParsePercent(lines[i]).Some? then ParsePercent(lines[i]).value else LastOr(Percents(lines[..i]), start)
  {
    PercentsStep(lines, i);
    var p := ParsePercent(lines[i]);
    var q := Percents(lines[..i]);
    if p.Some? {
      assert (q + [p.value])[..|q|] == q;
      assert Reports(q + [p.value]) == Reports(q) + [Downloading(p.value)];
    } else {
      assert Percents(lines[..i + 1]) == q + [] == q;
    }
  }

  /** A progress report is never mistaken for a terminal one. */
  lemma DownloadingNotTerminal(p: nat)
    ensures !Terminal(Downloading(p))
    ensures Downloading(p) != Starting && Downloading(p) != Extracting
  {
    var s := DownloadingStatus(p);
    assert s[0] == 'B';
  }

  /**
   * With a callback and a body that runs to the end, the report opens with
   * `Starting`, lists the parsed percentages in line order, and ends with
   * exactly one terminal event, which is last: `Finished` after exit status 0,
   * `Failed` otherwise; `Extracting` precedes `Finished` immediately, and
   * nothing else is reported.
   */
  lemma CompletedReport(run: ProcessRun, failing: set<Step>)
    requires ThreadEnding(run.exitCode, failing) == Completed
    ensures var es := SessionEvents(true, run, failing);
            var ps := Percents(run.stderr);
            && |es| == |ps| + (if run.exitCode == 0 then 3 else 2) && es[0] == Starting
            && (forall k :: 0 <= k < |ps| ==> es[k + 1] == Downloading(ps[k]))
            && Terminal(es[|es| - 1])
            && (forall k :: 0 <= k < |es| - 1 ==> !Terminal(es[k]))
            && (es[|es| - 1] == Finished <==> run.exitCode == 0)
            && (run.exitCode == 0 ==> es[|es| - 2] == Extracting)
  {
    CompletedShape(run, failing);
    FramedReport(Percents(run.stderr), run.exitCode == 0);
  }

  /**
   * A report made of `Starting`, one progress report per percentage and the
   * closing reports has its one terminal event last.
   */
  lemma FramedReport(ps: seq<nat>, success: bool)
    ensures var es := [Starting] + Reports(ps) + (if success then [Extracting, Finished] else [Failed]);
            && |es| == |ps| + (if success then 3 else 2) && es[0] == Starting
            && (forall k :: 0 <= k < |ps| ==> es[k + 1] == Downloading(ps[k]))
            && Terminal(es[|es| - 1])
            && (forall k :: 0 <= k < |es| - 1 ==> !Terminal(es[k]))
            && (es[|es| - 1] == Finished <==> success)
            && (success ==> es[|es| - 2] == Extracting)
  {
    var pe := Reports(ps);
    var tail := if success then [Extracting, Finished] else [Failed];
    var es := [Starting] + pe + tail;
    ReportsBetween(ps, tail);
    forall k | 0 <= k < |es| - 1 ensures !Terminal(es[k]) {
      if 1 <= k <= |pe| {
        assert es[k] == Downloading(ps[k - 1]);
        DownloadingNotTerminal(ps[k - 1]);
      } else if k > |pe| {
        assert es[k] == Extracting;
      }
    }
  }

  /** Between `Starting` and the closing reports, the `k`-th report is that of the `k`-th percentage. */
  lemma ReportsBetween(ps: seq<nat>, tail: seq<Event>)
    ensures var es := [Starting] + Reports(ps) + tail;
            |es| == |ps| + 1 + |tail| && forall k :: 0 <= k < |ps| ==> es[k + 1] == Downloading(ps[k])
  {
    var es := [Starting] + Reports(ps) + tail;
    ReportsAt(ps);
    forall k | 0 <= k < |ps| ensures es[k + 1] == Downloading(ps[k]) {
      assert es[k + 1] == Reports(ps)[k];
    }
  }

  /** Once the transfer process has started, the report is the start, the progress reports and the closing reports. */
  lemma LaunchedShape(run: ProcessRun, failing: set<Step>)
    requires MakeDirs !in failing && Launch !in failing
    ensures SessionEvents(true, run, failing) ==
              [Starting] + Reports(Percents(run.stderr)) + (if ReadOutput in failing then [] else ClosingEvents(run.exitCode, failing))
  {
    if ReadOutput in failing {
      assert [Starting] + Reports(Percents(run.stderr)) + [] == [Starting] + Reports(Percents(run.stderr));
    }
  }

  /** The report of a completed body: the start, the progress reports, then the closing reports. */
  lemma CompletedShape(run: ProcessRun, failing: set<Step>)
    requires ThreadEnding(run.exitCode, failing) == Completed
    ensures SessionEvents(true, run, failing) ==
              [Starting] + Reports(Percents(run.stderr)) + (if run.exitCode == 0 then [Extracting, Finished] else [Failed])
  {
  }

  /**
   * Success is reported exactly when the transfer exits with status 0 and
   * the body completes; failure exactly when it exits otherwise after the
   * process started and its output was read. Without a callback nothing is
   * reported.
   */
  lemma ReportsOutcome(hasCallback: bool, run: ProcessRun, failing: set<Step>)
    ensures Finished in SessionEvents(hasCallback, run, failing) <==>
              hasCallback && run.exitCode == 0 && ThreadEnding(run.exitCode, failing) == Completed
    ensures Failed in SessionEvents(hasCallback, run, failing) <==>
              hasCallback && run.exitCode != 0 && MakeDirs !in failing && Launch !in failing && ReadOutput !in failing
    ensures !hasCallback ==> SessionEvents(hasCallback, run, failing) == []
  {
    var pe := ProgressEvents(run.stderr);
    ProgressEventsAreProgress(run.stderr);
    assert Finished !in pe && Failed !in pe;
  }

  /** `progress` ends as the percentage of the last progress report, or keeps its start value without one. */
  lemma ProgressIsLastReport(hasCallback: bool, run: ProcessRun, failing: set<Step>, start: int)
    ensures var pe := if !hasCallback || MakeDirs in failing || Launch in failing then [] else ProgressEvents(run.stderr);
            FinalProgress(hasCallback, run, failing, start) == if pe == [] then start else pe[|pe| - 1].percent
  {
  }
}
