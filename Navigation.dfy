/**
 * main.py: `StoregameGUI`, the pygame front end, without its drawing.
 * `handle_events` reacts to each input event of a frame: it moves the
 * selection, pushes and pops the menu stack, starts the background load of a
 * system's game list, starts downloads and switches music tracks.
 *
 * `React` is the reaction to one event as a value: the new navigation state
 * and the command it issues to the other components, or `Raised` when the
 * handler raises `IndexError` (the selection or the stack indexed out of
 * range). The `Gui` class applies reactions to its fields and runs the
 * commands on its downloader and audio manager.
 */
module Navigation {
  import opened Wrappers
  import opened Ring
  import Catalog
  import Display
  import GameDownloader
  import Audio

  /** An entry of the database's `systems` list. */
  datatype System = System(name: string, id: string, url: string)

  /** An entry of `menu_stack`: `"main"` or `"games"`. */
  datatype Menu = MainMenu | GamesMenu

  /** The keys `handle_events` distinguishes; `OtherKey` is any other key. */
  datatype Key = Up | Down | Return | A | B | Escape | Home | End | N | P | OtherKey

  datatype InputEvent = QuitEvent | KeyDown(key: Key) | OtherEvent

  /** The fields of the front end that event handling changes. */
  datatype Nav = Nav(running: bool, selected: int, stack: seq<Menu>, games: seq<string>, showProgress: bool)

  /** What an event asks of the other components. */
  datatype Command =
    | NoCommand
    | LoadGames(url: string)                                  // start the thread that runs `list_games(url)`
    | Download(url: string, game: string, systemDir: string)   // `download_game` with `progress_callback`
    | NextTrack
    | PrevTrack

  datatype Reaction = Reacted(nav: Nav, command: Command) | Raised

  /** Python's `s[i]`, negative indices counting from the end; `None` where it raises `IndexError`. */
  function At<T>(s: seq<T>, i: int): (r: Option<T>)
    ensures r.Some? <==> -|s| <= i < |s|
    ensures r.Some? ==> r.value in s
  {
    if 0 <= i < |s| then Some(s[i])
    else if -|s| <= i < 0 then Some(s[|s| + i])
    else None
  }

  function Max(a: int, b: int): int { if a >= b then a else b }
  function Min(a: int, b: int): int { if a <= b then a else b }

  /**
   * The reaction of `handle_events` to one event. Only Down, Return and A
   * can raise; no event restarts a stopped front end; a track change leaves
   * the navigation as it is; the game list changes only when a load clears it.
   */
  function React(systems: seq<System>, nav: Nav, ev: InputEvent): (r: Reaction)
    ensures r.Raised? ==> ev.KeyDown? && (ev.key == Down || ev.key == Return || ev.key == A)
    ensures r.Reacted? && r.nav.running ==> nav.running
    ensures r.Reacted? && (r.command.NextTrack? || r.command.PrevTrack?) ==> r.nav == nav
    ensures r.Reacted? && r.nav.games != nav.games ==> r.command.LoadGames? && r.nav.games == []
    ensures r.Reacted? && r.command.Download? ==> r.command.game in nav.games && r.nav.showProgress
  {
    match ev
    case QuitEvent => Reacted(nav.(running := false), NoCommand)
    case OtherEvent => Reacted(nav, NoCommand)
    case KeyDown(key) =>
      match key
      case Up => Reacted(nav.(selected := Max(0, nav.selected - 1)), NoCommand)
      case Down =>
        (match At(nav.stack, -1)
         case None => Raised
         case Some(top) =>
           var count := if top == MainMenu then |systems| else |nav.games|;
           Reacted(nav.(selected := Min(count - 1, nav.selected + 1)), NoCommand))
      case Return => Select(systems, nav)
      case A => Select(systems, nav)
      case B => Back(nav)
      case Escape => Back(nav)
      case Home => Reacted(nav.(running := false), NoCommand)
      case End => Reacted(nav.(running := false), NoCommand)
      case N => Reacted(nav, NextTrack)
      case P => Reacted(nav, PrevTrack)
      case OtherKey => Reacted(nav, NoCommand)
  }

  /**
   * Return or A: on the main menu open the selected system's game list; on
   * the game list download the selected game, taking the system at the same
   * index of `systems`.
   */
  function Select(systems: seq<System>, nav: Nav): (r: Reaction)
    ensures r.Reacted? ==> r.nav.running == nav.running && !r.command.NextTrack? && !r.command.PrevTrack?
    ensures r.Reacted? && r.command.NoCommand? ==> r.nav == nav
    ensures r.Reacted? && r.command.LoadGames? ==>
              && r.nav == nav.(stack := nav.stack + [GamesMenu], selected := 0, games := [])
              && exists i :: 0 <= i < |systems| && r.command.url == systems[i].url
    ensures r.Reacted? && r.command.Download? ==>
              && r.nav == nav.(showProgress := true)
              && r.command.game in nav.games
              && exists i :: 0 <= i < |systems| && r.command.url == systems[i].url + r.command.game
    ensures r.Raised? ==> At(nav.stack, -1).None? || At(systems, nav.selected).None? || At(nav.games, nav.selected).None?
  {
    match At(nav.stack, -1)
    case None => Raised
    case Some(top) =>
      if top == MainMenu then
        match At(systems, nav.selected)
        case None => Raised
        case Some(system) =>
          Reacted(nav.(stack := nav.stack + [GamesMenu], selected := 0, games := []), LoadGames(system.url))
      else if nav.games == [] then Reacted(nav, NoCommand)
      else
        match At(nav.games, nav.selected)
        case None => Raised
        case Some(game) =>
          match At(systems, nav.selected)
          case None => Raised
          case Some(system) =>
            Reacted(nav.(showProgress := true), Download(system.url + game, game, "/roms/" + system.id))
  }

  /** B or Escape: leave the game list, or stop when already on the main menu. */
  function Back(nav: Nav): (r: Reaction)
    ensures r.Reacted? && r.command == NoCommand && r.nav.games == nav.games
    ensures r.nav.running <==> nav.running && |nav.stack| > 1
    ensures |nav.stack| > 1 ==> r.nav.stack == nav.stack[..|nav.stack| - 1] && r.nav.selected == 0 && !r.nav.showProgress
    ensures |nav.stack| <= 1 ==> r.nav == nav.(running := false)
  {
    if |nav.stack| > 1 then
      Reacted(nav.(stack := nav.stack[..|nav.stack| - 1], selected := 0, showProgress := false), NoCommand)
    else Reacted(nav.(running := false), NoCommand)
  }

  /** The menu stack of the front end: the main menu, possibly with the game list above it. */
  predicate StackShape(stack: seq<Menu>)
  {
    stack == [MainMenu] || stack == [MainMenu, GamesMenu]
  }

  /** Every event keeps the stack in shape, so `menu_stack[-1]` never raises and the stack is never empty. */
  lemma ReactKeepsStackShape(systems: seq<System>, nav: Nav, ev: InputEvent)
    requires StackShape(nav.stack)
    ensures React(systems, nav, ev).Reacted? ==> StackShape(React(systems, nav, ev).nav.stack)
    ensures ev.KeyDown? && ev.key == Down ==> React(systems, nav, ev).Reacted?
  {
  }

  /**
   * Up and Down move the selection by one within the list the top menu
   * shows and stop at its ends; Down on an empty list gives -1.
   */
  lemma MovesStayClamped(systems: seq<System>, nav: Nav)
    requires StackShape(nav.stack)
    ensures var r := React(systems, nav, KeyDown(Up)).nav;
            0 <= r.selected && (nav.selected > 0 ==> r.selected == nav.selected - 1) && (nav.selected <= 0 ==> r.selected == 0)
    ensures var r := React(systems, nav, KeyDown(Down)).nav;
            var count := if nav.stack == [MainMenu] then |systems| else |nav.games|;
            && r.selected <= count - 1
            && (nav.selected + 1 <= count - 1 ==> r.selected == nav.selected + 1)
            && (nav.selected >= -1 ==> r.selected >= -1)
            && (count == 0 && nav.selected >= -1 ==> r.selected == -1)
    ensures forall ev :: nav.selected >= -1 && React(systems, nav, ev).Reacted? ==> React(systems, nav, ev).nav.selected >= -1
  {
  }

  /** Once `running` is cleared no event sets it again; Quit, Home, End and Back on the main menu clear it. */
  lemma StoppingIsFinal(systems: seq<System>, nav: Nav, ev: InputEvent)
    ensures !nav.running && React(systems, nav, ev).Reacted? ==> !React(systems, nav, ev).nav.running
    ensures React(systems, nav, ev).Reacted? && nav.running && !React(systems, nav, ev).nav.running <==>
              nav.running &&
              (ev == QuitEvent || ev == KeyDown(Home) || ev == KeyDown(End) ||
               ((ev == KeyDown(B) || ev == KeyDown(Escape)) && |nav.stack| <= 1))
  {
  }

  /** Back on the game list returns to the main menu with the first entry selected and the progress bar hidden. */
  lemma BackLeavesGameList(systems: seq<System>, nav: Nav)
    requires nav.stack == [MainMenu, GamesMenu]
    ensures React(systems, nav, KeyDown(B)) ==
              Reacted(nav.(stack := [MainMenu], selected := 0, showProgress := false), NoCommand)
  {
  }

  /**
   * Selecting on the main menu opens an empty game list for the selected
   * system and starts loading it from that system's URL.
   */
  lemma SelectOpensGameList(systems: seq<System>, nav: Nav)
    requires nav.stack == [MainMenu] && 0 <= nav.selected < |systems|
    ensures React(systems, nav, KeyDown(Return)) ==
              Reacted(nav.(stack := [MainMenu, GamesMenu], selected := 0, games := []),
                      LoadGames(systems[nav.selected].url))
  {
  }

  /**
   * Selecting the game at index `i` downloads it from the URL of the system at
   * index `i` into `/roms/<id>` of that system, and raises when there is no
   * system at that index.
   */
  lemma DownloadUsesGameIndex(systems: seq<System>, nav: Nav)
    requires nav.stack == [MainMenu, GamesMenu] && 0 <= nav.selected < |nav.games|
    ensures React(systems, nav, KeyDown(A)).Raised? <==> nav.selected >= |systems|
    ensures nav.selected < |systems| ==>
              var s := systems[nav.selected];
              var g := nav.games[nav.selected];
              React(systems, nav, KeyDown(A)) == Reacted(nav.(showProgress := true), Download(s.url + g, g, "/roms/" + s.id))
  {
  }

  /**
   * With the selection at -1 (Down pressed while the list was still empty)
   * and a list that has arrived since, selecting downloads the LAST game from
   * the LAST system, as Python's negative indexing reads `[-1]`.
   */
  lemma MinusOneSelectsLast(systems: seq<System>, nav: Nav)
    requires nav.stack == [MainMenu, GamesMenu] && nav.selected == -1
    requires nav.games != [] && systems != []
    ensures var s := systems[|systems| - 1];
            var g := nav.games[|nav.games| - 1];
            React(systems, nav, KeyDown(Return)) == Reacted(nav.(showProgress := true), Download(s.url + g, g, "/roms/" + s.id))
  {
  }

  /** The result of handling a batch of events. */
  datatype Outcome = Outcome(nav: Nav, commands: seq<Command>, raised: bool)

  /** `handle_events` on a batch: events in order, stopping at the first that raises. */
  function Replay(systems: seq<System>, nav: Nav, events: seq<InputEvent>): (r: Outcome)
    ensures |r.commands| <= |events|
    ensures !r.raised ==> |r.commands| == |events|
    ensures r.nav.running ==> nav.running
  {
    if events == [] then Outcome(nav, [], false)
    else
      var before := Replay(systems, nav, events[..|events| - 1]);
      if before.raised then before
      else match React(systems, before.nav, events[|events| - 1])
        case Raised => before.(raised := true)
        case Reacted(next, command) => Outcome(next, before.commands + [command], false)
  }

  /** A batch keeps the stack in shape, and a stopped front end stays stopped. */
  lemma {:induction false} ReplayKeepsShape(systems: seq<System>, nav: Nav, events: seq<InputEvent>)
    requires StackShape(nav.stack)
    ensures StackShape(Replay(systems, nav, events).nav.stack)
    ensures !nav.running ==> !Replay(systems, nav, events).nav.running
  {
    if events != [] {
      var before := Replay(systems, nav, events[..|events| - 1]);
      ReplayKeepsShape(systems, nav, events[..|events| - 1]);
      ReactKeepsStackShape(systems, before.nav, events[|events| - 1]);
      StoppingIsFinal(systems, before.nav, events[|events| - 1]);
    }
  }

  /** Handling one more event of a batch that has not raised applies its reaction. */
  lemma ReplayStep(systems: seq<System>, nav: Nav, events: seq<InputEvent>, i: nat)
    requires i < |events| && !Replay(systems, nav, events[..i]).raised
    ensures var before := Replay(systems, nav, events[..i]);
            var r := React(systems, before.nav, events[i]);
            Replay(systems, nav, events[..i + 1]) ==
              if r.Raised? then before.(raised := true) else Outcome(r.nav, before.commands + [r.command], false)
  {
    assert events[..i + 1][..i] == events[..i];
  }

  /** After an event raises, the rest of the batch is not handled. */
  lemma {:induction false} RaisedStops(systems: seq<System>, nav: Nav, events: seq<InputEvent>, i: nat)
    requires i <= |events| && Replay(systems, nav, events[..i]).raised
    ensures Replay(systems, nav, events) == Replay(systems, nav, events[..i])
    decreases |events| - i
  {
    if i < |events| {
      assert events[..i + 1][..i] == events[..i];
      RaisedStops(systems, nav, events, i + 1);
    } else {
      assert events[..i] == events;
    }
  }

  /** The download threads a list of commands starts. */
  function JobsOf(commands: seq<Command>): seq<GameDownloader.Job>
  {
    if commands == [] then []
    else
      JobsOf(commands[..|commands| - 1]) +
      match commands[|commands| - 1]
      case Download(url, game, dir) => [GameDownloader.Job(url, game, dir, true)]
      case _ => []
  }

  /** The game-list loads a list of commands starts, by URL. */
  function LoadsOf(commands: seq<Command>): seq<string>
  {
    if commands == [] then []
    else
      LoadsOf(commands[..|commands| - 1]) +
      match commands[|commands| - 1]
      case LoadGames(url) => [url]
      case _ => []
  }

  /** The current track after a list of commands, for `count` music files. */
  function TrackAfter(track: int, count: nat, commands: seq<Command>): int
  {
    if commands == [] || count == 0 then track
    else
      var t := TrackAfter(track, count, commands[..|commands| - 1]);
      match commands[|commands| - 1]
      case NextTrack => Next(t, count)
      case PrevTrack => Prev(t, count)
      case _ => t
  }

  class Gui {
    var running: bool
    var systems: seq<System>
    var selectedIndex: int
    var menuStack: seq<Menu>
    var currentGames: seq<string>
    var downloadProgress: int
    var downloadStatus: string
    var showProgress: bool
    /** The URLs of the game-list threads started so far. */
    var gameLoads: seq<string>
    const downloader: GameDownloader.Downloader
    const audio: Audio.AudioManager

    function State(): Nav
      reads this
    {
      Nav(running, selectedIndex, menuStack, currentGames, showProgress)
    }

    /**
     * `__init__`: the database's systems, the main menu with its first entry
     * selected, a downloader and an audio manager, and music started on a
     * random track.
     */
    constructor (systems: seq<System>, aria2Available: bool, soundsPath: string, mixerStarts: bool, listing: Audio.Listing)
      ensures State() == Nav(true, 0, [MainMenu], [], false) && this.systems == systems
      ensures downloadProgress == 0 && downloadStatus == "" && gameLoads == []
      ensures fresh(downloader) && downloader.downloadThreads == [] && downloader.turboMode == aria2Available
      ensures fresh(audio) && audio.soundsPath == soundsPath
      ensures audio.enabled <==> mixerStarts && !listing.Unreadable?
      ensures audio.musicFiles == if mixerStarts && listing.Entries? then Audio.MusicList(listing.names) else []
      ensures audio.enabled && audio.musicFiles != [] ==> 0 <= audio.currentTrack < |audio.musicFiles|
      ensures !audio.enabled || audio.musicFiles == [] ==> audio.currentTrack == 0
    {
      running := true;
      this.systems := systems;
      selectedIndex := 0;
      menuStack := [MainMenu];
      currentGames := [];
      downloader := new GameDownloader.Downloader(aria2Available);
      audio := new Audio.AudioManager(soundsPath, mixerStarts, listing);
      downloadProgress := 0;
      downloadStatus := "";
      showProgress := false;
      gameLoads := [];
      new;
      audio.Play(-1);
    }

    /** Handles one event: applies its reaction and runs its command, or changes nothing when it raises. */
    method HandleEvent(ev: InputEvent) returns (raised: bool)
      modifies this, downloader`downloadThreads, audio`currentTrack
      ensures systems == old(systems) && downloadProgress == old(downloadProgress) && downloadStatus == old(downloadStatus)
      ensures raised <==> React(systems, old(State()), ev).Raised?
      ensures raised ==> State() == old(State()) && gameLoads == old(gameLoads) &&
                         downloader.downloadThreads == old(downloader.downloadThreads) && audio.currentTrack == old(audio.currentTrack)
      ensures !raised ==>
                var r := React(systems, old(State()), ev);
                && State() == r.nav
                && downloader.downloadThreads == old(downloader.downloadThreads) + JobsOf([r.command])
                && gameLoads == old(gameLoads) + LoadsOf([r.command])
                && audio.currentTrack == TrackAfter(old(audio.currentTrack), |audio.musicFiles|, [r.command])
    {
      var r := React(systems, State(), ev);
      if r.Raised? {
        return true;
      }
      raised := false;
      running, selectedIndex, menuStack, currentGames, showProgress :=
        r.nav.running, r.nav.selected, r.nav.stack, r.nav.games, r.nav.showProgress;
      Perform(r.command);
    }

    /** Runs the command of a reaction: starts a game-list load or a download thread, or changes track. */
    method Perform(c: Command)
      modifies this`gameLoads, downloader`downloadThreads, audio`currentTrack
      ensures downloader.downloadThreads == old(downloader.downloadThreads) + JobsOf([c])
      ensures gameLoads == old(gameLoads) + LoadsOf([c])
      ensures audio.currentTrack == TrackAfter(old(audio.currentTrack), |audio.musicFiles|, [c])
    {
      assert [c][..0] == [];
      match c {
        case NoCommand =>
        case LoadGames(url) =>
          gameLoads := gameLoads + [url];
        case Download(url, game, dir) =>
          var _ := downloader.DownloadGame(url, game, dir, true);
        case NextTrack =>
          audio.NextTrack();
        case PrevTrack =>
          audio.PrevTrack();
      }
    }

    /** `handle_events`: the events of one frame in order, until one raises. */
    method HandleEvents(events: seq<InputEvent>) returns (raised: bool)
      modifies this, downloader`downloadThreads, audio`currentTrack
      ensures systems == old(systems) && downloadProgress == old(downloadProgress) && downloadStatus == old(downloadStatus)
      ensures var o := Replay(systems, old(State()), events);
              && raised == o.raised
              && State() == o.nav
              && downloader.downloadThreads == old(downloader.downloadThreads) + JobsOf(o.commands)
              && gameLoads == old(gameLoads) + LoadsOf(o.commands)
              && audio.currentTrack == TrackAfter(old(audio.currentTrack), |audio.musicFiles|, o.commands)
    {
      raised := false;
      var i := 0;
      while i < |events| && !raised
        invariant 0 <= i <= |events|
        invariant systems == old(systems) && downloadProgress == old(downloadProgress) && downloadStatus == old(downloadStatus)
        invariant var o := Replay(systems, old(State()), events[..i]);
                  && raised == o.raised
                  && State() == o.nav
                  && downloader.downloadThreads == old(downloader.downloadThreads) + JobsOf(o.commands)
                  && gameLoads == old(gameLoads) + LoadsOf(o.commands)
                  && audio.currentTrack == TrackAfter(old(audio.currentTrack), |audio.musicFiles|, o.commands)
      {
        ghost var o := Replay(systems, old(State()), events[..i]);
        ghost var r := React(systems, o.nav, events[i]);
        ReplayStep(systems, old(State()), events, i);
        raised := HandleEvent(events[i]);
        if !raised {
          CommandsAppend(o.commands, r.command, old(audio.currentTrack), |audio.musicFiles|);
        }
        i := i + 1;
      }
      if i < |events| {
        RaisedStops(systems, old(State()), events, i);
      } else {
        assert events[..i] == events;
      }
    }

    /** The background thread of `load_games` finishing: `current_games = list_games(url)`. */
    method GamesLoaded(response: Catalog.Fetch)
      modifies this`currentGames
      ensures currentGames == Catalog.ListGamesKeepingRepeats(response)
    {
      currentGames := Catalog.ListGamesKeepingRepeats(response);
    }

    /** `progress_callback(percent)` of a download of `game`. */
    method ProgressCallback(game: string, percent: int)
      modifies this`downloadProgress, this`downloadStatus
      ensures downloadProgress == percent && downloadStatus == Display.DownloadStatus(game)
    {
      downloadProgress := percent;
      downloadStatus := Display.DownloadStatus(game);
    }
  }

  /** The effect of one more command on the three logs kept above. */
  lemma CommandsAppend(cs: seq<Command>, c: Command, track: int, count: nat)
    ensures JobsOf(cs + [c]) == JobsOf(cs) + JobsOf([c])
    ensures LoadsOf(cs + [c]) == LoadsOf(cs) + LoadsOf([c])
    ensures TrackAfter(track, count, cs + [c]) == TrackAfter(TrackAfter(track, count, cs), count, [c])
  {
    assert (cs + [c])[..|cs|] == cs;
    assert [c][..0] == [];
  }
}
