# Storegame in Dafny

Storegame is a game store for the R36S handheld. It lists the ROM archives
that a directory-listing page offers for each emulated system, downloads an
archive with `aria2c` (turbo mode) or `curl`, unpacks it with 7z into
`/roms/<system>` and deletes the archive. It has two front ends. main.py is a
pygame interface with a background-music player. store_gui.py is a curses
interface with a main menu, per-group system menus and an audio screen.

This project models the core of three files:

- downloader.py: the `Downloader` class.
- main.py: its `Downloader`, its `AudioManager` and the event handling of
  `StoregameGUI`.
- store_gui.py: the system tables, the key loops of its menus and the dispatch
  of `main`.

Subprocesses, threads and the screen are inputs and outputs of the model:

- A page fetch is a `Catalog.Fetch` value.
- A transfer process is its standard-error lines and exit status (`Transfer.ProcessRun`).
- The steps of a download thread that raise are a set `failing`.
- The keys read by `getch` and the pygame events are sequences.
- What a thread does to the file system is a trace of `Transfer.Effect`s.
- What it reports to its callback is a trace of `DownloadSession.Event`s
  (downloader.py) or of percentages (main.py).

Modules:

- `Text`: the Python string operations used by the core. These are `s[:n]`, `str(n)`, `int(s)`, `endswith` and the code-point order of `sorted`.
- `Sorting`: `sorted(xs)` and `sorted(set(xs))`. Each is characterised completely, by order and by its multiset or set of elements.
- `Catalog`: the `findall` of `title="(...zip)"` and both `list_games`.
- `Progress`: the `(\d+)%` search on a progress line.
- `Transfer`: the transfer and extraction commands, read back as option values and operands, and the system steps of a download thread.
- `DownloadSession`: downloader.py's `Downloader` with `start_download` and its thread body.
- `GameDownloader`: main.py's `Downloader` with `download_game` and its thread body.
- `Ring`: Python's `(t ± 1) % n`.
- `Audio`: main.py's `AudioManager`.
- `Display`: the shortened names and status texts shown on screen.
- `Navigation`: main.py's `handle_events`, as a reaction function and as the `Gui` class that applies it.
- `StoreMenu`: store_gui.py.

## Model

| member | source | states |
|---|---|---|
| Text.Prefix | main.py:448 | `s[:n]` has length `min(len(s), n)` and is a prefix of `s` |
| Text.DecimalString | downloader.py:85 | `str(n)` of a natural number is a non-empty string of digits without a leading zero |
| Text.DecimalRoundTrip | downloader.py:83-85 | `int(str(n)) == n`, so the status text carries the parsed percentage exactly |
| Text.BelowIrreflexive | downloader.py:37 | Python's `<` on strings is irreflexive |
| Text.BelowAsymmetric | downloader.py:37 | Python's `<` on strings is asymmetric |
| Text.BelowTotal | downloader.py:37 | any two different strings are ordered one way or the other |
| Text.BelowTransitive | downloader.py:37 | Python's `<` on strings is transitive |
| Text.AtMostTransitive | main.py:82 | `<=` on strings is transitive |
| Text.AtMostAntisymmetric | main.py:82 | `<=` both ways means equal strings |
| Sorting.Insert | main.py:82 | inserting adds exactly one occurrence of the new element and keeps all others |
| Sorting.InsertAscending | main.py:82 | inserting into an ascending list keeps it ascending |
| Sorting.Sort | main.py:82 | `sorted(games)` is ascending and a permutation of `games`, duplicates kept |
| Sorting.SortedIsUnique | main.py:82 | an ascending permutation of a list is unique, so `Sort` is exactly Python's result |
| Sorting.InsertNew | downloader.py:37 | adding to a strictly ascending list keeps it strictly ascending and adds exactly that element |
| Sorting.SortUnique | downloader.py:37 | `sorted(set(games))` is strictly ascending with exactly the elements of `games` |
| Sorting.StrictlyAscendingDistinct | downloader.py:37 | a strictly ascending list repeats no element, so its length is its number of elements |
| Sorting.StrictSortedIsUnique | downloader.py:37 | a strictly ascending list is determined by its set of elements |
| Catalog.QuoteIndex | downloader.py:36 | the index found is the first `"` of the text, and there is none when no index is found |
| Catalog.CaptureAt | downloader.py:36 | a capture is an archive name (at least 5 characters, ending in `.zip`, no quote) that lies in the page and is followed by `"` |
| Catalog.MatchAt | downloader.py:36 | a match at `i` means `title="`, the name and `"` stand at `i` |
| Catalog.ScanFrom | downloader.py:36 | everything the scan returns can be captured by `([^"]+\.zip)` |
| Catalog.ScanSound | downloader.py:36 | every name the scan returns is an archive name quoted in a `title` attribute at or after the start |
| Catalog.NoOverlap | downloader.py:36 | a match cannot contain the start of another `title="`, so resuming after a match skips no occurrence |
| Catalog.ScanComplete | downloader.py:36 | every quoted archive name at or after the start is returned by the scan |
| Catalog.FindAllExactly | downloader.py:36 | the scan of the whole page returns a name iff the page quotes it as an archive name in a `title` attribute |
| Catalog.SkippedHaveNoMatch | downloader.py:36 | no position inside a match starts another match, so trying those positions captures nothing |
| Catalog.ScanIsCaptures | downloader.py:36 | resuming after each match returns exactly the captures of the pattern tried at every position, in order |
| Catalog.FindAll | downloader.py:36 | `findall` returns a name iff the page quotes it as an archive name in a `title` attribute; it returns one entry per quoted occurrence, repeats included, in page order |
| Catalog.ListGames | downloader.py:28-39 | the listing is strictly ascending (sorted, no duplicates) and holds exactly the quoted archive names; a failed fetch gives `[]` |
| Catalog.ListGamesKeepingRepeats | main.py:70-85 | the listing is ascending, is a permutation of the `findall` result, holds exactly the quoted archive names, and is `[]` on an exception |
| Catalog.ListingsAgree | downloader.py:36-37 | both `list_games` list the same names, and downloader.py's is never longer |
| Progress.RunEnd | downloader.py:81 | `\d+` takes the longest digit run from its start |
| Progress.SearchFrom | downloader.py:81 | the search finds the leftmost position where a digit run followed by `%` starts, or proves there is none |
| Progress.ParsePercent | downloader.py:81-83 | a percentage is the value of some digit run that is immediately followed by `%` in the line |
| Progress.PercentAtIsGreedy | downloader.py:81 | a digit run followed by `%` is exactly the greedy run from its start |
| Progress.ParsePercentMeaning | downloader.py:81-83 | a line gives no percentage iff it has no digit run followed by `%`; otherwise it gives the value of the leftmost such run |
| Progress.FirstPercentIsMaximal | downloader.py:81 | the leftmost run followed by `%` is not preceded by a digit |
| Progress.Percents | downloader.py:76-85 | at most one percentage per stderr line |
| Progress.PercentsStep | downloader.py:76-85 | reading one more line adds its percentage if it has one; an empty line has none |
| Progress.PercentsConcat | downloader.py:76-85 | the percentages of two runs of lines are those of each, in order |
| Progress.DownloadingStatus | downloader.py:85 | the digits between `Baixando... ` and the closing `%` read back as the percentage |
| Progress.StatusRoundTrip | downloader.py:85 | the status `Baixando... <p>%` parses back to `p` |
| Ring.Next | main.py:196 | `(t + 1) % n` lies in `[0, n)`: the next entry, wrapping from the last to the first |
| Ring.Prev | main.py:202 | `(t - 1) % n` lies in `[0, n)`: the previous entry, wrapping from the first to the last |
| Ring.NextPrevInverse | main.py:193-203 | next and previous undo each other on in-range entries |
| Display.Shorten | main.py:322-323 | a name longer than the limit keeps its first `limit - 3` characters and ends in `...`, at exactly the limit; a shorter one is unchanged |
| Display.CardName | main.py:321-323 | a system card shows at most 18 characters |
| Display.GameLine | main.py:366-368 | a game line shows at most 50 characters |
| Display.ShortenIdempotent | main.py:366-368 | shortening twice is shortening once, and what is shown begins the real name |
| Display.DownloadStatus | main.py:448 | the status starts with `Baixando `, ends with `...` and is at most 42 characters long |
| Display.DownloadStatusNamesGame | main.py:448 | the status shows the whole game name up to 30 characters, and its first 30 characters otherwise |
| Display.MenuEntry | store_gui.py:221 | an entry starts with `[` and has at least 4 characters |
| Display.MenuEntryParts | store_gui.py:220-221 | an entry is `[`, the 1-based position (which reads back as `i + 1`), `] ` and at most 34 characters that begin the name |
| Transfer.Join | downloader.py:47-49 | `a/b` is `a`, a slash and `b`, and both parts can be recovered |
| Transfer.TransferCommand | downloader.py:54-69 | the command runs `aria2c` in turbo mode and `curl` otherwise, with the URL as last argument |
| Transfer.ExtractCommand | downloader.py:92 | the command runs 7z on the given archive |
| Transfer.TurboOptionsReading | downloader.py:55-63 | the fixed aria2c options set only 10 connections, 10 splits and 10 jobs, and name no file and no URL |
| Transfer.AriaWritesArchive | downloader.py:54-67 | aria2c reads `--dir` as the system directory, `--out` as the game name and the URL as its only operand |
| Transfer.CurlWritesArchive | downloader.py:69 | curl reads `-o` as `system_dir/game_name` and the URL as its only operand |
| Transfer.TransferWritesArchive | downloader.py:47-69 | both commands write the file `system_dir/game_name` and fetch the URL, unless the URL starts with `-` and is read as a switch |
| Transfer.ExtractsTransferredArchive | downloader.py:49-92 | 7z unpacks the very file the transfer wrote, into the directory that holds it |
| Transfer.ThreadEnding | downloader.py:46-101 | the thread body completes iff creating the directory, starting the process and reading its output do not raise and, after exit status 0, neither 7z nor the removal raises; a raise is at a failing step |
| Transfer.ThreadEffects | downloader.py:46-101 | at most four changes, the directory first; the transfer command runs iff the directory is made and the process starts |
| Transfer.AfterTransfer | downloader.py:87-94 | nothing after a non-zero status; otherwise 7z runs first on the archive, and the archive is removed iff neither 7z nor the removal raises |
| Transfer.RemovalFollowsSuccess | downloader.py:87-94 | the archive is removed iff the exit status is 0 and the body completes; the removal comes right after the 7z run, whose result is never checked; a failed transfer extracts and removes nothing |
| DownloadSession.Reports | downloader.py:85 | one report per percentage |
| DownloadSession.ReportsAt | downloader.py:85 | the `k`-th report carries the `k`-th percentage and its status text |
| DownloadSession.ProgressEventsAreProgress | downloader.py:80-85 | no progress report is a start, extraction, success or failure report |
| DownloadSession.SessionEvents | downloader.py:46-101 | nothing is reported without a callback; with one, `Iniciando...` comes first once the directory exists; at most one report per stderr line plus three |
| DownloadSession.ClosingEvents | downloader.py:87-99 | after status 0 `Extraindo...` comes first, then `Concluido!` iff neither 7z nor the removal raises; otherwise the one report is the failure |
| DownloadSession.FinalProgress | downloader.py:80-85 | `progress` ends at its start value or at a percentage parsed from the output |
| DownloadSession.LaunchedShape | downloader.py:51-99 | once the process starts, the report is the start, the progress reports and, unless reading the output raises, the closing reports |
| DownloadSession.ReportsBetween | downloader.py:80-85 | between the start and the closing reports, the `k`-th report is that of the `k`-th percentage |
| DownloadSession.FramedReport | downloader.py:51-99 | a report framed by the start and the closing reports has its one terminal event last, success after extraction or failure alone |
| DownloadSession.DownloadingNotTerminal | downloader.py:85-99 | a progress report is never a start, extraction, success or failure report |
| DownloadSession.CompletedReport | downloader.py:51-99 | with a callback and a completed body, the report opens with `(0, Iniciando...)`, lists the percentages in order, has two or three more events (status 0 or not), and ends with exactly one terminal event, which is last: success after status 0, with extraction just before it, and failure otherwise |
| DownloadSession.ReportsOutcome | downloader.py:87-99 | success is reported iff status 0 and the body completes; failure is reported iff the process ran, its output was read and it exited otherwise; nothing is reported without a callback |
| DownloadSession.ProgressIsLastReport | downloader.py:80-85 | `progress` ends as the percentage of the last progress report, and is unchanged without one |
| DownloadSession.Downloader.constructor | downloader.py:13-19 | download root `/roms`, turbo mode as found, inactive, progress 0, empty status and game |
| DownloadSession.Downloader.StartDownload | downloader.py:41-106 | records the game and resets progress; the thread body then reports the session's events and makes the thread's effects under `/roms/<system_id>`; `progress` ends as the last report; `active` stays set only when a step raises; `status` never changes |
| DownloadSession.Downloader.DownloadThread | downloader.py:46-101 | the callback calls are the session events and the system changes are the thread's effects for the turbo flag; `progress` follows the last parsed percentage; `active` is cleared exactly when the body completes |
| DownloadSession.Downloader.Conclude | downloader.py:87-101 | after the transfer: with status 0, extraction is reported, 7z runs, the archive is removed and success is reported; otherwise failure is reported; `active` is cleared unless a step raises |
| DownloadSession.Downloader.AfterLaunch | downloader.py:76-101 | after the process starts: the progress reports, then the closing reports and effects unless reading the output raises; `active` is cleared only when the body completes |
| DownloadSession.Downloader.FollowProgress | downloader.py:76-85 | the stderr loop reports every line's percentage in order, and leaves `progress` at the last one; with no callback it does neither |
| DownloadSession.Downloader.FollowLine | downloader.py:77-85 | one line with a percentage and a callback sets `progress` to it and reports it; otherwise nothing changes |
| GameDownloader.Downloader.constructor | main.py:56-60 | download root `/roms`, turbo mode as found, no threads |
| GameDownloader.JobCalls | main.py:119-128 | at most one callback call per stderr line, and none without a callback or when the process never starts |
| GameDownloader.JobResult | main.py:130-140 | the thread returns nothing iff a step raises, and `True` only after exit status 0 with 7z and the removal done |
| GameDownloader.Downloader.DownloadGame | main.py:142-146 | returns `True` at once and appends exactly one thread, for this game, to `download_threads` |
| GameDownloader.Downloader.RunJob | main.py:91-140 | the callback receives exactly the parsed percentages; the effects are the same as downloader.py's thread; the result is `success`, or nothing when a step raises |
| GameDownloader.CollectProgress | main.py:119-128 | the stderr loop hands the callback every parsed percentage, in order, and nothing without a callback |
| GameDownloader.SameProgressAsSession | main.py:119-128 | main.py's callback receives the same percentages as downloader.py's progress reports, in order, followed there by at least the closing report when the output is read; each comes from a stderr line that carries it |
| GameDownloader.PercentsFromLines | main.py:123-128 | every percentage handed on comes from some line that carries it |
| GameDownloader.ResultMeansRemoved | main.py:130-140 | the thread returns `True` iff the archive was removed, and `False` iff the process ran, its output was read and it exited with a non-zero status |
| Audio.Mp3Files | main.py:169-172 | keeps exactly the entries ending in `.mp3`, and is no longer than the listing |
| Audio.Mp3FilesCounts | main.py:169-172 | each `.mp3` entry is kept as often as it is listed, and every other entry is dropped |
| Audio.MusicList | main.py:166-173 | the music list is ascending and a permutation of the `.mp3` entries |
| Audio.MusicListMeaning | main.py:166-173 | the music list is ascending and holds exactly the `.mp3` entries, each as often as listed |
| Audio.AudioManager.constructor | main.py:152-164 | track 0; the music list is loaded when the mixer starts; audio is disabled iff the mixer fails or the listing raises |
| Audio.AudioManager.LoadMusicList | main.py:166-173 | an existing directory gives the sorted `.mp3` list; a missing one leaves the list alone; a listing that raises is reported |
| Audio.AudioManager.Play | main.py:175-191 | nothing changes when disabled or without music; an in-range index becomes the current track; the track is always in range afterwards |
| Audio.AudioManager.NextTrack | main.py:193-197 | the track moves one on, wrapping around; nothing changes without music |
| Audio.AudioManager.PrevTrack | main.py:199-203 | the track moves one back, wrapping around; nothing changes without music |
| Navigation.At | main.py:420 | Python indexing succeeds iff `-len <= i < len`, and returns an element of the list |
| Navigation.React | main.py:410-475 | only Down, Return and A can raise; no event restarts a stopped interface; a track change leaves the navigation alone; the game list changes only when a load empties it; a download is of a listed game and shows the progress bar |
| Navigation.Select | main.py:424-456 | a load pushes the game list, empties it, selects entry 0 and uses a system's URL; a download is of a listed game from a system's URL plus its name, and only shows the progress bar; otherwise nothing changes; `running` is kept |
| Navigation.Back | main.py:458-465 | never raises or issues a command; pops the game list, selecting entry 0 and hiding the progress bar, or stops the interface on the main menu |
| Navigation.ReactKeepsStackShape | main.py:410-475 | the menu stack stays `["main"]` or `["main", "games"]`, so `menu_stack[-1]` never raises and the stack is never empty |
| Navigation.MovesStayClamped | main.py:417-423 | Up moves the selection one up and stops at 0; Down moves it one down and stops at the last entry of the list the top menu shows; Down on an empty list gives -1; no event moves the selection below -1 |
| Navigation.StoppingIsFinal | main.py:413-468 | no event sets `running` again; Quit, Home, End, and Back on the main menu are exactly the events that clear it |
| Navigation.BackLeavesGameList | main.py:458-463 | Back on the game list pops it, selects the first entry and hides the progress bar |
| Navigation.SelectOpensGameList | main.py:425-439 | selecting on the main menu pushes the game list, empties it, selects its first entry and loads the selected system's URL |
| Navigation.DownloadUsesGameIndex | main.py:441-456 | selecting game `i` downloads it from the URL of system `i` into `/roms/<id>` of system `i`, and raises when there is no system `i` |
| Navigation.MinusOneSelectsLast | main.py:421-444 | with the selection at -1, selecting downloads the last game from the last system's URL |
| Navigation.ReplayKeepsShape | main.py:410-475 | a batch of events keeps the stack in shape, and a stopped interface stays stopped |
| Navigation.Replay | main.py:410-475 | at most one command per event, exactly one when none raises, and a stopped interface stays stopped |
| Navigation.ReplayStep | main.py:412 | handling one more event of a batch that has not raised applies its reaction |
| Navigation.RaisedStops | main.py:412 | once an event raises, the rest of the frame's events are not handled (the `IndexError` then ends the program) |
| Navigation.Gui.constructor | main.py:218-248 | the main menu with entry 0 selected, running, no games, no downloads; audio is enabled iff the mixer starts and the listing does not raise; the music list is the sorted `.mp3` entries when the mixer starts and the directory exists, and empty otherwise; the track is in range when there is music, and 0 otherwise |
| Navigation.Gui.HandleEvent | main.py:412-475 | one event either raises and changes nothing, or sets the fields to its reaction and starts its download, game-list load or track change |
| Navigation.Gui.Perform | main.py:432-475 | a command appends its download thread or game-list load, or moves the track, and does nothing else |
| Navigation.Gui.HandleEvents | main.py:410-475 | the fields, threads, loads and track after a frame are those of the events handled in order up to the first that raises |
| Navigation.Gui.GamesLoaded | main.py:433-435 | when its load ends, the game list is main.py's `list_games` of the fetched page |
| Navigation.Gui.ProgressCallback | main.py:446-448 | the progress bar shows the percentage, and the status names the game |
| StoreMenu.Get | store_gui.py:220 | a value found is that of an entry with the key; nothing is found only when no entry has it |
| StoreMenu.GetMeaning | store_gui.py:220 | `dict.get` finds a key iff the table has it, and returns that entry's value |
| StoreMenu.MenuShape | store_gui.py:126-134 | the main menu has 7 distinct entries, and no two entries share a returned key |
| StoreMenu.GroupSystems | store_gui.py:190-197 | every group lists at least two systems |
| StoreMenu.GroupCases | store_gui.py:190-197 | nintendo lists 7 systems, sony 2, sega 6, and any other group the 7 "outros" systems |
| StoreMenu.TablesAgree | store_gui.py:36-85 | neither table repeats a code; `SYSTEM_URLS` has exactly the codes of `SYSTEMS` but `PTBR`, in order; `PTBR` has a name but no URL |
| StoreMenu.CodesDistinct | store_gui.py:36-60 | no system code is listed twice |
| StoreMenu.GroupsAreTableSlices | store_gui.py:190-197 | each group lists the codes of a slice of `SYSTEMS`, in table order, except that `SEGACD` is listed with the Sega systems |
| StoreMenu.GroupsResolve | store_gui.py:190-197 | every system a group lists has a name in `SYSTEMS` and a URL in `SYSTEM_URLS` |
| StoreMenu.GroupsPartitionUrls | store_gui.py:190-197 | the four groups together list every system that has a URL, each exactly once |
| StoreMenu.SystemName | store_gui.py:220 | a known code gets its name from `SYSTEMS`; any other string gets the default |
| StoreMenu.UrlsAreDirectories | store_gui.py:62-85 | every URL ends with `/`, so `url + game` names a file in it |
| StoreMenu.Classify | store_gui.py:172-183 | `q`, `Q` and `0` quit; KEY_UP and `k` move up; KEY_DOWN and `j` move down; Enter and space choose; these are the only keys that do each |
| StoreMenu.RunMenu | store_gui.py:170-183 | a chosen index is one of the menu's entries, and a menu that returns has read at least one key |
| StoreMenu.RunMenuMeaning | store_gui.py:170-183 | a menu returns on the first quit or choosing key, quitting or choosing as that key says, and waits iff no key ends it |
| StoreMenu.ChosenEntry | store_gui.py:175-183 | the entry chosen is the first entry moved by all Up and Down keys before the choosing key, modulo the number of entries |
| StoreMenu.FirstKey | store_gui.py:172-183 | a first `q`/`Q`/`0` leaves, a first Enter/space chooses the highlighted entry, and a first ignored key is skipped |
| StoreMenu.MenuLoop | store_gui.py:136-183 | the `while True` key loop ends as the menu's run specifies, after reading as many keys |
| StoreMenu.MainMenu | store_gui.py:121-183 | `main_menu` answers with the entry its run chooses, `'sair'` on a quit key, and nothing while it waits |
| StoreMenu.MainMenuAnswers | store_gui.py:172-183 | the answer is `'sair'` iff a quit key ends the menu or its last entry is chosen; otherwise it is the key of the entry chosen |
| StoreMenu.MainMenuWaits | store_gui.py:138-183 | `main_menu` waits iff no key read ends it |
| StoreMenu.SystemMenu | store_gui.py:185-251 | `system_menu` answers with the highlighted system of its group, `None` on a quit key, and nothing while it waits |
| StoreMenu.PickedInGroup | store_gui.py:249-251 | a picked system is the highlighted one of the group's list |
| StoreMenu.SystemEntries | store_gui.py:217-221 | the system menu shows one entry per system of the group, numbered from 1 and named from `SYSTEMS` |
| StoreMenu.RunAudio | store_gui.py:290-309 | the audio screen reads no more keys than there are |
| StoreMenu.AudioKey | store_gui.py:292-309 | `1` turns audio on, `2` turns it off, `0` and `q` leave, each iff that key; `Q` does nothing here although it quits a menu |
| StoreMenu.RunAudioMeaning | store_gui.py:292-309 | the audio screen answers the first `1`, `2`, `0` or `q` key; with none it waits having read every key |
| StoreMenu.AudioConfig | store_gui.py:253-309 | `audio_config` returns the answer of its first key and makes that answer's config, environment and music changes |
| StoreMenu.AudioEffectsMeaning | store_gui.py:292-309 | the config enables audio exactly for `1`; it disables audio and stops the music exactly for `2`; leaving changes nothing |
| StoreMenu.GroupTitlesEmpty | store_gui.py:329 | no main-menu key is a system code, so every system menu opens with the empty title |
| StoreMenu.OpenScreen | store_gui.py:321-332 | a dispatch reads no more keys than there are and opens at most one screen |
| StoreMenu.MainRound | store_gui.py:319-332 | a round that does not end the session, or that opens a screen, reads at least one key; it opens at most one screen |
| StoreMenu.RunSession | store_gui.py:318-332 | a session opens at most one screen per key read |
| StoreMenu.RunStore | store_gui.py:311-332 | `main` opens the screens of the session its keys describe, and exits iff the session ends on `'sair'` |
| StoreMenu.SessionStep | store_gui.py:318-332 | one round of `main`'s loop adds its screens; the session then continues on the keys left, or ends |
| StoreMenu.PlayRound | store_gui.py:319-332 | a round runs the main menu and opens the screen of its answer |
| StoreMenu.Open | store_gui.py:321-332 | `'sair'` ends the loop; `'audio'` opens the audio screen; `'ptbr'` does nothing; any other answer opens the system menu of its group |
| StoreMenu.SessionVisits | store_gui.py:318-332 | every screen a session opens is reachable: a system menu of one of the four groups with a pick from that group, or the audio screen with the changes of its answer |
| StoreMenu.RoundVisits | store_gui.py:319-332 | the screens of one round are reachable |
| StoreMenu.SessionFirstKey | store_gui.py:172-174 | a first quit key ends the session at once with no screen, and a first ignored key changes nothing |
| StoreMenu.RoundSkipsIgnored | store_gui.py:170-183 | a key the main menu ignores only adds one to the keys a round reads |

## Left out

- Subprocesses are outside the model: `curl`, `aria2c --version`, `Popen` streaming, `7z`, `ffplay` and `pkill`. A run is given as its output lines and exit status. `_check_aria2` is the boolean `aria2Available`.
- Threads are outside the model. downloader.py's thread body runs to completion inside `DownloadSession.Downloader.StartDownload`. main.py's thread body is the separate `GameDownloader.Downloader.RunJob`, which neither `DownloadGame` nor `Navigation.Gui.Perform` calls. main.py's game-list load is the separate `Navigation.Gui.GamesLoaded`. The interleavings of the UI thread with these threads are not modelled. Nor is the thread object that `start_download` returns.
- The stderr loop ends when `readline` returns `''` and the process has exited. The model takes the lines read before that as a complete list and ignores the timing of `poll`. `readline` on the text stream raises on output it cannot decode. That is the step `ReadOutput`, taken to raise after the listed lines have been read and reported: the body then ends without a closing report and `active` stays set.
- Progress.ParsePercent: `\d` is taken as the ASCII digits. Python's `\d` and `int` also accept other Unicode decimal digits.
- Navigation.Gui.HandleEvents: nothing in `run()` catches an `IndexError` from `handle_events` (main.py:477-491), so the program ends with it. The model stops the frame at the raising event and keeps the state of the events handled before it. It does not model the exit.
- Progress.ParsePercent: on Python 3.11 and later, `int` raises `ValueError` on a run of more than 4300 digits (downloader.py:83, main.py:128). That would end the download thread. The model parses any length and has no such raise.
- Audio.AudioManager.Play: for an index out of range, the track is any in-range one. `random.randint` picks it, and the model does not say which. The mixer calls (`load`, `set_volume`, `play`) are left out.
- Navigation.Gui.constructor: with music, the first track is any in-range one, as for `Play(-1)`; the model does not say which.
- `AudioManager.set_volume` and `stop` are left out, along with the float volume: they only drive the mixer.
- Some main.py `Downloader` behaviour is not modelled:
  - The `active_downloads` field is never used, so it is not modelled.
  - The value `download_thread` returns is lost, because the thread target's result is discarded. The model keeps it only as `RunJob`'s result.
- An exception raised inside the progress callback is not modelled: the callbacks here only assign fields.
- Drawing is not modelled:
  - all pygame and curses drawing, fonts, colours, the frame clock and `run()`;
  - the progress-bar width;
  - `draw_box`;
  - the titles of the curses screens, which are drawn only.
- The display strings that are only drawn are kept as shortened names and entry texts, not as screen positions.
- The SHA-256 signature check at main.py:22-25 is not modelled: it is a foreign hash call.
- Navigation.System: every database entry is assumed to have string `name`, `id` and `url` fields. A missing key (main.py:434, 450-451) raises `KeyError` and a non-string URL raises `TypeError`; neither is modelled. Nor is `_load_database` returning data of another shape (main.py:258).
- Database and configuration I/O is not modelled: the JSON database is loaded as the `systems` parameter, and environment-variable paths are not read. `audio_config`'s file write, environment change and `pkill` are effect values, not performed.
- `play_sound` and the `curses` setup in `main` are not modelled, nor is the `KeyboardInterrupt` handler.
- A blocking `getch` with no key left is reported as a waiting menu rather than blocking.
- Python dicts are modelled as their entries in insertion order.
- `main_menu` returns a key string. The model returns the menu entry whose key it is (`StoreMenu.ItemKey`). `MenuShape` shows this loses nothing, since no two entries share a key.
- The "PT-BR" and game-download branches of store_gui.py's `main` are `pass` in the source, and the model gives them no behaviour.
