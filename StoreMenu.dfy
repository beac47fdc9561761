/**
 * store_gui.py: the curses front end. Its tables name the systems and the
 * directory listings of their games; `main_menu` and `system_menu` are loops
 * that move a highlighted entry with the arrow keys (or `k`/`j`) around a
 * circular list until an entry is chosen or the menu is left; `audio_config`
 * waits for one of its option keys; `main` dispatches on the main menu's
 * answer.
 *
 * The key codes `stdscr.getch()` returns are the input `keys`; a loop that
 * runs out of keys is still waiting, which the model reports instead of
 * blocking.
 */
module StoreMenu {
  import opened Wrappers
  import opened Text
  import opened Ring
  import Display

  /** A Python dict literal, as its entries in insertion order. */
  type Table = seq<(string, string)>

  /** The keys of a table, in order. */
  function Keys(t: Table): (ks: seq<string>)
    ensures |ks| == |t| && forall i :: 0 <= i < |t| ==> ks[i] == t[i].0
  {
    seq(|t|, i requires 0 <= i < |t| => t[i].0)
  }

  /** `t.get(key)`: the value of the first entry with that key. */
  function Get(t: Table, key: string): (r: Option<string>)
    ensures r.Some? ==> (key, r.value) in t
    ensures r.None? ==> forall e :: e in t ==> e.0 != key
  {
    if t == [] then None
    else if t[0].0 == key then Some(t[0].1)
    else Get(t[1..], key)
  }

  /** A key is found exactly when some entry has it, and the value found is that entry's. */
  lemma {:induction false} GetMeaning(t: Table, key: string)
    ensures Get(t, key).None? <==> key !in Keys(t)
    ensures Get(t, key).Some? ==> (key, Get(t, key).value) in t
  {
    if t != [] && t[0].0 != key {
      GetMeaning(t[1..], key);
      assert Keys(t) == [t[0].0] + Keys(t[1..]);
    }
  }

  /** No string appears twice. */
  predicate Distinct(ks: seq<string>)
  {
    forall i, j :: 0 <= i < j < |ks| ==> ks[i] != ks[j]
  }

  /** A dict literal, written as its keys and its values in entry order. */
  function Zip(ks: seq<string>, vs: seq<string>): (t: Table)
    requires |ks| == |vs|
    ensures Keys(t) == ks && forall i :: 0 <= i < |t| ==> t[i].1 == vs[i]
  {
    seq(|ks|, i requires 0 <= i < |ks| => (ks[i], vs[i]))
  }

  /** `SYSTEMS`: display names by system code. */
  const Systems: Table := Zip(SystemCodes, SystemNames)

  const SystemCodes: seq<string> := [
    "PTBR",
    "NES",
    "SNES",
    "N64",
    "GB",
    "GBC",
    "GBA",
    "NDS",
    "PSX",
    "PSP",
    "GAMEGEAR",
    "GENESIS",
    "MASTERSYSTEM",
    "SATURN",
    "DREAMCAST",
    "NEOGEO",
    "TURBOGRAFX",
    "MSX",
    "MSX2",
    "J2ME",
    "SEGACD",
    "PICO8",
    "WSWAN"
  ]

  const SystemNames: seq<string> := [
    "ROMs Traduzidas [BR]",
    "Nintendo Entertainment System",
    "Super Nintendo",
    "Nintendo 64",
    "Game Boy",
    "Game Boy Color",
    "Game Boy Advance",
    "Nintendo DS",
    "PlayStation",
    "PlayStation Portable",
    "Game Gear",
    "Genesis / Mega Drive",
    "Master System",
    "Saturn",
    "Dreamcast",
    "Neo Geo",
    "TurboGrafx-16",
    "MSX",
    "MSX2",
    "Java Mobile",
    "Sega CD",
    "PICO-8",
    "WonderSwan Color"
  ]

  /** The two collections of the archive every URL points into. */
  const NoIntro := "https://myrient.erista.me/files/No-Intro/"
  const Redump := "https://myrient.erista.me/files/Redump/"

  /**
   * `SYSTEM_URLS`: the directory listing of each system's games, written as
   * the codes and, for each code, its collection and directory name.
   */
  const SystemUrls: Table := Zip(UrlCodes, seq(|UrlDirectories|, i requires 0 <= i < |UrlDirectories| => Directory(UrlDirectories[i].0, UrlDirectories[i].1)))

  const UrlCodes: seq<string> := [
    "NES",
    "SNES",
    "N64",
    "GB",
    "GBC",
    "GBA",
    "NDS",
    "PSX",
    "PSP",
    "GAMEGEAR",
    "GENESIS",
    "MASTERSYSTEM",
    "SATURN",
    "DREAMCAST",
    "NEOGEO",
    "TURBOGRAFX",
    "MSX",
    "MSX2",
    "J2ME",
    "SEGACD",
    "PICO8",
    "WSWAN"
  ]

  const UrlDirectories: seq<(string, string)> := [
    (NoIntro, "Nintendo%20-%20Nintendo%20Entertainment%20System%20(Headered)"),
    (NoIntro, "Nintendo%20-%20Super%20Nintendo%20Entertainment%20System"),
    (NoIntro, "Nintendo%20-%20Nintendo%2064%20(BigEndian)"),
    (NoIntro, "Nintendo%20-%20Game%20Boy"),
    (NoIntro, "Nintendo%20-%20Game%20Boy%20Color"),
    (NoIntro, "Nintendo%20-%20Game%20Boy%20Advance"),
    (NoIntro, "Nintendo%20-%20Nintendo%20DS%20(Decrypted)"),
    (Redump, "Sony%20-%20PlayStation"),
    (Redump, "Sony%20-%20PlayStation%20Portable"),
    (NoIntro, "Sega%20-%20Game%20Gear"),
    (NoIntro, "Sega%20-%20Mega%20Drive%20-%20Genesis"),
    (NoIntro, "Sega%20-%20Master%20System%20-%20Mark%20III"),
    (Redump, "Sega%20-%20Saturn"),
    (Redump, "Sega%20-%20Dreamcast"),
    (Redump, "SNK%20-%20Neo%20Geo%20CD"),
    (NoIntro, "NEC%20-%20PC%20Engine%20-%20TurboGrafx-16"),
    (NoIntro, "Microsoft%20-%20MSX"),
    (NoIntro, "Microsoft%20-%20MSX2"),
    (NoIntro, "Mobile%20-%20Java%202%20Micro%20Edition"),
    (Redump, "Sega%20-%20Mega-CD%20-%20Sega%20CD"),
    (NoIntro, "Lexaloffle%20-%20PICO-8"),
    (NoIntro, "Bandai%20-%20WonderSwan%20Color")
  ]

  /** The URL of directory `name` of a collection: `collection + name + "/"`. */
  function Directory(collection: string, name: string): string
  {
    collection + name + "/"
  }

  /** The entries of `main_menu`, in the order of its `menu_items`. */
  datatype Item = PtBr | Nintendo | Sony | Sega | Others | AudioSetup | Quit

  const MenuItems: seq<Item> := [PtBr, Nintendo, Sony, Sega, Others, AudioSetup, Quit]

  /** The key `main_menu` returns for an entry; `main` dispatches on it and hands it to `system_menu`. */
  function ItemKey(item: Item): string
  {
    match item
    case PtBr => "ptbr"
    case Nintendo => "nintendo"
    case Sony => "sony"
    case Sega => "sega"
    case Others => "outros"
    case AudioSetup => "audio"
    case Quit => "sair"
  }

  /** The menu lists every entry once, and no two entries share a key: an entry stands for its key. */
  lemma MenuShape()
    ensures |MenuItems| == 7 && forall item :: item in MenuItems
    ensures forall i, j :: 0 <= i < j < |MenuItems| ==> MenuItems[i] != MenuItems[j]
    ensures forall a, b :: ItemKey(a) == ItemKey(b) ==> a == b
  {
    forall item ensures item in MenuItems {
      match item
      case PtBr => assert MenuItems[0] == item;
      case Nintendo => assert MenuItems[1] == item;
      case Sony => assert MenuItems[2] == item;
      case Sega => assert MenuItems[3] == item;
      case Others => assert MenuItems[4] == item;
      case AudioSetup => assert MenuItems[5] == item;
      case Quit => assert MenuItems[6] == item;
    }
    forall a, b | ItemKey(a) == ItemKey(b) ensures a == b {
      assert |ItemKey(a)| == |ItemKey(b)|;
      assert ItemKey(a)[1] == ItemKey(b)[1];
    }
  }

  /**
   * The systems `system_menu` lists for the entry whose key it is given:
   * `'nintendo'`, `'sony'` and `'sega'` have their lists, any other key gets
   * the `'outros'` list.
   */
  function GroupSystems(group: Item): (codes: seq<string>)
    ensures |codes| >= 2
  {
    if group == Nintendo then ["NES", "SNES", "N64", "GB", "GBC", "GBA", "NDS"]
    else if group == Sony then ["PSX", "PSP"]
    else if group == Sega then ["GAMEGEAR", "GENESIS", "MASTERSYSTEM", "SATURN", "DREAMCAST", "SEGACD"]
    else ["NEOGEO", "TURBOGRAFX", "MSX", "MSX2", "J2ME", "PICO8", "WSWAN"]
  }

  /** `SYSTEMS.get(code, default)`: the name listed for a known code, `default` for any other. */
  function SystemName(code: string, default: string): (r: string)
    ensures code in Keys(Systems) ==> (code, r) in Systems
    ensures code !in Keys(Systems) ==> r == default
  {
    GetMeaning(Systems, code);
    match Get(Systems, code)
    case Some(name) => name
    case None => default
  }

  /** Both tables are dicts, and the URL table has exactly the named systems but `PTBR`, in the same order. */
  lemma TablesAgree()
    ensures Distinct(Keys(Systems)) && Distinct(Keys(SystemUrls))
    ensures Keys(Systems)[0] == "PTBR" && Keys(SystemUrls) == Keys(Systems)[1..]
    ensures Get(Systems, "PTBR").Some? && Get(SystemUrls, "PTBR").None?
  {
    CodesDistinct();
    assert UrlCodes == SystemCodes[1..];
    GetMeaning(Systems, "PTBR");
    GetMeaning(SystemUrls, "PTBR");
    assert SystemCodes[0] in SystemCodes;
  }

  /** No system code is listed twice. */
  lemma CodesDistinct()
    ensures Distinct(SystemCodes)
  {
    var k := SystemCodes;
    forall i, j | 0 <= i < j < |k| ensures k[i] != k[j] {
      if |k[i]| == |k[j]| {
        SameLengthCodesDiffer(i, j);
      }
    }
  }

  /** Codes of one length differ in their first two or their last character. */
  lemma SameLengthCodesDiffer(i: nat, j: nat)
    requires i < j < |SystemCodes| && |SystemCodes[i]| == |SystemCodes[j]|
    ensures SystemCodes[i] != SystemCodes[j]
  {
    var a, b := SystemCodes[i], SystemCodes[j];
    assert a[0] != b[0] || a[1] != b[1] || a[|a| - 1] != b[|b| - 1];
  }

  /** The group lists are the system table's codes, in table order but for `SEGACD`. */
  lemma GroupsAreTableSlices()
    ensures var k := Keys(Systems);
            && GroupSystems(Nintendo) == k[1..8] && GroupSystems(Sony) == k[8..10]
            && GroupSystems(Sega) == k[10..15] + [k[20]] && GroupSystems(Others) == k[15..20] + k[21..]
  {
    assert Keys(Systems) == SystemCodes;
    NintendoSlice();
    SonySlice();
    SegaSlice();
    OthersSlice();
  }

  lemma NintendoSlice()
    ensures GroupSystems(Nintendo) == SystemCodes[1..8]
  {
    var k := SystemCodes;
    assert GroupSystems(Nintendo) == [k[1], k[2], k[3], k[4], k[5], k[6], k[7]] == k[1..8];
  }

  lemma SonySlice()
    ensures GroupSystems(Sony) == SystemCodes[8..10]
  {
    var k := SystemCodes;
    assert GroupSystems(Sony) == [k[8], k[9]] == k[8..10];
  }

  lemma SegaSlice()
    ensures GroupSystems(Sega) == SystemCodes[10..15] + [SystemCodes[20]]
  {
    var k := SystemCodes;
    assert GroupSystems(Sega) == [k[10], k[11], k[12], k[13], k[14], k[20]] == k[10..15] + [k[20]];
  }

  lemma OthersSlice()
    ensures GroupSystems(Others) == SystemCodes[15..20] + SystemCodes[21..]
  {
    var k := SystemCodes;
    assert GroupSystems(Others) == [k[15], k[16], k[17], k[18], k[19], k[21], k[22]] == k[15..20] + k[21..];
  }

  /** Every system a group lists has a name and a URL. */
  lemma GroupsResolve(g: Item)
    ensures forall c :: c in GroupSystems(g) ==> Get(Systems, c).Some? && Get(SystemUrls, c).Some?
  {
    GroupCases(g);
    GroupsAreTableSlices();
    TablesAgree();
    var k := Keys(Systems);
    forall c | c in GroupSystems(g) ensures Get(Systems, c).Some? && Get(SystemUrls, c).Some? {
      var j :| 0 <= j < |GroupSystems(g)| && GroupSystems(g)[j] == c;
      assert c in k[1..];
      GetMeaning(Systems, c);
      GetMeaning(SystemUrls, c);
    }
  }

  /** Each group list is one of the four, of 7, 2, 6 and 7 systems. */
  lemma GroupCases(g: Item)
    ensures GroupSystems(g) in [GroupSystems(Nintendo), GroupSystems(Sony), GroupSystems(Sega), GroupSystems(Others)]
    ensures |GroupSystems(Nintendo)| == 7 && |GroupSystems(Sony)| == 2
    ensures |GroupSystems(Sega)| == 6 && |GroupSystems(Others)| == 7
    ensures g !in {Nintendo, Sony, Sega} ==> GroupSystems(g) == GroupSystems(Others)
  {
  }

  /** The four group lists together list every system that has a URL, each once. */
  lemma GroupsPartitionUrls()
    ensures var all := GroupSystems(Nintendo) + GroupSystems(Sony) + GroupSystems(Sega) + GroupSystems(Others);
            multiset(all) == multiset(Keys(SystemUrls))
  {
    GroupsAreTableSlices();
    TablesAgree();
    SlicesPermute(Keys(Systems));
  }

  /** Moving the entry at 20 in front of the run 15..20 permutes entries 1..23. */
  lemma SlicesPermute(k: seq<string>)
    requires |k| == 23
    ensures multiset(k[1..8] + k[8..10] + (k[10..15] + [k[20]]) + (k[15..20] + k[21..])) == multiset(k[1..])
  {
    assert k[1..] == k[1..8] + k[8..10] + k[10..15] + k[15..20] + [k[20]] + k[21..];
  }

  /** Every URL is a directory: it ends with `/`, so `url + game` names a file inside it. */
  lemma UrlsAreDirectories()
    ensures forall i :: 0 <= i < |SystemUrls| ==> EndsWith(SystemUrls[i].1, "/")
  {
    forall i | 0 <= i < |SystemUrls| ensures EndsWith(SystemUrls[i].1, "/") {
      var (collection, name) := UrlDirectories[i];
      var u := collection + name;
      assert SystemUrls[i].1 == u + "/";
      assert (u + "/")[|u|..] == "/";
    }
  }

  /** `KEY_UP` and `KEY_DOWN` as curses numbers them. */
  const KeyUp: int := 259
  const KeyDown: int := 258

  /** What a key means to `main_menu` and `system_menu`, which test the same keys in the same order. */
  datatype MenuKey = QuitKey | UpKey | DownKey | SelectKey | IgnoredKey

  function Classify(key: int): (r: MenuKey)
    ensures r == QuitKey <==> key in {'q' as int, 'Q' as int, '0' as int}
    ensures r == UpKey <==> key in {KeyUp, 'k' as int}
    ensures r == DownKey <==> key in {KeyDown, 'j' as int}
    ensures r == SelectKey <==> key in {'\n' as int, ' ' as int}
  {
    if key == 'q' as int || key == 'Q' as int || key == '0' as int then QuitKey
    else if key == KeyUp || key == 'k' as int then UpKey
    else if key == KeyDown || key == 'j' as int then DownKey
    else if key == '\n' as int || key == ' ' as int then SelectKey
    else IgnoredKey
  }

  /** A key that makes a menu return. */
  predicate Ends(key: int)
  {
    Classify(key) == QuitKey || Classify(key) == SelectKey
  }

  /** How a menu loop ends: the highlighted entry is chosen, the menu is left, or it still waits for a key. */
  datatype MenuEnd = Chose(index: nat) | Left | Waiting

  /** A menu loop's end, and the number of keys it read. */
  datatype MenuRun = MenuRun(end: MenuEnd, used: nat)

  /** The same run, one key later. */
  function Later(r: MenuRun): MenuRun
  {
    r.(used := r.used + 1)
  }

  /**
   * The loop of a menu of `count` entries with entry `idx` highlighted,
   * reading `keys`: it returns on the first key that ends it, and waits when
   * there is none.
   */
  function RunMenu(count: nat, idx: nat, keys: seq<int>): (r: MenuRun)
    requires count > 0 && idx < count
    ensures r.end.Chose? ==> r.end.index < count
    ensures r.used <= |keys| && (r.end != Waiting ==> r.used >= 1)
    decreases |keys|
  {
    if keys == [] then MenuRun(Waiting, 0)
    else
      match Classify(keys[0])
      case QuitKey => MenuRun(Left, 1)
      case SelectKey => MenuRun(Chose(idx), 1)
      case UpKey => Later(RunMenu(count, Prev(idx, count), keys[1..]))
      case DownKey => Later(RunMenu(count, Next(idx, count), keys[1..]))
      case IgnoredKey => Later(RunMenu(count, idx, keys[1..]))
  }

  /**
   * A menu returns on the first key that ends it, quitting or choosing as
   * that key says, and waits, having read every key, when there is none.
   */
  lemma {:induction false} RunMenuMeaning(count: nat, idx: nat, keys: seq<int>)
    requires count > 0 && idx < count
    ensures var r := RunMenu(count, idx, keys);
            && (r.end == Waiting <==> forall k :: 0 <= k < |keys| ==> !Ends(keys[k]))
            && (r.end == Waiting ==> r.used == |keys|)
            && (r.end != Waiting ==> Classify(keys[r.used - 1]) == (if r.end == Left then QuitKey else SelectKey))
            && (forall k :: 0 <= k < r.used - 1 ==> !Ends(keys[k]))
    decreases |keys|
  {
    if keys != [] && !Ends(keys[0]) {
      var k := Classify(keys[0]);
      var next := if k == UpKey then Prev(idx, count) else if k == DownKey then Next(idx, count) else idx;
      RunMenuMeaning(count, next, keys[1..]);
      var r := RunMenu(count, idx, keys);
      assert r == Later(RunMenu(count, next, keys[1..]));
      forall j | 0 <= j < |keys| && Ends(keys[j]) ensures r.end != Waiting {
        assert keys[1..][j - 1] == keys[j];
      }
    }
  }

  /** How far a key moves the highlight: -1 up, +1 down, 0 otherwise. */
  function Shift(key: int): int
  {
    match Classify(key)
    case UpKey => -1
    case DownKey => 1
    case _ => 0
  }

  /** The total movement of a list of keys. */
  function Moves(keys: seq<int>): int
  {
    if keys == [] then 0 else Shift(keys[0]) + Moves(keys[1..])
  }

  /**
   * The entry chosen is the start moved by all the up and down keys before
   * the choosing key, modulo the number of entries.
   */
  lemma {:induction false} ChosenEntry(count: nat, idx: nat, keys: seq<int>)
    requires count > 0 && idx < count
    ensures var r := RunMenu(count, idx, keys);
            r.end.Chose? ==> r.end.index == (idx + Moves(keys[..r.used - 1])) % count
    decreases |keys|
  {
    var r := RunMenu(count, idx, keys);
    if keys != [] && r.end.Chose? {
      var k := Classify(keys[0]);
      if k == SelectKey {
        assert keys[..r.used - 1] == [];
      } else {
        var shift := Shift(keys[0]);
        var next := (idx + shift) % count;
        assert r == Later(RunMenu(count, next, keys[1..])) by {
          if k == UpKey {
            assert next == Prev(idx, count);
          } else if k == DownKey {
            assert next == Next(idx, count);
          } else {
            ModUnique(idx, 0, idx, count);
          }
        }
        ChosenEntry(count, next, keys[1..]);
        var before := keys[..r.used - 1];
        var m := Moves(keys[1..][..r.used - 2]);
        assert before[1..] == keys[1..][..r.used - 2];
        assert Moves(before) == shift + m;
        ModAdd(idx + shift, m, count);
      }
    }
  }

  /** A quit key or a choosing key as the first key ends the menu on that key; any other key is skipped over. */
  lemma FirstKey(count: nat, idx: nat, key: int, rest: seq<int>)
    requires count > 0 && idx < count
    ensures Classify(key) == QuitKey ==> RunMenu(count, idx, [key] + rest) == MenuRun(Left, 1)
    ensures Classify(key) == SelectKey ==> RunMenu(count, idx, [key] + rest) == MenuRun(Chose(idx), 1)
    ensures Classify(key) == IgnoredKey ==> RunMenu(count, idx, [key] + rest) == Later(RunMenu(count, idx, rest))
  {
    assert ([key] + rest)[1..] == rest;
  }

  /** The `while True` loop `main_menu` and `system_menu` share, over `count` entries and starting at the first. */
  method MenuLoop(count: nat, keys: seq<int>) returns (end: MenuEnd, used: nat)
    requires count > 0
    ensures MenuRun(end, used) == RunMenu(count, 0, keys)
  {
    var currentIdx: nat := 0;
    used := 0;
    while used < |keys|
      invariant used <= |keys| && currentIdx < count
      invariant RunMenu(count, 0, keys) == (var r := RunMenu(count, currentIdx, keys[used..]); r.(used := r.used + used))
      decreases |keys| - used
    {
      var key := keys[used];
      assert keys[used..][1..] == keys[used + 1..];
      match Classify(key) {
        case QuitKey =>
          return Left, used + 1;
        case SelectKey =>
          return Chose(currentIdx), used + 1;
        case UpKey =>
          currentIdx := Prev(currentIdx, count);
        case DownKey =>
          currentIdx := Next(currentIdx, count);
        case IgnoredKey =>
      }
      used := used + 1;
    }
    end := Waiting;
  }

  /** What `main_menu` returns when its loop ends: the chosen item's key, `'sair'` on a quit key. */
  function MainMenuChoice(r: MenuRun): Item
    requires r.end != Waiting && (r.end.Chose? ==> r.end.index < |MenuItems|)
  {
    if r.end.Chose? then MenuItems[r.end.index] else Quit
  }

  /** The answer of `main_menu` for a run of its loop; `None` while it still waits. */
  function MainMenuAnswer(r: MenuRun): Option<Item>
    requires r.end.Chose? ==> r.end.index < |MenuItems|
  {
    if r.end == Waiting then None else Some(MainMenuChoice(r))
  }

  /** `main_menu`: the answer and the number of keys read; `None` while it still waits. */
  method MainMenu(keys: seq<int>) returns (choice: Option<Item>, used: nat)
    ensures var r := RunMenu(|MenuItems|, 0, keys);
            choice == MainMenuAnswer(r) && used == r.used
  {
    var end;
    end, used := MenuLoop(|MenuItems|, keys);
    choice := MainMenuAnswer(MenuRun(end, used));
  }

  /** `main_menu` answers `'sair'` exactly on a quit key or on its last entry, and otherwise the key of the entry chosen. */
  lemma MainMenuAnswers(keys: seq<int>)
    ensures var r := RunMenu(|MenuItems|, 0, keys);
            var a := MainMenuAnswer(r);
            && (a.Some? ==> (ItemKey(a.value) == "sair" <==> r.end == Left || r.end == Chose(6)))
            && (r.end.Chose? ==> a == Some(MenuItems[r.end.index]))
  {
    MenuShape();
    var r := RunMenu(|MenuItems|, 0, keys);
    if r.end.Chose? && r.end.index != 6 {
      assert MenuItems[r.end.index] != Quit;
    }
  }

  /** `main_menu` still waits exactly when no key ends it. */
  lemma MainMenuWaits(keys: seq<int>)
    ensures MainMenuAnswer(RunMenu(|MenuItems|, 0, keys)).None? <==> forall k :: 0 <= k < |keys| ==> !Ends(keys[k])
  {
    RunMenuMeaning(|MenuItems|, 0, keys);
  }

  /** What `system_menu` returns: a system code, or `None` when left; or it still waits. */
  datatype Pick = Picked(code: string) | Back | StillWaiting

  /** The answer of `system_menu` for a run of its loop over `systems`. */
  function SystemMenuAnswer(systems: seq<string>, r: MenuRun): Pick
    requires r.end.Chose? ==> r.end.index < |systems|
  {
    match r.end
    case Chose(i) => Picked(systems[i])
    case Left => Back
    case Waiting => StillWaiting
  }

  /** `system_menu(group, title)`; the title only labels the screen. */
  method SystemMenu(group: Item, keys: seq<int>) returns (pick: Pick, used: nat)
    ensures var r := RunMenu(|GroupSystems(group)|, 0, keys);
            pick == SystemMenuAnswer(GroupSystems(group), r) && used == r.used
  {
    var systems := GroupSystems(group);
    var end;
    end, used := MenuLoop(|systems|, keys);
    pick := SystemMenuAnswer(systems, MenuRun(end, used));
  }

  /** A picked system is the highlighted one of the group's list, so `GroupsResolve` gives it a name and a URL. */
  lemma PickedInGroup(group: Item, keys: seq<int>)
    ensures var systems := GroupSystems(group);
            var r := RunMenu(|systems|, 0, keys);
            var p := SystemMenuAnswer(systems, r);
            p.Picked? ==> r.end.Chose? && p.code == systems[r.end.index] && p.code in systems
  {
  }

  /** The entries `system_menu` shows for a group: its position from 1 and the system's name from the table. */
  function SystemEntries(group: Item): (entries: seq<string>)
    ensures |entries| == |GroupSystems(group)|
    ensures forall i :: 0 <= i < |entries| ==>
              Get(Systems, GroupSystems(group)[i]).Some? &&
              entries[i] == Display.MenuEntry(i, Get(Systems, GroupSystems(group)[i]).value)
  {
    var systems := GroupSystems(group);
    GroupsResolve(group);
    assert forall i :: 0 <= i < |systems| ==> systems[i] in systems;
    seq(|systems|, i requires 0 <= i < |systems| => Display.MenuEntry(i, SystemName(systems[i], systems[i])))
  }


  /** The answers of `audio_config`. */
  datatype AudioChoice = TurnOn | TurnOff | Leave

  /** The keys `audio_config` acts on: `1`, `2`, and `0` or `q` (but not `Q`). */
  function AudioKey(key: int): (r: Option<AudioChoice>)
    ensures r == Some(TurnOn) <==> key == '1' as int
    ensures r == Some(TurnOff) <==> key == '2' as int
    ensures r == Some(Leave) <==> key in {'0' as int, 'q' as int}
    ensures r == Some(Leave) ==> Classify(key) == QuitKey
    ensures key == 'Q' as int ==> r.None?
  {
    if key == '1' as int then Some(TurnOn)
    else if key == '2' as int then Some(TurnOff)
    else if key == '0' as int || key == 'q' as int then Some(Leave)
    else None
  }

  /** An answer of `audio_config` and the number of keys it read. */
  datatype AudioRun = AudioRun(choice: Option<AudioChoice>, used: nat)

  /** The loop of `audio_config`: it returns on the first key it acts on. */
  function RunAudio(keys: seq<int>): (r: AudioRun)
    ensures r.used <= |keys|
  {
    if keys == [] then AudioRun(None, 0)
    else if AudioKey(keys[0]).Some? then AudioRun(AudioKey(keys[0]), 1)
    else var rest := RunAudio(keys[1..]); rest.(used := rest.used + 1)
  }

  /** The answer is the action of the first key that has one; without one every key is read and nothing is chosen. */
  lemma {:induction false} RunAudioMeaning(keys: seq<int>)
    ensures var r := RunAudio(keys);
            && (r.choice.None? <==> forall k :: 0 <= k < |keys| ==> AudioKey(keys[k]).None?)
            && (r.choice.None? ==> r.used == |keys|)
            && (r.choice.Some? ==> r.used >= 1 && AudioKey(keys[r.used - 1]) == r.choice)
            && (forall k :: 0 <= k < r.used - 1 ==> AudioKey(keys[k]).None?)
  {
    if keys != [] && AudioKey(keys[0]).None? {
      RunAudioMeaning(keys[1..]);
      var r := RunAudio(keys);
      forall k | 0 <= k < |keys| && AudioKey(keys[k]).Some? ensures r.choice.Some? {
        assert keys[1..][k - 1] == keys[k];
      }
    }
  }

  /** A change `audio_config` makes outside the screen. */
  datatype ConfigEffect =
    | WroteConfig(text: string)           // the whole content written to the config file
    | SetEnvironment(value: string)       // os.environ['AUDIO_ENABLED']
    | StoppedMusic                        // pkill of the background music player

  /** The effects of an answer of `audio_config`. */
  function AudioEffects(choice: AudioChoice): seq<ConfigEffect>
  {
    match choice
    case TurnOn => [WroteConfig("AUDIO_ENABLED=1\n"), SetEnvironment("1")]
    case TurnOff => [WroteConfig("AUDIO_ENABLED=0\n"), SetEnvironment("0"), StoppedMusic]
    case Leave => []
  }

  /** The effects of `audio_config`, nothing while it still waits. */
  function AudioRunEffects(r: AudioRun): seq<ConfigEffect>
  {
    if r.choice.Some? then AudioEffects(r.choice.value) else []
  }

  /** `audio_config`: waits for the first key it acts on; returns its answer, the keys read and the effects. */
  method AudioConfig(keys: seq<int>) returns (choice: Option<AudioChoice>, used: nat, effects: seq<ConfigEffect>)
    ensures AudioRun(choice, used) == RunAudio(keys)
    ensures effects == AudioRunEffects(RunAudio(keys))
  {
    used := 0;
    while used < |keys|
      invariant used <= |keys|
      invariant RunAudio(keys) == (var r := RunAudio(keys[used..]); r.(used := r.used + used))
      decreases |keys| - used
    {
      var key := keys[used];
      assert keys[used..][1..] == keys[used + 1..];
      if AudioKey(key).Some? {
        choice := AudioKey(key);
        effects := AudioEffects(choice.value);
        return choice, used + 1, effects;
      }
      used := used + 1;
    }
    choice, effects := None, [];
  }

  /** The config text enables audio exactly for `1`, the music is stopped only after `2`, and leaving changes nothing. */
  lemma AudioEffectsMeaning(choice: AudioChoice)
    ensures WroteConfig("AUDIO_ENABLED=1\n") in AudioEffects(choice) <==> choice == TurnOn
    ensures WroteConfig("AUDIO_ENABLED=0\n") in AudioEffects(choice) <==> choice == TurnOff
    ensures StoppedMusic in AudioEffects(choice) <==> choice == TurnOff
    ensures choice == Leave <==> AudioEffects(choice) == []
  {
  }

  /** A screen `main` opens after an answer of the main menu. */
  datatype Visit =
    | SystemVisit(group: Item, pick: Pick)    // its title is `GroupTitle(group)`, drawn only
    | AudioVisit(choice: Option<AudioChoice>, effects: seq<ConfigEffect>)
    | Translated                          // 'ptbr': nothing is done yet

  /** The screens a session opened, and whether it ended on `'sair'` (otherwise a screen still waits for a key). */
  datatype Session = Session(visits: seq<Visit>, exited: bool)

  /** The system menu's title, `SYSTEMS.get(choice, '')` of the key of a main-menu entry. */
  function GroupTitle(choice: Item): string
  {
    SystemName(ItemKey(choice), "")
  }

  /** No main-menu key is a system code, so every system menu opens with an empty title. */
  lemma GroupTitlesEmpty()
    ensures forall item :: GroupTitle(item) == ""
  {
    var k := SystemCodes;
    assert forall j :: 0 <= j < |k| ==> 'A' <= k[j][0] <= 'Z';
    forall item ensures GroupTitle(item) == "" {
      assert 'a' <= ItemKey(item)[0] <= 'z';
      GetMeaning(Systems, ItemKey(item));
    }
  }

  /** One round of `main`'s loop: the screens it opened, the keys it read, and whether the session ends in it. */
  datatype Round = Round(shown: seq<Visit>, used: nat, done: bool, exited: bool)

  /**
   * The `if` of `main` on the main menu's answer `c`: `'sair'` ends the
   * session, `'audio'` opens the audio screen, `'ptbr'` does nothing, and any
   * other answer opens the system menu of that group.
   */
  function OpenScreen(c: Item, keys: seq<int>): (r: Round)
    ensures r.used <= |keys| && |r.shown| <= 1
  {
    if c == Quit then Round([], 0, true, true)
    else if c == AudioSetup then
      var a := RunAudio(keys);
      Round([AudioVisit(a.choice, AudioRunEffects(a))], a.used, false, false)
    else if c == PtBr then Round([Translated], 0, false, false)
    else
      var p := RunMenu(|GroupSystems(c)|, 0, keys);
      Round([SystemVisit(c, SystemMenuAnswer(GroupSystems(c), p))], p.used, p.end == Waiting, false)
  }

  /** The main menu and the screen its answer opens. */
  function MainRound(keys: seq<int>): (r: Round)
    ensures r.used <= |keys| && (!r.done ==> r.used >= 1)
    ensures |r.shown| <= 1 && (r.shown != [] ==> r.used >= 1)
  {
    var m := RunMenu(|MenuItems|, 0, keys);
    if m.end == Waiting then Round([], m.used, true, false)
    else
      var o := OpenScreen(MainMenuChoice(m), keys[m.used..]);
      o.(used := m.used + o.used)
  }

  /** The loop of `main` over `keys`: rounds until `'sair'`, or until a screen still waits for a key. */
  function RunSession(keys: seq<int>): (s: Session)
    ensures |s.visits| <= |keys|
    decreases |keys|
  {
    var r := MainRound(keys);
    if r.done then Session(r.shown, r.exited)
    else After(r.shown, RunSession(keys[r.used..]))
  }

  /** `main`: the screens opened while reading `keys`. */
  method RunStore(keys: seq<int>) returns (visits: seq<Visit>, exited: bool)
    ensures Session(visits, exited) == RunSession(keys)
  {
    visits := [];
    ghost var session := RunSession(keys);
    var left := keys;
    while true
      invariant session == After(visits, RunSession(left))
      decreases |left|
    {
      var shown, used, done;
      shown, used, done, exited := PlayRound(left);
      SessionStep(left, visits, Round(shown, used, done, exited), session);
      visits := visits + shown;
      if done {
        return;
      }
      left := left[used..];
    }
  }

  /** After a round of `main`'s loop, the session is the screens so far and the session on the keys left. */
  lemma SessionStep(left: seq<int>, visits: seq<Visit>, r: Round, session: Session)
    requires r == MainRound(left) && session == After(visits, RunSession(left))
    ensures r.done ==> session == Session(visits + r.shown, r.exited)
    ensures !r.done ==> 0 < r.used <= |left| && session == After(visits + r.shown, RunSession(left[r.used..]))
  {
    if !r.done {
      AfterAfter(visits, r.shown, RunSession(left[r.used..]));
    }
  }

  /** One round of `main`'s loop. */
  method PlayRound(keys: seq<int>) returns (shown: seq<Visit>, used: nat, done: bool, exited: bool)
    ensures Round(shown, used, done, exited) == MainRound(keys)
  {
    var choice;
    choice, used := MainMenu(keys);
    if choice.None? {
      return [], used, true, false;
    }
    var n;
    shown, n, done, exited := Open(choice.value, keys[used..]);
    used := used + n;
  }

  /** The `if` of `main` on the main menu's answer `c`, reading `keys`. */
  method Open(c: Item, keys: seq<int>) returns (shown: seq<Visit>, used: nat, done: bool, exited: bool)
    ensures Round(shown, used, done, exited) == OpenScreen(c, keys)
  {
    shown, used, done, exited := [], 0, false, false;
    if c == Quit {
      done, exited := true, true;
    } else if c == AudioSetup {
      var answer, effects;
      answer, used, effects := AudioConfig(keys);
      shown := [AudioVisit(answer, effects)];
    } else if c == PtBr {
      shown := [Translated];
    } else {
      var pick;
      pick, used := SystemMenu(c, keys);
      shown := [SystemVisit(c, pick)];
      done := pick == StillWaiting;
    }
  }

  /** The session that continues after the screens `visits`. */
  function After(visits: seq<Visit>, s: Session): Session
  {
    s.(visits := visits + s.visits)
  }

  lemma AfterAfter(a: seq<Visit>, b: seq<Visit>, s: Session)
    ensures After(a, After(b, s)) == After(a + b, s)
  {
    assert a + (b + s.visits) == (a + b) + s.visits;
  }


  /**
   * Every screen a session opens is one the source can reach: a system menu
   * of one of the four groups whose pick is one of that group's systems; the
   * audio screen with the effects of its answer.
   */
  lemma {:induction false} SessionVisits(keys: seq<int>)
    ensures forall v :: v in RunSession(keys).visits ==> Reachable(v)
    decreases |keys|
  {
    var r := MainRound(keys);
    RoundVisits(keys);
    if !r.done {
      SessionVisits(keys[r.used..]);
    }
  }

  /** The screens of one round are ones the source can reach. */
  lemma RoundVisits(keys: seq<int>)
    ensures forall v :: v in MainRound(keys).shown ==> Reachable(v)
  {
    var m := RunMenu(|MenuItems|, 0, keys);
    if m.end != Waiting {
      MainMenuAnswers(keys);
      var c := MainMenuChoice(m);
      var rest := keys[m.used..];
      if c !in {Quit, AudioSetup, PtBr} {
        PickedInGroup(c, rest);
      }
    }
  }

  /** A screen the source can open from its main menu. */
  predicate Reachable(v: Visit)
  {
    match v
    case SystemVisit(g, p) =>
      g in {Nintendo, Sony, Sega, Others} && (p.Picked? ==> p.code in GroupSystems(g))
    case AudioVisit(a, e) => e == AudioRunEffects(AudioRun(a, 0))
    case Translated => true
  }

  /** The session ends at once on a quit key, and a key the main menu ignores changes nothing. */
  lemma SessionFirstKey(key: int, rest: seq<int>)
    ensures Classify(key) == QuitKey ==> RunSession([key] + rest) == Session([], true)
    ensures Classify(key) == IgnoredKey ==> RunSession([key] + rest) == RunSession(rest)
  {
    var keys := [key] + rest;
    if Classify(key) == IgnoredKey {
      RoundSkipsIgnored(key, rest);
      var r := MainRound(rest);
      if !r.done {
        assert keys[r.used + 1..] == rest[r.used..];
      }
    } else if Classify(key) == QuitKey {
      FirstKey(|MenuItems|, 0, key, rest);
      assert MainRound(keys) == Round([], 1, true, true);
    }
  }

  /** A key the main menu ignores only adds one to the keys a round reads. */
  lemma RoundSkipsIgnored(key: int, rest: seq<int>)
    requires Classify(key) == IgnoredKey
    ensures MainRound([key] + rest) == MainRound(rest).(used := MainRound(rest).used + 1)
  {
    var keys := [key] + rest;
    FirstKey(|MenuItems|, 0, key, rest);
    var m := RunMenu(|MenuItems|, 0, rest);
    if m.end != Waiting {
      assert keys[m.used + 1..] == rest[m.used..];
    }
  }
}
