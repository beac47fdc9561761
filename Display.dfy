/**
 * The text the two front ends show for names: main.py shortens system names
 * on the cards of its main menu and game names in its list, and composes the
 * status of a running download; store_gui.py numbers the entries of a
 * system menu.
 */
module Display {
  import opened Text

  /** `name if len(name) <= limit else name[:limit - 3] + "..."`. */
  function Shorten(name: string, limit: nat): (r: string)
    requires limit >= 3
    ensures |r| == if |name| <= limit then |name| else limit
    ensures |name| <= limit ==> r == name
    ensures |name| > limit ==> r[..limit - 3] == name[..limit - 3] && r[limit - 3..] == "..."
  {
    if |name| > limit then name[..limit - 3] + "..." else name
  }

  /** The name on a system card of main.py's main menu: at most 18 characters. */
  function CardName(name: string): (r: string)
    ensures |r| <= 18
  {
    Shorten(name, 18)
  }

  /** A game name in main.py's game list: at most 50 characters. */
  function GameLine(game: string): (r: string)
    ensures |r| <= 50
  {
    Shorten(game, 50)
  }

  /** Shortening a shortened name changes nothing, and it keeps everything but the last three shown characters. */
  lemma ShortenIdempotent(name: string, limit: nat)
    requires limit >= 3
    ensures Shorten(Shorten(name, limit), limit) == Shorten(name, limit)
    ensures StartsWith(name, Shorten(name, limit)) || StartsWith(name, Shorten(name, limit)[..limit - 3])
  {
  }

  /** `f"Baixando {game[:30]}..."`, the status main.py shows while a game downloads. */
  function DownloadStatus(game: string): (r: string)
    ensures |r| <= 9 + 30 + 3
    ensures StartsWith(r, "Baixando ") && EndsWith(r, "...")
  {
    "Baixando " + Prefix(game, 30) + "..."
  }

  /** The status names the game itself when its name has at most 30 characters. */
  lemma DownloadStatusNamesGame(game: string)
    ensures |game| <= 30 ==> DownloadStatus(game)[9..|DownloadStatus(game)| - 3] == game
    ensures |game| > 30 ==> DownloadStatus(game)[9..|DownloadStatus(game)| - 3] == game[..30]
  {
    var r := DownloadStatus(game);
    assert r[9..|r| - 3] == Prefix(game, 30);
  }

  /** `f'[{i+1}] {sys_name[:34]}'`, an entry of store_gui.py's system menu. */
  function MenuEntry(i: nat, name: string): (r: string)
    ensures |r| >= 4 && r[0] == '['
  {
    "[" + DecimalString(i + 1) + "] " + Prefix(name, 34)
  }

  /**
   * An entry starts with its 1-based position in brackets, which reads back
   * as `i + 1`, and shows at most 34 characters of the name, a prefix of it.
   */
  lemma MenuEntryParts(i: nat, name: string)
    ensures var r := MenuEntry(i, name);
            var d := DecimalString(i + 1);
            && r[1..1 + |d|] == d && AllDigits(d) && DecimalValue(d) == i + 1
            && r[1 + |d|..3 + |d|] == "] "
            && |r[3 + |d|..]| <= 34 && StartsWith(name, r[3 + |d|..])
  {
    var r := MenuEntry(i, name);
    var d := DecimalString(i + 1);
    assert r[1..1 + |d|] == d;
    assert r[1 + |d|..3 + |d|] == "] ";
    assert r[3 + |d|..] == Prefix(name, 34);
    DecimalRoundTrip(i + 1);
  }
}
