/**
 * Catalog listing: the archive names that `re.findall(r'title="([^"]+\.zip)"', page)`
 * extracts from a directory-listing page, and the two `list_games` variants
 * built on it (downloader.py de-duplicates, main.py keeps repeats).
 *
 * The regular expression means: at an occurrence of `title="`, the text up
 * to the next `"` is captured when it is at least five characters long and
 * ends in `.zip` (the class `[^"]` cannot cross a quote, so the closing quote
 * of the pattern is the first quote after the opening). `findall` tries every
 * position from left to right and resumes after the end of each match.
 */
module Catalog {
  import opened Wrappers
  import opened Text
  import opened Sorting

  const Opening: string := "title=\""
  const Extension: string := ".zip"

  /** A string the group `([^"]+\.zip)` can capture. */
  predicate ArchiveName(n: string)
  {
    |n| >= 5 && EndsWith(n, Extension) && '"' !in n
  }

  /** `title="` followed by `n` and a closing `"` starts at position `i` of `s`. */
  predicate QuotedAt(s: string, i: nat, n: string)
  {
    && i + |Opening| + |n| + 1 <= |s|
    && s[i..i + |Opening|] == Opening
    && s[i + |Opening|..i + |Opening| + |n|] == n
    && s[i + |Opening| + |n|] == '"'
  }

  /** `n` is an archive name that appears in `page` between `title="` and `"`. */
  ghost predicate Listed(page: string, n: string)
  {
    ArchiveName(n) && exists i :: QuotedAt(page, i, n)
  }

  /** Index of the first `"` in `t`. */
  function QuoteIndex(t: string): (r: Option<nat>)
    ensures r.Some? ==> r.value < |t| && t[r.value] == '"' && '"' !in t[..r.value]
    ensures r.None? ==> '"' !in t
  {
    if t == [] then None
    else if t[0] == '"' then Some(0)
    else match QuoteIndex(t[1..])
      case None => None
      case Some(q) =>
        assert t[..q + 1] == [t[0]] + t[1..][..q];
        Some(q + 1)
  }

  /** What the group captures when the pattern is tried with its `title="` ending just before `start`. */
  function CaptureAt(s: string, start: nat): (r: Option<string>)
    requires start <= |s|
    ensures r.Some? ==> ArchiveName(r.value) && start + |r.value| < |s|
    ensures r.Some? ==> s[start..start + |r.value|] == r.value && s[start + |r.value|] == '"'
  {
    match QuoteIndex(s[start..])
    case None => None
    case Some(q) =>
      var text := s[start..start + q];
      assert text == s[start..][..q];
      if |text| >= 5 && EndsWith(text, Extension) then Some(text) else None
  }

  /** The capture when the whole pattern is tried at position `i`, if it matches there. */
  function MatchAt(s: string, i: nat): (r: Option<string>)
    requires i <= |s|
    ensures r.Some? ==> ArchiveName(r.value) && QuotedAt(s, i, r.value)
  {
    if |s| - i >= |Opening| && s[i..i + |Opening|] == Opening then CaptureAt(s, i + |Opening|) else None
  }

  /** `findall` from position `i` on. */
  function ScanFrom(s: string, i: nat): (r: seq<string>)
    requires i <= |s|
    ensures forall n :: n in r ==> ArchiveName(n)
    decreases |s| - i
  {
    if i == |s| then []
    else match MatchAt(s, i)
      case Some(n) => [n] + ScanFrom(s, i + |Opening| + |n| + 1)
      case None => ScanFrom(s, i + 1)
  }

  /** Everything the scan from `i` returns is an archive name quoted at or after `i`. */
  lemma {:induction false} ScanSound(s: string, i: nat, n: string)
    requires i <= |s|
    requires n in ScanFrom(s, i)
    ensures ArchiveName(n) && exists j :: i <= j && QuotedAt(s, j, n)
    decreases |s| - i
  {
    match MatchAt(s, i)
    case Some(m) =>
      if n != m {
        ScanSound(s, i + |Opening| + |m| + 1, n);
      }
    case None =>
      ScanSound(s, i + 1, n);
  }


  /** At an occurrence of `title="` + n + `"` with n an archive name, the capture is `n`. */
  lemma CaptureIsName(s: string, j: nat, n: string)
    requires ArchiveName(n) && QuotedAt(s, j, n)
    ensures CaptureAt(s, j + |Opening|) == Some(n)
  {
    var t := s[j + |Opening|..];
    assert t[..|n|] == n;
    assert t[|n|] == '"';
    assert forall k :: 0 <= k < |n| ==> t[k] == n[k];
    assert forall q :: |n| < q <= |t| ==> t[..q][|n|] == '"';
  }

  /** The scan from an occurrence of a quoted archive name returns that name first. */
  lemma ScanStartsWith(s: string, j: nat, n: string)
    requires ArchiveName(n) && QuotedAt(s, j, n)
    ensures n in ScanFrom(s, j)
  {
    CaptureIsName(s, j, n);
    assert MatchAt(s, j) == Some(n);
  }

  /**
   * A match of the pattern cannot contain the start of another occurrence of
   * `title="`: its text has no quote and ends in `.zip"`.
   */
  lemma NoOverlap(s: string, p: nat, m: string, j: nat, n: string)
    requires ArchiveName(m) && QuotedAt(s, p, m)
    requires QuotedAt(s, j, n)
    requires p < j
    ensures p + |Opening| + |m| + 1 <= j
  {
    var e := p + |Opening| + |m|;
    assert s[j] == 't' && s[j + 1] == 'i' && s[j + 5] == '=' && s[j + 6] == '"' by {
      assert s[j..j + |Opening|] == Opening;
    }
    assert s[e - 4] == '.' && s[e - 3] == 'z' && s[e - 2] == 'i' && s[e - 1] == 'p' && s[e] == '"' by {
      assert m[|m| - 4..] == Extension;
      assert s[p + |Opening|..e] == m;
      assert forall k :: e - 4 <= k < e ==> s[k] == m[k - p - |Opening|];
    }
    assert forall k :: p + |Opening| <= k < e ==> s[k] != '"' by {
      assert s[p + |Opening|..e] == m;
      assert forall k :: p + |Opening| <= k < e ==> s[k] == m[k - p - |Opening|];
    }
  }

  /** Where the scan resumes after trying the pattern at `i`. */
  function Resume(s: string, i: nat): (k: nat)
    requires i < |s|
    ensures i < k <= |s|
  {
    match MatchAt(s, i)
    case Some(m) => i + |Opening| + |m| + 1
    case None => i + 1
  }

  /** What the scan finds after resuming, the scan from `i` finds too. */
  lemma ScanResumes(s: string, i: nat, n: string)
    requires i < |s| && n in ScanFrom(s, Resume(s, i))
    ensures n in ScanFrom(s, i)
  {
    match MatchAt(s, i)
    case Some(m) =>
      assert ScanFrom(s, i) == [m] + ScanFrom(s, Resume(s, i));
    case None =>
      assert ScanFrom(s, i) == ScanFrom(s, Resume(s, i));
  }

  /** The scan never resumes past an occurrence of a quoted archive name. */
  lemma ResumeNotPast(s: string, i: nat, j: nat, n: string)
    requires i < j && ArchiveName(n) && QuotedAt(s, j, n)
    ensures i < |s| && Resume(s, i) <= j
  {
    match MatchAt(s, i)
    case Some(m) =>
      NoOverlap(s, i, m, j, n);
    case None =>
  }

  /** Every occurrence at or after position `i` is found by the scan from `i`. */
  lemma {:induction false} ScanComplete(s: string, i: nat, j: nat, n: string)
    requires i <= j && ArchiveName(n) && QuotedAt(s, j, n)
    ensures n in ScanFrom(s, i)
    decreases |s| - i
  {
    if i == j {
      ScanStartsWith(s, j, n);
    } else {
      ResumeNotPast(s, i, j, n);
      ScanComplete(s, Resume(s, i), j, n);
      ScanResumes(s, i, n);
    }
  }

  /** The scan of the whole page returns exactly the archive names quoted in a `title` attribute. */
  lemma FindAllExactly(page: string, n: string)
    ensures n in ScanFrom(page, 0) <==> Listed(page, n)
  {
    if Listed(page, n) {
      var j :| QuotedAt(page, j, n);
      ScanComplete(page, 0, j, n);
    }
    if n in ScanFrom(page, 0) {
      ScanSound(page, 0, n);
    }
  }

  /**
   * The captures of the pattern tried at every position from `i` on, in
   * position order, without skipping the text of a match.
   */
  function Captures(s: string, i: nat): seq<string>
    requires i <= |s|
    decreases |s| - i
  {
    if i == |s| then []
    else (if MatchAt(s, i).Some? then [MatchAt(s, i).value] else []) + Captures(s, i + 1)
  }

  /** No position inside a match starts another one, so trying them adds nothing. */
  lemma {:induction false} SkippedHaveNoMatch(s: string, p: nat, m: string, k: nat)
    requires ArchiveName(m) && QuotedAt(s, p, m)
    requires p < k <= p + |Opening| + |m| + 1
    ensures Captures(s, k) == Captures(s, p + |Opening| + |m| + 1)
    decreases p + |Opening| + |m| + 1 - k
  {
    if k < p + |Opening| + |m| + 1 {
      if MatchAt(s, k).Some? {
        NoOverlap(s, p, m, k, MatchAt(s, k).value);
        assert false;
      }
      assert Captures(s, k) == Captures(s, k + 1);
      SkippedHaveNoMatch(s, p, m, k + 1);
    }
  }

  /**
   * Resuming after each match loses nothing: the scan returns one capture per
   * occurrence of a quoted archive name, in page order.
   */
  lemma {:induction false} ScanIsCaptures(s: string, i: nat)
    requires i <= |s|
    ensures ScanFrom(s, i) == Captures(s, i)
    decreases |s| - i
  {
    if i < |s| {
      if MatchAt(s, i).Some? {
        var m := MatchAt(s, i).value;
        var e := i + |Opening| + |m| + 1;
        assert ScanFrom(s, i) == [m] + ScanFrom(s, e);
        assert Captures(s, i) == [m] + Captures(s, i + 1);
        SkippedHaveNoMatch(s, i, m, i + 1);
        ScanIsCaptures(s, e);
      } else {
        assert ScanFrom(s, i) == ScanFrom(s, i + 1);
        assert Captures(s, i) == Captures(s, i + 1);
        ScanIsCaptures(s, i + 1);
      }
    }
  }

  /** `re.findall(r'title="([^"]+\.zip)"', page)`: the archive names quoted in a `title` attribute, in page order. */
  function FindAll(page: string): (r: seq<string>)
    ensures forall n :: n in r <==> Listed(page, n)
    ensures r == Captures(page, 0)
  {
    forall n ensures n in ScanFrom(page, 0) <==> Listed(page, n) {
      FindAllExactly(page, n);
    }
    ScanIsCaptures(page, 0);
    ScanFrom(page, 0)
  }

  /** The outcome of `curl -s url` run with a 15-second timeout. */
  datatype Fetch =
    | Fetched(stdout: string)  // the process ran; curl's own failures leave stdout empty or partial
    | FetchFailed              // an exception: timeout, curl missing, undecodable output

  /** downloader.py `list_games`: `sorted(list(set(games)))`, or `[]` on an exception. */
  function ListGames(response: Fetch): (r: seq<string>)
    ensures StrictlyAscending(r)
    ensures forall n :: n in r <==> response.Fetched? && Listed(response.stdout, n)
  {
    match response
    case FetchFailed => []
    case Fetched(page) =>
      var r := SortUnique(FindAll(page));
      assert forall n :: n in r <==> n in Elements(r);
      assert forall n :: n in FindAll(page) <==> n in Elements(FindAll(page));
      r
  }

  /** main.py `list_games`: `sorted(games)`, repeats kept, or `[]` on an exception. */
  function ListGamesKeepingRepeats(response: Fetch): (r: seq<string>)
    ensures Ascending(r)
    ensures response.FetchFailed? ==> r == []
    ensures response.Fetched? ==> multiset(r) == multiset(FindAll(response.stdout))
    ensures forall n :: n in r <==> response.Fetched? && Listed(response.stdout, n)
  {
    match response
    case FetchFailed => []
    case Fetched(page) =>
      var r := Sort(FindAll(page));
      assert forall n :: n in r <==> n in multiset(r);
      assert forall n :: n in FindAll(page) <==> n in multiset(FindAll(page));
      r
  }

  /** The two listings hold the same names; downloader.py's has each once. */
  lemma ListingsAgree(response: Fetch)
    ensures Elements(ListGames(response)) == Elements(ListGamesKeepingRepeats(response))
    ensures |ListGames(response)| <= |ListGamesKeepingRepeats(response)|
  {
    var u, r := ListGames(response), ListGamesKeepingRepeats(response);
    assert Elements(u) == Elements(r);
    StrictlyAscendingDistinct(u);
    ElementsBound(r);
  }

  lemma {:induction false} ElementsBound(s: seq<string>)
    ensures |Elements(s)| <= |s|
  {
    if s != [] {
      ElementsBound(s[1..]);
      assert Elements(s) == {s[0]} + Elements(s[1..]) by {
        assert s == [s[0]] + s[1..];
      }
    }
  }
}
