/**
 * Progress-line parsing: `re.search(r'(\d+)%', line)` and `int(match.group(1))`,
 * applied to every line the transfer tool writes on its standard error, and
 * the status text `f"Baixando... {percent}%"` built from the result.
 */
module Progress {
  import opened Wrappers
  import opened Text

  /** End of the maximal run of digits that starts at `i` (`i` itself when `s[i]` is not a digit). */
  function RunEnd(s: string, i: nat): (j: nat)
    requires i <= |s|
    ensures i <= j <= |s|
    ensures forall k :: i <= k < j ==> IsDigit(s[k])
    ensures j == |s| || !IsDigit(s[j])
    decreases |s| - i
  {
    if i < |s| && IsDigit(s[i]) then RunEnd(s, i + 1) else i
  }

  /** The pattern `(\d+)%` matches at `i`: the greedy digit run from `i` is non-empty and followed by `%`. */
  predicate MatchesAt(s: string, i: nat)
    requires i <= |s|
  {
    var j := RunEnd(s, i);
    i < j < |s| && s[j] == '%'
  }

  /** `s[i..j]` is a non-empty run of digits immediately followed by `%`. */
  predicate PercentAt(s: string, i: int, j: int)
  {
    0 <= i < j < |s| && (forall k :: i <= k < j ==> IsDigit(s[k])) && s[j] == '%'
  }

  /** `s[i..j]` is the leftmost digit run immediately followed by `%`. */
  ghost predicate FirstPercent(s: string, i: int, j: int)
  {
    PercentAt(s, i, j) && forall a, b :: PercentAt(s, a, b) ==> i <= a
  }

  /** The leftmost position at or after `i` where the pattern matches. */
  function SearchFrom(s: string, i: nat): (r: Option<nat>)
    requires i <= |s|
    ensures r.Some? ==> i <= r.value < |s| && MatchesAt(s, r.value)
    ensures r.Some? ==> forall k :: i <= k < r.value ==> !MatchesAt(s, k)
    ensures r.None? ==> forall k :: i <= k <= |s| ==> !MatchesAt(s, k)
    decreases |s| - i
  {
    if i == |s| then None
    else if MatchesAt(s, i) then Some(i)
    else SearchFrom(s, i + 1)
  }

  /** `re.search(r'(\d+)%', line)` then `int(match.group(1))`; `None` when there is no match. */
  function ParsePercent(line: string): (r: Option<nat>)
    ensures r.Some? ==> exists i, j :: PercentAt(line, i, j) && r.value == DecimalValue(line[i..j])
  {
    match SearchFrom(line, 0)
    case None => None
    case Some(i) =>
      assert PercentAt(line, i, RunEnd(line, i));
      Some(DecimalValue(line[i..RunEnd(line, i)]))
  }

  /** A digit run followed by `%` is exactly the greedy run from its start. */
  lemma PercentAtIsGreedy(s: string, i: nat, j: int)
    requires i <= |s|
    ensures PercentAt(s, i, j) <==> MatchesAt(s, i) && j == RunEnd(s, i)
  {
    var e := RunEnd(s, i);
    if PercentAt(s, i, j) {
      assert !IsDigit(s[j]);
      assert e <= j;
    }
  }

  /**
   * A line yields a percentage iff it holds a digit run immediately followed
   * by `%`, and the percentage is the value of the leftmost such run.
   */
  lemma ParsePercentMeaning(line: string, v: nat)
    ensures ParsePercent(line).None? <==> forall i, j :: !PercentAt(line, i, j)
    ensures ParsePercent(line) == Some(v) <==>
              exists i, j :: FirstPercent(line, i, j) && v == DecimalValue(line[i..j])
  {
    var r := SearchFrom(line, 0);
    forall i, j | PercentAt(line, i, j)
      ensures r.Some? && r.value <= i && FirstPercent(line, r.value, RunEnd(line, r.value))
    {
      PercentAtIsGreedy(line, i, j);
      var f := r.value;
      PercentAtIsGreedy(line, f, RunEnd(line, f));
      forall a, b | PercentAt(line, a, b) ensures f <= a {
        PercentAtIsGreedy(line, a, b);
      }
    }
    if r.Some? {
      var f := r.value;
      PercentAtIsGreedy(line, f, RunEnd(line, f));
      assert PercentAt(line, f, RunEnd(line, f));
      forall i, j | FirstPercent(line, i, j) ensures i == f && j == RunEnd(line, f) {
        PercentAtIsGreedy(line, i, j);
      }
    }
  }

  /** The leftmost run followed by `%` is maximal: no digit precedes it. */
  lemma FirstPercentIsMaximal(s: string, i: int, j: int)
    requires FirstPercent(s, i, j)
    ensures i == 0 || !IsDigit(s[i - 1])
  {
    if i > 0 {
      assert IsDigit(s[i - 1]) ==> PercentAt(s, i - 1, j);
    }
  }

  /** The percentages of the lines that carry one, in line order. */
  function Percents(lines: seq<string>): (ps: seq<nat>)
    ensures |ps| <= |lines|
  {
    if lines == [] then []
    else
      Percents(lines[..|lines| - 1]) +
      match ParsePercent(lines[|lines| - 1])
      case Some(p) => [p]
      case None => []
  }

  /** Taking one more line adds its percentage, if it carries one. */
  lemma PercentsStep(lines: seq<string>, i: nat)
    requires i < |lines|
    ensures Percents(lines[..i + 1]) ==
              Percents(lines[..i]) + (if ParsePercent(lines[i]).Some? then [ParsePercent(lines[i]).value] else [])
    ensures ParsePercent("").None?
  {
    assert lines[..i + 1][..i] == lines[..i];
  }

  /** One percentage per matching line, in order: parsing distributes over concatenation. */
  lemma {:induction false} PercentsConcat(a: seq<string>, b: seq<string>)
    ensures Percents(a + b) == Percents(a) + Percents(b)
    decreases |b|
  {
    if b == [] {
      assert a + b == a;
    } else {
      var b' := b[..|b| - 1];
      assert (a + b)[..|a + b| - 1] == a + b';
      PercentsConcat(a, b');
    }
  }

  /** `f"Baixando... {percent}%"`: the digits before the closing `%` read back as the percentage. */
  function DownloadingStatus(p: nat): (s: string)
    ensures 12 < |s| && s[|s| - 1] == '%' && DecimalValue(s[12..|s| - 1]) == p
  {
    var s := "Baixando... " + DecimalString(p) + "%";
    assert s[12..|s| - 1] == DecimalString(p);
    DecimalRoundTrip(p);
    s
  }

  /** The status text of a progress event parses back to its own percentage. */
  lemma StatusRoundTrip(p: nat)
    ensures ParsePercent(DownloadingStatus(p)) == Some(p)
  {
    var digits := DecimalString(p);
    var s := DownloadingStatus(p);
    var lead := "Baixando... ";
    assert s == lead + digits + "%";
    assert forall k :: 0 <= k < |lead| ==> !IsDigit(s[k]);
    assert forall k :: |lead| <= k < |lead| + |digits| ==> s[k] == digits[k - |lead|];
    assert PercentAt(s, |lead|, |lead| + |digits|);
    forall a, b | PercentAt(s, a, b) ensures |lead| <= a {
      assert IsDigit(s[a]);
    }
    assert FirstPercent(s, |lead|, |lead| + |digits|);
    assert s[|lead|..|lead| + |digits|] == digits;
    ParsePercentMeaning(s, p);
  }
}
