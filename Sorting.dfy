/**
 * Python's `sorted(xs)` and `sorted(set(xs))` on lists of `str`, as
 * insertion sorts. Their contracts characterise the results completely:
 * `SortedIsUnique` and `StrictSortedIsUnique` show that no other list meets
 * them, so these are THE results Python computes.
 */
module Sorting {
  import opened Text

  /** Every earlier element is at most every later one. */
  predicate Ascending(s: seq<string>)
  {
    forall i, j :: 0 <= i < j < |s| ==> AtMost(s[i], s[j])
  }

  /** Ascending without repetitions. */
  predicate StrictlyAscending(s: seq<string>)
  {
    forall i, j :: 0 <= i < j < |s| ==> Below(s[i], s[j])
  }

  predicate LowerBound(x: string, s: seq<string>)
  {
    forall k :: 0 <= k < |s| ==> AtMost(x, s[k])
  }

  predicate StrictLowerBound(x: string, s: seq<string>)
  {
    forall k :: 0 <= k < |s| ==> Below(x, s[k])
  }

  lemma HeadBelowRest(x: string, s: seq<string>)
    requires Ascending(s) && s != [] && AtMost(x, s[0])
    ensures LowerBound(x, s)
  {
    forall k | 0 <= k < |s| ensures AtMost(x, s[k]) {
      AtMostTransitive(x, s[0], s[k]);
    }
  }

  lemma StrictHeadBelowRest(x: string, s: seq<string>)
    requires StrictlyAscending(s) && s != [] && Below(x, s[0])
    ensures StrictLowerBound(x, s)
  {
    forall k | 0 <= k < |s| ensures Below(x, s[k]) {
      if k > 0 {
        BelowTransitive(x, s[0], s[k]);
      }
    }
  }

  /** A bound on the head of an ascending list extends it in order. */
  lemma ConsAscending(h: string, t: seq<string>)
    requires Ascending(t) && (t != [] ==> AtMost(h, t[0]))
    ensures Ascending([h] + t)
  {
    if t != [] {
      HeadBelowRest(h, t);
    }
    var r := [h] + t;
    forall i, j | 0 <= i < j < |r| ensures AtMost(r[i], r[j]) {
      assert r[j] == t[j - 1];
      if i > 0 {
        assert r[i] == t[i - 1];
      }
    }
  }

  /** Inserts `x` before the first element it does not exceed. */
  function Insert(x: string, s: seq<string>): (r: seq<string>)
    ensures multiset(r) == multiset(s) + multiset{x}
    ensures r[0] == x || (s != [] && r[0] == s[0])
  {
    if s == [] then [x]
    else if AtMost(x, s[0]) then [x] + s
    else
      assert s == [s[0]] + s[1..];
      [s[0]] + Insert(x, s[1..])
  }

  /** Insertion into an ascending list keeps it ascending. */
  lemma {:induction false} InsertAscending(x: string, s: seq<string>)
    requires Ascending(s)
    ensures Ascending(Insert(x, s))
  {
    if s == [] {
    } else if AtMost(x, s[0]) {
      ConsAscending(x, s);
    } else {
      AscendingTail(s);
      InsertAscending(x, s[1..]);
      var tail := Insert(x, s[1..]);
      assert AtMost(s[0], tail[0]) by {
        BelowTotal(x, s[0]);
        if tail[0] != x {
          assert tail[0] == s[1];
        }
      }
      ConsAscending(s[0], tail);
    }
  }

  /** `sorted(xs)`: ascending, and a permutation of `xs` (duplicates kept). */
  function Sort(xs: seq<string>): (r: seq<string>)
    ensures Ascending(r)
    ensures multiset(r) == multiset(xs)
  {
    if xs == [] then []
    else
      assert xs == [xs[0]] + xs[1..];
      InsertAscending(xs[0], Sort(xs[1..]));
      Insert(xs[0], Sort(xs[1..]))
  }

  /** Inserts `x` unless it is already present. */
  function InsertNew(x: string, s: seq<string>): (r: seq<string>)
    requires StrictlyAscending(s)
    ensures StrictlyAscending(r)
    ensures forall y :: y in r <==> y == x || y in s
  {
    if s == [] then [x]
    else if x == s[0] then s
    else if Below(x, s[0]) then
      StrictHeadBelowRest(x, s);
      [x] + s
    else
      BelowTotal(x, s[0]);
      var tail := InsertNew(x, s[1..]);
      assert forall y :: y in s <==> y == s[0] || y in s[1..] by {
        assert s == [s[0]] + s[1..];
      }
      assert StrictLowerBound(s[0], tail) by {
        forall k | 0 <= k < |tail| ensures Below(s[0], tail[k]) {
          assert tail[k] in tail;
          if tail[k] != x {
            var j :| 0 <= j < |s[1..]| && s[1..][j] == tail[k];
            assert s[j + 1] == tail[k];
          }
        }
      }
      [s[0]] + tail
  }

  /** The set of elements of a list, as Python's `set(xs)`. */
  function Elements(xs: seq<string>): set<string>
  {
    set y | y in xs
  }

  /** `sorted(set(xs))`: strictly ascending, with exactly the elements of `xs`. */
  function SortUnique(xs: seq<string>): (r: seq<string>)
    ensures StrictlyAscending(r)
    ensures Elements(r) == Elements(xs)
  {
    if xs == [] then []
    else
      assert Elements(xs) == {xs[0]} + Elements(xs[1..]) by {
        assert xs == [xs[0]] + xs[1..];
      }
      InsertNew(xs[0], SortUnique(xs[1..]))
  }

  /** A strictly ascending list repeats no element. */
  lemma StrictlyAscendingDistinct(s: seq<string>)
    requires StrictlyAscending(s)
    ensures forall i, j :: 0 <= i < j < |s| ==> s[i] != s[j]
    ensures |Elements(s)| == |s|
  {
    forall i, j | 0 <= i < j < |s| ensures s[i] != s[j] {
      if s[i] == s[j] {
        BelowIrreflexive(s[i]);
      }
    }
    DistinctCardinality(s);
  }

  lemma {:induction false} DistinctCardinality(s: seq<string>)
    requires forall i, j :: 0 <= i < j < |s| ==> s[i] != s[j]
    ensures |Elements(s)| == |s|
  {
    if s != [] {
      var t := s[..|s| - 1];
      DistinctCardinality(t);
      assert Elements(s) == Elements(t) + {s[|s| - 1]};
      assert s[|s| - 1] !in Elements(t);
    }
  }

  /** Ascending order and the multiset of elements determine a list. */
  lemma {:induction false} SortedIsUnique(a: seq<string>, b: seq<string>)
    requires Ascending(a) && Ascending(b)
    requires multiset(a) == multiset(b)
    ensures a == b
    decreases |a|
  {
    if a != [] {
      SameHeads(a, b);
      SameTails(a, b);
      AscendingTail(a);
      AscendingTail(b);
      SortedIsUnique(a[1..], b[1..]);
      assert a == [a[0]] + a[1..] && b == [b[0]] + b[1..];
    }
  }

  /** Two ascending lists with the same multiset of elements have the same head. */
  lemma SameHeads(a: seq<string>, b: seq<string>)
    requires Ascending(a) && Ascending(b) && a != []
    requires multiset(a) == multiset(b)
    ensures b != [] && a[0] == b[0]
  {
    assert a[0] in multiset(b) && b[0] in multiset(a);
    var i :| 0 <= i < |b| && b[i] == a[0];
    var j :| 0 <= j < |a| && a[j] == b[0];
    assert AtMost(b[0], a[0]) by {
      if i > 0 {
        assert AtMost(b[0], b[i]);
      }
    }
    assert AtMost(a[0], b[0]) by {
      if j > 0 {
        assert AtMost(a[0], a[j]);
      }
    }
    AtMostAntisymmetric(a[0], b[0]);
  }

  /** Removing the same head from two lists with one multiset leaves tails with one multiset. */
  lemma SameTails(a: seq<string>, b: seq<string>)
    requires a != [] && b != [] && a[0] == b[0]
    requires multiset(a) == multiset(b)
    ensures multiset(a[1..]) == multiset(b[1..])
  {
    assert a == [a[0]] + a[1..] && b == [b[0]] + b[1..];
    assert multiset(a[1..]) == multiset(a) - multiset{a[0]};
    assert multiset(b[1..]) == multiset(b) - multiset{b[0]};
  }

  lemma AscendingTail(a: seq<string>)
    requires Ascending(a) && a != []
    ensures Ascending(a[1..])
  {
    forall i, j | 0 <= i < j < |a| - 1 ensures AtMost(a[1..][i], a[1..][j]) {
      assert a[1..][i] == a[i + 1] && a[1..][j] == a[j + 1];
    }
  }

  /** Strictly ascending order and the set of elements determine a list. */
  lemma {:induction false} StrictSortedIsUnique(a: seq<string>, b: seq<string>)
    requires StrictlyAscending(a) && StrictlyAscending(b)
    requires Elements(a) == Elements(b)
    ensures a == b
    decreases |a|
  {
    NoElements(a);
    NoElements(b);
    if a != [] {
      assert a[0] in Elements(b);
      assert b != [];
      assert b[0] in Elements(a);
      var i :| 0 <= i < |b| && b[i] == a[0];
      var j :| 0 <= j < |a| && a[j] == b[0];
      assert AtMost(b[0], a[0]) by {
        if i > 0 {
          assert Below(b[0], b[i]);
        }
      }
      assert AtMost(a[0], b[0]) by {
        if j > 0 {
          assert Below(a[0], a[j]);
        }
      }
      AtMostAntisymmetric(a[0], b[0]);
      assert Elements(a[1..]) == Elements(b[1..]) by {
        assert Elements(a) == {a[0]} + Elements(a[1..]) by {
          assert a == [a[0]] + a[1..];
        }
        assert Elements(b) == {b[0]} + Elements(b[1..]) by {
          assert b == [b[0]] + b[1..];
        }
        StrictHeadNotInTail(a);
        StrictHeadNotInTail(b);
      }
      SortedTail(a);
      SortedTail(b);
      StrictSortedIsUnique(a[1..], b[1..]);
      assert a == [a[0]] + a[1..] && b == [b[0]] + b[1..];
    }
  }

  lemma NoElements(s: seq<string>)
    ensures Elements(s) == {} <==> s == []
  {
    if s != [] {
      assert s[0] in Elements(s);
    }
  }

  lemma SortedTail(a: seq<string>)
    requires StrictlyAscending(a) && a != []
    ensures StrictlyAscending(a[1..])
  {
  }

  lemma StrictHeadNotInTail(a: seq<string>)
    requires StrictlyAscending(a) && a != []
    ensures a[0] !in Elements(a[1..])
  {
    if a[0] in Elements(a[1..]) {
      var k :| 0 <= k < |a[1..]| && a[1..][k] == a[0];
      assert Below(a[0], a[k + 1]);
      BelowIrreflexive(a[0]);
    }
  }
}
