/**
 * Moving through a circular list of `n` entries with Python's `%`: for a
 * positive divisor Python's `%` is never negative, as Dafny's is, so
 * `(t + 1) % n` and `(t - 1) % n` are written as they are in Python. Used by
 * main.py's `AudioManager` and by store_gui.py's menus.
 */
module Ring {

  /** `(t + 1) % n`: the next entry, wrapping from the last to the first. */
  function Next(t: int, n: nat): (r: int)
    requires n > 0
    ensures 0 <= r < n
    ensures 0 <= t < n - 1 ==> r == t + 1
    ensures t == n - 1 ==> r == 0
  {
    (t + 1) % n
  }

  /** `(t - 1) % n`: the previous entry, wrapping from the first to the last. */
  function Prev(t: int, n: nat): (r: int)
    requires n > 0
    ensures 0 <= r < n
    ensures 0 < t < n ==> r == t - 1
    ensures t == 0 ==> r == n - 1
  {
    (t - 1) % n
  }

  /** Going forward and back again returns to the start, from any in-range entry. */
  lemma NextPrevInverse(t: int, n: nat)
    requires n > 0 && 0 <= t < n
    ensures Prev(Next(t, n), n) == t
    ensures Next(Prev(t, n), n) == t
  {
  }

  /** `((a % n) + b) % n == (a + b) % n`. */
  lemma ModAdd(a: int, b: int, n: nat)
    requires n > 0
    ensures ((a % n) + b) % n == (a + b) % n
  {
    var q, r := a / n, a % n;
    var q2, r2 := (r + b) / n, (r + b) % n;
    ModUnique(r + b, q2, r2, n);
    assert a + b == (q + q2) * n + r2;
    ModUnique(a + b, q + q2, r2, n);
  }

  /** The remainder is the unique `r` in `[0, n)` with `a == q * n + r`. */
  lemma ModUnique(a: int, q: int, r: int, n: nat)
    requires n > 0 && 0 <= r < n && a == q * n + r
    ensures a % n == r && a / n == q
  {
    var q', r' := a / n, a % n;
    var d := q - q';
    assert d * n == r' - r by {
      assert q * n + r == q' * n + r';
      assert d * n == q * n - q' * n;
    }
    if d > 0 {
      MultipleAtLeast(d, n);
    } else if d < 0 {
      MultipleAtLeast(-d, n);
    }
  }

  lemma {:induction false} MultipleAtLeast(d: int, n: nat)
    requires d >= 1
    ensures d * n >= n
    decreases d
  {
    if d > 1 {
      MultipleAtLeast(d - 1, n);
      assert d * n == (d - 1) * n + n;
    }
  }
}
