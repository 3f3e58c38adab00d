/** The angular layout of a sensor: the bearing, in degrees, of each index of
    its range array, before and after the mounting rotation. */
module AngleLayout {

  /** Evenly spaced values from start to stop, both included, as numpy's
      linspace produces them (over exact reals). */
  function Linspace(start: real, stop: real, num: nat): (r: seq<real>)
    ensures |r| == num
  {
    if num == 1 then [start]
    else seq(num, i requires 0 <= i < num => LinspaceAt(start, stop, num, i))
  }

  /** Entry i of a linspace of at least two values. */
  function LinspaceAt(start: real, stop: real, num: nat, i: nat): real
    requires num >= 2
  {
    start + (i as real) * (stop - start) / ((num - 1) as real)
  }

  /** A linspace starts at start, ends at stop, and rises when stop is not
      below start. */
  lemma LinspaceShape(start: real, stop: real, num: nat)
    ensures num >= 1 ==> Linspace(start, stop, num)[0] == start
    ensures num >= 2 ==> Linspace(start, stop, num)[num - 1] == stop
    ensures start <= stop ==>
      forall i, j :: 0 <= i <= j < num ==> Linspace(start, stop, num)[i] <= Linspace(start, stop, num)[j]
  {
    var r := Linspace(start, stop, num);
    if num >= 2 {
      LinspaceLast(start, stop, num);
      if start <= stop {
        forall i, j | 0 <= i <= j < num ensures r[i] <= r[j] {
          LinspaceMono(start, stop, num, i, j);
        }
      }
    }
  }

  lemma LinspaceLast(start: real, stop: real, num: nat)
    requires num >= 2
    ensures LinspaceAt(start, stop, num, num - 1) == stop
  {
    var w, d := stop - start, (num - 1) as real;
    assert ((num - 1) as real) * w == d * w;
    assert d * w / d == w;
  }

  lemma LinspaceMono(start: real, stop: real, num: nat, i: nat, j: nat)
    requires num >= 2 && start <= stop && i <= j
    ensures LinspaceAt(start, stop, num, i) <= LinspaceAt(start, stop, num, j)
  {
    var w, d := stop - start, (num - 1) as real;
    assert (i as real) * w <= (j as real) * w;
    assert (i as real) * w / d <= (j as real) * w / d;
  }

  /** The unrotated layout: whole degrees 0..359 for a 360-ray sensor,
      otherwise N values spread evenly over [0, 360]. */
  function BaseLayout(n: nat): (r: seq<real>)
    ensures |r| == n
  {
    if n == 360 then seq(360, i => i as real)
    else Linspace(0.0, 360.0, n)
  }

  /** The unrotated layout rises with the index; every bearing lies in
      [0, 360]; the end point 360 itself occurs when N is neither 1 nor 360. */
  lemma BaseLayoutRange(n: nat)
    ensures forall i, j :: 0 <= i <= j < n ==> BaseLayout(n)[i] <= BaseLayout(n)[j]
    ensures forall i :: 0 <= i < n ==> 0.0 <= BaseLayout(n)[i] <= 360.0
    ensures n == 360 ==> forall i :: 0 <= i < n ==> BaseLayout(n)[i] == i as real
    ensures n >= 2 && n != 360 ==> BaseLayout(n)[0] == 0.0 && BaseLayout(n)[n - 1] == 360.0
  {
    var r := BaseLayout(n);
    if n != 360 {
      LinspaceShape(0.0, 360.0, n);
      if n >= 1 {
        forall i | 0 <= i < n ensures 0.0 <= r[i] <= 360.0 {
          assert r[0] <= r[i] <= r[n - 1];
          if n == 1 {
            assert r[i] == 0.0;
          }
        }
      }
    }
  }

  /** Rounding to the nearest integer, ties to the even neighbour, as
      numpy's rint does. */
  function RoundHalfEven(x: real): (k: int)
    ensures -0.5 <= (k as real) - x <= 0.5
    ensures (k as real) - x == 0.5 || x - (k as real) == 0.5 ==> k % 2 == 0
  {
    var f := x.Floor;
    var d := x - f as real;
    if d < 0.5 then f
    else if d > 0.5 then f + 1
    else if f % 2 == 0 then f
    else f + 1
  }

  /** The two properties of RoundHalfEven determine it: no other integer is
      within one half of x with ties going to the even one. */
  lemma {:induction false} RoundHalfEvenUnique(x: real, k: int)
    requires -0.5 <= (k as real) - x <= 0.5
    requires (k as real) - x == 0.5 || x - (k as real) == 0.5 ==> k % 2 == 0
    ensures k == RoundHalfEven(x)
  {
  }

  /** The roll shift of the mounting rotation: the rotation in degrees
      divided by the angular step 360/N, rounded. */
  function RollShift(rotation: real, n: nat): (k: int)
    requires n > 0
    ensures -0.5 <= (k as real) - rotation * (n as real) / 360.0 <= 0.5
  {
    assert rotation / (360.0 / n as real) == rotation * (n as real) / 360.0;
    RoundHalfEven(rotation / (360.0 / n as real))
  }

  /** numpy's roll: a circular shift by k places. */
  function Roll(s: seq<real>, k: int): (r: seq<real>)
    ensures |r| == |s|
  {
    if |s| == 0 then s
    else
      var m := k % |s|;
      s[|s| - m..] + s[..|s| - m]
  }

  /** Entry i of a roll by k is entry (i - k) mod N of the input. */
  lemma RollIndex(s: seq<real>, k: int, i: int)
    requires 0 <= i < |s|
    ensures Roll(s, k)[i] == s[(i - k) % |s|]
  {
    var n := |s|;
    var m := k % n;
    DivMod(k, n);
    if i < m {
      ModOf(i - k, n, -(k / n) - 1, n - m + i);
    } else {
      ModOf(i - k, n, -(k / n), i - m);
    }
  }

  lemma DivMod(a: int, n: int)
    requires n > 0
    ensures a == (a / n) * n + a % n && 0 <= a % n < n
  {
  }

  lemma {:induction false} MulAtLeast(x: int, n: int)
    requires x >= 1 && n > 0
    ensures x * n >= n
    decreases x
  {
    if x > 1 {
      MulAtLeast(x - 1, n);
      assert x * n == (x - 1) * n + n;
    }
  }

  /** The remainder is the unique r in [0, n) with a == q*n + r. */
  lemma ModOf(a: int, n: int, q: int, r: int)
    requires n > 0 && a == q * n + r && 0 <= r < n
    ensures a % n == r
  {
    var q', r' := a / n, a % n;
    DivMod(a, n);
    assert (q - q') * n == r' - r;
    if q > q' {
      MulAtLeast(q - q', n);
    } else if q < q' {
      MulAtLeast(q' - q, n);
    }
  }

  /** Rolling keeps every bearing: the result is a permutation of the input. */
  lemma RollPermutes(s: seq<real>, k: int)
    ensures multiset(Roll(s, k)) == multiset(s)
  {
    if |s| > 0 {
      var p := |s| - k % |s|;
      assert s == s[..p] + s[p..];
      assert Roll(s, k) == s[p..] + s[..p];
    }
  }

  /** Rolling back by the same shift restores the layout. */
  lemma RollRoundTrip(s: seq<real>, k: int)
    ensures Roll(Roll(s, k), -k) == s
  {
    var n := |s|;
    if n > 0 {
      var once := Roll(s, k);
      var r := Roll(once, -k);
      forall i | 0 <= i < n ensures r[i] == s[i] {
        var j := (i + k) % n;
        DivMod(i + k, n);
        RollIndex(once, -k, i);
        assert i - -k == i + k;
        RollIndex(s, k, j);
        ModOf(j - k, n, -((i + k) / n), i);
      }
      assert r == s;
    }
  }

  /** The layout after the mounting rotation. */
  function RotatedLayout(n: nat, rotation: real): (r: seq<real>)
    requires n > 0
    ensures |r| == n
  {
    Roll(BaseLayout(n), RollShift(rotation, n))
  }

  /** Index i of the rotated layout holds the bearing of index
      (i - shift) mod N of the unrotated one. */
  lemma RotatedLayoutIndex(n: nat, rotation: real, i: nat)
    requires 0 <= i < n
    ensures RotatedLayout(n, rotation)[i] == BaseLayout(n)[(i - RollShift(rotation, n)) % n]
  {
    RollIndex(BaseLayout(n), RollShift(rotation, n), i);
  }

  /** The rotated layout holds the same bearings as the unrotated one. */
  lemma RotatedLayoutPermutes(n: nat, rotation: real)
    requires n > 0
    ensures multiset(RotatedLayout(n, rotation)) == multiset(BaseLayout(n))
  {
    RollPermutes(BaseLayout(n), RollShift(rotation, n));
  }
}
