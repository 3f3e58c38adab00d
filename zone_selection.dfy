/** Selection of the layout indices that fall inside a zone's angle
    intervals. A zone is a flat list of boundaries read two at a time; a pair
    whose lower bound is not strictly below its upper bound is taken to wrap
    past 0 degrees: it selects the indices at or above the lower bound,
    followed by those at or below the upper bound, duplicates kept. */
module ZoneSelection {
  import opened LidarTypes

  /** The three conditions the selection tests bearings against. */
  datatype Cond = Between(lo: real, hi: real) | AtLeast(lo: real) | AtMost(hi: real)

  predicate Holds(c: Cond, a: real)
  {
    match c
    case Between(lo, hi) => lo <= a <= hi
    case AtLeast(lo) => a >= lo
    case AtMost(hi) => a <= hi
  }

  predicate StrictlyAscending(s: seq<nat>)
  {
    forall i, j :: 0 <= i < j < |s| ==> s[i] < s[j]
  }

  /** The indices of the bearings that satisfy c, in ascending order, as
      numpy's where returns them. */
  function Where(angles: seq<real>, c: Cond): seq<nat>
    decreases |angles|
  {
    if |angles| == 0 then []
    else
      var m := |angles| - 1;
      Where(angles[..m], c) + (if Holds(c, angles[m]) then [m] else [])
  }

  /** Where lists only indices of the layout. */
  lemma {:induction false} WhereBound(angles: seq<real>, c: Cond)
    ensures forall k :: 0 <= k < |Where(angles, c)| ==> Where(angles, c)[k] < |angles|
    decreases |angles|
  {
    if |angles| > 0 {
      WhereBound(angles[..|angles| - 1], c);
    }
  }

  /** Where lists the indices in ascending order. */
  lemma {:induction false} WhereAscending(angles: seq<real>, c: Cond)
    ensures StrictlyAscending(Where(angles, c))
    decreases |angles|
  {
    if |angles| > 0 {
      WhereAscending(angles[..|angles| - 1], c);
      WhereBound(angles[..|angles| - 1], c);
    }
  }

  /** Where selects each index whose bearing satisfies c exactly once, and
      no other index. */
  lemma {:induction false} WhereCount(angles: seq<real>, c: Cond, i: nat)
    ensures multiset(Where(angles, c))[i] == if i < |angles| && Holds(c, angles[i]) then 1 else 0
    ensures i in Where(angles, c) <==> i < |angles| && Holds(c, angles[i])
    decreases |angles|
  {
    if |angles| > 0 {
      var m := |angles| - 1;
      var prefix := Where(angles[..m], c);
      var tail: seq<nat> := if Holds(c, angles[m]) then [m] else [];
      WhereCount(angles[..m], c, i);
      WhereBound(angles[..m], c);
      assert Where(angles, c) == prefix + tail;
      assert multiset(prefix + tail) == multiset(prefix) + multiset(tail);
      if i < m {
        assert angles[..m][i] == angles[i];
      }
      assert multiset(tail)[i] == if i == m && Holds(c, angles[m]) then 1 else 0;
    }
  }

  /** Whether one boundary pair selects a bearing. */
  predicate Covers(lo: real, hi: real, a: real)
  {
    if lo < hi then lo <= a <= hi else a >= lo || a <= hi
  }

  /** The indices one boundary pair selects: the closed band when lo < hi,
      otherwise every index at or above lo followed by every index at or
      below hi. */
  function PairSelection(angles: seq<real>, lo: real, hi: real): seq<nat>
  {
    if lo < hi then Where(angles, Between(lo, hi))
    else Where(angles, AtLeast(lo)) + Where(angles, AtMost(hi))
  }

  /** A non-wrapping pair selects exactly the bearings of the closed band, in
      ascending index order. */
  lemma BandSelection(angles: seq<real>, lo: real, hi: real)
    requires lo < hi
    ensures StrictlyAscending(PairSelection(angles, lo, hi))
    ensures forall i: nat :: i in PairSelection(angles, lo, hi) <==> i < |angles| && lo <= angles[i] <= hi
  {
    WhereAscending(angles, Between(lo, hi));
    forall i: nat ensures i in PairSelection(angles, lo, hi) <==> i < |angles| && lo <= angles[i] <= hi {
      WhereCount(angles, Between(lo, hi), i);
    }
  }

  /** A pair that does not rise (equal bounds included) selects the
      concatenation of the two thresholds' selections; an index passing both
      is selected twice. */
  lemma WrapSelection(angles: seq<real>, lo: real, hi: real, i: nat)
    requires !(lo < hi)
    ensures i in PairSelection(angles, lo, hi) <==> i < |angles| && (angles[i] >= lo || angles[i] <= hi)
    ensures multiset(PairSelection(angles, lo, hi))[i] ==
      (if i < |angles| && angles[i] >= lo then 1 else 0) + (if i < |angles| && angles[i] <= hi then 1 else 0)
  {
    WhereCount(angles, AtLeast(lo), i);
    WhereCount(angles, AtMost(hi), i);
    assert multiset(PairSelection(angles, lo, hi)) ==
      multiset(Where(angles, AtLeast(lo))) + multiset(Where(angles, AtMost(hi)));
  }

  /** The band 30..60 over bearings 10, 40, 50, 70 selects indices 1 and 2. */
  lemma BandExample()
    ensures PairSelection([10.0, 40.0, 50.0, 70.0], 30.0, 60.0) == [1, 2]
  {
    var angles := [10.0, 40.0, 50.0, 70.0];
    var c := Between(30.0, 60.0);
    assert angles[..0] == [] && angles[..1][..0] == [];
    assert Where(angles[..1], c) == [];
    assert angles[..2][..1] == angles[..1];
    assert Where(angles[..2], c) == [1];
    assert angles[..3][..2] == angles[..2];
    assert Where(angles[..3], c) == [1, 2];
    assert angles[..3] == angles[..|angles| - 1];
  }

  /** The wrapping pair 350..10 over bearings 5, 355, 180 selects the
      bearing at or above 350 first and then the one at or below 10. */
  lemma WrapExample()
    ensures PairSelection([5.0, 355.0, 180.0], 350.0, 10.0) == [1, 0]
  {
    var angles := [5.0, 355.0, 180.0];
    assert angles[..1][..0] == [] && angles[..2][..1] == angles[..1] && angles[..3] == angles;
    assert Where(angles[..1], AtLeast(350.0)) == [];
    assert Where(angles[..2], AtLeast(350.0)) == [1];
    assert Where(angles, AtLeast(350.0)) == [1];
    assert Where(angles[..1], AtMost(10.0)) == [0];
    assert Where(angles[..2], AtMost(10.0)) == [0];
    assert Where(angles, AtMost(10.0)) == [0];
  }

  /** The selection of a whole zone: the pairs' selections one after the
      other, duplicates kept. */
  function ZoneIndices(angles: seq<real>, bounds: seq<real>): seq<nat>
    requires |bounds| % 2 == 0
  {
    if bounds == [] then []
    else PairSelection(angles, bounds[0], bounds[1]) + ZoneIndices(angles, bounds[2..])
  }

  /** A zone selects only indices of the layout. */
  lemma {:induction false} ZoneIndicesBound(angles: seq<real>, bounds: seq<real>)
    requires |bounds| % 2 == 0
    ensures forall k :: 0 <= k < |ZoneIndices(angles, bounds)| ==> ZoneIndices(angles, bounds)[k] < |angles|
    decreases |bounds|
  {
    if bounds != [] {
      var lo, hi := bounds[0], bounds[1];
      WhereBound(angles, Between(lo, hi));
      WhereBound(angles, AtLeast(lo));
      WhereBound(angles, AtMost(hi));
      ZoneIndicesBound(angles, bounds[2..]);
    }
  }

  /** Whether pair p of a boundary list selects a bearing. */
  predicate PairCovers(bounds: seq<real>, p: nat, a: real)
    requires 2 * p + 1 < |bounds|
  {
    Covers(bounds[2 * p], bounds[2 * p + 1], a)
  }

  /** An index is in a zone's selection exactly when one of its pairs covers
      the index's bearing. */
  lemma ZoneIndicesMembers(angles: seq<real>, bounds: seq<real>, i: nat)
    requires |bounds| % 2 == 0
    ensures i in ZoneIndices(angles, bounds) <==>
      i < |angles| && exists p: nat :: 2 * p + 1 < |bounds| && PairCovers(bounds, p, angles[i])
  {
    if i in ZoneIndices(angles, bounds) {
      var p := ZoneIndicesWitness(angles, bounds, i);
    }
    if i < |angles| && exists p: nat :: 2 * p + 1 < |bounds| && PairCovers(bounds, p, angles[i]) {
      var p: nat :| 2 * p + 1 < |bounds| && PairCovers(bounds, p, angles[i]);
      ZoneIndicesComplete(angles, bounds, i, p);
    }
  }

  /** Pair p of the boundaries after the first pair is pair p + 1 of all. */
  lemma PairShift(bounds: seq<real>, p: nat, a: real)
    requires 2 * p + 3 < |bounds|
    ensures PairCovers(bounds[2..], p, a) == PairCovers(bounds, p + 1, a)
  {
    assert bounds[2..][2 * p] == bounds[2 * p + 2];
    assert bounds[2..][2 * p + 1] == bounds[2 * p + 3];
  }

  /** A selected index has a covering pair. */
  lemma {:induction false} ZoneIndicesWitness(angles: seq<real>, bounds: seq<real>, i: nat) returns (p: nat)
    requires |bounds| % 2 == 0 && i in ZoneIndices(angles, bounds)
    ensures i < |angles| && 2 * p + 1 < |bounds| && PairCovers(bounds, p, angles[i])
    decreases |bounds|
  {
    var rest := ZoneIndicesUnfold(angles, bounds);
    PairMembers(angles, bounds[0], bounds[1], i);
    if i in PairSelection(angles, bounds[0], bounds[1]) {
      p := 0;
    } else {
      var q := ZoneIndicesWitness(angles, rest, i);
      PairShift(bounds, q, angles[i]);
      p := q + 1;
    }
  }

  /** A zone with a selected index has a first pair, and its selection is
      that pair's followed by the rest's. */
  lemma ZoneIndicesUnfold(angles: seq<real>, bounds: seq<real>) returns (rest: seq<real>)
    requires |bounds| % 2 == 0 && ZoneIndices(angles, bounds) != []
    ensures |bounds| >= 2 && rest == bounds[2..] && |rest| % 2 == 0
    ensures ZoneIndices(angles, bounds) == PairSelection(angles, bounds[0], bounds[1]) + ZoneIndices(angles, rest)
  {
    rest := bounds[2..];
  }

  /** An index whose bearing some pair covers is selected. */
  lemma {:induction false} ZoneIndicesComplete(angles: seq<real>, bounds: seq<real>, i: nat, p: nat)
    requires |bounds| % 2 == 0 && i < |angles| && 2 * p + 1 < |bounds| && PairCovers(bounds, p, angles[i])
    ensures i in ZoneIndices(angles, bounds)
    decreases |bounds|
  {
    EvenStep(|bounds| - 2);
    PairMembers(angles, bounds[0], bounds[1], i);
    if p > 0 {
      PairShift(bounds, p - 1, angles[i]);
      ZoneIndicesComplete(angles, bounds[2..], i, p - 1);
    }
  }

  lemma PairMembers(angles: seq<real>, lo: real, hi: real, i: nat)
    ensures i in PairSelection(angles, lo, hi) <==> i < |angles| && Covers(lo, hi, angles[i])
  {
    WhereCount(angles, Between(lo, hi), i);
    WhereCount(angles, AtLeast(lo), i);
    WhereCount(angles, AtMost(hi), i);
  }

  /** Appending a pair to a zone appends its selection after the earlier
      pairs' selections. */
  lemma {:induction false} ZoneIndicesSnoc(angles: seq<real>, bounds: seq<real>, lo: real, hi: real)
    requires |bounds| % 2 == 0
    ensures ZoneIndices(angles, bounds + [lo, hi]) == ZoneIndices(angles, bounds) + PairSelection(angles, lo, hi)
    decreases |bounds|
  {
    if bounds == [] {
      assert [] + [lo, hi] == [lo, hi];
      assert [lo, hi][2..] == [];
    } else {
      var b := bounds + [lo, hi];
      assert b[0] == bounds[0] && b[1] == bounds[1];
      assert b[2..] == bounds[2..] + [lo, hi];
      ZoneIndicesSnoc(angles, bounds[2..], lo, hi);
    }
  }

  /** The selection of the first j + 2 boundaries extends that of the first
      j by the selection of pair j. */
  lemma PrefixStep(angles: seq<real>, bounds: seq<real>, j: nat)
    requires j % 2 == 0 && j + 2 <= |bounds|
    ensures (j + 2) % 2 == 0
    ensures ZoneIndices(angles, bounds[..j + 2]) ==
            ZoneIndices(angles, bounds[..j]) + PairSelection(angles, bounds[j], bounds[j + 1])
  {
    EvenStep(j);
    assert bounds[..j + 2] == bounds[..j] + [bounds[j], bounds[j + 1]];
    ZoneIndicesSnoc(angles, bounds[..j], bounds[j], bounds[j + 1]);
  }

  lemma EvenStep(j: int)
    ensures j % 2 == 0 <==> (j + 2) % 2 == 0
    ensures j % 2 == 0 ==> (j + 1) % 2 == 1
  {
  }

  /** The selection loop over a zone's boundary pairs; an unpaired last
      boundary stops it with no selection. */
  method SelectZone(angles: seq<real>, bounds: seq<real>) returns (index: Option<seq<nat>>)
    ensures index.Some? <==> |bounds| % 2 == 0
    ensures index.Some? ==> index.value == ZoneIndices(angles, bounds)
  {
    var acc: seq<nat> := [];
    var j := 0;
    while j < |bounds|
      invariant 0 <= j <= |bounds| && j % 2 == 0
      invariant acc == ZoneIndices(angles, bounds[..j])
    {
      if j + 1 >= |bounds| {
        EvenStep(j);
        return None;
      }
      var lo, hi := bounds[j], bounds[j + 1];
      ghost var before := acc;
      if lo < hi {
        acc := acc + Where(angles, Between(lo, hi));
      } else {
        acc := acc + Where(angles, AtLeast(lo));
        acc := acc + Where(angles, AtMost(hi));
      }
      assert acc == before + PairSelection(angles, lo, hi);
      PrefixStep(angles, bounds, j);
      j := j + 2;
    }
    assert bounds[..j] == bounds;
    return Some(acc);
  }
}
