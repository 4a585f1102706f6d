/** The library's quicksort: a partition into less, equal and greater elements by
    moving bounds, recursion on the smaller side and iteration on the larger. */
module Qsort {

  /** What the caller's comparison must be: a total preorder. */
  ghost predicate Preorder<T(!new)>(cmp: (T, T) -> int) {
    && (forall x, y :: cmp(x, y) < 0 <==> cmp(y, x) > 0)
    && (forall x, y, z :: cmp(x, y) <= 0 && cmp(y, z) <= 0 ==> cmp(x, z) <= 0)
  }

  ghost predicate Sorted<T>(s: seq<T>, cmp: (T, T) -> int) {
    forall i, j | 0 <= i < j < |s| :: cmp(s[i], s[j]) <= 0
  }

  /** t is s with the elements from lo to hi rearranged. */
  ghost predicate Rearranged<T>(s: seq<T>, t: seq<T>, lo: nat, hi: nat) {
    && lo <= hi <= |s| == |t|
    && s[..lo] == t[..lo] && s[hi..] == t[hi..]
    && multiset(s[lo..hi]) == multiset(t[lo..hi])
  }

  function Pow2(n: nat): (r: nat)
    ensures r > 0
  {
    if n == 0 then 1 else 2 * Pow2(n - 1)
  }

  /** Elements equal in the order compare alike with everything. */
  lemma SameOrder<T(!new)>(x: T, p: T, q: T, cmp: (T, T) -> int)
    requires Preorder(cmp) && cmp(p, q) == 0
    ensures cmp(x, p) < 0 <==> cmp(x, q) < 0
    ensures cmp(x, p) > 0 <==> cmp(x, q) > 0
    ensures cmp(p, x) < 0 <==> cmp(x, q) > 0
    ensures cmp(p, x) > 0 <==> cmp(x, q) < 0
  {
    assert cmp(q, p) == 0;
    assert cmp(x, p) <= 0 ==> cmp(x, q) <= 0;
    assert cmp(x, q) <= 0 ==> cmp(x, p) <= 0;
    assert cmp(p, x) <= 0 ==> cmp(q, x) <= 0;
    assert cmp(q, x) <= 0 ==> cmp(p, x) <= 0;
  }

  lemma Through<T(!new)>(x: T, p: T, y: T, cmp: (T, T) -> int)
    requires Preorder(cmp) && cmp(x, p) <= 0 && cmp(y, p) >= 0
    ensures cmp(x, y) <= 0
  {
    assert cmp(p, y) <= 0;
  }

  // ----- rearranging -----

  lemma SliceParts<T>(s: seq<T>, lo: nat, hi: nat)
    requires lo <= hi <= |s|
    ensures multiset(s) == multiset(s[..lo]) + multiset(s[lo..hi]) + multiset(s[hi..])
  {
    assert s == s[..lo] + s[lo..hi] + s[hi..];
  }

  lemma RearrangedFrom<T>(s: seq<T>, t: seq<T>, lo: nat, hi: nat)
    requires lo <= hi <= |s| == |t| && multiset(s) == multiset(t) && s[..lo] == t[..lo] && s[hi..] == t[hi..]
    ensures Rearranged(s, t, lo, hi)
  {
    SliceParts(s, lo, hi);
    SliceParts(t, lo, hi);
    assert multiset(s[lo..hi]) == multiset(s) - multiset(s[..lo]) - multiset(s[hi..]);
    assert multiset(t[lo..hi]) == multiset(t) - multiset(t[..lo]) - multiset(t[hi..]);
  }

  /** Rearranging a part rearranges the whole. */
  lemma RearrangedWithin<T>(s: seq<T>, t: seq<T>, u: seq<T>, lo: nat, hi: nat, a: nat, b: nat)
    requires Rearranged(s, t, lo, hi) && Rearranged(t, u, a, b) && lo <= a <= b <= hi
    ensures Rearranged(s, u, lo, hi)
  {
    SliceParts(s, lo, hi);
    SliceParts(t, lo, hi);
    SliceParts(t, a, b);
    SliceParts(u, a, b);
    assert u[..lo] == u[..a][..lo] == t[..a][..lo] == t[..lo];
    assert u[hi..] == u[b..][hi - b..] == t[b..][hi - b..] == t[hi..];
    RearrangedFrom(s, u, lo, hi);
  }

  /** An element of the rearranged part was in that part before. */
  lemma CameFrom<T>(s: seq<T>, t: seq<T>, lo: nat, hi: nat, y: nat) returns (x: nat)
    requires Rearranged(s, t, lo, hi) && lo <= y < hi
    ensures lo <= x < hi && s[x] == t[y]
  {
    assert t[lo..hi][y - lo] == t[y];
    assert t[y] in multiset(t[lo..hi]);
    assert t[y] in s[lo..hi];
    var k :| 0 <= k < |s[lo..hi]| && s[lo..hi][k] == t[y];
    x := lo + k;
  }

  lemma Outside<T>(s: seq<T>, t: seq<T>, lo: nat, hi: nat)
    requires Rearranged(s, t, lo, hi)
    ensures |t| == |s| && forall k | 0 <= k < |s| && (k < lo || hi <= k) :: t[k] == s[k]
  {
    forall k | 0 <= k < |s| && (k < lo || hi <= k) ensures t[k] == s[k] {
      if k < lo { assert s[..lo][k] == t[..lo][k]; } else { assert s[hi..][k - hi] == t[hi..][k - hi]; }
    }
  }

  // ----- exchanges -----

  function Swapped<T>(s: seq<T>, i: nat, j: nat): (r: seq<T>)
    requires i < |s| && j < |s|
    ensures |r| == |s|
  {
    s[i := s[j]][j := s[i]]
  }

  function Rotated<T>(s: seq<T>, i: nat, j: nat, k: nat): (r: seq<T>)
    requires i < |s| && j < |s| && k < |s|
    ensures |r| == |s|
  {
    s[i := s[k]][k := s[j]][j := s[i]]
  }

  lemma SwapMultiset<T>(s: seq<T>, i: nat, j: nat)
    requires i < |s| && j < |s|
    ensures multiset(Swapped(s, i, j)) == multiset(s)
  {
    assert multiset(s[i := s[j]]) == multiset(s) - multiset{s[i]} + multiset{s[j]};
  }

  method Qsexc<T>(a: array<T>, i: nat, j: nat)
    requires i < a.Length && j < a.Length
    modifies a
    ensures a[..] == Swapped(old(a[..]), i, j)
  {
    var c := a[i];
    a[i] := a[j];
    a[j] := c;
  }

  lemma RotateMultiset<T>(s: seq<T>, i: nat, j: nat, k: nat)
    requires i < |s| && j < |s| && k < |s| && i != k && i != j
    ensures multiset(Rotated(s, i, j, k)) == multiset(s)
  {
    var t := s[i := s[k]][k := s[i]];
    SwapMultiset(s, i, k);
    SwapMultiset(t, k, j);
    assert Rotated(s, i, j, k) == Swapped(t, k, j);
  }

  /** The three-way exchange: i gets k's element, k gets j's and j gets i's. */
  method Qstexc<T>(a: array<T>, i: nat, j: nat, k: nat)
    requires i < a.Length && j < a.Length && k < a.Length && i != k && i != j
    modifies a
    ensures a[..] == Rotated(old(a[..]), i, j, k)
  {
    var c := a[i];
    a[i] := a[k];
    a[k] := a[j];
    a[j] := c;
  }

  // ----- the partition -----

  /** The five zones around pivot p: less, unknown, equal, unknown, greater. */
  ghost predicate Zones<T>(s: seq<T>, lo: nat, hi: nat, i: int, lp: int, hp: int, j: int, p: T, cmp: (T, T) -> int) {
    && lo <= i <= lp <= hp <= j < hi <= |s|
    && (forall k | lo <= k < i :: cmp(s[k], p) < 0)
    && (forall k | lp <= k <= hp :: cmp(s[k], p) == 0)
    && (forall k | j < k < hi :: cmp(s[k], p) > 0)
  }

  /** Elements from lo to hi have moved, no others. */
  ghost predicate Moved<T>(s: seq<T>, t: seq<T>, lo: nat, hi: nat) {
    && lo <= hi <= |s| == |t| && multiset(s) == multiset(t)
    && forall k | 0 <= k < |s| && (k < lo || hi <= k) :: t[k] == s[k]
  }

  ghost predicate Cut<T>(s0: seq<T>, s: seq<T>, lo: nat, hi: nat,
                         i: int, lp: int, hp: int, j: int, p: T, cmp: (T, T) -> int)
  {
    Moved(s0, s, lo, hi) && Zones(s, lo, hi, i, lp, hp, j, p, cmp)
  }

  lemma RotatedAt<T>(s: seq<T>, i: nat, j: nat, k: nat)
    requires i < |s| && j < |s| && k < |s| && i != k && i != j
    ensures var t := Rotated(s, i, j, k);
      && |t| == |s| && t[i] == s[k] && t[j] == s[i] && (k != j ==> t[k] == s[j])
      && forall m | 0 <= m < |s| && m != i && m != j && m != k :: t[m] == s[m]
  {
  }

  lemma SwappedAt<T>(s: seq<T>, i: nat, j: nat)
    requires i < |s| && j < |s|
    ensures var t := Swapped(s, i, j);
      && |t| == |s| && t[i] == s[j] && t[j] == s[i]
      && forall m | 0 <= m < |s| && m != i && m != j :: t[m] == s[m]
  {
  }

  lemma MovedSwapped<T>(s0: seq<T>, s: seq<T>, lo: nat, hi: nat, i: nat, j: nat)
    requires Moved(s0, s, lo, hi) && lo <= i < hi && lo <= j < hi
    ensures Moved(s0, Swapped(s, i, j), lo, hi)
  {
    hide Swapped;
    SwapMultiset(s, i, j);
    SwappedAt(s, i, j);
  }

  lemma MovedRotated<T>(s0: seq<T>, s: seq<T>, lo: nat, hi: nat, i: nat, j: nat, k: nat)
    requires Moved(s0, s, lo, hi) && lo <= i < hi && lo <= j < hi && lo <= k < hi && i != k && i != j
    ensures Moved(s0, Rotated(s, i, j, k), lo, hi)
  {
    hide Rotated;
    RotateMultiset(s, i, j, k);
    RotatedAt(s, i, j, k);
  }

  lemma CutStart<T(!new)>(s: seq<T>, lo: nat, hi: nat, m: nat, cmp: (T, T) -> int)
    requires Preorder(cmp) && lo <= m < hi <= |s|
    ensures Cut(s, s, lo, hi, lo, m, m, hi - 1, s[m], cmp)
  {
    assert cmp(s[m], s[m]) == 0;
  }

  lemma CutBounds<T>(s0: seq<T>, s: seq<T>, lo: nat, hi: nat,
                     i: int, lp: int, hp: int, j: int, p: T, cmp: (T, T) -> int)
    requires Cut(s0, s, lo, hi, i, lp, hp, j, p, cmp)
    ensures lo <= i <= lp <= hp <= j < hi <= |s| == |s0|
    ensures cmp(s[lp], p) == 0 && cmp(s[hp], p) == 0
  {
  }

  /** Element i belongs left: with the equal ones or with the less ones. */
  lemma CutLeft<T>(s0: seq<T>, s: seq<T>, lo: nat, hi: nat, i: nat, lp: nat, hp: nat, j: nat, p: T, cmp: (T, T) -> int)
    requires Cut(s0, s, lo, hi, i, lp, hp, j, p, cmp) && i < lp
    ensures cmp(s[i], p) == 0 ==> Cut(s0, Swapped(s, i, lp - 1), lo, hi, i, lp - 1, hp, j, p, cmp)
    ensures cmp(s[i], p) < 0 ==> Cut(s0, s, lo, hi, i + 1, lp, hp, j, p, cmp)
  {
    hide Moved, Swapped;
    CutLengths(s0, s, lo, hi, i, lp, hp, j, p, cmp);
    SwappedAt(s, i, lp - 1);
    MovedSwapped(s0, s, lo, hi, i, lp - 1);
  }

  lemma CutLengths<T>(s0: seq<T>, s: seq<T>, lo: nat, hi: nat,
                      i: int, lp: int, hp: int, j: int, p: T, cmp: (T, T) -> int)
    requires Cut(s0, s, lo, hi, i, lp, hp, j, p, cmp)
    ensures |s| == |s0| && lo <= i <= lp <= hp <= j < hi <= |s|
  {
  }

  /** Element j belongs right: with the equal ones or with the greater ones. */
  lemma CutRight<T>(s0: seq<T>, s: seq<T>, lo: nat, hi: nat, i: nat, lp: nat, hp: nat, j: nat, p: T, cmp: (T, T) -> int)
    requires Cut(s0, s, lo, hi, i, lp, hp, j, p, cmp) && hp < j
    ensures cmp(s[j], p) == 0 ==> Cut(s0, Swapped(s, hp + 1, j), lo, hi, i, lp, hp + 1, j, p, cmp)
    ensures cmp(s[j], p) == 0 && i < lp ==> Swapped(s, hp + 1, j)[i] == s[i]
    ensures cmp(s[j], p) > 0 ==> Cut(s0, s, lo, hi, i, lp, hp, j - 1, p, cmp)
  {
    hide Moved, Swapped;
    CutLengths(s0, s, lo, hi, i, lp, hp, j, p, cmp);
    SwappedAt(s, hp + 1, j);
    MovedSwapped(s0, s, lo, hi, hp + 1, j);
  }

  /** Elements on the wrong side: both, only j, or only i. */
  lemma CutBoth<T>(s0: seq<T>, s: seq<T>, lo: nat, hi: nat, i: nat, lp: nat, hp: nat, j: nat, p: T, cmp: (T, T) -> int)
    requires Cut(s0, s, lo, hi, i, lp, hp, j, p, cmp) && hp < j && cmp(s[j], p) < 0 && i < lp && cmp(s[i], p) > 0
    ensures Cut(s0, Swapped(s, i, j), lo, hi, i + 1, lp, hp, j - 1, p, cmp)
  {
    hide Moved, Swapped;
    CutLengths(s0, s, lo, hi, i, lp, hp, j, p, cmp);
    SwappedAt(s, i, j);
    MovedSwapped(s0, s, lo, hi, i, j);
  }

  lemma CutLess<T>(s0: seq<T>, s: seq<T>, lo: nat, hi: nat, lp: nat, hp: nat, j: nat, p: T, cmp: (T, T) -> int)
    requires Cut(s0, s, lo, hi, lp, lp, hp, j, p, cmp) && hp < j && cmp(s[j], p) < 0
    ensures Cut(s0, Rotated(s, lp, hp + 1, j), lo, hi, lp + 1, lp + 1, hp + 1, j, p, cmp)
  {
    hide Moved, Rotated;
    CutLengths(s0, s, lo, hi, lp, lp, hp, j, p, cmp);
    RotatedAt(s, lp, hp + 1, j);
    MovedRotated(s0, s, lo, hi, lp, hp + 1, j);
  }

  lemma CutGreater<T>(s0: seq<T>, s: seq<T>, lo: nat, hi: nat, i: nat, lp: nat, hp: nat, p: T, cmp: (T, T) -> int)
    requires Cut(s0, s, lo, hi, i, lp, hp, hp, p, cmp) && i < lp && cmp(s[i], p) > 0
    ensures Cut(s0, Rotated(s, hp, lp - 1, i), lo, hi, i, lp - 1, hp - 1, hp - 1, p, cmp)
  {
    hide Moved, Rotated;
    CutLengths(s0, s, lo, hi, i, lp, hp, hp, p, cmp);
    RotatedAt(s, hp, lp - 1, i);
    MovedRotated(s0, s, lo, hi, hp, lp - 1, i);
  }

  lemma CutDone<T>(s0: seq<T>, s: seq<T>, lo: nat, hi: nat, lp: nat, hp: nat, p: T, cmp: (T, T) -> int)
    requires Cut(s0, s, lo, hi, lp, lp, hp, hp, p, cmp)
    ensures Rearranged(s0, s, lo, hi) && Zones(s, lo, hi, lp, lp, hp, hp, p, cmp)
  {
    assert s[..lo] == s0[..lo] && s[hi..] == s0[hi..];
    RearrangedFrom(s0, s, lo, hi);
  }

  method Partition<T(!new)>(a: array<T>, lo: nat, hi: nat, cmp: (T, T) -> int) returns (lp: nat, hp: nat, ghost p: T)
    requires lo + 1 < hi <= a.Length && Preorder(cmp)
    modifies a
    ensures Rearranged(old(a[..]), a[..], lo, hi)
    ensures Zones(a[..], lo, hi, lp, lp, hp, hp, p, cmp)
  {
    hide Preorder, Cut, Moved, Zones, Rearranged, Swapped, Rotated;
    ghost var s0 := a[..];
    lp := lo + (hi - lo) / 2;
    hp := lp;
    p := a[lp];
    var i: nat, j: nat := lo, hi - 1;
    CutStart(s0, lo, hi, lp, cmp);
    while true
      invariant Cut(s0, a[..], lo, hi, i, lp, hp, j, p, cmp)
      invariant lo <= i <= lp <= hp <= j < hi
      decreases (lp - i) + (j - hp)
    {
      CutBounds(s0, a[..], lo, hi, i, lp, hp, j, p, cmp);
      if i < lp {
        var c := cmp(a[i], a[lp]);
        SameOrder(a[i], a[lp], p, cmp);
        CutLeft(s0, a[..], lo, hi, i, lp, hp, j, p, cmp);
        if c == 0 {
          lp := lp - 1;
          Qsexc(a, i, lp);
          continue;
        }
        if c < 0 {
          i := i + 1;
          continue;
        }
      }
      ghost var left := (lp - i) + (j - hp);
      var exchanged := false;
      while j > hp && !exchanged
        invariant Cut(s0, a[..], lo, hi, i, lp, hp, j, p, cmp)
        invariant lo <= i <= lp <= hp <= j < hi
        invariant !exchanged && i < lp ==> cmp(a[i], p) > 0
        invariant if exchanged then (lp - i) + (j - hp) < left else (lp - i) + (j - hp) <= left
        decreases j - hp
      {
        CutBounds(s0, a[..], lo, hi, i, lp, hp, j, p, cmp);
        var c := cmp(a[hp], a[j]);
        SameOrder(a[j], a[hp], p, cmp);
        CutRight(s0, a[..], lo, hi, i, lp, hp, j, p, cmp);
        if c == 0 {
          hp := hp + 1;
          Qsexc(a, hp, j);
        } else if c > 0 {
          if i == lp {
            CutLess(s0, a[..], lo, hi, lp, hp, j, p, cmp);
            hp := hp + 1;
            Qstexc(a, i, hp, j);
            lp := lp + 1;
            i := lp;
          } else {
            CutBoth(s0, a[..], lo, hi, i, lp, hp, j, p, cmp);
            Qsexc(a, i, j);
            j := j - 1;
            i := i + 1;
            exchanged := true;
          }
        } else {
          j := j - 1;
        }
      }
      if exchanged { continue; }
      if i == lp { break; }
      CutGreater(s0, a[..], lo, hi, i, lp, hp, p, cmp);
      lp := lp - 1;
      Qstexc(a, j, lp, i);
      hp := hp - 1;
      j := hp;
    }
    CutDone(s0, a[..], lo, hi, lp, hp, p, cmp);
  }

  // ----- the sort -----

  /** Every pair with a member outside the part from l to h is in order. */
  ghost predicate Settled<T>(s: seq<T>, lo: nat, hi: nat, l: nat, h: nat, cmp: (T, T) -> int) {
    && lo <= l <= h <= hi <= |s|
    && forall x, y | lo <= x < y < hi && (x < l || h <= y) :: cmp(s[x], s[y]) <= 0
  }

  lemma SettledRearranged<T(!new)>(s: seq<T>, t: seq<T>, lo: nat, hi: nat, l: nat, h: nat, cmp: (T, T) -> int)
    requires Settled(s, lo, hi, l, h, cmp) && Rearranged(s, t, l, h)
    ensures Settled(t, lo, hi, l, h, cmp)
  {
    Outside(s, t, l, h);
    forall x, y | lo <= x < y < hi && (x < l || h <= y) ensures cmp(t[x], t[y]) <= 0 {
      var x', y' := x, y;
      if l <= x < h { x' := CameFrom(s, t, l, h, x); }
      if l <= y < h { y' := CameFrom(s, t, l, h, y); }
      assert cmp(s[x'], s[y']) <= 0;
    }
  }

  /** With the greater elements sorted only the lesser ones are left to sort. */
  lemma SortedRight<T(!new)>(t: seq<T>, u: seq<T>, lo: nat, hi: nat, l: nat, h: nat,
                             lp: nat, hp: nat, p: T, cmp: (T, T) -> int)
    requires Preorder(cmp) && Settled(t, lo, hi, l, h, cmp) && Zones(t, l, h, lp, lp, hp, hp, p, cmp)
    requires Rearranged(t, u, hp + 1, h) && Sorted(u[hp + 1..h], cmp)
    ensures Settled(u, lo, hi, l, lp, cmp)
  {
    hide Preorder, Rearranged;
    Outside(t, u, hp + 1, h);
    RearrangedWithin(t, t, u, l, h, hp + 1, h);
    SettledRearranged(t, u, lo, hi, l, h, cmp);
    forall x, y | l <= x < y < h && lp <= y ensures cmp(u[x], u[y]) <= 0 {
      if hp < x {
        assert u[hp + 1..h][x - hp - 1] == u[x] && u[hp + 1..h][y - hp - 1] == u[y];
      } else {
        var y' := y;
        if hp < y { y' := CameFrom(t, u, hp + 1, h, y); }
        Through(t[x], p, t[y'], cmp);
      }
    }
  }

  lemma SortedLeft<T(!new)>(t: seq<T>, u: seq<T>, lo: nat, hi: nat, l: nat, h: nat,
                            lp: nat, hp: nat, p: T, cmp: (T, T) -> int)
    requires Preorder(cmp) && Settled(t, lo, hi, l, h, cmp) && Zones(t, l, h, lp, lp, hp, hp, p, cmp)
    requires Rearranged(t, u, l, lp) && Sorted(u[l..lp], cmp)
    ensures Settled(u, lo, hi, hp + 1, h, cmp)
  {
    hide Preorder, Rearranged;
    Outside(t, u, l, lp);
    RearrangedWithin(t, t, u, l, h, l, lp);
    SettledRearranged(t, u, lo, hi, l, h, cmp);
    forall x, y | l <= x < y < h && x <= hp ensures cmp(u[x], u[y]) <= 0 {
      if y < lp {
        assert u[l..lp][x - l] == u[x] && u[l..lp][y - l] == u[y];
      } else {
        var x' := x;
        if x < lp { x' := CameFrom(t, u, l, lp, x); }
        Through(t[x'], p, t[y], cmp);
      }
    }
  }

  /** What the loop keeps: the rest of a[lo..hi] is done but for a[l..h]. */
  ghost predicate Sorting<T>(s0: seq<T>, s: seq<T>, lo: nat, hi: nat, l: nat, h: nat, cmp: (T, T) -> int) {
    Rearranged(s0, s, lo, hi) && Settled(s, lo, hi, l, h, cmp)
  }

  lemma SortStart<T>(s: seq<T>, lo: nat, hi: nat, cmp: (T, T) -> int)
    requires lo <= hi <= |s|
    ensures Sorting(s, s, lo, hi, lo, hi, cmp) && (lo < hi ==> Pow2(0) <= hi - lo)
  {
  }

  lemma StepRight<T(!new)>(s0: seq<T>, s: seq<T>, t: seq<T>, u: seq<T>, lo: nat, hi: nat, l: nat, h: nat,
                           lp: nat, hp: nat, p: T, cmp: (T, T) -> int)
    requires Preorder(cmp) && Sorting(s0, s, lo, hi, l, h, cmp)
    requires Rearranged(s, t, l, h) && Zones(t, l, h, lp, lp, hp, hp, p, cmp)
    requires Rearranged(t, u, hp + 1, h) && Sorted(u[hp + 1..h], cmp)
    ensures Sorting(s0, u, lo, hi, l, lp, cmp)
  {
    hide Preorder, Rearranged, Sorted;
    SettledRearranged(s, t, lo, hi, l, h, cmp);
    SortedRight(t, u, lo, hi, l, h, lp, hp, p, cmp);
    RearrangedWithin(s0, s, t, lo, hi, l, h);
    RearrangedWithin(s0, t, u, lo, hi, hp + 1, h);
  }

  lemma StepLeft<T(!new)>(s0: seq<T>, s: seq<T>, t: seq<T>, u: seq<T>, lo: nat, hi: nat, l: nat, h: nat,
                          lp: nat, hp: nat, p: T, cmp: (T, T) -> int)
    requires Preorder(cmp) && Sorting(s0, s, lo, hi, l, h, cmp)
    requires Rearranged(s, t, l, h) && Zones(t, l, h, lp, lp, hp, hp, p, cmp)
    requires Rearranged(t, u, l, lp) && Sorted(u[l..lp], cmp)
    ensures Sorting(s0, u, lo, hi, hp + 1, h, cmp)
  {
    hide Preorder, Rearranged, Sorted;
    SettledRearranged(s, t, lo, hi, l, h, cmp);
    SortedLeft(t, u, lo, hi, l, h, lp, hp, p, cmp);
    RearrangedWithin(s0, s, t, lo, hi, l, h);
    RearrangedWithin(s0, t, u, lo, hi, l, lp);
  }

  lemma Pow2Halved(d: nat, m: nat, n: nat)
    requires 2 * m < n && n >= 2 && (m == 0 ==> d == 0) && (m > 0 ==> Pow2(d) <= m)
    ensures Pow2(d + 1) <= n
  {
  }

  /** Sorts a[lo..hi]; depth is how deeply the recursive calls nest, which is at
      most the logarithm of the number of elements. */
  method Qs1<T(!new)>(a: array<T>, lo: nat, hi: nat, cmp: (T, T) -> int) returns (ghost depth: nat)
    requires lo <= hi <= a.Length && Preorder(cmp)
    modifies a
    ensures Rearranged(old(a[..]), a[..], lo, hi)
    ensures Sorted(a[..][lo..hi], cmp)
    ensures if lo < hi then Pow2(depth) <= hi - lo else depth == 0
    decreases hi - lo
  {
    hide Preorder, Rearranged, Zones, Sorting, Sorted, Pow2;
    depth := 0;
    var l, h := lo, hi;
    ghost var s0 := a[..];
    SortStart(s0, lo, hi, cmp);
    while h - l > 1
      invariant lo <= l <= h <= hi
      invariant Sorting(s0, a[..], lo, hi, l, h, cmp)
      invariant if lo < hi then Pow2(depth) <= hi - lo else depth == 0
      decreases h - l
    {
      ghost var s := a[..];
      var lp, hp, p := Partition(a, l, h, cmp);
      ghost var t := a[..];
      ZonesOrder(t, l, h, lp, hp, p, cmp);
      ghost var d;
      if lp - l >= h - hp {
        d := Qs1(a, hp + 1, h, cmp);
        Pow2Halved(d, h - hp - 1, h - l);
        StepRight(s0, s, t, a[..], lo, hi, l, h, lp, hp, p, cmp);
        h := lp;
      } else {
        d := Qs1(a, l, lp, cmp);
        Pow2Halved(d, lp - l, h - l);
        StepLeft(s0, s, t, a[..], lo, hi, l, h, lp, hp, p, cmp);
        l := hp + 1;
      }
      if d + 1 > depth { depth := d + 1; }
    }
    SettledSorted(s0, a[..], lo, hi, l, h, cmp);
  }

  lemma ZonesOrder<T>(t: seq<T>, l: nat, h: nat, lp: nat, hp: nat, p: T, cmp: (T, T) -> int)
    requires Zones(t, l, h, lp, lp, hp, hp, p, cmp)
    ensures l <= lp <= hp < h
  {
  }

  lemma SettledSorted<T>(s0: seq<T>, s: seq<T>, lo: nat, hi: nat, l: nat, h: nat, cmp: (T, T) -> int)
    requires Sorting(s0, s, lo, hi, l, h, cmp) && h - l <= 1
    ensures Rearranged(s0, s, lo, hi) && Sorted(s[lo..hi], cmp)
  {
    var r := s[lo..hi];
    forall i, j | 0 <= i < j < |r| ensures cmp(r[i], r[j]) <= 0 {
      assert r[i] == s[lo + i] && r[j] == s[lo + j];
    }
  }

  /** qsort: the first n elements come out in order, and they are the same ones. */
  method Qsort<T(!new)>(a: array<T>, n: nat, cmp: (T, T) -> int)
    requires n <= a.Length && Preorder(cmp)
    modifies a
    ensures Sorted(a[..n], cmp)
    ensures multiset(a[..n]) == multiset(old(a[..n])) && a[n..] == old(a[n..])
  {
    ghost var s := a[..];
    ghost var depth := Qs1(a, 0, n, cmp);
    assert a[..n] == a[0..n] == a[..][0..n] && a[n..] == a[..][n..];
    assert old(a[..n]) == s[0..n] && old(a[n..]) == s[n..];
  }
}
