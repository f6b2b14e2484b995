/**
 The profiler's trimming (MTProfiler_Lib.h and .cpp): each entry keeps the three smallest and the
 three largest of its samples in two arrays, by shifting and inserting, and the average is taken
 over the samples without them.
 */
module Profiler {

  const ABNORMAL_BUFFER_SIZE: nat := 3
  const INT_MAX := 0x7fff_ffff

  // ----- Sorting, as the reference --------------------------------------------------------

  ghost predicate Ascending(t: seq<int>) {
    forall i, j :: 0 <= i < j < |t| ==> t[i] <= t[j]
  }

  function Insert(t: seq<int>, x: int): (r: seq<int>)
    ensures |r| == |t| + 1
  {
    if t == [] then [x] else if x < t[0] then [x] + t else [t[0]] + Insert(t[1..], x)
  }

  function Sorted(s: seq<int>): (r: seq<int>)
    ensures |r| == |s|
  {
    if s == [] then [] else Insert(Sorted(s[..|s| - 1]), s[|s| - 1])
  }

  function Sum(s: seq<int>): int {
    if s == [] then 0 else Sum(s[..|s| - 1]) + s[|s| - 1]
  }

  /** Where the new element lands: behind what is not greater and before what is not smaller. */
  lemma {:induction false} InsertAt(t: seq<int>, x: int, i: nat)
    requires Ascending(t) && i <= |t|
    requires forall k :: 0 <= k < i ==> t[k] <= x
    requires forall k :: i <= k < |t| ==> x <= t[k]
    ensures Insert(t, x) == t[..i] + [x] + t[i..]
  {
    if t != [] && !(x < t[0]) {
      InsertAt(t[1..], x, if i == 0 then 0 else i - 1);
    }
  }

  /** There is such a place. */
  lemma {:induction false} Place(t: seq<int>, x: int) returns (i: nat)
    requires Ascending(t)
    ensures i <= |t|
    ensures forall k :: 0 <= k < i ==> t[k] <= x
    ensures forall k :: i <= k < |t| ==> x < t[k]
  {
    if t == [] || x < t[0] {
      i := 0;
    } else {
      i := Place(t[1..], x);
      i := i + 1;
      assert forall k :: 0 < k < |t| ==> t[k] == t[1..][k - 1];
    }
  }

  /** And one that leaves its equals behind it. */
  lemma {:induction false} LowPlace(t: seq<int>, x: int) returns (i: nat)
    requires Ascending(t)
    ensures i <= |t|
    ensures forall k :: 0 <= k < i ==> t[k] < x
    ensures forall k :: i <= k < |t| ==> x <= t[k]
  {
    if t == [] || x <= t[0] {
      i := 0;
    } else {
      i := LowPlace(t[1..], x);
      i := i + 1;
      assert forall k :: 0 < k < |t| ==> t[k] == t[1..][k - 1];
    }
  }

  lemma InsertAscends(t: seq<int>, x: int)
    requires Ascending(t)
    ensures Ascending(Insert(t, x)) && multiset(Insert(t, x)) == multiset(t) + multiset{x}
  {
    hide Insert;
    var i := Place(t, x);
    InsertAt(t, x, i);
    assert t == t[..i] + t[i..];
  }

  /** Sorted is what its name says. */
  lemma {:induction false} SortedIsSorted(s: seq<int>)
    ensures Ascending(Sorted(s)) && multiset(Sorted(s)) == multiset(s)
  {
    hide Insert;
    if s != [] {
      SortedIsSorted(s[..|s| - 1]);
      InsertAscends(Sorted(s[..|s| - 1]), s[|s| - 1]);
      assert s == s[..|s| - 1] + [s[|s| - 1]];
    }
  }

  /** One more element goes to any place that fits. */
  lemma SortedNext(s: seq<int>, x: int, i: nat)
    requires i <= |s|
    requires forall k :: 0 <= k < i ==> Sorted(s)[k] <= x
    requires forall k :: i <= k < |s| ==> x <= Sorted(s)[k]
    ensures Sorted(s + [x]) == Sorted(s)[..i] + [x] + Sorted(s)[i..]
  {
    hide Insert;
    assert (s + [x])[..|s|] == s;
    SortedIsSorted(s);
    InsertAt(Sorted(s), x, i);
  }

  lemma SortedPlace(s: seq<int>, x: int) returns (i: nat)
    ensures i <= |s|
    ensures forall k :: 0 <= k < i ==> Sorted(s)[k] <= x
    ensures forall k :: i <= k < |s| ==> x < Sorted(s)[k]
    ensures Sorted(s + [x]) == Sorted(s)[..i] + [x] + Sorted(s)[i..]
  {
    SortedIsSorted(s);
    i := Place(Sorted(s), x);
    SortedNext(s, x, i);
  }

  /** The three smallest samples, with INT_MAX for those that are missing. */
  function Smallest(s: seq<int>): (r: seq<int>)
    ensures |r| == 3
  {
    Sorted([INT_MAX, INT_MAX, INT_MAX] + s)[..3]
  }

  /** The three largest samples, largest last, with 0 for those that are missing. */
  function Largest(s: seq<int>): (r: seq<int>)
    ensures |r| == 3
  {
    Sorted([0, 0, 0] + s)[|s|..]
  }

  function Reversed(t: seq<int>): (r: seq<int>)
    ensures |r| == |t|
  {
    seq(|t|, i requires 0 <= i < |t| => t[|t| - 1 - i])
  }

  // ----- One more sample ------------------------------------------------------------------

  lemma SmallestNext(s: seq<int>, x: int, i: nat)
    requires i <= 3
    requires forall k :: 0 <= k < i ==> Smallest(s)[k] <= x
    requires forall k :: i <= k < 3 ==> x <= Smallest(s)[k]
    ensures Smallest(s + [x]) == (Smallest(s)[..i] + [x] + Smallest(s)[i..])[..3]
  {
    hide Sorted;
    var padded := [INT_MAX, INT_MAX, INT_MAX] + s;
    assert [INT_MAX, INT_MAX, INT_MAX] + (s + [x]) == padded + [x];
    SortedIsSorted(padded);
    var t := Sorted(padded);
    assert forall k :: 0 <= k < 3 ==> t[k] == Smallest(s)[k];
    if i < 3 {
      assert x <= t[i];
      SortedNext(padded, x, i);
    } else {
      var p := SortedPlace(padded, x);
    }
  }

  /** The last three of a sequence after one more element among them. */
  lemma LastThree(t: seq<int>, n: nat, x: int, i: nat)
    requires |t| == n + 3 && 0 < i <= 3
    ensures (t[..n + i] + [x] + t[n + i..])[n + 1..] == (t[n..][..i] + [x] + t[n..][i..])[1..]
  {
    assert t[..n + i][n + 1..] == t[n..][..i][1..] && t[n + i..] == t[n..][i..];
  }

  lemma LargestAbove(s: seq<int>, x: int, i: nat)
    requires 0 < i <= 3
    requires forall k :: 0 <= k < i ==> Largest(s)[k] <= x
    requires forall k :: i <= k < 3 ==> x <= Largest(s)[k]
    ensures Largest(s + [x]) == (Largest(s)[..i] + [x] + Largest(s)[i..])[1..]
  {
    hide Sorted;
    var padded := [0, 0, 0] + s;
    assert [0, 0, 0] + (s + [x]) == padded + [x];
    SortedIsSorted(padded);
    var t := Sorted(padded);
    assert Largest(s)[i - 1] == t[|s| + i - 1];
    assert forall k :: |s| <= k < |t| ==> t[k] == Largest(s)[k - |s|];
    SortedNext(padded, x, |s| + i);
    LastThree(t, |s|, x, i);
  }

  lemma LargestBelow(s: seq<int>, x: int)
    requires x <= Largest(s)[0]
    ensures Largest(s + [x]) == Largest(s)
  {
    hide Sorted;
    var padded := [0, 0, 0] + s;
    assert [0, 0, 0] + (s + [x]) == padded + [x];
    SortedIsSorted(padded);
    var t := Sorted(padded);
    assert Largest(s)[0] == t[|s|];
    var p := LowPlace(t, x);
    SortedNext(padded, x, p);
    assert p <= |s|;
    DropLonger(t, x, p, |s|);
  }

  lemma DropLonger(t: seq<int>, x: int, p: nat, n: nat)
    requires p <= n <= |t|
    ensures (t[..p] + [x] + t[p..])[n + 1..] == t[n..]
  {
    assert t[p..][n - p..] == t[n..];
  }

  lemma LargestNext(s: seq<int>, x: int, i: nat)
    requires i <= 3
    requires forall k :: 0 <= k < i ==> Largest(s)[k] <= x
    requires forall k :: i <= k < 3 ==> x <= Largest(s)[k]
    ensures Largest(s + [x]) == (Largest(s)[..i] + [x] + Largest(s)[i..])[1..]
  {
    hide Largest;
    if i > 0 { LargestAbove(s, x, i); } else { LargestBelow(s, x); }
  }

  // ----- The sums -------------------------------------------------------------------------

  lemma {:induction false} SumParts(a: seq<int>, b: seq<int>)
    ensures Sum(a + b) == Sum(a) + Sum(b)
  {
    if b == [] {
      assert a + b == a;
    } else {
      assert (a + b)[..|a + b| - 1] == a + b[..|b| - 1];
      SumParts(a, b[..|b| - 1]);
    }
  }

  lemma {:induction false} SumSorted(s: seq<int>)
    ensures Sum(Sorted(s)) == Sum(s)
  {
    hide Sorted, Insert;
    if s == [] {
      assert Sorted(s) == [];
    } else {
      var r, x := s[..|s| - 1], s[|s| - 1];
      SumSorted(r);
      var t := Sorted(r);
      var i := SortedPlace(r, x);
      assert s == r + [x] && t == t[..i] + t[i..];
      SumParts(t[..i], t[i..]);
      SumParts(t[..i] + [x], t[i..]);
      assert (t[..i] + [x])[..i] == t[..i];
    }
  }

  ghost predicate NonNegative(s: seq<int>) {
    forall i :: 0 <= i < |s| ==> 0 <= s[i]
  }

  lemma {:induction false} SumNonNegative(s: seq<int>)
    requires NonNegative(s)
    ensures Sum(s) >= 0
  {
    if s != [] {
      SumNonNegative(s[..|s| - 1]);
    }
  }

  /** Zeros below non-negative samples stay at the bottom. */
  lemma {:induction false} ZerosBelow(s: seq<int>)
    requires NonNegative(s)
    ensures Sorted([0, 0, 0] + s) == [0, 0, 0] + Sorted(s)
  {
    hide Sorted;
    var pad := [0, 0, 0];
    if s == [] {
      assert pad + s == pad && Sorted(s) == [];
      SortedIsSorted(pad);
      AllTheSame(Sorted(pad), 0);
    } else {
      var r, x := s[..|s| - 1], s[|s| - 1];
      ZerosBelow(r);
      assert s == r + [x] && pad + s == (pad + r) + [x];
      var i := SortedPlace(r, x);
      SortedNext(pad + r, x, i + 3);
    }
  }

  lemma AllTheSame(t: seq<int>, x: int)
    requires |t| == 3 && multiset(t) == multiset{x, x, x}
    ensures t == [x, x, x]
  {
    assert forall i :: 0 <= i < 3 ==> t[i] in multiset(t);
  }

  /** With more than six samples, no sample negative, the six extremes never add up to more than
      all samples: what is left to average is not negative. */
  lemma ExtremesFit(s: seq<int>)
    requires |s| > 2 * ABNORMAL_BUFFER_SIZE && NonNegative(s)
    ensures Sum(Smallest(s)) + Sum(Largest(s)) <= Sum(s)
  {
    hide Sum, Sorted, NonNegative, Largest;
    var t, n := Sorted(s), |s|;
    SortedIsSorted(s);
    ThreeParts(s);
    SmallestAt(s, 0);
    SmallestAt(s, 1);
    SmallestAt(s, 2);
    assert forall k :: 0 <= k < 3 ==> Smallest(s)[k] <= t[..3][k];
    SumOfThree(Smallest(s));
    SumOfThree(t[..3]);
    StaysNonNegative(s, t);
    SumNonNegative(t[3..n - 3]);
  }

  lemma StaysNonNegative(s: seq<int>, t: seq<int>)
    requires NonNegative(s) && multiset(s) == multiset(t) && |t| >= 6
    ensures NonNegative(t[3..|t| - 3])
  {
    assert forall i :: 0 <= i < |t| ==> t[i] in multiset(t);
    assert forall x :: x in multiset(s) ==> x in s;
  }

  lemma SumOfThree(t: seq<int>)
    requires |t| == 3
    ensures Sum(t) == t[0] + t[1] + t[2]
  {
    assert t[..2][..1] == t[..1] && t[..1][..0] == [];
    assert Sum(t[..1]) == t[0] && Sum(t[..2]) == t[0] + t[1];
  }

  function Min(x: int, y: int): int { if x < y then x else y }

  /** The three smallest, one by one: INT_MAX stands in for what is larger. */
  lemma {:induction false} SmallestAt(s: seq<int>, k: nat)
    requires k < 3
    ensures Smallest(s)[k] == if k < |s| then Min(Sorted(s)[k], 0x7fff_ffff) else 0x7fff_ffff
  {
    hide Sorted;
    var pad := [INT_MAX, INT_MAX, INT_MAX];
    if s == [] {
      assert pad + s == pad;
      SortedIsSorted(pad);
      AllTheSame(Sorted(pad), INT_MAX);
    } else {
      var r, x := s[..|s| - 1], s[|s| - 1];
      assert s == r + [x] && pad + s == (pad + r) + [x];
      SmallestAt(r, k);
      if k > 0 { SmallestAt(r, k - 1); }
      if k < |s| { Shifted(r, x, k); }
      Shifted(pad + r, x, k);
    }
  }

  /** Of three samples or more, none too large for an int, the array holds exactly the three smallest. */
  lemma ThreeSmallest(s: seq<int>)
    requires |s| >= 3 && forall k :: 0 <= k < |s| ==> s[k] <= 0x7fff_ffff
    ensures Smallest(s) == Sorted(s)[..3]
  {
    hide Sorted, Smallest;
    SortedIsSorted(s);
    forall k | 0 <= k < 3 ensures Smallest(s)[k] == Sorted(s)[k] {
      SmallestAt(s, k);
      assert Sorted(s)[k] in multiset(s);
    }
  }

  /** What stands at a place after one more element. */
  lemma Shifted(s: seq<int>, x: int, k: nat)
    requires k <= |s|
    ensures Sorted(s + [x])[k] == if k < |s| && Sorted(s)[k] <= x then Sorted(s)[k]
                                  else if k == 0 || Sorted(s)[k - 1] <= x then x
                                  else Sorted(s)[k - 1]
  {
    hide Sorted;
    SortedIsSorted(s);
    var i := SortedPlace(s, x);
  }

  lemma ThreeParts(s: seq<int>)
    requires |s| > 2 * ABNORMAL_BUFFER_SIZE && NonNegative(s)
    ensures var t, n := Sorted(s), |s|;
            && Largest(s) == t[n - 3..]
            && Sum(s) == Sum(t[..3]) + Sum(t[3..n - 3]) + Sum(t[n - 3..])
  {
    hide Sum, Sorted;
    var t, n := Sorted(s), |s|;
    SumSorted(s);
    ZerosBelow(s);
    assert t == t[..3] + t[3..n - 3] + t[n - 3..];
    SumParts(t[..3] + t[3..n - 3], t[n - 3..]);
    SumParts(t[..3], t[3..n - 3]);
  }

  /** What is averaged is the sum of the middle samples if and only if the three smallest fit in an
      int; durations above INT_MAX among them leave padding in the array. */
  lemma MiddleIsLeft(s: seq<int>)
    requires |s| > 2 * ABNORMAL_BUFFER_SIZE && NonNegative(s)
    ensures Sum(s) - (Sum(Smallest(s)) + Sum(Largest(s))) == Sum(Sorted(s)[3..|s| - 3]) <==> Sorted(s)[2] <= 0x7fff_ffff
  {
    ThreeParts(s);
    SortedIsSorted(s);
    hide Sum, Sorted, Largest;
    var a, p := Sorted(s)[..3], Smallest(s);
    SmallestAt(s, 0);
    SmallestAt(s, 1);
    SmallestAt(s, 2);
    SumOfThree(a);
    SumOfThree(p);
    assert p[0] == Min(a[0], INT_MAX) && p[1] == Min(a[1], INT_MAX) && p[2] == Min(a[2], INT_MAX);
  }

  // ----- The entry ------------------------------------------------------------------------

  class ProfileEntry {
    var mTotalTime: int
    var mTotalCnt: int
    const mMin: array<int>
    const mMax: array<int>
    ghost var samples: seq<int>     // since construction or the last InitEntry

    ghost predicate Valid()
      reads this, mMin, mMax
    {
      && mMin.Length == mMax.Length == ABNORMAL_BUFFER_SIZE && mMin != mMax
      && mTotalCnt == |samples|
      && mTotalTime == Sum(samples)
      && mMin[..] == Smallest(samples)
      && mMax[..] == Reversed(Largest(samples))
    }

    constructor ()
      ensures Valid() && samples == [] && fresh(mMin) && fresh(mMax)
    {
      mTotalTime, mTotalCnt, samples := 0, 0, [];
      mMin := new int[ABNORMAL_BUFFER_SIZE](_ => INT_MAX);
      mMax := new int[ABNORMAL_BUFFER_SIZE](_ => 0);
      new;
      hide Smallest, Largest;
      NoSamples(mMin[..], mMax[..]);
    }

    method InitEntry()
      requires Valid()
      modifies this, mMin, mMax
      ensures Valid() && samples == []
    {
      hide Smallest, Largest;
      mTotalTime, mTotalCnt, samples := 0, 0, [];
      for i := 0 to ABNORMAL_BUFFER_SIZE
        invariant mTotalTime == 0 && mTotalCnt == 0 && samples == []
        invariant forall k :: 0 <= k < i ==> mMin[k] == INT_MAX && mMax[k] == 0
      {
        mMin[i] := INT_MAX;
        mMax[i] := 0;
      }
      NoSamples(mMin[..], mMax[..]);
    }

    static lemma NoSamples(min: seq<int>, max: seq<int>)
      requires |min| == |max| == 3 && forall k :: 0 <= k < 3 ==> min[k] == INT_MAX && max[k] == 0
      ensures min == Smallest([]) && max == Reversed(Largest([]))
    {
      hide Sorted;
      assert [INT_MAX, INT_MAX, INT_MAX] + [] == [INT_MAX, INT_MAX, INT_MAX] && [0, 0, 0] + [] == [0, 0, 0];
      SortedIsSorted([INT_MAX, INT_MAX, INT_MAX]);
      AllTheSame(Sorted([INT_MAX, INT_MAX, INT_MAX]), INT_MAX);
      SortedIsSorted([0, 0, 0]);
      AllTheSame(Sorted([0, 0, 0]), 0);
    }

    /** From line 72 on: the entry has been found. */
    method UpdateEntry(distanceTime: int)
      requires Valid()
      modifies this, mMin, mMax
      ensures Valid() && samples == old(samples) + [distanceTime]
    {
      hide Smallest, Largest, Sum;
      ghost var s := samples;
      SumNext(s, distanceTime);
      mTotalCnt := mTotalCnt + 1;
      mTotalTime := mTotalTime + distanceTime;
      KeepSmallest(s, distanceTime);
      KeepLargest(s, distanceTime);
      samples := samples + [distanceTime];
    }

    static lemma SumNext(s: seq<int>, x: int)
      ensures Sum(s + [x]) == Sum(s) + x
    {
      assert (s + [x])[..|s|] == s;
    }

    method KeepSmallest(ghost s: seq<int>, distanceTime: int)
      requires mMin.Length == 3 && mMin[..] == Smallest(s)
      modifies mMin
      ensures mMin[..] == Smallest(s + [distanceTime])
    {
      hide Smallest;
      ghost var was := mMin[..];
      if distanceTime < mMin[ABNORMAL_BUFFER_SIZE - 1] {
        for i := 0 to ABNORMAL_BUFFER_SIZE
          invariant mMin[..] == was && forall k :: 0 <= k < i ==> was[k] <= distanceTime
        {
          if mMin[i] > distanceTime {
            var j := ABNORMAL_BUFFER_SIZE - 1;
            while j != i
              invariant i <= j < 3
              invariant forall k :: 0 <= k <= j ==> mMin[k] == was[k]
              invariant forall k :: j < k < 3 ==> mMin[k] == was[k - 1]
            {
              mMin[j] := mMin[j - 1];
              j := j - 1;
            }
            mMin[i] := distanceTime;
            SmallestAscends(s);
            SmallestNext(s, distanceTime, i);
            return;
          }
        }
      } else {
        SmallestAscends(s);
        SmallestNext(s, distanceTime, 3);
      }
    }

    static lemma SmallestAscends(s: seq<int>)
      ensures Ascending(Smallest(s))
    {
      SortedIsSorted([INT_MAX, INT_MAX, INT_MAX] + s);
    }

    method KeepLargest(ghost s: seq<int>, distanceTime: int)
      requires mMax.Length == 3 && mMax[..] == Reversed(Largest(s))
      modifies mMax
      ensures mMax[..] == Reversed(Largest(s + [distanceTime]))
    {
      hide Largest;
      ghost var was := mMax[..];
      LargestAscends(s);
      assert forall k :: 0 <= k < 3 ==> Largest(s)[k] == was[2 - k];
      if mMax[ABNORMAL_BUFFER_SIZE - 1] < distanceTime {
        for i := 0 to ABNORMAL_BUFFER_SIZE
          invariant mMax[..] == was && forall k :: 0 <= k < i ==> was[k] >= distanceTime
        {
          if mMax[i] < distanceTime {
            var j := ABNORMAL_BUFFER_SIZE - 1;
            while j != i
              invariant i <= j < 3
              invariant forall k :: 0 <= k <= j ==> mMax[k] == was[k]
              invariant forall k :: j < k < 3 ==> mMax[k] == was[k - 1]
            {
              mMax[j] := mMax[j - 1];
              j := j - 1;
            }
            mMax[i] := distanceTime;
            LargestNext(s, distanceTime, 3 - i);
            return;
          }
        }
      } else {
        LargestNext(s, distanceTime, 0);
      }
    }

    static lemma LargestAscends(s: seq<int>)
      ensures Ascending(Largest(s))
    {
      SortedIsSorted([0, 0, 0] + s);
    }

    /** The numerator of the average that CreateProfile writes, and whether its check stops in the
        debugger: never, when no duration is negative. */
    method Trim() returns (totalTime: int, stopped: bool)
      requires Valid() && mTotalCnt > 2 * ABNORMAL_BUFFER_SIZE
      ensures totalTime == Sum(samples) - (Sum(Smallest(samples)) + Sum(Largest(samples)))
      ensures NonNegative(samples) ==> !stopped && totalTime >= 0
      ensures NonNegative(samples) ==>
                (totalTime == Sum(Sorted(samples)[3..|samples| - 3]) <==> Sorted(samples)[2] <= 0x7fff_ffff)
    {
      hide Sum, Smallest, Largest, Sorted;
      var abnormalSum := 0;
      for j := 0 to ABNORMAL_BUFFER_SIZE
        invariant abnormalSum == if j == 0 then 0 else if j == 1 then mMin[0] + mMax[0]
                                 else if j == 2 then mMin[0] + mMax[0] + mMin[1] + mMax[1]
                                 else mMin[0] + mMax[0] + mMin[1] + mMax[1] + mMin[2] + mMax[2]
      {
        abnormalSum := abnormalSum + mMin[j];
        abnormalSum := abnormalSum + mMax[j];
      }
      totalTime := mTotalTime;
      stopped := totalTime < abnormalSum;
      totalTime := totalTime - abnormalSum;
      SumOfThree(Smallest(samples));
      SumOfThree(Largest(samples));
      if NonNegative(samples) {
        ExtremesFit(samples);
        MiddleIsLeft(samples);
      }
    }
  }
}
