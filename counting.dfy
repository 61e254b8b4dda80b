/**
 * Counting helpers shared by the aggregation handlers: sums, fixed-bucket
 * tallies and counts of matching elements.
 */
module Counting {
  /** The sum of a sequence of counts. */
  function Sum(s: seq<nat>): nat {
    if s == [] then 0 else Sum(s[..|s| - 1]) + s[|s| - 1]
  }

  lemma {:induction false} SumAppend(s: seq<nat>, x: nat)
    ensures Sum(s + [x]) == Sum(s) + x
  {
    assert (s + [x])[..|s|] == s;
  }

  /** Adding one at position k adds one to the sum. */
  lemma {:induction false} SumBump(s: seq<nat>, k: nat)
    requires k < |s|
    ensures Sum(s[k := s[k] + 1]) == Sum(s) + 1
  {
    var t := s[k := s[k] + 1];
    if k == |s| - 1 {
      assert t[..|t| - 1] == s[..|s| - 1];
    } else {
      SumBump(s[..|s| - 1], k);
      assert t[..|t| - 1] == s[..|s| - 1][k := s[k] + 1];
    }
  }

  /** The all-zero sequence of the given width sums to zero. */
  lemma {:induction false} SumZeros(width: nat)
    ensures Sum(seq(width, _ => 0)) == 0
  {
    if width > 0 {
      assert seq(width, _ => 0)[..width - 1] == seq(width - 1, _ => 0);
      SumZeros(width - 1);
    }
  }

  /** `counts[k] += 1` for a bucket the table has; other keys leave it unchanged. */
  function Bump(counts: seq<nat>, k: int): (r: seq<nat>)
    ensures |r| == |counts|
    ensures forall j | 0 <= j < |counts| :: r[j] == counts[j] + (if j == k then 1 else 0)
  {
    if 0 <= k < |counts| then counts[k := counts[k] + 1] else counts
  }

  /**
   * A fixed table of `width` counters, zero-initialised, with one `Bump` per
   * element at the index `bucket` chooses.
   */
  function Tally<T>(s: seq<T>, bucket: T -> int, width: nat): (c: seq<nat>)
    ensures |c| == width
  {
    if s == [] then seq(width, _ => 0) else Bump(Tally(s[..|s| - 1], bucket, width), bucket(s[|s| - 1]))
  }

  /** How many elements `bucket` sends to `k`. */
  function CountIn<T>(s: seq<T>, bucket: T -> int, k: int): nat {
    if s == [] then 0 else CountIn(s[..|s| - 1], bucket, k) + (if bucket(s[|s| - 1]) == k then 1 else 0)
  }

  /** How many elements `bucket` sends outside the table. */
  function CountOutside<T>(s: seq<T>, bucket: T -> int, width: nat): (n: nat)
    ensures n <= |s|
  {
    if s == [] then 0
    else CountOutside(s[..|s| - 1], bucket, width) + (if 0 <= bucket(s[|s| - 1]) < width then 0 else 1)
  }

  /** Counter k of the tally counts exactly the elements sent to k. */
  lemma {:induction false} TallyAt<T>(s: seq<T>, bucket: T -> int, width: nat, k: nat)
    requires k < width
    ensures Tally(s, bucket, width)[k] == CountIn(s, bucket, k)
  {
    if s != [] {
      TallyAt(s[..|s| - 1], bucket, width, k);
    }
  }

  /** Each element is counted once, unless its bucket is outside the table. */
  lemma {:induction false} TallySum<T>(s: seq<T>, bucket: T -> int, width: nat)
    ensures Sum(Tally(s, bucket, width)) + CountOutside(s, bucket, width) == |s|
  {
    if s == [] {
      SumZeros(width);
    } else {
      var init := s[..|s| - 1];
      TallySum(init, bucket, width);
      var k := bucket(s[|s| - 1]);
      if 0 <= k < width {
        SumBump(Tally(init, bucket, width), k);
      }
    }
  }

  /** No element falls outside the table exactly when every bucket index is in range. */
  lemma {:induction false} NoneOutside<T>(s: seq<T>, bucket: T -> int, width: nat)
    ensures CountOutside(s, bucket, width) == 0 <==> forall i | 0 <= i < |s| :: 0 <= bucket(s[i]) < width
  {
    if s != [] {
      var init := s[..|s| - 1];
      NoneOutside(init, bucket, width);
      assert forall i | 0 <= i < |init| :: s[i] == init[i];
    }
  }

  /** When every element lands in the table, the counters sum to the number of elements. */
  lemma TallyCoversAll<T>(s: seq<T>, bucket: T -> int, width: nat)
    requires forall i | 0 <= i < |s| :: 0 <= bucket(s[i]) < width
    ensures Sum(Tally(s, bucket, width)) == |s|
  {
    TallySum(s, bucket, width);
    NoneOutside(s, bucket, width);
  }

  /** Tallying one more element is one more `Bump` (the step a loop takes). */
  lemma TallySnoc<T>(s: seq<T>, x: T, bucket: T -> int, width: nat)
    ensures Tally(s + [x], bucket, width) == Bump(Tally(s, bucket, width), bucket(x))
  {
    assert (s + [x])[..|s|] == s;
  }

  /** One more element bumps the counter its bucket names. */
  lemma TallyStep<T>(s: seq<T>, i: nat, bucket: T -> int, width: nat, counts: seq<nat>, k: int)
    requires i < |s| && counts == Tally(s[..i], bucket, width) && k == bucket(s[i])
    ensures |counts| == width
    ensures 0 <= k < width ==> counts[k := counts[k] + 1] == Tally(s[..i + 1], bucket, width)
    ensures !(0 <= k < width) ==> counts == Tally(s[..i + 1], bucket, width)
  {
    assert s[..i + 1] == s[..i] + [s[i]];
    TallySnoc(s[..i], s[i], bucket, width);
  }

  lemma SumOfThree(s: seq<nat>)
    requires |s| == 3
    ensures Sum(s) == s[0] + s[1] + s[2]
  {
    var a, b := s[..2], s[..2][..1];
    assert b[..0] == [];
    assert Sum(b) == s[0];
    assert a[..1] == b;
    assert Sum(a) == s[0] + s[1];
    assert s[..2] == a;
  }

  lemma SumOfFour(s: seq<nat>)
    requires |s| == 4
    ensures Sum(s) == s[0] + s[1] + s[2] + s[3]
  {
    SumOfThree(s[..3]);
  }
}
