/** The trailing rolling mean of an intensity series (partial windows allowed at the
    start of the series) and the first position where it peaks. */
module Rolling {
  import opened RealSums

  /** Python's round() on a real: to the nearest integer, ties to the even one. */
  function RoundHalfEven(x: real): (n: int)
    ensures x - 0.5 <= n as real <= x + 0.5
    ensures (n as real - x == 0.5 || x - n as real == 0.5) ==> n % 2 == 0
  {
    var f := x.Floor;
    var frac := x - f as real;
    if frac < 0.5 then f
    else if frac > 0.5 then f + 1
    else if f % 2 == 0 then f
    else f + 1
  }

  /** First position of the trailing window of `size` samples that ends at `pos`. */
  function WindowStart(pos: int, size: int): (start: int)
    requires 0 <= pos && 1 <= size
    ensures 0 <= start <= pos
    ensures pos - start + 1 <= size
    ensures start == 0 || pos - start + 1 == size
  {
    if pos - size + 1 < 0 then 0 else pos - size + 1
  }

  /** Mean of the (at most `size`) samples of the trailing window ending at `i`. */
  function RollingMean(s: seq<real>, size: int, i: int): real
    requires 1 <= size && 0 <= i < |s|
  {
    var lo := WindowStart(i, size);
    Sum(s[lo..i + 1]) / (i + 1 - lo) as real
  }

  /** Position of the first maximum of the rolling mean among positions 0 .. n-1. */
  function PeakPos(s: seq<real>, size: int, n: int): (p: nat)
    requires 1 <= size && 0 < n <= |s|
    ensures p < n
  {
    if n == 1 then 0
    else
      var q := PeakPos(s, size, n - 1);
      if RollingMean(s, size, n - 1) > RollingMean(s, size, q) then n - 1 else q
  }

  /** PeakPos is a maximum of the rolling mean, and no earlier position reaches it. */
  lemma {:induction false} PeakPosIsFirstMaximum(s: seq<real>, size: int, n: int)
    requires 1 <= size && 0 < n <= |s|
    ensures forall j :: 0 <= j < n ==> RollingMean(s, size, j) <= RollingMean(s, size, PeakPos(s, size, n))
    ensures forall j :: 0 <= j < PeakPos(s, size, n) ==> RollingMean(s, size, j) < RollingMean(s, size, PeakPos(s, size, n))
  {
    if n > 1 {
      PeakPosIsFirstMaximum(s, size, n - 1);
    }
  }

  /** A rolling mean of samples that all lie in [lo, hi] lies in [lo, hi]. */
  lemma RollingMeanWithin(s: seq<real>, size: int, i: int, lo: real, hi: real)
    requires 1 <= size && 0 <= i < |s|
    requires forall k :: 0 <= k < |s| ==> lo <= s[k] <= hi
    ensures lo <= RollingMean(s, size, i) <= hi
  {
    var start := WindowStart(i, size);
    var w := s[start..i + 1];
    assert forall k :: 0 <= k < |w| ==> w[k] == s[start + k];
    MeanWithin(w, lo, hi);
  }

  lemma SumExtend(s: seq<real>, lo: int, hi: int)
    requires 0 <= lo <= hi < |s|
    ensures Sum(s[lo..hi + 1]) == Sum(s[lo..hi]) + s[hi]
  {
    assert s[lo..hi + 1][..hi - lo] == s[lo..hi];
  }

  lemma SumSlide(s: seq<real>, lo: int, hi: int)
    requires 0 <= lo < hi <= |s|
    ensures Sum(s[lo + 1..hi]) == Sum(s[lo..hi]) - s[lo]
  {
    SumFront(s[lo..hi]);
    assert s[lo..hi][1..] == s[lo + 1..hi];
  }

  lemma RollingMeanOf(s: seq<real>, size: int, i: int, sum: real)
    requires 1 <= size && 0 <= i < |s|
    requires sum == Sum(s[WindowStart(i, size)..i + 1])
    ensures RollingMean(s, size, i) == sum / (if i + 1 < size then i + 1 else size) as real
  {
  }

  /** Moves the running window sum from the window ending before `i` to the one ending at `i`. */
  method AdvanceWindow(s: seq<real>, size: int, i: int, sum: real) returns (next: real)
    requires 1 <= size && 0 <= i < |s|
    requires sum == Sum(s[(if i < size then 0 else i - size)..i])
    ensures next == Sum(s[WindowStart(i, size)..i + 1])
  {
    var lo := if i < size then 0 else i - size;
    SumExtend(s, lo, i);
    next := sum + s[i];
    if i >= size {
      SumSlide(s, lo, i + 1);
      next := next - s[i - size];
    }
  }

  lemma PeakPosNext(s: seq<real>, size: int, i: int)
    requires 1 <= size && 0 < i < |s|
    ensures PeakPos(s, size, i + 1) ==
      if RollingMean(s, size, i) > RollingMean(s, size, PeakPos(s, size, i)) then i else PeakPos(s, size, i)
  {
  }

  /** One step of the scan: folds sample `i` into the running window sum and into the
      first position of the largest trailing mean seen so far. */
  method ScanStep(s: seq<real>, size: int, i: int, sum: real, peak: real, pos: nat)
    returns (sum': real, peak': real, pos': nat)
    requires 1 <= size && 0 <= i < |s|
    requires sum == Sum(s[(if i < size then 0 else i - size)..i])
    requires 0 < i ==> pos == PeakPos(s, size, i) && peak == RollingMean(s, size, pos)
    ensures sum' == Sum(s[WindowStart(i, size)..i + 1])
    ensures pos' == PeakPos(s, size, i + 1) && peak' == RollingMean(s, size, pos')
  {
    sum' := AdvanceWindow(s, size, i, sum);
    var count := if i + 1 < size then i + 1 else size;
    var mean := sum' / count as real;
    RollingMeanOf(s, size, i, sum');
    if 0 < i {
      PeakPosNext(s, size, i);
    }
    if i == 0 || mean > peak {
      peak', pos' := mean, i;
    } else {
      peak', pos' := peak, pos;
    }
  }

  /** Running-sum scan of the series: adds the newest sample, drops the one that
      falls out of the window, and keeps the first position of the largest mean. */
  method PeakWindow(s: seq<real>, size: int) returns (peak: real, pos: nat)
    requires 1 <= size && 0 < |s|
    ensures pos == PeakPos(s, size, |s|)
    ensures pos < |s| && peak == RollingMean(s, size, pos)
    ensures forall j :: 0 <= j < |s| ==> RollingMean(s, size, j) <= peak
    ensures forall j :: 0 <= j < pos ==> RollingMean(s, size, j) < peak
  {
    var sum := 0.0;
    peak, pos := 0.0, 0;
    var i := 0;
    while i < |s|
      invariant 0 <= i <= |s|
      invariant sum == Sum(s[(if i < size then 0 else i - size)..i])
      invariant 0 < i ==> pos == PeakPos(s, size, i) && peak == RollingMean(s, size, pos)
    {
      sum, peak, pos := ScanStep(s, size, i, sum, peak, pos);
      i := i + 1;
    }
    PeakPosIsFirstMaximum(s, size, |s|);
  }
}
