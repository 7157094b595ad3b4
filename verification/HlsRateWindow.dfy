// The rolling media-rate window of the HLS scheduler: which segments it holds and
// what the rate computed from it can be.
module HlsRateWindow {

  const NS_PER_SECOND: nat := 1_000_000_000
  const WINDOW_TARGET_NS: nat := 30 * NS_PER_SECOND
  const WINDOW_MAX_SEGMENTS: nat := 12
  const MINIMUM_PUBLISHED: nat := 100_000
  const MAXIMUM_PUBLISHED: nat := 200_000_000

  datatype RateSpan = RateSpan(bytes: nat, ns: nat)

  function SumBytes(w: seq<RateSpan>): nat {
    if w == [] then 0 else w[0].bytes + SumBytes(w[1..])
  }

  function SumNs(w: seq<RateSpan>): nat {
    if w == [] then 0 else w[0].ns + SumNs(w[1..])
  }

  ghost predicate Positive(w: seq<RateSpan>) {
    forall i :: 0 <= i < |w| ==> w[i].bytes > 0 && w[i].ns > 0
  }

  // The window limits: twelve segments and thirty seconds, but a single segment
  // is always kept.
  predicate Fits(w: seq<RateSpan>) {
    |w| <= 1 || (|w| <= WINDOW_MAX_SEGMENTS && SumNs(w) <= WINDOW_TARGET_NS)
  }

  ghost predicate TooLong(history: seq<RateSpan>, k: nat) {
    k <= |history| && !Fits(history[k..])
  }

  // Reference definition: the longest run of most recent segments that fits.
  ghost predicate IsLongestFittingSuffix(w: seq<RateSpan>, history: seq<RateSpan>) {
    && |w| <= |history|
    && w == history[|history| - |w|..]
    && Fits(w)
    && forall k :: 0 <= k < |history| - |w| ==> TooLong(history, k)
  }

  function BitsPerSecond(bytes: nat, ns: nat): nat
    requires ns > 0
  {
    bytes * 8 * NS_PER_SECOND / ns
  }

  // Bits a second of one segment.
  function Rate(s: RateSpan): nat
    requires s.ns > 0
  {
    BitsPerSecond(s.bytes, s.ns)
  }

  // Bits a second of a whole window.
  function Bitrate(w: seq<RateSpan>): nat
    requires SumNs(w) > 0
  {
    BitsPerSecond(SumBytes(w), SumNs(w))
  }

  predicate Publishable(rate: nat) { MINIMUM_PUBLISHED <= rate <= MAXIMUM_PUBLISHED }

  // The result of publishing window w over the marker `before`.
  ghost predicate IsOutcome(rate: nat, w: seq<RateSpan>, before: nat, after: nat) {
    && w != [] && SumNs(w) > 0
    && rate == (if Publishable(Bitrate(w)) then Bitrate(w) else 0)
    && after == (if Publishable(Bitrate(w)) then Bitrate(w) else before)
  }

  // ----- Sums ------------------------------------------------------------------

  lemma {:induction false} SumAppend(w: seq<RateSpan>, x: RateSpan)
    ensures SumBytes(w + [x]) == SumBytes(w) + x.bytes
    ensures SumNs(w + [x]) == SumNs(w) + x.ns
  {
    if w == [] {
      assert w + [x] == [x] && [x][1..] == [];
    } else {
      SumAppend(w[1..], x);
      assert (w + [x])[1..] == w[1..] + [x];
    }
  }

  lemma SumPositive(w: seq<RateSpan>)
    requires Positive(w) && w != []
    ensures SumBytes(w) > 0 && SumNs(w) > 0
  {
  }

  // Appending a segment to a run that does not fit gives one that does not fit.
  lemma OverflowIsMonotone(w: seq<RateSpan>, x: RateSpan)
    requires !Fits(w)
    ensures !Fits(w + [x])
  {
    SumAppend(w, x);
  }

  lemma LongestSuffixIsUnique(v: seq<RateSpan>, w: seq<RateSpan>, history: seq<RateSpan>)
    requires IsLongestFittingSuffix(v, history) && IsLongestFittingSuffix(w, history)
    ensures v == w
  {
    assert !TooLong(history, |history| - |v|) && !TooLong(history, |history| - |w|);
  }

  // MAIN: the window is a single segment, or at most twelve of at most thirty seconds, and with the
  // segment before them it would be more than one of the two. It is never empty behind a segment.
  lemma WindowIsMaximal(w: seq<RateSpan>, history: seq<RateSpan>)
    requires IsLongestFittingSuffix(w, history)
    ensures |w| <= 1 || (|w| <= 12 && SumNs(w) <= 30_000_000_000)
    ensures history != [] ==> w != []
    ensures |w| < |history| ==> |w| == 12 || SumNs(w) + history[|history| - |w| - 1].ns > 30_000_000_000
  {
    assert history != [] ==> !TooLong(history, |history| - 1);
    if |w| < |history| {
      var k := |history| - |w| - 1;
      assert TooLong(history, k);
      assert history[k..] == [history[k]] + w;
    }
  }

  // The rate is the whole bits a second that the bytes and nanoseconds give.
  lemma RateIsBitsPerSecond(bytes: nat, ns: nat)
    requires ns > 0
    ensures BitsPerSecond(bytes, ns) * ns <= bytes * 8_000_000_000 < (BitsPerSecond(bytes, ns) + 1) * ns
  {
    var x := bytes * 8_000_000_000;
    assert BitsPerSecond(bytes, ns) == x / ns;
    assert x == (x / ns) * ns + x % ns;
    assert (x / ns + 1) * ns == (x / ns) * ns + ns;
  }

  // A rate is published between a hundred kilobits and two hundred megabits a second.
  lemma PublishedExactly(rate: nat, w: seq<RateSpan>, before: nat, after: nat)
    requires IsOutcome(rate, w, before, after)
    ensures if 100_000 <= Bitrate(w) <= 200_000_000 then rate == after == Bitrate(w) else rate == 0 && after == before
  {
  }

  // ----- The mediant bound --------------------------------------------------------

  lemma QuotientAtLeast(x: nat, d: nat, lo: nat)
    requires d > 0
    ensures lo <= x / d <==> lo * d <= x
  {
    var q := x / d;
    assert x == q * d + x % d;
    if lo <= q {
      assert lo * d <= q * d;
    } else {
      assert (q + 1) * d <= lo * d;
      assert (q + 1) * d == q * d + d;
    }
  }

  lemma {:induction false} ScaledSum(w: seq<RateSpan>, lo: nat)
    requires Positive(w)
    requires forall i :: 0 <= i < |w| ==> lo <= Rate(w[i])
    ensures lo * SumNs(w) <= SumBytes(w) * 8 * NS_PER_SECOND
  {
    if w != [] {
      QuotientAtLeast(w[0].bytes * 8 * NS_PER_SECOND, w[0].ns, lo);
      assert lo <= Rate(w[0]);
      assert forall i :: 0 <= i < |w[1..]| ==> w[1..][i] == w[i + 1];
      ScaledSum(w[1..], lo);
      assert lo * SumNs(w) == lo * w[0].ns + lo * SumNs(w[1..]);
    }
  }

  lemma {:induction false} ScaledSumBelow(w: seq<RateSpan>, hi: nat)
    requires Positive(w) && w != []
    requires forall i :: 0 <= i < |w| ==> Rate(w[i]) <= hi
    ensures SumBytes(w) * 8 * NS_PER_SECOND < (hi + 1) * SumNs(w)
  {
    QuotientAtLeast(w[0].bytes * 8 * NS_PER_SECOND, w[0].ns, hi + 1);
    assert Rate(w[0]) <= hi;
    assert (hi + 1) * SumNs(w) == (hi + 1) * w[0].ns + (hi + 1) * SumNs(w[1..]);
    if |w| > 1 {
      assert forall i :: 0 <= i < |w[1..]| ==> w[1..][i] == w[i + 1];
      ScaledSumBelow(w[1..], hi);
    }
  }

  // Any bounds on the rates of the single segments bound the rate of the window.
  lemma WindowRateIsBetweenSegmentRates(w: seq<RateSpan>, lo: nat, hi: nat)
    requires Positive(w) && w != []
    requires forall i :: 0 <= i < |w| ==> lo <= Rate(w[i]) <= hi
    ensures SumNs(w) > 0 && lo <= Bitrate(w) <= hi
  {
    SumPositive(w);
    ScaledSum(w, lo);
    ScaledSumBelow(w, hi);
    var x := SumBytes(w) * 8 * NS_PER_SECOND;
    QuotientAtLeast(x, SumNs(w), lo);
    QuotientAtLeast(x, SumNs(w), hi + 1);
  }

  // ----- The window as the scheduler keeps it ----------------------------------------

  class RateWindow {
    var window: seq<RateSpan>       // mediaRateWindow_
    var bytes: nat                  // mediaRateWindowBytes_
    var ns: nat                     // mediaRateWindowDurationNs_
    var published: nat              // the rate marker on the pipeline
    ghost var history: seq<RateSpan> // every segment since the last discontinuity

    ghost predicate Valid()
      reads this
    {
      && Positive(window)
      && bytes == SumBytes(window)
      && ns == SumNs(window)
      && IsLongestFittingSuffix(window, history)
      && (published == 0 || Publishable(published))
    }

    constructor ()
      ensures Valid() && history == [] && published == 0
    {
      window, bytes, ns, published, history := [], 0, 0, 0, [];
    }

    // The part of Valid() that also holds while the window is too long.
    ghost predicate Consistent()
      reads this
    {
      && Positive(window)
      && bytes == SumBytes(window) && ns == SumNs(window)
      && |window| <= |history|
      && window == history[|history| - |window|..]
      && forall k :: 0 <= k < |history| - |window| ==> TooLong(history, k)
    }

    method DropOldest()
      requires Consistent() && window != []
      modifies this
      ensures Consistent() && window != [] && Fits(window)
      ensures history == old(history) && published == old(published)
    {
      while |window| > 1 && (|window| > WINDOW_MAX_SEGMENTS || ns > WINDOW_TARGET_NS)
        invariant Consistent() && window != []
        invariant history == old(history) && published == old(published)
      {
        assert TooLong(history, |history| - |window|);
        var oldest := window[0];
        window, bytes, ns := window[1..], bytes - oldest.bytes, ns - oldest.ns;
      }
    }

    method Append(x: RateSpan)
      requires Valid() && x.bytes > 0 && x.ns > 0
      modifies this
      ensures Consistent() && window != []
      ensures history == old(history) + [x] && published == old(published)
    {
      ghost var previous := history;
      ghost var dropped := |history| - |window|;
      SumAppend(window, x);
      history := history + [x];
      assert window + [x] == history[dropped..];
      forall k | 0 <= k < dropped
        ensures TooLong(history, k)
      {
        assert TooLong(previous, k);
        OverflowIsMonotone(previous[k..], x);
        assert history[k..] == previous[k..] + [x];
      }
      window, bytes, ns := window + [x], bytes + x.bytes, ns + x.ns;
    }

    method Clear()
      requires Valid()
      modifies this
      ensures Valid() && window == [] && bytes == 0 && ns == 0 && history == [] && published == old(published)
    {
      window, bytes, ns, history := [], 0, 0, [];
    }

    method PublishRate() returns (rate: nat)
      requires Consistent() && window != [] && Fits(window)
      requires published == 0 || Publishable(published)
      modifies this`published
      ensures Valid()
      ensures IsOutcome(rate, window, old(published), published)
    {
      SumPositive(window);
      rate := BitsPerSecond(bytes, ns);
      if rate < MINIMUM_PUBLISHED || rate > MAXIMUM_PUBLISHED { return 0; }
      published := rate;
    }

    method Admit(x: RateSpan) returns (rate: nat)
      requires Valid() && x.bytes > 0 && x.ns > 0
      modifies this
      ensures Valid()
      ensures history == old(history) + [x]
      ensures IsOutcome(rate, window, old(published), published)
    {
      Append(x);
      DropOldest();
      rate := PublishRate();
    }

    method Publish(segmentBytes: nat, durationNs: nat, discontinuity: bool) returns (rate: nat)
      requires Valid()
      modifies this
      ensures Valid()
      ensures segmentBytes == 0 || durationNs == 0 ==>
        rate == 0 && unchanged(this)
      ensures segmentBytes > 0 && durationNs > 0 ==>
        && history == (if discontinuity then [] else old(history)) + [RateSpan(segmentBytes, durationNs)]
        && IsOutcome(rate, window, old(published), published)
    {
      if segmentBytes == 0 || durationNs == 0 { return 0; }
      if discontinuity { Clear(); }
      rate := Admit(RateSpan(segmentBytes, durationNs));
    }
  }
}
