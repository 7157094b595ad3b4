// The per-stream quality history: spaced recording, thirty days of retention,
// three-resolution compaction that sums error counters, and a hard cap. Samples hold
// cumulative totals of their counters, from which the errors of each interval are
// differences.
module QualityHistory {
  import opened Helpers

  const RETENTION: nat := 30 * 24 * 60 * 60
  const RECORD_INTERVAL: nat := 30
  const FULL_RESOLUTION: nat := 60 * 60
  const DAY: nat := 24 * 60 * 60
  const DAY_RESOLUTION: nat := 60
  const MONTH_RESOLUTION: nat := 5 * 60
  const COMPACTION_INTERVAL: nat := 60
  const MAX_SAMPLES: nat := 10000

  // The most samples a compaction can leave: one a 30 s interval for an hour, one a
  // minute for the rest of the day, one a five minutes for the rest of the month.
  const MAX_COMPACTED: nat := 121 + 1381 + 8353

  datatype Level = Offline | Error | Warn | Good

  datatype Sample = Sample(
    timestamp: nat, active: bool, inputKbps: nat, outputKbps: nat, targetKbps: nat,
    inErrors: nat, outErrors: nat, inTotal: nat, outTotal: nat, level: Level)

  datatype History = History(samples: seq<Sample>, lastCompaction: nat)

  const EMPTY := History([], 0)

  // ----- One recording -----------------------------------------------------------

  function Last(samples: seq<Sample>): Sample
    requires samples != []
  {
    samples[|samples| - 1]
  }

  predicate TooSoon(samples: seq<Sample>, now: nat) {
    samples != [] && now < Last(samples).timestamp + RECORD_INTERVAL
  }

  function Expire(samples: seq<Sample>, now: nat): (kept: seq<Sample>)
    ensures |kept| <= |samples|
  {
    if samples != [] && samples[0].timestamp + RETENTION < now then Expire(samples[1..], now) else samples
  }

  function StepOf(timestamp: nat, now: nat): nat {
    var age := if now > timestamp then now - timestamp else 0;
    if age <= FULL_RESOLUTION then 1 else if age <= DAY then DAY_RESOLUTION else MONTH_RESOLUTION
  }

  function BucketOf(timestamp: nat, now: nat): nat { timestamp / StepOf(timestamp, now) }

  // Two samples of one bucket: the newer one, with both error counts.
  function Merge(older: Sample, newer: Sample): Sample {
    var i, o := older.inErrors + newer.inErrors, older.outErrors + newer.outErrors;
    newer.(inErrors := i, outErrors := o,
           level := if (i > 0 || o > 0) && newer.level == Good then Error else newer.level)
  }

  // The compaction loop: the output so far, and the step and bucket it remembers.
  datatype Compaction = Compaction(out: seq<Sample>, step: int, bucket: int)

  function Absorb(c: Compaction, s: Sample, now: nat): Compaction {
    var step, bucket := StepOf(s.timestamp, now), BucketOf(s.timestamp, now);
    if c.out != [] && step == c.step && bucket == c.bucket then
      c.(out := c.out[..|c.out| - 1] + [Merge(Last(c.out), s)])
    else Compaction(c.out + [s], step, bucket)
  }

  function CompactAll(samples: seq<Sample>, now: nat): Compaction {
    if samples == [] then Compaction([], -1, -1)
    else Absorb(CompactAll(samples[..|samples| - 1], now), Last(samples), now)
  }

  function Compact(samples: seq<Sample>, now: nat): seq<Sample> { CompactAll(samples, now).out }

  predicate CompactionDue(h: History, now: nat) {
    h.lastCompaction == 0 || now >= h.lastCompaction + COMPACTION_INTERVAL
  }

  function Put(samples: seq<Sample>, sample: Sample): seq<Sample> {
    if samples != [] && Last(samples).timestamp == sample.timestamp
    then samples[..|samples| - 1] + [sample]
    else samples + [sample]
  }

  // Everything but the cap, for a sample that is not too soon.
  function Admit(h: History, sample: Sample): History {
    var now := sample.timestamp;
    var kept := Expire(Put(h.samples, sample), now);
    if CompactionDue(h, now) then History(Compact(kept, now), now) else History(kept, h.lastCompaction)
  }

  function Cap(samples: seq<Sample>): seq<Sample> {
    if |samples| > MAX_SAMPLES then samples[|samples| - MAX_SAMPLES..] else samples
  }

  // The locked part of recordQualitySample.
  function Record(h: History, sample: Sample): History {
    if TooSoon(h.samples, sample.timestamp) then h
    else
      var admitted := Admit(h, sample);
      admitted.(samples := Cap(admitted.samples))
  }

  function RecordAll(h: History, run: seq<Sample>): History
    decreases |run|
  {
    if run == [] then h else RecordAll(Record(h, run[0]), run[1..])
  }

  // ----- Order and spacing --------------------------------------------------------------

  ghost predicate Spaced(samples: seq<Sample>) {
    forall i, j :: 0 <= i < j < |samples| ==> samples[i].timestamp + RECORD_INTERVAL <= samples[j].timestamp
  }

  ghost predicate Retained(samples: seq<Sample>, now: nat) {
    forall i :: 0 <= i < |samples| ==> samples[i].timestamp <= now <= samples[i].timestamp + RETENTION
  }

  lemma {:induction false} ExpireRetains(samples: seq<Sample>, now: nat)
    requires Spaced(samples) && forall i :: 0 <= i < |samples| ==> samples[i].timestamp <= now
    ensures var kept := Expire(samples, now);
            && |kept| <= |samples| && kept == samples[|samples| - |kept|..]
            && Spaced(kept) && Retained(kept, now)
            && forall i :: 0 <= i < |samples| - |kept| ==> samples[i].timestamp + RETENTION < now
    decreases |samples|
  {
    if samples != [] && samples[0].timestamp + RETENTION < now {
      ExpireRetains(samples[1..], now);
      var kept := Expire(samples, now);
      assert samples[1..][|samples| - 1 - |kept|..] == samples[|samples| - |kept|..];
      forall i | 0 <= i < |samples| - |kept|
        ensures samples[i].timestamp + RETENTION < now
      {
        if i > 0 { assert samples[1..][i - 1] == samples[i]; }
      }
    }
  }

  // ----- Compaction: what it keeps -----------------------------------------------------------

  function SumIn(samples: seq<Sample>): nat {
    if samples == [] then 0 else SumIn(samples[..|samples| - 1]) + Last(samples).inErrors
  }

  function SumOut(samples: seq<Sample>): nat {
    if samples == [] then 0 else SumOut(samples[..|samples| - 1]) + Last(samples).outErrors
  }

  lemma SumAppend(samples: seq<Sample>, s: Sample)
    ensures SumIn(samples + [s]) == SumIn(samples) + s.inErrors
    ensures SumOut(samples + [s]) == SumOut(samples) + s.outErrors
  {
    assert (samples + [s])[..|samples|] == samples;
  }

  // Older buckets come first: coarser steps before finer ones, then by number.
  predicate KeyBefore(a: Sample, b: Sample, now: nat) {
    var sa, sb := StepOf(a.timestamp, now), StepOf(b.timestamp, now);
    sa > sb || (sa == sb && BucketOf(a.timestamp, now) < BucketOf(b.timestamp, now))
  }

  predicate SameKey(a: Sample, b: Sample, now: nat) {
    StepOf(a.timestamp, now) == StepOf(b.timestamp, now) && BucketOf(a.timestamp, now) == BucketOf(b.timestamp, now)
  }

  lemma KeyFollowsTime(a: Sample, b: Sample, now: nat)
    requires a.timestamp <= b.timestamp
    ensures KeyBefore(a, b, now) || SameKey(a, b, now)
  {
    if StepOf(a.timestamp, now) == StepOf(b.timestamp, now) {
      DivMonotone(a.timestamp, b.timestamp, StepOf(a.timestamp, now));
    }
  }

  lemma DivMonotone(x: int, y: int, d: nat)
    requires x <= y && d > 0
    ensures x / d <= y / d
  {
    var q, r := x / d, y / d;
    assert x == q * d + x % d && y == r * d + y % d;
    if q > r { MulMonotone(r + 1, q, d); }
  }

  lemma KeyIsByBucket(a: Sample, b: Sample, b': Sample, now: nat)
    requires KeyBefore(a, b, now) && SameKey(b, b', now)
    ensures KeyBefore(a, b', now)
  {
  }

  // One sample a bucket.
  ghost predicate OnePerBucket(samples: seq<Sample>, now: nat) {
    forall i, j :: 0 <= i < j < |samples| ==> KeyBefore(samples[i], samples[j], now)
  }

  ghost predicate SameSums(out: seq<Sample>, samples: seq<Sample>) {
    SumIn(out) == SumIn(samples) && SumOut(out) == SumOut(samples)
  }

  // What compacting a prefix has established.
  ghost predicate Compacted(c: Compaction, samples: seq<Sample>, now: nat) {
    && SameSums(c.out, samples)
    && |c.out| <= |samples|
    && (c.out == [] <==> samples == [])
    && Spaced(c.out) && OnePerBucket(c.out, now)
    && (samples != [] ==>
          && Last(c.out) == Last(samples).(inErrors := Last(c.out).inErrors, outErrors := Last(c.out).outErrors,
                                           level := Last(c.out).level)
          && c.step == StepOf(Last(samples).timestamp, now) && c.bucket == BucketOf(Last(samples).timestamp, now))
    && AllOccur(c.out, samples)
  }

  ghost predicate Occurs(timestamp: nat, samples: seq<Sample>) {
    exists j :: 0 <= j < |samples| && samples[j].timestamp == timestamp
  }

  ghost predicate AllOccur(out: seq<Sample>, samples: seq<Sample>) {
    forall i :: 0 <= i < |out| ==> Occurs(out[i].timestamp, samples)
  }

  lemma OutputIsOlder(out: seq<Sample>, front: seq<Sample>, s: Sample)
    requires AllOccur(out, front) && Spaced(front + [s])
    ensures forall i :: 0 <= i < |out| ==> out[i].timestamp + RECORD_INTERVAL <= s.timestamp
  {
    forall i | 0 <= i < |out|
      ensures out[i].timestamp + RECORD_INTERVAL <= s.timestamp
    {
      assert Occurs(out[i].timestamp, front);
      var j :| 0 <= j < |front| && front[j].timestamp == out[i].timestamp;
      assert (front + [s])[j] == front[j] && (front + [s])[|front|] == s;
    }
  }

  lemma {:induction false} CompactionHolds(samples: seq<Sample>, now: nat)
    requires Spaced(samples)
    ensures Compacted(CompactAll(samples, now), samples, now)
    decreases |samples|
  {
    if samples != [] {
      var front, s := samples[..|samples| - 1], Last(samples);
      CompactionHolds(front, now);
      assert samples == front + [s];
      AbsorbHolds(CompactAll(front, now), front, s, now);
    }
  }

  lemma AbsorbHolds(c: Compaction, front: seq<Sample>, s: Sample, now: nat)
    requires Compacted(c, front, now) && Spaced(front + [s])
    ensures Compacted(Absorb(c, s, now), front + [s], now)
  {
    OutputIsOlder(c.out, front, s);
    if c.out != [] && StepOf(s.timestamp, now) == c.step && BucketOf(s.timestamp, now) == c.bucket {
      MergeHolds(c, front, s, now);
    } else {
      AppendHolds(c, front, s, now);
    }
  }

  lemma MergeHolds(c: Compaction, front: seq<Sample>, s: Sample, now: nat)
    requires Compacted(c, front, now) && c.out != []
    requires StepOf(s.timestamp, now) == c.step && BucketOf(s.timestamp, now) == c.bucket
    requires forall i :: 0 <= i < |c.out| ==> c.out[i].timestamp + RECORD_INTERVAL <= s.timestamp
    ensures Compacted(Absorb(c, s, now), front + [s], now)
  {
    var k := |c.out| - 1;
    var out := Absorb(c, s, now).out;
    assert out == c.out[..k] + [Merge(c.out[k], s)];
    MergeSums(c.out, front, s);
    forall i, j | 0 <= i < j < |out|
      ensures KeyBefore(out[i], out[j], now)
    {
      assert KeyBefore(c.out[i], c.out[j], now);
      if j == k { KeyIsByBucket(c.out[i], c.out[k], out[k], now); }
    }
    AllOccurGrows(c.out, out, front, s);
  }

  lemma MergeSums(out: seq<Sample>, front: seq<Sample>, s: Sample)
    requires out != [] && SameSums(out, front)
    ensures SameSums(out[..|out| - 1] + [Merge(Last(out), s)], front + [s])
  {
    SumAppend(out[..|out| - 1], Merge(Last(out), s));
    SumAppend(front, s);
  }

  lemma AppendSums(out: seq<Sample>, front: seq<Sample>, s: Sample)
    requires SameSums(out, front)
    ensures SameSums(out + [s], front + [s])
  {
    SumAppend(out, s);
    SumAppend(front, s);
  }

  lemma AppendOrder(out: seq<Sample>, s: Sample, now: nat)
    requires Spaced(out) && OnePerBucket(out, now)
    requires forall i :: 0 <= i < |out| ==> out[i].timestamp + RECORD_INTERVAL <= s.timestamp
    requires out != [] ==> !SameKey(Last(out), s, now)
    ensures Spaced(out + [s]) && OnePerBucket(out + [s], now)
  {
    forall i | 0 <= i < |out|
      ensures KeyBefore(out[i], s, now)
    {
      KeyFollowsTime(Last(out), s, now);
      if i < |out| - 1 { assert KeyBefore(out[i], Last(out), now); }
    }
  }

  lemma AppendHolds(c: Compaction, front: seq<Sample>, s: Sample, now: nat)
    requires Compacted(c, front, now)
    requires c.out == [] || StepOf(s.timestamp, now) != c.step || BucketOf(s.timestamp, now) != c.bucket
    requires forall i :: 0 <= i < |c.out| ==> c.out[i].timestamp + RECORD_INTERVAL <= s.timestamp
    ensures Compacted(Absorb(c, s, now), front + [s], now)
  {
    var d := Compaction(c.out + [s], StepOf(s.timestamp, now), BucketOf(s.timestamp, now));
    assert Absorb(c, s, now) == d;
    assert Last(d.out) == s && Last(front + [s]) == s && |d.out| <= |front + [s]|;
    AppendSums(c.out, front, s);
    AppendOrder(c.out, s, now);
    AllOccurGrows(c.out, d.out, front, s);
    assert Compacted(d, front + [s], now);
  }

  lemma AllOccurGrows(before: seq<Sample>, out: seq<Sample>, front: seq<Sample>, s: Sample)
    requires AllOccur(before, front)
    requires forall i :: 0 <= i < |out| ==> out[i].timestamp == s.timestamp || (i < |before| && out[i] == before[i])
    ensures AllOccur(out, front + [s])
  {
    forall i | 0 <= i < |out|
      ensures Occurs(out[i].timestamp, front + [s])
    {
      if out[i].timestamp == s.timestamp {
        assert (front + [s])[|front|].timestamp == s.timestamp;
      } else {
        assert Occurs(before[i].timestamp, front);
        var j :| 0 <= j < |front| && front[j].timestamp == before[i].timestamp;
        assert (front + [s])[j].timestamp == out[i].timestamp;
      }
    }
  }

  // Compacting again at the same instant changes nothing.
  lemma {:induction false} OnePerBucketIsFixed(samples: seq<Sample>, now: nat)
    requires OnePerBucket(samples, now)
    ensures Compact(samples, now) == samples
    ensures samples != [] ==> CompactAll(samples, now).step == StepOf(Last(samples).timestamp, now)
    ensures samples != [] ==> CompactAll(samples, now).bucket == BucketOf(Last(samples).timestamp, now)
    decreases |samples|
  {
    if samples != [] {
      var front := samples[..|samples| - 1];
      OnePerBucketIsFixed(front, now);
      if front != [] { assert KeyBefore(samples[|samples| - 2], samples[|samples| - 1], now); }
    }
  }

  lemma CompactionIsIdempotent(samples: seq<Sample>, now: nat)
    requires Spaced(samples)
    ensures Compact(Compact(samples, now), now) == Compact(samples, now)
  {
    CompactionHolds(samples, now);
    OnePerBucketIsFixed(Compact(samples, now), now);
  }

  // ----- How many samples a compaction can leave -------------------------------------------------

  // Samples of one step with different buckets between two instants.
  lemma {:induction false} BucketCount(samples: seq<Sample>, now: nat, step: nat, lo: int, hi: int)
    requires step > 0 && OnePerBucket(samples, now)
    requires forall i :: 0 <= i < |samples| ==>
               StepOf(samples[i].timestamp, now) == step && lo <= samples[i].timestamp <= hi
    requires samples != []
    ensures |samples| <= Last(samples).timestamp / step - lo / step + 1
    ensures |samples| <= hi / step - lo / step + 1
    decreases |samples|
  {
    DivMonotone(lo, samples[0].timestamp, step);
    DivMonotone(Last(samples).timestamp, hi, step);
    if |samples| > 1 {
      var front := samples[..|samples| - 1];
      BucketCount(front, now, step, lo, hi);
      assert KeyBefore(samples[|samples| - 2], samples[|samples| - 1], now);
    }
  }

  lemma {:induction false} SpacedCount(samples: seq<Sample>, lo: nat, hi: nat)
    requires Spaced(samples) && samples != []
    requires forall i :: 0 <= i < |samples| ==> lo <= samples[i].timestamp <= hi
    ensures (|samples| - 1) * RECORD_INTERVAL <= Last(samples).timestamp - lo
    decreases |samples|
  {
    if |samples| > 1 {
      SpacedCount(samples[..|samples| - 1], lo, hi);
      assert samples[|samples| - 2].timestamp + RECORD_INTERVAL <= samples[|samples| - 1].timestamp;
    }
  }

  // The samples older than `age` come first.
  lemma {:induction false} SplitByAge(samples: seq<Sample>, now: nat, age: nat) returns (k: nat)
    requires Spaced(samples)
    ensures k <= |samples|
    ensures forall i :: 0 <= i < k ==> samples[i].timestamp + age < now
    ensures forall i :: k <= i < |samples| ==> now <= samples[i].timestamp + age
    decreases |samples|
  {
    if samples == [] {
      k := 0;
    } else if samples[|samples| - 1].timestamp + age < now {
      k := |samples|;
    } else {
      k := SplitByAge(samples[..|samples| - 1], now, age);
    }
  }

  lemma CompactedCount(samples: seq<Sample>, now: nat)
    requires Spaced(samples) && OnePerBucket(samples, now) && Retained(samples, now)
    ensures |samples| <= MAX_COMPACTED
  {
    var b := SplitByAge(samples, now, FULL_RESOLUTION);
    var a := SplitByAge(samples[..b], now, DAY);
    var month, day, hour := samples[..a], samples[a..b], samples[b..];
    MonthCount(month, now);
    DayCount(day, now);
    HourCount(hour, now);
    assert |samples| == |month| + |day| + |hour|;
  }

  lemma MonthCount(samples: seq<Sample>, now: nat)
    requires OnePerBucket(samples, now) && Retained(samples, now)
    requires forall i :: 0 <= i < |samples| ==> samples[i].timestamp + DAY < now
    ensures |samples| <= 8353
  {
    if samples != [] {
      BucketCount(samples, now, MONTH_RESOLUTION, now - RETENTION, now - DAY - 1);
    }
  }

  lemma DayCount(samples: seq<Sample>, now: nat)
    requires OnePerBucket(samples, now)
    requires forall i :: 0 <= i < |samples| ==>
               samples[i].timestamp + FULL_RESOLUTION < now <= samples[i].timestamp + DAY
    ensures |samples| <= 1381
  {
    if samples != [] {
      BucketCount(samples, now, DAY_RESOLUTION, now - DAY, now - FULL_RESOLUTION - 1);
    }
  }

  lemma HourCount(samples: seq<Sample>, now: nat)
    requires Spaced(samples)
    requires forall i :: 0 <= i < |samples| ==> samples[i].timestamp <= now <= samples[i].timestamp + FULL_RESOLUTION
    ensures |samples| <= 121
  {
    if samples != [] {
      SpacedCount(samples, samples[0].timestamp, now);
    }
  }

  // ----- The history invariant ---------------------------------------------------------------------

  predicate JustCompacted(h: History, newest: nat) {
    h.lastCompaction == newest && |h.samples| <= MAX_COMPACTED
  }

  predicate OneAppended(h: History, newest: nat) {
    && 0 < h.lastCompaction
    && h.lastCompaction + RECORD_INTERVAL <= newest < h.lastCompaction + COMPACTION_INTERVAL
    && |h.samples| <= MAX_COMPACTED + 1
  }

  ghost predicate Inv(h: History) {
    && Spaced(h.samples)
    && (h.samples == [] ==> h.lastCompaction == 0)
    && (h.samples != [] ==>
          var newest := Last(h.samples).timestamp;
          && Retained(h.samples, newest)
          && (JustCompacted(h, newest) || OneAppended(h, newest)))
  }

  lemma PutInOrder(samples: seq<Sample>, sample: Sample)
    requires Spaced(samples) && !TooSoon(samples, sample.timestamp)
    ensures Put(samples, sample) == samples + [sample] && Spaced(samples + [sample])
    ensures forall i :: 0 <= i < |samples + [sample]| ==> (samples + [sample])[i].timestamp <= sample.timestamp
  {
    forall i | 0 <= i < |samples|
      ensures samples[i].timestamp + RECORD_INTERVAL <= sample.timestamp
    {
      if i < |samples| - 1 {
        assert samples[i].timestamp + RECORD_INTERVAL <= Last(samples).timestamp;
      }
    }
  }

  lemma NewestIsKept(put: seq<Sample>, kept: seq<Sample>, now: nat)
    requires put != [] && Last(put).timestamp == now
    requires |kept| <= |put| && kept == put[|put| - |kept|..]
    requires forall i :: 0 <= i < |put| - |kept| ==> put[i].timestamp + RETENTION < now
    ensures kept != [] && Last(kept) == Last(put)
  {
  }

  // What Admit keeps before any compaction: the new sample comes last.
  lemma PutAndExpire(samples: seq<Sample>, sample: Sample)
    requires Spaced(samples) && !TooSoon(samples, sample.timestamp)
    ensures var kept := Expire(Put(samples, sample), sample.timestamp);
            && kept != [] && Last(kept) == sample && |kept| <= |samples| + 1
            && Spaced(kept) && Retained(kept, sample.timestamp)
  {
    PutInOrder(samples, sample);
    var put := Put(samples, sample);
    ExpireRetains(put, sample.timestamp);
    NewestIsKept(put, Expire(put, sample.timestamp), sample.timestamp);
  }

  lemma CompactKeepsHistory(kept: seq<Sample>, now: nat)
    requires kept != [] && Spaced(kept) && Retained(kept, now)
    ensures var out := Compact(kept, now);
            && out != [] && Last(out).timestamp == Last(kept).timestamp && |out| <= MAX_COMPACTED
            && Spaced(out) && Retained(out, now) && SameSums(out, kept)
  {
    CompactionHolds(kept, now);
    var out := Compact(kept, now);
    RetainedSubset(kept, out, now);
    CompactedCount(out, now);
  }

  // Admitting a sample keeps the history in order and within the cap by itself.
  lemma AdmitKeepsInv(h: History, sample: Sample)
    requires Inv(h) && !TooSoon(h.samples, sample.timestamp)
    ensures Inv(Admit(h, sample))
    ensures Admit(h, sample).samples != [] && Last(Admit(h, sample).samples).timestamp == sample.timestamp
    ensures |Admit(h, sample).samples| <= MAX_COMPACTED + 1
  {
    var now := sample.timestamp;
    PutAndExpire(h.samples, sample);
    if CompactionDue(h, now) {
      CompactKeepsHistory(Expire(Put(h.samples, sample), now), now);
    }
  }

  lemma RetainedSubset(kept: seq<Sample>, out: seq<Sample>, now: nat)
    requires Retained(kept, now)
    requires AllOccur(out, kept)
    ensures Retained(out, now)
  {
    forall i | 0 <= i < |out|
      ensures out[i].timestamp <= now <= out[i].timestamp + RETENTION
    {
      assert Occurs(out[i].timestamp, kept);
    }
  }

  lemma {:induction false} RecordAllKeepsInv(h: History, run: seq<Sample>)
    requires Inv(h)
    ensures Inv(RecordAll(h, run))
    decreases |run|
  {
    if run != [] {
      if !TooSoon(h.samples, run[0].timestamp) { AdmitKeepsInv(h, run[0]); }
      RecordAllKeepsInv(Record(h, run[0]), run[1..]);
    }
  }

  // Whatever is recorded, at whatever times and by however many workers: the cap
  // never discards a sample, and the history stays spaced and within its retention.
  lemma CapNeverFires(run: seq<Sample>, sample: Sample)
    ensures var h := RecordAll(EMPTY, run);
            && Inv(h)
            && (!TooSoon(h.samples, sample.timestamp) ==>
                  && Record(h, sample) == Admit(h, sample)
                  && |Admit(h, sample).samples| <= MAX_COMPACTED + 1 < MAX_SAMPLES)
  {
    RecordAllKeepsInv(EMPTY, run);
    var h := RecordAll(EMPTY, run);
    if !TooSoon(h.samples, sample.timestamp) { AdmitKeepsInv(h, sample); }
  }

  // The branch that would overwrite a sample of the same second is never taken.
  lemma SameSecondIsTooSoon(samples: seq<Sample>, sample: Sample)
    requires samples != [] && Last(samples).timestamp == sample.timestamp
    ensures TooSoon(samples, sample.timestamp)
  {
  }

  // ----- Error counts over a whole history ------------------------------------------------------------

  lemma {:induction false} SumSplit(samples: seq<Sample>, k: nat)
    requires k <= |samples|
    ensures SumIn(samples) == SumIn(samples[..k]) + SumIn(samples[k..])
    ensures SumOut(samples) == SumOut(samples[..k]) + SumOut(samples[k..])
    decreases |samples|
  {
    if k < |samples| {
      var n := |samples| - 1;
      SumSplit(samples[..n], k);
      assert samples[..n][..k] == samples[..k];
      assert samples[k..][..n - k] == samples[..n][k..];
    } else {
      assert samples[..k] == samples && samples[k..] == [];
    }
  }

  lemma ExpireTakesSums(put: seq<Sample>, now: nat)
    requires Spaced(put) && forall i :: 0 <= i < |put| ==> put[i].timestamp <= now
    ensures var kept := Expire(put, now);
            && |kept| <= |put|
            && (forall i :: 0 <= i < |put| - |kept| ==> put[i].timestamp + RETENTION < now)
            && SumIn(kept) + SumIn(put[..|put| - |kept|]) == SumIn(put)
            && SumOut(kept) + SumOut(put[..|put| - |kept|]) == SumOut(put)
  {
    ExpireRetains(put, now);
    SumSplit(put, |put| - |Expire(put, now)|);
  }

  // Recording keeps the sums of what has not expired.
  lemma RecordKeepsSums(h: History, sample: Sample)
    requires Inv(h) && !TooSoon(h.samples, sample.timestamp)
    ensures SameSums(Record(h, sample).samples, Expire(h.samples + [sample], sample.timestamp))
  {
    AdmitKeepsInv(h, sample);
    PutInOrder(h.samples, sample);
    PutAndExpire(h.samples, sample);
    CompactKeepsHistory(Expire(Put(h.samples, sample), sample.timestamp), sample.timestamp);
  }

  // A recording adds the sample's errors and removes only those of expired samples.
  lemma RecordConservesErrors(h: History, sample: Sample)
    requires Inv(h) && !TooSoon(h.samples, sample.timestamp)
    ensures var kept := Expire(h.samples + [sample], sample.timestamp);
            var gone := (h.samples + [sample])[..|h.samples| + 1 - |kept|];
            && |kept| <= |h.samples| + 1
            && (forall i :: 0 <= i < |gone| ==> gone[i].timestamp + RETENTION < sample.timestamp)
            && SumIn(Record(h, sample).samples) + SumIn(gone) == SumIn(h.samples) + sample.inErrors
            && SumOut(Record(h, sample).samples) + SumOut(gone) == SumOut(h.samples) + sample.outErrors
  {
    PutInOrder(h.samples, sample);
    ExpireTakesSums(h.samples + [sample], sample.timestamp);
    SumAppend(h.samples, sample);
    RecordKeepsSums(h, sample);
  }

  // ----- Sequential recording of cumulative totals -----------------------------------------------------

  // What one poll reads: cumulative totals, and the short-window counters used when
  // there is no previous sample.
  datatype Reading = Reading(
    now: nat, active: bool, statusBad: bool, inputKbps: nat, outputKbps: nat, targetKbps: nat,
    inTotal: nat, outTotal: nat, recentIn: nat, recentOut: nat)

  function Delta(total: nat, previous: nat): nat {
    if total >= previous then total - previous else total
  }

  function Classify(r: Reading, inErrors: nat, outErrors: nat): Level {
    if !r.active then Offline
    else if r.statusBad then Error
    else if r.inputKbps == 0 then Warn
    else if inErrors > 0 || outErrors > 0 then Error
    else if r.targetKbps > 0 && r.outputKbps > 0 then
      var diff := if r.outputKbps > r.targetKbps then r.outputKbps - r.targetKbps else r.targetKbps - r.outputKbps;
      if (diff as real) / (r.targetKbps as real) > 0.20 then Warn else Good
    else Good
  }

  // The sample prepared from the history's newest sample.
  function Prepare(samples: seq<Sample>, r: Reading): Sample {
    var i := if samples != [] then Delta(r.inTotal, Last(samples).inTotal) else r.recentIn;
    var o := if samples != [] then Delta(r.outTotal, Last(samples).outTotal) else r.recentOut;
    Sample(r.now, r.active, r.inputKbps, r.outputKbps, r.targetKbps, i, o, r.inTotal, r.outTotal, Classify(r, i, o))
  }

  function Poll(h: History, r: Reading): History {
    if TooSoon(h.samples, r.now) then h else Record(h, Prepare(h.samples, r))
  }

  function PollAll(h: History, run: seq<Reading>): History {
    if run == [] then h else Poll(PollAll(h, run[..|run| - 1]), run[|run| - 1])
  }

  ghost predicate MonotoneTotals(run: seq<Reading>) {
    forall i, j :: 0 <= i <= j < |run| ==> run[i].inTotal <= run[j].inTotal && run[i].outTotal <= run[j].outTotal
  }

  // Nothing of the run is old enough to expire.
  ghost predicate WithinRetention(run: seq<Reading>) {
    forall i :: 0 <= i < |run| ==> run[0].now <= run[i].now <= run[0].now + RETENTION
  }

  // The newest sample stands for one of the readings.
  ghost predicate NewestFrom(h: History, run: seq<Reading>, k: nat) {
    && k < |run| && h.samples != []
    && Last(h.samples).inTotal == run[k].inTotal && Last(h.samples).outTotal == run[k].outTotal
    && Last(h.samples).timestamp == run[k].now
  }

  // The errors are the newest total minus the first one, plus the first sample's own count.
  ghost predicate Telescoped(h: History, first: Reading) {
    && h.samples != []
    && SumIn(h.samples) == Last(h.samples).inTotal - first.inTotal + first.recentIn
    && SumOut(h.samples) == Last(h.samples).outTotal - first.outTotal + first.recentOut
    && (forall i :: 0 <= i < |h.samples| ==> first.now <= h.samples[i].timestamp)
  }

  // Recorded one after the other, the errors of the whole history telescope.
  lemma {:induction false} ErrorsTelescope(run: seq<Reading>)
    requires run != [] && MonotoneTotals(run) && WithinRetention(run)
    ensures Inv(PollAll(EMPTY, run)) && Telescoped(PollAll(EMPTY, run), run[0])
    ensures exists k: nat :: NewestFrom(PollAll(EMPTY, run), run, k)
    decreases |run|
  {
    var n := |run| - 1;
    var front, r := run[..n], run[n];
    if n == 0 {
      assert PollAll(EMPTY, front) == EMPTY;
      FirstPoll(r);
      assert NewestFrom(PollAll(EMPTY, run), run, 0);
    } else {
      ErrorsTelescope(front);
      var g := PollAll(EMPTY, front);
      var k: nat :| NewestFrom(g, front, k);
      assert run[k] == front[k] && front[0] == run[0];
      assert PollAll(EMPTY, run) == Poll(g, r);
      if TooSoon(g.samples, r.now) {
        assert NewestFrom(g, run, k);
      } else {
        assert run[k].inTotal <= r.inTotal && run[k].outTotal <= r.outTotal;
        NextPoll(g, r, run[0]);
        assert NewestFrom(Poll(g, r), run, n);
      }
    }
  }

  lemma FirstPoll(r: Reading)
    ensures var h := Poll(EMPTY, r);
            && Inv(h) && Telescoped(h, r) && Last(h.samples).timestamp == r.now
            && Last(h.samples).inTotal == r.inTotal && Last(h.samples).outTotal == r.outTotal
  {
    var s := Prepare([], r);
    AdmitKeepsInv(EMPTY, s);
    assert Put([], s) == [s];
    assert Expire([s], r.now) == [s];
    assert CompactAll([s], r.now) == Absorb(CompactAll([], r.now), s, r.now) by { assert [s][..0] == []; }
    assert Compact([s], r.now) == [s];
    assert SumIn([s]) == s.inErrors && SumOut([s]) == s.outErrors by { assert [s][..0] == []; }
  }

  // While nothing can expire, a recording only appends and perhaps compacts.
  lemma NothingExpires(g: History, s: Sample, start: nat)
    requires Inv(g) && !TooSoon(g.samples, s.timestamp)
    requires s.timestamp <= start + RETENTION && start <= s.timestamp
    requires forall i :: 0 <= i < |g.samples| ==> start <= g.samples[i].timestamp
    ensures var h := Record(g, s);
            && Inv(h) && h.samples != [] && Last(h.samples).timestamp == s.timestamp
            && Last(h.samples).inTotal == s.inTotal && Last(h.samples).outTotal == s.outTotal
            && SumIn(h.samples) == SumIn(g.samples) + s.inErrors
            && SumOut(h.samples) == SumOut(g.samples) + s.outErrors
            && forall i :: 0 <= i < |h.samples| ==> start <= h.samples[i].timestamp
  {
    var put := g.samples + [s];
    PutInOrder(g.samples, s);
    SumAppend(g.samples, s);
    assert start <= put[0].timestamp;
    assert Expire(put, s.timestamp) == put;
    CompactPreserves(put, s.timestamp, start);
    AdmitKeepsInv(g, s);
    assert Record(g, s) == Admit(g, s);
  }

  lemma CompactPreserves(samples: seq<Sample>, now: nat, start: nat)
    requires Spaced(samples) && samples != []
    requires forall i :: 0 <= i < |samples| ==> start <= samples[i].timestamp
    ensures var out := Compact(samples, now);
            && out != [] && Last(out).timestamp == Last(samples).timestamp
            && Last(out).inTotal == Last(samples).inTotal && Last(out).outTotal == Last(samples).outTotal
            && SumIn(out) == SumIn(samples) && SumOut(out) == SumOut(samples)
            && forall i :: 0 <= i < |out| ==> start <= out[i].timestamp
  {
    CompactionHolds(samples, now);
    var out := Compact(samples, now);
    forall i | 0 <= i < |out|
      ensures start <= out[i].timestamp
    {
      assert Occurs(out[i].timestamp, samples);
    }
  }

  lemma NextPoll(g: History, r: Reading, first: Reading)
    requires Inv(g) && Telescoped(g, first) && !TooSoon(g.samples, r.now)
    requires Last(g.samples).inTotal <= r.inTotal && Last(g.samples).outTotal <= r.outTotal
    requires first.now <= r.now <= first.now + RETENTION
    ensures var h := Poll(g, r);
            && Inv(h) && Telescoped(h, first) && Last(h.samples).timestamp == r.now
            && Last(h.samples).inTotal == r.inTotal && Last(h.samples).outTotal == r.outTotal
  {
    NothingExpires(g, Prepare(g.samples, r), first.now);
  }

  // ----- The recorder object ---------------------------------------------------------------------------

  // One turn of the compaction loop: merge into the last sample, or append.
  method CompactNext(before: Compaction, existing: Sample, now: nat) returns (after: Compaction)
    ensures after == Absorb(before, existing, now)
  {
    var age := if now > existing.timestamp then now - existing.timestamp else 0;
    var step := if age <= FULL_RESOLUTION then 1 else if age <= DAY then DAY_RESOLUTION else MONTH_RESOLUTION;
    assert step == StepOf(existing.timestamp, now);
    var bucket := existing.timestamp / step;
    var compacted := before.out;
    if compacted != [] && step == before.step && bucket == before.bucket {
      var last := compacted[|compacted| - 1];
      var inErrors, outErrors := last.inErrors + existing.inErrors, last.outErrors + existing.outErrors;
      var merged := existing.(inErrors := inErrors, outErrors := outErrors);
      if (inErrors > 0 || outErrors > 0) && merged.level == Good { merged := merged.(level := Error); }
      after := before.(out := compacted[..|compacted| - 1] + [merged]);
    } else {
      after := Compaction(compacted + [existing], step, bucket);
    }
  }

  // The compaction loop over the old list, building the new one.
  method CompactSamples(samples: seq<Sample>, now: nat) returns (compacted: seq<Sample>)
    ensures compacted == Compact(samples, now)
  {
    var c := Compaction([], -1, -1);
    for i := 0 to |samples|
      invariant c == CompactAll(samples[..i], now)
    {
      assert samples[..i + 1][..i] == samples[..i];
      c := CompactNext(c, samples[i], now);
    }
    assert samples[..|samples|] == samples;
    compacted := c.out;
  }

  method ExpireOld(samples: seq<Sample>, now: nat) returns (kept: seq<Sample>)
    ensures kept == Expire(samples, now)
  {
    kept := samples;
    while kept != [] && kept[0].timestamp + RETENTION < now
      invariant Expire(kept, now) == Expire(samples, now)
      decreases |kept|
    {
      kept := kept[1..];
    }
  }

  method DropToCap(samples: seq<Sample>) returns (kept: seq<Sample>)
    ensures kept == Cap(samples)
  {
    kept := samples;
    while |kept| > MAX_SAMPLES
      invariant Cap(kept) == Cap(samples)
      decreases |kept|
    {
      assert kept[1..] == kept[1..][..];
      kept := kept[1..];
    }
  }

  // What follows the new sample: retention, compaction when due, and the cap.
  method Settle(put: seq<Sample>, last: nat, now: nat) returns (list: seq<Sample>, compactedAt: nat)
    ensures var kept, due := Expire(put, now), last == 0 || now >= last + COMPACTION_INTERVAL;
            && list == Cap(if due then Compact(kept, now) else kept)
            && compactedAt == if due then now else last
  {
    list := ExpireOld(put, now);
    compactedAt := last;
    if compactedAt == 0 || now >= compactedAt + COMPACTION_INTERVAL {
      list := CompactSamples(list, now);
      compactedAt := now;
    }
    list := DropToCap(list);
  }

  class QualityRecorder {
    var samples: map<string, seq<Sample>>    // qualitySamples
    var lastCompaction: map<string, nat>     // qualityLastCompaction

    function HistoryOf(id: string): History
      reads this
    {
      History(if id in samples then samples[id] else [], if id in lastCompaction then lastCompaction[id] else 0)
    }

    constructor ()
      ensures forall id :: HistoryOf(id) == EMPTY
    {
      samples, lastCompaction := map[], map[];
    }

    // The first locked part: whether to skip, and the sample to difference against.
    method PrepareSample(id: string, r: Reading) returns (skip: bool, sample: Sample)
      ensures skip == TooSoon(HistoryOf(id).samples, r.now)
      ensures !skip ==> sample == Prepare(HistoryOf(id).samples, r)
    {
      var inErrors, outErrors := r.recentIn, r.recentOut;
      skip := false;
      if id in samples && samples[id] != [] {
        var newest := samples[id][|samples[id]| - 1];
        skip := r.now < newest.timestamp + RECORD_INTERVAL;
        inErrors := if r.inTotal >= newest.inTotal then r.inTotal - newest.inTotal else r.inTotal;
        outErrors := if r.outTotal >= newest.outTotal then r.outTotal - newest.outTotal else r.outTotal;
      }
      sample := Sample(r.now, r.active, r.inputKbps, r.outputKbps, r.targetKbps, inErrors, outErrors,
                       r.inTotal, r.outTotal, Classify(r, inErrors, outErrors));
    }

    // The second locked part; another worker may have recorded in between.
    method RecordSample(id: string, sample: Sample)
      modifies this
      ensures HistoryOf(id) == Record(old(HistoryOf(id)), sample)
      ensures forall other :: other != id ==> HistoryOf(other) == old(HistoryOf(other))
    {
      var now := sample.timestamp;
      var list := if id in samples then samples[id] else [];
      if list != [] && now < list[|list| - 1].timestamp + RECORD_INTERVAL { return; }
      if list != [] && list[|list| - 1].timestamp == now {
        assert false;  // a sample of the same second is too soon
      }
      var last := if id in lastCompaction then lastCompaction[id] else 0;
      ghost var h := History(list, last);
      assert Put(list, sample) == list + [sample];
      list, last := Settle(list + [sample], last, now);
      assert History(list, last) == Record(h, sample);
      samples := samples[id := list];
      lastCompaction := lastCompaction[id := last];
    }
  }
}
