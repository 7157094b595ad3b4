// What a viewer of the quality history finds: the newest sample as it was read, everything of the last
// hour, and behind that one sample a minute or five minutes that stands for its bucket.
module QualitySamples {
  import opened Helpers
  import opened QualityHistory

  // ----- The level of a reading ---------------------------------------------------------------

  // A stream is offline when inactive; an error is a bad status or counted errors on a live input; a
  // warning is no input, or an output more than a fifth away from its target.
  lemma LevelExactly(r: Reading, inErrors: nat, outErrors: nat)
    ensures var level := Classify(r, inErrors, outErrors);
            var errors := inErrors + outErrors > 0;
            var gap := if r.outputKbps > r.targetKbps then r.outputKbps - r.targetKbps else r.targetKbps - r.outputKbps;
            var off := r.targetKbps > 0 && r.outputKbps > 0 && 5 * gap > r.targetKbps;
            && (level == Offline <==> !r.active)
            && (level == Error <==> r.active && (r.statusBad || (r.inputKbps > 0 && errors)))
            && (level == Warn <==> r.active && !r.statusBad && (r.inputKbps == 0 || (!errors && off)))
            && (level == Good <==> r.active && !r.statusBad && r.inputKbps > 0 && !errors && !off)
  {
    var gap := if r.outputKbps > r.targetKbps then r.outputKbps - r.targetKbps else r.targetKbps - r.outputKbps;
    if r.targetKbps > 0 { FifthExactly(gap, r.targetKbps); }
  }

  lemma FifthExactly(gap: nat, target: nat)
    requires target > 0
    ensures (gap as real) / (target as real) > 0.20 <==> 5 * gap > target
  {
    var q := (gap as real) / (target as real);
    assert q * (target as real) == gap as real;
    if q > 0.20 {
      RealMonotone(0.20, q, target as real);
    } else {
      RealMonotone(q, 0.20, target as real);
    }
    assert (5 * gap) as real == 5.0 * (gap as real);
  }

  lemma RealMonotone(x: real, y: real, d: real)
    requires x <= y && d > 0.0
    ensures x * d <= y * d && (x < y ==> x * d < y * d)
  {
  }

  // ----- The newest hour -----------------------------------------------------------------------

  // A sample of the last hour starts a bucket of its own.
  lemma RecentIsAlone(x: Sample, s: Sample, now: nat)
    requires x.timestamp < s.timestamp <= now <= s.timestamp + 3600
    ensures !SameKey(x, s, now)
  {
    assert StepOf(s.timestamp, now) == 1 && BucketOf(s.timestamp, now) == s.timestamp;
  }

  lemma AppendedUnlessMerged(c: Compaction, s: Sample, now: nat)
    requires c.out == [] || StepOf(s.timestamp, now) != c.step || BucketOf(s.timestamp, now) != c.bucket
    ensures Absorb(c, s, now).out == c.out + [s]
  {
  }

  lemma RecentIsAppended(front: seq<Sample>, s: Sample, now: nat)
    requires Spaced(front + [s]) && s.timestamp <= now <= s.timestamp + 3600
    ensures Compact(front + [s], now) == Compact(front, now) + [s]
  {
    var all := front + [s];
    assert all[..|front|] == front && all[|front|] == s;
    assert forall i :: 0 <= i < |front| ==> all[i] == front[i];
    CompactionHolds(front, now);
    var c := CompactAll(front, now);
    if front != [] {
      assert all[|front| - 1].timestamp + RECORD_INTERVAL <= all[|front|].timestamp;
      RecentIsAlone(Last(front), s, now);
    }
    AppendedUnlessMerged(c, s, now);
  }

  // MAIN: a compaction leaves the samples of the last hour alone.
  lemma {:induction false} LastHourIsKept(older: seq<Sample>, recent: seq<Sample>, now: nat)
    requires Spaced(older + recent)
    requires forall i :: 0 <= i < |recent| ==> recent[i].timestamp <= now <= recent[i].timestamp + 3600
    ensures Compact(older + recent, now) == Compact(older, now) + recent
    decreases |recent|
  {
    if recent == [] {
      assert older + recent == older;
    } else {
      var front, s := recent[..|recent| - 1], recent[|recent| - 1];
      var all := older + front;
      assert older + recent == all + [s] && recent == front + [s];
      assert forall i :: 0 <= i < |all| ==> all[i] == (older + recent)[i];
      LastHourIsKept(older, front, now);
      RecentIsAppended(all, s, now);
    }
  }

  // Behind the last hour two samples of one minute are never left, behind a day two of five minutes.
  lemma OlderAreThinned(samples: seq<Sample>, now: nat, i: nat, j: nat)
    requires Spaced(samples) && i < j < |Compact(samples, now)|
    ensures var x, y := Compact(samples, now)[i].timestamp, Compact(samples, now)[j].timestamp;
            && (y + 3600 < now && now <= x + 86400 ==> x / 60 < y / 60)
            && (y + 86400 < now ==> x / 300 < y / 300)
  {
    CompactionHolds(samples, now);
    var out := Compact(samples, now);
    assert out[i].timestamp + RECORD_INTERVAL <= out[j].timestamp;
    assert KeyBefore(out[i], out[j], now);
  }

  // ----- What a sample stands for ------------------------------------------------------------------

  // The sample with the errors of its bucket, which it shows in its level.
  function Shown(s: Sample, inErrors: nat, outErrors: nat): Sample {
    s.(inErrors := inErrors, outErrors := outErrors,
       level := if s.level == Good && inErrors + outErrors > 0 then Error else s.level)
  }

  // A sample that has errors says so.
  predicate ShowsErrors(s: Sample) { s.level == Good ==> s.inErrors == 0 && s.outErrors == 0 }

  ghost predicate StandsFor(x: Sample, samples: seq<Sample>) {
    exists j :: 0 <= j < |samples| && x == Shown(samples[j], x.inErrors, x.outErrors)
  }

  ghost predicate AllStand(out: seq<Sample>, samples: seq<Sample>) {
    forall i :: 0 <= i < |out| ==> StandsFor(out[i], samples)
  }

  lemma StandsForMore(x: Sample, front: seq<Sample>, s: Sample)
    requires StandsFor(x, front)
    ensures StandsFor(x, front + [s])
  {
    var j :| 0 <= j < |front| && x == Shown(front[j], x.inErrors, x.outErrors);
    assert (front + [s])[j] == front[j];
  }

  lemma NewestStands(front: seq<Sample>, s: Sample, inErrors: nat, outErrors: nat)
    ensures StandsFor(Shown(s, inErrors, outErrors), front + [s])
  {
    assert (front + [s])[|front|] == s;
    assert Shown(s, inErrors, outErrors) == Shown((front + [s])[|front|], inErrors, outErrors);
  }

  // MAIN: every sample a compaction leaves is one of the samples it was given, with the errors of its
  // bucket and shown as an error if there are any.
  lemma {:induction false} CompactedStand(samples: seq<Sample>, now: nat)
    requires forall i :: 0 <= i < |samples| ==> ShowsErrors(samples[i])
    ensures AllStand(Compact(samples, now), samples)
    decreases |samples|
  {
    if samples != [] {
      var front, s := samples[..|samples| - 1], samples[|samples| - 1];
      assert samples == front + [s];
      CompactedStand(front, now);
      AbsorbedStand(CompactAll(front, now), front, s, now);
    }
  }

  lemma AbsorbedStand(c: Compaction, front: seq<Sample>, s: Sample, now: nat)
    requires AllStand(c.out, front) && ShowsErrors(s)
    ensures AllStand(Absorb(c, s, now).out, front + [s])
  {
    var out := Absorb(c, s, now).out;
    forall i | 0 <= i < |out| ensures StandsFor(out[i], front + [s]) {
      if i < |out| - 1 {
        assert out[i] == c.out[i];
        StandsForMore(out[i], front, s);
      } else {
        NewestStands(front, s, out[i].inErrors, out[i].outErrors);
      }
    }
  }

  // Exactly the samples of the last thirty days are kept.
  lemma RetentionExactly(samples: seq<Sample>, now: nat, i: nat)
    requires Spaced(samples) && i < |samples| && forall j :: 0 <= j < |samples| ==> samples[j].timestamp <= now
    ensures var gone := |samples| - |Expire(samples, now)|;
            && Expire(samples, now) == samples[gone..]
            && (i < gone <==> samples[i].timestamp + 2592000 < now)
  {
    ExpireRetains(samples, now);
    var kept := Expire(samples, now);
    var gone := |samples| - |kept|;
    if i >= gone { assert kept[i - gone] == samples[i]; }
  }

  // ----- The newest sample ---------------------------------------------------------------------------

  // A recording that is not too soon leaves its sample as the newest one, whole.
  lemma NewestIsRecorded(h: History, sample: Sample)
    requires Inv(h) && !TooSoon(h.samples, sample.timestamp)
    ensures Record(h, sample).samples != [] && Last(Record(h, sample).samples) == sample
  {
    var now := sample.timestamp;
    AdmitKeepsInv(h, sample);
    PutAndExpire(h.samples, sample);
    var kept := Expire(Put(h.samples, sample), now);
    assert kept == kept[..|kept| - 1] + [sample];
    RecentIsAppended(kept[..|kept| - 1], sample, now);
  }

  // MAIN: the newest sample behind a poll is what was read, with the errors since the sample before it: the
  // difference of the totals, or the new total if the counter was restarted. The first sample has the
  // errors reported with it.
  lemma PolledSampleIs(h: History, r: Reading)
    requires Inv(h) && (h.samples != [] ==> r.now >= Last(h.samples).timestamp + 30)
    ensures Poll(h, r).samples != []
    ensures var newest := Last(Poll(h, r).samples);
            && newest.timestamp == r.now && newest.active == r.active
            && newest.inputKbps == r.inputKbps && newest.outputKbps == r.outputKbps && newest.targetKbps == r.targetKbps
            && newest.inTotal == r.inTotal && newest.outTotal == r.outTotal
            && newest.level == Classify(r, newest.inErrors, newest.outErrors)
            && (h.samples == [] ==> newest.inErrors == r.recentIn && newest.outErrors == r.recentOut)
            && (h.samples != [] ==>
                  var last := Last(h.samples);
                  && newest.inErrors == (if r.inTotal >= last.inTotal then r.inTotal - last.inTotal else r.inTotal)
                  && newest.outErrors == if r.outTotal >= last.outTotal then r.outTotal - last.outTotal else r.outTotal)
  {
    NewestIsRecorded(h, Prepare(h.samples, r));
  }

  // ----- One recording -------------------------------------------------------------------------------

  // MAIN: what a recording makes of a history: nothing within thirty seconds of the newest sample, otherwise
  // the sample is appended and the expired ones are dropped, and a minute after the last compaction all of
  // it is compacted.
  lemma RecordedExactly(h: History, sample: Sample)
    requires Inv(h)
    ensures var now := sample.timestamp;
            var kept := Expire(h.samples + [sample], now);
            Record(h, sample) == if h.samples != [] && now < Last(h.samples).timestamp + 30 then h
                                 else if h.lastCompaction != 0 && now < h.lastCompaction + 60
                                 then History(kept, h.lastCompaction)
                                 else History(Compact(kept, now), now)
  {
    if !TooSoon(h.samples, sample.timestamp) {
      PutInOrder(h.samples, sample);
      AdmitKeepsInv(h, sample);
    }
  }

  // The cap keeps the newest ten thousand samples.
  lemma CapExactly(samples: seq<Sample>)
    ensures |Cap(samples)| == Min(|samples|, 10_000) && Cap(samples) == samples[|samples| - |Cap(samples)|..]
  {
  }
}
