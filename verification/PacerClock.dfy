// The send clock of the NETUP pacer: absolute deadlines one interval apart, catch-up
// after short delays, a reset after long ones, and the rate bound they give.
module PacerClock {
  import opened Helpers

  const CHUNK_BITS: nat := 188 * 7 * 8
  const NS_PER_SECOND: nat := 1_000_000_000
  const LATE_RESET_INTERVALS: nat := 4

  // multiplyDivide in 128-bit arithmetic.
  function MultiplyDivide(value: nat, multiplier: nat, divisor: nat): nat {
    if divisor == 0 then 0 else value * multiplier / divisor
  }

  function Interval(bitrate: nat): (ns: nat)
    ensures ns > 0
  {
    var wanted := MultiplyDivide(CHUNK_BITS, NS_PER_SECOND, bitrate);
    if wanted < 1 then 1 else wanted
  }

  // The interval is the whole nanoseconds a chunk takes at the bitrate, and one for rates beyond that and for none.
  lemma IntervalExactly(bitrate: nat)
    ensures Interval(bitrate) > 1 ==>
              Interval(bitrate) * bitrate <= 10_528_000_000_000 < (Interval(bitrate) + 1) * bitrate
    ensures Interval(bitrate) == 1 <==> bitrate == 0 || 10_528_000_000_000 < 2 * bitrate
  {
    if bitrate > 0 {
      var total, q := CHUNK_BITS * NS_PER_SECOND, CHUNK_BITS * NS_PER_SECOND / bitrate;
      QuotientBrackets(total, bitrate);
      if q >= 2 { AtLeastTwice(q, bitrate); }
    }
  }

  lemma QuotientBrackets(total: nat, divisor: nat)
    requires divisor > 0
    ensures var q := total / divisor; q * divisor <= total < (q + 1) * divisor
  {
  }

  lemma AtLeastTwice(q: nat, divisor: nat)
    requires q >= 2
    ensures q * divisor >= 2 * divisor
  {
  }

  // What the environment decides in one trip through the send loop: the clock at
  // the top, and the instant the chunk goes out, after any sleep overshoot, pop and
  // scheduling delay.
  datatype Trip = Trip(now: nat, emitted: nat)

  // The deadline a trip ends up using.
  function Deadline(due: nat, now: nat, interval: nat): nat {
    if now < due then due
    else if now > due + interval * LATE_RESET_INTERVALS then now
    else due
  }

  // The clock is monotone, a sleep lasts at least until its deadline, and the next
  // trip starts after the previous emission however long the push takes.
  ghost predicate Timely(trips: seq<Trip>, due: nat, interval: nat)
    decreases |trips|
  {
    trips == [] ||
    (var t := trips[0];
     && t.now <= t.emitted
     && Deadline(due, t.now, interval) <= t.emitted
     && (|trips| > 1 ==> t.emitted <= trips[1].now)
     && Timely(trips[1..], Deadline(due, t.now, interval) + interval, interval))
  }

  // The deadline used by trip i.
  function DeadlineOf(trips: seq<Trip>, due: nat, interval: nat, i: nat): nat
    requires i < |trips|
    decreases i
  {
    var d := Deadline(due, trips[0].now, interval);
    if i == 0 then d else DeadlineOf(trips[1..], d + interval, interval, i - 1)
  }

  // ----- The bound on two emissions -------------------------------------------------

  lemma {:induction false} TripFacts(trips: seq<Trip>, due: nat, interval: nat, i: nat)
    requires Timely(trips, due, interval) && i < |trips|
    ensures var d := DeadlineOf(trips, due, interval, i);
            && d <= trips[i].emitted
            && trips[i].now <= d + interval * LATE_RESET_INTERVALS
            && d >= due + i * interval
            && (i + 1 < |trips| ==> trips[i].emitted <= trips[i + 1].now)
    decreases i
  {
    if i > 0 {
      TripFacts(trips[1..], Deadline(due, trips[0].now, interval) + interval, interval, i - 1);
      assert i * interval == (i - 1) * interval + interval;
    }
  }

  lemma {:induction false} DeadlinesSpread(trips: seq<Trip>, due: nat, interval: nat, a: nat, b: nat)
    requires Timely(trips, due, interval) && a <= b < |trips|
    ensures DeadlineOf(trips, due, interval, b) >= DeadlineOf(trips, due, interval, a) + (b - a) * interval
    decreases a
  {
    var d := Deadline(due, trips[0].now, interval);
    if a > 0 {
      DeadlinesSpread(trips[1..], d + interval, interval, a - 1, b - 1);
    } else if b > 0 {
      TripFacts(trips[1..], d + interval, interval, b - 1);
      assert b * interval == (b - 1) * interval + interval;
    }
  }

  lemma {:induction false} EmissionsAreOrdered(trips: seq<Trip>, due: nat, interval: nat, a: nat, b: nat)
    requires Timely(trips, due, interval) && a <= b < |trips|
    ensures trips[a].emitted <= trips[b].emitted
    decreases b
  {
    if a < b {
      EmissionsAreOrdered(trips, due, interval, a, b - 1);
      TripFacts(trips, due, interval, b - 1);
      TripNow(trips, due, interval, b);
    }
  }

  lemma {:induction false} TripNow(trips: seq<Trip>, due: nat, interval: nat, i: nat)
    requires Timely(trips, due, interval) && i < |trips|
    ensures trips[i].now <= trips[i].emitted
    decreases i
  {
    if i > 0 { TripNow(trips[1..], Deadline(due, trips[0].now, interval) + interval, interval, i - 1); }
  }

  // Catch-up can recover at most the four late intervals: emissions a and b are at
  // least (b - a - 5) intervals apart.
  lemma EmissionsAreSpaced(trips: seq<Trip>, due: nat, interval: nat, a: nat, b: nat)
    requires Timely(trips, due, interval) && a < b < |trips|
    ensures trips[b].emitted + (LATE_RESET_INTERVALS + 1) * interval >= trips[a].emitted + (b - a) * interval
  {
    TripFacts(trips, due, interval, a);
    TripFacts(trips, due, interval, a + 1);
    TripFacts(trips, due, interval, b);
    DeadlinesSpread(trips, due, interval, a + 1, b);
    assert (b - a) * interval == (b - (a + 1)) * interval + interval;
    assert (LATE_RESET_INTERVALS + 1) * interval == interval * LATE_RESET_INTERVALS + interval;
  }

  // ----- The bound on a window --------------------------------------------------------

  function CountIn(trips: seq<Trip>, from: nat, length: nat): nat {
    if trips == [] then 0
    else
      var inside := from <= trips[|trips| - 1].emitted <= from + length;
      CountIn(trips[..|trips| - 1], from, length) + (if inside then 1 else 0)
  }

  ghost predicate Ordered(trips: seq<Trip>) {
    forall i, j :: 0 <= i <= j < |trips| ==> trips[i].emitted <= trips[j].emitted
  }

  // The emissions of a window are those numbered a to b.
  predicate Spans(trips: seq<Trip>, from: nat, length: nat, a: nat, b: nat) {
    a <= b < |trips| && CountIn(trips, from, length) == b - a + 1
    && from <= trips[a].emitted && trips[b].emitted <= from + length
  }

  // Emissions are ordered, so those of a window are consecutive.
  lemma {:induction false} CountSpans(trips: seq<Trip>, from: nat, length: nat)
    requires Ordered(trips) && CountIn(trips, from, length) > 0
    ensures exists a: nat, b: nat :: Spans(trips, from, length, a, b)
    decreases |trips|
  {
    var n := |trips| - 1;
    var front := trips[..n];
    assert Ordered(front);
    if CountIn(front, from, length) > 0 {
      CountSpans(front, from, length);
      var a: nat, b: nat :| Spans(front, from, length, a, b);
      if from <= trips[n].emitted <= from + length {
        AllLaterIn(front, from, length, a, b);
        assert Spans(trips, from, length, a, n);
      } else {
        assert Spans(trips, from, length, a, b);
      }
    } else {
      assert Spans(trips, from, length, n, n);
    }
  }

  // If the last emission is inside too, the window reaches to the end.
  lemma AllLaterIn(trips: seq<Trip>, from: nat, length: nat, a: nat, b: nat)
    requires Ordered(trips) && Spans(trips, from, length, a, b)
    requires trips[|trips| - 1].emitted <= from + length
    ensures b == |trips| - 1
  {
    CountTail(trips, from, length, a);
  }

  lemma {:induction false} CountTail(trips: seq<Trip>, from: nat, length: nat, a: nat)
    requires Ordered(trips)
    requires a < |trips| && from <= trips[a].emitted && trips[|trips| - 1].emitted <= from + length
    ensures CountIn(trips, from, length) >= |trips| - a
    decreases |trips|
  {
    var n := |trips| - 1;
    if a < n {
      assert Ordered(trips[..n]);
      CountTail(trips[..n], from, length, a);
    }
  }

  lemma TimelyIsOrdered(trips: seq<Trip>, start: nat, interval: nat)
    requires Timely(trips, start, interval)
    ensures Ordered(trips)
  {
    forall i, j | 0 <= i <= j < |trips|
      ensures trips[i].emitted <= trips[j].emitted
    {
      EmissionsAreOrdered(trips, start, interval, i, j);
    }
  }

  // Every window of `length` nanoseconds holds at most length / interval + 6
  // chunks, for every monotone clock, sleep overshoot and push delay.
  lemma RateBound(trips: seq<Trip>, start: nat, interval: nat, from: nat, length: nat)
    requires interval > 0 && Timely(trips, start, interval)
    ensures CountIn(trips, from, length) <= length / interval + LATE_RESET_INTERVALS + 2
  {
    var n := CountIn(trips, from, length);
    if n > 0 {
      TimelyIsOrdered(trips, start, interval);
      var a, b := WindowSpan(trips, from, length, n);
      SpanBound(trips, start, interval, a, b, length);
    } else {
      AtMostQuotient(0, length, interval);
    }
  }

  lemma WindowSpan(trips: seq<Trip>, from: nat, length: nat, n: nat) returns (a: nat, b: nat)
    requires Ordered(trips) && n == CountIn(trips, from, length) && n > 0
    ensures a <= b < |trips| && n == b - a + 1 && trips[b].emitted <= trips[a].emitted + length
  {
    CountSpans(trips, from, length);
    a, b :| Spans(trips, from, length, a, b);
  }

  // MAIN: in bits, n chunks of a window of `length` nanoseconds at a bitrate whose interval is not rounded
  // up: the n - 6 that are not a burst take no more than the window at that bitrate, up to the nanosecond
  // the division cuts off each.
  lemma BitrateBound(trips: seq<Trip>, start: nat, bitrate: nat, from: nat, length: nat)
    requires 0 < bitrate <= 10_528_000_000_000 && Timely(trips, start, Interval(bitrate))
    ensures var n := CountIn(trips, from, length);
            n > 6 ==> (n - 6) * (10_528_000_000_000 - bitrate) <= length * bitrate
  {
    var n, interval := CountIn(trips, from, length), Interval(bitrate);
    RateBound(trips, start, interval, from, length);
    if n > 6 {
      var total := CHUNK_BITS * NS_PER_SECOND;
      QuotientBrackets(total, bitrate);
      AtLeastOne(total, bitrate);
      QuotientBrackets(length, interval);
      InBits(n - 6, length, interval, bitrate, total);
    }
  }

  lemma AtLeastOne(total: nat, divisor: nat)
    requires 0 < divisor <= total
    ensures total / divisor >= 1
  {
  }

  lemma InBits(k: nat, length: nat, interval: nat, bitrate: nat, total: nat)
    requires interval > 0 && k <= length / interval && length / interval * interval <= length
    requires total < (interval + 1) * bitrate
    ensures k * (total - bitrate) <= length * bitrate
  {
    var q := length / interval;
    Scaled(k, q, interval);
    assert k * interval <= length;
    Scaled(k * interval, length, bitrate);
    assert total - bitrate <= interval * bitrate by { Distributes(interval, bitrate); }
    ScaledBy(k, total - bitrate, interval * bitrate);
    Associates(k, interval, bitrate);
  }

  lemma Scaled(x: nat, y: nat, d: nat)
    requires x <= y
    ensures x * d <= y * d
  {
  }

  lemma ScaledBy(k: nat, x: int, y: int)
    requires x <= y
    ensures k * x <= k * y
  {
  }

  lemma Distributes(x: nat, d: nat)
    ensures (x + 1) * d == x * d + d
  {
  }

  lemma Associates(x: nat, y: nat, z: nat)
    ensures x * (y * z) == x * y * z
  {
  }

  lemma SpanBound(trips: seq<Trip>, start: nat, interval: nat, a: nat, b: nat, length: nat)
    requires interval > 0 && Timely(trips, start, interval) && a <= b < |trips|
    requires trips[b].emitted <= trips[a].emitted + length
    ensures b - a + 1 <= length / interval + LATE_RESET_INTERVALS + 2
  {
    if b - a > LATE_RESET_INTERVALS + 1 {
      EmissionsAreSpaced(trips, start, interval, a, b);
      var k := b - a - (LATE_RESET_INTERVALS + 1);
      SplitProduct(k, LATE_RESET_INTERVALS + 1, interval);
      AtMostQuotient(k, length, interval);
    } else {
      AtMostQuotient(0, length, interval);
    }
  }

  lemma SplitProduct(x: nat, y: nat, d: nat)
    ensures (x + y) * d == x * d + y * d
  {
  }

  lemma AtMostQuotient(k: nat, x: nat, d: nat)
    requires d > 0 && k * d <= x
    ensures k <= x / d
  {
    var q := x / d;
    assert x < q * d + d by { assert x == q * d + x % d; }
    Between(k, q, d);
  }

  lemma Between(k: nat, q: nat, d: nat)
    requires k * d < q * d + d
    ensures k <= q
  {
    if k >= q + 1 { MulMonotone(q + 1, k, d); }
  }

  // The bound is met: after a push that blocks for five intervals, six chunks leave
  // in the same nanosecond.
  lemma BoundIsTight(interval: nat)
    requires interval > 0
    ensures var late := 5 * interval;
            var t := Trip(late, late);
            var trips := [Trip(0, late), t, t, t, t, t];
            Timely(trips, 0, interval) && CountIn(trips, late, 0) == 0 / interval + LATE_RESET_INTERVALS + 2
  {
    var late := 5 * interval;
    var t := Trip(late, late);
    var trips := [Trip(0, late), t, t, t, t, t];
    assert trips[1..] == [t, t, t, t, t] && [t, t, t, t, t][1..] == [t, t, t, t];
    assert [t, t, t, t][1..] == [t, t, t] && [t, t, t][1..] == [t, t] && [t, t][1..] == [t] && [t][1..] == [];
    assert Timely([t], 5 * interval, interval);
    assert Timely([t, t], 4 * interval, interval);
    assert Timely([t, t, t], 3 * interval, interval);
    assert Timely([t, t, t, t], 2 * interval, interval);
    assert Timely([t, t, t, t, t], interval, interval);
    var u := Trip(0, late);
    assert trips[..5] == [u, t, t, t, t] && [u, t, t, t, t][..4] == [u, t, t, t] && [u, t, t, t][..3] == [u, t, t];
    assert [u, t, t][..2] == [u, t] && [u, t][..1] == [u] && [u][..0] == [];
    assert CountIn([u], late, 0) == 1 && CountIn([u, t], late, 0) == 2 && CountIn([u, t, t], late, 0) == 3;
    assert CountIn([u, t, t, t], late, 0) == 4 && CountIn([u, t, t, t, t], late, 0) == 5;
    assert 0 / interval == 0;
  }

  // ----- One trip after another ---------------------------------------------------------

  // The next deadline behind a sequence of trips.
  function DueAfter(trips: seq<Trip>, due: nat, interval: nat): nat
    decreases |trips|
  {
    if trips == [] then due else DueAfter(trips[1..], Deadline(due, trips[0].now, interval) + interval, interval)
  }

  // What one more trip has to satisfy behind others.
  predicate Next(trips: seq<Trip>, due: nat, interval: nat, t: Trip) {
    && t.now <= t.emitted
    && Deadline(DueAfter(trips, due, interval), t.now, interval) <= t.emitted
    && (trips != [] ==> trips[|trips| - 1].emitted <= t.now)
  }

  lemma {:induction false} TimelyAppend(trips: seq<Trip>, due: nat, interval: nat, t: Trip)
    ensures Timely(trips + [t], due, interval) <==> Timely(trips, due, interval) && Next(trips, due, interval, t)
    decreases |trips|
  {
    var all := trips + [t];
    if trips == [] {
      assert all[1..] == [];
    } else {
      TimelyAppend(trips[1..], Deadline(due, trips[0].now, interval) + interval, interval, t);
      assert all[1..] == trips[1..] + [t];
      assert |trips| > 1 ==> trips[1..][|trips| - 2] == trips[|trips| - 1];
    }
  }

  lemma {:induction false} DueAfterAppend(trips: seq<Trip>, due: nat, interval: nat, t: Trip)
    ensures DueAfter(trips + [t], due, interval) == Deadline(DueAfter(trips, due, interval), t.now, interval) + interval
    decreases |trips|
  {
    var all := trips + [t];
    if trips == [] {
      assert all[1..] == [];
    } else {
      DueAfterAppend(trips[1..], Deadline(due, trips[0].now, interval) + interval, interval, t);
      assert all[1..] == trips[1..] + [t];
    }
  }

  // The deadline the last of some trips used.
  function LastDeadline(trips: seq<Trip>, due: nat, interval: nat): nat
    requires trips != []
  {
    Deadline(DueAfter(trips[..|trips| - 1], due, interval), trips[|trips| - 1].now, interval)
  }

  lemma DueBehindLast(trips: seq<Trip>, due: nat, interval: nat)
    requires trips != [] && Timely(trips, due, interval)
    ensures DueAfter(trips, due, interval) == LastDeadline(trips, due, interval) + interval
    ensures LastDeadline(trips, due, interval) <= trips[|trips| - 1].emitted
  {
    var n := |trips| - 1;
    var front, last := trips[..n], trips[n];
    assert trips == front + [last];
    DueAfterAppend(front, due, interval, last);
    LastIsNext(front, due, interval, last);
  }

  lemma LastIsNext(front: seq<Trip>, due: nat, interval: nat, t: Trip)
    requires Timely(front + [t], due, interval)
    ensures Next(front, due, interval, t)
  {
    TimelyAppend(front, due, interval, t);
  }

  // The earliest the next chunk can leave behind a chunk emitted at e on deadline d: never before
  // e, never before d + interval, and otherwise as soon as that.
  lemma EarliestNext(trips: seq<Trip>, due: nat, interval: nat, at: nat)
    requires trips != [] && Timely(trips, due, interval)
    ensures var e, d := trips[|trips| - 1].emitted, LastDeadline(trips, due, interval);
            (exists t: Trip :: Timely(trips + [t], due, interval) && t.emitted == at) <==> at >= e && at >= d + interval
  {
    var e, d := trips[|trips| - 1].emitted, LastDeadline(trips, due, interval);
    DueBehindLast(trips, due, interval);
    forall t: Trip | Timely(trips + [t], due, interval) && t.emitted == at
      ensures at >= e && at >= d + interval
    {
      TimelyAppend(trips, due, interval, t);
    }
    if at >= e && at >= d + interval {
      TimelyAppend(trips, due, interval, Trip(e, at));
    }
  }

  // The source means every chunk to follow an interval behind the one before. Behind any run that
  // is certain exactly when the last chunk left on its deadline, with no overshoot or push delay.
  lemma IntervalKeptExactlyOnTime(trips: seq<Trip>, due: nat, interval: nat)
    requires interval > 0 && trips != [] && Timely(trips, due, interval)
    ensures var e, d := trips[|trips| - 1].emitted, LastDeadline(trips, due, interval);
            (forall t: Trip :: Timely(trips + [t], due, interval) ==> t.emitted >= e + interval) <==> e == d
  {
    var e, d := trips[|trips| - 1].emitted, LastDeadline(trips, due, interval);
    DueBehindLast(trips, due, interval);
    forall t: Trip | Timely(trips + [t], due, interval) && e == d
      ensures t.emitted >= e + interval
    {
      EarliestNext(trips, due, interval, t.emitted);
    }
    if e != d {
      var at := Max(e, d + interval);
      EarliestNext(trips, due, interval, at);
      var t: Trip :| Timely(trips + [t], due, interval) && t.emitted == at;
      assert t.emitted < e + interval;
    }
  }

  // Two chunks can leave at one instant exactly when the first is a whole interval late.
  lemma TwoAtOnceExactlyWhenLate(trips: seq<Trip>, due: nat, interval: nat)
    requires trips != [] && Timely(trips, due, interval)
    ensures var e, d := trips[|trips| - 1].emitted, LastDeadline(trips, due, interval);
            (exists t: Trip :: Timely(trips + [t], due, interval) && t.emitted == e) <==> e >= d + interval
  {
    EarliestNext(trips, due, interval, trips[|trips| - 1].emitted);
  }

  // ----- The send loop ------------------------------------------------------------------

  // The delays of one trip: clock time before its top, sleep overshoot or time to fetch the
  // chunk, and time the downstream push takes.
  datatype Delay = Delay(advance: nat, overshoot: nat, push: nat)

  // The trips such delays lead to, from a clock reading and a deadline on.
  function TripsOf(delays: seq<Delay>, clock: nat, due: nat, interval: nat): seq<Trip>
    decreases |delays|
  {
    if delays == [] then []
    else
      var now := clock + delays[0].advance;
      var d := Deadline(due, now, interval);
      var emitted := Max(now, d) + delays[0].overshoot;
      [Trip(now, emitted)] + TripsOf(delays[1..], emitted + delays[0].push, d + interval, interval)
  }

  // The delays decide the trips, and every timely sequence of trips behind the start comes from
  // some delays: bounds on timely trips are bounds on all behaviours of the loop, and no others.
  lemma {:induction false} DelaysAreTimely(delays: seq<Delay>, clock: nat, due: nat, interval: nat)
    ensures var trips := TripsOf(delays, clock, due, interval);
            && |trips| == |delays| && Timely(trips, due, interval)
            && (trips != [] ==> clock <= trips[0].now)
    decreases |delays|
  {
    if delays != [] {
      var now := clock + delays[0].advance;
      var d := Deadline(due, now, interval);
      var emitted := Max(now, d) + delays[0].overshoot;
      DelaysAreTimely(delays[1..], emitted + delays[0].push, d + interval, interval);
      var rest := TripsOf(delays[1..], emitted + delays[0].push, d + interval, interval);
      assert ([Trip(now, emitted)] + rest)[1..] == rest;
    }
  }

  lemma {:induction false} TimelyHasDelays(trips: seq<Trip>, clock: nat, due: nat, interval: nat)
    requires Timely(trips, due, interval) && (trips != [] ==> clock <= trips[0].now)
    ensures exists delays :: TripsOf(delays, clock, due, interval) == trips
    decreases |trips|
  {
    if trips == [] {
      assert TripsOf([], clock, due, interval) == trips;
    } else {
      var t := trips[0];
      var d := Deadline(due, t.now, interval);
      TimelyHasDelays(trips[1..], t.emitted, d + interval, interval);
      var more :| TripsOf(more, t.emitted, d + interval, interval) == trips[1..];
      TripsPrepend(t, d, more, clock, due, interval);
      assert [t] + trips[1..] == trips;
    }
  }

  lemma TripsPrepend(t: Trip, d: nat, more: seq<Delay>, clock: nat, due: nat, interval: nat)
    requires clock <= t.now <= t.emitted && d == Deadline(due, t.now, interval) && d <= t.emitted
    ensures var first := Delay(t.now - clock, t.emitted - Max(t.now, d), 0);
            TripsOf([first] + more, clock, due, interval) == [t] + TripsOf(more, t.emitted, d + interval, interval)
  {
    var first := Delay(t.now - clock, t.emitted - Max(t.now, d), 0);
    assert ([first] + more)[0] == first && ([first] + more)[1..] == more;
  }

  lemma TripsStep(delays: seq<Delay>, i: nat, clock: nat, due: nat, interval: nat)
    requires i < |delays|
    ensures var now := clock + delays[i].advance;
            var d := Deadline(due, now, interval);
            var emitted := Max(now, d) + delays[i].overshoot;
            TripsOf(delays[i..], clock, due, interval)
              == [Trip(now, emitted)] + TripsOf(delays[i + 1..], emitted + delays[i].push, d + interval, interval)
  {
    assert delays[i..][0] == delays[i] && delays[i..][1..] == delays[i + 1..];
  }

  // One trip: sleep until the deadline, catch up or reset, emit, move the deadline on.
  method MakeTrip(d: Delay, clock: nat, due: nat, interval: nat) returns (t: Trip, clock': nat, due': nat)
    ensures t.now == clock + d.advance
    ensures t.emitted == Max(t.now, Deadline(due, t.now, interval)) + d.overshoot
    ensures clock' == t.emitted + d.push && due' == Deadline(due, t.now, interval) + interval
  {
    var now := clock + d.advance;
    clock', due' := now, due;
    if now < due {
      clock' := due;
    } else if now > due + interval * LATE_RESET_INTERVALS {
      due' := now;
    }
    t := Trip(now, clock' + d.overshoot);
    clock', due' := t.emitted + d.push, due' + interval;
  }

  lemma AllWindowsBounded(trips: seq<Trip>, start: nat, interval: nat)
    requires interval > 0 && Timely(trips, start, interval)
    ensures forall from: nat, length: nat ::
      CountIn(trips, from, length) <= length / interval + LATE_RESET_INTERVALS + 2
  {
    forall from: nat, length: nat
      ensures CountIn(trips, from, length) <= length / interval + LATE_RESET_INTERVALS + 2
    {
      RateBound(trips, start, interval, from, length);
    }
  }

  // The timing part of the sender's loop. The rate bound holds for it whatever the delays are.
  method SendLoop(delays: seq<Delay>, start: nat, bitrate: nat) returns (trips: seq<Trip>)
    ensures trips == TripsOf(delays, start, start, Interval(bitrate))
    ensures Timely(trips, start, Interval(bitrate))
    ensures forall from: nat, length: nat ::
      CountIn(trips, from, length) <= length / Interval(bitrate) + LATE_RESET_INTERVALS + 2
  {
    var interval := Interval(bitrate);
    var clock, nextDeadline := start, start;
    trips := [];
    ghost var all := TripsOf(delays, start, start, interval);
    assert delays[0..] == delays && [] + all == all;
    for i := 0 to |delays|
      invariant clock >= 0 && nextDeadline >= 0
      invariant trips + TripsOf(delays[i..], clock, nextDeadline, interval) == all
    {
      TripsStep(delays, i, clock, nextDeadline, interval);
      var t;
      t, clock, nextDeadline := MakeTrip(delays[i], clock, nextDeadline, interval);
      Associate(trips, [t], TripsOf(delays[i + 1..], clock, nextDeadline, interval));
      trips := trips + [t];
    }
    assert delays[|delays|..] == [] && trips + [] == trips;
    DelaysAreTimely(delays, start, start, interval);
    AllWindowsBounded(trips, start, interval);
  }
}
