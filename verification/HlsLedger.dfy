// The private byte/duration ledger of the HLS scheduler: how bytes that cross
// the terminal queue are turned into consumed media time.
module HlsLedger {
  import opened Helpers

  // One registered segment, or what is left of it.
  datatype Span = Span(bytes: nat, ns: nat)

  function SumNs(spans: seq<Span>): nat {
    if spans == [] then 0 else spans[0].ns + SumNs(spans[1..])
  }

  function SumBytes(spans: seq<Span>): nat {
    if spans == [] then 0 else spans[0].bytes + SumBytes(spans[1..])
  }

  // Segments are registered with at least one packet of payload.
  ghost predicate Positive(spans: seq<Span>) {
    forall i :: 0 <= i < |spans| ==> spans[i].bytes > 0
  }

  // Whether the proportional share of a partial take rounds down to nothing
  // and is raised to one nanosecond.
  predicate Raised(span: Span, take: nat)
    requires 0 < take <= span.bytes
  {
    take < span.bytes && span.ns > 0 && span.ns * take / span.bytes == 0
  }

  // The duration charged for `take` bytes of a span.
  function TakeNs(span: Span, take: nat): (ns: nat)
    requires 0 < take <= span.bytes
    ensures ns <= span.ns
  {
    if take == span.bytes then span.ns
    else if Raised(span, take) then 1
    else
      ShareBounds(span.ns, take, span.bytes);
      span.ns * take / span.bytes
  }

  // The floored share of R ns for t of M bytes.
  lemma ShareBounds(R: nat, t: nat, M: nat)
    requires 0 < t <= M
    ensures 0 <= R * t / M <= R
    ensures (R * t / M) * M <= R * t < (R * t / M + 1) * M
  {
    DivBounds(R * t, M);
    MulMonotone(t, M, R);
    if R * t / M > R { MulMonotone(R + 1, R * t / M, M); }
  }

  lemma DivBounds(x: nat, M: nat)
    requires M > 0
    ensures 0 <= x / M
    ensures (x / M) * M <= x < (x / M + 1) * M
  {
    assert (x / M + 1) * M == (x / M) * M + M;
  }

  datatype Drained = Drained(rest: seq<Span>, consumed: nat)

  // One terminal buffer of `bytes` bytes against the ledger.
  function Drain(spans: seq<Span>, bytes: nat): Drained
    decreases |spans|
  {
    if bytes == 0 || spans == [] then Drained(spans, 0)
    else if spans[0].bytes == 0 then Drain(spans[1..], bytes)
    else if bytes < spans[0].bytes then
      var ns := TakeNs(spans[0], bytes);
      Drained([Span(spans[0].bytes - bytes, spans[0].ns - ns)] + spans[1..], ns)
    else
      var tail := Drain(spans[1..], bytes - spans[0].bytes);
      Drained(tail.rest, spans[0].ns + tail.consumed)
  }

  // Any number of terminal buffers, in order.
  function DrainAll(spans: seq<Span>, buffers: seq<nat>): Drained
    decreases |buffers|
  {
    if buffers == [] then Drained(spans, 0)
    else
      var first := Drain(spans, buffers[0]);
      var tail := DrainAll(first.rest, buffers[1..]);
      Drained(tail.rest, first.consumed + tail.consumed)
  }

  function Total(buffers: seq<nat>): nat {
    if buffers == [] then 0 else buffers[0] + Total(buffers[1..])
  }

  // ----- Conservation ---------------------------------------------------------

  lemma {:induction false} DrainConserves(spans: seq<Span>, bytes: nat)
    requires Positive(spans)
    ensures Positive(Drain(spans, bytes).rest)
    ensures Drain(spans, bytes).consumed + SumNs(Drain(spans, bytes).rest) == SumNs(spans)
    ensures SumBytes(Drain(spans, bytes).rest) == if bytes <= SumBytes(spans) then SumBytes(spans) - bytes else 0
    decreases |spans|
  {
    if bytes == 0 || spans == [] {
    } else if bytes < spans[0].bytes {
      var d := Drain(spans, bytes);
      assert d.rest[1..] == spans[1..];
    } else {
      DrainConserves(spans[1..], bytes - spans[0].bytes);
    }
  }

  lemma {:induction false} DrainAllConserves(spans: seq<Span>, buffers: seq<nat>)
    requires Positive(spans)
    ensures Positive(DrainAll(spans, buffers).rest)
    ensures DrainAll(spans, buffers).consumed + SumNs(DrainAll(spans, buffers).rest) == SumNs(spans)
    ensures SumBytes(DrainAll(spans, buffers).rest)
         == if Total(buffers) <= SumBytes(spans) then SumBytes(spans) - Total(buffers) else 0
    decreases |buffers|
  {
    if buffers != [] {
      DrainConserves(spans, buffers[0]);
      DrainAllConserves(Drain(spans, buffers[0]).rest, buffers[1..]);
    }
  }

  // ----- A fully drained segment accounts for exactly its duration ---------------

  // What a ledger looks like after a drain: later spans untouched, the front cut.
  ghost predicate CutOf(rest: seq<Span>, spans: seq<Span>) {
    && |rest| <= |spans|
    && (rest != [] ==> 0 < rest[0].bytes <= spans[|spans| - |rest|].bytes)
    && (rest != [] && rest[0].bytes == spans[|spans| - |rest|].bytes ==> rest[0] == spans[|spans| - |rest|])
    && (rest != [] ==> rest[1..] == spans[|spans| - |rest| + 1..])
  }

  lemma {:induction false} DrainCuts(spans: seq<Span>, bytes: nat)
    requires Positive(spans)
    ensures CutOf(Drain(spans, bytes).rest, spans)
    decreases |spans|
  {
    if bytes != 0 && spans != [] {
      if bytes < spans[0].bytes {
        assert Drain(spans, bytes).rest[1..] == spans[1..];
      } else {
        DrainCuts(spans[1..], bytes - spans[0].bytes);
        var rest := Drain(spans, bytes).rest;
        if rest != [] {
          var k := |spans| - |rest|;
          assert spans[1..][k - 1] == spans[k];
          assert spans[1..][k..] == spans[k + 1..];
        }
      }
    }
  }

  lemma CutTransitive(a: seq<Span>, b: seq<Span>, c: seq<Span>)
    requires CutOf(a, b) && CutOf(b, c)
    ensures CutOf(a, c)
  {
    if a != [] {
      var j, k := |b| - |a|, |c| - |b|;
      if j > 0 {
        assert b[j] == b[1..][j - 1] == c[k + 1..][j - 1] == c[k + j];
        assert a[1..] == b[j + 1..] == b[1..][j..] == c[k + 1..][j..] == c[k + j + 1..];
      }
    }
  }

  lemma {:induction false} DrainAllCuts(spans: seq<Span>, buffers: seq<nat>)
    requires Positive(spans)
    ensures CutOf(DrainAll(spans, buffers).rest, spans)
    decreases |buffers|
  {
    if buffers != [] {
      var first := Drain(spans, buffers[0]);
      DrainCuts(spans, buffers[0]);
      DrainConserves(spans, buffers[0]);
      DrainAllCuts(first.rest, buffers[1..]);
      CutTransitive(DrainAll(first.rest, buffers[1..]).rest, first.rest, spans);
    }
  }

  lemma {:induction false} SumSplit(spans: seq<Span>, m: nat)
    requires m <= |spans|
    ensures SumBytes(spans) == SumBytes(spans[..m]) + SumBytes(spans[m..])
    ensures SumNs(spans) == SumNs(spans[..m]) + SumNs(spans[m..])
  {
    if m > 0 {
      SumSplit(spans[1..], m - 1);
      assert spans[..m][1..] == spans[1..][..m - 1];
      assert spans[1..][m - 1..] == spans[m..];
    } else {
      assert spans[..0] == [] && spans[0..] == spans;
    }
  }

  lemma NoBytesNoSpans(spans: seq<Span>)
    requires Positive(spans) && SumBytes(spans) == 0
    ensures spans == []
  {
  }

  // Later suffixes hold fewer bytes.
  lemma {:induction false} SuffixBytes(spans: seq<Span>, i: nat, j: nat)
    requires Positive(spans) && i <= j <= |spans|
    ensures SumBytes(spans[j..]) <= SumBytes(spans[i..])
    ensures i < j ==> SumBytes(spans[j..]) < SumBytes(spans[i..])
    decreases j - i
  {
    if i < j {
      SuffixBytes(spans, i + 1, j);
      assert spans[i..][1..] == spans[i + 1..];
    }
  }

  // What is left of a cut list: the front span and the untouched ones behind it.
  lemma CutBytes(rest: seq<Span>, spans: seq<Span>)
    requires CutOf(rest, spans) && rest != []
    ensures var k := |spans| - |rest|;
            && SumBytes(rest) == rest[0].bytes + SumBytes(spans[k + 1..])
            && SumBytes(spans[k..]) == spans[k].bytes + SumBytes(spans[k + 1..])
            && (rest[0] == spans[k] ==> rest == spans[k..])
  {
    var k := |spans| - |rest|;
    assert spans[k..][1..] == spans[k + 1..];
    assert rest == [rest[0]] + rest[1..];
    assert spans[k..] == [spans[k]] + spans[k + 1..];
  }

  // A cut is determined by how many bytes are left, whenever that amount ends
  // on a segment boundary.
  lemma CutAtBoundary(rest: seq<Span>, spans: seq<Span>, m: nat)
    requires Positive(spans) && Positive(rest) && CutOf(rest, spans) && m <= |spans|
    requires SumBytes(rest) == SumBytes(spans[m..])
    ensures rest == spans[m..]
  {
    var k := |spans| - |rest|;
    if rest == [] {
      NoBytesNoSpans(spans[m..]);
    } else {
      CutBytes(rest, spans);
      if k < m {
        SuffixBytes(spans, k + 1, m);
      } else if m < k {
        SuffixBytes(spans, m, k);
      }
    }
  }

  // However the bytes of the first m segments are split into terminal buffers,
  // draining them consumes exactly the durations of those m segments.
  lemma DrainedSegmentsAreExact(spans: seq<Span>, buffers: seq<nat>, m: nat)
    requires Positive(spans) && m <= |spans|
    requires Total(buffers) == SumBytes(spans[..m])
    ensures DrainAll(spans, buffers) == Drained(spans[m..], SumNs(spans[..m]))
  {
    DrainAllConserves(spans, buffers);
    DrainAllCuts(spans, buffers);
    SumSplit(spans, m);
    CutAtBoundary(DrainAll(spans, buffers).rest, spans, m);
  }

  // ----- Fluid bound inside one segment --------------------------------------------

  // How many of the takes were raised to one nanosecond.
  function RaisedCount(span: Span, takes: seq<nat>): nat
    requires (forall i :: 0 <= i < |takes| ==> takes[i] > 0) && Total(takes) < span.bytes
    decreases |takes|
  {
    if takes == [] then 0
    else
      var left := Span(span.bytes - takes[0], span.ns - TakeNs(span, takes[0]));
      (if Raised(span, takes[0]) then 1 else 0) + RaisedCount(left, takes[1..])
  }

  // The lead of the ledger over the fluid amount once k of the N bytes and c of
  // the D ns are gone.
  function Lead(N: nat, D: nat, k: nat, c: nat): int { c * N - k * D }

  function Pos(x: int): nat { if x > 0 then x else 0 }

  // Charging q ns for the next t bytes, seen through the bytes M and the time R
  // that are left.
  lemma LeadStep(N: nat, D: nat, k: nat, c: nat, t: nat, q: nat)
    requires k + t < N && c + q <= D
    ensures Lead(N, D, k + t, c + q) * (N - k)
         == Lead(N, D, k, c) * (N - k - t) + (q * (N - k) - (D - c) * t) * N
  {
    var M, R, lead := N - k, D - c, Lead(N, D, k, c);
    LeadAfter(N, D, k, c, t, q);
    LeadLeft(N, D, k, c);
    LeadIdentity(lead, q, N, t, D, M, R);
  }

  lemma LeadAfter(N: nat, D: nat, k: nat, c: nat, t: nat, q: nat)
    ensures Lead(N, D, k + t, c + q) == Lead(N, D, k, c) + q * N - t * D
  {
    Distribute(c, q, N);
    Distribute(k, t, D);
  }

  lemma LeadLeft(N: nat, D: nat, k: nat, c: nat)
    ensures (D - c) * N == D * (N - k) - Lead(N, D, k, c)
  {
    Distribute(D, 0 - c as int, N);
    Distribute(N, 0 - k as int, D);
  }

  lemma LeadIdentity(lead: int, q: int, N: int, t: int, D: int, M: int, R: int)
    requires R * N == D * M - lead
    ensures (lead + q * N - t * D) * M == lead * (M - t) + (q * M - R * t) * N
  {
    assert (lead + q * N - t * D) * M == lead * M + (q * M) * N - t * (D * M);
    assert t * (D * M) == t * (R * N) + t * lead by {
      assert D * M == R * N + lead;
    }
    assert t * (R * N) == (R * t) * N;
    assert (q * M - R * t) * N == (q * M) * N - (R * t) * N;
  }

  // A floored share cannot raise a positive lead nor make one, and costs less
  // than N.
  lemma FluidStep(N: nat, D: nat, k: nat, c: nat, t: nat, q: nat)
    requires 0 < t && k + t < N && c + q <= D
    requires q * (N - k) <= (D - c) * t < (q + 1) * (N - k)
    ensures Lead(N, D, k + t, c + q) <= Pos(Lead(N, D, k, c))
    ensures -Lead(N, D, k + t, c + q) < Pos(-Lead(N, D, k, c)) + N
  {
    var M, lead, lead' := N - k, Lead(N, D, k, c), Lead(N, D, k + t, c + q);
    LeadStep(N, D, k, c, t, q);
    GapBounds(q, M, (D - c) * t, N);
    SignOfProduct(lead', lead, M, t, N);
  }

  lemma GapBounds(q: nat, M: nat, x: nat, N: nat)
    requires N > 0 && q * M <= x < (q + 1) * M
    ensures -(M * N) < (q * M - x) * N <= 0
  {
    var gap := q * M - x;
    assert gap + M > 0 by { assert (q + 1) * M == q * M + M; }
    MulMonotone(gap, 0, N);
    MulMonotone(1 - M, gap, N);
    assert (1 - M) * N == N - M * N;
  }

  lemma SignOfProduct(lead': int, lead: int, M: nat, t: nat, N: nat)
    requires 0 < t < M
    requires lead * (M - t) - M * N < lead' * M <= lead * (M - t)
    ensures lead' <= Pos(lead)
    ensures -lead' < Pos(-lead) + N
  {
    assert lead * (M - t) == lead * M - lead * t;
    if lead <= 0 {
      MulMonotone(lead, 0, M - t);
      MulMonotone(lead, 0, t);
      CancelAtMost(lead', 0, M);
      assert (lead - N) * M == lead * M - M * N;
      CancelLess(lead - N, lead', M);
    } else {
      MulMonotone(0, lead, t);
      MulMonotone(0, lead, M - t);
      CancelAtMost(lead', lead, M);
      assert (0 - N) * M == -(M * N);
      CancelLess(0 - N, lead', M);
    }
  }

  lemma CancelAtMost(x: int, y: int, M: nat)
    requires M > 0 && x * M <= y * M
    ensures x <= y
  {
    if x > y { MulMonotone(y + 1, x, M); }
  }

  lemma CancelLess(x: int, y: int, M: nat)
    requires M > 0 && x * M < y * M
    ensures x < y
  {
    if x >= y { MulMonotone(y, x, M); }
  }

  lemma {:induction false} FluidUpper(N: nat, D: nat, k: nat, c: nat, takes: seq<nat>, lead: nat)
    requires c <= D && (forall i :: 0 <= i < |takes| ==> takes[i] > 0) && k + Total(takes) < N
    requires Lead(N, D, k, c) <= lead
    ensures Lead(N, D, k + Total(takes), c + DrainAll([Span(N - k, D - c)], takes).consumed)
         <= lead + RaisedCount(Span(N - k, D - c), takes) * N
    decreases |takes|
  {
    if takes != [] {
      var span, t := Span(N - k, D - c), takes[0];
      var q, raised := TakeNs(span, t), if Raised(span, t) then 1 else 0;
      var left := Span(span.bytes - t, span.ns - q);
      DrainOne(span, t);
      FluidTake(N, D, k, c, t);
      FluidUpper(N, D, k + t, c + q, takes[1..], lead + raised * N);
      Distribute(raised, RaisedCount(left, takes[1..]), N);
    }
  }

  lemma {:induction false} FluidLower(N: nat, D: nat, k: nat, c: nat, takes: seq<nat>, lag: nat)
    requires c <= D && (forall i :: 0 <= i < |takes| ==> takes[i] > 0) && k + Total(takes) < N
    requires -Lead(N, D, k, c) <= lag
    ensures -Lead(N, D, k + Total(takes), c + DrainAll([Span(N - k, D - c)], takes).consumed) <= lag + |takes| * N
    ensures takes != [] ==>
      -Lead(N, D, k + Total(takes), c + DrainAll([Span(N - k, D - c)], takes).consumed) < lag + |takes| * N
    decreases |takes|
  {
    if takes != [] {
      var span, t := Span(N - k, D - c), takes[0];
      var q := TakeNs(span, t);
      DrainOne(span, t);
      FluidTake(N, D, k, c, t);
      FluidLower(N, D, k + t, c + q, takes[1..], lag + N - 1);
      Distribute(1, |takes[1..]|, N);
    }
  }

  // Takes totalling less than what is left of a segment: the consumed time leads
  // the fluid amount by at most one nanosecond for each raised take and lags it
  // by less than one for each take.
  lemma FluidBound(N: nat, D: nat, k: nat, c: nat, takes: seq<nat>)
    requires k < N && c <= D
    requires forall i :: 0 <= i < |takes| ==> takes[i] > 0
    requires k + Total(takes) < N
    ensures var c' := c + DrainAll([Span(N - k, D - c)], takes).consumed;
            var k' := k + Total(takes);
            && Lead(N, D, k', c') <= Pos(Lead(N, D, k, c)) + RaisedCount(Span(N - k, D - c), takes) * N
            && -Lead(N, D, k', c') <= Pos(-Lead(N, D, k, c)) + |takes| * N
            && (takes != [] ==> -Lead(N, D, k', c') < Pos(-Lead(N, D, k, c)) + |takes| * N)
  {
    FluidUpper(N, D, k, c, takes, Pos(Lead(N, D, k, c)));
    FluidLower(N, D, k, c, takes, Pos(-Lead(N, D, k, c)));
  }

  lemma DrainOne(span: Span, t: nat)
    requires 0 < t < span.bytes
    ensures var q := TakeNs(span, t); Drain([span], t) == Drained([Span(span.bytes - t, span.ns - q)], q)
  {
    var left := Span(span.bytes - t, span.ns - TakeNs(span, t));
    assert [left] + [span][1..] == [left];
  }

  lemma Distribute(x: int, y: int, N: int)
    ensures (x + y) * N == x * N + y * N
  {
  }

  // One take.
  lemma FluidTake(N: nat, D: nat, k: nat, c: nat, t: nat)
    requires 0 < t && k + t < N && c <= D
    ensures var span := Span(N - k, D - c);
            var q := TakeNs(span, t);
            && Lead(N, D, k + t, c + q) <= Pos(Lead(N, D, k, c)) + (if Raised(span, t) then N else 0)
            && -Lead(N, D, k + t, c + q) < Pos(-Lead(N, D, k, c)) + N
  {
    var span := Span(N - k, D - c);
    ShareBounds(span.ns, t, span.bytes);
    if Raised(span, t) {
      FluidStep(N, D, k, c, t, 0);
      assert (c + 1) * N == (c + 0) * N + N;
    } else {
      FluidStep(N, D, k, c, t, TakeNs(span, t));
    }
  }

  // From the start of a segment of N bytes and D ns: after takes totalling k < N
  // bytes the consumed time c satisfies  k*D/N - |takes| < c <= k*D/N + raised.
  // Without a raised take the ledger never runs ahead of the fluid amount.
  lemma FluidBoundFromStart(N: nat, D: nat, takes: seq<nat>, k: nat, c: nat, raised: nat)
    requires takes != [] && (forall i :: 0 <= i < |takes| ==> takes[i] > 0)
    requires k == Total(takes) < N && c == DrainAll([Span(N, D)], takes).consumed
    requires raised == RaisedCount(Span(N, D), takes)
    ensures c * N <= k * D + raised * N
    ensures k * D < c * N + |takes| * N
  {
    LeadFromStart(N, D, takes, k, c, raised);
    LagFromStart(N, D, takes, k, c);
    FromLead(N, D, k, c, raised, |takes|);
  }

  lemma LeadFromStart(N: nat, D: nat, takes: seq<nat>, k: nat, c: nat, raised: nat)
    requires forall i :: 0 <= i < |takes| ==> takes[i] > 0
    requires k == Total(takes) < N && c == DrainAll([Span(N, D)], takes).consumed
    requires raised == RaisedCount(Span(N, D), takes)
    ensures Lead(N, D, k, c) <= raised * N
  {
    FluidUpper(N, D, 0, 0, takes, 0);
  }

  lemma LagFromStart(N: nat, D: nat, takes: seq<nat>, k: nat, c: nat)
    requires takes != [] && forall i :: 0 <= i < |takes| ==> takes[i] > 0
    requires k == Total(takes) < N && c == DrainAll([Span(N, D)], takes).consumed
    ensures -Lead(N, D, k, c) < |takes| * N
  {
    assert Lead(N, D, 0, 0) == 0;
    FluidLower(N, D, 0, 0, takes, 0);
  }

  // Reading the two bounds off the lead.
  lemma FromLead(N: nat, D: nat, k: nat, c: nat, raised: nat, takes: nat)
    requires Lead(N, D, k, c) <= raised * N && -Lead(N, D, k, c) < takes * N
    ensures c * N <= k * D + raised * N
    ensures k * D < c * N + takes * N
  {
  }

  // ----- When the ledger never runs ahead ---------------------------------------------

  // Whatever the terminal buffers of a segment are, as long as they end inside it or with it, the
  // consumed time is at most the proportional share of the bytes.
  ghost predicate NeverAhead(N: nat, D: nat) {
    forall takes: seq<nat> :: Total(takes) <= N ==> NotAhead(N, D, takes)
  }

  ghost predicate NotAhead(N: nat, D: nat, takes: seq<nat>) {
    DrainAll([Span(N, D)], takes).consumed * N <= Total(takes) * D
  }

  // A share of at least one nanosecond a byte is not raised and leaves at least that for the rest.
  lemma ShareKeepsRate(R: nat, t: nat, M: nat)
    requires 0 < t < M && (R == 0 || R >= M)
    ensures !Raised(Span(M, R), t)
    ensures var left := R - TakeNs(Span(M, R), t); left == 0 || left >= M - t
  {
    if R > 0 {
      ShareBounds(R, t, M);
      var q := R * t / M;
      MulMonotone(M, R, t);
      if q == 0 { assert (q + 1) * M == M; MulMonotone(1, t, M); }
      assert (R - q) * M >= R * M - R * t == R * (M - t);
      MulMonotone(M, R, M - t);
      CancelAtMost(M - t, R - q, M);
    }
  }

  lemma {:induction false} RateKeepsBehind(N: nat, D: nat, k: nat, c: nat, takes: seq<nat>)
    requires c <= D && k + Total(takes) < N && (D - c == 0 || D - c >= N - k)
    requires Lead(N, D, k, c) <= 0
    ensures Lead(N, D, k + Total(takes), c + DrainAll([Span(N - k, D - c)], takes).consumed) <= 0
    decreases |takes|
  {
    if takes != [] {
      var span, t := Span(N - k, D - c), takes[0];
      if t == 0 {
        RateKeepsBehind(N, D, k, c, takes[1..]);
      } else {
        ShareKeepsRate(span.ns, t, span.bytes);
        DrainOne(span, t);
        FluidTake(N, D, k, c, t);
        RateKeepsBehind(N, D, k + t, c + TakeNs(span, t), takes[1..]);
      }
    }
  }

  lemma WholeSegment(N: nat, D: nat, takes: seq<nat>)
    requires Total(takes) == N
    ensures NotAhead(N, D, takes)
  {
    if N > 0 {
      var spans := [Span(N, D)];
      assert spans[..1] == spans && spans[1..] == [];
      DrainedSegmentsAreExact(spans, takes, 1);
    }
  }

  // The raise to one nanosecond is what lets the ledger run ahead: the first byte of a segment of
  // less than a nanosecond a byte already consumes a whole one.
  lemma OneByteIsRaised(N: nat, D: nat)
    requires 0 < D < N && N > 1
    ensures Raised(Span(N, D), 1) && Total([1]) == 1
    ensures DrainAll([Span(N, D)], [1]).consumed == 1
  {
    assert D * 1 / N == 0;
    DrainOne(Span(N, D), 1);
    assert DrainAll(Drain([Span(N, D)], 1).rest, [1][1..]).consumed == 0;
  }

  // MAIN: the ledger never runs ahead of the fluid amount, for any terminal buffers, exactly for
  // segments of at least one nanosecond a byte, of no duration, or of a single byte.
  lemma NeverAheadExactlyAtANanosecondAByte(N: nat, D: nat)
    ensures NeverAhead(N, D) <==> N <= 1 || D == 0 || D >= N
  {
    if N <= 1 || D == 0 || D >= N {
      forall takes: seq<nat> | Total(takes) <= N ensures NotAhead(N, D, takes) {
        if Total(takes) == N { WholeSegment(N, D, takes); } else { PartOfSegment(N, D, takes); }
      }
    } else {
      FirstByteAhead(N, D);
    }
  }

  lemma PartOfSegment(N: nat, D: nat, takes: seq<nat>)
    requires Total(takes) < N && (D == 0 || D >= N)
    ensures NotAhead(N, D, takes)
  {
    RateKeepsBehind(N, D, 0, 0, takes);
  }

  lemma FirstByteAhead(N: nat, D: nat)
    requires 0 < D < N && N > 1
    ensures !NeverAhead(N, D)
  {
    OneByteIsRaised(N, D);
    assert Total([1]) <= N && !NotAhead(N, D, [1]);
  }

  // Such a segment: one packet of one nanosecond.
  lemma RaiseRunsAhead()
    ensures Raised(Span(188, 1), 1) && DrainAll([Span(188, 1)], [1]).consumed * 188 > Total([1]) * 1
    ensures !NeverAhead(188, 1)
  {
    OneByteIsRaised(188, 1);
    NeverAheadExactlyAtANanosecondAByte(188, 1);
  }

  lemma {:induction false} SumAppend(spans: seq<Span>, x: Span)
    ensures SumNs(spans + [x]) == SumNs(spans) + x.ns
    ensures SumBytes(spans + [x]) == SumBytes(spans) + x.bytes
  {
    if spans == [] {
      assert spans + [x] == [x];
      assert [x][1..] == [];
    } else {
      SumAppend(spans[1..], x);
      assert (spans + [x])[1..] == spans[1..] + [x];
    }
  }
}
