// The scheduler object: its fields, and its methods proved against the step system.
module HlsImpl {
  import opened Helpers
  import opened HlsLedger
  import opened HlsPlaylist
  import opened HlsScheduler
  import HlsRateWindow

  // The spans behind one turn of the drain loop over the front span.
  function AfterFront(spans: seq<Span>, take: nat, ns: nat): seq<Span>
    requires spans != [] && 0 < take <= spans[0].bytes && ns <= spans[0].ns
  {
    if take == spans[0].bytes then spans[1..] else [Span(spans[0].bytes - take, spans[0].ns - ns)] + spans[1..]
  }

  lemma DrainTurn(spans: seq<Span>, bytes: nat, take: nat, ns: nat)
    requires Positive(spans) && spans != [] && bytes > 0
    requires take == Min(bytes, spans[0].bytes) && ns == TakeNs(spans[0], take)
    ensures var next := AfterFront(spans, take, ns);
            && Positive(next)
            && Drain(spans, bytes).rest == Drain(next, bytes - take).rest
            && Drain(spans, bytes).consumed == ns + Drain(next, bytes - take).consumed
  {
  }

  class Impl {
    const rates: HlsRateWindow.RateWindow
    var now: nat                    // the monotonic clock
    var firstPush: nat              // firstPushMonotonicNs_
    var spans: seq<Span>            // consumptionSpans_
    var pending: nat                // drained, not yet added to consumed
    var consumed: nat               // consumedDurationNs_
    var pushed: nat                 // pushedDurationNs_
    var startup: bool
    var segmentsPushed: nat
    var playlist: seq<Segment>
    var next: nat                   // nextSequence_
    var misses: nat                 // consecutiveUnavailableResponses_
    var unavailable: bool           // controlUnavailable_
    var bufferedUntil: nat          // the deadline marker on the pipeline
    var worker: Worker
    ghost var log: seq<Event>

    ghost function View(): State
      reads this
    {
      State(now, firstPush, spans, pending, consumed, pushed, startup, segmentsPushed,
            playlist, next, misses, unavailable, bufferedUntil, worker, log)
    }

    ghost predicate Valid()
      reads this, rates
    {
      Positive(spans) && Usable(playlist) && rates.Valid()
    }

    constructor (start: nat, segments: seq<Segment>)
      requires Usable(segments)
      ensures Valid() && View() == Start(start, segments) && fresh(rates)
      ensures rates.history == [] && rates.published == 0
    {
      rates := new HlsRateWindow.RateWindow();
      now, firstPush, spans, pending, consumed, pushed := start, 0, [], 0, 0, 0;
      startup, segmentsPushed, playlist, log := true, 0, segments, [];
      misses, unavailable, bufferedUntil, worker := 0, false, 0, Top;
      next := ChooseStartup(segments);
      new;
      assert View() == Start(start, segments);
    }

    // The locked loop of the terminal-pad probe.
    method OnTerminalBuffer(size: nat)
      requires Valid() && Enabled(View(), TerminalBuffer(size))
      modifies this`spans, this`pending
      ensures Valid() && View() == Apply(old(View()), TerminalBuffer(size))
    {
      var bytes: nat, consumedNs: nat := size, 0;
      DrainConserves(spans, size);
      while bytes > 0 && spans != []
        invariant Positive(spans) && 0 <= bytes && 0 <= consumedNs
        invariant Drain(old(spans), size).rest == Drain(spans, bytes).rest
        invariant Drain(old(spans), size).consumed == consumedNs + Drain(spans, bytes).consumed
        invariant pending == old(pending)
        decreases bytes
      {
        var left, takeNs := DrainFront(bytes);
        bytes, consumedNs := left, consumedNs + takeNs;
      }
      pending := consumedNs;
    }

    // One turn of that loop.
    method DrainFront(bytes: nat) returns (left: nat, takeNs: nat)
      requires Positive(spans) && spans != [] && bytes > 0
      modifies this`spans
      ensures Positive(spans) && left < bytes
      ensures Drain(old(spans), bytes).rest == Drain(spans, left).rest
      ensures Drain(old(spans), bytes).consumed == takeNs + Drain(spans, left).consumed
    {
      var take;
      take, takeNs := TakeFrom(spans[0], bytes);
      DrainTurn(spans, bytes, take, takeNs);
      ghost var next := AfterFront(spans, take, takeNs);
      left := bytes - take;
      var span := Span(spans[0].bytes - take, spans[0].ns - takeNs);
      spans := if span.bytes == 0 then spans[1..] else [span] + spans[1..];
      assert spans == next;
    }

    // The part of one span a buffer takes, and the time it is charged.
    method TakeFrom(span: Span, bytes: nat) returns (take: nat, takeNs: nat)
      requires span.bytes > 0 && bytes > 0
      ensures take == Min(bytes, span.bytes) && takeNs == TakeNs(span, take)
    {
      take := if bytes < span.bytes then bytes else span.bytes;
      takeNs := 0;
      if take == span.bytes {
        takeNs := span.ns;
      } else if span.ns > 0 {
        ShareBounds(span.ns, take, span.bytes);
        takeNs := span.ns * take / span.bytes;
        if takeNs == 0 { takeNs := 1; }
        takeNs := if takeNs < span.ns then takeNs else span.ns;
      }
    }

    method Commit()
      requires Valid() && Enabled(View(), CommitConsumed)
      modifies this`pending, this`consumed
      ensures Valid() && View() == Apply(old(View()), CommitConsumed)
    {
      consumed, pending := consumed + pending, 0;
    }

    method AheadNs() returns (ahead: nat)
      ensures ahead == Ahead(View())
    {
      var effective := 0;
      if firstPush != 0 {
        var wallClock := if now > firstPush then now - firstPush else 0;
        effective := if consumed < wallClock then consumed else wallClock;
      }
      ahead := if pushed > effective then pushed - effective else 0;
    }

    method NoteControlRequest(reply: Reply)
      modifies this`misses, this`unavailable
      ensures View() == Note(old(View()), reply)
    {
      match reply {
        case Playlist(_) => misses, unavailable := 0, false;
        case Failed =>
          if !unavailable { misses := 0; }
        case Missing =>
          misses := misses + 1;
          if misses >= UNAVAILABLE_CONFIRMATIONS { unavailable := true; }
      }
    }

    method LoadPlaylist(replies: seq<Reply>) returns (loaded: bool)
      requires Valid() && (Loaded(replies).Some? ==> Usable(Loaded(replies).value))
      modifies this`misses, this`unavailable, this`playlist
      ensures Valid() && loaded == Loaded(replies).Some?
      ensures View() == Reload(old(View()), replies)
    {
      for i := 0 to |replies|
        invariant Valid() && NoteAll(View(), replies[i..]) == NoteAll(old(View()), replies)
        invariant playlist == old(playlist)
        invariant View() == old(View()).(misses := misses, unavailable := unavailable)
      {
        assert replies[i..][1..] == replies[i + 1..];
        NoteControlRequest(replies[i]);
      }
      var got := Loaded(replies);
      loaded := got.Some?;
      if loaded { playlist := got.value; }
    }

    // One recovery probe while the source is unavailable.
    method ProbeSource(replies: seq<Reply>)
      requires Valid() && Enabled(View(), Probe(replies))
      requires Loaded(replies).Some? ==> Usable(Loaded(replies).value)
      modifies this
      ensures Valid() && View() == Apply(old(View()), Probe(replies))
    {
      var recovered := LoadPlaylist(replies);
      if recovered {
        var index := FindSegmentIndex(playlist, next);
        if index == None {
          var to := ChooseStartupSequence(playlist, 0);
          log := log + [Recovered(next, to)];
          next := to;
        }
      }
    }

    // One evaluation of the refill loop's head.
    method CheckRefillNeed()
      requires Valid() && Enabled(View(), CheckRefill)
      modifies this
      ensures Valid() && View() == Apply(old(View()), CheckRefill)
    {
      var ahead := AheadNs();
      var haveStartupSegments := segmentsPushed >= MINIMUM_STARTUP_SEGMENTS;
      if (startup && haveStartupSegments && ahead >= TARGET_AHEAD_NS) || (!startup && ahead >= TARGET_AHEAD_NS) {
        startup, worker := false, Settle(false, worker.progress);
        return;
      }
      CheckSegment(ahead);
    }

    // The part of the loop's head behind the watermark test.
    method CheckSegment(ahead: nat)
      requires Valid() && Enabled(View(), CheckRefill) && ahead == Ahead(View()) && !RefillSatisfied(View())
      modifies this`next, this`log, this`worker
      ensures Valid() && View() == Apply(old(View()), CheckRefill)
    {
      var index := FindSegmentIndex(playlist, next);
      if index == None {
        var first, last := playlist[0].sequence, playlist[|playlist| - 1].sequence;
        if next < first {
          var to := ChooseStartupSequence(playlist, 0);
          log := log + [Jumped(next, first, to)];
          next := to;
        } else if next > last {
          worker := Settle(false, worker.progress);
        }
      } else {
        var segment := playlist[index.value];
        var urgent := !startup && ahead <= LOW_AHEAD_NS;
        var aboveHigh := !startup && ahead > 0 && ahead + TruncNs(segment.seconds) > HIGH_AHEAD_NS;
        worker := if aboveHigh && !urgent then Settle(false, worker.progress)
                  else Fetching(segment, ahead, worker.progress);
      }
    }

    // The segment enters the ledger before its first buffer is pushed.
    method RegisterSegment(usable: nat)
      requires Valid() && Enabled(View(), Register(usable))
      modifies this`firstPush, this`spans, this`worker
      ensures Valid() && View() == Apply(old(View()), Register(usable))
    {
      if firstPush == 0 { firstPush := now; }
      var segment := worker.segment;
      spans := spans + [Span(usable, RoundNs(segment.seconds))];
      worker := Pushing(segment, usable, worker.ahead, worker.progress);
    }

    method PublishDeadline(durationNs: nat, nowSecond: nat)
      modifies this`pushed, this`segmentsPushed, this`bufferedUntil
      ensures var p := old(View()).(pushed := old(pushed) + durationNs, segmentsPushed := old(segmentsPushed) + 1);
              View() == p.(bufferedUntil := Min(nowSecond + Ahead(p) / NS_PER_SECOND, GUINT_MAX))
    {
      pushed := pushed + durationNs;
      var ahead := AheadNs();
      var seconds := ahead / NS_PER_SECOND;
      bufferedUntil := if nowSecond + seconds < GUINT_MAX then nowSecond + seconds else GUINT_MAX;
      segmentsPushed := segmentsPushed + 1;
    }

    // The bookkeeping behind the last buffer of a segment.
    method Account(nowSecond: nat)
      requires worker.Pushing? && worker.segment.seconds >= 0.0
      modifies this
      ensures View() == FinishStep(old(View()), nowSecond)
    {
      var segment, durationNs := worker.segment, RoundNs(worker.segment.seconds);
      PublishDeadline(durationNs, nowSecond);
      misses, unavailable := 0, false;
      next, log := segment.sequence + 1, log + [Processed(segment.sequence)];
      worker := Inner(true);
    }

    method FinishSegment(nowSecond: nat)
      requires Valid() && Enabled(View(), FinishPush(nowSecond))
      modifies this, rates
      ensures Valid() && View() == Apply(old(View()), FinishPush(nowSecond))
      ensures old(worker).usable > 0 ==>
        rates.history == (if old(worker).segment.discontinuity then [] else old(rates.history))
                         + [HlsRateWindow.RateSpan(old(worker).usable, RoundNs(old(worker).segment.seconds))]
    {
      var rate := rates.Publish(worker.usable, RoundNs(worker.segment.seconds), worker.segment.discontinuity);
      Account(nowSecond);
    }

    // guaranteedBufferedAheadMilliseconds
    method GuaranteedBufferedAheadMilliseconds() returns (ms: nat)
      ensures ms == ReportedMs(View())
    {
      if bufferedUntil == 0 { return 0; }
      var nowSecond := now / NS_PER_SECOND;
      ms := if bufferedUntil > nowSecond then (bufferedUntil - nowSecond) * 1000 else 0;
    }
  }
}
