// What the scheduler decides at its watermarks, in nanoseconds.
module HlsWatermarks {
  // When startup ends, what is fetched, when the playlist is refreshed and when the source is unavailable.
  import opened Helpers
  import opened HlsPlaylist
  import opened HlsScheduler

  // ----- The head of the refill loop ----------------------------------------------------

  // What a reading of the reservoir shows: pushed minus effectively consumed nanoseconds.
  function Reading(s: State): int { s.pushed - EffectiveConsumed(s) }

  // Two segments are pushed and eight seconds are ahead.
  predicate TargetReached(s: State) {
    s.segmentsPushed >= 2 && Reading(s) >= 8_000_000_000
  }

  // Only such a reading at the head of the refill loop ends startup.
  lemma StartupEndsExactly(s: State)
    requires Enabled(s, CheckRefill)
    ensures Apply(s, CheckRefill).startup <==>
              s.startup && !(s.segmentsPushed >= 2 && s.pushed - EffectiveConsumed(s) >= 8_000_000_000)
  {
  }

  // The wanted segment is fetched exactly when it is there, the reservoir is not full enough to leave,
  // and behind startup it is at six seconds or less or stays at twelve with the segment.
  lemma FetchedExactly(s: State)
    requires Enabled(s, CheckRefill)
    ensures var t, ahead := Apply(s, CheckRefill), s.pushed - EffectiveConsumed(s);
            && (t.worker.Fetching? <==>
                  && Has(s.playlist, s.next)
                  && !(ahead >= 8_000_000_000 && (s.startup ==> s.segmentsPushed >= 2))
                  && var seconds := s.playlist[IndexOf(s.playlist, s.next)].seconds;
                     var durationNs := if seconds * 1_000_000_000.0 < 1.0 then 1 else (seconds * 1_000_000_000.0).Floor;
                     s.startup || ahead <= 6_000_000_000 || ahead + durationNs <= 12_000_000_000)
            && (t.worker.Fetching? ==>
                  && t.worker.segment == s.playlist[IndexOf(s.playlist, s.next)]
                  && t.worker.ahead == if ahead > 0 then ahead else 0)
  {
  }

  // Some head of the refill loop in the run saw it.
  ghost predicate TargetSeen(s: State, run: seq<Action>)
    decreases |run|
  {
    run != []
    && ((run[0].CheckRefill? && Enabled(s, CheckRefill) && TargetReached(s)) || TargetSeen(Apply(s, run[0]), run[1..]))
  }

  lemma OtherStepsKeepStartup(s: State, a: Action)
    ensures Apply(s, a).startup <==>
              s.startup && !(a.CheckRefill? && Enabled(s, CheckRefill) && TargetReached(s))
  {
    if a.CheckRefill? && Enabled(s, a) {
      StartupEndsExactly(s);
    } else if a.Probe? || a.Poll? || a.LeaveRefill? {
      NoteAllKeeps(s, a.replies);
    }
  }

  // MAIN: over every run startup ends at the first such reading and stays ended.
  lemma {:induction false} StartupEndsAtFirstReading(s: State, run: seq<Action>)
    ensures Exec(s, run).startup <==> s.startup && !TargetSeen(s, run)
    decreases |run|
  {
    if run != [] {
      OtherStepsKeepStartup(s, run[0]);
      StartupEndsAtFirstReading(Apply(s, run[0]), run[1..]);
    }
  }

  // MAIN: from that reading on every push leaves at most twelve seconds and a nanosecond, or six
  // seconds plus the segment that was pushed.
  lemma PushBoundBehindFirstReading(now: nat, playlist: seq<Segment>, run: seq<Action>, second: nat, D: nat)
    requires Bounded(playlist, D) && RunOk(run, D) && TargetSeen(Start(now, playlist), run)
    ensures var s := Exec(Start(now, playlist), run);
            Enabled(s, FinishPush(second)) ==>
              Reading(Apply(s, FinishPush(second)))
                <= Max(12_000_000_001, 6_000_000_000 + RoundNs(s.worker.segment.seconds))
  {
    StartupEndsAtFirstReading(Start(now, playlist), run);
    PostStartupPushIsBounded(now, playlist, run, second, D);
  }

  // MAIN: the second behind a push the report is what is ahead, rounded down to whole seconds, as long as
  // the deadline fits 32 bits and the clock's second was the sampled one.
  lemma ReportIsTightAtPush(s: State, second: nat)
    requires Enabled(s, FinishPush(second)) && s.now / 1_000_000_000 == second
    requires s.pushed + RoundNs(s.worker.segment.seconds) <= 4_000_000_000 * 1_000_000_000 && second <= 200_000_000
    ensures var t := Apply(s, FinishPush(second));
            && t.pushed == s.pushed + RoundNs(s.worker.segment.seconds) && t.segmentsPushed == s.segmentsPushed + 1
            && ReportedMs(t) * 1_000_000 <= Ahead(t) < ReportedMs(t) * 1_000_000 + 1_000_000_000
  {
    var t := Apply(s, FinishPush(second));
    var seconds := Ahead(t) / 1_000_000_000;
    assert Ahead(t) <= t.pushed;
    assert seconds <= 4_000_000_000;
    assert t.bufferedUntil == second + seconds;
    assert t.now == s.now;
  }

  // Nothing is reported before the first push is finished, whatever the clock shows.
  lemma {:induction false} SilentUntilFirstPush(s: State, run: seq<Action>)
    requires s.bufferedUntil == 0 && NoPush(run)
    ensures Exec(s, run).bufferedUntil == 0 && ReportedMs(Exec(s, run)) == 0
    decreases |run|
  {
    if run != [] {
      assert !run[0].FinishPush?;
      if run[0].Probe? || run[0].Poll? || run[0].LeaveRefill? { NoteAllKeeps(s, run[0].replies); }
      assert forall i :: 0 <= i < |run[1..]| ==> run[1..][i] == run[i + 1];
      SilentUntilFirstPush(Apply(s, run[0]), run[1..]);
    }
  }

  lemma NothingReportedAtFirst(now: nat, playlist: seq<Segment>, run: seq<Action>)
    requires playlist != [] && NoPush(run)
    ensures ReportedMs(Exec(Start(now, playlist), run)) == 0 && Start(now, playlist).startup
  {
    SilentUntilFirstPush(Start(now, playlist), run);
  }

  // The published deadline is the sampled second plus the whole seconds ahead, cut off at 32 bits.
  lemma DeadlineExactly(s: State, second: nat)
    requires Enabled(s, FinishPush(second))
    ensures var t := Apply(s, FinishPush(second));
            var until := second + Ahead(t) / 1_000_000_000;
            t.bufferedUntil == if until < 4_294_967_295 then until else 4_294_967_295
  {
  }

  // A segment enters the ledger with its duration rounded to the nearest nanosecond, never less than one.
  lemma DurationIsNearest(seconds: real)
    requires seconds >= 0.0
    ensures var ns := RoundNs(seconds) as real;
            if seconds * 1_000_000_000.0 < 0.5 then ns == 1.0
            else -0.5 < ns - seconds * 1_000_000_000.0 <= 0.5
  {
    var x := seconds * 1_000_000_000.0 + 0.5;
    assert x.Floor as real <= x < x.Floor as real + 1.0;
  }

  // ----- The outer loop -----------------------------------------------------------------

  // At its head the worker probes an unavailable source, polls above six seconds behind startup, and
  // enters the refill loop otherwise.
  lemma OuterLoopChoosesExactly(s: State, replies: seq<Reply>)
    requires s.worker.Top? && Usable(s.playlist)
    ensures Enabled(s, Probe(replies)) <==> s.unavailable
    ensures Enabled(s, Poll(replies)) <==>
              !s.unavailable && !s.startup && s.pushed - EffectiveConsumed(s) > 6_000_000_000
    ensures Enabled(s, EnterRefill) <==>
              !s.unavailable && (s.startup || s.pushed - EffectiveConsumed(s) <= 6_000_000_000)
  {
  }

  // A poll takes over the playlist its requests end with, if it has segments, and nothing else.
  lemma PolledPlaylistExactly(s: State, replies: seq<Reply>)
    requires Enabled(s, Poll(replies))
    ensures var t, n := Apply(s, Poll(replies)), |replies|;
            && t.playlist == (if n > 0 && replies[n - 1].Playlist? && replies[n - 1].segments != []
                              then replies[n - 1].segments else s.playlist)
            && t == s.(playlist := t.playlist, misses := t.misses, unavailable := t.unavailable)
  {
    NoteAllKeeps(s, replies);
  }

  // The wall clock of the reservoir starts with the first bytes that are pushed, and only once.
  lemma ClockStartsOnce(s: State, a: Action)
    ensures Apply(s, a).firstPush
         == if s.firstPush == 0 && Enabled(s, a) && (a.Register? || a == FetchUseless(false)) then s.now
            else s.firstPush
  {
    if a.Probe? || a.Poll? || a.LeaveRefill? { NoteAllKeeps(s, a.replies); }
  }

  // ----- Progress of a pass ------------------------------------------------------------------

  ghost predicate ProcessedSince(log: seq<Event>, n: nat) {
    exists i :: n <= i < |log| && log[i].Processed?
  }

  // The worker is in the refill loop or right behind it, and knows whether it processed anything.
  ghost predicate KnowsProgress(s: State, n: nat) {
    && n <= |s.log|
    && match s.worker
       case Inner(progress) => progress <==> ProcessedSince(s.log, n)
       case Fetching(_, _, progress) => progress <==> ProcessedSince(s.log, n)
       case Pushing(_, _, _, progress) => progress <==> ProcessedSince(s.log, n)
       case Settle(_, progress) => progress <==> ProcessedSince(s.log, n)
       case _ => true
  }

  lemma LogGrows(log: seq<Event>, e: Event, n: nat)
    requires n <= |log|
    ensures ProcessedSince(log + [e], n) <==> ProcessedSince(log, n) || e.Processed?
  {
    var all := log + [e];
    assert all[|log|] == e && forall i :: 0 <= i < |log| ==> all[i] == log[i];
    if ProcessedSince(log, n) {
      var i :| n <= i < |log| && log[i].Processed?;
      assert all[i].Processed?;
    }
  }

  lemma StepKnowsProgress(s: State, a: Action, n: nat)
    requires KnowsProgress(s, n) && !a.EnterRefill?
    ensures KnowsProgress(Apply(s, a), n)
  {
    if a.CheckRefill? && Enabled(s, a) && !Has(s.playlist, s.next) && s.next < s.playlist[0].sequence {
      LogGrows(s.log, Jumped(s.next, s.playlist[0].sequence, ChooseStartup(s.playlist)), n);
    } else if (a.FetchUseless? || a.FinishPush?) && Enabled(s, a) {
      LogGrows(s.log, Processed(s.worker.segment.sequence), n);
    } else if a.Probe? || a.Poll? || a.LeaveRefill? {
      NoteAllKeeps(s, a.replies);
    }
  }

  // MAIN: over every pass through the refill loop the worker knows whether it processed a segment in it,
  // which with a failed fetch and the wanted number decides the refresh behind it.
  lemma {:induction false} PassKnowsProgress(s: State, run: seq<Action>, n: nat)
    requires KnowsProgress(s, n) && NoEntry(run)
    ensures KnowsProgress(Exec(s, run), n)
    decreases |run|
  {
    if run != [] {
      StepKnowsProgress(s, run[0], n);
      assert forall i :: 0 <= i < |run[1..]| ==> run[1..][i] == run[i + 1];
      PassKnowsProgress(Apply(s, run[0]), run[1..], n);
    }
  }

  lemma EntryKnowsNoProgress(s: State)
    requires Enabled(s, EnterRefill)
    ensures KnowsProgress(Apply(s, EnterRefill), |s.log|)
  {
  }

  lemma ExecTwo(s: State, a: Action, b: Action)
    ensures Exec(s, [a, b]) == Apply(Apply(s, a), b)
  {
    assert [a, b] == [a] + [b];
    ExecFirst(s, a, [b]);
    assert [b] == [b] + [];
    ExecFirst(Apply(s, a), b, []);
  }

  // Behind the refill loop the playlist is replaced exactly when a fetch failed, nothing was processed
  // in this pass, or the wanted number is not in it.
  lemma RefreshedExactly(s: State, retry: bool, progress: bool, P: seq<Segment>)
    requires s.worker == Settle(retry, progress) && Usable(s.playlist) && P != [] && P != s.playlist
    ensures Apply(s, LeaveRefill([Playlist(P)])).playlist == P <==> retry || !progress || !Has(s.playlist, s.next)
    ensures Apply(s, LeaveRefill([Playlist(P)])).next == s.next
  {
    NoteAllKeeps(s, [Playlist(P)]);
  }

  // A failed fetch is followed by a refresh and leaves the number alone, so the same segment is wanted.
  lemma FailedFetchIsRetried(s: State, P: seq<Segment>)
    requires Enabled(s, FetchFailed) && P != []
    ensures var t := Exec(s, [FetchFailed, LeaveRefill([Playlist(P)])]);
            t.playlist == P && t.next == s.next && t.log == s.log && t.worker == Top
  {
    ExecTwo(s, FetchFailed, LeaveRefill([Playlist(P)]));
    NoteAllKeeps(Apply(s, FetchFailed), [Playlist(P)]);
  }

  // ----- Unavailability ---------------------------------------------------------------------

  lemma {:induction false} NoteLast(s: State, replies: seq<Reply>, r: Reply)
    ensures NoteAll(s, replies + [r]) == Note(NoteAll(s, replies), r)
    decreases |replies|
  {
    if replies == [] {
      assert [] + [r] == [r] && [r][1..] == [];
    } else {
      assert (replies + [r])[1..] == replies[1..] + [r];
      NoteLast(Note(s, replies[0]), replies[1..], r);
    }
  }

  // The definitive absences a sequence of replies ends with.
  function MissRun(replies: seq<Reply>): nat
    decreases |replies|
  {
    if replies != [] && replies[|replies| - 1].Missing? then 1 + MissRun(replies[..|replies| - 1]) else 0
  }

  // Three definitive absences in a row, and no success behind them.
  ghost predicate ConfirmedAt(replies: seq<Reply>, i: nat) {
    && i + 3 <= |replies| && replies[i].Missing? && replies[i + 1].Missing? && replies[i + 2].Missing?
    && forall j :: i <= j < |replies| ==> !replies[j].Playlist?
  }

  ghost predicate Confirmed(replies: seq<Reply>) {
    exists i: nat :: ConfirmedAt(replies, i)
  }

  lemma ConfirmedGrows(replies: seq<Reply>, r: Reply)
    ensures Confirmed(replies + [r]) <==>
              !r.Playlist? && (Confirmed(replies) || (r.Missing? && MissRun(replies) >= 2))
  {
    var all, n := replies + [r], |replies|;
    assert forall j :: 0 <= j < n ==> all[j] == replies[j];
    if Confirmed(all) {
      var i: nat :| ConfirmedAt(all, i);
      assert !all[n].Playlist?;
      if i + 3 <= n { assert ConfirmedAt(replies, i); } else { LastTwoMissing(replies); }
    }
    if !r.Playlist? && Confirmed(replies) {
      var i: nat :| ConfirmedAt(replies, i);
      assert ConfirmedAt(all, i);
    }
    if r.Missing? && MissRun(replies) >= 2 {
      LastTwoMissing(replies);
      assert ConfirmedAt(all, n - 2);
    }
  }

  lemma LastTwoMissing(replies: seq<Reply>)
    ensures MissRun(replies) >= 2 <==>
              |replies| >= 2 && replies[|replies| - 1].Missing? && replies[|replies| - 2].Missing?
  {
  }

  // MAIN: the source counts as unavailable exactly behind three definitive absences in a row, however
  // other failures and successes came before them, until the next success.
  lemma {:induction false} UnavailableExactlyWhenConfirmed(s: State, replies: seq<Reply>)
    requires s.misses == 0 && !s.unavailable
    ensures var u := NoteAll(s, replies);
            && (u.unavailable <==> Confirmed(replies))
            && (!u.unavailable ==> u.misses == MissRun(replies) < 3)
    decreases |replies|
  {
    if replies != [] {
      var n := |replies| - 1;
      assert replies == replies[..n] + [replies[n]];
      UnavailableExactlyWhenConfirmed(s, replies[..n]);
      NoteLast(s, replies[..n], replies[n]);
      ConfirmedGrows(replies[..n], replies[n]);
    }
  }
}
