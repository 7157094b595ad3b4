// The duration-controlled HLS scheduler as a step system.
module HlsScheduler {
  // The worker thread, the terminal-pad probe that drains the ledger, and the clock, in every interleaving.
  import opened Helpers
  import opened HlsLedger
  import opened HlsPlaylist

  const LOW_AHEAD_NS: nat := 6 * NS_PER_SECOND
  const UNAVAILABLE_CONFIRMATIONS: nat := 3
  const GUINT_MAX: nat := 0xFFFF_FFFF

  function Minus(x: nat, y: nat): nat { if x > y then x - y else 0 }

  // The duration the refill guard uses: truncated.
  function TruncNs(seconds: real): (ns: nat)
    requires seconds >= 0.0
  {
    Max(1, Ns(seconds).Floor)
  }

  // The duration the ledger uses: rounded half up.
  function RoundNs(seconds: real): (ns: nat)
    requires seconds >= 0.0
  {
    Max(1, (Ns(seconds) + 0.5).Floor)
  }

  lemma RoundingGap(seconds: real)
    requires seconds >= 0.0
    ensures TruncNs(seconds) <= RoundNs(seconds) <= TruncNs(seconds) + 1
  {
  }

  // ----- State --------------------------------------------------------------------

  datatype Worker =
    | Top                                                // head of the outer loop
    | Inner(progress: bool)                              // head of the refill loop
    | Fetching(segment: Segment, ahead: nat, progress: bool)  // ahead: what the guard saw
    | Pushing(segment: Segment, usable: nat, ahead: nat, progress: bool)  // registered, buffers on their way
    | Settle(retry: bool, progress: bool)                // behind the refill loop
    | Halted(orphaned: nat)                              // worker returned; ns registered, never pushed

  // What a run did to nextSequence_.
  datatype Event =
    | Processed(sequence: nat)
    | Jumped(from: nat, first: nat, to: nat)   // first: the playlist's first number then
    | Recovered(from: nat, to: nat)

  datatype State = State(
    now: nat, firstPush: nat, spans: seq<Span>, pending: nat, consumed: nat, pushed: nat,
    startup: bool, segmentsPushed: nat, playlist: seq<Segment>, next: nat,
    misses: nat, unavailable: bool, bufferedUntil: nat, worker: Worker, log: seq<Event>)

  // One answer to a control request: definitive absence, any other failure, or a
  // media playlist.
  datatype Reply = Missing | Failed | Playlist(segments: seq<Segment>)

  datatype Action =
    | Tick(to: nat)
    | TerminalBuffer(bytes: nat)      // the locked part of the probe
    | CommitConsumed                  // its atomic add
    | Probe(replies: seq<Reply>)      // recovery while the source is unavailable
    | Poll(replies: seq<Reply>)       // above LOW: refresh at most
    | EnterRefill
    | CheckRefill                     // one evaluation of the refill loop's head
    | FetchFailed
    | FetchFatal
    | FetchUseless(empty: bool)       // nothing in the body can be pushed
    | Register(usable: nat)
    | PushFailed
    | FinishPush(sampledSecond: nat)  // the second read before the reservoir is
    | LeaveRefill(replies: seq<Reply>)

  function Start(now: nat, playlist: seq<Segment>): State
    requires playlist != []
  {
    State(now, 0, [], 0, 0, 0, true, 0, playlist, ChooseStartup(playlist), 0, false, 0, Top, [])
  }

  function EffectiveConsumed(s: State): nat {
    if s.firstPush == 0 then 0 else Min(s.consumed, Minus(s.now, s.firstPush))
  }

  function Ahead(s: State): nat { Minus(s.pushed, EffectiveConsumed(s)) }

  // ----- Control requests --------------------------------------------------------------

  function Note(s: State, reply: Reply): State {
    match reply
    case Playlist(_) => s.(misses := 0, unavailable := false)
    case Failed => if s.unavailable then s else s.(misses := 0)
    case Missing =>
      s.(misses := s.misses + 1, unavailable := s.unavailable || s.misses + 1 >= UNAVAILABLE_CONFIRMATIONS)
  }

  function NoteAll(s: State, replies: seq<Reply>): State
    decreases |replies|
  {
    if replies == [] then s else NoteAll(Note(s, replies[0]), replies[1..])
  }

  // The playlist a request sequence ends with, if it is a usable one.
  function Loaded(replies: seq<Reply>): Option<seq<Segment>> {
    if replies != [] && replies[|replies| - 1].Playlist? && replies[|replies| - 1].segments != []
    then Some(replies[|replies| - 1].segments) else None
  }

  function Reload(s: State, replies: seq<Reply>): State {
    var noted := NoteAll(s, replies);
    if Loaded(replies).Some? then noted.(playlist := Loaded(replies).value) else noted
  }

  // ----- Steps of the worker -------------------------------------------------------------

  predicate RefillSatisfied(s: State) {
    (!s.startup || s.segmentsPushed >= MINIMUM_STARTUP_SEGMENTS) && Ahead(s) >= TARGET_AHEAD_NS
  }

  // Above LOW a segment that would pass HIGH is not fetched.
  predicate Withheld(s: State, segment: Segment)
    requires segment.seconds >= 0.0
  {
    && !s.startup && Ahead(s) > 0
    && Ahead(s) + TruncNs(segment.seconds) > HIGH_AHEAD_NS
    && !(Ahead(s) <= LOW_AHEAD_NS)
  }

  // The number is inside the playlist's range and yet not in the playlist.
  predicate InGap(s: State)
    requires s.playlist != []
  {
    && !Has(s.playlist, s.next)
    && s.playlist[0].sequence <= s.next <= s.playlist[|s.playlist| - 1].sequence
  }

  predicate Usable(segments: seq<Segment>) {
    segments != [] && forall i :: 0 <= i < |segments| ==> segments[i].seconds >= 0.0
  }

  function CheckStep(s: State): State
    requires s.worker.Inner? && Usable(s.playlist)
  {
    var leave := s.(worker := Settle(false, s.worker.progress));
    if RefillSatisfied(s) then leave.(startup := false)
    else if !Has(s.playlist, s.next) then
      if s.next < s.playlist[0].sequence then
        var to := ChooseStartup(s.playlist);
        s.(next := to, log := s.log + [Jumped(s.next, s.playlist[0].sequence, to)])
      else if s.next > s.playlist[|s.playlist| - 1].sequence then leave
      else s
    else
      var segment := s.playlist[IndexOf(s.playlist, s.next)];
      if Withheld(s, segment) then leave
      else s.(worker := Fetching(segment, Ahead(s), s.worker.progress))
  }

  // A processed segment: the number advances, and media is known to flow again.
  function Advance(s: State, segment: Segment): State {
    s.(next := segment.sequence + 1, log := s.log + [Processed(segment.sequence)],
       misses := 0, unavailable := false, worker := Inner(true))
  }

  function Started(s: State): State {
    if s.firstPush == 0 then s.(firstPush := s.now) else s
  }

  function FinishStep(s: State, sampledSecond: nat): State
    requires s.worker.Pushing? && s.worker.segment.seconds >= 0.0
  {
    var p := s.(pushed := s.pushed + RoundNs(s.worker.segment.seconds), segmentsPushed := s.segmentsPushed + 1);
    var until := Min(sampledSecond + Ahead(p) / NS_PER_SECOND, GUINT_MAX);
    Advance(p.(bufferedUntil := until), s.worker.segment)
  }

  predicate NeedsRefresh(s: State)
    requires s.worker.Settle?
  {
    s.worker.retry || !s.worker.progress || !Has(s.playlist, s.next)
  }

  predicate Enabled(s: State, a: Action) {
    && Usable(s.playlist)
    && match a
       case Tick(to) => to >= s.now
       case TerminalBuffer(_) => s.pending == 0
       case CommitConsumed => true
       case Probe(_) => s.worker.Top? && s.unavailable
       case Poll(_) => s.worker.Top? && !s.unavailable && !s.startup && Ahead(s) > LOW_AHEAD_NS
       case EnterRefill => s.worker.Top? && !s.unavailable && (s.startup || Ahead(s) <= LOW_AHEAD_NS)
       case CheckRefill => s.worker.Inner?
       case FetchFailed => s.worker.Fetching?
       case FetchFatal => s.worker.Fetching?
       case FetchUseless(_) => s.worker.Fetching?
       case Register(usable) => s.worker.Fetching? && usable > 0 && s.worker.segment.seconds >= 0.0
       case PushFailed => s.worker.Pushing? && s.worker.segment.seconds >= 0.0
       case FinishPush(second) =>
         s.worker.Pushing? && s.worker.segment.seconds >= 0.0 && second * NS_PER_SECOND <= s.now
       case LeaveRefill(_) => s.worker.Settle?
  }

  // A step; an action that is not enabled changes nothing.
  function Apply(s: State, a: Action): State {
    if !Enabled(s, a) then s
    else match a
      case Tick(to) => s.(now := to)
      case TerminalBuffer(bytes) =>
        var d := Drain(s.spans, bytes);
        s.(spans := d.rest, pending := d.consumed)
      case CommitConsumed => s.(consumed := s.consumed + s.pending, pending := 0)
      case Probe(replies) =>
        var r := Reload(s, replies);
        if Loaded(replies).Some? && !Has(r.playlist, r.next) then
          var to := ChooseStartup(r.playlist);
          r.(next := to, log := r.log + [Recovered(r.next, to)])
        else r
      case Poll(replies) => Reload(s, replies)
      case EnterRefill => s.(worker := Inner(false))
      case CheckRefill => CheckStep(s)
      case FetchFailed => s.(worker := Settle(true, s.worker.progress))
      case FetchFatal => s.(worker := Halted(0))
      case FetchUseless(empty) =>
        Advance(if empty then s else Started(s), s.worker.segment)
      case Register(usable) =>
        var t := Started(s);
        t.(spans := t.spans + [Span(usable, RoundNs(s.worker.segment.seconds))],
           worker := Pushing(s.worker.segment, usable, s.worker.ahead, s.worker.progress))
      case PushFailed => s.(worker := Halted(RoundNs(s.worker.segment.seconds)))
      case FinishPush(second) => FinishStep(s, second)
      case LeaveRefill(replies) =>
        (if NeedsRefresh(s) then Reload(s, replies) else s).(worker := Top)
  }

  function Exec(s: State, run: seq<Action>): State
    decreases |run|
  {
    if run == [] then s else Exec(Apply(s, run[0]), run[1..])
  }

  // ----- What playlists may look like -------------------------------------------------------

  // D bounds every segment duration of a run; every run has such a bound.
  ghost predicate Bounded(segments: seq<Segment>, D: nat) {
    Usable(segments) && forall i :: 0 <= i < |segments| ==> RoundNs(segments[i].seconds) <= D
  }

  ghost predicate ReplyOk(r: Reply, D: nat) { r.Playlist? && r.segments != [] ==> Bounded(r.segments, D) }

  ghost predicate ActionOk(a: Action, D: nat) {
    a.Probe? || a.Poll? || a.LeaveRefill? ==> forall i :: 0 <= i < |a.replies| ==> ReplyOk(a.replies[i], D)
  }

  ghost predicate RunOk(run: seq<Action>, D: nat) {
    forall i :: 0 <= i < |run| ==> ActionOk(run[i], D)
  }

  // ----- The reservoir invariant ---------------------------------------------------------------

  function ReservoirBound(D: nat): nat {
    Max(HIGH_AHEAD_NS + 1, Max(TARGET_AHEAD_NS + D, 2 * D))
  }

  // Nanoseconds registered in the ledger but not yet counted as pushed.
  function InFlight(s: State): nat {
    match s.worker
    case Pushing(segment, _, _, _) => if segment.seconds >= 0.0 then RoundNs(segment.seconds) else 0
    case Halted(orphaned) => orphaned
    case _ => 0
  }

  // The guard that let the worker fetch, as remembered with the reading it used.
  ghost predicate GuardHeld(s: State, segment: Segment, ahead: nat, D: nat) {
    && segment.seconds >= 0.0 && RoundNs(segment.seconds) <= D
    && Ahead(s) <= ahead
    && (s.startup ==> s.segmentsPushed < MINIMUM_STARTUP_SEGMENTS || ahead < TARGET_AHEAD_NS)
    && (!s.startup ==> ahead < TARGET_AHEAD_NS)
    && (!s.startup ==> ahead <= LOW_AHEAD_NS || ahead + TruncNs(segment.seconds) <= HIGH_AHEAD_NS)
  }

  ghost predicate Inv(s: State, D: nat) {
    && Bounded(s.playlist, D)
    && Positive(s.spans)
    && s.consumed + s.pending + SumNs(s.spans) == s.pushed + InFlight(s)
    && s.firstPush <= s.now
    && (s.segmentsPushed == 0 ==> s.pushed == 0)
    && (s.segmentsPushed == 1 ==> s.pushed <= D)
    && Ahead(s) <= ReservoirBound(D)
    && (s.worker.Fetching? || s.worker.Pushing? ==> GuardHeld(s, s.worker.segment, s.worker.ahead, D))
    && (s.unavailable <==> s.misses >= UNAVAILABLE_CONFIRMATIONS)
  }

  // Control requests touch the availability record only, and keep what it means.
  lemma {:induction false} NoteAllKeeps(s: State, replies: seq<Reply>)
    ensures var r := NoteAll(s, replies);
            && r == s.(misses := r.misses, unavailable := r.unavailable)
            && ((s.unavailable <==> s.misses >= UNAVAILABLE_CONFIRMATIONS)
                  ==> (r.unavailable <==> r.misses >= UNAVAILABLE_CONFIRMATIONS))
    decreases |replies|
  {
    if replies != [] { NoteAllKeeps(Note(s, replies[0]), replies[1..]); }
  }

  lemma ReloadKeepsInv(s: State, replies: seq<Reply>, D: nat)
    requires Inv(s, D) && forall i :: 0 <= i < |replies| ==> ReplyOk(replies[i], D)
    ensures Inv(Reload(s, replies), D)
    ensures var r := Reload(s, replies);
            r == s.(misses := r.misses, unavailable := r.unavailable, playlist := r.playlist)
  {
    NoteAllKeeps(s, replies);
  }

  // What follows a reload, the new number of a recovery included, does not touch the reservoir.
  lemma RequestKeepsInv(s: State, a: Action, D: nat)
    requires Inv(s, D) && ActionOk(a, D) && Enabled(s, a) && (a.Probe? || a.Poll? || a.LeaveRefill?)
    ensures Inv(Apply(s, a), D)
  {
    ReloadKeepsInv(s, a.replies, D);
    var r, t := Reload(s, a.replies), Apply(s, a);
    assert t == (if a.LeaveRefill? && !NeedsRefresh(s) then s else r).(next := t.next, log := t.log, worker := Top);
  }

  // Consumption only moves forward, so what the guard saw stays an upper bound.
  lemma EffectiveIsMonotone(s: State, s': State)
    requires s'.now >= s.now && s'.consumed >= s.consumed
    requires s'.firstPush == s.firstPush || s.firstPush == 0
    ensures EffectiveConsumed(s') >= EffectiveConsumed(s)
  {
  }

  // Changes of the number, the log and the startup flag do not touch the reservoir.
  lemma PositionKeepsInv(s: State, t: State, D: nat)
    requires Inv(s, D) && s.worker.Inner?
    requires t == s.(next := t.next, log := t.log, startup := t.startup, worker := t.worker)
    requires t.worker.Inner? || t.worker.Settle?
    ensures Inv(t, D)
  {
    assert Ahead(t) == Ahead(s) && InFlight(t) == InFlight(s);
  }

  lemma EnterKeepsInv(s: State, D: nat)
    requires Inv(s, D) && s.worker.Top?
    ensures Inv(s.(worker := Inner(false)), D)
  {
    var t := s.(worker := Inner(false));
    assert Ahead(t) == Ahead(s) && InFlight(t) == InFlight(s);
  }

  lemma FetchGuardHolds(s: State, segment: Segment, D: nat)
    requires Inv(s, D) && s.worker.Inner? && segment in s.playlist
    requires !RefillSatisfied(s) && segment.seconds >= 0.0 && !Withheld(s, segment)
    ensures Inv(s.(worker := Fetching(segment, Ahead(s), s.worker.progress)), D)
  {
    var t := s.(worker := Fetching(segment, Ahead(s), s.worker.progress));
    assert Ahead(t) == Ahead(s) && InFlight(t) == InFlight(s);
    assert GuardHeld(t, segment, Ahead(s), D);
  }

  lemma CheckKeepsInv(s: State, D: nat)
    requires Inv(s, D) && s.worker.Inner?
    ensures Inv(CheckStep(s), D)
  {
    if !RefillSatisfied(s) && Has(s.playlist, s.next) && !Withheld(s, s.playlist[IndexOf(s.playlist, s.next)]) {
      FetchGuardHolds(s, s.playlist[IndexOf(s.playlist, s.next)], D);
    } else {
      PositionKeepsInv(s, CheckStep(s), D);
    }
  }

  // The heart of the bound: what one push can leave behind.
  lemma FinishKeepsInv(s: State, second: nat, D: nat)
    requires Inv(s, D) && s.worker.Pushing?
    ensures Inv(FinishStep(s, second), D)
    ensures !s.startup ==>
      Ahead(FinishStep(s, second)) <= Max(HIGH_AHEAD_NS + 1, LOW_AHEAD_NS + RoundNs(s.worker.segment.seconds))
  {
    var segment := s.worker.segment;
    RoundingGap(segment.seconds);
    var t := FinishStep(s, second);
    assert Ahead(t) <= Ahead(s) + RoundNs(segment.seconds);
  }

  lemma EnvironmentKeepsInv(s: State, a: Action, D: nat)
    requires Inv(s, D) && Enabled(s, a) && (a.Tick? || a.TerminalBuffer? || a.CommitConsumed?)
    ensures Inv(Apply(s, a), D)
  {
    if a.TerminalBuffer? { DrainConserves(s.spans, a.bytes); }
    EffectiveIsMonotone(s, Apply(s, a));
  }

  lemma RegisterKeepsInv(s: State, usable: nat, D: nat)
    requires Inv(s, D) && Enabled(s, Register(usable))
    ensures Inv(Apply(s, Register(usable)), D)
  {
    SumAppend(s.spans, Span(usable, RoundNs(s.worker.segment.seconds)));
    EffectiveIsMonotone(s, Apply(s, Register(usable)));
  }

  lemma FetchKeepsInv(s: State, a: Action, D: nat)
    requires Inv(s, D) && Enabled(s, a) && (a.FetchFailed? || a.FetchFatal? || a.FetchUseless? || a.PushFailed?)
    ensures Inv(Apply(s, a), D)
  {
    EffectiveIsMonotone(s, Apply(s, a));
  }

  lemma StepKeepsInv(s: State, a: Action, D: nat)
    requires Inv(s, D) && ActionOk(a, D)
    ensures Inv(Apply(s, a), D)
  {
    if Enabled(s, a) {
      match a
      case Tick(_) => EnvironmentKeepsInv(s, a, D);
      case TerminalBuffer(_) => EnvironmentKeepsInv(s, a, D);
      case CommitConsumed => EnvironmentKeepsInv(s, a, D);
      case Probe(_) => RequestKeepsInv(s, a, D);
      case Poll(_) => RequestKeepsInv(s, a, D);
      case EnterRefill => EnterKeepsInv(s, D);
      case CheckRefill => CheckKeepsInv(s, D);
      case FetchFailed => FetchKeepsInv(s, a, D);
      case FetchFatal => FetchKeepsInv(s, a, D);
      case FetchUseless(_) => FetchKeepsInv(s, a, D);
      case Register(usable) => RegisterKeepsInv(s, usable, D);
      case PushFailed => FetchKeepsInv(s, a, D);
      case FinishPush(second) => FinishKeepsInv(s, second, D);
      case LeaveRefill(_) => RequestKeepsInv(s, a, D);
    }
  }

  lemma {:induction false} RunKeepsInv(s: State, run: seq<Action>, D: nat)
    requires Inv(s, D) && RunOk(run, D)
    ensures Inv(Exec(s, run), D)
    decreases |run|
  {
    if run != [] {
      assert ActionOk(run[0], D);
      StepKeepsInv(s, run[0], D);
      assert forall i :: 0 <= i < |run[1..]| ==> run[1..][i] == run[i + 1];
      RunKeepsInv(Apply(s, run[0]), run[1..], D);
    }
  }

  lemma StartInv(now: nat, playlist: seq<Segment>, D: nat)
    requires Bounded(playlist, D)
    ensures Inv(Start(now, playlist), D)
  {
  }

  // Whole runs: the reservoir never exceeds the bound, and every registered
  // nanosecond is consumed, on its way to be counted, or still in the ledger.
  lemma ReservoirIsBounded(now: nat, playlist: seq<Segment>, run: seq<Action>, D: nat)
    requires Bounded(playlist, D) && RunOk(run, D)
    ensures var s := Exec(Start(now, playlist), run);
            && Ahead(s) <= ReservoirBound(D)
            && s.consumed + s.pending + SumNs(s.spans) == s.pushed + InFlight(s)
            && (s.unavailable <==> s.misses >= UNAVAILABLE_CONFIRMATIONS)
  {
    StartInv(now, playlist, D);
    RunKeepsInv(Start(now, playlist), run, D);
  }

  // Whole runs: a push after startup leaves at most HIGH + 1 ns, or LOW plus the
  // segment that was pushed.
  lemma PostStartupPushIsBounded(now: nat, playlist: seq<Segment>, run: seq<Action>, second: nat, D: nat)
    requires Bounded(playlist, D) && RunOk(run, D)
    ensures var s := Exec(Start(now, playlist), run);
            Enabled(s, FinishPush(second)) && !s.startup ==>
            Ahead(Apply(s, FinishPush(second)))
              <= Max(HIGH_AHEAD_NS + 1, LOW_AHEAD_NS + RoundNs(s.worker.segment.seconds))
  {
    StartInv(now, playlist, D);
    RunKeepsInv(Start(now, playlist), run, D);
    var s := Exec(Start(now, playlist), run);
    if Enabled(s, FinishPush(second)) { FinishKeepsInv(s, second, D); }
  }

  // ----- Sequence discipline --------------------------------------------------------------------

  // The number an event started from and the one it left behind.
  function From(e: Event): nat {
    match e
    case Processed(n) => n
    case Jumped(from, _, _) => from
    case Recovered(from, _) => from
  }

  function To(e: Event): nat {
    match e
    case Processed(n) => n + 1
    case Jumped(_, _, to) => to
    case Recovered(_, to) => to
  }

  // The number in force before event i of a log that began at `first`.
  function NumberAt(first: nat, log: seq<Event>, i: nat): nat
    requires i <= |log|
  {
    if i == 0 then first else To(log[i - 1])
  }

  // The first number of the playlist is its least.
  ghost predicate FirstIsLeast(segments: seq<Segment>) {
    forall i :: 0 <= i < |segments| ==> segments[0].sequence <= segments[i].sequence
  }

  // No absent number lies between the one a jump chooses and the first one.
  ghost predicate JumpsForward(segments: seq<Segment>) {
    segments == []
    || forall n: nat :: ChooseStartup(segments) < n < segments[0].sequence ==> Has(segments, n)
  }

  // What is known of every playlist of a run: the first, or only the second.
  ghost predicate Numbered(segments: seq<Segment>, least: bool) {
    if least then FirstIsLeast(segments) else JumpsForward(segments)
  }

  // Event i starts from the number in force; a jump was due and went forward.
  ghost predicate Linked(first: nat, log: seq<Event>, i: nat, least: bool) {
    && i < |log|
    && From(log[i]) == NumberAt(first, log, i)
    && (log[i].Jumped? ==>
          log[i].from < log[i].first && log[i].from < log[i].to && (least ==> log[i].first <= log[i].to))
  }

  ghost predicate Disciplined(first: nat, log: seq<Event>, least: bool) {
    forall i :: 0 <= i < |log| ==> Linked(first, log, i, least)
  }

  ghost predicate SeqInv(s: State, first: nat, least: bool) {
    && s.playlist != [] && Numbered(s.playlist, least)
    && Disciplined(first, s.log, least)
    && s.next == NumberAt(first, s.log, |s.log|)
    && (s.worker.Fetching? || s.worker.Pushing? ==>
          s.worker.segment.sequence == s.next && Has(s.playlist, s.next))
  }

  ghost predicate NumberedReplies(a: Action, least: bool) {
    a.Probe? || a.Poll? || a.LeaveRefill? ==>
      forall i :: 0 <= i < |a.replies| && a.replies[i].Playlist? ==> Numbered(a.replies[i].segments, least)
  }

  lemma StartupIsAMember(segments: seq<Segment>)
    requires segments != []
    ensures Has(segments, ChooseStartup(segments))
    ensures FirstIsLeast(segments) ==> segments[0].sequence <= ChooseStartup(segments)
  {
    assert segments[StartupIndex(segments)].sequence == ChooseStartup(segments);
  }

  lemma StartupWithinRange(segments: seq<Segment>)
    requires segments != [] && Contiguous(segments)
    ensures segments[0].sequence <= ChooseStartup(segments) <= segments[|segments| - 1].sequence
  {
  }

  lemma AppendDisciplined(first: nat, log: seq<Event>, e: Event, least: bool)
    requires Disciplined(first, log, least) && From(e) == NumberAt(first, log, |log|)
    requires e.Jumped? ==> e.from < e.first && e.from < e.to && (least ==> e.first <= e.to)
    ensures Disciplined(first, log + [e], least)
  {
    forall i | 0 <= i < |log| + 1
      ensures Linked(first, log + [e], i, least)
    {
      if i < |log| { assert Linked(first, log, i, least); }
    }
  }

  lemma ReloadKeepsSeqInv(s: State, a: Action, first: nat, least: bool)
    requires SeqInv(s, first, least) && NumberedReplies(a, least) && Enabled(s, a)
    requires a.Probe? || a.Poll? || a.LeaveRefill?
    ensures SeqInv(Apply(s, a), first, least)
    ensures !Apply(s, a).worker.Inner? && Apply(s, a).worker.Top?
  {
    NoteAllKeeps(s, a.replies);
    var r := Reload(s, a.replies);
    if a.Probe? && !Has(r.playlist, r.next) {
      AppendDisciplined(first, s.log, Recovered(s.next, ChooseStartup(r.playlist)), least);
    }
  }

  // A jump to a lower number needs an absent number between the chosen one and the first one.
  lemma JumpIsForward(segments: seq<Segment>, next: nat, least: bool)
    requires segments != [] && Numbered(segments, least)
    requires !Has(segments, next) && next < segments[0].sequence
    ensures next < ChooseStartup(segments)
    ensures least ==> segments[0].sequence <= ChooseStartup(segments)
  {
    StartupIsAMember(segments);
  }

  lemma CheckKeepsSeqInv(s: State, first: nat, least: bool)
    requires SeqInv(s, first, least) && Enabled(s, CheckRefill)
    ensures SeqInv(CheckStep(s), first, least)
  {
    if !Has(s.playlist, s.next) && s.next < s.playlist[0].sequence {
      JumpIsForward(s.playlist, s.next, least);
      AppendDisciplined(first, s.log, Jumped(s.next, s.playlist[0].sequence, ChooseStartup(s.playlist)), least);
    }
  }

  lemma AdvanceKeepsSeqInv(s: State, t: State, first: nat, least: bool)
    requires SeqInv(s, first, least) && (s.worker.Fetching? || s.worker.Pushing?)
    requires t.playlist == s.playlist && t.log == s.log
    ensures SeqInv(Advance(t, s.worker.segment), first, least)
  {
    AppendDisciplined(first, s.log, Processed(s.worker.segment.sequence), least);
  }

  // Only four actions touch the number; each records what it did.
  lemma StepKeepsSeqInv(s: State, a: Action, first: nat, least: bool)
    requires SeqInv(s, first, least) && NumberedReplies(a, least)
    ensures SeqInv(Apply(s, a), first, least)
  {
    if Enabled(s, a) {
      match a
      case Probe(_) => ReloadKeepsSeqInv(s, a, first, least);
      case Poll(_) => ReloadKeepsSeqInv(s, a, first, least);
      case LeaveRefill(_) => ReloadKeepsSeqInv(s, a, first, least);
      case CheckRefill => CheckKeepsSeqInv(s, first, least);
      case FetchUseless(empty) => AdvanceKeepsSeqInv(s, if empty then s else Started(s), first, least);
      case FinishPush(_) => AdvanceKeepsSeqInv(s, s, first, least);
      case _ =>
    }
  }

  lemma {:induction false} RunKeepsSeqInv(s: State, run: seq<Action>, first: nat, least: bool)
    requires SeqInv(s, first, least)
    requires forall i :: 0 <= i < |run| ==> NumberedReplies(run[i], least)
    ensures SeqInv(Exec(s, run), first, least)
    decreases |run|
  {
    if run != [] {
      StepKeepsSeqInv(s, run[0], first, least);
      assert forall i :: 0 <= i < |run[1..]| ==> run[1..][i] == run[i + 1];
      RunKeepsSeqInv(Apply(s, run[0]), run[1..], first, least);
    }
  }

  lemma {:induction false} NumbersRiseWithoutRecovery(first: nat, log: seq<Event>, i: nat, j: nat, least: bool)
    requires Disciplined(first, log, least) && i <= j <= |log|
    requires forall k :: i <= k < j ==> !log[k].Recovered?
    ensures NumberAt(first, log, i) <= NumberAt(first, log, j)
    ensures (forall k :: i <= k < j ==> log[k].Processed?) ==>
              NumberAt(first, log, j) == NumberAt(first, log, i) + (j - i)
    decreases j
  {
    if i < j {
      NumbersRiseWithoutRecovery(first, log, i, j - 1, least);
      assert Linked(first, log, j - 1, least);
    }
  }

  // Whole runs over playlists whose first number is their least, between recoveries: processed
  // numbers strictly increase, and they are consecutive unless a jump lies between them,
  // taken because the next number had fallen below the playlist's first one.
  lemma SequenceDiscipline(now: nat, playlist: seq<Segment>, run: seq<Action>, i: nat, j: nat)
    requires playlist != [] && FirstIsLeast(playlist)
    requires forall k :: 0 <= k < |run| ==> NumberedReplies(run[k], true)
    requires var log := Exec(Start(now, playlist), run).log;
             && i < j < |log| && log[i].Processed? && log[j].Processed?
             && forall k :: i < k < j ==> !log[k].Recovered?
    ensures var log := Exec(Start(now, playlist), run).log;
            && log[i].sequence < log[j].sequence
            && ((forall k :: i < k < j ==> log[k].Processed?) ==> log[j].sequence == log[i].sequence + (j - i))
            && (forall k :: i < k < j && !log[k].Processed? ==>
                  log[k].Jumped? && log[k].from < log[k].first <= log[k].to)
  {
    var first := ChooseStartup(playlist);
    RunKeepsSeqInv(Start(now, playlist), run, first, true);
    var log := Exec(Start(now, playlist), run).log;
    NumbersRiseWithoutRecovery(first, log, i + 1, j, true);
    assert Linked(first, log, i, true) && Linked(first, log, j, true);
    forall k | i < k < j && !log[k].Processed?
      ensures log[k].Jumped? && log[k].from < log[k].first <= log[k].to
    {
      assert Linked(first, log, k, true);
    }
  }

  // ----- Jumps that go backwards ------------------------------------------------------------------

  // The head of the loop lowers the number exactly when it is absent, below the first number, and
  // above the one the startup choice picks.
  lemma JumpGoesBackExactly(s: State)
    requires Enabled(s, CheckRefill)
    ensures Apply(s, CheckRefill).next < s.next
       <==> !RefillSatisfied(s) && !Has(s.playlist, s.next)
            && ChooseStartup(s.playlist) < s.next < s.playlist[0].sequence
  {
  }

  ghost predicate RecoveredBetween(log: seq<Event>, i: nat, j: nat) {
    exists k :: i < k < j && k < |log| && log[k].Recovered?
  }

  // Between recoveries the processed numbers strictly increase.
  ghost predicate Rising(log: seq<Event>) {
    forall i: nat, j: nat :: i < j < |log| && log[i].Processed? && log[j].Processed? && !RecoveredBetween(log, i, j)
      ==> log[i].sequence < log[j].sequence
  }

  ghost predicate IsOrContiguous(segments: seq<Segment>, P: seq<Segment>) {
    segments == P || Contiguous(segments)
  }

  // A run that sees no playlists but P and contiguous ones.
  ghost predicate RunsOver(P: seq<Segment>, playlist: seq<Segment>, run: seq<Action>) {
    && playlist != [] && IsOrContiguous(playlist, P)
    && forall i :: 0 <= i < |run| && (run[i].Probe? || run[i].Poll? || run[i].LeaveRefill?) ==>
         forall k :: 0 <= k < |run[i].replies| && run[i].replies[k].Playlist? ==>
           IsOrContiguous(run[i].replies[k].segments, P)
  }

  lemma ContiguousJumpsForward(segments: seq<Segment>)
    requires Contiguous(segments)
    ensures FirstIsLeast(segments) && JumpsForward(segments)
  {
    if segments != [] { StartupIsAMember(segments); }
  }

  lemma RunsRise(P: seq<Segment>, now: nat, playlist: seq<Segment>, run: seq<Action>)
    requires JumpsForward(P) && RunsOver(P, playlist, run)
    ensures Rising(Exec(Start(now, playlist), run).log)
  {
    forall segments: seq<Segment> | IsOrContiguous(segments, P) ensures Numbered(segments, false) {
      if segments != P { ContiguousJumpsForward(segments); }
    }
    forall i | 0 <= i < |run| ensures NumberedReplies(run[i], false) {
    }
    var first := ChooseStartup(playlist);
    RunKeepsSeqInv(Start(now, playlist), run, first, false);
    var log := Exec(Start(now, playlist), run).log;
    forall i: nat, j: nat | i < j < |log| && log[i].Processed? && log[j].Processed? && !RecoveredBetween(log, i, j)
      ensures log[i].sequence < log[j].sequence
    {
      NumbersRiseWithoutRecovery(first, log, i + 1, j, false);
      assert Linked(first, log, i, false) && Linked(first, log, j, false);
    }
  }

  lemma ExecFirst(s: State, a: Action, run: seq<Action>)
    ensures Exec(s, [a] + run) == Exec(Apply(s, a), run)
  {
    assert ([a] + run)[1..] == run;
  }

  function Single(n: nat): Segment { Segment(n, 1.0, "", false, "") }

  // Segment n - 1 is processed from one playlist, and the next one is P.
  function ToPlaylist(P: seq<Segment>): seq<Action> {
    [EnterRefill, CheckRefill, FetchUseless(true), CheckRefill, LeaveRefill([Playlist(P)])]
  }

  lemma ReachesPlaylist(P: seq<Segment>, n: nat)
    requires Usable(P) && n > 0
    ensures Exec(Start(0, [Single(n - 1)]), ToPlaylist(P))
         == Start(0, [Single(n - 1)]).(playlist := P, next := n, log := [Processed(n - 1)])
  {
    var q := [Single(n - 1)];
    var s0 := Start(0, q);
    assert s0.next == n - 1 by { assert StartupIndex(q) == 0; }
    assert q[0].sequence == n - 1;
    var s1 := s0.(worker := Inner(false));
    assert Apply(s0, EnterRefill) == s1;
    assert IndexOf(q, n - 1) == 0;
    var s2 := s0.(worker := Fetching(q[0], 0, false));
    assert Apply(s1, CheckRefill) == s2;
    var s3 := s0.(worker := Inner(true), next := n, log := [Processed(n - 1)]);
    assert Apply(s2, FetchUseless(true)) == s3;
    assert !Has(q, n);
    var s4 := s3.(worker := Settle(false, true));
    assert Apply(s3, CheckRefill) == s4;
    LoadsPlaylist(s4, P);
    var leave := LeaveRefill([Playlist(P)]);
    assert ToPlaylist(P) == [EnterRefill] + ([CheckRefill] + ([FetchUseless(true)] + ([CheckRefill] + ([leave] + []))));
    ExecFirst(s0, EnterRefill, [CheckRefill] + ([FetchUseless(true)] + ([CheckRefill] + ([leave] + []))));
    ExecFirst(s1, CheckRefill, [FetchUseless(true)] + ([CheckRefill] + ([leave] + [])));
    ExecFirst(s2, FetchUseless(true), [CheckRefill] + ([leave] + []));
    ExecFirst(s3, CheckRefill, [leave] + []);
    ExecFirst(s4, leave, []);
  }

  lemma LoadsPlaylist(s: State, P: seq<Segment>)
    requires s.worker.Settle? && Usable(s.playlist) && Usable(P) && !Has(s.playlist, s.next)
    requires s.misses == 0 && !s.unavailable
    ensures Apply(s, LeaveRefill([Playlist(P)])) == s.(playlist := P, worker := Top)
  {
    var replies := [Playlist(P)];
    assert replies[1..] == [];
    assert NoteAll(s, replies) == NoteAll(Note(s, replies[0]), []) == s;
  }

  // At startup with nothing pushed the head of the loop is never satisfied and withholds nothing.
  lemma CheckAtStartup(s: State)
    requires Enabled(s, CheckRefill) && s.startup && s.segmentsPushed == 0
    ensures !Has(s.playlist, s.next) && s.next < s.playlist[0].sequence ==>
              var c := ChooseStartup(s.playlist);
              Apply(s, CheckRefill) == s.(next := c, log := s.log + [Jumped(s.next, s.playlist[0].sequence, c)])
    ensures Has(s.playlist, s.next) ==>
              var t := Apply(s, CheckRefill);
              t == s.(worker := t.worker) && t.worker.Fetching? && t.worker.segment.sequence == s.next
  {
  }

  // From there the jump goes back, and a number at most n - 1 is processed again.
  lemma JumpsBack(P: seq<Segment>, s: State)
    requires Usable(P) && ChooseStartup(P) < s.next < P[0].sequence && !Has(P, s.next)
    requires s.playlist == P && s.startup && s.segmentsPushed == 0 && s.worker == Top && !s.unavailable
    ensures Exec(s, [EnterRefill, CheckRefill, CheckRefill, FetchUseless(true)]).log
         == s.log + [Jumped(s.next, P[0].sequence, ChooseStartup(P)), Processed(ChooseStartup(P))]
  {
    StartupIsAMember(P);
    var s1 := s.(worker := Inner(false));
    CheckAtStartup(s1);
    CheckAtStartup(Apply(s1, CheckRefill));
    ExecFour(s, EnterRefill, CheckRefill, CheckRefill, FetchUseless(true));
  }

  lemma ExecFour(s: State, a: Action, b: Action, c: Action, d: Action)
    ensures Exec(s, [a, b, c, d]) == Apply(Apply(Apply(Apply(s, a), b), c), d)
  {
    var s1 := Apply(s, a);
    var s2 := Apply(s1, b);
    var s3 := Apply(s2, c);
    assert [a, b, c, d] == [a] + ([b] + ([c] + ([d] + [])));
    ExecFirst(s, a, [b] + ([c] + ([d] + [])));
    ExecFirst(s1, b, [c] + ([d] + []));
    ExecFirst(s2, c, [d] + []);
    ExecFirst(s3, d, []);
  }

  lemma {:induction false} ExecConcat(s: State, a: seq<Action>, b: seq<Action>)
    ensures Exec(s, a + b) == Exec(Exec(s, a), b)
    decreases |a|
  {
    if a == [] {
      assert a + b == b;
    } else {
      assert (a + b)[1..] == a[1..] + b;
      ExecConcat(Apply(s, a[0]), a[1..], b);
    }
  }

  lemma BackJumpRepeats(P: seq<Segment>, n: nat)
    requires Usable(P) && ChooseStartup(P) < n < P[0].sequence && !Has(P, n)
    ensures var run := ToPlaylist(P) + [EnterRefill, CheckRefill, CheckRefill, FetchUseless(true)];
            && RunsOver(P, [Single(n - 1)], run)
            && Exec(Start(0, [Single(n - 1)]), run).log
                 == [Processed(n - 1), Jumped(n, P[0].sequence, ChooseStartup(P)), Processed(ChooseStartup(P))]
  {
    var s0, back := Start(0, [Single(n - 1)]), [EnterRefill, CheckRefill, CheckRefill, FetchUseless(true)];
    ReachesPlaylist(P, n);
    ExecConcat(s0, ToPlaylist(P), back);
    JumpsBack(P, Exec(s0, ToPlaylist(P)));
    BackJumpRunsOver(P, n);
  }

  lemma BackJumpRunsOver(P: seq<Segment>, n: nat)
    requires n > 0
    ensures RunsOver(P, [Single(n - 1)], ToPlaylist(P) + [EnterRefill, CheckRefill, CheckRefill, FetchUseless(true)])
  {
    var run := ToPlaylist(P) + [EnterRefill, CheckRefill, CheckRefill, FetchUseless(true)];
    assert forall i :: 0 <= i < |run| && i != 4 ==> !run[i].Probe? && !run[i].Poll? && !run[i].LeaveRefill?;
    assert run[4] == LeaveRefill([Playlist(P)]);
  }

  // MAIN: a playlist P keeps the processed numbers rising between recoveries, in every run over P and
  // contiguous playlists, exactly when no absent number lies between its startup choice and its first
  // number. A playlist whose first number is its least satisfies this.
  lemma RisesExactlyWhenJumpsForward(P: seq<Segment>)
    requires Usable(P)
    ensures JumpsForward(P)
       <==> forall now: nat, playlist: seq<Segment>, run: seq<Action> ::
              RunsOver(P, playlist, run) ==> Rising(Exec(Start(now, playlist), run).log)
    ensures FirstIsLeast(P) ==> JumpsForward(P)
  {
    StartupIsAMember(P);
    if JumpsForward(P) {
      forall now: nat, playlist: seq<Segment>, run: seq<Action> | RunsOver(P, playlist, run)
        ensures Rising(Exec(Start(now, playlist), run).log)
      {
        RunsRise(P, now, playlist, run);
      }
    } else {
      var n: nat :| ChooseStartup(P) < n < P[0].sequence && !Has(P, n);
      BackJumpRepeats(P, n);
      var run := ToPlaylist(P) + [EnterRefill, CheckRefill, CheckRefill, FetchUseless(true)];
      var log := Exec(Start(0, [Single(n - 1)]), run).log;
      assert log[0].sequence == n - 1 && log[2].sequence == ChooseStartup(P);
      assert !RecoveredBetween(log, 0, 2);
    }
  }

  // Such a playlist: numbers 10, 3, 4, 5 of four seconds each, from a second sequence tag.
  const BACK_JUMP: seq<Segment> := [
    Segment(10, 4.0, "a", false, ""), Segment(3, 4.0, "b", false, ""),
    Segment(4, 4.0, "c", false, ""), Segment(5, 4.0, "d", false, "")]

  const BACK_JUMP_LINES: seq<Line> := [
    MediaSequence(Some(10)), ExtInf(Some(4.0)), Uri("a"), MediaSequence(Some(3)), ExtInf(Some(4.0)), Uri("b"),
    ExtInf(Some(4.0)), Uri("c"), ExtInf(Some(4.0)), Uri("d")]

  // A segment of four seconds is parsed from two lines.
  function WithSegment(p: Parse, url: string): Parse {
    p.(segments := p.segments + [Segment(p.nextSequence, 4.0, url, false, p.currentKey)],
       nextSequence := p.nextSequence + 1, pendingDuration := -1.0)
  }

  lemma ParseSegment(lines: seq<Line>, p: Parse, url: string)
    requires p == ParseLines(START, lines) && !p.master && p.pendingBandwidth == 0 && !p.pendingDiscontinuity
    ensures ParseLines(START, lines + [ExtInf(Some(4.0)), Uri(url)]) == WithSegment(p, url)
  {
    ParseConcat(START, lines, [ExtInf(Some(4.0)), Uri(url)]);
    ParseTwo(p, ExtInf(Some(4.0)), Uri(url));
    SegmentLines(p, url);
  }

  lemma SegmentLines(p: Parse, url: string)
    requires !p.master && p.pendingBandwidth == 0 && !p.pendingDiscontinuity
    ensures ParseLine(ParseLine(p, ExtInf(Some(4.0))), Uri(url)) == WithSegment(p, url)
  {
  }

  lemma BackJumpIsParsed()
    ensures ParseLines(START, BACK_JUMP_LINES).segments == BACK_JUMP
  {
    var l1 := [] + [MediaSequence(Some(10))];
    var l2 := l1 + [ExtInf(Some(4.0)), Uri("a")];
    var l3 := l2 + [MediaSequence(Some(3))];
    var l4 := l3 + [ExtInf(Some(4.0)), Uri("b")];
    var l5 := l4 + [ExtInf(Some(4.0)), Uri("c")];
    ParseNext([], MediaSequence(Some(10)));
    ParseSegment(l1, ParseLines(START, l1), "a");
    ParseNext(l2, MediaSequence(Some(3)));
    ParseSegment(l3, ParseLines(START, l3), "b");
    ParseSegment(l4, ParseLines(START, l4), "c");
    ParseSegment(l5, ParseLines(START, l5), "d");
    assert l5 + [ExtInf(Some(4.0)), Uri("d")] == BACK_JUMP_LINES;
  }

  lemma BackJumpNumbers()
    ensures ChooseStartup(BACK_JUMP) == 4 && Usable(BACK_JUMP)
    ensures forall n: nat :: Has(BACK_JUMP, n) <==> n == 10 || n == 3 || n == 4 || n == 5
    ensures NoGap(BACK_JUMP) && !JumpsForward(BACK_JUMP)
  {
    var P := BACK_JUMP;
    assert WalkBack(P, 3, 4.0, 1, 3) == 2;
    assert WalkBack(P, 4, 0.0, 0, 3) == 2;
    assert P[0].sequence == 10 && P[1].sequence == 3 && P[2].sequence == 4 && P[3].sequence == 5;
    assert !Has(P, 7);
  }

  // A worker that wants 7 goes back to 4.
  lemma BackJumpExample()
    ensures ParseLines(START, BACK_JUMP_LINES).segments == BACK_JUMP
    ensures !Has(BACK_JUMP, 7) && !JumpsForward(BACK_JUMP)
    ensures forall s: State | Enabled(s, CheckRefill) && s.playlist == BACK_JUMP && s.next == 7 ::
              s.startup && s.segmentsPushed == 0 ==> Apply(s, CheckRefill).next == 4
  {
    BackJumpIsParsed();
    BackJumpNumbers();
  }

  // A recovery moves the number backwards exactly when the recovered playlist lacks it and it is
  // above the number the startup choice picks.
  lemma RecoveryGoesBackExactly(s: State, replies: seq<Reply>)
    requires Enabled(s, Probe(replies)) && Loaded(replies).Some?
    ensures var segments := Loaded(replies).value;
            Apply(s, Probe(replies)).next < s.next <==> !Has(segments, s.next) && s.next > ChooseStartup(segments)
  {
    NoteAllKeeps(s, replies);
  }

  // For a contiguous playlist that is: when the number was past the live edge.
  lemma RecoveryGoesBackPastTheLiveEdge(s: State, replies: seq<Reply>)
    requires Enabled(s, Probe(replies)) && Loaded(replies).Some? && Contiguous(Loaded(replies).value)
    ensures var edge := Loaded(replies).value[|Loaded(replies).value| - 1].sequence;
            Apply(s, Probe(replies)).next < s.next <==> s.next > edge
  {
    var segments := Loaded(replies).value;
    RecoveryGoesBackExactly(s, replies);
    StartupWithinRange(segments);
    MissingOnlyOutside(segments, s.next);
  }

  // ----- Progress of the refill loop ----------------------------------------------------------------

  // For any numbering at all, evaluating the head of the loop changes nothing
  // exactly when the wanted number lies in a gap of the playlist: the loop spins.
  lemma CheckSpinsExactlyInAGap(s: State)
    requires Enabled(s, CheckRefill)
    ensures Apply(s, CheckRefill) == s <==> !RefillSatisfied(s) && InGap(s)
  {
    if !RefillSatisfied(s) && !Has(s.playlist, s.next) && s.next < s.playlist[0].sequence {
      assert |Apply(s, CheckRefill).log| == |s.log| + 1;
    }
  }

  // Every number from the first one to the last one is in the playlist.
  ghost predicate NoGap(P: seq<Segment>) {
    P == [] || forall n: nat :: P[0].sequence <= n <= P[|P| - 1].sequence ==> Has(P, n)
  }

  lemma ContiguousHasNoGap(P: seq<Segment>)
    requires Contiguous(P)
    ensures NoGap(P) && JumpsForward(P)
    ensures P != [] ==> MaxNumber(P) == P[|P| - 1].sequence == P[0].sequence + |P| - 1
  {
    ContiguousJumpsForward(P);
    if P != [] {
      forall n: nat | P[0].sequence <= n <= P[|P| - 1].sequence ensures Has(P, n) {
        MissingOnlyOutside(P, n);
      }
      MissingOnlyOutside(P, MaxNumber(P));
    }
  }

  function MaxNumber(P: seq<Segment>): (m: nat)
    ensures forall i :: 0 <= i < |P| ==> P[i].sequence <= m
    ensures P != [] ==> Has(P, m)
  {
    if P == [] then 0
    else
      var n := MaxNumber(P[1..]);
      assert forall i :: 1 <= i < |P| ==> P[i] == P[1..][i - 1];
      if |P| > 1 && n > P[0].sequence then
        HasInRest(P, n);
        n
      else P[0].sequence
  }

  lemma HasInRest(P: seq<Segment>, n: nat)
    requires P != [] && Has(P[1..], n)
    ensures Has(P, n)
  {
    var i :| 0 <= i < |P| - 1 && P[1..][i].sequence == n;
    assert P[i + 1].sequence == n;
  }

  // While the loop runs its playlist is P, and a segment in hand is the wanted one.
  ghost predicate LoopsOver(P: seq<Segment>, s: State) {
    && (s.worker.Inner? || s.worker.Fetching? || s.worker.Pushing? ==> s.playlist == P)
    && (s.worker.Fetching? || s.worker.Pushing? ==> s.worker.segment.sequence == s.next && Has(P, s.next))
  }

  lemma StepKeepsInHand(s: State, a: Action)
    requires LoopsOver(s.playlist, s)
    ensures LoopsOver(Apply(s, a).playlist, Apply(s, a))
  {
    if Enabled(s, a) && (a.Probe? || a.Poll? || a.LeaveRefill?) { NoteAllKeeps(s, a.replies); }
  }

  // So it is in every run from the start.
  lemma {:induction false} RunKeepsInHand(s: State, run: seq<Action>)
    requires LoopsOver(s.playlist, s)
    ensures LoopsOver(Exec(s, run).playlist, Exec(s, run))
    decreases |run|
  {
    if run != [] {
      StepKeepsInHand(s, run[0]);
      RunKeepsInHand(Apply(s, run[0]), run[1..]);
    }
  }

  // How many numbers the loop can still go through, and the stage it is in.
  function Left(P: seq<Segment>, n: nat): nat
    requires P != []
  {
    if !Has(P, n) && n < P[0].sequence then Minus(MaxNumber(P) + 2, ChooseStartup(P))
    else Minus(MaxNumber(P) + 1, n)
  }

  function Rank(P: seq<Segment>, s: State): nat
    requires P != []
  {
    match s.worker
    case Inner(_) => 3 * Left(P, s.next) + 2
    case Fetching(_, _, _) => 3 * Left(P, s.next) + 1
    case Pushing(_, _, _, _) => 3 * Left(P, s.next)
    case _ => 0
  }

  predicate RefillAction(a: Action) {
    || a.CheckRefill? || a.FetchFailed? || a.FetchFatal? || a.FetchUseless?
    || a.Register? || a.PushFailed? || a.FinishPush?
  }

  // Playlists with neither a gap nor a backward jump.
  ghost predicate TrapFree(P: seq<Segment>) {
    Usable(P) && NoGap(P) && JumpsForward(P)
  }

  lemma JumpLowersLeft(P: seq<Segment>, n: nat)
    requires P != [] && JumpsForward(P) && !Has(P, n) && n < P[0].sequence
    ensures Left(P, ChooseStartup(P)) < Left(P, n)
  {
    StartupIsAMember(P);
  }

  lemma ProcessedLowersLeft(P: seq<Segment>, n: nat)
    requires P != [] && JumpsForward(P) && Has(P, n)
    ensures Left(P, n + 1) < Left(P, n)
  {
    StartupIsAMember(P);
    if !Has(P, n + 1) && n + 1 < P[0].sequence { assert ChooseStartup(P) > n + 1; }
  }

  lemma CheckLowersRank(P: seq<Segment>, s: State)
    requires TrapFree(P) && LoopsOver(P, s) && Enabled(s, CheckRefill)
    ensures LoopsOver(P, CheckStep(s)) && Rank(P, CheckStep(s)) < Rank(P, s)
  {
    if !RefillSatisfied(s) && !Has(P, s.next) && s.next < P[0].sequence {
      JumpLowersLeft(P, s.next);
    }
  }

  // A segment in hand is left or registered.
  lemma SegmentLowersRank(P: seq<Segment>, s: State, a: Action)
    requires TrapFree(P) && LoopsOver(P, s) && Enabled(s, a)
    requires a.FetchFailed? || a.FetchFatal? || a.Register? || a.PushFailed?
    ensures LoopsOver(P, Apply(s, a)) && Rank(P, Apply(s, a)) < Rank(P, s)
  {
    ProcessedLowersLeft(P, s.next);
    assert Apply(s, a).next == s.next && Apply(s, a).playlist == s.playlist;
  }

  lemma ProcessedLowersRank(P: seq<Segment>, s: State, t: State)
    requires TrapFree(P) && Has(P, s.next) && (s.worker.Fetching? || s.worker.Pushing?)
    requires t.playlist == P && t.next == s.next + 1 && t.worker == Inner(true)
    ensures LoopsOver(P, t) && Rank(P, t) < Rank(P, s)
  {
    ProcessedLowersLeft(P, s.next);
  }

  lemma ProcessingLowersRank(P: seq<Segment>, s: State, a: Action)
    requires TrapFree(P) && LoopsOver(P, s) && Enabled(s, a) && (a.FetchUseless? || a.FinishPush?)
    ensures LoopsOver(P, Apply(s, a)) && Rank(P, Apply(s, a)) < Rank(P, s)
  {
    ProcessedLowersRank(P, s, Apply(s, a));
  }

  lemma RefillStepsDecreaseRank(P: seq<Segment>, s: State, a: Action)
    requires TrapFree(P) && LoopsOver(P, s) && !a.EnterRefill?
    ensures LoopsOver(P, Apply(s, a)) && Rank(P, Apply(s, a)) <= Rank(P, s)
    ensures Enabled(s, a) && RefillAction(a) ==> Rank(P, Apply(s, a)) < Rank(P, s)
  {
    if Enabled(s, a) {
      if a.Probe? || a.Poll? || a.LeaveRefill? {
        NoteAllKeeps(s, a.replies);
      } else if a.CheckRefill? {
        CheckLowersRank(P, s);
      } else if a.FetchUseless? || a.FinishPush? {
        ProcessingLowersRank(P, s, a);
      } else if RefillAction(a) {
        SegmentLowersRank(P, s, a);
      }
    }
  }

  // Refill steps taken in a run, environment steps interleaved at will.
  function RefillSteps(s: State, run: seq<Action>): nat
    decreases |run|
  {
    if run == [] then 0
    else (if Enabled(s, run[0]) && RefillAction(run[0]) then 1 else 0) + RefillSteps(Apply(s, run[0]), run[1..])
  }

  ghost predicate NoEntry(run: seq<Action>) {
    forall i :: 0 <= i < |run| ==> !run[i].EnterRefill?
  }

  // Once entered over such a playlist, the refill loop ends: no run takes more than Rank(P, s) of
  // its steps before the loop is entered again, whatever is loaded meanwhile.
  lemma {:induction false} RefillLoopTerminates(P: seq<Segment>, s: State, run: seq<Action>)
    requires TrapFree(P) && LoopsOver(P, s) && NoEntry(run)
    ensures RefillSteps(s, run) <= Rank(P, s)
    decreases |run|
  {
    if run != [] {
      RefillStepsDecreaseRank(P, s, run[0]);
      assert forall i :: 0 <= i < |run[1..]| ==> run[1..][i] == run[i + 1];
      RefillLoopTerminates(P, Apply(s, run[0]), run[1..]);
    }
  }

  // Contiguous playlists are such, and the bound is three steps a segment.
  lemma ContiguousLoopTerminates(P: seq<Segment>, s: State, run: seq<Action>)
    requires Usable(P) && Contiguous(P) && LoopsOver(P, s) && NoEntry(run)
    ensures RefillSteps(s, run) <= 3 * |P| + 5
  {
    ContiguousHasNoGap(P);
    StartupIsAMember(P);
    RefillLoopTerminates(P, s, run);
    assert Left(P, s.next) <= |P| + 1 by { ContiguousJumpsForward(P); MissingOnlyOutside(P, s.next); }
  }

  // ----- Exactly which playlists let the loop end ------------------------------------------------------

  // Some bound holds for every run of the loop over P that a run from some start leads to.
  ghost predicate LoopEnds(P: seq<Segment>) {
    exists B: nat :: LoopEndsWithin(P, B)
  }

  ghost predicate LoopEndsWithin(P: seq<Segment>, B: nat) {
    forall now: nat, playlist: seq<Segment>, before: seq<Action>, run: seq<Action> ::
      playlist != [] && Exec(Start(now, playlist), before).playlist == P && NoEntry(run) ==>
        RefillSteps(Exec(Start(now, playlist), before), run) <= B
  }

  // At startup, with nothing pushed, the worker wants the number n in a gap, or goes round between
  // the startup choice and the least absent number n above it.
  ghost predicate Trapped(P: seq<Segment>, n: nat, s: State) {
    && Usable(P) && s.playlist == P && s.startup && s.segmentsPushed == 0 && !Has(P, n)
    && if P[0].sequence <= n then n <= P[|P| - 1].sequence && s.worker.Inner? && s.next == n
       else InCycle(P, n, s)
  }

  ghost predicate InCycle(P: seq<Segment>, n: nat, s: State)
    requires P != []
  {
    && ChooseStartup(P) <= s.next <= n
    && (forall m: nat :: ChooseStartup(P) <= m < n ==> Has(P, m))
    && (s.worker.Inner? || (s.worker.Fetching? && s.worker.segment.sequence == s.next < n))
  }

  // The worker's next step if no body can be pushed.
  function SpinStep(s: State): Action {
    if s.worker.Fetching? then FetchUseless(true) else CheckRefill
  }

  function Spin(s: State, B: nat): seq<Action>
    decreases B
  {
    if B == 0 then [] else [SpinStep(s)] + Spin(Apply(s, SpinStep(s)), B - 1)
  }

  lemma TrapHolds(P: seq<Segment>, n: nat, s: State)
    requires Trapped(P, n, s)
    ensures Enabled(s, SpinStep(s)) && RefillAction(SpinStep(s)) && Trapped(P, n, Apply(s, SpinStep(s)))
  {
    if s.worker.Inner? { CheckAtStartup(s); }
  }

  lemma {:induction false} SpinsForever(P: seq<Segment>, n: nat, s: State, B: nat)
    requires Trapped(P, n, s)
    ensures NoEntry(Spin(s, B)) && RefillSteps(s, Spin(s, B)) == B
    decreases B
  {
    if B > 0 {
      var a := SpinStep(s);
      var rest := Spin(Apply(s, a), B - 1);
      TrapHolds(P, n, s);
      SpinsForever(P, n, Apply(s, a), B - 1);
      assert ([a] + rest)[1..] == rest;
      assert forall i :: 1 <= i < |[a] + rest| ==> ([a] + rest)[i] == rest[i - 1];
    }
  }

  // A worker that has processed n - 1 enters the loop over P wanting n.
  lemma TrapIsReached(P: seq<Segment>, n: nat)
    requires Usable(P) && n > 0
    ensures Exec(Start(0, [Single(n - 1)]), ToPlaylist(P) + [EnterRefill])
         == Start(0, [Single(n - 1)]).(playlist := P, next := n, log := [Processed(n - 1)], worker := Inner(false))
  {
    var s0 := Start(0, [Single(n - 1)]);
    ReachesPlaylist(P, n);
    ExecConcat(s0, ToPlaylist(P), [EnterRefill]);
    var s := Exec(s0, ToPlaylist(P));
    assert [EnterRefill] == [EnterRefill] + [];
    ExecFirst(s, EnterRefill, []);
  }

  lemma TrapHasNoBound(P: seq<Segment>, n: nat, B: nat)
    requires Usable(P) && n > 0 && Trapped(P, n, Start(0, [Single(n - 1)]).(
               playlist := P, next := n, log := [Processed(n - 1)], worker := Inner(false)))
    ensures !LoopEndsWithin(P, B)
  {
    var playlist, before := [Single(n - 1)], ToPlaylist(P) + [EnterRefill];
    TrapIsReached(P, n);
    var s := Exec(Start(0, playlist), before);
    SpinsForever(P, n, s, B + 1);
    assert RefillSteps(Exec(Start(0, playlist), before), Spin(s, B + 1)) == B + 1;
  }

  lemma LeastAbsent(P: seq<Segment>, n: nat) returns (least: nat)
    requires P != [] && ChooseStartup(P) < n && !Has(P, n)
    ensures ChooseStartup(P) < least <= n && !Has(P, least)
    ensures forall m: nat :: ChooseStartup(P) <= m < least ==> Has(P, m)
    decreases n
  {
    StartupIsAMember(P);
    least := n;
    if exists m: nat :: ChooseStartup(P) < m < n && !Has(P, m) {
      var m: nat :| ChooseStartup(P) < m < n && !Has(P, m);
      least := LeastAbsent(P, m);
    }
  }

  // MAIN: the refill loop over a playlist ends in every run exactly when the playlist has no gap and no
  // absent number between the one the startup choice picks and its first one. In a gap it spins; from
  // such a number it goes round as long as nothing can be pushed.
  lemma LoopEndsExactlyWithoutTraps(P: seq<Segment>)
    requires Usable(P)
    ensures LoopEnds(P) <==> NoGap(P) && JumpsForward(P)
  {
    if NoGap(P) && JumpsForward(P) {
      TrapFreeLoopEnds(P);
    } else {
      forall B: nat ensures !LoopEndsWithin(P, B) {
        if !NoGap(P) {
          var n: nat :| P[0].sequence <= n <= P[|P| - 1].sequence && !Has(P, n);
          assert P[0].sequence != n;
          TrapHasNoBound(P, n, B);
        } else {
          var n: nat :| ChooseStartup(P) < n < P[0].sequence && !Has(P, n);
          var least := LeastAbsent(P, n);
          TrapHasNoBound(P, least, B);
        }
      }
    }
  }

  lemma TrapFreeLoopEnds(P: seq<Segment>)
    requires TrapFree(P)
    ensures LoopEndsWithin(P, 3 * MaxNumber(P) + 8)
  {
    forall now: nat, playlist: seq<Segment>, before: seq<Action>, run: seq<Action> |
      playlist != [] && Exec(Start(now, playlist), before).playlist == P && NoEntry(run)
      ensures RefillSteps(Exec(Start(now, playlist), before), run) <= 3 * MaxNumber(P) + 8
    {
      RunKeepsInHand(Start(now, playlist), before);
      TrapFreeRunEnds(P, Exec(Start(now, playlist), before), run);
    }
  }

  lemma TrapFreeRunEnds(P: seq<Segment>, s: State, run: seq<Action>)
    requires TrapFree(P) && LoopsOver(P, s) && NoEntry(run)
    ensures RefillSteps(s, run) <= 3 * MaxNumber(P) + 8
  {
    RefillLoopTerminates(P, s, run);
  }

  // The wanted number has been found, and its body is one that cannot be pushed.
  function PassedOver(s: State): State {
    s.(worker := Inner(true), next := s.next + 1, log := s.log + [Processed(s.next)], misses := 0, unavailable := false)
  }

  lemma PassesOver(s: State)
    requires Usable(s.playlist) && s.worker.Inner? && s.startup && s.segmentsPushed == 0 && Has(s.playlist, s.next)
    ensures Apply(Apply(s, CheckRefill), FetchUseless(true)) == PassedOver(s)
  {
    CheckAtStartup(s);
  }

  lemma PassesOverTwo(s: State, t: State)
    requires Usable(s.playlist) && s.worker.Inner? && s.startup && s.segmentsPushed == 0
    requires Has(s.playlist, s.next) && Has(s.playlist, s.next + 1) && t == PassedOver(PassedOver(s))
    ensures Exec(s, [CheckRefill, FetchUseless(true), CheckRefill, FetchUseless(true)]) == t
  {
    PassesOver(s);
    PassesOver(PassedOver(s));
    ExecFour(s, CheckRefill, FetchUseless(true), CheckRefill, FetchUseless(true));
  }

  lemma AddThree(log: seq<Event>, x: Event, y: Event, z: Event)
    ensures log + [x] + [y] + [z] == log + [x, y, z]
  {
  }

  // The second trap without the first: over the numbers 10, 3, 4, 5 a worker at startup that wants 4
  // and gets no body it can push processes 4 and 5, goes back from 6 to 4, and is where it was.
  lemma BackJumpCycle(s: State)
    requires s.playlist == BACK_JUMP && s.worker.Inner? && s.next == 4 && s.startup && s.segmentsPushed == 0
    ensures NoGap(BACK_JUMP) && !LoopEnds(BACK_JUMP)
    ensures Exec(s, [CheckRefill, FetchUseless(true), CheckRefill, FetchUseless(true)] + [CheckRefill])
         == s.(worker := Inner(true), misses := 0, unavailable := false,
               log := s.log + [Processed(4), Processed(5), Jumped(6, 10, 4)])
  {
    BackJumpNumbers();
    LoopEndsExactlyWithoutTraps(BACK_JUMP);
    var t := PassedOver(PassedOver(s));
    PassesOverTwo(s, t);
    ExecConcat(s, [CheckRefill, FetchUseless(true), CheckRefill, FetchUseless(true)], [CheckRefill]);
    ExecFirst(t, CheckRefill, []);
    CheckAtStartup(t);
    AddThree(s.log, Processed(4), Processed(5), Jumped(6, 10, 4));
  }

  // ----- The published deadline -------------------------------------------------------------------------

  // guaranteedBufferedAheadMilliseconds
  function ReportedMs(s: State): nat {
    if s.bufferedUntil == 0 then 0 else Minus(s.bufferedUntil, s.now / NS_PER_SECOND) * 1000
  }

  // The report stays less than one second above the true reservoir.
  predicate Truthful(s: State) { ReportedMs(s) * 1_000_000 < Ahead(s) + NS_PER_SECOND }

  // Playback at wall-clock speed since the first push would not exhaust the pushed
  // media before the deadline; or the deadline is already over.
  predicate DeadlineCovered(s: State) {
    s.bufferedUntil * NS_PER_SECOND <= s.firstPush + s.pushed || s.bufferedUntil <= s.now / NS_PER_SECOND
  }

  ghost predicate NoPush(run: seq<Action>) {
    forall i :: 0 <= i < |run| ==> !run[i].FinishPush?
  }

  lemma {:induction false} BetweenPushes(s: State, run: seq<Action>)
    requires s.firstPush != 0 && NoPush(run)
    ensures var t := Exec(s, run);
            && t.now >= s.now && t.firstPush == s.firstPush && t.pushed == s.pushed
            && t.bufferedUntil == s.bufferedUntil
    decreases |run|
  {
    if run != [] {
      assert !run[0].FinishPush?;
      StepBetweenPushes(s, run[0]);
      assert forall i :: 0 <= i < |run[1..]| ==> run[1..][i] == run[i + 1];
      BetweenPushes(Apply(s, run[0]), run[1..]);
    }
  }

  lemma StepBetweenPushes(s: State, a: Action)
    requires s.firstPush != 0 && !a.FinishPush?
    ensures var t := Apply(s, a);
            && t.now >= s.now && t.firstPush == s.firstPush && t.pushed == s.pushed
            && t.bufferedUntil == s.bufferedUntil
  {
    if a.Probe? || a.Poll? || a.LeaveRefill? { NoteAllKeeps(s, a.replies); }
  }

  lemma CoveredIsTruthful(s: State, run: seq<Action>)
    requires 0 < s.firstPush <= s.now && NoPush(run) && DeadlineCovered(s)
    ensures Truthful(Exec(s, run))
  {
    BetweenPushes(s, run);
  }

  // The last nanosecond of the current second, with everything drained by then.
  function Burst(s: State): seq<Action> {
    [CommitConsumed, TerminalBuffer(SumBytes(s.spans)), CommitConsumed,
     Tick(s.now - s.now % NS_PER_SECOND + (NS_PER_SECOND - 1))]
  }

  lemma BurstConsumesEverything(s: State, D: nat)
    requires Inv(s, D) && InFlight(s) == 0
    ensures var t := Exec(s, Burst(s));
            && NoPush(Burst(s))
            && t == s.(pending := 0, spans := [], consumed := s.pushed,
                       now := s.now - s.now % NS_PER_SECOND + (NS_PER_SECOND - 1))
  {
    var run := Burst(s);
    var s1 := Apply(s, run[0]);
    DrainConserves(s1.spans, SumBytes(s1.spans));
    NoBytesNoSpans(Apply(s1, run[1]).spans);
    ExecFour(s, run[0], run[1], run[2], run[3]);
    assert run == [run[0], run[1], run[2], run[3]];
  }

  lemma BurstIsUntruthful(s: State, t: State)
    requires 0 < s.firstPush <= s.now && !DeadlineCovered(s)
    requires t.now == s.now - s.now % NS_PER_SECOND + (NS_PER_SECOND - 1)
    requires t.firstPush == s.firstPush && t.bufferedUntil == s.bufferedUntil && t.pushed == t.consumed == s.pushed
    ensures !Truthful(t)
  {
    var k := s.now / NS_PER_SECOND;
    assert t.now == k * NS_PER_SECOND + (NS_PER_SECOND - 1);
    assert t.now / NS_PER_SECOND == k;
    assert Ahead(t) == Minus(s.pushed, t.now - s.firstPush);
  }

  // Until the next push the report exceeds the reservoir by less than a second in
  // every interleaving, exactly when the deadline is covered.  The source's comment
  // claims it outright; a downstream that lags the clock and then catches up in one
  // burst is what it overlooks.
  lemma TruthfulExactlyWhenCovered(s: State, D: nat)
    requires Inv(s, D) && InFlight(s) == 0 && s.firstPush != 0
    ensures DeadlineCovered(s) <==> forall run :: NoPush(run) ==> Truthful(Exec(s, run))
  {
    if DeadlineCovered(s) {
      forall run | NoPush(run)
        ensures Truthful(Exec(s, run))
      {
        CoveredIsTruthful(s, run);
      }
    } else {
      BurstConsumesEverything(s, D);
      BurstIsUntruthful(s, Exec(s, Burst(s)));
    }
  }

  const TEN_SECONDS := Segment(0, 10.0, "a", false, "")

  function OneSegmentOnItsWay(): State {
    Apply(Apply(Apply(Start(NS_PER_SECOND, [TEN_SECONDS]), EnterRefill), CheckRefill), Register(188))
  }

  lemma OneSegmentOnItsWayState()
    ensures OneSegmentOnItsWay()
         == Start(NS_PER_SECOND, [TEN_SECONDS]).(firstPush := NS_PER_SECOND, spans := [Span(188, 10 * NS_PER_SECOND)],
                                                 worker := Pushing(TEN_SECONDS, 188, 0, false))
  {
    var pl := [TEN_SECONDS];
    TenSeconds();
    assert Has(pl, 0) by { assert pl[0].sequence == 0; }
    var s0 := Start(NS_PER_SECOND, pl);
    assert s0.next == 0 by { assert StartupIndex(pl) == 0; }
    var inner := Apply(s0, EnterRefill);
    assert inner == s0.(worker := Inner(false));
    var fetching := Apply(inner, CheckRefill);
    assert fetching == s0.(worker := Fetching(pl[0], 0, false));
  }

  // Such a run: 10 s of media are pushed over 5 s while downstream takes nothing, and then all
  // of it is taken within the second.
  lemma LaggingDownstreamIsOverReported()
    ensures var s := Apply(Apply(OneSegmentOnItsWay(), Tick(6 * NS_PER_SECOND)), FinishPush(6));
            && s.segmentsPushed == 1 && Ahead(s) == 10 * NS_PER_SECOND && !DeadlineCovered(s)
            && exists run :: NoPush(run) && !Truthful(Exec(s, run))
  {
    OneSegmentOnItsWayState();
    TenSeconds();
    var s1, D := OneSegmentOnItsWay(), 10 * NS_PER_SECOND;
    var late := Apply(s1, Tick(6 * NS_PER_SECOND));
    assert late == s1.(now := 6 * NS_PER_SECOND);
    OneSegmentInv();
    StepKeepsInv(s1, Tick(6 * NS_PER_SECOND), D);
    StepKeepsInv(late, FinishPush(6), D);
    TruthfulExactlyWhenCovered(Apply(late, FinishPush(6)), D);
  }

  lemma OneSegmentInv()
    ensures Inv(OneSegmentOnItsWay(), 10 * NS_PER_SECOND)
  {
    var s0, D := Start(NS_PER_SECOND, [TEN_SECONDS]), 10 * NS_PER_SECOND;
    TenSeconds();
    StartInv(NS_PER_SECOND, [TEN_SECONDS], D);
    StepKeepsInv(s0, EnterRefill, D);
    StepKeepsInv(Apply(s0, EnterRefill), CheckRefill, D);
    StepKeepsInv(Apply(Apply(s0, EnterRefill), CheckRefill), Register(188), D);
  }

  lemma TenSeconds()
    ensures RoundNs(10.0) == 10 * NS_PER_SECOND
  {
  }

  // A push made while downstream had kept up with the clock publishes a covered
  // deadline.
  lemma KeepingUpCovers(s: State, second: nat)
    requires Enabled(s, FinishPush(second)) && s.firstPush <= s.now
    requires s.consumed >= s.now - s.firstPush && s.firstPush != 0
    ensures DeadlineCovered(Apply(s, FinishPush(second)))
  {
  }

  // And whatever downstream does, without another push the report is zero once the
  // published whole seconds are over.
  lemma ReportExpires(s: State, second: nat, run: seq<Action>)
    requires Enabled(s, FinishPush(second)) && s.firstPush != 0 && NoPush(run)
    ensures var p := Apply(s, FinishPush(second));
            var t := Exec(p, run);
            t.now >= s.now + Ahead(p) / NS_PER_SECOND * NS_PER_SECOND ==> ReportedMs(t) == 0
  {
    var p := Apply(s, FinishPush(second));
    BetweenPushes(p, run);
    var t := Exec(p, run);
    if t.now >= s.now + Ahead(p) / NS_PER_SECOND * NS_PER_SECOND {
      assert t.now / NS_PER_SECOND >= s.now / NS_PER_SECOND + Ahead(p) / NS_PER_SECOND;
      assert second <= s.now / NS_PER_SECOND;
    }
  }
}
